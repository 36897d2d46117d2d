/**
 * Blueprint pin types and the FK2Type / FK2Conversion descriptors the two
 * polymorphic nodes are built from.
 */
module K2Types {
  import opened Wrappers

  /** An engine name (FName); the empty string stands for the name None. */
  type Name = string

  const NameNone: Name := ""

  /** The pin categories the nodes test for; any other category is OtherCategory. */
  datatype Category = NoCategory | Wildcard | Struct | Real | Double | OtherCategory(name: Name)

  datatype Container = NoContainer | ArrayContainer | SetContainer | MapContainer

  /** The script structs a pin's sub-category object can point at. */
  datatype StructId =
    | SDimensionlessVector | SDistanceVector | SVelocityVector | SAngularVelocity
    | SDimensionlessStateVector | SStateVector
    | SDistance | SSpeed | SAngularRate
    | OtherStruct(name: Name)

  /** FEdGraphPinType: category, sub-category object (None is a null pointer), container. */
  datatype PinType = PinType(category: Category, subObject: Option<StructId>, container: Container)

  const WildcardPin := PinType(Wildcard, None, NoContainer)

  /** FK2Type: a named type descriptor that a pin type can be compared with. */
  datatype K2Type = K2Type(typeName: Name, category: Category, subObject: Option<StructId>, container: Container)
  {
    function AsPinType(): PinType {
      PinType(category, subObject, container)
    }

    /** FK2Type::Is: the pin type is exactly this type. */
    predicate Is(p: PinType) {
      AsPinType() == p
    }
  }

  /** FK2Type::Matches, a relation whose definition is not part of this model. */
  type MatchRelation = (K2Type, PinType) -> bool

  /** FK2Type(): the default descriptor, with category None. */
  const NoType := K2Type(NameNone, NoCategory, None, NoContainer)

  const WildcardType := K2Type("wildcard", Wildcard, None, NoContainer)
  const DoubleType := K2Type("double", Double, None, NoContainer)
  const SDimensionlessVectorType := K2Type("SDimensionlessVector", Struct, Some(SDimensionlessVector), NoContainer)
  const SDistanceVectorType := K2Type("SDistanceVector", Struct, Some(SDistanceVector), NoContainer)
  const SVelocityVectorType := K2Type("SVelocityVector", Struct, Some(SVelocityVector), NoContainer)
  const SAngularVelocityType := K2Type("SAngularVelocity", Struct, Some(SAngularVelocity), NoContainer)
  const SDimensionlessStateVectorType := K2Type("SDimensionlessStateVector", Struct, Some(SDimensionlessStateVector), NoContainer)
  const SStateVectorType := K2Type("SStateVector", Struct, Some(SStateVector), NoContainer)
  const SDistanceType := K2Type("SDistance", Struct, Some(SDistance), NoContainer)
  const SSpeedType := K2Type("SSpeed", Struct, Some(SSpeed), NoContainer)
  const SAngularRateType := K2Type("SAngularRate", Struct, Some(SAngularRate), NoContainer)

  /** FK2Conversion: the name of an adapter function and the types it maps between. */
  datatype Conversion = Conversion(conversionName: Name, inType: K2Type, outType: K2Type)

  /** FK2Conversion(): no adapter (its name is None). */
  const NoConversion := Conversion(NameNone, NoType, NoType)

  const SDistanceVectorToSDimensionlessVector :=
    Conversion("Conv_SDistanceVectorToSDimensionlessVector", SDistanceVectorType, SDimensionlessVectorType)
  const SVelocityVectorToSDimensionlessVector :=
    Conversion("Conv_SVelocityVectorToSDimensionlessVector", SVelocityVectorType, SDimensionlessVectorType)
  const SAngularVelocityToSDimensionlessVector :=
    Conversion("Conv_SAngularVelocityToSDimensionlessVector", SAngularVelocityType, SDimensionlessVectorType)
  const DoubleToSDistance := Conversion("Conv_DoubleToSDistance", DoubleType, SDistanceType)
  const DoubleToSSpeed := Conversion("Conv_DoubleToSSpeed", DoubleType, SSpeedType)
  const DoubleToSAngularRate := Conversion("Conv_DoubleToSAngularRate", DoubleType, SAngularRateType)
  const SDimensionlessVectorToSDistanceVector :=
    Conversion("Conv_SDimensionlessVectorToSDistanceVector", SDimensionlessVectorType, SDistanceVectorType)
  const SDimensionlessVectorToSVelocityVector :=
    Conversion("Conv_SDimensionlessVectorToSVelocityVector", SDimensionlessVectorType, SVelocityVectorType)
  const SDimensionlessVectorToSAngularVelocity :=
    Conversion("Conv_SDimensionlessVectorToSAngularVelocity", SDimensionlessVectorType, SAngularVelocityType)
  const SDimensionlessStateVectorToSStateVector :=
    Conversion("Conv_SDimensionlessStateVectorToSStateVector", SDimensionlessStateVectorType, SStateVectorType)

  datatype Direction = Input | Output

  /**
   * A pin of a node: its type, the types of the pins it is linked to (in link
   * order), whether it is hidden, and the label the editor shows for it.
   */
  datatype Pin = Pin(name: Name, direction: Direction, pinType: PinType, linkedTo: seq<PinType>,
                     hidden: bool, friendlyName: string)
}
