/**
 * The vpack graph node (K2Node_pack.cpp): packs scalar inputs into one of six
 * vector kinds. The node keeps an operand type, resolved from the first
 * concrete type linked to its output pin against the supported types derived
 * from a fixed operation registry; the operand type decides which input pins
 * are shown and which operation the node compiles to.
 */
module Pack {
  import opened Wrappers
  import opened K2Types
  import opened Search
  import opened CallGraphs

  // Names USpiceK2 declares for the primitives and the input pins.
  const VpackVector: Name := "vpack_vector"
  const VpackStateVector: Name := "vpack_state_vector"

  /** USpiceK2::vpack_inputs; its length is USpiceK2::vpack_inputs_n. */
  const InputNames: seq<Name> := ["x", "y", "z", "dx", "dy", "dz"]
  const InputCount: nat := 6

  /** How many input pins RefreshOperand labels when the operand has no struct. */
  const DefaultLabelCount: nat := 3

  const OutputPinName: Name := "Vec"
  const RealPin := PinType(Real, None, NoContainer)

  /** Whether the function named first has an input pin named second. */
  type PinQuery = (Name, Name) -> bool

  /**
   * One concrete variant: the primitive packs into `innerType`, and the
   * conversion (when it has a name) turns that into `outerType`, the type the
   * output pin shows.
   */
  datatype PackOp = PackOp(
    shortName: Name,
    k2NodeName: Name,
    innerType: K2Type,
    outerType: K2Type,
    innerToOuterConversion: Conversion)

  /** A default-constructed operation, as the caller of CheckForErrors holds it. */
  const NoOperation := PackOp(NameNone, NameNone, NoType, NoType, NoConversion)

  function DirectOp(shortName: Name, k2NodeName: Name, t: K2Type): PackOp {
    PackOp(shortName, k2NodeName, t, t, NoConversion)
  }

  function ConvertingOp(shortName: Name, k2NodeName: Name, conversion: Conversion): PackOp {
    PackOp(shortName, k2NodeName, conversion.inType, conversion.outType, conversion)
  }

  /** UK2Node_pack::GetSupportedOperations, in declaration order. */
  const SupportedOperations: seq<PackOp> := [
    DirectOp("vpack dimensionless vector", VpackVector, SDimensionlessVectorType),
    ConvertingOp("vpack distance vector", VpackVector, SDimensionlessVectorToSDistanceVector),
    ConvertingOp("vpack velocity vector", VpackVector, SDimensionlessVectorToSVelocityVector),
    ConvertingOp("vpack angular velocity", VpackVector, SDimensionlessVectorToSAngularVelocity),
    DirectOp("vpack dimensionless state vector", VpackStateVector, SDimensionlessStateVectorType),
    ConvertingOp("vpack state vector", VpackStateVector, SDimensionlessStateVectorToSStateVector)
  ]

  /**
   * The outer types of the operations, each once.
   */
  function TypesFromOperations(ops: seq<PackOp>): (types: seq<K2Type>)
    ensures forall i, j :: 0 <= i < j < |types| ==> types[i] != types[j]
    ensures forall t :: t in types <==> exists i :: 0 <= i < |ops| && ops[i].outerType == t
    decreases |ops|
  {
    if ops == [] then []
    else
      var n := |ops| - 1;
      var rest := TypesFromOperations(ops[..n]);
      assert forall i :: 0 <= i < n ==> ops[..n][i] == ops[i];
      if ops[n].outerType in rest then rest else rest + [ops[n].outerType]
  }

  /** UK2Node_pack::GetSupportedTypes: computed once from the registry. */
  const SupportedTypes: seq<K2Type> := TypesFromOperations(SupportedOperations)

  /**
   * The registry holds six named entries whose outer types are pairwise
   * distinct concrete struct types; so the supported types are exactly the
   * outer types in registry order (de-duplication removes nothing).
   */
  lemma RegistryShape()
    ensures |SupportedOperations| == 6
    ensures forall i :: 0 <= i < |SupportedOperations| ==> SupportedOperations[i].shortName != NameNone
    ensures forall i, j :: 0 <= i < j < |SupportedOperations| ==>
      SupportedOperations[i].outerType.AsPinType() != SupportedOperations[j].outerType.AsPinType()
    ensures forall i :: 0 <= i < |SupportedOperations| ==>
      SupportedOperations[i].outerType.category == Struct
    ensures |SupportedTypes| == |SupportedOperations|
    ensures forall i :: 0 <= i < |SupportedTypes| ==> SupportedTypes[i] == SupportedOperations[i].outerType
  {
    var ops := SupportedOperations;
    assert TypesFromOperations(ops[..0]) == [];
    assert ops[..1][..0] == ops[..0];
    assert TypesFromOperations(ops[..1]) == [ops[0].outerType];
    assert ops[..2][..1] == ops[..1];
    assert TypesFromOperations(ops[..2]) == [ops[0].outerType, ops[1].outerType];
    assert ops[..3][..2] == ops[..2];
    assert TypesFromOperations(ops[..3]) == [ops[0].outerType, ops[1].outerType, ops[2].outerType];
    assert ops[..4][..3] == ops[..3];
    assert TypesFromOperations(ops[..4]) == [ops[0].outerType, ops[1].outerType, ops[2].outerType, ops[3].outerType];
    assert ops[..5][..4] == ops[..4];
    assert TypesFromOperations(ops[..5]) ==
      [ops[0].outerType, ops[1].outerType, ops[2].outerType, ops[3].outerType, ops[4].outerType];
    assert ops[..6][..5] == ops[..5];
    assert ops[..6] == ops;
  }

  /** Each supported type Is only its own pin type: at most one supported type Is any given pin type. */
  lemma SupportedTypeUnique(i: nat, j: nat, t: PinType)
    requires i < |SupportedTypes| && j < |SupportedTypes|
    requires SupportedTypes[i].Is(t) && SupportedTypes[j].Is(t)
    ensures i == j
  {
    RegistryShape();
  }

  // ---------------------------------------------------------------------------
  // Resolution (NodeConnectionListChanged) and validation (CheckForErrors)
  // ---------------------------------------------------------------------------

  predicate IsConcrete(p: PinType) {
    p.category != Wildcard
  }

  /** The discriminating type: the first non-wildcard type among the output pin's links. */
  function FirstConcreteLink(links: seq<PinType>): Option<PinType> {
    match FirstMatch(links, IsConcrete)
    case None => None
    case Some(i) => Some(links[i])
  }

  function SupportedTypeIndex(t: PinType): Option<nat> {
    FirstMatch(SupportedTypes, (k: K2Type) => k.Is(t))
  }

  /**
   * The operand type NodeConnectionListChanged settles on: wildcard with no
   * concrete link, the first supported type that Is the discriminating type,
   * or the current operand type when no supported type does.
   */
  function ResolvedOperand(current: K2Type, links: seq<PinType>): K2Type {
    match FirstConcreteLink(links)
    case None => WildcardType
    case Some(t) =>
      match SupportedTypeIndex(t)
      case None => current
      case Some(i) => SupportedTypes[i]
  }

  /** The type NodeConnectionListChanged leaves on the output pin, by the same cases. */
  function ResolvedOutputPinType(current: PinType, links: seq<PinType>): PinType {
    match FirstConcreteLink(links)
    case None => WildcardPin
    case Some(t) =>
      match SupportedTypeIndex(t)
      case None => current
      case Some(i) => SupportedTypes[i].AsPinType()
  }

  /** The index of the first operation whose outer type is the operand type. */
  function Validation(operand: K2Type): Option<nat> {
    FirstMatch(SupportedOperations, (op: PackOp) => op.outerType == operand)
  }

  /**
   * Only the first concrete link decides: the links before it are wildcards
   * and the links after it are ignored.
   */
  lemma FirstConcreteLinkDecides(current: K2Type, links: seq<PinType>, t: PinType)
    requires FirstConcreteLink(links) == Some(t)
    ensures IsConcrete(t)
    ensures exists i :: 0 <= i < |links| && links[i] == t && forall j :: 0 <= j < i ==> !IsConcrete(links[j])
    ensures ResolvedOperand(current, links) == ResolvedOperand(current, [t])
    ensures ResolvedOutputPinType(current.AsPinType(), links) == ResolvedOutputPinType(current.AsPinType(), [t])
  {
    var i := FirstMatch(links, IsConcrete).value;
    FirstMatchAt([t], IsConcrete, 0);
  }

  /** With no concrete link (in particular with none at all) the operand becomes the wildcard type. */
  lemma NoConcreteLinkIsGeneric(current: K2Type, links: seq<PinType>)
    requires forall i :: 0 <= i < |links| ==> links[i].category == Wildcard
    ensures ResolvedOperand(current, links) == WildcardType
    ensures ResolvedOutputPinType(current.AsPinType(), links) == WildcardPin
  {
  }

  /**
   * A discriminating type that supported type i Is resolves the operand to
   * supported type i; one that no supported type Is leaves the operand as it
   * was.
   */
  lemma ConcreteLinkResolves(current: K2Type, links: seq<PinType>, t: PinType)
    requires FirstConcreteLink(links) == Some(t)
    ensures forall i :: 0 <= i < |SupportedTypes| && SupportedTypes[i].Is(t) ==>
      ResolvedOperand(current, links) == SupportedTypes[i]
    ensures (forall i :: 0 <= i < |SupportedTypes| ==> !SupportedTypes[i].Is(t)) ==>
      ResolvedOperand(current, links) == current
  {
    forall i | 0 <= i < |SupportedTypes| && SupportedTypes[i].Is(t)
      ensures ResolvedOperand(current, links) == SupportedTypes[i]
    {
      var k := SupportedTypeIndex(t).value;
      SupportedTypeUnique(i, k, t);
    }
  }

  /** Every operation's outer type validates to that operation, and no other. */
  lemma EachOperationValidates(i: nat)
    requires i < |SupportedOperations|
    ensures Validation(SupportedOperations[i].outerType) == Some(i)
  {
    RegistryShape();
    forall j | 0 <= j < i ensures SupportedOperations[j].outerType != SupportedOperations[i].outerType {
      assert SupportedOperations[j].outerType.AsPinType() != SupportedOperations[i].outerType.AsPinType();
    }
    FirstMatchAt(SupportedOperations, (op: PackOp) => op.outerType == SupportedOperations[i].outerType, i);
  }

  /** A generic node (wildcard or default operand) fails validation. */
  lemma GenericOperandFailsValidation()
    ensures Validation(WildcardType).None?
    ensures Validation(NoType).None?
  {
    RegistryShape();
  }

  /**
   * Resolution and validation agree: once a concrete link that some supported
   * type Is has resolved the operand, validation finds an operation whose
   * outer type Is that link's type.
   */
  lemma ResolvedOperandValidates(current: K2Type, links: seq<PinType>, t: PinType)
    requires FirstConcreteLink(links) == Some(t)
    requires SupportedTypeIndex(t).Some?
    ensures Validation(ResolvedOperand(current, links)).Some?
    ensures SupportedOperations[Validation(ResolvedOperand(current, links)).value].outerType.Is(t)
  {
    RegistryShape();
    var i := SupportedTypeIndex(t).value;
    EachOperationValidates(i);
  }

  /**
   * Rebuilding the pins from a resolved operand restores the output pin's
   * type: whenever resolution settles on a supported type or on the
   * wildcard, the type the pins are allocated with is the resolved one.
   */
  lemma RebuildRestoresOutputPinType(current: K2Type, links: seq<PinType>)
    requires FirstConcreteLink(links).None? || SupportedTypeIndex(FirstConcreteLink(links).value).Some?
    ensures OutputPinTypeFor(ResolvedOperand(current, links)) == ResolvedOutputPinType(current.AsPinType(), links)
  {
    RegistryShape();
  }

  // ---------------------------------------------------------------------------
  // Expansion (ExpandNode)
  // ---------------------------------------------------------------------------

  /**
   * The moves ExpandNode makes for the input pins, in order: one for each
   * input pin whose name the primitive also has as an input.
   */
  function InputMoves(k2NodeName: Name, inputPins: seq<Pin>, hasPin: PinQuery): seq<Move>
    requires |inputPins| <= InputCount
  {
    if inputPins == [] then []
    else
      var n := |inputPins| - 1;
      InputMoves(k2NodeName, inputPins[..n], hasPin)
        + (if hasPin(k2NodeName, InputNames[n]) then [Move(InputNames[n], inputPins[n].linkedTo, 0, InputNames[n])] else [])
  }

  /**
   * Input links go only to the primitive (call 0), only onto a pin of the
   * same name that the primitive has, and every input pin whose name the
   * primitive has gets its links moved.
   */
  lemma {:induction false} InputMovesExact(k2NodeName: Name, inputPins: seq<Pin>, hasPin: PinQuery)
    requires |inputPins| <= InputCount
    ensures forall m <- InputMoves(k2NodeName, inputPins, hasPin) ::
      m.toCall == 0 && m.toPin == m.pin && hasPin(k2NodeName, m.pin) && m.pin in InputNames[..|inputPins|]
    ensures forall n :: 0 <= n < |inputPins| && hasPin(k2NodeName, InputNames[n]) ==>
      Move(InputNames[n], inputPins[n].linkedTo, 0, InputNames[n]) in InputMoves(k2NodeName, inputPins, hasPin)
  {
    if inputPins != [] {
      var n := |inputPins| - 1;
      InputMovesExact(k2NodeName, inputPins[..n], hasPin);
      assert InputNames[..n] <= InputNames[..|inputPins|];
      forall k | 0 <= k < n ensures inputPins[..n][k] == inputPins[k] {
      }
    }
  }

  /** The calls ExpandNode spawns for a validated operation and an output pin. */
  function ExpandOperation(op: PackOp, inputPins: seq<Pin>, outputPin: Pin, hasPin: PinQuery): CallGraph
    requires |inputPins| <= InputCount
  {
    var hasConversion := op.innerToOuterConversion.conversionName != NameNone;
    CallGraph(
      [op.k2NodeName] + (if hasConversion then [op.innerToOuterConversion.conversionName] else []),
      if hasConversion then [Wire(0, ReturnValue, 1, ConvInput)] else [],
      InputMoves(op.k2NodeName, inputPins, hasPin)
        + [Move(outputPin.name, outputPin.linkedTo, if hasConversion then 1 else 0, ReturnValue)])
  }

  /** The outcome of ExpandNode: an operand type error, an internal error for a missing output pin, or the calls. */
  function Expansion(operand: K2Type, inputPins: seq<Pin>, output: Option<Pin>, hasPin: PinQuery): Result<CallGraph, CompileError>
    requires |inputPins| <= InputCount
  {
    match Validation(operand)
    case None => Failure(OperandTypeError)
    case Some(i) =>
      match output
      case None => Failure(InternalTypeError)
      case Some(outputPin) => Success(ExpandOperation(SupportedOperations[i], inputPins, outputPin, hasPin))
  }

  /**
   * Expansion fails with an operand type error exactly when validation fails,
   * and with an internal error when there is no output pin; otherwise it
   * spawns the primitive first and one conversion call when the operation
   * names one, and moves the output pin's links last, onto the return value
   * of the last call.
   */
  lemma ExpansionShape(operand: K2Type, inputPins: seq<Pin>, output: Option<Pin>, hasPin: PinQuery)
    requires |inputPins| <= InputCount
    ensures Expansion(operand, inputPins, output, hasPin) == Failure(OperandTypeError) <==> Validation(operand).None?
    ensures Expansion(operand, inputPins, output, hasPin) == Failure(InternalTypeError) <==>
      Validation(operand).Some? && output.None?
    ensures Expansion(operand, inputPins, output, hasPin).Success? ==>
      var g := Expansion(operand, inputPins, output, hasPin).value;
      var op := SupportedOperations[Validation(operand).value];
      && 1 <= |g.calls| <= 2
      && (|g.calls| == 2 <==> op.innerToOuterConversion.conversionName != NameNone)
      && g.calls[0] == op.k2NodeName
      && op.outerType == operand
      && g.WellFormed()
      && |g.moves| >= 1
      && g.moves[..|g.moves| - 1] == InputMoves(op.k2NodeName, inputPins, hasPin)
      && g.moves[|g.moves| - 1] == Move(output.value.name, output.value.linkedTo, |g.calls| - 1, ReturnValue)
      && (|g.calls| == 2 ==>
            g.calls[1] == op.innerToOuterConversion.conversionName && g.wires == [Wire(0, ReturnValue, 1, ConvInput)])
      && (|g.calls| == 1 ==> g.wires == [])
  {
    if Expansion(operand, inputPins, output, hasPin).Success? {
      var op := SupportedOperations[Validation(operand).value];
      InputMovesExact(op.k2NodeName, inputPins, hasPin);
    }
  }

  /**
   * Packing a distance vector takes two calls: vpack_vector, whose
   * dimensionless result feeds the conversion to a distance vector that
   * drives the output pin.
   */
  lemma DistanceVectorExpansion(inputPins: seq<Pin>, outputPin: Pin, hasPin: PinQuery)
    requires |inputPins| <= InputCount
    ensures Expansion(SDistanceVectorType, inputPins, Some(outputPin), hasPin) == Success(CallGraph(
      [VpackVector, SDimensionlessVectorToSDistanceVector.conversionName],
      [Wire(0, ReturnValue, 1, ConvInput)],
      InputMoves(VpackVector, inputPins, hasPin) + [Move(outputPin.name, outputPin.linkedTo, 1, ReturnValue)]))
  {
    var op := SupportedOperations[1];
    assert op.outerType == SDistanceVectorType;
    assert op.k2NodeName == VpackVector;
    assert op.innerToOuterConversion == SDimensionlessVectorToSDistanceVector;
    assert SDimensionlessVectorToSDistanceVector.conversionName != NameNone;
    EachOperationValidates(1);
    var g := ExpandOperation(op, inputPins, outputPin, hasPin);
    assert g.calls == [VpackVector, SDimensionlessVectorToSDistanceVector.conversionName];
    assert g.moves == InputMoves(VpackVector, inputPins, hasPin) + [Move(outputPin.name, outputPin.linkedTo, 1, ReturnValue)];
  }

  // ---------------------------------------------------------------------------
  // The node
  // ---------------------------------------------------------------------------

  /** An operand type other than None and wildcard: the output pin is fixed to it. */
  predicate IsFixed(operand: K2Type) {
    operand.category != NoCategory && operand.category != Wildcard
  }

  /** The type AllocateDefaultPins gives the output pin: the operand type when fixed, else wildcard. */
  function OutputPinTypeFor(operand: K2Type): (p: PinType)
    ensures p.category == Wildcard || p == operand.AsPinType()
    ensures p.category != NoCategory
  {
    if IsFixed(operand) then operand.AsPinType() else WildcardPin
  }

  /** A wildcard, or a type that some supported type Matches. */
  predicate SomeSupportedTypeAdmits(other: PinType, matches: MatchRelation) {
    other.category == Wildcard || exists i :: 0 <= i < |SupportedTypes| && matches(SupportedTypes[i], other)
  }

  /** An input pin after RefreshOperand: labelled and shown when it has a label, hidden otherwise. */
  function RefreshedPin(p: Pin, i: nat, labels: seq<string>): Pin {
    if i < |labels| then p.(friendlyName := labels[i], hidden := false) else p.(hidden := true)
  }

  class PackNode {
    var operandType: K2Type
    var pinLabels: seq<string>
    var defaultValues: seq<real>
    const inputs: array<Pin>
    var output: Option<Pin>

    /** FK2Type::GetTypePinLabels: the component labels of a struct. */
    const pinLabelsOf: StructId -> seq<string>

    ghost predicate Valid()
      reads this, inputs
    {
      && inputs.Length == InputCount
      && (forall i :: 0 <= i < InputCount ==> inputs[i].name == InputNames[i] && inputs[i].direction == Input)
      && (output.Some? ==> output.value.direction == Output)
    }

    /** The labels RefreshOperand gives the input pins: the struct's labels, else the first three input names. */
    function OperandLabels(operand: K2Type): (labels: seq<string>)
      ensures operand.subObject.None? ==> |labels| == DefaultLabelCount
    {
      match operand.subObject
      case Some(s) => pinLabelsOf(s)
      case None => InputNames[..DefaultLabelCount]
    }

    /**
     * A node with its pins allocated. `savedOperand` is the operand type the
     * node holds when its pins are allocated: the default (None) for a new
     * node, the stored one when a saved node is rebuilt. Default values are
     * all zero; the output pin takes the operand type when it is fixed and is
     * a wildcard otherwise; the input pins are real, shown exactly when they
     * have a label for that operand type.
     */
    constructor (pinLabelsOf: StructId -> seq<string>, savedOperand: K2Type)
      ensures Valid()
      ensures this.pinLabelsOf == pinLabelsOf
      ensures defaultValues == seq(InputCount, _ => 0.0)
      ensures operandType == savedOperand
      ensures output == Some(Pin(OutputPinName, Output, OutputPinTypeFor(savedOperand), [], false, ""))
      ensures pinLabels == OperandLabels(savedOperand)
      ensures forall i :: 0 <= i < inputs.Length ==>
        inputs[i] == RefreshedPin(Pin(InputNames[i], Input, RealPin, [], false, ""), i, pinLabels)
      ensures fresh(inputs)
    {
      this.pinLabelsOf := pinLabelsOf;
      var values: seq<real> := [];
      var i := 0;
      while i < InputCount
        invariant 0 <= i <= InputCount
        invariant values == seq(i, _ => 0.0)
      {
        values := values + [0.0];
        i := i + 1;
      }
      defaultValues := values;
      operandType := savedOperand;
      pinLabels := [];
      inputs := new Pin[InputCount](i requires 0 <= i < InputCount => Pin(InputNames[i], Input, RealPin, [], false, ""));
      var outputPinType := WildcardPin;
      if IsFixed(savedOperand) {
        outputPinType := savedOperand.AsPinType();
      }
      output := Some(Pin(OutputPinName, Output, outputPinType, [], false, ""));
      new;
      var _ := RefreshOperand();
    }

    /**
     * Whether the editor must refuse to link `myPin` to a pin of type
     * `other`: input pins take only wildcard, double or real; a fixed output
     * takes a type its operand Matches, or a wildcard; a wildcard output of a
     * generic node takes a wildcard or any type some supported type Matches;
     * anything else is refused.
     */
    function IsConnectionDisallowed(myPin: Pin, other: PinType, matches: MatchRelation): (disallowed: bool)
      reads this
      ensures myPin.direction == Input ==>
        (disallowed <==> !(other.category == Wildcard || other.category == Double || other.category == Real))
      ensures myPin.direction == Output && IsFixed(operandType) ==>
        (disallowed <==> !(matches(operandType, other) || other.category == Wildcard))
      ensures myPin.direction == Output && !IsFixed(operandType) ==>
        (disallowed <==> !(myPin.pinType.category == Wildcard && SomeSupportedTypeAdmits(other, matches)))
    {
      if myPin.direction == Input then
        !(other.category == Wildcard || other.category == Double || other.category == Real)
      else if IsFixed(operandType) then
        !(matches(operandType, other) || other.category == Wildcard)
      else if myPin.pinType.category == Wildcard then
        !(other.category == Wildcard || FirstMatch(SupportedTypes, (k: K2Type) => matches(k, other)).Some?)
      else
        true
    }

    /**
     * Relabel the input pins from the operand type and show exactly those
     * that have a label; report whether any pin's hidden flag flipped.
     * Afterwards every pin's hidden flag agrees with the labels, so a second
     * refresh reports no change.
     */
    method RefreshOperand() returns (visibilityChange: bool)
      requires Valid()
      modifies this`pinLabels, inputs
      ensures Valid()
      ensures pinLabels == OperandLabels(operandType)
      ensures forall i :: 0 <= i < inputs.Length ==> inputs[i] == RefreshedPin(old(inputs[i]), i, pinLabels)
      ensures forall i :: 0 <= i < inputs.Length ==> (inputs[i].hidden <==> i >= |pinLabels|)
      ensures visibilityChange <==> exists i :: 0 <= i < inputs.Length && old(inputs[i]).hidden != (i >= |pinLabels|)
    {
      var labels: seq<string> := [];
      if operandType.subObject.Some? {
        labels := pinLabelsOf(operandType.subObject.value);
      } else {
        var i := 0;
        while i < DefaultLabelCount
          invariant 0 <= i <= DefaultLabelCount
          invariant labels == InputNames[..i]
        {
          labels := labels + [InputNames[i]];
          i := i + 1;
        }
      }
      assert labels == OperandLabels(operandType);
      pinLabels := labels;

      visibilityChange := false;
      var i := 0;
      while i < InputCount
        invariant 0 <= i <= InputCount
        invariant Valid()
        invariant pinLabels == labels
        invariant forall k :: 0 <= k < i ==> inputs[k] == RefreshedPin(old(inputs[k]), k, pinLabels)
        invariant forall k :: i <= k < InputCount ==> inputs[k] == old(inputs[k])
        invariant visibilityChange <==> exists k :: 0 <= k < i && old(inputs[k]).hidden != (k >= |pinLabels|)
      {
        var pin := inputs[i];
        if i < |pinLabels| {
          visibilityChange := visibilityChange || pin.hidden;
          inputs[i] := pin.(friendlyName := pinLabels[i], hidden := false);
        } else {
          visibilityChange := visibilityChange || !pin.hidden;
          inputs[i] := pin.(hidden := true);
        }
        i := i + 1;
      }
    }

    /**
     * Re-resolve after the links changed. Without an output pin nothing
     * changes. Otherwise the operand type and the output pin's type follow
     * ResolvedOperand and ResolvedOutputPinType for the output pin's links,
     * and the input pins are refreshed for the new operand type.
     */
    method NodeConnectionListChanged()
      requires Valid()
      modifies this, inputs
      ensures Valid()
      ensures defaultValues == old(defaultValues)
      ensures old(output).None? ==>
        && operandType == old(operandType) && output == old(output) && pinLabels == old(pinLabels)
        && forall i :: 0 <= i < inputs.Length ==> inputs[i] == old(inputs[i])
      ensures old(output).Some? ==>
        && operandType == ResolvedOperand(old(operandType), old(output.value.linkedTo))
        && output == Some(old(output.value).(pinType :=
             ResolvedOutputPinType(old(output.value.pinType), old(output.value.linkedTo))))
        && pinLabels == OperandLabels(operandType)
        && forall i :: 0 <= i < inputs.Length ==> inputs[i] == RefreshedPin(old(inputs[i]), i, pinLabels)
    {
      if output.None? {
        return;
      }
      var outputPin := output.value;
      var links := outputPin.linkedTo;

      var nodeIsGeneric := true;
      var foundType := PinType(NoCategory, None, NoContainer);
      var i := 0;
      while i < |links|
        invariant 0 <= i <= |links|
        invariant forall j :: 0 <= j < i ==> !IsConcrete(links[j])
      {
        if links[i].category != Wildcard {
          FirstMatchAt(links, IsConcrete, i);
          nodeIsGeneric := false;
          foundType := links[i];
          break;
        }
        i := i + 1;
      }
      assert nodeIsGeneric <==> FirstConcreteLink(links).None?;
      assert !nodeIsGeneric ==> FirstConcreteLink(links) == Some(foundType);

      if nodeIsGeneric {
        output := Some(outputPin.(pinType := WildcardPin));
        operandType := WildcardType;
      } else {
        var k := 0;
        while k < |SupportedTypes|
          invariant 0 <= k <= |SupportedTypes|
          invariant operandType == old(operandType) && output == old(output)
          invariant forall j :: 0 <= j < k ==> !SupportedTypes[j].Is(foundType)
        {
          var candidate := SupportedTypes[k];
          if candidate.Is(foundType) {
            FirstMatchAt(SupportedTypes, (k: K2Type) => k.Is(foundType), k);
            operandType := candidate;
            output := Some(outputPin.(pinType := candidate.AsPinType()));
            break;
          }
          k := k + 1;
        }
      }
      var _ := RefreshOperand();
    }

    /**
     * Compile-time validation against the cached operand type: no error, with
     * the first operation whose outer type is the operand type, or an operand
     * type error and the default operation.
     */
    method CheckForErrors() returns (hasError: bool, operation: PackOp)
      ensures hasError <==> Validation(operandType).None?
      ensures hasError ==> operation == NoOperation
      ensures !hasError ==>
        && operation == SupportedOperations[Validation(operandType).value]
        && operation.outerType == operandType
    {
      var operand := operandType;
      var i := 0;
      while i < |SupportedOperations|
        invariant 0 <= i <= |SupportedOperations|
        invariant forall j :: 0 <= j < i ==> SupportedOperations[j].outerType != operand
      {
        var op := SupportedOperations[i];
        if op.outerType == operandType {
          FirstMatchAt(SupportedOperations, (op: PackOp) => op.outerType == operand, i);
          return false, op;
        }
        i := i + 1;
      }
      return true, NoOperation;
    }

    /** Sever every link of every pin; nothing else changes. */
    method BreakAllNodeLinks()
      requires Valid()
      modifies this`output, inputs
      ensures Valid()
      ensures forall i :: 0 <= i < inputs.Length ==> inputs[i] == old(inputs[i]).(linkedTo := [])
      ensures output == match old(output) case None => None case Some(p) => Some(p.(linkedTo := []))
    {
      var i := 0;
      while i < inputs.Length
        invariant 0 <= i <= inputs.Length
        invariant Valid()
        invariant forall k :: 0 <= k < i ==> inputs[k] == old(inputs[k]).(linkedTo := [])
        invariant forall k :: i <= k < inputs.Length ==> inputs[k] == old(inputs[k])
        invariant output == old(output)
      {
        inputs[i] := inputs[i].(linkedTo := []);
        i := i + 1;
      }
      if output.Some? {
        output := Some(output.value.(linkedTo := []));
      }
    }

    /**
     * Compile the node: validate, find the output pin, spawn the primitive,
     * move the input links the primitive has pins for, add the named
     * conversion and move the output links; on an error spawn nothing.
     * Either way every link of the node is severed.
     */
    method ExpandNode(hasPin: PinQuery) returns (outcome: Result<CallGraph, CompileError>)
      requires Valid()
      modifies this`output, inputs
      ensures Valid()
      ensures outcome == Expansion(operandType, old(inputs[..]), old(output), hasPin)
      ensures forall i :: 0 <= i < inputs.Length ==> inputs[i] == old(inputs[i]).(linkedTo := [])
      ensures output == match old(output) case None => None case Some(p) => Some(p.(linkedTo := []))
    {
      var hasError, operation := CheckForErrors();
      if hasError {
        BreakAllNodeLinks();
        return Failure(OperandTypeError);
      }
      if output.None? {
        BreakAllNodeLinks();
        return Failure(InternalTypeError);
      }
      var outputPin := output.value;
      var moves := CollectInputMoves(operation.k2NodeName, hasPin);
      var graph: CallGraph;
      if operation.innerToOuterConversion.conversionName != NameNone {
        graph := CallGraph(
          [operation.k2NodeName, operation.innerToOuterConversion.conversionName],
          [Wire(0, ReturnValue, 1, ConvInput)],
          moves + [Move(outputPin.name, outputPin.linkedTo, 1, ReturnValue)]);
      } else {
        graph := CallGraph([operation.k2NodeName], [], moves + [Move(outputPin.name, outputPin.linkedTo, 0, ReturnValue)]);
      }
      assert graph == ExpandOperation(operation, inputs[..], outputPin, hasPin);
      BreakAllNodeLinks();
      outcome := Success(graph);
    }

    /**
     * The moves for the input pins: in pin order, one per input pin whose
     * name the primitive `k2NodeName` also has, carrying that pin's links.
     */
    method CollectInputMoves(k2NodeName: Name, hasPin: PinQuery) returns (moves: seq<Move>)
      requires Valid()
      ensures moves == InputMoves(k2NodeName, inputs[..], hasPin)
    {
      moves := [];
      var i := 0;
      while i < InputCount
        invariant 0 <= i <= InputCount
        invariant moves == InputMoves(k2NodeName, inputs[..i], hasPin)
      {
        var inputPin := inputs[i];
        if hasPin(k2NodeName, InputNames[i]) {
          moves := moves + [Move(inputPin.name, inputPin.linkedTo, 0, InputNames[i])];
        }
        assert inputs[..i + 1][..i] == inputs[..i];
        i := i + 1;
      }
      assert inputs[..InputCount] == inputs[..];
    }
  }

  /**
   * Admission and resolution agree: when Matches is no broader than Is, a concrete
   * type that a generic node's wildcard output pin admits resolves the node
   * to a supported type that Is it, and that operand then validates.
   */
  lemma AdmittedLinkResolves(node: PackNode, outputPin: Pin, t: PinType, matches: MatchRelation)
    requires forall k, p :: matches(k, p) ==> k.Is(p)
    requires outputPin.direction == Output && outputPin.pinType.category == Wildcard
    requires !IsFixed(node.operandType)
    requires IsConcrete(t) && !node.IsConnectionDisallowed(outputPin, t, matches)
    ensures ResolvedOperand(node.operandType, [t]).Is(t)
    ensures Validation(ResolvedOperand(node.operandType, [t])).Some?
  {
    var i :| 0 <= i < |SupportedTypes| && matches(SupportedTypes[i], t);
    FirstMatchAt([t], IsConcrete, 0);
    ConcreteLinkResolves(node.operandType, [t], t);
    ResolvedOperandValidates(node.operandType, [t], t);
  }
}
