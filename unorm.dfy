/**
 * The unorm graph node (K2Node_unorm.cpp): the magnitude and unit direction of
 * a vector, polymorphic over four vector kinds. A fixed registry of operation
 * descriptors is scanned in order to resolve the node from the types linked to
 * its pins `v` and `vmag`; compilation validates that both pins agree on one
 * descriptor and expands the node into at most three function calls.
 */
module Unorm {
  import opened Wrappers
  import opened K2Types
  import opened Search
  import opened CallGraphs

  // Names USpiceK2 declares for the primitive and its pins.
  const UnormVector: Name := "unorm_vector"
  const UnormVectorInput: Name := "v"
  const UnormVectorOutputMag: Name := "vmag"
  const UnormVectorOutputDirection: Name := "vout"

  /**
   * FK2VnormOp: one concrete variant. `inputVectorType` and `outputScalarType`
   * are the types visible on the node's pins `v` and `vmag`; the conversions
   * bridge them to the primitive's SDimensionlessVector input and double output.
   */
  datatype VnormOp = VnormOp(
    shortName: Name,
    k2NodeName: Name,
    inputVectorType: K2Type,
    outputScalarType: K2Type,
    inputToVectorConversion: Conversion,
    scalarToOutputConversion: Conversion)

  /** FK2VnormOp(): the unresolved descriptor, whose short name is None. */
  const Unresolved := VnormOp(NameNone, NameNone, NoType, NoType, NoConversion, NoConversion)

  /** A variant that calls the primitive directly on its own types. */
  function DirectOp(shortName: Name, k2NodeName: Name, vectorType: K2Type, scalarType: K2Type): VnormOp {
    VnormOp(shortName, k2NodeName, vectorType, scalarType, NoConversion, NoConversion)
  }

  /** A variant whose pin types are the outer ends of two conversions. */
  function ConvertingOp(shortName: Name, k2NodeName: Name, toVector: Conversion, fromScalar: Conversion): VnormOp {
    VnormOp(shortName, k2NodeName, toVector.inType, fromScalar.outType, toVector, fromScalar)
  }

  /** UK2Node_unorm::SupportedOperations, in declaration order. */
  const SupportedOperations: seq<VnormOp> := [
    DirectOp("unorm dimensionless vector", UnormVector, SDimensionlessVectorType, DoubleType),
    ConvertingOp("unorm distance vector", UnormVector, SDistanceVectorToSDimensionlessVector, DoubleToSDistance),
    ConvertingOp("unorm velocity vector", UnormVector, SVelocityVectorToSDimensionlessVector, DoubleToSSpeed),
    ConvertingOp("unorm angular velocity", UnormVector, SAngularVelocityToSDimensionlessVector, DoubleToSAngularRate)
  ]

  /**
   * The registry holds four named entries; no two share a vector type or a
   * scalar type, no vector type is a scalar type, and none is a wildcard.
   */
  lemma RegistryShape()
    ensures |SupportedOperations| == 4
    ensures forall i :: 0 <= i < |SupportedOperations| ==> SupportedOperations[i].shortName != NameNone
    ensures forall i, j :: 0 <= i < j < |SupportedOperations| ==>
      SupportedOperations[i].inputVectorType.AsPinType() != SupportedOperations[j].inputVectorType.AsPinType()
    ensures forall i, j :: 0 <= i < j < |SupportedOperations| ==>
      SupportedOperations[i].outputScalarType.AsPinType() != SupportedOperations[j].outputScalarType.AsPinType()
    ensures forall i, j :: 0 <= i < |SupportedOperations| && 0 <= j < |SupportedOperations| ==>
      SupportedOperations[i].inputVectorType.AsPinType() != SupportedOperations[j].outputScalarType.AsPinType()
    ensures forall i :: 0 <= i < |SupportedOperations| ==>
      SupportedOperations[i].inputVectorType.AsPinType() != WildcardPin
    ensures forall i :: 0 <= i < |SupportedOperations| ==>
      SupportedOperations[i].outputScalarType.AsPinType() != WildcardPin
  {
  }

  /**
   * An entry type-checks as a chain: its vector type reaches the primitive's
   * SDimensionlessVector input (through the input conversion when it has one)
   * and the primitive's double result reaches its scalar type (through the
   * output conversion when it has one).
   */
  predicate ChainTypeChecks(op: VnormOp) {
    && (if op.inputToVectorConversion.conversionName == NameNone
        then op.inputVectorType == SDimensionlessVectorType
        else (op.inputToVectorConversion.inType == op.inputVectorType
              && op.inputToVectorConversion.outType == SDimensionlessVectorType))
    && (if op.scalarToOutputConversion.conversionName == NameNone
        then op.outputScalarType == DoubleType
        else (op.scalarToOutputConversion.inType == DoubleType
              && op.scalarToOutputConversion.outType == op.outputScalarType))
  }

  lemma RegistryChainsTypeCheck()
    ensures forall i :: 0 <= i < |SupportedOperations| ==> ChainTypeChecks(SupportedOperations[i])
  {
  }

  /** Distinct vector types make the entries themselves distinct. */
  lemma EntriesDistinct(i: nat, j: nat)
    requires i < |SupportedOperations| && j < |SupportedOperations|
    ensures SupportedOperations[i] == SupportedOperations[j] <==> i == j
  {
    RegistryShape();
  }

  // ---------------------------------------------------------------------------
  // Resolution (NodeConnectionListChanged) and validation (CheckForErrors)
  // ---------------------------------------------------------------------------

  /**
   * The test NodeConnectionListChanged applies to an entry: its vector type Is
   * the type of the first pin linked to `v`, or its scalar type Is the type of
   * the first pin linked to `vmag`.
   */
  predicate Selects(op: VnormOp, vLinks: seq<PinType>, magLinks: seq<PinType>) {
    || (|vLinks| > 0 && op.inputVectorType.Is(vLinks[0]))
    || (|magLinks| > 0 && op.outputScalarType.Is(magLinks[0]))
  }

  /** The test CheckForErrors applies: both pins are linked and both agree with the entry. */
  predicate Agrees(op: VnormOp, vLinks: seq<PinType>, magLinks: seq<PinType>) {
    && (|vLinks| > 0 && op.inputVectorType.Is(vLinks[0]))
    && (|magLinks| > 0 && op.outputScalarType.Is(magLinks[0]))
  }

  function ResolvedIndex(vLinks: seq<PinType>, magLinks: seq<PinType>): Option<nat> {
    FirstMatch(SupportedOperations, op => Selects(op, vLinks, magLinks))
  }

  /** The operation the node resolves to, or Unresolved when it stays generic. */
  function Resolution(vLinks: seq<PinType>, magLinks: seq<PinType>): VnormOp {
    match ResolvedIndex(vLinks, magLinks)
    case None => Unresolved
    case Some(i) => SupportedOperations[i]
  }

  function Validation(vLinks: seq<PinType>, magLinks: seq<PinType>): Option<nat> {
    FirstMatch(SupportedOperations, op => Agrees(op, vLinks, magLinks))
  }

  /** Registry order decides: the node resolves to entry i exactly when entry i passes the test and no earlier one does. */
  lemma ResolutionIsFirstMatch(vLinks: seq<PinType>, magLinks: seq<PinType>, i: nat)
    requires i < |SupportedOperations|
    ensures Resolution(vLinks, magLinks) == SupportedOperations[i] <==>
      && Selects(SupportedOperations[i], vLinks, magLinks)
      && forall j :: 0 <= j < i ==> !Selects(SupportedOperations[j], vLinks, magLinks)
  {
    RegistryShape();
    var p := op => Selects(op, vLinks, magLinks);
    if Selects(SupportedOperations[i], vLinks, magLinks) && forall j :: 0 <= j < i ==> !Selects(SupportedOperations[j], vLinks, magLinks) {
      FirstMatchAt(SupportedOperations, p, i);
    }
    match ResolvedIndex(vLinks, magLinks)
    case None =>
    case Some(k) =>
      EntriesDistinct(k, i);
  }

  /** The node stays generic exactly when no entry passes the test; in particular when neither pin is linked. */
  lemma GenericWhenNothingSelects(vLinks: seq<PinType>, magLinks: seq<PinType>)
    ensures Resolution(vLinks, magLinks).shortName == NameNone <==>
      forall i :: 0 <= i < |SupportedOperations| ==> !Selects(SupportedOperations[i], vLinks, magLinks)
    ensures vLinks == [] && magLinks == [] ==> Resolution(vLinks, magLinks) == Unresolved
  {
    RegistryShape();
  }

  /**
   * Linking `v` to entry i's vector type and `vmag` to entry k's scalar type
   * resolves the node to whichever of the two comes first in the registry.
   */
  lemma ConflictingLinksResolveToEarlierEntry(vLinks: seq<PinType>, magLinks: seq<PinType>, i: nat, k: nat)
    requires i < |SupportedOperations| && k < |SupportedOperations|
    requires |vLinks| > 0 && SupportedOperations[i].inputVectorType.Is(vLinks[0])
    requires |magLinks| > 0 && SupportedOperations[k].outputScalarType.Is(magLinks[0])
    ensures Resolution(vLinks, magLinks) == SupportedOperations[if i <= k then i else k]
  {
    RegistryShape();
    var m := if i <= k then i else k;
    FirstMatchAt(SupportedOperations, op => Selects(op, vLinks, magLinks), m);
  }

  /** Linking only `v` to entry i's vector type resolves the node to entry i. */
  lemma VectorLinkResolves(vLinks: seq<PinType>, i: nat)
    requires i < |SupportedOperations|
    requires |vLinks| > 0 && SupportedOperations[i].inputVectorType.Is(vLinks[0])
    ensures Resolution(vLinks, []) == SupportedOperations[i]
  {
    RegistryShape();
    FirstMatchAt(SupportedOperations, op => Selects(op, vLinks, []), i);
  }

  /** Linking only `vmag` to entry i's scalar type resolves the node to entry i. */
  lemma MagnitudeLinkResolves(magLinks: seq<PinType>, i: nat)
    requires i < |SupportedOperations|
    requires |magLinks| > 0 && SupportedOperations[i].outputScalarType.Is(magLinks[0])
    ensures Resolution([], magLinks) == SupportedOperations[i]
  {
    RegistryShape();
    FirstMatchAt(SupportedOperations, op => Selects(op, [], magLinks), i);
  }

  /** Validation fails unless both pins are linked. */
  lemma ValidationNeedsBothPins(vLinks: seq<PinType>, magLinks: seq<PinType>)
    ensures Validation(vLinks, magLinks).Some? ==> |vLinks| > 0 && |magLinks| > 0
    ensures vLinks == [] || magLinks == [] ==> Validation(vLinks, magLinks).None?
  {
  }

  /**
   * With `v` linked to entry i's vector type and `vmag` to entry k's scalar
   * type, validation succeeds with entry i when i == k and fails otherwise:
   * disagreeing pins are an error, never a silent choice of either entry.
   */
  lemma ValidationOfLinkedPins(vLinks: seq<PinType>, magLinks: seq<PinType>, i: nat, k: nat)
    requires i < |SupportedOperations| && k < |SupportedOperations|
    requires |vLinks| > 0 && SupportedOperations[i].inputVectorType.Is(vLinks[0])
    requires |magLinks| > 0 && SupportedOperations[k].outputScalarType.Is(magLinks[0])
    ensures Validation(vLinks, magLinks) == if i == k then Some(i) else None
  {
    RegistryShape();
    var p := op => Agrees(op, vLinks, magLinks);
    if i == k {
      FirstMatchAt(SupportedOperations, p, i);
    } else {
      forall j | 0 <= j < |SupportedOperations|
        ensures !Agrees(SupportedOperations[j], vLinks, magLinks)
      {
        if j != i {
          assert SupportedOperations[j].inputVectorType.AsPinType() != SupportedOperations[i].inputVectorType.AsPinType();
        } else {
          assert SupportedOperations[j].outputScalarType.AsPinType() != SupportedOperations[k].outputScalarType.AsPinType();
        }
      }
    }
  }

  /** A node that validates has already been resolved to the same entry. */
  lemma ValidationAgreesWithResolution(vLinks: seq<PinType>, magLinks: seq<PinType>)
    ensures Validation(vLinks, magLinks).Some? ==>
      Resolution(vLinks, magLinks) == SupportedOperations[Validation(vLinks, magLinks).value]
  {
    RegistryShape();
    if Validation(vLinks, magLinks).Some? {
      var i := Validation(vLinks, magLinks).value;
      forall j | 0 <= j < i ensures !Selects(SupportedOperations[j], vLinks, magLinks) {
        assert SupportedOperations[j].inputVectorType.AsPinType() != SupportedOperations[i].inputVectorType.AsPinType();
        assert SupportedOperations[j].outputScalarType.AsPinType() != SupportedOperations[i].outputScalarType.AsPinType();
      }
      FirstMatchAt(SupportedOperations, op => Selects(op, vLinks, magLinks), i);
    }
  }

  // ---------------------------------------------------------------------------
  // Expansion (ExpandNode)
  // ---------------------------------------------------------------------------

  /**
   * The calls ExpandNode spawns for a validated operation, in spawn order:
   * the primitive, then the input conversion, then the output conversion
   * (each conversion only when it has a name), with their connections and
   * the destinations of the links of `v`, `vmag` and `vout`.
   */
  function ExpandOperation(op: VnormOp, vLinks: seq<PinType>, magLinks: seq<PinType>, outLinks: seq<PinType>): CallGraph {
    var hasIn := op.inputToVectorConversion.conversionName != NameNone;
    var hasOut := op.scalarToOutputConversion.conversionName != NameNone;
    var outCall := if hasIn then 2 else 1;
    CallGraph(
      [op.k2NodeName]
        + (if hasIn then [op.inputToVectorConversion.conversionName] else [])
        + (if hasOut then [op.scalarToOutputConversion.conversionName] else []),
      (if hasIn then [Wire(1, ReturnValue, 0, UnormVectorInput)] else [])
        + (if hasOut then [Wire(0, UnormVectorOutputMag, outCall, ConvInput)] else []),
      [ if hasIn then Move("v", vLinks, 1, ConvInput) else Move("v", vLinks, 0, UnormVectorInput),
        if hasOut then Move("vmag", magLinks, outCall, ReturnValue) else Move("vmag", magLinks, 0, UnormVectorOutputMag),
        Move("vout", outLinks, 0, UnormVectorOutputDirection) ])
  }

  /** The outcome of ExpandNode for the given links: an operand type error, or the spawned calls. */
  function Expansion(vLinks: seq<PinType>, magLinks: seq<PinType>, outLinks: seq<PinType>): Result<CallGraph, CompileError> {
    match Validation(vLinks, magLinks)
    case None => Failure(OperandTypeError)
    case Some(i) => Success(ExpandOperation(SupportedOperations[i], vLinks, magLinks, outLinks))
  }

  /**
   * Expansion fails exactly when validation does; otherwise it spawns the
   * primitive first, one more call per named conversion (so one to three
   * calls), refers only to calls it spawned, and hands every link of `v`,
   * `vmag` and `vout`, unchanged, to a spawned call.
   */
  lemma ExpansionShape(vLinks: seq<PinType>, magLinks: seq<PinType>, outLinks: seq<PinType>)
    ensures Expansion(vLinks, magLinks, outLinks).Failure? <==> Validation(vLinks, magLinks).None?
    ensures Expansion(vLinks, magLinks, outLinks).Failure? ==> Expansion(vLinks, magLinks, outLinks).error == OperandTypeError
    ensures Expansion(vLinks, magLinks, outLinks).Success? ==>
      var g := Expansion(vLinks, magLinks, outLinks).value;
      var op := SupportedOperations[Validation(vLinks, magLinks).value];
      && 1 <= |g.calls| <= 3
      && |g.calls| == 1 + (if op.inputToVectorConversion.conversionName != NameNone then 1 else 0)
                        + (if op.scalarToOutputConversion.conversionName != NameNone then 1 else 0)
      && g.calls[0] == op.k2NodeName == UnormVector
      && g.WellFormed()
      && |g.moves| == 3
      && g.moves[0].pin == "v" && g.moves[0].links == vLinks
      && g.moves[1].pin == "vmag" && g.moves[1].links == magLinks
      && g.moves[2].pin == "vout" && g.moves[2].links == outLinks
  ensures Expansion(vLinks, magLinks, outLinks).Success? ==>
      var g := Expansion(vLinks, magLinks, outLinks).value;
      var op := SupportedOperations[Validation(vLinks, magLinks).value];
      var hasIn := op.inputToVectorConversion.conversionName != NameNone;
      var hasOut := op.scalarToOutputConversion.conversionName != NameNone;
      var last := |g.calls| - 1;
      && 1 <= |g.calls| && |g.moves| == 3
      // `v`'s links feed the input conversion, whose result feeds the primitive; else the primitive directly
      && (hasIn ==> 2 <= |g.calls| && g.calls[1] == op.inputToVectorConversion.conversionName
                    && Wire(1, ReturnValue, 0, UnormVectorInput) in g.wires
                    && g.moves[0] == Move("v", vLinks, 1, ConvInput))
      && (!hasIn ==> g.moves[0] == Move("v", vLinks, 0, UnormVectorInput))
      // the primitive's magnitude feeds the output conversion, which drives `vmag`'s links; else the primitive does
      && (hasOut ==> 2 <= |g.calls| && g.calls[last] == op.scalarToOutputConversion.conversionName
                     && Wire(0, UnormVectorOutputMag, last, ConvInput) in g.wires
                     && g.moves[1] == Move("vmag", magLinks, last, ReturnValue))
      && (!hasOut ==> g.moves[1] == Move("vmag", magLinks, 0, UnormVectorOutputMag))
      && g.moves[2] == Move("vout", outLinks, 0, UnormVectorOutputDirection)
      // no other connections are made
      && g.wires == (if hasIn then [Wire(1, ReturnValue, 0, UnormVectorInput)] else [])
                    + (if hasOut then [Wire(0, UnormVectorOutputMag, last, ConvInput)] else [])
  {
    if Validation(vLinks, magLinks).Some? {
      var i := Validation(vLinks, magLinks).value;
      assert SupportedOperations[i].k2NodeName == UnormVector;
    }
  }

  /**
   * Resolving "unorm distance vector" and expanding it gives three calls: the
   * distance-to-dimensionless conversion feeds unorm_vector, whose magnitude
   * feeds the double-to-distance conversion that drives `vmag`.
   */
  lemma DistanceVectorExpansion(vLinks: seq<PinType>, magLinks: seq<PinType>, outLinks: seq<PinType>)
    requires |vLinks| > 0 && vLinks[0] == SDistanceVectorType.AsPinType()
    requires |magLinks| > 0 && magLinks[0] == SDistanceType.AsPinType()
    ensures Resolution(vLinks, magLinks) == SupportedOperations[1]
    ensures Expansion(vLinks, magLinks, outLinks) == Success(CallGraph(
      [UnormVector, SDistanceVectorToSDimensionlessVector.conversionName, DoubleToSDistance.conversionName],
      [Wire(1, ReturnValue, 0, UnormVectorInput), Wire(0, UnormVectorOutputMag, 2, ConvInput)],
      [Move("v", vLinks, 1, ConvInput), Move("vmag", magLinks, 2, ReturnValue),
       Move("vout", outLinks, 0, UnormVectorOutputDirection)]))
  {
    ConflictingLinksResolveToEarlierEntry(vLinks, magLinks, 1, 1);
    ValidationOfLinkedPins(vLinks, magLinks, 1, 1);
    var op := SupportedOperations[1];
    assert op.inputToVectorConversion == SDistanceVectorToSDimensionlessVector;
    assert op.scalarToOutputConversion == DoubleToSDistance;
    assert op.inputToVectorConversion.conversionName != NameNone;
    assert op.scalarToOutputConversion.conversionName != NameNone;
    assert Expansion(vLinks, magLinks, outLinks) == Success(ExpandOperation(op, vLinks, magLinks, outLinks));
    var g := ExpandOperation(op, vLinks, magLinks, outLinks);
    assert g.calls == [UnormVector, SDistanceVectorToSDimensionlessVector.conversionName, DoubleToSDistance.conversionName];
    assert g.wires == [Wire(1, ReturnValue, 0, UnormVectorInput), Wire(0, UnormVectorOutputMag, 2, ConvInput)];
  }

  // ---------------------------------------------------------------------------
  // The node
  // ---------------------------------------------------------------------------

  /** The node's three pins: input `v`, outputs `vmag` and `vout`. */
  datatype UnormPin = V | VMag | VOut

  /** The type an operation demands on `v` (its vector type) or on `vmag` (its scalar type). */
  function RequiredType(op: VnormOp, pin: UnormPin): K2Type {
    if pin == V then op.inputVectorType else op.outputScalarType
  }

  /** The types the node itself gives `vmag`: wildcard, or some entry's scalar type. */
  predicate IsMagnitudePinType(p: PinType) {
    || p == WildcardPin
    || exists i :: 0 <= i < |SupportedOperations| && p == SupportedOperations[i].outputScalarType.AsPinType()
  }

  const DirectionPinType := SDimensionlessVectorType.AsPinType()

  class UnormNode {
    var currentOperation: VnormOp
    var v: Pin
    var vmag: Pin
    var vout: Pin

    ghost predicate Valid()
      reads this
    {
      && (currentOperation == Unresolved || currentOperation in SupportedOperations)
      && v.name == "v" && vmag.name == "vmag" && vout.name == "vout"
      && IsMagnitudePinType(vmag.pinType)
    }

    /** A new node: unresolved, with `v` and `vmag` wildcards and `vout` an SDimensionlessVector, nothing linked. */
    constructor ()
      ensures Valid()
      ensures currentOperation == Unresolved && currentOperation.shortName == NameNone
      ensures v == Pin("v", Input, WildcardPin, [], false, "v")
      ensures vmag == Pin("vmag", Output, WildcardPin, [], false, "vmag")
      ensures vout == Pin("vout", Output, DirectionPinType, [], false, "vout")
    {
      currentOperation := Unresolved;
      v := Pin("v", Input, WildcardPin, [], false, "v");
      vmag := Pin("vmag", Output, WildcardPin, [], false, "vmag");
      vout := Pin("vout", Output, DirectionPinType, [], false, "vout");
    }

    function PinOf(pin: UnormPin): Pin
      reads this
    {
      match pin
      case V => v
      case VMag => vmag
      case VOut => vout
    }

    /**
     * Whether the editor must refuse to link `myPin` to a pin of type `other`:
     * `vout` takes only a wildcard or a plain SDimensionlessVector; a resolved
     * node takes exactly the type its operation demands; a generic node takes
     * any type that some entry's type for that pin Matches.
     */
    function IsConnectionDisallowed(myPin: UnormPin, other: PinType, matches: MatchRelation): (disallowed: bool)
      reads this
      ensures myPin == VOut ==>
        (disallowed <==> !(other.category == Wildcard || other == DirectionPinType))
      ensures myPin != VOut && currentOperation.shortName != NameNone ==>
        (disallowed <==> !RequiredType(currentOperation, myPin).Is(other))
      ensures myPin != VOut && currentOperation.shortName == NameNone ==>
        (disallowed <==> forall i :: 0 <= i < |SupportedOperations| ==>
          !matches(RequiredType(SupportedOperations[i], myPin), other))
    {
      if myPin == VOut then
        var isOkay := other.category == Wildcard
          || (other.category == Struct && other.subObject == Some(SDimensionlessVector) && other.container == NoContainer);
        !isOkay
      else if currentOperation.shortName != NameNone then
        !RequiredType(currentOperation, myPin).Is(other)
      else
        FirstMatch(SupportedOperations, op => matches(RequiredType(op, myPin), other)).None?
    }

    /** The state NodeConnectionListChanged leaves for the given links of `v` and `vmag`. */
    ghost predicate ResolvedFrom(vLinks: seq<PinType>, magLinks: seq<PinType>)
      reads this
    {
      && currentOperation == Resolution(vLinks, magLinks)
      && (currentOperation.shortName == NameNone ==> v.pinType == WildcardPin && vmag.pinType == WildcardPin)
      && (currentOperation.shortName != NameNone ==>
            && v.pinType == currentOperation.inputVectorType.AsPinType()
            && vmag.pinType == currentOperation.outputScalarType.AsPinType())
    }

    /**
     * Re-resolve after the links changed: pick the first registry entry that
     * the types linked to `v` or `vmag` select, and give both pins that
     * entry's types; with no such entry, the node is generic and both pins
     * are wildcards. Only pin types change, so a second call changes nothing.
     */
    method NodeConnectionListChanged()
      requires Valid()
      modifies this
      ensures Valid()
      ensures ResolvedFrom(old(v.linkedTo), old(vmag.linkedTo))
      ensures v == old(v).(pinType := v.pinType) && vmag == old(vmag).(pinType := vmag.pinType)
      ensures vout == old(vout)
    {
      RegistryShape();
      var vLinks, magLinks := v.linkedTo, vmag.linkedTo;
      currentOperation := Unresolved;
      var i := 0;
      while i < |SupportedOperations|
        invariant 0 <= i <= |SupportedOperations|
        invariant currentOperation == Unresolved
        invariant forall j :: 0 <= j < i ==> !Selects(SupportedOperations[j], vLinks, magLinks)
      {
        var op := SupportedOperations[i];
        if (|v.linkedTo| > 0 && op.inputVectorType.Is(v.linkedTo[0]))
          || (|vmag.linkedTo| > 0 && op.outputScalarType.Is(vmag.linkedTo[0]))
        {
          FirstMatchAt(SupportedOperations, op => Selects(op, vLinks, magLinks), i);
          currentOperation := op;
          break;
        }
        i := i + 1;
      }

      if currentOperation.shortName == NameNone {
        var updateInput := v.pinType.category != Wildcard || v.pinType.subObject != None || v.pinType.container != NoContainer;
        if updateInput {
          v := v.(pinType := WildcardPin);
        }
        var updateOutput := vmag.pinType.category != Wildcard || vmag.pinType.subObject != None || vmag.pinType.container != NoContainer;
        if updateOutput {
          vmag := vmag.(pinType := WildcardPin);
        }
      } else {
        var updateInput := !currentOperation.inputVectorType.Is(v.pinType);
        if updateInput {
          v := v.(pinType := currentOperation.inputVectorType.AsPinType());
        }
        // The source tests vmag against the vector type, not the scalar type;
        // a vmag of wildcard or scalar type never Is a vector type, so the
        // rewrite below always happens.
        assert !currentOperation.inputVectorType.Is(vmag.pinType);
        var updateOutput := !currentOperation.inputVectorType.Is(vmag.pinType);
        if updateOutput {
          vmag := vmag.(pinType := currentOperation.outputScalarType.AsPinType());
        }
      }
    }

    /**
     * A linked pin's type changed: re-resolve only when this node's pin is a
     * wildcard and the other pin is not; otherwise nothing changes.
     */
    method NotifyConnectionChanged(pin: UnormPin, connected: PinType)
      requires Valid()
      requires connected in PinOf(pin).linkedTo
      modifies this
      ensures Valid()
      ensures old(PinOf(pin)).pinType.category == Wildcard && connected.category != Wildcard ==>
        && ResolvedFrom(old(v.linkedTo), old(vmag.linkedTo))
        && v == old(v).(pinType := v.pinType) && vmag == old(vmag).(pinType := vmag.pinType)
        && vout == old(vout)
      ensures !(old(PinOf(pin)).pinType.category == Wildcard && connected.category != Wildcard) ==>
        unchanged(this)
    {
      if PinOf(pin).pinType.category == Wildcard && connected.category != Wildcard {
        NodeConnectionListChanged();
      }
    }

    /**
     * Compile-time validation: no error, with the first entry that both
     * linked pins agree on, or an operand type error and the unresolved
     * descriptor.
     */
    method CheckForErrors() returns (hasError: bool, operation: VnormOp)
      ensures hasError <==> Validation(v.linkedTo, vmag.linkedTo).None?
      ensures hasError ==> operation == Unresolved
      ensures !hasError ==>
        && operation == SupportedOperations[Validation(v.linkedTo, vmag.linkedTo).value]
        && Agrees(operation, v.linkedTo, vmag.linkedTo)
    {
      var vLinks, magLinks := v.linkedTo, vmag.linkedTo;
      operation := Unresolved;
      var i := 0;
      while i < |SupportedOperations|
        invariant 0 <= i <= |SupportedOperations|
        invariant forall j :: 0 <= j < i ==> !Agrees(SupportedOperations[j], vLinks, magLinks)
      {
        var op := SupportedOperations[i];
        if (|v.linkedTo| > 0 && op.inputVectorType.Is(v.linkedTo[0]))
          && (|vmag.linkedTo| > 0 && op.outputScalarType.Is(vmag.linkedTo[0]))
        {
          FirstMatchAt(SupportedOperations, op => Agrees(op, vLinks, magLinks), i);
          return false, op;
        }
        i := i + 1;
      }
      return true, operation;
    }

    /** Sever every link of every pin; nothing else changes. */
    method BreakAllNodeLinks()
      modifies this
      ensures v == old(v).(linkedTo := []) && vmag == old(vmag).(linkedTo := []) && vout == old(vout).(linkedTo := [])
      ensures currentOperation == old(currentOperation)
    {
      v := v.(linkedTo := []);
      vmag := vmag.(linkedTo := []);
      vout := vout.(linkedTo := []);
    }

    /**
     * Compile the node: validate, spawn the primitive call and the named
     * conversions and move the pins' links onto them; on a validation error
     * spawn nothing. Either way every link of the node is severed.
     */
    method ExpandNode() returns (outcome: Result<CallGraph, CompileError>)
      requires Valid()
      modifies this
      ensures Valid()
      ensures outcome == Expansion(old(v.linkedTo), old(vmag.linkedTo), old(vout.linkedTo))
      ensures v == old(v).(linkedTo := []) && vmag == old(vmag).(linkedTo := []) && vout == old(vout).(linkedTo := [])
      ensures currentOperation == old(currentOperation)
    {
      var hasError, operation := CheckForErrors();
      if hasError {
        BreakAllNodeLinks();
        return Failure(OperandTypeError);
      }

      var calls := [operation.k2NodeName];
      var wires: seq<Wire> := [];
      var moves: seq<Move> := [];

      if operation.inputToVectorConversion.conversionName != NameNone {
        calls := calls + [operation.inputToVectorConversion.conversionName];
        var conversion := |calls| - 1;
        moves := moves + [Move(v.name, v.linkedTo, conversion, ConvInput)];
        wires := wires + [Wire(conversion, ReturnValue, 0, UnormVectorInput)];
      } else {
        moves := moves + [Move(v.name, v.linkedTo, 0, UnormVectorInput)];
      }

      if operation.scalarToOutputConversion.conversionName != NameNone {
        calls := calls + [operation.scalarToOutputConversion.conversionName];
        var conversion := |calls| - 1;
        wires := wires + [Wire(0, UnormVectorOutputMag, conversion, ConvInput)];
        moves := moves + [Move(vmag.name, vmag.linkedTo, conversion, ReturnValue)];
      } else {
        moves := moves + [Move(vmag.name, vmag.linkedTo, 0, UnormVectorOutputMag)];
      }

      moves := moves + [Move(vout.name, vout.linkedTo, 0, UnormVectorOutputDirection)];
      assert CallGraph(calls, wires, moves) == ExpandOperation(operation, v.linkedTo, vmag.linkedTo, vout.linkedTo);

      BreakAllNodeLinks();
      outcome := Success(CallGraph(calls, wires, moves));
    }
  }

  /**
   * Admission and resolution agree: when Matches is no broader than Is, a type that a
   * generic node admits on `v` (or on `vmag`), once linked there alone,
   * resolves the node to an entry whose vector (or scalar) type Is it.
   */
  lemma AdmittedLinkResolves(node: UnormNode, pin: UnormPin, t: PinType, matches: MatchRelation)
    requires forall k, p :: matches(k, p) ==> k.Is(p)
    requires pin != VOut && node.currentOperation.shortName == NameNone
    requires !node.IsConnectionDisallowed(pin, t, matches)
    ensures pin == V ==> Resolution([t], []).shortName != NameNone && Resolution([t], []).inputVectorType.Is(t)
    ensures pin == VMag ==> Resolution([], [t]).shortName != NameNone && Resolution([], [t]).outputScalarType.Is(t)
  {
    RegistryShape();
    var i :| 0 <= i < |SupportedOperations| && matches(RequiredType(SupportedOperations[i], pin), t);
    if pin == V {
      VectorLinkResolves([t], i);
    } else {
      MagnitudeLinkResolves([t], i);
    }
  }
}
