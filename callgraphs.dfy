/**
 * What a node's expansion leaves behind: the intermediate call nodes it
 * spawned, the connections it made between them, and where it moved the
 * links of its own pins.
 */
module CallGraphs {
  import opened K2Types

  /** A connection made between two spawned calls (TryCreateConnection). */
  datatype Wire = Wire(fromCall: nat, fromPin: Name, toCall: nat, toPin: Name)

  /** The links of one of the node's pins, moved onto a pin of a spawned call (MovePinLinksOrCopyDefaults). */
  datatype Move = Move(pin: Name, links: seq<PinType>, toCall: nat, toPin: Name)

  /** Spawned calls, by the function each one calls, in the order they were spawned. */
  datatype CallGraph = CallGraph(calls: seq<Name>, wires: seq<Wire>, moves: seq<Move>)
  {
    /** Every wire and every move refers to a spawned call. */
    predicate WellFormed() {
      && (forall w <- wires :: w.fromCall < |calls| && w.toCall < |calls|)
      && (forall m <- moves :: m.toCall < |calls|)
    }
  }

  /** The errors a failed expansion logs against its node. */
  datatype CompileError = OperandTypeError | InternalTypeError

  /** The return-value pin of a spawned call. */
  const ReturnValue: Name := "ReturnValue"

  /** USpiceK2::conv_input: the input pin of every conversion function. */
  const ConvInput: Name := "value"
}
