/**
 * The drain gate (gracefulHandler): a flag, written 1 once and never back,
 * that decides whether the wrapped HTTP handler is invoked at all.
 * The flag is the source's int32: 0 means open, 1 means closed.
 */
module DrainGate {

  datatype Gate = Gate(closed: int)

  /** What ServeHTTP does with a request. */
  datatype Dispatch =
    | InvokeHandler   // the wrapped handler serves the request
    | DrainBody       // the handler is skipped; only the request body is closed

  /** The operations the server performs on the gate. */
  datatype GateOp = CloseGate | ServeRequest | QueryClosed

  /** The only flag values the gate's own operations ever write. */
  predicate WellFormed(g: Gate) {
    g.closed == 0 || g.closed == 1
  }

  /** newGracefulHandler: the flag starts at its zero value, so the gate starts open. */
  function NewGate(): (g: Gate)
    ensures WellFormed(g) && !IsClosed(g)
    ensures ServeHTTP(g) == InvokeHandler
  {
    Gate(0)
  }

  /**
   * IsClosed: an atomic load compared with 1. A closed gate is well-formed, and
   * on a well-formed gate closed means exactly "not open", the test ServeHTTP makes.
   */
  predicate IsClosed(g: Gate)
    ensures IsClosed(g) ==> WellFormed(g)
    ensures WellFormed(g) ==> (IsClosed(g) <==> g.closed != 0)
  {
    g.closed == 1
  }

  /** Close: an atomic store of 1; closing again changes nothing. */
  function Close(g: Gate): (g': Gate)
    ensures WellFormed(g') && IsClosed(g')
    ensures IsClosed(g) ==> g' == g
  {
    Gate(1)
  }

  /**
   * ServeHTTP: an atomic load compared with 0. The handler runs exactly when
   * the gate is open, although the two reads compare against different constants.
   */
  function ServeHTTP(g: Gate): (d: Dispatch)
    ensures WellFormed(g) ==> (d == InvokeHandler <==> !IsClosed(g))
  {
    if g.closed == 0 then InvokeHandler else DrainBody
  }

  /** One operation on the gate: only CloseGate writes the flag. */
  function Perform(g: Gate, op: GateOp): (g': Gate)
    ensures op != CloseGate ==> g' == g
    ensures op == CloseGate ==> IsClosed(g')
  {
    match op
    case CloseGate => Close(g)
    case ServeRequest => g
    case QueryClosed => g
  }

  /**
   * A history of operations: the gate stays well-formed, it ends closed exactly
   * when it started closed or some Close happened, and it never reopens.
   */
  function Run(g: Gate, ops: seq<GateOp>): (g': Gate)
    requires WellFormed(g)
    ensures WellFormed(g')
    ensures IsClosed(g') <==> IsClosed(g) || CloseGate in ops
    decreases |ops|
  {
    if |ops| == 0 then g
    else
      assert CloseGate in ops <==> ops[0] == CloseGate || CloseGate in ops[1..];
      Run(Perform(g, ops[0]), ops[1..])
  }

  /** Once closed, every later state of the gate is closed, and every later request is drained. */
  lemma NeverReopens(g: Gate, ops: seq<GateOp>)
    requires WellFormed(g) && IsClosed(g)
    ensures IsClosed(Run(g, ops))
    ensures ServeHTTP(Run(g, ops)) == DrainBody
  {
  }

  /** The gate seen along a history is monotone: closed at step i implies closed at every later step. */
  lemma ClosedIsMonotone(g: Gate, ops: seq<GateOp>, i: nat, j: nat)
    requires WellFormed(g)
    requires i <= j <= |ops|
    requires IsClosed(Run(g, ops[..i]))
    ensures IsClosed(Run(g, ops[..j]))
  {
  }
}
