/**
 * The connection states that the HTTP engine reports through its ConnState
 * callback, and the order in which it reports them for one connection.
 */
module ConnStates {

  /** The five states of an HTTP connection, as reported by the engine. */
  datatype ConnState = New | Active | Idle | Closed | Hijacked

  /** Closed and Hijacked end a connection's lifecycle: nothing is reported after them. */
  predicate IsTerminal(s: ConnState) {
    s == Closed || s == Hijacked
  }

  /**
   * The successor relation the engine guarantees for one connection:
   * New -> Active, Idle -> Active, Active -> Idle, and any live state -> Closed/Hijacked.
   */
  predicate Legal(prev: ConnState, next: ConnState) {
    match next
    case New => false
    case Active => prev == New || prev == Idle
    case Idle => prev == Active
    case Closed => !IsTerminal(prev)
    case Hijacked => !IsTerminal(prev)
  }

  /**
   * Whether a connection in this state is doing work that shutdown must wait for:
   * a fresh connection counts as busy until its first request finishes, an active
   * one is busy, idle and ended ones are not.
   */
  predicate Busy(s: ConnState) {
    s == New || s == Active
  }

  function BusyCount(s: ConnState): nat {
    if Busy(s) then 1 else 0
  }
}
