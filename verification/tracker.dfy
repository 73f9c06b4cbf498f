/**
 * The connection tracker: the ConnState callback that Serve installs, as a pure
 * step from one per-connection record to the next, together with the change it
 * makes to the busy counter.
 */
module Tracker {
  import opened ConnStates

  /** The bookkeeping attached to one connection. */
  datatype ConnRecord = ConnRecord(lastState: ConnState, forceClosed: bool)

  /**
   * The outcome of one reported transition.
   * delta: +1 for StartRoutine, -1 for FinishRoutine, 0 for neither.
   * closeConn: the callback closed the connection itself (a force close).
   * reportedOld: the previous state handed to the user-supplied state observer.
   */
  datatype Transition = Transition(record: ConnRecord, delta: int, closeConn: bool, reportedOld: ConnState)

  /**
   * The record a connection starts with: the zero value of the Go struct,
   * whose ConnState field is StateNew (the first constant of that enumeration).
   */
  const Fresh := ConnRecord(New, false)

  /**
   * One call of the ConnState callback, given whether the drain gate is closed.
   * The counter goes up on a new connection and on re-activation of an idle one
   * while the gate is open; it goes down when a connection goes idle and when a
   * connection that neither idled nor was force-closed ends.
   */
  function Step(rec: ConnRecord, gateClosed: bool, newState: ConnState): (t: Transition)
    // every transition overwrites the last state and reports the old one
    ensures t.record.lastState == newState
    ensures t.reportedOld == rec.lastState
    // the callback closes the connection exactly when a request starts after the gate closed
    ensures t.closeConn <==> newState == Active && gateClosed
    ensures t.record.forceClosed <==> rec.forceClosed || t.closeConn
    // when the counter moves, and in which direction
    ensures t.delta == 1 <==> newState == New || (newState == Active && !gateClosed && rec.lastState == Idle)
    ensures t.delta == -1 <==> newState == Idle || (IsTerminal(newState) && rec.lastState != Idle && !rec.forceClosed)
    ensures -1 <= t.delta <= 1
    // on a legal transition of a connection that was never force-closed, the
    // counter moves by the change in busyness
    ensures Legal(rec.lastState, newState) && !t.record.forceClosed ==>
              t.delta == BusyCount(newState) - BusyCount(rec.lastState)
  {
    var oldState := rec.lastState;
    var rec' := rec.(lastState := newState);
    match newState
    case New =>
      Transition(rec', 1, false, oldState)
    case Active =>
      if gateClosed then
        Transition(rec'.(forceClosed := true), 0, true, oldState)
      else if oldState == Idle then
        Transition(rec', 1, false, oldState)
      else
        Transition(rec', 0, false, oldState)
    case Idle =>
      Transition(rec', -1, false, oldState)
    case Closed | Hijacked =>
      if oldState != Idle && !rec.forceClosed then
        Transition(rec', -1, false, oldState)
      else
        Transition(rec', 0, false, oldState)
  }
}
