/**
 * The connection tracker with an accounting under which every increment made
 * for a connection is matched by exactly one decrement, so that the server's
 * Wait returns once all in-flight requests have completed (the promise of the
 * GracefulServer doc comment): a force close resolves whatever the connection
 * still held, and a connection that has been force-closed no longer moves the counter.
 */
module CorrectedTracker {
  import opened ConnStates
  import opened Tracker

  /** The share of the busy counter a connection holds: one while busy and not force-closed. */
  function Held(rec: ConnRecord): nat {
    if !rec.forceClosed && Busy(rec.lastState) then 1 else 0
  }

  /**
   * The callback with two changes: a force close releases the count held since
   * New (FinishRoutine when the previous state was not Idle), and Idle after a
   * force close does not decrement again.
   */
  function CorrectedStep(rec: ConnRecord, gateClosed: bool, newState: ConnState): (t: Transition)
    ensures t.record.lastState == newState && t.reportedOld == rec.lastState
    ensures t.closeConn <==> newState == Active && gateClosed
    ensures t.record.forceClosed <==> rec.forceClosed || t.closeConn
    // with the gate open on a connection never force-closed, it agrees with the source
    ensures !gateClosed && !rec.forceClosed ==> t == Step(rec, gateClosed, newState)
    // on a legal transition the counter moves by the change in the connection's held share
    ensures Legal(rec.lastState, newState) && (rec.forceClosed ==> gateClosed) ==>
              t.delta == Held(t.record) - Held(rec)
  {
    var oldState := rec.lastState;
    var rec' := rec.(lastState := newState);
    match newState
    case New =>
      Transition(rec', 1, false, oldState)
    case Active =>
      if gateClosed then
        var release := if oldState != Idle && !rec.forceClosed then -1 else 0;
        Transition(rec'.(forceClosed := true), release, true, oldState)
      else if oldState == Idle then
        Transition(rec', 1, false, oldState)
      else
        Transition(rec', 0, false, oldState)
    case Idle =>
      Transition(rec', if rec.forceClosed then 0 else -1, false, oldState)
    case Closed | Hijacked =>
      if oldState != Idle && !rec.forceClosed then
        Transition(rec', -1, false, oldState)
      else
        Transition(rec', 0, false, oldState)
  }
}
