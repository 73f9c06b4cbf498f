/**
 * One connection's whole lifecycle as seen by the tracker: the sequence of
 * reported states, each paired with whether the drain gate was closed when
 * it was reported, and the counter deltas the tracker produces for it.
 */
module Lifecycle {
  import opened Optional
  import opened ConnStates
  import opened BusyCounter
  import opened Tracker
  import opened CorrectedTracker

  /** One reported transition and the drain gate as the callback saw it. */
  datatype Event = Event(state: ConnState, gateClosed: bool)

  /**
   * A complete lifecycle as the engine reports it: New, then Active and Idle
   * alternating, possibly a last Active, then Closed or Hijacked.
   */
  ghost predicate ValidLifecycle(es: seq<Event>) {
    && |es| >= 2
    && es[0].state == New
    && IsTerminal(es[|es| - 1].state)
    && forall i :: 1 <= i < |es| ==> Legal(es[i - 1].state, es[i].state)
  }

  /** The drain gate never reopens: once an event sees it closed, every later event does. */
  ghost predicate GateMonotone(es: seq<Event>) {
    forall i, j :: 0 <= i < j < |es| && es[i].gateClosed ==> es[j].gateClosed
  }

  /**
   * The events that may follow a record whose last state is prev: each one is
   * a legal successor of the state before it.
   */
  ghost predicate LegalFrom(prev: ConnState, es: seq<Event>) {
    && (|es| > 0 ==> Legal(prev, es[0].state))
    && forall i :: 1 <= i < |es| ==> Legal(es[i - 1].state, es[i].state)
  }

  /** The beginning of a lifecycle that may still be running: New first, then legal successors. */
  ghost predicate ValidStart(es: seq<Event>) {
    |es| > 0 ==> es[0].state == New && LegalFrom(New, es[1..])
  }

  /** Which accounting the callback uses: the source's, or the corrected one. */
  datatype Accounting = AsWritten | Corrected

  function StepWith(acc: Accounting, rec: ConnRecord, gateClosed: bool, newState: ConnState): Transition {
    match acc
    case AsWritten => Step(rec, gateClosed, newState)
    case Corrected => CorrectedStep(rec, gateClosed, newState)
  }

  /** The counter deltas the callback produces for the events, starting from rec. */
  function Deltas(acc: Accounting, rec: ConnRecord, es: seq<Event>): (ds: seq<int>)
    ensures |ds| == |es|
    ensures forall i :: 0 <= i < |ds| ==> -1 <= ds[i] <= 1
    decreases |es|
  {
    if |es| == 0 then []
    else
      var t := StepWith(acc, rec, es[0].gateClosed, es[0].state);
      [t.delta] + Deltas(acc, t.record, es[1..])
  }

  /** The record the callback leaves behind after the events, starting from rec. */
  function RecAfter(acc: Accounting, rec: ConnRecord, es: seq<Event>): (r: ConnRecord)
    ensures |es| == 0 ==> r == rec
    ensures |es| > 0 ==> r.lastState == es[|es| - 1].state
    ensures r.forceClosed <==> rec.forceClosed || exists i :: 0 <= i < |es| && es[i].state == Active && es[i].gateClosed
    decreases |es|
  {
    if |es| == 0 then rec
    else
      assert forall i :: 1 <= i < |es| ==> es[1..][i - 1] == es[i];
      RecAfter(acc, StepWith(acc, rec, es[0].gateClosed, es[0].state).record, es[1..])
  }

  /**
   * While no request arrives after the gate closed, the source's accounting
   * tracks busyness exactly: from a record never force-closed, the counter
   * share never goes negative and is one after the events exactly when the
   * connection is then New or Active, zero when it is Idle or has ended.
   */
  lemma {:induction false} AsWrittenShareIsBusy(rec: ConnRecord, es: seq<Event>)
    requires LegalFrom(rec.lastState, es) && !rec.forceClosed
    requires forall i :: 0 <= i < |es| && es[i].state == Active ==> !es[i].gateClosed
    ensures Apply(BusyCount(rec.lastState), Deltas(AsWritten, rec, es)) ==
              Some(BusyCount(RecAfter(AsWritten, rec, es).lastState))
    decreases |es|
  {
    if |es| > 0 {
      var t := Step(rec, es[0].gateClosed, es[0].state);
      var rest := Deltas(AsWritten, t.record, es[1..]);
      assert Deltas(AsWritten, rec, es) == [t.delta] + rest;
      assert ([t.delta] + rest)[0] == t.delta && ([t.delta] + rest)[1..] == rest;
      assert forall i :: 1 <= i < |es| ==> es[1..][i - 1] == es[i];
      assert LegalFrom(t.record.lastState, es[1..]);
      AsWrittenShareIsBusy(t.record, es[1..]);
    }
  }

  /**
   * From a connection's first report on, while no request arrives after the
   * gate closed, its share of the counter at the end of any stretch of its
   * lifecycle is its busyness then, and nothing before it is reported.
   */
  lemma AsWrittenShareFromNew(es: seq<Event>)
    requires ValidStart(es)
    requires forall i :: 0 <= i < |es| && es[i].state == Active ==> !es[i].gateClosed
    ensures Apply(0, Deltas(AsWritten, Fresh, es)) ==
              Some(if |es| == 0 then 0 else BusyCount(RecAfter(AsWritten, Fresh, es).lastState))
  {
    if |es| > 0 {
      var t := Step(Fresh, es[0].gateClosed, New);
      var rest := Deltas(AsWritten, t.record, es[1..]);
      assert Deltas(AsWritten, Fresh, es) == [1] + rest;
      assert ([1] + rest)[1..] == rest;
      AsWrittenShareIsBusy(t.record, es[1..]);
    }
  }

  /**
   * The two ways a force close breaks the counter's balance. The connection is
   * force-closed at event i (Active while the gate is closed) and either
   * - it came from Idle and goes Idle again: the counter is decremented a
   *   second time for the same work and goes negative, or
   * - it came straight from New and ends next: the increment made for New is
   *   never matched, so the counter keeps a residue of one.
   */
  ghost predicate HazardAt(es: seq<Event>, i: int) {
    && 1 <= i < |es| - 1
    && es[i].state == Active && es[i].gateClosed
    && ((es[i - 1].state == Idle && es[i + 1].state == Idle)
        || (es[i - 1].state == New && IsTerminal(es[i + 1].state)))
  }

  ghost predicate Hazard(es: seq<Event>) {
    exists i :: HazardAt(es, i)
  }

  /**
   * The state of the accounting after the first k events of a valid lifecycle:
   * rec is the tracker's record and c this connection's share of the counter.
   * The share is determined by the last state, except after a force close,
   * where it depends on the state before that.
   */
  ghost predicate Reached(es: seq<Event>, k: int, rec: ConnRecord, c: int) {
    && 1 <= k < |es|
    && rec.lastState == es[k - 1].state
    && (rec.forceClosed ==> es[k - 1].gateClosed)
    && (es[k - 1].state == Active && es[k - 1].gateClosed ==> rec.forceClosed)
    && (es[k - 1].state == New ==> c == 1 && !rec.forceClosed)
    && (es[k - 1].state == Idle ==> c == 0)
    && (es[k - 1].state == Active && !rec.forceClosed ==> c == 1)
    && (es[k - 1].state == Active && rec.forceClosed ==>
          k >= 2 && (c == 1 <==> es[k - 2].state == New) && (c == 0 <==> es[k - 2].state == Idle))
  }

  /**
   * From any reachable point, the rest of the lifecycle drives the counter
   * back to zero without a panic exactly when no hazard lies ahead.
   */
  lemma {:induction false} RestBalanced(es: seq<Event>, k: int, rec: ConnRecord, c: nat)
    requires ValidLifecycle(es) && GateMonotone(es)
    requires Reached(es, k, rec, c)
    ensures Apply(c, Deltas(AsWritten, rec, es[k..])) == Some(0) <==> !(exists i :: k - 1 <= i && HazardAt(es, i))
    decreases |es| - k
  {
    var e := es[k];
    var t := Step(rec, e.gateClosed, e.state);
    assert Legal(es[k - 1].state, e.state);
    assert es[k..][0] == e && es[k..][1..] == es[k + 1..];
    assert Deltas(AsWritten, rec, es[k..]) == [t.delta] + Deltas(AsWritten, t.record, es[k + 1..]);
    if rec.forceClosed {
      assert e.gateClosed;
    }
    if k == |es| - 1 {
      assert Deltas(AsWritten, t.record, es[k + 1..]) == [];
      assert (exists i :: k - 1 <= i && HazardAt(es, i)) <==> HazardAt(es, k - 1);
    } else {
      assert !IsTerminal(e.state);
      if c + t.delta < 0 {
        assert HazardAt(es, k - 1);
      } else {
        assert Reached(es, k + 1, t.record, c + t.delta);
        RestBalanced(es, k + 1, t.record, c + t.delta);
        assert (exists i :: k - 1 <= i && HazardAt(es, i)) <==> (exists i :: k <= i && HazardAt(es, i));
      }
    }
  }

  /**
   * The balance theorem: over a complete lifecycle with a gate that never
   * reopens, the connection's deltas sum to zero with every running total
   * non-negative exactly when the lifecycle contains no hazard.
   */
  lemma LifecycleBalanced(es: seq<Event>)
    requires ValidLifecycle(es) && GateMonotone(es)
    ensures Balanced(Deltas(AsWritten, Fresh, es)) <==> !Hazard(es)
    ensures Apply(0, Deltas(AsWritten, Fresh, es)) == Some(0) <==> !Hazard(es)
  {
    var t := Step(Fresh, es[0].gateClosed, New);
    assert Deltas(AsWritten, Fresh, es) == [1] + Deltas(AsWritten, t.record, es[1..]);
    assert Reached(es, 1, t.record, 1);
    RestBalanced(es, 1, t.record, 1);
    ApplyBalanced(Deltas(AsWritten, Fresh, es));
  }

  /** With the gate open at every Active, every increment is matched and the counter never goes negative. */
  lemma BalancedWhileGateOpen(es: seq<Event>)
    requires ValidLifecycle(es) && GateMonotone(es)
    requires forall i :: 0 <= i < |es| && es[i].state == Active ==> !es[i].gateClosed
    ensures Apply(0, Deltas(AsWritten, Fresh, es)) == Some(0)
  {
    LifecycleBalanced(es);
  }

  /**
   * If the gate closes only while the connection is idle, its next request is
   * force-closed; the lifecycle stays balanced provided the connection then
   * ends rather than going idle again.
   */
  lemma BalancedWhenGateClosesWhileIdle(es: seq<Event>)
    requires ValidLifecycle(es) && GateMonotone(es)
    requires forall i :: 1 <= i < |es| - 1 && es[i].state == Active && es[i].gateClosed ==>
               es[i - 1].state == Idle && IsTerminal(es[i + 1].state)
    ensures Apply(0, Deltas(AsWritten, Fresh, es)) == Some(0)
  {
    LifecycleBalanced(es);
  }

  /**
   * A connection accepted before shutdown whose first request arrives after
   * the gate closed: New (+1), Active with the gate closed (force close, 0),
   * Closed (no decrement, since it was force-closed). One increment is never
   * matched, so the server's Wait never returns.
   */
  lemma ResidueAfterForceCloseFromNew()
    ensures ValidLifecycle([Event(New, false), Event(Active, true), Event(Closed, true)])
    ensures Deltas(AsWritten, Fresh, [Event(New, false), Event(Active, true), Event(Closed, true)]) == [1, 0, 0]
    ensures Apply(0, Deltas(AsWritten, Fresh, [Event(New, false), Event(Active, true), Event(Closed, true)])) == Some(1)
  {
    var es := [Event(New, false), Event(Active, true), Event(Closed, true)];
    assert Sum([0]) == 0 && Sum([0, 0]) == 0;
    assert HazardAt(es, 1);
    LifecycleBalanced(es);
  }

  /**
   * A kept-alive connection that idled, was force-closed on its next request,
   * and is then reported Idle again decrements the counter twice for one
   * increment: the WaitGroup panics.
   */
  lemma NegativeAfterForceCloseThenIdle()
    ensures ValidLifecycle([Event(New, false), Event(Active, false), Event(Idle, false),
                            Event(Active, true), Event(Idle, true), Event(Closed, true)])
    ensures Apply(0, Deltas(AsWritten, Fresh, [Event(New, false), Event(Active, false), Event(Idle, false),
                                    Event(Active, true), Event(Idle, true), Event(Closed, true)])).None?
  {
    var es := [Event(New, false), Event(Active, false), Event(Idle, false),
               Event(Active, true), Event(Idle, true), Event(Closed, true)];
    var ds := Deltas(AsWritten, Fresh, es);
    assert ds == [1, 0, -1, 0, -1, 0];
    // The counter runs 1, 1, 0, 0 and then the second Idle takes it below zero.
    assert Apply(0, [-1, 0]) == None;
    assert Apply(0, [0, -1, 0]) == None;
    assert Apply(1, [-1, 0, -1, 0]) == None;
    assert Apply(1, [0, -1, 0, -1, 0]) == None;
  }
}
