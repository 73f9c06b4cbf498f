/**
 * Lifecycles under the corrected accounting: every complete lifecycle leaves
 * the busy counter balanced, with no pattern of reports to exclude.
 */
module CorrectedLifecycle {
  import opened Optional
  import opened ConnStates
  import opened BusyCounter
  import opened Tracker
  import opened CorrectedTracker
  import opened Lifecycle

  /** From any point of a valid lifecycle, the counter drains to zero without a panic. */
  lemma {:induction false} CorrectedRestBalanced(es: seq<Event>, k: int, rec: ConnRecord)
    requires ValidLifecycle(es) && GateMonotone(es)
    requires 1 <= k < |es|
    requires rec.lastState == es[k - 1].state
    requires rec.forceClosed ==> es[k - 1].gateClosed
    ensures Held(rec) >= 0
    ensures Apply(Held(rec), Deltas(Corrected, rec, es[k..])) == Some(0)
    decreases |es| - k
  {
    var e := es[k];
    var t := CorrectedStep(rec, e.gateClosed, e.state);
    assert Legal(es[k - 1].state, e.state);
    assert es[k..][0] == e && es[k..][1..] == es[k + 1..];
    assert Deltas(Corrected, rec, es[k..]) == [t.delta] + Deltas(Corrected, t.record, es[k + 1..]);
    if rec.forceClosed {
      assert e.gateClosed;
    }
    if k == |es| - 1 {
      assert Deltas(Corrected, t.record, es[k + 1..]) == [];
    } else {
      CorrectedRestBalanced(es, k + 1, t.record);
    }
  }

  /**
   * With the corrected accounting every complete lifecycle whose gate never
   * reopens is balanced: no hazard needs to be excluded.
   */
  lemma CorrectedLifecycleBalanced(es: seq<Event>)
    requires ValidLifecycle(es) && GateMonotone(es)
    ensures Balanced(Deltas(Corrected, Fresh, es))
    ensures Apply(0, Deltas(Corrected, Fresh, es)) == Some(0)
  {
    var t := CorrectedStep(Fresh, es[0].gateClosed, New);
    assert Deltas(Corrected, Fresh, es) == [1] + Deltas(Corrected, t.record, es[1..]);
    CorrectedRestBalanced(es, 1, t.record);
    ApplyBalanced(Deltas(Corrected, Fresh, es));
  }

  /**
   * Under the corrected accounting the counter share is always the held share:
   * along legal transitions whose gate never reopens it never goes negative, and
   * after the events it is one exactly while the connection is New or Active
   * and not force-closed. So the counter cannot reach zero while a request of
   * this connection is in flight.
   */
  lemma {:induction false} CorrectedShareIsHeld(rec: ConnRecord, es: seq<Event>)
    requires LegalFrom(rec.lastState, es) && GateMonotone(es)
    requires rec.forceClosed && |es| > 0 ==> es[0].gateClosed
    ensures Apply(Held(rec), Deltas(Corrected, rec, es)) == Some(Held(RecAfter(Corrected, rec, es)))
    decreases |es|
  {
    if |es| > 0 {
      var t := CorrectedStep(rec, es[0].gateClosed, es[0].state);
      var rest := Deltas(Corrected, t.record, es[1..]);
      assert Deltas(Corrected, rec, es) == [t.delta] + rest;
      assert ([t.delta] + rest)[0] == t.delta && ([t.delta] + rest)[1..] == rest;
      assert forall i :: 1 <= i < |es| ==> es[1..][i - 1] == es[i];
      assert LegalFrom(t.record.lastState, es[1..]);
      if t.record.forceClosed && |es| > 1 {
        assert es[0].gateClosed;
        assert es[1..][0].gateClosed;
      }
      CorrectedShareIsHeld(t.record, es[1..]);
    }
  }

  /**
   * From a connection's first report on, under the corrected accounting, its
   * share of the counter at the end of any stretch of its lifecycle is its held
   * share then, and nothing before it is reported.
   */
  lemma CorrectedShareFromNew(es: seq<Event>)
    requires ValidStart(es) && GateMonotone(es)
    ensures Apply(0, Deltas(Corrected, Fresh, es)) ==
              Some(if |es| == 0 then 0 else Held(RecAfter(Corrected, Fresh, es)))
  {
    if |es| > 0 {
      var t := CorrectedStep(Fresh, es[0].gateClosed, New);
      var rest := Deltas(Corrected, t.record, es[1..]);
      assert Deltas(Corrected, Fresh, es) == [1] + rest;
      assert ([1] + rest)[1..] == rest;
      CorrectedShareIsHeld(t.record, es[1..]);
    }
  }

  /** The lifecycle that leaves a residue in the source is balanced once corrected. */
  lemma CorrectedForceCloseFromNew()
    ensures Deltas(Corrected, Fresh, [Event(New, false), Event(Active, true), Event(Closed, true)]) == [1, -1, 0]
  {
  }
}
