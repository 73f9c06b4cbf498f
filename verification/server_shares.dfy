/**
 * The shared counter at every point of a run under the corrected accounting:
 * it is the sum of the shares the connections hold, so it stays positive while
 * any connection not force-closed is New or Active, and Wait cannot return
 * while a request is in flight.
 */
module ServerShares {
  import opened Optional
  import opened ConnStates
  import opened BusyCounter
  import DrainGate
  import opened Tracker
  import opened CorrectedTracker
  import opened Lifecycle
  import opened Server

  /** Whether the events hold a report for connection i. */
  ghost predicate ReportsFor(evs: seq<ServerEvent>, i: int) {
    exists j :: 0 <= j < |evs| && evs[j].Report? && evs[j].conn == i
  }

  /** Each connection's share of the counter: what it holds once it has been reported, nothing before. */
  function Shares(started: seq<bool>, records: seq<ConnRecord>): (shares: seq<nat>)
    requires |started| == |records|
    ensures |shares| == |records|
    ensures forall i :: 0 <= i < |records| ==> shares[i] == (if started[i] then Held(records[i]) else 0)
  {
    seq(|records|, i requires 0 <= i < |records| => if started[i] then Held(records[i]) else 0)
  }

  /**
   * What a connection's remaining events may be: a reported connection goes on
   * with legal successors and, once force-closed, sees the gate closed; one not
   * yet reported still has its fresh record and begins with New.
   */
  ghost predicate Ready(started: bool, rec: ConnRecord, es: seq<Event>, gateClosed: bool) {
    if started then LegalFrom(rec.lastState, es) && (rec.forceClosed ==> gateClosed)
    else rec == Fresh && ValidStart(es)
  }

  /** The run invariant: the counter is the sum of the shares, and every connection is ready for its remaining events. */
  ghost predicate HeldInvariant(s: ServerState, started: seq<bool>, evs: seq<ServerEvent>) {
    && |started| == |s.records|
    && s.counter == Sum(Shares(started, s.records))
    && forall i :: 0 <= i < |started| ==>
         Ready(started[i], s.records[i], Project(evs, DrainGate.IsClosed(s.gate), i), DrainGate.IsClosed(s.gate))
  }

  /** A connection is reported in a run exactly when the first event reports it or the rest does. */
  lemma ReportsForFirst(evs: seq<ServerEvent>, i: int)
    requires |evs| > 0
    ensures ReportsFor(evs, i) <==> (evs[0].Report? && evs[0].conn == i) || ReportsFor(evs[1..], i)
  {
    if ReportsFor(evs[1..], i) {
      var j :| 0 <= j < |evs[1..]| && evs[1..][j].Report? && evs[1..][j].conn == i;
      assert evs[j + 1] == evs[1..][j];
    }
    if ReportsFor(evs, i) && !(evs[0].Report? && evs[0].conn == i) {
      var j :| 0 <= j < |evs| && evs[j].Report? && evs[j].conn == i;
      assert evs[1..][j - 1] == evs[j];
    }
  }

  /** A share never exceeds the sum of all shares. */
  lemma {:induction false} SumAtLeast(shares: seq<nat>, i: nat)
    requires i < |shares|
    ensures Sum(shares) >= shares[i]
    decreases |shares|
  {
    SumNonNegative(shares[1..]);
    if i > 0 {
      SumAtLeast(shares[1..], i - 1);
    }
  }

  /** The events a connection sees in a prefix of a run are a prefix of those it sees in the whole run. */
  lemma {:induction false} ProjectPrefix(evs: seq<ServerEvent>, g: bool, i: nat, k: nat)
    requires k <= |evs|
    ensures Project(evs[..k], g, i) <= Project(evs, g, i)
    decreases |evs|
  {
    if k == 0 {
      assert evs[..k] == [];
    } else {
      assert evs[..k][0] == evs[0] && evs[..k][1..] == evs[1..][..k - 1];
      match evs[0]
      case CloseDrainGate =>
        ProjectPrefix(evs[1..], true, i, k - 1);
      case Report(c, st) =>
        ProjectPrefix(evs[1..], g, i, k - 1);
    }
  }

  /** A prefix of the beginning of a lifecycle is itself the beginning of a lifecycle. */
  lemma ValidStartPrefix(p: seq<Event>, es: seq<Event>)
    requires p <= es && ValidStart(es)
    ensures ValidStart(p)
  {
    if |p| > 0 {
      assert forall j :: 0 <= j < |p| ==> p[j] == es[j];
      assert forall j :: 0 <= j < |p| - 1 ==> p[1..][j] == es[1..][j];
    }
  }

  /** Closing the gate keeps the invariant: the remaining events all see it closed, and no share moves. */
  lemma CloseKeepsHeld(s: ServerState, rest: seq<ServerEvent>, started: seq<bool>)
    requires DrainGate.WellFormed(s.gate) && HeldInvariant(s, started, [CloseDrainGate] + rest)
    ensures HeldInvariant(s.(gate := DrainGate.Close(s.gate)), started, rest)
  {
    assert ([CloseDrainGate] + rest)[0] == CloseDrainGate && ([CloseDrainGate] + rest)[1..] == rest;
    forall i | 0 <= i < |started|
      ensures Ready(started[i], s.records[i], Project(rest, true, i), true)
    {
      assert Project([CloseDrainGate] + rest, DrainGate.IsClosed(s.gate), i) == Project(rest, true, i);
    }
  }

  /** The reporting connection's share moves by exactly the callback's delta, and it is ready for what follows. */
  lemma OwnShareHeld(started: bool, rec: ConnRecord, st: ConnState, rest: seq<Event>, g: bool)
    requires Ready(started, rec, [Event(st, g)] + rest, g)
    ensures var t := CorrectedStep(rec, g, st);
            && (if started then Held(rec) else 0) + t.delta == Held(t.record)
            && Ready(true, t.record, rest, g)
  {
    var es := [Event(st, g)] + rest;
    assert es[0] == Event(st, g) && es[1..] == rest;
    assert forall j :: 1 <= j < |es| ==> es[j] == rest[j - 1];
  }

  /** One report keeps the invariant, with the reporting connection now counted as reported. */
  lemma ReportKeepsHeld(s: ServerState, c: nat, st: ConnState, rest: seq<ServerEvent>, started: seq<bool>)
    returns (s': ServerState)
    requires DrainGate.WellFormed(s.gate) && c < |s.records|
    requires HeldInvariant(s, started, [Report(c, st)] + rest)
    ensures OnEvent(Corrected, s, Report(c, st)) == Some(s')
    ensures s'.gate == s.gate && |s'.records| == |s.records|
    ensures HeldInvariant(s', started[c := true], rest)
  {
    var g := DrainGate.IsClosed(s.gate);
    var rec := s.records[c];
    var t := CorrectedStep(rec, g, st);
    ProjectReport(c, st, rest, g, c);
    OwnShareHeld(started[c], rec, st, Project(rest, g, c), g);
    var started' := started[c := true];
    var records' := s.records[c := t.record];
    var shares := Shares(started, s.records);
    var shares' := Shares(started', records');
    assert shares' == shares[c := Held(t.record)];
    SumUpdate(shares, c, Held(t.record));
    SumNonNegative(shares');
    ReportUpdates(Corrected, s, c, st);
    s' := ServerState(records', s.counter + t.delta, s.gate);
    forall i | 0 <= i < |started'|
      ensures Ready(started'[i], records'[i], Project(rest, g, i), g)
    {
      if i != c {
        ProjectReport(c, st, rest, g, i);
      }
    }
  }

  /**
   * Under the invariant a corrected run never panics, and at its end the
   * counter is the sum of the shares, a connection counting once it has been
   * reported before or during the run.
   */
  lemma {:induction false} RunKeepsHeld(s: ServerState, evs: seq<ServerEvent>, started: seq<bool>)
    returns (started': seq<bool>)
    requires DrainGate.WellFormed(s.gate) && Addressed(|s.records|, evs)
    requires HeldInvariant(s, started, evs)
    ensures Run(Corrected, s, evs).Some?
    ensures |started'| == |started|
    ensures forall i :: 0 <= i < |started| ==> (started'[i] <==> started[i] || ReportsFor(evs, i))
    ensures Run(Corrected, s, evs).value.counter == Sum(Shares(started', Run(Corrected, s, evs).value.records))
    decreases |evs|
  {
    if |evs| == 0 {
      started' := started;
    } else {
      var rest := evs[1..];
      AddressedRest(|s.records|, evs);
      assert evs == [evs[0]] + rest;
      forall i | 0 <= i < |started|
        ensures ReportsFor(evs, i) <==> (evs[0].Report? && evs[0].conn == i) || ReportsFor(rest, i)
      {
        ReportsForFirst(evs, i);
      }
      match evs[0]
      case CloseDrainGate =>
        CloseKeepsHeld(s, rest, started);
        started' := RunKeepsHeld(s.(gate := DrainGate.Close(s.gate)), rest, started);
      case Report(c, st) =>
        var s' := ReportKeepsHeld(s, c, st, rest, started);
        started' := RunKeepsHeld(s', rest, started[c := true]);
    }
  }

  /**
   * At the end of any corrected run whose connections each report the start of
   * a lifecycle, the counter is exactly the sum of the shares the reported
   * connections hold, and the run never panics.
   */
  lemma CorrectedCounterIsHeld(n: nat, evs: seq<ServerEvent>)
    requires Addressed(n, evs)
    requires forall i :: 0 <= i < n ==> ValidStart(Project(evs, false, i))
    ensures Run(Corrected, Initial(n), evs).Some?
    ensures var s := Run(Corrected, Initial(n), evs).value;
            s.counter == Sum(Shares(seq(n, i => ReportsFor(evs, i)), s.records))
  {
    var started := seq(n, _ => false);
    SumAllZero(Shares(started, Initial(n).records));
    var started' := RunKeepsHeld(Initial(n), evs, started);
    assert started' == seq(n, i => ReportsFor(evs, i));
  }

  /**
   * Every prefix of such a run is again one: each connection's events in the
   * prefix are still the beginning of a lifecycle. So the two lemmas above and
   * below hold at every point of the run, not only at its end.
   */
  lemma PrefixStillStarts(n: nat, evs: seq<ServerEvent>, k: nat)
    requires Addressed(n, evs)
    requires forall j :: 0 <= j < n ==> ValidStart(Project(evs, false, j))
    requires k <= |evs|
    ensures Addressed(n, evs[..k])
    ensures forall j :: 0 <= j < n ==> ValidStart(Project(evs[..k], false, j))
  {
    assert forall j :: 0 <= j < k ==> evs[..k][j] == evs[j];
    forall j | 0 <= j < n
      ensures ValidStart(Project(evs[..k], false, j))
    {
      ProjectPrefix(evs, false, j, k);
      ValidStartPrefix(Project(evs[..k], false, j), Project(evs, false, j));
    }
  }

  /**
   * Shutdown waits for in-flight requests: at the end of such a corrected run
   * (and so, by PrefixStillStarts, at every point of one), while a reported
   * connection is New or Active and was not force-closed, the counter is at
   * least one, so Wait cannot return.
   */
  lemma CounterCoversInFlight(n: nat, evs: seq<ServerEvent>, i: nat)
    requires Addressed(n, evs)
    requires forall j :: 0 <= j < n ==> ValidStart(Project(evs, false, j))
    requires i < n && ReportsFor(evs, i)
    ensures Run(Corrected, Initial(n), evs).Some?
    ensures var s := Run(Corrected, Initial(n), evs).value;
            !s.records[i].forceClosed && Busy(s.records[i].lastState) ==> s.counter >= 1
  {
    CorrectedCounterIsHeld(n, evs);
    var s := Run(Corrected, Initial(n), evs).value;
    SumAtLeast(Shares(seq(n, j => ReportsFor(evs, j)), s.records), i);
  }
}
