/**
 * The server's view of all its connections at once: the ConnState callback
 * runs for many connections, interleaved, against one shared busy counter and
 * one drain gate. Reports for one connection arrive in order; reports for
 * different connections interleave arbitrarily.
 */
module Server {
  import opened Optional
  import opened ConnStates
  import opened BusyCounter
  import opened DrainGate
  import opened Tracker
  import opened Lifecycle
  import opened CorrectedLifecycle

  /** What the server observes: a state report for connection conn, or the drain gate closing. */
  datatype ServerEvent = Report(conn: nat, state: ConnState) | CloseDrainGate

  /** The records of the connections accepted during the run, the shared counter and the gate. */
  datatype ServerState = ServerState(records: seq<ConnRecord>, counter: nat, gate: Gate)

  /** The server before any report: n fresh records, a zero counter, an open gate. */
  function Initial(n: nat): (s: ServerState)
    ensures |s.records| == n && s.counter == 0 && WellFormed(s.gate) && !IsClosed(s.gate)
    ensures forall i :: 0 <= i < n ==> s.records[i] == Fresh
  {
    ServerState(seq(n, _ => Fresh), 0, NewGate())
  }

  /** Every report names one of the server's connections. */
  ghost predicate Addressed(n: nat, evs: seq<ServerEvent>) {
    forall i :: 0 <= i < |evs| && evs[i].Report? ==> evs[i].conn < n
  }

  /**
   * One event. A report runs the callback on that connection's record only and
   * moves the shared counter by its delta, panicking (None) if the counter would
   * go negative; closing the gate touches nothing else.
   */
  function OnEvent(acc: Accounting, s: ServerState, ev: ServerEvent): (r: Option<ServerState>)
    requires ev.Report? ==> ev.conn < |s.records|
    requires WellFormed(s.gate)
    ensures r.Some? ==> |r.value.records| == |s.records| && WellFormed(r.value.gate)
    ensures ev.CloseDrainGate? ==>
              r.Some? && r.value.records == s.records && r.value.counter == s.counter && IsClosed(r.value.gate)
    ensures ev.Report? ==>
              var t := StepWith(acc, s.records[ev.conn], IsClosed(s.gate), ev.state);
              && (r.None? <==> s.counter + t.delta < 0)
              && (r.Some? ==>
                    && r.value.counter == s.counter + t.delta
                    && r.value.gate == s.gate
                    && r.value.records[ev.conn] == t.record
                    && forall i :: 0 <= i < |s.records| && i != ev.conn ==> r.value.records[i] == s.records[i])
  {
    match ev
    case CloseDrainGate => Some(s.(gate := Close(s.gate)))
    case Report(c, st) =>
      var t := StepWith(acc, s.records[c], IsClosed(s.gate), st);
      match Add(s.counter, t.delta)
      case None => None
      case Some(counter') => Some(ServerState(s.records[c := t.record], counter', s.gate))
  }

  /** A run of events; None as soon as the counter panics. */
  function Run(acc: Accounting, s: ServerState, evs: seq<ServerEvent>): (r: Option<ServerState>)
    requires Addressed(|s.records|, evs)
    requires WellFormed(s.gate)
    ensures r.Some? ==> |r.value.records| == |s.records| && WellFormed(r.value.gate)
    ensures r.Some? && IsClosed(s.gate) ==> IsClosed(r.value.gate)
    ensures r.Some? && ServerEvent.CloseDrainGate in evs ==> IsClosed(r.value.gate)
    decreases |evs|
  {
    if |evs| == 0 then Some(s)
    else
      assert ServerEvent.CloseDrainGate in evs ==> evs[0].CloseDrainGate? || ServerEvent.CloseDrainGate in evs[1..];
      match OnEvent(acc, s, evs[0])
      case None => None
      case Some(s') => Run(acc, s', evs[1..])
  }

  /** The events connection i sees, each with the gate as it was when reported. */
  function Project(evs: seq<ServerEvent>, gateClosed: bool, i: nat): seq<Event>
    decreases |evs|
  {
    if |evs| == 0 then []
    else
      match evs[0]
      case CloseDrainGate => Project(evs[1..], true, i)
      case Report(c, st) =>
        (if c == i then [Event(st, gateClosed)] else []) + Project(evs[1..], gateClosed, i)
  }

  /** The first event's delta comes first, followed by the deltas of the rest from the updated record. */
  lemma DeltasFirst(acc: Accounting, rec: ConnRecord, e: Event, rest: seq<Event>)
    ensures var t := StepWith(acc, rec, e.gateClosed, e.state);
            Deltas(acc, rec, [e] + rest) == [t.delta] + Deltas(acc, t.record, rest)
  {
    assert ([e] + rest)[0] == e && ([e] + rest)[1..] == rest;
  }

  /** Changing one connection's share changes the total by the same amount. */
  lemma {:induction false} SumUpdate(shares: seq<nat>, i: nat, v: nat)
    requires i < |shares|
    ensures Sum(shares[i := v]) == Sum(shares) - shares[i] + v
    decreases |shares|
  {
    if i > 0 {
      assert shares[i := v][1..] == shares[1..][i - 1 := v];
      SumUpdate(shares[1..], i - 1, v);
    }
  }

  /** Shares are never negative, so neither is their sum. */
  lemma {:induction false} SumNonNegative(shares: seq<nat>)
    ensures Sum(shares) >= 0
    decreases |shares|
  {
    if |shares| > 0 {
      SumNonNegative(shares[1..]);
    }
  }

  /** Shares that are all zero sum to zero. */
  lemma {:induction false} SumAllZero(shares: seq<nat>)
    requires forall i :: 0 <= i < |shares| ==> shares[i] == 0
    ensures Sum(shares) == 0
    decreases |shares|
  {
    if |shares| > 0 {
      SumAllZero(shares[1..]);
    }
  }

  /** Dropping the first event keeps every report addressed to a known connection. */
  lemma AddressedRest(n: nat, evs: seq<ServerEvent>)
    requires Addressed(n, evs) && |evs| > 0
    ensures Addressed(n, evs[1..])
  {
  }

  /** A report is projected onto its own connection only, with the gate as it stands. */
  lemma ProjectReport(c: nat, st: ConnState, rest: seq<ServerEvent>, g: bool, i: nat)
    ensures c == i ==> Project([Report(c, st)] + rest, g, i) == [Event(st, g)] + Project(rest, g, i)
    ensures c != i ==> Project([Report(c, st)] + rest, g, i) == Project(rest, g, i)
  {
  }

  /**
   * From its current record and share, each connection's remaining events
   * bring its share back to zero without going negative.
   */
  ghost predicate AllDrain(acc: Accounting, records: seq<ConnRecord>, shares: seq<nat>, evs: seq<ServerEvent>, g: bool) {
    |shares| == |records| &&
    forall i :: 0 <= i < |shares| ==> Apply(shares[i], Deltas(acc, records[i], Project(evs, g, i))) == Some(0)
  }

  /** A connection's share survives its next delta, and its remaining events still drain it. */
  lemma ApplyFirst(share: nat, d: int, ds: seq<int>)
    requires Apply(share, [d] + ds) == Some(0)
    ensures share + d >= 0
    ensures Apply(share + d, ds) == Some(0)
  {
  }

  /** A report whose delta keeps the counter non-negative updates just that connection's record. */
  lemma ReportUpdates(acc: Accounting, s: ServerState, c: nat, st: ConnState)
    requires WellFormed(s.gate) && c < |s.records|
    requires s.counter + StepWith(acc, s.records[c], IsClosed(s.gate), st).delta >= 0
    ensures var t := StepWith(acc, s.records[c], IsClosed(s.gate), st);
            OnEvent(acc, s, Report(c, st)) == Some(ServerState(s.records[c := t.record], s.counter + t.delta, s.gate))
  {
  }

  /**
   * After a report, every connection still drains: the others keep their record,
   * share and remaining events, and the reporting one drains from its new state.
   */
  lemma SharesStillDrain(acc: Accounting, records: seq<ConnRecord>, shares: seq<nat>, c: nat, st: ConnState,
                         rest: seq<ServerEvent>, g: bool, rec': ConnRecord, share': nat)
    requires c < |records| && AllDrain(acc, records, shares, [Report(c, st)] + rest, g)
    requires Apply(share', Deltas(acc, rec', Project(rest, g, c))) == Some(0)
    ensures AllDrain(acc, records[c := rec'], shares[c := share'], rest, g)
  {
    forall i | 0 <= i < |shares|
      ensures Apply(shares[c := share'][i], Deltas(acc, records[c := rec'][i], Project(rest, g, i))) == Some(0)
    {
      if i != c {
        ProjectReport(c, st, rest, g, i);
        assert Apply(shares[i], Deltas(acc, records[i], Project([Report(c, st)] + rest, g, i))) == Some(0);
      }
    }
  }

  /** The reporting connection's share moves by the callback's delta, stays non-negative and still drains. */
  lemma OwnShareStep(acc: Accounting, rec: ConnRecord, share: nat, c: nat, st: ConnState,
                     rest: seq<ServerEvent>, g: bool)
    requires Apply(share, Deltas(acc, rec, Project([Report(c, st)] + rest, g, c))) == Some(0)
    ensures share + StepWith(acc, rec, g, st).delta >= 0
    ensures Apply(share + StepWith(acc, rec, g, st).delta,
                  Deltas(acc, StepWith(acc, rec, g, st).record, Project(rest, g, c))) == Some(0)
  {
    var t := StepWith(acc, rec, g, st);
    ProjectReport(c, st, rest, g, c);
    DeltasFirst(acc, rec, Event(st, g), Project(rest, g, c));
    ApplyFirst(share, t.delta, Deltas(acc, t.record, Project(rest, g, c)));
  }

  /**
   * One report keeps the run invariant: only the reporting connection's record
   * and share change, its share moves by the callback's delta and stays
   * non-negative, and the counter remains the sum of the shares.
   */
  lemma ReportKeepsInvariant(acc: Accounting, s: ServerState, c: nat, st: ConnState,
                             rest: seq<ServerEvent>, shares: seq<nat>)
    returns (s': ServerState, shares': seq<nat>)
    requires WellFormed(s.gate) && c < |s.records|
    requires s.counter == Sum(shares) && AllDrain(acc, s.records, shares, [Report(c, st)] + rest, IsClosed(s.gate))
    ensures s'.records == s.records[c := StepWith(acc, s.records[c], IsClosed(s.gate), st).record]
    ensures s'.counter == s.counter + StepWith(acc, s.records[c], IsClosed(s.gate), st).delta
    ensures s'.gate == s.gate
    ensures s'.counter == Sum(shares') && AllDrain(acc, s'.records, shares', rest, IsClosed(s.gate))
  {
    var g := IsClosed(s.gate);
    var t := StepWith(acc, s.records[c], g, st);
    OwnShareStep(acc, s.records[c], shares[c], c, st, rest, g);
    var share': nat := shares[c] + t.delta;
    shares' := shares[c := share'];
    SumUpdate(shares, c, share');
    SumNonNegative(shares');
    s' := ServerState(s.records[c := t.record], s.counter + t.delta, s.gate);
    SharesStillDrain(acc, s.records, shares, c, st, rest, g, t.record, share');
  }

  /** A report that does not panic hands the rest of the run the updated state. */
  lemma RunAfterReport(acc: Accounting, s: ServerState, c: nat, st: ConnState, rest: seq<ServerEvent>)
    requires WellFormed(s.gate) && c < |s.records| && Addressed(|s.records|, [Report(c, st)] + rest)
    requires s.counter + StepWith(acc, s.records[c], IsClosed(s.gate), st).delta >= 0
    ensures Addressed(|s.records|, rest)
    ensures var t := StepWith(acc, s.records[c], IsClosed(s.gate), st);
            Run(acc, s, [Report(c, st)] + rest) == Run(acc, ServerState(s.records[c := t.record], s.counter + t.delta, s.gate), rest)
  {
    AddressedRest(|s.records|, [Report(c, st)] + rest);
    assert ([Report(c, st)] + rest)[0] == Report(c, st) && ([Report(c, st)] + rest)[1..] == rest;
    ReportUpdates(acc, s, c, st);
  }

  /** A run that starts with a report continues from the updated state, which keeps the run invariant. */
  lemma ReportStep(acc: Accounting, s: ServerState, c: nat, st: ConnState,
                   rest: seq<ServerEvent>, shares: seq<nat>)
    returns (s': ServerState, shares': seq<nat>)
    requires WellFormed(s.gate) && Addressed(|s.records|, [Report(c, st)] + rest)
    requires s.counter == Sum(shares) && AllDrain(acc, s.records, shares, [Report(c, st)] + rest, IsClosed(s.gate))
    ensures s'.gate == s.gate && |s'.records| == |s.records| && Addressed(|s'.records|, rest)
    ensures Run(acc, s, [Report(c, st)] + rest) == Run(acc, s', rest)
    ensures s'.counter == Sum(shares') && AllDrain(acc, s'.records, shares', rest, IsClosed(s.gate))
  {
    assert c < |s.records| by { assert ([Report(c, st)] + rest)[0] == Report(c, st); }
    s', shares' := ReportKeepsInvariant(acc, s, c, st, rest, shares);
    RunAfterReport(acc, s, c, st, rest);
  }

  /**
   * The invariant of a run: the shared counter is the sum of the connections'
   * shares, and from its current record and share each connection's remaining
   * events bring its share back to zero without going negative. Then the whole
   * run neither panics nor leaves anything on the counter.
   */
  lemma {:induction false} RunDrains(acc: Accounting, s: ServerState, evs: seq<ServerEvent>, shares: seq<nat>)
    requires WellFormed(s.gate) && Addressed(|s.records|, evs)
    requires s.counter == Sum(shares) && AllDrain(acc, s.records, shares, evs, IsClosed(s.gate))
    ensures Run(acc, s, evs).Some? && Run(acc, s, evs).value.counter == 0
    decreases |evs|
  {
    if |evs| == 0 {
      forall i | 0 <= i < |shares|
        ensures shares[i] == 0
      {
        assert Apply(shares[i], []) == Some(shares[i]);
      }
      SumAllZero(shares);
    } else {
      var rest := evs[1..];
      AddressedRest(|s.records|, evs);
      match evs[0]
      case CloseDrainGate =>
        RunDrains(acc, s.(gate := Close(s.gate)), rest, shares);
      case Report(c, st) =>
        assert evs == [Report(c, st)] + rest;
        var s', shares' := ReportStep(acc, s, c, st, rest, shares);
        RunDrains(acc, s', rest, shares');
    }
  }

  /**
   * Drain completeness: if every connection's own events leave its share of the
   * counter balanced, the interleaved run over the shared counter never panics
   * and ends with the counter at zero, so the server's Wait returns.
   */
  lemma ServerDrains(acc: Accounting, n: nat, evs: seq<ServerEvent>)
    requires Addressed(n, evs)
    requires forall i :: 0 <= i < n ==> Apply(0, Deltas(acc, Fresh, Project(evs, false, i))) == Some(0)
    ensures Run(acc, Initial(n), evs).Some?
    ensures Run(acc, Initial(n), evs).value.counter == 0
  {
    var shares: seq<nat> := seq(n, _ => 0);
    SumAllZero(shares);
    RunDrains(acc, Initial(n), evs, shares);
  }

  /** A connection's projected events see the gate monotonically, and all closed once it has closed. */
  lemma {:induction false} ProjectMonotone(evs: seq<ServerEvent>, gateClosed: bool, i: nat)
    ensures GateMonotone(Project(evs, gateClosed, i))
    ensures gateClosed ==> forall j :: 0 <= j < |Project(evs, gateClosed, i)| ==> Project(evs, gateClosed, i)[j].gateClosed
    decreases |evs|
  {
    if |evs| > 0 {
      match evs[0]
      case CloseDrainGate =>
        ProjectMonotone(evs[1..], true, i);
      case Report(c, st) =>
        ProjectMonotone(evs[1..], gateClosed, i);
        if gateClosed {
          ProjectMonotone(evs[1..], true, i);
        }
    }
  }

  /** Every connection was either never reported or went through a complete lifecycle. */
  ghost predicate CompleteLifecycles(n: nat, evs: seq<ServerEvent>) {
    forall i :: 0 <= i < n ==> Project(evs, false, i) == [] || ValidLifecycle(Project(evs, false, i))
  }

  /**
   * With the source's accounting, the server drains when every connection's
   * lifecycle is complete and free of hazards.
   */
  lemma AsWrittenServerDrains(n: nat, evs: seq<ServerEvent>)
    requires Addressed(n, evs) && CompleteLifecycles(n, evs)
    requires forall i :: 0 <= i < n ==> !Hazard(Project(evs, false, i))
    ensures Run(AsWritten, Initial(n), evs).Some?
    ensures Run(AsWritten, Initial(n), evs).value.counter == 0
  {
    forall i | 0 <= i < n
      ensures Apply(0, Deltas(AsWritten, Fresh, Project(evs, false, i))) == Some(0)
    {
      var es := Project(evs, false, i);
      if es != [] {
        ProjectMonotone(evs, false, i);
        LifecycleBalanced(es);
      }
    }
    ServerDrains(AsWritten, n, evs);
  }

  /** With the corrected accounting, the server drains whenever every lifecycle is complete. */
  lemma CorrectedServerDrains(n: nat, evs: seq<ServerEvent>)
    requires Addressed(n, evs) && CompleteLifecycles(n, evs)
    ensures Run(Corrected, Initial(n), evs).Some?
    ensures Run(Corrected, Initial(n), evs).value.counter == 0
  {
    forall i | 0 <= i < n
      ensures Apply(0, Deltas(Corrected, Fresh, Project(evs, false, i))) == Some(0)
    {
      var es := Project(evs, false, i);
      if es != [] {
        ProjectMonotone(evs, false, i);
        CorrectedLifecycleBalanced(es);
      }
    }
    ServerDrains(Corrected, n, evs);
  }

  /**
   * In the source, a connection accepted before shutdown whose first request
   * arrives after the gate closed keeps the counter at one: Wait never returns.
   */
  lemma AsWrittenServerHangs()
    ensures Run(AsWritten, Initial(1), [Report(0, New), CloseDrainGate, Report(0, Active), Report(0, Closed)]).Some?
    ensures Run(AsWritten, Initial(1), [Report(0, New), CloseDrainGate, Report(0, Active), Report(0, Closed)]).value.counter == 1
  {
  }
}
