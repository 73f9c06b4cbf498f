/**
 * The server's busy counter: a sync.WaitGroup driven by StartRoutine (Add(1))
 * and FinishRoutine (Done, i.e. Add(-1)). A WaitGroup panics when its counter
 * would go negative; that panic is modelled as None.
 */
module BusyCounter {
  import opened Optional

  /** Sum of a sequence of counter deltas. */
  function Sum(ds: seq<int>): int {
    if |ds| == 0 then 0 else ds[0] + Sum(ds[1..])
  }

  /** WaitGroup.Add: moves the counter by delta, or panics (None) if it would go negative. */
  function Add(counter: nat, delta: int): (r: Option<nat>)
    ensures r.None? <==> counter + delta < 0
    ensures r.Some? ==> r.value - counter == delta
  {
    if counter + delta < 0 then None else Some(counter + delta)
  }

  /** StartRoutine: one more routine the server must wait for; it never panics. */
  function StartRoutine(counter: nat): (r: Option<nat>)
    ensures r == Some(counter + 1)
  {
    Add(counter, 1)
  }

  /** FinishRoutine: one routine fewer; panics exactly when nothing is outstanding. */
  function FinishRoutine(counter: nat): (r: Option<nat>)
    ensures r.None? <==> counter == 0
    ensures r.Some? ==> r.value == counter - 1
  {
    Add(counter, -1)
  }

  /** FinishRoutine undoes StartRoutine. */
  lemma FinishUndoesStart(counter: nat)
    ensures StartRoutine(counter).Some?
    ensures FinishRoutine(StartRoutine(counter).value) == Some(counter)
  {
  }

  /** Every running total of the deltas, starting from counter, stays at or above zero. */
  ghost predicate NeverNegative(counter: int, ds: seq<int>) {
    forall k :: 0 <= k <= |ds| ==> counter + Sum(ds[..k]) >= 0
  }

  /** The deltas sum to zero and no prefix of them drives a counter that starts at zero negative. */
  ghost predicate Balanced(ds: seq<int>) {
    Sum(ds) == 0 && NeverNegative(0, ds)
  }

  /**
   * Applies the deltas one at a time, as the connection-state callbacks do.
   * The run survives exactly when no running total goes negative, and then
   * it ends at the starting value plus the sum of the deltas.
   */
  function Apply(counter: nat, ds: seq<int>): (r: Option<nat>)
    ensures r.Some? <==> NeverNegative(counter, ds)
    ensures r.Some? ==> r.value == counter + Sum(ds)
    decreases |ds|
  {
    if |ds| == 0 then
      assert ds[..0] == [];
      Some(counter)
    else
      NeverNegativeUnfold(counter, ds);
      match Add(counter, ds[0])
      case None =>
        assert counter + Sum(ds[..1]) < 0;
        None
      case Some(c) => Apply(c, ds[1..])
  }

  /** The running total after k + 1 deltas is the first delta plus the running total of the rest. */
  lemma PrefixSum(ds: seq<int>)
    requires |ds| > 0
    ensures forall k :: 1 <= k <= |ds| ==> Sum(ds[..k]) == ds[0] + Sum(ds[1..][..k-1])
  {
    forall k | 1 <= k <= |ds|
      ensures Sum(ds[..k]) == ds[0] + Sum(ds[1..][..k-1])
    {
      assert ds[..k][1..] == ds[1..][..k-1];
    }
  }

  /** A run stays non-negative when its first step does and the rest stays non-negative from there. */
  lemma NeverNegativeUnfold(counter: nat, ds: seq<int>)
    requires |ds| > 0
    ensures NeverNegative(counter, ds) <==> counter + ds[0] >= 0 && NeverNegative(counter + ds[0], ds[1..])
  {
    PrefixSum(ds);
    assert ds[..0] == [] && ds[1..][..0] == [];
    if NeverNegative(counter, ds) {
      forall k | 0 <= k <= |ds[1..]|
        ensures counter + ds[0] + Sum(ds[1..][..k]) >= 0
      {
        assert counter + Sum(ds[..k+1]) >= 0;
      }
    }
  }

  /** A counter that starts at zero survives the deltas and returns to zero exactly when they are balanced. */
  lemma ApplyBalanced(ds: seq<int>)
    ensures Apply(0, ds) == Some(0) <==> Balanced(ds)
  {
  }
}
