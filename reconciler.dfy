/** The reconciler: merges one batched fetch, aligned with a candidate list,
    into the store under the block-height guard, and counts the updates. */
module Reconciler {
  import opened Pairs

  /** The three tests a candidate must pass to be overwritten: both results
      truthy, a value different from the cached one, and a cached height
      not above the block's. */
  predicate ShouldApply(p: Pair, r: Option<Fetched>, h: nat)
  {
    && Usable(r)
    && !(p.reserve0 == r.value.reserve0 && p.reserve1 == r.value.reserve1)
    && !(p.updatedAtBlock > h)
  }

  /** One candidate's record after the reconciler has looked at it. */
  function Step(p: Pair, r: Option<Fetched>, h: nat): (q: Pair)
    ensures q.address == p.address
    ensures q.updatedAtBlock >= p.updatedAtBlock
    ensures q != p <==> ShouldApply(p, r, h)
    ensures q != p ==> q.reserve0 == r.value.reserve0 && q.reserve1 == r.value.reserve1 && q.updatedAtBlock == h
  {
    if ShouldApply(p, r, h) then Pair(p.address, r.value.reserve0, r.value.reserve1, h) else p
  }

  /** The store and the `updated` count after a reconciliation. */
  datatype Outcome = Outcome(pairs: seq<Pair>, updated: nat)

  /** The reconciliation after the first `n` candidates have been visited,
      in candidate order; each visit reads the record as it is then. */
  function ReconcileUpTo(ps: seq<Pair>, cands: seq<nat>, results: Results, h: nat, n: nat): (o: Outcome)
    requires n <= |cands| && InBounds(cands, |ps|)
    ensures |o.pairs| == |ps| && o.updated <= n
    ensures Addresses(o.pairs) == Addresses(ps)
    ensures forall k :: 0 <= k < |ps| ==> o.pairs[k].updatedAtBlock >= ps[k].updatedAtBlock
    decreases n
  {
    if n == 0 then Outcome(ps, 0)
    else
      var prev := ReconcileUpTo(ps, cands, results, h, n - 1);
      var j := cands[n - 1];
      var r := ResultAt(results, n - 1);
      if ShouldApply(prev.pairs[j], r, h)
      then Outcome(prev.pairs[j := Step(prev.pairs[j], r, h)], prev.updated + 1)
      else prev
  }

  /** The whole reconciliation of a batch. */
  function Reconciled(ps: seq<Pair>, cands: seq<nat>, results: Results, h: nat): Outcome
    requires InBounds(cands, |ps|)
  {
    ReconcileUpTo(ps, cands, results, h, |cands|)
  }

  /** With distinct candidates, each visited record is decided on its own
      cached value and its own aligned result, and every other record is
      left exactly as it was. */
  lemma {:induction false} ReconcileUpToAt(ps: seq<Pair>, cands: seq<nat>, results: Results, h: nat, n: nat, k: nat)
    requires n <= |cands| && InBounds(cands, |ps|) && NoDuplicates(cands) && k < |ps|
    ensures (forall i :: 0 <= i < n ==> cands[i] != k) ==>
              ReconcileUpTo(ps, cands, results, h, n).pairs[k] == ps[k]
    ensures forall i :: 0 <= i < n && cands[i] == k ==>
              ReconcileUpTo(ps, cands, results, h, n).pairs[k] == Step(ps[k], ResultAt(results, i), h)
    decreases n
  {
    if n > 0 {
      ReconcileUpToAt(ps, cands, results, h, n - 1, k);
      if cands[n - 1] == k {
        assert forall i :: 0 <= i < n - 1 ==> cands[i] != k;
      }
    }
  }

  /** The reconciliation, record by record: a candidate at position `i`
      becomes `Step` of its cached value and result `i`; a pair outside the
      candidate list is untouched. */
  lemma ReconciledAt(ps: seq<Pair>, cands: seq<nat>, results: Results, h: nat, k: nat)
    requires InBounds(cands, |ps|) && NoDuplicates(cands) && k < |ps|
    ensures k !in cands ==> Reconciled(ps, cands, results, h).pairs[k] == ps[k]
    ensures forall i :: 0 <= i < |cands| && cands[i] == k ==>
              Reconciled(ps, cands, results, h).pairs[k] == Step(ps[k], ResultAt(results, i), h)
  {
    ReconcileUpToAt(ps, cands, results, h, |cands|, k);
  }

  /** `updated` counts real changes: it is positive exactly when the store
      differs from the store before the call. */
  lemma {:induction false} UpdatedIffChanged(ps: seq<Pair>, cands: seq<nat>, results: Results, h: nat, n: nat)
    requires n <= |cands| && InBounds(cands, |ps|) && NoDuplicates(cands)
    ensures var o := ReconcileUpTo(ps, cands, results, h, n);
            o.updated > 0 <==> o.pairs != ps
    decreases n
  {
    if n > 0 {
      UpdatedIffChanged(ps, cands, results, h, n - 1);
      var prev := ReconcileUpTo(ps, cands, results, h, n - 1);
      var j := cands[n - 1];
      var r := ResultAt(results, n - 1);
      if ShouldApply(prev.pairs[j], r, h) {
        ReconcileUpToAt(ps, cands, results, h, n - 1, j);
        assert prev.pairs[j] == ps[j];
        var o := ReconcileUpTo(ps, cands, results, h, n);
        assert o.pairs[j] == Step(ps[j], r, h) != ps[j];
      }
    }
  }

  /** Replaying a reconciliation with the same results and height on the
      store it produced changes nothing and updates no pair. */
  lemma ReconcileIdempotent(ps: seq<Pair>, cands: seq<nat>, results: Results, h: nat)
    requires InBounds(cands, |ps|) && NoDuplicates(cands)
    ensures var once := Reconciled(ps, cands, results, h).pairs;
            Reconciled(once, cands, results, h) == Outcome(once, 0)
  {
    var once := Reconciled(ps, cands, results, h).pairs;
    var twice := Reconciled(once, cands, results, h);
    forall k | 0 <= k < |ps|
      ensures twice.pairs[k] == once[k]
    {
      ReconciledAt(ps, cands, results, h, k);
      ReconciledAt(once, cands, results, h, k);
      if k in cands {
        var i :| 0 <= i < |cands| && cands[i] == k;
        var r := ResultAt(results, i);
        assert once[k] == Step(ps[k], r, h);
        assert twice.pairs[k] == Step(once[k], r, h);
      }
    }
    assert twice.pairs == once;
    UpdatedIffChanged(once, cands, results, h, |cands|);
  }

  /** A batch whose every entry is absent, as when the whole fetch fails
      entry by entry, updates no pair. */
  lemma {:induction false} AllAbsentUpdatesNothing(ps: seq<Pair>, cands: seq<nat>, results: Results, h: nat, n: nat)
    requires n <= |cands| && InBounds(cands, |ps|)
    requires forall i :: 0 <= i < |results| ==> results[i] == None
    ensures ReconcileUpTo(ps, cands, results, h, n) == Outcome(ps, 0)
    decreases n
  {
    if n > 0 {
      AllAbsentUpdatesNothing(ps, cands, results, h, n - 1);
      assert ResultAt(results, n - 1) == None;
    }
  }

  /** The height guard: a pair already updated at a height above the
      block's is left unchanged, whatever the batch holds. */
  lemma StaleUntouched(ps: seq<Pair>, cands: seq<nat>, results: Results, h: nat)
    requires InBounds(cands, |ps|) && NoDuplicates(cands)
    ensures forall k :: 0 <= k < |ps| && ps[k].updatedAtBlock > h ==>
              Reconciled(ps, cands, results, h).pairs[k] == ps[k]
  {
    forall k | 0 <= k < |ps| && ps[k].updatedAtBlock > h
      ensures Reconciled(ps, cands, results, h).pairs[k] == ps[k]
    {
      ReconciledAt(ps, cands, results, h, k);
    }
  }

  /** Two in-flight fetches for heights `h1 < h2` completing in reverse
      order: every pair the newer one updated to `h2` survives the older
      one's late reconciliation. */
  lemma OutOfOrderCompletion(ps: seq<Pair>, c2: seq<nat>, r2: Results, h2: nat,
                             c1: seq<nat>, r1: Results, h1: nat)
    requires InBounds(c2, |ps|) && NoDuplicates(c2)
    requires InBounds(c1, |ps|) && NoDuplicates(c1)
    requires h1 < h2
    ensures var mid := Reconciled(ps, c2, r2, h2).pairs;
            var last := Reconciled(mid, c1, r1, h1).pairs;
            forall k :: 0 <= k < |ps| && mid[k].updatedAtBlock == h2 ==> last[k] == mid[k]
  {
    var mid := Reconciled(ps, c2, r2, h2).pairs;
    StaleUntouched(mid, c1, r1, h1);
  }

  /** The guard is not strict about equal heights: a later reconciliation
      for the same height overwrites an earlier one's values. */
  lemma SameHeightOverwrite(ps: seq<Pair>, cands: seq<nat>, results: Results, h: nat, i: nat)
    requires InBounds(cands, |ps|) && NoDuplicates(cands) && i < |cands|
    requires ps[cands[i]].updatedAtBlock == h
    requires Usable(ResultAt(results, i))
    requires ResultAt(results, i).value != Fetched(ps[cands[i]].reserve0, ps[cands[i]].reserve1)
    ensures var q := Reconciled(ps, cands, results, h).pairs[cands[i]];
            Fetched(q.reserve0, q.reserve1) == ResultAt(results, i).value && q.updatedAtBlock == h
  {
    ReconciledAt(ps, cands, results, h, cands[i]);
  }

  /** One completed fetch: its candidates, its aligned batch and its height. */
  datatype Completion = Completion(cands: seq<nat>, results: Results, height: nat)

  predicate Fits(steps: seq<Completion>, n: nat)
  {
    forall s :: 0 <= s < |steps| ==> InBounds(steps[s].cands, n)
  }

  /** The store after reconciling the completions in the given order. */
  function Replay(ps: seq<Pair>, steps: seq<Completion>): (r: seq<Pair>)
    requires Fits(steps, |ps|)
    decreases |steps|
  {
    if steps == [] then ps
    else
      var c := steps[0];
      var next := Reconciled(ps, c.cands, c.results, c.height).pairs;
      Replay(next, steps[1..])
  }

  /** Whatever order the completions arrive in, no pair's update height ever
      decreases and no pair changes address. */
  lemma {:induction false} ReplayMonotone(ps: seq<Pair>, steps: seq<Completion>)
    requires Fits(steps, |ps|)
    ensures |Replay(ps, steps)| == |ps|
    ensures Addresses(Replay(ps, steps)) == Addresses(ps)
    ensures forall k :: 0 <= k < |ps| ==> Replay(ps, steps)[k].updatedAtBlock >= ps[k].updatedAtBlock
    decreases |steps|
  {
    if steps != [] {
      var c := steps[0];
      var next := Reconciled(ps, c.cands, c.results, c.height).pairs;
      assert Fits(steps[1..], |next|) by {
        forall s | 0 <= s < |steps| - 1 ensures InBounds(steps[1..][s].cands, |next|) {
          assert steps[1..][s] == steps[s + 1];
        }
      }
      ReplayMonotone(next, steps[1..]);
    }
  }
}
