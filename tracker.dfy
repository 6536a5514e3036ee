/** The long-lived state of the cache refresher: the pair store and the
    module-level effectiveness counters, with the operations that update
    them in place. A fetch in flight is a ghost `pending` job, so that
    completions may be reconciled in any order. */
module Tracker {
  import opened Pairs
  import opened Reconciler
  import opened Selection

  /** Every job in flight refers to real records of a store of size `n`. */
  ghost predicate AllFit(jobs: multiset<Job>, n: nat)
  {
    forall job :: job in jobs ==> JobFits(job, n)
  }

  lemma AllFitRemove(jobs: multiset<Job>, n: nat, job: Job)
    requires AllFit(jobs, n) && job in jobs
    ensures AllFit(jobs - multiset{job}, n) && JobFits(job, n)
    ensures |jobs - multiset{job}| == |jobs| - 1
  {
    assert forall other :: other in jobs - multiset{job} ==> other in jobs;
  }

  class BloomTracker {
    /** The store's records, in the map's insertion order. */
    var pairs: seq<Pair>
    var blocksProcessed: nat
    var neededRpcsCalls: nat
    var unnecessaryRpcCalls: nat

    /** The tracked addresses; fixed at construction. */
    ghost var tracked: seq<Address>
    /** Fetches issued and not yet reconciled or failed. */
    ghost var pending: multiset<Job>
    /** Blocks that reached a non-empty candidate list. */
    ghost var fetchesIssued: nat

    ghost predicate Valid()
      reads this
    {
      && Addresses(pairs) == tracked
      && NoDuplicates(tracked)
      && AllFit(pending, |pairs|)
      && neededRpcsCalls + unnecessaryRpcCalls + |pending| <= fetchesIssued <= blocksProcessed
    }

    /** The store built from the configured address list, all counters zero. */
    constructor (addresses: seq<Address>)
      ensures Valid()
      ensures pairs == InitialStore(addresses) && tracked == Dedup(addresses)
      ensures blocksProcessed == 0 && neededRpcsCalls == 0 && unnecessaryRpcCalls == 0
      ensures pending == multiset{} && fetchesIssued == 0
    {
      pairs := InitialStore(addresses);
      tracked := Addresses(InitialStore(addresses));
      blocksProcessed, neededRpcsCalls, unnecessaryRpcCalls := 0, 0, 0;
      pending, fetchesIssued := multiset{}, 0;
      new;
      assert tracked == Dedup(addresses) by {
        var d := Dedup(addresses);
        assert forall i :: 0 <= i < |d| ==> tracked[i] == d[i];
      }
    }

    /** Startup seeding: merges the unconditional batch, aligned with the
        store order, into every record whose two fetched values are truthy,
        stamping it with the chain head height. It runs once, before the
        block listener starts, while every height is still 0. */
    method Seed(head: nat, results: Results)
      requires Valid()
      requires blocksProcessed == 0 && pending == multiset{}
      requires forall k :: 0 <= k < |pairs| ==> pairs[k].updatedAtBlock == 0
      modifies this
      ensures Valid()
      ensures pairs == Seeded(old(pairs), results, head)
      ensures forall k :: 0 <= k < |pairs| ==> pairs[k].updatedAtBlock >= old(pairs)[k].updatedAtBlock
      ensures tracked == old(tracked) && pending == old(pending) && fetchesIssued == old(fetchesIssued)
      ensures blocksProcessed == old(blocksProcessed)
      ensures neededRpcsCalls == old(neededRpcsCalls) && unnecessaryRpcCalls == old(unnecessaryRpcCalls)
    {
      var i := 0;
      while i < |pairs|
        invariant 0 <= i <= |pairs| && |pairs| == |old(pairs)|
        invariant forall k :: 0 <= k < i ==> pairs[k] == SeedPair(old(pairs)[k], ResultAt(results, k), head)
        invariant forall k :: i <= k < |pairs| ==> pairs[k] == old(pairs)[k]
        invariant tracked == old(tracked) && pending == old(pending) && fetchesIssued == old(fetchesIssued)
        invariant blocksProcessed == old(blocksProcessed)
        invariant neededRpcsCalls == old(neededRpcsCalls) && unnecessaryRpcCalls == old(unnecessaryRpcCalls)
      {
        var r := ResultAt(results, i);
        if Usable(r) {
          pairs := pairs[i := Pair(pairs[i].address, r.value.reserve0, r.value.reserve1, head)];
        }
        i := i + 1;
      }
      assert pairs == Seeded(old(pairs), results, head);
      SeedingKeepsAddresses(old(pairs), results, head);
    }

    /** A delivered block: counts it, then runs the topic gate, the
        malformed-block check and candidate selection. A non-empty
        selection becomes a pending fetch; nothing else changes. */
    method OnBlock(b: Block, topicIn: Bloom -> bool, addrIn: (Bloom, Address) -> bool) returns (d: Dispatch)
      requires Valid()
      modifies this
      ensures Valid()
      ensures d == Plan(b, old(pairs), topicIn, addrIn)
      ensures blocksProcessed == old(blocksProcessed) + 1
      ensures pairs == old(pairs) && tracked == old(tracked)
      ensures neededRpcsCalls == old(neededRpcsCalls) && unnecessaryRpcCalls == old(unnecessaryRpcCalls)
      ensures pending == old(pending) + (if d.Fetch? then multiset{d.job} else multiset{})
      ensures fetchesIssued == old(fetchesIssued) + (if d.Fetch? then 1 else 0)
    {
      blocksProcessed := blocksProcessed + 1;
      if b.logsBloom != None && topicIn(b.logsBloom.value) {
        if b.number == None || b.number.value == 0 || b.hash == None || b.hash.value == "" {
          d := Malformed;
        } else {
          var c := Candidates(pairs, b.logsBloom.value, addrIn);
          if |c| == 0 {
            d := NotInBloom;
          } else {
            var job := Job(b.number.value, b.hash.value, c);
            pending := pending + multiset{job};
            fetchesIssued := fetchesIssued + 1;
            d := Fetch(job);
          }
        }
      } else {
        d := TopicAbsent;
      }
    }

    /** The walk over the candidates alongside the aligned batch: each
        record that passes the three tests is overwritten in place, and the
        number of such records is returned. */
    method ApplyBatch(cands: seq<nat>, results: Results, h: nat) returns (updated: nat)
      requires InBounds(cands, |pairs|)
      modifies this`pairs
      ensures Outcome(pairs, updated) == Reconciled(old(pairs), cands, results, h)
    {
      ghost var before := pairs;
      updated := 0;
      var i := 0;
      while i < |cands|
        invariant 0 <= i <= |cands|
        invariant Outcome(pairs, updated) == ReconcileUpTo(before, cands, results, h, i)
      {
        var j := cands[i];
        var p := pairs[j];
        var r := ResultAt(results, i);
        if Usable(r) {
          if !(p.reserve0 == r.value.reserve0 && p.reserve1 == r.value.reserve1) {
            if !(p.updatedAtBlock > h) {
              pairs := pairs[j := Pair(p.address, r.value.reserve0, r.value.reserve1, h)];
              updated := updated + 1;
            }
          }
        }
        i := i + 1;
      }
    }

    /** A completed fetch: applies the batch, then classifies the call as
        needed (some record updated) or unnecessary (none). */
    method Reconcile(job: Job, results: Results) returns (updated: nat)
      requires Valid() && job in pending
      modifies this
      ensures Valid()
      ensures JobFits(job, |old(pairs)|)
      ensures Outcome(pairs, updated) == Reconciled(old(pairs), job.candidates, results, job.blockNumber)
      ensures updated <= |job.candidates|
      ensures updated > 0 <==> pairs != old(pairs)
      ensures forall k :: 0 <= k < |pairs| ==> pairs[k].updatedAtBlock >= old(pairs)[k].updatedAtBlock
      ensures neededRpcsCalls == old(neededRpcsCalls) + (if updated > 0 then 1 else 0)
      ensures unnecessaryRpcCalls == old(unnecessaryRpcCalls) + (if updated == 0 then 1 else 0)
      ensures blocksProcessed == old(blocksProcessed) && tracked == old(tracked)
      ensures pending == old(pending) - multiset{job} && fetchesIssued == old(fetchesIssued)
    {
      AllFitRemove(pending, |pairs|, job);
      updated := ApplyBatch(job.candidates, results, job.blockNumber);
      UpdatedIffChanged(old(pairs), job.candidates, results, job.blockNumber, |job.candidates|);
      if updated == 0 {
        unnecessaryRpcCalls := unnecessaryRpcCalls + 1;
      } else {
        neededRpcsCalls := neededRpcsCalls + 1;
      }
      pending := pending - multiset{job};
    }

    /** A fetch whose whole batch failed: the job is dropped, and the store
        and every counter stay as they were. */
    method FetchFailed(job: Job)
      requires Valid() && job in pending
      modifies this
      ensures Valid()
      ensures pending == old(pending) - multiset{job}
      ensures pairs == old(pairs) && tracked == old(tracked) && fetchesIssued == old(fetchesIssued)
      ensures blocksProcessed == old(blocksProcessed)
      ensures neededRpcsCalls == old(neededRpcsCalls) && unnecessaryRpcCalls == old(unnecessaryRpcCalls)
    {
      AllFitRemove(pending, |pairs|, job);
      pending := pending - multiset{job};
    }
  }

  /** A block delivered twice (a replayed missed block) issues the same job
      twice; when the two completions carry the same batch, the second
      finds nothing to update and counts only as an unnecessary call. */
  method ReconcileReplayed(t: BloomTracker, job: Job, results: Results) returns (first: nat, second: nat)
    requires t.Valid() && t.pending[job] >= 2
    modifies t
    ensures t.Valid()
    ensures first == Reconciled(old(t.pairs), job.candidates, results, job.blockNumber).updated
    ensures first > 0 <==> t.pairs != old(t.pairs)
    ensures second == 0
    ensures t.pairs == Reconciled(old(t.pairs), job.candidates, results, job.blockNumber).pairs
    ensures t.neededRpcsCalls == old(t.neededRpcsCalls) + (if first > 0 then 1 else 0)
    ensures t.unnecessaryRpcCalls == old(t.unnecessaryRpcCalls) + (if first > 0 then 1 else 2)
    ensures t.blocksProcessed == old(t.blocksProcessed) && t.tracked == old(t.tracked)
    ensures t.fetchesIssued == old(t.fetchesIssued)
    ensures t.pending == old(t.pending) - multiset{job, job}
  {
    first := t.Reconcile(job, results);
    ReconcileIdempotent(old(t.pairs), job.candidates, results, job.blockNumber);
    second := t.Reconcile(job, results);
  }
}
