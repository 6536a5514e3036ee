/** Per-block gating and candidate selection: the topic test, the malformed
    block check, and the filter of tracked pairs by the address test. The
    bloom probes are supplied capabilities, passed in as functions. */
module Selection {
  import opened Pairs

  /** A block's logs bloom, as the block header carries it. */
  type Bloom = string

  /** A delivered block header; every field may be null. */
  datatype Block = Block(number: Option<nat>, hash: Option<string>, logsBloom: Option<Bloom>)

  /** A fetch to issue: the block it is for and the store positions of its
      candidates, in store order. */
  datatype Job = Job(blockNumber: nat, hash: string, candidates: seq<nat>)

  /** What a delivered block leads to. */
  datatype Dispatch = TopicAbsent | Malformed | NotInBloom | Fetch(job: Job)

  predicate Increasing(c: seq<nat>)
  {
    forall a, b :: 0 <= a < b < |c| ==> c[a] < c[b]
  }

  /** A job that refers to real records of a store of size `n`, each once. */
  predicate JobFits(job: Job, n: nat)
  {
    InBounds(job.candidates, n) && Increasing(job.candidates)
  }

  /** The coarse test: a bloom is present and the tracked topic tests
      positive in it. */
  predicate TopicGate(b: Block, topicIn: Bloom -> bool)
  {
    b.logsBloom.Some? && topicIn(b.logsBloom.value)
  }

  /** Truthy block number and truthy hash: a number of zero and an empty
      hash are rejected like missing ones. */
  predicate WellFormed(b: Block)
  {
    b.number.Some? && b.number.value != 0 && b.hash.Some? && b.hash.value != ""
  }

  /** The store positions whose address tests positive in the bloom. */
  function Candidates(ps: seq<Pair>, bloom: Bloom, addrIn: (Bloom, Address) -> bool): (c: seq<nat>)
    ensures Increasing(c) && InBounds(c, |ps|)
    ensures forall k :: 0 <= k < |c| ==> addrIn(bloom, ps[c[k]].address)
    ensures forall j :: 0 <= j < |ps| && addrIn(bloom, ps[j].address) ==> j in c
    decreases |ps|
  {
    if ps == [] then []
    else
      var n := |ps| - 1;
      var front := Candidates(ps[..n], bloom, addrIn);
      if addrIn(bloom, ps[n].address) then front + [n] else front
  }

  /** The records at the given positions. */
  function Pick(ps: seq<Pair>, c: seq<nat>): (r: seq<Pair>)
    requires InBounds(c, |ps|)
  {
    seq(|c|, k requires 0 <= k < |c| => ps[c[k]])
  }

  /** Reference definition of the selection: filter the store's records,
      front to back, by the address test. */
  function FilterPairs(ps: seq<Pair>, bloom: Bloom, addrIn: (Bloom, Address) -> bool): seq<Pair>
    decreases |ps|
  {
    if ps == [] then []
    else (if addrIn(bloom, ps[0].address) then [ps[0]] else []) + FilterPairs(ps[1..], bloom, addrIn)
  }

  lemma {:induction false} FilterAppend(a: seq<Pair>, b: seq<Pair>, bloom: Bloom, addrIn: (Bloom, Address) -> bool)
    ensures FilterPairs(a + b, bloom, addrIn) == FilterPairs(a, bloom, addrIn) + FilterPairs(b, bloom, addrIn)
    decreases |a|
  {
    if a != [] {
      assert (a + b)[1..] == a[1..] + b;
      FilterAppend(a[1..], b, bloom, addrIn);
    } else {
      assert a + b == b;
    }
  }

  lemma PickPrefix(ps: seq<Pair>, c: seq<nat>, n: nat)
    requires n <= |ps| && InBounds(c, n)
    ensures Pick(ps, c) == Pick(ps[..n], c)
  {
  }

  lemma PickSnoc(ps: seq<Pair>, c: seq<nat>, x: nat)
    requires InBounds(c, |ps|) && x < |ps|
    ensures InBounds(c + [x], |ps|) && Pick(ps, c + [x]) == Pick(ps, c) + [ps[x]]
  {
  }

  lemma FilterSnoc(ps: seq<Pair>, bloom: Bloom, addrIn: (Bloom, Address) -> bool)
    requires ps != []
    ensures var n := |ps| - 1;
            FilterPairs(ps, bloom, addrIn)
            == FilterPairs(ps[..n], bloom, addrIn) + (if addrIn(bloom, ps[n].address) then [ps[n]] else [])
  {
    var n := |ps| - 1;
    assert ps == ps[..n] + [ps[n]];
    FilterAppend(ps[..n], [ps[n]], bloom, addrIn);
    assert [ps[n]][1..] == [];
  }

  /** The candidate list holds exactly the records the filter keeps, in
      store order. */
  lemma {:induction false} CandidatesAreFilter(ps: seq<Pair>, bloom: Bloom, addrIn: (Bloom, Address) -> bool)
    ensures Pick(ps, Candidates(ps, bloom, addrIn)) == FilterPairs(ps, bloom, addrIn)
    decreases |ps|
  {
    if ps != [] {
      var n := |ps| - 1;
      var front := Candidates(ps[..n], bloom, addrIn);
      CandidatesAreFilter(ps[..n], bloom, addrIn);
      PickPrefix(ps, front, n);
      FilterSnoc(ps, bloom, addrIn);
      if addrIn(bloom, ps[n].address) {
        PickSnoc(ps, front, n);
      }
    }
  }

  /** The decision taken for a delivered block before any fetch. */
  function Plan(b: Block, ps: seq<Pair>, topicIn: Bloom -> bool, addrIn: (Bloom, Address) -> bool): (d: Dispatch)
    ensures d == TopicAbsent <==> !TopicGate(b, topicIn)
    ensures d == Malformed <==> TopicGate(b, topicIn) && !WellFormed(b)
    ensures d == NotInBloom <==>
              TopicGate(b, topicIn) && WellFormed(b) && Candidates(ps, b.logsBloom.value, addrIn) == []
    ensures d.Fetch? ==>
              && WellFormed(b)
              && d.job.blockNumber == b.number.value && d.job.blockNumber > 0
              && d.job.hash == b.hash.value
              && d.job.candidates == Candidates(ps, b.logsBloom.value, addrIn)
              && d.job.candidates != []
              && JobFits(d.job, |ps|)
  {
    if !TopicGate(b, topicIn) then TopicAbsent
    else if !WellFormed(b) then Malformed
    else
      var c := Candidates(ps, b.logsBloom.value, addrIn);
      if c == [] then NotInBloom else Fetch(Job(b.number.value, b.hash.value, c))
  }

  /** No false negatives: when the address probe reports every address in
      the block's logs (a bloom never misses a member), every tracked pair
      that logged in a well-formed block whose topic test passes is sent to
      the fetch. */
  lemma NoFalseNegatives(b: Block, ps: seq<Pair>, topicIn: Bloom -> bool, addrIn: (Bloom, Address) -> bool,
                         logs: set<Address>, j: nat)
    requires b.logsBloom.Some? && topicIn(b.logsBloom.value) && WellFormed(b)
    requires forall a :: a in logs ==> addrIn(b.logsBloom.value, a)
    requires j < |ps| && ps[j].address in logs
    ensures Plan(b, ps, topicIn, addrIn).Fetch?
    ensures j in Plan(b, ps, topicIn, addrIn).job.candidates
  {
  }
}
