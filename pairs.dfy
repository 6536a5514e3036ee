/** The pair store: tracked liquidity pools, their cached reserves, and the
    startup seeding that fills them from one unconditional batched fetch. */
module Pairs {

  datatype Option<T> = None | Some(value: T)

  /** A chain account identifier, as the configuration lists it. */
  type Address = string

  /** One successful `getReserves` entry of a batched fetch. */
  datatype Fetched = Fetched(reserve0: nat, reserve1: nat)

  /** A batched fetch, aligned with the list of addresses it was asked for;
      `None` is an entry whose individual call failed. */
  type Results = seq<Option<Fetched>>

  /** The cached record of one tracked pair. */
  datatype Pair = Pair(address: Address, reserve0: nat, reserve1: nat, updatedAtBlock: nat)

  predicate NoDuplicates<T(==)>(s: seq<T>)
  {
    forall i, j :: 0 <= i < j < |s| ==> s[i] != s[j]
  }

  /** Every index in `c` refers to a record of a store of size `n`. */
  predicate InBounds(c: seq<nat>, n: nat)
  {
    forall k :: 0 <= k < |c| ==> c[k] < n
  }

  function Addresses(ps: seq<Pair>): (a: seq<Address>)
    ensures |a| == |ps|
    ensures forall i :: 0 <= i < |ps| ==> a[i] == ps[i].address
  {
    seq(|ps|, i requires 0 <= i < |ps| => ps[i].address)
  }

  /** The entry at position `i` of a batch; an index past the end reads as
      absent, like the optional chaining on the batch result. */
  function ResultAt(results: Results, i: nat): (r: Option<Fetched>)
    ensures i >= |results| ==> r == None
  {
    if i < |results| then results[i] else None
  }

  /** JavaScript truthiness of both fetched values: an absent entry and a
      zero reserve are both treated as "no value". */
  predicate Usable(r: Option<Fetched>)
  {
    r.Some? && r.value.reserve0 != 0 && r.value.reserve1 != 0
  }

  /** The key order of a map built from `addrs`: each address once, at the
      position of its first occurrence. */
  function Dedup(addrs: seq<Address>): (d: seq<Address>)
    ensures NoDuplicates(d)
    ensures forall a :: a in d <==> a in addrs
    ensures NoDuplicates(addrs) ==> d == addrs
    decreases |addrs|
  {
    if addrs == [] then []
    else
      var front := addrs[..|addrs| - 1];
      var last := addrs[|addrs| - 1];
      var d := Dedup(front);
      assert addrs == front + [last];
      if last in d then d else d + [last]
  }

  /** The store as constructed: every configured address, once, with zero
      reserves and update height zero. */
  function InitialStore(addrs: seq<Address>): (ps: seq<Pair>)
    ensures NoDuplicates(Addresses(ps))
    ensures forall a :: a in Addresses(ps) <==> a in addrs
    ensures NoDuplicates(addrs) ==> Addresses(ps) == addrs
    ensures forall i :: 0 <= i < |ps| ==>
              ps[i].reserve0 == 0 && ps[i].reserve1 == 0 && ps[i].updatedAtBlock == 0
  {
    var d := Dedup(addrs);
    var ps := seq(|d|, i requires 0 <= i < |d| => Pair(d[i], 0, 0, 0));
    assert Addresses(ps) == d;
    ps
  }

  /** One pair's seeding step: both reserves truthy, or nothing changes. */
  function SeedPair(p: Pair, r: Option<Fetched>, head: nat): Pair
  {
    if Usable(r) then Pair(p.address, r.value.reserve0, r.value.reserve1, head) else p
  }

  /** The store after seeding with a batch aligned with the store order. */
  function Seeded(ps: seq<Pair>, results: Results, head: nat): seq<Pair>
  {
    seq(|ps|, i requires 0 <= i < |ps| => SeedPair(ps[i], ResultAt(results, i), head))
  }

  /** After construction and seeding, a pair holds the fetched reserves and
      the head height exactly when both fetched values are present and
      nonzero, and keeps (0, 0, 0) otherwise. */
  lemma SeedFromInitial(addrs: seq<Address>, results: Results, head: nat, i: nat)
    requires i < |InitialStore(addrs)|
    ensures var ps := InitialStore(addrs);
            var s := Seeded(ps, results, head);
            var r := ResultAt(results, i);
            && |s| == |ps|
            && s[i].address == ps[i].address
            && (Usable(r) ==> s[i] == Pair(ps[i].address, r.value.reserve0, r.value.reserve1, head))
            && (!Usable(r) ==> s[i].reserve0 == 0 && s[i].reserve1 == 0 && s[i].updatedAtBlock == 0)
  {
  }

  /** Seeding never changes which address sits at which position. */
  lemma SeedingKeepsAddresses(ps: seq<Pair>, results: Results, head: nat)
    ensures Addresses(Seeded(ps, results, head)) == Addresses(ps)
  {
  }
}
