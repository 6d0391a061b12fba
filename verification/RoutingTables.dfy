/** Kademlia-style routing tables: 64 XOR buckets, the eight lowest identifiers kept in each. */
module RoutingTables {
  import opened Prelude
  import opened XorMetric

  const K_BUCKET_SIZE: nat := 8

  datatype Node = Node(id: nat, group: nat, malicious: bool, failed: bool, routing: seq<nat>)

  // ----- Sequences without repetition -----

  predicate NoDup(xs: seq<nat>) {
    forall i, j | 0 <= i < j < |xs| :: xs[i] != xs[j]
  }

  predicate SortedBy(xs: seq<nat>, key: nat -> nat) {
    forall i, j | 0 <= i < j < |xs| :: key(xs[i]) <= key(xs[j])
  }

  function ToSet(xs: seq<nat>): set<nat> {
    set x | x in xs
  }

  lemma {:induction false} NoDupSize(xs: seq<nat>)
    requires NoDup(xs)
    ensures |ToSet(xs)| == |xs|
  {
    if xs != [] {
      var n := |xs| - 1;
      NoDupSize(xs[..n]);
      assert xs[n] !in xs[..n];
      assert ToSet(xs) == ToSet(xs[..n]) + {xs[n]};
    }
  }

  /** Inserts `x` after everything with no larger key. */
  method Insert(sorted: seq<nat>, x: nat, key: nat -> nat) returns (inserted: seq<nat>)
    requires SortedBy(sorted, key) && NoDup(sorted) && x !in sorted
    ensures SortedBy(inserted, key) && NoDup(inserted) && ToSet(inserted) == ToSet(sorted) + {x}
            && |inserted| == |sorted| + 1
  {
    var k := 0;
    while k < |sorted| && key(sorted[k]) <= key(x)
      invariant 0 <= k <= |sorted|
      invariant forall i | 0 <= i < k :: key(sorted[i]) <= key(x)
    {
      k := k + 1;
    }
    inserted := sorted[..k] + [x] + sorted[k..];
  }

  /** `sort_unstable_by_key`. */
  method SortByKey(xs: seq<nat>, key: nat -> nat) returns (sorted: seq<nat>)
    requires NoDup(xs)
    ensures SortedBy(sorted, key) && NoDup(sorted) && ToSet(sorted) == ToSet(xs) && |sorted| == |xs|
  {
    sorted := [];
    for n := 0 to |xs|
      invariant SortedBy(sorted, key) && NoDup(sorted) && ToSet(sorted) == ToSet(xs[..n]) && |sorted| == n
    {
      assert xs[n] !in ToSet(xs[..n]);
      assert ToSet(xs[..n + 1]) == ToSet(xs[..n]) + {xs[n]};
      sorted := Insert(sorted, xs[n], key);
    }
    assert xs[..|xs|] == xs;
  }

  // ----- Buckets and tables -----

  /** `63 - leading_zeros(distance)`, saturating at zero for equal identifiers. */
  function Bucket(ids: seq<nat>, current: nat, x: nat): nat
    requires current < |ids| && x < |ids|
  {
    var bits := Bits(Xor(ids[current], ids[x]));
    if bits == 0 then 0 else bits - 1
  }

  ghost predicate Words(ids: seq<nat>) {
    forall i | 0 <= i < |ids| :: ids[i] < Pow2(64)
  }

  ghost predicate Distinct(ids: seq<nat>) {
    forall i, j | 0 <= i < j < |ids| :: ids[i] != ids[j]
  }

  lemma {:induction false} BucketRange(ids: seq<nat>, current: nat, x: nat)
    requires Words(ids) && current < |ids| && x < |ids|
    ensures Bucket(ids, current, x) < 64
  {
    XorWord(ids[current], ids[x], 64);
    BitsFit(Xor(ids[current], ids[x]), 64);
  }

  ghost predicate InBucket(ids: seq<nat>, current: nat, b: nat, x: nat)
    requires current < |ids|
  {
    x < |ids| && x != current && Bucket(ids, current, x) == b
  }

  /** Members of `x`'s bucket with a smaller identifier. */
  ghost function Smaller(ids: seq<nat>, current: nat, x: nat): set<nat>
    requires current < |ids| && x < |ids|
  {
    set z: nat | z < |ids| && InBucket(ids, current, Bucket(ids, current, x), z) && ids[z] < ids[x]
  }

  /** Some member of `x`'s bucket is listed. */
  ghost predicate Represented(ids: seq<nat>, current: nat, routing: seq<nat>, x: nat)
    requires current < |ids| && x < |ids|
  {
    exists y :: y in routing && InBucket(ids, current, Bucket(ids, current, x), y)
  }

  /** The table of `current`: other nodes only, and every non-empty bucket represented. */
  ghost predicate IsTable(ids: seq<nat>, current: nat, routing: seq<nat>)
    requires current < |ids|
  {
    && (forall x | x in routing :: x < |ids| && x != current)
    && (forall x: nat | x < |ids| && x != current :: Represented(ids, current, routing, x))
  }

  /** With distinct identifiers the table is exact: the eight lowest identifiers of each bucket. */
  ghost predicate IsExactTable(ids: seq<nat>, current: nat, routing: seq<nat>)
    requires current < |ids|
  {
    forall x: nat | x < |ids| && x != current :: x in routing <==> |Smaller(ids, current, x)| < K_BUCKET_SIZE
  }

  ghost function Ids(nodes: seq<Node>): seq<nat> {
    seq(|nodes|, i requires 0 <= i < |nodes| => nodes[i].id)
  }

  ghost predicate BucketsUpTo(ids: seq<nat>, current: nat, buckets: seq<seq<nat>>, n: nat)
    requires current < |ids| && n <= |ids|
  {
    && |buckets| == 64
    && forall b | 0 <= b < 64 ::
         NoDup(buckets[b]) && forall x: nat :: x in buckets[b] <==> x < n && InBucket(ids, current, b, x)
  }

  /** Distributes the other nodes over the 64 buckets. */
  method FillBuckets(nodes: array<Node>, current: nat, ghost ids: seq<nat>) returns (buckets: seq<seq<nat>>)
    requires current < nodes.Length && ids == Ids(nodes[..]) && Words(ids)
    ensures BucketsUpTo(ids, current, buckets, |ids|)
  {
    buckets := seq(64, _ => []);
    for candidate := 0 to nodes.Length
      invariant BucketsUpTo(ids, current, buckets, candidate)
    {
      if current != candidate {
        BucketRange(ids, current, candidate);
        var distance := Xor(nodes[current].id, nodes[candidate].id);
        var bits := Bits(distance);
        var b := if bits == 0 then 0 else bits - 1;
        assert b == Bucket(ids, current, candidate);
        assert candidate !in buckets[b];
        buckets := buckets[b := buckets[b] + [candidate]];
      }
    }
  }

  /** Bucket `b` of `current`, in identifier order. */
  ghost predicate SortedBucket(ids: seq<nat>, current: nat, b: nat, sorted: seq<nat>)
    requires current < |ids|
  {
    && NoDup(sorted)
    && (forall i | 0 <= i < |sorted| :: sorted[i] < |ids|)
    && (forall z: nat :: z in sorted <==> InBucket(ids, current, b, z))
    && (forall i, j | 0 <= i < j < |sorted| :: ids[sorted[i]] <= ids[sorted[j]])
  }

  function Top(sorted: seq<nat>): seq<nat> {
    sorted[..Min(|sorted|, K_BUCKET_SIZE)]
  }

  /** In a sorted bucket, the members before position `k` are those smaller than the one at `k`. */
  lemma {:induction false} BeforeAreSmaller(ids: seq<nat>, current: nat, b: nat, sorted: seq<nat>, k: nat)
    requires current < |ids| && Distinct(ids) && SortedBucket(ids, current, b, sorted) && k < |sorted|
    ensures Smaller(ids, current, sorted[k]) == ToSet(sorted[..k])
  {
    var x := sorted[k];
    assert x in sorted;
    forall z | z in Smaller(ids, current, x) ensures z in ToSet(sorted[..k]) {
      var i :| 0 <= i < |sorted| && sorted[i] == z;
      assert i < k;
      assert sorted[..k][i] == z;
    }
    forall z | z in ToSet(sorted[..k]) ensures z in Smaller(ids, current, x) {
      var i :| 0 <= i < k && sorted[..k][i] == z;
      assert sorted[i] == z && z in sorted && z != x;
      assert ids[z] != ids[x];
    }
  }

  /** The first `K` of a sorted bucket are those with fewer than `K` smaller ones in it. */
  lemma {:induction false} FirstAreSmallest(ids: seq<nat>, current: nat, b: nat, sorted: seq<nat>, k: nat)
    requires current < |ids| && Distinct(ids) && SortedBucket(ids, current, b, sorted) && k < |sorted|
    ensures sorted[k] in Top(sorted) <==> |Smaller(ids, current, sorted[k])| < K_BUCKET_SIZE
  {
    BeforeAreSmaller(ids, current, b, sorted, k);
    assert NoDup(sorted[..k]);
    NoDupSize(sorted[..k]);
    if k < |Top(sorted)| {
      assert Top(sorted)[k] == sorted[k];
    }
  }

  /** `x`'s bucket is represented and, with distinct identifiers, `x` is listed exactly if it should be. */
  ghost predicate Entry(ids: seq<nat>, current: nat, routing: seq<nat>, x: nat)
    requires current < |ids| && x < |ids|
  {
    && Represented(ids, current, routing, x)
    && (Distinct(ids) ==> (x in routing <==> |Smaller(ids, current, x)| < K_BUCKET_SIZE))
  }

  /** What the buckets before `b` have contributed. */
  ghost predicate TableUpTo(ids: seq<nat>, current: nat, routing: seq<nat>, b: nat)
    requires current < |ids|
  {
    && (forall x | x in routing :: x < |ids| && x != current && Bucket(ids, current, x) < b)
    && (forall x: nat | x < |ids| && x != current && Bucket(ids, current, x) < b :: Entry(ids, current, routing, x))
  }

  lemma {:induction false} AddBucket(ids: seq<nat>, current: nat, routing: seq<nat>, b: nat, sorted: seq<nat>)
    requires current < |ids| && TableUpTo(ids, current, routing, b) && SortedBucket(ids, current, b, sorted)
    ensures TableUpTo(ids, current, routing + Top(sorted), b + 1)
  {
    forall x | x in Top(sorted) ensures InBucket(ids, current, b, x) {
      assert x in sorted;
    }
    hide Entry, SortedBucket, Top;
    forall x: nat | x < |ids| && x != current && Bucket(ids, current, x) < b + 1
      ensures Entry(ids, current, routing + Top(sorted), x)
    {
      if Bucket(ids, current, x) == b {
        BucketEntry(ids, current, b, sorted, x);
        EntryExtends(ids, current, routing, Top(sorted), x);
      } else {
        EntryExtends(ids, current, routing, Top(sorted), x);
      }
    }
  }

  lemma {:induction false} EntryExtends(ids: seq<nat>, current: nat, a: seq<nat>, b: seq<nat>, x: nat)
    requires current < |ids| && x < |ids|
    requires (Entry(ids, current, a, x) && x !in b) || (Entry(ids, current, b, x) && x !in a)
    ensures Entry(ids, current, a + b, x)
  {
    hide Smaller, Bucket;
    if Entry(ids, current, a, x) && x !in b {
      var y :| y in a && InBucket(ids, current, Bucket(ids, current, x), y);
      assert y in a + b;
    } else {
      var y :| y in b && InBucket(ids, current, Bucket(ids, current, x), y);
      assert y in a + b;
    }
  }

  lemma {:induction false} BucketEntry(ids: seq<nat>, current: nat, b: nat, sorted: seq<nat>, x: nat)
    requires current < |ids| && SortedBucket(ids, current, b, sorted) && InBucket(ids, current, b, x)
    ensures Entry(ids, current, Top(sorted), x)
  {
    var k :| 0 <= k < |sorted| && sorted[k] == x;
    assert Top(sorted)[0] == sorted[0] && sorted[0] in sorted;
    if Distinct(ids) {
      FirstAreSmallest(ids, current, b, sorted, k);
    }
  }

  lemma {:induction false} TableDone(ids: seq<nat>, current: nat, routing: seq<nat>)
    requires current < |ids| && Words(ids) && TableUpTo(ids, current, routing, 64)
    ensures IsTable(ids, current, routing)
    ensures Distinct(ids) ==> IsExactTable(ids, current, routing)
  {
    forall x: nat | x < |ids| && x != current
      ensures Represented(ids, current, routing, x)
      ensures Distinct(ids) ==> (x in routing <==> |Smaller(ids, current, x)| < K_BUCKET_SIZE)
    {
      BucketRange(ids, current, x);
      assert Entry(ids, current, routing, x);
    }
  }

  method SortBucket(nodes: seq<Node>, current: nat, ghost b: nat, bucket: seq<nat>, ghost ids: seq<nat>)
    returns (sorted: seq<nat>)
    requires ids == Ids(nodes) && current < |nodes| && NoDup(bucket)
    requires forall x: nat :: x in bucket <==> InBucket(ids, current, b, x)
    ensures SortedBucket(ids, current, b, sorted)
  {
    var key := (x: nat) => if x < |nodes| then nodes[x].id else 0;
    sorted := SortByKey(bucket, key);
    forall z: nat ensures z in sorted <==> InBucket(ids, current, b, z) {
      assert z in sorted <==> z in ToSet(sorted);
      assert z in bucket <==> z in ToSet(bucket);
    }
    forall i | 0 <= i < |sorted| ensures sorted[i] < |ids| && key(sorted[i]) == ids[sorted[i]] {
      assert sorted[i] in sorted;
    }
  }

  /** The table of one node. */
  method BuildTable(nodes: array<Node>, current: nat, ghost ids: seq<nat>) returns (routing: seq<nat>)
    requires current < nodes.Length && ids == Ids(nodes[..]) && Words(ids)
    ensures IsTable(ids, current, routing)
    ensures Distinct(ids) ==> IsExactTable(ids, current, routing)
  {
    var buckets := FillBuckets(nodes, current, ids);
    routing := [];
    hide Entry, SortedBucket, IsTable, IsExactTable, Distinct, Bits, Xor;
    for b := 0 to 64
      invariant TableUpTo(ids, current, routing, b)
    {
      var sorted := SortBucket(nodes[..], current, b, buckets[b], ids);
      AddBucket(ids, current, routing, b, sorted);
      routing := routing + Top(sorted);
    }
    TableDone(ids, current, routing);
  }

  /** Rebuilds every node's table in place; nothing else about a node changes. */
  method BuildRoutingTables(nodes: array<Node>)
    requires Words(Ids(nodes[..]))
    modifies nodes
    ensures forall i | 0 <= i < nodes.Length :: nodes[i] == old(nodes[i]).(routing := nodes[i].routing)
    ensures forall i | 0 <= i < nodes.Length :: IsTable(Ids(nodes[..]), i, nodes[i].routing)
    ensures Distinct(Ids(nodes[..])) ==>
              forall i | 0 <= i < nodes.Length :: IsExactTable(Ids(nodes[..]), i, nodes[i].routing)
  {
    ghost var ids := Ids(nodes[..]);
    for current := 0 to nodes.Length
      invariant Ids(nodes[..]) == ids
      invariant forall i | 0 <= i < nodes.Length :: nodes[i] == old(nodes[i]).(routing := nodes[i].routing)
      invariant forall i | 0 <= i < current :: IsTable(ids, i, nodes[i].routing)
      invariant Distinct(ids) ==> forall i | 0 <= i < current :: IsExactTable(ids, i, nodes[i].routing)
    {
      var routing := BuildTable(nodes, current, ids);
      nodes[current] := nodes[current].(routing := routing);
      assert Ids(nodes[..]) == ids;
    }
  }
}
