/**
 * Iterative lookup over XOR routing tables: three queries a round, at most 64 rounds,
 * stopping at a live replica or when the eight closest known nodes have all been asked.
 */
module Lookup {
  import opened Prelude
  import opened XorMetric
  import opened RoutingTables

  const ALPHA: nat := 3
  const MAX_LOOKUP_ROUNDS: nat := 64

  datatype Trace = Trace(success: bool, rounds: nat, observers: set<nat>, queried: set<nat>)

  function Dist(nodes: seq<Node>, target: nat, x: nat): nat {
    if x < |nodes| then Xor(nodes[x].id, target) else 0
  }

  function Group(nodes: seq<Node>, x: nat): nat {
    if x < |nodes| then nodes[x].group else 0
  }

  predicate Indices(nodes: seq<Node>, pool: set<nat>) {
    forall x | x in pool :: x < |nodes|
  }

  /** Routing tables name existing nodes. */
  ghost predicate Network(nodes: seq<Node>) {
    forall i | 0 <= i < |nodes| :: forall x | x in nodes[i].routing :: x < |nodes|
  }

  method ToSeq(pool: set<nat>) returns (xs: seq<nat>)
    ensures NoDup(xs) && ToSet(xs) == pool
  {
    xs := [];
    var rest := pool;
    while rest != {}
      invariant NoDup(xs) && rest !! ToSet(xs) && rest + ToSet(xs) == pool
      decreases rest
    {
      var x :| x in rest;
      assert x !in xs by {
        assert x !in ToSet(xs);
      }
      xs := xs + [x];
      rest := rest - {x};
    }
  }

  // ----- Choosing the nearest, optionally one per network group -----

  /** A nearer chosen node already stands for `y`'s group. */
  ghost predicate GroupTaken(nodes: seq<Node>, target: nat, groups: set<nat>, chosen: seq<nat>, y: nat) {
    || Group(nodes, y) in groups
    || exists x :: x in chosen && Group(nodes, x) == Group(nodes, y) && Dist(nodes, target, x) <= Dist(nodes, target, y)
  }

  /** The quota is full of nodes no farther than `y`. */
  ghost predicate QuotaFull(nodes: seq<Node>, target: nat, count: nat, chosen: seq<nat>, y: nat) {
    |chosen| >= count && forall x | x in chosen :: Dist(nodes, target, x) <= Dist(nodes, target, y)
  }

  /** No two of `xs` share a group, and none is in one of `groups`. */
  ghost predicate DistinctGroups(nodes: seq<Node>, xs: seq<nat>, groups: set<nat>) {
    && (forall i | 0 <= i < |xs| :: Group(nodes, xs[i]) !in groups)
    && (forall i, j | 0 <= i < j < |xs| :: Group(nodes, xs[i]) != Group(nodes, xs[j]))
  }

  /** The `count` nearest of `pool`; when diverse, the nearest of each group not in `groups` yet. */
  ghost predicate IsChoice(
    nodes: seq<Node>, target: nat, pool: set<nat>, diverse: bool, count: nat, groups: set<nat>, chosen: seq<nat>)
  {
    && NoDup(chosen) && (forall x | x in chosen :: x in pool) && |chosen| <= count
    && (diverse ==> DistinctGroups(nodes, chosen, groups))
    && forall y | y in pool && y !in chosen ::
         QuotaFull(nodes, target, count, chosen, y) || (diverse && GroupTaken(nodes, target, groups, chosen, y))
  }

  function GroupsOf(nodes: seq<Node>, xs: seq<nat>): set<nat> {
    set x | x in xs :: Group(nodes, x)
  }

  /** The shared pipeline: sort by distance, skip taken groups when diverse, take `count`. */
  method Nearest(nodes: seq<Node>, target: nat, pool: set<nat>, diverse: bool, count: nat, groups: set<nat>)
    returns (chosen: seq<nat>)
    ensures IsChoice(nodes, target, pool, diverse, count, groups, chosen)
  {
    var unsorted := ToSeq(pool);
    var key := (x: nat) => Dist(nodes, target, x);
    var sorted := SortByKey(unsorted, key);
    chosen := [];
    var n := 0;
    while n < |sorted| && |chosen| < count
      invariant 0 <= n <= |sorted| && |chosen| <= count
      invariant NoDup(chosen) && forall x | x in chosen :: x in sorted[..n]
      invariant diverse ==> DistinctGroups(nodes, chosen, groups)
      invariant forall i | 0 <= i < n ::
                  sorted[i] in chosen || (diverse && GroupTaken(nodes, target, groups, chosen, sorted[i]))
    {
      var x := sorted[n];
      assert x !in sorted[..n];
      ghost var before := chosen;
      assert sorted[..n + 1] == sorted[..n] + [x];
      if !diverse || Group(nodes, x) !in groups + GroupsOf(nodes, chosen) {
        chosen := chosen + [x];
        forall i | 0 <= i < n && sorted[i] !in chosen
          ensures diverse && GroupTaken(nodes, target, groups, chosen, sorted[i])
        {
          TakenExtends(nodes, target, groups, before, chosen, sorted[i]);
        }
      } else {
        OwnGroupTaken(nodes, target, groups, chosen, x, sorted, n);
      }
      n := n + 1;
    }
    forall y | y in pool && y !in chosen
      ensures QuotaFull(nodes, target, count, chosen, y) || (diverse && GroupTaken(nodes, target, groups, chosen, y))
    {
      assert y in ToSet(sorted);
      var i :| 0 <= i < |sorted| && sorted[i] == y;
      if i >= n {
        forall x | x in chosen ensures Dist(nodes, target, x) <= Dist(nodes, target, y) {
          var k :| 0 <= k < n && sorted[..n][k] == x;
          assert key(sorted[k]) <= key(sorted[i]);
        }
      }
    }
    forall x | x in chosen ensures x in pool {
      assert x in ToSet(sorted);
    }
  }

  lemma {:induction false} TakenExtends(
    nodes: seq<Node>, target: nat, groups: set<nat>, chosen: seq<nat>, more: seq<nat>, y: nat)
    requires GroupTaken(nodes, target, groups, chosen, y) && chosen <= more
    ensures GroupTaken(nodes, target, groups, more, y)
  {
  }

  lemma {:induction false} OwnGroupTaken(
    nodes: seq<Node>, target: nat, groups: set<nat>, chosen: seq<nat>, x: nat, sorted: seq<nat>, n: nat)
    requires n < |sorted| && sorted[n] == x && SortedBy(sorted, (z: nat) => Dist(nodes, target, z))
    requires forall z | z in chosen :: z in sorted[..n]
    requires Group(nodes, x) in groups + GroupsOf(nodes, chosen)
    ensures GroupTaken(nodes, target, groups, chosen, x)
  {
    if Group(nodes, x) !in groups {
      var z :| z in chosen && Group(nodes, z) == Group(nodes, x);
      var k :| 0 <= k < n && sorted[..n][k] == z;
      var key := (z: nat) => Dist(nodes, target, z);
      assert key(sorted[k]) <= key(sorted[n]);
    }
  }

  method SelectReplicas(
    nodes: seq<Node>, target: nat, diverse: bool, count: nat) returns (replicas: set<nat>, ghost chosen: seq<nat>)
    ensures replicas == ToSet(chosen) && |replicas| <= count
    ensures IsChoice(nodes, target, AllOf(nodes), diverse, count, {}, chosen)
    ensures !diverse && count > 0 ==> forall c: nat | IsClosest(nodes, target, c) :: c in replicas
  {
    var picked := Nearest(nodes, target, AllOf(nodes), diverse, count, {});
    replicas, chosen := ToSet(picked), picked;
    NoDupSize(picked);
    if !diverse && count > 0 {
      forall c: nat | IsClosest(nodes, target, c) ensures c in replicas {
        ClosestChosen(nodes, target, count, picked, c);
      }
    }
  }

  function AllOf(nodes: seq<Node>): set<nat> {
    Below(|nodes|)
  }

  function Below(n: nat): (all: set<nat>)
    ensures forall x: nat :: x in all <==> x < n
  {
    if n == 0 then {} else Below(n - 1) + {n - 1}
  }

  /** A non-empty quota always takes the closest node of all. */
  lemma {:induction false} ClosestChosen(nodes: seq<Node>, target: nat, count: nat, chosen: seq<nat>, c: nat)
    requires IsChoice(nodes, target, AllOf(nodes), false, count, {}, chosen) && count > 0
    requires IsClosest(nodes, target, c)
    ensures c in chosen
  {
    if |chosen| > 0 {
      assert chosen[0] in chosen;
    }
  }

  /**
   * `closest` are the eight nearest known nodes, or as many as
   * there are, and tell whether all eight have been asked.
   */
  ghost predicate Judged(
    nodes: seq<Node>, target: nat, known: set<nat>, queried: set<nat>, diverse: bool, converged: bool,
    closest: seq<nat>)
  {
    && IsChoice(nodes, target, known, diverse, K_BUCKET_SIZE, {}, closest)
    && (converged <==> |closest| == K_BUCKET_SIZE && forall x | x in closest :: x in queried)
  }

  /** The eight nearest known nodes (one per group when diverse) exist and have all been asked. */
  method LookupConverged(
    nodes: seq<Node>, target: nat, known: set<nat>, queried: set<nat>, diverse: bool) returns (converged: bool)
    ensures exists closest :: Judged(nodes, target, known, queried, diverse, converged, closest)
  {
    var closest := Nearest(nodes, target, known, diverse, K_BUCKET_SIZE, {});
    converged := |closest| == K_BUCKET_SIZE && forall x | x in closest :: x in queried;
    assert Judged(nodes, target, known, queried, diverse, converged, closest);
  }

  // ----- One round of queries -----

  predicate Answers(nodes: seq<Node>, x: nat) {
    x < |nodes| && !nodes[x].failed && !nodes[x].malicious
  }

  /** Asking `xs` reaches a live, honest replica. */
  ghost predicate Reaches(nodes: seq<Node>, xs: set<nat>, replicas: set<nat>) {
    exists x :: x in xs && x in replicas && Answers(nodes, x)
  }

  /** `after` is `before` plus the tables of everyone in `xs` who answers. */
  ghost predicate Learned(nodes: seq<Node>, xs: seq<nat>, before: set<nat>, after: set<nat>) {
    && before <= after
    && (forall x | x in xs && Answers(nodes, x) :: forall y | y in nodes[x].routing :: y in after)
    && (forall y | y in after && y !in before :: exists x :: x in xs && Answers(nodes, x) && y in nodes[x].routing)
  }

  method QueryAll(nodes: seq<Node>, selected: seq<nat>, replicas: set<nat>, known: set<nat>)
    returns (known': set<nat>, success: bool)
    requires forall x | x in selected :: x < |nodes|
    ensures Learned(nodes, selected, known, known')
    ensures success <==> Reaches(nodes, ToSet(selected), replicas)
  {
    known', success := known, false;
    for n := 0 to |selected|
      invariant Learned(nodes, selected[..n], known, known')
      invariant success <==> Reaches(nodes, ToSet(selected[..n]), replicas)
    {
      var index := selected[n];
      assert index in selected;
      ghost var before := known';
      assert selected[..n + 1] == selected[..n] + [index];
      if !nodes[index].failed {
        if !nodes[index].malicious && index in replicas {
          success := true;
          assert index in ToSet(selected[..n + 1]);
        }
        if !nodes[index].malicious {
          known' := known' + ToSet(nodes[index].routing);
        }
      }
      LearnedMore(nodes, selected[..n], index, known, before, known');
      ReachesMore(nodes, selected[..n], index, replicas);
    }
    assert selected[..|selected|] == selected;
  }

  lemma {:induction false} LearnedMore(
    nodes: seq<Node>, xs: seq<nat>, x: nat, before: set<nat>, mid: set<nat>, after: set<nat>)
    requires x < |nodes| && Learned(nodes, xs, before, mid)
    requires after == if Answers(nodes, x) then mid + ToSet(nodes[x].routing) else mid
    ensures Learned(nodes, xs + [x], before, after)
  {
    forall y | y in after && y !in before
      ensures exists z :: z in xs + [x] && Answers(nodes, z) && y in nodes[z].routing
    {
      if y in mid {
        var z :| z in xs && Answers(nodes, z) && y in nodes[z].routing;
        assert z in xs + [x];
      } else {
        assert x in xs + [x];
      }
    }
  }

  lemma {:induction false} ReachesMore(nodes: seq<Node>, xs: seq<nat>, x: nat, replicas: set<nat>)
    ensures Reaches(nodes, ToSet(xs + [x]), replicas) <==>
              Reaches(nodes, ToSet(xs), replicas) || (x in replicas && Answers(nodes, x))
  {
    if Reaches(nodes, ToSet(xs), replicas) {
      var y :| y in ToSet(xs) && y in replicas && Answers(nodes, y);
      assert y in ToSet(xs + [x]);
    }
    if x in replicas && Answers(nodes, x) {
      assert x in ToSet(xs + [x]);
    }
    if Reaches(nodes, ToSet(xs + [x]), replicas) {
      var y :| y in ToSet(xs + [x]) && y in replicas && Answers(nodes, y);
      assert y == x || y in ToSet(xs);
    }
  }

  // ----- Why a clean network never loses its way -----

  /** `c` is strictly closer to the target than every other node. */
  ghost predicate IsClosest(nodes: seq<Node>, target: nat, c: nat) {
    c < |nodes| && forall x: nat | x < |nodes| && x != c :: Dist(nodes, target, c) < Dist(nodes, target, x)
  }

  /** Distinct 64-bit identifiers, at least two nodes, nobody failed or malicious, uncontaminated tables. */
  ghost predicate Clean(nodes: seq<Node>) {
    && |nodes| >= 2 && Words(Ids(nodes)) && Distinct(Ids(nodes))
    && forall i | 0 <= i < |nodes| :: Answers(nodes, i) && IsTable(Ids(nodes), i, nodes[i].routing)
  }

  /** Bits of `x` and `c` below their common prefix. */
  ghost function Apart(nodes: seq<Node>, c: nat, x: nat): nat
    requires c < |nodes| && x < |nodes|
  {
    Bits(Xor(nodes[x].id, nodes[c].id))
  }

  ghost predicate IsNearestIn(nodes: seq<Node>, target: nat, pool: set<nat>, b: nat) {
    b in pool && forall x | x in pool :: Dist(nodes, target, b) <= Dist(nodes, target, x)
  }

  lemma {:induction false} NearestExists(nodes: seq<Node>, target: nat, pool: set<nat>) returns (b: nat)
    requires pool != {}
    ensures IsNearestIn(nodes, target, pool, b)
    decreases pool
  {
    b :| b in pool;
    if pool != {b} {
      var b' := NearestExists(nodes, target, pool - {b});
      if Dist(nodes, target, b') < Dist(nodes, target, b) {
        b := b';
      }
    }
  }

  /** A node's table always has a neighbour that is closer to the target and shares more with the closest node. */
  lemma {:induction false} TableAdvances(nodes: seq<Node>, target: nat, c: nat, b: nat) returns (y: nat)
    requires Clean(nodes) && IsClosest(nodes, target, c) && b < |nodes| && b != c
    ensures y in nodes[b].routing && y < |nodes|
    ensures Dist(nodes, target, y) < Dist(nodes, target, b) && Apart(nodes, c, y) < Apart(nodes, c, b)
  {
    var ids := Ids(nodes);
    assert Answers(nodes, b) && IsTable(ids, b, nodes[b].routing);
    assert Represented(ids, b, nodes[b].routing, c);
    y :| y in nodes[b].routing && InBucket(ids, b, Bucket(ids, b, c), y);
    assert ids[b] != ids[c] && ids[b] != ids[y];
    XorZero(ids[b], ids[c]);
    XorZero(ids[b], ids[y]);
    assert Dist(nodes, target, c) < Dist(nodes, target, b);
    SameBucketIsCloser(ids[b], ids[c], ids[y], target);
    XorSymmetric(ids[b], ids[c]);
  }

  /** The nearest node known after hearing from `b` shares a longer prefix with the closest node than `b` did. */
  lemma {:induction false} RoundAdvances(nodes: seq<Node>, target: nat, c: nat, b: nat, known: set<nat>, b': nat)
    requires Clean(nodes) && IsClosest(nodes, target, c) && b < |nodes| && b != c
    requires forall y | y in nodes[b].routing :: y in known
    requires IsNearestIn(nodes, target, known, b') && b' < |nodes|
    ensures Apart(nodes, c, b') < Apart(nodes, c, b)
  {
    var y := TableAdvances(nodes, target, c, b);
    BetweenSharesPrefix(nodes[c].id, nodes[b'].id, nodes[y].id, target);
  }

  /** While the closest node has not been asked, the nearest known node has not been asked either. */
  lemma {:induction false} NearestUnasked(
    nodes: seq<Node>, target: nat, c: nat, known: set<nat>, queried: set<nat>, b: nat)
    requires Clean(nodes) && IsClosest(nodes, target, c) && c !in queried && b < |nodes|
    requires forall q | q in queried && q < |nodes| :: forall y | y in nodes[q].routing :: y in known
    requires IsNearestIn(nodes, target, known, b)
    ensures b !in queried
  {
    if b in queried {
      var y := TableAdvances(nodes, target, c, b);
    }
  }

  /** How far the search still has to go when round `r` starts at `b`. */
  ghost predicate OnTrack(nodes: seq<Node>, c: nat, b: nat, r: nat)
    requires c < |nodes| && b < |nodes|
  {
    || b == c
    || Apart(nodes, c, b) + r <= 63
    || (r == 0 && forall x: nat | x < |nodes| && x != c :: Apart(nodes, c, b) <= Apart(nodes, c, x))
  }

  /** Starting from anyone's table, the nearest known node is already on track. */
  lemma {:induction false} StartOnTrack(nodes: seq<Node>, target: nat, c: nat, start: nat, b: nat)
    requires Clean(nodes) && IsClosest(nodes, target, c) && start < |nodes| && b < |nodes|
    requires IsNearestIn(nodes, target, ToSet(nodes[start].routing), b)
    ensures OnTrack(nodes, c, b, 0)
  {
    var ids := Ids(nodes);
    if start != c {
      RoundAdvances(nodes, target, c, start, ToSet(nodes[start].routing), b);
      XorWord(ids[start], ids[c], 64);
      BitsFit(Xor(ids[start], ids[c]), 64);
    } else {
      forall x: nat | x < |nodes| && x != c ensures Apart(nodes, c, b) <= Apart(nodes, c, x) {
        assert Answers(nodes, c) && IsTable(ids, c, nodes[c].routing);
        assert Represented(ids, c, nodes[c].routing, x);
        var y :| y in nodes[c].routing && InBucket(ids, c, Bucket(ids, c, x), y);
        XorZero(ids[c], ids[x]);
        XorZero(ids[c], ids[y]);
        XorSymmetric(ids[c], ids[x]);
        XorSymmetric(ids[c], ids[y]);
        assert Dist(nodes, target, c) <= Dist(nodes, target, b) <= Dist(nodes, target, y);
        BetweenSharesPrefix(nodes[c].id, nodes[b].id, nodes[y].id, target);
      }
    }
  }

  lemma {:induction false} StaysOnTrack(nodes: seq<Node>, c: nat, b: nat, r: nat, b': nat)
    requires c < |nodes| && b < |nodes| && b' < |nodes| && Distinct(Ids(nodes))
    requires OnTrack(nodes, c, b, r) && b != c && Apart(nodes, c, b') < Apart(nodes, c, b)
    ensures OnTrack(nodes, c, b', r + 1) && r <= 62
  {
    XorZero(nodes[b].id, nodes[c].id);
    assert Ids(nodes)[b] != Ids(nodes)[c];
  }

  // ----- The lookup -----

  /** Nobody is asked twice from one network group. */
  ghost predicate OnePerGroup(nodes: seq<Node>, queried: set<nat>) {
    forall x, y | x in queried && y in queried && x != y :: Group(nodes, x) != Group(nodes, y)
  }

  /** What holds of any lookup, in any network, after any number of rounds. */
  ghost predicate LookupInv(
    nodes: seq<Node>, start: nat, replicas: set<nat>, diverse: bool, known: set<nat>, groups: set<nat>, trace: Trace)
  {
    && Indices(nodes, known) && trace.queried <= known
    && trace.rounds <= MAX_LOOKUP_ROUNDS && |trace.queried| <= ALPHA * trace.rounds
    && trace.observers == trace.queried + {start}
    && (trace.success <==> Reaches(nodes, trace.queried, replicas))
    && (diverse ==> OnePerGroup(nodes, trace.queried) && forall x | x in trace.queried :: Group(nodes, x) in groups)
    && (forall q | q in trace.queried && Answers(nodes, q) :: forall y | y in nodes[q].routing :: y in known)
  }

  /** What the nodes asked pass on: the tables of those that answer. */
  ghost function Told(nodes: seq<Node>, xs: seq<nat>): set<nat> {
    set x, y | x in xs && x < |nodes| && Answers(nodes, x) && y in nodes[x].routing :: y
  }

  lemma {:induction false} LearnedIsTold(nodes: seq<Node>, xs: seq<nat>, before: set<nat>, after: set<nat>)
    requires (forall x | x in xs :: x < |nodes|) && Learned(nodes, xs, before, after)
    ensures after == before + Told(nodes, xs)
  {
  }

  // ----- A search, from the nodes asked in each round -----

  ghost function Asked(rounds: seq<seq<nat>>): set<nat> {
    if rounds == [] then {} else Asked(rounds[..|rounds| - 1]) + ToSet(rounds[|rounds| - 1])
  }

  ghost function GroupsAsked(nodes: seq<Node>, rounds: seq<seq<nat>>): set<nat> {
    if rounds == [] then {}
    else GroupsAsked(nodes, rounds[..|rounds| - 1]) + GroupsOf(nodes, rounds[|rounds| - 1])
  }

  /** The nodes known after these rounds: the starting node's table and what has been passed on since. */
  ghost function Heard(nodes: seq<Node>, start: nat, rounds: seq<seq<nat>>): set<nat>
    requires start < |nodes|
  {
    if rounds == [] then ToSet(nodes[start].routing)
    else Heard(nodes, start, rounds[..|rounds| - 1]) + Told(nodes, rounds[|rounds| - 1])
  }

  /** The next round asks the nearest nodes known and not yet asked. */
  ghost predicate IsRound(
    nodes: seq<Node>, start: nat, target: nat, diverse: bool, before: seq<seq<nat>>, next: seq<nat>)
    requires start < |nodes|
  {
    && next != []
    && IsChoice(nodes, target, Heard(nodes, start, before) - Asked(before), diverse, ALPHA,
                GroupsAsked(nodes, before), next)
  }

  ghost predicate IsSearch(nodes: seq<Node>, start: nat, target: nat, diverse: bool, rounds: seq<seq<nat>>)
    requires start < |nodes|
  {
    forall r | 0 <= r < |rounds| :: IsRound(nodes, start, target, diverse, rounds[..r], rounds[r])
  }

  lemma {:induction false} SearchExtends(
    nodes: seq<Node>, start: nat, target: nat, diverse: bool, rounds: seq<seq<nat>>, next: seq<nat>)
    requires start < |nodes| && IsSearch(nodes, start, target, diverse, rounds)
    requires IsRound(nodes, start, target, diverse, rounds, next)
    ensures IsSearch(nodes, start, target, diverse, rounds + [next])
    ensures Asked(rounds + [next]) == Asked(rounds) + ToSet(next)
    ensures GroupsAsked(nodes, rounds + [next]) == GroupsAsked(nodes, rounds) + GroupsOf(nodes, next)
    ensures Heard(nodes, start, rounds + [next]) == Heard(nodes, start, rounds) + Told(nodes, next)
  {
    var rounds' := rounds + [next];
    assert rounds'[..|rounds|] == rounds;
    hide IsRound, Told;
    forall r | 0 <= r < |rounds'| ensures IsRound(nodes, start, target, diverse, rounds'[..r], rounds'[r]) {
      if r < |rounds| {
        assert rounds'[..r] == rounds[..r];
      }
    }
  }

  // ----- When a search may stop -----

  /** Nobody is left to ask: every node heard of has been asked, or its group has when groups count. */
  ghost predicate Spent(nodes: seq<Node>, start: nat, diverse: bool, rounds: seq<seq<nat>>)
    requires start < |nodes|
  {
    forall y | y in Heard(nodes, start, rounds) && y !in Asked(rounds) ::
      diverse && Group(nodes, y) in GroupsAsked(nodes, rounds)
  }

  /** Eight nodes are nearest of all heard of, and they have all been asked. */
  ghost predicate Settled(
    nodes: seq<Node>, start: nat, target: nat, diverse: bool, rounds: seq<seq<nat>>, closest: seq<nat>)
    requires start < |nodes|
  {
    && IsChoice(nodes, target, Heard(nodes, start, rounds), diverse, K_BUCKET_SIZE, {}, closest)
    && |closest| == K_BUCKET_SIZE && forall x | x in closest :: x in Asked(rounds)
  }

  /** Of the nodes nearest of all heard of, there are fewer than eight or one has not been asked. */
  ghost predicate Unsettled(
    nodes: seq<Node>, start: nat, target: nat, diverse: bool, rounds: seq<seq<nat>>, closest: seq<nat>)
    requires start < |nodes|
  {
    && IsChoice(nodes, target, Heard(nodes, start, rounds), diverse, K_BUCKET_SIZE, {}, closest)
    && (|closest| < K_BUCKET_SIZE || exists x :: x in closest && x !in Asked(rounds))
  }

  /** After these rounds the search goes on: no replica yet, rounds left, and the nearest have not all been asked. */
  ghost predicate GoesOn(
    nodes: seq<Node>, start: nat, target: nat, replicas: set<nat>, diverse: bool, rounds: seq<seq<nat>>)
    requires start < |nodes|
  {
    && !Reaches(nodes, Asked(rounds), replicas) && |rounds| < MAX_LOOKUP_ROUNDS
    && (rounds != [] ==> exists closest :: Unsettled(nodes, start, target, diverse, rounds, closest))
  }

  /** After these rounds the search stops: a replica answered, no rounds or nodes are left, or the nearest are asked. */
  ghost predicate Stops(
    nodes: seq<Node>, start: nat, target: nat, replicas: set<nat>, diverse: bool, rounds: seq<seq<nat>>)
    requires start < |nodes|
  {
    || Reaches(nodes, Asked(rounds), replicas) || |rounds| == MAX_LOOKUP_ROUNDS || Spent(nodes, start, diverse, rounds)
    || (rounds != [] && exists closest :: Settled(nodes, start, target, diverse, rounds, closest))
  }

  /** It stopped where it had to, and nowhere before. */
  ghost predicate StopsInTime(
    nodes: seq<Node>, start: nat, target: nat, replicas: set<nat>, diverse: bool, rounds: seq<seq<nat>>)
    requires start < |nodes|
  {
    && Stops(nodes, start, target, replicas, diverse, rounds)
    && forall r | 0 <= r < |rounds| :: GoesOn(nodes, start, target, replicas, diverse, rounds[..r])
  }

  lemma {:induction false} NobodyLeft(nodes: seq<Node>, start: nat, target: nat, diverse: bool, rounds: seq<seq<nat>>)
    requires start < |nodes|
    requires IsChoice(nodes, target, Heard(nodes, start, rounds) - Asked(rounds), diverse, ALPHA,
                      GroupsAsked(nodes, rounds), [])
    ensures Spent(nodes, start, diverse, rounds)
  {
    forall y | y in Heard(nodes, start, rounds) && y !in Asked(rounds)
      ensures diverse && Group(nodes, y) in GroupsAsked(nodes, rounds)
    {
      assert y in Heard(nodes, start, rounds) - Asked(rounds);
    }
  }

  lemma {:induction false} SomebodyLeft(
    nodes: seq<Node>, start: nat, target: nat, diverse: bool, rounds: seq<seq<nat>>, next: seq<nat>)
    requires start < |nodes| && IsRound(nodes, start, target, diverse, rounds, next)
    ensures !Spent(nodes, start, diverse, rounds)
  {
    assert next[0] in next;
  }

  /** With distinct distances a choice is unique, whatever its order: look at the nearest node on which two differ. */
  lemma {:induction false} ChoiceUnique(
    nodes: seq<Node>, target: nat, pool: set<nat>, diverse: bool, count: nat, groups: set<nat>, a: seq<nat>,
    b: seq<nat>)
    requires IsChoice(nodes, target, pool, diverse, count, groups, a)
    requires IsChoice(nodes, target, pool, diverse, count, groups, b)
    requires forall x, y | x in pool && y in pool && x != y :: Dist(nodes, target, x) != Dist(nodes, target, y)
    ensures ToSet(a) == ToSet(b)
  {
    var odd := (ToSet(a) - ToSet(b)) + (ToSet(b) - ToSet(a));
    if odd != {} {
      var x := NearestExists(nodes, target, odd);
      if x in a {
        InBoth(nodes, target, pool, diverse, count, groups, a, b, x);
      } else {
        InBoth(nodes, target, pool, diverse, count, groups, b, a, x);
      }
    }
  }

  /** A chosen node is in every other choice from which only nodes farther away are missing here. */
  lemma {:induction false} InBoth(
    nodes: seq<Node>, target: nat, pool: set<nat>, diverse: bool, count: nat, groups: set<nat>, a: seq<nat>,
    b: seq<nat>,
    x: nat)
    requires IsChoice(nodes, target, pool, diverse, count, groups, a)
    requires IsChoice(nodes, target, pool, diverse, count, groups, b)
    requires forall x, y | x in pool && y in pool && x != y :: Dist(nodes, target, x) != Dist(nodes, target, y)
    requires x in a && forall y | y in b && y !in a :: Dist(nodes, target, x) <= Dist(nodes, target, y)
    ensures x in b
  {
    if QuotaFull(nodes, target, count, b, x) {
      FullOfOthers(nodes, target, pool, a, b, x);
    } else if GroupTaken(nodes, target, groups, b, x) && diverse {
      StandsForGroup(nodes, target, pool, groups, a, b, x);
    }
  }

  lemma {:induction false} FullOfOthers(nodes: seq<Node>, target: nat, pool: set<nat>, a: seq<nat>, b: seq<nat>, x: nat)
    requires NoDup(a) && NoDup(b) && x in pool && x in a && forall y | y in b :: y in pool
    requires forall x, y | x in pool && y in pool && x != y :: Dist(nodes, target, x) != Dist(nodes, target, y)
    requires forall y | y in b && y !in a :: Dist(nodes, target, x) <= Dist(nodes, target, y)
    requires forall y | y in b :: Dist(nodes, target, y) <= Dist(nodes, target, x)
    ensures x in b || |b| < |a|
  {
    if x !in b {
      NoDupSize(a);
      NoDupSize(b);
      assert x !in ToSet(b) && ToSet(b) + {x} <= ToSet(a);
      SubsetSize(ToSet(b) + {x}, ToSet(a));
    }
  }

  lemma {:induction false} StandsForGroup(
    nodes: seq<Node>, target: nat, pool: set<nat>, groups: set<nat>, a: seq<nat>, b: seq<nat>, x: nat)
    requires DistinctGroups(nodes, a, groups) && x in pool && x in a && forall y | y in b :: y in pool
    requires forall x, y | x in pool && y in pool && x != y :: Dist(nodes, target, x) != Dist(nodes, target, y)
    requires forall y | y in b && y !in a :: Dist(nodes, target, x) <= Dist(nodes, target, y)
    requires GroupTaken(nodes, target, groups, b, x)
    ensures x in b
  {
    var z :| z in b && Group(nodes, z) == Group(nodes, x) && Dist(nodes, target, z) <= Dist(nodes, target, x);
    if z in a {
      OnlyOneOfGroup(nodes, groups, a, x, z);
    }
  }

  lemma {:induction false} OnlyOneOfGroup(nodes: seq<Node>, groups: set<nat>, a: seq<nat>, x: nat, z: nat)
    requires DistinctGroups(nodes, a, groups) && x in a && z in a && Group(nodes, x) == Group(nodes, z)
    ensures x == z
  {
    var i :| 0 <= i < |a| && a[i] == x;
    var j :| 0 <= j < |a| && a[j] == z;
  }

  lemma {:induction false} SubsetSize(a: set<nat>, b: set<nat>)
    requires a <= b
    ensures |a| <= |b|
    decreases b
  {
    if a != {} {
      var x :| x in a;
      SubsetSize(a - {x}, b - {x});
    }
  }

  /** With distinct identifiers nothing that goes on may stop. */
  lemma {:induction false} GoesOnOrStops(
    nodes: seq<Node>, start: nat, target: nat, replicas: set<nat>, diverse: bool, rounds: seq<seq<nat>>, next: seq<nat>)
    requires start < |nodes| && Distinct(Ids(nodes)) && Indices(nodes, Heard(nodes, start, rounds))
    requires GoesOn(nodes, start, target, replicas, diverse, rounds)
    requires IsRound(nodes, start, target, diverse, rounds, next)
    ensures !Stops(nodes, start, target, replicas, diverse, rounds)
  {
    SomebodyLeft(nodes, start, target, diverse, rounds, next);
    if rounds != [] && exists closest :: Settled(nodes, start, target, diverse, rounds, closest) {
      var a :| Settled(nodes, start, target, diverse, rounds, a);
      var b :| Unsettled(nodes, start, target, diverse, rounds, b);
      var pool := Heard(nodes, start, rounds);
      DistinctDistances(nodes, target, pool);
      hide IsChoice;
      ChoiceUnique(nodes, target, pool, diverse, K_BUCKET_SIZE, {}, a, b);
      SameChoice(nodes, target, pool, diverse, a, b);
    }
  }

  lemma {:induction false} DistinctDistances(nodes: seq<Node>, target: nat, pool: set<nat>)
    requires Distinct(Ids(nodes)) && Indices(nodes, pool)
    ensures forall x, y | x in pool && y in pool && x != y :: Dist(nodes, target, x) != Dist(nodes, target, y)
  {
    forall x, y | x in pool && y in pool && x != y ensures Dist(nodes, target, x) != Dist(nodes, target, y) {
      assert Ids(nodes)[x] != Ids(nodes)[y];
      if Dist(nodes, target, x) == Dist(nodes, target, y) {
        XorInjective(nodes[x].id, nodes[y].id, target);
      }
    }
  }

  lemma {:induction false} SameChoice(
    nodes: seq<Node>, target: nat, pool: set<nat>, diverse: bool, a: seq<nat>, b: seq<nat>)
    requires IsChoice(nodes, target, pool, diverse, K_BUCKET_SIZE, {}, a)
    requires IsChoice(nodes, target, pool, diverse, K_BUCKET_SIZE, {}, b)
    requires ToSet(a) == ToSet(b)
    ensures |a| == |b| && forall x :: x in a <==> x in b
  {
    NoDupSize(a);
    NoDupSize(b);
    assert forall x :: x in a <==> x in ToSet(a);
    assert forall x :: x in b <==> x in ToSet(b);
  }

  lemma {:induction false} HeardIsNodes(nodes: seq<Node>, start: nat, rounds: seq<seq<nat>>)
    requires Network(nodes) && start < |nodes|
    ensures Indices(nodes, Heard(nodes, start, rounds))
  {
    if rounds != [] {
      HeardIsNodes(nodes, start, rounds[..|rounds| - 1]);
    }
  }

  /** With distinct identifiers, of all the points the search came through it stopped at the first that it could. */
  lemma {:induction false} StopsExactly(
    nodes: seq<Node>, start: nat, target: nat, replicas: set<nat>, diverse: bool, rounds: seq<seq<nat>>, r: nat)
    requires Network(nodes) && start < |nodes| && Distinct(Ids(nodes)) && r <= |rounds|
    requires IsSearch(nodes, start, target, diverse, rounds)
    requires StopsInTime(nodes, start, target, replicas, diverse, rounds)
    ensures Stops(nodes, start, target, replicas, diverse, rounds[..r]) <==> r == |rounds|
  {
    hide Stops, GoesOn, IsRound;
    if r < |rounds| {
      HeardIsNodes(nodes, start, rounds[..r]);
      GoesOnOrStops(nodes, start, target, replicas, diverse, rounds[..r], rounds[r]);
    } else {
      assert rounds[..r] == rounds;
    }
  }

  // ----- A search is determined by the network -----

  /** Two searches have heard of, asked and taken the same. */
  ghost predicate Alike(nodes: seq<Node>, start: nat, a: seq<seq<nat>>, b: seq<seq<nat>>)
    requires start < |nodes|
  {
    && |a| == |b| && Asked(a) == Asked(b) && Heard(nodes, start, a) == Heard(nodes, start, b)
    && GroupsAsked(nodes, a) == GroupsAsked(nodes, b)
  }

  lemma {:induction false} AlikeExtends(
    nodes: seq<Node>, start: nat, a: seq<seq<nat>>, b: seq<seq<nat>>, x: seq<nat>, y: seq<nat>)
    requires start < |nodes| && Alike(nodes, start, a, b) && ToSet(x) == ToSet(y)
    ensures Alike(nodes, start, a + [x], b + [y])
  {
    assert (a + [x])[..|a|] == a && (b + [y])[..|b|] == b;
    assert forall z :: z in x <==> z in ToSet(x);
    assert forall z :: z in y <==> z in ToSet(y);
    assert Told(nodes, x) == Told(nodes, y) && GroupsOf(nodes, x) == GroupsOf(nodes, y);
  }

  lemma {:induction false} SameSoFar(
    nodes: seq<Node>, start: nat, target: nat, diverse: bool, a: seq<seq<nat>>, b: seq<seq<nat>>, n: nat)
    requires Network(nodes) && start < |nodes| && Distinct(Ids(nodes)) && n <= |a| && n <= |b|
    requires IsSearch(nodes, start, target, diverse, a) && IsSearch(nodes, start, target, diverse, b)
    ensures Alike(nodes, start, a[..n], b[..n])
    ensures forall r | 0 <= r < n :: ToSet(a[r]) == ToSet(b[r])
  {
    hide *;
    if n == 0 {
      AlikeAtFirst(nodes, start);
      assert a[..n] == [] && b[..n] == [];
    } else {
      var x, y := a[..n - 1], b[..n - 1];
      RoundAt(nodes, start, target, diverse, a, n - 1);
      RoundAt(nodes, start, target, diverse, b, n - 1);
      SameSoFar(nodes, start, target, diverse, a, b, n - 1);
      SameRound(nodes, start, target, diverse, x, y, a[n - 1], b[n - 1]);
      AlikeExtends(nodes, start, x, y, a[n - 1], b[n - 1]);
      assert a[..n] == x + [a[n - 1]] && b[..n] == y + [b[n - 1]];
    }
  }

  lemma {:induction false} AlikeAtFirst(nodes: seq<Node>, start: nat)
    requires start < |nodes|
    ensures Alike(nodes, start, [], [])
  {
  }

  lemma {:induction false} RoundAt(
    nodes: seq<Node>, start: nat, target: nat, diverse: bool, rounds: seq<seq<nat>>, r: nat)
    requires start < |nodes| && r < |rounds| && IsSearch(nodes, start, target, diverse, rounds)
    ensures IsRound(nodes, start, target, diverse, rounds[..r], rounds[r])
  {
  }

  lemma {:induction false} SameRound(
    nodes: seq<Node>, start: nat, target: nat, diverse: bool, a: seq<seq<nat>>, b: seq<seq<nat>>,
    x: seq<nat>, y: seq<nat>)
    requires Network(nodes) && start < |nodes| && Distinct(Ids(nodes)) && Alike(nodes, start, a, b)
    requires IsRound(nodes, start, target, diverse, a, x) && IsRound(nodes, start, target, diverse, b, y)
    ensures ToSet(x) == ToSet(y)
  {
    HeardIsNodes(nodes, start, a);
    var pool := Heard(nodes, start, a) - Asked(a);
    DistinctDistances(nodes, target, pool);
    hide IsChoice, Heard, Asked, GroupsAsked, Distinct;
    ChoiceUnique(nodes, target, pool, diverse, ALPHA, GroupsAsked(nodes, a), x, y);
  }

  lemma {:induction false} AlikeStops(
    nodes: seq<Node>, start: nat, target: nat, replicas: set<nat>, diverse: bool, a: seq<seq<nat>>, b: seq<seq<nat>>)
    requires start < |nodes| && Alike(nodes, start, a, b) && Stops(nodes, start, target, replicas, diverse, a)
    ensures Stops(nodes, start, target, replicas, diverse, b)
  {
    if a != [] && exists closest :: Settled(nodes, start, target, diverse, a, closest) {
      var closest :| Settled(nodes, start, target, diverse, a, closest);
      assert Settled(nodes, start, target, diverse, b, closest);
    }
  }

  lemma {:induction false} NoLonger(
    nodes: seq<Node>, start: nat, target: nat, replicas: set<nat>, diverse: bool, a: seq<seq<nat>>, b: seq<seq<nat>>)
    requires Network(nodes) && start < |nodes| && Distinct(Ids(nodes))
    requires IsSearch(nodes, start, target, diverse, a) && StopsInTime(nodes, start, target, replicas, diverse, a)
    requires IsSearch(nodes, start, target, diverse, b) && StopsInTime(nodes, start, target, replicas, diverse, b)
    ensures |b| <= |a|
  {
    hide IsSearch, Stops, GoesOn, Alike;
    if |a| < |b| {
      SameSoFar(nodes, start, target, diverse, a, b, |a|);
      assert a[..|a|] == a;
      StopsExactly(nodes, start, target, replicas, diverse, b, |a|);
      AlikeStops(nodes, start, target, replicas, diverse, a, b[..|a|]);
    }
  }

  /** With distinct identifiers any two such searches ask the same nodes, round by round. */
  lemma {:induction false} SearchDetermined(
    nodes: seq<Node>, start: nat, target: nat, replicas: set<nat>, diverse: bool, a: seq<seq<nat>>, b: seq<seq<nat>>)
    requires Network(nodes) && start < |nodes| && Distinct(Ids(nodes))
    requires IsSearch(nodes, start, target, diverse, a) && StopsInTime(nodes, start, target, replicas, diverse, a)
    requires IsSearch(nodes, start, target, diverse, b) && StopsInTime(nodes, start, target, replicas, diverse, b)
    ensures |a| == |b| && forall r | 0 <= r < |a| :: ToSet(a[r]) == ToSet(b[r])
  {
    NoLonger(nodes, start, target, replicas, diverse, a, b);
    NoLonger(nodes, start, target, replicas, diverse, b, a);
    SameSoFar(nodes, start, target, diverse, a, b, |a|);
  }

  /** `path[r]` is the nearest node known when round `r` begins. */
  ghost predicate Nearing(nodes: seq<Node>, start: nat, target: nat, rounds: seq<seq<nat>>, path: seq<nat>)
    requires start < |nodes| && |path| <= |rounds|
  {
    forall r | 0 <= r < |path| :: IsNearestIn(nodes, target, Heard(nodes, start, rounds[..r]), path[r])
  }

  lemma {:induction false} NearingExtends(
    nodes: seq<Node>, start: nat, target: nat, rounds: seq<seq<nat>>, next: seq<nat>, path: seq<nat>, b: nat)
    requires start < |nodes| && |path| == |rounds| && Nearing(nodes, start, target, rounds, path)
    requires IsNearestIn(nodes, target, Heard(nodes, start, rounds), b)
    ensures Nearing(nodes, start, target, rounds + [next], path + [b])
  {
    hide IsNearestIn, Heard;
    var rounds' := rounds + [next];
    forall r | 0 <= r <= |path| ensures IsNearestIn(nodes, target, Heard(nodes, start, rounds'[..r]), (path + [b])[r]) {
      assert rounds'[..r] == rounds[..r];
      assert rounds[..|rounds|] == rounds;
    }
  }

  /** One round: pick up to three, ask them, learn their tables. */
  method Round(
    nodes: seq<Node>, start: nat, target: nat, replicas: set<nat>, diverse: bool, known: set<nat>, groups: set<nat>,
    trace: Trace)
    returns (known': set<nat>, groups': set<nat>, trace': Trace, selected: seq<nat>)
    requires Network(nodes) && LookupInv(nodes, start, replicas, diverse, known, groups, trace)
    requires !trace.success && trace.rounds < MAX_LOOKUP_ROUNDS
    ensures IsChoice(nodes, target, known - trace.queried, diverse, ALPHA, groups, selected)
    ensures selected == [] ==> known' == known && groups' == groups && trace' == trace
    ensures selected != [] ==> known' == known + Told(nodes, selected) && groups' == groups + GroupsOf(nodes, selected)
    ensures selected != [] ==> trace'.rounds == trace.rounds + 1 && trace'.queried == trace.queried + ToSet(selected)
    ensures known <= known' && LookupInv(nodes, start, replicas, diverse, known', groups', trace')
  {
    selected := Nearest(nodes, target, known - trace.queried, diverse, ALPHA, groups);
    known', groups', trace' := known, groups, trace;
    if selected != [] {
      var success;
      known', success := QueryAll(nodes, selected, replicas, known);
      LearnedIsTold(nodes, selected, known, known');
      groups' := groups + GroupsOf(nodes, selected);
      trace' := Trace(success, trace.rounds + 1, trace.observers + ToSet(selected), trace.queried + ToSet(selected));
      RoundKeepsInv(nodes, start, target, replicas, diverse, known, groups, trace, selected, known', trace');
    }
  }

  lemma {:induction false} RoundKeepsInv(
    nodes: seq<Node>, start: nat, target: nat, replicas: set<nat>, diverse: bool, known: set<nat>, groups: set<nat>,
    trace: Trace,
    selected: seq<nat>, known': set<nat>, trace': Trace)
    requires Network(nodes) && LookupInv(nodes, start, replicas, diverse, known, groups, trace)
    requires !trace.success && trace.rounds < MAX_LOOKUP_ROUNDS
    requires IsChoice(nodes, target, known - trace.queried, diverse, ALPHA, groups, selected)
    requires Learned(nodes, selected, known, known')
    requires trace' == Trace(Reaches(nodes, ToSet(selected), replicas), trace.rounds + 1,
                             trace.observers + ToSet(selected), trace.queried + ToSet(selected))
    ensures LookupInv(nodes, start, replicas, diverse, known', groups + GroupsOf(nodes, selected), trace')
  {
    NoDupSize(selected);
    if trace'.success {
      var x :| x in ToSet(selected) && x in replicas && Answers(nodes, x);
      assert x in trace'.queried;
    }
    if diverse {
      GroupsStayDistinct(nodes, trace.queried, groups, selected);
    }
  }

  lemma {:induction false} GroupsStayDistinct(nodes: seq<Node>, queried: set<nat>, groups: set<nat>, selected: seq<nat>)
    requires OnePerGroup(nodes, queried) && (forall x | x in queried :: Group(nodes, x) in groups)
    requires DistinctGroups(nodes, selected, groups)
    ensures OnePerGroup(nodes, queried + ToSet(selected))
  {
    forall x, y | x in queried + ToSet(selected) && y in queried + ToSet(selected) && x != y
      ensures Group(nodes, x) != Group(nodes, y)
    {
      if x !in queried && y !in queried {
        var i :| 0 <= i < |selected| && selected[i] == x;
        var j :| 0 <= j < |selected| && selected[j] == y;
        assert i < j || j < i;
      }
    }
  }

  /** Any non-empty quota takes the nearest of the pool. */
  lemma {:induction false} NearestPicked(
    nodes: seq<Node>, target: nat, pool: set<nat>, count: nat, groups: set<nat>, selected: seq<nat>, b: nat)
    requires IsChoice(nodes, target, pool, false, count, groups, selected) && count > 0
    requires Distinct(Ids(nodes)) && Indices(nodes, pool) && IsNearestIn(nodes, target, pool, b)
    ensures b in selected
  {
    if b !in selected {
      assert QuotaFull(nodes, target, count, selected, b);
      var x := selected[0];
      assert x in selected && Ids(nodes)[x] != Ids(nodes)[b];
      XorInjective(nodes[x].id, nodes[b].id, target);
    }
  }

  /** A search under way in a clean network: `b` is the nearest known node, not asked yet, and on track. */
  ghost predicate Searching(nodes: seq<Node>, target: nat, c: nat, known: set<nat>, trace: Trace, b: nat) {
    && c < |nodes| && b < |nodes| && IsNearestIn(nodes, target, known, b)
    && b !in trace.queried && c !in trace.queried && OnTrack(nodes, c, b, trace.rounds)
  }

  /** A clean round asks `b`; then either a replica answered, or the search is strictly closer and still under way. */
  lemma {:induction false} CleanRound(
    nodes: seq<Node>, start: nat, target: nat, c: nat, replicas: set<nat>, known: set<nat>, groups: set<nat>,
    trace: Trace, b: nat,
    selected: seq<nat>, known': set<nat>, groups': set<nat>, trace': Trace) returns (b': nat)
    requires Clean(nodes) && IsClosest(nodes, target, c) && c in replicas
    requires LookupInv(nodes, start, replicas, false, known, groups, trace)
             && Searching(nodes, target, c, known, trace, b)
    requires IsChoice(nodes, target, known - trace.queried, false, ALPHA, groups, selected)
    requires trace'.queried == trace.queried + ToSet(selected) && trace'.rounds == trace.rounds + 1
    requires LookupInv(nodes, start, replicas, false, known', groups', trace')
    ensures b in trace'.queried && b' < |nodes|
    ensures !trace'.success ==>
              && Searching(nodes, target, c, known', trace', b') && Apart(nodes, c, b') < Apart(nodes, c, b)
              && trace'.rounds <= 63
  {
    NearestPicked(nodes, target, known - trace.queried, ALPHA, groups, selected, b);
    b' := b;
    if !trace'.success {
      assert Answers(nodes, c) && Answers(nodes, b);
      assert c !in trace'.queried;
      b' := NearestExists(nodes, target, known');
      RoundAdvances(nodes, target, c, b, known', b');
      StaysOnTrack(nodes, c, b, trace.rounds, b');
      NearestUnasked(nodes, target, c, known', trace'.queried, b');
    }
  }

  /** And a clean search never runs out of nodes to ask. */
  lemma {:induction false} SomeonePicked(
    nodes: seq<Node>, start: nat, target: nat, c: nat, replicas: set<nat>, known: set<nat>, trace: Trace, b: nat,
    groups: set<nat>,
    selected: seq<nat>)
    requires Clean(nodes) && LookupInv(nodes, start, replicas, false, known, groups, trace)
    requires Searching(nodes, target, c, known, trace, b)
    requires IsChoice(nodes, target, known - trace.queried, false, ALPHA, groups, selected)
    ensures selected != []
  {
    NearestPicked(nodes, target, known - trace.queried, ALPHA, groups, selected, b);
  }

  /**
   * The nearest known node of each round so far: each asked, each
   * sharing a longer prefix with `c` than the one before.
   */
  ghost predicate IsPath(nodes: seq<Node>, c: nat, queried: set<nat>, path: seq<nat>)
    requires c < |nodes|
  {
    && (forall r | 0 <= r < |path| :: path[r] < |nodes| && path[r] in queried)
    && (forall r | 0 <= r < |path| - 1 :: Apart(nodes, c, path[r + 1]) < Apart(nodes, c, path[r]))
  }

  /** Where a lookup in a clean network stands after each round. */
  ghost predicate CleanState(
    nodes: seq<Node>, target: nat, c: nat, known: set<nat>, trace: Trace, b: nat, path: seq<nat>)
  {
    && c < |nodes| && b < |nodes| && |path| == trace.rounds && IsPath(nodes, c, trace.queried, path)
    && (!trace.success ==>
          && trace.rounds <= 63 && Searching(nodes, target, c, known, trace, b)
          && (path != [] ==> path[|path| - 1] < |nodes| && Apart(nodes, c, b) < Apart(nodes, c, path[|path| - 1])))
  }

  /** Convergence never cuts a clean search short. */
  lemma {:induction false} NotConverged(
    nodes: seq<Node>, start: nat, target: nat, c: nat, replicas: set<nat>, known: set<nat>, groups: set<nat>,
    trace: Trace, b: nat, path: seq<nat>,
    closest: seq<nat>)
    requires Clean(nodes) && LookupInv(nodes, start, replicas, false, known, groups, trace) && !trace.success
    requires CleanState(nodes, target, c, known, trace, b, path)
    requires IsChoice(nodes, target, known, false, K_BUCKET_SIZE, {}, closest)
    ensures exists x :: x in closest && x !in trace.queried
  {
    NearestPicked(nodes, target, known, K_BUCKET_SIZE, {}, closest, b);
  }

  lemma {:induction false} CleanStep(
    nodes: seq<Node>, start: nat, target: nat, c: nat, replicas: set<nat>, known: set<nat>, groups: set<nat>,
    trace: Trace, b: nat, path: seq<nat>,
    selected: seq<nat>, known': set<nat>, groups': set<nat>, trace': Trace) returns (b': nat)
    requires Clean(nodes) && IsClosest(nodes, target, c) && c in replicas && !trace.success
    requires LookupInv(nodes, start, replicas, false, known, groups, trace)
             && CleanState(nodes, target, c, known, trace, b, path)
    requires IsChoice(nodes, target, known - trace.queried, false, ALPHA, groups, selected)
    requires selected != [] ==> trace'.queried == trace.queried + ToSet(selected) && trace'.rounds == trace.rounds + 1
    requires LookupInv(nodes, start, replicas, false, known', groups', trace')
    ensures selected != [] && CleanState(nodes, target, c, known', trace', b', path + [b])
  {
    hide Clean, IsClosest, LookupInv, Searching, IsChoice, Apart, IsPath;
    SomeonePicked(nodes, start, target, c, replicas, known, trace, b, groups, selected);
    b' := CleanRound(nodes, start, target, c, replicas, known, groups, trace, b, selected, known', groups', trace');
    PathExtends(nodes, c, trace.queried, trace'.queried, path, b);
  }

  lemma {:induction false} PathExtends(
    nodes: seq<Node>, c: nat, queried: set<nat>, queried': set<nat>, path: seq<nat>, b: nat)
    requires c < |nodes| && b < |nodes| && IsPath(nodes, c, queried, path) && queried <= queried' && b in queried'
    requires path != [] ==> path[|path| - 1] < |nodes| && Apart(nodes, c, b) < Apart(nodes, c, path[|path| - 1])
    ensures IsPath(nodes, c, queried', path + [b])
  {
    hide Apart;
  }

  /**
   * `c` is the node closest to the target, if there is one. In a clean network that holds a record at `c`,
   * any lookup from anywhere finds a replica within the round limit, and the nearest known node's
   * common prefix with `c` grows every round.
   */
  method RouteLookup(nodes: seq<Node>, start: nat, target: nat, replicas: set<nat>, diverse: bool, ghost c: nat)
    returns (trace: Trace, ghost rounds: seq<seq<nat>>, ghost path: seq<nat>)
    requires Network(nodes) && start < |nodes|
    ensures |rounds| == trace.rounds && trace.queried == Asked(rounds)
    ensures IsSearch(nodes, start, target, diverse, rounds)
    ensures trace.rounds <= MAX_LOOKUP_ROUNDS && |trace.queried| <= ALPHA * trace.rounds
    ensures trace.observers == trace.queried + {start}
    ensures trace.success <==> Reaches(nodes, trace.queried, replicas)
    ensures diverse ==> OnePerGroup(nodes, trace.queried)
    ensures !Answers(nodes, start) ==> rounds == []
    ensures Answers(nodes, start) ==> StopsInTime(nodes, start, target, replicas, diverse, rounds)
    ensures Clean(nodes) && IsClosest(nodes, target, c) && c in replicas && !diverse ==>
              && trace.success && |path| == trace.rounds && IsPath(nodes, c, trace.queried, path)
              && Nearing(nodes, start, target, rounds, path)
  {
    rounds, path := [], [];
    trace := Trace(false, 0, {start}, {});
    if nodes[start].failed || nodes[start].malicious {
      return;
    }
    ghost var clean := Clean(nodes) && IsClosest(nodes, target, c) && c in replicas && !diverse;
    var known, groups: set<nat> := ToSet(nodes[start].routing), {};
    ghost var b := start;
    if clean {
      b := FirstStop(nodes, start, target, c);
    }
    var running := true;
    hide Clean, IsClosest, CleanState, SearchInv, GoesOn, Stops, Nearing, IsSearch, Reaches;
    SearchStarts(nodes, start, target, replicas, diverse, trace);
    while running && trace.rounds < MAX_LOOKUP_ROUNDS
      invariant SearchInv(nodes, start, target, replicas, diverse, known, groups, trace, rounds)
      invariant running && trace.rounds < MAX_LOOKUP_ROUNDS ==> GoesOn(nodes, start, target, replicas, diverse, rounds)
      invariant !running ==> Stops(nodes, start, target, replicas, diverse, rounds)
      invariant trace.success ==> !running
      invariant clean ==> |path| == |rounds| && Nearing(nodes, start, target, rounds, path)
      invariant clean ==> CleanState(nodes, target, c, known, trace, b, path) && (trace.success || running)
      decreases running, MAX_LOOKUP_ROUNDS - trace.rounds
    {
      ghost var before, heard, taken, selected, closest := trace, known, groups, [], [];
      known, groups, trace, running, selected, closest :=
        Advance(nodes, start, target, replicas, diverse, known, groups, trace, rounds);
      if clean {
        ghost var b' := CleanAdvance(nodes, start, target, c, replicas, heard, taken, before, b, path, rounds,
                                     selected, known, groups, trace, running, closest);
        path, b := path + [b], b';
      }
      rounds := if selected == [] then rounds else rounds + [selected];
    }
    SearchEnds(nodes, start, target, replicas, diverse, known, groups, trace, rounds, running);
    if clean {
      CleanEnds(nodes, target, c, known, trace, b, path);
    }
  }

  /** What a search has come to: its record, and the rounds that led there. */
  ghost predicate SearchInv(
    nodes: seq<Node>, start: nat, target: nat, replicas: set<nat>, diverse: bool, known: set<nat>, groups: set<nat>,
    trace: Trace, rounds: seq<seq<nat>>)
    requires start < |nodes|
  {
    && LookupInv(nodes, start, replicas, diverse, known, groups, trace)
    && |rounds| == trace.rounds && trace.queried == Asked(rounds)
    && known == Heard(nodes, start, rounds) && groups == GroupsAsked(nodes, rounds)
    && IsSearch(nodes, start, target, diverse, rounds)
    && forall r | 0 <= r < |rounds| :: GoesOn(nodes, start, target, replicas, diverse, rounds[..r])
  }

  lemma {:induction false} SearchStarts(
    nodes: seq<Node>, start: nat, target: nat, replicas: set<nat>, diverse: bool, trace: Trace)
    requires Network(nodes) && start < |nodes| && trace == Trace(false, 0, {start}, {})
    ensures SearchInv(nodes, start, target, replicas, diverse, ToSet(nodes[start].routing), {}, trace, [])
    ensures GoesOn(nodes, start, target, replicas, diverse, [])
  {
  }

  lemma {:induction false} SearchEnds(
    nodes: seq<Node>, start: nat, target: nat, replicas: set<nat>, diverse: bool, known: set<nat>, groups: set<nat>,
    trace: Trace, rounds: seq<seq<nat>>, running: bool)
    requires start < |nodes| && SearchInv(nodes, start, target, replicas, diverse, known, groups, trace, rounds)
    requires running ==> trace.rounds >= MAX_LOOKUP_ROUNDS
    requires !running ==> Stops(nodes, start, target, replicas, diverse, rounds)
    ensures LookupInv(nodes, start, replicas, diverse, known, groups, trace)
    ensures |rounds| == trace.rounds && trace.queried == Asked(rounds)
    ensures IsSearch(nodes, start, target, diverse, rounds)
    ensures StopsInTime(nodes, start, target, replicas, diverse, rounds)
  {
  }

  /** One round and the decision after it, whether to go on. */
  method Advance(
    nodes: seq<Node>, start: nat, target: nat, replicas: set<nat>, diverse: bool, known: set<nat>, groups: set<nat>,
    trace: Trace, ghost rounds: seq<seq<nat>>)
    returns (known': set<nat>, groups': set<nat>, trace': Trace, running: bool, ghost selected: seq<nat>,
             ghost closest: seq<nat>)
    requires Network(nodes) && start < |nodes| && !trace.success && trace.rounds < MAX_LOOKUP_ROUNDS
    requires SearchInv(nodes, start, target, replicas, diverse, known, groups, trace, rounds)
    requires GoesOn(nodes, start, target, replicas, diverse, rounds)
    ensures IsChoice(nodes, target, known - trace.queried, diverse, ALPHA, groups, selected)
    ensures selected == [] ==> known' == known && groups' == groups && trace' == trace && !running
    ensures selected != [] ==> trace'.rounds == trace.rounds + 1 && trace'.queried == trace.queried + ToSet(selected)
    ensures LookupInv(nodes, start, replicas, diverse, known', groups', trace')
    ensures selected != [] && !trace'.success ==>
              Judged(nodes, target, known', trace'.queried, diverse, !running, closest)
    ensures trace'.success ==> !running
    ensures var rounds' := if selected == [] then rounds else rounds + [selected];
            && SearchInv(nodes, start, target, replicas, diverse, known', groups', trace', rounds')
            && (running && trace'.rounds < MAX_LOOKUP_ROUNDS ==>
                  GoesOn(nodes, start, target, replicas, diverse, rounds'))
            && (!running ==> Stops(nodes, start, target, replicas, diverse, rounds'))
  {
    hide GoesOn, Stops, IsChoice, LookupInv, Reaches, IsSearch, Judged;
    var picked;
    known', groups', trace', picked := Round(nodes, start, target, replicas, diverse, known, groups, trace);
    selected, closest := picked, [];
    if picked == [] {
      NobodyLeft(nodes, start, target, diverse, rounds);
      SpentStops(nodes, start, target, replicas, diverse, rounds);
      return known', groups', trace', false, selected, closest;
    }
    SearchExtends(nodes, start, target, diverse, rounds, selected);
    GoneOn(nodes, start, target, replicas, diverse, rounds, selected);
    ghost var rounds' := rounds + [selected];
    SuccessIsReach(nodes, start, replicas, diverse, known', groups', trace');
    if trace'.success {
      ReachStops(nodes, start, target, replicas, diverse, rounds');
      running := false;
    } else {
      var converged := LookupConverged(nodes, target, known', trace'.queried, diverse);
      closest :| Judged(nodes, target, known', trace'.queried, diverse, converged, closest);
      JudgedDecides(nodes, start, target, replicas, diverse, rounds', converged, closest);
      running := !converged;
    }
  }

  lemma {:induction false} SpentStops(
    nodes: seq<Node>, start: nat, target: nat, replicas: set<nat>, diverse: bool, rounds: seq<seq<nat>>)
    requires start < |nodes| && Spent(nodes, start, diverse, rounds)
    ensures Stops(nodes, start, target, replicas, diverse, rounds)
  {
  }

  lemma {:induction false} ReachStops(
    nodes: seq<Node>, start: nat, target: nat, replicas: set<nat>, diverse: bool, rounds: seq<seq<nat>>)
    requires start < |nodes| && Reaches(nodes, Asked(rounds), replicas)
    ensures Stops(nodes, start, target, replicas, diverse, rounds)
  {
  }

  /** In a clean network a round is always made, and unless a replica answered the search is still under way. */
  lemma {:induction false} CleanAdvance(
    nodes: seq<Node>, start: nat, target: nat, c: nat, replicas: set<nat>, known: set<nat>, groups: set<nat>,
    trace: Trace, b: nat, path: seq<nat>, rounds: seq<seq<nat>>, selected: seq<nat>,
    known': set<nat>, groups': set<nat>, trace': Trace, running: bool, closest: seq<nat>) returns (b': nat)
    requires Clean(nodes) && IsClosest(nodes, target, c) && c in replicas && !trace.success && start < |nodes|
    requires SearchInv(nodes, start, target, replicas, false, known, groups, trace, rounds)
    requires CleanState(nodes, target, c, known, trace, b, path)
    requires |path| == |rounds| && Nearing(nodes, start, target, rounds, path)
    requires IsChoice(nodes, target, known - trace.queried, false, ALPHA, groups, selected)
    requires selected != [] ==> trace'.rounds == trace.rounds + 1 && trace'.queried == trace.queried + ToSet(selected)
    requires LookupInv(nodes, start, replicas, false, known', groups', trace')
    requires selected != [] && !trace'.success ==>
               Judged(nodes, target, known', trace'.queried, false, !running, closest)
    ensures selected != [] && Nearing(nodes, start, target, rounds + [selected], path + [b])
    ensures CleanState(nodes, target, c, known', trace', b', path + [b]) && (trace'.success || running)
  {
    hide Clean, IsClosest, LookupInv, CleanState, IsChoice, IsSearch, GoesOn, Nearing;
    b' := CleanStep(
      nodes, start, target, c, replicas, known, groups, trace, b, path, selected, known', groups', trace');
    StandsNearest(nodes, target, c, known, trace, b, path);
    NearingExtends(nodes, start, target, rounds, selected, path, b);
    if !trace'.success {
      NotConverged(nodes, start, target, c, replicas, known', groups', trace', b', path + [b], closest);
    }
  }

  lemma {:induction false} SuccessIsReach(
    nodes: seq<Node>, start: nat, replicas: set<nat>, diverse: bool, known: set<nat>, groups: set<nat>, trace: Trace)
    requires LookupInv(nodes, start, replicas, diverse, known, groups, trace)
    ensures trace.success <==> Reaches(nodes, trace.queried, replicas)
  {
  }

  lemma {:induction false} GoneOn(
    nodes: seq<Node>, start: nat, target: nat, replicas: set<nat>, diverse: bool, rounds: seq<seq<nat>>, next: seq<nat>)
    requires start < |nodes| && GoesOn(nodes, start, target, replicas, diverse, rounds)
    requires forall r | 0 <= r < |rounds| :: GoesOn(nodes, start, target, replicas, diverse, rounds[..r])
    ensures forall r | 0 <= r <= |rounds| :: GoesOn(nodes, start, target, replicas, diverse, (rounds + [next])[..r])
  {
    hide GoesOn;
    forall r | 0 <= r <= |rounds| ensures GoesOn(nodes, start, target, replicas, diverse, (rounds + [next])[..r]) {
      assert (rounds + [next])[..r] == rounds[..r];
      assert rounds[..|rounds|] == rounds;
    }
  }

  lemma {:induction false} JudgedDecides(
    nodes: seq<Node>, start: nat, target: nat, replicas: set<nat>, diverse: bool, rounds: seq<seq<nat>>,
    converged: bool, closest: seq<nat>)
    requires start < |nodes| && rounds != [] && !Reaches(nodes, Asked(rounds), replicas)
    requires Judged(nodes, target, Heard(nodes, start, rounds), Asked(rounds), diverse, converged, closest)
    ensures converged ==> Stops(nodes, start, target, replicas, diverse, rounds)
    ensures !converged && |rounds| < MAX_LOOKUP_ROUNDS ==> GoesOn(nodes, start, target, replicas, diverse, rounds)
  {
    hide Reaches;
    if converged {
      assert Settled(nodes, start, target, diverse, rounds, closest);
    } else {
      assert Unsettled(nodes, start, target, diverse, rounds, closest);
    }
  }

  lemma {:induction false} StandsNearest(
    nodes: seq<Node>, target: nat, c: nat, known: set<nat>, trace: Trace, b: nat, path: seq<nat>)
    requires CleanState(nodes, target, c, known, trace, b, path) && !trace.success
    ensures IsNearestIn(nodes, target, known, b)
  {
  }

  lemma {:induction false} CleanEnds(
    nodes: seq<Node>, target: nat, c: nat, known: set<nat>, trace: Trace, b: nat, path: seq<nat>)
    requires CleanState(nodes, target, c, known, trace, b, path) && (trace.success || trace.rounds >= 64)
    ensures trace.success && |path| == trace.rounds && IsPath(nodes, c, trace.queried, path)
  {
  }

  lemma {:induction false} FirstStop(nodes: seq<Node>, start: nat, target: nat, c: nat) returns (b: nat)
    requires Clean(nodes) && IsClosest(nodes, target, c) && start < |nodes|
    ensures b < |nodes| && IsNearestIn(nodes, target, ToSet(nodes[start].routing), b) && OnTrack(nodes, c, b, 0)
  {
    var ids := Ids(nodes);
    var other := if start == 0 then 1 else 0;
    assert Answers(nodes, start) && IsTable(ids, start, nodes[start].routing);
    assert Represented(ids, start, nodes[start].routing, other);
    var y :| y in nodes[start].routing && InBucket(ids, start, Bucket(ids, start, other), y);
    assert y in ToSet(nodes[start].routing);
    b := NearestExists(nodes, target, ToSet(nodes[start].routing));
    assert b in nodes[start].routing;
    StartOnTrack(nodes, target, c, start, b);
  }

  /** With distinct identifiers exactly one node is closest to any target. */
  lemma {:induction false} ClosestNodeExists(nodes: seq<Node>, target: nat) returns (c: nat)
    requires nodes != [] && Distinct(Ids(nodes))
    ensures IsClosest(nodes, target, c)
  {
    assert 0 in AllOf(nodes);
    c := NearestExists(nodes, target, AllOf(nodes));
    forall x: nat | x < |nodes| && x != c ensures Dist(nodes, target, c) < Dist(nodes, target, x) {
      assert x in AllOf(nodes) && Ids(nodes)[x] != Ids(nodes)[c];
      if Xor(nodes[x].id, target) == Xor(nodes[c].id, target) {
        XorInjective(nodes[x].id, nodes[c].id, target);
      }
    }
  }

  /**
   * Build the tables, place the record, look it up: in a network of at least two live, honest nodes
   * with distinct identifiers the lookup succeeds from every start, for every target and replica count.
   */
  method CleanNetworkFinds(nodes: array<Node>, start: nat, target: nat, replicaCount: nat) returns (trace: Trace)
    requires nodes.Length >= 2 && start < nodes.Length && replicaCount > 0
    requires Words(Ids(nodes[..])) && Distinct(Ids(nodes[..]))
    requires forall i | 0 <= i < nodes.Length :: !nodes[i].failed && !nodes[i].malicious
    modifies nodes
    ensures trace.success && trace.rounds <= MAX_LOOKUP_ROUNDS
  {
    ghost var before := nodes[..];
    BuildRoutingTables(nodes);
    var network := nodes[..];
    assert Ids(network) == Ids(before);
    assert Clean(network) && Network(network);
    hide Clean, Network;
    ghost var c := ClosestNodeExists(network, target);
    var replicas, chosen := SelectReplicas(network, target, false, replicaCount);
    ghost var rounds, path;
    trace, rounds, path := RouteLookup(network, start, target, replicas, false, c);
  }
}
