/** Route assignments over whole runs: conserved, delivered in order and at most once, distinctly named. */
module RegistryRoutes {
  import opened Prelude
  import opened BigEndian
  import opened ByteOrder
  import opened Content
  import opened ExactTopic
  import opened WireRecords
  import opened WireLists
  import opened Registry
  import opened RegistryInvariant
  import opened RegistryEffects
  import opened RegistryRuns
  import Ask = WireRequests
  import Answer = WireResponses

  type Routes = seq<RouteAssignment>

  // ----- Order-preserving sublists -----

  ghost predicate Sub(a: Routes, b: Routes) {
    a == [] || (b != [] && ((a[0] == b[0] && Sub(a[1..], b[1..])) || Sub(a, b[1..])))
  }

  lemma {:induction false} SubSelf(a: Routes)
    ensures Sub(a, a)
  {
    if a != [] {
      SubSelf(a[1..]);
    }
  }

  lemma {:induction false} SubTail(a: Routes, b: Routes)
    requires a != [] && Sub(a, b)
    ensures Sub(a[1..], b)
  {
    if a[0] == b[0] && Sub(a[1..], b[1..]) {
      if |a| > 1 {
        assert Sub(a[1..], b[1..]);
      }
    } else {
      SubTail(a, b[1..]);
    }
  }

  lemma {:induction false} SubTransitive(a: Routes, b: Routes, c: Routes)
    requires Sub(a, b) && Sub(b, c)
    ensures Sub(a, c)
    decreases |b| + |c|
  {
    if a != [] {
      if b[0] == c[0] && Sub(b[1..], c[1..]) {
        if a[0] == b[0] && Sub(a[1..], b[1..]) {
          SubTransitive(a[1..], b[1..], c[1..]);
        } else {
          SubTransitive(a, b[1..], c[1..]);
        }
      } else {
        SubTransitive(a, b, c[1..]);
      }
    }
  }

  lemma {:induction false} SubAfter(x: Routes, a: Routes, b: Routes)
    requires Sub(a, b)
    ensures Sub(x + a, x + b)
  {
    if x == [] {
      assert x + a == a && x + b == b;
    } else {
      SubAfter(x[1..], a, b);
      assert (x + a)[1..] == x[1..] + a && (x + b)[1..] == x[1..] + b;
    }
  }

  lemma {:induction false} SubBefore(a: Routes, b: Routes, y: Routes)
    requires Sub(a, b)
    ensures Sub(a + y, b + y)
    decreases |b|
  {
    if a == [] {
      assert a + y == y;
      SubSuffix(b, y);
    } else {
      assert (a + y)[1..] == a[1..] + y && (b + y)[1..] == b[1..] + y;
      if a[0] == b[0] && Sub(a[1..], b[1..]) {
        SubBefore(a[1..], b[1..], y);
      } else {
        SubBefore(a, b[1..], y);
      }
    }
  }

  lemma {:induction false} SubSuffix(b: Routes, y: Routes)
    ensures Sub(y, b + y)
  {
    if b == [] {
      assert b + y == y;
      SubSelf(y);
    } else {
      assert (b + y)[1..] == b[1..] + y;
      SubSuffix(b[1..], y);
    }
  }

  // ----- A provider's share -----

  ghost function Of(routes: Routes, id: seq<Byte>): Routes {
    if routes == [] then []
    else if routes[0].providerId == id then [routes[0]] + Of(routes[1..], id)
    else Of(routes[1..], id)
  }

  lemma {:induction false} OfConcat(a: Routes, b: Routes, id: seq<Byte>)
    ensures Of(a + b, id) == Of(a, id) + Of(b, id)
  {
    if a == [] {
      assert a + b == b;
    } else {
      assert (a + b)[1..] == a[1..] + b;
      OfConcat(a[1..], b, id);
    }
  }

  ghost function Waiting(q: seq<Queued>): Routes {
    seq(|q|, i requires 0 <= i < |q| => q[i].assignment)
  }

  lemma {:induction false} WaitingTail(q: seq<Queued>)
    requires q != []
    ensures Waiting(q) == [q[0].assignment] + Waiting(q[1..])
  {
  }

  lemma {:induction false} FreshIsSub(q: seq<Queued>, now: nat, relays: Relays)
    ensures Sub(Waiting(FreshQueue(q, now, relays)), Waiting(q))
  {
    if q != [] {
      FreshIsSub(q[1..], now, relays);
      WaitingTail(q);
      assert Waiting(q)[1..] == Waiting(q[1..]);
      if Usable(q[0], now, relays) {
        var f := FreshQueue(q, now, relays);
        WaitingTail(f);
        assert f[1..] == FreshQueue(q[1..], now, relays) && Waiting(f)[1..] == Waiting(f[1..]);
      }
    }
  }

  lemma {:induction false} WithoutIsSub(q: seq<Queued>, k: seq<Byte>)
    ensures Sub(Waiting(WithoutRelay(q, k)), Waiting(q))
  {
    if q != [] {
      WithoutIsSub(q[1..], k);
      WaitingTail(q);
      assert Waiting(q)[1..] == Waiting(q[1..]);
      if q[0].assignment.relayId != k {
        var f := WithoutRelay(q, k);
        WaitingTail(f);
        assert f[1..] == WithoutRelay(q[1..], k) && Waiting(f)[1..] == Waiting(f[1..]);
      }
    }
  }

  lemma {:induction false} TotalPut(qs: Queues, id: seq<Byte>, q: seq<Queued>)
    requires Sorted(qs)
    ensures Total(Put(qs, id, q)) == Total(qs) - |QueueOf(qs, id)| + |q|
  {
    if qs != [] {
      SortedTail(qs);
      if qs[0].key == id {
        assert Put(qs, id, q)[1..] == qs[1..];
      } else if Less(id, qs[0].key) {
        assert Put(qs, id, q)[1..] == qs;
        BeforeAll(qs, id);
      } else {
        TotalPut(qs[1..], id, q);
        assert Put(qs, id, q)[1..] == Put(qs[1..], id, q);
      }
    } else {
      assert [Item(id, q)][1..] == [];
    }
  }

  // ----- What a run has created, delivered and dropped, as its answers show it -----

  function NewRoutes(p: Answer.OverlayResponse): Routes {
    match p
    case Route(Some(a)) => [a]
    case Routes(routes) => routes
    case _ => []
  }

  function Delivered(p: Answer.OverlayResponse): Routes {
    match p
    case Assignment(Some(a)) => [a]
    case _ => []
  }

  function Created(lib: Library, c: Config, events: seq<Event>): Routes {
    if events == [] then []
    else
      var front, last := events[..|events| - 1], events[|events| - 1];
      Created(lib, c, front)
      + if last.Sweep? then [] else NewRoutes(Handle(lib, c, After(lib, c, front), last.now, last.q).1)
  }

  function Polled(lib: Library, c: Config, events: seq<Event>): Routes {
    if events == [] then []
    else
      var front, last := events[..|events| - 1], events[|events| - 1];
      Polled(lib, c, front)
      + if last.Sweep? then [] else Delivered(Handle(lib, c, After(lib, c, front), last.now, last.q).1)
  }

  /** Assignments thrown away because their relay was reported. */
  function DroppedBy(s: State, q: Ask.OverlayRequest): int {
    if q.ReportRelayFailure? then Total(s.queues) - Total(WithoutRelays(s.queues, q.relayId)) else 0
  }

  function Dropped(lib: Library, c: Config, events: seq<Event>): int {
    if events == [] then 0
    else
      var front, last := events[..|events| - 1], events[|events| - 1];
      Dropped(lib, c, front) + if last.Sweep? then 0 else DroppedBy(After(lib, c, front), last.q)
  }

  // ----- The invariant -----

  ghost predicate Conserved(s: State, created: Routes, polled: Routes, dropped: int) {
    |created| == |polled| + s.expiredRoutes + dropped + Total(s.queues)
  }

  /** What the provider has been given, then what waits for it, in the order of creation. */
  ghost predicate InTurn(queues: Queues, created: Routes, polled: Routes, id: seq<Byte>) {
    Sub(Of(polled, id) + Waiting(QueueOf(queues, id)), Of(created, id))
  }

  ghost predicate AllInTurn(queues: Queues, created: Routes, polled: Routes) {
    forall id :: InTurn(queues, created, polled, id)
  }

  const ROUTES: nat := U64_MAX + 1

  ghost predicate Numbered(a: RouteAssignment, n: nat) {
    exists prefix :: IsPrefix(prefix) && a.route == RouteName(prefix, n)
  }

  ghost predicate AllNumbered(s: State, created: Routes) {
    && s.nextRoute == |created| % ROUTES
    && forall i | 0 <= i < |created| :: Numbered(created[i], (i + 1) % ROUTES)
  }

  ghost predicate Track(s: State, created: Routes, polled: Routes, dropped: int) {
    Conserved(s, created, polled, dropped) && AllInTurn(s.queues, created, polled) && AllNumbered(s, created)
  }

  // ----- Each kind of change -----

  /** Queues may lose entries as long as the rest keep their order. */
  lemma {:induction false} ShrinkInTurn(queues: Queues, queues': Queues, created: Routes, polled: Routes)
    requires AllInTurn(queues, created, polled)
    requires forall id :: Sub(Waiting(QueueOf(queues', id)), Waiting(QueueOf(queues, id)))
    ensures AllInTurn(queues', created, polled)
  {
    hide Sub, Of, QueueOf;
    forall id ensures InTurn(queues', created, polled, id) {
      assert InTurn(queues, created, polled, id);
      SubAfter(Of(polled, id), Waiting(QueueOf(queues', id)), Waiting(QueueOf(queues, id)));
      SubTransitive(
        Of(polled, id) + Waiting(QueueOf(queues', id)), Of(polled, id) + Waiting(QueueOf(queues, id)), Of(created, id));
    }
  }

  lemma {:induction false} PurgeTrack(s: State, now: nat, created: Routes, polled: Routes, dropped: int)
    requires Track(s, created, polled, dropped) && Sorted(s.queues)
    ensures Track(Purged(s, now), created, polled, dropped)
  {
    var peers, relays := Unexpired(s.peers, now), Unexpired(s.relays, now);
    FreshQueuesMembers(s.queues, now, peers, relays);
    forall id
      ensures Sub(Waiting(QueueOf(FreshQueues(s.queues, now, peers, relays), id)), Waiting(QueueOf(s.queues, id)))
    {
      QueueOfFresh(s.queues, now, peers, relays, id);
      FreshIsSub(QueueOf(s.queues, id), now, relays);
    }
    hide Unexpired, FreshQueues, Total, QueueOf, Sub, AllInTurn;
    ShrinkInTurn(s.queues, FreshQueues(s.queues, now, peers, relays), created, polled);
  }

  lemma {:induction false} ReportTrack(s: State, k: seq<Byte>, created: Routes, polled: Routes, dropped: int)
    requires Track(s, created, polled, dropped)
    ensures Track(ReportFailure(s, k), created, polled, dropped + Total(s.queues) - Total(WithoutRelays(s.queues, k)))
  {
    forall id ensures Sub(Waiting(QueueOf(WithoutRelays(s.queues, k), id)), Waiting(QueueOf(s.queues, id))) {
      QueueOfWithout(s.queues, k, id);
      WithoutIsSub(QueueOf(s.queues, id), k);
    }
    hide Total, QueueOf, Sub, AllInTurn, WithoutRelays;
    ShrinkInTurn(s.queues, WithoutRelays(s.queues, k), created, polled);
  }

  lemma {:induction false} AppendInTurn(queues: Queues, created: Routes, polled: Routes, queued: Queued, id: seq<Byte>)
    requires Sorted(queues) && AllInTurn(queues, created, polled) && queued.assignment.providerId == id
    ensures AllInTurn(Put(queues, id, QueueOf(queues, id) + [queued]), created + [queued.assignment], polled)
  {
    hide Sub, Put, QueueOf;
    var a, q := queued.assignment, QueueOf(queues, id);
    var queues' := Put(queues, id, q + [queued]);
    forall j ensures InTurn(queues', created + [a], polled, j) {
      assert InTurn(queues, created, polled, j);
      QueueOfPut(queues, id, q + [queued], j);
      OfConcat(created, [a], j);
      OfOne(a, j);
      hide Of;
      if j == id {
        assert Waiting(q + [queued]) == Waiting(q) + [a];
        SubBefore(Of(polled, j) + Waiting(q), Of(created, j), [a]);
        assert Of(polled, j) + Waiting(q) + [a] == Of(polled, j) + (Waiting(q) + [a]);
      } else {
        assert Of(created, j) + [] == Of(created, j);
      }
    }
  }

  lemma {:induction false} OfOne(a: RouteAssignment, id: seq<Byte>)
    ensures Of([a], id) == if a.providerId == id then [a] else []
  {
    assert [a][1..] == [];
  }

  lemma {:induction false} NumberedAppend(s: State, t: State, created: Routes, a: RouteAssignment, prefix: seq<Byte>)
    requires AllNumbered(s, created) && t.nextRoute == (s.nextRoute + 1) % ROUTES
    requires IsPrefix(prefix) && a.route == RouteName(prefix, t.nextRoute)
    ensures AllNumbered(t, created + [a])
  {
    hide RouteName, IsPrefix;
    assert Numbered(a, t.nextRoute);
    assert t.nextRoute == (|created| + 1) % ROUTES;
  }

  lemma {:induction false} QueueTrack(
    c: Config, s: State, now: nat, provider: PeerAdvertisement, relay: RelayAdvertisement, prefix: seq<Byte>,
    created: Routes, polled: Routes, dropped: int)
    requires Track(s, created, polled, dropped) && Sorted(s.queues) && IsPrefix(prefix)
    ensures var (t, a) := QueueAssignment(c, s, now, provider, relay, prefix);
            Sorted(t.queues) && Track(t, created + (if a.Some? then [a.value] else []), polled, dropped)
  {
    var (t, a) := QueueAssignment(c, s, now, provider, relay, prefix);
    var id, q := provider.peerId, QueueOf(s.queues, provider.peerId);
    if a.Some? {
      var queued := Queued(a.value, SaturatingAdd(now, c.leaseMs));
      PutSorted(s.queues, id, q + [queued]);
      TotalPut(s.queues, id, q + [queued]);
      AppendInTurn(s.queues, created, polled, queued, id);
      NumberedAppend(s, t, created, a.value, prefix);
      hide *;
      TrackOf(s, t, created, created + [a.value], polled, dropped, q, queued);
    } else {
      PutSorted(s.queues, id, q);
      TotalPut(s.queues, id, q);
      SameInTurn(s.queues, id, created, polled);
      assert created + [] == created;
    }
  }

  /** One assignment more, created and waiting. */
  lemma {:induction false} TrackOf(
    s: State, t: State, created: Routes, created': Routes, polled: Routes, dropped: int, q: seq<Queued>, queued: Queued)
    requires Conserved(s, created, polled, dropped) && |created'| == |created| + 1
    requires t.expiredRoutes == s.expiredRoutes && Total(t.queues) == Total(s.queues) - |q| + |q + [queued]|
    requires AllInTurn(t.queues, created', polled) && AllNumbered(t, created')
    ensures Track(t, created', polled, dropped)
  {
  }

  lemma {:induction false} SameInTurn(queues: Queues, id: seq<Byte>, created: Routes, polled: Routes)
    requires Sorted(queues) && AllInTurn(queues, created, polled)
    ensures AllInTurn(Put(queues, id, QueueOf(queues, id)), created, polled)
  {
    hide Sub, Of, Put, QueueOf;
    forall j ensures InTurn(Put(queues, id, QueueOf(queues, id)), created, polled, j) {
      assert InTurn(queues, created, polled, j);
      QueueOfPut(queues, id, QueueOf(queues, id), j);
    }
  }

  lemma {:induction false} QueueAllTrack(
    c: Config, s: State, now: nat, providers: seq<PeerAdvertisement>, relays: Relays, index: nat,
    created: Routes, polled: Routes, dropped: int)
    requires relays != [] && index <= |providers| && Track(s, created, polled, dropped) && Sorted(s.queues)
    ensures var (t, routes) := QueueAll(c, s, now, providers, relays, index);
            Track(t, created + routes, polled, dropped)
    decreases |providers| - index
  {
    hide Track, QueueAssignment;
    if index < |providers| {
      var relay := relays[index % |relays|].value.advertisement;
      PrefixOk();
      QueueTrack(c, s, now, providers[index], relay, Ascii("m4"), created, polled, dropped);
      var (t, a) := QueueAssignment(c, s, now, providers[index], relay, Ascii("m4"));
      var one := if a.Some? then [a.value] else [];
      QueueAllTrack(c, t, now, providers, relays, index + 1, created + one, polled, dropped);
      var rest := QueueAll(c, t, now, providers, relays, index + 1).1;
      assert created + one + rest == created + (one + rest);
      assert [] + rest == rest;
    } else {
      assert created + [] == created;
    }
  }

  lemma {:induction false} DeliverInTurn(queues: Queues, id: seq<Byte>, created: Routes, polled: Routes)
    requires Sorted(queues) && AllInTurn(queues, created, polled) && QueueOf(queues, id) != []
    requires QueueOf(queues, id)[0].assignment.providerId == id
    ensures var q := QueueOf(queues, id);
            AllInTurn(Put(queues, id, q[1..]), created, polled + [q[0].assignment])
  {
    hide Sub, Put, QueueOf;
    var q := QueueOf(queues, id);
    var a := q[0].assignment;
    forall j ensures InTurn(Put(queues, id, q[1..]), created, polled + [a], j) {
      assert InTurn(queues, created, polled, j);
      QueueOfPut(queues, id, q[1..], j);
      OfConcat(polled, [a], j);
      OfOne(a, j);
      hide Of;
      if j == id {
        WaitingTail(q);
        assert Of(polled, j) + [a] + Waiting(q[1..]) == Of(polled, j) + ([a] + Waiting(q[1..]));
      } else {
        assert Of(polled, j) + [] == Of(polled, j);
      }
    }
  }

  /** Right after a purge nothing in a queue is stale, so a poll takes the head and discards nothing. */
  lemma {:induction false} PollTakesHead(q: seq<Queued>, now: nat, relays: Relays)
    requires forall e | e in q :: Usable(e, now, relays)
    ensures NextUsable(q, now, relays) == if q == [] then ([], None) else (q[1..], Some(q[0].assignment))
  {
    if q != [] {
      assert q[0] in q;
    }
  }

  lemma {:induction false} PurgedIsUsable(s: State, now: nat, id: seq<Byte>)
    requires Sorted(s.queues)
    ensures forall e | e in QueueOf(Purged(s, now).queues, id) :: Usable(e, now, Purged(s, now).relays)
  {
    var peers, relays := Unexpired(s.peers, now), Unexpired(s.relays, now);
    QueueOfFresh(s.queues, now, peers, relays, id);
    FreshQueueMembers(QueueOf(s.queues, id), now, relays);
  }

  lemma {:induction false} HeartbeatTrack(
    c: Config, s: State, now: nat, id: seq<Byte>, created: Routes, polled: Routes, dropped: int)
    requires Track(s, created, polled, dropped) && Sorted(s.queues)
    ensures Track(HeartbeatPeer(c, s, now, id).0, created, polled, dropped)
  {
    PurgeTrack(s, now, created, polled, dropped);
    hide Purged, AllInTurn, Total;
  }

  lemma {:induction false} PollTrack(
    lib: Library, c: Config, s: State, now: nat, id: seq<Byte>, created: Routes, polled: Routes, dropped: int)
    requires Inv(lib, c, s) && Track(s, created, polled, dropped)
    ensures var (t, a) := PollPeer(c, s, now, id);
            Track(t, created, polled + Delivered(Answer.Assignment(a)), dropped)
  {
    HeartbeatTrack(c, s, now, id, created, polled, dropped);
    HeartbeatPeerInv(lib, c, s, now, id);
    PurgedIsUsable(s, now, id);
    var (t, live) := HeartbeatPeer(c, s, now, id);
    assert t.queues == Purged(s, now).queues && t.relays == Purged(s, now).relays;
    assert polled + [] == polled;
    hide Purged, HeartbeatPeer, AllInTurn, PeersOk, RelaysOk, Answer.ValidAssignment, Answer.TextTyped, NextUsable;
    if live && Has(t.queues, id) {
      var q := QueueOf(t.queues, id);
      QueueOfOk(lib, c, t, id);
      PollTakesHead(q, now, t.relays);
      if q != [] {
        assert q[0] in q;
        DeliverInTurn(t.queues, id, created, polled);
        TotalPut(t.queues, id, q[1..]);
      } else {
        SameInTurn(t.queues, id, created, polled);
        TotalPut(t.queues, id, q);
      }
    }
  }

  // ----- Every request, every run -----

  lemma {:induction false} DiscoverTrack(
    c: Config, s: State, now: nat, contentId: Digest, created: Routes, polled: Routes, dropped: int)
    requires Track(s, created, polled, dropped) && Sorted(s.queues)
    ensures var (t, a) := Discover(c, s, now, contentId);
            Track(t, created + NewRoutes(Answer.Route(a)), polled, dropped)
  {
    var t := Purged(s, now);
    PurgeTrack(s, now, created, polled, dropped);
    FreshQueuesSorted(s.queues, now, t.peers, t.relays);
    assert created + [] == created;
    PrefixOk();
    hide Track, QueueAssignment, FreshQueues, Unexpired, Total, IsPrefix;
    var provider := FirstWith(t.peers, contentId);
    if provider.Some? && t.relays != [] {
      QueueTrack(c, t, now, provider.value, t.relays[0].value.advertisement, Ascii("m2"), created, polled, dropped);
    }
  }

  lemma {:induction false} DiscoverProvidersTrack(
    c: Config, s: State, now: nat, contentId: Digest, limit: nat, created: Routes, polled: Routes, dropped: int)
    requires Track(s, created, polled, dropped) && Sorted(s.queues)
    ensures var (t, routes) := DiscoverProviders(c, s, now, contentId, limit);
            Track(t, created + routes, polled, dropped)
  {
    var t := Purged(s, now);
    PurgeTrack(s, now, created, polled, dropped);
    FreshQueuesSorted(s.queues, now, t.peers, t.relays);
    assert created + [] == created;
    hide Track, QueueAll, FreshQueues, Unexpired, Total;
    if t.relays != [] {
      QueueAllTrack(c, t, now, SwarmProviders(t.peers, contentId, limit), t.relays, 0, created, polled, dropped);
    }
  }

  /** Registrations and heartbeats touch no queue beyond the purge. */
  lemma {:induction false} LeaseTrack(
    lib: Library, c: Config, s: State, now: nat, q: Ask.OverlayRequest, created: Routes, polled: Routes, dropped: int)
    requires Track(s, created, polled, dropped) && Sorted(s.queues)
    requires q.RegisterPeer? || q.HeartbeatPeer? || q.RegisterRelay? || q.HeartbeatRelay? || q.Health?
    ensures Track(Handle(lib, c, s, now, q).0, created, polled, dropped)
    ensures NewRoutes(Handle(lib, c, s, now, q).1) == [] && Delivered(Handle(lib, c, s, now, q).1) == []
  {
    PurgeTrack(s, now, created, polled, dropped);
    hide Purged, AllInTurn, Total, CheckPeer, CheckRelay;
  }

  lemma {:induction false} PollRequestTrack(
    lib: Library, c: Config, s: State, now: nat, id: Digest, created: Routes, polled: Routes, dropped: int)
    requires Inv(lib, c, s) && Track(s, created, polled, dropped)
    ensures var (t, p) := Handle(lib, c, s, now, Ask.PollPeer(id));
            NewRoutes(p) == [] && Track(t, created, polled + Delivered(p), dropped)
  {
    hide HeartbeatPeer, PollPeer, Track, Inv;
    assert polled + [] == polled;
    InvQueues(lib, c, s);
    HeartbeatTrack(c, s, now, id, created, polled, dropped);
    HeartbeatPeerInv(lib, c, s, now, id);
    PollTrack(lib, c, HeartbeatPeer(c, s, now, id).0, now, id, created, polled, dropped);
  }

  lemma {:induction false} InvQueues(lib: Library, c: Config, s: State)
    requires Inv(lib, c, s)
    ensures Sorted(s.queues)
  {
    hide PeersOk, RelaysOk, QueueOk;
  }

  lemma {:induction false} HandleTrack(
    lib: Library, c: Config, s: State, now: nat, q: Ask.OverlayRequest, created: Routes, polled: Routes, dropped: int)
    requires Inv(lib, c, s) && Track(s, created, polled, dropped)
    ensures var (t, p) := Handle(lib, c, s, now, q);
            Track(t, created + NewRoutes(p), polled + Delivered(p), dropped + DroppedBy(s, q))
  {
    assert created + [] == created && polled + [] == polled;
    InvQueues(lib, c, s);
    hide Inv;
    match q {
      case PollPeer(id) =>
        hide Handle, Track;
        PollRequestTrack(lib, c, s, now, id, created, polled, dropped);
      case Discover(contentId) =>
        hide Discover, Track;
        DiscoverTrack(c, s, now, contentId, created, polled, dropped);
      case DiscoverProviders(query) =>
        hide DiscoverProviders, Track;
        DiscoverProvidersTrack(c, s, now, query.contentId, Min(query.limit, 16), created, polled, dropped);
      case ReportRelayFailure(id) =>
        hide ReportFailure, Track, WithoutRelays, Total;
        ReportTrack(s, id, created, polled, dropped);
      case _ =>
        hide Handle, Track;
        LeaseTrack(lib, c, s, now, q, created, polled, dropped);
    }
  }

  lemma {:induction false} RunTrack(lib: Library, c: Config, events: seq<Event>)
    requires AllDecoded(lib, events) && c.leaseMs <= U64_MAX
    ensures Track(After(lib, c, events), Created(lib, c, events), Polled(lib, c, events), Dropped(lib, c, events))
  {
    hide Handle, Ask.Valid, Purged;
    if events == [] {
      assert forall id :: InTurn([], [], [], id);
    } else {
      var front, last := events[..|events| - 1], events[|events| - 1];
      RunTrack(lib, c, front);
      RunInv(lib, c, front);
      var s := After(lib, c, front);
      var created, polled, dropped := Created(lib, c, front), Polled(lib, c, front), Dropped(lib, c, front);
      hide Track, PeersOk, RelaysOk;
      match last {
        case Sweep(now) =>
          PurgeTrack(s, now, created, polled, dropped);
          assert created + [] == created && polled + [] == polled;
        case Request(now, q) => HandleTrack(lib, c, s, now, q, created, polled, dropped);
      }
    }
  }

  // ----- Distinct names, and delivery at most once -----

  lemma {:induction false} RouteNameTells(p: seq<Byte>, m: nat, q: seq<Byte>, n: nat)
    requires IsPrefix(p) && IsPrefix(q) && m < ROUTES && n < ROUTES && RouteName(p, m) == RouteName(q, n)
    ensures m == n
  {
    var x, y := HexEncode(Bytes(m, 8)), HexEncode(Bytes(n, 8));
    assert RouteName(p, m)[3..] == x && RouteName(q, n)[3..] == y;
    HexInjective(Bytes(m, 8), Bytes(n, 8));
    Widths();
    ValueOfBytes(m, 8);
    ValueOfBytes(n, 8);
  }

  ghost predicate Distinct(routes: Routes) {
    forall i, j | 0 <= i < j < |routes| :: routes[i] != routes[j]
  }

  /** Until the counter has gone round, no two assignments share a route name. */
  lemma {:induction false} CreatedDistinct(lib: Library, c: Config, events: seq<Event>)
    requires AllDecoded(lib, events) && c.leaseMs <= U64_MAX && |Created(lib, c, events)| <= ROUTES
    ensures var created := Created(lib, c, events);
            forall i, j | 0 <= i < j < |created| :: created[i].route != created[j].route
  {
    var created := Created(lib, c, events);
    RunTrack(lib, c, events);
    hide After, Created, Polled, Dropped, RouteName, IsPrefix, Conserved, AllInTurn, Ask.Valid;
    forall i, j | 0 <= i < j < |created| ensures created[i].route != created[j].route {
      assert Numbered(created[i], (i + 1) % ROUTES) && Numbered(created[j], (j + 1) % ROUTES);
      NamesDiffer(created[i], created[j], i, j);
    }
  }

  lemma {:induction false} NamesDiffer(a: RouteAssignment, b: RouteAssignment, i: nat, j: nat)
    requires i < j < ROUTES && Numbered(a, (i + 1) % ROUTES) && Numbered(b, (j + 1) % ROUTES)
    ensures a.route != b.route
  {
    hide RouteName, IsPrefix;
    var p :| IsPrefix(p) && a.route == RouteName(p, (i + 1) % ROUTES);
    var q :| IsPrefix(q) && b.route == RouteName(q, (j + 1) % ROUTES);
    if a.route == b.route {
      RouteNameTells(p, (i + 1) % ROUTES, q, (j + 1) % ROUTES);
    }
  }

  lemma {:induction false} SubMembers(a: Routes, b: Routes)
    requires Sub(a, b)
    ensures forall x | x in a :: x in b
  {
    if a != [] {
      if a[0] == b[0] && Sub(a[1..], b[1..]) {
        SubMembers(a[1..], b[1..]);
        assert a == [a[0]] + a[1..] && b == [b[0]] + b[1..];
      } else {
        SubMembers(a, b[1..]);
      }
    }
  }

  lemma {:induction false} SubDistinct(a: Routes, b: Routes)
    requires Sub(a, b) && Distinct(b)
    ensures Distinct(a)
  {
    if a != [] {
      assert Distinct(b[1..]);
      if a[0] == b[0] && Sub(a[1..], b[1..]) {
        SubDistinct(a[1..], b[1..]);
        SubMembers(a[1..], b[1..]);
        forall i, j | 0 <= i < j < |a| ensures a[i] != a[j] {
          if i == 0 {
            assert a[j] == a[1..][j - 1] && a[j] in b[1..];
          } else {
            assert a[i] == a[1..][i - 1] && a[j] == a[1..][j - 1];
          }
        }
      } else {
        SubDistinct(a, b[1..]);
      }
    }
  }

  lemma {:induction false} OfIsSub(routes: Routes, id: seq<Byte>)
    ensures Sub(Of(routes, id), routes)
  {
    if routes != [] {
      OfIsSub(routes[1..], id);
      assert routes[0].providerId == id ==> Of(routes, id)[1..] == Of(routes[1..], id);
    }
  }

  /**
   * In every run: assignments are conserved; each provider's deliveries are, in order, some of the
   * assignments created for it; and none of them is delivered twice.
   */
  lemma {:induction false} RoutesDelivered(lib: Library, c: Config, events: seq<Event>, id: seq<Byte>)
    requires AllDecoded(lib, events) && c.leaseMs <= U64_MAX
    ensures var s := After(lib, c, events);
            |Created(lib, c, events)| ==
            |Polled(lib, c, events)| + s.expiredRoutes + Dropped(lib, c, events) + Total(s.queues)
    ensures Sub(Of(Polled(lib, c, events), id), Of(Created(lib, c, events), id))
    ensures |Created(lib, c, events)| <= ROUTES ==> Distinct(Of(Polled(lib, c, events), id))
  {
    var s, created, polled := After(lib, c, events), Created(lib, c, events), Polled(lib, c, events);
    RunTrack(lib, c, events);
    hide After, Created, Polled, Dropped, Ask.Valid;
    assert InTurn(s.queues, created, polled, id);
    var waiting := Waiting(QueueOf(s.queues, id));
    SubSuffixFree(Of(polled, id), waiting);
    SubTransitive(Of(polled, id), Of(polled, id) + waiting, Of(created, id));
    if |created| <= ROUTES {
      CreatedDistinct(lib, c, events);
      assert Distinct(created);
      OfIsSub(created, id);
      SubDistinct(Of(created, id), created);
      SubDistinct(Of(polled, id), Of(created, id));
    }
  }

  lemma {:induction false} SubSuffixFree(a: Routes, y: Routes)
    ensures Sub(a, a + y)
  {
    if a != [] {
      SubSuffixFree(a[1..], y);
      assert (a + y)[1..] == a[1..] + y;
    }
  }
}
