/** What the registry answers to each request, in terms of the leases and queues that could be looked up before. */
module RegistryAnswers {
  import opened Prelude
  import opened ByteOrder
  import opened Content
  import opened WireRecords
  import opened WireLists
  import opened Registry
  import opened RegistryInvariant
  import opened RegistryEffects
  import Ask = WireRequests
  import Answer = WireResponses

  // ----- Polling -----

  /** What a purge leaves in a provider's queue. */
  ghost function Left(s: State, k: seq<Byte>, now: nat): seq<Queued> {
    if LiveIn(s.peers, k, now) then Usables(QueueOf(s.queues, k), now, s.relays) else []
  }

  /** A live provider gets the first usable assignment of its queue, which is then the rest; nothing else changes. */
  ghost predicate PollEffect(s: State, t: State, now: nat, leaseMs: nat, id: seq<Byte>, a: Option<RouteAssignment>) {
    && (a.Some? <==> Left(s, id, now) != []) && (a.Some? ==> a.value == Left(s, id, now)[0].assignment)
    && HeartbeatEffect(s.peers, t.peers, now, leaseMs, id, LiveIn(s.peers, id, now))
    && OnlyLive(s.relays, t.relays, now) && t.nextRoute == s.nextRoute
    && forall k :: QueueOf(t.queues, k) == if k == id && a.Some? then Left(s, k, now)[1..] else Left(s, k, now)
  }

  lemma {:induction false} UsablesAreUsable(q: seq<Queued>, now: nat, before: Relays, relays: Relays)
    requires OnlyLive(before, relays, now)
    ensures forall e | e in Usables(q, now, before) :: Usable(e, now, relays)
  {
    if q != [] {
      UsablesAreUsable(q[1..], now, before, relays);
      hide Get;
    }
  }

  lemma {:induction false} HeadIsNext(q: seq<Queued>, now: nat, relays: Relays)
    requires forall e | e in q :: Usable(e, now, relays)
    ensures NextUsable(q, now, relays) == if q == [] then ([], None) else (q[1..], Some(q[0].assignment))
  {
  }

  lemma {:induction false} PollDoes(c: Config, s: State, now: nat, id: seq<Byte>)
    requires Ordered(s)
    ensures var (t, a) := PollPeer(c, s, now, id);
            PollEffect(s, t, now, c.leaseMs, id, a) && Ordered(t)
  {
    HeartbeatPeerDoes(c, s, now, id);
    PollOrdered(c, s, now, id);
    var (t, live) := HeartbeatPeer(c, s, now, id);
    var q := QueueOf(t.queues, id);
    UsablesAreUsable(QueueOf(s.queues, id), now, s.relays, t.relays);
    assert q == Left(s, id, now);
    HeadIsNext(q, now, t.relays);
    QueuesAfterPut(t.queues, id, NextUsable(q, now, t.relays).0);
    assert !Has(t.queues, id) ==> q == [];
    hide HeartbeatPeer, Usables, NextUsable, Put, QueueOf, OnlyLive, LiveIn, Has, OnlyLiveAnd;
  }

  // ----- Discovering several providers -----

  /** The first `limit` swarm peers with the content, in key order. */
  ghost predicate FirstProviders(peers: Peers, contentId: Digest, limit: nat, found: seq<PeerAdvertisement>) {
    && |found| <= limit
    && (forall i, j | 0 <= i < j < |found| :: Less(found[i].peerId, found[j].peerId))
    && (forall ad | ad in found :: IsSwarmProvider(ad, contentId) && Advertised(peers, ad))
    && forall x | x in peers && IsSwarmProvider(x.value.advertisement, contentId) ::
         x.value.advertisement in found || (|found| == limit && AllBefore(found, x.key))
  }

  ghost predicate Advertised(peers: Peers, ad: PeerAdvertisement) {
    exists x :: x in peers && x.value.advertisement == ad
  }

  ghost predicate AllBefore(found: seq<PeerAdvertisement>, id: seq<Byte>) {
    forall ad | ad in found :: Less(ad.peerId, id)
  }

  lemma {:induction false} AdvertisedLater(peers: Peers, ad: PeerAdvertisement)
    requires peers != [] && Sorted(peers) && Advertised(peers[1..], ad)
    requires forall x | x in peers :: x.value.advertisement.peerId == x.key
    ensures Advertised(peers, ad) && Less(peers[0].key, ad.peerId)
  {
    var x :| x in peers[1..] && x.value.advertisement == ad;
    assert x in peers;
    var i :| 0 <= i < |peers| - 1 && peers[1..][i] == x;
    assert peers[i + 1] == x;
    hide Less;
  }

  lemma {:induction false} FirstPrepend(peers: Peers, contentId: Digest, limit: nat, more: seq<PeerAdvertisement>)
    requires peers != [] && limit > 0 && Sorted(peers)
    requires forall x | x in peers :: x.value.advertisement.peerId == x.key
    requires IsSwarmProvider(peers[0].value.advertisement, contentId)
    requires FirstProviders(peers[1..], contentId, limit - 1, more)
    ensures FirstProviders(peers, contentId, limit, [peers[0].value.advertisement] + more)
  {
    var head, rest := peers[0], peers[1..];
    var found := [head.value.advertisement] + more;
    assert peers == [head] + rest && head in peers && Advertised(peers, head.value.advertisement);
    hide IsSwarmProvider, Less;
    forall ad | ad in more ensures Less(head.key, ad.peerId) && Advertised(peers, ad) {
      AdvertisedLater(peers, ad);
    }
    forall x | x in peers && IsSwarmProvider(x.value.advertisement, contentId)
      ensures x.value.advertisement in found || (|found| == limit && AllBefore(found, x.key))
    {
      if x != head {
        assert x in rest;
        LaterKey(peers, x);
      }
    }
    hide Sorted, Advertised, AllBefore;
  }

  lemma {:induction false} LaterKey(peers: Peers, x: Item<Lease<PeerAdvertisement>>)
    requires peers != [] && Sorted(peers) && x in peers[1..]
    ensures Less(peers[0].key, x.key)
  {
    var i :| 0 <= i < |peers| - 1 && peers[1..][i] == x;
    assert peers[i + 1] == x;
    hide Less;
  }

  lemma {:induction false} FirstSkip(peers: Peers, contentId: Digest, limit: nat, more: seq<PeerAdvertisement>)
    requires peers != [] && Sorted(peers) && !IsSwarmProvider(peers[0].value.advertisement, contentId)
    requires forall x | x in peers :: x.value.advertisement.peerId == x.key
    requires FirstProviders(peers[1..], contentId, limit, more)
    ensures FirstProviders(peers, contentId, limit, more)
  {
    assert peers == [peers[0]] + peers[1..];
    hide IsSwarmProvider, Less;
    forall ad | ad in more ensures Advertised(peers, ad) {
      AdvertisedLater(peers, ad);
    }
    hide Advertised, AllBefore, Sorted;
  }

  lemma {:induction false} ProvidersAreFirst(peers: Peers, contentId: Digest, limit: nat)
    requires Sorted(peers) && forall x | x in peers :: x.value.advertisement.peerId == x.key
    ensures FirstProviders(peers, contentId, limit, SwarmProviders(peers, contentId, limit))
  {
    if peers != [] && limit > 0 {
      SortedTail(peers);
      var serving := IsSwarmProvider(peers[0].value.advertisement, contentId);
      var limit' := if serving then limit - 1 else limit;
      ProvidersAreFirst(peers[1..], contentId, limit');
      hide Sorted, FirstProviders, IsSwarmProvider;
      if serving {
        FirstPrepend(peers, contentId, limit, SwarmProviders(peers[1..], contentId, limit'));
      } else {
        FirstSkip(peers, contentId, limit, SwarmProviders(peers[1..], contentId, limit'));
      }
    }
  }

  predicate HasRoom(c: Config, s: State, id: seq<Byte>) {
    |QueueOf(s.queues, id)| < c.maxAssignments
  }

  /** The relay whose turn it is. */
  ghost function Turn(relays: Relays, i: nat): RelayAdvertisement
    requires relays != []
  {
    relays[i % |relays|].value.advertisement
  }

  ghost predicate Serves(routes: seq<RouteAssignment>, id: seq<Byte>) {
    exists a :: a in routes && a.providerId == id
  }

  /** The route is for some provider with room, from `from` on, and goes through the relay whose turn it is. */
  ghost predicate RouteFor(
    c: Config, s: State, providers: seq<PeerAdvertisement>, relays: Relays, from: nat, a: RouteAssignment)
    requires relays != []
  {
    exists i: nat | from <= i < |providers| ::
      HasRoom(c, s, providers[i].peerId) && Names(a, providers[i], Turn(relays, i))
  }

  /** From provider `from` on, exactly those with room have a route, in order. */
  ghost predicate ServesExactly(
    c: Config, s: State, providers: seq<PeerAdvertisement>, relays: Relays, from: nat, routes: seq<RouteAssignment>)
    requires relays != [] && from <= |providers|
  {
    && (forall a | a in routes :: RouteFor(c, s, providers, relays, from, a))
    && (forall i | from <= i < |providers| :: HasRoom(c, s, providers[i].peerId) <==>
      Serves(routes, providers[i].peerId))
    && (forall i, j | 0 <= i < j < |routes| :: Less(routes[i].providerId, routes[j].providerId))
  }

  /** The `k`-th route number after `n`. */
  ghost function After(n: nat, k: nat): nat {
    (n + k) % (U64_MAX + 1)
  }

  /** The routes carry the numbers that follow. */
  ghost predicate NumberedFrom(routes: seq<RouteAssignment>, n: nat) {
    forall k | 0 <= k < |routes| :: routes[k].route == RouteName(Ascii("m4"), After(n, k + 1))
  }

  /** Each provider with a route finds it at the end of its queue; the other queues are as they were. */
  ghost predicate EachQueued(before: Queues, after: Queues, expiresAt: nat, routes: seq<RouteAssignment>) {
    && (forall a | a in routes ::
          QueueOf(after, a.providerId) == QueueOf(before, a.providerId) + [Queued(a, expiresAt)])
    && (forall id | (forall a | a in routes :: a.providerId != id) :: QueueOf(after, id) == QueueOf(before, id))
  }

  ghost predicate RoutesEffect(
    c: Config, s: State, t: State, now: nat, providers: seq<PeerAdvertisement>, relays: Relays, from: nat,
    routes: seq<RouteAssignment>)
    requires relays != [] && from <= |providers|
  {
    && ServesExactly(c, s, providers, relays, from, routes) && NumberedFrom(routes, s.nextRoute)
    && EachQueued(s.queues, t.queues, SaturatingAdd(now, c.leaseMs), routes)
    && t == s.(queues := t.queues, nextRoute := After(s.nextRoute, |routes|))
  }

  ghost predicate InKeyOrder(providers: seq<PeerAdvertisement>) {
    forall i, j | 0 <= i < j < |providers| :: Less(providers[i].peerId, providers[j].peerId)
  }

  lemma {:induction false} ServesPrepend(
    c: Config, s: State, s': State, providers: seq<PeerAdvertisement>, relays: Relays, from: nat,
    a: Option<RouteAssignment>, rest: seq<RouteAssignment>)
    requires relays != [] && from < |providers| && InKeyOrder(providers)
    requires a.Some? <==> HasRoom(c, s, providers[from].peerId)
    requires a.Some? ==> Names(a.value, providers[from], Turn(relays, from))
    requires forall id | id != providers[from].peerId :: QueueOf(s'.queues, id) == QueueOf(s.queues, id)
    requires ServesExactly(c, s', providers, relays, from + 1, rest)
    ensures ServesExactly(c, s, providers, relays, from, if a.Some? then [a.value] + rest else rest)
  {
    hide Turn, QueueOf, Less;
    var routes := if a.Some? then [a.value] + rest else rest;
    RoomKept(c, s, s', providers, from);
    if a.Some? {
      assert RouteFor(c, s, providers, relays, from, a.value) && a.value.providerId == providers[from].peerId;
    }
    hide HasRoom, Names, InKeyOrder;
    forall b | b in rest
      ensures Less(providers[from].peerId, b.providerId) && RouteFor(c, s, providers, relays, from, b)
    {
      RouteEarlier(c, s, s', providers, relays, from, b);
    }
    hide RouteFor;
    AllServed(c, s, s', providers, from, a, rest);
    hide Serves;
    forall i, j | 0 <= i < j < |routes| ensures Less(routes[i].providerId, routes[j].providerId) {
      if a.Some? {
        assert routes[j] == rest[j - 1] && rest[j - 1] in rest;
      }
    }
  }

  lemma {:induction false} AllServed(
    c: Config, s: State, s': State, providers: seq<PeerAdvertisement>, from: nat, a: Option<RouteAssignment>,
    rest: seq<RouteAssignment>)
    requires from < |providers| && (a.Some? <==> HasRoom(c, s, providers[from].peerId))
    requires a.Some? ==> a.value.providerId == providers[from].peerId
    requires forall b | b in rest :: Less(providers[from].peerId, b.providerId)
    requires forall i | from < i < |providers| ::
               && providers[i].peerId != providers[from].peerId
               && HasRoom(c, s', providers[i].peerId) == HasRoom(c, s, providers[i].peerId)
    requires forall i | from < i < |providers| ::
               HasRoom(c, s', providers[i].peerId) <==> Serves(rest, providers[i].peerId)
    ensures forall i | from <= i < |providers| ::
              HasRoom(c, s, providers[i].peerId) <==>
              Serves(if a.Some? then [a.value] + rest else rest, providers[i].peerId)
  {
    LessIrreflexive(providers[from].peerId);
    hide HasRoom, Less;
    assert !Serves(rest, providers[from].peerId);
    hide Serves;
    forall i | from <= i < |providers|
      ensures HasRoom(c, s, providers[i].peerId) <==>
              Serves(if a.Some? then [a.value] + rest else rest, providers[i].peerId)
    {
      ServesMore(a, rest, providers[i].peerId);
    }
  }

  lemma {:induction false} RoomKept(c: Config, s: State, s': State, providers: seq<PeerAdvertisement>, from: nat)
    requires from < |providers| && InKeyOrder(providers)
    requires forall id | id != providers[from].peerId :: QueueOf(s'.queues, id) == QueueOf(s.queues, id)
    ensures forall i | from < i < |providers| ::
              && providers[i].peerId != providers[from].peerId
              && HasRoom(c, s', providers[i].peerId) == HasRoom(c, s, providers[i].peerId)
  {
    LessIrreflexive(providers[from].peerId);
    hide Less, QueueOf;
  }

  lemma {:induction false} RouteEarlier(
    c: Config, s: State, s': State, providers: seq<PeerAdvertisement>, relays: Relays, from: nat, b: RouteAssignment)
    requires relays != [] && from < |providers| && InKeyOrder(providers)
    requires forall i | from < i < |providers| ::
               HasRoom(c, s', providers[i].peerId) == HasRoom(c, s, providers[i].peerId)
    requires RouteFor(c, s', providers, relays, from + 1, b)
    ensures RouteFor(c, s, providers, relays, from, b) && Less(providers[from].peerId, b.providerId)
  {
    hide HasRoom, Turn, Less;
    var i: nat :| from + 1 <= i < |providers| && HasRoom(c, s', providers[i].peerId)
                  && Names(b, providers[i], Turn(relays, i));
  }

  lemma {:induction false} ServesMore(a: Option<RouteAssignment>, rest: seq<RouteAssignment>, id: seq<Byte>)
    ensures Serves(if a.Some? then [a.value] + rest else rest, id) <==>
            (a.Some? && a.value.providerId == id) || Serves(rest, id)
  {
    var routes := if a.Some? then [a.value] + rest else rest;
    if a.Some? {
      assert a.value in routes;
    }
    forall b | b in rest ensures b in routes {
    }
  }

  lemma {:induction false} NumberedPrepend(
    a: Option<RouteAssignment>, rest: seq<RouteAssignment>, routes: seq<RouteAssignment>, n: nat, n': nat, end: nat)
    requires n <= U64_MAX && routes == if a.Some? then [a.value] + rest else rest
    requires n' == if a.Some? then After(n, 1) else n
    requires a.Some? ==> a.value.route == RouteName(Ascii("m4"), n')
    requires NumberedFrom(rest, n') && end == After(n', |rest|)
    ensures NumberedFrom(routes, n) && end == After(n, |routes|)
  {
    hide RouteName;
    if a.Some? {
      Wraps(n + 1, |rest|);
      forall k | 0 <= k < |routes| ensures routes[k].route == RouteName(Ascii("m4"), After(n, k + 1)) {
        if k > 0 {
          Wraps(n + 1, k);
          assert routes[k] == rest[k - 1];
        }
      }
    }
  }

  lemma {:induction false} Wraps(a: nat, b: nat)
    requires a <= U64_MAX + 1
    ensures (a % (U64_MAX + 1) + b) % (U64_MAX + 1) == (a + b) % (U64_MAX + 1)
  {
  }

  lemma {:induction false} QueuedPrepend(
    before: Queues, between: Queues, after: Queues, expiresAt: nat, id: seq<Byte>, a: Option<RouteAssignment>,
    rest: seq<RouteAssignment>)
    requires OneMore(before, between, id, if a.Some? then Some(Queued(a.value, expiresAt)) else None)
    requires a.Some? ==> a.value.providerId == id
    requires EachQueued(between, after, expiresAt, rest) && forall b | b in rest :: b.providerId != id
    ensures EachQueued(before, after, expiresAt, if a.Some? then [a.value] + rest else rest)
  {
    hide QueueOf;
    var routes := if a.Some? then [a.value] + rest else rest;
    forall k ensures k != id ==> QueueOf(between, k) == QueueOf(before, k) {
      assert QueueOf(before, k) + [] == QueueOf(before, k);
    }
    assert a.None? ==> QueueOf(between, id) == QueueOf(before, id) + [] == QueueOf(before, id);
    forall k | (forall b | b in routes :: b.providerId != k) ensures QueueOf(after, k) == QueueOf(before, k) {
      assert a.Some? ==> a.value in routes;
      forall b | b in rest ensures b.providerId != k {
        assert b in routes;
      }
    }
  }

  lemma {:induction false} QueueAllDoes(
    c: Config, s: State, now: nat, providers: seq<PeerAdvertisement>, relays: Relays, index: nat)
    requires relays != [] && index <= |providers| && Sorted(s.queues) && InKeyOrder(providers)
    requires s.nextRoute <= U64_MAX
    ensures var (t, routes) := QueueAll(c, s, now, providers, relays, index);
            RoutesEffect(c, s, t, now, providers, relays, index, routes) && Sorted(t.queues)
    decreases |providers| - index
  {
    if index < |providers| {
      var provider, relay := providers[index], relays[index % |relays|].value.advertisement;
      var (s', a) := QueueAssignment(c, s, now, provider, relay, Ascii("m4"));
      QueueAssignmentDoes(c, s, now, provider, relay, Ascii("m4"));
      QueueAllDoes(c, s', now, providers, relays, index + 1);
      var (t, rest) := QueueAll(c, s', now, providers, relays, index + 1);
      assert QueueAll(c, s, now, providers, relays, index) == (t, if a.Some? then [a.value] + rest else rest);
      hide QueueAll, QueueAssignment, QueueOf, RouteName, Sorted, InKeyOrder;
      RoutesPrepend(c, s, s', t, now, providers, relays, index, a, rest);
    }
  }

  lemma {:induction false} OthersServed(
    c: Config, s: State, providers: seq<PeerAdvertisement>, relays: Relays, from: nat, rest: seq<RouteAssignment>)
    requires relays != [] && from < |providers| && InKeyOrder(providers)
    requires ServesExactly(c, s, providers, relays, from + 1, rest)
    ensures forall b | b in rest :: b.providerId != providers[from].peerId
  {
    hide HasRoom;
    forall b | b in rest ensures b.providerId != providers[from].peerId {
      RouteEarlier(c, s, s, providers, relays, from, b);
      LessIrreflexive(providers[from].peerId);
    }
  }

  lemma {:induction false} RoutesPrepend(
    c: Config, s: State, s': State, t: State, now: nat, providers: seq<PeerAdvertisement>, relays: Relays, from: nat,
    a: Option<RouteAssignment>, rest: seq<RouteAssignment>)
    requires relays != [] && from < |providers| && InKeyOrder(providers) && s.nextRoute <= U64_MAX
    requires AssignmentEffect(c, s, s', now, providers[from], Turn(relays, from), Ascii("m4"), a)
    requires RoutesEffect(c, s', t, now, providers, relays, from + 1, rest)
    ensures RoutesEffect(c, s, t, now, providers, relays, from, if a.Some? then [a.value] + rest else rest)
  {
    var id, routes := providers[from].peerId, if a.Some? then [a.value] + rest else rest;
    hide RouteName, Less, NumberedFrom, Turn, ServesExactly, EachQueued, QueueOf, InKeyOrder, Ascii, OneMore;
    assert a.Some? ==> s'.nextRoute == After(s.nextRoute, 1);
    hide SaturatingAdd, After;
    assert NumberedFrom(routes, s.nextRoute) && t.nextRoute == After(s.nextRoute, |routes|) by {
      NumberedPrepend(a, rest, routes, s.nextRoute, s'.nextRoute, t.nextRoute);
    }
    var expiresAt := SaturatingAdd(now, c.leaseMs);
    assert ServesExactly(c, s, providers, relays, from, routes) by {
      OthersKept(s.queues, s'.queues, id, if a.Some? then Some(Queued(a.value, expiresAt)) else None);
      ServesPrepend(c, s, s', providers, relays, from, a, rest);
    }
    assert EachQueued(s.queues, t.queues, expiresAt, routes) by {
      OthersServed(c, s', providers, relays, from, rest);
      QueuedPrepend(s.queues, s'.queues, t.queues, expiresAt, id, a, rest);
    }
  }

  lemma {:induction false} OthersKept(before: Queues, after: Queues, id: seq<Byte>, more: Option<Queued>)
    requires OneMore(before, after, id, more)
    ensures forall k | k != id :: QueueOf(after, k) == QueueOf(before, k)
  {
    hide QueueOf;
    forall k | k != id ensures QueueOf(after, k) == QueueOf(before, k) {
      assert QueueOf(before, k) + [] == QueueOf(before, k);
    }
  }

  /** After a purge: the first providers that serve the content, as many as asked for, over the live relays in turn. */
  ghost predicate ProvidersEffect(
    c: Config, s: State, t: State, now: nat, contentId: Digest, limit: nat, routes: seq<RouteAssignment>)
  {
    var u := Purged(s, now);
    if u.relays == [] then t == u && routes == []
    else
      exists providers ::
        FirstProviders(u.peers, contentId, limit, providers)
          && RoutesEffect(c, u, t, now, providers, u.relays, 0, routes)
  }

  lemma {:induction false} DiscoverProvidersDoes(c: Config, s: State, now: nat, contentId: Digest, limit: nat)
    requires Ordered(s)
    ensures var (t, routes) := DiscoverProviders(c, s, now, contentId, limit);
            ProvidersEffect(c, s, t, now, contentId, limit, routes) && Ordered(t)
  {
    PurgeDoes(s, now);
    var u := Purged(s, now);
    hide Purged, SwarmProviders, QueueAll, Sorted, PurgeEffect;
    ProvidersAreFirst(u.peers, contentId, limit);
    if u.relays != [] {
      QueueAllDoes(c, u, now, SwarmProviders(u.peers, contentId, limit), u.relays, 0);
    }
  }

  // ----- Discovering one provider -----

  /** After a purge: the first provider of the content gets an assignment, through the first relay. */
  ghost predicate DiscoverEffect(
    c: Config, s: State, t: State, now: nat, contentId: Digest, a: Option<RouteAssignment>)
  {
    var u := Purged(s, now);
    && (u.relays == [] || (forall x | x in u.peers :: contentId !in x.value.advertisement.contentIds) ==>
          a == None && t == u)
    && forall i: nat | u.relays != [] && IsFirst(u.peers, contentId, i) ::
         AssignmentEffect(c, u, t, now, u.peers[i].value.advertisement, u.relays[0].value.advertisement, Ascii("m2"), a)
  }

  lemma {:induction false} DiscoverDoes(c: Config, s: State, now: nat, contentId: Digest)
    requires Ordered(s)
    ensures var (t, a) := Discover(c, s, now, contentId);
            DiscoverEffect(c, s, t, now, contentId, a) && Ordered(t)
  {
    PurgeDoes(s, now);
    var u := Purged(s, now);
    var i := FirstWithIsFirst(u.peers, contentId);
    hide Purged, FirstWith, QueueAssignment, AssignmentEffect, Sorted, PurgeEffect;
    if u.relays != [] && FirstWith(u.peers, contentId).Some? {
      assert u.peers[i] in u.peers;
      assert forall j: nat | IsFirst(u.peers, contentId, j) :: j == i;
      QueueAssignmentDoes(c, u, now, u.peers[i].value.advertisement, u.relays[0].value.advertisement, Ascii("m2"));
      AssignmentKeeps(
        c, u, Discover(c, s, now, contentId).0, now, u.peers[i].value.advertisement,
        u.relays[0].value.advertisement, Ascii("m2"), Discover(c, s, now, contentId).1);
    } else {
      forall j: nat | IsFirst(u.peers, contentId, j) ensures u.relays == [] {
        assert u.peers[j] in u.peers;
      }
    }
  }

  lemma {:induction false} AssignmentKeeps(
    c: Config, s: State, t: State, now: nat, provider: PeerAdvertisement, relay: RelayAdvertisement, prefix: seq<Byte>,
    a: Option<RouteAssignment>)
    requires AssignmentEffect(c, s, t, now, provider, relay, prefix, a)
    ensures t.peers == s.peers && t.relays == s.relays
  {
    hide OneMore, Names, RouteName;
  }

  // ----- Admission -----

  ghost predicate Owned(lib: Library, ad: PeerAdvertisement) {
    ad.peerId == lib.peerIdOf(ad.publicKey)
  }

  /** At least one content identifier, and at most as many as allowed. */
  ghost predicate SomeButNotTooMany(c: Config, ids: seq<Digest>) {
    1 <= |ids| <= c.maxContentIds
  }

  ghost predicate NoneTwice(ids: seq<Digest>) {
    |set id | id in ids| == |ids|
  }

  ghost predicate CanTransfer(ad: PeerAdvertisement) {
    exists x :: x in ad.capabilities && (x == RelayedTransferV1 || x == SwarmTransferV1)
  }

  /** What registration says of an advertisement: the first of its demands that is not met, if any. */
  ghost predicate PeerVerdict(lib: Library, c: Config, ad: PeerAdvertisement, verdict: Option<RegistryError>) {
    var ids := ad.contentIds;
    match verdict
    case None => Owned(lib, ad) && SomeButNotTooMany(c, ids) && NoneTwice(ids) && CanTransfer(ad)
    case Some(PeerIdentityMismatch) => !Owned(lib, ad)
    case Some(NoContent) => Owned(lib, ad) && |ids| == 0
    case Some(TooManyContentIds) => Owned(lib, ad) && |ids| > 0 && !SomeButNotTooMany(c, ids)
    case Some(DuplicateContentId) => Owned(lib, ad) && SomeButNotTooMany(c, ids) && !NoneTwice(ids)
    case Some(UnsupportedPeer) =>
      Owned(lib, ad) && SomeButNotTooMany(c, ids) && NoneTwice(ids) && !CanTransfer(ad)
    case _ => false
  }

  lemma {:induction false} DuplicatesCounted(ids: seq<Digest>)
    ensures HasDuplicates(ids) <==> !NoneTwice(ids)
    ensures |set id | id in ids| <= |ids|
  {
    if ids == [] {
      assert (set id | id in ids) == {};
    } else {
      var last, rest := ids[|ids| - 1], ids[..|ids| - 1];
      DuplicatesCounted(rest);
      assert ids == rest + [last];
      assert (set id | id in ids) == (set id | id in rest) + {last};
      if last in rest {
        var i :| 0 <= i < |rest| && rest[i] == last;
        assert ids[i] == ids[|ids| - 1];
        assert (set id | id in ids) == (set id | id in rest);
      } else {
        assert HasDuplicates(ids) <==> HasDuplicates(rest) by {
          if HasDuplicates(rest) {
            var i, j :| 0 <= i < j < |rest| && rest[i] == rest[j];
            assert ids[i] == ids[j];
          }
        }
      }
    }
  }

  lemma {:induction false} CheckPeerExactly(lib: Library, c: Config, ad: PeerAdvertisement)
    ensures forall verdict :: CheckPeer(lib, c, ad) == verdict <==> PeerVerdict(lib, c, ad, verdict)
  {
    DuplicatesCounted(ad.contentIds);
    assert CanTransfer(ad) <==> RelayedTransferV1 in ad.capabilities || SwarmTransferV1 in ad.capabilities;
    hide HasDuplicates, NoneTwice, CanTransfer;
  }

  ghost predicate RelayVerdict(lib: Library, ad: RelayAdvertisement, verdict: Option<RegistryError>) {
    match verdict
    case None => IsName(ad.relayId, 64) && lib.isSocketAddress(ad.address)
    case Some(InvalidRelayId) => !IsName(ad.relayId, 64)
    case Some(InvalidRelayAddress) => IsName(ad.relayId, 64) && !lib.isSocketAddress(ad.address)
    case _ => false
  }

  lemma {:induction false} CheckRelayExactly(lib: Library, ad: RelayAdvertisement)
    ensures forall verdict :: CheckRelay(lib, ad) == verdict <==> RelayVerdict(lib, ad, verdict)
  {
    NameExactly(ad.relayId, 64);
    hide IsName, ValidIdentifier;
  }

  // ----- One request -----

  /** A registration that passes the checks is admitted if it renews or there is room; the answer says which. */
  ghost predicate PeerAnswer(
    lib: Library, c: Config, s: State, t: State, now: nat, ad: PeerAdvertisement, p: Answer.OverlayResponse)
  {
    if PeerVerdict(lib, c, ad, None) then
      var admitted := LiveIn(s.peers, ad.peerId, now) || |LiveKeys(s.peers, now)| < c.maxPeers;
      var lease := Lease(ad, SaturatingAdd(now, c.leaseMs));
      && RegisterEffect(s.peers, t.peers, now, c.maxPeers, ad.peerId, lease, admitted)
      && t == Purged(s, now).(peers := t.peers)
      && p == if admitted then Answer.Registered(c.leaseMs) else Answer.Error(Ascii(ErrorText(PeerLimitReached)))
    else
      t == s && exists e :: PeerVerdict(lib, c, ad, Some(e)) && p == Answer.Error(Ascii(ErrorText(e)))
  }

  ghost predicate RelayAnswer(
    lib: Library, c: Config, s: State, t: State, now: nat, ad: RelayAdvertisement, p: Answer.OverlayResponse)
  {
    if RelayVerdict(lib, ad, None) then
      var admitted := LiveIn(s.relays, ad.relayId, now) || |LiveKeys(s.relays, now)| < c.maxRelays;
      var lease := Lease(ad, SaturatingAdd(now, c.leaseMs));
      && RegisterEffect(s.relays, t.relays, now, c.maxRelays, ad.relayId, lease, admitted)
      && t == Purged(s, now).(relays := t.relays)
      && p == if admitted then Answer.Registered(c.leaseMs) else Answer.Error(Ascii(ErrorText(RelayLimitReached)))
    else
      t == s && exists e :: RelayVerdict(lib, ad, Some(e)) && p == Answer.Error(Ascii(ErrorText(e)))
  }

  /**
   * A live provider is answered with the first usable assignment of its queue, if there is one. Its lease is renewed
   * before the queue is looked at, and where the new lease has run out at once, there is nothing left to deliver.
   */
  ghost predicate PollAnswer(c: Config, s: State, t: State, now: nat, id: seq<Byte>, p: Answer.OverlayResponse) {
    if !LiveIn(s.peers, id, now) then
      p == Answer.Error(Ascii(NO_PEER)) && t == Purged(s, now)
    else
      && p.Assignment?
      && if SaturatingAdd(now, c.leaseMs) > now then PollEffect(s, t, now, c.leaseMs, id, p.assignment)
         else p.assignment.None? && !Has(t.peers, id) && QueueOf(t.queues, id) == []
  }

  ghost predicate Answered(
    lib: Library, c: Config, s: State, t: State, now: nat, q: Ask.OverlayRequest, p: Answer.OverlayResponse)
  {
    match q
    case RegisterPeer(ad) => PeerAnswer(lib, c, s, t, now, ad, p)
    case HeartbeatPeer(id) =>
      var live := LiveIn(s.peers, id, now);
      && HeartbeatEffect(s.peers, t.peers, now, c.leaseMs, id, live) && t == Purged(s, now).(peers := t.peers)
      && p == if live then Answer.Registered(c.leaseMs) else Answer.Error(Ascii(NO_PEER))
    case PollPeer(id) => PollAnswer(c, s, t, now, id, p)
    case RegisterRelay(ad) => RelayAnswer(lib, c, s, t, now, ad, p)
    case HeartbeatRelay(id) =>
      var live := LiveIn(s.relays, id, now);
      && HeartbeatEffect(s.relays, t.relays, now, c.leaseMs, id, live) && t == Purged(s, now).(relays := t.relays)
      && p == if live then Answer.Registered(c.leaseMs) else Answer.Error(Ascii(NO_RELAY))
    case Discover(contentId) => p.Route? && DiscoverEffect(c, s, t, now, contentId, p.assignment)
    case DiscoverProviders(query) =>
      p.Routes? && ProvidersEffect(c, s, t, now, query.contentId, Min(query.limit, 16), p.routes)
    case ReportRelayFailure(id) => p == Answer.Acknowledged && FailureEffect(s, t, id)
    case Health => p == Answer.Acknowledged && t == s
  }

  lemma {:induction false} UsablesAgain(q: seq<Queued>, now: nat, relays: Relays, relays': Relays)
    requires OnlyLive(relays, relays', now)
    ensures Usables(Usables(q, now, relays), now, relays') == Usables(q, now, relays)
  {
    if q != [] {
      UsablesAgain(q[1..], now, relays, relays');
      hide Get;
    }
  }

  /** A heartbeat leaves a poll at the same moment the queue it would have found. */
  lemma {:induction false} LeftAgain(s: State, t: State, now: nat, leaseMs: nat, id: seq<Byte>)
    requires HeartbeatEffect(s.peers, t.peers, now, leaseMs, id, true) && SaturatingAdd(now, leaseMs) > now
    requires OnlyLive(s.relays, t.relays, now) && OnlyUsable(s, t.queues, now)
    ensures forall k :: Left(t, k, now) == Left(s, k, now)
  {
    hide Get, QueueOf, Usables, SaturatingAdd;
    forall k ensures Left(t, k, now) == Left(s, k, now) {
      UsablesAgain(QueueOf(s.queues, k), now, s.relays, t.relays);
    }
  }

  /** What a heartbeat and then a poll do, a poll alone does. */
  lemma {:induction false} PollTwice(
    s: State, t: State, u: State, now: nat, leaseMs: nat, id: seq<Byte>, a: Option<RouteAssignment>)
    requires LiveIn(s.peers, id, now) && SaturatingAdd(now, leaseMs) > now
    requires HeartbeatEffect(s.peers, t.peers, now, leaseMs, id, true) && t.nextRoute == s.nextRoute
    requires OnlyLive(s.relays, t.relays, now) && OnlyUsable(s, t.queues, now)
    requires PollEffect(t, u, now, leaseMs, id, a)
    ensures PollEffect(s, u, now, leaseMs, id, a)
  {
    LeftAgain(s, t, now, leaseMs, id);
    hide Get, Left, OnlyUsable, SaturatingAdd;
    assert LiveIn(t.peers, id, now);
    hide QueueOf;
  }

  lemma {:induction false} PollAnswered(c: Config, s: State, now: nat, id: seq<Byte>)
    requires Ordered(s) && LiveIn(s.peers, id, now)
    ensures var t := HeartbeatPeer(c, s, now, id).0;
            var (u, a) := PollPeer(c, t, now, id);
            PollAnswer(c, s, u, now, id, Answer.Assignment(a)) && Ordered(u)
  {
    HeartbeatPeerDoes(c, s, now, id);
    var t := HeartbeatPeer(c, s, now, id).0;
    PollDoes(c, t, now, id);
    var (u, a) := PollPeer(c, t, now, id);
    assert t.nextRoute == s.nextRoute;
    hide HeartbeatPeer, PollPeer, Ordered, QueueOf, Get, Usables, Purged, SaturatingAdd;
    if SaturatingAdd(now, c.leaseMs) > now {
      PollTwice(s, t, u, now, c.leaseMs, id, a);
    }
  }

  lemma {:induction false} PeerAnswered(lib: Library, c: Config, s: State, now: nat, ad: PeerAdvertisement)
    requires Ordered(s)
    ensures var (t, refused) := RegisterPeer(lib, c, s, now, ad);
            PeerAnswer(lib, c, s, t, now, ad, Confirm(c, refused)) && Ordered(t)
  {
    RegisterPeerDoes(lib, c, s, now, ad);
    CheckPeerExactly(lib, c, ad);
    hide RegisterPeer, CheckPeer, PeerVerdict, Ordered, OnlyLive, OnlyUsable, OnlyLiveAnd, LiveIn, LiveKeys, ErrorText;
  }

  lemma {:induction false} RelayAnswered(lib: Library, c: Config, s: State, now: nat, ad: RelayAdvertisement)
    requires Ordered(s)
    ensures var (t, refused) := RegisterRelay(lib, c, s, now, ad);
            RelayAnswer(lib, c, s, t, now, ad, Confirm(c, refused)) && Ordered(t)
  {
    RegisterRelayDoes(lib, c, s, now, ad);
    CheckRelayExactly(lib, ad);
    hide RegisterRelay, CheckRelay, RelayVerdict, Ordered, OnlyLive, OnlyUsable, OnlyLiveAnd, LiveIn, LiveKeys,
      ErrorText;
  }

  lemma {:induction false} HandleDoes(lib: Library, c: Config, s: State, now: nat, q: Ask.OverlayRequest)
    requires Ordered(s)
    ensures var (t, p) := Handle(lib, c, s, now, q);
            Answered(lib, c, s, t, now, q, p) && Ordered(t)
  {
    hide RegisterPeer, RegisterRelay, HeartbeatRelay, Discover, DiscoverProviders, ReportFailure, Ordered;
    hide PeerAnswer, RelayAnswer, DiscoverEffect, ProvidersEffect, FailureEffect, OnlyLive, OnlyUsable;
    match q
    case RegisterPeer(ad) => PeerAnswered(lib, c, s, now, ad);
    case HeartbeatPeer(id) =>
      HeartbeatPeerDoes(c, s, now, id);
      hide HeartbeatPeer;
    case PollPeer(id) =>
      HeartbeatPeerDoes(c, s, now, id);
      if LiveIn(s.peers, id, now) {
        PollAnswered(c, s, now, id);
        hide PollAnswer;
      }
    case RegisterRelay(ad) => RelayAnswered(lib, c, s, now, ad);
    case HeartbeatRelay(id) => HeartbeatRelayDoes(c, s, now, id);
    case Discover(contentId) => DiscoverDoes(c, s, now, contentId);
    case DiscoverProviders(query) => DiscoverProvidersDoes(c, s, now, query.contentId, Min(query.limit, 16));
    case ReportRelayFailure(id) => ReportFailureDoes(s, id);
    case Health =>
  }
}
