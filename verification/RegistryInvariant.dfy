/** What every reachable registry state keeps: order, limits, and queues that name only registered peers and relays. */
module RegistryInvariant {
  import opened Prelude
  import opened ByteOrder
  import opened BigEndian
  import opened Content
  import opened ExactTopic
  import opened WireFields
  import opened WireRecords
  import opened WireLists
  import opened Registry
  import Ask = WireRequests
  import Answer = WireResponses

  type Peers = seq<Item<Lease<PeerAdvertisement>>>
  type Relays = seq<Item<Lease<RelayAdvertisement>>>
  type Queues = seq<Item<seq<Queued>>>

  // ----- Purging, piece by piece -----

  lemma {:induction false} UnexpiredMembers<A>(m: seq<Item<Lease<A>>>, now: nat)
    ensures |Unexpired(m, now)| <= |m|
    ensures forall x | x in Unexpired(m, now) :: x in m && x.value.expiresAt > now
    ensures forall x | x in m && x.value.expiresAt > now :: x in Unexpired(m, now)
  {
    if m != [] {
      UnexpiredMembers(m[1..], now);
      assert m == [m[0]] + m[1..];
    }
  }

  lemma {:induction false} UnexpiredSorted<A>(m: seq<Item<Lease<A>>>, now: nat)
    requires Sorted(m)
    ensures Sorted(Unexpired(m, now))
  {
    if m != [] {
      SortedTail(m);
      UnexpiredSorted(m[1..], now);
      UnexpiredMembers(m[1..], now);
      if m[0].value.expiresAt > now {
        SortedCons(m[0], Unexpired(m[1..], now));
      }
    }
  }

  /** A lease is found after the purge exactly when it was there and has not run out. */
  lemma {:induction false} GetUnexpired<A>(m: seq<Item<Lease<A>>>, now: nat, k: seq<Byte>)
    requires Sorted(m)
    ensures Get(Unexpired(m, now), k) == if Has(m, k) && Get(m, k).value.expiresAt > now then Get(m, k) else None
  {
    if m != [] {
      SortedTail(m);
      GetUnexpired(m[1..], now, k);
      if m[0].key == k {
        GetIsMember(m[1..], k);
        LessIrreflexive(k);
      }
    }
  }

  lemma {:induction false} FreshQueueMembers(q: seq<Queued>, now: nat, relays: Relays)
    ensures |FreshQueue(q, now, relays)| <= |q|
    ensures forall e | e in FreshQueue(q, now, relays) :: e in q && Usable(e, now, relays)
  {
    if q != [] {
      FreshQueueMembers(q[1..], now, relays);
    }
  }

  /** Where a purged queue comes from. */
  ghost predicate Descends(x: Item<seq<Queued>>, qs: Queues, now: nat, relays: Relays) {
    exists y | y in qs :: y.key == x.key && x.value == FreshQueue(y.value, now, relays)
  }

  lemma {:induction false} FreshQueuesMembers(qs: Queues, now: nat, peers: Peers, relays: Relays)
    ensures Total(FreshQueues(qs, now, peers, relays)) <= Total(qs)
    ensures forall x | x in FreshQueues(qs, now, peers, relays) ::
              Has(peers, x.key) && x.value != [] && Descends(x, qs, now, relays)
  {
    if qs != [] {
      FreshQueuesMembers(qs[1..], now, peers, relays);
      FreshQueueMembers(qs[0].value, now, relays);
      assert qs == [qs[0]] + qs[1..];
      var rest := FreshQueues(qs[1..], now, peers, relays);
      forall x | x in FreshQueues(qs, now, peers, relays)
        ensures Has(peers, x.key) && x.value != [] && Descends(x, qs, now, relays)
      {
        if x in rest {
          var y :| y in qs[1..] && y.key == x.key && x.value == FreshQueue(y.value, now, relays);
          assert y in qs;
        } else {
          assert qs[0] in qs;
        }
      }
    }
  }

  lemma {:induction false} FreshQueuesSorted(qs: Queues, now: nat, peers: Peers, relays: Relays)
    requires Sorted(qs)
    ensures Sorted(FreshQueues(qs, now, peers, relays))
  {
    if qs != [] {
      SortedTail(qs);
      FreshQueuesSorted(qs[1..], now, peers, relays);
      FreshQueuesMembers(qs[1..], now, peers, relays);
      var rest, q := FreshQueues(qs[1..], now, peers, relays), FreshQueue(qs[0].value, now, relays);
      if Has(peers, qs[0].key) && q != [] {
        SortedCons(Item(qs[0].key, q), rest);
      }
    }
  }

  // ----- The invariant -----

  /** An advertisement as registration lets it in. */
  predicate PeerOk(lib: Library, c: Config, ad: PeerAdvertisement) {
    ad.peerId == lib.peerIdOf(ad.publicKey) && 0 < |ad.contentIds| <= c.maxContentIds && !HasDuplicates(ad.contentIds)
  }

  ghost predicate PeersOk(lib: Library, c: Config, peers: Peers) {
    && Sorted(peers) && |peers| <= c.maxPeers
    && forall x | x in peers :: x.value.advertisement.peerId == x.key && PeerOk(lib, c, x.value.advertisement)
  }

  predicate RelayOk(lib: Library, ad: RelayAdvertisement) {
    ValidIdentifier(ad.relayId, 64) && |ad.address| <= 128 && Utf8(ad.address) && lib.isSocketAddress(ad.address)
  }

  ghost predicate RelaysOk(lib: Library, c: Config, relays: Relays) {
    && Sorted(relays) && |relays| <= c.maxRelays
    && forall x | x in relays :: x.value.advertisement.relayId == x.key && RelayOk(lib, x.value.advertisement)
  }

  /** A queued assignment that its provider could use. */
  ghost predicate EntryOk(lib: Library, a: RouteAssignment, provider: seq<Byte>, relays: Relays) {
    && a.providerId == provider && Has(relays, a.relayId)
    && Answer.ValidAssignment(lib, a) && Answer.TextTyped(a)
  }

  ghost predicate QueueOk(lib: Library, c: Config, x: Item<seq<Queued>>, peers: Peers, relays: Relays) {
    && Has(peers, x.key) && |x.value| <= c.maxAssignments
    && forall e | e in x.value :: EntryOk(lib, e.assignment, x.key, relays)
  }

  ghost predicate QueuesOk(lib: Library, c: Config, qs: Queues, peers: Peers, relays: Relays) {
    Sorted(qs) && forall x | x in qs :: QueueOk(lib, c, x, peers, relays)
  }

  ghost predicate Inv(lib: Library, c: Config, s: State) {
    PeersOk(lib, c, s.peers) && RelaysOk(lib, c, s.relays) && QueuesOk(lib, c, s.queues, s.peers, s.relays)
  }

  lemma {:induction false} PurgedQueues(
    lib: Library, c: Config, qs: Queues, now: nat, peers: Peers, relays: Relays, peers': Peers, relays': Relays)
    requires QueuesOk(lib, c, qs, peers, relays)
    ensures QueuesOk(lib, c, FreshQueues(qs, now, peers', relays'), peers', relays')
  {
    hide Answer.ValidAssignment, Answer.TextTyped, FreshQueues, FreshQueue, Has;
    FreshQueuesSorted(qs, now, peers', relays');
    FreshQueuesMembers(qs, now, peers', relays');
    forall x | x in FreshQueues(qs, now, peers', relays') ensures QueueOk(lib, c, x, peers', relays') {
      assert Descends(x, qs, now, relays');
      var y :| y in qs && y.key == x.key && x.value == FreshQueue(y.value, now, relays');
      assert QueueOk(lib, c, y, peers, relays);
      FreshQueueMembers(y.value, now, relays');
    }
  }

  lemma {:induction false} PurgedInv(lib: Library, c: Config, s: State, now: nat)
    requires Inv(lib, c, s)
    ensures Inv(lib, c, Purged(s, now))
  {
    hide QueueOk, RelayOk, PeerOk;
    UnexpiredSorted(s.peers, now);
    UnexpiredMembers(s.peers, now);
    UnexpiredSorted(s.relays, now);
    UnexpiredMembers(s.relays, now);
    PurgedQueues(lib, c, s.queues, now, s.peers, s.relays, Unexpired(s.peers, now), Unexpired(s.relays, now));
  }

  /** Queues stay good when peers and relays are added. */
  lemma {:induction false} QueuesGrow(
    lib: Library, c: Config, qs: Queues, peers: Peers, relays: Relays, peers': Peers, relays': Relays)
    requires QueuesOk(lib, c, qs, peers, relays)
    requires forall k | Has(peers, k) :: Has(peers', k)
    requires forall k | Has(relays, k) :: Has(relays', k)
    ensures QueuesOk(lib, c, qs, peers', relays')
  {
    forall x | x in qs ensures QueueOk(lib, c, x, peers', relays') {
      assert QueueOk(lib, c, x, peers, relays);
    }
  }

  lemma {:induction false} PutHas<V>(m: seq<Item<V>>, k: seq<Byte>, v: V)
    requires Sorted(m)
    ensures Has(Put(m, k, v), k) && forall j | Has(m, j) :: Has(Put(m, k, v), j)
  {
    GetPut(m, k, v, k);
    forall j | Has(m, j) ensures Has(Put(m, k, v), j) {
      GetPut(m, k, v, j);
    }
  }

  lemma {:induction false} PutPeerInv(lib: Library, c: Config, s: State, id: seq<Byte>, lease: Lease<PeerAdvertisement>)
    requires Inv(lib, c, s) && (Has(s.peers, id) || |s.peers| < c.maxPeers)
    requires lease.advertisement.peerId == id && PeerOk(lib, c, lease.advertisement)
    ensures Inv(lib, c, s.(peers := Put(s.peers, id, lease)))
  {
    hide QueueOk, RelayOk, PeerOk, Put;
    PutSorted(s.peers, id, lease);
    PutKeys(s.peers, id, lease);
    PutHas(s.peers, id, lease);
    QueuesGrow(lib, c, s.queues, s.peers, s.relays, Put(s.peers, id, lease), s.relays);
  }

  lemma {:induction false} PutRelayInv(
    lib: Library, c: Config, s: State, id: seq<Byte>, lease: Lease<RelayAdvertisement>)
    requires Inv(lib, c, s) && (Has(s.relays, id) || |s.relays| < c.maxRelays)
    requires lease.advertisement.relayId == id && RelayOk(lib, lease.advertisement)
    ensures Inv(lib, c, s.(relays := Put(s.relays, id, lease)))
  {
    hide QueueOk, RelayOk, Put;
    PutSorted(s.relays, id, lease);
    PutKeys(s.relays, id, lease);
    PutHas(s.relays, id, lease);
    QueuesGrow(lib, c, s.queues, s.peers, s.relays, s.peers, Put(s.relays, id, lease));
  }

  lemma {:induction false} PutQueueInv(lib: Library, c: Config, s: State, id: seq<Byte>, q: seq<Queued>)
    requires Inv(lib, c, s) && QueueOk(lib, c, Item(id, q), s.peers, s.relays)
    ensures Inv(lib, c, s.(queues := Put(s.queues, id, q)))
  {
    hide QueueOk, RelayOk, Put;
    PutSorted(s.queues, id, q);
    PutKeys(s.queues, id, q);
  }

  lemma {:induction false} QueueOfOk(lib: Library, c: Config, s: State, id: seq<Byte>)
    requires Inv(lib, c, s) && Has(s.peers, id)
    ensures QueueOk(lib, c, Item(id, QueueOf(s.queues, id)), s.peers, s.relays)
  {
    GetIsMember(s.queues, id);
  }

  // ----- Creating assignments -----

  lemma {:induction false} HexIsName(bytes: seq<Byte>)
    ensures forall b | b in HexEncode(bytes) :: IsNameByte(b)
  {
    if bytes != [] {
      HexIsName(bytes[1..]);
    }
  }

  predicate IsPrefix(prefix: seq<Byte>) {
    prefix == Ascii("m2") || prefix == Ascii("m4")
  }

  lemma {:induction false} RouteNameOk(prefix: seq<Byte>, n: nat)
    requires IsPrefix(prefix)
    ensures ValidIdentifier(RouteName(prefix, n), 128) && Utf8(RouteName(prefix, n))
  {
    HexIsName(Bytes(n, 8));
    hide HexEncode, Bytes, Utf8;
    assert |prefix| == 2 && IsNameByte(prefix[0]) && IsNameByte(prefix[1]);
    var hex := HexEncode(Bytes(n, 8));
    forall i | 0 <= i < |RouteName(prefix, n)| ensures IsNameByte(RouteName(prefix, n)[i]) {
      if i >= 3 {
        assert RouteName(prefix, n)[i] == hex[i - 3] && hex[i - 3] in hex;
      }
    }
    IdentifierLength(RouteName(prefix, n), 128);
  }

  lemma {:induction false} QueueAssignmentInv(
    lib: Library, c: Config, s: State, now: nat, provider: PeerAdvertisement, relay: RelayAdvertisement,
    prefix: seq<Byte>)
    requires Inv(lib, c, s) && Has(s.peers, provider.peerId) && Has(s.relays, relay.relayId)
    requires RelayOk(lib, relay) && IsPrefix(prefix)
    ensures var (t, a) := QueueAssignment(c, s, now, provider, relay, prefix);
            && Inv(lib, c, t) && t.peers == s.peers && t.relays == s.relays
            && (a.Some? ==> EntryOk(lib, a.value, provider.peerId, s.relays))
  {
    var id, q := provider.peerId, QueueOf(s.queues, provider.peerId);
    QueueOfOk(lib, c, s, id);
    var next := (s.nextRoute + 1) % (U64_MAX + 1);
    RouteNameOk(prefix, next);
    IdentifierLength(relay.relayId, 64);
    hide RouteName, Utf8, ValidIdentifier, IsPrefix, Put, Get, PeersOk, RelaysOk, QueuesOk;
    if |q| < c.maxAssignments {
      var a := RouteAssignment(id, provider.publicKey, relay.relayId, relay.address, RouteName(prefix, next));
      var q' := q + [Queued(a, SaturatingAdd(now, c.leaseMs))];
      assert EntryOk(lib, a, id, s.relays);
      assert QueueOk(lib, c, Item(id, q'), s.peers, s.relays);
      hide Inv;
      PutQueueInv(lib, c, s, id, q');
      CounterInv(lib, c, s.(queues := Put(s.queues, id, q')), next);
    } else {
      PutQueueInv(lib, c, s, id, q);
    }
  }

  lemma {:induction false} CounterInv(lib: Library, c: Config, s: State, n: nat)
    requires Inv(lib, c, s)
    ensures Inv(lib, c, s.(nextRoute := n))
  {
    hide PeersOk, RelaysOk, QueuesOk;
  }

  /** Peer `i` is the first in order that advertises the content. */
  ghost predicate IsFirst(peers: Peers, contentId: Digest, i: nat) {
    && i < |peers| && contentId in peers[i].value.advertisement.contentIds
    && forall j | 0 <= j < i :: contentId !in peers[j].value.advertisement.contentIds
  }

  lemma {:induction false} FirstWithIsFirst(peers: Peers, contentId: Digest) returns (i: nat)
    ensures FirstWith(peers, contentId).Some? ==>
              IsFirst(peers, contentId, i) && peers[i].value.advertisement == FirstWith(peers, contentId).value
    ensures FirstWith(peers, contentId).None? ==>
              forall x | x in peers :: contentId !in x.value.advertisement.contentIds
  {
    i := 0;
    if peers != [] && contentId !in peers[0].value.advertisement.contentIds {
      i := FirstWithIsFirst(peers[1..], contentId);
      assert peers == [peers[0]] + peers[1..];
      i := i + 1;
    }
  }

  predicate IsSwarmProvider(ad: PeerAdvertisement, contentId: Digest) {
    contentId in ad.contentIds && SwarmTransferV1 in ad.capabilities
  }

  /** The providers found are registered swarm peers with the content, in key order, each once. */
  lemma {:induction false} SwarmProvidersArePeers(peers: Peers, contentId: Digest, limit: nat)
    requires Sorted(peers) && forall x | x in peers :: x.value.advertisement.peerId == x.key
    ensures var found := SwarmProviders(peers, contentId, limit);
            && |found| <= limit
            && (forall ad | ad in found :: Has(peers, ad.peerId) && IsSwarmProvider(ad, contentId))
            && (forall i, j | 0 <= i < j < |found| :: Less(found[i].peerId, found[j].peerId))
  {
    if peers != [] && limit > 0 {
      SortedTail(peers);
      assert peers[0] in peers;
      assert forall x | x in peers[1..] :: x in peers;
      var ad := peers[0].value.advertisement;
      var limit' := if IsSwarmProvider(ad, contentId) then limit - 1 else limit;
      SwarmProvidersArePeers(peers[1..], contentId, limit');
      forall b | b in SwarmProviders(peers[1..], contentId, limit')
        ensures Has(peers, b.peerId) && Less(ad.peerId, b.peerId)
      {
        GetIsMember(peers[1..], b.peerId);
      }
    }
  }

  /** And unless the limit was reached, every such peer is found. */
  lemma {:induction false} SwarmProvidersAreAll(peers: Peers, contentId: Digest, limit: nat, i: nat)
    requires i < |peers| && IsSwarmProvider(peers[i].value.advertisement, contentId)
    requires |SwarmProviders(peers, contentId, limit)| < limit
    ensures peers[i].value.advertisement in SwarmProviders(peers, contentId, limit)
  {
    if i > 0 {
      var ad := peers[0].value.advertisement;
      SwarmProvidersAreAll(peers[1..], contentId, if IsSwarmProvider(ad, contentId) then limit - 1 else limit, i - 1);
    }
  }

  ghost predicate ProvidersOk(s: State, providers: seq<PeerAdvertisement>) {
    && (forall ad | ad in providers :: Has(s.peers, ad.peerId))
    && (forall i, j | 0 <= i < j < |providers| :: Less(providers[i].peerId, providers[j].peerId))
  }

  ghost predicate OfferOk(lib: Library, s: State, relays: Relays) {
    forall x | x in relays :: Has(s.relays, x.value.advertisement.relayId) && RelayOk(lib, x.value.advertisement)
  }

  /** Sendable assignments, no provider twice, none before `from`. */
  ghost predicate RoutesOk(
    lib: Library, s: State, routes: seq<RouteAssignment>, providers: seq<PeerAdvertisement>, from: nat)
  {
    && |routes| <= |providers| - from
    && (forall a | a in routes :: EntryOk(lib, a, a.providerId, s.relays))
    && (forall a | a in routes :: a.providerId == providers[from].peerId || Less(providers[from].peerId, a.providerId))
    && (forall i, j | 0 <= i < j < |routes| :: Less(routes[i].providerId, routes[j].providerId))
  }

  lemma {:induction false} RoutesCons(
    lib: Library, s: State, a: Option<RouteAssignment>, rest: seq<RouteAssignment>, providers: seq<PeerAdvertisement>,
    from: nat)
    requires ProvidersOk(s, providers) && from < |providers| && RoutesOk(lib, s, rest, providers, from + 1)
    requires a.Some? ==> EntryOk(lib, a.value, providers[from].peerId, s.relays)
    ensures RoutesOk(lib, s, if a.Some? then [a.value] + rest else rest, providers, from)
  {
    hide EntryOk, Less, Has;
    if from + 1 < |providers| {
      assert Less(providers[from].peerId, providers[from + 1].peerId);
      forall b | b in rest ensures Less(providers[from].peerId, b.providerId) {
        if b.providerId != providers[from + 1].peerId {
          LessTransitive(providers[from].peerId, providers[from + 1].peerId, b.providerId);
        }
      }
    }
    assert a.Some? ==> a.value.providerId == providers[from].peerId by {
      EntryNames(lib, s, a, providers[from].peerId);
    }
  }

  lemma {:induction false} EntryNames(lib: Library, s: State, a: Option<RouteAssignment>, id: Digest)
    requires a.Some? ==> EntryOk(lib, a.value, id, s.relays)
    ensures a.Some? ==> a.value.providerId == id && EntryOk(lib, a.value, a.value.providerId, s.relays)
  {
  }

  lemma {:induction false} QueueAllInv(
    lib: Library, c: Config, s: State, now: nat, providers: seq<PeerAdvertisement>, relays: Relays, index: nat)
    requires relays != [] && index <= |providers|
    requires Inv(lib, c, s) && ProvidersOk(s, providers) && OfferOk(lib, s, relays)
    ensures var (t, routes) := QueueAll(c, s, now, providers, relays, index);
            Inv(lib, c, t) && t.peers == s.peers && t.relays == s.relays && RoutesOk(lib, s, routes, providers, index)
    decreases |providers| - index
  {
    hide Inv, EntryOk, RelayOk, QueueAssignment, IsPrefix;
    if index < |providers| {
      var relay := relays[index % |relays|];
      assert relay in relays && providers[index] in providers;
      var (t, a) := QueueAssignment(c, s, now, providers[index], relay.value.advertisement, Ascii("m4"));
      PrefixOk();
      QueueAssignmentInv(lib, c, s, now, providers[index], relay.value.advertisement, Ascii("m4"));
      QueueAllInv(lib, c, t, now, providers, relays, index + 1);
      RoutesCons(lib, s, a, QueueAll(c, t, now, providers, relays, index + 1).1, providers, index);
    }
  }

  lemma PrefixOk()
    ensures IsPrefix(Ascii("m2")) && IsPrefix(Ascii("m4"))
  {
  }

  // ----- Every response can be sent -----

  lemma {:induction false} EntryIsValid(lib: Library, a: RouteAssignment, relays: Relays)
    requires EntryOk(lib, a, a.providerId, relays)
    ensures Answer.Valid(lib, Answer.Route(Some(a))) && Answer.Valid(lib, Answer.Assignment(Some(a)))
  {
    hide Answer.ValidAssignment, Answer.TextTyped;
  }

  lemma {:induction false} AsciiText(text: string)
    requires |text| <= MAX_ERROR_TEXT
    ensures forall lib :: Answer.Valid(lib, Answer.Error(Ascii(text)))
  {
    AsciiIsUtf8(Ascii(text));
  }

  lemma {:induction false} ErrorTextShort(e: RegistryError)
    ensures |ErrorText(e)| <= MAX_ERROR_TEXT
  {
  }

  lemma {:induction false} ConfirmValid(lib: Library, c: Config, refused: Option<RegistryError>)
    requires c.leaseMs <= U64_MAX
    ensures Answer.Valid(lib, Confirm(c, refused))
  {
    hide Ascii, ErrorText, Utf8;
    if refused.Some? {
      ErrorTextShort(refused.value);
      AsciiText(ErrorText(refused.value));
    }
  }

  lemma {:induction false} HeartbeatPeerInv(lib: Library, c: Config, s: State, now: nat, id: seq<Byte>)
    requires Inv(lib, c, s)
    ensures Inv(lib, c, HeartbeatPeer(c, s, now, id).0)
    ensures HeartbeatPeer(c, s, now, id).1 ==> Has(HeartbeatPeer(c, s, now, id).0.peers, id)
  {
    var t := Purged(s, now);
    PurgedInv(lib, c, s, now);
    hide Purged, RelaysOk, QueuesOk;
    var lease := Get(t.peers, id);
    if lease.Some? {
      GetIsMember(t.peers, id);
      PutPeerInv(lib, c, t, id, lease.value.(expiresAt := SaturatingAdd(now, c.leaseMs)));
      PutHas(t.peers, id, lease.value.(expiresAt := SaturatingAdd(now, c.leaseMs)));
    }
  }

  lemma {:induction false} HeartbeatRelayInv(lib: Library, c: Config, s: State, now: nat, id: seq<Byte>)
    requires Inv(lib, c, s)
    ensures Inv(lib, c, HeartbeatRelay(c, s, now, id).0)
  {
    var t := Purged(s, now);
    PurgedInv(lib, c, s, now);
    hide Purged, PeersOk, QueuesOk, RelayOk;
    var lease := Get(t.relays, id);
    if lease.Some? {
      GetIsMember(t.relays, id);
      PutRelayInv(lib, c, t, id, lease.value.(expiresAt := SaturatingAdd(now, c.leaseMs)));
    }
  }

  lemma {:induction false} RegisterPeerInv(lib: Library, c: Config, s: State, now: nat, peer: PeerAdvertisement)
    requires Inv(lib, c, s)
    ensures Inv(lib, c, RegisterPeer(lib, c, s, now, peer).0)
  {
    var t := Purged(s, now);
    PurgedInv(lib, c, s, now);
    hide Purged, PeersOk, RelaysOk, QueuesOk;
    if CheckPeer(lib, c, peer).None? && (Has(t.peers, peer.peerId) || |t.peers| < c.maxPeers) {
      PutPeerInv(lib, c, t, peer.peerId, Lease(peer, SaturatingAdd(now, c.leaseMs)));
    }
  }

  lemma {:induction false} RegisterRelayInv(lib: Library, c: Config, s: State, now: nat, relay: RelayAdvertisement)
    requires Inv(lib, c, s) && |relay.address| <= 128 && Utf8(relay.address)
    ensures Inv(lib, c, RegisterRelay(lib, c, s, now, relay).0)
  {
    var t := Purged(s, now);
    PurgedInv(lib, c, s, now);
    hide Purged, PeersOk, RelaysOk, QueuesOk, Utf8, ValidIdentifier;
    if CheckRelay(lib, relay).None? && (Has(t.relays, relay.relayId) || |t.relays| < c.maxRelays) {
      PutRelayInv(lib, c, t, relay.relayId, Lease(relay, SaturatingAdd(now, c.leaseMs)));
    }
  }

  lemma {:induction false} RelayListed(lib: Library, c: Config, s: State)
    requires Inv(lib, c, s)
    ensures OfferOk(lib, s, s.relays)
  {
    forall x | x in s.relays ensures Has(s.relays, x.value.advertisement.relayId) {
      var i :| 0 <= i < |s.relays| && s.relays[i] == x;
      MemberIsGet(s.relays, i);
    }
  }

  lemma {:induction false} FoundIsPeer(lib: Library, c: Config, s: State, contentId: Digest)
    requires Inv(lib, c, s)
    ensures FirstWith(s.peers, contentId).Some? ==> Has(s.peers, FirstWith(s.peers, contentId).value.peerId)
  {
    hide QueuesOk, RelaysOk, FirstWith;
    var i := FirstWithIsFirst(s.peers, contentId);
    if FirstWith(s.peers, contentId).Some? {
      assert s.peers[i] in s.peers;
      MemberIsGet(s.peers, i);
    }
  }

  /** Peer `i` is first with the content, and its queue has room. */
  ghost predicate CanServe(c: Config, t: State, contentId: Digest, i: nat) {
    IsFirst(t.peers, contentId, i) && |QueueOf(t.queues, t.peers[i].value.advertisement.peerId)| < c.maxAssignments
  }

  ghost predicate Names(a: RouteAssignment, ad: PeerAdvertisement, relay: RelayAdvertisement) {
    && a.providerId == ad.peerId && a.providerKey == ad.publicKey
    && a.relayId == relay.relayId && a.relayAddress == relay.address
  }

  /**
   * A discovery succeeds exactly when the first live provider of the
   * content has room and some relay is live; it names both.
   */
  lemma {:induction false} DiscoverExactly(c: Config, s: State, now: nat, contentId: Digest)
    ensures var t, a := Purged(s, now), Discover(c, s, now, contentId).1;
            && (a.Some? <==> t.relays != [] && exists i: nat :: CanServe(c, t, contentId, i))
            && (forall i: nat | a.Some? && CanServe(c, t, contentId, i) ::
                  Names(a.value, t.peers[i].value.advertisement, t.relays[0].value.advertisement))
  {
    var t := Purged(s, now);
    var i := FirstWithIsFirst(t.peers, contentId);
    hide Purged, FirstWith, QueueOf, Put, RouteName;
    if FirstWith(t.peers, contentId).Some? {
      assert IsFirst(t.peers, contentId, i);
      assert forall j: nat :: IsFirst(t.peers, contentId, j) ==> j == i;
      assert t.relays != [] && Discover(c, s, now, contentId).1.Some? ==> CanServe(c, t, contentId, i);
    } else {
      forall j: nat ensures !IsFirst(t.peers, contentId, j) {
        assert j < |t.peers| ==> t.peers[j] in t.peers;
      }
    }
  }

  lemma {:induction false} DiscoverInv(lib: Library, c: Config, s: State, now: nat, contentId: Digest)
    requires Inv(lib, c, s)
    ensures Inv(lib, c, Discover(c, s, now, contentId).0)
    ensures Answer.Valid(lib, Answer.Route(Discover(c, s, now, contentId).1))
  {
    var t := Purged(s, now);
    PurgedInv(lib, c, s, now);
    FoundIsPeer(lib, c, t, contentId);
    RelayListed(lib, c, t);
    PrefixOk();
    hide Purged, Inv, RelayOk, FirstWith, QueueAssignment, EntryOk, IsPrefix, Has;
    var provider := FirstWith(t.peers, contentId);
    if provider.Some? && t.relays != [] {
      assert t.relays[0] in t.relays;
      var relay := t.relays[0].value.advertisement;
      QueueAssignmentInv(lib, c, t, now, provider.value, relay, Ascii("m2"));
      var a := QueueAssignment(c, t, now, provider.value, relay, Ascii("m2")).1;
      EntryNames(lib, t, a, provider.value.peerId);
      if a.Some? {
        EntryIsValid(lib, a.value, t.relays);
      }
    }
  }

  /** One discovery never names a provider twice, and every route in it can be sent. */
  lemma {:induction false} DiscoverProvidersInv(
    lib: Library, c: Config, s: State, now: nat, contentId: Digest, limit: nat)
    requires Inv(lib, c, s) && limit <= 16
    ensures var (t, routes) := DiscoverProviders(c, s, now, contentId, limit);
            && Inv(lib, c, t) && |routes| <= limit && Answer.Valid(lib, Answer.Routes(routes))
            && forall i, j | 0 <= i < j < |routes| :: routes[i].providerId != routes[j].providerId
  {
    var t := Purged(s, now);
    PurgedInv(lib, c, s, now);
    SwarmProvidersArePeers(t.peers, contentId, limit);
    RelayListed(lib, c, t);
    hide Purged, Inv, SwarmProviders, QueueAll, EntryOk, Less;
    if t.relays != [] {
      var providers := SwarmProviders(t.peers, contentId, limit);
      QueueAllInv(lib, c, t, now, providers, t.relays, 0);
      var routes := QueueAll(c, t, now, providers, t.relays, 0).1;
      forall i, j | 0 <= i < j < |routes| ensures routes[i].providerId != routes[j].providerId {
        LessIrreflexive(routes[i].providerId);
      }
      RoutesValid(lib, t, routes);
    }
  }

  lemma {:induction false} RoutesValid(lib: Library, s: State, routes: seq<RouteAssignment>)
    requires |routes| <= 16 && forall a | a in routes :: EntryOk(lib, a, a.providerId, s.relays)
    ensures Answer.Valid(lib, Answer.Routes(routes))
  {
    hide Answer.ValidAssignment, Answer.TextTyped;
    forall i | 0 <= i < |routes| ensures Answer.ValidAssignment(lib, routes[i]) && Answer.TextTyped(routes[i]) {
      assert routes[i] in routes;
    }
  }

  lemma {:induction false} NextUsableMembers(q: seq<Queued>, now: nat, relays: Relays)
    ensures var (rest, a) := NextUsable(q, now, relays);
            && |rest| <= |q| && (forall e | e in rest :: e in q)
            && (a.Some? ==> exists e | e in q :: e.assignment == a.value)
  {
    if q != [] && !Usable(q[0], now, relays) {
      NextUsableMembers(q[1..], now, relays);
      assert forall e | e in q[1..] :: e in q;
    } else if q != [] {
      assert q[0] in q;
    }
  }

  lemma {:induction false} PollInv(lib: Library, c: Config, s: State, now: nat, id: seq<Byte>)
    requires Inv(lib, c, s)
    ensures Inv(lib, c, PollPeer(c, s, now, id).0)
    ensures Answer.Valid(lib, Answer.Assignment(PollPeer(c, s, now, id).1))
  {
    HeartbeatPeerInv(lib, c, s, now, id);
    var (t, live) := HeartbeatPeer(c, s, now, id);
    hide HeartbeatPeer, NextUsable, EntryOk, Inv;
    if live && Has(t.queues, id) {
      QueueOfOk(lib, c, t, id);
      var q := QueueOf(t.queues, id);
      NextUsableMembers(q, now, t.relays);
      var (rest, a) := NextUsable(q, now, t.relays);
      PutQueueInv(lib, c, t, id, rest);
      if a.Some? {
        var e :| e in q && e.assignment == a.value;
        EntryOfQueue(lib, c, t, id, e);
        EntryIsValid(lib, a.value, t.relays);
      }
    }
  }

  lemma {:induction false} EntryOfQueue(lib: Library, c: Config, s: State, id: seq<Byte>, e: Queued)
    requires QueueOk(lib, c, Item(id, QueueOf(s.queues, id)), s.peers, s.relays) && e in QueueOf(s.queues, id)
    ensures EntryOk(lib, e.assignment, e.assignment.providerId, s.relays)
  {
  }

  // ----- Failure reports -----

  lemma {:induction false} WithoutRelayMembers(q: seq<Queued>, relayId: seq<Byte>)
    ensures |WithoutRelay(q, relayId)| <= |q|
    ensures forall e | e in WithoutRelay(q, relayId) :: e in q && e.assignment.relayId != relayId
  {
    if q != [] {
      WithoutRelayMembers(q[1..], relayId);
    }
  }

  lemma {:induction false} WithoutRelaysAt(qs: Queues, relayId: seq<Byte>)
    ensures |WithoutRelays(qs, relayId)| == |qs|
    ensures forall i | 0 <= i < |qs| ::
              WithoutRelays(qs, relayId)[i] == Item(qs[i].key, WithoutRelay(qs[i].value, relayId))
  {
    if qs != [] {
      WithoutRelaysAt(qs[1..], relayId);
    }
  }

  lemma {:induction false} ReportInv(lib: Library, c: Config, s: State, relayId: seq<Byte>)
    requires Inv(lib, c, s)
    ensures Inv(lib, c, ReportFailure(s, relayId))
  {
    RemoveSorted(s.relays, relayId);
    WithoutRelaysAt(s.queues, relayId);
    var qs, relays := WithoutRelays(s.queues, relayId), Remove(s.relays, relayId);
    hide RelayOk, WithoutRelay, WithoutRelays, Remove, Get, Answer.ValidAssignment, Answer.TextTyped;
    forall x | x in qs ensures QueueOk(lib, c, x, s.peers, relays) {
      var i :| 0 <= i < |qs| && qs[i] == x;
      assert s.queues[i] in s.queues;
      assert QueueOk(lib, c, s.queues[i], s.peers, s.relays);
      WithoutRelayMembers(s.queues[i].value, relayId);
      forall e | e in x.value ensures EntryOk(lib, e.assignment, x.key, relays) {
        GetRemove(s.relays, relayId, e.assignment.relayId);
      }
    }
  }

  // ----- Every request -----

  /** Whatever a decoded request does, the invariant holds afterwards and the response passes its validation. */
  lemma {:induction false} HandleInv(lib: Library, c: Config, s: State, now: nat, q: Ask.OverlayRequest)
    requires Inv(lib, c, s) && c.leaseMs <= U64_MAX && Ask.Valid(lib, q)
    ensures Inv(lib, c, Handle(lib, c, s, now, q).0)
    ensures Answer.Valid(lib, Handle(lib, c, s, now, q).1)
  {
    hide Inv, RegisterPeer, RegisterRelay, HeartbeatPeer, HeartbeatRelay, Discover, DiscoverProviders, PollPeer,
      ReportFailure;
    hide Confirm, Ascii, ValidIdentifier, Utf8;
    AsciiText(NO_PEER);
    AsciiText(NO_RELAY);
    match q {
      case RegisterPeer(peer) =>
        RegisterPeerInv(lib, c, s, now, peer);
        ConfirmValid(lib, c, RegisterPeer(lib, c, s, now, peer).1);
      case HeartbeatPeer(id) => HeartbeatPeerInv(lib, c, s, now, id);
      case PollPeer(id) =>
        HeartbeatPeerInv(lib, c, s, now, id);
        PollInv(lib, c, HeartbeatPeer(c, s, now, id).0, now, id);
      case RegisterRelay(relay) =>
        RegisterRelayInv(lib, c, s, now, relay);
        ConfirmValid(lib, c, RegisterRelay(lib, c, s, now, relay).1);
      case HeartbeatRelay(id) => HeartbeatRelayInv(lib, c, s, now, id);
      case Discover(contentId) => DiscoverInv(lib, c, s, now, contentId);
      case DiscoverProviders(query) => DiscoverProvidersInv(lib, c, s, now, query.contentId, Min(query.limit, 16));
      case ReportRelayFailure(id) => ReportInv(lib, c, s, id);
      case Health =>
    }
  }
}
