/** What each registry operation does to what a caller can look up: leases by identifier, and queues by provider. */
module RegistryEffects {
  import opened Prelude
  import opened ByteOrder
  import opened Content
  import opened WireRecords
  import opened WireLists
  import opened Registry
  import opened RegistryInvariant

  ghost predicate Keyed(peers: Peers) {
    forall x | x in peers :: x.value.advertisement.peerId == x.key
  }

  /** The maps are in key order, peers under their own identifiers, and the route counter is a 64-bit word. */
  ghost predicate Ordered(s: State) {
    Sorted(s.peers) && Sorted(s.relays) && Sorted(s.queues) && Keyed(s.peers) && s.nextRoute <= U64_MAX
  }

  predicate LiveIn<A>(m: seq<Item<Lease<A>>>, k: seq<Byte>, now: nat) {
    Has(m, k) && Get(m, k).value.expiresAt > now
  }

  /** Exactly the leases that have not run out are left, as they were. */
  ghost predicate OnlyLive<A>(before: seq<Item<Lease<A>>>, after: seq<Item<Lease<A>>>, now: nat) {
    forall k :: Get(after, k) == if LiveIn(before, k, now) then Get(before, k) else None
  }

  /** And `id` has the given lease. */
  ghost predicate OnlyLiveAnd<A>(
    before: seq<Item<Lease<A>>>, after: seq<Item<Lease<A>>>, now: nat, id: seq<Byte>, lease: Lease<A>)
  {
    forall k :: Get(after, k) ==
      if k == id then Some(lease) else if LiveIn(before, k, now) then Get(before, k) else None
  }

  predicate StillUsable(e: Queued, now: nat, relays: Relays) {
    e.expiresAt > now && LiveIn(relays, e.assignment.relayId, now)
  }

  /** In order, the entries that have not run out and whose relay has not either. */
  ghost function Usables(q: seq<Queued>, now: nat, relays: Relays): seq<Queued> {
    if q == [] then []
    else if StillUsable(q[0], now, relays) then [q[0]] + Usables(q[1..], now, relays)
    else Usables(q[1..], now, relays)
  }

  /** Live providers keep the usable part of their queues; the others have none. */
  ghost predicate OnlyUsable(s: State, after: Queues, now: nat) {
    forall k :: QueueOf(after, k) ==
      if LiveIn(s.peers, k, now) then Usables(QueueOf(s.queues, k), now, s.relays) else []
  }

  // ----- The purge -----

  lemma {:induction false} UnexpiredIsLive<A>(m: seq<Item<Lease<A>>>, now: nat)
    requires Sorted(m)
    ensures OnlyLive(m, Unexpired(m, now), now)
    ensures forall k :: Has(Unexpired(m, now), k) <==> LiveIn(m, k, now)
  {
    hide Get, Unexpired;
    forall k ensures Get(Unexpired(m, now), k) == if LiveIn(m, k, now) then Get(m, k) else None {
      GetUnexpired(m, now, k);
    }
  }

  lemma {:induction false} FreshIsUsables(q: seq<Queued>, now: nat, relays: Relays)
    requires Sorted(relays)
    ensures FreshQueue(q, now, Unexpired(relays, now)) == Usables(q, now, relays)
  {
    if q != [] {
      FreshIsUsables(q[1..], now, relays);
      GetUnexpired(relays, now, q[0].assignment.relayId);
    }
  }

  lemma {:induction false} QueueOfFresh(qs: Queues, now: nat, peers: Peers, relays: Relays, id: seq<Byte>)
    requires Sorted(qs)
    ensures QueueOf(FreshQueues(qs, now, peers, relays), id) ==
            if Has(peers, id) then FreshQueue(QueueOf(qs, id), now, relays) else []
  {
    if qs != [] {
      SortedTail(qs);
      QueueOfFresh(qs[1..], now, peers, relays, id);
      if qs[0].key == id {
        GetIsMember(qs[1..], id);
        LessIrreflexive(id);
      }
      var whole, rest := FreshQueues(qs, now, peers, relays), FreshQueues(qs[1..], now, peers, relays);
      if Has(peers, qs[0].key) && FreshQueue(qs[0].value, now, relays) != [] {
        assert whole[1..] == rest;
      }
    }
  }

  lemma {:induction false} PurgeUsable(s: State, now: nat)
    requires Ordered(s)
    ensures OnlyUsable(s, Purged(s, now).queues, now)
  {
    var peers, relays := Unexpired(s.peers, now), Unexpired(s.relays, now);
    hide Unexpired, FreshQueues, FreshQueue, QueueOf, Usables;
    forall k ensures QueueOf(FreshQueues(s.queues, now, peers, relays), k) ==
                     if LiveIn(s.peers, k, now) then Usables(QueueOf(s.queues, k), now, s.relays) else []
    {
      QueueOfFresh(s.queues, now, peers, relays, k);
      GetUnexpired(s.peers, now, k);
      FreshIsUsables(QueueOf(s.queues, k), now, s.relays);
    }
  }

  /** What a purge drops is what it counts, and nothing else changes. */
  ghost predicate PurgeEffect(s: State, t: State, now: nat) {
    && OnlyLive(s.peers, t.peers, now) && OnlyLive(s.relays, t.relays, now) && OnlyUsable(s, t.queues, now)
    && t.nextRoute == s.nextRoute
    && t.expiredPeers + |t.peers| == s.expiredPeers + |s.peers|
    && t.expiredRelays + |t.relays| == s.expiredRelays + |s.relays|
    && t.expiredRoutes + Total(t.queues) == s.expiredRoutes + Total(s.queues)
  }

  lemma {:induction false} PurgeDoes(s: State, now: nat)
    requires Ordered(s)
    ensures PurgeEffect(s, Purged(s, now), now) && Ordered(Purged(s, now))
  {
    PurgeUsable(s, now);
    UnexpiredIsLive(s.peers, now);
    UnexpiredIsLive(s.relays, now);
    UnexpiredMembers(s.peers, now);
    UnexpiredMembers(s.relays, now);
    UnexpiredSorted(s.peers, now);
    UnexpiredSorted(s.relays, now);
    FreshQueuesMembers(s.queues, now, Unexpired(s.peers, now), Unexpired(s.relays, now));
    FreshQueuesSorted(s.queues, now, Unexpired(s.peers, now), Unexpired(s.relays, now));
    hide Unexpired, FreshQueues, Total, OnlyLive, OnlyUsable, Sorted;
  }

  // ----- Leases -----

  lemma {:induction false} PutOverLive<A>(
    before: seq<Item<Lease<A>>>, m: seq<Item<Lease<A>>>, now: nat, id: seq<Byte>, lease: Lease<A>)
    requires Sorted(m) && OnlyLive(before, m, now)
    ensures OnlyLiveAnd(before, Put(m, id, lease), now, id, lease)
  {
    hide Get, Put;
    forall k ensures Get(Put(m, id, lease), k) == if k == id then Some(lease) else Get(m, k) {
      GetPut(m, id, lease, k);
    }
  }

  /** A heartbeat renews a lease that has not run out and reports whether it did; a purge is all it does otherwise. */
  ghost predicate HeartbeatEffect<A>(
    before: seq<Item<Lease<A>>>, after: seq<Item<Lease<A>>>, now: nat, leaseMs: nat, id: seq<Byte>, live: bool)
  {
    && (live <==> LiveIn(before, id, now))
    && if live then
         OnlyLiveAnd(before, after, now, id, Get(before, id).value.(expiresAt := SaturatingAdd(now, leaseMs)))
       else
         OnlyLive(before, after, now)
  }

  lemma {:induction false} HeartbeatPeerDoes(c: Config, s: State, now: nat, id: seq<Byte>)
    requires Ordered(s)
    ensures var (t, live) := HeartbeatPeer(c, s, now, id);
            && HeartbeatEffect(s.peers, t.peers, now, c.leaseMs, id, live)
            && OnlyLive(s.relays, t.relays, now) && OnlyUsable(s, t.queues, now) && Ordered(t)
            && t == Purged(s, now).(peers := t.peers)
  {
    PurgeDoes(s, now);
    var peers := Purged(s, now).peers;
    hide Purged, OnlyUsable, Put, Sorted;
    var lease := Get(peers, id);
    if lease.Some? {
      GetIsMember(peers, id);
      PutKeys(peers, id, Lease(lease.value.advertisement, SaturatingAdd(now, c.leaseMs)));
      PutOverLive(s.peers, peers, now, id, Lease(lease.value.advertisement, SaturatingAdd(now, c.leaseMs)));
      PutSorted(peers, id, Lease(lease.value.advertisement, SaturatingAdd(now, c.leaseMs)));
    }
  }

  lemma {:induction false} HeartbeatRelayDoes(c: Config, s: State, now: nat, id: seq<Byte>)
    requires Ordered(s)
    ensures var (t, live) := HeartbeatRelay(c, s, now, id);
            && HeartbeatEffect(s.relays, t.relays, now, c.leaseMs, id, live)
            && OnlyLive(s.peers, t.peers, now) && OnlyUsable(s, t.queues, now) && Ordered(t)
            && t == Purged(s, now).(relays := t.relays)
  {
    PurgeDoes(s, now);
    var relays := Purged(s, now).relays;
    hide Purged, OnlyUsable, Put, Sorted;
    var lease := Get(relays, id);
    if lease.Some? {
      PutOverLive(s.relays, relays, now, id, Lease(lease.value.advertisement, SaturatingAdd(now, c.leaseMs)));
      PutSorted(relays, id, Lease(lease.value.advertisement, SaturatingAdd(now, c.leaseMs)));
    }
  }

  /** The identifiers whose leases have not run out. */
  ghost function LiveKeys<A>(m: seq<Item<Lease<A>>>, now: nat): set<seq<Byte>> {
    set x | x in m && x.value.expiresAt > now :: x.key
  }

  lemma {:induction false} LiveKeysCons<A>(x: Item<Lease<A>>, rest: seq<Item<Lease<A>>>, now: nat)
    ensures LiveKeys([x] + rest, now) == (if x.value.expiresAt > now then {x.key} else {}) + LiveKeys(rest, now)
  {
    assert x in [x] + rest;
  }

  lemma {:induction false} LiveKeysCounted<A>(m: seq<Item<Lease<A>>>, now: nat)
    requires Sorted(m)
    ensures |Unexpired(m, now)| == |LiveKeys(m, now)|
  {
    if m == [] {
      assert LiveKeys(m, now) == {};
    } else {
      SortedTail(m);
      LiveKeysCounted(m[1..], now);
      LessIrreflexive(m[0].key);
      hide Less;
      var rest := LiveKeys(m[1..], now);
      assert m[0].key !in rest;
      hide Sorted;
      LiveKeysCons(m[0], m[1..], now);
      assert m == [m[0]] + m[1..];
    }
  }

  /** A registration is admitted exactly when it renews a live lease or the live ones leave room. */
  ghost predicate RegisterEffect<A>(
    before: seq<Item<Lease<A>>>, after: seq<Item<Lease<A>>>, now: nat, max: nat, id: seq<Byte>, lease: Lease<A>,
    admitted: bool)
  {
    && (admitted <==> LiveIn(before, id, now) || |LiveKeys(before, now)| < max)
    && if admitted then OnlyLiveAnd(before, after, now, id, lease) else OnlyLive(before, after, now)
  }

  lemma {:induction false} RegisterPeerDoes(lib: Library, c: Config, s: State, now: nat, ad: PeerAdvertisement)
    requires Ordered(s)
    ensures var (t, refused) := RegisterPeer(lib, c, s, now, ad);
            if CheckPeer(lib, c, ad).Some? then t == s && refused == CheckPeer(lib, c, ad) else
              && refused in {None, Some(PeerLimitReached)}
              && RegisterEffect(
                   s.peers, t.peers, now, c.maxPeers, ad.peerId,
                   Lease(ad, SaturatingAdd(now, c.leaseMs)), refused.None?)
              && OnlyLive(s.relays, t.relays, now) && OnlyUsable(s, t.queues, now) && Ordered(t)
              && t == Purged(s, now).(peers := t.peers)
  {
    PurgeDoes(s, now);
    LiveKeysCounted(s.peers, now);
    var peers := Purged(s, now).peers;
    assert peers == Unexpired(s.peers, now);
    hide Purged, OnlyUsable, Put, Sorted, LiveKeys, Unexpired, CheckPeer;
    PutKeys(peers, ad.peerId, Lease(ad, SaturatingAdd(now, c.leaseMs)));
    PutOverLive(s.peers, peers, now, ad.peerId, Lease(ad, SaturatingAdd(now, c.leaseMs)));
    PutSorted(peers, ad.peerId, Lease(ad, SaturatingAdd(now, c.leaseMs)));
  }

  lemma {:induction false} RegisterRelayDoes(lib: Library, c: Config, s: State, now: nat, ad: RelayAdvertisement)
    requires Ordered(s)
    ensures var (t, refused) := RegisterRelay(lib, c, s, now, ad);
            if CheckRelay(lib, ad).Some? then t == s && refused == CheckRelay(lib, ad) else
              && refused in {None, Some(RelayLimitReached)}
              && RegisterEffect(
                   s.relays, t.relays, now, c.maxRelays, ad.relayId,
                   Lease(ad, SaturatingAdd(now, c.leaseMs)), refused.None?)
              && OnlyLive(s.peers, t.peers, now) && OnlyUsable(s, t.queues, now) && Ordered(t)
              && t == Purged(s, now).(relays := t.relays)
  {
    PurgeDoes(s, now);
    LiveKeysCounted(s.relays, now);
    var relays := Purged(s, now).relays;
    assert relays == Unexpired(s.relays, now);
    hide Purged, OnlyUsable, Put, Sorted, LiveKeys, Unexpired, CheckRelay;
    PutOverLive(s.relays, relays, now, ad.relayId, Lease(ad, SaturatingAdd(now, c.leaseMs)));
    PutSorted(relays, ad.relayId, Lease(ad, SaturatingAdd(now, c.leaseMs)));
  }

  // ----- Queues -----

  lemma {:induction false} QueueOfPut(qs: Queues, id: seq<Byte>, q: seq<Queued>, j: seq<Byte>)
    requires Sorted(qs)
    ensures QueueOf(Put(qs, id, q), j) == if j == id then q else QueueOf(qs, j)
  {
    GetPut(qs, id, q, j);
  }

  lemma {:induction false} QueuesAfterPut(qs: Queues, id: seq<Byte>, q: seq<Queued>)
    requires Sorted(qs)
    ensures forall k :: QueueOf(Put(qs, id, q), k) == if k == id then q else QueueOf(qs, k)
  {
    hide Put, QueueOf;
    forall k ensures QueueOf(Put(qs, id, q), k) == if k == id then q else QueueOf(qs, k) {
      QueueOfPut(qs, id, q, k);
    }
  }

  /** The provider's queue grows by the assignment handed out, if any; every other queue is as it was. */
  ghost predicate OneMore(before: Queues, after: Queues, id: seq<Byte>, added: Option<Queued>) {
    forall k :: QueueOf(after, k) == QueueOf(before, k) + if k == id && added.Some? then [added.value] else []
  }

  /** An assignment is handed out exactly when the provider's queue has room, under the next route number. */
  ghost predicate AssignmentEffect(
    c: Config, s: State, t: State, now: nat, provider: PeerAdvertisement, relay: RelayAdvertisement, prefix: seq<Byte>,
    a: Option<RouteAssignment>)
  {
    && (a.Some? <==> |QueueOf(s.queues, provider.peerId)| < c.maxAssignments)
    && OneMore(s.queues, t.queues, provider.peerId,
               if a.Some? then Some(Queued(a.value, SaturatingAdd(now, c.leaseMs))) else None)
    && (a.Some? ==> Names(a.value, provider, relay) && a.value.route == RouteName(prefix, t.nextRoute))
    && t.nextRoute == (if a.Some? then (s.nextRoute + 1) % (U64_MAX + 1) else s.nextRoute)
    && t == s.(queues := t.queues, nextRoute := t.nextRoute)
  }

  lemma {:induction false} QueueAssignmentDoes(
    c: Config, s: State, now: nat, provider: PeerAdvertisement, relay: RelayAdvertisement, prefix: seq<Byte>)
    requires Sorted(s.queues)
    ensures var (t, a) := QueueAssignment(c, s, now, provider, relay, prefix);
            AssignmentEffect(c, s, t, now, provider, relay, prefix, a) && Sorted(t.queues)
            && (s.nextRoute <= U64_MAX ==> t.nextRoute <= U64_MAX)
  {
    var (t, a) := QueueAssignment(c, s, now, provider, relay, prefix);
    var q := QueueOf(s.queues, provider.peerId);
    QueuesAfterPut(s.queues, provider.peerId, q);
    PutSorted(s.queues, provider.peerId, q);
    if a.Some? {
      QueuesAfterPut(s.queues, provider.peerId, q + [Queued(a.value, SaturatingAdd(now, c.leaseMs))]);
      PutSorted(s.queues, provider.peerId, q + [Queued(a.value, SaturatingAdd(now, c.leaseMs))]);
    }
    hide QueueOf, Put, RouteName;
  }

  /** How many entries go through other relays. */
  ghost function Others(q: seq<Queued>, relayId: seq<Byte>): nat {
    if q == [] then 0 else Others(q[1..], relayId) + if q[0].assignment.relayId != relayId then 1 else 0
  }

  /**
   * `after` is `before` without the entries through the relay: every other entry is at the place that the number of
   * other entries before it gives, and there are no more.
   */
  ghost predicate NoneThrough(before: seq<Queued>, after: seq<Queued>, relayId: seq<Byte>) {
    && |after| == Others(before, relayId)
    && forall i | 0 <= i < |before| && before[i].assignment.relayId != relayId ::
         Others(before[..i], relayId) < |after| && after[Others(before[..i], relayId)] == before[i]
  }

  lemma {:induction false} OthersRemain(q: seq<Queued>, relayId: seq<Byte>)
    ensures NoneThrough(q, WithoutRelay(q, relayId), relayId)
  {
    if q != [] {
      OthersRemain(q[1..], relayId);
      var after, rest := WithoutRelay(q, relayId), WithoutRelay(q[1..], relayId);
      forall i | 0 <= i < |q| && q[i].assignment.relayId != relayId
        ensures Others(q[..i], relayId) < |after| && after[Others(q[..i], relayId)] == q[i]
      {
        if i > 0 {
          assert q[..i][1..] == q[1..][..i - 1];
          assert q[1..][i - 1] == q[i];
        }
      }
    }
  }

  lemma {:induction false} QueueOfWithout(qs: Queues, k: seq<Byte>, id: seq<Byte>)
    ensures QueueOf(WithoutRelays(qs, k), id) == WithoutRelay(QueueOf(qs, id), k)
    ensures Total(WithoutRelays(qs, k)) <= Total(qs)
  {
    if qs != [] {
      QueueOfWithout(qs[1..], k, id);
      WithoutRelayMembers(qs[0].value, k);
      assert WithoutRelays(qs, k)[1..] == WithoutRelays(qs[1..], k);
    }
  }

  ghost predicate FailureEffect(s: State, t: State, relayId: seq<Byte>) {
    && t == s.(relays := t.relays, queues := t.queues)
    && (forall k :: Get(t.relays, k) == if k == relayId then None else Get(s.relays, k))
    && forall k :: NoneThrough(QueueOf(s.queues, k), QueueOf(t.queues, k), relayId)
  }

  lemma {:induction false} WithoutRelaysSorted(qs: Queues, relayId: seq<Byte>)
    requires Sorted(qs)
    ensures Sorted(WithoutRelays(qs, relayId))
  {
    WithoutRelaysKeys(qs, relayId);
  }

  lemma {:induction false} WithoutRelaysKeys(qs: Queues, relayId: seq<Byte>)
    ensures |WithoutRelays(qs, relayId)| == |qs|
    ensures forall i | 0 <= i < |qs| :: WithoutRelays(qs, relayId)[i].key == qs[i].key
  {
    if qs != [] {
      WithoutRelaysKeys(qs[1..], relayId);
    }
  }

  /** The relay is gone, and with it exactly the queued assignments through it. */
  lemma {:induction false} ReportFailureDoes(s: State, relayId: seq<Byte>)
    requires Ordered(s)
    ensures FailureEffect(s, ReportFailure(s, relayId), relayId) && Ordered(ReportFailure(s, relayId))
  {
    RemoveSorted(s.relays, relayId);
    WithoutRelaysSorted(s.queues, relayId);
    hide Remove, WithoutRelays, WithoutRelay, QueueOf, Get, NoneThrough;
    var t := ReportFailure(s, relayId);
    forall k ensures Get(t.relays, k) == if k == relayId then None else Get(s.relays, k) {
      GetRemove(s.relays, relayId, k);
    }
    forall k ensures NoneThrough(QueueOf(s.queues, k), QueueOf(t.queues, k), relayId) {
      QueueOfWithout(s.queues, relayId, k);
      OthersRemain(QueueOf(s.queues, k), relayId);
    }
  }

  lemma {:induction false} PollOrdered(c: Config, s: State, now: nat, id: seq<Byte>)
    requires Ordered(s)
    ensures Ordered(PollPeer(c, s, now, id).0)
  {
    HeartbeatPeerDoes(c, s, now, id);
    var (t, live) := HeartbeatPeer(c, s, now, id);
    hide HeartbeatPeer, HeartbeatEffect, OnlyLive, OnlyUsable, Put, Sorted;
    PutSorted(t.queues, id, NextUsable(QueueOf(t.queues, id), now, t.relays).0);
  }
}
