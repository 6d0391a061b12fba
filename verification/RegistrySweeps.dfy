/** Purging is lazy and invisible: under non-decreasing time, no extra purge ever changes an answer. */
module RegistrySweeps {
  import opened Prelude
  import opened ByteOrder
  import opened Content
  import opened WireRecords
  import opened WireLists
  import opened Registry
  import opened RegistryInvariant
  import opened RegistryRuns
  import Ask = WireRequests
  import Answer = WireResponses

  // ----- Purging twice -----

  lemma {:induction false} UnexpiredTwice<A>(m: seq<Item<Lease<A>>>, a: nat, b: nat)
    requires a <= b
    ensures Unexpired(Unexpired(m, a), b) == Unexpired(m, b)
    ensures forall k | Has(Unexpired(m, b), k) :: Has(Unexpired(m, a), k)
  {
    if m != [] {
      UnexpiredTwice(m[1..], a, b);
      assert m[0].value.expiresAt > a ==> Unexpired(m, a)[1..] == Unexpired(m[1..], a);
      assert m[0].value.expiresAt > b ==> Unexpired(m, b)[1..] == Unexpired(m[1..], b);
      forall k | Has(Unexpired(m, b), k) ensures Has(Unexpired(m, a), k) {
        assert m[0].key == k || Has(Unexpired(m[1..], b), k);
      }
    }
  }

  lemma {:induction false} FreshTwice(q: seq<Queued>, a: nat, relaysA: Relays, b: nat, relaysB: Relays)
    requires a <= b && forall k | Has(relaysB, k) :: Has(relaysA, k)
    ensures FreshQueue(FreshQueue(q, a, relaysA), b, relaysB) == FreshQueue(q, b, relaysB)
  {
    if q != [] {
      FreshTwice(q[1..], a, relaysA, b, relaysB);
      assert Usable(q[0], a, relaysA) ==> FreshQueue(q, a, relaysA)[1..] == FreshQueue(q[1..], a, relaysA);
    }
  }

  lemma {:induction false} FreshQueuesTwice(
    qs: Queues, a: nat, peersA: Peers, relaysA: Relays, b: nat, peersB: Peers, relaysB: Relays)
    requires a <= b && (forall k | Has(relaysB, k) :: Has(relaysA, k)) && (forall k | Has(peersB, k) :: Has(peersA, k))
    ensures FreshQueues(FreshQueues(qs, a, peersA, relaysA), b, peersB, relaysB) == FreshQueues(qs, b, peersB, relaysB)
  {
    if qs != [] {
      FreshQueuesTwice(qs[1..], a, peersA, relaysA, b, peersB, relaysB);
      FreshTwice(qs[0].value, a, relaysA, b, relaysB);
      var q, rest := FreshQueue(qs[0].value, a, relaysA), FreshQueues(qs[1..], a, peersA, relaysA);
      if Has(peersA, qs[0].key) && q != [] {
        assert FreshQueues(qs, a, peersA, relaysA)[1..] == rest;
      }
    }
  }

  /** A purge makes every earlier purge redundant, counters included. */
  lemma {:induction false} PurgeTwice(s: State, a: nat, b: nat)
    requires a <= b
    ensures Purged(Purged(s, a), b) == Purged(s, b)
  {
    var peers, relays := Unexpired(s.peers, a), Unexpired(s.relays, a);
    UnexpiredTwice(s.peers, a, b);
    UnexpiredTwice(s.relays, a, b);
    UnexpiredMembers(s.peers, a);
    UnexpiredMembers(peers, b);
    UnexpiredMembers(s.relays, a);
    UnexpiredMembers(relays, b);
    FreshQueuesTwice(s.queues, a, peers, relays, b, Unexpired(s.peers, b), Unexpired(s.relays, b));
    FreshQueuesMembers(s.queues, a, peers, relays);
    FreshQueuesMembers(FreshQueues(s.queues, a, peers, relays), b, Unexpired(s.peers, b), Unexpired(s.relays, b));
    hide Unexpired, FreshQueues, Total, Has;
  }

  // ----- States that cannot be told apart -----

  /** Equal but for the expiry counters, which no answer depends on. */
  ghost predicate SameCore(s: State, t: State) {
    s.peers == t.peers && s.relays == t.relays && s.queues == t.queues && s.nextRoute == t.nextRoute
  }

  /** Equal once both are purged. */
  ghost predicate Alike(s: State, t: State, now: nat) {
    SameCore(Purged(s, now), Purged(t, now))
  }

  lemma {:induction false} PurgedCore(s: State, t: State, now: nat)
    requires SameCore(s, t)
    ensures Alike(s, t, now)
  {
  }

  lemma {:induction false} AlikeLater(s: State, t: State, a: nat, b: nat)
    requires Alike(s, t, a) && a <= b
    ensures Alike(s, t, b)
  {
    hide Purged;
    PurgeTwice(s, a, b);
    PurgeTwice(t, a, b);
    PurgedCore(Purged(s, a), Purged(t, a), b);
  }

  lemma {:induction false} QueueAllCore(
    c: Config, s: State, t: State, now: nat, providers: seq<PeerAdvertisement>, relays: Relays, index: nat)
    requires SameCore(s, t) && relays != [] && index <= |providers|
    ensures SameCore(QueueAll(c, s, now, providers, relays, index).0, QueueAll(c, t, now, providers, relays, index).0)
    ensures QueueAll(c, s, now, providers, relays, index).1 == QueueAll(c, t, now, providers, relays, index).1
    decreases |providers| - index
  {
    if index < |providers| {
      var relay := relays[index % |relays|].value.advertisement;
      var s' := QueueAssignment(c, s, now, providers[index], relay, Ascii("m4")).0;
      var t' := QueueAssignment(c, t, now, providers[index], relay, Ascii("m4")).0;
      QueueAllCore(c, s', t', now, providers, relays, index + 1);
    }
  }

  lemma {:induction false} DiscoverProvidersCore(c: Config, s: State, t: State, now: nat, contentId: Digest, limit: nat)
    requires Alike(s, t, now)
    ensures SameCore(DiscoverProviders(c, s, now, contentId, limit).0, DiscoverProviders(c, t, now, contentId, limit).0)
    ensures DiscoverProviders(c, s, now, contentId, limit).1 == DiscoverProviders(c, t, now, contentId, limit).1
  {
    hide Purged, QueueAll;
    var u, v := Purged(s, now), Purged(t, now);
    if u.relays != [] {
      QueueAllCore(c, u, v, now, SwarmProviders(u.peers, contentId, limit), u.relays, 0);
    }
  }

  // A failure report does not purge, yet purging first makes no difference to what is left.

  lemma {:induction false} RemoveAfterPurge<A>(m: seq<Item<Lease<A>>>, k: seq<Byte>, now: nat)
    requires Sorted(m)
    ensures Unexpired(Remove(Unexpired(m, now), k), now) == Unexpired(Remove(m, k), now)
  {
    if m != [] {
      SortedTail(m);
      if m[0].key == k {
        UnexpiredTwice(m[1..], now, now);
        UnexpiredMembers(m[1..], now);
        RemoveMissing(Unexpired(m[1..], now), k, m[0].key);
        assert m[0].value.expiresAt > now ==> Unexpired(m, now)[1..] == Unexpired(m[1..], now);
      } else {
        RemoveAfterPurge(m[1..], k, now);
        assert m[0].value.expiresAt > now ==> Unexpired(m, now)[1..] == Unexpired(m[1..], now);
        assert Remove(m, k)[1..] == Remove(m[1..], k);
        if m[0].value.expiresAt > now {
          assert Remove(Unexpired(m, now), k)[1..] == Remove(Unexpired(m[1..], now), k);
        }
      }
    }
  }

  lemma {:induction false} RemoveMissing<A>(m: seq<Item<Lease<A>>>, k: seq<Byte>, least: seq<Byte>)
    requires (forall x | x in m :: Less(least, x.key)) && k == least
    ensures Remove(m, k) == m
  {
    LessIrreflexive(k);
    if m != [] {
      assert m == [m[0]] + m[1..];
      RemoveMissing(m[1..], k, least);
    }
  }

  lemma {:induction false} DropAfterFresh(q: seq<Queued>, k: seq<Byte>, now: nat, relays: Relays, relays': Relays)
    requires forall j | Has(relays', j) :: Has(relays, j)
    ensures FreshQueue(WithoutRelay(FreshQueue(q, now, relays), k), now, relays') ==
            FreshQueue(WithoutRelay(q, k), now, relays')
  {
    if q != [] {
      DropAfterFresh(q[1..], k, now, relays, relays');
      if Usable(q[0], now, relays) {
        assert FreshQueue(q, now, relays)[1..] == FreshQueue(q[1..], now, relays);
        var w := WithoutRelay(FreshQueue(q, now, relays), k);
        if q[0].assignment.relayId != k {
          assert w[1..] == WithoutRelay(FreshQueue(q[1..], now, relays), k);
        }
      }
      if q[0].assignment.relayId != k {
        assert WithoutRelay(q, k)[1..] == WithoutRelay(q[1..], k);
      }
    }
  }

  lemma {:induction false} DropsAfterFresh(
    qs: Queues, k: seq<Byte>, now: nat, peers: Peers, relays: Relays, relays': Relays)
    requires forall j | Has(relays', j) :: Has(relays, j)
    ensures FreshQueues(WithoutRelays(FreshQueues(qs, now, peers, relays), k), now, peers, relays')
         == FreshQueues(WithoutRelays(qs, k), now, peers, relays')
  {
    if qs != [] {
      DropsAfterFresh(qs[1..], k, now, peers, relays, relays');
      DropAfterFresh(qs[0].value, k, now, relays, relays');
      var q, rest := FreshQueue(qs[0].value, now, relays), FreshQueues(qs[1..], now, peers, relays);
      assert WithoutRelays(qs, k)[1..] == WithoutRelays(qs[1..], k);
      if Has(peers, qs[0].key) && q != [] {
        assert FreshQueues(qs, now, peers, relays)[1..] == rest;
        assert WithoutRelays(FreshQueues(qs, now, peers, relays), k)[1..] == WithoutRelays(rest, k);
      }
    }
  }

  lemma {:induction false} ReportAfterPurge(lib: Library, c: Config, s: State, k: seq<Byte>, now: nat)
    requires Inv(lib, c, s)
    ensures Alike(ReportFailure(s, k), ReportFailure(Purged(s, now), k), now)
  {
    var peers, relays := Unexpired(s.peers, now), Unexpired(s.relays, now);
    var relays' := Unexpired(Remove(s.relays, k), now);
    UnexpiredTwice(s.peers, now, now);
    RemoveAfterPurge(s.relays, k, now);
    forall j | Has(relays', j) ensures Has(relays, j) {
      RemoveSorted(s.relays, k);
      GetUnexpired(Remove(s.relays, k), now, j);
      GetRemove(s.relays, k, j);
      GetUnexpired(s.relays, now, j);
    }
    DropsAfterFresh(s.queues, k, now, peers, relays, relays');
    hide Inv, Unexpired, FreshQueues, WithoutRelays, Remove, Total, Has;
  }

  lemma {:induction false} ReportAlike(lib: Library, c: Config, s: State, t: State, k: seq<Byte>, now: nat)
    requires Inv(lib, c, s) && Inv(lib, c, t) && Alike(s, t, now)
    ensures Alike(ReportFailure(s, k), ReportFailure(t, k), now)
  {
    ReportAfterPurge(lib, c, s, k, now);
    ReportAfterPurge(lib, c, t, k, now);
    hide Purged, Inv;
    PurgedCore(ReportFailure(Purged(s, now), k), ReportFailure(Purged(t, now), k), now);
  }

  /** States that look the same give the same answer, and look the same afterwards. */
  lemma {:induction false} HandleAlike(lib: Library, c: Config, s: State, t: State, now: nat, q: Ask.OverlayRequest)
    requires Inv(lib, c, s) && Inv(lib, c, t) && Alike(s, t, now)
    ensures Handle(lib, c, s, now, q).1 == Handle(lib, c, t, now, q).1
    ensures Alike(Handle(lib, c, s, now, q).0, Handle(lib, c, t, now, q).0, now)
  {
    match q {
      case DiscoverProviders(query) =>
        hide Purged, Inv, DiscoverProviders;
        DiscoverProvidersCore(c, s, t, now, query.contentId, Min(query.limit, 16));
        PurgedCore(Handle(lib, c, s, now, q).0, Handle(lib, c, t, now, q).0, now);
      case ReportRelayFailure(id) =>
        hide Purged, Inv, ReportFailure;
        ReportAlike(lib, c, s, t, id, now);
      case PollPeer(id) =>
        hide Purged, Inv, HeartbeatPeer, PollPeer;
        HeartbeatCore(c, s, t, now, id);
        PurgedCore(HeartbeatPeer(c, s, now, id).0, HeartbeatPeer(c, t, now, id).0, now);
        PollCore(c, HeartbeatPeer(c, s, now, id).0, HeartbeatPeer(c, t, now, id).0, now, id);
        PurgedCore(Handle(lib, c, s, now, q).0, Handle(lib, c, t, now, q).0, now);
      case _ =>
        OtherAlike(lib, c, s, t, now, q);
    }
  }

  lemma {:induction false} HeartbeatCore(c: Config, s: State, t: State, now: nat, id: seq<Byte>)
    requires Alike(s, t, now)
    ensures HeartbeatPeer(c, s, now, id).1 == HeartbeatPeer(c, t, now, id).1
    ensures SameCore(HeartbeatPeer(c, s, now, id).0, HeartbeatPeer(c, t, now, id).0)
  {
    hide Purged;
  }

  lemma {:induction false} PollCore(c: Config, s: State, t: State, now: nat, id: seq<Byte>)
    requires Alike(s, t, now)
    ensures PollPeer(c, s, now, id).1 == PollPeer(c, t, now, id).1
    ensures SameCore(PollPeer(c, s, now, id).0, PollPeer(c, t, now, id).0)
  {
    hide Purged, HeartbeatPeer;
    HeartbeatCore(c, s, t, now, id);
  }

  lemma {:induction false} OtherAlike(lib: Library, c: Config, s: State, t: State, now: nat, q: Ask.OverlayRequest)
    requires Alike(s, t, now) && !q.DiscoverProviders? && !q.ReportRelayFailure? && !q.PollPeer?
    ensures Handle(lib, c, s, now, q).1 == Handle(lib, c, t, now, q).1
    ensures Alike(Handle(lib, c, s, now, q).0, Handle(lib, c, t, now, q).0, now)
  {
    hide Purged, CheckPeer, CheckRelay, QueueOf, RouteName;
    var s', t' := Handle(lib, c, s, now, q).0, Handle(lib, c, t, now, q).0;
    if SameCore(s', t') {
      PurgedCore(s', t', now);
    }
  }

  // ----- The theorem -----

  function WithoutSweeps(events: seq<Event>): seq<Event> {
    if events == [] then []
    else
      var front, last := WithoutSweeps(events[..|events| - 1]), events[|events| - 1];
      if last.Sweep? then front else front + [last]
  }

  lemma {:induction false} WithoutSweepsMembers(events: seq<Event>)
    ensures forall e | e in WithoutSweeps(events) :: e in events
  {
    if events != [] {
      WithoutSweepsMembers(events[..|events| - 1]);
    }
  }

  /** Taking every sweep out of a run leaves every answer as it was. */
  lemma {:induction false} SweepsInvisible(lib: Library, c: Config, events: seq<Event>)
    requires AllDecoded(lib, events) && InOrder(events) && c.leaseMs <= U64_MAX
    ensures Responses(lib, c, events) == Responses(lib, c, WithoutSweeps(events))
    ensures Alike(After(lib, c, events), After(lib, c, WithoutSweeps(events)), LastTime(events))
  {
    hide Purged, Handle, Ask.Valid, Inv;
    if events == [] {
    } else {
      var front, last := events[..|events| - 1], events[|events| - 1];
      SweepsInvisible(lib, c, front);
      var s, t := After(lib, c, front), After(lib, c, WithoutSweeps(front));
      AlikeLater(s, t, LastTime(front), last.now);
      match last {
        case Sweep(now) => PurgeTwice(s, now, now);
        case Request(now, q) =>
          WithoutSweepsMembers(front);
          RunInv(lib, c, front);
          RunInv(lib, c, WithoutSweeps(front));
          HandleAlike(lib, c, s, t, now, q);
          assert WithoutSweeps(events)[..|WithoutSweeps(events)| - 1] == WithoutSweeps(front);
      }
    }
  }
}
