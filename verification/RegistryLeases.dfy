/**
 * Leases against history: a peer or relay is live exactly while its last successful renewal is unspent, that is while
 * the time is before renewal plus lease, an addition that saturates at the largest 64-bit number.
 */
module RegistryLeases {
  import opened Prelude
  import opened ByteOrder
  import opened Content
  import opened WireRecords
  import opened WireLists
  import opened Registry
  import opened RegistryInvariant
  import opened RegistryRuns
  import Ask = WireRequests
  import Answer = WireResponses

  /** The peer whose lease the exchange renewed, as the requester sees it. */
  function Renewed(q: Ask.OverlayRequest, p: Answer.OverlayResponse): Option<seq<Byte>> {
    match q
    case RegisterPeer(peer) => if p.Registered? then Some(peer.peerId) else None
    case HeartbeatPeer(id) => if p.Registered? then Some(id) else None
    case PollPeer(id) => if p.Assignment? then Some(id) else None
    case _ => None
  }

  function Noted(renewals: map<seq<Byte>, nat>, id: Option<seq<Byte>>, now: nat): map<seq<Byte>, nat> {
    if id.Some? then renewals[id.value := now] else renewals
  }

  /** The time of each peer's last successful renewal. */
  function Renewals(lib: Library, c: Config, events: seq<Event>): map<seq<Byte>, nat> {
    if events == [] then map[]
    else
      var front, last := events[..|events| - 1], events[|events| - 1];
      match last
      case Sweep(_) => Renewals(lib, c, front)
      case Request(now, q) =>
        Noted(Renewals(lib, c, front), Renewed(q, Handle(lib, c, After(lib, c, front), now, q).1), now)
  }

  ghost predicate Unspent(c: Config, renewals: map<seq<Byte>, nat>, k: seq<Byte>, now: nat) {
    k in renewals && now < SaturatingAdd(renewals[k], c.leaseMs)
  }

  /** Stored expiries are those of the last renewals, and no unspent lease is missing. */
  ghost predicate LeasesMatch<A>(c: Config, m: seq<Item<Lease<A>>>, renewals: map<seq<Byte>, nat>, now: nat) {
    && (forall k | Has(m, k) :: k in renewals && Get(m, k).value.expiresAt == SaturatingAdd(renewals[k], c.leaseMs))
    && (forall k | Unspent(c, renewals, k, now) :: Has(m, k))
  }

  lemma {:induction false} PurgedLeases<A>(
    c: Config, m: seq<Item<Lease<A>>>, renewals: map<seq<Byte>, nat>, last: nat, now: nat)
    requires Sorted(m) && LeasesMatch(c, m, renewals, last) && last <= now
    ensures LeasesMatch(c, Unexpired(m, now), renewals, now)
  {
    hide Unexpired, Get;
    forall k
      ensures Get(Unexpired(m, now), k) ==
              if Has(m, k) && Get(m, k).value.expiresAt > now then Get(m, k) else None
    {
      GetUnexpired(m, now, k);
    }
    forall k | Unspent(c, renewals, k, now) ensures Has(Unexpired(m, now), k) {
      assert Unspent(c, renewals, k, last);
    }
  }

  lemma {:induction false} PutLease<A>(
    c: Config, m: seq<Item<Lease<A>>>, renewals: map<seq<Byte>, nat>, now: nat, id: seq<Byte>, lease: Lease<A>)
    requires Sorted(m) && LeasesMatch(c, m, renewals, now) && lease.expiresAt == SaturatingAdd(now, c.leaseMs)
    ensures LeasesMatch(c, Put(m, id, lease), renewals[id := now], now)
  {
    hide Put, Get;
    forall k ensures Get(Put(m, id, lease), k) == if k == id then Some(lease) else Get(m, k) {
      GetPut(m, id, lease, k);
    }
    forall k | Unspent(c, renewals[id := now], k, now) ensures Has(Put(m, id, lease), k) {
      assert k == id || Unspent(c, renewals, k, now);
    }
  }

  lemma {:induction false} RemoveLease<A>(
    c: Config, m: seq<Item<Lease<A>>>, renewals: map<seq<Byte>, nat>, now: nat, id: seq<Byte>)
    requires Sorted(m) && LeasesMatch(c, m, renewals, now)
    ensures LeasesMatch(c, Remove(m, id), renewals - {id}, now)
  {
    hide Remove, Get;
    forall k ensures Get(Remove(m, id), k) == if k == id then None else Get(m, k) {
      GetRemove(m, id, k);
    }
    forall k | Unspent(c, renewals - {id}, k, now) ensures Has(Remove(m, id), k) {
      assert Unspent(c, renewals, k, now);
    }
  }

  lemma {:induction false} HeartbeatLeases(
    c: Config, s: State, renewals: map<seq<Byte>, nat>, last: nat, now: nat, id: seq<Byte>)
    requires Sorted(s.peers) && LeasesMatch(c, s.peers, renewals, last) && last <= now
    ensures var (t, live) := HeartbeatPeer(c, s, now, id);
            LeasesMatch(c, t.peers, Noted(renewals, if live then Some(id) else None, now), now) && Sorted(t.peers)
  {
    PurgedLeases(c, s.peers, renewals, last, now);
    UnexpiredSorted(s.peers, now);
    var peers := Unexpired(s.peers, now);
    hide LeasesMatch, Unexpired;
    var lease := Get(peers, id);
    if lease.Some? {
      var lease' := Lease(lease.value.advertisement, SaturatingAdd(now, c.leaseMs));
      PutLease(c, peers, renewals, now, id, lease');
      PutSorted(peers, id, lease');
    }
  }

  lemma {:induction false} QueueAllPeers(
    c: Config, s: State, now: nat, providers: seq<PeerAdvertisement>, relays: Relays, index: nat)
    requires relays != [] && index <= |providers|
    ensures QueueAll(c, s, now, providers, relays, index).0.peers == s.peers
    decreases |providers| - index
  {
    if index < |providers| {
      var relay := relays[index % |relays|].value.advertisement;
      var t := QueueAssignment(c, s, now, providers[index], relay, Ascii("m4")).0;
      QueueAllPeers(c, t, now, providers, relays, index + 1);
    }
  }

  /** Requests that leave the peers alone, but for the purge they may start with. */
  lemma {:induction false} OtherPeers(lib: Library, c: Config, s: State, now: nat, q: Ask.OverlayRequest)
    requires !q.RegisterPeer? && !q.HeartbeatPeer? && !q.PollPeer?
    ensures var peers := Handle(lib, c, s, now, q).0.peers;
            peers == s.peers || peers == Unexpired(s.peers, now)
  {
    hide Unexpired, FreshQueues, Total;
    if q.DiscoverProviders? {
      var t := Purged(s, now);
      if t.relays != [] {
        QueueAllPeers(c, t, now, SwarmProviders(t.peers, q.query.contentId, Min(q.query.limit, 16)), t.relays, 0);
      }
    }
  }

  lemma {:induction false} LeasesLater<A>(
    c: Config, m: seq<Item<Lease<A>>>, renewals: map<seq<Byte>, nat>, last: nat, now: nat)
    requires LeasesMatch(c, m, renewals, last) && last <= now
    ensures LeasesMatch(c, m, renewals, now)
  {
    forall k | Unspent(c, renewals, k, now) ensures Has(m, k) {
      assert Unspent(c, renewals, k, last);
    }
  }

  lemma {:induction false} RegisterLeases(
    lib: Library, c: Config, s: State, renewals: map<seq<Byte>, nat>, last: nat, now: nat, ad: PeerAdvertisement)
    requires Sorted(s.peers) && LeasesMatch(c, s.peers, renewals, last) && last <= now
    ensures var (t, refused) := RegisterPeer(lib, c, s, now, ad);
            LeasesMatch(c, t.peers, Noted(renewals, if refused.None? then Some(ad.peerId) else None, now), now)
  {
    PurgedLeases(c, s.peers, renewals, last, now);
    LeasesLater(c, s.peers, renewals, last, now);
    UnexpiredSorted(s.peers, now);
    hide LeasesMatch, Unexpired;
    PutLease(c, Unexpired(s.peers, now), renewals, now, ad.peerId, Lease(ad, SaturatingAdd(now, c.leaseMs)));
  }

  lemma {:induction false} PollLeases(
    c: Config, s: State, renewals: map<seq<Byte>, nat>, last: nat, now: nat, id: seq<Byte>)
    requires Sorted(s.peers) && LeasesMatch(c, s.peers, renewals, last) && last <= now && HeartbeatPeer(c, s, now, id).1
    ensures LeasesMatch(c, PollPeer(c, HeartbeatPeer(c, s, now, id).0, now, id).0.peers, renewals[id := now], now)
  {
    HeartbeatLeases(c, s, renewals, last, now, id);
    var t := HeartbeatPeer(c, s, now, id).0;
    hide HeartbeatPeer, LeasesMatch;
    HeartbeatLeases(c, t, renewals[id := now], now, now, id);
    assert renewals[id := now][id := now] == renewals[id := now];
  }

  lemma {:induction false} HandleLeases(
    lib: Library, c: Config, s: State, renewals: map<seq<Byte>, nat>, last: nat, now: nat, q: Ask.OverlayRequest)
    requires Sorted(s.peers) && LeasesMatch(c, s.peers, renewals, last) && last <= now
    ensures var (t, p) := Handle(lib, c, s, now, q);
            LeasesMatch(c, t.peers, Noted(renewals, Renewed(q, p), now), now)
  {
    match q {
      case RegisterPeer(peer) =>
        hide RegisterPeer, LeasesMatch;
        RegisterLeases(lib, c, s, renewals, last, now, peer);
      case HeartbeatPeer(id) =>
        hide HeartbeatPeer, LeasesMatch;
        HeartbeatLeases(c, s, renewals, last, now, id);
      case PollPeer(id) =>
        hide HeartbeatPeer, PollPeer, LeasesMatch;
        HeartbeatLeases(c, s, renewals, last, now, id);
        if HeartbeatPeer(c, s, now, id).1 {
          PollLeases(c, s, renewals, last, now, id);
        }
      case _ =>
        hide Handle, LeasesMatch;
        OtherPeers(lib, c, s, now, q);
        PurgedLeases(c, s.peers, renewals, last, now);
        LeasesLater(c, s.peers, renewals, last, now);
    }
  }

  lemma {:induction false} RunLeases(lib: Library, c: Config, events: seq<Event>)
    requires AllDecoded(lib, events) && InOrder(events) && c.leaseMs <= U64_MAX
    ensures LeasesMatch(c, After(lib, c, events).peers, Renewals(lib, c, events), LastTime(events))
  {
    hide Handle, Ask.Valid;
    if events != [] {
      var front, last := events[..|events| - 1], events[|events| - 1];
      RunLeases(lib, c, front);
      RunInv(lib, c, front);
      var s := After(lib, c, front);
      hide LeasesMatch, RelaysOk, QueuesOk;
      match last {
        case Sweep(now) => PurgedLeases(c, s.peers, Renewals(lib, c, front), LastTime(front), now);
        case Request(now, q) => HandleLeases(lib, c, s, Renewals(lib, c, front), LastTime(front), now, q);
      }
    }
  }

  /** After any run in non-decreasing time, the next answer finds a peer exactly while its last renewal is unspent. */
  lemma {:induction false} LiveExactlyWhileRenewed(lib: Library, c: Config, events: seq<Event>, now: nat, id: seq<Byte>)
    requires AllDecoded(lib, events) && InOrder(events) && c.leaseMs <= U64_MAX && LastTime(events) <= now
    ensures Has(Purged(After(lib, c, events), now).peers, id) <==> Unspent(c, Renewals(lib, c, events), id, now)
  {
    hide Handle, Ask.Valid;
    RunLeases(lib, c, events);
    RunInv(lib, c, events);
    PurgedLeases(c, After(lib, c, events).peers, Renewals(lib, c, events), LastTime(events), now);
    GetUnexpired(After(lib, c, events).peers, now, id);
  }

  // ----- Relays: the same, except that a failure report ends the lease at once -----

  /** The relay whose lease the exchange renewed, as the requester sees it. */
  function RelayRenewed(q: Ask.OverlayRequest, p: Answer.OverlayResponse): Option<seq<Byte>> {
    match q
    case RegisterRelay(relay) => if p.Registered? then Some(relay.relayId) else None
    case HeartbeatRelay(id) => if p.Registered? then Some(id) else None
    case _ => None
  }

  function RelayNoted(renewals: map<seq<Byte>, nat>, q: Ask.OverlayRequest, p: Answer.OverlayResponse, now: nat)
    : map<seq<Byte>, nat>
  {
    if q.ReportRelayFailure? then renewals - {q.relayId} else Noted(renewals, RelayRenewed(q, p), now)
  }

  /** The time of each relay's last successful renewal since it was last reported to have failed. */
  function RelayRenewals(lib: Library, c: Config, events: seq<Event>): map<seq<Byte>, nat> {
    if events == [] then map[]
    else
      var front, last := events[..|events| - 1], events[|events| - 1];
      match last
      case Sweep(_) => RelayRenewals(lib, c, front)
      case Request(now, q) =>
        RelayNoted(RelayRenewals(lib, c, front), q, Handle(lib, c, After(lib, c, front), now, q).1, now)
  }

  lemma {:induction false} RelayHeartbeatLeases(
    c: Config, s: State, renewals: map<seq<Byte>, nat>, last: nat, now: nat, id: seq<Byte>)
    requires Sorted(s.relays) && LeasesMatch(c, s.relays, renewals, last) && last <= now
    ensures var (t, live) := HeartbeatRelay(c, s, now, id);
            LeasesMatch(c, t.relays, Noted(renewals, if live then Some(id) else None, now), now)
  {
    PurgedLeases(c, s.relays, renewals, last, now);
    UnexpiredSorted(s.relays, now);
    var relays := Unexpired(s.relays, now);
    hide LeasesMatch, Unexpired;
    var lease := Get(relays, id);
    if lease.Some? {
      PutLease(c, relays, renewals, now, id, Lease(lease.value.advertisement, SaturatingAdd(now, c.leaseMs)));
    }
  }

  lemma {:induction false} RelayRegisterLeases(
    lib: Library, c: Config, s: State, renewals: map<seq<Byte>, nat>, last: nat, now: nat, ad: RelayAdvertisement)
    requires Sorted(s.relays) && LeasesMatch(c, s.relays, renewals, last) && last <= now
    ensures var (t, refused) := RegisterRelay(lib, c, s, now, ad);
            LeasesMatch(c, t.relays, Noted(renewals, if refused.None? then Some(ad.relayId) else None, now), now)
  {
    PurgedLeases(c, s.relays, renewals, last, now);
    LeasesLater(c, s.relays, renewals, last, now);
    UnexpiredSorted(s.relays, now);
    hide LeasesMatch, Unexpired, CheckRelay;
    PutLease(c, Unexpired(s.relays, now), renewals, now, ad.relayId, Lease(ad, SaturatingAdd(now, c.leaseMs)));
  }

  lemma {:induction false} QueueAllRelays(
    c: Config, s: State, now: nat, providers: seq<PeerAdvertisement>, relays: Relays, index: nat)
    requires relays != [] && index <= |providers|
    ensures QueueAll(c, s, now, providers, relays, index).0.relays == s.relays
    decreases |providers| - index
  {
    if index < |providers| {
      var relay := relays[index % |relays|].value.advertisement;
      var t := QueueAssignment(c, s, now, providers[index], relay, Ascii("m4")).0;
      QueueAllRelays(c, t, now, providers, relays, index + 1);
    }
  }

  /** Requests that leave the relays alone, but for the purges they may start with. */
  lemma {:induction false} OtherRelays(lib: Library, c: Config, s: State, now: nat, q: Ask.OverlayRequest)
    requires !q.RegisterRelay? && !q.HeartbeatRelay? && !q.ReportRelayFailure?
    ensures var relays := Handle(lib, c, s, now, q).0.relays;
            relays in {s.relays, Unexpired(s.relays, now), Unexpired(Unexpired(s.relays, now), now)}
  {
    hide Unexpired, FreshQueues, Total, CheckPeer;
    if q.DiscoverProviders? {
      var t := Purged(s, now);
      if t.relays != [] {
        QueueAllRelays(c, t, now, SwarmProviders(t.peers, q.query.contentId, Min(q.query.limit, 16)), t.relays, 0);
      }
    }
  }

  lemma {:induction false} HandleRelayLeases(
    lib: Library, c: Config, s: State, renewals: map<seq<Byte>, nat>, last: nat, now: nat, q: Ask.OverlayRequest)
    requires Sorted(s.relays) && LeasesMatch(c, s.relays, renewals, last) && last <= now
    ensures var (t, p) := Handle(lib, c, s, now, q);
            LeasesMatch(c, t.relays, RelayNoted(renewals, q, p, now), now)
  {
    match q {
      case RegisterRelay(relay) =>
        hide RegisterRelay, LeasesMatch;
        RelayRegisterLeases(lib, c, s, renewals, last, now, relay);
      case HeartbeatRelay(id) =>
        hide HeartbeatRelay, LeasesMatch;
        RelayHeartbeatLeases(c, s, renewals, last, now, id);
      case ReportRelayFailure(id) =>
        hide LeasesMatch;
        LeasesLater(c, s.relays, renewals, last, now);
        RemoveLease(c, s.relays, renewals, now, id);
      case _ =>
        OtherRelays(lib, c, s, now, q);
        hide Handle, LeasesMatch, Unexpired;
        PurgedLeases(c, s.relays, renewals, last, now);
        UnexpiredSorted(s.relays, now);
        PurgedLeases(c, Unexpired(s.relays, now), renewals, now, now);
        LeasesLater(c, s.relays, renewals, last, now);
    }
  }

  lemma {:induction false} RunRelayLeases(lib: Library, c: Config, events: seq<Event>)
    requires AllDecoded(lib, events) && InOrder(events) && c.leaseMs <= U64_MAX
    ensures LeasesMatch(c, After(lib, c, events).relays, RelayRenewals(lib, c, events), LastTime(events))
  {
    hide Handle, Ask.Valid;
    if events != [] {
      var front, last := events[..|events| - 1], events[|events| - 1];
      RunRelayLeases(lib, c, front);
      RunInv(lib, c, front);
      var s := After(lib, c, front);
      hide LeasesMatch, PeersOk, QueuesOk;
      match last {
        case Sweep(now) => PurgedLeases(c, s.relays, RelayRenewals(lib, c, front), LastTime(front), now);
        case Request(now, q) => HandleRelayLeases(lib, c, s, RelayRenewals(lib, c, front), LastTime(front), now, q);
      }
    }
  }

  /** And it finds a relay exactly while its last renewal since the last failure report is unspent. */
  lemma {:induction false} RelayLiveExactlyWhileRenewed(
    lib: Library, c: Config, events: seq<Event>, now: nat, id: seq<Byte>)
    requires AllDecoded(lib, events) && InOrder(events) && c.leaseMs <= U64_MAX && LastTime(events) <= now
    ensures Has(Purged(After(lib, c, events), now).relays, id) <==> Unspent(c, RelayRenewals(lib, c, events), id, now)
  {
    hide Handle, Ask.Valid;
    RunRelayLeases(lib, c, events);
    RunInv(lib, c, events);
    PurgedLeases(c, After(lib, c, events).relays, RelayRenewals(lib, c, events), LastTime(events), now);
    GetUnexpired(After(lib, c, events).relays, now, id);
  }
}
