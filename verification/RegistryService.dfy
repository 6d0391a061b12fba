/**
 * The registry object. Its fields are updated in place, each method as the value-level operation says; what that means
 * for the leases and queues that can be looked up is stated beside it, for maps in key order.
 */
module RegistryService {
  import opened Prelude
  import opened ByteOrder
  import opened Content
  import opened WireRecords
  import opened WireLists
  import Ask = WireRequests
  import Answer = WireResponses
  import Spec = Registry
  import Invariant = RegistryInvariant
  import opened RegistryEffects
  import opened RegistryAnswers

  class Registry {
    const lib: Library
    const config: Spec.Config
    var peers: seq<Item<Spec.Lease<PeerAdvertisement>>>
    var relays: seq<Item<Spec.Lease<RelayAdvertisement>>>
    var queues: seq<Item<seq<Spec.Queued>>>
    var nextRoute: nat
    var expiredPeers: nat
    var expiredRelays: nat
    var expiredRoutes: nat

    ghost function View(): Spec.State
      reads this
    {
      Spec.State(peers, relays, queues, nextRoute, expiredPeers, expiredRelays, expiredRoutes)
    }

    /** The maps are in key order and the counter is a 64-bit word, as they always are. */
    ghost predicate InOrder()
      reads this
    {
      Ordered(View())
    }

    constructor (lib: Library, config: Spec.Config)
      ensures this.lib == lib && this.config == config.(leaseMs := Max(config.leaseMs, 1)) && View() == Spec.EMPTY
      ensures InOrder()
    {
      this.lib, this.config := lib, config.(leaseMs := Max(config.leaseMs, 1));
      peers, relays, queues := [], [], [];
      nextRoute, expiredPeers, expiredRelays, expiredRoutes := 0, 0, 0, 0;
    }

    method Purge(now: nat)
      modifies this
      ensures View() == Spec.Purged(old(View()), now)
      ensures old(InOrder()) ==> InOrder() && PurgeEffect(old(View()), View(), now)
    {
      if InOrder() {
        PurgeDoes(View(), now);
      }
      var peersBefore, relaysBefore, routesBefore := |peers|, |relays|, Spec.Total(queues);
      peers := Spec.Unexpired(peers, now);
      relays := Spec.Unexpired(relays, now);
      queues := Spec.FreshQueues(queues, now, peers, relays);
      expiredPeers := expiredPeers + Max(peersBefore - |peers|, 0);
      expiredRelays := expiredRelays + Max(relaysBefore - |relays|, 0);
      expiredRoutes := expiredRoutes + Max(routesBefore - Spec.Total(queues), 0);
    }

    method RegisterPeer(now: nat, ad: PeerAdvertisement) returns (refused: Option<Spec.RegistryError>)
      modifies this
      ensures (View(), refused) == Spec.RegisterPeer(lib, config, old(View()), now, ad)
      ensures old(InOrder()) ==> InOrder()
      ensures forall e | PeerVerdict(lib, config, ad, Some(e)) :: refused == Some(e) && unchanged(this)
      ensures old(InOrder()) && PeerVerdict(lib, config, ad, None) ==>
                && refused in {None, Some(Spec.PeerLimitReached)}
                && RegisterEffect(old(peers), peers, now, config.maxPeers, ad.peerId,
                                  Spec.Lease(ad, SaturatingAdd(now, config.leaseMs)), refused.None?)
                && OnlyLive(old(relays), relays, now) && OnlyUsable(old(View()), queues, now)
    {
      if InOrder() {
        RegisterPeerDoes(lib, config, View(), now, ad);
      }
      CheckPeerExactly(lib, config, ad);
      hide Spec.CheckPeer, PeerVerdict, RegisterEffect, OnlyLive, OnlyUsable, PurgeEffect, Ordered, Spec.Purged;
      refused := Spec.CheckPeer(lib, config, ad);
      if refused.Some? {
        return;
      }
      Purge(now);
      if !Has(peers, ad.peerId) && |peers| >= config.maxPeers {
        return Some(Spec.PeerLimitReached);
      }
      peers := Put(peers, ad.peerId, Spec.Lease(ad, SaturatingAdd(now, config.leaseMs)));
    }

    method HeartbeatPeer(now: nat, id: seq<Byte>) returns (live: bool)
      modifies this
      ensures (View(), live) == Spec.HeartbeatPeer(config, old(View()), now, id)
      ensures old(InOrder()) ==> InOrder()
      ensures old(InOrder()) ==>
                && HeartbeatEffect(old(peers), peers, now, config.leaseMs, id, live)
                && OnlyLive(old(relays), relays, now) && OnlyUsable(old(View()), queues, now)
    {
      if InOrder() {
        HeartbeatPeerDoes(config, View(), now, id);
      }
      hide HeartbeatEffect, OnlyLive, OnlyUsable, PurgeEffect, Ordered, Spec.Purged;
      Purge(now);
      var lease := Get(peers, id);
      if lease.None? {
        return false;
      }
      peers := Put(peers, id, lease.value.(expiresAt := SaturatingAdd(now, config.leaseMs)));
      live := true;
    }

    method RegisterRelay(now: nat, ad: RelayAdvertisement) returns (refused: Option<Spec.RegistryError>)
      modifies this
      ensures (View(), refused) == Spec.RegisterRelay(lib, config, old(View()), now, ad)
      ensures old(InOrder()) ==> InOrder()
      ensures forall e | RelayVerdict(lib, ad, Some(e)) :: refused == Some(e) && unchanged(this)
      ensures old(InOrder()) && RelayVerdict(lib, ad, None) ==>
                && refused in {None, Some(Spec.RelayLimitReached)}
                && RegisterEffect(old(relays), relays, now, config.maxRelays, ad.relayId,
                                  Spec.Lease(ad, SaturatingAdd(now, config.leaseMs)), refused.None?)
                && OnlyLive(old(peers), peers, now) && OnlyUsable(old(View()), queues, now)
    {
      if InOrder() {
        RegisterRelayDoes(lib, config, View(), now, ad);
      }
      CheckRelayExactly(lib, ad);
      hide Spec.CheckRelay, RelayVerdict, RegisterEffect, OnlyLive, OnlyUsable, PurgeEffect, Ordered, Spec.Purged;
      refused := Spec.CheckRelay(lib, ad);
      if refused.Some? {
        return;
      }
      Purge(now);
      if !Has(relays, ad.relayId) && |relays| >= config.maxRelays {
        return Some(Spec.RelayLimitReached);
      }
      relays := Put(relays, ad.relayId, Spec.Lease(ad, SaturatingAdd(now, config.leaseMs)));
    }

    method HeartbeatRelay(now: nat, id: seq<Byte>) returns (live: bool)
      modifies this
      ensures (View(), live) == Spec.HeartbeatRelay(config, old(View()), now, id)
      ensures old(InOrder()) ==> InOrder()
      ensures old(InOrder()) ==>
                && HeartbeatEffect(old(relays), relays, now, config.leaseMs, id, live)
                && OnlyLive(old(peers), peers, now) && OnlyUsable(old(View()), queues, now)
    {
      if InOrder() {
        HeartbeatRelayDoes(config, View(), now, id);
      }
      hide HeartbeatEffect, OnlyLive, OnlyUsable, PurgeEffect, Ordered, Spec.Purged;
      Purge(now);
      var lease := Get(relays, id);
      if lease.None? {
        return false;
      }
      relays := Put(relays, id, lease.value.(expiresAt := SaturatingAdd(now, config.leaseMs)));
      live := true;
    }

    method QueueAssignment(now: nat, provider: PeerAdvertisement, relay: RelayAdvertisement, prefix: seq<Byte>)
      returns (a: Option<RouteAssignment>)
      modifies this
      ensures (View(), a) == Spec.QueueAssignment(config, old(View()), now, provider, relay, prefix)
      ensures old(InOrder()) ==> InOrder()
      ensures old(InOrder()) ==> AssignmentEffect(config, old(View()), View(), now, provider, relay, prefix, a)
    {
      if InOrder() {
        QueueAssignmentDoes(config, View(), now, provider, relay, prefix);
      }
      hide AssignmentEffect;
      var q := Spec.QueueOf(queues, provider.peerId);
      if |q| >= config.maxAssignments {
        queues := Put(queues, provider.peerId, q);
        return None;
      }
      nextRoute := (nextRoute + 1) % (U64_MAX + 1);
      var assignment := RouteAssignment(
        provider.peerId, provider.publicKey, relay.relayId, relay.address, Spec.RouteName(prefix, nextRoute));
      queues := Put(queues, provider.peerId, q + [Spec.Queued(assignment, SaturatingAdd(now, config.leaseMs))]);
      a := Some(assignment);
    }

    method Discover(now: nat, contentId: Digest) returns (a: Option<RouteAssignment>)
      modifies this
      ensures (View(), a) == Spec.Discover(config, old(View()), now, contentId)
      ensures old(InOrder()) ==> InOrder()
      ensures old(InOrder()) ==> OnlyLive(old(peers), peers, now) && OnlyLive(old(relays), relays, now)
      ensures var s := Spec.Purged(old(View()), now);
              && (a.Some? <==> relays != [] && exists i: nat :: Invariant.CanServe(config, s, contentId, i))
              && forall i: nat | a.Some? && Invariant.CanServe(config, s, contentId, i) ::
                   Invariant.Names(a.value, s.peers[i].value.advertisement, s.relays[0].value.advertisement)
      ensures old(InOrder()) && a.Some? ==>
                OneMore(Spec.Purged(old(View()), now).queues, queues, a.value.providerId,
                        Some(Spec.Queued(a.value, SaturatingAdd(now, config.leaseMs))))
      ensures old(InOrder()) ==> DiscoverEffect(config, old(View()), View(), now, contentId, a)
    {
      if InOrder() {
        DiscoverDoes(config, View(), now, contentId);
      }
      Invariant.DiscoverExactly(config, View(), now, contentId);
      hide OneMore, OnlyLive, OnlyUsable, Ordered, Spec.Purged, Invariant.CanServe, Spec.FirstWith;
      hide DiscoverEffect;
      Purge(now);
      var provider := Spec.FirstWith(peers, contentId);
      if provider.None? || relays == [] {
        return None;
      }
      a := QueueAssignment(now, provider.value, relays[0].value.advertisement, Ascii("m2"));
    }

    method DiscoverProviders(now: nat, contentId: Digest, limit: nat) returns (routes: seq<RouteAssignment>)
      modifies this
      ensures (View(), routes) == Spec.DiscoverProviders(config, old(View()), now, contentId, limit)
      ensures old(InOrder()) ==>
                InOrder() && ProvidersEffect(config, old(View()), View(), now, contentId, limit, routes)
    {
      if InOrder() {
        DiscoverProvidersDoes(config, View(), now, contentId, limit);
      }
      hide ProvidersEffect, RoutesEffect, Ordered, Spec.QueueAll, Spec.SwarmProviders, Spec.Purged, PurgeEffect,
        InKeyOrder;
      Purge(now);
      var providers := Spec.SwarmProviders(peers, contentId, limit);
      if relays == [] {
        return [];
      }
      routes := QueueAll(now, providers, relays);
    }

    /** What is queued so far, and what the rest of the providers add, make up the goal. */
    ghost predicate Ahead(
      goal: (Spec.State, seq<RouteAssignment>), s: Spec.State, now: nat, providers: seq<PeerAdvertisement>,
      available: seq<Item<Spec.Lease<RelayAdvertisement>>>, index: nat, routes: seq<RouteAssignment>)
      requires available != [] && index <= |providers|
    {
      var rest := Spec.QueueAll(config, s, now, providers, available, index);
      goal == (rest.0, routes + rest.1)
    }

    method QueueAll(now: nat, providers: seq<PeerAdvertisement>, available: seq<Item<Spec.Lease<RelayAdvertisement>>>)
      returns (routes: seq<RouteAssignment>)
      requires available != []
      modifies this
      ensures (View(), routes) == Spec.QueueAll(config, old(View()), now, providers, available, 0)
      ensures old(InOrder()) ==> InOrder()
      ensures old(InOrder()) && InKeyOrder(providers) ==>
                RoutesEffect(config, old(View()), View(), now, providers, available, 0, routes)
    {
      if InOrder() && InKeyOrder(providers) {
        QueueAllDoes(config, View(), now, providers, available, 0);
      }
      hide RoutesEffect, InKeyOrder;
      hide Spec.QueueAssignment, Spec.QueueAll;
      routes := [];
      ghost var goal := Spec.QueueAll(config, View(), now, providers, available, 0);
      assert [] + goal.1 == goal.1;
      for index := 0 to |providers|
        invariant Ahead(goal, View(), now, providers, available, index, routes)
        invariant old(InOrder()) ==> InOrder()
      {
        QueueAllStep(config, View(), now, providers, available, index);
        var relay := available[index % |available|].value.advertisement;
        var a := QueueAssignment(now, providers[index], relay, Ascii("m4"));
        if a.Some? {
          ghost var rest := Spec.QueueAll(config, View(), now, providers, available, index + 1).1;
          assert routes + ([a.value] + rest) == routes + [a.value] + rest;
          routes := routes + [a.value];
        }
      }
      QueueAllEnd(config, View(), now, providers, available);
      assert goal == (View(), routes + []) && routes + [] == routes;
    }

    method PollPeer(now: nat, id: seq<Byte>) returns (a: Option<RouteAssignment>)
      modifies this
      ensures (View(), a) == Spec.PollPeer(config, old(View()), now, id)
      ensures old(InOrder()) ==> InOrder() && PollEffect(old(View()), View(), now, config.leaseMs, id, a)
    {
      if InOrder() {
        PollDoes(config, View(), now, id);
      }
      hide Ordered, PollEffect, HeartbeatEffect, OnlyLive, OnlyUsable, Spec.Purged;
      var live := HeartbeatPeer(now, id);
      if !live || !Has(queues, id) {
        return None;
      }
      var q := Spec.QueueOf(queues, id);
      ghost var goal := Spec.NextUsable(q, now, relays);
      a := None;
      while q != [] && a.None?
        invariant a.None? ==> goal == Spec.NextUsable(q, now, relays)
        invariant a.Some? ==> goal == (q, a)
      {
        var queued := q[0];
        q := q[1..];
        if Spec.Usable(queued, now, relays) {
          a := Some(queued.assignment);
        }
      }
      queues := Put(queues, id, q);
    }

    method ReportRelayFailure(relayId: seq<Byte>)
      modifies this
      ensures View() == Spec.ReportFailure(old(View()), relayId)
      ensures old(InOrder()) ==> InOrder()
      ensures old(InOrder()) ==> FailureEffect(old(View()), View(), relayId)
    {
      if InOrder() {
        ReportFailureDoes(View(), relayId);
      }
      relays := Remove(relays, relayId);
      queues := Spec.WithoutRelays(queues, relayId);
    }

    method HandleRequest(now: nat, request: Ask.OverlayRequest) returns (response: Answer.OverlayResponse)
      modifies this
      ensures (View(), response) == Spec.Handle(lib, config, old(View()), now, request)
      ensures old(InOrder()) ==> InOrder() && Answered(lib, config, old(View()), View(), now, request, response)
      ensures Invariant.Inv(lib, config, old(View())) && config.leaseMs <= U64_MAX && Ask.Valid(lib, request) ==>
                Invariant.Inv(lib, config, View()) && Answer.Valid(lib, response)
    {
      if Invariant.Inv(lib, config, View()) && config.leaseMs <= U64_MAX && Ask.Valid(lib, request) {
        Invariant.HandleInv(lib, config, View(), now, request);
      }
      if InOrder() {
        HandleDoes(lib, config, View(), now, request);
      }
      hide Invariant.Inv, Ask.Valid, Answer.Valid, Answered, Ordered, RegisterEffect, HeartbeatEffect, OnlyLive,
        OnlyUsable;
      hide PeerVerdict, RelayVerdict, DiscoverEffect, ProvidersEffect, PollEffect, FailureEffect, OneMore, Spec.Purged;
      hide Invariant.CanServe, Invariant.Names;
      match request {
        case RegisterPeer(peer) =>
          var refused := RegisterPeer(now, peer);
          response := Spec.Confirm(config, refused);
        case HeartbeatPeer(id) =>
          var live := HeartbeatPeer(now, id);
          response := if live then Answer.Registered(config.leaseMs) else Answer.Error(Ascii(Spec.NO_PEER));
        case PollPeer(id) =>
          var live := HeartbeatPeer(now, id);
          if live {
            var a := PollPeer(now, id);
            response := Answer.Assignment(a);
          } else {
            response := Answer.Error(Ascii(Spec.NO_PEER));
          }
        case RegisterRelay(relay) =>
          var refused := RegisterRelay(now, relay);
          response := Spec.Confirm(config, refused);
        case HeartbeatRelay(id) =>
          var live := HeartbeatRelay(now, id);
          response := if live then Answer.Registered(config.leaseMs) else Answer.Error(Ascii(Spec.NO_RELAY));
        case Discover(contentId) =>
          var a := Discover(now, contentId);
          response := Answer.Route(a);
        case DiscoverProviders(query) =>
          var routes := DiscoverProviders(now, query.contentId, Min(query.limit, 16));
          response := Answer.Routes(routes);
        case ReportRelayFailure(id) =>
          ReportRelayFailure(id);
          response := Answer.Acknowledged;
        case Health =>
          response := Answer.Acknowledged;
      }
    }
  }

  lemma {:induction false} QueueAllStep(
    c: Spec.Config, s: Spec.State, now: nat, providers: seq<PeerAdvertisement>,
    relays: seq<Item<Spec.Lease<RelayAdvertisement>>>, index: nat)
    requires relays != [] && index < |providers|
    ensures var (t, a) := Spec.QueueAssignment(
              c, s, now, providers[index], relays[index % |relays|].value.advertisement, Ascii("m4"));
            var (u, rest) := Spec.QueueAll(c, t, now, providers, relays, index + 1);
            Spec.QueueAll(c, s, now, providers, relays, index) == (u, if a.Some? then [a.value] + rest else rest)
  {
    hide Spec.QueueAssignment;
  }

  lemma {:induction false} QueueAllEnd(
    c: Spec.Config, s: Spec.State, now: nat, providers: seq<PeerAdvertisement>,
    relays: seq<Item<Spec.Lease<RelayAdvertisement>>>)
    requires relays != []
    ensures Spec.QueueAll(c, s, now, providers, relays, |providers|) == (s, [])
  {
  }
}
