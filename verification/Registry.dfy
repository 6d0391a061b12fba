/** The bootstrap registry: leased peers and relays, and a route queue per provider. Time is an argument. */
module Registry {
  import opened Prelude
  import opened BigEndian
  import opened ByteOrder
  import opened Content
  import opened ExactTopic
  import opened WireRecords
  import opened WireLists
  import Ask = WireRequests
  import Answer = WireResponses

  datatype Lease<A> = Lease(advertisement: A, expiresAt: nat)

  datatype Queued = Queued(assignment: RouteAssignment, expiresAt: nat)

  datatype Config = Config(leaseMs: nat, maxPeers: nat, maxRelays: nat, maxContentIds: nat, maxAssignments: nat)

  datatype State = State(
    peers: seq<Item<Lease<PeerAdvertisement>>>,
    relays: seq<Item<Lease<RelayAdvertisement>>>,
    queues: seq<Item<seq<Queued>>>,
    nextRoute: nat,
    expiredPeers: nat,
    expiredRelays: nat,
    expiredRoutes: nat)

  datatype RegistryError =
    | PeerIdentityMismatch
    | NoContent
    | UnsupportedPeer
    | InvalidRelayId
    | InvalidRelayAddress
    | TooManyContentIds
    | DuplicateContentId
    | PeerLimitReached
    | RelayLimitReached

  const EMPTY := State([], [], [], 0, 0, 0, 0)

  // ----- Purging -----

  function Unexpired<A>(m: seq<Item<Lease<A>>>, now: nat): seq<Item<Lease<A>>> {
    if m == [] then []
    else if m[0].value.expiresAt > now then [m[0]] + Unexpired(m[1..], now)
    else Unexpired(m[1..], now)
  }

  predicate Usable(queued: Queued, now: nat, relays: seq<Item<Lease<RelayAdvertisement>>>) {
    queued.expiresAt > now && Has(relays, queued.assignment.relayId)
  }

  function FreshQueue(q: seq<Queued>, now: nat, relays: seq<Item<Lease<RelayAdvertisement>>>): seq<Queued> {
    if q == [] then []
    else if Usable(q[0], now, relays) then [q[0]] + FreshQueue(q[1..], now, relays)
    else FreshQueue(q[1..], now, relays)
  }

  /** Queues of live peers, without stale entries, and only those with an entry left. */
  function FreshQueues(
    qs: seq<Item<seq<Queued>>>, now: nat, peers: seq<Item<Lease<PeerAdvertisement>>>,
    relays: seq<Item<Lease<RelayAdvertisement>>>)
    : seq<Item<seq<Queued>>>
  {
    if qs == [] then []
    else
      var q := FreshQueue(qs[0].value, now, relays);
      var rest := FreshQueues(qs[1..], now, peers, relays);
      if Has(peers, qs[0].key) && q != [] then [Item(qs[0].key, q)] + rest else rest
  }

  /** Assignments waiting, over all providers. */
  function Total(qs: seq<Item<seq<Queued>>>): nat {
    if qs == [] then 0 else |qs[0].value| + Total(qs[1..])
  }

  function Purged(s: State, now: nat): State {
    var peers, relays := Unexpired(s.peers, now), Unexpired(s.relays, now);
    var queues := FreshQueues(s.queues, now, peers, relays);
    State(peers, relays, queues, s.nextRoute,
          s.expiredPeers + Max(|s.peers| - |peers|, 0),
          s.expiredRelays + Max(|s.relays| - |relays|, 0),
          s.expiredRoutes + Max(Total(s.queues) - Total(queues), 0))
  }

  // ----- Registration and renewal -----

  predicate HasDuplicates(ids: seq<Digest>) {
    exists i, j | 0 <= i < j < |ids| :: ids[i] == ids[j]
  }

  function CheckPeer(lib: Library, c: Config, ad: PeerAdvertisement): Option<RegistryError> {
    if ad.peerId != lib.peerIdOf(ad.publicKey) then Some(PeerIdentityMismatch)
    else if ad.contentIds == [] then Some(NoContent)
    else if |ad.contentIds| > c.maxContentIds then Some(TooManyContentIds)
    else if HasDuplicates(ad.contentIds) then Some(DuplicateContentId)
    else if RelayedTransferV1 !in ad.capabilities && SwarmTransferV1 !in ad.capabilities then Some(UnsupportedPeer)
    else None
  }

  function RegisterPeer(
    lib: Library, c: Config, s: State, now: nat, ad: PeerAdvertisement): (State, Option<RegistryError>)
  {
    var refused := CheckPeer(lib, c, ad);
    if refused.Some? then (s, refused)
    else
      var t := Purged(s, now);
      if !Has(t.peers, ad.peerId) && |t.peers| >= c.maxPeers then (t, Some(PeerLimitReached))
      else (t.(peers := Put(t.peers, ad.peerId, Lease(ad, SaturatingAdd(now, c.leaseMs)))), None)
  }

  function HeartbeatPeer(c: Config, s: State, now: nat, id: seq<Byte>): (State, bool) {
    var t := Purged(s, now);
    var lease := Get(t.peers, id);
    if lease.None? then (t, false)
    else (t.(peers := Put(t.peers, id, lease.value.(expiresAt := SaturatingAdd(now, c.leaseMs)))), true)
  }

  function CheckRelay(lib: Library, ad: RelayAdvertisement): Option<RegistryError> {
    if !ValidIdentifier(ad.relayId, 64) then Some(InvalidRelayId)
    else if !lib.isSocketAddress(ad.address) then Some(InvalidRelayAddress)
    else None
  }

  function RegisterRelay(
    lib: Library, c: Config, s: State, now: nat, ad: RelayAdvertisement): (State, Option<RegistryError>)
  {
    var refused := CheckRelay(lib, ad);
    if refused.Some? then (s, refused)
    else
      var t := Purged(s, now);
      if !Has(t.relays, ad.relayId) && |t.relays| >= c.maxRelays then (t, Some(RelayLimitReached))
      else (t.(relays := Put(t.relays, ad.relayId, Lease(ad, SaturatingAdd(now, c.leaseMs)))), None)
  }

  function HeartbeatRelay(c: Config, s: State, now: nat, id: seq<Byte>): (State, bool) {
    var t := Purged(s, now);
    var lease := Get(t.relays, id);
    if lease.None? then (t, false)
    else (t.(relays := Put(t.relays, id, lease.value.(expiresAt := SaturatingAdd(now, c.leaseMs)))), true)
  }

  // ----- Discovery -----

  /** The prefix, a hyphen, and the counter in sixteen hexadecimal digits. */
  function RouteName(prefix: seq<Byte>, n: nat): seq<Byte> {
    prefix + [45] + HexEncode(Bytes(n, 8))
  }

  function QueueOf(qs: seq<Item<seq<Queued>>>, id: seq<Byte>): seq<Queued> {
    var q := Get(qs, id);
    if q.Some? then q.value else []
  }

  function QueueAssignment(
    c: Config, s: State, now: nat, provider: PeerAdvertisement, relay: RelayAdvertisement, prefix: seq<Byte>)
    : (State, Option<RouteAssignment>)
  {
    var q := QueueOf(s.queues, provider.peerId);
    if |q| >= c.maxAssignments then (s.(queues := Put(s.queues, provider.peerId, q)), None)
    else
      var next := (s.nextRoute + 1) % (U64_MAX + 1);
      var a := RouteAssignment(
        provider.peerId, provider.publicKey, relay.relayId, relay.address, RouteName(prefix, next));
      var queued := Queued(a, SaturatingAdd(now, c.leaseMs));
      (s.(queues := Put(s.queues, provider.peerId, q + [queued]), nextRoute := next), Some(a))
  }

  function FirstWith(peers: seq<Item<Lease<PeerAdvertisement>>>, contentId: Digest): Option<PeerAdvertisement> {
    if peers == [] then None
    else
      var ad := peers[0].value.advertisement;
      if contentId in ad.contentIds then Some(ad) else FirstWith(peers[1..], contentId)
  }

  function Discover(c: Config, s: State, now: nat, contentId: Digest): (State, Option<RouteAssignment>) {
    var t := Purged(s, now);
    var provider := FirstWith(t.peers, contentId);
    if provider.None? || t.relays == [] then (t, None)
    else QueueAssignment(c, t, now, provider.value, t.relays[0].value.advertisement, Ascii("m2"))
  }

  function SwarmProviders(
    peers: seq<Item<Lease<PeerAdvertisement>>>, contentId: Digest, limit: nat): seq<PeerAdvertisement>
  {
    if peers == [] || limit == 0 then []
    else
      var ad := peers[0].value.advertisement;
      if contentId in ad.contentIds && SwarmTransferV1 in ad.capabilities
        then [ad] + SwarmProviders(peers[1..], contentId, limit - 1)
      else SwarmProviders(peers[1..], contentId, limit)
  }

  /** One assignment for each provider from `index` on, relays taken in turn; full queues are passed over. */
  function QueueAll(
    c: Config, s: State, now: nat, providers: seq<PeerAdvertisement>, relays: seq<Item<Lease<RelayAdvertisement>>>,
    index: nat)
    : (State, seq<RouteAssignment>)
    requires relays != [] && index <= |providers|
    decreases |providers| - index
  {
    if index == |providers| then (s, [])
    else
      var relay := relays[index % |relays|].value.advertisement;
      var (t, a) := QueueAssignment(c, s, now, providers[index], relay, Ascii("m4"));
      var (u, rest) := QueueAll(c, t, now, providers, relays, index + 1);
      (u, if a.Some? then [a.value] + rest else rest)
  }

  function DiscoverProviders(
    c: Config, s: State, now: nat, contentId: Digest, limit: nat): (State, seq<RouteAssignment>)
  {
    var t := Purged(s, now);
    if t.relays == [] then (t, []) else QueueAll(c, t, now, SwarmProviders(t.peers, contentId, limit), t.relays, 0)
  }

  // ----- Delivery and failure reports -----

  /** The first usable assignment of a queue and what stays behind it. */
  function NextUsable(
    q: seq<Queued>, now: nat, relays: seq<Item<Lease<RelayAdvertisement>>>): (seq<Queued>, Option<RouteAssignment>)
  {
    if q == [] then ([], None)
    else if Usable(q[0], now, relays) then (q[1..], Some(q[0].assignment))
    else NextUsable(q[1..], now, relays)
  }

  function PollPeer(c: Config, s: State, now: nat, id: seq<Byte>): (State, Option<RouteAssignment>) {
    var (t, live) := HeartbeatPeer(c, s, now, id);
    if !live || !Has(t.queues, id) then (t, None)
    else
      var (q, a) := NextUsable(QueueOf(t.queues, id), now, t.relays);
      (t.(queues := Put(t.queues, id, q)), a)
  }

  function WithoutRelay(q: seq<Queued>, relayId: seq<Byte>): seq<Queued> {
    if q == [] then []
    else if q[0].assignment.relayId != relayId then [q[0]] + WithoutRelay(q[1..], relayId)
    else WithoutRelay(q[1..], relayId)
  }

  function WithoutRelays(qs: seq<Item<seq<Queued>>>, relayId: seq<Byte>): seq<Item<seq<Queued>>> {
    if qs == [] then [] else [Item(qs[0].key, WithoutRelay(qs[0].value, relayId))] + WithoutRelays(qs[1..], relayId)
  }

  function ReportFailure(s: State, relayId: seq<Byte>): State {
    s.(relays := Remove(s.relays, relayId), queues := WithoutRelays(s.queues, relayId))
  }

  // ----- One request -----

  function ErrorText(e: RegistryError): string {
    match e
    case PeerIdentityMismatch => "peer ID does not match the advertised public key"
    case NoContent => "peer advertisement contains no content IDs"
    case UnsupportedPeer => "peer does not advertise the experimental relayed-transfer capability"
    case InvalidRelayId => "relay ID must be 1-64 ASCII letters, digits, '-' or '_'"
    case InvalidRelayAddress => "relay address must be a valid IP socket address"
    case TooManyContentIds => "peer advertisement exceeds content-ID limit"
    case DuplicateContentId => "peer advertisement contains duplicate content IDs"
    case PeerLimitReached => "peer registry limit reached"
    case RelayLimitReached => "relay registry limit reached"
  }

  const NO_PEER := "peer lease is not registered"
  const NO_RELAY := "relay lease is not registered"

  function Confirm(c: Config, refused: Option<RegistryError>): Answer.OverlayResponse {
    if refused.Some? then Answer.Error(Ascii(ErrorText(refused.value))) else Answer.Registered(c.leaseMs)
  }

  function Handle(lib: Library, c: Config, s: State, now: nat, q: Ask.OverlayRequest): (State, Answer.OverlayResponse) {
    match q
    case RegisterPeer(peer) =>
      var (t, refused) := RegisterPeer(lib, c, s, now, peer);
      (t, Confirm(c, refused))
    case HeartbeatPeer(id) =>
      var (t, live) := HeartbeatPeer(c, s, now, id);
      (t, if live then Answer.Registered(c.leaseMs) else Answer.Error(Ascii(NO_PEER)))
    case PollPeer(id) =>
      var (t, live) := HeartbeatPeer(c, s, now, id);
      if !live then (t, Answer.Error(Ascii(NO_PEER)))
      else
        var (u, a) := PollPeer(c, t, now, id);
        (u, Answer.Assignment(a))
    case RegisterRelay(relay) =>
      var (t, refused) := RegisterRelay(lib, c, s, now, relay);
      (t, Confirm(c, refused))
    case HeartbeatRelay(id) =>
      var (t, live) := HeartbeatRelay(c, s, now, id);
      (t, if live then Answer.Registered(c.leaseMs) else Answer.Error(Ascii(NO_RELAY)))
    case Discover(contentId) =>
      var (t, a) := Discover(c, s, now, contentId);
      (t, Answer.Route(a))
    case DiscoverProviders(query) =>
      var (t, routes) := DiscoverProviders(c, s, now, query.contentId, Min(query.limit, 16));
      (t, Answer.Routes(routes))
    case ReportRelayFailure(id) => (ReportFailure(s, id), Answer.Acknowledged)
    case Health => (s, Answer.Acknowledged)
  }
}
