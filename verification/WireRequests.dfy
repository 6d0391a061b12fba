/** Discovery requests of Testnet v1: validation, encoding and decoding. */
module WireRequests {
  import opened Prelude
  import opened BigEndian
  import opened Content
  import opened WireFields
  import opened WireRecords
  import opened WireLists

  datatype OverlayRequest =
    | RegisterPeer(peer: PeerAdvertisement)
    | HeartbeatPeer(peerId: Digest)
    | PollPeer(peerId: Digest)
    | RegisterRelay(relay: RelayAdvertisement)
    | HeartbeatRelay(relayId: seq<Byte>)
    | Discover(contentId: Digest)
    | DiscoverProviders(query: ProviderQuery)
    | ReportRelayFailure(relayId: seq<Byte>)
    | Health

  predicate Typed(q: OverlayRequest) {
    match q
    case RegisterRelay(relay) => Utf8(relay.relayId) && Utf8(relay.address)
    case HeartbeatRelay(relayId) => Utf8(relayId)
    case DiscoverProviders(query) => query.limit <= U16_MAX
    case ReportRelayFailure(relayId) => Utf8(relayId)
    case _ => true
  }

  function ValidateRequest(lib: Library, q: OverlayRequest): Result<(), ProtocolError> {
    match q
    case RegisterPeer(peer) =>
      if peer.peerId != lib.peerIdOf(peer.publicKey) then Err(InvalidMessage("peer identity does not match key"))
      else if peer.contentIds == [] || |peer.contentIds| > MAX_CONTENT_IDS
        || peer.capabilities == [] || |peer.capabilities| > MAX_CAPABILITIES then
        Err(InvalidMessage("peer advertisement exceeds bounds"))
      else Ok(())
    case RegisterRelay(relay) =>
      if !ValidIdentifier(relay.relayId, 64) || |relay.address| > 128 || !lib.isSocketAddress(relay.address) then
        Err(InvalidMessage("invalid relay advertisement"))
      else Ok(())
    case HeartbeatRelay(relayId) =>
      if ValidIdentifier(relayId, 64) then Ok(()) else Err(InvalidMessage("invalid relay identifier"))
    case ReportRelayFailure(relayId) =>
      if ValidIdentifier(relayId, 64) then Ok(()) else Err(InvalidMessage("invalid relay identifier"))
    case DiscoverProviders(query) =>
      if query.limit == 0 || query.limit > MAX_ROUTES then
        Err(InvalidMessage("invalid provider discovery limit"))
      else Ok(())
    case _ => Ok(())
  }

  /** Which requests are valid, field by field. */
  predicate WellFormed(lib: Library, q: OverlayRequest) {
    match q
    case RegisterPeer(peer) =>
      && peer.peerId == lib.peerIdOf(peer.publicKey)
      && 1 <= |peer.contentIds| <= 256 && 1 <= |peer.capabilities| <= 8
    case RegisterRelay(relay) =>
      IsName(relay.relayId, 64) && |relay.address| <= 128 && lib.isSocketAddress(relay.address)
    case HeartbeatRelay(relayId) => IsName(relayId, 64)
    case ReportRelayFailure(relayId) => IsName(relayId, 64)
    case DiscoverProviders(query) => 1 <= query.limit <= 16
    case _ => true
  }

  /** Validation accepts exactly the well-formed requests. */
  lemma {:induction false} ValidExactly(lib: Library, q: OverlayRequest)
    ensures ValidateRequest(lib, q).Ok? <==> WellFormed(lib, q)
  {
    match q {
      case RegisterRelay(relay) => NameExactly(relay.relayId, 64);
      case HeartbeatRelay(relayId) => NameExactly(relayId, 64);
      case ReportRelayFailure(relayId) => NameExactly(relayId, 64);
      case _ =>
    }
  }

  function Kind(q: OverlayRequest): Byte {
    match q
    case RegisterPeer(_) => 1
    case HeartbeatPeer(_) => 2
    case PollPeer(_) => 3
    case RegisterRelay(_) => 4
    case HeartbeatRelay(_) => 5
    case Discover(_) => 6
    case DiscoverProviders(_) => 7
    case ReportRelayFailure(_) => 8
    case Health => 9
  }

  /** What the reader's own bounds let through. */
  predicate Readable(q: OverlayRequest) {
    match q
    case RegisterPeer(peer) => PeerFits(peer)
    case RegisterRelay(relay) => RelayFits(relay)
    case HeartbeatRelay(relayId) => Utf8(relayId) && |relayId| <= 64
    case DiscoverProviders(query) => query.limit <= U16_MAX
    case ReportRelayFailure(relayId) => Utf8(relayId) && |relayId| <= 64
    case _ => true
  }

  predicate Valid(lib: Library, q: OverlayRequest) {
    Typed(q) && ValidateRequest(lib, q).Ok?
  }

  function Body(q: OverlayRequest): seq<Byte> {
    match q
    case RegisterPeer(peer) => PutPeer(peer)
    case HeartbeatPeer(peerId) => peerId
    case PollPeer(peerId) => peerId
    case RegisterRelay(relay) => PutRelay(relay)
    case HeartbeatRelay(relayId) => PutText(relayId)
    case Discover(contentId) => contentId
    case DiscoverProviders(query) => PutQuery(query)
    case ReportRelayFailure(relayId) => PutText(relayId)
    case Health => []
  }

  function Framed(q: OverlayRequest): seq<Byte> {
    [Kind(q)] + Body(q)
  }

  function Wire(q: OverlayRequest): seq<Byte> {
    Header(OVERLAY_REQUEST) + Framed(q)
  }

  lemma {:induction false} ValidFits(lib: Library, q: OverlayRequest)
    requires Valid(lib, q)
    ensures |Wire(q)| <= MAX_OVERLAY && Readable(q)
  {
    HeaderLength(OVERLAY_REQUEST);
    hide Header, Bytes, Utf8, ValidIdentifier;
    match q {
      case RegisterPeer(peer) => PeerLength(peer);
      case RegisterRelay(relay) => IdentifierLength(relay.relayId, 64);
      case HeartbeatRelay(relayId) => IdentifierLength(relayId, 64);
      case ReportRelayFailure(relayId) => IdentifierLength(relayId, 64);
      case _ =>
    }
  }

  lemma {:induction false} PeerLength(peer: PeerAdvertisement)
    requires PeerFits(peer)
    ensures |PutPeer(peer)| == 67 + 2 * |peer.capabilities| + 32 * |peer.contentIds|
  {
  }

  method ReadRequest(reader: Reader) returns (r: Result<OverlayRequest, ProtocolError>)
    requires reader.Valid()
    modifies reader
    ensures reader.Valid()
    ensures r.Ok? ==> Readable(r.value) && old(reader.Rest()) == Framed(r.value) + reader.Rest()
    ensures forall q, t | old(reader.Rest()) == Framed(q) + t && Readable(q) :: r == Ok(q) && reader.Rest() == t
  {
    hide PutPeer, PutText, PutRelay, PutQuery, PeerFits, RelayFits, Utf8;
    assert forall q: OverlayRequest, t: seq<Byte> :: Framed(q) + t == [Kind(q)] + (Body(q) + t);
    hide Framed;
    var kind :- reader.U8();
    match kind {
      case 1 =>
        var peer :- ReadPeer(reader);
        r := Ok(RegisterPeer(peer));
      case 2 =>
        var peerId :- reader.Array();
        r := Ok(HeartbeatPeer(peerId));
      case 3 =>
        var peerId :- reader.Array();
        r := Ok(PollPeer(peerId));
      case 4 =>
        var relay :- ReadRelay(reader);
        r := Ok(RegisterRelay(relay));
      case 5 =>
        var relayId :- reader.Text(64);
        r := Ok(HeartbeatRelay(relayId));
      case 6 =>
        var contentId :- reader.Array();
        r := Ok(Discover(contentId));
      case 7 =>
        var query :- ReadQuery(reader);
        r := Ok(DiscoverProviders(query));
      case 8 =>
        var relayId :- reader.Text(64);
        r := Ok(ReportRelayFailure(relayId));
      case 9 =>
        r := Ok(Health);
      case _ =>
        r := Err(UnknownMessage(kind));
    }
  }

  /** Accepts exactly the written forms of valid requests. */
  method DecodeRequest(lib: Library, bytes: seq<Byte>) returns (r: Result<OverlayRequest, ProtocolError>)
    ensures r.Ok? ==> Valid(lib, r.value) && Wire(r.value) == bytes
    ensures forall q | Wire(q) == bytes && Valid(lib, q) :: r == Ok(q)
    ensures r.Ok? ==> WellFormed(lib, r.value)
    ensures forall q | Wire(q) == bytes && Typed(q) && WellFormed(lib, q) :: r == Ok(q)
    ensures |bytes| > MAX_OVERLAY ==> r == Err(MessageTooLarge(MAX_OVERLAY))
    ensures forall v: nat | |bytes| <= MAX_OVERLAY && v <= U16_MAX && v != VERSION && Magic() + Bytes(v, 2) <= bytes ::
              r == Err(UnsupportedVersion(v))
  {
    forall q | Valid(lib, q) ensures |Wire(q)| <= MAX_OVERLAY && Readable(q) {
      ValidFits(lib, q);
    }
    forall q ensures ValidateRequest(lib, q).Ok? <==> WellFormed(lib, q) {
      ValidExactly(lib, q);
    }
    hide Header, Bytes, Magic, Framed, Readable, ValidateRequest, Typed, WellFormed;
    assert forall q :: Framed(q) == Framed(q) + [];
    if |bytes| > MAX_OVERLAY {
      return Err(MessageTooLarge(MAX_OVERLAY));
    }
    var reader := new Reader(bytes);
    var _ :- ReadHeader(reader, OVERLAY_REQUEST);
    var value :- ReadRequest(reader);
    if reader.offset != |bytes| {
      return Err(Malformed("trailing bytes"));
    }
    var _ :- ValidateRequest(lib, value);
    ReadableIsTyped(value);
    assert reader.Rest() == [];
    r := Ok(value);
  }

  lemma {:induction false} ReadableIsTyped(q: OverlayRequest)
    requires Readable(q)
    ensures Typed(q)
  {
  }

  method WriteRequest(writer: Writer, request: OverlayRequest) returns (r: Result<(), ProtocolError>)
    modifies writer
    ensures r.Ok? ==> writer.bytes == old(writer.bytes) + Framed(request)
    ensures Readable(request) ==> r.Ok?
  {
    hide Bytes, PutPeer, PutText, PutRelay, Utf8;
    writer.Raw([Kind(request)]);
    match request {
      case RegisterPeer(peer) =>
        var _ :- WritePeer(writer, peer);
      case HeartbeatPeer(peerId) => writer.Raw(peerId);
      case PollPeer(peerId) => writer.Raw(peerId);
      case RegisterRelay(relay) =>
        var _ :- WriteRelay(writer, relay);
      case HeartbeatRelay(relayId) =>
        var _ :- writer.Text(relayId);
      case Discover(contentId) => writer.Raw(contentId);
      case DiscoverProviders(query) =>
        writer.Raw(query.contentId);
        writer.Raw(Bytes(query.limit, 2));
      case ReportRelayFailure(relayId) =>
        var _ :- writer.Text(relayId);
      case Health =>
    }
    r := Ok(());
  }

  /** Writes exactly the valid requests; the size limit never refuses one. */
  method EncodeRequest(lib: Library, request: OverlayRequest) returns (r: Result<seq<Byte>, ProtocolError>)
    requires Typed(request)
    ensures r.Ok? <==> ValidateRequest(lib, request).Ok?
    ensures r.Ok? <==> WellFormed(lib, request)
    ensures r.Ok? ==> r.value == Wire(request)
  {
    ValidExactly(lib, request);
    hide Header, Framed, Readable, ValidateRequest, Typed;
    var _ :- ValidateRequest(lib, request);
    var writer := new Writer(Header(OVERLAY_REQUEST));
    var written := WriteRequest(writer, request);
    if written.Err? {
      r := Err(written.error);
      ValidFits(lib, request);
      return;
    }
    if |writer.bytes| > MAX_OVERLAY {
      r := Err(MessageTooLarge(MAX_OVERLAY));
      ValidFits(lib, request);
      return;
    }
    r := Ok(writer.bytes);
  }

  /** A request that is well formed arrives as it was sent. */
  method Exchange(lib: Library, request: OverlayRequest)
    returns (sent: Result<seq<Byte>, ProtocolError>, received: Result<OverlayRequest, ProtocolError>)
    requires Typed(request)
    ensures sent.Ok? <==> WellFormed(lib, request)
    ensures sent.Ok? ==> received == Ok(request)
  {
    sent := EncodeRequest(lib, request);
    if sent.Err? {
      return sent, Err(sent.error);
    }
    received := DecodeRequest(lib, sent.value);
  }
}
