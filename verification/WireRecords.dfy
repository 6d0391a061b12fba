/** Records built from several fields, and the common header of the three message domains. */
module WireRecords {
  import opened Prelude
  import opened BigEndian
  import opened Content
  import opened Availability
  import opened WireFields

  const MAX_APPLICATION: nat := 65_519
  const MAX_OVERLAY: nat := 262_144
  const MAX_ERROR_TEXT: nat := 1_024
  const MAX_ROUTES: nat := 16

  const APPLICATION: Byte := 1
  const OVERLAY_REQUEST: Byte := 2
  const OVERLAY_RESPONSE: Byte := 3

  /** Library behaviour the codec relies on: socket-address syntax and the digest naming a public key. */
  datatype Library = Library(isSocketAddress: seq<Byte> -> bool, peerIdOf: Digest -> Digest)

  const MAX_TESTNET_CHUNKS: nat := 2_036

  const VERSION: nat := 1

  /** "TTP1" */
  function Magic(): (m: seq<Byte>)
    ensures |m| == 4
  {
    [84, 84, 80, 49]
  }

  /** "triptorrent-testnet-1" */
  function Network(): (n: seq<Byte>)
    ensures |n| == 21
  {
    [116, 114, 105, 112, 116, 111, 114, 114, 101, 110, 116, 45, 116, 101, 115, 116, 110, 101, 116, 45, 49]
  }

  // ----- The header -----

  function Preamble(): seq<Byte> {
    Magic() + Bytes(VERSION, 2)
  }

  function Scope(domain: Byte): seq<Byte> {
    [|Network()|] + (Network() + [domain])
  }

  function Header(domain: Byte): seq<Byte> {
    Preamble() + Scope(domain)
  }

  lemma {:induction false} HeaderLength(domain: Byte)
    ensures |Header(domain)| == 29
  {
  }

  method ReadPreamble(reader: Reader) returns (r: Result<(), ProtocolError>)
    requires reader.Valid()
    modifies reader
    ensures reader.Valid() && (r.Ok? ==> old(reader.Rest()) == Preamble() + reader.Rest())
    ensures forall t | old(reader.Rest()) == Preamble() + t :: r == Ok(()) && reader.Rest() == t
    ensures forall v: nat | v <= U16_MAX && v != VERSION && Magic() + Bytes(v, 2) <= old(reader.Rest()) ::
              r == Err(UnsupportedVersion(v))
  {
    assert forall t :: Preamble() + t == Magic() + (Bytes(VERSION, 2) + t);
    ghost var s := reader.Rest();
    forall v: nat | Magic() + Bytes(v, 2) <= s ensures s == Magic() + (Bytes(v, 2) + s[6..]) {
      assert s[..4] == Magic() && s[4..6] == Bytes(v, 2);
    }
    hide Preamble, Bytes, Magic;
    var magic :- reader.Take(4);
    if magic != Magic() {
      return Err(Malformed("invalid magic"));
    }
    var version :- reader.U16();
    if version != VERSION {
      return Err(UnsupportedVersion(version));
    }
    r := Ok(());
  }

  lemma {:induction false} ScopeThen(domain: Byte, t: seq<Byte>)
    ensures Scope(domain) + t == [|Network()|] + (Network() + ([domain] + t))
  {
    hide Network;
  }

  lemma NetworkIsUtf8()
    ensures Utf8(Network())
  {
    hide Utf8;
    AsciiIsUtf8(Network());
  }

  method ReadScope(reader: Reader, domain: Byte) returns (r: Result<(), ProtocolError>)
    requires reader.Valid()
    modifies reader
    ensures reader.Valid() && (r.Ok? ==> old(reader.Rest()) == Scope(domain) + reader.Rest())
    ensures forall t | old(reader.Rest()) == Scope(domain) + t :: r == Ok(()) && reader.Rest() == t
  {
    hide Scope, Utf8, Network;
    NetworkIsUtf8();
    forall t ensures Scope(domain) + t == [|Network()|] + (Network() + ([domain] + t)) {
      ScopeThen(domain, t);
    }
    var length :- reader.U8();
    var network :- reader.Take(length);
    if !Utf8(network) {
      return Err(Malformed("network identifier is not UTF-8"));
    }
    if network != Network() {
      return Err(WrongNetwork(network));
    }
    var found :- reader.U8();
    if found != domain {
      return Err(Malformed("wrong message domain"));
    }
    r := Ok(());
  }

  method ReadHeader(reader: Reader, domain: Byte) returns (r: Result<(), ProtocolError>)
    requires reader.Valid()
    modifies reader
    ensures reader.Valid() && (r.Ok? ==> old(reader.Rest()) == Header(domain) + reader.Rest())
    ensures forall t | old(reader.Rest()) == Header(domain) + t :: r == Ok(()) && reader.Rest() == t
    ensures forall v: nat | v <= U16_MAX && v != VERSION && Magic() + Bytes(v, 2) <= old(reader.Rest()) ::
              r == Err(UnsupportedVersion(v))
  {
    assert forall t :: Header(domain) + t == Preamble() + (Scope(domain) + t);
    hide Header, Preamble, Scope, Magic, Bytes;
    var _ :- ReadPreamble(reader);
    var _ :- ReadScope(reader, domain);
    r := Ok(());
  }

  // ----- Manifests -----

  function PutManifest(m: Manifest): seq<Byte> {
    m.contentId + (Bytes(m.length, 8) + (Bytes(m.chunkSize, 4) + (Bytes(|m.chunks|, 4) + PutDigests(m.chunks))))
  }

  predicate ManifestFits(m: Manifest) {
    m.length <= U64_MAX && m.chunkSize <= U32_MAX && |m.chunks| <= MAX_TESTNET_CHUNKS
  }

  lemma {:induction false} ManifestThen(m: Manifest, t: seq<Byte>)
    ensures PutManifest(m) + t
         == m.contentId + (Bytes(m.length, 8) + (Bytes(m.chunkSize, 4)
           + (Bytes(|m.chunks|, 4) + (PutDigests(m.chunks) + t))))
  {
  }

  method ReadManifest(reader: Reader) returns (r: Result<Manifest, ProtocolError>)
    requires reader.Valid()
    modifies reader
    ensures reader.Valid()
    ensures r.Ok? ==> ManifestFits(r.value) && old(reader.Rest()) == PutManifest(r.value) + reader.Rest()
    ensures forall m, t | old(reader.Rest()) == PutManifest(m) + t && ManifestFits(m) ::
              r == Ok(m) && reader.Rest() == t
  {
    forall m: Manifest, t
      ensures PutManifest(m) + t
           == m.contentId + (Bytes(m.length, 8) + (Bytes(m.chunkSize, 4)
             + (Bytes(|m.chunks|, 4) + (PutDigests(m.chunks) + t))))
    {
      ManifestThen(m, t);
    }
    hide PutManifest, PutDigests, Bytes;
    var contentId :- reader.Array();
    var length :- reader.U64();
    var chunkSize :- reader.U32();
    var count :- reader.U32();
    if count > MAX_TESTNET_CHUNKS {
      return Err(InvalidMessage("too many manifest chunks"));
    }
    var chunks :- reader.Digests(count);
    r := Ok(Manifest(contentId, length, chunkSize, chunks));
  }

  method WriteManifest(writer: Writer, m: Manifest) returns (r: Result<(), ProtocolError>)
    modifies writer
    ensures r.Ok? <==> |m.chunks| <= U32_MAX
    ensures r.Ok? ==> writer.bytes == old(writer.bytes) + PutManifest(m)
  {
    writer.Raw(m.contentId);
    writer.Raw(Bytes(m.length, 8));
    writer.Raw(Bytes(m.chunkSize, 4));
    if |m.chunks| > U32_MAX {
      return Err(InvalidMessage("too many manifest chunks"));
    }
    writer.Raw(Bytes(|m.chunks|, 4));
    writer.Digests(m.chunks);
    r := Ok(());
  }

  // ----- Chunks -----

  function PutChunk(c: Chunk): seq<Byte> {
    Bytes(c.index, 4) + (c.id + PutBlob(c.data))
  }

  predicate ChunkFits(c: Chunk) {
    c.index <= U32_MAX && |c.data| <= CHUNK_SIZE
  }

  method ReadChunk(reader: Reader) returns (r: Result<Chunk, ProtocolError>)
    requires reader.Valid()
    modifies reader
    ensures reader.Valid() && (r.Ok? ==> ChunkFits(r.value) && old(reader.Rest()) == PutChunk(r.value) + reader.Rest())
    ensures forall c, t | old(reader.Rest()) == PutChunk(c) + t && ChunkFits(c) :: r == Ok(c) && reader.Rest() == t
  {
    hide PutBlob, Bytes;
    assert forall c: Chunk, t: seq<Byte> :: PutChunk(c) + t == Bytes(c.index, 4) + (c.id + (PutBlob(c.data) + t));
    hide PutChunk;
    var index :- reader.U32();
    var id :- reader.Array();
    var data :- reader.Blob(CHUNK_SIZE);
    r := Ok(Chunk(index, id, data));
  }

  method WriteChunk(writer: Writer, c: Chunk) returns (r: Result<(), ProtocolError>)
    modifies writer
    ensures r.Ok? <==> |c.data| <= U32_MAX
    ensures r.Ok? ==> writer.bytes == old(writer.bytes) + PutChunk(c)
  {
    hide PutBlob, Bytes;
    writer.Raw(Bytes(c.index, 4));
    writer.Raw(c.id);
    r := writer.Blob(c.data);
  }

  // ----- A manifest with the sender's availability -----

  datatype Offer = Offer(manifest: Manifest, availability: PieceAvailability)

  function PutOffer(o: Offer): seq<Byte> {
    PutManifest(o.manifest) + (Bytes(o.availability.chunkCount, 4) + PutBlob(o.availability.bits))
  }

  predicate OfferFits(o: Offer) {
    ManifestFits(o.manifest) && o.availability.chunkCount <= U32_MAX && |o.availability.bits| <= MAX_APPLICATION
  }

  method ReadOffer(reader: Reader) returns (r: Result<Offer, ProtocolError>)
    requires reader.Valid()
    modifies reader
    ensures reader.Valid() && (r.Ok? ==> OfferFits(r.value) && old(reader.Rest()) == PutOffer(r.value) + reader.Rest())
    ensures forall o, t | old(reader.Rest()) == PutOffer(o) + t && OfferFits(o) :: r == Ok(o) && reader.Rest() == t
  {
    hide PutBlob, Bytes, PutManifest;
    assert forall o: Offer, t: seq<Byte> ::
        PutOffer(o) + t == PutManifest(o.manifest) + (Bytes(o.availability.chunkCount, 4)
          + (PutBlob(o.availability.bits) + t));
    hide PutOffer;
    var manifest :- ReadManifest(reader);
    var chunkCount :- reader.U32();
    var bits :- reader.Blob(MAX_APPLICATION);
    r := Ok(Offer(manifest, PieceAvailability(chunkCount, bits)));
  }

  method WriteOffer(writer: Writer, o: Offer) returns (r: Result<(), ProtocolError>)
    modifies writer
    ensures r.Ok? <==> |o.manifest.chunks| <= U32_MAX && |o.availability.bits| <= U32_MAX
    ensures r.Ok? ==> writer.bytes == old(writer.bytes) + PutOffer(o)
  {
    hide PutBlob, Bytes, PutManifest;
    var _ :- WriteManifest(writer, o.manifest);
    writer.Raw(Bytes(o.availability.chunkCount, 4));
    r := writer.Blob(o.availability.bits);
  }

  // ----- Identifiers -----

  predicate IsNameByte(b: Byte) {
    48 <= b <= 57 || 65 <= b <= 90 || 97 <= b <= 122 || b == 45 || b == 95
  }

  /** Non-empty, within the bound, and only ASCII letters, digits, `-` and `_`. */
  predicate ValidIdentifier(s: seq<Byte>, maximum: nat) {
    0 < |s| <= maximum && forall i | 0 <= i < |s| :: IsNameByte(s[i])
  }

  /** At least one and at most `most` letters, digits, hyphens and underscores. */
  predicate IsName(s: seq<Byte>, most: nat) {
    && 1 <= |s| <= most
    && forall b | b in s ::
         || 'a' as int <= b <= 'z' as int || 'A' as int <= b <= 'Z' as int || '0' as int <= b <= '9' as int
         || b == '-' as int || b == '_' as int
  }

  lemma {:induction false} NameExactly(s: seq<Byte>, most: nat)
    ensures ValidIdentifier(s, most) <==> IsName(s, most)
  {
    if IsName(s, most) {
      assert forall i | 0 <= i < |s| :: s[i] in s;
    }
  }

  lemma {:induction false} IdentifierLength(s: seq<Byte>, maximum: nat)
    ensures ValidIdentifier(s, maximum) ==> |s| <= maximum && Utf8(s)
  {
    if ValidIdentifier(s, maximum) {
      AsciiIsUtf8(s);
    }
  }

  // ----- Route assignments -----

  datatype RouteAssignment = RouteAssignment(
    providerId: Digest, providerKey: Digest, relayId: seq<Byte>, relayAddress: seq<Byte>, route: seq<Byte>)

  function PutAssignment(a: RouteAssignment): seq<Byte> {
    a.providerId + (a.providerKey + (PutText(a.relayId) + (PutText(a.relayAddress) + PutText(a.route))))
  }

  predicate AssignmentFits(a: RouteAssignment) {
    && |a.relayId| <= 64 && Utf8(a.relayId)
    && |a.relayAddress| <= 128 && Utf8(a.relayAddress)
    && |a.route| <= 128 && Utf8(a.route)
  }

  method ReadAssignment(reader: Reader) returns (r: Result<RouteAssignment, ProtocolError>)
    requires reader.Valid()
    modifies reader
    ensures reader.Valid()
    ensures r.Ok? ==> AssignmentFits(r.value) && old(reader.Rest()) == PutAssignment(r.value) + reader.Rest()
    ensures forall a, t | old(reader.Rest()) == PutAssignment(a) + t && AssignmentFits(a) ::
              r == Ok(a) && reader.Rest() == t
  {
    hide PutText, Utf8;
    assert forall a: RouteAssignment, t: seq<Byte> ::
        PutAssignment(a) + t
        == a.providerId + (a.providerKey + (PutText(a.relayId) + (PutText(a.relayAddress) + (PutText(a.route) + t))));
    hide PutAssignment;
    var providerId :- reader.Array();
    var providerKey :- reader.Array();
    var relayId :- reader.Text(64);
    var relayAddress :- reader.Text(128);
    var route :- reader.Text(128);
    r := Ok(RouteAssignment(providerId, providerKey, relayId, relayAddress, route));
  }

  method WriteAssignment(writer: Writer, a: RouteAssignment) returns (r: Result<(), ProtocolError>)
    modifies writer
    ensures r.Ok? <==> |a.relayId| <= U16_MAX && |a.relayAddress| <= U16_MAX && |a.route| <= U16_MAX
    ensures r.Ok? ==> writer.bytes == old(writer.bytes) + PutAssignment(a)
  {
    hide PutText;
    writer.Raw(a.providerId);
    writer.Raw(a.providerKey);
    var _ :- writer.Text(a.relayId);
    var _ :- writer.Text(a.relayAddress);
    var _ :- writer.Text(a.route);
    r := Ok(());
  }

  function PutOptional(a: Option<RouteAssignment>): seq<Byte> {
    if a.Some? then [1] + PutAssignment(a.value) else [0]
  }

  method ReadOptional(reader: Reader) returns (r: Result<Option<RouteAssignment>, ProtocolError>)
    requires reader.Valid()
    modifies reader
    ensures reader.Valid()
    ensures r.Ok? ==>
              && (r.value.Some? ==> AssignmentFits(r.value.value))
              && old(reader.Rest()) == PutOptional(r.value) + reader.Rest()
    ensures forall a: Option<RouteAssignment>, t | old(reader.Rest()) == PutOptional(a) + t
            && (a.Some? ==> AssignmentFits(a.value)) ::
              r == Ok(a) && reader.Rest() == t
  {
    hide PutAssignment, AssignmentFits;
    assert forall a: RouteAssignment, t: seq<Byte> :: PutOptional(Some(a)) + t == [1] + (PutAssignment(a) + t);
    var tag :- reader.U8();
    if tag == 0 {
      return Ok(None);
    }
    if tag != 1 {
      return Err(Malformed("invalid optional tag"));
    }
    var assignment :- ReadAssignment(reader);
    r := Ok(Some(assignment));
  }

  method WriteOptional(writer: Writer, a: Option<RouteAssignment>) returns (r: Result<(), ProtocolError>)
    modifies writer
    ensures a.None? || AssignmentFits(a.value) ==> r.Ok?
    ensures r.Ok? ==> writer.bytes == old(writer.bytes) + PutOptional(a)
  {
    hide PutAssignment;
    if a.None? {
      writer.Raw([0]);
      return Ok(());
    }
    writer.Raw([1]);
    r := WriteAssignment(writer, a.value);
  }
}
