/** Application messages of Testnet v1: validation, encoding and decoding. */
module WireMessages {
  import opened Prelude
  import opened BigEndian
  import opened Content
  import opened Availability
  import opened WireFields
  import opened WireRecords

  datatype Message =
    | Request(contentId: Digest)
    | ManifestMessage(manifest: Manifest)
    | ChunkMessage(chunk: Chunk)
    | Complete
    | Error(text: seq<Byte>)
    | SwarmRequest(contentId: Digest)
    | SwarmManifest(offer: Offer)
    | ChunkRequest(index: nat)
    | ChunkUnavailable(index: nat)
    | SwarmComplete

  /** What the field types already guarantee: machine widths and UTF-8 text. */
  predicate Typed(m: Message) {
    match m
    case ManifestMessage(manifest) => manifest.length <= U64_MAX && manifest.chunkSize <= U32_MAX
    case ChunkMessage(chunk) => chunk.index <= U32_MAX
    case Error(text) => Utf8(text)
    case SwarmManifest(offer) =>
      && offer.manifest.length <= U64_MAX && offer.manifest.chunkSize <= U32_MAX
      && offer.availability.chunkCount <= U32_MAX
    case ChunkRequest(index) => index <= U32_MAX
    case ChunkUnavailable(index) => index <= U32_MAX
    case _ => true
  }

  function ValidateManifest(m: Manifest): Result<(), ProtocolError> {
    if ValidateShape(m).Err? then Err(InvalidMessage("malformed manifest shape"))
    else if |m.chunks| > MAX_TESTNET_CHUNKS then Err(InvalidMessage("manifest exceeds Testnet v1 record bound"))
    else Ok(())
  }

  function ValidateMessage(m: Message): Result<(), ProtocolError> {
    match m
    case ManifestMessage(manifest) => ValidateManifest(manifest)
    case ChunkMessage(chunk) =>
      if |chunk.data| > CHUNK_SIZE then Err(InvalidMessage("chunk payload exceeds fixed chunk size")) else Ok(())
    case Error(text) => if |text| > MAX_ERROR_TEXT then Err(InvalidMessage("error text exceeds bound")) else Ok(())
    case SwarmManifest(offer) =>
      if ValidateManifest(offer.manifest).Err? then ValidateManifest(offer.manifest)
      else if offer.availability.chunkCount != Min(|offer.manifest.chunks|, U32_MAX)
        || !IsValid(offer.availability) then
        Err(InvalidMessage("piece availability does not match manifest"))
      else Ok(())
    case _ => Ok(())
  }

  // ----- Which messages are valid, field by field -----

  /** A manifest that fits a record. */
  predicate SmallManifest(m: Manifest) {
    WellShaped(m) && |m.chunks| <= 2_036
  }

  /** One bit for each of `n` chunks, in as many bytes as that takes, and none set past the last. */
  ghost predicate BitfieldOf(a: PieceAvailability, n: nat) {
    && a.chunkCount == n && n <= 8 * |a.bits| < n + 8
    && forall q, k | 0 <= q < |a.bits| && 0 <= k < 8 && BitSet(a.bits[q], k) :: 8 * q + k < n
  }

  ghost predicate WellFormed(m: Message) {
    match m
    case ManifestMessage(manifest) => SmallManifest(manifest)
    case ChunkMessage(chunk) => |chunk.data| <= 32_768
    case Error(text) => |text| <= 1_024
    case SwarmManifest(offer) =>
      SmallManifest(offer.manifest) && BitfieldOf(offer.availability, |offer.manifest.chunks|)
    case _ => true
  }

  lemma {:induction false} BitfieldExactly(a: PieceAvailability, n: nat)
    ensures a.chunkCount == n && IsValid(a) <==> BitfieldOf(a, n)
  {
    hide BitSet;
    if a.chunkCount == n && |a.bits| == CeilDiv(n, 8) {
      ValidBitwise(a);
    }
  }

  /** Validation accepts exactly the well-formed messages. */
  lemma {:induction false} ValidExactly(m: Message)
    ensures ValidateMessage(m).Ok? <==> WellFormed(m)
  {
    hide BitSet, WellShaped, ValidateShape, IsValid, BitfieldOf;
    match m {
      case ManifestMessage(manifest) => ShapeExactly(manifest);
      case SwarmManifest(offer) =>
        ShapeExactly(offer.manifest);
        BitfieldExactly(offer.availability, |offer.manifest.chunks|);
      case _ =>
    }
  }

  function Kind(m: Message): Byte {
    match m
    case Request(_) => 1
    case ManifestMessage(_) => 2
    case ChunkMessage(_) => 3
    case Complete => 4
    case Error(_) => 5
    case SwarmRequest(_) => 16
    case SwarmManifest(_) => 17
    case ChunkRequest(_) => 18
    case ChunkUnavailable(_) => 19
    case SwarmComplete => 20
  }

  function Body(m: Message): seq<Byte> {
    match m
    case Request(contentId) => contentId
    case ManifestMessage(manifest) => PutManifest(manifest)
    case ChunkMessage(chunk) => PutChunk(chunk)
    case Complete => []
    case Error(text) => PutText(text)
    case SwarmRequest(contentId) => contentId
    case SwarmManifest(offer) => PutOffer(offer)
    case ChunkRequest(index) => Bytes(index, 4)
    case ChunkUnavailable(index) => Bytes(index, 4)
    case SwarmComplete => []
  }

  function Framed(m: Message): seq<Byte> {
    [Kind(m)] + Body(m)
  }

  function Wire(m: Message): seq<Byte> {
    Header(APPLICATION) + Framed(m)
  }

  predicate Valid(m: Message) {
    Typed(m) && ValidateMessage(m).Ok?
  }

  /** What the reader's own bounds let through. */
  predicate Readable(m: Message) {
    match m
    case ManifestMessage(manifest) => ManifestFits(manifest)
    case ChunkMessage(chunk) => ChunkFits(chunk)
    case Error(text) => Utf8(text) && |text| <= MAX_ERROR_TEXT
    case SwarmManifest(offer) => OfferFits(offer)
    case ChunkRequest(index) => index <= U32_MAX
    case ChunkUnavailable(index) => index <= U32_MAX
    case _ => true
  }

  method ReadMessage(reader: Reader) returns (r: Result<Message, ProtocolError>)
    requires reader.Valid()
    modifies reader
    ensures reader.Valid()
    ensures r.Ok? ==> Readable(r.value) && old(reader.Rest()) == Framed(r.value) + reader.Rest()
    ensures forall m, t | old(reader.Rest()) == Framed(m) + t && Readable(m) :: r == Ok(m) && reader.Rest() == t
  {
    hide Body, Readable;
    assert forall m: Message, t: seq<Byte> :: Framed(m) + t == [Kind(m)] + (Body(m) + t);
    hide Framed, Kind;
    var kind :- reader.U8();
    if kind < 16 {
      r := ReadTransferBody(reader, kind);
    } else {
      r := ReadSwarmBody(reader, kind);
    }
  }

  method ReadTransferBody(reader: Reader, kind: Byte) returns (r: Result<Message, ProtocolError>)
    requires reader.Valid() && kind < 16
    modifies reader
    ensures reader.Valid()
    ensures r.Ok? ==> Kind(r.value) == kind && Readable(r.value) && old(reader.Rest()) == Body(r.value) + reader.Rest()
    ensures forall m, t | old(reader.Rest()) == Body(m) + t && Kind(m) == kind && Readable(m) ::
              r == Ok(m) && reader.Rest() == t
  {
    hide PutManifest, PutChunk, PutText, Utf8, ManifestFits, ChunkFits;
    match kind {
      case 1 =>
        var contentId :- reader.Array();
        r := Ok(Request(contentId));
      case 2 =>
        var manifest :- ReadManifest(reader);
        r := Ok(ManifestMessage(manifest));
      case 3 =>
        var chunk :- ReadChunk(reader);
        r := Ok(ChunkMessage(chunk));
      case 4 =>
        r := Ok(Complete);
      case 5 =>
        var text :- reader.Text(MAX_ERROR_TEXT);
        r := Ok(Error(text));
      case _ =>
        r := Err(UnknownMessage(kind));
    }
  }

  method ReadSwarmBody(reader: Reader, kind: Byte) returns (r: Result<Message, ProtocolError>)
    requires reader.Valid() && kind >= 16
    modifies reader
    ensures reader.Valid()
    ensures r.Ok? ==> Kind(r.value) == kind && Readable(r.value) && old(reader.Rest()) == Body(r.value) + reader.Rest()
    ensures forall m, t | old(reader.Rest()) == Body(m) + t && Kind(m) == kind && Readable(m) ::
              r == Ok(m) && reader.Rest() == t
  {
    hide PutOffer, Bytes, OfferFits;
    match kind {
      case 16 =>
        var contentId :- reader.Array();
        r := Ok(SwarmRequest(contentId));
      case 17 =>
        var offer :- ReadOffer(reader);
        r := Ok(SwarmManifest(offer));
      case 18 =>
        var index :- reader.U32();
        r := Ok(ChunkRequest(index));
      case 19 =>
        var index :- reader.U32();
        r := Ok(ChunkUnavailable(index));
      case 20 =>
        r := Ok(SwarmComplete);
      case _ =>
        r := Err(UnknownMessage(kind));
    }
  }

  /** Every valid message fits a record, and none of its fields exceeds the reader's bounds. */
  lemma {:induction false} ValidFits(m: Message)
    requires Valid(m)
    ensures |Wire(m)| <= MAX_APPLICATION && Readable(m)
  {
    HeaderLength(APPLICATION);
    hide Header, Bytes, Utf8;
  }

  /** 2,036 is exactly the largest chunk count whose manifest and bitfield fit a record. */
  lemma {:induction false} LargestSwarmManifest(offer: Offer)
    requires |offer.availability.bits| == CeilDiv(|offer.manifest.chunks|, 8)
    ensures |Wire(SwarmManifest(offer))| <= MAX_APPLICATION <==> |offer.manifest.chunks| <= MAX_TESTNET_CHUNKS
  {
    HeaderLength(APPLICATION);
    hide Header, Bytes;
    assert |Wire(SwarmManifest(offer))| == 86 + 32 * |offer.manifest.chunks| + CeilDiv(|offer.manifest.chunks|, 8);
  }

  /** Accepts exactly the written forms of valid messages. */
  method Decode(bytes: seq<Byte>) returns (r: Result<Message, ProtocolError>)
    ensures r.Ok? ==> Valid(r.value) && Wire(r.value) == bytes
    ensures forall m | Wire(m) == bytes && Valid(m) :: r == Ok(m)
    ensures r.Ok? ==> WellFormed(r.value)
    ensures forall m | Wire(m) == bytes && Typed(m) && WellFormed(m) :: r == Ok(m)
    ensures |bytes| > MAX_APPLICATION ==> r == Err(MessageTooLarge(MAX_APPLICATION))
    ensures forall v: nat | |bytes| <= MAX_APPLICATION && v <= U16_MAX && v != VERSION
            && Magic() + Bytes(v, 2) <= bytes ::
              r == Err(UnsupportedVersion(v))
  {
    forall m | Valid(m) ensures |Wire(m)| <= MAX_APPLICATION && Readable(m) {
      ValidFits(m);
    }
    forall m ensures ValidateMessage(m).Ok? <==> WellFormed(m) {
      ValidExactly(m);
    }
    hide Header, Bytes, Magic, Framed, Readable, ValidateMessage, Typed, WellFormed;
    assert forall m :: Framed(m) == Framed(m) + [];
    if |bytes| > MAX_APPLICATION {
      return Err(MessageTooLarge(MAX_APPLICATION));
    }
    var reader := new Reader(bytes);
    var _ :- ReadHeader(reader, APPLICATION);
    var value :- ReadMessage(reader);
    if reader.offset != |bytes| {
      return Err(Malformed("trailing bytes"));
    }
    var _ :- ValidateMessage(value);
    ReadableIsTyped(value);
    assert reader.Rest() == [];
    r := Ok(value);
  }

  lemma {:induction false} ReadableIsTyped(m: Message)
    requires Readable(m)
    ensures Typed(m)
  {
  }

  method WriteMessage(writer: Writer, message: Message) returns (r: Result<(), ProtocolError>)
    modifies writer
    ensures r.Ok? ==> writer.bytes == old(writer.bytes) + Framed(message)
    ensures Readable(message) ==> r.Ok?
  {
    hide Bytes, PutManifest, PutText, PutChunk, PutOffer, Utf8;
    writer.Raw([Kind(message)]);
    match message {
      case Request(contentId) => writer.Raw(contentId);
      case ManifestMessage(manifest) =>
        var _ :- WriteManifest(writer, manifest);
      case ChunkMessage(chunk) =>
        var _ :- WriteChunk(writer, chunk);
      case Complete =>
      case Error(text) =>
        var _ :- writer.Text(text);
      case SwarmRequest(contentId) => writer.Raw(contentId);
      case SwarmManifest(offer) =>
        var _ :- WriteOffer(writer, offer);
      case ChunkRequest(index) => writer.Raw(Bytes(index, 4));
      case ChunkUnavailable(index) => writer.Raw(Bytes(index, 4));
      case SwarmComplete =>
    }
    r := Ok(());
  }

  /** Writes exactly the valid messages; the size limit never refuses one. */
  method Encode(message: Message) returns (r: Result<seq<Byte>, ProtocolError>)
    requires Typed(message)
    ensures r.Ok? <==> ValidateMessage(message).Ok?
    ensures r.Ok? <==> WellFormed(message)
    ensures r.Ok? ==> r.value == Wire(message)
  {
    ValidExactly(message);
    hide Header, Framed, Readable, ValidateMessage, Typed;
    var _ :- ValidateMessage(message);
    var writer := new Writer(Header(APPLICATION));
    var written := WriteMessage(writer, message);
    if written.Err? {
      r := Err(written.error);
      ValidFits(message);
      return;
    }
    if |writer.bytes| > MAX_APPLICATION {
      r := Err(MessageTooLarge(MAX_APPLICATION));
      ValidFits(message);
      return;
    }
    r := Ok(writer.bytes);
  }

  // ----- What a transfer needs can be sent -----

  /** A message that is well formed arrives as it was sent. */
  method Exchange(message: Message)
    returns (sent: Result<seq<Byte>, ProtocolError>, received: Result<Message, ProtocolError>)
    requires Typed(message)
    ensures sent.Ok? <==> WellFormed(message)
    ensures sent.Ok? ==> received == Ok(message)
  {
    sent := Encode(message);
    if sent.Err? {
      return sent, Err(sent.error);
    }
    received := Decode(sent.value);
    ValidExactly(message);
  }

  /** Every file of at most 2,036 chunks: its manifest, its bitfields and every one of its chunks can be sent. */
  lemma {:induction false} ContentIsSendable(h: Hash, bytes: seq<Byte>)
    requires CeilDiv(|bytes|, 32_768) <= 2_036
    ensures FromBytes(h, bytes).Ok?
    ensures var (m, chunks) := FromBytes(h, bytes).value;
            && Typed(ManifestMessage(m)) && WellFormed(ManifestMessage(m))
            && (forall c | c in chunks :: Typed(ChunkMessage(c)) && WellFormed(ChunkMessage(c)))
            && forall a: PieceAvailability | a.chunkCount == |m.chunks| && IsValid(a) ::
                 Typed(SwarmManifest(Offer(m, a))) && WellFormed(SwarmManifest(Offer(m, a)))
  {
    FromBytesReconstructs(h, bytes);
    var (m, chunks) := FromBytes(h, bytes).value;
    ShapeExactly(m);
    forall a: PieceAvailability ensures a.chunkCount == |m.chunks| && IsValid(a) <==> BitfieldOf(a, |m.chunks|) {
      BitfieldExactly(a, |m.chunks|);
    }
    hide BitfieldOf, IsValid, ValidateShape;
  }

  /** A provider that holds the given chunks of such a file tells a receiver exactly that. */
  method OfferArrives(h: Hash, bytes: seq<Byte>, indices: seq<nat>) returns (received: Result<Message, ProtocolError>)
    requires CeilDiv(|bytes|, 32_768) <= 2_036
    ensures received.Ok? && received.value.SwarmManifest?
    ensures received.value.offer.manifest == FromBytes(h, bytes).value.0
    ensures forall i: nat | i < CeilDiv(|bytes|, 32_768) ::
              Contains(received.value.offer.availability, i) <==> i in indices
  {
    ContentIsSendable(h, bytes);
    var m := FromBytes(h, bytes).value.0;
    var a := FromIndices(|m.chunks|, indices);
    assert forall i: nat | i < |m.chunks| :: Contains(a, i) <==> i in Members(a);
    hide IsValid, Contains, WellFormed, Typed;
    var sent;
    sent, received := Exchange(SwarmManifest(Offer(m, a)));
  }
}
