/** Counted lists of records. */
module WireLists {
  import opened Prelude
  import opened BigEndian
  import opened Content
  import opened WireFields
  import opened WireRecords

  // ----- Route assignments -----

  function PutAssignments(list: seq<RouteAssignment>): seq<Byte> {
    PutAll(PutAssignment, list)
  }

  method ReadAssignments(reader: Reader, count: nat) returns (r: Result<seq<RouteAssignment>, ProtocolError>)
    requires reader.Valid()
    modifies reader
    ensures reader.Valid() && ReadsAll(PutAssignment, AssignmentFits, count, old(reader.Rest()), r, reader.Rest())
  {
    hide SoFar, ReadsAll, PutAssignment, AssignmentFits;
    var values: seq<RouteAssignment> := [];
    NothingYet(PutAssignment, AssignmentFits, count, reader.Rest());
    for i := 0 to count
      invariant reader.Valid() && |values| == i
      invariant SoFar(PutAssignment, AssignmentFits, count, old(reader.Rest()), values, reader.Rest())
    {
      ghost var before := reader.Rest();
      var value := ReadAssignment(reader);
      assert ReadsOne(PutAssignment, AssignmentFits, before, value, reader.Rest());
      hide ReadsOne;
      Advance(PutAssignment, AssignmentFits, count, old(reader.Rest()), values, before, value, reader.Rest());
      if value.Err? {
        return Err(value.error);
      }
      values := values + [value.value];
    }
    Finished(PutAssignment, AssignmentFits, count, old(reader.Rest()), values, reader.Rest());
    r := Ok(values);
  }

  method WriteAssignments(writer: Writer, list: seq<RouteAssignment>) returns (r: Result<(), ProtocolError>)
    modifies writer
    ensures AllFit(AssignmentFits, list) ==> r.Ok?
    ensures r.Ok? ==> writer.bytes == old(writer.bytes) + PutAssignments(list)
  {
    hide PutAssignment;
    for i := 0 to |list|
      invariant old(writer.bytes) + PutAssignments(list) == writer.bytes + PutAssignments(list[i..])
    {
      assert list[i..][0] == list[i] && list[i..][1..] == list[i + 1..];
      var _ :- WriteAssignment(writer, list[i]);
    }
    r := Ok(());
  }

  // ----- Capabilities -----

  datatype PeerCapability = RelayedTransferV1 | SwarmTransferV1

  function Code(c: PeerCapability): nat {
    if c == RelayedTransferV1 then 1 else 2
  }

  function PutCapability(c: PeerCapability): seq<Byte> {
    Bytes(Code(c), 2)
  }

  predicate AnyCapability(c: PeerCapability) {
    true
  }

  function PutCapabilities(list: seq<PeerCapability>): (r: seq<Byte>)
    ensures |r| == 2 * |list|
  {
    CapabilitiesLength(list);
    PutAll(PutCapability, list)
  }

  lemma {:induction false} CapabilitiesLength(list: seq<PeerCapability>)
    ensures |PutAll(PutCapability, list)| == 2 * |list|
  {
    if list != [] {
      CapabilitiesLength(list[1..]);
    }
  }

  method ReadCapability(reader: Reader) returns (r: Result<PeerCapability, ProtocolError>)
    requires reader.Valid()
    modifies reader
    ensures reader.Valid() && ReadsOne(PutCapability, AnyCapability, old(reader.Rest()), r, reader.Rest())
  {
    hide Bytes;
    var code :- reader.U16();
    if code == 1 {
      r := Ok(RelayedTransferV1);
    } else if code == 2 {
      r := Ok(SwarmTransferV1);
    } else {
      r := Err(UnsupportedCapability(code));
    }
  }

  method ReadCapabilities(reader: Reader, count: nat) returns (r: Result<seq<PeerCapability>, ProtocolError>)
    requires reader.Valid()
    modifies reader
    ensures reader.Valid()
    ensures r.Ok? ==> |r.value| == count && old(reader.Rest()) == PutCapabilities(r.value) + reader.Rest()
    ensures forall v, t | old(reader.Rest()) == PutCapabilities(v) + t && |v| == count ::
              r == Ok(v) && reader.Rest() == t
  {
    hide SoFar, ReadsOne, PutCapability;
    var values: seq<PeerCapability> := [];
    NothingYet(PutCapability, AnyCapability, count, reader.Rest());
    for i := 0 to count
      invariant reader.Valid() && |values| == i
      invariant SoFar(PutCapability, AnyCapability, count, old(reader.Rest()), values, reader.Rest())
    {
      ghost var before := reader.Rest();
      var value := ReadCapability(reader);
      Advance(PutCapability, AnyCapability, count, old(reader.Rest()), values, before, value, reader.Rest());
      if value.Err? {
        return Err(value.error);
      }
      values := values + [value.value];
    }
    Finished(PutCapability, AnyCapability, count, old(reader.Rest()), values, reader.Rest());
    r := Ok(values);
  }

  method WriteCapabilities(writer: Writer, list: seq<PeerCapability>)
    modifies writer
    ensures writer.bytes == old(writer.bytes) + PutCapabilities(list)
  {
    hide Bytes;
    for i := 0 to |list|
      invariant old(writer.bytes) + PutCapabilities(list) == writer.bytes + PutCapabilities(list[i..])
    {
      assert list[i..][0] == list[i] && list[i..][1..] == list[i + 1..];
      writer.Raw(Bytes(Code(list[i]), 2));
    }
  }

  // ----- Peer advertisements -----

  datatype PeerAdvertisement = PeerAdvertisement(
    peerId: Digest, publicKey: Digest, capabilities: seq<PeerCapability>, contentIds: seq<Digest>)

  const MAX_CAPABILITIES: nat := 8
  const MAX_CONTENT_IDS: nat := 256

  function PutPeer(p: PeerAdvertisement): seq<Byte> {
    p.peerId + (p.publicKey + ([|p.capabilities| % 256] + (PutCapabilities(p.capabilities)
    + (Bytes(|p.contentIds|, 2) + PutDigests(p.contentIds)))))
  }

  predicate PeerFits(p: PeerAdvertisement) {
    |p.capabilities| <= MAX_CAPABILITIES && |p.contentIds| <= MAX_CONTENT_IDS
  }

  lemma {:induction false} PeerThen(p: PeerAdvertisement, t: seq<Byte>)
    requires PeerFits(p)
    ensures PutPeer(p) + t
         == p.peerId + (p.publicKey + ([|p.capabilities|] + (PutCapabilities(p.capabilities)
            + (Bytes(|p.contentIds|, 2) + (PutDigests(p.contentIds) + t)))))
  {
    hide PutCapabilities, PutDigests, Bytes;
  }

  method ReadPeer(reader: Reader) returns (r: Result<PeerAdvertisement, ProtocolError>)
    requires reader.Valid()
    modifies reader
    ensures reader.Valid() && (r.Ok? ==> PeerFits(r.value) && old(reader.Rest()) == PutPeer(r.value) + reader.Rest())
    ensures forall p, t | old(reader.Rest()) == PutPeer(p) + t && PeerFits(p) :: r == Ok(p) && reader.Rest() == t
  {
    hide PutPeer, PutCapabilities, PutDigests, Bytes;
    forall p: PeerAdvertisement, t: seq<Byte> | PeerFits(p)
      ensures PutPeer(p) + t
           == p.peerId + (p.publicKey + ([|p.capabilities|] + (PutCapabilities(p.capabilities)
              + (Bytes(|p.contentIds|, 2) + (PutDigests(p.contentIds) + t)))))
    {
      PeerThen(p, t);
    }
    var peerId :- reader.Array();
    var publicKey :- reader.Array();
    var capabilityCount :- reader.U8();
    if capabilityCount > MAX_CAPABILITIES {
      return Err(InvalidMessage("too many capabilities"));
    }
    var capabilities :- ReadCapabilities(reader, capabilityCount);
    var idCount :- reader.U16();
    if idCount > MAX_CONTENT_IDS {
      return Err(InvalidMessage("too many content identifiers"));
    }
    var contentIds :- reader.Digests(idCount);
    r := Ok(PeerAdvertisement(peerId, publicKey, capabilities, contentIds));
  }

  method WritePeer(writer: Writer, p: PeerAdvertisement) returns (r: Result<(), ProtocolError>)
    modifies writer
    ensures PeerFits(p) ==> r.Ok?
    ensures r.Ok? ==> writer.bytes == old(writer.bytes) + PutPeer(p)
  {
    hide PutCapabilities, PutDigests, Bytes;
    writer.Raw(p.peerId);
    writer.Raw(p.publicKey);
    if |p.capabilities| > 255 {
      return Err(InvalidMessage("too many capabilities"));
    }
    writer.Raw([|p.capabilities|]);
    WriteCapabilities(writer, p.capabilities);
    if |p.contentIds| > U16_MAX {
      return Err(InvalidMessage("too many content identifiers"));
    }
    writer.Raw(Bytes(|p.contentIds|, 2));
    writer.Digests(p.contentIds);
    r := Ok(());
  }

  // ----- Relay advertisements -----

  datatype RelayAdvertisement = RelayAdvertisement(relayId: seq<Byte>, address: seq<Byte>)

  function PutRelay(a: RelayAdvertisement): seq<Byte> {
    PutText(a.relayId) + PutText(a.address)
  }

  predicate RelayFits(a: RelayAdvertisement) {
    |a.relayId| <= 64 && Utf8(a.relayId) && |a.address| <= 128 && Utf8(a.address)
  }

  method ReadRelay(reader: Reader) returns (r: Result<RelayAdvertisement, ProtocolError>)
    requires reader.Valid()
    modifies reader
    ensures reader.Valid() && (r.Ok? ==> RelayFits(r.value) && old(reader.Rest()) == PutRelay(r.value) + reader.Rest())
    ensures forall a, t | old(reader.Rest()) == PutRelay(a) + t && RelayFits(a) :: r == Ok(a) && reader.Rest() == t
  {
    hide PutText, Utf8;
    assert forall a: RelayAdvertisement, t: seq<Byte> ::
      PutRelay(a) + t == PutText(a.relayId) + (PutText(a.address) + t);
    hide PutRelay;
    var relayId :- reader.Text(64);
    var address :- reader.Text(128);
    r := Ok(RelayAdvertisement(relayId, address));
  }

  method WriteRelay(writer: Writer, a: RelayAdvertisement) returns (r: Result<(), ProtocolError>)
    modifies writer
    ensures RelayFits(a) ==> r.Ok?
    ensures r.Ok? ==> writer.bytes == old(writer.bytes) + PutRelay(a)
  {
    hide PutText, Utf8;
    var _ :- writer.Text(a.relayId);
    r := writer.Text(a.address);
  }

  // ----- Provider queries -----

  datatype ProviderQuery = ProviderQuery(contentId: Digest, limit: nat)

  function PutQuery(q: ProviderQuery): seq<Byte> {
    q.contentId + Bytes(q.limit, 2)
  }

  method ReadQuery(reader: Reader) returns (r: Result<ProviderQuery, ProtocolError>)
    requires reader.Valid()
    modifies reader
    ensures reader.Valid()
    ensures r.Ok? ==> r.value.limit <= U16_MAX && old(reader.Rest()) == PutQuery(r.value) + reader.Rest()
    ensures forall q, t | old(reader.Rest()) == PutQuery(q) + t && q.limit <= U16_MAX ::
              r == Ok(q) && reader.Rest() == t
  {
    hide Bytes;
    assert forall q: ProviderQuery, t: seq<Byte> :: PutQuery(q) + t == q.contentId + (Bytes(q.limit, 2) + t);
    hide PutQuery;
    var contentId :- reader.Array();
    var limit :- reader.U16();
    r := Ok(ProviderQuery(contentId, limit));
  }
}
