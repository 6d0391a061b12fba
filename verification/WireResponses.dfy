/** Discovery responses of Testnet v1: validation, encoding and decoding. */
module WireResponses {
  import opened Prelude
  import opened BigEndian
  import opened Content
  import opened WireFields
  import opened WireRecords
  import opened WireLists
  import WireMessages
  import WireRequests

  datatype OverlayResponse =
    | Registered(leaseMs: nat)
    | Assignment(assignment: Option<RouteAssignment>)
    | Route(assignment: Option<RouteAssignment>)
    | Routes(routes: seq<RouteAssignment>)
    | Acknowledged
    | Error(text: seq<Byte>)

  predicate TextTyped(a: RouteAssignment) {
    Utf8(a.relayId) && Utf8(a.relayAddress) && Utf8(a.route)
  }

  predicate Typed(p: OverlayResponse) {
    match p
    case Registered(leaseMs) => leaseMs <= U64_MAX
    case Assignment(a) => a.Some? ==> TextTyped(a.value)
    case Route(a) => a.Some? ==> TextTyped(a.value)
    case Routes(routes) => forall i | 0 <= i < |routes| :: TextTyped(routes[i])
    case Acknowledged => true
    case Error(text) => Utf8(text)
  }

  predicate ValidAssignment(lib: Library, a: RouteAssignment) {
    && ValidIdentifier(a.relayId, 64)
    && |a.relayAddress| <= 128 && lib.isSocketAddress(a.relayAddress)
    && ValidIdentifier(a.route, 128)
  }

  function ValidateResponse(lib: Library, p: OverlayResponse): Result<(), ProtocolError> {
    var invalid := Err(InvalidMessage("invalid route assignment fields"));
    match p
    case Assignment(Some(a)) => if ValidAssignment(lib, a) then Ok(()) else invalid
    case Route(Some(a)) => if ValidAssignment(lib, a) then Ok(()) else invalid
    case Routes(routes) =>
      if |routes| > MAX_ROUTES then Err(InvalidMessage("too many route assignments"))
      else if forall i | 0 <= i < |routes| :: ValidAssignment(lib, routes[i]) then Ok(())
      else invalid
    case Error(text) => if |text| > MAX_ERROR_TEXT then Err(InvalidMessage("error text exceeds bound")) else Ok(())
    case _ => Ok(())
  }

  /** Which responses are valid, field by field. */
  predicate WellFormed(lib: Library, p: OverlayResponse) {
    match p
    case Assignment(a) => a.Some? ==> RouteWellFormed(lib, a.value)
    case Route(a) => a.Some? ==> RouteWellFormed(lib, a.value)
    case Routes(routes) => |routes| <= 16 && forall a | a in routes :: RouteWellFormed(lib, a)
    case Error(text) => |text| <= 1_024
    case _ => true
  }

  predicate RouteWellFormed(lib: Library, a: RouteAssignment) {
    IsName(a.relayId, 64) && |a.relayAddress| <= 128 && lib.isSocketAddress(a.relayAddress) && IsName(a.route, 128)
  }

  lemma {:induction false} RouteExactly(lib: Library, a: RouteAssignment)
    ensures ValidAssignment(lib, a) <==> RouteWellFormed(lib, a)
  {
    NameExactly(a.relayId, 64);
    NameExactly(a.route, 128);
  }

  /** Validation accepts exactly the well-formed responses. */
  lemma {:induction false} ValidExactly(lib: Library, p: OverlayResponse)
    ensures ValidateResponse(lib, p).Ok? <==> WellFormed(lib, p)
  {
    forall a ensures ValidAssignment(lib, a) <==> RouteWellFormed(lib, a) {
      RouteExactly(lib, a);
    }
    hide ValidAssignment, RouteWellFormed;
    if p.Routes? {
      assert forall i | 0 <= i < |p.routes| :: p.routes[i] in p.routes;
    }
  }

  function Kind(p: OverlayResponse): Byte {
    match p
    case Registered(_) => 1
    case Assignment(_) => 2
    case Route(_) => 3
    case Routes(_) => 4
    case Acknowledged => 5
    case Error(_) => 255
  }

  /** What the reader's own bounds let through. */
  predicate Readable(p: OverlayResponse) {
    match p
    case Registered(leaseMs) => leaseMs <= U64_MAX
    case Assignment(a) => a.Some? ==> AssignmentFits(a.value)
    case Route(a) => a.Some? ==> AssignmentFits(a.value)
    case Routes(routes) => |routes| <= MAX_ROUTES && AllFit(AssignmentFits, routes)
    case Acknowledged => true
    case Error(text) => Utf8(text) && |text| <= MAX_ERROR_TEXT
  }

  predicate Valid(lib: Library, p: OverlayResponse) {
    Typed(p) && ValidateResponse(lib, p).Ok?
  }

  function PutRoutes(routes: seq<RouteAssignment>): seq<Byte> {
    Bytes(|routes|, 2) + PutAssignments(routes)
  }

  function Body(p: OverlayResponse): seq<Byte> {
    match p
    case Registered(leaseMs) => Bytes(leaseMs, 8)
    case Assignment(a) => PutOptional(a)
    case Route(a) => PutOptional(a)
    case Routes(routes) => PutRoutes(routes)
    case Acknowledged => []
    case Error(text) => PutText(text)
  }

  function Framed(p: OverlayResponse): seq<Byte> {
    [Kind(p)] + Body(p)
  }

  function Wire(p: OverlayResponse): seq<Byte> {
    Header(OVERLAY_RESPONSE) + Framed(p)
  }

  lemma {:induction false} AssignmentLength(a: RouteAssignment)
    requires AssignmentFits(a)
    ensures |PutAssignment(a)| <= 390
  {
  }

  lemma {:induction false} AssignmentsLength(list: seq<RouteAssignment>)
    requires AllFit(AssignmentFits, list)
    ensures |PutAssignments(list)| <= 390 * |list|
  {
    hide PutAssignment, AssignmentFits;
    if list != [] {
      AssignmentLength(list[0]);
      AssignmentsLength(list[1..]);
    }
  }

  lemma {:induction false} ValidIsFit(lib: Library, a: RouteAssignment)
    ensures ValidAssignment(lib, a) && TextTyped(a) ==> AssignmentFits(a)
  {
  }

  lemma {:induction false} ValidFits(lib: Library, p: OverlayResponse)
    requires Valid(lib, p)
    ensures |Wire(p)| <= MAX_OVERLAY && Readable(p)
  {
    HeaderLength(OVERLAY_RESPONSE);
    forall a ensures ValidAssignment(lib, a) && TextTyped(a) ==> AssignmentFits(a) {
      ValidIsFit(lib, a);
    }
    hide Header, Bytes, Utf8, ValidAssignment, TextTyped, AssignmentFits, PutAssignment, PutAssignments;
    match p {
      case Assignment(Some(a)) => AssignmentLength(a);
      case Route(Some(a)) => AssignmentLength(a);
      case Routes(routes) => AssignmentsLength(routes);
      case _ =>
    }
  }

  method ReadRoutes(reader: Reader) returns (r: Result<seq<RouteAssignment>, ProtocolError>)
    requires reader.Valid()
    modifies reader
    ensures reader.Valid()
    ensures r.Ok? ==>
              && |r.value| <= MAX_ROUTES && AllFit(AssignmentFits, r.value)
              && old(reader.Rest()) == PutRoutes(r.value) + reader.Rest()
    ensures forall v, t | old(reader.Rest()) == PutRoutes(v) + t && |v| <= MAX_ROUTES && AllFit(AssignmentFits, v) ::
              r == Ok(v) && reader.Rest() == t
  {
    hide Bytes, PutAll, AllFit;
    assert forall v: seq<RouteAssignment>, t: seq<Byte> :: PutRoutes(v) + t == Bytes(|v|, 2) + (PutAssignments(v) + t);
    hide PutRoutes;
    var count :- reader.U16();
    if count > MAX_ROUTES {
      return Err(InvalidMessage("too many route assignments"));
    }
    r := ReadAssignments(reader, count);
  }

  method ReadResponse(reader: Reader) returns (r: Result<OverlayResponse, ProtocolError>)
    requires reader.Valid()
    modifies reader
    ensures reader.Valid()
    ensures r.Ok? ==> Readable(r.value) && old(reader.Rest()) == Framed(r.value) + reader.Rest()
    ensures forall p, t | old(reader.Rest()) == Framed(p) + t && Readable(p) :: r == Ok(p) && reader.Rest() == t
  {
    hide PutOptional, PutRoutes, PutText, Bytes, Utf8, AssignmentFits, AllFit;
    assert forall p: OverlayResponse, t: seq<Byte> :: Framed(p) + t == [Kind(p)] + (Body(p) + t);
    hide Framed;
    var kind :- reader.U8();
    match kind {
      case 1 =>
        var leaseMs :- reader.U64();
        r := Ok(Registered(leaseMs));
      case 2 =>
        var a :- ReadOptional(reader);
        r := Ok(Assignment(a));
      case 3 =>
        var a :- ReadOptional(reader);
        r := Ok(Route(a));
      case 4 =>
        var routes :- ReadRoutes(reader);
        r := Ok(Routes(routes));
      case 5 =>
        r := Ok(Acknowledged);
      case 255 =>
        var text :- reader.Text(MAX_ERROR_TEXT);
        r := Ok(Error(text));
      case _ =>
        r := Err(UnknownMessage(kind));
    }
  }

  /** Accepts exactly the written forms of valid responses. */
  method DecodeResponse(lib: Library, bytes: seq<Byte>) returns (r: Result<OverlayResponse, ProtocolError>)
    ensures r.Ok? ==> Valid(lib, r.value) && Wire(r.value) == bytes
    ensures forall p | Wire(p) == bytes && Valid(lib, p) :: r == Ok(p)
    ensures r.Ok? ==> WellFormed(lib, r.value)
    ensures forall p | Wire(p) == bytes && Typed(p) && WellFormed(lib, p) :: r == Ok(p)
    ensures |bytes| > MAX_OVERLAY ==> r == Err(MessageTooLarge(MAX_OVERLAY))
    ensures forall v: nat | |bytes| <= MAX_OVERLAY && v <= U16_MAX && v != VERSION && Magic() + Bytes(v, 2) <= bytes ::
              r == Err(UnsupportedVersion(v))
  {
    forall p | Valid(lib, p) ensures |Wire(p)| <= MAX_OVERLAY && Readable(p) {
      ValidFits(lib, p);
    }
    forall p ensures ValidateResponse(lib, p).Ok? <==> WellFormed(lib, p) {
      ValidExactly(lib, p);
    }
    hide Header, Bytes, Magic, Framed, Readable, ValidateResponse, Typed, WellFormed;
    assert forall p :: Framed(p) == Framed(p) + [];
    if |bytes| > MAX_OVERLAY {
      return Err(MessageTooLarge(MAX_OVERLAY));
    }
    var reader := new Reader(bytes);
    var _ :- ReadHeader(reader, OVERLAY_RESPONSE);
    var value :- ReadResponse(reader);
    if reader.offset != |bytes| {
      return Err(Malformed("trailing bytes"));
    }
    var _ :- ValidateResponse(lib, value);
    ReadableIsTyped(value);
    assert reader.Rest() == [];
    r := Ok(value);
  }

  lemma {:induction false} ReadableIsTyped(p: OverlayResponse)
    requires Readable(p)
    ensures Typed(p)
  {
  }

  method WriteResponse(writer: Writer, response: OverlayResponse) returns (r: Result<(), ProtocolError>)
    modifies writer
    ensures r.Ok? ==> writer.bytes == old(writer.bytes) + Framed(response)
    ensures Readable(response) ==> r.Ok?
  {
    hide Bytes, PutOptional, PutAssignments, PutText, Utf8, AssignmentFits, AllFit;
    writer.Raw([Kind(response)]);
    match response {
      case Registered(leaseMs) => writer.Raw(Bytes(leaseMs, 8));
      case Assignment(a) =>
        var _ :- WriteOptional(writer, a);
      case Route(a) =>
        var _ :- WriteOptional(writer, a);
      case Routes(routes) =>
        if |routes| > U16_MAX {
          return Err(InvalidMessage("too many routes"));
        }
        writer.Raw(Bytes(|routes|, 2));
        var _ :- WriteAssignments(writer, routes);
      case Acknowledged =>
      case Error(text) =>
        var _ :- writer.Text(text);
    }
    r := Ok(());
  }

  /** Writes exactly the valid responses; the size limit never refuses one. */
  method EncodeResponse(lib: Library, response: OverlayResponse) returns (r: Result<seq<Byte>, ProtocolError>)
    requires Typed(response)
    ensures r.Ok? <==> ValidateResponse(lib, response).Ok?
    ensures r.Ok? <==> WellFormed(lib, response)
    ensures r.Ok? ==> r.value == Wire(response)
  {
    ValidExactly(lib, response);
    hide Header, Framed, Readable, ValidateResponse, Typed;
    var _ :- ValidateResponse(lib, response);
    var writer := new Writer(Header(OVERLAY_RESPONSE));
    var written := WriteResponse(writer, response);
    if written.Err? {
      r := Err(written.error);
      ValidFits(lib, response);
      return;
    }
    if |writer.bytes| > MAX_OVERLAY {
      r := Err(MessageTooLarge(MAX_OVERLAY));
      ValidFits(lib, response);
      return;
    }
    r := Ok(writer.bytes);
  }

  /** A response that is well formed arrives as it was sent. */
  method Exchange(lib: Library, response: OverlayResponse)
    returns (sent: Result<seq<Byte>, ProtocolError>, received: Result<OverlayResponse, ProtocolError>)
    requires Typed(response)
    ensures sent.Ok? <==> WellFormed(lib, response)
    ensures sent.Ok? ==> received == Ok(response)
  {
    sent := EncodeResponse(lib, response);
    if sent.Err? {
      return sent, Err(sent.error);
    }
    received := DecodeResponse(lib, sent.value);
  }

  // ----- Across the domains -----

  /** The byte after the network name tells the domain. */
  lemma {:induction false} DomainByte(domain: Byte, t: seq<Byte>)
    ensures |Header(domain) + t| >= 29 && (Header(domain) + t)[28] == domain
  {
  }

  /** No byte string is a message of two domains. */
  lemma {:induction false} DomainsApart(m: WireMessages.Message, q: WireRequests.OverlayRequest, p: OverlayResponse)
    ensures WireMessages.Wire(m) != WireRequests.Wire(q)
    ensures WireMessages.Wire(m) != Wire(p)
    ensures WireRequests.Wire(q) != Wire(p)
  {
    hide Header;
    DomainByte(APPLICATION, WireMessages.Framed(m));
    DomainByte(OVERLAY_REQUEST, WireRequests.Framed(q));
    DomainByte(OVERLAY_RESPONSE, Framed(p));
  }
}
