/** The Unix-socket client and server around a broker, and what a call through them amounts to. */
module Transport {
  import opened Basics
  import opened Calendar
  import opened Protocol
  import opened Frames
  import opened Wire
  import opened WireResponse
  import Json
  import JsonText
  import WireSize

  // The in-process broker on one request.
  type Broker = CandleRequest -> BrokerStep

  // What `_local_failure` draws: a fresh uuid4 and the current UTC time.
  datatype Draw = Draw(uuid: Text, now: Stamp)

  predicate GoodDraw(d: Draw) { CanonicalUuid(d.uuid) && ValidStamp(d.now) && d.now.offset == 0 }

  /* ---------- server ---------- */

  // `_local_failure`; Err is the constructor's own exception.
  function LocalFailure(q: CandleRequest, code: BrokerErrorCode, d: Draw): Result<BrokerResponse, BrokerErrorCode> {
    Construct(BrokerResponse(1, q.requestId, d.uuid, BrokerFailure, None, Ready, d.now, [], 0, Sha256([]),
                             false, None, Some(code), map[]))
  }

  function Answer(q: CandleRequest, step: BrokerStep, d: Draw): Result<BrokerResponse, BrokerErrorCode> {
    match step
    case Respond(r) => if r.requestId == q.requestId then Ok(r) else LocalFailure(q, InternalBrokerFailure, d)
    case Fail(code) => LocalFailure(q, code, d)
    case Crash => LocalFailure(q, InternalBrokerFailure, d)
  }

  // The bytes `_serve_one` sends before it closes; none when the client is malformed or a failure escapes.
  function Reply(inbound: Bytes, broker: Broker, d: Draw): Bytes {
    match ReceiveSpec(inbound, MAX_REQUEST_PAYLOAD)
    case Err(_) => []
    case Ok((frame, _)) =>
      match DecodeRequest(frame)
      case Err(_) => []
      case Ok(q) =>
        match Answer(q, broker(q), d)
        case Err(_) => []
        case Ok(r) => Outbound(r)
  }

  // `connection.sendall(encode_response(response))`, whose own failure is swallowed.
  function Outbound(r: BrokerResponse): Bytes {
    if !ValidStamp(r.capturedAt) then []
    else
      match EncodeResponse(r)
      case Err(_) => []
      case Ok(bytes) => bytes
  }

  // Whether `_serve_one` calls the broker, and with what.
  function BrokerCall(inbound: Bytes): Option<CandleRequest> {
    match ReceiveSpec(inbound, MAX_REQUEST_PAYLOAD)
    case Err(_) => None
    case Ok((frame, _)) =>
      match DecodeRequest(frame)
      case Err(_) => None
      case Ok(q) => Some(q)
  }

  /** `_serve_one` on a connection: the reply depends on the byte stream only, not on its chunks; if the send fails, a first
      part of it has left. */
  method ServeOne(connection: Connection, broker: Broker, d: Draw) returns (called: Option<CandleRequest>)
    requires connection.Valid()
    modifies connection
    ensures connection.Valid()
    ensures called == BrokerCall(old(connection.Stream()))
    ensures var reply := Reply(old(connection.Stream()), broker, d);
            if SendSpec(old(connection.room), |reply|).None? then connection.sent == old(connection.sent) + reply
            else connection.sent == old(connection.sent) + reply[..old(connection.room).value.0]
  {
    hide DecodeRequest, EncodeResponse, ReceiveSpec, Answer, ValidStamp, Flatten;
    called := None;
    var frame := connection.ReceiveFrame(MAX_REQUEST_PAYLOAD);
    if frame.Err? { return; }
    var request := DecodeRequest(frame.value);
    if request.Err? { return; }
    called := Some(request.value);
    var response := Answer(request.value, broker(request.value), d);
    if response.Err? { return; }
    var fault := connection.SendAll(Outbound(response.value));
  }

  /* ---------- client ---------- */

  // What `fetch_candles` makes of the bytes that come back.
  function Accept(q: CandleRequest, inbound: Bytes): BrokerStep {
    match ReceiveSpec(inbound, MAX_RESPONSE_PAYLOAD)
    case Err(_) => Fail(MalformedProviderResponse)
    case Ok((frame, _)) =>
      match DecodeResponse(frame)
      case Err(_) => Fail(MalformedProviderResponse)
      case Ok(r) => if r.requestId != q.requestId then Fail(MalformedProviderResponse) else Respond(r)
  }

  // How `connect` ends.
  datatype Connect = Connected | ConnectTimedOut | Refused

  // A call over any link, from how it connects, sends and receives.
  function Fetched(q: CandleRequest, connect: Connect, room: Option<(nat, SendFault)>, inbound: Bytes, ending: Ending): BrokerStep
    requires ValidRequest(q)
  {
    match EncodeRequest(q)
    case Err(code) => Fail(code)
    case Ok(outbound) =>
      match connect
      case ConnectTimedOut => Fail(BrokerTimeout)
      case Refused => Fail(BrokerUnavailable)
      case Connected =>
        match SendSpec(room, |outbound|)
        case Some(SendTimedOut) => Fail(BrokerTimeout)
        case Some(SendBroken) => Fail(MalformedProviderResponse)
        case None =>
          if ReceiveSpec(inbound, MAX_RESPONSE_PAYLOAD) == Err(EndOfStream) && ending.Silent? then Fail(BrokerTimeout)
          else Accept(q, inbound)
  }

  /** `UnixHistoricalBrokerClient.fetch_candles`: the request goes out whole unless connecting or sending fails, and the
      answer depends on the byte stream and how it ends, not on its chunks. */
  method FetchCandles(connection: Connection, connect: Connect, q: CandleRequest) returns (step: BrokerStep)
    requires connection.Valid() && ValidRequest(q)
    modifies connection
    ensures step == Fetched(q, connect, old(connection.room), old(connection.Stream()), connection.ending)
    ensures EncodeRequest(q).Err? || !connect.Connected? ==> connection.sent == old(connection.sent)
    ensures EncodeRequest(q).Ok? && connect.Connected? ==>
              var outbound := EncodeRequest(q).value;
              connection.sent == old(connection.sent) +
                (if SendSpec(old(connection.room), |outbound|).None? then outbound else outbound[..old(connection.room).value.0])
  {
    hide EncodeRequest, DecodeResponse, ReceiveSpec, Flatten;
    var outbound := EncodeRequest(q);
    if outbound.Err? { return Fail(outbound.error); }
    match connect {
      case ConnectTimedOut => return Fail(BrokerTimeout);
      case Refused => return Fail(BrokerUnavailable);
      case Connected =>
    }
    var fault := connection.SendAll(outbound.value);
    if fault.Some? { return Fail(if fault.value.SendTimedOut? then BrokerTimeout else MalformedProviderResponse); }
    var frame := connection.ReceiveFrame(MAX_RESPONSE_PAYLOAD);
    if frame.Err? { return Fail(if frame.error.TimedOut? then BrokerTimeout else MalformedProviderResponse); }
    var response := DecodeResponse(frame.value);
    if response.Err? { return Fail(MalformedProviderResponse); }
    if response.value.requestId != q.requestId { return Fail(MalformedProviderResponse); }
    return Respond(response.value);
  }

  /** A reply that breaks off anywhere is never taken for an answer: the call fails as a timeout if the link falls silent, and
      as a malformed response if it closes or resets. */
  lemma BrokenOffReply(q: CandleRequest, room: Option<(nat, SendFault)>, r: BrokerResponse, k: nat, ending: Ending)
    requires ValidRequest(q) && EncodeRequest(q).Ok? && SendSpec(room, |EncodeRequest(q).value|).None?
    requires ValidStamp(r.capturedAt) && EncodeResponse(r).Ok? && k < |EncodeResponse(r).value|
    ensures Fetched(q, Connected, room, EncodeResponse(r).value[..k], ending) ==
            Fail(if ending.Silent? then BrokerTimeout else MalformedProviderResponse)
  {
    hide ValidStamp, ResponseMembers, ReceiveSpec, EncodeRequest, ValidRequest;
    EncodedTruncated(EncodeResponse(r).value, MAX_RESPONSE_PAYLOAD, Json.JObj(ResponseMembers(r)), k);
    hide EncodeResponse;
  }

  lemma EncodedTruncated(frame: Bytes, maximum: int, j: Json.Json, k: nat)
    requires 0 < maximum < LIMIT && EncodeFrame(j, maximum) == Ok(frame) && k < |frame|
    ensures ReceiveSpec(frame[..k], maximum) == Err(EndOfStream)
  {
    hide ReceiveSpec, Header, Unheader, Payload;
    var n := |Payload(j)|;
    UnheaderHeader(n);
    TakeDrop(Header(n), Payload(j));
    TruncatedFrame(frame, k, maximum);
  }

  /** How a call can end, over any link: unavailable exactly when the socket refuses; a timeout exactly when connecting or
      sending times out, or a whole request is met with silence before a whole frame; a response exactly when the stream starts
      with a frame that decodes to one for this request; a malformed response otherwise. */
  lemma CallOutcomes(q: CandleRequest, connect: Connect, room: Option<(nat, SendFault)>, inbound: Bytes, ending: Ending)
    requires ValidRequest(q)
    ensures var outbound := EncodeRequest(q); var step := Fetched(q, connect, room, inbound, ending);
            outbound.Ok? &&
            var sent := connect.Connected? && SendSpec(room, |outbound.value|).None?; var frame := ReceiveSpec(inbound, MAX_RESPONSE_PAYLOAD);
            (step == Fail(BrokerUnavailable) <==> connect.Refused?) &&
            (step == Fail(BrokerTimeout) <==>
              connect.ConnectTimedOut? || (connect.Connected? && SendSpec(room, |outbound.value|) == Some(SendTimedOut)) ||
              (sent && frame == Err(EndOfStream) && ending.Silent?)) &&
            (forall r :: step == Respond(r) <==> sent && frame.Ok? && DecodeResponse(frame.value.0) == Ok(r) && r.requestId == q.requestId) &&
            (step.Fail? ==> step.code in {BrokerUnavailable, BrokerTimeout, MalformedProviderResponse}) && !step.Crash?
  {
    WireSize.RequestFits(q);
    hide EncodeRequest, DecodeResponse, ReceiveSpec, ValidRequest, SendSpec;
  }

  /* ---------- client and server together ---------- */

  /** One call through a connection that neither times out nor drops. */
  function Remote(q: CandleRequest, broker: Broker, d: Draw): BrokerStep
    requires ValidRequest(q)
  {
    match EncodeRequest(q)
    case Err(code) => Fail(code)
    case Ok(outbound) => Accept(q, Reply(outbound, broker, d))
  }

  /** The server's failure response can be built for exactly the codes that are not the provider's own; it answers the request
      with that code, as a broker failure with a ready session and an empty body. */
  lemma LocalFailureIff(q: CandleRequest, code: BrokerErrorCode, d: Draw)
    requires ValidRequest(q) && GoodDraw(d)
    ensures LocalFailure(q, code, d).Ok? <==> !ProviderErrorCode(code)
    ensures LocalFailure(q, code, d).Ok? ==>
              var r := LocalFailure(q, code, d).value;
              ValidResponse(r) && r.requestId == q.requestId && r.errorCode == Some(code) &&
              r.transportStatus.BrokerFailure? && r.sessionState.Ready? && r.body == [] && r.capturedAt == d.now && r.brokerRequestId == d.uuid &&
              r.providerHttpStatus.None? && r.retryAfterSeconds.None? && r.auditMetadata == map[]
  {
    hide MakeRequest, PositiveDigits, SafeAuditKeys;
  }

  lemma FrameShape(q: CandleRequest)
    requires ValidRequest(q) && EncodeRequest(q).Ok?
    ensures ReceiveSpec(EncodeRequest(q).value, MAX_REQUEST_PAYLOAD) == Ok((EncodeRequest(q).value, []))
  {
    hide ValidRequest, RequestMembers, ReceiveSpec;
    EncodedFrame(EncodeRequest(q).value, MAX_REQUEST_PAYLOAD, Json.JObj(RequestMembers(q)));
  }

  lemma EncodedFrame(frame: Bytes, maximum: int, j: Json.Json)
    requires 0 < maximum < LIMIT && EncodeFrame(j, maximum) == Ok(frame)
    ensures ReceiveSpec(frame, maximum) == Ok((frame, []))
  {
    hide ReceiveSpec, Header, Unheader, Payload;
    var n := |Payload(j)|;
    UnheaderHeader(n);
    TakeDrop(Header(n), Payload(j));
    ReceiveFrame(frame, [], maximum);
    assert frame + [] == frame;
  }

  lemma ReplyShape(r: BrokerResponse)
    requires ValidStamp(r.capturedAt) && EncodeResponse(r).Ok?
    ensures ReceiveSpec(EncodeResponse(r).value, MAX_RESPONSE_PAYLOAD) == Ok((EncodeResponse(r).value, []))
  {
    hide ValidStamp, ResponseMembers, ReceiveSpec;
    EncodedFrame(EncodeResponse(r).value, MAX_RESPONSE_PAYLOAD, Json.JObj(ResponseMembers(r)));
  }

  // What the client sees of an answer the server could build.
  lemma AcceptOutbound(q: CandleRequest, r: BrokerResponse)
    requires ValidResponse(r) && r.requestId == q.requestId
    ensures Accept(q, Outbound(r)) == if EncodeResponse(r).Ok? then Respond(Delivered(r)) else Fail(MalformedProviderResponse)
  {
    hide EncodeResponse, DecodeResponse, ReceiveSpec, ResponseFault, JoinAudit;
    if EncodeResponse(r).Ok? {
      ReplyShape(r);
      DecodeEncodeResponse(r);
    } else {
      EmptyReply();
    }
  }

  lemma EmptyReply()
    ensures ReceiveSpec([], MAX_RESPONSE_PAYLOAD) == Err(EndOfStream)
  {
  }

  lemma LocalFailureFits(q: CandleRequest, code: BrokerErrorCode, d: Draw)
    requires ValidRequest(q) && GoodDraw(d) && !ProviderErrorCode(code)
    ensures LocalFailure(q, code, d).Ok? && EncodeResponse(LocalFailure(q, code, d).value).Ok?
    ensures Delivered(LocalFailure(q, code, d).value) == LocalFailure(q, code, d).value
  {
    hide LocalFailure, ResponseFault, EncodeResponse, ValidRequest;
    LocalFailureIff(q, code, d);
    var r := LocalFailure(q, code, d).value;
    assert JoinAudit(map[]) == map[];
    SmallAudit();
    WireSize.ResponseFits(r);
  }

  lemma SmallAudit()
    ensures |JsonText.Print(Json.JObj(AuditMembers(map[])))| <= WireSize.AUDIT_LIMIT
  {
    assert AuditMembers(map[]) == [];
    assert JsonText.PrintMembers([]) == [];
  }

  // Everything that can come out of a call through client and server.
  function RemoteResult(q: CandleRequest, step: BrokerStep, d: Draw): BrokerStep
    requires ValidRequest(q)
  {
    match step
    case Respond(r) =>
      if r.requestId != q.requestId then LocalStep(q, InternalBrokerFailure, d)
      else if ValidStamp(r.capturedAt) && EncodeResponse(r).Ok? then Respond(Delivered(r))
      else Fail(MalformedProviderResponse)
    case Fail(code) => if ProviderErrorCode(code) then Fail(MalformedProviderResponse) else LocalStep(q, code, d)
    case Crash => LocalStep(q, InternalBrokerFailure, d)
  }

  function LocalStep(q: CandleRequest, code: BrokerErrorCode, d: Draw): BrokerStep {
    match LocalFailure(q, code, d)
    case Ok(r) => Respond(r)
    case Err(_) => Fail(MalformedProviderResponse)
  }

  lemma RemoteAnswer(q: CandleRequest, step: BrokerStep, d: Draw)
    requires ValidRequest(q) && GoodDraw(d) && WellTyped(step)
    ensures (match Answer(q, step, d)
             case Err(_) => Accept(q, [])
             case Ok(r) => Accept(q, Outbound(r))) == RemoteResult(q, step, d)
  {
    hide ValidRequest, GoodDraw, ResponseFault, EncodeResponse, Outbound, Accept, LocalFailure, Delivered;
    EmptyReplyRefused(q);
    match step
    case Respond(r) =>
      if r.requestId == q.requestId { AcceptOutbound(q, r); } else { LocalAnswer(q, InternalBrokerFailure, d); }
    case Fail(code) =>
      LocalFailureIff(q, code, d);
      if !ProviderErrorCode(code) { LocalAnswer(q, code, d); }
    case Crash => LocalAnswer(q, InternalBrokerFailure, d);
  }

  lemma EmptyReplyRefused(q: CandleRequest)
    ensures Accept(q, []) == Fail(MalformedProviderResponse)
  {
    EmptyReply();
  }

  lemma LocalAnswer(q: CandleRequest, code: BrokerErrorCode, d: Draw)
    requires ValidRequest(q) && GoodDraw(d) && !ProviderErrorCode(code)
    ensures LocalFailure(q, code, d).Ok?
    ensures Accept(q, Outbound(LocalFailure(q, code, d).value)) == LocalStep(q, code, d)
  {
    hide ValidRequest, GoodDraw, ResponseFault, EncodeResponse, Outbound, Accept, LocalFailure, Delivered, ValidStamp;
    LocalFailureIff(q, code, d);
    LocalFailureFits(q, code, d);
    AcceptOutbound(q, LocalFailure(q, code, d).value);
  }

  /** A call through the sockets, exactly: the broker sees the same request, and the caller sees `RemoteResult`. */
  lemma RemoteExact(q: CandleRequest, broker: Broker, d: Draw)
    requires ValidRequest(q) && GoodDraw(d) && EncodeRequest(q).Ok? && WellTyped(broker(q))
    ensures BrokerCall(EncodeRequest(q).value) == Some(q)
    ensures Remote(q, broker, d) == RemoteResult(q, broker(q), d)
  {
    hide ValidRequest, GoodDraw, EncodeRequest, DecodeRequest, ReceiveSpec, Accept, Outbound, Answer, RemoteResult, ResponseFault;
    FrameShape(q);
    DecodeEncodeRequest(q);
    RemoteAnswer(q, broker(q), d);
  }
}
