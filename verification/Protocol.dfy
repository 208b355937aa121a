/** The broker contract: enumerations, error policy, and what a valid request or response is. */
module Protocol {
  import opened Basics
  import opened Calendar

  const MAX_REQUEST_PAYLOAD := 16 * 1024
  const MAX_RESPONSE_BODY := 16 * 1024 * 1024
  const MAX_RESPONSE_PAYLOAD := 24 * 1024 * 1024

  /* ---------- SHA-256 as an arbitrary function to 64 hexadecimal digits ---------- */

  predicate LowerHex(c: int) { 48 <= c <= 57 || 97 <= c <= 102 }

  predicate HexDigest(t: Text) { |t| == 64 && forall i :: 0 <= i < 64 ==> LowerHex(t[i]) }

  type Digest = f: Bytes -> Text | forall b :: HexDigest(f(b)) witness (b => seq(64, i => 48))

  // Left open: every result holds for whichever digest this is.
  const Sha256: Digest

  /* ---------- enumerations ---------- */

  datatype TransportStatus =
    ProviderResponse | BrokerRejected | SessionUnavailable | SessionExpired | RateLimited | BrokerFailure

  datatype SessionState = Ready | Missing | Unreadable | Malformed | Expired | Invalidated

  datatype BrokerErrorCode =
    | ProtocolVersionMismatch | MalformedClientRequest | UnauthorizedCaller | UnsupportedInterval
    | InvalidDateWindow | SessionFileMissing | SessionFileUnreadable | MalformedSessionFile
    | SessionExpiredError | SessionInvalidated | BrokerUnavailable | BrokerTimeout
    | Provider400 | Provider403 | Provider404 | Provider429 | Provider5xx
    | NetworkTimeout | DnsTlsConnectionFailure | OversizedProviderResponse
    | MalformedProviderResponse | InternalBrokerFailure

  predicate ProviderErrorCode(c: BrokerErrorCode) {
    c.Provider400? || c.Provider403? || c.Provider404? || c.Provider429? || c.Provider5xx?
  }

  datatype ErrorPolicy = ErrorPolicy(
    mayHaveProviderRequest: bool, retryable: bool, reauthenticationRequired: bool, rawResponseMayExist: bool)

  function Policy(c: BrokerErrorCode): ErrorPolicy {
    match c
    case ProtocolVersionMismatch => ErrorPolicy(false, false, false, false)
    case MalformedClientRequest => ErrorPolicy(false, false, false, false)
    case UnauthorizedCaller => ErrorPolicy(false, false, false, false)
    case UnsupportedInterval => ErrorPolicy(false, false, false, false)
    case InvalidDateWindow => ErrorPolicy(false, false, false, false)
    case SessionFileMissing => ErrorPolicy(false, false, true, false)
    case SessionFileUnreadable => ErrorPolicy(false, false, true, false)
    case MalformedSessionFile => ErrorPolicy(false, false, true, false)
    case SessionExpiredError => ErrorPolicy(false, false, true, false)
    case SessionInvalidated => ErrorPolicy(true, false, true, true)
    case BrokerUnavailable => ErrorPolicy(true, true, false, false)
    case BrokerTimeout => ErrorPolicy(true, true, false, false)
    case Provider400 => ErrorPolicy(true, false, false, true)
    case Provider403 => ErrorPolicy(true, false, true, true)
    case Provider404 => ErrorPolicy(true, false, false, true)
    case Provider429 => ErrorPolicy(true, true, false, true)
    case Provider5xx => ErrorPolicy(true, true, false, true)
    case NetworkTimeout => ErrorPolicy(true, true, false, false)
    case DnsTlsConnectionFailure => ErrorPolicy(true, true, false, false)
    case OversizedProviderResponse => ErrorPolicy(true, false, false, false)
    case MalformedProviderResponse => ErrorPolicy(true, false, false, true)
    case InternalBrokerFailure => ErrorPolicy(true, false, false, false)
  }

  /* ---------- requests ---------- */

  predicate CanonicalUuid(t: Text) {
    |t| == 36 && forall i :: 0 <= i < 36 ==>
      if i == 8 || i == 13 || i == 18 || i == 23 then t[i] == 45 else LowerHex(t[i])
  }

  predicate AllDigits(t: Text) { t != [] && forall i :: 0 <= i < |t| ==> 48 <= t[i] <= 57 }

  // An instrument token: a decimal number above zero.
  predicate PositiveDigits(t: Text) { AllDigits(t) && exists i :: 0 <= i < |t| && t[i] != 48 }

  datatype CandleRequest = CandleRequest(
    protocolVersion: int, requestId: Text, instrumentToken: Text, interval: Text,
    fromTimestamp: Stamp, toTimestamp: Stamp, continuous: bool, oi: bool)

  // The interpreter's default limit on the digits `int` converts.
  const DIGIT_LIMIT := 4300

  // What the constructor raises: a typed error, `astimezone` leaving the calendar, or `int` refusing too many digits.
  datatype RequestFault = Typed(code: BrokerErrorCode) | DateOverflow | TooManyDigits

  /** `CandleRequest(...)`: the checks in their order, and the timestamps moved to IST. */
  function MakeRequest(q: CandleRequest): Result<CandleRequest, RequestFault> {
    if q.protocolVersion != 1 then Err(Typed(ProtocolVersionMismatch))
    else if !CanonicalUuid(q.requestId) then Err(Typed(MalformedClientRequest))
    else if !AllDigits(q.instrumentToken) then Err(Typed(MalformedClientRequest))
    else if |q.instrumentToken| > DIGIT_LIMIT then Err(TooManyDigits)
    else if !PositiveDigits(q.instrumentToken) then Err(Typed(MalformedClientRequest))
    else if q.interval != Lit("minute") then Err(Typed(UnsupportedInterval))
    else if q.continuous then Err(Typed(MalformedClientRequest))
    else MakeWindow(q)
  }

  function MakeWindow(q: CandleRequest): Result<CandleRequest, RequestFault> {
    if q.fromTimestamp.local % MICROS != 0 then Err(Typed(InvalidDateWindow)) else
      match ToZone(q.fromTimestamp, IST)
      case None => Err(DateOverflow)
      case Some(start) =>
        if q.toTimestamp.local % MICROS != 0 then Err(Typed(InvalidDateWindow)) else
          match ToZone(q.toTimestamp, IST)
          case None => Err(DateOverflow)
          case Some(end) =>
            if start.local >= end.local || end.local - start.local > DAY || DayIndex(start) != DayIndex(end)
            then Err(Typed(InvalidDateWindow))
            else Ok(q.(fromTimestamp := start, toTimestamp := end))
  }

  // A request object that exists: constructing it again changes nothing.
  predicate ValidRequest(q: CandleRequest) {
    q.protocolVersion == 1 && CanonicalUuid(q.requestId) &&
    PositiveDigits(q.instrumentToken) && |q.instrumentToken| <= DIGIT_LIMIT &&
    q.interval == Lit("minute") && !q.continuous &&
    ValidStamp(q.fromTimestamp) && ValidStamp(q.toTimestamp) &&
    q.fromTimestamp.offset == IST && q.toTimestamp.offset == IST &&
    q.fromTimestamp.local % MICROS == 0 && q.toTimestamp.local % MICROS == 0 &&
    q.fromTimestamp.local < q.toTimestamp.local && DayIndex(q.fromTimestamp) == DayIndex(q.toTimestamp)
  }

  lemma WindowMade(q: CandleRequest)
    requires MakeWindow(q).Ok?
    ensures var r := MakeWindow(q).value;
            r == q.(fromTimestamp := r.fromTimestamp, toTimestamp := r.toTimestamp) &&
            ValidStamp(r.fromTimestamp) && ValidStamp(r.toTimestamp) && r.fromTimestamp.offset == IST == r.toTimestamp.offset &&
            r.fromTimestamp.local % MICROS == 0 && r.toTimestamp.local % MICROS == 0 &&
            r.fromTimestamp.local < r.toTimestamp.local && DayIndex(r.fromTimestamp) == DayIndex(r.toTimestamp) &&
            Instant(r.fromTimestamp) == Instant(q.fromTimestamp) && Instant(r.toTimestamp) == Instant(q.toTimestamp)
  {
    var r := MakeWindow(q).value;
    assert Instant(q.fromTimestamp) % MICROS == 0 && Instant(q.toTimestamp) % MICROS == 0;
    assert r.fromTimestamp.local == Instant(r.fromTimestamp) + IST * MICROS;
    assert r.toTimestamp.local == Instant(r.toTimestamp) + IST * MICROS;
  }

  lemma WindowKept(q: CandleRequest)
    requires ValidRequest(q)
    ensures MakeWindow(q) == Ok(q)
  {
    hide CanonicalUuid, PositiveDigits, ToZone;
    assert ToZone(q.fromTimestamp, IST) == Some(q.fromTimestamp) && ToZone(q.toTimestamp, IST) == Some(q.toTimestamp);
    assert q.toTimestamp.local - q.fromTimestamp.local <= DAY;
  }

  /** The constructor yields exactly the valid requests, and is idempotent on them. */
  lemma MakeRequestValid(q: CandleRequest)
    ensures MakeRequest(q).Ok? ==> ValidRequest(MakeRequest(q).value)
    ensures MakeRequest(q).Ok? ==>
              Instant(MakeRequest(q).value.fromTimestamp) == Instant(q.fromTimestamp) &&
              Instant(MakeRequest(q).value.toTimestamp) == Instant(q.toTimestamp)
    ensures ValidRequest(q) <==> ValidStamp(q.fromTimestamp) && ValidStamp(q.toTimestamp) && MakeRequest(q) == Ok(q)
  {
    if MakeWindow(q).Ok? { WindowMade(q); }
    if ValidRequest(q) { WindowKept(q); }
    hide MakeWindow, CanonicalUuid, ValidStamp, DayIndex, Instant;
  }

  /* ---------- responses ---------- */

  datatype BrokerResponse = BrokerResponse(
    protocolVersion: int, requestId: Text, brokerRequestId: Text, transportStatus: TransportStatus,
    providerHttpStatus: Option<int>, sessionState: SessionState, capturedAt: Stamp,
    body: Bytes, bodyLength: int, bodySha256: Text, truncated: bool,
    retryAfterSeconds: Option<int>, errorCode: Option<BrokerErrorCode>, auditMetadata: map<Text, Text>)

  function ExpectedCode(status: int): Option<BrokerErrorCode> {
    if status >= 500 then Some(Provider5xx)
    else if status == 400 then Some(Provider400)
    else if status == 403 then Some(Provider403)
    else if status == 404 then Some(Provider404)
    else if status == 429 then Some(Provider429)
    else None
  }

  function SafeAuditKeys(): set<Text> {
    {Lit("request_fingerprint"), Lit("attempt_number"), Lit("session_fingerprint")}
  }

  predicate Success2xx(status: Option<int>) { status.Some? && 200 <= status.value < 300 }

  // Lines 284-292: status, body and Retry-After agree with the transport.
  predicate TransportAgrees(r: BrokerResponse) {
    (if r.providerHttpStatus.Some?
     then 100 <= r.providerHttpStatus.value <= 599 && r.transportStatus.ProviderResponse?
     else !r.transportStatus.ProviderResponse? && r.body == []) &&
    (r.retryAfterSeconds.Some? ==> 0 <= r.retryAfterSeconds.value <= 3600)
  }

  // Lines 293-317: the error code agrees with session, transport, Retry-After and status.
  predicate CodeAgrees(r: BrokerResponse) {
    (r.errorCode == Some(Provider403) ==> r.sessionState.Invalidated?) &&
    (r.errorCode.Some? && ProviderErrorCode(r.errorCode.value) ==> r.transportStatus.ProviderResponse?) &&
    (r.retryAfterSeconds.Some? ==> r.errorCode == Some(Provider429) || r.errorCode == Some(Provider5xx)) &&
    (r.providerHttpStatus.Some? ==>
      (ExpectedCode(r.providerHttpStatus.value).Some? ==> r.errorCode == ExpectedCode(r.providerHttpStatus.value)) &&
      (Success2xx(r.providerHttpStatus) ==> r.errorCode.None?))
  }

  // Lines 318-324: the session agrees with the transport, and audit keys are the safe ones.
  predicate SessionAgrees(r: BrokerResponse) {
    (r.transportStatus.SessionExpired? ==> r.sessionState.Expired?) &&
    (r.transportStatus.SessionUnavailable? ==>
      r.sessionState.Missing? || r.sessionState.Unreadable? || r.sessionState.Malformed?) &&
    r.auditMetadata.Keys <= SafeAuditKeys()
  }

  /** `BrokerResponse.__post_init__`: the first check that fails, None when the object exists. */
  function ResponseFault(r: BrokerResponse): Option<BrokerErrorCode> {
    if r.protocolVersion != 1 then Some(ProtocolVersionMismatch)
    else if !CanonicalUuid(r.requestId) || !CanonicalUuid(r.brokerRequestId) then Some(MalformedProviderResponse)
    else if |r.body| > MAX_RESPONSE_BODY || r.truncated then Some(OversizedProviderResponse)
    else if r.bodyLength != |r.body| || r.bodySha256 != Sha256(r.body) then Some(MalformedProviderResponse)
    else if r.capturedAt.offset != 0 then Some(MalformedProviderResponse)
    else if TransportAgrees(r) && CodeAgrees(r) && SessionAgrees(r) then None
    else Some(MalformedProviderResponse)
  }

  predicate ValidResponse(r: BrokerResponse) { ResponseFault(r).None? && ValidStamp(r.capturedAt) }

  /** A valid 2xx response carries no error code, so the retry loop takes it as success. */
  lemma Success2xxHasNoCode(r: BrokerResponse)
    requires ValidResponse(r) && Success2xx(r.providerHttpStatus)
    ensures r.errorCode.None? && r.transportStatus.ProviderResponse?
  {
  }

  /* ---------- one broker call ---------- */

  // What `fetch_candles` does: return a response, raise a typed error, or raise anything else.
  datatype BrokerStep = Respond(response: BrokerResponse) | Fail(code: BrokerErrorCode) | Crash

  // A response object that exists passed its constructor.
  ghost predicate WellTyped(s: BrokerStep) { s.Respond? ==> ValidResponse(s.response) }
}
