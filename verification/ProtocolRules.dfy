/** What the request and response constructors accept, field by field, and what each refusal means. */
module ProtocolRules {
  import opened Basics
  import opened Calendar
  import opened Protocol

  // The wall clock in IST.
  function InIst(s: Stamp): int { Instant(s) + 19_800 * MICROS }

  // Whole seconds, in order, on one IST date of the calendar.
  predicate OneIstDay(start: Stamp, end: Stamp) {
    start.local % MICROS == 0 && end.local % MICROS == 0 && 0 <= InIst(start) < InIst(end) < MAX_LOCAL && InIst(start) / DAY == InIst(end) / DAY
  }

  lemma WithinDay(a: int, b: int)
    requires a < b && a / DAY == b / DAY
    ensures b - a <= DAY
  {
  }

  lemma WindowIff(q: CandleRequest)
    ensures MakeWindow(q).Ok? <==> OneIstDay(q.fromTimestamp, q.toTimestamp)
    ensures MakeWindow(q) == Err(DateOverflow) ==>
              !(0 <= InIst(q.fromTimestamp) < MAX_LOCAL) || !(0 <= InIst(q.toTimestamp) < MAX_LOCAL)
    ensures MakeWindow(q).Err? ==> MakeWindow(q).error == DateOverflow || MakeWindow(q).error == Typed(InvalidDateWindow)
  {
    if InIst(q.fromTimestamp) < InIst(q.toTimestamp) && InIst(q.fromTimestamp) / DAY == InIst(q.toTimestamp) / DAY {
      WithinDay(InIst(q.fromTimestamp), InIst(q.toTimestamp));
    }
  }

  /** A request can be made exactly for protocol version 1, a canonical id, a positive token of at most 4300 digits, one-minute
      candles that are not continuous, and whole seconds of one IST date in order. */
  lemma RequestAcceptedIff(q: CandleRequest)
    ensures MakeRequest(q).Ok? <==>
            q.protocolVersion == 1 && CanonicalUuid(q.requestId) && PositiveDigits(q.instrumentToken) && |q.instrumentToken| <= 4300 &&
            q.interval == Lit("minute") && !q.continuous && OneIstDay(q.fromTimestamp, q.toTimestamp)
  {
    WindowIff(q);
    hide MakeWindow, CanonicalUuid, OneIstDay;
  }

  /** Each refusal of a request names what is wrong with it. */
  lemma RequestRefusedFor(q: CandleRequest)
    requires MakeRequest(q).Err?
    ensures match MakeRequest(q).error
            case Typed(ProtocolVersionMismatch) => q.protocolVersion != 1
            case Typed(MalformedClientRequest) =>
              q.protocolVersion == 1 && (!CanonicalUuid(q.requestId) || !PositiveDigits(q.instrumentToken) || q.continuous)
            case Typed(UnsupportedInterval) => q.protocolVersion == 1 && q.interval != Lit("minute")
            case Typed(InvalidDateWindow) => q.protocolVersion == 1 && !OneIstDay(q.fromTimestamp, q.toTimestamp)
            case DateOverflow => !(0 <= InIst(q.fromTimestamp) < MAX_LOCAL) || !(0 <= InIst(q.toTimestamp) < MAX_LOCAL)
            case TooManyDigits => AllDigits(q.instrumentToken) && |q.instrumentToken| > 4300
            case _ => false
  {
    WindowIff(q);
    hide MakeWindow, CanonicalUuid, OneIstDay;
  }

  /* ---------- responses ---------- */

  // The codes that can come with an HTTP status, or with none.
  predicate CodeFits(status: Option<int>, code: Option<BrokerErrorCode>) {
    match status
    case None => code.None? || code.value !in {Provider400, Provider403, Provider404, Provider429, Provider5xx}
    case Some(s) =>
      100 <= s <= 599 && (200 <= s <= 299 ==> code.None?) && (s == 400 ==> code == Some(Provider400)) &&
      (s == 403 ==> code == Some(Provider403)) && (s == 404 ==> code == Some(Provider404)) &&
      (s == 429 ==> code == Some(Provider429)) && (s >= 500 ==> code == Some(Provider5xx))
  }

  // The session states that can come with a transport status or a code.
  predicate SessionFits(r: BrokerResponse) {
    (r.transportStatus.SessionExpired? ==> r.sessionState.Expired?) &&
    (r.transportStatus.SessionUnavailable? ==> r.sessionState in {Missing, Unreadable, Malformed}) &&
    (r.errorCode == Some(Provider403) ==> r.sessionState.Invalidated?)
  }

  // A body of at most 16 MiB, whole, with its own length and hash.
  predicate BodyFits(r: BrokerResponse) {
    |r.body| <= 16_777_216 && !r.truncated && r.bodyLength == |r.body| && r.bodySha256 == Sha256(r.body)
  }

  predicate AuditFits(r: BrokerResponse) {
    forall k :: k in r.auditMetadata ==> k == Lit("request_fingerprint") || k == Lit("attempt_number") || k == Lit("session_fingerprint")
  }

  lemma AuditIs(r: BrokerResponse)
    ensures r.auditMetadata.Keys <= SafeAuditKeys() <==> AuditFits(r)
  {
    hide Lit;
  }

  lemma AgreesIff(r: BrokerResponse)
    ensures TransportAgrees(r) && CodeAgrees(r) && SessionAgrees(r) <==>
            (r.transportStatus.ProviderResponse? <==> r.providerHttpStatus.Some?) && (r.providerHttpStatus.None? ==> r.body == []) &&
            CodeFits(r.providerHttpStatus, r.errorCode) && SessionFits(r) && AuditFits(r) &&
            (r.retryAfterSeconds.Some? ==>
              0 <= r.retryAfterSeconds.value <= 3600 && (r.errorCode == Some(Provider429) || r.errorCode == Some(Provider5xx)))
  {
    AuditIs(r);
    hide SafeAuditKeys, AuditFits;
  }

  /** A response can be made exactly with version 1, canonical ids, its own body, a UTC capture time, a status if and only if the
      provider answered, the code of that status, a Retry-After of up to an hour with 429 or 5xx only, a session state that
      fits, and the three safe audit keys. */
  lemma ResponseAcceptedIff(r: BrokerResponse)
    ensures ResponseFault(r).None? <==>
            r.protocolVersion == 1 && CanonicalUuid(r.requestId) && CanonicalUuid(r.brokerRequestId) && BodyFits(r) &&
            r.capturedAt.offset == 0 && (r.transportStatus.ProviderResponse? <==> r.providerHttpStatus.Some?) &&
            (r.providerHttpStatus.None? ==> r.body == []) &&
            CodeFits(r.providerHttpStatus, r.errorCode) && SessionFits(r) && AuditFits(r) &&
            (r.retryAfterSeconds.Some? ==>
              0 <= r.retryAfterSeconds.value <= 3600 && (r.errorCode == Some(Provider429) || r.errorCode == Some(Provider5xx)))
  {
    AgreesIff(r);
    hide CanonicalUuid, TransportAgrees, CodeAgrees, SessionAgrees, CodeFits, SessionFits, AuditFits;
  }

  /** A response is refused for its version exactly when it is not 1, then as oversized exactly when its ids are canonical and
      its body too long or truncated, and as malformed otherwise. */
  lemma ResponseRefusedFor(r: BrokerResponse)
    ensures ResponseFault(r) == Some(ProtocolVersionMismatch) <==> r.protocolVersion != 1
    ensures ResponseFault(r) == Some(OversizedProviderResponse) <==>
            r.protocolVersion == 1 && CanonicalUuid(r.requestId) && CanonicalUuid(r.brokerRequestId) && (|r.body| > 16_777_216 || r.truncated)
    ensures ResponseFault(r).Some? ==> ResponseFault(r).value in {ProtocolVersionMismatch, OversizedProviderResponse, MalformedProviderResponse}
  {
    hide CanonicalUuid, TransportAgrees, CodeAgrees, SessionAgrees;
  }
}
