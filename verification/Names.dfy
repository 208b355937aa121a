/** The JSON names of the protocol's fields and enumeration values, each read back uniquely. */
module Names {
  import opened Basics
  import opened Json
  import opened Protocol

  datatype Field =
    | ProtocolVersion | RequestId | InstrumentToken | Interval | FromTimestamp | ToTimestamp
    | Continuous | OpenInterest
    | BrokerRequestId | Transport | ProviderHttpStatus | Session | CapturedAt
    | BodyBase64 | BodyLength | BodySha256 | Truncated | RetryAfterSeconds | ErrorCode | AuditMetadata

  function FieldName(f: Field): string {
    match f
    case ProtocolVersion => "protocol_version"
    case RequestId => "request_id"
    case InstrumentToken => "instrument_token"
    case Interval => "interval"
    case FromTimestamp => "from_timestamp"
    case ToTimestamp => "to_timestamp"
    case Continuous => "continuous"
    case OpenInterest => "oi"
    case BrokerRequestId => "broker_request_id"
    case Transport => "transport_status"
    case ProviderHttpStatus => "provider_http_status"
    case Session => "session_state"
    case CapturedAt => "captured_at"
    case BodyBase64 => "body_base64"
    case BodyLength => "body_length"
    case BodySha256 => "body_sha256"
    case Truncated => "truncated"
    case RetryAfterSeconds => "retry_after_seconds"
    case ErrorCode => "error_code"
    case AuditMetadata => "audit_metadata"
  }

  function ErrorName(c: BrokerErrorCode): string {
    match c
    case ProtocolVersionMismatch => "PROTOCOL_VERSION_MISMATCH"
    case MalformedClientRequest => "MALFORMED_CLIENT_REQUEST"
    case UnauthorizedCaller => "UNAUTHORIZED_CALLER"
    case UnsupportedInterval => "UNSUPPORTED_INTERVAL"
    case InvalidDateWindow => "INVALID_DATE_WINDOW"
    case SessionFileMissing => "SESSION_FILE_MISSING"
    case SessionFileUnreadable => "SESSION_FILE_UNREADABLE"
    case MalformedSessionFile => "MALFORMED_SESSION_FILE"
    case SessionExpiredError => "SESSION_EXPIRED"
    case SessionInvalidated => "SESSION_INVALIDATED"
    case BrokerUnavailable => "BROKER_UNAVAILABLE"
    case BrokerTimeout => "BROKER_TIMEOUT"
    case Provider400 => "PROVIDER_400"
    case Provider403 => "PROVIDER_403"
    case Provider404 => "PROVIDER_404"
    case Provider429 => "PROVIDER_429"
    case Provider5xx => "PROVIDER_5XX"
    case NetworkTimeout => "NETWORK_TIMEOUT"
    case DnsTlsConnectionFailure => "DNS_TLS_CONNECTION_FAILURE"
    case OversizedProviderResponse => "OVERSIZED_PROVIDER_RESPONSE"
    case MalformedProviderResponse => "MALFORMED_PROVIDER_RESPONSE"
    case InternalBrokerFailure => "INTERNAL_BROKER_FAILURE"
  }

  function TransportName(s: TransportStatus): string {
    match s
    case ProviderResponse => "PROVIDER_RESPONSE"
    case BrokerRejected => "BROKER_REJECTED"
    case SessionUnavailable => "SESSION_UNAVAILABLE"
    case SessionExpired => "SESSION_EXPIRED"
    case RateLimited => "RATE_LIMITED"
    case BrokerFailure => "BROKER_FAILURE"
  }

  function SessionName(s: SessionState): string {
    match s
    case Ready => "READY"
    case Missing => "MISSING"
    case Unreadable => "UNREADABLE"
    case Malformed => "MALFORMED"
    case Expired => "EXPIRED"
    case Invalidated => "INVALIDATED"
  }

  // A name's length, first and last character tell all names of one kind apart.
  ghost predicate Tagged(s: string, length: int, first: char, last: char) {
    |s| == length && length > 0 && s[0] == first && s[length - 1] == last
  }

  lemma SameTag(a: string, b: string)
    requires Lit(a) == Lit(b) && a != ""
    ensures |a| == |b| && a[0] == b[0] && a[|a| - 1] == b[|b| - 1]
  {
    assert Lit(a)[0] == a[0] as int && Lit(b)[0] == b[0] as int;
    assert Lit(a)[|a| - 1] == a[|a| - 1] as int && Lit(b)[|b| - 1] == b[|b| - 1] as int;
  }

  ghost function FieldTag(f: Field): (t: (int, char, char))
    ensures Tagged(FieldName(f), t.0, t.1, t.2)
  {
    match f
    case ProtocolVersion => (16, 'p', 'n')
    case RequestId => (10, 'r', 'd')
    case InstrumentToken => (16, 'i', 'n')
    case Interval => (8, 'i', 'l')
    case FromTimestamp => (14, 'f', 'p')
    case ToTimestamp => (12, 't', 'p')
    case Continuous => (10, 'c', 's')
    case OpenInterest => (2, 'o', 'i')
    case BrokerRequestId => (17, 'b', 'd')
    case Transport => (16, 't', 's')
    case ProviderHttpStatus => (20, 'p', 's')
    case Session => (13, 's', 'e')
    case CapturedAt => (11, 'c', 't')
    case BodyBase64 => (11, 'b', '4')
    case BodyLength => (11, 'b', 'h')
    case BodySha256 => (11, 'b', '6')
    case Truncated => (9, 't', 'd')
    case RetryAfterSeconds => (19, 'r', 's')
    case ErrorCode => (10, 'e', 'e')
    case AuditMetadata => (14, 'a', 'a')
  }

  ghost function ErrorTag(c: BrokerErrorCode): (t: (int, char, char))
    ensures Tagged(ErrorName(c), t.0, t.1, t.2)
  {
    match c
    case ProtocolVersionMismatch => (25, 'P', 'H')
    case MalformedClientRequest => (24, 'M', 'T')
    case UnauthorizedCaller => (19, 'U', 'R')
    case UnsupportedInterval => (20, 'U', 'L')
    case InvalidDateWindow => (19, 'I', 'W')
    case SessionFileMissing => (20, 'S', 'G')
    case SessionFileUnreadable => (23, 'S', 'E')
    case MalformedSessionFile => (22, 'M', 'E')
    case SessionExpiredError => (15, 'S', 'D')
    case SessionInvalidated => (19, 'S', 'D')
    case BrokerUnavailable => (18, 'B', 'E')
    case BrokerTimeout => (14, 'B', 'T')
    case Provider400 => (12, 'P', '0')
    case Provider403 => (12, 'P', '3')
    case Provider404 => (12, 'P', '4')
    case Provider429 => (12, 'P', '9')
    case Provider5xx => (12, 'P', 'X')
    case NetworkTimeout => (15, 'N', 'T')
    case DnsTlsConnectionFailure => (26, 'D', 'E')
    case OversizedProviderResponse => (27, 'O', 'E')
    case MalformedProviderResponse => (27, 'M', 'E')
    case InternalBrokerFailure => (23, 'I', 'E')
  }

  function Key(f: Field): Text { Lit(FieldName(f)) }
  function ErrorText(c: BrokerErrorCode): Text { Lit(ErrorName(c)) }
  function TransportText(s: TransportStatus): Text { Lit(TransportName(s)) }
  function SessionText(s: SessionState): Text { Lit(SessionName(s)) }

  lemma KeyInjective(f: Field, g: Field)
    ensures Key(f) == Key(g) <==> f == g
    ensures 0 < |Key(f)| <= 20
  {
    var s, t := FieldTag(f), FieldTag(g);
    hide FieldName, FieldTag;
    if Key(f) == Key(g) {
      SameTag(FieldName(f), FieldName(g));
      FieldTagInjective(f, g);
    }
    FieldTagLength(f);
  }

  lemma FieldTagInjective(f: Field, g: Field)
    requires FieldTag(f) == FieldTag(g)
    ensures f == g
  {
    hide FieldName;
  }

  lemma FieldTagLength(f: Field)
    ensures 0 < FieldTag(f).0 <= 20
  {
    hide FieldName;
  }

  lemma ErrorTextInjective(c: BrokerErrorCode, d: BrokerErrorCode)
    ensures ErrorText(c) == ErrorText(d) <==> c == d
    ensures 0 < |ErrorText(c)| <= 27
  {
    var s, t := ErrorTag(c), ErrorTag(d);
    hide ErrorName, ErrorTag;
    if ErrorText(c) == ErrorText(d) {
      SameTag(ErrorName(c), ErrorName(d));
      ErrorTagInjective(c, d);
    }
    ErrorTagLength(c);
  }

  lemma ErrorTagInjective(c: BrokerErrorCode, d: BrokerErrorCode)
    requires ErrorTag(c) == ErrorTag(d)
    ensures c == d
  {
    hide ErrorName;
  }

  lemma ErrorTagLength(c: BrokerErrorCode)
    ensures 0 < ErrorTag(c).0 <= 27
  {
    hide ErrorName;
  }

  lemma TransportTextInjective(s: TransportStatus, t: TransportStatus)
    ensures TransportText(s) == TransportText(t) <==> s == t
    ensures 0 < |TransportText(s)| <= 19
  {
    if TransportText(s) == TransportText(t) { SameTag(TransportName(s), TransportName(t)); }
  }

  lemma SessionTextInjective(s: SessionState, t: SessionState)
    ensures SessionText(s) == SessionText(t) <==> s == t
    ensures 0 < |SessionText(s)| <= 11
  {
    if SessionText(s) == SessionText(t) { SameTag(SessionName(s), SessionName(t)); }
  }

  // `BrokerErrorCode(value)` and its siblings: the member with that value, if there is one.
  function ErrorOf(t: Text): (r: Option<BrokerErrorCode>)
    ensures forall c :: r == Some(c) <==> ErrorText(c) == t
  {
    if c: BrokerErrorCode :| ErrorText(c) == t then
      assert forall d :: ErrorText(d) == t <==> d == c by {
        forall d ensures ErrorText(d) == t <==> d == c { ErrorTextInjective(c, d); }
      }
      Some(c)
    else None
  }

  function TransportOf(t: Text): (r: Option<TransportStatus>)
    ensures forall s :: r == Some(s) <==> TransportText(s) == t
  {
    if s: TransportStatus :| TransportText(s) == t then
      assert forall d :: TransportText(d) == t <==> d == s by {
        forall d ensures TransportText(d) == t <==> d == s { TransportTextInjective(s, d); }
      }
      Some(s)
    else None
  }

  function SessionOf(t: Text): (r: Option<SessionState>)
    ensures forall s :: r == Some(s) <==> SessionText(s) == t
  {
    if s: SessionState :| SessionText(s) == t then
      assert forall d :: SessionText(d) == t <==> d == s by {
        forall d ensures SessionText(d) == t <==> d == s { SessionTextInjective(s, d); }
      }
      Some(s)
    else None
  }
}
