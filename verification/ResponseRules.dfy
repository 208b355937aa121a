/** What the strict response decoder accepts: exactly the objects with the fourteen names, each with a value of its type, that
    make a valid response. */
module ResponseRules {
  import opened Basics
  import opened Calendar
  import opened Json
  import opened JsonText
  import opened Protocol
  import opened Names
  import opened Frames
  import opened Wire
  import opened WireResponse
  import opened WireRules
  import Base64

  predicate ResponseKeys(ms: seq<Member>) {
    Keys(ms) == {Lit("protocol_version"), Lit("request_id"), Lit("broker_request_id"), Lit("transport_status"),
                 Lit("provider_http_status"), Lit("session_state"), Lit("captured_at"), Lit("body_base64"), Lit("body_length"),
                 Lit("body_sha256"), Lit("truncated"), Lit("retry_after_seconds"), Lit("error_code"), Lit("audit_metadata")}
  }

  // A number, or null for none.
  predicate HasNumber(ms: seq<Member>, key: string, n: Option<int>) { Has(ms, key, if n.Some? then JInt(n.value) else JNull) }

  ghost predicate HasBody(ms: seq<Member>, body: Bytes) {
    exists t: Text :: Has(ms, "body_base64", JStr(t)) && Base64.Decode(t) == Some(body)
  }

  // `Z` stands for `+00:00`.
  ghost predicate HasCapture(ms: seq<Member>, s: Stamp) {
    exists t: Text :: Has(ms, "captured_at", JStr(t)) && ParseIso(ReplaceZ(t)) == Some(s)
  }

  // Something Python takes for false.
  predicate HasFalse(ms: seq<Member>) {
    var j := Find(ms, Lit("truncated"));
    j.Some? && (j.value == JNull || j.value == JBool(false) || j.value == JInt(0) || j.value == JStr([]) || j.value == JObj([]))
  }

  // An object of texts.
  predicate HasAudit(ms: seq<Member>, audit: map<Text, Text>) {
    var j := Find(ms, Lit("audit_metadata"));
    j.Some? && j.value.JObj? && (forall i :: 0 <= i < |j.value.members| ==> j.value.members[i].value.JStr?) && AuditFrom(j.value.members) == audit
  }

  predicate HasCode(ms: seq<Member>, code: Option<BrokerErrorCode>) {
    Has(ms, "error_code", if code.Some? then JStr(Lit(ErrorName(code.value))) else JNull)
  }

  // The object says this response: fourteen names and no more.
  ghost predicate ResponseSays(ms: seq<Member>, r: BrokerResponse) {
    ResponseKeys(ms) && Has(ms, "protocol_version", JInt(1)) && Has(ms, "request_id", JStr(r.requestId)) &&
    Has(ms, "broker_request_id", JStr(r.brokerRequestId)) && Has(ms, "transport_status", JStr(Lit(TransportName(r.transportStatus)))) &&
    HasNumber(ms, "provider_http_status", r.providerHttpStatus) && Has(ms, "session_state", JStr(Lit(SessionName(r.sessionState)))) &&
    HasCapture(ms, r.capturedAt) && HasBody(ms, r.body) && Has(ms, "body_length", JInt(r.bodyLength)) &&
    Has(ms, "body_sha256", JStr(r.bodySha256)) && HasFalse(ms) && HasNumber(ms, "retry_after_seconds", r.retryAfterSeconds) &&
    HasCode(ms, r.errorCode) && HasAudit(ms, r.auditMetadata)
  }

  /* ---------- names ---------- */

  lemma ResponseKeySet(ms: seq<Member>)
    ensures Keys(ms) == KeySet(RESPONSE_FIELDS) <==> ResponseKeys(ms)
  {
    hide Lit, Keys, RESPONSE_FIELDS;
    ResponseNames();
  }

  lemma ResponseNames()
    ensures KeySet(RESPONSE_FIELDS) ==
            {Lit("protocol_version"), Lit("request_id"), Lit("broker_request_id"), Lit("transport_status"),
             Lit("provider_http_status"), Lit("session_state"), Lit("captured_at"), Lit("body_base64"), Lit("body_length"),
             Lit("body_sha256"), Lit("truncated"), Lit("retry_after_seconds"), Lit("error_code"), Lit("audit_metadata")}
  {
    hide Lit, RESPONSE_FIELDS;
    forall t ensures t in KeySet(RESPONSE_FIELDS) <==>
                     t in {Lit("protocol_version"), Lit("request_id"), Lit("broker_request_id"), Lit("transport_status"),
                           Lit("provider_http_status"), Lit("session_state"), Lit("captured_at"), Lit("body_base64"), Lit("body_length"),
                           Lit("body_sha256"), Lit("truncated"), Lit("retry_after_seconds"), Lit("error_code"), Lit("audit_metadata")}
    {
      ResponseNamesIn();
      if t in KeySet(RESPONSE_FIELDS) {
        var f :| f in RESPONSE_FIELDS && t == Key(f);
        ResponseNameOf(f);
      }
    }
  }

  lemma KeyIn(f: Field)
    requires f in RESPONSE_FIELDS
    ensures Lit(FieldName(f)) in KeySet(RESPONSE_FIELDS)
  {
    hide Lit, RESPONSE_FIELDS, FieldName;
    assert Key(f) in KeySet(RESPONSE_FIELDS);
  }

  lemma ResponseNamesIn()
    ensures var ks := KeySet(RESPONSE_FIELDS);
            Lit("protocol_version") in ks && Lit("request_id") in ks && Lit("broker_request_id") in ks && Lit("transport_status") in ks &&
            Lit("provider_http_status") in ks && Lit("session_state") in ks && Lit("captured_at") in ks && Lit("body_base64") in ks &&
            Lit("body_length") in ks && Lit("body_sha256") in ks && Lit("truncated") in ks && Lit("retry_after_seconds") in ks &&
            Lit("error_code") in ks && Lit("audit_metadata") in ks
  {
    hide Lit, KeySet;
    ResponseFieldsPresent();
    hide RESPONSE_FIELDS;
    KeyIn(ProtocolVersion);
    KeyIn(RequestId);
    KeyIn(BrokerRequestId);
    KeyIn(Transport);
    KeyIn(ProviderHttpStatus);
    KeyIn(Session);
    KeyIn(CapturedAt);
    KeyIn(BodyBase64);
    KeyIn(BodyLength);
    KeyIn(BodySha256);
    KeyIn(Truncated);
    KeyIn(RetryAfterSeconds);
    KeyIn(ErrorCode);
    KeyIn(AuditMetadata);
  }

  lemma ResponseNameOf(f: Field)
    requires f in RESPONSE_FIELDS
    ensures Key(f) in {Lit("protocol_version"), Lit("request_id"), Lit("broker_request_id"), Lit("transport_status"),
                       Lit("provider_http_status"), Lit("session_state"), Lit("captured_at"), Lit("body_base64"), Lit("body_length"),
                       Lit("body_sha256"), Lit("truncated"), Lit("retry_after_seconds"), Lit("error_code"), Lit("audit_metadata")}
  {
    hide Lit;
    ResponseFieldsPresent();
    hide RESPONSE_FIELDS;
  }

  /* ---------- one entry at a time ---------- */

  // Every field is there.
  lemma Present(ms: seq<Member>, f: Field)
    requires Keys(ms) == KeySet(RESPONSE_FIELDS) && f in RESPONSE_FIELDS
    ensures Find(ms, Key(f)).Some? && Get(ms, f) == Find(ms, Key(f)).value
  {
    hide Lit, RESPONSE_FIELDS;
    assert Key(f) in Keys(ms);
    FindSome(ms, Key(f));
  }

  lemma {:induction false} FindSome(ms: seq<Member>, key: Text)
    ensures Find(ms, key).Some? <==> key in Keys(ms)
  {
    if ms != [] {
      FindSome(ms[1..], key);
      assert ms == [ms[0]] + ms[1..];
      assert Keys(ms) == {ms[0].key} + Keys(ms[1..]);
    }
  }

  lemma HasIs(ms: seq<Member>, f: Field, key: string, value: Json)
    requires FieldName(f) == key && Find(ms, Key(f)).Some? && Get(ms, f) == Find(ms, Key(f)).value
    ensures Has(ms, key, value) <==> Get(ms, f) == value
  {
    hide Find, Lit, Get;
  }

  lemma NumberIs(ms: seq<Member>, f: Field, key: string, n: Option<int>)
    requires FieldName(f) == key && Find(ms, Key(f)).Some? && Get(ms, f) == Find(ms, Key(f)).value
    ensures HasNumber(ms, key, n) ==> OptionalIntOf(Get(ms, f)) == n
    ensures OptionalIntOf(Get(ms, f)) == n && n != Some(-1) ==> HasNumber(ms, key, n)
  {
    HasIs(ms, f, key, if n.Some? then JInt(n.value) else JNull);
    hide Get, Find, Has;
  }

  lemma BodyIs(ms: seq<Member>, body: Bytes)
    requires Find(ms, Key(BodyBase64)).Some? && Get(ms, BodyBase64) == Find(ms, Key(BodyBase64)).value
    ensures HasBody(ms, body) <==> BodyOf(Get(ms, BodyBase64)) == Some(body)
  {
    hide Find, Lit, Get, Base64.Decode;
    var j := Get(ms, BodyBase64);
    forall t: Text ensures Has(ms, "body_base64", JStr(t)) <==> j == JStr(t) { HasIs(ms, BodyBase64, "body_base64", JStr(t)); }
    if j.JStr? { assert Has(ms, "body_base64", JStr(j.text)); }
  }

  lemma CaptureIs(ms: seq<Member>, s: Stamp)
    requires Find(ms, Key(CapturedAt)).Some? && Get(ms, CapturedAt) == Find(ms, Key(CapturedAt)).value
    ensures HasCapture(ms, s) <==> CaptureOf(Get(ms, CapturedAt)) == Some(s)
  {
    hide Find, Lit, Get, ParseIso, ReplaceZ;
    var j := Get(ms, CapturedAt);
    forall t: Text ensures Has(ms, "captured_at", JStr(t)) <==> j == JStr(t) { HasIs(ms, CapturedAt, "captured_at", JStr(t)); }
    if j.JStr? { assert Has(ms, "captured_at", JStr(j.text)); }
  }

  lemma FalseIs(ms: seq<Member>)
    requires Find(ms, Key(Truncated)).Some? && Get(ms, Truncated) == Find(ms, Key(Truncated)).value
    ensures HasFalse(ms) <==> !Truthy(Get(ms, Truncated))
  {
    hide Find, Lit, Get;
  }

  lemma AuditIs(ms: seq<Member>, audit: map<Text, Text>)
    requires Find(ms, Key(AuditMetadata)).Some? && Get(ms, AuditMetadata) == Find(ms, Key(AuditMetadata)).value
    ensures HasAudit(ms, audit) ==> AuditOf(Get(ms, AuditMetadata)) == audit
    ensures AuditOf(Get(ms, AuditMetadata)) == audit && [] !in audit ==> HasAudit(ms, audit)
  {
    hide Find, Lit, Get, AuditFrom;
  }

  lemma CodeIs(ms: seq<Member>, code: Option<BrokerErrorCode>)
    requires Find(ms, Key(Names.ErrorCode)).Some? && Get(ms, Names.ErrorCode) == Find(ms, Key(Names.ErrorCode)).value
    ensures HasCode(ms, code) <==> WireResponse.CodeOf(Get(ms, Names.ErrorCode)) == Some(code)
  {
    HasIs(ms, Names.ErrorCode, "error_code", if code.Some? then JStr(Lit(ErrorName(code.value))) else JNull);
    hide Find, Lit, Get, Has, ErrorName;
    var j := Get(ms, Names.ErrorCode);
    if j.JStr? && code.Some? { assert ErrorOf(j.text) == code <==> ErrorText(code.value) == j.text; }
  }

  lemma TransportIs(ms: seq<Member>, s: TransportStatus)
    requires Find(ms, Key(Transport)).Some? && Get(ms, Transport) == Find(ms, Key(Transport)).value
    ensures Has(ms, "transport_status", JStr(Lit(TransportName(s)))) <==> TransportOf(TextOf(Get(ms, Transport))) == Some(s)
  {
    HasIs(ms, Transport, "transport_status", JStr(Lit(TransportName(s))));
    TransportTextInjective(s, s);
    hide Find, Lit, Get, Has, TransportName;
    assert TransportOf(TextOf(Get(ms, Transport))) == Some(s) <==> TransportText(s) == TextOf(Get(ms, Transport));
  }

  lemma SessionIs(ms: seq<Member>, s: SessionState)
    requires Find(ms, Key(Session)).Some? && Get(ms, Session) == Find(ms, Key(Session)).value
    ensures Has(ms, "session_state", JStr(Lit(SessionName(s)))) <==> SessionOf(TextOf(Get(ms, Session))) == Some(s)
  {
    HasIs(ms, Session, "session_state", JStr(Lit(SessionName(s))));
    SessionTextInjective(s, s);
    hide Find, Lit, Get, Has, SessionName;
    assert SessionOf(TextOf(Get(ms, Session))) == Some(s) <==> SessionText(s) == TextOf(Get(ms, Session));
  }

  lemma TextIs(ms: seq<Member>, f: Field, key: string, t: Text)
    requires FieldName(f) == key && Find(ms, Key(f)).Some? && Get(ms, f) == Find(ms, Key(f)).value && t != []
    ensures Has(ms, key, JStr(t)) <==> TextOf(Get(ms, f)) == t
  {
    HasIs(ms, f, key, JStr(t));
    hide Get, Find, Has;
  }

  lemma IntIs(ms: seq<Member>, f: Field, key: string, n: int)
    requires FieldName(f) == key && Find(ms, Key(f)).Some? && Get(ms, f) == Find(ms, Key(f)).value && n >= 0
    ensures Has(ms, key, JInt(n)) <==> IntOf(Get(ms, f)) == n
  {
    HasIs(ms, f, key, JInt(n));
    hide Get, Find, Has;
  }

  /* ---------- the object ---------- */

  lemma AllPresent(ms: seq<Member>)
    requires Keys(ms) == KeySet(RESPONSE_FIELDS)
    ensures forall f :: f in RESPONSE_FIELDS ==> Find(ms, Key(f)).Some? && Get(ms, f) == Find(ms, Key(f)).value
  {
    hide RESPONSE_FIELDS, Key, Find, Get, Keys, KeySet;
    forall f | f in RESPONSE_FIELDS ensures Find(ms, Key(f)).Some? && Get(ms, f) == Find(ms, Key(f)).value { Present(ms, f); }
  }

  // What a response that exists has in its fields.
  lemma ValidFields(r: BrokerResponse)
    requires ResponseFault(r).None?
    ensures r.protocolVersion == 1 && r.requestId != [] && r.brokerRequestId != [] && r.bodyLength >= 0 && r.bodySha256 != [] && !r.truncated
    ensures r.providerHttpStatus != Some(-1) && r.retryAfterSeconds != Some(-1) && [] !in r.auditMetadata
  {
    AuditKeysDiffer();
    assert HexDigest(Sha256(r.body));
    assert [] !in SafeAuditKeys() by { SafeKeysNonempty(); }
    hide Lit, CodeAgrees, SafeAuditKeys;
  }

  lemma SafeKeysNonempty()
    ensures [] !in SafeAuditKeys()
  {
    assert |Lit("request_fingerprint")| > 0 && |Lit("attempt_number")| > 0 && |Lit("session_fingerprint")| > 0;
    hide Lit;
  }

  // The entries one by one, for a response that exists.
  predicate ArgumentsSay(ms: seq<Member>, r: BrokerResponse) {
    IntOf(Get(ms, ProtocolVersion)) == 1 && TextOf(Get(ms, RequestId)) == r.requestId && TextOf(Get(ms, BrokerRequestId)) == r.brokerRequestId &&
    TransportOf(TextOf(Get(ms, Transport))) == Some(r.transportStatus) && OptionalIntOf(Get(ms, ProviderHttpStatus)) == r.providerHttpStatus &&
    SessionOf(TextOf(Get(ms, Session))) == Some(r.sessionState) && CaptureOf(Get(ms, CapturedAt)) == Some(r.capturedAt) &&
    BodyOf(Get(ms, BodyBase64)) == Some(r.body) && IntOf(Get(ms, BodyLength)) == r.bodyLength && TextOf(Get(ms, BodySha256)) == r.bodySha256 &&
    !Truthy(Get(ms, Truncated)) && OptionalIntOf(Get(ms, RetryAfterSeconds)) == r.retryAfterSeconds &&
    WireResponse.CodeOf(Get(ms, Names.ErrorCode)) == Some(r.errorCode) && AuditOf(Get(ms, AuditMetadata)) == r.auditMetadata
  }

  lemma ArgumentsAre(ms: seq<Member>, r: BrokerResponse)
    requires r.protocolVersion == 1 && !r.truncated
    ensures ResponseArguments(ms) == Some(r) <==> ArgumentsSay(ms, r)
  {
    hide Get, IntOf, TextOf, TransportOf, SessionOf, CaptureOf, BodyOf, Truthy, OptionalIntOf, WireResponse.CodeOf, AuditOf;
  }

  lemma SaysFirst(ms: seq<Member>, r: BrokerResponse)
    requires Keys(ms) == KeySet(RESPONSE_FIELDS) && ResponseFault(r).None?
    ensures Has(ms, "protocol_version", JInt(1)) <==> IntOf(Get(ms, ProtocolVersion)) == 1
    ensures Has(ms, "request_id", JStr(r.requestId)) <==> TextOf(Get(ms, RequestId)) == r.requestId
    ensures Has(ms, "broker_request_id", JStr(r.brokerRequestId)) <==> TextOf(Get(ms, BrokerRequestId)) == r.brokerRequestId
    ensures Has(ms, "transport_status", JStr(Lit(TransportName(r.transportStatus)))) <==>
            TransportOf(TextOf(Get(ms, Transport))) == Some(r.transportStatus)
    ensures HasNumber(ms, "provider_http_status", r.providerHttpStatus) <==> OptionalIntOf(Get(ms, ProviderHttpStatus)) == r.providerHttpStatus
    ensures Has(ms, "session_state", JStr(Lit(SessionName(r.sessionState)))) <==> SessionOf(TextOf(Get(ms, Session))) == Some(r.sessionState)
    ensures HasCapture(ms, r.capturedAt) <==> CaptureOf(Get(ms, CapturedAt)) == Some(r.capturedAt)
  {
    hide *;
    ValidFields(r);
    AllPresent(ms);
    ResponseFieldsPresent();
    NamesAre();
    IntIs(ms, ProtocolVersion, "protocol_version", 1);
    TextIs(ms, RequestId, "request_id", r.requestId);
    TextIs(ms, BrokerRequestId, "broker_request_id", r.brokerRequestId);
    TransportIs(ms, r.transportStatus);
    NumberIs(ms, ProviderHttpStatus, "provider_http_status", r.providerHttpStatus);
    SessionIs(ms, r.sessionState);
    CaptureIs(ms, r.capturedAt);
  }

  lemma SaysRest(ms: seq<Member>, r: BrokerResponse)
    requires Keys(ms) == KeySet(RESPONSE_FIELDS) && ResponseFault(r).None?
    ensures HasBody(ms, r.body) <==> BodyOf(Get(ms, BodyBase64)) == Some(r.body)
    ensures Has(ms, "body_length", JInt(r.bodyLength)) <==> IntOf(Get(ms, BodyLength)) == r.bodyLength
    ensures Has(ms, "body_sha256", JStr(r.bodySha256)) <==> TextOf(Get(ms, BodySha256)) == r.bodySha256
    ensures HasFalse(ms) <==> !Truthy(Get(ms, Truncated))
    ensures HasNumber(ms, "retry_after_seconds", r.retryAfterSeconds) <==> OptionalIntOf(Get(ms, RetryAfterSeconds)) == r.retryAfterSeconds
    ensures HasCode(ms, r.errorCode) <==> WireResponse.CodeOf(Get(ms, Names.ErrorCode)) == Some(r.errorCode)
    ensures HasAudit(ms, r.auditMetadata) <==> AuditOf(Get(ms, AuditMetadata)) == r.auditMetadata
  {
    hide *;
    ValidFields(r);
    AllPresent(ms);
    ResponseFieldsPresent();
    NamesAre();
    BodyIs(ms, r.body);
    IntIs(ms, BodyLength, "body_length", r.bodyLength);
    TextIs(ms, BodySha256, "body_sha256", r.bodySha256);
    FalseIs(ms);
    NumberIs(ms, RetryAfterSeconds, "retry_after_seconds", r.retryAfterSeconds);
    CodeIs(ms, r.errorCode);
    AuditIs(ms, r.auditMetadata);
  }

  lemma NamesAre()
    ensures FieldName(ProtocolVersion) == "protocol_version" && FieldName(RequestId) == "request_id"
    ensures FieldName(BrokerRequestId) == "broker_request_id" && FieldName(ProviderHttpStatus) == "provider_http_status"
    ensures FieldName(BodyLength) == "body_length" && FieldName(BodySha256) == "body_sha256"
    ensures FieldName(RetryAfterSeconds) == "retry_after_seconds"
  {
  }

  lemma SaysIff(ms: seq<Member>, r: BrokerResponse)
    requires Keys(ms) == KeySet(RESPONSE_FIELDS) && ResponseFault(r).None?
    ensures ResponseSays(ms, r) <==> ArgumentsSay(ms, r)
  {
    ResponseKeySet(ms);
    SaysFirst(ms, r);
    SaysRest(ms, r);
    hide Has, HasNumber, HasBody, HasCapture, HasFalse, HasAudit, HasCode, Get, IntOf, TextOf, TransportOf, SessionOf, CaptureOf, BodyOf,
         Truthy, OptionalIntOf, WireResponse.CodeOf, AuditOf, ResponseKeys, Keys, KeySet, RESPONSE_FIELDS, ResponseFault;
  }

  lemma FromMembersIff(ms: seq<Member>, r: BrokerResponse)
    ensures ResponseFromMembers(ms) == Ok(r) <==> ResponseFault(r).None? && ResponseSays(ms, r)
  {
    hide ResponseArguments, ResponseFault, ResponseSays, ArgumentsSay, Keys, KeySet, RESPONSE_FIELDS;
    ResponseKeySet(ms);
    assert ResponseSays(ms, r) ==> ResponseKeys(ms) by { SaysKeys(ms, r); }
    if Keys(ms) == KeySet(RESPONSE_FIELDS) && ResponseFault(r).None? {
      SaysIff(ms, r);
      ValidFields(r);
      ArgumentsAre(ms, r);
    }
  }

  lemma SaysKeys(ms: seq<Member>, r: BrokerResponse)
    ensures ResponseSays(ms, r) ==> ResponseKeys(ms)
  {
    hide ResponseKeys, Has, HasNumber, HasBody, HasCapture, HasFalse, HasAudit, HasCode;
  }

  /** A frame decodes to a response exactly when its object has the fourteen names and no other, each with this response's value,
      and the response is one that exists. */
  lemma DecodeResponseIff(frame: Bytes, r: BrokerResponse)
    ensures DecodeResponse(frame) == Ok(r) <==>
            ResponseFault(r).None? && exists ms :: DecodeFrame(frame, 25_165_824) == Some(ms) && ResponseSays(ms, r)
  {
    hide DecodeFrame, ResponseFromMembers, ResponseSays, ResponseFault;
    if DecodeFrame(frame, MAX_RESPONSE_PAYLOAD).Some? { FromMembersIff(DecodeFrame(frame, MAX_RESPONSE_PAYLOAD).value, r); }
  }
}
