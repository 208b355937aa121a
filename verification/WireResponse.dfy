/** Responses as frames: encode, strict decode, the exact round trip, and the size that always fits. */
module WireResponse {
  import opened Basics
  import opened Calendar
  import opened Json
  import opened JsonText
  import opened Protocol
  import opened Names
  import opened Frames
  import opened Wire
  import Base64

  /* ---------- audit metadata ---------- */

  const ATTEMPT_NUMBER: Text := Lit("attempt_number")
  const REQUEST_FINGERPRINT: Text := Lit("request_fingerprint")
  const SESSION_FINGERPRINT: Text := Lit("session_fingerprint")

  lemma AuditKeysDiffer()
    ensures ATTEMPT_NUMBER != REQUEST_FINGERPRINT && ATTEMPT_NUMBER != SESSION_FINGERPRINT
    ensures REQUEST_FINGERPRINT != SESSION_FINGERPRINT
    ensures SafeAuditKeys() == {ATTEMPT_NUMBER, REQUEST_FINGERPRINT, SESSION_FINGERPRINT}
    ensures !HasPair(ATTEMPT_NUMBER) && !HasPair(REQUEST_FINGERPRINT) && !HasPair(SESSION_FINGERPRINT)
  {
    assert REQUEST_FINGERPRINT[0] == 'r' as int && SESSION_FINGERPRINT[0] == 's' as int;
    LiteralHasNoPair("attempt_number");
    LiteralHasNoPair("request_fingerprint");
    LiteralHasNoPair("session_fingerprint");
  }

  function Entry(m: map<Text, Text>, key: Text): seq<Member> {
    if key in m then [Member(key, JStr(m[key]))] else []
  }

  // `dict(response.audit_metadata)`; json.dumps sorts it, so any insertion order would do.
  function AuditMembers(m: map<Text, Text>): seq<Member> {
    Entry(m, ATTEMPT_NUMBER) + Entry(m, REQUEST_FINGERPRINT) + Entry(m, SESSION_FINGERPRINT)
  }

  function AuditFrom(ms: seq<Member>): map<Text, Text>
    requires forall i :: 0 <= i < |ms| ==> ms[i].value.JStr?
  {
    if ms == [] then map[] else AuditFrom(ms[1..])[ms[0].key := ms[0].value.text]
  }

  function JoinAudit(m: map<Text, Text>): map<Text, Text> { map k | k in m :: Join(m[k]) }

  lemma FindConcat(a: seq<Member>, b: seq<Member>, key: Text)
    ensures Find(a + b, key) == if Find(a, key).Some? then Find(a, key) else Find(b, key)
  {
    if a == [] {
      assert a + b == b;
    } else {
      assert (a + b)[1..] == a[1..] + b;
      if a[0].key != key { FindConcat(a[1..], b, key); }
    }
  }

  lemma FindEntry(m: map<Text, Text>, k: Text, key: Text)
    ensures Find(Entry(m, k), key) == if k == key && k in m then Some(JStr(m[k])) else None
  {
    if k in m { assert Entry(m, k)[1..] == []; }
  }

  lemma AuditMembersFind(m: map<Text, Text>, key: Text)
    requires m.Keys <= SafeAuditKeys()
    ensures Find(AuditMembers(m), key) == if key in m then Some(JStr(m[key])) else None
  {
    AuditKeysDiffer();
    hide ATTEMPT_NUMBER, REQUEST_FINGERPRINT, SESSION_FINGERPRINT, Find, Entry;
    var (a, b, c) := (ATTEMPT_NUMBER, REQUEST_FINGERPRINT, SESSION_FINGERPRINT);
    FindConcat(Entry(m, a) + Entry(m, b), Entry(m, c), key);
    FindConcat(Entry(m, a), Entry(m, b), key);
    FindEntry(m, a, key);
    FindEntry(m, b, key);
    FindEntry(m, c, key);
  }

  lemma SoundConcat(a: seq<Member>, b: seq<Member>)
    requires Sound(JObj(a)) && Sound(JObj(b)) && forall i, j :: 0 <= i < |a| && 0 <= j < |b| ==> a[i].key != b[j].key
    ensures Sound(JObj(a + b))
  {
    hide HasPair;
  }

  lemma EntrySound(m: map<Text, Text>, key: Text)
    requires !HasPair(key)
    ensures Sound(JObj(Entry(m, key)))
    ensures forall i :: 0 <= i < |Entry(m, key)| ==> Entry(m, key)[i].key == key
  {
    hide HasPair;
    if key in m { assert Sound(JStr(m[key])); }
    assert SoundMembers(Entry(m, key));
  }

  lemma AuditMembersSound(m: map<Text, Text>)
    ensures Sound(JObj(AuditMembers(m)))
  {
    AuditKeysDiffer();
    hide ATTEMPT_NUMBER, REQUEST_FINGERPRINT, SESSION_FINGERPRINT, HasPair, Entry, Sound;
    EntrySound(m, ATTEMPT_NUMBER);
    EntrySound(m, REQUEST_FINGERPRINT);
    EntrySound(m, SESSION_FINGERPRINT);
    SoundConcat(Entry(m, ATTEMPT_NUMBER), Entry(m, REQUEST_FINGERPRINT));
    SoundConcat(Entry(m, ATTEMPT_NUMBER) + Entry(m, REQUEST_FINGERPRINT), Entry(m, SESSION_FINGERPRINT));
  }

  lemma AuditFromFind(ms: seq<Member>, key: Text)
    requires forall i :: 0 <= i < |ms| ==> ms[i].value.JStr?
    ensures Find(ms, key) == if key in AuditFrom(ms) then Some(JStr(AuditFrom(ms)[key])) else None
  {
    if ms != [] { AuditFromFind(ms[1..], key); }
  }

  /** The audit dict that arrives is the one sent, with its texts joined. */
  lemma AuditArrives(m: map<Text, Text>)
    requires m.Keys <= SafeAuditKeys()
    ensures forall i :: 0 <= i < |Received(AuditMembers(m))| ==> Received(AuditMembers(m))[i].value.JStr?
    ensures AuditFrom(Received(AuditMembers(m))) == JoinAudit(m)
  {
    var sent := AuditMembers(m);
    var got := Received(sent);
    AuditMembersSound(m);
    hide AuditMembers, SafeAuditKeys, Join, Received, Sound;
    ReceivedFind(sent, []);
    forall key ensures Find(got, key) == if key in m then Some(JStr(Join(m[key]))) else None {
      ReceivedFind(sent, key);
      AuditMembersFind(m, key);
    }
    forall i | 0 <= i < |got| ensures got[i].value.JStr? {
      FindMember(got, got[i].key, got[i].value);
      assert got[i] in got;
    }
    forall key ensures key in AuditFrom(got) <==> key in m
               ensures key in m ==> AuditFrom(got)[key] == Join(m[key]) {
      AuditFromFind(got, key);
    }
  }

  /* ---------- mapping and decoding ---------- */

  // The UTC capture time; `isoformat` with its "+00:00" written "Z".
  function CaptureText(s: Stamp): Text
    requires ValidStamp(s)
  {
    IsoLocal(s.local) + [90]
  }

  // `text.replace("Z", "+00:00")`
  function ReplaceZ(t: Text): Text {
    if t == [] then [] else (if t[0] == 90 then [43, 48, 48, 58, 48, 48] else [t[0]]) + ReplaceZ(t[1..])
  }

  function OptionalInt(n: Option<int>): Json { if n.Some? then JInt(n.value) else JNull }

  function ResponseValue(r: BrokerResponse, f: Field): Json
    requires ValidStamp(r.capturedAt)
  {
    match f
    case ProtocolVersion => JInt(r.protocolVersion)
    case RequestId => JStr(r.requestId)
    case BrokerRequestId => JStr(r.brokerRequestId)
    case Transport => JStr(TransportText(r.transportStatus))
    case ProviderHttpStatus => OptionalInt(r.providerHttpStatus)
    case Session => JStr(SessionText(r.sessionState))
    case CapturedAt => JStr(CaptureText(r.capturedAt))
    case BodyBase64 => JStr(Base64.Encode(r.body))
    case BodyLength => JInt(r.bodyLength)
    case BodySha256 => JStr(r.bodySha256)
    case Truncated => JBool(r.truncated)
    case RetryAfterSeconds => OptionalInt(r.retryAfterSeconds)
    case ErrorCode => if r.errorCode.Some? then JStr(ErrorText(r.errorCode.value)) else JNull
    case AuditMetadata => JObj(AuditMembers(r.auditMetadata))
    case _ => JNull
  }

  function ResponseMembers(r: BrokerResponse): seq<Member>
    requires ValidStamp(r.capturedAt)
  {
    Object(RESPONSE_FIELDS, f requires ValidStamp(r.capturedAt) => ResponseValue(r, f))
  }

  function EncodeResponse(r: BrokerResponse): Result<Bytes, BrokerErrorCode>
    requires ValidStamp(r.capturedAt)
  {
    EncodeFrame(JObj(ResponseMembers(r)), MAX_RESPONSE_PAYLOAD)
  }

  function TextOf(j: Json): Text { if j.JStr? then j.text else [] }

  // A wrongly typed number becomes one the constructor refuses at the same check.
  function IntOf(j: Json): int { if j.JInt? then j.n else -1 }

  function OptionalIntOf(j: Json): Option<int> { if j.JNull? then None else Some(IntOf(j)) }

  // Python truth of a JSON value.
  function Truthy(j: Json): bool {
    match j
    case JNull => false
    case JBool(b) => b
    case JInt(n) => n != 0
    case JStr(t) => t != []
    case JObj(ms) => ms != []
  }

  function AuditOf(j: Json): map<Text, Text> {
    if j.JObj? && forall i :: 0 <= i < |j.members| ==> j.members[i].value.JStr? then AuditFrom(j.members)
    else map[[] := []]
  }

  function CaptureOf(j: Json): Option<Stamp> { if j.JStr? then ParseIso(ReplaceZ(j.text)) else None }

  function BodyOf(j: Json): Option<Bytes> { if j.JStr? then Base64.Decode(j.text) else None }

  function CodeOf(j: Json): Option<Option<BrokerErrorCode>> {
    if j.JNull? then Some(None)
    else if j.JStr? && ErrorOf(j.text).Some? then Some(ErrorOf(j.text))
    else None
  }

  // The constructor arguments `decode_response` collects; None is one it cannot convert.
  function ResponseArguments(ms: seq<Member>): Option<BrokerResponse> {
    match (BodyOf(Get(ms, BodyBase64)), CaptureOf(Get(ms, CapturedAt)), CodeOf(Get(ms, ErrorCode)),
           TransportOf(TextOf(Get(ms, Transport))), SessionOf(TextOf(Get(ms, Session))))
    case (Some(body), Some(captured), Some(code), Some(transport), Some(session)) =>
      Some(BrokerResponse(
        IntOf(Get(ms, ProtocolVersion)), TextOf(Get(ms, RequestId)), TextOf(Get(ms, BrokerRequestId)), transport,
        OptionalIntOf(Get(ms, ProviderHttpStatus)), session, captured, body, IntOf(Get(ms, BodyLength)),
        TextOf(Get(ms, BodySha256)), Truthy(Get(ms, Truncated)), OptionalIntOf(Get(ms, RetryAfterSeconds)),
        code, AuditOf(Get(ms, AuditMetadata))))
    case _ => None
  }

  /** `decode_response` on the parsed dict. */
  function ResponseFromMembers(ms: seq<Member>): Result<BrokerResponse, BrokerErrorCode> {
    if Keys(ms) != KeySet(RESPONSE_FIELDS) then Err(MalformedProviderResponse) else
      match ResponseArguments(ms)
      case None => Err(MalformedProviderResponse)
      case Some(r) => Construct(r)
  }

  // `BrokerResponse(...)`
  function Construct(r: BrokerResponse): (c: Result<BrokerResponse, BrokerErrorCode>)
    ensures c.Ok? ==> c.value == r
  {
    match ResponseFault(r)
    case Some(code) => Err(code)
    case None => Ok(r)
  }

  function DecodeResponse(frame: Bytes): Result<BrokerResponse, BrokerErrorCode> {
    match DecodeFrame(frame, MAX_RESPONSE_PAYLOAD)
    case None => Err(MalformedClientRequest)
    case Some(ms) => ResponseFromMembers(ms)
  }

  /* ---------- the round trip ---------- */

  lemma ReplaceZConcat(a: Text, b: Text)
    requires IsoChars(a)
    ensures ReplaceZ(a + b) == a + ReplaceZ(b)
  {
    if a == [] {
      assert a + b == b;
    } else {
      HeadTail(a);
      Associate([a[0]], a[1..], b);
      Cons(a[0], a[1..] + b);
      ReplaceZConcat(a[1..], b);
      Associate([a[0]], a[1..], ReplaceZ(b));
    }
  }

  lemma CaptureRebuilt(s: Stamp)
    requires ValidStamp(s) && s.offset == 0
    ensures CaptureOf(JStr(CaptureText(s))) == Some(s)
    ensures Join(CaptureText(s)) == CaptureText(s)
  {
    IsoLocalChars(s.local);
    AsciiJoin(CaptureText(s));
    ReplaceZConcat(IsoLocal(s.local), [90]);
    ParseIsoFormat(s);
    UtcOffset();
    hide ParseIso, IsoLocal, Join;
  }

  lemma UtcOffset()
    ensures IsoOffset(0) == [43, 48, 48, 58, 48, 48]
    ensures ReplaceZ([90]) == [43, 48, 48, 58, 48, 48]
  {
    assert PrintFixed(0, 1) == [48];
  }

  lemma Base64Rebuilt(b: Bytes)
    ensures BodyOf(JStr(Base64.Encode(b))) == Some(b)
    ensures Join(Base64.Encode(b)) == Base64.Encode(b)
  {
    Base64.DecodeEncode(b);
    AsciiJoin(Base64.Encode(b));
  }

  lemma NamesJoin(r: BrokerResponse)
    ensures Join(TransportText(r.transportStatus)) == TransportText(r.transportStatus)
    ensures Join(SessionText(r.sessionState)) == SessionText(r.sessionState)
    ensures r.errorCode.Some? ==> Join(ErrorText(r.errorCode.value)) == ErrorText(r.errorCode.value)
  {
    hide TransportName, SessionName, ErrorName, Join;
    LiteralHasNoPair(TransportName(r.transportStatus));
    LiteralHasNoPair(SessionName(r.sessionState));
    JoinIdentity(TransportText(r.transportStatus));
    JoinIdentity(SessionText(r.sessionState));
    if r.errorCode.Some? {
      LiteralHasNoPair(ErrorName(r.errorCode.value));
      JoinIdentity(ErrorText(r.errorCode.value));
    }
  }

  // What the trip needs of a response: texts without surrogate pairs, UTC, safe audit keys.
  ghost predicate Sendable(r: BrokerResponse) {
    ValidStamp(r.capturedAt) && r.capturedAt.offset == 0 && r.auditMetadata.Keys <= SafeAuditKeys() &&
    !HasPair(r.requestId) && !HasPair(r.brokerRequestId) && !HasPair(r.bodySha256)
  }

  lemma ValidSendable(r: BrokerResponse)
    requires ValidResponse(r)
    ensures Sendable(r)
  {
    hide SafeAuditKeys;
  }

  // The value that arrives under each field name.
  function Arrived(r: BrokerResponse, f: Field): Json
    requires ValidStamp(r.capturedAt)
  {
    if f.AuditMetadata? then JObj(Received(AuditMembers(r.auditMetadata))) else ResponseValue(r, f)
  }

  lemma TextArrives(t: Text)
    requires !HasPair(t)
    ensures Join(t) == t
  {
    JoinIdentity(t);
  }

  lemma AuditValueArrives(r: BrokerResponse)
    requires Sendable(r)
    ensures Sound(ResponseValue(r, AuditMetadata))
    ensures JoinJson(SortKeys(ResponseValue(r, AuditMetadata))) == Arrived(r, AuditMetadata)
  {
    hide Join, HasPair, AuditMembers, SafeAuditKeys;
    AuditMembersSound(r.auditMetadata);
  }

  lemma PlainValueArrives(r: BrokerResponse, f: Field)
    requires Sendable(r) && !f.AuditMetadata?
    ensures Sound(ResponseValue(r, f))
    ensures JoinJson(SortKeys(ResponseValue(r, f))) == Arrived(r, f)
  {
    hide Join, HasPair, TransportText, SessionText, ErrorText, CaptureText, AuditMembers, SafeAuditKeys,
         SortEach, Sort, JoinMembers, SoundMembers;
    match f
    case RequestId => TextArrives(r.requestId);
    case BrokerRequestId => TextArrives(r.brokerRequestId);
    case BodySha256 => TextArrives(r.bodySha256);
    case Transport => NamesJoin(r);
    case Session => NamesJoin(r);
    case ErrorCode => NamesJoin(r);
    case CapturedAt => CaptureRebuilt(r.capturedAt);
    case BodyBase64 => Base64Rebuilt(r.body);
    case _ =>
  }

  lemma ResponseValueArrives(r: BrokerResponse, f: Field)
    requires Sendable(r)
    ensures Sound(ResponseValue(r, f))
    ensures JoinJson(SortKeys(ResponseValue(r, f))) == Arrived(r, f)
  {
    hide Sound, ResponseValue, JoinJson, SortKeys, Arrived, ResponseFault, SafeAuditKeys, HasPair;
    if f.AuditMetadata? { AuditValueArrives(r); } else { PlainValueArrives(r, f); }
  }

  lemma ResponseFieldsDiffer()
    ensures NoRepeats(RESPONSE_FIELDS) && RESPONSE_FIELDS != []
  {
  }

  lemma ResponseArrives(r: BrokerResponse, f: Field)
    requires Sendable(r) && f in RESPONSE_FIELDS
    ensures Keys(Received(ResponseMembers(r))) == KeySet(RESPONSE_FIELDS)
    ensures Get(Received(ResponseMembers(r)), f) == Arrived(r, f)
  {
    hide Received, KeySet, ResponseValue, JoinJson, SortKeys, Sound, RESPONSE_FIELDS, Object, NoRepeats, Arrived, ValidStamp, SafeAuditKeys, HasPair;
    ResponseFieldsDiffer();
    forall g { ResponseValueArrives(r, g); }
    ReceivedField(RESPONSE_FIELDS, g requires ValidStamp(r.capturedAt) => ResponseValue(r, g), f);
  }

  lemma ResponseSound(r: BrokerResponse)
    requires Sendable(r)
    ensures Sound(JObj(ResponseMembers(r)))
  {
    hide ResponseValue, JoinJson, SortKeys, Sound, RESPONSE_FIELDS, Object, NoRepeats, Arrived, ValidStamp, SafeAuditKeys, HasPair;
    ResponseFieldsDiffer();
    forall g { ResponseValueArrives(r, g); }
    ObjectSound(RESPONSE_FIELDS, g requires ValidStamp(r.capturedAt) => ResponseValue(r, g));
  }

  lemma ResponseFieldsPresent()
    ensures forall f :: f in RESPONSE_FIELDS <==>
      f.ProtocolVersion? || f.RequestId? || f.BrokerRequestId? || f.Transport? || f.ProviderHttpStatus? ||
      f.Session? || f.CapturedAt? || f.BodyBase64? || f.BodyLength? || f.BodySha256? || f.Truncated? ||
      f.RetryAfterSeconds? || f.ErrorCode? || f.AuditMetadata?
  {
    var r := RESPONSE_FIELDS;
    assert r[0] == ProtocolVersion && r[1] == RequestId && r[2] == BrokerRequestId && r[3] == Transport;
    assert r[4] == ProviderHttpStatus && r[5] == Session && r[6] == CapturedAt && r[7] == BodyBase64;
    assert r[8] == BodyLength && r[9] == BodySha256 && r[10] == Truncated && r[11] == RetryAfterSeconds;
    assert r[12] == ErrorCode && r[13] == AuditMetadata;
  }

  // What the peer holds after a lossless transport of `r`.
  function Delivered(r: BrokerResponse): BrokerResponse { r.(auditMetadata := JoinAudit(r.auditMetadata)) }

  lemma DeliveredValid(r: BrokerResponse)
    requires ValidResponse(r)
    ensures Construct(Delivered(r)) == Ok(Delivered(r))
    ensures ValidResponse(Delivered(r))
  {
    assert JoinAudit(r.auditMetadata).Keys == r.auditMetadata.Keys;
    hide JoinAudit, CanonicalUuid, CodeAgrees, TransportAgrees, SafeAuditKeys;
    assert TransportAgrees(Delivered(r)) == TransportAgrees(r) by { DeliveredAgrees(r); }
    assert CodeAgrees(Delivered(r)) == CodeAgrees(r) by { DeliveredAgrees(r); }
  }

  lemma DeliveredAgrees(r: BrokerResponse)
    ensures TransportAgrees(Delivered(r)) == TransportAgrees(r)
    ensures CodeAgrees(Delivered(r)) == CodeAgrees(r)
  {
    hide JoinAudit;
  }

  lemma NamesRebuilt(r: BrokerResponse)
    requires ValidStamp(r.capturedAt)
    ensures CodeOf(ResponseValue(r, ErrorCode)) == Some(r.errorCode)
    ensures TransportOf(TextOf(ResponseValue(r, Transport))) == Some(r.transportStatus)
    ensures SessionOf(TextOf(ResponseValue(r, Session))) == Some(r.sessionState)
  {
    hide ErrorText, TransportText, SessionText, ErrorOf, TransportOf, SessionOf;
  }

  lemma AuditRebuilt(m: map<Text, Text>)
    requires m.Keys <= SafeAuditKeys()
    ensures AuditOf(JObj(Received(AuditMembers(m)))) == JoinAudit(m)
  {
    AuditArrives(m);
    hide Received, AuditMembers, AuditFrom, JoinAudit, SafeAuditKeys;
  }

  lemma ArrivedPart(r: BrokerResponse, f: Field)
    requires Sendable(r)
    ensures f.BodyBase64? ==> BodyOf(Arrived(r, f)) == Some(r.body)
    ensures f.CapturedAt? ==> CaptureOf(Arrived(r, f)) == Some(r.capturedAt)
    ensures f.ErrorCode? ==> CodeOf(Arrived(r, f)) == Some(r.errorCode)
    ensures f.Transport? ==> TransportOf(TextOf(Arrived(r, f))) == Some(r.transportStatus)
    ensures f.Session? ==> SessionOf(TextOf(Arrived(r, f))) == Some(r.sessionState)
    ensures f.AuditMetadata? ==> AuditOf(Arrived(r, f)) == JoinAudit(r.auditMetadata)
  {
    hide CaptureText, Received, AuditMembers, JoinAudit, CaptureOf, BodyOf, CodeOf, TextOf, AuditOf, HasPair, Join,
         SafeAuditKeys, TransportOf, SessionOf, TransportText, SessionText, ErrorText;
    match f
    case BodyBase64 => Base64Rebuilt(r.body);
    case CapturedAt => CaptureRebuilt(r.capturedAt);
    case AuditMetadata => AuditRebuilt(r.auditMetadata);
    case _ => NamesRebuilt(r);
  }

  lemma ArrivedParts(r: BrokerResponse)
    requires Sendable(r)
    ensures BodyOf(Arrived(r, BodyBase64)) == Some(r.body)
    ensures CaptureOf(Arrived(r, CapturedAt)) == Some(r.capturedAt)
    ensures CodeOf(Arrived(r, ErrorCode)) == Some(r.errorCode)
    ensures TransportOf(TextOf(Arrived(r, Transport))) == Some(r.transportStatus)
    ensures SessionOf(TextOf(Arrived(r, Session))) == Some(r.sessionState)
    ensures AuditOf(Arrived(r, AuditMetadata)) == JoinAudit(r.auditMetadata)
  {
    ArrivedPart(r, BodyBase64);
    ArrivedPart(r, CapturedAt);
    ArrivedPart(r, ErrorCode);
    ArrivedPart(r, Transport);
    ArrivedPart(r, Session);
    ArrivedPart(r, AuditMetadata);
    hide Arrived, BodyOf, CaptureOf, CodeOf, TransportOf, SessionOf, TextOf, AuditOf, Sendable, JoinAudit;
  }

  lemma ArrivedScalars(r: BrokerResponse)
    requires Sendable(r)
    ensures IntOf(Arrived(r, ProtocolVersion)) == r.protocolVersion && TextOf(Arrived(r, RequestId)) == r.requestId
    ensures TextOf(Arrived(r, BrokerRequestId)) == r.brokerRequestId
    ensures OptionalIntOf(Arrived(r, ProviderHttpStatus)) == r.providerHttpStatus
    ensures IntOf(Arrived(r, BodyLength)) == r.bodyLength && TextOf(Arrived(r, BodySha256)) == r.bodySha256
    ensures Truthy(Arrived(r, Truncated)) == r.truncated
    ensures OptionalIntOf(Arrived(r, RetryAfterSeconds)) == r.retryAfterSeconds
  {
    hide HasPair;
  }

  lemma ResponseRebuilt(r: BrokerResponse, ms: seq<Member>)
    requires Sendable(r)
    requires forall f :: f in RESPONSE_FIELDS ==> Get(ms, f) == Arrived(r, f)
    ensures ResponseArguments(ms) == Some(Delivered(r))
  {
    ResponseFieldsPresent();
    ArrivedParts(r);
    ArrivedScalars(r);
    hide Get, RESPONSE_FIELDS, Sendable, Arrived, JoinAudit, BodyOf, CaptureOf, CodeOf, TextOf, IntOf, OptionalIntOf, Truthy, AuditOf;
  }

  /** A valid response whose payload fits is delivered, audit texts joined and all else exact. */
  lemma DecodeEncodeResponse(r: BrokerResponse)
    requires ValidResponse(r) && EncodeResponse(r).Ok?
    ensures DecodeResponse(EncodeResponse(r).value) == Ok(Delivered(r))
  {
    ValidSendable(r);
    DeliveredValid(r);
    hide ResponseArguments, Received, ResponseMembers, DecodeFrame, KeySet, EncodeFrame, Get, Arrived, Sound, Keys,
         RESPONSE_FIELDS, ResponseFault, Delivered, Sendable, Construct;
    var ms := ResponseMembers(r);
    ResponseFieldsPresent();
    assert ProtocolVersion in RESPONSE_FIELDS;
    ResponseArrives(r, ProtocolVersion);
    ResponseSound(r);
    DecodeEncodeFrame(ms, MAX_RESPONSE_PAYLOAD);
    forall f | f in RESPONSE_FIELDS ensures Get(Received(ms), f) == Arrived(r, f) { ResponseArrives(r, f); }
    ResponseRebuilt(r, Received(ms));
  }

  ghost predicate AuditHasPair(m: map<Text, Text>) { exists k :: k in m && HasPair(m[k]) }

  /** `decode_response(encode_response(r)) == r` exactly when no audit text has a surrogate pair. */
  lemma RoundTripIff(r: BrokerResponse)
    requires ValidResponse(r) && EncodeResponse(r).Ok?
    ensures DecodeResponse(EncodeResponse(r).value) == Ok(r) <==> !AuditHasPair(r.auditMetadata)
  {
    DecodeEncodeResponse(r);
    JoinAuditIdentity(r.auditMetadata);
    hide DecodeResponse, EncodeResponse, ResponseFault, JoinAudit, AuditHasPair;
  }

  lemma JoinAuditIdentity(m: map<Text, Text>)
    ensures JoinAudit(m) == m <==> !AuditHasPair(m)
  {
    hide HasPair;
    forall k | k in m ensures Join(m[k]) == m[k] <==> !HasPair(m[k]) {
      JoinIdentity(m[k]);
    }
    hide Join;
    var n := JoinAudit(m);
    if n == m {
      forall k | k in m ensures !HasPair(m[k]) { assert n[k] == Join(m[k]); }
    }
    if !AuditHasPair(m) {
      forall k | k in m ensures n[k] == m[k] { assert !HasPair(m[k]); }
      assert n == m;
    }
  }
}
