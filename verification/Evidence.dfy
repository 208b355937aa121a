/** The evidence files of an attempt: the raw body bit by bit, and the attempt's and response's metadata as they read back. */
module Evidence {
  import opened Basics
  import opened Calendar
  import opened Json
  import opened JsonText
  import opened Frames
  import opened Protocol
  import opened RetryDelay
  import opened Retry
  import opened Bundles
  import Names
  import Wire
  import Adapter
  import RemoteRuns
  import RunRecords

  datatype EvidenceField =
    | AttemptNumber | RequestId | BrokerRequestId | Transport | HttpStatus | Session | ErrorCode | Capture | BodyLength | BodySha256
    | RetryPermitted | Reauthentication

  function FieldName(f: EvidenceField): string {
    match f
    case AttemptNumber => "attempt_number"
    case RequestId => "attempt_request_id"
    case BrokerRequestId => "broker_request_id"
    case Transport => "transport_status"
    case HttpStatus => "provider_http_status"
    case Session => "session_state"
    case ErrorCode => "error_code"
    case Capture => "capture_timestamp"
    case BodyLength => "body_length"
    case BodySha256 => "body_sha256"
    case RetryPermitted => "retry_permitted"
    case Reauthentication => "reauthentication_required"
  }

  ghost function FieldTag(f: EvidenceField): (t: (int, char, char))
    ensures Names.Tagged(FieldName(f), t.0, t.1, t.2)
  {
    match f
    case AttemptNumber => (14, 'a', 'r')
    case RequestId => (18, 'a', 'd')
    case BrokerRequestId => (17, 'b', 'd')
    case Transport => (16, 't', 's')
    case HttpStatus => (20, 'p', 's')
    case Session => (13, 's', 'e')
    case ErrorCode => (10, 'e', 'e')
    case Capture => (17, 'c', 'p')
    case BodyLength => (11, 'b', 'h')
    case BodySha256 => (11, 'b', '6')
    case RetryPermitted => (15, 'r', 'd')
    case Reauthentication => (25, 'r', 'd')
  }

  function Key(f: EvidenceField): Text { Lit(FieldName(f)) }

  lemma TagInjective(f: EvidenceField, g: EvidenceField)
    requires FieldTag(f) == FieldTag(g)
    ensures f == g
  {
    hide FieldName;
  }

  lemma KeyInjective(f: EvidenceField, g: EvidenceField)
    ensures Key(f) == Key(g) <==> f == g
  {
    var s, t := FieldTag(f), FieldTag(g);
    hide FieldName, FieldTag;
    if Key(f) == Key(g) {
      Names.SameTag(FieldName(f), FieldName(g));
      TagInjective(f, g);
    }
  }

  function Entries(fields: seq<EvidenceField>, value: EvidenceField -> Json): (ms: seq<Member>)
    ensures |ms| == |fields| && forall i :: 0 <= i < |ms| ==> ms[i] == Member(Key(fields[i]), value(fields[i]))
  {
    seq(|fields|, i requires 0 <= i < |fields| => Member(Key(fields[i]), value(fields[i])))
  }

  predicate Apart(fields: seq<EvidenceField>) { forall i, j :: 0 <= i < j < |fields| ==> fields[i] != fields[j] }

  /* ---------- one metadata file ---------- */

  // `_json`: the object on one line.
  function JsonFile(ms: seq<Member>): Content { Content(Payload(JObj(ms)) + [10]) }

  // The object in such a file.
  function ReadJson(content: Content): Option<seq<Member>> {
    var b := content.bytes;
    if b == [] || b[|b| - 1] != 10 then None
    else
      match Utf8(b[..|b| - 1])
      case None => None
      case Some(text) => Members(Loads(text))
  }

  function Members(j: Option<Json>): Option<seq<Member>> {
    match j
    case Some(JObj(ms)) => Some(ms)
    case _ => None
  }

  lemma JsonFileReads(ms: seq<Member>)
    requires Sound(JObj(ms))
    ensures ReadJson(JsonFile(ms)) == Some(Received(ms))
  {
    var text := Dumps(JObj(ms));
    DumpsAscii(JObj(ms));
    Utf8Ascii(text);
    LoadsDumps(JObj(ms));
    ReceivedIs(ms);
    hide Dumps, Loads, Utf8, Sound, Received, SortKeys, JoinJson, ToBytes;
    var b := Payload(JObj(ms));
    assert (b + [10])[..|b|] == b;
  }

  lemma ReceivedIs(ms: seq<Member>)
    ensures JoinJson(SortKeys(JObj(ms))) == JObj(Received(ms))
  {
    hide Sort, SortEach;
  }

  lemma EntriesSound(fields: seq<EvidenceField>, value: EvidenceField -> Json)
    requires Apart(fields) && forall f :: !value(f).JObj?
    ensures Sound(JObj(Entries(fields, value)))
  {
    hide Key, HasPair;
    var ms := Entries(fields, value);
    forall i, j | 0 <= i < j < |ms| ensures ms[i].key != ms[j].key { KeyInjective(fields[i], fields[j]); }
    forall i | 0 <= i < |ms| ensures !HasPair(ms[i].key) && Sound(ms[i].value) {
      KeyPlain(fields[i]);
      assert ms[i].value == value(fields[i]);
    }
  }

  lemma KeyPlain(f: EvidenceField)
    ensures !HasPair(Key(f))
  {
    Wire.LiteralHasNoPair(FieldName(f));
  }

  // What is read under each name.
  lemma FieldReads(fields: seq<EvidenceField>, value: EvidenceField -> Json, f: EvidenceField)
    requires Apart(fields) && f in fields && forall g :: !value(g).JObj?
    ensures Find(Received(Entries(fields, value)), Key(f)) == Some(JoinJson(value(f)))
  {
    hide Key, Received, JoinJson;
    EntriesSound(fields, value);
    var ms := Entries(fields, value);
    ReceivedFind(ms, Key(f));
    var i :| 0 <= i < |fields| && fields[i] == f;
    assert ms[i] in ms;
    FindMember(ms, Key(f), value(f));
  }

  /* ---------- the values ---------- */

  function OptionalText(t: Option<Text>): Json { if t.Some? then JStr(t.value) else JNull }

  function OptionalInt(n: Option<int>): Json { if n.Some? then JInt(n.value) else JNull }

  const ATTEMPT_FIELDS: seq<EvidenceField> :=
    [AttemptNumber, RequestId, BrokerRequestId, Transport, HttpStatus, Session, ErrorCode, Capture, BodyLength, BodySha256,
     RetryPermitted, Reauthentication]

  const RESPONSE_FIELDS: seq<EvidenceField> := [BodyLength, BodySha256, HttpStatus]

  // A response that exists has a real capture time.
  predicate RealCapture(response: Option<BrokerResponse>) { response.Some? ==> ValidStamp(response.value.capturedAt) }

  // `_response_metadata`: from the response where there is one, else from the attempt.
  function AttemptValue(a: AttemptRecord, response: Option<BrokerResponse>, f: EvidenceField): Json {
    match f
    case AttemptNumber => JInt(a.attemptNumber)
    case RequestId => JStr(a.requestId)
    case BrokerRequestId => if response.Some? then JStr(response.value.brokerRequestId) else OptionalText(a.brokerRequestId)
    case Transport =>
      if response.Some? then JStr(Names.TransportText(response.value.transportStatus))
      else if a.transportStatus.Some? then JStr(Names.TransportText(a.transportStatus.value)) else JNull
    case HttpStatus => OptionalInt(if response.Some? then response.value.providerHttpStatus else a.providerHttpStatus)
    case Session =>
      if response.Some? then JStr(Names.SessionText(response.value.sessionState))
      else if a.sessionState.Some? then JStr(Names.SessionText(a.sessionState.value)) else JNull
    case ErrorCode =>
      if response.Some? && response.value.errorCode.Some? then JStr(Names.ErrorText(response.value.errorCode.value))
      else if a.errorCode.Some? then JStr(Names.ErrorText(a.errorCode.value)) else JNull
    case Capture =>
      if response.Some? && ValidStamp(response.value.capturedAt) then JStr(IsoFormat(response.value.capturedAt)) else JNull
    case BodyLength => if response.Some? then JInt(response.value.bodyLength) else JNull
    case BodySha256 => if response.Some? then JStr(response.value.bodySha256) else JNull
    case RetryPermitted => JBool(a.retryPermitted)
    case Reauthentication => JBool(a.reauthenticationRequired)
  }

  function ResponseValue(r: BrokerResponse, f: EvidenceField): Json {
    match f
    case BodyLength => JInt(|r.body|)
    case BodySha256 => JStr(Sha256(r.body))
    case HttpStatus => OptionalInt(r.providerHttpStatus)
    case _ => JNull
  }

  function AttemptJson(a: AttemptRecord, response: Option<BrokerResponse>): Content {
    JsonFile(Entries(ATTEMPT_FIELDS, f => AttemptValue(a, response, f)))
  }

  function ResponseJson(r: BrokerResponse): Content { JsonFile(Entries(RESPONSE_FIELDS, f => ResponseValue(r, f))) }

  /* ---------- the files ---------- */

  // The contents that are left open: the request's metadata, and what is written about parsing and validation.
  datatype Reports = Reports(request: AttemptRecord -> Content, parse: BrokerResponse -> Content, validation: BrokerResponse -> Option<Content>)

  const BODY: Name := Name(Lit("response-body.bin"))
  const ATTEMPT: Name := Name(Lit("attempt-metadata.json"))
  const RESPONSE: Name := Name(Lit("response-metadata.json"))
  const REQUEST: Name := Name(Lit("request-metadata.json"))
  const PARSE: Name := Name(Lit("parse-result.json"))
  const VALIDATION: Name := Name(Lit("validation-result.json"))

  // `_expected_files`, in the order it fills its dict.
  function Files(x: Reports, a: AttemptRecord, response: Option<BrokerResponse>): seq<File> {
    [File(REQUEST, x.request(a)), File(ATTEMPT, AttemptJson(a, response))] +
    match response
    case None => []
    case Some(r) =>
      [File(BODY, Content(r.body)), File(RESPONSE, ResponseJson(r))] +
      if !Success2xx(r.providerHttpStatus) then []
      else [File(PARSE, x.parse(r))] + if x.validation(r).Some? then [File(VALIDATION, x.validation(r).value)] else []
  }

  lemma NamesDiffer()
    ensures |BODY.text| == 17 && |ATTEMPT.text| == 21 && |RESPONSE.text| == 22 && |REQUEST.text| == 21 && |PARSE.text| == 17
    ensures |VALIDATION.text| == 22 && |MANIFEST.text| == 13
    ensures BODY.text[0] == 114 && PARSE.text[0] == 112 && ATTEMPT.text[0] == 97 && REQUEST.text[0] == 114
    ensures RESPONSE.text[0] == 114 && VALIDATION.text[0] == 118
  {
  }

  lemma FilesGood(x: Reports, a: AttemptRecord, response: Option<BrokerResponse>)
    ensures Files(x, a, response) != [] && ValidFiles(Files(x, a, response))
  {
    NamesDiffer();
    hide Lit, BODY, ATTEMPT, RESPONSE, REQUEST, PARSE, VALIDATION, MANIFEST, AttemptJson, ResponseJson, Success2xx;
  }

  function Bundler(x: Reports): Adapter.Bundler { (a, r) => Files(x, a, r) }

  /** The publisher can be given these files: every attempt brings some, under different names, none of them the manifest's. */
  lemma BundlerGood(x: Reports)
    ensures Adapter.GoodBundler(Bundler(x))
  {
    hide Files, ValidFiles;
    forall a, r ensures Files(x, a, r) != [] && ValidFiles(Files(x, a, r)) { FilesGood(x, a, r); }
  }

  /** The complete directory of an attempt with a response holds that response's body, byte for byte, and its metadata. */
  lemma BundleHolds(x: Reports, a: AttemptRecord, r: BrokerResponse)
    ensures var dir := Bundle(Files(x, a, Some(r)));
            BODY in dir && dir[BODY] == Content(r.body) && ATTEMPT in dir && dir[ATTEMPT] == AttemptJson(a, Some(r)) &&
            RESPONSE in dir && dir[RESPONSE] == ResponseJson(r)
  {
    var files := Files(x, a, Some(r));
    FilesGood(x, a, Some(r));
    FilesHave(x, a, r);
    hide Files, BODY, ATTEMPT, RESPONSE, MANIFEST, AttemptJson, ResponseJson, Contents, Manifest, ValidFiles;
    ContentsHas(files, File(BODY, Content(r.body)));
    ContentsHas(files, File(ATTEMPT, AttemptJson(a, Some(r))));
    ContentsHas(files, File(RESPONSE, ResponseJson(r)));
  }

  lemma FilesHave(x: Reports, a: AttemptRecord, r: BrokerResponse)
    ensures var files := Files(x, a, Some(r));
            File(BODY, Content(r.body)) in files && File(ATTEMPT, AttemptJson(a, Some(r))) in files && File(RESPONSE, ResponseJson(r)) in files
  {
    hide Lit, BODY, ATTEMPT, RESPONSE, REQUEST, PARSE, VALIDATION, AttemptJson, ResponseJson, Success2xx;
    var files := Files(x, a, Some(r));
    assert files[1] == File(ATTEMPT, AttemptJson(a, Some(r))) && files[2] == File(BODY, Content(r.body)) && files[3] == File(RESPONSE, ResponseJson(r));
  }

  /* ---------- what the metadata says ---------- */

  lemma FieldsApart()
    ensures Apart(ATTEMPT_FIELDS) && Apart(RESPONSE_FIELDS)
    ensures BodyLength in RESPONSE_FIELDS && BodySha256 in RESPONSE_FIELDS && HttpStatus in RESPONSE_FIELDS
  {
    AttemptFieldsApart();
    assert RESPONSE_FIELDS[0] == BodyLength && RESPONSE_FIELDS[1] == BodySha256 && RESPONSE_FIELDS[2] == HttpStatus;
    hide ATTEMPT_FIELDS;
  }

  lemma AttemptFieldsApart()
    ensures Apart(ATTEMPT_FIELDS)
  {
    hide ATTEMPT_FIELDS;
    forall i, j | 0 <= i < j < |ATTEMPT_FIELDS| ensures ATTEMPT_FIELDS[i] != ATTEMPT_FIELDS[j] {
      PositionAt(i);
      PositionAt(j);
    }
  }

  lemma PositionAt(i: int)
    requires 0 <= i < |ATTEMPT_FIELDS|
    ensures Position(ATTEMPT_FIELDS[i]) == i
  {
  }

  lemma FieldPresent(f: EvidenceField)
    ensures f in ATTEMPT_FIELDS
  {
    hide ATTEMPT_FIELDS;
    assert ATTEMPT_FIELDS[Position(f)] == f;
  }

  ghost function Position(f: EvidenceField): (i: nat)
    ensures i < |ATTEMPT_FIELDS| && ATTEMPT_FIELDS[i] == f
  {
    match f
    case AttemptNumber => 0
    case RequestId => 1
    case BrokerRequestId => 2
    case Transport => 3
    case HttpStatus => 4
    case Session => 5
    case ErrorCode => 6
    case Capture => 7
    case BodyLength => 8
    case BodySha256 => 9
    case RetryPermitted => 10
    case Reauthentication => 11
  }

  predicate Has(ms: seq<Member>, key: string, value: Json) { Find(ms, Lit(key)) == Some(value) }

  // The response's length, hash and status, as numbers and text.
  predicate ResponseSays(r: BrokerResponse, ms: seq<Member>) {
    |ms| == 3 && Has(ms, "body_length", JInt(|r.body|)) && Has(ms, "body_sha256", JStr(Sha256(r.body))) &&
    Has(ms, "provider_http_status", OptionalInt(r.providerHttpStatus))
  }

  lemma HexPlain(t: Text)
    requires HexDigest(t)
    ensures Join(t) == t
  {
    JoinIdentity(t);
  }

  /** `response-metadata.json` reads back as the body's length and SHA-256 and the HTTP status, and no more. */
  lemma ResponseJsonSays(r: BrokerResponse)
    ensures ReadJson(ResponseJson(r)).Some? && ResponseSays(r, ReadJson(ResponseJson(r)).value)
  {
    var value := f => ResponseValue(r, f);
    FieldsApart();
    HexPlain(Sha256(r.body));
    hide RESPONSE_FIELDS, Lit, HexDigest, Join;
    EntriesSound(RESPONSE_FIELDS, value);
    JsonFileReads(Entries(RESPONSE_FIELDS, value));
    FieldReads(RESPONSE_FIELDS, value, BodyLength);
    FieldReads(RESPONSE_FIELDS, value, BodySha256);
    FieldReads(RESPONSE_FIELDS, value, HttpStatus);
    hide ReadJson, JsonFile, Received, Find, Entries;
    assert |Received(Entries(RESPONSE_FIELDS, value))| == 3 by { ReceivedLength(value); }
  }

  lemma ReceivedLength(value: EvidenceField -> Json)
    ensures |Received(Entries(RESPONSE_FIELDS, value))| == 3
  {
    hide Lit, Sort, SortEach;
  }

  // The attempt's identity, code and flags as the record has them.
  predicate AttemptSays(a: AttemptRecord, ms: seq<Member>) {
    Has(ms, "attempt_number", JInt(a.attemptNumber)) && Has(ms, "attempt_request_id", JStr(Join(a.requestId))) &&
    Has(ms, "provider_http_status", OptionalInt(a.providerHttpStatus)) &&
    Has(ms, "error_code", if a.errorCode.Some? then JStr(Lit(Names.ErrorName(a.errorCode.value))) else JNull) &&
    Has(ms, "body_length", OptionalInt(a.bodyLength)) &&
    Has(ms, "body_sha256", if a.bodySha256.Some? then JStr(Join(a.bodySha256.value)) else JNull) &&
    Has(ms, "retry_permitted", JBool(a.retryPermitted)) && Has(ms, "reauthentication_required", JBool(a.reauthenticationRequired))
  }

  // How the call went, and when the response was captured.
  predicate TransportSays(a: AttemptRecord, response: Option<BrokerResponse>, ms: seq<Member>) {
    Has(ms, "broker_request_id", if a.brokerRequestId.Some? then JStr(Join(a.brokerRequestId.value)) else JNull) &&
    Has(ms, "transport_status", if a.transportStatus.Some? then JStr(Lit(Names.TransportName(a.transportStatus.value))) else JNull) &&
    Has(ms, "session_state", if a.sessionState.Some? then JStr(Lit(Names.SessionName(a.sessionState.value))) else JNull) &&
    Has(ms, "capture_timestamp",
        if response.Some? && ValidStamp(response.value.capturedAt) then JStr(IsoFormat(response.value.capturedAt)) else JNull)
  }

  // Record and response agree, as they do in every run.
  predicate Agrees(a: AttemptRecord, response: Option<BrokerResponse>) {
    match response
    case None => a.providerHttpStatus.None? && a.bodyLength.None? && a.bodySha256.None?
    case Some(r) =>
      a.providerHttpStatus == r.providerHttpStatus && a.errorCode == r.errorCode && a.bodyLength == Some(r.bodyLength) &&
      a.bodySha256 == Some(r.bodySha256) && a.brokerRequestId == Some(r.brokerRequestId) &&
      a.transportStatus == Some(r.transportStatus) && a.sessionState == Some(r.sessionState)
  }

  lemma AttemptValues(a: AttemptRecord, response: Option<BrokerResponse>)
    requires Agrees(a, response)
    ensures AttemptValue(a, response, AttemptNumber) == JInt(a.attemptNumber) && AttemptValue(a, response, RequestId) == JStr(a.requestId)
    ensures AttemptValue(a, response, HttpStatus) == OptionalInt(a.providerHttpStatus)
    ensures AttemptValue(a, response, ErrorCode) == if a.errorCode.Some? then JStr(Names.ErrorText(a.errorCode.value)) else JNull
    ensures AttemptValue(a, response, BodyLength) == OptionalInt(a.bodyLength) && AttemptValue(a, response, BodySha256) == OptionalText(a.bodySha256)
    ensures AttemptValue(a, response, RetryPermitted) == JBool(a.retryPermitted)
    ensures AttemptValue(a, response, Reauthentication) == JBool(a.reauthenticationRequired)
  {
    hide Names.ErrorText, ValidStamp, IsoFormat;
  }

  lemma ErrorPlain(c: BrokerErrorCode)
    ensures Join(Names.ErrorText(c)) == Names.ErrorText(c)
  {
    Wire.LiteralHasNoPair(Names.ErrorName(c));
    JoinIdentity(Names.ErrorText(c));
  }

  // What is read under a name of the attempt's metadata.
  lemma AttemptReads(value: EvidenceField -> Json, f: EvidenceField)
    requires forall g :: !value(g).JObj?
    ensures Find(Received(Entries(ATTEMPT_FIELDS, value)), Key(f)) == Some(JoinJson(value(f)))
  {
    hide ATTEMPT_FIELDS, Key, Received, JoinJson, Find, Entries;
    AttemptFieldsApart();
    FieldPresent(f);
    FieldReads(ATTEMPT_FIELDS, value, f);
  }

  // The other values.
  lemma TransportValues(a: AttemptRecord, response: Option<BrokerResponse>)
    requires Agrees(a, response)
    ensures AttemptValue(a, response, BrokerRequestId) == OptionalText(a.brokerRequestId)
    ensures AttemptValue(a, response, Transport) == if a.transportStatus.Some? then JStr(Names.TransportText(a.transportStatus.value)) else JNull
    ensures AttemptValue(a, response, Session) == if a.sessionState.Some? then JStr(Names.SessionText(a.sessionState.value)) else JNull
  {
    hide Names.TransportText, Names.SessionText, ValidStamp, IsoFormat;
  }

  lemma CaptureValue(a: AttemptRecord, response: Option<BrokerResponse>)
    ensures JoinJson(AttemptValue(a, response, Capture)) ==
            if response.Some? && ValidStamp(response.value.capturedAt) then JStr(IsoFormat(response.value.capturedAt)) else JNull
  {
    if response.Some? && ValidStamp(response.value.capturedAt) {
      Wire.IsoFormatChars(response.value.capturedAt);
      hide IsoFormat, ValidStamp;
      Wire.AsciiJoin(IsoFormat(response.value.capturedAt));
      hide Join;
    }
    hide IsoFormat, ValidStamp;
  }

  lemma NamePlain(s: string)
    ensures Join(Lit(s)) == Lit(s)
  {
    Wire.LiteralHasNoPair(s);
    JoinIdentity(Lit(s));
  }

  lemma TransportEntries(a: AttemptRecord, response: Option<BrokerResponse>, value: EvidenceField -> Json)
    requires Agrees(a, response) && (forall f :: value(f) == AttemptValue(a, response, f)) && forall f :: !value(f).JObj?
    ensures TransportSays(a, response, Received(Entries(ATTEMPT_FIELDS, value)))
  {
    hide ATTEMPT_FIELDS, Lit, Join, AttemptValue, Received, Find, Entries, IsoFormat, ValidStamp;
    TransportValues(a, response);
    CaptureValue(a, response);
    if a.transportStatus.Some? { NamePlain(Names.TransportName(a.transportStatus.value)); }
    if a.sessionState.Some? { NamePlain(Names.SessionName(a.sessionState.value)); }
    hide Names.TransportName, Names.SessionName;
    AttemptReads(value, BrokerRequestId);
    AttemptReads(value, Transport);
    AttemptReads(value, Session);
    AttemptReads(value, Capture);
  }

  /** `attempt-metadata.json` reads back as the record: its number, ids, transport, status, session, error code, capture time, body
      length and hash, and flags. */
  lemma AttemptJsonSays(a: AttemptRecord, response: Option<BrokerResponse>)
    requires Agrees(a, response)
    ensures ReadJson(AttemptJson(a, response)).Some? && AttemptSays(a, ReadJson(AttemptJson(a, response)).value)
    ensures TransportSays(a, response, ReadJson(AttemptJson(a, response)).value)
  {
    var value := f => AttemptValue(a, response, f);
    var ms := Entries(ATTEMPT_FIELDS, value);
    forall f ensures !value(f).JObj? { FlatValue(a, response, f); }
    AttemptEntries(a, response, value);
    TransportEntries(a, response, value);
    hide ATTEMPT_FIELDS, Lit, Join, AttemptValue, Names.ErrorName, ReadJson, JsonFile, Received, Find, Entries, AttemptSays, TransportSays, Key;
    AttemptFieldsApart();
    EntriesSound(ATTEMPT_FIELDS, value);
    JsonFileReads(ms);
  }

  lemma AttemptEntries(a: AttemptRecord, response: Option<BrokerResponse>, value: EvidenceField -> Json)
    requires Agrees(a, response) && (forall f :: value(f) == AttemptValue(a, response, f)) && forall f :: !value(f).JObj?
    ensures AttemptSays(a, Received(Entries(ATTEMPT_FIELDS, value)))
  {
    hide ATTEMPT_FIELDS, Lit, Join, AttemptValue, Names.ErrorName, Received, Find, Entries, AttemptSays, Key;
    AttemptValues(a, response);
    if a.errorCode.Some? { ErrorPlain(a.errorCode.value); }
    AttemptReads(value, AttemptNumber);
    AttemptReads(value, RequestId);
    AttemptReads(value, HttpStatus);
    AttemptReads(value, ErrorCode);
    AttemptReads(value, BodyLength);
    AttemptReads(value, BodySha256);
    AttemptReads(value, RetryPermitted);
    AttemptReads(value, Reauthentication);
    AttemptFound(a, Received(Entries(ATTEMPT_FIELDS, value)));
  }

  lemma FlatValue(a: AttemptRecord, response: Option<BrokerResponse>, f: EvidenceField)
    ensures !AttemptValue(a, response, f).JObj?
  {
    hide Names.ErrorText, Names.TransportText, Names.SessionText, ValidStamp, IsoFormat;
  }

  lemma AttemptFound(a: AttemptRecord, ms: seq<Member>)
    requires Find(ms, Key(AttemptNumber)) == Some(JInt(a.attemptNumber)) && Find(ms, Key(RequestId)) == Some(JoinJson(JStr(a.requestId)))
    requires Find(ms, Key(HttpStatus)) == Some(JoinJson(OptionalInt(a.providerHttpStatus)))
    requires Find(ms, Key(ErrorCode)) == Some(JoinJson(if a.errorCode.Some? then JStr(Names.ErrorText(a.errorCode.value)) else JNull))
    requires a.errorCode.Some? ==> Join(Names.ErrorText(a.errorCode.value)) == Names.ErrorText(a.errorCode.value)
    requires Find(ms, Key(BodyLength)) == Some(JoinJson(OptionalInt(a.bodyLength)))
    requires Find(ms, Key(BodySha256)) == Some(JoinJson(OptionalText(a.bodySha256)))
    requires Find(ms, Key(RetryPermitted)) == Some(JBool(a.retryPermitted))
    requires Find(ms, Key(Reauthentication)) == Some(JBool(a.reauthenticationRequired))
    ensures AttemptSays(a, ms)
  {
    hide Lit, Join, Names.ErrorName, Find;
  }

  /* ---------- a whole run ---------- */

  /** Every body the broker delivered to a run stands, byte for byte, in the complete directory of its attempt; beside it the
      record of that attempt and the body's length and hash read back. */
  lemma BodiesKept(x: Reports, planned: Planned, p: RetryPolicy, e: Surroundings, k: int)
    requires ValidPolicy(p) && WellTypedBroker(e) && Adapter.AdapterRun(planned, p, e).Returned?
    requires 0 <= k < |RemoteRuns.StepsTaken(planned, p, e.(observerAccepts := n => true))|
    requires RemoteRuns.StepsTaken(planned, p, e.(observerAccepts := n => true))[k].step.Respond?
    ensures var o := Adapter.AdapterRun(planned, p, e);
            var r := RemoteRuns.StepsTaken(planned, p, e.(observerAccepts := n => true))[k].step.response;
            k < |o.result.history| &&
            var dir := Bundle(Adapter.FilesAt(Bundler(x), o.result, Adapter.ObservedMap(o.observed), k));
            BODY in dir && dir[BODY] == Content(r.body) &&
            RESPONSE in dir && ReadJson(dir[RESPONSE]).Some? && ResponseSays(r, ReadJson(dir[RESPONSE]).value) &&
            ATTEMPT in dir && ReadJson(dir[ATTEMPT]).Some? && AttemptSays(o.result.history[k], ReadJson(dir[ATTEMPT]).value) &&
            TransportSays(o.result.history[k], Some(r), ReadJson(dir[ATTEMPT]).value)
  {
    hide *;
    var f := e.(observerAccepts := n => true);
    var o := Adapter.AdapterRun(planned, p, e);
    AdapterRunIs(planned, p, e);
    RunRecords.RunRecords(planned, p, f);
    var t := RemoteRuns.StepsTaken(planned, p, f)[k];
    StepKept(p, f, k, t, o.result, o.observed);
    Adapter.AdapterRunFacts(planned, p, e);
    Adapter.ResponseIs(planned, p, o.result, o.observed, k);
    FilesAre(x, o.result, o.observed, k, Some(t.step.response));
    BundleHolds(x, o.result.history[k], t.step.response);
    ResponseJsonSays(t.step.response);
    AttemptJsonSays(o.result.history[k], Some(t.step.response));
  }

  lemma AdapterRunIs(planned: Planned, p: RetryPolicy, e: Surroundings)
    requires WellTypedBroker(e)
    ensures Adapter.AdapterRun(planned, p, e) == Run(planned, p, e.(observerAccepts := n => true))
    ensures WellTypedBroker(e.(observerAccepts := n => true))
  {
    hide RunFrom, WellTyped;
  }

  lemma StepKept(p: RetryPolicy, e: Surroundings, k: nat, t: RemoteRuns.Taken, b: BudgetedResult, observed: seq<(AttemptRecord, Option<BrokerResponse>)>)
    requires RunRecords.RecordAt(p, e, k, t, b, observed) && t.step.Respond?
    ensures k < |b.history| && k < |observed| && observed[k].1 == Some(t.step.response) && Agrees(b.history[k], Some(t.step.response))
  {
    hide RunRecords.Retried, RunRecords.Last;
  }

  lemma FilesAre(x: Reports, b: BudgetedResult, observed: seq<(AttemptRecord, Option<BrokerResponse>)>, k: nat, response: Option<BrokerResponse>)
    requires k < |b.history| && Adapter.ResponseAt(b, observed, k) == response
    ensures Adapter.FilesAt(Bundler(x), b, Adapter.ObservedMap(observed), k) == Files(x, b.history[k], response)
  {
    hide Files, Adapter.ObservedMap;
  }
}
