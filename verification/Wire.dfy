/** Requests and responses as frames: encode, strict decode, and what survives the trip. */
module Wire {
  import opened Basics
  import opened Calendar
  import opened Json
  import opened JsonText
  import opened Protocol
  import opened Names
  import opened Frames

  /* ---------- objects with the protocol's field names ---------- */

  const REQUEST_FIELDS: seq<Field> :=
    [ProtocolVersion, RequestId, InstrumentToken, Interval, FromTimestamp, ToTimestamp, Continuous, OpenInterest]

  const RESPONSE_FIELDS: seq<Field> :=
    [ProtocolVersion, RequestId, BrokerRequestId, Transport, ProviderHttpStatus, Session, CapturedAt,
     BodyBase64, BodyLength, BodySha256, Truncated, RetryAfterSeconds, ErrorCode, AuditMetadata]

  predicate NoRepeats(fields: seq<Field>) { forall i, j :: 0 <= i < j < |fields| ==> fields[i] != fields[j] }

  function Object(fields: seq<Field>, value: Field -> Json): (ms: seq<Member>)
    ensures |ms| == |fields|
    ensures forall i :: 0 <= i < |ms| ==> ms[i] == Member(Key(fields[i]), value(fields[i]))
  {
    seq(|fields|, i requires 0 <= i < |fields| => Member(Key(fields[i]), value(fields[i])))
  }

  function KeySet(fields: seq<Field>): set<Text> { set f | f in fields :: Key(f) }

  lemma ObjectFind(fields: seq<Field>, value: Field -> Json, f: Field)
    requires NoRepeats(fields) && f in fields
    ensures Distinct(Object(fields, value))
    ensures Find(Object(fields, value), Key(f)) == Some(value(f))
    ensures Keys(Object(fields, value)) == KeySet(fields)
  {
    var ms := Object(fields, value);
    forall i, j | 0 <= i < j < |ms| ensures ms[i].key != ms[j].key { KeyInjective(fields[i], fields[j]); }
    hide Key;
    var k :| 0 <= k < |fields| && fields[k] == f;
    assert ms[k] in ms;
    FindMember(ms, Key(f), value(f));
    forall t ensures t in Keys(ms) <==> t in KeySet(fields) {
      if m :| m in ms && m.key == t { var i :| 0 <= i < |ms| && ms[i] == m; assert fields[i] in fields; }
      if g :| g in fields && Key(g) == t { var i :| 0 <= i < |fields| && fields[i] == g; assert ms[i] in ms; }
    }
  }

  // A Dafny char is never a surrogate.
  lemma LiteralHasNoPair(s: string)
    ensures !HasPair(Lit(s))
  {
  }

  lemma ObjectSound(fields: seq<Field>, value: Field -> Json)
    requires NoRepeats(fields) && fields != [] && forall f :: f in fields ==> Sound(value(f))
    ensures Sound(JObj(Object(fields, value)))
  {
    var ms := Object(fields, value);
    ObjectFind(fields, value, fields[0]);
    forall i | 0 <= i < |ms| ensures !HasPair(ms[i].key) && Sound(ms[i].value) {
      LiteralHasNoPair(FieldName(fields[i]));
      assert fields[i] in fields;
    }
  }

  /** What arrives under a field name is the value sent under it, texts joined. */
  lemma ReceivedField(fields: seq<Field>, value: Field -> Json, f: Field)
    requires NoRepeats(fields) && f in fields && forall g :: g in fields ==> Sound(value(g))
    ensures Keys(Received(Object(fields, value))) == KeySet(fields)
    ensures Find(Received(Object(fields, value)), Key(f)) == Some(JoinJson(SortKeys(value(f))))
  {
    ObjectSound(fields, value);
    ObjectFind(fields, value, f);
    ReceivedFind(Object(fields, value), Key(f));
  }

  // `value[key]` once the key set has been checked.
  function Get(ms: seq<Member>, f: Field): Json {
    match Find(ms, Key(f))
    case None => JNull
    case Some(j) => j
  }

  /* ---------- requests ---------- */

  function RequestValue(q: CandleRequest, f: Field): Json
    requires ValidRequest(q)
  {
    match f
    case ProtocolVersion => JInt(q.protocolVersion)
    case RequestId => JStr(q.requestId)
    case InstrumentToken => JStr(q.instrumentToken)
    case Interval => JStr(q.interval)
    case FromTimestamp => JStr(IsoFormat(q.fromTimestamp))
    case ToTimestamp => JStr(IsoFormat(q.toTimestamp))
    case Continuous => JBool(q.continuous)
    case OpenInterest => JBool(q.oi)
    case _ => JNull
  }

  function RequestMembers(q: CandleRequest): seq<Member>
    requires ValidRequest(q)
  {
    Object(REQUEST_FIELDS, f => RequestValue(q, f))
  }

  function EncodeRequest(q: CandleRequest): Result<Bytes, BrokerErrorCode>
    requires ValidRequest(q)
  {
    EncodeFrame(JObj(RequestMembers(q)), MAX_REQUEST_PAYLOAD)
  }

  function IsoOf(j: Json): Option<Stamp> { if j.JStr? then ParseIso(j.text) else None }

  // `cls(...)` on the decoded values, whatever their JSON types are.
  function RequestFromValues(version: Json, id: Json, token: Json, interval: Json,
                             start: Stamp, end: Stamp, continuous: Json, oi: Json)
    : Result<CandleRequest, RequestFault>
  {
    if version != JInt(1) then Err(Typed(ProtocolVersionMismatch))
    else if !id.JStr? || !CanonicalUuid(id.text) then Err(Typed(MalformedClientRequest))
    else if !token.JStr? || !PositiveDigits(token.text) then Err(Typed(MalformedClientRequest))
    else if interval != JStr(Lit("minute")) then Err(Typed(UnsupportedInterval))
    else if continuous != JBool(false) || !oi.JBool? then Err(Typed(MalformedClientRequest))
    else MakeRequest(CandleRequest(1, id.text, token.text, Lit("minute"), start, end, false, oi.b))
  }

  /** `CandleRequest.from_mapping`. */
  function RequestFromMembers(ms: seq<Member>): Result<CandleRequest, RequestFault> {
    if Keys(ms) != KeySet(REQUEST_FIELDS) then Err(Typed(MalformedClientRequest)) else
      match (IsoOf(Get(ms, FromTimestamp)), IsoOf(Get(ms, ToTimestamp)))
      case (Some(start), Some(end)) =>
        RequestFromValues(Get(ms, ProtocolVersion), Get(ms, RequestId), Get(ms, InstrumentToken), Get(ms, Interval),
                          start, end, Get(ms, Continuous), Get(ms, OpenInterest))
      case _ => Err(Typed(InvalidDateWindow))
  }

  function DecodeRequest(frame: Bytes): Result<CandleRequest, RequestFault> {
    match DecodeFrame(frame, MAX_REQUEST_PAYLOAD)
    case None => Err(Typed(MalformedClientRequest))
    case Some(ms) => RequestFromMembers(ms)
  }

  lemma AsciiJoin(t: Text)
    requires forall i :: 0 <= i < |t| ==> t[i] < 0x80
    ensures Join(t) == t
  {
    JoinIdentity(t);
  }

  lemma {:induction false} FixedAscii(n: nat, width: nat)
    ensures forall i :: 0 <= i < width ==> 48 <= PrintFixed(n, width)[i] <= 57
  {
    if width > 0 { FixedAscii(n / 10, width - 1); }
  }

  // Every character of an ISO time is a digit, '-', ':', 'T', '.' or '+'; never a 'Z'.
  ghost predicate IsoChars(t: Text) { forall i :: 0 <= i < |t| ==> t[i] < 0x5A }

  lemma IsoSecondsChars(local: int)
    requires 0 <= local < MAX_LOCAL
    ensures IsoChars(IsoSeconds(local))
  {
    hide DateOf, PrintFixed;
    var d, s := DateOf(local / DAY), local % DAY / MICROS;
    FixedAscii(d.year, 4);
    FixedAscii(d.month, 2);
    FixedAscii(d.day, 2);
    FixedAscii(s / 3600, 2);
    FixedAscii(s / 60 % 60, 2);
    FixedAscii(s % 60, 2);
  }

  lemma IsoLocalChars(local: int)
    requires 0 <= local < MAX_LOCAL
    ensures IsoChars(IsoLocal(local))
  {
    hide IsoSeconds, PrintFixed;
    IsoSecondsChars(local);
    FixedAscii(local % MICROS, 6);
  }

  lemma IsoFormatChars(s: Stamp)
    requires ValidStamp(s)
    ensures IsoChars(IsoFormat(s))
  {
    hide IsoLocal, PrintFixed;
    IsoLocalChars(s.local);
    var m := (if s.offset < 0 then -s.offset else s.offset) / 60;
    FixedAscii(m / 60, 2);
    FixedAscii(m % 60, 2);
  }

  lemma RequestTexts(q: CandleRequest)
    requires ValidRequest(q)
    ensures Join(q.requestId) == q.requestId && Join(q.instrumentToken) == q.instrumentToken
    ensures Join(q.interval) == q.interval
    ensures Join(IsoFormat(q.fromTimestamp)) == IsoFormat(q.fromTimestamp)
    ensures Join(IsoFormat(q.toTimestamp)) == IsoFormat(q.toTimestamp)
  {
    IsoFormatChars(q.fromTimestamp);
    IsoFormatChars(q.toTimestamp);
    hide IsoFormat, Join;
    AsciiJoin(q.requestId);
    AsciiJoin(q.instrumentToken);
    AsciiJoin(q.interval);
    AsciiJoin(IsoFormat(q.fromTimestamp));
    AsciiJoin(IsoFormat(q.toTimestamp));
  }

  lemma RequestValueStable(q: CandleRequest, f: Field)
    requires ValidRequest(q)
    ensures JoinJson(SortKeys(RequestValue(q, f))) == RequestValue(q, f)
    ensures Sound(RequestValue(q, f))
  {
    RequestTexts(q);
    hide Join, IsoFormat, ValidRequest;
  }

  lemma RequestArrives(q: CandleRequest, f: Field)
    requires ValidRequest(q) && f in REQUEST_FIELDS
    ensures Keys(Received(RequestMembers(q))) == KeySet(REQUEST_FIELDS)
    ensures Get(Received(RequestMembers(q)), f) == RequestValue(q, f)
  {
    assert NoRepeats(REQUEST_FIELDS);
    hide Received, KeySet, ValidRequest, RequestValue, JoinJson, SortKeys, Sound, REQUEST_FIELDS, Object, NoRepeats;
    forall g { RequestValueStable(q, g); }
    ReceivedField(REQUEST_FIELDS, g => RequestValue(q, g), f);
  }

  lemma RequestRebuilt(q: CandleRequest)
    requires ValidRequest(q)
    ensures RequestFromValues(JInt(q.protocolVersion), JStr(q.requestId), JStr(q.instrumentToken), JStr(q.interval),
                              q.fromTimestamp, q.toTimestamp, JBool(q.continuous), JBool(q.oi)) == Ok(q)
  {
    MakeRequestValid(q);
    assert q == CandleRequest(1, q.requestId, q.instrumentToken, Lit("minute"), q.fromTimestamp, q.toTimestamp, false, q.oi);
    hide MakeRequest, CanonicalUuid, PositiveDigits;
  }

  lemma RequestTimesRebuilt(q: CandleRequest)
    requires ValidRequest(q)
    ensures IsoOf(JStr(IsoFormat(q.fromTimestamp))) == Some(q.fromTimestamp)
    ensures IsoOf(JStr(IsoFormat(q.toTimestamp))) == Some(q.toTimestamp)
  {
    hide ParseIso, IsoFormat;
    ParseIsoFormat(q.fromTimestamp);
    ParseIsoFormat(q.toTimestamp);
  }

  // The decoder on a dict whose entries are those of `q`.
  lemma RequestFromArrived(q: CandleRequest, ms: seq<Member>)
    requires ValidRequest(q) && Keys(ms) == KeySet(REQUEST_FIELDS)
    requires Get(ms, ProtocolVersion) == JInt(q.protocolVersion) && Get(ms, RequestId) == JStr(q.requestId)
    requires Get(ms, InstrumentToken) == JStr(q.instrumentToken) && Get(ms, Interval) == JStr(q.interval)
    requires Get(ms, FromTimestamp) == JStr(IsoFormat(q.fromTimestamp))
    requires Get(ms, ToTimestamp) == JStr(IsoFormat(q.toTimestamp))
    requires Get(ms, Continuous) == JBool(q.continuous) && Get(ms, OpenInterest) == JBool(q.oi)
    ensures RequestFromMembers(ms) == Ok(q)
  {
    hide IsoOf, IsoFormat, Get, ValidRequest, RequestFromValues, KeySet, Keys;
    RequestTimesRebuilt(q);
    RequestRebuilt(q);
  }

  /** `decode_request(encode_request(q)) == q` whenever the frame fits. */
  lemma DecodeEncodeRequest(q: CandleRequest)
    requires ValidRequest(q) && EncodeRequest(q).Ok?
    ensures DecodeRequest(EncodeRequest(q).value) == Ok(q)
  {
    hide RequestFromMembers, Received, RequestMembers, DecodeFrame, KeySet, EncodeFrame, ValidRequest, Get, RequestValue, Sound, Keys, REQUEST_FIELDS;
    var ms := RequestMembers(q);
    RequestSound(q);
    DecodeEncodeFrame(ms, MAX_REQUEST_PAYLOAD);
    FieldsPresent();
    RequestArrives(q, ProtocolVersion);
    RequestArrives(q, RequestId);
    RequestArrives(q, InstrumentToken);
    RequestArrives(q, Interval);
    RequestArrives(q, FromTimestamp);
    RequestArrives(q, ToTimestamp);
    RequestArrives(q, Continuous);
    RequestArrives(q, OpenInterest);
    RequestEntries(q);
    RequestFromArrived(q, Received(ms));
  }

  lemma RequestEntries(q: CandleRequest)
    requires ValidRequest(q)
    ensures RequestValue(q, ProtocolVersion) == JInt(q.protocolVersion)
    ensures RequestValue(q, RequestId) == JStr(q.requestId)
    ensures RequestValue(q, InstrumentToken) == JStr(q.instrumentToken)
    ensures RequestValue(q, Interval) == JStr(q.interval)
    ensures RequestValue(q, FromTimestamp) == JStr(IsoFormat(q.fromTimestamp))
    ensures RequestValue(q, ToTimestamp) == JStr(IsoFormat(q.toTimestamp))
    ensures RequestValue(q, Continuous) == JBool(q.continuous)
    ensures RequestValue(q, OpenInterest) == JBool(q.oi)
  {
    hide IsoFormat;
  }

  lemma FieldsPresent()
    ensures forall f :: f in REQUEST_FIELDS <==>
      f.ProtocolVersion? || f.RequestId? || f.InstrumentToken? || f.Interval? ||
      f.FromTimestamp? || f.ToTimestamp? || f.Continuous? || f.OpenInterest?
  {
    var r := REQUEST_FIELDS;
    assert r[0] == ProtocolVersion && r[1] == RequestId && r[2] == InstrumentToken && r[3] == Interval;
    assert r[4] == FromTimestamp && r[5] == ToTimestamp && r[6] == Continuous && r[7] == OpenInterest;
  }

  lemma RequestSound(q: CandleRequest)
    requires ValidRequest(q)
    ensures Sound(JObj(RequestMembers(q)))
  {
    hide IsoFormat, ValidRequest;
    ObjectSound(REQUEST_FIELDS, f => RequestValue(q, f));
  }
}
