/** Every response a broker can build fits its frame, given a bound on the audit metadata. */
module WireSize {
  import opened Basics
  import opened Calendar
  import opened Json
  import opened JsonText
  import opened Protocol
  import opened Names
  import opened Wire
  import opened WireResponse
  import Base64
  import Rounding

  /* ---------- sorting changes no length ---------- */

  // Characters of the entries, and one comma between each two.
  function Extent(ms: seq<Member>): int {
    if ms == [] then 0 else |PrintMember(ms[0])| + 1 + Extent(ms[1..])
  }

  lemma {:induction false} PrintExtent(ms: seq<Member>)
    ensures |PrintMembers(ms)| == if ms == [] then 0 else Extent(ms) - 1
  {
    hide PrintMember;
    if ms != [] { PrintExtent(ms[1..]); }
  }

  lemma {:induction false} InsertExtent(m: Member, ms: seq<Member>)
    ensures Extent(Insert(m, ms)) == |PrintMember(m)| + 1 + Extent(ms)
  {
    hide PrintMember;
    if ms == [] || !Less(ms[0].key, m.key) {
      Cons(m, ms);
    } else {
      InsertExtent(m, ms[1..]);
      Cons(ms[0], Insert(m, ms[1..]));
    }
  }

  lemma {:induction false} SortExtent(ms: seq<Member>)
    ensures Extent(Sort(ms)) == Extent(ms)
  {
    hide PrintMember;
    if ms != [] {
      SortExtent(ms[1..]);
      InsertExtent(ms[0], Sort(ms[1..]));
    }
  }

  lemma {:induction false} SortKeysLength(j: Json)
    ensures |Print(SortKeys(j))| == |Print(j)|
    decreases j, 1
  {
    if j.JObj? {
      var each := SortEach(j.members);
      EachExtent(j.members);
      SortExtent(each);
      PrintExtent(Sort(each));
      PrintExtent(j.members);
      hide PrintMembers, Extent, Sort;
      assert each == [] <==> Sort(each) == [];
    }
  }

  lemma {:induction false} EachExtent(ms: seq<Member>)
    ensures Extent(SortEach(ms)) == Extent(ms)
    decreases ms, 0
  {
    if ms != [] {
      SortKeysLength(ms[0].value);
      EachExtent(ms[1..]);
      assert SortEach(ms)[1..] == SortEach(ms[1..]);
      hide Print, SortKeys, Escape;
    }
  }

  lemma DumpsLength(ms: seq<Member>)
    ensures |Dumps(JObj(ms))| == |PrintMembers(ms)| + 2
    ensures |Dumps(JObj(ms))| <= Extent(ms) + 2
  {
    SortKeysLength(JObj(ms));
    PrintExtent(ms);
    hide PrintMembers, SortKeys;
  }

  /* ---------- bounds on the single fields ---------- */

  // The integers of a response: a version, a status, a length, a delay.
  lemma IntLength(n: int)
    requires 0 <= n < 100_000_000
    ensures |Print(JInt(n))| <= 8
  {
    assert Pow10(4) == 10_000 by { assert Pow10(2) == 100; }
    assert Pow10(8) == 100_000_000 by { assert Pow10(6) == 1_000_000; }
    Rounding.DigitCount(n, 8);
  }

  lemma {:induction false} PlainEscape(t: Text)
    requires forall i :: 0 <= i < |t| ==> 32 < t[i] < 127 && t[i] != 34 && t[i] != 92
    ensures Escape(t) == t
  {
    if t != [] {
      PlainEscape(t[1..]);
      HeadTail(t);
    }
  }

  lemma BodyLengthBound(body: Bytes)
    requires |body| <= MAX_RESPONSE_BODY
    ensures |Print(JStr(Base64.Encode(body)))| <= 22_369_626
  {
    Base64.EncodeLength(body);
    PlainEscape(Base64.Encode(body));
  }

  const AUDIT_LIMIT := 2 * 1024 * 1024
  const FIELD_LIMIT := 900

  // Upper bound on the printed value of each field of a valid response.
  function ValueLimit(f: Field): int {
    if f.BodyBase64? then 22_369_626 else if f.AuditMetadata? then AUDIT_LIMIT else FIELD_LIMIT
  }

  lemma ValueLength(r: BrokerResponse, f: Field)
    requires ValidResponse(r) && |Print(JObj(AuditMembers(r.auditMetadata)))| <= AUDIT_LIMIT
    ensures |Print(ResponseValue(r, f))| <= ValueLimit(f)
  {
    assert Bounded(r);
    hide ResponseFault, CaptureText, AuditMembers, TransportText, SessionText, ErrorText, PrintInt, Escape;
    match f
    case BodyBase64 => BodyLengthBound(r.body);
    case AuditMetadata =>
    case ProtocolVersion => IntLength(r.protocolVersion);
    case BodyLength => IntLength(r.bodyLength);
    case ProviderHttpStatus => if r.providerHttpStatus.Some? { IntLength(r.providerHttpStatus.value); }
    case RetryAfterSeconds => if r.retryAfterSeconds.Some? { IntLength(r.retryAfterSeconds.value); }
    case _ => ShortText(r, f);
  }

  // The bounds a valid response puts on its fields.
  ghost predicate Bounded(r: BrokerResponse) {
    r.protocolVersion == 1 && 0 <= r.bodyLength <= MAX_RESPONSE_BODY && |r.body| <= MAX_RESPONSE_BODY &&
    |r.requestId| == 36 && |r.brokerRequestId| == 36 && |r.bodySha256| == 64 && ValidStamp(r.capturedAt) &&
    (r.providerHttpStatus.Some? ==> 100 <= r.providerHttpStatus.value <= 599) &&
    (r.retryAfterSeconds.Some? ==> 0 <= r.retryAfterSeconds.value <= 3600)
  }

  lemma ShortText(r: BrokerResponse, f: Field)
    requires Bounded(r)
    requires !f.BodyBase64? && !f.AuditMetadata? && !f.ProtocolVersion? && !f.BodyLength?
    requires !f.ProviderHttpStatus? && !f.RetryAfterSeconds?
    ensures |Print(ResponseValue(r, f))| <= FIELD_LIMIT
  {
    TransportTextInjective(r.transportStatus, r.transportStatus);
    SessionTextInjective(r.sessionState, r.sessionState);
    if r.errorCode.Some? { ErrorTextInjective(r.errorCode.value, r.errorCode.value); }
    hide TransportText, SessionText, ErrorText, AuditMembers, Escape, PrintInt, IsoLocal;
  }

  lemma KeyLength(f: Field, v: Json)
    ensures |PrintMember(Member(Key(f), v))| <= |Print(v)| + 243
  {
    KeyInjective(f, f);
    hide Key, Escape, Print;
    assert |Escape(Key(f))| <= 12 * |Key(f)|;
  }

  function TotalLimit(fields: seq<Field>): int {
    if fields == [] then 0 else ValueLimit(fields[0]) + 244 + TotalLimit(fields[1..])
  }

  lemma {:induction false} ObjectExtent(fields: seq<Field>, value: Field -> Json)
    requires forall f :: |Print(value(f))| <= ValueLimit(f)
    ensures Extent(Object(fields, value)) <= TotalLimit(fields)
  {
    hide PrintMember, Print, ValueLimit, Key;
    if fields != [] {
      KeyLength(fields[0], value(fields[0]));
      ObjectExtent(fields[1..], value);
      assert Object(fields, value)[1..] == Object(fields[1..], value);
    }
  }

  lemma {:induction false} TotalLimitCount(fields: seq<Field>)
    requires NoRepeats(fields)
    ensures TotalLimit(fields) <= |fields| * (FIELD_LIMIT + 244)
            + (if BodyBase64 in fields then 22_369_626 else 0) + (if AuditMetadata in fields then AUDIT_LIMIT else 0)
  {
    if fields != [] {
      TotalLimitCount(fields[1..]);
      assert fields[0] !in fields[1..];
    }
  }

  /** A response whose audit metadata prints in at most 2 MiB always fits the 24 MiB frame. */
  lemma ResponseFits(r: BrokerResponse)
    requires ValidResponse(r) && |Print(JObj(AuditMembers(r.auditMetadata)))| <= AUDIT_LIMIT
    ensures EncodeResponse(r).Ok?
  {
    var value := f requires ValidStamp(r.capturedAt) => ResponseValue(r, f);
    ResponseFieldsDiffer();
    assert |RESPONSE_FIELDS| == 14;
    forall f ensures |Print(value(f))| <= ValueLimit(f) { ValueLength(r, f); }
    hide ResponseFault, ResponseValue, Print, ValueLimit, RESPONSE_FIELDS, AuditMembers, Extent, NoRepeats, Object;
    ObjectExtent(RESPONSE_FIELDS, value);
    TotalLimitCount(RESPONSE_FIELDS);
    hide TotalLimit, Dumps;
    DumpsLength(ResponseMembers(r));
  }

  /* ---------- requests ---------- */

  lemma RequestValueLength(q: CandleRequest, f: Field)
    requires ValidRequest(q)
    ensures |Print(RequestValue(q, f))| <= if f.InstrumentToken? then DIGIT_LIMIT + 2 else FIELD_LIMIT
  {
    hide Escape, IsoLocal, IsoOffset, PrintInt;
    if f.InstrumentToken? { PlainEscape(q.instrumentToken); }
    if f.ProtocolVersion? { IntLength(1); }
  }

  lemma {:induction false} RequestExtent(fields: seq<Field>, value: Field -> Json)
    requires NoRepeats(fields)
    requires forall f :: |Print(value(f))| <= if f.InstrumentToken? then DIGIT_LIMIT + 2 else FIELD_LIMIT
    ensures Extent(Object(fields, value)) <= |fields| * (FIELD_LIMIT + 244) + (if InstrumentToken in fields then DIGIT_LIMIT + 2 else 0)
  {
    hide PrintMember, Print, Key;
    if fields != [] {
      KeyLength(fields[0], value(fields[0]));
      RequestExtent(fields[1..], value);
      assert Object(fields, value)[1..] == Object(fields[1..], value);
      assert fields[0] !in fields[1..];
    }
  }

  lemma RequestFieldsDiffer()
    ensures NoRepeats(REQUEST_FIELDS) && |REQUEST_FIELDS| == 8
  {
  }

  /** Every valid request fits the 16 KiB frame. */
  lemma RequestFits(q: CandleRequest)
    requires ValidRequest(q)
    ensures EncodeRequest(q).Ok?
  {
    var value := f => RequestValue(q, f);
    hide ValidRequest, RequestValue, Print, REQUEST_FIELDS, Extent, NoRepeats, Object;
    RequestFieldsDiffer();
    forall f ensures |Print(value(f))| <= if f.InstrumentToken? then DIGIT_LIMIT + 2 else FIELD_LIMIT { RequestValueLength(q, f); }
    RequestExtent(REQUEST_FIELDS, value);
    hide Dumps;
    DumpsLength(RequestMembers(q));
  }
}
