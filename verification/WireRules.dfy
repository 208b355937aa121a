/** What the strict decoders accept: exactly the frames whose object has the protocol's names, each with a value of its type. */
module WireRules {
  import opened Basics
  import opened Calendar
  import opened Json
  import opened JsonText
  import opened Protocol
  import opened Names
  import opened Frames
  import opened Wire
  import opened WireResponse
  import Base64
  import ProtocolRules

  /* ---------- frames ---------- */

  /** A frame decodes exactly when it is the four-byte length of what follows, at least one byte and at most the maximum, and that
      is UTF-8 JSON of one object. */
  lemma FrameIff(frame: Bytes, maximum: int, ms: seq<Member>)
    requires maximum < LIMIT
    ensures DecodeFrame(frame, maximum) == Some(ms) <==>
            |frame| > 4 && |frame| - 4 <= maximum && frame[..4] == Header(|frame| - 4) &&
            Utf8(frame[4..]).Some? && Loads(Utf8(frame[4..]).value) == Some(JObj(ms))
  {
    if 4 <= |frame| && |frame| - 4 < LIMIT {
      UnheaderHeader(|frame| - 4);
      HeaderUnheader(frame[..4]);
    }
    hide Utf8, Loads, Header, Unheader;
  }

  lemma HeaderUnheader(h: Bytes)
    requires |h| == 4
    ensures Header(Unheader(h)) == h
  {
    var n := Unheader(h);
    var a: int, b: int, c: int, d: int := h[0], h[1], h[2], h[3];
    assert n == ((a * 256 + b) * 256 + c) * 256 + d;
    assert n / 256 == (a * 256 + b) * 256 + c && n % 256 == d;
    assert n / 65_536 == n / 256 / 256 && n / 16_777_216 == n / 65_536 / 256;
    assert n / 65_536 == a * 256 + b && n / 16_777_216 == a;
    assert h == [h[0], h[1], h[2], h[3]];
  }

  /* ---------- requests ---------- */

  // The entry under a name.
  predicate Has(ms: seq<Member>, key: string, value: Json) { Find(ms, Lit(key)) == Some(value) }

  // The entry under a name is an ISO timestamp of this instant.
  ghost predicate HasInstant(ms: seq<Member>, key: string, instant: int) {
    exists t: Text, s: Stamp :: Has(ms, key, JStr(t)) && ParseIso(t) == Some(s) && Instant(s) == instant
  }

  predicate RequestKeys(ms: seq<Member>) {
    Keys(ms) == {Lit("protocol_version"), Lit("request_id"), Lit("instrument_token"), Lit("interval"), Lit("from_timestamp"),
                 Lit("to_timestamp"), Lit("continuous"), Lit("oi")}
  }

  // The object says this request: eight names and no more.
  ghost predicate RequestSays(ms: seq<Member>, q: CandleRequest) {
    RequestKeys(ms) && Has(ms, "protocol_version", JInt(1)) && Has(ms, "request_id", JStr(q.requestId)) &&
    Has(ms, "instrument_token", JStr(q.instrumentToken)) && Has(ms, "interval", JStr(Lit("minute"))) &&
    HasInstant(ms, "from_timestamp", Instant(q.fromTimestamp)) && HasInstant(ms, "to_timestamp", Instant(q.toTimestamp)) &&
    Has(ms, "continuous", JBool(false)) && Has(ms, "oi", JBool(q.oi))
  }

  lemma RequestKeySet(ms: seq<Member>)
    ensures Keys(ms) == KeySet(REQUEST_FIELDS) <==> RequestKeys(ms)
  {
    hide Lit, Keys;
    FieldsPresent();
    hide REQUEST_FIELDS;
    var literal := {Lit("protocol_version"), Lit("request_id"), Lit("instrument_token"), Lit("interval"), Lit("from_timestamp"),
                    Lit("to_timestamp"), Lit("continuous"), Lit("oi")};
    assert KeySet(REQUEST_FIELDS) == literal by {
      forall t ensures t in KeySet(REQUEST_FIELDS) <==> t in literal {
        if t in literal { RequestNamesIn(); }
        if t in KeySet(REQUEST_FIELDS) {
          var f :| f in REQUEST_FIELDS && t == Key(f);
          RequestNameOf(f);
        }
      }
    }
  }

  lemma RequestNamesIn()
    ensures var ks := KeySet(REQUEST_FIELDS);
            Lit("protocol_version") in ks && Lit("request_id") in ks && Lit("instrument_token") in ks && Lit("interval") in ks &&
            Lit("from_timestamp") in ks && Lit("to_timestamp") in ks && Lit("continuous") in ks && Lit("oi") in ks
  {
    hide Lit;
    FieldsPresent();
    hide REQUEST_FIELDS;
    assert Key(ProtocolVersion) in KeySet(REQUEST_FIELDS) && Key(RequestId) in KeySet(REQUEST_FIELDS);
    assert Key(InstrumentToken) in KeySet(REQUEST_FIELDS) && Key(Interval) in KeySet(REQUEST_FIELDS);
    assert Key(FromTimestamp) in KeySet(REQUEST_FIELDS) && Key(ToTimestamp) in KeySet(REQUEST_FIELDS);
    assert Key(Continuous) in KeySet(REQUEST_FIELDS) && Key(OpenInterest) in KeySet(REQUEST_FIELDS);
  }

  lemma RequestNameOf(f: Field)
    requires f.ProtocolVersion? || f.RequestId? || f.InstrumentToken? || f.Interval? || f.FromTimestamp? || f.ToTimestamp? ||
             f.Continuous? || f.OpenInterest?
    ensures Key(f) in {Lit("protocol_version"), Lit("request_id"), Lit("instrument_token"), Lit("interval"), Lit("from_timestamp"),
                       Lit("to_timestamp"), Lit("continuous"), Lit("oi")}
  {
    hide Lit;
  }

  // Reading a named entry.
  lemma GetHas(ms: seq<Member>, f: Field, key: string, value: Json)
    requires FieldName(f) == key && value != JNull
    ensures Get(ms, f) == value <==> Has(ms, key, value)
  {
    hide Find, Lit;
  }

  lemma TimeHas(ms: seq<Member>, f: Field, key: string)
    requires FieldName(f) == key
    ensures IsoOf(Get(ms, f)).Some? ==> HasInstant(ms, key, Instant(IsoOf(Get(ms, f)).value))
    ensures forall instant :: HasInstant(ms, key, instant) ==> IsoOf(Get(ms, f)).Some? && Instant(IsoOf(Get(ms, f)).value) == instant
  {
    hide Find, Lit, ParseIso, Instant;
    var j := Get(ms, f);
    if j.JStr? { assert Has(ms, key, JStr(j.text)); }
    forall t: Text, s: Stamp | Has(ms, key, JStr(t)) && ParseIso(t) == Some(s) ensures j == JStr(t) { GetHas(ms, f, key, JStr(t)); }
  }

  // The constructor's part.
  lemma ArgumentsIff(id: Text, token: Text, start: Stamp, end: Stamp, oi: bool, q: CandleRequest)
    ensures MakeRequest(CandleRequest(1, id, token, Lit("minute"), start, end, false, oi)) == Ok(q) <==>
            ValidRequest(q) && q.requestId == id && q.instrumentToken == token && q.oi == oi &&
            Instant(q.fromTimestamp) == Instant(start) && Instant(q.toTimestamp) == Instant(end)
  {
    var made := CandleRequest(1, id, token, Lit("minute"), start, end, false, oi);
    MakeRequestValid(made);
    if MakeRequest(made).Ok? { MadeKeeps(made); }
    hide MakeRequest, ValidRequest, Instant;
    if ValidRequest(q) && q.requestId == id && q.instrumentToken == token && q.oi == oi &&
       Instant(q.fromTimestamp) == Instant(start) && Instant(q.toTimestamp) == Instant(end) {
      SameInstants(q, made);
      Determined(q, MakeRequest(made).value);
    }
  }

  lemma MadeKeeps(q: CandleRequest)
    requires MakeRequest(q).Ok?
    ensures var r := MakeRequest(q).value; r == q.(fromTimestamp := r.fromTimestamp, toTimestamp := r.toTimestamp)
  {
    hide ToZone, CanonicalUuid, PositiveDigits;
  }

  lemma SameInstants(q: CandleRequest, made: CandleRequest)
    requires ValidRequest(q) && made == q.(fromTimestamp := made.fromTimestamp, toTimestamp := made.toTimestamp)
    requires Instant(q.fromTimestamp) == Instant(made.fromTimestamp) && Instant(q.toTimestamp) == Instant(made.toTimestamp)
    ensures MakeRequest(made).Ok?
  {
    MakeRequestValid(q);
    ProtocolRules.RequestAcceptedIff(q);
    ProtocolRules.RequestAcceptedIff(made);
    hide CanonicalUuid, PositiveDigits, MakeRequest;
    WholeSeconds(q.fromTimestamp, made.fromTimestamp);
    WholeSeconds(q.toTimestamp, made.toTimestamp);
  }

  lemma WholeSeconds(a: Stamp, b: Stamp)
    requires Instant(a) == Instant(b) && a.local % MICROS == 0
    ensures b.local % MICROS == 0
  {
    assert b.local == a.local + (b.offset - a.offset) * MICROS;
  }

  lemma Determined(q: CandleRequest, r: CandleRequest)
    requires ValidRequest(q) && ValidRequest(r) && r == q.(fromTimestamp := r.fromTimestamp, toTimestamp := r.toTimestamp)
    requires Instant(q.fromTimestamp) == Instant(r.fromTimestamp) && Instant(q.toTimestamp) == Instant(r.toTimestamp)
    ensures q == r
  {
    hide CanonicalUuid, PositiveDigits;
  }

  // The eight entries the decoder looks at.
  predicate Typed8(ms: seq<Member>) {
    Get(ms, ProtocolVersion) == JInt(1) && Get(ms, RequestId).JStr? && Get(ms, InstrumentToken).JStr? &&
    Get(ms, Interval) == JStr(Lit("minute")) && Get(ms, Continuous) == JBool(false) && Get(ms, OpenInterest).JBool? &&
    IsoOf(Get(ms, FromTimestamp)).Some? && IsoOf(Get(ms, ToTimestamp)).Some?
  }

  lemma DecoderLooks(ms: seq<Member>)
    ensures RequestFromMembers(ms).Ok? ==> Keys(ms) == KeySet(REQUEST_FIELDS) && Typed8(ms)
    ensures Keys(ms) == KeySet(REQUEST_FIELDS) && Typed8(ms) && CanonicalUuid(Get(ms, RequestId).text) && PositiveDigits(Get(ms, InstrumentToken).text) ==>
              RequestFromMembers(ms) ==
              MakeRequest(CandleRequest(1, Get(ms, RequestId).text, Get(ms, InstrumentToken).text, Lit("minute"),
                                        IsoOf(Get(ms, FromTimestamp)).value, IsoOf(Get(ms, ToTimestamp)).value, false, Get(ms, OpenInterest).b))
    ensures RequestFromMembers(ms).Ok? ==> CanonicalUuid(Get(ms, RequestId).text) && PositiveDigits(Get(ms, InstrumentToken).text)
  {
    hide Get, IsoOf, MakeRequest, CanonicalUuid, PositiveDigits, KeySet, Keys, Lit, REQUEST_FIELDS;
  }

  lemma MembersIff(ms: seq<Member>, q: CandleRequest)
    ensures RequestFromMembers(ms) == Ok(q) <==> RequestSays(ms, q) && ValidRequest(q)
  {
    hide Get, IsoOf, MakeRequest, CanonicalUuid, PositiveDigits, KeySet, Keys, Lit, REQUEST_FIELDS, RequestFromMembers, Has, HasInstant,
         RequestKeys, ValidRequest, Instant;
    DecoderLooks(ms);
    RequestKeySet(ms);
    GetHas(ms, ProtocolVersion, "protocol_version", JInt(1));
    GetHas(ms, RequestId, "request_id", JStr(q.requestId));
    GetHas(ms, InstrumentToken, "instrument_token", JStr(q.instrumentToken));
    GetHas(ms, Interval, "interval", JStr(Lit("minute")));
    GetHas(ms, Continuous, "continuous", JBool(false));
    GetHas(ms, OpenInterest, "oi", JBool(q.oi));
    TimeHas(ms, FromTimestamp, "from_timestamp");
    TimeHas(ms, ToTimestamp, "to_timestamp");
    if Typed8(ms) {
      ArgumentsIff(Get(ms, RequestId).text, Get(ms, InstrumentToken).text, IsoOf(Get(ms, FromTimestamp)).value,
                   IsoOf(Get(ms, ToTimestamp)).value, Get(ms, OpenInterest).b, q);
    }
    if ValidRequest(q) { ValidParts(q); }
  }

  lemma ValidParts(q: CandleRequest)
    requires ValidRequest(q)
    ensures CanonicalUuid(q.requestId) && PositiveDigits(q.instrumentToken)
  {
  }

  /** A frame decodes to a request exactly when its object has the eight names and no other, each with this request's value. */
  lemma DecodeRequestIff(frame: Bytes, q: CandleRequest)
    ensures DecodeRequest(frame) == Ok(q) <==>
            ValidRequest(q) && exists ms :: DecodeFrame(frame, 16_384) == Some(ms) && RequestSays(ms, q)
  {
    hide DecodeFrame, RequestFromMembers, RequestSays, ValidRequest;
    if DecodeFrame(frame, MAX_REQUEST_PAYLOAD).Some? { MembersIff(DecodeFrame(frame, MAX_REQUEST_PAYLOAD).value, q); }
  }
}
