/** What a request fingerprint is the hash of: JSON that reads back as the plan's canonical metadata, name by name. */
module Fingerprints {
  import opened Basics
  import opened Calendar
  import opened Json
  import opened JsonText
  import opened Frames
  import opened Protocol
  import opened Planning
  import DecimalText
  import Metadata
  import Wire

  // The bytes decode, as UTF-8 JSON, to this object.
  predicate ReadsTo(bytes: Bytes, ms: seq<Member>) { Utf8(bytes).Some? && Loads(Utf8(bytes).value) == Some(JObj(ms)) }

  predicate Has(ms: seq<Member>, key: string, value: Json) { Find(ms, Lit(key)) == Some(value) }

  // Versions and constants.
  predicate FixedPart(ms: seq<Member>) {
    Has(ms, "fingerprint_schema_version", JInt(1)) && Has(ms, "protocol_version", JInt(1)) && Has(ms, "planning_schema_version", JInt(1)) &&
    Has(ms, "provider", JStr(Lit("zerodha"))) && Has(ms, "interval", JStr(Lit("minute"))) && Has(ms, "continuous", JBool(false))
  }

  // The instrument: its number, names, type, expiry and strike.
  predicate InstrumentPart(p: Plan, ms: seq<Member>)
    requires Plannable(p) && CanonicalId(p.instrument.token).Ok?
  {
    var i := p.instrument;
    Has(ms, "provider_instrument_id", JStr(CanonicalId(i.token).value)) && Has(ms, "exchange", JStr(Join(p.exchange))) &&
    Has(ms, "tradingsymbol", JStr(Join(p.workItem.symbol))) && Has(ms, "instrument_type", JStr(i.instrumentType)) &&
    Has(ms, "expiry", if i.expiry.Some? then JStr(IsoDate(i.expiry.value)) else JNull) &&
    Has(ms, "strike", if i.strike.Some? then JStr(DecimalText.Canonical(i.strike.value).value) else JNull)
  }

  // The snapshot, the window as its instants in IST, and the open-interest flag.
  predicate RequestPart(p: Plan, start: Stamp, end: Stamp, ms: seq<Member>)
    requires Plannable(p) && ValidStamp(start) && ValidStamp(end)
  {
    Has(ms, "instrument_snapshot_date", JStr(IsoDate(p.snapshotDate))) && Has(ms, "instrument_snapshot_sha256", JStr(p.snapshotSha256)) &&
    start.offset == IST && Instant(start) == Instant(p.workItem.start) && Has(ms, "from_timestamp", JStr(IsoFormat(start))) &&
    end.offset == IST && Instant(end) == Instant(p.workItem.end) && Has(ms, "to_timestamp", JStr(IsoFormat(end))) && Has(ms, "oi", JBool(p.oi))
  }

  // Seventeen entries and no more.
  ghost predicate OnlyThose(ms: seq<Member>) {
    Distinct(ms) && |ms| == 17
  }

  // The fingerprint hashes bytes that say exactly this plan.
  ghost predicate HashesPlan(fingerprint: Text, p: Plan)
    requires Plannable(p) && CanonicalId(p.instrument.token).Ok?
  {
    exists bytes: Bytes, ms: seq<Member>, start: Stamp, end: Stamp ::
      fingerprint == Sha256(bytes) && ReadsTo(bytes, ms) && OnlyThose(ms) && ValidStamp(start) && ValidStamp(end) &&
      FixedPart(ms) && InstrumentPart(p, ms) && RequestPart(p, start, end, ms)
  }

  lemma PayloadReads(ms: seq<Member>)
    requires Sound(JObj(ms))
    ensures ReadsTo(FingerprintInput(ms), Received(ms)) && |Received(ms)| == |ms| && Distinct(Received(ms))
  {
    DumpsAscii(JObj(ms));
    Utf8Ascii(Dumps(JObj(ms)));
    LoadsDumps(JObj(ms));
    ReceivedFind(ms, []);
    ReceivedIs(ms);
    hide Dumps, Loads, Utf8, Sound, Received, SortKeys, JoinJson;
  }

  lemma ReceivedIs(ms: seq<Member>)
    ensures JoinJson(SortKeys(JObj(ms))) == JObj(Received(ms)) && |Received(ms)| == |ms|
  {
    hide Sort, SortEach;
    assert |SortEach(ms)| == |ms|;
  }

  lemma Plain(t: Text)
    requires Ascii(t)
    ensures JoinJson(JStr(t)) == JStr(t)
  {
    JoinIdentity(t);
  }

  lemma ArrivesAs(c: Canonical, f: Metadata.MetaField)
    requires ValidCanonical(c)
    ensures Find(Received(Metadata.Members(Values(c))), Metadata.Key(f)) == Some(JoinJson(MetaValue(c, f)))
  {
    hide ValidCanonical, MetaValue, Received, JoinJson, Metadata.Key, Metadata.Members, Metadata.DictOf;
    Metadata.MembersDict(Values(c));
    forall g ensures Metadata.Scalar(Values(c)(g)) { ScalarValue(c, g); }
    Metadata.DictReceived(Metadata.Members(Values(c)), Values(c), f);
  }

  lemma Literals()
    ensures JoinJson(JStr(Lit("zerodha"))) == JStr(Lit("zerodha")) && JoinJson(JStr(Lit("minute"))) == JStr(Lit("minute"))
  {
    ZerodhaPlain();
    MinutePlain();
  }

  lemma ZerodhaPlain()
    ensures JoinJson(JStr(Lit("zerodha"))) == JStr(Lit("zerodha"))
  {
    hide Join, JoinJson;
    Plain(Lit("zerodha"));
  }

  lemma MinutePlain()
    ensures JoinJson(JStr(Lit("minute"))) == JStr(Lit("minute"))
  {
    hide Join, JoinJson;
    Plain(Lit("minute"));
  }

  // The metadata as it is read back.
  function Arrived(c: Canonical): seq<Member>
    requires ValidCanonical(c)
  {
    Received(Metadata.Members(Values(c)))
  }

  // One field under its name.
  lemma Named(c: Canonical, f: Metadata.MetaField, key: string, value: Json)
    requires ValidCanonical(c) && Metadata.FieldName(f) == key && JoinJson(MetaValue(c, f)) == value
    ensures Has(Arrived(c), key, value)
  {
    hide ValidCanonical, MetaValue, Received, JoinJson, Metadata.Members, Find, Lit;
    ArrivesAs(c, f);
  }

  lemma FixedValues(c: Canonical)
    requires ValidCanonical(c)
    ensures MetaValue(c, Metadata.FingerprintVersion) == JInt(1) && MetaValue(c, Metadata.ProtocolVersion) == JInt(1)
    ensures MetaValue(c, Metadata.PlanningVersion) == JInt(1) && MetaValue(c, Metadata.Provider) == JStr(Lit("zerodha"))
    ensures MetaValue(c, Metadata.Interval) == JStr(Lit("minute")) && MetaValue(c, Metadata.Continuous) == JBool(false)
  {
    hide IsoDate, IsoFormat, Lit, ValidCanonical;
  }

  lemma FixedArrives(c: Canonical)
    requires ValidCanonical(c)
    ensures FixedPart(Arrived(c))
  {
    hide ValidCanonical, Arrived, Has, MetaValue, Join;
    FixedValues(c);
    Literals();
    hide Lit;
    Named(c, Metadata.FingerprintVersion, "fingerprint_schema_version", JInt(1));
    Named(c, Metadata.ProtocolVersion, "protocol_version", JInt(1));
    Named(c, Metadata.PlanningVersion, "planning_schema_version", JInt(1));
    Named(c, Metadata.Provider, "provider", JStr(Lit("zerodha")));
    Named(c, Metadata.Interval, "interval", JStr(Lit("minute")));
    Named(c, Metadata.Continuous, "continuous", JBool(false));
  }

  lemma InstrumentValues(c: Canonical)
    requires ValidCanonical(c)
    ensures MetaValue(c, Metadata.ProviderId) == JStr(c.providerId) && MetaValue(c, Metadata.Exchange) == JStr(c.exchange)
    ensures MetaValue(c, Metadata.Symbol) == JStr(c.symbol) && MetaValue(c, Metadata.InstrumentType) == JStr(c.instrumentType)
    ensures c.expiry.Some? ==> ValidDate(c.expiry.value)
    ensures MetaValue(c, Metadata.Expiry) == if c.expiry.Some? then JStr(IsoDate(c.expiry.value)) else JNull
    ensures MetaValue(c, Metadata.Strike) == if c.strike.Some? then JStr(c.strike.value) else JNull
  {
    ExpiryDate(c);
    hide IsoDate, IsoFormat, Lit, ValidCanonical;
  }

  // The instrument's entries, in terms of the canonical values.
  lemma InstrumentNamed(c: Canonical)
    requires ValidCanonical(c)
    ensures Has(Arrived(c), "provider_instrument_id", JStr(c.providerId)) && Has(Arrived(c), "exchange", JStr(Join(c.exchange)))
    ensures Has(Arrived(c), "tradingsymbol", JStr(Join(c.symbol))) && Has(Arrived(c), "instrument_type", JStr(c.instrumentType))
  {
    InstrumentPlain(c);
    InstrumentValues(c);
    hide ValidCanonical, Arrived, Has, MetaValue, Join, IsoDate, ValidDate;
    Named(c, Metadata.ProviderId, "provider_instrument_id", JStr(c.providerId));
    Named(c, Metadata.Exchange, "exchange", JStr(Join(c.exchange)));
    Named(c, Metadata.Symbol, "tradingsymbol", JStr(Join(c.symbol)));
    Named(c, Metadata.InstrumentType, "instrument_type", JStr(c.instrumentType));
  }

  lemma ExpiryNamed(c: Canonical)
    requires ValidCanonical(c)
    ensures c.expiry.Some? ==> ValidDate(c.expiry.value)
    ensures Has(Arrived(c), "expiry", if c.expiry.Some? then JStr(IsoDate(c.expiry.value)) else JNull)
  {
    hide ValidCanonical, Arrived, Has, MetaValue, JoinJson, IsoDate, ValidDate;
    InstrumentPlain(c);
    InstrumentValues(c);
    NullPlain();
    if c.expiry.Some? {
      Named(c, Metadata.Expiry, "expiry", JStr(IsoDate(c.expiry.value)));
    } else {
      Named(c, Metadata.Expiry, "expiry", JNull);
    }
  }

  lemma StrikeNamed(c: Canonical)
    requires ValidCanonical(c)
    ensures Has(Arrived(c), "strike", if c.strike.Some? then JStr(c.strike.value) else JNull)
  {
    hide ValidCanonical, Arrived, Has, MetaValue, JoinJson, IsoDate, ValidDate;
    InstrumentPlain(c);
    InstrumentValues(c);
    NullPlain();
    if c.strike.Some? {
      Named(c, Metadata.Strike, "strike", JStr(c.strike.value));
    } else {
      Named(c, Metadata.Strike, "strike", JNull);
    }
  }

  lemma NullPlain()
    ensures JoinJson(JNull) == JNull
  {
  }

  lemma InstrumentPlain(c: Canonical)
    requires ValidCanonical(c)
    ensures JoinJson(JStr(c.providerId)) == JStr(c.providerId) && JoinJson(JStr(c.instrumentType)) == JStr(c.instrumentType)
    ensures c.expiry.Some? ==> ValidDate(c.expiry.value)
    ensures c.expiry.Some? ==> JoinJson(JStr(IsoDate(c.expiry.value))) == JStr(IsoDate(c.expiry.value))
    ensures c.strike.Some? ==> JoinJson(JStr(c.strike.value)) == JStr(c.strike.value)
  {
    CanonicalTexts(c);
    ExpiryDate(c);
    StrikeAscii(c);
    hide ValidCanonical, Ascii, IsoDate, JoinJson, ValidDate;
    Plain(c.providerId);
    Plain(c.instrumentType);
    if c.expiry.Some? {
      IsoDateAscii(c.expiry.value);
      Plain(IsoDate(c.expiry.value));
    }
    if c.strike.Some? { Plain(c.strike.value); }
  }

  lemma InstrumentArrives(p: Plan)
    requires Plannable(p) && CanonicalId(p.instrument.token).Ok? && ValidCanonical(CanonicalPlan(p))
    ensures InstrumentPart(p, Arrived(CanonicalPlan(p)))
  {
    InstrumentNamed(CanonicalPlan(p));
    ExpiryNamed(CanonicalPlan(p));
    StrikeNamed(CanonicalPlan(p));
    hide ValidCanonical, Arrived, Has, Plannable, IsoDate, DecimalText.Canonical, CanonicalId, Join, ValidateWindow;
  }

  lemma ExpiryDate(c: Canonical)
    requires ValidCanonical(c)
    ensures (c.expiry.Some? ==> ValidDate(c.expiry.value)) && ValidDate(c.snapshotDate) && ValidStamp(c.start) && ValidStamp(c.end)
  {
  }

  lemma StrikeAscii(c: Canonical)
    requires ValidCanonical(c)
    ensures c.strike.Some? ==> Ascii(c.strike.value)
  {
    hide Ascii;
  }

  lemma RequestValues(c: Canonical)
    requires ValidCanonical(c)
    ensures ValidDate(c.snapshotDate)
    ensures MetaValue(c, Metadata.SnapshotDate) == JStr(IsoDate(c.snapshotDate)) && MetaValue(c, Metadata.SnapshotHash) == JStr(c.snapshotHash)
    ensures MetaValue(c, Metadata.OpenInterest) == JBool(c.oi)
  {
    ExpiryDate(c);
    hide IsoDate, IsoFormat, Lit, ValidCanonical, ValidDate, ValidStamp;
  }

  lemma StartValue(c: Canonical)
    requires ValidCanonical(c)
    ensures ValidStamp(c.start) && MetaValue(c, Metadata.FromTimestamp) == JStr(IsoFormat(c.start))
  {
    hide IsoDate, IsoFormat, Lit, ValidDate;
  }

  lemma EndValue(c: Canonical)
    requires ValidCanonical(c)
    ensures ValidStamp(c.end) && MetaValue(c, Metadata.ToTimestamp) == JStr(IsoFormat(c.end))
  {
    hide IsoDate, IsoFormat, Lit, ValidDate;
  }

  lemma RequestPlain(c: Canonical)
    requires ValidCanonical(c)
    ensures ValidDate(c.snapshotDate)
    ensures JoinJson(JStr(IsoDate(c.snapshotDate))) == JStr(IsoDate(c.snapshotDate)) && JoinJson(JStr(c.snapshotHash)) == JStr(c.snapshotHash)
  {
    CanonicalTexts(c);
    ExpiryDate(c);
    hide ValidCanonical, Ascii, IsoDate, JoinJson, ValidStamp, IsoFormat, ValidDate;
    IsoDateAscii(c.snapshotDate);
    Plain(IsoDate(c.snapshotDate));
    Plain(c.snapshotHash);
  }

  // The other entries, in terms of the canonical values.
  lemma SnapshotNamed(c: Canonical)
    requires ValidCanonical(c)
    ensures ValidDate(c.snapshotDate) && Has(Arrived(c), "instrument_snapshot_date", JStr(IsoDate(c.snapshotDate)))
    ensures Has(Arrived(c), "instrument_snapshot_sha256", JStr(c.snapshotHash)) && Has(Arrived(c), "oi", JBool(c.oi))
  {
    RequestPlain(c);
    RequestValues(c);
    hide ValidCanonical, Arrived, Has, MetaValue, Join, IsoDate, ValidStamp, ValidDate, IsoFormat;
    Named(c, Metadata.SnapshotDate, "instrument_snapshot_date", JStr(IsoDate(c.snapshotDate)));
    Named(c, Metadata.SnapshotHash, "instrument_snapshot_sha256", JStr(c.snapshotHash));
    Named(c, Metadata.OpenInterest, "oi", JBool(c.oi));
  }

  lemma WindowNamed(c: Canonical)
    requires ValidCanonical(c)
    ensures ValidStamp(c.start) && Has(Arrived(c), "from_timestamp", JStr(IsoFormat(c.start)))
    ensures ValidStamp(c.end) && Has(Arrived(c), "to_timestamp", JStr(IsoFormat(c.end)))
  {
    hide ValidCanonical, Arrived, Has, MetaValue, JoinJson, ValidStamp, IsoFormat;
    StartValue(c);
    EndValue(c);
    StampPlain(c.start);
    StampPlain(c.end);
    Named(c, Metadata.FromTimestamp, "from_timestamp", JStr(IsoFormat(c.start)));
    Named(c, Metadata.ToTimestamp, "to_timestamp", JStr(IsoFormat(c.end)));
  }

  lemma RequestArrives(p: Plan)
    requires Plannable(p) && ValidCanonical(CanonicalPlan(p))
    ensures var c := CanonicalPlan(p);
            ValidStamp(c.start) && ValidStamp(c.end) && RequestPart(p, c.start, c.end, Arrived(c))
  {
    SnapshotNamed(CanonicalPlan(p));
    WindowNamed(CanonicalPlan(p));
    WindowInstants(p);
    hide ValidCanonical, Arrived, Has, Plannable, IsoDate, IsoFormat, DecimalText.Canonical, CanonicalId, Instant, ValidateWindow, ValidStamp;
  }

  lemma StampPlain(s: Stamp)
    requires ValidStamp(s)
    ensures JoinJson(JStr(IsoFormat(s))) == JStr(IsoFormat(s))
  {
    Wire.IsoFormatChars(s);
    hide IsoFormat;
    Plain(IsoFormat(s));
  }

  lemma WindowInstants(p: Plan)
    requires Plannable(p)
    ensures var c := CanonicalPlan(p);
            c.start.offset == IST && c.end.offset == IST && Instant(c.start) == Instant(p.workItem.start) &&
            Instant(c.end) == Instant(p.workItem.end)
  {
    WindowAcceptedIff(p.workItem);
    hide ValidateWindow, CanonicalId, IdentityFault, SessionWindow, Instant, ValidDate, DecimalText.Canonical;
    WindowStamps(p.workItem.sessionDate, ValidateWindow(p.workItem).value.0, ValidateWindow(p.workItem).value.1);
  }

  /** The fingerprint of a planned request is the SHA-256 of bytes that read back as one object with exactly seventeen entries:
      the versions, the provider, the instrument's canonical number, names, type, expiry and strike, the snapshot's date and hash,
      the interval, the two instants in IST, and the two flags. */
  lemma FingerprintSays(p: Plan, id: Option<Text>)
    requires WellFormed(p) && PlanHistoricalCandles(p, id).Ok?
    ensures Plannable(p) && CanonicalId(p.instrument.token).Ok?
    ensures HashesPlan(PlanHistoricalCandles(p, id).value.fingerprint, p)
  {
    PlannedPlannable(p, id);
    PlanIsCanonical(p);
    hide PlanHistoricalCandles, WellFormed, Plannable, ValidCanonical, CanonicalId, FixedPart, InstrumentPart, RequestPart, ReadsTo, Received,
         FingerprintInput, Metadata.Members, Metadata.DictOf, Values, ValidStamp, CanonicalPlan;
    var c := CanonicalPlan(p);
    var ms := Metadata.Members(Values(c));
    MetadataSound(c);
    PayloadReads(ms);
    FixedArrives(c);
    InstrumentArrives(p);
    RequestArrives(p);
    assert |ms| == 17 by { SeventeenFields(Values(c)); }
    assert Fingerprint(p) == Sha256(FingerprintInput(ms));
    assert OnlyThose(Received(ms));
    assert Arrived(c) == Received(ms);
  }

  lemma SeventeenFields(value: Metadata.MetaField -> Json)
    ensures |Metadata.Members(value)| == 17
  {
  }

  lemma MetadataSound(c: Canonical)
    requires ValidCanonical(c)
    ensures Sound(JObj(Metadata.Members(Values(c))))
  {
    hide ValidCanonical, Metadata.Members, Metadata.DictOf;
    Metadata.MembersDict(Values(c));
    forall g ensures Metadata.Scalar(Values(c)(g)) { ScalarValue(c, g); }
    Metadata.DictSound(Metadata.Members(Values(c)), Values(c));
  }
}
