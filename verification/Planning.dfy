/** Planning of one historical request: identity and window checks, the canonical metadata, and the planned request. */
module Planning {
  import opened Basics
  import opened Calendar
  import opened Decimals
  import opened Bars
  import opened Protocol
  import Json
  import JsonText
  import DecimalText
  import Rounding
  import Metadata
  import Frames
  import Retry
  import RetryDelay
  import Wire

  // `str.upper`, left open.
  const UpperCase: Text -> Text

  const SESSION_OPEN := (9 * 3600 + 15 * 60) * MICROS
  const SESSION_CLOSE := (15 * 3600 + 30 * 60) * MICROS
  const MINUTE := 60 * MICROS

  datatype WorkItem = WorkItem(symbol: Text, sourceId: Text, barSize: Text, sessionDate: Date, start: Stamp, end: Stamp)

  datatype Instrument = Instrument(
    token: Text, tradingsymbol: Text, instrumentType: Text, expiry: Option<Date>, strike: Option<Decimal>, exchange: Text)

  datatype Plan = Plan(
    workItem: WorkItem, instrument: Instrument, snapshotDate: Date, snapshotSha256: Text, exchange: Text,
    protocolVersion: int, schemaVersion: int, continuous: bool, oi: bool)

  datatype PlanningError =
    | UnsupportedSource | UnsupportedResolution | SymbolMismatch | ExchangeMismatch | InvalidWorkItemWindow
    | CrossSessionWindow | NonMinuteAlignedWindow | WindowOutsideSession | SessionDateMismatch | InvalidSnapshotHash
    | InvalidResolvedInstrument | InvalidDerivativeIdentity | UnsupportedContinuousMode | UnsupportedInstrumentType
    | InvalidRequestId
    | CalendarOverflow    // OverflowError from `astimezone`
    | DigitLimitExceeded  // ValueError from `int`
    | DecimalOverflow     // decimal.Overflow from `normalize`

  // Raised as something other than ZerodhaPlanningError.
  predicate Uncaught(e: PlanningError) { e.CalendarOverflow? || e.DigitLimitExceeded? || e.DecimalOverflow? }

  // Values the dataclasses and types admit: real dates, aware datetimes, TimeWindow's own order.
  predicate WellFormed(p: Plan) {
    ValidDate(p.workItem.sessionDate) && ValidDate(p.snapshotDate) &&
    (p.instrument.expiry.Some? ==> ValidDate(p.instrument.expiry.value)) &&
    ValidStamp(p.workItem.start) && ValidStamp(p.workItem.end) && Instant(p.workItem.start) < Instant(p.workItem.end)
  }

  /* ---------- identity ---------- */

  function DropLeft(t: Text): Text { if t != [] && Space(t[0]) then DropLeft(t[1..]) else t }

  function DropRight(t: Text): Text { if t != [] && Space(t[|t| - 1]) then DropRight(t[..|t| - 1]) else t }

  // `value == value.strip().upper()`.
  predicate Normalized(t: Text) { t == UpperCase(DropRight(DropLeft(t))) }

  function TokenNumber(t: Text): nat { JsonText.ScanDigits(0, t).0 }

  /** `_canonical_provider_id`: the number without leading zeros. */
  function CanonicalId(t: Text): Result<Text, PlanningError> {
    if !AllDigits(t) then Err(InvalidResolvedInstrument)
    else if |t| > DIGIT_LIMIT then Err(DigitLimitExceeded)
    else if TokenNumber(t) == 0 then Err(InvalidResolvedInstrument)
    else Ok(JsonText.PrintNat(TokenNumber(t)))
  }

  predicate KnownType(t: Text) { t == Lit("EQ") || t == Lit("FUT") || t == Lit("CE") || t == Lit("PE") }

  predicate DerivativeFault(i: Instrument) {
    if i.instrumentType == Lit("EQ") then i.expiry.Some? || i.strike.Some?
    else if i.instrumentType == Lit("FUT") then i.expiry.None? || i.strike.Some?
    else i.expiry.None? || i.strike.None? || i.strike.value.NonFinite? || i.strike.value.coefficient < 0
  }

  // Lines 149-170: source, resolution, versions, mode and names.
  function NameFault(p: Plan): Option<PlanningError> {
    var w, i := p.workItem, p.instrument;
    if w.sourceId != Lit("zerodha") then Some(UnsupportedSource)
    else if w.barSize != Lit("1m") then Some(UnsupportedResolution)
    else if p.protocolVersion != 1 || p.schemaVersion != 1 then Some(InvalidResolvedInstrument)
    else if p.continuous then Some(UnsupportedContinuousMode)
    else if Blank(i.exchange) || !Normalized(i.exchange) then Some(InvalidResolvedInstrument)
    else if Blank(i.tradingsymbol) || !Normalized(i.tradingsymbol) then Some(InvalidResolvedInstrument)
    else if !Normalized(p.exchange) || p.exchange != i.exchange then Some(ExchangeMismatch)
    else if !Normalized(w.symbol) || w.symbol != i.tradingsymbol then Some(SymbolMismatch)
    else None
  }

  /** `_validate_identity`, in the order of its checks. */
  function IdentityFault(p: Plan): Option<PlanningError>
    requires WellFormed(p)
  {
    var i := p.instrument;
    if NameFault(p).Some? then NameFault(p)
    else if CanonicalId(i.token).Err? then Some(CanonicalId(i.token).error)
    else if !KnownType(i.instrumentType) then Some(UnsupportedInstrumentType)
    else if DerivativeFault(i) then Some(InvalidDerivativeIdentity)
    else if i.instrumentType != Lit("EQ") && i.expiry.Some? && DayNumber(p.workItem.sessionDate) > DayNumber(i.expiry.value)
    then Some(InvalidDerivativeIdentity)
    else if !HexDigest(p.snapshotSha256) then Some(InvalidSnapshotHash)
    else None
  }

  /* ---------- window ---------- */

  /** `_validate_window`: one IST session, minute-aligned, within trading hours. */
  function ValidateWindow(w: WorkItem): Result<(Stamp, Stamp), PlanningError>
    requires ValidDate(w.sessionDate)
  {
    match (ToZone(w.start, IST), ToZone(w.end, IST))
    case (Some(start), Some(end)) =>
      if start.local >= end.local then Err(InvalidWorkItemWindow)
      else if DayIndex(start) != DayIndex(end) then Err(CrossSessionWindow)
      else if DayIndex(start) != DayNumber(w.sessionDate) then Err(SessionDateMismatch)
      else if start.local % MINUTE != 0 || end.local % MINUTE != 0 then Err(NonMinuteAlignedWindow)
      else if TimeOfDay(start) < SESSION_OPEN || TimeOfDay(end) > SESSION_CLOSE then Err(WindowOutsideSession)
      else Ok((start, end))
    case _ => Err(CalendarOverflow)
  }

  // What an accepted window is.
  predicate SessionWindow(session: Date, start: Stamp, end: Stamp)
    requires ValidDate(session)
  {
    ValidStamp(start) && ValidStamp(end) && start.offset == IST == end.offset &&
    var open := DayNumber(session) * DAY + SESSION_OPEN;
    open <= start.local < end.local <= open + (SESSION_CLOSE - SESSION_OPEN) &&
    start.local % MINUTE == 0 && end.local % MINUTE == 0
  }

  lemma OneDay(local: int, day: int)
    ensures local / DAY == day <==> day * DAY <= local < day * DAY + DAY
    ensures local / DAY == day ==> local % DAY == local - day * DAY
  {
  }

  /** A window is accepted exactly when it denotes whole minutes of the work item's session, between 09:15 and 15:30 IST. */
  lemma WindowAcceptedIff(w: WorkItem)
    requires ValidDate(w.sessionDate)
    ensures ValidateWindow(w).Ok? <==>
            ToZone(w.start, IST).Some? && ToZone(w.end, IST).Some? &&
            SessionWindow(w.sessionDate, ToZone(w.start, IST).value, ToZone(w.end, IST).value)
    ensures ValidateWindow(w).Ok? ==>
              SessionWindow(w.sessionDate, ValidateWindow(w).value.0, ValidateWindow(w).value.1) &&
              Instant(ValidateWindow(w).value.0) == Instant(w.start) && Instant(ValidateWindow(w).value.1) == Instant(w.end)
  {
    hide DayNumber;
    if ToZone(w.start, IST).Some? && ToZone(w.end, IST).Some? {
      OneDay(ToZone(w.start, IST).value.local, DayNumber(w.sessionDate));
      OneDay(ToZone(w.end, IST).value.local, DayNumber(w.sessionDate));
    }
    hide ToZone, Instant;
  }

  /* ---------- canonical metadata ---------- */

  // `date.isoformat`.
  function IsoDate(d: Date): Text
    requires ValidDate(d)
  {
    PrintFixed(d.year, 4) + [45] + PrintFixed(d.month, 2) + [45] + PrintFixed(d.day, 2)
  }

  lemma DateLayout(y: Text, m: Text, d: Text)
    requires |y| == 4 && |m| == |d| == 2
    ensures var t := y + [45] + m + [45] + d; t[..4] == y && t[5..7] == m && t[8..] == d
  {
  }

  lemma IsoDateInjective(a: Date, b: Date)
    requires ValidDate(a) && ValidDate(b)
    ensures IsoDate(a) == IsoDate(b) <==> a == b
  {
    hide PrintFixed;
    if IsoDate(a) == IsoDate(b) {
      DateLayout(PrintFixed(a.year, 4), PrintFixed(a.month, 2), PrintFixed(a.day, 2));
      DateLayout(PrintFixed(b.year, 4), PrintFixed(b.month, 2), PrintFixed(b.day, 2));
      Widths();
      MonthDays(a);
      MonthDays(b);
      ParsePrintFixed(a.year, 4);
      ParsePrintFixed(b.year, 4);
      ParsePrintFixed(a.month, 2);
      ParsePrintFixed(b.month, 2);
      ParsePrintFixed(a.day, 2);
      ParsePrintFixed(b.day, 2);
    }
  }

  lemma MonthDays(d: Date)
    requires ValidDate(d)
    ensures d.day <= 31
  {
  }

  // The canonical values, before serialisation.
  datatype Canonical = Canonical(
    providerId: Text, exchange: Text, symbol: Text, instrumentType: Text, expiry: Option<Date>, strike: Option<Text>,
    snapshotDate: Date, snapshotHash: Text, start: Stamp, end: Stamp, oi: bool)

  predicate ValidCanonical(c: Canonical) {
    AllDigits(c.providerId) && KnownType(c.instrumentType) && (c.expiry.Some? ==> ValidDate(c.expiry.value)) &&
    ValidDate(c.snapshotDate) && HexDigest(c.snapshotHash) && ValidStamp(c.start) && ValidStamp(c.end) &&
    c.start.offset == IST == c.end.offset && (c.strike.Some? ==> Ascii(c.strike.value))
  }

  function MetaValue(c: Canonical, f: Metadata.MetaField): Json.Json
    requires ValidCanonical(c)
  {
    match f
    case FingerprintVersion => Json.JInt(1)
    case ProtocolVersion => Json.JInt(1)
    case PlanningVersion => Json.JInt(1)
    case Provider => Json.JStr(Lit("zerodha"))
    case ProviderId => Json.JStr(c.providerId)
    case Exchange => Json.JStr(c.exchange)
    case Symbol => Json.JStr(c.symbol)
    case InstrumentType => Json.JStr(c.instrumentType)
    case Expiry => if c.expiry.Some? then Json.JStr(IsoDate(c.expiry.value)) else Json.JNull
    case Strike => if c.strike.Some? then Json.JStr(c.strike.value) else Json.JNull
    case SnapshotDate => Json.JStr(IsoDate(c.snapshotDate))
    case SnapshotHash => Json.JStr(c.snapshotHash)
    case Interval => Json.JStr(Lit("minute"))
    case FromTimestamp => Json.JStr(IsoFormat(c.start))
    case ToTimestamp => Json.JStr(IsoFormat(c.end))
    case Continuous => Json.JBool(false)
    case OpenInterest => Json.JBool(c.oi)
  }

  // The dict as a function of its field.
  function Values(c: Canonical): Metadata.MetaField -> Json.Json
    requires ValidCanonical(c)
  {
    f => if ValidCanonical(c) then MetaValue(c, f) else Json.JNull
  }

  // The bytes that are hashed.
  function FingerprintInput(ms: seq<Json.Member>): Bytes { Frames.Payload(Json.JObj(ms)) }

  predicate SameFields(a: Canonical, b: Canonical) {
    a.providerId == b.providerId && JsonText.Join(a.exchange) == JsonText.Join(b.exchange) &&
    JsonText.Join(a.symbol) == JsonText.Join(b.symbol) && a.instrumentType == b.instrumentType && a.expiry == b.expiry &&
    a.strike == b.strike && a.snapshotDate == b.snapshotDate && a.snapshotHash == b.snapshotHash &&
    a.start == b.start && a.end == b.end && a.oi == b.oi
  }

  lemma AsciiEqual(a: Text, b: Text)
    requires Ascii(a) && Ascii(b)
    ensures JsonText.Join(a) == JsonText.Join(b) <==> a == b
  {
    JsonText.JoinIdentity(a);
    JsonText.JoinIdentity(b);
  }

  lemma IsoDateAscii(d: Date)
    requires ValidDate(d)
    ensures Ascii(IsoDate(d))
  {
    hide PrintFixed;
    Wire.FixedAscii(d.year, 4);
    Wire.FixedAscii(d.month, 2);
    Wire.FixedAscii(d.day, 2);
  }

  lemma DateTextEqual(a: Date, b: Date)
    requires ValidDate(a) && ValidDate(b)
    ensures JsonText.Join(IsoDate(a)) == JsonText.Join(IsoDate(b)) <==> a == b
  {
    IsoDateAscii(a);
    IsoDateAscii(b);
    IsoDateInjective(a, b);
    hide IsoDate;
    AsciiEqual(IsoDate(a), IsoDate(b));
  }

  lemma StampTextEqual(a: Stamp, b: Stamp)
    requires ValidStamp(a) && ValidStamp(b)
    ensures JsonText.Join(IsoFormat(a)) == JsonText.Join(IsoFormat(b)) <==> a == b
  {
    hide IsoFormat, ParseIso;
    ParseIsoFormat(a);
    ParseIsoFormat(b);
    Wire.IsoFormatChars(a);
    Wire.IsoFormatChars(b);
    AsciiEqual(IsoFormat(a), IsoFormat(b));
  }

  lemma TypeAscii(t: Text)
    requires KnownType(t)
    ensures Ascii(t)
  {
  }

  lemma CanonicalTexts(c: Canonical)
    requires ValidCanonical(c)
    ensures Ascii(c.providerId) && Ascii(c.instrumentType) && Ascii(c.snapshotHash)
  {
    TypeAscii(c.instrumentType);
    hide KnownType, ValidDate, ValidStamp;
  }

  // Field by field.
  lemma ValueEqual(a: Canonical, b: Canonical)
    requires ValidCanonical(a) && ValidCanonical(b)
    ensures (forall f :: FieldAgrees(a, b, f)) <==> SameFields(a, b)
  {
    CanonicalTexts(a);
    CanonicalTexts(b);
    hide KnownType, ValidDate, ValidStamp, IsoFormat, IsoDate, JsonText.Join, HexDigest, AllDigits, Ascii, FieldAgrees;
    AsciiEqual(a.providerId, b.providerId);
    AsciiEqual(a.instrumentType, b.instrumentType);
    AsciiEqual(a.snapshotHash, b.snapshotHash);
    DateTextEqual(a.snapshotDate, b.snapshotDate);
    StampTextEqual(a.start, b.start);
    StampTextEqual(a.end, b.end);
    if a.expiry.Some? && b.expiry.Some? { DateTextEqual(a.expiry.value, b.expiry.value); }
    if a.strike.Some? && b.strike.Some? { AsciiEqual(a.strike.value, b.strike.value); }
    FieldsEqual(a, b);
  }

  predicate FieldAgrees(a: Canonical, b: Canonical, f: Metadata.MetaField)
    requires ValidCanonical(a) && ValidCanonical(b)
  {
    JsonText.JoinJson(MetaValue(a, f)) == JsonText.JoinJson(MetaValue(b, f))
  }

  predicate TextsAgree(a: Canonical, b: Canonical)
    requires ValidCanonical(a) && ValidCanonical(b)
  {
    JsonText.Join(a.providerId) == JsonText.Join(b.providerId) &&
    JsonText.Join(a.exchange) == JsonText.Join(b.exchange) && JsonText.Join(a.symbol) == JsonText.Join(b.symbol) &&
    JsonText.Join(a.instrumentType) == JsonText.Join(b.instrumentType) &&
    (a.expiry.Some? <==> b.expiry.Some?) &&
    (a.expiry.Some? ==> JsonText.Join(IsoDate(a.expiry.value)) == JsonText.Join(IsoDate(b.expiry.value))) &&
    (a.strike.Some? <==> b.strike.Some?) &&
    (a.strike.Some? ==> JsonText.Join(a.strike.value) == JsonText.Join(b.strike.value)) &&
    JsonText.Join(IsoDate(a.snapshotDate)) == JsonText.Join(IsoDate(b.snapshotDate)) &&
    JsonText.Join(a.snapshotHash) == JsonText.Join(b.snapshotHash) &&
    JsonText.Join(IsoFormat(a.start)) == JsonText.Join(IsoFormat(b.start)) &&
    JsonText.Join(IsoFormat(a.end)) == JsonText.Join(IsoFormat(b.end)) && a.oi == b.oi
  }

  // The same, for one field.
  predicate TextAgrees(a: Canonical, b: Canonical, f: Metadata.MetaField)
    requires ValidCanonical(a) && ValidCanonical(b)
  {
    match f
    case ProviderId => JsonText.Join(a.providerId) == JsonText.Join(b.providerId)
    case Exchange => JsonText.Join(a.exchange) == JsonText.Join(b.exchange)
    case Symbol => JsonText.Join(a.symbol) == JsonText.Join(b.symbol)
    case InstrumentType => JsonText.Join(a.instrumentType) == JsonText.Join(b.instrumentType)
    case Expiry =>
      (a.expiry.Some? <==> b.expiry.Some?) &&
      (a.expiry.Some? ==> JsonText.Join(IsoDate(a.expiry.value)) == JsonText.Join(IsoDate(b.expiry.value)))
    case Strike =>
      (a.strike.Some? <==> b.strike.Some?) &&
      (a.strike.Some? ==> JsonText.Join(a.strike.value) == JsonText.Join(b.strike.value))
    case SnapshotDate => JsonText.Join(IsoDate(a.snapshotDate)) == JsonText.Join(IsoDate(b.snapshotDate))
    case SnapshotHash => JsonText.Join(a.snapshotHash) == JsonText.Join(b.snapshotHash)
    case FromTimestamp => JsonText.Join(IsoFormat(a.start)) == JsonText.Join(IsoFormat(b.start))
    case ToTimestamp => JsonText.Join(IsoFormat(a.end)) == JsonText.Join(IsoFormat(b.end))
    case OpenInterest => a.oi == b.oi
    case _ => true
  }

  lemma FieldMeans(a: Canonical, b: Canonical, f: Metadata.MetaField)
    requires ValidCanonical(a) && ValidCanonical(b)
    ensures FieldAgrees(a, b, f) <==> TextAgrees(a, b, f)
  {
    hide KnownType, ValidDate, ValidStamp, IsoFormat, IsoDate, JsonText.Join, HexDigest, AllDigits, Ascii;
  }

  lemma FieldsEqual(a: Canonical, b: Canonical)
    requires ValidCanonical(a) && ValidCanonical(b)
    ensures (forall f :: FieldAgrees(a, b, f)) <==> TextsAgree(a, b)
  {
    hide ValidCanonical, TextsAgree, FieldAgrees, TextAgrees;
    forall f ensures FieldAgrees(a, b, f) <==> TextAgrees(a, b, f) { FieldMeans(a, b, f); }
    if forall f :: FieldAgrees(a, b, f) {
      forall f ensures TextAgrees(a, b, f) { assert FieldAgrees(a, b, f); }
      FieldsGive(a, b);
    }
    if TextsAgree(a, b) {
      forall f ensures TextAgrees(a, b, f) { FieldGiven(a, b, f); }
    }
  }

  lemma FieldsGive(a: Canonical, b: Canonical)
    requires ValidCanonical(a) && ValidCanonical(b)
    requires forall f :: TextAgrees(a, b, f)
    ensures TextsAgree(a, b)
  {
    hide KnownType, ValidDate, ValidStamp, IsoFormat, IsoDate, JsonText.Join, HexDigest, AllDigits, Ascii;
    assert TextAgrees(a, b, Metadata.ProviderId) && TextAgrees(a, b, Metadata.Exchange);
    assert TextAgrees(a, b, Metadata.Symbol) && TextAgrees(a, b, Metadata.InstrumentType);
    assert TextAgrees(a, b, Metadata.Expiry) && TextAgrees(a, b, Metadata.Strike);
    assert TextAgrees(a, b, Metadata.SnapshotDate) && TextAgrees(a, b, Metadata.SnapshotHash);
    assert TextAgrees(a, b, Metadata.FromTimestamp) && TextAgrees(a, b, Metadata.ToTimestamp);
    assert TextAgrees(a, b, Metadata.OpenInterest);
  }

  lemma FieldGiven(a: Canonical, b: Canonical, f: Metadata.MetaField)
    requires ValidCanonical(a) && ValidCanonical(b) && TextsAgree(a, b)
    ensures TextAgrees(a, b, f)
  {
    hide KnownType, ValidDate, ValidStamp, IsoFormat, IsoDate, JsonText.Join, HexDigest, AllDigits, Ascii;
  }

  /* ---------- the planned request ---------- */

  lemma {:induction false} ScanPositive(acc: nat, t: Text)
    requires forall i :: 0 <= i < |t| ==> 48 <= t[i] <= 57
    ensures JsonText.ScanDigits(acc, t).0 > 0 <==> acc > 0 || exists i :: 0 <= i < |t| && t[i] != 48
    decreases t
  {
    if t != [] {
      HeadTail(t);
      ScanPositive(10 * acc + (t[0] - 48), t[1..]);
      if i :| 0 <= i < |t| && t[i] != 48 { assert i > 0 ==> t[1..][i - 1] == t[i]; }
      if i :| 0 <= i < |t[1..]| && t[1..][i] != 48 { assert t[i + 1] == t[1..][i]; }
    }
  }

  lemma {:induction false} ScanBound(acc: nat, t: Text)
    requires forall i :: 0 <= i < |t| ==> 48 <= t[i] <= 57
    ensures JsonText.ScanDigits(acc, t).0 + 1 <= (acc + 1) * Pow10(|t|)
    decreases t
  {
    if t == [] {
      assert Pow10(0) == 1;
    } else {
      var next: nat, p := 10 * acc + (t[0] - 48), Pow10(|t| - 1);
      ScanBound(next, t[1..]);
      Rounding.Times(next + 1, 10 * (acc + 1), p);
      assert Pow10(|t|) == 10 * p;
      assert 10 * (acc + 1) * p == (acc + 1) * (10 * p);
    }
  }

  // The canonical id is no longer than the token.
  lemma IdLength(t: Text)
    requires AllDigits(t)
    ensures |JsonText.PrintNat(TokenNumber(t))| <= |t|
  {
    ScanBound(0, t);
    hide JsonText.PrintNat, JsonText.ScanDigits, Pow10;
    Rounding.DigitCount(TokenNumber(t), |t|);
  }

  /** A token has a canonical id exactly when it is a positive number of at most 4300 digits; the id is then a valid token
      for the same number, and its own canonical id. */
  lemma CanonicalIdGood(t: Text)
    ensures CanonicalId(t).Ok? <==> PositiveDigits(t) && |t| <= DIGIT_LIMIT
    ensures CanonicalId(t) == Err(DigitLimitExceeded) <==> AllDigits(t) && |t| > DIGIT_LIMIT
    ensures CanonicalId(t).Ok? ==>
              PositiveDigits(CanonicalId(t).value) && |CanonicalId(t).value| <= DIGIT_LIMIT &&
              TokenNumber(CanonicalId(t).value) == TokenNumber(t) && CanonicalId(CanonicalId(t).value) == CanonicalId(t)
  {
    if AllDigits(t) { ScanPositive(0, t); }
    if CanonicalId(t).Ok? {
      var id := CanonicalId(t).value;
      IdLength(t);
      JsonText.ScanPrint(TokenNumber(t), []);
      assert id + [] == id;
      hide JsonText.ScanDigits, JsonText.PrintNat;
      ScanPositive(0, id);
    }
  }

  // The strike has a canonical text.
  predicate StrikePrints(p: Plan) {
    p.instrument.strike.Some? ==> DecimalText.Canonical(p.instrument.strike.value).Ok?
  }

  function CanonicalOf(p: Plan, start: Stamp, end: Stamp): Canonical
    requires CanonicalId(p.instrument.token).Ok? && StrikePrints(p)
  {
    Canonical(CanonicalId(p.instrument.token).value, p.exchange, p.workItem.symbol, p.instrument.instrumentType,
              p.instrument.expiry,
              if p.instrument.strike.Some? then Some(DecimalText.Canonical(p.instrument.strike.value).value) else None,
              p.snapshotDate, p.snapshotSha256, start, end, p.oi)
  }

  // The identity and window checks pass, and the strike is within the context's range.
  predicate Plannable(p: Plan) {
    WellFormed(p) && IdentityFault(p).None? && ValidateWindow(p.workItem).Ok? && StrikePrints(p)
  }

  function CanonicalPlan(p: Plan): (c: Canonical)
    requires Plannable(p)
  {
    CanonicalOf(p, ValidateWindow(p.workItem).value.0, ValidateWindow(p.workItem).value.1)
  }

  lemma PlainAscii(d: Decimal)
    requires d.Finite?
    ensures Ascii(DecimalText.PrintPlain(d))
  {
    hide DecimalText.PrintMagnitude;
    MagnitudeAscii(Rounding.Magnitude(d.coefficient), d.exponent);
  }

  lemma MagnitudeAscii(n: nat, e: int)
    ensures Ascii(DecimalText.PrintMagnitude(n, e))
  {
    hide JsonText.PrintNat, DecimalText.Zeros;
    var s := JsonText.PrintNat(n);
    assert forall i :: 0 <= i < |s| ==> JsonText.IsDigit(s[i]);
    if e >= 0 { DecimalText.ZerosDigits(e); }
    else if |s| <= -e { DecimalText.ZerosDigits(-e - |s|); }
  }

  lemma CanonicalAscii(d: Decimal)
    ensures DecimalText.Canonical(d).Ok? ==> Ascii(DecimalText.Canonical(d).value)
  {
    hide DecimalText.PrintPlain, DecimalText.Strip, Rounding.Fixed;
    if d.Finite? && d.coefficient != 0 && Rounding.Fixed(d).Some? { PlainAscii(DecimalText.Strip(Rounding.Fixed(d).value)); }
  }

  lemma PlanIsCanonical(p: Plan)
    requires Plannable(p)
    ensures ValidCanonical(CanonicalPlan(p))
  {
    CanonicalIdGood(p.instrument.token);
    WindowAcceptedIff(p.workItem);
    if p.instrument.strike.Some? { CanonicalAscii(p.instrument.strike.value); }
    hide DecimalText.Canonical, ValidateWindow, CanonicalId, NameFault, DerivativeFault, ValidDate, KnownType, Ascii, DayNumber, SessionWindow;
    WindowStamps(p.workItem.sessionDate, ValidateWindow(p.workItem).value.0, ValidateWindow(p.workItem).value.1);
  }

  lemma WindowStamps(session: Date, start: Stamp, end: Stamp)
    requires ValidDate(session) && SessionWindow(session, start, end)
    ensures ValidStamp(start) && ValidStamp(end) && start.offset == IST == end.offset
  {
  }

  // Two plans that denote the same request.
  predicate SameStrike(a: Option<Decimal>, b: Option<Decimal>) {
    match (a, b)
    case (None, None) => true
    case (Some(x), Some(y)) =>
      x.Finite? && y.Finite? && Rounding.Fixed(x).Some? && Rounding.Fixed(y).Some? &&
      Same(Rounding.Fixed(x).value, Rounding.Fixed(y).value)
    case _ => false
  }

  predicate SameRequest(p: Plan, q: Plan) {
    TokenNumber(p.instrument.token) == TokenNumber(q.instrument.token) &&
    JsonText.Join(p.exchange) == JsonText.Join(q.exchange) &&
    JsonText.Join(p.workItem.symbol) == JsonText.Join(q.workItem.symbol) &&
    p.instrument.instrumentType == q.instrument.instrumentType && p.instrument.expiry == q.instrument.expiry &&
    SameStrike(p.instrument.strike, q.instrument.strike) &&
    p.snapshotDate == q.snapshotDate && p.snapshotSha256 == q.snapshotSha256 &&
    Instant(p.workItem.start) == Instant(q.workItem.start) && Instant(p.workItem.end) == Instant(q.workItem.end) &&
    p.oi == q.oi
  }

  lemma PayloadEqual(a: seq<Json.Member>, b: seq<Json.Member>)
    ensures FingerprintInput(a) == FingerprintInput(b) <==> JsonText.Dumps(Json.JObj(a)) == JsonText.Dumps(Json.JObj(b))
  {
    Frames.DumpsAscii(Json.JObj(a));
    Frames.DumpsAscii(Json.JObj(b));
    Frames.Utf8Ascii(JsonText.Dumps(Json.JObj(a)));
    Frames.Utf8Ascii(JsonText.Dumps(Json.JObj(b)));
    hide JsonText.Dumps, Frames.Utf8, Frames.ToBytes, Ascii;
  }

  lemma StrikeEqual(a: Option<Decimal>, b: Option<Decimal>)
    requires a.Some? ==> a.value.Finite? && a.value.coefficient >= 0 && DecimalText.Canonical(a.value).Ok?
    requires b.Some? ==> b.value.Finite? && b.value.coefficient >= 0 && DecimalText.Canonical(b.value).Ok?
    ensures (a.Some? <==> b.Some?) && (a.Some? ==> DecimalText.Canonical(a.value).value == DecimalText.Canonical(b.value).value) <==>
            SameStrike(a, b)
  {
    hide Rounding.Fixed, Same, DecimalText.Canonical;
    if a.Some? && b.Some? { DecimalText.CanonicalEqualIff(a.value, b.value); }
  }

  lemma IdEqual(a: Text, b: Text)
    requires CanonicalId(a).Ok? && CanonicalId(b).Ok?
    ensures CanonicalId(a) == CanonicalId(b) <==> TokenNumber(a) == TokenNumber(b)
  {
    CanonicalIdGood(a);
    CanonicalIdGood(b);
    hide TokenNumber, AllDigits, PositiveDigits;
  }

  lemma StampsEqual(a: Stamp, b: Stamp)
    requires a.offset == b.offset
    ensures a == b <==> Instant(a) == Instant(b)
  {
  }

  lemma CanonicalEqualIff(p: Plan, q: Plan)
    requires Plannable(p) && Plannable(q)
    ensures SameFields(CanonicalPlan(p), CanonicalPlan(q)) <==> SameRequest(p, q)
  {
    PlanIsCanonical(p);
    PlanIsCanonical(q);
    WindowAcceptedIff(p.workItem);
    WindowAcceptedIff(q.workItem);
    FiniteStrike(p);
    FiniteStrike(q);
    hide IdentityFault, ValidateWindow, DecimalText.Canonical, SameStrike, CanonicalId, TokenNumber, SessionWindow, WellFormed,
         ValidDate, KnownType, HexDigest, AllDigits, Ascii, ValidStamp, JsonText.Join, Instant;
    StrikeEqual(p.instrument.strike, q.instrument.strike);
    IdEqual(p.instrument.token, q.instrument.token);
    StampsEqual(CanonicalPlan(p).start, CanonicalPlan(q).start);
    StampsEqual(CanonicalPlan(p).end, CanonicalPlan(q).end);
  }

  lemma FiniteStrike(p: Plan)
    requires Plannable(p)
    ensures p.instrument.strike.Some? ==>
              p.instrument.strike.value.Finite? && p.instrument.strike.value.coefficient >= 0 &&
              DecimalText.Canonical(p.instrument.strike.value).Ok?
    ensures CanonicalId(p.instrument.token).Ok?
  {
    hide CanonicalId, NameFault, ValidateWindow, DecimalText.Canonical;
  }

  /** The fingerprint's input bytes, for dicts filled in any order, are equal exactly when the plans denote the same
      request: the same token number, names, type, expiry, strike as the context keeps it, snapshot, instants and flag. */
  lemma FingerprintsAgreeIff(p: Plan, x: seq<Json.Member>, q: Plan, y: seq<Json.Member>)
    requires Plannable(p) && Plannable(q)
    requires ValidCanonical(CanonicalPlan(p)) && Metadata.DictOf(x, Values(CanonicalPlan(p)))
    requires ValidCanonical(CanonicalPlan(q)) && Metadata.DictOf(y, Values(CanonicalPlan(q)))
    ensures FingerprintInput(x) == FingerprintInput(y) <==> SameRequest(p, q)
  {
    hide Plannable, CanonicalPlan, ValidCanonical, Metadata.DictOf, SameRequest, SameFields, FingerprintInput, MetaValue;
    var a, b := CanonicalPlan(p), CanonicalPlan(q);
    PayloadEqual(x, y);
    CanonicalEqualIff(p, q);
    ValueEqual(a, b);
    forall f ensures Metadata.Scalar(Values(a)(f)) && Metadata.Scalar(Values(b)(f)) { ScalarValue(a, f); ScalarValue(b, f); }
    Metadata.SameBytesIff(x, Values(a), y, Values(b));
    hide FieldAgrees, JsonText.JoinJson;
    forall f ensures FieldAgrees(a, b, f) <==> JsonText.JoinJson(Values(a)(f)) == JsonText.JoinJson(Values(b)(f)) { AgreeMeans(a, b, f); }
  }

  lemma AgreeMeans(a: Canonical, b: Canonical, f: Metadata.MetaField)
    requires ValidCanonical(a) && ValidCanonical(b)
    ensures FieldAgrees(a, b, f) <==> JsonText.JoinJson(Values(a)(f)) == JsonText.JoinJson(Values(b)(f))
  {
    hide MetaValue, ValidCanonical, JsonText.JoinJson;
  }

  lemma ScalarValue(c: Canonical, f: Metadata.MetaField)
    requires ValidCanonical(c)
    ensures Metadata.Scalar(Values(c)(f))
  {
    hide ValidCanonical, IsoDate, IsoFormat;
  }

  // The hash of the dict in the order `_canonical_metadata` fills it.
  function Fingerprint(p: Plan): Text
    requires Plannable(p)
  {
    PlanIsCanonical(p);
    Sha256(FingerprintInput(Metadata.Members(Values(CanonicalPlan(p)))))
  }

  /** `plan_historical_candles`; `id` is None when the id factory raises. */
  function PlanHistoricalCandles(p: Plan, id: Option<Text>): Result<Retry.Planned, PlanningError>
    requires WellFormed(p)
  {
    if IdentityFault(p).Some? then Err(IdentityFault(p).value)
    else
      match ValidateWindow(p.workItem)
      case Err(e) => Err(e)
      case Ok((start, end)) =>
        if !StrikePrints(p) then Err(DecimalOverflow)
        else
          var fingerprint := Fingerprint(p);
          var providerId := CanonicalId(p.instrument.token).value;
          if id.None? then Err(InvalidRequestId)
          else
            match MakeRequest(CandleRequest(1, id.value, providerId, Lit("minute"), start, end, false, p.oi))
            case Err(_) => Err(InvalidRequestId)
            case Ok(q) => Ok(Retry.Planned(fingerprint, providerId, q))
  }

  /** Plans that denote the same request are planned under the same fingerprint, whatever their request ids. */
  lemma SameRequestSameFingerprint(p: Plan, first: Option<Text>, q: Plan, second: Option<Text>)
    requires WellFormed(p) && WellFormed(q) && SameRequest(p, q)
    requires PlanHistoricalCandles(p, first).Ok? && PlanHistoricalCandles(q, second).Ok?
    ensures PlanHistoricalCandles(p, first).value.fingerprint == PlanHistoricalCandles(q, second).value.fingerprint
    ensures PlanHistoricalCandles(p, first).value.instrumentId == PlanHistoricalCandles(q, second).value.instrumentId
  {
    PlannedPlannable(p, first);
    PlannedPlannable(q, second);
    PlanIsCanonical(p);
    PlanIsCanonical(q);
    FiniteStrike(p);
    FiniteStrike(q);
    hide Plannable, CanonicalPlan, ValidCanonical, FingerprintInput, Values, Metadata.Members, Metadata.DictOf, CanonicalId,
         PlanHistoricalCandles, WellFormed;
    IdEqual(p.instrument.token, q.instrument.token);
    var x, y := Metadata.Members(Values(CanonicalPlan(p))), Metadata.Members(Values(CanonicalPlan(q)));
    Metadata.MembersDict(Values(CanonicalPlan(p)));
    Metadata.MembersDict(Values(CanonicalPlan(q)));
    FingerprintsAgreeIff(p, x, q, y);
  }

  lemma PlannedPlannable(p: Plan, id: Option<Text>)
    requires WellFormed(p) && PlanHistoricalCandles(p, id).Ok?
    ensures Plannable(p) && CanonicalId(p.instrument.token).Ok?
    ensures PlanHistoricalCandles(p, id).value.fingerprint == Fingerprint(p)
    ensures PlanHistoricalCandles(p, id).value.instrumentId == CanonicalId(p.instrument.token).value
  {
    hide IdentityFault, ValidateWindow, StrikePrints, MakeRequest, Fingerprint, CanonicalId, WellFormed;
    IdentityGivesId(p);
  }

  lemma IdentityGivesId(p: Plan)
    requires WellFormed(p) && IdentityFault(p).None?
    ensures CanonicalId(p.instrument.token).Ok?
  {
    hide CanonicalId, NameFault, DerivativeFault, KnownType;
  }

  /* ---------- exceptions that are no planning errors ---------- */

  // What a caller can check beforehand: a token of more than 4300 digits, a window outside the calendar once in IST, or a
  // strike that the context rounds to 10^1000000 or more.
  predicate Escapes(p: Plan)
    requires WellFormed(p)
  {
    (NameFault(p).None? && AllDigits(p.instrument.token) && |p.instrument.token| > DIGIT_LIMIT) ||
    (IdentityFault(p).None? && (ToZone(p.workItem.start, IST).None? || ToZone(p.workItem.end, IST).None?)) ||
    (IdentityFault(p).None? && ValidateWindow(p.workItem).Ok? && p.instrument.strike.Some? &&
     p.instrument.strike.value.Finite? && Le(Rounding.OverflowAt(), p.instrument.strike.value))
  }

  lemma StrikeOverflows(d: Decimal)
    requires d.Finite? && d.coefficient >= 0
    ensures DecimalText.Canonical(d).Err? <==> Le(Rounding.OverflowAt(), d)
  {
    if d.coefficient > 0 {
      Rounding.OverflowIff(d);
      hide Rounding.Fixed, Le, DecimalText.Shown;
    } else {
      Rounding.PowerOnGrid();
      Rounding.GridLength(Pow10(Rounding.PRECISION), Rounding.EMAX + 1 - Rounding.PRECISION);
      hide Rounding.AtGrid, Pow10, Rounding.Length, Rounding.Fixed;
      ZeroBelow(d, Rounding.OverflowAt());
    }
  }

  lemma ZeroBelow(d: Decimal, x: Decimal)
    requires d.Finite? && d.coefficient == 0 && Positive(x)
    ensures !Le(x, d)
  {
    hide At, Pow10;
    var m := Common(x, d);
    Rounding.AtPositive(x, m);
    assert At(d, m) == 0 by { ZeroAt(d, m); }
  }

  lemma ZeroAt(d: Decimal, e: int)
    requires d.Finite? && d.coefficient == 0 && e <= d.exponent
    ensures At(d, e) == 0
  {
  }

  lemma IdentityUncaught(p: Plan)
    requires WellFormed(p)
    ensures IdentityFault(p).Some? && Uncaught(IdentityFault(p).value) <==>
            NameFault(p).None? && AllDigits(p.instrument.token) && |p.instrument.token| > DIGIT_LIMIT
    ensures IdentityFault(p).None? ==> !(AllDigits(p.instrument.token) && |p.instrument.token| > DIGIT_LIMIT)
  {
    CanonicalIdGood(p.instrument.token);
    CanonicalIdFaults(p.instrument.token);
    NameFaults(p);
    hide CanonicalId, NameFault, DerivativeFault, KnownType, AllDigits, HexDigest, DayNumber;
  }

  lemma CanonicalIdFaults(t: Text)
    ensures CanonicalId(t).Err? ==> CanonicalId(t).error.InvalidResolvedInstrument? || CanonicalId(t).error.DigitLimitExceeded?
  {
    hide AllDigits, TokenNumber;
  }

  lemma NameFaults(p: Plan)
    ensures NameFault(p).Some? ==> !Uncaught(NameFault(p).value)
  {
    hide Normalized, Blank;
  }

  lemma WindowUncaught(w: WorkItem)
    requires ValidDate(w.sessionDate)
    ensures ValidateWindow(w).Err? && Uncaught(ValidateWindow(w).error) <==> ToZone(w.start, IST).None? || ToZone(w.end, IST).None?
  {
    hide ToZone, DayNumber, ValidDate;
  }

  lemma NonNegativeStrike(p: Plan)
    requires WellFormed(p) && IdentityFault(p).None?
    ensures p.instrument.strike.Some? ==> p.instrument.strike.value.Finite? && p.instrument.strike.value.coefficient >= 0
  {
    hide CanonicalId, NameFault;
  }

  /** Planning raises something other than its own error exactly for those plans. */
  lemma EscapesIff(p: Plan, id: Option<Text>)
    requires WellFormed(p)
    ensures PlanHistoricalCandles(p, id).Err? && Uncaught(PlanHistoricalCandles(p, id).error) <==> Escapes(p)
  {
    IdentityUncaught(p);
    WindowUncaught(p.workItem);
    if IdentityFault(p).None? {
      NonNegativeStrike(p);
      if p.instrument.strike.Some? { StrikeOverflows(p.instrument.strike.value); }
    }
    hide WellFormed, IdentityFault, NameFault, ValidateWindow, MakeRequest, Fingerprint, AllDigits, ToZone, Le, DecimalText.Canonical,
         CanonicalId;
    if IdentityFault(p).None? { IdentityGivesId(p); }
  }

  lemma WindowBuilds(session: Date, start: Stamp, end: Stamp, id: Text, token: Text, oi: bool)
    requires ValidDate(session) && SessionWindow(session, start, end) && PositiveDigits(token) && |token| <= DIGIT_LIMIT
    ensures var q := CandleRequest(1, id, token, Lit("minute"), start, end, false, oi);
            (CanonicalUuid(id) ==> ValidRequest(q) && MakeRequest(q) == Ok(q)) &&
            (!CanonicalUuid(id) ==> MakeRequest(q) == Err(Typed(MalformedClientRequest)))
  {
    var q := CandleRequest(1, id, token, Lit("minute"), start, end, false, oi);
    hide CanonicalUuid, PositiveDigits, DayNumber, ValidDate;
    if CanonicalUuid(id) {
      SameDay(session, start, end);
      MakeRequestValid(q);
    }
    hide MakeWindow;
  }

  lemma SameDay(session: Date, start: Stamp, end: Stamp)
    requires ValidDate(session) && SessionWindow(session, start, end)
    ensures DayIndex(start) == DayIndex(end) && start.local % MICROS == 0 && end.local % MICROS == 0
  {
    hide DayNumber;
    OneDay(start.local, DayNumber(session));
    OneDay(end.local, DayNumber(session));
    Minutes(start.local);
    Minutes(end.local);
  }

  lemma Minutes(local: int)
    requires local % MINUTE == 0
    ensures local % MICROS == 0
  {
    assert local == local / MINUTE * 60 * MICROS;
  }

  /** A plan that passes the identity and window checks, its strike in range, fails, if at all, only on its request id. */
  lemma PlannedFailsOnlyOnId(p: Plan, id: Option<Text>)
    requires Plannable(p)
    ensures PlanHistoricalCandles(p, id).Ok? <==> id.Some? && CanonicalUuid(id.value)
    ensures PlanHistoricalCandles(p, id).Err? ==> PlanHistoricalCandles(p, id).error == InvalidRequestId
    ensures PlanHistoricalCandles(p, id).Ok? ==> ValidRequest(PlanHistoricalCandles(p, id).value.request)
  {
    hide IdentityFault, ValidateWindow, CanonicalUuid, SessionWindow, Values, Metadata.Members, CanonicalId, MakeRequest, ValidRequest,
         Fingerprint, StrikePrints, ValidDate, ValidStamp, Instant;
    PlanIsCanonical(p);
    WindowAcceptedIff(p.workItem);
    FiniteStrike(p);
    CanonicalIdGood(p.instrument.token);
    if id.Some? {
      WindowBuilds(p.workItem.sessionDate, ValidateWindow(p.workItem).value.0, ValidateWindow(p.workItem).value.1, id.value,
                   CanonicalId(p.instrument.token).value, p.oi);
    }
  }

  /* ---------- what a planned request asks for ---------- */

  // The request is for this plan's instrument, from its window's start to its window's end, at one-minute resolution.
  predicate SaysPlan(p: Plan, q: CandleRequest) {
    q.protocolVersion == 1 &&
    Instant(q.fromTimestamp) == Instant(p.workItem.start) && Instant(q.toTimestamp) == Instant(p.workItem.end) &&
    q.fromTimestamp.offset == IST && q.toTimestamp.offset == IST &&
    AllDigits(q.instrumentToken) && q.instrumentToken[0] != 48 && TokenNumber(q.instrumentToken) == TokenNumber(p.instrument.token) &&
    q.interval == Lit("minute") && !q.continuous && q.oi == p.oi
  }

  lemma IdHead(t: Text)
    requires CanonicalId(t).Ok?
    ensures CanonicalId(t).value != [] && CanonicalId(t).value[0] != 48
  {
    hide AllDigits, TokenNumber;
  }

  lemma BuiltSaysPlan(p: Plan, id: Text)
    requires WellFormed(p) && ValidateWindow(p.workItem).Ok? && CanonicalId(p.instrument.token).Ok?
    ensures SaysPlan(p, CandleRequest(1, id, CanonicalId(p.instrument.token).value, Lit("minute"), ValidateWindow(p.workItem).value.0,
                                      ValidateWindow(p.workItem).value.1, false, p.oi))
  {
    WindowAcceptedIff(p.workItem);
    CanonicalIdGood(p.instrument.token);
    IdHead(p.instrument.token);
    hide ValidateWindow, CanonicalId, TokenNumber, Instant, ToZone, ValidStamp, ValidDate, DayNumber, WellFormed;
    assert WellFormed(p) ==> ValidDate(p.workItem.sessionDate) by { DatesGood(p); }
    WindowStamps(p.workItem.sessionDate, ValidateWindow(p.workItem).value.0, ValidateWindow(p.workItem).value.1);
  }

  lemma DatesGood(p: Plan)
    requires WellFormed(p)
    ensures ValidDate(p.workItem.sessionDate)
  {
  }

  // Construction keeps every field, the timestamps up to their offset.
  lemma MadeSaysPlan(p: Plan, q: CandleRequest)
    requires SaysPlan(p, q) && MakeRequest(q).Ok?
    ensures SaysPlan(p, MakeRequest(q).value) && MakeRequest(q).value.requestId == q.requestId
    ensures MakeRequest(q).value.instrumentToken == q.instrumentToken
  {
    MakeRequestValid(q);
    MakeRequestFields(q);
    ValidOffsets(MakeRequest(q).value);
    hide MakeRequest, ValidRequest, Instant, TokenNumber;
  }

  lemma MakeRequestFields(q: CandleRequest)
    requires MakeRequest(q).Ok?
    ensures var r := MakeRequest(q).value; r == q.(fromTimestamp := r.fromTimestamp, toTimestamp := r.toTimestamp)
  {
    hide ToZone, CanonicalUuid, PositiveDigits;
  }

  lemma ValidOffsets(q: CandleRequest)
    ensures ValidRequest(q) ==> q.fromTimestamp.offset == IST && q.toTimestamp.offset == IST
  {
  }

  /** Every planned request asks for exactly its plan: the whole window, the instrument's token number, one-minute candles that
      are not continuous, open interest as the plan has it; under the id that was drawn. */
  lemma PlannedRequestSays(p: Plan, id: Option<Text>)
    requires WellFormed(p) && PlanHistoricalCandles(p, id).Ok?
    ensures var planned := PlanHistoricalCandles(p, id).value;
            SaysPlan(p, planned.request) && id == Some(planned.request.requestId) && CanonicalUuid(planned.request.requestId) &&
            planned.instrumentId == planned.request.instrumentToken && ValidRequest(planned.request)
  {
    PlannedPlannable(p, id);
    PlannedFailsOnlyOnId(p, id);
    hide IdentityFault, ValidateWindow, CanonicalUuid, SessionWindow, CanonicalId, MakeRequest, ValidRequest, Fingerprint, StrikePrints,
         SaysPlan, WellFormed, Plannable;
    assert ValidateWindow(p.workItem).Ok?;
    BuiltSaysPlan(p, id.value);
    MadeSaysPlan(p, CandleRequest(1, id.value, CanonicalId(p.instrument.token).value, Lit("minute"), ValidateWindow(p.workItem).value.0,
                                  ValidateWindow(p.workItem).value.1, false, p.oi));
  }

  /** Every retry rebuilds the planned request under its fresh canonical id, with the same token, window and flags. */
  lemma RetryRebuilds(p: Plan, first: Text, id: Text)
    requires Plannable(p) && CanonicalUuid(first) && CanonicalUuid(id)
    requires PlanHistoricalCandles(p, Some(first)).Ok?
    ensures var planned := PlanHistoricalCandles(p, Some(first)).value;
            Retry.BrokerRequest(planned, id) == Ok(planned.request.(requestId := id)) &&
            PlanHistoricalCandles(p, Some(id)) == Ok(planned.(request := planned.request.(requestId := id)))
  {
    hide IdentityFault, ValidateWindow, CanonicalUuid, SessionWindow, Values, Metadata.Members, CanonicalId, MakeRequest, ValidRequest,
         Fingerprint, StrikePrints, ValidDate, ValidStamp, Instant;
    PlanIsCanonical(p);
    WindowAcceptedIff(p.workItem);
    FiniteStrike(p);
    CanonicalIdGood(p.instrument.token);
    var start, end := ValidateWindow(p.workItem).value.0, ValidateWindow(p.workItem).value.1;
    var token := CanonicalId(p.instrument.token).value;
    WindowBuilds(p.workItem.sessionDate, start, end, first, token, p.oi);
    WindowBuilds(p.workItem.sessionDate, start, end, id, token, p.oi);
  }

  lemma {:induction false} RunFromBuilds(p: Plan, first: Text, policy: RetryDelay.RetryPolicy, e: Retry.Surroundings, n: int, s: Retry.LoopState)
    requires Plannable(p) && CanonicalUuid(first) && PlanHistoricalCandles(p, Some(first)).Ok?
    ensures var o := Retry.RunFrom(PlanHistoricalCandles(p, Some(first)).value, policy, e, n, s);
            o != Retry.Raised(Retry.NoBrokerRequest) && o != Retry.Raised(Retry.DateOutOfRange) && o != Retry.Raised(Retry.TokenTooLong)
    decreases policy.maximumAttempts - n
  {
    hide WellFormed, IdentityFault, ValidateWindow, PlanHistoricalCandles, Retry.AttemptOnce, Retry.Ended, Retry.BrokerRequest, CanonicalUuid;
    var planned := PlanHistoricalCandles(p, Some(first)).value;
    if n <= policy.maximumAttempts {
      if CanonicalUuid(e.ids(n)) { RetryRebuilds(p, first, e.ids(n)); }
      var a := Retry.AttemptOnce(planned, policy, e, n, s.seen);
      CallFaults(policy, e, n, e.ids(n), planned, s.seen);
      if a.Again? { RunFromBuilds(p, first, policy, e, n + 1, Retry.Carry(s, a)); } else { FinishFaults(planned, s, a); }
    }
  }

  lemma CallFaults(policy: RetryDelay.RetryPolicy, e: Retry.Surroundings, n: int, id: Text, planned: Retry.Planned, seen: set<Text>)
    requires id == e.ids(n) && (CanonicalUuid(id) ==> Retry.BrokerRequest(planned, id).Ok?)
    ensures var a := Retry.AttemptOnce(planned, policy, e, n, seen);
            a.Abort? ==> !a.fault.NoBrokerRequest? && !a.fault.DateOutOfRange? && !a.fault.TokenTooLong?
  {
    hide Retry.BrokerRequest, CanonicalUuid, Retry.Decide, Retry.Retryable, Success2xx;
  }

  lemma FinishFaults(planned: Retry.Planned, s: Retry.LoopState, a: Retry.Attempt)
    requires !a.Again?
    requires a.Abort? ==> !a.fault.NoBrokerRequest? && !a.fault.DateOutOfRange? && !a.fault.TokenTooLong?
    ensures Retry.Ended(planned, s, a) != Retry.Raised(Retry.NoBrokerRequest)
    ensures Retry.Ended(planned, s, a) != Retry.Raised(Retry.DateOutOfRange)
    ensures Retry.Ended(planned, s, a) != Retry.Raised(Retry.TokenTooLong)
  {
    hide Retry.ResultAccepted;
  }

  /** No run of a planned request ever fails for want of a broker request. */
  lemma PlannedRunsBuild(p: Plan, first: Text, policy: RetryDelay.RetryPolicy, e: Retry.Surroundings)
    requires Plannable(p) && CanonicalUuid(first) && PlanHistoricalCandles(p, Some(first)).Ok?
    ensures var o := Retry.Run(PlanHistoricalCandles(p, Some(first)).value, policy, e);
            o != Retry.Raised(Retry.NoBrokerRequest) && o != Retry.Raised(Retry.DateOutOfRange) && o != Retry.Raised(Retry.TokenTooLong)
  {
    hide WellFormed, IdentityFault, ValidateWindow, PlanHistoricalCandles, CanonicalUuid, Retry.RunFrom;
    RunFromBuilds(p, first, policy, e, 1, Retry.START);
  }

  lemma SameNames(p: Plan, q: Plan)
    requires q == p.(workItem := p.workItem.(start := q.workItem.start, end := q.workItem.end))
    ensures NameFault(p) == NameFault(q)
  {
    hide Normalized, Blank;
  }

  /** Windows that denote the same instants plan alike, down to the fingerprint. */
  lemma OffsetsDoNotMatter(p: Plan, q: Plan, id: Option<Text>)
    requires WellFormed(p) && WellFormed(q)
    requires q == p.(workItem := p.workItem.(start := q.workItem.start, end := q.workItem.end))
    requires Instant(p.workItem.start) == Instant(q.workItem.start) && Instant(p.workItem.end) == Instant(q.workItem.end)
    ensures PlanHistoricalCandles(p, id) == PlanHistoricalCandles(q, id)
  {
    SameChecks(p, q);
    if Plannable(p) { assert CanonicalPlan(p) == CanonicalPlan(q) by { hide IdentityFault, ValidateWindow, WellFormed, CanonicalId, DecimalText.Canonical; } }
    hide IdentityFault, ValidateWindow, WellFormed, CanonicalId, MakeRequest, Values, Fingerprint, StrikePrints;
  }

  lemma SameChecks(p: Plan, q: Plan)
    requires WellFormed(p) && WellFormed(q)
    requires q == p.(workItem := p.workItem.(start := q.workItem.start, end := q.workItem.end))
    requires Instant(p.workItem.start) == Instant(q.workItem.start) && Instant(p.workItem.end) == Instant(q.workItem.end)
    ensures IdentityFault(p) == IdentityFault(q) && ValidateWindow(p.workItem) == ValidateWindow(q.workItem)
  {
    SameNames(p, q);
    hide NameFault, CanonicalId, DerivativeFault, HexDigest, KnownType, DayNumber, ValidDate;
    assert ToZone(p.workItem.start, IST) == ToZone(q.workItem.start, IST);
    assert ToZone(p.workItem.end, IST) == ToZone(q.workItem.end, IST);
  }
}
