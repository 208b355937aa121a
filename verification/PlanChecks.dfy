/** When a plan is accepted, said without the order of its checks; and what each refusal means. */
module PlanChecks {
  import opened Basics
  import opened Calendar
  import opened Decimals
  import opened Protocol
  import opened Planning

  /* ---------- `strip` ---------- */

  // `core` is what is left of `t` once the white space around it is taken away.
  ghost predicate Stripped(t: Text, core: Text) {
    (core == [] && Blank(t)) ||
    (core != [] && !Space(core[0]) && !Space(core[|core| - 1]) &&
     exists before: Text, after: Text :: Blank(before) && Blank(after) && t == before + core + after)
  }

  lemma {:induction false} LeftDropped(t: Text) returns (before: Text)
    ensures Blank(before) && t == before + DropLeft(t)
    ensures DropLeft(t) == [] || !Space(DropLeft(t)[0])
  {
    hide Space;
    before := [];
    if t != [] && Space(t[0]) {
      var more := LeftDropped(t[1..]);
      before := [t[0]] + more;
      HeadTail(t);
    }
  }

  lemma {:induction false} RightDropped(t: Text) returns (after: Text)
    ensures Blank(after) && t == DropRight(t) + after
    ensures DropRight(t) == [] || !Space(DropRight(t)[|DropRight(t)| - 1])
  {
    hide Space;
    after := [];
    if t != [] && Space(t[|t| - 1]) {
      var front := t[..|t| - 1];
      var more := RightDropped(front);
      after := more + [t[|t| - 1]];
      assert t == front + [t[|t| - 1]];
      assert DropRight(t) == DropRight(front);
    }
  }

  /** The two passes take away exactly the white space at both ends. */
  lemma StripIs(t: Text)
    ensures Stripped(t, DropRight(DropLeft(t)))
  {
    hide Space, DropLeft, DropRight;
    var before := LeftDropped(t);
    var left := DropLeft(t);
    var after := RightDropped(left);
    var core := DropRight(left);
    if core == [] {
      assert left == after;
      assert t == before + after;
    } else {
      assert left[0] == core[0];
      assert t == before + (core + after) == before + core + after;
    }
  }

  /* ---------- identity ---------- */

  // A name in the exchange's own spelling: not blank, no white space around it, upper case.
  ghost predicate Spelled(t: Text) { !Blank(t) && exists core :: Stripped(t, core) && t == UpperCase(core) }

  lemma Solid(t: Text, before: Text, core: Text, after: Text)
    requires t == before + core + after && Blank(before) && Blank(after)
    requires core != [] && !Space(core[0]) && !Space(core[|core| - 1])
    ensures !Space(t[|before|]) && !Space(t[|t| - |after| - 1]) && core == t[|before|..|t| - |after|]
    ensures forall k :: 0 <= k < |before| ==> Space(t[k])
    ensures forall k :: |t| - |after| <= k < |t| ==> Space(t[k])
  {
    hide Space;
    assert t[|before|] == core[0] && t[|t| - |after| - 1] == core[|core| - 1];
    forall k | 0 <= k < |before| ensures Space(t[k]) { assert t[k] == before[k]; }
    forall k | |t| - |after| <= k < |t| ensures Space(t[k]) { assert t[k] == after[k - (|t| - |after|)]; }
  }

  lemma CoreUnique(t: Text, core: Text, other: Text)
    requires Stripped(t, core) && Stripped(t, other) && !Blank(t)
    ensures core == other
  {
    hide Space;
    var a: Text, b: Text :| Blank(a) && Blank(b) && t == a + core + b;
    var c: Text, d: Text :| Blank(c) && Blank(d) && t == c + other + d;
    Solid(t, a, core, b);
    Solid(t, c, other, d);
    assert |a| == |c| && |b| == |d|;
  }

  lemma NormalizedIff(t: Text)
    requires !Blank(t)
    ensures Normalized(t) <==> Spelled(t)
  {
    StripIs(t);
    hide DropLeft, DropRight, Stripped, Blank;
    if Spelled(t) {
      var core :| Stripped(t, core) && t == UpperCase(core);
      CoreUnique(t, core, DropRight(DropLeft(t)));
    }
  }

  // What the source, the versions and the names must be.
  ghost predicate NamesAgree(p: Plan) {
    p.workItem.sourceId == Lit("zerodha") && p.workItem.barSize == Lit("1m") && p.protocolVersion == 1 && p.schemaVersion == 1 &&
    !p.continuous && Spelled(p.instrument.exchange) && Spelled(p.instrument.tradingsymbol) &&
    p.exchange == p.instrument.exchange && p.workItem.symbol == p.instrument.tradingsymbol
  }

  // What the instrument's type asks of expiry and strike; a contract is not planned after its expiry.
  predicate DerivativeAgrees(i: Instrument, session: Date) {
    if i.instrumentType == Lit("EQ") then i.expiry.None? && i.strike.None?
    else
      i.expiry.Some? && !Before(i.expiry.value, session) &&
      (if i.instrumentType == Lit("FUT") then i.strike.None?
       else (i.instrumentType == Lit("CE") || i.instrumentType == Lit("PE")) &&
            i.strike.Some? && i.strike.value.Finite? && i.strike.value.coefficient >= 0)
  }

  lemma NamesAccepted(p: Plan)
    ensures NameFault(p).None? <==> NamesAgree(p)
  {
    hide Blank, Normalized, Spelled;
    if !Blank(p.instrument.exchange) { NormalizedIff(p.instrument.exchange); }
    if !Blank(p.instrument.tradingsymbol) { NormalizedIff(p.instrument.tradingsymbol); }
    SpelledNotBlank(p.instrument.exchange);
    SpelledNotBlank(p.instrument.tradingsymbol);
  }

  lemma SpelledNotBlank(t: Text)
    ensures Spelled(t) ==> !Blank(t)
  {
  }

  lemma TypesDiffer(t: Text)
    ensures !(t == Lit("EQ") && t == Lit("FUT")) && !(t == Lit("EQ") && t == Lit("CE")) && !(t == Lit("EQ") && t == Lit("PE"))
    ensures !(t == Lit("FUT") && t == Lit("CE")) && !(t == Lit("FUT") && t == Lit("PE"))
  {
    assert Lit("EQ")[0] == 69 && Lit("CE")[0] == 67 && Lit("PE")[0] == 80;
    assert |Lit("FUT")| == 3 && |Lit("EQ")| == 2 && |Lit("CE")| == 2 && |Lit("PE")| == 2;
  }

  /** The identity is accepted exactly for a one-minute Zerodha item whose names are those of its instrument, spelled as the
      exchange spells them, with a positive token of at most 4300 digits, an expiry and strike as its type has them, not
      after expiry, and a SHA-256 for its snapshot. */
  lemma IdentityAcceptedIff(p: Plan)
    requires WellFormed(p)
    ensures IdentityFault(p).None? <==>
            NamesAgree(p) && PositiveDigits(p.instrument.token) && |p.instrument.token| <= DIGIT_LIMIT &&
            DerivativeAgrees(p.instrument, p.workItem.sessionDate) && HexDigest(p.snapshotSha256)
  {
    NamesAccepted(p);
    CanonicalIdGood(p.instrument.token);
    if p.instrument.expiry.Some? { NumbersFollowDates(p.instrument.expiry.value, p.workItem.sessionDate); }
    TypesDiffer(p.instrument.instrumentType);
    hide NameFault, NamesAgree, CanonicalId, PositiveDigits, HexDigest, DayNumber, Before, ValidDate, ValidStamp, Instant;
    TypeAgrees(p);
  }

  lemma TypeAgrees(p: Plan)
    requires p.instrument.expiry.Some? ==> ValidDate(p.instrument.expiry.value)
    requires ValidDate(p.workItem.sessionDate)
    requires p.instrument.expiry.Some? ==>
               (DayNumber(p.workItem.sessionDate) > DayNumber(p.instrument.expiry.value) <==>
                Before(p.instrument.expiry.value, p.workItem.sessionDate))
    ensures DerivativeAgrees(p.instrument, p.workItem.sessionDate) <==>
            KnownType(p.instrument.instrumentType) && !DerivativeFault(p.instrument) &&
            !(p.instrument.instrumentType != Lit("EQ") && p.instrument.expiry.Some? &&
              DayNumber(p.workItem.sessionDate) > DayNumber(p.instrument.expiry.value))
  {
    TypesDiffer(p.instrument.instrumentType);
    hide DayNumber, Before, ValidDate;
  }

  /** Each refusal names what is wrong with the identity. */
  lemma IdentityRefusedFor(p: Plan)
    requires WellFormed(p) && IdentityFault(p).Some?
    ensures var i := p.instrument;
            match IdentityFault(p).value
            case UnsupportedSource => p.workItem.sourceId != Lit("zerodha")
            case UnsupportedResolution => p.workItem.barSize != Lit("1m")
            case UnsupportedContinuousMode => p.continuous
            case InvalidResolvedInstrument =>
              p.protocolVersion != 1 || p.schemaVersion != 1 || !Spelled(i.exchange) || !Spelled(i.tradingsymbol) || !PositiveDigits(i.token)
            case ExchangeMismatch => Spelled(i.exchange) && p.exchange != i.exchange
            case SymbolMismatch => Spelled(i.tradingsymbol) && p.workItem.symbol != i.tradingsymbol
            case DigitLimitExceeded => AllDigits(i.token) && |i.token| > DIGIT_LIMIT
            case UnsupportedInstrumentType => i.instrumentType !in {Lit("EQ"), Lit("FUT"), Lit("CE"), Lit("PE")}
            case InvalidDerivativeIdentity => KnownType(i.instrumentType) && !DerivativeAgrees(i, p.workItem.sessionDate)
            case InvalidSnapshotHash => !HexDigest(p.snapshotSha256)
            case _ => false
  {
    if NameFault(p).Some? {
      NameRefusedFor(p);
      hide NameFault, Spelled, DerivativeAgrees, KnownType, CanonicalId, DerivativeFault;
    } else {
      CanonicalIdGood(p.instrument.token);
      CanonicalIdFaults(p.instrument.token);
      if p.instrument.expiry.Some? { NumbersFollowDates(p.instrument.expiry.value, p.workItem.sessionDate); }
      hide NameFault, Spelled, CanonicalId, PositiveDigits, AllDigits, HexDigest, DayNumber, Before, ValidDate, ValidStamp, Instant,
           DerivativeAgrees, DerivativeFault;
      TypeAgrees(p);
    }
  }

  lemma NameRefusedFor(p: Plan)
    requires NameFault(p).Some?
    ensures var i := p.instrument;
            match NameFault(p).value
            case UnsupportedSource => p.workItem.sourceId != Lit("zerodha")
            case UnsupportedResolution => p.workItem.barSize != Lit("1m")
            case UnsupportedContinuousMode => p.continuous
            case InvalidResolvedInstrument => p.protocolVersion != 1 || p.schemaVersion != 1 || !Spelled(i.exchange) || !Spelled(i.tradingsymbol)
            case ExchangeMismatch => Spelled(i.exchange) && p.exchange != i.exchange
            case SymbolMismatch => Spelled(i.tradingsymbol) && p.workItem.symbol != i.tradingsymbol
            case _ => false
  {
    hide Blank, Normalized, Spelled;
    if !Blank(p.instrument.exchange) { NormalizedIff(p.instrument.exchange); }
    if !Blank(p.instrument.tradingsymbol) { NormalizedIff(p.instrument.tradingsymbol); }
    SpelledNotBlank(p.instrument.exchange);
    SpelledNotBlank(p.instrument.tradingsymbol);
  }

  /* ---------- window ---------- */

  // Both ends fall on the IST date with this number.
  predicate OnDay(start: Stamp, end: Stamp, day: int) {
    day * DAY <= start.local < day * DAY + DAY && day * DAY <= end.local < day * DAY + DAY
  }

  lemma OnDayIs(start: Stamp, end: Stamp, day: int)
    ensures OnDay(start, end, day) <==> DayIndex(start) == day && DayIndex(end) == day
    ensures OnDay(start, end, day) ==> TimeOfDay(start) == start.local - day * DAY && TimeOfDay(end) == end.local - day * DAY
  {
    OneDay(start.local, day);
    OneDay(end.local, day);
  }

  /** A window is refused for what is wrong with it in IST: it leaves the calendar, spans two dates, falls on another date than
      the session's, is not whole minutes, or leaves 09:15 to 15:30; a well-formed window is never out of order. */
  lemma WindowRefusedFor(p: Plan)
    requires WellFormed(p) && ValidateWindow(p.workItem).Err?
    ensures var w := p.workItem; var start, end := ToZone(w.start, IST), ToZone(w.end, IST); var day := DayNumber(w.sessionDate);
            match ValidateWindow(w).error
            case CalendarOverflow => start.None? || end.None?
            case CrossSessionWindow => start.Some? && end.Some? && forall d: int :: !OnDay(start.value, end.value, d)
            case SessionDateMismatch =>
              start.Some? && end.Some? && !OnDay(start.value, end.value, day) && exists d: int :: OnDay(start.value, end.value, d)
            case NonMinuteAlignedWindow =>
              start.Some? && end.Some? && OnDay(start.value, end.value, day) &&
              (start.value.local % (60 * MICROS) != 0 || end.value.local % (60 * MICROS) != 0)
            case WindowOutsideSession =>
              start.Some? && end.Some? && OnDay(start.value, end.value, day) &&
              (start.value.local < day * DAY + 33_300 * MICROS || end.value.local > day * DAY + 55_800 * MICROS)
            case _ => false
  {
    var w := p.workItem;
    var day := DayNumber(w.sessionDate);
    if ToZone(w.start, IST).Some? && ToZone(w.end, IST).Some? {
      var start, end := ToZone(w.start, IST).value, ToZone(w.end, IST).value;
      assert start.local < end.local;
      forall d: int ensures OnDay(start, end, d) <==> DayIndex(start) == d && DayIndex(end) == d { OnDayIs(start, end, d); }
      OnDayIs(start, end, day);
      OnDayIs(start, end, DayIndex(start));
      hide ToZone, DayNumber, OnDay, DayIndex, TimeOfDay, Instant, ValidDate, ValidStamp;
    } else {
      hide DayNumber, ValidDate, ValidStamp;
    }
  }
}
