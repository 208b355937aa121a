/**
 Aware datetimes as exact microseconds: the proleptic Gregorian calendar, `isoformat`, and
 the part of `fromisoformat` that reads those forms back.  Asia/Kolkata is the fixed +05:30.
 */
module Calendar {
  import opened Basics

  const MICROS := 1_000_000
  const DAY := 86_400_000_000
  const IST := 19_800
  const MAX_DAYS := 3_652_059  // days before year 10000
  const MAX_LOCAL := 315_537_897_600_000_000

  /* ---------- dates ---------- */

  predicate Leap(y: int) { y % 4 == 0 && (y % 100 != 0 || y % 400 == 0) }

  // Days before 1 January of year `y`, counted from 0001-01-01.
  function YearStart(y: int): int { 365 * (y - 1) + (y - 1) / 4 - (y - 1) / 100 + (y - 1) / 400 }

  function YearLength(y: int): int { if Leap(y) then 366 else 365 }

  // Days before the first of month `m`; month 13 is the next year.
  function MonthStart(leap: bool, m: int): int
    requires 1 <= m <= 13
  {
    var feb := if leap then 29 else 28;
    if m == 1 then 0 else if m == 2 then 31 else
      var d := 31 + feb;
      if m == 3 then d else if m == 4 then d + 31 else if m == 5 then d + 61 else if m == 6 then d + 92
      else if m == 7 then d + 122 else if m == 8 then d + 153 else if m == 9 then d + 184
      else if m == 10 then d + 214 else if m == 11 then d + 245 else if m == 12 then d + 275
      else d + 306
  }

  datatype Date = Date(year: int, month: int, day: int)

  predicate ValidDate(d: Date) {
    1 <= d.year <= 9999 && 1 <= d.month <= 12 &&
    1 <= d.day <= MonthStart(Leap(d.year), d.month + 1) - MonthStart(Leap(d.year), d.month)
  }

  // `date.toordinal() - 1`.
  function DayNumber(d: Date): int
    requires ValidDate(d)
  {
    YearStart(d.year) + MonthStart(Leap(d.year), d.month) + d.day - 1
  }

  lemma Quarter(y: int)
    ensures y / 4 - (y - 1) / 4 == (if y % 4 == 0 then 1 else 0)
  {
  }

  lemma Century(y: int)
    ensures y / 100 - (y - 1) / 100 == (if y % 100 == 0 then 1 else 0)
  {
  }

  lemma FourCenturies(y: int)
    ensures y / 400 - (y - 1) / 400 == (if y % 400 == 0 then 1 else 0)
    ensures y % 400 == 0 ==> y % 100 == 0
    ensures y % 100 == 0 ==> y % 4 == 0
  {
  }

  lemma YearStep(y: int)
    ensures YearStart(y + 1) == YearStart(y) + YearLength(y)
  {
    Quarter(y);
    Century(y);
    FourCenturies(y);
  }

  lemma {:induction false} YearsIncrease(a: int, b: int)
    requires a < b
    ensures YearStart(a) + YearLength(a) <= YearStart(b)
    decreases b - a
  {
    if a + 1 < b {
      YearsIncrease(a, b - 1);
      YearStep(b - 1);
    } else {
      YearStep(a);
    }
  }

  function YearOf(n: int, y: int): (r: int)
    requires 1 <= y && YearStart(y) <= n < MAX_DAYS
    ensures y <= r <= 9999 && YearStart(r) <= n < YearStart(r) + YearLength(r)
    decreases 10_000 - y
  {
    YearStep(y);
    if y >= 10_000 then
      (if y > 10_000 then YearsIncrease(10_000, y); assert false; y else y)
    else if n < YearStart(y + 1) then y else YearOf(n, y + 1)
  }

  function MonthOf(leap: bool, n: int, m: int): (r: int)
    requires 1 <= m <= 12 && MonthStart(leap, m) <= n < MonthStart(leap, 13)
    ensures m <= r <= 12 && MonthStart(leap, r) <= n < MonthStart(leap, r + 1)
    decreases 12 - m
  {
    if m == 12 || n < MonthStart(leap, m + 1) then m else MonthOf(leap, n, m + 1)
  }

  // `date.fromordinal(n + 1)`.
  function DateOf(n: int): (d: Date)
    requires 0 <= n < MAX_DAYS
    ensures ValidDate(d) && DayNumber(d) == n
  {
    var y := YearOf(n, 1);
    var left := n - YearStart(y);
    var m := MonthOf(Leap(y), left, 1);
    Date(y, m, left - MonthStart(Leap(y), m) + 1)
  }

  lemma MonthsIncrease(leap: bool, a: int, b: int)
    requires 1 <= a < b <= 13
    ensures MonthStart(leap, a + 1) <= MonthStart(leap, b)
  {
  }

  lemma DayNumberRange(d: Date)
    requires ValidDate(d)
    ensures YearStart(d.year) <= DayNumber(d) < YearStart(d.year) + YearLength(d.year)
    ensures 0 <= DayNumber(d) < MAX_DAYS
  {
    MonthsIncrease(Leap(d.year), d.month, 13);
    YearsIncrease(d.year, 10_000);
    if d.year > 1 { YearsIncrease(1, d.year); }
  }

  lemma SameYear(d: Date, e: Date)
    requires ValidDate(d) && ValidDate(e) && DayNumber(d) == DayNumber(e)
    ensures d.year == e.year
  {
    DayNumberRange(d);
    DayNumberRange(e);
    if d.year < e.year { YearsIncrease(d.year, e.year); }
    if e.year < d.year { YearsIncrease(e.year, d.year); }
  }

  lemma SameMonth(leap: bool, m: int, a: int, n: int, b: int)
    requires 1 <= m <= 12 && 1 <= n <= 12
    requires 1 <= a <= MonthStart(leap, m + 1) - MonthStart(leap, m)
    requires 1 <= b <= MonthStart(leap, n + 1) - MonthStart(leap, n)
    requires MonthStart(leap, m) + a == MonthStart(leap, n) + b
    ensures m == n && a == b
  {
    if m < n { MonthsIncrease(leap, m, n); }
    if n < m { MonthsIncrease(leap, n, m); }
  }

  lemma SameDate(d: Date, e: Date)
    requires ValidDate(d) && ValidDate(e) && DayNumber(d) == DayNumber(e)
    ensures d == e
  {
    hide YearStart, Leap, MonthStart;
    SameYear(d, e);
    SameMonth(Leap(d.year), d.month, d.day, e.month, e.day);
  }

  /** Calendar dates and day numbers are in bijection. */
  lemma DateOfDayNumber(d: Date)
    requires ValidDate(d)
    ensures 0 <= DayNumber(d) < MAX_DAYS
    ensures DateOf(DayNumber(d)) == d
  {
    hide DateOf, DayNumber, ValidDate;
    DayNumberRange(d);
    SameDate(d, DateOf(DayNumber(d)));
  }

  // The calendar's own order of dates.
  predicate Before(d: Date, e: Date) {
    d.year < e.year || (d.year == e.year && (d.month < e.month || (d.month == e.month && d.day < e.day)))
  }

  lemma EarlierNumber(d: Date, e: Date)
    requires ValidDate(d) && ValidDate(e) && Before(d, e)
    ensures DayNumber(d) < DayNumber(e)
  {
    if d.year < e.year {
      DayNumberRange(d);
      DayNumberRange(e);
      YearsIncrease(d.year, e.year);
      hide DayNumber, YearStart, YearLength;
    } else if d.month < e.month {
      MonthsIncrease(Leap(d.year), d.month, e.month);
      hide MonthStart, YearStart;
    }
  }

  /** Day numbers follow the calendar's order. */
  lemma NumbersFollowDates(d: Date, e: Date)
    requires ValidDate(d) && ValidDate(e)
    ensures DayNumber(d) < DayNumber(e) <==> Before(d, e)
  {
    hide DayNumber, ValidDate;
    if Before(d, e) { EarlierNumber(d, e); } else if d != e { EarlierNumber(e, d); }
  }

  /** The days of each month. */
  lemma MonthLengths(d: Date)
    ensures ValidDate(d) <==>
            1 <= d.year <= 9999 && 1 <= d.month <= 12 && 1 <= d.day &&
            d.day <= if d.month == 2 then (if d.year % 4 == 0 && (d.year % 100 != 0 || d.year % 400 == 0) then 29 else 28)
                     else if d.month in {4, 6, 9, 11} then 30 else 31
  {
  }

  /* ---------- aware datetimes ---------- */

  // `local` counts microseconds from 0001-01-01T00:00:00 on the wall clock of `offset` seconds.
  datatype Stamp = Stamp(local: int, offset: int)

  predicate ValidStamp(s: Stamp) {
    0 <= s.local < MAX_LOCAL && s.offset % 60 == 0 && -86_400 < s.offset < 86_400
  }

  function Instant(s: Stamp): int { s.local - s.offset * MICROS }

  // Wall-clock date (as a day number) and time of day in microseconds.
  function DayIndex(s: Stamp): int { s.local / DAY }

  function TimeOfDay(s: Stamp): int { s.local % DAY }

  /** `astimezone`: the same instant on another wall clock; None is Python's OverflowError. */
  function ToZone(s: Stamp, offset: int): (r: Option<Stamp>)
    requires offset % 60 == 0 && -86_400 < offset < 86_400
    ensures r.Some? ==> ValidStamp(r.value) && r.value.offset == offset && Instant(r.value) == Instant(s)
    ensures ValidStamp(s) && s.offset == offset ==> r == Some(s)
  {
    var local := Instant(s) + offset * MICROS;
    if 0 <= local < MAX_LOCAL then Some(Stamp(local, offset)) else None
  }

  /* ---------- fixed-width digits ---------- */

  function Pow10(n: nat): (r: int)
    ensures r >= 1
  {
    if n == 0 then 1 else 10 * Pow10(n - 1)
  }

  function PrintFixed(n: nat, width: nat): (t: Text)
    ensures |t| == width
  {
    if width == 0 then [] else PrintFixed(n / 10, width - 1) + [48 + n % 10]
  }

  function ParseFixed(t: Text): (r: Option<nat>) {
    if t == [] then Some(0)
    else
      var last := t[|t| - 1];
      match ParseFixed(t[..|t| - 1])
      case None => None
      case Some(n) => if 48 <= last <= 57 then Some(10 * n + (last - 48)) else None
  }

  lemma {:induction false} ParsePrintFixed(n: nat, width: nat)
    requires n < Pow10(width)
    ensures ParseFixed(PrintFixed(n, width)) == Some(n)
  {
    if width > 0 {
      ParsePrintFixed(n / 10, width - 1);
      var t := PrintFixed(n, width);
      assert t[..|t| - 1] == PrintFixed(n / 10, width - 1);
      assert t[|t| - 1] == 48 + n % 10;
    }
  }

  /* ---------- isoformat / fromisoformat ---------- */

  // "YYYY-MM-DDTHH:MM:SS"
  function IsoSeconds(local: int): (t: Text)
    requires 0 <= local < MAX_LOCAL
    ensures |t| == 19
  {
    var d := DateOf(local / DAY);
    var s := local % DAY / MICROS;
    PrintFixed(d.year, 4) + [45] + PrintFixed(d.month, 2) + [45] + PrintFixed(d.day, 2) + [84] +
    PrintFixed(s / 3600, 2) + [58] + PrintFixed(s / 60 % 60, 2) + [58] + PrintFixed(s % 60, 2)
  }

  function IsoLocal(local: int): (t: Text)
    requires 0 <= local < MAX_LOCAL
    ensures |t| == (if local % MICROS == 0 then 19 else 26)
  {
    if local % MICROS == 0 then IsoSeconds(local)
    else IsoSeconds(local) + [46] + PrintFixed(local % MICROS, 6)
  }

  function IsoOffset(offset: int): (t: Text)
    requires -86_400 < offset < 86_400
    ensures |t| == 6
  {
    var m := (if offset < 0 then -offset else offset) / 60;
    [if offset < 0 then 45 else 43] + PrintFixed(m / 60, 2) + [58] + PrintFixed(m % 60, 2)
  }

  function IsoFormat(s: Stamp): (t: Text)
    requires ValidStamp(s)
    ensures |t| == (if s.local % MICROS == 0 then 25 else 32)
  {
    IsoLocal(s.local) + IsoOffset(s.offset)
  }

  // `datetime(y, mo, d, h, mi, s)`, None when a field is out of range.
  function WallClock(y: int, mo: int, d: int, h: int, mi: int, s: int): (r: Option<int>)
    ensures r.Some? ==> 0 <= r.value < MAX_LOCAL && r.value % MICROS == 0
  {
    if ValidDate(Date(y, mo, d)) && 0 <= h < 24 && 0 <= mi < 60 && 0 <= s < 60 then
      DayNumberRange(Date(y, mo, d));
      Some(DayNumber(Date(y, mo, d)) * DAY + (h * 3600 + mi * 60 + s) * MICROS)
    else None
  }

  function ParseSeconds(t: Text): (r: Option<int>)
    requires |t| == 19
    ensures r.Some? ==> 0 <= r.value < MAX_LOCAL && r.value % MICROS == 0
  {
    if t[4] != 45 || t[7] != 45 || t[10] != 84 || t[13] != 58 || t[16] != 58 then None
    else
      match (ParseFixed(t[..4]), ParseFixed(t[5..7]), ParseFixed(t[8..10]),
             ParseFixed(t[11..13]), ParseFixed(t[14..16]), ParseFixed(t[17..]))
      case (Some(y), Some(mo), Some(d), Some(h), Some(mi), Some(s)) => WallClock(y, mo, d, h, mi, s)
      case _ => None
  }

  lemma WithFraction(seconds: int, us: nat)
    requires 0 <= seconds < MAX_LOCAL && seconds % MICROS == 0 && us < MICROS
    ensures seconds + us < MAX_LOCAL
  {
  }

  function ParseLocal(t: Text): (r: Option<int>)
    ensures r.Some? ==> 0 <= r.value < MAX_LOCAL
  {
    if |t| == 19 then ParseSeconds(t)
    else if |t| == 26 && t[19] == 46 then
      match (ParseSeconds(t[..19]), ParseFixed(t[20..]))
      case (Some(s), Some(us)) =>
        if us < MICROS then
          WithFraction(s, us);
          Some(s + us)
        else None
      case _ => None
    else None
  }

  function ParseOffset(t: Text): (r: Option<int>)
    requires |t| == 6
    ensures r.Some? ==> r.value % 60 == 0 && -86_400 < r.value < 86_400
  {
    if (t[0] != 43 && t[0] != 45) || t[3] != 58 then None
    else
      match (ParseFixed(t[1..3]), ParseFixed(t[4..]))
      case (Some(h), Some(m)) =>
        var seconds: int := h * 3600 + m * 60;
        if h < 24 && m < 60 then Some(if t[0] == 45 then -seconds else seconds) else None
      case _ => None
  }

  /** `datetime.fromisoformat` on the aware forms `isoformat` prints. */
  function ParseIso(t: Text): (r: Option<Stamp>)
    ensures r.Some? ==> ValidStamp(r.value)
  {
    if |t| < 6 then None
    else
      match (ParseLocal(t[..|t| - 6]), ParseOffset(t[|t| - 6..]))
      case (Some(local), Some(offset)) => Some(Stamp(local, offset))
      case _ => None
  }

  lemma TimeParts(local: int)
    requires 0 <= local
    ensures var s := local % DAY / MICROS;
            0 <= s < 86_400 && 0 <= s / 3600 < 24 &&
            s / 3600 * 3600 + s / 60 % 60 * 60 + s % 60 == s &&
            local / DAY * DAY + s * MICROS == local - local % MICROS
  {
    var s := local % DAY / MICROS;
    assert s / 60 == s / 3600 * 60 + s / 60 % 60 by { assert s / 60 / 60 == s / 3600; }
    assert local % DAY % MICROS == local % MICROS by {
      assert local == local / DAY * 86_400 * MICROS + local % DAY;
    }
  }

  lemma Widths()
    ensures Pow10(2) == 100 && Pow10(4) == 10_000 && Pow10(6) == MICROS
  {
    assert Pow10(1) == 10 && Pow10(3) == 1_000 && Pow10(5) == 100_000;
  }

  lemma SecondsLayout(y: Text, mo: Text, d: Text, h: Text, mi: Text, s: Text)
    requires |y| == 4 && |mo| == |d| == |h| == |mi| == |s| == 2
    ensures var t := y + [45] + mo + [45] + d + [84] + h + [58] + mi + [58] + s;
            |t| == 19 && t[..4] == y && t[5..7] == mo && t[8..10] == d && t[11..13] == h &&
            t[14..16] == mi && t[17..] == s &&
            t[4] == 45 && t[7] == 45 && t[10] == 84 && t[13] == 58 && t[16] == 58
  {
  }

  lemma WallClockParts(local: int)
    requires 0 <= local < MAX_LOCAL
    ensures var d := DateOf(local / DAY); var s := local % DAY / MICROS;
            WallClock(d.year, d.month, d.day, s / 3600, s / 60 % 60, s % 60) == Some(local - local % MICROS)
  {
    TimeParts(local);
  }

  lemma ParseParts(y: nat, mo: nat, d: nat, h: nat, mi: nat, s: nat)
    requires y < 10_000 && mo < 100 && d < 100 && h < 100 && mi < 100 && s < 100
    ensures ParseSeconds(PrintFixed(y, 4) + [45] + PrintFixed(mo, 2) + [45] + PrintFixed(d, 2) + [84] +
                         PrintFixed(h, 2) + [58] + PrintFixed(mi, 2) + [58] + PrintFixed(s, 2))
         == WallClock(y, mo, d, h, mi, s)
  {
    Widths();
    ParsePrintFixed(y, 4);
    ParsePrintFixed(mo, 2);
    ParsePrintFixed(d, 2);
    ParsePrintFixed(h, 2);
    ParsePrintFixed(mi, 2);
    ParsePrintFixed(s, 2);
    SecondsLayout(PrintFixed(y, 4), PrintFixed(mo, 2), PrintFixed(d, 2),
                  PrintFixed(h, 2), PrintFixed(mi, 2), PrintFixed(s, 2));
  }

  lemma ParseIsoSeconds(local: int)
    requires 0 <= local < MAX_LOCAL
    ensures ParseSeconds(IsoSeconds(local)) == Some(local - local % MICROS)
  {
    hide ParseSeconds, WallClock, PrintFixed, DateOf;
    var d := DateOf(local / DAY);
    var s := local % DAY / MICROS;
    TimeParts(local);
    WallClockParts(local);
    ParseParts(d.year, d.month, d.day, s / 3600, s / 60 % 60, s % 60);
  }

  lemma Split(a: Text, mid: Text, b: Text)
    ensures (a + mid + b)[..|a|] == a && (a + mid + b)[|a| + |mid|..] == b
    ensures (a + mid + b)[|a|..|a| + |mid|] == mid
  {
  }

  lemma ParseFraction(head: Text, seconds: int, us: nat)
    requires |head| == 19 && ParseSeconds(head) == Some(seconds) && us < MICROS
    ensures ParseLocal(head + [46] + PrintFixed(us, 6)) == Some(seconds + us)
  {
    Split(head, [46], PrintFixed(us, 6));
    Widths();
    ParsePrintFixed(us, 6);
    var t := head + [46] + PrintFixed(us, 6);
    assert t[19] == 46;
  }

  lemma ParseWhole(head: Text)
    requires |head| == 19
    ensures ParseLocal(head) == ParseSeconds(head)
  {
  }

  lemma IsoLocalForms(local: int)
    requires 0 <= local < MAX_LOCAL
    ensures local % MICROS == 0 ==> IsoLocal(local) == IsoSeconds(local)
    ensures local % MICROS != 0 ==> IsoLocal(local) == IsoSeconds(local) + [46] + PrintFixed(local % MICROS, 6)
  {
  }

  lemma ParseLocalForms(head: Text, seconds: int, us: nat, t: Text)
    requires |head| == 19 && ParseSeconds(head) == Some(seconds) && us < MICROS
    requires if us == 0 then t == head else t == head + [46] + PrintFixed(us, 6)
    ensures ParseLocal(t) == Some(seconds + us)
  {
    if us == 0 { ParseWhole(head); } else { ParseFraction(head, seconds, us); }
  }

  lemma ParseIsoLocal(local: int)
    requires 0 <= local < MAX_LOCAL
    ensures ParseLocal(IsoLocal(local)) == Some(local)
  {
    hide ParseLocal, IsoLocal, IsoSeconds, ParseSeconds;
    ParseIsoSeconds(local);
    IsoLocalForms(local);
    ParseLocalForms(IsoSeconds(local), local - local % MICROS, local % MICROS, IsoLocal(local));
  }

  lemma OffsetLayout(sign: CodePoint, h: nat, m: nat)
    requires (sign == 43 || sign == 45) && h < 24 && m < 60
    ensures ParseOffset([sign] + PrintFixed(h, 2) + [58] + PrintFixed(m, 2))
         == Some(if sign == 45 then -(h * 3600 + m * 60) else h * 3600 + m * 60)
  {
    Widths();
    ParsePrintFixed(h, 2);
    ParsePrintFixed(m, 2);
    var t := [sign] + PrintFixed(h, 2) + [58] + PrintFixed(m, 2);
    assert t[1..3] == PrintFixed(h, 2) && t[4..] == PrintFixed(m, 2);
  }

  lemma SignedOffset(sign: CodePoint, seconds: int, h: nat, m: nat)
    requires (sign == 43 || sign == 45) && h < 24 && m < 60 && h * 3600 + m * 60 == seconds
    ensures ParseOffset([sign] + PrintFixed(h, 2) + [58] + PrintFixed(m, 2)) == Some(if sign == 45 then -seconds else seconds)
  {
    hide ParseOffset, PrintFixed;
    OffsetLayout(sign, h, m);
  }

  lemma ParseIsoOffset(offset: int)
    requires offset % 60 == 0 && -86_400 < offset < 86_400
    ensures ParseOffset(IsoOffset(offset)) == Some(offset)
  {
    var seconds: nat := if offset < 0 then -offset else offset;
    HoursAndMinutes(seconds);
    var h, m := seconds / 60 / 60, seconds / 60 % 60;
    SignedOffset(if offset < 0 then 45 else 43, seconds, h, m);
    assert IsoOffset(offset) == [if offset < 0 then 45 else 43] + PrintFixed(h, 2) + [58] + PrintFixed(m, 2);
    hide ParseOffset, PrintFixed, IsoOffset;
  }

  lemma HoursAndMinutes(seconds: nat)
    requires seconds % 60 == 0 && seconds < 86_400
    ensures 0 <= seconds / 60 / 60 < 24 && seconds / 60 / 60 * 3600 + seconds / 60 % 60 * 60 == seconds
  {
  }

  /** `fromisoformat(s.isoformat()) == s`. */
  lemma ParseIsoFormat(s: Stamp)
    requires ValidStamp(s)
    ensures ParseIso(IsoFormat(s)) == Some(s)
  {
    ParseIsoLocal(s.local);
    ParseIsoOffset(s.offset);
    var t := IsoFormat(s);
    assert t[..|t| - 6] == IsoLocal(s.local) && t[|t| - 6..] == IsoOffset(s.offset);
  }

  /* ---------- what isoformat prints ---------- */

  /** Fixed-width digits, place by place. */
  lemma {:induction false} PrintFixedDigit(n: nat, width: nat, k: nat)
    requires k < width
    ensures PrintFixed(n, width)[k] == 48 + n / Pow10(width - 1 - k) % 10
  {
    if k == width - 1 {
      assert Pow10(0) == 1;
    } else {
      PrintFixedDigit(n / 10, width - 1, k);
      var p := Pow10(width - 2 - k);
      assert Pow10(width - 1 - k) == 10 * p;
      DivideTwice(n, p);
    }
  }

  lemma DivideTwice(n: nat, p: int)
    requires p > 0
    ensures n / 10 / p == n / (10 * p)
  {
    var q, r := n / 10 / p, n / 10 % p;
    assert n == 10 * (q * p + r) + n % 10;
    assert 10 * (q * p + r) == q * (10 * p) + 10 * r;
    assert 0 <= 10 * r + n % 10 < 10 * p;
    Quotient(n, 10 * p, q, 10 * r + n % 10);
  }

  lemma AtLeast(k: int, p: int)
    requires k >= 1 && p > 0
    ensures k * p >= p
  {
    assert (k - 1) * p >= 0;
  }

  lemma Quotient(n: int, p: int, q: int, r: int)
    requires p > 0 && 0 <= r < p && n == q * p + r
    ensures n / p == q
  {
    var k := q - n / p;
    assert k * p == q * p - n / p * p;
    assert n == n / p * p + n % p;
    assert -k * p == -(k * p);
    if k >= 1 { AtLeast(k, p); }
    if k <= -1 { AtLeast(-k, p); }
  }

  lemma Clock(day: int, h: int, m: int, s: int, us: int)
    requires 0 <= h < 24 && 0 <= m < 60 && 0 <= s < 60 && 0 <= us < MICROS
    ensures var local := day * DAY + (h * 3600 + m * 60 + s) * MICROS + us;
            local / DAY == day && local % DAY / MICROS == h * 3600 + m * 60 + s && local % MICROS == us
  {
    var time := (h * 3600 + m * 60 + s) * MICROS + us;
    Quotient(day * DAY + time, DAY, day, time);
    Quotient(time, MICROS, h * 3600 + m * 60 + s, us);
    assert day * DAY + time == (day * 86_400 + h * 3600 + m * 60 + s) * MICROS + us;
    Quotient(day * DAY + time, MICROS, day * 86_400 + h * 3600 + m * 60 + s, us);
  }

  lemma InCalendar(d: Date, time: int)
    requires ValidDate(d) && 0 <= time < DAY
    ensures 0 <= DayNumber(d) * DAY + time < MAX_LOCAL
  {
    DayNumberRange(d);
  }

  lemma ClockFields(h: int, m: int, s: int)
    requires 0 <= h < 24 && 0 <= m < 60 && 0 <= s < 60
    ensures var time := h * 3600 + m * 60 + s; time / 3600 == h && time / 60 % 60 == m && time % 60 == s
  {
    var time := h * 3600 + m * 60 + s;
    Quotient(time, 3600, h, m * 60 + s);
    Quotient(time, 60, h * 60 + m, s);
    Quotient(h * 60 + m, 60, h, m);
  }

  lemma SameFields(d: Date, time: int, h: nat, m: nat, s: nat)
    requires ValidDate(d) && h < 24 && m < 60 && s < 60 && time == h * 3600 + m * 60 + s
    ensures IsoDateTime(d, time / 3600, time / 60 % 60, time % 60) == IsoDateTime(d, h, m, s)
  {
    hide IsoDateTime;
    ClockFields(h, m, s);
  }

  // The wall clock at this date and time.
  function WallAt(d: Date, h: nat, m: nat, s: nat, us: nat): int
    requires ValidDate(d)
  {
    DayNumber(d) * DAY + (h * 3600 + m * 60 + s) * MICROS + us
  }

  function IsoDateTime(d: Date, h: nat, m: nat, s: nat): Text
    requires ValidDate(d)
  {
    PrintFixed(d.year, 4) + [45] + PrintFixed(d.month, 2) + [45] + PrintFixed(d.day, 2) + [84] +
    PrintFixed(h, 2) + [58] + PrintFixed(m, 2) + [58] + PrintFixed(s, 2)
  }

  lemma WallFields(d: Date, h: nat, m: nat, s: nat, us: nat)
    requires ValidDate(d) && h < 24 && m < 60 && s < 60 && us < MICROS
    ensures var local := WallAt(d, h, m, s, us);
            0 <= local < MAX_LOCAL && local / DAY == DayNumber(d) && local % DAY / MICROS == h * 3600 + m * 60 + s && local % MICROS == us
  {
    Clock(DayNumber(d), h, m, s, us);
    InCalendar(d, (h * 3600 + m * 60 + s) * MICROS + us);
    hide DayNumber, ValidDate;
  }

  lemma SecondsSay(d: Date, local: int, h: nat, m: nat, s: nat)
    requires ValidDate(d) && h < 24 && m < 60 && s < 60 && 0 <= local < MAX_LOCAL
    requires local / DAY == DayNumber(d) && local % DAY / MICROS == h * 3600 + m * 60 + s
    ensures IsoSeconds(local) == IsoDateTime(d, h, m, s)
  {
    hide DayNumber, ValidDate, DateOf, PrintFixed, IsoSeconds, IsoDateTime;
    DateOfDayNumber(d);
    SecondsForm(local);
    SameFields(d, local % DAY / MICROS, h, m, s);
  }

  lemma SecondsForm(local: int)
    requires 0 <= local < MAX_LOCAL
    ensures var d := DateOf(local / DAY); var time := local % DAY / MICROS;
            0 <= time < 86_400 && IsoSeconds(local) == IsoDateTime(d, time / 3600, time / 60 % 60, time % 60)
  {
    hide DateOf, PrintFixed, DayNumber;
  }

  lemma OffsetSays(offset: int)
    requires -86_400 < offset < 86_400
    ensures var away := if offset < 0 then -offset else offset;
            IsoOffset(offset) == [if offset < 0 then 45 else 43] + PrintFixed(away / 3600, 2) + [58] + PrintFixed(away / 60 % 60, 2)
  {
    hide PrintFixed;
    var away := if offset < 0 then -offset else offset;
    assert away / 60 / 60 == away / 3600;
  }

  lemma LocalSays(local: int)
    requires 0 <= local < MAX_LOCAL
    ensures IsoLocal(local) == IsoSeconds(local) + if local % MICROS == 0 then [] else [46] + PrintFixed(local % MICROS, 6)
  {
    hide IsoSeconds, PrintFixed;
    if local % MICROS != 0 { Associate(IsoSeconds(local), [46], PrintFixed(local % MICROS, 6)); }
  }

  /** `isoformat` prints the date, `T`, the time of day, the microseconds if there are any, and the offset, each field in its place. */
  lemma IsoFormatSays(d: Date, h: nat, m: nat, s: nat, us: nat, offset: int)
    requires ValidDate(d) && h < 24 && m < 60 && s < 60 && us < MICROS && offset % 60 == 0 && -86_400 < offset < 86_400
    ensures var stamp := Stamp(WallAt(d, h, m, s, us), offset); var away := if offset < 0 then -offset else offset;
            ValidStamp(stamp) &&
            IsoFormat(stamp) ==
              IsoDateTime(d, h, m, s) + (if us == 0 then [] else [46] + PrintFixed(us, 6)) +
              ([if offset < 0 then 45 else 43] + PrintFixed(away / 3600, 2) + [58] + PrintFixed(away / 60 % 60, 2))
  {
    WallFields(d, h, m, s, us);
    hide WallAt, DayNumber, ValidDate, IsoSeconds, IsoOffset, PrintFixed, IsoDateTime;
    SecondsSay(d, WallAt(d, h, m, s, us), h, m, s);
    OffsetSays(offset);
    LocalSays(WallAt(d, h, m, s, us));
    hide IsoLocal;
  }
}
