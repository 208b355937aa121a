/** `_canonical_decimal`: normalise to 28 significant digits, print in plain notation, and read back. */
module DecimalText {
  import opened Basics
  import opened Calendar
  import opened Decimals
  import opened JsonText
  import opened Rounding

  // `normalize` strips trailing zeros.
  function Strip(d: Decimal): (r: Decimal)
    requires d.Finite?
    ensures r.Finite? && (r.coefficient == 0 <==> d.coefficient == 0)
    ensures r.coefficient != 0 ==> r.coefficient % 10 != 0
    decreases Magnitude(d.coefficient)
  {
    if d.coefficient != 0 && d.coefficient % 10 == 0 then Strip(Finite(d.coefficient / 10, d.exponent + 1)) else d
  }

  function Zeros(k: nat): (t: Text)
    ensures |t| == k
  {
    if k == 0 then [] else [48] + Zeros(k - 1)
  }

  // `format(value, "f")` of a magnitude.
  function PrintMagnitude(n: nat, e: int): Text {
    var s := PrintNat(n);
    if e >= 0 then s + Zeros(e)
    else if |s| > -e then s[..|s| + e] + [46] + s[|s| + e..]
    else [48, 46] + (Zeros(-e - |s|) + s)
  }

  function PrintPlain(d: Decimal): Text
    requires d.Finite?
  {
    if d.coefficient < 0 then [45] + PrintMagnitude(-d.coefficient, d.exponent) else PrintMagnitude(d.coefficient, d.exponent)
  }

  // The text of a normalized number; a negative one that vanishes keeps its sign.
  function Shown(d: Decimal, negative: bool): Text
    requires d.Finite?
  {
    if d.coefficient != 0 then PrintPlain(Strip(d)) else if negative then [45, 48] else [48]
  }

  datatype CanonicalFault =
    | NotFinite // INVALID_DERIVATIVE_IDENTITY
    | Overflow  // decimal.Overflow from `normalize`

  /** `_canonical_decimal`. */
  function Canonical(d: Decimal): Result<Text, CanonicalFault> {
    if d.NonFinite? then Err(NotFinite)
    else if d.coefficient == 0 then Ok([48])
    else
      match Fixed(d)
      case None => Err(Overflow)
      case Some(r) => Ok(Shown(r, d.coefficient < 0))
  }

  /* ---------- reading plain notation ---------- */

  // `Decimal(text)` on digits with at most one point.
  function ReadMagnitude(t: Text): Option<Decimal> {
    var (n, rest) := ScanDigits(0, t);
    if |rest| == |t| then None
    else if rest == [] then Some(Finite(n, 0))
    else if rest[0] != 46 then None
    else
      var (m, end) := ScanDigits(n, rest[1..]);
      if end == [] then Some(Finite(m, -(|rest| - 1))) else None
  }

  function ReadPlain(t: Text): Option<Decimal> {
    if t != [] && t[0] == 45 then
      match ReadMagnitude(t[1..])
      case Some(Finite(c, e)) => Some(Finite(-c, e))
      case _ => None
    else ReadMagnitude(t)
  }

  lemma {:induction false} ScanZeros(acc: nat, k: nat, rest: Text)
    ensures ScanDigits(acc, Zeros(k) + rest) == ScanDigits(acc * Pow10(k), rest)
    decreases k
  {
    if k == 0 {
      assert Zeros(0) + rest == rest;
    } else {
      Associate([48], Zeros(k - 1), rest);
      Cons(48, Zeros(k - 1) + rest);
      ScanZeros(10 * acc, k - 1, rest);
      var p := Pow10(k - 1);
      assert Pow10(k) == 10 * p;
      assert 10 * acc * p == acc * (10 * p);
    }
  }

  // Reading a digit string and what follows it.
  lemma ScanNumber(n: nat, rest: Text)
    requires StopsDigits(rest)
    ensures ScanDigits(0, PrintNat(n) + rest) == (n, rest)
  {
    ScanPrint(n, rest);
  }

  lemma ReadWhole(n: nat, e: nat)
    ensures ReadMagnitude(PrintNat(n) + Zeros(e)) == Some(Finite(n * Pow10(e), 0))
  {
    hide PrintNat, Zeros;
    var s := PrintNat(n);
    ScanNumber(n, []);
    assert s + [] == s;
    assert ScanDigits(0, s) == (n, []);
    ScanAppend(0, s, Zeros(e));
    ScanZeros(n, e, []);
    assert Zeros(e) + [] == Zeros(e);
    assert ScanDigits(n * Pow10(e), []) == (n * Pow10(e), []);
  }

  lemma {:induction false} ScanAll(acc: nat, a: Text)
    requires forall i :: 0 <= i < |a| ==> IsDigit(a[i])
    ensures ScanDigits(acc, a).1 == []
    decreases a
  {
    if a != [] { ScanAll(10 * acc + (a[0] - 48), a[1..]); }
  }

  lemma ScanPoint(acc: nat, a: Text, b: Text)
    requires forall i :: 0 <= i < |a| ==> IsDigit(a[i])
    ensures ScanDigits(acc, a + [46] + b) == (ScanDigits(acc, a).0, [46] + b)
  {
    Associate(a, [46], b);
    ScanAppend(acc, a, [46] + b);
    assert ([46] + b)[0] == 46;
    hide ScanDigits;
    ScanStop(ScanDigits(acc, a).0, [46] + b);
  }

  lemma ScanStop(acc: nat, rest: Text)
    requires StopsDigits(rest)
    ensures ScanDigits(acc, rest) == (acc, rest)
  {
  }

  lemma ReadPoint(a: Text, b: Text)
    requires a != [] && (forall i :: 0 <= i < |a| ==> IsDigit(a[i])) && forall i :: 0 <= i < |b| ==> IsDigit(b[i])
    ensures ReadMagnitude(a + [46] + b) == Some(Finite(ScanDigits(0, a + b).0, -|b|))
  {
    hide ScanDigits;
    ScanPoint(0, a, b);
    Cons(46, b);
    ScanAll(0, a);
    ScanAppend(0, a, b);
    ScanAll(ScanDigits(0, a).0, b);
  }

  lemma {:induction false} ZerosDigits(k: nat)
    ensures forall i :: 0 <= i < k ==> Zeros(k)[i] == 48
  {
    if k > 0 { ZerosDigits(k - 1); }
  }

  lemma ReadInside(n: nat, e: int)
    requires e < 0 && |PrintNat(n)| > -e
    ensures ReadMagnitude(PrintMagnitude(n, e)) == Some(Finite(n, e))
  {
    var s := PrintNat(n);
    var k := |s| + e;
    ScanNumber(n, []);
    assert s + [] == s;
    hide PrintNat, ReadMagnitude, ScanDigits;
    ReadPoint(s[..k], s[k..]);
    assert s[..k] + s[k..] == s;
  }

  lemma ReadBelow(n: nat, e: int)
    requires e < 0 && |PrintNat(n)| <= -e
    ensures ReadMagnitude(PrintMagnitude(n, e)) == Some(Finite(n, e))
  {
    var s := PrintNat(n);
    var z := Zeros(-e - |s|);
    ScanNumber(n, []);
    assert s + [] == s;
    ZerosDigits(-e - |s|);
    ScanZeros(0, -e - |s|, s);
    assert ScanDigits(0, [48] + (z + s)) == ScanDigits(0, z + s) by { Cons(48, z + s); }
    hide PrintNat, ReadMagnitude, ScanDigits, Zeros;
    ReadPoint([48], z + s);
    assert [48] + [46] + (z + s) == [48, 46] + (z + s);
  }

  lemma ReadMagnitudeBack(n: nat, e: int)
    ensures ReadMagnitude(PrintMagnitude(n, e)) == Some(if e >= 0 then Finite(n * Pow10(e), 0) else Finite(n, e))
    ensures PrintMagnitude(n, e) != [] && PrintMagnitude(n, e)[0] != 45
  {
    if e >= 0 { ReadWhole(n, e); }
    else if |PrintNat(n)| > -e { ReadInside(n, e); }
    else { ReadBelow(n, e); }
    hide ReadMagnitude, ScanDigits, Zeros;
  }

  lemma PlainValue(c: int, e: nat)
    ensures Same(Finite(c * Pow10(e), 0), Finite(c, e))
  {
    assert Pow10(0) == 1;
  }

  /** The printed number reads back as the same number. */
  lemma ReadPrintPlain(d: Decimal)
    requires d.Finite?
    ensures ReadPlain(PrintPlain(d)).Some? && ReadPlain(PrintPlain(d)).value.Finite?
    ensures Same(ReadPlain(PrintPlain(d)).value, d)
  {
    var n := Magnitude(d.coefficient);
    ReadMagnitudeBack(n, d.exponent);
    Cons(45, PrintMagnitude(n, d.exponent));
    if d.exponent >= 0 {
      PlainValue(d.coefficient, d.exponent);
      assert -(n * Pow10(d.exponent)) == (-n) * Pow10(d.exponent);
    }
    hide ReadMagnitude, PrintMagnitude, Pow10;
  }

  /* ---------- canonical means numeric ---------- */

  lemma SameSymmetric(a: Decimal, b: Decimal)
    requires a.Finite? && b.Finite? && Same(a, b)
    ensures Same(b, a)
  {
  }

  lemma SameTransitive(a: Decimal, b: Decimal, c: Decimal)
    requires a.Finite? && b.Finite? && c.Finite? && Same(a, b) && Same(b, c)
    ensures Same(a, c)
  {
    hide Same, At;
    var e := Min(a.exponent, Common(b, c));
    OrderAt(a, b, e);
    OrderAt(b, c, e);
    OrderAt(a, c, e);
  }

  lemma {:induction false} StripSame(d: Decimal)
    requires d.Finite?
    ensures Same(d, Strip(d))
    decreases Magnitude(d.coefficient)
  {
    if d.coefficient != 0 && d.coefficient % 10 == 0 {
      var next := Finite(d.coefficient / 10, d.exponent + 1);
      StripSame(next);
      assert Pow10(0) == 1 && Pow10(1) == 10;
      assert Same(d, next);
      hide Same, Strip;
      SameTransitive(d, next, Strip(next));
      assert Strip(d) == Strip(next) by { StripStep(d); }
    } else {
      assert Strip(d) == d;
    }
  }

  lemma StripStep(d: Decimal)
    requires d.Finite? && d.coefficient != 0 && d.coefficient % 10 == 0
    ensures Strip(d) == Strip(Finite(d.coefficient / 10, d.exponent + 1))
  {
  }

  lemma TenDivides(c: int, k: nat)
    requires k > 0
    ensures c * Pow10(k) % 10 == 0
  {
    var p := Pow10(k - 1);
    assert Pow10(k) == 10 * p;
    assert c * (10 * p) == 10 * (c * p);
    hide Pow10;
    Tenfold(c * p);
  }

  lemma Tenfold(x: int)
    ensures 10 * x % 10 == 0
  {
  }

  lemma NormalUnique(a: Decimal, b: Decimal)
    requires a.Finite? && b.Finite? && Same(a, b) && a.coefficient % 10 != 0 && b.coefficient % 10 != 0
    ensures a == b
  {
    assert Pow10(0) == 1;
    if a.exponent < b.exponent { TenDivides(b.coefficient, b.exponent - a.exponent); }
    if b.exponent < a.exponent { TenDivides(a.coefficient, a.exponent - b.exponent); }
  }

  lemma ZeroSame(a: Decimal, b: Decimal)
    requires a.Finite? && b.Finite? && Same(a, b)
    ensures a.coefficient == 0 <==> b.coefficient == 0
  {
    var m := Common(a, b);
    ScaleOrder(a.coefficient, 0, Pow10(a.exponent - m));
    ScaleOrder(b.coefficient, 0, Pow10(b.exponent - m));
  }

  lemma FixedZero(d: Decimal)
    requires d.Finite? && d.coefficient == 0
    ensures Fixed(d).Some? && Fixed(d).value.coefficient == 0
  {
    RoundedZero(d);
    HalfEvenZero(d.exponent);
    hide Rounded, HalfEven, Extra;
  }

  lemma HalfEvenZero(e: int)
    ensures e <= ETINY ==> HalfEven(0, Pow10(ETINY - e)) == 0
  {
    if e <= ETINY { HalfEvenMultiple(0, Pow10(ETINY - e)); }
  }

  // Every canonical text is the text of the number the context keeps.
  lemma CanonicalShows(d: Decimal)
    requires d.Finite? && Canonical(d).Ok?
    ensures Fixed(d).Some? && Canonical(d).value == Shown(Fixed(d).value, d.coefficient < 0)
  {
    if d.coefficient == 0 { FixedZero(d); }
    hide Fixed, PrintPlain, Strip;
  }

  lemma ReadZero()
    ensures ReadPlain([48]) == Some(Finite(0, 0)) == ReadPlain([45, 48])
  {
    assert PrintNat(0) == [48] && Pow10(0) == 1;
    ReadWhole(0, 0);
    assert [48] + Zeros(0) == [48] && [45, 48][1..] == [48];
    hide ReadMagnitude;
  }

  lemma ReadShown(d: Decimal, negative: bool)
    requires d.Finite?
    ensures ReadPlain(Shown(d, negative)).Some? && ReadPlain(Shown(d, negative)).value.Finite?
    ensures Same(ReadPlain(Shown(d, negative)).value, d)
  {
    if d.coefficient == 0 {
      ReadZero();
      ZerosSame(d.exponent);
      hide ReadPlain;
    } else {
      hide ReadPlain, PrintPlain, Same, Strip;
      var s := Strip(d);
      ReadPrintPlain(s);
      StripSame(d);
      SameSymmetric(d, s);
      SameTransitive(ReadPlain(PrintPlain(s)).value, s, d);
    }
  }

  lemma ZerosSame(e: int)
    ensures Same(Finite(0, 0), Finite(0, e))
  {
  }

  /** The canonical text reads back as the number the context keeps. */
  lemma ReadCanonical(d: Decimal)
    requires d.Finite? && Canonical(d).Ok?
    ensures Fixed(d).Some? && ReadPlain(Canonical(d).value).Some? && ReadPlain(Canonical(d).value).value.Finite?
    ensures Same(ReadPlain(Canonical(d).value).value, Fixed(d).value)
  {
    hide ReadPlain, Fixed, Shown, Same, Canonical;
    CanonicalShows(d);
    ReadShown(Fixed(d).value, d.coefficient < 0);
  }

  lemma ShownEqualIff(x: Decimal, m: bool, y: Decimal, n: bool)
    requires x.Finite? && y.Finite?
    ensures Shown(x, m) == Shown(y, n) <==> Same(x, y) && (x.coefficient == 0 ==> m == n)
  {
    ReadShown(x, m);
    ReadShown(y, n);
    if Shown(x, m) == Shown(y, n) {
      var r := ReadPlain(Shown(x, m)).value;
      hide ReadPlain, Strip, PrintPlain, Same;
      SameSymmetric(r, x);
      SameTransitive(x, r, y);
      ZeroSame(x, y);
    }
    hide ReadPlain, Strip, PrintPlain, Same;
    if Same(x, y) {
      ZeroSame(x, y);
      if x.coefficient != 0 { SameStrips(x, y); }
    }
  }

  /** Two strikes print alike exactly when the context keeps the same number of them (and, should it keep only zero of
      numbers that are too small, when they have the same sign). */
  lemma CanonicalEqualIff(a: Decimal, b: Decimal)
    requires a.Finite? && b.Finite? && Canonical(a).Ok? && Canonical(b).Ok?
    ensures Fixed(a).Some? && Fixed(b).Some?
    ensures Canonical(a) == Canonical(b) <==>
            Same(Fixed(a).value, Fixed(b).value) &&
            (Fixed(a).value.coefficient == 0 ==> (a.coefficient < 0 <==> b.coefficient < 0))
  {
    hide Shown, Fixed, Same, Canonical;
    CanonicalShows(a);
    CanonicalShows(b);
    ShownEqualIff(Fixed(a).value, a.coefficient < 0, Fixed(b).value, b.coefficient < 0);
  }

  // At most 28 digits, in the context's exponent range.
  predicate Kept(d: Decimal) {
    d.Finite? && Magnitude(d.coefficient) < Pow10(PRECISION) && ETINY <= d.exponent && Top(d) - 1 <= EMAX
  }

  lemma KeptSign(a: Decimal, b: Decimal)
    requires a.Finite? && b.Finite? && Same(a, b)
    ensures a.coefficient < 0 <==> b.coefficient < 0
  {
    var m := Common(a, b);
    ScaleOrder(0, a.coefficient, Pow10(a.exponent - m));
    ScaleOrder(0, b.coefficient, Pow10(b.exponent - m));
  }

  /** Strikes of up to 28 digits in the context's range always have a canonical text; it reads back as the strike, and two
      are equal exactly when the strikes are numerically equal. */
  lemma KeptStrikes(a: Decimal, b: Decimal)
    requires Kept(a) && Kept(b)
    ensures Canonical(a).Ok? && ReadPlain(Canonical(a).value).Some? && ReadPlain(Canonical(a).value).value.Finite?
    ensures Same(ReadPlain(Canonical(a).value).value, a)
    ensures Canonical(a) == Canonical(b) <==> Same(a, b)
  {
    FixedExact(a);
    FixedExact(b);
    assert Canonical(a).Ok? && Canonical(b).Ok? by { hide Fixed, Shown; }
    hide Fixed, ReadPlain, Canonical, Same, Kept;
    ReadCanonical(a);
    CanonicalEqualIff(a, b);
    if Same(a, b) { KeptSign(a, b); }
  }

  lemma SameStrips(x: Decimal, y: Decimal)
    requires x.Finite? && y.Finite? && Same(x, y) && x.coefficient != 0 && y.coefficient != 0
    ensures Strip(x) == Strip(y)
  {
    hide Same;
    StripSame(x);
    StripSame(y);
    SameSymmetric(x, Strip(x));
    SameTransitive(Strip(x), x, y);
    SameTransitive(Strip(x), y, Strip(y));
    NormalUnique(Strip(x), Strip(y));
  }

  /** Beyond 28 digits different strikes can print alike. */
  lemma LongStrikesCollide()
    ensures var a, b := Finite(Pow10(PRECISION), 0), Finite(Pow10(PRECISION) + 1, 0);
            !Same(a, b) && Canonical(a) == Canonical(b) && Canonical(a).Ok?
  {
    hide Canonical, Strip, PrintPlain, Fixed, Same, Pow10, HalfEven;
    var k := Pow10(PRECISION - 1);
    Tens();
    WholeSame(10 * k, 10 * k + 1);
    EvenQuotient(k);
    FixedLong(10 * k, k);
    FixedLong(10 * k + 1, k);
    CanonicalOfFixed(Finite(10 * k, 0), Finite(10 * k + 1, 0));
  }

  lemma WholeSame(x: int, y: int)
    ensures Same(Finite(x, 0), Finite(y, 0)) <==> x == y
  {
    assert Pow10(0) == 1;
  }

  lemma Tens()
    ensures Pow10(PRECISION) == 10 * Pow10(PRECISION - 1) && Pow10(PRECISION + 1) == 100 * Pow10(PRECISION - 1)
    ensures Pow10(1) == 10
  {
    assert Pow10(0) == 1;
    hide PRECISION;
    Ten(PRECISION - 1);
    Ten(PRECISION);
  }

  lemma CanonicalOfFixed(a: Decimal, b: Decimal)
    requires a.Finite? && b.Finite? && a.coefficient > 0 && b.coefficient > 0 && Fixed(a) == Fixed(b) && Fixed(a).Some?
    ensures Canonical(a) == Canonical(b) && Canonical(a).Ok?
  {
    hide Fixed, Strip, PrintPlain;
  }

  lemma FixedLong(n: nat, k: nat)
    requires Pow10(PRECISION) <= n < Pow10(PRECISION + 1) && HalfEven(n, 10) == k == Pow10(PRECISION - 1)
    ensures Fixed(Finite(n, 0)) == Some(Finite(k, 1))
  {
    RoundedLong(n);
    LengthOfPower(PRECISION - 1);
    hide Pow10, HalfEven, Rounded, Top, Length;
    TopOf(k, 1);
  }

  lemma RoundedLong(n: nat)
    requires Pow10(PRECISION) <= n < Pow10(PRECISION + 1)
    ensures Rounded(Finite(n, 0)) == Finite(HalfEven(n, 10), 1)
  {
    hide PrintNat, HalfEven, Pow10;
    DigitCount(n, PRECISION);
    DigitCount(n, PRECISION + 1);
    Tens();
    assert |PrintNat(n)| == PRECISION + 1;
  }

  lemma EvenQuotient(k: nat)
    ensures HalfEven(10 * k, 10) == k == HalfEven(10 * k + 1, 10)
  {
  }

  /* ---------- the shape of the text ---------- */

  // Digits without a needless zero, and with a point only before a last digit that is not zero.
  predicate Plainest(t: Text) {
    (AllDigit(t) && t != [] && (t[0] == 48 ==> |t| == 1)) ||
    exists p :: 0 < p < |t| - 1 && PointAt(t, p)
  }

  predicate AllDigit(t: Text) { forall i :: 0 <= i < |t| ==> IsDigit(t[i]) }

  predicate PointAt(t: Text, p: int)
    requires 0 < p < |t| - 1
  {
    t[p] == 46 && AllDigit(t[..p]) && AllDigit(t[p + 1..]) && (t[0] == 48 ==> p == 1) && t[|t| - 1] != 48
  }

  lemma LastDigit(n: nat)
    ensures PrintNat(n)[|PrintNat(n)| - 1] == 48 + n % 10
  {
  }

  lemma WholeShape(s: Text, k: nat)
    requires s != [] && AllDigit(s) && s[0] != 48
    ensures Plainest(s + Zeros(k))
  {
    ZerosDigits(k);
  }

  lemma InnerShape(s: Text, p: int)
    requires AllDigit(s) && 0 < p < |s| && s[0] != 48 && s[|s| - 1] != 48
    ensures Plainest(s[..p] + [46] + s[p..])
  {
    var t := s[..p] + [46] + s[p..];
    assert t[..p] == s[..p] && t[p + 1..] == s[p..] && t[|t| - 1] == s[|s| - 1];
    assert PointAt(t, p);
  }

  lemma BelowShape(s: Text, k: nat)
    requires s != [] && AllDigit(s) && s[|s| - 1] != 48
    ensures Plainest([48, 46] + (Zeros(k) + s))
  {
    ZerosDigits(k);
    var t := [48, 46] + (Zeros(k) + s);
    assert t[..1] == [48] && t[2..] == Zeros(k) + s && t[|t| - 1] == s[|s| - 1];
    assert PointAt(t, 1);
  }

  lemma MagnitudeShape(n: nat, e: int)
    requires n % 10 != 0
    ensures Plainest(PrintMagnitude(n, e))
  {
    LastDigit(n);
    var s := PrintNat(n);
    hide PrintNat, Plainest, Zeros;
    assert AllDigit(s) && s[0] != 48 && s[|s| - 1] != 48;
    if e >= 0 { WholeShape(s, e); }
    else if |s| > -e { InnerShape(s, |s| + e); }
    else { BelowShape(s, -e - |s|); }
  }

  /** A canonical text is plain: an optional minus, digits without needless zeros, never an exponent. */
  lemma CanonicalShape(d: Decimal)
    requires d.Finite? && Canonical(d).Ok?
    ensures var t := Canonical(d).value; Plainest(if t != [] && t[0] == 45 then t[1..] else t)
  {
    CanonicalShows(d);
    hide Canonical, PrintMagnitude, Plainest, Fixed;
    var r := Fixed(d).value;
    if r.coefficient == 0 {
      ZeroShape();
      assert [45, 48][1..] == [48];
    } else {
      var s := Strip(r);
      var n: nat := Magnitude(s.coefficient);
      LastPlace(s.coefficient);
      MagnitudeShape(n, s.exponent);
      NoMinus(n, s.exponent);
      assert ([45] + PrintMagnitude(n, s.exponent))[1..] == PrintMagnitude(n, s.exponent);
    }
  }

  lemma LastPlace(c: int)
    requires c % 10 != 0
    ensures Magnitude(c) % 10 != 0
  {
  }

  lemma ZeroShape()
    ensures Plainest([48])
  {
  }

  lemma NoMinus(n: nat, e: int)
    ensures PrintMagnitude(n, e) != [] && PrintMagnitude(n, e)[0] != 45
  {
    hide PrintNat;
  }
}
