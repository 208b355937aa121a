/** The decimal context: 28 significant digits, rounding half to even.  Rounding keeps the order of numbers. */
module Rounding {
  import opened Basics
  import opened Calendar
  import opened Decimals
  import opened JsonText

  const PRECISION := 28

  // Round half to even, the default context's rounding.
  function HalfEven(n: nat, u: int): nat
    requires u > 0
  {
    var q, r := n / u, n % u;
    if 2 * r < u then q else if 2 * r > u then q + 1 else if q % 2 == 0 then q else q + 1
  }

  function Magnitude(c: int): nat { if c < 0 then -c else c }

  // What an operation of the context keeps of a result: at most 28 significant digits.
  function Rounded(d: Decimal): (r: Decimal)
    requires d.Finite?
    ensures r.Finite?
  {
    var n := Magnitude(d.coefficient);
    var extra := |PrintNat(n)| - PRECISION;
    if extra <= 0 then d
    else
      var q: int := HalfEven(n, Pow10(extra));
      Finite(if d.coefficient < 0 then -q else q, d.exponent + extra)
  }

  lemma HalfEvenNonzero(n: nat, u: int)
    requires n >= u > 0
    ensures HalfEven(n, u) > 0
  {
    assert n / u >= 1;
  }

  // A number has more than k digits exactly when it reaches 10^k.
  lemma {:induction false} DigitCount(n: nat, k: nat)
    requires k > 0
    ensures |PrintNat(n)| <= k <==> n < Pow10(k)
    decreases k
  {
    if k == 1 {
      assert Pow10(0) == 1 && Pow10(1) == 10;
    } else if n >= 10 {
      DigitCount(n / 10, k - 1);
    } else {
      assert Pow10(k) == 10 * Pow10(k - 1);
    }
  }

  /** Up to 28 significant digits nothing is rounded. */
  lemma RoundedExact(d: Decimal)
    requires d.Finite? && Magnitude(d.coefficient) < Pow10(PRECISION)
    ensures Rounded(d) == d
  {
    DigitCount(Magnitude(d.coefficient), PRECISION);
  }

  lemma RoundedZero(d: Decimal)
    requires d.Finite?
    ensures Rounded(d).coefficient == 0 <==> d.coefficient == 0
  {
    var n := Magnitude(d.coefficient);
    var extra := |PrintNat(n)| - PRECISION;
    if extra > 0 {
      DigitCount(n, extra);
      HalfEvenNonzero(n, Pow10(extra));
    }
    hide PrintNat, HalfEven, Pow10;
  }

  /* ---------- rounding is monotone ---------- */

  lemma Division(n: int, u: int, q: int, r: int)
    requires u > 0 && n == q * u + r && 0 <= r < u
    ensures n / u == q && n % u == r
  {
    var p, s := n / u, n % u;
    assert n == p * u + s;
    if p < q { Times(p + 1, q, u); }
    if q < p { Times(q + 1, p, u); }
  }

  lemma Times(a: int, b: int, u: int)
    requires a <= b && u >= 0
    ensures a * u <= b * u
  {
    assert (b - a) * u >= 0;
  }

  lemma HalfEvenMonotone(m: nat, n: nat, u: int)
    requires m <= n && u > 0
    ensures HalfEven(m, u) <= HalfEven(n, u)
  {
    QuotientOrder(m, n, u);
  }

  lemma QuotientOrder(m: nat, n: nat, u: int)
    requires m <= n && u > 0
    ensures m / u <= n / u && (m / u == n / u ==> m % u <= n % u)
  {
    var p, q := m / u, n / u;
    var r, s := m % u, n % u;
    assert m == p * u + r && n == q * u + s;
    if q < p { Times(q + 1, p, u); }
  }

  lemma HalfEvenMultiple(m: nat, u: int)
    requires u > 0
    ensures m * u >= 0 && HalfEven(m * u, u) == m
  {
    Times(0, m, u);
    Division(m * u, u, m, 0);
  }

  lemma HalfEvenScaled(n: nat, u: int, k: int)
    requires u > 0 && k > 0
    ensures n * k >= 0 && u * k > 0 && HalfEven(n * k, u * k) == HalfEven(n, u)
  {
    var q, r := n / u, n % u;
    assert n == q * u + r;
    Times(0, n, k);
    Grow(u, k);
    Grow(u - r, k);
    Times(0, r, k);
    assert (u - r) * k == u * k - r * k;
    assert n * k == q * (u * k) + r * k;
    Division(n * k, u * k, q, r * k);
    ScaleOrder(2 * r, u, k);
    assert 2 * r * k == 2 * (r * k);
  }

  lemma Grow(u: int, k: int)
    requires u > 0 && k > 0
    ensures u * k > 0
  {
  }

  function Length(d: Decimal): (k: nat)
    requires d.Finite?
    ensures k > 0
  {
    |PrintNat(Magnitude(d.coefficient))|
  }

  // The value is below 10^Top and, when positive, at least 10^(Top - 1).
  function Top(d: Decimal): int
    requires d.Finite?
  {
    d.exponent + Length(d)
  }

  // How many digits rounding drops.
  function Extra(d: Decimal): nat
    requires d.Finite?
  {
    if Length(d) > PRECISION then Length(d) - PRECISION else 0
  }

  lemma LengthBounds(d: Decimal)
    requires Positive(d)
    ensures Pow10(Length(d) - 1) <= d.coefficient < Pow10(Length(d))
  {
    DigitCount(d.coefficient, Length(d));
    if Length(d) > 1 { DigitCount(d.coefficient, Length(d) - 1); } else { assert Pow10(0) == 1; }
    hide PrintNat, Pow10;
  }

  // Rounding as one formula.
  lemma RoundedForm(d: Decimal)
    requires Positive(d)
    ensures Rounded(d) == Finite(HalfEven(d.coefficient, Pow10(Extra(d))), d.exponent + Extra(d))
  {
    assert Pow10(0) == 1;
    HalfEvenMultiple(d.coefficient, 1);
    hide PrintNat, HalfEven;
  }

  lemma PowerAt(t: int, e: int)
    requires e <= t
    ensures At(Finite(1, t), e) == Pow10(t - e)
  {
  }

  lemma RoundedBetween(d: Decimal)
    requires Positive(d)
    ensures Le(Finite(1, Top(d) - 1), Rounded(d)) && Le(Rounded(d), Finite(1, Top(d)))
  {
    var n, k, l := d.coefficient, Extra(d), Length(d);
    RoundedForm(d);
    LengthBounds(d);
    assert k < l;
    hide HalfEven, PrintNat, Rounded, Extra, Length, Pow10;
    QuotientBetween(n, k, l);
    BetweenPowers(HalfEven(n, Pow10(k)), d.exponent + k, l - 1 - k);
  }

  lemma QuotientBetween(n: nat, k: nat, l: nat)
    requires k < l && Pow10(l - 1) <= n < Pow10(l)
    ensures Pow10(l - 1 - k) <= HalfEven(n, Pow10(k)) <= Pow10(l - k)
  {
    hide HalfEven, Pow10;
    PowAdd(l - 1 - k, k);
    PowAdd(l - k, k);
    HalfEvenMultiple(Pow10(l - 1 - k), Pow10(k));
    HalfEvenMultiple(Pow10(l - k), Pow10(k));
    HalfEvenMonotone(Pow10(l - 1), n, Pow10(k));
    HalfEvenMonotone(n, Pow10(l), Pow10(k));
  }

  lemma BetweenPowers(q: int, e: int, j: nat)
    requires Pow10(j) <= q <= Pow10(j + 1)
    ensures Le(Finite(1, e + j), Finite(q, e)) && Le(Finite(q, e), Finite(1, e + j + 1))
  {
    hide Le, At;
    OrderAt(Finite(1, e + j), Finite(q, e), e);
    OrderAt(Finite(q, e), Finite(1, e + j + 1), e);
    PowerAt(e + j, e);
    PowerAt(e + j + 1, e);
    WholeAt(q, e);
  }

  lemma WholeAt(q: int, e: int)
    ensures At(Finite(q, e), e) == q
  {
    assert Pow10(0) == 1;
  }

  lemma PowersOrdered(s: int, t: int)
    requires s <= t
    ensures Le(Finite(1, s), Finite(1, t))
  {
    hide Le, At;
    OrderAt(Finite(1, s), Finite(1, t), s);
    PowerAt(s, s);
    PowerAt(t, s);
    assert Pow10(0) == 1;
  }

  // Rounding to the unit 10^w, computed at any exponent f below.
  function RoundedAt(d: Decimal, w: int, f: int): int
    requires Positive(d) && f <= d.exponent && f <= w
  {
    AtPositive(d, f);
    HalfEven(At(d, f), Pow10(w - f))
  }

  lemma AtPositive(d: Decimal, f: int)
    requires Positive(d) && f <= d.exponent
    ensures At(d, f) > 0
  {
    Grow(d.coefficient, Pow10(d.exponent - f));
  }

  lemma RoundedToUnit(d: Decimal, f: int)
    requires Positive(d) && f <= d.exponent && f <= Top(d) - PRECISION
    ensures Same(Rounded(d), Finite(RoundedAt(d, Top(d) - PRECISION, f), Top(d) - PRECISION))
  {
    var w := Top(d) - PRECISION;
    var n, e := d.coefficient, d.exponent;
    RoundedForm(d);
    AtPositive(d, f);
    assert Pow10(0) == 1;
    if Length(d) > PRECISION {
      PowAdd(w - e, e - f);
      HalfEvenScaled(n, Pow10(w - e), Pow10(e - f));
      hide HalfEven, Rounded, PrintNat;
      assert At(d, f) == n * Pow10(e - f);
      assert Rounded(d) == Finite(RoundedAt(d, w, f), w);
    } else {
      HalfEvenMultiple(n, 1);
      AtShift(d, w, f);
      AtPositive(d, w);
      HalfEvenMultiple(At(d, w), Pow10(w - f));
      hide HalfEven, Rounded, PrintNat;
      assert RoundedAt(d, w, f) == At(d, w);
      WholeAt(At(d, w), w);
      OrderAt(d, Finite(At(d, w), w), w);
    }
  }

  lemma RoundedSameTop(a: Decimal, b: Decimal)
    requires Positive(a) && Positive(b) && Le(a, b) && Top(a) == Top(b)
    ensures Le(Rounded(a), Rounded(b))
  {
    var w := Top(a) - PRECISION;
    var f := Min(w, Common(a, b));
    hide Le, Same, Rounded, Top, At, HalfEven;
    OrderAt(a, b, f);
    RoundedToUnit(a, f);
    RoundedToUnit(b, f);
    AtPositive(a, f);
    AtPositive(b, f);
    HalfEvenMonotone(At(a, f), At(b, f), Pow10(w - f));
    UnitsOrdered(RoundedAt(a, w, f), RoundedAt(b, w, f), w);
    SameLe(Rounded(a), Finite(RoundedAt(a, w, f), w), Finite(RoundedAt(b, w, f), w), Rounded(b));
  }

  lemma UnitsOrdered(x: int, y: int, w: int)
    requires x <= y
    ensures Le(Finite(x, w), Finite(y, w))
  {
    assert Pow10(0) == 1;
  }

  lemma SameLe(a: Decimal, x: Decimal, y: Decimal, b: Decimal)
    requires a.Finite? && x.Finite? && y.Finite? && b.Finite? && Same(a, x) && Le(x, y) && Same(b, y)
    ensures Le(a, b)
  {
    hide Same, Le, At;
    var e := Min(Common(a, x), Common(y, b));
    OrderAt(a, x, e);
    OrderAt(x, y, e);
    OrderAt(b, y, e);
    OrderAt(a, b, e);
  }

  lemma TopsOrdered(a: Decimal, b: Decimal)
    requires Positive(a) && Positive(b) && Le(a, b)
    ensures Top(a) <= Top(b)
  {
    LengthBounds(a);
    LengthBounds(b);
    hide Le, Length;
    if Top(a) > Top(b) {
      BetweenPowers(a.coefficient, a.exponent, Length(a) - 1);
      BelowPower(b, Length(b));
      PowersOrdered(Top(b), Top(a) - 1);
      LeTransitive(Finite(1, Top(b)), Finite(1, Top(a) - 1), a);
      LeTransitive(Finite(1, Top(b)), a, b);
    }
  }

  lemma BelowPower(d: Decimal, l: nat)
    requires d.Finite? && d.coefficient < Pow10(l)
    ensures !Le(Finite(1, d.exponent + l), d)
  {
    hide Le, At;
    OrderAt(Finite(1, d.exponent + l), d, d.exponent);
    PowerAt(d.exponent + l, d.exponent);
    WholeAt(d.coefficient, d.exponent);
  }

  /** Rounding to 28 significant digits keeps the order of positive numbers, whatever their exponents. */
  lemma RoundedMonotone(a: Decimal, b: Decimal)
    requires Positive(a) && Positive(b) && Le(a, b)
    ensures Le(Rounded(a), Rounded(b))
  {
    hide Le, Rounded, Top;
    TopsOrdered(a, b);
    if Top(a) == Top(b) {
      RoundedSameTop(a, b);
    } else {
      RoundedBetween(a);
      RoundedBetween(b);
      PowersOrdered(Top(a), Top(b) - 1);
      LeTransitive(Rounded(a), Finite(1, Top(a)), Finite(1, Top(b) - 1));
      LeTransitive(Rounded(a), Finite(1, Top(b) - 1), Rounded(b));
    }
  }

  /* ---------- where rounding crosses a multiple of its unit ---------- */

  // Half a unit below m * 10^w.
  function HalfBelow(m: nat, w: int): Decimal { Finite(10 * m - 5, w - 1) }

  lemma LeTotal(a: Decimal, b: Decimal)
    requires a.Finite? && b.Finite?
    ensures Le(a, b) || Le(b, a)
  {
    hide At;
  }

  lemma HalfBelowAt(m: nat, w: int, f: int)
    requires f <= w - 1
    ensures 2 * At(HalfBelow(m, w), f) == (2 * m - 1) * Pow10(w - f)
  {
    var p := Pow10(w - 1 - f);
    assert Pow10(w - f) == 10 * p;
    hide Pow10;
    assert 2 * ((10 * m - 5) * p) == (2 * m - 1) * (10 * p);
  }

  // Less than half a unit above m - 1 rounds down to m - 1 or below.
  lemma HalfEvenBelow(a: nat, u: int, m: nat)
    requires u > 0 && m > 0 && 2 * a < (2 * m - 1) * u
    ensures HalfEven(a, u) <= m - 1
  {
    var q, r := a / u, a % u;
    assert a == q * u + r;
    assert (2 * m - 1) * u == 2 * (m * u) - u;
    if q >= m {
      Times(m, q, u);
    } else if q == m - 1 {
      assert (m - 1) * u == m * u - u;
    }
  }

  // Half a unit below an even multiple rounds up to it.
  lemma HalfBelowRounds(m: nat)
    requires m % 2 == 0 && m > 0
    ensures HalfEven(10 * m - 5, 10) == m
  {
    assert (10 * m - 5) / 10 == m - 1 && (10 * m - 5) % 10 == 5;
  }

  // m has 28 digits, or is the next power of ten.
  predicate AtGrid(m: nat) { Pow10(PRECISION - 1) < m <= Pow10(PRECISION) }

  lemma GridLength(m: nat, w: int)
    requires AtGrid(m)
    ensures Positive(HalfBelow(m, w)) && Length(HalfBelow(m, w)) == PRECISION + 1
  {
    Ten(PRECISION - 1);
    Ten(PRECISION);
    var n: nat := 10 * m - 5;
    hide Pow10, PrintNat;
    DigitCount(n, PRECISION);
    DigitCount(n, PRECISION + 1);
  }

  lemma Ten(k: nat)
    ensures Pow10(k + 1) == 10 * Pow10(k)
  {
  }

  lemma RoundedReaches(d: Decimal, m: nat, w: int)
    requires Positive(d) && AtGrid(m) && m % 2 == 0 && Le(HalfBelow(m, w), d)
    ensures Le(Finite(m, w), Rounded(d))
  {
    var h := HalfBelow(m, w);
    GridLength(m, w);
    RoundedForm(h);
    HalfBelowRounds(m);
    assert Pow10(1) == 10 by { assert Pow10(0) == 1; }
    assert Rounded(h) == Finite(m, w);
    hide Rounded, Le, AtGrid, HalfBelow;
    RoundedMonotone(h, d);
  }

  lemma RoundedStays(d: Decimal, m: nat, w: int)
    requires Positive(d) && AtGrid(m) && !Le(HalfBelow(m, w), d)
    ensures Le(Rounded(d), Finite(m - 1, w))
  {
    var h := HalfBelow(m, w);
    GridLength(m, w);
    hide Le, Rounded, Length, At, AtGrid;
    LeTotal(h, d);
    TopsOrdered(d, h);
    assert Top(h) == w + PRECISION;
    if Top(d) < w + PRECISION {
      RoundedBetween(d);
      PowersOrdered(Top(d), w + PRECISION - 1);
      LeTransitive(Rounded(d), Finite(1, Top(d)), Finite(1, w + PRECISION - 1));
      PowerBelowGrid(m, w);
      LeTransitive(Rounded(d), Finite(1, w + PRECISION - 1), Finite(m - 1, w));
    } else {
      StaysInBin(d, m, w);
    }
  }

  lemma PowerBelowGrid(m: nat, w: int)
    requires AtGrid(m)
    ensures Le(Finite(1, w + PRECISION - 1), Finite(m - 1, w))
  {
    hide Le, At;
    OrderAt(Finite(1, w + PRECISION - 1), Finite(m - 1, w), w);
    PowerAt(w + PRECISION - 1, w);
    WholeAt(m - 1, w);
  }

  lemma StaysInBin(d: Decimal, m: nat, w: int)
    requires Positive(d) && m > 0 && Top(d) == w + PRECISION && !Le(HalfBelow(m, w), d)
    ensures Le(Rounded(d), Finite(m - 1, w))
  {
    hide Le, Rounded, Top, At, HalfEven, HalfBelow;
    var f := Min(d.exponent, w - 1);
    RoundedToUnit(d, f);
    AtPositive(d, f);
    HalfBelowShape(m, w);
    OrderAt(HalfBelow(m, w), d, f);
    HalfBelowAt(m, w, f);
    HalfEvenBelow(At(d, f), Pow10(w - f), m);
    UnitsOrdered(RoundedAt(d, w, f), m - 1, w);
    RoundedSelf(m - 1, w);
    SameLe(Rounded(d), Finite(RoundedAt(d, w, f), w), Finite(m - 1, w), Finite(m - 1, w));
  }

  lemma HalfBelowShape(m: nat, w: int)
    ensures HalfBelow(m, w).Finite? && HalfBelow(m, w).exponent == w - 1
  {
  }

  lemma RoundedSelf(x: int, w: int)
    ensures Same(Finite(x, w), Finite(x, w))
  {
  }

  /* ---------- the context's exponent range ---------- */

  const EMAX := 999_999
  const ETINY := -1_000_026

  // What `normalize` leaves before it strips zeros: 28 digits, no digit below 10^ETINY; None is decimal.Overflow.
  function Fixed(d: Decimal): (r: Option<Decimal>)
    requires d.Finite?
    ensures r.Some? ==> r.value.Finite?
  {
    if d.exponent + Extra(d) < ETINY then
      var q: int := HalfEven(Magnitude(d.coefficient), Pow10(ETINY - d.exponent));
      Some(Finite(if d.coefficient < 0 then -q else q, ETINY))
    else if Rounded(d).coefficient != 0 && Top(Rounded(d)) - 1 > EMAX then None
    else Some(Rounded(d))
  }

  // The first number that rounds up to 10^(EMAX + 1).
  function OverflowAt(): Decimal { HalfBelow(Pow10(PRECISION), EMAX + 1 - PRECISION) }

  lemma PowerOnGrid()
    ensures AtGrid(Pow10(PRECISION)) && Pow10(PRECISION) % 2 == 0
  {
    Ten(PRECISION - 1);
    hide Pow10;
    EvenTens(Pow10(PRECISION - 1));
  }

  lemma EvenTens(x: int)
    ensures 10 * x % 2 == 0
  {
  }

  lemma RoundedPositive(d: Decimal)
    requires Positive(d)
    ensures Positive(Rounded(d))
  {
    RoundedForm(d);
    RoundedZero(d);
    hide Rounded, Extra;
  }

  lemma LengthOfPower(k: nat)
    ensures Length(Finite(Pow10(k), 0)) == k + 1
    ensures k > 0 ==> Length(Finite(Pow10(k) - 1, 0)) <= k
  {
    Ten(k);
    hide PrintNat, Pow10;
    DigitCount(Pow10(k), k + 1);
    if k > 0 { DigitCount(Pow10(k), k); DigitCount(Pow10(k) - 1, k); }
  }

  lemma TopOf(x: nat, w: int)
    ensures Top(Finite(x, w)) == w + Length(Finite(x, 0))
  {
    hide PrintNat;
  }

  lemma GridTops(w: int)
    ensures Top(Finite(Pow10(PRECISION), w)) == w + PRECISION + 1
    ensures Top(Finite(Pow10(PRECISION) - 1, w)) <= w + PRECISION
    ensures Pow10(PRECISION) > 1
  {
    hide Pow10, PrintNat;
    Ten(PRECISION - 1);
    LengthOfPower(PRECISION);
    hide Top;
    TopOf(Pow10(PRECISION), w);
    TopOf(Pow10(PRECISION) - 1, w);
  }

  lemma OverflowFixed(d: Decimal)
    requires Positive(d) && d.exponent + Extra(d) >= ETINY
    ensures Fixed(d).None? <==> Le(OverflowAt(), d)
  {
    PowerOnGrid();
    RoundedPositive(d);
    var m, w := Pow10(PRECISION), EMAX + 1 - PRECISION;
    GridTops(w);
    hide Le, Rounded, Top, Extra, Pow10, AtGrid, HalfBelow;
    if Le(OverflowAt(), d) {
      RoundedReaches(d, m, w);
      TopsOrdered(Finite(m, w), Rounded(d));
    } else {
      RoundedStays(d, m, w);
      TopsOrdered(Rounded(d), Finite(m - 1, w));
    }
  }

  lemma TinyIsSmall(d: Decimal)
    requires Positive(d) && d.exponent + Extra(d) < ETINY
    ensures !Le(OverflowAt(), d)
  {
    PowerOnGrid();
    GridLength(Pow10(PRECISION), EMAX + 1 - PRECISION);
    assert Top(d) - PRECISION <= d.exponent + Extra(d) by { hide PrintNat; }
    hide Le, Length, Pow10, Extra;
    if Le(OverflowAt(), d) { TopsOrdered(OverflowAt(), d); }
  }

  /** `normalize` raises Overflow exactly from the number that rounds up to 10^1000000 on. */
  lemma OverflowIff(d: Decimal)
    requires Positive(d)
    ensures Fixed(d).None? <==> Le(OverflowAt(), d)
  {
    hide Le, Extra, OverflowAt, Rounded;
    if d.exponent + Extra(d) < ETINY { TinyIsSmall(d); } else { OverflowFixed(d); }
  }

  /** Numbers of at most 28 digits within the context's exponent range are kept as they are. */
  lemma FixedExact(d: Decimal)
    requires d.Finite? && Magnitude(d.coefficient) < Pow10(PRECISION) && ETINY <= d.exponent && Top(d) - 1 <= EMAX
    ensures Fixed(d) == Some(d)
  {
    RoundedExact(d);
    DigitCount(Magnitude(d.coefficient), PRECISION);
    hide Rounded, PrintNat, Pow10;
  }

  // `x` is 28 digits long, and `n` over `unit` rounds to `q`: nearest, a tie to the even neighbour.
  predicate NearestEven(n: int, unit: int, q: int) {
    Pow10(PRECISION - 1) * unit <= n < Pow10(PRECISION) * unit && -unit <= 2 * (n - q * unit) <= unit &&
    (2 * (n - q * unit) == unit || 2 * (n - q * unit) == -unit ==> q % 2 == 0)
  }

  lemma HalfEvenNearest(n: nat, u: int)
    requires u > 0
    ensures var q := HalfEven(n, u); -u <= 2 * (n - q * u) <= u && (2 * (n - q * u) == u || 2 * (n - q * u) == -u ==> q % 2 == 0)
  {
    var q, r := n / u, n % u;
    assert n == q * u + r;
    assert (q + 1) * u == q * u + u;
  }

  lemma LeadingDigits(n: nat, extra: nat)
    requires |PrintNat(n)| == PRECISION + extra && extra > 0
    ensures Pow10(PRECISION - 1) * Pow10(extra) <= n < Pow10(PRECISION) * Pow10(extra)
  {
    hide Pow10, PrintNat;
    DigitCount(n, PRECISION - 1 + extra);
    DigitCount(n, PRECISION + extra);
    PowAdd(PRECISION - 1, extra);
    PowAdd(PRECISION, extra);
  }

  /** The context keeps a number of at most 28 digits as it is, and otherwise the nearest 28 digits, a tie going to the even one,
      with the number's sign and the exponent raised by the digits that were cut. */
  lemma RoundedNearest(d: Decimal)
    requires d.Finite?
    ensures Magnitude(d.coefficient) < Pow10(PRECISION) ==> Rounded(d) == d
    ensures Magnitude(d.coefficient) >= Pow10(PRECISION) ==>
              Rounded(d).exponent > d.exponent && (Rounded(d).coefficient > 0 <==> d.coefficient > 0) &&
              NearestEven(Magnitude(d.coefficient), Pow10(Rounded(d).exponent - d.exponent), Magnitude(Rounded(d).coefficient))
  {
    hide Pow10, PrintNat, HalfEven, Rounded, NearestEven;
    var n := Magnitude(d.coefficient);
    DigitCount(n, PRECISION);
    if n >= Pow10(PRECISION) {
      var extra := |PrintNat(n)| - PRECISION;
      RoundedOver(d, extra);
      LeadingDigits(n, extra);
      HalfEvenNearest(n, Pow10(extra));
      LongEnough(n, extra);
      HalfEvenNonzero(n, Pow10(extra));
      SignKept(d, extra);
      IsNearestEven(n, Pow10(extra), HalfEven(n, Pow10(extra)));
    } else {
      RoundedExact(d);
    }
  }

  lemma IsNearestEven(n: int, unit: int, q: int)
    requires Pow10(PRECISION - 1) * unit <= n < Pow10(PRECISION) * unit && -unit <= 2 * (n - q * unit) <= unit
    requires 2 * (n - q * unit) == unit || 2 * (n - q * unit) == -unit ==> q % 2 == 0
    ensures NearestEven(n, unit, q)
  {
  }

  lemma LongEnough(n: nat, extra: nat)
    requires |PrintNat(n)| == PRECISION + extra && extra > 0
    ensures n >= Pow10(extra)
  {
    hide PrintNat, Pow10;
    DigitCount(n, extra);
  }

  lemma RoundedOver(d: Decimal, extra: int)
    requires d.Finite? && extra == |PrintNat(Magnitude(d.coefficient))| - PRECISION && extra > 0
    ensures var q: int := HalfEven(Magnitude(d.coefficient), Pow10(extra));
            Rounded(d) == Finite(if d.coefficient < 0 then -q else q, d.exponent + extra)
  {
    hide PrintNat, HalfEven, Pow10;
  }

  lemma SignKept(d: Decimal, extra: nat)
    requires d.Finite? && HalfEven(Magnitude(d.coefficient), Pow10(extra)) > 0 && d.coefficient != 0
    requires var q: int := HalfEven(Magnitude(d.coefficient), Pow10(extra));
             Rounded(d) == Finite(if d.coefficient < 0 then -q else q, d.exponent + extra)
    ensures Rounded(d).coefficient > 0 <==> d.coefficient > 0
    ensures Magnitude(Rounded(d).coefficient) == HalfEven(Magnitude(d.coefficient), Pow10(extra))
  {
    hide HalfEven, Pow10, Rounded;
  }
}
