/**
 Conversion of validated bars to LEAN minute rows: millisecond of the IST day and prices scaled by 10000,
 multiplied and quantized in the default decimal context.
 */
module Converter {
  import opened Basics
  import opened Calendar
  import opened Decimals
  import opened Rounding
  import opened Bars
  import opened Validator

  // `str.lower`, left open.
  const LowerCase: Text -> Text

  datatype Row = Row(millis: int, open: int, high: int, low: int, close: int, volume: int)

  datatype ConversionError =
    | Invalid(code: ErrorCode) | SymbolMismatch(index: int) | OutsideSession(index: int) | InvalidPrice(index: int)
    | DateOverflow(index: int)
    | PriceTooLarge(index: int) // decimal.InvalidOperation or decimal.Overflow

  /* ---------- scaling ---------- */

  // Round half up of n / u.
  function HalfUp(n: int, u: int): int
    requires u > 0
  {
    (2 * n + u) / (2 * u)
  }

  // The exact product price * Decimal("10000").
  function Product(d: Decimal): (p: Decimal)
    requires d.Finite?
    ensures p.Finite?
  {
    Finite(d.coefficient * 10_000, d.exponent)
  }

  // The nearest whole number, ties up.
  function Nearest(d: Decimal): int
    requires d.Finite?
  {
    var e := Min(d.exponent, 0);
    HalfUp(At(d, e), Pow10(-e))
  }

  // `int((price * 10000).quantize(1, ROUND_HALF_UP))` of a positive price: the product is rounded to the context's 28
  // digits, and `quantize` refuses a result with more digits than that.
  function Scale(d: Decimal): Option<int>
    requires d.Finite?
  {
    var s := Nearest(Rounded(Product(d)));
    if s < Pow10(PRECISION) then Some(s) else None
  }

  lemma HalfUpBounds(n: int, u: int)
    requires u > 0
    ensures 2 * n - u < 2 * u * HalfUp(n, u) <= 2 * n + u
  {
    var q, r := (2 * n + u) / (2 * u), (2 * n + u) % (2 * u);
    assert 2 * n + u == q * (2 * u) + r;
  }

  lemma HalfUpUnique(n: int, u: int, q: int)
    requires u > 0 && 2 * n - u < 2 * u * q <= 2 * n + u
    ensures q == HalfUp(n, u)
  {
    var p := HalfUp(n, u);
    HalfUpBounds(n, u);
    if p < q { Ahead(2 * u, p, q); }
    if q < p { Ahead(2 * u, q, p); }
  }

  lemma {:induction false} Ahead(u: int, p: int, q: int)
    requires u > 0 && p < q
    ensures u * p + u <= u * q
    decreases q - p
  {
    if p + 1 < q {
      Ahead(u, p, q - 1);
    }
    assert u * q == u * (q - 1) + u;
  }

  lemma HalfUpScaled(n: int, u: int, k: int)
    requires u > 0 && k > 0
    ensures u * k > 0 && HalfUp(n * k, u * k) == HalfUp(n, u)
  {
    hide HalfUp;
    var q := HalfUp(n, u);
    HalfUpBounds(n, u);
    Scaled(2 * n - u, 2 * u * q, 2 * n + u, k);
    assert (2 * n - u) * k == 2 * (n * k) - u * k && (2 * n + u) * k == 2 * (n * k) + u * k;
    assert 2 * u * q * k == 2 * (u * k) * q;
    HalfUpUnique(n * k, u * k, q);
  }

  lemma Scaled(a: int, b: int, c: int, k: int)
    requires a < b <= c && k > 0
    ensures a * k < b * k <= c * k && forall u :: u > 0 ==> u * k > 0
  {
  }

  lemma HalfUpMonotone(m: int, n: int, u: int)
    requires u > 0 && m <= n
    ensures HalfUp(m, u) <= HalfUp(n, u)
  {
    hide HalfUp;
    var p, q := HalfUp(m, u), HalfUp(n, u);
    HalfUpBounds(m, u);
    HalfUpBounds(n, u);
    if q < p { Ahead(2 * u, q, p); }
  }

  // The nearest whole number can be computed at any small enough exponent.
  lemma NearestAt(d: Decimal, e: int)
    requires d.Finite? && e <= d.exponent && e <= 0
    ensures Nearest(d) == HalfUp(At(d, e), Pow10(-e))
  {
    var m := Min(d.exponent, 0);
    AtShift(d, m, e);
    PowAdd(-m, m - e);
    HalfUpScaled(At(d, m), Pow10(-m), Pow10(m - e));
  }

  lemma NearestMonotone(a: Decimal, b: Decimal)
    requires a.Finite? && b.Finite? && Le(a, b)
    ensures Nearest(a) <= Nearest(b)
  {
    hide HalfUp, Nearest, At, Le;
    var e := Min(Common(a, b), 0);
    OrderAt(a, b, e);
    NearestAt(a, e);
    NearestAt(b, e);
    HalfUpMonotone(At(a, e), At(b, e), Pow10(-e));
  }

  lemma ProductAt(d: Decimal, e: int)
    requires d.Finite? && e <= d.exponent
    ensures At(Product(d), e) == At(d, e) * 10_000
  {
    var p := Pow10(d.exponent - e);
    assert d.coefficient * 10_000 * p == d.coefficient * p * 10_000;
  }

  lemma ProductMonotone(a: Decimal, b: Decimal)
    requires a.Finite? && b.Finite? && Le(a, b)
    ensures Le(Product(a), Product(b))
  {
    hide Le, At;
    var e := Common(a, b);
    OrderAt(a, b, e);
    ProductAt(a, e);
    ProductAt(b, e);
    ScaleOrder(At(a, e), At(b, e), 10_000);
    OrderAt(Product(a), Product(b), e);
  }

  /** Scaling keeps the order of prices of any size and precision: a price that can be scaled bounds every smaller one. */
  lemma ScaleMonotone(a: Decimal, b: Decimal)
    requires Positive(a) && Positive(b) && Le(a, b) && Scale(b).Some?
    ensures Scale(a).Some? && Scale(a).value <= Scale(b).value
  {
    hide Le, Rounded, Nearest;
    ProductMonotone(a, b);
    RoundedMonotone(Product(a), Product(b));
    NearestMonotone(Rounded(Product(a)), Rounded(Product(b)));
  }

  // `scaled` is the whole number nearest to `d`, the larger one on a tie.
  predicate WithinHalf(scaled: int, d: Decimal)
    requires d.Finite?
  {
    var e := Min(d.exponent, 0);
    2 * At(d, e) - Pow10(-e) < 2 * Pow10(-e) * scaled <= 2 * At(d, e) + Pow10(-e)
  }

  // At most 24 significant digits: the product fits the context.
  predicate Short(d: Decimal) { d.Finite? && Magnitude(d.coefficient) < Pow10(24) }

  lemma ShortProduct(d: Decimal)
    requires Short(d)
    ensures Rounded(Product(d)) == Product(d)
  {
    hide Pow10, Rounded;
    PowAdd(24, 4);
    assert Pow10(4) == 10_000 by { Widths(); }
    RoundedExact(Product(d));
  }

  /** A scaled price is the context's product rounded to the nearest unit; for a price of at most 24 digits, the exact
      price * 10000. */
  lemma ScaleWithinHalf(d: Decimal)
    requires d.Finite? && Scale(d).Some?
    ensures WithinHalf(Scale(d).value, Rounded(Product(d)))
    ensures Short(d) ==> WithinHalf(Scale(d).value, Product(d))
  {
    var p := Rounded(Product(d));
    HalfUpBounds(At(p, Min(p.exponent, 0)), Pow10(-Min(p.exponent, 0)));
    hide Rounded, HalfUp;
    if Short(d) { ShortProduct(d); }
  }

  lemma NearestIntegral(p: Decimal)
    requires p.Finite? && Integral(p)
    ensures Nearest(p) == ToInt(p)
  {
    hide HalfUp;
    assert Pow10(0) == 1;
    if p.exponent >= 0 {
      HalfUpUnique(At(p, 0), 1, At(p, 0));
    } else {
      var u := Pow10(-p.exponent);
      assert p.coefficient == ToInt(p) * u;
      HalfUpUnique(p.coefficient, u, ToInt(p));
    }
  }

  /** With no digit beyond the fourth decimal, and at most 24 digits, the scaled price is exactly price * 10000. */
  lemma ScaleExact(d: Decimal)
    requires Short(d) && (d.exponent >= -4 || Integral(Product(d))) && Scale(d).Some?
    ensures Same(Finite(Scale(d).value, 0), Product(d))
  {
    ShortProduct(d);
    if d.exponent >= -4 { FourDecimals(d); }
    hide Rounded, Nearest, Short, Integral;
    NearestIntegral(Product(d));
    ToIntExact(Product(d));
  }

  // A price with no digit beyond the fourth decimal.
  lemma FourDecimals(d: Decimal)
    requires d.Finite? && d.exponent >= -4
    ensures Integral(Product(d))
  {
    if d.exponent < 0 {
      var k := -d.exponent;
      PowAdd(4 - k, k);
      assert Pow10(4) == 10_000 by { Widths(); }
      var p, q := Pow10(k), Pow10(4 - k);
      hide Pow10;
      assert d.coefficient * 10_000 == d.coefficient * q * p;
      DividesTimes(d.coefficient * q, p);
    }
  }

  lemma DividesTimes(x: int, p: int)
    requires p > 0
    ensures x * p % p == 0
  {
    var q, r := x * p / p, x * p % p;
    assert (x - q) * p == r;
    if x > q { Ahead(p, 0, x - q); }
    if x < q { Ahead(p, 0, q - x); }
  }

  /* ---------- which prices can be scaled, and which scale to zero ---------- */

  // 10^28 - 1/2.
  function ScaleLimit(): Decimal { HalfBelow(Pow10(PRECISION), 0) }

  // price * 10000 < 10^28 - 1/2.
  predicate InRange(d: Decimal)
    requires d.Finite?
  {
    !Le(ScaleLimit(), Product(d))
  }

  lemma NearestWhole(n: int)
    ensures Nearest(Finite(n, 0)) == n
  {
    assert Pow10(0) == 1;
    HalfUpUnique(n, 1, n);
    hide HalfUp;
  }

  lemma ProductPositive(d: Decimal)
    requires Positive(d)
    ensures Positive(Product(d))
  {
  }

  /** A positive price can be scaled if and only if price * 10000 is below 10^28 - 1/2; from there on the context raises,
      although parser and validator accept the price. */
  lemma ScaleSucceedsIff(d: Decimal)
    requires Positive(d)
    ensures Scale(d).Some? <==> InRange(d)
  {
    ProductPositive(d);
    PowerOnGrid();
    hide Le, Rounded, Nearest, Pow10, AtGrid, HalfBelow;
    var m := Pow10(PRECISION);
    if Le(ScaleLimit(), Product(d)) {
      RoundedReaches(Product(d), m, 0);
      NearestMonotone(Finite(m, 0), Rounded(Product(d)));
      NearestWhole(m);
    } else {
      RoundedStays(Product(d), m, 0);
      NearestMonotone(Rounded(Product(d)), Finite(m - 1, 0));
      NearestWhole(m - 1);
    }
  }

  const HALF := Finite(5, -1)

  lemma HalfUpZero(n: int, u: int)
    requires u > 0 && n >= 0
    ensures HalfUp(n, u) == 0 <==> 2 * n < u
  {
    HalfUpBounds(n, u);
    var q := HalfUp(n, u);
    if 2 * n < u { HalfUpUnique(n, u, 0); }
    hide HalfUp;
  }

  lemma NearestZero(x: Decimal)
    requires Positive(x)
    ensures Nearest(x) == 0 <==> !Le(HALF, x)
  {
    var e := Min(x.exponent, -1);
    hide Le, Nearest;
    NearestAt(x, e);
    AtPositive(x, e);
    OrderAt(HALF, x, e);
    Ten(-1 - e);
    HalfUpZero(At(x, e), Pow10(-e));
    assert At(HALF, e) == 5 * Pow10(-1 - e);
  }

  // The first number that rounds up to 1/2: 1/2 - 5 * 10^-29.
  function ZeroLimit(): Decimal { HalfBelow(5 * Pow10(PRECISION - 1), -PRECISION) }

  lemma HalfOnGrid()
    ensures AtGrid(5 * Pow10(PRECISION - 1)) && 5 * Pow10(PRECISION - 1) % 2 == 0
    ensures Le(HALF, Finite(5 * Pow10(PRECISION - 1), -PRECISION))
    ensures !Le(HALF, Finite(5 * Pow10(PRECISION - 1) - 1, -PRECISION))
  {
    Ten(PRECISION - 1);
    Ten(PRECISION - 2);
    var p := Pow10(PRECISION - 2);
    assert Pow10(0) == 1;
    assert At(HALF, -PRECISION) == 5 * Pow10(PRECISION - 1);
    hide Pow10, Le;
    EvenTens(5 * p);
    OrderAt(HALF, Finite(5 * Pow10(PRECISION - 1), -PRECISION), -PRECISION);
    OrderAt(HALF, Finite(5 * Pow10(PRECISION - 1) - 1, -PRECISION), -PRECISION);
    WholeAt(5 * Pow10(PRECISION - 1), -PRECISION);
    WholeAt(5 * Pow10(PRECISION - 1) - 1, -PRECISION);
  }

  lemma RoundedHalf(d: Decimal)
    requires Positive(d)
    ensures Le(HALF, Rounded(d)) <==> Le(ZeroLimit(), d)
  {
    HalfOnGrid();
    RoundedPositive(d);
    hide Le, Rounded, Pow10, AtGrid, HalfBelow;
    var m, w := 5 * Pow10(PRECISION - 1), -PRECISION;
    if Le(ZeroLimit(), d) {
      RoundedReaches(d, m, w);
      LeTransitive(HALF, Finite(m, w), Rounded(d));
    } else {
      RoundedStays(d, m, w);
      if Le(HALF, Rounded(d)) { LeTransitive(HALF, Rounded(d), Finite(m - 1, w)); }
    }
  }

  /** A positive price scales to zero if and only if price * 10000 is below 1/2 - 5 * 10^-29, which the context rounds to
      less than 1/2; for prices of at most 24 digits that is price * 10000 < 1/2. */
  lemma ScaledZeroIff(d: Decimal)
    requires Positive(d)
    ensures Scale(d) == Some(0) <==> !Le(HALF, Rounded(Product(d)))
    ensures Scale(d) == Some(0) <==> !Le(ZeroLimit(), Product(d))
    ensures Short(d) ==> (Scale(d) == Some(0) <==> !Le(HALF, Product(d)))
  {
    ProductPositive(d);
    RoundedPositive(Product(d));
    NearestZero(Rounded(Product(d)));
    RoundedHalf(Product(d));
    if Short(d) { ShortProduct(d); }
    assert Pow10(PRECISION) > 0;
    hide Le, Rounded, Nearest, Short, Pow10, ZeroLimit, Product;
  }

  /** Positive prices that scale to zero exist, and so do finite ones that cannot be scaled. */
  lemma ScaleExtremes()
    ensures Positive(Finite(4, -5)) && Scale(Finite(4, -5)) == Some(0)
    ensures Positive(Finite(1, 24)) && Scale(Finite(1, 24)).None?
  {
    hide Rounded, Nearest, Scale;
    Tiny();
    ScaledZeroIff(Finite(4, -5));
    Huge();
    ScaleSucceedsIff(Finite(1, 24));
  }

  lemma Tiny()
    ensures Short(Finite(4, -5)) && !Le(HALF, Product(Finite(4, -5)))
  {
    PowAdd(20, 4);
    assert Pow10(4) == 10_000 by { Widths(); }
    hide Le;
    OrderAt(HALF, Finite(40_000, -5), -5);
    assert Pow10(0) == 1;
  }

  lemma Huge()
    ensures Le(ScaleLimit(), Product(Finite(1, 24)))
  {
    hide Le, Pow10;
    OrderAt(ScaleLimit(), Finite(10_000, 24), -1);
    PowAdd(4, 24);
    Ten(24);
    assert Pow10(4) == 10_000 by { Widths(); }
    WholeAt(10 * Pow10(PRECISION) - 5, -1);
  }

  /* ---------- rows ---------- */

  function Local(b: Bar): Option<Stamp> { ToZone(b.timestamp, IST) }

  predicate PricesInRange(b: Bar)
    requires PositivePrices(b)
  {
    InRange(b.open.value) && InRange(b.high.value) && InRange(b.low.value) && InRange(b.close.value)
  }

  // Why bar i stops the conversion when the bars before it do not.
  function BarFault(cleanSymbol: Text, session: int, b: Bar, i: int): Option<ConversionError> {
    if LowerCase(b.symbol) != cleanSymbol then Some(SymbolMismatch(i))
    else if Local(b).None? then Some(DateOverflow(i))
    else if DayIndex(Local(b).value) != session then Some(OutsideSession(i))
    else if !PositivePrices(b) then Some(InvalidPrice(i))
    else if !PricesInRange(b) then Some(PriceTooLarge(i))
    else None
  }

  function Millis(s: Stamp): int { TimeOfDay(s) / 1000 }

  function RowOf(b: Bar): Row
    requires Local(b).Some? && PositivePrices(b) && PricesInRange(b)
  {
    PricesScale(b);
    Row(Millis(Local(b).value), Scale(b.open.value).value, Scale(b.high.value).value, Scale(b.low.value).value,
        Scale(b.close.value).value, b.volume)
  }

  lemma PricesScale(b: Bar)
    requires PositivePrices(b)
    ensures PricesInRange(b) <==>
            Scale(b.open.value).Some? && Scale(b.high.value).Some? && Scale(b.low.value).Some? && Scale(b.close.value).Some?
  {
    hide Scale, InRange;
    ScaleSucceedsIff(b.open.value);
    ScaleSucceedsIff(b.high.value);
    ScaleSucceedsIff(b.low.value);
    ScaleSucceedsIff(b.close.value);
  }

  predicate IsRowOf(r: Row, b: Bar) { Local(b).Some? && PositivePrices(b) && PricesInRange(b) && r == RowOf(b) }

  // To the nearest unit of the product, which is exact up to 24 digits.
  predicate Tells(scaled: int, d: Decimal)
    requires d.Finite?
  {
    WithinHalf(scaled, Rounded(Product(d))) && (Short(d) ==> WithinHalf(scaled, Product(d)))
  }

  // A row tells its bar: the millisecond of the IST day, each price to the nearest unit, and the volume.
  predicate TellsBar(r: Row, b: Bar) {
    Local(b).Some? && PositivePrices(b) && r.volume == b.volume &&
    r.millis * 1000 <= TimeOfDay(Local(b).value) < r.millis * 1000 + 1000 &&
    Tells(r.open, b.open.value) && Tells(r.high, b.high.value) && Tells(r.low, b.low.value) && Tells(r.close, b.close.value)
  }

  /** What a converted row says about its bar. */
  lemma RowTellsBar(r: Row, b: Bar)
    requires IsRowOf(r, b)
    ensures TellsBar(r, b)
  {
    PricesScale(b);
    hide Scale, WithinHalf, Short, Rounded, Product, InRange;
    ScaleWithinHalf(b.open.value);
    ScaleWithinHalf(b.high.value);
    ScaleWithinHalf(b.low.value);
    ScaleWithinHalf(b.close.value);
  }

  // Rows a LEAN reader can rely on.
  predicate LeanRows(rows: seq<Row>) {
    (forall i :: 0 <= i < |rows| ==>
      0 <= rows[i].millis < 86_400_000 && rows[i].volume >= 0 &&
      rows[i].low <= rows[i].open <= rows[i].high && rows[i].low <= rows[i].close <= rows[i].high) &&
    (forall i :: 0 < i < |rows| ==> rows[i - 1].millis < rows[i].millis)
  }

  lemma RowOrdered(b: Bar)
    requires GoodPrices(b) && Local(b).Some? && PricesInRange(b) && b.volume >= 0
    ensures var r := RowOf(b);
            0 <= r.millis < 86_400_000 && r.volume >= 0 && r.low <= r.open <= r.high && r.low <= r.close <= r.high
  {
    PricesScale(b);
    hide Scale, Le, InRange;
    ScaleMonotone(b.low.value, b.open.value);
    ScaleMonotone(b.open.value, b.high.value);
    ScaleMonotone(b.low.value, b.close.value);
    ScaleMonotone(b.close.value, b.high.value);
  }

  lemma MillisIncrease(a: Bar, b: Bar, session: int)
    requires Local(a).Some? && Local(b).Some?
    requires DayIndex(Local(a).value) == session && DayIndex(Local(b).value) == session
    requires Instant(b.timestamp) - Instant(a.timestamp) >= MICROS
    ensures Millis(Local(a).value) < Millis(Local(b).value)
  {
    assert Local(b).value.local - Local(a).value.local >= MICROS;
    assert TimeOfDay(Local(b).value) - TimeOfDay(Local(a).value) >= MICROS;
  }

  // Bar i is the first that cannot be converted, for that reason.
  predicate FailsAt(cleanSymbol: Text, session: int, bars: seq<Bar>, i: int, e: ConversionError) {
    0 <= i < |bars| && BarFault(cleanSymbol, session, bars[i], i) == Some(e) && NoneBefore(cleanSymbol, session, bars, i)
  }

  predicate NoneBefore(cleanSymbol: Text, session: int, bars: seq<Bar>, n: int) {
    forall j :: 0 <= j < n && j < |bars| ==> BarFault(cleanSymbol, session, bars[j], j).None?
  }

  // The bar is the symbol's, on the session's IST date, and its prices can be scaled.
  predicate Convertible(cleanSymbol: Text, session: int, b: Bar) {
    LowerCase(b.symbol) == cleanSymbol && 0 <= Instant(b.timestamp) + IST * MICROS < MAX_LOCAL &&
    session * DAY <= Instant(b.timestamp) + IST * MICROS < session * DAY + DAY && PositivePrices(b) && PricesInRange(b)
  }

  // What the error says about bar i.
  predicate Refuses(cleanSymbol: Text, session: int, b: Bar, i: int, e: ConversionError) {
    match e
    case SymbolMismatch(k) => k == i && LowerCase(b.symbol) != cleanSymbol
    case DateOverflow(k) => k == i && !(0 <= Instant(b.timestamp) + IST * MICROS < MAX_LOCAL)
    case OutsideSession(k) => k == i && !(session * DAY <= Instant(b.timestamp) + IST * MICROS < session * DAY + DAY)
    case PriceTooLarge(k) => k == i && PositivePrices(b) && !PricesInRange(b)
    case _ => false
  }

  lemma DayOf(local: int, day: int)
    ensures local / DAY == day <==> day * DAY <= local < day * DAY + DAY
  {
  }

  lemma BarFaultMeans(cleanSymbol: Text, session: int, b: Bar, i: int)
    requires GoodPrices(b)
    ensures BarFault(cleanSymbol, session, b, i).None? <==> Convertible(cleanSymbol, session, b)
    ensures BarFault(cleanSymbol, session, b, i).Some? ==> Refuses(cleanSymbol, session, b, i, BarFault(cleanSymbol, session, b, i).value)
  {
    DayOf(Instant(b.timestamp) + IST * MICROS, session);
    hide PricesInRange, PositivePrice, Ohlc;
  }

  // Bar i is the first that is not convertible, for that reason.
  predicate RefusedAt(cleanSymbol: Text, session: int, bars: seq<Bar>, i: int, e: ConversionError) {
    0 <= i < |bars| && Refuses(cleanSymbol, session, bars[i], i, e) && forall j :: 0 <= j < i ==> Convertible(cleanSymbol, session, bars[j])
  }

  predicate AllConvertible(cleanSymbol: Text, session: int, bars: seq<Bar>) {
    forall i :: 0 <= i < |bars| ==> Convertible(cleanSymbol, session, bars[i])
  }

  lemma NoFaultMeans(cleanSymbol: Text, session: int, bars: seq<Bar>)
    requires forall i :: 0 <= i < |bars| ==> GoodPrices(bars[i])
    ensures NoneBefore(cleanSymbol, session, bars, |bars|) <==> AllConvertible(cleanSymbol, session, bars)
  {
    hide BarFault, Convertible, GoodPrices, Refuses;
    forall i | 0 <= i < |bars| ensures BarFault(cleanSymbol, session, bars[i], i).None? <==> Convertible(cleanSymbol, session, bars[i]) {
      BarFaultMeans(cleanSymbol, session, bars[i], i);
    }
  }

  lemma FailMeans(cleanSymbol: Text, session: int, bars: seq<Bar>, i: int, e: ConversionError)
    requires (forall j :: 0 <= j < |bars| ==> GoodPrices(bars[j])) && FailsAt(cleanSymbol, session, bars, i, e)
    ensures RefusedAt(cleanSymbol, session, bars, i, e) && !AllConvertible(cleanSymbol, session, bars)
  {
    hide BarFault, Convertible, GoodPrices, Refuses;
    forall j | 0 <= j <= i ensures BarFault(cleanSymbol, session, bars[j], j).None? <==> Convertible(cleanSymbol, session, bars[j]) {
      BarFaultMeans(cleanSymbol, session, bars[j], j);
    }
    BarFaultMeans(cleanSymbol, session, bars[i], i);
  }

  predicate RowsFor(rows: seq<Row>, bars: seq<Bar>) {
    |rows| == |bars| && forall i :: 0 <= i < |bars| ==> IsRowOf(rows[i], bars[i])
  }

  // The branches of the loop body, in its order, on a validated bar.
  lemma BarBranches(cleanSymbol: Text, session: int, b: Bar, i: int)
    requires GoodPrices(b)
    ensures PositivePrices(b)
    ensures BarFault(cleanSymbol, session, b, i) ==
            if LowerCase(b.symbol) != cleanSymbol then Some(SymbolMismatch(i))
            else if Local(b).None? then Some(DateOverflow(i))
            else if DayIndex(Local(b).value) != session then Some(OutsideSession(i))
            else if Scale(b.open.value).None? || Scale(b.high.value).None? || Scale(b.low.value).None? || Scale(b.close.value).None?
            then Some(PriceTooLarge(i))
            else None
    ensures BarFault(cleanSymbol, session, b, i).None? ==>
              IsRowOf(Row(Millis(Local(b).value), Scale(b.open.value).value, Scale(b.high.value).value,
                          Scale(b.low.value).value, Scale(b.close.value).value, b.volume), b)
  {
    hide Scale, Local, Millis, PricesInRange, PositivePrice, Ohlc;
    PricesScale(b);
  }

  /** The row loop: one row for each bar, or the first bar that stops it; the price check of `_scale` never fires on
      validated bars. */
  method BuildRows(cleanSymbol: Text, session: int, bars: seq<Bar>) returns (r: Result<seq<Row>, ConversionError>)
    requires forall i :: 0 <= i < |bars| ==> GoodPrices(bars[i])
    ensures r.Ok? ==> NoneBefore(cleanSymbol, session, bars, |bars|) && RowsFor(r.value, bars)
    ensures r.Err? ==> !r.error.InvalidPrice? && !r.error.Invalid? && exists i :: FailsAt(cleanSymbol, session, bars, i, r.error)
  {
    hide GoodPrices, IsRowOf, BarFault, Local, PositivePrices, Scale, Millis;
    var rows: seq<Row> := [];
    for index := 0 to |bars|
      invariant |rows| == index && NoneBefore(cleanSymbol, session, bars, index)
      invariant forall i :: 0 <= i < index ==> IsRowOf(rows[i], bars[i])
    {
      var bar := bars[index];
      BarBranches(cleanSymbol, session, bar, index);
      var fault: Option<ConversionError> := None;
      var local := Local(bar);
      if LowerCase(bar.symbol) != cleanSymbol {
        fault := Some(SymbolMismatch(index));
      } else if local.None? {
        fault := Some(DateOverflow(index));
      } else if DayIndex(local.value) != session {
        fault := Some(OutsideSession(index));
      } else {
        Positives(bar);
        var open, high := Scale(bar.open.value), Scale(bar.high.value);
        var low, close := Scale(bar.low.value), Scale(bar.close.value);
        if open.None? || high.None? || low.None? || close.None? {
          fault := Some(PriceTooLarge(index));
        } else {
          rows := rows + [Row(Millis(local.value), open.value, high.value, low.value, close.value, bar.volume)];
        }
      }
      if fault.Some? {
        assert FailsAt(cleanSymbol, session, bars, index, fault.value);
        return Err(fault.value);
      }
    }
    return Ok(rows);
  }

  lemma Positives(b: Bar)
    requires PositivePrices(b)
    ensures b.open.Num? && b.high.Num? && b.low.Num? && b.close.Num?
    ensures b.open.value.Finite? && b.high.value.Finite? && b.low.value.Finite? && b.close.value.Finite?
  {
  }

  lemma AcceptedBars(xs: seq<Element>)
    requires Acceptable(xs)
    ensures |BarsIn(xs)| == |xs| && (forall i :: 0 <= i < |xs| ==> GoodPrices(BarsIn(xs)[i]) && BarsIn(xs)[i].volume >= 0)
    ensures forall i :: 0 < i < |xs| ==> Gap(BarsIn(xs), i) >= MICROS
  {
    hide GoodPrices, BarsIn, Strangers, Instant;
    NoStrangers(xs);
  }

  /** Lines 45-60 of the conversion: validate, then one row per bar.  The rows of an accepted list have increasing
      milliseconds within one day, and scaled prices that keep low <= open, close <= high. */
  method ConvertRows(cleanSymbol: Text, session: int, xs: seq<Element>) returns (r: Result<seq<Row>, ConversionError>)
    ensures r.Ok? <==>
            Acceptable(xs) && AllConvertible(cleanSymbol, session, BarsIn(xs))
    ensures r.Ok? ==> |r.value| == |xs| == |BarsIn(xs)| && LeanRows(r.value)
    ensures r.Ok? ==> forall i :: 0 <= i < |xs| ==> TellsBar(r.value[i], BarsIn(xs)[i])
    ensures !Acceptable(xs) ==> CodeOf(xs).Some? && r == Err(Invalid(CodeOf(xs).value))
    ensures r.Err? && Acceptable(xs) ==> exists i :: RefusedAt(cleanSymbol, session, BarsIn(xs), i, r.error)
  {
    hide GoodPrices, CodeOf, RowsFor, BarFault, Acceptable, LeanRows, BarsIn, AllConvertible, RefusedAt, FailsAt, NoneBefore, TellsBar;
    var verdict := ValidateNormalizedBars(xs);
    AcceptedIff(xs);
    if !verdict.isValid { return Err(Invalid(verdict.errorCode.value)); }
    AcceptedBars(xs);
    NoFaultMeans(cleanSymbol, session, BarsIn(xs));
    r := BuildRows(cleanSymbol, session, BarsIn(xs));
    if r.Err? {
      var i :| FailsAt(cleanSymbol, session, BarsIn(xs), i, r.error);
      FailMeans(cleanSymbol, session, BarsIn(xs), i, r.error);
    } else {
      RowsAreLean(cleanSymbol, session, BarsIn(xs), r.value);
      RowsTellBars(r.value, BarsIn(xs));
    }
  }

  lemma RowsTellBars(rows: seq<Row>, bars: seq<Bar>)
    requires RowsFor(rows, bars)
    ensures |rows| == |bars| && forall i :: 0 <= i < |rows| ==> TellsBar(rows[i], bars[i])
  {
    hide IsRowOf, TellsBar;
    forall i | 0 <= i < |rows| ensures TellsBar(rows[i], bars[i]) { RowTellsBar(rows[i], bars[i]); }
  }

  /** Rows of accepted bars increase in time within one day and keep low <= open, close <= high. */
  lemma RowsAreLean(cleanSymbol: Text, session: int, bars: seq<Bar>, rows: seq<Row>)
    requires forall i :: 0 <= i < |bars| ==> GoodPrices(bars[i]) && bars[i].volume >= 0
    requires forall i :: 0 < i < |bars| ==> Gap(bars, i) >= MICROS
    requires NoneBefore(cleanSymbol, session, bars, |bars|) && RowsFor(rows, bars)
    ensures LeanRows(rows)
  {
    hide GoodPrices, PositivePrices, Instant, Local, DayIndex, Millis, PricesInRange;
    forall i | 0 <= i < |rows|
      ensures 0 <= rows[i].millis < 86_400_000 && rows[i].volume >= 0 &&
              rows[i].low <= rows[i].open <= rows[i].high && rows[i].low <= rows[i].close <= rows[i].high
    {
      RowOrdered(bars[i]);
    }
    forall i | 0 < i < |rows| ensures rows[i - 1].millis < rows[i].millis {
      assert BarFault(cleanSymbol, session, bars[i - 1], i - 1).None?;
      assert Gap(bars, i) >= MICROS;
      MillisIncrease(bars[i - 1], bars[i], session);
    }
  }
}
