/** Python's Decimal as coefficient and exponent, compared exactly. */
module Decimals {
  import opened Basics
  import opened Calendar

  // `coefficient` carries the sign; infinities and NaNs are one case, since every use rejects them alike.
  datatype Decimal = Finite(coefficient: int, exponent: int) | NonFinite

  // The coefficient at a smaller exponent.
  function At(d: Decimal, e: int): int
    requires d.Finite? && e <= d.exponent
  {
    d.coefficient * Pow10(d.exponent - e)
  }

  function Common(a: Decimal, b: Decimal): int
    requires a.Finite? && b.Finite?
  {
    Min(a.exponent, b.exponent)
  }

  // `a <= b` and `a == b`, which ignore the context's precision.
  predicate Le(a: Decimal, b: Decimal)
    requires a.Finite? && b.Finite?
  {
    At(a, Common(a, b)) <= At(b, Common(a, b))
  }

  predicate Same(a: Decimal, b: Decimal)
    requires a.Finite? && b.Finite?
  {
    At(a, Common(a, b)) == At(b, Common(a, b))
  }

  predicate Positive(d: Decimal) { d.Finite? && d.coefficient > 0 }

  // `d == d.to_integral_value()`.
  predicate Integral(d: Decimal)
    requires d.Finite?
  {
    d.exponent >= 0 || d.coefficient % Pow10(-d.exponent) == 0
  }

  // `int(d)` of an integral value.
  function ToInt(d: Decimal): int
    requires d.Finite? && Integral(d)
  {
    if d.exponent >= 0 then At(d, 0) else d.coefficient / Pow10(-d.exponent)
  }

  lemma {:induction false} PowAdd(a: nat, b: nat)
    ensures Pow10(a + b) == Pow10(a) * Pow10(b)
  {
    if a > 0 { PowAdd(a - 1, b); }
  }

  lemma Multiply(x: int, y: int, z: int)
    ensures x * (y * z) == x * y * z
  {
  }

  lemma AtShift(d: Decimal, e: int, f: int)
    requires d.Finite? && f <= e <= d.exponent
    ensures At(d, f) == At(d, e) * Pow10(e - f)
  {
    PowAdd(d.exponent - e, e - f);
    Multiply(d.coefficient, Pow10(d.exponent - e), Pow10(e - f));
  }

  lemma ScaleOrder(x: int, y: int, k: int)
    requires k > 0
    ensures x <= y <==> x * k <= y * k
    ensures x == y <==> x * k == y * k
  {
    if x < y { assert (y - x) * k > 0; }
    if y < x { assert (x - y) * k > 0; }
  }

  /** The order of two decimals can be read off at any exponent below both. */
  lemma OrderAt(a: Decimal, b: Decimal, e: int)
    requires a.Finite? && b.Finite? && e <= a.exponent && e <= b.exponent
    ensures Le(a, b) <==> At(a, e) <= At(b, e)
    ensures Same(a, b) <==> At(a, e) == At(b, e)
  {
    var m := Common(a, b);
    AtShift(a, m, e);
    AtShift(b, m, e);
    ScaleOrder(At(a, m), At(b, m), Pow10(m - e));
  }

  lemma LeTransitive(a: Decimal, b: Decimal, c: Decimal)
    requires a.Finite? && b.Finite? && c.Finite? && Le(a, b) && Le(b, c)
    ensures Le(a, c)
  {
    hide Le, At;
    var e := Min(a.exponent, Common(b, c));
    OrderAt(a, b, e);
    OrderAt(b, c, e);
    OrderAt(a, c, e);
  }

  /** An integral decimal is the integer it converts to. */
  lemma ToIntExact(d: Decimal)
    requires d.Finite? && Integral(d)
    ensures Same(d, Finite(ToInt(d), 0))
  {
    assert Pow10(0) == 1;
    if d.exponent < 0 {
      assert d.coefficient == ToInt(d) * Pow10(-d.exponent);
    }
  }

  lemma TimesMod(n: int, k: int)
    requires k > 0
    ensures n * k % k == 0 && n * k / k == n
    ensures n * k >= 0 <==> n >= 0
  {
    ScaleOrder(0, n, k);
    var q, r := n * k / k, n * k % k;
    assert (n - q) * k == r;
    if n > q { ScaleOrder(1, n - q, k); }
    if n < q { ScaleOrder(n - q, -1, k); }
  }

  /** The whole numbers from zero up are the integral decimals with no sign, each equal to one integer. */
  lemma WholeIff(d: Decimal, n: int)
    requires d.Finite?
    ensures Same(d, Finite(n, 0)) <==> Integral(d) && ToInt(d) == n
    ensures Integral(d) ==> (d.coefficient >= 0 <==> ToInt(d) >= 0)
  {
    hide Pow10;
    assert Pow10(0) == 1 by { PowZero(); }
    if d.exponent < 0 {
      var k := Pow10(-d.exponent);
      TimesMod(n, k);
      if Integral(d) {
        assert d.coefficient == ToInt(d) * k;
        TimesMod(ToInt(d), k);
      }
    } else {
      ScaleOrder(0, d.coefficient, Pow10(d.exponent));
    }
  }

  lemma PowZero()
    ensures Pow10(0) == 1
  {
  }
}
