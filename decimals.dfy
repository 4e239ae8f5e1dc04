/**
  The part of java.math.BigDecimal the catalogue uses: a value is an unscaled integer and a
  scale, standing for unscaled × 10^(-scale); `equals` compares both parts, so 2.0 and 2.00
  differ. Multiplication adds scales; setScale(n, HALF_UP) rounds to the nearest multiple of
  10^(-n), ties away from zero.
*/
module Decimals {
  import opened Numerals

  datatype Decimal = Decimal(unscaled: int, scale: int)

  /** BigDecimal.ZERO: unscaled 0, scale 0. */
  const Zero := Decimal(0, 0)

  function Abs(x: int): nat {
    if x < 0 then -x else x
  }

  function Max(a: int, b: int): int {
    if a < b then b else a
  }

  /** BigDecimal.multiply: exact, the scale of the product is the sum of the scales. */
  function Multiply(a: Decimal, b: Decimal): (r: Decimal)
    ensures r.scale == a.scale + b.scale
    ensures r.unscaled == 0 <==> a.unscaled == 0 || b.unscaled == 0
  {
    Decimal(a.unscaled * b.unscaled, a.scale + b.scale)
  }

  /** The value of `x` counted in units of 10^(-e), for a scale `e` at least as fine as its own. */
  function ScaledTo(x: Decimal, e: int): int
    requires e >= x.scale
  {
    x.unscaled * Pow10(e - x.scale)
  }

  /** `a <= b` as numbers (compareTo), whatever their scales. */
  predicate AtMost(a: Decimal, b: Decimal) {
    var e := Max(a.scale, b.scale);
    ScaledTo(a, e) <= ScaledTo(b, e)
  }

  /**
    The product is exact: counted in units of 10^(-(e + f)), it is the product of the factors
    counted in units of 10^(-e) and 10^(-f).
  */
  lemma MultiplyIsExact(a: Decimal, b: Decimal, e: int, f: int)
    requires e >= a.scale && f >= b.scale
    ensures ScaledTo(Multiply(a, b), e + f) == ScaledTo(a, e) * ScaledTo(b, f)
  {
    var pa, pb := Pow10(e - a.scale), Pow10(f - b.scale);
    Pow10Add(e - a.scale, f - b.scale);
    assert ScaledTo(Multiply(a, b), e + f) == (a.unscaled * b.unscaled) * (pa * pb);
    MulRearrange(a.unscaled, b.unscaled, pa, pb);
  }

  lemma MulRearrange(x: int, y: int, p: int, q: int)
    ensures (x * y) * (p * q) == (x * p) * (y * q)
  {
  }

  /**
    Integer division rounded HALF_UP, the way BigDecimal divides when a scale is reduced:
    truncate the magnitude, and step one further from zero when twice the discarded
    remainder reaches the divisor.
  */
  function HalfUpDivide(n: int, d: nat): int
    requires d > 0
  {
    var m := Abs(n);
    var q := m / d + (if 2 * (m % d) >= d then 1 else 0);
    if n < 0 then -q else q
  }

  /**
    HalfUpDivide(n, d) is a nearest multiple of `d` to `n`, and on a tie it is the one
    farther from zero; its sign follows `n`.
  */
  lemma HalfUpDivideRounds(n: int, d: nat)
    requires d > 0
    ensures var q := HalfUpDivide(n, d);
      && 2 * Abs(n - q * d) <= d
      && (2 * Abs(n - q * d) == d ==> Abs(q * d) > Abs(n))
      && (n >= 0 ==> q >= 0)
      && (n <= 0 ==> q <= 0)
  {
    var m := Abs(n);
    var q := HalfUpDivide(n, d);
    var mq := m / d + (if 2 * (m % d) >= d then 1 else 0);
    MagnitudeRounds(m, d);
    if n < 0 {
      assert q == -mq;
      NegateTimes(mq, d);
      assert n - q * d == -(m - mq * d);
    } else {
      assert q == mq;
    }
  }

  lemma MagnitudeRounds(m: nat, d: nat)
    requires d > 0
    ensures var q := m / d + (if 2 * (m % d) >= d then 1 else 0);
      2 * Abs(m - q * d) <= d && (2 * Abs(m - q * d) == d ==> q * d > m) && q * d >= 0
  {
    var a, b := m / d, m % d;
    assert m == a * d + b;
    if 2 * b >= d {
      assert (a + 1) * d == a * d + d;
    }
  }

  lemma NegateTimes(q: int, d: int)
    ensures (-q) * d == -(q * d)
  {
  }

  /**
    BigDecimal.setScale(newScale, RoundingMode.HALF_UP): a finer scale is exact, a coarser
    one divides the unscaled value by a power of ten, rounding HALF_UP.
  */
  function SetScaleHalfUp(x: Decimal, newScale: int): (r: Decimal)
    ensures r.scale == newScale
    ensures newScale >= x.scale ==> AtMost(r, x) && AtMost(x, r)
    ensures x.unscaled >= 0 ==> r.unscaled >= 0
    ensures x.unscaled <= 0 ==> r.unscaled <= 0
  {
    if newScale >= x.scale then Decimal(x.unscaled * Pow10(newScale - x.scale), newScale)
    else
      HalfUpDivideRounds(x.unscaled, Pow10(x.scale - newScale));
      Decimal(HalfUpDivide(x.unscaled, Pow10(x.scale - newScale)), newScale)
  }

  /**
    Measured at the finer of the two scales, the rescaled value is within half a unit of
    the new scale of the original, ties go away from zero, and a finer scale loses nothing.
  */
  lemma SetScaleHalfUpRounds(x: Decimal, newScale: int)
    ensures var r, e := SetScaleHalfUp(x, newScale), Max(x.scale, newScale);
      && 2 * Abs(ScaledTo(r, e) - ScaledTo(x, e)) <= Pow10(e - newScale)
      && (2 * Abs(ScaledTo(r, e) - ScaledTo(x, e)) == Pow10(e - newScale) ==>
            Abs(ScaledTo(r, e)) > Abs(ScaledTo(x, e)))
      && (newScale >= x.scale ==> ScaledTo(r, e) == ScaledTo(x, e))
      && (x.unscaled >= 0 ==> r.unscaled >= 0)
  {
    var r, e := SetScaleHalfUp(x, newScale), Max(x.scale, newScale);
    if newScale < x.scale {
      var d := Pow10(x.scale - newScale);
      HalfUpDivideRounds(x.unscaled, d);
      assert ScaledTo(r, e) == r.unscaled * d;
      assert ScaledTo(x, e) == x.unscaled;
      assert Abs(ScaledTo(r, e) - ScaledTo(x, e)) == Abs(x.unscaled - r.unscaled * d);
    }
  }
}
