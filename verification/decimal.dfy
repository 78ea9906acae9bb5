/** The part of java.math.BigDecimal the rating computation relies on.

    A decimal is an unscaled integer together with a scale, standing for
    unscaled × 10^-scale. Addition and subtraction are exact and give the
    larger of the two scales; setScale and divide round to a requested scale
    with a rounding mode; intValue truncates toward zero and keeps the low
    32 bits; compareTo compares values, ignoring scale.
 */
module Decimal {

  /** The rounding modes the rating computation uses. */
  datatype RoundingMode = Down | HalfUp | HalfDown

  datatype Dec = Dec(unscaled: int, scale: nat)

  /** Number of 0.0001 units in 1: the fixed scale of every rate and rank. */
  const UnitsPerOne: int := 10000

  function Max(a: nat, b: nat): nat { if a < b then b else a }

  function Abs(x: int): nat { if x < 0 then -x else x }

  function Pow10(n: nat): (r: nat)
    ensures r >= 1
  {
    if n == 0 then 1 else 10 * Pow10(n - 1)
  }

  lemma {:induction false} Pow10Add(a: nat, b: nat)
    ensures Pow10(a + b) == Pow10(a) * Pow10(b)
  {
    if a > 0 {
      Pow10Add(a - 1, b);
    }
  }

  /** The exact value a decimal stands for. */
  function Value(d: Dec): real
  {
    d.unscaled as real / Pow10(d.scale) as real
  }

  /** The unscaled integer of `d` re-expressed at the larger scale `s`. */
  function Align(d: Dec, s: nat): int
    requires s >= d.scale
  {
    d.unscaled * Pow10(s - d.scale)
  }

  lemma ScaleFraction(u: int, k: nat, p: nat, a: int, m: nat)
    requires k > 0 && p > 0 && a == u * k && m == k * p
    ensures a as real / m as real == u as real / p as real
  {
    var q := u as real / p as real;
    var kr, pr := k as real, p as real;
    assert a as real == u as real * kr;
    assert m as real == kr * pr;
    assert u as real == q * pr;
    var mr := m as real;
    assert a as real == q * mr && mr > 0.0;
    assert a as real / mr == q;
  }

  /** Re-expressing a decimal at a larger scale keeps its value. */
  lemma AlignValue(d: Dec, s: nat)
    requires s >= d.scale
    ensures Value(d) == Align(d, s) as real / Pow10(s) as real
  {
    Pow10Add(s - d.scale, d.scale);
    ScaleFraction(d.unscaled, Pow10(s - d.scale), Pow10(d.scale), Align(d, s), Pow10(s));
  }

  lemma SumOverCommonDenominator(a: int, b: int, p: nat)
    requires p > 0
    ensures (a + b) as real / p as real == a as real / p as real + b as real / p as real
    ensures (a - b) as real / p as real == a as real / p as real - b as real / p as real
  {
  }

  lemma CompareOverCommonDenominator(a: int, b: int, p: nat)
    requires p > 0
    ensures a < b <==> a as real / p as real < b as real / p as real
    ensures a == b <==> a as real / p as real == b as real / p as real
  {
    var x := a as real / p as real;
    var y := b as real / p as real;
    assert a as real == x * p as real;
    assert b as real == y * p as real;
  }

  /** |n| / d rounded to an integer magnitude under `mode`. */
  function RoundMagnitude(a: nat, d: int, mode: RoundingMode): (m: nat)
    requires d > 0
    ensures mode == Down ==> m * d <= a < m * d + d
    ensures mode != Down ==> 2 * Abs(a - m * d) <= d
    ensures mode == HalfUp && 2 * Abs(a - m * d) == d ==> m * d > a
    ensures mode == HalfDown && 2 * Abs(a - m * d) == d ==> m * d < a
  {
    var t := a / d;
    var rem := a - t * d;
    DivisionParts(a, d);
    var up := 2 * rem > d || (mode == HalfUp && 2 * rem == d);
    if mode != Down && up then
      RoundedUp(a, d, t, rem);
      t + 1
    else
      t
  }

  lemma DivisionParts(a: nat, d: int)
    requires d > 0
    ensures a / d >= 0 && 0 <= a - (a / d) * d < d
  {
  }

  lemma RoundedUp(a: nat, d: int, t: int, rem: int)
    requires d > 0 && a == t * d + rem
    ensures (t + 1) * d == a + (d - rem)
  {
  }

  /** n / d rounded to an integer as BigDecimal rounds: Down truncates toward
      zero; HalfUp and HalfDown round to the nearest integer and break a tie
      away from zero and toward zero respectively. */
  function RoundQuotient(n: int, d: int, mode: RoundingMode): (q: int)
    requires d > 0
    ensures n >= 0 ==> q >= 0
    ensures n <= 0 ==> q <= 0
    ensures mode == Down ==> Abs(q) * d <= Abs(n) < Abs(q) * d + d
    ensures mode != Down ==> 2 * Abs(n - q * d) <= d
    ensures mode == HalfUp && 2 * Abs(n - q * d) == d ==> Abs(q) * d > Abs(n)
    ensures mode == HalfDown && 2 * Abs(n - q * d) == d ==> Abs(q) * d < Abs(n)
  {
    var m := RoundMagnitude(Abs(n), d, mode);
    if n >= 0 then
      m
    else
      NegatedRounding(n, d, m);
      -(m as int)
  }

  lemma NegatedRounding(n: int, d: int, m: nat)
    requires n < 0 && d > 0
    ensures Abs(-(m as int)) == m
    ensures n - (-(m as int)) * d == -(Abs(n) - m * d)
  {
  }

  /** BigDecimal.add: at the larger scale (exact, see AddSubtractValue). */
  function Add(x: Dec, y: Dec): (r: Dec)
    ensures r.scale == Max(x.scale, y.scale)
  {
    var s := Max(x.scale, y.scale);
    Dec(Align(x, s) + Align(y, s), s)
  }

  /** BigDecimal.subtract: at the larger scale (exact, see AddSubtractValue). */
  function Subtract(x: Dec, y: Dec): (r: Dec)
    ensures r.scale == Max(x.scale, y.scale)
  {
    var s := Max(x.scale, y.scale);
    Dec(Align(x, s) - Align(y, s), s)
  }

  /** Addition and subtraction are exact: the value of the result is the sum
      or difference of the values, whatever the two scales. */
  lemma AddSubtractValue(x: Dec, y: Dec)
    ensures Value(Add(x, y)) == Value(x) + Value(y)
    ensures Value(Subtract(x, y)) == Value(x) - Value(y)
  {
    var s := Max(x.scale, y.scale);
    AlignValue(x, s);
    AlignValue(y, s);
    SumOverCommonDenominator(Align(x, s), Align(y, s), Pow10(s));
  }

  /** BigDecimal.compareTo: -1, 0 or 1 as the value of x is below, equal to
      or above the value of y, whatever the scales. */
  function CompareTo(x: Dec, y: Dec): (r: int)
    ensures r == -1 <==> Value(x) < Value(y)
    ensures r == 0 <==> Value(x) == Value(y)
    ensures r == 1 <==> Value(x) > Value(y)
  {
    var s := Max(x.scale, y.scale);
    AlignValue(x, s);
    AlignValue(y, s);
    CompareOverCommonDenominator(Align(x, s), Align(y, s), Pow10(s));
    CompareOverCommonDenominator(Align(y, s), Align(x, s), Pow10(s));
    if Align(x, s) < Align(y, s) then -1
    else if Align(x, s) == Align(y, s) then 0
    else 1
  }

  /** BigDecimal.setScale(s, mode). Widening the scale is exact; narrowing it
      rounds the unscaled integer by the dropped power of ten. */
  function SetScale(x: Dec, s: nat, mode: RoundingMode): (r: Dec)
    ensures r.scale == s
    ensures s >= x.scale ==> Value(r) == Value(x)
    ensures s < x.scale ==> r.unscaled == RoundQuotient(x.unscaled, Pow10(x.scale - s), mode)
  {
    if s >= x.scale then
      AlignValue(x, s);
      Dec(Align(x, s), s)
    else
      Dec(RoundQuotient(x.unscaled, Pow10(x.scale - s), mode), s)
  }

  /** BigDecimal.divide(y, s, mode): the quotient x / y rounded to scale s.
      A zero divisor raises ArithmeticException in Java; the only caller
      divides by the constant 2. */
  function Divide(x: Dec, y: Dec, s: nat, mode: RoundingMode): (r: Dec)
    requires y.unscaled != 0
    ensures r.scale == s
    ensures y.unscaled > 0 ==>
      r.unscaled == RoundQuotient(x.unscaled * Pow10(y.scale + s), y.unscaled * Pow10(x.scale), mode)
  {
    var n := x.unscaled * Pow10(y.scale + s);
    var d := y.unscaled * Pow10(x.scale);
    if d > 0 then Dec(RoundQuotient(n, d, mode), s)
    else Dec(RoundQuotient(-n, -d, mode), s)
  }

  /** Java's narrowing of an integer to `int`: keep the low 32 bits. */
  function Wrap32(t: int): (r: int)
    ensures -0x8000_0000 <= r < 0x8000_0000
    ensures (r - t) % 0x1_0000_0000 == 0
    ensures -0x8000_0000 <= t < 0x8000_0000 ==> r == t
  {
    (t + 0x8000_0000) % 0x1_0000_0000 - 0x8000_0000
  }

  /** BigDecimal.intValue: truncate toward zero, then keep the low 32 bits. */
  function IntValue(x: Dec): int
  {
    Wrap32(SetScale(x, 0, Down).unscaled)
  }

  /** Units of 0.0001 in a decimal of scale at most 4. */
  function Units(d: Dec): int
    requires d.scale <= 4
  {
    if d.scale == 4 then d.unscaled
    else if d.scale == 3 then 10 * d.unscaled
    else if d.scale == 2 then 100 * d.unscaled
    else if d.scale == 1 then 1000 * d.unscaled
    else 10000 * d.unscaled
  }

  /** The unit count is the unscaled integer re-expressed at scale 4. */
  lemma UnitsAlign(d: Dec)
    requires d.scale <= 4
    ensures Units(d) == Align(d, 4)
  {
    assert Pow10(1) == 10 && Pow10(2) == 100 && Pow10(3) == 1000 && Pow10(4) == 10000;
  }

  lemma UnitsValue(d: Dec)
    requires d.scale <= 4
    ensures Value(d) == Units(d) as real / 10000.0
  {
    AlignValue(d, 4);
    UnitsAlign(d);
  }

  /** Two decimals of scale at most 4 have equal values exactly when they
      count the same number of 0.0001 units, and compare as those counts do. */
  lemma UnitsCompare(x: Dec, y: Dec)
    requires x.scale <= 4 && y.scale <= 4
    ensures Value(x) == Value(y) <==> Units(x) == Units(y)
    ensures Value(x) < Value(y) <==> Units(x) < Units(y)
  {
    UnitsValue(x);
    UnitsValue(y);
  }

  /** Sums and differences of scale-4 fixed-point values are sums and
      differences of their unit counts. */
  lemma {:induction false} AddUnits(x: Dec, y: Dec)
    requires x.scale <= 4 && y.scale <= 4
    ensures Add(x, y).scale <= 4 && Subtract(x, y).scale <= 4
    ensures Units(Add(x, y)) == Units(x) + Units(y)
    ensures Units(Subtract(x, y)) == Units(x) - Units(y)
  {
    AddSubtractValue(x, y);
    UnitsValue(x);
    UnitsValue(y);
    UnitsValue(Add(x, y));
    UnitsValue(Subtract(x, y));
  }

  /** setScale(4, mode) of a value already of scale at most 4 keeps the value
      exactly, whatever the rounding mode: it is a no-op on the fixed-point
      count, and the identity on a decimal already at scale 4. */
  lemma SetScaleIsExact(x: Dec, mode: RoundingMode)
    requires x.scale <= 4
    ensures SetScale(x, 4, mode) == Dec(Units(x), 4)
    ensures x.scale == 4 ==> SetScale(x, 4, mode) == x
  {
  }

  /** The bisection midpoint `(top - low).divide(2, 4, HALF_UP).add(low)` of
      two scale-4 fixed-point values is low + ceil((top - low) / 2), at scale 4. */
  lemma {:induction false} Midpoint(low: Dec, top: Dec)
    requires low.scale <= 4 && top.scale <= 4
    requires Units(low) <= Units(top)
    ensures Add(Divide(Subtract(top, low), Dec(2, 0), 4, HalfUp), low).scale == 4
    ensures Units(Add(Divide(Subtract(top, low), Dec(2, 0), 4, HalfUp), low))
         == Units(low) + (Units(top) - Units(low) + 1) / 2
  {
    var w := Subtract(top, low);
    AddUnits(top, low);
    var h := Divide(w, Dec(2, 0), 4, HalfUp);
    HalfOfWidth(w);
    AddUnits(h, low);
  }

  lemma {:induction false} HalfOfWidth(w: Dec)
    requires w.scale <= 4 && Units(w) >= 0
    ensures Divide(w, Dec(2, 0), 4, HalfUp).unscaled == (Units(w) + 1) / 2
  {
    var p := Pow10(w.scale);
    var k := Pow10(4 - w.scale);
    Pow10Add(4 - w.scale, w.scale);
    var u := Units(w);
    assert w.unscaled * Pow10(4) == u * p;
    assert Divide(w, Dec(2, 0), 4, HalfUp).unscaled == RoundQuotient(u * p, 2 * p, HalfUp);
    HalfUpOfEvenMultiple(u, p);
  }

  /** The HalfUp quotient of u·p by 2·p, for u >= 0, is ceil(u / 2). */
  lemma HalfUpOfEvenMultiple(u: nat, p: int)
    requires p > 0
    ensures RoundQuotient(u * p, 2 * p, HalfUp) == (u + 1) / 2
  {
    var n, d := u * p, 2 * p;
    var q := RoundQuotient(n, d, HalfUp);
    var e := u - 2 * q;
    ExcessOfEvenMultiple(u, q, p);
    ExcessCases(e, p);
    assert 2 * Abs(n - q * d) <= d;
    assert 2 * Abs(n - q * d) == d ==> q * d > n;
  }

  lemma ExcessOfEvenMultiple(u: int, q: int, p: int)
    ensures u * p - q * (2 * p) == (u - 2 * q) * p
  {
  }

  /** What e·p is, for p > 0, in the cases the rounding argument needs. */
  lemma ExcessCases(e: int, p: int)
    requires p > 0
    ensures e >= 2 ==> e * p >= 2 * p
    ensures e <= -2 ==> e * p <= -2 * p
    ensures e == 1 ==> e * p == p
    ensures e == 0 ==> e * p == 0
    ensures e == -1 ==> e * p == -p
  {
    if e >= 2 {
      MulMonotone(2, e, p);
    } else if e <= -2 {
      MulMonotone(e, -2, p);
    }
  }

  lemma MulMonotone(a: int, b: int, p: int)
    requires a <= b && p > 0
    ensures a * p <= b * p
  {
  }

  /** intValue of a non-negative scale-4 fixed-point value below 2^31 units
      is its integer part. */
  lemma {:induction false} IntValueOfUnits(d: Dec)
    requires d.scale <= 4 && 0 <= Units(d) < 0x8000_0000
    ensures IntValue(d) == Units(d) / 10000
  {
    var t := SetScale(d, 0, Down).unscaled;
    assert t * 10000 <= Units(d) < t * 10000 + 10000 by {
      TruncationBounds(d);
    }
    assert 0 <= t < 0x8000_0000;
  }

  lemma TruncationBounds(d: Dec)
    requires d.scale <= 4 && 0 <= Units(d)
    ensures var t := SetScale(d, 0, Down).unscaled;
      t * 10000 <= Units(d) < t * 10000 + 10000
  {
    var u := d.unscaled;
    var t := SetScale(d, 0, Down).unscaled;
    if d.scale > 0 {
      var p := Pow10(d.scale);
      var k := UnitsFactor(d.scale);
      assert k * p == 10000 && Units(d) == u * k by {
        assert Pow10(1) == 10 && Pow10(2) == 100 && Pow10(3) == 1000 && Pow10(4) == 10000;
      }
      assert t * p <= u < t * p + p;
      ScaledTruncation(u, t, p, k);
    }
  }

  /** The multiplier from a scale up to scale 4. */
  function UnitsFactor(s: nat): int
    requires s <= 4
  {
    if s == 4 then 1 else if s == 3 then 10 else if s == 2 then 100 else if s == 1 then 1000 else 10000
  }

  lemma ScaledTruncation(u: int, t: int, p: int, k: int)
    requires p > 0 && k > 0 && k * p == 10000
    requires t * p <= u < t * p + p
    ensures t * 10000 <= u * k < t * 10000 + 10000
  {
    MulMonotone(t * p, u, k);
    MulMonotone(u, t * p + p - 1, k);
  }
}
