/** Binary64 numbers (section 3.4 of IEEE 754-2008) and rounding to nearest. */
module Ieee754 {
  import opened Powers
  import opened DiyFloat

  /** Sign bit, biased exponent and trailing significand field. */
  datatype Double = Double(negative: bool, biased: nat, fraction: nat) {

    /** Every encoding except infinities and NaNs. */
    predicate Finite() {
      biased < 2047 && fraction < HIDDEN_BIT
    }

    /** DiyFp(double): the significand with its hidden bit, and the exponent. */
    function Decode(): (d: DiyFp)
      requires Finite()
      ensures d.f < 2 * HIDDEN_BIT && -1074 <= d.e <= 971
      ensures d.f >= HIDDEN_BIT || d.e == -1074
    {
      if biased != 0 then DiyFp(fraction + HIDDEN_BIT, biased - 1075) else DiyFp(fraction, -1074)
    }

    function Magnitude(): real
      requires Finite()
    {
      Decode().f as real * Two(Decode().e)
    }

    function Value(): real
      requires Finite()
    {
      if negative then -Magnitude() else Magnitude()
    }

    /** The upper end of the numbers that round to this magnitude. */
    function Upper(): real
      requires Finite()
    {
      (2 * Decode().f + 1) as real * Two(Decode().e - 1)
    }

    /** The lower end, nearer when only the hidden bit is set: the number below
        may have the smaller exponent. */
    function Lower(): real
      requires Finite()
    {
      if Decode().f == HIDDEN_BIT then (4 * Decode().f - 1) as real * Two(Decode().e - 2)
      else (2 * Decode().f - 1) as real * Two(Decode().e - 1)
    }

    /** The magnitude in units of the least positive double. */
    function Grid(): nat
      requires Finite()
    {
      Decode().f * Pow2(Decode().e + 1074)
    }
  }

  /** A normal number is 1.fraction at its unbiased exponent, a subnormal one 0.fraction at
      the least. */
  lemma ValueIs(v: Double)
    requires v.Finite()
    ensures var f := v.fraction as real / 4503599627370496.0;
            v.Magnitude() == if v.biased != 0 then (1.0 + f) * Two(v.biased - 1023) else f * Two(-1022)
  {
    hide Two;
    var e := if v.biased != 0 then v.biased as int - 1023 else -1022;
    TwoAdd(52, e - 52);
    TwoOfNat(52);
    Pow2Values();
    Significand(v.fraction as real, Two(e - 52), Two(e));
  }

  lemma Significand(f: real, u: real, w: real)
    requires w == 4503599627370496.0 * u
    ensures (f + 4503599627370496.0) * u == (1.0 + f / 4503599627370496.0) * w
    ensures f * u == (f / 4503599627370496.0) * w
  {
  }

  /** What a grid coordinate stands for. */
  function OnGrid(g: nat): real {
    g as real * Two(-1074)
  }

  lemma MagnitudeOfGrid(v: Double)
    requires v.Finite()
    ensures v.Magnitude() == OnGrid(v.Grid())
  {
    hide Two, Pow2;
    var e := v.Decode().e;
    TwoOfNat(e + 1074);
    TwoAdd(e + 1074, -1074);
    Reassociate(v.Decode().f, Pow2(e + 1074), Two(e + 1074), Two(-1074), Two(e));
  }

  lemma Reassociate(f: int, p: int, pr: real, u: real, w: real)
    requires pr == p as real && w == pr * u
    ensures (f * p) as real * u == f as real * w
  {
    assert (f * p) as real == f as real * pr;
  }

  /** Doubles above v start one unit in the last place above it; doubles below v
      end one unit below it, or half a unit when v is a bare hidden bit. */
  lemma Gaps(v: Double, u: Double)
    requires v.Finite() && u.Finite()
    ensures var unit := Pow2(v.Decode().e + 1074);
            && (u.Grid() > v.Grid() ==> u.Grid() >= v.Grid() + unit)
            && (u.Grid() < v.Grid() ==>
                  2 * u.Grid() + (if v.Decode().f == HIDDEN_BIT then unit else 2 * unit) <= 2 * v.Grid())
  {
    hide Pow2;
    var f, e, g, t := v.Decode().f, v.Decode().e, u.Decode().f, u.Decode().e;
    var unit := Pow2(e + 1074);
    if t >= e {
      Pow2Add(t - e, e + 1074);
      MultiplesApart(f, g * Pow2(t - e), unit);
      Reorder(g, Pow2(t - e), unit);
    } else {
      Pow2Add(1, e + 1073);
      Pow2Values1();
      Pow2Monotone(t + 1074, e + 1073);
      SmallerExponent(f, g, unit, Pow2(t + 1074));
    }
  }

  lemma Reorder(g: int, p: int, unit: int)
    ensures (g * p) * unit == g * (p * unit)
  {
  }

  lemma MultiplesApart(a: int, b: int, unit: nat)
    requires unit > 0
    ensures b * unit > a * unit ==> b * unit >= a * unit + unit
    ensures b * unit < a * unit ==> b * unit + unit <= a * unit
  {
    if b > a {
      ProductBound(1, b - a, unit, unit);
    } else {
      ProductBound(0, a - b, 0, unit);
      if b < a {
        ProductBound(1, a - b, unit, unit);
      }
    }
  }

  lemma SmallerExponent(f: nat, g: nat, unit: nat, small: nat)
    requires HIDDEN_BIT <= f && g < 2 * HIDDEN_BIT && 2 * small <= unit
    ensures g * small <= f * unit
    ensures 2 * (g * small) + (if f == HIDDEN_BIT then unit else 2 * unit) <= 2 * (f * unit)
  {
    ProductBound(g, 2 * HIDDEN_BIT - 1, small, small);
    if f > HIDDEN_BIT {
      ProductBound(HIDDEN_BIT + 1, f, unit, unit);
    }
  }

  function Abs(x: real): real {
    if x < 0.0 then -x else x
  }

  /** From this magnitude on, rounding to nearest gives infinity: half a unit in the
      last place above the largest finite double. */
  function OverflowBound(): real {
    (4 * HIDDEN_BIT - 1) as real * Two(970)
  }

  /** x reads back as v under rounding to nearest: it does not overflow, and every
      finite double with another value is strictly farther away. */
  ghost predicate RoundsTo(x: real, v: Double)
    requires v.Finite()
  {
    && Abs(x) < OverflowBound()
    && forall u: Double :: u.Finite() && u.Value() != v.Value() ==> Abs(x - v.Value()) < Abs(x - u.Value())
  }

  /** The bound is where the interval of the largest finite double ends, and no other
      interval ends above it. */
  lemma UpperWithinBound(v: Double)
    requires v.Finite()
    ensures v.Upper() <= OverflowBound()
    ensures v == Double(v.negative, 2046, HIDDEN_BIT - 1) ==> v.Upper() == OverflowBound()
  {
    hide Two;
    var d := v.Decode();
    TwoMonotone(d.e - 1, 970);
    ProductOrder((2 * d.f + 1) as real, (4 * HIDDEN_BIT - 1) as real, Two(d.e - 1), Two(970));
  }

  lemma {:induction false} TwoMonotone(m: int, n: int)
    requires m <= n
    ensures Two(m) <= Two(n)
    decreases n - m
  {
    if m == n {
    } else {
      TwoMonotone(m, n - 1);
      TwoStep(n - 1);
    }
  }

  lemma ProductOrder(a: real, b: real, x: real, y: real)
    requires 0.0 <= a <= b && 0.0 <= x <= y
    ensures a * x <= b * y
  {
    assert (b - a) * x >= 0.0;
    assert b * (y - x) >= 0.0;
  }

  /** Strictly between the two ends of v's interval, x is nearer to v than to any
      other nonnegative double. */
  lemma NearerThanOther(x: real, v: Double, u: Double)
    requires v.Finite() && u.Finite() && v.Decode().f > 0
    requires v.Lower() < x < v.Upper() && u.Magnitude() != v.Magnitude()
    ensures Abs(x - v.Magnitude()) < Abs(x - u.Magnitude())
  {
    hide Two, Pow2, OnGrid;
    MagnitudeOfGrid(v);
    MagnitudeOfGrid(u);
    Gaps(v, u);
    EndsOfGrid(v);
    GridDistances(v.Grid(), u.Grid(), Pow2(v.Decode().e + 1074), v.Decode().f == HIDDEN_BIT, x);
  }

  lemma EndsOfGrid(v: Double)
    requires v.Finite()
    ensures var unit := OnGrid(Pow2(v.Decode().e + 1074));
            && v.Upper() == v.Magnitude() + unit / 2.0
            && v.Lower() == v.Magnitude() - (if v.Decode().f == HIDDEN_BIT then unit / 4.0 else unit / 2.0)
  {
    hide Two, Pow2;
    var f, e := v.Decode().f, v.Decode().e;
    TwoOfNat(e + 1074);
    TwoAdd(e + 1074, -1074);
    TwoStep(e - 1);
    TwoStep(e - 2);
    EndsAround(f as real, Two(e), Two(e - 1), Two(e - 2));
  }

  lemma EndsAround(f: real, one: real, half: real, quarter: real)
    requires one == 2.0 * half && half == 2.0 * quarter
    ensures (2.0 * f + 1.0) * half == f * one + one / 2.0
    ensures (2.0 * f - 1.0) * half == f * one - one / 2.0
    ensures (4.0 * f - 1.0) * quarter == f * one - one / 4.0
  {
  }

  /** Both cases of NearerThanOther, over the grid coordinates v and u. */
  lemma GridDistances(v: nat, u: nat, unit: nat, bare: bool, x: real)
    requires u != v
    requires u > v ==> u >= v + unit
    requires u < v ==> 2 * u + (if bare then unit else 2 * unit) <= 2 * v
    requires OnGrid(v) - (if bare then OnGrid(unit) / 4.0 else OnGrid(unit) / 2.0) < x < OnGrid(v) + OnGrid(unit) / 2.0
    ensures Abs(x - OnGrid(v)) < Abs(x - OnGrid(u))
  {
    hide OnGrid;
    OnGridOrder(v + unit, u);
    OnGridSum(v, unit);
    OnGridOrder(u + unit, v);
    OnGridSum(u, unit);
    OnGridOrder(u + u + unit, v + v);
    OnGridSum(u + u, unit);
    OnGridSum(u, u);
    OnGridSum(v, v);
    OnGridOrder(0, unit);
    OnGridSum(0, 0);
  }

  lemma OnGridOrder(a: nat, b: nat)
    ensures a <= b ==> OnGrid(a) <= OnGrid(b)
  {
    hide Two;
    if a <= b {
      assert (b - a) as real * Two(-1074) >= 0.0;
    }
  }

  lemma OnGridSum(a: nat, b: nat)
    ensures OnGrid(a + b) == OnGrid(a) + OnGrid(b)
  {
    hide Two;
  }

  /** The reading-back theorem for a signed number. */
  lemma InsideRoundsTo(x: real, v: Double)
    requires v.Finite() && v.Decode().f > 0
    requires v.Lower() < (if v.negative then -x else x) < v.Upper()
    ensures RoundsTo(x, v)
  {
    hide OverflowBound;
    var y := if v.negative then -x else x;
    var zero := Double(false, 0, 0);
    UpperWithinBound(v);
    ZeroAndPositive(v);
    forall u: Double | u.Finite() && u.Value() != v.Value()
      ensures Abs(x - v.Value()) < Abs(x - u.Value())
    {
      NearerThanOther(y, v, zero);
      NonNegativeMagnitude(u);
      if u.Magnitude() != v.Magnitude() {
        NearerThanOther(y, v, u);
      }
    }
  }

  lemma ZeroAndPositive(v: Double)
    requires v.Finite() && v.Decode().f > 0
    ensures v.Magnitude() > 0.0
    ensures Double(false, 0, 0).Finite() && Double(false, 0, 0).Magnitude() == 0.0
    ensures v.Lower() > 0.0
  {
    hide Two;
    var f, e := v.Decode().f, v.Decode().e;
    assert Double(false, 0, 0).Decode().f == 0;
    PositiveProduct(f as real, Two(e));
    PositiveProduct((2 * f - 1) as real, Two(e - 1));
    PositiveProduct((4 * f - 1) as real, Two(e - 2));
  }

  lemma PositiveProduct(x: real, y: real)
    requires x > 0.0 && y > 0.0
    ensures x * y > 0.0
  {
  }

  lemma NonNegativeMagnitude(v: Double)
    requires v.Finite()
    ensures v.Magnitude() >= 0.0
  {
    hide Two;
    if v.Decode().f > 0 {
      PositiveProduct(v.Decode().f as real, Two(v.Decode().e));
    }
  }
}
