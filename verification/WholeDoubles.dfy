/** Whole doubles, and where the point of a double's decimal falls. */
module WholeDoubles {
  import opened Powers
  import opened Decimals
  import opened DiyFloat
  import opened Ieee754
  import opened Grisu

  const TWO_53: int := 0x20_0000_0000_0000

  predicate Whole(x: real) {
    x == x.Floor as real
  }

  /** No other double lies inside a double's interval. */
  lemma InsideIsSame(v: Double, u: Double)
    requires v.Finite() && u.Finite() && v.Decode().f > 0
    requires v.Lower() < u.Magnitude() < v.Upper()
    ensures u.Magnitude() == v.Magnitude()
  {
    if u.Magnitude() != v.Magnitude() {
      NearerThanOther(u.Magnitude(), v, u);
    }
  }

  /** Every whole number below 2^53 is a double. */
  lemma WholeIsDouble(n: nat) returns (u: Double)
    requires 0 < n < TWO_53
    ensures u.Finite() && u.Magnitude() == n as real
  {
    hide Two, Pow2, CountLeadingZeros;
    var s := TopShift(n);
    u := Double(false, 1075 - s, n * Pow2(s) - HIDDEN_BIT);
    ShiftedValue(n, s, 0);
    TwoZero();
  }

  /** Such a number can be shifted up to the hidden bit. */
  lemma TopShift(n: nat) returns (s: nat)
    requires 0 < n < TWO_53
    ensures s <= 52 && HIDDEN_BIT <= n * Pow2(s) < 2 * HIDDEN_BIT
  {
    var z := CountLeadingZeros(n);
    hide Pow2, CountLeadingZeros;
    SomePowers();
    SmallerShift(n, TWO_53 - 1, z, 10, TWO_63);
    SmallerShift(1, n, 64, z, TWO_64) by {
      Pow2Values();
    }
    s := z - 11;
    Pow2Add(s, 11);
    TimesSome(n, Pow2(s), Pow2(z));
  }

  lemma TimesSome(n: int, p: int, q: int)
    requires q == p * 2048
    ensures n * q == (n * p) * 2048
  {
  }

  lemma PowerIsDouble(n: nat) returns (u: Double)
    requires n <= 16
    ensures u.Finite() && u.Magnitude() == Pow10(n) as real
  {
    hide Two, Pow10;
    Pow10Values();
    if n == 16 {
      u := Double(false, 1076, 5000000000000000 - HIDDEN_BIT);
      TwoZero();
      TwoStep(0);
    } else {
      Pow10Step(15);
      Pow10Monotone(n, 15);
      u := WholeIsDouble(Pow10(n));
    }
  }

  /** A double lies well inside its own interval. */
  lemma SelfWellInside(v: Double)
    requires v.Finite() && v.Decode().f > 0
    ensures v.Lower() < v.Magnitude() < v.Upper() && WellInside(v.Magnitude(), v)
  {
    hide Two;
    var f, e := v.Decode().f, v.Decode().e;
    TwoStep(e - 1);
    TwoStep(e - 2);
    SelfBetween(f as real, Two(e), Two(e - 1), Two(e - 2));
  }

  lemma SelfBetween(f: real, one: real, half: real, quarter: real)
    requires one == 2.0 * half && half == 2.0 * quarter && quarter > 0.0
    ensures (2.0 * f + 1.0) * half == f * one + half
    ensures (2.0 * f - 1.0) * half == f * one - half
    ensures (4.0 * f - 1.0) * quarter == f * one - quarter
  {
  }

  /** A double that is not whole has a binary fraction, so its interval ends below 2^53. */
  lemma FractionIsSmall(v: Double)
    requires v.Finite() && !Whole(v.Magnitude())
    ensures v.Upper() <= TWO_53 as real
  {
    hide Two, Pow2;
    var f, e := v.Decode().f, v.Decode().e;
    if e >= 0 {
      TwoOfNat(e);
      assert v.Magnitude() == (f * Pow2(e)) as real;
    } else {
      TwoMonotone(e - 1, -2);
      TwoZero();
      TwoStep(-1);
      TwoStep(-2);
      ProductOrder((2 * f + 1) as real, (4 * HIDDEN_BIT) as real, Two(e - 1), Two(-2));
    }
  }

  // ---- The decimals of whole numbers and powers of ten.

  lemma DecimalOfWhole(n: nat)
    ensures DecimalValue(n, 0) == n as real
  {
    TenZero();
  }

  lemma DecimalOfPower(n: nat)
    ensures DecimalValue(1, n) == Pow10(n) as real
  {
    TenOfNat(n);
  }

  /** Digits with exponent k lie between the powers of ten around them. */
  lemma DecimalBetween(ds: seq<char>, k: int)
    requires AllDigits(ds) && ds != [] && ds[0] != '0'
    ensures Ten(|ds| + k - 1) <= DecimalValue(DigitsValue(ds), k) < Ten(|ds| + k)
  {
    hide Ten, Pow10, DigitsValue, DecimalValue;
    DigitsBelow(ds);
    DigitsAtLeast(ds);
    DecimalOfTens(|ds|, k);
    DecimalOfTens(|ds| - 1, k);
    DecimalIncreases(DigitsValue(ds), Pow10(|ds|), k);
    if DigitsValue(ds) > Pow10(|ds| - 1) {
      DecimalIncreases(Pow10(|ds| - 1), DigitsValue(ds), k);
    }
  }

  lemma DecimalOfTens(n: nat, k: int)
    ensures DecimalValue(Pow10(n), k) == Ten(n + k)
  {
    hide Ten, Pow10;
    TenOfNat(n);
    TenAdd(n, k);
  }

  lemma DecimalIncreases(m: int, n: int, k: int)
    requires m < n
    ensures DecimalValue(m, k) < DecimalValue(n, k)
  {
    hide Ten;
    ScaleOrder(m as real, n as real, Ten(k));
  }

  // ---- Where the point falls.

  /** The digits of a double that is not whole go beyond the point. */
  lemma NotWholeHasFraction(ds: seq<char>, k: int, v: Double)
    requires v.Finite() && v.Decode().f > 0 && ShortDecimal(ds, k, v) && !Whole(v.Magnitude())
    ensures k < 0
  {
    hide Ten, Pow10, DigitsValue, Double.Upper, Double.Lower, Double.Magnitude;
    if k >= 0 {
      var n := DigitsValue(ds) * Pow10(k);
      SameDecimal(DigitsValue(ds), k, 0);
      DecimalOfWhole(n);
      FractionIsSmall(v);
      ZeroAndPositive(v);
      var u := WholeIsDouble(n);
      InsideIsSame(v, u);
    }
  }

  /** Several digits that go beyond the point belong to a double that is not whole: a
      whole one of as many digits is at least the power of ten above them. */
  lemma FractionIsNotWhole(ds: seq<char>, k: int, v: Double)
    requires v.Finite() && v.Decode().f > 0 && ShortDecimal(ds, k, v) && k < 0 && |ds| > 1
    ensures !Whole(v.Magnitude())
  {
    hide Ten, Pow10, DigitsValue, Double.Upper, Double.Lower, Double.Magnitude, WellInside;
    ZeroAndPositive(v);
    SelfWellInside(v);
    var p := |ds| - 1;
    DecimalBetween(ds, k);
    TenMonotone(|ds| + k, p);
    TenOfNat(p);
    DecimalOfPower(p);
    MoreThanOne(p);
    var u := PowerIsDouble(p);
    if Whole(v.Magnitude()) {
      var n: nat := v.Magnitude().Floor;
      DecimalOfWhole(n);
      assert n >= Pow10(p);
      InsideIsSame(v, u);
    }
  }

  lemma MoreThanOne(n: nat)
    requires n > 0
    ensures Pow10(n) > 1
  {
    Pow10Step(n - 1);
  }

  /** One is a double, so a double and the decimal in its interval are on one side of it. */
  lemma SideOfOne(ds: seq<char>, k: int, v: Double)
    requires v.Finite() && v.Decode().f > 0 && ShortDecimal(ds, k, v) && !Whole(v.Magnitude())
    ensures |ds| + k > 0 <==> v.Magnitude() > 1.0
  {
    hide Ten, Pow10, DigitsValue, Double.Upper, Double.Lower, Double.Magnitude, WellInside;
    SelfWellInside(v);
    DecimalBetween(ds, k);
    TenZero();
    if |ds| + k > 0 {
      TenMonotone(0, |ds| + k - 1);
    } else {
      TenMonotone(|ds| + k, 0);
    }
    var one := WholeIsDouble(1);
    if v.Lower() < one.Magnitude() < v.Upper() {
      InsideIsSame(v, one);
    }
  }

  /** The point falls strictly among the digits printed exactly for the doubles above
      one that are not whole. */
  lemma PointAmongDigits(ds: seq<char>, k: int, v: Double)
    requires v.Finite() && v.Decode().f > 0 && ShortDecimal(ds, k, v)
    ensures 0 < |ds| + k < |ds| <==> (v.Magnitude() > 1.0 && !Whole(v.Magnitude()))
  {
    hide ShortDecimal, Double.Magnitude, Whole;
    if !Whole(v.Magnitude()) {
      NotWholeHasFraction(ds, k, v);
      SideOfOne(ds, k, v);
    } else if 0 < |ds| + k < |ds| {
      FractionIsNotWhole(ds, k, v);
    }
  }

  // ---- Powers of ten.

  /** A normal double's interval reaches less than a twentieth of it to either side. */
  lemma NarrowInterval(v: Double)
    requires v.Finite() && v.Decode().f >= HIDDEN_BIT
    ensures 0.95 * v.Magnitude() < v.Lower() && v.Upper() < 1.05 * v.Magnitude()
  {
    hide Two;
    var f, e := v.Decode().f, v.Decode().e;
    TwoStep(e - 1);
    TwoStep(e - 2);
    SelfBetween(f as real, Two(e), Two(e - 1), Two(e - 2));
    AtLeastTwenty(f as real, Two(e));
  }

  lemma AtLeastTwenty(f: real, t: real)
    requires f > 20.0 && t > 0.0
    ensures f * t > 20.0 * t
  {
    assert (f - 20.0) * t > 0.0;
  }

  /** A power of ten that is a normal double is printed as the digit one. */
  lemma PowerHasOneDigit(ds: seq<char>, k: int, v: Double, n: nat)
    requires v.Finite() && v.Decode().f >= HIDDEN_BIT && v.Magnitude() == Pow10(n) as real
    requires ShortDecimal(ds, k, v)
    ensures ds == ['1'] && k == n
  {
    hide Ten, Pow10, DigitsValue, Double.Upper, Double.Lower, Double.Magnitude, WellInside;
    SelfWellInside(v);
    DecimalOfPower(n);
    if |ds| > 1 {
      MoreThanOne(|ds| - 1);
    }
    NarrowInterval(v);
    TenOfNat(n);
    OneDigit(ds);
    PowerPlace(DigitsValue(ds), k, n);
  }

  lemma PowerPlace(d: nat, k: int, n: int)
    requires d <= 9 && 0.95 * Ten(n) < DecimalValue(d, k) < 1.05 * Ten(n)
    ensures k == n && d == 1
  {
    hide Ten, DecimalValue;
    TenStep(n - 1);
    TenStep(n);
    if k > n {
      TenMonotone(n + 1, k);
    } else if k < n {
      TenMonotone(k, n - 1);
    }
    if d == 0 {
      ZeroDecimal(k);
    } else {
      SmallMultiple(d, k);
      Placed(d, Ten(k), DecimalValue(d, k), Ten(n), k - n);
    }
  }

  lemma SmallMultiple(d: nat, k: int)
    requires 0 < d
    ensures Ten(k) <= DecimalValue(d, k)
    ensures d <= 9 ==> DecimalValue(d, k) <= 9.0 * Ten(k)
    ensures d >= 2 ==> 2.0 * Ten(k) <= DecimalValue(d, k)
    ensures d == 1 ==> DecimalValue(d, k) == Ten(k)
  {
    hide Ten;
    ProductOrder(1.0, d as real, Ten(k), Ten(k));
    if d <= 9 {
      ProductOrder(d as real, 9.0, Ten(k), Ten(k));
    }
    if d >= 2 {
      ProductOrder(2.0, d as real, Ten(k), Ten(k));
    }
  }

  lemma Placed(d: nat, t: real, x: real, p: real, above: int)
    requires p > 0.0 && t <= x && x <= 9.0 * t && (d >= 2 ==> 2.0 * t <= x)
    requires 0.95 * p < x && x < 1.05 * p
    requires above > 0 ==> t >= 10.0 * p
    requires above < 0 ==> 10.0 * t <= p
    requires above == 0 ==> t == p
    ensures above == 0 && d < 2
  {
  }

  lemma OneDigit(ds: seq<char>)
    requires |ds| == 1 && AllDigits(ds)
    ensures DigitsValue(ds) == DigitOf(ds[0]) <= 9
    ensures DigitsValue(ds) == 1 ==> ds == ['1']
  {
    assert ds[..0] == [];
  }
}
