/** What the digits of a double are shortest in: always the scaled interval, and the
    full rounding interval exactly when nothing shorter hides between the two. */
module Shortness {
  import opened Powers
  import opened Decimals
  import opened DiyFloat
  import opened CachedPowers
  import opened DigitGeneration
  import opened Ieee754
  import opened Grisu
  import opened WholeDoubles

  /** Some decimal of fewer than n digits lies strictly inside v's rounding interval. */
  ghost predicate Shortens(n: nat, v: Double)
    requires v.Finite() && n > 0
  {
    exists m: nat, k: int :: m < Pow10(n - 1) && v.Lower() < DecimalValue(m, k) < v.Upper()
  }

  /** Some decimal of fewer than n digits lies between an end of the scaled interval and
      the same end of the rounding interval. */
  ghost predicate Hides(n: nat, v: Double)
    requires v.Finite() && v.Decode().f > 0 && n > 0
  {
    exists m: nat, k: int ::
      && m < Pow10(n - 1)
      && (v.Lower() < DecimalValue(m, k) <= LowEnd(v) || HighEnd(v) < DecimalValue(m, k) < v.Upper())
  }

  lemma ScaledInside(v: Double)
    requires v.Finite() && v.Decode().f > 0
    ensures v.Lower() < LowEnd(v) < HighEnd(v) < v.Upper()
  {
    hide Units, UnitValue, ScaledOf, Double.Upper, Double.Lower;
    EndsBracket(v);
    UnitsOrder(ScaledOf(v).low, ScaledOf(v).high, UnitOf(v));
  }

  lemma UnitsOrder(a: int, b: int, u: real)
    requires a < b && u > 0.0
    ensures Units(a, u) < Units(b, u)
  {
    ScaleOrder(a as real, b as real, u);
  }

  /** The digits delivered are shortest in the full rounding interval if and only if no
      shorter decimal hides between its ends and those of the scaled interval. */
  lemma ShortestUnlessHidden(ds: seq<char>, K: int, v: Double)
    requires v.Finite() && v.Decode().f > 0 && ShortestScaled(ds, K, v)
    ensures ds != [] && (Shortens(|ds|, v) <==> Hides(|ds|, v))
  {
    hide Two, Ten, Pow2, Pow10, UnitValue, Units, DecimalValue, ScaledOf, Double.Upper, Double.Lower, Unit, Scale;
    var s := ScaledOf(v);
    ScaledInside(v);
    forall m: nat, k: int | m < Pow10(|ds| - 1)
      ensures !(LowEnd(v) < DecimalValue(m, k) <= HighEnd(v))
    {
      FewerDigitsOutside(ds, K - s.K, s.e, s.high, s.high - s.low, s.w, s.K, m, k);
    }
  }

  // ---- Numbers with a hidden bit and more.

  /** The boundaries of a normal double that is not a power of two. */
  lemma NormalEnds(d: DiyFp)
    requires HIDDEN_BIT < d.f < 2 * HIDDEN_BIT
    ensures UpperEnd(d) == DiyFp((2 * d.f + 1) * 1024, d.e - 11)
    ensures LowerEnd(d) == DiyFp((2 * d.f - 1) * 1024, d.e - 11)
    ensures d.Normalize() == DiyFp(d.f * 2048, d.e - 11)
  {
    BoundaryShift(d.f, CountLeadingZeros(2 * d.f + 1));
    hide Pow2, CountLeadingZeros;
    Pow2Values();
  }

  /** 235688069849193316352, and what Grisu2 makes of it. */
  const LONG: Double := Double(false, 1090, 2689029457382718)

  lemma LongScaled()
    ensures LONG.Decode() == DiyFp(7192629084753214, 15)
    ensures ScaledOf(LONG) == Scaled(12, 8098180416477191004, 8098180416477191566, 8098180416477192128, -35)
  {
    LongPower();
    LongWords();
    NormalEnds(LONG.Decode());
    hide LowerEnd, UpperEnd, DiyFp.Normalize, DiyFp.Times, CountLeadingZeros, CachedPower, CachedExponent;
  }

  lemma LongPower()
    ensures CachedPower(4) == DiyFp(0x8CBCCC09_6F5088CC, -103) && CachedExponent(4) == 12
  {
    assert CachedIndex(4) == 42;
  }

  lemma LongWords()
    ensures var c := DiyFp(0x8CBCCC09_6F5088CC, -103);
            && DiyFp(14385258169506427 * 1024, 4).Times(c) == DiyFp(8098180416477191003, -35)
            && DiyFp(7192629084753214 * 2048, 4).Times(c) == DiyFp(8098180416477191566, -35)
            && DiyFp(14385258169506429 * 1024, 4).Times(c) == DiyFp(8098180416477192129, -35)
  {
  }

  /** Its interval and the scaled one, and a decimal of sixteen digits between their
      lower ends. */
  lemma LongEnds()
    ensures LONG.Lower() == 235688069849193299968.0 && LONG.Upper() == 235688069849193332736.0
    ensures LONG.Lower() < DecimalValue(2356880698491933, 5) < LONG.Upper()
    ensures DecimalValue(2356880698491933, 5) < LowEnd(LONG)
  {
    hide Two, Ten, Pow2, Pow10, ScaledOf;
    LongScaled();
    Fourteen();
    hide Double.Decode;
    TwoOfNat(35);
    TwoInverse(35);
    TenOfNat(12);
    TenOfNat(5);
    SomeTens();
    LongProduct(Two(35), Two(-35));
  }

  lemma Fourteen()
    ensures Two(14) == 16384.0
  {
    hide Two, Pow2;
    TwoOfNat(14);
    Pow2Values();
    Pow2Add(10, 4);
    assert Pow2(4) == 16 by { FourTwos(); }
  }

  lemma FourTwos()
    ensures Pow2(4) == 16
  {
  }

  lemma SomeTens()
    ensures Pow10(5) == 100000 && Pow10(12) == 1000000000000 && Pow2(35) == 34359738368
  {
    hide Pow10, Pow2;
    Pow10Values();
    Pow10Add(8, 4);
    Pow10Add(4, 1);
    Pow2Values();
    Pow2Add(32, 3);
    Eights();
  }

  lemma Eights()
    ensures Pow2(3) == 8 && Pow10(4) == 10000 && Pow10(1) == 10
  {
  }

  lemma LongProduct(p: real, t: real)
    requires p == 34359738368.0 && p * t == 1.0
    ensures 235688069849193300000.0 < 8098180416477191004.0 * (t * 1000000000000.0)
  {
  }

  /** What is printed for it has seventeen digits, although sixteen would do. */
  lemma LongIsNotShortest(ds: seq<char>, K: int)
    requires ShortestScaled(ds, K, LONG) && ShortDecimal(ds, K, LONG)
    ensures |ds| == 17 && Shortens(17, LONG)
  {
    hide Two, Ten, Pow2, Pow10, ScaledOf, DecimalValue, Double.Upper, Double.Lower, DigitsValue;
    LongEnds();
    Pow10Values();
    assert 2356880698491933 < Pow10(17 - 1) && LONG.Lower() < DecimalValue(2356880698491933, 5) < LONG.Upper();
    if |ds| <= 16 {
      LongPlace(ds, K);
      SameDecimal(DigitsValue(ds), K, 5);
      LongMultiple(DigitsValue(ds) * Pow10(K - 5));
      LongInside(ds, K);
    }
  }

  /** Sixteen digits or fewer of a number of twenty-one leave five places or more. */
  lemma LongPlace(ds: seq<char>, K: int)
    requires ShortDecimal(ds, K, LONG) && |ds| <= 16
    ensures K >= 5
  {
    hide Ten, Pow10, DecimalValue, DigitsValue, Double.Upper, Double.Lower;
    LongEnds();
    DecimalBetween(ds, K);
    if K < 5 {
      TenMonotone(|ds| + K, 20);
      TenOfNat(20);
      TwentyTens();
    }
  }

  lemma TwentyTens()
    ensures Pow10(20) == 100000000000000000000
  {
    hide Pow10;
    Pow10Values();
    Pow10Add(16, 4);
    Eights();
  }

  lemma LongMultiple(m: int)
    requires LONG.Lower() < DecimalValue(m, 5) < LONG.Upper()
    ensures m == 2356880698491933
  {
    hide DecimalValue, Double.Upper, Double.Lower;
    LongEnds();
    FivePlaces(m);
    OnlyMultiple(m, DecimalValue(m, 5));
  }

  lemma FivePlaces(m: int)
    ensures DecimalValue(m, 5) == m as real * 100000.0
  {
    hide Ten, Pow10;
    TenOfNat(5);
    SomeTens();
  }

  lemma OnlyMultiple(m: int, x: real)
    requires x == m as real * 100000.0 && 235688069849193299968.0 < x < 235688069849193332736.0
    ensures m == 2356880698491933
  {
    assert x == (m * 100000) as real;
    assert 235688069849193299968 < m * 100000 < 235688069849193332736;
  }

  /** What is delivered is not below the scaled interval. */
  lemma LongInside(ds: seq<char>, K: int)
    requires ShortestScaled(ds, K, LONG)
    ensures LowEnd(LONG) <= DecimalValue(DigitsValue(ds), K)
  {
    hide Two, Ten, Pow2, Pow10, UnitValue, Units, DecimalValue, ScaledOf, Unit, Scale, DigitsValue;
    var s := ScaledOf(LONG);
    ScaledOrder(DigitsValue(ds), K - s.K, s.e, s.low, s.K);
  }

  // ---- The index into kPow10.

  /** 1 + 2^-52 does not meet the condition for the index to stay in the table. */
  lemma NextToOneOverruns()
    ensures !TableFits(Double(false, 1023, 1))
  {
    hide Pow2, Pow10, ScaledOf;
    NextToOneScaled();
    Pow10Values();
    Pow2Values();
    Pow2Add(32, 8);
    Pow2Add(40, 9);
    Overruns(Pow2(49), Pow10(9));
  }

  lemma Overruns(one: nat, nine: nat)
    requires one == 562949953421312 && nine == 1000000000
    ensures 5629499534213121874 % one == 1874 && 5629499534213121874 * nine % one == 1874000000000
  {
  }

  lemma NextToOneScaled()
    ensures var s := ScaledOf(Double(false, 1023, 1));
            s.K == -4 && s.low == 5629499534213120626 && s.high == 5629499534213121874 && s.e == -49
  {
    NextToOnePower();
    NextToOneWords();
    assert Double(false, 1023, 1).Decode() == DiyFp(4503599627370497, -52);
    NormalEnds(DiyFp(4503599627370497, -52));
    hide LowerEnd, UpperEnd, DiyFp.Normalize, DiyFp.Times, CountLeadingZeros, CachedPower, CachedExponent;
  }

  lemma NextToOnePower()
    ensures CachedPower(-63) == DiyFp(0x9C400000_00000000, -50) && CachedExponent(-63) == -4
  {
    assert CachedIndex(-63) == 44;
  }

  lemma NextToOneWords()
    ensures var c := DiyFp(0x9C400000_00000000, -50);
            && DiyFp(9007199254740993 * 1024, -63).Times(c) == DiyFp(5629499534213120625, -49)
            && DiyFp(4503599627370497 * 2048, -63).Times(c) == DiyFp(5629499534213121250, -49)
            && DiyFp(9007199254740995 * 1024, -63).Times(c) == DiyFp(5629499534213121875, -49)
  {
  }
}
