/** Grisu2: the scaled rounding interval of a double, and the decimal that
    DigitGen finds in it. */
module Grisu {
  import opened Powers
  import opened Decimals
  import opened DiyFloat
  import opened CachedPowers
  import opened DigitGeneration
  import opened Ieee754

  /** What one unit of a product with a cached power stands for. */
  function UnitValue(e: int, K: int): (u: real)
    ensures u > 0.0
  {
    PositiveProduct(Two(e), Ten(K));
    Two(e) * Ten(K)
  }

  /** f units. */
  function Units(f: int, u: real): real {
    f as real * u
  }

  // ---- Three roundings: the multiplication, the cached power, and nothing else.

  /** A rounded product, one unit less or one unit more, brackets the true value:
      half a unit for the multiplication and less than half for the cached power. */
  lemma ProductBracket(a: DiyFp, c: DiyFp, K: int)
    requires NearScaled(c.f as real, Two(c.e), Ten(-K), 0.5)
    ensures var h := a.Times(c);
            var u := UnitValue(h.e, K);
            Units(h.f - 1, u) < a.f as real * Two(a.e) < Units(h.f + 1, u)
  {
    hide Two, Ten, Units, NearScaled, Rounded, Bracketed, UnitValue, Chained;
    var h := a.Times(c);
    RoundedProduct(a, c);
    RawBracket(a.f, c.f, h.f, Two(c.e), Ten(-K));
    ChainedPowers(a.e, c.e, K);
    Unscale(a.f as real, h.f, Two(a.e), Two(c.e), Two(h.e), Ten(-K), Ten(K), UnitValue(h.e, K));
  }

  /** h is a * c / 2^64, rounded. */
  ghost predicate Rounded(a: int, c: int, h: int) {
    -TWO_63 <= h * TWO_64 - a * c <= TWO_63
  }

  lemma RoundedProduct(a: DiyFp, c: DiyFp)
    ensures Rounded(a.f, c.f, a.Times(c).f)
  {
  }

  /** (h - 1) 2^64 C < a T < (h + 1) 2^64 C. */
  ghost predicate Bracketed(a: real, h: int, C: real, T: real) {
    ((h - 1) as real * C) * 18446744073709551616.0 < a * T < ((h + 1) as real * C) * 18446744073709551616.0
  }

  lemma RawBracket(a: Word, c: Word, h: int, C: real, T: real)
    requires C > 0.0 && NearScaled(c as real, C, T, 0.5) && Rounded(a, c, h)
    ensures Bracketed(a as real, h, C, T)
  {
    hide Near, NearScaled, Rounded;
    CachedError(a as real, c as real, C, T);
    RoundedError(a, c, h, C);
    BracketScaled(a as real, h, C, T, (a as real * c as real) * C);
  }

  /** How the units of the factors make up the unit of the product. */
  ghost predicate Chained(A: real, C: real, H: real, T: real, T': real, u: real) {
    && A > 0.0 && T' > 0.0 && T' * T == 1.0
    && H == (A * C) * 18446744073709551616.0
    && u == H * T'
  }

  lemma ChainedPowers(a: int, c: int, K: int)
    ensures Chained(Two(a), Two(c), Two(a + c + 64), Ten(-K), Ten(K), UnitValue(a + c + 64, K))
  {
    hide Two, Ten;
    TwoAdd(a, c);
    TwoAdd(a + c, 64);
    Pow2Values();
    TwoOfNat(64);
    TenInverse(K);
  }

  /** |a c C - a T| <= a C / 2. */
  lemma CachedError(a: real, c: real, C: real, T: real)
    requires a >= 0.0 && NearScaled(c, C, T, 0.5)
    ensures Near((a * c) * C, a * T, (a * C) / 2.0)
  {
    NonNegative(a, 0.5 * C - (c * C - T));
    NonNegative(a, 0.5 * C + (c * C - T));
    SplitProduct(a, c, C, T);
  }

  lemma SplitProduct(a: real, c: real, C: real, T: real)
    ensures a * (0.5 * C - (c * C - T)) == (a * C) / 2.0 - ((a * c) * C - a * T)
    ensures a * (0.5 * C + (c * C - T)) == (a * C) / 2.0 + ((a * c) * C - a * T)
  {
    assert a * (c * C) == (a * c) * C;
  }

  /** |h 2^64 C - a c C| <= 2^63 C. */
  lemma RoundedError(a: int, c: int, h: int, C: real)
    requires C > 0.0 && Rounded(a, c, h)
    ensures Near((h as real * C) * 18446744073709551616.0, (a as real * c as real) * C, 9223372036854775808.0 * C)
  {
    var p := a as real * c as real;
    assert p == (a * c) as real;
    NonNegative(9223372036854775808.0 - (h as real * 18446744073709551616.0 - p), C);
    NonNegative(9223372036854775808.0 + (h as real * 18446744073709551616.0 - p), C);
    SpreadRounding(h as real, p, C);
  }

  lemma SpreadRounding(h: real, p: real, C: real)
    ensures (9223372036854775808.0 - (h * 18446744073709551616.0 - p)) * C
            == 9223372036854775808.0 * C - ((h * C) * 18446744073709551616.0 - p * C)
    ensures (9223372036854775808.0 + (h * 18446744073709551616.0 - p)) * C
            == 9223372036854775808.0 * C + ((h * C) * 18446744073709551616.0 - p * C)
  {
  }

  lemma BracketScaled(a: real, h: int, C: real, T: real, p: real)
    requires C > 0.0 && 0.0 <= a < 18446744073709551616.0
    requires Near(p, a * T, (a * C) / 2.0)
    requires Near((h as real * C) * 18446744073709551616.0, p, 9223372036854775808.0 * C)
    ensures Bracketed(a, h, C, T)
  {
    PositiveProduct(18446744073709551616.0 - a, C);
    assert (18446744073709551616.0 - a) * C == 18446744073709551616.0 * C - a * C;
    NextUnit(h, C);
    AddErrors(h as real * C, (h - 1) as real * C, (h + 1) as real * C, p, a * T, a * C, C);
  }

  lemma AddErrors(h: real, low: real, high: real, p: real, x: real, a: real, C: real)
    requires low == h - C && high == h + C && a < 18446744073709551616.0 * C
    requires Near(p, x, a / 2.0) && Near(h * 18446744073709551616.0, p, 9223372036854775808.0 * C)
    ensures low * 18446744073709551616.0 < x < high * 18446744073709551616.0
  {
  }

  lemma NextUnit(h: int, u: real)
    ensures (h - 1) as real * u == h as real * u - u
    ensures (h + 1) as real * u == h as real * u + u
  {
  }

  lemma NextUnits(f: int, u: real)
    ensures Units(f - 1, u) == Units(f, u) - u && Units(f + 1, u) == Units(f, u) + u
  {
    NextUnit(f, u);
  }

  lemma Unscale(a: real, h: int, A: real, C: real, H: real, T: real, T': real, u: real)
    requires Chained(A, C, H, T, T', u) && Bracketed(a, h, C, T)
    ensures Units(h - 1, u) < a * A < Units(h + 1, u)
  {
    var k := A * T';
    PositiveProduct(A, T');
    UnscaleSide((h - 1) as real, A, C, H, T', u, k);
    UnscaleSide((h + 1) as real, A, C, H, T', u, k);
    assert (a * T) * k == a * A by {
      assert (a * T) * (A * T') == (a * A) * (T' * T);
    }
    ScaleOrder(((h - 1) as real * C) * 18446744073709551616.0, a * T, k);
    ScaleOrder(a * T, ((h + 1) as real * C) * 18446744073709551616.0, k);
  }

  lemma UnscaleSide(h: real, A: real, C: real, H: real, T': real, u: real, k: real)
    requires H == (A * C) * 18446744073709551616.0 && u == H * T' && k == A * T'
    ensures ((h * C) * 18446744073709551616.0) * k == h * u
  {
    assert u == 18446744073709551616.0 * (A * C * T');
    assert ((h * C) * 18446744073709551616.0) * (A * T') == h * (18446744073709551616.0 * (A * C * T'));
  }

  lemma ScaleOrder(x: real, y: real, k: real)
    requires k > 0.0
    ensures x < y <==> x * k < y * k
    ensures x <= y <==> x * k <= y * k
  {
    if x < y {
      PositiveProduct(y - x, k);
    } else if y < x {
      PositiveProduct(x - y, k);
    }
    assert (y - x) * k == y * k - x * k;
  }

  /** One unit of the product is at most three units of the factor. */
  lemma UnitAtMost(a: DiyFp, c: DiyFp, K: int)
    requires NearScaled(c.f as real, Two(c.e), Ten(-K), 0.5) && TWO_63 <= c.f
    ensures UnitValue(a.e + c.e + 64, K) <= 3.0 * Two(a.e)
  {
    hide Two, Ten, NearScaled, Chained, UnitValue;
    ChainedPowers(a.e, c.e, K);
    SmallUnit(c.f as real, Two(a.e), Two(c.e), Two(a.e + c.e + 64), Ten(-K), Ten(K), UnitValue(a.e + c.e + 64, K));
  }

  lemma SmallUnit(c: real, A: real, C: real, H: real, T: real, T': real, u: real)
    requires C > 0.0 && Chained(A, C, H, T, T', u)
    requires c >= 9223372036854775808.0 && NearScaled(c, C, T, 0.5)
    ensures u <= 3.0 * A
  {
    var w := C * T';
    PositiveProduct(C, T');
    ScaleOrder((c - 0.5) * C, T, T');
    assert (c - 0.5) * C <= T by {
      assert (c - 0.5) * C == c * C - 0.5 * C;
    }
    assert ((c - 0.5) * C) * T' == (c - 0.5) * w;
    AtMostThree(c, w);
    assert u == A * (18446744073709551616.0 * w);
    NonNegative(A, 3.0 - 18446744073709551616.0 * w);
    assert A * (3.0 - 18446744073709551616.0 * w) == 3.0 * A - A * (18446744073709551616.0 * w);
  }

  lemma AtMostThree(c: real, w: real)
    requires c >= 9223372036854775808.0 && w > 0.0 && (c - 0.5) * w <= 1.0
    ensures 18446744073709551616.0 * w <= 3.0
  {
    NonNegative(c - 9223372036854775808.0, w);
    assert (c - 0.5) * w == (c - 9223372036854775808.0) * w + 9223372036854775807.5 * w;
  }

  // ---- From DigitGen's scaled integers to decimals.

  lemma UnitOverScale(kappa: int, one: nat)
    ensures Unit(kappa, one) as real == (Ten(kappa) * one as real) * Scale(kappa) as real
  {
    hide Ten, Pow10;
    if kappa > 0 {
      TenOfNat(kappa);
      Pow10Zero();
    } else {
      TenOfNat(-kappa);
      TenInverse(kappa);
      Pow10Zero();
      assert Ten(kappa) * Pow10(-kappa) as real == 1.0;
      assert (Ten(kappa) * one as real) * Pow10(-kappa) as real == one as real * (Ten(kappa) * Pow10(-kappa) as real);
    }
  }

  lemma Pow10Zero()
    ensures Pow10(0) == 1
  {
  }

  /** What a scaled integer at position kappa is worth. */
  function Worth(kappa: int, e: int, K: int): (k: real)
    ensures k > 0.0
  {
    Quotient(UnitValue(e, K), Scale(kappa) as real);
    UnitValue(e, K) / Scale(kappa) as real
  }

  lemma Quotient(u: real, s: real)
    requires u > 0.0 && s > 0.0
    ensures u / s > 0.0
  {
    var k := u / s;
    assert k * s == u;
  }

  lemma ScaledWorth(m: int, kappa: int, e: int, y: int, K: int)
    requires e <= 0
    ensures (m * Unit(kappa, Pow2(-e))) as real * Worth(kappa, e, K) == DecimalValue(m, K + kappa)
    ensures (y * Scale(kappa)) as real * Worth(kappa, e, K) == Units(y, UnitValue(e, K))
  {
    hide Two, Ten, Pow2, Unit, Scale;
    var one := Pow2(-e);
    UnitOverScale(kappa, one);
    TwoOfNat(-e);
    TwoInverse(e);
    TenAdd(K, kappa);
    var s := Scale(kappa) as real;
    CommonFactor(m as real, y as real, Unit(kappa, one) as real, s, one as real, Two(e), Ten(kappa), Ten(K),
                 Ten(K + kappa), UnitValue(e, K), Worth(kappa, e, K));
    assert (m * Unit(kappa, one)) as real == m as real * Unit(kappa, one) as real;
    assert (y * Scale(kappa)) as real == y as real * s;
  }

  /** Comparing scaled integers is comparing decimals. */
  lemma ScaledOrder(m: int, kappa: int, e: int, y: int, K: int)
    requires e <= 0
    ensures var one := Pow2(-e);
            && (m * Unit(kappa, one) <= y * Scale(kappa) <==> DecimalValue(m, K + kappa) <= Units(y, UnitValue(e, K)))
            && (m * Unit(kappa, one) >= y * Scale(kappa) <==> DecimalValue(m, K + kappa) >= Units(y, UnitValue(e, K)))
  {
    hide Pow2, Unit, Scale, Worth, DecimalValue, Units, UnitValue;
    ScaledWorth(m, kappa, e, y, K);
    var x, z, k := m * Unit(kappa, Pow2(-e)), y * Scale(kappa), Worth(kappa, e, K);
    ScaleOrder(x as real, z as real, k);
    ScaleOrder(z as real, x as real, k);
  }

  lemma CommonFactor(m: real, y: real, unit: real, s: real, one: real, t: real, tk: real, tK: real, tkK: real,
                     u: real, k: real)
    requires s > 0.0 && u > 0.0 && k == u / s
    requires unit == (tk * one) * s && t * one == 1.0 && tkK == tK * tk && u == t * tK
    ensures k > 0.0
    ensures (m * unit) * k == m * tkK
    ensures (y * s) * k == y * u
  {
    assert k * s == u;
    assert k > 0.0;
    assert (y * s) * k == y * (k * s);
    assert (m * ((tk * one) * s)) * k == (m * (tk * one)) * (k * s);
    assert (m * (tk * one)) * (t * tK) == (m * (tK * tk)) * (t * one);
  }

  /** The nearer of two scaled integers is the nearer of the two decimals. */
  lemma ScaledDistance(m: int, n: int, kappa: int, e: int, w: int, K: int)
    requires e <= 0
    requires var unit, s := Unit(kappa, Pow2(-e)), Scale(kappa); Distance(m * unit, w * s) <= Distance(n * unit, w * s)
    ensures var x := Units(w, UnitValue(e, K));
            Abs(DecimalValue(m, K + kappa) - x) <= Abs(DecimalValue(n, K + kappa) - x)
  {
    hide Pow2, Unit, Scale, Worth, DecimalValue, Units, UnitValue;
    ScaledWorth(m, kappa, e, w, K);
    ScaledWorth(n, kappa, e, w, K);
    var unit := Unit(kappa, Pow2(-e));
    hide Distance, Abs;
    CloserScaled(m * unit, n * unit, w * Scale(kappa), Worth(kappa, e, K), DecimalValue(m, K + kappa),
                 DecimalValue(n, K + kappa), Units(w, UnitValue(e, K)));
  }

  lemma CloserScaled(x: int, y: int, w: int, k: real, X: real, Y: real, W: real)
    requires k > 0.0 && Distance(x, w) <= Distance(y, w)
    requires x as real * k == X && y as real * k == Y && w as real * k == W
    ensures Abs(X - W) <= Abs(Y - W)
  {
    ScaledAbs(x as real, y as real, w as real, k);
  }

  lemma ScaledAbs(x: real, y: real, w: real, k: real)
    requires k > 0.0 && Abs(x - w) <= Abs(y - w)
    ensures Abs(x * k - w * k) <= Abs(y * k - w * k)
  {
    ScaleOrder(Abs(x - w), Abs(y - w), k);
    AbsTimes(x, w, k);
    AbsTimes(y, w, k);
  }

  lemma AbsTimes(x: real, w: real, k: real)
    requires k > 0.0
    ensures Abs(x * k - w * k) == Abs(x - w) * k
  {
    assert (x - w) * k == x * k - w * k;
    if x - w < 0.0 {
      NonNegative(w - x, k);
      assert (w - x) * k == w * k - x * k;
    } else {
      NonNegative(x - w, k);
    }
  }

  // ---- The interval Grisu2 hands to DigitGen.

  /** Boundaries of a double, as integers: the upper one near the top of the word,
      the gaps to either side at least 2^10 and 2^9. */
  ghost predicate Spaced(minus: int, w: int, plus: int) {
    && 0 <= minus && TWO_63 <= plus < TWO_64
    && plus - w >= 1024 && w - minus >= 512
    && (plus - minus >= 2048 || (plus == TWO_63 + 1024 && plus - minus == 1536))
  }

  lemma BoundariesSpaced(d: DiyFp, minus: DiyFp, plus: DiyFp)
    requires 0 < d.f < 2 * HIDDEN_BIT && Boundaries(d, minus, plus)
    ensures minus.e == plus.e == d.Normalize().e
    ensures Spaced(minus.f, d.Normalize().f, plus.f)
  {
    hide Pow2, CountLeadingZeros;
    var s := CountLeadingZeros(d.f * 2 + 1);
    var p := Pow2(s);
    Pow2Values();
    Pow2Monotone(10, s);
    DoubleShift(d.f, p, Pow2(s + 1)) by {
      Pow2Step(s);
    }
    OneMore(2 * d.f, p);
    OneMore(2 * d.f - 1, p);
    TwicePower(d.f, p);
  }

  lemma TwicePower(f: int, p: int)
    ensures (2 * f) * p == 2 * (f * p)
  {
  }

  /** All the word arithmetic between the multiplications and DigitGen. */
  lemma IntervalFits(minus: Word, w: Word, plus: Word, c: Word, hMinus: int, hW: int, hPlus: int)
    requires Spaced(minus, w, plus) && TWO_63 <= c
    requires Rounded(minus, c, hMinus) && Rounded(w, c, hW) && Rounded(plus, c, hPlus)
    ensures hMinus + 1 <= hW <= hPlus - 1
    ensures 0 < hPlus - hMinus - 2
    ensures 0x1000_0000_0000_0000 <= hPlus - 1 < 10000000000000000 * (hPlus - hMinus - 2)
    ensures hMinus >= 0
  {
    Expand(plus, w, c);
    Expand(w, minus, c);
    Expand(plus, minus, c);
    ProductBound(1024, plus - w, TWO_63, c);
    ProductBound(512, w - minus, TWO_63, c);
    ProductBound(TWO_63, plus, TWO_63, c);
    ProductBound(0, minus, 0, c);
    if plus - minus >= 2048 {
      ProductBound(2048, plus - minus, c, c);
      ProductBound(plus, TWO_64, c, c);
    }
  }

  /** Exponents of normalized boundaries. */
  lemma BoundaryExponent(v: Double, minus: DiyFp, plus: DiyFp)
    requires v.Finite() && v.Decode().f > 0 && Boundaries(v.Decode(), minus, plus)
    ensures -1137 <= plus.e <= 960
  {
  }

  /** The boundaries are the ends of the interval that rounds to v. */
  lemma BoundaryValues(v: Double, minus: DiyFp, plus: DiyFp)
    requires v.Finite() && v.Decode().f > 0 && Boundaries(v.Decode(), minus, plus)
    ensures plus.f as real * Two(plus.e) == v.Upper()
    ensures minus.f as real * Two(minus.e) == v.Lower()
  {
    UpperBoundary(v, minus, plus);
    LowerBoundary(v, minus, plus);
  }

  lemma UpperBoundary(v: Double, minus: DiyFp, plus: DiyFp)
    requires v.Finite() && v.Decode().f > 0 && Boundaries(v.Decode(), minus, plus)
    ensures plus.f as real * Two(plus.e) == v.Upper()
  {
    hide Two, Pow2, CountLeadingZeros;
    var d := v.Decode();
    ShiftedValue(2 * d.f + 1, CountLeadingZeros(d.f * 2 + 1), d.e - 1);
  }

  lemma LowerBoundary(v: Double, minus: DiyFp, plus: DiyFp)
    requires v.Finite() && v.Decode().f > 0 && Boundaries(v.Decode(), minus, plus)
    ensures minus.f as real * Two(minus.e) == v.Lower()
  {
    hide Two, Pow2, CountLeadingZeros;
    var d := v.Decode();
    var s := CountLeadingZeros(d.f * 2 + 1);
    ShiftedValue(2 * d.f - 1, s, d.e - 1);
    ShiftedValue(4 * d.f - 1, s - 1, d.e - 2);
  }

  lemma ShiftedValue(f: int, s: nat, e: int)
    ensures (f * Pow2(s)) as real * Two(e - s) == f as real * Two(e)
  {
    hide Two, Pow2;
    TwoOfNat(s);
    TwoAdd(s, e - s);
    Reassociate(f, Pow2(s), Two(s), Two(e - s), Two(e));
  }

  // ---- The result.

  /** ds * 10^K lies strictly inside v's rounding interval, and no decimal with
      fewer digits lies in that interval shrunk at each end by 1/256 of its width. */
  ghost predicate ShortDecimal(ds: seq<char>, K: int, v: Double)
    requires v.Finite()
  {
    && AllDigits(ds) && 1 <= |ds| <= 17 && ds[0] != '0'
    && v.Lower() < DecimalValue(DigitsValue(ds), K) < v.Upper()
    && forall m: nat, k: int :: m < Pow10(|ds| - 1) ==> !WellInside(DecimalValue(m, k), v)
  }

  ghost predicate WellInside(x: real, v: Double)
    requires v.Finite()
  {
    var margin := (v.Upper() - v.Lower()) / 256.0;
    v.Lower() + margin <= x <= v.Upper() - margin
  }

  /** The scaled interval lies inside the true one, by less than two units. */
  lemma IntervalBrackets(v: Double, minus: DiyFp, plus: DiyFp, c: DiyFp, K: int)
    requires v.Finite() && v.Decode().f > 0 && Boundaries(v.Decode(), minus, plus)
    requires IsCachedPower(plus.e, c, K)
    ensures var u := UnitValue(plus.e + c.e + 64, K);
            && v.Lower() < Units(minus.Times(c).f + 1, u)
            && Units(plus.Times(c).f - 1, u) < v.Upper()
            && Units(minus.Times(c).f + 1, u) < v.Lower() + (v.Upper() - v.Lower()) / 256.0
            && v.Upper() - (v.Upper() - v.Lower()) / 256.0 < Units(plus.Times(c).f - 1, u)
  {
    hide Two, Ten, UnitValue, Units, NearScaled, Boundaries, Double.Upper, Double.Lower;
    var u := UnitValue(plus.e + c.e + 64, K);
    BoundaryValues(v, minus, plus);
    ProductBracket(minus, c, K);
    ProductBracket(plus, c, K);
    UnitAtMost(plus, c, K);
    BoundariesSpaced(v.Decode(), minus, plus);
    Margin(minus.Times(c).f, plus.Times(c).f, u, minus.f, plus.f, Two(plus.e), v.Lower(), v.Upper());
  }

  lemma Margin(hMinus: int, hPlus: int, u: real, minus: int, plus: int, A: real, lower: real, upper: real)
    requires A > 0.0 && u <= 3.0 * A && plus - minus >= 1536
    requires lower == minus as real * A && upper == plus as real * A
    requires Units(hMinus - 1, u) < lower && upper < Units(hPlus + 1, u)
    ensures Units(hMinus + 1, u) < lower + (upper - lower) / 256.0
    ensures upper - (upper - lower) / 256.0 < Units(hPlus - 1, u)
  {
    NextUnit(hMinus, u);
    NextUnit(hPlus, u);
    Widths(minus, plus, u, A);
  }

  /** What DigitGen found among scaled integers, said of decimals. */
  lemma ShortestIsShort(ds: seq<char>, kappa: int, e: int, mp: nat, delta: nat, w: nat, K: int, v: Double, low: int)
    requires v.Finite() && e <= 0 && low == mp - delta && low > 0
    requires Shortest(ds, kappa, Pow2(-e), mp, delta, w)
    requires var u := UnitValue(e, K);
             && v.Lower() < Units(low, u) && Units(mp, u) < v.Upper()
             && Units(low, u) < v.Lower() + (v.Upper() - v.Lower()) / 256.0
             && v.Upper() - (v.Upper() - v.Lower()) / 256.0 < Units(mp, u)
    ensures ShortDecimal(ds, K + kappa, v)
  {
    hide Two, Ten, Pow2, Pow10, Unit, Scale, UnitValue, Units, DecimalValue, WellInside;
    var u, one := UnitValue(e, K), Pow2(-e);
    ScaledOrder(DigitsValue(ds), kappa, e, low, K);
    ScaledOrder(DigitsValue(ds), kappa, e, mp, K);
    forall m: nat, k: int | m < Pow10(|ds| - 1)
      ensures !WellInside(DecimalValue(m, k), v)
    {
      FewerDigitsOutside(ds, kappa, e, mp, delta, w, K, m, k);
      OutsideNotWell(DecimalValue(m, k), v, Units(low, u), Units(mp, u));
    }
  }

  lemma OutsideNotWell(x: real, v: Double, low: real, high: real)
    requires v.Finite()
    requires low < v.Lower() + (v.Upper() - v.Lower()) / 256.0
    requires v.Upper() - (v.Upper() - v.Lower()) / 256.0 < high
    requires !(low < x <= high)
    ensures !WellInside(x, v)
  {
  }

  /** A decimal with fewer digits than ds lies outside the half-open interval:
      either it is a multiple of ten units of ds, or it is below the power of ten
      that ds starts from. */
  lemma FewerDigitsOutside(ds: seq<char>, kappa: int, e: int, mp: nat, delta: nat, w: nat, K: int, m: nat, k: int)
    requires e <= 0 && delta < mp
    requires Shortest(ds, kappa, Pow2(-e), mp, delta, w)
    requires m < Pow10(|ds| - 1)
    ensures !(Units(mp - delta, UnitValue(e, K)) < DecimalValue(m, k) <= Units(mp, UnitValue(e, K)))
  {
    hide Two, Ten, Pow2, Pow10, Unit, Scale, UnitValue, Units, DecimalValue;
    if k > K + kappa {
      var multiple := m * Pow10(k - K - kappa - 1);
      SameDecimal(m, k, K + kappa + 1);
      MultipleOutside(multiple, kappa, e, mp, delta, K);
    } else {
      BelowLeading(ds, m, k, K + kappa);
      ScaledOrder(DigitsValue(ds), kappa, e, mp, K);
      if |ds| >= 2 {
        SameDecimal(1, K + kappa + |ds| - 1, K + kappa + 1);
        MultipleOutside(Pow10(|ds| - 2), kappa, e, mp, delta, K);
      } else {
        Pow10Zero();
        PositiveUnits(mp - delta, UnitValue(e, K));
        ZeroDecimal(k);
      }
    }
  }

  lemma MultipleOutside(m: int, kappa: int, e: int, mp: nat, delta: nat, K: int)
    requires e <= 0 && NoMultiple(kappa + 1, Pow2(-e), mp, delta)
    ensures var x := DecimalValue(m, K + kappa + 1);
            !(Units(mp - delta, UnitValue(e, K)) < x <= Units(mp, UnitValue(e, K)))
  {
    hide Two, Ten, Pow2, Pow10, Unit, Scale, UnitValue, Units, DecimalValue;
    ScaledOrder(m, kappa + 1, e, mp, K);
    ScaledOrder(m, kappa + 1, e, mp - delta, K);
  }

  /** Fewer digits at no higher an exponent stay below the leading digit of ds. */
  lemma BelowLeading(ds: seq<char>, m: nat, k: int, j: int)
    requires AllDigits(ds) && ds != [] && ds[0] != '0'
    requires m < Pow10(|ds| - 1) && k <= j
    ensures DecimalValue(m, k) <= DecimalValue(1, j + |ds| - 1) <= DecimalValue(DigitsValue(ds), j)
  {
    hide Ten, Pow10, DecimalValue;
    DigitsAtLeast(ds);
    SameDecimal(1, j + |ds| - 1, j);
    DecimalOrder(m, Pow10(|ds| - 1), k, j);
    DecimalOrder(Pow10(|ds| - 1), DigitsValue(ds), j, j);
  }

  lemma DecimalOrder(m: nat, n: nat, k: int, j: int)
    requires m <= n && k <= j
    ensures DecimalValue(m, k) <= DecimalValue(n, j)
  {
    hide Ten;
    TenMonotone(k, j);
    NonNegative((n - m) as real, Ten(k));
    NonNegative(n as real, Ten(j) - Ten(k));
    assert (n - m) as real * Ten(k) == n as real * Ten(k) - m as real * Ten(k);
    assert n as real * (Ten(j) - Ten(k)) == n as real * Ten(j) - n as real * Ten(k);
  }

  lemma {:induction false} TenMonotone(k: int, j: int)
    requires k <= j
    ensures Ten(k) <= Ten(j)
    decreases j - k
  {
    if k == j {
    } else {
      TenMonotone(k, j - 1);
      TenStep(j - 1);
    }
  }

  lemma PositiveUnits(f: int, u: real)
    requires f > 0 && u > 0.0
    ensures Units(f, u) > 0.0
  {
    PositiveProduct(f as real, u);
  }

  lemma ZeroDecimal(k: int)
    ensures DecimalValue(0, k) == 0.0
  {
    hide Ten;
  }

  /** What Grisu2 hands to DigitGen for v: the cached power's exponent, the words of the
      tightened interval and of v, and the unit they share. */
  datatype Scaled = Scaled(K: int, low: nat, w: nat, high: nat, e: int)

  function ScaledOf(v: Double): (s: Scaled)
    requires v.Finite() && v.Decode().f > 0
    ensures 0 < s.low <= s.w <= s.high && s.low < s.high && -60 <= s.e <= -34
  {
    ScaledFits(v);
    var d := v.Decode();
    var c, minus, plus := CachedPower(UpperEnd(d).e), LowerEnd(d), UpperEnd(d);
    Scaled(CachedExponent(plus.e), minus.Times(c).f + 1, d.Normalize().Times(c).f, plus.Times(c).f - 1, plus.Times(c).e)
  }

  lemma ScaledFits(v: Double)
    requires v.Finite() && v.Decode().f > 0
    ensures var d := v.Decode();
            var minus, plus := LowerEnd(d), UpperEnd(d);
            && Boundaries(d, minus, plus) && -1137 <= plus.e <= 960
            && var c := CachedPower(plus.e);
               && -60 <= plus.Times(c).e <= -34
               && minus.Times(c).f + 1 <= d.Normalize().Times(c).f <= plus.Times(c).f - 1
               && minus.Times(c).f + 1 < plus.Times(c).f - 1
  {
    hide Two, Ten, NearScaled, CachedPower, CachedExponent, CountLeadingZeros, Pow2;
    var d := v.Decode();
    EndsAreBoundaries(d);
    var minus, plus := LowerEnd(d), UpperEnd(d);
    BoundaryExponent(v, minus, plus);
    BoundariesSpaced(d, minus, plus);
    CachedPowerFits(plus.e);
    var c := CachedPower(plus.e);
    IntervalFits(minus.f, d.Normalize().f, plus.f, c.f, minus.Times(c).f, d.Normalize().Times(c).f, plus.Times(c).f);
  }

  /** kPow10 is indexed within its ten entries for v. */
  predicate TableFits(v: Double)
    requires v.Finite() && v.Decode().f > 0
  {
    var s := ScaledOf(v);
    InTable(Pow2(-s.e), s.high, s.high - s.low)
  }

  /** ds at exponent K is what DigitGen delivers for v: the shortest in the scaled
      interval, and nearest to the scaled v of its length while at most nine digits are
      fractional. */
  ghost predicate ShortestScaled(ds: seq<char>, K: int, v: Double)
    requires v.Finite() && v.Decode().f > 0
  {
    var s := ScaledOf(v);
    Shortest(ds, K - s.K, Pow2(-s.e), s.high, s.high - s.low, s.w)
  }

  /** What one unit of the scaled words of v stands for. */
  function UnitOf(v: Double): real
    requires v.Finite() && v.Decode().f > 0
  {
    UnitValue(ScaledOf(v).e, ScaledOf(v).K)
  }

  /** The ends of the scaled interval as numbers. */
  function LowEnd(v: Double): real
    requires v.Finite() && v.Decode().f > 0
  {
    Units(ScaledOf(v).low, UnitOf(v))
  }

  function HighEnd(v: Double): real
    requires v.Finite() && v.Decode().f > 0
  {
    Units(ScaledOf(v).high, UnitOf(v))
  }

  lemma NormalizedValue(v: Double)
    requires v.Finite() && v.Decode().f > 0 && Boundaries(v.Decode(), LowerEnd(v.Decode()), UpperEnd(v.Decode()))
    ensures v.Decode().Normalize().f as real * Two(v.Decode().Normalize().e) == v.Magnitude()
  {
    hide Two, Pow2, CountLeadingZeros, LowerEnd, UpperEnd, DiyFp.Normalize, Boundaries;
    var d := v.Decode();
    NormalizedParts(d, LowerEnd(d), UpperEnd(d));
    ShiftedValue(d.f, CountLeadingZeros(d.f * 2 + 1) + 1, d.e);
  }

  lemma NormalizedParts(d: DiyFp, minus: DiyFp, plus: DiyFp)
    requires 0 < d.f < 2 * HIDDEN_BIT && Boundaries(d, minus, plus)
    ensures var s := CountLeadingZeros(d.f * 2 + 1) + 1;
            d.Normalize().f == d.f * Pow2(s) && d.Normalize().e == d.e - s
  {
    hide Pow2, CountLeadingZeros, DiyFp.Normalize;
  }

  /** The factors of the scaled word. */
  lemma TargetFactors(v: Double) returns (w: DiyFp, c: DiyFp)
    requires v.Finite() && v.Decode().f > 0
    ensures w.f as real * Two(w.e) == v.Magnitude()
    ensures NearScaled(c.f as real, Two(c.e), Ten(-ScaledOf(v).K), 0.5)
    ensures w.Times(c).f == ScaledOf(v).w && w.Times(c).e == ScaledOf(v).e
  {
    hide Two, Ten, NearScaled, CachedPower, CachedExponent, Double.Magnitude, DiyFp.Normalize, LowerEnd, UpperEnd,
      Boundaries;
    ScaledFits(v);
    NormalizedValue(v);
    var d, plus := v.Decode(), UpperEnd(v.Decode());
    BoundariesSpaced(d, LowerEnd(d), plus);
    CachedPowerFits(plus.e);
    w, c := d.Normalize(), CachedPower(plus.e);
  }

  /** The scaled word of v stands for v, to less than one unit. */
  lemma TargetBracket(v: Double)
    requires v.Finite() && v.Decode().f > 0
    ensures Units(ScaledOf(v).w - 1, UnitOf(v)) < v.Magnitude() < Units(ScaledOf(v).w + 1, UnitOf(v))
  {
    hide Two, Ten, NearScaled, Units, UnitValue, Double.Magnitude, ScaledOf, DiyFp.Times;
    var w, c := TargetFactors(v);
    ProductBracket(w, c, ScaledOf(v).K);
  }

  /** The ends of the scaled interval are inside the rounding interval, by less than two
      units. */
  lemma EndsBracket(v: Double)
    requires v.Finite() && v.Decode().f > 0
    ensures Units(ScaledOf(v).low - 2, UnitOf(v)) < v.Lower() < LowEnd(v)
    ensures HighEnd(v) < v.Upper() < Units(ScaledOf(v).high + 2, UnitOf(v))
  {
    hide Two, Ten, NearScaled, CachedPower, CachedExponent, DiyFp.Normalize, LowerEnd, UpperEnd, Boundaries,
      Double.Upper, Double.Lower, UnitValue, Units;
    ScaledFits(v);
    var d, minus, plus := v.Decode(), LowerEnd(v.Decode()), UpperEnd(v.Decode());
    BoundariesSpaced(d, minus, plus);
    BoundaryValues(v, minus, plus);
    CachedPowerFits(plus.e);
    ProductBracket(minus, CachedPower(plus.e), CachedExponent(plus.e));
    ProductBracket(plus, CachedPower(plus.e), CachedExponent(plus.e));
  }

  /** Two units are at most 1/256 of the rounding interval. */
  lemma UnitIsSmall(v: Double)
    requires v.Finite() && v.Decode().f > 0
    ensures 2.0 * UnitOf(v) <= (v.Upper() - v.Lower()) / 256.0
  {
    hide Two, Ten, NearScaled, CachedPower, CachedExponent, DiyFp.Normalize, LowerEnd, UpperEnd, Boundaries,
      Double.Upper, Double.Lower, UnitValue;
    ScaledFits(v);
    var d, minus, plus := v.Decode(), LowerEnd(v.Decode()), UpperEnd(v.Decode());
    BoundariesSpaced(d, minus, plus);
    BoundaryValues(v, minus, plus);
    CachedPowerFits(plus.e);
    UnitAtMost(plus, CachedPower(plus.e), CachedExponent(plus.e));
    Widths(minus.f, plus.f, UnitOf(v), Two(plus.e));
  }

  lemma Widths(minus: int, plus: int, u: real, A: real)
    requires A > 0.0 && u <= 3.0 * A && plus - minus >= 1536
    ensures 2.0 * u <= (plus as real * A - minus as real * A) / 256.0
  {
    NonNegative((plus - minus - 1536) as real, A);
    assert (plus - minus - 1536) as real * A == plus as real * A - minus as real * A - 1536.0 * A;
  }

  /** No other decimal of that exponent in the scaled interval is nearer to v by more
      than two units. */
  ghost predicate Closest(ds: seq<char>, K: int, v: Double)
    requires v.Finite() && v.Decode().f > 0 && AllDigits(ds)
  {
    forall m: int :: LowEnd(v) <= DecimalValue(m, K) <= HighEnd(v) ==>
                       Abs(DecimalValue(DigitsValue(ds), K) - v.Magnitude())
                       < Abs(DecimalValue(m, K) - v.Magnitude()) + 2.0 * UnitOf(v)
  }

  /** Nearest to the scaled word is close to the double itself. */
  lemma NearestIsClosest(ds: seq<char>, K: int, v: Double)
    requires v.Finite() && v.Decode().f > 0 && ShortestScaled(ds, K, v) && K - ScaledOf(v).K >= -9
    ensures Closest(ds, K, v)
  {
    hide Two, Ten, Pow2, Unit, Scale, UnitValue, Units, DecimalValue, ScaledOf, Double.Magnitude, DigitsValue;
    var s, D := ScaledOf(v), DigitsValue(ds);
    TargetBracket(v);
    NextUnits(s.w, UnitOf(v));
    forall m: int | LowEnd(v) <= DecimalValue(m, K) <= HighEnd(v)
      ensures Abs(DecimalValue(D, K) - v.Magnitude()) < Abs(DecimalValue(m, K) - v.Magnitude()) + 2.0 * UnitOf(v)
    {
      ScaledOrder(m, K - s.K, s.e, s.low, s.K);
      ScaledOrder(m, K - s.K, s.e, s.high, s.K);
      ScaledDistance(D, m, K - s.K, s.e, s.w, s.K);
    }
  }

  lemma CloseIfFits(ds: seq<char>, K: int, v: Double)
    requires v.Finite() && v.Decode().f > 0 && ShortestScaled(ds, K, v)
    requires K - ScaledOf(v).K >= -9 <==> TableFits(v)
    ensures AllDigits(ds) && (TableFits(v) ==> Closest(ds, K, v))
  {
    if TableFits(v) {
      NearestIsClosest(ds, K, v);
    }
  }

  /** Writes the decimal digits of a positive finite double. For every input the
      three multiplications, the tightening by one unit and the digit generation
      stay within their words. */
  method Grisu2(v: Double, buffer: array<char>, off: nat) returns (len: nat, K: int)
    requires v.Finite() && v.Decode().f > 0
    requires off + 17 <= buffer.Length
    modifies buffer
    ensures 1 <= len <= 17 && -340 <= K && -323 <= len + K <= 310
    ensures ShortestScaled(buffer[off..off + len], K, v)
    ensures K - ScaledOf(v).K >= -9 <==> TableFits(v)
    ensures AllDigits(buffer[off..off + len]) && (TableFits(v) ==> Closest(buffer[off..off + len], K, v))
    ensures ShortDecimal(buffer[off..off + len], K, v)
    ensures OnlyWrites(buffer, off, len)
  {
    hide Two, Ten, Pow2, NearScaled, Shortest, ShortDecimal, UnitValue, Units, CachedPower, CachedExponent, LowerEnd,
      UpperEnd, InTable, Closest;
    var d := v.Decode();
    var wM, wP := d.NormalizedBoundaries();
    BoundariesAreEnds(d, wM, wP);
    BoundaryExponent(v, wM, wP);
    BoundariesSpaced(d, wM, wP);
    var cMk, K0 := GetCachedPower(wP.e);
    var W := d.Normalize().Times(cMk);
    var Wp := wP.Times(cMk);
    var Wm := wM.Times(cMk);
    IntervalFits(wM.f, d.Normalize().f, wP.f, cMk.f, Wm.f, W.f, Wp.f);
    IntervalBrackets(v, wM, wP, cMk, K0);
    Wm := DiyFp(Wm.f + 1, Wm.e);
    Wp := DiyFp(Wp.f - 1, Wp.e);
    assert ScaledOf(v) == Scaled(K0, Wm.f, W.f, Wp.f, Wp.e);
    OneFits(-Wp.e);
    Pow10Values();
    len, K := DigitGen(W, Wp, Wp.f - Wm.f, buffer, off, K0);
    ShortestIsShort(buffer[off..off + len], K - K0, Wp.e, Wp.f, Wp.f - Wm.f, W.f, K0, v, Wm.f);
    CloseIfFits(buffer[off..off + len], K, v);
  }

  /** The index into kPow10 does pass its end: for 1 + 2^-52, scaled by 10^4, the
      fractional loop stops at place twelve or later. */
  lemma TableOverrun(ds: seq<char>, K: int)
    requires ShortDecimal(ds, K, Double(false, 1023, 1))
    ensures K - ScaledOf(Double(false, 1023, 1)).K <= -12
  {
    hide Two, Ten, Pow2, CountLeadingZeros, CachedPower;
    var v := Double(false, 1023, 1);
    BoundaryShift(v.Decode().f, CountLeadingZeros(2 * v.Decode().f + 1));
    assert UpperEnd(v.Decode()).e == -63;
    assert CachedExponent(-63) == -4;
    NextToOne();
    if K >= -15 {
      SameDecimal(DigitsValue(ds), K, -15);
      BetweenUnits(DigitsValue(ds) * Pow10(K + 15));
    }
  }

  /** The interval of 1 + 2^-52 lies between one and one and 10^-15. */
  lemma NextToOne()
    ensures var v := Double(false, 1023, 1); 1.0 < v.Lower() && v.Upper() < 1.0 + Ten(-15)
  {
    hide Two, Ten;
    TwoOfNat(53);
    TwoInverse(53);
    TenOfNat(15);
    TenInverse(15);
    Pow2Values();
    Pow10Values();
    Pow10Step(15);
    NextEnds(Two(53), Two(-53), Ten(15), Ten(-15));
  }

  lemma NextEnds(p: real, t: real, q: real, u: real)
    requires p == 9007199254740992.0 && p * t == 1.0 && q == 1000000000000000.0 && q * u == 1.0
    ensures 9007199254740993.0 * t > 1.0 && 9007199254740995.0 * t < 1.0 + u
  {
  }

  lemma BetweenUnits(m: int)
    ensures !(1.0 < DecimalValue(m, -15) < 1.0 + Ten(-15))
  {
    hide Ten;
    TenOfNat(15);
    TenInverse(15);
    Pow10Values();
    Pow10Step(15);
    var u := Ten(-15);
    ScaleOrder(m as real, 1000000000000000.0, u);
    ScaleOrder(1000000000000001.0, m as real, u);
    assert m <= 1000000000000000 || m >= 1000000000000001;
  }
}
