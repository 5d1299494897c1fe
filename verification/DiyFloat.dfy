/** The "do it yourself" floating-point number of the double printer: a 64-bit
    significand and a binary exponent, standing for f * 2^e. */
module DiyFloat {
  import opened Powers

  const TWO_32: int := 0x1_0000_0000
  const TWO_63: int := 0x8000_0000_0000_0000
  const TWO_64: int := 0x1_0000_0000_0000_0000
  /** kDpHiddenBit: the implicit leading bit of a normal double. */
  const HIDDEN_BIT: int := 0x10_0000_0000_0000

  /** uint64_t and uint32_t. Storing into either is a proof that nothing wraps. */
  type Word = n: int | 0 <= n < TWO_64
  type Word32 = n: int | 0 <= n < TWO_32

  /** __builtin_clzll: how far a nonzero word can be shifted left. */
  function CountLeadingZeros(f: Word): (s: nat)
    requires f > 0
    ensures TWO_63 <= f * Pow2(s) < TWO_64
    decreases TWO_64 - f
  {
    if f >= TWO_63 then 0
    else
      var s := CountLeadingZeros(2 * f);
      assert (2 * f) * Pow2(s) == f * Pow2(s + 1);
      s + 1
  }

  /** Filling in low zero bits does not change the number of leading zeros. */
  lemma {:induction false} LeadingZerosOfPrefix(a: nat, k: nat, f: Word)
    requires 0 < a && k <= 63
    requires a * Pow2(k) <= f < (a + 1) * Pow2(k)
    ensures a * Pow2(k) < TWO_64
    ensures CountLeadingZeros(a * Pow2(k)) == CountLeadingZeros(f)
    decreases TWO_64 - f
  {
    var low := a * Pow2(k);
    Positive(a, Pow2(k));
    if low >= TWO_63 {
    } else {
      PrefixBelow(a, k);
      DoubleShift(a, Pow2(k), Pow2(k + 1));
      DoubleShift(a + 1, Pow2(k), Pow2(k + 1));
      LeadingZerosOfPrefix(a, k + 1, 2 * f);
    }
  }

  /** A multiple of 2^k below 2^63 leaves room for its low bits below 2^63. */
  lemma PrefixBelow(a: nat, k: nat)
    requires 0 < a && k <= 63 && a * Pow2(k) < TWO_63
    ensures k < 63 && (a + 1) * Pow2(k) <= TWO_63
  {
    hide Pow2;
    Pow2Values63();
    if k < 63 {
      Pow2Add(63 - k, k);
      NextMultiple(a, Pow2(63 - k), Pow2(k));
    }
  }

  lemma Positive(a: int, b: int)
    requires a > 0 && b > 0
    ensures a * b > 0
  {
  }

  lemma Pow2Values1()
    ensures Pow2(1) == 2
  {
  }

  lemma Pow2Values63()
    ensures Pow2(63) == TWO_63
  {
    Pow2Values();
    Pow2Add(53, 10);
  }

  lemma NextMultiple(a: nat, b: nat, p: nat)
    requires a * p < b * p
    ensures (a + 1) * p <= b * p
  {
    if b <= a {
      ProductBound(b, a, p, p);
    } else {
      ProductBound(a + 1, b, p, p);
    }
  }

  datatype DiyFp = DiyFp(f: Word, e: int) {

    /** operator-, with the source's two asserts as its precondition. */
    function Minus(rhs: DiyFp): (r: DiyFp)
      requires e == rhs.e && f >= rhs.f
      ensures r.f + rhs.f == f && r.e == e
    {
      DiyFp(f - rhs.f, e)
    }

    /** operator*: the upper word of the 128-bit product, rounded half up on the
        top bit of the lower word. At most half a unit in the last place is lost,
        and the rounding increment never wraps. */
    function Times(rhs: DiyFp): (r: DiyFp)
      ensures r.e == e + rhs.e + 64
      ensures -TWO_63 <= r.f * TWO_64 - f * rhs.f <= TWO_63
      ensures r.f <= f
    {
      UpperWord(f, rhs.f);
      var p := f * rhs.f;
      var h := p / TWO_64;
      var l := p % TWO_64;
      if l >= TWO_63 then DiyFp(h + 1, e + rhs.e + 64) else DiyFp(h, e + rhs.e + 64)
    }

    function Normalize(): (r: DiyFp)
      requires f > 0
      ensures TWO_63 <= r.f
    {
      var s := CountLeadingZeros(f);
      DiyFp(f * Pow2(s), e - s)
    }

    /** The bit-by-bit normalization of a boundary agrees with Normalize. */
    method NormalizeBoundary() returns (res: DiyFp)
      requires 0 < f < 2 * (2 * HIDDEN_BIT)
      ensures res == Normalize()
    {
      hide DiyFp.Normalize;
      res := this;
      while (res.f / (2 * HIDDEN_BIT)) % 2 == 0
        invariant 0 < res.f < 4 * HIDDEN_BIT
        invariant res.Normalize() == Normalize()
        decreases 4 * HIDDEN_BIT - res.f
      {
        NormalizeShifted(res);
        TopBitClear(res.f);
        res := DiyFp(res.f * 2, res.e - 1);
      }
      NormalizeShifted(res);
      TopBitSet(res.f);
      res := DiyFp(res.f * 0x400, res.e);
      res := DiyFp(res.f, res.e - 10);
    }

    /** The midpoints to the neighbouring doubles, on a common exponent. The
        results are (2f+1) * 2^(e-1) and (2f-1) * 2^(e-1), or (4f-1) * 2^(e-2)
        when f is the hidden bit alone; no shift drops a bit. */
    method NormalizedBoundaries() returns (minus: DiyFp, plus: DiyFp)
      requires 0 < f < 2 * HIDDEN_BIT
      ensures Boundaries(this, minus, plus)
    {
      hide Pow2, CountLeadingZeros;
      plus := DiyFp(f * 2 + 1, e - 1).NormalizeBoundary();
      ghost var s := CountLeadingZeros(f * 2 + 1);
      BoundaryShift(f, s);
      MinusFits(f, s);
      minus := if f == HIDDEN_BIT then DiyFp(f * 4 - 1, e - 2) else DiyFp(f * 2 - 1, e - 1);
      minus := DiyFp(minus.f * Pow2(minus.e - plus.e), plus.e);
    }
  }

  /** The bit tested by the loop, of a number below 2^54. */
  lemma TopBitClear(f: nat)
    requires 0 < f < 4 * HIDDEN_BIT && (f / (2 * HIDDEN_BIT)) % 2 == 0
    ensures f < 2 * HIDDEN_BIT
  {
  }

  lemma TopBitSet(f: nat)
    requires 0 < f < 4 * HIDDEN_BIT && (f / (2 * HIDDEN_BIT)) % 2 != 0
    ensures TWO_63 <= f * 0x400 < TWO_64
  {
  }

  /** Shifting by one or by ten bits does not change the normalized number. */
  lemma NormalizeShifted(d: DiyFp)
    requires 0 < d.f < 4 * HIDDEN_BIT
    ensures d.f * 2 < TWO_64 && DiyFp(d.f * 2, d.e - 1).Normalize() == d.Normalize()
    ensures d.f * 0x400 < TWO_64 && DiyFp(d.f * 0x400, d.e - 10).Normalize() == d.Normalize()
    ensures TWO_63 <= d.f * 0x400 ==> d.Normalize() == DiyFp(d.f * 0x400, d.e - 10)
  {
    hide Pow2, CountLeadingZeros, DiyFp.Normalize;
    Pow2Values();
    Pow2Values1();
    NormalizeShift(d, 1);
    NormalizeShift(d, 10);
    if TWO_63 <= d.f * 0x400 {
      NormalizedAlready(DiyFp(d.f * 0x400, d.e - 10));
    }
  }

  lemma NormalizedAlready(d: DiyFp)
    requires TWO_63 <= d.f
    ensures d.Normalize() == d
  {
  }

  lemma UpperWord(a: Word, b: Word)
    ensures 0 <= a * b
    ensures a * b / TWO_64 <= a
    ensures (a * b) % TWO_64 >= TWO_63 ==> a * b / TWO_64 < a
  {
    ProductBound(0, a, 0, b);
    ProductBound(a, a, b, TWO_64 - 1);
    UpperWordOf(a, a * b);
  }

  lemma UpperWordOf(a: Word, p: nat)
    requires p <= a * (TWO_64 - 1)
    ensures p / TWO_64 <= a
    ensures p % TWO_64 >= TWO_63 ==> p / TWO_64 < a
  {
  }

  /** Shifting left within the word does not change what Normalize returns. */
  lemma NormalizeShift(d: DiyFp, k: nat)
    requires 0 < d.f && d.f * Pow2(k) < TWO_64
    ensures 0 < d.f * Pow2(k)
    ensures CountLeadingZeros(d.f) == CountLeadingZeros(d.f * Pow2(k)) + k
    ensures DiyFp(d.f * Pow2(k), d.e - k).Normalize() == d.Normalize()
  {
    LeadingZerosAfterShift(d.f, k);
    var s := CountLeadingZeros(d.f * Pow2(k));
    Regroup(d.f, Pow2(k), Pow2(s), Pow2(k + s)) by {
      Pow2Add(k, s);
    }
  }

  lemma {:induction false} LeadingZerosAfterShift(f: Word, k: nat)
    requires 0 < f && f * Pow2(k) < TWO_64
    ensures 0 < f * Pow2(k)
    ensures CountLeadingZeros(f) == CountLeadingZeros(f * Pow2(k)) + k
  {
    Positive(f, Pow2(k));
    if k == 0 {
    } else {
      DoubleShift(f, Pow2(k - 1), Pow2(k));
      Positive(f, Pow2(k - 1));
      LeadingZerosAfterShift(f, k - 1);
    }
  }

  lemma DoubleShift(f: int, p: int, q: int)
    requires q == 2 * p
    ensures f * q == 2 * (f * p)
  {
  }

  lemma Regroup(a: int, b: int, c: int, bc: int)
    requires bc == b * c
    ensures (a * b) * c == a * bc
  {
  }

  /** What NormalizedBoundaries promises, in exact integers: plus and minus are
      the two midpoints shifted left by the same amount. */
  ghost predicate Boundaries(v: DiyFp, minus: DiyFp, plus: DiyFp)
    requires 0 < v.f < 2 * HIDDEN_BIT
  {
    var s := CountLeadingZeros(v.f * 2 + 1);
    && 10 <= s <= 62
    && plus.f == (2 * v.f + 1) * Pow2(s)
    && plus.e == v.e - 1 - s
    && minus.e == plus.e
    && v.Normalize().f == v.f * Pow2(s + 1) && v.Normalize().e == plus.e
    && (if v.f == HIDDEN_BIT
        then s == 10 && minus.f == (4 * v.f - 1) * Pow2(s - 1)
        else minus.f == (2 * v.f - 1) * Pow2(s))
  }

  /** The two boundaries as functions of the number. */
  function UpperEnd(v: DiyFp): (plus: DiyFp)
    requires 0 < v.f < 2 * HIDDEN_BIT
  {
    DiyFp(v.f * 2 + 1, v.e - 1).Normalize()
  }

  function LowerEnd(v: DiyFp): (minus: DiyFp)
    requires 0 < v.f < 2 * HIDDEN_BIT
  {
    var s := CountLeadingZeros(v.f * 2 + 1);
    LowerFits(v.f, s);
    hide Pow2, CountLeadingZeros;
    DiyFp(if v.f == HIDDEN_BIT then (4 * v.f - 1) * Pow2(s - 1) else (2 * v.f - 1) * Pow2(s), v.e - 1 - s)
  }

  lemma LowerFits(f: Word, s: nat)
    requires 0 < f < 2 * HIDDEN_BIT && s == CountLeadingZeros(f * 2 + 1)
    ensures s > 0 && 0 <= (if f == HIDDEN_BIT then (4 * f - 1) * Pow2(s - 1) else (2 * f - 1) * Pow2(s)) < TWO_64
  {
    BoundaryShift(f, s);
    MinusFits(f, s);
    hide Pow2, CountLeadingZeros;
  }

  lemma EndsAreBoundaries(v: DiyFp)
    requires 0 < v.f < 2 * HIDDEN_BIT
    ensures Boundaries(v, LowerEnd(v), UpperEnd(v))
  {
    var s := CountLeadingZeros(v.f * 2 + 1);
    BoundaryShift(v.f, s);
    hide Pow2, CountLeadingZeros;
  }

  lemma BoundariesAreEnds(v: DiyFp, minus: DiyFp, plus: DiyFp)
    requires 0 < v.f < 2 * HIDDEN_BIT && Boundaries(v, minus, plus)
    ensures minus == LowerEnd(v) && plus == UpperEnd(v)
  {
    hide Pow2, CountLeadingZeros;
  }

  lemma BoundaryShift(f: Word, s: nat)
    requires 0 < f < 2 * HIDDEN_BIT && s == CountLeadingZeros(2 * f + 1)
    ensures 10 <= s <= 62
    ensures CountLeadingZeros(f) == s + 1
    ensures f >= HIDDEN_BIT ==> s == 10
  {
    FirstShift(f, s);
    ShiftBounds(2 * f + 1, s);
  }

  /** How far a number between 3 and 2^54 is shifted. */
  lemma ShiftBounds(a: nat, s: nat)
    requires 3 <= a < 4 * HIDDEN_BIT && TWO_63 <= a * Pow2(s) < TWO_64
    ensures 10 <= s <= 62
    ensures a >= 2 * HIDDEN_BIT ==> s == 10
  {
    hide Pow2;
    SomePowers();
    SmallerShift(a, 4 * HIDDEN_BIT - 1, s, 9, TWO_63);
    SmallerShift(3, a, 63, s, TWO_64);
    if a >= 2 * HIDDEN_BIT {
      SmallerShift(2 * HIDDEN_BIT, a, 11, s, TWO_64 - 1);
    }
  }

  lemma SomePowers()
    ensures Pow2(9) == 512 && Pow2(11) == 2048 && Pow2(63) == TWO_63
  {
    Pow2Values63();
    Pow2Values();
  }

  lemma FirstShift(f: Word, s: nat)
    requires 0 < f < 2 * HIDDEN_BIT && s == CountLeadingZeros(2 * f + 1)
    ensures CountLeadingZeros(f) == s + 1
  {
    assert Pow2(1) == 2;
    LeadingZerosOfPrefix(f, 1, 2 * f + 1);
  }

  /** If the smaller number already reaches a limit under a shift of t, the larger
      one stays below that limit only under a smaller shift. */
  lemma SmallerShift(a: nat, b: nat, t: nat, s: nat, limit: nat)
    requires a <= b
    requires a * Pow2(t) >= limit > b * Pow2(s) || (a * Pow2(t) > limit >= b * Pow2(s))
    ensures s < t
  {
    if t <= s {
      Pow2Monotone(t, s);
      ProductBound(a, b, Pow2(t), Pow2(s));
    }
  }

  lemma ProductBound(a: int, b: int, p: int, q: int)
    requires 0 <= a <= b && 0 <= p <= q
    ensures a * p <= b * q
  {
    assert a * p <= b * p by { assert (b - a) * p >= 0; }
    assert b * p <= b * q by { assert b * (q - p) >= 0; }
  }

  /** The lower boundary fits the word after the upper one's shift. */
  lemma MinusFits(f: Word, s: nat)
    requires 0 < f < 2 * HIDDEN_BIT && s == CountLeadingZeros(2 * f + 1)
    ensures 0 <= (2 * f - 1) * Pow2(s) < TWO_64
    ensures 0 <= f * Pow2(s + 1) < TWO_64
    ensures f == HIDDEN_BIT && s == 10 ==> 0 <= (4 * f - 1) * Pow2(9) < TWO_64
  {
    hide CountLeadingZeros, Pow2;
    Pow2Values();
    Pow2Add(1, s);
    Pow2Values1();
    ProductBound(2 * f - 1, 2 * f + 1, Pow2(s), Pow2(s));
    ProductBound(0, 2 * f - 1, 0, Pow2(s));
    ProductBound(2 * f, 2 * f + 1, Pow2(s), Pow2(s));
    ProductBound(0, 2 * f, 0, Pow2(s));
    DoubleShift(f, Pow2(s), Pow2(s + 1));
  }
}
