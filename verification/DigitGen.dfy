/** Digit generation: the shortest decimal in a scaled interval, digit by digit,
    and the nudge of its last digit towards the scaled value. */
module DigitGeneration {
  import opened Powers
  import opened Decimals
  import opened DiyFloat

  /** kPow10: the ten powers of ten that fit a 32-bit word. */
  function KPow10(i: nat): (p: Word32)
    requires i < 10
    ensures p == Pow10(i)
  {
    Pow10Values();
    match i
    case 0 => 1
    case 1 => 10
    case 2 => 100
    case 3 => 1000
    case 4 => 10000
    case 5 => 100000
    case 6 => 1000000
    case 7 => 10000000
    case 8 => 100000000
    case _ => 1000000000
  }

  function CountDecimalDigit32(n: Word32): (count: nat)
    ensures 1 <= count <= 10
    ensures n < Pow10(count)
    ensures n > 0 ==> Pow10(count - 1) <= n
  {
    Pow10Values();
    if n < 10 then 1
    else if n < 100 then 2
    else if n < 1000 then 3
    else if n < 10000 then 4
    else if n < 100000 then 5
    else if n < 1000000 then 6
    else if n < 10000000 then 7
    else if n < 100000000 then 8
    else if n < 1000000000 then 9
    else 10
  }

  /** The power of ten that clears the denominator of 10^kappa. */
  function Scale(kappa: int): (s: nat)
    ensures s > 0
  {
    Pow10(if kappa < 0 then -kappa else 0)
  }

  /** One unit of the digit at position kappa, after multiplying by Scale(kappa). */
  function Unit(kappa: int, one: nat): nat {
    Pow10(if kappa > 0 then kappa else 0) * one
  }

  /** No multiple of 10^kappa lies in the half-open interval (mp - delta, mp]. */
  ghost predicate NoMultiple(kappa: int, one: nat, mp: nat, delta: nat) {
    forall m: int :: m * Unit(kappa, one) <= mp * Scale(kappa) ==>
                       m * Unit(kappa, one) <= (mp - delta) * Scale(kappa)
  }

  /** No multiple of 10^kappa lies at the open end of that interval either. */
  ghost predicate NotAtEnd(kappa: int, one: nat, mp: nat, delta: nat) {
    forall m: int :: m * Unit(kappa, one) != (mp - delta) * Scale(kappa)
  }

  /** value * 10^kappa lies in the closed interval [mp - delta, mp]. */
  ghost predicate Inside(value: int, kappa: int, one: nat, mp: nat, delta: nat) {
    (mp - delta) * Scale(kappa) <= value * Unit(kappa, one) <= mp * Scale(kappa)
  }

  function Distance(x: int, y: int): nat {
    if x < y then y - x else x - y
  }

  /** value * 10^kappa is at least as near to w as any other multiple of 10^kappa
      in the interval. */
  ghost predicate Nearest(value: int, kappa: int, one: nat, mp: nat, delta: nat, w: nat) {
    forall m: int :: Inside(m, kappa, one, mp, delta) ==>
                       Distance(value * Unit(kappa, one), w * Scale(kappa))
                       <= Distance(m * Unit(kappa, one), w * Scale(kappa))
  }

  /** How often the loop of GrisuRound runs. */
  function RoundSteps(delta: nat, rest: nat, tenKappa: nat, wpW: nat): nat
    requires tenKappa > 0
    decreases delta - rest
  {
    if && rest < wpW
       && delta - rest >= tenKappa
       && (rest + tenKappa < wpW || wpW - rest > rest + tenKappa - wpW)
    then 1 + RoundSteps(delta, rest + tenKappa, tenKappa, wpW)
    else 0
  }

  /** GrisuRound stops at the first candidate rest + n * tenKappa <= delta that is
      nearest to wpW: nothing later is nearer, everything earlier is farther. */
  lemma {:induction false} RoundStepsNearest(delta: nat, rest: nat, tenKappa: nat, wpW: nat, m: nat)
    requires tenKappa > 0 && rest <= delta
    ensures rest + RoundSteps(delta, rest, tenKappa, wpW) * tenKappa <= delta
    ensures rest + m * tenKappa <= delta ==>
              Distance(rest + RoundSteps(delta, rest, tenKappa, wpW) * tenKappa, wpW)
              <= Distance(rest + m * tenKappa, wpW)
    ensures m < RoundSteps(delta, rest, tenKappa, wpW) ==>
              Distance(rest + RoundSteps(delta, rest, tenKappa, wpW) * tenKappa, wpW)
              < Distance(rest + m * tenKappa, wpW)
    decreases delta - rest
  {
    var n := RoundSteps(delta, rest, tenKappa, wpW);
    if n == 0 {
      if m > 0 {
        ProductBound(1, m, tenKappa, tenKappa);
      }
    } else {
      var k := if m > 0 then m - 1 else 0;
      RoundStepsNearest(delta, rest + tenKappa, tenKappa, wpW, k);
      OneMore(n - 1, tenKappa);
      OneMore(k, tenKappa);
    }
  }

  lemma OneMore(n: int, t: int)
    ensures (n + 1) * t == n * t + t
  {
  }

  /** Nudges the last digit down, in place, RoundSteps times. The digit before the
      last was not yet inside the interval, so the last digit never runs below
      zero, and stays above zero when that was strict. */
  method GrisuRound(buffer: array<char>, len: nat, delta: Word, rest: Word, tenKappa: Word, wpW: Word)
    requires 0 < len <= buffer.Length && IsDigit(buffer[len - 1])
    requires rest <= delta && tenKappa > 0
    requires delta - rest <= DigitOf(buffer[len - 1]) * tenKappa
    modifies buffer
    ensures RoundSteps(delta, rest, tenKappa, wpW) <= DigitOf(old(buffer[len - 1]))
    ensures buffer[..] == old(buffer[..])[len - 1 :=
      DigitChar(DigitOf(old(buffer[len - 1])) - RoundSteps(delta, rest, tenKappa, wpW))]
  {
    var left: Word := rest;
    ghost var before, digit, n := buffer[..], DigitOf(buffer[len - 1]), 0;
    while left < wpW && delta - left >= tenKappa &&
          (left + tenKappa < wpW || wpW - left > left + tenKappa - wpW)
      invariant left <= delta && 0 <= n <= digit
      invariant buffer[..] == before[len - 1 := DigitChar(digit - n)]
      invariant delta - left <= (digit - n) * tenKappa
      invariant RoundSteps(delta, rest, tenKappa, wpW) == n + RoundSteps(delta, left, tenKappa, wpW)
      decreases delta - left
    {
      OneMore(digit - n - 1, tenKappa);
      assert n < digit;
      assert buffer[..][len - 1] == DigitChar(digit - n);
      buffer[len - 1] := (buffer[len - 1] as int - 1) as char;
      left := left + tenKappa;
      n := n + 1;
      assert buffer[len - 1] == DigitChar(digit - n);
    }
  }

  /** The digits emitted so far and the remainder make up mp exactly, in units
      scaled so that both are integers. */
  ghost predicate Emitted(ds: seq<char>, kappa: int, count: nat, one: nat, mp: nat, rest: nat) {
    && AllDigits(ds)
    && |ds| == count - kappa
    && (ds != [] ==> ds[0] != '0')
    && DigitsValue(ds) * Unit(kappa, one) + rest == mp * Scale(kappa)
    && rest < Unit(kappa, one)
  }

  /** The linked invariant of both loops: the digits so far are not yet inside, and
      while they are integral not even at the end of the interval. */
  ghost predicate Progress(ds: seq<char>, kappa: int, count: nat, one: nat, mp: nat, rest: nat, delta: nat) {
    && Emitted(ds, kappa, count, one, mp, rest)
    && rest >= delta * Scale(kappa)
    && (kappa >= 0 ==> rest > delta)
  }

  /** Digit generation stops at nine decimal places or earlier: the fraction of mp is
      within delta, or the fraction of mp * 10^9 is below delta * 10^9. */
  predicate InTable(one: nat, mp: nat, delta: nat)
    requires one > 0
  {
    mp % one <= delta || mp * Pow10(9) % one < delta * Pow10(9)
  }

  /** The digit string DigitGen delivers, at decimal position kappa. */
  ghost predicate Shortest(ds: seq<char>, kappa: int, one: nat, mp: nat, delta: nat, w: nat) {
    && AllDigits(ds) && 1 <= |ds| <= 17 && ds[0] != '0'
    && Inside(DigitsValue(ds), kappa, one, mp, delta)
    && NoMultiple(kappa + 1, one, mp, delta)
    && (kappa >= -1 ==> NotAtEnd(kappa + 1, one, mp, delta))
    && (kappa >= -9 ==> Nearest(DigitsValue(ds), kappa, one, mp, delta, w))
  }

  lemma UnitsAt(kappa: int, one: nat)
    ensures kappa > 0 ==> Unit(kappa, one) == 10 * Unit(kappa - 1, one) && Scale(kappa) == 1 && Scale(kappa - 1) == 1
    ensures kappa <= 0 ==>
              Unit(kappa, one) == one && Unit(kappa - 1, one) == one && Scale(kappa - 1) == 10 * Scale(kappa)
  {
    if kappa > 0 {
      assert Pow10(kappa) == 10 * Pow10(kappa - 1);
    }
  }

  lemma EmitDigit(ds: seq<char>, kappa: int, count: nat, one: nat, mp: nat, rest: nat, d: nat, rest': nat)
    requires Emitted(ds, kappa, count, one, mp, rest)
    requires d <= 9 && (ds == [] ==> d > 0)
    requires (if kappa > 0 then rest else 10 * rest) == d * Unit(kappa - 1, one) + rest'
    requires rest' < Unit(kappa - 1, one)
    ensures Emitted(ds + [DigitChar(d)], kappa - 1, count, one, mp, rest')
  {
    hide Unit, Scale;
    AppendDigit(ds, DigitChar(d));
    UnitsAt(kappa, one);
    var v, u, u' := DigitsValue(ds), Unit(kappa, one), Unit(kappa - 1, one);
    CombineDigit(v, d, u, u', rest, rest', mp, Scale(kappa), Scale(kappa - 1), kappa > 0);
  }

  lemma CombineDigit(v: int, d: int, u: int, u': int, rest: int, rest': int, mp: int, s: int, s': int, integral: bool)
    requires if integral then u == 10 * u' && s' == s && rest == d * u' + rest'
             else u == u' && s' == 10 * s && 10 * rest == d * u' + rest'
    requires v * u + rest == mp * s
    ensures (10 * v + d) * u' + rest' == mp * s'
  {
    assert (10 * v + d) * u' == 10 * (v * u') + d * u';
    if integral {
      assert v * u == 10 * (v * u');
    } else {
      assert mp * s' == 10 * (mp * s);
    }
  }

  /** Not yet inside means that no multiple of the current unit is inside. */
  lemma ProgressNoMultiple(ds: seq<char>, kappa: int, count: nat, one: nat, mp: nat, rest: nat, delta: nat)
    requires Progress(ds, kappa, count, one, mp, rest, delta)
    ensures NoMultiple(kappa, one, mp, delta)
    ensures kappa >= 0 ==> NotAtEnd(kappa, one, mp, delta)
  {
    hide Unit, Scale;
    var v, u, s := DigitsValue(ds), Unit(kappa, one), Scale(kappa);
    if kappa >= 0 {
      ScaleOfNat(kappa);
      forall m: int
        ensures m * u != (mp - delta) * s
      {
        if m * u == v * u + (rest - delta) {
          AtMostQuotient(m, v, u, rest - delta);
        }
      }
    }
    forall m: int | m * u <= mp * s
      ensures m * u <= (mp - delta) * s
    {
      AtMostQuotient(m, v, u, rest);
      Expand(mp, delta, s);
    }
  }

  lemma AtMostQuotient(m: int, v: int, u: int, rest: int)
    requires 0 <= rest < u && m * u <= v * u + rest
    ensures m <= v && m * u <= v * u
  {
    if m > v {
      Factor(m, v, u);
      ProductBound(1, m - v, u, u);
    } else {
      Factor(v, m, u);
      ProductBound(0, v - m, 0, u);
    }
  }

  lemma Factor(a: int, b: int, u: int)
    ensures (a - b) * u == a * u - b * u
  {
  }

  lemma Expand(a: int, b: int, u: int)
    ensures (a - b) * u == a * u - b * u
  {
  }

  /** After n nudges the digits are still inside, and as near to w as possible. */
  lemma NudgedIsNearest(v: nat, kappa: int, one: nat, mp: nat, delta: nat, rest: nat, w: nat, n: nat)
    requires v * Unit(kappa, one) + rest == mp * Scale(kappa) && rest < Unit(kappa, one)
    requires w <= mp && rest <= delta * Scale(kappa)
    requires n == RoundSteps(delta * Scale(kappa), rest, Unit(kappa, one), (mp - w) * Scale(kappa))
    ensures Nearest(v - n, kappa, one, mp, delta, w)
  {
    hide Unit, Scale, RoundSteps;
    forall m: int | Inside(m, kappa, one, mp, delta)
      ensures Distance((v - n) * Unit(kappa, one), w * Scale(kappa))
              <= Distance(m * Unit(kappa, one), w * Scale(kappa))
    {
      NudgedNearerThan(v, Unit(kappa, one), Scale(kappa), mp, delta, rest, w, n, m);
    }
  }

  lemma NudgedNearerThan(v: nat, u: nat, s: nat, mp: nat, delta: nat, rest: nat, w: nat, n: nat, m: int)
    requires v * u + rest == mp * s && rest < u
    requires w <= mp && rest <= delta * s
    requires n == RoundSteps(delta * s, rest, u, (mp - w) * s)
    requires (mp - delta) * s <= m * u <= mp * s
    ensures Distance((v - n) * u, w * s) <= Distance(m * u, w * s)
  {
    hide RoundSteps;
    AtMostQuotient(m, v, u, rest);
    Expand(mp, delta, s);
    Expand(mp, w, s);
    Factor(v, m, u);
    Factor(v, n, u);
    var steps := v - m;
    RoundStepsNearest(delta * s, rest, u, (mp - w) * s, steps);
    Mirrored(v * u, n * u, m * u, rest, mp * s, w * s, (v - n) * u, steps * u, (mp - w) * s);
  }

  /** Distances from the top are distances from the target. */
  lemma Mirrored(v: int, n: int, m: int, rest: int, mp: int, w: int, nudged: int, other: int, wpW: int)
    requires v + rest == mp && nudged == v - n && other == v - m && wpW == mp - w
    ensures Distance(nudged, w) == Distance(rest + n, wpW)
    ensures Distance(m, w) == Distance(rest + other, wpW)
  {
  }

  lemma NudgedInside(v: nat, kappa: int, one: nat, mp: nat, delta: nat, rest: nat, wpW: nat, n: nat)
    requires v * Unit(kappa, one) + rest == mp * Scale(kappa) && rest < Unit(kappa, one)
    requires rest <= delta * Scale(kappa)
    requires n == RoundSteps(delta * Scale(kappa), rest, Unit(kappa, one), wpW)
    ensures Inside(v - n, kappa, one, mp, delta)
    ensures rest + n * Unit(kappa, one) <= delta * Scale(kappa)
  {
    hide Unit, Scale, RoundSteps;
    var u, s := Unit(kappa, one), Scale(kappa);
    RoundStepsNearest(delta * s, rest, u, wpW, 0);
    Expand(mp, delta, s);
    Factor(v, n, u);
    ProductBound(0, n, 0, u);
  }

  /** Lowering the last digit lowers the value by as much. */
  lemma NudgedValue(ds: seq<char>, n: nat)
    requires AllDigits(ds) && ds != [] && n <= DigitOf(ds[|ds| - 1])
    ensures var lowered := ds[|ds| - 1 := DigitChar(DigitOf(ds[|ds| - 1]) - n)];
            AllDigits(lowered) && DigitsValue(lowered) == DigitsValue(ds) - n
  {
    var last := |ds| - 1;
    var lowered := ds[last := DigitChar(DigitOf(ds[last]) - n)];
    assert lowered[..last] == ds[..last];
  }

  /** Everything about the last step, for whatever multiplier the loop used: the
      nudged digits are the result. */
  lemma Finish(before: seq<char>, kappa: int, count: nat, one: nat, mp: nat, delta: nat, w: nat,
               rest0: nat, d: nat, rest: nat, wpW: nat, n: nat)
    requires Progress(before, kappa + 1, count, one, mp, rest0, delta)
    requires d <= 9 && Emitted(before + [DigitChar(d)], kappa, count, one, mp, rest)
    requires rest <= delta * Scale(kappa) && w <= mp
    requires n == RoundSteps(delta * Scale(kappa), rest, Unit(kappa, one), wpW) && n <= d
    requires n < d || before != []
    requires kappa >= -9 ==> wpW == (mp - w) * Scale(kappa)
    requires |before| <= 16
    ensures Shortest(before + [DigitChar(d - n)], kappa, one, mp, delta, w)
  {
    hide Unit, Scale, RoundSteps, NoMultiple, NotAtEnd, Nearest, Inside, DigitsValue, AllDigits, DigitChar;
    var v := DigitsValue(before + [DigitChar(d)]);
    LoweredLast(before, d, n);
    ProgressNoMultiple(before, kappa + 1, count, one, mp, rest0, delta);
    NudgedInside(v, kappa, one, mp, delta, rest, wpW, n);
    if kappa >= -9 {
      NudgedIsNearest(v, kappa, one, mp, delta, rest, w, n);
    }
  }

  /** The digits with the last one lowered. */
  lemma LoweredLast(before: seq<char>, d: nat, n: nat)
    requires n <= d <= 9 && AllDigits(before + [DigitChar(d)]) && (n < d || before != [])
    requires before != [] ==> before[0] != '0'
    ensures var lowered := before + [DigitChar(d - n)];
            && AllDigits(lowered) && |lowered| == |before| + 1 && lowered[0] != '0'
            && DigitsValue(lowered) == DigitsValue(before + [DigitChar(d)]) - n
  {
    var ds := before + [DigitChar(d)];
    NudgedValue(ds, n);
    assert ds[|ds| - 1 := DigitChar(d - n)] == before + [DigitChar(d - n)];
  }

  /** While the digits are not yet inside, there are at most 16 of them. */
  lemma LengthBound(kappa: int, count: nat, one: nat, mp: nat, rest: nat, delta: nat)
    requires 1 <= count && kappa <= 0
    requires Pow10(count - 1) * one <= mp < Pow10(16) * delta
    requires delta * Scale(kappa) <= rest < one
    ensures count - kappa <= 16
  {
    hide Pow10;
    var s := Pow10(-kappa);
    ProductBound(mp, Pow10(16) * delta - 1, s, s);
    ProductBound(Pow10(count - 1) * one, mp, s, s);
    LengthChain(Pow10(count - 1), one, mp, s, Pow10(16), delta);
    Pow10Add(count - 1, -kappa);
    Pow10Order(count - 1 - kappa, 16);
  }

  lemma LengthChain(p: nat, one: nat, mp: nat, s: nat, big: nat, delta: nat)
    requires s > 0 && p * one <= mp < big * delta && delta * s < one
    ensures p * s < big
  {
    if p * s >= big {
      ProductBound(big, p * s, one, one);
      ProductBound(big * (delta * s), big * one, 1, 1) by {
        ProductBound(big, big, delta * s, one);
      }
      Regrouped(p, s, one, big, delta);
      ProductBound(p * one, mp, s, s);
      ProductBound(mp + 1, big * delta, s, s);
      OneMore(mp, s);
    }
  }

  lemma Regrouped(p: int, s: int, one: int, big: int, delta: int)
    ensures (p * s) * one == (p * one) * s
    ensures big * (delta * s) == (big * delta) * s
  {
  }

  /** The integral part p1 gives up its leading digit. */
  lemma IntegralDigit(kappa: nat, one: nat, p1: nat, p2: nat, p: nat)
    requires kappa > 0 && p == Pow10(kappa - 1) && p1 < Pow10(kappa) && p2 < one
    ensures p1 / p <= 9 && p1 % p < p
    ensures Joined(p1, one, p2) == (p1 / p) * Unit(kappa - 1, one) + Joined(p1 % p, one, p2)
    ensures Joined(p1 % p, one, p2) < Unit(kappa - 1, one)
  {
    hide Pow10;
    var d, r := p1 / p, p1 % p;
    assert p1 == p * d + r;
    Pow10Step(kappa - 1);
    if d >= 10 {
      ProductBound(10, d, p, p);
    }
    SplitDigit(p, d, r, one);
    ProductBound(r + 1, p, one, one);
    OneMore(r, one);
  }

  lemma SplitDigit(p: int, d: int, r: int, one: int)
    ensures (p * d + r) * one == d * (p * one) + r * one
  {
  }

  lemma OneFits(s: nat)
    requires 32 <= s <= 60
    ensures TWO_32 <= Pow2(s) <= 0x1000_0000_0000_0000
  {
    hide Pow2;
    Pow2Values();
    Pow2Monotone(32, s);
    Pow2Monotone(s, 60);
  }

  lemma IntegralPart(mp: Word, one: nat, s: nat)
    requires TWO_32 <= one <= mp
    ensures 1 <= mp / one < TWO_32
  {
    if mp / one >= TWO_32 {
      ProductBound(TWO_32, mp / one, TWO_32, one);
    }
  }

  /** The fixed-point number with integral part p1 and fraction p2. */
  function Joined(p1: nat, one: nat, p2: nat): nat {
    p1 * one + p2
  }

  /** The state of the first loop: p1 and p2 hold the remainder, which is still
      outside, and count digits were counted in p1 at the start. */
  ghost predicate InIntegral(ds: seq<char>, kappa: int, count: nat, one: nat, mp: nat, p1: nat, p2: nat, delta: nat) {
    && 0 <= kappa <= count && 1 <= count
    && p1 < Pow10(kappa) && p2 < one
    && (kappa == count ==> p1 >= Pow10(count - 1))
    && Joined(p1, one, p2) > delta
    && Pow10(count - 1) * one <= mp < Pow10(16) * delta
    && Progress(ds, kappa, count, one, mp, Joined(p1, one, p2), delta)
  }

  /** The state of the second loop: p2 holds the scaled remainder, delta' the
      scaled interval width. */
  ghost predicate InFraction(ds: seq<char>, kappa: int, count: nat, one: nat, mp: nat, p2: nat, delta: nat,
                             delta': nat) {
    && kappa <= 0 && 1 <= count && |ds| == count - kappa
    && Pow10(count - 1) * one <= mp < Pow10(16) * delta
    && delta' == delta * Scale(kappa) && delta' <= p2 < one
    && Progress(ds, kappa, count, one, mp, p2, delta)
  }

  lemma StartDigits(mp: nat, one: nat, p1: nat, p2: nat, count: nat, delta: nat)
    requires one > 0 && p1 == mp / one && p2 == mp % one && delta < mp < Pow10(16) * delta
    requires 1 <= count && Pow10(count - 1) <= p1 < Pow10(count)
    ensures InIntegral([], count, count, one, mp, p1, p2, delta)
  {
    hide Pow10;
    assert mp == one * (mp / one) + mp % one;
    ProductBound(Pow10(count - 1), p1, one, one);
    ProductBound(p1 + 1, Pow10(count), one, one);
    OneMore(p1, one);
    ScaleOfNat(count);
  }

  /** One round of the first loop. */
  lemma IntegralStep(ds: seq<char>, kappa: int, count: nat, one: nat, mp: Word, p1: Word32, p2: nat, delta: nat)
    returns (d: nat, rest: nat)
    requires 0 < kappa <= 10 && InIntegral(ds, kappa, count, one, mp, p1, p2, delta)
    ensures d == p1 / KPow10(kappa - 1) && d <= 9 && (ds == [] ==> d > 0)
    ensures rest == Joined(p1 % KPow10(kappa - 1), one, p2) && rest <= mp
    ensures Unit(kappa - 1, one) == KPow10(kappa - 1) * one && 0 < KPow10(kappa - 1) * one <= mp
    ensures delta - rest < d * Unit(kappa - 1, one)
    ensures rest > delta ==>
              InIntegral(ds + [DigitChar(d)], kappa - 1, count, one, mp, p1 % KPow10(kappa - 1), p2, delta)
    ensures Progress(ds, kappa, count, one, mp, Joined(p1, one, p2), delta)
    ensures Emitted(ds + [DigitChar(d)], kappa - 1, count, one, mp, rest)
  {
    hide Pow10, Scale, Unit, Joined, Emitted;
    var p := KPow10(kappa - 1);
    IntegralDigit(kappa, one, p1, p2, p);
    d, rest := p1 / p, Joined(p1 % p, one, p2);
    LeadingDigit(d, p1 % p, count, kappa, p);
    LengthOf(ds, kappa, count, one, mp, Joined(p1, one, p2));
    EmitDigit(ds, kappa, count, one, mp, Joined(p1, one, p2), d, rest);
    UnitFits(kappa - 1, count, one, mp);
    Positive(p, one);
    Remains(ds, kappa, count, one, mp, Joined(p1, one, p2), d, Unit(kappa - 1, one), rest, delta);
    ScaleOfNat(kappa - 1);
  }

  lemma LengthOf(ds: seq<char>, kappa: int, count: nat, one: nat, mp: nat, rest: nat)
    requires Emitted(ds, kappa, count, one, mp, rest)
    ensures |ds| == count - kappa
  {
  }

  lemma Remains(ds: seq<char>, kappa: nat, count: nat, one: nat, mp: nat, r: nat, d: nat, u: nat, rest: nat, delta: nat)
    requires Emitted(ds, kappa, count, one, mp, r)
    requires r == d * u + rest && r > delta
    ensures rest <= mp && delta - rest < d * u
  {
    hide Pow10, Unit, Scale;
    ScaleOfNat(kappa);
    assert mp * Scale(kappa) == mp;
    ProductBound(0, d, 0, u);
    ProductBound(0, DigitsValue(ds), 0, Unit(kappa, one));
  }

  /** One round of the second loop. */
  lemma FractionStep(ds: seq<char>, kappa: int, count: nat, one: nat, mp: nat, p2: nat, delta: nat, delta': nat)
    returns (d: nat, rest: nat)
    requires InFraction(ds, kappa, count, one, mp, p2, delta, delta')
    ensures 1 <= |ds| <= 16
    ensures d == p2 * 10 / one && d <= 9 && rest == p2 * 10 % one
    ensures delta' * 10 == delta * Scale(kappa - 1) && delta' * 10 - rest <= d * one
    ensures Unit(kappa - 1, one) == one
    ensures rest >= delta' * 10 ==>
              InFraction(ds + [DigitChar(d)], kappa - 1, count, one, mp, rest, delta, delta' * 10)
    ensures Progress(ds, kappa, count, one, mp, p2, delta)
    ensures Emitted(ds + [DigitChar(d)], kappa - 1, count, one, mp, rest)
  {
    hide Pow10, Scale, Unit;
    LengthBound(kappa, count, one, mp, p2, delta);
    d, rest := p2 * 10 / one, p2 * 10 % one;
    UnitsAt(kappa, one);
    DigitOfFraction(p2, one);
    Tenfold(delta, Scale(kappa), Scale(kappa - 1));
    EmitDigit(ds, kappa, count, one, mp, p2, d, rest);
  }

  lemma DigitOfFraction(p2: nat, one: nat)
    requires p2 < one
    ensures p2 * 10 / one <= 9
    ensures p2 * 10 == (p2 * 10 / one) * one + p2 * 10 % one
  {
    var d := p2 * 10 / one;
    assert p2 * 10 == one * d + p2 * 10 % one;
    if d >= 10 {
      ProductBound(10, d, one, one);
    }
  }

  lemma Tenfold(a: int, s: int, t: int)
    requires t == 10 * s
    ensures a * t == 10 * (a * s)
  {
  }

  /** The multiplier is exact for the first nine places: the product fits a word. */
  lemma ScaledTarget(wpW: nat, delta: nat, kappa: int, delta': nat)
    requires -9 <= kappa < 0 && wpW <= delta && delta' == delta * Scale(kappa) && delta' < TWO_64
    ensures (wpW * KPow10(-kappa)) % TWO_64 == wpW * Scale(kappa)
  {
    ProductBound(wpW, delta, Scale(kappa), Scale(kappa));
    ProductBound(0, wpW, 0, Scale(kappa));
  }

  lemma ScaleOfNat(kappa: nat)
    ensures Scale(kappa) == 1
  {
  }

  /** The very first digit is not zero. */
  lemma LeadingDigit(d: nat, r: nat, count: nat, kappa: nat, p: nat)
    requires 0 < kappa <= count && p == Pow10(kappa - 1)
    requires kappa == count ==> d * p + r >= Pow10(count - 1)
    requires r < p
    ensures kappa == count ==> d > 0
  {
  }

  /** 10^kappa units fit the word below the number of digits. */
  lemma UnitFits(kappa: nat, count: nat, one: nat, mp: nat)
    requires kappa < count && Pow10(count - 1) * one <= mp
    ensures Pow10(kappa) * one <= mp
    ensures Unit(kappa, one) == Pow10(kappa) * one
    ensures Scale(kappa) == 1
  {
    Pow10Monotone(kappa, count - 1);
    ProductBound(Pow10(kappa), Pow10(count - 1), one, one);
  }

  /** When the digit before was strictly outside, a nudge leaves something. */
  lemma StrictNudge(delta: nat, rest: nat, unit: nat, wpW: nat, d: nat, n: nat)
    requires unit > 0 && rest <= delta < d * unit + rest
    requires n == RoundSteps(delta, rest, unit, wpW)
    ensures n < d
  {
    RoundStepsNearest(delta, rest, unit, wpW, 0);
    if d <= n {
      ProductBound(d, n, unit, unit);
    }
  }

  lemma FractionWithin(p1: nat, one: nat, p2: nat)
    ensures p2 <= Joined(p1, one, p2)
  {
    ProductBound(0, p1, 0, one);
  }

  /** Leaving the first loop without having stopped enters the second. */
  lemma EnterFraction(ds: seq<char>, count: nat, one: nat, mp: nat, p1: nat, p2: nat, delta: nat)
    requires InIntegral(ds, 0, count, one, mp, p1, p2, delta)
    ensures InFraction(ds, 0, count, one, mp, p2, delta, delta) && p2 > delta
  {
  }

  // ---- When the index into kPow10 stays in the table.

  /** A remainder that a multiple of one leaves is at least the least one. */
  lemma LeastRemainder(q: int, one: nat, r: nat, x: int)
    requires one > 0 && x == q * one + r
    ensures x % one <= r && (r < one ==> x % one == r)
  {
    var k := r / one;
    SplitBy(r, one, k, r % one);
    DistributeOver(q, k, one);
    UniqueRemainder(q + k, one, r % one, x);
    ProductBound(0, k, 0, one);
  }

  lemma SplitBy(r: nat, one: nat, k: nat, rest: nat)
    requires one > 0 && k == r / one && rest == r % one
    ensures r == k * one + rest && rest < one
    ensures r < one ==> rest == r
  {
  }

  lemma DistributeOver(a: int, b: int, one: int)
    ensures (a + b) * one == a * one + b * one
  {
  }

  lemma UniqueRemainder(a: int, one: nat, rest: nat, x: int)
    requires rest < one && x == a * one + rest
    ensures x % one == rest
  {
    var b := x / one;
    assert x == b * one + x % one;
    Factor(a, b, one);
    Factor(b, a, one);
    if a > b {
      ProductBound(1, a - b, one, one);
    } else if b > a {
      ProductBound(1, b - a, one, one);
    }
  }

  /** The emitted digits leave the remainder of mp at their place. */
  lemma RemainderAtPlace(ds: seq<char>, kappa: int, count: nat, one: nat, mp: nat, rest: nat)
    requires kappa <= 0 && one > 0 && Emitted(ds, kappa, count, one, mp, rest)
    ensures mp * Pow10(-kappa) % one == rest
  {
    hide Pow10;
    UnitsAt(kappa, one);
    LeastRemainder(DigitsValue(ds), one, rest, mp * Pow10(-kappa));
  }

  /** What is within the interval at an earlier place is so at the ninth. */
  lemma InsideAtNine(ds: seq<char>, kappa: int, count: nat, one: nat, mp: nat, rest: nat, delta: nat)
    requires -9 <= kappa <= 0 && one > 0 && Emitted(ds, kappa, count, one, mp, rest)
    requires rest < delta * Scale(kappa)
    ensures InTable(one, mp, delta)
  {
    hide Pow10;
    UnitsAt(kappa, one);
    var s, t, v := Pow10(-kappa), Pow10(9 + kappa), DigitsValue(ds);
    Pow10Add(-kappa, 9 + kappa);
    Carried(mp, s, t, v, one, rest);
    LeastRemainder(v * t, one, rest * t, mp * Pow10(9));
    ProductBound(rest + 1, delta * s, t, t);
    Carried(delta, s, t, 0, 0, delta * s);
    OneMore(rest, t);
  }

  /** An equation at one place, at a later one. */
  lemma Carried(m: int, s: int, t: int, v: int, one: int, rest: int)
    requires v * one + rest == m * s
    ensures (v * t) * one + rest * t == m * (s * t)
  {
  }

  /** What is not within the interval at the ninth place. */
  lemma OutsideAtNine(ds: seq<char>, count: nat, one: nat, mp: nat, rest: nat, delta: nat)
    requires one > 0 && Emitted(ds, -9, count, one, mp, rest) && rest >= delta * Scale(-9)
    ensures mp * Pow10(9) % one >= delta * Pow10(9)
  {
    RemainderAtPlace(ds, -9, count, one, mp, rest);
  }

  /** The buffer outside [off, off + len) is as it was. */
  twostate predicate OnlyWrites(buffer: array<char>, off: nat, len: nat)
    reads buffer
  {
    forall i :: 0 <= i < buffer.Length && !(off <= i < off + len) ==> buffer[i] == old(buffer[i])
  }

  /** Writes one more digit, unless it would be a leading zero. */
  method PutDigit(buffer: array<char>, off: nat, len: nat, d: nat) returns (len': nat)
    requires off + len < buffer.Length && d <= 9 && (len == 0 ==> d > 0)
    modifies buffer
    ensures len' == len + 1
    ensures buffer[off..off + len'] == old(buffer[off..off + len]) + [DigitChar(d)]
    ensures OnlyWrites(buffer, off + len, 1)
  {
    len' := len;
    if d != 0 || len != 0 {
      buffer[off + len] := DigitChar(d);
      len' := len + 1;
    }
  }

  /** Both exits of DigitGen: round the digits just written and account for them. */
  method RoundLast(buffer: array<char>, off: nat, len: nat, delta: Word, rest: Word, tenKappa: Word, wpW: Word,
                   ghost before: seq<char>, ghost d: nat, ghost kappa: int, ghost count: nat, ghost one: nat,
                   ghost mp: nat, ghost delta0: nat, ghost w: nat, ghost rest0: nat)
    requires d <= 9 && 0 < len == |before| + 1 <= 17 && off + len <= buffer.Length
    requires buffer[off..off + len] == before + [DigitChar(d)]
    requires Progress(before, kappa + 1, count, one, mp, rest0, delta0)
    requires Emitted(before + [DigitChar(d)], kappa, count, one, mp, rest)
    requires delta == delta0 * Scale(kappa) && tenKappa == Unit(kappa, one) > 0 && w <= mp
    requires rest <= delta && delta - rest <= d * tenKappa
    requires before == [] ==> delta - rest < d * tenKappa
    requires kappa >= -9 ==> wpW == (mp - w) * Scale(kappa)
    modifies buffer
    ensures Shortest(buffer[off..off + len], kappa, one, mp, delta0, w)
    ensures OnlyWrites(buffer, off, len)
  {
    hide Unit, Scale, RoundSteps, Shortest, Emitted, Progress;
    assert buffer[off + len - 1] == (before + [DigitChar(d)])[len - 1];
    GrisuRound(buffer, off + len, delta, rest, tenKappa, wpW);
    ghost var n := RoundSteps(delta, rest, tenKappa, wpW);
    assert buffer[off..off + len] == before + [DigitChar(d - n)];
    if before == [] {
      StrictNudge(delta, rest, tenKappa, wpW, d, n);
    }
    Finish(before, kappa, count, one, mp, delta0, w, rest0, d, rest, wpW, n);
  }

  /** The second loop of DigitGen: the digits after the decimal point. */
  method FractionalDigits(buffer: array<char>, off: nat, len0: nat, K: int, one: Word, fraction: Word, delta: Word,
                          wpW: Word, ghost count: nat, ghost mp: nat, ghost w: nat)
    returns (len: nat, K': int)
    requires len0 == count <= 10 && off + 17 <= buffer.Length
    requires one <= 0x1000_0000_0000_0000 && w <= mp && wpW == mp - w <= delta
    requires InFraction(buffer[off..off + len0], 0, count, one, mp, fraction, delta, delta)
    requires one > 0 && mp % one > delta
    modifies buffer
    ensures len0 <= len <= 17 && 1 <= len + (K' - K) <= 10
    ensures Shortest(buffer[off..off + len], K' - K, one, mp, delta, w)
    ensures K' - K >= -9 <==> InTable(one, mp, delta)
    ensures OnlyWrites(buffer, off, len)
  {
    hide Pow10, Unit, Scale, Shortest, InFraction, Emitted, Progress;
    len := len0;
    FractionBounds(buffer[off..off + len], 0, count, one, mp, fraction, delta, delta);
    var kappa: int := 0;
    var p2: Word, delta': Word := fraction, delta;
    while true
      invariant kappa <= 0 && len == count - kappa <= 17 && 1 <= count <= 10 && delta' <= p2 < one
      invariant InFraction(buffer[off..off + len], kappa, count, one, mp, p2, delta, delta')
      invariant kappa <= -9 ==> !InTable(one, mp, delta)
      invariant OnlyWrites(buffer, off, len)
      decreases one - delta'
    {
      ghost var before, rest0 := buffer[off..off + len], p2;
      ghost var digit, rest := FractionStep(before, kappa, count, one, mp, p2, delta, delta');
      p2 := p2 * 10;
      delta' := delta' * 10;
      var d := p2 / one;
      len := PutDigit(buffer, off, len, d);
      p2 := p2 % one;
      kappa := kappa - 1;
      if p2 < delta' {
        K' := K + kappa;
        if kappa >= -9 {
          InsideAtNine(before + [DigitChar(d)], kappa, count, one, mp, p2, delta);
        }
        var multiplier: Word32 := *;
        if -kappa <= 9 {
          multiplier := KPow10(-kappa);
          ScaledTarget(wpW, delta, kappa, delta');
        }
        RoundLast(buffer, off, len, delta', p2, one, (wpW * multiplier) % TWO_64,
                  before, d, kappa, count, one, mp, delta, w, rest0);
        return;
      }
      if kappa == -9 {
        OutsideAtNine(before + [DigitChar(d)], count, one, mp, p2, delta);
      }
    }
  }

  lemma FractionBounds(ds: seq<char>, kappa: int, count: nat, one: nat, mp: nat, p2: nat, delta: nat, delta': nat)
    requires InFraction(ds, kappa, count, one, mp, p2, delta, delta')
    ensures delta > 0 && delta' > 0
    ensures 1 <= count && delta' <= p2 < one
  {
    if delta == 0 {
      assert Pow10(16) * delta == 0;
    } else {
      Positive(delta, Scale(kappa));
    }
  }

  /** Fills the buffer from off with the shortest digits in [Mp - delta, Mp], and
      advances the decimal exponent. Words never wrap, except for the product with
      a multiplier read past the end of kPow10, which may be any word. */
  method DigitGen(W: DiyFp, Mp: DiyFp, delta: Word, buffer: array<char>, off: nat, K: int)
    returns (len: nat, K': int)
    requires -60 <= Mp.e <= -32 && W.e == Mp.e
    requires 0 < delta < Mp.f && Mp.f - delta <= W.f <= Mp.f
    requires Pow2(-Mp.e) <= Mp.f < Pow10(16) * delta
    requires off + 17 <= buffer.Length
    modifies buffer
    ensures 1 <= len <= 17 && 1 <= len + (K' - K) <= 10
    ensures Shortest(buffer[off..off + len], K' - K, Pow2(-Mp.e), Mp.f, delta, W.f)
    ensures K' - K >= -9 <==> InTable(Pow2(-Mp.e), Mp.f, delta)
    ensures OnlyWrites(buffer, off, len)
  {
    hide Pow2, Pow10, Unit, Scale, Shortest, InIntegral, InFraction, Emitted, Progress, Joined;
    OneFits(-Mp.e);
    var one: Word := Pow2(-Mp.e);
    var wpW := Mp.Minus(W);
    IntegralPart(Mp.f, one, -Mp.e);
    var p1: Word32 := Mp.f / one;
    var p2: Word := Mp.f % one;
    var kappa: int := CountDecimalDigit32(p1);
    ghost var count: nat := kappa;
    len := 0;
    StartDigits(Mp.f, one, p1, p2, count, delta);
    assert buffer[off..off] == [];

    while kappa > 0
      invariant 0 <= kappa <= count <= 10 && len == count - kappa && 1 <= count
      invariant InIntegral(buffer[off..off + len], kappa, count, one, Mp.f, p1, p2, delta)
      invariant OnlyWrites(buffer, off, len)
    {
      ghost var before, rest0 := buffer[off..off + len], Joined(p1, one, p2);
      ghost var digit, rest := IntegralStep(before, kappa, count, one, Mp.f, p1, p2, delta);
      var d := p1 / KPow10(kappa - 1);
      p1 := p1 % KPow10(kappa - 1);
      len := PutDigit(buffer, off, len, d);
      kappa := kappa - 1;
      var tmp: Word := Joined(p1, one, p2);
      if tmp <= delta {
        K' := K + kappa;
        ScaleOfNat(kappa);
        FractionWithin(p1, one, p2);
        RoundLast(buffer, off, len, delta, tmp, KPow10(kappa) * one, wpW.f,
                  before, d, kappa, count, one, Mp.f, delta, W.f, rest0);
        return;
      }
    }

    EnterFraction(buffer[off..off + len], count, one, Mp.f, p1, p2, delta);
    len, K' := FractionalDigits(buffer, off, len, K, one, p2, delta, wpW.f, count, Mp.f, W.f);
  }
}
