/** The double printer from end to end: sign, digits, layout, and the text that a
    reader of the buffer sees. */
module Dtoa {
  import opened Options
  import opened Powers
  import opened Decimals
  import opened DiyFloat
  import opened DigitGeneration
  import opened Ieee754
  import opened Grisu
  import opened WholeDoubles
  import opened Layout

  /** GetDigitsLut: the two characters of 00, 01, ..., 99 one after another. */
  function DigitsLut(i: nat): char
    requires i < 200
  {
    if i % 2 == 0 then DigitChar(i / 2 / 10) else DigitChar(i / 2 % 10)
  }

  /** The text t and its NUL stand in the buffer at off, and nothing else moved. */
  twostate predicate WroteText(buffer: array<char>, off: nat, t: seq<char>)
    reads buffer
  {
    && off + |t| < buffer.Length
    && (forall i :: 0 <= i < |t| ==> buffer[off + i] == t[i])
    && buffer[off + |t|] == '\0'
    && OnlyWrites(buffer, off, |t| + 1)
  }

  lemma SmallNatText(n: nat)
    ensures n < 10 ==> NatText(n) == [DigitChar(n)]
    ensures 10 <= n < 100 ==> NatText(n) == [DigitsLut(n * 2), DigitsLut(n * 2 + 1)]
  {
  }

  lemma TwoDigitText(n: nat)
    requires 10 <= n < 100
    ensures NatText(n) == [DigitChar(n / 10), DigitChar(n % 10)]
  {
    assert NatText(n) == NatText(n / 10) + [DigitChar(n % 10)];
  }

  lemma Tens(q: nat, r: nat)
    requires r < 10
    ensures (10 * q + r) / 10 == q && (10 * q + r) % 10 == r
  {
  }

  lemma ThreeDigitText(n: nat)
    requires 100 <= n < 1000
    ensures NatText(n) == [DigitChar(n / 100), DigitsLut(n % 100 * 2), DigitsLut(n % 100 * 2 + 1)]
  {
    var h, r := n / 100, n % 100;
    Tens(10 * h + r / 10, r % 10);
    Tens(h, r / 10);
    assert n == 10 * (10 * h + r / 10) + r % 10;
    TwoDigitText(n / 10);
    TableDigits(r);
    assert NatText(n) == NatText(n / 10) + [DigitChar(n % 10)];
  }

  lemma TableDigits(m: nat)
    requires m < 100
    ensures DigitsLut(m * 2) == DigitChar(m / 10) && DigitsLut(m * 2 + 1) == DigitChar(m % 10)
  {
    assert m * 2 / 2 == m && (m * 2 + 1) / 2 == m;
  }

  method WriteExponent(K: int, buffer: array<char>, pos: nat)
    requires -999 <= K <= 999 && pos + 5 <= buffer.Length
    modifies buffer
    ensures WroteText(buffer, pos, IntText(K))
  {
    hide NatText;
    if K < 0 {
      buffer[pos] := '-';
      WriteMagnitude(-K, buffer, pos + 1);
      ghost var text := IntText(K);
      assert text == ['-'] + NatText(-K);
      forall i | 0 <= i < |text|
        ensures buffer[pos + i] == text[i]
      {
        if i > 0 {
          assert buffer[pos + 1 + (i - 1)] == NatText(-K)[i - 1];
        }
      }
    } else {
      WriteMagnitude(K, buffer, pos);
    }
  }

  /** The part of WriteExponent after the sign. */
  method WriteMagnitude(K: nat, buffer: array<char>, pos: nat)
    requires K <= 999 && pos + 4 <= buffer.Length
    modifies buffer
    ensures WroteText(buffer, pos, NatText(K))
  {
    hide NatText, DigitsLut, DigitChar;
    var p := pos;
    SmallNatText(K);
    if K >= 100 {
      ThreeDigitText(K);
      buffer[p] := DigitChar(K / 100);
      buffer[p + 1] := DigitsLut(K % 100 * 2);
      buffer[p + 2] := DigitsLut(K % 100 * 2 + 1);
      p := p + 3;
    } else if K >= 10 {
      buffer[p] := DigitsLut(K * 2);
      buffer[p + 1] := DigitsLut(K * 2 + 1);
      p := p + 2;
    } else {
      buffer[p] := DigitChar(K);
      p := p + 1;
    }
    buffer[p] := '\0';
  }

  /** memmove: the regions may overlap. */
  method Memmove(buffer: array<char>, dst: nat, src: nat, n: nat)
    requires dst + n <= buffer.Length && src + n <= buffer.Length
    modifies buffer
    ensures forall i :: 0 <= i < buffer.Length ==>
                          buffer[i] == old(if dst <= i < dst + n then buffer[src + (i - dst)] else buffer[i])
  {
    forall i | 0 <= i < n {
      buffer[dst + i] := buffer[src + i];
    }
  }

  /** The zero-filling loops of Prettify. */
  method FillZeros(buffer: array<char>, from: nat, to: nat)
    requires from <= to <= buffer.Length
    modifies buffer
    ensures forall i :: from <= i < to ==> buffer[i] == '0'
    ensures OnlyWrites(buffer, from, to - from)
  {
    for i := from to to
      invariant forall j :: from <= j < i ==> buffer[j] == '0'
      invariant OnlyWrites(buffer, from, i - from)
    {
      buffer[i] := '0';
    }
  }

  /** Turns the digits standing in the buffer into one of the five layouts, in
      place, shifting digits over each other where needed. */
  method Prettify(buffer: array<char>, off: nat, length: nat, k: int)
    requires 1 <= length <= 17 && -999 <= length + k - 1 <= 999
    requires off + 25 <= buffer.Length
    modifies buffer
    ensures WroteText(buffer, off, LayoutText(old(buffer[off..off + length]), k))
  {
    hide IntText;
    var kk := length + k;
    LayoutLength(buffer[off..off + length], k);
    if length <= kk <= 21 {
      PrettifyIntegral(buffer, off, length, kk);
    } else if 0 < kk <= 21 {
      PrettifyMixed(buffer, off, length, kk);
    } else if -6 < kk <= 0 {
      PrettifySmall(buffer, off, length, kk);
    } else if length == 1 {
      PrettifyPower(buffer, off, kk);
    } else {
      PrettifyScientific(buffer, off, length, kk);
    }
  }

  /** 1234e7 -> 12340000000.0 */
  method PrettifyIntegral(buffer: array<char>, off: nat, length: nat, kk: nat)
    requires 1 <= length <= kk && off + kk + 3 <= buffer.Length
    modifies buffer
    ensures WroteText(buffer, off, old(buffer[off..off + length]) + Zeros(kk - length) + ['.', '0'])
  {
    ghost var ds := buffer[off..off + length];
    ghost var text := ds + Zeros(kk - length) + ['.', '0'];
    FillZeros(buffer, off + length, off + kk);
    buffer[off + kk] := '.';
    buffer[off + kk + 1] := '0';
    buffer[off + kk + 2] := '\0';
    forall i | 0 <= i < |text|
      ensures buffer[off + i] == text[i]
    {
      if i < length {
        assert buffer[off + i] == ds[i];
      }
    }
  }

  /** 1234e-2 -> 12.34 */
  method PrettifyMixed(buffer: array<char>, off: nat, length: nat, kk: nat)
    requires 0 < kk < length && off + length + 2 <= buffer.Length
    modifies buffer
    ensures var ds := old(buffer[off..off + length]);
            WroteText(buffer, off, ds[..kk] + ['.'] + ds[kk..])
  {
    ghost var ds := buffer[off..off + length];
    ghost var text := MixedText(ds, kk);
    MixedTextAt(ds, kk);
    hide MixedText;
    assert forall j :: 0 <= j < length ==> buffer[off + j] == ds[j];
    Memmove(buffer, off + kk + 1, off + kk, length - kk);
    assert forall j :: kk <= j < length ==> buffer[off + 1 + j] == ds[j];
    buffer[off + kk] := '.';
    buffer[off + length + 1] := '\0';
    forall i | 0 <= i < |text|
      ensures buffer[off + i] == text[i]
    {
      if i > kk {
        assert buffer[off + 1 + (i - 1)] == ds[i - 1];
      }
    }
  }

  function MixedText(ds: seq<char>, kk: nat): seq<char>
    requires kk <= |ds|
  {
    ds[..kk] + ['.'] + ds[kk..]
  }

  lemma MixedTextAt(ds: seq<char>, kk: nat)
    requires kk <= |ds|
    ensures |MixedText(ds, kk)| == |ds| + 1
    ensures forall i :: 0 <= i < |ds| + 1 ==>
              MixedText(ds, kk)[i] == if i < kk then ds[i] else if i == kk then '.' else ds[i - 1]
  {
  }

  /** 1234e-6 -> 0.001234 */
  method PrettifySmall(buffer: array<char>, off: nat, length: nat, kk: int)
    requires 1 <= length && -6 < kk <= 0 && off + length - kk + 3 <= buffer.Length
    modifies buffer
    ensures WroteText(buffer, off, ['0', '.'] + Zeros(-kk) + old(buffer[off..off + length]))
  {
    hide Zeros;
    var offset := 2 - kk;
    ghost var ds := buffer[off..off + length];
    ghost var text := ['0', '.'] + Zeros(-kk) + ds;
    SmallText(ds, -kk);
    ShiftDigits(buffer, off, length, offset);
    LeadWithZeros(buffer, off, offset);
    forall i | 0 <= i < |text|
      ensures buffer[off + i] == text[i]
    {
      if i >= offset {
        assert buffer[off + offset + (i - offset)] == ds[i - offset];
      }
    }
  }

  /** Shifts the digits up by offset and ends the text behind them. */
  method ShiftDigits(buffer: array<char>, off: nat, length: nat, offset: nat)
    requires off + length + offset < buffer.Length
    modifies buffer
    ensures var ds := old(buffer[off..off + length]); forall j :: 0 <= j < |ds| ==> buffer[off + offset + j] == ds[j]
    ensures buffer[off + offset + length] == '\0'
    ensures OnlyWrites(buffer, off + offset, length + 1)
  {
    Memmove(buffer, off + offset, off, length);
    buffer[off + length + offset] := '\0';
  }

  /** Puts 0. and zeros in front of the shifted digits. */
  method LeadWithZeros(buffer: array<char>, off: nat, offset: nat)
    requires 2 <= offset && off + offset <= buffer.Length
    modifies buffer
    ensures buffer[off] == '0' && buffer[off + 1] == '.'
    ensures forall j :: off + 2 <= j < off + offset ==> buffer[j] == '0'
    ensures OnlyWrites(buffer, off, offset)
  {
    buffer[off] := '0';
    buffer[off + 1] := '.';
    FillZeros(buffer, off + 2, off + offset);
  }

  lemma SmallText(ds: seq<char>, n: nat)
    ensures var text := ['0', '.'] + Zeros(n) + ds;
            && |text| == n + 2 + |ds|
            && forall i :: 0 <= i < |text| ==>
                 text[i] == if i == 1 then '.' else if i < n + 2 then '0' else ds[i - n - 2]
  {
  }

  /** 1e30 */
  method PrettifyPower(buffer: array<char>, off: nat, kk: int)
    requires -998 <= kk <= 1000 && off + 8 <= buffer.Length
    modifies buffer
    ensures WroteText(buffer, off, old(buffer[off..off + 1]) + ['e'] + IntText(kk - 1))
  {
    hide IntText;
    ghost var d, e := buffer[off], IntText(kk - 1);
    buffer[off + 1] := 'e';
    WriteExponent(kk - 1, buffer, off + 2);
    ghost var text := [d] + ['e'] + e;
    forall i | 0 <= i < |text|
      ensures buffer[off + i] == text[i]
    {
      if i >= 2 {
        assert buffer[off + 2 + (i - 2)] == e[i - 2];
      }
    }
    assert old(buffer[off..off + 1]) == [d];
  }

  /** 1234e30 -> 1.234e33 */
  method PrettifyScientific(buffer: array<char>, off: nat, length: nat, kk: int)
    requires 1 < length && -998 <= kk <= 1000 && off + length + 7 <= buffer.Length
    modifies buffer
    ensures var ds := old(buffer[off..off + length]);
            WroteText(buffer, off, ds[..1] + ['.'] + ds[1..] + ['e'] + IntText(kk - 1))
  {
    hide IntText;
    ghost var e := IntText(kk - 1);
    ghost var head := Pointed(buffer[off..off + length]);
    InsertPoint(buffer, off, length);
    hide Pointed;
    WriteExponent(kk - 1, buffer, off + length + 2);
    ghost var text := head + e;
    forall i | 0 <= i < |text|
      ensures buffer[off + i] == text[i]
    {
      if i >= length + 2 {
        assert buffer[off + length + 2 + (i - length - 2)] == e[i - length - 2];
      }
    }
  }

  /** The digits with a point after the first, and the letter of the exponent. */
  function Pointed(ds: seq<char>): (t: seq<char>)
    requires ds != []
    ensures |t| == |ds| + 2
  {
    ds[..1] + ['.'] + ds[1..] + ['e']
  }

  lemma PointedAt(ds: seq<char>)
    requires ds != []
    ensures forall i :: 0 <= i < |ds| + 2 ==>
              Pointed(ds)[i] == if i == 0 then ds[0] else if i == 1 then '.' else if i <= |ds| then ds[i - 1] else 'e'
  {
  }

  /** Shifts the digits after the first to make room for the point. */
  method InsertPoint(buffer: array<char>, off: nat, length: nat)
    requires 1 < length && off + length + 2 <= buffer.Length
    modifies buffer
    ensures var t := Pointed(old(buffer[off..off + length])); forall i :: 0 <= i < |t| ==> buffer[off + i] == t[i]
    ensures OnlyWrites(buffer, off, length + 2)
  {
    hide Pointed;
    ghost var ds := buffer[off..off + length];
    PointedAt(ds);
    assert forall j :: 0 <= j < length ==> buffer[off + j] == ds[j];
    Memmove(buffer, off + 2, off + 1, length - 1);
    assert forall j :: 1 <= j < length ==> buffer[off + 1 + j] == ds[j];
    buffer[off + 1] := '.';
    buffer[off + length + 1] := 'e';
    forall i | 0 <= i < length + 2
      ensures buffer[off + i] == Pointed(ds)[i]
    {
      if 2 <= i <= length {
        assert buffer[off + 1 + (i - 1)] == ds[i - 1];
      }
    }
  }

  /** The text of a double: "0.0", or the sign and the layout of short digits that
      lie strictly inside the number's rounding interval. */
  ghost predicate IsDoubleText(t: seq<char>, v: Double, ds: seq<char>, k: int)
    requires v.Finite()
  {
    if v.Decode().f == 0 then
      ds == ['0', '0'] && t == ['0', '.', '0']
    else
      && ShortDecimal(ds, k, v) && -340 <= k && -323 <= |ds| + k <= 310
      && t == (if v.negative then ['-'] else []) + LayoutText(ds, k)
  }

  /** Whatever finite double was printed, the text reads back as that double. */
  lemma DoubleTextReads(t: seq<char>, v: Double, ds: seq<char>, k: int)
    requires v.Finite() && IsDoubleText(t, v, ds, k)
    ensures ParseDecimal(t).Some? && RoundsTo(ParseDecimal(t).value, v)
    ensures '\0' !in t && |t| + 1 <= 26
  {
    hide ParseDecimal, LayoutText, DecimalValue, DigitsValue, RoundsTo, Two, Ten, Pow10;
    if v.Decode().f == 0 {
      ZeroTextReads(v);
    } else {
      LayoutStart(ds, k);
      LayoutLength(ds, k);
      if v.negative {
        SignReads(ds, k);
      } else {
        LayoutReads(ds, k);
        assert [] + LayoutText(ds, k) == LayoutText(ds, k);
      }
      InsideRoundsTo(ParseDecimal(t).value, v);
    }
  }

  /** The text has an exponent exactly when the printed decimal is at least 10^21 or below
      10^-6, and is otherwise plain. */
  lemma DoubleTextForm(t: seq<char>, v: Double, ds: seq<char>, k: int)
    requires v.Finite() && v.Decode().f > 0 && IsDoubleText(t, v, ds, k)
    ensures AllDigits(ds) && (v.negative ==> t != [])
    ensures var x, s := DecimalValue(DigitsValue(ds), k), if v.negative then t[1..] else t;
            if x >= Ten(21) || x < Ten(-6) then 'e' in t && ExponentForm(s, |ds|, |ds| + k - 1)
            else 'e' !in t && PlainForm(s, if k < 0 then -k else 1)
  {
    ShapeOf(ds, k, v);
    LayoutForm(ds, k);
    LayoutMagnitude(ds, k);
    hide ShortDecimal, LayoutText, ExponentForm, PlainForm, Ten;
    var s := LayoutText(ds, k);
    if v.negative {
      assert t == ['-'] + s && t[1..] == s;
    } else {
      assert t == [] + s == s;
    }
  }

  lemma LayoutMagnitude(ds: seq<char>, k: int)
    requires AllDigits(ds) && ds != [] && ds[0] != '0'
    ensures DecimalValue(DigitsValue(ds), k) >= Ten(21) <==> |ds| + k > 21
    ensures DecimalValue(DigitsValue(ds), k) < Ten(-6) <==> |ds| + k <= -6
  {
    hide Ten, DecimalValue, DigitsValue;
    DecimalBetween(ds, k);
    if |ds| + k > 21 {
      TenMonotone(21, |ds| + k - 1);
    } else {
      TenMonotone(|ds| + k, 21);
    }
    if |ds| + k <= -6 {
      TenMonotone(|ds| + k, -6);
    } else {
      TenMonotone(-6, |ds| + k - 1);
    }
  }

  /** The doubles whose text is as long as the count says: zero, and the numbers above
      one that are not whole. */
  predicate CountFits(v: Double)
    requires v.Finite()
  {
    v.Decode().f == 0 || (!v.negative && v.Magnitude() > 1.0 && v.Magnitude() != v.Magnitude().Floor as real)
  }

  /** The count dtoa_milo returns, one more than the number of digits, never passes
      the end of the text, and is its length exactly for those doubles. */
  lemma CountIsTextLength(t: seq<char>, v: Double, ds: seq<char>, k: int)
    requires v.Finite() && IsDoubleText(t, v, ds, k)
    ensures |ds| + 1 <= |t|
    ensures |t| == |ds| + 1 <==> CountFits(v)
  {
    hide ShortDecimal, Double.Magnitude;
    if v.Decode().f != 0 {
      ShapeOf(ds, k, v);
      CountIsLength(ds, k, v.negative);
      PointAmongDigits(ds, k, v);
    }
  }

  /** For instance 1.0 has one digit, and its text is longer than the count says. */
  lemma CountMissesOne(t: seq<char>, ds: seq<char>, k: int)
    requires var one := Double(false, 1023, 0); IsDoubleText(t, one, ds, k)
    ensures ds == ['1'] && t == ['1', '.', '0'] && |t| != |ds| + 1
  {
    hide Two, ShortDecimal;
    var one := Double(false, 1023, 0);
    ShiftedValue(1, 52, 0);
    Pow2Values();
    TwoZero();
    assert one.Decode() == DiyFp(HIDDEN_BIT, -52);
    Pow10Zero();
    PowerHasOneDigit(ds, k, one, 0);
    assert Zeros(0) == [];
  }

  /** A caller that keeps only as many characters as the count says keeps all of the
      text exactly for those doubles. What it keeps reads back for them, for whole
      numbers whose last digit is not zero, and for positive ones with one zero. */
  lemma KeptTextReads(t: seq<char>, v: Double, ds: seq<char>, k: int)
    requires v.Finite() && IsDoubleText(t, v, ds, k)
    ensures |ds| + 1 <= |t|
    ensures t[..|ds| + 1] == t <==> CountFits(v)
    ensures CountFits(v) || k == 0 || (k == 1 && !v.negative) ==>
              ParseDecimal(t[..|ds| + 1]).Some? && RoundsTo(ParseDecimal(t[..|ds| + 1]).value, v)
  {
    hide ParseDecimal, RoundsTo, CountFits, ShortDecimal, LayoutText;
    CountIsTextLength(t, v, ds, k);
    DoubleTextReads(t, v, ds, k);
    if |t| == |ds| + 1 {
      assert t[..|ds| + 1] == t;
    }
    if v.Decode().f != 0 {
      ShapeOf(ds, k, v);
      KeptWholeReads(t, ds, k, v.negative);
    }
  }

  lemma KeptWholeReads(t: seq<char>, ds: seq<char>, k: int, negative: bool)
    requires 1 <= |ds| <= 17 && AllDigits(ds)
    requires t == (if negative then ['-'] else []) + LayoutText(ds, k) && |ds| + 1 <= |t|
    ensures k == 0 || (k == 1 && !negative) ==> ParseDecimal(t[..|ds| + 1]) == ParseDecimal(t)
  {
    hide ParseDecimal, DigitsValue, DecimalValue, LayoutText;
    LayoutReads(ds, k);
    SignReads(ds, k);
    if k == 0 {
      KeptOfWhole(ds, k);
      if negative {
        assert t[..|ds| + 1] == ['-'] + ds;
        SignedDigits(ds);
      } else {
        assert t == LayoutText(ds, k);
        ReadPlain(ds, []);
        assert ds + [] == ds && ds + ['.'] + [] == ds + ['.'];
      }
    } else if k == 1 && !negative {
      KeptOfWhole(ds, k);
      assert t == LayoutText(ds, k);
      PlainDigits(ds + ['0']);
      TenTimes(ds);
    }
  }

  lemma KeptOfWhole(ds: seq<char>, k: int)
    requires 1 <= |ds| <= 17 && 0 <= k <= 1
    ensures var t := LayoutText(ds, k);
            |t| > |ds| && t[..|ds|] == ds && t[..|ds| + 1] == ds + [if k == 0 then '.' else '0']
  {
    assert Zeros(0) == [] && Zeros(1) == ['0'];
  }

  lemma PlainDigits(ds: seq<char>)
    requires ds != [] && AllDigits(ds)
    ensures ParseUnsigned(ds) == Some(DecimalValue(DigitsValue(ds), 0)) == ParseDecimal(ds)
  {
    hide DecimalValue, DigitsValue;
    FindNone(ds, 'e');
    FindNone(ds, '.');
    assert ds[..|ds|] == ds && ds + [] == ds;
  }

  lemma SignedDigits(ds: seq<char>)
    requires ds != [] && AllDigits(ds)
    ensures ParseDecimal(['-'] + ds) == Some(-DecimalValue(DigitsValue(ds), 0))
  {
    hide DecimalValue, DigitsValue, ParseUnsigned;
    PlainDigits(ds);
    assert (['-'] + ds)[1..] == ds;
  }

  lemma TenTimes(ds: seq<char>)
    requires AllDigits(ds)
    ensures DecimalValue(DigitsValue(ds + ['0']), 0) == DecimalValue(DigitsValue(ds), 1)
  {
    hide Ten, Pow10;
    AppendDigit(ds, '0');
    SameDecimal(DigitsValue(ds), 1, 0);
    Pow10Step(0);
    Pow10Zero();
  }

  /** Of 1e20 such a caller keeps "10", which is not 1e20. */
  lemma KeptOfLargePower(t: seq<char>, ds: seq<char>, k: int)
    requires var v := Double(false, 1089, 6103515625000000 - HIDDEN_BIT); IsDoubleText(t, v, ds, k)
    ensures var v := Double(false, 1089, 6103515625000000 - HIDDEN_BIT);
            && v.Magnitude() == 100000000000000000000.0
            && |ds| + 1 <= |t| && t[..|ds| + 1] == ['1', '0']
            && ParseDecimal(['1', '0']) == Some(10.0) && !RoundsTo(10.0, v)
  {
    hide Two, Pow10, ShortDecimal, ParseDecimal, RoundsTo;
    var v := Double(false, 1089, 6103515625000000 - HIDDEN_BIT);
    LargePower();
    PowerHasOneDigit(ds, k, v, 20);
    assert LayoutText(['1'], 20) == ['1'] + Zeros(20) + ['.', '0'];
    assert t[..2] == ['1', '0'];
    TenReads();
    NotTen(v);
  }

  lemma LargePower()
    ensures var v := Double(false, 1089, 6103515625000000 - HIDDEN_BIT);
            v.Magnitude() == Pow10(20) as real == 100000000000000000000.0
  {
    hide Two, Pow2, Pow10;
    TwoOfNat(14);
    Pow2Values();
    Pow2Add(10, 4);
    assert Pow2(4) == 16 by { Pow2Add(4, 4); FourthPower(); }
    Pow10Values();
    Pow10Add(16, 4);
    FourthPowerOfTen();
  }

  lemma FourthPower()
    ensures Pow2(4) == 16
  {
  }

  lemma FourthPowerOfTen()
    ensures Pow10(4) == 10000
  {
  }

  lemma TenReads()
    ensures ParseDecimal(['1', '0']) == Some(10.0)
  {
    hide DecimalValue;
    FindNone(['1', '0'], 'e');
    FindNone(['1', '0'], '.');
    assert ['1', '0'][..2] == ['1', '0'];
    assert ['1', '0'] + [] == ['1', '0'];
    assert ['1', '0'][..1] == ['1'];
    assert ['1'][..0] == [];
    assert DigitsValue(['1', '0']) == 10;
    DecimalOfWhole(10);
  }

  /** Ten is a double itself. */
  lemma NotTen(v: Double)
    requires v.Finite() && v.Magnitude() == 100000000000000000000.0
    ensures !RoundsTo(10.0, v)
  {
    hide Double.Magnitude;
    var u := WholeIsDouble(10);
    var w := Double(false, u.biased, u.fraction);
    assert w.Magnitude() == u.Magnitude() by { SameMagnitude(u); }
    assert Abs(10.0 - w.Value()) == 0.0;
  }

  lemma SameMagnitude(u: Double)
    requires u.Finite()
    ensures Double(false, u.biased, u.fraction).Magnitude() == u.Magnitude()
  {
  }

  lemma ZeroTextReads(v: Double)
    requires v.Finite() && v.Decode().f == 0
    ensures ParseDecimal(['0', '.', '0']) == Some(0.0) && RoundsTo(0.0, v)
  {
    ZeroParses();
    ZeroRounds(v);
  }

  lemma ZeroParses()
    ensures ParseDecimal(['0', '.', '0']) == Some(0.0)
  {
    hide Ten, ParseDecimal;
    ReadPlain(['0'], ['0']);
    assert ['0'] + ['.'] + ['0'] == ['0', '.', '0'];
    assert ['0'] + ['0'] == Zeros(2);
    ZerosValue(2);
  }

  lemma ZeroRounds(v: Double)
    requires v.Finite() && v.Decode().f == 0
    ensures RoundsTo(0.0, v)
  {
    hide Two, Double.Magnitude;
    PositiveProduct((4 * HIDDEN_BIT - 1) as real, Two(970));
    ZeroMagnitude(v);
    forall u: Double | u.Finite() && u.Value() != v.Value()
      ensures Abs(0.0 - v.Value()) < Abs(0.0 - u.Value())
    {
    }
  }

  lemma ZeroMagnitude(v: Double)
    requires v.Finite() && v.Decode().f == 0
    ensures v.Magnitude() == 0.0
  {
    hide Two;
  }

  /** dtoa_milo on any finite double, given 26 characters of room. The NUL-terminated
      text reads back as the double; the count returned is one more than the number
      of digits. */
  method DtoaMilo(v: Double, buffer: array<char>, off: nat) returns (count: nat, ghost ds: seq<char>, ghost k: int)
    requires v.Finite() && off + 26 <= buffer.Length
    modifies buffer
    ensures count == |ds| + 1
    ensures IsDoubleText(CString(buffer[off..]), v, ds, k)
    ensures v.Decode().f > 0 ==> ShortestScaled(ds, k, v) && AllDigits(ds) && (TableFits(v) ==> Closest(ds, k, v))
    ensures WroteText(buffer, off, CString(buffer[off..]))
  {
    hide ShortDecimal, ShortestScaled, TableFits, Closest, LayoutText, CString;
    ghost var text: seq<char>;
    var length := 2;
    if v.Decode().f == 0 {
      WriteZero(buffer, off);
      ds, k, text := ['0', '0'], 0, ['0', '.', '0'];
    } else {
      length, ds, k := SignAndDigits(v, buffer, off);
      text := (if v.negative then ['-'] else []) + LayoutText(ds, k);
    }
    count := length + 1;
    DoubleTextReads(text, v, ds, k);
    TextIsCString(buffer[off..], text);
  }

  method WriteZero(buffer: array<char>, off: nat)
    requires off + 4 <= buffer.Length
    modifies buffer
    ensures WroteText(buffer, off, ['0', '.', '0'])
  {
    buffer[off] := '0';
    buffer[off + 1] := '.';
    buffer[off + 2] := '0';
    buffer[off + 3] := '\0';
  }

  /** The nonzero branch of dtoa_milo. */
  method SignAndDigits(v: Double, buffer: array<char>, off: nat)
    returns (length: nat, ghost ds: seq<char>, ghost k: int)
    requires v.Finite() && v.Decode().f > 0 && off + 26 <= buffer.Length
    modifies buffer
    ensures length == |ds| && ds != [] && ShortDecimal(ds, k, v) && -340 <= k && -323 <= |ds| + k <= 310
    ensures ShortestScaled(ds, k, v) && AllDigits(ds) && (TableFits(v) ==> Closest(ds, k, v))
    ensures WroteText(buffer, off, (if v.negative then ['-'] else []) + LayoutText(ds, k))
  {
    hide ShortDecimal, ShortestScaled, LayoutText, TableFits, ScaledOf, Closest;
    var p := off;
    if v.negative {
      buffer[p] := '-';
      p := p + 1;
    }
    var K: int;
    length, K := Grisu2(v, buffer, p);
    ds, k := buffer[p..p + length], K;
    ShapeOf(ds, k, v);
    LayoutStart(ds, k);
    Prettify(buffer, p, length, K);
  }

  lemma ShapeOf(ds: seq<char>, k: int, v: Double)
    requires v.Finite() && ShortDecimal(ds, k, v)
    ensures 1 <= |ds| <= 17 && AllDigits(ds) && ds[0] != '0'
  {
  }

  lemma TextIsCString(s: seq<char>, t: seq<char>)
    requires |t| < |s| && (forall i :: 0 <= i < |t| ==> s[i] == t[i])
    requires s[|t|] == '\0' && '\0' !in t
    ensures CString(s) == t
  {
    FindSplit(t, '\0', s[|t| + 1..]);
    assert s == t + ['\0'] + s[|t| + 1..];
  }
}
