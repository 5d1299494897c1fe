/** The text layouts of the double printer, and what each of them says. */
module Layout {
  import opened Options
  import opened Powers
  import opened Decimals

  function Zeros(n: nat): (s: seq<char>)
    ensures |s| == n && AllDigits(s)
    ensures forall i :: 0 <= i < n ==> s[i] == '0'
  {
    seq(n, _ => '0')
  }

  /** The five layouts of Prettify for the digits ds with decimal exponent k. */
  function LayoutText(ds: seq<char>, k: int): seq<char>
    requires ds != []
  {
    var kk := |ds| + k;
    if |ds| <= kk <= 21 then ds + Zeros(kk - |ds|) + ['.', '0']
    else if 0 < kk <= 21 then ds[..kk] + ['.'] + ds[kk..]
    else if -6 < kk <= 0 then ['0', '.'] + Zeros(-kk) + ds
    else if |ds| == 1 then ds + ['e'] + IntText(kk - 1)
    else ds[..1] + ['.'] + ds[1..] + ['e'] + IntText(kk - 1)
  }

  // ---- A reader of decimal numbers that knows nothing of the layouts.

  /** The first place of c in s, or |s|. */
  function Find(s: seq<char>, c: char): (i: nat)
    ensures i <= |s|
    ensures i < |s| ==> s[i] == c
    ensures c !in s[..i]
  {
    if s == [] || s[0] == c then 0
    else
      var i := 1 + Find(s[1..], c);
      assert s[..i] == [s[0]] + s[1..][..i - 1];
      i
  }

  function ParseUnsigned(s: seq<char>): Option<real> {
    var i := Find(s, 'e');
    var mantissa := s[..i];
    var exponent := if i < |s| then ParseInt(s[i + 1..]) else Some(0);
    var j := Find(mantissa, '.');
    var whole := mantissa[..j];
    var fraction := if j < |mantissa| then mantissa[j + 1..] else [];
    if whole != [] && AllDigits(whole) && AllDigits(fraction) && exponent.Some?
    then Some(DecimalValue(DigitsValue(whole + fraction), exponent.value - |fraction|))
    else None
  }

  /** [-] digits [. digits] [e [-] digits] */
  function ParseDecimal(s: seq<char>): Option<real> {
    if s != [] && s[0] == '-' then
      var r := ParseUnsigned(s[1..]);
      if r.Some? then Some(-r.value) else None
    else ParseUnsigned(s)
  }

  /** A C string: everything before the first NUL. */
  function CString(s: seq<char>): seq<char> {
    s[..Find(s, '\0')]
  }

  // ---- Each layout reads back exactly.

  lemma {:induction false} FindSplit(a: seq<char>, c: char, b: seq<char>)
    requires c !in a
    ensures Find(a + [c] + b, c) == |a|
  {
    if a == [] {
    } else {
      FindSplit(a[1..], c, b);
      assert (a + [c] + b)[1..] == a[1..] + [c] + b;
    }
  }

  lemma FindNone(s: seq<char>, c: char)
    requires c !in s
    ensures Find(s, c) == |s|
  {
  }

  /** The digits of whole and fraction, with the exponent moved past the point. */
  function PartsValue(whole: seq<char>, fraction: seq<char>, e: int): real
    requires AllDigits(whole) && AllDigits(fraction)
  {
    DecimalValue(DigitsValue(whole + fraction), e - |fraction|)
  }

  /** Reading whole "." fraction with no exponent. */
  lemma ReadPlain(whole: seq<char>, fraction: seq<char>)
    requires whole != [] && AllDigits(whole) && AllDigits(fraction)
    ensures ParseDecimal(whole + ['.'] + fraction) == Some(PartsValue(whole, fraction, 0))
  {
    hide Find, ParseInt, DecimalValue;
    var s := whole + ['.'] + fraction;
    FindNone(s, 'e');
    assert s[..|s|] == s;
    FindSplit(whole, '.', fraction);
    assert s[..|whole|] == whole && s[|whole| + 1..] == fraction;
  }

  /** Reading whole "." fraction "e" exponent. */
  lemma ReadScientific(whole: seq<char>, fraction: seq<char>, e: int)
    requires whole != [] && AllDigits(whole) && AllDigits(fraction)
    ensures ParseDecimal(whole + ['.'] + fraction + ['e'] + IntText(e)) == Some(PartsValue(whole, fraction, e))
  {
    hide Find, ParseInt, DecimalValue, IntText;
    var mantissa := whole + ['.'] + fraction;
    var s := mantissa + ['e'] + IntText(e);
    FindSplit(mantissa, 'e', IntText(e));
    assert s[..|mantissa|] == mantissa && s[|mantissa| + 1..] == IntText(e);
    IntTextReads(e);
    FindSplit(whole, '.', fraction);
    assert mantissa[..|whole|] == whole && mantissa[|whole| + 1..] == fraction;
  }

  /** Reading digits "e" exponent. */
  lemma ReadWithoutPoint(whole: seq<char>, e: int)
    requires whole != [] && AllDigits(whole)
    ensures ParseDecimal(whole + ['e'] + IntText(e)) == Some(PartsValue(whole, [], e))
  {
    hide Find, ParseInt, DecimalValue, IntText;
    var s := whole + ['e'] + IntText(e);
    FindSplit(whole, 'e', IntText(e));
    assert s[..|whole|] == whole && s[|whole| + 1..] == IntText(e);
    IntTextReads(e);
    FindNone(whole, '.');
    assert whole[..|whole|] == whole;
  }

  lemma {:induction false} ZerosValue(n: nat)
    ensures DigitsValue(Zeros(n)) == 0
  {
    if n == 0 {
    } else {
      ZerosValue(n - 1);
      assert Zeros(n)[..n - 1] == Zeros(n - 1);
    }
  }

  lemma TrailingZeros(ds: seq<char>, n: nat)
    requires AllDigits(ds)
    ensures DigitsValue(ds + Zeros(n)) == DigitsValue(ds) * Pow10(n)
  {
    ConcatDigits(ds, Zeros(n));
    ZerosValue(n);
  }

  lemma LeadingZeros(n: nat, ds: seq<char>)
    requires AllDigits(ds)
    ensures DigitsValue(Zeros(n) + ds) == DigitsValue(ds)
  {
    ConcatDigits(Zeros(n), ds);
    ZerosValue(n);
  }

  /** 1234e7 -> 12340000000.0 */
  lemma IntegralReads(ds: seq<char>, k: nat)
    requires ds != [] && AllDigits(ds)
    ensures ParseDecimal(ds + Zeros(k) + ['.', '0']) == Some(DecimalValue(DigitsValue(ds), k))
  {
    hide Pow10, ParseDecimal, DecimalValue;
    var whole := ds + Zeros(k);
    assert whole + ['.', '0'] == whole + ['.'] + ['0'];
    ReadPlain(whole, ['0']);
    assert whole + ['0'] == ds + Zeros(k + 1);
    TrailingZeros(ds, k + 1);
    SameDecimal(DigitsValue(ds), k, -1);
  }

  /** 1234e-6 -> 0.001234 */
  lemma SmallReads(ds: seq<char>, n: nat)
    requires ds != [] && AllDigits(ds)
    ensures ParseDecimal(['0', '.'] + Zeros(n) + ds) == Some(DecimalValue(DigitsValue(ds), 0 - n - |ds|))
  {
    hide Pow10, ParseDecimal, DecimalValue;
    ZerosInFront(ds, n);
    hide Zeros, DigitsValue;
    ReadPlain(['0'], Zeros(n) + ds);
    LeadingZeros(n + 1, ds);
  }

  lemma ZerosInFront(ds: seq<char>, n: nat)
    ensures ['0', '.'] + Zeros(n) + ds == ['0'] + ['.'] + (Zeros(n) + ds)
    ensures ['0'] + (Zeros(n) + ds) == Zeros(n + 1) + ds
  {
  }

  /** 1234e-2 -> 12.34 */
  lemma MixedReads(ds: seq<char>, kk: nat)
    requires AllDigits(ds) && 0 < kk < |ds|
    ensures ParseDecimal(ds[..kk] + ['.'] + ds[kk..]) == Some(DecimalValue(DigitsValue(ds), kk - |ds|))
  {
    hide ParseDecimal, DecimalValue, DigitsValue;
    ReadPlain(ds[..kk], ds[kk..]);
    assert ds[..kk] + ds[kk..] == ds;
  }

  /** 1234e30 -> 1.234e33, and 1e30 as it is. */
  lemma ScientificReads(ds: seq<char>, e: int)
    requires ds != [] && AllDigits(ds)
    ensures ParseDecimal(ds[..1] + ['.'] + ds[1..] + ['e'] + IntText(e))
         == Some(DecimalValue(DigitsValue(ds), e - |ds| + 1))
    ensures |ds| == 1 ==>
              ParseDecimal(ds + ['e'] + IntText(e)) == Some(DecimalValue(DigitsValue(ds), e))
  {
    hide ParseDecimal, DecimalValue, DigitsValue, IntText;
    ReadScientific(ds[..1], ds[1..], e);
    assert ds[..1] + ds[1..] == ds;
    ReadWithoutPoint(ds, e);
    assert ds + [] == ds;
  }

  /** Every layout of the digits ds and exponent k denotes ds * 10^k exactly. */
  lemma LayoutReads(ds: seq<char>, k: int)
    requires ds != [] && AllDigits(ds)
    ensures ParseDecimal(LayoutText(ds, k)) == Some(DecimalValue(DigitsValue(ds), k))
  {
    hide ParseDecimal, DecimalValue, DigitsValue, IntText;
    var n, kk := |ds|, |ds| + k;
    if n <= kk <= 21 {
      IntegralReads(ds, k);
    } else if 0 < kk <= 21 {
      MixedReads(ds, kk);
    } else if -6 < kk <= 0 {
      SmallReads(ds, -kk);
    } else {
      ScientificReads(ds, kk - 1);
    }
  }

  /** A minus sign in front negates. */
  lemma SignReads(ds: seq<char>, k: int)
    requires ds != [] && AllDigits(ds)
    ensures ParseDecimal(['-'] + LayoutText(ds, k)) == Some(-DecimalValue(DigitsValue(ds), k))
  {
    hide Pow10, DecimalValue, ParseUnsigned, LayoutText;
    LayoutReads(ds, k);
    assert (['-'] + LayoutText(ds, k))[1..] == LayoutText(ds, k);
    LayoutStart(ds, k);
  }

  lemma LayoutStart(ds: seq<char>, k: int)
    requires ds != [] && AllDigits(ds)
    ensures |LayoutText(ds, k)| >= |ds| && IsDigit(LayoutText(ds, k)[0])
    ensures '\0' !in LayoutText(ds, k)
  {
    hide IntText;
    NatTextHasNoNul(|ds| + k - 1);
  }

  lemma NatTextHasNoNul(n: int)
    ensures '\0' !in IntText(n)
  {
  }

  /** No layout of at most 17 digits with a three-digit exponent is longer than 24. */
  lemma LayoutLength(ds: seq<char>, k: int)
    requires 1 <= |ds| <= 17 && -999 <= |ds| + k - 1 <= 999
    ensures |LayoutText(ds, k)| <= 24
  {
    var e := |ds| + k - 1;
    Pow10Values();
    NatTextLength(if e < 0 then -e else e, 3);
  }

  /** The text is at least one longer than the digits, and exactly one longer only
      when it is unsigned and the point falls strictly among the digits. */
  lemma CountIsLength(ds: seq<char>, k: int, negative: bool)
    requires 1 <= |ds| <= 17
    ensures var t := (if negative then ['-'] else []) + LayoutText(ds, k);
            && |t| >= |ds| + 1
            && (|t| == |ds| + 1 <==> (!negative && 0 < |ds| + k < |ds|))
  {
  }

  // ---- Which layout a number gets.

  /** A point with digits on both sides, so many behind it, and no superfluous zero in
      front. */
  ghost predicate PlainForm(t: seq<char>, places: nat) {
    var j := Find(t, '.');
    && 0 < j < |t| - 1
    && AllDigits(t[..j]) && AllDigits(t[j + 1..])
    && |t| == j + 1 + places
    && (j > 1 ==> t[0] != '0')
  }

  /** So many digits, the first not zero and a point behind it unless it is the only one,
      and the exponent e. */
  ghost predicate ExponentForm(t: seq<char>, digits: nat, e: int) {
    var i := Find(t, 'e');
    && 0 < i < |t|
    && IsDigit(t[0]) && t[0] != '0'
    && (if i == 1 then digits == 1 else t[1] == '.' && i == digits + 1 > 2 && AllDigits(t[2..i]))
    && t[i + 1..] == IntText(e)
  }

  lemma PlainParts(whole: seq<char>, fraction: seq<char>)
    requires whole != [] && fraction != [] && AllDigits(whole) && AllDigits(fraction)
    requires |whole| > 1 ==> whole[0] != '0'
    ensures var t := whole + ['.'] + fraction; 'e' !in t && PlainForm(t, |fraction|)
  {
    var t := whole + ['.'] + fraction;
    FindSplit(whole, '.', fraction);
    hide Find;
    assert t[..|whole|] == whole && t[|whole| + 1..] == fraction;
  }

  lemma OneWithExponent(ds: seq<char>, e: int)
    requires |ds| == 1 && IsDigit(ds[0]) && ds[0] != '0'
    ensures var t := ds + ['e'] + IntText(e); 'e' in t && ExponentForm(t, 1, e)
  {
    hide IntText;
    FindSplit(ds, 'e', IntText(e));
    hide Find;
    assert (ds + ['e'] + IntText(e))[2..] == IntText(e);
  }

  lemma PointedWithExponent(ds: seq<char>, e: int)
    requires |ds| > 1 && AllDigits(ds) && ds[0] != '0'
    ensures var t := ds[..1] + ['.'] + ds[1..] + ['e'] + IntText(e); 'e' in t && ExponentForm(t, |ds|, e)
  {
    hide IntText;
    var head := ds[..1] + ['.'] + ds[1..];
    var t := head + ['e'] + IntText(e);
    FindSplit(head, 'e', IntText(e));
    hide Find;
    BehindPoint(ds, ['e'] + IntText(e));
    assert t == head + (['e'] + IntText(e));
    assert t[|head| + 1..] == IntText(e);
    assert t[|head|] == 'e';
  }

  lemma BehindPoint(ds: seq<char>, rest: seq<char>)
    requires |ds| > 1
    ensures (ds[..1] + ['.'] + ds[1..] + rest)[2..|ds| + 1] == ds[1..]
  {
    var t := ds[..1] + ['.'] + ds[1..] + rest;
    forall i | 0 <= i < |ds| - 1
      ensures t[2 + i] == ds[1..][i]
    {
    }
  }

  /** A number is written with an exponent exactly when it has more than 21 digits in front
      of the point or more than five zeros behind it; otherwise with all its digits and no
      more behind the point than it takes, one at least. */
  lemma LayoutForm(ds: seq<char>, k: int)
    requires ds != [] && AllDigits(ds) && ds[0] != '0'
    ensures var t, kk := LayoutText(ds, k), |ds| + k;
            if kk > 21 || kk <= -6 then 'e' in t && ExponentForm(t, |ds|, kk - 1)
            else 'e' !in t && PlainForm(t, if k < 0 then -k else 1)
  {
    hide IntText, Find, PlainForm, ExponentForm;
    var n, kk := |ds|, |ds| + k;
    if n <= kk <= 21 {
      assert ds + Zeros(k) + ['.', '0'] == ds + Zeros(k) + ['.'] + ['0'];
      PlainParts(ds + Zeros(k), ['0']);
    } else if 0 < kk <= 21 {
      PlainParts(ds[..kk], ds[kk..]);
    } else if -6 < kk <= 0 {
      ZerosInFront(ds, -kk);
      PlainParts(['0'], Zeros(-kk) + ds);
    } else {
      if n == 1 {
        OneWithExponent(ds, kk - 1);
      } else {
        PointedWithExponent(ds, kk - 1);
      }
    }
  }
}
