/** Decimal digit strings and the numbers they denote. */
module Decimals {
  import opened Options
  import opened Powers

  predicate IsDigit(c: char) {
    '0' <= c <= '9'
  }

  function DigitOf(c: char): (d: nat)
    requires IsDigit(c)
    ensures d <= 9
  {
    c as int - '0' as int
  }

  function DigitChar(d: nat): (c: char)
    requires d <= 9
    ensures IsDigit(c) && DigitOf(c) == d
  {
    (d + '0' as int) as char
  }

  predicate AllDigits(s: seq<char>) {
    forall i :: 0 <= i < |s| ==> IsDigit(s[i])
  }

  /** The number a digit string denotes; the empty string denotes zero. */
  function DigitsValue(s: seq<char>): nat
    requires AllDigits(s)
  {
    if s == [] then 0 else 10 * DigitsValue(s[..|s| - 1]) + DigitOf(s[|s| - 1])
  }

  lemma AppendDigit(s: seq<char>, c: char)
    requires AllDigits(s) && IsDigit(c)
    ensures DigitsValue(s + [c]) == 10 * DigitsValue(s) + DigitOf(c)
  {
    assert (s + [c])[..|s|] == s;
  }

  lemma {:induction false} ConcatDigits(s: seq<char>, t: seq<char>)
    requires AllDigits(s) && AllDigits(t)
    ensures DigitsValue(s + t) == DigitsValue(s) * Pow10(|t|) + DigitsValue(t)
  {
    if t == [] {
      assert s + t == s;
    } else {
      var u, c := t[..|t| - 1], t[|t| - 1];
      ConcatDigits(s, u);
      AppendDigit(s + u, c);
      assert s + t == (s + u) + [c];
      Shift(DigitsValue(s), Pow10(|u|), Pow10(|t|));
    }
  }

  lemma Shift(v: int, p: int, q: int)
    requires q == 10 * p
    ensures v * q == 10 * (v * p)
  {
  }

  lemma {:induction false} DigitsBelow(s: seq<char>)
    requires AllDigits(s)
    ensures DigitsValue(s) < Pow10(|s|)
  {
    if s == [] {
    } else {
      DigitsBelow(s[..|s| - 1]);
    }
  }

  /** Without a leading zero, the value fills the length. */
  lemma {:induction false} DigitsAtLeast(s: seq<char>)
    requires AllDigits(s) && s != [] && s[0] != '0'
    ensures DigitsValue(s) >= Pow10(|s| - 1)
  {
    if |s| == 1 {
      assert s[..0] == [];
    } else {
      DigitsAtLeast(s[..|s| - 1]);
      assert Pow10(|s| - 1) == 10 * Pow10(|s| - 2);
    }
  }

  /** m * 10^k. */
  function DecimalValue(m: int, k: int): real {
    m as real * Ten(k)
  }

  /** m * 10^k, written with the smaller exponent j. */
  lemma SameDecimal(m: int, k: int, j: int)
    requires j <= k
    ensures DecimalValue(m, k) == DecimalValue(m * Pow10(k - j), j)
    ensures m == 1 ==> DecimalValue(m, k) == DecimalValue(Pow10(k - j), j)
  {
    hide Ten, Pow10;
    TenOfNat(k - j);
    TenAdd(k - j, j);
    assert (m * Pow10(k - j)) as real == m as real * Ten(k - j);
  }

  /** The shortest decimal text of a natural number. */
  function NatText(n: nat): (s: seq<char>)
    ensures s != [] && AllDigits(s)
  {
    if n < 10 then [DigitChar(n)] else NatText(n / 10) + [DigitChar(n % 10)]
  }

  function IntText(n: int): seq<char> {
    if n < 0 then ['-'] + NatText(-n) else NatText(n)
  }

  /** Reads a signed decimal integer. */
  function ParseInt(s: seq<char>): Option<int> {
    if s == [] then None
    else if AllDigits(s) then Some(DigitsValue(s))
    else if s[0] == '-' && |s| > 1 && AllDigits(s[1..]) then (var n: int := DigitsValue(s[1..]); Some(-n))
    else None
  }

  /** Printing and reading back, without leading zeros. */
  lemma {:induction false} NatTextReads(n: nat)
    ensures DigitsValue(NatText(n)) == n
    ensures n > 0 ==> NatText(n)[0] != '0'
  {
    if n >= 10 {
      NatTextReads(n / 10);
      AppendDigit(NatText(n / 10), DigitChar(n % 10));
    } else {
      assert [DigitChar(n)][..0] == [];
    }
  }

  lemma IntTextReads(n: int)
    ensures ParseInt(IntText(n)) == Some(n)
    ensures n != 0 ==> IntText(n)[if n < 0 then 1 else 0] != '0'
    ensures n == 0 ==> IntText(n) == ['0']
  {
    NatTextReads(if n < 0 then -n else n);
    if n < 0 {
      assert IntText(n)[1..] == NatText(-n);
    }
  }

  lemma {:induction false} NatTextLength(n: nat, digits: nat)
    requires n < Pow10(digits) && digits > 0
    ensures |NatText(n)| <= digits
  {
    if n < 10 {
    } else {
      NatTextLength(n / 10, digits - 1);
    }
  }
}
