/** The integer printer: digits least significant first, then reversed in place. */
module Convert {
  import opened Decimals

  /** C++ division and remainder by ten, which truncate towards zero. */
  function TruncatedDiv10(i: int): int {
    if i < 0 then -((-i) / 10) else i / 10
  }

  function TruncatedMod10(i: int): (r: int)
    ensures -9 <= r <= 9
  {
    i - 10 * TruncatedDiv10(i)
  }

  /** The table of digits, symmetric around its zero. */
  const DIGITS: seq<char> := "9876543210123456789"
  const ZERO: nat := 9

  function Magnitude(i: int): nat {
    if i < 0 then -i else i
  }

  function Reversed(s: seq<char>): (r: seq<char>)
    ensures |r| == |s|
  {
    seq(|s|, i requires 0 <= i < |s| => s[|s| - 1 - i])
  }

  lemma ReversedAppend(s: seq<char>, c: char)
    ensures Reversed(s + [c]) == [c] + Reversed(s)
  {
  }

  /** What is already written, read backwards, behind the text of what is left. */
  function TextSoFar(i: int, written: seq<char>): seq<char> {
    (if i == 0 && written != [] then [] else NatText(Magnitude(i))) + Reversed(written)
  }

  lemma OneDigit(i: int, written: seq<char>)
    requires i != 0 || written == []
    ensures var c := DIGITS[ZERO + TruncatedMod10(i)];
            TextSoFar(TruncatedDiv10(i), written + [c]) == TextSoFar(i, written)
  {
    var c := DIGITS[ZERO + TruncatedMod10(i)];
    var n := Magnitude(i);
    assert Magnitude(TruncatedDiv10(i)) == n / 10;
    assert Magnitude(TruncatedMod10(i)) == n % 10;
    SymmetricDigit(TruncatedMod10(i));
    ReversedAppend(written, c);
    assert (if TruncatedDiv10(i) == 0 then [] else NatText(n / 10)) + [c] == NatText(n);
  }

  lemma SymmetricDigit(d: int)
    requires -9 <= d <= 9
    ensures DIGITS[ZERO + d] == DigitChar(Magnitude(d))
  {
  }

  /** std::reverse over [lo, hi). */
  method ReverseInPlace(buffer: array<char>, lo: nat, hi: nat)
    requires lo <= hi <= buffer.Length
    modifies buffer
    ensures buffer[lo..hi] == Reversed(old(buffer[lo..hi]))
    ensures forall j :: 0 <= j < buffer.Length && !(lo <= j < hi) ==> buffer[j] == old(buffer[j])
  {
    var first, last := lo, hi;
    while last - first >= 2
      invariant lo <= first <= last <= hi && first - lo == hi - last
      invariant forall j :: lo <= j < first || last <= j < hi ==> buffer[j] == old(buffer[lo + hi - 1 - j])
      invariant forall j :: first <= j < last ==> buffer[j] == old(buffer[j])
      invariant forall j :: 0 <= j < buffer.Length && !(lo <= j < hi) ==> buffer[j] == old(buffer[j])
    {
      last := last - 1;
      buffer[first], buffer[last] := buffer[last], buffer[first];
      first := first + 1;
    }
    forall k | 0 <= k < hi - lo
      ensures buffer[lo..hi][k] == old(buffer[lo..hi])[hi - lo - 1 - k]
    {
      assert first <= lo + k < last ==> 2 * (lo + k) == lo + hi - 1;
      assert buffer[lo + k] == old(buffer[lo + hi - 1 - (lo + k)]);
    }
    MirrorImage(old(buffer[lo..hi]), buffer[lo..hi]);
  }

  lemma MirrorImage(was: seq<char>, now: seq<char>)
    requires |was| == |now|
    requires forall k :: 0 <= k < |now| ==> now[k] == was[|was| - 1 - k]
    ensures now == Reversed(was)
  {
  }

  /** The do-while loop of convert: digits with the least significant one first. */
  method WriteDigits(buffer: array<char>, off: nat, value: int) returns (p: nat)
    requires off + |NatText(Magnitude(value))| < buffer.Length
    modifies buffer
    ensures off <= p < buffer.Length && Reversed(buffer[off..p]) == NatText(Magnitude(value))
    ensures forall j :: 0 <= j < buffer.Length && !(off <= j < p) ==> buffer[j] == old(buffer[j])
  {
    hide NatText, TruncatedDiv10, TruncatedMod10, TextSoFar, Reversed;
    var i := value;
    p := off;
    ghost var text, written: seq<char> := NatText(Magnitude(value)), [];
    StartText(value);
    while true
      invariant p == off + |written| < buffer.Length
      invariant forall j :: 0 <= j < |written| ==> buffer[off + j] == written[j]
      invariant TextSoFar(i, written) == text && (i != 0 || written == [])
      invariant forall j :: 0 <= j < buffer.Length && !(off <= j < p) ==> buffer[j] == old(buffer[j])
      decreases Magnitude(i)
    {
      OneDigit(i, written);
      Shrinks(i);
      var lsd := TruncatedMod10(i);
      i := TruncatedDiv10(i);
      buffer[p] := DIGITS[ZERO + lsd];
      p := p + 1;
      written := written + [DIGITS[ZERO + lsd]];
      TextRoom(i, written);
      if i == 0 {
        break;
      }
    }
    assert buffer[off..p] == written;
    EndText(written);
  }

  lemma StartText(value: int)
    ensures TextSoFar(value, []) == NatText(Magnitude(value))
  {
  }

  lemma EndText(written: seq<char>)
    requires written != []
    ensures TextSoFar(0, written) == Reversed(written)
  {
  }

  lemma TextRoom(i: int, written: seq<char>)
    ensures |written| <= |TextSoFar(i, written)|
  {
  }

  /** convert<T> for any integral T: division shrinks, so nothing overflows, not
      even for the least value. Leaves the decimal text and a NUL in the buffer and
      returns the length of the text. */
  method ConvertInt(buffer: array<char>, off: nat, value: int) returns (n: nat)
    requires off + |IntText(value)| < buffer.Length
    modifies buffer
    ensures n == |IntText(value)| && buffer[off..off + n] == IntText(value)
    ensures buffer[off + n] == '\0'
    ensures forall j :: 0 <= j < buffer.Length && !(off <= j <= off + n) ==> buffer[j] == old(buffer[j])
  {
    hide NatText, Reversed;
    var p := WriteDigits(buffer, off, value);
    ghost var digits, was := buffer[off..p], buffer[..];
    if value < 0 {
      buffer[p] := '-';
      p := p + 1;
      SliceGrows(was, buffer[..], off, p - 1, '-');
      ReversedAppend(digits, '-');
    }
    ghost var text := if value < 0 then digits + ['-'] else digits;
    assert buffer[..][off..p] == text;
    was := buffer[..];
    buffer[p] := '\0';
    SliceStays(was, buffer[..], off, p, '\0');
    ReverseInPlace(buffer, off, p);
    n := p - off;
  }

  /** Writing behind a stretch extends it, or leaves it alone. */
  lemma SliceGrows(was: seq<char>, now: seq<char>, lo: nat, hi: nat, c: char)
    requires lo <= hi < |was| && now == was[hi := c]
    ensures now[lo..hi + 1] == was[lo..hi] + [c]
  {
  }

  lemma SliceStays(was: seq<char>, now: seq<char>, lo: nat, hi: nat, c: char)
    requires lo <= hi < |was| && now == was[hi := c]
    ensures now[lo..hi] == was[lo..hi]
  {
  }

  lemma Shrinks(i: int)
    ensures i != 0 ==> Magnitude(TruncatedDiv10(i)) < Magnitude(i)
    ensures i == 0 ==> TruncatedDiv10(i) == 0
    ensures i < 0 ==> TruncatedDiv10(i) <= 0
    ensures i >= 0 ==> TruncatedDiv10(i) >= 0
  {
  }
}
