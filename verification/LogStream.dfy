/** Numbers in a log stream: the guard of 32 characters in front of the printers. */
module LogStreams {
  import opened Powers
  import opened Decimals
  import opened Ieee754
  import opened DiyFloat
  import opened Convert
  import opened FixedBuffers
  import opened Layout
  import Dtoa

  const MAX_NUMERIC_SIZE: nat := 32

  class LogStream {
    const buffer: FixedBuffer

    ghost predicate Valid()
      reads this, buffer
    {
      buffer.Valid()
    }

    constructor (size: nat)
      ensures Valid() && fresh(buffer) && fresh(buffer.data) && buffer.Contents() == []
    {
      buffer := new FixedBuffer(size);
    }

    /** formatNumeric for integers of up to 64 bits, signed or not: the whole
        number, or nothing when fewer than 32 characters are left. */
    method FormatInt(v: int)
      requires Valid() && Magnitude(v) < TWO_64
      modifies buffer, buffer.data
      ensures Valid()
      ensures buffer.Contents() == old(buffer.Contents()) + (if old(buffer.Avail()) >= 32 then IntText(v) else [])
    {
      if buffer.Avail() >= MAX_NUMERIC_SIZE {
        hide IntText, Magnitude;
        WordTextLength(v);
        ghost var was := buffer.data[..];
        var len := ConvertInt(buffer.data, buffer.cur, v);
        assert buffer.data[..][buffer.cur..buffer.cur + len] == IntText(v);
        Extended(was, buffer.data[..], buffer.cur, IntText(v));
        buffer.Add(len);
      }
    }

    /** formatNumeric for doubles: the text is written in full, but the stream keeps
        only as many characters as dtoa_milo counts, which is all of them exactly for
        zero and for numbers above one that are not whole. */
    method FormatDouble(v: Double) returns (ghost t: seq<char>, ghost ds: seq<char>, ghost k: int)
      requires Valid() && v.Finite()
      modifies buffer, buffer.data
      ensures Valid()
      ensures old(buffer.Avail()) < 32 ==> buffer.Contents() == old(buffer.Contents())
      ensures old(buffer.Avail()) >= 32 ==>
                && Dtoa.IsDoubleText(t, v, ds, k)
                && |ds| + 1 <= |t| && (t[..|ds| + 1] == t <==> Dtoa.CountFits(v))
                && buffer.Contents() == old(buffer.Contents()) + t[..|ds| + 1]
    {
      hide Dtoa.IsDoubleText, Dtoa.CountFits, CString;
      t, ds, k := [], [], 0;
      if buffer.Avail() >= MAX_NUMERIC_SIZE {
        ghost var was, cur := buffer.data[..], buffer.cur;
        var len;
        len, ds, k := Dtoa.DtoaMilo(v, buffer.data, buffer.cur);
        t := CString(buffer.data[cur..]);
        Dtoa.KeptTextReads(t, v, ds, k);
        assert buffer.data[..][cur..cur + len] == t[..len];
        Extended(was, buffer.data[..], cur, t[..len]);
        buffer.Add(len);
      }
    }
  }

  /** Text written at the cursor extends what is before it. */
  lemma Extended(was: seq<char>, now: seq<char>, cur: nat, t: seq<char>)
    requires cur + |t| <= |now| == |was|
    requires forall j :: 0 <= j < cur ==> now[j] == was[j]
    requires now[cur..cur + |t|] == t
    ensures now[..cur + |t|] == was[..cur] + t
  {
    assert now[..cur + |t|] == now[..cur] + now[cur..cur + |t|];
  }

  /** Any 64-bit integer takes at most 21 characters. */
  lemma WordTextLength(v: int)
    requires Magnitude(v) < TWO_64
    ensures |IntText(v)| <= 21
  {
    Pow10Values();
    Pow10Add(17, 3);
    NatTextLength(Magnitude(v), 20);
  }
}
