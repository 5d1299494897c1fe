/** The fixed-size character buffer behind log streams and log buckets. */
module FixedBuffers {

  /** What appending buf to data leaves in a buffer of the given size. */
  function Filled(data: seq<char>, buf: seq<char>, size: nat): (r: seq<char>)
    requires |data| <= size
    ensures |data| <= |r| <= size
    ensures |data| + |buf| <= size ==> r == data + buf
    ensures |data| + |buf| > size ==> |r| == size && data <= r <= data + buf
  {
    data + buf[..if size - |data| < |buf| then size - |data| else |buf|]
  }

  class FixedBuffer {
    const data: array<char>
    var cur: nat

    ghost predicate Valid()
      reads this
    {
      cur <= data.Length
    }

    ghost function Contents(): (s: seq<char>)
      requires Valid()
      reads this, data
      ensures |s| == cur
    {
      data[..cur]
    }

    constructor (size: nat)
      ensures Valid() && fresh(data) && data.Length == size && Contents() == []
    {
      data := new char[size];
      cur := 0;
    }

    function Length(): nat
      reads this
    {
      cur
    }

    function Avail(): nat
      requires Valid()
      reads this
    {
      data.Length - cur
    }

    method Append(buf: seq<char>) returns (actualLen: nat)
      requires Valid()
      modifies this, data
      ensures Valid() && Contents() == Filled(old(Contents()), buf, data.Length)
      ensures actualLen == |Contents()| - |old(Contents())|
    {
      actualLen := if Avail() < |buf| then Avail() else |buf|;
      forall i | 0 <= i < actualLen {
        data[cur + i] := buf[i];
      }
      assert data[cur..cur + actualLen] == buf[..actualLen];
      cur := cur + actualLen;
    }

    /** Claims characters already written behind the cursor. */
    method Add(len: nat)
      requires Valid() && len <= Avail()
      modifies this
      ensures Valid() && cur == old(cur) + len
      ensures Contents() == data[..old(cur) + len]
    {
      cur := cur + len;
    }

    method Reset()
      requires Valid()
      modifies this
      ensures Valid() && Contents() == []
    {
      cur := 0;
    }
  }
}
