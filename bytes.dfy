/** Bytes, String.getBytes and the heap ByteBuffer the interpreter writes into. */
module Bytes {

  newtype byte = x: int | 0 <= x < 256

  /** String.getBytes for a one-byte-per-character charset: each character's low eight bits. */
  function Encode(s: string): (bs: seq<byte>)
    ensures |bs| == |s|
    ensures forall i :: 0 <= i < |s| ==> bs[i] as int == s[i] as int % 256
  {
    seq(|s|, i requires 0 <= i < |s| => (s[i] as int % 256) as byte)
  }

  /** java.nio.ByteBuffer.allocate(capacity): a zero-filled array and a write position. */
  class ByteBuffer {
    const hb: array<byte>
    var position: nat

    /** Everything at or after the position is still the zero the buffer was allocated with. */
    ghost predicate Valid()
      reads this, hb
    {
      position <= hb.Length &&
      forall i :: position <= i < hb.Length ==> hb[i] == 0
    }

    /** The bytes written so far. */
    ghost function Contents(): seq<byte>
      reads this, hb
      requires Valid()
    {
      hb[..position]
    }

    constructor Allocate(capacity: nat)
      ensures Valid() && fresh(hb)
      ensures hb.Length == capacity && Contents() == []
    {
      hb := new byte[capacity](_ => 0);
      position := 0;
    }

    /** put(byte[]): writes all of src at the position, or throws BufferOverflowException and writes nothing. */
    method Put(src: seq<byte>) returns (ok: bool)
      requires Valid()
      modifies this, hb
      ensures Valid()
      ensures ok <==> |src| <= hb.Length - old(position)
      ensures ok ==> Contents() == old(Contents()) + src
      ensures !ok ==> position == old(position) && hb[..] == old(hb[..])
    {
      if |src| > hb.Length - position {
        return false;
      }
      forall i | 0 <= i < |src| {
        hb[position + i] := src[i];
      }
      assert hb[..position] == old(hb[..position]);
      assert hb[position..position + |src|] == src;
      assert hb[..position + |src|] == hb[..position] + hb[position..position + |src|];
      position := position + |src|;
      return true;
    }
  }
}
