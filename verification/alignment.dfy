/**
  The padding rule both encoders use: the header is followed by enough
  spaces that the payload, which comes after a 4-byte length prefix and the
  header, starts at a multiple of 8 within the frame.
 */
module Alignment {

  /** Size in bytes of the header-length prefix. */
  const PrefixSize: nat := 4

  /** The payload's required alignment in bytes. */
  const PayloadAlignment: nat := 8

  /** A payload after the prefix, `headerLen` header bytes and `pad` spaces
      starts on an aligned offset. */
  predicate PayloadAligned(headerLen: nat, pad: nat) {
    (PrefixSize + headerLen + pad) % PayloadAlignment == 0
  }

  /** The number of spaces appended to a header of the given length. */
  function PadCount(headerLen: nat): (k: nat)
    ensures 1 <= k <= PayloadAlignment
    ensures PayloadAligned(headerLen, k)
  {
    8 - ((headerLen + 4) % 8)
  }

  /** PadCount is the smallest positive count that aligns the payload; in
      particular a header that is already aligned still gets 8 spaces. */
  lemma PadCountIsLeast(headerLen: nat)
    ensures forall j :: 1 <= j < PadCount(headerLen) ==> !PayloadAligned(headerLen, j)
    ensures PadCount(headerLen) == PayloadAlignment <==> PayloadAligned(headerLen, 0)
  {
    var r := (headerLen + 4) % 8;
    forall j | 1 <= j < PadCount(headerLen)
      ensures !PayloadAligned(headerLen, j)
    {
      assert (headerLen + 4 + j) % 8 == r + j;
    }
  }

  /** An 8-byte aligned payload offset is also 4-byte aligned, as a
      `Float32Array` view of the payload requires. */
  lemma AlignedForFloats(headerLen: nat)
    requires PayloadAligned(headerLen, 0)
    ensures (PrefixSize + headerLen) % 4 == 0
  {
    var n := PrefixSize + headerLen;
    assert n % 8 == 0;
    var k := n / 8;
    assert n == 8 * k;
    assert n == 4 * (2 * k) + 0;
  }

  /** The header followed by its padding spaces. */
  function Pad<T>(header: seq<T>, space: T): (r: seq<T>)
    ensures |r| == |header| + PadCount(|header|)
    ensures PayloadAligned(|r|, 0)
    ensures r[..|header|] == header
    ensures forall i :: |header| <= i < |r| ==> r[i] == space
  {
    header + seq(PadCount(|header|), _ => space)
  }
}
