/** Bytes, and the effect of overwriting a range of a file with zeros. */
module Zeroing {
  type byte = x: int | 0 <= x < 256

  /** Size of one write of the shredder (64 KiB). */
  const BLOCK: nat := 64 * 1024

  /** `bs` with the offsets `lo..hi` overwritten by zeros. */
  function ZeroRange(bs: seq<byte>, lo: nat, hi: nat): seq<byte> {
    seq(|bs|, i requires 0 <= i < |bs| => if lo <= i < hi then 0 else bs[i])
  }

  ghost predicate AllZero(bs: seq<byte>) {
    forall i :: 0 <= i < |bs| ==> bs[i] == 0
  }

  /** The length of the write made at offset `off` of a file of `size` bytes. */
  function Chunk(off: nat, size: nat): (k: nat)
    requires off <= size
  {
    if size - off > BLOCK then BLOCK else size - off
  }
}
