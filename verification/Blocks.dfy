/** Bytes and the block that every layer of the disk moves. */
module Blocks {
  const BLOCK := 4096

  newtype Byte = x: int | 0 <= x < 256

  type Block = b: seq<Byte> | |b| == BLOCK witness Zeros()

  function Zeros(): (r: seq<Byte>)
    ensures |r| == BLOCK
  {
    seq(BLOCK, i => 0 as Byte)
  }
}
