/** Disk blocks (include/fs.h): 512 bytes, which the kernel also reads as an
    array of 128 little-endian 32-bit words. */
module Blocks {

  const BSIZE: nat := 512
  const NWORDS: nat := 128
  const UINT: nat := 0x1_0000_0000

  type Byte = x: int | 0 <= x < 256

  type Block = b: seq<Byte> | |b| == BSIZE witness seq(BSIZE, _ => 0)

  /** `((uint*)b)[i]` */
  function Word(b: Block, i: nat): (w: nat)
    requires i < NWORDS
    ensures w < UINT
  {
    var b0: int, b1: int, b2: int, b3: int := b[4 * i], b[4 * i + 1], b[4 * i + 2], b[4 * i + 3];
    b0 + 256 * b1 + 65536 * b2 + 16777216 * b3
  }

  function Zeroes(): (b: Block)
    ensures forall i :: 0 <= i < BSIZE ==> b[i] == 0
    ensures forall i: nat :: i < NWORDS ==> Word(b, i) == 0
  {
    seq(BSIZE, _ => 0)
  }

  function SetBytes(b: Block, i: nat, b0: Byte, b1: Byte, b2: Byte, b3: Byte): (r: Block)
    requires i < NWORDS
    ensures Word(r, i) == b0 as int + 256 * (b1 as int) + 65536 * (b2 as int) + 16777216 * (b3 as int)
    ensures forall j: nat :: j < NWORDS && j != i ==> Word(r, j) == Word(b, j)
  {
    b[4 * i := b0][4 * i + 1 := b1][4 * i + 2 := b2][4 * i + 3 := b3]
  }

  /** `((uint*)b)[i] = w` */
  function SetWord(b: Block, i: nat, w: nat): (r: Block)
    requires i < NWORDS && w < UINT
    ensures Word(r, i) == w
    ensures forall j: nat :: j < NWORDS && j != i ==> Word(r, j) == Word(b, j)
  {
    var hi := w / 65536;
    SetBytes(b, i, w % 65536 % 256, w % 65536 / 256, hi % 256, hi / 256)
  }
}
