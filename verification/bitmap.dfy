/** The free bitmap (kernel/fs.c): bit b of the bitmap blocks is set when block b is in use. */
module Bitmap {
  import opened Blocks

  const BPB: nat := 4096

  function Pow2(i: nat): (p: nat)
    ensures p >= 1
  {
    if i == 0 then 1 else 2 * Pow2(i - 1)
  }

  predicate Bit(x: nat, i: nat) {
    if i == 0 then x % 2 == 1 else Bit(x / 2, i - 1)
  }

  /** `x | (1 << i)` */
  function SetBit(x: nat, i: nat): (r: nat) {
    if Bit(x, i) then x else x + Pow2(i)
  }

  lemma {:induction false} BitPresent(x: nat, i: nat)
    ensures Bit(x, i) ==> x >= Pow2(i)
  {
    if i > 0 {
      BitPresent(x / 2, i - 1);
    }
  }

  /** `x & ~(1 << i)` */
  function ClearBit(x: nat, i: nat): (r: nat) {
    BitPresent(x, i);
    if Bit(x, i) then x - Pow2(i) else x
  }

  /** Setting and clearing a bit change that bit alone and stay within n bits. */
  lemma {:induction false} BitChanged(x: nat, i: nat, j: nat, n: nat)
    requires x < Pow2(n) && i < n
    ensures Bit(SetBit(x, i), j) <==> j == i || Bit(x, j)
    ensures Bit(ClearBit(x, i), j) <==> j != i && Bit(x, j)
    ensures SetBit(x, i) < Pow2(n) && ClearBit(x, i) < Pow2(n)
  {
    BitPresent(x, i);
    if i > 0 {
      BitPresent(x / 2, i - 1);
      assert (x + Pow2(i)) / 2 == x / 2 + Pow2(i - 1);
      assert Bit(x, i) ==> (x - Pow2(i)) / 2 == x / 2 - Pow2(i - 1);
      BitChanged(x / 2, i - 1, if j > 0 then j - 1 else 0, n - 1);
    }
  }

  lemma BitReplaced(x: Byte, i: nat, on: bool)
    requires i < 8
    ensures SetBit(x, i) < 256 && ClearBit(x, i) < 256
    ensures forall j: nat :: Bit(if on then SetBit(x, i) else ClearBit(x, i), j) <==> if j == i then on else Bit(x, j)
  {
    assert Pow2(8) == 256;
    BitChanged(x, i, 0, 8);
    forall j: nat ensures Bit(if on then SetBit(x, i) else ClearBit(x, i), j) <==> if j == i then on else Bit(x, j) {
      BitChanged(x, i, j, 8);
    }
  }

  /** The byte with bit i replaced. */
  function PutBit(x: Byte, i: nat, on: bool): (r: Byte)
    requires i < 8
    ensures forall j: nat :: Bit(r, j) <==> if j == i then on else Bit(x, j)
  {
    BitReplaced(x, i, on);
    if on then SetBit(x, i) else ClearBit(x, i)
  }

  predicate Used(bm: seq<Block>, b: nat)
    requires b < |bm| * BPB
  {
    Bit(bm[b / BPB][b % BPB / 8], b % 8)
  }

  /** The bitmap with the bit of block b replaced. */
  function Mark(bm: seq<Block>, b: nat, used: bool): (r: seq<Block>)
    requires b < |bm| * BPB
    ensures |r| == |bm|
    ensures forall c: nat :: c < |bm| * BPB ==> (Used(r, c) <==> if c == b then used else Used(bm, c))
  {
    bm[b / BPB := bm[b / BPB][b % BPB / 8 := PutBit(bm[b / BPB][b % BPB / 8], b % 8, used)]]
  }
}
