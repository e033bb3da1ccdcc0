/** The free bit map: one bit per disk block, eight to a byte (v3/fs.c, v3/fs.h). */
module Bitmap {
  import opened Blocks

  const BPB: nat := 4096       // BSIZE * 8

  /** x & (1 << k) is nonzero. */
  predicate Bit(x: nat, k: nat) {
    if k == 0 then x % 2 == 1 else Bit(x / 2, k - 1)
  }

  /** x with bit k made equal to `on`: x | (1 << k) or x & ~(1 << k). */
  function PutBit(x: nat, k: nat, on: bool): nat {
    if k == 0 then x / 2 * 2 + (if on then 1 else 0) else PutBit(x / 2, k - 1, on) * 2 + x % 2
  }

  lemma {:induction false} BitOfPutBit(x: nat, k: nat, on: bool, l: nat)
    ensures Bit(PutBit(x, k, on), l) == if l == k then on else Bit(x, l)
  {
    if k > 0 && l > 0 {
      BitOfPutBit(x / 2, k - 1, on, l - 1);
    }
  }

  function Pow2(w: nat): nat {
    if w == 0 then 1 else 2 * Pow2(w - 1)
  }

  lemma {:induction false} PutBitFits(x: nat, k: nat, on: bool, w: nat)
    requires k < w && x < Pow2(w)
    ensures PutBit(x, k, on) < Pow2(w)
  {
    if k > 0 {
      PutBitFits(x / 2, k - 1, on, w - 1);
    }
  }

  function PutByte(x: byte, k: nat, on: bool): byte
    requires k < 8
  {
    assert Pow2(8) == 256 by { assert Pow2(4) == 16; }
    PutBitFits(x, k, on, 8);
    PutBit(x, k, on)
  }

  predicate BitAt(b: Block, i: nat)
    requires i < BPB
  {
    Bit(b.bytes[i / 8], i % 8)
  }

  /** data[bi / 8] |= m, or &= ~m. */
  function SetBit(b: Block, i: nat, on: bool): Block
    requires i < BPB
  {
    Sector(b.bytes[i / 8 := PutByte(b.bytes[i / 8], i % 8, on)])
  }

  lemma BitOfSetBit(b: Block, i: nat, on: bool, j: nat)
    requires i < BPB && j < BPB
    ensures BitAt(SetBit(b, i, on), j) == if j == i then on else BitAt(b, j)
  {
    if i / 8 == j / 8 {
      BitOfPutBit(b.bytes[i / 8], i % 8, on, j % 8);
    }
  }
}
