/** Disk blocks as 512 bytes, with the little-endian 32-bit word view that the log
    header, indirect blocks and on-disk inodes use (v3/fs.h, v3/types.h). */
module Blocks {
  const BSIZE: nat := 512
  const WORDS: nat := 128            // BSIZE / sizeof(uint), also NINDIRECT
  const UINT: nat := 0x1_0000_0000   // one past the largest uint

  type byte = x: int | 0 <= x < 256
  type uint32 = x: int | 0 <= x < UINT
  datatype Sector = Sector(bytes: seq<byte>)
  type Block = b: Sector | |b.bytes| == BSIZE witness Sector(seq(BSIZE, _ => 0 as byte))

  function Zeroes(): (b: Block)
    ensures forall i :: 0 <= i < WORDS ==> WordAt(b, i) == 0
  {
    Sector(seq(BSIZE, _ => 0))
  }

  /** The i-th uint of a block. */
  function WordAt(b: Block, i: nat): uint32
    requires i < WORDS
  {
    var b0: int, b1: int, b2: int, b3: int :=
      b.bytes[4 * i], b.bytes[4 * i + 1], b.bytes[4 * i + 2], b.bytes[4 * i + 3];
    b0 + 0x100 * b1 + 0x1_0000 * b2 + 0x100_0000 * b3
  }

  /** The block with its i-th uint overwritten. */
  function SetWord(b: Block, i: nat, v: uint32): Block
    requires i < WORDS
  {
    Sector(b.bytes[4 * i := v % 0x100]
                  [4 * i + 1 := v / 0x100 % 0x100]
                  [4 * i + 2 := v / 0x1_0000 % 0x100]
                  [4 * i + 3 := v / 0x100_0000])
  }

  lemma WordOfSetWord(b: Block, i: nat, v: uint32, j: nat)
    requires i < WORDS && j < WORDS
    ensures WordAt(SetWord(b, i, v), j) == if i == j then v else WordAt(b, j)
  {
    if i == j {
      SplitWord(v);
    }
  }

  lemma SplitWord(v: uint32)
    ensures v == v % 0x100 + 0x100 * (v / 0x100 % 0x100)
              + 0x1_0000 * (v / 0x1_0000 % 0x100) + 0x100_0000 * (v / 0x100_0000)
  {
    assert v / 0x1_0000 == v / 0x100 / 0x100;
    assert v / 0x100_0000 == v / 0x1_0000 / 0x100;
  }
}
