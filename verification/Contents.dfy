/** The bytes of a file, seen through its block map, and the on-disk form of an inode. */
module Contents {
  import opened Blocks
  import opened RedoLog
  import opened Ownership

  const MAXBYTES: nat := MAXFILE * BSIZE

  /** The slot of the file's block bn. */
  function SlotOf(bn: nat): nat
    requires bn < MAXFILE
  {
    if bn < NDIRECT then bn else bn + 1
  }

  /** Byte p lies in an allocated block. */
  predicate Mapped(f: Dinode, blocks: Disk, p: nat)
    requires p < MAXBYTES
  {
    Ref(f, blocks, SlotOf(p / BSIZE)) != 0
  }

  function Peek(f: Dinode, blocks: Disk, p: nat): byte
    requires p < MAXBYTES
  {
    var b := Ref(f, blocks, SlotOf(p / BSIZE));
    if b < |blocks| then blocks[b].bytes[p % BSIZE] else 0
  }

  ghost predicate NoHoles(f: Dinode, blocks: Disk) {
    f.size <= MAXBYTES && forall p: nat :: p < f.size ==> Mapped(f, blocks, p)
  }

  /** The contents of the file. */
  function Bytes(f: Dinode, blocks: Disk): seq<byte>
    requires f.size <= MAXBYTES
  {
    seq(f.size, p requires 0 <= p < f.size => Peek(f, blocks, p))
  }

  /** Files other than i are exactly as before, block for block. */
  ghost predicate OthersKept(files: map<nat, Dinode>, blocks: Disk, files': map<nat, Dinode>, blocks': Disk, i: nat) {
    && files'.Keys == files.Keys && |blocks'| == |blocks|
    && (forall j: nat :: j in files && j != i ==> files'[j] == files[j])
    && (forall j: nat, l: nat :: j in files && j != i && l < SLOTS ==>
          Ref(files'[j], blocks', l) == Ref(files[j], blocks, l))
    && (forall j: nat, l: nat ::
          j in files && j != i && l < SLOTS && l != INDIRECT && 0 < Ref(files[j], blocks, l) < |blocks| ==>
          blocks'[Ref(files[j], blocks, l)] == blocks[Ref(files[j], blocks, l)])
  }

  lemma OthersTransitive(files: map<nat, Dinode>, blocks: Disk, files1: map<nat, Dinode>, blocks1: Disk,
                         files2: map<nat, Dinode>, blocks2: Disk, i: nat)
    ensures OthersKept(files, blocks, files1, blocks1, i) && OthersKept(files1, blocks1, files2, blocks2, i)
            ==> OthersKept(files, blocks, files2, blocks2, i)
  {
  }

  /** No change to file i shows in the contents of another file. */
  lemma OthersReadSame(g: Geometry, files: map<nat, Dinode>, blocks: Disk, loose: set<nat>,
                       files': map<nat, Dinode>, blocks': Disk, i: nat, j: nat)
    requires Own(g, files, blocks, loose) && OthersKept(files, blocks, files', blocks', i) && j in files && j != i
    requires NoHoles(files[j], blocks)
    ensures NoHoles(files'[j], blocks') && Bytes(files'[j], blocks') == Bytes(files[j], blocks)
  {
    forall p: nat | p < files[j].size
      ensures Mapped(files[j], blocks', p) && Peek(files[j], blocks', p) == Peek(files[j], blocks, p)
    {
      var l := SlotOf(p / BSIZE);
      assert Mapped(files[j], blocks, p);
      assert Ref(files'[j], blocks', l) == Ref(files[j], blocks, l);
    }
  }

  /** Allocation leaves every byte that was there. */
  lemma KeptPeek(g: Geometry, files: map<nat, Dinode>, blocks: Disk, loose: set<nat>,
                 files': map<nat, Dinode>, blocks': Disk, i: nat, p: nat)
    requires Own(g, files, blocks, loose) && Kept(files, blocks, files', blocks', i) && i in files && p < MAXBYTES
    requires Mapped(files[i], blocks, p)
    ensures Mapped(files'[i], blocks', p) && Peek(files'[i], blocks', p) == Peek(files[i], blocks, p)
  {
    var l := SlotOf(p / BSIZE);
    assert Ref(files'[i], blocks', l) == Ref(files[i], blocks, l);
  }

  /** Writing one block of file i changes the bytes of that block and no others. */
  lemma PokePeek(g: Geometry, files: map<nat, Dinode>, blocks: Disk, loose: set<nat>, i: nat, bn: nat, data: Block,
                 p: nat)
    requires Own(g, files, blocks, loose) && i in files && bn < MAXFILE && p < MAXBYTES
    requires Ref(files[i], blocks, SlotOf(bn)) != 0
    ensures Ref(files[i], blocks, SlotOf(bn)) < |blocks|
    ensures var blocks' := blocks[Ref(files[i], blocks, SlotOf(bn)) := data];
      && (Mapped(files[i], blocks', p) <==> Mapped(files[i], blocks, p))
      && Peek(files[i], blocks', p) == if p / BSIZE == bn then data.bytes[p % BSIZE] else Peek(files[i], blocks, p)
  {
    DataKeepsOwn(g, files, blocks, loose, i, SlotOf(bn), data);
    var x := Ref(files[i], blocks, SlotOf(bn));
    var l := SlotOf(p / BSIZE);
    assert Ref(files[i], blocks[x := data], l) == Ref(files[i], blocks, l);
    assert p / BSIZE != bn ==> Ref(files[i], blocks, l) != x;
  }

  lemma PokeOthers(g: Geometry, files: map<nat, Dinode>, blocks: Disk, loose: set<nat>, i: nat, bn: nat, data: Block)
    requires Own(g, files, blocks, loose) && i in files && bn < MAXFILE && Ref(files[i], blocks, SlotOf(bn)) != 0
    ensures Ref(files[i], blocks, SlotOf(bn)) < |blocks|
    ensures OthersKept(files, blocks, files, blocks[Ref(files[i], blocks, SlotOf(bn)) := data], i)
  {
    DataKeepsOwn(g, files, blocks, loose, i, SlotOf(bn), data);
  }

  /** The block with `chunk` copied in at offset o. */
  function Overlay(b: Block, o: nat, chunk: seq<byte>): Block
    requires o + |chunk| <= BSIZE
  {
    Sector(b.bytes[..o] + chunk + b.bytes[o + |chunk|..])
  }

  /** bmap followed by a copy into the block: the file has the chunk at offset `off` and its
      other bytes as before. */
  lemma ChunkPeek(g: Geometry, files: map<nat, Dinode>, blocks: Disk, loose: set<nat>,
                  files': map<nat, Dinode>, blocks': Disk, i: nat, off: nat, chunk: seq<byte>, p: nat)
    requires Own(g, files, blocks, loose) && Own(g, files', blocks', loose) && Kept(files, blocks, files', blocks', i)
    requires i in files && off % BSIZE + |chunk| <= BSIZE && off < MAXBYTES && p < MAXBYTES
    requires Ref(files'[i], blocks', SlotOf(off / BSIZE)) != 0
    ensures Ref(files'[i], blocks', SlotOf(off / BSIZE)) < |blocks'|
    ensures var x := Ref(files'[i], blocks', SlotOf(off / BSIZE));
      var last := blocks'[x := Overlay(blocks'[x], off % BSIZE, chunk)];
      && (off <= p < off + |chunk| ==> Mapped(files'[i], last, p) && Peek(files'[i], last, p) == chunk[p - off])
      && (!(off <= p < off + |chunk|) && Mapped(files[i], blocks, p) ==>
            Mapped(files'[i], last, p) && Peek(files'[i], last, p) == Peek(files[i], blocks, p))
  {
    var x := Ref(files'[i], blocks', SlotOf(off / BSIZE));
    DataKeepsOwn(g, files', blocks', loose, i, SlotOf(off / BSIZE), blocks'[0]);
    PokePeek(g, files', blocks', loose, i, off / BSIZE, Overlay(blocks'[x], off % BSIZE, chunk), p);
    if Mapped(files[i], blocks, p) {
      KeptPeek(g, files, blocks, loose, files', blocks', i, p);
    }
  }

  /** Bytes lo..hi of src, which starts at file offset off, are in the file; its other allocated
      bytes are as before. */
  ghost predicate Written(f: Dinode, blocks: Disk, f': Dinode, blocks': Disk,
                          off: nat, src: seq<byte>, lo: nat, hi: nat)
    requires lo <= hi <= |src| && off + |src| <= MAXBYTES
  {
    && (forall p: nat :: off + lo <= p < off + hi ==> Mapped(f', blocks', p) && Peek(f', blocks', p) == src[p - off])
    && (forall p: nat :: p < MAXBYTES && !(off + lo <= p < off + hi) && Mapped(f, blocks, p) ==>
          Mapped(f', blocks', p) && Peek(f', blocks', p) == Peek(f, blocks, p))
  }

  lemma ChunkWritten(g: Geometry, files: map<nat, Dinode>, blocks: Disk, loose: set<nat>,
                     files': map<nat, Dinode>, blocks': Disk, i: nat, off: nat, src: seq<byte>, lo: nat, hi: nat)
    requires Own(g, files, blocks, loose) && Own(g, files', blocks', loose) && Kept(files, blocks, files', blocks', i)
    requires i in files && lo < hi <= |src| && (off + lo) % BSIZE + hi - lo <= BSIZE && off + |src| <= MAXBYTES
    requires Ref(files'[i], blocks', SlotOf((off + lo) / BSIZE)) != 0
    ensures Ref(files'[i], blocks', SlotOf((off + lo) / BSIZE)) < |blocks'|
    ensures var x := Ref(files'[i], blocks', SlotOf((off + lo) / BSIZE));
      Written(files[i], blocks, files'[i], blocks'[x := Overlay(blocks'[x], (off + lo) % BSIZE, src[lo..hi])],
              off, src, lo, hi)
  {
    hide Mapped, Peek, Ref, Overlay, Marked, Owned;
    var x := Ref(files'[i], blocks', SlotOf((off + lo) / BSIZE));
    assert x < |blocks'| by {
      DataKeepsOwn(g, files', blocks', loose, i, SlotOf((off + lo) / BSIZE), blocks'[0]);
    }
    var f, f', last := files[i], files'[i], blocks'[x := Overlay(blocks'[x], (off + lo) % BSIZE, src[lo..hi])];
    forall p: nat | p < MAXBYTES
      ensures off + lo <= p < off + hi ==> Mapped(f', last, p) && Peek(f', last, p) == src[p - off]
      ensures !(off + lo <= p < off + hi) && Mapped(f, blocks, p) ==>
                Mapped(f', last, p) && Peek(f', last, p) == Peek(f, blocks, p)
    {
      ChunkPeek(g, files, blocks, loose, files', blocks', i, off + lo, src[lo..hi], p);
    }
  }

  lemma WrittenExtends(f: Dinode, blocks: Disk, f1: Dinode, blocks1: Disk, f2: Dinode, blocks2: Disk,
                       off: nat, src: seq<byte>, lo: nat, mid: nat, hi: nat)
    requires lo <= mid <= hi <= |src| && off + |src| <= MAXBYTES
    ensures Written(f, blocks, f1, blocks1, off, src, lo, mid) && Written(f1, blocks1, f2, blocks2, off, src, mid, hi)
            ==> Written(f, blocks, f2, blocks2, off, src, lo, hi)
  {
  }

  /** `src` laid over `was` from offset off, which is at most its end. */
  function Splice(was: seq<byte>, off: nat, src: seq<byte>): seq<byte>
    requires off <= |was|
  {
    was[..off] + src + if off + |src| < |was| then was[off + |src|..] else []
  }

  lemma BytesLength(f: Dinode, blocks: Disk)
    requires f.size <= MAXBYTES
    ensures |Bytes(f, blocks)| == f.size
  {
  }

  lemma SpliceTwice(was: seq<byte>, off: nat, a: seq<byte>, b: seq<byte>)
    requires off <= |was|
    ensures off + |a| <= |Splice(was, off, a)|
    ensures Splice(Splice(was, off, a), off + |a|, b) == Splice(was, off, a + b)
  {
  }

  lemma SameAddrsSameRefs(f: Dinode, f': Dinode, blocks: Disk)
    requires f.addrs == f'.addrs
    ensures forall k: nat :: k < SLOTS ==> Ref(f', blocks, k) == Ref(f, blocks, k)
  {
  }

  /** writei as a whole, on a file without holes. */
  lemma WrittenBytes(f: Dinode, blocks: Disk, f1: Dinode, f': Dinode, blocks': Disk, off: nat, src: seq<byte>)
    requires NoHoles(f, blocks) && off <= f.size && off + |src| <= MAXBYTES
    requires Written(f, blocks, f1, blocks', off, src, 0, |src|) && f'.addrs == f1.addrs
    requires f'.size == if off + |src| > f.size then off + |src| else f.size
    ensures NoHoles(f', blocks') && Bytes(f', blocks') == Splice(Bytes(f, blocks), off, src)
  {
    SameAddrsSameRefs(f1, f', blocks');
    var was, now := Bytes(f, blocks), Splice(Bytes(f, blocks), off, src);
    assert |now| == f'.size;
    forall p: nat | p < f'.size
      ensures Mapped(f', blocks', p) && Peek(f', blocks', p) == now[p]
    {
      if off <= p < off + |src| {
        assert Mapped(f1, blocks', p);
      } else {
        assert Mapped(f, blocks, p) && Mapped(f1, blocks', p);
        assert now[p] == was[p];
      }
    }
  }

  // The on-disk inode: sixteen words, eight inodes to a block

  const IPB: nat := 8

  function InodeWords(f: Dinode): (ws: seq<uint32>)
    ensures |ws| == 16
  {
    var typ: int, major: int, minor: int, nlink: int := f.typ, f.major, f.minor, f.nlink;
    var w0: uint32, w1: uint32 := typ + 0x1_0000 * major, minor + 0x1_0000 * nlink;
    [w0, w1, f.size] + f.addrs
  }

  /** n words of the block from word `at` on. */
  function WordsAt(b: Block, at: nat, n: nat): (ws: seq<uint32>)
    requires at + n <= WORDS
    ensures |ws| == n && forall k :: 0 <= k < n ==> ws[k] == WordAt(b, at + k)
  {
    seq<uint32>(n, k requires 0 <= k < n => WordAt(b, at + k))
  }

  function FromWords(ws: seq<uint32>): Dinode
    requires |ws| == 16
  {
    Dinode(ws[0] % 0x1_0000, ws[0] / 0x1_0000, ws[1] % 0x1_0000, ws[1] / 0x1_0000, ws[2], ws[3..])
  }

  lemma WordsRoundTrip(f: Dinode)
    ensures FromWords(InodeWords(f)) == f
  {
    assert InodeWords(f)[3..] == f.addrs;
  }

  function InodeAt(b: Block, slot: nat): Dinode
    requires slot < IPB
  {
    FromWords(WordsAt(b, 16 * slot, 16))
  }

  /** The block with the first k words of `ws` stored from word `at` on. */
  function PutWords(b: Block, at: nat, ws: seq<uint32>, k: nat): Block
    requires k <= |ws| && at + |ws| <= WORDS
  {
    if k == 0 then b else SetWord(PutWords(b, at, ws, k - 1), at + k - 1, ws[k - 1])
  }

  lemma {:induction false} PutWordsAt(b: Block, at: nat, ws: seq<uint32>, k: nat, j: nat)
    requires k <= |ws| && at + |ws| <= WORDS && j < WORDS
    ensures WordAt(PutWords(b, at, ws, k), j) == if at <= j < at + k then ws[j - at] else WordAt(b, j)
  {
    if k > 0 {
      PutWordsAt(b, at, ws, k - 1, j);
      WordOfSetWord(PutWords(b, at, ws, k - 1), at + k - 1, ws[k - 1], j);
    }
  }

  /** Stored words are read back; words elsewhere are undisturbed. */
  lemma PutWordsBack(b: Block, at: nat, ws: seq<uint32>, other: nat)
    requires at + |ws| <= WORDS && other + |ws| <= WORDS
    requires other == at || other + |ws| <= at || at + |ws| <= other
    ensures WordsAt(PutWords(b, at, ws, |ws|), other, |ws|) == if other == at then ws else WordsAt(b, other, |ws|)
  {
    var got := WordsAt(PutWords(b, at, ws, |ws|), other, |ws|);
    var want := if other == at then ws else WordsAt(b, other, |ws|);
    forall k | 0 <= k < |ws|
      ensures got[k] == want[k]
    {
      PutWordsAt(b, at, ws, |ws|, other + k);
    }
  }

  function PutInode(b: Block, slot: nat, f: Dinode): Block
    requires slot < IPB
  {
    PutWords(b, 16 * slot, InodeWords(f), |InodeWords(f)|)
  }

  /** iupdate stores what ilock will read back, and disturbs no neighbour in the block. */
  lemma InodeRoundTrip(b: Block, slot: nat, f: Dinode, other: nat)
    requires slot < IPB && other < IPB
    ensures InodeAt(PutInode(b, slot, f), other) == if other == slot then f else InodeAt(b, other)
  {
    PutWordsBack(b, 16 * slot, InodeWords(f), 16 * other);
    WordsRoundTrip(f);
  }

  function InodeBlock(g: Geometry, i: nat): nat {
    g.inodestart + i / IPB
  }

  /** The inode as the disk has it. */
  function OnDisk(g: Geometry, blocks: Disk, i: nat): Dinode
    requires GeometryOk(g, blocks) && i < g.ninodes
  {
    InodeAt(blocks[InodeBlock(g, i)], i % IPB)
  }

  lemma UpdateOnDisk(g: Geometry, blocks: Disk, i: nat, f: Dinode, j: nat)
    requires GeometryOk(g, blocks) && i < g.ninodes && j < g.ninodes
    ensures var b := InodeBlock(g, i);
      OnDisk(g, blocks[b := PutInode(blocks[b], i % IPB, f)], j) == if j == i then f else OnDisk(g, blocks, j)
  {
    InodeRoundTrip(blocks[InodeBlock(g, i)], i % IPB, f, j % IPB);
  }
}
