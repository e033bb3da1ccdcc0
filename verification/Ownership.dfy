/** Which disk blocks belong to which inode, and how this agrees with the free bit map
    (v3/fs.c, v3/fs.h).  Pure definitions and the effect of each elementary change. */
module Ownership {
  import opened Blocks
  import opened Bitmap
  import opened RedoLog

  const NDIRECT: nat := 12
  const NINDIRECT: nat := WORDS
  const MAXFILE: nat := NDIRECT + NINDIRECT

  /** A file refers to blocks through 141 slots: 12 direct addresses, slot 12 for the indirect
      block itself, and the entries of the indirect block from slot 13 on. */
  const INDIRECT: nat := NDIRECT
  const SLOTS: nat := NDIRECT + 1 + NINDIRECT

  type ushort = x: int | 0 <= x < 0x1_0000
  type Addrs = a: seq<uint32> | |a| == NDIRECT + 1 witness seq(NDIRECT + 1, _ => 0)

  /** The part of an inode that lives on disk (struct dinode). */
  datatype Dinode = Dinode(typ: ushort, major: ushort, minor: ushort, nlink: ushort, size: uint32, addrs: Addrs)

  function NoAddrs(): Addrs {
    [0, 0, 0, 0, 0, 0, 0, 0, 0, 0, 0, 0, 0]
  }

  /** Super block fields, and the first data block. */
  datatype Geometry = Geometry(size: nat, datastart: nat, inodestart: nat, ninodes: nat, bmapstart: nat)

  predicate GeometryOk(g: Geometry, blocks: Disk) {
    && 2 <= g.datastart <= g.size <= |blocks| <= UINT
    && g.inodestart + g.ninodes / 8 < g.bmapstart
    && g.bmapstart + g.size / BPB < g.datastart
  }

  predicate DataBlock(g: Geometry, b: nat) {
    g.datastart <= b < g.size
  }

  predicate Marked(g: Geometry, blocks: Disk, b: nat)
    requires GeometryOk(g, blocks) && b < g.size
  {
    BitAt(blocks[MapBlock(g, b)], b % BPB)
  }

  /** The block that slot k of the file refers to, 0 if none. */
  function Ref(f: Dinode, blocks: Disk, k: nat): nat
    requires k < SLOTS
  {
    if k <= INDIRECT then f.addrs[k]
    else if f.addrs[INDIRECT] == 0 || f.addrs[INDIRECT] >= |blocks| then 0
    else WordAt(blocks[f.addrs[INDIRECT]], k - INDIRECT - 1)
  }

  ghost predicate Owned(files: map<nat, Dinode>, blocks: Disk, b: nat) {
    exists i: nat, k: nat :: i in files && k < SLOTS && Ref(files[i], blocks, k) == b
  }

  /** The bit map marks exactly the metadata blocks, the blocks owned by files, each owned
      through one slot of one file, and the `loose` blocks on their way in or out. */
  ghost predicate Own(g: Geometry, files: map<nat, Dinode>, blocks: Disk, loose: set<nat>) {
    && GeometryOk(g, blocks)
    && (forall i: nat, k: nat :: i in files && k < SLOTS && Ref(files[i], blocks, k) != 0 ==>
          DataBlock(g, Ref(files[i], blocks, k)) && Marked(g, blocks, Ref(files[i], blocks, k))
          && Ref(files[i], blocks, k) !in loose)
    && (forall i: nat, k: nat, j: nat, l: nat :: i in files && j in files && k < SLOTS && l < SLOTS
          && Ref(files[i], blocks, k) != 0 && Ref(files[i], blocks, k) == Ref(files[j], blocks, l)
          ==> i == j && k == l)
    && (forall b: nat :: b in loose ==> DataBlock(g, b) && Marked(g, blocks, b))
    && (forall b: nat :: b < g.datastart ==> Marked(g, blocks, b))
    && (forall b: nat :: DataBlock(g, b) && Marked(g, blocks, b) && b !in loose ==> Owned(files, blocks, b))
  }

  // Elementary changes

  /** Only a write to an indirect block can change what slots refer to. */
  lemma RefsKept(f: Dinode, blocks: Disk, x: nat, data: Block)
    requires x < |blocks| && (x == 0 || f.addrs[INDIRECT] != x)
    ensures forall k: nat :: k < SLOTS ==> Ref(f, blocks[x := data], k) == Ref(f, blocks, k)
  {
  }

  /** BBLOCK(b, sb). */
  function MapBlock(g: Geometry, b: nat): nat {
    g.bmapstart + b / BPB
  }

  /** The disk with the bit of block b changed. */
  function Remarked(g: Geometry, blocks: Disk, b: nat, on: bool): Disk
    requires GeometryOk(g, blocks) && b < g.size
  {
    blocks[MapBlock(g, b) := SetBit(blocks[MapBlock(g, b)], b % BPB, on)]
  }

  lemma MarkedAfter(g: Geometry, blocks: Disk, b: nat, on: bool, x: nat)
    requires GeometryOk(g, blocks) && b < g.size && x < g.size
    ensures Marked(g, Remarked(g, blocks, b, on), x) == if x == b then on else Marked(g, blocks, x)
  {
    if MapBlock(g, x) == MapBlock(g, b) {
      BitOfSetBit(blocks[MapBlock(g, b)], b % BPB, on, x % BPB);
    }
  }

  /** The disk after balloc took block b. */
  function Allocated(g: Geometry, blocks: Disk, b: nat): Disk
    requires GeometryOk(g, blocks) && b < g.size
  {
    Remarked(g, blocks, b, true)[b := Zeroes()]
  }

  lemma IndirectIsData(g: Geometry, files: map<nat, Dinode>, blocks: Disk, loose: set<nat>, i: nat)
    requires Own(g, files, blocks, loose) && i in files
    ensures var a := files[i].addrs[INDIRECT]; a == 0 || (DataBlock(g, a) && Marked(g, blocks, a))
    ensures files[i].addrs[INDIRECT] !in loose
  {
    assert Ref(files[i], blocks, INDIRECT) == files[i].addrs[INDIRECT];
  }

  lemma AllocKeepsOwn(g: Geometry, files: map<nat, Dinode>, blocks: Disk, loose: set<nat>, b: nat)
    requires Own(g, files, blocks, loose) && DataBlock(g, b) && !Marked(g, blocks, b)
    ensures Own(g, files, Allocated(g, blocks, b), loose + {b})
    ensures forall i: nat, k: nat :: i in files && k < SLOTS ==>
      Ref(files[i], Allocated(g, blocks, b), k) == Ref(files[i], blocks, k)
  {
    var blocks1, blocks2 := Remarked(g, blocks, b, true), Allocated(g, blocks, b);
    forall i | i in files
      ensures forall k: nat :: k < SLOTS ==> Ref(files[i], blocks2, k) == Ref(files[i], blocks, k)
    {
      IndirectIsData(g, files, blocks, loose, i);
      RefsKept(files[i], blocks, MapBlock(g, b), blocks1[MapBlock(g, b)]);
      RefsKept(files[i], blocks1, b, Zeroes());
    }
    forall x: nat | x < g.size
      ensures Marked(g, blocks2, x) == (x == b || Marked(g, blocks, x))
    {
      MarkedAfter(g, blocks, b, true, x);
    }
    OwnFromSame(g, files, blocks, loose, blocks2, loose + {b});
  }

  /** Same references, and the marks move with the loose blocks: the bit map still agrees. */
  lemma OwnFromSame(g: Geometry, files: map<nat, Dinode>, blocks: Disk, loose: set<nat>, blocks': Disk,
                    loose': set<nat>)
    requires Own(g, files, blocks, loose) && GeometryOk(g, blocks')
    requires forall i: nat, k: nat :: i in files && k < SLOTS ==> Ref(files[i], blocks', k) == Ref(files[i], blocks, k)
    requires forall x: nat :: x < g.size ==>
      (Marked(g, blocks', x) <==> x in loose' || (Marked(g, blocks, x) && x !in loose))
    requires forall x: nat :: x in loose' ==> DataBlock(g, x) && (x in loose || !Marked(g, blocks, x))
    ensures Own(g, files, blocks', loose')
  {
    forall b: nat | DataBlock(g, b) && Marked(g, blocks', b) && b !in loose'
      ensures Owned(files, blocks', b)
    {
      assert Owned(files, blocks, b);
      var i: nat, k: nat :| i in files && k < SLOTS && Ref(files[i], blocks, k) == b;
      assert Ref(files[i], blocks', k) == b;
    }
  }

  /** bmap stores a loose block in one of the addresses that the inode holds itself. */
  function WithAddr(f: Dinode, k: nat, b: uint32): Dinode
    requires k <= INDIRECT
  {
    f.(addrs := f.addrs[k := b])
  }

  lemma AttachRefs(f: Dinode, blocks: Disk, k: nat, b: uint32)
    requires k <= INDIRECT && Ref(f, blocks, k) == 0 && b != 0
    requires k == INDIRECT ==> b < |blocks| && blocks[b] == Zeroes()
    ensures forall l: nat :: l < SLOTS ==> Ref(WithAddr(f, k, b), blocks, l) == if l == k then b else Ref(f, blocks, l)
  {
  }

  lemma AttachKeepsOwn(g: Geometry, files: map<nat, Dinode>, blocks: Disk, loose: set<nat>, i: nat, k: nat, b: uint32)
    requires Own(g, files, blocks, loose) && i in files && k <= INDIRECT && b in loose
    requires Ref(files[i], blocks, k) == 0 && (k == INDIRECT ==> blocks[b] == Zeroes())
    ensures Own(g, files[i := WithAddr(files[i], k, b)], blocks, loose - {b})
  {
    AttachRefs(files[i], blocks, k, b);
    OwnFromAttach(g, files, blocks, loose, files[i := WithAddr(files[i], k, b)], blocks, i, k, b);
  }

  /** bmap stores a loose block in entry e of the file's indirect block. */
  function WithEntry(f: Dinode, blocks: Disk, e: nat, b: uint32): Disk
    requires e < NINDIRECT && f.addrs[INDIRECT] < |blocks|
  {
    blocks[f.addrs[INDIRECT] := SetWord(blocks[f.addrs[INDIRECT]], e, b)]
  }

  lemma EntryRefs(f: Dinode, blocks: Disk, e: nat, b: uint32)
    requires e < NINDIRECT && 0 < f.addrs[INDIRECT] < |blocks|
    ensures forall l: nat :: l < SLOTS ==>
      Ref(f, WithEntry(f, blocks, e, b), l) == if l == INDIRECT + 1 + e then b else Ref(f, blocks, l)
  {
    forall l: nat | INDIRECT < l < SLOTS
      ensures Ref(f, WithEntry(f, blocks, e, b), l) == if l == INDIRECT + 1 + e then b else Ref(f, blocks, l)
    {
      WordOfSetWord(blocks[f.addrs[INDIRECT]], e, b, l - INDIRECT - 1);
    }
  }

  /** Two files never share an indirect block. */
  lemma IndirectsDiffer(g: Geometry, files: map<nat, Dinode>, blocks: Disk, loose: set<nat>, i: nat, j: nat)
    requires Own(g, files, blocks, loose) && i in files && j in files && i != j
    ensures files[i].addrs[INDIRECT] != files[j].addrs[INDIRECT] || files[i].addrs[INDIRECT] == 0
  {
    assert Ref(files[i], blocks, INDIRECT) == files[i].addrs[INDIRECT];
    assert Ref(files[j], blocks, INDIRECT) == files[j].addrs[INDIRECT];
  }

  lemma EntryKeepsOwn(g: Geometry, files: map<nat, Dinode>, blocks: Disk, loose: set<nat>, i: nat, e: nat, b: uint32)
    requires Own(g, files, blocks, loose) && i in files && e < NINDIRECT && b in loose
    requires files[i].addrs[INDIRECT] != 0 && Ref(files[i], blocks, INDIRECT + 1 + e) == 0
    ensures files[i].addrs[INDIRECT] < |blocks|
    ensures Own(g, files, WithEntry(files[i], blocks, e, b), loose - {b})
    ensures forall j: nat, l: nat :: j in files && j != i && l < SLOTS ==>
      Ref(files[j], WithEntry(files[i], blocks, e, b), l) == Ref(files[j], blocks, l)
  {
    IndirectIsData(g, files, blocks, loose, i);
    var blocks' := WithEntry(files[i], blocks, e, b);
    EntryRefs(files[i], blocks, e, b);
    forall j | j in files && j != i
      ensures forall l: nat :: l < SLOTS ==> Ref(files[j], blocks', l) == Ref(files[j], blocks, l)
    {
      IndirectsDiffer(g, files, blocks, loose, i, j);
      RefsKept(files[j], blocks, files[i].addrs[INDIRECT], blocks'[files[i].addrs[INDIRECT]]);
    }
    forall x: nat | x < g.size
      ensures Marked(g, blocks', x) == Marked(g, blocks, x)
    {
    }
    OwnFromAttach(g, files, blocks, loose, files, blocks', i, INDIRECT + 1 + e, b);
  }

  /** One empty slot takes over one loose block, all else stays. */
  lemma OwnFromAttach(g: Geometry, files: map<nat, Dinode>, blocks: Disk, loose: set<nat>,
                      files': map<nat, Dinode>, blocks': Disk, i: nat, k: nat, b: nat)
    requires Own(g, files, blocks, loose) && GeometryOk(g, blocks') && files'.Keys == files.Keys
    requires i in files && k < SLOTS && b in loose && Ref(files[i], blocks, k) == 0
    requires forall j: nat, l: nat :: j in files && l < SLOTS ==>
      Ref(files'[j], blocks', l) == if j == i && l == k then b else Ref(files[j], blocks, l)
    requires forall x: nat :: x < g.size ==> Marked(g, blocks', x) == Marked(g, blocks, x)
    ensures Own(g, files', blocks', loose - {b})
  {
    forall x: nat | DataBlock(g, x) && Marked(g, blocks', x) && x !in loose - {b}
      ensures Owned(files', blocks', x)
    {
      if x == b {
        assert Ref(files'[i], blocks', k) == b;
      } else {
        assert Owned(files, blocks, x);
        var j: nat, l: nat :| j in files && l < SLOTS && Ref(files[j], blocks, l) == x;
        assert Ref(files'[j], blocks', l) == x;
      }
    }
  }

  /** Writing the data of an owned block other than an indirect block. */
  lemma DataKeepsOwn(g: Geometry, files: map<nat, Dinode>, blocks: Disk, loose: set<nat>, i: nat, k: nat, data: Block)
    requires Own(g, files, blocks, loose) && i in files && k < SLOTS && k != INDIRECT && Ref(files[i], blocks, k) != 0
    ensures Ref(files[i], blocks, k) < |blocks|
    ensures Own(g, files, blocks[Ref(files[i], blocks, k) := data], loose)
    ensures forall j: nat, l: nat :: j in files && l < SLOTS ==>
      Ref(files[j], blocks[Ref(files[i], blocks, k) := data], l) == Ref(files[j], blocks, l)
  {
    var x := Ref(files[i], blocks, k);
    forall j | j in files
      ensures forall l: nat :: l < SLOTS ==> Ref(files[j], blocks[x := data], l) == Ref(files[j], blocks, l)
    {
      assert Ref(files[j], blocks, INDIRECT) == files[j].addrs[INDIRECT];
      RefsKept(files[j], blocks, x, data);
    }
    OwnFromSame(g, files, blocks, loose, blocks[x := data], loose);
  }

  /** Writing a metadata block outside the bit map. */
  lemma MetaKeepsOwn(g: Geometry, files: map<nat, Dinode>, blocks: Disk, loose: set<nat>, x: nat, data: Block)
    requires Own(g, files, blocks, loose) && x < g.bmapstart
    ensures Own(g, files, blocks[x := data], loose)
    ensures forall j: nat, l: nat :: j in files && l < SLOTS ==>
              Ref(files[j], blocks[x := data], l) == Ref(files[j], blocks, l)
  {
    forall j | j in files
      ensures forall l: nat :: l < SLOTS ==> Ref(files[j], blocks[x := data], l) == Ref(files[j], blocks, l)
    {
      IndirectIsData(g, files, blocks, loose, j);
      RefsKept(files[j], blocks, x, data);
    }
    OwnFromSame(g, files, blocks, loose, blocks[x := data], loose);
  }

  /** Changing anything about a file but its addresses. */
  lemma HeaderKeepsOwn(g: Geometry, files: map<nat, Dinode>, blocks: Disk, loose: set<nat>, i: nat, f: Dinode)
    requires Own(g, files, blocks, loose) && i in files && f.addrs == files[i].addrs
    ensures Own(g, files[i := f], blocks, loose)
  {
    var files' := files[i := f];
    assert forall k: nat :: k < SLOTS ==> Ref(f, blocks, k) == Ref(files[i], blocks, k);
    forall b: nat | DataBlock(g, b) && Marked(g, blocks, b) && b !in loose
      ensures Owned(files', blocks, b)
    {
      assert Owned(files, blocks, b);
      var j: nat, l: nat :| j in files && l < SLOTS && Ref(files[j], blocks, l) == b;
      assert Ref(files'[j], blocks, l) == b;
    }
  }

  // Freeing

  /** All the blocks a file refers to. */
  ghost function Holdings(f: Dinode, blocks: Disk): set<nat> {
    set k: nat | k < SLOTS && Ref(f, blocks, k) != 0 :: Ref(f, blocks, k)
  }

  /** A file let go of its blocks: they are loose now. */
  lemma DetachKeepsOwn(g: Geometry, files: map<nat, Dinode>, blocks: Disk, loose: set<nat>, i: nat, f': Dinode)
    requires Own(g, files, blocks, loose) && i in files && f'.addrs == NoAddrs()
    ensures Own(g, files[i := f'], blocks, loose + Holdings(files[i], blocks))
    ensures Holdings(files[i], blocks) !! loose
  {
    var files' := files[i := f'];
    assert forall k: nat :: k < SLOTS ==> Ref(f', blocks, k) == 0;
    forall b: nat | DataBlock(g, b) && Marked(g, blocks, b) && b !in loose && b !in Holdings(files[i], blocks)
      ensures Owned(files', blocks, b)
    {
      assert Owned(files, blocks, b);
      var j: nat, l: nat :| j in files && l < SLOTS && Ref(files[j], blocks, l) == b;
      assert j != i && Ref(files'[j], blocks, l) == b;
    }
  }

  /** A file without blocks can go. */
  lemma DropKeepsOwn(g: Geometry, files: map<nat, Dinode>, blocks: Disk, loose: set<nat>, i: nat)
    requires Own(g, files, blocks, loose) && i in files && files[i].addrs == NoAddrs()
    ensures Own(g, files - {i}, blocks, loose)
  {
    forall b: nat | DataBlock(g, b) && Marked(g, blocks, b) && b !in loose
      ensures Owned(files - {i}, blocks, b)
    {
      assert Owned(files, blocks, b);
      var j: nat, l: nat :| j in files && l < SLOTS && Ref(files[j], blocks, l) == b;
      assert j != i && Ref((files - {i})[j], blocks, l) == b;
    }
  }

  /** bfree of a loose block; it cannot be free already. */
  lemma FreeKeepsOwn(g: Geometry, files: map<nat, Dinode>, blocks: Disk, loose: set<nat>, b: nat)
    requires Own(g, files, blocks, loose) && b in loose
    ensures Marked(g, blocks, b)
    ensures Own(g, files, Remarked(g, blocks, b, false), loose - {b})
    ensures forall j: nat, l: nat :: j in files && l < SLOTS ==>
      Ref(files[j], Remarked(g, blocks, b, false), l) == Ref(files[j], blocks, l)
  {
    var blocks' := Remarked(g, blocks, b, false);
    forall j | j in files
      ensures forall l: nat :: l < SLOTS ==> Ref(files[j], blocks', l) == Ref(files[j], blocks, l)
    {
      IndirectIsData(g, files, blocks, loose, j);
      RefsKept(files[j], blocks, MapBlock(g, b), blocks'[MapBlock(g, b)]);
    }
    forall x: nat | x < g.size
      ensures Marked(g, blocks', x) == (x != b && Marked(g, blocks, x))
    {
      MarkedAfter(g, blocks, b, false, x);
    }
    OwnFromSame(g, files, blocks, loose, blocks', loose - {b});
  }

  // What a change leaves alone

  /** Files other than i refer to the same blocks as before, and nonzero data references of
      every file keep their target and its contents. */
  ghost predicate Kept(files: map<nat, Dinode>, blocks: Disk, files': map<nat, Dinode>, blocks': Disk, i: nat) {
    && files'.Keys == files.Keys && |blocks'| == |blocks|
    && (forall j: nat :: j in files && j != i ==> files'[j] == files[j])
    && (forall j: nat, l: nat :: j in files && l < SLOTS && (j != i || Ref(files[j], blocks, l) != 0) ==>
          Ref(files'[j], blocks', l) == Ref(files[j], blocks, l))
    && (forall j: nat, l: nat :: j in files && l < SLOTS && l != INDIRECT && 0 < Ref(files[j], blocks, l) < |blocks| ==>
          blocks'[Ref(files[j], blocks, l)] == blocks[Ref(files[j], blocks, l)])
  }

  lemma KeptTransitive(files: map<nat, Dinode>, blocks: Disk, files1: map<nat, Dinode>, blocks1: Disk,
                       files2: map<nat, Dinode>, blocks2: Disk, i: nat)
    requires Kept(files, blocks, files1, blocks1, i) && Kept(files1, blocks1, files2, blocks2, i)
    ensures Kept(files, blocks, files2, blocks2, i)
  {
    forall j: nat, l: nat | j in files && l < SLOTS && l != INDIRECT && 0 < Ref(files[j], blocks, l) < |blocks|
      ensures blocks2[Ref(files[j], blocks, l)] == blocks[Ref(files[j], blocks, l)]
    {
      assert Ref(files1[j], blocks1, l) == Ref(files[j], blocks, l);
    }
  }

  lemma AllocKeeps(g: Geometry, files: map<nat, Dinode>, blocks: Disk, loose: set<nat>, b: nat, i: nat)
    requires Own(g, files, blocks, loose) && DataBlock(g, b) && !Marked(g, blocks, b)
    ensures Kept(files, blocks, files, Allocated(g, blocks, b), i)
  {
    AllocKeepsOwn(g, files, blocks, loose, b);
  }

  lemma AttachKeeps(g: Geometry, files: map<nat, Dinode>, blocks: Disk, loose: set<nat>, i: nat, k: nat, b: uint32)
    requires Own(g, files, blocks, loose) && i in files && k <= INDIRECT && b in loose
    requires Ref(files[i], blocks, k) == 0 && (k == INDIRECT ==> blocks[b] == Zeroes())
    ensures Kept(files, blocks, files[i := WithAddr(files[i], k, b)], blocks, i)
  {
    AttachRefs(files[i], blocks, k, b);
  }

  lemma EntryKeeps(g: Geometry, files: map<nat, Dinode>, blocks: Disk, loose: set<nat>, i: nat, e: nat, b: uint32)
    requires Own(g, files, blocks, loose) && i in files && e < NINDIRECT && b in loose
    requires 0 < files[i].addrs[INDIRECT] < |blocks| && Ref(files[i], blocks, INDIRECT + 1 + e) == 0
    ensures Kept(files, blocks, files, WithEntry(files[i], blocks, e, b), i)
  {
    EntryKeepsOwn(g, files, blocks, loose, i, e, b);
    EntryRefs(files[i], blocks, e, b);
    assert Ref(files[i], blocks, INDIRECT) == files[i].addrs[INDIRECT];
  }

  /** The slots outside `changed` refer to the same blocks. */
  ghost predicate SlotsKept(f: Dinode, blocks: Disk, f': Dinode, blocks': Disk, changed: set<nat>) {
    forall l: nat :: l < SLOTS && l !in changed ==> Ref(f', blocks', l) == Ref(f, blocks, l)
  }

  /** balloc, stored in an address of inode i. */
  lemma AllocAttach(g: Geometry, files: map<nat, Dinode>, blocks: Disk, loose: set<nat>, i: nat, k: nat, b: uint32)
    requires Own(g, files, blocks, loose) && i in files && k <= INDIRECT && files[i].addrs[k] == 0
    requires DataBlock(g, b) && !Marked(g, blocks, b)
    ensures var f', blocks' := WithAddr(files[i], k, b), Allocated(g, blocks, b);
      && Own(g, files[i := f'], blocks', loose) && Kept(files, blocks, files[i := f'], blocks', i)
      && SlotsKept(files[i], blocks, f', blocks', {k})
  {
    var blocks1 := Allocated(g, blocks, b);
    AllocKeepsOwn(g, files, blocks, loose, b);
    AllocKeeps(g, files, blocks, loose, b, i);
    AttachRefs(files[i], blocks1, k, b);
    AttachKeepsOwn(g, files, blocks1, loose + {b}, i, k, b);
    AttachKeeps(g, files, blocks1, loose + {b}, i, k, b);
    KeptTransitive(files, blocks, files, blocks1, files[i := WithAddr(files[i], k, b)], blocks1, i);
    assert loose + {b} - {b} == loose;
  }

  lemma FreeIsNotLoose(g: Geometry, files: map<nat, Dinode>, blocks: Disk, loose: set<nat>, b: nat)
    requires Own(g, files, blocks, loose) && DataBlock(g, b) && !Marked(g, blocks, b)
    ensures GeometryOk(g, blocks) && b !in loose && loose + {b} - {b} == loose
  {
  }

  /** balloc, stored in an entry of inode i's indirect block. */
  lemma AllocEntered(g: Geometry, files: map<nat, Dinode>, blocks: Disk, loose: set<nat>, i: nat, e: nat, b: uint32)
    requires Own(g, files, blocks, loose) && i in files && e < NINDIRECT
    requires files[i].addrs[INDIRECT] != 0 && Ref(files[i], blocks, INDIRECT + 1 + e) == 0
    requires DataBlock(g, b) && !Marked(g, blocks, b)
    ensures files[i].addrs[INDIRECT] < |blocks|
    ensures var blocks' := WithEntry(files[i], Allocated(g, blocks, b), e, b);
      && Own(g, files, blocks', loose) && Kept(files, blocks, files, blocks', i)
      && SlotsKept(files[i], blocks, files[i], blocks', {INDIRECT + 1 + e})
      && Ref(files[i], blocks', INDIRECT + 1 + e) == b
  {
    hide Own, Kept;
    FreeIsNotLoose(g, files, blocks, loose, b);
    var blocks1 := Allocated(g, blocks, b);
    IndirectIsData(g, files, blocks, loose, i);
    AllocKeepsOwn(g, files, blocks, loose, b);
    AllocKeeps(g, files, blocks, loose, b, i);
    EntryRefs(files[i], blocks1, e, b);
    EntryKeepsOwn(g, files, blocks1, loose + {b}, i, e, b);
    EntryKeeps(g, files, blocks1, loose + {b}, i, e, b);
    KeptTransitive(files, blocks, files, blocks1, files, WithEntry(files[i], blocks1, e, b), i);
  }
}
