/** Block allocation and file contents (v3/fs.c) over the logical disk that the buffer cache
    and the log provide: reading a block sees its latest contents, log_write replaces them. */
module FileSystem {
  import opened Blocks
  import opened Bitmap
  import opened LogProtocol
  import opened RedoLog
  import opened Ownership
  import opened Contents

  /** The cached copy of an inode (struct inode). */
  class Inode {
    const inum: nat
    var typ: ushort
    var major: ushort
    var minor: ushort
    var nlink: ushort
    var size: uint32
    const addrs: array<uint32>

    constructor (inum: nat, f: Dinode)
      ensures this.inum == inum && fresh(addrs) && Valid() && Value() == f
    {
      this.inum, typ, major, minor, nlink, size := inum, f.typ, f.major, f.minor, f.nlink, f.size;
      addrs := new uint32[NDIRECT + 1](i requires 0 <= i < NDIRECT + 1 => f.addrs[i]);
    }

    predicate Valid() {
      addrs.Length == NDIRECT + 1
    }

    function Value(): Dinode
      requires Valid()
      reads this, addrs
    {
      Dinode(typ, major, minor, nlink, size, addrs[..])
    }
  }

  lemma SameMapBlock(g: Geometry, b: nat)
    requires b % BPB == 0
    ensures forall x: nat :: b <= x < b + BPB ==> MapBlock(g, x) == MapBlock(g, b) && x % BPB == x - b
  {
  }

  /** Blocks in front of the bit map, the inodes among them, are unchanged. */
  ghost predicate SameMeta(g: Geometry, blocks: Disk, blocks': Disk) {
    |blocks| == |blocks'| && forall b :: 0 <= b < g.bmapstart && b < |blocks| ==> blocks'[b] == blocks[b]
  }

  /** How many blocks bmap allocates for block bn. */
  function AllocCount(f: Dinode, blocks: Disk, bn: nat): nat
    requires bn < MAXFILE
  {
    if Ref(f, blocks, SlotOf(bn)) != 0 then 0
    else if bn < NDIRECT || f.addrs[INDIRECT] != 0 then 1 else 2
  }

  lemma MetaTwice(g: Geometry, a: Disk, b: Disk, c: Disk)
    requires SameMeta(g, a, b) && SameMeta(g, b, c)
    ensures SameMeta(g, a, c)
  {
  }

  lemma TwoMaps(g: Geometry, maps: set<nat>, n: nat, maps': set<nat>, n': nat)
    requires MapsUsed(g, maps, n) && MapsUsed(g, maps', n')
    ensures MapsUsed(g, maps + maps', n + n')
  {
    assert |maps + maps'| <= |maps| + |maps'|;
  }

  lemma SlotSame(f: Dinode, blocks: Disk, f': Dinode, blocks': Disk, k: nat, l: nat)
    requires SlotsKept(f, blocks, f', blocks', {k}) && l != k && l < SLOTS
    ensures Ref(f', blocks', l) == Ref(f, blocks, l)
  {
  }

  lemma SlotsTwice(f: Dinode, blocks: Disk, f1: Dinode, blocks1: Disk, f2: Dinode, blocks2: Disk, k: nat, l: nat)
    requires SlotsKept(f, blocks, f1, blocks1, {k}) && SlotsKept(f1, blocks1, f2, blocks2, {l})
    ensures SlotsKept(f, blocks, f2, blocks2, {l, k})
  {
    hide Ref;
  }

  /** The data blocks and the bit map blocks that a write logs. */
  datatype Cost = Cost(data: set<nat>, maps: set<nat>)

  /** A write of so many rounds logged no more than these, and the indirect block.  The bit map
      is touched once per round, less the first if its block was there, plus once if the
      indirect block had to be allocated. */
  ghost predicate Spent(g: Geometry, logged: set<nat>, logged': set<nat>, cost: Cost, ind: nat, ind': nat, rounds: nat,
                        firstMapped: bool) {
    && logged' <= logged + cost.data + cost.maps + (if ind' == 0 then {} else {ind'})
    && (ind != 0 ==> ind' == ind)
    && |cost.data| <= rounds
    && MapsUsed(g, cost.maps, rounds - (if firstMapped && rounds > 0 then 1 else 0) + (if ind != ind' then 1 else 0))
  }

  /** One round: bmap and the write of the data block. */
  lemma SpentOnChunk(g: Geometry, logged: set<nat>, logged1: set<nat>, addr: nat, maps: set<nat>,
                     f: Dinode, blocks: Disk, ind': nat, bn: nat)
    requires bn < MAXFILE && logged1 <= logged + {addr} + maps + (if bn < NDIRECT then {} else {ind'})
    requires MapsUsed(g, maps, AllocCount(f, blocks, bn)) && (bn >= NDIRECT ==> ind' != 0)
    requires ind' == f.addrs[INDIRECT] || (f.addrs[INDIRECT] == 0 && bn >= NDIRECT)
    ensures Spent(g, logged, logged1 + {addr}, Cost({addr}, maps), f.addrs[INDIRECT], ind', 1,
                  Ref(f, blocks, SlotOf(bn)) != 0)
  {
  }

  lemma SpentStep(g: Geometry, logged: set<nat>, logged1: set<nat>, logged2: set<nat>, cost: Cost, more: Cost,
                  ind: nat, ind1: nat, ind2: nat, rounds: nat, firstMapped: bool, nowMapped: bool)
    requires Spent(g, logged, logged1, cost, ind, ind1, rounds, firstMapped)
    requires Spent(g, logged1, logged2, more, ind1, ind2, 1, nowMapped) && (rounds == 0 ==> nowMapped == firstMapped)
    ensures Spent(g, logged, logged2, Cost(cost.data + more.data, cost.maps + more.maps), ind, ind2, rounds + 1,
                  firstMapped)
  {
  }

  predicate Aligned(off: nat) {
    off % BSIZE == 0
  }

  /** m bytes from offset off stay in one block. */
  predicate InBlock(off: nat, m: nat) {
    off % BSIZE + m <= BSIZE
  }

  /** min(n - tot, BSIZE - off % BSIZE). */
  function ChunkLen(off: nat, left: nat): (m: nat)
    ensures InBlock(off, m) && m <= left && (m < left ==> Aligned(off + m)) && (left > 0 ==> m > 0)
  {
    if left < BSIZE - off % BSIZE then left else BSIZE - off % BSIZE
  }

  lemma RoundsStep(off: nat, tot: nat, m: nat)
    requires 0 < m && InBlock(off + tot, m) && (tot > 0 ==> Aligned(off + tot))
    ensures Rounds(off, tot + m) == Rounds(off, tot) + 1
    ensures Rounds(off, tot) == 0 <==> tot == 0
  {
  }

  /** The state around a write to one inode. */
  datatype Snapshot = Snapshot(files: map<nat, Dinode>, blocks: Disk, logged: set<nat>, f: Dinode)

  /** bmap found or made block bn of inode i.  Nothing that was there is lost, nothing at all
      changes if the block was there, and `maps` are the bit map blocks touched. */
  ghost predicate Bmapped(g: Geometry, i: nat, bn: nat, s: Snapshot, s': Snapshot, addr: nat, maps: set<nat>)
    requires bn < MAXFILE
  {
    && i in s.files && s.files[i] == s.f && s'.files == s.files[i := s'.f] && SameHeader(s.f, s'.f)
    && addr == Ref(s'.f, s'.blocks, SlotOf(bn)) && DataBlock(g, addr) && 0 < addr < |s'.blocks|
    && SameMeta(g, s.blocks, s'.blocks) && Kept(s.files, s.blocks, s'.files, s'.blocks, i)
    && SlotsKept(s.f, s.blocks, s'.f, s'.blocks, {SlotOf(bn), INDIRECT})
    && (Ref(s.f, s.blocks, SlotOf(bn)) != 0 ==>
          s'.blocks == s.blocks && s'.logged == s.logged && s'.f.addrs == s.f.addrs)
    && s'.logged <= s.logged + {addr} + maps + (if bn < NDIRECT then {} else {s'.f.addrs[INDIRECT] as nat})
    && MapsUsed(g, maps, AllocCount(s.f, s.blocks, bn)) && (bn >= NDIRECT ==> s'.f.addrs[INDIRECT] != 0)
    && (s'.f.addrs[INDIRECT] == s.f.addrs[INDIRECT] || (s.f.addrs[INDIRECT] == 0 && bn >= NDIRECT))
  }

  /** The state once `chunk` has been copied into block addr at offset o and log_written. */
  ghost function Poked(s: Snapshot, addr: nat, o: nat, chunk: seq<byte>): Snapshot
    requires addr < |s.blocks| && o + |chunk| <= BSIZE
  {
    s.(blocks := s.blocks[addr := Overlay(s.blocks[addr], o, chunk)], logged := s.logged + {addr})
  }

  lemma ChunkWrote(g: Geometry, i: nat, off: nat, src: seq<byte>, lo: nat, hi: nat, s: Snapshot, s1: Snapshot,
                   loose: set<nat>, addr: nat, maps: set<nat>)
    requires lo < hi <= |src| && off + |src| <= MAXBYTES && InBlock(off + lo, hi - lo)
    requires Own(g, s.files, s.blocks, loose) && Own(g, s1.files, s1.blocks, loose)
    requires Bmapped(g, i, (off + lo) / BSIZE, s, s1, addr, maps)
    ensures Own(g, s1.files, Poked(s1, addr, (off + lo) % BSIZE, src[lo..hi]).blocks, loose)
    ensures Wrote(g, i, off, src, lo, hi, s, Poked(s1, addr, (off + lo) % BSIZE, src[lo..hi]), Cost({addr}, maps))
  {
    hide Own, OthersKept, Written, Spent, Rounds, Kept, SlotsKept, MapsUsed, SameMeta, AllocCount;
    var bn := (off + lo) / BSIZE;
    var s2 := Poked(s1, addr, (off + lo) % BSIZE, src[lo..hi]);
    ChunkWritten(g, s.files, s.blocks, loose, s1.files, s1.blocks, i, off, src, lo, hi);
    SpentOnChunk(g, s.logged, s1.logged, addr, maps, s.f, s.blocks, s1.f.addrs[INDIRECT], bn);
    ChunkOthers(g, i, bn, s, s1, loose, addr, maps, s2.blocks[addr]);
    RoundsStep(off + lo, 0, hi - lo);
    assert Mapped(s.f, s.blocks, off + lo) ==> s1.f.addrs == s.f.addrs;
  }

  lemma ChunkOthers(g: Geometry, i: nat, bn: nat, s: Snapshot, s1: Snapshot, loose: set<nat>, addr: nat,
                    maps: set<nat>, data: Block)
    requires bn < MAXFILE && addr < |s1.blocks|
    ensures Own(g, s.files, s.blocks, loose) && Own(g, s1.files, s1.blocks, loose)
         && Bmapped(g, i, bn, s, s1, addr, maps)
      ==> && Own(g, s1.files, s1.blocks[addr := data], loose) && SameMeta(g, s.blocks, s1.blocks[addr := data])
          && OthersKept(s.files, s.blocks, s1.files, s1.blocks[addr := data], i)
  {
    if Own(g, s.files, s.blocks, loose) && Own(g, s1.files, s1.blocks, loose) && Bmapped(g, i, bn, s, s1, addr, maps) {
      DataKeepsOwn(g, s1.files, s1.blocks, loose, i, SlotOf(bn), data);
      PokeOthers(g, s1.files, s1.blocks, loose, i, bn, data);
      KeptOthers(s.files, s.blocks, s1.files, s1.blocks, i);
      OthersTransitive(s.files, s.blocks, s1.files, s1.blocks, s1.files, s1.blocks[addr := data], i);
    }
  }

  lemma KeptOthers(files: map<nat, Dinode>, blocks: Disk, files': map<nat, Dinode>, blocks': Disk, i: nat)
    ensures Kept(files, blocks, files', blocks', i) ==> OthersKept(files, blocks, files', blocks', i)
  {
  }

  /** From s to s' bytes lo..hi of src, which starts at file offset off, went into inode i.  The
      other files, the inodes on disk and the file's other bytes are as before, and addresses
      change only where blocks were missing.  `cost` accounts for the blocks logged. */
  ghost predicate Wrote(g: Geometry, i: nat, off: nat, src: seq<byte>, lo: nat, hi: nat, s: Snapshot, s': Snapshot,
                        cost: Cost) {
    && lo <= hi <= |src| && off + |src| <= MAXBYTES
    && SameMeta(g, s.blocks, s'.blocks) && OthersKept(s.files, s.blocks, s'.files, s'.blocks, i)
    && Written(s.f, s.blocks, s'.f, s'.blocks, off, src, lo, hi)
    && SameHeader(s.f, s'.f)
    && ((forall p: nat :: off + lo <= p < off + hi ==> Mapped(s.f, s.blocks, p)) ==> s'.f.addrs == s.f.addrs)
    && Spent(g, s.logged, s'.logged, cost, s.f.addrs[INDIRECT], s'.f.addrs[INDIRECT], Rounds(off + lo, hi - lo),
             MappedAt(s, off + lo))
    && (lo == hi ==> MappedAt(s', off + lo) == MappedAt(s, off + lo))
  }

  predicate SameHeader(f: Dinode, f': Dinode) {
    f'.typ == f.typ && f'.major == f.major && f'.minor == f.minor && f'.nlink == f.nlink && f'.size == f.size
  }

  predicate MappedAt(s: Snapshot, p: nat) {
    p < MAXBYTES && Mapped(s.f, s.blocks, p)
  }

  /** What the loop has written leaves the place it writes next mapped if it was. */
  lemma StillMapped(g: Geometry, i: nat, off: nat, src: seq<byte>, tot: nat, s: Snapshot, s': Snapshot, cost: Cost)
    requires Wrote(g, i, off, src, 0, tot, s, s', cost) && tot < |src|
    ensures MappedAt(s, off + tot) ==> MappedAt(s', off + tot)
  {
  }

  lemma WroteNothing(g: Geometry, i: nat, off: nat, src: seq<byte>, s: Snapshot)
    requires off + |src| <= MAXBYTES
    ensures Wrote(g, i, off, src, 0, 0, s, s, Cost({}, {}))
  {
  }

  lemma ConsecutiveSpent(g: Geometry, logged: set<nat>, logged1: set<nat>, logged2: set<nat>, cost: Cost, cost1: Cost,
                         ind: nat, ind1: nat, ind2: nat, off: nat, n: nat, m: nat, mapped: bool, nowMapped: bool)
    requires 0 < m && InBlock(off + n, m) && (n > 0 ==> Aligned(off + n)) && (n == 0 ==> mapped == nowMapped)
    ensures Spent(g, logged, logged1, cost, ind, ind1, Rounds(off, n), mapped)
         && Spent(g, logged1, logged2, cost1, ind1, ind2, Rounds(off + n, m), nowMapped)
         ==> Spent(g, logged, logged2, Cost(cost.data + cost1.data, cost.maps + cost1.maps), ind, ind2,
                   Rounds(off, n + m), mapped)
  {
    RoundsStep(off + n, 0, m);
    RoundsStep(off, n, m);
    if Spent(g, logged, logged1, cost, ind, ind1, Rounds(off, n), mapped)
      && Spent(g, logged1, logged2, cost1, ind1, ind2, Rounds(off + n, m), nowMapped)
    {
      hide Rounds;
      SpentStep(g, logged, logged1, logged2, cost, cost1, ind, ind1, ind2, Rounds(off, n), mapped, nowMapped);
    }
  }

  /** Where no block was missing, no address changes. */
  lemma WroteAddrs(g: Geometry, i: nat, off: nat, src: seq<byte>, lo: nat, hi: nat,
                   s: Snapshot, s1: Snapshot, s2: Snapshot, cost: Cost, cost1: Cost)
    ensures Wrote(g, i, off, src, 0, lo, s, s1, cost) && Wrote(g, i, off, src, lo, hi, s1, s2, cost1)
      ==> (forall p: nat :: off <= p < off + hi ==> Mapped(s.f, s.blocks, p)) ==> s2.f.addrs == s.f.addrs
  {
    hide OthersKept, SameMeta, Spent, Rounds;
  }

  /** Consecutive writes, split at a block boundary, make one write. */
  lemma WroteMore(g: Geometry, i: nat, off: nat, src: seq<byte>, lo: nat, hi: nat,
                  s: Snapshot, s1: Snapshot, s2: Snapshot, cost: Cost, cost1: Cost)
    requires lo < hi && InBlock(off + lo, hi - lo) && (lo > 0 ==> Aligned(off + lo))
    ensures Wrote(g, i, off, src, 0, lo, s, s1, cost) && Wrote(g, i, off, src, lo, hi, s1, s2, cost1) ==>
            Wrote(g, i, off, src, 0, hi, s, s2, Cost(cost.data + cost1.data, cost.maps + cost1.maps))
  {
    hide OthersKept, Written, SameMeta, Spent, Rounds, Mapped, Aligned, InBlock;
    WroteAddrs(g, i, off, src, lo, hi, s, s1, s2, cost, cost1);
    if Wrote(g, i, off, src, 0, lo, s, s1, cost) && Wrote(g, i, off, src, lo, hi, s1, s2, cost1) {
      ConsecutiveSpent(g, s.logged, s1.logged, s2.logged, cost, cost1,
                       s.f.addrs[INDIRECT], s1.f.addrs[INDIRECT], s2.f.addrs[INDIRECT], off, lo, hi - lo,
                       MappedAt(s, off), MappedAt(s1, off + lo));
      MetaTransitive(g, s.blocks, s1.blocks, s2.blocks);
      OthersTransitive(s.files, s.blocks, s1.files, s1.blocks, s2.files, s2.blocks, i);
      WrittenExtends(s.f, s.blocks, s1.f, s1.blocks, s2.f, s2.blocks, off, src, 0, lo, hi);
    }
  }

  /** What follows writei's loop: nothing, or a new size and an iupdate. */
  ghost predicate Finished(g: Geometry, i: nat, off: nat, n: nat, s: Snapshot, s': Snapshot) {
    && GeometryOk(g, s.blocks) && GeometryOk(g, s'.blocks) && i < g.ninodes
    && if n > 0 && off + n > s.f.size then
         && SameHeader(s.f.(size := 0), s'.f.(size := 0)) && s'.f.size == off + n && s'.f.addrs == s.f.addrs
         && OthersKept(s.files, s.blocks, s'.files, s'.blocks, i)
         && (forall b: nat :: b < |s.blocks| && b != InodeBlock(g, i) ==> s'.blocks[b] == s.blocks[b])
         && (forall j: nat :: j < g.ninodes ==>
               OnDisk(g, s'.blocks, j) == if j == i then s'.f else OnDisk(g, s.blocks, j))
         && s'.logged == s.logged + {InodeBlock(g, i)}
       else s' == s
  }

  /** The promise of a completed writei. */
  ghost predicate WriteiResult(g: Geometry, i: nat, off: nat, src: seq<byte>, s: Snapshot, s': Snapshot)
    requires GeometryOk(g, s.blocks) && GeometryOk(g, s'.blocks) && i < g.ninodes && off <= s.f.size
  {
    // other files do not change, in memory or on disk
    && OthersKept(s.files, s.blocks, s'.files, s'.blocks, i)
    && (forall j: nat :: j < g.ninodes && j != i ==> OnDisk(g, s'.blocks, j) == OnDisk(g, s.blocks, j))
    && (NoHoles(s.f, s.blocks) ==>
          // the bytes are spliced in, and there are still no holes
          && NoHoles(s'.f, s'.blocks) && Bytes(s'.f, s'.blocks) == Splice(Bytes(s.f, s.blocks), off, src)
          // the inode on disk keeps up with the cached one
          && (OnDisk(g, s.blocks, i) == s.f ==> OnDisk(g, s'.blocks, i) == s'.f)
          // a chunk of filewrite stays within a transaction
          && (|src| <= MAXCHUNK ==> |s'.logged - s.logged| <= if g.size < BPB then 7 else 10))
  }

  lemma MetaSameInodes(g: Geometry, blocks: Disk, blocks': Disk)
    requires GeometryOk(g, blocks) && GeometryOk(g, blocks')
    ensures SameMeta(g, blocks, blocks') ==> forall j: nat :: j < g.ninodes ==>
              OnDisk(g, blocks', j) == OnDisk(g, blocks, j)
  {
  }

  /** An inode block is neither a data nor a bit map block, so no reference reads it. */
  lemma FinishedPeek(g: Geometry, i: nat, off: nat, n: nat, s: Snapshot, s': Snapshot, p: nat)
    requires Finished(g, i, off, n, s, s') && p < MAXBYTES
    requires forall k: nat :: k < SLOTS && Ref(s.f, s.blocks, k) != 0 ==> DataBlock(g, Ref(s.f, s.blocks, k))
    ensures Mapped(s.f, s.blocks, p) ==>
              Mapped(s'.f, s'.blocks, p) && Peek(s'.f, s'.blocks, p) == Peek(s.f, s.blocks, p)
  {
    assert Ref(s.f, s.blocks, INDIRECT) == s.f.addrs[INDIRECT];
    var k := SlotOf(p / BSIZE);
    assert Ref(s'.f, s'.blocks, k) == Ref(s.f, s.blocks, k);
  }

  lemma WriteiBytes(g: Geometry, i: nat, off: nat, src: seq<byte>, s: Snapshot, s1: Snapshot, s2: Snapshot, cost: Cost)
    requires Wrote(g, i, off, src, 0, |src|, s, s1, cost) && Finished(g, i, off, |src|, s1, s2) && off <= s.f.size
    requires forall k: nat :: k < SLOTS && Ref(s1.f, s1.blocks, k) != 0 ==> DataBlock(g, Ref(s1.f, s1.blocks, k))
    requires NoHoles(s.f, s.blocks)
    ensures NoHoles(s2.f, s2.blocks) && Bytes(s2.f, s2.blocks) == Splice(Bytes(s.f, s.blocks), off, src)
  {
    forall p: nat | p < MAXBYTES
      ensures Mapped(s1.f, s1.blocks, p) ==>
                Mapped(s2.f, s2.blocks, p) && Peek(s2.f, s2.blocks, p) == Peek(s1.f, s1.blocks, p)
    {
      FinishedPeek(g, i, off, |src|, s1, s2, p);
    }
    assert Written(s.f, s.blocks, s2.f, s2.blocks, off, src, 0, |src|);
    WrittenBytes(s.f, s.blocks, s2.f, s2.f, s2.blocks, off, src);
  }

  /** Data, bit map, indirect and inode blocks of one filewrite chunk. */
  lemma WriteiCost(g: Geometry, i: nat, off: nat, src: seq<byte>, s: Snapshot, s1: Snapshot, s2: Snapshot, cost: Cost)
    requires Wrote(g, i, off, src, 0, |src|, s, s1, cost) && Finished(g, i, off, |src|, s1, s2)
    requires NoHoles(s.f, s.blocks) && off <= s.f.size && |src| <= MAXCHUNK
    ensures |s2.logged - s.logged| <= if g.size < BPB then 7 else 10
  {
    var rounds := Rounds(off, |src|);
    assert rounds <= 4 && (rounds == 4 ==> off % BSIZE != 0);
    if off % BSIZE != 0 && |src| > 0 {
      assert Mapped(s.f, s.blocks, off - 1) && (off - 1) / BSIZE == off / BSIZE;
    }
    var ind: set<nat> := if s1.f.addrs[INDIRECT] == 0 then {} else {s1.f.addrs[INDIRECT] as nat};
    var ino := {InodeBlock(g, i)};
    var all := cost.data + cost.maps + ind + ino;
    assert s2.logged - s.logged <= all;
    SubsetSize(s2.logged - s.logged, all);
    assert |all| <= |cost.data| + |cost.maps| + |ind| + |ino|;
    assert |cost.maps| <= 4;
    if g.size < BPB {
      assert g.size / BPB == 0;
      SubsetSize(cost.maps, {g.bmapstart});
    }
  }

  lemma {:induction false} SubsetSize(a: set<nat>, b: set<nat>)
    requires a <= b
    ensures |a| <= |b|
    decreases |a|
  {
    if a != {} {
      var x :| x in a;
      SubsetSize(a - {x}, b - {x});
    }
  }

  lemma WriteiDone(g: Geometry, i: nat, off: nat, src: seq<byte>, s: Snapshot, s1: Snapshot, s2: Snapshot, cost: Cost)
    requires Wrote(g, i, off, src, 0, |src|, s, s1, cost) && Finished(g, i, off, |src|, s1, s2)
    requires GeometryOk(g, s.blocks) && off <= s.f.size
    requires forall k: nat :: k < SLOTS && Ref(s1.f, s1.blocks, k) != 0 ==> DataBlock(g, Ref(s1.f, s1.blocks, k))
    ensures WriteiResult(g, i, off, src, s, s2)
  {
    MetaSameInodes(g, s.blocks, s1.blocks);
    OthersTransitive(s.files, s.blocks, s1.files, s1.blocks, s2.files, s2.blocks, i);
    if NoHoles(s.f, s.blocks) {
      WriteiBytes(g, i, off, src, s, s1, s2, cost);
      if |src| <= MAXCHUNK {
        WriteiCost(g, i, off, src, s, s1, s2, cost);
      }
    }
  }

  lemma ReadChunk(f: Dinode, blocks: Disk, off: nat, tot: nat, m: nat, addr: nat)
    requires f.size <= MAXBYTES && off + tot + m <= f.size && 0 < m && InBlock(off + tot, m)
    requires addr == Ref(f, blocks, SlotOf((off + tot) / BSIZE)) && addr < |blocks|
    ensures Bytes(f, blocks)[off..off + tot] + blocks[addr].bytes[(off + tot) % BSIZE..(off + tot) % BSIZE + m]
         == Bytes(f, blocks)[off..off + tot + m]
  {
    var at := off + tot;
    forall p | at <= p < at + m
      ensures Peek(f, blocks, p) == blocks[addr].bytes[p - at + at % BSIZE]
    {
      assert p / BSIZE == at / BSIZE;
    }
  }

  lemma MetaTransitive(g: Geometry, blocks: Disk, blocks1: Disk, blocks2: Disk)
    ensures SameMeta(g, blocks, blocks1) && SameMeta(g, blocks1, blocks2) ==> SameMeta(g, blocks, blocks2)
  {
  }

  /** The number of blocks that n bytes from offset off touch. */
  function Rounds(off: nat, n: nat): nat {
    if n == 0 then 0 else (off + n - 1) / BSIZE - off / BSIZE + 1
  }

  /** At most n bit map blocks, one if the disk has only one. */
  ghost predicate MapsUsed(g: Geometry, maps: set<nat>, n: nat) {
    |maps| <= n && forall m: nat :: m in maps ==> g.bmapstart <= m <= g.bmapstart + g.size / BPB
  }

  /** Only bit map blocks differ. */
  ghost predicate OnlyMaps(g: Geometry, blocks: Disk, blocks': Disk) {
    && |blocks'| == |blocks|
    && forall b :: 0 <= b < |blocks| && (b < g.bmapstart || b >= g.datastart) ==> blocks'[b] == blocks[b]
  }

  /** The blocks that slots lo..hi refer to. */
  ghost function Held(f: Dinode, blocks: Disk, lo: nat, hi: nat): set<nat>
    requires hi <= SLOTS
  {
    set k: nat | lo <= k < hi && Ref(f, blocks, k) != 0 :: Ref(f, blocks, k)
  }

  /** The state in which a truncation of inode i begins. */
  datatype Truncation = Truncation(files: map<nat, Dinode>, blocks: Disk, loose: set<nat>, i: nat) {
    ghost function f(): Dinode
      requires i in files
    {
      files[i]
    }
  }

  ghost predicate Started(g: Geometry, i: nat, t: Truncation) {
    t.i == i && i in t.files && Own(g, t.files, t.blocks, t.loose)
  }

  /** The file's blocks are free again except for `rem`, and nothing but the bit map has changed. */
  ghost predicate Freeing(g: Geometry, t: Truncation, blocks: Disk, rem: set<nat>) {
    && t.i in t.files && GeometryOk(g, t.blocks) && GeometryOk(g, blocks) && OnlyMaps(g, t.blocks, blocks)
    && rem <= Held(t.f(), t.blocks, 0, SLOTS)
    && forall x: nat :: x < g.size ==>
         (Marked(g, blocks, x) <==> Marked(g, t.blocks, x) && (x in rem || x !in Held(t.f(), t.blocks, 0, SLOTS)))
  }

  lemma HeldApart(g: Geometry, t: Truncation, lo: nat)
    requires Started(g, t.i, t) && lo <= SLOTS
    ensures t.loose !! Held(t.f(), t.blocks, lo, SLOTS)
  {
  }

  /** A truncation and its iupdate touch no block that another file reads. */
  lemma TruncatedRest(g: Geometry, t: Truncation, files: map<nat, Dinode>, freed: Disk, blocks: Disk)
    requires Started(g, t.i, t) && t.i < g.ninodes && Freeing(g, t, freed, {}) && GeometryOk(g, blocks)
    requires |blocks| == |freed|
    requires files.Keys == t.files.Keys && forall j: nat :: j in files && j != t.i ==> files[j] == t.files[j]
    requires forall b :: 0 <= b < |blocks| && b != InodeBlock(g, t.i) ==> blocks[b] == freed[b]
    ensures OthersKept(t.files, t.blocks, files, blocks, t.i)
    ensures forall x: nat :: x < g.size ==> (Marked(g, blocks, x) <==> Marked(g, freed, x))
  {
    forall j: nat, l: nat | j in files && j != t.i && l < SLOTS
      ensures Ref(files[j], blocks, l) == Ref(t.files[j], t.blocks, l)
    {
      IndirectIsData(g, t.files, t.blocks, t.loose, j);
    }
  }

  lemma HeldIsHoldings(f: Dinode, blocks: Disk)
    ensures Held(f, blocks, 0, SLOTS) == Holdings(f, blocks)
  {
  }

  lemma FreedKeepsInodes(g: Geometry, t: Truncation, freed: Disk)
    requires Freeing(g, t, freed, {})
    ensures GeometryOk(g, t.blocks) && GeometryOk(g, freed)
    ensures forall j: nat :: j < g.ninodes ==> OnDisk(g, freed, j) == OnDisk(g, t.blocks, j)
  {
  }

  lemma FreedMarks(g: Geometry, t: Truncation, freed: Disk)
    requires Freeing(g, t, freed, {})
    ensures forall x: nat :: x < g.size ==>
              (Marked(g, freed, x) <==> Marked(g, t.blocks, x) && x !in Holdings(t.f(), t.blocks))
  {
    HeldIsHoldings(t.f(), t.blocks);
  }

  /** The bit map is not among the inode blocks. */
  lemma MapsUntouched(g: Geometry, blocks: Disk, blocks': Disk, i: nat)
    requires GeometryOk(g, blocks) && GeometryOk(g, blocks') && i < g.ninodes && |blocks'| == |blocks|
    requires forall b :: 0 <= b < |blocks| && b != InodeBlock(g, i) ==> blocks'[b] == blocks[b]
    ensures forall x: nat :: x < g.size ==> Marked(g, blocks', x) == Marked(g, blocks, x)
  {
  }

  lemma HeaderKeepsOthers(files0: map<nat, Dinode>, blocks0: Disk, files: map<nat, Dinode>, files': map<nat, Dinode>,
                          blocks: Disk, i: nat)
    requires OthersKept(files0, blocks0, files, blocks, i) && i in files && i in files'
    requires files' == files[i := files'[i]]
    ensures OthersKept(files0, blocks0, files', blocks, i)
  {
  }

  /** An iupdate touches no block that another file reads. */
  lemma UpdateKeepsOthers(g: Geometry, files0: map<nat, Dinode>, blocks0: Disk, files: map<nat, Dinode>, blocks: Disk,
                          blocks': Disk, loose: set<nat>, i: nat)
    requires Own(g, files, blocks', loose) && i < g.ninodes && |blocks'| == |blocks|
    requires OthersKept(files0, blocks0, files, blocks, i)
    requires forall b :: 0 <= b < |blocks| && b != InodeBlock(g, i) ==> blocks'[b] == blocks[b]
    requires forall j: nat, l: nat :: j in files && l < SLOTS ==> Ref(files[j], blocks', l) == Ref(files[j], blocks, l)
    ensures OthersKept(files0 - {i}, blocks0, files - {i}, blocks', i)
  {
    assert (files0 - {i}).Keys == (files - {i}).Keys;
  }

  /** Each block is referred to once, so dropping a slot drops its block. */
  lemma HeldStep(g: Geometry, files: map<nat, Dinode>, blocks: Disk, loose: set<nat>, i: nat, lo: nat)
    requires Own(g, files, blocks, loose) && i in files && lo < SLOTS
    ensures Held(files[i], blocks, lo + 1, SLOTS) == Held(files[i], blocks, lo, SLOTS) - {Ref(files[i], blocks, lo)}
    ensures Ref(files[i], blocks, lo) == 0 || Ref(files[i], blocks, lo) in Held(files[i], blocks, lo, SLOTS)
    ensures 0 !in Held(files[i], blocks, lo, SLOTS)
  {
  }

  /** The most filewrite hands to writei in one transaction. */
  const MAXCHUNK: nat := (MAXOPBLOCKS - 1 - 1 - 2) / 2 * 512

  /** One log_write. */
  datatype Write = Write(blockno: nat, data: Block)

  /** The disk after the writes ws to disk d. */
  function Played(d: Disk, ws: seq<Write>): (r: Disk)
    ensures |r| == |d|
  {
    if ws == [] then d
    else
      var w, p := ws[|ws| - 1], Played(d, ws[..|ws| - 1]);
      if w.blockno < |p| then p[w.blockno := w.data] else p
  }

  /** A transaction: the disk at its begin_op and its log_writes. */
  datatype Txn = Txn(before: Disk, writes: seq<Write>) {
    function After(): Disk {
      Played(before, writes)
    }
  }

  /** The transactions follow each other from disk d0 to disk d. */
  ghost predicate Chained(d0: Disk, txns: seq<Txn>, d: Disk) {
    if txns == [] then d == d0
    else
      && txns[0].before == d0 && txns[|txns| - 1].After() == d
      && forall k :: 0 < k < |txns| ==> txns[k].before == txns[k - 1].After()
  }

  /** Inode i of disk d reads as `bytes`. */
  ghost predicate Reads(g: Geometry, i: nat, d: Disk, bytes: seq<byte>) {
    && GeometryOk(g, d) && i < g.ninodes
    && var f := OnDisk(g, d, i);
       && NoHoles(f, d) && Bytes(f, d) == bytes
       && forall k: nat :: k < SLOTS && Ref(f, d, k) != 0 ==> DataBlock(g, Ref(f, d, k))
  }

  /** Inode i of disk d reads as `bytes` with the first n bytes of src at off. */
  ghost predicate HasPrefix(g: Geometry, i: nat, d: Disk, bytes: seq<byte>, off: nat, src: seq<byte>, n: nat) {
    off <= |bytes| && n <= |src| && Reads(g, i, d, Splice(bytes, off, src[..n]))
  }

  /** The transactions lead from d0 to d, and after each of them inode i has a longer prefix of src. */
  ghost predicate Steps(g: Geometry, i: nat, d0: Disk, txns: seq<Txn>, d: Disk, bytes: seq<byte>, off: nat,
                        src: seq<byte>,
                        ns: seq<nat>)
  {
    && |ns| == |txns| + 1 && ns[0] == 0 && Chained(d0, txns, d) && HasPrefix(g, i, d0, bytes, off, src, 0)
    && (forall k :: 0 <= k < |txns| ==> HasPrefix(g, i, txns[k].After(), bytes, off, src, ns[k + 1]))
    && (forall k :: 0 <= k < |txns| ==> ns[k] <= ns[k + 1])
  }

  lemma StepMore(g: Geometry, i: nat, d0: Disk, txns: seq<Txn>, d: Disk, bytes: seq<byte>, off: nat, src: seq<byte>,
                 ns: seq<nat>, txn: Txn, n: nat)
    requires Steps(g, i, d0, txns, d, bytes, off, src, ns) && txn.before == d
    requires HasPrefix(g, i, txn.After(), bytes, off, src, n) && ns[|txns|] <= n
    ensures Steps(g, i, d0, txns + [txn], txn.After(), bytes, off, src, ns + [n])
  {
    hide HasPrefix;
  }

  /** `files` are the allocated inodes, `logged` the blocks log_written so far by the current
      operation, `loose` the blocks that balloc or a truncation has in its hands. */
  class Fs {
    const g: Geometry
    var blocks: Disk
    ghost var files: map<nat, Dinode>
    ghost var loose: set<nat>
    ghost var logged: set<nat>
    ghost var begun: Disk             // the disk at the last begin_op
    ghost var writes: seq<Write>      // every log_write since then

    constructor (g: Geometry, blocks: Disk, ghost files: map<nat, Dinode>)
      ensures this.g == g && this.blocks == blocks && this.files == files && loose == {} && logged == {}
      ensures Replays()
    {
      this.g, this.blocks, this.files, loose, logged := g, blocks, files, {}, {};
      begun, writes := blocks, [];
    }

    ghost predicate Valid()
      reads this
    {
      Own(g, files, blocks, loose) && Replays()
    }

    /** The disk is what the log_writes of the current transaction have made of it. */
    ghost predicate Replays()
      reads this
    {
      blocks == Played(begun, writes)
    }

    /** The inode cache entry is the file it names. */
    ghost predicate Has(ip: Inode)
      reads this, ip, ip.addrs
    {
      Valid() && ip.Valid() && ip.inum in files && files[ip.inum] == ip.Value()
    }

    /** What writing to inode ip can change. */
    ghost function Snap(ip: Inode): Snapshot
      requires ip.Valid()
      reads this, ip, ip.addrs
    {
      Snapshot(files, blocks, logged, ip.Value())
    }

    /** Modify a block in the cache and log_write it. */
    method LogWrite(b: nat, data: Block)
      requires b < |blocks| && Replays()
      modifies this`blocks, this`logged, this`writes
      ensures blocks == old(blocks)[b := data] && logged == old(logged) + {b} && Replays()
    {
      blocks := blocks[b := data];
      logged := logged + {b};
      writes := writes + [Write(b, data)];
      assert writes[..|writes| - 1] == old(writes);
    }

    /** balloc's inner loop over one bit map block. */
    static method FirstClear(bp: Block, limit: nat) returns (bi: nat)
      requires limit <= BPB
      ensures bi <= limit && (bi < limit ==> !BitAt(bp, bi))
      ensures forall x: nat :: x < bi ==> BitAt(bp, x)
    {
      bi := 0;
      while bi < limit && BitAt(bp, bi)
        invariant 0 <= bi <= limit
        invariant forall x: nat :: x < bi ==> BitAt(bp, x)
      {
        bi := bi + 1;
      }
    }

    /** The end of balloc: mark block a in use, log_write the bit map block, and bzero. */
    method Take(a: nat)
      requires Valid() && a < g.size && !Marked(g, blocks, a)
      modifies this`blocks, this`logged, this`writes, this`loose
      ensures DataBlock(g, a) && blocks == Allocated(g, old(blocks), a)
      ensures loose == old(loose) + {a} && a !in old(loose) && logged == old(logged) + {MapBlock(g, a), a}
      ensures Valid()
    {
      AllocKeepsOwn(g, files, blocks, loose, a);
      LogWrite(MapBlock(g, a), SetBit(blocks[MapBlock(g, a)], a % BPB, true));
      LogWrite(a, Zeroes());
      loose := loose + {a};
    }

    /** A round of balloc's outer loop: the lowest free block among those that one bit map block stands for. */
    method ScanMap(b: nat) returns (found: bool, a: nat)
      requires Valid() && b % BPB == 0 && b < g.size
      ensures b <= a <= b + BPB && forall x: nat :: b <= x < a && x < g.size ==> Marked(g, blocks, x)
      ensures if found then a < g.size && !Marked(g, blocks, a) else a == b + BPB || a == g.size
    {
      hide Own;
      SizeIsOk();
      var limit := if g.size - b < BPB then g.size - b else BPB;
      var bi := FirstClear(blocks[MapBlock(g, b)], limit);
      SameMapBlock(g, b);
      found, a := bi < limit, b + bi;
    }

    lemma SizeIsOk()
      requires Valid()
      ensures GeometryOk(g, blocks)
    {
    }

    /** Every block is in use: where balloc panics. */
    ghost predicate Full()
      reads this
    {
      GeometryOk(g, blocks) && forall x: nat :: x < g.size ==> Marked(g, blocks, x)
    }

    /** balloc: the lowest free block, marked and zeroed.  Fails, as the source panics, exactly
        when every block is in use. */
    method Balloc() returns (ok: bool, a: uint32)
      requires Valid()
      modifies this`blocks, this`logged, this`writes, this`loose
      ensures !ok ==> blocks == old(blocks) && logged == old(logged) && loose == old(loose)
      ensures !ok <==> forall x: nat :: x < g.size ==> old(Marked(g, blocks, x))
      ensures ok ==> DataBlock(g, a) && !old(Marked(g, blocks, a))
      ensures ok ==> forall x: nat :: x < a ==> old(Marked(g, blocks, x))
      ensures ok ==> blocks == Allocated(g, old(blocks), a) && loose == old(loose) + {a} && a !in old(loose)
      ensures ok ==> logged == old(logged) + {MapBlock(g, a), a}
      ensures ok ==> Valid()
    {
      var b := 0;
      while b < g.size
        invariant b % BPB == 0 && blocks == old(blocks) && logged == old(logged) && loose == old(loose)
        invariant writes == old(writes)
        invariant forall x: nat :: x < b && x < g.size ==> Marked(g, blocks, x)
      {
        var found, at := ScanMap(b);
        if found {
          Take(at);
          return true, at;
        }
        b := b + BPB;
      }
      return false, 0;
    }

    /** bfree of a loose block, which is never "freeing free block". */
    method Bfree(b: nat)
      requires Valid() && b in loose
      modifies this`blocks, this`logged, this`writes, this`loose
      ensures Valid() && loose == old(loose) - {b}
      ensures blocks == Remarked(g, old(blocks), b, false) && logged == old(logged) + {MapBlock(g, b)}
      ensures forall x: nat :: x < g.size ==> (Marked(g, blocks, x) <==> x != b && old(Marked(g, blocks, x)))
      ensures OnlyMaps(g, old(blocks), blocks)
    {
      FreeKeepsOwn(g, files, blocks, loose, b);
      forall x: nat | x < g.size {
        MarkedAfter(g, blocks, b, false, x);
      }
      var bp := blocks[MapBlock(g, b)];
      assert BitAt(bp, b % BPB);
      LogWrite(MapBlock(g, b), SetBit(bp, b % BPB, false));
      loose := loose - {b};
    }

    /** ip->addrs[k] = balloc(), for a direct address or the indirect block. */
    method AllocAddr(ip: Inode, k: nat) returns (ok: bool, a: uint32)
      requires Has(ip) && k <= INDIRECT && ip.addrs[k] == 0
      modifies this`blocks, this`logged, this`loose, this`files, this`writes, ip.addrs
      ensures !ok ==> Full()
      ensures ok ==> Has(ip) && SameMeta(g, old(blocks), blocks) && loose == old(loose) && DataBlock(g, a)
      ensures ok ==> files == old(files)[ip.inum := ip.Value()] && ip.addrs[..] == old(ip.addrs[..])[k := a]
      ensures ok ==> Kept(old(files), old(blocks), files, blocks, ip.inum)
      ensures ok ==> SlotsKept(old(files[ip.inum]), old(blocks), files[ip.inum], blocks, {k})
      ensures ok ==> logged == old(logged) + {MapBlock(g, a), a}
    {
      ghost var files0, blocks0, loose0, f := files, blocks, loose, ip.Value();
      ok, a := Balloc();
      if ok {
        AllocAttach(g, files0, blocks0, loose0, ip.inum, k, a);
        ip.addrs[k] := a;
        assert ip.addrs[..] == f.addrs[k := a];
        files, loose := files[ip.inum := ip.Value()], loose0;
      }
    }

    /** a[e] = balloc() in the indirect block, which is then log_written. */
    method AllocEntry(ip: Inode, e: nat) returns (ok: bool, a: uint32)
      requires Has(ip) && e < NINDIRECT && ip.addrs[INDIRECT] != 0
      requires Ref(ip.Value(), blocks, INDIRECT + 1 + e) == 0
      modifies this`blocks, this`logged, this`loose, this`files, this`writes
      ensures !ok ==> Full()
      ensures ok ==> Has(ip) && SameMeta(g, old(blocks), blocks) && loose == old(loose)
      ensures ok ==> files == old(files) && DataBlock(g, a)
      ensures ok ==> Ref(ip.Value(), blocks, INDIRECT + 1 + e) == a
      ensures ok ==> Kept(old(files), old(blocks), files, blocks, ip.inum)
      ensures ok ==> SlotsKept(files[ip.inum], old(blocks), files[ip.inum], blocks, {INDIRECT + 1 + e})
      ensures ok ==> logged == old(logged) + {MapBlock(g, a), a, ip.addrs[INDIRECT]}
    {
      hide Own, Kept, SlotsKept, Marked;
      SizeIsOk();
      ghost var blocks0, loose0 := blocks, loose;
      ok, a := Balloc();
      if ok {
        IndirectIsData(g, files, blocks0, loose0, ip.inum);
        AllocEntered(g, files, blocks0, loose0, ip.inum, e, a);
        LogWrite(ip.addrs[INDIRECT], SetWord(blocks[ip.addrs[INDIRECT]], e, a));
        loose := loose0;
      }
    }

    /** An address held by the inode itself, allocated if it was missing. */
    method AddrOf(ip: Inode, k: nat) returns (ok: bool, a: uint32, ghost maps: set<nat>)
      requires Has(ip) && k <= INDIRECT
      modifies this`blocks, this`logged, this`loose, this`files, this`writes, ip.addrs
      ensures !ok ==> Full()
      ensures ok ==> Has(ip) && SameMeta(g, old(blocks), blocks) && loose == old(loose)
      ensures ok ==> files == old(files)[ip.inum := ip.Value()]
      ensures ok ==> a == ip.addrs[k] && DataBlock(g, a) && logged <= old(logged) + maps + {a}
      ensures ok ==> Kept(old(files), old(blocks), files, blocks, ip.inum)
      ensures ok ==> SlotsKept(old(ip.Value()), old(blocks), ip.Value(), blocks, {k})
      ensures old(ip.addrs[k]) != 0 ==>
                ok && blocks == old(blocks) && logged == old(logged) && ip.addrs[..] == old(ip.addrs[..])
      ensures ok ==> MapsUsed(g, maps, if old(ip.addrs[k]) == 0 then 1 else 0)
      ensures ok ==> forall l :: 0 <= l <= INDIRECT && l != k ==> ip.addrs[l] == old(ip.addrs[l])
    {
      a := ip.addrs[k];
      ok, maps := true, {};
      assert a == Ref(files[ip.inum], blocks, k);
      if a == 0 {
        ok, a := AllocAddr(ip, k);
        maps := {MapBlock(g, a)};
      }
    }

    /** An entry of the indirect block, allocated if it was missing. */
    method EntryOf(ip: Inode, e: nat) returns (ok: bool, a: uint32, ghost maps: set<nat>)
      requires Has(ip) && e < NINDIRECT && ip.addrs[INDIRECT] != 0
      modifies this`blocks, this`logged, this`loose, this`files, this`writes
      ensures !ok ==> Full()
      ensures ok ==> Has(ip) && SameMeta(g, old(blocks), blocks) && loose == old(loose) && files == old(files)
      ensures ok ==> a == Ref(ip.Value(), blocks, INDIRECT + 1 + e) && DataBlock(g, a)
      ensures ok ==> Kept(old(files), old(blocks), files, blocks, ip.inum)
      ensures ok ==> SlotsKept(ip.Value(), old(blocks), ip.Value(), blocks, {INDIRECT + 1 + e})
      ensures old(Ref(ip.Value(), blocks, INDIRECT + 1 + e)) != 0 ==>
                ok && blocks == old(blocks) && logged == old(logged)
      ensures ok ==> logged <= old(logged) + maps + {a, ip.addrs[INDIRECT]}
      ensures ok ==> MapsUsed(g, maps, if old(Ref(ip.Value(), blocks, INDIRECT + 1 + e)) == 0 then 1 else 0)
    {
      assert Ref(files[ip.inum], blocks, INDIRECT) == ip.addrs[INDIRECT];
      a := WordAt(blocks[ip.addrs[INDIRECT]], e);
      ok, maps := true, {};
      assert a == Ref(files[ip.inum], blocks, INDIRECT + 1 + e);
      if a == 0 {
        ok, a := AllocEntry(ip, e);
        maps := {MapBlock(g, a)};
      }
    }

    /** bmap: the address of block bn of the file, allocated if it was missing.  `maps` are the
        bit map blocks touched. */
    method Bmap(ip: Inode, bn: nat) returns (ok: bool, addr: uint32, ghost maps: set<nat>)
      requires Has(ip) && bn < MAXFILE
      modifies this`blocks, this`logged, this`loose, this`files, this`writes, ip.addrs
      ensures !ok ==> Full()
      ensures ok ==> Has(ip) && loose == old(loose)
      ensures ok ==> Bmapped(g, ip.inum, bn, old(Snap(ip)), Snap(ip), addr, maps)
      ensures old(Ref(ip.Value(), blocks, SlotOf(bn))) != 0 ==> ok
    {
      hide Played, Own;
      if bn < NDIRECT {
        ok, addr, maps := AddrOf(ip, bn);
      } else {
        ok, addr, maps := BmapIndirect(ip, bn - NDIRECT);
      }
      if ok {
        SizeIsOk();
      }
    }

    /** The second half of bmap: both the indirect block and its entry may have to be allocated. */
    method BmapIndirect(ip: Inode, e: nat) returns (ok: bool, addr: uint32, ghost maps: set<nat>)
      requires Has(ip) && e < NINDIRECT
      modifies this`blocks, this`logged, this`loose, this`files, this`writes, ip.addrs
      ensures !ok ==> Full()
      ensures ok ==> Has(ip) && SameMeta(g, old(blocks), blocks) && loose == old(loose)
      ensures ok ==> files == old(files)[ip.inum := ip.Value()]
      ensures ok ==> addr == Ref(ip.Value(), blocks, INDIRECT + 1 + e) && DataBlock(g, addr)
      ensures ok ==> Kept(old(files), old(blocks), files, blocks, ip.inum)
      ensures ok ==> SlotsKept(old(ip.Value()), old(blocks), ip.Value(), blocks, {INDIRECT + 1 + e, INDIRECT})
      ensures old(Ref(ip.Value(), blocks, INDIRECT + 1 + e)) != 0 ==>
        ok && blocks == old(blocks) && logged == old(logged) && ip.addrs[..] == old(ip.addrs[..])
      ensures ok ==> logged <= old(logged) + maps + {addr, ip.addrs[INDIRECT]}
      ensures ok ==> MapsUsed(g, maps, AllocCount(old(ip.Value()), old(blocks), NDIRECT + e))
      ensures ok ==> old(ip.addrs[INDIRECT]) != 0 ==> ip.addrs[INDIRECT] == old(ip.addrs[INDIRECT])
    {
      hide Own, Played, Marked, Kept, SlotsKept, MapsUsed, SameMeta;
      ghost var files0, blocks0, f0 := files, blocks, ip.Value();
      ok, addr, maps := AddrOf(ip, INDIRECT);
      if ok {
        ghost var files1, blocks1, f1, maps1 := files, blocks, ip.Value(), maps;
        SizeIsOk();
        SlotSame(f0, blocks0, f1, blocks1, INDIRECT, INDIRECT + 1 + e);
        ok, addr, maps := EntryOf(ip, e);
        if ok {
          KeptTransitive(files0, blocks0, files1, blocks1, files, blocks, ip.inum);
          SlotsTwice(f0, blocks0, f1, blocks1, ip.Value(), blocks, INDIRECT, INDIRECT + 1 + e);
          MetaTwice(g, blocks0, blocks1, blocks);
          TwoMaps(g, maps1, if f0.addrs[INDIRECT] == 0 then 1 else 0,
                  maps, if Ref(f1, blocks1, INDIRECT + 1 + e) == 0 then 1 else 0);
        }
        maps := maps1 + maps;
      }
    }

    /** iupdate: afterwards the disk has this inode as the cache has it, and every other
        inode as before. */
    method Iupdate(ip: Inode)
      requires Has(ip) && ip.inum < g.ninodes
      modifies this`blocks, this`logged, this`writes
      ensures Has(ip) && |blocks| == |old(blocks)|
      ensures forall i: nat :: i < g.ninodes ==>
                OnDisk(g, blocks, i) == if i == ip.inum then ip.Value() else OnDisk(g, old(blocks), i)
      ensures forall b :: 0 <= b < |blocks| && b != InodeBlock(g, ip.inum) ==> blocks[b] == old(blocks)[b]
      ensures forall j: nat, l: nat :: j in files && l < SLOTS ==>
                Ref(files[j], blocks, l) == Ref(files[j], old(blocks), l)
      ensures logged == old(logged) + {InodeBlock(g, ip.inum)}
    {
      var b, slot := InodeBlock(g, ip.inum), ip.inum % IPB;
      var data := PutInode(blocks[b], slot, ip.Value());
      MetaKeepsOwn(g, files, blocks, loose, b, data);
      forall i: nat | i < g.ninodes {
        UpdateOnDisk(g, blocks, ip.inum, ip.Value(), i);
      }
      LogWrite(b, data);
    }

    /** One round of writei's loop: bytes lo..hi of src, within one block of the file. */
    method WriteChunk(ip: Inode, src: seq<byte>, off: nat, lo: nat, hi: nat) returns (ok: bool, ghost cost: Cost)
      requires Has(ip) && lo < hi <= |src| && InBlock(off + lo, hi - lo) && off + |src| <= MAXBYTES
      modifies this`blocks, this`logged, this`loose, this`files, this`writes, ip.addrs
      ensures !ok ==> Full()
      ensures ok ==> Has(ip) && loose == old(loose)
      ensures ok ==> Wrote(g, ip.inum, off, src, lo, hi, old(Snap(ip)), Snap(ip), cost)
      ensures MappedAt(old(Snap(ip)), off + lo) ==> ok
    {
      hide Own, Wrote, Kept, SlotsKept, SameMeta, Ref;
      ghost var start := Snap(ip);
      var at := off + lo;
      var addr;
      ghost var maps;
      ok, addr, maps := Bmap(ip, at / BSIZE);
      cost := Cost({addr}, maps);
      if ok {
        ChunkWrote(g, ip.inum, off, src, lo, hi, start, Snap(ip), loose, addr, maps);
        LogWrite(addr, Overlay(blocks[addr], at % BSIZE, src[lo..hi]));
      }
    }

    /** The round of writei's loop that starts at byte tot of src. */
    method WriteRound(ip: Inode, src: seq<byte>, off: nat, tot: nat, ghost start: Snapshot, ghost cost: Cost)
      returns (ok: bool, next: nat, ghost cost': Cost)
      requires Has(ip) && tot < |src| && (tot > 0 ==> Aligned(off + tot)) && off + |src| <= MAXBYTES
      requires Wrote(g, ip.inum, off, src, 0, tot, start, Snap(ip), cost)
      modifies this`blocks, this`logged, this`loose, this`files, this`writes, ip.addrs
      ensures tot < next <= |src| && (next < |src| ==> Aligned(off + next))
      ensures !ok ==> Full()
      ensures MappedAt(old(Snap(ip)), off + tot) ==> ok
      ensures ok ==> Has(ip) && loose == old(loose) && Wrote(g, ip.inum, off, src, 0, next, start, Snap(ip), cost')
    {
      hide Own, Wrote, Aligned, InBlock, ChunkLen;
      ghost var before := Snap(ip);
      next := tot + ChunkLen(off + tot, |src| - tot);
      ok, cost' := WriteChunk(ip, src, off, tot, next);
      if ok {
        WroteMore(g, ip.inum, off, src, tot, next, start, before, Snap(ip), cost, cost');
        cost' := Cost(cost.data + cost'.data, cost.maps + cost'.maps);
      }
    }

    /** writei's loop. */
    method WriteLoop(ip: Inode, src: seq<byte>, off: nat) returns (ok: bool, ghost cost: Cost)
      requires Has(ip) && off + |src| <= MAXBYTES
      modifies this`blocks, this`logged, this`loose, this`files, this`writes, ip.addrs
      ensures !ok ==> Full()
      ensures ok ==> Has(ip) && loose == old(loose)
      ensures ok ==> Wrote(g, ip.inum, off, src, 0, |src|, old(Snap(ip)), Snap(ip), cost)
      ensures (forall p: nat :: off <= p < off + |src| ==> MappedAt(old(Snap(ip)), p)) ==> ok
    {
      ghost var start := Snap(ip);
      var tot := 0;
      ok, cost := true, Cost({}, {});
      WroteNothing(g, ip.inum, off, src, start);
      while tot < |src|
        invariant 0 <= tot <= |src|
        invariant Has(ip) && loose == old(loose) && Wrote(g, ip.inum, off, src, 0, tot, start, Snap(ip), cost)
        invariant 0 < tot < |src| ==> Aligned(off + tot)
      {
        StillMapped(g, ip.inum, off, src, tot, start, Snap(ip), cost);
        ok, tot, cost := WriteRound(ip, src, off, tot, start, cost);
        if !ok {
          return;
        }
      }
    }

    /** ip->size = n, which concerns no block. */
    method Resize(ip: Inode, n: uint32)
      requires Has(ip)
      modifies this`files, ip`size
      ensures Has(ip) && ip.size == n && OthersKept(old(files), blocks, files, blocks, ip.inum)
    {
      ghost var f := ip.Value();
      ip.size := n;
      HeaderKeepsOwn(g, files, blocks, loose, ip.inum, ip.Value());
      files := files[ip.inum := ip.Value()];
    }

    /** The end of writei: a file that grew gets its new size, in memory and on disk. */
    method FinishWrite(ip: Inode, off: nat, n: nat)
      requires Has(ip) && ip.inum < g.ninodes && off + n < UINT
      modifies this`blocks, this`files, this`logged, this`writes, ip`size
      ensures Has(ip) && Finished(g, ip.inum, off, n, old(Snap(ip)), Snap(ip))
    {
      if n > 0 && off + n > ip.size {
        ghost var files0, blocks0 := files, blocks;
        Resize(ip, off + n);
        Iupdate(ip);
        assert OthersKept(files0, blocks0, files, blocks, ip.inum);
      }
    }

    /** writei on a file or directory.  Refused exactly for a start beyond the end or an end
        beyond MAXFILE; fails, as the source panics, only if the disk is full. */
    method Writei(ip: Inode, src: seq<byte>, off: uint32) returns (ok: bool, r: int)
      requires Has(ip) && ip.inum < g.ninodes && |src| < UINT
      modifies this`blocks, this`logged, this`loose, this`files, this`writes, ip`size, ip.addrs
      ensures r == -1 <==> off > old(ip.size) || off + |src| > MAXBYTES
      ensures r == -1 ==> ok && Has(ip) && Snap(ip) == old(Snap(ip)) && loose == old(loose)
      ensures !ok ==> Full()
      ensures (forall p: nat :: off <= p < off + |src| ==> MappedAt(old(Snap(ip)), p)) ==> ok
      ensures ok && r != -1 ==> r == |src| && Has(ip) && loose == old(loose)
      ensures ok && r != -1 ==> WriteiResult(g, ip.inum, off, src, old(Snap(ip)), Snap(ip))
    {
      var n := |src|;
      if off > ip.size || (off + n) % UINT < off {
        return true, -1;
      }
      if (off + n) % UINT > MAXBYTES {
        return true, -1;
      }
      ghost var start := Snap(ip);
      ghost var cost;
      ok, cost := WriteLoop(ip, src, off);
      r := n;
      if ok {
        ghost var looped := Snap(ip);
        FinishWrite(ip, off, n);
        WriteiDone(g, ip.inum, off, src, start, looped, Snap(ip), cost);
      }
    }

    /** readi on a file without holes: the bytes asked for, as far as the file goes.  Changes nothing. */
    method Readi(ip: Inode, off: uint32, count: uint32) returns (r: int, dst: seq<byte>)
      requires Has(ip) && NoHoles(ip.Value(), blocks)
      modifies this`blocks, this`logged, this`loose, this`files, this`writes, ip.addrs
      ensures Has(ip) && Snap(ip) == old(Snap(ip)) && loose == old(loose)
      ensures r == -1 <==> off > ip.size || off + count >= UINT
      ensures r != -1 ==> r == if off + count > ip.size then ip.size - off else count
      ensures r != -1 ==> dst == Bytes(ip.Value(), blocks)[off..off + r]
    {
      dst := [];
      if off > ip.size || (off + count) % UINT < off {
        return -1, dst;
      }
      var n: nat := if (off + count) % UINT > ip.size then ip.size - off else count;
      var tot := 0;
      ghost var start := Snap(ip);
      while tot < n
        invariant 0 <= tot <= n && Has(ip) && Snap(ip) == start && loose == old(loose)
        invariant dst == Bytes(start.f, start.blocks)[off..off + tot]
      {
        var chunk := ReadRound(ip, off, tot, n - tot);
        dst, tot := dst + chunk, tot + |chunk|;
      }
      r := n;
    }

    /** One round of readi's loop; bmap finds the block and allocates nothing. */
    method ReadRound(ip: Inode, off: nat, tot: nat, left: nat) returns (chunk: seq<byte>)
      requires Has(ip) && NoHoles(ip.Value(), blocks) && 0 < left && off + tot + left <= ip.size
      modifies this`blocks, this`logged, this`loose, this`files, this`writes, ip.addrs
      ensures Has(ip) && Snap(ip) == old(Snap(ip)) && loose == old(loose)
      ensures 0 < |chunk| <= left
      ensures Bytes(ip.Value(), blocks)[off..off + tot] + chunk == Bytes(ip.Value(), blocks)[off..off + tot + |chunk|]
    {
      hide Own, Played;
      var at := off + tot;
      assert Mapped(ip.Value(), blocks, at);
      var ok, addr, maps := Bmap(ip, at / BSIZE);
      var m := ChunkLen(at, left);
      ReadChunk(ip.Value(), blocks, off, tot, m, addr);
      chunk := blocks[addr].bytes[at % BSIZE..at % BSIZE + m];
    }

    /** Free one block of a truncated file; `rem` are those still to be freed. */
    method FreeOne(b: nat, ghost t: Truncation, ghost rem: set<nat>)
      requires Valid() && Freeing(g, t, blocks, rem) && loose == t.loose + rem && b in rem && t.loose !! rem
      modifies this`blocks, this`logged, this`writes, this`loose
      ensures Valid() && Freeing(g, t, blocks, rem - {b}) && loose == t.loose + (rem - {b})
    {
      Bfree(b);
    }

    /** itrunc's loop over the direct addresses. */
    method FreeDirect(ip: Inode, ghost t: Truncation)
      requires Valid() && ip.Valid() && Started(g, ip.inum, t) && ip.Value() == t.f()
      requires blocks == t.blocks && loose == t.loose + Held(t.f(), t.blocks, 0, SLOTS)
      modifies this`blocks, this`logged, this`writes, this`loose, ip.addrs
      ensures Valid() && ip.addrs[..] == NoAddrs()[INDIRECT := t.f().addrs[INDIRECT]]
      ensures Freeing(g, t, blocks, Held(t.f(), t.blocks, INDIRECT, SLOTS))
      ensures loose == t.loose + Held(t.f(), t.blocks, INDIRECT, SLOTS)
    {
      var i := 0;
      while i < NDIRECT
        invariant 0 <= i <= NDIRECT && DirectFreed(ip, i, t)
      {
        FreeDirectRound(ip, i, t);
        i := i + 1;
      }
    }

    /** itrunc has dealt with the first i addresses of the inode. */
    ghost predicate DirectFreed(ip: Inode, i: nat, t: Truncation)
      reads this, ip, ip.addrs
    {
      && SlotsFreed(i, t) && ip.Valid() && t.i == ip.inum
      && forall k :: 0 <= k <= INDIRECT ==> ip.addrs[k] == if k < i then 0 else t.f().addrs[k]
    }

    method FreeDirectRound(ip: Inode, i: nat, ghost t: Truncation)
      requires i < NDIRECT && DirectFreed(ip, i, t)
      modifies this`blocks, this`logged, this`writes, this`loose, ip.addrs
      ensures DirectFreed(ip, i + 1, t)
    {
      hide SlotsFreed, Held;
      assert Started(g, t.i, t) by { StartedThere(i, t); }
      if ip.addrs[i] != 0 {
        FreeSlot(ip.addrs[i], i, t);
        ip.addrs[i] := 0;
      } else {
        SkipSlot(i, t);
      }
    }

    lemma StartedThere(i: nat, t: Truncation)
      requires SlotsFreed(i, t)
      ensures Started(g, t.i, t)
    {
    }

    /** The blocks in the first i slots of a truncated file are free again. */
    ghost predicate SlotsFreed(i: nat, t: Truncation)
      reads this
    {
      && Valid() && Started(g, t.i, t) && i <= SLOTS && Freeing(g, t, blocks, Held(t.f(), t.blocks, i, SLOTS))
      && loose == t.loose + Held(t.f(), t.blocks, i, SLOTS)
    }

    lemma SkipSlot(i: nat, t: Truncation)
      requires i < SLOTS && SlotsFreed(i, t) && Ref(t.f(), t.blocks, i) == 0
      ensures SlotsFreed(i + 1, t)
    {
      hide Own, Played;
      HeldStep(g, t.files, t.blocks, t.loose, t.i, i);
      assert Held(t.f(), t.blocks, i + 1, SLOTS) == Held(t.f(), t.blocks, i, SLOTS);
    }

    /** bfree of slot i of a truncated file. */
    method FreeSlot(b: nat, i: nat, ghost t: Truncation)
      requires i < SLOTS && SlotsFreed(i, t) && b == Ref(t.f(), t.blocks, i) != 0
      modifies this`blocks, this`logged, this`writes, this`loose
      ensures SlotsFreed(i + 1, t)
    {
      hide Own, Played;
      HeldStep(g, t.files, t.blocks, t.loose, t.i, i);
      HeldApart(g, t, i);
      FreeOne(b, t, Held(t.f(), t.blocks, i, SLOTS));
    }

    /** itrunc's loop over the entries of the indirect block `a`, then that block itself. */
    method FreeIndirect(a: nat, ghost t: Truncation)
      requires Valid() && Started(g, t.i, t) && a == t.f().addrs[INDIRECT] != 0
      requires Freeing(g, t, blocks, Held(t.f(), t.blocks, INDIRECT, SLOTS))
      requires loose == t.loose + Held(t.f(), t.blocks, INDIRECT, SLOTS)
      modifies this`blocks, this`logged, this`writes, this`loose
      ensures Valid() && Freeing(g, t, blocks, {}) && loose == t.loose
    {
      HeldStep(g, t.files, t.blocks, t.loose, t.i, INDIRECT);
      HeldApart(g, t, INDIRECT);
      IndirectIsData(g, t.files, t.blocks, t.loose, t.i);
      var bp := blocks[a];
      var j := 0;
      while j < NINDIRECT
        invariant 0 <= j <= NINDIRECT && Valid()
        invariant Freeing(g, t, blocks, {a} + Held(t.f(), t.blocks, INDIRECT + 1 + j, SLOTS))
        invariant loose == t.loose + ({a} + Held(t.f(), t.blocks, INDIRECT + 1 + j, SLOTS))
        invariant a !in Held(t.f(), t.blocks, INDIRECT + 1 + j, SLOTS)
      {
        FreeRound(a, bp, j, t);
        j := j + 1;
      }
      assert Held(t.f(), t.blocks, SLOTS, SLOTS) == {};
      FreeOne(a, t, {a} + Held(t.f(), t.blocks, SLOTS, SLOTS));
      assert {a} + {} - {a} == {};
    }

    /** One round of that loop. */
    method FreeRound(a: nat, bp: Block, j: nat, ghost t: Truncation)
      requires Valid() && Started(g, t.i, t) && j < NINDIRECT && a == t.f().addrs[INDIRECT] != 0 && a < |t.blocks|
      requires bp == t.blocks[a]
      requires Freeing(g, t, blocks, {a} + Held(t.f(), t.blocks, INDIRECT + 1 + j, SLOTS))
      requires loose == t.loose + ({a} + Held(t.f(), t.blocks, INDIRECT + 1 + j, SLOTS)) && a !in t.loose
      requires a in Held(t.f(), t.blocks, INDIRECT, SLOTS) && a !in Held(t.f(), t.blocks, INDIRECT + 1 + j, SLOTS)
      modifies this`blocks, this`logged, this`writes, this`loose
      ensures Valid() && Freeing(g, t, blocks, {a} + Held(t.f(), t.blocks, INDIRECT + 2 + j, SLOTS))
      ensures loose == t.loose + ({a} + Held(t.f(), t.blocks, INDIRECT + 2 + j, SLOTS))
      ensures a !in Held(t.f(), t.blocks, INDIRECT + 2 + j, SLOTS)
    {
      hide Own, Freeing, Held;
      HeldStep(g, t.files, t.blocks, t.loose, t.i, INDIRECT + 1 + j);
      HeldApart(g, t, INDIRECT + 1 + j);
      assert WordAt(bp, j) == Ref(t.f(), t.blocks, INDIRECT + 1 + j);
      if WordAt(bp, j) != 0 {
        FreeEntry(a, j, WordAt(bp, j), t);
      } else {
        NothingHeld(t, j);
      }
    }

    lemma NothingHeld(t: Truncation, j: nat)
      requires t.i in t.files && j < NINDIRECT && Ref(t.f(), t.blocks, INDIRECT + 1 + j) == 0
      ensures Held(t.f(), t.blocks, INDIRECT + 2 + j, SLOTS) == Held(t.f(), t.blocks, INDIRECT + 1 + j, SLOTS)
    {
    }

    method FreeEntry(a: nat, j: nat, b: nat, ghost t: Truncation)
      requires Valid() && Started(g, t.i, t) && j < NINDIRECT && a in Held(t.f(), t.blocks, INDIRECT, SLOTS)
      requires a !in t.loose
      requires var rest := Held(t.f(), t.blocks, INDIRECT + 1 + j, SLOTS);
        && a !in rest && b in rest && Freeing(g, t, blocks, {a} + rest)
        && loose == t.loose + ({a} + rest) && t.loose !! rest
      modifies this`blocks, this`logged, this`writes, this`loose
      ensures var rest := Held(t.f(), t.blocks, INDIRECT + 1 + j, SLOTS) - {b};
        Valid() && Freeing(g, t, blocks, {a} + rest) && loose == t.loose + ({a} + rest)
    {
      ghost var rest := Held(t.f(), t.blocks, INDIRECT + 1 + j, SLOTS);
      FreeOne(b, t, {a} + rest);
      assert {a} + rest - {b} == {a} + (rest - {b});
    }

    /** itrunc: exactly the inode's own blocks become free. */
    method Itrunc(ip: Inode)
      requires Has(ip) && ip.inum < g.ninodes
      modifies this`blocks, this`logged, this`loose, this`files, this`writes, ip`size, ip.addrs
      ensures Has(ip) && loose == old(loose) && ip.size == 0 && ip.addrs[..] == NoAddrs()
      ensures forall x: nat :: x < g.size ==>
        (Marked(g, blocks, x) <==> old(Marked(g, blocks, x)) && x !in old(Holdings(ip.Value(), blocks)))
      ensures OthersKept(old(files), old(blocks), files, blocks, ip.inum)
      ensures forall j: nat :: j < g.ninodes ==>
                OnDisk(g, blocks, j) == if j == ip.inum then ip.Value() else old(OnDisk(g, blocks, j))
    {
      hide Played, Own, Marked, OthersKept, Held, OnDisk;
      SizeIsOk();
      ghost var t := Truncation(files, blocks, loose, ip.inum);
      ghost var f := t.f().(size := 0, addrs := NoAddrs());
      DetachKeepsOwn(g, files, blocks, loose, ip.inum, f);
      HeldIsHoldings(t.f(), blocks);
      files, loose := files[ip.inum := f], loose + Held(t.f(), blocks, 0, SLOTS);
      FreeAll(ip, t);
      ghost var freed := blocks;
      FreedKeepsInodes(g, t, freed);
      Iupdate(ip);
      SizeIsOk();
      TruncatedRest(g, t, files, freed, blocks);
      FreedMarks(g, t, freed);
    }

    /** itrunc's loops, and size = 0. */
    method FreeAll(ip: Inode, ghost t: Truncation)
      requires Valid() && ip.Valid() && Started(g, ip.inum, t) && ip.Value() == t.f()
      requires blocks == t.blocks && loose == t.loose + Held(t.f(), t.blocks, 0, SLOTS)
      modifies this`blocks, this`logged, this`loose, this`writes, ip`size, ip.addrs
      ensures Valid() && Freeing(g, t, blocks, {}) && loose == t.loose
      ensures ip.Value() == t.f().(size := 0, addrs := NoAddrs())
    {
      hide Played, Own, Marked;
      FreeDirect(ip, t);
      if ip.addrs[INDIRECT] != 0 {
        FreeIndirect(ip.addrs[INDIRECT], t);
        ip.addrs[INDIRECT] := 0;
      } else {
        assert Held(t.f(), t.blocks, INDIRECT, SLOTS) == {};
      }
      ip.size := 0;
      assert ip.addrs[..] == NoAddrs();
    }

    /** type = 0 and iupdate. */
    method ClearType(ip: Inode)
      requires Has(ip) && ip.inum < g.ninodes
      modifies this`files, this`blocks, this`logged, this`writes, ip`typ
      ensures Has(ip) && ip.typ == 0 && files == old(files)[ip.inum := ip.Value()] && |blocks| == |old(blocks)|
      ensures forall j: nat :: j < g.ninodes ==>
                OnDisk(g, blocks, j) == if j == ip.inum then ip.Value() else OnDisk(g, old(blocks), j)
      ensures forall b :: 0 <= b < |blocks| && b != InodeBlock(g, ip.inum) ==> blocks[b] == old(blocks)[b]
      ensures forall j: nat, l: nat :: j in files && l < SLOTS ==>
                Ref(files[j], blocks, l) == Ref(files[j], old(blocks), l)
    {
      hide Own;
      ip.typ := 0;
      HeaderKeepsOwn(g, files, blocks, loose, ip.inum, ip.Value());
      files := files[ip.inum := ip.Value()];
      Iupdate(ip);
    }

    /** The branch of iput that frees an inode without links or other references: its blocks and
        its on-disk inode. */
    method FreeInode(ip: Inode)
      requires Has(ip) && ip.inum < g.ninodes
      modifies this`blocks, this`logged, this`loose, this`files, this`writes, ip, ip.addrs
      ensures Valid() && loose == old(loose) && files == old(files) - {ip.inum}
      ensures OnDisk(g, blocks, ip.inum).typ == 0
      ensures forall j: nat :: j < g.ninodes && j != ip.inum ==> OnDisk(g, blocks, j) == old(OnDisk(g, blocks, j))
      ensures forall x: nat :: x < g.size ==>
        (Marked(g, blocks, x) <==> old(Marked(g, blocks, x)) && x !in old(Holdings(ip.Value(), blocks)))
      ensures OthersKept(old(files) - {ip.inum}, old(blocks), files, blocks, ip.inum)
    {
      hide Own, OthersKept, Marked, OnDisk, Ref;
      ghost var files0, blocks0 := files, blocks;
      SizeIsOk();
      Itrunc(ip);
      ghost var files1, blocks1 := files, blocks;
      SizeIsOk();
      ClearType(ip);
      SizeIsOk();
      MapsUntouched(g, blocks1, blocks, ip.inum);
      HeaderKeepsOthers(files0, blocks0, files1, files, blocks1, ip.inum);
      UpdateKeepsOthers(g, files0, blocks0, files, blocks1, blocks, loose, ip.inum);
      DropKeepsOwn(g, files, blocks, loose, ip.inum);
      files := files - {ip.inum};
      assert files == files0 - {ip.inum};
    }

    /** One transaction of filewrite: begin_op, writei of up to MAXCHUNK bytes, end_op. */
    method WriteTransaction(ip: Inode, src: seq<byte>, off: uint32) returns (ok: bool, r: int)
      requires Has(ip) && ip.inum < g.ninodes && NoHoles(ip.Value(), blocks) && off <= ip.size && 0 < |src| <= MAXCHUNK
      modifies this, ip`size, ip.addrs
      ensures !ok ==> Full()
      ensures ok ==> Has(ip) && loose == old(loose) && NoHoles(ip.Value(), blocks) && |logged| <= MAXOPBLOCKS
      ensures ok ==> begun == old(blocks)
      ensures ok && old(OnDisk(g, blocks, ip.inum) == ip.Value()) ==> OnDisk(g, blocks, ip.inum) == ip.Value()
      ensures ok && g.size < BPB ==> |logged| < MAXOPBLOCKS
      ensures ok ==> ip.size <= MAXBYTES && (r != -1 ==> off + |src| <= ip.size) && ip.size >= old(ip.size)
      ensures ok ==> OthersKept(old(files), old(blocks), files, blocks, ip.inum)
      ensures r == -1 <==> off + |src| > MAXBYTES
      ensures ok ==> r == -1 || r == |src|
      ensures ok ==>
                Bytes(ip.Value(), blocks) == if r == -1 then old(Bytes(ip.Value(), blocks))
                                             else Splice(old(Bytes(ip.Value(), blocks)), off, src)
    {
      hide Own, Ref;
      logged, begun, writes := {}, blocks, [];
      ok, r := Writei(ip, src, off);
      assert logged - {} == logged;
    }

    /** The first i bytes of src are in the file from offset off on, and all else is as in `start`. */
    ghost predicate Holding(ip: Inode, src: seq<byte>, off: nat, i: nat, start: Snapshot)
      requires i <= |src|
      reads this, ip, ip.addrs
    {
      && Has(ip) && NoHoles(ip.Value(), blocks) && start.f.size <= MAXBYTES && off <= start.f.size
      && off + i <= ip.size <= MAXBYTES
      && OthersKept(start.files, start.blocks, files, blocks, ip.inum)
      && Bytes(ip.Value(), blocks) == Splice(Bytes(start.f, start.blocks), off, src[..i])
    }

    /** The inode on disk is as the cache has it. */
    ghost predicate Synced(ip: Inode)
      reads this, ip, ip.addrs
    {
      Has(ip) && ip.inum < g.ninodes && OnDisk(g, blocks, ip.inum) == ip.Value()
    }

    lemma HoldingReads(ip: Inode, src: seq<byte>, off: nat, i: nat, start: Snapshot)
      requires i <= |src| && Holding(ip, src, off, i, start) && Synced(ip)
      ensures start.f.size <= MAXBYTES
      ensures HasPrefix(g, ip.inum, blocks, Bytes(start.f, start.blocks), off, src, i)
    {
    }

    /** One round of filewrite's loop, which is one transaction. */
    method FilewriteRound(ip: Inode, src: seq<byte>, off: nat, i: nat, ghost start: Snapshot)
      returns (ok: bool, r: int, i': nat, ghost txn: Txn)
      requires i < |src| && Holding(ip, src, off, i, start) && ip.inum < g.ninodes
      modifies this, ip`size, ip.addrs
      ensures !ok ==> Full()
      ensures i' <= |src| && (ok ==> loose == old(loose) && i' == if r == -1 then i else i + r)
      ensures ok && r != -1 ==> r > 0
      ensures ok ==> Holding(ip, src, off, i', start) && (old(Synced(ip)) ==> Synced(ip))
      ensures ok ==> txn.before == old(blocks) && txn.After() == blocks
      ensures ok ==> (r == -1 <==> off + i + (if |src| - i > MAXCHUNK then MAXCHUNK else |src| - i) > MAXBYTES)
    {
      hide Own, OthersKept, Splice, Bytes, NoHoles, Ref, OnDisk, Played;
      var n1 := if |src| - i > MAXCHUNK then MAXCHUNK else |src| - i;
      ghost var files1, blocks1 := files, blocks;
      BytesLength(ip.Value(), blocks);
      BytesLength(start.f, start.blocks);
      SpliceTwice(Bytes(start.f, start.blocks), off, src[..i], src[i..i + n1]);
      assert src[..i] + src[i..i + n1] == src[..i + n1];
      ok, r := WriteTransaction(ip, src[i..i + n1], off + i);
      OthersTransitive(start.files, start.blocks, files1, blocks1, files, blocks, ip.inum);
      i', txn := i, Txn(begun, writes);
      if ok {
        BytesLength(ip.Value(), blocks);
        i' := if r == -1 then i else i + r;
      }
    }

    lemma HoldsNothing(ip: Inode, src: seq<byte>, off: nat)
      requires Has(ip) && NoHoles(ip.Value(), blocks) && off <= ip.size
      ensures Holding(ip, src, off, 0, Snap(ip))
    {
      BytesLength(ip.Value(), blocks);
      assert Splice(Bytes(ip.Value(), blocks), off, src[..0]) == Bytes(ip.Value(), blocks);
    }

    /** filewrite on an inode opened for writing, in transactions of at most MAXCHUNK bytes.  The
        file holds exactly the first `off' - off` bytes of src, all of them if they fit; and if the
        inode on disk was up to date, the disk after each transaction holds a prefix of them. */
    method Filewrite(ip: Inode, src: seq<byte>, off: uint32)
      returns (ok: bool, r: int, off': nat, ghost txns: seq<Txn>, ghost ns: seq<nat>)
      requires Has(ip) && ip.inum < g.ninodes && NoHoles(ip.Value(), blocks) && off <= ip.size && |src| < 0x8000_0000
      modifies this, ip`size, ip.addrs
      ensures !ok ==> Full()
      ensures ok ==> loose == old(loose) && off <= off' <= off + |src|
      ensures ok ==> Holding(ip, src, off, off' - off, old(Snap(ip)))
      ensures ok ==> r == if off + |src| <= MAXBYTES then |src| else -1
      ensures ok && r != -1 ==> off' == off + |src|
      ensures ok && old(Synced(ip)) ==>
                Synced(ip) && Steps(g, ip.inum, old(blocks), txns, blocks, old(Bytes(ip.Value(), blocks)), off, src, ns)
    {
      hide Own, OthersKept, Splice, Bytes, NoHoles, Ref, OnDisk, Played;
      ghost var start := Snap(ip);
      HoldsNothing(ip, src, off);
      var i;
      ok, r, i, txns, ns := FilewriteLoop(ip, src, off, start);
      off' := off + i;
    }

    /** The first i bytes have been written, in the transactions txns. */
    ghost predicate Progress(ip: Inode, src: seq<byte>, off: nat, i: nat, start: Snapshot, synced: bool,
                             txns: seq<Txn>, ns: seq<nat>)
      requires i <= |src|
      reads this, ip, ip.addrs
    {
      && Holding(ip, src, off, i, start) && ip.inum < g.ninodes && |ns| == |txns| + 1 && ns[|txns|] == i
      && (synced ==>
            && Synced(ip) && start.f.size <= MAXBYTES
            && Steps(g, ip.inum, start.blocks, txns, blocks, Bytes(start.f, start.blocks), off, src, ns))
    }

    /** filewrite's loop; i counts the bytes written. */
    method FilewriteLoop(ip: Inode, src: seq<byte>, off: nat, ghost start: Snapshot)
      returns (ok: bool, r: int, i: nat, ghost txns: seq<Txn>, ghost ns: seq<nat>)
      requires Holding(ip, src, off, 0, start) && ip.inum < g.ninodes && off <= MAXBYTES && start == Snap(ip)
      modifies this, ip`size, ip.addrs
      ensures !ok ==> Full()
      ensures i <= |src| && (ok ==> loose == old(loose) && Holding(ip, src, off, i, start))
      ensures ok ==> r == (if off + |src| <= MAXBYTES then |src| else -1) && (r != -1 ==> i == |src|)
      ensures ok ==> Progress(ip, src, off, i, start, old(Synced(ip)), txns, ns)
    {
      i, ok, txns, ns := 0, true, [], [0];
      StepsNone(ip, src, off, start);
      while i < |src|
        invariant 0 <= i <= |src| && loose == old(loose) && ok && off + i <= MAXBYTES
        invariant Progress(ip, src, off, i, start, old(Synced(ip)), txns, ns)
      {
        var i';
        ok, r, i', txns, ns := NextRound(ip, src, off, i, start, old(Synced(ip)), txns, ns);
        if !ok {
          return;
        }
        i := i';
        if r < 0 {
          break;
        }
      }
      r := if i == |src| then |src| else -1;
    }

    lemma StepsNone(ip: Inode, src: seq<byte>, off: nat, start: Snapshot)
      requires Holding(ip, src, off, 0, start) && ip.inum < g.ninodes && start == Snap(ip)
      ensures Progress(ip, src, off, 0, start, Synced(ip), [], [0])
    {
      if Synced(ip) {
        HoldingReads(ip, src, off, 0, start);
      }
    }

    method NextRound(ip: Inode, src: seq<byte>, off: nat, i: nat, ghost start: Snapshot, ghost synced: bool,
                     ghost txns: seq<Txn>, ghost ns: seq<nat>)
      returns (ok: bool, r: int, i': nat, ghost txns': seq<Txn>, ghost ns': seq<nat>)
      requires i < |src| && Progress(ip, src, off, i, start, synced, txns, ns)
      modifies this, ip`size, ip.addrs
      ensures !ok ==> Full()
      ensures i' <= |src| && (ok ==> loose == old(loose) && i' == if r == -1 then i else i + r)
      ensures ok && r != -1 ==> r > 0
      ensures ok ==> Progress(ip, src, off, i', start, synced, txns', ns')
      ensures ok ==> (r == -1 <==> off + i + (if |src| - i > MAXCHUNK then MAXCHUNK else |src| - i) > MAXBYTES)
    {
      hide Own, OthersKept, Splice, Bytes, NoHoles, Ref, OnDisk, Played, Steps;
      ghost var txn;
      ghost var d := blocks;
      ok, r, i', txn := FilewriteRound(ip, src, off, i, start);
      txns', ns' := txns + [txn], ns + [i'];
      if ok && synced {
        HoldingReads(ip, src, off, i', start);
        StepMore(g, ip.inum, start.blocks, txns, d, Bytes(start.f, start.blocks), off, src, ns, txn, i');
      }
    }
  }
}
