/** The code of v3/log.c over the buffer cache.  Its methods are shown to make exactly the
    disk writes that RedoLog describes and the moves that LogProtocol allows. */
module LogDriver {
  import opened Blocks
  import opened LogProtocol
  import opened RedoLog
  import opened BufferCache

  ghost function DirtyBlocks(s: seq<Buf>): set<nat> {
    set i: nat | i < |s| && s[i].dirty :: s[i].blockno
  }

  function Members(xs: seq<nat>): set<nat> {
    set x | x in xs
  }

  /** The buffers that somebody refers to. */
  function Away(s: seq<Buf>): set<nat> {
    set i: nat | i < |s| && s[i].refcnt > 0
  }

  /** Nobody refers to a buffer of block x. */
  ghost predicate ClearOf(s: seq<Buf>, x: nat) {
    forall i :: 0 <= i < |s| && s[i].refcnt > 0 ==> !Holds(s[i], ROOTDEV, x)
  }

  /** Nobody refers to a logged block, the header or a used log block. */
  ghost predicate Apart(lay: Layout, blks: seq<nat>, s: seq<Buf>) {
    && (forall x :: x in blks ==> ClearOf(s, x))
    && (forall x :: lay.start <= x <= lay.start + |blks| ==> ClearOf(s, x))
  }

  /** Buffers that somebody refers to are as before, and nobody refers to another one. */
  ghost predicate Untouched(s: seq<Buf>, s': seq<Buf>) {
    && |s'| == |s|
    && forall i :: 0 <= i < |s| ==> if s[i].refcnt > 0 then s'[i] == s[i] else s'[i].refcnt == 0
  }

  lemma UntouchedKeeps(lay: Layout, blks: seq<nat>, s: seq<Buf>, s': seq<Buf>)
    requires Untouched(s, s')
    ensures Away(s') == Away(s) && (Apart(lay, blks, s) ==> Apart(lay, blks, s'))
  {
    forall x: nat | ClearOf(s, x) ensures ClearOf(s', x) {
    }
  }

  lemma UntouchedOn(s: seq<Buf>, s': seq<Buf>, s'': seq<Buf>)
    requires Untouched(s, s') && Untouched(s', s'')
    ensures Untouched(s, s'')
  {
  }

  lemma ShownClean(s: seq<Buf>, disk: Disk, held: set<nat>, b: nat)
    requires Sound(s, disk, held) && b < |disk| && b !in DirtyBlocks(s) && ClearOf(s, b)
    ensures View(s, disk)[b] == disk[b]
  {
    ShownIs(s, disk, b);
    forall i: nat | Caches(s, i, b)
      ensures !s[i].dirty && i !in held
    {
      assert Holds(s[i], ROOTDEV, b);
    }
  }

  /** Enough free buffers to read src and dst at once. */
  ghost predicate Room(s: seq<Buf>, src: nat, dst: nat) {
    |FreeBufs(s)| >= 2 || (|FreeBufs(s)| >= 1 && (src in DirtyBlocks(s) || dst in DirtyBlocks(s)))
  }

  /** A buffer as one bread of the block leaves it. */
  predicate Read(b: Buf, blockno: nat, view: Disk, disk: Disk) {
    && b.valid && Holds(b, ROOTDEV, blockno) && b.refcnt == 1 && blockno < |view| == |disk|
    && b.data == view[blockno] && (b.dirty || b.data == disk[blockno])
  }

  lemma SecondReadFinds(s: seq<Buf>, s': seq<Buf>, i: nat, x: nat, y: nat)
    requires |s| == |s'| == NBUF && Unique(s) && Room(s, x, y) && i < NBUF && x != y
    requires forall k :: 0 <= k < NBUF && s[k].dirty ==> s[k].dev == ROOTDEV
    requires s' == s[i := s'[i]] && Fetched(s, s'[i], i, x)
    ensures FreeBufs(s') != {} || exists k :: 0 <= k < NBUF && Holds(s'[k], ROOTDEV, y)
  {
    assert FreeBufs(s') == FreeBufs(s) - {i};
    if x in DirtyBlocks(s) {
      var k: nat :| k < |s| && s[k].dirty && s[k].blockno == x;
      assert Caches(s, k, x) && Holds(s[k], ROOTDEV, x);
      assert Caches(s, i, x);
      assert i !in FreeBufs(s);
    } else if y in DirtyBlocks(s) {
      var k: nat :| k < |s| && s[k].dirty && s[k].blockno == y;
      assert Holds(s'[k], ROOTDEV, y);
    } else {
      assert |FreeBufs(s) - {i}| >= 1;
    }
  }

  lemma FetchKeepsDirt(s: seq<Buf>, s': seq<Buf>, b: nat, blockno: nat)
    requires b < |s| == |s'| == NBUF && s' == s[b := s'[b]] && Fetched(s, s'[b], b, blockno)
    ensures DirtyBlocks(s') == DirtyBlocks(s)
  {
    assert forall k: nat :: k < NBUF ==> s'[k].dirty == s[k].dirty && (s[k].dirty ==> s'[k].blockno == s[k].blockno);
  }

  lemma CopyUndirties(s: seq<Buf>, from: nat, to: nat)
    requires |s| == NBUF && Unique(s) && from < NBUF && to < NBUF && from != to && s[to].dev == ROOTDEV
    requires forall k :: 0 <= k < NBUF && s[k].dirty ==> s[k].dev == ROOTDEV
    ensures DirtyBlocks(Copied(s, from, to)) == DirtyBlocks(s) - {s[to].blockno}
  {
    var s' := Copied(s, from, to);
    forall k: nat | k < NBUF && s[k].dirty && k != to
      ensures s[k].blockno != s[to].blockno && s'[k].dirty && s'[k].blockno == s[k].blockno
    {
      assert Caches(s, to, s[to].blockno);
      assert Caches(s, k, s[k].blockno);
    }
  }

  lemma PinDirties(s: seq<Buf>, s': seq<Buf>, b: nat, blockno: nat)
    requires b < |s| == |s'| && s[b].blockno == s'[b].blockno == blockno && s'[b].dirty && s' == s[b := s'[b]]
    ensures DirtyBlocks(s') == DirtyBlocks(s) + {blockno}
  {
    forall x | x in DirtyBlocks(s)
      ensures x in DirtyBlocks(s')
    {
      var k: nat :| k < |s| && s[k].dirty && s[k].blockno == x;
      assert s'[k].dirty && s'[k].blockno == x;
    }
    assert s'[b].blockno in DirtyBlocks(s');
  }

  function Copied(s: seq<Buf>, from: nat, to: nat): seq<Buf>
    requires from < |s| && to < |s|
  {
    s[to := s[to].(refcnt := 0, data := s[from].data, dirty := false)][from := s[from].(refcnt := 0)]
  }

  lemma CopiedUntouched(s: seq<Buf>, s1: seq<Buf>, from: nat, to: nat)
    requires from < |s| && to < |s| && from != to && s[from].refcnt == 0 && s[to].refcnt == 0 && |s1| == |s|
    requires s1 == s[from := s1[from]][to := s1[to]]
    ensures Untouched(s, Copied(s1, from, to))
  {
  }

  lemma HeldElsewhere(s: seq<Buf>, disk: Disk, held: set<nat>, x: nat)
    requires Sound(s, disk, held) && ClearOf(s, x)
    ensures |s| == NBUF && forall i :: i in held ==> i < |s| && s[i].blockno != x
  {
  }

  /** A bread of a block to whose buffer nobody refers leaves the only reference. */
  lemma FetchedFirst(s: seq<Buf>, now: Buf, b: nat, blockno: nat)
    requires b < |s| == NBUF && Fetched(s, now, b, blockno) && ClearOf(s, blockno)
    ensures s[b].refcnt == 0 && now.refcnt == 1
  {
  }

  lemma StoredUndirties(s: seq<Buf>, s': seq<Buf>, b: nat)
    requires b < |s| == |s'| && !s[b].dirty && !s'[b].dirty && s' == s[b := s'[b]]
    ensures DirtyBlocks(s') == DirtyBlocks(s)
  {
    forall k: nat | k < |s| && s[k].dirty ensures s'[k] == s[k] {
    }
  }

  // Buffers left over by a transaction

  lemma {:induction false} PinnedAtMost(s: seq<Buf>, pinned: set<nat>, blks: seq<nat>)
    requires Unique(s) && forall i :: i in pinned ==> i < |s| && s[i].dev == ROOTDEV && s[i].blockno in blks
    ensures |pinned| <= |blks|
    decreases |blks|
  {
    if blks == [] {
      assert forall i :: i !in pinned;
    } else {
      var last := blks[|blks| - 1];
      if i :| i in pinned && s[i].blockno == last {
        forall j | j in pinned - {i}
          ensures s[j].blockno in blks[..|blks| - 1]
        {
          assert Caches(s, i, last) && (Caches(s, j, last) ==> i == j);
        }
        PinnedAtMost(s, pinned - {i}, blks[..|blks| - 1]);
      } else {
        PinnedAtMost(s, pinned, blks[..|blks| - 1]);
      }
    }
  }

  lemma {:induction false} UpTo(n: nat) returns (all: set<nat>)
    ensures |all| == n && forall i: nat :: i in all <==> i < n
  {
    if n == 0 {
      all := {};
    } else {
      all := UpTo(n - 1);
      all := all + {n - 1};
    }
  }

  /** Besides the buffers that somebody refers to, only the logged blocks take buffers out of circulation. */
  lemma FreeBesides(s: seq<Buf>, disk: Disk, held: set<nat>, blks: seq<nat>)
    requires Sound(s, disk, held) && forall b :: b in DirtyBlocks(s) ==> b in blks
    ensures |FreeBufs(s)| >= NBUF - |blks| - |Away(s)|
  {
    var pinned := set i: nat | i < |s| && s[i].dirty;
    forall i | i in pinned
      ensures s[i].blockno in blks
    {
      assert s[i].blockno in DirtyBlocks(s);
    }
    PinnedAtMost(s, pinned, blks);
    var all := UpTo(NBUF);
    assert all == FreeBufs(s) + (pinned + Away(s));
    assert |pinned + Away(s)| <= |pinned| + |Away(s)|;
  }

  /** What is left to install is pinned, or nothing is, and there are buffers enough. */
  ghost predicate DirtyTail(s: seq<Buf>, blks: seq<nat>, tail: nat)
    requires tail <= |blks|
  {
    || (DirtyBlocks(s) == {} && |Away(s)| + 2 <= NBUF)
    || (DirtyBlocks(s) == Members(blks[tail..]) && |blks| + |Away(s)| < NBUF)
  }

  lemma RoomToInstall(s: seq<Buf>, disk: Disk, held: set<nat>, blks: seq<nat>, tail: nat, src: nat)
    requires Sound(s, disk, held) && tail < |blks| && DirtyTail(s, blks, tail)
    ensures Room(s, src, blks[tail])
  {
    if DirtyBlocks(s) == {} && |Away(s)| + 2 <= NBUF {
      FreeBesides(s, disk, held, []);
    } else {
      FreeBesides(s, disk, held, blks[tail..]);
      assert blks[tail..][0] in DirtyBlocks(s);
    }
  }

  lemma DropInstalled(blks: seq<nat>, tail: nat)
    requires tail < |blks| && NoDuplicates(blks)
    ensures Members(blks[tail..]) - {blks[tail]} == Members(blks[tail + 1..])
  {
    assert blks[tail..] == [blks[tail]] + blks[tail + 1..];
  }

  // The sequences of disk images that the code writes

  function CopyTrace(lay: Layout, d: Disk, blks: seq<nat>, view: Disk, k: nat): (t: seq<Image>)
    requires LayoutOk(lay, d) && HomeList(lay, d, blks) && |view| == |d| && k <= |blks|
    ensures |t| == k && forall j :: 0 <= j < k ==> t[j] == Image(CopyToLog(lay, d, blks, view, j + 1))
  {
    if k == 0 then [] else CopyTrace(lay, d, blks, view, k - 1) + [Image(CopyToLog(lay, d, blks, view, k))]
  }

  function InstallTrace(lay: Layout, d: Disk, blks: seq<nat>, k: nat): (t: seq<Image>)
    requires LayoutOk(lay, d) && HomeList(lay, d, blks) && k <= |blks|
    ensures |t| == k && forall j :: 0 <= j < k ==> t[j] == Image(Install(lay, d, blks, j + 1))
  {
    if k == 0 then [] else InstallTrace(lay, d, blks, k - 1) + [Image(Install(lay, d, blks, k))]
  }

  /** install_trans and the clearing write_head, from disk d. */
  function ClearTrace(lay: Layout, d: Disk, blks: seq<nat>): seq<Image>
    requires LayoutOk(lay, d) && HomeList(lay, d, blks)
  {
    InstallTrace(lay, d, blks, |blks|) + [Image(Cleared(lay, d, blks))]
  }

  function Cleared(lay: Layout, d: Disk, blks: seq<nat>): Disk
    requires LayoutOk(lay, d) && HomeList(lay, d, blks)
  {
    Install(lay, d, blks, |blks|)[lay.start := PutHead(d[lay.start], [], 0)]
  }

  function SealTrace(lay: Layout, d: Disk, blks: seq<nat>, view: Disk): seq<Image>
    requires LayoutOk(lay, d) && HomeList(lay, d, blks) && |view| == |d|
  {
    CopyTrace(lay, d, blks, view, |blks|) + [Image(Sealed(lay, d, blks, view))]
  }

  function CommitTrace(lay: Layout, d: Disk, blks: seq<nat>, view: Disk): seq<Image>
    requires LayoutOk(lay, d) && HomeList(lay, d, blks) && |view| == |d|
  {
    assert HomeList(lay, Sealed(lay, d, blks, view), blks);
    SealTrace(lay, d, blks, view) + ClearTrace(lay, Sealed(lay, d, blks, view), blks)
  }

  lemma Concat(t: seq<Image>, t1: seq<Image>, t2: seq<Image>)
    ensures t + t1 + t2 == t + (t1 + t2)
  {
  }

  /** The j-th disk that commit() writes is the j-th image of the crash analysis. */
  lemma CommitTraceAt(lay: Layout, d: Disk, blks: seq<nat>, view: Disk, j: nat)
    requires LayoutOk(lay, d) && HomeList(lay, d, blks) && |view| == |d| && 1 <= j <= 2 * |blks| + 2
    ensures |CommitTrace(lay, d, blks, view)| == 2 * |blks| + 2
    ensures CommitTrace(lay, d, blks, view)[j - 1] == Image(CommitImage(lay, d, blks, view, j))
  {
    var n, sealed := |blks|, Sealed(lay, d, blks, view);
    assert HomeList(lay, sealed, blks);
    var head, tail := SealTrace(lay, d, blks, view), ClearTrace(lay, sealed, blks);
    if j <= n + 1 {
      assert CommitTrace(lay, d, blks, view)[j - 1] == head[j - 1];
    } else {
      assert CommitTrace(lay, d, blks, view)[j - 1] == tail[j - n - 2];
    }
  }

  /** So is the j-th disk that recover_from_log() writes. */
  lemma RecoveryTraceAt(lay: Layout, d: Disk, j: nat)
    requires GoodHead(lay, d) && 1 <= j <= HeadCount(d[lay.start]) + 1
    ensures var t := ClearTrace(lay, d, HeadList(d[lay.start]));
      |t| == HeadCount(d[lay.start]) + 1 && t[j - 1] == Image(RecoveryImage(lay, d, j))
  {
  }

  lemma AbsorbHome(lay: Layout, d: Disk, blks: seq<nat>, b: nat)
    requires LayoutOk(lay, d) && HomeList(lay, d, blks) && Home(lay, d, b)
    requires |blks| < LOGSIZE && |blks| < lay.size - 1
    ensures HomeList(lay, d, Absorb(blks, b)) && Members(Absorb(blks, b)) == Members(blks) + {b}
  {
  }

  /** A block that is neither logged nor in the log is shown the same by buffers that differ only where nobody
      refers to them and by disks that agree on it. */
  lemma UnloggedShown(s: seq<Buf>, d: Disk, s': seq<Buf>, d': Disk, held: set<nat>, b: nat)
    requires Sound(s, d, held) && Sound(s', d', held) && Untouched(s, s') && b < |d| == |d'| && d'[b] == d[b]
    requires b !in DirtyBlocks(s) && b !in DirtyBlocks(s')
    ensures View(s', d')[b] == View(s, d)[b]
  {
    ShownIs(s, d, b);
    ShownIs(s', d', b);
    if i: nat :| i < |s| && s[i].refcnt > 0 && Holds(s[i], ROOTDEV, b) {
      assert Caches(s, i, b) && Caches(s', i, b);
    } else {
      ShownClean(s, d, held, b);
      ShownClean(s', d', held, b);
    }
  }

  /** After a commit the disk itself shows what the cache showed before. */
  lemma CommitShowsSame(lay: Layout, s: seq<Buf>, d: Disk, held: set<nat>, blks: seq<nat>, s': seq<Buf>, d': Disk)
    requires LayoutOk(lay, d) && HomeList(lay, d, blks) && Sound(s, d, held) && DirtyBlocks(s) == Members(blks)
    requires Sound(s', d', held) && DirtyBlocks(s') == {} && Untouched(s, s') && Apart(lay, blks, s)
    requires HomeList(lay, Sealed(lay, d, blks, View(s, d)), blks)
    requires d' == Cleared(lay, Sealed(lay, d, blks, View(s, d)), blks)
    ensures SameHome(lay, View(s', d'), View(s, d))
  {
    var view := View(s, d);
    SealedRecovers(lay, d, blks, view);
    UntouchedKeeps(lay, blks, s, s');
    forall b: nat | Home(lay, d', b)
      ensures View(s', d')[b] == view[b]
    {
      if b in blks {
        ShownClean(s', d', held, b);
      } else {
        UnloggedShown(s, d, s', d', held, b);
      }
    }
  }

  /** The log and the cache at one moment. */
  datatype Before = Before(blks: seq<nat>, bufs: seq<Buf>, disk: Disk, view: Disk, held: set<nat>, trace: seq<Image>)

  class Log {
    const cache: Cache
    const lay: Layout
    const block: array<nat>     // log.lh.block
    var n: nat                  // log.lh.n
    var outstanding: nat
    var committing: bool
    ghost var ops: map<OpId, nat>
    ghost var passed: set<OpId>
    ghost var waiting: set<nat>
    ghost var nextOp: OpId

    /** initlog: recover what an earlier run of the system may have left in the log. */
    constructor (cache: Cache, lay: Layout)
      requires cache.Valid() && DirtyBlocks(cache.bufs[..]) == {} && |Away(cache.bufs[..])| + 2 <= NBUF
      requires GoodHead(lay, cache.disk) && Apart(lay, HeadList(cache.disk[lay.start]), cache.bufs[..])
      modifies cache, cache.bufs, cache.next, cache.prev
      ensures this.cache == cache && this.lay == lay && fresh(block) && Pinned() && Abs() == INIT
      ensures cache.held == old(cache.held) && Untouched(old(cache.bufs[..]), cache.bufs[..])
      ensures cache.disk == Recovered(lay, old(cache.disk))
      ensures cache.trace == old(cache.trace) + ClearTrace(lay, old(cache.disk), HeadList(old(cache.disk)[lay.start]))
    {
      this.cache, this.lay, n, outstanding, committing := cache, lay, 0, 0, false;
      ops, passed, waiting, nextOp := map[], {}, {}, 0;
      block := new nat[LOGSIZE];
      new;
      RecoverFromLog();
    }

    /** The state of the log protocol. */
    ghost function Abs(): Proto
      requires n <= block.Length
      reads this, block
    {
      Proto(Logged(), ops, passed, waiting, committing, nextOp)
    }

    /** Between the operations on the log; others may refer to buffers and hold them. */
    ghost predicate Rest()
      reads this, cache, cache.bufs, cache.next, cache.prev, block
    {
      && cache.Valid() && LayoutOk(lay, cache.disk)
      && block.Length == LOGSIZE && n <= LOGSIZE && block != cache.next && block != cache.prev
    }

    /** Two breads in a row never run out of buffers. */
    method ReadTwo(x: nat, y: nat) returns (i: nat, j: nat)
      requires Rest() && x != y && x < |cache.disk| && y < |cache.disk| && Room(cache.bufs[..], x, y)
      requires ClearOf(cache.bufs[..], x) && ClearOf(cache.bufs[..], y)
      modifies cache`held, cache.bufs
      ensures cache.Valid() && cache.Now() == old(cache.Now())
      ensures i < NBUF && j < NBUF && i !in old(cache.held) && j !in old(cache.held)
      ensures cache.held == old(cache.held) + {i, j}
      ensures Read(cache.bufs[i], x, cache.Now(), cache.disk) && Read(cache.bufs[j], y, cache.Now(), cache.disk)
      ensures DirtyBlocks(cache.bufs[..]) == old(DirtyBlocks(cache.bufs[..]))
      ensures cache.bufs[..] == old(cache.bufs[..])[i := cache.bufs[i]][j := cache.bufs[j]]
      ensures old(cache.bufs[..])[i].refcnt == 0 && old(cache.bufs[..])[j].refcnt == 0
    {
      hide Ring, View;
      var ok;
      ghost var s := cache.bufs[..];
      ok, i := cache.Bread(x);
      ghost var s1 := cache.bufs[..];
      SecondReadFinds(s, s1, i, x, y);
      FetchKeepsDirt(s, s1, i, x);
      FetchedFirst(s, s1[i], i, x);
      ok, j := cache.Bread(y);
      FetchKeepsDirt(s1, cache.bufs[..], j, y);
      assert s1[j] == s[j] && cache.bufs[i] == s1[i];
      FetchedFirst(s1, cache.bufs[j], j, y);
    }

    /** The body shared by write_log and install_trans: read both blocks, copy one over the
        other and write it through.  write_log reads the destination first. */
    method CopyBlock(src: nat, dst: nat, dstFirst: bool)
      requires Rest() && src != dst && src < |cache.disk| && dst < |cache.disk|
      requires Room(cache.bufs[..], src, dst) && ClearOf(cache.bufs[..], src) && ClearOf(cache.bufs[..], dst)
      modifies cache, cache.bufs, cache.next, cache.prev
      ensures Rest() && cache.held == old(cache.held) && Untouched(old(cache.bufs[..]), cache.bufs[..])
      ensures cache.disk == old(cache.disk)[dst := old(cache.Now())[src]]
      ensures cache.trace == old(cache.trace) + [Image(cache.disk)]
      ensures cache.Now() == old(cache.Now())[dst := old(cache.Now())[src]]
      ensures DirtyBlocks(cache.bufs[..]) == old(DirtyBlocks(cache.bufs[..])) - {dst}
    {
      hide Ring, View, DirtyBlocks, Sound;
      ghost var s, h := cache.bufs[..], cache.held;
      var from, to;
      if dstFirst {
        to, from := ReadTwo(dst, src);
      } else {
        from, to := ReadTwo(src, dst);
      }
      ghost var s1 := cache.bufs[..];
      CopyAndRelease(from, to);
      CopiedUntouched(s, s1, from, to);
      assert h + {from, to} - {from, to} == h;
    }

    method CopyAndRelease(from: nat, to: nat)
      requires cache.Valid() && {from, to} <= cache.held && cache.bufs[from].blockno != cache.bufs[to].blockno
      requires Read(cache.bufs[from], cache.bufs[from].blockno, cache.Now(), cache.disk)
      requires Read(cache.bufs[to], cache.bufs[to].blockno, cache.Now(), cache.disk)
      modifies cache, cache.bufs, cache.next, cache.prev
      ensures cache.Valid() && cache.held == old(cache.held) - {from, to}
      ensures var b := old(cache.bufs[..]);
        && cache.bufs[..] == Copied(b, from, to)
        && DirtyBlocks(cache.bufs[..]) == DirtyBlocks(b) - {b[to].blockno}
        && cache.disk == old(cache.disk)[b[to].blockno := b[from].data]
        && cache.Now() == old(cache.Now())[b[to].blockno := b[from].data]
      ensures cache.trace == old(cache.trace) + [Image(cache.disk)]
    {
      hide Ring, View, DirtyBlocks;
      ghost var s, h := cache.bufs[..], cache.held;
      assert from in h && to in h;
      WriteOver(from, to);
      cache.Brelse(from);
      cache.Brelse(to);
      assert cache.bufs[from] == s[from].(refcnt := 0);
      assert cache.bufs[..] == Copied(s, from, to);
      assert cache.held == h - {from, to};
      CopyUndirties(s, from, to);
    }

    /** Store new data in a held buffer that nobody else refers to, bwrite and brelse it. */
    method StoreAndRelease(b: nat, data: Block)
      requires cache.Valid() && b in cache.held && cache.bufs[b].valid && cache.bufs[b].refcnt == 1
      modifies cache, cache.bufs, cache.next, cache.prev
      ensures cache.Valid() && cache.held == old(cache.held) - {b}
      ensures var s := old(cache.bufs[..]);
        && cache.bufs[..] == s[b := s[b].(refcnt := 0, data := data, dirty := false)]
        && cache.disk == old(cache.disk)[s[b].blockno := data]
        && cache.Now() == old(cache.Now())[s[b].blockno := data]
      ensures cache.trace == old(cache.trace) + [Image(cache.disk)]
    {
      hide Ring, View;
      ghost var s := cache.bufs[..];
      cache.Store(b, data);
      cache.Bwrite(b);
      cache.Brelse(b);
      assert cache.bufs[..] == s[b := s[b].(refcnt := 0, data := data, dirty := false)];
    }

    /** memmove and bwrite. */
    method WriteOver(from: nat, to: nat)
      requires cache.Valid() && from in cache.held && to in cache.held && from != to
      requires Read(cache.bufs[to], cache.bufs[to].blockno, cache.Now(), cache.disk)
      modifies cache`disk, cache`trace, cache.bufs
      ensures cache.Valid()
      ensures var b := old(cache.bufs[..]);
        && cache.bufs[..] == b[to := b[to].(data := b[from].data, dirty := false)]
        && cache.disk == old(cache.disk)[b[to].blockno := b[from].data]
        && cache.Now() == old(cache.Now())[b[to].blockno := b[from].data]
      ensures cache.trace == old(cache.trace) + [Image(cache.disk)]
    {
      cache.Store(to, cache.bufs[from].data);
      cache.Bwrite(to);
    }

    ghost function Logged(): seq<nat>
      requires n <= block.Length
      reads this, block
    {
      block[..n]
    }

    /** The open transaction's blocks are home blocks, and exactly they are pinned. */
    ghost predicate Pinned()
      reads this, cache, cache.bufs, cache.next, cache.prev, block
    {
      && Rest() && HomeList(lay, cache.disk, Logged())
      && DirtyBlocks(cache.bufs[..]) == Members(Logged())
    }

    /** A commit can run: others refer to no block that it moves, and leave it a buffer to work with. */
    ghost predicate Unhindered()
      reads this, cache, cache.bufs, cache.next, cache.prev, block
    {
      && Pinned() && Apart(lay, Logged(), cache.bufs[..])
      && n + |Away(cache.bufs[..])| < NBUF && |Away(cache.bufs[..])| + 2 <= NBUF
    }

    /** One round of write_log. */
    method LogOne(tail: nat)
      requires Unhindered() && tail < n
      modifies cache, cache.bufs, cache.next, cache.prev
      ensures Unhindered() && SameHome(lay, cache.Now(), old(cache.Now()))
      ensures cache.held == old(cache.held) && Untouched(old(cache.bufs[..]), cache.bufs[..])
      ensures Home(lay, cache.disk, block[tail])
      ensures cache.disk == old(cache.disk)[lay.start + tail + 1 := old(cache.Now())[block[tail]]]
      ensures cache.trace == old(cache.trace) + [Image(cache.disk)]
    {
      hide Ring, View, Sound;
      ghost var blks, s := Logged(), cache.bufs[..];
      FreeBesides(s, cache.disk, cache.held, blks);
      assert blks[tail] in DirtyBlocks(s) && Home(lay, cache.disk, blks[tail]);
      assert forall b :: b in blks ==> Home(lay, cache.disk, b);
      assert ClearOf(s, blks[tail]) && ClearOf(s, lay.start + tail + 1);
      CopyBlock(block[tail], lay.start + tail + 1, true);
      UntouchedKeeps(lay, blks, s, cache.bufs[..]);
      assert forall i :: 0 <= i < |blks| ==> Home(lay, cache.disk, blks[i]);
    }

    /** write_log has copied the first `tail` blocks; `was` is the log and the cache before. */
    ghost predicate Copying(was: Before, tail: nat)
      reads this, cache, cache.bufs, cache.next, cache.prev, block
    {
      && Unhindered() && tail <= n && Logged() == was.blks && SameHome(lay, cache.Now(), was.view)
      && cache.held == was.held && Untouched(was.bufs, cache.bufs[..])
      && LayoutOk(lay, was.disk) && HomeList(lay, was.disk, was.blks) && |was.view| == |was.disk|
      && cache.disk == CopyToLog(lay, was.disk, was.blks, was.view, tail)
      && cache.trace == was.trace + CopyTrace(lay, was.disk, was.blks, was.view, tail)
    }

    method LogNext(tail: nat, ghost was: Before)
      requires Copying(was, tail) && tail < n
      modifies cache, cache.bufs, cache.next, cache.prev
      ensures Copying(was, tail + 1)
    {
      hide Ring, View, Sound, Untouched, Apart, DirtyBlocks;
      ghost var s1 := cache.bufs[..];
      LogOne(tail);
      UntouchedOn(was.bufs, s1, cache.bufs[..]);
      assert block[tail] == was.blks[tail];
    }

    method WriteLog()
      requires Unhindered()
      modifies cache, cache.bufs, cache.next, cache.prev
      ensures Unhindered() && SameHome(lay, cache.Now(), old(cache.Now()))
      ensures cache.held == old(cache.held) && Untouched(old(cache.bufs[..]), cache.bufs[..])
      ensures cache.disk == CopyToLog(lay, old(cache.disk), Logged(), old(cache.Now()), n)
      ensures cache.trace == old(cache.trace) + CopyTrace(lay, old(cache.disk), Logged(), old(cache.Now()), n)
    {
      ghost var was := Before(Logged(), cache.bufs[..], cache.disk, cache.Now(), cache.held, cache.trace);
      var tail := 0;
      while tail < n
        invariant 0 <= tail <= n && Copying(was, tail)
      {
        LogNext(tail, was);
        tail := tail + 1;
      }
    }

    /** write_head's loop over the entries. */
    method FillHead(hb: Block) returns (head: Block)
      requires n <= LOGSIZE == block.Length && forall i :: 0 <= i < n ==> block[i] < UINT
      ensures head == PutHead(hb, Logged(), n)
    {
      head := SetWord(hb, 0, n);
      var i := 0;
      while i < n
        invariant 0 <= i <= n && head == PutHead(hb, Logged(), i)
      {
        head := SetWord(head, i + 1, block[i]);
        i := i + 1;
      }
    }

    method WriteHead()
      requires Rest() && HomeList(lay, cache.disk, Logged()) && ClearOf(cache.bufs[..], lay.start)
      requires lay.start !in DirtyBlocks(cache.bufs[..]) && FreeBufs(cache.bufs[..]) != {}
      modifies cache, cache.bufs, cache.next, cache.prev
      ensures Rest() && DirtyBlocks(cache.bufs[..]) == old(DirtyBlocks(cache.bufs[..]))
      ensures cache.held == old(cache.held) && Untouched(old(cache.bufs[..]), cache.bufs[..])
      ensures forall i :: 0 <= i < n ==> block[i] < UINT
      ensures var hb := PutHead(old(cache.disk)[lay.start], Logged(), n);
        && cache.disk == old(cache.disk)[lay.start := hb]
        && cache.Now() == old(cache.Now())[lay.start := hb]
      ensures cache.trace == old(cache.trace) + [Image(cache.disk)]
    {
      hide Ring, View, Sound;
      ghost var blks, s, h := Logged(), cache.bufs[..], cache.held;
      assert forall i :: 0 <= i < |blks| ==> Home(lay, cache.disk, blks[i]);
      ShownClean(s, cache.disk, h, lay.start);
      HeldElsewhere(s, cache.disk, h, lay.start);
      var ok, b := cache.Bread(lay.start);
      FetchKeepsDirt(s, cache.bufs[..], b, lay.start);
      FetchedFirst(s, cache.bufs[b], b, lay.start);
      assert forall i :: 0 <= i < n ==> block[i] == blks[i];
      var head := FillHead(cache.bufs[b].data);
      ghost var s1 := cache.bufs[..];
      StoreAndRelease(b, head);
      StoredUndirties(s1, cache.bufs[..], b);
      assert h + {b} - {b} == h;
    }

    /** One round of install_trans. */
    method InstallOne(tail: nat)
      requires Rest() && tail < n && HomeList(lay, cache.disk, Logged()) && Apart(lay, Logged(), cache.bufs[..])
      requires DirtyTail(cache.bufs[..], Logged(), tail)
      modifies cache, cache.bufs, cache.next, cache.prev
      ensures Rest() && HomeList(lay, cache.disk, Logged()) && Apart(lay, Logged(), cache.bufs[..])
      ensures DirtyTail(cache.bufs[..], Logged(), tail + 1)
      ensures cache.held == old(cache.held) && Untouched(old(cache.bufs[..]), cache.bufs[..])
      ensures block[tail] < |cache.disk|
      ensures cache.disk == old(cache.disk)[block[tail] := Slot(lay, old(cache.disk), tail)]
      ensures cache.trace == old(cache.trace) + [Image(cache.disk)]
    {
      hide Ring, View, Sound;
      ghost var blks, d, s := Logged(), cache.disk, cache.bufs[..];
      RoomToInstall(s, d, cache.held, blks, tail, lay.start + tail + 1);
      assert forall i :: 0 <= i < |blks| ==> Home(lay, d, blks[i]);
      assert block[tail] == blks[tail];
      assert ClearOf(s, blks[tail]) && ClearOf(s, lay.start + tail + 1);
      ShownClean(s, d, cache.held, lay.start + tail + 1);
      CopyBlock(lay.start + tail + 1, block[tail], false);
      UntouchedKeeps(lay, blks, s, cache.bufs[..]);
      DropInstalled(blks, tail);
      assert HomeList(lay, cache.disk, blks) by {
        assert forall i :: 0 <= i < |blks| ==> Home(lay, cache.disk, blks[i]);
      }
    }

    method InstallTrans()
      requires Rest() && HomeList(lay, cache.disk, Logged()) && Apart(lay, Logged(), cache.bufs[..])
      requires DirtyTail(cache.bufs[..], Logged(), 0)
      modifies cache, cache.bufs, cache.next, cache.prev
      ensures Rest() && DirtyBlocks(cache.bufs[..]) == {}
      ensures cache.held == old(cache.held) && Untouched(old(cache.bufs[..]), cache.bufs[..])
      ensures cache.disk == Install(lay, old(cache.disk), Logged(), n)
      ensures cache.trace == old(cache.trace) + InstallTrace(lay, old(cache.disk), Logged(), n)
    {
      ghost var d, t, blks, s := cache.disk, cache.trace, Logged(), cache.bufs[..];
      var tail := 0;
      while tail < n
        invariant 0 <= tail <= n && Rest() && Logged() == blks && HomeList(lay, cache.disk, blks)
        invariant Apart(lay, blks, cache.bufs[..]) && DirtyTail(cache.bufs[..], blks, tail)
        invariant cache.held == old(cache.held) && Untouched(s, cache.bufs[..])
        invariant cache.disk == Install(lay, d, blks, tail)
        invariant cache.trace == t + InstallTrace(lay, d, blks, tail)
      {
        ghost var s1 := cache.bufs[..];
        assert block[tail] == blks[tail];
        InstallOne(tail);
        UntouchedOn(s, s1, cache.bufs[..]);
        tail := tail + 1;
      }
      assert Members(blks[n..]) == {};
    }

    /** write_log and the first write_head. */
    method SealTransaction()
      requires Unhindered() && n > 0
      modifies cache, cache.bufs, cache.next, cache.prev
      ensures Unhindered() && cache.disk == Sealed(lay, old(cache.disk), Logged(), old(cache.Now()))
      ensures cache.held == old(cache.held) && Untouched(old(cache.bufs[..]), cache.bufs[..])
      ensures cache.trace == old(cache.trace) + SealTrace(lay, old(cache.disk), Logged(), old(cache.Now()))
    {
      hide Ring, View, Sound;
      ghost var d, view, blks, s := cache.disk, cache.Now(), Logged(), cache.bufs[..];
      WriteLog();
      ghost var s1 := cache.bufs[..];
      CopyToLogAt(lay, d, blks, view, n);
      FreeBesides(s1, cache.disk, cache.held, blks);
      assert lay.start !in blks by {
        assert forall i :: 0 <= i < |blks| ==> Home(lay, d, blks[i]);
      }
      assert ClearOf(s1, lay.start);
      WriteHead();
      UntouchedKeeps(lay, blks, s1, cache.bufs[..]);
      UntouchedOn(s, s1, cache.bufs[..]);
      assert cache.disk == Sealed(lay, d, blks, view);
      assert HomeList(lay, cache.disk, blks);
    }

    /** install_trans and the write_head that clears the log, the end of both commit and recovery. */
    method InstallAndClear()
      requires Rest() && HomeList(lay, cache.disk, Logged()) && Apart(lay, Logged(), cache.bufs[..])
      requires DirtyTail(cache.bufs[..], Logged(), 0) && |Away(cache.bufs[..])| < NBUF
      modifies this`n, cache, cache.bufs, cache.next, cache.prev
      ensures Rest() && DirtyBlocks(cache.bufs[..]) == {} && n == 0
      ensures cache.held == old(cache.held) && Untouched(old(cache.bufs[..]), cache.bufs[..])
      ensures var blks, d := old(Logged()), old(cache.disk);
        && cache.disk == Cleared(lay, d, blks)
        && cache.trace == old(cache.trace) + ClearTrace(lay, d, blks)
    {
      hide Ring, View, Sound;
      ghost var d, blks, s := cache.disk, Logged(), cache.bufs[..];
      InstallTrans();
      ghost var s1 := cache.bufs[..];
      LogAreaKept(lay, d, blks, |blks|);
      n := 0;
      UntouchedKeeps(lay, blks, s, s1);
      FreeBesides(s1, cache.disk, cache.held, []);
      assert Logged() == [];
      assert ClearOf(s1, lay.start);
      WriteHead();
      UntouchedOn(s, s1, cache.bufs[..]);
    }

    /** commit(): the disk passes through exactly the images of CommitTrace, nothing stays
        pinned, what readers see of the home blocks does not change, and buffers that others
        refer to, as a reader outside any transaction may, stay as they are. */
    method Commit()
      requires n > 0 ==> Unhindered()
      requires Pinned()
      modifies this`n, cache, cache.bufs, cache.next, cache.prev
      ensures Pinned() && n == 0 && SameHome(lay, cache.Now(), old(cache.Now()))
      ensures cache.held == old(cache.held) && Untouched(old(cache.bufs[..]), cache.bufs[..])
      ensures cache.trace == old(cache.trace)
        + if old(n) == 0 then [] else CommitTrace(lay, old(cache.disk), old(Logged()), old(cache.Now()))
    {
      hide Ring, View, Sound;
      if n > 0 {
        ghost var d, blks, s, h, t := cache.disk, Logged(), cache.bufs[..], cache.held, cache.trace;
        SealTransaction();
        ghost var s1 := cache.bufs[..];
        Concat(t, SealTrace(lay, d, blks, View(s, d)), ClearTrace(lay, cache.disk, blks));
        assert Logged()[0..] == Logged();
        InstallAndClear();
        UntouchedOn(s, s1, cache.bufs[..]);
        CommitShowsSame(lay, s, d, h, blks, cache.bufs[..], cache.disk);
        assert Logged() == [] && Members([]) == {};
      }
    }

    /** read_head's loop over the entries. */
    method TakeHead(hb: Block)
      requires block.Length == LOGSIZE && HeadCount(hb) <= LOGSIZE
      modifies this`n, block
      ensures n == HeadCount(hb) && block[..n] == HeadList(hb)
    {
      n := WordAt(hb, 0);
      var i := 0;
      while i < n
        invariant 0 <= i <= n
        invariant forall k :: 0 <= k < i ==> block[k] == WordAt(hb, k + 1)
        modifies block
      {
        block[i] := WordAt(hb, i + 1);
        i := i + 1;
      }
    }

    /** read_head, on a cache that pins nothing. */
    method ReadHead()
      requires Rest() && DirtyBlocks(cache.bufs[..]) == {} && GoodHead(lay, cache.disk)
      requires ClearOf(cache.bufs[..], lay.start) && |Away(cache.bufs[..])| < NBUF
      modifies this`n, block, cache`held, cache`order, cache.bufs, cache.next, cache.prev
      ensures Rest() && DirtyBlocks(cache.bufs[..]) == {}
      ensures cache.held == old(cache.held) && Untouched(old(cache.bufs[..]), cache.bufs[..])
      ensures Logged() == HeadList(cache.disk[lay.start])
    {
      hide Ring, View, Sound;
      ghost var s, h := cache.bufs[..], cache.held;
      FreeBesides(s, cache.disk, h, []);
      ShownClean(s, cache.disk, h, lay.start);
      HeldElsewhere(s, cache.disk, h, lay.start);
      var ok, b := cache.Bread(lay.start);
      ghost var s1 := cache.bufs[..];
      FetchKeepsDirt(s, s1, b, lay.start);
      FetchedFirst(s, s1[b], b, lay.start);
      TakeHead(cache.bufs[b].data);
      cache.Brelse(b);
      assert DirtyBlocks(cache.bufs[..]) == DirtyBlocks(s1);
      assert h + {b} - {b} == h;
    }

    /** recover_from_log(). */
    method RecoverFromLog()
      requires Rest() && DirtyBlocks(cache.bufs[..]) == {} && |Away(cache.bufs[..])| + 2 <= NBUF
      requires GoodHead(lay, cache.disk) && Apart(lay, HeadList(cache.disk[lay.start]), cache.bufs[..])
      modifies this`n, block, cache, cache.bufs, cache.next, cache.prev
      ensures Pinned() && n == 0 && cache.disk == Recovered(lay, old(cache.disk))
      ensures cache.held == old(cache.held) && Untouched(old(cache.bufs[..]), cache.bufs[..])
      ensures cache.trace == old(cache.trace) + ClearTrace(lay, old(cache.disk), HeadList(old(cache.disk)[lay.start]))
    {
      hide Ring, View, Sound;
      ghost var s := cache.bufs[..];
      assert ClearOf(s, lay.start);
      ReadHead();
      ghost var s1 := cache.bufs[..];
      UntouchedKeeps(lay, Logged(), s, s1);
      InstallAndClear();
      UntouchedOn(s, s1, cache.bufs[..]);
      assert Logged() == [] && Members([]) == {};
    }

    /** log_write's loop: note the block, absorbing a repeated one. */
    method Absorbed(blockno: nat)
      requires block.Length == LOGSIZE && n < LOGSIZE
      modifies this`n, block
      ensures n <= LOGSIZE && Logged() == Absorb(old(Logged()), blockno)
    {
      var i := 0;
      while i < n && block[i] != blockno
        invariant 0 <= i <= n && blockno !in block[..i]
      {
        i := i + 1;
      }
      ghost var blks := Logged();
      block[i] := blockno;
      if i == n {
        n := n + 1;
        assert Logged() == blks + [blockno];
      } else {
        assert blks[i] == blockno;
        assert Logged() == blks;
      }
    }

    /** The typical use that log.c prescribes: bread, modify, log_write, brelse.  Refused, as the
        source panics, outside an operation or when the transaction is too big.  Others, and the caller
        itself, may hold buffers of other blocks meanwhile, as bmap does around balloc. */
    method WriteBlock(blockno: nat, data: Block, ghost op: OpId) returns (ok: bool)
      requires Pinned() && Consistent() && Home(lay, cache.disk, blockno) && (outstanding > 0 ==> op in ops - passed)
      requires ClearOf(cache.bufs[..], blockno)
      requires !Panics(Abs(), lay.size) ==> n + |Away(cache.bufs[..])| < NBUF
      modifies this`n, this`ops, this`passed, block, cache`held, cache`order, cache.bufs, cache.next, cache.prev
      ensures Pinned() && Consistent()
      ensures cache.held == old(cache.held) && Untouched(old(cache.bufs[..]), cache.bufs[..])
      ensures ok <==> old(outstanding) > 0 && !Panics(old(Abs()), lay.size)
      ensures !ok ==> Abs() == old(Abs()) && cache.Now() == old(cache.Now())
      ensures ok ==> Abs() == Do(Do(old(Abs()), lay.size, Test(op)), lay.size, Append(op, blockno))
      ensures ok ==> cache.Now() == old(cache.Now())[blockno := data]
    {
      hide Ring, View, Sound;
      ok := PassTest(op);
      if ok {
        FreeBesides(cache.bufs[..], cache.disk, cache.held, Logged());
        AbsorbHome(lay, cache.disk, Logged(), blockno);
        ModifyBlock(blockno, data);
        NoteBlock(blockno, op);
      }
    }

    /** The two panics of log_write, tested before it takes log.lock. */
    method PassTest(ghost op: OpId) returns (ok: bool)
      requires Consistent() && (outstanding > 0 ==> op in ops - passed)
      modifies this`passed
      ensures ok <==> outstanding > 0 && !Panics(Abs(), lay.size)
      ensures Consistent() && Abs() == if ok then Do(old(Abs()), lay.size, Test(op)) else old(Abs())
    {
      ok := n < LOGSIZE && n < lay.size - 1 && outstanding >= 1;
      if ok {
        StepKeepsInv(Abs(), lay.size, Test(op));
        passed := passed + {op};
      }
    }

    /** The locked part of log_write, for an operation past the test.  Others may have logged blocks since: the
        header array must still have room. */
    method NoteBlock(blockno: nat, ghost op: OpId)
      requires Consistent() && op in ops && op in passed && n < LOGSIZE
      modifies this`n, this`ops, this`passed, block
      ensures Consistent() && Abs() == Do(old(Abs()), lay.size, Append(op, blockno))
    {
      StepKeepsInv(Abs(), lay.size, Append(op, blockno));
      if blockno !in Logged() {
        ops := ops[op := ops[op] + 1];
        assert ops.Keys == old(ops).Keys;
      }
      passed := passed - {op};
      Absorbed(blockno);
    }

    method ModifyBlock(blockno: nat, data: Block)
      requires Rest() && blockno < |cache.disk| && FreeBufs(cache.bufs[..]) != {} && ClearOf(cache.bufs[..], blockno)
      modifies cache`held, cache`order, cache.bufs, cache.next, cache.prev
      ensures Rest() && DirtyBlocks(cache.bufs[..]) == old(DirtyBlocks(cache.bufs[..])) + {blockno}
      ensures cache.held == old(cache.held) && Untouched(old(cache.bufs[..]), cache.bufs[..])
      ensures cache.Now() == old(cache.Now())[blockno := data]
    {
      hide Ring, View;
      ghost var s, h := cache.bufs[..], cache.held;
      var found, b := cache.Bread(blockno);
      ghost var s1 := cache.bufs[..];
      FetchKeepsDirt(s, s1, b, blockno);
      FetchedFirst(s, s1[b], b, blockno);
      StoreAndPin(b, data);
      PinDirties(s1, cache.bufs[..], b, blockno);
      assert h + {b} - {b} == h;
    }

    method StoreAndPin(b: nat, data: Block)
      requires cache.Valid() && b in cache.held && cache.bufs[b].valid && cache.bufs[b].refcnt == 1
      modifies cache`held, cache`order, cache.bufs, cache.next, cache.prev
      ensures cache.Valid() && cache.held == old(cache.held) - {b}
      ensures cache.bufs[..] == old(cache.bufs[..])[b := old(cache.bufs[b]).(refcnt := 0, data := data, dirty := true)]
      ensures cache.Now() == old(cache.Now())[old(cache.bufs[b].blockno) := data]
    {
      hide Ring, View;
      ghost var s := cache.bufs[..];
      cache.Store(b, data);
      cache.Pin(b);
      cache.Brelse(b);
      assert cache.bufs[..] == s[b := s[b].(refcnt := 0, data := data, dirty := true)];
    }

    /** log.outstanding counts the outstanding operations. */
    ghost predicate Consistent()
      reads this, block
    {
      block.Length == LOGSIZE && n <= LOGSIZE && outstanding == |ops| && Inv(Abs())
    }

    /** One pass of begin_op's loop under log.lock. */
    method BeginOp(pid: nat) returns (started: bool)
      requires Consistent() && pid !in waiting
      modifies this`outstanding, this`ops, this`waiting, this`nextOp
      ensures Consistent()
      ensures started <==> !MustWait(old(Abs()))
      ensures Abs() == Do(old(Abs()), lay.size, if started then Begin(pid) else Sleep(pid))
    {
      StepKeepsInv(Abs(), lay.size, if MustWait(Abs()) then Sleep(pid) else Begin(pid));
      if committing || n + (outstanding + 1) * MAXOPBLOCKS > LOGSIZE {
        waiting := waiting + {pid};
        return false;
      }
      assert nextOp !in ops;
      outstanding, ops, nextOp := outstanding + 1, ops[nextOp := 0], nextOp + 1;
      return true;
    }

    /** The first locked section of end_op. */
    method LeaveOp(ghost op: OpId) returns (last: bool)
      requires Consistent() && op in ops - passed
      modifies this`outstanding, this`ops, this`committing, this`waiting
      ensures Consistent() && Abs() == Do(old(Abs()), lay.size, End(op)) && (last <==> committing)
    {
      StepKeepsInv(Abs(), lay.size, End(op));
      assert !committing;
      assert (ops - {op}).Keys == ops.Keys - {op};
      outstanding, ops := outstanding - 1, ops - {op};
      last := outstanding == 0;
      if last {
        committing := true;
      } else {
        waiting := {};
      }
    }

    /** The second one. */
    method FinishCommit()
      requires Consistent() && committing && n == 0
      modifies this`committing, this`waiting
      ensures Consistent() && Abs() == Do(old(Abs()), lay.size, Done)
    {
      assert Logged() == [];
      StepKeepsInv(Abs(), lay.size, Done);
      committing, waiting := false, {};
    }

    /** end_op: the last operation out commits. */
    method EndOp(ghost op: OpId)
      requires Pinned() && Consistent() && op in ops - passed && (outstanding == 1 && n > 0 ==> Unhindered())
      modifies this, cache, cache.bufs, cache.next, cache.prev
      ensures Pinned() && Consistent() && SameHome(lay, cache.Now(), old(cache.Now()))
      ensures cache.held == old(cache.held) && Untouched(old(cache.bufs[..]), cache.bufs[..])
      ensures var p := Do(old(Abs()), lay.size, End(op));
        Abs() == if p.committing then Do(Do(p, lay.size, Clear), lay.size, Done) else p
      ensures cache.trace == old(cache.trace) +
        if Do(old(Abs()), lay.size, End(op)).committing && old(n) > 0
        then CommitTrace(lay, old(cache.disk), old(Logged()), old(cache.Now())) else []
    {
      var last := LeaveOp(op);
      if last {
        StepKeepsInv(Abs(), lay.size, Clear);
        Commit();
        assert Logged() == [];
        FinishCommit();
      }
    }
  }
}
