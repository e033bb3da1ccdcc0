/** The buffer cache (v3/bio.c) over the memory disk (v3/memide.c): NBUF buffers on a
    circular LRU list, of which bget recycles the least recently used free one. */
module BufferCache {
  import opened Blocks
  import opened RedoLog

  const NBUF: nat := 30
  const HEAD: nat := NBUF      // bcache.head sits behind the buffers in the same array
  const ROOTDEV: nat := 1

  /** The disk at one moment. */
  datatype Image = Image(disk: Disk)

  /** struct buf without its list links. */
  datatype Buf = Buf(dev: nat, blockno: nat, refcnt: nat, valid: bool, dirty: bool, data: Block)

  // The list: c is the cyclic order in which following next from the head visits it

  function After(c: seq<nat>, k: nat): nat
    requires k < |c|
  {
    if k + 1 == |c| then c[0] else c[k + 1]
  }

  ghost predicate Distinct(c: seq<nat>) {
    && |c| >= 1 && c[0] == HEAD
    && (forall k :: 0 <= k < |c| ==> c[k] <= NBUF)
    && (forall k, l :: 0 <= k < l < |c| ==> c[k] != c[l])
  }

  /** next leads from each member of c to the one after it, prev back again. */
  ghost predicate Ring(next: seq<nat>, prev: seq<nat>, c: seq<nat>) {
    && |next| == |prev| == NBUF + 1 && Distinct(c)
    && (forall k {:trigger After(c, k)} :: 0 <= k < |c| ==> next[c[k]] == After(c, k) && prev[After(c, k)] == c[k])
  }

  function Without(c: seq<nat>, k: nat): seq<nat>
    requires k < |c|
  {
    c[..k] + c[k + 1..]
  }

  lemma AfterIsInjective(c: seq<nat>, k: nat, l: nat)
    requires Distinct(c) && k < |c| && l < |c| && k != l
    ensures After(c, k) != After(c, l)
  {
  }

  lemma AfterWithout(c: seq<nat>, k: nat, l: nat)
    requires 1 <= k < |c| && l < |c| - 1
    ensures Without(c, k)[l] == if l < k then c[l] else c[l + 1]
    ensures After(Without(c, k), l) ==
            if l == k - 1 then After(c, k) else if l < k then After(c, l) else After(c, l + 1)
  {
  }

  ghost predicate MovedToFront(c: seq<nat>, b: nat, c': seq<nat>) {
    exists k: nat :: 1 <= k < |c| && c[k] == b && c' == [HEAD, b] + Without(c, k)[1..]
  }

  lemma PositionOf(c: seq<nat>, b: nat) returns (k: nat)
    requires Distinct(c) && b in c && b != HEAD
    ensures 1 <= k < |c| && c[k] == b
  {
    k :| k < |c| && c[k] == b;
  }

  lemma WithoutRejoined(c: seq<nat>, k: nat)
    requires Distinct(c) && 1 <= k < |c|
    ensures c[k] !in Without(c, k)
    ensures forall i :: i in [HEAD, c[k]] + Without(c, k)[1..] <==> i in c
  {
    var d := Without(c, k);
    assert d == [HEAD] + d[1..];
    assert c == c[..k] + [c[k]] + c[k + 1..];
    assert forall i :: i in c <==> i in d || i == c[k];
  }

  lemma UnlinkKeepsRing(next: seq<nat>, prev: seq<nat>, c: seq<nat>, k: nat)
    requires Ring(next, prev, c) && 1 <= k < |c|
    ensures next[c[k]] == After(c, k) <= NBUF && prev[c[k]] == c[k - 1] <= NBUF
    ensures Ring(next[c[k - 1] := After(c, k)], prev[After(c, k) := c[k - 1]], Without(c, k))
  {
    var d := Without(c, k);
    assert After(c, k - 1) == c[k];
    assert Distinct(d);
    forall l | 0 <= l < |d|
      ensures next[c[k - 1] := After(c, k)][d[l]] == After(d, l)
      ensures prev[After(c, k) := c[k - 1]][After(d, l)] == d[l]
    {
      AfterWithout(c, k, l);
      if l != k - 1 {
        AfterIsInjective(c, k, if l < k then l else l + 1);
      }
    }
  }

  lemma LinkFrontKeepsRing(next: seq<nat>, prev: seq<nat>, c: seq<nat>, i: nat)
    requires Ring(next, prev, c) && i < NBUF && i !in c
    ensures next[HEAD] <= NBUF
    ensures Ring(next[i := next[HEAD]][HEAD := i], prev[i := HEAD][next[HEAD] := i], [HEAD, i] + c[1..])
  {
    var d := [HEAD, i] + c[1..];
    assert next[c[0]] == After(c, 0);
    forall l | 0 <= l < |d|
      ensures next[i := next[HEAD]][HEAD := i][d[l]] == After(d, l)
      ensures prev[i := HEAD][next[HEAD] := i][After(d, l)] == d[l]
    {
      if l >= 2 {
        assert d[l] == c[l - 1] && After(d, l) == After(c, l - 1);
        assert After(c, l - 1) != After(c, 0);
      } else if l == 1 {
        assert After(d, 1) == After(c, 0);
      }
    }
  }

  // What the cache shows

  predicate Caches(s: seq<Buf>, i: nat, b: nat) {
    i < |s| && s[i].dev == ROOTDEV && s[i].blockno == b
  }

  ghost predicate Unique(s: seq<Buf>) {
    forall i: nat, j: nat, b: nat :: Caches(s, i, b) && Caches(s, j, b) ==> i == j
  }

  /** The latest contents of block b: the buffered ones if there are any. */
  ghost function Shown(s: seq<Buf>, disk: Disk, b: nat): Block
    requires b < |disk|
  {
    if i: nat :| Caches(s, i, b) && s[i].valid then s[i].data else disk[b]
  }

  ghost function View(s: seq<Buf>, disk: Disk): (v: Disk)
    ensures |v| == |disk|
  {
    seq(|disk|, b requires 0 <= b < |disk| => Shown(s, disk, b))
  }

  lemma ShownIs(s: seq<Buf>, disk: Disk, b: nat)
    requires Unique(s) && b < |disk|
    ensures forall i: nat :: Caches(s, i, b) && s[i].valid ==> Shown(s, disk, b) == s[i].data
    ensures (forall i: nat :: Caches(s, i, b) ==> !s[i].valid) ==> Shown(s, disk, b) == disk[b]
  {
  }

  lemma ShowsBuffer(s: seq<Buf>, disk: Disk, i: nat)
    requires Unique(s) && i < |s| && s[i].dev == ROOTDEV && s[i].valid && s[i].blockno < |disk|
    ensures View(s, disk)[s[i].blockno] == s[i].data
  {
    ShownIs(s, disk, s[i].blockno);
    assert Caches(s, i, s[i].blockno);
  }

  /** Buffers of the disk name its blocks; data that is neither pinned nor in someone's
      hands agrees with the disk; only referenced buffers are held. */
  ghost predicate Sound(s: seq<Buf>, disk: Disk, held: set<nat>) {
    && |s| == NBUF && Unique(s)
    && (forall i :: 0 <= i < NBUF && s[i].dev == ROOTDEV ==> s[i].blockno < |disk|)
    && (forall i :: 0 <= i < NBUF && s[i].dev == ROOTDEV && s[i].valid && !s[i].dirty && i !in held ==>
          s[i].data == disk[s[i].blockno])
    && (forall i :: 0 <= i < NBUF && s[i].dirty ==> s[i].valid && s[i].dev == ROOTDEV)
    && (forall i :: i in held ==> i < NBUF && s[i].refcnt > 0 && s[i].dev == ROOTDEV)
  }

  predicate Holds(b: Buf, dev: nat, blockno: nat) {
    b.dev == dev && b.blockno == blockno
  }

  predicate Busy(b: Buf) {
    b.refcnt > 0 || b.dirty
  }

  function FreeBufs(s: seq<Buf>): set<nat> {
    set i: nat | i < |s| && !Busy(s[i])
  }

  /** b is free and everything less recently used is busy. */
  ghost predicate LeastRecentlyUsed(s: seq<Buf>, order: seq<nat>, b: nat)
    requires |s| == NBUF && Distinct(order)
  {
    exists k :: 1 <= k < |order| && order[k] == b
      && forall l :: k < l < |order| ==> order[l] != HEAD && Busy(s[order[l]])
  }

  /** bget took buffer b: one more reference if it held the block, a fresh invalid buffer if not. */
  ghost predicate Got(s: seq<Buf>, s': seq<Buf>, order: seq<nat>, dev: nat, blockno: nat, b: nat)
    requires |s| == NBUF && Distinct(order)
  {
    b < NBUF &&
    if Holds(s[b], dev, blockno) then s' == s[b := s[b].(refcnt := s[b].refcnt + 1)] else
      && s' == s[b := Buf(dev, blockno, 1, false, false, s[b].data)]
      && !Busy(s[b]) && LeastRecentlyUsed(s, order, b)
      && forall i :: 0 <= i < NBUF ==> !Holds(s[i], dev, blockno)
  }

  /** What bread makes of buffer b: the block's own buffer with one more reference, or a
      recycled free one with the first. */
  ghost predicate Fetched(s: seq<Buf>, now: Buf, b: nat, blockno: nat)
    requires b < |s| == NBUF
  {
    && now.valid && Holds(now, ROOTDEV, blockno)
    && if Holds(s[b], ROOTDEV, blockno) then now.refcnt == s[b].refcnt + 1 && now.dirty == s[b].dirty else
         && now.refcnt == 1 && !now.dirty && !Busy(s[b])
         && forall i :: 0 <= i < NBUF ==> !Holds(s[i], ROOTDEV, blockno)
  }

  lemma SetRef(s: seq<Buf>, disk: Disk, held: set<nat>, i: nat, n: nat)
    requires Sound(s, disk, held) && i < NBUF && (i in held ==> n > 0)
    ensures Sound(s[i := s[i].(refcnt := n)], disk, held)
    ensures View(s[i := s[i].(refcnt := n)], disk) == View(s, disk)
  {
    var s' := s[i := s[i].(refcnt := n)];
    assert forall k: nat, b: nat :: Caches(s', k, b) <==> Caches(s, k, b);
    forall b | 0 <= b < |disk|
      ensures Shown(s, disk, b) == Shown(s', disk, b)
    {
      ShownIs(s, disk, b);
      ShownIs(s', disk, b);
    }
  }

  /** Reusing a free buffer for a block nobody caches hides nothing: what it held is on disk. */
  lemma Recycle(s: seq<Buf>, disk: Disk, held: set<nat>, i: nat, dev: nat, blockno: nat)
    requires Sound(s, disk, held) && i < NBUF && !Busy(s[i]) && (dev == ROOTDEV ==> blockno < |disk|)
    requires forall k :: 0 <= k < NBUF ==> !(s[k].dev == dev && s[k].blockno == blockno)
    ensures var s' := s[i := Buf(dev, blockno, 1, false, false, s[i].data)];
      Sound(s', disk, held) && View(s', disk) == View(s, disk)
  {
    var s' := s[i := Buf(dev, blockno, 1, false, false, s[i].data)];
    assert i !in held;
    assert forall k: nat, b: nat :: k != i ==> (Caches(s', k, b) <==> Caches(s, k, b));
    forall b | 0 <= b < |disk|
      ensures Shown(s, disk, b) == Shown(s', disk, b)
    {
      ShownIs(s, disk, b);
      ShownIs(s', disk, b);
      assert Caches(s, i, b) && s[i].valid ==> Shown(s, disk, b) == disk[b];
      assert forall k: nat :: k != i && Caches(s, k, b) && s[k].valid ==> Shown(s', disk, b) == s'[k].data;
    }
  }

  /** iderw, reading. */
  lemma FillKeepsView(s: seq<Buf>, disk: Disk, held: set<nat>, i: nat)
    requires Sound(s, disk, held) && i < NBUF && s[i].dev == ROOTDEV && !s[i].valid
    ensures var s' := s[i := s[i].(valid := true, data := disk[s[i].blockno])];
      Sound(s', disk, held) && View(s', disk) == View(s, disk)
  {
    var s' := s[i := s[i].(valid := true, data := disk[s[i].blockno])];
    assert forall k: nat, b: nat :: Caches(s', k, b) <==> Caches(s, k, b);
    forall b | 0 <= b < |disk|
      ensures Shown(s, disk, b) == Shown(s', disk, b)
    {
      ShownIs(s, disk, b);
      ShownIs(s', disk, b);
      assert Caches(s, i, b) ==> Shown(s', disk, b) == disk[b];
    }
  }

  /** iderw, writing: the disk catches up with what was shown all along. */
  lemma WriteKeepsView(s: seq<Buf>, disk: Disk, held: set<nat>, i: nat)
    requires Sound(s, disk, held) && i in held && s[i].valid
    ensures var s', disk' := s[i := s[i].(dirty := false)], disk[s[i].blockno := s[i].data];
      Sound(s', disk', held) && View(s', disk') == View(s, disk)
  {
    var s', disk' := s[i := s[i].(dirty := false)], disk[s[i].blockno := s[i].data];
    assert forall k: nat, b: nat :: Caches(s', k, b) <==> Caches(s, k, b);
    assert Caches(s, i, s[i].blockno);
    forall k | 0 <= k < NBUF && s'[k].dev == ROOTDEV && s'[k].valid && !s'[k].dirty && k !in held
      ensures s'[k].data == disk'[s'[k].blockno]
    {
      assert Caches(s, k, s[k].blockno);
    }
    forall b | 0 <= b < |disk|
      ensures Shown(s, disk, b) == Shown(s', disk', b)
    {
      ShownIs(s, disk, b);
      ShownIs(s', disk', b);
    }
  }

  /** Changing the data of a held buffer changes the view of its block only. */
  lemma StoreChangesView(s: seq<Buf>, disk: Disk, held: set<nat>, i: nat, data: Block)
    requires Sound(s, disk, held) && i in held && s[i].valid
    ensures var s' := s[i := s[i].(data := data)];
      Sound(s', disk, held) && View(s', disk) == View(s, disk)[s[i].blockno := data]
  {
    var s' := s[i := s[i].(data := data)];
    assert forall k: nat, b: nat :: Caches(s', k, b) <==> Caches(s, k, b);
    assert Caches(s', i, s[i].blockno);
    forall b | 0 <= b < |disk|
      ensures Shown(s', disk, b) == if b == s[i].blockno then data else Shown(s, disk, b)
    {
      ShownIs(s, disk, b);
      ShownIs(s', disk, b);
    }
  }

  lemma PinKeepsView(s: seq<Buf>, disk: Disk, held: set<nat>, i: nat)
    requires Sound(s, disk, held) && i in held && s[i].valid
    ensures var s' := s[i := s[i].(dirty := true)];
      Sound(s', disk, held) && View(s', disk) == View(s, disk)
  {
    var s' := s[i := s[i].(dirty := true)];
    assert forall k: nat, b: nat :: Caches(s', k, b) <==> Caches(s, k, b);
    forall b | 0 <= b < |disk|
      ensures Shown(s, disk, b) == Shown(s', disk, b)
    {
      ShownIs(s, disk, b);
      ShownIs(s', disk, b);
    }
  }

  lemma ReleaseKeepsView(s: seq<Buf>, disk: Disk, held: set<nat>, i: nat)
    requires Sound(s, disk, held) && i in held
    requires s[i].dirty || (s[i].valid && s[i].data == disk[s[i].blockno])
    ensures var s' := s[i := s[i].(refcnt := s[i].refcnt - 1)];
      Sound(s', disk, held - {i}) && View(s', disk) == View(s, disk)
  {
    assert Sound(s, disk, held - {i});
    SetRef(s, disk, held - {i}, i, s[i].refcnt - 1);
  }

  /** bcache with the disk below it.  `held` are the buffers whose sleep-lock is taken;
      `trace` records the disk after every block write. */
  class Cache {
    const bufs: array<Buf>
    const next: array<nat>
    const prev: array<nat>
    var disk: Disk
    ghost var order: seq<nat>
    ghost var held: set<nat>
    ghost var trace: seq<Image>

    /** The links form one circular list of exactly the head and the NBUF buffers. */
    ghost predicate Linked()
      reads this, next, prev
    {
      && next.Length == prev.Length == NBUF + 1 && next != prev
      && Ring(next[..], prev[..], order)
      && (forall i :: 0 <= i <= NBUF ==> i in order)
    }

    ghost predicate Valid()
      reads this, bufs, next, prev
    {
      Linked() && bufs.Length == NBUF && Sound(bufs[..], disk, held)
    }

    ghost function Now(): Disk
      reads this, bufs
    {
      View(bufs[..], disk)
    }

    method PushFront(b: nat)
      requires next.Length == prev.Length == NBUF + 1 && next != prev
      requires Ring(next[..], prev[..], order) && b < NBUF && b !in order
      modifies next, prev, this`order
      ensures Ring(next[..], prev[..], order) && order == [HEAD, b] + old(order)[1..]
    {
      LinkFrontKeepsRing(next[..], prev[..], order, b);
      ghost var n: seq<nat>, p: seq<nat> := next[..], prev[..];
      next[b] := next[HEAD];
      prev[b] := HEAD;
      prev[next[HEAD]] := b;
      next[HEAD] := b;
      assert next[..] == n[b := n[HEAD]][HEAD := b];
      assert prev[..] == p[b := HEAD][n[HEAD] := b];
      order := [HEAD, b] + order[1..];
    }

    /** binit. */
    constructor (disk: Disk)
      ensures Valid() && fresh(bufs) && fresh(next) && fresh(prev)
      ensures this.disk == disk && held == {} && trace == [] && Now() == disk
      ensures forall i :: 0 <= i < NBUF ==> !Busy(bufs[i])
    {
      bufs := new Buf[NBUF](_ => Buf(0, 0, 0, false, false, Zeroes()));
      next := new nat[NBUF + 1](_ => HEAD);
      prev := new nat[NBUF + 1](_ => HEAD);
      this.disk := disk;
      order, held, trace := [HEAD], {}, [];
      new;
      var b := 0;
      while b < NBUF
        invariant 0 <= b <= NBUF
        invariant Ring(next[..], prev[..], order)
        invariant forall i :: 0 <= i <= NBUF ==> (i in order <==> i < b || i == HEAD)
        invariant this.disk == disk && held == {} && trace == []
        modifies next, prev, this`order
      {
        ghost var was := order;
        PushFront(b);
        assert was == [HEAD] + was[1..];
        assert forall i :: i in order <==> i in was || i == b;
        b := b + 1;
      }
      assert forall i: nat, b: nat :: !Caches(bufs[..], i, b);
      assert View(bufs[..], disk) == disk;
    }

    /** bget's first loop. */
    method Find(dev: nat, blockno: nat) returns (b: nat)
      requires Valid()
      ensures b <= NBUF && (b == HEAD ==> forall i :: 0 <= i < NBUF ==> !Holds(bufs[i], dev, blockno))
      ensures b < NBUF ==> Holds(bufs[b], dev, blockno)
    {
      ghost var k := 1;
      b := next[HEAD];
      assert next[order[0]] == After(order, 0);
      while b != HEAD
        invariant 1 <= k <= |order|
        invariant b == if k == |order| then HEAD else order[k]
        invariant forall l :: 1 <= l < k ==> order[l] != HEAD && !Holds(bufs[order[l]], dev, blockno)
        decreases |order| - k
      {
        if Holds(bufs[b], dev, blockno) {
          return;
        }
        assert next[order[k]] == After(order, k);
        b := next[b];
        k := k + 1;
      }
      assert k == |order|;
      forall i | 0 <= i < NBUF
        ensures !Holds(bufs[i], dev, blockno)
      {
        assert i in order;
      }
    }

    /** bget's second loop: the first free buffer from the least recently used end. */
    method FindFree() returns (b: nat)
      requires Valid()
      ensures b <= NBUF && (b == HEAD ==> FreeBufs(bufs[..]) == {})
      ensures b < NBUF ==> !Busy(bufs[b]) && LeastRecentlyUsed(bufs[..], order, b)
    {
      ghost var k := |order| - 1;
      ghost var s, c := bufs[..], order;
      b := prev[HEAD];
      assert After(c, k) == HEAD;
      while b != HEAD
        invariant 0 <= k < |c| && b == c[k]
        invariant forall l :: k < l < |c| ==> c[l] != HEAD && Busy(s[c[l]])
        decreases k
      {
        if bufs[b].refcnt == 0 && !bufs[b].dirty {
          assert LeastRecentlyUsed(s, c, b);
          return;
        }
        assert After(c, k - 1) == c[k];
        b := prev[b];
        k := k - 1;
      }
      forall i | 0 <= i < NBUF
        ensures Busy(s[i])
      {
        assert i in c;
      }
    }

    /** The locked section of bget: the block's buffer, or else a recycled free one.  Fails, as
        the source panics, exactly when there is neither. */
    method Bget(dev: nat, blockno: nat) returns (ok: bool, b: nat)
      requires Valid() && (dev == ROOTDEV ==> blockno < |disk|)
      modifies bufs
      ensures Valid() && Now() == old(Now())
      ensures !ok <==> old(FreeBufs(bufs[..])) == {} && forall i :: 0 <= i < NBUF ==> !old(Holds(bufs[i], dev, blockno))
      ensures if ok then Got(old(bufs[..]), bufs[..], order, dev, blockno, b) else bufs[..] == old(bufs[..])
    {
      ghost var was := bufs[..];
      b := Find(dev, blockno);
      if b != HEAD {
        SetRef(bufs[..], disk, held, b, bufs[b].refcnt + 1);
        bufs[b] := bufs[b].(refcnt := bufs[b].refcnt + 1);
        assert old(Holds(bufs[b], dev, blockno));
        assert bufs[..] == was[b := was[b].(refcnt := was[b].refcnt + 1)];
        return true, b;
      }
      b := FindFree();
      if b == HEAD {
        return false, b;
      }
      assert b in FreeBufs(bufs[..]);
      Recycle(bufs[..], disk, held, b, dev, blockno);
      bufs[b] := Buf(dev, blockno, 1, false, false, bufs[b].data);
      assert bufs[..] == was[b := Buf(dev, blockno, 1, false, false, was[b].data)];
      ok := true;
    }

    /** iderw on an invalid buffer. */
    method Fill(b: nat)
      requires Valid() && b in held && !bufs[b].valid
      modifies bufs
      ensures Valid() && Now() == old(Now())
      ensures bufs[..] == old(bufs[..])[b := old(bufs[b]).(valid := true, data := disk[old(bufs[b].blockno)])]
    {
      FillKeepsView(bufs[..], disk, held, b);
      bufs[b] := bufs[b].(valid := true, data := disk[bufs[b].blockno]);
      assert bufs[..] == old(bufs[..])[b := bufs[b]];
    }

    /** bread of a block whose sleep-lock is free: the buffer shows the block's latest contents. */
    method Bread(blockno: nat) returns (ok: bool, b: nat)
      requires Valid() && blockno < |disk|
      requires forall i :: i in held ==> bufs[i].blockno != blockno
      modifies bufs, this`held
      ensures Valid() && Now() == old(Now())
      ensures !ok <==> old(FreeBufs(bufs[..])) == {} && forall i :: 0 <= i < NBUF ==>
                !old(Holds(bufs[i], ROOTDEV, blockno))
      ensures !ok ==> bufs[..] == old(bufs[..]) && held == old(held)
      ensures ok ==> b < NBUF && b !in old(held) && held == old(held) + {b}
      ensures ok ==> bufs[..] == old(bufs[..])[b := bufs[b]] && Fetched(old(bufs[..]), bufs[b], b, blockno)
      ensures ok ==> bufs[b].data == Now()[blockno] && (bufs[b].dirty || bufs[b].data == disk[blockno])
    {
      ghost var was := bufs[..];
      ok, b := Bget(ROOTDEV, blockno);
      if ok {
        held := held + {b};
        if !bufs[b].valid {
          Fill(b);
        }
        ShowsBuffer(bufs[..], disk, b);
      }
    }

    /** The holder of a buffer overwrites its data in memory. */
    method Store(b: nat, data: Block)
      requires Valid() && b in held && bufs[b].valid
      modifies bufs
      ensures Valid() && bufs[..] == old(bufs[..])[b := old(bufs[b]).(data := data)]
      ensures Now() == old(Now())[old(bufs[b].blockno) := data]
    {
      StoreChangesView(bufs[..], disk, held, b, data);
      bufs[b] := bufs[b].(data := data);
      assert bufs[..] == old(bufs[..])[b := old(bufs[b]).(data := data)];
    }

    /** The B_DIRTY that log_write sets. */
    method Pin(b: nat)
      requires Valid() && b in held && bufs[b].valid
      modifies bufs
      ensures Valid() && bufs[..] == old(bufs[..])[b := old(bufs[b]).(dirty := true)]
      ensures Now() == old(Now())
    {
      PinKeepsView(bufs[..], disk, held, b);
      bufs[b] := bufs[b].(dirty := true);
      assert bufs[..] == old(bufs[..])[b := old(bufs[b]).(dirty := true)];
    }

    /** bwrite of a valid buffer, with the write half of iderw. */
    method Bwrite(b: nat)
      requires Valid() && b in held && bufs[b].valid
      modifies bufs, this`disk, this`trace
      ensures Valid() && bufs[..] == old(bufs[..])[b := old(bufs[b]).(dirty := false)]
      ensures disk == old(disk)[bufs[b].blockno := bufs[b].data] && trace == old(trace) + [Image(disk)]
      ensures Now() == old(Now())
    {
      WriteKeepsView(bufs[..], disk, held, b);
      bufs[b] := bufs[b].(dirty := false);
      disk := disk[bufs[b].blockno := bufs[b].data];
      trace := trace + [Image(disk)];
      assert bufs[..] == old(bufs[..])[b := old(bufs[b]).(dirty := false)];
    }

    /** brelse of a buffer whose changes, if any, are pinned or on disk: the last reference
        moves it to the most recently used end. */
    method Brelse(b: nat)
      requires Valid() && b in held && (bufs[b].dirty || (bufs[b].valid && bufs[b].data == disk[bufs[b].blockno]))
      modifies bufs, next, prev, this`order, this`held
      ensures Valid() && held == old(held) - {b}
      ensures bufs[..] == old(bufs[..])[b := old(bufs[b]).(refcnt := old(bufs[b].refcnt) - 1)]
      ensures Now() == old(Now())
      ensures if bufs[b].refcnt > 0 then order == old(order) else MovedToFront(old(order), b, order)
    {
      ghost var was := bufs[..];
      ReleaseKeepsView(bufs[..], disk, held, b);
      held := held - {b};
      bufs[b] := bufs[b].(refcnt := bufs[b].refcnt - 1);
      assert bufs[..] == was[b := was[b].(refcnt := was[b].refcnt - 1)];
      if bufs[b].refcnt == 0 {
        MoveToFront(b);
      }
    }

    method Detach(b: nat, ghost k: nat)
      requires next.Length == prev.Length == NBUF + 1 && next != prev
      requires Ring(next[..], prev[..], order) && 1 <= k < |order| && order[k] == b
      modifies next, prev, this`order
      ensures Ring(next[..], prev[..], order) && order == Without(old(order), k)
    {
      UnlinkKeepsRing(next[..], prev[..], order, k);
      ghost var n: seq<nat>, p: seq<nat>, c := next[..], prev[..], order;
      prev[next[b]] := prev[b];
      next[prev[b]] := next[b];
      order := Without(c, k);
      assert next[..] == n[c[k - 1] := After(c, k)];
      assert prev[..] == p[After(c, k) := c[k - 1]];
    }

    method MoveToFront(b: nat)
      requires Linked() && b < NBUF
      modifies next, prev, this`order
      ensures Linked() && MovedToFront(old(order), b, order)
    {
      ghost var c := order;
      ghost var k := PositionOf(c, b);
      WithoutRejoined(c, k);
      Detach(b, k);
      PushFront(b);
      assert order == [HEAD, b] + Without(c, k)[1..];
      assert MovedToFront(c, b, order);
    }
  }
}
