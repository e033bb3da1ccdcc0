/** malloc, free and morecore (v3/umalloc.c). */
module Malloc {
  import opened FreeList

  const UINT := 0x1_0000_0000
  const HEADER := 8               // sizeof(Header)
  const MINUNITS := 4096          // least request to the system

  datatype Option<T> = None | Some(value: T)

  /** The units malloc asks for, in unsigned 32-bit arithmetic: the body and one header. */
  function Units(nbytes: nat): (n: nat)
    ensures n >= 1
  {
    (nbytes + HEADER - 1) % UINT / HEADER + 1
  }

  /** A block of so many units has room for the request exactly when the rounding does not wrap. */
  lemma RoomUnlessWrapped(nbytes: nat)
    requires nbytes < UINT
    ensures (Units(nbytes) - 1) * HEADER >= nbytes <==> nbytes <= UINT - HEADER
  {
  }

  /** What sbrk receives: the unsigned product, read as a signed int. */
  function SbrkArgument(nu: nat): int {
    var product := nu * HEADER % UINT;
    if product < 0x8000_0000 then product else product - UINT
  }

  /** sbrk is asked for the intended number of bytes exactly when that is below 2^31. */
  lemma SbrkArgumentExact(nu: nat)
    requires nu < UINT
    ensures SbrkArgument(nu) == nu * HEADER <==> nu < 0x1000_0000
  {
  }

  /** Steps along a ring of n from i to k. */
  function Dist(n: nat, i: nat, k: nat): (d: nat)
    requires i < n && k < n
    ensures d < n
  {
    if i <= k then k - i else k + n - i
  }

  class Heap {
    const base: int
    var started: bool             // freep is not null
    var freep: int
    var next: map<int, int>
    var size: map<int, int>
    ghost var ring: seq<int>
    ghost var live: set<int>
    ghost var own: map<int, int>

    constructor (base: int)
      ensures Valid() && live == {} && own == map[]
    {
      this.base := base;
      started, freep := false, base;
      next, size, ring, live, own := map[], map[], [], {}, map[];
    }

    ghost function Now(): Mem
      reads this
    {
      Mem(next, size, ring, live, own)
    }

    ghost predicate Valid()
      reads this
    {
      if started then Ok(base, Now()) && freep in ring else ring == [] && live == {} && own == map[]
    }

    ghost method Adopt(m: Mem)
      requires m.next == next && m.size == size
      modifies this`ring, this`live, this`own
      ensures Now() == m
    {
      ring, live, own := m.ring, m.live, m.own;
    }

    /** The search of free: the list position behind which an address belongs. */
    method FindSlot(bp: int) returns (p: int, ghost k: nat)
      requires Valid() && started && bp !in ring && base < bp
      ensures k < |ring| && p == ring[k] && Slot(Now(), k, bp)
    {
      p := freep;
      ghost var i: nat :| i < |ring| && ring[i] == freep;
      k := LastBelow(ring, bp);
      while !(bp > p && bp < next[p])
        invariant i < |ring| && p == ring[i] && LinkAt(next, ring, i)
        decreases Dist(|ring|, i, k)
      {
        if p >= next[p] && (bp > p || bp < next[p]) {
          break;
        }
        p, i := next[p], After(|ring|, i);
      }
      k := i;
    }

    /** free, given the header of an allocated block. */
    method Free(bp: int)
      requires Valid() && bp in live
      modifies this
      ensures Valid() && started && live == old(live) - {bp} && own.Keys == old(own.Keys)
      ensures forall a :: a in live ==> size[a] == old(size[a])
      ensures bp in own && own[bp] in ring && own[bp] in size && size[own[bp]] >= old(size[bp])
    {
      hide Linked, Tiled, Coalesced, Freed, Slot;
      ghost var m := Now();
      LiveApart(base, m, bp);
      var p;
      ghost var k;
      p, k := FindSlot(bp);
      FreedFields(base, m, k, bp);
      var after := next[p];
      if bp + size[bp] == after {
        size := size[bp := size[bp] + size[after]];
        next := next[bp := next[after]];
      } else {
        next := next[bp := after];
      }
      if p + size[p] == bp {
        size := size[p := size[p] + size[bp]];
        next := next[p := next[bp]];
      } else {
        next := next[p := bp];
      }
      freep := p;
      FreedKeeps(base, m, k, bp);
      FreedHolds(base, m, k, bp);
      FreedSlot(base, m, k, bp);
      Adopt(Freed(base, m, k, bp));
    }

    ghost predicate AllSmall(n: nat)
      reads this
    {
      Small(Now(), n)
    }

    /** Memory that sbrk may return: above everything obtained before. */
    ghost predicate Fresh(grant: Option<int>)
      reads this
    {
      grant.Some? ==> base < grant.value && forall u :: u in own ==> u < grant.value
    }

    /** morecore: a free block of at least nu units, or nothing if sbrk fails. */
    method Morecore(nu: nat, grant: Option<int>) returns (p: Option<int>)
      requires Valid() && started && nu < 0x1000_0000 && Fresh(grant)
      modifies this
      ensures Valid() && started && live == old(live) && forall a :: a in live ==> size[a] == old(size[a])
      ensures grant.None? ==> p == None && unchanged(this)
      ensures grant.Some? ==>
                p == Some(freep) && own.Keys == old(own.Keys) + Region(grant.value, Asked(nu)) && !AllSmall(nu)
    {
      hide Linked, Tiled, Coalesced;
      var n := Asked(nu);
      if grant.None? {
        return None;
      }
      var hp := grant.value;
      GrowKeeps(base, Now(), hp, n);
      size := size[hp := n];
      Adopt(Grow(old(Now()), hp, n));
      Free(hp);
      ghost var h := own[hp];
      assert h in ring && h in size && size[h] >= nu;
      p := Some(freep);
    }

    /** The search of malloc: finds a free block with n units and its predecessor, asking the
        system for more at most once. */
    method Search(n: nat, grant: Option<int>) returns (found: bool, p: int, prevp: int, ghost j: nat)
      requires Valid() && started && 0 < n < 0x1000_0000 && Fresh(grant)
      modifies this
      ensures Valid() && started && live == old(live) && forall a :: a in live ==> size[a] == old(size[a])
      ensures || own.Keys == old(own.Keys)
              || (grant.Some? && old(AllSmall(n)) && own.Keys == old(own.Keys) + Region(grant.value, Asked(n)))
      ensures !found ==> grant == None && Now() == old(Now()) && freep == old(freep) && AllSmall(n)
      ensures found ==> 0 < j < |ring| && p == ring[j] && prevp == ring[j - 1] && p in size && size[p] >= n
    {
      hide Linked, Tiled, Coalesced, Scan, Ahead;
      ghost var f: nat, m0 := Position(freep), Now();
      PositionFields(base, m0, f);
      LiveSizes(base, m0);
      ScanStart(size, ring, n, f);
      StepsNext(ring, f);
      found, p, prevp, j := SearchLoop(n, grant, m0, next[freep], freep, After(|ring|, f), f);
    }

    method SearchLoop(n: nat, grant: Option<int>, ghost m0: Mem, p0: int, prevp0: int, ghost j0: nat, ghost f0: nat)
      returns (found: bool, p: int, prevp: int, ghost j: nat)
      requires 0 < n < 0x1000_0000 && Searching(n, grant, m0, p0, prevp0, j0, f0, 0, false)
      modifies this
      ensures SearchEnds(n, grant, m0, found, p, prevp, j) && (!found ==> freep == old(freep))
    {
      p, prevp, j := p0, prevp0, j0;
      ghost var f: nat, t: nat, grown := f0, 0, false;
      while true
        invariant Searching(n, grant, m0, p, prevp, j, f, t, grown) && (!grown ==> freep == old(freep))
        decreases if grown then 0 else 1, Left(j, f, t, grown)
      {
        var done;
        done, found, p, prevp, j, f, t, grown := SearchRound(n, grant, m0, p, prevp, j, f, t, grown);
        if done {
          return;
        }
      }
    }

    /** Steps until the search must be over. */
    ghost function Left(j: nat, f: nat, t: nat, grown: bool): nat
      reads this
    {
      var k := if grown then t else f;
      if j < |ring| && k < |ring| then Dist(|ring|, j, k) else 0
    }

    /** The search is under way at block p, position j: it has come from position f, and nothing in between is large
        enough; or it goes on, after memory has been obtained, to position t, which is. */
    ghost predicate Searching(n: nat, grant: Option<int>, m0: Mem, p: int, prevp: int, j: nat, f: nat, t: nat,
                              grown: bool)
      reads this
    {
      && Valid() && started && KeepsLive(m0) && f < |ring| && ring[f] == freep && Steps(ring, prevp, p, j)
      && (t < |ring| || !grown)
      && if grown then
           && Ahead(size, ring, n, f, j, t) && grant.Some? && Small(m0, n)
           && own.Keys == m0.own.Keys + Region(grant.value, Asked(n))
         else Now() == m0 && Scan(size, ring, n, f, j) && Fresh(grant)
    }

    ghost predicate KeepsLive(m0: Mem)
      reads this
    {
      live == m0.live && forall a :: a in live ==> a in size && a in m0.size && size[a] == m0.size[a]
    }

    ghost predicate SearchEnds(n: nat, grant: Option<int>, m0: Mem, found: bool, p: int, prevp: int, j: nat)
      reads this
    {
      && Valid() && started && KeepsLive(m0)
      && (|| own.Keys == m0.own.Keys
          || (grant.Some? && Small(m0, n) && own.Keys == m0.own.Keys + Region(grant.value, Asked(n))))
      && if found then 0 < j < |ring| && p == ring[j] && prevp == ring[j - 1] && p in size && size[p] >= n
         else grant == None && Now() == m0 && Small(m0, n)
    }

    /** One round of the search. */
    method SearchRound(n: nat, grant: Option<int>, ghost m0: Mem, p0: int, prevp0: int, ghost j0: nat, ghost f0: nat,
                       ghost t0: nat, ghost grown0: bool)
      returns (done: bool, found: bool, p: int, prevp: int, ghost j: nat, ghost f: nat, ghost t: nat, ghost grown: bool)
      requires 0 < n < 0x1000_0000 && Searching(n, grant, m0, p0, prevp0, j0, f0, t0, grown0)
      modifies this
      ensures done ==> SearchEnds(n, grant, m0, found, p, prevp, j)
      ensures !done ==> Searching(n, grant, m0, p, prevp, j, f, t, grown)
      ensures !done && grown == grown0 ==> Left(j, f, t, grown) < old(Left(j0, f0, t0, grown0))
      ensures !done && grown0 ==> grown
      ensures (!done && !grown) || (done && !found) ==> !grown0 && freep == old(freep)
    {
      hide Linked, Tiled, Coalesced, Scan, Ahead, Steps, Region, Small;
      p, prevp, j, f, t, grown, found := p0, prevp0, j0, f0, t0, grown0, true;
      StepsAt(ring, prevp, p, j);
      PositionFields(base, Now(), j);
      if size[p] >= n {
        FoundBehind(base, Now(), prevp, p, j, n);
        return true, true, p, prevp, j, f, t, grown;
      }
      if grown {
        AheadNext(size, ring, n, f, j, t);
      } else if p != freep {
        ScanNext(size, ring, n, f, j);
      }
      if p == freep {
        ScanDone(base, Now(), n, f, j);
        var q := Morecore(n, grant);
        if q == None {
          return true, false, p, prevp, j, f, t, grown;
        }
        p, f, t, grown := q.value, Position(freep), Large(n), true;
        j := f;
        LiveSizes(base, Now());
        AheadStart(size, ring, n, f, t);
        PositionFields(base, Now(), j);
      }
      StepsNext(ring, j);
      done, prevp, p, j := false, p, next[p], After(|ring|, j);
    }

    /** The part of malloc that hands out block p, or its tail if it is larger than needed. */
    method Carve(p: int, prevp: int, n: nat, ghost j: nat) returns (r: int)
      requires Valid() && started && 0 < j < |ring| && p == ring[j] && prevp == ring[j - 1] && p in size
      requires size[p] >= n > 0
      modifies this
      ensures Valid() && started && r !in old(live) && live == old(live) + {r} && r in size && size[r] == n
      ensures own.Keys == old(own.Keys) && forall a :: a in old(live) ==> size[a] == old(size[a])
    {
      hide Linked, Tiled, Coalesced;
      ghost var m := Now();
      LiveSizes(base, m);
      PositionFields(base, m, j);
      PositionFields(base, m, j - 1);
      r := p;
      if size[p] == n {
        TakeKeeps(base, m, j);
        next := next[prevp := next[p]];
        Adopt(Take(m, j));
      } else {
        SplitKeeps(base, m, j, n);
        size := size[p := size[p] - n];
        r := p + size[p];
        size := size[r := n];
        Adopt(Split(m, j, n));
      }
      freep := prevp;
    }

    /** The first call of malloc makes the static header a list of its own. */
    method Start()
      requires Valid() && !started
      modifies this
      ensures Valid() && started && live == old(live) && own == old(own) && ring == [base] && size == map[base := 0]
    {
      started, freep := true, base;
      next, size := map[base := base], map[base := 0];
      ring := [base];
    }

    /** malloc: the address of the body of a new block, or nothing if no free block is large enough
        and sbrk fails.  Live blocks keep their size, and no unit is lost. */
    method Malloc(nbytes: nat, grant: Option<int>) returns (r: Option<int>)
      requires Valid() && nbytes < UINT && Units(nbytes) < 0x1000_0000 && Fresh(grant)
      modifies this
      ensures Valid() && old(live) <= live && forall a :: a in old(live) ==> size[a] == old(size[a])
      ensures r.None? ==> grant.None? && live == old(live) && own == old(own) && AllSmall(Units(nbytes))
      ensures r.Some? ==> var h := r.value - 1;
                && h !in old(live) && live == old(live) + {h} && size[h] == Units(nbytes)
                && ((size[h] - 1) * HEADER >= nbytes <==> nbytes <= UINT - HEADER)
      ensures own.Keys == old(own.Keys)
           || (grant.Some? && old(AllSmall(Units(nbytes))) &&
               own.Keys == old(own.Keys) + Region(grant.value, Asked(Units(nbytes))))
    {
      hide Linked, Tiled, Coalesced;
      var nunits := Units(nbytes);
      RoomUnlessWrapped(nbytes);
      if started {
        LiveSizes(base, Now());
      } else {
        Start();
      }
      var found, p, prevp;
      ghost var j;
      found, p, prevp, j := Search(nunits, grant);
      if !found {
        return None;
      }
      var h := Carve(p, prevp, nunits, j);
      r := Some(h + 1);
    }

    ghost function Position(h: int): (i: nat)
      reads this
      requires h in ring
      ensures i < |ring| && ring[i] == h
    {
      var i: nat :| i < |ring| && ring[i] == h;
      i
    }

    ghost function Large(n: nat): (t: nat)
      reads this
      requires !AllSmall(n)
      ensures t < |ring| && ring[t] in size && size[ring[t]] >= n
    {
      var h :| h in ring && h in size && size[h] >= n;
      Position(h)
    }
  }

  /** The loop variables of the search: two neighbours, the second at position j. */
  ghost predicate Steps(ring: seq<int>, prevp: int, p: int, j: nat) {
    j < |ring| && p == ring[j] && exists i: nat :: i < |ring| && prevp == ring[i] && j == After(|ring|, i)
  }

  /** Everything between position f and position j is too small. */
  ghost predicate Scan(size: map<int, int>, ring: seq<int>, n: nat, f: nat, j: nat)
    requires f < |ring| && j < |ring|
  {
    forall x :: 0 <= x < |ring| && Dist(|ring|, x, f) > Dist(|ring|, j, f) ==> ring[x] in size && size[ring[x]] < n
  }

  /** Position t has enough and is met before position f. */
  ghost predicate Ahead(size: map<int, int>, ring: seq<int>, n: nat, f: nat, j: nat, t: nat)
    requires f < |ring| && j < |ring|
  {
    t < |ring| && ring[t] in size && size[ring[t]] >= n && Dist(|ring|, j, t) <= Dist(|ring|, j, f)
  }

  lemma ScanStart(size: map<int, int>, ring: seq<int>, n: nat, f: nat)
    requires f < |ring|
    ensures Scan(size, ring, n, f, After(|ring|, f))
  {
  }

  lemma LiveSizes(base: int, m: Mem)
    requires Tiled(base, m)
    ensures forall a :: a in m.live ==> a in m.size && a !in m.ring
  {
  }

  lemma StepsAt(ring: seq<int>, prevp: int, p: int, j: nat)
    requires Steps(ring, prevp, p, j)
    ensures j < |ring| && p == ring[j]
  {
  }

  lemma AheadStart(size: map<int, int>, ring: seq<int>, n: nat, f: nat, t: nat)
    requires f < |ring| && t < |ring| && ring[t] in size && size[ring[t]] >= n
    ensures Ahead(size, ring, n, f, After(|ring|, f), t)
  {
  }

  /** No free block has n units. */
  ghost predicate Small(m: Mem, n: nat) {
    forall h :: h in m.ring && h in m.size ==> m.size[h] < n
  }

  lemma StepsNext(ring: seq<int>, j: nat)
    requires j < |ring|
    ensures Steps(ring, ring[j], ring[After(|ring|, j)], After(|ring|, j))
  {
  }

  lemma ScanNext(size: map<int, int>, ring: seq<int>, n: nat, f: nat, j: nat)
    requires f < |ring| && j < |ring| && j != f && ring[j] in size && size[ring[j]] < n && Scan(size, ring, n, f, j)
    ensures Scan(size, ring, n, f, After(|ring|, j)) && Dist(|ring|, After(|ring|, j), f) < Dist(|ring|, j, f)
  {
  }

  lemma AheadNext(size: map<int, int>, ring: seq<int>, n: nat, f: nat, j: nat, t: nat)
    requires f < |ring| && j < |ring| && ring[j] in size && size[ring[j]] < n && Ahead(size, ring, n, f, j, t)
    ensures j != f && Ahead(size, ring, n, f, After(|ring|, j), t)
    ensures Dist(|ring|, After(|ring|, j), t) < Dist(|ring|, j, t)
  {
  }

  lemma PositionFields(base: int, m: Mem, j: nat)
    requires Ok(base, m) && j < |m.ring|
    ensures m.ring[j] in m.size && m.ring[j] in m.next && m.next[m.ring[j]] == m.ring[After(|m.ring|, j)]
  {
    assert LinkAt(m.next, m.ring, j);
    var p := m.ring[j];
    assert p in m.ring;
  }

  lemma FoundBehind(base: int, m: Mem, prevp: int, p: int, j: nat, n: nat)
    requires Ok(base, m) && Steps(m.ring, prevp, p, j) && p in m.size && m.size[p] >= n > 0
    ensures 0 < j && prevp == m.ring[j - 1]
  {
  }

  /** A full round without success: nothing on the list is large enough. */
  lemma ScanDone(base: int, m: Mem, n: nat, f: nat, j: nat)
    requires Ok(base, m) && f < |m.ring| && j < |m.ring| && m.ring[j] in m.size && m.size[m.ring[j]] < n
    ensures m.ring[j] == m.ring[f] ==> j == f
    ensures j == f && Scan(m.size, m.ring, n, f, j) ==> Small(m, n)
  {
    if j == f && Scan(m.size, m.ring, n, f, j) {
      forall h | h in m.ring ensures h in m.size && m.size[h] < n {
        var x: nat :| x < |m.ring| && m.ring[x] == h;
        assert x != f ==> Dist(|m.ring|, x, f) > 0;
      }
    }
  }

  /** What morecore asks the system for. */
  function Asked(nu: nat): nat {
    if nu < MINUNITS then MINUNITS else nu
  }

  lemma LastBelow(ring: seq<int>, h: int) returns (k: nat)
    requires Sorted(ring) && ring != [] && ring[0] < h && h !in ring
    ensures k < |ring| && ring[k] < h && (k + 1 < |ring| ==> h < ring[k + 1])
  {
    k := 0;
    while k + 1 < |ring| && ring[k + 1] < h
      invariant k < |ring| && ring[k] < h
    {
      k := k + 1;
    }
  }
}
