/** How many frames it takes to map pages (v3/vm.c): one for each page table that a directory still lacks, besides
    those for the pages themselves. */
module FrameCounts {
  import opened PageTables

  /** The empty entries among i..j of a directory. */
  function Empty(dir: seq<int>, i: nat, j: nat): nat
    requires i <= j <= |dir|
  {
    if i == j then 0 else Empty(dir, i, j - 1) + if dir[j - 1] == 0 then 1 else 0
  }

  /** The tables that pages lo..hi lack. */
  function Lacking(dir: seq<int>, lo: nat, hi: nat): nat
    requires |dir| == ENTRIES && hi <= ALL_PAGES
  {
    if lo >= hi then 0 else Empty(dir, lo / ENTRIES, (hi - 1) / ENTRIES + 1)
  }

  /** Some page of lo..hi belongs to entry i. */
  predicate Touches(lo: nat, hi: nat, i: nat) {
    lo < hi && lo / ENTRIES <= i <= (hi - 1) / ENTRIES
  }

  /** From dir to dir' exactly the tables that pages lo..hi lacked have been added. */
  ghost predicate Added(dir: seq<int>, dir': seq<int>, lo: nat, hi: nat) {
    && |dir| == |dir'| == ENTRIES
    && forall i :: 0 <= i < ENTRIES ==>
         if Touches(lo, hi, i) && dir[i] == 0 then dir'[i] != 0 else dir'[i] == dir[i]
  }

  lemma {:induction false} EmptySplit(dir: seq<int>, i: nat, k: nat, j: nat)
    requires i <= k <= j <= |dir|
    ensures Empty(dir, i, j) == Empty(dir, i, k) + Empty(dir, k, j)
  {
    if k < j {
      EmptySplit(dir, i, k, j - 1);
    }
  }

  lemma {:induction false} EmptySame(dir: seq<int>, dir': seq<int>, i: nat, j: nat)
    requires i <= j <= |dir| == |dir'| && dir[i..j] == dir'[i..j]
    ensures Empty(dir, i, j) == Empty(dir', i, j)
  {
    if i < j {
      assert dir[i..j - 1] == dir[i..j][..j - 1 - i] && dir'[i..j - 1] == dir'[i..j][..j - 1 - i];
      EmptySame(dir, dir', i, j - 1);
      assert dir[j - 1] == dir[i..j][j - 1 - i] && dir'[j - 1] == dir'[i..j][j - 1 - i];
    }
  }

  lemma {:induction false} EmptyAll(dir: seq<int>, i: nat, j: nat)
    requires i <= j <= |dir| && forall k :: i <= k < j ==> dir[k] == 0
    ensures Empty(dir, i, j) == j - i
  {
    if i < j {
      EmptyAll(dir, i, j - 1);
    }
  }

  /** Pages mid..hi lack, once lo..mid have their tables, the rest of what lo..hi lacked. */
  lemma LackingSplit(dir: seq<int>, dir': seq<int>, lo: nat, mid: nat, hi: nat)
    requires Added(dir, dir', lo, mid) && lo <= mid <= hi <= ALL_PAGES
    ensures Lacking(dir, lo, hi) == Lacking(dir, lo, mid) + Lacking(dir', mid, hi)
  {
    if lo == mid {
      assert dir' == dir;
    } else if mid < hi {
      var i, k, j := lo / ENTRIES, (mid - 1) / ENTRIES + 1, (hi - 1) / ENTRIES + 1;
      EmptySplit(dir, i, k, j);
      assert dir[k..j] == dir'[k..j];
      EmptySame(dir, dir', k, j);
      if mid / ENTRIES < k {
        EmptySplit(dir', mid / ENTRIES, k, j);
        assert Touches(lo, mid, k - 1);
      }
    }
  }

  lemma AddedMore(dir: seq<int>, dir': seq<int>, dir'': seq<int>, lo: nat, mid: nat, hi: nat)
    requires Added(dir, dir', lo, mid) && Added(dir', dir'', mid, hi) && lo <= mid <= hi
    ensures Added(dir, dir'', lo, hi)
  {
    forall i | 0 <= i < ENTRIES
      ensures if Touches(lo, hi, i) && dir[i] == 0 then dir''[i] != 0 else dir''[i] == dir[i]
    {
      assert Touches(lo, hi, i) <==> Touches(lo, mid, i) || Touches(mid, hi, i);
    }
  }

  lemma LackingFewer(dir: seq<int>, lo: nat, mid: nat, hi: nat)
    requires |dir| == ENTRIES && lo <= mid <= hi <= ALL_PAGES
    ensures Lacking(dir, lo, mid) <= Lacking(dir, lo, hi)
  {
    if lo < mid {
      EmptySplit(dir, lo / ENTRIES, (mid - 1) / ENTRIES + 1, (hi - 1) / ENTRIES + 1);
    }
  }

  // Against the free list

  ghost predicate Sized(m: Vm, d: int) {
    d in m.dirs && |m.dirs[d]| == ENTRIES
  }

  /** There are free frames for `extra` pages and the tables that pages lo..hi lack. */
  ghost predicate Affords(m: Vm, d: int, lo: nat, hi: nat, extra: int)
    requires Sized(m, d) && hi <= ALL_PAGES
  {
    |m.freelist| >= extra + Lacking(m.dirs[d], lo, hi)
  }

  /** From m to m' just those frames have been taken from the free list, and the tables added. */
  ghost predicate Paid(m: Vm, m': Vm, d: int, lo: nat, hi: nat, extra: int)
    requires Sized(m, d) && hi <= ALL_PAGES
  {
    && Sized(m', d) && Added(m.dirs[d], m'.dirs[d], lo, hi)
    && |m.freelist| == |m'.freelist| + extra + Lacking(m.dirs[d], lo, hi)
  }

  lemma PaidNothing(m: Vm, d: int, lo: nat)
    requires Sized(m, d) && lo <= ALL_PAGES
    ensures Paid(m, m, d, lo, lo, 0)
  {
  }

  lemma Afforded(m: Vm, m': Vm, d: int, lo: nat, hi: nat, extra: int)
    requires Sized(m, d) && hi <= ALL_PAGES && Paid(m, m', d, lo, hi, extra)
    ensures Affords(m, d, lo, hi, extra)
  {
  }

  lemma PaidMore(m: Vm, m1: Vm, m2: Vm, d: int, lo: nat, mid: nat, hi: nat, extra: int, more: int)
    requires Sized(m, d) && lo <= mid <= hi <= ALL_PAGES
    requires Paid(m, m1, d, lo, mid, extra) && Paid(m1, m2, d, mid, hi, more)
    ensures Paid(m, m2, d, lo, hi, extra + more)
  {
    hide Added;
    LackingSplit(m.dirs[d], m1.dirs[d], lo, mid, hi);
    AddedMore(m.dirs[d], m1.dirs[d], m2.dirs[d], lo, mid, hi);
  }

  /** What cannot be afforded on the way could not be afforded as a whole. */
  lemma TooFew(m: Vm, m1: Vm, d: int, lo: nat, mid: nat, next: nat, hi: nat, extra: int, more: int, rest: nat)
    requires Sized(m, d) && lo <= mid <= next <= hi <= ALL_PAGES
    requires Paid(m, m1, d, lo, mid, extra) && !Affords(m1, d, mid, next, more)
    ensures !Affords(m, d, lo, hi, extra + more + rest)
  {
    hide Added;
    LackingSplit(m.dirs[d], m1.dirs[d], lo, mid, next);
    LackingFewer(m.dirs[d], lo, next, hi);
  }

  // A new space

  /** No table for user pages. */
  predicate NoUserTables(dir: seq<int>) {
    |dir| == ENTRIES && forall i :: 0 <= i < USER_PAGES / ENTRIES ==> dir[i] == 0
  }

  lemma LackingFresh(dir: seq<int>, n: nat)
    requires NoUserTables(dir) && n <= USER_PAGES
    ensures Lacking(dir, 0, n) == (n + ENTRIES - 1) / ENTRIES
  {
    if n > 0 {
      EmptyAll(dir, 0, (n - 1) / ENTRIES + 1);
    }
  }
}
