/** The data structure of the user-level allocator (v3/umalloc.c): a circular list of free blocks in
    address order.  Addresses and sizes count headers of 8 bytes. */
module FreeList {
  /** Header fields by address, and the abstraction: `ring` lists the free blocks in address order,
      the static header first, `live` holds the allocated blocks, and `own` maps every unit
      obtained from the system to the block that it belongs to. */
  datatype Mem = Mem(next: map<int, int>, size: map<int, int>, ring: seq<int>, live: set<int>, own: map<int, int>)

  /** The successor of a position on the ring. */
  function After(n: nat, i: nat): (j: nat)
    requires i < n
    ensures j < n
  {
    if i + 1 == n then 0 else i + 1
  }

  predicate Sorted(ring: seq<int>) {
    forall i, j :: 0 <= i < j < |ring| ==> ring[i] < ring[j]
  }

  /** The header at position i points to its successor. */
  predicate LinkAt(next: map<int, int>, ring: seq<int>, i: nat) {
    i < |ring| ==> ring[i] in next && next[ring[i]] == ring[After(|ring|, i)]
  }

  ghost predicate Linked(base: int, m: Mem) {
    && |m.ring| > 0 && m.ring[0] == base && Sorted(m.ring)
    && forall i :: 0 <= i < |m.ring| ==> LinkAt(m.next, m.ring, i)
  }

  function InsertAt(ring: seq<int>, i: nat, h: int): (r: seq<int>)
    requires i <= |ring|
    ensures |r| == |ring| + 1
    ensures forall j :: 0 <= j < |r| ==> r[j] == if j < i then ring[j] else if j == i then h else ring[j - 1]
  {
    ring[..i] + [h] + ring[i..]
  }

  function RemoveAt(ring: seq<int>, i: nat): (r: seq<int>)
    requires i < |ring|
    ensures |r| == |ring| - 1
    ensures forall j :: 0 <= j < |r| ==> r[j] == if j < i then ring[j] else ring[j + 1]
  {
    ring[..i] + ring[i + 1..]
  }

  lemma MemberInserted(ring: seq<int>, i: nat, h: int, a: int)
    requires i <= |ring|
    ensures a in InsertAt(ring, i, h) <==> a in ring || a == h
  {
    assert ring == ring[..i] + ring[i..];
  }

  lemma MemberRemoved(ring: seq<int>, i: nat, a: int)
    requires i < |ring| && Sorted(ring)
    ensures a in RemoveAt(ring, i) <==> a in ring && a != ring[i]
  {
    assert ring == ring[..i] + [ring[i]] + ring[i + 1..];
  }

  /** A block with units: allocated, or free and not the static header. */
  ghost predicate IsBlock(base: int, m: Mem, h: int) {
    h in m.live || (h in m.ring && h != base)
  }

  ghost predicate Covers(m: Mem, h: int, u: int)
    requires h in m.size
  {
    h <= u < h + m.size[h]
  }

  /** Blocks have units, none is both free and allocated, and the blocks partition the units. */
  ghost predicate Tiled(base: int, m: Mem) {
    && (forall h :: h in m.ring ==> h in m.size && h !in m.live)
    && (forall h :: h in m.live ==> h in m.size)
    && base !in m.live && base in m.size && m.size[base] == 0
    && (forall h :: IsBlock(base, m, h) ==> m.size[h] >= 1 && h > base)
    && (forall h, u :: IsBlock(base, m, h) && Covers(m, h, u) ==> u in m.own && m.own[u] == h)
    && (forall u :: u in m.own ==> IsBlock(base, m, m.own[u]) && Covers(m, m.own[u], u))
  }

  /** Free block i does not touch its successor. */
  ghost predicate Apart(m: Mem, i: nat)
    requires i < |m.ring|
  {
    0 < i && i + 1 < |m.ring| ==> m.ring[i] in m.size && m.ring[i] + m.size[m.ring[i]] != m.ring[i + 1]
  }

  ghost predicate Coalesced(m: Mem) {
    forall i :: 0 <= i < |m.ring| ==> Apart(m, i)
  }

  ghost predicate Ok(base: int, m: Mem) {
    Linked(base, m) && Tiled(base, m) && Coalesced(m)
  }

  /** Two blocks never share a unit. */
  lemma Disjoint(base: int, m: Mem, g: int, h: int, u: int)
    requires Tiled(base, m) && IsBlock(base, m, g) && IsBlock(base, m, h) && g != h
    ensures !(Covers(m, g, u) && Covers(m, h, u))
  {
  }

  /** A block below another ends before it. */
  lemma Below(base: int, m: Mem, g: int, h: int)
    requires Tiled(base, m) && IsBlock(base, m, g) && IsBlock(base, m, h) && g < h
    ensures g + m.size[g] <= h
  {
    if h < g + m.size[g] {
      Disjoint(base, m, g, h, h);
    }
  }

  lemma OwnHeader(base: int, m: Mem, h: int)
    requires Tiled(base, m)
    ensures IsBlock(base, m, h) ==> h in m.own && m.own[h] == h
  {
    if IsBlock(base, m, h) {
      assert Covers(m, h, h);
    }
  }

  // Putting a block on the list

  /** Slot k is where an address belongs: behind ring[k] and before its successor, if it has one. */
  predicate Slot(m: Mem, k: nat, h: int) {
    k < |m.ring| && m.ring[k] < h && (k + 1 < |m.ring| ==> h < m.ring[k + 1])
  }

  ghost function Insert(m: Mem, k: nat, h: int): Mem
    requires k < |m.ring|
  {
    m.(next := m.next[h := m.ring[After(|m.ring|, k)]][m.ring[k] := h],
       ring := InsertAt(m.ring, k + 1, h),
       live := m.live - {h})
  }

  lemma InsertLink(m: Mem, k: nat, h: int, i: nat)
    requires Sorted(m.ring) && Slot(m, k, h) && LinkAt(m.next, m.ring, if i <= k then i else i - 1)
    ensures LinkAt(Insert(m, k, h).next, Insert(m, k, h).ring, i)
  {
    if i <= |m.ring| {
      var a := Insert(m, k, h).ring[i];
      assert i != k + 1 ==> a != h;
      assert i != k ==> a != m.ring[k];
    }
  }

  lemma InsertLinked(base: int, m: Mem, k: nat, h: int)
    requires Linked(base, m) && Slot(m, k, h)
    ensures Linked(base, Insert(m, k, h))
  {
    hide LinkAt;
    forall i | 0 <= i <= |m.ring| ensures LinkAt(Insert(m, k, h).next, Insert(m, k, h).ring, i) {
      InsertLink(m, k, h, i);
    }
  }

  lemma InsertTiled(base: int, m: Mem, k: nat, h: int)
    requires Tiled(base, m) && h in m.live && k < |m.ring|
    ensures Tiled(base, Insert(m, k, h))
  {
    hide InsertAt, After;
    var m' := Insert(m, k, h);
    forall a ensures a in m'.ring <==> a in m.ring || a == h {
      MemberInserted(m.ring, k + 1, h, a);
    }
    assert forall a :: IsBlock(base, m', a) <==> IsBlock(base, m, a);
  }

  // Joining two neighbours on the list

  ghost function Join(m: Mem, i: nat): Mem
    requires i + 1 < |m.ring| && m.ring[i] in m.size && m.ring[i + 1] in m.size && m.ring[i + 1] in m.next
  {
    var a, b := m.ring[i], m.ring[i + 1];
    m.(next := m.next[a := m.next[b]],
       size := m.size[a := m.size[a] + m.size[b]],
       ring := RemoveAt(m.ring, i + 1),
       own := Hand(m.own, b, a))
  }

  /** The units of block b given to block a. */
  ghost function Hand(own: map<int, int>, b: int, a: int): map<int, int> {
    map u | u in own :: if own[u] == b then a else own[u]
  }

  lemma UnlinkAt(next: map<int, int>, ring: seq<int>, i: nat, j: nat)
    requires Sorted(ring) && i + 1 < |ring| && LinkAt(next, ring, i + 1)
    requires LinkAt(next, ring, if j <= i then j else j + 1)
    ensures ring[i + 1] in next && LinkAt(next[ring[i] := next[ring[i + 1]]], RemoveAt(ring, i + 1), j)
  {
    var r := RemoveAt(ring, i + 1);
    if j < |r| {
      assert j != i ==> r[j] != ring[i];
    }
  }

  lemma Unlinked(base: int, m: Mem, i: nat)
    requires Linked(base, m) && i + 1 < |m.ring|
    ensures m.ring[i + 1] in m.next
    ensures Linked(base, m.(next := m.next[m.ring[i] := m.next[m.ring[i + 1]]], ring := RemoveAt(m.ring, i + 1)))
  {
    hide LinkAt;
    UnlinkAt(m.next, m.ring, i, 0);
    var next, ring := m.next[m.ring[i] := m.next[m.ring[i + 1]]], RemoveAt(m.ring, i + 1);
    forall j | 0 <= j < |ring| ensures LinkAt(next, ring, j) {
      UnlinkAt(m.next, m.ring, i, j);
    }
  }

  lemma JoinTiled(base: int, m: Mem, i: nat)
    requires Sorted(m.ring) && Tiled(base, m) && 0 < i && i + 1 < |m.ring| && !Apart(m, i) && m.ring[0] == base
    requires m.ring[i + 1] in m.next
    ensures Tiled(base, Join(m, i))
  {
    hide RemoveAt, LinkAt;
    var m', a, b := Join(m, i), m.ring[i], m.ring[i + 1];
    forall h ensures h in m'.ring <==> h in m.ring && h != b {
      MemberRemoved(m.ring, i + 1, h);
    }
    assert forall h :: IsBlock(base, m', h) <==> IsBlock(base, m, h) && h != b;
    assert IsBlock(base, m, a) && IsBlock(base, m, b) && a + m.size[a] == b;
    forall h, u | IsBlock(base, m', h) && Covers(m', h, u) ensures u in m'.own && m'.own[u] == h {
      if h == a {
        assert Covers(m, a, u) || Covers(m, b, u);
      } else {
        assert Covers(m, h, u);
      }
    }
    forall u | u in m'.own ensures IsBlock(base, m', m'.own[u]) && Covers(m', m'.own[u], u) {
      assert Covers(m, m.own[u], u);
    }
  }

  lemma JoinKeeps(base: int, m: Mem, i: nat)
    requires Linked(base, m) && Tiled(base, m) && 0 < i && i + 1 < |m.ring| && !Apart(m, i)
    ensures m.ring[i + 1] in m.next && Linked(base, Join(m, i)) && Tiled(base, Join(m, i))
    ensures Join(m, i).own.Keys == m.own.Keys && Join(m, i).live == m.live
    ensures forall a :: a in m.live ==> Join(m, i).size[a] == m.size[a]
  {
    hide LinkAt;
    Unlinked(base, m, i);
    JoinTiled(base, m, i);
  }

  // The effect of free, of taking a block and of splitting one

  /** Block h put into slot k and joined with its neighbours where they touch. */
  ghost function Freed(base: int, m: Mem, k: nat, h: int): Mem
    requires Linked(base, m) && Tiled(base, m) && h in m.live && Slot(m, k, h)
  {
    InsertLinked(base, m, k, h);
    InsertTiled(base, m, k, h);
    var m1 := Insert(m, k, h);
    var m2 := if Apart(m1, k + 1) then m1 else (JoinKeeps(base, m1, k + 1); Join(m1, k + 1));
    if Apart(m2, k) then m2 else (JoinKeeps(base, m2, k); Join(m2, k))
  }

  lemma InsertApart(m: Mem, k: nat, h: int, i: nat)
    requires k < |m.ring| && i <= |m.ring| && i != k && i != k + 1 && Apart(m, if i < k then i else i - 1)
    ensures Apart(Insert(m, k, h), i)
  {
  }

  /** After a join the joined block ends where the second one did. */
  lemma JoinApart(m: Mem, i: nat, j: nat)
    requires Sorted(m.ring) && 0 < i && i + 1 < |m.ring| && !Apart(m, i) && j < |m.ring| - 1
    requires Apart(m, if j < i then j else j + 1)
    requires m.ring[i] in m.size && m.ring[i + 1] in m.size && m.ring[i + 1] in m.next
    ensures Apart(Join(m, i), j)
  {
  }

  lemma FreedKeeps(base: int, m: Mem, k: nat, h: int)
    requires Ok(base, m) && h in m.live && Slot(m, k, h)
    ensures Ok(base, Freed(base, m, k, h))
    ensures Freed(base, m, k, h).live == m.live - {h} && Freed(base, m, k, h).own.Keys == m.own.Keys
    ensures forall a :: a in m.live && a != h ==>
              a in Freed(base, m, k, h).size && Freed(base, m, k, h).size[a] == m.size[a]
  {
    hide LinkAt, Tiled, Insert, Join, Sorted;
    InsertLinked(base, m, k, h);
    InsertTiled(base, m, k, h);
    var m1 := Insert(m, k, h);
    InsertParts(base, m, k, h);
    forall i | 0 <= i < |m1.ring| && i != k && i != k + 1 ensures Apart(m1, i) {
      InsertApart(m, k, h, i);
    }
    var m2 := m1;
    if !Apart(m1, k + 1) {
      JoinKeeps(base, m1, k + 1);
      JoinParts(base, m1, k + 1);
      m2 := Join(m1, k + 1);
      forall i | 0 <= i < |m2.ring| && i != k ensures Apart(m2, i) {
        JoinApart(m1, k + 1, i);
      }
    }
    if !Apart(m2, k) {
      JoinKeeps(base, m2, k);
      JoinParts(base, m2, k);
      var m3 := Join(m2, k);
      forall i | 0 <= i < |m3.ring| ensures Apart(m3, i) {
        JoinApart(m2, k, i);
      }
    }
  }

  lemma InsertParts(base: int, m: Mem, k: nat, h: int)
    requires Tiled(base, m) && k < |m.ring|
    ensures var m' := Insert(m, k, h);
            m'.live == m.live - {h} && m'.own == m.own && m'.size == m.size && |m'.ring| == |m.ring| + 1
    ensures forall a :: a in m.live ==> a in m.size
  {
  }

  lemma JoinParts(base: int, m: Mem, i: nat)
    requires Tiled(base, m) && i + 1 < |m.ring| && m.ring[i + 1] in m.next
    ensures m.ring[i] in m.size && m.ring[i + 1] in m.size
    ensures var m' := Join(m, i); |m'.ring| == |m.ring| - 1 && m.size.Keys <= m'.size.Keys
    ensures forall a :: a in m.live ==> a in m.size
  {
    var a, b := m.ring[i], m.ring[i + 1];
    assert a in m.ring && b in m.ring;
    assert a in m.size && b in m.size;
  }

  /** A join leaves every unit of a free block in a free block at least as large. */
  lemma JoinGrows(base: int, m: Mem, i: nat, u: int)
    requires Linked(base, m) && Tiled(base, m) && 0 < i && i + 1 < |m.ring| && !Apart(m, i)
    requires u in m.own && m.own[u] in m.ring
    ensures m.ring[i + 1] in m.next && m.ring[i] in m.size && m.ring[i + 1] in m.size
    ensures var m' := Join(m, i);
            u in m'.own && m'.own[u] in m'.ring && m'.own[u] in m'.size && m'.size[m'.own[u]] >= m.size[m.own[u]]
  {
    hide LinkAt;
    Unlinked(base, m, i);
    JoinParts(base, m, i);
    var a, b := m.ring[i], m.ring[i + 1];
    assert IsBlock(base, m, a) && IsBlock(base, m, b);
    var h := Join(m, i).own[u];
    MemberRemoved(m.ring, i + 1, h);
  }

  lemma LiveApart(base: int, m: Mem, h: int)
    requires Tiled(base, m) && h in m.live
    ensures h !in m.ring && base < h && h in m.size
  {
    assert IsBlock(base, m, h);
  }

  /** The position found by the search stays on the list. */
  lemma FreedSlot(base: int, m: Mem, k: nat, h: int)
    requires Ok(base, m) && h in m.live && Slot(m, k, h)
    ensures m.ring[k] in Freed(base, m, k, h).ring
  {
    hide LinkAt, Join, Sorted, Apart, RemoveAt, Insert, Tiled;
    InsertLinked(base, m, k, h);
    InsertTiled(base, m, k, h);
    InsertHas(m, k, h);
    var m1 := Insert(m, k, h);
    var m2 := m1;
    if !Apart(m1, k + 1) {
      ApartRange(m1, k + 1);
      JoinKeeps(base, m1, k + 1);
      JoinParts(base, m1, k + 1);
      JoinHas(m1, k + 1);
      m2 := Join(m1, k + 1);
    }
    if !Apart(m2, k) {
      ApartRange(m2, k);
      JoinKeeps(base, m2, k);
      JoinParts(base, m2, k);
      JoinHas(m2, k);
    }
  }

  /** The freed block ends up in a free block at least as large. */
  lemma FreedHolds(base: int, m: Mem, k: nat, h: int)
    requires Ok(base, m) && h in m.live && Slot(m, k, h)
    ensures var m' := Freed(base, m, k, h);
            h in m'.own && m'.own[h] in m'.ring && m'.own[h] in m'.size && m'.size[m'.own[h]] >= m.size[h]
  {
    hide LinkAt, Join, Sorted, Apart, RemoveAt;
    OwnHeader(base, m, h);
    InsertLinked(base, m, k, h);
    InsertTiled(base, m, k, h);
    MemberInserted(m.ring, k + 1, h, h);
    var m1 := Insert(m, k, h);
    var m2 := m1;
    if !Apart(m1, k + 1) {
      ApartRange(m1, k + 1);
      JoinKeeps(base, m1, k + 1);
      JoinGrows(base, m1, k + 1, h);
      JoinParts(base, m1, k + 1);
      m2 := Join(m1, k + 1);
    }
    if !Apart(m2, k) {
      ApartRange(m2, k);
      JoinKeeps(base, m2, k);
      JoinGrows(base, m2, k, h);
    }
  }

  lemma ApartRange(m: Mem, i: nat)
    requires i < |m.ring|
    ensures !Apart(m, i) ==> 0 < i && i + 1 < |m.ring|
  {
  }

  /** The header fields after a free, as free computes them from those before. */
  lemma FreedFields(base: int, m: Mem, k: nat, h: int)
    requires Ok(base, m) && h in m.live && Slot(m, k, h)
    ensures h in m.size && m.ring[k] in m.next && m.ring[k] in m.size
    ensures m.next[m.ring[k]] in m.next && m.next[m.ring[k]] in m.size
    ensures var p := m.ring[k];
            var after := m.next[p];
            var right := h + m.size[h] == after;
            var size1 := if right then m.size[h := m.size[h] + m.size[after]] else m.size;
            var next1 := m.next[h := if right then m.next[after] else after];
            var left := p + size1[p] == h;
            && Freed(base, m, k, h).size == (if left then size1[p := size1[p] + size1[h]] else size1)
            && Freed(base, m, k, h).next == (if left then next1[p := next1[h]] else next1[p := h])
  {
    hide LinkAt, Tiled, Sorted, Apart, After, RemoveAt, InsertAt;
    SlotFields(base, m, k, h);
    InsertLinked(base, m, k, h);
    InsertTiled(base, m, k, h);
    RightEnd(base, m, k, h);
    InsertHas(m, k, h);
    var m1 := Insert(m, k, h);
    if !Apart(m1, k + 1) {
      ApartRange(m1, k + 1);
      JoinKeeps(base, m1, k + 1);
      JoinHas(m1, k + 1);
      LeftEnd(base, Join(m1, k + 1), k, h);
    } else {
      LeftEnd(base, m1, k, h);
    }
  }

  lemma SlotFields(base: int, m: Mem, k: nat, h: int)
    requires Ok(base, m) && h in m.live && Slot(m, k, h)
    ensures h in m.size && m.ring[k] in m.next && m.ring[k] in m.size && m.ring[k] != h
    ensures m.next[m.ring[k]] == m.ring[After(|m.ring|, k)]
    ensures m.next[m.ring[k]] in m.next && m.next[m.ring[k]] in m.size && m.next[m.ring[k]] != h
  {
    var j := After(|m.ring|, k);
    assert LinkAt(m.next, m.ring, k) && LinkAt(m.next, m.ring, j);
    var p, after := m.ring[k], m.ring[j];
    assert p in m.ring && after in m.ring;
    assert p in m.size && after in m.size;
  }

  lemma InsertHas(m: Mem, k: nat, h: int)
    requires k < |m.ring|
    ensures var r := Insert(m, k, h).ring;
            && |r| == |m.ring| + 1 && r[k] == m.ring[k] && r[k + 1] == h
            && (k + 2 < |r| ==> k + 1 < |m.ring| && r[k + 2] == m.ring[After(|m.ring|, k)])
  {
  }

  lemma JoinHas(m: Mem, i: nat)
    requires 0 < i && i + 1 < |m.ring| && m.ring[i] in m.size && m.ring[i + 1] in m.size && m.ring[i + 1] in m.next
    ensures var r := Join(m, i).ring; |r| == |m.ring| - 1 && r[i] == m.ring[i] && r[i - 1] == m.ring[i - 1]
  {
  }

  /** An inserted block touches its successor just when it ends there. */
  lemma RightEnd(base: int, m: Mem, k: nat, h: int)
    requires Ok(base, m) && h in m.live && Slot(m, k, h)
    ensures h in m.size && (h + m.size[h] == m.ring[After(|m.ring|, k)] <==> !Apart(Insert(m, k, h), k + 1))
  {
    hide LinkAt;
    assert IsBlock(base, m, h);
  }

  lemma LeftEnd(base: int, m: Mem, k: nat, h: int)
    requires Linked(base, m) && Tiled(base, m) && k + 1 < |m.ring| && m.ring[k + 1] == h
    ensures m.ring[k] in m.size && (m.ring[k] + m.size[m.ring[k]] == h <==> !Apart(m, k))
  {
    hide LinkAt;
    var p := m.ring[k];
    assert p in m.ring;
    assert p in m.size;
  }

  /** Free block j taken off the list as it is. */
  ghost function Take(m: Mem, j: nat): Mem
    requires 0 < j < |m.ring| && m.ring[j] in m.next
  {
    m.(next := m.next[m.ring[j - 1] := m.next[m.ring[j]]],
       ring := RemoveAt(m.ring, j),
       live := m.live + {m.ring[j]})
  }

  lemma TakeKeeps(base: int, m: Mem, j: nat)
    requires Ok(base, m) && 0 < j < |m.ring|
    ensures m.ring[j] in m.next && m.ring[j] !in m.live && Ok(base, Take(m, j))
  {
    hide LinkAt;
    Unlinked(base, m, j - 1);
    TakeTiled(base, m, j);
    var m' := Take(m, j);
    forall i | 0 <= i < |m'.ring| ensures Apart(m', i) {
      TakeApart(base, m, j, i);
    }
  }

  lemma TakeTiled(base: int, m: Mem, j: nat)
    requires Sorted(m.ring) && Tiled(base, m) && 0 < j < |m.ring| && m.ring[j] in m.next && m.ring[0] == base
    ensures Tiled(base, Take(m, j))
  {
    var m' := Take(m, j);
    forall h ensures h in m'.ring <==> h in m.ring && h != m.ring[j] {
      MemberRemoved(m.ring, j, h);
    }
    assert forall h :: IsBlock(base, m', h) <==> IsBlock(base, m, h);
  }

  lemma TakeApart(base: int, m: Mem, j: nat, i: nat)
    requires Sorted(m.ring) && Tiled(base, m) && Coalesced(m) && 0 < j < |m.ring| && m.ring[0] == base
    requires m.ring[j] in m.next && i + 1 < |m.ring|
    ensures Apart(Take(m, j), i)
  {
    hide LinkAt;
    assert Apart(m, if i < j then i else i + 1);
    if 0 < i == j - 1 && i + 2 < |m.ring| {
      Below(base, m, m.ring[i], m.ring[j]);
    }
  }

  /** The last n units of free block j cut off as an allocated block. */
  ghost function Split(m: Mem, j: nat, n: nat): Mem
    requires j < |m.ring| && m.ring[j] in m.size
  {
    var a, q := m.ring[j], m.ring[j] + m.size[m.ring[j]] - n;
    m.(size := m.size[a := m.size[a] - n][q := n],
       live := m.live + {q},
       own := map u | u in m.own :: if q <= u < q + n then q else m.own[u])
  }

  lemma SplitKeeps(base: int, m: Mem, j: nat, n: nat)
    requires Ok(base, m) && 0 < j < |m.ring| && m.ring[j] in m.size && 0 < n < m.size[m.ring[j]]
    ensures Ok(base, Split(m, j, n)) && m.ring[j] + m.size[m.ring[j]] - n !in m.live
    ensures Split(m, j, n).own.Keys == m.own.Keys
  {
    hide LinkAt, Tiled;
    SplitTiled(base, m, j, n);
    SplitApart(base, m, j, n);
  }

  lemma SplitTiled(base: int, m: Mem, j: nat, n: nat)
    requires Sorted(m.ring) && Tiled(base, m) && m.ring != [] && m.ring[0] == base
    requires 0 < j < |m.ring| && m.ring[j] in m.size && 0 < n < m.size[m.ring[j]]
    ensures Tiled(base, Split(m, j, n)) && m.ring[j] + m.size[m.ring[j]] - n !in m.live
  {
    var m', a, q := Split(m, j, n), m.ring[j], m.ring[j] + m.size[m.ring[j]] - n;
    assert IsBlock(base, m, a) && Covers(m, a, q);
    OwnHeader(base, m, q);
    assert forall h :: IsBlock(base, m', h) <==> IsBlock(base, m, h) || h == q;
    forall h, u | IsBlock(base, m', h) && Covers(m', h, u) ensures u in m'.own && m'.own[u] == h {
      if h == q {
        assert Covers(m, a, u);
      } else {
        assert Covers(m, h, u);
        assert q <= u < q + n ==> Covers(m, a, u);
      }
    }
  }

  lemma SplitApart(base: int, m: Mem, j: nat, n: nat)
    requires Sorted(m.ring) && Tiled(base, m) && Coalesced(m) && m.ring != [] && m.ring[0] == base
    requires 0 < j < |m.ring| && m.ring[j] in m.size && 0 < n < m.size[m.ring[j]]
    ensures Coalesced(Split(m, j, n))
  {
    hide LinkAt;
    var m', a, q := Split(m, j, n), m.ring[j], m.ring[j] + m.size[m.ring[j]] - n;
    assert IsBlock(base, m, a) && Covers(m, a, q);
    OwnHeader(base, m, q);
    forall i | 0 <= i < |m.ring| ensures Apart(m', i) {
      assert Apart(m, i);
      if i == j && i + 1 < |m.ring| {
        Below(base, m, a, m.ring[i + 1]);
      }
    }
  }

  /** A fresh region of n units, seen as an allocated block. */
  ghost function Grow(m: Mem, at: int, n: nat): Mem {
    m.(size := m.size[at := n],
       live := m.live + {at},
       own := map u | u in m.own.Keys + Region(at, n) :: if at <= u < at + n then at else m.own[u])
  }

  predicate Inside(u: int, at: int, n: nat) {
    at <= u < at + n
  }

  function Region(at: int, n: nat): set<int> {
    set u | at <= u < at + n && Inside(u, at, n)
  }

  lemma GrowKeeps(base: int, m: Mem, at: int, n: nat)
    requires Ok(base, m) && base < at && 0 < n && m.own.Keys !! Region(at, n)
    ensures Ok(base, Grow(m, at, n)) && at !in m.live && Grow(m, at, n).own.Keys == m.own.Keys + Region(at, n)
  {
    hide LinkAt;
    var m' := Grow(m, at, n);
    assert at in Region(at, n);
    OwnHeader(base, m, at);
    assert forall h :: IsBlock(base, m', h) <==> IsBlock(base, m, h) || h == at;
    assert Tiled(base, m') by {
      assert forall u :: u in Region(at, n) <==> at <= u < at + n;
    }
    forall i | 0 <= i < |m.ring| ensures Apart(m', i) {
      assert Apart(m, i);
    }
  }
}
