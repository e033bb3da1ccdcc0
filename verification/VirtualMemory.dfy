/** The operations of v3/vm.c and v3/kalloc.c on address spaces. */
module VirtualMemory {
  import opened PageTables
  import opened FrameCounts

  const PGSIZE: nat := 4096
  const KERNBASE: nat := 0x8000_0000
  const PTE_W: int := 2
  const PTE_U: int := 4

  /** The contents of a page. */
  datatype Page = Page(bytes: seq<int>)

  function ZeroPage(): Page {
    Page(seq(PGSIZE, _ => 0))
  }

  lemma ZeroPageIsZero()
    ensures |ZeroPage().bytes| == 4096 && forall i :: 0 <= i < 4096 ==> ZeroPage().bytes[i] == 0
  {
  }

  function RoundUp(size: nat): nat {
    (size + PGSIZE - 1) / PGSIZE * PGSIZE
  }

  /** The number of pages that a size reaches into. */
  function Pages(size: nat): nat {
    (size + PGSIZE - 1) / PGSIZE
  }

  /** Frame f belongs to space d. */
  predicate Belongs(own: map<int, Use>, f: int, d: int)
    requires f in own
  {
    f == d || (own[f].Table? && own[f].dir == d) || (own[f].User? && own[f].dir == d)
  }

  /** From own to own', frames changed hands only by going from the free list to space d. */
  ghost predicate Only(own: map<int, Use>, own': map<int, Use>, d: int) {
    && own'.Keys == own.Keys
    && forall f :: f in own ==> own'[f] == own[f] || (own[f] == Free && Belongs(own', f, d))
  }

  /** Everything that belongs to space d is free, the rest is as in own. */
  ghost predicate GivenBack(own: map<int, Use>, own': map<int, Use>, d: int) {
    && own'.Keys == own.Keys
    && forall f :: f in own ==> own'[f] == if Belongs(own, f, d) then Free else own[f]
  }

  lemma OnlyTransitive(a: map<int, Use>, b: map<int, Use>, c: map<int, Use>, d: int)
    requires Only(a, b, d) && Only(b, c, d) && (d in b ==> b[d] != Free)
    ensures Only(a, c, d)
  {
  }

  /** Pages lo..hi of space d are gone, with their frames free, and nothing else changed. */
  ghost predicate Cleared(m: Vm, m': Vm, d: int, lo: int, hi: int) {
    && m'.dirs == m.dirs && m'.own.Keys == m.own.Keys
    && (forall e, w :: Lookup(m', e, w) == if e == d && lo <= w < hi then Absent else Lookup(m, e, w))
    && (forall f :: f in m.own ==>
          m'.own[f] == if m.own[f].User? && m.own[f].dir == d && lo <= m.own[f].page < hi then Free else m.own[f])
  }

  lemma ClearedMore(m: Vm, m1: Vm, m2: Vm, d: int, lo: int, v: int, hi: int)
    requires Cleared(m, m1, d, lo, v) && Cleared(m1, m2, d, v, hi) && lo <= v <= hi
    ensures Cleared(m, m2, d, lo, hi)
  {
    hide Lookup;
  }

  lemma ClearedNothing(m: Vm, d: int, lo: int, hi: int)
    requires UsersOk(m) && hi <= USER_PAGES && forall w :: lo <= w < hi ==> Lookup(m, d, w).Absent?
    ensures Cleared(m, m, d, lo, hi)
  {
    hide Lookup;
  }

  lemma ClearedOne(m: Vm, d: int, v: int)
    requires Ok(m) && d in m.dirs && 0 <= v < USER_PAGES && Lookup(m, d, v).Present?
    ensures TableOf(m, d, v) in m.tables && |m.tables[TableOf(m, d, v)]| == ENTRIES
    ensures Ok(Unmapped(m, d, v)) && Cleared(m, Unmapped(m, d, v), d, v, v + 1)
  {
    hide Lookup, TableOf, FreeOk, DirsOk, TablesOk;
    UnmappedKeeps(m, d, v);
  }

  /** Without a table, the whole entry of the directory is empty. */
  lemma NoTableNoPages(m: Vm, d: int, v: int)
    requires Ok(m) && d in m.dirs && 0 <= v < ALL_PAGES && TableOf(m, d, v) == 0
    ensures forall w :: v <= w < (v / ENTRIES + 1) * ENTRIES ==> Lookup(m, d, w).Absent?
  {
    forall w | v <= w < (v / ENTRIES + 1) * ENTRIES ensures Lookup(m, d, w).Absent? {
      assert w / ENTRIES == v / ENTRIES;
    }
  }

  predicate InFrames(f: int, first: int, last: int) {
    first <= f < last
  }

  function Frames(first: int, last: int): set<int> {
    set f | first <= f < last && InFrames(f, first, last)
  }

  /** The frames first..p are free, the others as in own0. */
  ghost predicate FreedTo(own0: map<int, Use>, own: map<int, Use>, first: int, p: int) {
    && own.Keys == own0.Keys
    && forall f :: f in own ==> own[f] == if InFrames(f, first, p) then Free else own0[f]
  }

  lemma FreedNothing(own: map<int, Use>, first: int)
    ensures FreedTo(own, own, first, first)
  {
  }

  lemma FreedAll(own0: map<int, Use>, own: map<int, Use>, first: int, last: int)
    requires FreedTo(own0, own, first, last)
    ensures own.Keys == own0.Keys
    ensures forall f :: f in own ==> own[f] == if InFrames(f, first, last) then Free else own0[f]
  {
  }

  /** User pages have the contents they had in pages0. */
  ghost predicate SameContents(own: map<int, Use>, pages0: map<int, Page>, pages: map<int, Page>) {
    forall f :: f in own && own[f].User? ==> f in pages && f in pages0 && pages[f] == pages0[f]
  }

  class Machine {
    var freelist: seq<int>            // kmem.freelist
    var dirs: map<int, seq<int>>
    var tables: map<int, seq<Pte>>
    var pages: map<int, Page>
    ghost var own: map<int, Use>

    ghost function Now(): Vm
      reads this
    {
      Vm(freelist, dirs, tables, own)
    }

    ghost predicate Valid()
      reads this
    {
      Ok(Now()) && forall f :: f in own && own[f].User? ==> f in pages
    }

    /** The frames first..last, all on the free list (kinit1 and kinit2). */
    constructor (first: int, last: int)
      requires 0 < first <= last
      ensures Valid() && dirs == map[] && own.Keys == Frames(first, last) && forall f :: f in own ==> own[f] == Free
    {
      freelist, dirs, tables, pages := [], map[], map[], map[];
      own := map f | f in Frames(first, last) :: Held;
      new;
      FreeRange(first, last);
    }

    /** freerange: frees the frames one after the other. */
    method FreeRange(first: int, last: int)
      requires Valid() && 0 < first <= last && forall f :: InFrames(f, first, last) ==> f in own && own[f] == Held
      modifies this
      ensures Valid() && dirs == old(dirs) && own.Keys == old(own).Keys
      ensures forall f :: f in own ==> own[f] == if InFrames(f, first, last) then Free else old(own)[f]
    {
      hide Ok, FreedTo;
      FreedNothing(own, first);
      var p := first;
      while p < last
        invariant first <= p <= last && Valid() && dirs == old(dirs) && FreedTo(old(own), own, first, p)
      {
        FreeFrame(p, first, old(own), last);
        p := p + 1;
      }
      FreedAll(old(own), own, first, last);
    }

    /** One round of it. */
    method FreeFrame(p: int, first: int, ghost own0: map<int, Use>, ghost last: int)
      requires Valid() && first <= p < last && FreedTo(own0, own, first, p)
      requires forall f :: InFrames(f, first, last) ==> f in own0 && own0[f] == Held
      modifies this
      ensures Valid() && dirs == old(dirs) && FreedTo(own0, own, first, p + 1)
    {
      hide EntryOk, DirsOk, TablesOk, UsersOk, Lookup;
      assert InFrames(p, first, last);
      Kfree(p);
    }

    /** kalloc: a frame for the caller, or 0. */
    method Kalloc() returns (f: int)
      requires Valid()
      modifies this
      ensures Valid() && pages == old(pages)
      ensures f >= 0 && (f == 0 ==> Now() == old(Now()) && freelist == [])
      ensures f != 0 ==> old(freelist) != [] && f == old(freelist)[0] && Now() == Taken(old(Now()), Held)
      ensures f != 0 ==>
                f in old(own) && old(own)[f] == Free && forall e, w :: Lookup(Now(), e, w) == Lookup(old(Now()), e, w)
    {
      f := 0;
      if freelist != [] {
        TakenKeeps(Now());
        TakenFree(Now(), Held);
        f, freelist := freelist[0], freelist[1..];
        own := own[f := Held];
      }
    }

    /** kfree. */
    method Kfree(f: int)
      requires FreeOk(Now()) && f in own && own[f] != Free
      modifies this
      ensures Now() == Returned(old(Now()), f) && pages == old(pages) - {f} && FreeOk(Now())
      ensures old(Valid() && own[f] == Held) ==> Valid() && dirs == old(dirs) && own == old(own)[f := Free]
      ensures old(Valid() && own[f] == Held) ==> forall e, w :: Lookup(Now(), e, w) == Lookup(old(Now()), e, w)
    {
      hide NoDup, EntryOk, TablesOk, UsersOk, Lookup;
      ReturnedFree(Now(), f);
      if Ok(Now()) && own[f] == Held {
        ReturnedKeeps(Now(), f);
      }
      freelist, dirs, tables, pages := [f] + freelist, dirs - {f}, tables - {f}, pages - {f};
      own := own[f := Free];
    }

    /** walkpgdir: the table for a page, created on request, or 0. */
    method Walk(d: int, v: int, alloc: bool) returns (t: int)
      requires Valid() && d in dirs && 0 <= v < ALL_PAGES
      modifies this
      ensures Valid() && d in dirs && t == TableOf(Now(), d, v) && pages == old(pages)
      ensures t == 0 || !alloc ==> Now() == old(Now())
      ensures alloc ==> (t == 0 <==> !Affords(old(Now()), d, v, v + 1, 0))
      ensures alloc && t != 0 ==> Paid(old(Now()), Now(), d, v, v + 1, 0)
      ensures dirs.Keys == old(dirs).Keys && Only(old(own), own, d)
      ensures forall f :: f in own && old(own)[f] == Held ==> own[f] == Held
      ensures forall e, w :: Lookup(Now(), e, w) == Lookup(old(Now()), e, w)
    {
      hide FreeOk, EntryOk, TablesOk, UsersOk, Lookup;
      t := dirs[d][v / ENTRIES];
      OneTable(Now(), d, v);
      if t != 0 || !alloc {
        return;
      }
      if freelist != [] {
        AddTableKeeps(Now(), d, v);
        AddTablePaid(Now(), d, v);
      }
      t := Kalloc();
      if t == 0 {
        return;
      }
      tables := tables[t := NoEntries()];
      dirs := dirs[d := dirs[d][v / ENTRIES := t]];
      own := own[t := Table(d, v / ENTRIES)];
      assert Now() == AddTable(old(Now()), d, v);
    }

    /** One round of mappages. */
    method MapOne(d: int, v: int, ppn: int, flags: int) returns (ok: bool)
      requires Valid() && d in dirs && 0 <= v < ALL_PAGES && Lookup(Now(), d, v).Absent?
      requires v < USER_PAGES ==> ppn in own && own[ppn] == Held && ppn in pages
      modifies this
      ensures Valid() && dirs.Keys == old(dirs).Keys && pages == old(pages)
      ensures ok <==> Affords(old(Now()), d, v, v + 1, 0)
      ensures if ok then Paid(old(Now()), Now(), d, v, v + 1, 0) else Now() == old(Now())
      ensures Only(if ok && v < USER_PAGES then old(own)[ppn := Free] else old(own), own, d)
      ensures forall e, w :: Lookup(Now(), e, w) ==
                if ok && e == d && w == v then Present(ppn, flags) else Lookup(old(Now()), e, w)
    {
      hide FreeOk, DirsOk, TablesOk, UsersOk, Lookup, TableOf;
      var t := Walk(d, v, true);
      if t == 0 {
        return false;
      }
      ghost var m := Now();
      MappedKeeps(m, d, v, ppn, flags);
      tables := tables[t := tables[t][v % ENTRIES := Present(ppn, flags)]];
      if v < USER_PAGES {
        own := own[ppn := User(d, v)];
      }
      assert Now() == Mapped(m, d, v, ppn, flags);
      return true;
    }

    /** One round of deallocuvm at page-aligned address a: clears the page, or skips to the next
        directory entry if there is no table.  Returns the next address. */
    method ClearRound(d: int, a: nat, oldsz: nat) returns (a': nat)
      requires Valid() && d in dirs && a % PGSIZE == 0 && a < oldsz <= KERNBASE
      modifies this
      ensures Valid() && a' % PGSIZE == 0 && a < a'
      ensures Cleared(old(Now()), Now(), d, a / PGSIZE, Min(a' / PGSIZE, Pages(oldsz)))
      ensures SameContents(own, old(pages), pages)
    {
      hide FreeOk, DirsOk, TablesOk, Lookup, TableOf, Cleared;
      ghost var m := Now();
      var v := a / PGSIZE;
      var t := Walk(d, v, false);
      a' := a;
      if t == 0 {
        NoTableNoPages(m, d, v);
        a' := (v / ENTRIES + 1) * ENTRIES * PGSIZE - PGSIZE;
        ClearedNothing(m, d, v, Min(a' / PGSIZE + 1, Pages(oldsz)));
      } else {
        EntryOf(m, d, v);
        var pte := tables[t][v % ENTRIES];
        if pte.Present? {
          ClearedOne(m, d, v);
          FrameOf(m, d, v);
          Kfree(pte.ppn);
          tables := tables[t := tables[t][v % ENTRIES := Absent]];
          assert Now() == Unmapped(m, d, v);
        } else {
          ClearedNothing(m, d, v, v + 1);
        }
      }
      a' := a' + PGSIZE;
    }

    /** deallocuvm: unmaps the pages between the two sizes and frees their frames. */
    method DeallocUvm(d: int, oldsz: nat, newsz: nat) returns (size: nat)
      requires Valid() && d in dirs && oldsz <= KERNBASE
      modifies this
      ensures Valid() && size == if newsz < oldsz then newsz else oldsz
      ensures Cleared(old(Now()), Now(), d, Pages(newsz), Pages(oldsz)) && SameContents(own, old(pages), pages)
      ensures dirs == old(dirs)
    {
      hide Lookup, FreeOk, DirsOk, TablesOk, UsersOk;
      if newsz >= oldsz {
        ClearedNothing(Now(), d, Pages(newsz), Pages(oldsz));
        return oldsz;
      }
      var a := RoundUp(newsz);
      ghost var lo, hi := Pages(newsz), Pages(oldsz);
      ClearedNothing(Now(), d, lo, lo);
      while a < oldsz
        invariant a % PGSIZE == 0 && lo <= a / PGSIZE
        invariant Valid() && d in dirs && Cleared(old(Now()), Now(), d, lo, Min(a / PGSIZE, hi))
        invariant SameContents(own, old(pages), pages)
      {
        ghost var m, v := Now(), a / PGSIZE;
        a := ClearRound(d, a, oldsz);
        ClearedMore(old(Now()), m, Now(), d, lo, v, Min(a / PGSIZE, hi));
      }
      return newsz;
    }

    /** One round of freevm's loop. */
    method FreeTable(d: int, i: nat, ghost m: Vm, ghost pages0: map<int, Page>)
      requires i < ENTRIES && Dying(m, Now(), d, i) && SameContents(own, pages0, pages)
      modifies this
      ensures Dying(m, Now(), d, i + 1) && SameContents(own, pages0, pages)
    {
      hide Lookup, FreeOk, EntryOk, TablesOk, UsersOk, NoUserPages;
      var t := dirs[d][i];
      if t != 0 {
        DyingTable(m, Now(), d, i);
        Kfree(t);
      } else {
        DyingNothing(m, Now(), d, i);
      }
    }

    method FreeTables(d: int, ghost m: Vm, ghost pages0: map<int, Page>)
      requires Dying(m, Now(), d, 0) && SameContents(own, pages0, pages)
      modifies this
      ensures Dying(m, Now(), d, ENTRIES) && SameContents(own, pages0, pages)
    {
      var i := 0;
      while i < ENTRIES
        invariant 0 <= i <= ENTRIES && Dying(m, Now(), d, i)
        invariant SameContents(own, pages0, pages)
      {
        FreeTable(d, i, m, pages0);
        i := i + 1;
      }
    }

    /** freevm: gives back the frames of a space, its user pages, tables and directory, and no other. */
    method FreeVm(d: int)
      requires Valid() && d in dirs
      modifies this
      ensures Valid() && dirs.Keys == old(dirs).Keys - {d} && GivenBack(old(own), own, d)
      ensures forall e, w :: e != d ==> Lookup(Now(), e, w) == Lookup(old(Now()), e, w)
      ensures SameContents(own, old(pages), pages)
    {
      hide Lookup, EntryOk, TablesOk, UsersOk, NoUserPages;
      ghost var m := Now();
      var size := DeallocUvm(d, KERNBASE, 0);
      DyingStart(m, Now(), d);
      FreeTables(d, m, old(pages));
      DyingEnd(m, Now(), d);
      Kfree(d);
    }

    /** mappages: maps the pages that the range of addresses touches to consecutive pages from pa on.  Fails
        exactly when there are fewer free frames than tables to be added. */
    method MapPages(d: int, va: nat, size: nat, pa: nat, flags: int) returns (ok: bool)
      requires Valid() && d in dirs && 0 < size && va + size <= ALL_PAGES * PGSIZE
      requires forall w :: va / PGSIZE <= w <= (va + size - 1) / PGSIZE ==> Lookup(Now(), d, w).Absent?
      requires va / PGSIZE < USER_PAGES ==>
                 && (va + size - 1) / PGSIZE == va / PGSIZE && pa / PGSIZE in own && own[pa / PGSIZE] == Held
                 && pa / PGSIZE in pages
      modifies this
      ensures Valid() && dirs.Keys == old(dirs).Keys && pages == old(pages)
      ensures ok <==> Affords(old(Now()), d, va / PGSIZE, (va + size - 1) / PGSIZE + 1, 0)
      ensures ok ==> Paid(old(Now()), Now(), d, va / PGSIZE, (va + size - 1) / PGSIZE + 1, 0)
      ensures !ok && va / PGSIZE < USER_PAGES ==> Now() == old(Now())
      ensures Only(if ok && va / PGSIZE < USER_PAGES then old(own)[pa / PGSIZE := Free] else old(own), own, d)
      ensures ok ==> Ranged(old(Now()), Now(), d, va / PGSIZE, (va + size - 1) / PGSIZE + 1, pa / PGSIZE, flags)
      ensures forall e, w :: e != d || w < va / PGSIZE ==> Lookup(Now(), e, w) == Lookup(old(Now()), e, w)
    {
      hide FreeOk, TablesOk, UsersOk, EntryOk, Lookup, Paid, Affords;
      ghost var m0, at := Now(), 0;
      MappingNothing(m0, d, va / PGSIZE, pa / PGSIZE, flags);
      ok, at := MapLoop(d, va / PGSIZE, (va + size - 1) / PGSIZE, pa / PGSIZE, flags, m0);
      MappedOnly(m0, Now(), d, va / PGSIZE, at, pa / PGSIZE, flags);
      if ok {
        Afforded(m0, Now(), d, va / PGSIZE, at, 0);
      }
    }

    /** Its loop. */
    method MapLoop(d: int, first: nat, last: nat, ppn: int, flags: int, ghost m0: Vm) returns (ok: bool, ghost at: nat)
      requires Valid() && Mappable(m0, pages, d, first, last, ppn) && Mapping(m0, Now(), d, first, first, ppn, flags)
      modifies this
      ensures Valid() && pages == old(pages) && Mapping(m0, Now(), d, first, at, ppn, flags)
      ensures first <= at <= last + 1
      ensures if ok then at == last + 1 else at <= last && !Affords(m0, d, first, last + 1, 0)
    {
      hide Ok, Mapping, Affords;
      var a, p := first, ppn;
      while true
        invariant first <= a <= last && p == ppn + (a - first)
        invariant Valid() && pages == old(pages) && Mapping(m0, Now(), d, first, a, ppn, flags)
        decreases last - a
      {
        ok := MapRound(d, a, p, flags, first, last, ppn, m0);
        if !ok {
          return false, a;
        }
        if a == last {
          break;
        }
        a, p := a + 1, p + 1;
      }
      return true, last + 1;
    }

    /** One round of it, at page a. */
    method MapRound(d: int, a: int, p: int, flags: int, ghost first: nat, ghost last: nat, ghost ppn: int, ghost m0: Vm)
      returns (ok: bool)
      requires Valid() && first <= a <= last && p == ppn + (a - first)
      requires Mappable(m0, pages, d, first, last, ppn) && Mapping(m0, Now(), d, first, a, ppn, flags)
      modifies this
      ensures Valid() && pages == old(pages)
      ensures if ok then Mapping(m0, Now(), d, first, a + 1, ppn, flags)
              else Now() == old(Now()) && !Affords(m0, d, first, last + 1, 0)
    {
      hide FreeOk, TablesOk, UsersOk, EntryOk, Lookup, Paid, Affords;
      ghost var m := Now();
      assert Lookup(m, d, a).Absent?;
      ok := MapOne(d, a, p, flags);
      if ok {
        RangedMore(m0, m, Now(), d, first, a, ppn, flags);
        PaidMore(m0, m, Now(), d, first, a, a + 1, 0, 0);
        if first >= USER_PAGES {
          OnlyTransitive(m0.own, m.own, own, d);
        }
      } else {
        TooFew(m0, m, d, first, a, a + 1, last + 1, 0, 0, 0);
      }
    }

    /** The common part of allocuvm and copyuvm: a new frame with given contents mapped at a user page.
        On failure mem is the frame that could not be mapped, if one was there. */
    method AddPage(d: int, v: int, content: Page, flags: int) returns (ok: bool, mem: int)
      requires Valid() && d in dirs && 0 <= v < USER_PAGES && Lookup(Now(), d, v).Absent?
      modifies this
      ensures Valid() && dirs.Keys == old(dirs).Keys
      ensures ok <==> Affords(old(Now()), d, v, v + 1, 1)
      ensures ok ==> Paid(old(Now()), Now(), d, v, v + 1, 1)
      ensures mem == 0 ==> !ok && Now() == old(Now()) && pages == old(pages)
      ensures mem != 0 ==> mem in old(own) && old(own)[mem] == Free && pages == old(pages)[mem := content]
      ensures !ok && mem != 0 ==> own == old(own)[mem := Held]
      ensures ok ==> mem != 0 && Only(old(own), own, d)
      ensures forall e, w :: Lookup(Now(), e, w) ==
                if ok && e == d && w == v then Present(mem, flags) else Lookup(old(Now()), e, w)
    {
      hide FreeOk, DirsOk, TablesOk, UsersOk, Lookup;
      mem := Kalloc();
      if mem == 0 {
        return false, 0;
      }
      pages := pages[mem := content];
      assert old(own)[mem := Held][mem := Free] == old(own);
      ok := MapPages(d, v * PGSIZE, PGSIZE, mem * PGSIZE, flags);
    }

    /** The failure path of allocuvm after pages up to v: what was added since m0 goes again. */
    method Undo(d: int, oldsz: nat, newsz: nat, mem: int, ghost m0: Vm, ghost m: Vm, ghost v: int)
      requires Valid() && d in dirs && newsz <= KERNBASE && Pages(oldsz) <= v <= Pages(newsz)
      requires Ok(m0) && Only(m0.own, m.own, d) && Grown(m0, m, d, Pages(oldsz), v)
      requires AbsentIn(m0, d, Pages(oldsz), Pages(newsz))
      requires if mem == 0 then own == m.own else mem in m.own && m.own[mem] == Free && own == m.own[mem := Held]
      requires forall e, w :: Lookup(Now(), e, w) == Lookup(m, e, w)
      modifies this
      ensures Valid() && dirs.Keys == old(dirs).Keys && Only(m0.own, own, d) && SameContents(m0.own, old(pages), pages)
      ensures forall e, w :: Lookup(Now(), e, w) == Lookup(m0, e, w)
    {
      hide Lookup, Cleared, FreeOk, DirsOk, TablesOk, UsersOk;
      ghost var mh := Now();
      var left := DeallocUvm(d, newsz, oldsz);
      AllocUndone(m0, m, mh, Now(), d, Pages(oldsz), v, Pages(newsz), mem);
      if mem != 0 {
        Kfree(mem);
      }
    }

    /** One round of allocuvm, at page v. */
    method AllocRound(d: int, v: int, oldsz: nat, newsz: nat, ghost m0: Vm, ghost pages0: map<int, Page>)
      returns (ok: bool)
      requires Valid() && newsz < KERNBASE && Pages(oldsz) <= v < Pages(newsz) && Ok(m0)
      requires Allocating(m0, pages0, Now(), pages, d, Pages(oldsz), v) && AbsentIn(m0, d, Pages(oldsz), Pages(newsz))
      modifies this
      ensures Valid()
      ensures if ok then Allocating(m0, pages0, Now(), pages, d, Pages(oldsz), v + 1)
              else AllocFailed(m0, pages0, Now(), pages, d, Pages(oldsz), Pages(newsz))
    {
      hide Lookup, FreeOk, TablesOk, UsersOk, EntryOk, Paid, Affords, Allocating, Only, Grown, SameContents, AbsentIn;
      ghost var m, before := Now(), pages;
      AllocatingFacts(m0, pages0, m, before, d, Pages(oldsz), v, Pages(newsz));
      var mem;
      ok, mem := AddPage(d, v, ZeroPage(), PTE_W + PTE_U);
      if ok {
        AllocatingMore(m0, pages0, m, before, Now(), pages, d, Pages(oldsz), v, mem);
      } else {
        NewContents(m0, m, pages0, before, pages, d, mem, ZeroPage());
        TooFew(m0, m, d, Pages(oldsz), v, v + 1, Pages(newsz), v - Pages(oldsz), 1, Pages(newsz) - v - 1);
        ghost var held := pages;
        Undo(d, oldsz, newsz, mem, m0, m, v);
        SameContentsTrans(m0.own, pages0, held, pages);
      }
    }

    /** allocuvm's loop. */
    method AllocLoop(d: int, oldsz: nat, newsz: nat, ghost m0: Vm, ghost pages0: map<int, Page>) returns (ok: bool)
      requires Valid() && oldsz <= newsz < KERNBASE && Ok(m0) && AbsentIn(m0, d, Pages(oldsz), Pages(newsz))
      requires Allocating(m0, pages0, Now(), pages, d, Pages(oldsz), Pages(oldsz))
      modifies this
      ensures Valid()
      ensures if ok then Allocating(m0, pages0, Now(), pages, d, Pages(oldsz), Pages(newsz))
              else AllocFailed(m0, pages0, Now(), pages, d, Pages(oldsz), Pages(newsz))
    {
      hide Ok, Allocating, AllocFailed, AbsentIn;
      ok := true;
      var a := RoundUp(oldsz);
      ghost var v, hi := Pages(oldsz), Pages(newsz);
      while a < newsz
        invariant a == v * PGSIZE && Pages(oldsz) <= v <= hi && ok && Valid()
        invariant Allocating(m0, pages0, Now(), pages, d, Pages(oldsz), v)
      {
        ok := AllocRound(d, a / PGSIZE, oldsz, newsz, m0, pages0);
        if !ok {
          return;
        }
        a, v := a + PGSIZE, v + 1;
      }
    }

    /** allocuvm: new zeroed pages between the two sizes, or none at all.  Succeeds below KERNBASE exactly when the
        free frames suffice for the pages and the tables they lack. */
    method AllocUvm(d: int, oldsz: nat, newsz: nat) returns (size: nat, ghost ok: bool)
      requires Valid() && d in dirs && oldsz <= KERNBASE
      requires forall w :: Pages(oldsz) <= w < Pages(newsz) && w < USER_PAGES ==> Lookup(Now(), d, w).Absent?
      modifies this
      ensures Valid() && dirs.Keys == old(dirs).Keys && Only(old(own), own, d)
      ensures SameContents(old(own), old(pages), pages)
      ensures ok ==>
                && size == (if newsz < oldsz then oldsz else newsz)
                && Filled(old(Now()), Now(), pages, d, Pages(oldsz), Pages(newsz))
      ensures !ok ==> size == 0 && forall e, w :: Lookup(Now(), e, w) == Lookup(old(Now()), e, w)
      ensures newsz >= KERNBASE ==> !ok
      ensures newsz < KERNBASE ==>
                (ok <==> newsz < oldsz
                         || Affords(old(Now()), d, Pages(oldsz), Pages(newsz), Pages(newsz) - Pages(oldsz)))
      ensures ok && newsz >= oldsz ==>
                Paid(old(Now()), Now(), d, Pages(oldsz), Pages(newsz), Pages(newsz) - Pages(oldsz))
    {
      hide Lookup, FreeOk, TablesOk, UsersOk, EntryOk, ZeroPage, Lacking;
      if newsz >= KERNBASE {
        return 0, false;
      }
      ghost var m0 := Now();
      FilledNothing(m0, pages, d, Pages(oldsz), Pages(newsz));
      if newsz < oldsz {
        return oldsz, true;
      }
      PaidNothing(m0, d, Pages(oldsz));
      var added := AllocLoop(d, oldsz, newsz, m0, pages);
      return if added then newsz else 0, added;
    }

    method NewDirectory() returns (d: int)
      requires Valid()
      modifies this
      ensures Valid() && pages == old(pages)
      ensures d == 0 ==> Now() == old(Now()) && freelist == []
      ensures d != 0 ==> Space(old(Now()), Now(), d) && forall w :: Lookup(Now(), d, w) == Absent
      ensures d != 0 ==> dirs[d] == NoTables() && |freelist| + 1 == |old(freelist)|
    {
      hide TablesOk, UsersOk, EntryOk, Lookup;
      ghost var m := Now();
      if freelist != [] {
        NewDirKeeps(m);
        NoDirNoPages(m, freelist[0]);
      }
      d := Kalloc();
      if d != 0 {
        dirs := dirs[d := NoTables()];
        own := own[d := Directory];
        assert Now() == NewDir(m);
      }
    }

    /** One round of setupkvm's loop. */
    method MapKernel(d: int, data: int, k: nat, ghost m0: Vm) returns (ok: bool)
      requires Valid() && KERNLINK_PAGE < data < PHYSTOP_PAGE && k < 4 && Space(m0, Now(), d)
      requires KernelPaid(m0, Now(), d, data, k)
      requires forall w :: Lookup(Now(), d, w) == KernelPte(data, k, w)
      modifies this
      ensures Valid() && pages == old(pages) && Space(m0, Now(), d)
      ensures ok ==> KernelPaid(m0, Now(), d, data, k + 1)
      ensures ok ==> forall w :: Lookup(Now(), d, w) == KernelPte(data, k + 1, w)
      ensures !ok ==> |m0.freelist| < KERNEL_FRAMES
    {
      hide FreeOk, TablesOk, UsersOk, EntryOk, Lookup, KernelTables, KernelDir;
      ghost var m := Now();
      KernelLine(m.dirs[d], data, k);
      var line := Kmap(data, k);
      KmapDisjoint(data, k);
      ok := MapPages(d, line.lo * PGSIZE, (line.hi - line.lo) * PGSIZE, line.ppn * PGSIZE, line.flags);
      OnlyTransitive(m0.own, m.own, own, d);
      if ok {
        KernelLineAdded(m.dirs[d], dirs[d], data, k);
      }
    }

    /** Giving up a space that has been built since m0. */
    method Discard(d: int, ghost m0: Vm)
      requires Valid() && Ok(m0) && Space(m0, Now(), d)
      modifies this
      ensures Valid() && own == m0.own && dirs.Keys == m0.dirs.Keys && SameContents(own, old(pages), pages)
      ensures forall e, w :: e != d ==> Lookup(Now(), e, w) == Lookup(m0, e, w)
    {
      hide FreeOk, DirsOk, TablesOk, UsersOk, Lookup;
      ghost var m := Now();
      FreeVm(d);
      HistoryReturns(m0, m.own, own, d);
    }

    /** setupkvm: a new space with the kernel's mappings and no user pages; nothing is kept on failure.  It takes 65
        frames and succeeds exactly when they are there. */
    method SetupKvm(data: int) returns (d: int)
      requires Valid() && KERNLINK_PAGE < data < PHYSTOP_PAGE
      modifies this
      ensures Valid() && SameContents(old(own), old(pages), pages)
      ensures d == 0 ==> own == old(own) && dirs.Keys == old(dirs).Keys
      ensures d != 0 ==> d !in old(dirs) && dirs.Keys == old(dirs).Keys + {d} && Only(old(own), own, d)
      ensures d != 0 ==>
                d in old(own) && old(own)[d] == Free && forall w :: Lookup(Now(), d, w) == KernelPte(data, 4, w)
      ensures forall e, w :: e != d ==> Lookup(Now(), e, w) == Lookup(old(Now()), e, w)
      ensures d != 0 <==> |old(freelist)| >= KERNEL_FRAMES
      ensures d != 0 ==> NoUserTables(dirs[d]) && |freelist| + KERNEL_FRAMES == |old(freelist)|
    {
      hide NoDup, TablesOk, UsersOk, EntryOk, Lookup, KernelPte, KernelTables, KernelDir;
      ghost var m0 := Now();
      d := NewDirectory();
      if d == 0 {
        return;
      }
      NoLines(data);
      KernelNothing(m0, Now(), d, data);
      var ok := MapKernelAll(d, data, m0);
      if !ok {
        NoDirNoPages(m0, d);
        Discard(d, m0);
        NoDirNoPages(Now(), d);
        d := 0;
      }
    }

    /** setupkvm's loop. */
    method MapKernelAll(d: int, data: int, ghost m0: Vm) returns (ok: bool)
      requires Valid() && KERNLINK_PAGE < data < PHYSTOP_PAGE && Space(m0, Now(), d)
      requires KernelPaid(m0, Now(), d, data, 0) && forall w :: Lookup(Now(), d, w) == KernelPte(data, 0, w)
      modifies this
      ensures Valid() && pages == old(pages) && Space(m0, Now(), d)
      ensures ok ==> forall w :: Lookup(Now(), d, w) == KernelPte(data, 4, w)
      ensures ok ==> NoUserTables(dirs[d]) && |freelist| + KERNEL_FRAMES == |m0.freelist|
      ensures !ok ==> |m0.freelist| < KERNEL_FRAMES
    {
      hide Ok, Space, Lookup, KernelPte;
      var k := 0;
      while k < 4
        invariant 0 <= k <= 4 && Valid() && pages == old(pages) && Space(m0, Now(), d)
        invariant KernelPaid(m0, Now(), d, data, k)
        invariant forall w :: Lookup(Now(), d, w) == KernelPte(data, k, w)
      {
        ok := MapKernel(d, data, k, m0);
        if !ok {
          return;
        }
        k := k + 1;
      }
      KernelTotal(data);
      ok := true;
    }

    /** One round of copyuvm, at page v of n. */
    method CopyRound(src: int, d: int, v: int, data: int, ghost m0: Vm, ghost pages0: map<int, Page>, ghost m1: Vm,
                     ghost n: nat)
      returns (ok: bool)
      requires Valid() && Ok(m0) && src in m0.dirs && 0 <= v < n <= USER_PAGES && Lookup(m0, src, v).Present?
      requires Copying(m0, pages0, m1, Now(), pages, src, d, data, v) && KERNLINK_PAGE < data < PHYSTOP_PAGE
      modifies this
      ensures Valid()
      ensures if ok then Copying(m0, pages0, m1, Now(), pages, src, d, data, v + 1)
              else CopyFailed(m0, pages0, m1, Now(), pages, d, n)
    {
      hide FreeOk, DirsOk, TablesOk, UsersOk, Lookup, TableOf, Paid, Affords;
      hide Copying, Space, SameContents, Only, KernelPte;
      ghost var m := Now();
      CopyingFacts(m0, pages0, m1, m, pages, src, d, data, v);
      PresentHasTable(m, src, v);
      var t := Walk(src, v, false);
      EntryOf(m, src, v);
      var pte := tables[t][v % ENTRIES];
      var mem;
      ghost var before := pages;
      ok, mem := AddPage(d, v, pages[pte.ppn], pte.flags);
      if ok {
        CopyingMore(m0, pages0, m1, m, before, Now(), pages, src, d, data, v, mem);
      } else {
        TooFew(m1, m, d, 0, v, v + 1, n, v, 1, n - v - 1);
        if mem != 0 {
          Kfree(mem);
          assert own == m.own;
        }
        CopyFails(m0, pages0, m1, m, before, Now(), pages, src, d, data, v, mem, n);
      }
    }

    /** The loop of copyuvm. */
    method CopyLoop(src: int, d: int, sz: nat, data: int, ghost m0: Vm, ghost pages0: map<int, Page>, ghost m1: Vm)
      returns (ok: bool)
      requires Valid() && Ok(m0) && src in m0.dirs && sz <= KERNBASE && KERNLINK_PAGE < data < PHYSTOP_PAGE
      requires forall w :: 0 <= w < Pages(sz) ==> Lookup(m0, src, w).Present?
      requires Copying(m0, pages0, m1, Now(), pages, src, d, data, 0)
      modifies this
      ensures Valid()
      ensures if ok then Copying(m0, pages0, m1, Now(), pages, src, d, data, Pages(sz))
              else CopyFailed(m0, pages0, m1, Now(), pages, d, Pages(sz))
    {
      hide Ok, Copying, CopyFailed, Lookup;
      ok := true;
      var i := 0;
      ghost var v, n := 0, Pages(sz);
      while i < sz
        invariant i == v * PGSIZE && 0 <= v <= n && ok && Valid()
        invariant Copying(m0, pages0, m1, Now(), pages, src, d, data, v)
      {
        ok := CopyRound(src, d, i / PGSIZE, data, m0, pages0, m1, n);
        if !ok {
          return;
        }
        i, v := i + PGSIZE, v + 1;
      }
    }

    /** copyuvm: a space with copies of the first pages of src, or no change at all.  Succeeds exactly when there
        are free frames for the kernel part, the pages, and their tables. */
    method CopyUvm(src: int, sz: nat, data: int) returns (d: int)
      requires Valid() && src in dirs && sz <= KERNBASE && KERNLINK_PAGE < data < PHYSTOP_PAGE
      requires forall w :: 0 <= w < Pages(sz) ==> Lookup(Now(), src, w).Present?
      modifies this
      ensures Valid() && SameContents(old(own), old(pages), pages)
      ensures d == 0 ==> own == old(own) && dirs.Keys == old(dirs).Keys
      ensures d == 0 ==> forall e, w :: e in old(dirs) ==> Lookup(Now(), e, w) == Lookup(old(Now()), e, w)
      ensures d != 0 ==> Copied(old(Now()), Now(), old(pages), pages, src, d, data, Pages(sz))
      ensures d != 0 <==>
                |old(freelist)| >= KERNEL_FRAMES + Pages(sz) + (Pages(sz) + ENTRIES - 1) / ENTRIES
    {
      hide NoDup, TablesOk, EntryOk, UsersOk, Lookup, KernelPte;
      ghost var m0 := Now();
      d := SetupKvm(data);
      if d == 0 {
        return;
      }
      CopiedNothing(m0, Now(), old(pages), pages, src, d, data);
      ghost var m1 := Now();
      LackingFresh(dirs[d], Pages(sz));
      PaidNothing(m1, d, 0);
      var ok := CopyLoop(src, d, sz, data, m0, old(pages), m1);
      if !ok {
        Discard(d, m0);
        d := 0;
      }
    }
  }

  // The frames that tables take

  lemma OneTable(m: Vm, d: int, v: nat)
    requires Sized(m, d) && v < ALL_PAGES
    ensures Lacking(m.dirs[d], v, v + 1) == if TableOf(m, d, v) == 0 then 1 else 0
    ensures TableOf(m, d, v) != 0 ==> Paid(m, m, d, v, v + 1, 0)
  {
    EmptySplit(m.dirs[d], v / ENTRIES, v / ENTRIES, v / ENTRIES + 1);
  }

  lemma AddTablePaid(m: Vm, d: int, v: nat)
    requires FreeOk(m) && m.freelist != [] && Sized(m, d) && v < ALL_PAGES && TableOf(m, d, v) == 0
    ensures Paid(m, AddTable(m, d, v), d, v, v + 1, 0)
  {
    OneTable(m, d, v);
    assert m.freelist[0] in m.freelist;
  }

  const KERNEL_FRAMES: nat := 65      // the directory and 64 tables

  /** The end of the pages from KERN_PAGE on that the first k lines of kmap map. */
  function KernelEnd(data: nat, k: nat): nat
    requires k <= 4
  {
    if k == 0 then KERN_PAGE else if k == 1 then KERN_PAGE + KERNLINK_PAGE
    else if k == 2 then KERN_PAGE + data else KERN_PAGE + PHYSTOP_PAGE
  }

  /** The tables that the first k lines of kmap take. */
  function KernelTables(data: nat, k: nat): nat
    requires data < PHYSTOP_PAGE && k <= 4
  {
    Lacking(NoTables(), KERN_PAGE, KernelEnd(data, k)) + if k == 4 then 8 else 0
  }

  /** The directory after the first k lines. */
  ghost predicate KernelDir(dir: seq<int>, data: nat, k: nat)
    requires data < PHYSTOP_PAGE && k <= 4
  {
    NoUserTables(dir) && (k < 4 ==> Added(NoTables(), dir, KERN_PAGE, KernelEnd(data, k)))
  }

  ghost predicate KernelPaid(m0: Vm, m: Vm, d: int, data: nat, k: nat)
    requires data < PHYSTOP_PAGE && k <= 4
  {
    d in m.dirs && KernelDir(m.dirs[d], data, k) && |m0.freelist| == |m.freelist| + 1 + KernelTables(data, k)
  }

  lemma KernelNothing(m0: Vm, m: Vm, d: int, data: nat)
    requires data < PHYSTOP_PAGE && d in m.dirs && m.dirs[d] == NoTables() && |m0.freelist| == |m.freelist| + 1
    ensures KernelPaid(m0, m, d, data, 0)
  {
  }

  lemma KernelTotal(data: nat)
    requires data < PHYSTOP_PAGE
    ensures KernelTables(data, 4) + 1 == KERNEL_FRAMES
  {
    EmptyAll(NoTables(), KERN_PAGE / ENTRIES, (KERN_PAGE + PHYSTOP_PAGE) / ENTRIES);
  }

  /** The k-th line lacks what it adds to the tables of the kernel. */
  lemma KernelLine(dir: seq<int>, data: nat, k: nat)
    requires KERNLINK_PAGE < data < PHYSTOP_PAGE && k < 4 && KernelDir(dir, data, k)
    ensures |dir| == ENTRIES
    ensures Lacking(dir, Kmap(data, k).lo, Kmap(data, k).hi) == KernelTables(data, k + 1) - KernelTables(data, k)
    ensures KernelTables(data, k + 1) < KERNEL_FRAMES
  {
    KernelTotal(data);
    if k < 3 {
      LackingSplit(NoTables(), dir, KERN_PAGE, KernelEnd(data, k), KernelEnd(data, k + 1));
      LackingFewer(NoTables(), KERN_PAGE, KernelEnd(data, k + 1), KernelEnd(data, 3));
    } else {
      EmptyAll(dir, DEV_PAGE / ENTRIES, ALL_PAGES / ENTRIES);
    }
  }

  lemma KernelLineAdded(dir: seq<int>, dir': seq<int>, data: nat, k: nat)
    requires KERNLINK_PAGE < data < PHYSTOP_PAGE && k < 4 && KernelDir(dir, data, k)
    requires Added(dir, dir', Kmap(data, k).lo, Kmap(data, k).hi)
    ensures KernelDir(dir', data, k + 1)
  {
    if k < 3 {
      AddedMore(NoTables(), dir, dir', KERN_PAGE, KernelEnd(data, k), KernelEnd(data, k + 1));
    }
  }

  /** Since m0 the space d has come into being, and nothing else has changed. */
  ghost predicate Space(m0: Vm, m: Vm, d: int) {
    && d !in m0.dirs && m.dirs.Keys == m0.dirs.Keys + {d} && d in m0.own && m0.own[d] == Free && Only(m0.own, m.own, d)
    && forall e, w :: e != d ==> Lookup(m, e, w) == Lookup(m0, e, w)
  }

  lemma NoDirNoPages(m: Vm, d: int)
    requires FreeOk(m) && TablesOk(m, 0, 0)
    ensures d !in m.dirs ==> forall w :: Lookup(m, d, w) == Absent
  {
  }

  /** Page w of space d is a copy of that of src in m0. */
  ghost predicate CopyOf(m0: Vm, m: Vm, pages0: map<int, Page>, pages: map<int, Page>, src: int, d: int, w: int) {
    var a, b := Lookup(m0, src, w), Lookup(m, d, w);
    a.Present? && b.Present? && b.flags == a.flags && a.ppn in pages0 && b.ppn in pages && pages[b.ppn] == pages0[a.ppn]
  }

  /** Since m0 the space d has come into being, with copies of the first v pages of src and the kernel's
      pages; the user pages of other spaces are as they were. */
  ghost predicate Copied(m0: Vm, m: Vm, pages0: map<int, Page>, pages: map<int, Page>, src: int, d: int, data: int,
                         v: int) {
    && Space(m0, m, d) && SameContents(m0.own, pages0, pages)
    && (forall w :: 0 <= w < v ==> CopyOf(m0, m, pages0, pages, src, d, w))
    && (forall w :: !(0 <= w < v) ==> Lookup(m, d, w) == KernelPte(data, 4, w))
  }

  /** Part way through copyuvm, which has made the space by m1. */
  ghost predicate Copying(m0: Vm, pages0: map<int, Page>, m1: Vm, m: Vm, pages: map<int, Page>, src: int, d: int,
                          data: int, v: nat) {
    Copied(m0, m, pages0, pages, src, d, data, v) && Sized(m1, d) && v <= ALL_PAGES && Paid(m1, m, d, 0, v, v)
  }

  lemma CopyingFacts(m0: Vm, pages0: map<int, Page>, m1: Vm, m: Vm, pages: map<int, Page>, src: int, d: int, data: int,
                     v: nat)
    requires Copying(m0, pages0, m1, m, pages, src, d, data, v) && Ok(m0) && src in m0.dirs && v < USER_PAGES
    requires Lookup(m0, src, v).Present? && KERNLINK_PAGE < data < PHYSTOP_PAGE
    ensures src in m.dirs && Sized(m, d) && Sized(m1, d) && Lookup(m, src, v) == Lookup(m0, src, v)
    ensures Lookup(m, d, v).Absent? && Paid(m1, m, d, 0, v, v)
    ensures var f := Lookup(m0, src, v).ppn; f in pages0 && f in pages && pages[f] == pages0[f]
  {
    hide Lookup, Added, KernelPte, EntryOk, TablesOk;
    KernelIsAbove(data, v);
    FrameOf(m0, src, v);
  }

  lemma CopyingMore(m0: Vm, pages0: map<int, Page>, m1: Vm, m: Vm, pages: map<int, Page>, m': Vm,
                    pages': map<int, Page>, src: int, d: int, data: int, v: nat, mem: int)
    requires Ok(m) && Copying(m0, pages0, m1, m, pages, src, d, data, v) && Lookup(m0, src, v).Present?
    requires v < USER_PAGES && Sized(m, d) && Paid(m, m', d, v, v + 1, 1)
    requires mem in m.own && m.own[mem] == Free && m'.dirs.Keys == m.dirs.Keys && Only(m.own, m'.own, d)
    requires Lookup(m0, src, v).ppn in pages0 && pages' == pages[mem := pages0[Lookup(m0, src, v).ppn]]
    requires forall e, w :: Lookup(m', e, w) ==
              if e == d && w == v then Present(mem, Lookup(m0, src, v).flags) else Lookup(m, e, w)
    ensures Copying(m0, pages0, m1, m', pages', src, d, data, v + 1)
  {
    hide Ok, Lookup, Paid, Copied, Only;
    CopiedMore(m0, m, m', pages0, pages, pages', src, d, data, v, mem);
    PaidMore(m1, m, m', d, 0, v, v + 1, v, 1);
  }

  lemma CopyFails(m0: Vm, pages0: map<int, Page>, m1: Vm, m: Vm, pages: map<int, Page>, m': Vm, pages': map<int, Page>,
                  src: int, d: int, data: int, v: nat, mem: int, n: nat)
    requires Copying(m0, pages0, m1, m, pages, src, d, data, v) && n <= ALL_PAGES && !Affords(m1, d, 0, n, n)
    requires m'.own == m.own && m'.dirs.Keys == m.dirs.Keys && (mem != 0 ==> mem in m.own && m.own[mem] == Free)
    requires pages' == if mem == 0 then pages else pages - {mem}
    requires forall e, w :: Lookup(m', e, w) == Lookup(m, e, w)
    ensures CopyFailed(m0, pages0, m1, m', pages', d, n)
  {
    hide Lookup, Paid, Affords, KernelPte;
  }

  /** There were too few frames for n pages. */
  ghost predicate CopyFailed(m0: Vm, pages0: map<int, Page>, m1: Vm, m: Vm, pages: map<int, Page>, d: int, n: nat) {
    && Space(m0, m, d) && SameContents(m0.own, pages0, pages)
    && Sized(m1, d) && n <= ALL_PAGES && !Affords(m1, d, 0, n, n)
  }

  lemma CopiedNothing(m0: Vm, m: Vm, pages0: map<int, Page>, pages: map<int, Page>, src: int, d: int, data: int)
    requires Space(m0, m, d) && SameContents(m0.own, pages0, pages)
    requires forall w :: Lookup(m, d, w) == KernelPte(data, 4, w)
    ensures Copied(m0, m, pages0, pages, src, d, data, 0)
  {
  }

  lemma CopiedMore(m0: Vm, m: Vm, m': Vm, pages0: map<int, Page>, pages: map<int, Page>, pages': map<int, Page>,
                   src: int, d: int, data: int, v: int, mem: int)
    requires Ok(m) && Copied(m0, m, pages0, pages, src, d, data, v) && Lookup(m0, src, v).Present?
    requires 0 <= v < USER_PAGES
    requires mem in m.own && m.own[mem] == Free && m'.dirs.Keys == m.dirs.Keys && Only(m.own, m'.own, d)
    requires Lookup(m0, src, v).ppn in pages0 && pages' == pages[mem := pages0[Lookup(m0, src, v).ppn]]
    requires forall e, w :: Lookup(m', e, w) ==
              if e == d && w == v then Present(mem, Lookup(m0, src, v).flags) else Lookup(m, e, w)
    ensures Copied(m0, m', pages0, pages', src, d, data, v + 1)
  {
    hide Lookup, KernelPte, FreeOk, TablesOk, EntryOk;
    OnlyTransitive(m0.own, m.own, m'.own, d);
    forall w | 0 <= w < v + 1 ensures CopyOf(m0, m', pages0, pages', src, d, w) {
      assert w < v ==> CopyOf(m0, m, pages0, pages, src, d, w);
    }
  }

  lemma KernelIsAbove(data: int, w: int)
    requires w < USER_PAGES && KERNLINK_PAGE < data < PHYSTOP_PAGE
    ensures KernelPte(data, 4, w) == Absent
  {
    KernelOutside(data, 4, w);
  }

  /** A space built from nothing and freed again: every frame is used as it was before. */
  lemma HistoryReturns(m0: Vm, own1: map<int, Use>, own2: map<int, Use>, d: int)
    requires Ok(m0) && d in m0.own && m0.own[d] == Free && Only(m0.own, own1, d) && GivenBack(own1, own2, d)
    ensures own2 == m0.own
  {
    assert forall f :: f in m0.own ==> own2[f] == m0.own[f];
  }

  // The kernel part of a space, in pages

  const KERN_PAGE: int := 0x8_0000          // KERNBASE
  const KERNLINK_PAGE: int := 0x100         // of the physical address of KERNLINK
  const PHYSTOP_PAGE: int := 0xE000         // of PHYSTOP
  const DEV_PAGE: int := 0xF_E000           // DEVSPACE

  /** A line of kmap: virtual pages lo..hi onto the physical pages from ppn on. */
  datatype Line = Line(lo: int, hi: int, ppn: int, flags: int)

  /** kmap; `data` is the physical page where the kernel's data begins. */
  function Kmap(data: int, k: nat): Line
    requires k < 4
  {
    if k == 0 then Line(KERN_PAGE, KERN_PAGE + KERNLINK_PAGE, 0, PTE_W)
    else if k == 1 then Line(KERN_PAGE + KERNLINK_PAGE, KERN_PAGE + data, KERNLINK_PAGE, 0)
    else if k == 2 then Line(KERN_PAGE + data, KERN_PAGE + PHYSTOP_PAGE, data, PTE_W)
    else Line(DEV_PAGE, ALL_PAGES, DEV_PAGE, PTE_W)
  }

  /** What the first k lines map a page to. */
  function KernelPte(data: int, k: nat, w: int): Pte
    requires k <= 4
  {
    if k == 0 then Absent
    else
      var line := Kmap(data, k - 1);
      if line.lo <= w < line.hi then Present(line.ppn + (w - line.lo), line.flags) else KernelPte(data, k - 1, w)
  }

  /** What a space looks like above KERNBASE once setupkvm is done: each page of physical memory at KERN_PAGE and its
      own number, writable but for the kernel's text and constants, the devices at their own addresses, and nothing
      else; nothing at all below. */
  lemma KernelMapsMemory(data: int, w: int)
    requires KERNLINK_PAGE < data < PHYSTOP_PAGE
    ensures var f := w - KERN_PAGE;
      KernelPte(data, 4, w) ==
        if 0 <= f < PHYSTOP_PAGE then Present(f, if KERNLINK_PAGE <= f < data then 0 else PTE_W)
        else if DEV_PAGE <= w < ALL_PAGES then Present(w, PTE_W)
        else Absent
  {
    assert KernelPte(data, 0, w) == Absent;
    assert KernelPte(data, 1, w) ==
           if 0 <= w - KERN_PAGE < KERNLINK_PAGE then Present(w - KERN_PAGE, PTE_W) else Absent;
    assert KernelPte(data, 2, w) ==
           if KERNLINK_PAGE <= w - KERN_PAGE < data then Present(w - KERN_PAGE, 0) else KernelPte(data, 1, w);
  }

  lemma NoLines(data: int)
    ensures forall w :: KernelPte(data, 0, w) == Absent
  {
  }

  lemma KmapDisjoint(data: int, k: nat)
    requires KERNLINK_PAGE < data < PHYSTOP_PAGE && k < 4
    ensures var line := Kmap(data, k);
            KERN_PAGE <= line.lo < line.hi <= ALL_PAGES && line.ppn >= 0
            && forall w :: line.lo <= w < line.hi ==> KernelPte(data, k, w) == Absent
  {
    var line := Kmap(data, k);
    forall w | line.lo <= w < line.hi ensures KernelPte(data, k, w) == Absent {
      KernelOutside(data, k, w);
    }
  }

  lemma {:induction false} KernelOutside(data: int, k: nat, w: int)
    requires k <= 4 && forall j :: 0 <= j < k ==> !(Kmap(data, j).lo <= w < Kmap(data, j).hi)
    ensures KernelPte(data, k, w) == Absent
  {
    if k > 0 {
      KernelOutside(data, k - 1, w);
    }
  }

  /** Pages lo..hi of space d have become writable user pages of zeroes. */
  ghost predicate Filled(m: Vm, m': Vm, pages: map<int, Page>, d: int, lo: int, hi: int) {
    forall e, w ::
      if e == d && lo <= w < hi then
        var p := Lookup(m', e, w);
        p.Present? && p.flags == PTE_W + PTE_U && p.ppn in pages && pages[p.ppn] == ZeroPage()
      else Lookup(m', e, w) == Lookup(m, e, w)
  }

  ghost predicate AbsentIn(m: Vm, d: int, lo: int, hi: int) {
    forall w :: lo <= w < hi ==> Lookup(m, d, w).Absent?
  }

  /** Part way through allocuvm: pages lo..v have been added, and nothing else has changed. */
  ghost predicate Allocating(m0: Vm, pages0: map<int, Page>, m: Vm, pages: map<int, Page>, d: int, lo: nat, v: nat) {
    && Sized(m0, d) && v <= ALL_PAGES && m.dirs.Keys == m0.dirs.Keys && Only(m0.own, m.own, d)
    && Filled(m0, m, pages, d, lo, v) && SameContents(m0.own, pages0, pages) && Paid(m0, m, d, lo, v, v - lo)
  }

  lemma AllocatingFacts(m0: Vm, pages0: map<int, Page>, m: Vm, pages: map<int, Page>, d: int, lo: nat, v: nat, hi: nat)
    requires Allocating(m0, pages0, m, pages, d, lo, v) && AbsentIn(m0, d, lo, hi) && lo <= v < hi
    ensures Sized(m0, d) && v <= ALL_PAGES && m.dirs.Keys == m0.dirs.Keys && Lookup(m, d, v).Absent?
    ensures Only(m0.own, m.own, d) && Grown(m0, m, d, lo, v) && SameContents(m0.own, pages0, pages)
    ensures Paid(m0, m, d, lo, v, v - lo)
  {
    hide Lookup, Paid;
  }

  lemma AllocatingMore(m0: Vm, pages0: map<int, Page>, m: Vm, pages: map<int, Page>, m': Vm, pages': map<int, Page>,
                       d: int, lo: nat, v: nat, mem: int)
    requires Ok(m) && Allocating(m0, pages0, m, pages, d, lo, v) && lo <= v < ALL_PAGES
    requires m'.dirs.Keys == m.dirs.Keys && Only(m.own, m'.own, d) && Paid(m, m', d, v, v + 1, 1)
    requires mem != 0 && mem in m.own && m.own[mem] == Free && pages' == pages[mem := ZeroPage()]
    requires forall e, w :: Lookup(m', e, w) ==
              if e == d && w == v then Present(mem, PTE_W + PTE_U) else Lookup(m, e, w)
    ensures Allocating(m0, pages0, m', pages', d, lo, v + 1)
  {
    hide Lookup, Paid, Filled, ZeroPage, TablesOk, UsersOk, FreeOk, EntryOk;
    FilledMore(m0, m, m', pages, pages', d, lo, v, mem);
    OnlyTransitive(m0.own, m.own, m'.own, d);
    PaidMore(m0, m, m', d, lo, v, v + 1, v - lo, 1);
    NewContents(m0, m, pages0, pages, pages', d, mem, ZeroPage());
  }

  /** A page written to a frame that was free changes no user page of m0. */
  lemma NewContents(m0: Vm, m: Vm, pages0: map<int, Page>, pages: map<int, Page>, pages': map<int, Page>, d: int,
                    mem: int, content: Page)
    requires Only(m0.own, m.own, d) && SameContents(m0.own, pages0, pages)
    requires pages' == (if mem == 0 then pages else pages[mem := content])
    requires mem != 0 ==> mem in m.own && m.own[mem] == Free
    ensures SameContents(m0.own, pages0, pages')
  {
  }

  lemma SameContentsTrans(own: map<int, Use>, a: map<int, Page>, b: map<int, Page>, c: map<int, Page>)
    requires SameContents(own, a, b) && SameContents(own, b, c)
    ensures SameContents(own, a, c)
  {
  }

  /** There were too few frames for pages lo..hi, and nothing is left of them. */
  ghost predicate AllocFailed(m0: Vm, pages0: map<int, Page>, m: Vm, pages: map<int, Page>, d: int, lo: nat, hi: nat) {
    && Sized(m0, d) && hi <= ALL_PAGES && m.dirs.Keys == m0.dirs.Keys && Only(m0.own, m.own, d)
    && (forall e, w :: Lookup(m, e, w) == Lookup(m0, e, w)) && SameContents(m0.own, pages0, pages)
    && !Affords(m0, d, lo, hi, hi - lo)
  }

  /** Pages lo..hi of space d have become present. */
  ghost predicate Grown(m: Vm, m': Vm, d: int, lo: int, hi: int) {
    forall e, w :: if e == d && lo <= w < hi then Lookup(m', e, w).Present? else Lookup(m', e, w) == Lookup(m, e, w)
  }

  lemma AllocUndone(m0: Vm, m: Vm, mh: Vm, m': Vm, d: int, lo: int, v: int, hi: int, mem: int)
    requires Ok(m0) && Only(m0.own, m.own, d) && Grown(m0, m, d, lo, v) && 0 <= lo <= v <= hi <= USER_PAGES
    requires forall w :: lo <= w < hi ==> Lookup(m0, d, w).Absent?
    requires if mem == 0 then mh.own == m.own else mem in m.own && m.own[mem] == Free && mh.own == m.own[mem := Held]
    requires forall e, w :: Lookup(mh, e, w) == Lookup(m, e, w)
    requires Cleared(mh, m', d, lo, hi)
    ensures forall e, w :: Lookup(m', e, w) == Lookup(m0, e, w)
    ensures forall f :: f in m0.own && m0.own[f].User? ==> f in m'.own && m'.own[f] == m0.own[f]
    ensures mem == 0 ==> Only(m0.own, m'.own, d)
    ensures mem != 0 ==> mem in m'.own && m'.own[mem] == Held && Only(m0.own, m'.own[mem := Free], d)
  {
    hide Lookup, FreeOk, DirsOk, TablesOk;
  }

  lemma FilledMore(m0: Vm, m: Vm, m': Vm, pages: map<int, Page>, pages': map<int, Page>, d: int, lo: int, v: int,
                   mem: int)
    requires Filled(m0, m, pages, d, lo, v) && lo <= v && pages' == pages[mem := ZeroPage()]
    requires forall e, w :: Lookup(m', e, w) ==
              if e == d && w == v then Present(mem, PTE_W + PTE_U) else Lookup(m, e, w)
    ensures Filled(m0, m', pages', d, lo, v + 1)
  {
    hide Lookup, ZeroPage;
  }

  lemma FilledNothing(m: Vm, pages: map<int, Page>, d: int, lo: int, hi: int)
    ensures hi <= lo ==> Filled(m, m, pages, d, lo, hi)
    ensures Filled(m, m, pages, d, lo, lo)
  {
    hide Lookup;
  }

  /** Pages lo..hi of space d have become mapped to the pages from ppn on. */
  ghost predicate Ranged(m: Vm, m': Vm, d: int, lo: int, hi: int, ppn: int, flags: int) {
    forall e, w :: Lookup(m', e, w) ==
      if e == d && lo <= w < hi then Present(ppn + (w - lo), flags) else Lookup(m, e, w)
  }

  lemma RangedNothing(m: Vm, d: int, lo: int, ppn: int, flags: int)
    ensures Ranged(m, m, d, lo, lo, ppn, flags)
  {
  }

  lemma RangedMore(m: Vm, m1: Vm, m2: Vm, d: int, lo: int, v: int, ppn: int, flags: int)
    requires Ranged(m, m1, d, lo, v, ppn, flags) && lo <= v
    requires forall e, w :: Lookup(m2, e, w) ==
              if e == d && w == v then Present(ppn + (v - lo), flags) else Lookup(m1, e, w)
    ensures Ranged(m, m2, d, lo, v + 1, ppn, flags)
  {
    hide Lookup;
  }

  /** Pages first..last can be mapped; a user page only alone and to a frame that the caller holds. */
  ghost predicate Mappable(m: Vm, pages: map<int, Page>, d: int, first: nat, last: nat, ppn: int) {
    && Sized(m, d) && first <= last < ALL_PAGES
    && (first < USER_PAGES ==> last == first && ppn in m.own && m.own[ppn] == Held && ppn in pages)
    && (forall w :: first <= w <= last ==> Lookup(m, d, w).Absent?)
  }

  /** Part way through mappages: pages first..a have been mapped. */
  ghost predicate Mapping(m0: Vm, m: Vm, d: int, first: nat, a: nat, ppn: int, flags: int) {
    && Sized(m0, d) && a <= ALL_PAGES && m.dirs.Keys == m0.dirs.Keys && Paid(m0, m, d, first, a, 0)
    && Ranged(m0, m, d, first, a, ppn, flags) && (a == first ==> m == m0)
    && Only(if a > first && first < USER_PAGES then m0.own[ppn := Free] else m0.own, m.own, d)
  }

  lemma MappingNothing(m: Vm, d: int, first: nat, ppn: int, flags: int)
    requires Sized(m, d) && first <= ALL_PAGES
    ensures Mapping(m, m, d, first, first, ppn, flags)
  {
    PaidNothing(m, d, first);
  }

  lemma MappedOnly(m0: Vm, m: Vm, d: int, first: nat, at: nat, ppn: int, flags: int)
    requires Mapping(m0, m, d, first, at, ppn, flags)
    ensures forall e, w :: e != d || w < first ==> Lookup(m, e, w) == Lookup(m0, e, w)
  {
    hide Lookup, Paid, Only;
  }

  /** Part way through freevm: space d has no user pages left and its first i tables are free. */
  ghost predicate Dying(m: Vm, m': Vm, d: int, i: int) {
    && d > 0 && OkBut(m', d, i) && d in m.dirs && m'.dirs == m.dirs && NoUserPages(m', d) && m'.own.Keys == m.own.Keys
    && (forall e, w :: e != d ==> Lookup(m', e, w) == Lookup(m, e, w))
    && (forall f :: f in m.own ==> m'.own[f] == if DeadIn(m.own[f], d, i) then Free else m.own[f])
  }

  predicate DeadIn(u: Use, d: int, i: int) {
    (u.User? && u.dir == d) || (u.Table? && u.dir == d && u.i < i)
  }

  lemma DyingStart(m: Vm, m': Vm, d: int)
    requires Ok(m) && Ok(m') && d in m.dirs && Cleared(m, m', d, 0, USER_PAGES)
    ensures Dying(m, m', d, 0)
  {
    hide Lookup;
    assert forall f :: f in m.own && m.own[f].Table? ==> m.own[f].i >= 0;
    forall e, j | e in m'.dirs ensures EntryOk(m', e, j, d, 0) {
      assert EntryOk(m', e, j, 0, 0);
    }
  }

  lemma DyingTable(m: Vm, m': Vm, d: int, i: nat)
    requires Dying(m, m', d, i) && i < ENTRIES && m'.dirs[d][i] != 0
    ensures m'.dirs[d][i] in m'.own && m'.own[m'.dirs[d][i]] != Free && Dying(m, Returned(m', m'.dirs[d][i]), d, i + 1)
  {
    hide Lookup, EntryOk;
    DropTable(m', d, i);
    assert Returned(m', m'.dirs[d][i]).dirs == m'.dirs;
  }

  lemma DyingNothing(m: Vm, m': Vm, d: int, i: nat)
    requires Dying(m, m', d, i) && i < ENTRIES && m'.dirs[d][i] == 0
    ensures Dying(m, m', d, i + 1)
  {
    hide Lookup, EntryOk;
    DropNothing(m', d, i);
    assert forall f :: f in m'.own ==> m'.own[f] != Table(d, i);
  }

  lemma DyingEnd(m: Vm, m': Vm, d: int)
    requires Ok(m) && Dying(m, m', d, ENTRIES)
    ensures Ok(Returned(m', d)) && GivenBack(m.own, Returned(m', d).own, d)
    ensures forall e, w :: e != d ==> Lookup(Returned(m', d), e, w) == Lookup(m, e, w)
  {
    hide Lookup, EntryOk;
    DropDir(m', d);
  }

  function Min(a: int, b: int): int {
    if a < b then a else b
  }

  lemma EntryOf(m: Vm, d: int, v: int)
    requires Ok(m) && d in m.dirs && TableOf(m, d, v) != 0
    ensures TableOf(m, d, v) in m.tables && |m.tables[TableOf(m, d, v)]| == ENTRIES
    ensures Lookup(m, d, v) == m.tables[TableOf(m, d, v)][v % ENTRIES]
  {
    TableThere(m, d, v);
  }

  /** The frame of a mapped user page is no table or directory. */
  lemma FrameOf(m: Vm, d: int, v: int)
    requires Ok(m) && 0 <= v < USER_PAGES && Lookup(m, d, v).Present?
    ensures var f := Lookup(m, d, v).ppn; f in m.own && m.own[f] == User(d, v) && f !in m.dirs && f !in m.tables
  {
  }
}
