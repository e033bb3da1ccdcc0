/** Page directories and page tables (v3/vm.c) over the frames of the page allocator (v3/kalloc.c),
    with the use that each frame is put to. */
module PageTables {
  const ENTRIES: nat := 1024                    // NPDENTRIES and NPTENTRIES
  const USER_PAGES: nat := 0x8_0000             // pages below KERNBASE
  const ALL_PAGES: nat := 0x10_0000

  /** A page table entry: the page number and the flags besides PTE_P. */
  datatype Pte = Absent | Present(ppn: int, flags: int)

  /** What a frame is used for.  A held frame belongs to whoever called kalloc. */
  datatype Use = Free | Held | Directory | Table(dir: int, i: int) | User(dir: int, page: int)

  /** A directory entry is the frame of a page table, or 0. */
  datatype Vm = Vm(freelist: seq<int>, dirs: map<int, seq<int>>, tables: map<int, seq<Pte>>, own: map<int, Use>)

  /** The table for a page of a space, 0 if there is none. */
  function TableOf(m: Vm, d: int, v: int): int {
    if d in m.dirs && |m.dirs[d]| == ENTRIES && 0 <= v < ALL_PAGES then m.dirs[d][v / ENTRIES] else 0
  }

  /** What a page of a space is mapped to. */
  function Lookup(m: Vm, d: int, v: int): Pte {
    var t := TableOf(m, d, v);
    if t in m.tables && |m.tables[t]| == ENTRIES then m.tables[t][v % ENTRIES] else Absent
  }

  predicate NoDup(s: seq<int>) {
    forall i, j :: 0 <= i < j < |s| ==> s[i] != s[j]
  }

  ghost predicate FreeOk(m: Vm) {
    && NoDup(m.freelist) && (forall f :: f in m.freelist ==> f in m.own)
    && (forall f :: f in m.own ==> f > 0 && (m.own[f] == Free <==> f in m.freelist))
  }

  /** Entry i of directory d is a table used for just that.  `dying` is a directory whose first
      `done` tables have been given back. */
  ghost predicate EntryOk(m: Vm, d: int, i: int, dying: int, done: int)
    requires d in m.dirs
  {
    0 <= i < |m.dirs[d]| && !(d == dying && i < done) && m.dirs[d][i] != 0 ==>
      m.dirs[d][i] in m.own && m.own[m.dirs[d][i]] == Table(d, i)
  }

  ghost predicate DirsOk(m: Vm, dying: int, done: int) {
    && (forall d :: d in m.dirs ==> d in m.own && m.own[d] == Directory && |m.dirs[d]| == ENTRIES)
    && (forall d :: d in m.own && m.own[d] == Directory ==> d in m.dirs)
    && (forall d, i :: d in m.dirs ==> EntryOk(m, d, i, dying, done))
  }

  ghost predicate TablesOk(m: Vm, dying: int, done: int) {
    && (forall t :: t in m.tables ==> t in m.own && m.own[t].Table? && |m.tables[t]| == ENTRIES)
    && (forall t :: t in m.own && m.own[t].Table? ==>
          && t in m.tables && m.own[t].dir in m.dirs && 0 <= m.own[t].i < |m.dirs[m.own[t].dir]|
          && m.dirs[m.own[t].dir][m.own[t].i] == t && (m.own[t].dir == dying ==> m.own[t].i >= done))
  }

  /** User pages and the frames used for them correspond one to one. */
  ghost predicate UsersOk(m: Vm) {
    && (forall d, v :: 0 <= v < USER_PAGES && Lookup(m, d, v).Present? ==>
          Lookup(m, d, v).ppn in m.own && m.own[Lookup(m, d, v).ppn] == User(d, v))
    && (forall f :: f in m.own && m.own[f].User? ==>
          0 <= m.own[f].page < USER_PAGES && Lookup(m, m.own[f].dir, m.own[f].page).Present?
          && Lookup(m, m.own[f].dir, m.own[f].page).ppn == f)
  }

  ghost predicate OkBut(m: Vm, dying: int, done: int) {
    FreeOk(m) && DirsOk(m, dying, done) && TablesOk(m, dying, done) && UsersOk(m)
  }

  ghost predicate Ok(m: Vm) {
    OkBut(m, 0, 0)
  }

  predicate Structural(u: Use) {
    u.Directory? || u.Table?
  }

  /** Directories, tables and their frames are the same; only entries of tables and the use of other
      frames may differ. */
  ghost predicate SameStructure(m: Vm, m': Vm) {
    && m'.dirs == m.dirs && m'.own.Keys == m.own.Keys && m'.tables.Keys == m.tables.Keys
    && (forall t :: t in m.tables ==> |m'.tables[t]| == |m.tables[t]|)
    && (forall f :: f in m.own && (Structural(m.own[f]) || Structural(m'.own[f])) ==> m'.own[f] == m.own[f])
  }

  lemma StructureKeeps(m: Vm, m': Vm, dying: int, done: int)
    requires SameStructure(m, m') && DirsOk(m, dying, done) && TablesOk(m, dying, done)
    ensures DirsOk(m', dying, done) && TablesOk(m', dying, done)
  {
    forall d, i | d in m'.dirs ensures EntryOk(m', d, i, dying, done) {
      assert EntryOk(m, d, i, dying, done);
    }
  }

  /** User frames and lookups of user pages are the same. */
  lemma UsersKeep(m: Vm, m': Vm)
    requires UsersOk(m) && m'.own.Keys == m.own.Keys
    requires forall f :: f in m.own && (m.own[f].User? || m'.own[f].User?) ==> m'.own[f] == m.own[f]
    requires forall d, v :: Lookup(m', d, v) == Lookup(m, d, v)
    ensures UsersOk(m')
  {
  }

  // Taking and giving back frames

  ghost function Taken(m: Vm, use: Use): Vm
    requires m.freelist != []
  {
    m.(freelist := m.freelist[1..], own := m.own[m.freelist[0] := use])
  }

  lemma TakenFree(m: Vm, use: Use)
    requires FreeOk(m) && m.freelist != [] && use != Free
    ensures FreeOk(Taken(m, use)) && m.freelist[0] in m.own && m.own[m.freelist[0]] == Free
  {
    var m' := Taken(m, use);
    assert m.freelist == [m.freelist[0]] + m'.freelist;
    assert m.freelist[0] in m.freelist;
    forall f ensures f in m'.freelist <==> f in m.freelist && f != m.freelist[0] {
      if f in m'.freelist {
        var k :| 0 <= k < |m'.freelist| && m'.freelist[k] == f;
        assert m.freelist[k + 1] == f;
      }
    }
  }

  /** A frame taken for the caller's own use. */
  lemma TakenKeeps(m: Vm)
    requires Ok(m) && m.freelist != []
    ensures Ok(Taken(m, Held)) && forall d, v :: Lookup(Taken(m, Held), d, v) == Lookup(m, d, v)
  {
    hide EntryOk, Lookup, NoDup;
    TakenFree(m, Held);
    var m' := Taken(m, Held);
    forall d, v ensures Lookup(m', d, v) == Lookup(m, d, v) {
      SameLookup(m, m', d, v);
    }
    StructureKeeps(m, m', 0, 0);
    UsersKeep(m, m');
  }

  lemma SameLookup(m: Vm, m': Vm, d: int, v: int)
    requires m'.dirs == m.dirs && m'.tables == m.tables
    ensures Lookup(m', d, v) == Lookup(m, d, v)
  {
  }

  ghost function Returned(m: Vm, f: int): Vm {
    m.(freelist := [f] + m.freelist, own := m.own[f := Free], dirs := m.dirs - {f}, tables := m.tables - {f})
  }

  lemma ReturnedFree(m: Vm, f: int)
    requires FreeOk(m) && f in m.own && m.own[f] != Free
    ensures FreeOk(Returned(m, f))
  {
    assert f !in m.freelist;
  }

  /** A held frame given back. */
  lemma ReturnedKeeps(m: Vm, f: int)
    requires Ok(m) && f in m.own && m.own[f] == Held
    ensures Ok(Returned(m, f)) && forall d, v :: Lookup(Returned(m, f), d, v) == Lookup(m, d, v)
    ensures Returned(m, f).dirs == m.dirs
  {
    hide EntryOk, Lookup, NoDup;
    ReturnedFree(m, f);
    var m' := Returned(m, f);
    assert m'.dirs == m.dirs && m'.tables == m.tables;
    forall d, v ensures Lookup(m', d, v) == Lookup(m, d, v) {
      SameLookup(m, m', d, v);
    }
    StructureKeeps(m, m', 0, 0);
    UsersKeep(m, m');
  }

  // Page tables

  function NoEntries(): seq<Pte> {
    seq(ENTRIES, _ => Absent)
  }

  function NoTables(): seq<int> {
    seq(ENTRIES, _ => 0)
  }

  /** The first free frame becomes the table for page v of space d. */
  ghost function AddTable(m: Vm, d: int, v: int): Vm
    requires m.freelist != [] && d in m.dirs && |m.dirs[d]| == ENTRIES && 0 <= v < ALL_PAGES
  {
    var t, i := m.freelist[0], v / ENTRIES;
    Taken(m, Table(d, i)).(dirs := m.dirs[d := m.dirs[d][i := t]], tables := m.tables[t := NoEntries()])
  }

  lemma AddTableKeeps(m: Vm, d: int, v: int)
    requires Ok(m) && m.freelist != [] && d in m.dirs && 0 <= v < ALL_PAGES && TableOf(m, d, v) == 0
    ensures Ok(AddTable(m, d, v)) && forall e, w :: Lookup(AddTable(m, d, v), e, w) == Lookup(m, e, w)
  {
    hide Lookup, NoDup, EntryOk, TablesOk;
    var m', t, i := AddTable(m, d, v), m.freelist[0], v / ENTRIES;
    TakenFree(m, Table(d, i));
    forall e, w ensures Lookup(m', e, w) == Lookup(m, e, w) {
      AddTableLookup(m, d, v, e, w);
    }
    AddTableStructure(m, d, v);
    UsersKeep(m, m');
  }

  lemma AddTableStructure(m: Vm, d: int, v: int)
    requires FreeOk(m) && DirsOk(m, 0, 0) && TablesOk(m, 0, 0)
    requires m.freelist != [] && d in m.dirs && 0 <= v < ALL_PAGES && TableOf(m, d, v) == 0
    ensures DirsOk(AddTable(m, d, v), 0, 0) && TablesOk(AddTable(m, d, v), 0, 0)
  {
    hide NoDup, TablesOk;
    var m', i := AddTable(m, d, v), v / ENTRIES;
    TakenFree(m, Table(d, i));
    AddTableTables(m, d, v);
    forall e, j | e in m'.dirs ensures EntryOk(m', e, j, 0, 0) {
      assert EntryOk(m, e, j, 0, 0);
    }
  }

  lemma AddTableTables(m: Vm, d: int, v: int)
    requires FreeOk(m) && DirsOk(m, 0, 0) && TablesOk(m, 0, 0)
    requires m.freelist != [] && d in m.dirs && 0 <= v < ALL_PAGES && TableOf(m, d, v) == 0
    ensures TablesOk(AddTable(m, d, v), 0, 0)
  {
    hide NoDup, EntryOk;
    TakenFree(m, Table(d, v / ENTRIES));
  }

  lemma AddTableLookup(m: Vm, d: int, v: int, e: int, w: int)
    requires Ok(m) && m.freelist != [] && d in m.dirs && 0 <= v < ALL_PAGES && TableOf(m, d, v) == 0
    ensures Lookup(AddTable(m, d, v), e, w) == Lookup(m, e, w)
  {
    TakenFree(m, Held);
    var t := m.freelist[0];
    assert t !in m.tables;
    if TableOf(m, e, w) != 0 && e in m.dirs {
      assert EntryOk(m, e, w / ENTRIES, 0, 0);
    }
  }

  // Entries

  ghost function SetEntry(m: Vm, d: int, v: int, p: Pte): Vm
    requires TableOf(m, d, v) in m.tables && |m.tables[TableOf(m, d, v)]| == ENTRIES
  {
    var t := TableOf(m, d, v);
    m.(tables := m.tables[t := m.tables[t][v % ENTRIES := p]])
  }

  /** Setting an entry changes the lookup of that page of that space only. */
  lemma SetEntryLookup(m: Vm, d: int, v: int, p: Pte, e: int, w: int)
    requires DirsOk(m, 0, 0) && d in m.dirs && 0 <= v < ALL_PAGES
    requires TableOf(m, d, v) in m.tables && |m.tables[TableOf(m, d, v)]| == ENTRIES && TableOf(m, d, v) != 0
    ensures Lookup(SetEntry(m, d, v, p), e, w) == if e == d && w == v then p else Lookup(m, e, w)
  {
    if e in m.dirs && TableOf(m, e, w) == TableOf(m, d, v) {
      assert EntryOk(m, e, w / ENTRIES, 0, 0) && EntryOk(m, d, v / ENTRIES, 0, 0);
    }
  }

  lemma TableThere(m: Vm, d: int, v: int)
    requires DirsOk(m, 0, 0) && TablesOk(m, 0, 0) && d in m.dirs && TableOf(m, d, v) != 0
    ensures TableOf(m, d, v) in m.tables && |m.tables[TableOf(m, d, v)]| == ENTRIES
  {
    assert EntryOk(m, d, v / ENTRIES, 0, 0);
  }

  /** A held frame mapped at a user page, or any page number at a kernel page. */
  ghost function Mapped(m: Vm, d: int, v: int, ppn: int, flags: int): Vm
    requires TableOf(m, d, v) in m.tables && |m.tables[TableOf(m, d, v)]| == ENTRIES
  {
    var m' := SetEntry(m, d, v, Present(ppn, flags));
    if v < USER_PAGES then m'.(own := m'.own[ppn := User(d, v)]) else m'
  }

  lemma MappedLookup(m: Vm, d: int, v: int, ppn: int, flags: int, e: int, w: int)
    requires DirsOk(m, 0, 0) && d in m.dirs && 0 <= v < ALL_PAGES && TableOf(m, d, v) != 0
    requires TableOf(m, d, v) in m.tables && |m.tables[TableOf(m, d, v)]| == ENTRIES
    ensures Lookup(Mapped(m, d, v, ppn, flags), e, w) ==
            if e == d && w == v then Present(ppn, flags) else Lookup(m, e, w)
  {
    hide DirsOk, Lookup, TableOf;
    SetEntryLookup(m, d, v, Present(ppn, flags), e, w);
    SameLookup(SetEntry(m, d, v, Present(ppn, flags)), Mapped(m, d, v, ppn, flags), e, w);
  }

  /** One more user page, on a frame that was nobody's page. */
  lemma MappedUsers(m: Vm, m': Vm, d: int, v: int, ppn: int, flags: int)
    requires UsersOk(m) && Lookup(m, d, v).Absent? && 0 <= v
    requires v < USER_PAGES ==> ppn in m.own && m.own[ppn] == Held
    requires m'.own == if v < USER_PAGES then m.own[ppn := User(d, v)] else m.own
    requires forall e, w :: Lookup(m', e, w) == if e == d && w == v then Present(ppn, flags) else Lookup(m, e, w)
    ensures UsersOk(m')
  {
    hide Lookup;
  }

  lemma MappedKeeps(m: Vm, d: int, v: int, ppn: int, flags: int)
    requires Ok(m) && d in m.dirs && 0 <= v < ALL_PAGES && TableOf(m, d, v) != 0 && Lookup(m, d, v).Absent?
    requires v < USER_PAGES ==> ppn in m.own && m.own[ppn] == Held
    ensures TableOf(m, d, v) in m.tables && |m.tables[TableOf(m, d, v)]| == ENTRIES
    ensures Ok(Mapped(m, d, v, ppn, flags))
    ensures forall e, w :: Lookup(Mapped(m, d, v, ppn, flags), e, w) ==
                             if e == d && w == v then Present(ppn, flags) else Lookup(m, e, w)
  {
    hide Lookup, NoDup, TableOf, DirsOk, TablesOk, UsersOk;
    TableThere(m, d, v);
    var m' := Mapped(m, d, v, ppn, flags);
    forall e, w ensures Lookup(m', e, w) == if e == d && w == v then Present(ppn, flags) else Lookup(m, e, w) {
      MappedLookup(m, d, v, ppn, flags, e, w);
    }
    MappedUsers(m, m', d, v, ppn, flags);
    StructureKeeps(m, m', 0, 0);
  }

  /** A user page unmapped and its frame given back. */
  ghost function Unmapped(m: Vm, d: int, v: int): Vm
    requires TableOf(m, d, v) in m.tables && |m.tables[TableOf(m, d, v)]| == ENTRIES && Lookup(m, d, v).Present?
  {
    var f := Lookup(m, d, v).ppn;
    SetEntry(m, d, v, Absent).(freelist := [f] + m.freelist, own := m.own[f := Free])
  }

  lemma UnmappedLookup(m: Vm, d: int, v: int, e: int, w: int)
    requires DirsOk(m, 0, 0) && d in m.dirs && 0 <= v < ALL_PAGES && Lookup(m, d, v).Present? && TableOf(m, d, v) != 0
    requires TableOf(m, d, v) in m.tables && |m.tables[TableOf(m, d, v)]| == ENTRIES
    ensures Lookup(Unmapped(m, d, v), e, w) == if e == d && w == v then Absent else Lookup(m, e, w)
  {
    hide DirsOk, Lookup, TableOf;
    SetEntryLookup(m, d, v, Absent, e, w);
    SameLookup(SetEntry(m, d, v, Absent), Unmapped(m, d, v), e, w);
  }

  /** One user page fewer, and its frame is nobody's page. */
  lemma UnmappedUsers(m: Vm, m': Vm, d: int, v: int)
    requires UsersOk(m) && 0 <= v < USER_PAGES && Lookup(m, d, v).Present?
    requires m'.own == m.own[Lookup(m, d, v).ppn := Free]
    requires forall e, w :: Lookup(m', e, w) == if e == d && w == v then Absent else Lookup(m, e, w)
    ensures UsersOk(m')
  {
    hide Lookup;
  }

  lemma UnmappedFree(m: Vm, d: int, v: int)
    requires FreeOk(m) && UsersOk(m) && 0 <= v < USER_PAGES && Lookup(m, d, v).Present?
    requires TableOf(m, d, v) in m.tables && |m.tables[TableOf(m, d, v)]| == ENTRIES
    ensures FreeOk(Unmapped(m, d, v)) && Lookup(m, d, v).ppn in m.own && m.own[Lookup(m, d, v).ppn] == User(d, v)
  {
    hide Lookup, TableOf, NoDup;
    var m', f := Unmapped(m, d, v), Lookup(m, d, v).ppn;
    ReturnedFree(m, f);
    assert Returned(m, f).freelist == m'.freelist && Returned(m, f).own == m'.own;
  }

  lemma UnmappedKeeps(m: Vm, d: int, v: int)
    requires Ok(m) && d in m.dirs && 0 <= v < USER_PAGES && Lookup(m, d, v).Present?
    ensures TableOf(m, d, v) in m.tables && |m.tables[TableOf(m, d, v)]| == ENTRIES
    ensures Ok(Unmapped(m, d, v))
    ensures forall e, w :: Lookup(Unmapped(m, d, v), e, w) == if e == d && w == v then Absent else Lookup(m, e, w)
  {
    hide Lookup, TableOf, FreeOk, DirsOk, TablesOk, UsersOk;
    PresentHasTable(m, d, v);
    TableThere(m, d, v);
    var m' := Unmapped(m, d, v);
    forall e, w ensures Lookup(m', e, w) == if e == d && w == v then Absent else Lookup(m, e, w) {
      UnmappedLookup(m, d, v, e, w);
    }
    UnmappedFree(m, d, v);
    UnmappedUsers(m, m', d, v);
    StructureKeeps(m, m', 0, 0);
  }

  lemma PresentHasTable(m: Vm, d: int, v: int)
    requires TablesOk(m, 0, 0) && FreeOk(m) && Lookup(m, d, v).Present?
    ensures d in m.dirs && 0 <= v < ALL_PAGES && TableOf(m, d, v) != 0
  {
  }

  // Whole directories

  ghost function NewDir(m: Vm): Vm
    requires m.freelist != []
  {
    Taken(m, Directory).(dirs := m.dirs[m.freelist[0] := NoTables()])
  }

  lemma NewDirStructure(m: Vm)
    requires FreeOk(m) && DirsOk(m, 0, 0) && TablesOk(m, 0, 0) && m.freelist != []
    ensures DirsOk(NewDir(m), 0, 0) && TablesOk(NewDir(m), 0, 0) && m.freelist[0] !in m.dirs
  {
    hide NoDup;
    var m', d := NewDir(m), m.freelist[0];
    TakenFree(m, Directory);
    forall e, j | e in m'.dirs ensures EntryOk(m', e, j, 0, 0) {
      if e != d {
        assert EntryOk(m, e, j, 0, 0);
      }
    }
  }

  lemma NewDirKeeps(m: Vm)
    requires Ok(m) && m.freelist != []
    ensures Ok(NewDir(m)) && m.freelist[0] !in m.dirs && forall e, w :: Lookup(NewDir(m), e, w) == Lookup(m, e, w)
  {
    hide Lookup, NoDup, DirsOk, TablesOk, UsersOk;
    var m' := NewDir(m);
    TakenFree(m, Directory);
    forall e, w ensures Lookup(m', e, w) == Lookup(m, e, w) {
      NewDirLookup(m, e, w);
    }
    NewDirStructure(m);
    UsersKeep(m, m');
  }

  lemma NewDirLookup(m: Vm, e: int, w: int)
    requires FreeOk(m) && DirsOk(m, 0, 0) && TablesOk(m, 0, 0) && m.freelist != []
    ensures Lookup(NewDir(m), e, w) == Lookup(m, e, w)
  {
    TakenFree(m, Directory);
  }

  ghost predicate NoUserPages(m: Vm, d: int) {
    forall v :: 0 <= v < USER_PAGES ==> Lookup(m, d, v).Absent?
  }

  /** The table at entry i of a dying directory given back. */
  lemma DropTable(m: Vm, d: int, i: nat)
    requires d > 0 && OkBut(m, d, i) && d in m.dirs && i < ENTRIES && m.dirs[d][i] != 0 && NoUserPages(m, d)
    ensures m.dirs[d][i] in m.own && m.own[m.dirs[d][i]] == Table(d, i)
    ensures OkBut(Returned(m, m.dirs[d][i]), d, i + 1) && NoUserPages(Returned(m, m.dirs[d][i]), d)
    ensures forall e, w :: e != d ==> Lookup(Returned(m, m.dirs[d][i]), e, w) == Lookup(m, e, w)
  {
    hide Lookup, NoDup;
    assert EntryOk(m, d, i, d, i);
    var t := m.dirs[d][i];
    var m' := Returned(m, t);
    ReturnedFree(m, t);
    forall e, w ensures Lookup(m', e, w) == Lookup(m, e, w) || (e == d && Lookup(m', e, w) == Absent) {
      DropTableLookup(m, d, i, e, w);
    }
    assert m'.dirs == m.dirs;
    var k := i + 1;
    forall e, j | e in m'.dirs ensures EntryOk(m', e, j, d, k) {
      assert EntryOk(m, e, j, d, i);
    }
  }

  lemma DropTableLookup(m: Vm, d: int, i: nat, e: int, w: int)
    requires OkBut(m, d, i) && d in m.dirs && i < ENTRIES && m.dirs[d][i] != 0
    ensures var m' := Returned(m, m.dirs[d][i]);
            Lookup(m', e, w) == Lookup(m, e, w) || (e == d && Lookup(m', e, w) == Absent)
  {
    assert EntryOk(m, d, i, d, i);
    var t := m.dirs[d][i];
    assert Returned(m, t).dirs == m.dirs;
    assert e in m.dirs ==> EntryOk(m, e, w / ENTRIES, d, i);
  }

  lemma DropNothing(m: Vm, d: int, i: nat)
    requires OkBut(m, d, i) && d in m.dirs && i < ENTRIES && m.dirs[d][i] == 0
    ensures OkBut(m, d, i + 1)
  {
    var k := i + 1;
    forall e, j | e in m.dirs ensures EntryOk(m, e, j, d, k) {
      assert EntryOk(m, e, j, d, i);
    }
    assert forall t :: t in m.own && m.own[t] == Table(d, i) ==> t == 0;
  }

  /** A directory without tables given back. */
  lemma DropDir(m: Vm, d: int)
    requires d > 0 && OkBut(m, d, ENTRIES) && d in m.dirs && NoUserPages(m, d)
    ensures Ok(Returned(m, d)) && forall e, w :: e != d ==> Lookup(Returned(m, d), e, w) == Lookup(m, e, w)
  {
    hide NoDup, Lookup;
    var m' := Returned(m, d);
    ReturnedFree(m, d);
    assert m'.tables == m.tables;
    forall e, j | e in m'.dirs ensures EntryOk(m', e, j, 0, 0) {
      assert EntryOk(m, e, j, d, ENTRIES);
    }
    forall e, w ensures Lookup(m', e, w) == if e != d then Lookup(m, e, w) else Absent {
      DropDirLookup(m, d, e, w);
    }
  }

  lemma DropDirLookup(m: Vm, d: int, e: int, w: int)
    requires FreeOk(m) && DirsOk(m, d, ENTRIES) && TablesOk(m, d, ENTRIES) && d in m.dirs
    ensures Lookup(Returned(m, d), e, w) == if e != d then Lookup(m, e, w) else Absent
  {
    assert Returned(m, d).tables == m.tables;
  }
}
