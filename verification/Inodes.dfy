/** References, locks and transactions in v3/fs.c, v3/file.c and v3/sysfile.c: what each function takes, gives back
    and leaves behind on each of its paths. */
module Inodes {
  import opened Paths
  import opened References

  const ROOTINO: int := 1

  predicate Absolute(path: string) {
    path != [] && path[0] == '/'
  }

  /** Where namex starts for a process whose current directory is inode cwd. */
  function StartFrom(cwd: int, path: string): int {
    if Absolute(path) then ROOTINO else cwd
  }

  /** What a path names for a process in directory cwd. */
  function Named(tree: Tree, cwd: int, path: string): int {
    Walk(tree, StartFrom(cwd, path), Elements(path))
  }

  /** A relative path b in the directory that a names is a/b; an absolute one does not depend on the directory; "/" is
      the root, and the empty path the directory itself. */
  lemma PathsFromDirectory(tree: Tree, cwd: int, cwd': int, a: string, b: string)
    ensures a != [] && !Absolute(b) && Named(tree, cwd, a) != 0 ==>
              Named(tree, Named(tree, cwd, a), b) == Named(tree, cwd, a + "/" + b)
    ensures Absolute(b) ==> Named(tree, cwd, b) == Named(tree, cwd', b)
    ensures Named(tree, cwd, "/") == ROOTINO && Named(tree, cwd, "") == cwd
  {
    hide Walk;
    if a != [] && !Absolute(b) && Named(tree, cwd, a) != 0 {
      assert Absolute(a + "/" + b) <==> Absolute(a);
      WalkJoined(tree, StartFrom(cwd, a), a, b);
    }
    NoStep(tree, cwd);
  }

  lemma NoStep(tree: Tree, cwd: int)
    ensures Elements("/") == [] && Elements("") == []
    ensures Walk(tree, ROOTINO, []) == ROOTINO && Walk(tree, cwd, []) == cwd
  {
    assert "/"[1..] == [];
  }

  lemma RelativeToDirectory(tree: Tree, cwd: int, here: int, a: string, b: string)
    requires here == Walk(tree, StartFrom(cwd, a), Elements(a)) != 0
    ensures a != [] && !Absolute(b) ==> Walk(tree, StartFrom(here, b), Elements(b)) ==
                                        Walk(tree, StartFrom(cwd, a + "/" + b), Elements(a + "/" + b))
    ensures Absolute(b) ==> StartFrom(here, b) == ROOTINO
  {
    hide Walk;
    PathsFromDirectory(tree, cwd, here, a, b);
  }

  /** How many of the first k entries are in use. */
  function InUse(entries: seq<Entry>, k: nat): nat
    requires k <= |entries|
  {
    if k == 0 then 0 else InUse(entries, k - 1) + if entries[k - 1].ref > 0 then 1 else 0
  }

  /** There is room for n more entries in use. */
  predicate Room(entries: seq<Entry>, n: nat) {
    InUse(entries, |entries|) + n <= |entries|
  }

  /** Some entry in use stands for the inode. */
  predicate Cached(entries: seq<Entry>, inum: int) {
    exists s :: 0 <= s < |entries| && entries[s].ref > 0 && entries[s].inum == inum
  }

  /** The counts have grown by `extra`, and entries that were in use still stand for the same inode. */
  ghost predicate Grown(a: seq<Entry>, b: seq<Entry>, extra: multiset<int>) {
    && |b| == |a|
    && forall s :: 0 <= s < |a| ==> b[s].ref == a[s].ref + extra[s] && (a[s].ref > 0 ==> b[s].inum == a[s].inum)
  }

  lemma {:induction false} NoneInUse(entries: seq<Entry>, k: nat)
    requires k <= |entries| && forall s :: 0 <= s < k ==> entries[s].ref == 0
    ensures InUse(entries, k) == 0
  {
    if k > 0 {
      NoneInUse(entries, k - 1);
    }
  }

  lemma {:induction false} AllInUse(entries: seq<Entry>, k: nat)
    requires k <= |entries| && forall s :: 0 <= s < k ==> entries[s].ref > 0
    ensures InUse(entries, k) == k
  {
    if k > 0 {
      AllInUse(entries, k - 1);
    }
  }

  /** How many of the first k slots are in the multiset. */
  function Hits(extra: multiset<int>, k: nat): nat {
    if k == 0 then 0 else Hits(extra, k - 1) + if k - 1 in extra then 1 else 0
  }

  lemma {:induction false} GrownInUse(a: seq<Entry>, b: seq<Entry>, extra: multiset<int>, k: nat)
    requires Grown(a, b, extra) && k <= |a|
    ensures InUse(b, k) <= InUse(a, k) + Hits(extra, k)
  {
    if k > 0 {
      GrownInUse(a, b, extra, k - 1);
    }
  }

  lemma {:induction false} HitsAdd(extra: multiset<int>, s: int, k: nat)
    ensures Hits(extra + multiset{s}, k) <= Hits(extra, k) + if 0 <= s < k then 1 else 0
  {
    if k > 0 {
      HitsAdd(extra, s, k - 1);
    }
  }

  lemma {:induction false} HitsNone(k: nat)
    ensures Hits(multiset{}, k) == 0
  {
    if k > 0 {
      HitsNone(k - 1);
    }
  }

  /** Each reference taken since needs at most one entry. */
  lemma RoomLeft(a: seq<Entry>, b: seq<Entry>, n: nat)
    requires Room(a, n)
    ensures Grown(a, b, multiset{}) ==> Room(b, n)
    ensures forall s: int :: Grown(a, b, multiset{s}) && n > 0 ==> Room(b, n - 1)
    ensures forall s: int, t: int :: Grown(a, b, multiset{s, t}) && n > 1 ==> Room(b, n - 2)
  {
    HitsNone(|a|);
    if Grown(a, b, multiset{}) {
      GrownInUse(a, b, multiset{}, |a|);
    }
    forall s: int | Grown(a, b, multiset{s}) && n > 0 ensures Room(b, n - 1) {
      HitsAdd(multiset{}, s, |a|);
      assert multiset{} + multiset{s} == multiset{s};
      GrownInUse(a, b, multiset{s}, |a|);
    }
    forall s: int, t: int | Grown(a, b, multiset{s, t}) && n > 1 ensures Room(b, n - 2) {
      HitsAdd(multiset{}, s, |a|);
      HitsAdd(multiset{s}, t, |a|);
      assert multiset{} + multiset{s} == multiset{s} && multiset{s} + multiset{t} == multiset{s, t};
      GrownInUse(a, b, multiset{s, t}, |a|);
    }
  }

  class Vfs {
    var entries: seq<Entry>           // icache
    var files: seq<File>              // ftable
    var procs: seq<Proc>
    var mine: set<int>                // entries whose sleep-lock the running code has
    var inOp: bool                    // between begin_op and end_op
    ghost var held: multiset<int>
    ghost var taken: multiset<int>

    ghost function Now(): Refs
      reads this
    {
      Refs(entries, files, procs, held, taken)
    }

    ghost predicate Valid()
      reads this
    {
      Ok(Now()) && forall s :: s in mine ==> 0 <= s < |entries|
    }

    /** Nothing is in use. */
    constructor (ninode: nat, nfile: nat, nproc: nat, nofile: nat)
      ensures Valid() && mine == {} && !inOp && held == multiset{} && taken == multiset{}
      ensures |entries| == ninode && Room(entries, ninode) && |files| == nfile && |procs| == nproc
      ensures forall p :: 0 <= p < nproc ==> procs[p].cwd == -1 && |procs[p].ofile| == nofile
    {
      entries := seq(ninode, _ => Entry(0, 0));
      files := seq(nfile, _ => File(0, NoKind, 0));
      procs := seq(nproc, _ => Proc(-1, seq(nofile, _ => -1)));
      mine, inOp, held, taken := {}, false, multiset{}, multiset{};
      new;
      NothingInUse(Now());
      NoneInUse(entries, ninode);
    }

    method BeginOp()
      requires !inOp
      modifies this`inOp
      ensures inOp
    {
      inOp := true;
    }

    method EndOp()
      requires inOp
      modifies this`inOp
      ensures !inOp
    {
      inOp := false;
    }

    /** iget's scan: the entry in use for an inode, or else the first free entry; -1 for none. */
    method FindEntry(inum: int) returns (at: int, empty: int)
      requires Valid()
      ensures -1 <= at < |entries| && -1 <= empty < |entries|
      ensures at >= 0 ==> entries[at].ref > 0 && entries[at].inum == inum
      ensures at == -1 ==> forall s :: 0 <= s < |entries| && entries[s].ref > 0 ==> entries[s].inum != inum
      ensures empty >= 0 ==> entries[empty].ref == 0
      ensures at == -1 && empty == -1 ==> forall s :: 0 <= s < |entries| ==> entries[s].ref > 0
    {
      NotNegative(Now());
      empty, at := -1, 0;
      while at < |entries|
        invariant 0 <= at <= |entries| && -1 <= empty < |entries| && (empty >= 0 ==> entries[empty].ref == 0)
        invariant empty == -1 ==> forall s :: 0 <= s < at ==> entries[s].ref > 0
        invariant forall s :: 0 <= s < at && entries[s].ref > 0 ==> entries[s].inum != inum
      {
        if entries[at].ref > 0 && entries[at].inum == inum {
          return;
        }
        if empty == -1 && entries[at].ref == 0 {
          empty := at;
        }
        at := at + 1;
      }
      at := -1;
    }

    /** iget: the entry for an inode, with a new reference to it.  Without it there must be a free one, as the source
        panics otherwise. */
    method Iget(inum: int) returns (ip: int)
      requires Valid() && (Room(entries, 1) || Cached(entries, inum))
      modifies this`entries, this`held
      ensures Valid() && 0 <= ip < |entries| && entries[ip].inum == inum && held == old(held) + multiset{ip}
      ensures Grown(old(entries), entries, multiset{ip})
    {
      hide Ok;
      var empty;
      ip, empty := FindEntry(inum);
      if ip >= 0 {
        HoldKeeps(Now(), ip, 1);
        entries, held := entries[ip := entries[ip].(ref := entries[ip].ref + 1)], held + multiset{ip};
        return;
      }
      if empty == -1 {
        AllInUse(entries, |entries|);
        assert false;
      }
      ip := empty;
      RecycleKeeps(Now(), ip, inum);
      entries, held := entries[ip := Entry(inum, 1)], held + multiset{ip};
    }

    /** idup. */
    method Idup(ip: int)
      requires Valid() && 0 <= ip < |entries| && entries[ip].ref > 0
      modifies this`entries, this`held
      ensures Valid() && held == old(held) + multiset{ip} && Grown(old(entries), entries, multiset{ip})
      ensures SameInodes(old(entries), entries)
    {
      hide Ok;
      HoldKeeps(Now(), ip, 1);
      entries, held := entries[ip := entries[ip].(ref := entries[ip].ref + 1)], held + multiset{ip};
    }

    /** ilock: needs a reference, and the lock must not be the caller's already. */
    method Ilock(ip: int)
      requires Valid() && ip in held && ip !in mine
      modifies this`mine
      ensures Valid() && mine == old(mine) + {ip}
    {
      assert 0 <= ip < |entries|;
      mine := mine + {ip};
    }

    method Iunlock(ip: int)
      requires Valid() && ip in mine
      modifies this`mine
      ensures Valid() && mine == old(mine) - {ip}
    {
      mine := mine - {ip};
    }

    /** iput: gives up a reference, inside a transaction and without the lock, which it takes itself. */
    method Iput(ip: int)
      requires Valid() && ip in held && ip !in mine && inOp
      modifies this`entries, this`held
      ensures Valid() && held == old(held) - multiset{ip} && Shrunk(old(entries), entries, ip)
    {
      hide Ok;
      HeldThere(Now(), ip);
      HeldInUse(Now(), ip);
      HoldKeeps(Now(), ip, -1);
      entries, held := entries[ip := entries[ip].(ref := entries[ip].ref - 1)], held - multiset{ip};
    }

    /** iunlockput. */
    method IunlockPut(ip: int)
      requires Valid() && ip in held && ip in mine && inOp
      modifies this`entries, this`held, this`mine
      ensures Valid() && held == old(held) - multiset{ip} && mine == old(mine) - {ip}
      ensures Shrunk(old(entries), entries, ip)
    {
      Iunlock(ip);
      Iput(ip);
    }

    /** dirlookup in a locked directory: a reference to the inode that a name stands for, or -1. */
    method Dirlookup(dp: int, name: string, tree: Tree) returns (ip: int)
      requires Valid() && dp in mine && (tree.look(entries[dp].inum, name) != 0 ==> Room(entries, 1))
      modifies this`entries, this`held
      ensures Valid() && -1 <= ip < |entries|
      ensures ip == -1 <==> tree.look(old(entries)[dp].inum, name) == 0
      ensures ip == -1 ==> held == old(held) && entries == old(entries)
      ensures ip >= 0 ==> held == old(held) + multiset{ip} && Grown(old(entries), entries, multiset{ip})
      ensures ip >= 0 ==> entries[ip].inum == tree.look(old(entries)[dp].inum, name)
    {
      hide Ok;
      var inum := tree.look(entries[dp].inum, name);
      if inum == 0 {
        return -1;
      }
      ip := Iget(inum);
    }

    /** The body of namex's loop when it goes on: from a directory to what a name in it stands for, or -1. */
    method Descend(ip: int, name: string, tree: Tree, ghost a: seq<Entry>, ghost h: multiset<int>) returns (next: int)
      requires Valid() && ip in mine && ip in held && inOp && Room(a, 2)
      requires held == h + multiset{ip} && Grown(a, entries, multiset{ip})
      modifies this`entries, this`held, this`mine
      ensures Valid() && -1 <= next < |entries| && mine == old(mine) - {ip}
      ensures next == -1 <==> tree.look(old(entries)[ip].inum, name) == 0
      ensures next == -1 ==> held == h && Grown(a, entries, multiset{})
      ensures next >= 0 ==> held == h + multiset{next} && Grown(a, entries, multiset{next})
      ensures next >= 0 ==> entries[next].inum == tree.look(old(entries)[ip].inum, name)
    {
      hide Ok, Room;
      RoomLeft(a, entries, 2);
      ghost var b := entries;
      next := Dirlookup(ip, name, tree);
      ghost var c := entries;
      if next >= 0 {
        GrownMore(a, b, c, multiset{ip}, multiset{next});
      }
      IunlockPut(ip);
      if next >= 0 {
        GrownDrop(a, c, entries, h, ip, next);
      } else {
        GrownBack(a, c, entries, h, ip);
      }
    }

    /** The inode that a path starts from. */
    function StartOf(p: nat, path: string): int
      reads this
      requires p < |procs| && 0 <= procs[p].cwd < |entries|
    {
      StartFrom(entries[procs[p].cwd].inum, path)
    }

    method StartAt(p: nat, path: string) returns (ip: int)
      requires Valid() && p < |procs| && 0 <= procs[p].cwd < |entries| && Room(entries, 1)
      modifies this`entries, this`held
      ensures Valid() && 0 <= ip < |entries| && entries[ip].inum == old(StartOf(p, path))
      ensures held == old(held) + multiset{ip} && Grown(old(entries), entries, multiset{ip})
    {
      hide EntriesCounted, FilesCounted;
      if path != [] && path[0] == '/' {
        ip := Iget(ROOTINO);
      } else {
        ip := procs[p].cwd;
        CwdInUse(Now(), p);
        Idup(ip);
      }
    }

    /** One round of namex's loop: the walk ends, without success or at the wanted directory, or goes one element on. */
    method NamexRound(ip: int, name: string, rest: string, parent: bool, tree: Tree,
                      ghost a: seq<Entry>, ghost h: multiset<int>, ghost start: int, ghost names: seq<string>)
      returns (next: int, ends: bool)
      requires Valid() && mine == {} && inOp && Room(a, 2) && 0 <= ip < |entries| && entries[ip].inum != 0
      requires held == h + multiset{ip} && Grown(a, entries, multiset{ip}) && (rest == [] <==> Elements(rest) == [])
      requires Ahead(tree, parent, start, names, entries[ip].inum, [name] + Elements(rest))
      modifies this`entries, this`held, this`mine
      ensures Valid() && mine == {} && -1 <= next < |entries| && (next == -1 ==> ends)
      ensures next == -1 ==> held == h && Grown(a, entries, multiset{}) && Dest(tree, parent, start, names) == 0
      ensures next >= 0 ==> held == h + multiset{next} && Grown(a, entries, multiset{next}) && entries[next].inum != 0
      ensures next >= 0 && ends ==> parent && names != [] && name == names[|names| - 1]
      ensures next >= 0 && ends ==> entries[next].inum == Dest(tree, parent, start, names)
      ensures !ends ==> Ahead(tree, parent, start, names, entries[next].inum, Elements(rest)) && !(parent && rest == [])
    {
      hide Ok, Grown, Room, Walk, WalkParent, Ahead, Tokens;
      Ilock(ip);
      AheadCases(tree, parent, start, names, entries[ip].inum, name, Elements(rest));
      if !tree.isDir(entries[ip].inum) {
        ghost var b := entries;
        IunlockPut(ip);
        GrownBack(a, b, entries, h, ip);
        return -1, true;
      }
      if parent && rest == [] {
        Iunlock(ip);
        return ip, true;
      }
      next := Descend(ip, name, tree, a, h);
      ends := next == -1;
    }

    /** namex: a reference to the inode of a path, or to its directory together with the last element; -1 if there
        is none.  Every path through it leaves the locks as they were, and no other reference behind. */
    method Namex(p: nat, path0: string, parent: bool, tree: Tree) returns (ip: int, name: string)
      requires Valid() && p < |procs| && 0 <= procs[p].cwd < |entries| && inOp && mine == {} && Room(entries, 2)
      requires StartOf(p, path0) != 0
      modifies this`entries, this`held, this`mine
      ensures Valid() && -1 <= ip < |entries| && mine == {}
      ensures ip == -1 ==> held == old(held) && Grown(old(entries), entries, multiset{})
      ensures ip >= 0 ==> held == old(held) + multiset{ip} && Grown(old(entries), entries, multiset{ip})
      ensures var names := Elements(path0);
              var dest := Dest(tree, parent, old(StartOf(p, path0)), names);
              && (ip == -1 <==> dest == 0) && (ip >= 0 ==> entries[ip].inum == dest)
              && (ip >= 0 && parent ==> names != [] && name == names[|names| - 1])
    {
      hide Ok, Grown, Room, Walk, WalkParent, Ahead, Tokens;
      ghost var a, h, start, names := entries, held, StartOf(p, path0), Elements(path0);
      RoomLess(entries, 2);
      ip := StartAt(p, path0);
      AheadStart(tree, parent, start, names);
      var ends;
      ip, name, ends := NamexLoop(ip, path0, parent, tree, a, h, start, names);
      if ends {
        return;
      }
      AheadEnd(tree, parent, start, names, entries[ip].inum);
      if parent {
        ghost var b := entries;
        Iput(ip);
        GrownBack(a, b, entries, h, ip);
        return -1, name;
      }
    }

    /** namex's loop: it ends within a round, or when there is no element left. */
    method NamexLoop(ip0: int, path0: string, parent: bool, tree: Tree,
                     ghost a: seq<Entry>, ghost h: multiset<int>, ghost start: int, ghost names: seq<string>)
      returns (ip: int, name: string, ends: bool)
      requires Valid() && mine == {} && inOp && Room(a, 2) && 0 <= ip0 < |entries| && entries[ip0].inum != 0
      requires held == h + multiset{ip0} && Grown(a, entries, multiset{ip0})
      requires Ahead(tree, parent, start, names, entries[ip0].inum, Elements(path0))
      modifies this`entries, this`held, this`mine
      ensures Valid() && mine == {} && -1 <= ip < |entries| && (ip == -1 ==> ends)
      ensures ip == -1 ==> held == h && Grown(a, entries, multiset{}) && Dest(tree, parent, start, names) == 0
      ensures ip >= 0 ==> held == h + multiset{ip} && Grown(a, entries, multiset{ip}) && entries[ip].inum != 0
      ensures ip >= 0 && ends ==> parent && names != [] && name == names[|names| - 1]
      ensures ip >= 0 && ends ==> entries[ip].inum == Dest(tree, parent, start, names)
      ensures !ends ==> Ahead(tree, parent, start, names, entries[ip].inum, [])
    {
      hide Ok, Room, Grown, Ahead, Dest;
      ip, ends := ip0, false;
      var path, found, rest := path0, true, [];
      found, name, rest := SkipElem(path);
      while found
        invariant Valid() && 0 <= ip < |entries| && mine == {} && inOp && !ends
        invariant held == h + multiset{ip} && Grown(a, entries, multiset{ip}) && entries[ip].inum != 0
        invariant found <==> Elements(path) != []
        invariant found ==> Elements(path) == [name] + Elements(rest) && |rest| < |path|
        invariant found ==> (rest == [] <==> Elements(rest) == [])
        invariant Ahead(tree, parent, start, names, entries[ip].inum, Elements(path))
        decreases |path|
      {
        ip, ends := NamexRound(ip, name, rest, parent, tree, a, h, start, names);
        if ends {
          return;
        }
        path := rest;
        found, name, rest := SkipElem(path);
      }
    }

    /** dirlink in a locked directory: 0 if the name is new there, -1 if it is not.  When the name stands for an
        inode that the caller has locked, iput waits for that lock for ever. */
    method Dirlink(dp: int, name: string, tree: Tree) returns (r: int, blocked: bool)
      requires Valid() && dp in mine && inOp && (tree.look(entries[dp].inum, name) != 0 ==> Room(entries, 1))
      requires forall s :: s in mine ==> s in held
      modifies this`entries, this`held
      ensures Valid()
      ensures blocked <==> tree.look(old(entries)[dp].inum, name) != 0
                           && exists s :: s in mine && old(entries)[s].inum == tree.look(old(entries)[dp].inum, name)
      ensures !blocked ==> held == old(held) && Grown(old(entries), entries, multiset{})
      ensures !blocked ==> r == if tree.look(old(entries)[dp].inum, name) == 0 then 0 else -1
      ensures tree.look(old(entries)[dp].inum, name) == 0 ==> entries == old(entries)
    {
      hide EntriesCounted, FilesCounted, Room;
      ghost var a, h := entries, held;
      HeldAll(Now(), mine);
      var ip := Dirlookup(dp, name, tree);
      if ip < 0 {
        GrownNone(a);
        return 0, false;
      }
      LockedOrNot(Now(), mine, ip);
      if ip in mine {
        return -1, true;
      }
      ghost var b := entries;
      Iput(ip);
      GrownBack(a, b, entries, h, ip);
      return -1, false;
    }

    /** create: a locked inode with a reference to it, new or, for a file, a file that is there already; or -1. */
    method Create(p: nat, path: string, kind: NodeType, tree: Tree, newNum: int) returns (ip: int)
      requires Valid() && p < |procs| && 0 <= procs[p].cwd < |entries| && inOp && mine == {} && Room(entries, 2)
      requires StartOf(p, path) != 0 && newNum != 0 && !tree.isDir(newNum) && forall n :: tree.look(newNum, n) == 0
      modifies this`entries, this`held, this`mine
      ensures Valid() && -1 <= ip < |entries|
      ensures ip == -1 ==> mine == {} && held == old(held) && Grown(old(entries), entries, multiset{})
      ensures ip >= 0 ==> mine == {ip} && held == old(held) + multiset{ip} && Grown(old(entries), entries, multiset{ip})
      ensures var made := Created(tree, old(StartOf(p, path)), Elements(path), kind, newNum);
              (ip == -1 <==> made == 0) && (ip >= 0 ==> entries[ip].inum == made)
    {
      hide Ok, Room;
      ghost var a, h := entries, held;
      var dp, name := Namex(p, path, true, tree);
      if dp == -1 {
        return -1;
      }
      RoomLeft(a, entries, 2);
      Ilock(dp);
      ip := Dirlookup(dp, name, tree);
      if ip >= 0 {
        ip := UseExisting(dp, ip, kind, tree, a, h);
      } else {
        ip := MakeNew(dp, name, kind, tree, newNum, a, h);
      }
    }

    /** create when the name is there: dp is given up, and what it leads to is used if it is a file and one is
        wanted. */
    method UseExisting(dp: int, ip0: int, kind: NodeType, tree: Tree, ghost a: seq<Entry>, ghost h: multiset<int>)
      returns (ip: int)
      requires Valid() && inOp && mine == {dp} && 0 <= ip0 < |entries|
      requires held == h + multiset{dp} + multiset{ip0} && Grown(a, entries, multiset{dp} + multiset{ip0})
      modifies this`entries, this`held, this`mine
      ensures Valid() && ip == if kind.AFile? && tree.isFile(old(entries)[ip0].inum) then ip0 else -1
      ensures ip == -1 ==> mine == {} && held == h && Grown(a, entries, multiset{})
      ensures ip >= 0 ==> mine == {ip} && held == h + multiset{ip} && Grown(a, entries, multiset{ip})
      ensures ip >= 0 ==> entries[ip].inum == old(entries)[ip].inum
    {
      hide Ok, Grown;
      ghost var b := entries;
      IunlockPut(dp);
      GrownDrop(a, b, entries, h, dp, ip0);
      ip := KeepOrPut(ip0, kind, tree, a, h);
    }

    method KeepOrPut(ip0: int, kind: NodeType, tree: Tree, ghost a: seq<Entry>, ghost h: multiset<int>)
      returns (ip: int)
      requires Valid() && inOp && mine == {} && 0 <= ip0 < |entries|
      requires held == h + multiset{ip0} && Grown(a, entries, multiset{ip0})
      modifies this`entries, this`held, this`mine
      ensures Valid() && ip == if kind.AFile? && tree.isFile(old(entries)[ip0].inum) then ip0 else -1
      ensures ip == -1 ==> mine == {} && held == h && Grown(a, entries, multiset{})
      ensures ip >= 0 ==> mine == {ip} && held == h + multiset{ip} && Grown(a, entries, multiset{ip})
      ensures ip >= 0 ==> entries == old(entries)
    {
      hide Ok, Grown;
      Ilock(ip0);
      if kind.AFile? && tree.isFile(entries[ip0].inum) {
        return ip0;
      }
      ghost var c := entries;
      IunlockPut(ip0);
      GrownBack(a, c, entries, h, ip0);
      return -1;
    }

    /** create when the name is new: a fresh inode, entered in the directory, and with "." and ".." if it is one
        itself. */
    method MakeNew(dp: int, name: string, kind: NodeType, tree: Tree, newNum: int,
                   ghost a: seq<Entry>, ghost h: multiset<int>)
      returns (ip: int)
      requires Valid() && inOp && mine == {dp} && Room(entries, 1)
      requires tree.isDir(entries[dp].inum) && tree.look(entries[dp].inum, name) == 0
      requires held == h + multiset{dp} && Grown(a, entries, multiset{dp})
      requires !tree.isDir(newNum) && forall n :: tree.look(newNum, n) == 0
      modifies this`entries, this`held, this`mine
      ensures Valid() && 0 <= ip < |entries| && entries[ip].inum == newNum
      ensures mine == {ip} && held == h + multiset{ip} && Grown(a, entries, multiset{ip})
    {
      hide Ok, Room;
      ghost var b := entries;
      HeldAll(Now(), mine);
      ip := Iget(newNum);
      GrownMore(a, b, entries, multiset{dp}, multiset{ip});
      Ilock(ip);
      EnterAll(dp, ip, name, kind, tree);
      ghost var c := entries;
      IunlockPut(dp);
      GrownDrop(a, c, entries, h, dp, ip);
    }

    /** The directory entries that create makes are all new. */
    method EnterAll(dp: int, ip: int, name: string, kind: NodeType, tree: Tree)
      requires Valid() && inOp && mine == {dp} + {ip} && dp in held && ip in held
      requires tree.look(entries[dp].inum, name) == 0 && forall n :: tree.look(entries[ip].inum, n) == 0
      modifies this`entries, this`held
      ensures Valid() && entries == old(entries) && held == old(held)
    {
      hide Ok, Room, Grown;
      var r, blocked;
      if kind.ADir? {
        r, blocked := Dirlink(ip, ".", tree);
        r, blocked := Dirlink(ip, "..", tree);
      }
      r, blocked := Dirlink(dp, name, tree);
    }

    // Files and descriptors

    /** filealloc: a file with one reference, or -1. */
    method FileAlloc() returns (f: int)
      requires Valid()
      modifies this`files, this`taken
      ensures Valid() && -1 <= f < |files| == |old(files)|
      ensures f == -1 ==> files == old(files) && taken == old(taken) && NoFreeFile(files)
      ensures f >= 0 ==> old(files)[f].ref == 0 && files == old(files)[f := old(files)[f].(ref := 1)]
      ensures f >= 0 ==> taken == old(taken) + multiset{f}
      ensures f >= 0 ==> files[f].kind.NoKind?
    {
      f := FreeFile();
      if f >= 0 {
        FileAllocKeeps(Now(), f);
        files, taken := files[f := files[f].(ref := 1)], taken + multiset{f};
      }
    }

    method FreeFile() returns (f: int)
      requires Valid()
      ensures -1 <= f < |files| && (f >= 0 ==> files[f].ref == 0)
      ensures f == -1 ==> NoFreeFile(files)
    {
      FilesNotNegative(Now());
      f := 0;
      while f < |files|
        invariant 0 <= f <= |files| && forall i :: 0 <= i < f ==> files[i].ref > 0
      {
        if files[f].ref == 0 {
          return;
        }
        f := f + 1;
      }
      f := -1;
    }

    /** filedup. */
    method FileDup(f: int)
      requires Valid() && 0 <= f < |files| && files[f].ref > 0
      modifies this`files, this`taken
      ensures Valid() && files == old(files)[f := old(files)[f].(ref := old(files)[f].ref + 1)]
      ensures taken == old(taken) + multiset{f}
    {
      hide Ok;
      TakeKeeps(Now(), f, 1);
      files, taken := files[f := files[f].(ref := files[f].ref + 1)], taken + multiset{f};
    }

    /** fileclose: one reference less; with the last one the inode goes too, in a transaction of its own. */
    method FileClose(f: int)
      requires Valid() && 0 <= f < |files| && f in taken
      requires files[f].ref == 1 && files[f].kind.InodeKind? ==> !inOp && mine == {}
      modifies this`files, this`taken, this`entries, this`held, this`inOp
      ensures Valid() && held == old(held) && taken == old(taken) - multiset{f} && inOp == old(inOp)
      ensures files == old(files)[f := Closed(old(files)[f])]
      ensures if old(files)[f].ref == 1 && old(files)[f].kind.InodeKind?
              then Shrunk(old(entries), entries, old(files)[f].ip)
              else entries == old(entries)
    {
      hide Ok;
      TakenInUse(Now(), f);
      if files[f].ref > 1 {
        TakeKeeps(Now(), f, -1);
        files, taken := files[f := files[f].(ref := files[f].ref - 1)], taken - multiset{f};
        return;
      }
      var ff := CloseLast(f);
      if ff.kind.InodeKind? {
        GaveBack(old(held), ff.ip);
        BeginOp();
        Iput(ff.ip);
        EndOp();
      }
    }

    /** The locked part of fileclose for the last reference; the caller inherits the file's own. */
    method CloseLast(f: int) returns (ff: File)
      requires Valid() && 0 <= f < |files| && f in taken && files[f].ref == 1
      modifies this`files, this`taken, this`held
      ensures Valid() && ff == old(files)[f] && files == old(files)[f := Closed(ff)]
      ensures taken == old(taken) - multiset{f}
      ensures held == if ff.kind.InodeKind? then old(held) + multiset{ff.ip} else old(held)
    {
      hide Ok;
      ff := files[f];
      FileCloseKeeps(Now(), f);
      files, taken := files[f := ff.(ref := 0, kind := NoKind)], taken - multiset{f};
      if ff.kind.InodeKind? {
        held := held + multiset{ff.ip};
      }
    }

    /** fdalloc: puts a file into the lowest free descriptor, which takes over the reference; -1 if there is none. */
    method FdAlloc(p: nat, f: int) returns (fd: int)
      requires Valid() && p < |procs| && f in taken
      modifies this`procs, this`taken
      ensures Valid() && -1 <= fd < |old(procs)[p].ofile|
      ensures fd == -1 ==> procs == old(procs) && taken == old(taken) && NoFreeFd(procs[p])
      ensures fd >= 0 ==> old(procs)[p].ofile[fd] == -1 && (forall i :: 0 <= i < fd ==> old(procs)[p].ofile[i] != -1)
      ensures fd >= 0 ==> procs == old(procs)[p := old(procs)[p].(ofile := old(procs)[p].ofile[fd := f])]
      ensures fd >= 0 ==> taken == old(taken) - multiset{f}
    {
      fd := FreeFd(p);
      if fd >= 0 {
        SetFd(p, fd, f);
      }
    }

    method FreeFd(p: nat) returns (fd: int)
      requires p < |procs|
      ensures -1 <= fd < |procs[p].ofile| && (fd >= 0 ==> procs[p].ofile[fd] == -1)
      ensures forall i :: 0 <= i < (if fd == -1 then |procs[p].ofile| else fd) ==> procs[p].ofile[i] != -1
    {
      fd := 0;
      while fd < |procs[p].ofile|
        invariant 0 <= fd <= |procs[p].ofile| && forall i :: 0 <= i < fd ==> procs[p].ofile[i] != -1
      {
        if procs[p].ofile[fd] == -1 {
          return;
        }
        fd := fd + 1;
      }
      fd := -1;
    }

    method SetFd(p: nat, fd: nat, f: int)
      requires Valid() && p < |procs| && fd < |procs[p].ofile| && procs[p].ofile[fd] == -1 && f in taken
      modifies this`procs, this`taken
      ensures Valid() && taken == old(taken) - multiset{f}
      ensures procs == old(procs)[p := old(procs)[p].(ofile := old(procs)[p].ofile[fd := f])]
    {
      hide EntriesCounted, FilesCounted, Unique;
      FdSetKeeps(Now(), p, fd, f);
      assert taken - multiset{f} + multiset{} == taken - multiset{f};
      procs, taken := procs[p := procs[p].(ofile := procs[p].ofile[fd := f])], taken - multiset{f};
    }

    // System calls.  Each starts and ends without locks and outside a transaction, and whichever way it ends, running
    // code holds the references that it held before.

    /** Between system calls of process p. */
    ghost predicate Quiet(p: nat)
      reads this
    {
      Valid() && mine == {} && !inOp && Lives(Now(), p)
    }

    /** Between system calls of all processes. */
    ghost predicate AllQuiet()
      reads this
    {
      Valid() && mine == {} && !inOp && AllLive(Now())
    }

    /** userinit gives the first process its current directory: namei of "/", outside a transaction. */
    method Boot(p: nat)
      requires Valid() && mine == {} && !inOp && p < |procs| && procs[p].cwd == -1 && Room(entries, 1)
      modifies this`entries, this`held, this`procs
      ensures Quiet(p) && held == old(held) && files == old(files)
      ensures Grown(old(entries), entries, multiset{procs[p].cwd})
      ensures procs == old(procs)[p := old(procs)[p].(cwd := procs[p].cwd)] && entries[procs[p].cwd].inum == ROOTINO
      ensures Settled(old(Now()), Now())
    {
      hide Ok, Grown, Room;
      ghost var was, h := Now(), held;
      var ip := Iget(ROOTINO);
      CwdSetKeeps(Now(), p, ip);
      GaveBack(h, ip);
      assert h + multiset{} == h;
      procs, held := procs[p := procs[p].(cwd := ip)], h;
      BootSettles(was, Now(), p, ip);
    }

    /** The first half of open: the inode, locked; or -1. */
    method OpenInode(p: nat, path: string, create: bool, rdonly: bool, tree: Tree, newNum: int) returns (ip: int)
      requires Valid() && mine == {} && inOp && p < |procs| && 0 <= procs[p].cwd < |entries| && Room(entries, 2)
      requires StartOf(p, path) != 0 && newNum != 0 && !tree.isDir(newNum) && forall n :: tree.look(newNum, n) == 0
      modifies this`entries, this`held, this`mine
      ensures Valid() && -1 <= ip < |entries|
      ensures ip == -1 ==> mine == {} && held == old(held) && Grown(old(entries), entries, multiset{})
      ensures ip >= 0 ==> mine == {ip} && held == old(held) + multiset{ip} && Grown(old(entries), entries, multiset{ip})
      ensures var dest := Opened(tree, old(StartOf(p, path)), Elements(path), create, rdonly, newNum);
              (ip == -1 <==> dest == 0) && (ip >= 0 ==> entries[ip].inum == dest)
    {
      hide Ok, Grown, Room;
      if create {
        ip := Create(p, path, AFile, tree, newNum);
        return;
      }
      ghost var a, h := entries, held;
      var name;
      ip, name := Namex(p, path, false, tree);
      if ip == -1 {
        return;
      }
      Ilock(ip);
      if tree.isDir(entries[ip].inum) && !rdonly {
        ghost var b := entries;
        IunlockPut(ip);
        GrownBack(a, b, entries, h, ip);
        return -1;
      }
    }

    /** filealloc and fdalloc in open: both, or neither. */
    method NewDescriptor(p: nat) returns (f: int, fd: int)
      requires Valid() && p < |procs|
      modifies this`files, this`procs, this`taken, this`entries, this`held, this`inOp
      ensures Valid() && taken == old(taken) && entries == old(entries) && held == old(held) && inOp == old(inOp)
      ensures fd == -1 <==> NoFreeFile(old(files)) || NoFreeFd(old(procs)[p])
      ensures fd == -1 ==> files == old(files) && procs == old(procs)
      ensures fd != -1 ==> LowestFd(old(procs)[p], fd)
                           && procs == old(procs)[p := old(procs)[p].(ofile := old(procs)[p].ofile[fd := f])]
      ensures fd != -1 ==> 0 <= f < |old(files)| && old(files)[f].ref == 0 && old(files)[f].kind.NoKind?
                           && files == old(files)[f := old(files)[f].(ref := 1)]
    {
      hide Ok;
      f := FileAlloc();
      fd := -1;
      if f >= 0 {
        fd := FdAlloc(p, f);
      }
      if fd < 0 && f >= 0 {
        FileClose(f);
      }
      assert fd < 0 && f >= 0 ==> files == old(files);
      assert f >= 0 ==> taken == old(taken);
    }

    /** The second half of open: a file and a descriptor for a locked inode; or -1, with everything given back. */
    method OpenFile(p: nat, ip: int, ghost a: seq<Entry>, ghost h: multiset<int>) returns (fd: int)
      requires Valid() && mine == {ip} && inOp && p < |procs| && 0 <= ip < |entries|
      requires held == h + multiset{ip} && Grown(a, entries, multiset{ip})
      modifies this
      ensures Valid() && mine == {} && !inOp && held == h && taken == old(taken)
      ensures fd == -1 <==> NoFreeFile(old(files)) || NoFreeFd(old(procs)[p])
      ensures fd == -1 ==> procs == old(procs) && files == old(files) && Grown(a, entries, multiset{})
      ensures fd != -1 ==> entries == old(entries) && HasOpened(old(files), old(procs), files, procs, p, fd, ip)
    {
      hide Ok, Grown;
      var f;
      f, fd := NewDescriptor(p);
      if fd == -1 {
        ghost var b := entries;
        IunlockPut(ip);
        EndOp();
        GrownBack(a, b, entries, h, ip);
        return;
      }
      Iunlock(ip);
      EndOp();
      FileOpenKeeps(Now(), f, ip);
      files, held := files[f := files[f].(kind := InodeKind, ip := ip)], held - multiset{ip};
      GaveBack(h, ip);
      assert files == old(files)[f := File(1, InodeKind, ip)];
    }

    /** sys_open. */
    method SysOpen(p: nat, path: string, create: bool, rdonly: bool, tree: Tree, newNum: int)
      returns (fd: int, ghost ip: int)
      requires Quiet(p) && Room(entries, 2)
      requires newNum != 0 && !tree.isDir(newNum) && forall n :: tree.look(newNum, n) == 0
      modifies this
      ensures Valid() && mine == {} && !inOp && held == old(held) && taken == old(taken)
      ensures fd == -1 <==> || Opened(tree, old(StartOf(p, path)), Elements(path), create, rdonly, newNum) == 0
                            || NoFreeFile(old(files)) || NoFreeFd(old(procs)[p])
      ensures fd == -1 ==> procs == old(procs) && files == old(files) && Grown(old(entries), entries, multiset{})
      ensures fd != -1 ==> 0 <= ip < |entries| && Grown(old(entries), entries, multiset{ip})
      ensures fd != -1 ==> HasOpened(old(files), old(procs), files, procs, p, fd, ip)
      ensures fd != -1 ==>
                entries[ip].inum == Opened(tree, old(StartOf(p, path)), Elements(path), create, rdonly, newNum)
      ensures Settled(old(Now()), Now())
    {
      hide Ok, Grown, Room, HasOpened;
      ghost var was, a, h := Now(), entries, held;
      BeginOp();
      var inode := OpenInode(p, path, create, rdonly, tree, newNum);
      ip := inode;
      if inode == -1 {
        EndOp();
        SettledGrown(was, Now(), multiset{});
        return -1, ip;
      }
      fd := OpenFile(p, inode, a, h);
      if fd == -1 {
        SettledGrown(was, Now(), multiset{});
      } else {
        OpenedSettles(was, Now(), p, fd, ip);
      }
    }

    /** sys_close. */
    method SysClose(p: nat, fd: int) returns (r: int)
      requires Quiet(p)
      modifies this
      ensures Valid() && mine == {} && !inOp && held == old(held) && taken == old(taken)
      ensures var q := old(procs)[p];
              if 0 <= fd < |q.ofile| && q.ofile[fd] != -1 then
                r == 0 && procs == old(procs)[p := q.(ofile := q.ofile[fd := -1])] && 0 <= q.ofile[fd] < |old(files)|
                && files == old(files)[q.ofile[fd] := Closed(old(files)[q.ofile[fd]])]
              else r == -1 && unchanged(this)
      ensures SameInodes(old(entries), entries) && Settled(old(Now()), Now())
    {
      hide EntriesCounted, FilesCounted, Unique;
      ghost var was := Now();
      if !(0 <= fd < |procs[p].ofile|) || procs[p].ofile[fd] == -1 {
        SettledSame(was, Now());
        return -1;
      }
      CloseFd(p, fd);
      SettledSame(was, Now());
      return 0;
    }

    /** sys_dup. */
    method SysDup(p: nat, fd: int) returns (r: int)
      requires Quiet(p)
      modifies this
      ensures Valid() && mine == {} && !inOp && held == old(held) && taken == old(taken) && entries == old(entries)
      ensures var q := old(procs)[p];
              r == -1 <==> !(0 <= fd < |q.ofile|) || q.ofile[fd] == -1 || NoFreeFd(q)
      ensures r == -1 ==> unchanged(this)
      ensures r != -1 ==> var q := old(procs)[p];
                && 0 <= r < |q.ofile| && q.ofile[r] == -1 && (forall i :: 0 <= i < r ==> q.ofile[i] != -1)
                && 0 <= q.ofile[fd] < |old(files)|
                && procs == old(procs)[p := q.(ofile := q.ofile[r := q.ofile[fd]])]
                && files == old(files)[q.ofile[fd] := old(files)[q.ofile[fd]].(ref := old(files)[q.ofile[fd]].ref + 1)]
      ensures Settled(old(Now()), Now())
    {
      hide EntriesCounted, FilesCounted, Unique;
      ghost var was := Now();
      SettledSame(was, was);
      if !(0 <= fd < |procs[p].ofile|) || procs[p].ofile[fd] == -1 {
        return -1;
      }
      r := FreeFd(p);
      if r < 0 {
        return -1;
      }
      DupInto(p, p, fd, r);
      SettledSame(was, Now());
    }

    /** Descriptor r of process c becomes the same file as descriptor fd of process p. */
    method DupInto(p: nat, c: nat, fd: nat, r: nat)
      requires Valid() && p < |procs| && c < |procs| && fd < |procs[p].ofile| && procs[p].ofile[fd] != -1
      requires r < |procs[c].ofile| && procs[c].ofile[r] == -1
      modifies this`files, this`taken, this`procs
      ensures Valid() && taken == old(taken)
      ensures var f := old(procs)[p].ofile[fd];
              && 0 <= f < |old(files)| && files == old(files)[f := old(files)[f].(ref := old(files)[f].ref + 1)]
              && procs == old(procs)[c := old(procs)[c].(ofile := old(procs)[c].ofile[r := f])]
    {
      hide Ok;
      var f := procs[p].ofile[fd];
      FdInUse(Now(), p, fd);
      FileDup(f);
      SetFd(c, r, f);
      GaveBack(old(taken), f);
    }

    /** iput and end_op at the end of a call. */
    method PutEnd(ip: int, ghost a: seq<Entry>, ghost h: multiset<int>)
      requires Valid() && mine == {} && inOp && held == h + multiset{ip} && Grown(a, entries, multiset{ip})
      modifies this`entries, this`held, this`inOp
      ensures Valid() && !inOp && held == h && Grown(a, entries, multiset{})
    {
      hide Ok, Grown;
      ghost var b := entries;
      Iput(ip);
      EndOp();
      GrownBack(a, b, entries, h, ip);
    }

    /** iunlockput and end_op at the end of a call. */
    method UnlockPutEnd(ip: int, ghost a: seq<Entry>, ghost h: multiset<int>)
      requires Valid() && mine == {ip} && inOp && held == h + multiset{ip} && Grown(a, entries, multiset{ip})
      modifies this`entries, this`held, this`mine, this`inOp
      ensures Valid() && mine == {} && !inOp && held == h && Grown(a, entries, multiset{})
    {
      hide Ok, Grown;
      Iunlock(ip);
      PutEnd(ip, a, h);
    }

    /** namei at the beginning of chdir and link: the inode, not locked, if it is of the wanted kind; else the call
        is over. */
    method Fetch(p: nat, path: string, dir: bool, tree: Tree) returns (ip: int)
      requires Quiet(p) && Room(entries, 2)
      modifies this`entries, this`held, this`mine, this`inOp
      ensures Valid() && mine == {} && -1 <= ip < |entries|
      ensures var dest := Walk(tree, old(StartOf(p, path)), Elements(path));
              (ip == -1 <==> dest == 0 || tree.isDir(dest) != dir) && (ip >= 0 ==> entries[ip].inum == dest)
      ensures ip == -1 ==> !inOp && held == old(held) && Grown(old(entries), entries, multiset{})
      ensures ip >= 0 ==> inOp && held == old(held) + multiset{ip} && Grown(old(entries), entries, multiset{ip})
    {
      hide Ok, Grown, Room;
      ghost var a, h := entries, held;
      BeginOp();
      var name;
      ip, name := Namex(p, path, false, tree);
      if ip == -1 {
        EndOp();
        return;
      }
      Ilock(ip);
      if tree.isDir(entries[ip].inum) != dir {
        UnlockPutEnd(ip, a, h);
        return -1;
      }
      Iunlock(ip);
    }

    /** sys_chdir.  The current directory is replaced before the old one is given up; only its own process looks
        at it. */
    method SysChdir(p: nat, path: string, tree: Tree) returns (r: int)
      requires Quiet(p) && Room(entries, 2)
      modifies this
      ensures Valid() && mine == {} && !inOp && held == old(held) && taken == old(taken) && files == old(files)
      ensures r == 0 <==>
                var dest := Walk(tree, old(StartOf(p, path)), Elements(path)); dest != 0 && tree.isDir(dest)
      ensures r != 0 ==> r == -1 && procs == old(procs) && Grown(old(entries), entries, multiset{})
      ensures r == 0 ==> |procs| == |old(procs)| && 0 <= procs[p].cwd < |entries|
      ensures r == 0 ==> procs == old(procs)[p := old(procs)[p].(cwd := procs[p].cwd)]
      ensures r == 0 ==> entries[procs[p].cwd].inum == Walk(tree, old(StartOf(p, path)), Elements(path))
      ensures Settled(old(Now()), Now())
    {
      hide Ok, Grown, Room;
      ghost var was, h := Now(), held;
      var ip := Fetch(p, path, true, tree);
      if ip == -1 {
        SettledGrown(was, Now(), multiset{});
        return -1;
      }
      ghost var b := entries;
      CwdStays(was, p, entries, multiset{ip});
      SwapCwd(p, ip, h);
      EndOp();
      ChdirSettles(was, b, Now(), p, ip, was.procs[p].cwd);
      return 0;
    }

    /** Entry ip, which running code holds beyond h, becomes p's current directory in place of the old one. */
    method SwapCwd(p: nat, ip: int, ghost h: multiset<int>)
      requires Valid() && mine == {} && inOp && p < |procs| && 0 <= procs[p].cwd < |entries|
      requires held == h + multiset{ip} && 0 <= ip < |entries|
      modifies this`procs, this`held, this`entries
      ensures Valid() && procs == old(procs)[p := old(procs)[p].(cwd := ip)] && held == h
      ensures Shrunk(old(entries), entries, old(procs)[p].cwd)
    {
      hide Ok;
      var was := procs[p].cwd;
      CwdSetKeeps(Now(), p, ip);
      Exchange(h, ip, was);
      procs, held := procs[p := procs[p].(cwd := ip)], h + multiset{was};
      Iput(was);
    }

    /** After a chdir to a, a relative path b names what a/b named before, for every directory that a can lead to; if
        the cache still has two free entries then, as namex needs. */
    method ChdirThenName(p: nat, a: string, b: string, tree: Tree) returns (r: int, named: bool, ip: int)
      requires Quiet(p) && Room(entries, 2)
      modifies this
      ensures r == 0 <==>
                var dest := Walk(tree, old(StartOf(p, a)), Elements(a)); dest != 0 && tree.isDir(dest)
      ensures named ==> r == 0 && Valid() && -1 <= ip < |entries| && mine == {} && inOp
      ensures r == 0 && !named ==> !Room(entries, 2)
      ensures named && a != [] && !Absolute(b) ==>
                var dest := Walk(tree, old(StartOf(p, a + "/" + b)), Elements(a + "/" + b));
                (ip == -1 <==> dest == 0) && (ip >= 0 ==> entries[ip].inum == dest)
      ensures named && Absolute(b) ==>
                var dest := Walk(tree, ROOTINO, Elements(b));
                (ip == -1 <==> dest == 0) && (ip >= 0 ==> entries[ip].inum == dest)
    {
      hide Ok, Room, Grown, Walk, Tokens;
      ghost var was := entries[procs[p].cwd].inum;
      r := SysChdir(p, a, tree);
      named, ip := r == 0 && Room(entries, 2), -1;
      if named {
        RelativeToDirectory(tree, was, entries[procs[p].cwd].inum, a, b);
        BeginOp();
        var name;
        ip, name := Namex(p, b, false, tree);
      }
    }

    /** sys_link, with the change it makes to the link count of the old file. */
    method SysLink(p: nat, from: string, to: string, tree: Tree) returns (r: int, blocked: bool, links: int)
      requires Quiet(p) && Room(entries, 3)
      modifies this
      ensures blocked <==> LinkTo(tree, old(StartOf(p, from)), old(StartOf(p, to)), from, to) == Self
      ensures !blocked ==> Valid() && mine == {} && !inOp && held == old(held) && taken == old(taken)
      ensures !blocked ==> files == old(files) && procs == old(procs) && Grown(old(entries), entries, multiset{})
      ensures !blocked ==> Settled(old(Now()), Now())
      ensures r == 0 <==> LinkTo(tree, old(StartOf(p, from)), old(StartOf(p, to)), from, to) == Done
      ensures if r == 0 then links == 1 else !blocked ==> r == -1 && links == 0
    {
      hide Ok, Grown, Room;
      ghost var was, a, h := Now(), entries, held;
      links := 0;
      RoomLess(entries, 3);
      var ip := Fetch(p, from, false, tree);
      if ip == -1 {
        SettledGrown(was, Now(), multiset{});
        return -1, false, 0;
      }
      links := links + 1;
      CwdStays(was, p, entries, multiset{ip});
      var linked;
      linked, blocked := LinkIn(p, to, ip, tree, a, h);
      if blocked {
        return -1, true, links;
      }
      if linked {
        PutEnd(ip, a, h);
        r := 0;
      } else {
        Ilock(ip);
        links := links - 1;
        UnlockPutEnd(ip, a, h);
        r := -1;
      }
      SettledGrown(was, Now(), multiset{});
    }

    /** The middle of link: the new name entered in its directory. */
    method LinkIn(p: nat, to: string, ip: int, tree: Tree, ghost a: seq<Entry>, ghost h: multiset<int>)
      returns (linked: bool, blocked: bool)
      requires Valid() && mine == {} && inOp && p < |procs| && 0 <= procs[p].cwd < |entries| && StartOf(p, to) != 0
      requires Room(a, 3)
      requires 0 <= ip < |entries| && held == h + multiset{ip} && Grown(a, entries, multiset{ip})
      modifies this`entries, this`held, this`mine
      ensures var names := Elements(to); var dir := WalkParent(tree, old(StartOf(p, to)), names);
              && (linked <==> dir != 0 && names != [] && tree.look(dir, names[|names| - 1]) == 0)
              && (blocked <==> dir != 0 && names != [] && tree.look(dir, names[|names| - 1]) == dir)
      ensures !blocked ==> Valid() && mine == {} && held == h + multiset{ip} && Grown(a, entries, multiset{ip})
    {
      hide Ok, Grown, Room;
      RoomLeft(a, entries, 3);
      ghost var b := entries;
      var dp, name := Namex(p, to, true, tree);
      if dp == -1 {
        GrownMore(a, b, entries, multiset{ip}, multiset{});
        assert multiset{ip} + multiset{} == multiset{ip};
        return false, false;
      }
      RoomLeft(b, entries, 2);
      ghost var c := entries;
      Ilock(dp);
      var r;
      r, blocked := Dirlink(dp, name, tree);
      linked := !blocked && r == 0;
      if blocked {
        return;
      }
      ghost var d := entries;
      IunlockPut(dp);
      LinkedBack(a, b, c, d, entries, h, ip, dp);
    }

    /** sys_unlink, in a tree where only "." and ".." lead from a directory to itself. */
    method SysUnlink(p: nat, path: string, tree: Tree, empty: int -> bool) returns (r: int)
      requires Quiet(p) && Room(entries, 2)
      requires forall d, n :: n != "." && n != ".." && tree.look(d, n) != 0 ==> tree.look(d, n) != d
      modifies this
      ensures Valid() && mine == {} && !inOp && held == old(held) && taken == old(taken)
      ensures files == old(files) && procs == old(procs) && Grown(old(entries), entries, multiset{})
      ensures r == 0 <==> Unlinkable(tree, empty, old(StartOf(p, path)), Elements(path))
      ensures r != 0 ==> r == -1
      ensures Settled(old(Now()), Now())
    {
      hide Ok, Grown, Room;
      ghost var was, a, h := Now(), entries, held;
      BeginOp();
      var dp, name := Namex(p, path, true, tree);
      if dp == -1 {
        EndOp();
        SettledGrown(was, Now(), multiset{});
        return -1;
      }
      RoomLeft(a, entries, 2);
      Ilock(dp);
      if name == "." || name == ".." {
        UnlockPutEnd(dp, a, h);
        SettledGrown(was, Now(), multiset{});
        return -1;
      }
      r := UnlinkIn(dp, name, tree, empty, a, h);
      SettledGrown(was, Now(), multiset{});
    }

    /** The rest of unlink, in the locked directory. */
    method UnlinkIn(dp: int, name: string, tree: Tree, empty: int -> bool, ghost a: seq<Entry>, ghost h: multiset<int>)
      returns (r: int)
      requires Valid() && mine == {dp} && inOp && Room(entries, 1) && held == h + multiset{dp}
      requires Grown(a, entries, multiset{dp})
      requires tree.look(entries[dp].inum, name) != 0 ==> tree.look(entries[dp].inum, name) != entries[dp].inum
      modifies this`entries, this`held, this`mine, this`inOp
      ensures Valid() && mine == {} && !inOp && held == h && Grown(a, entries, multiset{})
      ensures r == 0 <==>
                var there := tree.look(old(entries)[dp].inum, name); there != 0 && (tree.isDir(there) ==> empty(there))
      ensures r != 0 ==> r == -1
    {
      hide Ok, Grown, Room;
      ghost var b := entries;
      HeldAll(Now(), mine);
      var ip := Dirlookup(dp, name, tree);
      if ip == -1 {
        UnlockPutEnd(dp, a, h);
        return -1;
      }
      NotMoved(b, entries, multiset{ip}, dp);
      GrownMore(a, b, entries, multiset{dp}, multiset{ip});
      Ilock(ip);
      if tree.isDir(entries[ip].inum) && !empty(entries[ip].inum) {
        ghost var c := entries;
        IunlockPut(ip);
        GrownDropLast(a, c, entries, h, dp, ip);
        UnlockPutEnd(dp, a, h);
        return -1;
      }
      ghost var c := entries;
      IunlockPut(dp);
      GrownDrop(a, c, entries, h, dp, ip);
      UnlockPutEnd(ip, a, h);
      return 0;
    }

    /** sys_mkdir and sys_mknod. */
    method SysMake(p: nat, path: string, kind: NodeType, tree: Tree, newNum: int) returns (r: int)
      requires Quiet(p) && Room(entries, 2) && !kind.AFile?
      requires newNum != 0 && !tree.isDir(newNum) && forall n :: tree.look(newNum, n) == 0
      modifies this
      ensures Valid() && mine == {} && !inOp && held == old(held) && taken == old(taken)
      ensures files == old(files) && procs == old(procs) && Grown(old(entries), entries, multiset{})
      ensures r == 0 <==> Created(tree, old(StartOf(p, path)), Elements(path), kind, newNum) != 0
      ensures r != 0 ==> r == -1
      ensures Settled(old(Now()), Now())
    {
      hide Ok, Grown, Room;
      ghost var was, a, h := Now(), entries, held;
      BeginOp();
      var ip := Create(p, path, kind, tree, newNum);
      if ip == -1 {
        EndOp();
        r := -1;
      } else {
        UnlockPutEnd(ip, a, h);
        r := 0;
      }
      SettledGrown(was, Now(), multiset{});
    }

    /** What fork does with files and directory: the child's descriptors and current directory are the parent's, with
        references of their own. */
    method ForkFiles(p: nat, child: nat)
      requires Quiet(p) && child < |procs| && child != p && procs[child].cwd == -1
      requires |procs[child].ofile| == |procs[p].ofile|
      requires forall i :: 0 <= i < |procs[child].ofile| ==> procs[child].ofile[i] == -1
      modifies this
      ensures Valid() && mine == {} && !inOp && held == old(held) && taken == old(taken)
      ensures procs == old(procs)[child := old(procs)[p]] && SameInodes(old(entries), entries)
      ensures Settled(old(Now()), Now()) && Quiet(child)
    {
      hide Ok;
      ghost var was := Now();
      CopyFds(p, child);
      WholeForked(old(procs), procs, p, child);
      Inherit(p, child);
      ForkSettles(was, Now(), p, child);
    }

    /** fork's loop. */
    method CopyFds(p: nat, child: nat)
      requires Valid() && p < |procs| && child < |procs| && child != p && |procs[child].ofile| == |procs[p].ofile|
      requires forall i :: 0 <= i < |procs[child].ofile| ==> procs[child].ofile[i] == -1
      modifies this`files, this`taken, this`procs
      ensures Valid() && taken == old(taken) && Forked(old(procs), procs, p, child, |old(procs)[p].ofile|)
    {
      var i := 0;
      while i < |procs[p].ofile|
        invariant 0 <= i <= |old(procs)[p].ofile| && Valid() && taken == old(taken)
        invariant Forked(old(procs), procs, p, child, i)
      {
        ForkFd(p, child, i);
        i := i + 1;
      }
    }

    /** One round of fork's loop. */
    method ForkFd(p: nat, child: nat, i: nat)
      requires Valid() && p < |procs| && child < |procs| && child != p
      requires i < |procs[p].ofile| == |procs[child].ofile| && procs[child].ofile[i] == -1
      modifies this`files, this`taken, this`procs
      ensures Valid() && taken == old(taken)
      ensures procs ==
                old(procs)[child := old(procs)[child].(ofile := old(procs)[child].ofile[i := old(procs)[p].ofile[i]])]
    {
      hide Ok;
      if procs[p].ofile[i] != -1 {
        DupInto(p, child, i, i);
      } else {
        assert procs[child].ofile[i := -1] == procs[child].ofile;
      }
    }

    /** np->cwd = idup(cwd). */
    method Inherit(p: nat, child: nat)
      requires Valid() && p < |procs| && child < |procs| && child != p && 0 <= procs[p].cwd < |entries|
      requires procs[child].cwd == -1
      modifies this`entries, this`held, this`procs
      ensures Valid() && held == old(held) && SameInodes(old(entries), entries)
      ensures procs == old(procs)[child := old(procs)[child].(cwd := old(procs)[p].cwd)]
    {
      hide Ok;
      var ip := procs[p].cwd;
      ghost var h := held;
      CwdInUse(Now(), p);
      Idup(ip);
      CwdSetKeeps(Now(), child, ip);
      GaveBack(h, ip);
      assert h + multiset{} == h;
      procs, held := procs[child := procs[child].(cwd := ip)], h;
    }

    /** One round of exit's loop. */
    method CloseFd(p: nat, fd: nat)
      requires Valid() && mine == {} && !inOp && p < |procs| && fd < |procs[p].ofile|
      modifies this
      ensures Valid() && mine == {} && !inOp && held == old(held) && taken == old(taken)
      ensures SameInodes(old(entries), entries)
      ensures procs == old(procs)[p := old(procs)[p].(ofile := old(procs)[p].ofile[fd := -1])]
      ensures var f := old(procs)[p].ofile[fd];
              f != -1 ==> 0 <= f < |old(files)| && files == old(files)[f := Closed(old(files)[f])]
    {
      hide EntriesCounted, FilesCounted, Unique;
      var f := procs[p].ofile[fd];
      if f != -1 {
        FdSetKeeps(Now(), p, fd, -1);
        assert taken - multiset{} + multiset{f} == taken + multiset{f};
        procs, taken := procs[p := procs[p].(ofile := procs[p].ofile[fd := -1])], taken + multiset{f};
        FileClose(f);
        GaveBack(old(taken), f);
      } else {
        assert procs[p].ofile[fd := -1] == procs[p].ofile;
      }
    }

    /** iput(cwd) in exit. */
    method DropCwd(p: nat)
      requires Valid() && mine == {} && inOp && p < |procs| && 0 <= procs[p].cwd < |entries|
      modifies this`procs, this`held, this`entries
      ensures Valid() && procs == old(procs)[p := old(procs)[p].(cwd := -1)] && held == old(held)
      ensures SameInodes(old(entries), entries)
    {
      hide Ok;
      var was := procs[p].cwd;
      CwdSetKeeps(Now(), p, -1);
      assert held - multiset{} + multiset{was} == held + multiset{was};
      procs, held := procs[p := procs[p].(cwd := -1)], held + multiset{was};
      Iput(was);
      GaveBack(old(held), was);
    }

    /** What exit does with files and directory: all go. */
    method ExitFiles(p: nat)
      requires Quiet(p)
      modifies this
      ensures Valid() && mine == {} && !inOp && held == old(held) && taken == old(taken)
      ensures |procs| == |old(procs)| && procs == old(procs)[p := procs[p]] && procs[p].cwd == -1
      ensures |procs[p].ofile| == |old(procs)[p].ofile|
      ensures forall i :: 0 <= i < |procs[p].ofile| ==> procs[p].ofile[i] == -1
      ensures SameInodes(old(entries), entries) && Settled(old(Now()), Now())
    {
      hide Ok;
      ghost var was := Now();
      CloseAll(p);
      BeginOp();
      DropCwd(p);
      EndOp();
      ExitSettles(was, Now(), p);
    }

    /** exit's loop. */
    method CloseAll(p: nat)
      requires Valid() && mine == {} && !inOp && p < |procs|
      modifies this
      ensures Valid() && mine == {} && !inOp && held == old(held) && taken == old(taken)
      ensures SameInodes(old(entries), entries)
      ensures |procs| == |old(procs)| && procs == old(procs)[p := procs[p]] && procs[p].cwd == old(procs)[p].cwd
      ensures |procs[p].ofile| == |old(procs)[p].ofile|
      ensures forall i :: 0 <= i < |procs[p].ofile| ==> procs[p].ofile[i] == -1
    {
      var fd := 0;
      while fd < |procs[p].ofile|
        invariant Valid() && mine == {} && !inOp && held == old(held) && taken == old(taken)
        invariant SameInodes(old(entries), entries)
        invariant |procs| == |old(procs)| && procs == old(procs)[p := procs[p]] && procs[p].cwd == old(procs)[p].cwd
        invariant 0 <= fd <= |procs[p].ofile| == |old(procs)[p].ofile|
        invariant forall i :: 0 <= i < fd ==> procs[p].ofile[i] == -1
      {
        CloseFd(p, fd);
        fd := fd + 1;
      }
    }

    /** The requests that name a path. */
    method ServePath(req: Request) returns (stuck: bool, r: int)
      requires AllQuiet() && SameSize(procs) && Room(entries, 3) && Fair(req) && Lives(Now(), req.p)
      requires req.Open? || req.Chdir? || req.Link? || req.Unlink? || req.Make?
      modifies this
      ensures stuck <==> req.Link? && LinkTo(
                req.tree, old(StartOf(req.p, req.path)), old(StartOf(req.p, req.other)), req.path, req.other) == Self
      ensures !stuck ==> AllQuiet() && SameSize(procs) && held == old(held) && taken == old(taken)
      ensures !stuck ==> Settled(old(Now()), Now()) && Served(old(Now()), Now(), req, r)
    {
      hide Ok, Grown, Room, HasOpened, Kept, Opened, Created, Unlinkable, LinkTo, Walk, NoFreeFile, NoFreeFd;
      stuck := false;
      RoomLess(entries, 3);
      match req
      case Open(p, path, create, rdonly, tree, newNum) =>
        ghost var ip;
        r, ip := SysOpen(p, path, create, rdonly, tree, newNum);
      case Chdir(p, path, tree) =>
        r := SysChdir(p, path, tree);
      case Link(p, from, to, tree) =>
        var links;
        r, stuck, links := SysLink(p, from, to, tree);
      case Unlink(p, path, tree, empty) =>
        r := SysUnlink(p, path, tree, empty);
      case Make(p, path, kind, tree, newNum) =>
        r := SysMake(p, path, kind, tree, newNum);
    }

    /** The others. */
    method ServeTables(req: Request) returns (r: int)
      requires AllQuiet() && SameSize(procs) && Lives(Now(), req.p)
      requires req.Close? || req.Dup? || req.Fork? || req.Exit?
      modifies this
      ensures AllQuiet() && SameSize(procs) && held == old(held) && taken == old(taken)
      ensures Settled(old(Now()), Now()) && Served(old(Now()), Now(), req, r)
    {
      hide Ok, Grown, Kept;
      SettledSelf(Now());
      r := -1;
      match req
      case Close(p, fd) =>
        r := SysClose(p, fd);
      case Dup(p, fd) =>
        r := SysDup(p, fd);
      case Fork(p, child) =>
        if child < |procs| && child != p && Unborn(procs[child]) {
          ForkFiles(p, child);
          r := 0;
        }
      case Exit(p) =>
        ExitFiles(p);
        r := 0;
    }

    /** One request; a process without a current directory is not running and makes none.  A link that waits for
        its own lock never comes back. */
    method Serve(req: Request) returns (stuck: bool, r: int)
      requires AllQuiet() && SameSize(procs) && Room(entries, 3) && Fair(req)
      modifies this
      ensures stuck <==> req.Link? && old(Lives(Now(), req.p)) && LinkTo(
                req.tree, old(StartOf(req.p, req.path)), old(StartOf(req.p, req.other)), req.path, req.other) == Self
      ensures !stuck ==> AllQuiet() && SameSize(procs) && held == old(held) && taken == old(taken)
      ensures !stuck ==> Kept(old(entries), entries) && |procs| == |old(procs)|
      ensures !stuck ==> Served(old(Now()), Now(), req, r)
    {
      hide Ok, Room, Kept, LinkTo;
      stuck, r := false, -1;
      SettledSelf(Now());
      if !(0 <= req.p < |procs|) || procs[req.p].cwd == -1 {
        assert !Lives(Now(), req.p);
        return;
      }
      assert Lives(Now(), req.p);
      if req.Close? || req.Dup? || req.Fork? || req.Exit? {
        r := ServeTables(req);
      } else {
        stuck, r := ServePath(req);
      }
    }

    /** Any sequence of requests by any processes: every request but a last one that gets stuck is answered, and
        `states` are the tables between them, each related to the next as the call promises.  Every count stays
        exact, running code is left holding what it held before, and every entry in use throughout a request keeps
        its inode.  The sequence ends early only when the inode cache could run out or a link waits for its own
        lock. */
    method ServeAll(reqs: seq<Request>)
      returns (done: nat, stuck: bool, replies: seq<int>, ghost states: seq<Refs>)
      requires AllQuiet() && SameSize(procs) && forall i :: 0 <= i < |reqs| ==> Fair(reqs[i])
      modifies this
      ensures done == |replies| <= |reqs| && (done < |reqs| && !stuck ==> !Room(entries, 3))
      ensures stuck ==> done < |reqs| && reqs[done].Link?
      ensures Answered(old(Now()), states, reqs, replies) && (!stuck ==> states[done] == Now())
      ensures !stuck ==> AllQuiet() && SameSize(procs) && held == old(held) && taken == old(taken)
      ensures !stuck ==> |procs| == |old(procs)| && |entries| == |old(entries)|
    {
      hide Served, Ok, Fair;
      done, stuck, replies, states := 0, false, [], [Now()];
      while done < |reqs|
        invariant 0 <= done == |replies| <= |reqs| && !stuck
        invariant AllQuiet() && SameSize(procs) && held == old(held) && taken == old(taken)
        invariant |procs| == |old(procs)| && |entries| == |old(entries)|
        invariant Answered(old(Now()), states, reqs, replies) && states[done] == Now()
      {
        if !Room(entries, 3) {
          return;
        }
        ghost var before := Now();
        var r;
        stuck, r := Serve(reqs[done]);
        if stuck {
          return;
        }
        AnsweredMore(old(Now()), states, reqs, replies, r, Now());
        done, replies, states := done + 1, replies + [r], states + [Now()];
      }
    }
  }

  /** What request req, answered with r, makes of the tables; requests of processes that do not run change nothing. */
  ghost predicate Served(a: Refs, b: Refs, req: Request, r: int) {
    if !Lives(a, req.p) then b == a && r == -1
    else
      var q, here := a.procs[req.p], a.entries[a.procs[req.p].cwd].inum;
      match req
      case Open(p, path, create, rdonly, tree, newNum) =>
        var ip := Opened(tree, StartFrom(here, path), Elements(path), create, rdonly, newNum);
        if ip == 0 || NoFreeFile(a.files) || NoFreeFd(q) then r == -1 && b.procs == a.procs && b.files == a.files
        else exists s :: 0 <= s < |b.entries| && b.entries[s].inum == ip
                         && HasOpened(a.files, a.procs, b.files, b.procs, p, r, s)
      case Close(p, fd) =>
        if 0 <= fd < |q.ofile| && 0 <= q.ofile[fd] < |a.files| then
          && r == 0 && b.procs == a.procs[p := q.(ofile := q.ofile[fd := -1])]
          && b.files == a.files[q.ofile[fd] := Closed(a.files[q.ofile[fd]])]
        else r == -1 && b == a
      case Dup(p, fd) =>
        if 0 <= fd < |q.ofile| && 0 <= q.ofile[fd] < |a.files| && !NoFreeFd(q) then
          && LowestFd(q, r) && b.procs == a.procs[p := q.(ofile := q.ofile[r := q.ofile[fd]])]
          && b.files == a.files[q.ofile[fd] := a.files[q.ofile[fd]].(ref := a.files[q.ofile[fd]].ref + 1)]
        else r == -1 && b == a
      case Chdir(p, path, tree) =>
        var dest := Named(tree, here, path);
        if dest != 0 && tree.isDir(dest) then
          && r == 0 && Lives(b, p) && b.entries[b.procs[p].cwd].inum == dest && b.files == a.files
          && b.procs == a.procs[p := q.(cwd := b.procs[p].cwd)]
        else r == -1 && b.procs == a.procs && b.files == a.files
      case Link(p, from, to, tree) =>
        && b.procs == a.procs && b.files == a.files
        && r == if LinkTo(tree, StartFrom(here, from), StartFrom(here, to), from, to) == Done then 0 else -1
      case Unlink(p, path, tree, empty) =>
        && b.procs == a.procs && b.files == a.files
        && r == if Unlinkable(tree, empty, StartFrom(here, path), Elements(path)) then 0 else -1
      case Make(p, path, kind, tree, newNum) =>
        && b.procs == a.procs && b.files == a.files
        && r == if Created(tree, StartFrom(here, path), Elements(path), kind, newNum) != 0 then 0 else -1
      case Fork(p, child) =>
        if child < |a.procs| && child != p && Unborn(a.procs[child]) then
          r == 0 && b.procs == a.procs[child := q]
        else r == -1 && b == a
      case Exit(p) =>
        r == 0 && p < |b.procs| && Unborn(b.procs[p]) && b.procs == a.procs[p := b.procs[p]]
  }

  /** The states begin with `first`, and each request with its reply leads from one to the next. */
  ghost predicate Answered(first: Refs, states: seq<Refs>, reqs: seq<Request>, replies: seq<int>) {
    && |states| == |replies| + 1 <= |reqs| + 1 && states[0] == first
    && forall i :: 0 <= i < |replies| ==> Served(states[i], states[i + 1], reqs[i], replies[i])
  }

  lemma AnsweredMore(first: Refs, states: seq<Refs>, reqs: seq<Request>, replies: seq<int>, r: int, last: Refs)
    requires Answered(first, states, reqs, replies) && |replies| < |reqs|
    requires Served(states[|replies|], last, reqs[|replies|], r)
    ensures Answered(first, states + [last], reqs, replies + [r])
  {
    hide Served;
  }

  /** Every count is the number of references that open files, current directories and descriptors hold. */
  ghost predicate CountsExact(entries: seq<Entry>, files: seq<File>, procs: seq<Proc>) {
    && (forall s :: 0 <= s < |entries| ==> entries[s].ref == FileRefs(files, s) + CwdRefs(procs, s))
    && (forall f :: 0 <= f < |files| ==> files[f].ref == FdRefs(procs, f))
  }

  lemma NothingHeld(r: Refs)
    requires Ok(r) && r.held == multiset{} && r.taken == multiset{}
    ensures CountsExact(r.entries, r.files, r.procs) && Unique(r.entries)
  {
  }

  /** From an empty system, with the first process booted, no sequence of requests leaves a reference that is not
      an open file's, a current directory's or a descriptor's, or an inode with two entries in use. */
  method RunFromBoot(ninode: nat, nfile: nat, nproc: nat, nofile: nat, reqs: seq<Request>)
    returns (v: Vfs, done: nat, stuck: bool, replies: seq<int>)
    requires ninode > 0 && nproc > 0 && forall i :: 0 <= i < |reqs| ==> Fair(reqs[i])
    ensures fresh(v) && done == |replies| <= |reqs| && (done < |reqs| && !stuck ==> !Room(v.entries, 3))
    ensures stuck ==> done < |reqs| && reqs[done].Link?
    ensures !stuck ==> |v.entries| == ninode && Unique(v.entries) && CountsExact(v.entries, v.files, v.procs)
  {
    hide Ok, CountsExact, Fair, InUse, Unique;
    v := new Vfs(ninode, nfile, nproc, nofile);
    v.Boot(0);
    ghost var states;
    done, stuck, replies, states := v.ServeAll(reqs);
    if !stuck {
      NothingHeld(v.Now());
    }
  }

  /** A system call with what its caller passes and what the file system answers it. */
  datatype Request =
    | Open(p: nat, path: string, create: bool, rdonly: bool, tree: Tree, newNum: int)
    | Close(p: nat, fd: int)
    | Dup(p: nat, fd: int)
    | Chdir(p: nat, path: string, tree: Tree)
    | Link(p: nat, path: string, other: string, tree: Tree)
    | Unlink(p: nat, path: string, tree: Tree, empty: int -> bool)
    | Make(p: nat, path: string, kind: NodeType, tree: Tree, newNum: int)
    | Fork(p: nat, child: nat)
    | Exit(p: nat)

  /** What the file system answers makes sense: a new inode is empty and has a number, and only "." and ".." lead
      from a directory to itself. */
  ghost predicate Fair(req: Request) {
    match req
    case Open(_, _, _, _, tree, newNum) =>
      newNum != 0 && !tree.isDir(newNum) && forall n :: tree.look(newNum, n) == 0
    case Make(_, _, kind, tree, newNum) =>
      !kind.AFile? && newNum != 0 && !tree.isDir(newNum) && forall n :: tree.look(newNum, n) == 0
    case Unlink(_, _, tree, _) =>
      forall d, n :: n != "." && n != ".." && tree.look(d, n) != 0 ==> tree.look(d, n) != d
    case _ => true
  }

  /** A process slot that is free for fork. */
  predicate Unborn(q: Proc) {
    q.cwd == -1 && forall i :: 0 <= i < |q.ofile| ==> q.ofile[i] == -1
  }

  /** Every process has as many descriptors. */
  predicate SameSize(procs: seq<Proc>) {
    forall p, q :: 0 <= p < q < |procs| ==> |procs[p].ofile| == |procs[q].ofile|
  }

  predicate NoFreeFile(files: seq<File>) {
    forall i :: 0 <= i < |files| ==> files[i].ref > 0
  }

  predicate NoFreeFd(q: Proc) {
    forall i :: 0 <= i < |q.ofile| ==> q.ofile[i] != -1
  }

  /** fd is the lowest descriptor that is not in use. */
  predicate LowestFd(q: Proc, fd: int) {
    0 <= fd < |q.ofile| && q.ofile[fd] == -1 && forall i :: 0 <= i < fd ==> q.ofile[i] != -1
  }

  // What a call leaves of the tables

  /** Entries that are in use before and after stand for the same inode. */
  ghost predicate Kept(a: seq<Entry>, b: seq<Entry>) {
    |b| == |a| && forall s :: 0 <= s < |a| && a[s].ref > 0 && b[s].ref > 0 ==> b[s].inum == a[s].inum
  }

  ghost predicate SameInodes(a: seq<Entry>, b: seq<Entry>) {
    |b| == |a| && forall s :: 0 <= s < |a| ==> b[s].inum == a[s].inum
  }

  /** Process q has a current directory that stands for an inode. */
  predicate Lives(r: Refs, q: nat) {
    q < |r.procs| && 0 <= r.procs[q].cwd < |r.entries| && r.entries[r.procs[q].cwd].inum != 0
  }

  predicate AllLive(r: Refs) {
    forall q :: 0 <= q < |r.procs| && r.procs[q].cwd != -1 ==> Lives(r, q)
  }

  /** From a to b: entries in use keep their inode, every process keeps its number of descriptors, and whoever could
      go on can go on unless it has exited. */
  ghost predicate Settled(a: Refs, b: Refs) {
    && Kept(a.entries, b.entries) && |b.procs| == |a.procs|
    && (forall q :: 0 <= q < |a.procs| ==> |b.procs[q].ofile| == |a.procs[q].ofile|)
    && (forall q :: 0 <= q < |a.procs| && Lives(a, q) && b.procs[q].cwd != -1 ==> Lives(b, q))
    && (AllLive(a) ==> AllLive(b))
  }

  lemma CwdKept(a: Refs, b: Refs, q: nat)
    requires Ok(a) && Ok(b) && Kept(a.entries, b.entries) && Lives(a, q)
    requires q < |b.procs| && b.procs[q].cwd == a.procs[q].cwd
    ensures Lives(b, q)
  {
    hide Ok;
    CwdInUse(a, q);
    CwdInUse(b, q);
  }

  /** Nobody's current directory has changed, except that p may have lost its own. */
  lemma KeptSettles(a: Refs, b: Refs, p: int)
    requires Ok(a) && Ok(b) && Kept(a.entries, b.entries) && |b.procs| == |a.procs|
    requires forall q :: 0 <= q < |a.procs| ==> |b.procs[q].ofile| == |a.procs[q].ofile|
    requires forall q :: 0 <= q < |a.procs| ==> b.procs[q].cwd == a.procs[q].cwd || (q == p && b.procs[q].cwd == -1)
    ensures Settled(a, b)
  {
    hide Ok, Kept, Lives;
    forall q | 0 <= q < |a.procs| && Lives(a, q) && b.procs[q].cwd != -1 ensures Lives(b, q) {
      CwdKept(a, b, q);
    }
  }

  lemma GrownKept(a: seq<Entry>, b: seq<Entry>, x: multiset<int>)
    requires Grown(a, b, x)
    ensures Kept(a, b)
  {
  }

  lemma SettledGrown(a: Refs, b: Refs, x: multiset<int>)
    requires Ok(a) && Ok(b) && Grown(a.entries, b.entries, x) && b.procs == a.procs
    ensures Settled(a, b)
  {
    hide Ok, Grown, Settled;
    GrownKept(a.entries, b.entries, x);
    KeptSettles(a, b, -1);
  }

  lemma SettledSelf(a: Refs)
    requires Ok(a)
    ensures Settled(a, a)
  {
    hide Ok;
    SettledSame(a, a);
  }

  lemma SettledSame(a: Refs, b: Refs)
    requires Ok(a) && Ok(b) && SameInodes(a.entries, b.entries) && |b.procs| == |a.procs|
    requires forall q :: 0 <= q < |a.procs| ==>
               b.procs[q].cwd == a.procs[q].cwd && |b.procs[q].ofile| == |a.procs[q].ofile|
    ensures Settled(a, b)
  {
    hide Ok, Settled;
    KeptSettles(a, b, -1);
  }

  lemma OpenedSettles(a: Refs, b: Refs, p: nat, fd: int, ip: int)
    requires Ok(a) && Ok(b) && Grown(a.entries, b.entries, multiset{ip})
    requires HasOpened(a.files, a.procs, b.files, b.procs, p, fd, ip)
    ensures Settled(a, b)
  {
    hide Ok, Grown, Settled;
    GrownKept(a.entries, b.entries, multiset{ip});
    KeptSettles(a, b, -1);
  }

  lemma ExitSettles(a: Refs, b: Refs, p: nat)
    requires Ok(a) && Ok(b) && SameInodes(a.entries, b.entries) && p < |a.procs| == |b.procs|
    requires b.procs == a.procs[p := b.procs[p]] && b.procs[p].cwd == -1
    requires |b.procs[p].ofile| == |a.procs[p].ofile|
    ensures Settled(a, b)
  {
    hide Ok, Settled;
    KeptSettles(a, b, p);
  }

  /** p's current directory has become entry ip, which stands for an inode; nobody else's has changed. */
  lemma MovedSettles(a: Refs, b: Refs, p: nat)
    requires Ok(a) && Ok(b) && Kept(a.entries, b.entries) && p < |a.procs| == |b.procs| && Lives(b, p)
    requires forall q :: 0 <= q < |a.procs| ==> |b.procs[q].ofile| == |a.procs[q].ofile|
    requires forall q :: 0 <= q < |a.procs| && q != p ==> b.procs[q].cwd == a.procs[q].cwd
    ensures Settled(a, b)
  {
    hide Ok, Kept, Lives;
    forall q | 0 <= q < |a.procs| && Lives(a, q) && b.procs[q].cwd != -1 ensures Lives(b, q) {
      if q != p {
        CwdKept(a, b, q);
      }
    }
  }

  lemma ChdirSettles(a: Refs, mid: seq<Entry>, b: Refs, p: nat, ip: int, was: int)
    requires Ok(a) && Ok(b) && Grown(a.entries, mid, multiset{ip}) && Shrunk(mid, b.entries, was) && p < |a.procs|
    requires b.procs == a.procs[p := a.procs[p].(cwd := ip)] && 0 <= ip < |mid| && mid[ip].inum != 0
    ensures Settled(a, b)
  {
    hide Ok, Settled;
    assert Kept(a.entries, b.entries);
    MovedSettles(a, b, p);
  }

  lemma BootSettles(a: Refs, b: Refs, p: nat, ip: int)
    requires Ok(a) && Ok(b) && Grown(a.entries, b.entries, multiset{ip}) && p < |a.procs|
    requires b.procs == a.procs[p := a.procs[p].(cwd := ip)] && 0 <= ip < |b.entries| && b.entries[ip].inum != 0
    ensures Settled(a, b) && Lives(b, p)
  {
    hide Ok, Settled;
    GrownKept(a.entries, b.entries, multiset{ip});
    MovedSettles(a, b, p);
  }

  lemma ForkSettles(a: Refs, b: Refs, p: nat, child: nat)
    requires Ok(a) && Ok(b) && SameInodes(a.entries, b.entries) && Lives(a, p) && child < |a.procs| && child != p
    requires b.procs == a.procs[child := a.procs[p]] && |a.procs[child].ofile| == |a.procs[p].ofile|
    ensures Settled(a, b) && Lives(b, child)
  {
    hide Ok, Settled;
    MovedSettles(a, b, child);
  }

  /** The first i descriptors have been copied. */
  ghost predicate Forked(a: seq<Proc>, b: seq<Proc>, p: nat, child: nat, i: nat) {
    && |a| == |b| && p < |a| && child < |a| && p != child && |a[child].ofile| == |a[p].ofile|
    && i <= |a[p].ofile| == |b[child].ofile|
    && (forall q :: 0 <= q < |a| && q != child ==> b[q] == a[q]) && b[child].cwd == a[child].cwd
    && (forall j :: 0 <= j < |b[child].ofile| ==>
          b[child].ofile[j] == if j < i then a[p].ofile[j] else a[child].ofile[j])
  }

  lemma WholeForked(a: seq<Proc>, b: seq<Proc>, p: nat, child: nat)
    requires p < |a| && Forked(a, b, p, child, |a[p].ofile|)
    ensures b[child := b[child].(cwd := a[p].cwd)] == a[child := a[p]]
  {
    assert b[child].ofile == a[p].ofile;
  }

  /** Descriptor fd of process p, free before, is a file that refers to entry ip; nothing else has changed. */
  ghost predicate HasOpened(files: seq<File>, procs: seq<Proc>, files': seq<File>, procs': seq<Proc>, p: nat, fd: int,
                            ip: int) {
    && p < |procs| && LowestFd(procs[p], fd)
    && exists f :: 0 <= f < |files| && files[f].ref == 0 && files' == files[f := File(1, InodeKind, ip)]
                   && procs' == procs[p := procs[p].(ofile := procs[p].ofile[fd := f])]
  }

  /** The inode that create comes up with, 0 for none. */
  function Created(tree: Tree, start: int, names: seq<string>, kind: NodeType, newNum: int): int {
    var dir := WalkParent(tree, start, names);
    if dir == 0 || names == [] then 0
    else
      var there := tree.look(dir, names[|names| - 1]);
      if there == 0 then newNum else if kind.AFile? && tree.isFile(there) then there else 0
  }

  /** A file with one reference less. */
  function Closed(f: File): File {
    if f.ref > 1 then f.(ref := f.ref - 1) else f.(ref := 0, kind := NoKind)
  }

  /** The inode that open comes up with, 0 for none. */
  function Opened(tree: Tree, start: int, names: seq<string>, create: bool, rdonly: bool, newNum: int): int {
    if create then Created(tree, start, names, AFile, newNum)
    else
      var there := Walk(tree, start, names);
      if there != 0 && tree.isDir(there) && !rdonly then 0 else there
  }

  ghost predicate Unlinkable(tree: Tree, empty: int -> bool, start: int, names: seq<string>) {
    var dir := WalkParent(tree, start, names);
    && dir != 0 && names != [] && names[|names| - 1] != "." && names[|names| - 1] != ".."
    && var there := tree.look(dir, names[|names| - 1]);
       there != 0 && (tree.isDir(there) ==> empty(there))
  }

  lemma NotMoved(a: seq<Entry>, b: seq<Entry>, x: multiset<int>, s: int)
    requires Grown(a, b, x) && 0 <= s < |a| && a[s].ref > 0
    ensures |b| == |a| && b[s].inum == a[s].inum
  {
  }

  lemma GrownDropLast(a: seq<Entry>, b: seq<Entry>, c: seq<Entry>, h: multiset<int>, x: int, y: int)
    requires Grown(a, b, multiset{x} + multiset{y}) && Shrunk(b, c, y)
    ensures Grown(a, c, multiset{x}) && h + multiset{x} + multiset{y} - multiset{y} == h + multiset{x}
  {
  }

  /** How linking ends: the name is entered, it cannot be, or it stands for its own directory. */
  datatype Outcome = Done | Fails | Self

  function LinkTo(tree: Tree, start: int, start2: int, from: string, to: string): Outcome {
    var file, names := Walk(tree, start, Elements(from)), Elements(to);
    var dir := WalkParent(tree, start2, names);
    if file == 0 || tree.isDir(file) || dir == 0 || names == [] then Fails
    else
      var there := tree.look(dir, names[|names| - 1]);
      if there == 0 then Done else if there == dir then Self else Fails
  }

  /** Linking a file to the name "." or ".." of a directory that the name leads back to waits for ever, for every
      file and every such directory. */
  lemma LinkToSelf(tree: Tree, start: int, start2: int, from: string, to: string, name: string)
    requires name == "." || name == ".."
    requires var file := Walk(tree, start, Elements(from)); file != 0 && !tree.isDir(file)
    requires var dir := Walk(tree, start2, Elements(to)); dir != 0 && tree.isDir(dir) && tree.look(dir, name) == dir
    ensures LinkTo(tree, start, start2, from, to + "/" + name) == Self
  {
    OneElementMore(tree, start2, to, name);
  }

  /** For instance link("f", "d/."), and link("f", "/..") at the root, which is its own parent. */
  lemma LinkToDot(tree: Tree, at: int, f: int, d: int)
    requires tree.isDir(at) && tree.look(at, "f") == f != 0 && !tree.isDir(f)
    requires tree.look(at, "d") == d != 0 && tree.isDir(d) && tree.look(d, ".") == d
    requires at == ROOTINO && tree.look(at, "..") == at
    ensures LinkTo(tree, at, at, "f", "d/.") == Self && LinkTo(tree, at, at, "f", "/..") == Self
  {
    OneName("f");
    OneName("d");
    NoElements();
    assert Walk(tree, f, ["f"][1..]) == f && Walk(tree, d, ["d"][1..]) == d;
    LinkToSelf(tree, at, at, "f", "d", ".");
    LinkToSelf(tree, at, at, "f", "", "..");
    assert "d" + "/" + "." == "d/." && "" + "/" + ".." == "/..";
  }

  lemma OneName(name: string)
    requires 0 < |name| < DIRSIZ && NoSlash(name)
    ensures Elements(name) == [name]
  {
    ReadElement([], name, []);
    assert name + [] == name && [] + name == name;
  }

  lemma LinkedBack(a: seq<Entry>, b: seq<Entry>, c: seq<Entry>, d: seq<Entry>, e: seq<Entry>, h: multiset<int>,
                   ip: int, dp: int)
    requires Grown(a, b, multiset{ip}) && Grown(b, c, multiset{dp}) && Grown(c, d, multiset{}) && Shrunk(d, e, dp)
    ensures Grown(a, e, multiset{ip}) && h + multiset{ip} + multiset{dp} - multiset{dp} == h + multiset{ip}
  {
  }

  lemma CwdStays(r: Refs, p: nat, b: seq<Entry>, x: multiset<int>)
    requires Ok(r) && p < |r.procs| && 0 <= r.procs[p].cwd < |r.entries| && Grown(r.entries, b, x)
    ensures |b| == |r.entries| && b[r.procs[p].cwd].inum == r.entries[r.procs[p].cwd].inum
  {
    CwdInUse(r, p);
  }

  lemma FdInUse(r: Refs, p: nat, fd: nat)
    requires Ok(r) && p < |r.procs| && fd < |r.procs[p].ofile| && r.procs[p].ofile[fd] != -1
    ensures var f := r.procs[p].ofile[fd]; 0 <= f < |r.files| && r.files[f].ref > 0
  {
    FdCounted(r.procs, p, fd);
  }

  lemma {:induction false} FdCounted(procs: seq<Proc>, p: nat, fd: nat)
    requires p < |procs| && fd < |procs[p].ofile|
    ensures FdRefs(procs, procs[p].ofile[fd]) > 0
  {
    if p > 0 {
      FdCounted(procs[1..], p - 1, fd);
    } else {
      Occurs(procs[0].ofile, fd);
    }
  }

  lemma {:induction false} Occurs(xs: seq<int>, i: nat)
    requires i < |xs|
    ensures Occurrences(xs, xs[i]) > 0
  {
    if i > 0 {
      Occurs(xs[1..], i - 1);
    }
  }

  lemma Exchange(h: multiset<int>, s: int, t: int)
    ensures h + multiset{s} - multiset{s} + multiset{t} == h + multiset{t}
    ensures h + multiset{t} - multiset{t} == h && t in h + multiset{t} && s in h + multiset{s}
  {
  }

  lemma GaveBack(h: multiset<int>, s: int)
    ensures h + multiset{s} - multiset{s} == h
  {
  }

  lemma FilesNotNegative(r: Refs)
    requires Ok(r)
    ensures forall f :: 0 <= f < |r.files| ==> r.files[f].ref >= 0
  {
  }

  lemma TakenInUse(r: Refs, f: int)
    requires Ok(r) && 0 <= f < |r.files| && f in r.taken
    ensures r.files[f].ref > 0 && (r.files[f].kind.InodeKind? ==> 0 <= r.files[f].ip < |r.entries|)
  {
    hide Unique, EntriesCounted;
  }

  lemma GrownNone(a: seq<Entry>)
    ensures Grown(a, a, multiset{})
  {
  }

  lemma GrownDrop(a: seq<Entry>, b: seq<Entry>, c: seq<Entry>, h: multiset<int>, x: int, y: int)
    requires Grown(a, b, multiset{x} + multiset{y}) && Shrunk(b, c, x)
    ensures Grown(a, c, multiset{y}) && h + multiset{x} + multiset{y} - multiset{x} == h + multiset{y}
  {
  }

  lemma HeldAll(r: Refs, mine: set<int>)
    requires Ok(r) && forall s :: s in mine ==> s in r.held
    ensures forall s :: s in mine ==> 0 <= s < |r.entries| && r.entries[s].ref > 0
  {
    forall s | s in mine ensures 0 <= s < |r.entries| && r.entries[s].ref > 0 {
      HeldInUse(r, s);
    }
  }

  /** An entry just obtained is one of the locked ones just when it stands for the same inode. */
  lemma LockedOrNot(r: Refs, mine: set<int>, ip: int)
    requires Ok(r) && ip in r.held && forall s :: s in mine ==> s in r.held
    ensures 0 <= ip < |r.entries| && forall s :: s in mine ==> 0 <= s < |r.entries|
    ensures ip in mine <==> exists s :: s in mine && r.entries[s].inum == r.entries[ip].inum
  {
    HeldInUse(r, ip);
    forall s | s in mine ensures r.entries[s].inum == r.entries[ip].inum <==> s == ip {
      HeldInUse(r, s);
    }
  }

  /** What is left of a walk leads where the whole walk does. */
  ghost predicate Ahead(tree: Tree, parent: bool, start: int, names: seq<string>, at: int, left: seq<string>) {
    if parent then
      && WalkParent(tree, start, names) == WalkParent(tree, at, left) && (names != [] <==> left != [])
      && (left != [] ==> names[|names| - 1] == left[|left| - 1])
    else Walk(tree, start, names) == Walk(tree, at, left)
  }

  /** Where a walk leads, 0 for nowhere. */
  function Dest(tree: Tree, parent: bool, start: int, names: seq<string>): int {
    if parent then WalkParent(tree, start, names) else Walk(tree, start, names)
  }

  lemma AheadStart(tree: Tree, parent: bool, start: int, names: seq<string>)
    ensures Ahead(tree, parent, start, names, start, names)
  {
  }

  lemma AheadEnd(tree: Tree, parent: bool, start: int, names: seq<string>, at: int)
    ensures Ahead(tree, parent, start, names, at, []) ==> Dest(tree, parent, start, names) == if parent then 0 else at
  {
  }

  lemma AheadCases(tree: Tree, parent: bool, start: int, names: seq<string>, at: int, name: string, rest: seq<string>)
    requires Ahead(tree, parent, start, names, at, [name] + rest) && at != 0
    ensures parent && rest == [] && tree.isDir(at) ==>
              Dest(tree, parent, start, names) == at && names != [] && name == names[|names| - 1]
    ensures !tree.isDir(at) || (tree.look(at, name) == 0 && !(parent && rest == [])) ==>
              Dest(tree, parent, start, names) == 0
    ensures tree.isDir(at) && tree.look(at, name) != 0 && !(parent && rest == []) ==>
              Ahead(tree, parent, start, names, tree.look(at, name), rest)
  {
    var left := [name] + rest;
    assert left[1..] == rest;
    if rest != [] {
      assert left[..|left| - 1][1..] == rest[..|rest| - 1] && left[..|left| - 1][0] == name;
    } else {
      assert left[..0] == [];
    }
  }

  lemma RoomLess(entries: seq<Entry>, n: nat)
    requires Room(entries, n) && n > 0
    ensures Room(entries, n - 1)
  {
  }

  lemma CwdInUse(r: Refs, p: nat)
    requires Ok(r) && p < |r.procs| && 0 <= r.procs[p].cwd < |r.entries|
    ensures r.entries[r.procs[p].cwd].ref > 0
  {
    CwdCounted(r.procs, p);
    HeldInUse(r, r.procs[p].cwd);
  }

  lemma {:induction false} CwdCounted(procs: seq<Proc>, p: nat)
    requires p < |procs|
    ensures CwdRefs(procs, procs[p].cwd) > 0
  {
    if p > 0 {
      CwdCounted(procs[1..], p - 1);
    }
  }

  /** One reference to entry s less. */
  ghost predicate Shrunk(a: seq<Entry>, b: seq<Entry>, s: int) {
    0 <= s < |a| && b == a[s := a[s].(ref := a[s].ref - 1)]
  }

  lemma GrownMore(a: seq<Entry>, b: seq<Entry>, c: seq<Entry>, x: multiset<int>, y: multiset<int>)
    requires Grown(a, b, x) && Grown(b, c, y)
    ensures Grown(a, c, x + y)
  {
  }

  lemma GrownBack(a: seq<Entry>, b: seq<Entry>, c: seq<Entry>, h: multiset<int>, s: int)
    requires Grown(a, b, multiset{s}) && Shrunk(b, c, s)
    ensures Grown(a, c, multiset{}) && h + multiset{s} - multiset{s} == h
  {
  }

  lemma HeldThere(r: Refs, s: int)
    requires Ok(r) && s in r.held
    ensures 0 <= s < |r.entries|
  {
  }

  lemma NotNegative(r: Refs)
    requires Ok(r)
    ensures forall s :: 0 <= s < |r.entries| ==> r.entries[s].ref >= 0
  {
  }
}
