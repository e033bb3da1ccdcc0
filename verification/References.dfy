/** Who refers to inode cache entries and to open files: the counting behind v3/fs.c, v3/file.c and
    v3/sysfile.c. */
module References {
  datatype Kind = NoKind | PipeKind | InodeKind

  /** struct file; ip is a slot of the inode cache. */
  datatype File = File(ref: int, kind: Kind, ip: int)

  /** cwd is a slot of the inode cache, -1 if there is none; ofile holds slots of the file table, -1 for free. */
  datatype Proc = Proc(cwd: int, ofile: seq<int>)

  /** An entry of the inode cache. */
  datatype Entry = Entry(inum: int, ref: int)

  function OfFile(f: File, s: int): nat {
    if f.ref > 0 && f.kind.InodeKind? && f.ip == s then 1 else 0
  }

  /** How many open files refer to entry s. */
  function FileRefs(files: seq<File>, s: int): nat {
    if files == [] then 0 else OfFile(files[0], s) + FileRefs(files[1..], s)
  }

  function OfCwd(p: Proc, s: int): nat {
    if p.cwd == s then 1 else 0
  }

  /** How many processes have entry s as their current directory. */
  function CwdRefs(procs: seq<Proc>, s: int): nat {
    if procs == [] then 0 else OfCwd(procs[0], s) + CwdRefs(procs[1..], s)
  }

  function Occurrences(xs: seq<int>, x: int): nat {
    if xs == [] then 0 else (if xs[0] == x then 1 else 0) + Occurrences(xs[1..], x)
  }

  /** How many descriptors refer to file f. */
  function FdRefs(procs: seq<Proc>, f: int): nat {
    if procs == [] then 0 else Occurrences(procs[0].ofile, f) + FdRefs(procs[1..], f)
  }

  lemma {:induction false} FileRefsUpdate(files: seq<File>, i: nat, f: File, s: int)
    requires i < |files|
    ensures FileRefs(files[i := f], s) == FileRefs(files, s) - OfFile(files[i], s) + OfFile(f, s)
  {
    if i > 0 {
      FileRefsUpdate(files[1..], i - 1, f, s);
      assert files[i := f][1..] == files[1..][i - 1 := f];
    } else {
      assert files[i := f][1..] == files[1..];
    }
  }

  lemma {:induction false} CwdRefsUpdate(procs: seq<Proc>, i: nat, p: Proc, s: int)
    requires i < |procs|
    ensures CwdRefs(procs[i := p], s) == CwdRefs(procs, s) - OfCwd(procs[i], s) + OfCwd(p, s)
  {
    if i > 0 {
      CwdRefsUpdate(procs[1..], i - 1, p, s);
      assert procs[i := p][1..] == procs[1..][i - 1 := p];
    } else {
      assert procs[i := p][1..] == procs[1..];
    }
  }

  lemma {:induction false} OccurrencesUpdate(xs: seq<int>, i: nat, y: int, x: int)
    requires i < |xs|
    ensures Occurrences(xs[i := y], x) == Occurrences(xs, x) - (if xs[i] == x then 1 else 0) + (if y == x then 1 else 0)
  {
    if i > 0 {
      OccurrencesUpdate(xs[1..], i - 1, y, x);
      assert xs[i := y][1..] == xs[1..][i - 1 := y];
    } else {
      assert xs[i := y][1..] == xs[1..];
    }
  }

  lemma {:induction false} FdRefsUpdate(procs: seq<Proc>, i: nat, p: Proc, f: int)
    requires i < |procs|
    ensures FdRefs(procs[i := p], f) == FdRefs(procs, f) - Occurrences(procs[i].ofile, f) + Occurrences(p.ofile, f)
  {
    if i > 0 {
      FdRefsUpdate(procs[1..], i - 1, p, f);
      assert procs[i := p][1..] == procs[1..][i - 1 := p];
    } else {
      assert procs[i := p][1..] == procs[1..];
    }
  }

  // The state and its invariant

  /** held and taken are the references that running code holds to entries and to files. */
  datatype Refs = Refs(entries: seq<Entry>, files: seq<File>, procs: seq<Proc>, held: multiset<int>,
                       taken: multiset<int>)

  /** No two entries in use stand for the same inode. */
  predicate Unique(entries: seq<Entry>) {
    forall i, j :: 0 <= i < j < |entries| && entries[i].ref > 0 && entries[j].ref > 0 ==>
      entries[i].inum != entries[j].inum
  }

  /** An entry's count is the number of open files, current directories and running code that refer to it. */
  ghost predicate EntriesCounted(r: Refs) {
    forall s :: 0 <= s < |r.entries| ==> r.entries[s].ref == FileRefs(r.files, s) + CwdRefs(r.procs, s) + r.held[s]
  }

  ghost predicate FilesCounted(r: Refs) {
    forall f :: 0 <= f < |r.files| ==> r.files[f].ref == FdRefs(r.procs, f) + r.taken[f]
  }

  /** References are to slots that exist. */
  ghost predicate InRange(r: Refs) {
    && (forall f :: 0 <= f < |r.files| && r.files[f].kind.InodeKind? ==> 0 <= r.files[f].ip < |r.entries|)
    && (forall p :: 0 <= p < |r.procs| ==> -1 <= r.procs[p].cwd < |r.entries|)
    && (forall p, fd :: 0 <= p < |r.procs| && 0 <= fd < |r.procs[p].ofile| ==> -1 <= r.procs[p].ofile[fd] < |r.files|)
    && (forall s :: s in r.held ==> 0 <= s < |r.entries|) && (forall f :: f in r.taken ==> 0 <= f < |r.files|)
    && (forall f :: 0 <= f < |r.files| && r.files[f].ref == 0 ==> r.files[f].kind.NoKind?)
  }

  ghost predicate Ok(r: Refs) {
    Unique(r.entries) && EntriesCounted(r) && FilesCounted(r) && InRange(r)
  }

  /** Tables without anything in use are in order. */
  lemma NothingInUse(r: Refs)
    requires r.held == multiset{} && r.taken == multiset{}
    requires forall s :: 0 <= s < |r.entries| ==> r.entries[s].ref == 0
    requires forall f :: 0 <= f < |r.files| ==> r.files[f].ref == 0 && r.files[f].kind.NoKind?
    requires forall p :: 0 <= p < |r.procs| ==> r.procs[p].cwd == -1 && forall fd :: 0 <= fd < |r.procs[p].ofile| ==>
               r.procs[p].ofile[fd] == -1
    ensures Ok(r)
  {
    forall s | 0 <= s < |r.entries| ensures FileRefs(r.files, s) + CwdRefs(r.procs, s) == 0 {
      NoFiles(r.files, s);
      NoProcs(r.procs, s);
    }
    forall f | 0 <= f < |r.files| ensures FdRefs(r.procs, f) == 0 {
      NoProcs(r.procs, f);
    }
  }

  lemma {:induction false} NoFiles(files: seq<File>, s: int)
    requires forall f :: 0 <= f < |files| ==> files[f].ref == 0
    ensures FileRefs(files, s) == 0
  {
    if files != [] {
      NoFiles(files[1..], s);
    }
  }

  lemma {:induction false} NoProcs(procs: seq<Proc>, x: int)
    requires x >= 0
    requires forall p :: 0 <= p < |procs| ==> procs[p].cwd == -1 && forall fd :: 0 <= fd < |procs[p].ofile| ==>
               procs[p].ofile[fd] == -1
    ensures CwdRefs(procs, x) == 0 && FdRefs(procs, x) == 0
  {
    if procs != [] {
      NoneOpen(procs[0].ofile, x);
      NoProcs(procs[1..], x);
    }
  }

  lemma {:induction false} NoneOpen(ofile: seq<int>, x: int)
    requires x >= 0 && forall fd :: 0 <= fd < |ofile| ==> ofile[fd] == -1
    ensures Occurrences(ofile, x) == 0
  {
    if ofile != [] {
      NoneOpen(ofile[1..], x);
    }
  }

  /** One more, or one fewer, reference held by running code. */
  lemma HoldKeeps(r: Refs, s: int, d: int)
    requires Ok(r) && 0 <= s < |r.entries| && r.entries[s].ref > 0 && (d == 1 || (d == -1 && s in r.held))
    ensures Ok(r.(entries := r.entries[s := r.entries[s].(ref := r.entries[s].ref + d)],
                  held := if d == 1 then r.held + multiset{s} else r.held - multiset{s}))
  {
    hide FileRefs, CwdRefs, FdRefs;
  }

  /** What is held has a count. */
  lemma HeldInUse(r: Refs, s: int)
    requires Ok(r) && 0 <= s < |r.entries| && (s in r.held || CwdRefs(r.procs, s) > 0)
    ensures r.entries[s].ref > 0
  {
    hide FileRefs, CwdRefs, FdRefs;
  }

  /** A free entry recycled for an inode that has none. */
  lemma RecycleKeeps(r: Refs, s: int, inum: int)
    requires Ok(r) && 0 <= s < |r.entries| && r.entries[s].ref == 0
    requires forall j :: 0 <= j < |r.entries| && r.entries[j].ref > 0 ==> r.entries[j].inum != inum
    ensures Ok(r.(entries := r.entries[s := Entry(inum, 1)], held := r.held + multiset{s}))
  {
    hide FileRefs, CwdRefs, FdRefs;
  }

  /** Running code takes or gives up a reference to a file that stays open. */
  lemma TakeKeeps(r: Refs, f: int, d: int)
    requires Ok(r) && 0 <= f < |r.files| && r.files[f].ref > 0
    requires (d == 1 || (d == -1 && f in r.taken && r.files[f].ref > 1))
    ensures Ok(r.(files := r.files[f := r.files[f].(ref := r.files[f].ref + d)],
                  taken := if d == 1 then r.taken + multiset{f} else r.taken - multiset{f}))
  {
    hide FileRefs, CwdRefs, FdRefs, Unique;
    var file := r.files[f].(ref := r.files[f].ref + d);
    forall s ensures FileRefs(r.files[f := file], s) == FileRefs(r.files, s) {
      FileRefsUpdate(r.files, f, file, s);
    }
  }

  /** A free file goes to running code. */
  lemma FileAllocKeeps(r: Refs, f: int)
    requires Ok(r) && 0 <= f < |r.files| && r.files[f].ref == 0
    ensures Ok(r.(files := r.files[f := r.files[f].(ref := 1)], taken := r.taken + multiset{f}))
  {
    hide FileRefs, CwdRefs, FdRefs, Unique;
    var file := r.files[f].(ref := 1);
    forall s ensures FileRefs(r.files[f := file], s) == FileRefs(r.files, s) {
      FileRefsUpdate(r.files, f, file, s);
    }
  }

  /** A new file is made to refer to an inode that running code holds. */
  lemma FileOpenKeeps(r: Refs, f: int, s: int)
    requires Ok(r) && 0 <= f < |r.files| && r.files[f].ref > 0 && r.files[f].kind.NoKind? && s in r.held
    ensures Ok(r.(files := r.files[f := r.files[f].(kind := InodeKind, ip := s)], held := r.held - multiset{s}))
  {
    hide FileRefs, CwdRefs, FdRefs, Unique;
    var file := r.files[f].(kind := InodeKind, ip := s);
    forall t ensures FileRefs(r.files[f := file], t) == FileRefs(r.files, t) + if t == s then 1 else 0 {
      FileRefsUpdate(r.files, f, file, t);
    }
  }

  /** The last reference to a file goes; running code inherits the file's own. */
  lemma FileCloseKeeps(r: Refs, f: int)
    requires Ok(r) && 0 <= f < |r.files| && r.files[f].ref == 1 && f in r.taken
    ensures var file := r.files[f];
            Ok(r.(files := r.files[f := file.(ref := 0, kind := NoKind)], taken := r.taken - multiset{f},
                  held := if file.kind.InodeKind? then r.held + multiset{file.ip} else r.held))
  {
    hide FileRefs, CwdRefs, FdRefs, Unique;
    var file := r.files[f].(ref := 0, kind := NoKind);
    forall t ensures FileRefs(r.files[f := file], t) == FileRefs(r.files, t) - OfFile(r.files[f], t) {
      FileRefsUpdate(r.files, f, file, t);
    }
  }

  /** A descriptor is set from one file to another; running code gives and takes the references. */
  lemma FdSetKeeps(r: Refs, p: nat, fd: nat, f: int)
    requires Ok(r) && p < |r.procs| && fd < |r.procs[p].ofile| && (f == -1 || f in r.taken) && f != r.procs[p].ofile[fd]
    ensures var was := r.procs[p].ofile[fd];
            Ok(r.(procs := r.procs[p := r.procs[p].(ofile := r.procs[p].ofile[fd := f])],
                  taken := r.taken - (if f == -1 then multiset{} else multiset{f})
                             + (if was == -1 then multiset{} else multiset{was})))
  {
    hide FileRefs, CwdRefs, FdRefs, Unique, Occurrences;
    var was, q := r.procs[p].ofile[fd], r.procs[p].(ofile := r.procs[p].ofile[fd := f]);
    forall x
      ensures FdRefs(r.procs[p := q], x)
           == FdRefs(r.procs, x) - (if x == was then 1 else 0) + (if x == f then 1 else 0)
    {
      FdRefsUpdate(r.procs, p, q, x);
      OccurrencesUpdate(r.procs[p].ofile, fd, f, x);
    }
    forall s ensures CwdRefs(r.procs[p := q], s) == CwdRefs(r.procs, s) {
      CwdRefsUpdate(r.procs, p, q, s);
    }
  }

  /** A current directory is set; running code gives and takes the references. */
  lemma CwdSetKeeps(r: Refs, p: nat, s: int)
    requires Ok(r) && p < |r.procs| && (s == -1 || s in r.held)
    ensures var was := r.procs[p].cwd;
            Ok(r.(procs := r.procs[p := r.procs[p].(cwd := s)],
                  held := r.held - (if s == -1 then multiset{} else multiset{s})
                            + (if was == -1 then multiset{} else multiset{was})))
  {
    hide FileRefs, CwdRefs, FdRefs, Unique, Occurrences;
    var q := r.procs[p].(cwd := s);
    forall t ensures CwdRefs(r.procs[p := q], t) == CwdRefs(r.procs, t) - OfCwd(r.procs[p], t) + OfCwd(q, t) {
      CwdRefsUpdate(r.procs, p, q, t);
    }
    forall f ensures FdRefs(r.procs[p := q], f) == FdRefs(r.procs, f) {
      FdRefsUpdate(r.procs, p, q, f);
    }
  }
}
