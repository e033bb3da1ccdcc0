/** Directories (v3/fs.c:514-578, v3/sysfile.c:361-374): files of 16-byte entries, as a map from names to inode
    numbers. */
module Directories {
  import opened Blocks
  import opened RedoLog
  import opened Ownership
  import opened Contents
  import opened FileSystem
  import opened Paths

  const ENTRY: nat := 16
  const T_DIR: ushort := 1
  const T_FILE: ushort := 2

  /** A C string that fits an entry. */
  predicate NameOk(name: seq<byte>) {
    |name| <= DIRSIZ && 0 !in name
  }

  /** strncpy. */
  function Pad(name: seq<byte>): (b: seq<byte>)
    requires |name| <= DIRSIZ
    ensures |b| == DIRSIZ
  {
    name + seq(DIRSIZ - |name|, _ => 0)
  }

  /** The C string at the beginning of b. */
  function CName(b: seq<byte>): (n: seq<byte>)
    ensures |n| <= |b| && 0 !in n
  {
    if b == [] || b[0] == 0 then [] else [b[0]] + CName(b[1..])
  }

  lemma {:induction false} NameBack(name: seq<byte>, zeros: nat)
    requires 0 !in name
    ensures CName(name + seq(zeros, _ => 0)) == name
  {
    var b := name + seq(zeros, _ => 0);
    if name == [] {
      assert zeros > 0 ==> b[0] == 0;
    } else {
      assert b[0] == name[0] && b[1..] == name[1..] + seq(zeros, _ => 0);
      assert name == [name[0]] + name[1..];
      NameBack(name[1..], zeros);
    }
  }

  /** The bytes of an entry. */
  function Dirent(inum: ushort, name: seq<byte>): (b: seq<byte>)
    requires |name| <= DIRSIZ
    ensures |b| == ENTRY
  {
    [inum % 0x100, inum / 0x100] + Pad(name)
  }

  /** The contents of a directory are whole entries. */
  predicate Whole(b: seq<byte>) {
    |b| % ENTRY == 0
  }

  function Count(b: seq<byte>): nat {
    |b| / ENTRY
  }

  /** Entry k. */
  function At(b: seq<byte>, k: nat): (e: seq<byte>)
    requires k < Count(b)
    ensures |e| == ENTRY
  {
    b[ENTRY * k..ENTRY * k + ENTRY]
  }

  function InumOf(e: seq<byte>): nat
    requires |e| == ENTRY
  {
    var lo: int, hi: int := e[0], e[1];
    lo + 0x100 * hi
  }

  function NameOf(e: seq<byte>): seq<byte>
    requires |e| == ENTRY
  {
    CName(e[2..])
  }

  lemma DirentBack(inum: ushort, name: seq<byte>)
    requires NameOk(name)
    ensures InumOf(Dirent(inum, name)) == inum && NameOf(Dirent(inum, name)) == name
  {
    assert Dirent(inum, name)[2..] == Pad(name);
    NameBack(name, DIRSIZ - |name|);
  }

  predicate InUse(b: seq<byte>, k: nat)
    requires k < Count(b)
  {
    InumOf(At(b, k)) != 0
  }

  predicate Matches(e: seq<byte>, name: seq<byte>)
    requires |e| == ENTRY
  {
    InumOf(e) != 0 && NameOf(e) == name
  }

  /** The first entry from k on that is in use under this name, Count(b) if there is none. */
  function Find(b: seq<byte>, name: seq<byte>, k: nat): (r: nat)
    requires k <= Count(b)
    ensures k <= r <= Count(b) && (r < Count(b) ==> Matches(At(b, r), name))
    ensures forall j :: k <= j < r ==> !Matches(At(b, j), name)
    decreases Count(b) - k
  {
    if k == Count(b) || Matches(At(b, k), name) then k else Find(b, name, k + 1)
  }

  /** What a name stands for, 0 for nothing. */
  function Lookup(b: seq<byte>, name: seq<byte>): nat {
    var k := Find(b, name, 0);
    if k < Count(b) then InumOf(At(b, k)) else 0
  }

  /** The first unused entry from k on, Count(b) if there is none. */
  function Unused(b: seq<byte>, k: nat): (r: nat)
    requires k <= Count(b)
    ensures k <= r <= Count(b)
    decreases Count(b) - k
  {
    if k == Count(b) || !InUse(b, k) then k else Unused(b, k + 1)
  }

  lemma {:induction false} UnusedIsFree(b: seq<byte>, k: nat)
    requires k <= Count(b)
    ensures Unused(b, k) < Count(b) ==> InumOf(At(b, Unused(b, k))) == 0
    decreases Count(b) - k
  {
    if k < Count(b) && InUse(b, k) {
      UnusedIsFree(b, k + 1);
    }
  }

  /** No name is in use twice. */
  ghost predicate Distinct(b: seq<byte>) {
    forall j, k :: 0 <= j < k < Count(b) && InumOf(At(b, j)) != 0 && InumOf(At(b, k)) != 0 ==>
      NameOf(At(b, j)) != NameOf(At(b, k))
  }

  /** The directory with entry k, which may be one past the last, replaced. */
  function Put(b: seq<byte>, k: nat, e: seq<byte>): seq<byte>
    requires ENTRY * k <= |b| && |e| == ENTRY
  {
    Splice(b, ENTRY * k, e)
  }

  lemma PutAt(b: seq<byte>, k: nat, e: seq<byte>)
    requires Whole(b) && k <= Count(b) && |e| == ENTRY
    ensures ENTRY * k <= |b| && Whole(Put(b, k, e))
    ensures Count(Put(b, k, e)) == if k < Count(b) then Count(b) else k + 1
    ensures forall j :: 0 <= j < Count(Put(b, k, e)) ==> At(Put(b, k, e), j) == if j == k then e else At(b, j)
  {
    var b' := Put(b, k, e);
    assert |b| == ENTRY * Count(b);
    assert |b'| == ENTRY * (if k < Count(b) then Count(b) else k + 1);
    forall j | 0 <= j < Count(b') ensures At(b', j) == if j == k then e else At(b, j) {
      if j < k {
        assert ENTRY * j + ENTRY <= ENTRY * k;
      } else if j > k {
        assert ENTRY * k + ENTRY <= ENTRY * j;
      }
    }
  }

  /** Whichever entry is the only one to match is the one found. */
  lemma FoundOnly(b: seq<byte>, name: seq<byte>, k: nat)
    requires k < Count(b) && Matches(At(b, k), name)
    requires forall j :: 0 <= j < k ==> !Matches(At(b, j), name)
    ensures Find(b, name, 0) == k && Lookup(b, name) == InumOf(At(b, k))
  {
    var r := Find(b, name, 0);
    assert r <= k by {
      assert forall j :: 0 <= j < r ==> !Matches(At(b, j), name);
    }
  }

  lemma NotFound(b: seq<byte>, name: seq<byte>)
    ensures Lookup(b, name) == 0 <==> forall j :: 0 <= j < Count(b) ==> !Matches(At(b, j), name)
  {
  }

  /** Two directories in which the same entries match, at the same places, agree on a name. */
  lemma SameMatches(b: seq<byte>, b': seq<byte>, name: seq<byte>)
    requires forall j :: 0 <= j < Count(b) && Matches(At(b, j), name) ==> j < Count(b') && At(b', j) == At(b, j)
    requires forall j :: 0 <= j < Count(b') && Matches(At(b', j), name) ==> j < Count(b) && At(b', j) == At(b, j)
    ensures Lookup(b', name) == Lookup(b, name)
  {
    var k := Find(b, name, 0);
    if k < Count(b) {
      assert Matches(At(b', k), name);
      forall j | 0 <= j < k ensures !Matches(At(b', j), name) {
      }
      FoundOnly(b', name, k);
    } else {
      NotFound(b, name);
      NotFound(b', name);
    }
  }

  /** b' is b with entry k, which was not in use or is one past the last, replaced by e. */
  ghost predicate Entered(b: seq<byte>, b': seq<byte>, k: nat, e: seq<byte>) {
    && |e| == ENTRY && k <= Count(b) && k < Count(b') && Count(b) <= Count(b') <= Count(b) + 1
    && (k < Count(b) ==> InumOf(At(b, k)) == 0 && Count(b') == Count(b))
    && (forall j :: 0 <= j < Count(b') ==> if j == k then At(b', j) == e else j < Count(b) && At(b', j) == At(b, j))
  }

  lemma EnteredLookup(b: seq<byte>, b': seq<byte>, k: nat, e: seq<byte>, n: seq<byte>)
    requires Entered(b, b', k, e) && InumOf(e) != 0 && Lookup(b, NameOf(e)) == 0
    ensures Lookup(b', n) == if n == NameOf(e) then InumOf(e) else Lookup(b, n)
  {
    hide Find, Lookup, InumOf, NameOf, At, Count;
    if n == NameOf(e) {
      NotFound(b, n);
      FoundOnly(b', n, k);
    } else {
      SameMatches(b, b', n);
    }
  }

  lemma EnteredDistinct(b: seq<byte>, b': seq<byte>, k: nat, e: seq<byte>)
    requires Entered(b, b', k, e) && Lookup(b, NameOf(e)) == 0 && Distinct(b)
    ensures Distinct(b')
  {
    hide Find, Lookup, InumOf, NameOf, At, Count;
    NotFound(b, NameOf(e));
    forall i, j | 0 <= i < j < Count(b') && InumOf(At(b', i)) != 0 && InumOf(At(b', j)) != 0
      ensures NameOf(At(b', i)) != NameOf(At(b', j))
    {
      if i == k {
        assert !Matches(At(b, j), NameOf(e));
      } else if j == k {
        assert !Matches(At(b, i), NameOf(e));
      }
    }
  }

  /** Entering a new name adds that name to the map and changes nothing else. */
  lemma Linked(b: seq<byte>, name: seq<byte>, inum: ushort)
    requires Whole(b) && NameOk(name) && inum != 0 && Lookup(b, name) == 0
    ensures var k := Unused(b, 0);
            ENTRY * k <= |b| && var b' := Put(b, k, Dirent(inum, name));
            && Whole(b') && (forall n :: Lookup(b', n) == if n == name then inum else Lookup(b, n))
            && (Distinct(b) ==> Distinct(b'))
  {
    hide Find, Lookup, InumOf, NameOf, Distinct, Put, Dirent;
    var k, e := Unused(b, 0), Dirent(inum, name);
    UnusedIsFree(b, 0);
    PutAt(b, k, e);
    DirentBack(inum, name);
    var b' := Put(b, k, e);
    forall n ensures Lookup(b', n) == if n == name then inum else Lookup(b, n) {
      EnteredLookup(b, b', k, e, n);
    }
    if Distinct(b) {
      EnteredDistinct(b, b', k, e);
    }
  }

  /** Erasing the entry of a name removes that name from the map and changes nothing else. */
  lemma Erased(b: seq<byte>, name: seq<byte>)
    requires Whole(b) && Distinct(b) && Lookup(b, name) != 0
    ensures var k := Find(b, name, 0);
            ENTRY * k + ENTRY <= |b| && var b' := Put(b, k, Dirent(0, []));
            Whole(b') && Distinct(b') && forall n :: Lookup(b', n) == if n == name then 0 else Lookup(b, n)
  {
    var k, e := Find(b, name, 0), Dirent(0, []);
    PutAt(b, k, e);
    DirentBack(0, []);
    var b' := Put(b, k, e);
    forall n ensures Lookup(b', n) == if n == name then 0 else Lookup(b, n) {
      if n == name {
        NotFound(b', name);
      } else {
        SameMatches(b, b', n);
      }
    }
  }

  // The code

  /** namecmp: strncmp over at most DIRSIZ characters. */
  method SameName(p: seq<byte>, q: seq<byte>) returns (same: bool)
    requires |p| == |q| == DIRSIZ
    ensures same <==> CName(p) == CName(q)
  {
    var i := 0;
    assert p[0..] == p && q[0..] == q;
    while i < DIRSIZ && p[i] != 0 && p[i] == q[i]
      invariant 0 <= i <= DIRSIZ && (CName(p) == CName(q) <==> CName(p[i..]) == CName(q[i..]))
    {
      NamesFrom(p, q, i);
      i := i + 1;
    }
    same := i == DIRSIZ || p[i] == q[i];
    if i < DIRSIZ {
      NamesFrom(p, q, i);
    }
  }

  lemma NamesFrom(p: seq<byte>, q: seq<byte>, i: nat)
    requires i < |p| == |q|
    ensures p[i] != 0 && p[i] == q[i] ==> (CName(p[i..]) == CName(q[i..]) <==> CName(p[i + 1..]) == CName(q[i + 1..]))
    ensures p[i] == 0 || p[i] != q[i] ==> (CName(p[i..]) == CName(q[i..]) <==> p[i] == q[i])
  {
    assert p[i..][1..] == p[i + 1..] && q[i..][1..] == q[i + 1..];
    Cons(p[i], CName(p[i + 1..]), CName(q[i + 1..]));
    assert p[i] != 0 ==> CName(p[i..])[0] == p[i];
    assert q[i] != 0 ==> CName(q[i..])[0] == q[i];
  }

  lemma Cons(x: byte, a: seq<byte>, b: seq<byte>)
    ensures [x] + a == [x] + b <==> a == b
  {
    assert ([x] + a)[1..] == a && ([x] + b)[1..] == b;
  }

  /** The directory's contents. */
  ghost function Entries(fs: Fs, dp: Inode): seq<byte>
    requires dp.Valid() && dp.size <= MAXBYTES
    reads fs, dp, dp.addrs
  {
    Bytes(dp.Value(), fs.blocks)
  }

  ghost predicate IsDir(fs: Fs, dp: Inode)
    reads fs, dp, dp.addrs
  {
    fs.Has(dp) && NoHoles(dp.Value(), fs.blocks) && dp.typ == T_DIR && Whole(Entries(fs, dp))
  }

  lemma DirFacts(fs: Fs, dp: Inode)
    requires IsDir(fs, dp)
    ensures dp.size <= MAXBYTES && |Entries(fs, dp)| == dp.size == ENTRY * Count(Entries(fs, dp))
  {
    BytesLength(dp.Value(), fs.blocks);
  }

  /** Nothing has changed: the directory is as in `was`. */
  ghost predicate Still(fs: Fs, dp: Inode, was: Snapshot, loose: set<nat>)
    reads fs, dp, dp.addrs
  {
    IsDir(fs, dp) && fs.Snap(dp) == was && fs.loose == loose
  }

  /** readi of one entry. */
  method ReadEntry(fs: Fs, dp: Inode, k: nat, ghost was: Snapshot, ghost loose: set<nat>) returns (e: seq<byte>)
    requires Still(fs, dp, was, loose) && k < Count(Entries(fs, dp))
    modifies fs`blocks, fs`logged, fs`loose, fs`files, fs`writes, dp.addrs
    ensures Still(fs, dp, was, loose) && Entries(fs, dp) == old(Entries(fs, dp)) && e == At(Entries(fs, dp), k)
  {
    hide Own, Bytes, Played, Whole;
    DirFacts(fs, dp);
    var r;
    r, e := fs.Readi(dp, ENTRY * k, ENTRY);
  }

  /** dirlookup: the inode that a name stands for, 0 for none, and where its entry is. */
  method Dirlookup(fs: Fs, dp: Inode, name: seq<byte>, ghost was: Snapshot, ghost loose: set<nat>)
    returns (inum: nat, off: nat)
    requires Still(fs, dp, was, loose) && NameOk(name)
    modifies fs`blocks, fs`logged, fs`loose, fs`files, fs`writes, dp.addrs
    ensures Still(fs, dp, was, loose) && Entries(fs, dp) == old(Entries(fs, dp))
    ensures inum == Lookup(Entries(fs, dp), name)
    ensures inum != 0 ==> off == ENTRY * Find(Entries(fs, dp), name, 0)
  {
    ghost var b := Entries(fs, dp);
    DirFacts(fs, dp);
    var k := 0;
    while ENTRY * k < dp.size
      invariant Still(fs, dp, was, loose) && Entries(fs, dp) == b && dp.size == ENTRY * Count(b)
      invariant k <= Count(b) && Find(b, name, 0) == Find(b, name, k)
    {
      var found;
      found, inum := LookAt(fs, dp, name, k, was, loose);
      if found {
        return inum, ENTRY * k;
      }
      k := k + 1;
    }
    return 0, 0;
  }

  /** One round of its loop. */
  method LookAt(fs: Fs, dp: Inode, name: seq<byte>, k: nat, ghost was: Snapshot, ghost loose: set<nat>)
    returns (found: bool, inum: nat)
    requires Still(fs, dp, was, loose) && NameOk(name) && k < Count(Entries(fs, dp))
    modifies fs`blocks, fs`logged, fs`loose, fs`files, fs`writes, dp.addrs
    ensures Still(fs, dp, was, loose) && Entries(fs, dp) == old(Entries(fs, dp))
    ensures found <==> Matches(At(Entries(fs, dp), k), name)
    ensures found ==> inum == InumOf(At(Entries(fs, dp), k))
  {
    hide Own, Bytes, Played, Whole, CName, Still;
    NameBack(name, DIRSIZ - |name|);
    var e := ReadEntry(fs, dp, k, was, loose);
    found, inum := false, InumOf(e);
    if inum != 0 {
      found := SameName(Pad(name), e[2..]);
    }
  }

  /** Whether an entry is in use. */
  method UsedAt(fs: Fs, dp: Inode, k: nat, ghost was: Snapshot, ghost loose: set<nat>) returns (used: bool)
    requires Still(fs, dp, was, loose) && k < Count(Entries(fs, dp))
    modifies fs`blocks, fs`logged, fs`loose, fs`files, fs`writes, dp.addrs
    ensures Still(fs, dp, was, loose) && Entries(fs, dp) == old(Entries(fs, dp))
    ensures used <==> InUse(Entries(fs, dp), k)
  {
    hide Own, Bytes, Played, Whole, Still;
    var e := ReadEntry(fs, dp, k, was, loose);
    used := InumOf(e) != 0;
  }

  /** The search of dirlink for a place. */
  method FindUnused(fs: Fs, dp: Inode, ghost was: Snapshot, ghost loose: set<nat>) returns (off: nat)
    requires Still(fs, dp, was, loose)
    modifies fs`blocks, fs`logged, fs`loose, fs`files, fs`writes, dp.addrs
    ensures Still(fs, dp, was, loose) && Entries(fs, dp) == old(Entries(fs, dp))
    ensures off == ENTRY * Unused(Entries(fs, dp), 0)
  {
    ghost var b := Entries(fs, dp);
    DirFacts(fs, dp);
    ghost var target := Unused(b, 0);
    var k := 0;
    while ENTRY * k < dp.size
      invariant Still(fs, dp, was, loose) && Entries(fs, dp) == b && dp.size == ENTRY * Count(b)
      invariant k <= Count(b) && Unused(b, k) == target
    {
      var used := UsedAt(fs, dp, k, was, loose);
      if !used {
        return ENTRY * k;
      }
      k := k + 1;
    }
    return ENTRY * k;
  }

  /** dirlink: -1 if the name is there already; else the map gains the name and changes nowhere else, and other
      files stay as they are.  Fails, as the source panics, for a new name in a directory of maximal size without an
      unused entry, and else only for one that needs a new entry on a full disk. */
  method Dirlink(fs: Fs, dp: Inode, name: seq<byte>, inum: ushort) returns (ok: bool, r: int)
    requires IsDir(fs, dp) && dp.inum < fs.g.ninodes && NameOk(name) && inum != 0
    modifies fs`blocks, fs`logged, fs`loose, fs`files, fs`writes, dp`size, dp.addrs
    ensures !ok ==> old(Lookup(Entries(fs, dp), name)) == 0 && ENTRY * old(Unused(Entries(fs, dp), 0)) == old(dp.size)
    ensures !ok && old(dp.size) < MAXBYTES ==> fs.Full()
    ensures old(Lookup(Entries(fs, dp), name)) == 0 && ENTRY * old(Unused(Entries(fs, dp), 0)) == MAXBYTES ==> !ok
    ensures ok ==> (r == 0 <==> old(Lookup(Entries(fs, dp), name)) == 0) && (r == 0 || r == -1)
    ensures ok && r == -1 ==> Still(fs, dp, old(fs.Snap(dp)), old(fs.loose))
    ensures ok && r == 0 ==> IsDir(fs, dp) && fs.loose == old(fs.loose)
    ensures ok && r == 0 ==>
              forall n :: Lookup(Entries(fs, dp), n) == if n == name then inum else old(Lookup(Entries(fs, dp), n))
    ensures ok && r == 0 && old(Distinct(Entries(fs, dp))) ==> Distinct(Entries(fs, dp))
    ensures ok && r == 0 ==> OthersKept(old(fs.files), old(fs.blocks), fs.files, fs.blocks, dp.inum)
  {
    hide Own, Bytes, Played, Lookup, Distinct, OthersKept, Splice, Whole;
    ghost var b, was, loose := Entries(fs, dp), fs.Snap(dp), fs.loose;
    DirFacts(fs, dp);
    var there, at := Dirlookup(fs, dp, name, was, loose);
    if there != 0 {
      return true, -1;
    }
    var off := FindUnused(fs, dp, was, loose);
    Linked(b, name, inum);
    ok, r := fs.Writei(dp, Dirent(inum, name), off);
    if r == -1 {
      return false, -1;
    }
    r := 0;
  }

  lemma EntryMapped(fs: Fs, dp: Inode, off: nat)
    requires IsDir(fs, dp) && off + ENTRY <= dp.size
    ensures forall p: nat :: off <= p < off + ENTRY ==> MappedAt(fs.Snap(dp), p)
  {
  }

  /** The end of unlink in the directory: the map loses the name and changes nowhere else.  The entry is there, so
      that writing it cannot fail. */
  method Erase(fs: Fs, dp: Inode, name: seq<byte>, off: nat) returns (ok: bool)
    requires IsDir(fs, dp) && dp.inum < fs.g.ninodes && Distinct(Entries(fs, dp))
    requires Lookup(Entries(fs, dp), name) != 0 && off == ENTRY * Find(Entries(fs, dp), name, 0)
    modifies fs`blocks, fs`logged, fs`loose, fs`files, fs`writes, dp`size, dp.addrs
    ensures ok && IsDir(fs, dp) && fs.loose == old(fs.loose) && Distinct(Entries(fs, dp))
    ensures forall n :: Lookup(Entries(fs, dp), n) == if n == name then 0 else old(Lookup(Entries(fs, dp), n))
    ensures OthersKept(old(fs.files), old(fs.blocks), fs.files, fs.blocks, dp.inum)
  {
    hide Own, Bytes, Played, Lookup, Distinct, OthersKept, Splice, Whole;
    DirFacts(fs, dp);
    Erased(Entries(fs, dp), name);
    EntryMapped(fs, dp, off);
    var r;
    ok, r := fs.Writei(dp, Dirent(0, []), off);
    if r == -1 {
      return false;
    }
  }

  /** No entry from k on is in use. */
  predicate NoneUsed(b: seq<byte>, k: nat)
    decreases Count(b) - k
  {
    k >= Count(b) || (!InUse(b, k) && NoneUsed(b, k + 1))
  }

  lemma {:induction false} NoneUsedIs(b: seq<byte>, k: nat)
    ensures NoneUsed(b, k) <==> forall j :: k <= j < Count(b) ==> !InUse(b, j)
    decreases Count(b) - k
  {
    if k < Count(b) {
      NoneUsedIs(b, k + 1);
    }
  }

  /** isdirempty: nothing is in use beyond the first two entries. */
  method IsDirEmpty(fs: Fs, dp: Inode, ghost was: Snapshot, ghost loose: set<nat>) returns (empty: bool)
    requires Still(fs, dp, was, loose)
    modifies fs`blocks, fs`logged, fs`loose, fs`files, fs`writes, dp.addrs
    ensures Still(fs, dp, was, loose) && Entries(fs, dp) == old(Entries(fs, dp))
    ensures empty <==> NoneUsed(Entries(fs, dp), 2)
  {
    ghost var b := Entries(fs, dp);
    ghost var target := NoneUsed(b, 2);
    DirFacts(fs, dp);
    var k := 2;
    while ENTRY * k < dp.size
      invariant Still(fs, dp, was, loose) && Entries(fs, dp) == b && dp.size == ENTRY * Count(b)
      invariant 2 <= k && NoneUsed(b, k) == target
    {
      var used := UsedAt(fs, dp, k, was, loose);
      if used {
        return false;
      }
      k := k + 1;
    }
    return true;
  }

  /** In a directory that begins with "." and "..", that is so just when no other name stands for anything. */
  lemma EmptyMeansNoNames(b: seq<byte>, dot: seq<byte>, dotdot: seq<byte>)
    requires Distinct(b) && Count(b) >= 2 && Matches(At(b, 0), dot) && Matches(At(b, 1), dotdot)
    ensures NoneUsed(b, 2) <==> forall n :: n != dot && n != dotdot ==> Lookup(b, n) == 0
  {
    hide Find, Lookup, InumOf, NameOf, At, Count, NoneUsed;
    NoneUsedIs(b, 2);
    if NoneUsed(b, 2) {
      forall n | n != dot && n != dotdot ensures Lookup(b, n) == 0 {
        forall j | 0 <= j < Count(b) ensures !Matches(At(b, j), n) {
          assert j >= 2 ==> !InUse(b, j);
        }
        NotFound(b, n);
      }
    } else {
      var k :| 2 <= k < Count(b) && InUse(b, k);
      var n := NameOf(At(b, k));
      NotFound(b, n);
      assert Matches(At(b, k), n);
      assert n != dot && n != dotdot && Lookup(b, n) != 0;
    }
  }

  // The tree that name resolution walks

  function AsBytes(name: string): seq<byte> {
    seq(|name|, i requires 0 <= i < |name| => name[i] as int % 0x100)
  }

  predicate HasType(files: map<nat, Dinode>, d: int, typ: ushort) {
    0 <= d && d in files && files[d].typ == typ
  }

  function LookIn(files: map<nat, Dinode>, blocks: Disk, d: int, name: string): int {
    if HasType(files, d, T_DIR) && files[d].size <= MAXBYTES then Lookup(Bytes(files[d], blocks), AsBytes(name)) else 0
  }

  /** What the directories on the disk answer to a lookup. */
  function TreeOf(files: map<nat, Dinode>, blocks: Disk): Tree {
    Tree(d => HasType(files, d, T_DIR), d => HasType(files, d, T_FILE), (d, name) => LookIn(files, blocks, d, name))
  }

  /** dirlookup answers as that tree does. */
  lemma TreeLooks(fs: Fs, dp: Inode, name: string)
    requires IsDir(fs, dp)
    ensures TreeOf(fs.files, fs.blocks).isDir(dp.inum)
    ensures TreeOf(fs.files, fs.blocks).look(dp.inum, name) == Lookup(Entries(fs, dp), AsBytes(name))
  {
  }

  /** A change to one directory changes no other directory of the tree. */
  lemma TreeElsewhere(g: Geometry, files: map<nat, Dinode>, blocks: Disk, loose: set<nat>,
                      files': map<nat, Dinode>, blocks': Disk, i: nat, d: int, name: string)
    requires Own(g, files, blocks, loose) && OthersKept(files, blocks, files', blocks', i) && d != i
    requires HasType(files, d, T_DIR) ==> NoHoles(files[d], blocks)
    ensures TreeOf(files', blocks').isDir(d) == TreeOf(files, blocks).isDir(d)
    ensures TreeOf(files', blocks').isFile(d) == TreeOf(files, blocks).isFile(d)
    ensures TreeOf(files', blocks').look(d, name) == TreeOf(files, blocks).look(d, name)
  {
    if HasType(files, d, T_DIR) {
      OthersReadSame(g, files, blocks, loose, files', blocks', i, d);
    }
    assert HasType(files', d, T_DIR) == HasType(files, d, T_DIR);
  }
}
