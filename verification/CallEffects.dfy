/** What the covered system calls do (v3/sysfile.c), in both of their forms and for every kernel beneath them: when they
    succeed, told by the tree of names; that link counts follow the names; and that no lock and no reference is left
    behind but those that an open file or a current directory keeps. */
module CallEffects {
  import opened Blocks
  import opened Records
  import opened CallRecords
  import opened Paths
  import opened SyscallBodies
  import Inodes

  // When the calls succeed

  /** The characters of a path. */
  function Text(p: Path): string {
    seq(|p|, i requires 0 <= i < |p| => p[i] as char)
  }

  function Names(p: Path): seq<string> {
    Elements(Text(p))
  }

  /** Where a path starts for a process in directory cwd. */
  function From(cwd: int, p: Path): int {
    Inodes.StartFrom(cwd, Text(p))
  }

  predicate Dot(p: Path) {
    Names(p) != [] && (Names(p)[|Names(p)| - 1] == "." || Names(p)[|Names(p)| - 1] == "..")
  }

  /** What the last element of a path stands for in directory d. */
  function LastIn(tree: Tree, d: int, p: Path): int {
    if Names(p) == [] then 0 else tree.look(d, Names(p)[|Names(p)| - 1])
  }

  /** The kernel's callees answer by the tree: names lead where the tree says for a process in directory cwd, `empty`
      are the directories without entries, and newNum is the inode that ialloc finds.  What nameiparent has left
      behind, the directory's lock aside, decides about the last element. */
  ghost predicate Answers<K(!new)>(g: Kernel<K>, tree: Tree, empty: int -> bool, cwd: int, newNum: int) {
    && (forall k, p :: g.namei(k, p).1 == Walk(tree, From(cwd, p), Names(p)))
    && (forall k, p :: g.nameiparent(k, p).1 == WalkParent(tree, From(cwd, p), Names(p)))
    && (forall k, i :: g.isDir(k, i) == tree.isDir(i))
    && (forall k, i :: g.isEmpty(k, i) == empty(i))
    && (forall k, p, kind, a, b :: g.create(k, p, kind, a, b).1 ==
          Inodes.Created(tree, From(cwd, p), Names(p), kind, newNum))
    && (forall k, p, d :: g.dotName(g.ilock(g.nameiparent(k, p).0, d)) == Dot(p))
    && (forall k, p, d :: g.dirlookup(g.ilock(g.nameiparent(k, p).0, d), d).1 == LastIn(tree, d, p))
    && (forall k, p, d, i :: g.dirlink(g.ilock(g.nameiparent(k, p).0, d), d, i).1 ==
          if LastIn(tree, d, p) == 0 then 0 else -1)
  }

  /** O_CREATE is the bit of value 0x200. */
  predicate HasBit9(mode: uint32, high: nat, low: nat) {
    mode == 0x400 * high + 0x200 + low && low < 0x200
  }

  predicate LacksBit9(mode: uint32, high: nat, low: nat) {
    mode == 0x400 * high + low && low < 0x200
  }

  lemma CreateBit(mode: uint32, high: nat, low: nat)
    ensures HasBit9(mode, high, low) ==> Creates(mode)
    ensures LacksBit9(mode, high, low) ==> !Creates(mode)
  {
  }

  /** open succeeds exactly if there is an inode for it, which O_CREATE may make, and a file and a descriptor are free;
      it returns that descriptor. */
  lemma OpenOutcome<K(!new)>(g: Kernel<K>, tree: Tree, empty: int -> bool, cwd: int, newNum: int, k: K, p: Path,
                             mode: uint32, create: bool, high: nat, low: nat)
    requires Answers(g, tree, empty, cwd, newNum)
    requires if create then HasBit9(mode, high, low) else LacksBit9(mode, high, low)
    ensures var ip := Inodes.Opened(tree, From(cwd, p), Names(p), create, mode == 0, newNum);
      var a := OpenInode(g, g.beginOp(k), p, mode);
      var f := g.fileAlloc(a.0);
      var d := g.fdAlloc(f.0, f.1);
      && a.1 == ip
      && OpenBody(g, k, p, mode).1 == if ip == 0 || f.1 == 0 || d.1 < 0 then -1 else d.1
  {
    CreateBit(mode, high, low);
  }

  /** For instance, with a name that leads nowhere, in both forms of the call: with O_CREATE the file is made and
      opened, without it is not. */
  lemma OpenOfNewName<K(!new)>(g: Kernel<K>, k: K, p: Path, fd: nat, mode: uint32)
    requires Sane(g) && fd < 0x8000_0000
    requires forall k :: g.namei(k, p).1 == 0 && g.create(k, p, AFile, 0, 0).1 != 0 && g.fileAlloc(k).1 != 0
    requires forall k, f :: g.fdAlloc(k, f).1 == fd
    ensures Recorded(g, k, Open(p, mode)).1 == Original(g, k, Open(p, mode)).1
    ensures mode == 0x200 || mode == 0x201 || mode == 0x202 ==> Original(g, k, Open(p, mode)).1.ret == fd
    ensures mode == 0 || mode == 1 || mode == 2 ==> Original(g, k, Open(p, mode)).1.ret == Word(-1)
  {
    hide Recorded, Sane;
    RecordedIsOriginal(g, k, Open(p, mode));
  }

  /** link succeeds exactly as the model of the inode layer says for a call that runs alone. */
  lemma LinkOutcome<K(!new)>(g: Kernel<K>, tree: Tree, empty: int -> bool, cwd: int, newNum: int, k: K, from: Path,
                             to: Path)
    requires Answers(g, tree, empty, cwd, newNum)
    ensures LinkBody(g, k, from, to).1 ==
            if Inodes.LinkTo(tree, From(cwd, from), From(cwd, to), Text(from), Text(to)).Done? then 0 else -1
  {
  }

  lemma UnlinkOutcome<K(!new)>(g: Kernel<K>, tree: Tree, empty: int -> bool, cwd: int, newNum: int, k: K, p: Path)
    requires Answers(g, tree, empty, cwd, newNum)
    ensures UnlinkBody(g, k, p).1 == if Inodes.Unlinkable(tree, empty, From(cwd, p), Names(p)) then 0 else -1
  {
  }

  lemma ChdirOutcome<K(!new)>(g: Kernel<K>, tree: Tree, empty: int -> bool, cwd: int, newNum: int, k: K, p: Path)
    requires Answers(g, tree, empty, cwd, newNum)
    ensures var dest := Inodes.Named(tree, cwd, Text(p));
      ChdirBody(g, k, p).1 == if dest != 0 && tree.isDir(dest) then 0 else -1
  {
  }

  lemma MakeOutcome<K(!new)>(g: Kernel<K>, tree: Tree, empty: int -> bool, cwd: int, newNum: int, k: K, p: Path,
                             major: uint32, minor: uint32)
    requires Answers(g, tree, empty, cwd, newNum)
    ensures Body(g, k, Mkdir(p)).1 ==
            if Inodes.Created(tree, From(cwd, p), Names(p), ADir, newNum) != 0 then 0 else -1
    ensures Body(g, k, Mknod(p, major, minor)).1 ==
            if Inodes.Created(tree, From(cwd, p), Names(p), ADevice, newNum) != 0 then 0 else -1
  {
  }

  // Link counts follow the names

  function One(b: bool): int {
    if b then 1 else 0
  }

  /** For one inode i, surplus(k) is its link count less the names and subdirectories it has in state k.  addLinks adds
      to the count; dirlink adds a name for its inode; erase takes away the name that dirlookup finds, and with it a
      subdirectory of d if that is one; create adds both alike; nothing else changes either.  What a name stands for and
      what is a directory does not change by locking or looking up. */
  ghost predicate Surplus<K(!new)>(g: Kernel<K>, i: int, surplus: K -> int) {
    && (forall k, j, n :: surplus(g.addLinks(k, j, n)) == surplus(k) + if j == i then n else 0)
    && (forall k, d, j :: surplus(g.dirlink(k, d, j).0) == surplus(k) - One(j == i && g.dirlink(k, d, j).1 >= 0))
    && (forall k, d :: surplus(g.erase(k, d)) ==
          var c := g.dirlookup(k, d).1; surplus(k) + One(c == i) + One(d == i && g.isDir(k, c)))
    && (forall k, d :: surplus(g.dirlookup(k, d).0) == surplus(k))
    && (forall k, d, j :: var k' := g.ilock(g.dirlookup(k, d).0, j); g.dirlookup(k', d).1 == g.dirlookup(k, d).1)
    && (forall k, d, j :: g.isDir(g.erase(k, d), j) == g.isDir(k, j))
    && (forall k, p, t, a, b :: surplus(g.create(k, p, t, a, b).0) == surplus(k))
    && Steady(g, surplus)
  }

  /** The callees that take and give locks, references, transactions, files and descriptors leave m alone. */
  ghost predicate Steady<K(!new)>(g: Kernel<K>, m: K -> int) {
    && (forall k :: m(g.beginOp(k)) == m(k)) && (forall k :: m(g.endOp(k)) == m(k))
    && (forall k, p :: m(g.namei(k, p).0) == m(k)) && (forall k, p :: m(g.nameiparent(k, p).0) == m(k))
    && (forall k, j :: m(g.ilock(k, j)) == m(k)) && (forall k, j :: m(g.iunlock(k, j)) == m(k))
    && (forall k, j :: m(g.iput(k, j)) == m(k)) && (forall k, j :: m(g.iunlockput(k, j)) == m(k))
    && Elsewhere(g, m)
  }

  ghost predicate Elsewhere<K(!new)>(g: Kernel<K>, m: K -> int) {
    && (forall k :: m(g.fileAlloc(k).0) == m(k)) && (forall k, f :: m(g.fdAlloc(k, f).0) == m(k))
    && (forall k, f :: m(g.fileClose(k, f)) == m(k)) && (forall k, f, j, mode :: m(g.setFile(k, f, j, mode)) == m(k))
    && (forall k :: m(g.lockTicks(k)) == m(k)) && (forall k :: m(g.unlockTicks(k)) == m(k))
    && (forall k, f, n :: m(g.fileRead(k, f, n).0) == m(k)) && (forall k, f :: m(g.fileStat(k, f).0) == m(k))
    && (forall k, fd :: m(g.clearFd(k, fd)) == m(k)) && (forall k, j :: m(g.setCwd(k, j)) == m(k))
  }

  lemma LinkKeepsSurplus<K(!new)>(g: Kernel<K>, i: int, surplus: K -> int, k: K, from: Path, to: Path)
    requires Surplus(g, i, surplus)
    ensures surplus(LinkBody(g, k, from, to).0) == surplus(k)
  {
  }

  lemma UnlinkKeepsSurplus<K(!new)>(g: Kernel<K>, i: int, surplus: K -> int, k: K, p: Path)
    requires Surplus(g, i, surplus)
    ensures surplus(UnlinkBody(g, k, p).0) == surplus(k)
  {
  }

  lemma OpenKeepsSurplus<K(!new)>(g: Kernel<K>, i: int, surplus: K -> int, k: K, p: Path, mode: uint32)
    requires Surplus(g, i, surplus)
    ensures surplus(OpenBody(g, k, p, mode).0) == surplus(k)
  {
  }

  lemma ChdirKeeps<K(!new)>(g: Kernel<K>, m: K -> int, k: K, p: Path)
    requires Steady(g, m)
    ensures m(ChdirBody(g, k, p).0) == m(k)
  {
    var (ka, ip) := g.namei(g.beginOp(k), p);
    assert m(ka) == m(k);
    var k2 := g.iunlock(g.ilock(ka, ip), ip);
    var was: int := g.cwd(k2);
    var k3 := g.endOp(g.iput(k2, was));
    assert m(k3) == m(k);
    assert m(g.setCwd(k3, ip)) == m(k);
  }

  lemma OthersKeepSurplus<K(!new)>(g: Kernel<K>, i: int, surplus: K -> int, k: K, c: Call)
    requires Surplus(g, i, surplus) && !c.Link? && !c.Unlink? && !c.Open? && !c.Chdir?
    ensures surplus(Body(g, k, c).0) == surplus(k)
  {
  }

  /** Every covered call, in both forms and on every path through it, changes the link count of every inode by as much
      as the number of its names and subdirectories. */
  lemma LinksFollowNames<K(!new)>(g: Kernel<K>, i: int, surplus: K -> int, k: K, c: Call)
    requires Surplus(g, i, surplus)
    ensures surplus(Original(g, k, c).0) == surplus(k) && surplus(Recorded(g, k, c).0) == surplus(k)
  {
    hide Surplus, Copied, LinkBody, UnlinkBody, OpenBody, ChdirBody;
    CopiedIsBody(g, k, c);
    match c
    case Link(from, to) => LinkKeepsSurplus(g, i, surplus, k, from, to);
    case Unlink(path) => UnlinkKeepsSurplus(g, i, surplus, k, path);
    case Open(path, mode) => OpenKeepsSurplus(g, i, surplus, k, path, mode);
    case Chdir(path) =>
      SurplusIsSteady(g, i, surplus);
      ChdirKeeps(g, surplus, k, path);
    case _ => OthersKeepSurplus(g, i, surplus, k, c);
  }

  lemma SurplusIsSteady<K(!new)>(g: Kernel<K>, i: int, surplus: K -> int)
    requires Surplus(g, i, surplus)
    ensures Steady(g, surplus)
  {
  }

  // No lock is left behind

  /** locks(k) counts how often the lock of inode i is held. */
  ghost predicate LockCount<K(!new)>(g: Kernel<K>, i: int, locks: K -> int) {
    && (forall k, j :: locks(g.ilock(k, j)) == locks(k) + One(j == i))
    && (forall k, j :: locks(g.iunlock(k, j)) == locks(k) - One(j == i))
    && (forall k, j :: locks(g.iunlockput(k, j)) == locks(k) - One(j == i))
    && (forall k, p, t, a, b ::
          var c := g.create(k, p, t, a, b); locks(c.0) == locks(k) + One(c.1 == i))
    && (forall k :: locks(g.beginOp(k)) == locks(k)) && (forall k :: locks(g.endOp(k)) == locks(k))
    && (forall k, p :: locks(g.namei(k, p).0) == locks(k)) && (forall k, p :: locks(g.nameiparent(k, p).0) == locks(k))
    && (forall k, j :: locks(g.iput(k, j)) == locks(k)) && (forall k, j, n :: locks(g.addLinks(k, j, n)) == locks(k))
    && (forall k, d, j :: locks(g.dirlink(k, d, j).0) == locks(k))
    && (forall k, d :: locks(g.dirlookup(k, d).0) == locks(k)) && (forall k, d :: locks(g.erase(k, d)) == locks(k))
    && Elsewhere(g, locks)
  }

  lemma LinkReleases<K(!new)>(g: Kernel<K>, i: int, locks: K -> int, k: K, from: Path, to: Path)
    requires i != 0 && LockCount(g, i, locks)
    ensures locks(LinkBody(g, k, from, to).0) == locks(k)
  {
  }

  lemma UnlinkReleases<K(!new)>(g: Kernel<K>, i: int, locks: K -> int, k: K, p: Path)
    requires i != 0 && LockCount(g, i, locks)
    ensures locks(UnlinkBody(g, k, p).0) == locks(k)
  {
  }

  lemma OpenReleases<K(!new)>(g: Kernel<K>, i: int, locks: K -> int, k: K, p: Path, mode: uint32)
    requires i != 0 && LockCount(g, i, locks)
    ensures locks(OpenBody(g, k, p, mode).0) == locks(k)
  {
  }

  lemma ChdirReleases<K(!new)>(g: Kernel<K>, i: int, locks: K -> int, k: K, p: Path)
    requires i != 0 && LockCount(g, i, locks)
    ensures locks(ChdirBody(g, k, p).0) == locks(k)
  {
    var (ka, ip) := g.namei(g.beginOp(k), p);
    assert locks(ka) == locks(k);
    var k1 := g.ilock(ka, ip);
    assert locks(k1) == locks(k) + One(ip == i);
    var k2 := g.iunlock(k1, ip);
    var was: int := g.cwd(k2);
    var k3 := g.endOp(g.iput(k2, was));
    assert locks(k3) == locks(k);
    assert locks(g.setCwd(k3, ip)) == locks(k);
  }

  lemma OthersRelease<K(!new)>(g: Kernel<K>, i: int, locks: K -> int, k: K, c: Call)
    requires i != 0 && LockCount(g, i, locks) && !c.Link? && !c.Unlink? && !c.Open? && !c.Chdir?
    ensures locks(Body(g, k, c).0) == locks(k)
  {
  }

  /** Every covered call, in both forms and on every path through it, leaves every inode's lock as it found it. */
  lemma LocksBalance<K(!new)>(g: Kernel<K>, i: int, locks: K -> int, k: K, c: Call)
    requires i != 0 && LockCount(g, i, locks)
    ensures locks(Original(g, k, c).0) == locks(k) && locks(Recorded(g, k, c).0) == locks(k)
  {
    hide LockCount, Copied, LinkBody, UnlinkBody, OpenBody, ChdirBody;
    CopiedIsBody(g, k, c);
    match c
    case Link(from, to) => LinkReleases(g, i, locks, k, from, to);
    case Unlink(path) => UnlinkReleases(g, i, locks, k, path);
    case Open(path, mode) => OpenReleases(g, i, locks, k, path, mode);
    case Chdir(path) => ChdirReleases(g, i, locks, k, path);
    case _ => OthersRelease(g, i, locks, k, c);
  }

  // No reference is left behind

  /** refs(k) counts the references to inode i that neither an open file nor the current directory keeps: setFile hands
      one to the file, setCwd one to the process, which no longer keeps the one to its old directory. */
  ghost predicate RefCount<K(!new)>(g: Kernel<K>, i: int, refs: K -> int) {
    && (forall k, p :: refs(g.namei(k, p).0) == refs(k) + One(g.namei(k, p).1 == i))
    && (forall k, p :: refs(g.nameiparent(k, p).0) == refs(k) + One(g.nameiparent(k, p).1 == i))
    && (forall k, d :: refs(g.dirlookup(k, d).0) == refs(k) + One(g.dirlookup(k, d).1 == i))
    && (forall k, p, t, a, b :: var c := g.create(k, p, t, a, b); refs(c.0) == refs(k) + One(c.1 == i))
    && (forall k, j :: refs(g.iput(k, j)) == refs(k) - One(j == i))
    && (forall k, j :: refs(g.iunlockput(k, j)) == refs(k) - One(j == i))
    && (forall k, f, j, mode :: refs(g.setFile(k, f, j, mode)) == refs(k) - One(j == i))
    && (forall k, j :: refs(g.setCwd(k, j)) == refs(k) - One(j == i) + One(g.cwd(k) == i))
    && (forall k, j :: g.cwd(g.iput(k, j)) == g.cwd(k)) && (forall k :: g.cwd(g.endOp(k)) == g.cwd(k))
    && (forall k :: refs(g.beginOp(k)) == refs(k)) && (forall k :: refs(g.endOp(k)) == refs(k))
    && (forall k, j :: refs(g.ilock(k, j)) == refs(k)) && (forall k, j :: refs(g.iunlock(k, j)) == refs(k))
    && (forall k, j, n :: refs(g.addLinks(k, j, n)) == refs(k))
    && (forall k, d, j :: refs(g.dirlink(k, d, j).0) == refs(k)) && (forall k, d :: refs(g.erase(k, d)) == refs(k))
    && (forall k :: refs(g.fileAlloc(k).0) == refs(k)) && (forall k, f :: refs(g.fdAlloc(k, f).0) == refs(k))
    && (forall k, f :: refs(g.fileClose(k, f)) == refs(k))
    && (forall k :: refs(g.lockTicks(k)) == refs(k)) && (forall k :: refs(g.unlockTicks(k)) == refs(k))
    && (forall k, f, n :: refs(g.fileRead(k, f, n).0) == refs(k))
    && (forall k, f :: refs(g.fileStat(k, f).0) == refs(k))
    && (forall k, fd :: refs(g.clearFd(k, fd)) == refs(k))
  }

  lemma LinkGivesBack<K(!new)>(g: Kernel<K>, i: int, refs: K -> int, k: K, from: Path, to: Path)
    requires i != 0 && RefCount(g, i, refs)
    ensures refs(LinkBody(g, k, from, to).0) == refs(k)
  {
  }

  lemma UnlinkGivesBack<K(!new)>(g: Kernel<K>, i: int, refs: K -> int, k: K, p: Path)
    requires i != 0 && RefCount(g, i, refs)
    ensures refs(UnlinkBody(g, k, p).0) == refs(k)
  {
  }

  lemma OpenGivesBack<K(!new)>(g: Kernel<K>, i: int, refs: K -> int, k: K, p: Path, mode: uint32)
    requires i != 0 && RefCount(g, i, refs)
    ensures refs(OpenBody(g, k, p, mode).0) == refs(k)
  {
  }

  lemma ChdirGivesBack<K(!new)>(g: Kernel<K>, i: int, refs: K -> int, k: K, p: Path)
    requires i != 0 && RefCount(g, i, refs)
    ensures refs(ChdirBody(g, k, p).0) == refs(k)
  {
    var (ka, ip) := g.namei(g.beginOp(k), p);
    assert refs(ka) == refs(k) + One(ip == i);
    var k2 := g.iunlock(g.ilock(ka, ip), ip);
    var was: int := g.cwd(k2);
    var k3 := g.endOp(g.iput(k2, was));
    assert refs(k3) == refs(k) + One(ip == i) - One(was == i) && g.cwd(k3) == was;
    assert refs(g.setCwd(k3, ip)) == refs(k);
  }

  lemma OthersGiveBack<K(!new)>(g: Kernel<K>, i: int, refs: K -> int, k: K, c: Call)
    requires i != 0 && RefCount(g, i, refs) && !c.Link? && !c.Unlink? && !c.Open? && !c.Chdir?
    ensures refs(Body(g, k, c).0) == refs(k)
  {
  }

  /** Every covered call, in both forms and on every path through it, gives back every reference that it takes and
      that no file and no directory keeps. */
  lemma ReferencesBalance<K(!new)>(g: Kernel<K>, i: int, refs: K -> int, k: K, c: Call)
    requires i != 0 && RefCount(g, i, refs)
    ensures refs(Original(g, k, c).0) == refs(k) && refs(Recorded(g, k, c).0) == refs(k)
  {
    hide RefCount, Copied, LinkBody, UnlinkBody, OpenBody, ChdirBody;
    CopiedIsBody(g, k, c);
    match c
    case Link(from, to) => LinkGivesBack(g, i, refs, k, from, to);
    case Unlink(path) => UnlinkGivesBack(g, i, refs, k, path);
    case Open(path, mode) => OpenGivesBack(g, i, refs, k, path, mode);
    case Chdir(path) => ChdirGivesBack(g, i, refs, k, path);
    case _ => OthersGiveBack(g, i, refs, k, c);
  }

  // Descriptors, files, directories and new nodes

  /** spare(k) counts open files less descriptors in use. */
  ghost predicate FileCount<K(!new)>(g: Kernel<K>, spare: K -> int) {
    && (forall k :: spare(g.fileAlloc(k).0) == spare(k) + One(g.fileAlloc(k).1 != 0))
    && (forall k, f :: spare(g.fdAlloc(k, f).0) == spare(k) - One(g.fdAlloc(k, f).1 >= 0))
    && (forall k, fd :: spare(g.clearFd(k, fd)) == spare(k) + One(g.argFd(k, fd) != 0))
    && (forall k, f :: spare(g.fileClose(k, f)) == spare(k) - 1)
    && (forall k, f, i, mode :: spare(g.setFile(k, f, i, mode)) == spare(k))
    && (forall k :: spare(g.beginOp(k)) == spare(k)) && (forall k :: spare(g.endOp(k)) == spare(k))
    && (forall k, j :: spare(g.ilock(k, j)) == spare(k)) && (forall k, j :: spare(g.iunlock(k, j)) == spare(k))
    && (forall k, j :: spare(g.iunlockput(k, j)) == spare(k)) && (forall k, p :: spare(g.namei(k, p).0) == spare(k))
    && (forall k, p, t, a, b :: spare(g.create(k, p, t, a, b).0) == spare(k))
  }

  /** open and close keep one file for each descriptor, whether or not they succeed. */
  lemma DescriptorsBalance<K(!new)>(g: Kernel<K>, spare: K -> int, k: K, p: Path, mode: uint32, fd: uint32)
    requires FileCount(g, spare)
    ensures spare(OpenBody(g, k, p, mode).0) == spare(k) && spare(Body(g, k, Close(fd)).0) == spare(k)
  {
  }

  /** What a descriptor is bound to stays while locks and transactions are given up; setFile says what a file is. */
  ghost predicate Binds<K(!new)>(g: Kernel<K>, info: (K, int) -> (int, uint32)) {
    && (forall k, f :: g.fdAlloc(k, f).1 >= 0 ==> g.argFd(g.fdAlloc(k, f).0, Word(g.fdAlloc(k, f).1)) == f)
    && (forall k, j, fd :: g.argFd(g.iunlock(k, j), fd) == g.argFd(k, fd))
    && (forall k, fd :: g.argFd(g.endOp(k), fd) == g.argFd(k, fd))
    && (forall k, f, j, m, fd :: g.argFd(g.setFile(k, f, j, m), fd) == g.argFd(k, fd))
    && (forall k, f, j, m: uint32 :: info(g.setFile(k, f, j, m), f) == (j, m))
    && (forall k, fd :: g.argFd(g.clearFd(k, fd), fd) == 0)
    && (forall k, f, fd :: g.argFd(g.fileClose(k, f), fd) == g.argFd(k, fd))
  }

  /** The descriptor that open returns stands for a file with the inode that open found and the mode it was given; a
      descriptor that close has closed stands for nothing. */
  lemma OpenBinds<K(!new)>(g: Kernel<K>, info: (K, int) -> (int, uint32), k: K, p: Path, mode: uint32, fd: uint32)
    requires Binds(g, info)
    ensures var (k', r) := OpenBody(g, k, p, mode);
      var a := OpenInode(g, g.beginOp(k), p, mode);
      var f := g.fileAlloc(a.0).1;
      r >= 0 ==> f != 0 && g.argFd(k', Word(r)) == f && info(k', f) == (a.1, mode)
    ensures g.argFd(Body(g, k, Close(fd)).0, fd) == 0
  {
  }

  /** A successful chdir makes the inode of the path the current directory; a failed one leaves it alone. */
  lemma ChdirMoves<K(!new)>(g: Kernel<K>, k: K, p: Path)
    requires (forall k, j :: g.cwd(g.setCwd(k, j)) == j) && (forall k :: g.cwd(g.beginOp(k)) == g.cwd(k))
    requires (forall k :: g.cwd(g.endOp(k)) == g.cwd(k)) && (forall k, p :: g.cwd(g.namei(k, p).0) == g.cwd(k))
    requires (forall k, j :: g.cwd(g.ilock(k, j)) == g.cwd(k)) && (forall k, j :: g.cwd(g.iunlockput(k, j)) == g.cwd(k))
    ensures var (k', r) := ChdirBody(g, k, p);
      g.cwd(k') == if r == 0 then g.namei(g.beginOp(k), p).1 else g.cwd(k)
  {
  }

  /** made(k) is what create was last asked for; nothing else the calls use afterwards changes it. */
  ghost predicate Makes<K(!new)>(g: Kernel<K>, made: K -> (NodeType, uint32, uint32)) {
    && (forall k, p, t, a: uint32, b: uint32 :: made(g.create(k, p, t, a, b).0) == (t, a, b))
    && (forall k, j :: made(g.iunlockput(k, j)) == made(k)) && (forall k, j :: made(g.iunlock(k, j)) == made(k))
    && (forall k :: made(g.endOp(k)) == made(k)) && (forall k :: made(g.fileAlloc(k).0) == made(k))
    && (forall k, f :: made(g.fdAlloc(k, f).0) == made(k)) && (forall k, f :: made(g.fileClose(k, f)) == made(k))
    && (forall k, f, j, m :: made(g.setFile(k, f, j, m)) == made(k))
  }

  /** mkdir asks for a directory, mknod for a device with its numbers, and open with O_CREATE for a file. */
  lemma MakesAsked<K(!new)>(g: Kernel<K>, made: K -> (NodeType, uint32, uint32), k: K, p: Path, major: uint32,
                            minor: uint32, mode: uint32, high: nat, low: nat)
    requires Makes(g, made) && HasBit9(mode, high, low)
    ensures made(Body(g, k, Mkdir(p)).0) == (ADir, 0, 0)
    ensures made(Body(g, k, Mknod(p, major, minor)).0) == (ADevice, major, minor)
    ensures made(Body(g, k, Open(p, mode)).0) == (AFile, 0, 0)
  {
    CreateBit(mode, high, low);
  }

  // A kernel that answers by a tree

  /** The state is the path that nameiparent was last asked for. */
  function Static(tree: Tree, empty: int -> bool, cwd: int, newNum: int): Kernel<Path> {
    Kernel(k => 1, k => 0, k => k, k => k, (k, fd) => 0, (k, fd) => k, (k, f, n) => (k, 0), (k, f) => (k, 0),
           (k, n) => seq(n, _ => 0 as byte), k => StatArg(0, 0, 0, 0, 0), (k, n) => seq(n, _ => 0 as byte),
           k => StatArg(0, 0, 0, 0, 0), k => k, k => k,
           (k, p) => (k, Walk(tree, From(cwd, p), Names(p))),
           (k, p) => (p, WalkParent(tree, From(cwd, p), Names(p))),
           (k, i) => k, (k, i) => k, (k, i) => k, (k, i) => k,
           (k, i) => tree.isDir(i), (k, i, n) => k,
           (k, d, i) => (k, if LastIn(tree, d, k) == 0 then 0 else -1),
           k => Dot(k), (k, d) => (k, LastIn(tree, d, k)), (k, i) => empty(i), (k, d) => k,
           (k, p, kind, a, b) => (k, Inodes.Created(tree, From(cwd, p), Names(p), kind, newNum)),
           k => (k, 1), (k, f) => (k, 0), (k, f) => k, (k, f, i, m) => k, k => cwd, (k, i) => k)
  }

  lemma StaticAnswers(tree: Tree, empty: int -> bool, cwd: int, newNum: int)
    ensures Answers(Static(tree, empty, cwd, newNum), tree, empty, cwd, newNum)
  {
    hide Walk, WalkParent, From, Names, LastIn, Dot, Inodes.Created;
  }
}
