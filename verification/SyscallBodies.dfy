/** The covered system calls twice (v3/sysfile.c, v3/sysproc.c): the original bodies, which jump to a common error
    exit, and the bodies used while recording, where each jump has become a copy of that exit and a break out of
    a loop, the result goes into a record and the value returned is read back from it.  K is the state of the
    kernel, and a Kernel holds what the bodies call. */
module SyscallBodies {
  import opened Blocks
  import opened Records
  import opened CallRecords
  import Paths

  type Path = seq<byte>

  datatype Kernel<!K> = Kernel(
    pid: K -> uint32,
    ticks: K -> uint32,
    lockTicks: K -> K,
    unlockTicks: K -> K,
    argFd: (K, uint32) -> int,                // the open file, 0 for none
    clearFd: (K, uint32) -> K,
    fileRead: (K, int, uint32) -> (K, int),
    fileStat: (K, int) -> (K, int),
    buffer: (K, uint32) -> seq<byte>,         // the caller's n bytes
    status: K -> Arg,                         // the caller's struct stat
    strayBytes: (K, uint32) -> seq<byte>,     // n bytes behind an uninitialized pointer
    strayStatus: K -> Arg,
    beginOp: K -> K,
    endOp: K -> K,
    namei: (K, Path) -> (K, int),             // 0 for none
    nameiparent: (K, Path) -> (K, int),       // with the last element kept in K
    ilock: (K, int) -> K,
    iunlock: (K, int) -> K,
    iput: (K, int) -> K,
    iunlockput: (K, int) -> K,
    isDir: (K, int) -> bool,
    addLinks: (K, int, int) -> K,             // nlink and iupdate
    dirlink: (K, int, int) -> (K, int),       // with the comparison of devices
    dotName: K -> bool,                       // the last element is "." or ".."
    dirlookup: (K, int) -> (K, int),
    isEmpty: (K, int) -> bool,
    erase: (K, int) -> K,                     // writei of an empty entry
    create: (K, Path, Paths.NodeType, uint32, uint32) -> (K, int),
    fileAlloc: K -> (K, int),                 // 0 for none
    fdAlloc: (K, int) -> (K, int),            // negative for none
    fileClose: (K, int) -> K,
    setFile: (K, int, int, uint32) -> K,      // type, ip, off and the access flags
    cwd: K -> int,
    setCwd: (K, int) -> K
  )

  /** What the callees deliver: counts and descriptors are at least -1 and fit in an int, memory has its size. */
  ghost predicate Sane<K(!new)>(g: Kernel<K>) {
    && (forall k, f, n :: -1 <= g.fileRead(k, f, n).1 < UINT - 1)
    && (forall k, f :: -1 <= g.fileStat(k, f).1 < UINT - 1)
    && (forall k, f :: -1 <= g.fdAlloc(k, f).1 < UINT - 1)
    && (forall k, n :: |g.buffer(k, n)| == n) && (forall k, n :: |g.strayBytes(k, n)| == n)
    && (forall k :: g.status(k).StatArg?) && (forall k :: g.strayStatus(k).StatArg?)
  }

  /** The word that holds a C int. */
  function Word(r: int): uint32 {
    r % UINT
  }

  /** What a call leaves in the caller's memory: read reports the whole buffer, fstat the stat. */
  function Memory<K>(g: Kernel<K>, k: K, c: Call): Output {
    match c
    case Read(_, n) => Filled(g.buffer(k, n))
    case Fstat(_) => Status(g.status(k))
    case _ => Nothing
  }

  // The original bodies

  /** What a call does when neither mode is on: the state it leaves and its result. */
  function Original<K>(g: Kernel<K>, k: K, c: Call): (K, Result) {
    var (k', r) := Body(g, k, c);
    (k', Result(Word(r), Memory(g, k', c)))
  }

  function Body<K>(g: Kernel<K>, k: K, c: Call): (K, int) {
    match c
    case Getpid => (k, g.pid(k))
    case Uptime => (g.unlockTicks(g.lockTicks(k)), g.ticks(g.lockTicks(k)))
    case Read(fd, n) => if g.argFd(k, fd) == 0 then (k, -1) else g.fileRead(k, g.argFd(k, fd), n)
    case Close(fd) => if g.argFd(k, fd) == 0 then (k, -1) else (g.fileClose(g.clearFd(k, fd), g.argFd(k, fd)), 0)
    case Fstat(fd) => if g.argFd(k, fd) == 0 then (k, -1) else g.fileStat(k, g.argFd(k, fd))
    case Link(from, to) => LinkBody(g, k, from, to)
    case Unlink(path) => UnlinkBody(g, k, path)
    case Open(path, mode) => OpenBody(g, k, path, mode)
    case Mkdir(path) => MakeBody(g, g.create(g.beginOp(k), path, Paths.ADir, 0, 0))
    case Mknod(path, major, minor) => MakeBody(g, g.create(g.beginOp(k), path, Paths.ADevice, major, minor))
    case Chdir(path) => ChdirBody(g, k, path)
  }

  function LinkBody<K>(g: Kernel<K>, k0: K, from: Path, to: Path): (K, int) {
    var a := g.namei(g.beginOp(k0), from);
    if a.1 == 0 then (g.endOp(a.0), -1)
    else
      var k1 := g.ilock(a.0, a.1);
      if g.isDir(k1, a.1) then (g.endOp(g.iunlockput(k1, a.1)), -1)
      else LinkInto(g, g.iunlock(g.addLinks(k1, a.1, 1), a.1), a.1, to)
  }

  /** The new name for the inode whose link has been counted already. */
  function LinkInto<K>(g: Kernel<K>, k: K, ip: int, to: Path): (K, int) {
    var b := g.nameiparent(k, to);
    if b.1 == 0 then (LinkUndone(g, b.0, ip), -1)
    else
      var c := g.dirlink(g.ilock(b.0, b.1), b.1, ip);
      var k2 := g.iunlockput(c.0, b.1);
      if c.1 < 0 then (LinkUndone(g, k2, ip), -1) else (g.endOp(g.iput(k2, ip)), 0)
  }

  /** The error exit: the link count goes back. */
  function LinkUndone<K>(g: Kernel<K>, k: K, ip: int): K {
    g.endOp(g.iunlockput(g.addLinks(g.ilock(k, ip), ip, -1), ip))
  }

  function UnlinkBody<K>(g: Kernel<K>, k0: K, path: Path): (K, int) {
    var a := g.nameiparent(g.beginOp(k0), path);
    if a.1 == 0 then (g.endOp(a.0), -1)
    else
      var k1 := g.ilock(a.0, a.1);
      if g.dotName(k1) then UnlinkFailed(g, k1, a.1)
      else
        var b := g.dirlookup(k1, a.1);
        if b.1 == 0 then UnlinkFailed(g, b.0, a.1) else UnlinkFound(g, g.ilock(b.0, b.1), a.1, b.1)
  }

  /** The name leads to ip; both inodes are locked. */
  function UnlinkFound<K>(g: Kernel<K>, k2: K, dp: int, ip: int): (K, int) {
    if g.isDir(k2, ip) && !g.isEmpty(k2, ip) then UnlinkFailed(g, g.iunlockput(k2, ip), dp)
    else
      var k3 := g.erase(k2, dp);
      var k4 := if g.isDir(k3, ip) then g.addLinks(k3, dp, -1) else k3;
      (g.endOp(g.iunlockput(g.addLinks(g.iunlockput(k4, dp), ip, -1), ip)), 0)
  }

  /** The error exit. */
  function UnlinkFailed<K>(g: Kernel<K>, k: K, dp: int): (K, int) {
    (g.endOp(g.iunlockput(k, dp)), -1)
  }

  /** O_CREATE is bit 9 of the mode and O_RDONLY is 0. */
  predicate Creates(mode: uint32) {
    mode / 0x200 % 2 == 1
  }

  function OpenBody<K>(g: Kernel<K>, k0: K, path: Path, mode: uint32): (K, int) {
    var a := OpenInode(g, g.beginOp(k0), path, mode);
    if a.1 == 0 then (g.endOp(a.0), -1)
    else
      var f := g.fileAlloc(a.0);
      if f.1 == 0 then (g.endOp(g.iunlockput(f.0, a.1)), -1)
      else
        var d := g.fdAlloc(f.0, f.1);
        if d.1 < 0 then (g.endOp(g.iunlockput(g.fileClose(d.0, f.1), a.1)), -1)
        else (g.setFile(g.endOp(g.iunlock(d.0, a.1)), f.1, a.1, mode), d.1)
  }

  /** The inode to open, locked, or 0. */
  function OpenInode<K>(g: Kernel<K>, k: K, path: Path, mode: uint32): (K, int) {
    if Creates(mode) then g.create(k, path, Paths.AFile, 0, 0)
    else
      var a := g.namei(k, path);
      if a.1 == 0 then a
      else
        var k1 := g.ilock(a.0, a.1);
        if g.isDir(k1, a.1) && mode != 0 then (g.iunlockput(k1, a.1), 0) else (k1, a.1)
  }

  function MakeBody<K>(g: Kernel<K>, a: (K, int)): (K, int) {
    if a.1 == 0 then (g.endOp(a.0), -1) else (g.endOp(g.iunlockput(a.0, a.1)), 0)
  }

  function ChdirBody<K>(g: Kernel<K>, k0: K, path: Path): (K, int) {
    var a := g.namei(g.beginOp(k0), path);
    if a.1 == 0 then (g.endOp(a.0), -1)
    else
      var k1 := g.ilock(a.0, a.1);
      if !g.isDir(k1, a.1) then (g.endOp(g.iunlockput(k1, a.1)), -1)
      else
        var k2 := g.iunlock(k1, a.1);
        (g.setCwd(g.endOp(g.iput(k2, g.cwd(k2))), a.1), 0)
  }

  // The bodies used while recording

  /** What the loop that replaces a body leaves and the value of its output variable, which starts at -1: every
      jump to an exit is a copy of that exit, and every return a break. */
  function Copied<K>(g: Kernel<K>, k: K, c: Call): (K, int) {
    match c
    case Getpid => (k, g.pid(k))
    case Uptime =>
      var k1 := g.lockTicks(k);
      (g.unlockTicks(k1), g.ticks(k1))
    case Read(fd, n) =>
      var f := g.argFd(k, fd);
      if f == 0 then (k, -1) else g.fileRead(k, f, n)
    case Close(fd) =>
      var f := g.argFd(k, fd);
      if f == 0 then (k, -1) else (g.fileClose(g.clearFd(k, fd), f), 0)
    case Fstat(fd) =>
      var f := g.argFd(k, fd);
      if f == 0 then (k, -1) else g.fileStat(k, f)
    case Link(from, to) => LinkCopied(g, k, from, to)
    case Unlink(path) => UnlinkCopied(g, k, path)
    case Open(path, mode) => OpenCopied(g, k, path, mode)
    case Mkdir(path) =>
      var a := g.create(g.beginOp(k), path, Paths.ADir, 0, 0);
      if a.1 == 0 then (g.endOp(a.0), -1) else (g.endOp(g.iunlockput(a.0, a.1)), 0)
    case Mknod(path, major, minor) =>
      var a := g.create(g.beginOp(k), path, Paths.ADevice, major, minor);
      if a.1 == 0 then (g.endOp(a.0), -1) else (g.endOp(g.iunlockput(a.0, a.1)), 0)
    case Chdir(path) => ChdirCopied(g, k, path)
  }

  function OpenCopied<K>(g: Kernel<K>, k0: K, path: Path, mode: uint32): (K, int) {
    if Creates(mode) then
      var a := g.create(g.beginOp(k0), path, Paths.AFile, 0, 0);
      if a.1 == 0 then (g.endOp(a.0), -1) else DescriptorCopied(g, a.0, a.1, mode)
    else
      var a := g.namei(g.beginOp(k0), path);
      if a.1 == 0 then (g.endOp(a.0), -1)
      else
        var k1 := g.ilock(a.0, a.1);
        if g.isDir(k1, a.1) && mode != 0 then (g.endOp(g.iunlockput(k1, a.1)), -1)
        else DescriptorCopied(g, k1, a.1, mode)
  }

  function DescriptorCopied<K>(g: Kernel<K>, k: K, ip: int, mode: uint32): (K, int) {
    var f := g.fileAlloc(k);
    if f.1 == 0 || g.fdAlloc(f.0, f.1).1 < 0 then
      var k1 := if f.1 != 0 then g.fileClose(g.fdAlloc(f.0, f.1).0, f.1) else f.0;
      (g.endOp(g.iunlockput(k1, ip)), -1)
    else
      var d := g.fdAlloc(f.0, f.1);
      (g.setFile(g.endOp(g.iunlock(d.0, ip)), f.1, ip, mode), d.1)
  }

  function ChdirCopied<K>(g: Kernel<K>, k0: K, path: Path): (K, int) {
    var a := g.namei(g.beginOp(k0), path);
    if a.1 == 0 then (g.endOp(a.0), -1)
    else if !g.isDir(g.ilock(a.0, a.1), a.1) then
      (g.endOp(g.iunlockput(g.ilock(a.0, a.1), a.1)), -1)
    else
      var k1 := g.iunlock(g.ilock(a.0, a.1), a.1);
      var k2 := g.endOp(g.iput(k1, g.cwd(k1)));
      (g.setCwd(k2, a.1), 0)
  }

  function LinkCopied<K>(g: Kernel<K>, k0: K, from: Path, to: Path): (K, int) {
    var a := g.namei(g.beginOp(k0), from);
    if a.1 == 0 then (g.endOp(a.0), -1)
    else
      var k1 := g.ilock(a.0, a.1);
      if g.isDir(k1, a.1) then (g.endOp(g.iunlockput(k1, a.1)), -1)
      else
        var b := g.nameiparent(g.iunlock(g.addLinks(k1, a.1, 1), a.1), to);
        if b.1 == 0 then (g.endOp(g.iunlockput(g.addLinks(g.ilock(b.0, a.1), a.1, -1), a.1)), -1)
        else
          var c := g.dirlink(g.ilock(b.0, b.1), b.1, a.1);
          if c.1 < 0 then
            (g.endOp(g.iunlockput(g.addLinks(g.ilock(g.iunlockput(c.0, b.1), a.1), a.1, -1), a.1)), -1)
          else
            (g.endOp(g.iput(g.iunlockput(c.0, b.1), a.1)), 0)
  }

  function UnlinkCopied<K>(g: Kernel<K>, k0: K, path: Path): (K, int) {
    var a := g.nameiparent(g.beginOp(k0), path);
    if a.1 == 0 then (g.endOp(a.0), -1)
    else
      var k1 := g.ilock(a.0, a.1);
      if g.dotName(k1) then (g.endOp(g.iunlockput(k1, a.1)), -1)
      else
        var b := g.dirlookup(k1, a.1);
        if b.1 == 0 then (g.endOp(g.iunlockput(b.0, a.1)), -1)
        else
          var k2 := g.ilock(b.0, b.1);
          if g.isDir(k2, b.1) && !g.isEmpty(k2, b.1) then
            (g.endOp(g.iunlockput(g.iunlockput(k2, b.1), a.1)), -1)
          else
            var k3 := g.erase(k2, a.1);
            var k4 := if g.isDir(k3, b.1) then g.addLinks(k3, a.1, -1) else k3;
            (g.endOp(g.iunlockput(g.addLinks(g.iunlockput(k4, a.1), b.1, -1), b.1)), 0)
  }

  /** addInt, addUInt, addStr, addRaw and addStat. */
  function Add(r: Scr, a: Arg): Scr {
    r.(args := r.args + [a])
  }

  /** createSCR and the inputs. */
  function Begun(c: Call): Scr {
    Scr(Tag(c), Inputs(c))
  }

  /** The output goes into the record, after it what the pointer argument points to, which is uninitialized if
      there is no open file. */
  function Finished<K>(g: Kernel<K>, k: K, c: Call, r: int, known: bool): Scr {
    match c
    case Uptime => Add(Begun(c), UintArg(Word(r)))
    case Read(_, n) => Add(Add(Begun(c), IntArg(Word(r))), RawArg(if known then g.buffer(k, n) else g.strayBytes(k, n)))
    case Fstat(_) => Add(Add(Begun(c), IntArg(Word(r))), if known then g.status(k) else g.strayStatus(k))
    case _ => Add(Begun(c), IntArg(Word(r)))
  }

  /** scr.args[get1stOutputPos(scr.syscall)].val.num. */
  function ReadBack(r: Scr): uint32
    requires 0 <= FirstOutput(r.syscall) < |r.args|
    requires r.args[FirstOutput(r.syscall)].IntArg? || r.args[FirstOutput(r.syscall)].UintArg?
  {
    var a := r.args[FirstOutput(r.syscall)];
    if a.IntArg? then a.num else a.unum
  }

  /** The call uses no file descriptor, or one that is open. */
  predicate Opened<K>(g: Kernel<K>, k: K, c: Call) {
    c.Read? || c.Fstat? ==> g.argFd(k, c.fd) != 0
  }

  lemma OutputIsThere<K>(g: Kernel<K>, k: K, c: Call, r: int, known: bool)
    ensures var s := Finished(g, k, c, r, known);
            && FirstOutput(s.syscall) == |Inputs(c)| < |s.args| <= MAX_ARGC
            && (s.args[|Inputs(c)|] == if c.Uptime? then UintArg(Word(r)) else IntArg(Word(r)))
  {
    FirstOutputIsAfterInputs(c);
  }

  /** What a call does while it is being recorded: the state, the result and the record. */
  function Recorded<K>(g: Kernel<K>, k: K, c: Call): (K, Result, Scr) {
    var (k', r) := Copied(g, k, c);
    var scr := Finished(g, k', c, r, Opened(g, k, c));
    OutputIsThere(g, k', c, r, Opened(g, k, c));
    (k', Result(ReadBack(scr), Memory(g, k', c)), scr)
  }

  // The two agree

  lemma CopiedIsBody<K>(g: Kernel<K>, k: K, c: Call)
    ensures Copied(g, k, c) == Body(g, k, c)
  {
  }

  lemma FinishedIsRecord<K(!new)>(g: Kernel<K>, k: K, c: Call, r: int, known: bool)
    requires Sane(g)
    ensures Fits(c, Result(Word(r), Memory(g, k, c))) && Fits(c, Result(Word(r), Pointed(g, k, c, known)))
    ensures Finished(g, k, c, r, known) == Record(c, Result(Word(r), Pointed(g, k, c, known)))
  {
  }

  /** What the pointer argument of a call points to when the call has ended. */
  function Pointed<K>(g: Kernel<K>, k: K, c: Call, known: bool): Output {
    if known then Memory(g, k, c)
    else match c
      case Read(_, n) => Filled(g.strayBytes(k, n))
      case Fstat(_) => Status(g.strayStatus(k))
      case _ => Nothing
  }

  /** The result that ends up in the record. */
  function Kept<K>(g: Kernel<K>, k: K, c: Call): Result {
    var (k', res) := Original(g, k, c);
    res.(out := Pointed(g, k', c, Opened(g, k, c)))
  }

  /** Recording changes neither the effect nor the result of a call, on every path through its body, and stores
      the call with that result; without an open file, read and fstat store stray memory as their output. */
  lemma RecordedIsOriginal<K(!new)>(g: Kernel<K>, k: K, c: Call)
    requires Sane(g)
    ensures var (k', res, scr) := Recorded(g, k, c);
            (k', res) == Original(g, k, c) && Fits(c, res) && Fits(c, Kept(g, k, c)) && scr == Record(c, Kept(g, k, c))
    ensures Opened(g, k, c) ==> Kept(g, k, c) == Recorded(g, k, c).1
  {
    hide Body, Copied, Finished, Record, Fits;
    var (k', r) := Body(g, k, c);
    CopiedIsBody(g, k, c);
    OutputIsThere(g, k', c, r, Opened(g, k, c));
    FinishedIsRecord(g, k', c, r, Opened(g, k, c));
  }

  /** g and h differ at most in what uninitialized pointers point to. */
  ghost predicate DifferInStray<K(!new)>(g: Kernel<K>, h: Kernel<K>) {
    h == g.(strayBytes := h.strayBytes, strayStatus := h.strayStatus) && Sane(h)
  }

  /** The record of a call holds its result. */
  predicate RecordsRight<K>(g: Kernel<K>, k: K, c: Call) {
    var (_, res, scr) := Recorded(g, k, c);
    Fits(c, res) && scr == Record(c, res)
  }

  /** The record holds the result of the call, whatever uninitialized pointers point to, if and only if the call
      uses no descriptor or an open one, or reads no bytes. */
  lemma RecordIsRightExactly<K(!new)>(g: Kernel<K>, k: K, c: Call)
    requires Sane(g)
    ensures (forall h :: DifferInStray(g, h) ==> RecordsRight(h, k, c)) <==>
              Opened(g, k, c) || (c.Read? && c.n == 0)
  {
    hide Body, Copied, Recorded, Record, Fits;
    if Opened(g, k, c) || (c.Read? && c.n == 0) {
      forall h | DifferInStray(g, h) ensures RecordsRight(h, k, c) {
        RecordedIsOriginal(h, k, c);
        NothingToPoint(h, Recorded(h, k, c).0, c);
      }
    } else {
      var h := Disagreeing(g);
      RecordedIsOriginal(h, k, c);
      StrayShows(h, Recorded(h, k, c).0, c, Recorded(h, k, c).1.ret);
      assert DifferInStray(g, h) && !RecordsRight(h, k, c);
    }
  }

  lemma NothingToPoint<K(!new)>(g: Kernel<K>, k: K, c: Call)
    requires Sane(g)
    ensures c.Read? && c.n == 0 ==> Pointed(g, k, c, false) == Memory(g, k, c)
  {
  }

  /** Two records of one call with the same return value are equal only if their outputs are. */
  lemma StrayShows<K(!new)>(g: Kernel<K>, k: K, c: Call, ret: uint32)
    requires Sane(g) && (c.Fstat? || (c.Read? && c.n > 0))
    requires forall k, n :: n > 0 ==> g.strayBytes(k, n) != g.buffer(k, n)
    requires forall k :: g.strayStatus(k) != g.status(k)
    ensures Fits(c, Result(ret, Pointed(g, k, c, false))) && Fits(c, Result(ret, Memory(g, k, c)))
    ensures Record(c, Result(ret, Pointed(g, k, c, false))) != Record(c, Result(ret, Memory(g, k, c)))
  {
    var a, b := Record(c, Result(ret, Pointed(g, k, c, false))), Record(c, Result(ret, Memory(g, k, c)));
    assert a.args[|Inputs(c)| + 1] != b.args[|Inputs(c)| + 1];
  }

  function Flipped(b: seq<byte>): (f: seq<byte>)
    ensures |f| == |b| && (b != [] ==> f != b)
  {
    if b == [] then []
    else
      var first: int := b[0];
      b[0 := (first + 1) % 0x100]
  }

  function OtherStatus(a: Arg): (b: Arg)
    ensures b.StatArg? && b != a
  {
    if a.StatArg? then
      var t: int := a.typ;
      a.(typ := (t + 1) % 0x1_0000)
    else StatArg(0, 0, 0, 0, 0)
  }

  /** The same kernel with stray memory that differs from the caller's. */
  function Disagreeing<K(!new)>(g: Kernel<K>): (h: Kernel<K>)
    requires Sane(g)
    ensures DifferInStray(g, h)
    ensures forall k, n :: n > 0 ==> h.strayBytes(k, n) != h.buffer(k, n)
    ensures forall k :: h.strayStatus(k) != h.status(k)
  {
    g.(strayBytes := (k, n) => Flipped(g.buffer(k, n)), strayStatus := k => OtherStatus(g.status(k)))
  }

  // The bodies as they run; each is proved against the other form

  method LinkOriginal<K>(g: Kernel<K>, k0: K, from: Path, to: Path) returns (k: K, r: int)
    ensures (k, r) == LinkCopied(g, k0, from, to)
  {
    k := g.beginOp(k0);
    var (ka, ip) := g.namei(k, from);
    k := ka;
    if ip == 0 {
      k := g.endOp(k);
      return k, -1;
    }
    k := g.ilock(k, ip);
    if g.isDir(k, ip) {
      k := g.iunlockput(k, ip);
      k := g.endOp(k);
      return k, -1;
    }
    k := g.addLinks(k, ip, 1);
    k := g.iunlock(k, ip);
    label bad: {
      var (kb, dp) := g.nameiparent(k, to);
      k := kb;
      if dp == 0 {
        break bad;
      }
      k := g.ilock(k, dp);
      var (kc, e) := g.dirlink(k, dp, ip);
      k := kc;
      if e < 0 {
        k := g.iunlockput(k, dp);
        break bad;
      }
      k := g.iunlockput(k, dp);
      k := g.iput(k, ip);
      k := g.endOp(k);
      return k, 0;
    }
    k := g.ilock(k, ip);
    k := g.addLinks(k, ip, -1);
    k := g.iunlockput(k, ip);
    k := g.endOp(k);
    return k, -1;
  }

  method LinkRecorded<K>(g: Kernel<K>, k0: K, from: Path, to: Path) returns (k: K, r: int)
    ensures (k, r) == LinkBody(g, k0, from, to)
  {
    k, r := k0, -1;
    label once: {
      k := g.beginOp(k);
      var (ka, ip) := g.namei(k, from);
      k := ka;
      if ip == 0 {
        k := g.endOp(k);
        break once;
      }
      k := g.ilock(k, ip);
      if g.isDir(k, ip) {
        k := g.iunlockput(k, ip);
        k := g.endOp(k);
        break once;
      }
      k := g.addLinks(k, ip, 1);
      k := g.iunlock(k, ip);
      var (kb, dp) := g.nameiparent(k, to);
      k := kb;
      if dp == 0 {
        k := g.ilock(k, ip);
        k := g.addLinks(k, ip, -1);
        k := g.iunlockput(k, ip);
        k := g.endOp(k);
        break once;
      }
      k := g.ilock(k, dp);
      var (kc, e) := g.dirlink(k, dp, ip);
      k := kc;
      if e < 0 {
        k := g.iunlockput(k, dp);
        k := g.ilock(k, ip);
        k := g.addLinks(k, ip, -1);
        k := g.iunlockput(k, ip);
        k := g.endOp(k);
        break once;
      }
      k := g.iunlockput(k, dp);
      k := g.iput(k, ip);
      k := g.endOp(k);
      r := 0;
    }
  }

  method UnlinkOriginal<K>(g: Kernel<K>, k0: K, path: Path) returns (k: K, r: int)
    ensures (k, r) == UnlinkCopied(g, k0, path)
  {
    k := g.beginOp(k0);
    var (ka, dp) := g.nameiparent(k, path);
    k := ka;
    if dp == 0 {
      k := g.endOp(k);
      return k, -1;
    }
    k := g.ilock(k, dp);
    label bad: {
      if g.dotName(k) {
        break bad;
      }
      var (kb, ip) := g.dirlookup(k, dp);
      k := kb;
      if ip == 0 {
        break bad;
      }
      k := g.ilock(k, ip);
      if g.isDir(k, ip) && !g.isEmpty(k, ip) {
        k := g.iunlockput(k, ip);
        break bad;
      }
      k := g.erase(k, dp);
      if g.isDir(k, ip) {
        k := g.addLinks(k, dp, -1);
      }
      k := g.iunlockput(k, dp);
      k := g.addLinks(k, ip, -1);
      k := g.iunlockput(k, ip);
      k := g.endOp(k);
      return k, 0;
    }
    k := g.iunlockput(k, dp);
    k := g.endOp(k);
    return k, -1;
  }

  method UnlinkRecorded<K>(g: Kernel<K>, k0: K, path: Path) returns (k: K, r: int)
    ensures (k, r) == UnlinkBody(g, k0, path)
  {
    k, r := k0, -1;
    label once: {
      k := g.beginOp(k);
      var (ka, dp) := g.nameiparent(k, path);
      k := ka;
      if dp == 0 {
        k := g.endOp(k);
        break once;
      }
      k := g.ilock(k, dp);
      if g.dotName(k) {
        k := g.iunlockput(k, dp);
        k := g.endOp(k);
        break once;
      }
      var (kb, ip) := g.dirlookup(k, dp);
      k := kb;
      if ip == 0 {
        k := g.iunlockput(k, dp);
        k := g.endOp(k);
        break once;
      }
      k := g.ilock(k, ip);
      if g.isDir(k, ip) && !g.isEmpty(k, ip) {
        k := g.iunlockput(k, ip);
        k := g.iunlockput(k, dp);
        k := g.endOp(k);
        break once;
      }
      k := g.erase(k, dp);
      if g.isDir(k, ip) {
        k := g.addLinks(k, dp, -1);
      }
      k := g.iunlockput(k, dp);
      k := g.addLinks(k, ip, -1);
      k := g.iunlockput(k, ip);
      k := g.endOp(k);
      r := 0;
    }
  }

  method OpenOriginal<K>(g: Kernel<K>, k0: K, path: Path, mode: uint32) returns (k: K, r: int)
    ensures (k, r) == OpenCopied(g, k0, path, mode)
  {
    k := g.beginOp(k0);
    var ip;
    if Creates(mode) {
      var (ka, i) := g.create(k, path, Paths.AFile, 0, 0);
      k, ip := ka, i;
      if ip == 0 {
        k := g.endOp(k);
        return k, -1;
      }
    } else {
      var (ka, i) := g.namei(k, path);
      k, ip := ka, i;
      if ip == 0 {
        k := g.endOp(k);
        return k, -1;
      }
      k := g.ilock(k, ip);
      if g.isDir(k, ip) && mode != 0 {
        k := g.iunlockput(k, ip);
        k := g.endOp(k);
        return k, -1;
      }
    }
    var f;
    k, f, r := Descriptor(g, k);
    if f == 0 || r < 0 {
      if f != 0 {
        k := g.fileClose(k, f);
      }
      k := g.iunlockput(k, ip);
      k := g.endOp(k);
      return k, -1;
    }
    k := g.iunlock(k, ip);
    k := g.endOp(k);
    k := g.setFile(k, f, ip, mode);
  }

  /** filealloc and, if that succeeds, fdalloc. */
  method Descriptor<K>(g: Kernel<K>, k0: K) returns (k: K, f: int, fd: int)
    ensures f == 0 ==> fd == -1
    ensures f != 0 ==> fd == g.fdAlloc(g.fileAlloc(k0).0, f).1
    ensures var a := g.fileAlloc(k0);
            f == a.1 && (k, fd) == if f == 0 then (a.0, -1) else g.fdAlloc(a.0, f)
  {
    var (ka, i) := g.fileAlloc(k0);
    k, f, fd := ka, i, -1;
    if f != 0 {
      var (kb, j) := g.fdAlloc(k, f);
      k, fd := kb, j;
    }
  }

  method OpenRecorded<K>(g: Kernel<K>, k0: K, path: Path, mode: uint32) returns (k: K, r: int)
    ensures (k, r) == OpenBody(g, k0, path, mode)
  {
    k, r := k0, -1;
    label once: {
      k := g.beginOp(k);
      var ip;
      if Creates(mode) {
        var (ka, i) := g.create(k, path, Paths.AFile, 0, 0);
        k, ip := ka, i;
        if ip == 0 {
          k := g.endOp(k);
          break once;
        }
      } else {
        var (ka, i) := g.namei(k, path);
        k, ip := ka, i;
        if ip == 0 {
          k := g.endOp(k);
          break once;
        }
        k := g.ilock(k, ip);
        if g.isDir(k, ip) && mode != 0 {
          k := g.iunlockput(k, ip);
          k := g.endOp(k);
          break once;
        }
      }
      var f, fd;
      k, f, fd := Descriptor(g, k);
      if f == 0 || fd < 0 {
        if f != 0 {
          k := g.fileClose(k, f);
        }
        k := g.iunlockput(k, ip);
        k := g.endOp(k);
        break once;
      }
      k := g.iunlock(k, ip);
      k := g.endOp(k);
      k := g.setFile(k, f, ip, mode);
      r := fd;
    }
  }

  method ReadRecorded<K>(g: Kernel<K>, k0: K, fd: uint32, n: uint32) returns (k: K, r: int)
    ensures (k, r) == Body(g, k0, Read(fd, n))
  {
    k, r := k0, -1;
    label once: {
      var f := g.argFd(k, fd);
      if f == 0 {
        break once;
      }
      var (ka, count) := g.fileRead(k, f, n);
      k, r := ka, count;
    }
  }

  method CloseRecorded<K>(g: Kernel<K>, k0: K, fd: uint32) returns (k: K, r: int)
    ensures (k, r) == Body(g, k0, Close(fd))
  {
    k, r := k0, -1;
    label once: {
      var f := g.argFd(k, fd);
      if f == 0 {
        break once;
      }
      k := g.clearFd(k, fd);
      k := g.fileClose(k, f);
      r := 0;
    }
  }

  method FstatRecorded<K>(g: Kernel<K>, k0: K, fd: uint32) returns (k: K, r: int)
    ensures (k, r) == Body(g, k0, Fstat(fd))
  {
    k, r := k0, -1;
    label once: {
      var f := g.argFd(k, fd);
      if f == 0 {
        break once;
      }
      var (ka, e) := g.fileStat(k, f);
      k, r := ka, e;
    }
  }

  /** sys_mkdir and sys_mknod. */
  method MakeRecorded<K>(g: Kernel<K>, k0: K, path: Path, kind: Paths.NodeType, major: uint32, minor: uint32)
    returns (k: K, r: int)
    ensures (k, r) == MakeBody(g, g.create(g.beginOp(k0), path, kind, major, minor))
  {
    k, r := k0, -1;
    label once: {
      k := g.beginOp(k);
      var (ka, ip) := g.create(k, path, kind, major, minor);
      k := ka;
      if ip == 0 {
        k := g.endOp(k);
        break once;
      }
      k := g.iunlockput(k, ip);
      k := g.endOp(k);
      r := 0;
    }
  }

  method ChdirRecorded<K>(g: Kernel<K>, k0: K, path: Path) returns (k: K, r: int)
    ensures (k, r) == ChdirBody(g, k0, path)
  {
    k, r := k0, -1;
    label once: {
      k := g.beginOp(k);
      var (ka, ip) := g.namei(k, path);
      k := ka;
      if ip == 0 {
        k := g.endOp(k);
        break once;
      }
      k := g.ilock(k, ip);
      if !g.isDir(k, ip) {
        k := g.iunlockput(k, ip);
        k := g.endOp(k);
        break once;
      }
      k := g.iunlock(k, ip);
      k := g.iput(k, g.cwd(k));
      k := g.endOp(k);
      k := g.setCwd(k, ip);
      r := 0;
    }
  }

  method ChdirOriginal<K>(g: Kernel<K>, k0: K, path: Path) returns (k: K, r: int)
    ensures (k, r) == ChdirCopied(g, k0, path)
  {
    k := g.beginOp(k0);
    var (ka, ip) := g.namei(k, path);
    k := ka;
    if ip == 0 {
      k := g.endOp(k);
      return k, -1;
    }
    k := g.ilock(k, ip);
    if !g.isDir(k, ip) {
      k := g.iunlockput(k, ip);
      k := g.endOp(k);
      return k, -1;
    }
    k := g.iunlock(k, ip);
    k := g.iput(k, g.cwd(k));
    k := g.endOp(k);
    k := g.setCwd(k, ip);
    return k, 0;
  }

  method MakeOriginal<K>(g: Kernel<K>, k0: K, path: Path, kind: Paths.NodeType, major: uint32, minor: uint32)
    returns (k: K, r: int)
    ensures kind.ADir? && major == minor == 0 ==> (k, r) == Copied(g, k0, Mkdir(path))
    ensures kind.ADevice? ==> (k, r) == Copied(g, k0, Mknod(path, major, minor))
  {
    k := g.beginOp(k0);
    var (ka, ip) := g.create(k, path, kind, major, minor);
    k := ka;
    if ip == 0 {
      k := g.endOp(k);
      return k, -1;
    }
    k := g.iunlockput(k, ip);
    k := g.endOp(k);
    return k, 0;
  }

  /** A call with neither mode on: what it does and returns is what it does and returns while recorded. */
  method RunOriginal<K(!new)>(g: Kernel<K>, k0: K, c: Call) returns (k: K, res: Result)
    requires Sane(g)
    ensures (k, res) == (Recorded(g, k0, c).0, Recorded(g, k0, c).1)
  {
    hide LinkCopied, UnlinkCopied, OpenCopied, ChdirCopied;
    var r;
    match c {
      case Getpid => k, r := k0, g.pid(k0);
      case Uptime =>
        k := g.lockTicks(k0);
        r := g.ticks(k);
        k := g.unlockTicks(k);
      case Read(fd, n) =>
        k, r := k0, -1;
        var f := g.argFd(k, fd);
        if f != 0 {
          var (ka, count) := g.fileRead(k, f, n);
          k, r := ka, count;
        }
      case Close(fd) =>
        k, r := k0, -1;
        var f := g.argFd(k, fd);
        if f != 0 {
          k := g.clearFd(k, fd);
          k, r := g.fileClose(k, f), 0;
        }
      case Fstat(fd) =>
        k, r := k0, -1;
        var f := g.argFd(k, fd);
        if f != 0 {
          var (ka, e) := g.fileStat(k, f);
          k, r := ka, e;
        }
      case Link(from, to) => k, r := LinkOriginal(g, k0, from, to);
      case Unlink(path) => k, r := UnlinkOriginal(g, k0, path);
      case Open(path, mode) => k, r := OpenOriginal(g, k0, path, mode);
      case Mkdir(path) => k, r := MakeOriginal(g, k0, path, Paths.ADir, 0, 0);
      case Mknod(path, major, minor) => k, r := MakeOriginal(g, k0, path, Paths.ADevice, major, minor);
      case Chdir(path) => k, r := ChdirOriginal(g, k0, path);
    }
    res := Result(Word(r), Memory(g, k, c));
    OutputIsThere(g, k, c, r, Opened(g, k0, c));
  }

  /** A call while it is recorded: what it does and returns is what it does and returns with neither mode on, and
      the record holds the call with that result unless read or fstat had no open file. */
  method RunRecorded<K(!new)>(g: Kernel<K>, k0: K, c: Call) returns (k: K, res: Result, scr: Scr)
    requires Sane(g)
    ensures (k, res) == Original(g, k0, c) && Fits(c, Kept(g, k0, c)) && scr == Record(c, Kept(g, k0, c))
    ensures Opened(g, k0, c) ==> scr == Record(c, res)
  {
    hide LinkBody, UnlinkBody, OpenBody, ChdirBody, MakeBody, Fits, Record;
    var r;
    match c {
      case Getpid => k, r := k0, g.pid(k0);
      case Uptime =>
        k := g.lockTicks(k0);
        r := g.ticks(k);
        k := g.unlockTicks(k);
      case Read(fd, n) => k, r := ReadRecorded(g, k0, fd, n);
      case Close(fd) => k, r := CloseRecorded(g, k0, fd);
      case Fstat(fd) => k, r := FstatRecorded(g, k0, fd);
      case Link(from, to) => k, r := LinkRecorded(g, k0, from, to);
      case Unlink(path) => k, r := UnlinkRecorded(g, k0, path);
      case Open(path, mode) => k, r := OpenRecorded(g, k0, path, mode);
      case Mkdir(path) => k, r := MakeRecorded(g, k0, path, Paths.ADir, 0, 0);
      case Mknod(path, major, minor) => k, r := MakeRecorded(g, k0, path, Paths.ADevice, major, minor);
      case Chdir(path) => k, r := ChdirRecorded(g, k0, path);
    }
    scr := Finished(g, k, c, r, Opened(g, k0, c));
    OutputIsThere(g, k, c, r, Opened(g, k0, c));
    FinishedIsRecord(g, k, c, r, Opened(g, k0, c));
    res := Result(ReadBack(scr), Memory(g, k, c));
  }

  // Transactions

  /** depth counts open transactions: only begin_op and end_op change it. */
  ghost predicate Counts<K(!new)>(g: Kernel<K>, depth: K -> int) {
    && (forall k :: depth(g.beginOp(k)) == depth(k) + 1) && (forall k :: depth(g.endOp(k)) == depth(k) - 1)
    && (forall k, p :: depth(g.namei(k, p).0) == depth(k)) && (forall k, p :: depth(g.nameiparent(k, p).0) == depth(k))
    && (forall k, i :: depth(g.ilock(k, i)) == depth(k)) && (forall k, i :: depth(g.iunlock(k, i)) == depth(k))
    && (forall k, i :: depth(g.iput(k, i)) == depth(k)) && (forall k, i :: depth(g.iunlockput(k, i)) == depth(k))
    && (forall k, i, n :: depth(g.addLinks(k, i, n)) == depth(k))
    && (forall k, d, i :: depth(g.dirlink(k, d, i).0) == depth(k))
    && (forall k, d :: depth(g.dirlookup(k, d).0) == depth(k)) && (forall k, d :: depth(g.erase(k, d)) == depth(k))
    && (forall k, p, t, a, b :: depth(g.create(k, p, t, a, b).0) == depth(k))
    && (forall k :: depth(g.fileAlloc(k).0) == depth(k)) && (forall k, f :: depth(g.fdAlloc(k, f).0) == depth(k))
    && (forall k, f :: depth(g.fileClose(k, f)) == depth(k))
    && (forall k, f, i, m :: depth(g.setFile(k, f, i, m)) == depth(k))
    && (forall k :: depth(g.lockTicks(k)) == depth(k)) && (forall k :: depth(g.unlockTicks(k)) == depth(k))
    && (forall k, f, n :: depth(g.fileRead(k, f, n).0) == depth(k))
    && (forall k, f :: depth(g.fileStat(k, f).0) == depth(k))
    && (forall k, f :: depth(g.clearFd(k, f)) == depth(k)) && (forall k, i :: depth(g.setCwd(k, i)) == depth(k))
  }

  lemma LinkBalances<K(!new)>(g: Kernel<K>, depth: K -> int, k: K, from: Path, to: Path)
    requires Counts(g, depth)
    ensures depth(LinkBody(g, k, from, to).0) == depth(k)
  {
  }

  lemma UnlinkBalances<K(!new)>(g: Kernel<K>, depth: K -> int, k: K, path: Path)
    requires Counts(g, depth)
    ensures depth(UnlinkBody(g, k, path).0) == depth(k)
  {
  }

  lemma OpenBalances<K(!new)>(g: Kernel<K>, depth: K -> int, k: K, path: Path, mode: uint32)
    requires Counts(g, depth)
    ensures depth(OpenBody(g, k, path, mode).0) == depth(k)
  {
  }

  lemma ChdirBalances<K(!new)>(g: Kernel<K>, depth: K -> int, k: K, path: Path)
    requires Counts(g, depth)
    ensures depth(ChdirBody(g, k, path).0) == depth(k)
  {
    var (ka, ip) := g.namei(g.beginOp(k), path);
    assert depth(ka) == depth(k) + 1;
    var k1 := g.ilock(ka, ip);
    assert depth(k1) == depth(k) + 1;
    var k2 := g.iunlock(k1, ip);
    var was: int := g.cwd(k2);
    var k3 := g.endOp(g.iput(k2, was));
    assert depth(k3) == depth(k);
    assert depth(g.setCwd(k3, ip)) == depth(k);
  }

  lemma OthersBalance<K(!new)>(g: Kernel<K>, depth: K -> int, k: K, c: Call)
    requires Counts(g, depth) && !c.Link? && !c.Unlink? && !c.Open? && !c.Chdir?
    ensures depth(Body(g, k, c).0) == depth(k)
  {
  }

  /** Every path through every covered call ends each transaction it begins, in both forms. */
  lemma TransactionsBalance<K(!new)>(g: Kernel<K>, depth: K -> int, k: K, c: Call)
    requires Counts(g, depth)
    ensures depth(Original(g, k, c).0) == depth(k) && depth(Recorded(g, k, c).0) == depth(k)
  {
    hide Counts, Copied, LinkBody, UnlinkBody, OpenBody, ChdirBody;
    CopiedIsBody(g, k, c);
    match c
    case Link(from, to) => LinkBalances(g, depth, k, from, to);
    case Unlink(path) => UnlinkBalances(g, depth, k, path);
    case Open(path, mode) => OpenBalances(g, depth, k, path, mode);
    case Chdir(path) => ChdirBalances(g, depth, k, path);
    case _ => OthersBalance(g, depth, k, c);
  }
}
