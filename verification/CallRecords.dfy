/** What a covered system call stores (v3/sysproc.c, v3/sysfile.c), when a stored record answers a call, and what
    a record that does not answer it leaves in the caller's memory. */
module CallRecords {
  import opened Blocks
  import opened Records

  /** The covered calls.  Paths are given without the terminating zero. */
  datatype Call =
    | Getpid
    | Uptime
    | Read(fd: uint32, n: uint32)
    | Close(fd: uint32)
    | Fstat(fd: uint32)
    | Link(path: seq<byte>, other: seq<byte>)
    | Unlink(path: seq<byte>)
    | Open(path: seq<byte>, mode: uint32)
    | Mkdir(path: seq<byte>)
    | Mknod(path: seq<byte>, major: uint32, minor: uint32)
    | Chdir(path: seq<byte>)

  /** What a call leaves in the caller's memory. */
  datatype Output = Nothing | Filled(bytes: seq<byte>) | Status(st: Arg)

  datatype Result = Result(ret: uint32, out: Output)

  /** Arguments within the limits of the record format. */
  predicate Valid(c: Call) {
    match c
    case Read(_, n) => n <= MAX_RAW_SIZE
    case Link(path, other) => |path| <= MAX_RAW_SIZE && |other| <= MAX_RAW_SIZE
    case Unlink(path) => |path| <= MAX_RAW_SIZE
    case Open(path, _) => |path| <= MAX_RAW_SIZE
    case Mkdir(path) => |path| <= MAX_RAW_SIZE
    case Mknod(path, _, _) => |path| <= MAX_RAW_SIZE
    case Chdir(path) => |path| <= MAX_RAW_SIZE
    case _ => true
  }

  /** The kind of result that a call has: read reports its whole buffer, fstat a stat. */
  predicate Fits(c: Call, res: Result) {
    match c
    case Read(_, n) => res.out.Filled? && |res.out.bytes| == n
    case Fstat(_) => res.out.Status? && res.out.st.StatArg?
    case _ => res.out == Nothing
  }

  /** The tag given to createSCR; chdir stores that of mkdir. */
  function Tag(c: Call): byte {
    match c
    case Read(_, _) => 5
    case Fstat(_) => 8
    case Getpid => 11
    case Uptime => 14
    case Open(_, _) => 15
    case Mknod(_, _, _) => 17
    case Unlink(_) => 18
    case Link(_, _) => 19
    case Mkdir(_) => 20
    case Chdir(_) => 20
    case Close(_) => 21
  }

  function Inputs(c: Call): seq<Arg> {
    match c
    case Getpid => []
    case Uptime => []
    case Read(fd, n) => [IntArg(fd), IntArg(n)]
    case Close(fd) => [IntArg(fd)]
    case Fstat(fd) => [IntArg(fd)]
    case Link(path, other) => [RawArg(path), RawArg(other)]
    case Unlink(path) => [RawArg(path)]
    case Open(path, mode) => [RawArg(path), IntArg(mode)]
    case Mkdir(path) => [RawArg(path)]
    case Mknod(path, major, minor) => [RawArg(path), IntArg(major), IntArg(minor)]
    case Chdir(path) => [RawArg(path)]
  }

  function Outputs(c: Call, res: Result): seq<Arg>
    requires Fits(c, res)
  {
    match c
    case Uptime => [UintArg(res.ret)]
    case Read(_, _) => [IntArg(res.ret), RawArg(res.out.bytes)]
    case Fstat(_) => [IntArg(res.ret), res.out.st]
    case _ => [IntArg(res.ret)]
  }

  /** The record that the recording branch hands to addSRC. */
  function Record(c: Call, res: Result): Scr
    requires Fits(c, res)
  {
    Scr(Tag(c), Inputs(c) + Outputs(c, res))
  }

  /** get1stOutputPos. */
  function FirstOutput(tag: byte): int {
    if tag == 14 || tag == 11 then 0
    else if tag == 8 || tag == 21 || tag == 20 || tag == 9 || tag == 18 then 1
    else if tag == 5 || tag == 15 || tag == 19 then 2
    else if tag == 17 then 3
    else -1
  }

  /** A record of the form that the recording branches produce. */
  predicate Shaped(r: Scr) {
    var a := r.args;
    && WellFormed(r)
    && match r.syscall
       case 11 => |a| == 1 && a[0].IntArg?
       case 14 => |a| == 1 && a[0].UintArg?
       case 5 =>
         |a| == 4 && a[0].IntArg? && a[1].IntArg? && a[2].IntArg? && a[3].RawArg? && |a[3].data| == a[1].num
       case 8 => |a| == 3 && a[0].IntArg? && a[1].IntArg? && a[2].StatArg?
       case 21 => |a| == 2 && a[0].IntArg? && a[1].IntArg?
       case 19 => |a| == 3 && a[0].RawArg? && a[1].RawArg? && a[2].IntArg?
       case 15 => |a| == 3 && a[0].RawArg? && a[1].IntArg? && a[2].IntArg?
       case 17 => |a| == 4 && a[0].RawArg? && a[1].IntArg? && a[2].IntArg? && a[3].IntArg?
       case 18 => |a| == 2 && a[0].RawArg? && a[1].IntArg?
       case 20 => |a| == 2 && a[0].RawArg? && a[1].IntArg?
       case _ => false
  }

  /** What the replay branches return from a record. */
  function ResultOf(r: Scr): Result
    requires Shaped(r)
  {
    var p := FirstOutput(r.syscall);
    var ret := if r.args[p].UintArg? then r.args[p].unum else r.args[p].num;
    if r.syscall == 5 then Result(ret, Filled(r.args[p + 1].data[..r.args[p - 1].num]))
    else if r.syscall == 8 then Result(ret, Status(r.args[p + 1]))
    else Result(ret, Nothing)
  }

  /** The record answers the call: same tag and same inputs. */
  predicate Matches(r: Scr, c: Call)
    requires r == BLANK || Shaped(r)
  {
    r != BLANK && r.syscall == Tag(c) && r.args[..|Inputs(c)|] == Inputs(c)
  }

  lemma FirstOutputIsAfterInputs(c: Call)
    ensures FirstOutput(Tag(c)) == |Inputs(c)|
  {
  }

  lemma RecordIsShaped(c: Call, res: Result)
    requires Valid(c) && Fits(c, res)
    ensures Shaped(Record(c, res))
  {
  }

  lemma RecordAnswers(c: Call, res: Result)
    requires Fits(c, res) && Shaped(Record(c, res))
    ensures Matches(Record(c, res), c)
  {
    hide Shaped;
    assert Record(c, res).args[..|Inputs(c)|] == Inputs(c);
  }

  lemma ResultComesBack(c: Call, res: Result)
    requires Fits(c, res) && Shaped(Record(c, res))
    ensures ResultOf(Record(c, res)) == res
  {
    if c.Read? {
      assert res.out.bytes[..c.n] == res.out.bytes;
    }
  }

  /** What is recorded is well formed and gives back the recorded result. */
  lemma RecordGivesResult(c: Call, res: Result)
    requires Valid(c) && Fits(c, res)
    ensures Shaped(Record(c, res)) && ResultOf(Record(c, res)) == res && Matches(Record(c, res), c)
  {
    hide Shaped, ResultOf, Matches, Record;
    RecordIsShaped(c, res);
    RecordAnswers(c, res);
    ResultComesBack(c, res);
  }

  /** A record answers just the call it was made for, except that mkdir and chdir of one path
      answer each other. */
  lemma MatchesExactly(c: Call, res: Result, d: Call)
    requires Valid(c) && Fits(c, res)
    ensures Shaped(Record(c, res))
    ensures Matches(Record(c, res), d) <==>
              c == d || (c.Mkdir? && d == Chdir(c.path)) || (c.Chdir? && d == Mkdir(c.path))
  {
    hide Shaped;
    RecordGivesResult(c, res);
    assert Record(c, res).args[..|Inputs(c)|] == Inputs(c);
    if Tag(c) == Tag(d) {
      SameInputs(c, d);
    }
  }

  lemma SameInputs(c: Call, d: Call)
    requires Tag(c) == Tag(d)
    ensures |Inputs(c)| == |Inputs(d)|
    ensures Inputs(c) == Inputs(d) <==>
              c == d || (c.Mkdir? && d == Chdir(c.path)) || (c.Chdir? && d == Mkdir(c.path))
  {
    if Inputs(c) == Inputs(d) {
      assert forall i :: 0 <= i < |Inputs(c)| ==> Inputs(c)[i] == Inputs(d)[i];
    }
  }

  predicate AllShaped(rs: seq<Scr>)
    ensures AllShaped(rs) ==> AllWellFormed(rs)
  {
    forall i :: 0 <= i < |rs| ==> Shaped(rs[i])
  }

  // A record that does not answer the call

  /** What a killed call has left in the caller's memory: what it wrote, words of a record that nothing set, or
      something read outside the record. */
  datatype Left = Wrote(out: Output) | Unset | Outside

  function Zeros(n: nat): (z: seq<byte>)
    ensures |z| == n
  {
    seq(n, _ => 0)
  }

  /** raw.data of a slot of struct SCR, which createSCR has cleared: a shorter string is followed by zeros, a
      number does not reach into it, and a stat overlays all but its type. */
  function SlotData(r: Scr, i: nat): (d: seq<byte>)
    requires Shaped(r) || r == BLANK
    ensures |d| == MAX_RAW_SIZE
  {
    if i >= |r.args| then Zeros(MAX_RAW_SIZE)
    else match r.args[i]
      case RawArg(data) => data + Zeros(MAX_RAW_SIZE - |data|)
      case StatArg(_, dev, ino, nlink, size) =>
        WordBytes(dev) + WordBytes(ino) + HalfBytes(nlink) + Zeros(2) + WordBytes(size) + Zeros(MAX_RAW_SIZE - 16)
      case _ => Zeros(MAX_RAW_SIZE)
  }

  /** val.num of a stored argument that is no stat. */
  function SlotNum(a: Arg): uint32
    requires ArgOk(a)
  {
    match a
    case IntArg(num) => num
    case UintArg(unum) => unum
    case RawArg(data) => |data|
    case StatArg(typ, _, _, _, _) => typ
  }

  /** val.st of a stored argument: the same bytes as a stat. */
  function SlotStat(r: Scr, i: nat): Arg
    requires Shaped(r) && i < |r.args|
  {
    var d := SlotData(r, i);
    if r.args[i].StatArg? then r.args[i]
    else StatArg(SlotNum(r.args[i]) % 0x1_0000, BytesWord(d[0..4]), BytesWord(d[4..8]), BytesHalf(d[8..10]),
                 BytesWord(d[12..16]))
  }

  /** After a failed comparison sys_read still copies from the record that it was given, with the size taken
      from that record, and sys_fstat still copies its stat.  The other calls copy nothing. */
  function Spill(c: Call, r: Scr): Left
    requires Shaped(r) || r == BLANK
  {
    var p := FirstOutput(r.syscall);
    if c.Read? then
      if p < 1 || p + 1 >= MAX_ARGC || SlotNum(r.args[p - 1]) > MAX_RAW_SIZE then Outside
      else Wrote(Filled(SlotData(r, p + 1)[..SlotNum(r.args[p - 1])]))
    else if c.Fstat? then
      if p + 1 >= MAX_ARGC then Outside
      else if p + 1 >= |r.args| then Unset
      else Wrote(Status(SlotStat(r, p + 1)))
    else Wrote(Nothing)
  }

  /** A read that meets the record of another call d reads outside that record exactly if d has no inputs or
      three, or if its last input is a number above MAX_RAW_SIZE; past the end of the session it always does. */
  lemma ReadSpillsOutside(c: Call, d: Call, res: Result)
    requires c.Read? && Valid(d) && Fits(d, res)
    ensures Shaped(Record(d, res)) && Spill(c, BLANK) == Outside
    ensures Spill(c, Record(d, res)) == Outside <==>
              || d.Getpid? || d.Uptime? || d.Mknod?
              || ((d.Close? || d.Fstat?) && d.fd > MAX_RAW_SIZE)
              || (d.Open? && d.mode > MAX_RAW_SIZE)
  {
    RecordIsShaped(d, res);
  }

  /** An fstat that meets the wrong record reads outside it exactly for mknod. */
  lemma FstatSpillsOutside(c: Call, d: Call, res: Result)
    requires c.Fstat? && Valid(d) && Fits(d, res)
    ensures Shaped(Record(d, res)) && Spill(c, BLANK) == Unset
    ensures Spill(c, Record(d, res)) == Outside <==> d.Mknod?
  {
    RecordIsShaped(d, res);
  }

  /** A read that meets the record of a read of the same size has the recorded bytes in its buffer, although it
      is killed. */
  lemma ReadSpillsRecorded(c: Call, d: Call, res: Result)
    requires c.Read? && d.Read? && Valid(d) && Fits(d, res)
    ensures Shaped(Record(d, res)) && Spill(c, Record(d, res)) == Wrote(res.out)
  {
    RecordIsShaped(d, res);
    var r := Record(d, res);
    assert SlotData(r, 3)[..d.n] == res.out.bytes;
  }

  /** Every record spelled out: the system call number, the arguments in their order, the result, and what the call left
      in memory. */
  lemma NumbersSpelledOut(x: uint32, y: uint32, ret: uint32, bytes: seq<byte>, st: Arg)
    requires st.StatArg? && |bytes| == y
    ensures Record(Getpid, Result(ret, Nothing)) == Scr(11, [IntArg(ret)])
    ensures Record(Uptime, Result(ret, Nothing)) == Scr(14, [UintArg(ret)])
    ensures Record(Read(x, y), Result(ret, Filled(bytes))) == Scr(5, [IntArg(x), IntArg(y), IntArg(ret), RawArg(bytes)])
    ensures Record(Close(x), Result(ret, Nothing)) == Scr(21, [IntArg(x), IntArg(ret)])
    ensures Record(Fstat(x), Result(ret, Status(st))) == Scr(8, [IntArg(x), IntArg(ret), st])
  {
  }

  /** The calls with paths; chdir has the number of mkdir. */
  lemma PathsSpelledOut(a: seq<byte>, b: seq<byte>, ret: uint32)
    ensures Record(Link(a, b), Result(ret, Nothing)) == Scr(19, [RawArg(a), RawArg(b), IntArg(ret)])
    ensures Record(Unlink(a), Result(ret, Nothing)) == Scr(18, [RawArg(a), IntArg(ret)])
    ensures Record(Mkdir(a), Result(ret, Nothing)) == Scr(20, [RawArg(a), IntArg(ret)])
    ensures Record(Chdir(a), Result(ret, Nothing)) == Scr(20, [RawArg(a), IntArg(ret)])
  {
  }

  lemma NodesSpelledOut(a: seq<byte>, x: uint32, y: uint32, ret: uint32)
    ensures Record(Open(a, x), Result(ret, Nothing)) == Scr(15, [RawArg(a), IntArg(x), IntArg(ret)])
    ensures Record(Mknod(a, x, y), Result(ret, Nothing)) == Scr(17, [RawArg(a), IntArg(x), IntArg(y), IntArg(ret)])
  {
  }
}
