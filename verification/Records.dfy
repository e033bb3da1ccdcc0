/** System call records and their encoding in a session file (v3/rr.h, v3/sysproc.c). */
module Records {
  import opened Blocks

  const MAX_SCRS: nat := 1000
  const MAX_ARGC: nat := 4
  const MAX_RAW_SIZE: nat := 200
  const MAX_FILE_SIZE: nat := 60000

  const UNINITIALIZED: byte := 0

  type half = x: int | 0 <= x < 0x1_0000

  /** struct Arg; words and halves are the bit patterns of the C fields. */
  datatype Arg =
    | IntArg(num: uint32)
    | UintArg(unum: uint32)
    | RawArg(data: seq<byte>)
    | StatArg(typ: half, dev: uint32, ino: uint32, nlink: half, size: uint32)

  /** struct SCR; argc is |args|. */
  datatype Scr = Scr(syscall: byte, args: seq<Arg>)

  const BLANK := Scr(UNINITIALIZED, [])

  function TypeOf(a: Arg): byte {
    match a
    case IntArg(_) => 1
    case UintArg(_) => 2
    case RawArg(_) => 3
    case StatArg(_, _, _, _, _) => 5
  }

  predicate ArgOk(a: Arg) {
    a.RawArg? ==> |a.data| <= MAX_RAW_SIZE
  }

  /** A record that the engine can have made. */
  predicate WellFormed(r: Scr) {
    r.syscall != UNINITIALIZED && |r.args| <= MAX_ARGC && ArgsOk(r.args)
  }

  // Little-endian bytes of C integers

  function WordBytes(w: uint32): (b: seq<byte>)
    ensures |b| == 4
  {
    [w % 0x100, w / 0x100 % 0x100, w / 0x1_0000 % 0x100, w / 0x100_0000]
  }

  function BytesWord(b: seq<byte>): uint32
    requires |b| == 4
  {
    var b0: int, b1: int, b2: int, b3: int := b[0], b[1], b[2], b[3];
    b0 + 0x100 * b1 + 0x1_0000 * b2 + 0x100_0000 * b3
  }

  lemma WordBack(w: uint32)
    ensures BytesWord(WordBytes(w)) == w
  {
    SplitWord(w);
  }

  function HalfBytes(h: half): (b: seq<byte>)
    ensures |b| == 2
  {
    [h % 0x100, h / 0x100]
  }

  function BytesHalf(b: seq<byte>): half
    requires |b| == 2
  {
    var b0: int, b1: int := b[0], b[1];
    b0 + 0x100 * b1
  }

  lemma HalfBack(h: half)
    ensures BytesHalf(HalfBytes(h)) == h
  {
  }

  // The encoding

  function StatBytes(a: Arg): seq<byte>
    requires a.StatArg?
  {
    HalfBytes(a.typ) + WordBytes(a.dev) + WordBytes(a.ino) + HalfBytes(a.nlink) + WordBytes(a.size)
  }

  function EncodeArg(a: Arg): (b: seq<byte>)
    requires ArgOk(a)
  {
    [TypeOf(a)] +
    match a
    case IntArg(num) => WordBytes(num)
    case UintArg(unum) => WordBytes(unum)
    case RawArg(data) => WordBytes(|data|) + data
    case StatArg(_, _, _, _, _) => StatBytes(a)
  }

  predicate ArgsOk(args: seq<Arg>) {
    forall i :: 0 <= i < |args| ==> ArgOk(args[i])
  }

  /** The arguments from the k-th on. */
  function EncodeArgs(args: seq<Arg>, k: nat): (b: seq<byte>)
    requires k <= |args| && ArgsOk(args)
    decreases |args| - k
  {
    if k == |args| then [] else EncodeArg(args[k]) + EncodeArgs(args, k + 1)
  }

  function ArgsBytes(args: seq<Arg>): seq<byte>
    requires |args| <= MAX_ARGC && ArgsOk(args)
  {
    [|args|] + EncodeArgs(args, 0)
  }

  function Encode(r: Scr): (b: seq<byte>)
    requires WellFormed(r)
  {
    [r.syscall] + ArgsBytes(r.args)
  }

  predicate AllWellFormed(rs: seq<Scr>) {
    forall i :: 0 <= i < |rs| ==> WellFormed(rs[i])
  }

  /** The records from the k-th on. */
  function EncodeAll(rs: seq<Scr>, k: nat): (b: seq<byte>)
    requires k <= |rs| && AllWellFormed(rs)
    decreases |rs| - k
  {
    if k == |rs| then [] else Encode(rs[k]) + EncodeAll(rs, k + 1)
  }

  /** A whole session: the number of records, then the records. */
  function EncodeSession(rs: seq<Scr>): (b: seq<byte>)
    requires |rs| <= MAX_SCRS && AllWellFormed(rs)
  {
    WordBytes(|rs|) + EncodeAll(rs, 0)
  }

  /** The format in bytes, by the record of close(3) with result 0: tag, argc, and for each argument its type and four
      bytes, lowest first; a session puts the number of records in front. */
  lemma CloseInBytes()
    ensures var r := Scr(21, [IntArg(3), IntArg(0)]);
      EncodeSession([r]) == [1, 0, 0, 0, 21, 2, 1, 3, 0, 0, 0, 1, 0, 0, 0, 0]
  {
    var r := Scr(21, [IntArg(3), IntArg(0)]);
    assert EncodeArgs(r.args, 2) == [];
    assert EncodeArgs(r.args, 1) == [1, 0, 0, 0, 0];
    assert EncodeArgs(r.args, 0) == [1, 3, 0, 0, 0, 1, 0, 0, 0, 0];
    assert EncodeAll([r], 1) == [];
    assert EncodeAll([r], 0) == Encode(r);
  }

  /** Raw data follows its length, and a stat is its five fields. */
  lemma OtherArgsInBytes(b: byte)
    ensures EncodeArg(RawArg([b, b])) == [3, 2, 0, 0, 0, b, b]
    ensures EncodeArg(UintArg(0x0403_0201)) == [2, 1, 2, 3, 4]
    ensures EncodeArg(StatArg(0x201, 1, 2, 3, 0x403)) == [5, 1, 2, 1, 0, 0, 0, 2, 0, 0, 0, 3, 0, 3, 4, 0, 0]
  {
  }
}
