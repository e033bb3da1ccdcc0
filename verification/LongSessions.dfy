/** How far sys_record_stop (v3/sysproc.c) fills its buffer of MAX_FILE_SIZE bytes: the check is made before each
    record, so the record that crosses the end is still stored. */
module LongSessions {
  import opened Blocks
  import opened Records
  import opened CallRecords

  /** No record takes more: tag, argc, and four arguments of type, size and MAX_RAW_SIZE bytes. */
  const MAX_RECORD: nat := 2 + MAX_ARGC * (5 + MAX_RAW_SIZE)

  lemma {:induction false} ArgsAtMost(args: seq<Arg>, k: nat)
    requires k <= |args| && ArgsOk(args)
    ensures |EncodeArgs(args, k)| <= (|args| - k) * (5 + MAX_RAW_SIZE)
    decreases |args| - k
  {
    if k < |args| {
      ArgsAtMost(args, k + 1);
      assert ArgOk(args[k]) && |EncodeArg(args[k])| <= 5 + MAX_RAW_SIZE;
    }
  }

  lemma RecordAtMost(r: Scr)
    requires WellFormed(r)
    ensures |Encode(r)| <= MAX_RECORD
  {
    ArgsAtMost(r.args, 0);
  }

  /** sys_record_stop's loop, as far as buffer_pos is concerned: bytes 0..pos are stored.  Some byte is stored behind
      the buffer exactly if the session's encoding is longer than the buffer; by no more than one record; and the
      loop notices exactly if it was not the last record that crossed the end. */
  method StorePositions(rs: seq<Scr>) returns (status: int, pos: nat)
    requires |rs| <= MAX_SCRS && AllWellFormed(rs)
    ensures pos > MAX_FILE_SIZE <==> |EncodeSession(rs)| > MAX_FILE_SIZE
    ensures pos <= MAX_FILE_SIZE + MAX_RECORD
    ensures status == if rs != [] && |EncodeSession(rs)| - |Encode(rs[|rs| - 1])| > MAX_FILE_SIZE then -1 else 1
  {
    pos := 4;
    var i := 0;
    while i < |rs|
      invariant 0 <= i <= |rs| && pos + |EncodeAll(rs, i)| == |EncodeSession(rs)|
      invariant pos <= MAX_FILE_SIZE + MAX_RECORD
      invariant i > 0 ==> pos - |Encode(rs[i - 1])| <= MAX_FILE_SIZE
    {
      if pos > MAX_FILE_SIZE {
        LastIsIn(rs, i);
        return -1, pos;
      }
      RecordAtMost(rs[i]);
      pos := pos + |Encode(rs[i])|;
      i := i + 1;
    }
    status := 1;
  }

  lemma {:induction false} LastIsIn(rs: seq<Scr>, i: nat)
    requires i < |rs| && AllWellFormed(rs)
    ensures |EncodeAll(rs, i)| >= |Encode(rs[|rs| - 1])|
    decreases |rs| - i
  {
    if i < |rs| - 1 {
      LastIsIn(rs, i + 1);
    }
  }

  /** The record of a read of 200 bytes. */
  function FullRead(bytes: seq<byte>): Scr
    requires |bytes| == MAX_RAW_SIZE
  {
    Record(Read(3, MAX_RAW_SIZE), Result(MAX_RAW_SIZE, Filled(bytes)))
  }

  lemma FullReadLength(bytes: seq<byte>)
    requires |bytes| == MAX_RAW_SIZE
    ensures WellFormed(FullRead(bytes)) && |Encode(FullRead(bytes))| == 222
  {
    var r := FullRead(bytes);
    var a := r.args;
    assert |a| == 4 && a[0].IntArg? && a[1].IntArg? && a[2].IntArg? && a[3] == RawArg(bytes);
    assert |EncodeArgs(a, 4)| == 0;
    assert |EncodeArgs(a, 3)| == 205;
    assert |EncodeArgs(a, 2)| == 210;
    assert |EncodeArgs(a, 1)| == 215;
    assert |EncodeArgs(a, 0)| == 220;
  }

  lemma {:induction false} SameLength(rs: seq<Scr>, k: nat, len: nat)
    requires k <= |rs| && AllWellFormed(rs) && forall i :: 0 <= i < |rs| ==> |Encode(rs[i])| == len
    ensures |EncodeAll(rs, k)| == (|rs| - k) * len
    decreases |rs| - k
  {
    if k < |rs| {
      SameLength(rs, k + 1, len);
      assert (|rs| - k) * len == (|rs| - k - 1) * len + len;
    }
  }

  /** Far below MAX_SCRS records: 271 recorded reads of 200 bytes do not fit, and 270 do. */
  lemma ManyReads(bytes: seq<byte>, n: nat)
    requires |bytes| == MAX_RAW_SIZE && n <= MAX_SCRS
    ensures var rs := seq(n, _ => FullRead(bytes));
      AllWellFormed(rs) && (|EncodeSession(rs)| > MAX_FILE_SIZE <==> n > 270)
  {
    var rs := seq(n, _ => FullRead(bytes));
    FullReadLength(bytes);
    SameLength(rs, 0, 222);
  }
}
