/** The serializer of v3/sysproc.c: one routine, memmove_and_increment, moves every field
    between a record and the buffer, in the direction that the two mode flags select. */
module Session {
  import opened Blocks
  import opened Records

  /** Where a stretch of bytes lies in the buffer. */
  predicate At(buffer: seq<byte>, pos: nat, b: seq<byte>) {
    pos + |b| <= |buffer| && buffer[pos..pos + |b|] == b
  }

  /** A transfer of `want` is possible from position p: it fits, and when replaying it is what
      the buffer s holds there. */
  ghost predicate Expects(replaying: bool, s: seq<byte>, p: nat, want: seq<byte>) {
    p + |want| <= |s| && (replaying ==> At(s, p, want))
  }

  /** The transfer has happened: buffer s' holds `want` at p and is otherwise as s, the position
      p' is just behind, and a replay changes nothing. */
  ghost predicate Moved(replaying: bool, s: seq<byte>, p: nat, s': seq<byte>, p': nat, want: seq<byte>) {
    && p' == p + |want| && |s'| == |s| && At(s', p, want)
    && (forall i :: 0 <= i < |s| && !(p <= i < p') ==> s'[i] == s[i])
    && (replaying ==> s' == s)
  }

  lemma ExpectsParts(replaying: bool, s: seq<byte>, p: nat, a: seq<byte>, b: seq<byte>)
    requires Expects(replaying, s, p, a + b)
    ensures Expects(replaying, s, p, a) && Expects(replaying, s, p + |a|, b)
  {
    if replaying {
      assert (a + b)[..|a|] == a && (a + b)[|a|..] == b;
      assert s[p..p + |a + b|][..|a|] == s[p..p + |a|];
      assert s[p..p + |a + b|][|a|..] == s[p + |a|..p + |a| + |b|];
    }
  }

  /** What is still expected is not disturbed by an earlier transfer. */
  lemma ExpectsLater(replaying: bool, s: seq<byte>, p: nat, s': seq<byte>, p': nat, a: seq<byte>, b: seq<byte>)
    requires Expects(replaying, s, p, a + b) && Moved(replaying, s, p, s', p', a)
    ensures Expects(replaying, s', p', b)
  {
    ExpectsParts(replaying, s, p, a, b);
  }

  lemma MovedParts(replaying: bool, s: seq<byte>, p: nat, s1: seq<byte>, p1: nat, s2: seq<byte>, p2: nat, a: seq<byte>,
                   b: seq<byte>)
    requires Moved(replaying, s, p, s1, p1, a) && Moved(replaying, s1, p1, s2, p2, b)
    ensures Moved(replaying, s, p, s2, p2, a + b)
  {
    assert s2[p..p2] == s2[p..p1] + s2[p1..p2];
    assert s2[p..p1] == s1[p..p1];
  }

  lemma Regroup(a: seq<byte>, b: seq<byte>, c: seq<byte>)
    ensures a + (b + c) == (a + b) + c
  {
  }

  /** The first i arguments have been moved and the others are still expected. */
  ghost predicate ArgsMoved(replaying: bool, s: seq<byte>, p: nat, s': seq<byte>, p': nat, want: seq<Arg>, i: nat)
    requires i <= |want| && ArgsOk(want)
  {
    && Expects(replaying, s', p', EncodeArgs(want, i))
    && exists done :: Moved(replaying, s, p, s', p', done) && done + EncodeArgs(want, i) == EncodeArgs(want, 0)
  }

  lemma ArgsStart(replaying: bool, s: seq<byte>, p: nat, want: seq<Arg>)
    requires ArgsOk(want) && Expects(replaying, s, p, EncodeArgs(want, 0))
    ensures ArgsMoved(replaying, s, p, s, p, want, 0)
  {
    assert Moved(replaying, s, p, s, p, []) && [] + EncodeArgs(want, 0) == EncodeArgs(want, 0);
  }

  lemma ArgsEnd(replaying: bool, s: seq<byte>, p: nat, s': seq<byte>, p': nat, want: seq<Arg>)
    requires ArgsOk(want) && ArgsMoved(replaying, s, p, s', p', want, |want|)
    ensures Moved(replaying, s, p, s', p', EncodeArgs(want, 0))
  {
    var done :| Moved(replaying, s, p, s', p', done) && done + EncodeArgs(want, |want|) == EncodeArgs(want, 0);
    assert done + [] == done;
  }

  /** out is the first i arguments. */
  ghost predicate Prefix(out: seq<Arg>, want: seq<Arg>, i: nat) {
    |out| == i <= |want| && forall j :: 0 <= j < i ==> out[j] == want[j]
  }

  lemma WholePrefix(out: seq<Arg>, want: seq<Arg>)
    requires Prefix(out, want, |want|)
    ensures out == want
  {
  }

  /** The first i records have been moved and the others are still expected. */
  ghost predicate RecordsMoved(replaying: bool, s: seq<byte>, p: nat, s': seq<byte>, p': nat, rs: seq<Scr>, i: nat)
    requires i <= |rs| && AllWellFormed(rs)
  {
    && Expects(replaying, s', p', EncodeAll(rs, i))
    && exists done :: Moved(replaying, s, p, s', p', done) && done + EncodeAll(rs, i) == EncodeAll(rs, 0)
  }

  lemma RecordsStart(replaying: bool, s: seq<byte>, p: nat, rs: seq<Scr>)
    requires AllWellFormed(rs) && Expects(replaying, s, p, EncodeAll(rs, 0))
    ensures RecordsMoved(replaying, s, p, s, p, rs, 0)
  {
    assert Moved(replaying, s, p, s, p, []) && [] + EncodeAll(rs, 0) == EncodeAll(rs, 0);
  }

  /** The position stays within the encoding. */
  lemma RecordsWithin(replaying: bool, s: seq<byte>, p: nat, s': seq<byte>, p': nat, rs: seq<Scr>, i: nat)
    requires i <= |rs| && AllWellFormed(rs) && RecordsMoved(replaying, s, p, s', p', rs, i)
    ensures p <= p' <= p + |EncodeAll(rs, 0)|
  {
    hide EncodeAll;
    var done :| Moved(replaying, s, p, s', p', done) && done + EncodeAll(rs, i) == EncodeAll(rs, 0);
    assert |done + EncodeAll(rs, i)| == |done| + |EncodeAll(rs, i)|;
  }

  lemma RecordsEnd(replaying: bool, s: seq<byte>, p: nat, s': seq<byte>, p': nat, rs: seq<Scr>)
    requires AllWellFormed(rs) && RecordsMoved(replaying, s, p, s', p', rs, |rs|)
    ensures Moved(replaying, s, p, s', p', EncodeAll(rs, 0))
  {
    var done :| Moved(replaying, s, p, s', p', done) && done + EncodeAll(rs, |rs|) == EncodeAll(rs, 0);
    assert done + [] == done;
  }

  /** The bytes that a record takes.  A blank one is not written, but reading one takes its tag. */
  function Stored(r: Scr, recording: bool): seq<byte>
    requires WellFormed(r) || r == BLANK
  {
    if r != BLANK then Encode(r) else if recording then [] else [UNINITIALIZED]
  }

  /** The globals buffer, buffer_pos, record_syscalls and replay_syscalls. */
  class Buffer {
    const bytes: array<byte>
    var pos: nat
    var record: int           // record_syscalls: 0, 1 or -1
    var replay: int           // replay_syscalls: 0, 1 or -1

    constructor ()
      ensures Valid() && fresh(bytes) && pos == 0 && record == 0 && replay == 0
    {
      bytes := new byte[MAX_FILE_SIZE](_ => 0);
      pos, record, replay := 0, 0, 0;
    }

    predicate Valid() {
      bytes.Length == MAX_FILE_SIZE
    }

    predicate Recording()
      reads this
    {
      record == 1
    }

    predicate Replaying()
      reads this
    {
      replay == 1
    }

    /** Exactly one mode is on. */
    predicate OneMode()
      reads this
    {
      Valid() && Recording() != Replaying()
    }

    /** memmove_and_increment: in both directions the field ends up equal to the buffer. */
    method Move(field: seq<byte>, ghost want: seq<byte>) returns (out: seq<byte>)
      requires OneMode() && Expects(Replaying(), bytes[..], pos, want) && |field| == |want|
      requires (Recording() ==> field == want)
      modifies this`pos, bytes
      ensures out == want && Moved(Replaying(), old(bytes[..]), old(pos), bytes[..], pos, want)
    {
      out := field;
      if Replaying() {
        out := bytes[pos..pos + |field|];
      }
      if Recording() {
        forall i | 0 <= i < |field| {
          bytes[pos + i] := field[i];
        }
      }
      pos := pos + |field|;
    }

    method MoveWord(field: uint32, ghost want: uint32) returns (out: uint32)
      requires OneMode() && Expects(Replaying(), bytes[..], pos, WordBytes(want)) && (Recording() ==> field == want)
      modifies this`pos, bytes
      ensures out == want && Moved(Replaying(), old(bytes[..]), old(pos), bytes[..], pos, WordBytes(want))
    {
      var b := Move(WordBytes(field), WordBytes(want));
      out := BytesWord(b);
      WordBack(want);
    }

    method MoveHalf(field: half, ghost want: half) returns (out: half)
      requires OneMode() && Expects(Replaying(), bytes[..], pos, HalfBytes(want)) && (Recording() ==> field == want)
      modifies this`pos, bytes
      ensures out == want && Moved(Replaying(), old(bytes[..]), old(pos), bytes[..], pos, HalfBytes(want))
    {
      var b := Move(HalfBytes(field), HalfBytes(want));
      out := BytesHalf(b);
      HalfBack(want);
    }

    /** The value part of a raw argument: its size, then so many bytes. */
    method MoveRaw(field: seq<byte>, ghost want: seq<byte>) returns (out: seq<byte>)
      requires OneMode() && |want| <= MAX_RAW_SIZE && (Recording() ==> field == want) && |field| < UINT
      requires Expects(Replaying(), bytes[..], pos, WordBytes(|want|) + want)
      modifies this`pos, bytes
      ensures out == want && Moved(Replaying(), old(bytes[..]), old(pos), bytes[..], pos, WordBytes(|want|) + want)
    {
      ghost var s, p := bytes[..], pos;
      ExpectsParts(Replaying(), s, p, WordBytes(|want|), want);
      var size := MoveWord(|field|, |want|);
      ghost var s1, p1 := bytes[..], pos;
      ExpectsLater(Replaying(), s, p, s1, p1, WordBytes(|want|), want);
      var data := if Recording() then field else seq(size, _ => 0);
      out := Move(data, want);
      MovedParts(Replaying(), s, p, s1, p1, bytes[..], pos, WordBytes(|want|), want);
    }

    /** The value part of a stat argument: five fields in turn. */
    method MoveStat(field: Arg, ghost want: Arg) returns (out: Arg)
      requires OneMode() && field.StatArg? && want.StatArg? && (Recording() ==> field == want)
      requires Expects(Replaying(), bytes[..], pos, StatBytes(want))
      modifies this`pos, bytes
      ensures out == want && Moved(Replaying(), old(bytes[..]), old(pos), bytes[..], pos, StatBytes(want))
    {
      ghost var s, p := bytes[..], pos;
      ghost var t, d, i := HalfBytes(want.typ), WordBytes(want.dev), WordBytes(want.ino);
      ghost var n, z := HalfBytes(want.nlink), WordBytes(want.size);
      assert StatBytes(want) == t + (d + (i + (n + z)));
      ExpectsParts(Replaying(), s, p, t, d + (i + (n + z)));
      var typ := MoveHalf(field.typ, want.typ);
      ghost var s1, p1 := bytes[..], pos;
      ExpectsLater(Replaying(), s, p, s1, p1, t, d + (i + (n + z)));
      var dev, ino := MoveTwo(field.dev, field.ino, want.dev, want.ino, n + z);
      ghost var s2, p2 := bytes[..], pos;
      assert d + (i + (n + z)) == (d + i) + (n + z);
      ExpectsLater(Replaying(), s1, p1, s2, p2, d + i, n + z);
      ExpectsParts(Replaying(), s2, p2, n, z);
      var nlink := MoveHalf(field.nlink, want.nlink);
      ghost var s3, p3 := bytes[..], pos;
      ExpectsLater(Replaying(), s2, p2, s3, p3, n, z);
      var size := MoveWord(field.size, want.size);
      out := StatArg(typ, dev, ino, nlink, size);
      MovedParts(Replaying(), s2, p2, s3, p3, bytes[..], pos, n, z);
      MovedParts(Replaying(), s1, p1, s2, p2, bytes[..], pos, d + i, n + z);
      MovedParts(Replaying(), s, p, s1, p1, bytes[..], pos, t, (d + i) + (n + z));
    }

    method MoveTwo(field1: uint32, field2: uint32, ghost want1: uint32, ghost want2: uint32, ghost rest: seq<byte>)
      returns (out1: uint32, out2: uint32)
      requires OneMode() && (Recording() ==> field1 == want1 && field2 == want2)
      requires Expects(Replaying(), bytes[..], pos, WordBytes(want1) + (WordBytes(want2) + rest))
      modifies this`pos, bytes
      ensures out1 == want1 && out2 == want2
      ensures Moved(Replaying(), old(bytes[..]), old(pos), bytes[..], pos, WordBytes(want1) + WordBytes(want2))
    {
      ghost var s, p := bytes[..], pos;
      ExpectsParts(Replaying(), s, p, WordBytes(want1), WordBytes(want2) + rest);
      out1 := MoveWord(field1, want1);
      ghost var s1, p1 := bytes[..], pos;
      ExpectsLater(Replaying(), s, p, s1, p1, WordBytes(want1), WordBytes(want2) + rest);
      ExpectsParts(Replaying(), s1, p1, WordBytes(want2), rest);
      out2 := MoveWord(field2, want2);
      MovedParts(Replaying(), s, p, s1, p1, bytes[..], pos, WordBytes(want1), WordBytes(want2));
    }

    /** One round of bidirectionalTransform's loop: the type of an argument, then its value. */
    method MoveArg(field: Arg, ghost want: Arg) returns (out: Arg)
      requires OneMode() && ArgOk(field) && ArgOk(want) && (Recording() ==> field == want)
      requires Expects(Replaying(), bytes[..], pos, EncodeArg(want))
      modifies this`pos, bytes
      ensures out == want && Moved(Replaying(), old(bytes[..]), old(pos), bytes[..], pos, EncodeArg(want))
    {
      ghost var s, p, value := bytes[..], pos, EncodeArg(want)[1..];
      assert EncodeArg(want) == [TypeOf(want)] + value;
      ExpectsParts(Replaying(), s, p, [TypeOf(want)], value);
      var typ := Move([TypeOf(field)], [TypeOf(want)]);
      ghost var s1, p1 := bytes[..], pos;
      ExpectsLater(Replaying(), s, p, s1, p1, [TypeOf(want)], value);
      if typ[0] == 1 {
        assert value == WordBytes(want.num);
        var num := MoveWord(if field.IntArg? then field.num else 0, want.num);
        out := IntArg(num);
      } else if typ[0] == 2 {
        assert value == WordBytes(want.unum);
        var unum := MoveWord(if field.UintArg? then field.unum else 0, want.unum);
        out := UintArg(unum);
      } else if typ[0] == 3 {
        assert value == WordBytes(|want.data|) + want.data;
        var data := MoveRaw(if field.RawArg? then field.data else [], want.data);
        out := RawArg(data);
      } else {
        assert value == StatBytes(want);
        out := MoveStat(if field.StatArg? then field else StatArg(0, 0, 0, 0, 0), want);
      }
      MovedParts(Replaying(), s, p, s1, p1, bytes[..], pos, [TypeOf(want)], value);
    }

    /** bidirectionalTransform's loop over the arguments. */
    method MoveArgs(args: seq<Arg>, argc: nat, ghost want: seq<Arg>) returns (out: seq<Arg>)
      requires OneMode() && argc == |want| && ArgsOk(want) && (Recording() ==> args == want)
      requires Expects(Replaying(), bytes[..], pos, EncodeArgs(want, 0))
      modifies this`pos, bytes
      ensures out == want && Moved(Replaying(), old(bytes[..]), old(pos), bytes[..], pos, EncodeArgs(want, 0))
    {
      ghost var s, p := bytes[..], pos;
      ArgsStart(Replaying(), s, p, want);
      out := [];
      var i := 0;
      while i < argc
        invariant 0 <= i <= argc && Prefix(out, want, i) && record == old(record) && replay == old(replay)
        invariant ArgsMoved(Replaying(), s, p, bytes[..], pos, want, i)
      {
        var a := MoveNext(if Recording() then args[i] else IntArg(0), want, i, s, p);
        out, i := out + [a], i + 1;
      }
      ArgsEnd(Replaying(), s, p, bytes[..], pos, want);
      WholePrefix(out, want);
    }

    method MoveNext(field: Arg, ghost want: seq<Arg>, ghost i: nat, ghost s: seq<byte>, ghost p: nat) returns (out: Arg)
      requires OneMode() && i < |want| && ArgsOk(want) && ArgOk(field) && (Recording() ==> field == want[i])
      requires ArgsMoved(Replaying(), s, p, bytes[..], pos, want, i)
      modifies this`pos, bytes
      ensures out == want[i] && ArgsMoved(Replaying(), s, p, bytes[..], pos, want, i + 1)
    {
      hide Expects, Moved, EncodeArg;
      ghost var s1, p1, one, rest := bytes[..], pos, EncodeArg(want[i]), EncodeArgs(want, i + 1);
      ghost var done :| Moved(Replaying(), s, p, s1, p1, done) && done + EncodeArgs(want, i) == EncodeArgs(want, 0);
      ExpectsParts(Replaying(), s1, p1, one, rest);
      out := MoveArg(field, want[i]);
      ExpectsLater(Replaying(), s1, p1, bytes[..], pos, one, rest);
      MovedParts(Replaying(), s, p, s1, p1, bytes[..], pos, done, one);
      Regroup(done, one, rest);
    }

    /** bidirectionalTransform.  Recording takes the given record, Replaying() fills a blank one with
        the record `want` that the buffer holds.  A blank record ends the list. */
    method Transform(scr: Scr, fileSize: int, ghost want: Scr) returns (status: int, out: Scr)
      requires OneMode() && (WellFormed(want) || want == BLANK) && scr == if Recording() then want else BLANK
      requires Expects(Replaying(), bytes[..], pos, Stored(want, Recording()))
      modifies this`pos, bytes
      ensures status == if Replaying() && old(pos) > fileSize then -1 else if want == BLANK then 0 else 1
      ensures status == -1 ==> out == scr && pos == old(pos) && bytes[..] == old(bytes[..])
      ensures status != -1 ==>
                out == want && Moved(Replaying(), old(bytes[..]), old(pos), bytes[..], pos, Stored(want, Recording()))
    {
      if pos > MAX_FILE_SIZE || (Replaying() && pos > fileSize) {
        return -1, scr;
      }
      if Recording() && scr.syscall == UNINITIALIZED {
        return 0, scr;
      }
      ghost var s, p := bytes[..], pos;
      assert Stored(want, Recording()) == [want.syscall] + Stored(want, Recording())[1..];
      ExpectsParts(Replaying(), s, p, [want.syscall], Stored(want, Recording())[1..]);
      var tag := Move([scr.syscall], [want.syscall]);
      if Replaying() && tag[0] == UNINITIALIZED {
        return 0, scr;
      }
      ghost var s1, p1, body := bytes[..], pos, ArgsBytes(want.args);
      assert Encode(want) == [want.syscall] + body;
      ExpectsLater(Replaying(), s, p, s1, p1, [want.syscall], body);
      var args := MoveBody(scr.args, want.args);
      MovedParts(Replaying(), s, p, s1, p1, bytes[..], pos, [want.syscall], body);
      return 1, Scr(tag[0], args);
    }

    /** argc and the arguments. */
    method MoveBody(args: seq<Arg>, ghost want: seq<Arg>) returns (out: seq<Arg>)
      requires OneMode() && ArgsOk(want) && |want| <= MAX_ARGC && args == if Recording() then want else []
      requires Expects(Replaying(), bytes[..], pos, ArgsBytes(want))
      modifies this`pos, bytes
      ensures out == want && Moved(Replaying(), old(bytes[..]), old(pos), bytes[..], pos, ArgsBytes(want))
    {
      hide Expects, Moved, EncodeArgs;
      ghost var s, p, argc: byte, all := bytes[..], pos, |want|, EncodeArgs(want, 0);
      ExpectsParts(Replaying(), s, p, [argc], all);
      var count := Move([|args|], [argc]);
      ghost var s1, p1 := bytes[..], pos;
      ExpectsLater(Replaying(), s, p, s1, p1, [argc], all);
      out := MoveArgs(args, count[0], want);
      MovedParts(Replaying(), s, p, s1, p1, bytes[..], pos, [argc], all);
    }

    /** One round of the loops of sys_record_stop and sys_replay_start. */
    method MoveRecord(scr: Scr, fileSize: int, ghost rs: seq<Scr>, ghost i: nat, ghost s: seq<byte>, ghost p: nat)
      returns (status: int, out: Scr)
      requires OneMode() && i < |rs| && AllWellFormed(rs) && scr == if Recording() then rs[i] else BLANK
      requires RecordsMoved(Replaying(), s, p, bytes[..], pos, rs, i)
      requires (Replaying() ==> p + |EncodeAll(rs, 0)| <= fileSize)
      modifies this`pos, bytes
      ensures status == 1 && out == rs[i] && RecordsMoved(Replaying(), s, p, bytes[..], pos, rs, i + 1)
    {
      hide Expects, Moved, Encode;
      ghost var s1, p1, one, rest := bytes[..], pos, Encode(rs[i]), EncodeAll(rs, i + 1);
      RecordsWithin(Replaying(), s, p, s1, p1, rs, i);
      ghost var done :| Moved(Replaying(), s, p, s1, p1, done) && done + EncodeAll(rs, i) == EncodeAll(rs, 0);
      ExpectsParts(Replaying(), s1, p1, one, rest);
      status, out := Transform(scr, fileSize, rs[i]);
      ExpectsLater(Replaying(), s1, p1, bytes[..], pos, one, rest);
      MovedParts(Replaying(), s, p, s1, p1, bytes[..], pos, done, one);
      Regroup(done, one, rest);
    }

    /** The loop of sys_record_stop. */
    method StoreRecords(table: seq<Scr>, idx: nat, ghost rs: seq<Scr>, ghost s: seq<byte>, ghost p: nat)
      returns (status: int)
      requires OneMode() && Recording() && idx == |rs| <= |table| && AllWellFormed(rs)
      requires (forall i :: 0 <= i < idx ==> table[i] == rs[i])
      requires RecordsMoved(false, s, p, bytes[..], pos, rs, 0)
      modifies this`pos, bytes
      ensures status == 1 && RecordsMoved(false, s, p, bytes[..], pos, rs, idx)
    {
      var i := 0;
      while i < idx
        invariant 0 <= i <= idx && record == old(record) && replay == old(replay)
        invariant RecordsMoved(false, s, p, bytes[..], pos, rs, i)
      {
        var out;
        status, out := MoveRecord(table[i], -1, rs, i, s, p);
        if status == -1 {
          return;
        }
        if status == 0 {
          break;
        }
        i := i + 1;
      }
      status := 1;
    }

    /** The serializing part of sys_record_stop: afterwards the buffer begins with the session. */
    method Store(table: seq<Scr>, idx: nat) returns (status: int)
      requires OneMode() && Recording() && idx <= |table| <= MAX_SCRS && AllWellFormed(table[..idx])
      requires |EncodeSession(table[..idx])| <= MAX_FILE_SIZE
      modifies this`pos, bytes
      ensures status == 1 && pos <= bytes.Length && bytes[..pos] == EncodeSession(table[..idx])
    {
      hide EncodeAll, WordBytes, RecordsMoved;
      ghost var rs := table[..idx];
      pos := 0;
      var n := MoveWord(idx, idx);
      ghost var s, p := bytes[..], pos;
      RecordsStart(false, s, p, rs);
      status := StoreRecords(table, idx, rs, s, p);
      RecordsEnd(false, s, p, bytes[..], pos, rs);
      Together(s, p, bytes[..], pos, WordBytes(idx), EncodeAll(rs, 0));
    }

    /** The loop of sys_replay_start. */
    method LoadRecords(idx: nat, fileSize: int, ghost rs: seq<Scr>, ghost s: seq<byte>, ghost p: nat)
      returns (status: int, table: seq<Scr>)
      requires OneMode() && Replaying() && idx == |rs| <= MAX_SCRS && AllWellFormed(rs)
      requires p + |EncodeAll(rs, 0)| <= fileSize
      requires RecordsMoved(true, s, p, bytes[..], pos, rs, 0)
      modifies this`pos, bytes
      ensures status == 1 && Loaded(table, rs, idx) && RecordsMoved(true, s, p, bytes[..], pos, rs, idx)
    {
      table := Blanks(MAX_SCRS);
      var i := 0;
      while i < idx
        invariant 0 <= i <= idx && record == old(record) && replay == old(replay)
        invariant RecordsMoved(true, s, p, bytes[..], pos, rs, i) && Loaded(table, rs, i)
      {
        var out;
        status, out := MoveRecord(table[i], fileSize, rs, i, s, p);
        if status == -1 {
          return;
        }
        if status == 0 {
          break;
        }
        table, i := table[i := out], i + 1;
      }
      status := 1;
    }

    /** The deserializing part of sys_replay_start: a buffer that begins with a session, whatever
        bytes follow it, yields the records of that session and leaves the other slots blank. */
    method Load(fileSize: int, ghost rs: seq<Scr>) returns (status: int, table: seq<Scr>)
      requires OneMode() && Replaying() && |rs| <= MAX_SCRS && AllWellFormed(rs)
      requires EncodeSession(rs) <= bytes[..] && |EncodeSession(rs)| <= fileSize
      modifies this`pos, bytes
      ensures status == 1 && table == rs + Blanks(MAX_SCRS - |rs|) && bytes[..] == old(bytes[..])
    {
      hide EncodeAll, WordBytes, RecordsMoved;
      Begins(bytes[..], WordBytes(|rs|), EncodeAll(rs, 0));
      pos := 0;
      var idx := MoveWord(0, |rs|);
      ghost var s, p := bytes[..], pos;
      RecordsStart(true, s, p, rs);
      status, table := LoadRecords(idx, fileSize, rs, s, p);
      RecordsEnd(true, s, p, bytes[..], pos, rs);
      LoadedAll(table, rs);
    }
  }

  lemma Together(s: seq<byte>, p: nat, s': seq<byte>, p': nat, a: seq<byte>, b: seq<byte>)
    requires p == |a| <= |s| && s[..p] == a && Moved(false, s, p, s', p', b)
    ensures p' <= |s'| && s'[..p'] == a + b
  {
    assert s'[..p'] == s'[..p] + s'[p..p'];
    assert s'[..p] == s[..p];
  }

  lemma Begins(s: seq<byte>, a: seq<byte>, b: seq<byte>)
    requires a + b <= s
    ensures At(s, 0, a) && At(s, |a|, b)
  {
    assert s[..|a + b|] == a + b;
    assert s[0..|a|] == (a + b)[..|a|] && s[|a|..|a| + |b|] == (a + b)[|a|..];
  }

  /** The table while i records are in. */
  ghost predicate Loaded(table: seq<Scr>, rs: seq<Scr>, i: nat)
    requires i <= |rs| <= MAX_SCRS
  {
    && |table| == MAX_SCRS && (forall j :: 0 <= j < i ==> table[j] == rs[j])
    && (forall j :: i <= j < MAX_SCRS ==> table[j] == BLANK)
  }

  lemma LoadedAll(table: seq<Scr>, rs: seq<Scr>)
    requires |rs| <= MAX_SCRS && Loaded(table, rs, |rs|)
    ensures table == rs + Blanks(MAX_SCRS - |rs|)
  {
  }

  function Blanks(n: nat): seq<Scr> {
    seq(n, _ => BLANK)
  }
}
