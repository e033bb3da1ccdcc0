/** The encoding of a session can be read in one way only: no byte string begins with two
    different sessions, so what sys_replay_start finds does not depend on what follows. */
module Unambiguous {
  import opened Blocks
  import opened Records

  lemma Split(a: seq<byte>, x: seq<byte>, b: seq<byte>, y: seq<byte>)
    requires a + x == b + y && |a| == |b|
    ensures a == b && x == y
  {
    assert a == (a + x)[..|a|] && b == (b + y)[..|b|];
    assert x == (a + x)[|a|..] && y == (b + y)[|b|..];
  }

  lemma WordSplit(v: uint32, x: seq<byte>, w: uint32, y: seq<byte>)
    requires WordBytes(v) + x == WordBytes(w) + y
    ensures v == w && x == y
  {
    hide WordBytes, BytesWord;
    Split(WordBytes(v), x, WordBytes(w), y);
    WordBack(v);
    WordBack(w);
  }

  lemma HalfSplit(v: half, x: seq<byte>, w: half, y: seq<byte>)
    requires HalfBytes(v) + x == HalfBytes(w) + y
    ensures v == w && x == y
  {
    hide HalfBytes, BytesHalf;
    Split(HalfBytes(v), x, HalfBytes(w), y);
    HalfBack(v);
    HalfBack(w);
  }

  lemma RawSplit(d: seq<byte>, x: seq<byte>, e: seq<byte>, y: seq<byte>)
    requires |d| < UINT && |e| < UINT && WordBytes(|d|) + d + x == WordBytes(|e|) + e + y
    ensures d == e && x == y
  {
    hide WordBytes;
    assert WordBytes(|d|) + (d + x) == WordBytes(|d|) + d + x;
    assert WordBytes(|e|) + (e + y) == WordBytes(|e|) + e + y;
    WordSplit(|d|, d + x, |e|, e + y);
    Split(d, x, e, y);
  }

  lemma StatSplit(a: Arg, x: seq<byte>, b: Arg, y: seq<byte>)
    requires a.StatArg? && b.StatArg? && StatBytes(a) + x == StatBytes(b) + y
    ensures a == b && x == y
  {
    hide WordBytes, HalfBytes;
    StatFields(a, x);
    StatFields(b, y);
    var a1, b1 := WordBytes(a.size) + x, WordBytes(b.size) + y;
    var a2, b2 := HalfBytes(a.nlink) + a1, HalfBytes(b.nlink) + b1;
    var a3, b3 := WordBytes(a.ino) + a2, WordBytes(b.ino) + b2;
    HalfSplit(a.typ, WordBytes(a.dev) + a3, b.typ, WordBytes(b.dev) + b3);
    WordSplit(a.dev, a3, b.dev, b3);
    WordSplit(a.ino, a2, b.ino, b2);
    HalfSplit(a.nlink, a1, b.nlink, b1);
    WordSplit(a.size, x, b.size, y);
  }

  lemma StatFields(a: Arg, x: seq<byte>)
    requires a.StatArg?
    ensures StatBytes(a) + x
         == HalfBytes(a.typ) + (WordBytes(a.dev) + (WordBytes(a.ino) + (HalfBytes(a.nlink) + (WordBytes(a.size) + x))))
  {
  }

  lemma ArgSplit(a: Arg, x: seq<byte>, b: Arg, y: seq<byte>)
    requires ArgOk(a) && ArgOk(b) && EncodeArg(a) + x == EncodeArg(b) + y
    ensures a == b && x == y
  {
    hide WordBytes, StatBytes;
    assert (EncodeArg(a) + x)[0] == TypeOf(a) && (EncodeArg(b) + y)[0] == TypeOf(b);
    assert (EncodeArg(a) + x)[1..] == EncodeArg(a)[1..] + x;
    assert (EncodeArg(b) + y)[1..] == EncodeArg(b)[1..] + y;
    match a {
      case IntArg(_) => WordSplit(a.num, x, b.num, y);
      case UintArg(_) => WordSplit(a.unum, x, b.unum, y);
      case RawArg(_) => RawSplit(a.data, x, b.data, y);
      case StatArg(_, _, _, _, _) => StatSplit(a, x, b, y);
    }
  }

  lemma {:induction false} ArgsSplit(a: seq<Arg>, x: seq<byte>, b: seq<Arg>, y: seq<byte>, k: nat)
    requires k <= |a| == |b| && ArgsOk(a) && ArgsOk(b) && EncodeArgs(a, k) + x == EncodeArgs(b, k) + y
    ensures a[k..] == b[k..] && x == y
    decreases |a| - k
  {
    hide EncodeArg;
    if k == |a| {
      assert [] + x == x && [] + y == y;
    } else {
      var c, d := EncodeArgs(a, k + 1), EncodeArgs(b, k + 1);
      assert EncodeArg(a[k]) + (c + x) == EncodeArg(a[k]) + c + x;
      assert EncodeArg(b[k]) + (d + y) == EncodeArg(b[k]) + d + y;
      ArgSplit(a[k], c + x, b[k], d + y);
      ArgsSplit(a, x, b, y, k + 1);
      assert a[k..] == [a[k]] + a[k + 1..] && b[k..] == [b[k]] + b[k + 1..];
    }
  }

  lemma RecordSplit(r: Scr, x: seq<byte>, q: Scr, y: seq<byte>)
    requires WellFormed(r) && WellFormed(q) && Encode(r) + x == Encode(q) + y
    ensures r == q && x == y
  {
    hide EncodeArgs;
    assert Encode(r) + x == [r.syscall, |r.args|] + (EncodeArgs(r.args, 0) + x);
    assert Encode(q) + y == [q.syscall, |q.args|] + (EncodeArgs(q.args, 0) + y);
    Split([r.syscall, |r.args|], EncodeArgs(r.args, 0) + x, [q.syscall, |q.args|], EncodeArgs(q.args, 0) + y);
    ArgsSplit(r.args, x, q.args, y, 0);
    assert r.args[0..] == r.args && q.args[0..] == q.args;
  }

  lemma {:induction false} RecordsSplit(rs: seq<Scr>, x: seq<byte>, qs: seq<Scr>, y: seq<byte>, k: nat)
    requires k <= |rs| == |qs| && AllWellFormed(rs) && AllWellFormed(qs) && EncodeAll(rs, k) + x == EncodeAll(qs, k) + y
    ensures rs[k..] == qs[k..] && x == y
    decreases |rs| - k
  {
    hide Encode;
    if k == |rs| {
      assert [] + x == x && [] + y == y;
    } else {
      var c, d := EncodeAll(rs, k + 1), EncodeAll(qs, k + 1);
      assert Encode(rs[k]) + (c + x) == Encode(rs[k]) + c + x;
      assert Encode(qs[k]) + (d + y) == Encode(qs[k]) + d + y;
      RecordSplit(rs[k], c + x, qs[k], d + y);
      RecordsSplit(rs, x, qs, y, k + 1);
      assert rs[k..] == [rs[k]] + rs[k + 1..] && qs[k..] == [qs[k]] + qs[k + 1..];
    }
  }

  /** Two sessions that begin the same bytes are the same session. */
  lemma SessionUnambiguous(rs: seq<Scr>, qs: seq<Scr>, bytes: seq<byte>)
    requires |rs| <= MAX_SCRS && |qs| <= MAX_SCRS && AllWellFormed(rs) && AllWellFormed(qs)
    requires EncodeSession(rs) <= bytes && EncodeSession(qs) <= bytes
    ensures rs == qs
  {
    hide WordBytes, EncodeAll;
    var x, y := bytes[|EncodeSession(rs)|..], bytes[|EncodeSession(qs)|..];
    assert EncodeSession(rs) + x == bytes == EncodeSession(qs) + y;
    assert EncodeSession(rs) + x == WordBytes(|rs|) + (EncodeAll(rs, 0) + x);
    assert EncodeSession(qs) + y == WordBytes(|qs|) + (EncodeAll(qs, 0) + y);
    WordSplit(|rs|, EncodeAll(rs, 0) + x, |qs|, EncodeAll(qs, 0) + y);
    RecordsSplit(rs, x, qs, y, 0);
    assert rs[0..] == rs && qs[0..] == qs;
  }
}
