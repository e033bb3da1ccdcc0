/** What the callers of a pipe see (v3/pipe.c): the bytes that writers pass in, in the order in which their calls get
    through them, and the bytes that reads hand out.  All of it is told by the events of a run and the places of the
    processes, not by the history that the pipe keeps. */
module PipeCalls {
  import opened Monitor
  import opened Pipes

  type S = State<Local, Pipe, Channel>
  type E = Event<Local, Pipe>

  /** handed: what the reads that have returned gave their callers.  written: what the writes have got through so far.
      call: the last call that each process made.  part: what that call has got through, for a write. */
  datatype Seen = Seen(handed: seq<byte>, written: seq<byte>, call: seq<Local>, part: seq<seq<byte>>)

  /** The bytes that a writer got through from one place to the next. */
  function Advance(l: Local, l': Local): seq<byte> {
    if l.WLoop? && l'.WLoop? && l.i <= l'.i <= |l.src| then l.src[l.i..l'.i] else []
  }

  ghost function Watch(s: S, e: E, seen: Seen): Seen
    requires |s.local| == |s.phase| == |seen.call| == |seen.part| && Enabled(Code, s, e)
  {
    var l, l' := s.local[e.p], Do(Code, s, e).local[e.p];
    if e.Call? then seen.(call := seen.call[e.p := e.l], part := seen.part[e.p := []])
    else
      Seen(seen.handed + (if e.Exit? && l.Return? then l.got else []), seen.written + Advance(l, l'), seen.call,
           seen.part[e.p := seen.part[e.p] + Advance(l, l')])
  }

  ghost function Watched(s: S, es: seq<E>, seen: Seen): (r: Seen)
    requires Possible(Code, s, es) && |s.phase| == |seen.call| == |seen.part|
    ensures |r.call| == |r.part| == |s.phase|
    decreases |es|
  {
    if es == [] then seen else Watched(Do(Code, s, es[0]), es[1..], Watch(s, es[0], seen))
  }

  ghost function NothingSeen(s: S): Seen {
    Seen([], [], seq(|s.local|, _ => Idle), seq(|s.local|, _ => []))
  }

  // What each place in the code means

  /** Process at place l has made call c and, if it writes, got through `part` of it. */
  predicate Doing(c: Local, l: Local, part: seq<byte>) {
    match l
    case Idle => true
    case WLoop(src, i, _) => c == WLoop(src, 0, false) && i <= |src| && part == src[..i]
    case WFull(src, i, _) => c == WLoop(src, 0, false) && i <= |src| && part == src[..i]
    case WCall(src, i) => c == WLoop(src, 0, false) && i <= |src| && part == src[..i]
    case WSleep(src, i) => c == WLoop(src, 0, false) && i <= |src| && part == src[..i]
    case WFinish(src) => c == WLoop(src, 0, false) && part == src
    case RLoop(n) => c == RLoop(n)
    case REmpty(n) => c == RLoop(n)
    case RSleep(n) => c == RLoop(n)
    case RCopy(n, got) => c == RLoop(n) && |got| <= n
    case RFinish(got) => c.RLoop? && |got| <= c.n
    case CFlag(writable) => c == CFlag(writable)
    case CCall(ch) => c.CFlag? && ch == if c.writable then NRead else NWrite
    case Return(ret, got) => Returns(c, ret, got, part)
  }

  /** The results of the three calls: a write returns its length once all of it is through; a read returns the number
      of bytes that it hands out, at most as many as asked for; -1 hands out nothing. */
  predicate Returns(c: Local, ret: int, got: seq<byte>, part: seq<byte>) {
    match c
    case WLoop(src, _, _) => got == [] && (ret == -1 || (ret == |src| && part == src))
    case RLoop(n) => if ret == -1 then got == [] else ret == |got| <= n
    case CFlag(_) => ret == 0 && got == []
    case _ => false
  }

  /** What a reader that is done knows of the pipe: it got all it asked for or left the pipe empty, and it got nothing,
      though it asked for something, only from an empty pipe without a writer. */
  predicate Drained(c: Local, got: seq<byte>, d: Pipe) {
    c.RLoop? ==> (|got| == c.n || Empty(d)) && (got == [] && c.n > 0 ==> Empty(d) && !d.writeopen)
  }

  predicate ReadOk(c: Local, l: Local, d: Pipe) {
    match l
    case RCopy(n, got) => got == [] && Empty(d) ==> !d.writeopen
    case RFinish(got) => Drained(c, got, d)
    case Return(ret, got) => ret != -1 ==> Drained(c, got, d)
    case _ => true
  }

  /** What a process has copied so far. */
  function Got(l: Local): seq<byte> {
    match l
    case RCopy(_, got) => got
    case RFinish(got) => got
    case Return(_, got) => got
    case _ => []
  }

  predicate InCode(f: Phase<Channel>) {
    f.Inside? || f.Calling? || f.Scanning?
  }

  ghost predicate PlaceOk(s: S, seen: Seen, p: int)
    requires |s.local| == |s.phase| == |seen.call| == |seen.part|
  {
    0 <= p < |s.local| ==>
      && Doing(seen.call[p], s.local[p], seen.part[p])
      && if InCode(s.phase[p]) then ReadOk(seen.call[p], s.local[p], s.data)
         else !s.local[p].RCopy? && !s.local[p].RFinish? && !s.local[p].Return?
  }

  /** The bytes in the hands of the process that has the lock. */
  function InHand(s: S): seq<byte> {
    if 0 <= s.lk < |s.local| then Got(s.local[s.lk]) else []
  }

  /** What is seen agrees with the pipe's history. */
  ghost predicate Ties(s: S, seen: Seen) {
    && |s.local| == |s.phase| == |seen.call| == |seen.part|
    && seen.written == s.data.stored && seen.handed + InHand(s) == s.data.returned
    && forall p :: PlaceOk(s, seen, p)
  }

  // Steps

  lemma ActTells(c: Local, l: Local, d: Pipe, l': Local, d': Pipe, part: seq<byte>)
    requires Acts(l, d, l', d') && Doing(c, l, part) && ReadOk(c, l, d)
    ensures Doing(c, l', part + Advance(l, l')) && ReadOk(c, l', d') && d'.stored == d.stored + Advance(l, l')
    ensures Got(l) <= Got(l') && d'.returned == d.returned + Got(l')[|Got(l)|..]
  {
    if l.WLoop? && l'.WLoop? {
      assert l.src[..l'.i] == l.src[..l.i] + l.src[l.i..l'.i];
    }
  }

  lemma NextTells(c: Local, l: Local, d: Pipe, part: seq<byte>)
    requires !Intends(l, d).Act? && Doing(c, l, part) && ReadOk(c, l, d)
    ensures Doing(c, Continues(l), part) && ReadOk(c, Continues(l), d)
    ensures Advance(l, Continues(l)) == []
    ensures Got(Continues(l)) == if l.Return? then [] else Got(l)
    ensures Intends(l, d).Sleep? || Intends(l, d).Leave? ==>
              !Continues(l).RCopy? && !Continues(l).RFinish? && !Continues(l).Return?
  {
    assert part + [] == part;
  }

  lemma CallTells(l: Local, l': Local)
    requires Calls(l, l')
    ensures Doing(l', l', []) && Got(l') == [] && !l'.RCopy? && !l'.RFinish? && !l'.Return?
  {
  }

  /** A step of the process inside, on the data. */
  lemma StepTies(s: S, e: E, seen: Seen)
    requires LocksOk(s) && Ties(s, seen) && Enabled(Code, s, e) && e.Step?
    ensures Ties(Do(Code, s, e), Watch(s, e, seen))
  {
    hide Acts, Doing, ReadOk;
    var p, s', seen' := e.p, Do(Code, s, e), Watch(s, e, seen);
    assert PlaceOk(s, seen, p) && s.lk == p;
    ActTells(seen.call[p], s.local[p], s.data, e.l, e.d, seen.part[p]);
    assert Got(e.l) == Got(s.local[p]) + Got(e.l)[|Got(s.local[p])|..];
    forall q ensures PlaceOk(s', seen', q) {
      assert PlaceOk(s, seen, q);
      if 0 <= q < |s.local| && q != p {
        assert !InCode(s.phase[q]);
      }
    }
  }

  /** sleep, wakeup's scan and the final release: the process goes on to its next place. */
  lemma NextTies(s: S, e: E, seen: Seen)
    requires LocksOk(s) && ChannelsOk(Code, s) && Ties(s, seen) && Enabled(Code, s, e)
    requires e.GoSleep? || e.WakeScans? || e.Exit?
    ensures Ties(Do(Code, s, e), Watch(s, e, seen))
  {
    hide Doing, ReadOk;
    var p, s', seen' := e.p, Do(Code, s, e), Watch(s, e, seen);
    assert PlaceOk(s, seen, p) && s.lk == p;
    assert !Intends(s.local[p], s.data).Act?;
    NextTells(seen.call[p], s.local[p], s.data, seen.part[p]);
    assert seen.part[p] + [] == seen.part[p] && seen.written + [] == seen.written;
    forall q ensures PlaceOk(s', seen', q) {
      assert PlaceOk(s, seen, q);
    }
  }

  lemma CallTies(s: S, e: E, seen: Seen)
    requires LocksOk(s) && Ties(s, seen) && Enabled(Code, s, e) && e.Call?
    ensures Ties(Do(Code, s, e), Watch(s, e, seen))
  {
    hide Doing, ReadOk;
    var s', seen' := Do(Code, s, e), Watch(s, e, seen);
    CallTells(s.local[e.p], e.l);
    assert s.lk != e.p;
    forall q ensures PlaceOk(s', seen', q) {
      assert PlaceOk(s, seen, q);
    }
  }

  /** The other steps move no local state. */
  lemma MoveTies(s: S, e: E, seen: Seen)
    requires LocksOk(s) && Ties(s, seen) && Enabled(Code, s, e)
    requires !e.Step? && !e.GoSleep? && !e.WakeScans? && !e.Exit? && !e.Call?
    ensures Ties(Do(Code, s, e), Watch(s, e, seen))
  {
    hide Doing;
    var s', seen' := Do(Code, s, e), Watch(s, e, seen);
    assert Advance(s.local[e.p], s.local[e.p]) == [];
    assert seen.part[e.p] + [] == seen.part[e.p] && seen' == seen;
    assert PlaceOk(s, seen, e.p);
    forall q ensures PlaceOk(s', seen', q) {
      assert PlaceOk(s, seen, q);
    }
  }

  lemma WatchKeepsTies(s: S, e: E, seen: Seen)
    requires LocksOk(s) && ChannelsOk(Code, s) && Ties(s, seen) && Enabled(Code, s, e)
    ensures Ties(Do(Code, s, e), Watch(s, e, seen))
  {
    hide Ties, Do, Watch;
    if e.Step? {
      StepTies(s, e, seen);
    } else if e.GoSleep? || e.WakeScans? || e.Exit? {
      NextTies(s, e, seen);
    } else if e.Call? {
      CallTies(s, e, seen);
    } else {
      MoveTies(s, e, seen);
    }
  }

  lemma {:induction false} RunKeepsTies(s: S, es: seq<E>, seen: Seen)
    requires LocksOk(s) && ChannelsOk(Code, s) && Ties(s, seen) && Possible(Code, s, es)
    ensures Ties(After(Code, s, es), Watched(s, es, seen))
    ensures LocksOk(After(Code, s, es))
    decreases |es|
  {
    hide Ties, Do, Watch, LocksOk, ChannelsOk, Enabled;
    TiesSize(s, seen);
    if es != [] {
      StepKeepsLocks(Code, s, es[0]);
      WatchKeepsTies(s, es[0], seen);
      TiesSize(Do(Code, s, es[0]), Watch(s, es[0], seen));
      RunKeepsTies(Do(Code, s, es[0]), es[1..], Watch(s, es[0], seen));
    }
  }

  lemma TiesSize(s: S, seen: Seen)
    requires Ties(s, seen)
    ensures |s.phase| == |seen.call| == |seen.part|
  {
  }

  lemma StartTies(s: S)
    requires Start(s)
    ensures Ties(s, NothingSeen(s)) && LocksOk(s) && ChannelsOk(Code, s)
  {
  }

  // The laws

  /** Over every run: what reads have handed out is a prefix of what writes have got through, byte for byte and in
      order; what is missing is in the hands of one reader or in the ring, which holds at most PIPESIZE bytes. */
  lemma PipeDelivers(s: S, es: seq<E>)
    requires Start(s) && Possible(Code, s, es)
    ensures var seen, r := Watched(s, es, NothingSeen(s)), After(Code, s, es);
      && seen.handed + InHand(r) <= seen.written
      && |seen.written| <= |seen.handed + InHand(r)| + PIPESIZE
      && (r.lk == -1 ==> seen.handed <= seen.written)
  {
    hide Fifo;
    StartTies(s);
    RunKeepsTies(s, es, NothingSeen(s));
    StartFifo(s);
    PipeIsFifo(s, es);
    FifoBounds(After(Code, s, es).data);
  }

  lemma StartFifo(s: S)
    requires Start(s)
    ensures Fifo(s.data)
  {
  }

  lemma FifoBounds(d: Pipe)
    requires Fifo(d)
    ensures d.returned <= d.stored && |d.stored| <= |d.returned| + PIPESIZE
  {
  }

  /** Over every run, for a process about to return from its call: a write that returns its length has got all its
      bytes through, in order; a read returns the number of bytes it hands out, at most as many as asked for, and fewer
      only if it leaves the pipe empty; it hands out nothing only if the pipe is empty and has no writer. */
  lemma CallsReturnRight(s: S, es: seq<E>, p: int)
    requires Start(s) && Possible(Code, s, es) && 0 <= p < |After(Code, s, es).local|
    requires |After(Code, s, es).local| == |s.phase| && After(Code, s, es).local[p].Return?
    ensures var seen, r := Watched(s, es, NothingSeen(s)), After(Code, s, es);
      var c, l := seen.call[p], r.local[p];
      && Returns(c, l.ret, l.got, seen.part[p])
      && (c.RLoop? && l.ret != -1 ==>
            && (|l.got| == c.n || |r.data.stored| == |r.data.returned|)
            && (l.got == [] && c.n > 0 ==> |r.data.stored| == |r.data.returned| && !r.data.writeopen))
  {
    hide Fifo;
    var r := After(Code, s, es);
    StartTies(s);
    RunKeepsTies(s, es, NothingSeen(s));
    StartFifo(s);
    PipeIsFifo(s, es);
    CountersDecide(r.data);
    assert PlaceOk(r, Watched(s, es, NothingSeen(s)), p);
  }
}
