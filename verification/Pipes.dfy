/** Pipes (v3/pipe.c) as code under the pipe's spinlock: a ring with 32-bit counters that wrap. */
module Pipes {
  import opened Monitor

  const PIPESIZE: nat := 512
  const UINT: nat := 0x1_0000_0000

  type byte = x: int | 0 <= x < 256

  /** Whether a writer has given up on a full pipe without waking the readers of the bytes it had stored, and
      which of the two guards made it: that it was killed, or that the read end was closed. */
  datatype GivenUp = Never | ByKill | ByClose

  /** struct pipe, with its history: everything stored in it, everything returned from it, and whether a
      writer has given up owing the readers a wakeup since the pipe was last drained. */
  datatype Pipe = Pipe(data: seq<byte>, nread: nat, nwrite: nat, readopen: bool, writeopen: bool,
                       stored: seq<byte>, returned: seq<byte>, lost: GivenUp)

  /** The channels: the addresses of the two counters. */
  datatype Channel = NRead | NWrite

  /** Places in pipewrite (W), piperead (R) and pipeclose (C).  `owes` is set once bytes have been stored
      since the readers were last woken.  A call returns with its result and, for a read, with the bytes that it
      has copied to the caller. */
  datatype Local =
    | Idle
    | WLoop(src: seq<byte>, i: nat, owes: bool)
    | WFull(src: seq<byte>, i: nat, owes: bool)
    | WCall(src: seq<byte>, i: nat)
    | WSleep(src: seq<byte>, i: nat)
    | WFinish(src: seq<byte>)
    | RLoop(n: nat)
    | REmpty(n: nat)
    | RSleep(n: nat)
    | RCopy(n: nat, got: seq<byte>)
    | RFinish(got: seq<byte>)
    | CFlag(writable: bool)
    | CCall(c: Channel)
    | Return(ret: int, got: seq<byte>)

  predicate Full(d: Pipe) {
    d.nwrite == (d.nread + PIPESIZE) % UINT
  }

  predicate Empty(d: Pipe) {
    d.nread == d.nwrite
  }

  function Intends(l: Local, d: Pipe): Intent<Channel> {
    match l
    case WCall(_, _) => Wake(NRead)
    case WSleep(_, _) => Sleep(NWrite)
    case WFinish(_) => Wake(NRead)
    case RSleep(_) => Sleep(NRead)
    case RFinish(_) => Wake(NWrite)
    case CCall(c) => Wake(c)
    case Return(_, _) => Leave
    case Idle => Leave
    case _ => Act
  }

  function Store(d: Pipe, b: byte): Pipe
    requires |d.data| == PIPESIZE
  {
    d.(data := d.data[d.nwrite % PIPESIZE := b], nwrite := (d.nwrite + 1) % UINT, stored := d.stored + [b])
  }

  /** A read that takes the last byte drains the pipe; readers sleep on a drained pipe while it has a writer. */
  function Fetch(d: Pipe): Pipe
    requires |d.data| == PIPESIZE
  {
    var d' := d.(nread := (d.nread + 1) % UINT, returned := d.returned + [d.data[d.nread % PIPESIZE]]);
    if Empty(d') && d'.writeopen then d'.(lost := Never) else d'
  }

  /** A writer returns from the middle of its loop. */
  function GiveUp(d: Pipe, owes: bool): Pipe {
    if !owes then d else d.(lost := if d.readopen then ByKill else ByClose)
  }

  /** The steps on the data.  Whether the process has been killed can turn out either way. */
  predicate Acts(l: Local, d: Pipe, l': Local, d': Pipe) {
    && |d.data| == PIPESIZE
    && match l
       case WLoop(src, i, owes) =>
         if i >= |src| then d' == d && l' == WFinish(src)
         else if Full(d) then d' == d && l' == WFull(src, i, owes)
         else d' == Store(d, src[i]) && l' == WLoop(src, i + 1, true)
       case WFull(src, i, owes) =>
         || (d' == GiveUp(d, owes) && l' == Return(-1, []))
         || (d' == d && d.readopen && l' == WCall(src, i))
       case RLoop(n) => d' == d && l' == if Empty(d) && d.writeopen then REmpty(n) else RCopy(n, [])
       case REmpty(n) => d' == d && (l' == Return(-1, []) || l' == RSleep(n))
       case RCopy(n, got) =>
         if |got| >= n || Empty(d) then d' == d && l' == RFinish(got)
         else d' == Fetch(d) && l' == RCopy(n, got + [d.data[d.nread % PIPESIZE]])
       case CFlag(writable) =>
         if writable then d' == d.(writeopen := false) && l' == CCall(NRead)
         else d' == d.(readopen := false) && l' == CCall(NWrite)
       case _ => false
  }

  function Continues(l: Local): Local {
    match l
    case WCall(src, i) => WSleep(src, i)
    case WSleep(src, i) => WLoop(src, i, false)
    case WFinish(src) => Return(|src|, [])
    case RSleep(n) => RLoop(n)
    case RFinish(got) => Return(|got|, got)
    case CCall(_) => Return(0, [])
    case Return(_, _) => Idle
    case _ => l
  }

  predicate Calls(l: Local, l': Local) {
    l.Idle? && ((l'.WLoop? && l'.i == 0 && !l'.owes) || l'.RLoop? || l'.CFlag?)
  }

  /** A writer sleeps while the pipe is full and has a reader, a reader while it is empty and has a writer. */
  predicate Waits(c: Channel, d: Pipe) {
    if c.NWrite? then Full(d) && d.readopen else Empty(d) && d.writeopen
  }

  /** What keeps a process asleep: its condition, or that the wakeup went missing. */
  predicate Stays(c: Channel, d: Pipe) {
    Waits(c, d) || (c.NRead? && d.lost != Never)
  }

  function Owes(l: Local): set<Channel> {
    match l
    case WLoop(_, _, owes) => if owes then {NRead} else {}
    case WFull(_, _, owes) => if owes then {NRead} else {}
    case WCall(_, _) => {NRead}
    case WFinish(_) => {NRead}
    case RCopy(_, _) => {NWrite}
    case RFinish(_) => {NWrite}
    case CCall(c) => {c}
    case _ => {}
  }

  predicate Knows(l: Local, d: Pipe) {
    match l
    case WFull(_, _, _) => Full(d)
    case WCall(_, _) => Full(d) && d.readopen
    case WSleep(_, _) => Full(d) && d.readopen
    case REmpty(_) => Empty(d) && d.writeopen
    case RSleep(_) => Empty(d) && d.writeopen
    case _ => true
  }

  const Code: Program<Local, Pipe, Channel> :=
    Program(Intends, Acts, Continues, Calls, Stays, Owes, Knows)

  // The ring

  /** The counters count modulo 2^32, what was returned is a prefix of what was stored, and the rest is in the
      ring. */
  ghost predicate Fifo(d: Pipe) {
    && |d.data| == PIPESIZE && d.nread == |d.returned| % UINT && d.nwrite == |d.stored| % UINT
    && |d.returned| <= |d.stored| <= |d.returned| + PIPESIZE && d.returned <= d.stored
    && forall k :: |d.returned| <= k < |d.stored| ==> d.data[k % PIPESIZE] == d.stored[k]
  }

  /** The tests on the wrapped counters are exact. */
  lemma CountersDecide(d: Pipe)
    requires Fifo(d)
    ensures (d.nwrite - d.nread) % UINT == |d.stored| - |d.returned| <= PIPESIZE
    ensures Full(d) <==> |d.stored| == |d.returned| + PIPESIZE
    ensures Empty(d) <==> |d.stored| == |d.returned|
  {
  }

  lemma StoreKeepsFifo(d: Pipe, b: byte)
    requires Fifo(d) && !Full(d)
    ensures Fifo(Store(d, b))
  {
    CountersDecide(d);
    WrappedIndex(|d.stored|);
    var d' := Store(d, b);
    forall k | |d'.returned| <= k < |d'.stored| ensures d'.data[k % PIPESIZE] == d'.stored[k] {
      if k < |d.stored| {
        OtherSlot(k, |d.stored|);
      }
    }
  }

  lemma WrappedIndex(n: nat)
    ensures n % UINT % PIPESIZE == n % PIPESIZE && (n % UINT + 1) % UINT == (n + 1) % UINT
  {
    assert n == n / UINT * UINT + n % UINT;
    assert UINT == PIPESIZE * 0x80_0000;
  }

  lemma OtherSlot(k: nat, n: nat)
    requires k < n < k + PIPESIZE
    ensures k % PIPESIZE != n % PIPESIZE
  {
  }

  lemma FetchKeepsFifo(d: Pipe)
    requires Fifo(d) && !Empty(d)
    ensures Fifo(Fetch(d))
  {
    CountersDecide(d);
    WrappedIndex(|d.returned|);
    assert d.stored[..|d.returned| + 1] == d.stored[..|d.returned|] + [d.stored[|d.returned|]];
  }

  lemma ActKeepsFifo(l: Local, d: Pipe, l': Local, d': Pipe)
    requires Fifo(d) && Acts(l, d, l', d')
    ensures Fifo(d')
  {
    hide Fifo, Store, Fetch;
    if l.WLoop? && l.i < |l.src| && !Full(d) {
      StoreKeepsFifo(d, l.src[l.i]);
    } else if l.RCopy? && |l.got| < l.n && !Empty(d) {
      FetchKeepsFifo(d);
    } else {
      FlagsKeepFifo(d, d');
    }
  }

  lemma FlagsKeepFifo(d: Pipe, d': Pipe)
    requires Fifo(d) && d' == d.(readopen := d'.readopen, writeopen := d'.writeopen, lost := d'.lost)
    ensures Fifo(d')
  {
  }

  /** Bytes leave a pipe in the order in which they entered it, over every interleaving of reads, writes and
      closes and past any number of wraps of the counters. */
  lemma PipeIsFifo(s: State<Local, Pipe, Channel>, es: seq<Event<Local, Pipe>>)
    requires Possible(Code, s, es) && Fifo(s.data)
    ensures var d := After(Code, s, es).data;
            Fifo(d) && d.returned <= d.stored && (d.nwrite - d.nread) % UINT == |d.stored| - |d.returned| <= PIPESIZE
  {
    forall l, d, l', d' | Fifo(d) && Acts(l, d, l', d') ensures Fifo(d') {
      ActKeepsFifo(l, d, l', d');
    }
    RunKeepsData(Code, d => Fifo(d), s, es);
    CountersDecide(After(Code, s, es).data);
  }

  // Wakeups

  lemma CodeIsPlaced(l: Local, d: Pipe)
    requires Knows(l, d)
    ensures Placed(Code, l, d)
  {
    hide Store, Fetch;
    var g := Code;
    forall l', d' | g.act(l, d, l', d') ensures g.here(l', d') {
      assert Acts(l, d, l', d');
    }
  }

  lemma CodeIsCareful(l: Local, d: Pipe, c: Channel)
    requires Knows(l, d)
    ensures Careful(Code, l, d, c)
  {
  }

  lemma CodeIsHonest(l: Local, d: Pipe, l': Local, d': Pipe, c: Channel)
    requires Knows(l, d)
    ensures Honest(Code, l, d, l', d', c)
  {
  }

  lemma CodeIsSound()
    ensures Sound(Code, {NRead, NWrite}) && Sound(Code, {})
  {
    hide Placed, Careful, Honest, Knows, Acts;
    forall l, d | Code.here(l, d) ensures Placed(Code, l, d) {
      CodeIsPlaced(l, d);
    }
    forall l, d, c | Code.here(l, d) ensures Careful(Code, l, d, c) {
      CodeIsCareful(l, d, c);
    }
    forall l, d, l', d', c: Channel | Code.here(l, d) ensures Honest(Code, l, d, l', d', c) {
      CodeIsHonest(l, d, l', d', c);
    }
    forall l, l' | Code.call(l, l') ensures Anywhere(Code, l') {
      CallsAnywhere(l, l');
    }
  }

  lemma CallsAnywhere(l: Local, l': Local)
    requires Calls(l, l')
    ensures Anywhere(Code, l')
  {
  }

  ghost predicate Start(s: State<Local, Pipe, Channel>) {
    && Initial(Code, s) && |s.data.data| == PIPESIZE
    && s.data == Pipe(s.data.data, 0, 0, true, true, [], [], Never)
    && forall p :: 0 <= p < |s.local| ==> s.local[p].Idle?
  }

  /** With the lock free, a writer sleeps only while the pipe is full and its read end open. */
  lemma WritersWokenInTime(s: State<Local, Pipe, Channel>, es: seq<Event<Local, Pipe>>)
    requires Start(s) && Possible(Code, s, es)
    ensures var r := After(Code, s, es);
            r.lk == -1 ==> forall p :: 0 <= p < |r.phase| && r.phase[p] == Asleep(NWrite) ==>
              r.data.readopen && |r.data.stored| == |r.data.returned| + PIPESIZE
  {
    hide Acts, Knows, Stays;
    var r := After(Code, s, es);
    CodeIsSound();
    NoLostWakeup(Code, {NRead, NWrite}, s, es);
    PipeIsFifo(s, es);
    CountersDecide(r.data);
    StaysIs(NWrite, r.data);
  }

  lemma StaysIs(c: Channel, d: Pipe)
    ensures Code.cond(c, d) ==> Waits(c, d) || (c.NRead? && d.lost != Never)
  {
  }

  /** A writer that gave up owing left the pipe full, and nobody has drained it since. */
  ghost predicate LostMeansMissed(d: Pipe) {
    d.lost != Never ==> !(Empty(d) && d.writeopen)
  }

  lemma ActKeepsMissed(l: Local, d: Pipe, l': Local, d': Pipe)
    requires Fifo(d) && LostMeansMissed(d) && Knows(l, d) && Acts(l, d, l', d')
    ensures LostMeansMissed(d')
  {
    CountersDecide(d);
    ActKeepsFifo(l, d, l', d');
    CountersDecide(d');
  }

  lemma MissedThroughout(s: State<Local, Pipe, Channel>, es: seq<Event<Local, Pipe>>)
    requires Start(s) && Possible(Code, s, es)
    ensures LostMeansMissed(After(Code, s, es).data)
  {
    hide Fifo, LostMeansMissed, Acts, Knows;
    CodeIsSound();
    forall l, d, l', d' | Fifo(d) && LostMeansMissed(d) && Code.here(l, d) && Acts(l, d, l', d')
      ensures Fifo(d') && LostMeansMissed(d')
    {
      ActKeepsFifo(l, d, l', d');
      ActKeepsMissed(l, d, l', d');
    }
    StartIsGood(s);
    RunKeepsKnown(Code, d => Fifo(d) && LostMeansMissed(d), s, es);
  }

  lemma StartIsGood(s: State<Local, Pipe, Channel>)
    requires Start(s)
    ensures Fifo(s.data) && LostMeansMissed(s.data) && Inv(Code, {}, s)
  {
  }

  /** The exact condition of a lost wakeup, over every run: with the lock free, a sleeping reader has bytes to
      read, or no writer left to wait for, if and only if a writer has given up owing the readers a wakeup
      since the pipe was last drained.  Without such a writer every sleeping reader has its reason. */
  lemma ReaderLeftAsleepExactly(s: State<Local, Pipe, Channel>, es: seq<Event<Local, Pipe>>, p: int)
    requires Start(s) && Possible(Code, s, es)
    ensures var r := After(Code, s, es);
            r.lk == -1 && 0 <= p < |r.phase| && r.phase[p] == Asleep(NRead) ==>
              (|r.data.stored| > |r.data.returned| || !r.data.writeopen <==> r.data.lost != Never)
  {
    hide Acts, Knows, Stays;
    var r := After(Code, s, es);
    CodeIsSound();
    NoLostWakeup(Code, {NRead, NWrite}, s, es);
    PipeIsFifo(s, es);
    MissedThroughout(s, es);
    CountersDecide(r.data);
    StaysIs(NRead, r.data);
  }

  /** Wherever a writer that owes stands before the two guards, it can leave every sleeping reader behind on a
      full pipe with the lock free; with the read end closed it can do nothing else. */
  lemma GivingUpLeavesReaders(s: State<Local, Pipe, Channel>, w: int, p: int)
    requires LocksOk(s) && Fifo(s.data) && 0 <= w < |s.phase| && 0 <= p < |s.phase|
    requires s.phase[w].Inside? && s.local[w].WFull? && s.local[w].owes && Knows(s.local[w], s.data)
    requires s.phase[p] == Asleep(NRead)
    ensures var d := GiveUp(s.data, true);
            var es := [Step(w, Return(-1, []), d), Exit(w)];
            Possible(Code, s, es) &&
            var r := After(Code, s, es);
            r.lk == -1 && |r.phase| == |s.phase| && r.phase[p] == Asleep(NRead) && r.data == d &&
            |d.stored| == |d.returned| + PIPESIZE && d.lost != Never
    ensures !s.data.readopen ==>
              forall l', d' :: Acts(s.local[w], s.data, l', d') ==> l' == Return(-1, []) && d'.lost == ByClose
  {
    hide Fifo;
    CountersDecide(s.data);
    FifoSize(s.data);
    var d := GiveUp(s.data, true);
    var e1, e2 := Step(w, Return(-1, []), d), Exit(w);
    var s1 := Do(Code, s, e1);
    assert Enabled(Code, s1, e2);
    assert [e1, e2][1..] == [e2] && [e2][1..] == [];
    var s2 := Do(Code, s1, e2);
    assert Possible(Code, s2, []) && After(Code, s2, []) == s2;
    assert Possible(Code, s1, [e2]) && After(Code, s1, [e2]) == s2;
    assert Possible(Code, s, [e1, e2]) && After(Code, s, [e1, e2]) == s2;
  }

  // The run in which a writer gives up: the reader sleeps on although the pipe is full

  /** Run es leads from s to r. */
  ghost predicate Leads(s: State<Local, Pipe, Channel>, es: seq<Event<Local, Pipe>>, r: State<Local, Pipe, Channel>) {
    Possible(Code, s, es) && After(Code, s, es) == r && |r.local| == |r.phase| == 2
  }

  lemma Next(s: State<Local, Pipe, Channel>, es: seq<Event<Local, Pipe>>, r: State<Local, Pipe, Channel>,
             e: Event<Local, Pipe>)
    returns (es': seq<Event<Local, Pipe>>)
    requires Leads(s, es, r) && Enabled(Code, r, e)
    ensures Leads(s, es', Do(Code, r, e))
  {
    hide Enabled, Do, Possible;
    Extend(Code, s, es, e);
    es' := es + [e];
  }

  lemma ReaderEnters(s: State<Local, Pipe, Channel>) returns (es: seq<Event<Local, Pipe>>)
    requires Start(s) && |s.phase| == 2
    ensures Leads(s, es, State([Inside, Outside], [RLoop(1), Idle], s.data, 0, -1))
  {
    hide Leads;
    var r1 := State([Outside, Outside], [RLoop(1), Idle], s.data, -1, -1);
    var r2 := r1.(phase := [Wanting, Outside]);
    LeadsNowhere(s);
    es := Next(s, [], s, Call(0, RLoop(1)));
    assert Do(Code, s, Call(0, RLoop(1))) == r1;
    es := Next(s, es, r1, Want(0));
    assert Do(Code, r1, Want(0)) == r2;
    es := Next(s, es, r2, Enter(0));
    assert Do(Code, r2, Enter(0)) == r1.(phase := [Inside, Outside], lk := 0);
  }

  /** The reader, process 0, finds the pipe empty and goes to sleep. */
  lemma ReaderSleeps(s: State<Local, Pipe, Channel>) returns (es: seq<Event<Local, Pipe>>)
    requires Start(s) && |s.phase| == 2
    ensures Leads(s, es, State([Asleep(NRead), Outside], [RLoop(1), Idle], s.data, -1, -1))
  {
    hide Leads;
    var r := State([Inside, Outside], [RLoop(1), Idle], s.data, 0, -1);
    es := ReaderEnters(s);
    es := Next(s, es, r, Step(0, REmpty(1), s.data));
    assert Do(Code, r, Step(0, REmpty(1), s.data)) == r.(local := [REmpty(1), Idle]);
    es := Next(s, es, r.(local := [REmpty(1), Idle]), Step(0, RSleep(1), s.data));
    assert Do(Code, r.(local := [REmpty(1), Idle]), Step(0, RSleep(1), s.data)) == r.(local := [RSleep(1), Idle]);
    es := ReaderDozes(s, es, r.(local := [RSleep(1), Idle]));
  }

  lemma LeadsNowhere(s: State<Local, Pipe, Channel>)
    requires |s.local| == |s.phase| == 2
    ensures Leads(s, [], s)
  {
  }

  lemma ReaderDozes(s: State<Local, Pipe, Channel>, es0: seq<Event<Local, Pipe>>, r: State<Local, Pipe, Channel>)
    returns (es: seq<Event<Local, Pipe>>)
    requires Leads(s, es0, r) && r == State([Inside, Outside], [RSleep(1), Idle], r.data, 0, -1)
    ensures Leads(s, es, State([Asleep(NRead), Outside], [RLoop(1), Idle], r.data, -1, -1))
  {
    hide Leads;
    var r1 := State([Dozing(NRead), Outside], [RLoop(1), Idle], r.data, 0, -1);
    var r2 := r1.(phase := [Dropping(NRead), Outside], table := 0);
    var r3 := r2.(phase := [Marking(NRead), Outside], lk := -1);
    var r4 := r3.(phase := [Asleep(NRead), Outside], table := -1);
    es := Next(s, es0, r, GoSleep(0));
    assert Do(Code, r, GoSleep(0)) == r1;
    es := Next(s, es, r1, SleepLocksTable(0));
    assert Do(Code, r1, SleepLocksTable(0)) == r2;
    es := Next(s, es, r2, SleepDropsLock(0));
    assert Do(Code, r2, SleepDropsLock(0)) == r3;
    es := Next(s, es, r3, SleepMarks(0));
    assert Do(Code, r3, SleepMarks(0)) == r4;
  }

  /** The writer, process 1, has stored k bytes of 513 while the reader sleeps. */
  ghost predicate Filling(r: State<Local, Pipe, Channel>, src: seq<byte>, k: nat) {
    && |r.local| == 2 && |src| == PIPESIZE + 1 && k <= PIPESIZE
    && r == State([Asleep(NRead), Inside], [RLoop(1), WLoop(src, k, k > 0)], r.data, 1, -1)
    && Fifo(r.data) && r.data.returned == [] && |r.data.stored| == k
  }

  lemma WriterEnters(s: State<Local, Pipe, Channel>, src: seq<byte>)
    returns (es: seq<Event<Local, Pipe>>, r: State<Local, Pipe, Channel>)
    requires Start(s) && |s.phase| == 2 && |src| == PIPESIZE + 1
    ensures Leads(s, es, r) && Filling(r, src, 0)
  {
    hide Leads;
    var r0 := State([Asleep(NRead), Outside], [RLoop(1), Idle], s.data, -1, -1);
    var r1 := r0.(local := [RLoop(1), WLoop(src, 0, false)]);
    var r2 := r1.(phase := [Asleep(NRead), Wanting]);
    r := r1.(phase := [Asleep(NRead), Inside], lk := 1);
    es := ReaderSleeps(s);
    es := Next(s, es, r0, Call(1, WLoop(src, 0, false)));
    assert Do(Code, r0, Call(1, WLoop(src, 0, false))) == r1;
    es := Next(s, es, r1, Want(1));
    assert Do(Code, r1, Want(1)) == r2;
    es := Next(s, es, r2, Enter(1));
    assert Do(Code, r2, Enter(1)) == r;
  }

  lemma {:induction false} WriterFills(s: State<Local, Pipe, Channel>, es0: seq<Event<Local, Pipe>>,
                                       r0: State<Local, Pipe, Channel>, src: seq<byte>, k: nat)
    returns (es: seq<Event<Local, Pipe>>, r: State<Local, Pipe, Channel>)
    requires Leads(s, es0, r0) && Filling(r0, src, k)
    ensures Leads(s, es, r) && Filling(r, src, PIPESIZE)
    decreases PIPESIZE - k
  {
    if k == PIPESIZE {
      return es0, r0;
    }
    var r1, es1 := WriterStores(s, es0, r0, src, k);
    es, r := WriterFills(s, es1, r1, src, k + 1);
  }

  lemma WriterStores(s: State<Local, Pipe, Channel>, es0: seq<Event<Local, Pipe>>, r0: State<Local, Pipe, Channel>,
                     src: seq<byte>, k: nat)
    returns (r: State<Local, Pipe, Channel>, es: seq<Event<Local, Pipe>>)
    requires Leads(s, es0, r0) && Filling(r0, src, k) && k < PIPESIZE
    ensures Leads(s, es, r) && Filling(r, src, k + 1)
  {
    hide Leads, Fifo;
    CountersDecide(r0.data);
    StoreKeepsFifo(r0.data, src[k]);
    FifoSize(r0.data);
    var e := Step(1, WLoop(src, k + 1, true), Store(r0.data, src[k]));
    r := r0.(local := [RLoop(1), WLoop(src, k + 1, true)], data := Store(r0.data, src[k]));
    es := Next(s, es0, r0, e);
    assert Do(Code, r0, e) == r;
  }

  lemma FifoSize(d: Pipe)
    requires Fifo(d)
    ensures |d.data| == PIPESIZE
  {
  }

  /** Readers can miss a wakeup: the writer finds the pipe full, has been killed, and returns without waking the
      reader, which sleeps on a full pipe while nobody has the lock. */
  lemma ReaderCanBeLeftAsleep(s: State<Local, Pipe, Channel>) returns (es: seq<Event<Local, Pipe>>)
    requires Start(s) && |s.phase| == 2
    ensures Possible(Code, s, es)
    ensures var r := After(Code, s, es);
            && r.lk == -1 && |r.phase| == 2 && r.phase[0] == Asleep(NRead)
            && |r.data.stored| - |r.data.returned| == PIPESIZE
  {
    var src := seq(PIPESIZE + 1, _ => 0);
    var r;
    es, r := WriterEnters(s, src);
    es, r := WriterFills(s, es, r, src, 0);
    es := WriterGivesUp(s, es, r, src);
  }

  lemma WriterGivesUp(s: State<Local, Pipe, Channel>, es0: seq<Event<Local, Pipe>>,
                      r: State<Local, Pipe, Channel>, src: seq<byte>)
    returns (es: seq<Event<Local, Pipe>>)
    requires Leads(s, es0, r) && Filling(r, src, PIPESIZE)
    ensures Leads(s, es, State([Asleep(NRead), Outside], [RLoop(1), Idle], GiveUp(r.data, true), -1, -1))
    ensures |r.data.stored| - |r.data.returned| == PIPESIZE
  {
    hide Leads, Fifo;
    CountersDecide(r.data);
    FifoSize(r.data);
    var d := GiveUp(r.data, true);
    var e1, e2 := Step(1, WFull(src, PIPESIZE, true), r.data), Step(1, Return(-1, []), d);
    var r1 := r.(local := [RLoop(1), WFull(src, PIPESIZE, true)]);
    var r2 := r.(local := [RLoop(1), Return(-1, [])], data := d);
    es := Next(s, es0, r, e1);
    assert Do(Code, r, e1) == r1;
    es := Next(s, es, r1, e2);
    assert Do(Code, r1, e2) == r2;
    es := Next(s, es, r2, Exit(1));
    assert Do(Code, r2, Exit(1)) == State([Asleep(NRead), Outside], [RLoop(1), Idle], d, -1, -1);
  }
}
