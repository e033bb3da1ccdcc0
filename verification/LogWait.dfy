/** Waiting for the log (v3/log.c:126-174): begin_op, log_write and end_op as code under log.lock. */
module LogWait {
  import opened Monitor
  import LogProtocol

  /** Where a process is: in begin_op (B), in an operation, in log_write (W), in end_op (E). */
  datatype Local = Idle | BTest | BDone | InOp | WNote | WDone | ETest | ECommit | Committing | EClear | EWake | EDone

  /** outstanding, committing and lh.n. */
  datatype Log = Log(outstanding: int, committing: bool, n: int)

  /** The one channel: the address of the log. */
  datatype Channel = Address

  /** Why begin_op sleeps. */
  predicate Waits(c: Channel, d: Log) {
    d.committing || d.n + (d.outstanding + 1) * LogProtocol.MAXOPBLOCKS > LogProtocol.LOGSIZE
  }

  function Intends(l: Local, d: Log): Intent<Channel> {
    match l
    case BTest => if Waits(Address, d) then Sleep(Address) else Act
    case WNote => Act
    case ETest => Act
    case EClear => Act
    case EWake => Wake(Address)
    case _ => Leave
  }

  /** The commit itself empties the log outside the lock, while `committing` keeps everybody out; its effect on
      lh.n is put where `committing` is cleared. */
  predicate Acts(l: Local, d: Log, l': Local, d': Log) {
    match l
    case BTest => l' == BDone && d' == d.(outstanding := d.outstanding + 1)
    case WNote => l' == WDone && (d' == d || d' == d.(n := d.n + 1))
    case ETest =>
      if d.outstanding == 1 then l' == ECommit && d' == d.(outstanding := 0, committing := true)
      else l' == EWake && d' == d.(outstanding := d.outstanding - 1)
    case EClear => l' == EWake && d' == d.(committing := false, n := 0)
    case _ => false
  }

  function Continues(l: Local): Local {
    match l
    case BDone => InOp
    case WDone => InOp
    case ECommit => Committing
    case EWake => EDone
    case EDone => Idle
    case _ => l
  }

  predicate Calls(l: Local, l': Local) {
    || (l.Idle? && l'.BTest?)
    || (l.InOp? && (l'.WNote? || l'.ETest?))
    || (l.Committing? && l'.EClear?)
  }

  function Owes(l: Local): set<Channel> {
    if l.EWake? then {Address} else {}
  }

  function Code(): Program<Local, Log, Channel> {
    Program(Intends, Acts, Continues, Calls, Waits, Owes, (l, d) => true)
  }

  lemma CodeIsSound()
    ensures Sound(Code(), {Address})
  {
    var g := Code();
    forall l, d, c ensures Careful(g, l, d, c) {
    }
    forall l, d, l', d', c ensures Honest(g, l, d, l', d', c) {
      assert g.act(l, d, l', d') == Acts(l, d, l', d') && c == Address;
      assert g.debt(l) == Owes(l) && g.debt(l') == Owes(l');
    }
  }

  /** While log.lock is free, a process sleeps in begin_op only if a commit is under way or the log could not
      hold one more operation. */
  lemma BeginOpWokenInTime(s: State<Local, Log, Channel>, es: seq<Event<Local, Log>>)
    requires Initial(Code(), s) && Possible(Code(), s, es)
    ensures var r := After(Code(), s, es);
            r.lk == -1 ==> forall p :: 0 <= p < |r.phase| && r.phase[p] == Asleep(Address) ==> Waits(Address, r.data)
  {
    CodeIsSound();
    NoLostWakeup(Code(), {Address}, s, es);
  }

  // The counters are right

  /** Between the counting in begin_op and that in end_op. */
  predicate Counted(l: Local) {
    l.BDone? || l.InOp? || l.WNote? || l.WDone? || l.ETest?
  }

  /** Between the two locked sections of the end_op that commits. */
  predicate Commits(l: Local) {
    l.ECommit? || l.Committing? || l.EClear?
  }

  function Count(local: seq<Local>, f: Local -> bool): nat {
    if local == [] then 0 else Count(local[1..], f) + if f(local[0]) then 1 else 0
  }

  lemma {:induction false} CountUpdate(local: seq<Local>, f: Local -> bool, p: nat, l: Local)
    requires p < |local|
    ensures Count(local[p := l], f) == Count(local, f) - (if f(local[p]) then 1 else 0) + (if f(l) then 1 else 0)
  {
    if p == 0 {
      assert local[0 := l][1..] == local[1..];
    } else {
      CountUpdate(local[1..], f, p - 1, l);
      assert local[p := l][1..] == local[1..][p - 1 := l];
    }
  }

  lemma {:induction false} CountAtLeast(local: seq<Local>, f: Local -> bool, p: nat)
    requires p < |local| && f(local[p])
    ensures Count(local, f) >= 1
  {
    if p > 0 {
      CountAtLeast(local[1..], f, p - 1);
    }
  }

  /** log.outstanding is the number of processes in an operation, log.committing says whether somebody commits, and
      then that is one process and nobody is in an operation; an idle log is empty. */
  ghost predicate Exact(s: State<Local, Log, Channel>) {
    && s.data.outstanding == Count(s.local, Counted)
    && Count(s.local, Commits) == (if s.data.committing then 1 else 0)
    && (s.data.committing ==> s.data.outstanding == 0)
    && (s.data.outstanding == 0 && !s.data.committing ==> s.data.n == 0)
  }

  lemma EffectKeepsExact(s: State<Local, Log, Channel>, p: nat, l': Local, d': Log)
    requires Exact(s) && p < |s.local| && Effect(Code(), s.local[p], s.data, l', d')
    ensures Exact(s.(local := s.local[p := l'], data := d'))
  {
    CountUpdate(s.local, Counted, p, l');
    CountUpdate(s.local, Commits, p, l');
    if Counted(s.local[p]) {
      CountAtLeast(s.local, Counted, p);
    }
    if Commits(s.local[p]) {
      CountAtLeast(s.local, Commits, p);
    }
  }

  lemma StepKeepsExact(s: State<Local, Log, Channel>, e: Event<Local, Log>)
    requires Exact(s) && LocksOk(s) && ChannelsOk(Code(), s) && Enabled(Code(), s, e)
    ensures Exact(Do(Code(), s, e))
  {
    hide Do, Enabled, ChannelsOk, Effect, Exact;
    var s' := Do(Code(), s, e);
    StepHasEffect(Code(), s, e);
    EffectKeepsExact(s, e.p, s'.local[e.p], s'.data);
    SameLocals(s.(local := s.local[e.p := s'.local[e.p]], data := s'.data), s');
  }

  lemma SameLocals(s: State<Local, Log, Channel>, s': State<Local, Log, Channel>)
    requires Exact(s) && s'.local == s.local && s'.data == s.data
    ensures Exact(s')
  {
  }

  ghost predicate Start(s: State<Local, Log, Channel>) {
    Initial(Code(), s) && s.data == Log(0, false, 0) && forall p :: 0 <= p < |s.local| ==> s.local[p].Idle?
  }

  lemma {:induction false} NobodyCounted(local: seq<Local>)
    requires forall p :: 0 <= p < |local| ==> local[p].Idle?
    ensures Count(local, Counted) == 0 && Count(local, Commits) == 0
  {
    if local != [] {
      NobodyCounted(local[1..]);
    }
  }

  lemma {:induction false} RunKeepsExact(s: State<Local, Log, Channel>, es: seq<Event<Local, Log>>)
    requires Exact(s) && LocksOk(s) && ChannelsOk(Code(), s) && Possible(Code(), s, es)
    ensures Exact(After(Code(), s, es))
    decreases |es|
  {
    hide Exact, Do, Enabled, LocksOk, ChannelsOk;
    if es != [] {
      StepKeepsExact(s, es[0]);
      StepKeepsLocks(Code(), s, es[0]);
      RunKeepsExact(Do(Code(), s, es[0]), es[1..]);
    }
  }

  /** In every interleaving: log.outstanding counts the operations, one process at most commits, and nobody is in an
      operation meanwhile. */
  lemma CountersAreExact(s: State<Local, Log, Channel>, es: seq<Event<Local, Log>>)
    requires Start(s) && Possible(Code(), s, es)
    ensures Exact(After(Code(), s, es))
  {
    NobodyCounted(s.local);
    RunKeepsExact(s, es);
  }

  /** The test of begin_op is that of the protocol whose reservations are shown to fit the log, and each locked section
      has the protocol's effect on the counters. */
  predicate Shows(p: LogProtocol.Proto, d: Log) {
    d.outstanding == |p.ops| && d.committing == p.committing && d.n == |p.lh|
  }

  lemma FollowsBegin(p: LogProtocol.Proto, d: Log, pid: nat, size: nat, l': Local, d': Log)
    requires Shows(p, d) && LogProtocol.Inv(p) && pid !in p.waiting
    ensures Waits(Address, d) <==> LogProtocol.MustWait(p)
    ensures Acts(BTest, d, l', d') && !Waits(Address, d) ==>
              Shows(LogProtocol.Do(p, size, LogProtocol.Begin(pid)), d')
  {
    assert p.next !in p.ops;
    assert p.ops[p.next := 0].Keys == p.ops.Keys + {p.next};
  }

  lemma FollowsEnd(p: LogProtocol.Proto, d: Log, op: LogProtocol.OpId, size: nat, l': Local, d': Log)
    requires Shows(p, d) && LogProtocol.Inv(p) && op in p.ops - p.passed && Acts(ETest, d, l', d')
    ensures Shows(LogProtocol.Do(p, size, LogProtocol.End(op)), d')
  {
    assert (p.ops - {op}).Keys == p.ops.Keys - {op};
    assert !p.committing;
  }

  lemma FollowsAppend(p: LogProtocol.Proto, d: Log, op: LogProtocol.OpId, b: nat, size: nat)
    requires Shows(p, d) && op in p.ops && op in p.passed
    ensures var p' := LogProtocol.Do(p, size, LogProtocol.Append(op, b));
      Acts(WNote, d, WDone, if b in p.lh then d else d.(n := d.n + 1))
      && Shows(p', if b in p.lh then d else d.(n := d.n + 1))
  {
    assert p.ops[op := p.ops[op] + 1].Keys == p.ops.Keys;
  }
}
