/** Sleep-locks (v3/sleeplock.c) as code under their inner spinlock. */
module SleepLock {
  import opened Monitor

  /** Where a process is in acquiresleep or releasesleep, or between the two. */
  datatype Where = Idle | Testing | Taken | Holding | Clearing | Waking | Released

  datatype Local = Local(pid: int, at: Where)

  datatype Lock = Lock(locked: bool, pid: int)

  /** The one channel: the address of the lock. */
  datatype Channel = Address

  function Intends(l: Local, d: Lock): Intent<Channel> {
    match l.at
    case Testing => if d.locked then Sleep(Address) else Act
    case Clearing => Act
    case Waking => Wake(Address)
    case _ => Leave
  }

  predicate Acts(l: Local, d: Lock, l': Local, d': Lock) {
    || (l.at.Testing? && !d.locked && l' == l.(at := Taken) && d' == Lock(true, l.pid))
    || (l.at.Clearing? && l' == l.(at := Waking) && d' == Lock(false, 0))
  }

  function Continues(l: Local): Local {
    match l.at
    case Taken => l.(at := Holding)
    case Waking => l.(at := Released)
    case Released => l.(at := Idle)
    case _ => l
  }

  /** acquiresleep may be called by a process that does not have the lock, releasesleep by the one that does. */
  predicate Calls(l: Local, l': Local) {
    (l.at.Idle? && l' == l.(at := Testing)) || (l.at.Holding? && l' == l.(at := Clearing))
  }

  /** Why a process sleeps on the lock. */
  predicate Waits(c: Channel, d: Lock) {
    d.locked
  }

  function Owes(l: Local): set<Channel> {
    if l.at.Waking? then {Address} else {}
  }

  function Code(): Program<Local, Lock, Channel> {
    Program(Intends, Acts, Continues, Calls, Waits, Owes, (l, d) => true)
  }

  lemma CodeIsSound()
    ensures Sound(Code(), {Address})
  {
    var g := Code();
    forall l, d, c ensures Careful(g, l, d, c) {
    }
    forall l, d, l', d', c ensures Honest(g, l, d, l', d', c) {
      assert g.act(l, d, l', d') == Acts(l, d, l', d') && c == Address;
      assert g.debt(l) == Owes(l) && g.debt(l') == Owes(l');
    }
  }

  /** Between the assignment in acquiresleep and the one in releasesleep. */
  predicate Owner(l: Local) {
    l.at.Taken? || l.at.Holding? || l.at.Clearing?
  }

  ghost predicate OneOwner(local: seq<Local>, d: Lock) {
    && (forall p, q :: 0 <= p < |local| && 0 <= q < |local| && Owner(local[p]) && Owner(local[q]) ==> p == q)
    && (d.locked ==> exists p :: 0 <= p < |local| && Owner(local[p]))
    && (forall p :: 0 <= p < |local| && Owner(local[p]) ==> d == Lock(true, local[p].pid))
  }

  ghost predicate Exclusive(s: State<Local, Lock, Channel>) {
    |s.local| == |s.phase| && OneOwner(s.local, s.data)
  }

  /** A step leaves lock and ownership alone, takes the free lock, or gives up the held one. */
  predicate Passes(l: Local, d: Lock, l': Local, d': Lock) {
    && l'.pid == l.pid
    && (|| (d' == d && (Owner(l') <==> Owner(l)))
        || (!d.locked && d' == Lock(true, l.pid) && Owner(l'))
        || (Owner(l) && d' == Lock(false, 0) && !Owner(l')))
  }

  lemma EffectPasses(l: Local, d: Lock, l': Local, d': Lock)
    requires Effect(Code(), l, d, l', d')
    ensures Passes(l, d, l', d')
  {
  }

  lemma PassKeepsOneOwner(local: seq<Local>, d: Lock, p: int, l': Local, d': Lock)
    requires OneOwner(local, d) && 0 <= p < |local| && Passes(local[p], d, l', d')
    ensures OneOwner(local[p := l'], d')
  {
    hide Owner;
    var local' := local[p := l'];
    if d'.locked {
      if d.locked {
        var q :| 0 <= q < |local| && Owner(local[q]);
        assert Owner(local'[q]);
      } else {
        assert Owner(local'[p]);
      }
    }
  }

  lemma StepKeepsExclusive(s: State<Local, Lock, Channel>, e: Event<Local, Lock>)
    requires Exclusive(s) && LocksOk(s) && ChannelsOk(Code(), s) && Enabled(Code(), s, e)
    ensures Exclusive(Do(Code(), s, e))
  {
    hide Do, Enabled, LocksOk, ChannelsOk, Code, Effect, OneOwner;
    var s' := Do(Code(), s, e);
    StepHasEffect(Code(), s, e);
    EffectPasses(s.local[e.p], s.data, s'.local[e.p], s'.data);
    PassKeepsOneOwner(s.local, s.data, e.p, s'.local[e.p], s'.data);
  }

  lemma {:induction false} RunKeepsExclusive(s: State<Local, Lock, Channel>, es: seq<Event<Local, Lock>>)
    requires Exclusive(s) && LocksOk(s) && ChannelsOk(Code(), s) && Possible(Code(), s, es)
    ensures Exclusive(After(Code(), s, es))
    decreases |es|
  {
    if es != [] {
      StepKeepsExclusive(s, es[0]);
      StepKeepsLocks(Code(), s, es[0]);
      RunKeepsExclusive(Do(Code(), s, es[0]), es[1..]);
    }
  }

  ghost predicate Start(s: State<Local, Lock, Channel>) {
    Initial(Code(), s) && s.data == Lock(false, 0) && forall p :: 0 <= p < |s.local| ==> s.local[p].at.Idle?
  }

  /** In every interleaving at most one process is between acquiresleep and releasesleep, and while the
      inner lock is free nobody sleeps on a lock that is not held. */
  lemma SleepLockIsSafe(s: State<Local, Lock, Channel>, es: seq<Event<Local, Lock>>)
    requires Start(s) && Possible(Code(), s, es)
    ensures var r := After(Code(), s, es);
            && Exclusive(r)
            && (r.lk == -1 ==> forall p :: 0 <= p < |r.phase| && r.phase[p] == Asleep(Address) ==> r.data.locked)
  {
    CodeIsSound();
    RunKeepsExclusive(s, es);
    NoLostWakeup(Code(), {Address}, s, es);
  }

  /** What holdingsleep computes. */
  predicate HoldingSleep(d: Lock, pid: int) {
    d.locked && d.pid == pid
  }

  /** With distinct process numbers, holdingsleep is true of exactly the process that has the lock. */
  lemma HoldingSleepIsRight(s: State<Local, Lock, Channel>, es: seq<Event<Local, Lock>>, p: int)
    requires Start(s) && Possible(Code(), s, es) && 0 <= p < |s.local|
    requires forall i, j :: 0 <= i < j < |s.local| ==> s.local[i].pid != s.local[j].pid
    ensures var r := After(Code(), s, es);
            |r.local| == |s.local| && (HoldingSleep(r.data, r.local[p].pid) <==> Owner(r.local[p]))
  {
    RunKeepsExclusive(s, es);
    PidsStay(s, es);
    var r := After(Code(), s, es);
    if HoldingSleep(r.data, r.local[p].pid) {
      var q :| 0 <= q < |r.local| && Owner(r.local[q]);
      assert r.local[q].pid == r.local[p].pid;
    }
  }

  lemma {:induction false} PidsStay(s: State<Local, Lock, Channel>, es: seq<Event<Local, Lock>>)
    requires Possible(Code(), s, es)
    ensures var r := After(Code(), s, es);
            |r.local| == |s.local| && forall p :: 0 <= p < |s.local| ==> r.local[p].pid == s.local[p].pid
    decreases |es|
  {
    if es != [] {
      PidsStay(Do(Code(), s, es[0]), es[1..]);
    }
  }
}
