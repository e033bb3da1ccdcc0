/** sleep and wakeup (v3/proc.c:418-474) around a spinlock, for any program that follows the rules of
    such code.  Processes interleave at every lock operation: sleep takes ptable.lock before it
    releases the caller's lock, marks the process and switches away; wakeup holds ptable.lock while
    it scans.  Acquiring a spinlock is one step that is possible while the lock is free. */
module Monitor {
  /** What code inside the lock does next. */
  datatype Intent<C> = Act | Sleep(chan: C) | Wake(chan: C) | Leave

  /** Code for one lock.  L is what a process keeps to itself (where it is in the code, its arguments), D
      is the data under the lock, C the channels. */
  datatype Program<!L, !D, !C> = Program(
    intent: (L, D) -> Intent<C>,
    act: (L, D, L, D) -> bool,        // the steps on the data
    next: L -> L,                     // where sleep, wakeup or the final release continues
    call: (L, L) -> bool,             // what a process may do outside the lock
    cond: (C, D) -> bool,             // what a process sleeping on a channel waits to see ended
    debt: L -> set<C>,                // channels that a process inside still has to wake
    here: (L, D) -> bool              // what a process inside knows at its place in the code
  )

  datatype Phase<C> =
    | Outside
    | Wanting                         // spins for the lock
    | Inside                          // has the lock
    | Dozing(c: C)                    // in sleep: has the lock, spins for ptable.lock
    | Dropping(c: C)                  // in sleep: has both
    | Marking(c: C)                   // in sleep: has ptable.lock only
    | Asleep(c: C)
    | Woken                           // runnable again
    | Calling(c: C)                   // in wakeup: has the lock, spins for ptable.lock
    | Scanning(c: C)                  // in wakeup: has both

  /** lk and table are the processes that hold the two locks, -1 if free. */
  datatype State<L, D, C> = State(phase: seq<Phase<C>>, local: seq<L>, data: D, lk: int, table: int)

  /** A step of process p; Call and Step also say what becomes of its local state and of the data. */
  datatype Event<L, D> =
    | Call(p: int, l: L)
    | Want(p: int)
    | Enter(p: int)
    | Step(p: int, l: L, d: D)
    | GoSleep(p: int)
    | SleepLocksTable(p: int)
    | SleepDropsLock(p: int)
    | SleepMarks(p: int)
    | Killed(p: int)                  // kill makes a sleeper runnable
    | Resume(p: int)                  // the scheduler runs p, which spins for its lock again
    | GoWake(p: int)
    | WakeLocksTable(p: int)
    | WakeScans(p: int)
    | Exit(p: int)

  predicate HasLock<C>(f: Phase<C>) {
    f.Inside? || f.Dozing? || f.Dropping? || f.Calling? || f.Scanning?
  }

  predicate HasTable<C>(f: Phase<C>) {
    f.Dropping? || f.Marking? || f.Scanning?
  }

  predicate Enabled<L, D, C>(g: Program<L, D, C>, s: State<L, D, C>, e: Event<L, D>)
    requires |s.local| == |s.phase|
  {
    && 0 <= e.p < |s.phase|
    && var f, l := s.phase[e.p], s.local[e.p];
       match e
       case Call(_, l') => f.Outside? && g.call(l, l')
       case Want(_) => f.Outside?
       case Enter(_) => f.Wanting? && s.lk == -1
       case Step(_, l', d') => f.Inside? && g.intent(l, s.data).Act? && g.act(l, s.data, l', d')
       case GoSleep(_) => f.Inside? && g.intent(l, s.data).Sleep?
       case SleepLocksTable(_) => f.Dozing? && s.table == -1
       case SleepDropsLock(_) => f.Dropping?
       case SleepMarks(_) => f.Marking?
       case Killed(_) => f.Asleep? && s.table == -1
       case Resume(_) => f.Woken? && s.table == -1
       case GoWake(_) => f.Inside? && g.intent(l, s.data).Wake?
       case WakeLocksTable(_) => f.Calling? && s.table == -1
       case WakeScans(_) => f.Scanning?
       case Exit(_) => f.Inside? && g.intent(l, s.data).Leave?
  }

  /** wakeup1: every process sleeping on c becomes runnable. */
  function WakeAll<C(==)>(phase: seq<Phase<C>>, c: C): (r: seq<Phase<C>>)
    ensures |r| == |phase|
    ensures forall q :: 0 <= q < |r| ==> r[q] == if phase[q] == Asleep(c) then Woken else phase[q]
  {
    seq(|phase|, q requires 0 <= q < |phase| => if phase[q] == Asleep(c) then Woken else phase[q])
  }

  function Do<L, D, C(==)>(g: Program<L, D, C>, s: State<L, D, C>, e: Event<L, D>): (s': State<L, D, C>)
    requires |s.local| == |s.phase| && Enabled(g, s, e)
    ensures |s'.local| == |s'.phase| == |s.phase|
  {
    var p := e.p;
    var f, l := s.phase[p], s.local[p];
    match e
    case Call(_, l') => s.(local := s.local[p := l'])
    case Want(_) => s.(phase := s.phase[p := Wanting])
    case Enter(_) => s.(phase := s.phase[p := Inside], lk := p)
    case Step(_, l', d') => s.(local := s.local[p := l'], data := d')
    case GoSleep(_) => s.(phase := s.phase[p := Dozing(g.intent(l, s.data).chan)], local := s.local[p := g.next(l)])
    case SleepLocksTable(_) => s.(phase := s.phase[p := Dropping(f.c)], table := p)
    case SleepDropsLock(_) => s.(phase := s.phase[p := Marking(f.c)], lk := -1)
    case SleepMarks(_) => s.(phase := s.phase[p := Asleep(f.c)], table := -1)
    case Killed(_) => s.(phase := s.phase[p := Woken])
    case Resume(_) => s.(phase := s.phase[p := Wanting])
    case GoWake(_) => s.(phase := s.phase[p := Calling(g.intent(l, s.data).chan)])
    case WakeLocksTable(_) => s.(phase := s.phase[p := Scanning(f.c)], table := p)
    case WakeScans(_) =>
      s.(phase := WakeAll(s.phase, f.c)[p := Inside], local := s.local[p := g.next(l)], table := -1)
    case Exit(_) => s.(phase := s.phase[p := Outside], local := s.local[p := g.next(l)], lk := -1)
  }

  /** A process that does not have the lock knows nothing about the data. */
  ghost predicate Anywhere<L, D(!new), C>(g: Program<L, D, C>, l: L) {
    forall d :: g.here(l, d)
  }

  /** Steps lead to places where what `here` claims is true. */
  ghost predicate Placed<L(!new), D(!new), C>(g: Program<L, D, C>, l: L, d: D) {
    match g.intent(l, d)
    case Act => forall l', d' :: g.act(l, d, l', d') ==> g.here(l', d')
    case Wake(_) => g.here(g.next(l), d)
    case _ => Anywhere(g, g.next(l))
  }

  /** The rules for a channel c: sleep on it only while its condition holds; a process that owes it a
      wakeup neither sleeps nor leaves, and another wakeup does not pay the debt. */
  predicate Careful<L, D, C(==)>(g: Program<L, D, C>, l: L, d: D, c: C) {
    match g.intent(l, d)
    case Act => true
    case Sleep(c') => (c' == c ==> g.cond(c, d)) && c !in g.debt(l)
    case Wake(c') => c' == c || (c in g.debt(l) ==> c in g.debt(g.next(l)))
    case Leave => c !in g.debt(l)
  }

  /** Whoever ends the condition of c owes c a wakeup, and a debt stays while the condition does not hold. */
  predicate Honest<L, D, C(==)>(g: Program<L, D, C>, l: L, d: D, l': L, d': D, c: C) {
    g.intent(l, d).Act? && g.act(l, d, l', d') && (c in g.debt(l) || g.cond(c, d)) ==>
      g.cond(c, d') || c in g.debt(l')
  }

  ghost predicate Sound<L(!new), D(!new), C(!new)>(g: Program<L, D, C>, kept: set<C>) {
    && (forall l, d :: g.here(l, d) ==> Placed(g, l, d))
    && (forall l, l' :: g.call(l, l') ==> Anywhere(g, l'))
    && (forall l, d, c :: c in kept && g.here(l, d) ==> Careful(g, l, d, c))
    && (forall l, d, l', d', c :: c in kept && g.here(l, d) ==> Honest(g, l, d, l', d', c))
  }

  // Invariants

  ghost predicate LocksOk<L, D, C>(s: State<L, D, C>) {
    && |s.local| == |s.phase| && -1 <= s.lk < |s.phase| && -1 <= s.table < |s.phase|
    && forall p :: 0 <= p < |s.phase| ==>
         (HasLock(s.phase[p]) <==> s.lk == p) && (HasTable(s.phase[p]) <==> s.table == p)
  }

  /** The process is asleep on c or will be. */
  predicate Sleeps<C(==)>(f: Phase<C>, c: C) {
    f == Dozing(c) || f == Dropping(c) || f == Marking(c) || f == Asleep(c)
  }

  /** The process that has the lock owes c a wakeup, and is not past it. */
  predicate Owed<L, D, C(==)>(g: Program<L, D, C>, s: State<L, D, C>, c: C) {
    && 0 <= s.lk < |s.phase| && |s.local| == |s.phase| && c in g.debt(s.local[s.lk])
    && (s.phase[s.lk].Inside? || s.phase[s.lk].Calling? || s.phase[s.lk].Scanning?)
  }

  ghost predicate Justified<L, D, C>(g: Program<L, D, C>, s: State<L, D, C>, c: C, p: int) {
    0 <= p < |s.phase| && Sleeps(s.phase[p], c) ==> g.cond(c, s.data) || Owed(g, s, c)
  }

  ghost predicate Initial<L, D(!new), C>(g: Program<L, D, C>, s: State<L, D, C>) {
    && |s.local| == |s.phase| && s.lk == -1 && s.table == -1
    && forall p :: 0 <= p < |s.phase| ==> s.phase[p].Outside? && Anywhere(g, s.local[p])
  }

  /** A phase in wakeup carries the channel that its code named. */
  ghost predicate ChannelsOk<L, D, C>(g: Program<L, D, C>, s: State<L, D, C>) {
    |s.local| == |s.phase| && forall p :: 0 <= p < |s.phase| && (s.phase[p].Calling? || s.phase[p].Scanning?) ==>
      g.intent(s.local[p], s.data) == Wake(s.phase[p].c)
  }

  /** What `here` claims is true of the process inside, and nothing is claimed for the others. */
  ghost predicate HereOk<L, D(!new), C>(g: Program<L, D, C>, s: State<L, D, C>, p: int) {
    0 <= p < |s.phase| && |s.local| == |s.phase| ==>
      if s.phase[p].Inside? || s.phase[p].Calling? || s.phase[p].Scanning? then g.here(s.local[p], s.data)
      else Anywhere(g, s.local[p])
  }

  lemma StepKeepsHere<L(!new), D(!new), C(!new)>(g: Program<L, D, C>, kept: set<C>, s: State<L, D, C>, e: Event<L, D>,
                                                 p: int)
    requires Sound(g, kept) && LocksOk(s) && ChannelsOk(g, s) && Enabled(g, s, e) && HereOk(g, s, p)
    ensures HereOk(g, Do(g, s, e), p)
  {
    if p == e.p && (s.phase[p].Inside? || s.phase[p].Scanning?) {
      assert Placed(g, s.local[p], s.data);
    }
  }

  lemma StepKeepsLocks<L, D, C>(g: Program<L, D, C>, s: State<L, D, C>, e: Event<L, D>)
    requires LocksOk(s) && ChannelsOk(g, s) && Enabled(g, s, e)
    ensures LocksOk(Do(g, s, e)) && ChannelsOk(g, Do(g, s, e))
  {
  }

  ghost predicate Inv<L, D(!new), C(!new)>(g: Program<L, D, C>, kept: set<C>, s: State<L, D, C>) {
    && LocksOk(s) && ChannelsOk(g, s) && (forall p :: HereOk(g, s, p))
    && forall c, p :: c in kept ==> Justified(g, s, c, p)
  }

  lemma StepKeepsJustified<L(!new), D(!new), C(!new)>(g: Program<L, D, C>, kept: set<C>, s: State<L, D, C>,
                                                      e: Event<L, D>, c: C, p: int)
    requires Sound(g, kept) && LocksOk(s) && ChannelsOk(g, s) && Enabled(g, s, e) && c in kept
    requires Justified(g, s, c, p) && HereOk(g, s, e.p)
    ensures Justified(g, Do(g, s, e), c, p)
  {
    assert g.here(s.local[e.p], s.data) ==> Careful(g, s.local[e.p], s.data, c);
    if e.Step? {
      assert Honest(g, s.local[e.p], s.data, e.l, e.d, c);
    }
  }

  lemma StepKeepsInv<L(!new), D(!new), C(!new)>(g: Program<L, D, C>, kept: set<C>, s: State<L, D, C>, e: Event<L, D>)
    requires Sound(g, kept) && Inv(g, kept, s) && Enabled(g, s, e)
    ensures Inv(g, kept, Do(g, s, e))
  {
    hide Do, Enabled, Sound, Justified, HereOk;
    StepKeepsLocks(g, s, e);
    forall p ensures HereOk(g, Do(g, s, e), p) {
      StepKeepsHere(g, kept, s, e, p);
    }
    forall c, p | c in kept ensures Justified(g, Do(g, s, e), c, p) {
      StepKeepsJustified(g, kept, s, e, c, p);
    }
  }

  // Runs

  /** Every event is enabled in the state that the ones before it lead to. */
  ghost predicate Possible<L, D, C>(g: Program<L, D, C>, s: State<L, D, C>, es: seq<Event<L, D>>)
    decreases |es|
  {
    |s.local| == |s.phase| && (es != [] ==> Enabled(g, s, es[0]) && Possible(g, Do(g, s, es[0]), es[1..]))
  }

  ghost function After<L, D, C>(g: Program<L, D, C>, s: State<L, D, C>, es: seq<Event<L, D>>): State<L, D, C>
    requires Possible(g, s, es)
    decreases |es|
  {
    if es == [] then s else After(g, Do(g, s, es[0]), es[1..])
  }

  /** One more event at the end of a run. */
  lemma {:induction false} Extend<L, D, C>(g: Program<L, D, C>, s: State<L, D, C>, es: seq<Event<L, D>>, e: Event<L, D>)
    requires Possible(g, s, es) && |After(g, s, es).local| == |After(g, s, es).phase| && Enabled(g, After(g, s, es), e)
    ensures Possible(g, s, es + [e]) && After(g, s, es + [e]) == Do(g, After(g, s, es), e)
    decreases |es|
  {
    hide Enabled, Do;
    if es == [] {
      assert es + [e] == [e] && [e][1..] == [];
    } else {
      assert (es + [e])[0] == es[0] && (es + [e])[1..] == es[1..] + [e];
      Extend(g, Do(g, s, es[0]), es[1..], e);
    }
  }

  lemma {:induction false} RunKeepsInv<L(!new), D(!new), C(!new)>(g: Program<L, D, C>, kept: set<C>, s: State<L, D, C>,
        es: seq<Event<L, D>>)
    requires Sound(g, kept) && Inv(g, kept, s) && Possible(g, s, es)
    ensures Inv(g, kept, After(g, s, es))
    decreases |es|
  {
    if es != [] {
      StepKeepsInv(g, kept, s, es[0]);
      RunKeepsInv(g, kept, Do(g, s, es[0]), es[1..]);
    }
  }

  /** No lost wakeup: in every state that any interleaving reaches, while the lock is free, whoever
      sleeps on a kept channel still has its reason to. */
  lemma NoLostWakeup<L(!new), D(!new), C(!new)>(g: Program<L, D, C>, kept: set<C>, s: State<L, D, C>,
                                                es: seq<Event<L, D>>)
    requires Sound(g, kept) && Initial(g, s) && Possible(g, s, es)
    ensures var r := After(g, s, es);
            r.lk == -1 ==>
              forall p, c :: 0 <= p < |r.phase| && r.phase[p] == Asleep(c) && c in kept ==> g.cond(c, r.data)
  {
    RunKeepsInv(g, kept, s, es);
    var r := After(g, s, es);
    if r.lk == -1 {
      forall p, c | 0 <= p < |r.phase| && r.phase[p] == Asleep(c) && c in kept ensures g.cond(c, r.data) {
        assert Justified(g, r, c, p);
      }
    }
  }

  /** The lock does its job: two processes are never inside together. */
  lemma OneInside<L(!new), D(!new), C(!new)>(g: Program<L, D, C>, s: State<L, D, C>, es: seq<Event<L, D>>, p: int,
                                             q: int)
    requires Sound(g, {}) && Initial(g, s) && Possible(g, s, es)
    requires 0 <= p < |After(g, s, es).phase| && 0 <= q < |After(g, s, es).phase|
    ensures HasLock(After(g, s, es).phase[p]) && HasLock(After(g, s, es).phase[q]) ==> p == q
  {
    RunKeepsInv(g, {}, s, es);
  }

  /** What a step can do to the local state of its process and to the data. */
  predicate Effect<L(==), D(==), C>(g: Program<L, D, C>, l: L, d: D, l': L, d': D) {
    || (g.intent(l, d).Act? && g.act(l, d, l', d'))
    || (d' == d && (l' == l || g.call(l, l') || (l' == g.next(l) && !g.intent(l, d).Act?)))
  }

  lemma StepHasEffect<L, D, C>(g: Program<L, D, C>, s: State<L, D, C>, e: Event<L, D>)
    requires |s.local| == |s.phase| && ChannelsOk(g, s) && Enabled(g, s, e)
    ensures 0 <= e.p < |s.local|
    ensures var s' := Do(g, s, e);
            s'.local == s.local[e.p := s'.local[e.p]] && Effect(g, s.local[e.p], s.data, s'.local[e.p], s'.data)
  {
  }

  /** What every step on the data keeps holds throughout. */
  lemma {:induction false} RunKeepsData<L(!new), D(!new), C>(
      g: Program<L, D, C>, good: D -> bool, s: State<L, D, C>, es: seq<Event<L, D>>)
    requires forall l, d, l', d' :: good(d) && g.act(l, d, l', d') ==> good(d')
    requires good(s.data) && Possible(g, s, es)
    ensures good(After(g, s, es).data)
    decreases |es|
  {
    if es != [] {
      RunKeepsData(g, good, Do(g, s, es[0]), es[1..]);
    }
  }

  /** The same for what a step keeps because of what its process knows. */
  lemma {:induction false} RunKeepsKnown<L(!new), D(!new), C(!new)>(
      g: Program<L, D, C>, good: D -> bool, s: State<L, D, C>, es: seq<Event<L, D>>)
    requires Sound(g, {}) && Inv(g, {}, s) && good(s.data) && Possible(g, s, es)
    requires forall l, d, l', d' :: good(d) && g.here(l, d) && g.act(l, d, l', d') ==> good(d')
    ensures good(After(g, s, es).data)
    decreases |es|
  {
    hide Sound, LocksOk, ChannelsOk, Justified;
    if es != [] {
      StepKeepsInv(g, {}, s, es[0]);
      assert HereOk(g, s, es[0].p);
      RunKeepsKnown(g, good, Do(g, s, es[0]), es[1..]);
    }
  }
}
