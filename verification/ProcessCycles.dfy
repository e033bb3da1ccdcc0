/** What a process goes through (v3/proc.c), as whole turns: giving up the CPU and getting it back, sleeping and being
    woken, forking, and exiting and being waited for.  Each turn leaves the table as it was but for what it is for. */
module ProcessCycles {
  import opened ExitWait

  lemma Run1(t: Table, e: Event)
    requires Enabled(t, e)
    ensures Possible(t, [e]) && After(t, [e]) == Do(t, e)
  {
    hide Do, Enabled;
    assert Possible(Do(t, e), []) && After(Do(t, e), []) == Do(t, e);
    Then(t, e, []);
    assert [e] + [] == [e];
  }

  lemma Run2(t: Table, a: Event, b: Event)
    requires Enabled(t, a) && Enabled(Do(t, a), b)
    ensures Possible(t, [a, b]) && After(t, [a, b]) == Do(Do(t, a), b)
  {
    hide Do, Enabled;
    Run1(Do(t, a), b);
    Then(t, a, [b]);
    assert [a] + [b] == [a, b];
  }

  lemma Join(t: Table, es: seq<Event>, fs: seq<Event>)
    requires Possible(t, es) && Possible(After(t, es), fs)
    ensures Possible(t, es + fs) && After(t, es + fs) == After(After(t, es), fs)
    decreases |es|
  {
    hide Do, Enabled;
    if es == [] {
      assert es + fs == fs;
    } else {
      assert (es + fs)[1..] == es[1..] + fs;
      Join(Do(t, es[0]), es[1..], fs);
    }
  }

  /** The scheduler on CPU c, holding the lock, runs process p, which releases the lock. */
  lemma PickAndRelease(t: Table, c: int, p: int)
    requires Enabled(t, SchedPick(c, p)) && t.procs[p].resume.Back?
    ensures Possible(t, [SchedPick(c, p), Release(c)])
    ensures After(t, [SchedPick(c, p), Release(c)]) ==
            t.(on := t.on[c := p], lock := -1, procs := t.procs[p := t.procs[p].(state := Running, chan := -1)])
  {
    hide HasChild, Possible, After;
    Run2(t, SchedPick(c, p), Release(c));
  }

  lemma YieldAndSwitch(t: Table, c: int)
    requires Shape(t) && Enabled(t, Yield(c))
    ensures Possible(t, [Yield(c), Switch(c)])
    ensures After(t, [Yield(c), Switch(c)]) ==
            t.(lock := c, on := t.on[c := -1],
               procs := t.procs[t.on[c] := t.procs[t.on[c]].(state := Runnable, resume := Back)])
  {
    hide HasChild, Possible, After;
    Run2(t, Yield(c), Switch(c));
  }

  /** A process that yields can be run again at once, and then everything is as before. */
  lemma YieldAndBack(t: Table, c: int)
    requires Shape(t) && Enabled(t, Yield(c))
    ensures var p := t.on[c];
      var es := [Yield(c), Switch(c)] + [SchedPick(c, p), Release(c)];
      && Possible(t, es)
      && After(t, es) == t.(procs := t.procs[p := t.procs[p].(chan := -1, resume := Back)])
  {
    hide Do, Possible, After;
    var p := t.on[c];
    YieldAndSwitch(t, c);
    var r := After(t, [Yield(c), Switch(c)]);
    PickAndRelease(r, c, p);
    Join(t, [Yield(c), Switch(c)], [SchedPick(c, p), Release(c)]);
    assert r.on[c := p] == t.on;
    assert r.procs[p := r.procs[p].(state := Running, chan := -1)] ==
           t.procs[p := t.procs[p].(chan := -1, resume := Back)];
  }

  lemma SleepAndSwitch(t: Table, c: int, chan: int)
    requires Shape(t) && Enabled(t, Sleep(c, chan))
    ensures Possible(t, [Sleep(c, chan), Switch(c)])
    ensures After(t, [Sleep(c, chan), Switch(c)]) ==
            t.(lock := c, on := t.on[c := -1],
               procs := t.procs[t.on[c] := t.procs[t.on[c]].(state := Sleeping, chan := chan, resume := Back)])
  {
    hide HasChild, Possible, After;
    Run2(t, Sleep(c, chan), Switch(c));
  }

  /** The idle CPU c lets go of the lock, a wakeup comes, and it takes the lock again. */
  lemma WakeMeanwhile(t: Table, c: int, chan: int)
    requires Enabled(t, SchedUnlock(c))
    ensures var es := [SchedUnlock(c), Wakeup(c, chan)] + [SchedLock(c)];
      Possible(t, es) && After(t, es) == t.(procs := WakeAll(t.procs, chan))
  {
    hide HasChild, Possible, After;
    Run2(t, SchedUnlock(c), Wakeup(c, chan));
    Run1(After(t, [SchedUnlock(c), Wakeup(c, chan)]), SchedLock(c));
    Join(t, [SchedUnlock(c), Wakeup(c, chan)], [SchedLock(c)]);
  }

  /** A process that sleeps on a channel runs again after a wakeup of that channel, and nothing else has changed but
      that others who slept there have been woken too. */
  lemma SleepAndBack(t: Table, c: int, chan: int)
    requires Shape(t) && Enabled(t, Sleep(c, chan))
    ensures var p := t.on[c];
      var es := [Sleep(c, chan), Switch(c)] +
                (([SchedUnlock(c), Wakeup(c, chan)] + [SchedLock(c)]) + [SchedPick(c, p), Release(c)]);
      && Possible(t, es)
      && After(t, es) == t.(procs := WakeAll(t.procs, chan)[p := t.procs[p].(chan := -1, resume := Back)])
  {
    hide Do, Possible, After;
    var p := t.on[c];
    var down := [Sleep(c, chan), Switch(c)];
    var wake := [SchedUnlock(c), Wakeup(c, chan)] + [SchedLock(c)];
    var up := [SchedPick(c, p), Release(c)];
    SleepAndSwitch(t, c, chan);
    var r1 := After(t, down);
    WakeMeanwhile(r1, c, chan);
    var r2 := After(r1, wake);
    PickAndRelease(r2, c, p);
    Join(r1, wake, up);
    Join(t, down, wake + up);
    assert r2.on[c := p] == t.on;
    WokenBack(t, r2, p, chan);
  }

  lemma WokenBack(t: Table, r: Table, p: int, chan: int)
    requires 0 <= p < |t.procs| && t.procs[p].state.Running?
    requires r.procs == WakeAll(t.procs[p := t.procs[p].(state := Sleeping, chan := chan, resume := Back)], chan)
    ensures r.procs[p := r.procs[p].(state := Running, chan := -1)] ==
            WakeAll(t.procs, chan)[p := t.procs[p].(chan := -1, resume := Back)]
  {
  }

  /** The table once allocproc has taken slot q for the process on CPU c. */
  function Allocated(t: Table, c: int, q: int): Table
    requires Enabled(t, Alloc(c, q))
  {
    var p := t.on[c];
    t.(nextpid := t.nextpid + 1,
       procs := t.procs[p := t.procs[p].(making := q)][q := t.procs[q].(state := Embryo, pid := t.nextpid)])
  }

  lemma Allocates(t: Table, c: int, q: int, ok: bool)
    requires Memory(t) && Enabled(t, Alloc(c, q))
    ensures Do(t, Alloc(c, q)) == Allocated(t, c, q) && Enabled(Allocated(t, c, q), Build(c, ok))
    ensures t.on[c] != q
  {
    hide HasChild;
    assert MemoryOf(t.procs[q]);
  }

  /** fork: the child can run, belongs to the caller and has a new pid; its memory is there; the caller and all others
      are as before. */
  lemma ForkMakesChild(t: Table, c: int, q: int)
    requires Memory(t) && Enabled(t, Alloc(c, q))
    ensures var es := [Alloc(c, q), Build(c, true)] + [Ready(c)];
      && Possible(t, es)
      && After(t, es) == t.(nextpid := t.nextpid + 1,
           procs := t.procs[q := t.procs[q].(state := Runnable, pid := t.nextpid, memory := true, parent := t.on[c],
                                             resume := Back)])
  {
    hide HasChild, Possible, After;
    var p := t.on[c];
    Allocates(t, c, q, true);
    Run2(t, Alloc(c, q), Build(c, true));
    var r := After(t, [Alloc(c, q), Build(c, true)]);
    Run1(r, Ready(c));
    Join(t, [Alloc(c, q), Build(c, true)], [Ready(c)]);
    assert t.procs[p].(making := -1) == t.procs[p];
  }

  /** A fork that gets no memory leaves the slot free, with the pid it had been given. */
  lemma ForkGivesUp(t: Table, c: int, q: int)
    requires Memory(t) && Enabled(t, Alloc(c, q))
    ensures var es := [Alloc(c, q), Build(c, false)];
      && Possible(t, es)
      && After(t, es) == t.(nextpid := t.nextpid + 1, procs := t.procs[q := t.procs[q].(pid := t.nextpid)])
  {
    hide HasChild, Possible, After;
    var p := t.on[c];
    Allocates(t, c, q, false);
    Run2(t, Alloc(c, q), Build(c, false));
    assert t.procs[p].(making := -1) == t.procs[p];
    assert t.procs[q].(state := Unused) == t.procs[q];
  }

  /** What exit and the switch away from the stack leave, seen by the parent on CPU d. */
  ghost predicate Exited(t: Table, r: Table, c: int, d: int)
    requires 0 <= c < |t.on| && 0 <= t.on[c] < |t.procs| && 0 <= d < |t.on|
  {
    var p := t.on[c];
    && |r.procs| == |t.procs| && r.on == t.on[c := -1] && r.lock == c && InRange(t, d)
    && r.exited == t.exited + {t.procs[p].pid} && r.reaped == t.reaped
    && r.procs[p].state.Zombie? && r.procs[p].pid == t.procs[p].pid && r.procs[p].parent == t.on[d] && p != t.on[d]
    && r.procs[t.on[d]].state.Running? && r.procs[t.on[d]].making == -1
    && forall q :: 0 <= q < |t.procs| && q != p ==>
         r.procs[q].parent == if t.procs[q].parent == p then INIT else t.procs[q].parent
  }

  predicate InRange(t: Table, d: int) {
    0 <= d < |t.on| && 0 <= t.on[d] < |t.procs|
  }

  lemma Exits(t: Table, c: int, d: int)
    requires Inv(t) && Enabled(t, Exit(c)) && 0 <= d < |t.on| && d != c
    requires t.on[d] == t.procs[t.on[c]].parent && CanLock(t, d) && t.procs[t.on[d]].making == -1
    ensures Possible(t, [Exit(c), Switch(c)]) && Exited(t, After(t, [Exit(c), Switch(c)]), c, d)
  {
    hide Makers, Memory, Waiters, Pids, OnSome, Apart, CpuOk, HasChild, Orphan, Possible, After;
    assert ParentOf(t, t.on[c]);
    Run2(t, Exit(c), Switch(c));
  }

  lemma Reaps(t: Table, r: Table, c: int, d: int)
    requires 0 <= c < |t.on| && 0 <= t.on[c] < |t.procs| && 0 <= d < |t.on| && d != c && Exited(t, r, c, d)
    ensures var p := t.on[c];
      && Possible(r, [SchedUnlock(c), Reap(d, p)])
      && var z := After(r, [SchedUnlock(c), Reap(d, p)]);
         && |z.procs| == |t.procs| && z.on == t.on[c := -1] && z.lock == -1
         && z.procs[p] == r.procs[p].(state := Unused, parent := -1, pid := 0, killed := false, memory := false)
         && z.exited == r.exited && z.reaped == r.reaped + multiset{t.procs[p].pid}
         && forall q :: 0 <= q < |t.procs| && q != p ==> z.procs[q].parent == r.procs[q].parent
  {
    hide HasChild, Possible, After;
    Run2(r, SchedUnlock(c), Reap(d, t.on[c]));
  }

  /** exit and then wait by the parent, running on CPU d: the slot is free, nothing of the process is left but its pid
      on record, and its children belong to init. */
  lemma ExitAndReap(t: Table, c: int, d: int)
    requires Inv(t) && Enabled(t, Exit(c)) && 0 <= d < |t.on| && d != c
    requires t.on[d] == t.procs[t.on[c]].parent && CanLock(t, d) && t.procs[t.on[d]].making == -1
    ensures var p := t.on[c];
      var es := [Exit(c), Switch(c)] + [SchedUnlock(c), Reap(d, p)];
      && Possible(t, es)
      && var r := After(t, es);
         && |r.procs| == |t.procs| && r.on == t.on[c := -1] && r.lock == -1
         && r.procs[p].state.Unused? && r.procs[p].pid == 0 && r.procs[p].parent == -1 && !r.procs[p].killed
         && !r.procs[p].memory
         && r.exited == t.exited + {t.procs[p].pid} && r.reaped == t.reaped + multiset{t.procs[p].pid}
         && forall q :: 0 <= q < |t.procs| && q != p ==>
              r.procs[q].parent == if t.procs[q].parent == p then INIT else t.procs[q].parent
  {
    hide Inv, Do, Possible, After;
    Exits(t, c, d);
    Reaps(t, After(t, [Exit(c), Switch(c)]), c, d);
    Join(t, [Exit(c), Switch(c)], [SchedUnlock(c), Reap(d, t.on[c])]);
  }
}
