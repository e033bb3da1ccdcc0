/** Processes (v3/proc.c): fork, exit, wait, sleep, kill and the scheduler, on any number of CPUs.  Code under
    ptable.lock is one step, except that a process which gives up its CPU marks itself in one step and
    switches to the scheduler, still under the lock, in another. */
module ExitWait {
  datatype PState = Unused | Embryo | Sleeping | Runnable | Running | Zombie

  /** Where a process continues when it is next switched to: in forkret or behind sched in yield or sleep, where
      it releases the lock, or in the loop of wait. */
  datatype Resume = Back | WaitLoop

  /** struct proc.  chan and parent are slots of the table, -1 for none; channels from |procs| on are other
      addresses.  memory: it has a kernel stack and a page table.  making: the embryo that it is building
      in fork, -1 for none. */
  datatype Proc = Proc(state: PState, chan: int, parent: int, pid: int, killed: bool, memory: bool, resume: Resume,
                       making: int)

  /** on[c] is the process on whose kernel stack CPU c runs, -1 for the scheduler's own; lock is the CPU that holds
      ptable.lock, -1 if it is free.  exited and reaped hold the pids that went through exit and wait. */
  datatype Table = Table(procs: seq<Proc>, on: seq<int>, lock: int, nextpid: int, exited: set<int>,
                         reaped: multiset<int>)

  /** Slot of initproc. */
  const INIT := 0

  datatype Event =
    | SchedLock(c: int)
    | SchedUnlock(c: int)
    | SchedPick(c: int, p: int)
    | Release(c: int)                 // a process that was switched to leaves yield, sleep or forkret
    | Switch(c: int)                  // sched: back to the scheduler's stack
    | Yield(c: int)
    | Sleep(c: int, chan: int)
    | Wakeup(c: int, chan: int)
    | Kill(c: int, pid: int)
    | Alloc(c: int, p: int)           // allocproc takes a slot
    | Build(c: int, ok: bool)         // fork gets memory for it, or gives it up
    | Ready(c: int)                   // fork lets the child run
    | Exit(c: int)
    | Reap(c: int, p: int)            // wait finds a zombie child
    | WaitFail(c: int)                // wait has no child to wait for, or the caller is killed
    | WaitSleep(c: int)

  /** Process p is in the table and can run again. */
  predicate Alive(t: Table, p: int) {
    0 <= p < |t.procs| && (t.procs[p].state.Sleeping? || t.procs[p].state.Runnable? || t.procs[p].state.Running?)
  }

  /** CPU c runs a process that does not have the lock and can take it. */
  predicate CanLock(t: Table, c: int) {
    0 <= c < |t.on| && 0 <= t.on[c] < |t.procs| && t.lock == -1 && t.procs[t.on[c]].state.Running?
  }

  /** CPU c is in the loop of wait: it has just called it, or it is back from its sleep with the lock. */
  predicate InWait(t: Table, c: int) {
    && 0 <= c < |t.on| && 0 <= t.on[c] < |t.procs|
    && var p := t.procs[t.on[c]];
       p.state.Running? && p.making == -1 && (t.lock == -1 || (t.lock == c && p.resume.WaitLoop?))
  }

  predicate HasChild(t: Table, p: int, zombie: bool) {
    exists q :: 0 <= q < |t.procs| && t.procs[q].parent == p && (zombie ==> t.procs[q].state.Zombie?)
  }

  predicate Enabled(t: Table, e: Event) {
    && 0 <= e.c < |t.on|
    && var p := t.on[e.c];
       match e
       case SchedLock(c) => p == -1 && t.lock == -1
       case SchedUnlock(c) => p == -1 && t.lock == c
       case SchedPick(c, q) => p == -1 && t.lock == c && 0 <= q < |t.procs| && t.procs[q].state.Runnable?
       case Release(c) => 0 <= p < |t.procs| && t.lock == c && t.procs[p].state.Running? && t.procs[p].resume.Back?
       case Switch(c) => 0 <= p < |t.procs| && t.lock == c && !t.procs[p].state.Running?
       case Yield(c) => CanLock(t, c)
       case Sleep(c, chan) => CanLock(t, c) && chan >= |t.procs| && t.procs[p].making == -1
       case Wakeup(_, _) => t.lock == -1
       case Kill(c, _) => CanLock(t, c)
       case Alloc(c, q) => CanLock(t, c) && t.procs[p].making == -1 && 0 <= q < |t.procs| && t.procs[q].state.Unused?
       case Build(c, _) => CanRun(t, c) && Making(t, p) && t.procs[t.procs[p].making].parent == -1
       case Ready(c) => CanLock(t, c) && Making(t, p) && t.procs[t.procs[p].making].parent == p
       case Exit(c) => CanLock(t, c) && t.procs[p].making == -1 && p != INIT
       case Reap(c, q) => InWait(t, c) && 0 <= q < |t.procs| && t.procs[q].parent == p && t.procs[q].state.Zombie?
       case WaitFail(c) => InWait(t, c) && !HasChild(t, p, true) && (!HasChild(t, p, false) || t.procs[p].killed)
       case WaitSleep(c) => InWait(t, c) && !HasChild(t, p, true) && HasChild(t, p, false) && !t.procs[p].killed
  }

  /** CPU c runs a process, whoever has the lock. */
  predicate CanRun(t: Table, c: int) {
    0 <= c < |t.on| && 0 <= t.on[c] < |t.procs| && t.lock != c && t.procs[t.on[c]].state.Running?
  }

  predicate Making(t: Table, p: int) {
    0 <= p < |t.procs| && 0 <= t.procs[p].making < |t.procs|
  }

  /** The slot that kill finds for a pid, in use or not; |procs| for none. */
  function FirstWith(procs: seq<Proc>, pid: int, k: nat): (q: nat)
    requires k <= |procs|
    ensures k <= q <= |procs| && (q < |procs| ==> procs[q].pid == pid)
    decreases |procs| - k
  {
    if k == |procs| || procs[k].pid == pid then k else FirstWith(procs, pid, k + 1)
  }

  function Killed(p: Proc): Proc {
    p.(killed := true, state := if p.state.Sleeping? then Runnable else p.state)
  }

  /** wakeup1. */
  function Woken(p: Proc, chan: int): Proc {
    if p.state.Sleeping? && p.chan == chan then p.(state := Runnable) else p
  }

  function WakeAll(procs: seq<Proc>, chan: int): (r: seq<Proc>)
    ensures |r| == |procs| && forall q :: 0 <= q < |r| ==> r[q] == Woken(procs[q], chan)
  {
    seq(|procs|, q requires 0 <= q < |procs| => Woken(procs[q], chan))
  }

  /** exit's loop over the children of p: they go to initproc, which is woken if one of them is a zombie. */
  function Reparent(procs: seq<Proc>, p: int): (r: seq<Proc>)
    ensures |r| == |procs| && forall q :: 0 <= q < |r| ==> r[q] == Adopted(procs[q], p, Orphan(procs, p))
  {
    var orphan := Orphan(procs, p);
    seq(|procs|, q requires 0 <= q < |procs| => Adopted(procs[q], p, orphan))
  }

  /** Some child of p is a zombie. */
  predicate Orphan(procs: seq<Proc>, p: int) {
    exists q :: 0 <= q < |procs| && procs[q].parent == p && procs[q].state.Zombie?
  }

  function Adopted(a: Proc, p: int, orphan: bool): Proc {
    var b := if a.parent == p then a.(parent := INIT) else a;
    if orphan then Woken(b, INIT) else b
  }

  function Do(t: Table, e: Event): (t': Table)
    requires Enabled(t, e)
    ensures |t'.procs| == |t.procs| && |t'.on| == |t.on|
  {
    var c := e.c;
    var p := t.on[c];
    match e
    case SchedLock(_) => t.(lock := c)
    case SchedUnlock(_) => t.(lock := -1)
    case SchedPick(_, q) => t.(on := t.on[c := q], procs := t.procs[q := t.procs[q].(state := Running)])
    case Release(_) => t.(lock := -1, procs := t.procs[p := t.procs[p].(chan := -1)])
    case Switch(_) => t.(on := t.on[c := -1])
    case Yield(_) => t.(lock := c, procs := t.procs[p := t.procs[p].(state := Runnable, resume := Back)])
    case Sleep(_, chan) =>
      t.(lock := c, procs := t.procs[p := t.procs[p].(state := Sleeping, chan := chan, resume := Back)])
    case Wakeup(_, chan) => t.(procs := WakeAll(t.procs, chan))
    case Kill(_, pid) =>
      var q := FirstWith(t.procs, pid, 0);
      if q == |t.procs| then t
      else t.(procs := t.procs[q := Killed(t.procs[q])])
    case Alloc(_, q) =>
      t.(nextpid := t.nextpid + 1,
         procs := t.procs[p := t.procs[p].(making := q)][q := t.procs[q].(state := Embryo, pid := t.nextpid)])
    case Build(_, ok) =>
      var q := t.procs[p].making;
      if ok then t.(procs := t.procs[q := t.procs[q].(memory := true, parent := p)])
      else t.(procs := t.procs[p := t.procs[p].(making := -1)][q := t.procs[q].(state := Unused)])
    case Ready(_) =>
      var q := t.procs[p].making;
      t.(procs := t.procs[p := t.procs[p].(making := -1)][q := t.procs[q].(state := Runnable, resume := Back)])
    case Exit(_) =>
      var procs := Reparent(WakeAll(t.procs, t.procs[p].parent), p);
      t.(lock := c, exited := t.exited + {t.procs[p].pid}, procs := procs[p := procs[p].(state := Zombie)])
    case Reap(_, q) =>
      var r := t.procs[q];
      t.(lock := -1, reaped := t.reaped + multiset{r.pid},
         procs := t.procs[p := t.procs[p].(chan := -1)]
                         [q := r.(state := Unused, parent := -1, pid := 0, killed := false, memory := false)])
    case WaitFail(_) => t.(lock := -1, procs := t.procs[p := t.procs[p].(chan := -1)])
    case WaitSleep(_) =>
      t.(lock := c, procs := t.procs[p := t.procs[p].(state := Sleeping, chan := p, resume := WaitLoop)])
  }

  // Invariants

  predicate InUse(p: Proc) {
    p.state.Sleeping? || p.state.Runnable? || p.state.Running? || p.state.Zombie?
  }

  ghost predicate Shape(t: Table) {
    && |t.procs| > 0 && -1 <= t.lock < |t.on| && forall c :: 0 <= c < |t.on| ==> -1 <= t.on[c] < |t.procs|
  }

  /** CPU c is on the stack of a process that runs, or that has, under the lock, still to switch away. */
  predicate CpuOk(t: Table, c: int) {
    0 <= c < |t.on| && 0 <= t.on[c] < |t.procs| ==>
      t.procs[t.on[c]].state.Running? || (t.lock == c && InUse(t.procs[t.on[c]]))
  }

  predicate Apart(on: seq<int>, c: int, d: int) {
    0 <= c < |on| && 0 <= d < |on| && on[c] == on[d] && on[c] >= 0 ==> c == d
  }

  ghost predicate OnSome(t: Table, p: int) {
    0 <= p < |t.procs| && t.procs[p].state.Running? ==> exists c :: 0 <= c < |t.on| && t.on[c] == p
  }

  /** No process is on two CPUs; a process is on one just while it runs, or, under the lock, until it has switched
      away. */
  ghost predicate Cpus(t: Table) {
    && Shape(t) && (forall c, d :: Apart(t.on, c, d)) && (forall c :: CpuOk(t, c)) && (forall p :: OnSome(t, p))
  }

  /** Stack and page table are there from before a process can run until it is reaped. */
  ghost predicate Memory(t: Table) {
    forall p :: 0 <= p < |t.procs| ==> MemoryOf(t.procs[p])
  }

  predicate MemoryOf(p: Proc) {
    && (InUse(p) ==> p.memory)
    && (p.state.Unused? ==> !p.memory && p.parent == -1)
    && (p.state.Embryo? ==> (p.memory <==> p.parent != -1))
  }

  /** What process p is building is an embryo, and p is alive. */
  predicate MakerOf(t: Table, p: int) {
    0 <= p < |t.procs| && t.procs[p].making != -1 ==>
      Alive(t, p) && 0 <= t.procs[p].making < |t.procs| && t.procs[t.procs[p].making].state.Embryo?
  }

  predicate NotBoth(t: Table, p: int, q: int) {
    0 <= p < |t.procs| && 0 <= q < |t.procs| && t.procs[p].making == t.procs[q].making && t.procs[p].making != -1 ==>
      p == q
  }

  /** The parent of a finished embryo is building it. */
  predicate EmbryoOf(t: Table, q: int) {
    0 <= q < |t.procs| && t.procs[q].state.Embryo? && t.procs[q].parent != -1 ==>
      0 <= t.procs[q].parent < |t.procs| && t.procs[t.procs[q].parent].making == q
  }

  /** An embryo is built by one process, which is alive. */
  ghost predicate Makers(t: Table) {
    (forall p :: MakerOf(t, p)) && (forall p, q :: NotBoth(t, p, q)) && (forall q :: EmbryoOf(t, q))
  }

  predicate ParentOf(t: Table, p: int) {
    0 <= p < |t.procs| && p != INIT && InUse(t.procs[p]) ==> Alive(t, t.procs[p].parent) && t.procs[p].parent != p
  }

  /** Every process but init, zombies included, has a parent that is alive. */
  ghost predicate Parents(t: Table) {
    Alive(t, INIT) && t.procs[INIT].parent == -1 && forall p :: ParentOf(t, p)
  }

  /** Process p sleeps in the loop of wait. */
  predicate AsleepInWait(t: Table, p: int) {
    0 <= p < |t.procs| && t.procs[p].state.Sleeping? && t.procs[p].resume.WaitLoop?
  }

  predicate WaiterOf(t: Table, p: int, q: int) {
    AsleepInWait(t, p) && 0 <= q < |t.procs| && t.procs[q].parent == p ==> !t.procs[q].state.Zombie?
  }

  /** It sleeps on its own slot, where exit of a child looks for it. */
  predicate OnOwnSlot(t: Table, p: int) {
    AsleepInWait(t, p) ==> t.procs[p].chan == p
  }

  /** A process asleep in wait has no zombie child. */
  ghost predicate Waiters(t: Table) {
    (forall p, q :: WaiterOf(t, p, q)) && (forall p :: OnOwnSlot(t, p))
  }

  /** Pids are new when they are given out; a zombie has exited and not been reaped. */
  predicate PidOf(t: Table, p: int) {
    0 <= p < |t.procs| && !t.procs[p].state.Unused? ==>
      && t.procs[p].pid < t.nextpid
      && (if t.procs[p].state.Zombie? then t.procs[p].pid in t.exited && t.procs[p].pid !in t.reaped
          else t.procs[p].pid !in t.exited)
  }

  predicate OnePid(t: Table, p: int, q: int) {
    0 <= p < |t.procs| && 0 <= q < |t.procs| && !t.procs[p].state.Unused? && !t.procs[q].state.Unused? ==>
      (t.procs[p].pid == t.procs[q].pid ==> p == q)
  }

  ghost predicate ZombieWith(t: Table, x: int) {
    exists p :: 0 <= p < |t.procs| && t.procs[p].state.Zombie? && t.procs[p].pid == x
  }

  /** A pid that exited is that of a zombie, or has been reaped once. */
  ghost predicate Accounted(t: Table, x: int) {
    && t.reaped[x] <= 1 && (x in t.reaped ==> x in t.exited) && (x in t.exited ==> x < t.nextpid)
    && (x in t.exited && x !in t.reaped ==> ZombieWith(t, x))
  }

  ghost predicate Pids(t: Table) {
    (forall p :: PidOf(t, p)) && (forall p, q :: OnePid(t, p, q)) && (forall x :: Accounted(t, x))
  }

  lemma StepKeepsShape(t: Table, e: Event)
    requires Shape(t) && Enabled(t, e)
    ensures Shape(Do(t, e))
  {
    hide HasChild;
  }

  lemma MakesEmbryo(t: Table, p: int)
    requires Makers(t) && Making(t, p)
    ensures t.procs[t.procs[p].making].state.Embryo? && Alive(t, p) && t.procs[p].making != p
  {
    assert MakerOf(t, p);
  }

  lemma StepKeepsCpuOk(t: Table, e: Event, c: int)
    requires Cpus(t) && Makers(t) && Enabled(t, e)
    ensures CpuOk(Do(t, e), c)
  {
    hide HasChild, OnSome, Makers;
    assert CpuOk(t, c) && CpuOk(t, e.c) && Apart(t.on, c, e.c);
    if e.Build? || e.Ready? {
      MakesEmbryo(t, t.on[e.c]);
    }
  }

  lemma StepKeepsApart(t: Table, e: Event, c: int, d: int)
    requires Cpus(t) && Enabled(t, e)
    ensures Apart(Do(t, e).on, c, d)
  {
    hide HasChild, OnSome, WakeAll, Reparent;
    assert Apart(t.on, c, d) && CpuOk(t, c) && CpuOk(t, d);
  }

  lemma StepKeepsOnSome(t: Table, e: Event, p: int)
    requires Cpus(t) && Enabled(t, e)
    ensures OnSome(Do(t, e), p)
  {
    hide HasChild, Apart, CpuOk;
    var t' := Do(t, e);
    if 0 <= p < |t.procs| && t'.procs[p].state.Running? {
      if t.procs[p].state.Running? {
        assert OnSome(t, p);
        var c :| 0 <= c < |t.on| && t.on[c] == p;
        assert t'.on[c] == p;
      } else {
        assert t'.on[e.c] == p;
      }
    }
  }

  lemma StepKeepsCpus(t: Table, e: Event)
    requires Cpus(t) && Makers(t) && Enabled(t, e)
    ensures Cpus(Do(t, e))
  {
    hide HasChild, Apart, CpuOk, OnSome, Do, Enabled, Makers, Shape;
    StepKeepsShape(t, e);
    forall c ensures CpuOk(Do(t, e), c) {
      StepKeepsCpuOk(t, e, c);
    }
    forall c, d ensures Apart(Do(t, e).on, c, d) {
      StepKeepsApart(t, e, c, d);
    }
    forall p ensures OnSome(Do(t, e), p) {
      StepKeepsOnSome(t, e, p);
    }
  }

  lemma StepKeepsMemoryOf(t: Table, e: Event, q: int)
    requires Shape(t) && Memory(t) && Makers(t) && Enabled(t, e) && 0 <= q < |t.procs|
    ensures MemoryOf(Do(t, e).procs[q])
  {
    hide HasChild, Makers;
    assert MemoryOf(t.procs[q]);
    if e.Build? || e.Ready? {
      MakesEmbryo(t, t.on[e.c]);
    }
  }

  lemma StepKeepsMemory(t: Table, e: Event)
    requires Shape(t) && Memory(t) && Makers(t) && Enabled(t, e)
    ensures Memory(Do(t, e))
  {
    hide HasChild, MemoryOf, Do, Enabled, Makers, Shape;
    forall q | 0 <= q < |t.procs| ensures MemoryOf(Do(t, e).procs[q]) {
      StepKeepsMemoryOf(t, e, q);
    }
  }

  /** Apart from the caller of exit, whoever is alive stays alive. */
  lemma StaysAlive(t: Table, e: Event, p: int)
    requires Shape(t) && Makers(t) && Enabled(t, e) && Alive(t, p) && !(e.Exit? && t.on[e.c] == p)
    ensures Alive(Do(t, e), p)
  {
    hide HasChild, Makers;
    if e.Build? || e.Ready? {
      MakesEmbryo(t, t.on[e.c]);
    }
  }

  lemma MakersGive(t: Table, p: int, q: int)
    requires Makers(t)
    ensures MakerOf(t, p) && NotBoth(t, p, q) && EmbryoOf(t, q)
  {
  }

  /** An embryo stays one until its maker is done with it. */
  lemma EmbryoStays(t: Table, e: Event, m: int)
    requires Enabled(t, e) && 0 <= m < |t.procs| && t.procs[m].state.Embryo?
    requires e.Ready? || (e.Build? && !e.ok) ==> m != t.procs[t.on[e.c]].making
    ensures Do(t, e).procs[m].state.Embryo?
  {
    hide HasChild;
  }

  lemma StepKeepsMakerOf(t: Table, e: Event, p: int)
    requires Shape(t) && Makers(t) && Enabled(t, e)
    ensures MakerOf(Do(t, e), p)
  {
    hide Makers, Do, Alive;
    MakersGive(t, p, t.on[e.c]);
    if 0 <= p < |t.procs| {
      MakingEffect(t, e, p);
    }
    if 0 <= p < |t.procs| && Do(t, e).procs[p].making != -1 {
      if e.Alloc? && p == t.on[e.c] {
        AllocEffect(t, e);
      } else {
        StaysAlive(t, e, p);
        EmbryoStays(t, e, t.procs[p].making);
      }
    }
  }

  lemma MakingEffect(t: Table, e: Event, p: int)
    requires Shape(t) && Makers(t) && Enabled(t, e) && 0 <= p < |t.procs|
    ensures Do(t, e).procs[p].making == if p != t.on[e.c] then t.procs[p].making
                                        else if e.Alloc? then e.p
                                        else if e.Ready? || (e.Build? && !e.ok) then -1
                                        else t.procs[p].making
    ensures e.Exit? && p == t.on[e.c] ==> t.procs[p].making == -1
  {
    hide HasChild, Makers;
    if e.Build? || e.Ready? {
      MakesEmbryo(t, t.on[e.c]);
    }
  }

  lemma AllocEffect(t: Table, e: Event)
    requires Shape(t) && Enabled(t, e) && e.Alloc?
    ensures Do(t, e).procs[e.p].state.Embryo? && 0 <= e.p < |t.procs| && Alive(Do(t, e), t.on[e.c])
  {
  }

  lemma StepKeepsNotBoth(t: Table, e: Event, p: int, q: int)
    requires Shape(t) && Makers(t) && Enabled(t, e)
    ensures NotBoth(Do(t, e), p, q)
  {
    hide Makers, Do;
    MakersGive(t, p, q);
    MakersGive(t, q, p);
    if 0 <= p < |t.procs| && 0 <= q < |t.procs| {
      MakingEffect(t, e, p);
      MakingEffect(t, e, q);
    }
  }

  /** Where the parent of an embryo comes from. */
  lemma EmbryoEffect(t: Table, e: Event, q: int)
    requires Shape(t) && Makers(t) && Enabled(t, e) && 0 <= q < |t.procs| && MemoryOf(t.procs[q])
    requires Do(t, e).procs[q].state.Embryo? && Do(t, e).procs[q].parent != -1
    ensures var parent := Do(t, e).procs[q].parent;
            || (t.procs[q].state.Embryo? && parent == t.procs[q].parent)
            || (t.procs[q].state.Embryo? && e.Exit? && t.procs[q].parent == t.on[e.c])
            || (e.Build? && e.ok && parent == t.on[e.c] && t.procs[t.on[e.c]].making == q)
  {
    hide HasChild, Makers;
    if e.Build? || e.Ready? {
      MakesEmbryo(t, t.on[e.c]);
    }
  }

  lemma StepKeepsEmbryoOf(t: Table, e: Event, q: int)
    requires Shape(t) && Makers(t) && Memory(t) && Enabled(t, e)
    ensures EmbryoOf(Do(t, e), q)
  {
    hide Makers, Do, MemoryOf, HasChild;
    MakersGive(t, t.on[e.c], q);
    if 0 <= q < |t.procs| && Do(t, e).procs[q].state.Embryo? && Do(t, e).procs[q].parent != -1 {
      EmbryoEffect(t, e, q);
      var parent := Do(t, e).procs[q].parent;
      if 0 <= t.on[e.c] {
        MakingEffect(t, e, t.on[e.c]);
      }
      if 0 <= parent < |t.procs| {
        MakingEffect(t, e, parent);
      }
      assert !(e.Ready? && t.procs[t.on[e.c]].making == q) by {
        ReadyLeaves(t, e);
      }
    }
  }

  lemma ReadyLeaves(t: Table, e: Event)
    requires Shape(t) && Makers(t) && Enabled(t, e)
    ensures e.Ready? || (e.Build? && !e.ok) ==> !Do(t, e).procs[t.procs[t.on[e.c]].making].state.Embryo?
  {
    hide HasChild, Makers;
    if e.Build? || e.Ready? {
      MakesEmbryo(t, t.on[e.c]);
    }
  }

  lemma StepKeepsMakers(t: Table, e: Event)
    requires Shape(t) && Makers(t) && Memory(t) && Enabled(t, e)
    ensures Makers(Do(t, e))
  {
    hide HasChild, MakerOf, NotBoth, EmbryoOf, Do, Enabled, Shape, Memory;
    forall p ensures MakerOf(Do(t, e), p) {
      StepKeepsMakerOf(t, e, p);
    }
    forall p, q ensures NotBoth(Do(t, e), p, q) {
      StepKeepsNotBoth(t, e, p, q);
    }
    forall q ensures EmbryoOf(Do(t, e), q) {
      StepKeepsEmbryoOf(t, e, q);
    }
  }

  /** Where the parent of a process in use comes from. */
  lemma ParentEffect(t: Table, e: Event, p: int)
    requires Shape(t) && Makers(t) && Enabled(t, e) && 0 <= p < |t.procs| && InUse(Do(t, e).procs[p])
    ensures var parent := Do(t, e).procs[p].parent;
            || (InUse(t.procs[p]) && parent == t.procs[p].parent && (e.Exit? ==> parent != t.on[e.c]))
            || (InUse(t.procs[p]) && e.Exit? && t.procs[p].parent == t.on[e.c] && parent == INIT)
            || (e.Ready? && parent == t.on[e.c] && p != parent)
  {
    hide HasChild, Makers;
    if e.Build? || e.Ready? {
      MakesEmbryo(t, t.on[e.c]);
    }
  }

  lemma StepKeepsParentOf(t: Table, e: Event, p: int)
    requires Shape(t) && Makers(t) && Parents(t) && Enabled(t, e)
    ensures ParentOf(Do(t, e), p)
  {
    hide Makers, Do, Alive, InUse;
    if 0 <= p < |t.procs| && InUse(Do(t, e).procs[p]) {
      ParentEffect(t, e, p);
      assert ParentOf(t, p);
      InitStays(t, e);
      if e.Ready? {
        MakesEmbryo(t, t.on[e.c]);
        StaysAlive(t, e, t.on[e.c]);
      }
      if && p != INIT && Do(t, e).procs[p].parent == t.procs[p].parent && Alive(t, t.procs[p].parent)
         && !(e.Exit? && t.procs[p].parent == t.on[e.c])
      {
        StaysAlive(t, e, t.procs[p].parent);
      }
    }
  }

  lemma InitStays(t: Table, e: Event)
    requires Shape(t) && Makers(t) && Parents(t) && Enabled(t, e)
    ensures Alive(Do(t, e), INIT) && Do(t, e).procs[INIT].parent == -1
  {
    hide HasChild, Makers;
    StaysAlive(t, e, INIT);
    if e.Build? || e.Ready? {
      MakesEmbryo(t, t.on[e.c]);
    }
  }

  lemma StepKeepsParents(t: Table, e: Event)
    requires Shape(t) && Makers(t) && Parents(t) && Enabled(t, e)
    ensures Parents(Do(t, e))
  {
    hide Makers, Do, Alive, ParentOf, Enabled;
    InitStays(t, e);
    forall p ensures ParentOf(Do(t, e), p) {
      StepKeepsParentOf(t, e, p);
    }
  }

  /** exit wakes the parent, and init if it inherits a zombie. */
  lemma ExitKeepsWaiterOf(t: Table, e: Event, p: int, q: int)
    requires Shape(t) && Parents(t) && Waiters(t) && Enabled(t, e) && e.Exit?
    ensures WaiterOf(Do(t, e), p, q)
  {
    assert WaiterOf(t, p, q) && ParentOf(t, t.on[e.c]) && OnOwnSlot(t, p);
  }

  lemma StepKeepsOnOwnSlot(t: Table, e: Event, p: int)
    requires Shape(t) && Makers(t) && Waiters(t) && Enabled(t, e)
    ensures OnOwnSlot(Do(t, e), p)
  {
    hide Makers, HasChild, WaiterOf;
    assert OnOwnSlot(t, p);
    if e.Build? || e.Ready? {
      MakesEmbryo(t, t.on[e.c]);
    }
  }

  lemma OthersKeepWaiterOf(t: Table, e: Event, p: int, q: int)
    requires Shape(t) && Makers(t) && Waiters(t) && Enabled(t, e) && !e.Exit?
    ensures WaiterOf(Do(t, e), p, q)
  {
    hide Makers, Reparent;
    assert WaiterOf(t, p, q);
    if e.Build? || e.Ready? {
      MakesEmbryo(t, t.on[e.c]);
    }
  }

  lemma StepKeepsWaiters(t: Table, e: Event)
    requires Shape(t) && Makers(t) && Parents(t) && Waiters(t) && Enabled(t, e)
    ensures Waiters(Do(t, e))
  {
    hide Makers, Do, WaiterOf, OnOwnSlot, Parents, Enabled;
    forall p ensures OnOwnSlot(Do(t, e), p) {
      StepKeepsOnOwnSlot(t, e, p);
    }
    forall p, q ensures WaiterOf(Do(t, e), p, q) {
      if e.Exit? {
        ExitKeepsWaiterOf(t, e, p, q);
      } else {
        OthersKeepWaiterOf(t, e, p, q);
      }
    }
  }

  /** What a step does to state and pid of a process. */
  ghost predicate PidStep(t: Table, e: Event, p: int)
    requires Enabled(t, e) && 0 <= p < |t.procs| && 0 <= e.c < |t.on|
  {
    var a, b := t.procs[p], Do(t, e).procs[p];
    || (b.pid == a.pid && (b.state.Unused? <==> a.state.Unused?) && (b.state.Zombie? <==> a.state.Zombie?)
        && !(e.Exit? && p == t.on[e.c])
        && !(e.Alloc? && p == e.p) && !(e.Reap? && p == e.p))
    || (e.Exit? && p == t.on[e.c] && b.pid == a.pid && a.state.Running? && b.state.Zombie?)
    || (e.Alloc? && p == e.p && a.state.Unused? && b.state.Embryo? && b.pid == t.nextpid)
    || (e.Reap? && p == e.p && a.state.Zombie? && b.state.Unused?)
    || (e.Build? && a.state.Embryo? && b.state.Unused?)
  }

  lemma PidEffectExit(t: Table, e: Event, p: int)
    requires Shape(t) && Enabled(t, e) && 0 <= p < |t.procs| && e.Exit?
    ensures PidStep(t, e, p)
  {
    hide HasChild;
  }

  lemma PidEffectElse(t: Table, e: Event, p: int)
    requires Shape(t) && Makers(t) && Enabled(t, e) && 0 <= p < |t.procs| && !e.Exit?
    ensures PidStep(t, e, p)
  {
    hide HasChild, Makers, Reparent;
    if e.Build? || e.Ready? {
      MakesEmbryo(t, t.on[e.c]);
    }
  }

  lemma PidEffect(t: Table, e: Event, p: int)
    requires Shape(t) && Makers(t) && Enabled(t, e) && 0 <= p < |t.procs|
    ensures PidStep(t, e, p)
  {
    hide Do, Enabled, Makers, PidStep;
    if e.Exit? {
      PidEffectExit(t, e, p);
    } else {
      PidEffectElse(t, e, p);
    }
  }

  /** What a step does to the pids on record. */
  lemma RecordEffect(t: Table, e: Event)
    requires Shape(t) && Enabled(t, e)
    ensures var t' := Do(t, e);
            && t'.nextpid == (if e.Alloc? then t.nextpid + 1 else t.nextpid)
            && t'.exited == (if e.Exit? then t.exited + {t.procs[t.on[e.c]].pid} else t.exited)
            && t'.reaped == (if e.Reap? then t.reaped + multiset{t.procs[e.p].pid} else t.reaped)
  {
  }

  lemma StepKeepsPidOf(t: Table, e: Event, p: int)
    requires Shape(t) && Makers(t) && Pids(t) && Enabled(t, e)
    ensures PidOf(Do(t, e), p)
  {
    hide Makers, Do, HasChild;
    RecordEffect(t, e);
    if 0 <= p < |t.procs| {
      PidEffect(t, e, p);
      assert PidOf(t, p) && OnePid(t, p, t.on[e.c]) && Accounted(t, t.nextpid) && Accounted(t, t.procs[p].pid);
      if e.Reap? {
        assert OnePid(t, p, e.p);
      }
    }
  }

  lemma StepKeepsOnePid(t: Table, e: Event, p: int, q: int)
    requires Shape(t) && Makers(t) && Pids(t) && Enabled(t, e)
    ensures OnePid(Do(t, e), p, q)
  {
    hide Makers, Do, HasChild, Enabled;
    if 0 <= p < |t.procs| && 0 <= q < |t.procs| {
      PidEffect(t, e, p);
      PidEffect(t, e, q);
      assert PidOf(t, p) && PidOf(t, q) && OnePid(t, p, q);
    }
  }

  lemma StepKeepsAccounted(t: Table, e: Event, x: int)
    requires Shape(t) && Makers(t) && Pids(t) && Enabled(t, e)
    ensures Accounted(Do(t, e), x)
  {
    hide Makers, Do, HasChild, ZombieWith;
    RecordEffect(t, e);
    assert Accounted(t, x);
    if e.Exit? {
      assert PidOf(t, t.on[e.c]);
    }
    if e.Reap? {
      assert PidOf(t, e.p);
    }
    if x in Do(t, e).exited && x !in Do(t, e).reaped {
      ZombieFound(t, e, x);
    }
  }

  lemma ZombieFound(t: Table, e: Event, x: int)
    requires Shape(t) && Makers(t) && Pids(t) && Enabled(t, e) && x in Do(t, e).exited && x !in Do(t, e).reaped
    ensures ZombieWith(Do(t, e), x)
  {
    hide Makers, Do, HasChild;
    RecordEffect(t, e);
    var t' := Do(t, e);
    if x in t.exited {
      assert Accounted(t, x);
      var p :| 0 <= p < |t.procs| && t.procs[p].state.Zombie? && t.procs[p].pid == x;
      PidEffect(t, e, p);
      assert t'.procs[p].state.Zombie?;
    } else {
      PidEffect(t, e, t.on[e.c]);
      assert t'.procs[t.on[e.c]].state.Zombie?;
    }
  }

  lemma StepKeepsPids(t: Table, e: Event)
    requires Shape(t) && Makers(t) && Pids(t) && Enabled(t, e)
    ensures Pids(Do(t, e))
  {
    hide Makers, Do, PidOf, OnePid, Accounted, Enabled;
    forall p ensures PidOf(Do(t, e), p) {
      StepKeepsPidOf(t, e, p);
    }
    forall p, q ensures OnePid(Do(t, e), p, q) {
      StepKeepsOnePid(t, e, p, q);
    }
    forall x ensures Accounted(Do(t, e), x) {
      StepKeepsAccounted(t, e, x);
    }
  }

  // Runs

  ghost predicate Inv(t: Table) {
    Cpus(t) && Memory(t) && Makers(t) && Parents(t) && Waiters(t) && Pids(t)
  }

  lemma StepKeepsInv(t: Table, e: Event)
    requires Inv(t) && Enabled(t, e)
    ensures Inv(Do(t, e))
  {
    hide Shape, Apart, CpuOk, OnSome, Memory, Makers, Parents, Waiters, Pids, Do, Enabled;
    StepKeepsCpus(t, e);
    StepKeepsMemory(t, e);
    StepKeepsMakers(t, e);
    StepKeepsParents(t, e);
    StepKeepsWaiters(t, e);
    StepKeepsPids(t, e);
  }

  ghost predicate Possible(t: Table, es: seq<Event>)
    decreases |es|
  {
    es != [] ==> Enabled(t, es[0]) && Possible(Do(t, es[0]), es[1..])
  }

  ghost function After(t: Table, es: seq<Event>): Table
    requires Possible(t, es)
    decreases |es|
  {
    if es == [] then t else After(Do(t, es[0]), es[1..])
  }

  /** Only init, not yet running. */
  ghost predicate Start(t: Table) {
    && |t.procs| > 0 && t.lock == -1 && (forall c :: 0 <= c < |t.on| ==> t.on[c] == -1)
    && t.procs[INIT] == Proc(Runnable, -1, -1, 1, false, true, Back, -1) && t.nextpid == 2
    && (forall p :: 0 < p < |t.procs| ==> t.procs[p] == Proc(Unused, -1, -1, 0, false, false, Back, -1))
    && t.exited == {} && t.reaped == multiset{}
  }

  lemma StartIsOk(t: Table)
    requires Start(t)
    ensures Inv(t)
  {
  }

  lemma {:induction false} RunKeepsInv(t: Table, es: seq<Event>)
    requires Inv(t) && Possible(t, es)
    ensures Inv(After(t, es))
    decreases |es|
  {
    hide Inv, Do, Enabled;
    if es != [] {
      StepKeepsInv(t, es[0]);
      RunKeepsInv(Do(t, es[0]), es[1..]);
    }
  }

  /** In every interleaving: no process is on two CPUs, a process asleep in wait has no zombie child, every zombie
      has a parent that can reap it, and a pid that exited is a zombie's or has been reaped exactly once. */
  lemma ExitWaitIsSafe(t: Table, es: seq<Event>)
    requires Start(t) && Possible(t, es)
    ensures var r := After(t, es);
            && (forall c, d :: 0 <= c < |r.on| && 0 <= d < |r.on| && r.on[c] == r.on[d] && r.on[c] >= 0 ==> c == d)
            && (forall p, q :: WaiterOf(r, p, q))
            && (forall p :: 0 <= p < |r.procs| && r.procs[p].state.Zombie? ==> Alive(r, r.procs[p].parent))
            && (forall x :: x in r.exited ==>
                  (r.reaped[x] == 1 && !ZombieWith(r, x)) || (r.reaped[x] == 0 && ZombieWith(r, x)))
  {
    StartIsOk(t);
    RunKeepsInv(t, es);
    SafeWhenInv(After(t, es));
  }

  lemma SafeWhenInv(r: Table)
    requires Inv(r)
    ensures forall c, d :: 0 <= c < |r.on| && 0 <= d < |r.on| && r.on[c] == r.on[d] && r.on[c] >= 0 ==> c == d
    ensures forall p, q :: WaiterOf(r, p, q)
    ensures forall p :: 0 <= p < |r.procs| && r.procs[p].state.Zombie? ==> Alive(r, r.procs[p].parent)
    ensures forall x :: x in r.exited ==>
              (r.reaped[x] == 1 && !ZombieWith(r, x)) || (r.reaped[x] == 0 && ZombieWith(r, x))
  {
    hide WaiterOf, Makers, Memory;
    forall c, d | 0 <= c < |r.on| && 0 <= d < |r.on| && r.on[c] == r.on[d] && r.on[c] >= 0 ensures c == d {
      assert Apart(r.on, c, d);
    }
    forall p | 0 <= p < |r.procs| && r.procs[p].state.Zombie? ensures Alive(r, r.procs[p].parent) {
      assert ParentOf(r, p);
    }
    forall x | x in r.exited ensures (r.reaped[x] == 1 && !ZombieWith(r, x)) || (r.reaped[x] == 0 && ZombieWith(r, x)) {
      assert Accounted(r, x);
      if ZombieWith(r, x) {
        var p :| 0 <= p < |r.procs| && r.procs[p].state.Zombie? && r.procs[p].pid == x;
        assert PidOf(r, p);
      }
    }
  }

  /** Whenever wait can reap a process, that process has its memory still, has switched away from its stack on every
      CPU, and has not been reaped before. */
  lemma ReapIsSafe(t: Table, es: seq<Event>, c: int, q: int)
    requires Start(t) && Possible(t, es) && Enabled(After(t, es), Reap(c, q))
    ensures var r := After(t, es);
            r.procs[q].memory && r.procs[q].pid !in r.reaped && forall d :: 0 <= d < |r.on| ==> r.on[d] != q
  {
    StartIsOk(t);
    RunKeepsInv(t, es);
    ReapableIsDone(After(t, es), c, q);
  }

  lemma ReapableIsDone(r: Table, c: int, q: int)
    requires Inv(r) && Enabled(r, Reap(c, q))
    ensures r.procs[q].memory && r.procs[q].pid !in r.reaped && forall d :: 0 <= d < |r.on| ==> r.on[d] != q
  {
    hide Makers, Parents, Waiters, HasChild;
    assert MemoryOf(r.procs[q]) && PidOf(r, q);
    forall d | 0 <= d < |r.on| ensures r.on[d] != q {
      assert CpuOk(r, d);
    }
  }

  // Who is marked as killed

  /** kill finds slot q, whatever state it is in. */
  predicate Hits(t: Table, e: Event, q: int) {
    e.Kill? && q < |t.procs| && FirstWith(t.procs, e.pid, 0) == q
  }

  lemma KilledEffect(t: Table, e: Event, q: int)
    requires Shape(t) && Makers(t) && Enabled(t, e) && 0 <= q < |t.procs|
    ensures Do(t, e).procs[q].killed == if Hits(t, e, q) then true
                                        else if e.Reap? && e.p == q then false
                                        else t.procs[q].killed
  {
    hide HasChild, Makers;
    if e.Build? || e.Ready? {
      MakesEmbryo(t, t.on[e.c]);
    }
  }

  /** The i-th step hits slot q, which wait has not cleared since. */
  ghost predicate HitAt(t: Table, es: seq<Event>, q: int, i: nat)
    requires Possible(t, es)
  {
    i < |es| && Possible(t, es[..i]) && Hits(After(t, es[..i]), es[i], q) && Uncleared(es, q, i)
  }

  ghost predicate Uncleared(es: seq<Event>, q: int, i: nat) {
    forall j :: i < j < |es| ==> !(es[j].Reap? && es[j].p == q)
  }

  lemma UnclearedMore(was: seq<Event>, e: Event, q: int, i: nat)
    requires i < |was|
    ensures Uncleared(was + [e], q, i) <==> Uncleared(was, q, i) && !(e.Reap? && e.p == q)
  {
    assert (was + [e])[|was|] == e;
    assert forall j :: i < j < |was| ==> (was + [e])[j] == was[j];
  }

  lemma {:induction false} Prefix(t: Table, es: seq<Event>, i: nat)
    requires Possible(t, es) && i <= |es|
    ensures Possible(t, es[..i])
    ensures i < |es| ==> Enabled(After(t, es[..i]), es[i])
    ensures i < |es| ==> Possible(t, es[..i + 1]) && After(t, es[..i + 1]) == Do(After(t, es[..i]), es[i])
    decreases |es|
  {
    hide Do, Enabled;
    if i > 0 {
      Prefix(Do(t, es[0]), es[1..], i - 1);
      assert es[..i][1..] == es[1..][..i - 1];
      assert i < |es| ==> es[..i + 1][1..] == es[1..][..i];
    } else if |es| > 0 {
      assert es[..1][1..] == [];
    }
  }

  /** A slot is marked as killed exactly if some kill has found it since wait last cleared it.  allocproc does not
      clear the mark: so this is also when the next process in a free slot starts out killed. */
  lemma {:induction false} KilledExactly(t: Table, es: seq<Event>, q: int, n: nat)
    requires Start(t) && Possible(t, es) && n <= |es| && 0 <= q < |t.procs|
    ensures Possible(t, es[..n]) && |After(t, es[..n]).procs| == |t.procs|
    ensures After(t, es[..n]).procs[q].killed <==> exists i: nat :: HitAt(t, es[..n], q, i)
  {
    hide Do, Enabled, Hits, Inv, Start;
    Prefix(t, es, n);
    var now := es[..n];
    if n == 0 {
      StartUnmarked(t, q);
    } else {
      var was, e := es[..n - 1], es[n - 1];
      KilledExactly(t, es, q, n - 1);
      Prefix(t, es, n - 1);
      assert now[..n - 1] == was && now[n - 1] == e;
      EffectOn(t, was, e, q);
      forall i: nat | i < n - 1 ensures HitAt(t, now, q, i) <==> HitAt(t, was, q, i) && !(e.Reap? && e.p == q) {
        HitGrows(t, was, e, now, q, i);
      }
      if Hits(After(t, was), e, q) {
        assert HitAt(t, now, q, n - 1);
      } else if After(t, now).procs[q].killed {
        var i: nat :| HitAt(t, was, q, i);
        assert HitAt(t, now, q, i);
      }
    }
  }

  lemma StartUnmarked(t: Table, q: int)
    requires Start(t) && 0 <= q < |t.procs|
    ensures !t.procs[q].killed
  {
  }

  lemma EffectOn(t: Table, es: seq<Event>, e: Event, q: int)
    requires Start(t) && Possible(t, es) && Enabled(After(t, es), e) && 0 <= q < |After(t, es).procs|
    ensures var r := After(t, es);
      Do(r, e).procs[q].killed == if Hits(r, e, q) then true else if e.Reap? && e.p == q then false
                                  else r.procs[q].killed
  {
    hide Do, Enabled, Hits;
    StartIsOk(t);
    RunKeepsInv(t, es);
    KilledEffect(After(t, es), e, q);
  }

  lemma HitGrows(t: Table, was: seq<Event>, e: Event, now: seq<Event>, q: int, i: nat)
    requires now == was + [e] && Possible(t, was) && Possible(t, now) && i < |was|
    ensures HitAt(t, now, q, i) <==> HitAt(t, was, q, i) && !(e.Reap? && e.p == q)
  {
    hide Do, Enabled, Hits, Possible, After, Uncleared;
    assert now[..i] == was[..i] && now[i] == was[i];
    UnclearedMore(was, e, q, i);
  }

  /** When a process is made in a free slot, this says whether it starts out killed. */
  lemma NewProcessKilledExactly(t: Table, es: seq<Event>, c: int, q: int)
    requires Start(t) && Possible(t, es) && Enabled(After(t, es), Alloc(c, q))
    ensures Do(After(t, es), Alloc(c, q)).procs[q].killed <==> exists i: nat :: HitAt(t, es, q, i)
  {
    hide Start, HitAt, Possible;
    assert es[..|es|] == es;
    SameSize(t, es);
    KilledExactly(t, es, q, |es|);
  }

  lemma {:induction false} SameSize(t: Table, es: seq<Event>)
    requires Possible(t, es)
    ensures |After(t, es).procs| == |t.procs|
    decreases |es|
  {
    hide Enabled;
    if es != [] {
      SameSize(Do(t, es[0]), es[1..]);
    }
  }

  /** kill(0) finds the first free slot, whose pid is 0, and the next process made there starts out killed. */
  lemma KillZero(t: Table)
    requires Start(t) && |t.procs| > 1 && |t.on| > 0
    ensures var es := [SchedLock(0), SchedPick(0, INIT), Release(0), Kill(0, 0), Alloc(0, 1)];
      && Possible(t, es) && |After(t, es).procs| == |t.procs|
      && var p := After(t, es).procs[1]; p.state.Embryo? && p.pid == 2 && p.killed
  {
    hide Do, Enabled;
    var t3 := InitRuns(t);
    KillThenAlloc(t3);
    Then(t3, Kill(0, 0), [Alloc(0, 1)]);
    var t2 := Do(Do(t, SchedLock(0)), SchedPick(0, INIT));
    Then(t2, Release(0), [Kill(0, 0), Alloc(0, 1)]);
    Then(Do(t, SchedLock(0)), SchedPick(0, INIT), [Release(0), Kill(0, 0), Alloc(0, 1)]);
    Then(t, SchedLock(0), [SchedPick(0, INIT), Release(0), Kill(0, 0), Alloc(0, 1)]);
  }

  lemma InitRuns(t: Table) returns (r: Table)
    requires Start(t) && |t.on| > 0
    ensures Enabled(t, SchedLock(0)) && Enabled(Do(t, SchedLock(0)), SchedPick(0, INIT))
    ensures Enabled(Do(Do(t, SchedLock(0)), SchedPick(0, INIT)), Release(0))
    ensures r == Do(Do(Do(t, SchedLock(0)), SchedPick(0, INIT)), Release(0))
    ensures CanLock(r, 0) && r.on[0] == INIT && r.nextpid == 2 && |r.procs| == |t.procs|
    ensures r.procs[INIT].making == -1 && r.procs[INIT].pid == 1
    ensures forall p :: 0 < p < |t.procs| ==> r.procs[p] == t.procs[p]
  {
    r := Do(Do(Do(t, SchedLock(0)), SchedPick(0, INIT)), Release(0));
  }

  lemma KillThenAlloc(t: Table)
    requires CanLock(t, 0) && t.on[0] == INIT && t.nextpid == 2 && |t.procs| > 1
    requires t.procs[INIT].making == -1 && t.procs[INIT].pid == 1 && t.procs[1].pid == 0 && t.procs[1].state.Unused?
    ensures Enabled(t, Kill(0, 0)) && Enabled(Do(t, Kill(0, 0)), Alloc(0, 1))
    ensures Possible(Do(t, Kill(0, 0)), [Alloc(0, 1)])
    ensures var r := After(Do(t, Kill(0, 0)), [Alloc(0, 1)]);
      |r.procs| == |t.procs| && r.procs[1].state.Embryo? && r.procs[1].pid == 2 && r.procs[1].killed
  {
    hide HasChild;
    assert FirstWith(t.procs, 0, 0) == FirstWith(t.procs, 0, 1) == 1;
    var r := Do(Do(t, Kill(0, 0)), Alloc(0, 1));
    assert Possible(r, []) && After(r, []) == r;
    Then(Do(t, Kill(0, 0)), Alloc(0, 1), []);
  }

  lemma Then(t: Table, e: Event, es: seq<Event>)
    requires Enabled(t, e) && Possible(Do(t, e), es)
    ensures Possible(t, [e] + es) && After(t, [e] + es) == After(Do(t, e), es)
  {
    hide Do, Enabled;
    assert ([e] + es)[1..] == es;
  }

  // Nobody sleeps through a wakeup

  /** wakeup leaves nobody asleep on its channel, and makes runnable whoever slept there. */
  lemma WakeupReaches(t: Table, c: int, chan: int, p: int)
    requires Enabled(t, Wakeup(c, chan)) && 0 <= p < |t.procs|
    ensures var a, b := t.procs[p], Do(t, Wakeup(c, chan)).procs[p];
      b == if a.state.Sleeping? && a.chan == chan then a.(state := Runnable) else a
  {
  }

  /** kill makes a sleeper runnable. */
  lemma KillReaches(t: Table, e: Event, q: int)
    requires Enabled(t, e) && 0 <= q < |t.procs| && Hits(t, e, q)
    ensures var a, b := t.procs[q], Do(t, e).procs[q];
      b == a.(killed := true, state := if a.state.Sleeping? then Runnable else a.state)
  {
  }

  /** In every state of every run: when a process exits, its parent, if asleep in wait, becomes runnable. */
  lemma ExitWakesParent(t: Table, es: seq<Event>, c: int)
    requires Start(t) && Possible(t, es) && Enabled(After(t, es), Exit(c))
    ensures var r := After(t, es);
      var q := r.procs[r.on[c]].parent;
      AsleepInWait(r, q) ==> Do(r, Exit(c)).procs[q].state.Runnable?
  {
    hide Start;
    StartIsOk(t);
    RunKeepsInv(t, es);
    ExitWakes(After(t, es), c);
  }

  lemma ExitWakes(r: Table, c: int)
    requires Inv(r) && Enabled(r, Exit(c))
    ensures var q := r.procs[r.on[c]].parent;
      AsleepInWait(r, q) ==> Do(r, Exit(c)).procs[q].state.Runnable?
  {
    hide Makers, Memory, Pids, Apart, CpuOk, OnSome, WaiterOf, HasChild;
    var p := r.on[c];
    assert ParentOf(r, p) && OnOwnSlot(r, r.procs[p].parent);
  }

  /** Event e puts process p to sleep on chan. */
  predicate GoesToSleep(t: Table, e: Event, p: int, chan: int) {
    0 <= e.c < |t.on| && t.on[e.c] == p && (e == Sleep(e.c, chan) || (e.WaitSleep? && chan == p))
  }

  predicate Sleeps(e: Event) {
    e.Sleep? || e.WaitSleep?
  }

  lemma FallsAsleep(t: Table, e: Event, p: int, chan: int)
    requires Enabled(t, e) && GoesToSleep(t, e, p, chan)
    ensures 0 <= p < |t.procs| && Do(t, e).procs[p].state.Sleeping? && Do(t, e).procs[p].chan == chan
  {
    hide HasChild;
  }

  /** Whoever is asleep after a step that was not its own sleep was asleep before, on the same channel. */
  lemma StillAsleep(t: Table, e: Event, p: int)
    requires Shape(t) && Makers(t) && Enabled(t, e) && 0 <= p < |t.procs| && !(Sleeps(e) && t.on[e.c] == p)
    requires Do(t, e).procs[p].state.Sleeping?
    ensures t.procs[p].state.Sleeping? && t.procs[p].chan == Do(t, e).procs[p].chan
  {
    hide HasChild, Makers;
    if e.Build? || e.Ready? {
      MakesEmbryo(t, t.on[e.c]);
    }
  }

  /** Process p does not go to sleep between the i-th and the j-th event. */
  ghost predicate NoOtherSleep(t: Table, es: seq<Event>, p: int, i: nat, j: nat)
    requires Possible(t, es)
  {
    forall k :: i < k < j && k < |es| && Possible(t, es[..k]) && 0 <= es[k].c < |After(t, es[..k]).on| ==>
      !(Sleeps(es[k]) && After(t, es[..k]).on[es[k].c] == p)
  }

  lemma {:induction false} AsleepOn(t: Table, es: seq<Event>, p: int, chan: int, i: nat, j: nat)
    requires Start(t) && Possible(t, es) && i < j <= |es| && Possible(t, es[..i])
    requires GoesToSleep(After(t, es[..i]), es[i], p, chan) && NoOtherSleep(t, es, p, i, j)
    ensures Possible(t, es[..j]) && 0 <= p < |After(t, es[..j]).procs|
    ensures After(t, es[..j]).procs[p].state.Sleeping? ==> After(t, es[..j]).procs[p].chan == chan
    decreases j
  {
    hide Do, Enabled, Start, GoesToSleep, Sleeps;
    Prefix(t, es, j - 1);
    var r := After(t, es[..j - 1]);
    if j == i + 1 {
      FallsAsleep(r, es[i], p, chan);
    } else {
      AsleepOn(t, es, p, chan, i, j - 1);
      StartIsOk(t);
      RunKeepsInv(t, es[..j - 1]);
      CpuInRange(r, es[j - 1]);
      if Do(r, es[j - 1]).procs[p].state.Sleeping? {
        StillAsleep(r, es[j - 1], p);
      }
    }
  }

  lemma CpuInRange(t: Table, e: Event)
    requires Enabled(t, e)
    ensures 0 <= e.c < |t.on| && |Do(t, e).procs| == |t.procs|
  {
  }

  /** No lost wakeup, over every run: a process that went to sleep on a channel and has not gone to sleep again is
      awake after the next wakeup of that channel. */
  lemma WakeupEndsSleep(t: Table, es: seq<Event>, p: int, chan: int, i: nat, j: nat)
    requires Start(t) && Possible(t, es) && i < j < |es| && Possible(t, es[..i])
    requires GoesToSleep(After(t, es[..i]), es[i], p, chan) && NoOtherSleep(t, es, p, i, j)
    requires es[j].Wakeup? && es[j].chan == chan
    ensures Possible(t, es[..j + 1]) && 0 <= p < |After(t, es[..j + 1]).procs|
    ensures !After(t, es[..j + 1]).procs[p].state.Sleeping?
  {
    hide Do, Enabled, Start, GoesToSleep;
    AsleepOn(t, es, p, chan, i, j);
    Prefix(t, es, j);
    var r := After(t, es[..j]);
    CpuInRange(r, es[j]);
    WakeupReaches(r, es[j].c, chan, p);
  }
}
