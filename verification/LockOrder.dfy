/** The sleep-locks of inodes (v3/fs.c, v3/sysfile.c) when any number of processes run open, link, unlink, mkdir and
    mknod at once: which of them may wait for a lock while it holds another, and when they wait for each other. */
module LockOrder {
  datatype Name = Dot | DotDot | Proper(s: string)

  /** Where a process is.  The names say whose lock it holds and which it waits for, see Holds and Wants. */
  datatype Local =
    | Out
    | Seek(x: nat)                                  // ilock or iput with no other lock: namex, open, read, write, ...
    | Has(x: nat)
    | UnlinkAt(d: nat, n: Name)                     // unlink, before ilock(dp)
    | LinkAt(d: nat, n: Name, f: nat)               // link, before ilock(dp)
    | MakeAt(d: nat, n: Name, dir: bool)            // create, before ilock(dp)
    | Look(d: nat, n: Name, c: nat)                 // unlink has found the name and is before ilock(ip)
    | Both(d: nat, n: Name, c: nat)
    | New(d: nat, n: Name, c: nat, dir: bool)       // create has a new inode
    | Put(d: nat, n: Name, c: nat)                  // iput(c) under the lock of d: dirlink, or unlink giving up
    | PutIn(d: nat, c: nat)
    | Up(d: nat, c: nat)                            // the iput(dp) of iunlockput(dp) under the lock of the child c
    | UpIn(d: nat, c: nat)

  function Holds(l: Local): set<nat> {
    match l
    case Has(x) => {x}
    case Look(d, _, _) => {d}
    case Both(d, _, c) => {d, c}
    case New(d, _, c, _) => {d, c}
    case Put(d, _, _) => {d}
    case PutIn(d, c) => {d, c}
    case Up(_, c) => {c}
    case UpIn(d, c) => {d, c}
    case _ => {}
  }

  /** The lock that a process waits for, if any. */
  function Wants(l: Local): set<nat> {
    match l
    case Seek(x) => {x}
    case UnlinkAt(d, _) => {d}
    case LinkAt(d, _, _) => {d}
    case MakeAt(d, _, _) => {d}
    case Look(_, _, c) => {c}
    case Put(_, _, c) => {c}
    case Up(d, _) => {d}
    case _ => {}
  }

  /** look: the entries of the directories `dirs`.  used: the inodes there are.  rank: a height for each directory,
      kept from its creation. */
  datatype State = State(look: map<(nat, Name), nat>, dirs: set<nat>, used: set<nat>, rank: map<nat, nat>,
                         procs: seq<Local>)

  datatype Event =
    | Call(p: nat, l: Local)             // a system call has found its directory
    | Take(p: nat, c: nat)               // the lock that p waits for is free and taken; c is what ialloc would give
    | Go(p: nat, refuse: bool)           // p goes on without waiting

  ghost predicate Free(t: State, x: nat) {
    forall q :: 0 <= q < |t.procs| ==> x !in Holds(t.procs[q])
  }

  ghost predicate Empty(t: State, c: nat) {
    forall k :: k in t.look && k.0 == c ==> !k.1.Proper?
  }

  /** How a call can stand before its first lock: namex has found a directory, and link a file by some name. */
  ghost predicate Starts(t: State, l: Local) {
    match l
    case Seek(x) => x in t.used
    case UnlinkAt(d, _) => d in t.dirs
    case LinkAt(d, _, f) => d in t.dirs && f !in t.dirs && exists k :: k in t.look && t.look[k] == f
    case MakeAt(d, _, _) => d in t.dirs
    case _ => false
  }

  ghost predicate Enabled(t: State, e: Event) {
    && e.p < |t.procs|
    && var l := t.procs[e.p];
       match e
       case Call(_, l') => l.Out? && Starts(t, l')
       case Take(_, c) => Wants(l) != {} && (forall x :: x in Wants(l) ==> Free(t, x)) && c !in t.used
       case Go(_, refuse) =>
         || l.Has? || l.New? || l.PutIn? || l.UpIn?
         || (l.Both? && (refuse <==> l.c in t.dirs && !Empty(t, l.c)))
  }

  function With(t: State, p: nat, l: Local): State
    requires p < |t.procs|
  {
    t.(procs := t.procs[p := l])
  }

  ghost function Do(t: State, e: Event): State
    requires Enabled(t, e)
  {
    var l := t.procs[e.p];
    match e
    case Call(p, l') => With(t, p, l')
    case Take(p, c) =>
      (match l
       case Seek(x) => With(t, p, Has(x))
       case UnlinkAt(d, n) =>
         With(t, p, if n.Proper? && (d, n) in t.look then Look(d, n, t.look[(d, n)]) else Has(d))
       case LinkAt(d, n, f) =>
         if (d, n) in t.look then With(t, p, Put(d, n, t.look[(d, n)]))
         else With(t, p, Has(d)).(look := t.look[(d, n) := f])
       case MakeAt(d, n, dir) =>
         if (d, n) in t.look then With(t, p, Has(d))
         else With(t, p, New(d, n, c, dir)).(used := t.used + {c})
       case Look(d, n, x) => With(t, p, Both(d, n, x))
       case Put(d, _, x) => With(t, p, PutIn(d, x))
       case Up(d, x) => With(t, p, UpIn(d, x)))
    case Go(p, refuse) =>
      (match l
       case Has(_) => With(t, p, Out)
       case Both(d, n, x) =>
         if refuse then With(t, p, Put(d, n, x)) else With(t, p, Up(d, x)).(look := t.look - {(d, n)})
       case New(d, n, x, dir) =>
         if dir then
           With(t, p, Up(d, x)).(look := t.look[(d, n) := x][(x, Dot) := x][(x, DotDot) := d], dirs := t.dirs + {x},
                                 rank := t.rank[x := Rank(t, d) + 1])
         else With(t, p, Up(d, x)).(look := t.look[(d, n) := x])
       case PutIn(d, _) => With(t, p, Has(d))
       case UpIn(_, x) => With(t, p, Has(x)))
  }

  // Invariants

  function Rank(t: State, x: nat): nat {
    if x in t.rank then t.rank[x] else 0
  }

  /** Proper names lead down the tree. */
  ghost predicate Ranked(t: State) {
    forall k :: k in t.look && k.1.Proper? && t.look[k] in t.dirs ==> Rank(t, k.0) < Rank(t, t.look[k])
  }

  ghost predicate InUse(t: State) {
    && t.dirs <= t.used
    && (forall k :: k in t.look ==> k.0 in t.dirs && t.look[k] in t.used)
    && (forall p :: 0 <= p < |t.procs| ==> Holds(t.procs[p]) <= t.used && Wants(t.procs[p]) <= t.used)
  }

  ghost predicate Exclusive(t: State) {
    forall p, q :: 0 <= p < q < |t.procs| ==> Holds(t.procs[p]) !! Holds(t.procs[q])
  }

  /** What a process has looked up is still there. */
  ghost predicate LocalOk(t: State, l: Local) {
    match l
    case UnlinkAt(d, _) => d in t.dirs
    case LinkAt(d, _, f) => d in t.dirs && f in t.used && f !in t.dirs
    case MakeAt(d, _, _) => d in t.dirs
    case Look(d, n, c) => d in t.dirs && n.Proper? && (d, n) in t.look && t.look[(d, n)] == c
    case Both(d, n, c) => d in t.dirs && n.Proper? && (d, n) in t.look && t.look[(d, n)] == c
    case Put(d, n, c) => d in t.dirs && (d, n) in t.look && t.look[(d, n)] == c
    case New(d, n, c, _) => d in t.dirs && (d, n) !in t.look && c != d && Blank(t, c)
    case _ => true
  }

  /** No entry has to do with inode c yet, and no link is about to make one. */
  ghost predicate Blank(t: State, c: nat) {
    && c in t.used && c !in t.dirs && (forall k :: k in t.look ==> t.look[k] != c)
    && (forall q :: 0 <= q < |t.procs| && t.procs[q].LinkAt? ==> t.procs[q].f != c)
  }

  ghost predicate LocalsOk(t: State) {
    forall p :: 0 <= p < |t.procs| ==> LocalOk(t, t.procs[p])
  }

  ghost predicate Inv(t: State) {
    Ranked(t) && InUse(t) && Exclusive(t) && LocalsOk(t)
  }

  /** What a step can add to the locks that its process holds. */
  function Gain(t: State, e: Event): set<nat>
    requires e.p < |t.procs|
  {
    if e.Take? then Wants(t.procs[e.p]) + {e.c} else {}
  }

  lemma HoldsEffect(t: State, e: Event)
    requires Enabled(t, e)
    ensures e.p < |t.procs| && Holds(Do(t, e).procs[e.p]) <= Holds(t.procs[e.p]) + Gain(t, e)
  {
  }

  lemma GainIsFree(t: State, e: Event, q: nat)
    requires InUse(t) && Enabled(t, e) && q < |t.procs|
    ensures Holds(t.procs[q]) !! Gain(t, e)
  {
    hide Holds, Wants;
    if e.Take? {
      assert e.c !in Holds(t.procs[q]);
    }
  }

  lemma StepKeepsExclusive(t: State, e: Event)
    requires InUse(t) && Exclusive(t) && Enabled(t, e)
    ensures Exclusive(Do(t, e))
  {
    hide Do, Enabled, Holds, Wants, Gain, InUse;
    HoldsEffect(t, e);
    SameProcs(t, e);
    forall q | 0 <= q < |t.procs| ensures Holds(t.procs[q]) !! Gain(t, e) {
      GainIsFree(t, e, q);
    }
  }

  lemma StepKeepsInUse(t: State, e: Event)
    requires InUse(t) && LocalsOk(t) && Enabled(t, e)
    ensures InUse(Do(t, e))
  {
    hide Do, Enabled, Holds, Wants, LocalsOk;
    var t' := Do(t, e);
    SameProcs(t, e);
    DirsGrow(t, e);
    EntriesInUse(t, e);
    LocalInUse(t, e);
  }

  lemma EntriesInUse(t: State, e: Event)
    requires InUse(t) && LocalsOk(t) && Enabled(t, e)
    ensures var t' := Do(t, e);
      t'.dirs <= t'.used && forall k :: k in t'.look ==> k.0 in t'.dirs && t'.look[k] in t'.used
  {
    assert LocalOk(t, t.procs[e.p]);
  }

  lemma LocalInUse(t: State, e: Event)
    requires InUse(t) && LocalsOk(t) && Enabled(t, e)
    ensures var t' := Do(t, e);
      e.p < |t'.procs| && Holds(t'.procs[e.p]) <= t'.used && Wants(t'.procs[e.p]) <= t'.used
  {
    assert LocalOk(t, t.procs[e.p]);
  }

  lemma StepKeepsRanked(t: State, e: Event)
    requires Ranked(t) && InUse(t) && LocalsOk(t) && Enabled(t, e)
    ensures Ranked(Do(t, e))
  {
    assert LocalOk(t, t.procs[e.p]);
  }

  /** A step of one process leaves the entries of a directory alone that another has locked. */
  lemma EntriesKept(t: State, e: Event, q: nat, d: nat, n: Name)
    requires InUse(t) && Exclusive(t) && LocalsOk(t) && Enabled(t, e) && q < |t.procs| && q != e.p
    requires d in Holds(t.procs[q]) && d in t.dirs
    ensures (d, n) in Do(t, e).look <==> (d, n) in t.look
    ensures (d, n) in t.look ==> Do(t, e).look[(d, n)] == t.look[(d, n)]
  {
    var l := t.procs[e.p];
    assert LocalOk(t, l);
    assert Holds(l) !! Holds(t.procs[q]);
    if e.Take? && l.LinkAt? {
      assert Free(t, l.d);
    }
  }

  lemma OthersKeepLocal(t: State, e: Event, q: nat)
    requires InUse(t) && Exclusive(t) && LocalsOk(t) && Enabled(t, e) && q < |t.procs| && q != e.p
    ensures LocalOk(Do(t, e), t.procs[q])
  {
    var l := t.procs[q];
    assert LocalOk(t, l);
    if l.Look? || l.Both? || l.Put? || l.New? {
      EntriesKept(t, e, q, l.d, l.n);
    }
    if l.New? {
      BlankStays(t, e, q);
    }
    DirsGrow(t, e);
    if l.LinkAt? {
      FileStays(t, e, q);
    }
  }

  lemma DirsGrow(t: State, e: Event)
    requires Enabled(t, e)
    ensures t.dirs <= Do(t, e).dirs && t.used <= Do(t, e).used
  {
  }

  /** The inode that a link has found does not become a directory. */
  lemma FileStays(t: State, e: Event, q: nat)
    requires LocalsOk(t) && Enabled(t, e) && q < |t.procs| && t.procs[q].LinkAt?
    ensures t.procs[q].f !in Do(t, e).dirs
  {
    assert LocalOk(t, t.procs[e.p]) && LocalOk(t, t.procs[q]);
  }

  lemma BlankStays(t: State, e: Event, q: nat)
    requires InUse(t) && Exclusive(t) && LocalsOk(t) && Enabled(t, e) && q < |t.procs| && q != e.p && t.procs[q].New?
    ensures Blank(Do(t, e), t.procs[q].c)
  {
    var l, c := t.procs[e.p], t.procs[q].c;
    assert LocalOk(t, l) && LocalOk(t, t.procs[q]);
    assert Holds(l) !! Holds(t.procs[q]);
    assert c in Holds(t.procs[q]);
  }

  lemma OwnLocal(t: State, e: Event)
    requires InUse(t) && Exclusive(t) && LocalsOk(t) && Enabled(t, e)
    ensures LocalOk(Do(t, e), Do(t, e).procs[e.p])
  {
    var l := t.procs[e.p];
    assert LocalOk(t, l);
  }

  lemma StepKeepsInv(t: State, e: Event)
    requires Inv(t) && Enabled(t, e)
    ensures Inv(Do(t, e))
  {
    hide Ranked, InUse, Exclusive, LocalOk, Enabled, Do;
    StepKeepsExclusive(t, e);
    StepKeepsInUse(t, e);
    StepKeepsRanked(t, e);
    SameProcs(t, e);
    forall q | 0 <= q < |t.procs| ensures LocalOk(Do(t, e), Do(t, e).procs[q]) {
      if q == e.p {
        OwnLocal(t, e);
      } else {
        OthersKeepLocal(t, e, q);
      }
    }
  }

  lemma SameProcs(t: State, e: Event)
    requires Enabled(t, e)
    ensures e.p < |t.procs| == |Do(t, e).procs|
    ensures forall q :: 0 <= q < |t.procs| && q != e.p ==> Do(t, e).procs[q] == t.procs[q]
  {
  }

  // Runs

  /** Any tree, with every process outside the calls. */
  ghost predicate Start(t: State) {
    Ranked(t) && InUse(t) && forall p :: 0 <= p < |t.procs| ==> t.procs[p].Out?
  }

  ghost predicate Run(ts: seq<State>, es: seq<Event>) {
    && |ts| == |es| + 1 && Start(ts[0])
    && forall i :: 0 <= i < |es| ==> Enabled(ts[i], es[i]) && ts[i + 1] == Do(ts[i], es[i])
  }

  lemma {:induction false} RunKeepsInv(ts: seq<State>, es: seq<Event>, i: nat)
    requires Run(ts, es) && i < |ts|
    ensures Inv(ts[i])
  {
    hide Inv, Enabled, Do, Start;
    if i == 0 {
      StartIsOk(ts[0]);
    } else {
      RunKeepsInv(ts, es, i - 1);
      StepKeepsInv(ts[i - 1], es[i - 1]);
    }
  }

  lemma StartIsOk(t: State)
    requires Start(t)
    ensures Inv(t)
  {
  }

  // Deadlock

  /** Process p waits for a lock that process q holds. */
  ghost predicate WaitsFor(t: State, p: nat, q: nat) {
    p < |t.procs| && q < |t.procs| && exists x :: x in Wants(t.procs[p]) && x in Holds(t.procs[q])
  }

  ghost predicate Blocked(t: State, p: nat, s: set<nat>) {
    exists q :: q in s && WaitsFor(t, p, q)
  }

  /** Every process in s waits for a lock that a process in s holds, so that none of them goes on. */
  ghost predicate Deadlocked(t: State, s: set<nat>) {
    s != {} && forall p {:trigger Blocked(t, p, s)} :: p in s ==> Blocked(t, p, s)
  }

  lemma BlockedCannotStep(t: State, p: nat, q: nat, e: Event)
    requires WaitsFor(t, p, q) && Enabled(t, e)
    ensures e.p != p
  {
    var x :| x in Wants(t.procs[p]) && x in Holds(t.procs[q]);
    assert !Free(t, x);
  }

  lemma StaysBlocked(t: State, p: nat, q: nat, e: Event)
    requires WaitsFor(t, p, q) && Enabled(t, e) && e.p != p && e.p != q
    ensures WaitsFor(Do(t, e), p, q)
  {
    hide Do, Enabled;
    SameProcs(t, e);
  }

  /** No process of a deadlock ever takes a step, whatever the others do. */
  lemma DeadlockIsForEver(t: State, s: set<nat>, e: Event)
    requires Deadlocked(t, s) && Enabled(t, e)
    ensures e.p !in s && Deadlocked(Do(t, e), s)
  {
    hide Do, Enabled, WaitsFor;
    forall p | p in s ensures p != e.p {
      assert Blocked(t, p, s);
      var q :| q in s && WaitsFor(t, p, q);
      BlockedCannotStep(t, p, q, e);
    }
    forall p | p in s ensures Blocked(Do(t, e), p, s) {
      assert Blocked(t, p, s);
      var q :| q in s && WaitsFor(t, p, q);
      StaysBlocked(t, p, q, e);
    }
  }

  /** A process in the iput that ends unlink or create, under the lock of the child, or in dirlink's iput of the
      directory itself or of the one above it. */
  predicate Upward(l: Local) {
    l.Up? || (l.Put? && !l.n.Proper?)
  }

  /** A process that waits for a name under the lock of its directory. */
  predicate Down(l: Local) {
    l.Look? || (l.Put? && l.n.Proper?)
  }

  function Depth(t: State, p: nat): nat {
    if p < |t.procs| && Down(t.procs[p]) then Rank(t, t.procs[p].d) else 0
  }

  lemma DownIsLower(t: State, p: nat, q: nat)
    requires Inv(t) && WaitsFor(t, p, q) && Down(t.procs[p]) && Down(t.procs[q])
    ensures Depth(t, p) < Depth(t, q)
  {
    hide InUse, Exclusive;
    assert LocalOk(t, t.procs[p]) && LocalOk(t, t.procs[q]);
    assert t.procs[q].d in Wants(t.procs[p]);
  }

  /** Whoever waits and is waited for is of one of the two kinds. */
  lemma WaitsHolding(t: State, p: nat, q: nat, r: nat)
    requires WaitsFor(t, p, q) && WaitsFor(t, q, r)
    ensures Down(t.procs[q]) || Upward(t.procs[q])
  {
  }

  lemma {:induction false} Deepest(t: State, s: set<nat>) returns (p: nat)
    requires s != {}
    ensures p in s && forall q :: q in s ==> Depth(t, q) <= Depth(t, p)
    decreases s
  {
    hide Depth;
    var a :| a in s;
    if s == {a} {
      p := a;
    } else {
      p := Deepest(t, s - {a});
      if Depth(t, p) < Depth(t, a) {
        p := a;
      }
    }
  }

  /** Two steps beyond the deepest of them, some process waits upwards. */
  lemma UpwardBeyond(t: State, top: nat, q: nat, r: nat, u: nat)
    requires Inv(t) && WaitsFor(t, top, q) && WaitsFor(t, q, r) && WaitsFor(t, r, u)
    requires Depth(t, q) <= Depth(t, top) && Depth(t, r) <= Depth(t, top)
    ensures Upward(t.procs[q]) || Upward(t.procs[r])
  {
    hide Inv;
    WaitsHolding(t, top, q, r);
    WaitsHolding(t, q, r, u);
    if Down(t.procs[q]) && Down(t.procs[r]) {
      DownIsLower(t, q, r);
      if Down(t.procs[top]) {
        DownIsLower(t, top, q);
      }
    }
  }

  lemma Follow(t: State, s: set<nat>, p: nat) returns (q: nat)
    requires Deadlocked(t, s) && p in s
    ensures q in s && WaitsFor(t, p, q) && p < |t.procs| && q < |t.procs|
  {
    assert Blocked(t, p, s);
    q :| q in s && WaitsFor(t, p, q);
  }

  /** In every state of every run: processes that wait for each other's inodes for ever include one that waits
      upwards.  Locking from a directory to a name in it never closes a cycle by itself. */
  lemma DeadlockNeedsUpward(ts: seq<State>, es: seq<Event>, i: nat, s: set<nat>) returns (p: nat)
    requires Run(ts, es) && i < |ts| && Deadlocked(ts[i], s)
    ensures p in s && p < |ts[i].procs| && Upward(ts[i].procs[p])
  {
    hide Run, Inv, Upward, Down, Depth, WaitsFor, Deadlocked;
    RunKeepsInv(ts, es, i);
    var t := ts[i];
    assert s != {} by { NotEmpty(t, s); }
    var top := Deepest(t, s);
    var q := Follow(t, s, top);
    var r := Follow(t, s, q);
    var u := Follow(t, s, r);
    UpwardBeyond(t, top, q, r, u);
    p := if Upward(t.procs[q]) then q else r;
  }

  lemma NotEmpty(t: State, s: set<nat>)
    requires Deadlocked(t, s)
    ensures s != {}
  {
  }

  // Both kinds of waiting upwards do close cycles, with two processes

  /** t with the first two processes at l0 and l1. */
  function Pair(t: State, l0: Local, l1: Local): State
    requires |t.procs| >= 2
  {
    t.(procs := t.procs[0 := l0][1 := l1])
  }

  ghost predicate Idle(t: State) {
    |t.procs| >= 2 && forall q :: 0 <= q < |t.procs| ==> t.procs[q].Out?
  }

  lemma Deadly(t: State, l0: Local, l1: Local, x: nat, y: nat)
    requires |t.procs| >= 2 && x in Wants(l0) && x in Holds(l1) && y in Wants(l1) && y in Holds(l0)
    ensures Deadlocked(Pair(t, l0, l1), {0, 1})
  {
    var t' := Pair(t, l0, l1);
    assert t'.procs[0] == l0 && t'.procs[1] == l1;
    assert WaitsFor(t', 0, 1) && WaitsFor(t', 1, 0);
  }

  lemma More(ts: seq<State>, es: seq<Event>, t: State, e: Event) returns (ts': seq<State>, es': seq<Event>)
    requires Run(ts, es) && ts[|es|] == t && Enabled(t, e)
    ensures Run(ts', es') && ts'[|es'|] == Do(t, e) && ts'[0] == ts[0]
  {
    hide Enabled, Do, Start;
    ts', es' := ts + [Do(t, e)], es + [e];
  }

  lemma CallFirst(t: State, l: Local)
    requires Idle(t) && Starts(t, l)
    ensures Enabled(t, Call(0, l)) && Do(t, Call(0, l)) == Pair(t, l, Out)
  {
    hide Starts;
    assert t.procs[0 := l] == t.procs[0 := l][1 := Out];
  }

  lemma CallSecond(t: State, l0: Local, l: Local)
    requires Idle(t) && Starts(t, l)
    ensures Enabled(Pair(t, l0, Out), Call(1, l)) && Do(Pair(t, l0, Out), Call(1, l)) == Pair(t, l0, l)
  {
    assert t.procs[0 := l0][1 := Out][1 := l] == t.procs[0 := l0][1 := l];
  }

  /** A process can take the lock that the other one does not hold. */
  lemma CanTake(t: State, l0: Local, l1: Local, p: nat, c: nat)
    requires Idle(t) && p < 2 && c !in t.used
    requires var l := if p == 0 then l0 else l1; Wants(l) != {} && Wants(l) !! Holds(l0) + Holds(l1)
    ensures Enabled(Pair(t, l0, l1), Take(p, c))
  {
    var t' := Pair(t, l0, l1);
    forall x | x in Wants(t'.procs[p]) ensures Free(t', x) {
      assert forall q :: 2 <= q < |t.procs| ==> t'.procs[q].Out?;
    }
  }

  lemma UnlinkLooks(t: State, l0: Local, d: nat, n: Name, c: nat)
    requires Idle(t) && c !in t.used && n.Proper? && (d, n) in t.look && d !in Holds(l0)
    ensures var t' := Pair(t, l0, UnlinkAt(d, n));
      && Enabled(t', Take(1, c))
      && Do(t', Take(1, c)) == Pair(t, l0, Look(d, n, t.look[(d, n)]))
  {
    CanTake(t, l0, UnlinkAt(d, n), 1, c);
    var l := Look(d, n, t.look[(d, n)]);
    assert t.procs[0 := l0][1 := UnlinkAt(d, n)][1 := l] == t.procs[0 := l0][1 := l];
  }

  // create and unlink

  lemma Creates(t: State, d: nat, n: Name, c: nat)
    requires Idle(t) && d in t.dirs && (d, n) !in t.look && c !in t.used
    ensures var t1, t2 := Pair(t, MakeAt(d, n, false), Out), Pair(t.(used := t.used + {c}), New(d, n, c, false), Out);
      && Enabled(t1, Take(0, c)) && Do(t1, Take(0, c)) == t2 && Enabled(t2, Go(0, false))
      && Do(t2, Go(0, false)) == Pair(t.(used := t.used + {c}, look := t.look[(d, n) := c]), Up(d, c), Out)
  {
    CanTake(t, MakeAt(d, n, false), Out, 0, c);
    Replace(t, MakeAt(d, n, false), New(d, n, c, false));
    Replace(t, New(d, n, c, false), Up(d, c));
  }

  lemma Replace(t: State, l: Local, l': Local)
    requires |t.procs| >= 2
    ensures t.procs[0 := l][1 := Out][0 := l'] == t.procs[0 := l'][1 := Out]
  {
  }

  /** open with O_CREATE, or mknod, of a new name in any directory, and unlink of the same name: create gives up the
      directory under the lock of the new inode, and unlink has come in between. */
  lemma CreateAndUnlink(t: State, d: nat, n: Name, c: nat, c': nat) returns (ts: seq<State>, es: seq<Event>)
    requires Start(t) && Idle(t) && d in t.dirs && n.Proper? && (d, n) !in t.look && c !in t.used
    requires c' !in t.used + {c}
    ensures Run(ts, es) && ts[0] == t && Deadlocked(ts[|es|], {0, 1})
    ensures forall p :: 0 <= p < 2 ==> p < |ts[|es|].procs| && !ts[|es|].procs[p].Put?
  {
    hide Start, Enabled, Do, Deadlocked, InUse;
    assert d != c by { DirUsed(t, d); }
    ts, es := [t], [];
    CallFirst(t, MakeAt(d, n, false));
    ts, es := More(ts, es, t, Call(0, MakeAt(d, n, false)));
    Creates(t, d, n, c);
    ts, es := More(ts, es, ts[|es|], Take(0, c));
    ts, es := More(ts, es, ts[|es|], Go(0, false));
    var t' := t.(used := t.used + {c}, look := t.look[(d, n) := c]);
    CallSecond(t', Up(d, c), UnlinkAt(d, n));
    ts, es := More(ts, es, ts[|es|], Call(1, UnlinkAt(d, n)));
    UnlinkLooks(t', Up(d, c), d, n, c');
    ts, es := More(ts, es, ts[|es|], Take(1, c'));
    Deadly(t', Up(d, c), Look(d, n, c), d, c);
  }

  lemma DirUsed(t: State, d: nat)
    requires Start(t) && d in t.dirs
    ensures d in t.used
  {
  }

  // unlink and unlink

  lemma Unlinks(t: State, d: nat, n: Name, c: nat, c': nat)
    requires Idle(t) && c' !in t.used && n.Proper? && (d, n) in t.look && t.look[(d, n)] == c && c != d && c !in t.dirs
    ensures var t1, t2, t3 := Pair(t, UnlinkAt(d, n), Out), Pair(t, Look(d, n, c), Out), Pair(t, Both(d, n, c), Out);
      && Enabled(t1, Take(0, c')) && Do(t1, Take(0, c')) == t2
      && Enabled(t2, Take(0, c')) && Do(t2, Take(0, c')) == t3
      && Enabled(t3, Go(0, false)) && Do(t3, Go(0, false)) == Pair(t.(look := t.look - {(d, n)}), Up(d, c), Out)
  {
    CanTake(t, UnlinkAt(d, n), Out, 0, c');
    CanTake(t, Look(d, n, c), Out, 0, c');
    Replace(t, UnlinkAt(d, n), Look(d, n, c));
    Replace(t, Look(d, n, c), Both(d, n, c));
    Replace(t, Both(d, n, c), Up(d, c));
  }

  /** unlink of two names in one directory for the same file. */
  lemma UnlinkAndUnlink(t: State, d: nat, a: Name, b: Name, c: nat, c': nat) returns (ts: seq<State>, es: seq<Event>)
    requires Start(t) && Idle(t) && a.Proper? && b.Proper? && a != b && c' !in t.used
    requires d in t.dirs && c !in t.dirs
    requires (d, a) in t.look && (d, b) in t.look && t.look[(d, a)] == t.look[(d, b)] == c
    ensures Run(ts, es) && ts[0] == t && Deadlocked(ts[|es|], {0, 1})
    ensures forall p :: 0 <= p < 2 ==> p < |ts[|es|].procs| && !ts[|es|].procs[p].Put?
  {
    hide Start, Enabled, Do, Deadlocked;
    ts, es := [t], [];
    CallFirst(t, UnlinkAt(d, a));
    ts, es := More(ts, es, t, Call(0, UnlinkAt(d, a)));
    Unlinks(t, d, a, c, c');
    ts, es := More(ts, es, ts[|es|], Take(0, c'));
    ts, es := More(ts, es, ts[|es|], Take(0, c'));
    ts, es := More(ts, es, ts[|es|], Go(0, false));
    var t' := t.(look := t.look - {(d, a)});
    CallSecond(t', Up(d, c), UnlinkAt(d, b));
    ts, es := More(ts, es, ts[|es|], Call(1, UnlinkAt(d, b)));
    UnlinkLooks(t', Up(d, c), d, b, c');
    ts, es := More(ts, es, ts[|es|], Take(1, c'));
    Deadly(t', Up(d, c), Look(d, b, c), d, c);
  }

  // link and unlink

  lemma LinkPuts(t: State, d: nat, n: Name, f: nat, c: nat)
    requires Idle(t) && c !in t.used && (d, n) in t.look
    ensures var t' := Pair(t, LinkAt(d, n, f), Out);
      Enabled(t', Take(0, c)) && Do(t', Take(0, c)) == Pair(t, Put(d, n, t.look[(d, n)]), Out)
  {
    CanTake(t, LinkAt(d, n, f), Out, 0, c);
    Replace(t, LinkAt(d, n, f), Put(d, n, t.look[(d, n)]));
  }

  /** link of a file to "e/.." in directory d, and unlink of e: nobody gives up a directory under the lock of a
      child. */
  lemma LinkAndUnlink(t: State, d: nat, n: Name, e: nat, k: (nat, Name), c: nat)
    returns (ts: seq<State>, es: seq<Event>)
    requires Start(t) && Idle(t) && n.Proper? && d != e && d in t.dirs && e in t.dirs && c !in t.used
    requires (d, n) in t.look && t.look[(d, n)] == e && (e, DotDot) in t.look && t.look[(e, DotDot)] == d
    requires k in t.look && t.look[k] !in t.dirs
    ensures Run(ts, es) && ts[0] == t && Deadlocked(ts[|es|], {0, 1})
    ensures forall p :: 0 <= p < 2 ==> p < |ts[|es|].procs| && !ts[|es|].procs[p].Up?
  {
    hide Start, Enabled, Do, Deadlocked;
    var f := t.look[k];
    ts, es := [t], [];
    CallFirst(t, LinkAt(e, DotDot, f));
    ts, es := More(ts, es, t, Call(0, LinkAt(e, DotDot, f)));
    LinkPuts(t, e, DotDot, f, c);
    ts, es := More(ts, es, ts[|es|], Take(0, c));
    CallSecond(t, Put(e, DotDot, d), UnlinkAt(d, n));
    ts, es := More(ts, es, ts[|es|], Call(1, UnlinkAt(d, n)));
    UnlinkLooks(t, Put(e, DotDot, d), d, n, c);
    ts, es := More(ts, es, ts[|es|], Take(1, c));
    Deadly(t, Put(e, DotDot, d), Look(d, n, e), d, e);
  }

  // Each call alone gets through and does its work

  lemma Releases(t: State, x: nat)
    requires Idle(t)
    ensures Enabled(Pair(t, Has(x), Out), Go(0, false)) && Do(Pair(t, Has(x), Out), Go(0, false)) == t
  {
    assert t.procs[0 := Has(x)][1 := Out][0 := Out] == t.procs;
  }

  /** The last steps of unlink and create: the directory is given up, and then the child. */
  lemma GivesUp(t: State, d: nat, c: nat, c': nat)
    requires Idle(t) && d != c && c' !in t.used
    ensures var t1, t2 := Pair(t, Up(d, c), Out), Pair(t, UpIn(d, c), Out);
      && Enabled(t1, Take(0, c')) && Do(t1, Take(0, c')) == t2
      && Enabled(t2, Go(0, false)) && Do(t2, Go(0, false)) == Pair(t, Has(c), Out)
  {
    CanTake(t, Up(d, c), Out, 0, c');
    Replace(t, Up(d, c), UpIn(d, c));
    Replace(t, UpIn(d, c), Has(c));
  }

  /** link of a new name: the name is there, and no lock is held. */
  lemma LinkAlone(t: State, d: nat, n: Name, k: (nat, Name), c: nat) returns (ts: seq<State>, es: seq<Event>)
    requires Start(t) && Idle(t) && d in t.dirs && (d, n) !in t.look && c !in t.used
    requires k in t.look && t.look[k] !in t.dirs
    ensures Run(ts, es) && ts[0] == t && ts[|es|] == t.(look := t.look[(d, n) := t.look[k]])
  {
    hide Start, Enabled, Do;
    var f := t.look[k];
    var t' := t.(look := t.look[(d, n) := f]);
    ts, es := [t], [];
    CallFirst(t, LinkAt(d, n, f));
    ts, es := More(ts, es, t, Call(0, LinkAt(d, n, f)));
    LinkEnters(t, d, n, f, c);
    ts, es := More(ts, es, ts[|es|], Take(0, c));
    Releases(t', d);
    ts, es := More(ts, es, ts[|es|], Go(0, false));
  }

  lemma LinkEnters(t: State, d: nat, n: Name, f: nat, c: nat)
    requires Idle(t) && c !in t.used && (d, n) !in t.look
    ensures var t1 := Pair(t, LinkAt(d, n, f), Out);
      Enabled(t1, Take(0, c)) && Do(t1, Take(0, c)) == Pair(t.(look := t.look[(d, n) := f]), Has(d), Out)
  {
    CanTake(t, LinkAt(d, n, f), Out, 0, c);
    Replace(t, LinkAt(d, n, f), Has(d));
  }

  /** unlink of a file: the name is gone, and no lock is held. */
  lemma UnlinkAlone(t: State, d: nat, n: Name, c': nat) returns (ts: seq<State>, es: seq<Event>)
    requires Start(t) && Idle(t) && d in t.dirs && n.Proper? && (d, n) in t.look && t.look[(d, n)] !in t.dirs
    requires c' !in t.used
    ensures Run(ts, es) && ts[0] == t && ts[|es|] == t.(look := t.look - {(d, n)})
  {
    hide Start, Enabled, Do;
    var c := t.look[(d, n)];
    var t' := t.(look := t.look - {(d, n)});
    ts, es := [t], [];
    CallFirst(t, UnlinkAt(d, n));
    ts, es := More(ts, es, t, Call(0, UnlinkAt(d, n)));
    Unlinks(t, d, n, c, c');
    ts, es := More(ts, es, ts[|es|], Take(0, c'));
    ts, es := More(ts, es, ts[|es|], Take(0, c'));
    ts, es := More(ts, es, ts[|es|], Go(0, false));
    GivesUp(t', d, c, c');
    ts, es := More(ts, es, ts[|es|], Take(0, c'));
    ts, es := More(ts, es, ts[|es|], Go(0, false));
    Releases(t', c);
    ts, es := More(ts, es, ts[|es|], Go(0, false));
  }

  /** create of a new file: the name leads to the new inode, and no lock is held. */
  lemma CreateAlone(t: State, d: nat, n: Name, c: nat, c': nat) returns (ts: seq<State>, es: seq<Event>)
    requires Start(t) && Idle(t) && d in t.dirs && (d, n) !in t.look && c !in t.used && c' !in t.used + {c}
    ensures Run(ts, es) && ts[0] == t && ts[|es|] == t.(used := t.used + {c}, look := t.look[(d, n) := c])
  {
    hide Start, Enabled, Do, InUse;
    assert d != c by { DirUsed(t, d); }
    var t' := t.(used := t.used + {c}, look := t.look[(d, n) := c]);
    ts, es := [t], [];
    CallFirst(t, MakeAt(d, n, false));
    ts, es := More(ts, es, t, Call(0, MakeAt(d, n, false)));
    Creates(t, d, n, c);
    ts, es := More(ts, es, ts[|es|], Take(0, c));
    ts, es := More(ts, es, ts[|es|], Go(0, false));
    GivesUp(t', d, c, c');
    ts, es := More(ts, es, ts[|es|], Take(0, c'));
    ts, es := More(ts, es, ts[|es|], Go(0, false));
    Releases(t', c);
    ts, es := More(ts, es, ts[|es|], Go(0, false));
  }
}
