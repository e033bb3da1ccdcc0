/** Whole runs of the logging system (v3/log.c) with crashes anywhere: operations of the log
    protocol interleave, commit and recovery write one disk block per step, and a crash may
    replace any step, recovery included. */
module CrashRuns {
  import opened Blocks
  import opened LogProtocol
  import opened RedoLog

  /** One log_write: operation `op` gave block `blockno` the contents `data`. */
  datatype Update = Update(op: OpId, blockno: nat, data: Block)

  datatype Mode =
    | Up
    | Committing(from: Disk, blks: seq<nat>, done: nat)   // `done` block writes made since `from`
    | Recovering(from: Disk, done: nat)

  /** `hist` are the updates that survive on disk or in the cache; `hist[..cut]` are those
      whose commit header has been written. */
  datatype Sys = Sys(proto: Proto, disk: Disk, hist: seq<Update>, cut: nat, mode: Mode)

  datatype Event = Op(step: Step, data: Block) | DiskWrite | Recovered | Crash

  predicate AllHome(lay: Layout, base: Disk, h: seq<Update>) {
    forall i :: 0 <= i < |h| ==> Home(lay, base, h[i].blockno)
  }

  /** The logical contents of the disk after the updates h: what the cache shows. */
  function Play(lay: Layout, base: Disk, h: seq<Update>): (r: Disk)
    requires AllHome(lay, base, h)
    ensures |r| == |base|
  {
    if h == [] then base else
      var u := h[|h| - 1];
      Play(lay, base, h[..|h| - 1])[u.blockno := u.data]
  }

  /** The block writes of this mode land inside the disk and on distinct home blocks. */
  ghost predicate Placed(lay: Layout, base: Disk, s: Sys) {
    && LayoutOk(lay, base) && AllHome(lay, base, s.hist) && s.cut <= |s.hist|
    && match s.mode
       case Up => true
       case Committing(from, blks, done) =>
         |from| == |base| && Listed(lay, from, blks) && done <= 2 * |blks| + 2
       case Recovering(from, done) =>
         GoodHead(lay, from) && done <= HeadCount(from[lay.start]) + 1
  }

  ghost predicate EventEnabled(lay: Layout, base: Disk, s: Sys, e: Event)
    requires Placed(lay, base, s)
  {
    match e
    case Op(step, _) =>
      && Enabled(s.proto, lay.size, step)
      && (step.Append? ==> Home(lay, base, step.blockno))
      && (match s.mode
          case Up => !step.Clear? && !step.Done?
          case Committing(_, blks, done) =>
            if step.Clear? then blks != [] && done == 2 * |blks| + 1
            else if step.Done? then blks == [] || done == 2 * |blks| + 2
            else true
          case Recovering(_, _) => false)
    case DiskWrite =>
      (match s.mode
       case Up => false
       case Committing(_, blks, done) =>
         blks != [] && (done < 2 * |blks| + 1 || (done == 2 * |blks| + 1 && s.proto.lh == []))
       case Recovering(from, done) => done < HeadCount(from[lay.start]) + 1)
    case Recovered => s.mode.Recovering? && s.mode.done == HeadCount(s.mode.from[lay.start]) + 1
    case Crash => true
  }

  ghost function Next(lay: Layout, base: Disk, s: Sys, e: Event): Sys
    requires Placed(lay, base, s) && EventEnabled(lay, base, s, e)
  {
    match e
    case Op(step, data) =>
      var proto := Do(s.proto, lay.size, step);
      var hist := if step.Append? then s.hist + [Update(step.op, step.blockno, data)] else s.hist;
      var mode :=
        if step.End? && proto.committing then Committing(s.disk, proto.lh, 0)
        else if step.Done? then Up
        else s.mode;
      s.(proto := proto, hist := hist, mode := mode)
    case DiskWrite =>
      (match s.mode
       case Committing(from, blks, done) =>
         s.(disk := CommitImage(lay, from, blks, Play(lay, base, s.hist), done + 1),
            cut := if done == |blks| then |s.hist| else s.cut,   // the header write
            mode := Committing(from, blks, done + 1))
       case Recovering(from, done) =>
         s.(disk := RecoveryImage(lay, from, done + 1), mode := Recovering(from, done + 1)))
    case Recovered => s.(mode := Up)
    case Crash =>
      Sys(INIT.(next := s.proto.next), s.disk, s.hist[..s.cut], s.cut, Recovering(s.disk, 0))
  }

  /** The first boot finds any disk with a well-formed log header and recovers it. */
  ghost predicate Boot(lay: Layout, d: Disk, base: Disk, s: Sys) {
    && GoodHead(lay, d) && base == RedoLog.Recovered(lay, d)
    && s == Sys(INIT, d, [], 0, Recovering(d, 0))
  }

  ghost predicate CrashRun(lay: Layout, base: Disk, d: Disk, ss: seq<Sys>, es: seq<Event>) {
    && |ss| == |es| + 1 && Boot(lay, d, base, ss[0])
    && forall i :: 0 <= i < |es| ==>
         && Placed(lay, base, ss[i]) && EventEnabled(lay, base, ss[i], es[i])
         && ss[i + 1] == Next(lay, base, ss[i], es[i])
  }

  // The invariant

  ghost predicate Covers(blks: seq<nat>, h: seq<Update>) {
    forall i :: 0 <= i < |h| ==> h[i].blockno in blks
  }

  /** No operation has updates on both sides of the cut. */
  ghost predicate WholeOps(h: seq<Update>, cut: nat)
    requires cut <= |h|
  {
    forall i, j :: 0 <= i < cut <= j < |h| ==> h[i].op != h[j].op
  }

  ghost predicate Idle(lay: Layout, d: Disk) {
    LayoutOk(lay, d) && HeadCount(d[lay.start]) == 0
  }

  ghost predicate HistInv(s: Sys) {
    && s.cut <= |s.hist|
    && WholeOps(s.hist, s.cut)
    && (forall i :: 0 <= i < |s.hist| ==> s.hist[i].op < s.proto.next)
    && (forall i :: 0 <= i < s.cut ==> s.hist[i].op !in s.proto.ops)
  }

  ghost predicate DiskInv(lay: Layout, base: Disk, s: Sys)
    requires Placed(lay, base, s)
  {
    var durable := Play(lay, base, s.hist[..s.cut]);
    var view := Play(lay, base, s.hist);
    match s.mode
    case Up => Idle(lay, s.disk) && SameHome(lay, s.disk, durable) && Covers(s.proto.lh, s.hist[s.cut..])
    case Committing(from, blks, done) =>
      && Idle(lay, from)
      && s.disk == (if blks == [] then from else CommitImage(lay, from, blks, view, done))
      && SameHome(lay, Updated(from, blks, view), view)
      && (done <= |blks| ==> SameHome(lay, from, durable) && Covers(blks, s.hist[s.cut..]))
      && (done > |blks| ==> s.cut == |s.hist|)
      && (blks == [] ==> done == 0)
      && (s.proto.lh == blks || (s.proto.lh == [] && done > |blks|)) && (done == 2 * |blks| + 2 ==> s.proto.lh == [])
    case Recovering(from, done) =>
      && s.disk == RecoveryImage(lay, from, done)
      && SameHome(lay, RedoLog.Recovered(lay, from), durable)
      && s.cut == |s.hist| && s.proto.lh == [] && s.proto.ops == map[]
  }

  ghost predicate SysInv(lay: Layout, base: Disk, s: Sys) {
    && Placed(lay, base, s) && HistInv(s) && LogProtocol.Inv(s.proto)
    && (s.proto.committing <==> s.mode.Committing?)
    && HomeList(lay, base, s.proto.lh) && (s.mode.Committing? ==> |s.mode.blks| < lay.size)
    && DiskInv(lay, base, s)
  }

  // Facts about Play

  lemma {:induction false} PlayAt(lay: Layout, base: Disk, h: seq<Update>, cut: nat, b: nat)
    requires AllHome(lay, base, h) && cut <= |h| && b < |base|
    requires forall i :: cut <= i < |h| ==> h[i].blockno != b
    ensures AllHome(lay, base, h[..cut])
    ensures Play(lay, base, h)[b] == Play(lay, base, h[..cut])[b]
  {
    if cut < |h| {
      PlayAt(lay, base, h[..|h| - 1], cut, b);
      assert h[..|h| - 1][..cut] == h[..cut];
      assert h[|h| - 1].blockno != b;
    } else {
      assert h[..cut] == h;
    }
  }

  /** Writing back the logged blocks brings the durable disk up to the logical one. */
  lemma UpdatedIsView(lay: Layout, base: Disk, d: Disk, h: seq<Update>, cut: nat, blks: seq<nat>)
    requires AllHome(lay, base, h) && cut <= |h| && Covers(blks, h[cut..]) && |d| == |base|
    requires AllHome(lay, base, h[..cut]) && SameHome(lay, d, Play(lay, base, h[..cut]))
    ensures SameHome(lay, Updated(d, blks, Play(lay, base, h)), Play(lay, base, h))
  {
    forall b: nat | Home(lay, d, b) && b !in blks
      ensures d[b] == Play(lay, base, h)[b]
    {
      forall i | cut <= i < |h|
        ensures h[i].blockno != b
      {
        assert h[cut..][i - cut] == h[i];
      }
      PlayAt(lay, base, h, cut, b);
    }
  }

  // Each kind of event keeps the invariant, as long as the log fits its area

  predicate Contained(lay: Layout, s: Sys) {
    |s.proto.lh| <= LOGSIZE && |s.proto.lh| < lay.size
  }

  lemma AppendKeepsInv(lay: Layout, base: Disk, s: Sys, e: Event)
    requires SysInv(lay, base, s) && EventEnabled(lay, base, s, e) && e.Op? && e.step.Append?
    requires Contained(lay, Next(lay, base, s, e))
    ensures SysInv(lay, base, Next(lay, base, s, e))
  {
    var s' := Next(lay, base, s, e);
    StepKeepsInv(s.proto, lay.size, e.step);
    assert e.step.op in s.proto.ops && s.mode.Up?;
    assert s'.hist[..s.cut] == s.hist[..s.cut];
    assert s'.hist[s.cut..] == s.hist[s.cut..] + [Update(e.step.op, e.step.blockno, e.data)];
    assert HistInv(s');
    assert forall i :: 0 <= i < |s'.proto.lh| ==> Home(lay, base, s'.proto.lh[i]);
  }

  lemma EndKeepsInv(lay: Layout, base: Disk, s: Sys, e: Event)
    requires SysInv(lay, base, s) && EventEnabled(lay, base, s, e) && e.Op? && e.step.End?
    ensures SysInv(lay, base, Next(lay, base, s, e))
  {
    var s' := Next(lay, base, s, e);
    StepKeepsInv(s.proto, lay.size, e.step);
    assert s.mode.Up?;
    if s'.proto.committing {
      UpdatedIsView(lay, base, s.disk, s.hist, s.cut, s.proto.lh);
      assert forall i :: 0 <= i < |s.proto.lh| ==> Home(lay, base, s.proto.lh[i]) && Home(lay, s.disk, s.proto.lh[i]);
    }
  }

  lemma DoneIsIdle(lay: Layout, base: Disk, s: Sys)
    requires SysInv(lay, base, s) && s.mode.Committing? && s.proto.lh == []
    requires s.mode.blks == [] || s.mode.done == 2 * |s.mode.blks| + 2
    ensures Idle(lay, s.disk) && SameHome(lay, s.disk, Play(lay, base, s.hist[..s.cut]))
    ensures Covers([], s.hist[s.cut..])
  {
    var Committing(from, blks, done) := s.mode;
    var view := Play(lay, base, s.hist);
    if blks != [] {
      assert s.hist[..s.cut] == s.hist;
      SealedRecovers(lay, from, blks, view);
      HeadRoundTrip(Sealed(lay, from, blks, view)[lay.start], []);
      assert s.disk == RedoLog.Recovered(lay, Sealed(lay, from, blks, view));
    }
  }

  lemma DoneKeepsInv(lay: Layout, base: Disk, s: Sys, e: Event)
    requires SysInv(lay, base, s) && EventEnabled(lay, base, s, e) && e.Op? && e.step.Done?
    ensures SysInv(lay, base, Next(lay, base, s, e))
  {
    StepKeepsInv(s.proto, lay.size, e.step);
    DoneIsIdle(lay, base, s);
  }

  lemma OpKeepsInv(lay: Layout, base: Disk, s: Sys, e: Event)
    requires SysInv(lay, base, s) && EventEnabled(lay, base, s, e) && e.Op?
    requires Contained(lay, Next(lay, base, s, e))
    ensures SysInv(lay, base, Next(lay, base, s, e))
  {
    hide SameHome, Play, Updated, CommitImage, RecoveryImage, RedoLog.Recovered, Covers;
    match e.step
    case Append(_, _) => AppendKeepsInv(lay, base, s, e);
    case End(_) => EndKeepsInv(lay, base, s, e);
    case Done => DoneKeepsInv(lay, base, s, e);
    case _ => StepKeepsInv(s.proto, lay.size, e.step);
  }

  lemma WriteKeepsInv(lay: Layout, base: Disk, s: Sys)
    requires SysInv(lay, base, s) && EventEnabled(lay, base, s, DiskWrite)
    ensures SysInv(lay, base, Next(lay, base, s, DiskWrite))
  {
    hide SameHome, Play, Updated, CommitImage, RecoveryImage, RedoLog.Recovered, Covers;
    var s' := Next(lay, base, s, DiskWrite);
    assert s'.hist[..s'.cut] == s.hist[..s'.cut];
    assert s.hist[..|s.hist|] == s.hist;
    assert HistInv(s');
    assert DiskInv(lay, base, s');
  }

  lemma CrashKeepsInv(lay: Layout, base: Disk, s: Sys)
    requires SysInv(lay, base, s)
    ensures SysInv(lay, base, Next(lay, base, s, Crash))
  {
    RecoverableNow(lay, base, s);
    var s' := Next(lay, base, s, Crash);
    assert s'.hist[..s'.cut] == s.hist[..s.cut];
    assert Recovering(s.disk, 0) == s'.mode;
  }

  /** Stopping in this state and recovering gives the home blocks of the committed updates. */
  lemma RecoverableNow(lay: Layout, base: Disk, s: Sys)
    requires SysInv(lay, base, s)
    ensures GoodHead(lay, s.disk)
    ensures SameHome(lay, RedoLog.Recovered(lay, s.disk), Play(lay, base, s.hist[..s.cut]))
  {
    match s.mode
    case Up => RecoverIdle(lay, s.disk);
    case Committing(from, blks, done) =>
      if blks == [] {
        RecoverIdle(lay, s.disk);
      } else {
        CommitIsAtomic(lay, from, blks, Play(lay, base, s.hist), done);
        assert done <= |blks| || s.hist[..s.cut] == s.hist;
      }
    case Recovering(from, done) => RecoveryIsRestartable(lay, from, done);
  }

  lemma FinishKeepsInv(lay: Layout, base: Disk, s: Sys)
    requires SysInv(lay, base, s) && EventEnabled(lay, base, s, Recovered)
    ensures SysInv(lay, base, Next(lay, base, s, Recovered))
  {
    HeadRoundTrip(s.mode.from[lay.start], []);
  }

  lemma EventKeepsInv(lay: Layout, base: Disk, s: Sys, e: Event)
    requires SysInv(lay, base, s) && EventEnabled(lay, base, s, e) && Contained(lay, Next(lay, base, s, e))
    ensures SysInv(lay, base, Next(lay, base, s, e))
  {
    match e
    case Op(_, _) => OpKeepsInv(lay, base, s, e);
    case DiskWrite => WriteKeepsInv(lay, base, s);
    case Recovered => FinishKeepsInv(lay, base, s);
    case Crash => CrashKeepsInv(lay, base, s);
  }

  // The budget of the operations keeps the log inside its area

  /** No operation adds more than k blocks, and the log area takes what operations of that size can come to log.
      With nlog as mkfs sets it, LOGSIZE, this means k < MAXOPBLOCKS. */
  ghost predicate Budgeted(lay: Layout, ss: seq<Sys>, k: nat) {
    k <= MAXOPBLOCKS && Ceiling(k) < lay.size && Sparing(ss, k)
  }

  ghost predicate Sparing(ss: seq<Sys>, k: nat) {
    forall j :: 0 <= j < |ss| ==> WithinBudget(ss[j].proto.ops, k)
  }

  ghost predicate Reserved(s: Sys, k: nat) {
    WithinBudget(s.proto.ops, k) && |s.proto.lh| + Unspent(s.proto.ops, k) <= Ceiling(k)
  }

  lemma EventKeepsReserved(lay: Layout, base: Disk, s: Sys, e: Event, k: nat)
    requires Placed(lay, base, s) && EventEnabled(lay, base, s, e) && LogProtocol.Inv(s.proto) && Reserved(s, k)
    requires k <= MAXOPBLOCKS && WithinBudget(Next(lay, base, s, e).proto.ops, k)
    ensures Reserved(Next(lay, base, s, e), k)
  {
    hide Play, CommitImage, RecoveryImage, Inv, Enabled, Do;
    match e
    case Op(step, _) => StepKeepsReservation(s.proto, lay.size, step, k);
    case _ =>
  }

  lemma {:induction false} CrashRunKeepsInv(lay: Layout, base: Disk, d: Disk, ss: seq<Sys>, es: seq<Event>, k: nat,
                                            i: nat)
    requires CrashRun(lay, base, d, ss, es) && Budgeted(lay, ss, k) && i < |ss|
    ensures SysInv(lay, base, ss[i]) && Reserved(ss[i], k)
  {
    hide SysInv, Reserved, EventEnabled, Next, Placed;
    if i == 0 {
      StartInv(lay, base, d, ss[0], k);
    } else {
      CrashRunKeepsInv(lay, base, d, ss, es, k, i - 1);
      assert WithinBudget(ss[i].proto.ops, k);
      InvKeeps(lay, base, ss[i - 1], es[i - 1], k);
    }
  }

  lemma StartInv(lay: Layout, base: Disk, d: Disk, s: Sys, k: nat)
    requires Boot(lay, d, base, s) && k <= MAXOPBLOCKS && Ceiling(k) < lay.size
    ensures SysInv(lay, base, s) && Reserved(s, k)
  {
    assert s.hist[..0] == [];
    assert s.proto.ops == map[];
  }

  lemma InvKeeps(lay: Layout, base: Disk, s: Sys, e: Event, k: nat)
    requires SysInv(lay, base, s) && Reserved(s, k) && Placed(lay, base, s) && EventEnabled(lay, base, s, e)
    requires k <= MAXOPBLOCKS && Ceiling(k) < lay.size && WithinBudget(Next(lay, base, s, e).proto.ops, k)
    ensures SysInv(lay, base, Next(lay, base, s, e)) && Reserved(Next(lay, base, s, e), k)
  {
    hide Placed, EventEnabled, Next, HistInv, DiskInv, HomeList, LogProtocol.Inv;
    EventKeepsReserved(lay, base, s, e, k);
    EventKeepsInv(lay, base, s, e);
  }

  // Main results

  /** Crash safety: pull the plug in any state of any run, with any number of earlier crashes
      and interrupted recoveries.  Recovery then yields exactly the committed updates; no
      operation is committed in part; and all ended operations are committed whenever the
      system is up with none outstanding. */
  lemma CrashSafety(lay: Layout, base: Disk, d: Disk, ss: seq<Sys>, es: seq<Event>, k: nat, i: nat)
    requires CrashRun(lay, base, d, ss, es) && Budgeted(lay, ss, k) && i < |ss|
    ensures var s := ss[i];
      && AllHome(lay, base, s.hist) && s.cut <= |s.hist| && WholeOps(s.hist, s.cut)
      && GoodHead(lay, s.disk)
      && SameHome(lay, RedoLog.Recovered(lay, s.disk), Play(lay, base, s.hist[..s.cut]))
      && (s.mode.Up? && s.proto.ops == map[] ==> s.cut == |s.hist|)
  {
    CrashRunKeepsInv(lay, base, d, ss, es, k, i);
    RecoverableNow(lay, base, ss[i]);
    if ss[i].mode.Up? {
      assert ss[i].cut < |ss[i].hist| ==> ss[i].hist[ss[i].cut..][0].blockno in ss[i].proto.lh;
    }
  }

  lemma EventKeepsCommitted(lay: Layout, base: Disk, s: Sys, e: Event)
    requires Placed(lay, base, s) && EventEnabled(lay, base, s, e)
    ensures var s' := Next(lay, base, s, e);
      s'.cut <= |s'.hist| && s.hist[..s.cut] <= s'.hist[..s'.cut]
  {
  }

  /** Committed updates are never lost, whatever happens later in the run. */
  lemma {:induction false} CommittedStays(lay: Layout, base: Disk, d: Disk, ss: seq<Sys>, es: seq<Event>, i: nat,
                                          j: nat)
    requires CrashRun(lay, base, d, ss, es) && i <= j < |ss|
    ensures ss[i].cut <= |ss[i].hist| && ss[j].cut <= |ss[j].hist|
    ensures ss[i].hist[..ss[i].cut] <= ss[j].hist[..ss[j].cut]
  {
    hide Next, EventEnabled;
    if i < j {
      CommittedStays(lay, base, d, ss, es, i, j - 1);
      EventKeepsCommitted(lay, base, ss[j - 1], es[j - 1]);
    } else if i > 0 {
      EventKeepsCommitted(lay, base, ss[i - 1], es[i - 1]);
    }
  }

  /** Before the header write no home block changes on disk. */
  lemma HomeUntouchedBeforeHeader(lay: Layout, base: Disk, d: Disk, ss: seq<Sys>, es: seq<Event>, k: nat,
                                 i: nat)
    requires CrashRun(lay, base, d, ss, es) && Budgeted(lay, ss, k) && i < |ss|
    requires ss[i].mode.Up? || (ss[i].mode.Committing? && ss[i].mode.done <= |ss[i].mode.blks|)
    ensures AllHome(lay, base, ss[i].hist) && ss[i].cut <= |ss[i].hist|
    ensures SameHome(lay, ss[i].disk, Play(lay, base, ss[i].hist[..ss[i].cut]))
  {
    CrashRunKeepsInv(lay, base, d, ss, es, k, i);
    var s := ss[i];
    if s.mode.Committing? && s.mode.blks != [] {
      CopyToLogAt(lay, s.mode.from, s.mode.blks, Play(lay, base, s.hist), s.mode.done);
    }
  }

  lemma Extend(lay: Layout, base: Disk, d: Disk, ss: seq<Sys>, es: seq<Event>, e: Event)
    returns (ss': seq<Sys>, es': seq<Event>)
    requires CrashRun(lay, base, d, ss, es) && Placed(lay, base, ss[|es|]) && EventEnabled(lay, base, ss[|es|], e)
    ensures ss' == ss + [Next(lay, base, ss[|es|], e)] && es' == es + [e] && CrashRun(lay, base, d, ss', es')
  {
    hide Next, EventEnabled, Placed, Boot;
    ss', es' := ss + [Next(lay, base, ss[|es|], e)], es + [e];
    forall i | 0 <= i < |es'|
      ensures Placed(lay, base, ss'[i]) && EventEnabled(lay, base, ss'[i], es'[i])
      ensures ss'[i + 1] == Next(lay, base, ss'[i], es'[i])
    {
      if i < |es| {
        assert Placed(lay, base, ss[i]);
      }
    }
  }

  /** The placement guard in CrashRun never cuts such a run short. */
  lemma RunsExtend(lay: Layout, base: Disk, d: Disk, ss: seq<Sys>, es: seq<Event>, k: nat, e: Event)
    requires CrashRun(lay, base, d, ss, es) && Budgeted(lay, ss, k)
    ensures Placed(lay, base, ss[|es|])
    ensures EventEnabled(lay, base, ss[|es|], e) ==>
              CrashRun(lay, base, d, ss + [Next(lay, base, ss[|es|], e)], es + [e])
  {
    CrashRunKeepsInv(lay, base, d, ss, es, k, |es|);
    if EventEnabled(lay, base, ss[|es|], e) {
      var _, _ := Extend(lay, base, d, ss, es, e);
    }
  }
}
