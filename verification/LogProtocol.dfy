/** The in-memory side of the redo log (v3/log.c): which operations are outstanding,
    which blocks the open transaction has logged, who sleeps on &log.  Each step is one
    section executed under log.lock, or the size test that log_write makes before it takes
    the lock, so a run is any interleaving of these. */
module LogProtocol {
  const MAXOPBLOCKS: nat := 10
  const LOGSIZE: nat := 30    // also the nlog that mkfs writes into the super block

  type OpId = nat

  /** `lh` is log.lh.block[..log.lh.n]; log.outstanding is |ops|.  For each outstanding
      operation `ops` counts the blocks it added to `lh`; those in `passed` are past the
      size test of a log_write and have yet to take the lock.  `waiting` are the pids asleep
      on &log in begin_op; `next` makes operation identities fresh. */
  datatype Proto = Proto(
    lh: seq<nat>, ops: map<OpId, nat>, passed: set<OpId>, waiting: set<nat>, committing: bool, next: OpId)

  const INIT := Proto([], map[], {}, {}, false, 0)

  datatype Step =
    | Sleep(pid: nat)              // begin_op finds no room and goes to sleep
    | Wake(pid: nat)               // kill() makes one sleeper runnable
    | Begin(pid: nat)              // begin_op succeeds
    | Test(op: OpId)               // log_write passes its size test, without the lock
    | Append(op: OpId, blockno: nat)   // the locked section of log_write
    | End(op: OpId)                // first locked section of end_op
    | Clear                        // commit() sets log.lh.n = 0
    | Done                         // second locked section of end_op

  predicate MustWait(s: Proto) {
    s.committing || |s.lh| + (|s.ops| + 1) * MAXOPBLOCKS > LOGSIZE
  }

  /** The "too big a transaction" test, made before absorption is looked for. */
  predicate Panics(s: Proto, size: nat) {
    |s.lh| >= LOGSIZE || |s.lh| >= size - 1
  }

  predicate Enabled(s: Proto, size: nat, step: Step) {
    match step
    case Sleep(pid) => pid !in s.waiting && MustWait(s)
    case Wake(pid) => pid in s.waiting
    case Begin(pid) => pid !in s.waiting && !MustWait(s)
    case Test(op) => op in s.ops && op !in s.passed && !Panics(s, size)
    case Append(op, _) => op in s.ops && op in s.passed
    case End(op) => op in s.ops && op !in s.passed
    case Clear => s.committing
    case Done => s.committing && s.lh == []
  }

  function Absorb(lh: seq<nat>, b: nat): seq<nat> {
    if b in lh then lh else lh + [b]
  }

  function Do(s: Proto, size: nat, step: Step): Proto
    requires Enabled(s, size, step)
  {
    match step
    case Sleep(pid) => s.(waiting := s.waiting + {pid})
    case Wake(pid) => s.(waiting := s.waiting - {pid})
    case Begin(_) => s.(ops := s.ops[s.next := 0], next := s.next + 1)
    case Test(op) => s.(passed := s.passed + {op})
    case Append(op, b) =>
      s.(lh := Absorb(s.lh, b), ops := if b in s.lh then s.ops else s.ops[op := s.ops[op] + 1],
         passed := s.passed - {op})
    case End(op) =>
      var ops := s.ops - {op};
      if |ops| == 0 then s.(ops := ops, committing := true) else s.(ops := ops, waiting := {})
    case Clear => s.(lh := [])
    case Done => s.(committing := false, waiting := {})
  }

  predicate NoDuplicates(xs: seq<nat>) {
    forall i, j :: 0 <= i < j < |xs| ==> xs[i] != xs[j]
  }

  predicate Inv(s: Proto) {
    && NoDuplicates(s.lh)
    && (s.committing ==> s.ops == map[])
    && (s.ops == map[] && !s.committing ==> s.lh == [])
    && (s.waiting != {} ==> MustWait(s))
    && (forall p :: p in s.ops ==> p < s.next)
    && s.passed <= s.ops.Keys
  }

  lemma StepKeepsInv(s: Proto, size: nat, step: Step)
    requires Inv(s) && Enabled(s, size, step)
    ensures Inv(Do(s, size, step))
  {
    match step
    case Begin(_) => assert s.next in s.ops[s.next := 0];
    case Append(op, _) => assert op in Do(s, size, step).ops;
    case End(op) =>
      var ops := s.ops - {op};
      assert ops == map[] <==> |ops| == 0;
    case _ =>
  }

  /** ss are the states passed through by the steps, from the freshly booted log. */
  ghost predicate Run(size: nat, ss: seq<Proto>, steps: seq<Step>) {
    && |ss| == |steps| + 1 && ss[0] == INIT
    && forall i :: 0 <= i < |steps| ==> Enabled(ss[i], size, steps[i]) && ss[i + 1] == Do(ss[i], size, steps[i])
  }

  /** Over every run: the logged list has no duplicates, a commit has no outstanding
      operation beside it, and a sleeper in begin_op always has someone left to wake it. */
  lemma {:induction false} EveryRunKeepsInv(size: nat, ss: seq<Proto>, steps: seq<Step>, i: nat)
    requires Run(size, ss, steps) && i < |ss|
    ensures Inv(ss[i])
    ensures ss[i].waiting != {} ==> ss[i].committing || ss[i].ops != map[]
  {
    if i > 0 {
      EveryRunKeepsInv(size, ss, steps, i - 1);
      StepKeepsInv(ss[i - 1], size, steps[i - 1]);
    }
  }

  // Reservation of log space

  /** What operations that may each add k blocks have not yet added. */
  ghost function Unspent(ops: map<OpId, nat>, k: nat): nat
    requires WithinBudget(ops, k)
  {
    if ops == map[] then 0 else
      var p :| p in ops;
      k - ops[p] + Unspent(ops - {p}, k)
  }

  ghost predicate WithinBudget(ops: map<OpId, nat>, k: nat) {
    forall p :: p in ops ==> ops[p] <= k
  }

  /** States in which no operation has added more than k blocks. */
  ghost predicate Frugal(k: nat, ss: seq<Proto>) {
    forall j :: 0 <= j < |ss| ==> WithinBudget(ss[j].ops, k)
  }

  lemma {:induction false} UnspentRemove(ops: map<OpId, nat>, k: nat, p: OpId)
    requires p in ops && WithinBudget(ops, k)
    ensures Unspent(ops, k) == k - ops[p] + Unspent(ops - {p}, k)
    decreases |ops|
  {
    var c :| c in ops && Unspent(ops, k) == k - ops[c] + Unspent(ops - {c}, k);
    if c != p {
      UnspentRemove(ops - {c}, k, p);
      UnspentRemove(ops - {p}, k, c);
      assert ops - {c} - {p} == ops - {p} - {c};
    }
  }

  lemma UnspentSet(ops: map<OpId, nat>, k: nat, p: OpId, v: nat)
    requires v <= k && WithinBudget(ops, k)
    ensures Unspent(ops[p := v], k) == k - v + Unspent(ops - {p}, k)
    ensures p !in ops ==> ops - {p} == ops
  {
    UnspentRemove(ops[p := v], k, p);
    assert ops[p := v] - {p} == ops - {p};
  }

  lemma OneMore(k: nat, n: nat)
    ensures k * (n + 1) == k * n + k
  {
  }

  lemma {:induction false} UnspentAtMost(ops: map<OpId, nat>, k: nat)
    requires WithinBudget(ops, k)
    ensures Unspent(ops, k) <= k * |ops|
    decreases |ops|
  {
    if ops != map[] {
      var p :| p in ops;
      assert |ops| == |ops - {p}| + 1 by { assert (ops - {p}).Keys == ops.Keys - {p}; }
      UnspentRemove(ops, k, p);
      UnspentAtMost(ops - {p}, k);
      OneMore(k, |ops - {p}|);
    }
  }

  /** The space that operations adding at most k blocks each can come to need: a second operation is let in
      only while two reservations of MAXOPBLOCKS fit beside what is logged. */
  function Ceiling(k: nat): nat {
    LOGSIZE - 2 * MAXOPBLOCKS + 2 * k
  }

  /** m more operations fit if the test of begin_op passes for them at MAXOPBLOCKS each. */
  lemma FitsBelow(n: nat, m: nat, k: nat)
    requires k <= MAXOPBLOCKS && m >= 2 && n + m * MAXOPBLOCKS <= LOGSIZE
    ensures n + k * m <= Ceiling(k)
  {
    assert (MAXOPBLOCKS - k) * m >= (MAXOPBLOCKS - k) * 2;
  }

  lemma StepKeepsReservation(s: Proto, size: nat, step: Step, k: nat)
    requires Inv(s) && Enabled(s, size, step) && k <= MAXOPBLOCKS
    requires WithinBudget(s.ops, k) && WithinBudget(Do(s, size, step).ops, k)
    requires |s.lh| + Unspent(s.ops, k) <= Ceiling(k)
    ensures |Do(s, size, step).lh| + Unspent(Do(s, size, step).ops, k) <= Ceiling(k)
  {
    match step
    case Begin(_) =>
      UnspentSet(s.ops, k, s.next, 0);
      UnspentAtMost(s.ops, k);
      if s.ops != map[] {
        assert |s.ops.Keys| >= 1;
        FitsBelow(|s.lh|, |s.ops| + 1, k);
        OneMore(k, |s.ops|);
      }
    case Append(op, b) =>
      if b !in s.lh {
        assert s.ops[op] + 1 <= k by { assert op in Do(s, size, step).ops; }
        UnspentRemove(s.ops, k, op);
        UnspentSet(s.ops, k, op, s.ops[op] + 1);
      }
    case End(op) =>
      UnspentRemove(s.ops, k, op);
    case _ =>
  }

  /** If no operation ever adds more than k <= MAXOPBLOCKS blocks, then in every state of every run the
      logged blocks plus all unspent reservations stay within Ceiling(k), which is LOGSIZE for MAXOPBLOCKS. */
  lemma {:induction false} ReservationHolds(size: nat, ss: seq<Proto>, steps: seq<Step>, k: nat, i: nat)
    requires Run(size, ss, steps) && i < |ss| && k <= MAXOPBLOCKS && Frugal(k, ss)
    ensures |ss[i].lh| + Unspent(ss[i].ops, k) <= Ceiling(k)
  {
    hide Inv, Do, Enabled;
    if i == 0 {
      assert ss[0].ops == map[];
    } else {
      var s, step := ss[i - 1], steps[i - 1];
      ReservationHolds(size, ss, steps, k, i - 1);
      EveryRunKeepsInv(size, ss, steps, i - 1);
      assert ss[i] == Do(s, size, step);
      assert WithinBudget(ss[i].ops, k);
      StepKeepsReservation(s, size, step, k);
    }
  }

  // When "too big a transaction" can strike

  /** A run in which no operation adds more than k blocks ends where log_write would panic. */
  ghost predicate PanicRun(size: nat, k: nat, ss: seq<Proto>, steps: seq<Step>) {
    Run(size, ss, steps) && Frugal(k, ss) && Panics(ss[|steps|], size)
  }

  ghost predicate PanicReachable(size: nat, k: nat) {
    exists ss: seq<Proto>, steps: seq<Step> :: PanicRun(size, k, ss, steps)
  }

  /** Some such run leaves an operation that still has budget, and so a reason to call log_write. */
  ghost predicate PanicWithinBudget(size: nat, k: nat) {
    exists ss: seq<Proto>, steps: seq<Step>, p: OpId ::
      PanicRun(size, k, ss, steps) && p in ss[|steps|].ops && ss[|steps|].ops[p] < k
  }

  /** The state of the witness run after three begin_ops and n log_writes of the blocks from `b` on, with `passed`
      past the size test: ten blocks by the first operation, nine by each of the others, then one more by each. */
  function Filled(b: nat, n: nat, passed: set<OpId>): Proto
    requires n <= LOGSIZE
  {
    Proto(seq(n, i requires 0 <= i < n => b + i), FilledOps(n), passed, {}, false, 3)
  }

  function FilledOps(n: nat): map<OpId, nat> {
    map[0 := if n < 10 then n else 10,
        1 := if n < 10 then 0 else if n < 19 then n - 10 else if n < 29 then 9 else 10,
        2 := if n < 19 then 0 else if n < 28 then n - 19 else if n < 30 then 9 else 10]
  }

  /** Who adds the n-th block. */
  function Filler(n: nat): OpId {
    if n < 10 then 0 else if n < 19 then 1 else if n < 28 then 2 else if n < 29 then 1 else 2
  }

  lemma ThreeBegins(b: nat) returns (ss: seq<Proto>, steps: seq<Step>)
    ensures Run(LOGSIZE, ss, steps) && ss[|steps|] == Filled(b, 0, {}) && Frugal(MAXOPBLOCKS, ss)
    ensures Logs(steps, b)
  {
    var s1 := INIT.(ops := map[0 := 0], next := 1);
    var s2 := INIT.(ops := map[0 := 0, 1 := 0], next := 2);
    assert Do(INIT, LOGSIZE, Begin(0)) == s1;
    assert |s1.ops| == 1;
    assert Do(s1, LOGSIZE, Begin(1)) == s2;
    assert |s2.ops| == 2;
    assert Do(s2, LOGSIZE, Begin(2)) == Filled(b, 0, {});
    ss, steps := [INIT, s1, s2, Filled(b, 0, {})], [Begin(0), Begin(1), Begin(2)];
  }

  /** Operations begin and log blocks from `b` on, at most LOGSIZE of them; none ends. */
  predicate Logs(steps: seq<Step>, b: nat) {
    forall i :: 0 <= i < |steps| ==>
      steps[i].Begin? || steps[i].Test? || (steps[i].Append? && b <= steps[i].blockno < b + LOGSIZE)
  }

  lemma FillerCounts(n: nat)
    requires n < LOGSIZE
    ensures Filler(n) in FilledOps(n)
    ensures FilledOps(n)[Filler(n) := FilledOps(n)[Filler(n)] + 1] == FilledOps(n + 1)
  {
  }

  lemma TestFilled(b: nat, n: nat, passed: set<OpId>, op: OpId)
    requires n < 29 && op < 3 && op !in passed
    ensures Enabled(Filled(b, n, passed), LOGSIZE, Test(op))
    ensures Do(Filled(b, n, passed), LOGSIZE, Test(op)) == Filled(b, n, passed + {op})
  {
  }

  lemma AppendFilled(b: nat, n: nat, passed: set<OpId>)
    requires n < LOGSIZE && Filler(n) in passed
    ensures Enabled(Filled(b, n, passed), LOGSIZE, Append(Filler(n), b + n))
    ensures Do(Filled(b, n, passed), LOGSIZE, Append(Filler(n), b + n)) == Filled(b, n + 1, passed - {Filler(n)})
  {
    hide FilledOps, Filler;
    var s := Filled(b, n, passed);
    FillerCounts(n);
    assert b + n !in s.lh;
    assert s.lh + [b + n] == Filled(b, n + 1, passed).lh;
  }

  lemma RunMore(ss: seq<Proto>, steps: seq<Step>, step: Step, b: nat) returns (ss': seq<Proto>, steps': seq<Step>)
    requires Run(LOGSIZE, ss, steps) && Frugal(MAXOPBLOCKS, ss) && Logs(steps, b)
    requires Enabled(ss[|steps|], LOGSIZE, step) && Logs([step], b)
    requires WithinBudget(Do(ss[|steps|], LOGSIZE, step).ops, MAXOPBLOCKS)
    ensures Run(LOGSIZE, ss', steps') && Frugal(MAXOPBLOCKS, ss') && Logs(steps', b)
    ensures ss'[|steps'|] == Do(ss[|steps|], LOGSIZE, step)
  {
    hide Enabled, Do, WithinBudget;
    assert [step][0] == step;
    ss', steps' := ss + [Do(ss[|steps|], LOGSIZE, step)], steps + [step];
  }

  lemma {:induction false} FillLog(b: nat, n: nat) returns (ss: seq<Proto>, steps: seq<Step>)
    requires n <= 28
    ensures Run(LOGSIZE, ss, steps) && ss[|steps|] == Filled(b, n, {}) && Frugal(MAXOPBLOCKS, ss) && Logs(steps, b)
  {
    hide Run, Enabled, Do, Frugal;
    if n == 0 {
      ss, steps := ThreeBegins(b);
    } else {
      var op := Filler(n - 1);
      ss, steps := FillLog(b, n - 1);
      TestFilled(b, n - 1, {}, op);
      ss, steps := RunMore(ss, steps, Test(op), b);
      assert {} + {op} == {op} && {op} - {op} == {};
      AppendFilled(b, n - 1, {op});
      ss, steps := RunMore(ss, steps, Append(op, b + n - 1), b);
    }
  }

  /** The 29th block is one more log_write. */
  lemma FillToPanic(b: nat) returns (ss: seq<Proto>, steps: seq<Step>)
    ensures Run(LOGSIZE, ss, steps) && Frugal(MAXOPBLOCKS, ss)
    ensures var s := ss[|steps|]; Panics(s, LOGSIZE) && 2 in s.ops && s.ops[2] == 9
  {
    hide Run, Enabled, Do, Frugal;
    ss, steps := FillLog(b, 28);
    TestFilled(b, 28, {}, 1);
    ss, steps := RunMore(ss, steps, Test(1), b);
    assert {} + {1} == {1};
    AppendFilled(b, 28, {1});
    ss, steps := RunMore(ss, steps, Append(1, b + 28), b);
  }

  /** Two operations pass the size test before either adds its block: the log ends up full without a panic. */
  lemma Overfill(b: nat) returns (ss: seq<Proto>, steps: seq<Step>)
    ensures Run(LOGSIZE, ss, steps) && Frugal(MAXOPBLOCKS, ss) && Logs(steps, b)
    ensures ss[|steps|] == Filled(b, LOGSIZE, {})
  {
    hide Run, Enabled, Do, Frugal;
    ss, steps := FillLog(b, 28);
    TestFilled(b, 28, {}, 1);
    ss, steps := RunMore(ss, steps, Test(1), b);
    TestFilled(b, 28, {} + {1}, 2);
    ss, steps := RunMore(ss, steps, Test(2), b);
    assert {} + {1} + {2} == {1, 2} && {1, 2} - {1} == {2} && {2} - {2} == {};
    AppendFilled(b, 28, {1, 2});
    ss, steps := RunMore(ss, steps, Append(1, b + 28), b);
    AppendFilled(b, 29, {2});
    ss, steps := RunMore(ss, steps, Append(2, b + 29), b);
  }

  /** On the disk mkfs makes, nlog is LOGSIZE and the promised MAXOPBLOCKS per operation is one too many: a
      panic can be reached exactly when operations may add ten blocks.  With fewer no state of any run
      panics, whoever calls log_write; with ten even an operation that has budget left can. */
  lemma PanicExactlyAtFullBudget(k: nat)
    ensures PanicReachable(LOGSIZE, k) <==> k >= MAXOPBLOCKS
    ensures PanicWithinBudget(LOGSIZE, k) <==> k >= MAXOPBLOCKS
  {
    if k >= MAXOPBLOCKS {
      var ss, steps := FillToPanic(0);
      assert PanicRun(LOGSIZE, k, ss, steps) && 2 in ss[|steps|].ops && ss[|steps|].ops[2] < k;
    } else {
      forall ss: seq<Proto>, steps: seq<Step> ensures !PanicRun(LOGSIZE, k, ss, steps) {
        if PanicRun(LOGSIZE, k, ss, steps) {
          ReservationHolds(LOGSIZE, ss, steps, k, |steps|);
        }
      }
    }
  }

  // When the log outgrows its area

  /** A run in which no operation adds more than k blocks logs more of them than the log area has room for
      behind its header. */
  ghost predicate OverrunRun(size: nat, k: nat, ss: seq<Proto>, steps: seq<Step>) {
    Run(size, ss, steps) && Frugal(k, ss) && |ss[|steps|].lh| >= size
  }

  ghost predicate OverrunReachable(size: nat, k: nat) {
    exists ss: seq<Proto>, steps: seq<Step> :: OverrunRun(size, k, ss, steps)
  }

  /** The size test of log_write does not keep the log inside its area, because the lock is taken after it.  On the
      disk mkfs makes, the area can be outgrown exactly when operations may add the promised ten blocks. */
  lemma OverrunExactlyAtFullBudget(k: nat)
    ensures OverrunReachable(LOGSIZE, k) <==> k >= MAXOPBLOCKS
  {
    if k >= MAXOPBLOCKS {
      var ss, steps := Overfill(0);
      assert OverrunRun(LOGSIZE, k, ss, steps);
    } else {
      forall ss: seq<Proto>, steps: seq<Step> ensures !OverrunRun(LOGSIZE, k, ss, steps) {
        if OverrunRun(LOGSIZE, k, ss, steps) {
          ReservationHolds(LOGSIZE, ss, steps, k, |steps|);
        }
      }
    }
  }
}
