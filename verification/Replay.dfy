/** Record and replay of system calls (v3/sysproc.c, v3/sysfile.c, v3/trap.c) over whole runs. */
module Replay {
  import opened Blocks
  import opened Records
  import opened CallRecords
  import opened SyscallBodies

  /** The result of a call, or the caller does not return to user mode and the call has left something behind in
      its memory. */
  datatype Reply = Served(result: Result) | Killed(left: Left)

  // States and runs.  K is everything that the original bodies of the calls read and change.

  datatype State<K> = State(kernel: K, records: seq<Scr>, idx: nat, record: int, replay: int, owner: int,
                            killed: set<int>)

  predicate StateOk<K>(st: State<K>) {
    && |st.records| == MAX_SCRS && st.idx <= MAX_SCRS && !(st.record == 1 && st.replay == 1)
    && (forall i :: 0 <= i < MAX_SCRS ==> st.records[i] == BLANK || Shaped(st.records[i]))
    && (st.record == 1 ==> forall i :: 0 <= i < st.idx ==> st.records[i] != BLANK)
  }

  /** RecRepErr. */
  function Fail<K>(st: State<K>, pid: int): State<K> {
    st.(record := -1, replay := -1, killed := st.killed + {pid})
  }

  predicate IsReplaying<K>(st: State<K>, pid: int) {
    st.replay == 1 && st.owner == pid
  }

  predicate IsRecording<K>(st: State<K>, pid: int) {
    st.record == 1 && st.owner == pid
  }

  /** The caller's arguments are within the limits whenever the engine looks at them. */
  predicate Within<K>(st: State<K>, pid: int, c: Call) {
    IsReplaying(st, pid) || IsRecording(st, pid) ==> Valid(c)
  }

  lemma RecordedIsShaped<K(!new)>(g: Kernel<K>, k: K, c: Call)
    requires Sane(g) && Valid(c)
    ensures Shaped(Recorded(g, k, c).2)
  {
    hide Recorded, Shaped, Record, Fits;
    RecordedIsOriginal(g, k, c);
    RecordGivesResult(c, Kept(g, k, c));
  }

  /** The record that a replayed call is compared with. */
  function Next<K>(st: State<K>): (r: Scr)
    requires StateOk(st)
    ensures r == BLANK || Shaped(r)
  {
    if st.idx < MAX_SCRS then st.records[st.idx] else BLANK
  }

  /** A system call of process pid: the replay, record and original branches. */
  ghost function Serve<K(!new)>(st: State<K>, pid: int, c: Call, g: Kernel<K>): (r: (State<K>, Reply))
    requires StateOk(st) && Sane(g) && Within(st, pid, c)
    ensures StateOk(r.0)
  {
    if pid in st.killed then
      (st, Killed(Wrote(Nothing)))
    else if IsReplaying(st, pid) then
      if Matches(Next(st), c) then (st.(idx := st.idx + 1), Served(ResultOf(Next(st))))
      else (Fail(st.(idx := if st.idx < MAX_SCRS then st.idx + 1 else st.idx), pid), Killed(Spill(c, Next(st))))
    else if IsRecording(st, pid) then
      RecordedIsShaped(g, st.kernel, c);
      var (k, res, scr) := Recorded(g, st.kernel, c);
      if st.idx >= MAX_SCRS then (Fail(st.(kernel := k), pid), Killed(Wrote(res.out)))
      else (st.(kernel := k, records := st.records[st.idx := scr], idx := st.idx + 1), Served(res))
    else
      var (k, res) := Original(g, st.kernel, c);
      (st.(kernel := k), Served(res))
  }

  lemma ServeKilled<K(!new)>(st: State<K>, pid: int, c: Call, g: Kernel<K>)
    requires StateOk(st) && Sane(g) && Within(st, pid, c) && pid in st.killed
    ensures Serve(st, pid, c, g) == (st, Killed(Wrote(Nothing)))
  {
  }

  /** A call by some process. */
  datatype Event = Event(pid: int, call: Call)

  predicate AllValid(es: seq<Event>) {
    forall i :: 0 <= i < |es| ==> Valid(es[i].call)
  }

  /** The state after the first n events. */
  ghost function Run<K(!new)>(st: State<K>, es: seq<Event>, g: Kernel<K>, n: nat): (r: State<K>)
    requires StateOk(st) && Sane(g) && AllValid(es) && n <= |es|
    ensures StateOk(r)
  {
    if n == 0 then st else Serve(Run(st, es, g, n - 1), es[n - 1].pid, es[n - 1].call, g).0
  }

  /** The reply to event n. */
  ghost function ReplyTo<K(!new)>(st: State<K>, es: seq<Event>, g: Kernel<K>, n: nat): Reply
    requires StateOk(st) && Sane(g) && AllValid(es) && n < |es|
  {
    Serve(Run(st, es, g, n), es[n].pid, es[n].call, g).1
  }

  /** How many of the first n events are calls of process pid. */
  function Calls(es: seq<Event>, pid: int, n: nat): (c: nat)
    requires n <= |es|
    ensures c <= n
  {
    if n == 0 then 0 else Calls(es, pid, n - 1) + if es[n - 1].pid == pid then 1 else 0
  }

  // The same events without the engine

  /** The kernel after the first n events when process `skip` is left out. */
  function Plain<K>(k: K, es: seq<Event>, g: Kernel<K>, skip: set<int>, n: nat): K
    requires n <= |es|
  {
    if n == 0 then k
    else
      var before := Plain(k, es, g, skip, n - 1);
      if es[n - 1].pid in skip then before else Original(g, before, es[n - 1].call).0
  }

  function PlainResult<K>(k: K, es: seq<Event>, g: Kernel<K>, n: nat): Result
    requires n < |es|
  {
    Original(g, Plain(k, es, g, {}, n), es[n].call).1
  }

  /** A call while recording: its body is the rewritten one, its effect and result are those of the original. */
  lemma ServeRecords<K(!new)>(st: State<K>, pid: int, c: Call, g: Kernel<K>)
    requires StateOk(st) && st.record == 1 && st.killed == {} && Sane(g) && Valid(c)
    ensures var (k, res) := Original(g, st.kernel, c);
            && (pid != st.owner ==> Serve(st, pid, c, g) == (st.(kernel := k), Served(res)))
            && (pid == st.owner && st.idx < MAX_SCRS ==>
                  Serve(st, pid, c, g) ==
                    (st.(kernel := k, records := st.records[st.idx := Recorded(g, st.kernel, c).2], idx := st.idx + 1),
                     Served(res)))
    ensures Fits(c, Kept(g, st.kernel, c)) && Recorded(g, st.kernel, c).2 == Record(c, Kept(g, st.kernel, c))
  {
    hide Recorded, Original, Shaped, Record, Fits, Matches, Spill, ResultOf, Kept;
    RecordedIsOriginal(g, st.kernel, c);
  }

  lemma {:induction false} TransparentState<K(!new)>(st: State<K>, es: seq<Event>, g: Kernel<K>, n: nat)
    requires StateOk(st) && st.record == 1 && st.killed == {} && Sane(g) && AllValid(es) && n <= |es|
    requires st.idx + Calls(es, st.owner, n) <= MAX_SCRS
    ensures var r := Run(st, es, g, n);
            r == st.(kernel := Plain(st.kernel, es, g, {}, n), records := r.records,
                     idx := st.idx + Calls(es, st.owner, n))
  {
    hide Serve, Original, StateOk;
    if n > 0 {
      TransparentState(st, es, g, n - 1);
      ServeRecords(Run(st, es, g, n - 1), es[n - 1].pid, es[n - 1].call, g);
    }
  }

  lemma {:induction false} CallsMonotone(es: seq<Event>, pid: int, i: nat, n: nat)
    requires i <= n <= |es|
    ensures Calls(es, pid, i) <= Calls(es, pid, n)
    ensures i < n && es[i].pid == pid ==> Calls(es, pid, i) < Calls(es, pid, n)
    decreases n
  {
    if i < n {
      CallsMonotone(es, pid, i, n - 1);
    }
  }

  lemma TransparentReply<K(!new)>(st: State<K>, es: seq<Event>, g: Kernel<K>, n: nat, i: nat)
    requires StateOk(st) && st.record == 1 && st.killed == {} && Sane(g) && AllValid(es) && i < n <= |es|
    requires st.idx + Calls(es, st.owner, n) <= MAX_SCRS
    ensures ReplyTo(st, es, g, i) == Served(PlainResult(st.kernel, es, g, i))
  {
    hide Serve, Original, StateOk, Run, Calls, Plain;
    CallsMonotone(es, st.owner, i, n);
    TransparentState(st, es, g, i);
    ServeRecords(Run(st, es, g, i), es[i].pid, es[i].call, g);
  }

  /** What the record of event n holds when the events start in kernel k. */
  function KeptResult<K>(k: K, es: seq<Event>, g: Kernel<K>, n: nat): Result
    requires n < |es|
  {
    Kept(g, Plain(k, es, g, {}, n), es[n].call)
  }

  /** Recording is transparent: while there is room, every call has the effect and the result
      that it has without the engine. */
  lemma RecordingIsTransparent<K(!new)>(st: State<K>, es: seq<Event>, g: Kernel<K>, n: nat)
    requires StateOk(st) && st.record == 1 && st.killed == {} && Sane(g) && AllValid(es) && n <= |es|
    requires st.idx + Calls(es, st.owner, n) <= MAX_SCRS
    ensures var r := Run(st, es, g, n);
            r == st.(kernel := Plain(st.kernel, es, g, {}, n), records := r.records,
                     idx := st.idx + Calls(es, st.owner, n))
    ensures forall i :: 0 <= i < n ==> ReplyTo(st, es, g, i) == Served(PlainResult(st.kernel, es, g, i))
  {
    hide ReplyTo, PlainResult, StateOk, Run, Calls, Plain;
    TransparentState(st, es, g, n);
    forall i | 0 <= i < n ensures ReplyTo(st, es, g, i) == Served(PlainResult(st.kernel, es, g, i)) {
      TransparentReply(st, es, g, n, i);
    }
  }

  lemma KeptIsPlain<K(!new)>(k: K, es: seq<Event>, g: Kernel<K>, n: nat)
    requires Sane(g) && n < |es|
    ensures Fits(es[n].call, KeptResult(k, es, g, n))
    ensures Opened(g, Plain(k, es, g, {}, n), es[n].call) ==> KeptResult(k, es, g, n) == PlainResult(k, es, g, n)
  {
    hide Original, Recorded, Fits, Record, Kept, Opened;
    RecordedIsOriginal(g, Plain(k, es, g, {}, n), es[n].call);
  }

  /** What event n - 1 does to the table. */
  lemma RecordsGrow<K(!new)>(st: State<K>, es: seq<Event>, g: Kernel<K>, n: nat)
    requires StateOk(st) && st.record == 1 && st.killed == {} && Sane(g) && AllValid(es) && 0 < n <= |es|
    requires st.idx + Calls(es, st.owner, n) <= MAX_SCRS
    ensures Fits(es[n - 1].call, KeptResult(st.kernel, es, g, n - 1))
    ensures var was, at := Run(st, es, g, n - 1).records, st.idx + Calls(es, st.owner, n - 1);
            if es[n - 1].pid == st.owner then
              && at < MAX_SCRS
              && Run(st, es, g, n).records == was[at := Record(es[n - 1].call, KeptResult(st.kernel, es, g, n - 1))]
            else Run(st, es, g, n).records == was
  {
    hide Serve, Original, Recorded, Fits, Record, Shaped, Kept, Plain;
    CallsMonotone(es, st.owner, n - 1, n);
    TransparentState(st, es, g, n - 1);
    var r := Run(st, es, g, n - 1);
    ServeRecords(r, es[n - 1].pid, es[n - 1].call, g);
    assert Run(st, es, g, n) == Serve(r, es[n - 1].pid, es[n - 1].call, g).0;
  }

  /** Each call of the owner appends one record, with its inputs and its result; the output of a read or fstat
      without an open file is stray memory. */
  lemma {:induction false} RecordingKeepsResults<K(!new)>(st: State<K>, es: seq<Event>, g: Kernel<K>, n: nat, i: nat)
    requires StateOk(st) && st.record == 1 && st.killed == {} && Sane(g) && AllValid(es) && i < n <= |es|
    requires st.idx + Calls(es, st.owner, n) <= MAX_SCRS && es[i].pid == st.owner
    ensures st.idx + Calls(es, st.owner, i) < MAX_SCRS && Fits(es[i].call, KeptResult(st.kernel, es, g, i))
    ensures Run(st, es, g, n).records[st.idx + Calls(es, st.owner, i)]
              == Record(es[i].call, KeptResult(st.kernel, es, g, i))
  {
    hide Serve, Run, Fits, Record, Shaped, KeptResult, Calls;
    CallsMonotone(es, st.owner, i, n);
    RecordsGrow(st, es, g, n);
    if i < n - 1 {
      CallsMonotone(es, st.owner, i, n - 1);
      CallsMonotone(es, st.owner, n - 1, n);
      RecordingKeepsResults(st, es, g, n - 1, i);
    }
  }

  /** Event i, if it is a call of the owner, is answered by the record that is next for it. */
  ghost predicate FollowsAt<K>(st: State<K>, es: seq<Event>, i: nat)
    requires StateOk(st) && i < |es|
  {
    var at := st.idx + Calls(es, st.owner, i);
    es[i].pid == st.owner ==> at < MAX_SCRS && Matches(st.records[at], es[i].call)
  }

  /** The owner's calls among the first n events are answered by the records from st.idx on. */
  ghost predicate Follows<K>(st: State<K>, es: seq<Event>, n: nat)
    requires StateOk(st) && n <= |es|
  {
    forall i :: 0 <= i < n ==> FollowsAt(st, es, i)
  }

  /** Event i, if it is a call of the owner, gets the result of the record that was next for it. */
  ghost predicate Answered<K(!new)>(st: State<K>, es: seq<Event>, g: Kernel<K>, i: nat)
    requires StateOk(st) && Sane(g) && AllValid(es) && i < |es| && FollowsAt(st, es, i)
  {
    es[i].pid == st.owner ==> ReplyTo(st, es, g, i) == Served(ResultOf(st.records[st.idx + Calls(es, st.owner, i)]))
  }

  /** One call during a replay that its record answers, or that is somebody else's. */
  lemma ServeFollows<K(!new)>(st: State<K>, pid: int, c: Call, g: Kernel<K>)
    requires StateOk(st) && st.replay == 1 && st.killed == {} && Sane(g) && Valid(c)
    ensures pid != st.owner ==> Serve(st, pid, c, g).0 == st.(kernel := Original(g, st.kernel, c).0)
    ensures pid == st.owner && st.idx < MAX_SCRS && Matches(st.records[st.idx], c) ==>
              Serve(st, pid, c, g) == (st.(idx := st.idx + 1), Served(ResultOf(st.records[st.idx])))
  {
    hide Matches, ResultOf, Shaped;
  }

  lemma {:induction false} ReplayState<K(!new)>(st: State<K>, es: seq<Event>, g: Kernel<K>, n: nat)
    requires StateOk(st) && st.replay == 1 && st.killed == {} && Sane(g) && AllValid(es) && n <= |es|
    requires Follows(st, es, n)
    ensures Run(st, es, g, n)
         == st.(kernel := Plain(st.kernel, es, g, {st.owner}, n), idx := st.idx + Calls(es, st.owner, n))
  {
    hide Matches, ResultOf, Serve, StateOk;
    if n > 0 {
      ReplayState(st, es, g, n - 1);
      assert FollowsAt(st, es, n - 1);
      ServeFollows(Run(st, es, g, n - 1), es[n - 1].pid, es[n - 1].call, g);
    }
  }

  lemma ReplayReply<K(!new)>(st: State<K>, es: seq<Event>, g: Kernel<K>, i: nat)
    requires StateOk(st) && st.replay == 1 && st.killed == {} && Sane(g) && AllValid(es) && i < |es|
    requires Follows(st, es, i) && FollowsAt(st, es, i)
    ensures Answered(st, es, g, i)
  {
    hide Matches, ResultOf, Serve, StateOk, Run;
    ReplayState(st, es, g, i);
    ServeFollows(Run(st, es, g, i), es[i].pid, es[i].call, g);
  }

  /** Replay determinism: as long as the owner's calls follow the records, each gets the recorded
      result and leaves the kernel alone; only the calls of others have effects. */
  lemma ReplayIsDeterministic<K(!new)>(st: State<K>, es: seq<Event>, g: Kernel<K>, n: nat)
    requires StateOk(st) && st.replay == 1 && st.killed == {} && Sane(g) && AllValid(es) && n <= |es|
    requires Follows(st, es, n)
    ensures Run(st, es, g, n)
         == st.(kernel := Plain(st.kernel, es, g, {st.owner}, n), idx := st.idx + Calls(es, st.owner, n))
    ensures forall i :: 0 <= i < n ==> Answered(st, es, g, i)
  {
    hide FollowsAt, Answered, StateOk, Run;
    ReplayState(st, es, g, n);
    forall i | 0 <= i < n ensures Answered(st, es, g, i) {
      ReplayReply(st, es, g, i);
    }
  }

  /** The first call that its record does not answer, or for which there is none, kills its caller, switches both
      modes off and leaves the kernel alone.  What it leaves in the caller's memory is what its body still copies
      from that record, which is nothing except for read and fstat. */
  lemma FirstMismatchKills<K(!new)>(st: State<K>, es: seq<Event>, g: Kernel<K>, n: nat)
    requires StateOk(st) && st.replay == 1 && st.killed == {} && Sane(g) && AllValid(es) && n < |es|
    requires Follows(st, es, n) && !Follows(st, es, n + 1)
    ensures var at := st.idx + Calls(es, st.owner, n);
            ReplyTo(st, es, g, n) == Killed(Spill(es[n].call, if at < MAX_SCRS then st.records[at] else BLANK))
    ensures !es[n].call.Read? && !es[n].call.Fstat? ==> ReplyTo(st, es, g, n) == Killed(Wrote(Nothing))
    ensures var r := Run(st, es, g, n + 1);
            && r.killed == {st.owner} && r.record != 1 && r.replay != 1
            && r.kernel == Plain(st.kernel, es, g, {st.owner}, n)
  {
    hide Matches, ResultOf, Shaped, Original, Recorded;
    ReplayIsDeterministic(st, es, g, n);
  }

  lemma ServeOff<K(!new)>(st: State<K>, pid: int, c: Call, g: Kernel<K>)
    requires StateOk(st) && st.record != 1 && st.replay != 1 && Sane(g)
    ensures pid in st.killed ==> Serve(st, pid, c, g) == (st, Killed(Wrote(Nothing)))
    ensures pid !in st.killed ==> Serve(st, pid, c, g).0 == st.(kernel := Original(g, st.kernel, c).0)
  {
    hide Matches, ResultOf, Shaped, Original, Recorded, Spill;
  }

  /** With both modes off no record is made or served any more. */
  lemma {:induction false} NothingServedAfterwards<K(!new)>(st: State<K>, es: seq<Event>, g: Kernel<K>, n: nat)
    requires StateOk(st) && st.record != 1 && st.replay != 1 && Sane(g) && AllValid(es) && n <= |es|
    ensures Run(st, es, g, n) == st.(kernel := Plain(st.kernel, es, g, st.killed, n))
    ensures forall i :: 0 <= i < n && es[i].pid in st.killed ==> ReplyTo(st, es, g, i) == Killed(Wrote(Nothing))
  {
    hide Serve, Original, StateOk;
    if n > 0 {
      NothingServedAfterwards(st, es, g, n - 1);
      ServeOff(Run(st, es, g, n - 1), es[n - 1].pid, es[n - 1].call, g);
    }
  }
}
