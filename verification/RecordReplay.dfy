/** The record/replay globals and the code that works on them (v3/sysproc.c), against the
    transition function of Replay. */
module RecordReplay {
  import opened Blocks
  import opened Records
  import opened Session
  import opened CallRecords
  import opened SyscallBodies
  import opened Replay

  /** A file after its first |b| bytes have been written; it is not truncated. */
  function Overwrite(file: seq<byte>, b: seq<byte>): seq<byte> {
    b + if |b| < |file| then file[|b|..] else []
  }

  /** The new bytes stand at the beginning, every byte behind them is where it was, and the file has the larger of the
      two lengths. */
  lemma OverwriteKeeps(file: seq<byte>, b: seq<byte>)
    ensures var r := Overwrite(file, b);
      && |r| == (if |file| < |b| then |b| else |file|)
      && forall i :: 0 <= i < |r| ==> r[i] == if i < |b| then b[i] else file[i]
  {
  }

  /** The loop of compareSCRS over raw data. */
  method SameBytes(a: seq<byte>, b: seq<byte>) returns (same: bool)
    requires |a| == |b|
    ensures same <==> a == b
  {
    same := true;
    var j := 0;
    while j < |b|
      invariant 0 <= j <= |b| && same && a[..j] == b[..j]
    {
      same := b[j] == a[j];
      if !same {
        break;
      }
      j := j + 1;
    }
  }

  /** The loop of compareSCRS over the inputs of a record and of a call with the same tag. */
  method CompareInputs(r: Scr, c: Call) returns (same: bool)
    requires Shaped(r) && r.syscall == Tag(c)
    ensures same <==> r.args[..|Inputs(c)|] == Inputs(c)
  {
    FirstOutputIsAfterInputs(c);
    var args := Inputs(c);
    var i := 0;
    while i < FirstOutput(r.syscall)
      invariant 0 <= i <= |args| && r.args[..i] == args[..i]
    {
      match r.args[i] {
        case IntArg(num) =>
          if num != args[i].num {
            assert r.args[..|args|][i] != args[i];
            return false;
          }
        case RawArg(data) =>
          var equal := false;
          if |data| == |args[i].data| {
            equal := SameBytes(data, args[i].data);
          }
          if !equal {
            assert r.args[..|args|][i] != args[i];
            return false;
          }
        case _ =>
          assert false;
          return false;
      }
      assert r.args[..i + 1] == r.args[..i] + [r.args[i]] && args[..i + 1] == args[..i] + [args[i]];
      i := i + 1;
    }
    return true;
  }

  class Engine<K(!new)> {
    const buffer: Buffer
    var records: seq<Scr>     // recorded_scrs
    var idx: nat              // scrs_idx
    var owner: int            // rr_pid
    var killed: set<int>      // processes marked killed
    var kernel: K

    constructor (kernel: K)
      ensures Valid() && fresh(buffer) && fresh(buffer.bytes)
      ensures Now() == State(kernel, Blanks(MAX_SCRS), 0, 0, 0, 0, {})
    {
      buffer := new Buffer();
      records, idx, owner, killed, this.kernel := Blanks(MAX_SCRS), 0, 0, {}, kernel;
    }

    function Now(): State<K>
      reads this, buffer
    {
      State(kernel, records, idx, buffer.record, buffer.replay, owner, killed)
    }

    predicate Valid()
      reads this, buffer
    {
      buffer.Valid() && StateOk(Now())
    }

    /** RecRepErr. */
    method Err(pid: int)
      requires Valid()
      modifies this`killed, buffer`record, buffer`replay
      ensures Valid() && Now() == Fail(old(Now()), pid)
    {
      killed := killed + {pid};
      buffer.record, buffer.replay := -1, -1;
    }

    /** addSRC. */
    method Add(pid: int, r: Scr)
      requires Valid() && Shaped(r)
      modifies this`records, this`idx, this`killed, buffer`record, buffer`replay
      ensures Valid()
      ensures Now() == if old(idx) >= MAX_SCRS then Fail(old(Now()), pid)
                       else old(Now()).(records := old(records)[old(idx) := r], idx := old(idx) + 1)
    {
      if idx >= MAX_SCRS {
        Err(pid);
        return;
      }
      records, idx := records[idx := r], idx + 1;
    }

    /** compareSCRS. */
    method Compare(pid: int, c: Call) returns (ok: bool, r: Scr)
      requires Valid() && buffer.Replaying()
      modifies this`idx, this`killed, buffer`record, buffer`replay
      ensures Valid()
      ensures ok <==> old(idx) < MAX_SCRS && Matches(old(records)[old(idx)], c)
      ensures r == Next(old(Now())) && (r == BLANK || Shaped(r))
      ensures ok ==> Shaped(r) && Now() == old(Now()).(idx := old(idx) + 1)
      ensures !ok ==> Now() == Fail(old(Now()).(idx := if old(idx) < MAX_SCRS then old(idx) + 1 else old(idx)), pid)
    {
      if idx >= MAX_SCRS {
        Err(pid);
        return false, BLANK;
      }
      r := records[idx];
      idx := idx + 1;
      ok := r.syscall != UNINITIALIZED && r.syscall == Tag(c);
      if ok {
        ok := CompareInputs(r, c);
      }
      if !ok {
        Err(pid);
      }
    }

    /** The recording branch: the rewritten body, then addSRC. */
    method RecordCall(pid: int, c: Call, g: Kernel<K>) returns (reply: Reply)
      requires Valid() && Sane(g) && CallRecords.Valid(c) && IsRecording(Now(), pid) && pid !in killed
      modifies this, buffer
      ensures Valid() && (Now(), reply) == Serve(old(Now()), pid, c, g)
    {
      hide Matches, ResultOf, Shaped, Record, Fits, Recorded, Original, Spill;
      RecordedIsOriginal(g, kernel, c);
      RecordedIsShaped(g, kernel, c);
      var k, res, scr := RunRecorded(g, kernel, c);
      kernel := k;
      Add(pid, scr);
      reply := if pid in killed then Killed(Wrote(res.out)) else Served(res);
    }

    /** The replay branch. */
    method ReplayCall(pid: int, c: Call, ghost g: Kernel<K>) returns (reply: Reply)
      requires Valid() && Sane(g) && CallRecords.Valid(c) && IsReplaying(Now(), pid) && pid !in killed
      modifies this, buffer
      ensures Valid() && (Now(), reply) == Serve(old(Now()), pid, c, g)
    {
      hide Matches, ResultOf, Shaped, Recorded, Original, Spill;
      var ok, r := Compare(pid, c);
      reply := if ok then Served(ResultOf(r)) else Killed(Spill(c, r));
    }

    /** The original body. */
    method PlainCall(pid: int, c: Call, g: Kernel<K>) returns (reply: Reply)
      requires Valid() && Sane(g) && !IsReplaying(Now(), pid) && !IsRecording(Now(), pid) && pid !in killed
      modifies this, buffer
      ensures Valid() && (Now(), reply) == Serve(old(Now()), pid, c, g)
    {
      hide Matches, ResultOf, Shaped, Record, Fits, Recorded, Original, Spill;
      RecordedIsOriginal(g, kernel, c);
      var k, res := RunOriginal(g, kernel, c);
      kernel := k;
      reply := Served(res);
    }

    /** The branches of a covered system call. */
    method Syscall(pid: int, c: Call, g: Kernel<K>) returns (reply: Reply)
      requires Valid() && Sane(g) && Within(Now(), pid, c)
      modifies this, buffer
      ensures Valid() && (Now(), reply) == Serve(old(Now()), pid, c, g)
    {
      hide Serve, Shaped, StateOk;
      if pid in killed {
        ServeKilled(Now(), pid, c, g);
        reply := Killed(Wrote(Nothing));
      } else if buffer.Replaying() && owner == pid {
        reply := ReplayCall(pid, c, g);
      } else if buffer.Recording() && owner == pid {
        reply := RecordCall(pid, c, g);
      } else {
        reply := PlainCall(pid, c, g);
      }
    }

    /** sys_record_start. */
    method RecordStart(pid: int)
      requires Valid() && !buffer.Replaying()
      modifies this, buffer
      ensures Valid() && Now() == old(Now()).(records := Blanks(MAX_SCRS), idx := 0, record := 1, owner := pid)
    {
      buffer.record := 1;
      records := Blanks(MAX_SCRS);
      idx, owner, buffer.pos := 0, pid, 0;
    }

    /** sys_record_stop.  The session overwrites the beginning of the file; `io` tells whether opening,
        writing and closing the file succeed. */
    method RecordStop(pid: int, file: seq<byte>, io: bool) returns (ret: int, file': seq<byte>)
      requires Valid() && (IsRecording(Now(), pid) ==> |EncodeSession(records[..idx])| <= MAX_FILE_SIZE)
      modifies this, buffer, buffer.bytes
      ensures Valid() && ret == buffer.record
      ensures !old(IsRecording(Now(), pid)) ==> Now() == old(Now()) && file' == file
      ensures old(IsRecording(Now(), pid)) && io ==>
                Now() == old(Now()).(record := 0) && file' == Overwrite(file, EncodeSession(old(records[..idx])))
      ensures old(IsRecording(Now(), pid)) && !io ==> Now() == Fail(old(Now()), pid)
    {
      file' := file;
      if buffer.Recording() && owner == pid {
        var status := buffer.Store(records, idx);
        buffer.record := 0;
        if io {
          file' := Overwrite(file, buffer.bytes[..buffer.pos]);
        } else {
          Err(pid);
        }
      }
      ret := buffer.record;
    }

    /** sys_replay_start on a file that begins with the session rs, whatever follows it. */
    method ReplayStart(pid: int, file: seq<byte>, io: bool, ghost rs: seq<Scr>) returns (ret: int)
      requires Valid() && !buffer.Recording() && |rs| <= MAX_SCRS && AllShaped(rs)
      requires EncodeSession(rs) <= file && |EncodeSession(rs)| <= MAX_FILE_SIZE
      modifies this, buffer, buffer.bytes
      ensures Valid() && ret == buffer.replay
      ensures io ==> Now() == old(Now()).(records := rs + Blanks(MAX_SCRS - |rs|), idx := 0, replay := 1, owner := pid)
      ensures !io ==> Now() == Fail(old(Now()).(records := Blanks(MAX_SCRS), idx := 0, owner := pid), pid)
    {
      buffer.replay := 1;
      records := Blanks(MAX_SCRS);
      idx, owner, buffer.pos := 0, pid, 0;
      if !io {
        Err(pid);
        return buffer.replay;
      }
      var size := if |file| < MAX_FILE_SIZE then |file| else MAX_FILE_SIZE;
      forall i | 0 <= i < size {
        buffer.bytes[i] := file[i];
      }
      var status;
      status, records := buffer.Load(size, rs);
      ret := buffer.replay;
    }

    /** sys_replay_stop. */
    method ReplayStop(pid: int) returns (ret: int)
      requires Valid()
      modifies buffer`replay
      ensures Valid() && ret == buffer.replay
      ensures Now() == if old(IsReplaying(Now(), pid)) then old(Now()).(replay := 0) else old(Now())
    {
      if buffer.Replaying() && owner == pid {
        buffer.replay := 0;
      }
      ret := buffer.replay;
    }
  }

  // One process records a program and replays it

  predicate AllBy(es: seq<Event>, pid: int) {
    forall i :: 0 <= i < |es| ==> es[i].pid == pid
  }

  /** Every call that needs a descriptor has an open one when the calls start in kernel k. */
  predicate AllOpened<K>(k: K, es: seq<Event>, g: Kernel<K>) {
    forall i :: 0 <= i < |es| ==> Opened(g, Plain(k, es, g, {}, i), es[i].call)
  }

  lemma KeptRecord<K(!new)>(k: K, es: seq<Event>, g: Kernel<K>, i: nat)
    requires Sane(g) && AllValid(es) && i < |es|
    ensures Fits(es[i].call, KeptResult(k, es, g, i)) && Shaped(Record(es[i].call, KeptResult(k, es, g, i)))
    ensures AllOpened(k, es, g) ==> KeptResult(k, es, g, i) == PlainResult(k, es, g, i)
  {
    hide KeptResult, PlainResult, Opened, Fits, Record, Shaped;
    KeptIsPlain(k, es, g, i);
    RecordGivesResult(es[i].call, KeptResult(k, es, g, i));
  }

  /** The session that the calls record when they start in kernel k. */
  ghost function Recording<K(!new)>(k: K, es: seq<Event>, g: Kernel<K>): (rs: seq<Scr>)
    requires Sane(g) && AllValid(es)
    ensures |rs| == |es| && AllShaped(rs)
    ensures forall i :: 0 <= i < |rs| ==>
              Fits(es[i].call, KeptResult(k, es, g, i)) && rs[i] == Record(es[i].call, KeptResult(k, es, g, i))
  {
    forall i | 0 <= i < |es|
      ensures Fits(es[i].call, KeptResult(k, es, g, i)) && Shaped(Record(es[i].call, KeptResult(k, es, g, i)))
    {
      KeptRecord(k, es, g, i);
    }
    seq(|es|, i requires 0 <= i < |es| => Record(es[i].call, KeptResult(k, es, g, i)))
  }

  lemma {:induction false} CallsAll(es: seq<Event>, pid: int, n: nat)
    requires AllBy(es, pid) && n <= |es|
    ensures Calls(es, pid, n) == n
  {
    if n > 0 {
      CallsAll(es, pid, n - 1);
    }
  }

  lemma AllCounted(es: seq<Event>, pid: int)
    requires AllBy(es, pid)
    ensures forall n :: 0 <= n <= |es| ==> Calls(es, pid, n) == n
  {
    forall n | 0 <= n <= |es| ensures Calls(es, pid, n) == n {
      CallsAll(es, pid, n);
    }
  }

  /** Recording ends with the session in the table. */
  lemma {:induction false} SessionRecorded<K(!new)>(st: State<K>, es: seq<Event>, g: Kernel<K>)
    requires StateOk(st) && st.record == 1 && st.killed == {} && st.idx == 0 && AllBy(es, st.owner)
    requires Sane(g) && AllValid(es) && |es| <= MAX_SCRS
    ensures var r := Run(st, es, g, |es|);
            r.record == 1 && r.replay == st.replay && r.owner == st.owner && r.killed == {} && r.idx == |es|
    ensures Run(st, es, g, |es|).records[..|es|] == Recording(st.kernel, es, g)
    ensures forall i :: 0 <= i < |es| ==> ReplyTo(st, es, g, i) == Served(PlainResult(st.kernel, es, g, i))
  {
    hide Record, Shaped, Serve, Fits, Run, ReplyTo, PlainResult, KeptResult, Opened, Plain;
    AllCounted(es, st.owner);
    RecordingIsTransparent(st, es, g, |es|);
    var rs := Recording(st.kernel, es, g);
    forall i | 0 <= i < |es| ensures Run(st, es, g, |es|).records[i] == rs[i] {
      RecordingKeepsResults(st, es, g, |es|, i);
    }
  }

  /** Call i finds its own record next. */
  lemma OwnRecordNext<K(!new)>(st: State<K>, es: seq<Event>, k: K, g: Kernel<K>, i: nat)
    requires StateOk(st) && st.idx == 0 && AllBy(es, st.owner) && Sane(g) && AllValid(es) && i < |es| <= MAX_SCRS
    requires Recording(k, es, g) <= st.records
    ensures FollowsAt(st, es, i) && Calls(es, st.owner, i) == i
    ensures Shaped(st.records[i]) && ResultOf(st.records[i]) == KeptResult(k, es, g, i)
  {
    hide Record, Shaped, ResultOf, Matches, StateOk, Calls, Fits, KeptResult;
    CallsAll(es, st.owner, i);
    assert st.records[i] == Recording(k, es, g)[i];
    RecordGivesResult(es[i].call, KeptResult(k, es, g, i));
  }

  lemma AnswerIsRecorded<K(!new)>(st: State<K>, es: seq<Event>, k: K, g: Kernel<K>, h: Kernel<K>, i: nat)
    requires StateOk(st) && st.idx == 0 && AllBy(es, st.owner) && Sane(g) && Sane(h) && AllValid(es)
    requires i < |es| <= MAX_SCRS
    requires Recording(k, es, g) <= st.records && FollowsAt(st, es, i) && Answered(st, es, h, i)
    ensures ReplyTo(st, es, h, i) == Served(KeptResult(k, es, g, i))
  {
    hide Record, Shaped, ResultOf, Matches, StateOk, ReplyTo, Calls, Fits, KeptResult;
    OwnRecordNext(st, es, k, g, i);
  }

  /** Replaying the session gives the results that were recorded. */
  lemma {:induction false} SessionReplayed<K(!new)>(st: State<K>, es: seq<Event>, k: K, g: Kernel<K>, h: Kernel<K>)
    requires StateOk(st) && st.replay == 1 && st.killed == {} && st.idx == 0 && AllBy(es, st.owner)
    requires Sane(g) && Sane(h) && AllValid(es) && |es| <= MAX_SCRS && Recording(k, es, g) <= st.records
    ensures Run(st, es, h, |es|).kernel == st.kernel
    ensures forall i :: 0 <= i < |es| ==> ReplyTo(st, es, h, i) == Served(KeptResult(k, es, g, i))
  {
    hide FollowsAt, Answered, StateOk, Run, ReplyTo, Recording, Plain, KeptResult, AllBy, AllValid;
    forall i | 0 <= i < |es| ensures FollowsAt(st, es, i) {
      OwnRecordNext(st, es, k, g, i);
    }
    ReplayIsDeterministic(st, es, h, |es|);
    PlainSkips(st.kernel, es, h, st.owner, |es|);
    forall i | 0 <= i < |es| ensures ReplyTo(st, es, h, i) == Served(KeptResult(k, es, g, i)) {
      AnswerIsRecorded(st, es, k, g, h, i);
    }
  }

  lemma {:induction false} PlainSkips<K>(k: K, es: seq<Event>, g: Kernel<K>, pid: int, n: nat)
    requires AllBy(es, pid) && n <= |es|
    ensures Plain(k, es, g, {pid}, n) == k
  {
    if n > 0 {
      PlainSkips(k, es, g, pid, n - 1);
    }
  }

  method Perform<K(!new)>(e: Engine<K>, es: seq<Event>, g: Kernel<K>) returns (replies: seq<Reply>)
    requires e.Valid() && Sane(g) && AllValid(es)
    modifies e, e.buffer
    ensures e.Valid() && e.Now() == Run(old(e.Now()), es, g, |es|)
    ensures |replies| == |es| && forall i :: 0 <= i < |es| ==> replies[i] == ReplyTo(old(e.Now()), es, g, i)
  {
    replies := [];
    var n := 0;
    while n < |es|
      invariant 0 <= n <= |es| && e.Valid() && e.Now() == Run(old(e.Now()), es, g, n)
      invariant |replies| == n && forall i :: 0 <= i < n ==> replies[i] == ReplyTo(old(e.Now()), es, g, i)
    {
      var reply := e.Syscall(es[n].pid, es[n].call, g);
      replies, n := replies + [reply], n + 1;
    }
  }

  lemma AllKept<K(!new)>(k: K, es: seq<Event>, g: Kernel<K>)
    requires Sane(g) && AllValid(es)
    ensures AllOpened(k, es, g) ==> forall i :: 0 <= i < |es| ==> KeptResult(k, es, g, i) == PlainResult(k, es, g, i)
  {
    hide Plain, KeptResult, PlainResult, Opened, Fits, Shaped, Record;
    forall i | 0 <= i < |es| && AllOpened(k, es, g) ensures KeptResult(k, es, g, i) == PlainResult(k, es, g, i) {
      KeptRecord(k, es, g, i);
    }
  }

  /** Records pid's calls, saves the session, then replays the same calls on another kernel that works
      differently.  The replies are the recorded ones, so the same as before if no read or fstat lacked an open
      file, and the second kernel is left alone. */
  method RecordThenReplay<K(!new)>(e: Engine<K>, pid: int, calls: seq<Event>, file: seq<byte>,
                                   g: Kernel<K>, kernel: K, h: Kernel<K>)
    returns (first: seq<Reply>, second: seq<Reply>)
    requires e.Valid() && e.killed == {} && e.buffer.record == 0 && e.buffer.replay == 0
    requires Sane(g) && Sane(h) && AllValid(calls) && |calls| <= MAX_SCRS && AllBy(calls, pid)
    requires |EncodeSession(Recording(e.kernel, calls, g))| <= MAX_FILE_SIZE
    modifies e, e.buffer, e.buffer.bytes
    ensures |first| == |calls|
    ensures forall i :: 0 <= i < |calls| ==> first[i] == Served(PlainResult(old(e.kernel), calls, g, i))
    ensures |second| == |calls| && e.kernel == kernel
    ensures forall i :: 0 <= i < |calls| ==> second[i] == Served(KeptResult(old(e.kernel), calls, g, i))
    ensures AllOpened(old(e.kernel), calls, g) ==> second == first
  {
    hide Serve, Run, ReplyTo, EncodeSession, Record, Recording;
    ghost var rs := Recording(e.kernel, calls, g);
    e.RecordStart(pid);
    SessionRecorded(e.Now(), calls, g);
    first := Perform(e, calls, g);
    var status, saved := e.RecordStop(pid, file, true);
    e.kernel := kernel;
    status := e.ReplayStart(pid, saved, true, rs);
    SessionReplayed(e.Now(), calls, old(e.kernel), g, h);
    second := Perform(e, calls, h);
    AllKept(old(e.kernel), calls, g);
  }
}
