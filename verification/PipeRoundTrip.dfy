/** A write and then a read of as many bytes, by one process on a new pipe (v3/pipe.c): the read hands out what the
    write passed in. */
module PipeRoundTrip {
  import opened Monitor
  import opened Pipes
  import opened PipeCalls

  /** s with process 0 at phase f and place l, and data d. */
  function At(s: S, f: Phase<Channel>, l: Local, d: Pipe, lk: int, table: int): S
    requires |s.phase| == |s.local| > 0
  {
    State(s.phase[0 := f], s.local[0 := l], d, lk, table)
  }

  ghost predicate Leads(s: S, es: seq<E>, r: S) {
    Possible(Code, s, es) && After(Code, s, es) == r && |r.local| == |r.phase|
  }

  lemma Next(s: S, es: seq<E>, r: S, e: E, r': S) returns (es': seq<E>)
    requires Leads(s, es, r) && Enabled(Code, r, e) && Do(Code, r, e) == r'
    ensures Leads(s, es', r')
  {
    hide Enabled, Do;
    Extend(Code, s, es, e);
    es' := es + [e];
  }

  /** Nobody else is anywhere near. */
  ghost predicate Alone(s: S) {
    |s.phase| == |s.local| > 0 && forall p :: 0 < p < |s.phase| ==> s.phase[p].Outside?
  }

  lemma Comes(s: S, es: seq<E>, d: Pipe, l: Local) returns (es': seq<E>)
    requires Alone(s) && Leads(s, es, At(s, Outside, Idle, d, -1, -1)) && Calls(Idle, l)
    ensures Leads(s, es', At(s, Inside, l, d, 0, -1))
  {
    hide Leads, Possible, After;
    es' := Next(s, es, At(s, Outside, Idle, d, -1, -1), Call(0, l), At(s, Outside, l, d, -1, -1));
    es' := Next(s, es', At(s, Outside, l, d, -1, -1), Want(0), At(s, Wanting, l, d, -1, -1));
    es' := Next(s, es', At(s, Wanting, l, d, -1, -1), Enter(0), At(s, Inside, l, d, 0, -1));
  }

  lemma Wakes(s: S, es: seq<E>, d: Pipe, l: Local, c: Channel) returns (es': seq<E>)
    requires Alone(s) && Leads(s, es, At(s, Inside, l, d, 0, -1)) && Intends(l, d) == Wake(c)
    ensures Leads(s, es', At(s, Scanning(c), l, d, 0, 0))
  {
    hide Leads, Possible, After;
    es' := Next(s, es, At(s, Inside, l, d, 0, -1), GoWake(0), At(s, Calling(c), l, d, 0, -1));
    es' := Next(s, es', At(s, Calling(c), l, d, 0, -1), WakeLocksTable(0), At(s, Scanning(c), l, d, 0, 0));
  }

  /** The wakeup that ends a call, and the return. */
  lemma Goes(s: S, es: seq<E>, d: Pipe, l: Local, c: Channel) returns (es': seq<E>)
    requires Alone(s) && Leads(s, es, At(s, Inside, l, d, 0, -1)) && Intends(l, d) == Wake(c) && Continues(l).Return?
    ensures Leads(s, es', At(s, Outside, Idle, d, -1, -1))
  {
    hide Leads, Possible, After, Intends;
    es' := Wakes(s, es, d, l, c);
    ScanFindsNobody(s, c, l, d);
    es' := Next(s, es', At(s, Scanning(c), l, d, 0, 0), WakeScans(0), At(s, Inside, Continues(l), d, 0, -1));
    es' := Leaves(s, es', d, Continues(l));
  }

  lemma Leaves(s: S, es: seq<E>, d: Pipe, l: Local) returns (es': seq<E>)
    requires Alone(s) && Leads(s, es, At(s, Inside, l, d, 0, -1)) && l.Return?
    ensures Leads(s, es', At(s, Outside, Idle, d, -1, -1))
  {
    hide Leads, Possible, After;
    es' := Next(s, es, At(s, Inside, l, d, 0, -1), Exit(0), At(s, Outside, Idle, d, -1, -1));
  }

  lemma ScanFindsNobody(s: S, c: Channel, l: Local, d: Pipe)
    requires Alone(s)
    ensures WakeAll(At(s, Scanning(c), l, d, 0, 0).phase, c)[0 := Inside] == s.phase[0 := Inside]
  {
  }

  /** The pipe holds what has been written so far, and nothing has been read. */
  ghost predicate Holds(d: Pipe, b: seq<byte>) {
    Fifo(d) && d.stored == b && d.returned == [] && |b| <= PIPESIZE
  }

  lemma {:induction false} Writes(s: S, es: seq<E>, d: Pipe, src: seq<byte>, i: nat)
    returns (es': seq<E>, d': Pipe)
    requires Alone(s) && i <= |src| <= PIPESIZE && Holds(d, src[..i])
    requires Leads(s, es, At(s, Inside, WLoop(src, i, i > 0), d, 0, -1))
    ensures Holds(d', src) && Leads(s, es', At(s, Inside, WFinish(src), d', 0, -1))
    decreases |src| - i
  {
    hide Leads, Possible, After, Fifo;
    CountersDecide(d);
    FifoSize(d);
    if i == |src| {
      assert src[..i] == src;
      d' := d;
      es' := Next(s, es, At(s, Inside, WLoop(src, i, i > 0), d, 0, -1), Step(0, WFinish(src), d),
                  At(s, Inside, WFinish(src), d, 0, -1));
    } else {
      var d1 := Store(d, src[i]);
      StoreKeepsFifo(d, src[i]);
      assert src[..i + 1] == src[..i] + [src[i]];
      es' := Next(s, es, At(s, Inside, WLoop(src, i, i > 0), d, 0, -1), Step(0, WLoop(src, i + 1, true), d1),
                  At(s, Inside, WLoop(src, i + 1, true), d1, 0, -1));
      es', d' := Writes(s, es', d1, src, i + 1);
    }
  }

  lemma {:induction false} Reads(s: S, es: seq<E>, d: Pipe, src: seq<byte>, got: seq<byte>)
    returns (es': seq<E>, d': Pipe, got': seq<byte>)
    requires Alone(s) && Fifo(d) && d.stored == src && |d.returned| == |got| <= |src|
    requires Leads(s, es, At(s, Inside, RCopy(|src|, got), d, 0, -1))
    ensures Fifo(d') && d'.stored == src && |d'.returned| == |src|
    ensures Leads(s, es', At(s, Inside, RFinish(got'), d', 0, -1))
    decreases |src| - |got|
  {
    hide Leads, Possible, After, Fifo;
    CountersDecide(d);
    FifoSize(d);
    if |got| == |src| {
      d', got' := d, got;
      es' := Next(s, es, At(s, Inside, RCopy(|src|, got), d, 0, -1), Step(0, RFinish(got), d),
                  At(s, Inside, RFinish(got), d, 0, -1));
    } else {
      var d1, b := Fetch(d), d.data[d.nread % PIPESIZE];
      FetchKeepsFifo(d);
      es' := Next(s, es, At(s, Inside, RCopy(|src|, got), d, 0, -1), Step(0, RCopy(|src|, got + [b]), d1),
                  At(s, Inside, RCopy(|src|, got + [b]), d1, 0, -1));
      es', d', got' := Reads(s, es', d1, src, got + [b]);
    }
  }

  /** For every text that fits the pipe there is a run in which a write of it and a read of as many bytes hand out just
      that text. */
  lemma WriteThenRead(s: S, src: seq<byte>) returns (es: seq<E>)
    requires Start(s) && |s.phase| > 0 && 0 < |src| <= PIPESIZE
    ensures Possible(Code, s, es) && Watched(s, es, NothingSeen(s)).handed == src
    ensures Watched(s, es, NothingSeen(s)).written == src
  {
    hide Fifo, Possible, After, Watched, Acts;
    es := LeadsNowhere(s);
    es := Comes(s, es, s.data, WLoop(src, 0, false));
    StartHolds(s, src);
    var d, got;
    es, d := Writes(s, es, s.data, src, 0);
    es := Goes(s, es, d, WFinish(src), NRead);
    es := Comes(s, es, d, RLoop(|src|));
    es := Finds(s, es, d, src);
    es, d, got := Reads(s, es, d, src, []);
    es := Goes(s, es, d, RFinish(got), NWrite);
    StartTies(s);
    RunKeepsTies(s, es, NothingSeen(s));
    AllRead(d, src);
    assert After(Code, s, es) == At(s, Outside, Idle, d, -1, -1);
    TiesSay(After(Code, s, es), Watched(s, es, NothingSeen(s)));
  }

  lemma TiesSay(r: S, seen: Seen)
    requires Ties(r, seen) && r.lk == -1
    ensures seen.written == r.data.stored && seen.handed == r.data.returned
  {
    assert seen.handed + [] == seen.handed;
  }

  lemma AllRead(d: Pipe, src: seq<byte>)
    requires Fifo(d) && d.stored == src && |d.returned| == |src|
    ensures d.returned == src
  {
  }

  lemma LeadsNowhere(s: S) returns (es: seq<E>)
    requires Start(s) && |s.phase| > 0
    ensures Alone(s) && Leads(s, es, At(s, Outside, Idle, s.data, -1, -1))
  {
    es := [];
    assert s.phase[0 := Outside] == s.phase && s.local[0 := Idle] == s.local;
  }

  lemma StartHolds(s: S, src: seq<byte>)
    requires Start(s)
    ensures Holds(s.data, src[..0])
  {
  }

  /** The reader finds something to read. */
  lemma Finds(s: S, es: seq<E>, d: Pipe, src: seq<byte>) returns (es': seq<E>)
    requires Alone(s) && Holds(d, src) && src != [] && Leads(s, es, At(s, Inside, RLoop(|src|), d, 0, -1))
    ensures Leads(s, es', At(s, Inside, RCopy(|src|, []), d, 0, -1))
  {
    hide Leads, Possible, After, Fifo;
    CountersDecide(d);
    FifoSize(d);
    es' := Next(s, es, At(s, Inside, RLoop(|src|), d, 0, -1), Step(0, RCopy(|src|, []), d),
                At(s, Inside, RCopy(|src|, []), d, 0, -1));
  }
}
