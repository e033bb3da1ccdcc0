/** That the log gets on (v3/log.c): from every state of every run a commit under way can be finished and a recovery
    completed, and then the disk itself holds what the cache showed. */
module LogProgress {
  import opened Blocks
  import opened LogProtocol
  import opened RedoLog
  import opened CrashRuns

  /** A run of operations within the budget, ending in state s. */
  ghost predicate Reaches(lay: Layout, base: Disk, d: Disk, ss: seq<Sys>, es: seq<Event>, k: nat, s: Sys) {
    CrashRun(lay, base, d, ss, es) && Budgeted(lay, ss, k) && ss[|es|] == s
  }

  lemma GoesOn(lay: Layout, base: Disk, d: Disk, ss: seq<Sys>, es: seq<Event>, k: nat, s: Sys, e: Event)
    returns (ss': seq<Sys>, es': seq<Event>)
    requires Reaches(lay, base, d, ss, es, k, s) && Placed(lay, base, s) && EventEnabled(lay, base, s, e)
    requires WithinBudget(Next(lay, base, s, e).proto.ops, k)
    ensures Reaches(lay, base, d, ss', es', k, Next(lay, base, s, e))
  {
    hide Next, EventEnabled, Placed, WithinBudget;
    ss', es' := Extend(lay, base, d, ss, es, e);
  }

  lemma ReachedOk(lay: Layout, base: Disk, d: Disk, ss: seq<Sys>, es: seq<Event>, k: nat, s: Sys)
    requires Reaches(lay, base, d, ss, es, k, s)
    ensures SysInv(lay, base, s) && WithinBudget(s.proto.ops, k)
  {
    hide SysInv;
    RunIsLong(lay, base, d, ss, es);
    CrashRunKeepsInv(lay, base, d, ss, es, k, |es|);
  }

  lemma RunIsLong(lay: Layout, base: Disk, d: Disk, ss: seq<Sys>, es: seq<Event>)
    requires CrashRun(lay, base, d, ss, es)
    ensures |ss| == |es| + 1
  {
  }

  /** One more disk write of a commit. */
  lemma CommitWrites(lay: Layout, base: Disk, s: Sys)
    requires SysInv(lay, base, s) && s.mode.Committing? && s.mode.blks != [] && s.mode.done < 2 * |s.mode.blks| + 1
    ensures EventEnabled(lay, base, s, DiskWrite)
    ensures var s' := Next(lay, base, s, DiskWrite);
      && s'.mode == Committing(s.mode.from, s.mode.blks, s.mode.done + 1) && s'.proto == s.proto && s'.hist == s.hist
  {
    hide DiskInv, HistInv, Inv, CommitImage, Play;
  }

  /** The home blocks are all written; only the header is left to be cleared. */
  lemma {:induction false} WriteHomes(lay: Layout, base: Disk, d: Disk, ss: seq<Sys>, es: seq<Event>, k: nat, s: Sys)
    returns (ss': seq<Sys>, es': seq<Event>, s': Sys)
    requires Reaches(lay, base, d, ss, es, k, s) && s.mode.Committing? && s.mode.blks != []
    requires s.mode.done <= 2 * |s.mode.blks| + 1
    ensures Reaches(lay, base, d, ss', es', k, s') && s'.hist == s.hist && s'.mode.Committing?
    ensures s'.mode.blks == s.mode.blks && s'.mode.done == 2 * |s.mode.blks| + 1 && s'.proto == s.proto
    decreases 2 * |s.mode.blks| + 1 - s.mode.done
  {
    hide Reaches, SysInv, Next, EventEnabled;
    if s.mode.done == 2 * |s.mode.blks| + 1 {
      ss', es', s' := ss, es, s;
    } else {
      ReachedOk(lay, base, d, ss, es, k, s);
      CommitWrites(lay, base, s);
      InvPlaced(lay, base, s);
      ss', es' := GoesOn(lay, base, d, ss, es, k, s, DiskWrite);
      ss', es', s' := WriteHomes(lay, base, d, ss', es', k, Next(lay, base, s, DiskWrite));
    }
  }

  lemma InvPlaced(lay: Layout, base: Disk, s: Sys)
    requires SysInv(lay, base, s)
    ensures Placed(lay, base, s)
  {
  }

  /** commit() clears its list in memory and then the header, and end_op lets others in again. */
  lemma Clears(lay: Layout, base: Disk, s: Sys, data: Block)
    requires SysInv(lay, base, s) && s.mode.Committing? && s.mode.blks != []
    requires s.mode.done == 2 * |s.mode.blks| + 1
    ensures EventEnabled(lay, base, s, Op(Clear, data))
    ensures var s' := Next(lay, base, s, Op(Clear, data));
      && s' == s.(proto := s.proto.(lh := []))
      && Placed(lay, base, s') && EventEnabled(lay, base, s', DiskWrite)
  {
    hide DiskInv, HistInv, CommitImage, Play;
  }

  lemma Leaves(lay: Layout, base: Disk, s: Sys, data: Block)
    requires SysInv(lay, base, s) && s.mode.Committing? && s.proto.lh == []
    requires s.mode.blks == [] || s.mode.done == 2 * |s.mode.blks| + 2
    ensures EventEnabled(lay, base, s, Op(Done, data))
    ensures var s' := Next(lay, base, s, Op(Done, data));
      s'.mode == Up && s'.hist == s.hist && s'.proto == s.proto.(committing := false, waiting := {})
  {
    hide DiskInv, HistInv, CommitImage, Play;
  }

  lemma FirstCovered(blks: seq<nat>, h: seq<Update>)
    requires Covers(blks, h) && h != []
    ensures h[0].blockno in blks
  {
  }

  lemma CoversNothing(h: seq<Update>)
    requires Covers([], h)
    ensures h == []
  {
    if h != [] {
      FirstCovered([], h);
      assert false;
    }
  }

  lemma Committed(lay: Layout, base: Disk, s: Sys)
    requires SysInv(lay, base, s) && s.mode.Up? && s.proto.ops == map[]
    ensures s.cut == |s.hist| && AllHome(lay, base, s.hist) && SameHome(lay, s.disk, Play(lay, base, s.hist))
  {
    hide SameHome, Play, Covers;
    CoversNothing(s.hist[s.cut..]);
    assert |s.hist[s.cut..]| == |s.hist| - s.cut;
    assert s.hist[..s.cut] == s.hist;
  }

  /** Every commit can be finished: from any state of any run in which one is under way there is a run to a state where
      the system is up, the log is empty, all updates are committed, and the home blocks on disk are what the cache
      showed. */
  lemma CommitCompletes(lay: Layout, base: Disk, d: Disk, ss: seq<Sys>, es: seq<Event>, k: nat, s: Sys, data: Block)
    returns (ss': seq<Sys>, es': seq<Event>, s': Sys)
    requires Reaches(lay, base, d, ss, es, k, s) && s.mode.Committing?
    ensures Reaches(lay, base, d, ss', es', k, s') && s'.mode.Up? && s'.proto.lh == [] && !s'.proto.committing
    ensures s'.hist == s.hist && s'.cut == |s.hist| && AllHome(lay, base, s.hist)
    ensures SameHome(lay, s'.disk, Play(lay, base, s.hist))
  {
    hide Reaches, SysInv, Next, EventEnabled, SameHome, Play, AllHome;
    ss', es', s' := ss, es, s;
    ReachedOk(lay, base, d, ss', es', k, s');
    CommitFacts(lay, base, s');
    if s.mode.blks != [] && s.mode.done <= 2 * |s.mode.blks| + 1 {
      ss', es', s' := WriteHomes(lay, base, d, ss, es, k, s);
      ss', es', s' := ClearHeader(lay, base, d, ss', es', k, s', data);
    }
    ReachedOk(lay, base, d, ss', es', k, s');
    CommitFacts(lay, base, s');
    Leaves(lay, base, s', data);
    InvPlaced(lay, base, s');
    ss', es' := GoesOn(lay, base, d, ss', es', k, s', Op(Done, data));
    s' := Next(lay, base, s', Op(Done, data));
    ReachedOk(lay, base, d, ss', es', k, s');
    Committed(lay, base, s');
  }

  lemma CommitFacts(lay: Layout, base: Disk, s: Sys)
    requires SysInv(lay, base, s) && s.mode.Committing?
    ensures s.mode.done <= 2 * |s.mode.blks| + 2 && s.proto.committing && s.proto.ops == map[]
    ensures s.mode.blks == [] ==> s.proto.lh == []
    ensures s.proto.lh == [] || s.proto.lh == s.mode.blks
    ensures s.mode.done == 2 * |s.mode.blks| + 2 ==> s.proto.lh == []
  {
    hide SameHome, Play, CommitImage, Updated, Covers;
  }

  lemma ClearHeader(lay: Layout, base: Disk, d: Disk, ss: seq<Sys>, es: seq<Event>, k: nat, s: Sys, data: Block)
    returns (ss': seq<Sys>, es': seq<Event>, s': Sys)
    requires Reaches(lay, base, d, ss, es, k, s) && s.mode.Committing? && s.mode.blks != []
    requires s.mode.done == 2 * |s.mode.blks| + 1
    ensures Reaches(lay, base, d, ss', es', k, s') && s'.hist == s.hist && s'.mode.Committing? && s'.proto.lh == []
    ensures s'.mode.blks == s.mode.blks && s'.mode.done == 2 * |s.mode.blks| + 2
  {
    hide Reaches, SysInv, EventEnabled, CommitImage, Play, Do;
    ReachedOk(lay, base, d, ss, es, k, s);
    Clears(lay, base, s, data);
    InvPlaced(lay, base, s);
    ss', es' := GoesOn(lay, base, d, ss, es, k, s, Op(Clear, data));
    s' := s.(proto := s.proto.(lh := []));
    ss', es' := GoesOn(lay, base, d, ss', es', k, s', DiskWrite);
    s' := Next(lay, base, s', DiskWrite);
  }

  /** Every recovery can be finished: from any state of any run that is recovering there is a run to a state where the
      system is up and the home blocks on disk are the committed ones. */
  lemma {:induction false} RecoveryCompletes(lay: Layout, base: Disk, d: Disk, ss: seq<Sys>, es: seq<Event>, k: nat,
                                             s: Sys)
    returns (ss': seq<Sys>, es': seq<Event>, s': Sys)
    requires Reaches(lay, base, d, ss, es, k, s) && s.mode.Recovering?
    requires GoodHead(lay, s.mode.from) && s.mode.done <= HeadCount(s.mode.from[lay.start]) + 1
    ensures Reaches(lay, base, d, ss', es', k, s') && s'.mode.Up? && s'.hist == s.hist
    ensures AllHome(lay, base, s.hist) && SameHome(lay, s'.disk, Play(lay, base, s.hist))
    decreases HeadCount(s.mode.from[lay.start]) + 1 - s.mode.done
  {
    hide Reaches, SysInv, SameHome, Play, AllHome, RecoveryImage;
    ReachedOk(lay, base, d, ss, es, k, s);
    InvPlaced(lay, base, s);
    NothingRuns(lay, base, s);
    if s.mode.done < HeadCount(s.mode.from[lay.start]) + 1 {
      ss', es' := GoesOn(lay, base, d, ss, es, k, s, DiskWrite);
      ss', es', s' := RecoveryCompletes(lay, base, d, ss', es', k, Next(lay, base, s, DiskWrite));
    } else {
      ss', es' := GoesOn(lay, base, d, ss, es, k, s, Event.Recovered);
      s' := s.(mode := Up);
      ReachedOk(lay, base, d, ss', es', k, s');
      Committed(lay, base, s');
    }
  }

  lemma NothingRuns(lay: Layout, base: Disk, s: Sys)
    requires SysInv(lay, base, s) && s.mode.Recovering?
    ensures s.proto.ops == map[] && s.proto.lh == []
  {
    hide SameHome, Play, RecoveryImage;
  }
}
