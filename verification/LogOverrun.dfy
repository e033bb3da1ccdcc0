/** What the size test outside log.lock (v3/log.c) costs: when three operations use the ten blocks they are promised,
    write_log can run past the log area and into the first block behind it, which on the disk of v3/mkfs.c holds
    inodes.  This module builds that run and shows that crash safety fails in it, and in no run of a smaller budget. */
module LogOverrun {
  import opened Blocks
  import opened LogProtocol
  import opened RedoLog
  import opened CrashRuns

  /** A crash now loses or changes a home block: recovery does not give the committed updates. */
  ghost predicate Spoiled(lay: Layout, base: Disk, s: Sys) {
    && AllHome(lay, base, s.hist) && s.cut <= |s.hist| && GoodHead(lay, s.disk)
    && !SameHome(lay, RedoLog.Recovered(lay, s.disk), Play(lay, base, s.hist[..s.cut]))
  }

  ghost predicate SpoilingRun(lay: Layout, base: Disk, d: Disk, ss: seq<Sys>, es: seq<Event>, k: nat) {
    CrashRun(lay, base, d, ss, es) && Sparing(ss, k) && Spoiled(lay, base, ss[|es|])
  }

  // The witness run, phase by phase

  /** What the phases keep: a run from d in which no operation adds more than ten blocks. */
  ghost predicate From(lay: Layout, d: Disk, ss: seq<Sys>, es: seq<Event>, last: Sys)
    requires GoodHead(lay, d)
  {
    CrashRun(lay, RedoLog.Recovered(lay, d), d, ss, es) && Sparing(ss, MAXOPBLOCKS) && ss[|es|] == last
  }

  lemma Then(lay: Layout, d: Disk, ss: seq<Sys>, es: seq<Event>, last: Sys, e: Event)
    returns (ss': seq<Sys>, es': seq<Event>)
    requires GoodHead(lay, d) && From(lay, d, ss, es, last)
    requires Placed(lay, RedoLog.Recovered(lay, d), last) && EventEnabled(lay, RedoLog.Recovered(lay, d), last, e)
    requires WithinBudget(Next(lay, RedoLog.Recovered(lay, d), last, e).proto.ops, MAXOPBLOCKS)
    ensures From(lay, d, ss', es', Next(lay, RedoLog.Recovered(lay, d), last, e))
  {
    hide Next, EventEnabled, Placed, WithinBudget, GoodHead, RedoLog.Recovered;
    ss', es' := Extend(lay, RedoLog.Recovered(lay, d), d, ss, es, e);
  }

  lemma {:induction false} Recover(lay: Layout, d: Disk, j: nat) returns (ss: seq<Sys>, es: seq<Event>)
    requires GoodHead(lay, d) && j <= HeadCount(d[lay.start]) + 1
    ensures From(lay, d, ss, es, Sys(INIT, RecoveryImage(lay, d, j), [], 0, Recovering(d, j)))
  {
    if j == 0 {
      ss, es := [Sys(INIT, d, [], 0, Recovering(d, 0))], [];
    } else {
      ss, es := Recover(lay, d, j - 1);
      ss, es := Then(lay, d, ss, es, ss[|es|], DiskWrite);
    }
  }

  lemma ComeUp(lay: Layout, d: Disk) returns (ss: seq<Sys>, es: seq<Event>)
    requires GoodHead(lay, d)
    ensures From(lay, d, ss, es, Sys(INIT, RedoLog.Recovered(lay, d), [], 0, Up))
  {
    var n := HeadCount(d[lay.start]) + 1;
    ss, es := Recover(lay, d, n);
    ss, es := Then(lay, d, ss, es, ss[|es|], Event.Recovered);
  }

  /** Every update writes `data` to one of the blocks from `b` on, and every logged block has one. */
  ghost predicate Wrote(h: seq<Update>, data: Block, b: nat, lh: seq<nat>) {
    && (forall i :: 0 <= i < |h| ==> h[i].data == data && b <= h[i].blockno < b + LOGSIZE)
    && (forall t :: 0 <= t < |lh| ==> Updates(h, lh[t]))
  }

  ghost predicate Updates(h: seq<Update>, b: nat) {
    exists i :: 0 <= i < |h| && h[i].blockno == b
  }

  predicate Behind(lay: Layout, d: Disk, b: nat) {
    lay.start + lay.size <= b && b + LOGSIZE <= |d|
  }

  lemma WroteOne(h: seq<Update>, data: Block, b: nat, lh: seq<nat>, u: Update)
    requires Wrote(h, data, b, lh) && u.data == data && b <= u.blockno < b + LOGSIZE
    ensures Wrote(h + [u], data, b, Absorb(lh, u.blockno))
  {
    var h', lh' := h + [u], Absorb(lh, u.blockno);
    forall t | 0 <= t < |lh'| ensures Updates(h', lh'[t]) {
      if t < |lh| {
        assert Updates(h, lh[t]);
        var i :| 0 <= i < |h| && h[i].blockno == lh[t];
        assert h'[i].blockno == lh'[t];
      } else {
        assert h'[|h|].blockno == lh'[t];
      }
    }
  }

  lemma WroteMore(h: seq<Update>, data: Block, b: nat, s: Proto, step: Step)
    requires Wrote(h, data, b, s.lh) && Enabled(s, LOGSIZE, step) && Logs([step], b)
    ensures Wrote(if step.Append? then h + [Update(step.op, step.blockno, data)] else h, data, b,
                  Do(s, LOGSIZE, step).lh)
  {
    assert [step][0] == step;
    if step.Append? {
      var u := Update(step.op, step.blockno, data);
      assert Do(s, LOGSIZE, step).lh == Absorb(s.lh, u.blockno);
      WroteOne(h, data, b, s.lh, u);
    } else {
      assert Do(s, LOGSIZE, step).lh == s.lh;
    }
  }

  /** The protocol run (ps, steps), with every block given the contents `data`. */
  lemma {:induction false} Lift(lay: Layout, d: Disk, data: Block, b: nat, ps: seq<Proto>, steps: seq<Step>, n: nat)
    returns (ss: seq<Sys>, es: seq<Event>, h: seq<Update>)
    requires GoodHead(lay, d) && lay.size == LOGSIZE && Behind(lay, d, b)
    requires Run(LOGSIZE, ps, steps) && Frugal(MAXOPBLOCKS, ps) && Logs(steps, b) && n <= |steps|
    ensures From(lay, d, ss, es, Sys(ps[n], RedoLog.Recovered(lay, d), h, 0, Up)) && Wrote(h, data, b, ps[n].lh)
  {
    hide Enabled, Do, GoodHead, RedoLog.Recovered, WithinBudget, From, Wrote;
    if n == 0 {
      ss, es := ComeUp(lay, d);
      h := [];
      assert Wrote(h, data, b, ps[0].lh) by { WroteNothing(data, b); }
    } else {
      ss, es, h := Lift(lay, d, data, b, ps, steps, n - 1);
      var step := steps[n - 1];
      assert WithinBudget(ps[n].ops, MAXOPBLOCKS);
      WroteMore(h, data, b, ps[n - 1], step);
      ss, es := LiftStep(lay, d, data, b, ss, es, ps[n - 1], h, step);
      h := if step.Append? then h + [Update(step.op, step.blockno, data)] else h;
    }
  }

  lemma WroteNothing(data: Block, b: nat)
    ensures Wrote([], data, b, [])
  {
  }

  lemma LiftStep(lay: Layout, d: Disk, data: Block, b: nat, ss: seq<Sys>, es: seq<Event>, p: Proto, h: seq<Update>,
                 step: Step)
    returns (ss': seq<Sys>, es': seq<Event>)
    requires GoodHead(lay, d) && lay.size == LOGSIZE && Behind(lay, d, b) && Wrote(h, data, b, p.lh)
    requires From(lay, d, ss, es, Sys(p, RedoLog.Recovered(lay, d), h, 0, Up))
    requires Enabled(p, LOGSIZE, step) && Logs([step], b) && WithinBudget(Do(p, LOGSIZE, step).ops, MAXOPBLOCKS)
    ensures From(lay, d, ss', es',
                 Sys(Do(p, LOGSIZE, step), RedoLog.Recovered(lay, d),
                     if step.Append? then h + [Update(step.op, step.blockno, data)] else h, 0, Up))
  {
    hide Enabled, Do, RedoLog.Recovered, WithinBudget, From;
    assert [step][0] == step;
    var base := RedoLog.Recovered(lay, d);
    var s := Sys(p, base, h, 0, Up);
    assert AllHome(lay, base, h) by {
      forall i | 0 <= i < |h| ensures Home(lay, base, h[i].blockno) {
        assert b <= h[i].blockno < b + LOGSIZE;
      }
    }
    assert Placed(lay, base, s);
    ss', es' := Then(lay, d, ss, es, s, Op(step, data));
  }

  /** The three operations end; the last of them starts the commit of the full log. */
  lemma EndAll(lay: Layout, d: Disk, data: Block, b: nat, ss: seq<Sys>, es: seq<Event>, h: seq<Update>)
    returns (ss': seq<Sys>, es': seq<Event>, p: Proto)
    requires GoodHead(lay, d) && lay.size == LOGSIZE && Behind(lay, d, b)
    requires AllHome(lay, RedoLog.Recovered(lay, d), h)
    requires From(lay, d, ss, es, Sys(Filled(b, LOGSIZE, {}), RedoLog.Recovered(lay, d), h, 0, Up))
    ensures var base := RedoLog.Recovered(lay, d);
      From(lay, d, ss', es', Sys(p, base, h, 0, Committing(base, Filled(b, LOGSIZE, {}).lh, 0)))
  {
    hide RedoLog.Recovered, From, AllHome;
    var full := Filled(b, LOGSIZE, {});
    var base := RedoLog.Recovered(lay, d);
    var p1 := full.(ops := map[1 := 10, 2 := 10]);
    var p2 := full.(ops := map[2 := 10]);
    p := full.(ops := map[], committing := true);
    ThreeEnds(b);
    ss', es' := Then(lay, d, ss, es, Sys(full, base, h, 0, Up), Op(End(0), data));
    ss', es' := Then(lay, d, ss', es', Sys(p1, base, h, 0, Up), Op(End(1), data));
    ss', es' := Then(lay, d, ss', es', Sys(p2, base, h, 0, Up), Op(End(2), data));
  }

  lemma ThreeEnds(b: nat)
    ensures var full := Filled(b, LOGSIZE, {});
      var p1, p2 := full.(ops := map[1 := 10, 2 := 10]), full.(ops := map[2 := 10]);
      && Enabled(full, LOGSIZE, End(0)) && Do(full, LOGSIZE, End(0)) == p1
      && Enabled(p1, LOGSIZE, End(1)) && Do(p1, LOGSIZE, End(1)) == p2
      && Enabled(p2, LOGSIZE, End(2)) && Do(p2, LOGSIZE, End(2)) == full.(ops := map[], committing := true)
  {
    var full := Filled(b, LOGSIZE, {});
    assert full.ops - {0} == map[1 := 10, 2 := 10];
    assert map[1 := 10, 2 := 10] - {1} == map[2 := 10];
    assert map[2 := 10] - {2} == map[];
    assert |map[1 := 10, 2 := 10]| == 2;
    assert |map[2 := 10]| == 1;
  }

  lemma {:induction false} CopyOut(lay: Layout, d: Disk, b: nat, ss: seq<Sys>, es: seq<Event>, h: seq<Update>,
                                   p: Proto, m: nat)
    returns (ss': seq<Sys>, es': seq<Event>)
    requires GoodHead(lay, d) && lay.size == LOGSIZE && Behind(lay, d, b) && m <= LOGSIZE
    requires AllHome(lay, RedoLog.Recovered(lay, d), h)
    requires var base := RedoLog.Recovered(lay, d);
      From(lay, d, ss, es, Sys(p, base, h, 0, Committing(base, Filled(b, LOGSIZE, {}).lh, 0)))
    ensures var base := RedoLog.Recovered(lay, d);
      var blks := Filled(b, LOGSIZE, {}).lh;
      && LayoutOk(lay, base) && Listed(lay, base, blks)
      && From(lay, d, ss', es', Sys(p, CopyToLog(lay, base, blks, Play(lay, base, h), m), h, 0,
                                    Committing(base, blks, m)))
  {
    hide RedoLog.Recovered, From, AllHome, Play;
    var base := RedoLog.Recovered(lay, d);
    var blks := Filled(b, LOGSIZE, {}).lh;
    assert Listed(lay, base, blks);
    if m == 0 {
      ss', es' := ss, es;
    } else {
      ss', es' := CopyOut(lay, d, b, ss, es, h, p, m - 1);
      var s := Sys(p, CopyToLog(lay, base, blks, Play(lay, base, h), m - 1), h, 0, Committing(base, blks, m - 1));
      assert WithinBudget(p.ops, MAXOPBLOCKS) by { LastSparing(lay, d, ss', es', s); }
      ss', es' := Then(lay, d, ss', es', s, DiskWrite);
    }
  }

  lemma LastSparing(lay: Layout, d: Disk, ss: seq<Sys>, es: seq<Event>, last: Sys)
    requires GoodHead(lay, d) && From(lay, d, ss, es, last)
    ensures WithinBudget(last.proto.ops, MAXOPBLOCKS)
  {
  }

  // What the run leaves on disk

  lemma {:induction false} PlayConstant(lay: Layout, base: Disk, h: seq<Update>, data: Block, i: nat)
    requires AllHome(lay, base, h) && i < |h| && forall j :: 0 <= j < |h| ==> h[j].data == data
    ensures Play(lay, base, h)[h[i].blockno] == data
  {
    var front := h[..|h| - 1];
    if i < |h| - 1 {
      PlayConstant(lay, base, front, data, i);
    }
  }

  lemma {:induction false} CopyKeepsHead(lay: Layout, d: Disk, blks: seq<nat>, view: Disk, m: nat)
    requires LayoutOk(lay, d) && Listed(lay, d, blks) && |view| == |d| && m <= |blks|
    ensures CopyToLog(lay, d, blks, view, m)[lay.start] == d[lay.start]
  {
    if m > 0 {
      CopyKeepsHead(lay, d, blks, view, m - 1);
    }
  }

  lemma EmptyHead(lay: Layout, d: Disk)
    requires GoodHead(lay, d)
    ensures HeadCount(RedoLog.Recovered(lay, d)[lay.start]) == 0
  {
    HeadRoundTrip(d[lay.start], []);
  }

  /** After the last log copy the block behind the log area holds what the last logged block should get. */
  lemma LastCopySpoils(lay: Layout, d: Disk, data: Block, b: nat, h: seq<Update>)
    requires GoodHead(lay, d) && lay.size == LOGSIZE && Behind(lay, d, b)
    requires Wrote(h, data, b, Filled(b, LOGSIZE, {}).lh) && data != RedoLog.Recovered(lay, d)[lay.start + LOGSIZE]
    ensures var base := RedoLog.Recovered(lay, d);
      var blks := Filled(b, LOGSIZE, {}).lh;
      && AllHome(lay, base, h) && LayoutOk(lay, base) && Listed(lay, base, blks)
      && var disk := CopyToLog(lay, base, blks, Play(lay, base, h), LOGSIZE);
         GoodHead(lay, disk) && !SameHome(lay, RedoLog.Recovered(lay, disk), base)
  {
    hide RedoLog.Recovered, Play;
    var base := RedoLog.Recovered(lay, d);
    var blks := Filled(b, LOGSIZE, {}).lh;
    assert AllHome(lay, base, h);
    assert Listed(lay, base, blks);
    var disk := CopyToLog(lay, base, blks, Play(lay, base, h), LOGSIZE);
    assert Updates(h, blks[LOGSIZE - 1]);
    var i :| 0 <= i < |h| && h[i].blockno == blks[LOGSIZE - 1];
    PlayConstant(lay, base, h, data, i);
    assert disk[lay.start + LOGSIZE] == data;
    CopyKeepsHead(lay, base, blks, Play(lay, base, h), LOGSIZE);
    EmptyHead(lay, d);
    RecoverIdle(lay, disk);
    assert Home(lay, RedoLog.Recovered(lay, disk), lay.start + LOGSIZE);
  }

  lemma Spoil(lay: Layout, d: Disk, data: Block, b: nat) returns (ss: seq<Sys>, es: seq<Event>)
    requires GoodHead(lay, d) && lay.size == LOGSIZE && Behind(lay, d, b)
    requires data != RedoLog.Recovered(lay, d)[lay.start + LOGSIZE]
    ensures SpoilingRun(lay, RedoLog.Recovered(lay, d), d, ss, es, MAXOPBLOCKS)
  {
    hide GoodHead, RedoLog.Recovered, CrashRun, Run, Filled, Sparing, SameHome, Play, AllHome;
    var ps, steps := Overfill(b);
    var h, p;
    ss, es, h := Lift(lay, d, data, b, ps, steps, |steps|);
    LastCopySpoils(lay, d, data, b, h);
    ss, es, p := EndAll(lay, d, data, b, ss, es, h);
    ss, es := CopyOut(lay, d, b, ss, es, h, p, LOGSIZE);
    assert Play(lay, RedoLog.Recovered(lay, d), h[..0]) == RedoLog.Recovered(lay, d) by {
      PlayNothing(lay, RedoLog.Recovered(lay, d), h);
    }
  }

  lemma PlayNothing(lay: Layout, base: Disk, h: seq<Update>)
    requires AllHome(lay, base, h)
    ensures AllHome(lay, base, h[..0]) && Play(lay, base, h[..0]) == base
  {
  }

  /** On a disk whose log area has nlog == LOGSIZE blocks, as mkfs makes it, some run of operations that add at
      most k blocks each is not crash safe, exactly when k reaches the promised MAXOPBLOCKS. */
  lemma SpoiledExactlyAtFullBudget(lay: Layout, d: Disk, k: nat)
    requires GoodHead(lay, d) && lay.size == LOGSIZE && Behind(lay, d, lay.start + LOGSIZE)
    ensures (exists ss: seq<Sys>, es: seq<Event> :: SpoilingRun(lay, RedoLog.Recovered(lay, d), d, ss, es, k))
            <==> k >= MAXOPBLOCKS
  {
    hide GoodHead, RedoLog.Recovered, CrashRun, Spoiled;
    var base := RedoLog.Recovered(lay, d);
    if k >= MAXOPBLOCKS {
      var data := Other(base[lay.start + LOGSIZE]);
      var ss, es := Spoil(lay, d, data, lay.start + LOGSIZE);
      assert SpoilingRun(lay, base, d, ss, es, k);
    } else {
      forall ss: seq<Sys>, es: seq<Event> ensures !SpoilingRun(lay, base, d, ss, es, k) {
        if SpoilingRun(lay, base, d, ss, es, k) {
          NotSpoiled(lay, base, d, ss, es, k);
        }
      }
    }
  }

  lemma NotSpoiled(lay: Layout, base: Disk, d: Disk, ss: seq<Sys>, es: seq<Event>, k: nat)
    requires CrashRun(lay, base, d, ss, es) && Sparing(ss, k) && lay.size == LOGSIZE && k < MAXOPBLOCKS
    ensures !Spoiled(lay, base, ss[|es|])
  {
    hide Placed, EventEnabled, Next, SameHome, RedoLog.Recovered, Play, GoodHead;
    CrashSafety(lay, base, d, ss, es, k, |es|);
  }

  function Other(x: Block): (y: Block)
    ensures x != y
  {
    Sector(x.bytes[0 := if x.bytes[0] == 0 then 1 else 0])
  }
}
