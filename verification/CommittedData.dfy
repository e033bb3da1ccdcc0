/** What a crash leaves of each log_write (v3/log.c), told by the events and the disk alone: block contents written
    by events that a commit header has made durable, the latest for each block, and the first disk elsewhere. */
module CommittedData {
  import opened Blocks
  import opened LogProtocol
  import opened RedoLog
  import opened CrashRuns

  /** Event e is a log_write of block b. */
  predicate WritesTo(e: Event, b: nat) {
    e.Op? && e.step.Append? && e.step.blockno == b
  }

  /** The header on disk goes from empty to not empty in event m: a commit. */
  predicate Commits(lay: Layout, ss: seq<Sys>, m: nat) {
    && m + 1 < |ss| && lay.start < |ss[m].disk| && lay.start < |ss[m + 1].disk|
    && HeadCount(ss[m].disk[lay.start]) == 0 && HeadCount(ss[m + 1].disk[lay.start]) > 0
  }

  /** Event j comes before event m, and no crash between them. */
  ghost predicate SameBoot(es: seq<Event>, j: nat, m: nat) {
    j < m <= |es| && forall x :: j < x < m ==> !es[x].Crash?
  }

  /** By state i, event j has been followed by a commit without a crash in between. */
  ghost predicate Durable(lay: Layout, ss: seq<Sys>, es: seq<Event>, j: nat, i: nat) {
    exists m: nat :: m < i && SameBoot(es, j, m) && Commits(lay, ss, m)
  }

  // The events behind the history

  /** The log_writes that the history holds in state i, and how many of them are committed. */
  datatype Track = Track(events: seq<nat>, cut: nat)

  ghost function TrackAt(lay: Layout, ss: seq<Sys>, es: seq<Event>, i: nat): (t: Track)
    requires i <= |es| && |ss| == |es| + 1
    ensures t.cut <= |t.events|
  {
    if i == 0 then Track([], 0)
    else
      var t := TrackAt(lay, ss, es, i - 1);
      var e := es[i - 1];
      if e.Op? && e.step.Append? then t.(events := t.events + [i - 1])
      else if e.Crash? then t.(events := t.events[..t.cut])
      else if Commits(lay, ss, i - 1) then t.(cut := |t.events|)
      else t
  }

  function UpdateOf(e: Event): Update
    requires e.Op? && e.step.Append?
  {
    Update(e.step.op, e.step.blockno, e.data)
  }

  /** The history is that of the events. */
  ghost predicate Told(es: seq<Event>, i: nat, t: Track, s: Sys) {
    && i <= |es| && s.cut == t.cut && |s.hist| == |t.events|
    && forall k :: 0 <= k < |t.events| ==>
         && t.events[k] < i && es[t.events[k]].Op? && es[t.events[k]].step.Append?
         && s.hist[k] == UpdateOf(es[t.events[k]])
  }

  /** Only the header write of a commit turns an empty header into another. */
  lemma CommitsExactly(lay: Layout, base: Disk, s: Sys, e: Event)
    requires SysInv(lay, base, s) && EventEnabled(lay, base, s, e)
    ensures |s.disk| == |base| == |Next(lay, base, s, e).disk| && lay.start < |base|
    ensures HeadCount(s.disk[lay.start]) == 0 && HeadCount(Next(lay, base, s, e).disk[lay.start]) > 0 <==>
              e.DiskWrite? && s.mode.Committing? && s.mode.done == |s.mode.blks|
  {
    hide SameHome, Covers, HistInv, Play, Inv;
    DiskSize(lay, base, s);
    match s.mode
    case Up =>
    case Committing(from, blks, done) => CommitHeads(lay, from, blks, Play(lay, base, s.hist), done);
    case Recovering(from, done) => RecoveryHeads(lay, from, done);
  }

  lemma DiskSize(lay: Layout, base: Disk, s: Sys)
    requires SysInv(lay, base, s)
    ensures |s.disk| == |base| && lay.start < |base| && (s.mode.Recovering? ==> |s.mode.from| == |base|)
  {
    hide Covers, HistInv, Inv;
    if s.mode.Recovering? {
      RecoveryHead(lay, s.mode.from, s.mode.done);
    }
  }

  /** The header after each write of a commit. */
  lemma CommitHeads(lay: Layout, d: Disk, blks: seq<nat>, view: Disk, j: nat)
    requires LayoutOk(lay, d) && HomeList(lay, d, blks) && |view| == |d| && j <= 2 * |blks| + 2
    requires HeadCount(d[lay.start]) == 0
    ensures HeadCount(CommitImage(lay, d, blks, view, j)[lay.start]) ==
            if |blks| < j < 2 * |blks| + 2 then |blks| else 0
    ensures j <= 2 * |blks| + 1 ==> HeadCount(CommitImage(lay, d, blks, view, j + 1)[lay.start]) ==
                                    if |blks| < j + 1 < 2 * |blks| + 2 then |blks| else 0
  {
    CommitHead(lay, d, blks, view, j);
    if j <= 2 * |blks| + 1 {
      CommitHead(lay, d, blks, view, j + 1);
    }
  }

  lemma CommitHead(lay: Layout, d: Disk, blks: seq<nat>, view: Disk, j: nat)
    requires LayoutOk(lay, d) && HomeList(lay, d, blks) && |view| == |d| && j <= 2 * |blks| + 2
    requires HeadCount(d[lay.start]) == 0
    ensures HeadCount(CommitImage(lay, d, blks, view, j)[lay.start]) ==
            if |blks| < j < 2 * |blks| + 2 then |blks| else 0
  {
    hide Install, CopyToLog, HeadCount, PutHead;
    if j <= |blks| {
      CopyToLogAt(lay, d, blks, view, j);
    } else {
      var sealed := Sealed(lay, d, blks, view);
      SealedHead(lay, d, blks, view);
      HeadRoundTrip(sealed[lay.start], []);
      SealedCount(lay, d, blks, view);
      assert HomeList(lay, sealed, blks) by {
        assert forall i :: 0 <= i < |blks| ==> Home(lay, d, blks[i]);
      }
      if j <= 2 * |blks| + 1 {
        LogAreaKept(lay, sealed, blks, j - |blks| - 1);
      }
    }
  }

  lemma SealedCount(lay: Layout, d: Disk, blks: seq<nat>, view: Disk)
    requires LayoutOk(lay, d) && HomeList(lay, d, blks) && |view| == |d|
    ensures HeadCount(Sealed(lay, d, blks, view)[lay.start]) == |blks|
  {
    assert forall i :: 0 <= i < |blks| ==> Home(lay, d, blks[i]);
    HeadRoundTrip(d[lay.start], blks);
  }

  /** Recovery never fills an empty header. */
  lemma RecoveryHeads(lay: Layout, d: Disk, j: nat)
    requires GoodHead(lay, d) && j <= HeadCount(d[lay.start]) + 1
    ensures |RecoveryImage(lay, d, j)| == |d|
    ensures HeadCount(RecoveryImage(lay, d, j)[lay.start]) ==
            if j <= HeadCount(d[lay.start]) then HeadCount(d[lay.start]) else 0
    ensures j <= HeadCount(d[lay.start]) && HeadCount(RecoveryImage(lay, d, j)[lay.start]) == 0 ==>
              HeadCount(RecoveryImage(lay, d, j + 1)[lay.start]) == 0
  {
    RecoveryHead(lay, d, j);
    if j <= HeadCount(d[lay.start]) {
      RecoveryHead(lay, d, j + 1);
    }
  }

  lemma RecoveryHead(lay: Layout, d: Disk, j: nat)
    requires GoodHead(lay, d) && j <= HeadCount(d[lay.start]) + 1
    ensures |RecoveryImage(lay, d, j)| == |d|
    ensures HeadCount(RecoveryImage(lay, d, j)[lay.start]) ==
            if j <= HeadCount(d[lay.start]) then HeadCount(d[lay.start]) else 0
  {
    hide Install, PutHead, HeadCount;
    var blks := HeadList(d[lay.start]);
    if j <= |blks| {
      LogAreaKept(lay, d, blks, j);
    } else {
      HeadRoundTrip(d[lay.start], []);
    }
  }

  lemma EventTells(lay: Layout, base: Disk, ss: seq<Sys>, es: seq<Event>, i: nat)
    requires i < |es| && |ss| == |es| + 1 && SysInv(lay, base, ss[i]) && EventEnabled(lay, base, ss[i], es[i])
    requires ss[i + 1] == Next(lay, base, ss[i], es[i]) && Told(es, i, TrackAt(lay, ss, es, i), ss[i])
    ensures Told(es, i + 1, TrackAt(lay, ss, es, i + 1), ss[i + 1])
  {
    hide SysInv, CommitImage, RecoveryImage, Play;
    CommitsExactly(lay, base, ss[i], es[i]);
    assert Commits(lay, ss, i) <==>
             es[i].DiskWrite? && ss[i].mode.Committing? && ss[i].mode.done == |ss[i].mode.blks|;
  }

  /** In every state of every run the history holds, in order and with their contents, the log_writes that no crash
      has discarded, and the cut is behind those that are committed. */
  lemma {:induction false} HistoryIsTold(lay: Layout, base: Disk, d: Disk, ss: seq<Sys>, es: seq<Event>, k: nat, i: nat)
    requires CrashRun(lay, base, d, ss, es) && Budgeted(lay, ss, k) && i < |ss|
    ensures Told(es, i, TrackAt(lay, ss, es, i), ss[i])
  {
    hide Next, EventEnabled, SysInv, Placed;
    if i > 0 {
      HistoryIsTold(lay, base, d, ss, es, k, i - 1);
      CrashRunKeepsInv(lay, base, d, ss, es, k, i - 1);
      EventTells(lay, base, ss, es, i - 1);
    }
  }

  // Which events are durable

  /** Log_writes before event i, in order. */
  ghost predicate Rising(es: seq<Event>, t: seq<nat>, i: nat) {
    && i <= |es| && (forall a, b :: 0 <= a < b < |t| ==> t[a] < t[b])
    && (forall a :: 0 <= a < |t| ==> t[a] < i && es[t[a]].Op? && es[t[a]].step.Append?)
  }

  lemma RisingOn(es: seq<Event>, t: seq<nat>, i: nat, c: nat)
    requires Rising(es, t, i) && i < |es| && c <= |t|
    ensures Rising(es, t, i + 1) && Rising(es, t[..c], i + 1)
    ensures es[i].Op? && es[i].step.Append? ==> Rising(es, t + [i], i + 1)
  {
  }

  lemma {:induction false} Increasing(lay: Layout, ss: seq<Sys>, es: seq<Event>, i: nat)
    requires i <= |es| && |ss| == |es| + 1
    ensures Rising(es, TrackAt(lay, ss, es, i).events, i)
  {
    hide Rising;
    if i > 0 {
      Increasing(lay, ss, es, i - 1);
      var t := TrackAt(lay, ss, es, i - 1);
      RisingOn(es, t.events, i - 1, t.cut);
    } else {
      NothingRises(es);
    }
  }

  lemma NothingRises(es: seq<Event>)
    ensures Rising(es, [], 0)
  {
  }

  /** Event j is among those that count in state i. */
  ghost predicate Counted(lay: Layout, ss: seq<Sys>, es: seq<Event>, j: nat, i: nat)
    requires i <= |es| && |ss| == |es| + 1
  {
    var t := TrackAt(lay, ss, es, i);
    j in t.events[..t.cut]
  }

  ghost predicate Pending(lay: Layout, ss: seq<Sys>, es: seq<Event>, j: nat, i: nat)
    requires i <= |es| && |ss| == |es| + 1
  {
    j in TrackAt(lay, ss, es, i).events
  }

  lemma DurableLater(lay: Layout, ss: seq<Sys>, es: seq<Event>, j: nat, i: nat)
    requires i < |es| && |ss| == |es| + 1
    ensures Durable(lay, ss, es, j, i + 1) <==>
              Durable(lay, ss, es, j, i) || (SameBoot(es, j, i) && Commits(lay, ss, i))
  {
    if Durable(lay, ss, es, j, i) {
      var m: nat :| m < i && SameBoot(es, j, m) && Commits(lay, ss, m);
      assert m < i + 1;
    }
  }

  lemma SameBootLater(es: seq<Event>, j: nat, i: nat)
    requires j < i < |es|
    ensures SameBoot(es, j, i + 1) <==> SameBoot(es, j, i) && !es[i].Crash?
  {
  }

  /** The events behind the history are the log_writes of this boot and the durable ones; those in front of the cut
      are the durable ones. */
  lemma {:induction false} CountedExactly(lay: Layout, ss: seq<Sys>, es: seq<Event>, j: nat, i: nat)
    requires i <= |es| && |ss| == |es| + 1 && j < |es| && es[j].Op? && es[j].step.Append?
    requires forall m: nat :: Commits(lay, ss, m) && m < |es| ==> es[m].DiskWrite?
    ensures Counted(lay, ss, es, j, i) <==> Durable(lay, ss, es, j, i)
    ensures Pending(lay, ss, es, j, i) <==> Durable(lay, ss, es, j, i) || SameBoot(es, j, i)
  {
    hide TrackAt, Counted, Pending, Durable, Commits;
    if i == 0 {
      NothingCounted(lay, ss, es, j);
    } else {
      CountedExactly(lay, ss, es, j, i - 1);
      DurableLater(lay, ss, es, j, i - 1);
      if j < i - 1 {
        SameBootLater(es, j, i - 1);
      }
      CountedStep(lay, ss, es, j, i - 1);
    }
  }

  lemma NothingCounted(lay: Layout, ss: seq<Sys>, es: seq<Event>, j: nat)
    requires |ss| == |es| + 1
    ensures !Counted(lay, ss, es, j, 0) && !Pending(lay, ss, es, j, 0) && !Durable(lay, ss, es, j, 0)
  {
  }

  lemma CountedStep(lay: Layout, ss: seq<Sys>, es: seq<Event>, j: nat, i: nat)
    requires i < |es| && |ss| == |es| + 1
    ensures var e := es[i];
      && (Pending(lay, ss, es, j, i + 1) <==>
            if e.Op? && e.step.Append? then Pending(lay, ss, es, j, i) || j == i
            else if e.Crash? then Counted(lay, ss, es, j, i) else Pending(lay, ss, es, j, i))
      && (Counted(lay, ss, es, j, i + 1) <==>
            if !(e.Op? && e.step.Append?) && !e.Crash? && Commits(lay, ss, i) then Pending(lay, ss, es, j, i)
            else Counted(lay, ss, es, j, i))
  {
    var t, t' := TrackAt(lay, ss, es, i), TrackAt(lay, ss, es, i + 1);
    assert t'.events[..t'.cut] ==
           if !(es[i].Op? && es[i].step.Append?) && !es[i].Crash? && Commits(lay, ss, i) then t.events
           else t.events[..t.cut];
  }

  // What is on disk

  /** The last update of a block decides, or the first disk if there is none. */
  lemma PlayLast(lay: Layout, base: Disk, h: seq<Update>, b: nat, k: nat)
    requires AllHome(lay, base, h) && b < |base| && k <= |h|
    requires forall l :: k <= l < |h| ==> h[l].blockno != b
    requires k > 0 ==> h[k - 1].blockno == b
    ensures Play(lay, base, h)[b] == if k == 0 then base[b] else h[k - 1].data
  {
    PlayAt(lay, base, h, k, b);
    if k > 0 {
      assert h[..k][..k - 1] == h[..k - 1] && h[..k][k - 1] == h[k - 1];
    }
  }

  /** No later log_write of the block is durable. */
  ghost predicate LastDurable(lay: Layout, ss: seq<Sys>, es: seq<Event>, b: nat, j: nat, i: nat) {
    && j < |es| && WritesTo(es[j], b) && Durable(lay, ss, es, j, i)
    && forall l :: j < l < |es| && WritesTo(es[l], b) ==> !Durable(lay, ss, es, l, i)
  }

  ghost predicate NoneDurable(lay: Layout, ss: seq<Sys>, es: seq<Event>, b: nat, i: nat) {
    forall l :: 0 <= l < |es| && WritesTo(es[l], b) ==> !Durable(lay, ss, es, l, i)
  }

  lemma CommitsAreWrites(lay: Layout, base: Disk, d: Disk, ss: seq<Sys>, es: seq<Event>, k: nat)
    requires CrashRun(lay, base, d, ss, es) && Budgeted(lay, ss, k)
    ensures forall m: nat :: Commits(lay, ss, m) && m < |es| ==> es[m].DiskWrite?
  {
    hide Next, EventEnabled, SysInv, Placed;
    forall m: nat | Commits(lay, ss, m) && m < |es| ensures es[m].DiskWrite? {
      CrashRunKeepsInv(lay, base, d, ss, es, k, m);
      CommitsExactly(lay, base, ss[m], es[m]);
    }
  }

  /** Every block after a crash: pull the plug in any state i of any run.  Recovery gives each home block the contents
      that the latest durable log_write of it had, absorbed or not, and leaves a block without one as the first
      boot found it. */
  lemma BlockAfterCrash(lay: Layout, base: Disk, d: Disk, ss: seq<Sys>, es: seq<Event>, k: nat, i: nat, b: nat)
    requires CrashRun(lay, base, d, ss, es) && Budgeted(lay, ss, k) && i < |ss| && Home(lay, base, b)
    ensures GoodHead(lay, ss[i].disk) && |ss[i].disk| == |base|
    ensures NoneDurable(lay, ss, es, b, i) ==> RedoLog.Recovered(lay, ss[i].disk)[b] == base[b]
    ensures forall j: nat :: LastDurable(lay, ss, es, b, j, i) ==>
              RedoLog.Recovered(lay, ss[i].disk)[b] == es[j].data
  {
    hide CrashRun, SysInv, RedoLog.Recovered, Play, Durable, GoodHead, Told;
    var s := ss[i];
    RunLength(lay, base, d, ss, es);
    CrashSafety(lay, base, d, ss, es, k, i);
    HistoryIsTold(lay, base, d, ss, es, k, i);
    CommitsAreWrites(lay, base, d, ss, es, k);
    var h := s.hist[..s.cut];
    if NoneDurable(lay, ss, es, b, i) {
      NoUpdate(lay, ss, es, i, b);
      PlayLast(lay, base, h, b, 0);
    }
    forall j: nat | LastDurable(lay, ss, es, b, j, i) ensures RedoLog.Recovered(lay, s.disk)[b] == es[j].data {
      var c := LastUpdate(lay, ss, es, i, b, j);
      PlayLast(lay, base, h, b, c + 1);
    }
  }

  lemma RunLength(lay: Layout, base: Disk, d: Disk, ss: seq<Sys>, es: seq<Event>)
    requires CrashRun(lay, base, d, ss, es)
    ensures |ss| == |es| + 1
  {
  }

  lemma NoUpdate(lay: Layout, ss: seq<Sys>, es: seq<Event>, i: nat, b: nat)
    requires i < |ss| == |es| + 1 && Told(es, i, TrackAt(lay, ss, es, i), ss[i]) && NoneDurable(lay, ss, es, b, i)
    requires forall m: nat :: Commits(lay, ss, m) && m < |es| ==> es[m].DiskWrite?
    ensures ss[i].cut <= |ss[i].hist|
    ensures forall c :: 0 <= c < ss[i].cut ==> ss[i].hist[..ss[i].cut][c].blockno != b
  {
    hide TrackAt, Commits, Durable;
    var t := TrackAt(lay, ss, es, i);
    forall c | 0 <= c < t.cut ensures ss[i].hist[..ss[i].cut][c].blockno != b {
      var j := t.events[c];
      assert j == t.events[..t.cut][c];
      CountedExactly(lay, ss, es, j, i);
    }
  }

  /** Where the latest durable log_write stands in the history. */
  lemma LastUpdate(lay: Layout, ss: seq<Sys>, es: seq<Event>, i: nat, b: nat, j: nat) returns (c: nat)
    requires i < |ss| == |es| + 1 && Told(es, i, TrackAt(lay, ss, es, i), ss[i])
    requires LastDurable(lay, ss, es, b, j, i)
    requires forall m: nat :: Commits(lay, ss, m) && m < |es| ==> es[m].DiskWrite?
    ensures c < ss[i].cut <= |ss[i].hist| && ss[i].hist[c] == UpdateOf(es[j]) && ss[i].hist[c].blockno == b
    ensures forall l :: c < l < ss[i].cut ==> ss[i].hist[..ss[i].cut][l].blockno != b
  {
    hide TrackAt, Commits, Durable;
    var t := TrackAt(lay, ss, es, i);
    CountedExactly(lay, ss, es, j, i);
    Increasing(lay, ss, es, i);
    c :| 0 <= c < t.cut && t.events[..t.cut][c] == j;
    forall l | c < l < t.cut ensures ss[i].hist[..ss[i].cut][l].blockno != b {
      var j' := t.events[l];
      assert j' == t.events[..t.cut][l] && j < j';
      CountedExactly(lay, ss, es, j', i);
    }
  }
}
