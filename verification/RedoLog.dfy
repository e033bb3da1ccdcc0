/** The on-disk redo log (v3/log.c): a header block naming home blocks, followed by their
    new contents.  Everything here is about disk images, before any caching. */
module RedoLog {
  import opened Blocks
  import opened LogProtocol

  type Disk = seq<Block>

  /** log.start and log.size: the header is block start, data blocks follow it. */
  datatype Layout = Layout(start: nat, size: nat)

  predicate InLog(lay: Layout, b: nat) {
    lay.start <= b < lay.start + lay.size
  }

  predicate LayoutOk(lay: Layout, d: Disk) {
    1 <= lay.size && lay.start + lay.size <= |d| <= UINT
  }

  predicate Home(lay: Layout, d: Disk, b: nat) {
    b < |d| && !InLog(lay, b)
  }

  /** A transaction's block list: distinct home blocks that the in-memory header has room for, and a disk with
      as many blocks behind the log's header block. */
  predicate Listed(lay: Layout, d: Disk, blks: seq<nat>) {
    && NoDuplicates(blks) && |blks| <= LOGSIZE && lay.start + |blks| < |d|
    && forall i :: 0 <= i < |blks| ==> Home(lay, d, blks[i])
  }

  /** A block list that is also few enough for the log area. */
  predicate HomeList(lay: Layout, d: Disk, blks: seq<nat>) {
    Listed(lay, d, blks) && |blks| < lay.size
  }

  /** The t-th data block of the log area. */
  function Slot(lay: Layout, d: Disk, t: nat): Block
    requires lay.start + 1 + t < |d|
  {
    d[lay.start + 1 + t]
  }

  // The header block

  function HeadCount(hb: Block): nat {
    WordAt(hb, 0)
  }

  function HeadList(hb: Block): seq<nat>
    requires HeadCount(hb) < WORDS
  {
    seq(HeadCount(hb), i requires 0 <= i < HeadCount(hb) => WordAt(hb, i + 1) as nat)
  }

  /** write_head after its first k entries: stale entries beyond stay as they were. */
  function PutHead(hb: Block, blks: seq<nat>, k: nat): Block
    requires k <= |blks| <= LOGSIZE && forall i :: 0 <= i < |blks| ==> blks[i] < UINT
  {
    if k == 0 then SetWord(hb, 0, |blks|) else SetWord(PutHead(hb, blks, k - 1), k, blks[k - 1])
  }

  lemma {:induction false} PutHeadWords(hb: Block, blks: seq<nat>, k: nat)
    requires k <= |blks| <= LOGSIZE && forall i :: 0 <= i < |blks| ==> blks[i] < UINT
    ensures HeadCount(PutHead(hb, blks, k)) == |blks|
    ensures forall i :: 0 <= i < k ==> WordAt(PutHead(hb, blks, k), i + 1) == blks[i]
  {
    if k == 0 {
      WordOfSetWord(hb, 0, |blks|, 0);
    } else {
      PutHeadWords(hb, blks, k - 1);
      forall j | 0 <= j <= k
        ensures WordAt(PutHead(hb, blks, k), j) == if j == k then blks[k - 1] else WordAt(PutHead(hb, blks, k - 1), j)
      {
        WordOfSetWord(PutHead(hb, blks, k - 1), k, blks[k - 1], j);
      }
    }
  }

  /** What write_head stores, read_head finds again. */
  lemma HeadRoundTrip(hb: Block, blks: seq<nat>)
    requires |blks| <= LOGSIZE && forall i :: 0 <= i < |blks| ==> blks[i] < UINT
    ensures HeadCount(PutHead(hb, blks, |blks|)) == |blks|
    ensures HeadList(PutHead(hb, blks, |blks|)) == blks
  {
    PutHeadWords(hb, blks, |blks|);
  }

  // Recovery

  predicate GoodHead(lay: Layout, d: Disk) {
    && LayoutOk(lay, d)
    && HeadCount(d[lay.start]) < WORDS
    && HomeList(lay, d, HeadList(d[lay.start]))
  }

  /** install_trans after its first k copies. */
  function Install(lay: Layout, d: Disk, blks: seq<nat>, k: nat): (r: Disk)
    requires LayoutOk(lay, d) && Listed(lay, d, blks) && k <= |blks|
    ensures |r| == |d|
  {
    if k == 0 then d else
      var r := Install(lay, d, blks, k - 1);
      r[blks[k - 1] := Slot(lay, r, k - 1)]
  }

  lemma {:induction false} InstallAt(lay: Layout, d: Disk, blks: seq<nat>, k: nat)
    requires LayoutOk(lay, d) && HomeList(lay, d, blks) && k <= |blks|
    ensures forall t :: 0 <= t < k ==> Install(lay, d, blks, k)[blks[t]] == Slot(lay, d, t)
    ensures forall b :: 0 <= b < |d| && b !in blks[..k] ==> Install(lay, d, blks, k)[b] == d[b]
  {
    if k > 0 {
      InstallAt(lay, d, blks, k - 1);
      assert Home(lay, d, blks[k - 1]);
      assert forall t :: 0 <= t < k - 1 ==> Home(lay, d, blks[t]);
      assert blks[..k] == blks[..k - 1] + [blks[k - 1]];
      assert lay.start + k !in blks[..k - 1];
    }
  }

  /** The disk recover_from_log leaves. */
  function Recovered(lay: Layout, d: Disk): (r: Disk)
    requires GoodHead(lay, d)
    ensures |r| == |d|
  {
    var blks := HeadList(d[lay.start]);
    Install(lay, d, blks, |blks|)[lay.start := PutHead(d[lay.start], [], 0)]
  }

  ghost predicate SameHome(lay: Layout, d: Disk, e: Disk) {
    && |d| == |e|
    && forall b: nat :: Home(lay, d, b) ==> d[b] == e[b]
  }

  /** Recovery leaves the home blocks of an unlogged disk alone, and erases the header. */
  lemma RecoverIdle(lay: Layout, d: Disk)
    requires GoodHead(lay, d) && HeadCount(d[lay.start]) == 0
    ensures SameHome(lay, Recovered(lay, d), d)
  {
    RecoveredAt(lay, d);
  }

  lemma RecoveredAt(lay: Layout, d: Disk)
    requires GoodHead(lay, d)
    ensures var blks := HeadList(d[lay.start]);
      && (forall t :: 0 <= t < |blks| ==> Recovered(lay, d)[blks[t]] == Slot(lay, d, t))
      && (forall b :: 0 <= b < |d| && b !in blks && b != lay.start ==> Recovered(lay, d)[b] == d[b])
  {
    var blks := HeadList(d[lay.start]);
    InstallAt(lay, d, blks, |blks|);
    assert blks[..|blks|] == blks;
    assert forall t :: 0 <= t < |blks| ==> Home(lay, d, blks[t]);
  }

  lemma LogAreaKept(lay: Layout, d: Disk, blks: seq<nat>, k: nat)
    requires LayoutOk(lay, d) && HomeList(lay, d, blks) && k <= |blks|
    ensures Install(lay, d, blks, k)[lay.start] == d[lay.start]
    ensures forall t :: 0 <= t < |blks| ==> Slot(lay, Install(lay, d, blks, k), t) == Slot(lay, d, t)
  {
    InstallAt(lay, d, blks, k);
    assert forall t :: 0 <= t < |blks| ==> Home(lay, d, blks[t]);
    assert forall b :: InLog(lay, b) ==> b !in blks[..k];
  }

  /** The disk after the first j block writes of recover_from_log: the home copies in log
      order, then the cleared header. */
  function RecoveryImage(lay: Layout, d: Disk, j: nat): Disk
    requires GoodHead(lay, d) && j <= HeadCount(d[lay.start]) + 1
  {
    var blks := HeadList(d[lay.start]);
    if j <= |blks| then Install(lay, d, blks, j) else Recovered(lay, d)
  }

  /** Recovery interrupted after any number of its writes can be run again: the second run
      ends on the very disk the first one was heading for. */
  lemma RecoveryIsRestartable(lay: Layout, d: Disk, j: nat)
    requires GoodHead(lay, d) && j <= HeadCount(d[lay.start]) + 1
    ensures GoodHead(lay, RecoveryImage(lay, d, j))
    ensures Recovered(lay, RecoveryImage(lay, d, j)) == Recovered(lay, d)
  {
    if j <= HeadCount(d[lay.start]) {
      PartialInstallRecovers(lay, d, j);
    } else {
      RecoveredStaysRecovered(lay, d);
    }
  }

  lemma RecoveredStaysRecovered(lay: Layout, d: Disk)
    requires GoodHead(lay, d)
    ensures GoodHead(lay, Recovered(lay, d))
    ensures Recovered(lay, Recovered(lay, d)) == Recovered(lay, d)
  {
    var hb := d[lay.start];
    HeadRoundTrip(hb, []);
    var d' := Recovered(lay, d);
    RecoveredAt(lay, d');
    assert PutHead(PutHead(hb, [], 0), [], 0) == PutHead(hb, [], 0);
    assert Recovered(lay, d') == d';
  }

  lemma PartialInstallHead(lay: Layout, d: Disk, k: nat)
    requires GoodHead(lay, d) && k <= |HeadList(d[lay.start])|
    ensures var d' := Install(lay, d, HeadList(d[lay.start]), k);
      GoodHead(lay, d') && HeadList(d'[lay.start]) == HeadList(d[lay.start])
  {
    hide Install, HeadList, HeadCount;
    var blks := HeadList(d[lay.start]);
    var d' := Install(lay, d, blks, k);
    assert forall t :: 0 <= t < |blks| ==> Home(lay, d, blks[t]) && Home(lay, d', blks[t]);
    LogAreaKept(lay, d, blks, k);
  }

  lemma PartialInstallRecovers(lay: Layout, d: Disk, k: nat)
    requires GoodHead(lay, d) && k <= |HeadList(d[lay.start])|
    ensures var d' := Install(lay, d, HeadList(d[lay.start]), k);
      GoodHead(lay, d') && Recovered(lay, d') == Recovered(lay, d)
  {
    hide Install, HeadList, HeadCount, NoDuplicates;
    var blks := HeadList(d[lay.start]);
    var d' := Install(lay, d, blks, k);
    InstallAt(lay, d, blks, k);
    PartialInstallHead(lay, d, k);
    LogAreaKept(lay, d, blks, k);
    RecoveredAt(lay, d);
    RecoveredAt(lay, d');
    forall b | 0 <= b < |d|
      ensures Recovered(lay, d')[b] == Recovered(lay, d)[b]
    {
      if b in blks {
        var t :| 0 <= t < |blks| && blks[t] == b;
      }
    }
  }

  // Commit

  /** write_log after its first k copies of cached blocks into the log area. */
  function CopyToLog(lay: Layout, d: Disk, blks: seq<nat>, view: Disk, k: nat): (r: Disk)
    requires LayoutOk(lay, d) && Listed(lay, d, blks) && |view| == |d| && k <= |blks|
    ensures |r| == |d|
  {
    if k == 0 then d else
      assert Home(lay, d, blks[k - 1]);
      CopyToLog(lay, d, blks, view, k - 1)[lay.start + k := view[blks[k - 1]]]
  }

  /** The disk once write_head has put the block list behind a complete log. */
  function Sealed(lay: Layout, d: Disk, blks: seq<nat>, view: Disk): (r: Disk)
    requires LayoutOk(lay, d) && Listed(lay, d, blks) && |view| == |d|
    ensures |r| == |d|
  {
    assert forall i :: 0 <= i < |blks| ==> Home(lay, d, blks[i]);
    CopyToLog(lay, d, blks, view, |blks|)[lay.start := PutHead(d[lay.start], blks, |blks|)]
  }

  /** The disk after the first j block writes of commit() for the logged blocks `blks` whose
      cached contents are in `view`: n log copies, the header, n home copies, the cleared
      header. */
  function CommitImage(lay: Layout, d: Disk, blks: seq<nat>, view: Disk, j: nat): (r: Disk)
    requires LayoutOk(lay, d) && Listed(lay, d, blks) && |view| == |d| && j <= 2 * |blks| + 2
    ensures |r| == |d|
  {
    var n := |blks|;
    if j <= n then CopyToLog(lay, d, blks, view, j) else
      var sealed := Sealed(lay, d, blks, view);
      assert Listed(lay, sealed, blks);
      if j <= 2 * n + 1 then Install(lay, sealed, blks, j - n - 1)
      else Install(lay, sealed, blks, n)[lay.start := PutHead(sealed[lay.start], [], 0)]
  }

  /** The disk in which the transaction has happened. */
  function Updated(d: Disk, blks: seq<nat>, view: Disk): (r: Disk)
    requires |view| == |d|
    ensures |r| == |d|
    ensures forall b :: 0 <= b < |d| ==> r[b] == if b in blks then view[b] else d[b]
  {
    seq(|d|, b requires 0 <= b < |d| => if b in blks then view[b] else d[b])
  }

  lemma {:induction false} CopyToLogAt(lay: Layout, d: Disk, blks: seq<nat>, view: Disk, k: nat)
    requires LayoutOk(lay, d) && HomeList(lay, d, blks) && |view| == |d| && k <= |blks|
    ensures var r := CopyToLog(lay, d, blks, view, k);
      && (forall t :: 0 <= t < k ==> Home(lay, d, blks[t]) && Slot(lay, r, t) == view[blks[t]])
      && (forall b :: 0 <= b < |d| && !(lay.start < b <= lay.start + k) ==> r[b] == d[b])
  {
    if k > 0 {
      CopyToLogAt(lay, d, blks, view, k - 1);
      assert Home(lay, d, blks[k - 1]);
    }
  }

  lemma SealedHead(lay: Layout, d: Disk, blks: seq<nat>, view: Disk)
    requires LayoutOk(lay, d) && HomeList(lay, d, blks) && |view| == |d|
    ensures var sealed := Sealed(lay, d, blks, view);
      GoodHead(lay, sealed) && HeadList(sealed[lay.start]) == blks
  {
    hide CopyToLog, PutHead, HeadList, HeadCount;
    assert forall i :: 0 <= i < |blks| ==> Home(lay, d, blks[i]) && Home(lay, Sealed(lay, d, blks, view), blks[i]);
    HeadRoundTrip(d[lay.start], blks);
  }

  lemma SealedRecovers(lay: Layout, d: Disk, blks: seq<nat>, view: Disk)
    requires LayoutOk(lay, d) && HomeList(lay, d, blks) && |view| == |d|
    ensures var sealed := Sealed(lay, d, blks, view);
      && GoodHead(lay, sealed) && HeadList(sealed[lay.start]) == blks
      && SameHome(lay, Recovered(lay, sealed), Updated(d, blks, view))
  {
    hide CopyToLog, PutHead, HeadList, HeadCount, Recovered, NoDuplicates;
    var sealed := Sealed(lay, d, blks, view);
    SealedHead(lay, d, blks, view);
    CopyToLogAt(lay, d, blks, view, |blks|);
    RecoveredAt(lay, sealed);
    var r := Recovered(lay, sealed);
    forall b: nat | Home(lay, d, b) ensures r[b] == Updated(d, blks, view)[b] {
      if b in blks {
        var t :| 0 <= t < |blks| && blks[t] == b;
        assert r[blks[t]] == Slot(lay, sealed, t);
      }
    }
  }

  /** Crash atomicity of one commit: however many of its writes reach the disk, recovery
      then leaves the old home blocks up to and including the last log copy, and the new
      ones from the first header write on. */
  lemma CommitIsAtomic(lay: Layout, d: Disk, blks: seq<nat>, view: Disk, j: nat)
    requires LayoutOk(lay, d) && HomeList(lay, d, blks) && |view| == |d|
    requires HeadCount(d[lay.start]) == 0 && j <= 2 * |blks| + 2
    ensures GoodHead(lay, CommitImage(lay, d, blks, view, j))
    ensures SameHome(lay, Recovered(lay, CommitImage(lay, d, blks, view, j)),
                     if j <= |blks| then d else Updated(d, blks, view))
  {
    if j <= |blks| {
      CopyToLogAt(lay, d, blks, view, j);
      RecoverIdle(lay, CommitImage(lay, d, blks, view, j));
    } else {
      SealedRecovers(lay, d, blks, view);
      RecoveryIsRestartable(lay, Sealed(lay, d, blks, view), j - |blks| - 1);
    }
  }
}
