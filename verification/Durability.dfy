/** filewrite (v3/file.c) over the log (v3/log.c): what a crash anywhere in it leaves of the file. */
module Durability {
  import opened Blocks
  import opened LogProtocol
  import opened RedoLog
  import opened CrashRuns
  import opened Ownership
  import opened Contents
  import opened FileSystem

  /** The log_writes of operation op. */
  function Tagged(op: OpId, ws: seq<Write>): (h: seq<Update>)
    ensures |h| == |ws|
  {
    seq(|ws|, k requires 0 <= k < |ws| => Update(op, ws[k].blockno, ws[k].data))
  }

  /** The log_writes of the first m transactions. */
  function Flat(ops: seq<OpId>, txns: seq<Txn>, m: nat): seq<Update>
    requires m <= |txns| == |ops|
  {
    if m == 0 then [] else Flat(ops, txns, m - 1) + Tagged(ops[m - 1], txns[m - 1].writes)
  }

  /** The updates in h by one of the operations `ops`. */
  function Mine(h: seq<Update>, ops: seq<OpId>): seq<Update> {
    if h == [] then [] else
      var u := h[|h| - 1];
      Mine(h[..|h| - 1], ops) + if u.op in ops then [u] else []
  }

  /** Whoever else has updates in h writes only to the blocks `others`. */
  ghost predicate Elsewhere(h: seq<Update>, ops: seq<OpId>, others: set<nat>) {
    forall i :: 0 <= i < |h| ==> h[i].op in ops || h[i].blockno in others
  }

  /** Since the committed history h0 the system has run the first m transactions and then the log_writes `part` of
      the next, with any operations of others on other blocks in between.  The next transaction has ended only if
      `part` is all of it; after a crash there may be nothing of it at all. */
  ghost predicate Running(s: Sys, h0: seq<Update>, others: set<nat>, ops: seq<OpId>, txns: seq<Txn>, m: nat,
                          part: seq<Write>)
  {
    && m <= |txns| == |ops| && |h0| <= s.cut <= |s.hist| && h0 <= s.hist
    && Elsewhere(s.hist[|h0|..], ops, others)
    && var own := Mine(s.hist[|h0|..], ops);
       if m == |txns| then own == Flat(ops, txns, m)
       else
         && own == Flat(ops, txns, m) + Tagged(ops[m], part) && part <= txns[m].writes
         && (part == [] || part == txns[m].writes || ops[m] in s.proto.ops)
  }

  // What is committed are whole transactions

  lemma {:induction false} FlatGrows(ops: seq<OpId>, txns: seq<Txn>, k: nat, m: nat)
    requires k <= m <= |txns| == |ops|
    ensures Flat(ops, txns, k) <= Flat(ops, txns, m)
    decreases m
  {
    if k < m {
      FlatGrows(ops, txns, k, m - 1);
    }
  }

  /** The last transaction whose log_writes end at or before the cut. */
  lemma {:induction false} LastBefore(ops: seq<OpId>, txns: seq<Txn>, m: nat, cut: nat) returns (k: nat)
    requires m <= |txns| == |ops|
    ensures k <= m && |Flat(ops, txns, k)| <= cut
    ensures k < m ==> cut < |Flat(ops, txns, k + 1)|
  {
    if |Flat(ops, txns, m)| <= cut {
      k := m;
    } else {
      k := LastBefore(ops, txns, m - 1, cut);
    }
  }

  /** Updates of one operation are on one side of the cut. */
  lemma SameSide(h: seq<Update>, cut: nat, i: nat, j: nat)
    requires cut <= |h| && WholeOps(h, cut) && i < cut && i <= j < |h| && h[i].op == h[j].op
    ensures j < cut
  {
  }

  lemma InTransaction(ops: seq<OpId>, txns: seq<Txn>, j: nat, i: nat)
    requires j < |txns| == |ops| && |Flat(ops, txns, j)| <= i < |Flat(ops, txns, j + 1)|
    ensures Flat(ops, txns, j + 1)[i].op == ops[j]
  {
  }

  /** A cut through the updates `own` of the transactions that divides no operation divides no transaction. */
  lemma CutBetween(own: seq<Update>, cut: nat, ops: seq<OpId>, txns: seq<Txn>, m: nat, part: seq<Write>)
    returns (j: nat)
    requires m <= |txns| == |ops| && cut <= |own| && WholeOps(own, cut)
    requires m == |txns| ==> own == Flat(ops, txns, m)
    requires m < |txns| ==> own == Flat(ops, txns, m) + Tagged(ops[m], part) && part <= txns[m].writes
    requires m < |txns| && part != [] && part != txns[m].writes ==> forall i :: 0 <= i < cut ==> own[i].op != ops[m]
    ensures j <= |txns| && own[..cut] == Flat(ops, txns, j)
  {
    hide WholeOps;
    j := LastBefore(ops, txns, m, cut);
    FlatGrows(ops, txns, j, m);
    var done := Flat(ops, txns, j);
    assert done <= own;
    if |done| < cut {
      if j < m {
        FlatGrows(ops, txns, j + 1, m);
        var next := Flat(ops, txns, j + 1);
        assert next <= own;
        InTransaction(ops, txns, j, |done|);
        InTransaction(ops, txns, j, |next| - 1);
        SameSide(own, cut, |done|, |next| - 1);
      } else {
        assert own[|done|].op == ops[m] && own[|own| - 1].op == ops[m];
        SameSide(own, cut, |done|, |own| - 1);
        assert own[..cut] == own && part == txns[m].writes;
        j := m + 1;
      }
    }
  }

  lemma {:induction false} MineSplits(h: seq<Update>, ops: seq<OpId>, c: nat)
    requires c <= |h|
    ensures Mine(h, ops) == Mine(h[..c], ops) + Mine(h[c..], ops)
  {
    if c == |h| {
      assert h[..c] == h;
    } else {
      var front := h[..|h| - 1];
      MineSplits(front, ops, c);
      assert front[..c] == h[..c];
      assert h[c..][..|h| - c - 1] == front[c..];
    }
  }

  lemma {:induction false} MineIsFrom(h: seq<Update>, ops: seq<OpId>, i: nat) returns (j: nat)
    requires i < |Mine(h, ops)|
    ensures j < |h| && h[j] == Mine(h, ops)[i]
  {
    var front := h[..|h| - 1];
    if i < |Mine(front, ops)| {
      j := MineIsFrom(front, ops, i);
    } else {
      j := |h| - 1;
    }
  }

  lemma MineWhole(h: seq<Update>, ops: seq<OpId>, c: nat)
    requires c <= |h| && WholeOps(h, c)
    ensures |Mine(h[..c], ops)| <= |Mine(h, ops)| && WholeOps(Mine(h, ops), |Mine(h[..c], ops)|)
  {
    hide Mine;
    var own, p := Mine(h, ops), |Mine(h[..c], ops)|;
    MineSplits(h, ops, c);
    forall i, j | 0 <= i < p <= j < |own| ensures own[i].op != own[j].op {
      var k := MineIsFrom(h[..c], ops, i);
      var l := MineIsFrom(h[c..], ops, j - p);
      assert h[..c][k] == h[k] && h[c..][l] == h[c + l];
    }
  }

  /** What has been committed since h0 holds, of the write's own updates, those of whole transactions. */
  lemma WholeTransactions(s: Sys, h0: seq<Update>, others: set<nat>, ops: seq<OpId>, txns: seq<Txn>, m: nat,
                          part: seq<Write>)
    returns (j: nat)
    requires Running(s, h0, others, ops, txns, m, part) && HistInv(s)
    ensures j <= |txns| && Mine(s.hist[|h0|..s.cut], ops) == Flat(ops, txns, j)
  {
    hide Mine, Flat;
    var tail, c := s.hist[|h0|..], s.cut - |h0|;
    var own, committed := Mine(tail, ops), Mine(tail[..c], ops);
    assert tail[..c] == s.hist[|h0|..s.cut];
    assert WholeOps(tail, c) by {
      assert forall i :: 0 <= i < |tail| ==> tail[i] == s.hist[|h0| + i];
    }
    MineWhole(tail, ops, c);
    MineSplits(tail, ops, c);
    if m < |txns| && ops[m] in s.proto.ops {
      forall i | 0 <= i < |committed| ensures own[i].op != ops[m] {
        var k := MineIsFrom(tail[..c], ops, i);
        assert tail[..c][k] == s.hist[|h0| + k];
      }
    }
    j := CutBetween(own, |committed|, ops, txns, m, part);
    assert own[..|committed|] == committed;
  }

  /** After a crash the write is found between two of its transactions. */
  lemma CrashKeepsRunning(lay: Layout, base: Disk, s: Sys, h0: seq<Update>, others: set<nat>, ops: seq<OpId>,
                          txns: seq<Txn>, m: nat, part: seq<Write>)
    returns (j: nat)
    requires Placed(lay, base, s) && Running(s, h0, others, ops, txns, m, part) && HistInv(s)
    ensures Running(Next(lay, base, s, Crash), h0, others, ops, txns, j, [])
  {
    hide Mine, Flat, HistInv, Placed;
    j := WholeTransactions(s, h0, others, ops, txns, m, part);
    var committed := s.hist[|h0|..s.cut];
    assert Next(lay, base, s, Crash).hist[|h0|..] == committed;
    assert forall i :: 0 <= i < |committed| ==> committed[i] == s.hist[|h0|..][i];
    if j < |txns| {
      assert Flat(ops, txns, j) + Tagged(ops[j], []) == Flat(ops, txns, j);
    }
  }

  // Playing a history of transactions beside others

  /** Disks with the same home blocks, those of others aside. */
  ghost predicate Agree(lay: Layout, d: Disk, d': Disk, others: set<nat>) {
    |d| == |d'| && forall b: nat :: Home(lay, d, b) && b !in others ==> d[b] == d'[b]
  }

  lemma {:induction false} PlayMine(lay: Layout, base: Disk, h0: seq<Update>, h: seq<Update>, ops: seq<OpId>,
                                    others: set<nat>)
    requires AllHome(lay, base, h0 + h) && Elsewhere(h, ops, others)
    ensures AllHome(lay, base, h0 + Mine(h, ops))
    ensures Agree(lay, Play(lay, base, h0 + h), Play(lay, base, h0 + Mine(h, ops)), others)
    decreases |h|
  {
    var whole, own := h0 + h, h0 + Mine(h, ops);
    if h == [] {
      assert own == whole;
    } else {
      var front, u := h[..|h| - 1], h[|h| - 1];
      assert whole[..|whole| - 1] == h0 + front;
      assert whole[|whole| - 1] == u && Home(lay, base, u.blockno);
      assert AllHome(lay, base, h0 + front) by {
        assert forall i :: 0 <= i < |h0 + front| ==> (h0 + front)[i] == whole[i];
      }
      PlayMine(lay, base, h0, front, ops, others);
      if u.op in ops {
        assert own == h0 + Mine(front, ops) + [u];
        assert own[..|own| - 1] == h0 + Mine(front, ops);
      } else {
        assert own == h0 + Mine(front, ops);
      }
    }
  }

  lemma {:induction false} PlayTagged(lay: Layout, base: Disk, h: seq<Update>, op: OpId, ws: seq<Write>)
    requires AllHome(lay, base, h + Tagged(op, ws)) && AllHome(lay, base, h)
    ensures Play(lay, base, h + Tagged(op, ws)) == Played(Play(lay, base, h), ws)
    decreases |ws|
  {
    var whole := h + Tagged(op, ws);
    if ws == [] {
      assert whole == h;
    } else {
      var front := ws[..|ws| - 1];
      assert whole[..|whole| - 1] == h + Tagged(op, front);
      assert AllHome(lay, base, h + Tagged(op, front)) by {
        forall i | 0 <= i < |whole| - 1 ensures Home(lay, base, (h + Tagged(op, front))[i].blockno) {
          assert whole[i] == (h + Tagged(op, front))[i];
        }
      }
      PlayTagged(lay, base, h, op, front);
      assert whole[|whole| - 1] == Update(op, ws[|ws| - 1].blockno, ws[|ws| - 1].data);
      assert Home(lay, base, whole[|whole| - 1].blockno);
    }
  }

  lemma {:induction false} PlayedAgree(lay: Layout, d: Disk, d': Disk, others: set<nat>, ws: seq<Write>)
    requires Agree(lay, d, d', others)
    ensures Agree(lay, Played(d, ws), Played(d', ws), others)
    decreases |ws|
  {
    if ws != [] {
      PlayedAgree(lay, d, d', others, ws[..|ws| - 1]);
    }
  }

  /** The disk after the first j transactions. */
  function DiskAt(d0: Disk, txns: seq<Txn>, j: nat): Disk
    requires j <= |txns|
  {
    if j == 0 then d0 else txns[j - 1].After()
  }

  /** Each transaction starts from the disk that the one before it left, the blocks of others aside. */
  ghost predicate Follows(lay: Layout, d0: Disk, txns: seq<Txn>, others: set<nat>) {
    forall j :: 0 <= j < |txns| ==> Agree(lay, DiskAt(d0, txns, j), txns[j].before, others)
  }

  lemma {:induction false} PlayFlat(lay: Layout, base: Disk, h0: seq<Update>, others: set<nat>, ops: seq<OpId>,
                                    txns: seq<Txn>, j: nat)
    requires j <= |txns| == |ops| && AllHome(lay, base, h0) && AllHome(lay, base, h0 + Flat(ops, txns, j))
    requires Follows(lay, Play(lay, base, h0), txns, others)
    ensures Agree(lay, Play(lay, base, h0 + Flat(ops, txns, j)), DiskAt(Play(lay, base, h0), txns, j), others)
  {
    hide Play;
    if j == 0 {
      assert h0 + Flat(ops, txns, 0) == h0;
    } else {
      var front, whole := h0 + Flat(ops, txns, j - 1), h0 + Flat(ops, txns, j);
      var d, t := DiskAt(Play(lay, base, h0), txns, j - 1), txns[j - 1];
      assert whole == front + Tagged(ops[j - 1], t.writes);
      assert AllHome(lay, base, front) by {
        assert forall i :: 0 <= i < |front| ==> whole[i] == front[i];
      }
      PlayFlat(lay, base, h0, others, ops, txns, j - 1);
      assert Agree(lay, d, t.before, others);
      AgreeTrans(lay, Play(lay, base, front), d, t.before, others);
      PlayTagged(lay, base, front, ops[j - 1], t.writes);
      PlayedAgree(lay, Play(lay, base, front), t.before, others, t.writes);
    }
  }

  lemma AgreeTrans(lay: Layout, d: Disk, d': Disk, d'': Disk, others: set<nat>)
    requires Agree(lay, d, d', others) && Agree(lay, d', d'', others)
    ensures Agree(lay, d, d'', others)
  {
    assert forall b: nat :: Home(lay, d, b) ==> Home(lay, d', b);
  }

  // Reading a file from a recovered disk

  /** The log area lies in front of the inodes, as mkfs lays it out. */
  predicate LogFirst(lay: Layout, g: Geometry) {
    lay.start + lay.size <= g.inodestart
  }

  /** The inode and all blocks of the file lie outside the blocks of others. */
  ghost predicate Avoids(g: Geometry, i: nat, d: Disk, others: set<nat>)
    requires GeometryOk(g, d) && i < g.ninodes
  {
    && InodeBlock(g, i) !in others
    && forall k: nat :: k < SLOTS ==> Ref(OnDisk(g, d, i), d, k) !in others - {0}
  }

  lemma ReadsSame(lay: Layout, g: Geometry, i: nat, d: Disk, d': Disk, others: set<nat>, bytes: seq<byte>)
    requires LogFirst(lay, g) && Agree(lay, d, d', others) && Reads(g, i, d, bytes) && Avoids(g, i, d, others)
    ensures Reads(g, i, d', bytes)
  {
    assert Home(lay, d, InodeBlock(g, i));
    var f := OnDisk(g, d, i);
    assert OnDisk(g, d', i) == f;
    SameRefs(lay, g, f, d, d', others);
    forall p: nat | p < f.size ensures Mapped(f, d', p) && Peek(f, d', p) == Peek(f, d, p) {
      assert Mapped(f, d, p);
      var l := SlotOf(p / BSIZE);
      assert Ref(f, d', l) == Ref(f, d, l) && DataBlock(g, Ref(f, d, l));
      assert Home(lay, d, Ref(f, d, l));
    }
    assert Bytes(f, d') == Bytes(f, d);
  }

  lemma SameRefs(lay: Layout, g: Geometry, f: Dinode, d: Disk, d': Disk, others: set<nat>)
    requires LogFirst(lay, g) && GeometryOk(g, d) && Agree(lay, d, d', others)
    requires forall k: nat :: k < SLOTS && Ref(f, d, k) != 0 ==> DataBlock(g, Ref(f, d, k))
    requires forall k: nat :: k < SLOTS ==> Ref(f, d, k) !in others - {0}
    ensures forall k: nat :: k < SLOTS ==> Ref(f, d', k) == Ref(f, d, k)
  {
    assert Ref(f, d, INDIRECT) == f.addrs[INDIRECT];
    if f.addrs[INDIRECT] != 0 {
      assert Home(lay, d, f.addrs[INDIRECT]);
    }
  }

  // The main result

  /** The transactions of a write of src at off to inode i: each gives the inode a longer prefix of src, and others
      may have written the blocks `others`, which the inode does not use, between any two of them. */
  ghost predicate StepsBeside(lay: Layout, g: Geometry, i: nat, d0: Disk, txns: seq<Txn>, bytes: seq<byte>, off: nat,
                              src: seq<byte>, ns: seq<nat>, others: set<nat>)
  {
    && |ns| == |txns| + 1 && ns[0] == 0 && Follows(lay, d0, txns, others)
    && (forall j :: 0 <= j <= |txns| ==>
          && HasPrefix(g, i, DiskAt(d0, txns, j), bytes, off, src, ns[j])
          && Avoids(g, i, DiskAt(d0, txns, j), others))
    && (forall j :: 0 <= j < |txns| ==> ns[j] <= ns[j + 1])
  }

  /** The transactions that filewrite makes are such when nobody else writes. */
  lemma StepsAlone(lay: Layout, g: Geometry, i: nat, d0: Disk, txns: seq<Txn>, d: Disk, bytes: seq<byte>, off: nat,
                   src: seq<byte>, ns: seq<nat>)
    requires Steps(g, i, d0, txns, d, bytes, off, src, ns)
    ensures StepsBeside(lay, g, i, d0, txns, bytes, off, src, ns, {})
  {
    hide HasPrefix;
    forall j | 0 <= j <= |txns|
      ensures HasPrefix(g, i, DiskAt(d0, txns, j), bytes, off, src, ns[j])
      ensures GeometryOk(g, DiskAt(d0, txns, j)) && i < g.ninodes && Avoids(g, i, DiskAt(d0, txns, j), {})
    {
      PrefixReads(g, i, DiskAt(d0, txns, j), bytes, off, src, ns[j]);
    }
  }

  lemma PrefixReads(g: Geometry, i: nat, d: Disk, bytes: seq<byte>, off: nat, src: seq<byte>, n: nat)
    requires HasPrefix(g, i, d, bytes, off, src, n)
    ensures GeometryOk(g, d) && i < g.ninodes
  {
  }

  /** Stop the system anywhere in or after a filewrite, in any run of the log with any number of crashes before,
      with operations of others in between and in the same commits: recovery then leaves the file with its old
      bytes and a prefix of the new ones, namely that of the transactions that had committed.  `txns` and `ns` are
      those of the filewrite, h0 is what was committed before it. */
  lemma FilewriteIsDurable(lay: Layout, base: Disk, d: Disk, ss: seq<Sys>, es: seq<Event>, k: nat, i: nat,
                           g: Geometry, inum: nat, bytes: seq<byte>, off: nat, src: seq<byte>,
                           h0: seq<Update>, others: set<nat>, ops: seq<OpId>, txns: seq<Txn>, ns: seq<nat>, m: nat,
                           part: seq<Write>)
    returns (j: nat)
    requires CrashRun(lay, base, d, ss, es) && Budgeted(lay, ss, k) && i < |ss|
    requires AllHome(lay, base, h0) && LogFirst(lay, g)
    requires Running(ss[i], h0, others, ops, txns, m, part)
    requires StepsBeside(lay, g, inum, Play(lay, base, h0), txns, bytes, off, src, ns, others)
    ensures j < |ns| && Mine(ss[i].hist[|h0|..ss[i].cut], ops) == Flat(ops, txns, j)
    ensures GoodHead(lay, ss[i].disk)
    ensures HasPrefix(g, inum, RedoLog.Recovered(lay, ss[i].disk), bytes, off, src, ns[j])
  {
    hide CrashRun, HasPrefix, Play, Flat, Mine, WholeOps, DiskInv, SameHome, RedoLog.Recovered, Avoids, Follows, Agree;
    var s := ss[i];
    CrashSafety(lay, base, d, ss, es, k, i);
    CrashRunKeepsInv(lay, base, d, ss, es, k, i);
    j := WholeTransactions(s, h0, others, ops, txns, m, part);
    CommittedAgrees(lay, base, s, h0, others, ops, txns, j);
    var d0 := Play(lay, base, h0);
    PrefixSame(lay, g, inum, DiskAt(d0, txns, j), RedoLog.Recovered(lay, s.disk), others, bytes, off, src, ns[j]);
  }

  /** The recovered disk is that of the committed transactions, the blocks of others aside. */
  lemma CommittedAgrees(lay: Layout, base: Disk, s: Sys, h0: seq<Update>, others: set<nat>, ops: seq<OpId>,
                        txns: seq<Txn>, j: nat)
    requires |h0| <= s.cut <= |s.hist| && h0 <= s.hist && AllHome(lay, base, s.hist) && AllHome(lay, base, h0)
    requires Elsewhere(s.hist[|h0|..], ops, others) && j <= |txns| == |ops|
    requires Mine(s.hist[|h0|..s.cut], ops) == Flat(ops, txns, j) && Follows(lay, Play(lay, base, h0), txns, others)
    requires GoodHead(lay, s.disk)
    requires SameHome(lay, RedoLog.Recovered(lay, s.disk), Play(lay, base, s.hist[..s.cut]))
    ensures Agree(lay, DiskAt(Play(lay, base, h0), txns, j), RedoLog.Recovered(lay, s.disk), others)
  {
    hide Play, Flat, Mine, RedoLog.Recovered, Follows;
    var committed := s.hist[|h0|..s.cut];
    assert s.hist[..s.cut] == h0 + committed;
    assert Elsewhere(committed, ops, others) by {
      assert forall i :: 0 <= i < |committed| ==> committed[i] == s.hist[|h0|..][i];
    }
    PlayMine(lay, base, h0, committed, ops, others);
    PlayFlat(lay, base, h0, others, ops, txns, j);
    AgreeSwap(lay, RedoLog.Recovered(lay, s.disk), Play(lay, base, h0 + committed),
              Play(lay, base, h0 + Flat(ops, txns, j)), DiskAt(Play(lay, base, h0), txns, j), others);
  }

  lemma AgreeSwap(lay: Layout, r: Disk, d1: Disk, d2: Disk, d3: Disk, others: set<nat>)
    requires SameHome(lay, r, d1) && Agree(lay, d1, d2, others) && Agree(lay, d2, d3, others)
    ensures Agree(lay, d3, r, others)
  {
    forall b: nat | Home(lay, d3, b) && b !in others ensures d3[b] == r[b] {
      assert Home(lay, r, b) && Home(lay, d1, b) && Home(lay, d2, b);
    }
  }

  lemma PrefixSame(lay: Layout, g: Geometry, inum: nat, d: Disk, d': Disk, others: set<nat>, bytes: seq<byte>, off: nat,
                   src: seq<byte>, n: nat)
    requires LogFirst(lay, g) && Agree(lay, d, d', others) && HasPrefix(g, inum, d, bytes, off, src, n)
    requires Avoids(g, inum, d, others)
    ensures HasPrefix(g, inum, d', bytes, off, src, n)
  {
    ReadsSame(lay, g, inum, d, d', others, Splice(bytes, off, src[..n]));
  }
}
