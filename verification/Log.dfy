/**
 The redo log of kernel/log.c.

 A disk is a sequence of blocks; a block is BSIZE bytes seen as 32-bit words, which is how
 log.c reads and writes its header block.  Block writes are atomic and synchronous.  What a
 log operation does to the disk is its sequence of block writes, so a crash is a cut of that
 sequence at any point.
 */
module LogSpec {
  import opened Params

  const WORDS := 256  // BSIZE / sizeof(int)

  type Block = b: seq<int> | |b| == WORDS witness seq(WORDS, _ => 0)
  type Disk = seq<Block>

  /** A synchronous write of one block. */
  datatype Write = Write(bno: int, data: Block)

  /** Where the log region lies: block `start` is the header, the other nlog - 1 blocks are slots. */
  datatype Layout = Layout(start: nat, nlog: nat, size: nat) {
    ghost predicate Valid() {
      1 <= nlog && start + nlog <= size
    }
    /** b is a block outside the log region. */
    predicate Home(b: int) {
      0 <= b < size && !(start <= b < start + nlog)
    }
    /** The number of blocks a transaction can hold: the bound tested by log_write. */
    function Capacity(): int {
      if nlog - 1 < LOGSIZE then nlog - 1 else LOGSIZE
    }
  }

  ghost predicate InRange(ws: seq<Write>, size: nat) {
    forall i :: 0 <= i < |ws| ==> 0 <= ws[i].bno < size
  }

  ghost function Apply(d: Disk, ws: seq<Write>): (r: Disk)
    requires InRange(ws, |d|)
    ensures |r| == |d|
  {
    if ws == [] then d
    else
      var w := ws[|ws| - 1];
      Apply(d, ws[..|ws| - 1])[w.bno := w.data]
  }

  lemma {:induction false} ApplyConcat(d: Disk, a: seq<Write>, b: seq<Write>)
    requires InRange(a, |d|) && InRange(b, |d|)
    ensures InRange(a + b, |d|)
    ensures Apply(d, a + b) == Apply(Apply(d, a), b)
  {
    if b == [] {
      assert a + b == a;
    } else {
      var c := a + b;
      assert c[..|c| - 1] == a + b[..|b| - 1];
      ApplyConcat(d, a, b[..|b| - 1]);
    }
  }

  lemma ApplySnoc(d: Disk, ws: seq<Write>, k: nat)
    requires InRange(ws, |d|) && k < |ws|
    ensures Apply(d, ws[..k + 1]) == Apply(d, ws[..k])[ws[k].bno := ws[k].data]
  {
    assert ws[..k + 1][..k] == ws[..k];
  }

  lemma {:induction false} ApplyFrame(d: Disk, ws: seq<Write>, b: int)
    requires InRange(ws, |d|) && 0 <= b < |d|
    requires forall i :: 0 <= i < |ws| ==> ws[i].bno != b
    ensures Apply(d, ws)[b] == d[b]
  {
    if ws != [] {
      ApplyFrame(d, ws[..|ws| - 1], b);
    }
  }

  lemma {:induction false} ApplyHit(d: Disk, ws: seq<Write>, i: int)
    requires InRange(ws, |d|) && 0 <= i < |ws|
    requires forall j :: 0 <= j < |ws| && j != i ==> ws[j].bno != ws[i].bno
    ensures Apply(d, ws)[ws[i].bno] == ws[i].data
  {
    if i < |ws| - 1 {
      ApplyHit(d, ws[..|ws| - 1], i);
    }
  }

  // ----- The header block

  /** The header buffer after write_head: n and block[0..n] overwritten, the rest kept. */
  function HeadBlock(prev: Block, lh: seq<int>): (r: Block)
    requires |lh| < WORDS
  {
    [|lh|] + lh + prev[1 + |lh|..]
  }

  /** A transaction fits the log: distinct blocks outside the log region. */
  ghost predicate TransOk(L: Layout, lh: seq<int>) {
    && |lh| <= L.Capacity()
    && (forall i :: 0 <= i < |lh| ==> L.Home(lh[i]))
    && (forall i, j :: 0 <= i < j < |lh| ==> lh[i] != lh[j])
  }

  /** The on-disk header describes a transaction. */
  ghost predicate HeadOk(L: Layout, d: Disk) {
    && L.Valid() && |d| == L.size
    && 0 <= d[L.start][0] <= L.Capacity()
    && TransOk(L, d[L.start][1..1 + d[L.start][0]])
  }

  ghost function Head(L: Layout, d: Disk): (lh: seq<int>)
    requires HeadOk(L, d)
    ensures TransOk(L, lh)
  {
    d[L.start][1..1 + d[L.start][0]]
  }

  ghost function Slots(L: Layout, d: Disk, n: nat): (c: seq<Block>)
    requires L.Valid() && |d| == L.size && n <= L.Capacity()
    ensures |c| == n
  {
    d[L.start + 1..L.start + 1 + n]
  }

  lemma SlotsAre(L: Layout, d: Disk, c: seq<Block>)
    requires L.Valid() && |d| == L.size && |c| <= L.Capacity()
    requires forall i :: 0 <= i < |c| ==> d[L.start + 1 + i] == c[i]
    ensures Slots(L, d, |c|) == c
  {
  }

  lemma HeadBlockDecodes(L: Layout, d: Disk, lh: seq<int>, prev: Block)
    requires L.Valid() && |d| == L.size && TransOk(L, lh)
    requires d[L.start] == HeadBlock(prev, lh)
    ensures HeadOk(L, d) && Head(L, d) == lh
  {
    assert d[L.start][1..1 + |lh|] == lh;
  }

  // ----- The block writes issued by commit and by recovery

  ghost function SlotWrites(L: Layout, c: seq<Block>): (ws: seq<Write>)
    ensures |ws| == |c| && forall i :: 0 <= i < |c| ==> ws[i] == Write(L.start + 1 + i, c[i])
  {
    seq(|c|, i requires 0 <= i < |c| => Write(L.start + 1 + i, c[i]))
  }

  ghost function HomeWrites(lh: seq<int>, c: seq<Block>): (ws: seq<Write>)
    requires |lh| == |c|
    ensures |ws| == |c| && forall i :: 0 <= i < |c| ==> ws[i] == Write(lh[i], c[i])
  {
    seq(|c|, i requires 0 <= i < |c| => Write(lh[i], c[i]))
  }

  /** commit: write_log, write_head, install_trans, write_head of the empty header. */
  ghost function CommitWrites(L: Layout, head: Block, lh: seq<int>, c: seq<Block>): (ws: seq<Write>)
    requires |lh| == |c| < WORDS
    ensures |ws| == 2 * |c| + 2
  {
    SlotWrites(L, c) + [Write(L.start, HeadBlock(head, lh))] + HomeWrites(lh, c)
    + [Write(L.start, HeadBlock(HeadBlock(head, lh), []))]
  }

  /** recover_from_log: install_trans of what the header names, write_head of the empty header. */
  ghost function RecoverWrites(L: Layout, d: Disk): (ws: seq<Write>)
    requires HeadOk(L, d)
    ensures |ws| == |Head(L, d)| + 1 && InRange(ws, |d|)
  {
    HomeWrites(Head(L, d), Slots(L, d, |Head(L, d)|)) + [Write(L.start, HeadBlock(d[L.start], []))]
  }

  ghost function Recovered(L: Layout, d: Disk): (r: Disk)
    requires HeadOk(L, d)
    ensures |r| == |d|
  {
    Apply(d, RecoverWrites(L, d))
  }

  /** All blocks outside the log region agree. */
  ghost predicate SameHome(L: Layout, d: Disk, e: Disk)
    requires L.Valid() && |d| == |e| == L.size
  {
    forall b :: L.Home(b) ==> d[b] == e[b]
  }

  /** The disk with the transaction's blocks in their home places. */
  ghost function Overlay(L: Layout, d: Disk, lh: seq<int>, c: seq<Block>): (r: Disk)
    requires L.Valid() && |d| == L.size && TransOk(L, lh) && |lh| == |c|
    ensures |r| == |d|
  {
    Apply(d, HomeWrites(lh, c))
  }

  lemma OverlayAt(L: Layout, d: Disk, lh: seq<int>, c: seq<Block>)
    requires L.Valid() && |d| == L.size && TransOk(L, lh) && |lh| == |c|
    ensures forall i :: 0 <= i < |lh| ==> Overlay(L, d, lh, c)[lh[i]] == c[i]
    ensures forall b :: 0 <= b < |d| && b !in lh ==> Overlay(L, d, lh, c)[b] == d[b]
  {
    var ws := HomeWrites(lh, c);
    forall i | 0 <= i < |lh| ensures Overlay(L, d, lh, c)[lh[i]] == c[i] {
      ApplyHit(d, ws, i);
      assert ws[i] == Write(lh[i], c[i]);
    }
    forall b | 0 <= b < |d| && b !in lh ensures Overlay(L, d, lh, c)[b] == d[b] {
      ApplyFrame(d, ws, b);
    }
  }

  /** What recovery leaves outside the log region, block by block. */
  lemma RecoveredAt(L: Layout, d: Disk)
    requires HeadOk(L, d)
    ensures forall i :: 0 <= i < |Head(L, d)| ==> Recovered(L, d)[Head(L, d)[i]] == d[L.start + 1 + i]
    ensures forall b :: L.Home(b) && b !in Head(L, d) ==> Recovered(L, d)[b] == d[b]
    ensures Recovered(L, d)[L.start] == HeadBlock(d[L.start], [])
    ensures forall b :: L.start < b < L.start + L.nlog ==> Recovered(L, d)[b] == d[b]
    ensures HeadOk(L, Recovered(L, d)) && Head(L, Recovered(L, d)) == []
  {
    hide Apply, HomeWrites, HeadBlock;
    var lh := Head(L, d);
    var c := Slots(L, d, |lh|);
    OverlayAt(L, d, lh, c);
    var clear := [Write(L.start, HeadBlock(d[L.start], []))];
    ApplyConcat(d, HomeWrites(lh, c), clear);
    var o := Overlay(L, d, lh, c);
    ApplyOne(o, clear[0]);
    HeadBlockDecodes(L, Recovered(L, d), [], d[L.start]);
  }

  lemma CleanRecovers(L: Layout, d: Disk)
    requires HeadOk(L, d) && Head(L, d) == []
    ensures SameHome(L, Recovered(L, d), d)
  {
    RecoveredAt(L, d);
  }

  // ----- Crash atomicity of commit

  lemma SlotWritesApply(L: Layout, d: Disk, c: seq<Block>, k: nat)
    requires L.Valid() && |d| == L.size && |c| <= L.nlog - 1 && k <= |c|
    ensures InRange(SlotWrites(L, c)[..k], |d|)
    ensures var e := Apply(d, SlotWrites(L, c)[..k]);
      && (forall b :: 0 <= b < |d| && !(L.start < b <= L.start + k) ==> e[b] == d[b])
      && (forall i :: 0 <= i < k ==> e[L.start + 1 + i] == c[i])
  {
    hide Apply;
    var ws := SlotWrites(L, c)[..k];
    assert forall i :: 0 <= i < k ==> ws[i] == Write(L.start + 1 + i, c[i]);
    var e := Apply(d, ws);
    forall b | 0 <= b < |d| && !(L.start < b <= L.start + k) ensures e[b] == d[b] {
      ApplyFrame(d, ws, b);
    }
    forall i | 0 <= i < k ensures e[L.start + 1 + i] == c[i] {
      ApplyHit(d, ws, i);
    }
  }

  /** Cut among the slot writes: the old header still rules. */
  lemma CutInSlots(L: Layout, d: Disk, c: seq<Block>, k: nat)
    requires HeadOk(L, d) && Head(L, d) == [] && |c| <= L.Capacity() && k <= |c|
    ensures InRange(SlotWrites(L, c)[..k], |d|)
    ensures var e := Apply(d, SlotWrites(L, c)[..k]);
      && e[L.start] == d[L.start]
      && SameHome(L, e, d)
      && (forall i :: 0 <= i < k ==> e[L.start + 1 + i] == c[i])
  {
    hide Apply, SlotWrites;
    SlotWritesApply(L, d, c, k);
  }

  /** Cut after the header write, with the first m home blocks installed. */
  ghost predicate Committed(L: Layout, d: Disk, e: Disk, lh: seq<int>, c: seq<Block>, m: nat)
    requires |lh| == |c|
  {
    && L.Valid() && |d| == |e| == L.size && TransOk(L, lh) && m <= |lh|
    && HeadOk(L, e) && Head(L, e) == lh
    && (forall i :: 0 <= i < |c| ==> e[L.start + 1 + i] == c[i])
    && (forall i :: 0 <= i < m ==> e[lh[i]] == c[i])
    && (forall b :: L.Home(b) && b !in lh ==> e[b] == d[b])
  }

  lemma CommittedRecovers(L: Layout, d: Disk, e: Disk, lh: seq<int>, c: seq<Block>, m: nat)
    requires |lh| == |c| && Committed(L, d, e, lh, c, m)
    ensures SameHome(L, Recovered(L, e), Overlay(L, d, lh, c))
  {
    RecoveredAt(L, e);
    OverlayAt(L, d, lh, c);
  }

  /** With all home blocks installed, the disk holds the transaction whatever the header says. */
  lemma CommittedAll(L: Layout, d: Disk, e: Disk, lh: seq<int>, c: seq<Block>, head: Block)
    requires |lh| == |c| && Committed(L, d, e, lh, c, |c|)
    ensures SameHome(L, e[L.start := head], Overlay(L, d, lh, c))
  {
    hide Overlay, HeadOk;
    OverlayAt(L, d, lh, c);
  }

  lemma {:induction false} InstallKeepsCommitted(L: Layout, d: Disk, e: Disk, lh: seq<int>, c: seq<Block>, m: nat)
    requires |lh| == |c| && Committed(L, d, e, lh, c, 0) && m <= |c|
    ensures InRange(HomeWrites(lh, c)[..m], |e|)
    ensures Committed(L, d, Apply(e, HomeWrites(lh, c)[..m]), lh, c, m)
    ensures Apply(e, HomeWrites(lh, c)[..m])[L.start] == e[L.start]
  {
    hide Apply, HomeWrites, HeadBlock;
    var ws := HomeWrites(lh, c)[..m];
    var r := Apply(e, ws);
    forall b | 0 <= b < |e| && b !in lh ensures r[b] == e[b] {
      ApplyFrame(e, ws, b);
    }
    forall i | 0 <= i < m ensures r[lh[i]] == c[i] {
      ApplyHit(e, ws, i);
      assert ws[i] == Write(lh[i], c[i]);
    }
  }

  lemma HeadWriteCommits(L: Layout, d: Disk, lh: seq<int>, c: seq<Block>)
    requires HeadOk(L, d) && Head(L, d) == [] && TransOk(L, lh) && |lh| == |c|
    ensures InRange(SlotWrites(L, c) + [Write(L.start, HeadBlock(d[L.start], lh))], |d|)
    ensures var e := Apply(d, SlotWrites(L, c) + [Write(L.start, HeadBlock(d[L.start], lh))]);
      Committed(L, d, e, lh, c, 0) && e[L.start] == HeadBlock(d[L.start], lh)
  {
    hide Apply, SlotWrites, HeadBlock, Head;
    var ws := SlotWrites(L, c);
    var hw := [Write(L.start, HeadBlock(d[L.start], lh))];
    CutInSlots(L, d, c, |c|);
    assert ws[..|c|] == ws;
    ApplyConcat(d, ws, hw);
    var e := Apply(d, ws);
    ApplyOne(e, hw[0]);
    HeadBlockDecodes(L, Apply(e, hw), lh, d[L.start]);
  }

  /** The disk after the first k writes of a commit. */
  ghost function CommitCut(L: Layout, d: Disk, lh: seq<int>, c: seq<Block>, k: nat): (e: Disk)
    requires HeadOk(L, d) && Head(L, d) == [] && TransOk(L, lh) && |lh| == |c| && k <= 2 * |c| + 2
    ensures |e| == |d|
  {
    var ws := CommitWrites(L, d[L.start], lh, c);
    assert InRange(ws, |d|);
    Apply(d, ws[..k])
  }

  /** The parts of a commit's writes. */
  lemma CommitWritesPrefix(L: Layout, head: Block, lh: seq<int>, c: seq<Block>, k: nat)
    requires |lh| == |c| < WORDS && k <= 2 * |c| + 2
    ensures var n := |c|; var s := SlotWrites(L, c); var h := HomeWrites(lh, c);
      var hw := [Write(L.start, HeadBlock(head, lh))];
      var cw := [Write(L.start, HeadBlock(HeadBlock(head, lh), []))];
      CommitWrites(L, head, lh, c)[..k] ==
        if k <= n then s[..k] else if k <= 2 * n + 1 then s + hw + h[..k - n - 1] else s + hw + h + cw
  {
    hide SlotWrites, HomeWrites, HeadBlock;
  }

  lemma CommitWritesLast(L: Layout, head: Block, lh: seq<int>, c: seq<Block>)
    requires |lh| == |c| < WORDS
    ensures var ws := CommitWrites(L, head, lh, c);
      ws[..2 * |c| + 2] == ws[..2 * |c| + 1] + [Write(L.start, HeadBlock(HeadBlock(head, lh), []))]
  {
    hide SlotWrites, HomeWrites, HeadBlock;
  }

  lemma CutAfterHead(L: Layout, d: Disk, lh: seq<int>, c: seq<Block>, k: nat)
    requires HeadOk(L, d) && Head(L, d) == [] && TransOk(L, lh) && |lh| == |c| && |c| < k <= 2 * |c| + 1
    ensures Committed(L, d, CommitCut(L, d, lh, c, k), lh, c, k - |c| - 1)
    ensures CommitCut(L, d, lh, c, k)[L.start] == HeadBlock(d[L.start], lh)
  {
    hide Apply, SlotWrites, HomeWrites, HeadBlock, CommitWrites, Committed, SameHome;
    var s, h, m := SlotWrites(L, c), HomeWrites(lh, c), k - |c| - 1;
    var hw := [Write(L.start, HeadBlock(d[L.start], lh))];
    HeadWriteCommits(L, d, lh, c);
    InstallKeepsCommitted(L, d, Apply(d, s + hw), lh, c, m);
    ApplyConcat(d, s + hw, h[..m]);
    CommitWritesPrefix(L, d[L.start], lh, c, k);
  }

  lemma CutAtEnd(L: Layout, d: Disk, lh: seq<int>, c: seq<Block>)
    requires HeadOk(L, d) && Head(L, d) == [] && TransOk(L, lh) && |lh| == |c|
    ensures var e := CommitCut(L, d, lh, c, 2 * |c| + 2);
      HeadOk(L, e) && Head(L, e) == [] && SameHome(L, e, Overlay(L, d, lh, c))
  {
    assert |c| <= L.Capacity() && L.size == |d|;
    hide Apply, SlotWrites, HomeWrites, HeadBlock, CommitWrites, Committed, SameHome, Overlay, HeadOk;
    var n := |c|;
    var f, g := CommitCut(L, d, lh, c, 2 * n + 1), CommitCut(L, d, lh, c, 2 * n + 2);
    CutAfterHead(L, d, lh, c, 2 * n + 1);
    var cw := [Write(L.start, HeadBlock(f[L.start], []))];
    CommitWritesLast(L, d[L.start], lh, c);
    ApplyConcat(d, CommitWrites(L, d[L.start], lh, c)[..2 * n + 1], cw);
    ApplyOne(f, cw[0]);
    HeadBlockDecodes(L, g, [], f[L.start]);
    CommittedAll(L, d, f, lh, c, HeadBlock(f[L.start], []));
  }

  lemma ApplyOne(d: Disk, w: Write)
    requires 0 <= w.bno < |d|
    ensures Apply(d, [w]) == d[w.bno := w.data]
  {
    assert [w][..0] == [];
  }

  /** The shape of the disk at a cut of a commit, in its three phases. */
  lemma CommitCutShape(L: Layout, d: Disk, lh: seq<int>, c: seq<Block>, k: nat)
    requires HeadOk(L, d) && Head(L, d) == [] && TransOk(L, lh) && |lh| == |c| && k <= 2 * |c| + 2
    ensures var e := CommitCut(L, d, lh, c, k);
      if k <= |c| then e[L.start] == d[L.start] && SameHome(L, e, d)
      else if k <= 2 * |c| + 1 then Committed(L, d, e, lh, c, k - |c| - 1)
      else HeadOk(L, e) && Head(L, e) == [] && SameHome(L, e, Overlay(L, d, lh, c))
  {
    assert |c| <= L.Capacity() && L.size == |d|;
    hide Apply, SlotWrites, HomeWrites, HeadBlock, CommitWrites, Committed, SameHome, TransOk, Overlay;
    if k <= |c| {
      CommitWritesPrefix(L, d[L.start], lh, c, k);
      CutInSlots(L, d, c, k);
    } else if k <= 2 * |c| + 1 {
      CutAfterHead(L, d, lh, c, k);
    } else {
      CutAtEnd(L, d, lh, c);
    }
  }

  /** Crash atomicity: recovery after a cut at any write of a commit yields the old home blocks
      if the header write had not happened, and all blocks of the transaction if it had. */
  lemma CrashDuringCommit(L: Layout, d: Disk, lh: seq<int>, c: seq<Block>, k: nat)
    requires HeadOk(L, d) && Head(L, d) == [] && TransOk(L, lh) && |lh| == |c| && k <= 2 * |c| + 2
    ensures var e := CommitCut(L, d, lh, c, k);
      && HeadOk(L, e)
      && SameHome(L, Recovered(L, e), if k <= |c| then d else Overlay(L, d, lh, c))
  {
    var e := CommitCut(L, d, lh, c, k);
    CommitCutShape(L, d, lh, c, k);
    if k <= |c| {
      CleanRecovers(L, e);
    } else if k <= 2 * |c| + 1 {
      CommittedRecovers(L, d, e, lh, c, k - |c| - 1);
    } else {
      CleanRecovers(L, e);
    }
  }

  // ----- Crashes during recovery

  /** The disk after the first j writes of recovery. */
  ghost function RecoverCut(L: Layout, d: Disk, j: nat): (e: Disk)
    requires HeadOk(L, d) && j <= |Head(L, d)| + 1
    ensures |e| == |d|
  {
    Apply(d, RecoverWrites(L, d)[..j])
  }

  /** Recovery can be cut anywhere and started again: what it will yield does not change. */
  lemma CrashDuringRecovery(L: Layout, d: Disk, j: nat)
    requires HeadOk(L, d) && j <= |Head(L, d)| + 1
    ensures var e := RecoverCut(L, d, j);
      && HeadOk(L, e)
      && SameHome(L, Recovered(L, e), Recovered(L, d))
      && Head(L, e) == (if j <= |Head(L, d)| then Head(L, d) else [])
  {
    var lh := Head(L, d);
    var c := Slots(L, d, |lh|);
    var e := RecoverCut(L, d, j);
    if j <= |lh| {
      assert Committed(L, d, d, lh, c, 0);
      InstallKeepsCommitted(L, d, d, lh, c, j);
      assert RecoverWrites(L, d)[..j] == HomeWrites(lh, c)[..j];
      CommittedRecovers(L, d, e, lh, c, j);
      CommittedRecovers(L, d, d, lh, c, 0);
    } else {
      assert RecoverWrites(L, d)[..j] == RecoverWrites(L, d);
      RecoveredAt(L, d);
      CleanRecovers(L, e);
    }
  }

  /** Recovery cut after cuts[0] writes, restarted, cut after cuts[1] writes, and so on. */
  ghost function AfterCrashes(L: Layout, d: Disk, cuts: seq<nat>): (e: Disk)
    requires HeadOk(L, d)
    ensures HeadOk(L, e)
    decreases cuts
  {
    if cuts == [] then d
    else
      var j := if cuts[0] <= |Head(L, d)| + 1 then cuts[0] else |Head(L, d)| + 1;
      CrashDuringRecovery(L, d, j);
      AfterCrashes(L, RecoverCut(L, d, j), cuts[1..])
  }

  /** However often recovery itself crashes, it ends in the same home blocks. */
  lemma {:induction false} RepeatedCrashes(L: Layout, d: Disk, cuts: seq<nat>)
    requires HeadOk(L, d)
    ensures SameHome(L, Recovered(L, AfterCrashes(L, d, cuts)), Recovered(L, d))
    decreases cuts
  {
    if cuts != [] {
      var j := if cuts[0] <= |Head(L, d)| + 1 then cuts[0] else |Head(L, d)| + 1;
      CrashDuringRecovery(L, d, j);
      RepeatedCrashes(L, RecoverCut(L, d, j), cuts[1..]);
    }
  }
}
