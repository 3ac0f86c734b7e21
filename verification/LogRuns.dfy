/**
 Group commit in every run: operations interleave through begin_op, log_write and end_op, the
 last end_op commits one disk write at a time, and the machine may crash between any two steps,
 commit and recovery included.
 */
module LogRuns {
  import opened Params
  import opened LogSpec

  /** An operation's write of `data` to block bno. */
  datatype Update = Update(op: nat, bno: int, data: Block)

  /** An operation between begin_op and end_op, with the blocks it has logged, and those it has changed since. */
  datatype Op = Op(id: nat, used: set<int>, dirty: set<int>)

  datatype Phase =
    | Running
    | Committing(base: Disk, c: seq<Block>, k: nat)  // k writes of the commit of base are done
    | Recovering(image: Disk, j: nat)               // j writes of the recovery of image are done

  /** `hist` and `durable` are history: all updates so far, and how many of them a crash keeps. */
  datatype State = State(disk: Disk, mem: Disk, lh: seq<int>, ops: seq<Op>, phase: Phase,
                         hist: seq<Update>, durable: nat, nextOp: nat)

  ghost function ApplyUpdates(d: Disk, us: seq<Update>): (r: Disk)
    requires forall i :: 0 <= i < |us| ==> 0 <= us[i].bno < |d|
    ensures |r| == |d|
  {
    if us == [] then d
    else
      var u := us[|us| - 1];
      ApplyUpdates(d, us[..|us| - 1])[u.bno := u.data]
  }

  // ----- Steps

  ghost predicate Init(L: Layout, d0: Disk, s: State) {
    && HeadOk(L, d0)
    && s == State(d0, d0, [], [], Recovering(d0, 0), [], 0, 0)
  }

  /** begin_op passes its test; otherwise the caller sleeps, which is no step. */
  ghost predicate BeginOp(s: State, t: State) {
    && s.phase.Running?
    && |s.lh| + (|s.ops| + 1) * MAXOPBLOCKS <= LOGSIZE
    && t == s.(ops := s.ops + [Op(s.nextOp, {}, {})], nextOp := s.nextOp + 1)
  }

  /** log_write's test: the log is full. */
  ghost predicate LogFull(L: Layout, s: State) {
    |s.lh| >= LOGSIZE || |s.lh| >= L.nlog - 1
  }

  /** Operation i may write block b within the budget of MAXOPBLOCKS distinct blocks. */
  ghost predicate InBudget(L: Layout, s: State, i: int, b: int) {
    && s.phase.Running? && 0 <= i < |s.ops| && L.Home(b)
    && |s.ops[i].used + {b}| <= MAXOPBLOCKS
  }

  /** Operation i changes a cached block, which it has locked. */
  ghost predicate Change(L: Layout, s: State, t: State, i: int, b: int, v: Block) {
    && s.phase.Running? && 0 <= i < |s.ops| && L.Home(b) && 0 <= b < |s.mem|
    && t == s.(mem := s.mem[b := v], ops := s.ops[i := s.ops[i].(dirty := s.ops[i].dirty + {b})],
               hist := s.hist + [Update(s.ops[i].id, b, v)])
  }

  /** log_write: the block joins the group. */
  ghost predicate LogWrite(L: Layout, s: State, t: State, i: int, b: int) {
    && InBudget(L, s, i, b) && !LogFull(L, s)
    && t == s.(lh := s.lh + (if b in s.lh then [] else [b]),
               ops := s.ops[i := s.ops[i].(used := s.ops[i].used + {b}, dirty := s.ops[i].dirty - {b})])
  }

  /** end_op of operation i, which has passed what it changed to log_write; the last one starts the commit. */
  ghost predicate EndOp(L: Layout, s: State, t: State, i: int) {
    && s.phase.Running? && 0 <= i < |s.ops| && s.ops[i].dirty == {}
    && var ops := s.ops[..i] + s.ops[i + 1..];
       if ops == [] && s.lh != [] then
         && (forall j :: 0 <= j < |s.lh| ==> 0 <= s.lh[j] < |s.mem|)
         && t == s.(ops := ops,
                    phase := Committing(s.disk, seq(|s.lh|, j requires 0 <= j < |s.lh| => s.mem[s.lh[j]]), 0))
       else t == s.(ops := ops)
  }

  ghost predicate CommitWrite(L: Layout, s: State, t: State) {
    && s.phase.Committing? && |s.lh| == |s.phase.c| < WORDS && 0 <= L.start < |s.phase.base|
    && s.phase.k < 2 * |s.lh| + 2
    && var w := CommitWrites(L, s.phase.base[L.start], s.lh, s.phase.c)[s.phase.k];
    && 0 <= w.bno < |s.disk| == |s.mem|
    && t == s.(disk := s.disk[w.bno := w.data], mem := s.mem[w.bno := w.data],
               phase := s.phase.(k := s.phase.k + 1),
               durable := if s.phase.k == |s.lh| then |s.hist| else s.durable)
  }

  ghost predicate CommitDone(s: State, t: State) {
    && s.phase.Committing? && s.phase.k == 2 * |s.lh| + 2
    && t == s.(phase := Running, lh := [])
  }

  /** Memory is lost, and with it every update that was not durable. */
  ghost predicate Crash(s: State, t: State) {
    && s.durable <= |s.hist|
    && t == s.(mem := s.disk, lh := [], ops := [], phase := Recovering(s.disk, 0), hist := s.hist[..s.durable])
  }

  ghost predicate RecoverWrite(L: Layout, s: State, t: State) {
    && s.phase.Recovering? && HeadOk(L, s.phase.image) && s.phase.j <= |Head(L, s.phase.image)|
    && var w := RecoverWrites(L, s.phase.image)[s.phase.j];
    && 0 <= w.bno < |s.disk| == |s.mem|
    && t == s.(disk := s.disk[w.bno := w.data], mem := s.mem[w.bno := w.data],
               phase := s.phase.(j := s.phase.j + 1))
  }

  ghost predicate RecoverDone(L: Layout, s: State, t: State) {
    && s.phase.Recovering? && HeadOk(L, s.phase.image) && s.phase.j == |Head(L, s.phase.image)| + 1
    && t == s.(phase := Running)
  }

  ghost predicate Next(L: Layout, s: State, t: State) {
    || BeginOp(s, t)
    || (exists i, b, v :: Change(L, s, t, i, b, v))
    || (exists i, b :: LogWrite(L, s, t, i, b))
    || (exists i :: EndOp(L, s, t, i))
    || CommitWrite(L, s, t)
    || CommitDone(s, t)
    || Crash(s, t)
    || RecoverWrite(L, s, t)
    || RecoverDone(L, s, t)
  }

  ghost predicate IsRun(L: Layout, d0: Disk, run: seq<State>) {
    && |run| > 0 && Init(L, d0, run[0])
    && (forall i :: 0 <= i < |run| - 1 ==> Next(L, run[i], run[i + 1]))
  }

  // ----- The invariant

  /** Log space still reserved by operations in progress. */
  ghost function Reserved(ops: seq<Op>): int {
    if ops == [] then 0
    else Reserved(ops[..|ops| - 1]) + MAXOPBLOCKS - |ops[|ops| - 1].used|
  }

  ghost predicate HistOk(L: Layout, d0: Disk, s: State) {
    && HeadOk(L, d0) && s.durable <= |s.hist|
    && |s.disk| == |s.mem| == L.size
    && (forall i :: 0 <= i < |s.hist| ==> L.Home(s.hist[i].bno) && s.hist[i].op < s.nextOp)
  }

  /** No operation is split by the durable prefix, and none in progress is in it. */
  ghost predicate OpsWhole(s: State) {
    && s.durable <= |s.hist|
    && (forall i, j :: 0 <= i < s.durable <= j < |s.hist| ==> s.hist[i].op != s.hist[j].op)
    && (forall i, j :: 0 <= i < s.durable && 0 <= j < |s.ops| ==> s.hist[i].op != s.ops[j].id)
    && (forall j :: 0 <= j < |s.ops| ==> s.ops[j].id < s.nextOp)
  }

  /** The home blocks after the first m updates. */
  ghost function After(L: Layout, d0: Disk, s: State, m: nat): (d: Disk)
    requires HistOk(L, d0, s) && m <= |s.hist|
    ensures |d| == L.size
  {
    ApplyUpdates(Recovered(L, d0), s.hist[..m])
  }

  /** b is in the group, or about to join it. */
  ghost predicate Pending(s: State, b: int) {
    b in s.lh || exists j :: 0 <= j < |s.ops| && b in s.ops[j].dirty
  }

  ghost predicate RunningOk(L: Layout, d0: Disk, s: State)
    requires HistOk(L, d0, s)
  {
    && HeadOk(L, s.disk) && Head(L, s.disk) == [] && TransOk(L, s.lh) && (s.ops == [] ==> s.lh == [])
    && SameHome(L, s.disk, After(L, d0, s, s.durable))
    && SameHome(L, s.mem, After(L, d0, s, |s.hist|))
    && (forall b :: L.Home(b) && !Pending(s, b) ==> s.mem[b] == s.disk[b])
    && (forall i :: s.durable <= i < |s.hist| ==> Pending(s, s.hist[i].bno))
    && (forall j :: 0 <= j < |s.ops| ==> |s.ops[j].used| <= MAXOPBLOCKS && forall b :: b in s.ops[j].used ==> b in s.lh)
    && |s.lh| + Reserved(s.ops) <= LOGSIZE
  }

  ghost predicate CommittingOk(L: Layout, d0: Disk, s: State)
    requires HistOk(L, d0, s) && s.phase.Committing?
  {
    var Committing(base, c, k) := s.phase;
    && s.ops == [] && TransOk(L, s.lh) && |s.lh| == |c| && k <= 2 * |c| + 2
    && HeadOk(L, base) && Head(L, base) == []
    && s.disk == CommitCut(L, base, s.lh, c, k)
    && (k <= |c| ==> SameHome(L, base, After(L, d0, s, s.durable)))
    && (k > |c| ==> s.durable == |s.hist|)
    && SameHome(L, Overlay(L, base, s.lh, c), After(L, d0, s, |s.hist|))
    && SameHome(L, s.mem, After(L, d0, s, |s.hist|))
  }

  ghost predicate RecoveringOk(L: Layout, d0: Disk, s: State)
    requires HistOk(L, d0, s) && s.phase.Recovering?
  {
    var Recovering(base, k) := s.phase;
    && s.ops == [] && s.lh == [] && s.durable == |s.hist| && s.mem == s.disk
    && HeadOk(L, base) && k <= |Head(L, base)| + 1
    && s.disk == RecoverCut(L, base, k)
    && SameHome(L, Recovered(L, base), After(L, d0, s, |s.hist|))
  }

  ghost predicate Inv(L: Layout, d0: Disk, s: State) {
    && HistOk(L, d0, s) && OpsWhole(s)
    && match s.phase
       case Running => RunningOk(L, d0, s)
       case Committing(_, _, _) => CommittingOk(L, d0, s)
       case Recovering(_, _) => RecoveringOk(L, d0, s)
  }

  // ----- Each step keeps the invariant

  lemma InitInv(L: Layout, d0: Disk, s: State)
    requires Init(L, d0, s)
    ensures Inv(L, d0, s)
  {
    assert RecoverWrites(L, d0)[..0] == [];
  }

  lemma BeginInv(L: Layout, d0: Disk, s: State, t: State)
    requires Inv(L, d0, s) && BeginOp(s, t)
    ensures Inv(L, d0, t)
  {
    hide HeadOk, SameHome, TransOk, Head, ApplyUpdates;
    assert t.ops[..|s.ops|] == s.ops;
    ReservedAtMost(s.ops);
  }

  lemma {:induction false} ReservedAtMost(ops: seq<Op>)
    requires forall j :: 0 <= j < |ops| ==> |ops[j].used| <= MAXOPBLOCKS
    ensures 0 <= Reserved(ops) <= |ops| * MAXOPBLOCKS
  {
    if ops != [] {
      ReservedAtMost(ops[..|ops| - 1]);
    }
  }

  lemma {:induction false} ReservedUpdate(ops: seq<Op>, i: nat, op: Op)
    requires i < |ops|
    ensures Reserved(ops[i := op]) == Reserved(ops) + |ops[i].used| - |op.used|
  {
    var n := |ops| - 1;
    if i < n {
      assert ops[i := op][..n] == ops[..n][i := op];
      ReservedUpdate(ops[..n], i, op);
    } else {
      assert ops[i := op][..n] == ops[..n];
    }
  }

  lemma {:induction false} ReservedRemove(ops: seq<Op>, i: nat)
    requires i < |ops|
    ensures Reserved(ops[..i] + ops[i + 1..]) == Reserved(ops) - (MAXOPBLOCKS - |ops[i].used|)
  {
    var n := |ops| - 1;
    var r := ops[..i] + ops[i + 1..];
    if i < n {
      assert r[..n - 1] == ops[..n][..i] + ops[..n][i + 1..];
      ReservedRemove(ops[..n], i);
    } else {
      assert r == ops[..n];
    }
  }

  /** Appending an update moves the logical contents by that update. */
  lemma AfterAppend(L: Layout, d0: Disk, s: State, t: State, u: Update)
    requires HistOk(L, d0, s) && HistOk(L, d0, t) && t.hist == s.hist + [u] && 0 <= u.bno < L.size
    ensures After(L, d0, t, |t.hist|) == After(L, d0, s, |s.hist|)[u.bno := u.data]
    ensures forall m :: 0 <= m <= |s.hist| ==> After(L, d0, t, m) == After(L, d0, s, m)
  {
    assert t.hist[..|t.hist|] == t.hist && s.hist[..|s.hist|] == s.hist;
    assert t.hist[..|s.hist|] == s.hist;
    assert forall m :: 0 <= m <= |s.hist| ==> t.hist[..m] == s.hist[..m];
  }

  lemma ChangeContents(L: Layout, d0: Disk, s: State, t: State, i: int, b: int, v: Block)
    requires Inv(L, d0, s) && Change(L, s, t, i, b, v)
    ensures HistOk(L, d0, t)
    ensures SameHome(L, t.disk, After(L, d0, t, t.durable))
    ensures SameHome(L, t.mem, After(L, d0, t, |t.hist|))
  {
    hide HeadOk, After, Reserved, ApplyUpdates, Pending;
    AfterAppend(L, d0, s, t, Update(s.ops[i].id, b, v));
  }

  lemma ChangePending(s: State, t: State, i: int, b: int, x: int)
    requires 0 <= i < |s.ops| && t.lh == s.lh && t.ops == s.ops[i := s.ops[i].(dirty := s.ops[i].dirty + {b})]
    ensures Pending(s, x) ==> Pending(t, x)
    ensures Pending(t, b)
  {
    assert b in t.ops[i].dirty;
    if j :| 0 <= j < |s.ops| && x in s.ops[j].dirty {
      assert x in t.ops[j].dirty;
    }
  }

  lemma ChangeInv(L: Layout, d0: Disk, s: State, t: State, i: int, b: int, v: Block)
    requires Inv(L, d0, s) && Change(L, s, t, i, b, v)
    ensures Inv(L, d0, t)
  {
    hide HeadOk, After, SameHome, Reserved, TransOk, Head, Pending;
    ChangeContents(L, d0, s, t, i, b, v);
    ReservedUpdate(s.ops, i, t.ops[i]);
    forall x ensures Pending(s, x) ==> Pending(t, x) {
      ChangePending(s, t, i, b, x);
    }
    ChangePending(s, t, i, b, b);
  }

  lemma LogWritePending(s: State, t: State, i: int, b: int, x: int)
    requires 0 <= i < |s.ops| && t.lh == s.lh + (if b in s.lh then [] else [b])
    requires t.ops == s.ops[i := s.ops[i].(used := s.ops[i].used + {b}, dirty := s.ops[i].dirty - {b})]
    ensures Pending(s, x) ==> Pending(t, x)
  {
    assert b in t.lh;
    if j :| 0 <= j < |s.ops| && x in s.ops[j].dirty && x != b {
      assert x in t.ops[j].dirty;
    }
  }

  lemma LogWriteKeepsSpace(L: Layout, d0: Disk, s: State, t: State, i: int, b: int)
    requires Inv(L, d0, s) && LogWrite(L, s, t, i, b)
    ensures |t.lh| + Reserved(t.ops) <= LOGSIZE
  {
    hide HeadOk, After, SameHome, Reserved, TransOk, Pending;
    ReservedUpdate(s.ops, i, t.ops[i]);
    SubsetSize(s.ops[i].used, s.ops[i].used + {b});
    if b !in s.lh {
      assert b !in s.ops[i].used;
    }
  }

  lemma LogWriteTrans(L: Layout, d0: Disk, s: State, t: State, i: int, b: int)
    requires Inv(L, d0, s) && LogWrite(L, s, t, i, b)
    ensures TransOk(L, t.lh)
  {
    hide HeadOk, After, SameHome, Reserved, Pending;
  }

  lemma LogWriteInv(L: Layout, d0: Disk, s: State, t: State, i: int, b: int)
    requires Inv(L, d0, s) && LogWrite(L, s, t, i, b)
    ensures Inv(L, d0, t)
  {
    hide HeadOk, SameHome, Reserved, TransOk, Head, Pending, ApplyUpdates;
    LogWriteTrans(L, d0, s, t, i, b);
    LogWriteKeepsSpace(L, d0, s, t, i, b);
    forall x ensures Pending(s, x) ==> Pending(t, x) {
      LogWritePending(s, t, i, b, x);
    }
  }

  lemma SubsetSize(a: set<int>, b: set<int>)
    requires a <= b
    ensures |a| <= |b|
  {
    assert b == a + (b - a);
  }

  /** Putting the cached blocks in place on the disk gives the cached home blocks. */
  lemma GatherOverlay(L: Layout, d: Disk, m: Disk, lh: seq<int>, c: seq<Block>)
    requires L.Valid() && |d| == |m| == L.size && TransOk(L, lh) && |c| == |lh|
    requires forall i :: 0 <= i < |c| ==> c[i] == m[lh[i]]
    requires forall b :: L.Home(b) && b !in lh ==> m[b] == d[b]
    ensures SameHome(L, Overlay(L, d, lh, c), m)
  {
    OverlayAt(L, d, lh, c);
  }

  lemma EndPending(s: State, t: State, i: int, x: int)
    requires 0 <= i < |s.ops| && s.ops[i].dirty == {} && t.lh == s.lh && t.ops == s.ops[..i] + s.ops[i + 1..]
    ensures Pending(s, x) ==> Pending(t, x)
  {
    if j :| 0 <= j < |s.ops| && x in s.ops[j].dirty {
      assert x in t.ops[if j < i then j else j - 1].dirty;
    }
  }

  lemma EndInv(L: Layout, d0: Disk, s: State, t: State, i: int)
    requires Inv(L, d0, s) && EndOp(L, s, t, i)
    ensures Inv(L, d0, t)
  {
    hide ApplyUpdates, Apply, Reserved;
    var ops := s.ops[..i] + s.ops[i + 1..];
    ReservedRemove(s.ops, i);
    assert forall j :: 0 <= j < |ops| ==> ops[j] in s.ops;
    forall x ensures Pending(s, x) ==> Pending(t, x) {
      EndPending(s, t, i, x);
    }
    if ops == [] && s.lh != [] {
      GatherOverlay(L, s.disk, s.mem, s.lh, t.phase.c);
      NoCutYet(L, s.disk, s.lh, t.phase.c);
    }
  }

  lemma NoCutYet(L: Layout, d: Disk, lh: seq<int>, c: seq<Block>)
    requires HeadOk(L, d) && Head(L, d) == [] && TransOk(L, lh) && |lh| == |c|
    ensures CommitCut(L, d, lh, c, 0) == d
  {
    assert CommitWrites(L, d[L.start], lh, c)[..0] == [];
  }

  /** One more write of the commit is one step along CommitCut. */
  lemma CommitCutStep(L: Layout, d: Disk, lh: seq<int>, c: seq<Block>, k: nat)
    requires HeadOk(L, d) && Head(L, d) == [] && TransOk(L, lh) && |lh| == |c| && k < 2 * |c| + 2
    ensures var w := CommitWrites(L, d[L.start], lh, c)[k];
      0 <= w.bno < |d| && CommitCut(L, d, lh, c, k + 1) == CommitCut(L, d, lh, c, k)[w.bno := w.data]
  {
    var ws := CommitWrites(L, d[L.start], lh, c);
    assert InRange(ws, |d|);
    assert ws[..k + 1][..k] == ws[..k];
  }

  /** A write of the commit changes no home block of the cache. */
  lemma CommitWriteKeepsMem(L: Layout, d0: Disk, s: State, t: State)
    requires Inv(L, d0, s) && CommitWrite(L, s, t)
    ensures SameHome(L, t.mem, s.mem)
  {
    hide Overlay, CommitCut, After, HeadBlock, SlotWrites, HomeWrites;
    var Committing(base, c, k) := s.phase;
    OverlayAt(L, base, s.lh, c);
    var w := CommitWrites(L, base[L.start], s.lh, c)[k];
    if |c| < k < 2 * |c| + 1 {
      assert w == HomeWrites(s.lh, c)[k - |c| - 1];
    } else if k < |c| {
      assert w == SlotWrites(L, c)[k];
    }
  }

  lemma CommitWriteInv(L: Layout, d0: Disk, s: State, t: State)
    requires Inv(L, d0, s) && CommitWrite(L, s, t)
    ensures Inv(L, d0, t)
  {
    CommitCutStep(L, s.phase.base, s.lh, s.phase.c, s.phase.k);
    CommitWriteKeepsMem(L, d0, s, t);
    assert forall m :: 0 <= m <= |s.hist| && HistOk(L, d0, t) ==> After(L, d0, t, m) == After(L, d0, s, m);
  }

  lemma CommitDoneInv(L: Layout, d0: Disk, s: State, t: State)
    requires Inv(L, d0, s) && CommitDone(s, t)
    ensures Inv(L, d0, t)
  {
    CommitCutShape(L, s.phase.base, s.lh, s.phase.c, s.phase.k);
  }

  /** What recovery would yield from here is the durable prefix. */
  lemma RecoversDurable(L: Layout, d0: Disk, s: State)
    requires Inv(L, d0, s)
    ensures HeadOk(L, s.disk) && SameHome(L, Recovered(L, s.disk), After(L, d0, s, s.durable))
  {
    match s.phase
    case Running =>
      CleanRecovers(L, s.disk);
    case Committing(base, c, k) =>
      CrashDuringCommit(L, base, s.lh, c, k);
    case Recovering(base, k) =>
      CrashDuringRecovery(L, base, k);
  }

  lemma CrashInv(L: Layout, d0: Disk, s: State, t: State)
    requires Inv(L, d0, s) && Crash(s, t)
    ensures Inv(L, d0, t)
  {
    RecoversDurable(L, d0, s);
    assert t.hist[..s.durable] == s.hist[..s.durable];
    assert RecoverWrites(L, s.disk)[..0] == [];
  }

  lemma RecoverWriteInv(L: Layout, d0: Disk, s: State, t: State)
    requires Inv(L, d0, s) && RecoverWrite(L, s, t)
    ensures Inv(L, d0, t)
  {
    var ws := RecoverWrites(L, s.phase.image);
    assert ws[..s.phase.j + 1][..s.phase.j] == ws[..s.phase.j];
  }

  lemma RecoverDoneInv(L: Layout, d0: Disk, s: State, t: State)
    requires Inv(L, d0, s) && RecoverDone(L, s, t)
    ensures Inv(L, d0, t)
  {
    var base := s.phase.image;
    assert RecoverWrites(L, base)[..s.phase.j] == RecoverWrites(L, base);
    RecoveredAt(L, base);
  }

  lemma NextInv(L: Layout, d0: Disk, s: State, t: State)
    requires Inv(L, d0, s) && Next(L, s, t)
    ensures Inv(L, d0, t)
  {
    if BeginOp(s, t) {
      BeginInv(L, d0, s, t);
    } else if i, b, v :| Change(L, s, t, i, b, v) {
      ChangeInv(L, d0, s, t, i, b, v);
    } else if i, b :| LogWrite(L, s, t, i, b) {
      LogWriteInv(L, d0, s, t, i, b);
    } else if i :| EndOp(L, s, t, i) {
      EndInv(L, d0, s, t, i);
    } else if CommitWrite(L, s, t) {
      CommitWriteInv(L, d0, s, t);
    } else if CommitDone(s, t) {
      CommitDoneInv(L, d0, s, t);
    } else if Crash(s, t) {
      CrashInv(L, d0, s, t);
    } else if RecoverWrite(L, s, t) {
      RecoverWriteInv(L, d0, s, t);
    } else {
      RecoverDoneInv(L, d0, s, t);
    }
  }

  lemma {:induction false} RunInv(L: Layout, d0: Disk, run: seq<State>, i: nat)
    requires IsRun(L, d0, run) && i < |run|
    ensures Inv(L, d0, run[i])
  {
    if i == 0 {
      InitInv(L, d0, run[0]);
    } else {
      RunInv(L, d0, run, i - 1);
      NextInv(L, d0, run[i - 1], run[i]);
    }
  }

  // ----- Theorems over all runs

  /** Crash atomicity of operations: at every point of every run, a crash followed by recovery
      yields the updates of a prefix of the history that splits no operation and contains
      nothing of an operation still in progress. */
  lemma CrashAtomicity(L: Layout, d0: Disk, run: seq<State>, i: nat)
    requires IsRun(L, d0, run) && i < |run|
    ensures HistOk(L, d0, run[i]) && HeadOk(L, run[i].disk)
    ensures SameHome(L, Recovered(L, run[i].disk), After(L, d0, run[i], run[i].durable))
    ensures OpsWhole(run[i])
  {
    RunInv(L, d0, run, i);
    RecoversDurable(L, d0, run[i]);
  }

  /** Durability: with no operation in progress and no commit under way, the log is empty and nothing can be lost. */
  lemma IdleIsDurable(L: Layout, d0: Disk, run: seq<State>, i: nat)
    requires IsRun(L, d0, run) && i < |run| && run[i].phase.Running? && run[i].ops == []
    ensures run[i].lh == [] && run[i].durable == |run[i].hist|
    ensures HistOk(L, d0, run[i]) && SameHome(L, run[i].disk, After(L, d0, run[i], |run[i].hist|))
  {
    hide SameHome, After, HeadOk, Pending;
    RunInv(L, d0, run, i);
    RunningStage(L, d0, run[i]);
  }

  /** No steal: until the commit, a logged block's home copy is the last durable one, while
      readers of the cache see every update. */
  lemma NoSteal(L: Layout, d0: Disk, run: seq<State>, i: nat)
    requires IsRun(L, d0, run) && i < |run| && run[i].phase.Running?
    ensures HistOk(L, d0, run[i])
    ensures SameHome(L, run[i].disk, After(L, d0, run[i], run[i].durable))
    ensures SameHome(L, run[i].mem, After(L, d0, run[i], |run[i].hist|))
  {
    RunInv(L, d0, run, i);
  }

  // ----- Commits and recoveries come to an end

  /** Steps of one commit, and nothing else. */
  ghost predicate CommitPath(L: Layout, path: seq<State>) {
    && |path| > 0
    && forall i :: 0 <= i < |path| - 1 ==> CommitWrite(L, path[i], path[i + 1]) || CommitDone(path[i], path[i + 1])
  }

  ghost predicate RecoverPath(L: Layout, path: seq<State>) {
    && |path| > 0
    && forall i :: 0 <= i < |path| - 1 ==> RecoverWrite(L, path[i], path[i + 1]) || RecoverDone(L, path[i], path[i + 1])
  }

  /** Idle, with all of this history on the disk. */
  ghost predicate Settled(s: State, hist: seq<Update>) {
    s.phase.Running? && s.ops == [] && s.lh == [] && s.hist == hist && s.durable == |hist|
  }

  lemma CommitGoesOn(L: Layout, d0: Disk, s: State) returns (t: State)
    requires Inv(L, d0, s) && s.phase.Committing? && s.phase.k < 2 * |s.lh| + 2
    ensures CommitWrite(L, s, t) && t.lh == s.lh && t.hist == s.hist
      && t.phase == Committing(s.phase.base, s.phase.c, s.phase.k + 1)
  {
    hide Overlay, After, HeadBlock, SlotWrites, HomeWrites, SameHome, CommitCut;
    CommitCutStep(L, s.phase.base, s.lh, s.phase.c, s.phase.k);
    var w := CommitWrites(L, s.phase.base[L.start], s.lh, s.phase.c)[s.phase.k];
    t := s.(disk := s.disk[w.bno := w.data], mem := s.mem[w.bno := w.data], phase := s.phase.(k := s.phase.k + 1),
            durable := if s.phase.k == |s.lh| then |s.hist| else s.durable);
  }

  /** A commit under way can always be carried through, and then all of the history is on the disk. */
  lemma {:induction false} CommitFinishes(L: Layout, d0: Disk, s: State) returns (path: seq<State>)
    requires Inv(L, d0, s) && s.phase.Committing?
    ensures CommitPath(L, path) && path[0] == s && Settled(path[|path| - 1], s.hist)
    decreases 2 * |s.lh| + 2 - s.phase.k
  {
    hide Inv, CommitWrite;
    CommitStage(L, d0, s);
    if s.phase.k < 2 * |s.lh| + 2 {
      var t := CommitGoesOn(L, d0, s);
      NextInv(L, d0, s, t);
      var rest := CommitFinishes(L, d0, t);
      path := [s] + rest;
    } else {
      path := [s, s.(phase := Running, lh := [])];
    }
  }

  lemma CommitStage(L: Layout, d0: Disk, s: State)
    requires Inv(L, d0, s) && s.phase.Committing?
    ensures s.ops == [] && s.phase.k <= 2 * |s.lh| + 2 && (s.phase.k > |s.lh| ==> s.durable == |s.hist|)
  {
    hide Overlay, After, SameHome, CommitCut;
  }

  /** The last end_op leads to a disk with all of the history, by the steps of one commit. */
  lemma LastEndCommits(L: Layout, d0: Disk, s: State) returns (path: seq<State>)
    requires Inv(L, d0, s) && s.phase.Running? && |s.ops| == 1 && s.ops[0].dirty == {}
    ensures |path| > 0 && EndOp(L, s, path[0], 0) && CommitPath(L, path) && Settled(path[|path| - 1], s.hist)
  {
    hide Inv, CommitWrite;
    RunningStage(L, d0, s);
    assert s.ops[..0] + s.ops[1..] == [];
    if s.lh == [] {
      var t := s.(ops := []);
      assert EndOp(L, s, t, 0);
      NextInv(L, d0, s, t);
      RunningStage(L, d0, t);
      path := [t];
    } else {
      var c := seq(|s.lh|, j requires 0 <= j < |s.lh| => s.mem[s.lh[j]]);
      var t := s.(ops := [], phase := Committing(s.disk, c, 0));
      assert EndOp(L, s, t, 0);
      NextInv(L, d0, s, t);
      path := CommitFinishes(L, d0, t);
    }
  }

  /** One operation on its own: begin_op, a change to any home block, log_write and end_op lead to a disk that holds the
      change. */
  lemma UpdateAlone(L: Layout, d0: Disk, s: State, b: int, v: Block)
    returns (t: State, u: State, w: State, path: seq<State>)
    requires Inv(L, d0, s) && s.phase.Running? && s.ops == [] && L.Home(b) && b < |s.mem|
    requires L.nlog > 1
    ensures BeginOp(s, t) && Change(L, t, u, 0, b, v) && LogWrite(L, u, w, 0, b)
    ensures |path| > 0 && EndOp(L, w, path[0], 0) && CommitPath(L, path)
    ensures Settled(path[|path| - 1], s.hist + [Update(s.nextOp, b, v)])
  {
    hide Inv, CommitWrite, CommitDone, EndOp;
    RunningStage(L, d0, s);
    t := s.(ops := [Op(s.nextOp, {}, {})], nextOp := s.nextOp + 1);
    u := t.(mem := s.mem[b := v], ops := [Op(s.nextOp, {}, {b})], hist := s.hist + [Update(s.nextOp, b, v)]);
    w := u.(lh := [b], ops := [Op(s.nextOp, {b}, {})]);
    assert BeginOp(s, t);
    assert {} + {b} == {b} && {b} - {b} == {};
    assert Change(L, t, u, 0, b, v);
    assert LogWrite(L, u, w, 0, b);
    NextInv(L, d0, s, t);
    NextInv(L, d0, t, u);
    NextInv(L, d0, u, w);
    path := LastEndCommits(L, d0, w);
  }

  lemma RunningStage(L: Layout, d0: Disk, s: State)
    requires Inv(L, d0, s) && s.phase.Running?
    ensures forall j :: 0 <= j < |s.lh| ==> 0 <= s.lh[j] < |s.mem|
    ensures s.ops == [] ==> s.lh == [] && s.durable == |s.hist|
  {
    hide After, SameHome, HeadOk;
    assert s.durable < |s.hist| ==> Pending(s, s.hist[s.durable].bno);
  }

  lemma RecoveryGoesOn(L: Layout, d0: Disk, s: State) returns (t: State)
    requires Inv(L, d0, s) && s.phase.Recovering? && s.phase.j <= |Head(L, s.phase.image)|
    ensures RecoverWrite(L, s, t) && t.hist == s.hist && t.phase == Recovering(s.phase.image, s.phase.j + 1)
  {
    hide After, SameHome, RecoverCut;
    var ws := RecoverWrites(L, s.phase.image);
    var w := ws[s.phase.j];
    t := s.(disk := s.disk[w.bno := w.data], mem := s.mem[w.bno := w.data], phase := s.phase.(j := s.phase.j + 1));
  }

  lemma RecoveryStage(L: Layout, d0: Disk, s: State)
    requires Inv(L, d0, s) && s.phase.Recovering?
    ensures HeadOk(L, s.phase.image) && s.phase.j <= |Head(L, s.phase.image)| + 1
    ensures s.ops == [] && s.lh == [] && s.durable == |s.hist|
  {
    hide After, SameHome, RecoverCut, HeadOk;
  }

  /** A recovery under way can always be carried through. */
  lemma {:induction false} RecoveryFinishes(L: Layout, d0: Disk, s: State) returns (path: seq<State>)
    requires Inv(L, d0, s) && s.phase.Recovering?
    ensures HeadOk(L, s.phase.image)
    ensures RecoverPath(L, path) && path[0] == s && Settled(path[|path| - 1], s.hist)
    decreases |Head(L, s.phase.image)| + 1 - s.phase.j
  {
    hide Inv, RecoverWrite, HeadOk, Head;
    RecoveryStage(L, d0, s);
    if s.phase.j <= |Head(L, s.phase.image)| {
      var t := RecoveryGoesOn(L, d0, s);
      NextInv(L, d0, s, t);
      var rest := RecoveryFinishes(L, d0, t);
      path := [s] + rest;
    } else {
      path := [s, s.(phase := Running)];
    }
  }

  /** A crash at any point leads, by the steps of one recovery, to an idle system with everything that was durable. */
  lemma CrashAlone(L: Layout, d0: Disk, s: State) returns (t: State, path: seq<State>)
    requires Inv(L, d0, s)
    ensures s.durable <= |s.hist| && Crash(s, t) && RecoverPath(L, path) && path[0] == t
    ensures Settled(path[|path| - 1], s.hist[..s.durable])
  {
    hide Inv, RecoverWrite, RecoverDone, HeadOk, Head;
    DurableBound(L, d0, s);
    t := s.(mem := s.disk, lh := [], ops := [], phase := Recovering(s.disk, 0), hist := s.hist[..s.durable]);
    NextInv(L, d0, s, t);
    path := RecoveryFinishes(L, d0, t);
  }

  lemma DurableBound(L: Layout, d0: Disk, s: State)
    requires Inv(L, d0, s)
    ensures s.durable <= |s.hist|
  {
    hide Overlay, After, SameHome, CommitCut, RecoverCut, HeadOk;
  }

  // ----- Log space

  ghost predicate Reachable(L: Layout, d0: Disk, s: State) {
    exists run :: IsRun(L, d0, run) && run[|run| - 1] == s
  }

  /** A log_write that adds a block within its operation's budget would panic here. */
  ghost predicate AddPanics(L: Layout, s: State) {
    exists i, b :: InBudget(L, s, i, b) && b !in s.lh && LogFull(L, s)
  }

  lemma {:induction false} ReservedHere(ops: seq<Op>, i: nat)
    requires i < |ops| && forall j :: 0 <= j < |ops| ==> |ops[j].used| <= MAXOPBLOCKS
    ensures Reserved(ops) >= MAXOPBLOCKS - |ops[i].used|
  {
    ReservedRemove(ops, i);
    var rest := ops[..i] + ops[i + 1..];
    assert forall j :: 0 <= j < |rest| ==> rest[j] in ops;
    ReservedAtMost(rest);
  }

  /** begin_op's reservation suffices when the region has more than LOGSIZE blocks. */
  lemma AddNeverPanics(L: Layout, d0: Disk, s: State)
    requires Reachable(L, d0, s) && L.nlog > LOGSIZE
    ensures |s.lh| <= LOGSIZE && !AddPanics(L, s)
  {
    hide SameHome, After, Reserved, Next, Head;
    var run :| IsRun(L, d0, run) && run[|run| - 1] == s;
    RunInv(L, d0, run, |run| - 1);
    forall i, b | InBudget(L, s, i, b) && b !in s.lh
      ensures !LogFull(L, s)
    {
      ReservedHere(s.ops, i);
      assert b !in s.ops[i].used;
    }
  }

  lemma StartReachable(L: Layout, d0: Disk, s: State)
    requires Init(L, d0, s)
    ensures Reachable(L, d0, s)
  {
    assert IsRun(L, d0, [s]) && [s][0] == s;
  }

  lemma Extend(L: Layout, d0: Disk, s: State, t: State)
    requires Reachable(L, d0, s) && Next(L, s, t)
    ensures Reachable(L, d0, t)
  {
    var run :| IsRun(L, d0, run) && run[|run| - 1] == s;
    assert IsRun(L, d0, run + [t]);
  }

  /** Three operations in progress, which have logged the k blocks after the log region in turn. */
  ghost predicate Filled(L: Layout, s: State, k: nat) {
    && s.phase.Running? && |s.lh| == k && |s.ops| == 3 && |s.mem| == L.size
    && k <= LOGSIZE && (forall i :: 0 <= i < k ==> s.lh[i] == L.start + L.nlog + i && s.lh[i] in s.ops[i / 10].used)
    && (forall j :: 0 <= j < 3 ==>
          |s.ops[j].used| == (if k <= 10 * j then 0 else if k < 10 * j + 10 then k - 10 * j else 10))
    && (forall j, b :: 0 <= j < 3 && b in s.ops[j].used ==> b < L.start + L.nlog + k)
  }

  lemma FilledEmpty(L: Layout, d0: Disk) returns (s: State)
    requires HeadOk(L, d0) && Head(L, d0) == []
    ensures Reachable(L, d0, s) && Filled(L, s, 0)
  {
    hide Reachable, IsRun, HeadBlock;
    s := State(d0, d0, [], [], Recovering(d0, 0), [], 0, 0);
    StartReachable(L, d0, s);
    var w := RecoverWrites(L, d0)[0];
    var t := s.(disk := d0[w.bno := w.data], mem := d0[w.bno := w.data], phase := Recovering(d0, 1));
    assert RecoverWrite(L, s, t);
    Extend(L, d0, s, t);
    s := t.(phase := Running);
    Extend(L, d0, t, s);
    t := s.(ops := [Op(0, {}, {})], nextOp := 1);
    assert BeginOp(s, t);
    Extend(L, d0, s, t);
    s := t.(ops := [Op(0, {}, {}), Op(1, {}, {})], nextOp := 2);
    assert BeginOp(t, s);
    Extend(L, d0, t, s);
    t := s.(ops := [Op(0, {}, {}), Op(1, {}, {}), Op(2, {}, {})], nextOp := 3);
    assert BeginOp(s, t);
    Extend(L, d0, s, t);
    s := t;
  }

  lemma {:induction false} FilledReachable(L: Layout, d0: Disk, k: nat) returns (s: State)
    requires HeadOk(L, d0) && Head(L, d0) == [] && L.start + L.nlog + LOGSIZE <= L.size
    requires k <= L.Capacity()
    ensures Reachable(L, d0, s) && Filled(L, s, k)
  {
    if k == 0 {
      s := FilledEmpty(L, d0);
    } else {
      var p := FilledReachable(L, d0, k - 1);
      var i, b := (k - 1) / 10, L.start + L.nlog + k - 1;
      s := p.(lh := p.lh + [b],
              ops := p.ops[i := p.ops[i].(used := p.ops[i].used + {b}, dirty := p.ops[i].dirty - {b})]);
      assert LogWrite(L, p, s, i, b);
      Extend(L, d0, p, s);
    }
  }

  /** The exact size a log region needs: begin_op reserves against LOGSIZE, but a region of nlog
      blocks holds nlog - 1, so the promise holds if and only if nlog > LOGSIZE.  The image that
      mkfs writes has nlog == LOGSIZE. */
  lemma LogSpaceSuffices(L: Layout, d0: Disk)
    requires HeadOk(L, d0) && Head(L, d0) == [] && L.start + L.nlog + LOGSIZE <= L.size
    ensures (forall s :: Reachable(L, d0, s) ==> !AddPanics(L, s)) <==> L.nlog > LOGSIZE
  {
    if L.nlog > LOGSIZE {
      forall s | Reachable(L, d0, s) ensures !AddPanics(L, s) {
        AddNeverPanics(L, d0, s);
      }
    } else {
      var s := FilledReachable(L, d0, L.nlog - 1);
      var i, b := (L.nlog - 1) / 10, L.start + L.nlog + L.nlog - 1;
      assert InBudget(L, s, i, b) && b !in s.lh && LogFull(L, s);
      assert AddPanics(L, s);
    }
  }

  /** log_write tests for a full log before it looks for the block, so on a log of any size a
      write that would only be absorbed can still panic. */
  lemma AbsorbedWriteCanPanic(L: Layout, d0: Disk)
    requires HeadOk(L, d0) && Head(L, d0) == [] && 2 <= L.nlog && L.start + L.nlog + LOGSIZE <= L.size
    ensures exists s, i, b :: Reachable(L, d0, s) && InBudget(L, s, i, b) && b in s.lh && LogFull(L, s)
  {
    var n := L.Capacity();
    var s := FilledReachable(L, d0, n);
    var i, b := (n - 1) / 10, s.lh[n - 1];
    assert s.ops[i].used + {b} == s.ops[i].used;
    assert InBudget(L, s, i, b) && b in s.lh && LogFull(L, s);
  }
}
