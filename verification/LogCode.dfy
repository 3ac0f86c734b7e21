/**
 The functions of kernel/log.c over a buffer layer, each proved to issue exactly the block
 writes that LogSpec describes.
 */
module LogCode {
  import opened Params
  import opened LogSpec

  /** The buffer layer as log.c uses it: `mem` is what bread returns, `disk` what survives a crash. */
  class Buffers {
    var mem: Disk
    var disk: Disk
    ghost var writes: seq<Write>  // every disk write, in order

    constructor (d: Disk)
      ensures mem == disk == d && writes == []
    {
      mem, disk, writes := d, d, [];
    }

    method Bread(b: int) returns (data: Block)
      requires 0 <= b < |mem|
      ensures data == mem[b]
    {
      data := mem[b];
    }

    method Bwrite(b: int, data: Block)
      requires |mem| == |disk| && 0 <= b < |disk|
      modifies this
      ensures mem == old(mem)[b := data] && disk == old(disk)[b := data]
      ensures writes == old(writes) + [Write(b, data)]
    {
      mem, disk := mem[b := data], disk[b := data];
      writes := writes + [Write(b, data)];
    }
  }

  ghost function Gather(m: Disk, lh: seq<int>): (c: seq<Block>)
    requires forall i :: 0 <= i < |lh| ==> 0 <= lh[i] < |m|
    ensures |c| == |lh|
  {
    seq(|lh|, i requires 0 <= i < |lh| => m[lh[i]])
  }

  datatype Outcome = Done | Panic

  class Log {
    const L: Layout            // log.start and log.size
    const bc: Buffers
    const block: array<int>    // lh.block
    var n: nat                 // lh.n
    var outstanding: nat
    var committing: bool

    ghost predicate Shape()
      reads this, bc
    {
      && L.Valid() && block.Length == LOGSIZE && n <= L.Capacity()
      && |bc.mem| == |bc.disk| == L.size
    }

    /** The blocks of the current transaction. */
    ghost function Trans(): (lh: seq<int>)
      requires Shape()
      reads this, bc, block
      ensures |lh| == n
    {
      block[..n]
    }

    /** Between operations: only blocks of the transaction differ from the disk, and the on-disk log is clear. */
    ghost predicate Valid()
      reads this, bc, block
    {
      && Shape() && TransOk(L, Trans())
      && HeadOk(L, bc.disk) && Head(L, bc.disk) == []
      && (forall b :: 0 <= b < L.size && b !in Trans() ==> bc.mem[b] == bc.disk[b])
    }

    /** The cached contents of the transaction's blocks. */
    ghost function Contents(): (c: seq<Block>)
      requires Shape() && TransOk(L, Trans())
      reads this, bc, block
      ensures |c| == n
    {
      Gather(bc.mem, Trans())
    }

    /** install_trans */
    method InstallTrans()
      requires Shape() && TransOk(L, Trans())
      modifies bc
      ensures |bc.mem| == |bc.disk| == L.size
      ensures var c := old(Slots(L, bc.mem, n));
        && bc.writes == old(bc.writes) + HomeWrites(Trans(), c)
        && bc.disk == Overlay(L, old(bc.disk), Trans(), c)
        && bc.mem == Overlay(L, old(bc.mem), Trans(), c)
    {
      hide Apply, HomeWrites;
      ghost var c := Slots(L, bc.mem, n);
      ghost var hw := HomeWrites(Trans(), c);
      ApplyNone(bc.mem, bc.disk);
      var tail := 0;
      assert hw[..0] == [];
      while tail < n
        invariant 0 <= tail <= n
        invariant |bc.mem| == |bc.disk| == L.size
        invariant bc.writes == old(bc.writes) + hw[..tail]
        invariant InRange(hw, L.size)
        invariant bc.disk == Apply(old(bc.disk), hw[..tail])
        invariant bc.mem == Apply(old(bc.mem), hw[..tail])
        invariant forall b :: L.start <= b < L.start + L.nlog ==> bc.mem[b] == old(bc.mem[b])
      {
        var lbuf := bc.Bread(L.start + tail + 1);
        assert lbuf == c[tail];
        bc.Bwrite(block[tail], lbuf);
        assert hw[..tail + 1] == hw[..tail] + [hw[tail]];
        ApplySnoc(old(bc.disk), hw, tail);
        ApplySnoc(old(bc.mem), hw, tail);
        tail := tail + 1;
      }
      assert hw[..n] == hw;
    }

    /** read_head */
    method ReadHead()
      requires L.Valid() && block.Length == LOGSIZE && |bc.mem| == L.size && HeadOk(L, bc.mem)
      modifies this`n, block
      ensures n == |Head(L, bc.mem)| && block[..n] == Head(L, bc.mem)
    {
      var hb := bc.Bread(L.start);
      n := hb[0];
      var i := 0;
      while i < n
        invariant 0 <= i <= n == hb[0]
        invariant forall k :: 0 <= k < i ==> block[k] == hb[1 + k]
      {
        block[i] := hb[1 + i];
        i := i + 1;
      }
      assert block[..n] == hb[1..1 + n];
    }

    /** write_head */
    method WriteHead()
      requires Shape()
      modifies bc
      ensures |bc.mem| == |bc.disk| == L.size
      ensures var hb := HeadBlock(old(bc.mem[L.start]), Trans());
        && bc.writes == old(bc.writes) + [Write(L.start, hb)]
        && bc.mem == old(bc.mem)[L.start := hb]
        && bc.disk == old(bc.disk)[L.start := hb]
    {
      var hb := bc.Bread(L.start);
      ghost var prev: Block := hb;
      hb := hb[0 := n];
      var i := 0;
      while i < n
        invariant 0 <= i <= n && |hb| == WORDS
        invariant hb[0] == n && (forall k :: 0 <= k < i ==> hb[1 + k] == block[k])
        invariant forall k :: 1 + i <= k < WORDS ==> hb[k] == prev[k]
      {
        hb := hb[1 + i := block[i]];
        i := i + 1;
      }
      assert hb == HeadBlock(prev, Trans());
      bc.Bwrite(L.start, hb);
    }

    /** write_log */
    method WriteLog()
      requires Shape() && TransOk(L, Trans())
      modifies bc
      ensures |bc.mem| == |bc.disk| == L.size
      ensures var c := old(Contents()); var ws := SlotWrites(L, c);
        && bc.writes == old(bc.writes) + ws
        && InRange(ws, L.size)
        && bc.disk == Apply(old(bc.disk), ws)
        && bc.mem == Apply(old(bc.mem), ws)
    {
      hide Apply, SlotWrites;
      ghost var c := Contents();
      ghost var ws := SlotWrites(L, c);
      ApplyNone(bc.mem, bc.disk);
      var tail := 0;
      assert ws[..0] == [];
      while tail < n
        invariant 0 <= tail <= n
        invariant |bc.mem| == |bc.disk| == L.size
        invariant bc.writes == old(bc.writes) + ws[..tail]
        invariant InRange(ws, L.size)
        invariant bc.disk == Apply(old(bc.disk), ws[..tail])
        invariant bc.mem == Apply(old(bc.mem), ws[..tail])
        invariant forall b :: L.Home(b) ==> bc.mem[b] == old(bc.mem[b])
      {
        var from := bc.Bread(block[tail]);
        assert from == c[tail];
        bc.Bwrite(L.start + tail + 1, from);
        assert ws[..tail + 1] == ws[..tail] + [ws[tail]];
        ApplySnoc(old(bc.disk), ws, tail);
        ApplySnoc(old(bc.mem), ws, tail);
        tail := tail + 1;
      }
      assert ws[..n] == ws;
    }

    /** The cached contents reach the disk; the transaction is empty again. */
    ghost predicate Flushed()
      reads this, bc
    {
      && |bc.mem| == |bc.disk| == L.size && L.Valid()
      && n == 0 && bc.mem == bc.disk && HeadOk(L, bc.disk) && Head(L, bc.disk) == []
    }

    /** The first half of commit, up to the header write that decides it. */
    method WriteTrans()
      requires Valid()
      modifies bc
      ensures |bc.mem| == |bc.disk| == L.size
      ensures bc.writes == old(bc.writes) + SlotWrites(L, old(Contents()))
        + [Write(L.start, HeadBlock(old(bc.disk[L.start]), Trans()))]
      ensures bc.disk == HeadWritten(L, old(bc.disk), Trans(), old(Contents()))
      ensures bc.mem == HeadWritten(L, old(bc.mem), Trans(), old(Contents()))
    {
      ghost var d, m, lh, c := bc.disk, bc.mem, Trans(), Contents();
      WriteLog();
      LogRegionAfterWriteLog(L, d, m, lh, c);
      WriteHead();
    }

    /** commit: exactly the writes CommitWrites, and the disk ends with every cached block at home. */
    method Commit()
      requires Valid()
      modifies this`n, bc
      ensures Valid() && Flushed()
      ensures SameHome(L, bc.disk, old(bc.mem))
      ensures bc.writes == old(bc.writes) +
        (if old(n) == 0 then [] else CommitWrites(L, old(bc.disk[L.start]), old(Trans()), old(Contents())))
    {
      ghost var d, m, lh, c := bc.disk, bc.mem, Trans(), Contents();
      if n > 0 {
        WriteTrans();
        ghost var m1 := bc.mem;
        LogRegionAfterWriteLog(L, d, m, lh, c);
        InstallTrans();
        OverlayAt(L, m1, lh, c);
        n := 0;
        WriteHead();
        CommitEnds(L, d, m, lh, c);
        Regroup(old(bc.writes), SlotWrites(L, c), [Write(L.start, HeadBlock(d[L.start], lh))],
                HomeWrites(lh, c), [Write(L.start, HeadBlock(HeadBlock(d[L.start], lh), []))]);
        assert bc.disk == CommitEnd(L, d, lh, c) && bc.mem == CommitEnd(L, m, lh, c);
      } else {
        assert bc.mem == bc.disk;
      }
    }

    /** recover_from_log after a crash: exactly the writes RecoverWrites. */
    method RecoverFromLog()
      requires L.Valid() && block.Length == LOGSIZE && bc.mem == bc.disk && HeadOk(L, bc.disk)
      modifies this`n, bc, block
      ensures Valid() && Flushed()
      ensures bc.writes == old(bc.writes) + RecoverWrites(L, old(bc.disk))
      ensures bc.disk == Recovered(L, old(bc.disk))
    {
      ghost var d := bc.disk;
      ReadHead();
      ghost var lh, c := Head(L, d), Slots(L, d, n);
      InstallTrans();
      n := 0;
      OverlayAt(L, d, lh, c);
      assert Trans() == [];
      WriteHead();
      RecoverInParts(L, d);
      RecoveredAt(L, d);
    }

    /** begin_op: admitted, or the caller sleeps on the log. */
    method BeginOp() returns (admitted: bool)
      requires Valid() && Quiet()
      modifies this`outstanding
      ensures Valid() && Quiet()
      ensures admitted <==> !committing && n + (old(outstanding) + 1) * MAXOPBLOCKS <= LOGSIZE
      ensures outstanding == old(outstanding) + (if admitted then 1 else 0)
    {
      if committing {
        admitted := false;
      } else if n + (outstanding + 1) * MAXOPBLOCKS > LOGSIZE {
        admitted := false;
      } else {
        outstanding := outstanding + 1;
        admitted := true;
      }
    }

    /** While a commit runs no operation is open, so begin_op sleeps and log_write is refused. */
    ghost predicate Quiet()
      reads this
    {
      committing ==> outstanding == 0
    }

    /** end_op, up to its first release of log.lock. */
    method LeaveOp() returns (out: Outcome, doCommit: bool)
      requires Quiet() && outstanding >= 1
      modifies this`outstanding, this`committing
      ensures Quiet() && out == Done && outstanding == old(outstanding) - 1
      ensures doCommit == committing == (outstanding == 0)
    {
      doCommit := false;
      outstanding := outstanding - 1;
      if committing {
        return Panic, false;
      }
      if outstanding == 0 {
        doCommit := true;
        committing := true;
      }
      out := Done;
    }

    /** end_op, after commit. */
    method EndCommit()
      requires committing && Quiet()
      modifies this`committing
      ensures Quiet() && !committing
    {
      committing := false;
    }

    /** end_op: the last operation of a group commits it; no other touches the disk.  Its panic is out of reach. */
    method EndOp() returns (out: Outcome)
      requires Valid() && Quiet() && outstanding >= 1
      modifies this, bc
      ensures Valid() && Quiet() && out == Done && outstanding == old(outstanding) - 1 && !committing
      ensures outstanding == 0 ==> Flushed() && SameHome(L, bc.disk, old(bc.mem))
      ensures outstanding > 0 ==> n == old(n) && bc.mem == old(bc.mem) && bc.disk == old(bc.disk)
    {
      var doCommit;
      out, doCommit := LeaveOp();
      if doCommit {
        Commit();
        EndCommit();
      }
    }

    /** log_write of a buffer the caller has just filled with data: pins it, leaves the disk alone,
        and records a block number once however often the block is written. */
    method LogWrite(b: int, data: Block) returns (out: Outcome)
      requires Valid() && L.Home(b)
      modifies this`n, bc`mem, block
      ensures Valid()
      ensures out == Panic <==> old(n) >= L.Capacity() || outstanding < 1
      ensures Quiet() && committing ==> out == Panic
      ensures out == Panic ==> n == old(n) && block[..] == old(block[..]) && bc.mem == old(bc.mem)
      ensures out == Done ==> bc.mem == old(bc.mem)[b := data]
      ensures out == Done ==> Trans() == old(Trans()) + (if b in old(Trans()) then [] else [b])
    {
      if n >= LOGSIZE || n >= L.nlog - 1 {
        return Panic;
      }
      if outstanding < 1 {
        return Panic;
      }
      ghost var lh := Trans();
      bc.mem := bc.mem[b := data];
      var i := 0;
      while i < n && block[i] != b
        invariant 0 <= i <= n
        invariant forall k :: 0 <= k < i ==> block[k] != b
      {
        i := i + 1;
      }
      block[i] := b;
      if i == n {
        n := n + 1;
        assert Trans() == lh + [b];
      } else {
        assert b == lh[i];
        assert Trans() == lh;
      }
      out := Done;
    }

    /** initlog over a disk that survived a crash. */
    constructor (L: Layout, bc: Buffers)
      requires L.Valid() && bc.mem == bc.disk && HeadOk(L, bc.disk)
      modifies bc
      ensures this.L == L && this.bc == bc && fresh(block)
      ensures Valid() && Quiet() && Flushed() && outstanding == 0 && !committing
      ensures bc.disk == Recovered(L, old(bc.disk))
    {
      this.L, this.bc := L, bc;
      this.block := new int[LOGSIZE];
      n, outstanding, committing := 0, 0, false;
      new;
      RecoverFromLog();
    }
  }

  lemma ApplyNone(d: Disk, m: Disk)
    ensures Apply(d, []) == d && Apply(m, []) == m
  {
  }

  // ----- Facts about the disk halfway through a commit

  /** The disk once the header write has committed the transaction. */
  ghost function HeadWritten(L: Layout, d: Disk, lh: seq<int>, c: seq<Block>): (e: Disk)
    requires L.Valid() && |d| == L.size && TransOk(L, lh) && |lh| == |c|
    ensures |e| == |d|
  {
    assert InRange(SlotWrites(L, c), |d|);
    Apply(d, SlotWrites(L, c))[L.start := HeadBlock(d[L.start], lh)]
  }

  lemma LogRegionAfterWriteLog(L: Layout, d: Disk, m: Disk, lh: seq<int>, c: seq<Block>)
    requires L.Valid() && |m| == |d| == L.size && TransOk(L, lh) && |lh| == |c|
    requires m[L.start] == d[L.start]
    ensures Apply(d, SlotWrites(L, c))[L.start] == d[L.start]
    ensures Apply(m, SlotWrites(L, c))[L.start] == d[L.start]
    ensures Slots(L, HeadWritten(L, m, lh, c), |c|) == c
  {
    assert |c| <= L.Capacity();
    hide Apply, SlotWrites, HeadBlock, TransOk, Slots;
    var ws := SlotWrites(L, c);
    assert ws[..|c|] == ws;
    SlotWritesApply(L, d, c, |c|);
    SlotWritesApply(L, m, c, |c|);
    SlotsAre(L, HeadWritten(L, m, lh, c), c);
  }

  /** The disk after install_trans and the write of the empty header. */
  ghost function CommitEnd(L: Layout, d: Disk, lh: seq<int>, c: seq<Block>): (e: Disk)
    requires L.Valid() && |d| == L.size && TransOk(L, lh) && |lh| == |c|
    ensures |e| == |d|
  {
    Overlay(L, HeadWritten(L, d, lh, c), lh, c)[L.start := HeadBlock(HeadBlock(d[L.start], lh), [])]
  }

  /** The four functions commit calls leave the disk as its writes do. */
  lemma CommitInParts(L: Layout, d: Disk, lh: seq<int>, c: seq<Block>)
    requires HeadOk(L, d) && Head(L, d) == [] && TransOk(L, lh) && |lh| == |c|
    ensures CommitCut(L, d, lh, c, 2 * |c| + 2) == CommitEnd(L, d, lh, c)
  {
    var s, h := SlotWrites(L, c), HomeWrites(lh, c);
    var hw := [Write(L.start, HeadBlock(d[L.start], lh))];
    var cw := [Write(L.start, HeadBlock(HeadBlock(d[L.start], lh), []))];
    var ws := CommitWrites(L, d[L.start], lh, c);
    assert ws[..2 * |c| + 2] == ws;
    assert ws == s + hw + h + cw;
    ApplyConcat(d, s + hw + h, cw);
    ApplyConcat(d, s + hw, h);
    ApplyConcat(d, s, hw);
    ApplyOne(Apply(d, s), hw[0]);
    ApplyOne(Apply(d, s + hw + h), cw[0]);
  }

  lemma RecoverInParts(L: Layout, d: Disk)
    requires HeadOk(L, d)
    ensures Recovered(L, d) ==
        Overlay(L, d, Head(L, d), Slots(L, d, |Head(L, d)|))[L.start := HeadBlock(d[L.start], [])]
  {
    hide Apply, HomeWrites, HeadBlock;
    var lh, c := Head(L, d), Slots(L, d, |Head(L, d)|);
    var clear := [Write(L.start, HeadBlock(d[L.start], []))];
    ApplyConcat(d, HomeWrites(lh, c), clear);
    ApplyOne(Overlay(L, d, lh, c), clear[0]);
  }

  lemma Regroup(w: seq<Write>, a: seq<Write>, b: seq<Write>, c: seq<Write>, e: seq<Write>)
    ensures w + a + b + c + e == w + (a + b + c + e)
  {
  }

  /** Cache and disk agree once all writes of a commit are done. */
  lemma CommitEnds(L: Layout, d: Disk, m: Disk, lh: seq<int>, c: seq<Block>)
    requires HeadOk(L, d) && Head(L, d) == [] && TransOk(L, lh) && |lh| == |c| && |m| == |d|
    requires forall b :: 0 <= b < |d| && b !in lh ==> m[b] == d[b]
    requires forall i :: 0 <= i < |c| ==> c[i] == m[lh[i]]
    ensures var e := CommitCut(L, d, lh, c, 2 * |c| + 2);
      && CommitEnd(L, d, lh, c) == e && CommitEnd(L, m, lh, c) == e
      && SameHome(L, e, m) && HeadOk(L, e) && Head(L, e) == []
  {
    var k := 2 * |c| + 2;
    CommitInParts(L, d, lh, c);
    CommitInParts(L, m, lh, c);
    var ws := CommitWrites(L, d[L.start], lh, c);
    CommitCutShape(L, d, lh, c, k);
    CommitCutShape(L, m, lh, c, k);
    OverlayAt(L, d, lh, c);
    OverlayAt(L, m, lh, c);
    var e, f := CommitCut(L, d, lh, c, k), CommitCut(L, m, lh, c, k);
    forall b | 0 <= b < |d| ensures e[b] == f[b] {
      if b !in lh {
        SameWriteSame(d, m, ws[..k], b);
      }
    }
  }

  lemma {:induction false} SameWriteSame(d: Disk, m: Disk, ws: seq<Write>, b: int)
    requires |d| == |m| && InRange(ws, |d|) && 0 <= b < |d| && d[b] == m[b]
    ensures Apply(d, ws)[b] == Apply(m, ws)[b]
  {
    if ws != [] {
      SameWriteSame(d, m, ws[..|ws| - 1], b);
    }
  }
}
