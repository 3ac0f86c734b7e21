/**
 The virtqueue shared by kernel/virtio_disk.c and the disk (kernel/virtio.h), as values: descriptors,
 the two rings, and the requests in flight.
 */
module VirtioSpec {
  import opened Params

  const NUM := 8
  const U16 := 0x1_0000

  /** What a descriptor's address points to. */
  datatype Addr = Null | Req(op: int) | Buf(b: int) | Status(info: int)

  /** F_NEXT and F_WRITE as booleans. */
  datatype Desc = Desc(addr: Addr, len: int, hasNext: bool, devWrites: bool, next: int)

  function NoDesc(): Desc {
    Desc(Null, 0, false, false, 0)
  }

  datatype Op = Op(write: bool, sector: int)

  /** A request in flight, by its first descriptor: the two others, its buffer and what it asks for. */
  datatype Chain = Chain(d1: int, d2: int, b: int, op: Op)

  /** How far it has come: at position n of the avail ring, with the device, at position m of the used
      ring, or acknowledged by the interrupt handler. */
  datatype Stage = Posted(n: int) | Working | Done(m: int) | Seen

  /** Requests made available, taken by the device, completed and acknowledged so far. */
  datatype Counts = Counts(avail: int, taken: int, used: int, seen: int)

  predicate Index(d: int) {
    0 <= d < NUM
  }

  // ----- Descriptors

  function FreeCount(free: seq<bool>): (n: int) {
    if free == [] then 0 else FreeCount(free[..|free| - 1]) + if free[|free| - 1] then 1 else 0
  }

  lemma {:induction false} FreeCountSet(free: seq<bool>, i: int, v: bool)
    requires 0 <= i < |free|
    ensures FreeCount(free[i := v]) == FreeCount(free) - (if free[i] then 1 else 0) + if v then 1 else 0
    decreases |free|
  {
    var n := |free| - 1;
    if i == n {
      assert free[i := v][..n] == free[..n];
    } else {
      assert free[i := v][..n] == free[..n][i := v];
      FreeCountSet(free[..n], i, v);
    }
  }

  lemma {:induction false} FreeCountBound(free: seq<bool>)
    ensures 0 <= FreeCount(free) <= |free|
    ensures (forall d :: 0 <= d < |free| ==> !free[d]) ==> FreeCount(free) == 0
    decreases |free|
  {
    if free != [] {
      FreeCountBound(free[..|free| - 1]);
    }
  }

  lemma {:induction false} AllFreeCount(free: seq<bool>)
    requires forall k :: 0 <= k < |free| ==> free[k]
    ensures FreeCount(free) == |free|
    decreases |free|
  {
    if free != [] {
      AllFreeCount(free[..|free| - 1]);
    }
  }

  ghost predicate Owns(own: seq<int>, h: int, c: Chain) {
    && |own| == NUM && Index(h) && Index(c.d1) && Index(c.d2) && h != c.d1 && h != c.d2 && c.d1 != c.d2
    && own[h] == h && own[c.d1] == h && own[c.d2] == h
  }

  /** Descriptor d is free, or in the chain that owns it. */
  ghost predicate DescOk(isFree: bool, owner: int, req: map<int, Chain>, d: int) {
    && (isFree <==> owner == -1)
    && (owner != -1 ==> owner in req && (d == owner || d == req[owner].d1 || d == req[owner].d2))
  }

  /** Every descriptor is free or in exactly one chain; three are taken for each chain. */
  ghost predicate Owned(free: seq<bool>, own: seq<int>, req: map<int, Chain>) {
    && |own| == |free| == NUM && FreeCount(free) + 3 * |req| == NUM
    && (forall d :: 0 <= d < NUM ==> DescOk(free[d], own[d], req, d))
    && (forall h :: h in req ==> Owns(own, h, req[h]))
  }

  lemma AtMostTwo(free: seq<bool>, own: seq<int>, req: map<int, Chain>)
    requires Owned(free, own, req)
    ensures |req| <= 2
  {
    FreeCountBound(free);
  }

  /** Three descriptors change hands. */
  lemma ThreeCounted(free: seq<bool>, h: int, d1: int, d2: int, v: bool)
    requires 0 <= h < |free| && 0 <= d1 < |free| && 0 <= d2 < |free| && h != d1 && h != d2 && d1 != d2
    requires free[h] == free[d1] == free[d2] == !v
    ensures FreeCount(free[h := v][d1 := v][d2 := v]) == FreeCount(free) + if v then 3 else -3
  {
    FreeCountSet(free, h, v);
    FreeCountSet(free[h := v], d1, v);
    FreeCountSet(free[h := v][d1 := v], d2, v);
  }

  lemma NewOwns(own: seq<int>, req: map<int, Chain>, h: int, c: Chain, g: int)
    requires |own| == NUM && Index(h) && Index(c.d1) && Index(c.d2) && h != c.d1 && h != c.d2 && c.d1 != c.d2
    requires own[h] == own[c.d1] == own[c.d2] == -1 && g in req && Owns(own, g, req[g])
    ensures g != h && Owns(own[h := h][c.d1 := h][c.d2 := h], g, req[g])
  {
  }

  lemma NewDescs(free: seq<bool>, own: seq<int>, req: map<int, Chain>, h: int, c: Chain, d: int)
    requires |free| == |own| == NUM && Index(h) && Index(c.d1) && Index(c.d2) && Index(d) && h != c.d1 && h != c.d2
      && c.d1 != c.d2
    requires DescOk(free[d], own[d], req, d) && h !in req
    ensures DescOk(free[h := false][c.d1 := false][c.d2 := false][d], own[h := h][c.d1 := h][c.d2 := h][d],
                   req[h := c], d)
  {
  }

  lemma NewChain(free: seq<bool>, own: seq<int>, req: map<int, Chain>, h: int, c: Chain)
    requires Owned(free, own, req) && Index(h) && Index(c.d1) && Index(c.d2) && h != c.d1 && h != c.d2 && c.d1 != c.d2
    requires free[h] && free[c.d1] && free[c.d2]
    ensures h !in req
    ensures Owned(free[h := false][c.d1 := false][c.d2 := false], own[h := h][c.d1 := h][c.d2 := h], req[h := c])
  {
    hide FreeCount, Owns, DescOk;
    FreeUnowned(free, own, req, h);
    FreeUnowned(free, own, req, c.d1);
    FreeUnowned(free, own, req, c.d2);
    forall g | g in req ensures g != h && Owns(own[h := h][c.d1 := h][c.d2 := h], g, req[g]) {
      NewOwns(own, req, h, c, g);
    }
    var own', free' := own[h := h][c.d1 := h][c.d2 := h], free[h := false][c.d1 := false][c.d2 := false];
    forall d | 0 <= d < NUM ensures DescOk(free'[d], own'[d], req[h := c], d) {
      NewDescs(free, own, req, h, c, d);
    }
    FirstOwns(own, h, c);
    ThreeCounted(free, h, c.d1, c.d2, false);
    assert req[h := c].Keys == req.Keys + {h};
  }

  lemma FreeUnowned(free: seq<bool>, own: seq<int>, req: map<int, Chain>, d: int)
    requires Owned(free, own, req) && Index(d) && free[d]
    ensures own[d] == -1 && d !in req
  {
    assert DescOk(free[d], own[d], req, d);
    assert d in req ==> Owns(own, d, req[d]);
  }

  lemma FirstOwns(own: seq<int>, h: int, c: Chain)
    requires |own| == NUM && Index(h) && Index(c.d1) && Index(c.d2) && h != c.d1 && h != c.d2 && c.d1 != c.d2
    ensures Owns(own[h := h][c.d1 := h][c.d2 := h], h, c)
  {
  }

  lemma EndChain(free: seq<bool>, own: seq<int>, req: map<int, Chain>, h: int)
    requires Owned(free, own, req) && h in req
    ensures var c := req[h];
      && Owns(own, h, c) && !free[h] && !free[c.d1] && !free[c.d2]
      && Owned(free[h := true][c.d1 := true][c.d2 := true], own[h := -1][c.d1 := -1][c.d2 := -1], req - {h})
  {
    hide FreeCount, DescOk;
    var c := req[h];
    var own', req' := own[h := -1][c.d1 := -1][c.d2 := -1], req - {h};
    var free' := free[h := true][c.d1 := true][c.d2 := true];
    assert Owns(own, h, c);
    forall g | g in req' ensures Owns(own', g, req'[g]) {
      assert Owns(own, g, req[g]);
    }
    hide Owns;
    EndTaken(free, own, req, h);
    forall d | 0 <= d < NUM ensures DescOk(free'[d], own'[d], req', d) {
      EndDesc(free, own, req, h, d);
    }
    ThreeCounted(free, h, c.d1, c.d2, true);
    assert req.Keys == req'.Keys + {h};
  }

  lemma EndTaken(free: seq<bool>, own: seq<int>, req: map<int, Chain>, h: int)
    requires Owned(free, own, req) && h in req && Owns(own, h, req[h])
    ensures !free[h] && !free[req[h].d1] && !free[req[h].d2]
  {
    hide FreeCount;
    var c := req[h];
    assert DescOk(free[h], own[h], req, h) && DescOk(free[c.d1], own[c.d1], req, c.d1)
      && DescOk(free[c.d2], own[c.d2], req, c.d2);
  }

  lemma EndDesc(free: seq<bool>, own: seq<int>, req: map<int, Chain>, h: int, d: int)
    requires |free| == |own| == NUM && h in req && Owns(own, h, req[h]) && Index(d)
    requires DescOk(free[d], own[d], req, d)
    ensures DescOk(free[h := true][req[h].d1 := true][req[h].d2 := true][d],
                   own[h := -1][req[h].d1 := -1][req[h].d2 := -1][d], req - {h}, d)
  {
  }

  // ----- What the descriptors say

  ghost predicate ChainWritten(desc: seq<Desc>, ops: seq<Op>, infoB: seq<int>, h: int, c: Chain) {
    && |desc| == |ops| == |infoB| == NUM && Index(h) && Index(c.d1) && Index(c.d2)
    && desc[h] == Desc(Req(h), 16, true, false, c.d1)
    && desc[c.d1] == Desc(Buf(c.b), BSIZE, true, !c.op.write, c.d2)
    && desc[c.d2] == Desc(Status(h), 1, false, true, 0)
    && ops[h] == c.op && infoB[h] == c.b
  }

  ghost predicate Written(desc: seq<Desc>, ops: seq<Op>, infoB: seq<int>, req: map<int, Chain>) {
    && |desc| == |ops| == |infoB| == NUM
    && forall h :: h in req ==> ChainWritten(desc, ops, infoB, h, req[h])
  }

  function Described(desc: seq<Desc>, h: int, c: Chain): (r: seq<Desc>)
    requires |desc| == NUM && Index(h) && Index(c.d1) && Index(c.d2)
    ensures |r| == NUM
  {
    desc[h := Desc(Req(h), 16, true, false, c.d1)][c.d1 := Desc(Buf(c.b), BSIZE, true, !c.op.write, c.d2)]
      [c.d2 := Desc(Status(h), 1, false, true, 0)]
  }

  /** Writing the descriptors of a new chain leaves those of the others. */
  lemma NewWritten(free: seq<bool>, own: seq<int>, req: map<int, Chain>, desc: seq<Desc>, ops: seq<Op>,
                   infoB: seq<int>, h: int, c: Chain)
    requires Owned(free, own, req) && Written(desc, ops, infoB, req)
    requires Index(h) && Index(c.d1) && Index(c.d2) && h != c.d1 && h != c.d2 && c.d1 != c.d2
    requires free[h] && free[c.d1] && free[c.d2]
    ensures Written(Described(desc, h, c), ops[h := c.op], infoB[h := c.b], req[h := c])
  {
    hide FreeCount;
    forall g | g in req && g != h
      ensures ChainWritten(Described(desc, h, c), ops[h := c.op], infoB[h := c.b], g, req[g])
    {
      assert Owns(own, g, req[g]) && ChainWritten(desc, ops, infoB, g, req[g]);
    }
  }

  /** Descriptors of other chains are not touched when h's are cleared. */
  lemma EndWritten(free: seq<bool>, own: seq<int>, req: map<int, Chain>, desc: seq<Desc>, ops: seq<Op>,
                   infoB: seq<int>, h: int, e: Desc)
    requires Owned(free, own, req) && Written(desc, ops, infoB, req) && h in req
    ensures Owns(own, h, req[h])
    ensures Written(desc[h := e][req[h].d1 := e][req[h].d2 := e], ops, infoB[h := 0], req - {h})
  {
    hide FreeCount;
    assert Owns(own, h, req[h]);
    var c := req[h];
    forall g | g in req - {h} ensures ChainWritten(desc[h := e][c.d1 := e][c.d2 := e], ops, infoB[h := 0], g, req[g]) {
      assert Owns(own, g, req[g]) && ChainWritten(desc, ops, infoB, g, req[g]);
    }
  }

  // ----- The rings

  /** The ring position of the k-th entry. */
  function Slot(k: int): (r: int)
    ensures 0 <= r < NUM
  {
    k % NUM
  }

  ghost predicate StageOk(n: Counts, availRing: seq<int>, usedRing: seq<int>, h: int, s: Stage) {
    && |availRing| == |usedRing| == NUM
    && (s.Posted? ==> n.taken <= s.n < n.avail && availRing[Slot(s.n)] == h)
    && (s.Done? ==> n.seen <= s.m < n.used && usedRing[Slot(s.m)] == h)
  }

  /** Between two counters, each ring position holds the request that is there, and no request is in two
      stages; so no position is overwritten before it is read. */
  ghost predicate Rings(n: Counts, availRing: seq<int>, usedRing: seq<int>, stage: map<int, Stage>, working: set<int>,
                        seen: set<int>) {
    && |availRing| == |usedRing| == NUM && 0 <= n.taken <= n.avail && 0 <= n.seen <= n.used
    && (forall h :: h in stage ==> StageOk(n, availRing, usedRing, h, stage[h]))
    && (forall k :: n.taken <= k < n.avail ==> availRing[Slot(k)] in stage && stage[availRing[Slot(k)]] == Posted(k))
    && (forall k :: n.seen <= k < n.used ==> usedRing[Slot(k)] in stage && stage[usedRing[Slot(k)]] == Done(k))
    && (forall h :: h in working <==> h in stage && stage[h] == Working)
    && (forall h :: h in seen <==> h in stage && stage[h] == Seen)
    && |stage| == (n.avail - n.taken) + |working| + (n.used - n.seen) + |seen|
  }

  lemma DifferentSlots(a: int, b: int)
    requires a < b < a + NUM
    ensures Slot(a) != Slot(b)
  {
  }

  lemma PostingStage(n: Counts, ar: seq<int>, ur: seq<int>, h: int, g: int, st: Stage)
    requires |ar| == |ur| == NUM && StageOk(n, ar, ur, g, st) && n.avail - n.taken < NUM
    ensures StageOk(n.(avail := n.avail + 1), ar[Slot(n.avail) := h], ur, g, st)
  {
    hide Slot;
    if st.Posted? {
      DifferentSlots(st.n, n.avail);
    }
  }

  lemma Posting(n: Counts, ar: seq<int>, ur: seq<int>, stage: map<int, Stage>, working: set<int>, seen: set<int>,
                h: int)
    requires Rings(n, ar, ur, stage, working, seen) && |stage| < NUM && h !in stage
    ensures Rings(n.(avail := n.avail + 1), ar[Slot(n.avail) := h], ur, stage[h := Posted(n.avail)], working, seen)
  {
    hide Slot, StageOk;
    var stage' := stage[h := Posted(n.avail)];
    PostingEntries(n, ar, ur, stage, h);
    assert h !in working && h !in seen;
    assert stage'.Keys == stage.Keys + {h};
    forall k | n.seen <= k < n.used ensures ur[Slot(k)] in stage' && stage'[ur[Slot(k)]] == Done(k) {
      assert ur[Slot(k)] in stage;
    }
  }

  lemma PostingEntries(n: Counts, ar: seq<int>, ur: seq<int>, stage: map<int, Stage>, h: int)
    requires |ar| == |ur| == NUM && 0 <= n.taken <= n.avail < n.taken + NUM && h !in stage
    requires forall g :: g in stage ==> StageOk(n, ar, ur, g, stage[g])
    requires forall k :: n.taken <= k < n.avail ==> ar[Slot(k)] in stage && stage[ar[Slot(k)]] == Posted(k)
    ensures var n', ar', stage' := n.(avail := n.avail + 1), ar[Slot(n.avail) := h], stage[h := Posted(n.avail)];
      && (forall g :: g in stage' ==> StageOk(n', ar', ur, g, stage'[g]))
      && (forall k :: n.taken <= k < n'.avail ==> ar'[Slot(k)] in stage' && stage'[ar'[Slot(k)]] == Posted(k))
  {
    hide Slot;
    var n', ar', stage' := n.(avail := n.avail + 1), ar[Slot(n.avail) := h], stage[h := Posted(n.avail)];
    forall g | g in stage' ensures StageOk(n', ar', ur, g, stage'[g]) {
      if g != h {
        PostingStage(n, ar, ur, h, g, stage[g]);
      }
    }
    forall k | n.taken <= k < n'.avail ensures ar'[Slot(k)] in stage' && stage'[ar'[Slot(k)]] == Posted(k) {
      if k < n.avail {
        DifferentSlots(k, n.avail);
      }
    }
  }

  lemma Taking(n: Counts, ar: seq<int>, ur: seq<int>, stage: map<int, Stage>, working: set<int>, seen: set<int>)
    requires Rings(n, ar, ur, stage, working, seen) && n.taken < n.avail
    ensures var h := ar[Slot(n.taken)];
      && h in stage && stage[h] == Posted(n.taken)
      && Rings(n.(taken := n.taken + 1), ar, ur, stage[h := Working], working + {h}, seen)
  {
    hide Slot;
    var h := ar[Slot(n.taken)];
    assert h !in working;
    assert stage[h := Working].Keys == stage.Keys;
  }

  lemma Completing(n: Counts, ar: seq<int>, ur: seq<int>, stage: map<int, Stage>, working: set<int>, seen: set<int>,
                   h: int)
    requires Rings(n, ar, ur, stage, working, seen) && h in working && |stage| < NUM
    ensures Rings(n.(used := n.used + 1), ar, ur[Slot(n.used) := h], stage[h := Done(n.used)], working - {h}, seen)
  {
    hide Slot;
    assert stage[h := Done(n.used)].Keys == stage.Keys;
    var ur' := ur[Slot(n.used) := h];
    forall k | n.seen <= k < n.used ensures ur'[Slot(k)] == ur[Slot(k)] {
      DifferentSlots(k, n.used);
    }
    forall g | g in stage && g != h ensures StageOk(n.(used := n.used + 1), ar, ur', g, stage[g]) {
      assert StageOk(n, ar, ur, g, stage[g]);
    }
  }

  lemma Seeing(n: Counts, ar: seq<int>, ur: seq<int>, stage: map<int, Stage>, working: set<int>, seen: set<int>)
    requires Rings(n, ar, ur, stage, working, seen) && n.seen < n.used
    ensures var h := ur[Slot(n.seen)];
      && h in stage && stage[h] == Done(n.seen)
      && Rings(n.(seen := n.seen + 1), ar, ur, stage[h := Seen], working, seen + {h})
  {
    hide Slot;
    var h := ur[Slot(n.seen)];
    assert h !in seen;
    assert stage[h := Seen].Keys == stage.Keys;
  }

  lemma Ending(n: Counts, ar: seq<int>, ur: seq<int>, stage: map<int, Stage>, working: set<int>, seen: set<int>, h: int)
    requires Rings(n, ar, ur, stage, working, seen) && h in stage && stage[h] == Seen
    ensures Rings(n, ar, ur, stage - {h}, working, seen - {h})
  {
    hide Slot;
    assert stage.Keys == (stage - {h}).Keys + {h};
  }

  // ----- Buffers

  /** b->disk is 1 from the request until its completion is acknowledged; requests have different buffers. */
  ghost predicate Buffers(busy: map<int, bool>, status: seq<int>, req: map<int, Chain>, stage: map<int, Stage>) {
    && req.Keys == stage.Keys && |status| == NUM
    && (forall h :: h in req ==>
          && req[h].b in busy && (busy[req[h].b] <==> stage[h] != Seen)
          && (stage[h].Done? || stage[h].Seen? ==> Index(h) && status[h] == 0))
    && (forall h, g :: h in req && g in req && h != g ==> req[h].b != req[g].b)
  }

  // ----- 16-bit indices

  /** A counter as the 16-bit index field holds it. */
  function Idx(k: int): (r: int)
    ensures 0 <= r < U16
  {
    k % U16
  }

  lemma IndexDiffers(a: int, b: int)
    requires 0 <= a <= b && b - a < U16
    ensures Idx(a) == Idx(b) <==> a == b
  {
  }

  lemma SlotOfIndex(a: int)
    requires 0 <= a
    ensures Slot(Idx(a)) == Slot(a) && Idx(Idx(a) + 1) == Idx(a + 1)
  {
  }

  // ----- Buffers along the way

  lemma BufferPosted(busy: map<int, bool>, status: seq<int>, req: map<int, Chain>, stage: map<int, Stage>, h: int,
                     c: Chain, k: int)
    requires Buffers(busy, status, req, stage) && h !in req && Index(h) && forall g :: g in req ==> req[g].b != c.b
    ensures Buffers(busy[c.b := true], status[h := 0xff], req[h := c], stage[h := Posted(k)])
  {
  }

  lemma BufferTaken(busy: map<int, bool>, status: seq<int>, req: map<int, Chain>, stage: map<int, Stage>, h: int,
                    k: int)
    requires Buffers(busy, status, req, stage) && h in req && stage[h] == Posted(k)
    ensures Buffers(busy, status, req, stage[h := Working])
  {
  }

  lemma BufferDone(busy: map<int, bool>, status: seq<int>, req: map<int, Chain>, stage: map<int, Stage>, h: int, k: int)
    requires Buffers(busy, status, req, stage) && h in req && stage[h] == Working && Index(h)
    ensures Buffers(busy, status[h := 0], req, stage[h := Done(k)])
  {
  }

  lemma BufferSeen(busy: map<int, bool>, status: seq<int>, req: map<int, Chain>, stage: map<int, Stage>, h: int, k: int)
    requires Buffers(busy, status, req, stage) && h in req && stage[h] == Done(k)
    ensures Index(h) && status[h] == 0 && busy[req[h].b]
      && Buffers(busy[req[h].b := false], status, req, stage[h := Seen])
  {
  }

  lemma BufferEnds(busy: map<int, bool>, status: seq<int>, req: map<int, Chain>, stage: map<int, Stage>, h: int)
    requires Buffers(busy, status, req, stage) && h in req
    ensures Buffers(busy, status, req - {h}, stage - {h})
  {
  }

  // ----- The whole queue

  /** struct disk and the part of the avail ring that the driver writes. */
  datatype Driver = Driver(
    free: seq<bool>, desc: seq<Desc>, ops: seq<Op>, infoB: seq<int>, status: seq<int>,
    availIdx: int, availRing: seq<int>, seenIdx: int)

  /** The used ring, and the device's own index into the avail ring. */
  datatype Device = Device(lastAvail: int, usedIdx: int, usedRing: seq<int>)

  /** The requests in flight. */
  datatype Track = Track(own: seq<int>, req: map<int, Chain>, stage: map<int, Stage>, n: Counts,
                         working: set<int>, seen: set<int>)

  ghost predicate Inv(d: Driver, v: Device, busy: map<int, bool>, t: Track) {
    && Owned(d.free, t.own, t.req) && Written(d.desc, d.ops, d.infoB, t.req)
    && Rings(t.n, d.availRing, v.usedRing, t.stage, t.working, t.seen) && Buffers(busy, d.status, t.req, t.stage)
    && d.availIdx == Idx(t.n.avail) && v.lastAvail == Idx(t.n.taken) && v.usedIdx == Idx(t.n.used)
      && d.seenIdx == Idx(t.n.seen)
  }

  /** Free descriptors and three for each request make NUM; so at most two requests are in flight. */
  lemma Conservation(d: Driver, v: Device, busy: map<int, bool>, t: Track)
    requires Inv(d, v, busy, t)
    ensures FreeCount(d.free) + 3 * |t.req| == NUM && |t.stage| == |t.req| <= 2 && t.req.Keys == t.stage.Keys
    ensures 0 <= t.n.taken <= t.n.avail <= t.n.taken + 2 && 0 <= t.n.seen <= t.n.used <= t.n.seen + 2
    ensures |d.free| == |t.own| == |d.desc| == |d.ops| == |d.infoB| == |d.status| == |d.availRing| == |v.usedRing| ==
        NUM
  {
    AtMostTwo(d.free, t.own, t.req);
    assert |t.stage| == |t.stage.Keys| && |t.req| == |t.req.Keys|;
  }

  /** The driver after it has formatted and published a chain. */
  function Filled(d: Driver, h: int, c: Chain): (r: Driver)
    requires |d.desc| == |d.ops| == |d.infoB| == |d.status| == |d.availRing| == NUM && Index(h) && Index(c.d1)
      && Index(c.d2)
  {
    d.(desc := Described(d.desc, h, c), ops := d.ops[h := c.op], infoB := d.infoB[h := c.b],
       status := d.status[h := 0xff], availRing := d.availRing[Slot(d.availIdx) := h], availIdx := Idx(d.availIdx + 1))
  }

  ghost function Posts(t: Track, h: int, c: Chain): Track
    requires |t.own| == NUM && Index(h) && Index(c.d1) && Index(c.d2)
  {
    Track(t.own[h := h][c.d1 := h][c.d2 := h], t.req[h := c], t.stage[h := Posted(t.n.avail)],
          t.n.(avail := t.n.avail + 1), t.working, t.seen)
  }

  lemma PostStep(d: Driver, v: Device, busy: map<int, bool>, t: Track, h: int, c: Chain)
    requires Inv(d, v, busy, t) && Index(h) && Index(c.d1) && Index(c.d2) && h != c.d1 && h != c.d2 && c.d1 != c.d2
    requires |d.free| == NUM && d.free[h] && d.free[c.d1] && d.free[c.d2] && forall g :: g in t.req ==>
               t.req[g].b != c.b
    ensures |t.own| == |d.desc| == |d.ops| == |d.infoB| == |d.status| == |d.availRing| == NUM && h !in t.req
    ensures var d' := d.(free := d.free[h := false][c.d1 := false][c.d2 := false]);
      Inv(Filled(d', h, c), v, busy[c.b := true], Posts(t, h, c))
  {
    hide Owned, Written, Rings, Buffers, Slot, Idx, Described;
    Conservation(d, v, busy, t);
    NewChain(d.free, t.own, t.req, h, c);
    NewWritten(d.free, t.own, t.req, d.desc, d.ops, d.infoB, h, c);
    Posting(t.n, d.availRing, v.usedRing, t.stage, t.working, t.seen, h);
    BufferPosted(busy, d.status, t.req, t.stage, h, c, t.n.avail);
    SlotOfIndex(t.n.avail);
  }

  ghost function Takes(t: Track, h: int): Track {
    t.(stage := t.stage[h := Working], working := t.working + {h}, n := t.n.(taken := t.n.taken + 1))
  }

  lemma TakeStep(d: Driver, v: Device, busy: map<int, bool>, t: Track)
    requires Inv(d, v, busy, t)
    ensures |d.availRing| == NUM && (v.lastAvail == d.availIdx <==> t.n.taken == t.n.avail)
    ensures v.lastAvail != d.availIdx ==>
      var h := d.availRing[Slot(v.lastAvail)];
      && h in t.stage && t.stage[h] == Posted(t.n.taken)
      && Inv(d, v.(lastAvail := Idx(v.lastAvail + 1)), busy, Takes(t, h))
  {
    hide Owned, Written, Rings, Buffers, Slot, Idx;
    Conservation(d, v, busy, t);
    IndexDiffers(t.n.taken, t.n.avail);
    SlotOfIndex(t.n.taken);
    if t.n.taken < t.n.avail {
      Taking(t.n, d.availRing, v.usedRing, t.stage, t.working, t.seen);
      BufferTaken(busy, d.status, t.req, t.stage, d.availRing[Slot(t.n.taken)], t.n.taken);
    }
  }

  ghost function Completes(t: Track, h: int): Track {
    t.(stage := t.stage[h := Done(t.n.used)], working := t.working - {h}, n := t.n.(used := t.n.used + 1))
  }

  lemma CompleteStep(d: Driver, v: Device, busy: map<int, bool>, t: Track, h: int)
    requires Inv(d, v, busy, t) && h in t.working
    ensures h in t.req && ChainWritten(d.desc, d.ops, d.infoB, h, t.req[h]) && |d.status| == |v.usedRing| == NUM
    ensures Inv(d.(status := d.status[h := 0]),
                v.(usedRing := v.usedRing[Slot(v.usedIdx) := h], usedIdx := Idx(v.usedIdx + 1)), busy, Completes(t, h))
  {
    hide Owned, Written, Rings, Buffers, Slot, Idx, ChainWritten;
    WorkingIs(t.n, d.availRing, v.usedRing, t.stage, t.working, t.seen, h);
    Conservation(d, v, busy, t);
    ChainIs(d.desc, d.ops, d.infoB, t.req, h);
    Completing(t.n, d.availRing, v.usedRing, t.stage, t.working, t.seen, h);
    BufferDone(busy, d.status, t.req, t.stage, h, t.n.used);
    SlotOfIndex(t.n.used);
  }

  lemma ChainIs(desc: seq<Desc>, ops: seq<Op>, infoB: seq<int>, req: map<int, Chain>, h: int)
    requires Written(desc, ops, infoB, req) && h in req
    ensures ChainWritten(desc, ops, infoB, h, req[h]) && Index(h)
  {
  }

  lemma WorkingIs(n: Counts, ar: seq<int>, ur: seq<int>, stage: map<int, Stage>, working: set<int>, seen: set<int>,
                  h: int)
    requires Rings(n, ar, ur, stage, working, seen) && h in working
    ensures h in stage && stage[h] == Working
  {
  }

  ghost function Sees(t: Track, h: int): Track {
    t.(stage := t.stage[h := Seen], seen := t.seen + {h}, n := t.n.(seen := t.n.seen + 1))
  }

  /** The interrupt handler finds the next completed request, its status 0 and its own buffer. */
  lemma SeeStep(d: Driver, v: Device, busy: map<int, bool>, t: Track)
    requires Inv(d, v, busy, t)
    ensures |v.usedRing| == |d.status| == |d.infoB| == NUM && (d.seenIdx == v.usedIdx <==> t.n.seen == t.n.used)
    ensures d.seenIdx != v.usedIdx ==>
      var h := v.usedRing[Slot(d.seenIdx)];
      && Index(h) && h in t.req && h in t.stage && t.stage[h] == Done(t.n.seen)
      && (forall g :: g in t.stage && t.stage[g] == Done(t.n.seen) ==> g == h)
      && d.status[h] == 0 && d.infoB[h] == t.req[h].b && t.req[h].b in busy && busy[t.req[h].b]
      && Inv(d.(seenIdx := Idx(d.seenIdx + 1)), v, busy[t.req[h].b := false], Sees(t, h))
  {
    hide Owned, Rings, Buffers, Slot, Idx, Written;
    Conservation(d, v, busy, t);
    IndexDiffers(t.n.seen, t.n.used);
    SlotOfIndex(t.n.seen);
    if t.n.seen < t.n.used {
      var h := v.usedRing[Slot(t.n.seen)];
      DoneOnce(t.n, d.availRing, v.usedRing, t.stage, t.working, t.seen);
      Seeing(t.n, d.availRing, v.usedRing, t.stage, t.working, t.seen);
      BufferSeen(busy, d.status, t.req, t.stage, h, t.n.seen);
      ChainIs(d.desc, d.ops, d.infoB, t.req, h);
      InBusy(busy, d.status, t.req, t.stage, h);
    }
  }

  lemma DoneOnce(n: Counts, ar: seq<int>, ur: seq<int>, stage: map<int, Stage>, working: set<int>, seen: set<int>)
    requires Rings(n, ar, ur, stage, working, seen)
    ensures forall g :: g in stage && stage[g] == Done(n.seen) ==> g == ur[Slot(n.seen)]
  {
    assert forall g :: g in stage ==> StageOk(n, ar, ur, g, stage[g]);
  }

  lemma InBusy(busy: map<int, bool>, status: seq<int>, req: map<int, Chain>, stage: map<int, Stage>, h: int)
    requires Buffers(busy, status, req, stage) && h in req
    ensures req[h].b in busy && h in stage && (busy[req[h].b] <==> stage[h] != Seen)
  {
  }

  ghost function Ends(t: Track, h: int): Track
    requires |t.own| == NUM && h in t.req && Index(h) && Index(t.req[h].d1) && Index(t.req[h].d2)
  {
    t.(own := t.own[h := -1][t.req[h].d1 := -1][t.req[h].d2 := -1], req := t.req - {h},
       stage := t.stage - {h}, seen := t.seen - {h})
  }

  /** Freeing the chain of an acknowledged request. */
  lemma EndStep(d: Driver, v: Device, busy: map<int, bool>, t: Track, h: int, e: Desc)
    requires Inv(d, v, busy, t) && h in t.req && t.req[h].b in busy && !busy[t.req[h].b]
    ensures var c := t.req[h];
      && Owns(t.own, h, c) && ChainWritten(d.desc, d.ops, d.infoB, h, c) && |d.free| == NUM && !d.free[h]
        && !d.free[c.d1] && !d.free[c.d2]
      && Inv(d.(free := d.free[h := true][c.d1 := true][c.d2 := true],
                desc := d.desc[h := e][c.d1 := e][c.d2 := e], infoB := d.infoB[h := 0]),
             v, busy, Ends(t, h))
  {
    hide Owned, Written, Rings, Buffers, Slot, Idx;
    ChainIs(d.desc, d.ops, d.infoB, t.req, h);
    Conservation(d, v, busy, t);
    InBusy(busy, d.status, t.req, t.stage, h);
    EndChain(d.free, t.own, t.req, h);
    EndWritten(d.free, t.own, t.req, d.desc, d.ops, d.infoB, h, e);
    Ending(t.n, d.availRing, v.usedRing, t.stage, t.working, t.seen, h);
    BufferEnds(busy, d.status, t.req, t.stage, h);
  }
}
