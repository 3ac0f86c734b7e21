/**
 kernel/virtio_disk.c and the device in every interleaving.  The driver works under vdisk_lock: it formats a chain,
 writes its ring entry and then the index, in three steps; the interrupt handler takes the used entries one by one.
 The device may take or complete a chain between any two of these steps.
 */
module VirtioRuns {
  import opened VirtioSpec

  /** Who holds vdisk_lock: nobody, a request being published (its ring entry written or not), the handler. */
  datatype Lock = Unlocked | Publishing(h: int, ring: bool) | Handling

  /** t is history. */
  datatype State = State(d: Driver, v: Device, busy: map<int, bool>, t: Track, lock: Lock)

  datatype Act =
    | Fill(h: int, c: Chain)   // alloc3_desc and the descriptors
    | WriteRing                // disk.avail->ring[...] = idx[0]
    | WriteIdx                 // disk.avail->idx += 1, and the lock is released
    | Take                     // the device takes a chain
    | Complete(h: int)         // the device completes a chain
    | StartIntr
    | See                      // one turn of virtio_disk_intr's loop
    | EndIntr
    | Finish(h: int)           // virtio_disk_rw wakes up, and frees the chain

  predicate Sized(s: State) {
    && |s.d.free| == |s.d.desc| == |s.d.ops| == |s.d.infoB| == |s.d.status| == |s.d.availRing| == NUM
    && |s.v.usedRing| == |s.t.own| == NUM
  }

  predicate ThreeFree(d: Driver, h: int, c: Chain) {
    && Index(h) && Index(c.d1) && Index(c.d2) && h != c.d1 && h != c.d2 && c.d1 != c.d2
    && |d.free| == NUM && d.free[h] && d.free[c.d1] && d.free[c.d2]
  }

  ghost predicate Enabled(s: State, a: Act) {
    && Sized(s)
    && match a
       case Fill(h, c) => s.lock.Unlocked? && ThreeFree(s.d, h, c) && forall g :: g in s.t.req ==> s.t.req[g].b != c.b
       case WriteRing => s.lock.Publishing? && !s.lock.ring
       case WriteIdx => s.lock.Publishing? && s.lock.ring
       case Take => s.v.lastAvail != s.d.availIdx
       case Complete(h) => h in s.t.working && Index(h)
       case StartIntr => s.lock.Unlocked?
       case See => s.lock.Handling? && s.d.seenIdx != s.v.usedIdx && Index(s.v.usedRing[Slot(s.d.seenIdx)])
       case EndIntr => s.lock.Handling? && s.d.seenIdx == s.v.usedIdx
       case Finish(h) =>
         && s.lock.Unlocked? && h in s.t.req && s.t.req[h].b in s.busy && !s.busy[s.t.req[h].b]
         && Index(h) && Index(s.t.req[h].d1) && Index(s.t.req[h].d2)
  }

  /** The descriptors of a chain, before the ring knows of it. */
  function Formatted(d: Driver, h: int, c: Chain): Driver
    requires |d.free| == |d.desc| == |d.ops| == |d.infoB| == |d.status| == NUM && Index(h) && Index(c.d1) && Index(c.d2)
  {
    d.(free := d.free[h := false][c.d1 := false][c.d2 := false], desc := Described(d.desc, h, c),
       ops := d.ops[h := c.op], infoB := d.infoB[h := c.b], status := d.status[h := 0xff])
  }

  function RingWritten(d: Driver, h: int): Driver
    requires |d.availRing| == NUM
  {
    d.(availRing := d.availRing[Slot(d.availIdx) := h])
  }

  function IdxWritten(d: Driver): Driver {
    d.(availIdx := Idx(d.availIdx + 1))
  }

  function Released(d: Driver, h: int, c: Chain): Driver
    requires |d.free| == |d.desc| == |d.infoB| == NUM && Index(h) && Index(c.d1) && Index(c.d2)
  {
    d.(free := d.free[h := true][c.d1 := true][c.d2 := true],
       desc := d.desc[h := NoDesc()][c.d1 := NoDesc()][c.d2 := NoDesc()], infoB := d.infoB[h := 0])
  }

  ghost function Apply(s: State, a: Act): State
    requires Enabled(s, a)
  {
    match a
    case Fill(h, c) =>
      State(Formatted(s.d, h, c), s.v, s.busy[c.b := true], Posts(s.t, h, c), Publishing(h, false))
    case WriteRing => s.(d := RingWritten(s.d, s.lock.h), lock := Publishing(s.lock.h, true))
    case WriteIdx => s.(d := IdxWritten(s.d), lock := Unlocked)
    case Take => s.(v := s.v.(lastAvail := Idx(s.v.lastAvail + 1)), t := Takes(s.t, s.d.availRing[Slot(s.v.lastAvail)]))
    case Complete(h) =>
      s.(d := s.d.(status := s.d.status[h := 0]),
         v := s.v.(usedRing := s.v.usedRing[Slot(s.v.usedIdx) := h], usedIdx := Idx(s.v.usedIdx + 1)),
         t := Completes(s.t, h))
    case StartIntr => s.(lock := Handling)
    case See =>
      var h := s.v.usedRing[Slot(s.d.seenIdx)];
      s.(d := s.d.(seenIdx := Idx(s.d.seenIdx + 1)), busy := s.busy[s.d.infoB[h] := false], t := Sees(s.t, h))
    case EndIntr => s.(lock := Unlocked)
    case Finish(h) => s.(d := Released(s.d, h, s.t.req[h]), t := Ends(s.t, h))
  }

  ghost predicate Init(s: State) {
    && s.d == Driver(seq(NUM, _ => true), seq(NUM, _ => NoDesc()), seq(NUM, _ => Op(false, 0)), seq(NUM, _ => 0),
                     seq(NUM, _ => 0), 0, seq(NUM, _ => 0), 0)
    && s.v == Device(0, 0, seq(NUM, _ => 0)) && s.busy == map[] && s.lock == Unlocked
    && s.t == Track(seq(NUM, _ => -1), map[], map[], Counts(0, 0, 0, 0), {}, {})
  }

  ghost predicate IsRun(ss: seq<State>, steps: seq<Act>) {
    && |ss| == |steps| + 1 && Init(ss[0])
    && forall k :: 0 <= k < |steps| ==> Enabled(ss[k], steps[k]) && ss[k + 1] == Apply(ss[k], steps[k])
  }

  // ----- The invariant

  /** The driver's side as it will be once the chain is published. */
  ghost function Published(s: State): Driver
    requires |s.d.availRing| == NUM
  {
    if s.lock.Publishing? then IdxWritten(RingWritten(s.d, s.lock.h)) else s.d
  }

  /** Between format and index, the chain is in flight but the device cannot see it. */
  ghost predicate RunInv(s: State) {
    && |s.d.availRing| == NUM && Inv(Published(s), s.v, s.busy, s.t)
    && (s.lock.Publishing? ==>
          && s.lock.h in s.t.stage && s.t.stage[s.lock.h] == Posted(s.t.n.avail - 1)
            && s.d.availIdx == Idx(s.t.n.avail - 1)
          && 0 <= s.t.n.taken < s.t.n.avail
          && (s.lock.ring ==> s.d.availRing[Slot(s.d.availIdx)] == s.lock.h))
  }

  lemma InitInv(s: State)
    requires Init(s)
    ensures RunInv(s)
  {
    AllFreeCount(s.d.free);
    hide Slot, Idx;
    assert Idx(0) == 0 by {
      IdxZero();
    }
  }

  lemma IdxZero()
    ensures Idx(0) == 0
  {
  }

  lemma FillInv(s: State, h: int, c: Chain)
    requires RunInv(s) && Enabled(s, Fill(h, c))
    ensures RunInv(Apply(s, Fill(h, c)))
  {
    hide Inv, Slot, Idx, Described;
    Conservation(s.d, s.v, s.busy, s.t);
    PostStep(s.d, s.v, s.busy, s.t, h, c);
    AvailIs(s.d, s.v, s.busy, s.t);
  }

  lemma AvailIs(d: Driver, v: Device, busy: map<int, bool>, t: Track)
    requires Inv(d, v, busy, t)
    ensures d.availIdx == Idx(t.n.avail) && v.lastAvail == Idx(t.n.taken)
  {
    hide Owned, Written, Rings, Buffers;
  }

  /** Writing the ring entry, and then the index, changes nothing of the published view. */
  lemma PublishInv(s: State, a: Act)
    requires RunInv(s) && Enabled(s, a) && (a.WriteRing? || a.WriteIdx?)
    ensures RunInv(Apply(s, a))
  {
    hide Inv, Slot, Idx;
    var t := Apply(s, a);
    assert s.lock.ring ==> RingWritten(s.d, s.lock.h) == s.d;
    assert a.WriteRing? ==> RingWritten(t.d, s.lock.h) == RingWritten(s.d, s.lock.h);
  }

  /** What the device finds in the avail ring: the oldest chain, and never the one being published. */
  lemma TakeInv(s: State)
    requires RunInv(s) && Enabled(s, Take)
    ensures RunInv(Apply(s, Take))
    ensures var h := s.d.availRing[Slot(s.v.lastAvail)];
      && h in s.t.req && h in s.t.stage && s.t.stage[h] == Posted(s.t.n.taken)
      && (s.lock.Publishing? ==> h != s.lock.h)
  {
    hide Inv, Slot, Idx;
    var p := Published(s);
    Conservation(p, s.v, s.busy, s.t);
    TakeStep(p, s.v, s.busy, s.t);
    AvailIs(p, s.v, s.busy, s.t);
    SlotOfIndex(s.t.n.taken);
    if s.lock.Publishing? {
      var last := s.t.n.avail - 1;
      IndexDiffers(s.t.n.taken, last);
      IndexDiffers(s.t.n.taken, s.t.n.avail);
      SlotOfIndex(last);
      DifferentSlots(s.t.n.taken, last);
    }
  }

  lemma CompleteInv(s: State, h: int)
    requires RunInv(s) && Enabled(s, Complete(h))
    ensures RunInv(Apply(s, Complete(h))) && h in s.t.req && ChainWritten(s.d.desc, s.d.ops, s.d.infoB, h, s.t.req[h])
  {
    hide Inv, Slot, Idx, ChainWritten;
    CompleteStep(Published(s), s.v, s.busy, s.t, h);
    WorkingStage(Published(s), s.v, s.busy, s.t, h);
  }

  lemma WorkingStage(d: Driver, v: Device, busy: map<int, bool>, t: Track, h: int)
    requires Inv(d, v, busy, t) && h in t.working
    ensures h in t.stage && t.stage[h] == Working
  {
    hide Owned, Written, Buffers, Slot;
  }

  lemma SeeInv(s: State)
    requires RunInv(s) && Enabled(s, See)
    ensures RunInv(Apply(s, See))
    ensures var h := s.v.usedRing[Slot(s.d.seenIdx)];
      && h in s.t.req && h in s.t.stage && s.t.stage[h] == Done(s.t.n.seen) && s.d.status[h] == 0
      && s.d.infoB[h] == s.t.req[h].b && s.t.req[h].b in s.busy && s.busy[s.t.req[h].b]
  {
    hide Inv, Slot, Idx;
    SeeStep(s.d, s.v, s.busy, s.t);
  }

  lemma FinishInv(s: State, h: int)
    requires RunInv(s) && Enabled(s, Finish(h))
    ensures RunInv(Apply(s, Finish(h)))
  {
    hide Inv, Slot, Idx;
    EndStep(s.d, s.v, s.busy, s.t, h, NoDesc());
  }

  lemma NextInv(s: State, a: Act)
    requires RunInv(s) && Enabled(s, a)
    ensures RunInv(Apply(s, a))
  {
    match a
    case Fill(h, c) => FillInv(s, h, c);
    case WriteRing => PublishInv(s, a);
    case WriteIdx => PublishInv(s, a);
    case Take => TakeInv(s);
    case Complete(h) => CompleteInv(s, h);
    case See => SeeInv(s);
    case Finish(h) => FinishInv(s, h);
    case StartIntr =>
    case EndIntr =>
  }

  lemma {:induction false} AlwaysInv(ss: seq<State>, steps: seq<Act>, k: int)
    requires IsRun(ss, steps) && 0 <= k < |ss|
    ensures RunInv(ss[k])
    decreases k
  {
    hide RunInv, Enabled, Apply, Init;
    if k == 0 {
      InitInv(ss[0]);
    } else {
      AlwaysInv(ss, steps, k - 1);
      NextInv(ss[k - 1], steps[k - 1]);
    }
  }

  // ----- Theorems over all runs

  /** Free descriptors plus three for each request are NUM, and no two requests share a descriptor or a buffer. */
  lemma ChainsApart(ss: seq<State>, steps: seq<Act>, k: int, h: int, g: int)
    requires IsRun(ss, steps) && 0 <= k < |ss| && h in ss[k].t.req && g in ss[k].t.req && h != g
    ensures var s := ss[k]; var c, e := s.t.req[h], s.t.req[g];
      {h, c.d1, c.d2} !! {g, e.d1, e.d2} && c.b != e.b && FreeCount(s.d.free) + 3 * |s.t.req| == NUM
  {
    hide RunInv, Init, Apply, Enabled;
    AlwaysInv(ss, steps, k);
    InvApart(ss[k], h, g);
  }

  lemma InvApart(s: State, h: int, g: int)
    requires RunInv(s) && h in s.t.req && g in s.t.req && h != g
    ensures var c, e := s.t.req[h], s.t.req[g];
      {h, c.d1, c.d2} !! {g, e.d1, e.d2} && c.b != e.b && FreeCount(s.d.free) + 3 * |s.t.req| == NUM
  {
    hide Inv, Slot, Idx, FreeCount;
    var p := Published(s);
    Conservation(p, s.v, s.busy, s.t);
    TwoOwn(p, s.v, s.busy, s.t, h, g);
    OwnsApart(s.t.own, h, s.t.req[h], g, s.t.req[g]);
  }

  lemma TwoOwn(d: Driver, v: Device, busy: map<int, bool>, t: Track, h: int, g: int)
    requires Inv(d, v, busy, t) && h in t.req && g in t.req && h != g
    ensures Owns(t.own, h, t.req[h]) && Owns(t.own, g, t.req[g]) && t.req[h].b != t.req[g].b
  {
    hide Written, Rings, FreeCount, Owns;
  }

  lemma OwnsApart(own: seq<int>, h: int, c: Chain, g: int, e: Chain)
    requires Owns(own, h, c) && Owns(own, g, e) && h != g
    ensures {h, c.d1, c.d2} !! {g, e.d1, e.d2}
  {
    assert own[h] == own[c.d1] == own[c.d2] == h && own[g] == own[e.d1] == own[e.d2] == g;
    assert forall x :: x in {h, c.d1, c.d2} ==> own[x] == h;
  }

  /** Whatever the device takes is a published request, the oldest one not yet taken. */
  lemma DeviceSeesRequests(ss: seq<State>, steps: seq<Act>, k: int)
    requires IsRun(ss, steps) && 0 <= k < |steps| && steps[k] == Take
    ensures var s := ss[k];
      && |s.d.availRing| == NUM
      && var h := s.d.availRing[Slot(s.v.lastAvail)];
      && h in s.t.req && h in s.t.stage && s.t.stage[h] == Posted(s.t.n.taken) && (s.lock.Publishing? ==> h != s.lock.h)
  {
    hide Init, RunInv, Apply;
    AlwaysInv(ss, steps, k);
    TakeInv(ss[k]);
  }

  /** The device finds the chain it completes as the driver wrote it. */
  lemma DeviceSeesChain(ss: seq<State>, steps: seq<Act>, k: int, h: int)
    requires IsRun(ss, steps) && 0 <= k < |steps| && steps[k] == Complete(h)
    ensures h in ss[k].t.req && ChainWritten(ss[k].d.desc, ss[k].d.ops, ss[k].d.infoB, h, ss[k].t.req[h])
  {
    hide Init, RunInv, Apply, ChainWritten;
    AlwaysInv(ss, steps, k);
    CompleteInv(ss[k], h);
  }

  /** The handler's panic is out of reach, and each completion clears the buffer of the request it is for. */
  lemma HandlerClearsOwn(ss: seq<State>, steps: seq<Act>, k: int)
    requires IsRun(ss, steps) && 0 <= k < |steps| && steps[k] == See
    ensures var s, t := ss[k], ss[k + 1];
      && |s.v.usedRing| == |s.d.status| == NUM
      && var h := s.v.usedRing[Slot(s.d.seenIdx)];
      && Index(h) && s.d.status[h] == 0 && h in s.t.req && h in s.t.stage && s.t.stage[h] == Done(s.t.n.seen)
      && t.busy == s.busy[s.t.req[h].b := false] && t.t == Sees(s.t, h)
  {
    hide Init, RunInv, Inv, Slot, Idx;
    AlwaysInv(ss, steps, k);
    SeeInv(ss[k]);
  }

  /** When the handler returns, it has acknowledged every request the device had completed. */
  lemma HandlerSeesAll(ss: seq<State>, steps: seq<Act>, k: int, h: int)
    requires IsRun(ss, steps) && 0 <= k < |steps| && steps[k] == EndIntr
    ensures ss[k].t.n.seen == ss[k].t.n.used && (h in ss[k].t.stage ==> !ss[k].t.stage[h].Done?)
  {
    hide Init, Inv, Apply, Slot, Idx;
    var s := ss[k];
    AlwaysInv(ss, steps, k);
    Conservation(s.d, s.v, s.busy, s.t);
    UsedIs(s.d, s.v, s.busy, s.t, h);
    IndexDiffers(s.t.n.seen, s.t.n.used);
  }

  lemma UsedIs(d: Driver, v: Device, busy: map<int, bool>, t: Track, h: int)
    requires Inv(d, v, busy, t)
    ensures d.seenIdx == Idx(t.n.seen) && v.usedIdx == Idx(t.n.used)
    ensures h in t.stage && t.stage[h].Done? ==> t.n.seen <= t.stage[h].m < t.n.used
    ensures h in t.stage && t.stage[h].Posted? ==> t.n.taken <= t.stage[h].n < t.n.avail
  {
    hide Owned, Written, Buffers, Slot, Idx;
    assert h in t.stage ==> StageOk(t.n, d.availRing, v.usedRing, h, t.stage[h]);
  }

  /** Not a new request, and no interrupt with nothing to see. */
  predicate Useful(s: State, a: Act) {
    !a.Fill? && (a.StartIntr? ==> s.d.seenIdx != s.v.usedIdx)
  }

  /** No run is stuck with a request in flight: the holder of the lock, the device, the handler or the request itself
      can go on. */
  lemma NeverStuck(ss: seq<State>, steps: seq<Act>, k: int, h: int)
    requires IsRun(ss, steps) && 0 <= k < |ss| && h in ss[k].t.req
    ensures exists a :: Enabled(ss[k], a) && Useful(ss[k], a)
  {
    hide Init, RunInv, Enabled, Apply;
    AlwaysInv(ss, steps, k);
    var a := GoesOn(ss[k], h);
  }

  lemma GoesOn(s: State, h: int) returns (a: Act)
    requires RunInv(s) && h in s.t.req
    ensures Enabled(s, a) && Useful(s, a)
  {
    hide Inv, Slot, Idx;
    var p := Published(s);
    Conservation(p, s.v, s.busy, s.t);
    if s.lock.Publishing? {
      a := if s.lock.ring then WriteIdx else WriteRing;
    } else if s.lock.Handling? {
      a := if s.d.seenIdx == s.v.usedIdx then EndIntr else See;
      if a.See? {
        SeesIndex(s);
      }
    } else {
      a := StageGoesOn(s, h);
    }
  }

  lemma SeesIndex(s: State)
    requires RunInv(s) && s.lock.Handling? && s.d.seenIdx != s.v.usedIdx && |s.v.usedRing| == NUM
    ensures Index(s.v.usedRing[Slot(s.d.seenIdx)])
  {
    hide Inv, Slot, Idx;
    UsedIs(s.d, s.v, s.busy, s.t, 0);
    SeeStep(s.d, s.v, s.busy, s.t);
    HeadIndex(s.d, s.v, s.busy, s.t, s.v.usedRing[Slot(s.d.seenIdx)]);
  }

  lemma HeadIndex(d: Driver, v: Device, busy: map<int, bool>, t: Track, h: int)
    requires Inv(d, v, busy, t) && h in t.req
    ensures Index(h) && Index(t.req[h].d1) && Index(t.req[h].d2)
  {
    hide Written, Rings, Buffers, FreeCount;
    assert Owns(t.own, h, t.req[h]);
  }

  /** With the lock free, the next step of a request. */
  lemma StageGoesOn(s: State, h: int) returns (a: Act)
    requires RunInv(s) && s.lock.Unlocked? && h in s.t.req && h in s.t.stage && Sized(s)
    ensures Enabled(s, a) && Useful(s, a)
  {
    hide Inv, Slot, Idx;
    UsedIs(s.d, s.v, s.busy, s.t, h);
    AvailIs(s.d, s.v, s.busy, s.t);
    HeadIndex(s.d, s.v, s.busy, s.t, h);
    Conservation(s.d, s.v, s.busy, s.t);
    match s.t.stage[h]
    case Posted(n) =>
      IndexDiffers(s.t.n.taken, s.t.n.avail);
      a := Take;
    case Working =>
      StageWorks(s.d, s.v, s.busy, s.t, h);
      a := Complete(h);
    case Done(m) =>
      IndexDiffers(s.t.n.seen, s.t.n.used);
      a := StartIntr;
    case Seen =>
      SeenIdle(s.d, s.v, s.busy, s.t, h);
      a := Finish(h);
  }

  lemma StageWorks(d: Driver, v: Device, busy: map<int, bool>, t: Track, h: int)
    requires Inv(d, v, busy, t) && h in t.stage && t.stage[h] == Working
    ensures h in t.working
  {
    hide Owned, Written, Buffers, Slot;
  }

  lemma SeenIdle(d: Driver, v: Device, busy: map<int, bool>, t: Track, h: int)
    requires Inv(d, v, busy, t) && h in t.req && h in t.stage && t.stage[h] == Seen
    ensures t.req[h].b in busy && !busy[t.req[h].b]
  {
    hide Owned, Written, Rings, Slot;
  }

  // ----- A run

  /** One request, of descriptors 0, 1 and 2. */
  function Only(): Chain {
    Chain(1, 2, 7, Op(true, 5))
  }

  /** It is in flight: the indices, who holds the lock, and whether its buffer is still owned by the disk. */
  ghost predicate InFlight(s: State, lock: Lock, avail: int, last: int, used: int, seen: int, busy: bool) {
    && Sized(s) && s.lock == lock && s.d.availIdx == avail && s.v.lastAvail == last && s.v.usedIdx == used
    && s.d.seenIdx == seen && s.t.req == map[0 := Only()] && s.d.infoB[0] == 7 && s.busy == map[7 := busy]
    && (avail == 1 ==> s.d.availRing[0] == 0) && (used == 1 ==> s.v.usedRing[0] == 0)
    && (used == 0 ==> s.t.working == if last == 0 then {} else {0})
  }

  lemma IndexValues()
    ensures Idx(0) == 0 && Idx(1) == 1 && Slot(0) == 0
  {
  }

  lemma PublishOnly(s: State) returns (t: State, u: State, v: State)
    requires Init(s)
    ensures Enabled(s, Fill(0, Only())) && t == Apply(s, Fill(0, Only()))
    ensures Enabled(t, WriteRing) && u == Apply(t, WriteRing) && Enabled(u, WriteIdx) && v == Apply(u, WriteIdx)
    ensures InFlight(v, Unlocked, 1, 0, 0, 0, true)
  {
    hide Idx, Slot, Described;
    IndexValues();
    t := Apply(s, Fill(0, Only()));
    u := Apply(t, WriteRing);
    v := Apply(u, WriteIdx);
  }

  lemma ServeOnly(s: State) returns (t: State, u: State, v: State)
    requires InFlight(s, Unlocked, 1, 0, 0, 0, true)
    ensures Enabled(s, Take) && t == Apply(s, Take)
    ensures Enabled(t, StartIntr) && u == Apply(t, StartIntr) && Enabled(u, Complete(0)) && v == Apply(u, Complete(0))
    ensures InFlight(v, Handling, 1, 1, 1, 0, true)
  {
    hide Idx, Slot;
    IndexValues();
    t := Apply(s, Take);
    assert InFlight(t, Unlocked, 1, 1, 0, 0, true);
    u := Apply(t, StartIntr);
    v := Apply(u, Complete(0));
  }

  lemma FinishOnly(s: State) returns (t: State, u: State, v: State)
    requires InFlight(s, Handling, 1, 1, 1, 0, true)
    ensures Enabled(s, See) && t == Apply(s, See)
    ensures Enabled(t, EndIntr) && u == Apply(t, EndIntr) && Enabled(u, Finish(0)) && v == Apply(u, Finish(0))
    ensures v.t.req == map[] && v.lock == Unlocked && v.busy == map[7 := false] && v.d.seenIdx == 1
  {
    hide Idx, Slot;
    IndexValues();
    t := Apply(s, See);
    assert InFlight(t, Handling, 1, 1, 1, 1, false);
    u := Apply(t, EndIntr);
    v := Apply(u, Finish(0));
  }

  /** Runs publish, serve and finish a request; here the device completes it while the handler holds the lock. */
  lemma SomeRun() returns (ss: seq<State>, steps: seq<Act>)
    ensures IsRun(ss, steps) && |steps| == 9 && Take in steps && See in steps && Finish(0) in steps
    ensures InFlight(ss[3], Unlocked, 1, 0, 0, 0, true) && ss[9].t.req == map[] && ss[9].busy == map[7 := false]
  {
    var s0 := State(Driver(seq(NUM, _ => true), seq(NUM, _ => NoDesc()), seq(NUM, _ => Op(false, 0)), seq(NUM, _ => 0),
                           seq(NUM, _ => 0), 0, seq(NUM, _ => 0), 0),
                    Device(0, 0, seq(NUM, _ => 0)), map[],
                    Track(seq(NUM, _ => -1), map[], map[], Counts(0, 0, 0, 0), {}, {}), Unlocked);
    assert Init(s0);
    ss, steps := RunFrom(s0);
  }

  lemma RunFrom(s0: State) returns (ss: seq<State>, steps: seq<Act>)
    requires Init(s0)
    ensures IsRun(ss, steps) && |steps| == 9 && Take in steps && See in steps && Finish(0) in steps
    ensures InFlight(ss[3], Unlocked, 1, 0, 0, 0, true) && ss[9].t.req == map[] && ss[9].busy == map[7 := false]
  {
    hide Init, Enabled, Apply, InFlight;
    var s1, s2, s3 := PublishOnly(s0);
    var s4, s5, s6 := ServeOnly(s3);
    var s7, s8, s9 := FinishOnly(s6);
    ss := [s0, s1, s2, s3, s4, s5, s6, s7, s8, s9];
    steps := [Fill(0, Only()), WriteRing, WriteIdx, Take, StartIntr, Complete(0), See, EndIntr, Finish(0)];
    assert steps[3] == Take && steps[6] == See && steps[8] == Finish(0);
  }
}
