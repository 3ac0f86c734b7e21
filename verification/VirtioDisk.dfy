/**
 kernel/virtio_disk.c with the disk behind it: each method is what happens under vdisk_lock, or one
 step of the device.
 */
module VirtioDisk {
  import opened Params
  import opened VirtioSpec

  type Data = seq<int>

  /** The three descriptors of a block request as section 5.2.6 of VIRTIO 1.1 has them: a header the device reads, the
      buffer it reads or writes, and the status byte it writes. */
  predicate AsRequested(first: Desc, second: Desc, third: Desc, op: Op) {
    && first.len == 16 && !first.devWrites && first.hasNext
    && second.len == BSIZE && second.devWrites == !op.write && second.hasNext
    && third.len == 1 && third.devWrites && !third.hasNext
  }

  class Disk {
    var d: Driver
    var v: Device
    var busy: map<int, bool>       // b->disk
    var data: map<int, Data>       // b->data
    var media: map<int, Data>      // the disk's sectors, a block at a time
    ghost var t: Track

    ghost predicate Ok()
      reads this
    {
      Inv(d, v, busy, t) && forall h :: h in t.req ==> t.req[h].b in data
    }

    /** After virtio_disk_init: all descriptors free, nothing in flight. */
    constructor (data: map<int, Data>, media: map<int, Data>)
      ensures Ok() && t.req == map[] && this.data == data && this.media == media
    {
      d := Driver(seq(NUM, _ => true), seq(NUM, _ => NoDesc()), seq(NUM, _ => Op(false, 0)), seq(NUM, _ => 0),
                  seq(NUM, _ => 0), 0, seq(NUM, _ => 0), 0);
      v := Device(0, 0, seq(NUM, _ => 0));
      busy, this.data, this.media := map[], data, media;
      t := Track(seq(NUM, _ => -1), map[], map[], Counts(0, 0, 0, 0), {}, {});
      new;
      AllFreeCount(d.free);
    }

    /** alloc_desc: the first free descriptor, or -1. */
    method AllocDesc() returns (i: int)
      requires |d.free| == NUM
      modifies this`d
      ensures i == -1 ==> d == old(d) && FreeCount(d.free) == 0
      ensures i != -1 ==> Index(i) && old(d.free)[i] && (forall k :: 0 <= k < i ==> !old(d.free)[k])
      ensures i != -1 ==>
                d == old(d).(free := old(d.free)[i := false]) && FreeCount(d.free) == FreeCount(old(d.free)) - 1
    {
      for k := 0 to NUM
        invariant d == old(d) && forall j :: 0 <= j < k ==> !d.free[j]
      {
        if d.free[k] {
          FreeCountSet(d.free, k, false);
          d := d.(free := d.free[k := false]);
          return k;
        }
      }
      FreeCountBound(d.free);
      i := -1;
    }

    /** free_desc: false is a panic. */
    method FreeDesc(i: int) returns (ok: bool)
      requires |d.free| == |d.desc| == NUM && 0 <= i
      modifies this`d
      ensures ok <==> i < NUM && !old(d.free)[i]
      ensures ok ==> d == old(d).(free := old(d.free)[i := true], desc := old(d.desc)[i := NoDesc()])
      ensures !ok ==> d == old(d)
    {
      if i >= NUM {
        return false;
      }
      if d.free[i] {
        return false;
      }
      d := d.(desc := d.desc[i := NoDesc()]);
      d := d.(free := d.free[i := true]);
      ok := true;
    }

    /** alloc3_desc: on failure everything allocated is given back. */
    method Alloc3() returns (ok: bool, d0: int, d1: int, d2: int)
      requires |d.free| == |d.desc| == NUM
      modifies this`d
      ensures ok <==> FreeCount(old(d.free)) >= 3
      ensures ok ==> Index(d0) && Index(d1) && Index(d2) && d0 != d1 && d0 != d2 && d1 != d2
      ensures ok ==> old(d.free)[d0] && old(d.free)[d1] && old(d.free)[d2]
      ensures ok ==> d == old(d).(free := old(d.free)[d0 := false][d1 := false][d2 := false])
      ensures !ok ==> |d.desc| == NUM && d == old(d).(desc := d.desc)
      ensures !ok ==> forall k :: 0 <= k < NUM && !d.free[k] ==> d.desc[k] == old(d.desc)[k]
    {
      hide FreeCount;
      FreeCountBound(d.free);
      ok, d0, d1, d2 := false, -1, -1, -1;
      d0 := AllocDesc();
      if d0 < 0 {
        return;
      }
      FreeCountBound(d.free);
      d1 := AllocDesc();
      if d1 < 0 {
        var fine := FreeDesc(d0);
        assert d.free == old(d.free);
        return;
      }
      FreeCountBound(d.free);
      d2 := AllocDesc();
      if d2 < 0 {
        var fine := FreeDesc(d0);
        fine := FreeDesc(d1);
        assert d.free == old(d.free);
        return;
      }
      FreeCountBound(d.free);
      ok := true;
    }

    /** virtio_disk_rw, from the allocation to the notify.  False: no descriptors, the caller sleeps. */
    method Request(b: int, op: Op) returns (ok: bool, h: int)
      requires Ok() && b in data && forall g :: g in t.req ==> t.req[g].b != b
      modifies this`d, this`busy, this`t
      ensures Ok() && (ok <==> |old(t.req)| < 2)
      ensures !ok ==> t == old(t) && busy == old(busy)
      ensures ok ==> h !in old(t.req) && h in t.req && t.req == old(t.req)[h := t.req[h]]
      ensures ok ==> t.req[h].b == b && t.req[h].op == op
      ensures ok ==> t.stage == old(t.stage)[h := Posted(old(t.n.avail))]
      ensures ok ==> t.n == old(t.n).(avail := old(t.n.avail) + 1)
      ensures ok ==> busy == old(busy)[b := true]
    {
      hide FreeCount, Inv, Filled;
      Conservation(d, v, busy, t);
      FreeCountBound(d.free);
      ghost var was := d;
      var d0, d1, d2;
      ok, d0, d1, d2 := Alloc3();
      if !ok {
        DescOnly(was, v, busy, t, d.desc);
        return false, -1;
      }
      h := d0;
      ghost var c := Chain(d1, d2, b, op);
      PostStep(was, v, busy, t, h, c);
      Fill(d0, d1, d2, b, op);
      t := Posts(t, h, c);
    }

    /** The part of virtio_disk_rw that formats the descriptors and makes the chain available. */
    method Fill(d0: int, d1: int, d2: int, b: int, op: Op)
      requires |d.desc| == |d.ops| == |d.infoB| == |d.status| == |d.availRing| == NUM && Index(d0) && Index(d1)
        && Index(d2)
      modifies this`d, this`busy
      ensures d == Filled(old(d), d0, Chain(d1, d2, b, op)) && busy == old(busy)[b := true]
    {
      d := d.(ops := d.ops[d0 := op]);
      d := d.(desc := d.desc[d0 := Desc(Req(d0), 16, true, false, d1)]);
      d := d.(desc := d.desc[d1 := Desc(Buf(b), BSIZE, true, !op.write, d2)]);
      d := d.(status := d.status[d0 := 0xff]);
      d := d.(desc := d.desc[d2 := Desc(Status(d0), 1, false, true, 0)]);
      busy := busy[b := true];
      d := d.(infoB := d.infoB[d0 := b]);
      d := d.(availRing := d.availRing[Slot(d.availIdx) := d0]);
      d := d.(availIdx := Idx(d.availIdx + 1));
    }

    /** The device takes the next chain from the avail ring, in order; false when there is none. */
    method DeviceTakes() returns (took: bool, h: int)
      requires Ok()
      modifies this`v, this`t
      ensures Ok() && (took <==> old(t.n.taken < t.n.avail))
      ensures !took ==> t == old(t)
      ensures took ==> h in old(t.stage) && old(t.stage)[h] == Posted(old(t.n.taken)) && t == Takes(old(t), h)
    {
      hide Inv, Slot, Idx;
      Conservation(d, v, busy, t);
      TakeStep(d, v, busy, t);
      if v.lastAvail == d.availIdx {
        return false, -1;
      }
      h := d.availRing[Slot(v.lastAvail)];
      v := v.(lastAvail := Idx(v.lastAvail + 1));
      t := Takes(t, h);
      took := true;
    }

    /** The device carries out a chain it has taken, by its descriptors alone, and puts it on the used ring.  It fails a
        request whose descriptors have the wrong lengths or let it write what it should read. */
    method DeviceCompletes(h: int)
      requires Ok() && h in t.working
      modifies this`d, this`v, this`data, this`media, this`t
      ensures Ok() && h in t.req && t == Completes(old(t), h)
      ensures var op, b := t.req[h].op, t.req[h].b;
        if op.write then data == old(data) && b in data && media == old(media)[op.sector := data[b]]
        else media == old(media) && data == old(data)[b := if op.sector in media then media[op.sector] else []]
    {
      hide Inv, Slot, Idx;
      CompleteStep(d, v, busy, t, h);
      var first := d.desc[h];
      var second := d.desc[first.next];
      var third := d.desc[second.next];
      var op, b := d.ops[first.addr.op], second.addr.b;
      var shaped := AsRequested(first, second, third, op);
      if shaped && op.write {
        media := media[op.sector := data[b]];
      } else if shaped {
        data := data[b := if op.sector in media then media[op.sector] else []];
      }
      d := d.(status := d.status[third.addr.info := if shaped then 0 else 1]);
      v := v.(usedRing := v.usedRing[Slot(v.usedIdx) := h]);
      v := v.(usedIdx := Idx(v.usedIdx + 1));
      t := Completes(t, h);
    }

    /** virtio_disk_intr.  False would be its panic, which is out of reach. */
    method Intr() returns (ok: bool)
      requires Ok()
      modifies this`d, this`busy, this`t
      ensures ok && Ok() && t.req == old(t.req) && t.n == old(t.n).(seen := old(t.n.used))
        && t.stage.Keys == old(t.stage).Keys
      ensures forall h :: h in t.stage && h in old(t.stage) ==>
                t.stage[h] == if old(t.stage)[h].Done? then Seen else old(t.stage)[h]
      ensures OthersBusy(old(t), old(busy), busy)
    {
      hide Inv, Slot, Idx;
      ok := true;
      DoneBound(d, v, busy, t);
      while d.seenIdx != v.usedIdx
        invariant ok && Ok() && Acks(old(t), t) && OthersBusy(old(t), old(busy), busy)
        decreases t.n.used - t.n.seen
      {
        SeeStep(d, v, busy, t);
        Conservation(d, v, busy, t);
        var id := v.usedRing[Slot(d.seenIdx)];
        ok := ok && d.status[id] == 0;
        var b := d.infoB[id];
        busy := busy[b := false];
        d := d.(seenIdx := Idx(d.seenIdx + 1));
        t := Sees(t, id);
      }
      SeeStep(d, v, busy, t);
      DoneBound(d, v, busy, t);
      Conservation(d, v, busy, t);
    }

    /** free_chain.  False would be a panic of free_desc, which is out of reach. */
    method FreeChain(h: int, ghost c: Chain) returns (ok: bool)
      requires |d.infoB| == NUM && Index(h) && ChainWritten(d.desc, d.ops, d.infoB[h := c.b], h, c)
      requires |d.free| == NUM && h != c.d1 && h != c.d2 && c.d1 != c.d2 && !d.free[h] && !d.free[c.d1] && !d.free[c.d2]
      modifies this`d
      ensures ok
      ensures d == old(d).(free := old(d.free)[h := true][c.d1 := true][c.d2 := true],
                           desc := old(d.desc)[h := NoDesc()][c.d1 := NoDesc()][c.d2 := NoDesc()])
    {
      var i := h;
      ghost var k := 0;
      ok := true;
      while true
        invariant ok && 0 <= k <= 2 && i == (if k == 0 then h else if k == 1 then c.d1 else c.d2)
        invariant d == old(d).(free := d.free, desc := d.desc)
        invariant d.free == Firsts(old(d.free), k, h, c.d1, true) && d.desc == Firsts(old(d.desc), k, h, c.d1, NoDesc())
        decreases 2 - k
      {
        var flag, next := d.desc[i].hasNext, d.desc[i].next;
        ok := FreeDesc(i);
        if !flag {
          break;
        }
        i := next;
        k := k + 1;
      }
    }

    /** virtio_disk_rw, once b->disk is 0 again. */
    method Finish(h: int) returns (ok: bool)
      requires Ok() && h in t.req && t.req[h].b in busy && !busy[t.req[h].b]
      modifies this`d, this`t
      ensures ok && Ok() && t.req == old(t.req) - {h} && t.stage == old(t.stage) - {h} && t.n == old(t.n)
      ensures FreeCount(d.free) == FreeCount(old(d.free)) + 3
    {
      hide FreeCount, Inv;
      ghost var c := t.req[h];
      Conservation(d, v, busy, t);
      EndStep(d, v, busy, t, h, NoDesc());
      assert t.req.Keys == (t.req - {h}).Keys + {h};
      d := d.(infoB := d.infoB[h := 0]);
      ok := FreeChain(h, c);
      t := Ends(t, h);
      Conservation(d, v, busy, t);
    }
  }

  ghost function Firsts<T>(s: seq<T>, k: int, h: int, d1: int, e: T): seq<T>
    requires 0 <= h < |s| && 0 <= d1 < |s|
  {
    if k == 0 then s else if k == 1 then s[h := e] else s[h := e][d1 := e]
  }

  /** Requests completed before t.n.seen are acknowledged; the others are as they were. */
  ghost predicate Acks(t0: Track, t: Track) {
    && t.req == t0.req && t.n == t0.n.(seen := t.n.seen) && t.stage.Keys == t0.stage.Keys && t0.n.seen <= t.n.seen
    && forall h :: h in t.stage && h in t0.stage ==>
         t.stage[h] == if t0.stage[h].Done? && t0.stage[h].m < t.n.seen then Seen else t0.stage[h]
  }

  /** Only buffers of completed requests change. */
  ghost predicate OthersBusy(t0: Track, busy0: map<int, bool>, busy: map<int, bool>) {
    && busy.Keys == busy0.Keys
    && forall b :: b in busy && b in busy0 && busy[b] != busy0[b] ==>
         !busy[b] && exists h :: h in t0.req && t0.req[h].b == b && h in t0.stage && t0.stage[h].Done?
  }

  lemma DoneBound(d: Driver, v: Device, busy: map<int, bool>, t: Track)
    requires Inv(d, v, busy, t)
    ensures forall h :: h in t.stage && t.stage[h].Done? ==> t.n.seen <= t.stage[h].m < t.n.used
  {
    hide Owned, Written, Buffers;
    assert forall h :: h in t.stage ==> StageOk(t.n, d.availRing, v.usedRing, h, t.stage[h]);
  }

  /** Free descriptors hold no request. */
  lemma DescOnly(d: Driver, v: Device, busy: map<int, bool>, t: Track, desc: seq<Desc>)
    requires Inv(d, v, busy, t) && |d.free| == |d.desc| == |desc| == NUM
    requires forall k :: 0 <= k < NUM && !d.free[k] ==> desc[k] == d.desc[k]
    ensures Inv(d.(desc := desc), v, busy, t)
  {
    hide FreeCount, Rings, Buffers;
    forall h | h in t.req ensures ChainWritten(desc, d.ops, d.infoB, h, t.req[h]) {
      assert Owns(t.own, h, t.req[h]) && ChainWritten(d.desc, d.ops, d.infoB, h, t.req[h]);
      assert DescOk(d.free[h], t.own[h], t.req, h)
        && DescOk(d.free[t.req[h].d1], t.own[t.req[h].d1], t.req, t.req[h].d1);
      assert DescOk(d.free[t.req[h].d2], t.own[t.req[h].d2], t.req, t.req[h].d2);
    }
  }
}
