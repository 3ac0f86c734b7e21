/**
 Room on the disk: how many blocks are free, and how many it takes to reach a stretch of a file through bmap.
 */
module FsRoom {
  import opened Params
  import opened FsSpec

  // ----- Free blocks

  ghost function FreeBlocks(g: Img): (s: set<int>)
    requires Shape(g)
  {
    set b | 0 <= b < g.sb.size && !Bit(g, b)
  }

  /** How many blocks the bitmap says are free. */
  ghost function Spare(g: Img): (n: int)
    requires Shape(g)
    ensures n >= 0
  {
    |FreeBlocks(g)|
  }

  lemma {:induction false} RangeSize(lo: int, hi: int, s: set<int>)
    requires lo <= hi && forall b :: b in s <==> lo <= b < hi
    ensures |s| == hi - lo
    decreases hi - lo
  {
    if lo < hi {
      RangeSize(lo, hi - 1, s - {hi - 1});
    } else {
      assert forall b :: b in s ==> b in {};
      assert s == {};
    }
  }

  /** Free are the data blocks that have no owner. */
  lemma SpareOwner(g: Img, owner: map<int, Slot>)
    requires Valid(g, owner)
    ensures Spare(g) == g.sb.size - g.sb.nmeta - |owner|
  {
    hide Addr, Bit, BBlock, InodeShape;
    RangeSize(g.sb.nmeta, g.sb.size, FreeBlocks(g) + owner.Keys);
    assert |owner| == |owner.Keys|;
  }

  lemma SpareNext(g: Img, h: Img, owner: map<int, Slot>, a: int, slot: Slot)
    requires Valid(g, owner) && Valid(h, owner[a := slot]) && h.sb == g.sb && a !in owner
    ensures Spare(h) == Spare(g) - 1
  {
    hide Valid, Spare;
    SpareOwner(g, owner);
    SpareOwner(h, owner[a := slot]);
    assert owner[a := slot].Keys == owner.Keys + {a};
    assert |owner[a := slot]| == |owner[a := slot].Keys| && |owner| == |owner.Keys|;
  }

  lemma SpareSame(g: Img, h: Img, owner: map<int, Slot>)
    requires Valid(g, owner) && Valid(h, owner) && h.sb == g.sb
    ensures Spare(h) == Spare(g)
  {
    hide Valid, Spare;
    SpareOwner(g, owner);
    SpareOwner(h, owner);
  }

  // ----- Blocks it takes

  /** What it takes to fill slot k of inode i. */
  ghost function New(g: Img, i: int, k: int): (n: int)
    requires Shape(g) && 0 <= i < |g.inodes| && 0 <= k < NSLOTS
    ensures 0 <= n <= 1
  {
    if Addr(g, i, k) == 0 then 1 else 0
  }

  /** What it takes to reach block bn of file i. */
  ghost function NewOnWay(g: Img, i: int, bn: int): int
    requires Shape(g) && 0 <= i < |g.inodes| && 0 <= bn < MAXFILE
  {
    New(g, i, SlotOf(bn)) + (if bn >= NDIRECT then New(g, i, NDIRECT) else 0)
  }

  /** What it takes to reach blocks lo..hi of file i: the holes among them, and the indirect block. */
  ghost function Need(g: Img, i: int, lo: int, hi: int): (n: int)
    requires Shape(g) && 0 <= i < |g.inodes| && 0 <= lo && hi <= MAXFILE
    ensures n >= 0
    decreases hi - lo
  {
    if hi <= lo then 0 else Need(g, i, lo, hi - 1) + NeedLast(g, i, lo, hi - 1)
  }

  /** Of those blocks, the ones that block c adds: the first one past the direct ones brings the indirect block. */
  ghost function NeedLast(g: Img, i: int, lo: int, c: int): (n: int)
    requires Shape(g) && 0 <= i < |g.inodes| && 0 <= lo <= c < MAXFILE
    ensures n >= 0
  {
    New(g, i, SlotOf(c)) + (if c >= NDIRECT && (c == lo || c == NDIRECT) then New(g, i, NDIRECT) else 0)
  }

  lemma NeedOne(g: Img, i: int, bn: int)
    requires Shape(g) && 0 <= i < |g.inodes| && 0 <= bn < MAXFILE
    ensures Need(g, i, bn, bn + 1) == NewOnWay(g, i, bn)
  {
    hide Shape, Addr;
    assert Need(g, i, bn, bn) == 0;
  }

  lemma {:induction false} NeedMonotone(g: Img, i: int, lo: int, mid: int, hi: int)
    requires Shape(g) && 0 <= i < |g.inodes| && 0 <= lo && mid <= hi <= MAXFILE
    ensures Need(g, i, lo, mid) <= Need(g, i, lo, hi)
    decreases hi - mid
  {
    if mid < hi {
      NeedMonotone(g, i, lo, mid, hi - 1);
    }
  }

  /** Nothing is needed where every block is allocated. */
  lemma {:induction false} NeedNone(g: Img, i: int, lo: int, hi: int)
    requires Shape(g) && 0 <= i < |g.inodes| && 0 <= lo && hi <= MAXFILE
    requires forall c :: lo <= c < hi ==> Addr(g, i, SlotOf(c)) != 0
    ensures Need(g, i, lo, hi) == 0
    decreases hi - lo
  {
    if lo < hi {
      NeedNone(g, i, lo, hi - 1);
      assert Addr(g, i, SlotOf(hi - 1)) != 0;
      EntryNeedsIndirect(g, i, hi - 1);
    }
  }

  /** Where nothing is needed, every block is allocated. */
  lemma {:induction false} NoneNeeded(g: Img, i: int, lo: int, hi: int, c: int)
    requires Shape(g) && 0 <= i < |g.inodes| && 0 <= lo <= c < hi <= MAXFILE && Need(g, i, lo, hi) == 0
    ensures Addr(g, i, SlotOf(c)) != 0
    decreases hi - lo
  {
    if c < hi - 1 {
      NoneNeeded(g, i, lo, hi - 1, c);
    }
  }

  lemma EntryNeedsIndirect(g: Img, i: int, bn: int)
    requires Shape(g) && 0 <= i < |g.inodes| && 0 <= bn < MAXFILE && Addr(g, i, SlotOf(bn)) != 0
    ensures bn >= NDIRECT ==> Addr(g, i, NDIRECT) != 0
  {
  }

  // ----- Reaching them

  /** Slot l names one of the blocks lo..hi of a file. */
  predicate Among(l: int, lo: int, hi: int) {
    (l < NDIRECT && lo <= l < hi) || (l > NDIRECT && lo <= l - 1 < hi)
  }

  predicate Crosses(lo: int, hi: int) {
    lo < hi && hi > NDIRECT
  }

  /** From g to h, blocks lo..hi of file i were reached: they are there, and none of its slots changed but theirs and
      the one of the indirect block, which is there if one of them is past the direct ones. */
  ghost predicate ReachedIn(g: Img, h: Img, i: int, lo: int, hi: int)
    requires Shape(g) && Shape(h)
  {
    && 0 <= i < |g.inodes| == |h.inodes| && 0 <= lo <= hi <= MAXFILE
    && (forall l :: 0 <= l < NSLOTS && l != NDIRECT && !Among(l, lo, hi) ==> Addr(h, i, l) == Addr(g, i, l))
    && (forall c :: lo <= c < hi ==> Addr(h, i, SlotOf(c)) != 0)
    && (if Crosses(lo, hi) then Addr(h, i, NDIRECT) != 0 else Addr(h, i, NDIRECT) == Addr(g, i, NDIRECT))
  }

  /** ... and no slot of another file changed. */
  ghost predicate Reached(g: Img, h: Img, i: int, lo: int, hi: int)
    requires Shape(g) && Shape(h)
  {
    && g.sb == h.sb && ReachedIn(g, h, i, lo, hi)
    && (forall j, l :: 0 <= j < |g.inodes| && 0 <= l < NSLOTS && j != i ==> Addr(h, j, l) == Addr(g, j, l))
  }

  /** ... and it took from the free blocks what was needed. */
  ghost predicate Filled(g: Img, h: Img, i: int, lo: int, hi: int)
    requires Shape(g) && Shape(h)
  {
    Reached(g, h, i, lo, hi) && Spare(h) == Spare(g) - Need(g, i, lo, hi)
  }

  lemma FilledBounds(g: Img, h: Img, i: int, lo: int, hi: int)
    requires Shape(g) && Shape(h) && Filled(g, h, i, lo, hi)
    ensures g.sb == h.sb && 0 <= i < |g.inodes| == |h.inodes| && 0 <= lo <= hi <= MAXFILE
    ensures Need(g, i, lo, hi) <= Spare(g) && Spare(h) == Spare(g) - Need(g, i, lo, hi)
  {
    hide Shape, Addr, Need, Spare;
  }

  lemma FilledNothing(g: Img, i: int, lo: int)
    requires Shape(g) && 0 <= i < |g.inodes| && 0 <= lo <= MAXFILE
    ensures Filled(g, g, i, lo, lo)
  {
    hide Shape, Addr;
  }

  /** A block that is there already. */
  lemma FilledAlready(g: Img, i: int, bn: int)
    requires Shape(g) && 0 <= i < |g.inodes| && 0 <= bn < MAXFILE && Addr(g, i, SlotOf(bn)) != 0
    ensures Filled(g, g, i, bn, bn + 1)
  {
    NeedNone(g, i, bn, bn + 1);
    EntryNeedsIndirect(g, i, bn);
    hide Shape, Addr, Need, Spare;
  }

  lemma ReachedJoin(g: Img, h: Img, k: Img, i: int, lo: int, mid': int, mid: int, hi: int)
    requires Shape(g) && Shape(h) && Shape(k) && ReachedIn(g, h, i, lo, mid) && ReachedIn(h, k, i, mid', hi)
    requires lo <= mid' <= mid <= hi && (mid' == hi ==> mid == hi)
    ensures ReachedIn(g, k, i, lo, hi)
  {
    hide Shape, Addr;
    forall c | lo <= c < hi ensures Addr(k, i, SlotOf(c)) != 0 {
      if c < mid' {
        assert !Among(SlotOf(c), mid', hi);
      }
    }
  }

  lemma {:induction false} NeedJoin(g: Img, h: Img, i: int, lo: int, mid': int, mid: int, hi: int)
    requires Shape(g) && Shape(h) && ReachedIn(g, h, i, lo, mid) && lo <= mid' <= mid <= hi <= MAXFILE
    ensures Need(g, i, lo, hi) == Need(g, i, lo, mid) + Need(h, i, mid', hi)
    decreases hi
  {
    hide Shape, Addr;
    if hi == mid {
      NeedNone(h, i, mid', mid);
    } else {
      NeedJoin(g, h, i, lo, mid', mid, hi - 1);
      LastSame(g, h, i, lo, mid', mid, hi - 1);
    }
  }

  lemma LastSame(g: Img, h: Img, i: int, lo: int, mid': int, mid: int, c: int)
    requires Shape(g) && Shape(h) && ReachedIn(g, h, i, lo, mid) && lo <= mid' <= mid <= c < MAXFILE
    ensures NeedLast(g, i, lo, c) == NeedLast(h, i, mid', c)
  {
    hide Shape, Addr;
    assert !Among(SlotOf(c), lo, mid);
    assert Addr(h, i, SlotOf(c)) == Addr(g, i, SlotOf(c));
  }

  /** Two stretches, the second of which starts inside the first or right after it. */
  lemma FilledJoin(g: Img, h: Img, k: Img, i: int, lo: int, mid': int, mid: int, hi: int)
    requires Shape(g) && Shape(h) && Shape(k) && Filled(g, h, i, lo, mid) && Filled(h, k, i, mid', hi)
    requires lo <= mid' <= mid <= hi && (mid' == hi ==> mid == hi)
    ensures Filled(g, k, i, lo, hi)
  {
    hide Shape, ReachedIn, Need, Spare, Addr;
    FilledBounds(g, h, i, lo, mid);
    FilledBounds(h, k, i, mid', hi);
    ReachedJoin(g, h, k, i, lo, mid', mid, hi);
    NeedJoin(g, h, i, lo, mid', mid, hi);
  }

  /** When the next stretch does not fit, neither does anything that holds both. */
  lemma NeedFails(g: Img, h: Img, i: int, lo: int, mid': int, mid: int, hi: int, end: int)
    requires Shape(g) && Shape(h) && Filled(g, h, i, lo, mid) && lo <= mid' <= mid <= hi <= end <= MAXFILE
    requires Need(h, i, mid', hi) > Spare(h)
    ensures Need(g, i, lo, end) > Spare(g)
  {
    hide Shape, ReachedIn, Need, Spare, Addr;
    FilledBounds(g, h, i, lo, mid);
    NeedJoin(g, h, i, lo, mid', mid, hi);
    NeedMonotone(g, i, lo, hi, end);
  }

  /** Addresses and free blocks stay: what was reached still is. */
  lemma FilledSame(g: Img, h: Img, k: Img, owner: map<int, Slot>, i: int, lo: int, hi: int)
    requires Shape(g) && Valid(h, owner) && Valid(k, owner) && k.sb == h.sb && SameAddrs(h, k)
      && Filled(g, h, i, lo, hi)
    ensures Filled(g, k, i, lo, hi)
  {
    SpareSame(h, k, owner);
    assert Shape(h) && Shape(k);
    hide Valid, Shape, Addr, Need, Spare;
  }

  // ----- One block at a time

  /** Slot k of inode i, empty in g, names a block in h, which came from the free ones. */
  ghost predicate Taken(g: Img, h: Img, i: int, k: int, a: int)
    requires Shape(g) && Shape(h)
  {
    && g.sb == h.sb && 0 <= i < |g.inodes| && 0 <= k < NSLOTS && Addr(g, i, k) == 0 && a != 0
    && OneAddr(g, h, i, k, a) && Spare(h) == Spare(g) - 1
  }

  lemma TakenBlock(g: Img, h: Img, i: int, bn: int, a: int)
    requires Shape(g) && Shape(h) && 0 <= bn < MAXFILE && Taken(g, h, i, SlotOf(bn), a)
    requires bn >= NDIRECT ==> Addr(g, i, NDIRECT) != 0
    ensures Filled(g, h, i, bn, bn + 1)
  {
    hide Shape, Addr, Need, Spare;
    NeedOne(g, i, bn);
  }

  /** First the indirect block, then the block it names. */
  lemma TakenBoth(g: Img, h: Img, k: Img, i: int, bn: int, a: int)
    requires Shape(g) && Shape(h) && Shape(k) && NDIRECT <= bn < MAXFILE && Taken(g, h, i, NDIRECT, a)
      && Filled(h, k, i, bn, bn + 1)
    ensures Filled(g, k, i, bn, bn + 1)
  {
    hide Shape, Addr, Need, Spare;
    NeedOne(g, i, bn);
    NeedOne(h, i, bn);
  }

  lemma TakenNeed(g: Img, h: Img, i: int, bn: int, a: int)
    requires Shape(g) && Shape(h) && NDIRECT <= bn < MAXFILE && Taken(g, h, i, NDIRECT, a)
    ensures |h.inodes| == |g.inodes| && Need(g, i, bn, bn + 1) == Need(h, i, bn, bn + 1) + 1 && Spare(g) == Spare(h) + 1
  {
    hide Shape, Addr, Need, Spare;
    NeedOne(g, i, bn);
    NeedOne(h, i, bn);
  }

  lemma HoleNeeds(g: Img, i: int, bn: int)
    requires Shape(g) && 0 <= i < |g.inodes| && 0 <= bn < MAXFILE
    ensures Need(g, i, bn, bn + 1) > 0 <==> Addr(g, i, SlotOf(bn)) == 0
  {
    NeedOne(g, i, bn);
    if Addr(g, i, SlotOf(bn)) != 0 {
      EntryNeedsIndirect(g, i, bn);
    }
  }

  // ----- Stretches of bytes

  /** The blocks below this one hold the bytes before off + n, if n > 0; those from off / BSIZE on hold bytes off.. */
  function UpTo(off: int, n: int): int {
    if n <= 0 then off / BSIZE else (off + n - 1) / BSIZE + 1
  }

  /** tot of n bytes at off were passed, block by block. */
  predicate AtTurn(off: int, n: int, tot: int) {
    0 <= tot <= n && (tot == 0 || tot == n || (off + tot) % BSIZE == 0)
  }

  /** The next turn works on the next block. */
  lemma NextTurn(off: int, n: int, tot: int, m: int)
    requires 0 <= off && AtTurn(off, n, tot) && tot < n
    requires m == if n - tot < BSIZE - (off + tot) % BSIZE then n - tot else BSIZE - (off + tot) % BSIZE
    ensures 0 < m && (off + tot) % BSIZE + m <= BSIZE && AtTurn(off, n, tot + m)
    ensures off / BSIZE <= UpTo(off, tot) == (off + tot) / BSIZE && UpTo(off, tot + m) == UpTo(off, tot) + 1
    ensures forall k :: tot < k <= tot + m ==> UpTo(off, k) == UpTo(off, tot) + 1
  {
  }

  lemma UpToGrows(off: int, n: int, n': int)
    requires 0 <= off && n <= n'
    ensures off / BSIZE <= UpTo(off, n) <= UpTo(off, n')
    ensures off + n' <= MAXFILE * BSIZE && off <= MAXFILE * BSIZE ==> UpTo(off, n') <= MAXFILE
  {
  }

  // ----- What is logged on the way

  /** Every block that differs between g and h has been logged. */
  ghost predicate Saved(g: Img, h: Img, before: set<int>, after: set<int>) {
    && before <= after && |h.blocks| == |g.blocks|
    && forall b :: 0 <= b < |g.blocks| && h.blocks[b] != g.blocks[b] ==> b in after
  }

  lemma SavedTrans(g: Img, h: Img, k: Img, s0: set<int>, s1: set<int>, s2: set<int>)
    requires Saved(g, h, s0, s1) && Saved(h, k, s1, s2)
    ensures Saved(g, k, s0, s2)
  {
  }

  /** Inodes are not blocks. */
  lemma SavedFrom(g: Img, h: Img, f: Img, k: Img, s0: set<int>, s1: set<int>, s2: set<int>)
    requires Saved(g, h, s0, s1) && Saved(h, f, s1, s2) && k.blocks == f.blocks
    ensures Saved(g, k, s0, s2)
  {
  }

  lemma SavedBlock(g: Img, h: Img, k: Img, a: int, before: set<int>, after: set<int>)
    requires Saved(g, h, before, after) && 0 <= a < |h.blocks| == |k.blocks| && k.blocks == h.blocks[a := k.blocks[a]]
    ensures Saved(g, k, before, after + {a})
  {
  }

  lemma SavedSame(g: Img, h: Img, before: set<int>, after: set<int>)
    requires h.blocks == g.blocks && before <= after
    ensures Saved(g, h, before, after)
  {
  }

  /** Reaching blocks lo..hi logs something exactly when one is missing and the disk has room; otherwise nothing
      changes at all. */
  ghost predicate Logs(g: Img, h: Img, i: int, lo: int, hi: int, before: set<int>, after: set<int>)
    requires Shape(g) && 0 <= i < |g.inodes| && 0 <= lo && hi <= MAXFILE
  {
    && Saved(g, h, before, after)
    && (if Need(g, i, lo, hi) > 0 && Spare(g) > 0 then after != {} else h == g && after == before)
  }

  lemma LogsJoin(g: Img, h: Img, k: Img, i: int, lo: int, mid: int, hi: int, end: int, s0: set<int>, s1: set<int>,
                 s2: set<int>)
    requires Shape(g) && Shape(h) && Filled(g, h, i, lo, mid) && mid <= hi <= end <= MAXFILE
    requires Logs(g, h, i, lo, mid, s0, s1) && Logs(h, k, i, mid, hi, s1, s2)
    requires hi < end ==> Need(h, i, mid, hi) > Spare(h)
    ensures Logs(g, k, i, lo, end, s0, s2)
  {
    hide Shape, ReachedIn, Need, Spare, Addr, Saved;
    SavedTrans(g, h, k, s0, s1, s2);
    FilledBounds(g, h, i, lo, mid);
    NeedJoin(g, h, i, lo, mid, mid, hi);
    if hi < end {
      NeedFails(g, h, i, lo, mid, mid, hi, end);
    }
  }
}
