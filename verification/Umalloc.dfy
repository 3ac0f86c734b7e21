/**
 user/umalloc.c: malloc and free over a circular free list kept in address order.  Addresses count
 headers.
 */
module Umalloc {
  import opened UmallocSpec

  const HEADER := 16         // sizeof(Header)
  const MAXUNITS := 0x800_0000  // units whose bytes fit sbrk's int

  /** The ring twice over: following ptr from any block goes along it. */
  ghost function Twice(ring: seq<int>): (d: seq<int>)
    ensures |d| == 2 * |ring|
    ensures (forall i :: 0 <= i < |ring| ==> d[i] == ring[i])
      && (forall i :: |ring| <= i < |d| ==> d[i] == ring[i - |ring|])
  {
    ring + ring
  }

  /** After i - k0 steps from freep, at index k0 of the ring, no block seen had n units. */
  ghost predicate Scanned(ring: seq<int>, size: map<int, int>, k0: int, i: int, n: int) {
    && 0 <= k0 < |ring| && k0 <= i < k0 + |ring|
    && forall x :: k0 < x <= i ==> Twice(ring)[x] in size && size[Twice(ring)[x]] < n
  }

  lemma Along(ring: seq<int>, ptr: map<int, int>, i: int)
    requires Linked(ring, ptr) && 0 <= i < 2 * |ring| - 1
    ensures Twice(ring)[i] in ptr && ptr[Twice(ring)[i]] == Twice(ring)[i + 1] && Twice(ring)[i + 1] in ring
  {
    hide Twice;
    assert i + 1 < |ring| ==> ring[i + 1] in ring;
    assert i + 1 >= |ring| ==> ring[i + 1 - |ring|] in ring;
  }

  lemma ScanStarts(ring: seq<int>, size: map<int, int>, freep: int, n: int) returns (k0: int)
    requires freep in ring
    ensures Scanned(ring, size, k0, k0, n) && Twice(ring)[k0] == ring[k0] == freep
  {
    k0 :| 0 <= k0 < |ring| && ring[k0] == freep;
  }

  /** One more step; the scan is back at freep exactly after |ring| of them. */
  lemma ScanOn(ring: seq<int>, base: int, size: map<int, int>, k0: int, i: int, n: int)
    requires Sorted(ring, base) && Scanned(ring, size, k0, i, n)
    requires Twice(ring)[i + 1] in size && size[Twice(ring)[i + 1]] < n
    ensures Twice(ring)[i + 1] == ring[k0] <==> i + 1 == k0 + |ring|
    ensures i + 1 < k0 + |ring| ==> Scanned(ring, size, k0, i + 1, n)
    ensures i + 1 == k0 + |ring| ==> !HasRoom(ring, size, n)
  {
    hide Twice;
    if i + 1 == k0 + |ring| {
      forall a | a in ring ensures a in size && size[a] < n {
        var x :| 0 <= x < |ring| && ring[x] == a;
        assert Twice(ring)[x] == a && Twice(ring)[x + |ring|] == a;
      }
    }
  }

  /** The block found, and the one before it. */
  lemma FoundAt(h: UmallocSpec.Heap, base: int, brk: int, i: int, n: int) returns (k: int)
    requires Valid(h, base, brk) && 0 <= i < 2 * |h.ring| - 1 && 0 < n
    requires Twice(h.ring)[i + 1] in h.size && h.size[Twice(h.ring)[i + 1]] >= n
    ensures 0 < k < |h.ring| && Twice(h.ring)[i + 1] == h.ring[k] && Twice(h.ring)[i] == h.ring[k - 1]
  {
    k := if i + 1 < |h.ring| then i + 1 else i + 1 - |h.ring|;
    RingSizes(h, base, brk, 0, 0, k);
  }

  /** These blocks keep their headers. */
  ghost predicate SameHeaders(blocks: set<int>, was: map<int, int>, size: map<int, int>) {
    forall a :: a in blocks ==> a in size && a in was && size[a] == was[a]
  }

  /** Some free block has n units. */
  ghost predicate HasRoom(ring: seq<int>, size: map<int, int>, n: int) {
    exists a :: a in ring && a in size && size[a] >= n
  }

  lemma SameTrans(blocks: set<int>, s0: map<int, int>, s1: map<int, int>, s2: map<int, int>)
    requires SameHeaders(blocks, s0, s1) && SameHeaders(blocks, s1, s2)
    ensures SameHeaders(blocks, s0, s2)
  {
  }

  /** Units for nbytes bytes and a header. */
  function NUnits(nbytes: int): (n: int)
    requires 0 <= nbytes
    ensures n > 0 && (n - 1) * HEADER >= nbytes > (n - 2) * HEADER
  {
    (nbytes + HEADER - 1) / HEADER + 1
  }

  lemma LiveSame(h: UmallocSpec.Heap, base: int, brk: int)
    requires Valid(h, base, brk)
    ensures SameHeaders(h.live, h.size, h.size)
  {
    LiveSized(h, base, brk);
  }

  lemma ValidSorted(h: UmallocSpec.Heap, base: int, brk: int)
    requires Valid(h, base, brk)
    ensures Sorted(h.ring, base)
  {
  }

  lemma TakePre(h: UmallocSpec.Heap, base: int, brk: int, ptr: map<int, int>, k: int)
    requires Valid(h, base, brk) && Linked(h.ring, ptr) && 0 < k < |h.ring|
    ensures Sorted(h.ring, base) && h.ring[k] in ptr && h.ring[k - 1] in ptr && h.ring[k - 1] >= base
    ensures h.ring[k] >= base && h.ring[k] in h.ring && h.ring[k] !in h.live && h.ring[k - 1] in h.ring
      && h.ring[k - 1] in Remove(h.ring, k)
  {
    hide Remove;
    assert Remove(h.ring, k)[k - 1] == h.ring[k - 1];
    RingAbove(h, base, brk, h.ring[k - 1]);
    RingAbove(h, base, brk, h.ring[k]);
  }

  lemma FirstUse(base: int, brk: int, ptr: map<int, int>, size: map<int, int>)
    requires base < brk && base in ptr && ptr[base] == base && base in size && size[base] == 0
    ensures var h := UmallocSpec.Heap([base], {}, size); Valid(h, base, brk) && Linked([base], ptr) && Total(h) == 0
  {
    var h := UmallocSpec.Heap([base], {}, size);
    assert Blocks(h) == {base};
    UnitsPick({base}, size, base);
    assert {base} - {base} == {};
  }

  class Heap {
    const base: int                // address of the list header, below the heap
    var ptr: map<int, int>         // s.ptr of each header
    var size: map<int, int>        // s.size of each header
    var freep: int                 // 0 before the first malloc
    ghost var ring: seq<int>
    ghost var live: set<int>
    ghost var brk: int             // end of the memory obtained
    ghost var obtained: int        // units obtained from sbrk

    ghost function H(): UmallocSpec.Heap
      reads this
    {
      UmallocSpec.Heap(ring, live, size)
    }

    ghost predicate Ok()
      reads this
    {
      && 0 < base < brk
      && (freep == 0 ==> live == {} && obtained == 0)
      && (freep != 0 ==> Inited())
    }

    ghost predicate Inited()
      reads this
    {
      && Valid(H(), base, brk) && Linked(ring, ptr) && freep in ring && Total(H()) == obtained
    }

    /** A heap before its first use. */
    constructor (base: int, brk: int)
      requires 0 < base < brk
      ensures this.base == base && this.brk == brk && Ok() && live == {} && obtained == 0
    {
      this.base := base;
      ptr, size, freep := map[], map[], 0;
      ring, live, this.brk, obtained := [], {}, brk, 0;
    }

    /** The scan of free: the free block after which bp belongs. */
    method FindPlace(bp: int) returns (p: int, ghost j: int)
      requires Ok() && Inited() && bp in live
      ensures p in ptr && p < bp && (bp < ptr[p] || ptr[p] == base)
      ensures Gap(ring, j, bp) && p == ring[j]
    {
      hide Valid, Linked, Total, Sorted, Gap;
      j := LivePlace(H(), base, brk, bp);
      GapAround(ring, base, ptr, j, bp);
      ghost var k :| 0 <= k < |ring| && ring[k] == freep;
      ScanStops(ring, base, ptr, bp, j, k);
      p := freep;
      while !(bp > p && bp < ptr[p])
        invariant Stops(ring, ptr, bp, j, k) && p == ring[k]
        decreases if k <= j then j - k else j + |ring| - k
      {
        if p >= ptr[p] && (bp > p || bp < ptr[p]) {
          break;
        }
        GapRange(ring, j, bp);
        k := Next(ring, k);
        ScanStops(ring, base, ptr, bp, j, k);
        p := ptr[p];
      }
    }

    /** free, for the block whose header is ap - 1. */
    method Free(ap: int)
      requires Ok() && ap - 1 in live
      modifies this`ptr, this`size, this`freep, this`ring, this`live
      ensures Ok() && Inited() && live == old(live) - {ap - 1}
      ensures SameHeaders(live, old(size), size)
      ensures HasRoom(ring, size, old(size[ap - 1]))
    {
      hide Valid, Linked, Total, Gap, Freed;
      var bp := ap - 1;
      var p, j := FindPlace(bp);
      ghost var h, q := H(), ptr;
      FreeCode(h, base, brk, q, j, bp);
      FreeKeepsLive(h, base, brk, q, j, bp);
      ghost var big := FreeMakesRoom(h, base, brk, q, j, bp);
      ghost var f, c := Freed(h, base, brk, j, bp), FreedHeaders(h.size, q, p, bp);
      RingAbove(f, base, brk, p);
      if bp + size[bp] == ptr[p] {
        size := size[bp := size[bp] + size[ptr[p]]];
        ptr := ptr[bp := ptr[ptr[p]]];
      } else {
        ptr := ptr[bp := ptr[p]];
      }
      if p + size[p] == bp {
        size := size[p := size[p] + size[bp]];
        ptr := ptr[p := ptr[bp]];
      } else {
        ptr := ptr[p := bp];
      }
      assert size == c.0 && ptr == c.1;
      freep := p;
      ring, live := f.ring, live - {bp};
      assert H() == f;
    }

    /** morecore; `grant` is sbrk's answer, -1 or the address of fresh memory. */
    method Morecore(units: int, grant: int) returns (p: int)
      requires Ok() && Inited() && 0 < units < MAXUNITS && (grant == -1 || brk <= grant)
      modifies this`ptr, this`size, this`freep, this`ring, this`live, this`brk, this`obtained
      ensures Ok() && live == old(live) && (p == 0 <==> grant == -1)
      ensures SameHeaders(live, old(size), size)
      ensures p == 0 ==> unchanged(this)
      ensures p != 0 ==> Inited() && p == freep && obtained == old(obtained) + (if units < 4096 then 4096 else units)
      ensures p != 0 ==> HasRoom(ring, size, units)
    {
      hide Valid, Linked, Total;
      LiveSized(H(), base, brk);
      RingAbove(H(), base, brk, freep);
      var nu := units;
      if nu < 4096 {
        nu := 4096;
      }
      if grant == -1 {
        return 0;
      }
      GrownValid(H(), base, brk, grant, nu);
      size := size[grant := nu];
      live := live + {grant};
      brk, obtained := grant + nu, obtained + nu;
      Free(grant + 1);
      RingAbove(H(), base, brk, freep);
      p := freep;
    }

    /** The part of malloc that takes n units out of the block p that follows prevp. */
    method Carve(prevp: int, p: int, n: int, ghost k: int) returns (r: int)
      requires Ok() && Inited() && 0 < k < |ring| && prevp == ring[k - 1] && p == ring[k] && p in size
        && size[p] >= n > 0
      modifies this`ptr, this`size, this`freep, this`ring, this`live
      ensures Ok() && Inited() && r - 1 !in old(live) && live == old(live) + {r - 1} && r - 1 in size
        && size[r - 1] == n && r != 0
      ensures SameHeaders(old(live), old(size), size)
    {
      hide Valid, Linked, Total, Remove;
      LiveSized(H(), base, brk);
      TakePre(H(), base, brk, ptr, k);
      var b := p;
      if size[p] == n {
        TakenValid(H(), base, brk, k);
        LinkedRemove(ring, base, ptr, k);
        ptr := ptr[prevp := ptr[p]];
        live, ring := live + {p}, Remove(ring, k);
      } else {
        CutValid(H(), base, brk, k, n);
        size := size[p := size[p] - n];
        b := b + size[p];
        size := size[b := n];
        live := live + {b};
      }
      freep := prevp;
      r := b + 1;
    }

    /** The beginning of malloc: the list header alone, at the first call. */
    method Start()
      requires Ok()
      modifies this`ptr, this`size, this`freep, this`ring
      ensures Ok() && Inited() && Sorted(ring, base) && SameHeaders(live, old(size), size)
      ensures old(freep) != 0 ==> unchanged(this)
    {
      hide Valid, Linked, Total, Sorted;
      if freep == 0 {
        freep := base;
        ptr := ptr[base := base];
        size := size[base := 0];
        ring := [base];
        FirstUse(base, brk, ptr, size);
      }
      LiveSame(H(), base, brk);
      ValidSorted(H(), base, brk);
    }

    /** malloc; `grant` is what sbrk answers if it is asked. */
    method Malloc(nbytes: int, grant: int) returns (r: int, asked: bool)
      requires Ok() && 0 <= nbytes && NUnits(nbytes) < MAXUNITS && (grant == -1 || brk <= grant)
      modifies this`ptr, this`size, this`freep, this`ring, this`live, this`brk, this`obtained
      ensures Ok()
      ensures r == 0 <==> asked && grant == -1
      ensures r == 0 ==> live == old(live)
      ensures r != 0 ==>
                r - 1 !in old(live) && live == old(live) + {r - 1} && r - 1 in size && size[r - 1] == NUnits(nbytes)
      ensures SameHeaders(old(live), old(size), size)
      ensures obtained == old(obtained) +
        (if r == 0 || !asked then 0 else if NUnits(nbytes) < 4096 then 4096 else NUnits(nbytes))
      ensures asked && old(freep) != 0 ==> !old(HasRoom(ring, size, NUnits(nbytes)))
    {
      hide Valid, Linked, Total, Twice, Scanned, Sorted, SameHeaders, HasRoom, NUnits;
      var n := NUnits(nbytes);
      asked := false;
      Start();
      var prevp := freep;
      ghost var ring0, size0 := ring, size;
      ghost var k0 := ScanStarts(ring, size, freep, n);
      ghost var i := k0;
      Along(ring, ptr, i);
      var p := ptr[prevp];
      while true
        invariant Ok() && Inited() && live == old(live) && Sorted(ring, base)
        invariant SameHeaders(live, old(size), size)
        invariant Scanned(ring, size, k0, i, n) && k0 <= i < k0 + |ring| && 0 <= k0 < |ring| && freep == ring[k0]
        invariant prevp == Twice(ring)[i] && p == Twice(ring)[i + 1] && p in ring
        invariant asked ==> HasRoom(ring, size, n)
        invariant asked ==> grant != -1 && obtained == old(obtained) + (if n < 4096 then 4096 else n)
        invariant asked ==> !HasRoom(ring0, size0, n)
        invariant !asked ==> obtained == old(obtained) && ring == ring0 && size == size0 && brk == old(brk)
        decreases !asked, k0 + |ring| - i
      {
        RingAbove(H(), base, brk, p);
        if size[p] >= n {
          ghost var k := FoundAt(H(), base, brk, i, n);
          ghost var s := size;
          r := Carve(prevp, p, n, k);
          SameTrans(old(live), old(size), s, size);
          return;
        }
        ScanOn(ring, base, size, k0, i, n);
        if p == freep {
          assert !asked;
          asked := true;
          ghost var s := size;
          p := Morecore(n, grant);
          SameTrans(live, old(size), s, size);
          if p == 0 {
            return 0, true;
          }
          ValidSorted(H(), base, brk);
          k0 := ScanStarts(ring, size, freep, n);
          i := k0;
        } else {
          i := i + 1;
        }
        Along(ring, ptr, i);
        prevp := p;
        p := ptr[p];
      }
    }
  }
}
