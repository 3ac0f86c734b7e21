/**
 The heap of user/umalloc.c as values, in units of one header: the free blocks in address order,
 the blocks handed out, and their sizes.
 */
module UmallocSpec {

  datatype Heap = Heap(ring: seq<int>, live: set<int>, size: map<int, int>)

  /** The headers of all blocks, free and live. */
  ghost function Blocks(h: Heap): (ks: set<int>)
    ensures forall a :: a in ks <==> a in h.live || a in h.ring
  {
    h.live + set a | a in h.ring
  }

  /** No two blocks overlap. */
  ghost predicate Apart(ks: set<int>, size: map<int, int>) {
    && (forall a :: a in ks ==> a in size)
    && (forall a, b :: a in ks && b in ks && a < b ==> a + size[a] <= b)
  }

  /** The list header `base` is empty and lies below every block. */
  ghost predicate SizesOk(ks: set<int>, size: map<int, int>, base: int, brk: int) {
    forall a :: a in ks ==>
      && a in size
      && if a == base then size[a] == 0 else size[a] > 0 && base < a && a + size[a] <= brk
  }

  /** Address order, starting at the list header. */
  ghost predicate Sorted(ring: seq<int>, base: int) {
    |ring| > 0 && ring[0] == base && forall i, j :: 0 <= i < j < |ring| ==> ring[i] < ring[j]
  }

  /** No two neighbours on the free list touch, except perhaps ring[lo..hi] and their successors. */
  ghost predicate Coalesced(ring: seq<int>, size: map<int, int>, lo: int, hi: int) {
    forall i :: 0 <= i < |ring| - 1 && !(lo <= i < hi) && ring[i] in size ==> ring[i] + size[ring[i]] < ring[i + 1]
  }

  ghost predicate AlmostValid(h: Heap, base: int, brk: int, lo: int, hi: int) {
    && Sorted(h.ring, base) && (forall a :: a in h.live ==> a !in h.ring)
    && Apart(Blocks(h), h.size) && SizesOk(Blocks(h), h.size, base, brk) && Coalesced(h.ring, h.size, lo, hi)
  }

  ghost predicate Valid(h: Heap, base: int, brk: int) {
    AlmostValid(h, base, brk, 0, 0)
  }

  // ----- Units

  lemma SomeMember(ks: set<int>)
    ensures ks == {} || exists k :: k in ks
  {
    if forall k :: k !in ks {
      assert ks == {};
    }
  }

  ghost function Units(ks: set<int>, size: map<int, int>): (n: int)
    decreases ks
  {
    if ks == {} then 0
    else
      SomeMember(ks);
      var k :| k in ks;
      (if k in size then size[k] else 0) + Units(ks - {k}, size)
  }

  lemma {:induction false} UnitsPick(ks: set<int>, size: map<int, int>, k: int)
    requires k in ks
    ensures Units(ks, size) == (if k in size then size[k] else 0) + Units(ks - {k}, size)
    decreases ks
  {
    var c :| c in ks && Units(ks, size) == (if c in size then size[c] else 0) + Units(ks - {c}, size);
    if c != k {
      UnitsPick(ks - {c}, size, k);
      UnitsPick(ks - {k}, size, c);
      assert ks - {c} - {k} == ks - {k} - {c};
    }
  }

  lemma {:induction false} UnitsFrame(ks: set<int>, size: map<int, int>, size': map<int, int>)
    requires forall k :: k in ks ==> k in size && k in size' && size'[k] == size[k]
    ensures Units(ks, size') == Units(ks, size)
    decreases ks
  {
    if ks != {} {
      SomeMember(ks);
      var k :| k in ks;
      UnitsPick(ks, size, k);
      UnitsPick(ks, size', k);
      UnitsFrame(ks - {k}, size, size');
    }
  }

  /** Free and live units together. */
  ghost function Total(h: Heap): int {
    Units(Blocks(h), h.size)
  }

  // ----- Joining and splitting blocks

  /** Block b, which follows a without a gap, is taken into a. */
  lemma Merge(ks: set<int>, size: map<int, int>, base: int, brk: int, a: int, b: int)
    requires Apart(ks, size) && SizesOk(ks, size, base, brk) && a in ks && b in ks && a != base && a + size[a] == b
    ensures var size' := size[a := size[a] + size[b]];
      && Apart(ks - {b}, size') && SizesOk(ks - {b}, size', base, brk) && Units(ks - {b}, size') == Units(ks, size)
  {
    hide Units;
    var size' := size[a := size[a] + size[b]];
    UnitsPick(ks, size, b);
    UnitsPick(ks - {b}, size, a);
    UnitsPick(ks - {b}, size', a);
    UnitsFrame(ks - {b} - {a}, size, size');
  }

  /** The last n units of block a become a block of their own. */
  lemma Split(ks: set<int>, size: map<int, int>, base: int, brk: int, a: int, n: int)
    requires Apart(ks, size) && SizesOk(ks, size, base, brk) && a in ks && a != base && 0 < n < size[a]
    ensures var b := a + size[a] - n; var size' := size[a := size[a] - n][b := n];
      && b !in ks && Apart(ks + {b}, size') && SizesOk(ks + {b}, size', base, brk)
        && Units(ks + {b}, size') == Units(ks, size)
  {
    hide Units;
    var b := a + size[a] - n;
    var size' := size[a := size[a] - n][b := n];
    SplitUnits(ks, size, a, b, n);
    forall c | c in ks ensures c != b && (c < a ==> c + size[c] <= a) && (a < c ==> a + size[a] <= c) {
    }
  }

  lemma SplitUnits(ks: set<int>, size: map<int, int>, a: int, b: int, n: int)
    requires a in ks && b !in ks && forall k :: k in ks ==> k in size
    ensures Units(ks + {b}, size[a := size[a] - n][b := n]) == Units(ks, size)
  {
    hide Units;
    var size' := size[a := size[a] - n][b := n];
    UnitsPick(ks + {b}, size', b);
    assert ks + {b} - {b} == ks;
    UnitsPick(ks, size, a);
    UnitsPick(ks, size', a);
    UnitsFrame(ks - {a}, size, size');
  }

  // ----- The ring

  /** The free block after which bp belongs. */
  ghost predicate Gap(ring: seq<int>, j: int, bp: int) {
    0 <= j < |ring| && ring[j] < bp && (j + 1 < |ring| ==> bp < ring[j + 1])
  }

  lemma {:induction false} FindGap(ring: seq<int>, base: int, bp: int) returns (j: int)
    requires Sorted(ring, base) && base < bp && bp !in ring
    ensures Gap(ring, j, bp)
    decreases |ring|
  {
    var n := |ring| - 1;
    if ring[n] < bp {
      j := n;
    } else {
      assert ring[n] in ring && ring[0] in ring;
      j := FindGap(ring[..n], base, bp);
    }
  }

  function Insert(ring: seq<int>, j: int, bp: int): (r: seq<int>)
    requires 0 <= j < |ring|
    ensures |r| == |ring| + 1
    ensures (forall i :: 0 <= i <= j ==> r[i] == ring[i]) && r[j + 1] == bp
      && (forall i :: j + 1 < i < |r| ==> r[i] == ring[i - 1])
  {
    ring[..j + 1] + [bp] + ring[j + 1..]
  }

  function Remove(ring: seq<int>, k: int): (r: seq<int>)
    requires 0 <= k < |ring|
    ensures |r| == |ring| - 1
    ensures (forall i :: 0 <= i < k ==> r[i] == ring[i]) && (forall i :: k <= i < |r| ==> r[i] == ring[i + 1])
  {
    ring[..k] + ring[k + 1..]
  }

  lemma Inserted(ring: seq<int>, base: int, j: int, bp: int)
    requires Sorted(ring, base) && Gap(ring, j, bp)
    ensures Sorted(Insert(ring, j, bp), base) && (forall a :: a in Insert(ring, j, bp) <==> a == bp || a in ring)
  {
    hide Insert;
    var r := Insert(ring, j, bp);
    assert r[j + 1] == bp;
    forall a | a in ring ensures a in r {
      var i :| 0 <= i < |ring| && ring[i] == a;
      assert i <= j ==> r[i] == a;
      assert i > j ==> r[i + 1] == a;
    }
  }

  lemma Removed(ring: seq<int>, base: int, k: int)
    requires Sorted(ring, base) && 0 < k < |ring|
    ensures Sorted(Remove(ring, k), base) && forall a :: a in Remove(ring, k) <==> a in ring && a != ring[k]
  {
    hide Remove;
    var r := Remove(ring, k);
    forall a | a in ring && a != ring[k] ensures a in r {
      var i :| 0 <= i < |ring| && ring[i] == a;
      assert i < k ==> r[i] == a;
      assert i > k ==> r[i - 1] == a;
    }
  }

  // ----- Freeing

  /** bp goes on the free list. */
  ghost function Listed(h: Heap, j: int, bp: int): (r: Heap)
    requires 0 <= j < |h.ring|
  {
    Heap(Insert(h.ring, j, bp), h.live - {bp}, h.size)
  }

  /** ring[k] and its successor are joined if they touch. */
  ghost function Joined(h: Heap, k: int): (r: Heap)
    requires 0 <= k < |h.ring| && h.ring[k] in h.size && (k + 1 < |h.ring| ==> h.ring[k + 1] in h.size)
  {
    if k + 1 < |h.ring| && h.ring[k] + h.size[h.ring[k]] == h.ring[k + 1] then
      Heap(Remove(h.ring, k + 1), h.live, h.size[h.ring[k] := h.size[h.ring[k]] + h.size[h.ring[k + 1]]])
    else h
  }

  lemma RingSizes(h: Heap, base: int, brk: int, lo: int, hi: int, k: int)
    requires AlmostValid(h, base, brk, lo, hi) && 0 <= k < |h.ring|
    ensures h.ring[k] in h.size
      && (k + 1 < |h.ring| ==> h.ring[k + 1] in h.size && h.ring[k] + h.size[h.ring[k]] <= h.ring[k + 1])
    ensures if k == 0 then h.size[h.ring[k]] == 0 else h.size[h.ring[k]] > 0 && h.ring[k] != base
  {
    hide Coalesced;
    assert h.ring[k] in Blocks(h) && (k + 1 < |h.ring| ==> h.ring[k + 1] in Blocks(h));
  }

  lemma ListedValid(h: Heap, base: int, brk: int, j: int, bp: int)
    requires Valid(h, base, brk) && bp in h.live && Gap(h.ring, j, bp)
    ensures AlmostValid(Listed(h, j, bp), base, brk, j, j + 2) && Total(Listed(h, j, bp)) == Total(h)
  {
    hide Insert, Apart, SizesOk, Sorted, Units, Coalesced;
    Inserted(h.ring, base, j, bp);
    ListedApart(h.ring, h.size, j, bp);
    var r := Listed(h, j, bp);
    forall a ensures a in Blocks(r) <==> a in Blocks(h) {
      assert a in r.ring <==> a == bp || a in h.ring;
    }
    assert Blocks(r) == Blocks(h);
  }

  lemma ListedApart(ring: seq<int>, size: map<int, int>, j: int, bp: int)
    requires Coalesced(ring, size, 0, 0) && 0 <= j < |ring|
    ensures Coalesced(Insert(ring, j, bp), size, j, j + 2)
  {
    hide Insert;
  }

  lemma JoinedValid(h: Heap, base: int, brk: int, lo: int, k: int)
    requires AlmostValid(h, base, brk, lo, k + 1) && lo <= k < |h.ring| && 0 <= k
    ensures h.ring[k] in h.size && (k + 1 < |h.ring| ==> h.ring[k + 1] in h.size)
    ensures AlmostValid(Joined(h, k), base, brk, lo, k) && Total(Joined(h, k)) == Total(h)
  {
    hide Remove, Apart, SizesOk, Units;
    RingSizes(h, base, brk, lo, k + 1, k);
    var r := Joined(h, k);
    if r != h {
      Removed(h.ring, base, k + 1);
      assert h.ring[k] in Blocks(h) && h.ring[k + 1] in Blocks(h);
      Merge(Blocks(h), h.size, base, brk, h.ring[k], h.ring[k + 1]);
      assert h.ring[k + 1] !in h.live;
      assert Blocks(r) == Blocks(h) - {h.ring[k + 1]};
      JoinedApart(h, base, brk, lo, k);
    }
  }

  lemma JoinedApart(h: Heap, base: int, brk: int, lo: int, k: int)
    requires AlmostValid(h, base, brk, lo, k + 1) && lo <= k < |h.ring| - 1 && 0 <= k
    requires h.ring[k] in h.size && h.ring[k + 1] in h.size
    requires h.ring[k] + h.size[h.ring[k]] == h.ring[k + 1]
    ensures Coalesced(Remove(h.ring, k + 1), h.size[h.ring[k] := h.size[h.ring[k]] + h.size[h.ring[k + 1]]], lo, k)
  {
    hide Remove, Apart, SizesOk;
    var r := Remove(h.ring, k + 1);
    assert forall i :: 0 <= i < |r| && i != k ==> r[i] != h.ring[k];
  }

  // ----- Allocating

  /** ring[k] is handed out whole. */
  ghost function Taken(h: Heap, k: int): (r: Heap)
    requires 0 <= k < |h.ring|
  {
    Heap(Remove(h.ring, k), h.live + {h.ring[k]}, h.size)
  }

  lemma TakenValid(h: Heap, base: int, brk: int, k: int)
    requires Valid(h, base, brk) && 0 < k < |h.ring|
    ensures Valid(Taken(h, k), base, brk) && Total(Taken(h, k)) == Total(h) && h.ring[k] !in h.live
  {
    hide Remove, Apart, SizesOk, Units;
    Removed(h.ring, base, k);
    RingSizes(h, base, brk, 0, 0, k - 1);
    assert Blocks(Taken(h, k)) == Blocks(h);
  }

  /** The last n units of ring[k] are handed out. */
  ghost function Cut(h: Heap, k: int, n: int): (r: Heap)
    requires 0 <= k < |h.ring| && h.ring[k] in h.size
  {
    var p := h.ring[k];
    var b := p + h.size[p] - n;
    Heap(h.ring, h.live + {b}, h.size[p := h.size[p] - n][b := n])
  }

  lemma CutValid(h: Heap, base: int, brk: int, k: int, n: int)
    requires Valid(h, base, brk) && 0 < k < |h.ring| && h.ring[k] in h.size && 0 < n < h.size[h.ring[k]]
    ensures Valid(Cut(h, k, n), base, brk) && Total(Cut(h, k, n)) == Total(h)
    ensures var b := h.ring[k] + h.size[h.ring[k]] - n; b !in h.live && b !in h.ring
  {
    hide Apart, SizesOk, Units;
    RingSizes(h, base, brk, 0, 0, k);
    var p := h.ring[k];
    assert p in Blocks(h);
    Split(Blocks(h), h.size, base, brk, p, n);
    assert Blocks(Cut(h, k, n)) == Blocks(h) + {p + h.size[p] - n};
  }

  // ----- New memory

  /** Units a..a+n, above all blocks, as a live block. */
  ghost function Grown(h: Heap, a: int, n: int): (r: Heap) {
    Heap(h.ring, h.live + {a}, h.size[a := n])
  }

  lemma GrownValid(h: Heap, base: int, brk: int, a: int, n: int)
    requires Valid(h, base, brk) && base < brk <= a && 0 < n
    ensures Valid(Grown(h, a, n), base, a + n) && Total(Grown(h, a, n)) == Total(h) + n && a !in Blocks(h)
  {
    hide Units;
    var r := Grown(h, a, n);
    assert forall b :: b in Blocks(h) ==> b < a && b != a;
    assert Blocks(r) == Blocks(h) + {a};
    UnitsPick(Blocks(r), r.size, a);
    assert Blocks(r) - {a} == Blocks(h);
    UnitsFrame(Blocks(h), h.size, r.size);
  }

  // ----- Links

  /** Following ptr goes once around the ring. */
  ghost predicate Linked(ring: seq<int>, ptr: map<int, int>) {
    && |ring| > 0
    && (forall i :: 0 <= i < |ring| ==> ring[i] in ptr)
    && (forall i :: 0 <= i < |ring| - 1 ==> ptr[ring[i]] == ring[i + 1])
    && ptr[ring[|ring| - 1]] == ring[0]
  }

  function Next(ring: seq<int>, k: int): int {
    if k == |ring| - 1 then 0 else k + 1
  }

  /** At index k of the ring, the test that ends free's scan is whether k is j. */
  ghost predicate Stops(ring: seq<int>, ptr: map<int, int>, bp: int, j: int, k: int) {
    && 0 <= k < |ring| && ring[k] in ptr && 0 <= Next(ring, k) < |ring| && ptr[ring[k]] == ring[Next(ring, k)]
    && var p := ring[k];
      (bp > p && bp < ptr[p]) || (p >= ptr[p] && (bp > p || bp < ptr[p])) <==> k == j
  }

  lemma GapAround(ring: seq<int>, base: int, ptr: map<int, int>, j: int, bp: int)
    requires Sorted(ring, base) && Linked(ring, ptr) && Gap(ring, j, bp)
    ensures 0 <= j < |ring| && ring[j] in ptr && ring[j] < bp && (bp < ptr[ring[j]] || ptr[ring[j]] == base)
  {
  }

  lemma ScanStops(ring: seq<int>, base: int, ptr: map<int, int>, bp: int, j: int, k: int)
    requires Sorted(ring, base) && Linked(ring, ptr) && Gap(ring, j, bp) && 0 <= k < |ring|
    ensures Stops(ring, ptr, bp, j, k)
  {
    assert k < |ring| - 1 ==> ring[k] < ring[k + 1];
    assert k < j ==> ring[k + 1] <= ring[j];
    assert j < k ==> ring[j + 1] <= ring[k];
  }

  lemma GapRange(ring: seq<int>, j: int, bp: int)
    requires Gap(ring, j, bp)
    ensures 0 <= j < |ring|
  {
  }

  lemma LivePlace(h: Heap, base: int, brk: int, bp: int) returns (j: int)
    requires Valid(h, base, brk) && bp in h.live
    ensures Gap(h.ring, j, bp) && Sorted(h.ring, base)
  {
    assert bp in Blocks(h) && base in h.ring && bp !in h.ring;
    j := FindGap(h.ring, base, bp);
  }

  lemma LinkedInsert(ring: seq<int>, base: int, ptr: map<int, int>, j: int, bp: int)
    requires Sorted(ring, base) && Linked(ring, ptr) && 0 <= j < |ring| && bp !in ring
    ensures Linked(Insert(ring, j, bp), ptr[bp := ptr[ring[j]]][ring[j] := bp])
  {
    hide Insert;
    var r, q := Insert(ring, j, bp), ptr[bp := ptr[ring[j]]][ring[j] := bp];
    assert forall i :: 0 <= i < |ring| ==> ring[i] in ring;
    forall i | 0 <= i < |r| ensures r[i] in q {
      assert i > j + 1 ==> r[i] == ring[i - 1];
    }
    forall i | 0 <= i < |r| - 1 ensures q[r[i]] == r[i + 1] {
      assert i > j + 1 ==> r[i] == ring[i - 1] && r[i + 1] == ring[i];
    }
  }

  lemma LinkedRemove(ring: seq<int>, base: int, ptr: map<int, int>, k: int)
    requires Sorted(ring, base) && Linked(ring, ptr) && 0 < k < |ring|
    ensures Linked(Remove(ring, k), ptr[ring[k - 1] := ptr[ring[k]]])
  {
    hide Remove;
    var r, q := Remove(ring, k), ptr[ring[k - 1] := ptr[ring[k]]];
    forall i | 0 <= i < |r| ensures r[i] in q {
    }
    forall i | 0 <= i < |r| - 1 ensures q[r[i]] == r[i + 1] {
    }
  }

  // ----- What the code of free does

  ghost function Freed(h: Heap, base: int, brk: int, j: int, bp: int): (r: Heap)
    requires Valid(h, base, brk) && bp in h.live && Gap(h.ring, j, bp)
    ensures Valid(r, base, brk) && Total(r) == Total(h)
  {
    ListedValid(h, base, brk, j, bp);
    JoinedValid(Listed(h, j, bp), base, brk, j, j + 1);
    var h1 := Joined(Listed(h, j, bp), j + 1);
    JoinedValid(h1, base, brk, j, j);
    DoneJoining(Joined(h1, j), base, brk, j);
    Joined(h1, j)
  }

  lemma DoneJoining(h: Heap, base: int, brk: int, j: int)
    requires AlmostValid(h, base, brk, j, j)
    ensures Valid(h, base, brk)
  {
  }

  /** Sizes and pointers after the two tests of free, where p comes before bp in the ring. */
  function FreedHeaders(size: map<int, int>, ptr: map<int, int>, p: int, bp: int): (r: (map<int, int>, map<int, int>))
    requires p in ptr && p in size && bp in size && (bp + size[bp] == ptr[p] ==> ptr[p] in size && ptr[p] in ptr)
  {
    var nx := ptr[p];
    var size1 := if bp + size[bp] == nx then size[bp := size[bp] + size[nx]] else size;
    var ptr1 := if bp + size[bp] == nx then ptr[bp := ptr[nx]] else ptr[bp := nx];
    if p + size1[p] == bp then (size1[p := size1[p] + size1[bp]], ptr1[p := ptr1[bp]]) else (size1, ptr1[p := bp])
  }

  lemma FreePre(h: Heap, base: int, brk: int, ptr: map<int, int>, j: int, bp: int)
    requires Valid(h, base, brk) && bp in h.live && Gap(h.ring, j, bp) && Linked(h.ring, ptr)
    ensures var p := h.ring[j];
      && p in ptr && p in h.size && bp in h.size && bp !in h.ring && h.size[bp] > 0 && bp != base
      && (bp + h.size[bp] == ptr[p] <==> j + 1 < |h.ring| && bp + h.size[bp] == h.ring[j + 1])
      && (bp + h.size[bp] == ptr[p] ==> ptr[p] in h.size && ptr[p] in ptr)
  {
    RingSizes(h, base, brk, 0, 0, j);
    assert bp in Blocks(h) && h.ring[0] in h.ring;
    hide Blocks, Apart, Coalesced;
  }

  predicate Touch(h: Heap, k: int)
    requires 0 <= k < |h.ring| && h.ring[k] in h.size
  {
    k + 1 < |h.ring| && h.ring[k] + h.size[h.ring[k]] == h.ring[k + 1]
  }

  lemma JoinedLinked(h: Heap, base: int, k: int, q: map<int, int>)
    requires Sorted(h.ring, base) && Linked(h.ring, q) && 0 <= k < |h.ring| && h.ring[k] in h.size
    requires k + 1 < |h.ring| ==> h.ring[k + 1] in h.size
    ensures var r := Joined(h, k);
      && k < |r.ring| && (forall i :: 0 <= i <= k ==> r.ring[i] == h.ring[i]) && r.live == h.live
      && (Touch(h, k) ==>
            && h.ring[k + 1] in q && h.ring[k + 1] in h.size
            && r.size == h.size[h.ring[k] := h.size[h.ring[k]] + h.size[h.ring[k + 1]]]
            && Linked(r.ring, q[h.ring[k] := q[h.ring[k + 1]]]))
      && (!Touch(h, k) ==> r == h)
  {
    hide Remove, Insert;
    if Touch(h, k) {
      LinkedRemove(h.ring, base, q, k + 1);
    }
  }

  lemma FreeCode(h: Heap, base: int, brk: int, ptr: map<int, int>, j: int, bp: int)
    requires Valid(h, base, brk) && bp in h.live && Gap(h.ring, j, bp) && Linked(h.ring, ptr)
    ensures var p := h.ring[j];
      p in ptr && p in h.size && bp in h.size && (bp + h.size[bp] == ptr[p] ==> ptr[p] in h.size && ptr[p] in ptr)
    ensures var r := Freed(h, base, brk, j, bp); var c := FreedHeaders(h.size, ptr, h.ring[j], bp);
      r.size == c.0 && Linked(r.ring, c.1) && h.ring[j] in r.ring && r.live == h.live - {bp}
  {
    hide Apart, SizesOk, Coalesced, Total, Insert, Remove, Linked, Joined, Sorted, Blocks, FreedHeaders;
    FreePre(h, base, brk, ptr, j, bp);
    ListedValid(h, base, brk, j, bp);
    var p, nx := h.ring[j], ptr[h.ring[j]];
    var h0, q0 := Listed(h, j, bp), ptr[bp := nx][p := bp];
    LinkedInsert(h.ring, base, ptr, j, bp);
    JoinedValid(h0, base, brk, j, j + 1);
    JoinedLinked(h0, base, j + 1, q0);
    var h1 := Joined(h0, j + 1);
    FreeNext(h, ptr, j, bp);
    var q1 := if bp + h.size[bp] == nx then q0[bp := q0[nx]] else q0;
    JoinedValid(h1, base, brk, j, j);
    JoinedLinked(h1, base, j, q1);
    FreeMaps(h.size, ptr, p, bp);
    assert Joined(h1, j).ring[j] == p;
  }

  lemma FreeNext(h: Heap, ptr: map<int, int>, j: int, bp: int)
    requires 0 <= j < |h.ring| && h.ring[j] in ptr && bp in h.size && Linked(h.ring, ptr)
    requires bp + h.size[bp] == ptr[h.ring[j]] <==> j + 1 < |h.ring| && bp + h.size[bp] == h.ring[j + 1]
    ensures var h0 := Listed(h, j, bp);
      && h0.ring[j] == h.ring[j] && h0.ring[j + 1] == bp
      && (Touch(h0, j + 1) <==> bp + h.size[bp] == ptr[h.ring[j]])
      && (Touch(h0, j + 1) ==> h0.ring[j + 2] == ptr[h.ring[j]])
  {
    hide Insert;
    assert j + 2 < |Insert(h.ring, j, bp)| ==> Insert(h.ring, j, bp)[j + 2] == h.ring[j + 1];
  }

  /** The order in which the pointers are written does not matter. */
  lemma FreeMaps(size: map<int, int>, ptr: map<int, int>, p: int, bp: int)
    requires p in ptr && p in size && bp in size && p != bp && size[bp] > 0
    requires bp + size[bp] == ptr[p] ==> ptr[p] in size && ptr[p] in ptr && ptr[p] != p
    ensures var nx := ptr[p]; var q0 := ptr[bp := nx][p := bp];
      && (bp + size[bp] == nx ==> nx in q0)
      && var q1 := if bp + size[bp] == nx then q0[bp := q0[nx]] else q0;
         var size1 := if bp + size[bp] == nx then size[bp := size[bp] + size[nx]] else size;
         FreedHeaders(size, ptr, p, bp) ==
         if p + size1[p] == bp then (size1[p := size1[p] + size1[bp]], q1[p := q1[bp]]) else (size1, q1)
  {
    var nx := ptr[p];
    var q0 := ptr[bp := nx][p := bp];
    var q1 := if bp + size[bp] == nx then q0[bp := q0[nx]] else q0;
    var ptr1 := if bp + size[bp] == nx then ptr[bp := ptr[nx]] else ptr[bp := nx];
    assert q1 == ptr1[p := bp];
    assert q1[p := q1[bp]] == ptr1[p := ptr1[bp]];
  }

  /** Live blocks other than bp keep their headers. */
  lemma FreeKeepsLive(h: Heap, base: int, brk: int, ptr: map<int, int>, j: int, bp: int)
    requires Valid(h, base, brk) && bp in h.live && Gap(h.ring, j, bp) && Linked(h.ring, ptr)
    ensures var r := Freed(h, base, brk, j, bp);
      forall a :: a in h.live && a != bp ==> a in r.size && a in h.size && r.size[a] == h.size[a]
  {
    hide SizesOk, Coalesced, Total, Insert, Remove, Sorted, Linked, Freed;
    FreeCode(h, base, brk, ptr, j, bp);
    assert h.ring[j] in h.ring;
    assert forall a :: a in h.live ==> a in Blocks(h);
  }

  /** A freed block of n units, or one it is joined with, has at least n units. */
  lemma FreeMakesRoom(h: Heap, base: int, brk: int, ptr: map<int, int>, j: int, bp: int) returns (big: int)
    requires Valid(h, base, brk) && bp in h.live && Gap(h.ring, j, bp) && Linked(h.ring, ptr)
    ensures var r := Freed(h, base, brk, j, bp);
      big in r.ring && big in r.size && bp in h.size && r.size[big] >= h.size[bp]
  {
    hide Coalesced, Total, Insert, Remove, Sorted, Linked, Apart, Freed;
    FreeCode(h, base, brk, ptr, j, bp);
    FreePre(h, base, brk, ptr, j, bp);
    var r, p, c := Freed(h, base, brk, j, bp), h.ring[j], FreedHeaders(h.size, ptr, h.ring[j], bp);
    NextInRing(r.ring, c.1, p);
    assert p in Blocks(h) && bp in Blocks(h) && (ptr[p] in h.ring ==> ptr[p] in Blocks(h));
    NextInRing(h.ring, ptr, p);
    var size1 := if bp + h.size[bp] == ptr[p] then h.size[bp := h.size[bp] + h.size[ptr[p]]] else h.size;
    big := if p + size1[p] == bp then p else bp;
  }

  lemma NextInRing(ring: seq<int>, q: map<int, int>, a: int)
    requires Linked(ring, q) && a in ring
    ensures a in q && q[a] in ring
  {
    var i :| 0 <= i < |ring| && ring[i] == a;
    assert ring[if i == |ring| - 1 then 0 else i + 1] in ring;
  }

  lemma RingAbove(h: Heap, base: int, brk: int, a: int)
    requires Valid(h, base, brk) && a in h.ring
    ensures a >= base && a in h.size
  {
    assert a in Blocks(h);
  }

  lemma LiveSized(h: Heap, base: int, brk: int)
    requires Valid(h, base, brk)
    ensures forall a :: a in h.live ==> a in h.size
  {
    assert forall a :: a in h.live ==> a in Blocks(h);
  }
}
