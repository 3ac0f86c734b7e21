/**
 The buffer list of kernel/bio.c: a doubly linked ring through prev/next with a sentinel,
 most recently used first, relinked in place.  Pointers are indices into the static array of
 buffers; the sentinel `bcache.head` has the last index.
 */
module BioRing {

  datatype Buf = Buf(dev: nat, blockno: nat, valid: bool, refcnt: nat, prev: int, next: int)

  /** b caches the block. */
  predicate Holds(b: Buf, dev: nat, blockno: nat) {
    b.dev == dev && b.blockno == blockno
  }

  /** Each cached block of a device other than 0 has one buffer (at boot every buffer is block 0 of device 0). */
  ghost predicate OneBufferPerBlock(bufs: seq<Buf>) {
    forall i, j :: 0 <= i < j < |bufs| && bufs[i].dev != 0 ==> !Holds(bufs[i], bufs[j].dev, bufs[j].blockno)
  }

  /** Everything but the links. */
  ghost predicate SameData(a: Buf, b: Buf) {
    a.dev == b.dev && a.blockno == b.blockno && a.valid == b.valid && a.refcnt == b.refcnt
  }

  // ----- The ring, as values

  /** ns runs once round the ring, from the sentinel back to it. */
  ghost predicate Linked(bufs: seq<Buf>, ns: seq<int>) {
    && |ns| > 1 && ns[0] == ns[|ns| - 1]
    && (forall i, j :: 0 < i < j < |ns| ==> ns[i] != ns[j])
    && (forall i :: 0 <= i < |ns| ==> 0 <= ns[i] < |bufs|)
    && (forall i {:trigger bufs[ns[i]].next} :: 0 <= i < |ns| - 1 ==> bufs[ns[i]].next == ns[i + 1])
    && (forall i {:trigger bufs[ns[i]].prev} :: 0 < i < |ns| ==> bufs[ns[i]].prev == ns[i - 1])
  }

  ghost function Without(ns: seq<int>, k: nat): (r: seq<int>)
    requires 0 < k < |ns|
  {
    ns[..k] + ns[k + 1..]
  }

  /** b comes right after the sentinel. */
  ghost function InFront(ns: seq<int>, b: int): (r: seq<int>)
    requires |ns| > 0
  {
    [ns[0], b] + ns[1..]
  }

  lemma LinkFrontLinks(bs: seq<Buf>, ns: seq<int>, b: int, cs: seq<Buf>)
    requires Linked(bs, ns) && b !in ns && 0 <= b < |bs|
    requires var h := ns[0]; var first := ns[1];
      cs == (var c1 := bs[b := bs[b].(next := first, prev := h)];
             var c2 := c1[first := c1[first].(prev := b)];
             c2[h := c2[h].(next := b)])
    ensures Linked(cs, InFront(ns, b))
  {
    var ms := InFront(ns, b);
    forall i | 0 <= i < |ms| - 1 ensures cs[ms[i]].next == ms[i + 1] {
      if i >= 2 {
        assert ms[i] == ns[i - 1] && bs[ns[i - 1]].next == ns[i] && ns[i - 1] != ns[|ns| - 1];
      }
    }
    forall i | 0 < i < |ms| ensures cs[ms[i]].prev == ms[i - 1] {
      if i >= 3 {
        assert ms[i] == ns[i - 1] && bs[ns[i - 1]].prev == ns[i - 2] && ns[i - 1] != ns[1];
      }
    }
  }

  lemma UnlinkLinks(bs: seq<Buf>, ns: seq<int>, k: nat, cs: seq<Buf>)
    requires Linked(bs, ns) && 0 < k < |ns| - 1
    requires cs == (var c1 := bs[ns[k + 1] := bs[ns[k + 1]].(prev := ns[k - 1])];
                    c1[ns[k - 1] := c1[ns[k - 1]].(next := ns[k + 1])])
    ensures Linked(cs, Without(ns, k)) && ns[k] !in Without(ns, k)
  {
    UnlinkedNexts(bs, ns, k, cs);
    UnlinkedPrevs(bs, ns, k, cs);
    StillApart(bs, ns, k);
    hide Without;
  }

  lemma StillApart(bs: seq<Buf>, ns: seq<int>, k: nat)
    requires Linked(bs, ns) && 0 < k < |ns| - 1
    ensures var ms := Without(ns, k);
      && |ms| == |ns| - 1 && ms[0] == ns[0] && ms[|ms| - 1] == ns[|ns| - 1] && ns[k] !in ms
      && (forall i, j :: 0 < i < j < |ms| ==> ms[i] != ms[j]) && forall i :: 0 <= i < |ms| ==> 0 <= ms[i] < |bs|
  {
    var ms := Without(ns, k);
    forall i | 0 <= i < |ms| ensures ms[i] == ns[if i < k then i else i + 1] {}
  }

  lemma UnlinkedPrevs(bs: seq<Buf>, ns: seq<int>, k: nat, cs: seq<Buf>)
    requires Linked(bs, ns) && 0 < k < |ns| - 1
    requires cs == (var c1 := bs[ns[k + 1] := bs[ns[k + 1]].(prev := ns[k - 1])];
                    c1[ns[k - 1] := c1[ns[k - 1]].(next := ns[k + 1])])
    ensures var ms := Without(ns, k); forall i :: 0 < i < |ms| ==> cs[ms[i]].prev == ms[i - 1]
  {
    var ms := Without(ns, k);
    forall i | 0 < i < |ms| ensures cs[ms[i]].prev == ms[i - 1] {
      UnlinkPrev(bs, ns, k, if i < k then i else i + 1);
    }
  }

  lemma UnlinkedNexts(bs: seq<Buf>, ns: seq<int>, k: nat, cs: seq<Buf>)
    requires Linked(bs, ns) && 0 < k < |ns| - 1
    requires cs == (var c1 := bs[ns[k + 1] := bs[ns[k + 1]].(prev := ns[k - 1])];
                    c1[ns[k - 1] := c1[ns[k - 1]].(next := ns[k + 1])])
    ensures var ms := Without(ns, k); forall i :: 0 <= i < |ms| - 1 ==> cs[ms[i]].next == ms[i + 1]
  {
    var ms := Without(ns, k);
    forall i | 0 <= i < |ms| - 1 ensures cs[ms[i]].next == ms[i + 1] {
      UnlinkNext(bs, ns, k, if i < k then i else i + 1);
    }
  }

  lemma UnlinkNext(bs: seq<Buf>, ns: seq<int>, k: nat, o: nat)
    requires Linked(bs, ns) && 0 < k < |ns| - 1 && o < |ns| - 1 && o != k
    ensures bs[ns[o]].next == ns[o + 1]
    ensures ns[o] == ns[k - 1] <==> o == k - 1
  {
    if o == 0 { assert ns[o] == ns[|ns| - 1]; }
    if k == 1 { assert ns[k - 1] == ns[|ns| - 1]; }
  }

  lemma UnlinkPrev(bs: seq<Buf>, ns: seq<int>, k: nat, o: nat)
    requires Linked(bs, ns) && 0 < k < |ns| - 1 && 0 < o < |ns| && o != k
    ensures bs[ns[o]].prev == ns[o - 1]
    ensures ns[o] == ns[k + 1] <==> o == k + 1
  {
  }

  /** A ring through n numbers below n misses none. */
  lemma OnRing(bs: seq<Buf>, ns: seq<int>, i: int) returns (k: int)
    requires Linked(bs, ns) && |ns| == |bs| + 1 && 0 <= i < |bs|
    ensures 0 < k < |ns| && ns[k] == i
  {
    var s, all := Elements(ns, |ns|), Interval(|bs|);
    assert all == s + (all - s);
    assert i in s;
    k :| 0 < k < |ns| && ns[k] == i;
  }

  ghost function Elements(ns: seq<int>, n: nat): (s: set<int>)
    requires 0 < n <= |ns| && forall i, j :: 0 < i < j < n ==> ns[i] != ns[j]
    ensures |s| == n - 1
    ensures forall x :: x in s <==> exists i :: 0 < i < n && ns[i] == x
  {
    if n == 1 then {} else Elements(ns, n - 1) + {ns[n - 1]}
  }

  ghost function Interval(n: nat): (s: set<int>)
    ensures |s| == n && forall x :: x in s <==> 0 <= x < n
  {
    if n == 0 then {} else Interval(n - 1) + {n - 1}
  }

  lemma SameLinks(bs: seq<Buf>, cs: seq<Buf>, ns: seq<int>)
    requires Linked(bs, ns) && |cs| == |bs|
    requires forall i :: 0 <= i < |bs| ==> cs[i].next == bs[i].next && cs[i].prev == bs[i].prev
    ensures Linked(cs, ns)
  {
    forall i | 0 <= i < |ns| - 1 ensures cs[ns[i]].next == ns[i + 1] {
      assert bs[ns[i]].next == ns[i + 1];
    }
    forall i | 0 < i < |ns| ensures cs[ns[i]].prev == ns[i - 1] {
      assert bs[ns[i]].prev == ns[i - 1];
    }
  }

  lemma RingNext(bs: seq<Buf>, ns: seq<int>, k: int)
    requires Linked(bs, ns) && 0 <= k < |ns| - 1
    ensures 0 <= ns[k] < |bs| && 0 <= ns[k + 1] < |bs| && bs[ns[k]].next == ns[k + 1]
    ensures 0 < k ==> ns[k] != ns[|ns| - 1]
  {
  }

  lemma RingPrev(bs: seq<Buf>, ns: seq<int>, k: int)
    requires Linked(bs, ns) && 0 < k < |ns|
    ensures 0 <= ns[k] < |bs| && 0 <= ns[k - 1] < |bs| && bs[ns[k]].prev == ns[k - 1]
  {
  }

  /** The sentinel is met only at the ends. */
  lemma NotSentinel(bs: seq<Buf>, ns: seq<int>, k: int, j: int)
    requires Linked(bs, ns) && 0 < k < |ns| && 0 < j < |ns| && ns[k] == ns[0] && ns[j] != ns[0]
    ensures k == |ns| - 1 && 0 < j < k
  {
  }

  lemma RingEnds(bs: seq<Buf>, ns: seq<int>)
    requires Linked(bs, ns)
    ensures |ns| > 1 && ns[0] == ns[|ns| - 1]
  {
  }

  // ----- The cache

  /** The sentinel, b buffers below b, the sentinel. */
  ghost predicate RingOf(ns: seq<int>, n: int, b: int) {
    0 <= b <= n && |ns| == b + 2 && ns[0] == ns[b + 1] == n && forall i :: 0 <= i < |ns| ==> ns[i] < b || ns[i] == n
  }

  lemma FirstRing(bs: seq<Buf>, n: int)
    requires 0 <= n && |bs| == n + 1 && bs[n].next == bs[n].prev == n
    ensures Linked(bs, [n, n]) && RingOf([n, n], n, 0)
  {
  }

  lemma NextRing(ns: seq<int>, n: int, b: int)
    requires 0 <= b < n && RingOf(ns, n, b)
    ensures b !in ns && RingOf(InFront(ns, b), n, b + 1)
  {
    var ms := InFront(ns, b);
    assert forall i :: 2 <= i < |ms| ==> ms[i] == ns[i - 1];
  }

  class BCache {
    const nbuf: nat
    const bufs: array<Buf>
    ghost var ring: seq<int>  // the sentinel, the buffers from head.next on, the sentinel again

    ghost predicate Valid()
      reads this, bufs
    {
      && bufs.Length == nbuf + 1 && |ring| == nbuf + 2 && ring[0] == nbuf
      && Linked(bufs[..], ring)
    }

    /** The buffers themselves, without the sentinel. */
    ghost function Buffers(): (bs: seq<Buf>)
      requires bufs.Length == nbuf + 1
      reads this, bufs
    {
      bufs[..nbuf]
    }

    method LinkFront(b: int, ghost ns: seq<int>)
      requires bufs.Length == nbuf + 1 && Linked(bufs[..], ns) && ns[0] == nbuf && 0 <= b < nbuf && b !in ns
      modifies bufs
      ensures Linked(bufs[..], InFront(ns, b))
      ensures forall i :: 0 <= i <= nbuf ==> SameData(bufs[i], old(bufs[i]))
    {
      ghost var bs := bufs[..];
      assert bs[ns[0]].next == ns[1];
      var first := bufs[nbuf].next;
      bufs[b] := bufs[b].(next := first, prev := nbuf);
      bufs[first] := bufs[first].(prev := b);
      bufs[nbuf] := bufs[nbuf].(next := b);
      LinkFrontLinks(bs, ns, b, bufs[..]);
    }

    method Unlink(b: int, ghost k: nat)
      requires Valid() && 0 < k <= nbuf && ring[k] == b
      modifies bufs
      ensures Linked(bufs[..], Without(ring, k)) && b !in Without(ring, k)
      ensures forall i :: 0 <= i <= nbuf ==> SameData(bufs[i], old(bufs[i]))
    {
      hide Linked;
      ghost var bs := bufs[..];
      RingNext(bs, ring, k);
      RingPrev(bs, ring, k);
      var nx, pv := bufs[b].next, bufs[b].prev;
      bufs[nx] := bufs[nx].(prev := pv);
      bufs[pv] := bufs[pv].(next := nx);
      UnlinkLinks(bs, ring, k, bufs[..]);
    }

    /** binit: every buffer linked in front of the previous ones. */
    constructor (nbuf: nat)
      ensures Valid() && this.nbuf == nbuf && fresh(bufs)
      ensures forall i :: 0 <= i < nbuf ==> SameData(bufs[i], Buf(0, 0, false, 0, 0, 0))
      ensures OneBufferPerBlock(Buffers())
    {
      hide Linked, InFront;
      this.nbuf := nbuf;
      bufs := new Buf[nbuf + 1](_ => Buf(0, 0, false, 0, nbuf, nbuf));
      ring := [nbuf, nbuf];
      new;
      var b := 0;
      FirstRing(bufs[..], nbuf);
      while b < nbuf
        invariant 0 <= b <= nbuf && Linked(bufs[..], ring) && RingOf(ring, nbuf, b)
        invariant forall i :: 0 <= i < nbuf ==> SameData(bufs[i], Buf(0, 0, false, 0, 0, 0))
      {
        NextRing(ring, nbuf, b);
        LinkFront(b, ring);
        ring := InFront(ring, b);
        b := b + 1;
      }
    }

    /** The first loop of bget: a buffer that caches the block. */
    method FindCached(dev: nat, blockno: nat) returns (r: int, ghost k: int)
      requires Valid()
      ensures -1 <= r < nbuf
      ensures r >= 0 ==> 0 < k <= nbuf && ring[k] == r && Holds(bufs[r], dev, blockno)
      ensures r == -1 ==> forall i :: 0 <= i < nbuf ==> !Holds(bufs[i], dev, blockno)
    {
      hide Linked;
      ghost var bs := bufs[..];
      RingEnds(bs, ring);
      RingNext(bs, ring, 0);
      var b := bufs[nbuf].next;
      k := 1;
      while b != nbuf
        invariant 0 < k <= nbuf + 1 && b == ring[k]
        invariant forall j :: 0 < j < k ==> 0 <= ring[j] <= nbuf && !Holds(bs[ring[j]], dev, blockno)
        decreases nbuf + 1 - k
      {
        RingNext(bs, ring, k);
        if bufs[b].dev == dev && bufs[b].blockno == blockno {
          return b, k;
        }
        b := bufs[b].next;
        k := k + 1;
      }
      forall i | 0 <= i < nbuf ensures !Holds(bs[i], dev, blockno) {
        var j := OnRing(bs, ring, i);
        NotSentinel(bs, ring, k, j);
      }
      r := -1;
    }

    /** The second loop of bget: the least recently used buffer nobody refers to. */
    method FindUnused() returns (r: int, ghost k: int)
      requires Valid()
      ensures -1 <= r < nbuf
      ensures r >= 0 ==> 0 < k <= nbuf && ring[k] == r && bufs[r].refcnt == 0
      ensures r >= 0 ==> forall j :: k < j <= nbuf ==> bufs[ring[j]].refcnt > 0
      ensures r == -1 ==> forall i :: 0 <= i < nbuf ==> bufs[i].refcnt > 0
    {
      hide Linked;
      ghost var bs := bufs[..];
      RingEnds(bs, ring);
      RingPrev(bs, ring, nbuf + 1);
      var b := bufs[nbuf].prev;
      k := nbuf;
      while b != nbuf
        invariant 0 <= k <= nbuf && b == ring[k]
        invariant forall j :: k < j <= nbuf ==> 0 <= ring[j] <= nbuf && bs[ring[j]].refcnt > 0
        decreases k
      {
        RingPrev(bs, ring, k);
        if bufs[b].refcnt == 0 {
          return b, k;
        }
        b := bufs[b].prev;
        k := k - 1;
      }
      forall i | 0 <= i < nbuf ensures bs[i].refcnt > 0 {
        var j := OnRing(bs, ring, i);
        NotSentinel(bs, ring, if k == 0 then nbuf + 1 else k, j);
      }
      r := -1;
    }

    /** bget up to its acquiresleep: the buffer that caches the block, or else the least recently
        used buffer nobody refers to, recycled; -1 is the panic when there is none. */
    method Bget(dev: nat, blockno: nat) returns (r: int, ghost k: int)
      requires Valid()
      modifies bufs
      ensures Valid()
      ensures old(OneBufferPerBlock(Buffers())) ==> OneBufferPerBlock(Buffers())
      ensures -1 <= r < nbuf
      ensures forall i :: 0 <= i <= nbuf && i != r ==> bufs[i] == old(bufs[i])
      ensures r >= 0 ==> 0 < k <= nbuf && ring[k] == r
      ensures r >= 0 ==> Holds(bufs[r], dev, blockno) && bufs[r].refcnt == old(bufs[r].refcnt) + 1
      ensures (exists i :: 0 <= i < nbuf && Holds(old(bufs[i]), dev, blockno)) ==>
                r >= 0 && Holds(old(bufs[r]), dev, blockno) && bufs[r].valid == old(bufs[r].valid)
      ensures (forall i :: 0 <= i < nbuf ==> !Holds(old(bufs[i]), dev, blockno)) && r >= 0 ==>
                && old(bufs[r].refcnt) == 0 && !bufs[r].valid
                && (forall j :: k < j <= nbuf ==> old(bufs[ring[j]].refcnt) > 0)
      ensures r == -1 ==> forall i :: 0 <= i < nbuf ==> !Holds(old(bufs[i]), dev, blockno) && old(bufs[i].refcnt) > 0
    {
      hide Linked;
      ghost var bs := bufs[..];
      r, k := FindCached(dev, blockno);
      if r >= 0 {
        bufs[r] := bufs[r].(refcnt := bufs[r].refcnt + 1);
      } else {
        r, k := FindUnused();
        if r >= 0 {
          bufs[r] := bufs[r].(dev := dev, blockno := blockno, valid := false, refcnt := 1);
        }
      }
      SameLinks(bs, bufs[..], ring);
    }

    /** brelse after its releasesleep: the last reference moves the buffer to the front. */
    method Brelse(b: int, ghost k: nat)
      requires Valid() && 0 < k <= nbuf && ring[k] == b && bufs[b].refcnt > 0
      modifies this`ring, bufs
      ensures Valid()
      ensures ring == (if old(bufs[b].refcnt) == 1 then InFront(Without(old(ring), k), b) else old(ring))
      ensures forall i :: 0 <= i <= nbuf && i != b ==> SameData(bufs[i], old(bufs[i]))
      ensures SameData(bufs[b], old(bufs[b]).(refcnt := old(bufs[b].refcnt) - 1))
    {
      hide Linked;
      ghost var bs := bufs[..];
      RingNext(bs, ring, k);
      bufs[b] := bufs[b].(refcnt := bufs[b].refcnt - 1);
      SameLinks(bs, bufs[..], ring);
      if bufs[b].refcnt == 0 {
        Unlink(b, k);
        LinkFront(b, Without(ring, k));
        ring := InFront(Without(ring, k), b);
      }
    }
  }
}
