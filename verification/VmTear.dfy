/**
 Freeing a whole page table (freewalk in kernel/vm.c): the pages of a subtree by their places.
 */
module VmTear {
  import opened VmSpec

  /** The place of level l above p, p itself included. */
  function UpTo(p: Pos, l: int): int {
    if p.l >= l then p.q else if p.l + 1 == l then p.q / NENT else p.q / NENT / NENT
  }

  /** p lies in one of the subtrees lo..hi of level l of tree r. */
  ghost predicate Within(p: Pos, r: int, l: int, lo: int, hi: int) {
    p.r == r && 0 <= p.l <= l && lo <= UpTo(p, l) < hi
  }

  /** The places outside those subtrees. */
  ghost function Cut(at: map<Pos, int>, r: int, l: int, lo: int, hi: int): (o: map<Pos, int>)
    ensures forall p :: p in o <==> p in at && !Within(p, r, l, lo, hi)
    ensures forall p :: p in o ==> o[p] == at[p]
  {
    map p | p in at && !Within(p, r, l, lo, hi) :: at[p]
  }

  ghost function CutOwner(own: map<int, Own>, r: int, l: int, lo: int, hi: int): (o: map<int, Own>)
    ensures forall a :: a in o <==> a in own && !(own[a].Table? && Within(own[a].p, r, l, lo, hi))
    ensures forall a :: a in o ==> o[a] == own[a]
  {
    map a | a in own && !(own[a].Table? && Within(own[a].p, r, l, lo, hi)) :: own[a]
  }

  /** A leaf has a permission bit; an entry above leads to a table and has none. */
  ghost predicate ChildOk(m: Mem, p: Pos, e: int, x: int) {
    if p.l == 0 then IsValid(x) ==> HasPerm(x)
    else
      && (IsValid(x) <==> Below(p, e) in m.at)
      && (Below(p, e) in m.at ==> PteAddr(x) == m.at[Below(p, e)] && !HasPerm(x))
  }

  ghost predicate Intact(m: Mem, p: Pos)
    requires p in m.at
  {
    && InTree(p) && m.at[p] in m.t && |m.t[m.at[p]]| == NENT
    && forall e :: 0 <= e < NENT ==> ChildOk(m, p, e, m.t[m.at[p]][e])
  }

  /** The subtree of p is whole, and its tables below p are all reached from p. */
  ghost predicate Sub(m: Mem, p: Pos) {
    && p in m.at && 0 <= p.l <= 2
    && (forall c :: c in m.at && Within(c, p.r, p.l, p.q, p.q + 1) ==> Intact(m, c))
    && (forall c :: c in m.at && Within(c, p.r, p.l, p.q, p.q + 1) && c.l < p.l ==> Above(c) in m.at)
    && Placed(m)
  }

  /** Places and table pages correspond one to one. */
  ghost predicate Placed(m: Mem) {
    && (forall c :: c in m.at ==> m.at[c] in m.owner && m.owner[m.at[c]] == Table(c))
    && (forall a :: a in m.owner && m.owner[a].Table? ==> m.owner[a].p in m.at && m.at[m.owner[a].p] == a)
  }

  ghost predicate NoLeafIn(m: Mem, c: Pos, i: int)
    requires c in m.at
  {
    m.at[c] in m.t && forall e :: 0 <= e < i && e < |m.t[m.at[c]]| ==> !IsValid(m.t[m.at[c]][e])
  }

  /** No leaf in those subtrees is valid. */
  ghost predicate Leafless(m: Mem, r: int, l: int, lo: int, hi: int) {
    forall c :: c in m.at && c.l == 0 && Within(c, r, l, lo, hi) ==> NoLeafIn(m, c, NENT)
  }

  lemma WithinBelow(c: Pos, p: Pos, e: int)
    requires 1 <= p.l <= 2 && 0 <= e < NENT
    ensures Within(c, p.r, p.l - 1, p.q * NENT + e, p.q * NENT + e + 1) ==> Within(c, p.r, p.l, p.q, p.q + 1)
  {
    if Within(c, p.r, p.l - 1, p.q * NENT + e, p.q * NENT + e + 1) {
      assert UpTo(c, p.l - 1) == p.q * NENT + e;
      assert (p.q * NENT + e) / NENT == p.q;
      assert UpTo(c, p.l) == UpTo(c, p.l - 1) / NENT;
    }
  }

  /** The subtree of p without p is the subtrees of its children. */
  lemma WithinChildren(c: Pos, p: Pos)
    requires 0 <= p.l <= 2
    ensures Within(c, p.r, p.l, p.q, p.q + 1) <==> c == p || Within(c, p.r, p.l - 1, p.q * NENT, p.q * NENT + NENT)
  {
    if 0 <= c.l < p.l {
      assert UpTo(c, p.l) == UpTo(c, p.l - 1) / NENT;
    }
  }

  /** A table below the child e is reached through it. */
  lemma BelowPresent(m: Mem, p: Pos, e: int, c: Pos)
    requires Sub(m, p) && 1 <= p.l && 0 <= e < NENT && c in m.at
    ensures Within(c, p.r, p.l - 1, p.q * NENT + e, p.q * NENT + e + 1) ==> Below(p, e) in m.at
  {
    hide Intact;
    WithinBelow(c, p, e);
    if Within(c, p.r, p.l - 1, p.q * NENT + e, p.q * NENT + e + 1) {
      if c.l == p.l - 1 {
        assert c == Below(p, e);
      } else {
        assert Above(c) == Below(p, e);
      }
    }
  }

  /** What freewalk has left of the machine after entries 0..i of the table at p. */
  ghost predicate Torn(m: Mem, n: Mem, p: Pos, i: int)
    requires p in m.at
  {
    && n.roots == m.roots
    && n.at == Cut(m.at, p.r, p.l - 1, p.q * NENT, p.q * NENT + i)
    && n.owner == CutOwner(m.owner, p.r, p.l - 1, p.q * NENT, p.q * NENT + i)
    && (forall c :: c in n.at && c != p && m.at[c] in m.t ==> m.at[c] in n.t && n.t[m.at[c]] == m.t[m.at[c]])
    && TailKept(m, n, p, i)
  }

  ghost predicate TailKept(m: Mem, n: Mem, p: Pos, i: int)
    requires p in m.at
  {
    var a := m.at[p];
    && a in m.t && a in n.t && |n.t[a]| == |m.t[a]| == NENT
    && forall e :: i <= e < NENT && 0 <= e ==> n.t[a][e] == m.t[a][e]
  }

  /** What a call of freewalk on the table at p leaves. */
  ghost predicate Gone(m: Mem, n: Mem, p: Pos) {
    && n.roots == m.roots
    && n.at == Cut(m.at, p.r, p.l, p.q, p.q + 1)
    && n.owner == CutOwner(m.owner, p.r, p.l, p.q, p.q + 1)
    && (forall c :: c in n.at && m.at[c] in m.t ==> m.at[c] in n.t && n.t[m.at[c]] == m.t[m.at[c]])
  }

  lemma SubIntact(m: Mem, p: Pos)
    requires Sub(m, p)
    ensures Intact(m, p)
  {
    assert Within(p, p.r, p.l, p.q, p.q + 1);
  }

  lemma TornStarts(m: Mem, p: Pos)
    requires Sub(m, p)
    ensures p in m.at && Placed(m) && Torn(m, m, p, 0) && Leafless(m, p.r, p.l - 1, p.q * NENT, p.q * NENT)
      && (p.l == 0 ==> NoLeafIn(m, p, 0))
  {
    SubIntact(m, p);
    hide Intact;
  }

  /** The next entry of the table at p, still as it was. */
  lemma NextEntry(m: Mem, n: Mem, p: Pos, i: int)
    requires Sub(m, p) && Torn(m, n, p, i) && 0 <= i < NENT
    ensures p in n.at && n.at[p] == m.at[p] && m.at[p] in n.t && |n.t[m.at[p]]| == NENT
    ensures ChildOk(m, p, i, n.t[m.at[p]][i]) && m.at[p] in m.t && |m.t[m.at[p]]| == NENT
      && n.t[m.at[p]][i] == m.t[m.at[p]][i]
  {
    SubIntact(m, p);
    hide Sub, ChildOk;
  }

  lemma SkipWithin(m: Mem, p: Pos, i: int, c: Pos)
    requires Sub(m, p) && 0 <= i < NENT && (p.l > 0 ==> Below(p, i) !in m.at) && c in m.at
    ensures Within(c, p.r, p.l - 1, p.q * NENT, p.q * NENT + i) <==>
              Within(c, p.r, p.l - 1, p.q * NENT, p.q * NENT + i + 1)
  {
    if p.l > 0 {
      BelowPresent(m, p, i, c);
    }
    hide Sub, UpTo, Below;
  }

  lemma TornSkip(m: Mem, n: Mem, p: Pos, i: int)
    requires Sub(m, p) && Torn(m, n, p, i) && 0 <= i < NENT && (p.l > 0 ==> Below(p, i) !in m.at)
    requires Leafless(m, p.r, p.l - 1, p.q * NENT, p.q * NENT + i)
    ensures Torn(m, n, p, i + 1) && Leafless(m, p.r, p.l - 1, p.q * NENT, p.q * NENT + i + 1)
  {
    hide Intact, Within, NoLeafIn, TailKept, Below, Placed;
    forall c | c in m.at
      ensures Within(c, p.r, p.l - 1, p.q * NENT, p.q * NENT + i) <==>
                Within(c, p.r, p.l - 1, p.q * NENT, p.q * NENT + i + 1)
    {
      SkipWithin(m, p, i, c);
    }
    SameCut(m, p.r, p.l - 1, p.q * NENT, p.q * NENT + i, p.q * NENT + i + 1);
    TailShorter(m, n, p, i);
  }

  lemma TailShorter(m: Mem, n: Mem, p: Pos, i: int)
    requires p in m.at && TailKept(m, n, p, i)
    ensures TailKept(m, n, p, i + 1)
  {
  }

  lemma SameCut(m: Mem, r: int, l: int, lo: int, hi: int, hi': int)
    requires Placed(m) && forall c :: c in m.at ==> (Within(c, r, l, lo, hi) <==> Within(c, r, l, lo, hi'))
    ensures Cut(m.at, r, l, lo, hi) == Cut(m.at, r, l, lo, hi')
      && CutOwner(m.owner, r, l, lo, hi) == CutOwner(m.owner, r, l, lo, hi')
  {
    hide Within;
    assert forall a :: a in m.owner && m.owner[a].Table? ==> m.owner[a].p in m.at;
  }

  lemma PlacedCut(m: Mem, n: Mem, r: int, l: int, lo: int, hi: int)
    requires Placed(m) && n.at == Cut(m.at, r, l, lo, hi) && n.owner == CutOwner(m.owner, r, l, lo, hi)
    ensures Placed(n)
  {
    hide Within;
  }

  /** The subtree of the next child is still whole. */
  lemma SubChild(m: Mem, n: Mem, p: Pos, i: int)
    requires Sub(m, p) && Torn(m, n, p, i) && 0 <= i < NENT && p.l > 0 && Below(p, i) in m.at
    ensures Sub(n, Below(p, i))
  {
    hide Within, Intact, Placed, TailKept, Above, UpTo, InTree;
    var k := Below(p, i);
    ItselfWithin(k);
    forall c | c in m.at && Within(c, k.r, k.l, k.q, k.q + 1)
      ensures c in n.at && Intact(n, c) && (c.l < k.l ==> Above(c) in n.at)
    {
      SubChildAt(m, n, p, i, c);
    }
    PlacedCut(m, n, p.r, p.l - 1, p.q * NENT, p.q * NENT + i);
  }

  lemma ItselfWithin(k: Pos)
    ensures 0 <= k.l ==> Within(k, k.r, k.l, k.q, k.q + 1)
  {
  }

  lemma SubChildLeaves(m: Mem, n: Mem, p: Pos, i: int)
    requires Sub(m, p) && Torn(m, n, p, i) && 0 <= i < NENT && p.l > 0 && Below(p, i) in m.at
    ensures var k := Below(p, i); Leafless(n, k.r, k.l, k.q, k.q + 1) <==> Leafless(m, k.r, k.l, k.q, k.q + 1)
  {
    hide Within, Intact, Placed, TailKept, Above, UpTo, InTree;
    var k := Below(p, i);
    forall c | c in m.at && Within(c, k.r, k.l, k.q, k.q + 1)
      ensures c in n.at && (NoLeafIn(n, c, NENT) <==> NoLeafIn(m, c, NENT))
    {
      SubChildAt(m, n, p, i, c);
    }
  }

  lemma SubChildAt(m: Mem, n: Mem, p: Pos, i: int, c: Pos)
    requires Sub(m, p) && Torn(m, n, p, i) && 0 <= i < NENT && p.l > 0 && c in m.at
    requires Within(c, p.r, p.l - 1, p.q * NENT + i, p.q * NENT + i + 1)
    ensures c in n.at && m.at[c] in m.t && m.at[c] in n.t && Intact(n, c) && n.at[c] == m.at[c]
      && n.t[n.at[c]] == m.t[m.at[c]] && (c.l < p.l - 1 ==> Above(c) in n.at)
  {
    WithinBelow(c, p, i);
    assert Intact(m, c);
    if c.l < p.l - 1 {
      assert UpTo(Above(c), p.l - 1) == UpTo(c, p.l - 1);
    }
    hide Placed, TailKept, PteAddr, IsValid, HasPerm;
    forall e | 0 <= e < NENT ensures ChildOk(n, c, e, n.t[n.at[c]][e]) {
      assert ChildOk(m, c, e, m.t[m.at[c]][e]);
      if c.l > 0 {
        assert UpTo(Below(c, e), p.l - 1) == UpTo(c, p.l - 1);
      }
    }
  }

  /** The child's subtree is freed and the entry zeroed. */
  lemma TornNext(m: Mem, n: Mem, o: Mem, p: Pos, i: int)
    requires Placed(m) && p in m.at && Torn(m, n, p, i) && 0 <= i < NENT && p.l > 0 && Gone(n, o, Below(p, i))
    ensures m.at[p] in o.t && |o.t[m.at[p]]| == NENT
    ensures Torn(m, o.(t := o.t[m.at[p] := o.t[m.at[p]][i := 0]]), p, i + 1)
  {
    assert p in n.at && p in o.at;
    TornMaps(m, n, o, p, i);
    hide Cut, CutOwner, Within, Below;
    assert forall c :: c in o.at && c != p ==> m.at[c] != m.at[p];
  }

  lemma LeaflessNext(m: Mem, p: Pos, i: int)
    requires Leafless(m, p.r, p.l - 1, p.q * NENT, p.q * NENT + i)
      && Leafless(m, p.r, p.l - 1, p.q * NENT + i, p.q * NENT + i + 1)
    ensures Leafless(m, p.r, p.l - 1, p.q * NENT, p.q * NENT + i + 1)
  {
    hide UpTo, NoLeafIn;
  }

  lemma TornMaps(m: Mem, n: Mem, o: Mem, p: Pos, i: int)
    requires p in m.at && Torn(m, n, p, i) && 0 <= i < NENT && p.l > 0 && Gone(n, o, Below(p, i))
    ensures o.at == Cut(m.at, p.r, p.l - 1, p.q * NENT, p.q * NENT + i + 1)
    ensures o.owner == CutOwner(m.owner, p.r, p.l - 1, p.q * NENT, p.q * NENT + i + 1)
  {
  }

  lemma CutEnd(m: Mem, p: Pos)
    requires Placed(m) && p in m.at && 0 <= p.l <= 2
    ensures var lo, hi := p.q * NENT, p.q * NENT + NENT;
      && Cut(m.at, p.r, p.l, p.q, p.q + 1) == Cut(m.at, p.r, p.l - 1, lo, hi) - {p}
      && CutOwner(m.owner, p.r, p.l, p.q, p.q + 1) == CutOwner(m.owner, p.r, p.l - 1, lo, hi) - {m.at[p]}
      && p in Cut(m.at, p.r, p.l - 1, lo, hi) && m.at[p] in CutOwner(m.owner, p.r, p.l - 1, lo, hi)
  {
    var lo, hi := p.q * NENT, p.q * NENT + NENT;
    assert !Within(p, p.r, p.l - 1, lo, hi);
    forall c | c in m.at ensures Within(c, p.r, p.l, p.q, p.q + 1) <==> c == p || Within(c, p.r, p.l - 1, lo, hi) {
      WithinChildren(c, p);
    }
    hide Within;
    forall a | a in m.owner && m.owner[a].Table?
      ensures Within(m.owner[a].p, p.r, p.l, p.q, p.q + 1) <==>
                a == m.at[p] || Within(m.owner[a].p, p.r, p.l - 1, lo, hi)
    {
      assert m.owner[a].p in m.at;
    }
  }

  /** The table itself goes last. */
  lemma TornEnd(m: Mem, n: Mem, o: Mem, p: Pos)
    requires Sub(m, p) && Torn(m, n, p, NENT)
    requires o.t == n.t && o.roots == n.roots && o.at == n.at - {p} && o.owner == n.owner - {m.at[p]}
    ensures p in n.at && n.at[p] == m.at[p] && m.at[p] in n.owner && Gone(m, o, p)
  {
    hide Within, Intact, Placed, TailKept, Cut, CutOwner;
    CutEnd(m, p);
  }

  // ----- Whole trees

  lemma TreeSub(m: Mem, r: int)
    requires Tree(m) && r in m.roots
    ensures Sub(m, Pos(r, 2, 0)) && m.at[Pos(r, 2, 0)] == r
  {
    assert PosOk(m, Pos(r, 2, 0));
    forall c | c in m.at ensures Intact(m, c) && (c.l < 2 ==> Above(c) in m.at) {
      assert PosOk(m, c);
      forall e | 0 <= e < NENT ensures ChildOk(m, c, e, m.t[m.at[c]][e]) {
        assert EntryOk(m, c, e, m.t[m.at[c]][e]);
      }
    }
    hide Intact, PosOk;
    assert forall a :: a in m.owner && m.owner[a].Table? ==> OwnOk(m, a);
    assert forall c :: c in m.at ==> PosOk(m, c);
  }

  ghost predicate NoLeaves(m: Mem, r: int) {
    forall v :: !IsValid(Leaf(m, r, v))
  }

  lemma LeaflessTree(m: Mem, r: int)
    requires Tree(m) && r in m.roots
    ensures Leafless(m, r, 2, 0, 1) <==> NoLeaves(m, r)
  {
    if Leafless(m, r, 2, 0, 1) {
      forall v ensures !IsValid(Leaf(m, r, v)) {
        var c := Pos(r, 0, v / NENT);
        if c in m.at {
          assert PosOk(m, c);
          assert Within(c, r, 2, 0, 1);
          assert NoLeafIn(m, c, NENT);
        }
      }
    }
    if NoLeaves(m, r) {
      forall c | c in m.at && c.l == 0 && c.r == r ensures NoLeafIn(m, c, NENT) {
        assert PosOk(m, c);
        forall e | 0 <= e < NENT ensures !IsValid(m.t[m.at[c]][e]) {
          assert (c.q * NENT + e) / NENT == c.q && (c.q * NENT + e) % NENT == e;
          assert m.t[m.at[c]][e] == Leaf(m, r, c.q * NENT + e);
        }
      }
    }
  }

  lemma AllWithin(m: Mem, r: int, c: Pos)
    requires Tree(m) && c in m.at
    ensures Within(c, r, 2, 0, 1) <==> c.r == r
  {
    assert PosOk(m, c);
  }

  /** The machine without tree r. */
  ghost predicate TreeGone(m: Mem, o: Mem, r: int) {
    && o.roots == m.roots - {r}
    && (forall r', v :: Leaf(o, r', v) == if r' == r then 0 else Leaf(m, r', v))
    && (forall a :: a in o.owner <==> a in m.owner && !Of(m.owner[a], r))
    && (forall a :: a in o.owner ==> o.owner[a] == m.owner[a])
  }

  /** A page of tree r, for its tables or its user memory. */
  ghost predicate Of(o: Own, r: int) {
    (o.Table? && o.p.r == r) || (o.User? && o.r == r)
  }

  /** o is m without the tables of tree r. */
  ghost predicate Rest(m: Mem, o: Mem, r: int) {
    && o.roots == m.roots - {r}
    && (forall p :: p in o.at <==> p in m.at && p.r != r)
    && (forall p :: p in o.at ==>
          o.at[p] == m.at[p] && m.at[p] in m.t && m.at[p] in o.t && o.t[m.at[p]] == m.t[m.at[p]])
    && (forall a :: a in o.owner <==> a in m.owner && !(m.owner[a].Table? && m.owner[a].p.r == r))
    && (forall a :: a in o.owner ==> o.owner[a] == m.owner[a])
  }

  lemma GoneRest(m: Mem, n: Mem, r: int)
    requires Tree(m) && r in m.roots && Gone(m, n, Pos(r, 2, 0))
    ensures Rest(m, n.(roots := m.roots - {r}), r)
  {
    forall c | c in m.at ensures (Within(c, r, 2, 0, 1) <==> c.r == r) && m.at[c] in m.t {
      AllWithin(m, r, c);
      assert PosOk(m, c);
    }
    forall a | a in m.owner && m.owner[a].Table? ensures m.owner[a].p in m.at {
      assert OwnOk(m, a);
    }
    hide Within, Tree;
  }

  lemma TreeWithout(m: Mem, n: Mem, r: int)
    requires Tree(m) && r in m.roots && Gone(m, n, Pos(r, 2, 0)) && NoLeaves(m, r)
    ensures Tree(n.(roots := m.roots - {r})) && TreeGone(m, n.(roots := m.roots - {r}), r)
  {
    hide Gone, PosOk, Leaf;
    var o := n.(roots := m.roots - {r});
    GoneRest(m, n, r);
    forall c | c in o.at ensures PosOk(o, c) {
      KeptPos(m, o, r, c);
    }
    KeptLeaves(m, o, r);
    forall a | a in m.owner ensures !(m.owner[a].User? && m.owner[a].r == r) {
      assert OwnOk(m, a);
    }
    forall a | a in o.owner ensures OwnOk(o, a) {
      assert OwnOk(m, a);
    }
  }

  lemma KeptPos(m: Mem, o: Mem, r: int, c: Pos)
    requires Rest(m, o, r) && c in o.at && PosOk(m, c)
    requires forall p :: p in m.at ==> PosOk(m, p)
    ensures PosOk(o, c)
  {
    forall e | 0 <= e < NENT ensures EntryOk(o, c, e, o.t[o.at[c]][e]) {
      assert EntryOk(m, c, e, m.t[m.at[c]][e]);
    }
  }

  lemma KeptLeaves(m: Mem, o: Mem, r: int)
    requires Rest(m, o, r)
    ensures forall r', v :: Leaf(o, r', v) == if r' == r then 0 else Leaf(m, r', v)
  {
  }

  lemma LeaflessEnd(m: Mem, p: Pos)
    requires Sub(m, p) && Leafless(m, p.r, p.l - 1, p.q * NENT, p.q * NENT + NENT)
      && (p.l == 0 ==> NoLeafIn(m, p, NENT))
    ensures Leafless(m, p.r, p.l, p.q, p.q + 1)
  {
    forall c | c in m.at && c.l == 0 && Within(c, p.r, p.l, p.q, p.q + 1) ensures NoLeafIn(m, c, NENT) {
      WithinChildren(c, p);
    }
  }

  /** A leaf below p, found in the table itself or in a child's subtree. */
  lemma LeafFound(m: Mem, p: Pos, i: int)
    requires Sub(m, p) && 0 <= i < NENT
    requires if p.l == 0 then m.at[p] in m.t && |m.t[m.at[p]]| == NENT && IsValid(m.t[m.at[p]][i])
             else !Leafless(m, p.r, p.l - 1, p.q * NENT + i, p.q * NENT + i + 1)
    ensures !Leafless(m, p.r, p.l, p.q, p.q + 1)
  {
    if p.l == 0 {
      assert !NoLeafIn(m, p, NENT) && Within(p, p.r, p.l, p.q, p.q + 1);
    } else {
      var c :| c in m.at && c.l == 0 && Within(c, p.r, p.l - 1, p.q * NENT + i, p.q * NENT + i + 1)
        && !NoLeafIn(m, c, NENT);
      WithinBelow(c, p, i);
    }
  }
}
