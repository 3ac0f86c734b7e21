/**
 What each step of kernel/vm.c and kernel/kalloc.c does to the page tables, the owners of pages
 and the free list, on values.
 */
module VmSteps {
  import opened VmSpec
  import opened VmTear

  function Fill(b: int): (s: seq<int>)
    ensures |s| == PGSIZE
  {
    seq(PGSIZE, _ => b)
  }

  /** The chain of free pages: each holds the address of the next in its first word. */
  ghost predicate Linked(head: int, next: map<int, int>, free: seq<int>)
    decreases |free|
  {
    if free == [] then head == 0
    else head == free[0] != 0 && head in next && Linked(next[head], next, free[1..])
  }

  lemma {:induction false} LinkedFrame(head: int, next: map<int, int>, free: seq<int>, a: int, v: int)
    requires Linked(head, next, free) && a !in free
    ensures Linked(head, next[a := v], free)
    decreases |free|
  {
    if free != [] {
      LinkedFrame(next[head], next, free[1..], a, v);
    }
  }

  /** Old owners stay, and new ones are table pages of tree r. */
  ghost predicate OnlyTables(was: map<int, Own>, own: map<int, Own>, r: int) {
    && (forall b :: b in was ==> b in own && own[b] == was[b])
    && (forall b :: b in own && b !in was ==> own[b].Table? && own[b].p.r == r)
  }

  /** Pages in use keep their contents. */
  ghost predicate Untouched(used: set<int>, was: map<int, seq<int>>, data: map<int, seq<int>>) {
    forall b :: b in used && b in was ==> b in data && data[b] == was[b]
  }

  function Pages(end: int, phystop: int): set<int> {
    set a | 0 < end <= a < phystop && a % PGSIZE == 0
  }

  /** The free list and the pages in use, which are all the pages. */
  ghost predicate ListsOk(data: map<int, seq<int>>, head: int, next: map<int, int>, used: set<int>, free: seq<int>,
                          pages: set<int>) {
    && FreeInv(free, used, pages) && Linked(head, next, free)
    && (forall a :: a in pages ==> a in data && |data[a]| == PGSIZE)
  }

  // ----- Process page tables

  /** n is m and a new tree r. */
  ghost predicate Built(m: Mem, n: Mem, r: int) {
    && r !in m.roots && n.roots == m.roots + {r} && OnlyTables(m.owner, n.owner, r)
    && (forall r', v :: r' != r ==> Leaf(n, r', v) == Leaf(m, r', v))
  }

  /** The trampoline and the trap frame at the top, and nothing else. */
  ghost predicate IsProcTable(m: Mem, r: int, trampoline: int, trapframe: int) {
    forall v :: Leaf(m, r, v) ==
      if v == USERTOP + 1 then Pte(trampoline, PTE_V + PTE_R + PTE_X)
      else if v == USERTOP then Pte(trapframe, PTE_V + PTE_R + PTE_W)
      else 0
  }

  ghost predicate OnlyAt(m: Mem, r: int, v0: int, x: int) {
    forall v :: Leaf(m, r, v) == if v == v0 then x else 0
  }

  lemma KeysKept(was: map<int, Own>, own: map<int, Own>, r: int)
    requires OnlyTables(was, own, r)
    ensures was.Keys <= own.Keys
  {
    forall b | b in was.Keys ensures b in own.Keys {
      var o := was[b];
    }
  }

  lemma BuiltStarts(m: Mem, c: Mem, r: int)
    requires r !in m.roots && c.roots == m.roots + {r} && SameLeaves(m, c) && OnlyTables(m.owner, c.owner, r)
    ensures Built(m, c, r) && m.owner.Keys <= c.owner.Keys
  {
    hide Leaf;
    KeysKept(m.owner, c.owner, r);
  }

  lemma Special(own: map<int, Own>, r: int, pa: int, perm: int)
    requires pa % PGSIZE == 0 && perm in {PTE_R + PTE_X, PTE_R + PTE_W}
    ensures forall j :: 0 <= j <= 0 ==> Mappable(own, r, USERTOP + 1 + j, pa + j * PGSIZE, perm)
    ensures forall j :: 0 <= j <= 0 ==> Mappable(own, r, USERTOP + j, pa + j * PGSIZE, perm)
  {
  }

  lemma BuiltMapped(m: Mem, c: Mem, n: Mem, r: int, v: int, pa: int, perm: int, done: int)
    requires Built(m, c, r) && n.roots == c.roots && v >= USERTOP && 0 <= done <= 1
    requires Mapped(c, n, r, v, done, pa, WithV(perm)) && OnlyTables(GivenAll(c.owner, r, v, done, pa), n.owner, r)
    ensures Built(m, n, r) && m.owner.Keys <= n.owner.Keys
  {
    assert GivenAll(c.owner, r, v, 0, pa) == c.owner;
    assert GivenAll(c.owner, r, v, 1, pa) == c.owner;
    hide Leaf, Pte, GivenAll;
    KeysKept(m.owner, n.owner, r);
  }

  lemma NotYetMapped(m: Mem, r: int, v: int)
    ensures NoLeaves(m, r) ==> !IsValid(Leaf(m, r, v))
    ensures forall v0, x :: OnlyAt(m, r, v0, x) && v != v0 ==> !IsValid(Leaf(m, r, v))
  {
    hide Leaf;
  }

  lemma FirstMapped(c: Mem, n: Mem, r: int, pa: int, done: int)
    requires Tree(c) && NoLeaves(c, r) && Mapped(c, n, r, USERTOP + 1, done, pa, WithV(PTE_R + PTE_X)) && 0 <= done <= 1
    ensures done == 0 ==> OnlyMapped(n, r, 0)
    ensures done == 1 ==> OnlyAt(n, r, USERTOP + 1, Pte(pa, PTE_V + PTE_R + PTE_X))
  {
    forall v ensures Leaf(c, r, v) == 0 {
      LeafCases(c, r, v);
    }
    hide Tree, Leaf, Pte;
  }

  lemma SecondMapped(n: Mem, o: Mem, r: int, trampoline: int, trapframe: int, done: int)
    requires OnlyAt(n, r, USERTOP + 1, Pte(trampoline, PTE_V + PTE_R + PTE_X)) && trampoline % PGSIZE == 0
    requires Mapped(n, o, r, USERTOP, done, trapframe, WithV(PTE_R + PTE_W)) && 0 <= done <= 1
    ensures done == 0 ==>
              && OnlyAt(o, r, USERTOP + 1, Pte(trampoline, PTE_V + PTE_R + PTE_X))
              && AllMapped(o, r, USERTOP + 1, USERTOP + 2)
    ensures done == 1 ==> IsProcTable(o, r, trampoline, trapframe)
  {
    PteRoundTrip(trampoline, PTE_V + PTE_R + PTE_X);
    hide Leaf, Pte;
  }

  lemma NotOwned(m: Mem, r: int, v: int)
    requires Tree(m) && v >= USERTOP
    ensures Released(m.owner, r, v, v + 1, true) == m.owner
  {
    hide PosOk, Leaf;
    var o := Released(m.owner, r, v, v + 1, true);
    forall a | a in m.owner ensures a in o && o[a] == m.owner[a] {
      assert OwnOk(m, a);
    }
    assert o.Keys == m.owner.Keys;
  }

  /** Freeing the new tree undoes its making. */
  lemma Undone(m: Mem, n: Mem, o: Mem, r: int)
    requires Tree(m) && Built(m, n, r) && TreeGone(n, o, r)
    ensures SameLeaves(m, o) && o.owner == m.owner && o.roots == m.roots && m.owner.Keys <= o.owner.Keys
  {
    NoneOf(m, r);
    hide Tree, Leaf;
    KeysKept(m.owner, n.owner, r);
    forall a | a in m.owner.Keys ensures a in o.owner.Keys && o.owner[a] == m.owner[a] {
      assert a in n.owner && n.owner[a] == m.owner[a];
    }
    forall a | a in o.owner.Keys ensures a in m.owner.Keys {
      assert a in n.owner && !Of(n.owner[a], r);
    }
    assert o.owner == m.owner;
  }

  lemma NoneOf(m: Mem, r: int)
    requires Tree(m) && r !in m.roots
    ensures forall v :: Leaf(m, r, v) == 0
    ensures forall a :: a in m.owner ==> !Of(m.owner[a], r)
  {
    assert forall c :: c in m.at ==> PosOk(m, c) && c.r != r;
    hide PosOk;
    forall a | a in m.owner ensures !Of(m.owner[a], r) {
      assert OwnOk(m, a);
    }
  }

  lemma UntouchedOn(used: set<int>, later: set<int>, d: map<int, seq<int>>, d1: map<int, seq<int>>, d2: map<int,
                    seq<int>>)
    requires Untouched(used, d, d1) && used <= later && Untouched(later, d1, d2)
    ensures Untouched(used, d, d2)
  {
  }

  /** The mappings of a process of n pages. */
  ghost predicate ProcMapped(m: Mem, r: int, n: int) {
    forall v :: IsValid(Leaf(m, r, v)) <==> 0 <= v < n || v == USERTOP || v == USERTOP + 1
  }

  lemma TopMapped(m: Mem, r: int, n: int, v: int)
    requires Tree(m) && USERTOP <= v <= USERTOP + 1
    ensures !AllMapped(m, r, v, v + 1) ==> !ProcMapped(m, r, n)
    ensures AllMapped(m, r, v, v + 1) <==> IsValid(Leaf(m, r, v))
  {
    LeafHasPerm(m, r, v);
    hide Tree, Leaf, IsValid;
  }

  lemma OtherTop(m: Mem, u: Mem, r: int, n: int)
    requires Tree(u) && Cleared(m, u, r, USERTOP + 1, USERTOP + 2)
    ensures !AllMapped(u, r, USERTOP, USERTOP + 1) ==> !ProcMapped(m, r, n)
  {
    TopMapped(u, r, n, USERTOP);
    hide Tree, Leaf, IsValid;
    assert Leaf(u, r, USERTOP) == Leaf(m, r, USERTOP);
  }

  lemma WithoutTops(m: Mem, u: Mem, w: Mem, r: int, n: int)
    requires Tree(m) && AllMapped(m, r, USERTOP + 1, USERTOP + 2) && Cleared(m, u, r, USERTOP + 1, USERTOP + 2)
      && n <= USERTOP
    requires Tree(u) && AllMapped(u, r, USERTOP, USERTOP + 1) && Cleared(u, w, r, USERTOP, USERTOP + 1)
    ensures OnlyMapped(w, r, n) <==> ProcMapped(m, r, n)
  {
    TopMapped(m, r, n, USERTOP + 1);
    TopMapped(u, r, n, USERTOP);
    hide Tree, Leaf;
    assert forall v :: Leaf(w, r, v) == if v == USERTOP || v == USERTOP + 1 then 0 else Leaf(m, r, v);
    assert IsValid(Leaf(m, r, USERTOP)) && IsValid(Leaf(m, r, USERTOP + 1));
    if OnlyMapped(w, r, n) {
      forall v ensures IsValid(Leaf(m, r, v)) <==> 0 <= v < n || v == USERTOP || v == USERTOP + 1 {
        assert IsValid(Leaf(w, r, v)) <==> 0 <= v < n;
      }
    }
  }

  lemma GoneFrom(m: Mem, u: Mem, w: Mem, o: Mem, r: int)
    requires Cleared(m, u, r, USERTOP + 1, USERTOP + 2) && Cleared(u, w, r, USERTOP, USERTOP + 1)
    requires w.owner == m.owner && w.roots == m.roots && TreeGone(w, o, r)
    ensures TreeGone(m, o, r) && o.owner.Keys <= w.owner.Keys
  {
    hide Leaf;
    forall a | a in o.owner.Keys ensures a in w.owner.Keys {
      var x := o.owner[a];
    }
  }

  // ----- Copying bytes

  ghost predicate UserAt(m: Mem, r: int, v: int) {
    v < MAXVPN && IsValid(Leaf(m, r, v)) && IsUser(Leaf(m, r, v))
  }

  /** The frame of a user leaf: a page of bytes that belongs to this leaf alone. */
  ghost predicate UserPage(m: Mem, data: map<int, seq<int>>, r: int, v: int, pa: int) {
    && PteAddr(Leaf(m, r, v)) == pa && pa in m.owner && m.owner[pa] == User(r, v)
    && pa in data && |data[pa]| == PGSIZE
  }

  /** The byte at user address va of tree r. */
  ghost function UserByte(m: Mem, data: map<int, seq<int>>, r: int, va: int): (b: int) {
    var pa := PteAddr(Leaf(m, r, va / PGSIZE));
    if pa in data && |data[pa]| == PGSIZE then data[pa][va % PGSIZE] else 0
  }

  ghost predicate UserRange(m: Mem, r: int, va: int, n: int) {
    forall a :: va <= a < va + n ==> UserAt(m, r, a / PGSIZE)
  }

  /** Byte by byte, dst is the user memory from va on. */
  ghost predicate IsCopy(m: Mem, data: map<int, seq<int>>, r: int, va: int, dst: seq<int>) {
    forall i :: 0 <= i < |dst| ==> dst[i] == UserByte(m, data, r, va + i)
  }

  /** Byte by byte, the user memory of r takes src at va; every other user byte of every tree stays. */
  ghost predicate Overwritten(m: Mem, was: map<int, seq<int>>, data: map<int, seq<int>>, r: int, va: int,
                              src: seq<int>) {
    && (forall r', a :: UserAt(m, r', a / PGSIZE) ==>
          UserByte(m, data, r', a) ==
          if r' == r && va <= a < va + |src| then src[a - va] else UserByte(m, was, r', a))
    && (forall b :: b in was && (b in m.owner ==> !m.owner[b].User?) ==> b in data && data[b] == was[b])
  }

  function Splice(s: seq<int>, o: int, d: seq<int>): (t: seq<int>)
    requires 0 <= o && o + |d| <= |s|
    ensures |t| == |s| && forall i :: 0 <= i < |s| ==> t[i] == if o <= i < o + |d| then d[i - o] else s[i]
  {
    s[..o] + d + s[o + |d|..]
  }

  lemma ZeroNotValid()
    ensures !IsValid(0)
  {
  }

  lemma UserOwned(m: Mem, r: int, v: int)
    requires Tree(m) && UserAt(m, r, v)
    ensures PteAddr(Leaf(m, r, v)) in m.owner && m.owner[PteAddr(Leaf(m, r, v))] == User(r, v)
  {
    LeafCases(m, r, v);
  }

  lemma SamePage(va: int)
    ensures PGROUNDDOWN(va) / PGSIZE == va / PGSIZE && va - PGROUNDDOWN(va) == va % PGSIZE
  {
  }

  lemma OffsetPage(va: int, va0: int, p: int)
    requires va0 == PGROUNDDOWN(va) && 0 <= p < PGSIZE
    ensures (va0 + p) / PGSIZE == va / PGSIZE && (va0 + p) % PGSIZE == p
  {
  }

  lemma OneByte(s: seq<int>, p: int)
    requires 0 <= p < |s|
    ensures s[p..p + 1] == [s[p]]
  {
  }

  /** The addresses of one page after a. */
  lemma WithinPage(a: int, i: int)
    requires 0 <= i && a % PGSIZE + i < PGSIZE
    ensures (a + i) / PGSIZE == a / PGSIZE && (a + i) % PGSIZE == a % PGSIZE + i
  {
  }

  lemma RangeBegins(m: Mem, data: map<int, seq<int>>, r: int, va: int)
    ensures UserRange(m, r, va, 0) && IsCopy(m, data, r, va, [])
  {
  }

  lemma CopyBegins(m: Mem, data: map<int, seq<int>>, r: int, va: int, src: seq<int>)
    ensures UserRange(m, r, va, 0) && Overwritten(m, data, data, r, va, src[..0])
  {
    hide Leaf, PteAddr;
  }

  lemma RangeNext(m: Mem, r: int, va: int, s: int, n: int)
    requires UserRange(m, r, va, s) && UserAt(m, r, (va + s) / PGSIZE) && 0 <= n && (va + s) % PGSIZE + n <= PGSIZE
    ensures UserRange(m, r, va, s + n)
  {
    hide UserAt;
    forall a | va + s <= a < va + s + n ensures a / PGSIZE == (va + s) / PGSIZE {
      WithinPage(va + s, a - va - s);
    }
  }

  lemma ReadPage(m: Mem, data: map<int, seq<int>>, r: int, va: int, dst: seq<int>, n: int, pa: int)
    requires IsCopy(m, data, r, va, dst) && 0 <= n && (va + |dst|) % PGSIZE + n <= PGSIZE
    requires UserPage(m, data, r, (va + |dst|) / PGSIZE, pa)
    ensures var o := (va + |dst|) % PGSIZE; IsCopy(m, data, r, va, dst + data[pa][o..o + n])
  {
    hide Leaf, PteAddr;
    var a := va + |dst|;
    var d := dst + data[pa][a % PGSIZE..a % PGSIZE + n];
    forall i | 0 <= i < |d| ensures d[i] == UserByte(m, data, r, va + i) {
      if i >= |dst| {
        WithinPage(a, i - |dst|);
      }
    }
  }

  /** One page's worth of copyout. */
  lemma CopyPage(m: Mem, was: map<int, seq<int>>, data: map<int, seq<int>>, r: int, va: int, src: seq<int>, s: int,
                 n: int, pa: int)
    requires Tree(m) && 0 <= s && 0 <= n && s + n <= |src| && (va + s) % PGSIZE + n <= PGSIZE
    requires Overwritten(m, was, data, r, va, src[..s]) && UserPage(m, data, r, (va + s) / PGSIZE, pa)
    ensures var o := (va + s) % PGSIZE;
      Overwritten(m, was, data[pa := Splice(data[pa], o, src[s..s + n])], r, va, src[..s + n])
  {
    hide Leaf, PteAddr, Splice;
    var o := (va + s) % PGSIZE;
    var dn := data[pa := Splice(data[pa], o, src[s..s + n])];
    forall r', a | UserAt(m, r', a / PGSIZE)
      ensures UserByte(m, dn, r', a) ==
        if r' == r && va <= a < va + s + n then src[a - va] else UserByte(m, was, r', a)
    {
      UserOwned(m, r', a / PGSIZE);
      CopyByte(m, data, r, va + s, src[s..s + n], pa, r', a);
    }
  }

  lemma CopyByte(m: Mem, data: map<int, seq<int>>, r: int, va: int, bytes: seq<int>, pa: int, r': int, a: int)
    requires va % PGSIZE + |bytes| <= PGSIZE && UserPage(m, data, r, va / PGSIZE, pa)
    requires var pb := PteAddr(Leaf(m, r', a / PGSIZE)); pb in m.owner && m.owner[pb] == User(r', a / PGSIZE)
    ensures UserByte(m, data[pa := Splice(data[pa], va % PGSIZE, bytes)], r', a) ==
      if r' == r && va <= a < va + |bytes| then bytes[a - va] else UserByte(m, data, r', a)
  {
    hide Leaf, PteAddr, Splice;
    if r' == r && va <= a < va + |bytes| {
      WithinPage(va, a - va);
    } else if r' == r && a / PGSIZE == va / PGSIZE {
      assert a % PGSIZE - va % PGSIZE == a - va;
    }
  }

  // ----- Freeing a tree

  /** The user pages of r are the first n, and it maps nothing else. */
  ghost predicate OnlyMapped(m: Mem, r: int, n: int) {
    forall v :: IsValid(Leaf(m, r, v)) <==> 0 <= v < n
  }

  lemma NotOnly(m: Mem, r: int, n: int)
    requires Tree(m) && !AllMapped(m, r, 0, n)
    ensures !OnlyMapped(m, r, n)
  {
    var v :| 0 <= v < n && !LeafMapped(m, r, v);
    LeafHasPerm(m, r, v);
  }

  lemma LeafHasPerm(m: Mem, r: int, v: int)
    requires Tree(m)
    ensures LeafMapped(m, r, v) <==> IsValid(Leaf(m, r, v))
  {
    LeafCases(m, r, v);
    LowFlags(Leaf(m, r, v));
    hide Tree, Leaf, PteAddr, IsUser;
  }

  lemma OnlyIff(m: Mem, u: Mem, r: int, n: int)
    requires AllMapped(m, r, 0, n) && Cleared(m, u, r, 0, n)
    ensures NoLeaves(u, r) <==> OnlyMapped(m, r, n)
  {
    hide Leaf;
    if NoLeaves(u, r) {
      forall v ensures IsValid(Leaf(m, r, v)) <==> 0 <= v < n {
        assert !IsValid(Leaf(u, r, v));
        if 0 <= v < n {
          assert LeafMapped(m, r, v);
        }
      }
    }
  }

  lemma GoneAfter(m: Mem, u: Mem, o: Mem, r: int, n: int)
    requires Tree(m) && OnlyMapped(m, r, n) && u.roots == m.roots
    requires Cleared(m, u, r, 0, n) && u.owner == Released(m.owner, r, 0, n, false) && TreeGone(u, o, r)
    ensures TreeGone(m, o, r)
  {
    forall a | a in m.owner ensures m.owner[a].User? && m.owner[a].r == r ==> Between(m.owner[a], r, 0, n) {
      assert OwnOk(m, a);
    }
    hide Tree, Leaf;
  }

  /** A zeroed page as a new root. */
  ghost function WithRoot(m: Mem, r: int): (o: Mem) {
    Mem(m.t[r := ZeroTable()], m.at[Pos(r, 2, 0) := r], m.owner[r := Table(Pos(r, 2, 0))], m.roots + {r})
  }

  lemma AddRoot(m: Mem, r: int)
    requires Tree(m) && r !in m.owner
    ensures var o := WithRoot(m, r); Tree(o) && SameLeaves(m, o) && NoLeaves(o, r) && r !in m.roots
  {
    hide PosOk, Leaf;
    var o := WithRoot(m, r);
    RootsOwned(m);
    AddRootLeaves(m, r);
    forall c | c in o.at ensures PosOk(o, c) {
      AddRootPos(m, r, c);
    }
    forall a | a in o.owner ensures OwnOk(o, a) {
      assert a in m.owner ==> OwnOk(m, a);
    }
  }

  lemma AddRootLeaves(m: Mem, r: int)
    requires Tree(m) && r !in m.owner
    ensures SameLeaves(m, WithRoot(m, r)) && NoLeaves(WithRoot(m, r), r)
  {
    RootsOwned(m);
    hide Tree;
  }

  lemma RootsOwned(m: Mem)
    requires Tree(m)
    ensures forall x :: x in m.roots ==> x in m.owner
    ensures forall c :: c in m.at ==> c.r in m.owner && m.at[c] in m.owner
  {
    hide EntryOk, OwnOk;
    forall x | x in m.roots ensures x in m.owner {
      assert PosOk(m, Pos(x, 2, 0));
    }
    assert forall c :: c in m.at ==> PosOk(m, c);
  }

  lemma AddRootPos(m: Mem, r: int, c: Pos)
    requires Tree(m) && r !in m.owner && c in WithRoot(m, r).at
    ensures PosOk(WithRoot(m, r), c)
  {
    RootsOwned(m);
    var o := WithRoot(m, r);
    if c in m.at {
      assert PosOk(m, c);
      forall e | 0 <= e < NENT ensures EntryOk(o, c, e, o.t[o.at[c]][e]) {
        assert EntryOk(m, c, e, m.t[m.at[c]][e]);
      }
    }
  }

  /** What the next entry of the table at p tells freewalk. */
  lemma EntryCases(m: Mem, n: Mem, p: Pos, i: int)
    requires Sub(m, p) && Torn(m, n, p, i) && 0 <= i < NENT && m.at[p] in m.t && |m.t[m.at[p]]| == NENT
    requires ChildOk(m, p, i, m.t[m.at[p]][i]) && Leafless(m, p.r, p.l - 1, p.q * NENT, p.q * NENT + i)
    requires p.l == 0 ==> NoLeafIn(m, p, i)
    ensures var x := m.t[m.at[p]][i];
      if IsValid(x) && !HasPerm(x) then
        && p.l > 0 && Sub(n, Below(p, i)) && n.at[Below(p, i)] == PteAddr(x)
        && (var k := Below(p, i); Leafless(n, k.r, k.l, k.q, k.q + 1) <==> Leafless(m, k.r, k.l, k.q, k.q + 1))
      else if IsValid(x) then p.l == 0
      else
        && Torn(m, n, p, i + 1) && Leafless(m, p.r, p.l - 1, p.q * NENT, p.q * NENT + i + 1)
        && (p.l == 0 ==> NoLeafIn(m, p, i + 1))
  {
    hide Torn, Leafless, HasPerm, PteAddr;
    var x := m.t[m.at[p]][i];
    if IsValid(x) && !HasPerm(x) {
      SubChild(m, n, p, i);
      SubChildLeaves(m, n, p, i);
      SubChildAtRoot(m, n, p, i);
    } else if !IsValid(x) {
      TornSkip(m, n, p, i);
    }
  }

  lemma SubChildAtRoot(m: Mem, n: Mem, p: Pos, i: int)
    requires Sub(m, p) && Torn(m, n, p, i) && 0 <= i < NENT && p.l > 0 && Below(p, i) in n.at
    ensures Below(p, i) in m.at && n.at[Below(p, i)] == m.at[Below(p, i)]
  {
    hide Sub, Within;
  }

  lemma FewerOwners(n: Mem, o: Mem, p: Pos)
    requires Gone(n, o, p)
    ensures o.owner.Keys <= n.owner.Keys
  {
  }

  lemma KeepUntouched(used: set<int>, left: set<int>, was: map<int, seq<int>>, d: map<int, seq<int>>, dn: map<int,
                      seq<int>>)
    requires Untouched(used, was, d) && left <= used && Untouched(left, d, dn)
    ensures Untouched(left, was, dn)
  {
  }

  // ----- Copying a tree

  /** The first n pages of r hold the bytes and flags of those of r0. */
  ghost predicate Copied(m: Mem, data: map<int, seq<int>>, r0: int, r: int, n: int) {
    forall v :: 0 <= v < n ==>
      var x, y := Leaf(m, r0, v), Leaf(m, r, v);
      y % 1024 == x % 1024 && PteAddr(x) in data && PteAddr(y) in data && data[PteAddr(y)] == data[PteAddr(x)]
  }

  lemma CopyStarts(m: Mem, data: map<int, seq<int>>, r0: int, r: int)
    ensures AllMapped(m, r0, 0, 0)
    ensures Copied(m, data, r0, r, 0)
  {
  }

  lemma OtherLeaf(m: Mem, n: Mem, r: int, lo: int, hi: int, r0: int, v: int, k: int)
    requires Grown(m, n, r, lo, hi) && r0 != r && AllMapped(m, r0, 0, k) && 0 <= v < k
    ensures Leaf(n, r0, v) == Leaf(m, r0, v) && LeafMapped(n, r0, v)
  {
    hide Leaf;
    assert LeafMapped(m, r0, v);
  }

  lemma LeafIsWalked(m: Mem, r: int, va: int, t: int)
    requires Tree(m) && 0 <= va < MAXVA && Path(r, 0, va / PGSIZE) in m.at && m.at[Path(r, 0, va / PGSIZE)] == t
    ensures t in m.t && |m.t[t]| == NENT && m.t[t][PX(0, va)] == Leaf(m, r, va / PGSIZE)
  {
    WalkPath(r, va);
    WalkIndex(r, va);
    LeafIs(m, r, va / PGSIZE);
  }

  /** A valid leaf of the user is mapped, and an empty one is not. */
  lemma ValidIsMapped(m: Mem, r: int, v: int)
    requires Tree(m)
    ensures IsValid(Leaf(m, r, v)) <==> LeafMapped(m, r, v)
  {
    LeafCases(m, r, v);
    LowFlags(Leaf(m, r, v));
    hide PteAddr, Leaf, Tree;
  }

  lemma MappedOn(m: Mem, r: int, v: int)
    requires AllMapped(m, r, 0, v) && LeafMapped(m, r, v)
    ensures AllMapped(m, r, 0, v + 1)
  {
    hide Leaf;
  }

  lemma NotAllMapped(m: Mem, r: int, v: int, n: int)
    requires !LeafMapped(m, r, v) && 0 <= v < n
    ensures !AllMapped(m, r, 0, n)
  {
    hide Leaf;
  }

  lemma SameOther(m: Mem, n: Mem, r: int, lo: int, hi: int, r0: int, v: int)
    requires Grown(m, n, r, lo, hi) && r0 != r
    ensures Leaf(n, r0, v) == Leaf(m, r0, v)
  {
    hide Leaf;
  }

  /** What the next source page tells uvmcopy. */
  lemma SourceLeaf(b: Mem, m: Mem, r: int, r0: int, v: int, n: int)
    requires Tree(b) && Grown(b, m, r, 0, v) && r0 != r && AllMapped(b, r0, 0, v) && 0 <= v < n
    ensures Leaf(m, r0, v) == 0 || !IsValid(Leaf(m, r0, v)) ==> !AllMapped(b, r0, 0, n)
    ensures IsValid(Leaf(m, r0, v)) ==> AllMapped(b, r0, 0, v + 1) && LeafMapped(m, r0, v)
  {
    hide Leaf, Tree, AllMapped;
    SameOther(b, m, r, 0, v, r0, v);
    ValidIsMapped(b, r0, v);
    ZeroNotValid();
    if IsValid(Leaf(m, r0, v)) {
      MappedOn(b, r0, v);
    } else {
      NotAllMapped(b, r0, v, n);
    }
  }

  lemma SourcePage(m: Mem, r: int, v: int, x: int)
    requires Tree(m) && LeafMapped(m, r, v) && x == Leaf(m, r, v) && v < USERTOP
    ensures PteAddr(x) in m.owner && 1 < x % 1024 < 1024 && x % 1024 % 2 == 1 && HasPerm(x % 1024)
  {
    LeafCases(m, r, v);
    LowFlags(x);
    hide PteAddr, Leaf, Tree, HasPerm;
  }

  lemma CopyStep(b: Mem, n: Mem, dn: map<int, seq<int>>, o: Mem, do: map<int, seq<int>>, r0: int, r: int, v: int,
                 k: int, pa: int)
    requires Tree(n) && Grown(b, n, r, 0, v) && Copied(n, dn, r0, r, v) && AllMapped(n, r, 0, v)
    requires r0 != r && AllMapped(b, r0, 0, k) && 0 <= v < k && v < USERTOP && pa % PGSIZE == 0 && LeafMapped(n, r0, v)
    requires LeafSet(n, o, r, v, Pte(pa, WithV(Leaf(n, r0, v) % 1024))) && Untouched(n.owner.Keys, dn, do)
    requires PteAddr(Leaf(n, r0, v)) in dn && pa in do && do[pa] == dn[PteAddr(Leaf(n, r0, v))]
    ensures Copied(o, do, r0, r, v + 1)
  {
    forall w | 0 <= w < v ensures PteAddr(Leaf(n, r, w)) in n.owner {
      LeafCases(n, r, w);
    }
    forall w | 0 <= w <= v ensures PteAddr(Leaf(n, r0, w)) in n.owner {
      OtherLeaf(b, n, r, 0, v, r0, w, k);
      SourcePage(n, r0, w, Leaf(n, r0, w));
    }
    SourcePage(n, r0, v, Leaf(n, r0, v));
    PteRoundTrip(pa, WithV(Leaf(n, r0, v) % 1024));
    hide Tree, Leaf, Pte, PteAddr, IsValid;
  }

  // ----- Growing and shrinking

  lemma RoundUps(oldsz: int, newsz: int)
    requires 0 <= newsz && 0 <= oldsz <= USERTOP * PGSIZE
    ensures PGROUNDUP(newsz) % PGSIZE == 0 && PGROUNDUP(oldsz) % PGSIZE == 0
    ensures 0 <= PGROUNDUP(oldsz) <= USERTOP * PGSIZE && (newsz <= oldsz ==> PGROUNDUP(newsz) <= PGROUNDUP(oldsz))
  {
  }

  lemma BelowTop(a: int, v: int, newsz: int)
    requires a == v * PGSIZE < newsz <= USERTOP * PGSIZE
    ensures v < USERTOP && a / PGSIZE == v && a % PGSIZE == 0 && v < PGROUNDUP(newsz) / PGSIZE
  {
  }

  lemma SameRound(base: int, a: int, lo: int, v: int)
    requires base == lo * PGSIZE && a == v * PGSIZE && 0 <= lo <= v
    ensures PGROUNDUP(base) / PGSIZE == lo && PGROUNDUP(a) / PGSIZE == v
  {
  }

  lemma LastPage(a: int, v: int, base: int, lo: int, newsz: int, hi: int)
    requires a == v * PGSIZE >= newsz && (v <= hi || v == lo) && hi == PGROUNDUP(newsz) / PGSIZE && lo <= hi
    ensures v == hi
  {
  }

  /** Leaves lo..hi of r are new, on pages that were not in use, and no other leaf changed. */
  ghost predicate Grown(m: Mem, n: Mem, r: int, lo: int, hi: int) {
    && (forall r', v :: !(r' == r && lo <= v < hi) ==> Leaf(n, r', v) == Leaf(m, r', v))
    && (forall v :: lo <= v < hi ==> LeafMapped(n, r, v) && PteAddr(Leaf(n, r, v)) !in m.owner)
    && (forall b :: b in m.owner ==> b in n.owner && n.owner[b] == m.owner[b])
    && (forall b :: b in n.owner && b !in m.owner ==>
          (n.owner[b].Table? && n.owner[b].p.r == r) || Between(n.owner[b], r, lo, hi))
  }

  ghost predicate ZeroPages(n: Mem, data: map<int, seq<int>>, r: int, lo: int, hi: int, flags: int) {
    forall v :: lo <= v < hi ==>
      var x := Leaf(n, r, v); x % 1024 == flags && PteAddr(x) in data && data[PteAddr(x)] == Fill(0)
  }

  lemma GrowStarts(m: Mem, data: map<int, seq<int>>, r: int, lo: int, xperm: int)
    ensures Grown(m, m, r, lo, lo) && ZeroPages(m, data, r, lo, lo, PTE_V + PTE_R + PTE_U + xperm)
  {
  }

  lemma GrownLeaf(m: Mem, n: Mem, r: int, lo: int, hi: int, v: int)
    requires Grown(m, n, r, lo, hi) && v >= hi
    ensures Leaf(n, r, v) == Leaf(m, r, v)
  {
  }

  lemma GrownMapped(m: Mem, n: Mem, r: int, lo: int, hi: int)
    requires Grown(m, n, r, lo, hi)
    ensures AllMapped(n, r, lo, hi)
  {
  }

  lemma GrownKept(m: Mem, dm: map<int, seq<int>>, n: Mem, dn: map<int, seq<int>>, o: Mem, do: map<int, seq<int>>,
                  r: int, lo: int, hi: int)
    requires Grown(m, n, r, lo, hi) && SameLeaves(n, o) && OnlyTables(n.owner, o.owner, r)
    requires Untouched(m.owner.Keys, dm, dn) && Untouched(n.owner.Keys, dn, do)
    ensures Grown(m, o, r, lo, hi) && Untouched(m.owner.Keys, dm, do)
  {
    hide Leaf, PteAddr;
  }

  lemma GrowStep(m: Mem, dm: map<int, seq<int>>, n: Mem, dn: map<int, seq<int>>, o: Mem, do: map<int, seq<int>>,
                 r: int, lo: int, v: int, pa: int, perm: int)
    requires Grown(m, n, r, lo, v) && lo <= v && pa !in n.owner && pa % PGSIZE == 0 && 1 < perm < 1024
    requires LeafSet(n, o, r, v, Pte(pa, WithV(perm))) && OnlyTables(n.owner[pa := User(r, v)], o.owner, r)
    requires Untouched(m.owner.Keys, dm, dn) && Untouched(n.owner.Keys, dn, do)
    ensures Grown(m, o, r, lo, v + 1) && Untouched(m.owner.Keys, dm, do)
  {
    hide Leaf, Pte, PteAddr, IsValid;
    UserBitKept(perm);
    PteRoundTrip(pa, WithV(perm));
  }

  lemma ZeroStep(n: Mem, dn: map<int, seq<int>>, o: Mem, do: map<int, seq<int>>, r: int, lo: int, v: int, pa: int,
                 perm: int)
    requires Tree(n) && ZeroPages(n, dn, r, lo, v, WithV(perm)) && v < USERTOP && pa % PGSIZE == 0 && 1 < perm < 1024
    requires AllMapped(n, r, lo, v)
    requires LeafSet(n, o, r, v, Pte(pa, WithV(perm))) && Untouched(n.owner.Keys, dn, do) && pa in do
      && do[pa] == Fill(0)
    ensures ZeroPages(o, do, r, lo, v + 1, WithV(perm))
  {
    UserBitKept(perm);
    PteRoundTrip(pa, WithV(perm));
    forall w | lo <= w < v ensures PteAddr(Leaf(n, r, w)) in n.owner {
      LeafCases(n, r, w);
    }
    hide Tree, Leaf, Pte, PteAddr, Fill, IsValid;
  }

  lemma RollBack(m: Mem, dm: map<int, seq<int>>, n: Mem, dn: map<int, seq<int>>, o: Mem, do: map<int, seq<int>>,
                 r: int, lo: int, hi: int)
    requires Grown(m, n, r, lo, hi) && Cleared(n, o, r, lo, hi) && o.owner == Released(n.owner, r, lo, hi, false)
    requires Tree(m) && forall v :: lo <= v < hi ==> Leaf(m, r, v) == 0
    requires Untouched(m.owner.Keys, dm, dn) && Untouched(o.owner.Keys, dn, do)
    ensures SameLeaves(m, o) && OnlyTables(m.owner, o.owner, r) && Untouched(m.owner.Keys, dm, do)
  {
    NoneBetween(m, r, lo, hi);
    hide Tree, Leaf, PteAddr;
  }

  lemma NoneBetween(m: Mem, r: int, lo: int, hi: int)
    requires Tree(m) && forall v :: lo <= v < hi ==> Leaf(m, r, v) == 0
    ensures forall b :: b in m.owner ==> !Between(m.owner[b], r, lo, hi)
  {
    hide PosOk, Leaf;
    assert forall b :: b in m.owner ==> OwnOk(m, b);
  }

  // ----- New pages

  lemma WriteData(data: map<int, seq<int>>, head: int, next: map<int, int>, used: set<int>, free: seq<int>,
                  pages: set<int>,
                  a: int, bytes: seq<int>)
    requires ListsOk(data, head, next, used, free, pages) && |bytes| == PGSIZE
    ensures ListsOk(data[a := bytes], head, next, used, free, pages)
  {
    hide FreeInv, Linked;
  }

  lemma FreeData(used: set<int>, d: map<int, seq<int>>, dn: map<int, seq<int>>, a: int, bytes: seq<int>)
    requires Untouched(used, d, dn) && a !in used
    ensures Untouched(used, d, dn[a := bytes])
  {
  }

  lemma HeldMappable(own: map<int, Own>, r: int, a: int, pa: int, perm: int)
    requires pa in own && own[pa] == Held && pa % PGSIZE == 0 && 0 <= perm < 1024 && HasPerm(perm) && 0 <= a
      && a % PGSIZE == 0 && a / PGSIZE < USERTOP
    ensures (a + PGSIZE - 1) / PGSIZE == a / PGSIZE && a + PGSIZE <= MAXVA
    ensures forall j :: 0 <= j <= 0 ==> Mappable(own, r, a / PGSIZE + j, pa + j * PGSIZE, perm)
  {
  }

  lemma NewPageStep(m: Mem, d: map<int, seq<int>>, h: Mem, dh: map<int, seq<int>>, n: Mem, dn: map<int, seq<int>>,
                    r: int, v: int, pa: int, perm: int, done: int)
    requires pa !in m.owner && h.owner == m.owner[pa := Held] && SameLeaves(m, h) && v < USERTOP && 0 <= done <= 1
    requires Mapped(h, n, r, v, done, pa, WithV(perm)) && OnlyTables(GivenAll(h.owner, r, v, done, pa), n.owner, r)
    requires pa in dh && Untouched(m.owner.Keys, d, dh) && Untouched(h.owner.Keys, dh, dn)
    ensures Untouched(m.owner.Keys, d, dn) && pa in dn && dn[pa] == dh[pa]
    ensures done == 1 ==> LeafSet(m, n, r, v, Pte(pa, WithV(perm))) && OnlyTables(m.owner[pa := User(r, v)], n.owner, r)
    ensures done == 0 ==>
              SameLeaves(m, n) && pa in n.owner && n.owner[pa] == Held && OnlyTables(m.owner, n.owner - {pa}, r)
  {
    hide Leaf, Pte;
    assert GivenAll(h.owner, r, v, 0, pa) == h.owner;
    assert m.owner[pa := Held][pa := User(r, v)] == m.owner[pa := User(r, v)];
  }

  // ----- Unmapping

  /** A leaf that uvmunmap accepts. */
  ghost predicate LeafMapped(m: Mem, r: int, v: int) {
    IsValid(Leaf(m, r, v)) && Leaf(m, r, v) % 1024 != PTE_V
  }

  ghost predicate AllMapped(m: Mem, r: int, lo: int, hi: int) {
    forall v :: lo <= v < hi ==> LeafMapped(m, r, v)
  }

  /** The leaves lo..hi of r are gone and no other leaf changed. */
  ghost predicate Cleared(m: Mem, n: Mem, r: int, lo: int, hi: int) {
    forall r', v :: Leaf(n, r', v) == if r' == r && lo <= v < hi then 0 else Leaf(m, r', v)
  }

  ghost predicate Between(o: Own, r: int, lo: int, hi: int) {
    o.User? && o.r == r && lo <= o.v < hi
  }

  /** The pages of leaves lo..hi of r are held again, or free. */
  ghost function Released(own: map<int, Own>, r: int, lo: int, hi: int, keep: bool): (o: map<int, Own>)
    ensures forall b :: b in o <==> b in own && (keep || !Between(own[b], r, lo, hi))
    ensures forall b :: b in o ==> o[b] == if Between(own[b], r, lo, hi) then Held else own[b]
  {
    map b | b in own && (keep || !Between(own[b], r, lo, hi)) :: if Between(own[b], r, lo, hi) then Held else own[b]
  }

  lemma UnmapStarts(m: Mem, data: map<int, seq<int>>, r: int, v: int, keep: bool)
    ensures AllMapped(m, r, v, v) && Cleared(m, m, r, v, v) && m.owner == Released(m.owner, r, v, v, keep)
    ensures Untouched(m.owner.Keys, data, data)
  {
  }

  lemma UnmapNext(m: Mem, n: Mem, r: int, lo: int, v: int, hi: int)
    requires Cleared(m, n, r, lo, v) && v < hi
    ensures LeafMapped(n, r, v) == LeafMapped(m, r, v)
    ensures !LeafMapped(m, r, v) ==> lo > v || !AllMapped(m, r, lo, hi)
  {
    hide Leaf;
  }

  lemma UnmapStep(m: Mem, dm: map<int, seq<int>>, n: Mem, dn: map<int, seq<int>>, o: Mem, do: map<int, seq<int>>,
                  r: int, lo: int, v: int, keep: bool)
    requires lo <= v && AllMapped(m, r, lo, v) && Cleared(m, n, r, lo, v) && LeafMapped(n, r, v)
      && LeafSet(n, o, r, v, 0)
    requires n.owner == Released(m.owner, r, lo, v, keep) && o.owner == Released(n.owner, r, v, v + 1, keep)
    requires Untouched(n.owner.Keys, dm, dn) && Untouched(o.owner.Keys, dn, do)
    ensures AllMapped(m, r, lo, v + 1) && Cleared(m, o, r, lo, v + 1)
      && o.owner == Released(m.owner, r, lo, v + 1, keep)
    ensures Untouched(o.owner.Keys, dm, do)
  {
    hide Leaf;
    assert Leaf(n, r, v) == Leaf(m, r, v);
  }

  lemma UnmapLeaf(m: Mem, r: int, v: int, keep: bool)
    requires Tree(m) && 0 <= v && IsValid(Leaf(m, r, v)) && Pos(r, 0, v / NENT) in m.at && (!keep ==> v < USERTOP)
    ensures m.at[Pos(r, 0, v / NENT)] in m.t && |m.t[m.at[Pos(r, 0, v / NENT)]]| == NENT
    ensures var n := WithLeaf(m, r, v, 0).(owner := Released(m.owner, r, v, v + 1, keep));
      Tree(n) && LeafSet(m, n, r, v, 0)
    ensures !keep ==>
              && PteAddr(Leaf(m, r, v)) in m.owner
              && Released(m.owner, r, v, v + 1, false) == m.owner - {PteAddr(Leaf(m, r, v))}
  {
    hide PosOk, Leaf, PteAddr, IsUser;
    LeafCases(m, r, v);
    assert forall b :: b in m.owner && m.owner[b] == User(r, v) ==> OwnOk(m, b);
    SetLeaf(m, r, v, 0, Released(m.owner, r, v, v + 1, keep));
    hide Tree, LeafSet;
    if !keep {
      var pa := PteAddr(Leaf(m, r, v));
      assert forall b :: b in m.owner ==> (Between(m.owner[b], r, v, v + 1) <==> b == pa);
      assert Released(m.owner, r, v, v + 1, false) == m.owner - {pa};
    }
  }

  // ----- Mapping

  datatype Res = Success | NoMem | Remap

  /** uvmcopy returns 0, returns -1, or panics. */
  datatype CopyRes = CopyDone | CopyShort | CopyPanics

  function WithV(perm: int): int {
    if perm % 2 == 1 then perm else perm + PTE_V
  }

  /** A page of user memory must be allocated and not yet given away; above it nothing is for the user. */
  ghost predicate Mappable(own: map<int, Own>, r: int, v: int, pa: int, perm: int) {
    && pa % PGSIZE == 0 && 0 <= perm < 1024 && HasPerm(perm)
    && if v < USERTOP then pa in own && own[pa] == Held else perm / PTE_U % 2 == 0
  }

  ghost function Given(own: map<int, Own>, r: int, v: int, pa: int): (o: map<int, Own>) {
    if v < USERTOP then own[pa := User(r, v)] else own
  }

  /** Pages v0..v0+k of r are mapped to consecutive physical pages; no other leaf changes. */
  ghost predicate Mapped(m: Mem, n: Mem, r: int, v0: int, k: int, pa: int, flags: int) {
    forall r', v :: Leaf(n, r', v) ==
      if r' == r && v0 <= v < v0 + k then Pte(pa + (v - v0) * PGSIZE, flags) else Leaf(m, r', v)
  }

  ghost function GivenAll(own: map<int, Own>, r: int, v0: int, k: int, pa: int): (o: map<int, Own>)
    decreases k
  {
    if k <= 0 then own else Given(GivenAll(own, r, v0, k - 1, pa), r, v0 + k - 1, pa + (k - 1) * PGSIZE)
  }

  lemma MapStarts(m: Mem, data: map<int, seq<int>>, r: int, v0: int, pa: int, flags: int)
    ensures Mapped(m, m, r, v0, 0, pa, flags) && OnlyTables(GivenAll(m.owner, r, v0, 0, pa), m.owner, r)
    ensures Untouched(m.owner.Keys, data, data)
  {
  }

  lemma {:induction false} GivenAllKeeps(own: map<int, Own>, r: int, v0: int, k: int, pa: int, b: int)
    requires 0 <= k && b in own && b >= pa + k * PGSIZE
    ensures b in GivenAll(own, r, v0, k, pa) && GivenAll(own, r, v0, k, pa)[b] == own[b]
    decreases k
  {
    if k > 0 {
      GivenAllKeeps(own, r, v0, k - 1, pa, b);
    }
  }

  lemma {:induction false} GivenAllKeys(own: map<int, Own>, r: int, v0: int, k: int, pa: int)
    ensures own.Keys <= GivenAll(own, r, v0, k, pa).Keys
    decreases k
  {
    if k > 0 {
      GivenAllKeys(own, r, v0, k - 1, pa);
    }
  }

  lemma StillMappable(was: map<int, Own>, own: map<int, Own>, r: int, v0: int, k: int, pa: int, perm: int)
    requires 0 <= k && Mappable(was, r, v0 + k, pa + k * PGSIZE, perm)
      && OnlyTables(GivenAll(was, r, v0, k, pa), own, r)
    ensures Mappable(own, r, v0 + k, pa + k * PGSIZE, perm)
  {
    if v0 + k < USERTOP {
      GivenAllKeeps(was, r, v0, k, pa, pa + k * PGSIZE);
    }
  }

  lemma MapStep(m: Mem, dm: map<int, seq<int>>, n: Mem, dn: map<int, seq<int>>, o: Mem, do: map<int, seq<int>>,
                r: int, v0: int, k: int, pa: int, perm: int, res: Res)
    requires 0 <= k && Mapped(m, n, r, v0, k, pa, WithV(perm))
      && OnlyTables(GivenAll(m.owner, r, v0, k, pa), n.owner, r)
    requires Untouched(m.owner.Keys, dm, dn) && Untouched(n.owner.Keys, dn, do)
    requires if res == Success then
        && LeafSet(n, o, r, v0 + k, Pte(pa + k * PGSIZE, WithV(perm)))
        && OnlyTables(Given(n.owner, r, v0 + k, pa + k * PGSIZE), o.owner, r)
        && Mappable(n.owner, r, v0 + k, pa + k * PGSIZE, perm)
        && Mappable(m.owner, r, v0 + k, pa + k * PGSIZE, perm)
      else SameLeaves(n, o) && OnlyTables(n.owner, o.owner, r)
    ensures var k' := if res == Success then k + 1 else k;
      Mapped(m, o, r, v0, k', pa, WithV(perm)) && OnlyTables(GivenAll(m.owner, r, v0, k', pa), o.owner, r)
    ensures Untouched(m.owner.Keys, dm, do)
    ensures Leaf(n, r, v0 + k) == Leaf(m, r, v0 + k)
  {
    hide Leaf, Pte;
    GivenAllKeys(m.owner, r, v0, k, pa);
    if res == Success {
      if v0 + k < USERTOP {
        GivenAllKeeps(m.owner, r, v0, k, pa, pa + k * PGSIZE);
      }
    }
  }

  lemma KeepMappable(was: map<int, Own>, own: map<int, Own>, r: int, v: int, pa: int, perm: int)
    requires Mappable(was, r, v, pa, perm) && OnlyTables(was, own, r)
    ensures Mappable(own, r, v, pa, perm)
  {
  }

  lemma GivenTables(was: map<int, Own>, own: map<int, Own>, r: int, v: int, pa: int, perm: int)
    requires Mappable(was, r, v, pa, perm) && OnlyTables(was, own, r)
    ensures OnlyTables(Given(was, r, v, pa), Given(own, r, v, pa), r) && Given(own, r, v, pa).Keys == own.Keys
  {
  }

  lemma SameLeafAt(m: Mem, n: Mem, r: int, v: int)
    requires SameLeaves(m, n)
    ensures Leaf(n, r, v) == Leaf(m, r, v)
  {
  }

  lemma LeafIs(m: Mem, r: int, v: int)
    requires Tree(m) && Pos(r, 0, v / NENT) in m.at
    ensures m.at[Pos(r, 0, v / NENT)] in m.t && |m.t[m.at[Pos(r, 0, v / NENT)]]| == NENT
    ensures Leaf(m, r, v) == m.t[m.at[Pos(r, 0, v / NENT)]][v % NENT]
  {
    LeafTable(m, r, v);
  }

  lemma WithLeafIs(m: Mem, r: int, v: int, x: int)
    requires Tree(m) && Pos(r, 0, v / NENT) in m.at
    requires m.at[Pos(r, 0, v / NENT)] in m.t && |m.t[m.at[Pos(r, 0, v / NENT)]]| == NENT
    ensures var a := m.at[Pos(r, 0, v / NENT)]; WithLeaf(m, r, v, x) == m.(t := m.t[a := m.t[a][v % NENT := x]])
  {
  }

  lemma LeafSetSame(m: Mem, n: Mem, o: Mem, r: int, v: int, x: int)
    requires SameLeaves(m, n) && LeafSet(n, o, r, v, x)
    ensures LeafSet(m, o, r, v, x)
  {
    hide Leaf;
  }

  lemma MapLeaf(m: Mem, r: int, v: int, pa: int, perm: int)
    requires Tree(m) && 0 <= v && Pos(r, 0, v / NENT) in m.at && Mappable(m.owner, r, v, pa, perm)
      && !IsValid(Leaf(m, r, v))
    ensures m.at[Pos(r, 0, v / NENT)] in m.t && |m.t[m.at[Pos(r, 0, v / NENT)]]| == NENT
    ensures var x := Pte(pa, WithV(perm)); var n := WithLeaf(m, r, v, x).(owner := Given(m.owner, r, v, pa));
      Tree(n) && LeafSet(m, n, r, v, x)
  {
    hide PosOk, Leaf, Pte, PteAddr, IsValid, IsUser;
    PteRoundTrip(pa, WithV(perm));
    UserBitKept(perm);
    assert forall b :: b in m.owner && m.owner[b] == User(r, v) ==> OwnOk(m, b);
    SetLeaf(m, r, v, Pte(pa, WithV(perm)), Given(m.owner, r, v, pa));
  }

  lemma UserBitKept(perm: int)
    requires 0 <= perm < 1024
    ensures 0 <= WithV(perm) < 1024 && WithV(perm) % 2 == 1 && WithV(perm) / PTE_U % 2 == perm / PTE_U % 2
    ensures HasPerm(WithV(perm)) == HasPerm(perm)
  {
  }

  lemma WalkPath(r: int, va: int)
    requires 0 <= va < MAXVA
    ensures var v := va / PGSIZE;
      && Path(r, 2, v) == Pos(r, 2, 0)
      && (forall l {:trigger Path(r, l, v)} :: 0 <= l <= 2 ==>
            InTree(Path(r, l, v)) && Path(r, l, v).l == l && Path(r, l, v).r == r)
      && (forall l {:trigger PX(l, va)} :: 1 <= l <= 2 ==>
            && Below(Path(r, l, v), PX(l, va)) == Path(r, l - 1, v) && Above(Path(r, l - 1, v)) == Path(r, l, v)
            && PX(l, va) == Path(r, l - 1, v).q % NENT)
  {
    WalkIndex(r, va);
  }

  lemma WalkStarts(m: Mem, data: map<int, seq<int>>, r: int)
    ensures SameLeaves(m, m) && OnlyTables(m.owner, m.owner, r) && Untouched(m.owner.Keys, data, data)
  {
  }

  lemma WalkStep(m: Mem, dm: map<int, seq<int>>, n: Mem, dn: map<int, seq<int>>, o: Mem, do: map<int, seq<int>>, r: int)
    requires SameLeaves(m, n) && OnlyTables(m.owner, n.owner, r) && Untouched(m.owner.Keys, dm, dn)
    requires SameLeaves(n, o) && OnlyTables(n.owner, o.owner, r) && Untouched(n.owner.Keys, dn, do)
    ensures SameLeaves(m, o) && OnlyTables(m.owner, o.owner, r) && Untouched(m.owner.Keys, dm, do)
  {
    hide Leaf;
  }

  lemma WithTableIs(m: Mem, p: Pos, a: int)
    requires Above(p) in m.at && m.at[Above(p)] in m.t && |m.t[m.at[Above(p)]]| == NENT && a != m.at[Above(p)]
    ensures var up, t := m.at[Above(p)], m.t[a := ZeroTable()];
      WithTable(m, p, a) ==
        Mem(t[up := t[up][p.q % NENT := Pte(a, PTE_V)]], m.at[p := a], m.owner[a := Table(p)], m.roots)
  {
  }

  /** A fresh page linked in as the table at p. */
  lemma GrowTree(m: Mem, p: Pos, a: int)
    requires Tree(m) && a !in m.owner && a % PGSIZE == 0
    requires InTree(p) && p.l < 2 && p !in m.at && Above(p) in m.at
    ensures m.at[Above(p)] in m.t && |m.t[m.at[Above(p)]]| == NENT && a != m.at[Above(p)]
    ensures Tree(WithTable(m, p, a)) && SameLeaves(m, WithTable(m, p, a))
  {
    hide Tree, Leaf;
    var h := m.(owner := m.owner[a := Held]);
    HoldPage(m, a);
    AddTable(h, p, a);
    assert WithTable(h, p, a) == WithTable(m, p, a);
  }

  lemma SameLeavesRefl(m: Mem)
    ensures SameLeaves(m, m)
  {
  }

  lemma SameLeavesTrans(m: Mem, n: Mem, o: Mem)
    requires SameLeaves(m, n) && SameLeaves(n, o)
    ensures SameLeaves(m, o)
  {
  }

  lemma NoLeaf(m: Mem, r: int, v: int, l: int)
    requires Tree(m) && 1 <= l <= 2 && Path(r, l - 1, v) !in m.at
    ensures Leaf(m, r, v) == 0
  {
    hide EntryOk, OwnOk, InTree;
    assert forall c :: c in m.at && c.l < 2 ==> PosOk(m, c) && Above(c) in m.at;
    assert Above(Path(r, 0, v)) == Path(r, 1, v);
  }

  // ----- Boot

  /** At boot every page from p on is taken; freerange gives them to the allocator. */
  ghost function HeldFrom(pages: set<int>, p: int): (o: map<int, Own>)
    ensures forall a :: a in o <==> a in pages && p <= a
    ensures forall a :: a in o ==> o[a] == Held
  {
    map a | a in pages && p <= a :: Held
  }

  lemma KinitStarts(end: int, phystop: int, data: map<int, seq<int>>)
    requires 0 < end && forall a :: a in Pages(end, phystop) ==> a in data && |data[a]| == PGSIZE
    ensures ListsOk(data, 0, map[], HeldFrom(Pages(end, phystop), end).Keys, [], Pages(end, phystop))
    ensures HeldFrom(Pages(end, phystop), PGROUNDUP(end)) == HeldFrom(Pages(end, phystop), end)
    ensures end <= PGROUNDUP(end) && PGROUNDUP(end) % PGSIZE == 0
  {
    assert HeldFrom(Pages(end, phystop), end).Keys == Pages(end, phystop);
  }

  lemma KinitStep(end: int, phystop: int, p: int)
    requires 0 < end <= p && p % PGSIZE == 0 && p + PGSIZE <= phystop
    ensures p in HeldFrom(Pages(end, phystop), p)
    ensures HeldFrom(Pages(end, phystop), p) - {p} == HeldFrom(Pages(end, phystop), p + PGSIZE)
  {
    assert forall a :: a in Pages(end, phystop) && a > p ==> a >= p + PGSIZE;
  }

  lemma KinitEnds(end: int, phystop: int, p: int)
    requires phystop % PGSIZE == 0 && p % PGSIZE == 0 && p + PGSIZE > phystop
    ensures HeldFrom(Pages(end, phystop), p) == map[] && Tree(Mem(map[], map[], map[], {}))
  {
    assert forall a :: a in Pages(end, phystop) ==> a < p;
  }
}
