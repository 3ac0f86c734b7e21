/**
 Sv39 page tables as values (kernel/riscv.h, kernel/vm.c): table pages placed in a forest of
 three-level trees, the leaf entry of every page of every tree, and the owner of every physical page.
 */
module VmSpec {

  const PGSIZE := 4096
  const NENT := 512                  // entries per table page
  const MAXVPN := 0x400_0000         // MAXVA / PGSIZE
  const USERTOP := 0x3ff_fffe        // TRAPFRAME / PGSIZE
  const MAXVA := 0x40_0000_0000
  const U64 := 0x1_0000_0000_0000_0000

  const PTE_V := 1
  const PTE_R := 2
  const PTE_W := 4
  const PTE_X := 8
  const PTE_U := 16

  // ----- Macros

  function PGROUNDDOWN(a: int): int {
    a / PGSIZE * PGSIZE
  }

  function PGROUNDUP(sz: int): int {
    (sz + PGSIZE - 1) / PGSIZE * PGSIZE
  }

  /** The rounded addresses are the nearest page boundaries on either side. */
  lemma Rounding(a: int)
    ensures PGROUNDUP(a) % PGSIZE == 0 && a <= PGROUNDUP(a) < a + PGSIZE
    ensures PGROUNDDOWN(a) % PGSIZE == 0 && a - PGSIZE < PGROUNDDOWN(a) <= a
    ensures PGROUNDUP(a) == PGROUNDDOWN(a) <==> a % PGSIZE == 0
  {
    var q, r := a / PGSIZE, a % PGSIZE;
    assert a == q * PGSIZE + r;
    if r > 0 {
      assert (a + PGSIZE - 1) / PGSIZE == q + 1;
    }
  }

  function PXShift(level: int): int {
    if level == 0 then 0x1000 else if level == 1 then 0x20_0000 else 0x4000_0000
  }

  /** PX(level, va): the index into a table page of that level. */
  function PX(level: int, va: int): (i: int)
    ensures 0 <= i < NENT
  {
    va / PXShift(level) % NENT
  }

  /** PA2PTE(pa) | flags, for a page address and flags below 1024. */
  function Pte(pa: int, flags: int): (x: int) {
    pa / PGSIZE * 1024 + flags
  }

  function PteAddr(x: int): int {
    x / 1024 * PGSIZE
  }

  predicate IsValid(x: int) {
    x % 2 == 1
  }

  predicate IsUser(x: int) {
    x / PTE_U % 2 == 1
  }

  /** One of R, W and X is set: the entry is a leaf. */
  predicate HasPerm(x: int) {
    x / 2 % 8 != 0
  }

  lemma Quotients(n: int, f: int)
    requires 0 <= f < 1024
    ensures (n * 1024 + f) / 1024 == n && (n * 1024 + f) % 1024 == f
  {
  }

  lemma LowBit(k: int, g: int)
    ensures (2 * k + g) % 2 == g % 2
  {
  }

  lemma UserBit(n: int, f: int)
    ensures (PTE_U * n + f) / PTE_U == n + f / PTE_U
  {
  }

  lemma PermBits(n: int, f: int)
    ensures HasPerm(16 * n + f) == HasPerm(f)
  {
    assert (16 * n + f) / 2 == 8 * n + f / 2;
  }

  lemma PteRoundTrip(pa: int, flags: int)
    requires pa % PGSIZE == 0 && 0 <= flags < 1024
    ensures PteAddr(Pte(pa, flags)) == pa && Pte(pa, flags) % 1024 == flags
    ensures IsValid(Pte(pa, flags)) == (flags % 2 == 1) && IsUser(Pte(pa, flags)) == (flags / PTE_U % 2 == 1)
    ensures HasPerm(Pte(pa, flags)) == HasPerm(flags)
  {
    var n := pa / PGSIZE;
    Quotients(n, flags);
    LowBit(n * 512, flags);
    UserBit(n * 64, flags);
    LowBit(n * 32, flags / PTE_U);
    PermBits(n * 64, flags);
  }

  lemma LowFlags(x: int)
    ensures IsValid(x % 1024) == IsValid(x) && HasPerm(x % 1024) == HasPerm(x)
  {
    LowBit(x / 1024 * 512, x % 1024);
    PermBits(x / 1024 * 64, x % 1024);
  }

  // ----- Places in a tree

  /** The table of level l whose pages share the number q once their low 9 * (l + 1) bits are gone. */
  datatype Pos = Pos(r: int, l: int, q: int)

  /** The place of the table of level l on the way to page v. */
  function Path(r: int, l: int, v: int): Pos {
    Pos(r, l, if l == 0 then v / NENT else if l == 1 then v / NENT / NENT else v / NENT / NENT / NENT)
  }

  function Above(p: Pos): Pos {
    Pos(p.r, p.l + 1, p.q / NENT)
  }

  function Below(p: Pos, e: int): Pos {
    Pos(p.r, p.l - 1, p.q * NENT + e)
  }

  predicate InTree(p: Pos) {
    0 <= p.l <= 2 && 0 <= p.q < (if p.l == 2 then 1 else if p.l == 1 then NENT else NENT * NENT)
  }

  /** The entry walk follows at each level leads to the table of the level below. */
  lemma WalkIndex(r: int, va: int)
    requires 0 <= va < MAXVA
    ensures var v := va / PGSIZE;
      && PX(0, va) == v % NENT
      && Path(r, 2, v) == Pos(r, 2, 0)
      && (forall l {:trigger Path(r, l, v)} :: 0 <= l <= 2 ==> InTree(Path(r, l, v)))
      && Below(Path(r, 2, v), PX(2, va)) == Path(r, 1, v)
      && Below(Path(r, 1, v), PX(1, va)) == Path(r, 0, v)
  {
    var v := va / PGSIZE;
    assert va / 0x20_0000 == v / NENT;
    assert va / 0x4000_0000 == v / NENT / NENT;
  }

  // ----- Machines

  datatype Own = Held | Table(p: Pos) | User(r: int, v: int)

  /** Table pages by address, their places, the owner of every allocated page, the tree roots. */
  datatype Mem = Mem(t: map<int, seq<int>>, at: map<Pos, int>, owner: map<int, Own>, roots: set<int>)

  /** The leaf entry of page v in tree r: the page table as a plain map. */
  function Leaf(m: Mem, r: int, v: int): (x: int) {
    var p := Pos(r, 0, v / NENT);
    if p in m.at && m.at[p] in m.t && |m.t[m.at[p]]| == NENT then m.t[m.at[p]][v % NENT] else 0
  }

  ghost predicate LeafOk(m: Mem, r: int, v: int, x: int) {
    if !IsValid(x) then x == 0
    else if !HasPerm(x) then false
    else if v < USERTOP then PteAddr(x) in m.owner && m.owner[PteAddr(x)] == User(r, v)
    else !IsUser(x)
  }

  ghost predicate EntryOk(m: Mem, p: Pos, e: int, x: int) {
    if p.l == 0 then LeafOk(m, p.r, p.q * NENT + e, x)
    else
      && (IsValid(x) <==> Below(p, e) in m.at)
      && (Below(p, e) in m.at ==> PteAddr(x) == m.at[Below(p, e)] && x % 1024 == PTE_V)
  }

  ghost predicate PosOk(m: Mem, p: Pos)
    requires p in m.at
  {
    && p.r in m.roots && InTree(p) && (p.l == 2 ==> m.at[p] == p.r) && (p.l < 2 ==> Above(p) in m.at)
    && m.at[p] in m.owner && m.owner[m.at[p]] == Table(p)
    && m.at[p] in m.t && |m.t[m.at[p]]| == NENT
    && forall e :: 0 <= e < NENT ==> EntryOk(m, p, e, m.t[m.at[p]][e])
  }

  ghost predicate OwnOk(m: Mem, a: int)
    requires a in m.owner
  {
    match m.owner[a]
    case Held => true
    case Table(p) => p in m.at && m.at[p] == a
    case User(r, v) => 0 <= v < USERTOP && IsValid(Leaf(m, r, v)) && PteAddr(Leaf(m, r, v)) == a
  }

  /** No page is shared: a table page has one place, a user page is mapped by one leaf. */
  ghost predicate Tree(m: Mem) {
    && (forall r :: r in m.roots ==> Pos(r, 2, 0) in m.at)
    && (forall p :: p in m.at ==> PosOk(m, p))
    && (forall a :: a in m.owner ==> OwnOk(m, a))
  }

  ghost predicate SameLeaves(m: Mem, n: Mem) {
    forall r, v :: Leaf(n, r, v) == Leaf(m, r, v)
  }

  // ----- The walk that the hardware does

  /** The entry found by going down from the root, or 0 when a table is missing. */
  function Walked(m: Mem, r: int, va: int): (x: int) {
    if r !in m.t || |m.t[r]| != NENT then 0 else
    var x2 := m.t[r][PX(2, va)];
    if !IsValid(x2) || PteAddr(x2) !in m.t || |m.t[PteAddr(x2)]| != NENT then 0 else
    var x1 := m.t[PteAddr(x2)][PX(1, va)];
    if !IsValid(x1) || PteAddr(x1) !in m.t || |m.t[PteAddr(x1)]| != NENT then 0 else
    m.t[PteAddr(x1)][PX(0, va)]
  }

  lemma Down(m: Mem, p: Pos, e: int)
    requires Tree(m) && p in m.at && p.l > 0 && 0 <= e < NENT
    ensures m.at[p] in m.t && |m.t[m.at[p]]| == NENT
    ensures var x := m.t[m.at[p]][e];
      && (IsValid(x) <==> Below(p, e) in m.at)
      && (IsValid(x) ==> PteAddr(x) == m.at[Below(p, e)] && PteAddr(x) in m.t && |m.t[PteAddr(x)]| == NENT)
  {
    hide LeafOk, InTree, OwnOk;
    assert PosOk(m, p);
    assert EntryOk(m, p, e, m.t[m.at[p]][e]);
    if Below(p, e) in m.at {
      assert PosOk(m, Below(p, e));
    }
  }

  lemma RootAt(m: Mem, r: int)
    requires Tree(m) && r in m.roots
    ensures Pos(r, 2, 0) in m.at && m.at[Pos(r, 2, 0)] == r && r in m.t && |m.t[r]| == NENT
  {
    hide EntryOk, OwnOk;
    assert PosOk(m, Pos(r, 2, 0));
  }

  lemma UpPresent(m: Mem, r: int, va: int)
    requires Tree(m) && 0 <= va < MAXVA && Path(r, 0, va / PGSIZE) in m.at
    ensures Path(r, 1, va / PGSIZE) in m.at && Path(r, 2, va / PGSIZE) in m.at
  {
    hide EntryOk, OwnOk;
    var v := va / PGSIZE;
    assert PosOk(m, Path(r, 0, v));
    assert Above(Path(r, 0, v)) == Path(r, 1, v);
    assert PosOk(m, Path(r, 1, v));
    assert Above(Path(r, 1, v)) == Path(r, 2, v);
  }

  /** The three-level tree refines the plain map. */
  lemma WalkedIsLeaf(m: Mem, r: int, va: int)
    requires Tree(m) && r in m.roots && 0 <= va < MAXVA
    ensures Walked(m, r, va) == Leaf(m, r, va / PGSIZE)
  {
    var v := va / PGSIZE;
    WalkIndex(r, va);
    RootAt(m, r);
    Down(m, Path(r, 2, v), PX(2, va));
    if Path(r, 1, v) in m.at {
      Down(m, Path(r, 1, v), PX(1, va));
    }
    if Path(r, 0, v) in m.at {
      UpPresent(m, r, va);
    }
    hide Tree, PX;
  }

  // ----- Changes

  function ZeroTable(): (t: seq<int>)
    ensures |t| == NENT && forall e :: 0 <= e < NENT ==> t[e] == 0
  {
    seq(NENT, _ => 0)
  }

  /** An allocated page that no tree knows yet. */
  lemma HoldPage(m: Mem, a: int)
    requires Tree(m) && a !in m.owner
    ensures Tree(m.(owner := m.owner[a := Held]))
    ensures SameLeaves(m, m.(owner := m.owner[a := Held]))
  {
    var n := m.(owner := m.owner[a := Held]);
    forall p | p in n.at ensures PosOk(n, p) {
      assert PosOk(m, p);
      forall e | 0 <= e < NENT ensures EntryOk(n, p, e, n.t[n.at[p]][e]) {
        assert EntryOk(m, p, e, m.t[m.at[p]][e]);
      }
    }
    forall b | b in n.owner ensures OwnOk(n, b) {
      assert b != a ==> OwnOk(m, b);
    }
  }

  lemma DropHeld(m: Mem, a: int)
    requires Tree(m) && a in m.owner && m.owner[a] == Held
    ensures Tree(m.(owner := m.owner - {a})) && SameLeaves(m, m.(owner := m.owner - {a}))
  {
    var n := m.(owner := m.owner - {a});
    forall p | p in n.at ensures PosOk(n, p) {
      assert PosOk(m, p);
      forall e | 0 <= e < NENT ensures EntryOk(n, p, e, n.t[n.at[p]][e]) {
        assert EntryOk(m, p, e, m.t[m.at[p]][e]);
      }
    }
    forall b | b in n.owner ensures OwnOk(n, b) {
      assert OwnOk(m, b);
    }
  }

  /** A zeroed page becomes the table at p, and the entry above points to it. */
  function WithTable(m: Mem, p: Pos, a: int): (n: Mem)
    requires Above(p) in m.at && m.at[Above(p)] in m.t && |m.t[m.at[Above(p)]]| == NENT
  {
    var up := m.at[Above(p)];
    Mem(m.t[a := ZeroTable()][up := m.t[up][p.q % NENT := Pte(a, PTE_V)]],
        m.at[p := a], m.owner[a := Table(p)], m.roots)
  }

  lemma AddTable(m: Mem, p: Pos, a: int)
    requires Tree(m) && a in m.owner && m.owner[a] == Held && a % PGSIZE == 0
    requires InTree(p) && p.l < 2 && p !in m.at && Above(p) in m.at
    ensures m.at[Above(p)] in m.t && |m.t[m.at[Above(p)]]| == NENT && a != m.at[Above(p)]
    ensures Tree(WithTable(m, p, a)) && SameLeaves(m, WithTable(m, p, a))
  {
    assert PosOk(m, Above(p));
    var n := WithTable(m, p, a);
    PteRoundTrip(a, PTE_V);
    AddTableLeaves(m, n, p, a);
    forall p' | p' in n.at ensures PosOk(n, p') {
      AddTablePos(m, p, a, p');
    }
    hide PosOk;
    forall b | b in n.owner ensures OwnOk(n, b) {
      assert OwnOk(m, b);
    }
  }

  lemma AddTableLeaves(m: Mem, n: Mem, p: Pos, a: int)
    requires Tree(m) && a in m.owner && m.owner[a] == Held && p !in m.at && 0 <= p.l < 2 && Above(p) in m.at
    requires m.at[Above(p)] in m.t && |m.t[m.at[Above(p)]]| == NENT && n == WithTable(m, p, a)
    ensures SameLeaves(m, n)
  {
    hide EntryOk, OwnOk, InTree;
    assert PosOk(m, Above(p));
    forall r, v ensures Leaf(n, r, v) == Leaf(m, r, v) {
      var p' := Pos(r, 0, v / NENT);
      if p' in m.at {
        assert PosOk(m, p');
      }
    }
  }

  lemma NoOrphan(m: Mem, p: Pos, e: int)
    requires Tree(m) && p !in m.at && p.l < 2 && 0 <= e < NENT
    ensures Below(p, e) !in m.at
  {
    hide EntryOk, OwnOk, InTree;
    assert forall c :: c in m.at && c.l < 2 ==> PosOk(m, c) && Above(c) in m.at;
    assert Above(Below(p, e)) == p;
  }

  lemma AddTablePos(m: Mem, p: Pos, a: int, p': Pos)
    requires Tree(m) && a in m.owner && m.owner[a] == Held && a % PGSIZE == 0
    requires InTree(p) && p.l < 2 && p !in m.at && Above(p) in m.at
    requires m.at[Above(p)] in m.t && |m.t[m.at[Above(p)]]| == NENT
    requires p' in WithTable(m, p, a).at
    ensures PosOk(WithTable(m, p, a), p')
  {
    var n := WithTable(m, p, a);
    PteRoundTrip(a, PTE_V);
    assert PosOk(m, Above(p));
    if p' != p {
      assert PosOk(m, p');
    }
    forall e | 0 <= e < NENT ensures EntryOk(n, p', e, n.t[n.at[p']][e]) {
      if p' == p {
        NoOrphan(m, p, e);
      } else {
        assert EntryOk(m, p', e, m.t[m.at[p']][e]);
        if p'.l > 0 && Below(p', e) == p {
          assert p' == Above(p) && e == p.q % NENT;
        }
      }
    }
  }

  /** The leaf entry of page v becomes x. */
  function WithLeaf(m: Mem, r: int, v: int, x: int): (n: Mem)
    requires Pos(r, 0, v / NENT) in m.at && m.at[Pos(r, 0, v / NENT)] in m.t && |m.t[m.at[Pos(r, 0, v / NENT)]]| == NENT
  {
    var a := m.at[Pos(r, 0, v / NENT)];
    m.(t := m.t[a := m.t[a][v % NENT := x]])
  }

  ghost predicate LeafSet(m: Mem, n: Mem, r: int, v: int, x: int) {
    forall r', v' :: Leaf(n, r', v') == if r' == r && v' == v then x else Leaf(m, r', v')
  }

  lemma LeafTable(m: Mem, r: int, v: int)
    requires Tree(m) && Pos(r, 0, v / NENT) in m.at
    ensures m.at[Pos(r, 0, v / NENT)] in m.t && |m.t[m.at[Pos(r, 0, v / NENT)]]| == NENT
  {
    assert PosOk(m, Pos(r, 0, v / NENT));
  }

  lemma SetLeafLeaves(m: Mem, r: int, v: int, x: int, own: map<int, Own>)
    requires Tree(m) && Pos(r, 0, v / NENT) in m.at
    requires m.at[Pos(r, 0, v / NENT)] in m.t && |m.t[m.at[Pos(r, 0, v / NENT)]]| == NENT
    ensures LeafSet(m, WithLeaf(m, r, v, x).(owner := own), r, v, x)
  {
    hide EntryOk, OwnOk, InTree;
    var n := WithLeaf(m, r, v, x).(owner := own);
    assert PosOk(m, Pos(r, 0, v / NENT));
    forall r', v' ensures Leaf(n, r', v') == if r' == r && v' == v then x else Leaf(m, r', v') {
      var p' := Pos(r', 0, v' / NENT);
      if p' in m.at {
        assert PosOk(m, p');
      }
      assert v' == v' / NENT * NENT + v' % NENT && v == v / NENT * NENT + v % NENT;
    }
  }

  /** What a change of the leaf (r, v) to x may do to the owners: pages of other leaves and tables stay. */
  ghost predicate Handover(m: Mem, own: map<int, Own>, r: int, v: int, x: int) {
    && (forall b :: b in m.owner && m.owner[b] != Held && m.owner[b] != User(r, v) ==> b in own && own[b] == m.owner[b])
    && (forall b :: b in own && own[b] != Held ==>
          if own[b] == User(r, v) then 0 <= v < USERTOP && IsValid(x) && PteAddr(x) == b
          else b in m.owner && m.owner[b] == own[b])
    && (if !IsValid(x) then x == 0
        else if !HasPerm(x) then false
        else if v < USERTOP then PteAddr(x) in own && own[PteAddr(x)] == User(r, v)
        else !IsUser(x))
  }

  lemma SetLeaf(m: Mem, r: int, v: int, x: int, own: map<int, Own>)
    requires Tree(m) && Pos(r, 0, v / NENT) in m.at && Handover(m, own, r, v, x)
    ensures m.at[Pos(r, 0, v / NENT)] in m.t && |m.t[m.at[Pos(r, 0, v / NENT)]]| == NENT
    ensures var n := WithLeaf(m, r, v, x).(owner := own); Tree(n) && LeafSet(m, n, r, v, x)
  {
    LeafTable(m, r, v);
    var n := WithLeaf(m, r, v, x).(owner := own);
    SetLeafLeaves(m, r, v, x, own);
    forall p | p in n.at ensures PosOk(n, p) {
      SetLeafPos(m, r, v, x, own, p);
    }
    hide PosOk, Leaf, WithLeaf;
    forall b | b in n.owner ensures OwnOk(n, b) {
      if own[b] != Held && own[b] != User(r, v) {
        assert OwnOk(m, b);
      }
    }
  }

  lemma SetLeafPos(m: Mem, r: int, v: int, x: int, own: map<int, Own>, p: Pos)
    requires Tree(m) && Pos(r, 0, v / NENT) in m.at && Handover(m, own, r, v, x) && p in m.at
    requires m.at[Pos(r, 0, v / NENT)] in m.t && |m.t[m.at[Pos(r, 0, v / NENT)]]| == NENT
    ensures PosOk(WithLeaf(m, r, v, x).(owner := own), p)
  {
    hide OwnOk, InTree;
    var n := WithLeaf(m, r, v, x).(owner := own);
    assert PosOk(m, p) && PosOk(m, Pos(r, 0, v / NENT));
    assert v == v / NENT * NENT + v % NENT;
    forall e | 0 <= e < NENT ensures EntryOk(n, p, e, n.t[n.at[p]][e]) {
      assert EntryOk(m, p, e, m.t[m.at[p]][e]);
    }
    var b := m.at[p];
    assert m.owner[b] == Table(p);
    assert m.owner[b] != Held && m.owner[b] != User(r, v);
    assert b in own && own[b] == m.owner[b];
  }

  // ----- The free list

  /** Every page is either free, once, or used. */
  ghost predicate FreeInv(free: seq<int>, used: set<int>, pages: set<int>) {
    && (forall i, j :: 0 <= i < j < |free| ==> free[i] != free[j])
    && (forall i :: 0 <= i < |free| ==> free[i] in pages && free[i] !in used)
    && used <= pages
    && (forall a :: a in pages ==> a in used || a in free)
  }

  /** Physical pages are conserved. */
  lemma {:induction false} Conservation(free: seq<int>, used: set<int>, pages: set<int>)
    requires FreeInv(free, used, pages)
    ensures |free| + |used| == |pages|
  {
    if free == [] {
      assert forall a :: a in pages ==> a !in free && a in used;
      assert used == pages;
    } else {
      var a := free[0];
      assert forall b :: b in pages - {a} ==> b in used || b in free[1..];
      Conservation(free[1..], used, pages - {a});
    }
  }

  lemma TakePage(free: seq<int>, used: set<int>, pages: set<int>)
    requires FreeInv(free, used, pages) && free != []
    ensures FreeInv(free[1..], used + {free[0]}, pages) && free[0] !in used && free[0] in pages
  {
  }

  lemma GivePage(free: seq<int>, used: set<int>, pages: set<int>, a: int)
    requires FreeInv(free, used, pages) && a in used
    ensures FreeInv([a] + free, used - {a}, pages)
  {
  }

  /** A leaf is empty or valid, and a leaf for the user leads to a page of that leaf alone. */
  lemma LeafCases(m: Mem, r: int, v: int)
    requires Tree(m)
    ensures LeafOk(m, r, v, Leaf(m, r, v))
  {
    hide OwnOk, InTree, PteAddr, IsUser;
    var p := Pos(r, 0, v / NENT);
    if p in m.at {
      assert PosOk(m, p);
      assert EntryOk(m, p, v % NENT, m.t[m.at[p]][v % NENT]);
      assert v == v / NENT * NENT + v % NENT;
    }
  }
}
