/**
 kernel/vm.c and kernel/kalloc.c: page tables built and torn down in place, over the physical
 page allocator.
 */
module VmCode {
  import opened VmSpec
  import opened VmTear
  import opened VmSteps
  import opened VmRoom

  class Vm {
    const end: int
    const phystop: int
    var tables: map<int, seq<int>>   // pages used as page tables
    var data: map<int, seq<int>>     // bytes of the other pages
    var head: int                    // kmem.freelist
    var next: map<int, int>          // r->next, in the free pages
    ghost var at: map<Pos, int>
    ghost var owner: map<int, Own>
    ghost var roots: set<int>
    ghost var free: seq<int>

    ghost function M(): Mem
      reads this`tables, this`at, this`owner, this`roots
    {
      Mem(tables, at, owner, roots)
    }

    ghost predicate Lists()
      reads this`data, this`head, this`next, this`owner, this`free
    {
      ListsOk(data, head, next, owner.Keys, free, Pages(end, phystop))
    }

    ghost predicate Ok()
      reads this
    {
      Lists() && Tree(M())
    }

    /** kinit: every page of the range goes on the free list. */
    constructor (end: int, phystop: int)
      requires 0 < end <= phystop && phystop % PGSIZE == 0
      ensures this.end == end && this.phystop == phystop && Ok() && roots == {} && owner == map[]
    {
      this.end, this.phystop := end, phystop;
      tables, next, head := map[], map[], 0;
      data := map a | a in Pages(end, phystop) :: Fill(0);
      at, roots, free := map[], {}, [];
      owner := HeldFrom(Pages(end, phystop), end);
      new;
      hide ListsOk, Pages, HeldFrom, Tree, Fill;
      KinitStarts(end, phystop, data);
      var p := PGROUNDUP(end);
      while p + PGSIZE <= phystop
        invariant end <= p && p % PGSIZE == 0 && Lists() && tables == map[] && at == map[] && roots == {}
        invariant owner == HeldFrom(Pages(end, phystop), p)
      {
        KinitStep(end, phystop, p);
        var ok := Kfree(p);
        p := p + PGSIZE;
      }
      KinitEnds(end, phystop, p);
    }

    /** kalloc: a page filled with junk, or 0. */
    method Kalloc() returns (a: int)
      requires Lists()
      modifies this`data, this`head, this`owner, this`free
      ensures Lists()
      ensures if old(free) == [] then a == 0 && unchanged(this)
        else
          && a == old(free)[0] != 0 && a % PGSIZE == 0 && a !in old(owner) && free == old(free)[1..]
          && owner == old(owner)[a := Held] && data == old(data)[a := Fill(5)]
    {
      hide Fill;
      a := head;
      if a != 0 {
        TakePage(free, owner.Keys, Pages(end, phystop));
        head := next[a];
        assert owner[a := Held].Keys == owner.Keys + {a};
        free, owner := free[1..], owner[a := Held];
        data := data[a := Fill(5)];
      }
    }

    /** kfree: false is the panic. */
    method Kfree(a: int) returns (ok: bool)
      requires Lists() && 0 < end && (a in Pages(end, phystop) ==> a in owner)
      modifies this`data, this`head, this`next, this`owner, this`free
      ensures Lists() && (ok <==> a % PGSIZE == 0 && end <= a < phystop)
      ensures !ok ==> unchanged(this)
      ensures ok ==> free == [a] + old(free) && owner == old(owner) - {a} && data == old(data)[a := Fill(1)]
    {
      hide Fill;
      if a % PGSIZE != 0 || a < end || a >= phystop {
        return false;
      }
      data := data[a := Fill(1)];
      GivePage(free, owner.Keys, Pages(end, phystop), a);
      LinkedFrame(head, next, free, a, head);
      assert (owner - {a}).Keys == owner.Keys - {a};
      assert ([a] + free)[1..] == free;
      next := next[a := head];
      head := a;
      free, owner := [a] + free, owner - {a};
      ok := true;
    }

    /** The part of walk that makes a missing table: 0 when memory is out. */
    method NewTable(t: int, i: int, ghost p: Pos) returns (page: int)
      requires Ok() && InTree(p) && p.l < 2 && p !in at && Above(p) in at && at[Above(p)] == t && i == p.q % NENT
      modifies this`tables, this`data, this`head, this`at, this`owner, this`free
      ensures Ok() && SameLeaves(old(M()), M()) && OnlyTables(old(owner), owner, p.r)
        && Untouched(old(owner).Keys, old(data), data)
      ensures page == 0 ==> free == [] && unchanged(this)
      ensures page != 0 ==> at == old(at)[p := page] && |free| == |old(free)| - 1
    {
      hide Tree, SameLeaves, Fill, ListsOk, Pages, WithTable;
      ghost var m := M();
      page := Kalloc();
      if page != 0 {
        assert owner.Keys == m.owner.Keys + {page};
        GrowTree(m, p, page);
        WithTableIs(m, p, page);
        tables := tables[page := ZeroTable()];
        tables := tables[t := tables[t][i := Pte(page, PTE_V)]];
        at, owner := at[p := page], owner[page := Table(p)];
        assert owner == m.owner[page := Table(p)];
        assert owner.Keys == m.owner.Keys + {page};
      } else {
        SameLeavesRefl(m);
      }
    }

    /** What walk may change. */
    ghost function W(alloc: bool): set<Vm> {
      if alloc then {this} else {}
    }

    /** walk: the table page that holds va's leaf entry, or 0. */
    method Walk(r: int, va: int, alloc: bool) returns (t: int)
      requires Ok() && r in roots && 0 <= va < MAXVA
      modifies W(alloc)`tables, W(alloc)`data, W(alloc)`head, W(alloc)`at, W(alloc)`owner, W(alloc)`free
      ensures Ok() && SameLeaves(old(M()), M()) && OnlyTables(old(owner), owner, r)
        && Untouched(old(owner).Keys, old(data), data)
      ensures t != 0 ==> Path(r, 0, va / PGSIZE) in at && at[Path(r, 0, va / PGSIZE)] == t
      ensures t == 0 ==> Leaf(M(), r, va / PGSIZE) == 0
      ensures t != 0 ==> Tabled(old(at), |old(free)|, at, |free|, r, va / PGSIZE, va / PGSIZE + 1, 0)
      ensures t == 0 && alloc ==> free == [] && Lacks(old(at), r, va / PGSIZE, va / PGSIZE + 1) > |old(free)|
      ensures !alloc ==> unchanged(this)
    {
      hide Tree, Lists, SameLeaves, Leaf, PX, InTree, Path, OnlyTables, Untouched, WalkedTo, Tabled, Lacks;
      ghost var v := va / PGSIZE;
      WalkedStarts(at, |free|, r, v);
      WalkPath(r, va);
      RootAt(M(), r);
      WalkStarts(M(), data, r);
      t := r;
      var level := 2;
      while level > 0
        invariant 0 <= level <= 2 && Ok() && SameLeaves(old(M()), M()) && OnlyTables(old(owner), owner, r)
        invariant Untouched(old(owner).Keys, old(data), data) && r in roots
        invariant Path(r, level, v) in at && at[Path(r, level, v)] == t
        invariant !alloc ==> unchanged(this)
        invariant WalkedTo(old(at), |old(free)|, at, |free|, r, v, level)
      {
        var i := PX(level, va);
        Down(M(), Path(r, level, v), i);
        var pte := tables[t][i];
        ghost var was, n := at, |free|;
        if IsValid(pte) {
          t := PteAddr(pte);
          assert at.Keys == at.Keys + {Path(r, level - 1, v)};
        } else {
          NoLeaf(M(), r, v, level);
          if !alloc {
            return 0;
          }
          ghost var m, d := M(), data;
          t := NewTable(t, i, Path(r, level - 1, v));
          WalkStep(old(M()), old(data), m, d, M(), data, r);
          if t == 0 {
            WalkedNot(old(at), |old(free)|, at, r, v, level);
            return;
          }
          assert at.Keys == was.Keys + {Path(r, level - 1, v)};
        }
        WalkedDown(old(at), |old(free)|, was, n, at, |free|, r, v, level);
        level := level - 1;
      }
      WalkedAll(old(at), |old(free)|, at, |free|, r, v);
      TablePage(Path(r, 0, v));
    }

    lemma TablePage(p: Pos)
      requires Ok() && p in at
      ensures at[p] != 0
    {
      assert PosOk(M(), p);
      assert at[p] in owner.Keys;
    }

    /** One turn of mappages' loop, for the page at a. */
    method MapPage(r: int, a: int, pa: int, perm: int) returns (res: Res)
      requires Ok() && r in roots && 0 <= a < MAXVA && Mappable(owner, r, a / PGSIZE, pa, perm)
      modifies this`tables, this`data, this`head, this`at, this`owner, this`free
      ensures Ok() && Untouched(old(owner).Keys, old(data), data)
      ensures res == Success ==> LeafSet(old(M()), M(), r, a / PGSIZE, Pte(pa, WithV(perm)))
      ensures res == Success ==> OnlyTables(Given(old(owner), r, a / PGSIZE, pa), owner, r)
      ensures res != Success ==> SameLeaves(old(M()), M()) && OnlyTables(old(owner), owner, r)
      ensures res == Success ==> Tabled(old(at), |old(free)|, at, |free|, r, a / PGSIZE, a / PGSIZE + 1, 0)
      ensures res == NoMem ==> free == [] && Lacks(old(at), r, a / PGSIZE, a / PGSIZE + 1) > |old(free)|
      ensures res == Remap <==> IsValid(Leaf(old(M()), r, a / PGSIZE))
    {
      hide Tree, ListsOk, SameLeaves, Leaf, LeafSet, OnlyTables, Given, Mappable, WithLeaf, Tabled, Lacks;
      ghost var m, v := M(), a / PGSIZE;
      var t := Walk(r, a, true);
      SameLeafAt(m, M(), r, v);
      if t == 0 {
        return NoMem;
      }
      LeafTable(M(), r, v);
      LeafIs(M(), r, v);
      WalkPath(r, a);
      var i := PX(0, a);
      if IsValid(tables[t][i]) {
        return Remap;
      }
      ghost var n := M();
      KeepMappable(m.owner, owner, r, v, pa, perm);
      MapLeaf(n, r, v, pa, perm);
      WithLeafIs(n, r, v, Pte(pa, WithV(perm)));
      GivenTables(m.owner, owner, r, v, pa, perm);
      tables := tables[t := tables[t][i := Pte(pa, WithV(perm))]];
      owner := Given(owner, r, v, pa);
      LeafSetSame(m, n, M(), r, v, Pte(pa, WithV(perm)));
      res := Success;
    }

    /** mappages.  `done` pages were mapped; all of them on success. */
    method Mappages(r: int, va: int, size: int, pa: int, perm: int) returns (res: Res, ghost done: int)
      requires Ok() && r in roots && 0 <= va && 0 < size && va + size <= MAXVA
      requires forall j :: 0 <= j <= (va + size - 1) / PGSIZE - va / PGSIZE ==>
                 Mappable(owner, r, va / PGSIZE + j, pa + j * PGSIZE, perm)
      modifies this`tables, this`data, this`head, this`at, this`owner, this`free
      ensures Ok() && Untouched(old(owner).Keys, old(data), data)
      ensures 0 <= done <= (va + size - 1) / PGSIZE - va / PGSIZE + 1
      ensures Mapped(old(M()), M(), r, va / PGSIZE, done, pa, WithV(perm))
      ensures OnlyTables(GivenAll(old(owner), r, va / PGSIZE, done, pa), owner, r)
      ensures res == Success <==> done == (va + size - 1) / PGSIZE - va / PGSIZE + 1
      ensures res == Success ==> Tabled(old(at), |old(free)|, at, |free|, r, va / PGSIZE, va / PGSIZE + done, 0)
      ensures res == NoMem ==> free == [] && Lacks(old(at), r, va / PGSIZE, va / PGSIZE + done + 1) > |old(free)|
      ensures res == Remap ==> IsValid(Leaf(old(M()), r, va / PGSIZE + done))
    {
      hide Tree, ListsOk, SameLeaves, Leaf, LeafSet, OnlyTables, Given, GivenAll, Mappable, Mapped, Untouched, Tabled;
      hide Lacks;
      var a, last := PGROUNDDOWN(va), PGROUNDDOWN(va + size - 1);
      var p := pa;
      ghost var v0 := va / PGSIZE;
      done := 0;
      MapStarts(M(), data, r, v0, pa, WithV(perm));
      TabledNothing(at, |free|, r, v0);
      while true
        invariant 0 <= done && a == (v0 + done) * PGSIZE <= last && p == pa + done * PGSIZE && r in roots
        invariant Ok() && Untouched(old(owner).Keys, old(data), data)
        invariant Mapped(old(M()), M(), r, v0, done, pa, WithV(perm))
        invariant Tabled(old(at), |old(free)|, at, |free|, r, v0, v0 + done, 0)
        invariant OnlyTables(GivenAll(old(owner), r, v0, done, pa), owner, r)
        decreases last - a
      {
        ghost var m, d, n := M(), data, |free|;
        StillMappable(old(owner), owner, r, v0, done, pa, perm);
        res := MapPage(r, a, p, perm);
        MapStep(old(M()), old(data), m, d, M(), data, r, v0, done, pa, perm, res);
        if res != Success {
          if res == NoMem {
            TabledFails(old(at), |old(free)|, m.at, n, r, v0, v0 + done, v0 + done + 1, 0, 0);
          }
          return;
        }
        TabledNext(old(at), |old(free)|, m.at, n, at, |free|, r, v0, v0 + done, 0, 0);
        done := done + 1;
        if a == last {
          break;
        }
        a := a + PGSIZE;
        p := p + PGSIZE;
      }
    }

    /** One turn of uvmunmap's loop.  False is a panic. */
    method UnmapPage(r: int, a: int, doFree: bool) returns (ok: bool)
      requires Ok() && 0 < end && r in roots && 0 <= a < MAXVA && (doFree ==> a / PGSIZE < USERTOP)
      modifies this`tables, this`data, this`head, this`next, this`owner, this`free
      ensures Lists() && (ok <==> LeafMapped(old(M()), r, a / PGSIZE))
      ensures ok ==> Ok() && LeafSet(old(M()), M(), r, a / PGSIZE, 0)
      ensures ok ==> owner == Released(old(owner), r, a / PGSIZE, a / PGSIZE + 1, !doFree)
      ensures ok ==> Untouched(owner.Keys, old(data), data)
    {
      hide Tree, ListsOk, Leaf, LeafSet, WithLeaf, Released, Fill;
      ghost var m, v := M(), a / PGSIZE;
      var t := Walk(r, a, false);
      if t == 0 {
        return false;
      }
      LeafIs(m, r, v);
      WalkPath(r, a);
      var i := PX(0, a);
      var pte := tables[t][i];
      if !IsValid(pte) || pte % 1024 == PTE_V {
        return false;
      }
      UnmapLeaf(m, r, v, !doFree);
      WithLeafIs(m, r, v, 0);
      if doFree {
        InPages(PteAddr(pte));
        ok := Kfree(PteAddr(pte));
      } else {
        assert Released(owner, r, v, v + 1, true).Keys == owner.Keys;
        owner := Released(owner, r, v, v + 1, true);
      }
      tables := tables[t := tables[t][i := 0]];
      ok := true;
    }

    lemma InPages(a: int)
      requires Lists() && a in owner
      ensures a % PGSIZE == 0 && end <= a < phystop
    {
      assert a in Pages(end, phystop);
    }

    /** uvmunmap.  False is a panic. */
    method Uvmunmap(r: int, va: int, npages: int, doFree: bool) returns (ok: bool)
      requires Ok() && 0 < end && r in roots && 0 <= va && 0 <= npages && va + npages * PGSIZE <= MAXVA
      requires doFree ==> va / PGSIZE + npages <= USERTOP
      modifies this`tables, this`data, this`head, this`next, this`owner, this`free
      ensures ok <==> va % PGSIZE == 0 && AllMapped(old(M()), r, va / PGSIZE, va / PGSIZE + npages)
      ensures ok ==> Ok() && Cleared(old(M()), M(), r, va / PGSIZE, va / PGSIZE + npages)
      ensures ok ==> owner == Released(old(owner), r, va / PGSIZE, va / PGSIZE + npages, !doFree)
      ensures ok ==> Untouched(owner.Keys, old(data), data)
    {
      hide Tree, ListsOk, Leaf, LeafSet, Released, Cleared, Untouched, AllMapped;
      if va % PGSIZE != 0 {
        return false;
      }
      ghost var v0, k := va / PGSIZE, 0;
      UnmapStarts(M(), data, r, v0, !doFree);
      var a := va;
      while a < va + npages * PGSIZE
        invariant 0 <= k <= npages && a == (v0 + k) * PGSIZE && Ok() && r in roots
        invariant AllMapped(old(M()), r, v0, v0 + k) && Cleared(old(M()), M(), r, v0, v0 + k)
        invariant owner == Released(old(owner), r, v0, v0 + k, !doFree)
        invariant Untouched(owner.Keys, old(data), data)
      {
        ghost var m, d := M(), data;
        UnmapNext(old(M()), m, r, v0, v0 + k, v0 + npages);
        ok := UnmapPage(r, a, doFree);
        if !ok {
          return;
        }
        UnmapStep(old(M()), old(data), m, d, M(), data, r, v0, v0 + k, !doFree);
        k := k + 1;
        a := a + PGSIZE;
      }
      ok := true;
    }

    /** The body shared by the loops of uvmalloc and uvmcopy: a page with these bytes, mapped at a. */
    method NewPage(r: int, a: int, bytes: seq<int>, perm: int) returns (pa: int)
      requires Ok() && 0 < end && r in roots && 0 <= a && a % PGSIZE == 0 && a / PGSIZE < USERTOP
        && Leaf(M(), r, a / PGSIZE) == 0
      requires |bytes| == PGSIZE && 0 <= perm < 1024 && HasPerm(perm)
      modifies this`tables, this`data, this`head, this`next, this`at, this`owner, this`free
      ensures Ok() && Untouched(old(owner).Keys, old(data), data)
      ensures pa == 0 ==> SameLeaves(old(M()), M()) && OnlyTables(old(owner), owner, r)
      ensures pa == 0 ==> 1 + Lacks(old(at), r, a / PGSIZE, a / PGSIZE + 1) > |old(free)|
      ensures pa != 0 ==> Tabled(old(at), |old(free)|, at, |free|, r, a / PGSIZE, a / PGSIZE + 1, 1)
      ensures pa != 0 ==> LeafSet(old(M()), M(), r, a / PGSIZE, Pte(pa, WithV(perm)))
      ensures pa != 0 ==> OnlyTables(old(owner)[pa := User(r, a / PGSIZE)], owner, r) && pa !in old(owner)
      ensures pa != 0 ==> pa in data && data[pa] == bytes && pa % PGSIZE == 0
    {
      hide Tree, ListsOk, Leaf, SameLeaves, LeafSet, OnlyTables, Mapped, GivenAll, Mappable, Fill, Pages, Untouched;
      hide Lacks;
      ghost var m, d := M(), data;
      WalkStarts(m, data, r);
      pa := Kalloc();
      if pa == 0 {
        return;
      }
      HoldPage(m, pa);
      HeldMappable(owner, r, a, pa, perm);
      FreeData(m.owner.Keys, d, d, pa, Fill(5));
      FreeData(m.owner.Keys, d, data, pa, bytes);
      WriteData(data, head, next, owner.Keys, free, Pages(end, phystop), pa, bytes);
      data := data[pa := bytes];
      ghost var h, dh := M(), data;
      SameLeafAt(m, h, r, a / PGSIZE);
      var res, done := Mappages(r, a, PGSIZE, pa, perm);
      NewPageStep(m, d, h, dh, M(), data, r, a / PGSIZE, pa, perm, done);
      if res != Success {
        DropHeld(M(), pa);
        SameLeavesTrans(m, M(), M().(owner := owner - {pa}));
        InPages(pa);
        FreeData(m.owner.Keys, d, data, pa, Fill(1));
        var ok := Kfree(pa);
        pa := 0;
      }
    }

    /** uvmdealloc.  ok is false for a panic of uvmunmap. */
    method Uvmdealloc(r: int, oldsz: int, newsz: int) returns (sz: int, ok: bool)
      requires Ok() && 0 < end && r in roots && 0 <= newsz && 0 <= oldsz <= USERTOP * PGSIZE
      modifies this`tables, this`data, this`head, this`next, this`owner, this`free
      ensures sz == if newsz >= oldsz then oldsz else newsz
      ensures ok <==> newsz >= oldsz || AllMapped(old(M()), r, PGROUNDUP(newsz) / PGSIZE, PGROUNDUP(oldsz) / PGSIZE)
      ensures ok ==> Ok() && Untouched(owner.Keys, old(data), data)
      ensures ok ==> var lo := PGROUNDUP(sz) / PGSIZE; var hi := PGROUNDUP(oldsz) / PGSIZE;
        Cleared(old(M()), M(), r, lo, hi) && owner == Released(old(owner), r, lo, hi, false)
    {
      hide Tree, ListsOk, Leaf, Released, Cleared, Untouched, AllMapped;
      RoundUps(oldsz, newsz);
      UnmapStarts(M(), data, r, PGROUNDUP(newsz) / PGSIZE, false);
      UnmapStarts(M(), data, r, PGROUNDUP(oldsz) / PGSIZE, false);
      if newsz >= oldsz {
        return oldsz, true;
      }
      ok := true;
      if PGROUNDUP(newsz) < PGROUNDUP(oldsz) {
        var npages := (PGROUNDUP(oldsz) - PGROUNDUP(newsz)) / PGSIZE;
        ok := Uvmunmap(r, PGROUNDUP(newsz), npages, true);
      }
      sz := newsz;
    }

    /** uvmalloc: ret is newsz when ok, else 0. */
    method Uvmalloc(r: int, oldsz: int, newsz: int, xperm: int) returns (ret: int, ghost ok: bool)
      requires Ok() && 0 < end && r in roots && 0 <= oldsz && 0 <= newsz <= USERTOP * PGSIZE
        && xperm in {0, PTE_W, PTE_X, PTE_W + PTE_X}
      requires forall v :: PGROUNDUP(oldsz) / PGSIZE <= v < PGROUNDUP(newsz) / PGSIZE ==> Leaf(M(), r, v) == 0
      modifies this`tables, this`data, this`head, this`next, this`at, this`owner, this`free
      ensures newsz < oldsz ==> ret == oldsz && ok && unchanged(this)
      ensures newsz >= oldsz ==> ret == if ok then newsz else 0
      ensures Ok() && Untouched(old(owner).Keys, old(data), data)
      ensures newsz >= oldsz && ok ==> var lo := PGROUNDUP(oldsz) / PGSIZE; var hi := PGROUNDUP(newsz) / PGSIZE;
        && Grown(old(M()), M(), r, lo, hi)
        && ZeroPages(M(), data, r, lo, hi, PTE_V + PTE_R + PTE_U + xperm)
      ensures newsz >= oldsz && !ok ==> SameLeaves(old(M()), M()) && OnlyTables(old(owner), owner, r)
      ensures newsz >= oldsz ==> var lo := PGROUNDUP(oldsz) / PGSIZE; var hi := PGROUNDUP(newsz) / PGSIZE;
        ok <==> hi - lo + Lacks(old(at), r, lo, hi) <= |old(free)|
    {
      hide Tabled, Lacks;
      hide Tree, ListsOk, Leaf, Released, Cleared, Untouched, AllMapped, Grown, ZeroPages, SameLeaves, OnlyTables;
      hide LeafSet, Fill;
      WalkStarts(M(), data, r);
      if newsz < oldsz {
        return oldsz, true;
      }
      ghost var lo, hi := PGROUNDUP(oldsz) / PGSIZE, PGROUNDUP(newsz) / PGSIZE;
      GrowStarts(M(), data, r, lo, xperm);
      TabledNothing(at, |free|, r, lo);
      var base := PGROUNDUP(oldsz);
      var a := base;
      ghost var v := lo;
      while a < newsz
        invariant a == v * PGSIZE && lo <= v && (v <= hi || v == lo) && Ok() && r in roots
        invariant Tabled(old(at), |old(free)|, at, |free|, r, lo, v, v - lo)
        invariant Untouched(old(owner).Keys, old(data), data)
        invariant Grown(old(M()), M(), r, lo, v)
        invariant ZeroPages(M(), data, r, lo, v, PTE_V + PTE_R + PTE_U + xperm)
      {
        ghost var m, d, free0 := M(), data, |free|;
        BelowTop(a, v, newsz);
        GrownLeaf(old(M()), m, r, lo, v, v);
        var mem := NewPage(r, a, Fill(0), PTE_R + PTE_U + xperm);
        if mem == 0 {
          TabledFails(old(at), |old(free)|, m.at, free0, r, lo, v, v + 1, v - lo, 1);
          LacksMonotone(old(at), r, lo, v + 1, hi);
          ghost var n, dn := M(), data;
          GrownKept(old(M()), old(data), m, d, n, dn, r, lo, v);
          GrownMapped(old(M()), n, r, lo, v);
          SameRound(base, a, lo, v);
          var sz, fine := Uvmdealloc(r, a, base);
          RollBack(old(M()), old(data), n, dn, M(), data, r, lo, v);
          return 0, false;
        }
        GrownMapped(old(M()), m, r, lo, v);
        GrowStep(old(M()), old(data), m, d, M(), data, r, lo, v, mem, PTE_R + PTE_U + xperm);
        ZeroStep(m, d, M(), data, r, lo, v, mem, PTE_R + PTE_U + xperm);
        TabledNext(old(at), |old(free)|, m.at, free0, at, |free|, r, lo, v, v - lo, 1);
        a := a + PGSIZE;
        v := v + 1;
      }
      LastPage(a, v, base, lo, newsz, hi);
      TabledFits(old(at), |old(free)|, at, |free|, r, lo, v, v - lo);
      ret, ok := newsz, true;
    }

    /** uvmcopy: user pages below sz of tree r0 are copied into tree r. */
    method Uvmcopy(r0: int, r: int, sz: int) returns (res: CopyRes)
      requires Ok() && 0 < end && r0 in roots && r in roots && r0 != r && 0 <= sz <= USERTOP * PGSIZE
      requires forall v :: 0 <= v < PGROUNDUP(sz) / PGSIZE ==> Leaf(M(), r, v) == 0
      modifies this`tables, this`data, this`head, this`next, this`at, this`owner, this`free
      ensures Ok() && Untouched(old(owner).Keys, old(data), data)
      ensures res == CopyDone ==> AllMapped(old(M()), r0, 0, PGROUNDUP(sz) / PGSIZE)
      ensures res == CopyDone ==> Grown(old(M()), M(), r, 0, PGROUNDUP(sz) / PGSIZE)
      ensures res == CopyDone ==> Copied(M(), data, r0, r, PGROUNDUP(sz) / PGSIZE)
      ensures res == CopyShort ==> SameLeaves(old(M()), M()) && OnlyTables(old(owner), owner, r)
      ensures var n := PGROUNDUP(sz) / PGSIZE;
        && 0 <= n
        && var gap := FirstGap(old(M()), r0, 0, n);
        && (res == CopyShort <==> gap + Lacks(old(at), r, 0, gap) > |old(free)|)
        && (res != CopyShort ==> (res == CopyPanics <==> gap < n))
      ensures res == CopyPanics ==> !AllMapped(old(M()), r0, 0, PGROUNDUP(sz) / PGSIZE)
    {
      hide Tabled, Lacks, FirstGap;
      hide Tree, ListsOk, Leaf, Released, Cleared, Untouched, AllMapped, Grown, Copied, SameLeaves, OnlyTables;
      hide LeafSet, Fill, LeafMapped;
      ghost var n := PGROUNDUP(sz) / PGSIZE;
      WalkStarts(M(), data, r);
      GrowStarts(M(), data, r, 0, 0);
      CopyStarts(M(), data, r0, r);
      TabledNothing(at, |free|, r, 0);
      RoundUps(sz, sz);
      var i := 0;
      ghost var v := 0;
      while i < sz
        invariant i == v * PGSIZE && 0 <= v && (v <= n || v == 0) && Ok() && r in roots && r0 in roots
        invariant Untouched(old(owner).Keys, old(data), data) && Tabled(old(at), |old(free)|, at, |free|, r, 0, v, v)
        invariant v <= n ==> FirstGap(old(M()), r0, 0, n) == FirstGap(old(M()), r0, v, n)
        invariant Grown(old(M()), M(), r, 0, v) && Copied(M(), data, r0, r, v) && AllMapped(old(M()), r0, 0, v)
      {
        ghost var m, d, free0 := M(), data, |free|;
        BelowTop(i, v, sz);
        GrownLeaf(old(M()), m, r, 0, v, v);
        SourceLeaf(old(M()), m, r, r0, v, n);
        GapNext(old(M()), m, r, r0, v, n);
        TabledFits(old(at), |old(free)|, at, |free|, r, 0, v, v);
        ZeroNotValid();
        var t := Walk(r0, i, false);
        if t == 0 {
          return CopyPanics;
        }
        LeafIsWalked(m, r0, i, t);
        var pte := tables[t][PX(0, i)];
        if !IsValid(pte) {
          return CopyPanics;
        }
        SourcePage(m, r0, v, pte);
        HasData(PteAddr(pte));
        var mem := NewPage(r, i, data[PteAddr(pte)], pte % 1024);
        if mem == 0 {
          CopyFails(old(at), |old(free)|, m.at, free0, r, v, FirstGap(old(M()), r0, 0, n));
          ghost var o, do := M(), data;
          GrownKept(old(M()), old(data), m, d, o, do, r, 0, v);
          GrownMapped(old(M()), o, r, 0, v);
          var fine := Uvmunmap(r, 0, i / PGSIZE, true);
          RollBack(old(M()), old(data), o, do, M(), data, r, 0, v);
          return CopyShort;
        }
        GrownMapped(old(M()), m, r, 0, v);
        GrowStep(old(M()), old(data), m, d, M(), data, r, 0, v, mem, pte % 1024);
        CopyStep(old(M()), m, d, M(), data, r0, r, v, v + 1, mem);
        TabledNext(old(at), |old(free)|, m.at, free0, at, |free|, r, 0, v, v, 1);
        i := i + PGSIZE;
        v := v + 1;
      }
      LastPage(i, v, 0, 0, sz, n);
      GapEnd(old(M()), r0, n);
      TabledFits(old(at), |old(free)|, at, |free|, r, 0, v, v);
      res := CopyDone;
    }

    lemma HasData(a: int)
      requires Lists() && a in owner
      ensures a in data && |data[a]| == PGSIZE
    {
    }

    /** freewalk on the table page a, which stands at p.  False is the panic. */
    method Freewalk(a: int, ghost p: Pos) returns (ok: bool)
      requires Lists() && 0 < end && Sub(M(), p) && at[p] == a
      modifies this`tables, this`data, this`head, this`next, this`at, this`owner, this`free
      ensures Lists() && (ok <==> Leafless(old(M()), p.r, p.l, p.q, p.q + 1))
      ensures ok ==> Gone(old(M()), M(), p) && Untouched(owner.Keys, old(data), data)
      decreases p.l
    {
      hide ListsOk, Sub, Placed, Torn, Gone, Leafless, Untouched, ChildOk, NoLeafIn, IsValid, HasPerm;
      ghost var m := M();
      TornStarts(m, p);
      WalkStarts(m, data, p.r);
      var i := 0;
      while i < NENT
        invariant 0 <= i <= NENT && Lists() && Torn(m, M(), p, i)
        invariant Leafless(m, p.r, p.l - 1, p.q * NENT, p.q * NENT + i) && (p.l == 0 ==> NoLeafIn(m, p, i))
        invariant Untouched(owner.Keys, old(data), data)
      {
        ghost var n, d := M(), data;
        NextEntry(m, n, p, i);
        var pte := tables[a][i];
        EntryCases(m, n, p, i);
        if IsValid(pte) && !HasPerm(pte) {
          ok := Freewalk(PteAddr(pte), Below(p, i));
          if !ok {
            LeafFound(m, p, i);
            return;
          }
          TornNext(m, n, M(), p, i);
          LeaflessNext(m, p, i);
          FewerOwners(n, M(), Below(p, i));
          KeepUntouched(n.owner.Keys, owner.Keys, old(data), d, data);
          tables := tables[a := tables[a][i := 0]];
        } else if IsValid(pte) {
          LeafFound(m, p, i);
          return false;
        }
        i := i + 1;
      }
      ghost var n, d := M(), data;
      LeaflessEnd(m, p);
      TornEnd(m, n, n.(at := n.at - {p}, owner := n.owner - {a}), p);
      InPages(a);
      KeepUntouched(n.owner.Keys, (n.owner - {a}).Keys, old(data), d, d[a := Fill(1)]);
      ok := Kfree(a);
      at := at - {p};
    }

    /** uvmfree: the user pages below sz, then the tables.  False is a panic. */
    method Uvmfree(r: int, sz: int) returns (ok: bool)
      requires Ok() && 0 < end && r in roots && 0 <= sz <= USERTOP * PGSIZE
      modifies this`tables, this`data, this`head, this`next, this`at, this`owner, this`roots, this`free
      ensures ok <==> OnlyMapped(old(M()), r, PGROUNDUP(sz) / PGSIZE)
      ensures ok ==> Ok() && TreeGone(old(M()), M(), r) && Untouched(owner.Keys, old(data), data)
    {
      hide Tree, ListsOk, Leaf, Released, Cleared, Untouched, AllMapped, TreeGone, Sub, Gone, NoLeaves, Leafless;
      ghost var m, d, n := M(), data, PGROUNDUP(sz) / PGSIZE;
      RoundUps(sz, sz);
      UnmapStarts(m, data, r, 0, false);
      ok := true;
      if sz > 0 {
        ok := Uvmunmap(r, 0, PGROUNDUP(sz) / PGSIZE, true);
        if !ok {
          NotOnly(m, r, n);
          return;
        }
      }
      ghost var u, du := M(), data;
      TreeSub(u, r);
      LeaflessTree(u, r);
      OnlyIff(m, u, r, n);
      ok := Freewalk(r, Pos(r, 2, 0));
      if ok {
        TreeWithout(u, M(), r);
        FewerOwners(u, M(), Pos(r, 2, 0));
        KeepUntouched(u.owner.Keys, owner.Keys, d, du, data);
        GoneAfter(m, u, M().(roots := u.roots - {r}), r, n);
        roots := roots - {r};
      }
    }

    /** uvmcreate */
    method Uvmcreate() returns (r: int)
      requires Ok()
      modifies this`tables, this`data, this`head, this`at, this`owner, this`roots, this`free
      ensures Ok() && Untouched(old(owner).Keys, old(data), data)
      ensures r == 0 ==> unchanged(this) && free == []
      ensures r != 0 ==> |free| == |old(free)| - 1 && at == old(at)[Pos(r, 2, 0) := r]
      ensures r != 0 ==> r !in old(roots) && r !in old(owner) && roots == old(roots) + {r} && SameLeaves(old(M()), M())
      ensures r != 0 ==> OnlyTables(old(owner), owner, r) && NoLeaves(M(), r)
    {
      hide Tree, ListsOk, SameLeaves, Leaf, NoLeaves, Fill;
      ghost var m := M();
      r := Kalloc();
      if r != 0 {
        AddRoot(m, r);
        assert owner.Keys == owner[r := Table(Pos(r, 2, 0))].Keys;
        tables := tables[r := ZeroTable()];
        at, owner, roots := at[Pos(r, 2, 0) := r], owner[r := Table(Pos(r, 2, 0))], roots + {r};
        assert owner == m.owner[r := Table(Pos(r, 2, 0))];
      }
    }

    /** walkaddr */
    method Walkaddr(r: int, va: int) returns (pa: int)
      requires Ok() && r in roots && 0 <= va
      ensures pa != 0 <==> UserAt(M(), r, va / PGSIZE)
      ensures pa != 0 ==> UserPage(M(), data, r, va / PGSIZE, pa)
    {
      hide Tree, ListsOk, Leaf, PX, PteAddr, IsValid, IsUser;
      if va >= MAXVA {
        return 0;
      }
      ghost var v := va / PGSIZE;
      var t := Walk(r, va, false);
      if t == 0 {
        ZeroNotValid();
        return 0;
      }
      LeafIs(M(), r, v);
      WalkIndex(r, va);
      var pte := tables[t][PX(0, va)];
      if !IsValid(pte) {
        return 0;
      }
      if !IsUser(pte) {
        return 0;
      }
      pa := PteAddr(pte);
      UserOwned(M(), r, v);
      NonZeroPage(pa);
      HasData(pa);
    }

    lemma NonZeroPage(a: int)
      requires Lists() && a in owner
      ensures a != 0
    {
      assert a in Pages(end, phystop);
    }

    /** copyout.  `done` bytes were written; all of them on success. */
    method Copyout(r: int, dstva: int, src: seq<int>) returns (ok: bool, ghost done: int)
      requires Ok() && r in roots && 0 <= dstva < U64 && |src| < U64
      modifies this`data
      ensures Ok() && 0 <= done <= |src| && (ok <==> done == |src|)
      ensures Overwritten(M(), old(data), data, r, dstva, src[..done])
      ensures UserRange(M(), r, dstva, done)
      ensures !ok ==> !UserAt(M(), r, (dstva + done) / PGSIZE)
    {
      hide Tree, ListsOk, Leaf, PteAddr, Overwritten, UserAt, UserRange, Splice;
      var len, s, dst := |src|, 0, dstva;
      done := 0;
      CopyBegins(M(), data, r, dstva, src);
      while len > 0
        invariant 0 <= s <= |src| && len == |src| - s && (len > 0 ==> dst == dstva + s) && done == s && Ok()
        invariant Overwritten(M(), old(data), data, r, dstva, src[..s]) && UserRange(M(), r, dstva, s)
        decreases len
      {
        var va0 := PGROUNDDOWN(dst);
        var pa0 := Walkaddr(r, va0);
        SamePage(dst);
        if pa0 == 0 {
          return false, s;
        }
        var n := PGSIZE - (dst - va0);
        if n > len {
          n := len;
        }
        CopyPage(M(), old(data), data, r, dstva, src, s, n, pa0);
        RangeNext(M(), r, dstva, s, n);
        var bytes := Splice(data[pa0], dst - va0, src[s..s + n]);
        WriteData(data, head, next, owner.Keys, free, Pages(end, phystop), pa0, bytes);
        data := data[pa0 := bytes];
        len := len - n;
        s := s + n;
        done := s;
        dst := va0 + PGSIZE;
      }
      ok := true;
    }

    /** copyin: what was copied is in dst, all of it on success. */
    method Copyin(r: int, srcva: int, len: int) returns (ok: bool, dst: seq<int>)
      requires Ok() && r in roots && 0 <= srcva < U64 && 0 <= len < U64
      ensures |dst| <= len && (ok <==> |dst| == len)
      ensures IsCopy(M(), data, r, srcva, dst) && UserRange(M(), r, srcva, |dst|)
      ensures !ok ==> !UserAt(M(), r, (srcva + |dst|) / PGSIZE)
    {
      hide Tree, ListsOk, Leaf, PteAddr, UserAt, UserRange, IsCopy;
      dst := [];
      var left, va := len, srcva;
      RangeBegins(M(), data, r, srcva);
      while left > 0
        invariant 0 <= left <= len && |dst| == len - left && (left > 0 ==> va == srcva + |dst|)
        invariant IsCopy(M(), data, r, srcva, dst) && UserRange(M(), r, srcva, |dst|)
        decreases left
      {
        var va0 := PGROUNDDOWN(va);
        var pa0 := Walkaddr(r, va0);
        SamePage(va);
        if pa0 == 0 {
          return false, dst;
        }
        var n := PGSIZE - (va - va0);
        if n > left {
          n := left;
        }
        ReadPage(M(), data, r, srcva, dst, n, pa0);
        RangeNext(M(), r, srcva, |dst|, n);
        dst := dst + data[pa0][va - va0..va - va0 + n];
        left := left - n;
        va := va0 + PGSIZE;
      }
      ok := true;
    }

    /** copyinstr: dst ends with the first NUL on success; without one it stops at max or at a bad page. */
    method Copyinstr(r: int, srcva: int, max: int) returns (ok: bool, dst: seq<int>)
      requires Ok() && r in roots && 0 <= srcva < U64 && 0 <= max < U64
      ensures |dst| <= max && IsCopy(M(), data, r, srcva, dst) && UserRange(M(), r, srcva, |dst|)
      ensures ok ==> dst != [] && dst[|dst| - 1] == 0 && 0 !in dst[..|dst| - 1]
      ensures !ok ==> 0 !in dst && (|dst| == max || !UserAt(M(), r, (srcva + |dst|) / PGSIZE))
    {
      hide Tree, ListsOk, Leaf, PteAddr, UserAt, UserRange, IsCopy;
      dst := [];
      var left, va, gotNull := max, srcva, false;
      RangeBegins(M(), data, r, srcva);
      while !gotNull && left > 0
        invariant 0 <= left <= max && |dst| <= max
        invariant IsCopy(M(), data, r, srcva, dst) && UserRange(M(), r, srcva, |dst|)
        invariant if gotNull then dst != [] && dst[|dst| - 1] == 0 && 0 !in dst[..|dst| - 1]
          else |dst| == max - left && 0 !in dst && (left > 0 ==> va == srcva + |dst|)
        decreases left, !gotNull
      {
        var va0 := PGROUNDDOWN(va);
        var pa0 := Walkaddr(r, va0);
        SamePage(va);
        if pa0 == 0 {
          return false, dst;
        }
        var n := PGSIZE - (va - va0);
        if n > left {
          n := left;
        }
        var p, before := va - va0, |dst|;
        while n > 0
          invariant 0 <= n && !gotNull && p == va - va0 + |dst| - before && p + n <= PGSIZE && before <= |dst|
          invariant va == srcva + before && |dst| == max - left && n <= left && 0 !in dst
          invariant |dst| > before || n > 0
          invariant n == left || p + n == PGSIZE
          invariant IsCopy(M(), data, r, srcva, dst) && UserRange(M(), r, srcva, |dst|)
          decreases n
        {
          OffsetPage(va, va0, p);
          ReadPage(M(), data, r, srcva, dst, 1, pa0);
          RangeNext(M(), r, srcva, |dst|, 1);
          OneByte(data[pa0], p);
          if data[pa0][p] == 0 {
            dst := dst + [0];
            gotNull := true;
            break;
          } else {
            dst := dst + [data[pa0][p]];
          }
          n := n - 1;
          left := left - 1;
          p := p + 1;
        }
        va := va0 + PGSIZE;
      }
      ok := gotNull;
    }

    /** proc_pagetable: a tree with the trampoline and this trap frame, or 0 with every page back. */
    method ProcPagetable(trampoline: int, trapframe: int) returns (r: int)
      requires Ok() && 0 < end && trampoline % PGSIZE == 0 && trapframe in owner && owner[trapframe] == Held
      modifies this`tables, this`data, this`head, this`next, this`at, this`owner, this`roots, this`free
      ensures Ok() && Untouched(old(owner).Keys, old(data), data)
      ensures r == 0 ==> SameLeaves(old(M()), M()) && owner == old(owner) && roots == old(roots)
      ensures r == 0 <==> |old(free)| < 3
      ensures r != 0 ==> Built(old(M()), M(), r) && IsProcTable(M(), r, trampoline, trapframe)
    {
      hide Tree, ListsOk, Leaf, SameLeaves, OnlyTables, Mapped, GivenAll, Mappable, Untouched, NoLeaves, TreeGone;
      hide Built, Tabled, Lacks;
      hide OnlyMapped, AllMapped, Pte, Cleared, Released, IsProcTable, OnlyAt;
      ghost var m, d := M(), data;
      InPages(trapframe);
      WalkStarts(m, data, 0);
      r := Uvmcreate();
      if r == 0 {
        return;
      }
      ghost var c, dc, free0 := M(), data, |free|;
      BuiltStarts(m, c, r);
      Special(c.owner, r, trampoline, PTE_R + PTE_X);
      var res, done := Mappages(r, MAXVA - PGSIZE, PGSIZE, trampoline, PTE_R + PTE_X);
      BuiltMapped(m, c, M(), r, USERTOP + 1, trampoline, PTE_R + PTE_X, done);
      UntouchedOn(m.owner.Keys, c.owner.Keys, d, dc, data);
      ghost var n, dn := M(), data;
      FirstMapped(c, n, r, trampoline, done);
      NotYetMapped(c, r, USERTOP + 1);
      NotYetMapped(n, r, USERTOP);
      TopLacks(m, c.at, r);
      if res != Success {
        var ok := Uvmfree(r, 0);
        Undone(m, n, M(), r);
        UntouchedOn(m.owner.Keys, owner.Keys, d, dn, data);
        return 0;
      }
      NextTop(c.at, free0, at, |free|, r);
      Special(n.owner, r, trapframe, PTE_R + PTE_W);
      res, done := Mappages(r, MAXVA - 2 * PGSIZE, PGSIZE, trapframe, PTE_R + PTE_W);
      ghost var o, do := M(), data;
      BuiltMapped(m, n, o, r, USERTOP, trapframe, PTE_R + PTE_W, done);
      UntouchedOn(m.owner.Keys, n.owner.Keys, d, dn, do);
      SecondMapped(n, o, r, trampoline, trapframe, done);
      if res != Success {
        // The two pages share their tables, so this mapping takes no memory.
        assert false;
      }
    }

    /** proc_freepagetable.  False is a panic. */
    method ProcFreepagetable(r: int, sz: int) returns (ok: bool)
      requires Ok() && 0 < end && r in roots && 0 <= sz <= USERTOP * PGSIZE
      modifies this`tables, this`data, this`head, this`next, this`at, this`owner, this`roots, this`free
      ensures ok <==> ProcMapped(old(M()), r, PGROUNDUP(sz) / PGSIZE)
      ensures ok ==> Ok() && TreeGone(old(M()), M(), r) && Untouched(owner.Keys, old(data), data)
    {
      hide Tree, ListsOk, Leaf, Untouched, TreeGone, OnlyMapped, AllMapped, Cleared, Released, ProcMapped;
      ghost var m, n := M(), PGROUNDUP(sz) / PGSIZE;
      RoundUps(sz, sz);
      TopMapped(m, r, n, USERTOP + 1);
      ok := Uvmunmap(r, MAXVA - PGSIZE, 1, false);
      if !ok {
        return;
      }
      ghost var u, du := M(), data;
      NotOwned(m, r, USERTOP + 1);
      OtherTop(m, u, r, n);
      ok := Uvmunmap(r, MAXVA - 2 * PGSIZE, 1, false);
      if !ok {
        return;
      }
      ghost var w, dw := M(), data;
      NotOwned(u, r, USERTOP);
      UntouchedOn(m.owner.Keys, m.owner.Keys, old(data), du, dw);
      WithoutTops(m, u, w, r, n);
      ok := Uvmfree(r, sz);
      if ok {
        GoneFrom(m, u, w, M(), r);
        KeepUntouched(w.owner.Keys, owner.Keys, old(data), dw, data);
      }
    }
  }
}
