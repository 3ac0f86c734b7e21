/**
 Room for page tables: the table pages that mapping a stretch of pages takes.
 */
module VmRoom {
  import opened VmSpec
  import opened VmSteps

  /** The places of the tables on the way to page v, below the root. */
  function Way(r: int, v: int): set<Pos> {
    {Path(r, 1, v), Path(r, 0, v)}
  }

  /** ... to the pages lo..hi. */
  function Ways(r: int, lo: int, hi: int): set<Pos>
    decreases hi - lo
  {
    if hi <= lo then {} else Ways(r, lo, hi - 1) + Way(r, hi - 1)
  }

  /** How many of them are missing. */
  ghost function Lacks(at: map<Pos, int>, r: int, lo: int, hi: int): (n: int)
    ensures n >= 0
  {
    |Ways(r, lo, hi) - at.Keys|
  }

  /** The tables to the pages lo..hi were made, and the free pages went from n to n' for them and `pages` others. */
  ghost predicate Tabled(at: map<Pos, int>, n: int, at': map<Pos, int>, n': int, r: int, lo: int, hi: int, pages: int) {
    at'.Keys == at.Keys + Ways(r, lo, hi) && n' == n - pages - Lacks(at, r, lo, hi)
  }

  lemma WaysOne(r: int, v: int)
    ensures Ways(r, v, v + 1) == Way(r, v) && Ways(r, v, v) == {}
  {
    hide Way;
    assert Ways(r, v, v) == {};
  }

  lemma TabledNothing(at: map<Pos, int>, n: int, r: int, v: int)
    ensures Tabled(at, n, at, n, r, v, v, 0)
  {
    hide Way;
    WaysOne(r, v);
    assert Ways(r, v, v) - at.Keys == {};
  }

  /** What x adds to the part of w that is not in a. */
  lemma Joined(w: set<Pos>, x: set<Pos>, a: set<Pos>)
    ensures |(w + x) - a| == |w - a| + |x - (a + w)|
  {
    var b, c := w - a, x - (a + w);
    assert (w + x) - a == b + c;
    assert b !! c;
    assert |b + c| == |b| + |c|;
  }

  lemma Smaller(a: set<Pos>, b: set<Pos>)
    requires a <= b
    ensures |a| <= |b|
  {
    assert b == a + (b - a);
    assert |a + (b - a)| == |a| + |b - a|;
  }

  /** What the next page adds to what is missing. */
  lemma LacksNext(at: map<Pos, int>, at1: map<Pos, int>, r: int, lo: int, v: int)
    requires lo <= v && at1.Keys == at.Keys + Ways(r, lo, v)
    ensures Lacks(at, r, lo, v + 1) == Lacks(at, r, lo, v) + Lacks(at1, r, v, v + 1)
  {
    hide Way;
    WaysOne(r, v);
    Joined(Ways(r, lo, v), Way(r, v), at.Keys);
  }

  lemma {:induction false} LacksMonotone(at: map<Pos, int>, r: int, lo: int, mid: int, hi: int)
    requires lo <= mid <= hi
    ensures Lacks(at, r, lo, mid) <= Lacks(at, r, lo, hi)
    decreases hi - mid
  {
    hide Way;
    if mid < hi {
      LacksMonotone(at, r, lo, mid, hi - 1);
      Joined(Ways(r, lo, hi - 1), Way(r, hi - 1), at.Keys);
    }
  }

  lemma TabledNext(at: map<Pos, int>, n: int, at1: map<Pos, int>, n1: int, at2: map<Pos, int>, n2: int, r: int, lo: int,
                   v: int, pages: int, more: int)
    requires lo <= v && Tabled(at, n, at1, n1, r, lo, v, pages) && Tabled(at1, n1, at2, n2, r, v, v + 1, more)
    ensures Tabled(at, n, at2, n2, r, lo, v + 1, pages + more)
  {
    hide Way, Lacks;
    LacksNext(at, at1, r, lo, v);
    WaysOne(r, v);
  }

  /** When the next page does not fit, no stretch that holds it does. */
  lemma TabledFails(at: map<Pos, int>, n: int, at1: map<Pos, int>, n1: int, r: int, lo: int, v: int, hi: int,
                    pages: int, more: int)
    requires lo <= v < hi && Tabled(at, n, at1, n1, r, lo, v, pages) && more + Lacks(at1, r, v, v + 1) > n1
    ensures pages + more + Lacks(at, r, lo, hi) > n
  {
    hide Way, Lacks;
    LacksNext(at, at1, r, lo, v);
    LacksMonotone(at, r, lo, v + 1, hi);
  }

  lemma TabledFits(at: map<Pos, int>, n: int, at1: map<Pos, int>, n1: int, r: int, lo: int, hi: int, pages: int)
    requires Tabled(at, n, at1, n1, r, lo, hi, pages) && n1 >= 0
    ensures pages + Lacks(at, r, lo, hi) <= n
  {
  }

  // ----- One walk

  /** The tables that walk has made, or found, above this level. */
  function Passed(r: int, v: int, level: int): set<Pos> {
    if level >= 2 then {} else if level == 1 then {Path(r, 1, v)} else Way(r, v)
  }

  ghost predicate WalkedTo(at: map<Pos, int>, n: int, at': map<Pos, int>, n': int, r: int, v: int, level: int) {
    at'.Keys == at.Keys + Passed(r, v, level) && n' == n - |Passed(r, v, level) - at.Keys|
  }

  lemma WalkedStarts(at: map<Pos, int>, n: int, r: int, v: int)
    ensures WalkedTo(at, n, at, n, r, v, 2)
  {
    assert Passed(r, v, 2) - at.Keys == {};
  }

  lemma AddOne(a: set<Pos>, p: Pos, keys: set<Pos>)
    ensures |(a + {p}) - keys| == |a - keys| + (if p in keys || p in a then 0 else 1)
  {
    if p in a {
      assert a + {p} == a;
    } else if p in keys {
      assert (a + {p}) - keys == a - keys;
    } else {
      assert (a + {p}) - keys == (a - keys) + {p};
    }
  }

  lemma NextLevel(r: int, v: int, level: int)
    requires 1 <= level <= 2
    ensures Passed(r, v, level - 1) == Passed(r, v, level) + {Path(r, level - 1, v)}
    ensures Passed(r, v, level - 1) <= Way(r, v)
  {
    hide Path;
  }

  /** One level down: the table is there, or made. */
  lemma WalkedDown(at: map<Pos, int>, n: int, at1: map<Pos, int>, n1: int, at2: map<Pos, int>, n2: int, r: int, v: int,
                   level: int)
    requires 1 <= level <= 2 && WalkedTo(at, n, at1, n1, r, v, level)
    requires at2.Keys == at1.Keys + {Path(r, level - 1, v)}
      && n2 == n1 - (if Path(r, level - 1, v) in at1 then 0 else 1)
    ensures WalkedTo(at, n, at2, n2, r, v, level - 1)
  {
    hide Path, Passed;
    NextLevel(r, v, level);
    Associate(at.Keys, Passed(r, v, level), Path(r, level - 1, v));
    AddOne(Passed(r, v, level), Path(r, level - 1, v), at.Keys);
  }

  lemma Associate(a: set<Pos>, b: set<Pos>, p: Pos)
    ensures a + b + {p} == a + (b + {p})
  {
  }

  /** ... or cannot be had. */
  lemma WalkedNot(at: map<Pos, int>, n: int, at1: map<Pos, int>, r: int, v: int, level: int)
    requires 1 <= level <= 2 && WalkedTo(at, n, at1, 0, r, v, level) && Path(r, level - 1, v) !in at1
    ensures Lacks(at, r, v, v + 1) > n
  {
    hide Path, Passed;
    NextLevel(r, v, level);
    AddOne(Passed(r, v, level), Path(r, level - 1, v), at.Keys);
    WaysOne(r, v);
    Smaller(Passed(r, v, level - 1) - at.Keys, Way(r, v) - at.Keys);
  }

  lemma WalkedAll(at: map<Pos, int>, n: int, at': map<Pos, int>, n': int, r: int, v: int)
    requires WalkedTo(at, n, at', n', r, v, 0)
    ensures Tabled(at, n, at', n', r, v, v + 1, 0)
  {
    WaysOne(r, v);
  }

  // ----- A new tree

  /** Nothing below the root of a new tree is there yet. */
  lemma TopLacks(m: Mem, at: map<Pos, int>, r: int)
    requires Tree(m) && r !in m.roots && at == m.at[Pos(r, 2, 0) := r]
    ensures Lacks(at, r, USERTOP + 1, USERTOP + 2) == 2
  {
    hide Tree;
    WaysOne(r, USERTOP + 1);
    var p1, p0 := Path(r, 1, USERTOP + 1), Path(r, 0, USERTOP + 1);
    NotThere(m, r, p1);
    NotThere(m, r, p0);
    assert Way(r, USERTOP + 1) - at.Keys == {p1, p0};
  }

  /** The page below the top one has the same tables. */
  lemma NextTop(at: map<Pos, int>, n: int, at1: map<Pos, int>, n1: int, r: int)
    requires Tabled(at, n, at1, n1, r, USERTOP + 1, USERTOP + 2, 0) && Lacks(at, r, USERTOP + 1, USERTOP + 2) == 2
    ensures Lacks(at1, r, USERTOP, USERTOP + 1) == 0 && n1 == n - 2
  {
    hide Way, Lacks;
    WaysOne(r, USERTOP + 1);
    WaysOne(r, USERTOP);
    SameWay(r);
    NoneLacking(at1, r, USERTOP);
  }

  lemma SameWay(r: int)
    ensures Way(r, USERTOP) == Way(r, USERTOP + 1)
  {
  }

  lemma NoneLacking(at: map<Pos, int>, r: int, v: int)
    requires Way(r, v) <= at.Keys
    ensures Lacks(at, r, v, v + 1) == 0
  {
    hide Way;
    WaysOne(r, v);
    assert Ways(r, v, v + 1) - at.Keys == {};
  }

  lemma NotThere(m: Mem, r: int, p: Pos)
    requires Tree(m) && r !in m.roots && p.r == r
    ensures p !in m.at
  {
    hide EntryOk, OwnOk;
  }

  // ----- What a copy reads

  /** The first page from v on, below n, that is not mapped; n if there is none. */
  ghost function FirstGap(m: Mem, r: int, v: int, n: int): (k: int)
    requires v <= n
    ensures v <= k <= n
    decreases n - v
  {
    if v == n || !IsValid(Leaf(m, r, v)) then v else FirstGap(m, r, v + 1, n)
  }

  /** What the next source page says about it. */
  lemma GapNext(b: Mem, m: Mem, r: int, r0: int, v: int, n: int)
    requires Grown(b, m, r, 0, v) && r0 != r && 0 <= v < n
    ensures IsValid(Leaf(m, r0, v)) ==> v + 1 <= FirstGap(b, r0, v, n) == FirstGap(b, r0, v + 1, n)
    ensures !IsValid(Leaf(m, r0, v)) ==> FirstGap(b, r0, v, n) == v
  {
    hide Grown, Leaf;
    SameOther(b, m, r, 0, v, r0, v);
  }

  lemma GapEnd(b: Mem, r0: int, n: int)
    ensures FirstGap(b, r0, n, n) == n
  {
  }

  /** A copy that stops at page v for want of memory. */
  lemma CopyFails(at: map<Pos, int>, n: int, at1: map<Pos, int>, n1: int, r: int, v: int, gap: int)
    requires 0 <= v < gap && Tabled(at, n, at1, n1, r, 0, v, v) && 1 + Lacks(at1, r, v, v + 1) > n1
    ensures gap + Lacks(at, r, 0, gap) > n
  {
    hide Lacks, Tabled;
    TabledFails(at, n, at1, n1, r, 0, v, v + 1, v, 1);
    LacksMonotone(at, r, 0, v + 1, gap);
  }
}
