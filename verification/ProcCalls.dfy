/**
 What the calls of kernel/proc.c come to: fork, exit and wait, each run without interference from a state in which no
 lock is held, and kill in every run.
 */
module ProcCalls {
  import opened ProcRuns

  // ----- One process at a time

  /** From s, process i takes these steps and ends in t. */
  ghost predicate Solo(s: State, i: int, acts: seq<Act>, t: State)
    decreases |acts|
  {
    if acts == [] then t == s else Enabled(s, i, acts[0]) && Solo(Apply(s, i, acts[0]), i, acts[1..], t)
  }

  lemma SoloThen(s: State, i: int, a: Act, acts: seq<Act>, t: State)
    requires Enabled(s, i, a) && Solo(Apply(s, i, a), i, acts, t)
    ensures Solo(s, i, [a] + acts, t)
  {
    hide Enabled, Apply;
    assert ([a] + acts)[1..] == acts;
  }

  lemma {:induction false} SoloJoin(s: State, i: int, a: seq<Act>, m: State, b: seq<Act>, t: State)
    requires Solo(s, i, a, m) && Solo(m, i, b, t)
    ensures Solo(s, i, a + b, t)
    decreases |a|
  {
    hide Enabled, Apply;
    if a == [] {
      assert a + b == b;
    } else {
      assert (a + b)[1..] == a[1..] + b;
      SoloJoin(Apply(s, i, a[0]), i, a[1..], m, b, t);
    }
  }

  lemma SoloOne(s: State, i: int, a: Act)
    requires Enabled(s, i, a)
    ensures Solo(s, i, [a], Apply(s, i, a))
  {
    hide Enabled, Apply;
    assert [a][1..] == [];
  }

  /** No lock of another process's slot is held. */
  ghost predicate OthersIdle(s: State, i: int) {
    forall k :: 0 <= k < |s.procs| && k != i ==> s.procs[k].lock == -1
  }

  /** No lock is held at all. */
  ghost predicate Quiet(s: State) {
    s.waitLock == -1 && forall k :: 0 <= k < |s.procs| ==> s.procs[k].lock == -1
  }

  // ----- fork

  /** A fork that runs out of memory uses up a pid, leaves the slot free, and changes nothing else. */
  lemma ForkFailsAlone(s: State, i: int, np: int)
    requires Enabled(s, i, ForkFails(np))
    ensures Solo(s, i, [ForkFails(np)], s.(procs := s.procs[np := Free()], nextpid := s.nextpid + 1))
    ensures Free().state == Unused && Free().parent == -1 && !Free().killed
  {
    hide Solo;
    SoloOne(s, i, ForkFails(np));
  }

  /** fork on its own: the slot is a runnable child of the caller with a new pid, and nothing else changed. */
  lemma ForkAlone(s: State, i: int, np: int)
    requires Runs(s, i, Elsewhere) && In(s, np) && s.procs[np].state == Unused && Quiet(s)
    ensures var child := s.procs[np].(state := Runnable, pid := s.nextpid, parent := i, pc := Elsewhere, maker := -1);
      Solo(s, i, [Start(np), TakeWait, SetParent, MakeRunnable],
           s.(procs := s.procs[np := child], nextpid := s.nextpid + 1))
  {
    hide Solo;
    var child := s.procs[np].(state := Runnable, pid := s.nextpid, parent := i, pc := Elsewhere, maker := -1);
    var s1 := Apply(s, i, Start(np));
    var s2 := Apply(s1, i, TakeWait);
    var s3 := Apply(s2, i, SetParent);
    var s4 := Apply(s3, i, MakeRunnable);
    assert s4.procs == s.procs[np := child];
    SoloOne(s3, i, MakeRunnable);
    SoloThen(s2, i, SetParent, [MakeRunnable], s4);
    assert [SetParent] + [MakeRunnable] == [SetParent, MakeRunnable];
    SoloThen(s1, i, TakeWait, [SetParent, MakeRunnable], s4);
    assert [TakeWait] + [SetParent, MakeRunnable] == [TakeWait, SetParent, MakeRunnable];
    SoloThen(s, i, Start(np), [TakeWait, SetParent, MakeRunnable], s4);
    assert [Start(np)] + [TakeWait, SetParent, MakeRunnable] == [Start(np), TakeWait, SetParent, MakeRunnable];
  }

  // ----- exit

  /** wakeup(chan) by process i, for the slots from j on. */
  function WakeAll(s: State, i: int, j: int, chan: int): (t: State)
    ensures |t.procs| == |s.procs|
  {
    s.(procs := seq(|s.procs|, k requires 0 <= k < |s.procs| =>
      if k >= j && k != i then Woken(s.procs[k], chan) else s.procs[k]))
  }

  lemma WakeNone(s: State, i: int, j: int, chan: int)
    requires j >= |s.procs|
    ensures WakeAll(s, i, j, chan) == s
  {
    assert WakeAll(s, i, j, chan).procs == s.procs;
  }

  lemma WakeNext(s: State, i: int, j: int, chan: int, pc: Pc, pc': Pc)
    requires In(s, i) && In(s, j)
    ensures var h := if j == i then s else Set(s, j, Woken(s.procs[j], chan));
      Go(WakeAll(Go(h, i, pc), i, j + 1, chan), i, pc') == Go(WakeAll(s, i, j, chan), i, pc')
  {
    var h := if j == i then s else Set(s, j, Woken(s.procs[j], chan));
    assert Go(WakeAll(Go(h, i, pc), i, j + 1, chan), i, pc').procs == Go(WakeAll(s, i, j, chan), i, pc').procs;
  }

  lemma {:induction false} WakeParentScan(s: State, i: int, j: int) returns (acts: seq<Act>)
    requires Runs(s, i, ExitWake(j)) && 0 <= j && OthersIdle(s, i)
    ensures Solo(s, i, acts, Go(WakeAll(s, i, j, s.procs[i].parent), i, ExitZombie))
    decreases |s.procs| - j
  {
    hide Solo, WakeAll;
    var n, chan := |s.procs|, s.procs[i].parent;
    var t := Apply(s, i, Turn);
    if j >= n {
      WakeNone(s, i, j, chan);
      SoloOne(s, i, Turn);
      acts := [Turn];
    } else {
      WakeNext(s, i, j, chan, ExitWake(j + 1), ExitZombie);
      var rest := WakeParentScan(t, i, j + 1);
      SoloThen(s, i, Turn, rest, Go(WakeAll(s, i, j, chan), i, ExitZombie));
      acts := [Turn] + rest;
    }
  }

  lemma {:induction false} WakeInitScan(s: State, i: int, x: int, j: int) returns (acts: seq<Act>)
    requires Runs(s, i, ExitWakeInit(x, j)) && 0 <= j && In(s, x) && OthersIdle(s, i)
    ensures Solo(s, i, acts, Go(WakeAll(s, i, j, 0), i, ExitReparent(x + 1)))
    decreases |s.procs| - j
  {
    hide Solo, WakeAll;
    var n := |s.procs|;
    var t := Apply(s, i, Turn);
    if j >= n {
      WakeNone(s, i, j, 0);
      SoloOne(s, i, Turn);
      acts := [Turn];
    } else {
      WakeNext(s, i, j, 0, ExitWakeInit(x, j + 1), ExitReparent(x + 1));
      var rest := WakeInitScan(t, i, x, j + 1);
      SoloThen(s, i, Turn, rest, Go(WakeAll(s, i, j, 0), i, ExitReparent(x + 1)));
      acts := [Turn] + rest;
    }
  }

  /** i has a child in a slot from x on. */
  ghost predicate HasKid(s: State, i: int, x: int) {
    exists k :: x <= k < |s.procs| && 0 <= k && s.procs[k].parent == i
  }

  /** The children in slots from x on go to init, which is woken if there are any. */
  ghost function Orphan(s: State, i: int, x: int, k: int): Proc
    requires In(s, k)
  {
    var p := s.procs[k];
    var q := if k >= x && p.parent == i then p.(parent := 0) else p;
    if k != i && HasKid(s, i, x) then Woken(q, 0) else q
  }

  ghost function Orphans(s: State, i: int, x: int): (t: State)
    ensures |t.procs| == |s.procs|
  {
    s.(procs := seq(|s.procs|, k requires 0 <= k < |s.procs| => Orphan(s, i, x, k)))
  }

  lemma NoOrphans(s: State, i: int, x: int)
    requires x >= |s.procs|
    ensures Orphans(s, i, x) == s
  {
    assert Orphans(s, i, x).procs == s.procs;
  }

  lemma SkipOrphan(s: State, i: int, x: int, pc: Pc)
    requires In(s, i) && In(s, x) && s.procs[x].parent != i && s.procs[i].parent != i
    ensures Go(Orphans(Go(s, i, ExitReparent(x + 1)), i, x + 1), i, pc) == Go(Orphans(s, i, x), i, pc)
  {
    var t := Go(s, i, ExitReparent(x + 1));
    assert HasKid(t, i, x + 1) <==> HasKid(s, i, x) by {
      if k :| x <= k < |s.procs| && 0 <= k && s.procs[k].parent == i {
        assert t.procs[k].parent == i && k != x;
      }
      if k :| x + 1 <= k < |t.procs| && 0 <= k && t.procs[k].parent == i {
        assert s.procs[k].parent == i;
      }
    }
    assert Go(Orphans(t, i, x + 1), i, pc).procs == Go(Orphans(s, i, x), i, pc).procs;
  }

  lemma NextOrphan(s: State, i: int, x: int, pc: Pc)
    requires In(s, i) && In(s, x) && In(s, 0) && s.procs[x].parent == i && x != i && i != 0 && s.procs[i].parent != i
    ensures var t := Go(WakeAll(DoHandOver(s, i, x), i, 0, 0), i, ExitReparent(x + 1));
      Go(Orphans(t, i, x + 1), i, pc) == Go(Orphans(s, i, x), i, pc)
  {
    var t := Go(WakeAll(DoHandOver(s, i, x), i, 0, 0), i, ExitReparent(x + 1));
    assert HasKid(s, i, x) by {
      assert s.procs[x].parent == i;
    }
    forall k | 0 <= k < |s.procs| && k != i ensures Orphan(t, i, x + 1, k) == Orphan(s, i, x, k) {
      assert t.procs[k] == Woken(if k == x then s.procs[k].(parent := 0) else s.procs[k], 0);
    }
    assert Go(Orphans(t, i, x + 1), i, pc).procs == Go(Orphans(s, i, x), i, pc).procs;
  }

  lemma ReparentTurn(s: State, i: int, x: int)
    requires Runs(s, i, ExitReparent(x)) && 0 <= x && OthersIdle(s, i)
    ensures Enabled(s, i, Turn)
    ensures Apply(s, i, Turn) == if x >= |s.procs| then Go(s, i, ExitWake(0))
      else if s.procs[x].parent != i then Go(s, i, ExitReparent(x + 1)) else DoHandOver(s, i, x)
    ensures x < |s.procs| && s.procs[x].parent == i && x != i ==>
              Runs(DoHandOver(s, i, x), i, ExitWakeInit(x, 0)) && OthersIdle(DoHandOver(s, i, x), i)
  {
  }

  lemma {:induction false} ReparentScan(s: State, i: int, x: int) returns (acts: seq<Act>)
    requires Runs(s, i, ExitReparent(x)) && 0 <= x && OthersIdle(s, i) && i != 0 && s.procs[i].parent != i
    ensures Solo(s, i, acts, Go(Orphans(s, i, x), i, ExitWake(0)))
    decreases |s.procs| - x
  {
    hide Solo, Orphans, WakeAll, Enabled, Apply;
    var n := |s.procs|;
    ReparentTurn(s, i, x);
    var t := Apply(s, i, Turn);
    if x >= n {
      NoOrphans(s, i, x);
      SoloOne(s, i, Turn);
      acts := [Turn];
    } else if s.procs[x].parent != i {
      SkipOrphan(s, i, x, ExitWake(0));
      var rest := ReparentScan(t, i, x + 1);
      SoloThen(s, i, Turn, rest, Go(Orphans(s, i, x), i, ExitWake(0)));
      acts := [Turn] + rest;
    } else {
      var wake := WakeInitScan(t, i, x, 0);
      var u := Go(WakeAll(t, i, 0, 0), i, ExitReparent(x + 1));
      WokenKeeps(t, i, 0, 0);
      NextOrphan(s, i, x, ExitWake(0));
      var rest := ReparentScan(u, i, x + 1);
      SoloJoin(t, i, wake, u, rest, Go(Orphans(s, i, x), i, ExitWake(0)));
      SoloThen(s, i, Turn, wake + rest, Go(Orphans(s, i, x), i, ExitWake(0)));
      acts := [Turn] + (wake + rest);
    }
  }

  lemma WokenKeeps(s: State, i: int, j: int, chan: int)
    requires In(s, i)
    ensures var t := WakeAll(s, i, j, chan);
      && t.procs[i] == s.procs[i] && (OthersIdle(s, i) ==> OthersIdle(t, i)) && t.waitLock == s.waitLock
      && t.exited == s.exited && t.reaped == s.reaped && t.nextpid == s.nextpid
  {
  }

  /** What exit leaves of another process. */
  ghost predicate LeftBy(s: State, i: int, p: Proc, q: Proc)
    requires In(s, i)
  {
    && q == p.(parent := if p.parent == i then 0 else p.parent, state := q.state)
    && q.state == if p.state == Sleeping && (p.chan == s.procs[i].parent || (p.chan == 0 && HasKid(s, i, 0)))
                  then Runnable else p.state
  }

  /** The end of exit. */
  lemma BecomeZombie(w: State, i: int) returns (acts: seq<Act>, t: State)
    requires Runs(w, i, ExitZombie) && w.waitLock == i && w.procs[i].lock == -1
    ensures Solo(w, i, acts, t)
    ensures t == w.(procs := w.procs[i := w.procs[i].(state := Zombie, pc := Dead)], waitLock := -1,
                    exited := w.exited + {w.procs[i].pid})
  {
    hide Solo;
    var z := Apply(w, i, ToZombie);
    var l := Apply(z, i, LetGo);
    t := Apply(l, i, Switch);
    SoloOne(l, i, Switch);
    SoloThen(z, i, LetGo, [Switch], t);
    SoloThen(w, i, ToZombie, [LetGo] + [Switch], t);
    acts := [ToZombie] + ([LetGo] + [Switch]);
  }

  lemma ExitBegins(s: State, i: int)
    requires Runs(s, i, Elsewhere) && i != 0 && Quiet(s)
    ensures Enabled(s, i, Exit) && Apply(s, i, Exit) == Hold(s, i, ExitReparent(0))
    ensures Runs(Hold(s, i, ExitReparent(0)), i, ExitReparent(0)) && OthersIdle(Hold(s, i, ExitReparent(0)), i)
  {
  }

  /** exit on its own: a zombie that its parent can find; its children belong to init, and whoever sleeps waiting for
      the one or the others is woken. */
  lemma ExitAlone(s: State, i: int) returns (acts: seq<Act>, t: State)
    requires Runs(s, i, Elsewhere) && i != 0 && s.procs[i].parent != i && Quiet(s)
    ensures Solo(s, i, acts, t) && |t.procs| == |s.procs| && Quiet(t)
    ensures t.procs[i] == s.procs[i].(state := Zombie, pc := Dead)
    ensures forall k :: 0 <= k < |s.procs| && k != i ==> LeftBy(s, i, s.procs[k], t.procs[k])
    ensures t.exited == s.exited + {s.procs[i].pid} && t.reaped == s.reaped && t.nextpid == s.nextpid
  {
    hide Solo, Orphans, WakeAll, Enabled, Apply, LeftBy;
    ExitBegins(s, i);
    var h := Hold(s, i, ExitReparent(0));
    var scan := ReparentScan(h, i, 0);
    var o := Go(Orphans(h, i, 0), i, ExitWake(0));
    OrphansKeep(h, i, 0);
    var wake := WakeParentScan(o, i, 0);
    var w := Go(WakeAll(o, i, 0, o.procs[i].parent), i, ExitZombie);
    WokenKeeps(o, i, 0, o.procs[i].parent);
    var last;
    last, t := BecomeZombie(w, i);
    SoloJoin(o, i, wake, w, last, t);
    SoloJoin(h, i, scan, o, wake + last, t);
    SoloThen(s, i, Exit, scan + (wake + last), t);
    acts := [Exit] + (scan + (wake + last));
    forall k | 0 <= k < |s.procs| && k != i ensures LeftBy(s, i, s.procs[k], t.procs[k]) {
      OrphanLeft(s, i, h, k);
      WokenAt(o, i, 0, o.procs[i].parent, k);
      Left(s, i, s.procs[k], o.procs[k], t.procs[k]);
    }
  }

  lemma Left(s: State, i: int, p: Proc, o: Proc, q: Proc)
    requires In(s, i) && q == Woken(o, s.procs[i].parent)
    requires o == p.(parent := if p.parent == i then 0 else p.parent, state := o.state)
      && o.state == if p.state == Sleeping && p.chan == 0 && HasKid(s, i, 0) then Runnable else p.state
    ensures LeftBy(s, i, p, q)
  {
  }

  lemma WokenAt(s: State, i: int, j: int, chan: int, k: int)
    requires In(s, k)
    ensures WakeAll(s, i, j, chan).procs[k] == if k >= j && k != i then Woken(s.procs[k], chan) else s.procs[k]
  {
  }

  lemma OrphansKeep(s: State, i: int, x: int)
    requires In(s, i) && s.procs[i].parent != i
    ensures var t := Orphans(s, i, x);
      && t.procs[i] == s.procs[i] && (OthersIdle(s, i) ==> OthersIdle(t, i)) && t.waitLock == s.waitLock
      && t.exited == s.exited && t.reaped == s.reaped && t.nextpid == s.nextpid
  {
  }

  lemma OrphanLeft(s: State, i: int, h: State, k: int)
    requires In(s, i) && In(s, k) && k != i && h == Hold(s, i, ExitReparent(0))
    ensures var p, q := s.procs[k], Orphans(h, i, 0).procs[k];
      && q == p.(parent := if p.parent == i then 0 else p.parent, state := q.state)
      && q.state == if p.state == Sleeping && p.chan == 0 && HasKid(s, i, 0) then Runnable else p.state
  {
    assert HasKid(h, i, 0) <==> HasKid(s, i, 0) by {
      assert forall m :: 0 <= m < |s.procs| ==> h.procs[m].parent == s.procs[m].parent;
    }
  }

  // ----- wait

  /** The lowest slot from x on with a zombie child of i. */
  ghost predicate FirstZombie(s: State, i: int, x: int, c: int) {
    x <= c && ZombieChild(s, i, c) && forall k :: x <= k < c ==> !ZombieChild(s, i, k)
  }

  ghost predicate NoZombies(s: State, i: int, x: int) {
    forall k :: x <= k ==> !ZombieChild(s, i, k)
  }

  /** The scan of wait finds the first zombie child, or goes through to the end. */
  lemma {:induction false} WaitScans(s: State, i: int, x: int, kids: bool) returns (acts: seq<Act>, c: int, t: State)
    requires Runs(s, i, WaitScan(x, kids)) && 0 <= x && OthersIdle(s, i) && s.procs[i].parent != i
    ensures Solo(s, i, acts, t) && (forall m :: 0 <= m < |acts| ==> acts[m] == Turn)
    ensures c >= 0 ==> FirstZombie(s, i, x, c) && t == DoReap(s, i, c)
    ensures c < 0 ==> NoZombies(s, i, x) && t == Go(s, i, WaitEnd(kids || HasKid(s, i, x)))
    decreases |s.procs| - x
  {
    hide Solo;
    var n := |s.procs|;
    t := Apply(s, i, Turn);
    SoloOne(s, i, Turn);
    acts := [Turn];
    if x >= n {
      c := -1;
    } else if ZombieChild(s, i, x) {
      c := x;
    } else {
      var kids' := kids || s.procs[x].parent == i;
      var h := t;
      assert h == Go(s, i, WaitScan(x + 1, kids'));
      var rest;
      rest, c, t := WaitScans(h, i, x + 1, kids');
      SoloThen(s, i, Turn, rest, t);
      acts := [Turn] + rest;
      SameKids(s, i, x, WaitScan(x + 1, kids'));
      if c >= 0 {
        ReapSame(s, i, WaitScan(x + 1, kids'), c);
      }
    }
  }

  lemma SameKids(s: State, i: int, x: int, pc: Pc)
    requires In(s, i) && In(s, x) && s.procs[i].state == Running
    ensures var h := Go(s, i, pc);
      && (forall k :: ZombieChild(h, i, k) <==> ZombieChild(s, i, k))
      && (HasKid(s, i, x) <==> s.procs[x].parent == i || HasKid(h, i, x + 1))
  {
    var h := Go(s, i, pc);
    assert forall k :: 0 <= k < |s.procs| ==> h.procs[k].parent == s.procs[k].parent;
    if k :| x <= k < |s.procs| && 0 <= k && s.procs[k].parent == i {
      assert k == x || h.procs[k].parent == i;
    }
    if k :| x + 1 <= k < |h.procs| && 0 <= k && h.procs[k].parent == i {
      assert s.procs[k].parent == i;
    }
  }

  lemma ReapSame(s: State, i: int, pc: Pc, c: int)
    requires In(s, i) && In(s, c) && c != i
    ensures DoReap(Go(s, i, pc), i, c) == DoReap(s, i, c)
  {
    assert DoReap(Go(s, i, pc), i, c).procs == DoReap(s, i, c).procs;
  }

  /** What wait by a running process comes to: a zombie child is freed, or there is none to wait for, or it sleeps. */
  ghost predicate Waited(s: State, i: int, t: State)
    requires In(s, i)
  {
    var p := s.procs[i].(pc := Elsewhere);
    if !NoZombies(s, i, 0) then
      exists c :: FirstZombie(s, i, 0, c)
        && t == s.(procs := s.procs[c := Free()][i := p], waitLock := -1, reaped := s.reaped + {s.procs[c].pid})
    else if !HasKid(s, i, 0) || p.killed then t == s.(procs := s.procs[i := p], waitLock := -1)
    else t == s.(procs := s.procs[i := p.(state := Sleeping, chan := i, pc := WaitAsleep)], waitLock := -1)
  }

  lemma WaitFrom(s: State, i: int) returns (acts: seq<Act>, t: State)
    requires Runs(s, i, WaitScan(0, false)) && s.waitLock == i && s.procs[i].lock == -1 && OthersIdle(s, i)
      && s.procs[i].parent != i
    ensures Solo(s, i, acts, t) && Waited(s, i, t)
    ensures forall m :: 0 <= m < |acts| ==> acts[m] in {Turn, GiveUp, Stay, ToSleep, LetGo, Switch}
  {
    hide Solo;
    var scan, c, w := WaitScans(s, i, 0, false);
    acts, t := scan, w;
    if c >= 0 {
      assert t == s.(procs := s.procs[c := Free()][i := s.procs[i].(pc := Elsewhere)], waitLock := -1,
                     reaped := s.reaped + {s.procs[c].pid});
    } else if !HasKid(s, i, 0) || s.procs[i].killed {
      t := Apply(w, i, GiveUp);
      SoloOne(w, i, GiveUp);
      SoloJoin(s, i, scan, w, [GiveUp], t);
      acts := scan + [GiveUp];
    } else {
      var last;
      last, t := FallAsleep(w, i);
      SoloJoin(s, i, scan, w, last, t);
      acts := scan + last;
    }
  }

  lemma FallAsleep(w: State, i: int) returns (acts: seq<Act>, t: State)
    requires Runs(w, i, WaitEnd(true)) && w.waitLock == i && w.procs[i].lock == -1 && !w.procs[i].killed
    ensures acts == [Stay, ToSleep, LetGo, Switch] && Solo(w, i, acts, t)
    ensures t == w.(procs := w.procs[i := w.procs[i].(state := Sleeping, chan := i, pc := WaitAsleep)], waitLock := -1)
  {
    hide Solo;
    var a := Apply(w, i, Stay);
    var b := Apply(a, i, ToSleep);
    var d := Apply(b, i, LetGo);
    t := Apply(d, i, Switch);
    SoloOne(d, i, Switch);
    SoloThen(b, i, LetGo, [Switch], t);
    SoloThen(a, i, ToSleep, [LetGo] + [Switch], t);
    SoloThen(w, i, Stay, [ToSleep] + ([LetGo] + [Switch]), t);
    acts := [Stay] + ([ToSleep] + ([LetGo] + [Switch]));
  }

  /** wait on its own. */
  lemma WaitAlone(s: State, i: int) returns (acts: seq<Act>, t: State)
    requires Runs(s, i, Elsewhere) && Quiet(s) && s.procs[i].parent != i
    ensures Solo(s, i, acts, t) && Waited(s, i, t)
  {
    hide Solo, Waited;
    var h := Apply(s, i, Wait);
    var rest;
    rest, t := WaitFrom(h, i);
    SoloThen(s, i, Wait, rest, t);
    acts := [Wait] + rest;
    WaitedSame(s, h, i, t);
  }

  lemma WaitedSame(s: State, h: State, i: int, t: State)
    requires In(s, i) && In(h, i) && s.procs[i].state == Running && Waited(h, i, t)
    requires h == s.(procs := s.procs[i := h.procs[i]], waitLock := i)
      && h.procs[i].(pc := Elsewhere) == s.procs[i].(pc := Elsewhere)
    ensures Waited(s, i, t)
  {
    assert forall k :: 0 <= k < |s.procs| ==> h.procs[k].parent == s.procs[k].parent;
    assert forall k :: ZombieChild(h, i, k) <==> ZombieChild(s, i, k);
    assert HasKid(h, i, 0) <==> HasKid(s, i, 0) by {
      if k :| 0 <= k < |s.procs| && 0 <= k && s.procs[k].parent == i {
        assert h.procs[k].parent == i;
      }
      if k :| 0 <= k < |h.procs| && 0 <= k && h.procs[k].parent == i {
        assert s.procs[k].parent == i;
      }
    }
    if !NoZombies(h, i, 0) {
      var c :| FirstZombie(h, i, 0, c)
        && t == h.(procs := h.procs[c := Free()][i := h.procs[i].(pc := Elsewhere)], waitLock := -1,
                   reaped := h.reaped + {h.procs[c].pid});
      assert FirstZombie(s, i, 0, c);
      assert h.procs[c := Free()][i := h.procs[i].(pc := Elsewhere)]
          == s.procs[c := Free()][i := s.procs[i].(pc := Elsewhere)];
    }
  }

  /** A process woken in wait goes through the same again. */
  lemma WokenWaits(s: State, q: int) returns (acts: seq<Act>, t: State)
    requires In(s, q) && In(s, 0) && s.procs[q].state == Runnable && s.procs[q].pc.WaitAsleep? && Quiet(s)
      && s.procs[q].parent != q
    ensures Solo(s, q, acts, t)
    ensures Waited(Set(s, q, s.procs[q].(state := Running, chan := -1, pc := Elsewhere)), q, t)
    ensures forall m :: 0 <= m < |acts| ==>
      acts[m] in {Schedule(q), Resume, TakeWait, Turn, GiveUp, Stay, ToSleep, LetGo, Switch}
  {
    hide Solo, Waited;
    var a := Apply(s, q, Schedule(q));
    var b := Apply(a, q, Resume);
    var h := Apply(b, q, TakeWait);
    var rest;
    rest, t := WaitFrom(h, q);
    SoloThen(b, q, TakeWait, rest, t);
    SoloThen(a, q, Resume, [TakeWait] + rest, t);
    SoloThen(s, q, Schedule(q), [Resume] + ([TakeWait] + rest), t);
    acts := [Schedule(q)] + ([Resume] + ([TakeWait] + rest));
    var u := Set(s, q, s.procs[q].(state := Running, chan := -1, pc := Elsewhere));
    assert h.procs == u.procs[q := h.procs[q]];
    WaitedSame(u, h, q, t);
  }

  // ----- kill

  /** In every run, kill marks its victim and leaves it awake, and changes no other process. */
  lemma KillWakes(ss: seq<State>, steps: seq<(int, Act)>, n: int, k: int)
    requires IsRun(ss, steps) && 0 <= n < |steps| && steps[n].1 == Kill(k)
    ensures In(ss[n], k)
    ensures var s, t := ss[n], ss[n + 1];
      && t == s.(procs := s.procs[k := t.procs[k]])
      && t.procs[k].killed && t.procs[k].state != Sleeping
      && t.procs[k] == s.procs[k].(killed := true, state := t.procs[k].state)
      && (s.procs[k].state == Sleeping ==> t.procs[k].state == Runnable)
      && (s.procs[k].state != Sleeping ==> t.procs[k].state == s.procs[k].state)
  {
    hide Init, DoTurn;
  }

  /** A process killed while asleep in wait, with no lock held, gets out of wait by its own steps, whatever its
      children do. */
  lemma KilledLeavesWait(s: State, q: int) returns (acts: seq<Act>, t: State)
    requires Enabled(s, q, Kill(q)) && s.procs[q].state == Sleeping && s.procs[q].pc.WaitAsleep? && Quiet(s)
      && s.procs[q].parent != q
    ensures Solo(Apply(s, q, Kill(q)), q, acts, t) && |t.procs| == |s.procs|
    ensures t.procs[q].pc == Elsewhere && t.procs[q].state == Running && t.procs[q].killed
  {
    hide Solo;
    var h := Apply(s, q, Kill(q));
    acts, t := WokenWaits(h, q);
  }

  lemma KilledStep(s: State, i: int, a: Act, k: int)
    requires Enabled(s, i, a) && In(s, k) && s.procs[k].killed
    ensures In(Apply(s, i, a), k) && (Apply(s, i, a).procs[k].killed || Apply(s, i, a).procs[k] == Free())
  {
  }

  lemma StepSize(s: State, i: int, a: Act)
    requires Enabled(s, i, a)
    ensures |Apply(s, i, a).procs| == |s.procs|
  {
  }

  lemma {:induction false} SameTable(ss: seq<State>, steps: seq<(int, Act)>, a: int, b: int)
    requires IsRun(ss, steps) && 0 <= a <= b < |ss|
    ensures |ss[b].procs| == |ss[a].procs|
    decreases b
  {
    hide Init, Enabled, Apply;
    if a < b {
      SameTable(ss, steps, a, b - 1);
      StepSize(ss[b - 1], steps[b - 1].0, steps[b - 1].1);
    }
  }

  /** In every run, a killed process stays killed until its slot is freed. */
  lemma {:induction false} KilledStays(ss: seq<State>, steps: seq<(int, Act)>, a: int, b: int, k: int)
    requires IsRun(ss, steps) && 0 <= a <= b < |ss| && In(ss[a], k) && ss[a].procs[k].killed
    ensures In(ss[b], k) && (ss[b].procs[k].killed || exists c :: a < c <= b && FreeSlot(ss, c, k))
    decreases b
  {
    hide Init, Enabled, Apply, Free;
    if a < b {
      KilledStays(ss, steps, a, b - 1, k);
      if ss[b - 1].procs[k].killed {
        KilledStep(ss[b - 1], steps[b - 1].0, steps[b - 1].1, k);
        assert ss[b].procs[k].killed || FreeSlot(ss, b, k);
      } else {
        StepSize(ss[b - 1], steps[b - 1].0, steps[b - 1].1);
      }
    }
  }

  ghost predicate FreeSlot(ss: seq<State>, c: int, k: int) {
    0 <= c < |ss| && In(ss[c], k) && ss[c].procs[k] == Free()
  }

  // ----- A kill that comes too late

  /** q has passed wait's test for a kill, and is on its way to sleep or asleep. */
  predicate PastTest(p: Proc) {
    p.pc.SleepWant? || p.pc.SleepLocked? || p.pc.SleepGo? || (p.pc.WaitAsleep? && p.state == Sleeping)
  }

  /** A turn of a scan takes no process past the test, and kills none. */
  lemma TestTurn(s: State, i: int, q: int)
    requires In(s, i) && In(s, 0) && In(s, q) && CanTurn(s, i)
    ensures |DoTurn(s, i).procs| == |s.procs|
    ensures PastTest(DoTurn(s, i).procs[q]) && DoTurn(s, i).procs[q].killed ==>
              PastTest(s.procs[q]) && s.procs[q].killed
  {
  }

  lemma TestStep(s: State, i: int, a: Act, q: int)
    requires Inv(s) && Enabled(s, i, a) && In(s, q) && |Apply(s, i, a).procs| == |s.procs|
    requires PastTest(Apply(s, i, a).procs[q]) && Apply(s, i, a).procs[q].killed
    ensures (PastTest(s.procs[q]) && s.procs[q].killed) || (a == Kill(q) && s.procs[q].pc.SleepWant?)
  {
    hide PidsOk, ForkOk, ParentOk, WakeOk, Inv, DoTurn, CanTurn;
    TestSlot(s, q);
    if a.Turn? {
      TestTurn(s, i, q);
    }
  }

  lemma TestSlot(s: State, q: int)
    requires Inv(s) && In(s, q)
    ensures s.procs[q].lock == if HoldsOwn(s.procs[q].pc) then q else -1
    ensures s.procs[q].pc.Idle? <==> s.procs[q].state == Unused || s.procs[q].state == Used
  {
    hide PidsOk, ForkOk, ParentOk, WakeOk;
    assert SlotOk(s, q);
  }

  /** In every run, a process that sleeps in wait though it is killed was killed in the window between wait's test and
      its sleep; no other kill is missed. */
  lemma {:induction false} OnlyWindowMissed(ss: seq<State>, steps: seq<(int, Act)>, n: int, q: int)
    requires IsRun(ss, steps) && 0 <= n < |ss| && In(ss[n], q) && PastTest(ss[n].procs[q]) && ss[n].procs[q].killed
    ensures exists m :: 0 <= m < n && KilledInWindow(ss, steps, m, q)
    decreases n
  {
    hide Init, Enabled, Apply, Inv, PastTest;
    RunInv(ss, steps, if n == 0 then 0 else n - 1);
    if n == 0 {
      NotYetAsleep(ss[0], q);
    } else {
      StepSize(ss[n - 1], steps[n - 1].0, steps[n - 1].1);
      TestStep(ss[n - 1], steps[n - 1].0, steps[n - 1].1, q);
      if steps[n - 1].1 == Kill(q) && ss[n - 1].procs[q].pc.SleepWant? {
        assert KilledInWindow(ss, steps, n - 1, q);
      } else {
        OnlyWindowMissed(ss, steps, n - 1, q);
      }
    }
  }

  ghost predicate KilledInWindow(ss: seq<State>, steps: seq<(int, Act)>, m: int, q: int) {
    0 <= m < |steps| && m < |ss| && In(ss[m], q) && steps[m].1 == Kill(q) && ss[m].procs[q].pc.SleepWant?
  }

  lemma NotYetAsleep(s: State, q: int)
    requires Init(s) && In(s, q)
    ensures !PastTest(s.procs[q])
  {
  }

  /** And such a kill is missed: no other process runs, and the killed process goes to sleep. */
  lemma WindowMisses(s: State, q: int)
    requires Runs(s, q, SleepWant) && s.waitLock == q && s.procs[q].lock == -1
    ensures var p := s.procs[q].(killed := true);
      Solo(s, q, [Kill(q), ToSleep, LetGo, Switch],
           s.(procs := s.procs[q := p.(state := Sleeping, chan := q, pc := WaitAsleep)], waitLock := -1))
  {
    hide Solo;
    var a := Apply(s, q, Kill(q));
    var b := Apply(a, q, ToSleep);
    var d := Apply(b, q, LetGo);
    var t := Apply(d, q, Switch);
    var p := s.procs[q].(killed := true);
    assert t.procs == s.procs[q := p.(state := Sleeping, chan := q, pc := WaitAsleep)];
    SoloOne(d, q, Switch);
    SoloThen(b, q, LetGo, [Switch], t);
    SoloThen(a, q, ToSleep, [LetGo] + [Switch], t);
    SoloThen(s, q, Kill(q), [ToSleep] + ([LetGo] + [Switch]), t);
    assert [Kill(q)] + ([ToSleep] + ([LetGo] + [Switch])) == [Kill(q), ToSleep, LetGo, Switch];
  }

  lemma {:induction false} SoloRun(ss: seq<State>, steps: seq<(int, Act)>, i: int, acts: seq<Act>, t: State)
    returns (ss': seq<State>, steps': seq<(int, Act)>)
    requires IsRun(ss, steps) && Solo(ss[|ss| - 1], i, acts, t)
    ensures IsRun(ss', steps') && |ss'| == |ss| + |acts| && ss'[|ss'| - 1] == t
    decreases |acts|
  {
    hide Enabled, Apply, Init;
    ss', steps' := ss, steps;
    if acts != [] {
      var m := Apply(ss[|ss| - 1], i, acts[0]);
      assert IsStep(ss[|ss| - 1], i, acts[0], m);
      ss', steps' := Extend(ss, steps, i, acts[0], m);
      ss', steps' := SoloRun(ss', steps', i, acts[1..], t);
    }
  }

  /** A run to a process that is killed, asleep in wait and has a live child. */
  lemma MissedKill() returns (ss: seq<State>, steps: seq<(int, Act)>)
    ensures IsRun(ss, steps) && |ss| == 15
    ensures ss[14].procs == [Proc(Sleeping, 0, -1, 1, true, -1, WaitAsleep, -1),
                             Proc(Runnable, -1, 0, 2, false, -1, Elsewhere, -1)]
  {
    hide Enabled, Apply, Init, IsRun, Solo;
    ss, steps := RunToSleep();
    var s := BeforeSleep();
    WindowMisses(s, 0);
    var p := s.procs[0].(killed := true);
    ss, steps := SoloRun(ss, steps, 0, [Kill(0), ToSleep, LetGo, Switch],
                         s.(procs := s.procs[0 := p.(state := Sleeping, chan := 0, pc := WaitAsleep)], waitLock := -1));
  }
}
