/**
 A sleep lock (kernel/sleeplock.c) over sleep and wakeup (kernel/proc.c), as interleaved steps of any
 number of processes.
 */
module SleepLock {

  /** Where a process is.  Its own p->lock is held in Locking and Going. */
  datatype Pc =
    | Out                // does not want the lock
    | Test               // acquiresleep, about to test lk->locked; holds lk->lk
    | Locking            // in sleep, p->lock taken; still holds lk->lk
    | Going              // in sleep, lk->lk released
    | Asleep             // in sleep, until scheduled again
    | Again              // about to take lk->lk and test again
    | Holder             // holds the sleep lock
    | Waking(j: int)     // releasesleep, in wakeup at slot j; holds lk->lk

  /** sleeping: p->state is SLEEPING on this lock. */
  datatype Proc = Proc(pc: Pc, sleeping: bool)

  /** inner: who holds lk->lk, or -1.  owner: lk->pid when locked. */
  datatype State = State(procs: seq<Proc>, inner: int, locked: bool, owner: int)

  datatype Act = Take | TestIt | LetGo | Switch | Resume | Release | Turn | Rouse(k: int)

  predicate In(s: State, i: int) {
    0 <= i < |s.procs|
  }

  predicate HoldsInner(pc: Pc) {
    pc.Test? || pc.Locking? || pc.Waking?
  }

  /** p->lock is free: wakeup and kill can look at the process. */
  predicate Idle(pc: Pc) {
    !pc.Locking? && !pc.Going?
  }

  function Go(s: State, i: int, p: Proc, inner: int): State
    requires In(s, i)
  {
    s.(procs := s.procs[i := p], inner := inner)
  }

  predicate Enabled(s: State, i: int, a: Act) {
    && In(s, i)
    && var pc := s.procs[i].pc;
       match a
       case Take => (pc.Out? || pc.Again?) && s.inner == -1
       case TestIt => pc.Test?
       case LetGo => pc.Locking?
       case Switch => pc.Going?
       case Resume => pc.Asleep? && !s.procs[i].sleeping
       case Release => pc.Holder? && s.inner == -1
       case Turn => pc.Waking? && 0 <= pc.j && (In(s, pc.j) && pc.j != i ==> Idle(s.procs[pc.j].pc))
       case Rouse(k) => In(s, k) && Idle(s.procs[k].pc)
  }

  function Apply(s: State, i: int, a: Act): (t: State)
    requires Enabled(s, i, a)
  {
    var p := s.procs[i];
    match a
    case Take => Go(s, i, Proc(Test, false), i)
    case TestIt =>
      if s.locked then Go(s, i, Proc(Locking, false), i)
      else Go(s, i, Proc(Holder, false), -1).(locked := true, owner := i)
    case LetGo => Go(s, i, Proc(Going, false), -1)
    case Switch => Go(s, i, Proc(Asleep, true), s.inner)
    case Resume => Go(s, i, Proc(Again, false), s.inner)
    case Release => Go(s, i, Proc(Waking(0), false), i).(locked := false, owner := -1)
    case Turn =>
      if p.pc.j >= |s.procs| then Go(s, i, Proc(Out, false), -1)
      else if p.pc.j == i then Go(s, i, Proc(Waking(p.pc.j + 1), false), i)
      else Go(Go(s, p.pc.j, s.procs[p.pc.j].(sleeping := false), i), i, Proc(Waking(p.pc.j + 1), false), i)
    case Rouse(k) => Go(s, k, s.procs[k].(sleeping := false), s.inner)
  }

  ghost predicate Init(s: State) {
    s.inner == -1 && !s.locked && s.owner == -1 && forall i :: 0 <= i < |s.procs| ==> s.procs[i] == Proc(Out, false)
  }

  ghost predicate IsRun(ss: seq<State>, steps: seq<(int, Act)>) {
    && |ss| == |steps| + 1 && Init(ss[0])
    && forall k :: 0 <= k < |steps| ==>
         Enabled(ss[k], steps[k].0, steps[k].1) && ss[k + 1] == Apply(ss[k], steps[k].0, steps[k].1)
  }

  // ----- The invariant

  /** i tested the lock, found it taken, and sleeps or is bound to. */
  predicate Sleeps(s: State, i: int)
    requires In(s, i)
  {
    s.procs[i].pc.Locking? || s.procs[i].pc.Going? || (s.procs[i].pc.Asleep? && s.procs[i].sleeping)
  }

  /** A wakeup is on its way to slot i. */
  predicate Coming(s: State, i: int) {
    In(s, s.inner) && s.procs[s.inner].pc.Waking? && s.procs[s.inner].pc.j <= i
  }

  ghost predicate SlotOk(s: State, i: int)
    requires In(s, i)
  {
    && (s.inner == i <==> HoldsInner(s.procs[i].pc))
    && (s.procs[i].pc.Holder? <==> s.locked && s.owner == i)
    && (s.procs[i].sleeping ==> s.procs[i].pc.Asleep?) && (s.procs[i].pc.Waking? ==> 0 <= s.procs[i].pc.j)
    && (Sleeps(s, i) ==> s.locked || Coming(s, i))
  }

  ghost predicate Inv(s: State) {
    && (s.inner != -1 ==> In(s, s.inner)) && (s.locked ==> In(s, s.owner))
    && forall i :: 0 <= i < |s.procs| ==> SlotOk(s, i)
  }

  lemma NextInv(s: State, i: int, a: Act)
    requires Inv(s) && Enabled(s, i, a)
    ensures Inv(Apply(s, i, a))
  {
    var t := Apply(s, i, a);
    assert SlotOk(s, i) && (In(s, s.inner) ==> SlotOk(s, s.inner));
    forall k | 0 <= k < |t.procs| ensures SlotOk(t, k) {
      assert SlotOk(s, k);
    }
  }

  lemma {:induction false} RunInv(ss: seq<State>, steps: seq<(int, Act)>, k: int)
    requires IsRun(ss, steps) && 0 <= k < |ss|
    ensures Inv(ss[k])
    decreases k
  {
    hide Inv, Enabled, Apply;
    if k == 0 {
      InitInv(ss[0]);
    } else {
      RunInv(ss, steps, k - 1);
      NextInv(ss[k - 1], steps[k - 1].0, steps[k - 1].1);
    }
  }

  lemma InitInv(s: State)
    requires Init(s)
    ensures Inv(s)
  {
  }

  /** In every run, while lk->lk is free a process sleeps on the lock only if it is held. */
  lemma NoLostWakeup(ss: seq<State>, steps: seq<(int, Act)>, k: int, i: int)
    requires IsRun(ss, steps) && 0 <= k < |ss| && In(ss[k], i) && ss[k].inner == -1 && ss[k].procs[i].sleeping
    ensures ss[k].locked
  {
    RunInv(ss, steps, k);
    assert SlotOk(ss[k], i);
  }

  /** In every run at most one process holds the lock, and lk->locked says whether one does. */
  lemma MutualExclusion(ss: seq<State>, steps: seq<(int, Act)>, k: int, i: int, j: int)
    requires IsRun(ss, steps) && 0 <= k < |ss| && In(ss[k], i) && In(ss[k], j)
    requires ss[k].procs[i].pc.Holder? && ss[k].procs[j].pc.Holder?
    ensures i == j && ss[k].locked && ss[k].owner == i
  {
    RunInv(ss, steps, k);
    assert SlotOk(ss[k], i) && SlotOk(ss[k], j);
  }

  /** In every run, while a process is in one of the two calls or holds the lock, some such process can go on. */
  lemma NoDeadlock(ss: seq<State>, steps: seq<(int, Act)>, k: int, i: int)
    requires IsRun(ss, steps) && 0 <= k < |ss| && In(ss[k], i) && !ss[k].procs[i].pc.Out?
    ensures exists j, a :: Enabled(ss[k], j, a) && !a.Rouse? && !ss[k].procs[j].pc.Out?
  {
    RunInv(ss, steps, k);
    var j, a := GoesOn(ss[k], i);
  }

  lemma GoesOn(s: State, i: int) returns (j: int, a: Act)
    requires Inv(s) && In(s, i) && !s.procs[i].pc.Out?
    ensures Enabled(s, j, a) && !a.Rouse? && !s.procs[j].pc.Out?
  {
    assert SlotOk(s, i);
    if s.inner != -1 {
      assert SlotOk(s, s.inner);
      var pc := s.procs[s.inner].pc;
      j, a := s.inner, if pc.Test? then TestIt else if pc.Locking? then LetGo else Turn;
      if pc.Waking? && In(s, pc.j) && !Idle(s.procs[pc.j].pc) {
        assert SlotOk(s, pc.j);
        j, a := pc.j, Switch;
      }
    } else if s.procs[i].sleeping {
      assert SlotOk(s, s.owner);
      j, a := s.owner, Release;
    } else {
      var pc := s.procs[i].pc;
      j, a := i, if pc.Holder? then Release else if pc.Going? then Switch else if pc.Again? then Take else Resume;
    }
  }

  // ----- The two calls, each on its own

  /** ss is what the steps make of its first state. */
  ghost predicate Path(ss: seq<State>, steps: seq<(int, Act)>) {
    && |ss| == |steps| + 1
    && forall k :: 0 <= k < |steps| ==>
         Enabled(ss[k], steps[k].0, steps[k].1) && ss[k + 1] == Apply(ss[k], steps[k].0, steps[k].1)
  }

  lemma Joined(ss: seq<State>, steps: seq<(int, Act)>, ts: seq<State>, more: seq<(int, Act)>)
    requires Path(ss, steps) && Path(ts, more) && ss[|ss| - 1] == ts[0]
    ensures Path(ss + ts[1..], steps + more)
    ensures (ss + ts[1..])[|steps| + |more|] == ts[|more|] && (ss + ts[1..])[0] == ss[0]
  {
    hide Enabled, Apply;
    var all, acts := ss + ts[1..], steps + more;
    forall k | 0 <= k < |acts|
      ensures Enabled(all[k], acts[k].0, acts[k].1) && all[k + 1] == Apply(all[k], acts[k].0, acts[k].1)
    {
      if k >= |steps| {
        assert all[k] == ts[k - |steps|] && all[k + 1] == ts[k + 1 - |steps|] && acts[k] == more[k - |steps|];
      }
    }
  }

  /** s with process i at p and nobody holding lk->lk. */
  function With(s: State, i: int, p: Proc): State
    requires In(s, i)
  {
    s.(procs := s.procs[i := p], inner := -1)
  }

  /** acquiresleep gets a free lock, and sleeps on a taken one. */
  lemma Acquires(s: State, i: int) returns (ss: seq<State>, steps: seq<(int, Act)>)
    requires In(s, i) && s.inner == -1 && (s.procs[i].pc.Out? || s.procs[i].pc.Again?)
    ensures Path(ss, steps) && ss[0] == s && forall k :: 0 <= k < |steps| ==> steps[k].0 == i
    ensures ss[|steps|] == if s.locked then With(s, i, Proc(Asleep, true))
                           else With(s, i, Proc(Holder, false)).(locked := true, owner := i)
  {
    var t := Apply(s, i, Take);
    var u := Apply(t, i, TestIt);
    ss, steps := [s, t, u], [(i, Take), (i, TestIt)];
    if s.locked {
      var v := Apply(u, i, LetGo);
      var w := Apply(v, i, Switch);
      ss, steps := [s, t, u, v, w], [(i, Take), (i, TestIt), (i, LetGo), (i, Switch)];
      assert w == With(s, i, Proc(Asleep, true));
    } else {
      assert u == With(s, i, Proc(Holder, false)).(locked := true, owner := i);
    }
  }

  /** i is Out, and wakeup has been over the slots from j on. */
  function Woken(s: State, i: int, j: int): State {
    s.(procs := seq(|s.procs|, k requires 0 <= k < |s.procs| =>
                      if k == i then Proc(Out, false)
                      else if k >= j then s.procs[k].(sleeping := false) else s.procs[k]),
       inner := -1)
  }

  ghost predicate OthersIdle(s: State, i: int) {
    forall k :: 0 <= k < |s.procs| && k != i ==> Idle(s.procs[k].pc)
  }

  lemma {:induction false} Wakes(s: State, i: int, j: int) returns (ss: seq<State>, steps: seq<(int, Act)>)
    requires In(s, i) && s.inner == i && s.procs[i] == Proc(Waking(j), false) && 0 <= j <= |s.procs| && OthersIdle(s, i)
    ensures Path(ss, steps) && ss[0] == s && (forall k :: 0 <= k < |steps| ==> steps[k] == (i, Turn))
    ensures ss[|steps|] == Woken(s, i, j)
    decreases |s.procs| - j
  {
    var t := Apply(s, i, Turn);
    if j == |s.procs| {
      ss, steps := [s, t], [(i, Turn)];
      assert t == Woken(s, i, j);
    } else {
      var ts, more := Wakes(t, i, j + 1);
      assert Woken(t, i, j + 1) == Woken(s, i, j);
      assert Path([s, t], [(i, Turn)]);
      Joined([s, t], [(i, Turn)], ts, more);
      ss, steps := [s, t] + ts[1..], [(i, Turn)] + more;
    }
  }

  /** releasesleep frees the lock and wakes every process that sleeps on it. */
  lemma Releases(s: State, i: int) returns (ss: seq<State>, steps: seq<(int, Act)>)
    requires In(s, i) && s.inner == -1 && s.procs[i].pc.Holder? && OthersIdle(s, i)
    ensures Path(ss, steps) && ss[0] == s && forall k :: 0 <= k < |steps| ==> steps[k].0 == i
    ensures ss[|steps|] == Woken(s, i, 0).(locked := false, owner := -1)
  {
    var t := Apply(s, i, Release);
    var ts, more := Wakes(t, i, 0);
    assert Woken(t, i, 0) == Woken(s, i, 0).(locked := false, owner := -1);
    Joined([s, t], [(i, Release)], ts, more);
    ss, steps := [s, t] + ts[1..], [(i, Release)] + more;
  }

  /** From a state with holder i and sleeper j, i releases and j gets the lock. */
  lemma HandOver(s: State, i: int, j: int) returns (ss: seq<State>, steps: seq<(int, Act)>)
    requires In(s, i) && In(s, j) && i != j && s.inner == -1 && s.procs[i].pc.Holder? && OthersIdle(s, i)
    requires s.procs[j] == Proc(Asleep, true)
    ensures Path(ss, steps) && ss[0] == s
    ensures var t := ss[|steps|]; t.locked && t.owner == j && |t.procs| == |s.procs|
                                  && t.procs[j].pc.Holder? && t.procs[i].pc.Out?
  {
    ss, steps := Releases(s, i);
    var t := ss[|steps|];
    var u := Apply(t, j, Resume);
    Joined(ss, steps, [t, u], [(j, Resume)]);
    ss, steps := ss + [t, u][1..], steps + [(j, Resume)];
    var ts, more := Acquires(u, j);
    Joined(ss, steps, ts, more);
    ss, steps := ss + ts[1..], steps + more;
  }

  /** Runs contend: process 1 sleeps on the lock that process 0 holds, and gets it. */
  lemma SomeRun(n: nat) returns (ss: seq<State>, steps: seq<(int, Act)>, m: int)
    requires 2 <= n
    ensures IsRun(ss, steps) && 0 <= m <= |steps| && |ss[m].procs| == |ss[|steps|].procs| == n
    ensures ss[m].procs[0].pc.Holder? && ss[m].procs[1].sleeping && ss[|steps|].procs[1].pc.Holder?
  {
    var s := State(seq(n, _ => Proc(Out, false)), -1, false, -1);
    ss, steps := Acquires(s, 0);
    var ts, more := Acquires(ss[|steps|], 1);
    Joined(ss, steps, ts, more);
    ss, steps := ss + ts[1..], steps + more;
    m := |steps|;
    ts, more := HandOver(ss[m], 0, 1);
    Joined(ss, steps, ts, more);
    assert (ss + ts[1..])[m] == ss[m];
    ss, steps := ss + ts[1..], steps + more;
  }
}
