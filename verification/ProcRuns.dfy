/**
 fork, exit, wait, reparent, sleep, wakeup and kill of kernel/proc.c as interleaved steps.  A step is
 what one process does between two points where another can see or stop it: taking a lock, one
 turn of a scan over the process table, going to sleep.  Process 0 is init.
 */
module ProcRuns {

  datatype Run = Unused | Used | Sleeping | Runnable | Running | Zombie

  /** Where a process is in the code.  j and x count turns of a scan over the table. */
  datatype Pc =
    | Idle                               // no process
    | Elsewhere                          // user code, or other kernel code
    | ForkWant(np: int)                  // allocproc done, np's lock released; about to take wait_lock
    | ForkParent(np: int)                // holds wait_lock
    | ForkStart(np: int)                 // about to make np runnable
    | ExitReparent(x: int)               // holds wait_lock, as do the next four
    | ExitWakeInit(x: int, j: int)       // wakeup(initproc), for child x
    | ExitWake(j: int)                   // wakeup(p->parent)
    | ExitZombie                         // about to take its own lock
    | ExitRelease                        // zombie, holds its own lock and wait_lock
    | ExitSched                          // zombie, holds its own lock
    | Dead
    | WaitScan(x: int, kids: bool)       // holds wait_lock, as do the next three
    | WaitEnd(kids: bool)
    | SleepWant                          // not killed: about to take its own lock
    | SleepLocked                        // sleep: holds its own lock too
    | SleepGo                            // sleep: wait_lock released
    | WaitAsleep                         // in sleep, until scheduled again
    | WaitAgain                          // about to take wait_lock and scan again

  /** maker: the process that is forking a Used slot. */
  datatype Proc = Proc(state: Run, chan: int, parent: int, pid: int, killed: bool, lock: int, pc: Pc, maker: int)

  /** -1 stands for no process; exited and reaped record pids. */
  datatype State = State(procs: seq<Proc>, waitLock: int, nextpid: int, exited: set<int>, reaped: set<int>)

  datatype Act =
    | Start(np: int)        // fork, while np's lock is held
    | ForkFails(np: int)    // the same, out of memory: np is freed again, its pid gone
    | TakeWait              // acquire(&wait_lock)
    | SetParent
    | MakeRunnable
    | Exit                  // exit, up to acquire(&wait_lock)
    | Turn                  // one turn of the scan the process is in
    | ToZombie
    | LetGo                 // release(&wait_lock) with its own lock held
    | Switch                // sched: the scheduler releases the lock
    | Wait                  // wait, up to acquire(&wait_lock)
    | GiveUp                // wait returns -1: no children, or killed
    | CopyFails             // wait returns -1: the status could not be copied out
    | Stay                  // wait finds children and p not killed
    | ToSleep               // sleep(p, &wait_lock): acquire(&p->lock)
    | Resume                // sleep returns from sched
    | Schedule(k: int)      // the scheduler runs k
    | Yield
    | SleepElsewhere
    | WakeElsewhere(k: int) // a wakeup on another channel
    | Kill(k: int)

  predicate HoldsWait(pc: Pc) {
    pc.ForkParent? || pc.ExitReparent? || pc.ExitWakeInit? || pc.ExitWake? || pc.ExitZombie? || pc.ExitRelease? ||
    pc.WaitScan? || pc.WaitEnd? || pc.SleepWant? || pc.SleepLocked?
  }

  predicate HoldsOwn(pc: Pc) {
    pc.SleepLocked? || pc.SleepGo? || pc.ExitRelease? || pc.ExitSched?
  }

  predicate Forking(pc: Pc) {
    pc.ForkWant? || pc.ForkParent? || pc.ForkStart?
  }

  predicate Exiting(pc: Pc) {
    pc.ExitReparent? || pc.ExitWakeInit? || pc.ExitWake? || pc.ExitZombie?
  }

  predicate In(s: State, i: int) {
    0 <= i < |s.procs|
  }

  predicate Live(r: Run) {
    r == Sleeping || r == Runnable || r == Running
  }

  function Set(s: State, i: int, p: Proc): (t: State)
    requires In(s, i)
  {
    s.(procs := s.procs[i := p])
  }

  function Go(s: State, i: int, pc: Pc): (t: State)
    requires In(s, i)
  {
    Set(s, i, s.procs[i].(pc := pc))
  }

  function Free(): Proc {
    Proc(Unused, -1, -1, 0, false, -1, Idle, -1)
  }

  /** What wakeup(chan) does to one slot. */
  function Woken(p: Proc, chan: int): Proc {
    if p.state == Sleeping && p.chan == chan then p.(state := Runnable) else p
  }

  // ----- Steps

  /** One turn of a scan, for process i.  None when it has to wait for the lock of a slot. */
  predicate CanTurn(s: State, i: int)
    requires In(s, i)
  {
    var pc, n := s.procs[i].pc, |s.procs|;
    match pc
    case ExitReparent(x) => 0 <= x
    case ExitWakeInit(x, j) => 0 <= x < n && 0 <= j && (j < n && j != i ==> s.procs[j].lock == -1)
    case ExitWake(j) => 0 <= j && (j < n && j != i ==> s.procs[j].lock == -1)
    case WaitScan(x, kids) => 0 <= x && (x < n && s.procs[x].parent == i ==> s.procs[x].lock == -1)
    case _ => false
  }

  function DoTurn(s: State, i: int): (t: State)
    requires In(s, i) && CanTurn(s, i) && In(s, 0)
  {
    var p, n := s.procs[i], |s.procs|;
    match p.pc
    case ExitReparent(x) =>
      if x >= n then Go(s, i, ExitWake(0))
      else if s.procs[x].parent != i then Go(s, i, ExitReparent(x + 1))
      else DoHandOver(s, i, x)
    case ExitWakeInit(x, j) =>
      if j >= n then Go(s, i, ExitReparent(x + 1))
      else if j == i then Go(s, i, ExitWakeInit(x, j + 1))
      else Go(Set(s, j, Woken(s.procs[j], 0)), i, ExitWakeInit(x, j + 1))
    case ExitWake(j) =>
      if j >= n then Go(s, i, ExitZombie)
      else if j == i then Go(s, i, ExitWake(j + 1))
      else Go(Set(s, j, Woken(s.procs[j], p.parent)), i, ExitWake(j + 1))
    case WaitScan(x, kids) =>
      if x >= n then Go(s, i, WaitEnd(kids))
      else if s.procs[x].parent != i then Go(s, i, WaitScan(x + 1, kids))
      else if s.procs[x].state != Zombie then Go(s, i, WaitScan(x + 1, true))
      else DoReap(s, i, x)
    case _ => s
  }

  predicate Runs(s: State, i: int, pc: Pc) {
    In(s, i) && In(s, 0) && s.procs[i].state == Running && s.procs[i].pc == pc
  }

  predicate Idles(s: State, k: int) {
    In(s, k) && In(s, 0) && s.procs[k].lock == -1
  }

  predicate ZombieChild(s: State, q: int, c: int) {
    In(s, c) && s.procs[c].parent == q && s.procs[c].state == Zombie
  }

  function DoStart(s: State, i: int, np: int): State
    requires In(s, i) && In(s, np)
  {
    var t := Set(s, np, s.procs[np].(state := Used, pid := s.nextpid, maker := i));
    Go(t, i, ForkWant(np)).(nextpid := s.nextpid + 1)
  }

  function DoForkFails(s: State, np: int): State
    requires In(s, np)
  {
    Set(s, np, Free()).(nextpid := s.nextpid + 1)
  }

  function DoSetParent(s: State, i: int, np: int): State
    requires In(s, i) && In(s, np)
  {
    Drop(Set(s, np, s.procs[np].(parent := i)), i, ForkStart(np))
  }

  function DoMakeRunnable(s: State, i: int, np: int): State
    requires In(s, i) && In(s, np)
  {
    Go(Set(s, np, s.procs[np].(state := Runnable, pc := Elsewhere, maker := -1)), i, Elsewhere)
  }

  /** reparent hands child x to init. */
  function DoHandOver(s: State, i: int, x: int): State
    requires In(s, i) && In(s, x)
  {
    Go(Set(s, x, s.procs[x].(parent := 0)), i, ExitWakeInit(x, 0))
  }

  /** freeproc on child x, and wait returns. */
  function DoReap(s: State, i: int, x: int): State
    requires In(s, i) && In(s, x)
  {
    Drop(Set(s, x, Free()), i, Elsewhere).(reaped := s.reaped + {s.procs[x].pid})
  }

  function DoToZombie(s: State, i: int): State
    requires In(s, i)
  {
    Set(s, i, s.procs[i].(state := Zombie, lock := i, pc := ExitRelease)).(exited := s.exited + {s.procs[i].pid})
  }

  function Hold(s: State, i: int, pc: Pc): State
    requires In(s, i)
  {
    Go(s, i, pc).(waitLock := i)
  }

  function Drop(s: State, i: int, pc: Pc): State
    requires In(s, i)
  {
    Go(s, i, pc).(waitLock := -1)
  }

  predicate Enabled(s: State, i: int, a: Act) {
    && In(s, i) && In(s, 0)
    && var pc := s.procs[i].pc;
       match a
       case Start(np) => Runs(s, i, Elsewhere) && Idles(s, np) && s.procs[np].state == Unused
       case ForkFails(np) => Runs(s, i, Elsewhere) && Idles(s, np) && s.procs[np].state == Unused
       case TakeWait => Runs(s, i, pc) && (pc.ForkWant? || pc.WaitAgain?) && s.waitLock == -1
       case SetParent => Runs(s, i, pc) && pc.ForkParent? && In(s, pc.np)
       case MakeRunnable => Runs(s, i, pc) && pc.ForkStart? && Idles(s, pc.np)
       case Exit => Runs(s, i, Elsewhere) && i != 0 && s.waitLock == -1
       case Turn => Runs(s, i, pc) && CanTurn(s, i)
       case ToZombie => Runs(s, i, ExitZombie) && Idles(s, i)
       case LetGo => pc.ExitRelease? || pc.SleepLocked?
       case Switch => pc.ExitSched? || pc.SleepGo?
       case Wait => Runs(s, i, Elsewhere) && s.waitLock == -1
       case GiveUp => Runs(s, i, pc) && pc.WaitEnd? && (!pc.kids || s.procs[i].killed)
       case CopyFails => Runs(s, i, pc) && pc.WaitScan? && CanTurn(s, i) && ZombieChild(s, i, pc.x)
       case Stay => Runs(s, i, WaitEnd(true)) && !s.procs[i].killed && Idles(s, i)
       case ToSleep => Runs(s, i, SleepWant) && Idles(s, i)
       case Resume => Runs(s, i, WaitAsleep)
       case Schedule(k) => Idles(s, k) && s.procs[k].state == Runnable
       case Yield => Runs(s, i, Elsewhere) && Idles(s, i)
       case SleepElsewhere => Runs(s, i, Elsewhere) && Idles(s, i)
       case WakeElsewhere(k) => Idles(s, k) && s.procs[k].state == Sleeping && s.procs[k].chan == -1
       case Kill(k) => Idles(s, k)
  }

  function Apply(s: State, i: int, a: Act): (t: State)
    requires Enabled(s, i, a)
  {
    var p := s.procs[i];
    match a
    case Start(np) => DoStart(s, i, np)
    case ForkFails(np) => DoForkFails(s, np)
    case TakeWait => Hold(s, i, if p.pc.ForkWant? then ForkParent(p.pc.np) else WaitScan(0, false))
    case SetParent => DoSetParent(s, i, p.pc.np)
    case MakeRunnable => DoMakeRunnable(s, i, p.pc.np)
    case Exit => Hold(s, i, ExitReparent(0))
    case Turn => DoTurn(s, i)
    case ToZombie => DoToZombie(s, i)
    case LetGo => Drop(s, i, if p.pc.ExitRelease? then ExitSched else SleepGo)
    case Switch =>
      if p.pc.ExitSched? then Set(s, i, p.(lock := -1, pc := Dead))
      else Set(s, i, p.(chan := i, state := Sleeping, lock := -1, pc := WaitAsleep))
    case Wait => Hold(s, i, WaitScan(0, false))
    case GiveUp => Drop(s, i, Elsewhere)
    case CopyFails => Drop(s, i, Elsewhere)
    case Stay => Go(s, i, SleepWant)
    case ToSleep => Set(s, i, p.(lock := i, pc := SleepLocked))
    case Resume => Set(s, i, p.(chan := -1, pc := WaitAgain))
    case Schedule(k) => Set(s, k, s.procs[k].(state := Running))
    case Yield => Set(s, i, p.(state := Runnable))
    case SleepElsewhere => Set(s, i, p.(state := Sleeping, chan := -1))
    case WakeElsewhere(k) => Set(s, k, s.procs[k].(state := Runnable))
    case Kill(k) =>
      var r := if s.procs[k].state == Sleeping then Runnable else s.procs[k].state;
      Set(s, k, s.procs[k].(killed := true, state := r))
  }

  ghost predicate Init(s: State) {
    && In(s, 0) && s.waitLock == -1 && s.exited == {} && s.reaped == {} && 1 < s.nextpid
    && s.procs[0] == Proc(Runnable, -1, -1, 1, false, -1, Elsewhere, -1)
    && forall i :: 0 < i < |s.procs| ==> s.procs[i] == Free()
  }

  /** A run: the process and the step it takes, from each state to the next. */
  ghost predicate IsRun(ss: seq<State>, steps: seq<(int, Act)>) {
    && |ss| == |steps| + 1 && Init(ss[0])
    && forall k :: 0 <= k < |steps| ==>
         Enabled(ss[k], steps[k].0, steps[k].1) && ss[k + 1] == Apply(ss[k], steps[k].0, steps[k].1)
  }

  // ----- The invariant, slot by slot

  /** Locks: who holds wait_lock, and each slot's own lock. */
  ghost predicate LockOk(s: State, i: int)
    requires In(s, i)
  {
    var p := s.procs[i];
    && (s.waitLock == i <==> HoldsWait(p.pc))
    && p.lock == if HoldsOwn(p.pc) then i else -1
  }

  /** The scheduling state goes with the place in the code. */
  ghost predicate StateOk(s: State, i: int)
    requires In(s, i)
  {
    var p := s.procs[i];
    && (p.pc.Idle? <==> p.state == Unused || p.state == Used)
    && (p.pc.ExitRelease? || p.pc.ExitSched? || p.pc.Dead? <==> p.state == Zombie)
    && (p.state == Runnable ==> p.pc.Elsewhere? || p.pc.WaitAsleep?)
    && (p.state == Sleeping ==> (p.pc.Elsewhere? && p.chan == -1) || (p.pc.WaitAsleep? && p.chan == i))
    && (i == 0 ==> Live(p.state) && !Exiting(p.pc))
  }

  /** A slot being made belongs to the process that forks it. */
  ghost predicate ForkOk(s: State, i: int)
    requires In(s, i)
  {
    var p := s.procs[i];
    && (Forking(p.pc) ==>
          && In(s, p.pc.np) && s.procs[p.pc.np].state == Used && s.procs[p.pc.np].maker == i
          && s.procs[p.pc.np].parent == if p.pc.ForkStart? then i else -1)
    && (p.state == Used ==> In(s, p.maker) && Forking(s.procs[p.maker].pc) && s.procs[p.maker].pc.np == i)
  }

  /** Parents are alive, and an exiting parent loses its children slot by slot. */
  ghost predicate ParentOk(s: State, i: int)
    requires In(s, i)
  {
    var p := s.procs[i];
    && (p.state == Unused || i == 0 ==> p.parent == -1)
    && (i != 0 && (Live(p.state) || p.state == Zombie) ==> p.parent != -1)
    && (p.parent != -1 ==>
          && In(s, p.parent) && p.parent != i && Live(s.procs[p.parent].state)
          && KeepsChild(s.procs[p.parent].pc, i))
  }

  /** What a parent's place in exit or wait says about its child in slot i. */
  predicate KeepsChild(pc: Pc, i: int) {
    && (pc.ExitReparent? ==> i >= pc.x)
    && (pc.ExitWakeInit? ==> i > pc.x)
    && !pc.ExitWake? && !pc.ExitZombie?
    && (pc.WaitScan? ==> pc.kids || i >= pc.x)
    && (pc.WaitEnd? ==> pc.kids)
  }

  /** q sleeps in wait, or is bound to: it has scanned and let wait_lock go. */
  predicate Asleep(s: State, q: int)
    requires In(s, q)
  {
    s.procs[q].pc.SleepGo? || (s.procs[q].pc.WaitAsleep? && s.procs[q].state == Sleeping)
  }

  /** q has looked at slot c in this scan, or is asleep. */
  predicate Passed(s: State, q: int, c: int)
    requires In(s, q)
  {
    || Asleep(s, q) || s.procs[q].pc.WaitEnd? || s.procs[q].pc.SleepWant? || s.procs[q].pc.SleepLocked?
    || (s.procs[q].pc.WaitScan? && s.procs[q].pc.x > c)
  }

  /** An exiting process has handed children to init and not yet reached init in its wakeup. */
  predicate WakingInit(s: State) {
    In(s, s.waitLock) && s.procs[s.waitLock].pc.ExitWakeInit? && s.procs[s.waitLock].pc.j == 0
  }

  /** Wakeups are not lost. */
  ghost predicate WakeOk(s: State, i: int)
    requires In(s, i) && In(s, 0)
  {
    var p := s.procs[i];
    && (p.pc.ExitWakeInit? && p.pc.j > 0 ==> !Asleep(s, 0))
    && (p.pc.ExitWake? && In(s, p.parent) && p.parent < p.pc.j ==> !Asleep(s, p.parent))
    && (p.pc.ExitZombie? && In(s, p.parent) ==> !Asleep(s, p.parent))
    && (p.state == Zombie && In(s, p.parent) ==> !Passed(s, p.parent, i) || (p.parent == 0 && WakingInit(s)))
  }

  ghost predicate SlotOk(s: State, i: int)
    requires In(s, i) && In(s, 0)
  {
    LockOk(s, i) && StateOk(s, i) && ForkOk(s, i) && ParentOk(s, i) && WakeOk(s, i)
  }

  /** Pids in use are distinct, and those of zombies are the exited ones not yet reaped. */
  ghost predicate PidsOk(s: State) {
    && (forall i :: 0 <= i < |s.procs| && s.procs[i].state != Unused ==>
          && s.procs[i].pid < s.nextpid && s.procs[i].pid !in s.reaped
          && (s.procs[i].state == Zombie <==> s.procs[i].pid in s.exited))
    && (forall i, k :: 0 <= i < k < |s.procs| && s.procs[i].state != Unused && s.procs[k].state != Unused ==>
          s.procs[i].pid != s.procs[k].pid)
    && s.reaped <= s.exited && (forall x :: x in s.exited ==> x < s.nextpid)
  }

  ghost predicate Inv(s: State) {
    && In(s, 0) && (s.waitLock != -1 ==> In(s, s.waitLock)) && PidsOk(s)
    && (forall i :: 0 <= i < |s.procs| ==> SlotOk(s, i))
  }

  lemma InitInv(s: State)
    requires Init(s)
    ensures Inv(s)
  {
  }

  // ----- Every step keeps it

  /** The facts about slot k, its parent and its maker, from the invariant. */
  lemma Around(s: State, k: int)
    requires Inv(s) && In(s, k)
    ensures SlotOk(s, k)
    ensures In(s, s.procs[k].parent) ==> SlotOk(s, s.procs[k].parent)
    ensures In(s, s.procs[k].maker) ==> SlotOk(s, s.procs[k].maker)
    ensures Forking(s.procs[k].pc) && In(s, s.procs[k].pc.np) ==> SlotOk(s, s.procs[k].pc.np)
  {
    hide SlotOk;
  }

  lemma PidsFrame(s: State, t: State)
    requires PidsOk(s) && |t.procs| == |s.procs| && t.nextpid == s.nextpid && t.exited == s.exited
      && t.reaped == s.reaped
    requires forall k :: 0 <= k < |s.procs| ==>
      && t.procs[k].pid == s.procs[k].pid && (t.procs[k].state == Zombie <==> s.procs[k].state == Zombie)
      && (t.procs[k].state == Unused <==> s.procs[k].state == Unused)
    ensures PidsOk(t)
  {
  }

  /** A state whose slots are in order and whose pids did not change. */
  lemma Assemble(s: State, t: State)
    requires Inv(s) && |t.procs| == |s.procs| && (t.waitLock != -1 ==> In(t, t.waitLock))
    requires t.nextpid == s.nextpid && t.exited == s.exited && t.reaped == s.reaped
    requires forall k :: 0 <= k < |s.procs| ==>
      && t.procs[k].pid == s.procs[k].pid && (t.procs[k].state == Zombie <==> s.procs[k].state == Zombie)
      && (t.procs[k].state == Unused <==> s.procs[k].state == Unused)
    requires forall k :: 0 <= k < |t.procs| ==> SlotOk(t, k)
    ensures Inv(t)
  {
    hide SlotOk, PidsOk;
    PidsFrame(s, t);
  }

  /** Slot i becomes p, which may take or release wait_lock. */
  function Change(s: State, i: int, p: Proc): (t: State)
    requires In(s, i)
  {
    Set(s, i, p).(waitLock := if HoldsWait(p.pc) then i else if HoldsWait(s.procs[i].pc) then -1 else s.waitLock)
  }

  /** When a change of one slot keeps the invariant. */
  ghost predicate GoodChange(s: State, i: int, p': Proc)
    requires In(s, i) && In(s, 0)
  {
    var t, p := Change(s, i, p'), s.procs[i];
    && p'.parent == p.parent && p'.pid == p.pid && p'.maker == p.maker
    && (p'.state == Unused <==> p.state == Unused) && (p'.state == Used <==> p.state == Used)
    && (HoldsWait(p'.pc) && !HoldsWait(p.pc) ==> s.waitLock == -1)
    && p'.lock == (if HoldsOwn(p'.pc) then i else -1)
    && (Forking(p.pc) || Forking(p'.pc) ==> p'.pc == p.pc || (p.pc.ForkWant? && p'.pc == ForkParent(p.pc.np)))
    && StateOk(t, i) && WakeOk(t, i)
    && (forall c :: In(s, c) && s.procs[c].parent == i ==> KeepsChild(p'.pc, c) && Live(p'.state))
    && (forall c :: ZombieChild(s, i, c) && c != i ==> !Passed(t, i, c) || (i == 0 && WakingInit(t)))
    && (WakingInit(s) ==> WakingInit(t) || !Asleep(s, 0))
    && (Asleep(t, i) ==> Asleep(s, i) || s.waitLock == i)
  }

  lemma ChangeLock(s: State, i: int, p': Proc, k: int)
    requires Inv(s) && In(s, i) && In(s, k) && GoodChange(s, i, p')
    ensures LockOk(Change(s, i, p'), k)
  {
    hide ParentOk, WakeOk, Passed, PidsOk, StateOk;
    Around(s, i);
    Around(s, k);
  }

  lemma ChangeFork(s: State, i: int, p': Proc, k: int)
    requires Inv(s) && In(s, i) && In(s, k) && GoodChange(s, i, p')
    ensures StateOk(Change(s, i, p'), k) && ForkOk(Change(s, i, p'), k)
  {
    hide ParentOk, WakeOk, Passed, PidsOk;
    Around(s, i);
    Around(s, k);
  }

  lemma ChangeParent(s: State, i: int, p': Proc, k: int)
    requires Inv(s) && In(s, i) && In(s, k) && GoodChange(s, i, p')
    ensures ParentOk(Change(s, i, p'), k)
  {
    hide WakeOk, Passed, LockOk, ForkOk, PidsOk;
    Around(s, i);
    Around(s, k);
  }

  lemma ChangeWake(s: State, i: int, p': Proc, k: int)
    requires Inv(s) && In(s, i) && In(s, k) && GoodChange(s, i, p')
    ensures WakeOk(Change(s, i, p'), k)
  {
    hide ForkOk, PidsOk, KeepsChild;
    Around(s, i);
    Around(s, k);
    assert SlotOk(s, 0);
  }

  lemma ChangeSlots(s: State, i: int, p': Proc)
    requires Inv(s) && In(s, i) && GoodChange(s, i, p')
    ensures forall k :: 0 <= k < |s.procs| ==> SlotOk(Change(s, i, p'), k)
  {
    hide LockOk, StateOk, ForkOk, ParentOk, WakeOk, GoodChange, PidsOk;
    forall k | 0 <= k < |s.procs| ensures SlotOk(Change(s, i, p'), k) {
      ChangeLock(s, i, p', k);
      ChangeFork(s, i, p', k);
      ChangeParent(s, i, p', k);
      ChangeWake(s, i, p', k);
    }
  }

  lemma ChangeInv(s: State, i: int, p': Proc)
    requires Inv(s) && In(s, i) && GoodChange(s, i, p') && (p'.state == Zombie <==> s.procs[i].state == Zombie)
    ensures Inv(Change(s, i, p'))
  {
    hide SlotOk, PidsOk, StateOk, WakeOk, Passed;
    ChangeSlots(s, i, p');
    Assemble(s, Change(s, i, p'));
  }

  // ----- Steps that change one slot

  /** What the invariant says about i and its children. */
  ghost predicate Kids(s: State, i: int)
    requires In(s, i) && In(s, 0)
  {
    && SlotOk(s, i)
    && (forall c :: In(s, c) && s.procs[c].parent == i ==>
          c != i && KeepsChild(s.procs[i].pc, c) && Live(s.procs[i].state))
    && (forall c :: ZombieChild(s, i, c) ==> !Passed(s, i, c) || (i == 0 && WakingInit(s)))
    && (In(s, s.procs[i].parent) ==> LockOk(s, s.procs[i].parent))
    && (WakingInit(s) ==> s.procs[s.waitLock].state == Running)
  }

  lemma KidsOk(s: State, i: int)
    requires Inv(s) && In(s, i)
    ensures Kids(s, i)
  {
    hide LockOk, ForkOk, PidsOk;
    forall c | In(s, c) && s.procs[c].parent == i
      ensures c != i && KeepsChild(s.procs[i].pc, c) && Live(s.procs[i].state)
      ensures s.procs[c].state == Zombie ==> !Passed(s, i, c) || (i == 0 && WakingInit(s))
    {
      assert SlotOk(s, c);
    }
    assert SlotOk(s, i) && (In(s, s.procs[i].parent) ==> SlotOk(s, s.procs[i].parent));
    assert WakingInit(s) ==> SlotOk(s, s.waitLock);
  }

  lemma ToZombieGood(s: State, i: int)
    requires In(s, i) && In(s, 0) && Kids(s, i) && Runs(s, i, ExitZombie) && Idles(s, i)
    ensures GoodChange(s, i, s.procs[i].(state := Zombie, lock := i, pc := ExitRelease)) && s.waitLock == i
  {
    hide ForkOk, ParentOk;
  }

  lemma ToZombieInv(s: State, i: int)
    requires Inv(s) && Runs(s, i, ExitZombie) && Idles(s, i)
    ensures Inv(DoToZombie(s, i))
  {
    hide PidsOk, SlotOk, GoodChange, Kids;
    var p' := s.procs[i].(state := Zombie, lock := i, pc := ExitRelease);
    KidsOk(s, i);
    ToZombieGood(s, i);
    ChangeSlots(s, i, p');
    ToZombiePids(s, i);
    SameSlots(Change(s, i, p'), DoToZombie(s, i));
  }

  /** The records of pids play no part in the slots. */
  lemma SameSlots(s: State, t: State)
    requires t.procs == s.procs && t.waitLock == s.waitLock && In(s, 0)
    ensures forall k :: 0 <= k < |s.procs| && SlotOk(s, k) ==> SlotOk(t, k)
  {
  }

  lemma ToZombiePids(s: State, i: int)
    requires PidsOk(s) && Runs(s, i, ExitZombie)
    ensures PidsOk(DoToZombie(s, i))
  {
  }

  lemma TakeGood(s: State, i: int, pc: Pc)
    requires In(s, i) && In(s, 0) && Kids(s, i) && Runs(s, i, s.procs[i].pc) && s.waitLock == -1
    requires var was := s.procs[i].pc;
      || (was.ForkWant? && pc == ForkParent(was.np))
      || ((was.WaitAgain? || was.Elsewhere?) && pc == WaitScan(0, false))
      || (was.Elsewhere? && pc == ExitReparent(0) && i != 0)
    ensures GoodChange(s, i, s.procs[i].(pc := pc))
  {
    hide ForkOk, ParentOk;
  }

  lemma LetGoGood(s: State, i: int)
    requires In(s, i) && In(s, 0) && Kids(s, i) && (s.procs[i].pc.ExitRelease? || s.procs[i].pc.SleepLocked?)
    ensures GoodChange(s, i, s.procs[i].(pc := if s.procs[i].pc.ExitRelease? then ExitSched else SleepGo))
  {
    hide ForkOk, ParentOk;
  }

  lemma SwitchGood(s: State, i: int)
    requires In(s, i) && In(s, 0) && Kids(s, i)
    ensures s.procs[i].pc.ExitSched? ==> GoodChange(s, i, s.procs[i].(lock := -1, pc := Dead))
    ensures s.procs[i].pc.SleepGo? ==>
              GoodChange(s, i, s.procs[i].(chan := i, state := Sleeping, lock := -1, pc := WaitAsleep))
  {
    hide ForkOk, ParentOk;
  }

  lemma WaitReturnsGood(s: State, i: int)
    requires In(s, i) && In(s, 0) && Kids(s, i) && Runs(s, i, s.procs[i].pc)
      && (s.procs[i].pc.WaitEnd? || s.procs[i].pc.WaitScan?)
    ensures GoodChange(s, i, s.procs[i].(pc := Elsewhere))
  {
    hide ForkOk, ParentOk;
  }

  lemma StayGood(s: State, i: int)
    requires In(s, i) && In(s, 0) && Kids(s, i) && Runs(s, i, WaitEnd(true)) && Idles(s, i)
    ensures GoodChange(s, i, s.procs[i].(pc := SleepWant))
  {
    hide ForkOk, ParentOk;
  }

  lemma ToSleepGood(s: State, i: int)
    requires In(s, i) && In(s, 0) && Kids(s, i) && Runs(s, i, SleepWant) && Idles(s, i)
    ensures GoodChange(s, i, s.procs[i].(lock := i, pc := SleepLocked))
  {
    hide ForkOk, ParentOk;
  }

  lemma ResumeGood(s: State, i: int)
    requires In(s, i) && In(s, 0) && Kids(s, i) && Runs(s, i, WaitAsleep)
    ensures GoodChange(s, i, s.procs[i].(chan := -1, pc := WaitAgain))
  {
    hide ForkOk, ParentOk;
  }

  /** The scheduler, a wakeup or a kill makes a process ready or runs it. */
  lemma RousedGood(s: State, k: int, r: Run, killed: bool)
    requires In(s, k) && In(s, 0) && Kids(s, k) && Idles(s, k)
    requires r == s.procs[k].state || (s.procs[k].state == Runnable && r == Running)
      || (s.procs[k].state == Sleeping && r == Runnable)
    ensures GoodChange(s, k, s.procs[k].(state := r, killed := killed))
  {
    hide ForkOk, ParentOk;
  }

  lemma PauseGood(s: State, i: int)
    requires In(s, i) && In(s, 0) && Kids(s, i) && Runs(s, i, Elsewhere) && Idles(s, i)
    ensures GoodChange(s, i, s.procs[i].(state := Runnable))
    ensures GoodChange(s, i, s.procs[i].(state := Sleeping, chan := -1))
  {
    hide ForkOk, ParentOk;
  }

  // ----- Steps that change two slots

  lemma StartForks(s: State, i: int, np: int, k: int)
    requires Inv(s) && Runs(s, i, Elsewhere) && Idles(s, np) && s.procs[np].state == Unused && In(s, k)
    ensures LockOk(DoStart(s, i, np), k) && StateOk(DoStart(s, i, np), k) && ForkOk(DoStart(s, i, np), k)
  {
    hide WakeOk, PidsOk;
    Around(s, i);
    Around(s, np);
    Around(s, k);
  }

  lemma StartParents(s: State, i: int, np: int, k: int)
    requires Inv(s) && Runs(s, i, Elsewhere) && Idles(s, np) && s.procs[np].state == Unused && In(s, k)
    ensures ParentOk(DoStart(s, i, np), k)
  {
    hide WakeOk, LockOk, PidsOk;
    Around(s, i);
    Around(s, np);
    Around(s, k);
  }

  lemma StartWakes(s: State, i: int, np: int, k: int)
    requires Inv(s) && Runs(s, i, Elsewhere) && Idles(s, np) && s.procs[np].state == Unused && In(s, k)
    ensures WakeOk(DoStart(s, i, np), k)
  {
    hide PidsOk;
    Around(s, i);
    Around(s, np);
    Around(s, k);
    assert SlotOk(s, 0);
  }

  lemma StartPids(s: State, i: int, np: int)
    requires Inv(s) && Runs(s, i, Elsewhere) && Idles(s, np) && s.procs[np].state == Unused
    ensures PidsOk(DoStart(s, i, np))
  {
    Around(s, i);
    Around(s, np);
    hide SlotOk;
  }

  lemma StartInv(s: State, i: int, np: int)
    requires Inv(s) && Runs(s, i, Elsewhere) && Idles(s, np) && s.procs[np].state == Unused
    ensures Inv(DoStart(s, i, np))
  {
    hide LockOk, StateOk, ForkOk, ParentOk, WakeOk, PidsOk;
    var t := DoStart(s, i, np);
    forall k | 0 <= k < |t.procs| ensures SlotOk(t, k) {
      StartForks(s, i, np, k);
      StartParents(s, i, np, k);
      StartWakes(s, i, np, k);
    }
    StartPids(s, i, np);
  }

  lemma ForkFailsSlot(s: State, np: int, k: int)
    requires Inv(s) && Idles(s, np) && s.procs[np].state == Unused && In(s, k)
    ensures LockOk(DoForkFails(s, np), k) && StateOk(DoForkFails(s, np), k) && ForkOk(DoForkFails(s, np), k)
    ensures ParentOk(DoForkFails(s, np), k) && WakeOk(DoForkFails(s, np), k)
  {
    hide PidsOk;
    Around(s, np);
    Around(s, k);
    assert SlotOk(s, 0);
  }

  lemma ForkFailsInv(s: State, np: int)
    requires Inv(s) && Idles(s, np) && s.procs[np].state == Unused
    ensures Inv(DoForkFails(s, np))
  {
    hide LockOk, StateOk, ForkOk, ParentOk, WakeOk;
    var t := DoForkFails(s, np);
    forall k | 0 <= k < |t.procs| ensures SlotOk(t, k) {
      ForkFailsSlot(s, np, k);
    }
    Around(s, np);
  }

  lemma SetParentForks(s: State, i: int, np: int, k: int)
    requires Inv(s) && Runs(s, i, ForkParent(np)) && In(s, np) && In(s, k)
    ensures LockOk(DoSetParent(s, i, np), k) && StateOk(DoSetParent(s, i, np), k) && ForkOk(DoSetParent(s, i, np), k)
  {
    hide ParentOk, WakeOk, PidsOk;
    Around(s, i);
    Around(s, np);
    Around(s, k);
  }

  lemma SetParentParents(s: State, i: int, np: int, k: int)
    requires Inv(s) && Runs(s, i, ForkParent(np)) && In(s, np) && In(s, k)
    ensures ParentOk(DoSetParent(s, i, np), k)
  {
    hide WakeOk, PidsOk;
    Around(s, i);
    Around(s, np);
    Around(s, k);
    assert SlotOk(s, 0);
  }

  lemma SetParentWakes(s: State, i: int, np: int, k: int)
    requires Inv(s) && Runs(s, i, ForkParent(np)) && In(s, np) && In(s, k)
    ensures WakeOk(DoSetParent(s, i, np), k)
  {
    hide PidsOk;
    Around(s, i);
    Around(s, np);
    Around(s, k);
    assert SlotOk(s, 0);
  }

  lemma SetParentPids(s: State, i: int, np: int)
    requires Inv(s) && Runs(s, i, ForkParent(np)) && In(s, np)
    ensures PidsOk(DoSetParent(s, i, np))
  {
    Around(s, i);
    Around(s, np);
    hide SlotOk;
  }

  lemma SetParentInv(s: State, i: int, np: int)
    requires Inv(s) && Runs(s, i, ForkParent(np)) && In(s, np)
    ensures Inv(DoSetParent(s, i, np))
  {
    hide LockOk, StateOk, ForkOk, ParentOk, WakeOk, PidsOk;
    var t := DoSetParent(s, i, np);
    forall k | 0 <= k < |t.procs| ensures SlotOk(t, k) {
      SetParentForks(s, i, np, k);
      SetParentParents(s, i, np, k);
      SetParentWakes(s, i, np, k);
    }
    SetParentPids(s, i, np);
  }

  lemma MakeRunnableForks(s: State, i: int, np: int, k: int)
    requires Inv(s) && Runs(s, i, ForkStart(np)) && Idles(s, np) && In(s, k)
    ensures LockOk(DoMakeRunnable(s, i, np), k) && StateOk(DoMakeRunnable(s, i, np), k)
      && ForkOk(DoMakeRunnable(s, i, np), k)
  {
    hide ParentOk, WakeOk, PidsOk;
    Around(s, i);
    Around(s, np);
    Around(s, k);
  }

  lemma MakeRunnableParents(s: State, i: int, np: int, k: int)
    requires Inv(s) && Runs(s, i, ForkStart(np)) && Idles(s, np) && In(s, k)
    ensures ParentOk(DoMakeRunnable(s, i, np), k)
  {
    hide WakeOk, LockOk, PidsOk;
    Around(s, i);
    Around(s, np);
    Around(s, k);
  }

  lemma MakeRunnableWakes(s: State, i: int, np: int, k: int)
    requires Inv(s) && Runs(s, i, ForkStart(np)) && Idles(s, np) && In(s, k)
    ensures WakeOk(DoMakeRunnable(s, i, np), k)
  {
    hide PidsOk;
    Around(s, i);
    Around(s, np);
    Around(s, k);
    assert SlotOk(s, 0);
  }

  lemma MakeRunnablePids(s: State, i: int, np: int)
    requires Inv(s) && Runs(s, i, ForkStart(np)) && Idles(s, np)
    ensures PidsOk(DoMakeRunnable(s, i, np))
  {
    Around(s, i);
    Around(s, np);
    hide SlotOk;
  }

  lemma MakeRunnableInv(s: State, i: int, np: int)
    requires Inv(s) && Runs(s, i, ForkStart(np)) && Idles(s, np)
    ensures Inv(DoMakeRunnable(s, i, np))
  {
    hide LockOk, StateOk, ForkOk, ParentOk, WakeOk, PidsOk;
    var t := DoMakeRunnable(s, i, np);
    forall k | 0 <= k < |t.procs| ensures SlotOk(t, k) {
      MakeRunnableForks(s, i, np, k);
      MakeRunnableParents(s, i, np, k);
      MakeRunnableWakes(s, i, np, k);
    }
    MakeRunnablePids(s, i, np);
  }

  lemma HandOverForks(s: State, i: int, x: int, k: int)
    requires Inv(s) && Runs(s, i, ExitReparent(x)) && In(s, x) && s.procs[x].parent == i && In(s, k)
    ensures LockOk(DoHandOver(s, i, x), k) && StateOk(DoHandOver(s, i, x), k) && ForkOk(DoHandOver(s, i, x), k)
  {
    hide ParentOk, WakeOk, PidsOk;
    Around(s, i);
    Around(s, x);
    Around(s, k);
  }

  lemma HandOverParents(s: State, i: int, x: int, k: int)
    requires Inv(s) && Runs(s, i, ExitReparent(x)) && In(s, x) && s.procs[x].parent == i && In(s, k)
    ensures ParentOk(DoHandOver(s, i, x), k)
  {
    hide WakeOk, PidsOk;
    Around(s, i);
    Around(s, x);
    Around(s, k);
    assert SlotOk(s, 0);
  }

  lemma HandOverWakes(s: State, i: int, x: int, k: int)
    requires Inv(s) && Runs(s, i, ExitReparent(x)) && In(s, x) && s.procs[x].parent == i && In(s, k)
    ensures WakeOk(DoHandOver(s, i, x), k)
  {
    hide PidsOk;
    Around(s, i);
    Around(s, x);
    Around(s, k);
    assert SlotOk(s, 0);
  }

  lemma HandOverPids(s: State, i: int, x: int)
    requires Inv(s) && Runs(s, i, ExitReparent(x)) && In(s, x) && s.procs[x].parent == i
    ensures PidsOk(DoHandOver(s, i, x))
  {
    Around(s, i);
    Around(s, x);
    hide SlotOk;
  }

  lemma HandOverInv(s: State, i: int, x: int)
    requires Inv(s) && Runs(s, i, ExitReparent(x)) && In(s, x) && s.procs[x].parent == i
    ensures Inv(DoHandOver(s, i, x))
  {
    hide LockOk, StateOk, ForkOk, ParentOk, WakeOk, PidsOk;
    var t := DoHandOver(s, i, x);
    forall k | 0 <= k < |t.procs| ensures SlotOk(t, k) {
      HandOverForks(s, i, x, k);
      HandOverParents(s, i, x, k);
      HandOverWakes(s, i, x, k);
    }
    HandOverPids(s, i, x);
  }

  lemma ReapForks(s: State, i: int, x: int, k: int)
    requires Inv(s) && In(s, i) && Runs(s, i, s.procs[i].pc) && s.procs[i].pc.WaitScan? && Idles(s, x)
      && ZombieChild(s, i, x) && In(s, k)
    ensures LockOk(DoReap(s, i, x), k) && StateOk(DoReap(s, i, x), k) && ForkOk(DoReap(s, i, x), k)
  {
    hide ParentOk, WakeOk, PidsOk;
    Around(s, i);
    Around(s, x);
    Around(s, k);
  }

  lemma ReapParents(s: State, i: int, x: int, k: int)
    requires Inv(s) && In(s, i) && Runs(s, i, s.procs[i].pc) && s.procs[i].pc.WaitScan? && Idles(s, x)
      && ZombieChild(s, i, x) && In(s, k)
    ensures ParentOk(DoReap(s, i, x), k)
  {
    hide WakeOk, LockOk, PidsOk;
    Around(s, i);
    Around(s, x);
    Around(s, k);
  }

  lemma ReapWakes(s: State, i: int, x: int, k: int)
    requires Inv(s) && In(s, i) && Runs(s, i, s.procs[i].pc) && s.procs[i].pc.WaitScan? && Idles(s, x)
      && ZombieChild(s, i, x) && In(s, k)
    ensures WakeOk(DoReap(s, i, x), k)
  {
    hide PidsOk;
    Around(s, i);
    Around(s, x);
    Around(s, k);
    assert SlotOk(s, 0);
  }

  lemma ReapPids(s: State, i: int, x: int)
    requires Inv(s) && In(s, i) && Runs(s, i, s.procs[i].pc) && s.procs[i].pc.WaitScan? && Idles(s, x)
      && ZombieChild(s, i, x)
    ensures PidsOk(DoReap(s, i, x))
  {
    Around(s, i);
    Around(s, x);
    hide SlotOk;
  }

  lemma ReapInv(s: State, i: int, x: int)
    requires Inv(s) && In(s, i) && Runs(s, i, s.procs[i].pc) && s.procs[i].pc.WaitScan? && Idles(s, x)
      && ZombieChild(s, i, x)
    ensures Inv(DoReap(s, i, x))
  {
    hide LockOk, StateOk, ForkOk, ParentOk, WakeOk, PidsOk;
    var t := DoReap(s, i, x);
    forall k | 0 <= k < |t.procs| ensures SlotOk(t, k) {
      ReapForks(s, i, x, k);
      ReapParents(s, i, x, k);
      ReapWakes(s, i, x, k);
    }
    ReapPids(s, i, x);
  }

  // ----- Turns of scans

  /** Where the scan goes on when no other slot changes. */
  function NextPc(s: State, i: int): Pc
    requires In(s, i)
  {
    var pc, n := s.procs[i].pc, |s.procs|;
    match pc
    case ExitReparent(x) => if x >= n then ExitWake(0) else ExitReparent(x + 1)
    case ExitWakeInit(x, j) => if j >= n then ExitReparent(x + 1) else ExitWakeInit(x, j + 1)
    case ExitWake(j) => if j >= n then ExitZombie else ExitWake(j + 1)
    case WaitScan(x, kids) =>
      if x >= n then WaitEnd(kids)
      else WaitScan(x + 1, kids || s.procs[if 0 <= x < n then x else 0].parent == i)
    case _ => pc
  }

  /** The scan has nothing to do in this slot. */
  predicate Skips(s: State, i: int)
    requires In(s, i) && In(s, 0)
  {
    var pc := s.procs[i].pc;
    && (pc.ExitReparent? ==> !In(s, pc.x) || s.procs[pc.x].parent != i)
    && (pc.ExitWakeInit? ==> !In(s, pc.j) || (pc.j == 0 ==> !Asleep(s, 0)))
    && (pc.ExitWake? ==> !In(s, pc.j) || (pc.j == s.procs[i].parent ==> !Asleep(s, pc.j)))
    && (pc.WaitScan? ==> !ZombieChild(s, i, pc.x))
  }

  lemma TurnGood(s: State, i: int)
    requires In(s, i) && In(s, 0) && Kids(s, i) && Runs(s, i, s.procs[i].pc) && CanTurn(s, i) && Skips(s, i)
    ensures GoodChange(s, i, s.procs[i].(pc := NextPc(s, i)))
    ensures Change(s, i, s.procs[i].(pc := NextPc(s, i))) == Go(s, i, NextPc(s, i))
  {
    hide ForkOk;
  }

  lemma TurnInv(s: State, i: int)
    requires Inv(s) && In(s, i) && Runs(s, i, s.procs[i].pc) && CanTurn(s, i) && Skips(s, i)
    ensures Inv(Go(s, i, NextPc(s, i)))
  {
    hide PidsOk, SlotOk, GoodChange, Kids, Skips, NextPc, CanTurn;
    KidsOk(s, i);
    TurnGood(s, i);
    ChangeInv(s, i, s.procs[i].(pc := NextPc(s, i)));
  }

  /** A wakeup's turn at slot j, whose lock is free. */
  lemma WokenInv(s: State, j: int, chan: int)
    requires Inv(s) && Idles(s, j)
    ensures Inv(Set(s, j, Woken(s.procs[j], chan)))
    ensures chan == j ==> !Asleep(Set(s, j, Woken(s.procs[j], chan)), j)
  {
    hide PidsOk, ForkOk, ParentOk, WakeOk, GoodChange;
    KidsOk(s, j);
    var p := Woken(s.procs[j], chan);
    RousedGood(s, j, p.state, p.killed);
    ChangeInv(s, j, p);
    assert Change(s, j, p) == Set(s, j, p);
  }

  lemma WakeTurnInv(s: State, i: int, j: int, chan: int, pc: Pc)
    requires Inv(s) && In(s, i) && Runs(s, i, s.procs[i].pc) && In(s, j) && j != i && Idles(s, j)
    requires s.procs[i].pc == pc
      && ((pc.ExitWakeInit? && pc.j == j && pc.x >= 0 && In(s, pc.x) && chan == 0)
          || (pc == ExitWake(j) && chan == s.procs[i].parent))
    ensures var t := Set(s, j, Woken(s.procs[j], chan)); Inv(Go(t, i, NextPc(s, i)))
  {
    hide PidsOk, SlotOk, NextPc;
    var t := Set(s, j, Woken(s.procs[j], chan));
    WokenInv(s, j, chan);
    TurnInv(t, i);
    SameNext(s, t, i);
  }

  lemma SameNext(s: State, t: State, i: int)
    requires In(s, i) && |t.procs| == |s.procs| && t.procs[i] == s.procs[i] && !s.procs[i].pc.WaitScan?
    ensures NextPc(t, i) == NextPc(s, i)
  {
  }

  lemma DoTurnInv(s: State, i: int)
    requires Inv(s) && In(s, i) && Runs(s, i, s.procs[i].pc) && CanTurn(s, i)
    ensures Inv(DoTurn(s, i))
  {
    hide PidsOk, SlotOk;
    var pc := s.procs[i].pc;
    NotInit(s, i);
    if pc.ExitReparent? && In(s, pc.x) && s.procs[pc.x].parent == i {
      HandOverInv(s, i, pc.x);
    } else if pc.ExitWakeInit? && In(s, pc.j) && pc.j != i {
      WakeTurnInv(s, i, pc.j, 0, pc);
    } else if pc.ExitWake? && In(s, pc.j) && pc.j != i {
      WakeTurnInv(s, i, pc.j, s.procs[i].parent, pc);
    } else if pc.WaitScan? && ZombieChild(s, i, pc.x) {
      ReapInv(s, i, pc.x);
    } else {
      TurnInv(s, i);
    }
  }

  lemma NotInit(s: State, i: int)
    requires Inv(s) && In(s, i)
    ensures Exiting(s.procs[i].pc) ==> i != 0 && s.procs[i].parent != i
  {
    hide PidsOk, LockOk, ForkOk, WakeOk;
    assert SlotOk(s, i);
  }

  // ----- All steps

  lemma OneSlotInv(s: State, i: int, a: Act)
    requires Inv(s) && Enabled(s, i, a) && !a.Turn? && !a.Start? && !a.ForkFails? && !a.SetParent? && !a.MakeRunnable?
      && !a.ToZombie?
    ensures Inv(Apply(s, i, a))
  {
    hide PidsOk, LockOk, ForkOk, ParentOk, WakeOk, GoodChange, Kids;
    KidsOk(s, i);
    SlotLocks(s, i);
    var p := s.procs[i];
    match a
    case TakeWait =>
      var pc := if p.pc.ForkWant? then ForkParent(p.pc.np) else WaitScan(0, false);
      TakeGood(s, i, pc);
      ChangeInv(s, i, p.(pc := pc));
    case Exit =>
      TakeGood(s, i, ExitReparent(0));
      ChangeInv(s, i, p.(pc := ExitReparent(0)));
    case Wait =>
      TakeGood(s, i, WaitScan(0, false));
      ChangeInv(s, i, p.(pc := WaitScan(0, false)));
    case LetGo =>
      LetGoGood(s, i);
      ChangeInv(s, i, p.(pc := if p.pc.ExitRelease? then ExitSched else SleepGo));
    case Switch =>
      SwitchGood(s, i);
      ChangeInv(s, i, if p.pc.ExitSched? then p.(lock := -1, pc := Dead)
                      else p.(chan := i, state := Sleeping, lock := -1, pc := WaitAsleep));
    case GiveUp =>
      WaitReturnsGood(s, i);
      ChangeInv(s, i, p.(pc := Elsewhere));
    case CopyFails =>
      WaitReturnsGood(s, i);
      ChangeInv(s, i, p.(pc := Elsewhere));
    case Stay =>
      StayGood(s, i);
      ChangeInv(s, i, p.(pc := SleepWant));
    case ToSleep =>
      ToSleepGood(s, i);
      ChangeInv(s, i, p.(lock := i, pc := SleepLocked));
    case Resume =>
      ResumeGood(s, i);
      ChangeInv(s, i, p.(chan := -1, pc := WaitAgain));
    case Yield =>
      PauseGood(s, i);
      ChangeInv(s, i, p.(state := Runnable));
    case SleepElsewhere =>
      PauseGood(s, i);
      ChangeInv(s, i, p.(state := Sleeping, chan := -1));
    case Schedule(k) => RousedInv(s, k, Running, s.procs[k].killed);
    case WakeElsewhere(k) => RousedInv(s, k, Runnable, s.procs[k].killed);
    case Kill(k) => RousedInv(s, k, if s.procs[k].state == Sleeping then Runnable else s.procs[k].state, true);
  }

  lemma SlotLocks(s: State, i: int)
    requires Inv(s) && In(s, i)
    ensures s.waitLock == i <==> HoldsWait(s.procs[i].pc)
    ensures HoldsOwn(s.procs[i].pc) ==> s.procs[i].lock == i
    ensures s.procs[i].pc.ExitRelease? || s.procs[i].pc.ExitSched? || s.procs[i].pc.Dead? <==>
              s.procs[i].state == Zombie
  {
    hide PidsOk, ForkOk, WakeOk, ParentOk;
    assert SlotOk(s, i);
  }

  lemma RousedInv(s: State, k: int, r: Run, killed: bool)
    requires Inv(s) && Idles(s, k)
    requires r == s.procs[k].state || (s.procs[k].state == Runnable && r == Running)
      || (s.procs[k].state == Sleeping && r == Runnable)
    ensures Inv(Set(s, k, s.procs[k].(state := r, killed := killed)))
  {
    hide PidsOk, LockOk, ForkOk, ParentOk, WakeOk, GoodChange, Kids;
    KidsOk(s, k);
    SlotLocks(s, k);
    RousedGood(s, k, r, killed);
    ChangeInv(s, k, s.procs[k].(state := r, killed := killed));
  }

  lemma NextInv(s: State, i: int, a: Act)
    requires Inv(s) && Enabled(s, i, a)
    ensures Inv(Apply(s, i, a))
  {
    hide PidsOk, SlotOk, DoTurn;
    match a
    case Turn => DoTurnInv(s, i);
    case Start(np) => StartInv(s, i, np);
    case ForkFails(np) => ForkFailsInv(s, np);
    case SetParent => SetParentInv(s, i, s.procs[i].pc.np);
    case MakeRunnable => MakeRunnableInv(s, i, s.procs[i].pc.np);
    case ToZombie => ToZombieInv(s, i);
    case _ => OneSlotInv(s, i, a);
  }

  lemma {:induction false} RunInv(ss: seq<State>, steps: seq<(int, Act)>, k: int)
    requires IsRun(ss, steps) && 0 <= k < |ss|
    ensures Inv(ss[k])
    decreases k
  {
    hide Inv, Enabled, Apply;
    if k == 0 {
      InitInv(ss[0]);
    } else {
      RunInv(ss, steps, k - 1);
      NextInv(ss[k - 1], steps[k - 1].0, steps[k - 1].1);
    }
  }

  // ----- What every run keeps

  /** In every run no parent pointer names an unused slot or a zombie, and every zombie has a parent. */
  lemma ParentsAreAlive(ss: seq<State>, steps: seq<(int, Act)>, k: int, c: int)
    requires IsRun(ss, steps) && 0 <= k < |ss| && In(ss[k], c)
    ensures var s := ss[k];
      && (s.procs[c].parent != -1 ==> In(s, s.procs[c].parent) && Live(s.procs[s.procs[c].parent].state))
      && (s.procs[c].state == Zombie ==> s.procs[c].parent != -1)
  {
    hide IsRun, LockOk, ForkOk, WakeOk, PidsOk;
    RunInv(ss, steps, k);
    assert SlotOk(ss[k], c) && SlotOk(ss[k], 0);
  }

  /** In every run, a process asleep in wait while wait_lock is free has no zombie child. */
  lemma NoMissedZombie(ss: seq<State>, steps: seq<(int, Act)>, k: int, q: int, c: int)
    requires IsRun(ss, steps) && 0 <= k < |ss| && In(ss[k], q)
    requires ss[k].waitLock == -1 && ss[k].procs[q].pc.WaitAsleep? && ss[k].procs[q].state == Sleeping
    ensures !ZombieChild(ss[k], q, c)
  {
    hide IsRun, LockOk, ForkOk, ParentOk, PidsOk;
    RunInv(ss, steps, k);
    if In(ss[k], c) {
      assert SlotOk(ss[k], c);
    }
  }

  /** In every run, a child that wait frees had exited and was not freed before. */
  lemma ReapedOnce(ss: seq<State>, steps: seq<(int, Act)>, k: int)
    requires IsRun(ss, steps) && 0 <= k < |steps| && steps[k].1 == Turn
    requires In(ss[k], steps[k].0) && ss[k].procs[steps[k].0].pc.WaitScan?
    requires ZombieChild(ss[k], steps[k].0, ss[k].procs[steps[k].0].pc.x)
    ensures var pid := ss[k].procs[ss[k].procs[steps[k].0].pc.x].pid;
      pid in ss[k].exited && pid !in ss[k].reaped && ss[k + 1].reaped == ss[k].reaped + {pid}
  {
    hide SlotOk;
    RunInv(ss, steps, k);
  }

  /** In every run, wait gives up without being killed only when the process has no children. */
  lemma GaveUpForGood(ss: seq<State>, steps: seq<(int, Act)>, k: int, c: int)
    requires IsRun(ss, steps) && 0 <= k < |steps| && steps[k].1 == GiveUp && In(ss[k], c)
    requires In(ss[k], steps[k].0) && !ss[k].procs[steps[k].0].killed
    ensures ss[k].procs[c].parent != steps[k].0
  {
    hide LockOk, ForkOk, WakeOk, PidsOk;
    RunInv(ss, steps, k);
    assert SlotOk(ss[k], c);
  }

  // ----- A run

  ghost predicate IsStep(s: State, i: int, a: Act, t: State) {
    Enabled(s, i, a) && t == Apply(s, i, a)
  }

  /** A table with two slots. */
  function Two(p: Proc, c: Proc, w: int, n: int): State {
    State([p, c], w, n, {}, {})
  }

  lemma SetTwo(p: Proc, c: Proc, w: int, n: int)
    ensures forall x :: Set(Two(p, c, w, n), 0, x) == Two(x, c, w, n) && Set(Two(p, c, w, n), 1, x) == Two(p, x, w, n)
  {
  }

  /** init forks. */
  lemma ForkSteps(p: Proc, c: Proc)
    requires p == Proc(Runnable, -1, -1, 1, false, -1, Elsewhere, -1) && c == Free()
    ensures var r, u := p.(state := Running), c.(state := Used, pid := 2, maker := 0);
      && IsStep(Two(p, c, -1, 2), 0, Schedule(0), Two(r, c, -1, 2))
      && IsStep(Two(r, c, -1, 2), 0, Start(1), Two(r.(pc := ForkWant(1)), u, -1, 3))
      && IsStep(Two(r.(pc := ForkWant(1)), u, -1, 3), 0, TakeWait, Two(r.(pc := ForkParent(1)), u, 0, 3))
      && IsStep(Two(r.(pc := ForkParent(1)), u, 0, 3), 0, SetParent,
                Two(r.(pc := ForkStart(1)), u.(parent := 0), -1, 3))
      && IsStep(Two(r.(pc := ForkStart(1)), u.(parent := 0), -1, 3), 0, MakeRunnable,
                Two(r, Proc(Runnable, -1, 0, 2, false, -1, Elsewhere, -1), -1, 3))
  {
    var r, u := p.(state := Running), c.(state := Used, pid := 2, maker := 0);
    SetTwo(p, c, -1, 2);
    SetTwo(r, c, -1, 2);
    SetTwo(r, u, -1, 2);
    SetTwo(r.(pc := ForkWant(1)), u, -1, 3);
    SetTwo(r.(pc := ForkParent(1)), u, 0, 3);
    SetTwo(r.(pc := ForkParent(1)), u.(parent := 0), 0, 3);
    SetTwo(r.(pc := ForkStart(1)), u.(parent := 0), -1, 3);
    SetTwo(r.(pc := ForkStart(1)), Proc(Runnable, -1, 0, 2, false, -1, Elsewhere, -1), -1, 3);
  }

  /** It scans for children. */
  lemma ScanSteps(r: Proc, c: Proc)
    requires r == Proc(Running, -1, -1, 1, false, -1, Elsewhere, -1)
      && c == Proc(Runnable, -1, 0, 2, false, -1, Elsewhere, -1)
    ensures IsStep(Two(r, c, -1, 3), 0, Wait, Two(r.(pc := WaitScan(0, false)), c, 0, 3))
    ensures IsStep(Two(r.(pc := WaitScan(0, false)), c, 0, 3), 0, Turn, Two(r.(pc := WaitScan(1, false)), c, 0, 3))
    ensures IsStep(Two(r.(pc := WaitScan(1, false)), c, 0, 3), 0, Turn, Two(r.(pc := WaitScan(2, true)), c, 0, 3))
    ensures IsStep(Two(r.(pc := WaitScan(2, true)), c, 0, 3), 0, Turn, Two(r.(pc := WaitEnd(true)), c, 0, 3))
  {
    SetTwo(r, c, -1, 3);
    SetTwo(r.(pc := WaitScan(0, false)), c, 0, 3);
    SetTwo(r.(pc := WaitScan(1, false)), c, 0, 3);
    SetTwo(r.(pc := WaitScan(2, true)), c, 0, 3);
  }

  /** It goes to sleep. */
  lemma SleepSteps(r: Proc, c: Proc)
    requires r == Proc(Running, -1, -1, 1, false, -1, Elsewhere, -1)
      && c == Proc(Runnable, -1, 0, 2, false, -1, Elsewhere, -1)
    ensures IsStep(Two(r.(pc := WaitEnd(true)), c, 0, 3), 0, Stay, Two(r.(pc := SleepWant), c, 0, 3))
    ensures IsStep(Two(r.(pc := SleepWant), c, 0, 3), 0, ToSleep, Two(r.(lock := 0, pc := SleepLocked), c, 0, 3))
    ensures IsStep(Two(r.(lock := 0, pc := SleepLocked), c, 0, 3), 0, LetGo,
                   Two(r.(lock := 0, pc := SleepGo), c, -1, 3))
    ensures IsStep(Two(r.(lock := 0, pc := SleepGo), c, -1, 3), 0, Switch,
                   Two(Proc(Sleeping, 0, -1, 1, false, -1, WaitAsleep, -1), c, -1, 3))
  {
    SetTwo(r.(pc := WaitEnd(true)), c, 0, 3);
    SetTwo(r.(pc := SleepWant), c, 0, 3);
    SetTwo(r.(lock := 0, pc := SleepLocked), c, 0, 3);
    SetTwo(r.(lock := 0, pc := SleepGo), c, -1, 3);
  }

  lemma RunStarts(p: Proc, f: Proc)
    requires p == Proc(Runnable, -1, -1, 1, false, -1, Elsewhere, -1) && f == Free()
    ensures IsRun([Two(p, f, -1, 2)], [])
  {
  }

  lemma Extend(ss: seq<State>, steps: seq<(int, Act)>, i: int, a: Act, t: State)
    returns (ss': seq<State>, steps': seq<(int, Act)>)
    requires IsRun(ss, steps) && IsStep(ss[|ss| - 1], i, a, t)
    ensures IsRun(ss', steps') && |ss'| == |ss| + 1 && ss'[|ss|] == t
  {
    hide Enabled, Apply, Init;
    ss', steps' := ss + [t], steps + [(i, a)];
    forall k | 0 <= k < |steps'| ensures IsStep(ss'[k], steps'[k].0, steps'[k].1, ss'[k + 1]) {
      if k < |steps| {
        assert steps'[k] == steps[k] && ss'[k] == ss[k] && ss'[k + 1] == ss[k + 1];
      }
    }
  }

  /** init, about to sleep in wait, and its child. */
  function BeforeSleep(): State {
    Two(Proc(Running, -1, -1, 1, false, -1, SleepWant, -1), Proc(Runnable, -1, 0, 2, false, -1, Elsewhere, -1), 0, 3)
  }

  lemma RunToSleep() returns (ss: seq<State>, steps: seq<(int, Act)>)
    ensures IsRun(ss, steps) && |ss| == 11 && ss[10] == BeforeSleep()
  {
    hide Enabled, Apply, Init, IsRun, IsStep, Two, Free;
    var p, f := Proc(Runnable, -1, -1, 1, false, -1, Elsewhere, -1), Free();
    var r, u := p.(state := Running), f.(state := Used, pid := 2, maker := 0);
    var c := Proc(Runnable, -1, 0, 2, false, -1, Elsewhere, -1);
    ForkSteps(p, f);
    ScanSteps(r, c);
    SleepSteps(r, c);
    RunStarts(p, f);
    ss, steps := [Two(p, f, -1, 2)], [];
    ss, steps := Extend(ss, steps, 0, Schedule(0), Two(r, f, -1, 2));
    ss, steps := Extend(ss, steps, 0, Start(1), Two(r.(pc := ForkWant(1)), u, -1, 3));
    ss, steps := Extend(ss, steps, 0, TakeWait, Two(r.(pc := ForkParent(1)), u, 0, 3));
    ss, steps := Extend(ss, steps, 0, SetParent, Two(r.(pc := ForkStart(1)), u.(parent := 0), -1, 3));
    ss, steps := Extend(ss, steps, 0, MakeRunnable, Two(r, c, -1, 3));
    ss, steps := Extend(ss, steps, 0, Wait, Two(r.(pc := WaitScan(0, false)), c, 0, 3));
    ss, steps := Extend(ss, steps, 0, Turn, Two(r.(pc := WaitScan(1, false)), c, 0, 3));
    ss, steps := Extend(ss, steps, 0, Turn, Two(r.(pc := WaitScan(2, true)), c, 0, 3));
    ss, steps := Extend(ss, steps, 0, Turn, Two(r.(pc := WaitEnd(true)), c, 0, 3));
    ss, steps := Extend(ss, steps, 0, Stay, Two(r.(pc := SleepWant), c, 0, 3));
  }

  /** Runs reach a parent asleep in wait, wait_lock free and a child alive: the premises of NoMissedZombie. */
  lemma SomeRun() returns (ss: seq<State>, steps: seq<(int, Act)>)
    ensures IsRun(ss, steps) && |ss| == 14
    ensures ss[13] ==
        Two(Proc(Sleeping, 0, -1, 1, false, -1, WaitAsleep, -1),
            Proc(Runnable, -1, 0, 2, false, -1, Elsewhere, -1), -1, 3)
  {
    hide Enabled, Apply, Init, IsRun, IsStep, Two, Free;
    var r, c := Proc(Running, -1, -1, 1, false, -1, Elsewhere, -1), Proc(Runnable, -1, 0, 2, false, -1, Elsewhere, -1);
    SleepSteps(r, c);
    ss, steps := RunToSleep();
    ss, steps := Extend(ss, steps, 0, ToSleep, Two(r.(lock := 0, pc := SleepLocked), c, 0, 3));
    ss, steps := Extend(ss, steps, 0, LetGo, Two(r.(lock := 0, pc := SleepGo), c, -1, 3));
    ss, steps := Extend(ss, steps, 0, Switch, Two(Proc(Sleeping, 0, -1, 1, false, -1, WaitAsleep, -1), c, -1, 3));
  }
}
