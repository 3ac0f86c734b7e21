/**
 user/circulate_byte.c: a parent and its children pass one byte around a ring of pipes.  The numbers of
 children and of loops are parameters; a step is one system call, or an end that the loop of closes leaves open.
 */
module TokenRing {

  /** A child: not yet forked, past x of the ends its loop of closes goes through, about to read, about to write b, or
      gone.  A turn of that loop goes through the read end of a pipe and then its write end, two steps. */
  datatype Kid = Unborn | Closing(x: int) | Reading | Holding(b: char) | Exited

  /** The parent: forking child i, past x of the ends of its loop of closes, write ends first, before the first write,
      in its loop of reads and writes, before each of the two last closes, with r children reaped, and gone. */
  datatype Parent =
    | Forking(i: int) | PClosing(x: int) | First | PReading(loops: int) | Writing(n: int, b: char)
    | Stop0 | Stop1 | Waiting(r: int) | Finished

  /** Where the byte is: pipe k is place 2k, child k is 2k + 1, the parent is last. */
  datatype Token = NotYet | At(p: int) | Lost

  /** tok records the token for the proof. */
  datatype State = State(loops: int, pipes: seq<string>, kids: seq<Kid>, par: Parent, tok: Token)

  datatype Who = TheParent | Child(i: int)

  // ----- Descriptors

  predicate KidReads(kid: Kid, j: int, k: int) {
    (kid.Closing? && kid.x <= 2 * k) || ((kid.Closing? || kid.Reading? || kid.Holding?) && k == j)
  }

  predicate KidWrites(kid: Kid, j: int, k: int) {
    (kid.Closing? && kid.x <= 2 * k + 1) || ((kid.Closing? || kid.Reading? || kid.Holding?) && k == j + 1)
  }

  predicate ParReads(par: Parent, c: int, k: int) {
    par.Forking? || (par.PClosing? && par.x <= 2 * k + 1) || (!par.Waiting? && !par.Finished? && k == c)
  }

  predicate ParWrites(par: Parent, k: int) {
    par.Forking? || (par.PClosing? && par.x <= 2 * k) || (!par.Stop1? && !par.Waiting? && !par.Finished? && k == 0)
  }

  /** Some process has the read end of pipe k open. */
  ghost predicate HasReader(s: State, k: int) {
    ParReads(s.par, |s.kids|, k) || exists j :: 0 <= j < |s.kids| && KidReads(s.kids[j], j, k)
  }

  ghost predicate HasWriter(s: State, k: int) {
    ParWrites(s.par, k) || exists j :: 0 <= j < |s.kids| && KidWrites(s.kids[j], j, k)
  }

  function CountExited(kids: seq<Kid>): (n: int) {
    if kids == [] then 0 else CountExited(kids[..|kids| - 1]) + if kids[|kids| - 1].Exited? then 1 else 0
  }

  // ----- Steps

  ghost predicate Enabled(s: State, w: Who) {
    && |s.pipes| == |s.kids| + 1
    && match w
       case TheParent =>
         (match s.par
          case PReading(n) => n >= s.loops || s.pipes[|s.kids|] != [] || !HasWriter(s, |s.kids|)
          case Waiting(r) => r >= |s.kids| || r < CountExited(s.kids)
          case Finished => false
          case _ => true)
       case Child(i) =>
         && 0 <= i < |s.kids|
         && (match s.kids[i]
             case Unborn => false
             case Reading => s.pipes[i] != [] || !HasWriter(s, i)
             case Exited => false
             case _ => true)
  }

  function Put(s: State, k: int, b: char): State
    requires 0 <= k < |s.pipes|
  {
    s.(pipes := s.pipes[k := s.pipes[k] + [b]], tok := At(2 * k))
  }

  function Get(s: State, k: int): State
    requires 0 <= k < |s.pipes| && s.pipes[k] != []
  {
    s.(pipes := s.pipes[k := s.pipes[k][1..]], tok := At(2 * k + 1))
  }

  ghost function ParentStep(s: State): (t: State)
    requires Enabled(s, TheParent)
  {
    var c := |s.kids|;
    match s.par
    case Forking(i) =>
      if 0 <= i < c then s.(kids := s.kids[i := Closing(0)], par := Forking(i + 1)) else s.(par := PClosing(0))
    case PClosing(x) => s.(par := if x <= 2 * c + 1 then PClosing(x + 1) else First)
    case First => if HasReader(s, 0) then Put(s, 0, 'A').(par := PReading(0)) else s.(par := Stop0)
    case PReading(n) =>
      if n >= s.loops || s.pipes[c] == [] then s.(par := Stop0)
      else Get(s, c).(par := Writing(n, s.pipes[c][0]))
    case Writing(n, b) =>
      if HasReader(s, 0) then Put(s, 0, b).(par := PReading(n + 1)) else s.(par := Stop0, tok := Lost)
    case Stop0 => s.(par := Stop1)
    case Stop1 => s.(par := Waiting(0))
    case Waiting(r) => s.(par := if r >= c then Finished else Waiting(r + 1))
    case Finished => s
  }

  ghost function KidStep(s: State, i: int): (t: State)
    requires Enabled(s, Child(i))
  {
    match s.kids[i]
    case Closing(x) => s.(kids := s.kids[i := if x <= 2 * |s.kids| + 1 then Closing(x + 1) else Reading])
    case Reading =>
      if s.pipes[i] == [] then s.(kids := s.kids[i := Exited])
      else Get(s, i).(kids := s.kids[i := Holding(s.pipes[i][0])])
    case Holding(b) =>
      if HasReader(s, i + 1) then Put(s, i + 1, b).(kids := s.kids[i := Reading])
      else s.(kids := s.kids[i := Exited], tok := Lost)
    case _ => s
  }

  ghost function Step(s: State, w: Who): (t: State)
    requires Enabled(s, w)
  {
    match w
    case TheParent => ParentStep(s)
    case Child(i) => KidStep(s, i)
  }

  ghost predicate Init(s: State) {
    && 1 <= s.loops && |s.pipes| == |s.kids| + 1 && s.par == Forking(0) && s.tok == NotYet
    && (forall k :: 0 <= k < |s.pipes| ==> s.pipes[k] == []) && forall i :: 0 <= i < |s.kids| ==> s.kids[i] == Unborn
  }

  ghost predicate IsRun(ss: seq<State>, who: seq<Who>) {
    && |ss| == |who| + 1 && Init(ss[0])
    && forall k :: 0 <= k < |who| ==> Enabled(ss[k], who[k]) && ss[k + 1] == Step(ss[k], who[k])
  }

  // ----- The invariant

  /** The byte is nowhere but at its place, unchanged. */
  ghost predicate TokenOk(s: State) {
    && |s.pipes| == |s.kids| + 1
    && (s.tok.At? ==> 0 <= s.tok.p <= 2 * |s.kids| + 1)
    && PipesOk(s.pipes, s.tok)
    && (forall i :: 0 <= i < |s.kids| ==> KidToken(s, i))
    && (s.par.Writing? <==> s.tok == At(2 * |s.kids| + 1)) && (s.par.Writing? ==> s.par.b == 'A')
  }

  ghost predicate PipesOk(pipes: seq<string>, tok: Token) {
    forall k :: 0 <= k < |pipes| ==> pipes[k] == if tok == At(2 * k) then "A" else ""
  }

  lemma PutOk(s: State, k: int)
    requires PipesOk(s.pipes, s.tok) && 0 <= k < |s.pipes| && (s.tok.At? ==> s.tok.p % 2 == 1)
    ensures PipesOk(Put(s, k, 'A').pipes, At(2 * k))
  {
    assert s.pipes[k] + ['A'] == "A";
  }

  lemma GetOk(s: State, k: int)
    requires PipesOk(s.pipes, s.tok) && 0 <= k < |s.pipes| && s.pipes[k] != []
    ensures s.tok == At(2 * k) && s.pipes[k][0] == 'A' && PipesOk(Get(s, k).pipes, At(2 * k + 1))
  {
    assert s.pipes[k][1..] == "";
  }

  /** The byte held by a process is in no pipe. */
  lemma HeldOk(pipes: seq<string>, tok: Token, tok': Token)
    requires PipesOk(pipes, tok) && (tok.At? ==> tok.p % 2 == 1) && (tok'.At? ==> tok'.p % 2 == 1)
    ensures PipesOk(pipes, tok')
  {
  }

  predicate KidToken(s: State, i: int)
    requires 0 <= i < |s.kids|
  {
    (s.kids[i].Holding? <==> s.tok == At(2 * i + 1)) && (s.kids[i].Holding? ==> s.kids[i].b == 'A')
  }

  predicate Early(par: Parent) {
    par.Forking? || par.PClosing? || par.First?
  }

  /** Before the parent closes its ends: no child is gone, and the byte is on its way once it was sent. */
  predicate Circulating(par: Parent) {
    Early(par) || par.PReading? || par.Writing? || par.Stop0?
  }

  ghost predicate ParentOk(s: State) {
    && 1 <= s.loops && (s.tok == NotYet <==> Early(s.par)) && (s.tok == Lost ==> s.par.Waiting? || s.par.Finished?)
    && (s.par.Forking? ==> 0 <= s.par.i <= |s.kids|)
    && (s.par.PClosing? ==> 0 <= s.par.x <= 2 * |s.kids| + 2)
    && (s.par.PReading? ==> 0 <= s.par.loops <= s.loops) && (s.par.Writing? ==> 0 <= s.par.n < s.loops)
    && (s.par.Stop0? ==> s.tok.At?)
    && (s.par.Waiting? ==> 0 <= s.par.r <= |s.kids| && s.par.r <= CountExited(s.kids))
    && (s.par.Finished? ==> CountExited(s.kids) == |s.kids|)
  }

  /** Children go in order, except that the last one also goes when nobody reads what it writes. */
  ghost predicate KidOk(s: State, i: int)
    requires 0 <= i < |s.kids|
  {
    && (s.kids[i].Closing? ==> 0 <= s.kids[i].x <= 2 * |s.kids| + 2)
    && (s.kids[i].Unborn? <==> s.par.Forking? && i >= s.par.i)
    && (s.kids[i].Exited? ==>
          && !Circulating(s.par)
          && (i == 0 || s.kids[i - 1].Exited? || (i == |s.kids| - 1 && s.tok == Lost)))
  }

  ghost predicate Inv(s: State) {
    TokenOk(s) && ParentOk(s) && forall i :: 0 <= i < |s.kids| ==> KidOk(s, i)
  }

  lemma {:induction false} CountSet(kids: seq<Kid>, i: int, kid: Kid)
    requires 0 <= i < |kids|
    ensures CountExited(kids[i := kid]) ==
        CountExited(kids) - (if kids[i].Exited? then 1 else 0) + if kid.Exited? then 1 else 0
    decreases |kids|
  {
    var n := |kids| - 1;
    if i == n {
      assert kids[i := kid][..n] == kids[..n];
    } else {
      assert kids[i := kid][..n] == kids[..n][i := kid];
      CountSet(kids[..n], i, kid);
    }
  }

  lemma {:induction false} CountBound(kids: seq<Kid>)
    ensures 0 <= CountExited(kids) <= |kids|
    ensures CountExited(kids) == |kids| <==> forall i :: 0 <= i < |kids| ==> kids[i].Exited?
    decreases |kids|
  {
    if kids != [] {
      var n := |kids| - 1;
      CountBound(kids[..n]);
      assert forall i :: 0 <= i < n ==> kids[..n][i] == kids[i];
      if CountExited(kids) == |kids| {
        assert forall i :: 0 <= i < n ==> kids[..n][i].Exited?;
      }
    }
  }

  /** While the byte goes round, every pipe has a reader and a writer. */
  lemma EndsOpen(s: State, k: int)
    requires Inv(s) && Circulating(s.par) && 0 <= k <= |s.kids|
    ensures HasReader(s, k) && HasWriter(s, k)
  {
    hide TokenOk;
    if !s.par.Forking? && k < |s.kids| {
      assert KidOk(s, k) && KidReads(s.kids[k], k, k);
    }
    if !s.par.Forking? && 0 < k {
      assert KidOk(s, k - 1) && KidWrites(s.kids[k - 1], k - 1, k);
    }
  }

  /** The parent moves on and touches nothing else. */
  lemma QuietInv(s: State, par: Parent)
    requires Inv(s) && !s.par.Writing? && !par.Writing? && ParentOk(s.(par := par))
    requires par.Forking? ==> s.par.Forking? && par.i == s.par.i
    requires s.par.Forking? && !par.Forking? ==> s.par.i == |s.kids|
    requires Circulating(par) ==> Circulating(s.par)
    ensures Inv(s.(par := par))
  {
    hide ParentOk, PipesOk;
    var t := s.(par := par);
    forall i | 0 <= i < |t.kids| ensures KidOk(t, i) && KidToken(t, i) {
      assert KidOk(s, i) && KidToken(s, i);
    }
  }

  lemma ForkInv(s: State, i: int)
    requires Inv(s) && s.par == Forking(i) && i < |s.kids|
    ensures Inv(s.(kids := s.kids[i := Closing(0)], par := Forking(i + 1)))
  {
    CountSet(s.kids, i, Closing(0));
    hide CountExited, PipesOk;
    var t := s.(kids := s.kids[i := Closing(0)], par := Forking(i + 1));
    forall j | 0 <= j < |t.kids| ensures KidOk(t, j) && KidToken(t, j) {
      assert KidOk(s, j) && KidToken(s, j);
    }
  }

  lemma SendInv(s: State, n: int)
    requires Inv(s) && ((s.par.First? && n == 0) || (s.par.Writing? && n == s.par.n + 1))
    ensures Inv(Put(s, 0, 'A').(par := PReading(n)))
  {
    hide CountExited, PipesOk;
    PutOk(s, 0);
    var t := Put(s, 0, 'A').(par := PReading(n));
    forall j | 0 <= j < |t.kids| ensures KidOk(t, j) && KidToken(t, j) {
      assert KidOk(s, j) && KidToken(s, j);
    }
  }

  lemma ReceiveInv(s: State)
    requires Inv(s) && s.par.PReading? && s.par.loops < s.loops && s.pipes[|s.kids|] != []
    ensures s.pipes[|s.kids|][0] == 'A' && Inv(Get(s, |s.kids|).(par := Writing(s.par.loops, 'A')))
  {
    hide CountExited, PipesOk;
    GetOk(s, |s.kids|);
    var t := Get(s, |s.kids|).(par := Writing(s.par.loops, 'A'));
    forall j | 0 <= j < |t.kids| ensures KidOk(t, j) && KidToken(t, j) {
      assert KidOk(s, j) && KidToken(s, j);
    }
  }

  lemma ParentLoopInv(s: State)
    requires Inv(s) && Enabled(s, TheParent) && (s.par.First? || s.par.PReading? || s.par.Writing?)
    ensures Inv(ParentStep(s))
  {
    EndsOpen(s, 0);
    EndsOpen(s, |s.kids|);
    hide CountExited, HasReader, HasWriter, TokenOk, KidOk;
    match s.par
    case First => SendInv(s, 0);
    case PReading(n) => if n < s.loops { ReceiveInv(s); } else { QuietInv(s, Stop0); }
    case Writing(n, b) =>
      WritesA(s);
      SendInv(s, n + 1);
    case _ =>
  }

  lemma ParentStepInv(s: State)
    requires Inv(s) && Enabled(s, TheParent)
    ensures Inv(ParentStep(s))
  {
    CountBound(s.kids);
    hide CountExited, HasReader, HasWriter, TokenOk, KidOk;
    match s.par
    case Forking(i) => if i < |s.kids| { ForkInv(s, i); } else { QuietInv(s, PClosing(0)); }
    case PClosing(x) => QuietInv(s, if x <= 2 * |s.kids| + 1 then PClosing(x + 1) else First);
    case Stop0 => QuietInv(s, Stop1);
    case Stop1 => QuietInv(s, Waiting(0));
    case Waiting(r) => QuietInv(s, if r >= |s.kids| then Finished else Waiting(r + 1));
    case Finished =>
    case _ => ParentLoopInv(s);
  }

  lemma WritesA(s: State)
    requires Inv(s) && s.par.Writing?
    ensures s.par.b == 'A'
  {
  }

  lemma ReaderAhead(s: State, i: int)
    requires Inv(s) && 0 <= i < |s.kids| && s.kids[i].Holding?
    ensures !HasReader(s, i + 1) ==> i == |s.kids| - 1 && s.par.Waiting?
  {
    CountBound(s.kids);
    assert KidOk(s, i) && KidToken(s, i);
    if i + 1 < |s.kids| {
      assert KidOk(s, i + 1);
      assert KidReads(s.kids[i + 1], i + 1, i + 1);
    }
  }

  lemma WriterBehind(s: State, i: int)
    requires Inv(s) && 0 <= i < |s.kids| && s.kids[i].Reading? && !HasWriter(s, i)
    ensures !Circulating(s.par) && (i == 0 || s.kids[i - 1].Exited?)
  {
    if i > 0 {
      assert KidOk(s, i - 1);
      assert !KidWrites(s.kids[i - 1], i - 1, i);
    }
  }

  /** A child closes an end or goes, and no byte moves. */
  lemma KidQuietInv(s: State, i: int, kid: Kid, tok: Token)
    requires Inv(s) && 0 <= i < |s.kids| && !s.kids[i].Unborn? && !s.kids[i].Exited? && !kid.Unborn? && !kid.Holding?
    requires kid.Closing? ==> 0 <= kid.x <= 2 * |s.kids| + 2
    requires kid.Exited? ==>
               !Circulating(s.par) && (i == 0 || s.kids[i - 1].Exited? || (i == |s.kids| - 1 && tok == Lost))
    requires if s.kids[i].Holding? then tok == Lost && s.par.Waiting? else tok == s.tok
    ensures Inv(s.(kids := s.kids[i := kid], tok := tok))
  {
    CountBound(s.kids);
    CountSet(s.kids, i, kid);
    assert KidOk(s, i) && KidToken(s, i);
    HeldOk'(s, i, tok);
    hide CountExited, PipesOk;
    var t := s.(kids := s.kids[i := kid], tok := tok);
    forall j | 0 <= j < |t.kids| ensures KidOk(t, j) && KidToken(t, j) {
      assert KidOk(s, j) && KidToken(s, j);
    }
  }

  lemma HeldOk'(s: State, i: int, tok: Token)
    requires TokenOk(s) && 0 <= i < |s.kids| && if s.kids[i].Holding? then tok == Lost else tok == s.tok
    ensures PipesOk(s.pipes, tok)
  {
    assert KidToken(s, i);
    if s.kids[i].Holding? {
      HeldOk(s.pipes, s.tok, Lost);
    }
  }

  lemma TakeInv(s: State, i: int)
    requires Inv(s) && 0 <= i < |s.kids| && s.kids[i].Reading? && s.pipes[i] != []
    ensures s.pipes[i][0] == 'A' && Inv(Get(s, i).(kids := s.kids[i := Holding('A')]))
  {
    CountSet(s.kids, i, Holding('A'));
    hide CountExited, PipesOk;
    GetOk(s, i);
    var t := Get(s, i).(kids := s.kids[i := Holding('A')]);
    forall j | 0 <= j < |t.kids| ensures KidOk(t, j) && KidToken(t, j) {
      assert KidOk(s, j) && KidToken(s, j);
    }
  }

  lemma EvenOdd(a: int, b: int)
    ensures 2 * a != 2 * b + 1
  {
  }

  lemma PassInv(s: State, i: int)
    requires Inv(s) && 0 <= i < |s.kids| && s.kids[i].Holding?
    ensures s.kids[i].b == 'A' && Inv(Put(s, i + 1, 'A').(kids := s.kids[i := Reading]))
  {
    hide CountExited, PipesOk, KidOk;
    CountSet(s.kids, i, Reading);
    assert KidToken(s, i);
    PutOk(s, i + 1);
    EvenOdd(i + 1, |s.kids|);
    var t := Put(s, i + 1, 'A').(kids := s.kids[i := Reading]);
    forall j | 0 <= j < |t.kids| ensures KidOk(t, j) && KidToken(t, j) {
      PassKid(s, i, j);
    }
  }

  lemma PassKid(s: State, i: int, j: int)
    requires Inv(s) && 0 <= i < |s.kids| && s.kids[i].Holding? && 0 <= j < |s.kids|
    ensures var t := Put(s, i + 1, 'A').(kids := s.kids[i := Reading]); KidOk(t, j) && KidToken(t, j)
  {
    hide CountExited, PipesOk;
    assert KidOk(s, j) && KidToken(s, j) && KidToken(s, i);
    EvenOdd(i + 1, j);
  }

  lemma KidStepInv(s: State, i: int)
    requires Inv(s) && Enabled(s, Child(i))
    ensures Inv(KidStep(s, i))
  {
    hide CountExited, HasReader, HasWriter, TokenOk, ParentOk;
    assert KidOk(s, i);
    match s.kids[i]
    case Closing(x) => KidQuietInv(s, i, if x <= 2 * |s.kids| + 1 then Closing(x + 1) else Reading, s.tok);
    case Reading =>
      if s.pipes[i] == [] {
        WriterBehind(s, i);
        KidQuietInv(s, i, Exited, s.tok);
      } else {
        TakeInv(s, i);
      }
    case Holding(b) =>
      ReaderAhead(s, i);
      PassInv(s, i);
      if !HasReader(s, i + 1) {
        KidQuietInv(s, i, Exited, Lost);
      }
    case _ =>
  }

  lemma InitInv(s: State)
    requires Init(s)
    ensures Inv(s)
  {
  }

  lemma {:induction false} RunInv(ss: seq<State>, who: seq<Who>, k: int)
    requires IsRun(ss, who) && 0 <= k < |ss|
    ensures Inv(ss[k])
    decreases k
  {
    hide Inv, Enabled, ParentStep, KidStep;
    if k == 0 {
      InitInv(ss[0]);
    } else {
      RunInv(ss, who, k - 1);
      match who[k - 1]
      case TheParent => ParentStepInv(ss[k - 1]);
      case Child(i) => KidStepInv(ss[k - 1], i);
    }
  }

  // ----- Every run

  /** From the first write until the parent closes its ends there is exactly one byte, in a pipe or in a
      process's hands, and it is the byte that was sent. */
  lemma OneToken(ss: seq<State>, who: seq<Who>, k: int)
    requires IsRun(ss, who) && 0 <= k < |ss| && Circulating(ss[k].par) && !Early(ss[k].par)
    ensures var s := ss[k]; s.tok.At? && TokenOk(s)
  {
    RunInv(ss, who, k);
  }

  /** No state of a run is stuck before the parent is done. */
  lemma NoDeadlock(ss: seq<State>, who: seq<Who>, k: int)
    requires IsRun(ss, who) && 0 <= k < |ss| && !ss[k].par.Finished?
    ensures exists w :: Enabled(ss[k], w)
  {
    RunInv(ss, who, k);
    var w := Able(ss[k]);
  }

  /** A process that can take a step. */
  lemma Able(s: State) returns (w: Who)
    requires Inv(s) && !s.par.Finished?
    ensures Enabled(s, w)
  {
    if s.par.PReading? && s.par.loops < s.loops {
      w := TokenMoves(s);
    } else if s.par.Waiting? && s.par.r < |s.kids| && s.par.r >= CountExited(s.kids) {
      w := SomeKidMoves(s);
    } else {
      w := TheParent;
    }
  }

  /** Whoever is next to the byte can move it, or has ends left to close. */
  lemma TokenMoves(s: State) returns (w: Who)
    requires Inv(s) && s.par.PReading? && s.par.loops < s.loops
    ensures Enabled(s, w)
  {
    var p := s.tok.p;
    if p == 2 * |s.kids| {
      w := TheParent;
    } else {
      var i := p / 2;
      w := Child(i);
      assert KidOk(s, i) && KidToken(s, i);
    }
  }

  /** The first child that is still there, or one that keeps its pipe open, can go on. */
  lemma SomeKidMoves(s: State) returns (w: Who)
    requires Inv(s) && s.par.Waiting? && CountExited(s.kids) < |s.kids|
    ensures Enabled(s, w)
  {
    CountBound(s.kids);
    var i := FirstAlive(s.kids, 0);
    w := Child(i);
    assert KidOk(s, i);
    if s.kids[i].Reading? && s.pipes[i] == [] && HasWriter(s, i) {
      var j :| 0 <= j < |s.kids| && KidWrites(s.kids[j], j, i);
      w := Child(j);
    }
  }

  lemma FirstAlive(kids: seq<Kid>, from: int) returns (i: int)
    requires 0 <= from && exists k :: from <= k < |kids| && !kids[k].Exited?
    ensures from <= i < |kids| && !kids[i].Exited? && forall k :: from <= k < i ==> kids[k].Exited?
    decreases |kids| - from
  {
    if !kids[from].Exited? {
      i := from;
    } else {
      i := FirstAlive(kids, from + 1);
    }
  }

  // ----- Termination

  function KidRank(kid: Kid, c: int): int {
    match kid
    case Unborn => 2 * c + 6
    case Closing(x) => 2 * c + 4 - x
    case Reading => 1
    case Holding(b) => 1
    case Exited => 0
  }

  function Ranks(kids: seq<Kid>, c: int): int {
    if kids == [] then 0 else Ranks(kids[..|kids| - 1], c) + KidRank(kids[|kids| - 1], c)
  }

  lemma {:induction false} RankSet(kids: seq<Kid>, i: int, kid: Kid, c: int)
    requires 0 <= i < |kids|
    ensures Ranks(kids[i := kid], c) == Ranks(kids, c) - KidRank(kids[i], c) + KidRank(kid, c)
    decreases |kids|
  {
    hide KidRank;
    var n := |kids| - 1;
    if i == n {
      assert kids[i := kid][..n] == kids[..n];
    } else {
      assert kids[i := kid][..n] == kids[..n][i := kid];
      RankSet(kids[..n], i, kid, c);
    }
  }

  lemma {:induction false} RanksBound(kids: seq<Kid>, c: int)
    requires 0 <= c && forall i :: 0 <= i < |kids| ==> (kids[i].Closing? ==> kids[i].x <= 2 * c + 2)
    ensures Ranks(kids, c) >= 0
    decreases |kids|
  {
    if kids != [] {
      var n := |kids| - 1;
      assert forall i :: 0 <= i < n ==> kids[..n][i] == kids[i];
      RanksBound(kids[..n], c);
    }
  }

  /** n times w. */
  function Times(n: int, w: int): (r: int)
    decreases n
  {
    if n <= 0 then 0 else Times(n - 1, w) + w
  }

  lemma {:induction false} TimesBound(n: int, w: int)
    requires 0 <= w
    ensures Times(n, w) >= 0
    decreases n
  {
    if n > 0 {
      TimesBound(n - 1, w);
    }
  }

  /** Steps the byte can still make. */
  function TokenRank(s: State): int {
    var c := |s.kids|;
    match s.tok
    case NotYet => Times(s.loops + 1, 2 * c + 2)
    case At(p) => Times(s.loops - LoopsDone(s) + 1, 2 * c + 2) - p - 1
    case Lost => 0
  }

  function LoopsDone(s: State): int {
    match s.par
    case PReading(n) => n
    case Writing(n, b) => n
    case _ => if Early(s.par) then 0 else s.loops
  }

  function ParentRank(s: State): int {
    var c := |s.kids|;
    match s.par
    case Forking(i) => 4 * c + 10 - i
    case PClosing(x) => 3 * c + 9 - x
    case First => c + 6
    case PReading(n) => c + 5
    case Writing(n, b) => c + 5
    case Stop0 => c + 4
    case Stop1 => c + 3
    case Waiting(r) => c + 2 - r
    case Finished => 0
  }

  function Measure(s: State): int {
    TokenRank(s) + Ranks(s.kids, |s.kids|) + ParentRank(s)
  }

  lemma MeasureBound(s: State)
    requires Inv(s)
    ensures Measure(s) >= 0
  {
    forall i | 0 <= i < |s.kids| ensures s.kids[i].Closing? ==> s.kids[i].x <= 2 * |s.kids| + 2 {
      assert KidOk(s, i);
    }
    RanksBound(s.kids, |s.kids|);
    hide TokenOk, KidOk, Ranks;
    TokenRankBound(s);
  }

  lemma TokenRankBound(s: State)
    requires Inv(s)
    ensures TokenRank(s) >= 0
  {
    hide KidOk, PipesOk;
    var w := 2 * |s.kids| + 2;
    TimesBound(s.loops + 1, w);
    TimesBound(s.loops - LoopsDone(s), w);
  }

  lemma ParentDecreases(s: State)
    requires Inv(s) && Enabled(s, TheParent)
    ensures Measure(ParentStep(s)) < Measure(s)
  {
    if Circulating(s.par) {
      EndsOpen(s, 0);
      EndsOpen(s, |s.kids|);
    }
    if s.par.Forking? && s.par.i < |s.kids| {
      RankSet(s.kids, s.par.i, Closing(0), |s.kids|);
      assert KidOk(s, s.par.i);
    }
    if s.par.PReading? && s.pipes[|s.kids|] != [] {
      GetOk(s, |s.kids|);
    }
    hide KidOk, PipesOk, HasReader, HasWriter, Ranks;
  }

  lemma KidDecreases(s: State, i: int)
    requires Inv(s) && Enabled(s, Child(i))
    ensures Measure(KidStep(s, i)) < Measure(s)
  {
    hide PipesOk, HasReader, HasWriter, Ranks, Times, CountExited, ParentOk;
    var t := KidStep(s, i);
    RankSet(s.kids, i, t.kids[i], |s.kids|);
    assert KidOk(s, i) && KidToken(s, i);
    if s.kids[i].Reading? && s.pipes[i] != [] {
      GetOk(s, i);
    }
    TokenRankBound(s);
  }

  /** Every run is finite: it has at most Measure(ss[0]) steps. */
  lemma {:induction false} Terminates(ss: seq<State>, who: seq<Who>, k: int)
    requires IsRun(ss, who) && 0 <= k < |ss|
    ensures k + Measure(ss[k]) <= Measure(ss[0]) && 0 <= Measure(ss[k])
    decreases k
  {
    hide Inv, Enabled, ParentStep, KidStep, Measure;
    RunInv(ss, who, k);
    MeasureBound(ss[k]);
    if k > 0 {
      RunInv(ss, who, k - 1);
      Terminates(ss, who, k - 1);
      match who[k - 1]
      case TheParent => ParentDecreases(ss[k - 1]);
      case Child(i) => KidDecreases(ss[k - 1], i);
    }
  }

  ghost predicate Stuck(s: State) {
    forall w :: !Enabled(s, w)
  }

  /** A run that cannot go on has ended with every child gone and reaped. */
  lemma EndsWell(ss: seq<State>, who: seq<Who>)
    requires IsRun(ss, who) && Stuck(ss[|ss| - 1])
    ensures var s := ss[|ss| - 1]; s.par.Finished? && forall i :: 0 <= i < |s.kids| ==> s.kids[i].Exited?
  {
    var s := ss[|ss| - 1];
    RunInv(ss, who, |ss| - 1);
    if !s.par.Finished? {
      var w := Able(s);
    }
    CountBound(s.kids);
  }

  // ----- The ends that are open

  /** A child starts with every end open, and the parent keeps all of its own. */
  lemma ForkInherits(s: State, k: int)
    requires Enabled(s, TheParent) && s.par.Forking? && 0 <= k <= |s.kids|
    ensures var t, i := ParentStep(s), s.par.i;
      && ParReads(t.par, |s.kids|, k) && ParWrites(t.par, k)
      && (0 <= i < |s.kids| ==> KidReads(t.kids[i], i, k) && KidWrites(t.kids[i], i, k))
  {
  }

  /** One step of a child's loop closes one end at most, and none of the two it uses. */
  lemma KidCloses(s: State, i: int, k: int)
    requires Enabled(s, Child(i)) && s.kids[i].Closing? && 0 <= k <= |s.kids|
    ensures var x, kid := s.kids[i].x, KidStep(s, i).kids[i];
      && (KidReads(kid, i, k) <==> KidReads(s.kids[i], i, k) && (x != 2 * k || k == i))
      && (KidWrites(kid, i, k) <==> KidWrites(s.kids[i], i, k) && (x != 2 * k + 1 || k == i + 1))
  {
  }

  /** The same for the parent, whose loop closes the write end of a pipe first. */
  lemma ParentCloses(s: State, k: int)
    requires Enabled(s, TheParent) && s.par.PClosing? && s.par.x <= 2 * |s.kids| + 2 && 0 <= k <= |s.kids|
    ensures var x, par := s.par.x, ParentStep(s).par;
      && (ParWrites(par, k) <==> ParWrites(s.par, k) && (x != 2 * k || k == 0))
      && (ParReads(par, |s.kids|, k) <==> ParReads(s.par, |s.kids|, k) && (x != 2 * k + 1 || k == |s.kids|))
  {
  }

  /** Past their loops, a child has its two ends open and the parent its own two, and no others. */
  lemma EndsLeft(s: State, i: int, k: int)
    requires 0 <= i < |s.kids|
    ensures s.kids[i].Reading? || s.kids[i].Holding? ==>
              (KidReads(s.kids[i], i, k) <==> k == i) && (KidWrites(s.kids[i], i, k) <==> k == i + 1)
    ensures s.par.First? || s.par.PReading? || s.par.Writing? || s.par.Stop0? ==>
              (ParReads(s.par, |s.kids|, k) <==> k == |s.kids|) && (ParWrites(s.par, k) <==> k == 0)
  {
  }

  // ----- Rounds

  /** w is about to write the byte on. */
  predicate Passing(s: State, w: Who) {
    match w
    case TheParent => s.par.Writing?
    case Child(i) => 0 <= i < |s.kids| && s.kids[i].Holding?
  }

  /** How often w has written it on in the first k steps. */
  ghost function Passes(ss: seq<State>, who: seq<Who>, w: Who, k: int): (n: int)
    requires |ss| == |who| + 1 && 0 <= k <= |who|
    decreases k
  {
    if k == 0 then 0
    else Passes(ss, who, w, k - 1) + if who[k - 1] == w && Passing(ss[k - 1], w) then 1 else 0
  }

  /** The byte's place; past all of them when it is lost. */
  function Place(s: State): int {
    if s.tok.At? then s.tok.p else 2 * |s.kids| + 2
  }

  /** n, m: how often the parent and child i have written it on. */
  ghost predicate RoundsOk(s: State, i: int, n: int, m: int) {
    && (Early(s.par) ==> n == m == 0)
    && (s.par.PReading? ==> n == s.par.loops) && (s.par.Writing? ==> n == s.par.n)
    && (!Early(s.par) && !s.par.PReading? && !s.par.Writing? ==> n == s.loops)
    && (!Early(s.par) ==> m == n + if Place(s) >= 2 * i + 2 then 1 else 0)
  }

  lemma ParentRounds(s: State, i: int, n: int, m: int)
    requires Inv(s) && Enabled(s, TheParent) && 0 <= i < |s.kids| && RoundsOk(s, i, n, m)
    ensures RoundsOk(ParentStep(s), i, n + if s.par.Writing? then 1 else 0, m)
  {
    if s.par.First? || s.par.PReading? || s.par.Writing? {
      EndsOpen(s, 0);
      EndsOpen(s, |s.kids|);
      if s.par.PReading? && s.par.loops < s.loops {
        ReceiveInv(s);
        assert s.tok == At(2 * |s.kids|);
      }
    }
    hide HasReader, HasWriter, CountExited, KidOk, PipesOk;
  }

  /** Only the last child can find nobody to read what it writes. */
  lemma LastLoses(s: State, j: int)
    requires Inv(s) && 0 <= j < |s.kids| - 1 && s.kids[j].Holding?
    ensures HasReader(s, j + 1)
  {
    hide CountExited, PipesOk;
    assert KidOk(s, j + 1) && KidOk(s, j) && KidToken(s, j);
    assert KidReads(s.kids[j + 1], j + 1, j + 1);
  }

  lemma KidRounds(s: State, j: int, i: int, n: int, m: int)
    requires Inv(s) && Enabled(s, Child(j)) && 0 <= i < |s.kids| && RoundsOk(s, i, n, m)
    ensures RoundsOk(KidStep(s, j), i, n, m + if j == i && s.kids[i].Holding? then 1 else 0)
  {
    assert KidToken(s, j);
    if s.kids[j].Holding? && j < |s.kids| - 1 {
      LastLoses(s, j);
    }
    if s.kids[j].Reading? && s.pipes[j] != [] {
      GetOk(s, j);
    }
    hide HasReader, HasWriter, CountExited, KidOk, PipesOk;
  }

  lemma {:induction false} RunRounds(ss: seq<State>, who: seq<Who>, k: int, i: int)
    requires IsRun(ss, who) && 0 <= k < |ss| && 0 <= i < |ss[0].kids|
    ensures |ss[k].kids| == |ss[0].kids| && ss[k].loops == ss[0].loops
    ensures RoundsOk(ss[k], i, Passes(ss, who, TheParent, k), Passes(ss, who, Child(i), k))
    decreases k
  {
    if k > 0 {
      RunRounds(ss, who, k - 1, i);
      RunInv(ss, who, k - 1);
      SameRing(ss[k - 1], who[k - 1]);
      hide Inv, Enabled, ParentStep, KidStep, RoundsOk, Init;
      var n, m := Passes(ss, who, TheParent, k - 1), Passes(ss, who, Child(i), k - 1);
      match who[k - 1]
      case TheParent => ParentRounds(ss[k - 1], i, n, m);
      case Child(j) => KidRounds(ss[k - 1], j, i, n, m);
    }
  }

  lemma SameRing(s: State, w: Who)
    requires Enabled(s, w)
    ensures |Step(s, w).kids| == |s.kids| && Step(s, w).loops == s.loops
  {
    hide HasReader, HasWriter, CountExited;
  }

  /** When the parent is past its loop it has written the byte on exactly as often as it was asked to, and every child
      has passed it on in each of these rounds, and at most once more. */
  lemma AllRounds(ss: seq<State>, who: seq<Who>, k: int, i: int)
    requires IsRun(ss, who) && 0 <= k < |ss| && 0 <= i < |ss[0].kids|
    requires ss[k].par.Stop0? || ss[k].par.Stop1? || ss[k].par.Waiting? || ss[k].par.Finished?
    ensures Passes(ss, who, TheParent, k) == ss[0].loops
    ensures ss[0].loops <= Passes(ss, who, Child(i), k) <= ss[0].loops + 1
  {
    hide Init, Enabled, Step, Passes;
    RunRounds(ss, who, k, i);
  }
}
