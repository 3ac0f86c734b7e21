/**
 kernel/pipe.c: a pipe between any number of readers and writers.  Each method is what one process
 does from taking the pipe's lock, or waking up with it, until it sleeps or releases it.
 */
module Pipe {

  const PIPESIZE := 512
  const U32 := 0x1_0000_0000

  /** A counter as the 32-bit field holds it. */
  function Word(k: int): (w: int)
    ensures 0 <= w < U32
  {
    k % U32
  }

  function Slot(w: int): (i: int)
    ensures 0 <= i < PIPESIZE
  {
    w % PIPESIZE
  }

  lemma WordFacts(r: int, w: int)
    requires 0 <= r <= w <= r + PIPESIZE
    ensures Word(Word(r) + PIPESIZE) == Word(w) <==> w == r + PIPESIZE
    ensures Word(r) == Word(w) <==> r == w
  {
    WordEqual(r, w);
    WordEqual(w, r + PIPESIZE);
    assert Word(Word(r) + PIPESIZE) == Word(r + PIPESIZE);
  }

  lemma WordEqual(a: int, b: int)
    requires 0 <= a <= b <= a + PIPESIZE
    ensures Word(a) == Word(b) <==> a == b
  {
  }

  lemma NextWord(k: int)
    requires 0 <= k
    ensures Word(Word(k) + 1) == Word(k + 1) && Slot(Word(k)) == Slot(k)
  {
  }

  lemma SlotsDiffer(a: int, b: int)
    requires a < b < a + PIPESIZE
    ensures Slot(a) != Slot(b)
  {
  }

  lemma NextSlice(a: seq<int>, lo: int, hi: int)
    requires 0 <= lo <= hi < |a|
    ensures a[lo..hi] + [a[hi]] == a[lo..hi + 1]
  {
  }

  // ----- What a call does, as a function of the state

  datatype Outcome = Returned(r: int) | Slept

  /** All bytes ever accepted and how many have been taken out; the ends; who sleeps on each. */
  datatype State = State(accepted: seq<int>, consumed: int, readopen: bool, writeopen: bool,
                         readers: set<int>, writers: set<int>)

  function Held(s: State): int {
    |s.accepted| - s.consumed
  }

  ghost predicate Within(s: State) {
    0 <= s.consumed && 0 <= Held(s) <= PIPESIZE
  }

  /** Who sleeps has a reason to. */
  ghost predicate Justified(s: State) {
    && (s.readers != {} ==> Held(s) == 0 && s.writeopen)
    && (s.writers != {} ==> Held(s) == PIPESIZE && s.readopen)
  }

  function Min(a: int, b: int): int {
    if a < b then a else b
  }

  /** How far pipewrite gets from byte `start`.  src is what copyin can read; killed(pr) holds from byte
      killAt on, if that is not negative. */
  function WriteEnd(s: State, src: seq<int>, n: int, start: int, killAt: int): int {
    if n <= start || !s.readopen || 0 <= killAt <= start then start
    else Min(Min(n, |src|), Min(if killAt < 0 then n else killAt, start + PIPESIZE - Held(s)))
  }

  function WriteOutcome(s: State, src: seq<int>, n: int, start: int, killAt: int): Outcome {
    var i := WriteEnd(s, src, n, start, killAt);
    if i >= n then Returned(i)
    else if !s.readopen || 0 <= killAt <= i then Returned(-1)
    else if Held(s) + i - start == PIPESIZE then Slept
    else Returned(i)
  }

  /** Bytes up to i accepted, with this outcome. */
  function WriteDone(s: State, pr: int, src: seq<int>, start: int, i: int, out: Outcome): State
    requires 0 <= start <= i <= |src|
  {
    s.(accepted := s.accepted + src[start..i],
       readers := if out == Returned(-1) then s.readers else {},
       writers := if out == Slept then s.writers + {pr} else s.writers)
  }

  function AfterWrite(s: State, pr: int, src: seq<int>, n: int, start: int, killAt: int): State
    requires 0 <= start <= |src| && 0 <= Held(s) <= PIPESIZE
  {
    WriteDone(s, pr, src, start, WriteEnd(s, src, n, start, killAt), WriteOutcome(s, src, n, start, killAt))
  }

  /** The tests of pipewrite's loop at byte i: it ends here, or the next byte goes in. */
  lemma WriteAt(s: State, src: seq<int>, n: int, start: int, killAt: int, i: int)
    requires Within(s) && 0 <= start <= i <= |src| && (i == start || i <= WriteEnd(s, src, n, start, killAt))
    ensures var end, out := WriteEnd(s, src, n, start, killAt), WriteOutcome(s, src, n, start, killAt);
      if i >= n then end == i && out == Returned(i)
      else if !s.readopen || 0 <= killAt <= i then end == i && out == Returned(-1)
      else if Held(s) + i - start == PIPESIZE then end == i && out == Slept
      else if i == |src| then end == i && out == Returned(i)
      else i + 1 <= end && Held(s) + i - start < PIPESIZE
  {
  }

  /** Nothing to read, and a byte may still come. */
  predicate MustWait(s: State) {
    Held(s) == 0 && s.writeopen
  }

  /** How many bytes piperead delivers; copyout fails from byte `room` on, if that is not negative. */
  function ReadEnd(s: State, n: int, room: int): int {
    if n <= 0 then 0 else Min(Min(n, Held(s)), if room < 0 then n else room)
  }

  /** piperead takes a byte that it cannot copy out. */
  predicate Loses(s: State, n: int, room: int) {
    0 <= room < n && room < Held(s)
  }

  function ReadOutcome(s: State, n: int, killed: bool, room: int): Outcome {
    if MustWait(s) then if killed then Returned(-1) else Slept else Returned(ReadEnd(s, n, room))
  }

  function Delivered(s: State, n: int, room: int): seq<int>
    requires Within(s)
  {
    if MustWait(s) then [] else s.accepted[s.consumed..s.consumed + ReadEnd(s, n, room)]
  }

  /** The tests of piperead's loop at byte i. */
  lemma ReadAt(s: State, n: int, room: int, i: int)
    requires Within(s) && (i == 0 || 0 <= i <= ReadEnd(s, n, room))
    ensures if i >= n || i == Held(s) then ReadEnd(s, n, room) == i && !Loses(s, n, room)
      else if i == room then ReadEnd(s, n, room) == i && Loses(s, n, room)
      else i + 1 <= ReadEnd(s, n, room)
    ensures 0 <= ReadEnd(s, n, room) <= Held(s)
  {
  }

  function AfterRead(s: State, pr: int, n: int, killed: bool, room: int): State {
    if MustWait(s) then if killed then s else s.(readers := s.readers + {pr})
    else
      s.(consumed := s.consumed + ReadEnd(s, n, room) + (if Loses(s, n, room) then 1 else 0), writers := {})
  }

  function AfterClose(s: State, writable: bool): State {
    if writable then s.(writeopen := false, readers := {}) else s.(readopen := false, writers := {})
  }

  /** kill, or any other way to leave sleep early. */
  function AfterRouse(s: State, pr: int): State {
    s.(readers := s.readers - {pr}, writers := s.writers - {pr})
  }

  // ----- The pipe

  class Pipe {
    const data: array<int>
    var nread: int
    var nwrite: int
    var readopen: bool
    var writeopen: bool
    ghost var accepted: seq<int>     // all bytes ever written, in order
    ghost var consumed: int          // how many of them have been taken out
    ghost var readers: set<int>      // asleep on &pi->nread
    ghost var writers: set<int>      // asleep on &pi->nwrite

    ghost function S(): State
      reads this
    {
      State(accepted, consumed, readopen, writeopen, readers, writers)
    }

    /** The buffer holds the bytes accepted and not yet consumed. */
    ghost predicate Ok()
      reads this, data
    {
      && data.Length == PIPESIZE && Within(S())
      && nread == Word(consumed) && nwrite == Word(|accepted|)
      && forall k :: consumed <= k < |accepted| ==> data[Slot(k)] == accepted[k]
    }

    /** The part of pipealloc that sets up the pipe. */
    constructor ()
      ensures Ok() && fresh(data) && S() == State([], 0, true, true, {}, {})
    {
      data := new int[PIPESIZE];
      nread, nwrite, readopen, writeopen := 0, 0, true, true;
      accepted, consumed, readers, writers := [], 0, {}, {};
    }

    /** pipeclose; a process that sleeps on an end keeps that end open. */
    method Close(writable: bool)
      requires Ok() && (writable ==> writers == {}) && (!writable ==> readers == {})
      modifies this`readopen, this`writeopen, this`readers, this`writers
      ensures Ok() && S() == AfterClose(old(S()), writable)
      ensures old(Justified(S())) ==> Justified(S())
    {
      if writable {
        writeopen := false;
        readers := {};
      } else {
        readopen := false;
        writers := {};
      }
    }

    /** pipewrite by process pr, from byte `start` on. */
    method Write(pr: int, src: seq<int>, n: int, start: int, killAt: int) returns (out: Outcome, i: int)
      requires Ok() && 0 <= start <= |src|
      modifies this`nwrite, this`accepted, this`readers, this`writers, data
      ensures Ok() && S() == AfterWrite(old(S()), pr, src, n, start, killAt)
      ensures i == WriteEnd(old(S()), src, n, start, killAt) && out == WriteOutcome(old(S()), src, n, start, killAt)
      ensures start <= i <= |src| && accepted == old(accepted) + src[start..i] && (out.Returned? ==> out.r in {-1, i})
      ensures out == Returned(-1) <==> i < n && (!readopen || 0 <= killAt <= i)
      ensures out == Slept <==> i < n && readopen && !(0 <= killAt <= i) && |accepted| - consumed == PIPESIZE
      ensures old(Justified(S())) ==> (Justified(S()) <==> !Strands(old(S()), src, n, start, killAt))
    {
      hide Word, Slot, WriteEnd, WriteOutcome, Justified, Strands;
      i := start;
      ghost var s := S();
      StrandsWhen(s, pr, src, n, start, killAt);
      while i < n
        invariant start <= i <= |src| && (i == start || i <= WriteEnd(s, src, n, start, killAt)) && Ok()
        invariant S() == s.(accepted := s.accepted + src[start..i])
        decreases n - i
      {
        WordFacts(consumed, |accepted|);
        WriteAt(s, src, n, start, killAt, i);
        if !readopen || 0 <= killAt <= i {
          return Returned(-1), i;
        }
        if nwrite == Word(nread + PIPESIZE) {
          readers := {};
          writers := writers + {pr};
          return Slept, i;
        }
        if i >= |src| {
          break;
        }
        NextSlice(src, start, i);
        Put(src[i]);
        i := i + 1;
      }
      WriteAt(s, src, n, start, killAt, i);
      readers := {};
      out := Returned(i);
    }

    /** One byte into the buffer. */
    method Put(ch: int)
      requires Ok() && Held(S()) < PIPESIZE
      modifies this`nwrite, this`accepted, data
      ensures Ok() && accepted == old(accepted) + [ch]
    {
      hide Word, Slot;
      NextWord(|accepted|);
      forall k | consumed <= k < |accepted| ensures Slot(k) != Slot(|accepted|) {
        SlotsDiffer(k, |accepted|);
      }
      data[Slot(nwrite)] := ch;
      nwrite := Word(nwrite + 1);
      accepted := accepted + [ch];
    }

    /** One byte out of the buffer. */
    method Get() returns (ch: int)
      requires Ok() && Held(S()) > 0
      modifies this`nread, this`consumed
      ensures Ok() && consumed == old(consumed) + 1 && ch == accepted[old(consumed)]
    {
      NextWord(consumed);
      ch := data[Slot(nread)];
      nread := Word(nread + 1);
      consumed := consumed + 1;
    }

    /** The loop of piperead. */
    method Take(n: int, room: int) returns (got: seq<int>)
      requires Ok()
      modifies this`nread, this`consumed
      ensures Ok() && 0 <= ReadEnd(old(S()), n, room) <= Held(old(S()))
      ensures consumed == old(consumed) + |got| + (if Loses(old(S()), n, room) then 1 else 0)
      ensures |got| == ReadEnd(old(S()), n, room) && got == accepted[old(consumed)..old(consumed) + |got|]
    {
      hide Word, Slot, ReadEnd, Loses;
      got := [];
      ghost var s := S();
      var i := 0;
      ReadAt(s, n, room, 0);
      while i < n
        invariant 0 <= i <= ReadEnd(s, n, room) && |got| == i && Ok() && consumed == s.consumed + i
        invariant got == accepted[s.consumed..s.consumed + i]
        decreases n - i
      {
        WordFacts(consumed, |accepted|);
        ReadAt(s, n, room, i);
        if nread == nwrite {
          return;
        }
        var ch := Get();
        if i == room {
          return;
        }
        NextSlice(accepted, s.consumed, s.consumed + i);
        got := got + [ch];
        i := i + 1;
      }
      ReadAt(s, n, room, i);
    }

    /** piperead by process pr. */
    method Read(pr: int, n: int, killed: bool, room: int) returns (out: Outcome, got: seq<int>)
      requires Ok()
      modifies this`nread, this`consumed, this`readers, this`writers
      ensures Ok() && S() == AfterRead(old(S()), pr, n, killed, room)
      ensures out == ReadOutcome(old(S()), n, killed, room) && got == Delivered(old(S()), n, room)
      ensures out.Returned? && out.r != -1 ==> out.r == |got|
      ensures out == Returned(-1) <==> old(|accepted| == consumed && writeopen) && killed
      ensures out == Slept <==> old(|accepted| == consumed && writeopen) && !killed
      ensures out == Slept || out == Returned(-1) ==> got == []
      ensures got <= old(accepted[consumed..])
      ensures room < 0 && out.Returned? && out.r != -1 ==>
                |got| == if n < 0 then 0 else Min(n, old(|accepted| - consumed))
      ensures old(Justified(S())) ==> Justified(S())
    {
      hide Word, Slot, Loses;
      got := [];
      WordFacts(consumed, |accepted|);
      if nread == nwrite && writeopen {
        if killed {
          return Returned(-1), got;
        }
        readers := readers + {pr};
        return Slept, got;
      }
      got := Take(n, room);
      writers := {};
      out := Returned(|got|);
    }
  }

  /** A killed writer leaves a reader asleep beside bytes it has just written. */
  ghost predicate Strands(s: State, src: seq<int>, n: int, start: int, killAt: int) {
    && s.readers != {} && s.readopen && start < killAt < n && killAt <= |src| && killAt - start <= PIPESIZE
  }

  lemma StrandsWhen(s: State, pr: int, src: seq<int>, n: int, start: int, killAt: int)
    requires Within(s) && 0 <= start <= |src|
    ensures Justified(s) ==>
              (Justified(AfterWrite(s, pr, src, n, start, killAt)) <==> !Strands(s, src, n, start, killAt))
  {
  }

  /** A writer killed in the middle of a write leaves a reader asleep though there is a byte to read. */
  method KilledWriterStrandsReader() returns (p: Pipe)
    ensures fresh(p) && p.Ok() && p.readers == {1} && Held(p.S()) == 1 && !Justified(p.S())
  {
    p := new Pipe();
    var out, got := p.Read(1, 1, false, -1);
    var o, i := p.Write(2, [7, 8], 2, 0, 1);
  }

  /** A read into bad memory takes a byte that no later read can return. */
  method FailedCopyLosesByte() returns (p: Pipe, got: seq<int>)
    ensures fresh(p) && p.Ok() && p.accepted == [7] && p.consumed == 1 && got == []
  {
    p := new Pipe();
    var o, i := p.Write(2, [7], 1, 0, -1);
    var out;
    out, got := p.Read(1, 1, false, 0);
  }

  // ----- All runs

  datatype Act =
    | Write(src: seq<int>, n: int, start: int, killAt: int)
    | Read(n: int, killed: bool, room: int)
    | Close(writable: bool)
    | Rouse

  /** A process that does not sleep may do anything; an end is closed when nobody sleeps on it. */
  ghost predicate Enabled(s: State, pr: int, a: Act) {
    match a
    case Write(src, n, start, killAt) => 0 <= start <= |src| && pr !in s.readers && pr !in s.writers
    case Read(n, killed, room) => pr !in s.readers && pr !in s.writers
    case Close(writable) => if writable then s.writers == {} else s.readers == {}
    case Rouse => true
  }

  ghost function Apply(s: State, pr: int, a: Act): State
    requires Within(s) && Enabled(s, pr, a)
  {
    match a
    case Write(src, n, start, killAt) => AfterWrite(s, pr, src, n, start, killAt)
    case Read(n, killed, room) => AfterRead(s, pr, n, killed, room)
    case Close(writable) => AfterClose(s, writable)
    case Rouse => AfterRouse(s, pr)
  }

  ghost function Got(s: State, a: Act): seq<int>
    requires Within(s)
  {
    if a.Read? then Delivered(s, a.n, a.room) else []
  }

  ghost predicate LosesByte(s: State, a: Act) {
    a.Read? && !MustWait(s) && Loses(s, a.n, a.room)
  }

  ghost predicate StrandsReader(s: State, a: Act) {
    a.Write? && Strands(s, a.src, a.n, a.start, a.killAt)
  }

  /** ss are the states of a run, steps its calls, each by a process. */
  ghost predicate IsRun(ss: seq<State>, steps: seq<(int, Act)>) {
    && |ss| == |steps| + 1 && ss[0] == State([], 0, true, true, {}, {})
    && forall k :: 0 <= k < |steps| ==> IsStep(ss[k], steps[k], ss[k + 1])
  }

  ghost predicate IsStep(s: State, step: (int, Act), t: State) {
    Within(s) && Enabled(s, step.0, step.1) && t == Apply(s, step.0, step.1)
  }

  lemma StepWithin(s: State, step: (int, Act), t: State)
    requires IsStep(s, step, t)
    ensures Within(t) && t.accepted[..|s.accepted|] == s.accepted && s.consumed <= t.consumed
    ensures |s.accepted| <= |t.accepted|
  {
  }

  /** In every run the pipe holds at most PIPESIZE bytes, and never fewer than none. */
  lemma {:induction false} RunWithin(ss: seq<State>, steps: seq<(int, Act)>, k: int)
    requires IsRun(ss, steps) && 0 <= k < |ss|
    ensures Within(ss[k])
    decreases k
  {
    if k > 0 {
      assert IsStep(ss[k - 1], steps[k - 1], ss[k]);
      StepWithin(ss[k - 1], steps[k - 1], ss[k]);
    }
  }

  /** What the reads of the first k steps have delivered. */
  ghost function Output(ss: seq<State>, steps: seq<(int, Act)>, k: int): seq<int>
    requires IsRun(ss, steps) && 0 <= k < |ss|
    decreases k
  {
    if k == 0 then []
    else
      assert IsStep(ss[k - 1], steps[k - 1], ss[k]);
      Output(ss, steps, k - 1) + Got(ss[k - 1], steps[k - 1].1)
  }

  /** The places, in what was accepted, of the bytes those reads took out and could not deliver. */
  ghost function Lost(ss: seq<State>, steps: seq<(int, Act)>, k: int): set<int>
    requires |ss| == |steps| + 1 && 0 <= k < |ss|
    decreases k
  {
    if k == 0 then {}
    else Lost(ss, steps, k - 1) + (if LosesByte(ss[k - 1], steps[k - 1].1) then {ss[k].consumed - 1} else {})
  }

  /** s without the bytes at the places `lost`. */
  ghost function Kept(s: seq<int>, lost: set<int>): seq<int> {
    if s == [] then []
    else Kept(s[..|s| - 1], lost) + (if |s| - 1 in lost then [] else [s[|s| - 1]])
  }

  lemma {:induction false} KeptSame(s: seq<int>, a: set<int>, b: set<int>)
    requires forall x :: 0 <= x < |s| ==> (x in a <==> x in b)
    ensures Kept(s, a) == Kept(s, b)
    decreases |s|
  {
    if s != [] {
      KeptSame(s[..|s| - 1], a, b);
    }
  }

  lemma {:induction false} KeptAppend(s: seq<int>, t: seq<int>, lost: set<int>)
    requires forall x :: |s| <= x < |s| + |t| ==> x !in lost
    ensures Kept(s + t, lost) == Kept(s, lost) + t
    decreases |t|
  {
    if t == [] {
      assert s + t == s;
    } else {
      var n := |t| - 1;
      KeptAppend(s, t[..n], lost);
      assert (s + t)[..|s| + n] == s + t[..n];
      assert t == t[..n] + [t[n]];
    }
  }

  /** One more read: got is delivered, and the next byte lost or not. */
  lemma KeptStep(was: seq<int>, got: seq<int>, next: seq<int>, lost: set<int>, lost': set<int>)
    requires (forall x :: x in lost ==> 0 <= x < |was|) && |next| <= 1
    requires lost' == lost + (if next == [] then {} else {|was| + |got|})
    ensures Kept(was + got + next, lost') == Kept(was, lost) + got
  {
    KeptSame(was, lost, lost');
    KeptAppend(was, got, lost');
    var all := was + got;
    if next != [] {
      KeptDrops(all, next[0], lost');
      assert next == [next[0]];
    } else {
      hide Kept;
      assert all + next == all;
    }
  }

  lemma KeptDrops(s: seq<int>, x: int, lost: set<int>)
    requires |s| in lost
    ensures Kept(s + [x], lost) == Kept(s, lost)
  {
    assert (s + [x])[..|s|] == s;
  }

  lemma StepConsumes(s: State, step: (int, Act), t: State)
    requires IsStep(s, step, t)
    ensures t.consumed == s.consumed + |Got(s, step.1)| + (if LosesByte(s, step.1) then 1 else 0)
    ensures t.consumed <= |t.accepted|
    ensures Got(s, step.1) == t.accepted[s.consumed..s.consumed + |Got(s, step.1)|]
  {
  }

  /** out is what was taken out, without what was lost. */
  ghost predicate InOrder(s: State, out: seq<int>, lost: set<int>) {
    && Within(s) && out == Kept(s.accepted[..s.consumed], lost) && (forall x :: x in lost ==> 0 <= x < s.consumed)
    && |out| + |lost| == s.consumed
  }

  lemma InOrderStep(s: State, step: (int, Act), t: State, out: seq<int>, lost: set<int>)
    requires IsStep(s, step, t) && InOrder(s, out, lost)
    ensures InOrder(t, out + Got(s, step.1), lost + (if LosesByte(s, step.1) then {t.consumed - 1} else {}))
  {
    hide Apply, Got, LosesByte, Kept, Enabled;
    StepWithin(s, step, t);
    StepConsumes(s, step, t);
    var got, c := Got(s, step.1), s.consumed;
    var next := t.accepted[c + |got|..t.consumed];
    SplitAt(s.accepted, t.accepted, c, |got|);
    assert t.accepted[..t.consumed] == s.accepted[..c] + got + next;
    KeptStep(s.accepted[..c], got, next, lost, lost + (if next == [] then {} else {t.consumed - 1}));
  }

  lemma NoneLost(s: seq<int>)
    ensures Kept(s, {}) == s
  {
    KeptAppend([], s, {});
  }

  /** In every run the output is what was accepted and taken out, in order, without the bytes lost; with no loss it is
      all of that. */
  lemma {:induction false} Fifo(ss: seq<State>, steps: seq<(int, Act)>, k: int)
    requires IsRun(ss, steps) && 0 <= k < |ss|
    ensures InOrder(ss[k], Output(ss, steps, k), Lost(ss, steps, k))
    ensures Lost(ss, steps, k) == {} ==> Output(ss, steps, k) == ss[k].accepted[..ss[k].consumed]
    decreases k
  {
    hide Apply, Got, LosesByte, Enabled;
    if k > 0 {
      Fifo(ss, steps, k - 1);
      assert IsStep(ss[k - 1], steps[k - 1], ss[k]);
      InOrderStep(ss[k - 1], steps[k - 1], ss[k], Output(ss, steps, k - 1), Lost(ss, steps, k - 1));
    }
    NoneLost(ss[k].accepted[..ss[k].consumed]);
  }

  lemma SplitAt(a: seq<int>, b: seq<int>, c: int, n: int)
    requires |a| <= |b| && b[..|a|] == a && 0 <= c <= |a| && 0 <= n && c + n <= |b|
    ensures b[..c + n] == a[..c] + b[c..c + n]
  {
    assert forall i :: 0 <= i < c ==> b[i] == b[..|a|][i];
  }

  // ----- Closed ends

  lemma StepEnds(s: State, step: (int, Act), t: State)
    requires IsStep(s, step, t)
    ensures t.writeopen ==> s.writeopen
    ensures t.readopen ==> s.readopen
    ensures step.1 == Close(true) ==> !t.writeopen && t.readers == {}
    ensures step.1 == Close(false) ==> !t.readopen && t.writers == {}
  {
  }

  lemma {:induction false} StaysClosed(ss: seq<State>, steps: seq<(int, Act)>, j: int, k: int)
    requires IsRun(ss, steps) && 0 <= j < k < |ss|
    ensures steps[j].1 == Close(true) ==> !ss[k].writeopen
    ensures steps[j].1 == Close(false) ==> !ss[k].readopen
    decreases k
  {
    assert IsStep(ss[k - 1], steps[k - 1], ss[k]);
    StepEnds(ss[k - 1], steps[k - 1], ss[k]);
    if j < k - 1 {
      StaysClosed(ss, steps, j, k - 1);
    }
  }

  /** In every run, once the write end is closed no read sleeps or fails, and one of an empty pipe returns 0. */
  lemma EndOfFile(ss: seq<State>, steps: seq<(int, Act)>, j: int, k: int)
    requires IsRun(ss, steps) && 0 <= j < k < |steps| && steps[j].1 == Close(true) && steps[k].1.Read?
    ensures var s, a := ss[k], steps[k].1;
      && ReadOutcome(s, a.n, a.killed, a.room).Returned? && ReadOutcome(s, a.n, a.killed, a.room).r >= 0
      && ss[k + 1].readers == s.readers
      && (|s.accepted| == s.consumed ==> ReadOutcome(s, a.n, a.killed, a.room) == Returned(0))
  {
    StaysClosed(ss, steps, j, k);
    RunWithin(ss, steps, k);
    assert IsStep(ss[k], steps[k], ss[k + 1]);
  }

  /** In every run, once the read end is closed a write that has bytes left returns -1 and adds none. */
  lemma BrokenPipe(ss: seq<State>, steps: seq<(int, Act)>, j: int, k: int)
    requires IsRun(ss, steps) && 0 <= j < k < |steps| && steps[j].1 == Close(false) && steps[k].1.Write?
    requires steps[k].1.n > steps[k].1.start
    ensures var s, a := ss[k], steps[k].1;
      && WriteOutcome(s, a.src, a.n, a.start, a.killAt) == Returned(-1)
      && ss[k + 1].accepted == s.accepted && ss[k + 1].writers == s.writers
  {
    StaysClosed(ss, steps, j, k);
    RunWithin(ss, steps, k);
    assert IsStep(ss[k], steps[k], ss[k + 1]);
    var a := steps[k].1;
    WriteAt(ss[k], a.src, a.n, a.start, a.killAt, a.start);
    assert a.src[a.start..a.start] == [];
  }

  lemma StepJustified(s: State, step: (int, Act), t: State)
    requires IsStep(s, step, t) && Justified(s)
    ensures Justified(t) <==> !StrandsReader(s, step.1)
  {
    if step.1.Write? {
      StrandsWhen(s, step.0, step.1.src, step.1.n, step.1.start, step.1.killAt);
    }
  }

  /** In every run in which no killed writer strands a reader, a sleeping reader means an empty pipe with its write
      end open, and a sleeping writer a full one with its read end open. */
  lemma {:induction false} SleepersJustified(ss: seq<State>, steps: seq<(int, Act)>, k: int)
    requires IsRun(ss, steps) && 0 <= k < |ss|
    requires forall j :: 0 <= j < k ==> !StrandsReader(ss[j], steps[j].1)
    ensures Justified(ss[k])
    decreases k
  {
    if k > 0 {
      SleepersJustified(ss, steps, k - 1);
      assert IsStep(ss[k - 1], steps[k - 1], ss[k]);
      StepJustified(ss[k - 1], steps[k - 1], ss[k]);
    }
  }

  /** In every run, a process that is killed in its sleep, or otherwise roused, is awake, and nothing else changes. */
  lemma Roused(ss: seq<State>, steps: seq<(int, Act)>, k: int, pr: int)
    requires IsRun(ss, steps) && 0 <= k < |steps| && steps[k].1 == Rouse
    ensures var s, t := ss[k], ss[k + 1];
      && (pr in t.readers <==> pr in s.readers && pr != steps[k].0)
      && (pr in t.writers <==> pr in s.writers && pr != steps[k].0)
      && t == s.(readers := t.readers, writers := t.writers)
  {
    assert IsStep(ss[k], steps[k], ss[k + 1]);
  }

  /** Runs let a reader and a writer sleep, wake them, and close both ends. */
  lemma SomeRun() returns (ss: seq<State>, steps: seq<(int, Act)>)
    ensures IsRun(ss, steps) && |steps| == 7
    ensures ss[1].readers == {1} && ss[4].writers == {2} && Held(ss[4]) == PIPESIZE
    ensures Output(ss, steps, 3) == [7, 8] && !ss[7].readopen && !ss[7].writeopen
  {
    var many := seq(PIPESIZE + 1, _ => 9);
    var s0 := State([], 0, true, true, {}, {});
    var s1 := s0.(readers := {1});
    var s2 := s0.(accepted := [7, 8]);
    var s3 := s2.(consumed := 2);
    var s4 := s3.(accepted := [7, 8] + many[0..PIPESIZE], writers := {2});
    var s5 := s4.(writers := {});
    var s6 := s5.(readopen := false);
    var s7 := s6.(writeopen := false);
    ss := [s0, s1, s2, s3, s4, s5, s6, s7];
    steps := [(1, Read(1, false, -1)), (2, Write([7, 8], 2, 0, -1)), (1, Read(5, false, -1)),
              (2, Write(many, PIPESIZE + 1, 0, -1)), (2, Rouse), (1, Close(false)), (2, Close(true))];
    FirstSteps(s0, s1, s2, s3);
    LastSteps(s3, s4, s5, s6, s7, many);
    assert Output(ss, steps, 3) == [] + [] + [] + s2.accepted[0..2];
  }

  lemma FirstSteps(s0: State, s1: State, s2: State, s3: State)
    requires s0 == State([], 0, true, true, {}, {}) && s1 == s0.(readers := {1}) && s2 == s0.(accepted := [7, 8])
    requires s3 == s2.(consumed := 2)
    ensures IsStep(s0, (1, Read(1, false, -1)), s1) && IsStep(s1, (2, Write([7, 8], 2, 0, -1)), s2)
    ensures IsStep(s2, (1, Read(5, false, -1)), s3)
  {
    assert [] + [7, 8][0..2] == [7, 8];
  }

  lemma LastSteps(s3: State, s4: State, s5: State, s6: State, s7: State, many: seq<int>)
    requires s3 == State([7, 8], 2, true, true, {}, {}) && |many| == PIPESIZE + 1
    requires s4 == s3.(accepted := [7, 8] + many[0..PIPESIZE], writers := {2}) && s5 == s4.(writers := {})
    requires s6 == s5.(readopen := false) && s7 == s6.(writeopen := false)
    ensures IsStep(s3, (2, Write(many, PIPESIZE + 1, 0, -1)), s4) && IsStep(s4, (2, Rouse), s5)
    ensures IsStep(s5, (1, Close(false)), s6) && IsStep(s6, (2, Close(true)), s7)
  {
  }
}
