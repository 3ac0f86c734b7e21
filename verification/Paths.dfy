/**
 skipelem and namex of kernel/fs.c, against splitting the path at slashes and following the
 components one by one.
 */
module Paths {
  import opened Params
  import opened FsSpec
  import opened FsRoom
  import opened FsCode
  import opened Dirs
  import opened DirCode

  // ----- Components

  /** The parts of a path between slashes, empty ones included. */
  function Fields(path: string): (fs: seq<string>)
    ensures |fs| > 0
  {
    if path == [] then [""]
    else if path[0] == '/' then [""] + Fields(path[1..])
    else
      var fs := Fields(path[1..]);
      [[path[0]] + fs[0]] + fs[1..]
  }

  function NonEmpty(fs: seq<string>): (r: seq<string>) {
    if fs == [] then [] else if fs[0] == "" then NonEmpty(fs[1..]) else [fs[0]] + NonEmpty(fs[1..])
  }

  /** The non-empty parts. */
  function Components(path: string): seq<string> {
    NonEmpty(Fields(path))
  }

  lemma SlashSkipped(path: string)
    requires path != [] && path[0] == '/'
    ensures Components(path) == Components(path[1..])
  {
    assert Fields(path)[1..] == Fields(path[1..]);
  }

  /** A path that starts with a component of n bytes. */
  lemma {:induction false} FieldsSplit(path: string, n: int)
    requires 0 <= n <= |path| && (forall i :: 0 <= i < n ==> path[i] != '/') && (n == |path| || path[n] == '/')
    ensures Fields(path)[0] == path[..n]
    ensures Fields(path)[1..] == if n == |path| then [] else Fields(path[n + 1..])
    decreases n
  {
    if n == 0 {
      if path != [] {
        assert path[1..] == path[n + 1..];
      }
    } else {
      FieldsSplit(path[1..], n - 1);
      assert path[1..][..n - 1] == path[1..n];
      assert [path[0]] + path[1..n] == path[..n];
      if n < |path| {
        assert path[1..][n..] == path[n + 1..];
      }
    }
  }

  lemma ComponentsSplit(path: string, n: int)
    requires 0 < n <= |path| && (forall i :: 0 <= i < n ==> path[i] != '/') && (n == |path| || path[n] == '/')
    ensures Components(path) == [path[..n]] + Components(path[n..])
  {
    FieldsSplit(path, n);
    if n < |path| {
      SlashSkipped(path[n..]);
      assert path[n..][1..] == path[n + 1..];
    } else {
      assert path[n..] == [];
      assert Components([]) == [];
    }
  }

  /** skipelem: the next component, cut to DIRSIZ, and the path after it and its slashes. */
  method Skipelem(path: string) returns (ok: bool, name: string, rest: string)
    ensures ok <==> Components(path) != []
    ensures ok ==> name == Cut(Components(path)[0]) && Components(rest) == Components(path)[1..]
    ensures ok ==> (rest == [] <==> |Components(path)| == 1) && |rest| < |path|
    ensures ok && NoNul(path) ==> NoNul(name) && NoNul(rest)
  {
    hide Cut;
    ok, name, rest := false, [], path;
    rest := SkipSlashes(path);
    if rest == [] {
      assert Components([]) == [];
      return;
    }
    var n := 0;
    while n < |rest| && rest[n] != '/'
      invariant 0 <= n <= |rest| && forall i :: 0 <= i < n ==> rest[i] != '/'
    {
      n := n + 1;
    }
    ComponentsSplit(rest, n);
    var s := rest[..n];
    CutIs(s);
    name := if n >= DIRSIZ then s[..DIRSIZ] else s;
    ok := true;
    var tail := rest[n..];
    rest := SkipSlashes(tail);
    OnlySlashes(rest);
  }

  lemma CutIs(s: string)
    ensures Cut(s) == if |s| >= DIRSIZ then s[..DIRSIZ] else s
  {
  }

  method SkipSlashes(path: string) returns (rest: string)
    ensures Components(rest) == Components(path) && (rest == [] || rest[0] != '/') && |rest| <= |path|
    ensures NoNul(path) ==> NoNul(rest)
  {
    rest := path;
    while |rest| > 0 && rest[0] == '/'
      invariant Components(rest) == Components(path) && |rest| <= |path| && (NoNul(path) ==> NoNul(rest))
      decreases |rest|
    {
      SlashSkipped(rest);
      rest := rest[1..];
    }
  }

  lemma OnlySlashes(path: string)
    requires path == [] || path[0] != '/'
    ensures Components(path) == [] <==> path == []
  {
    if path != [] {
      assert Fields(path)[0] != "";
    }
  }

  // ----- Lookup

  /** Inodes: directories with their entries; every other inode is not a directory. */
  datatype Tree = Tree(dirs: map<int, seq<Dirent>>)

  /** The directories of the image are those of the tree, and their entries name inodes. */
  ghost predicate TreeHolds(g: Img, t: Tree)
    requires Shape(g)
  {
    && (forall d :: 0 <= d < |g.inodes| ==> (g.inodes[d].typ == T_DIR <==> d in t.dirs))
    && (forall d :: d in t.dirs ==>
          0 <= d < |g.inodes| && DirHolds(g, d, t.dirs[d]) && InodesNamed(t.dirs[d], |g.inodes|))
  }

  ghost predicate InodesNamed(es: seq<Dirent>, n: int) {
    forall i :: 0 <= i < |es| ==> 0 <= es[i].inum < n
  }

  lemma GrewTree(g: Img, h: Img, i: int, t: Tree)
    requires Shape(g) && Shape(h) && Grew(g, h, i) && TreeHolds(g, t)
    ensures TreeHolds(h, t)
  {
    hide Shape, DirHolds, FileBlock, Addr;
    forall d | d in t.dirs ensures DirHolds(h, d, t.dirs[d]) {
      GrewDir(g, h, i, d, t.dirs[d]);
    }
  }

  lemma TreeDir(g: Img, t: Tree, ip: int)
    requires Shape(g) && TreeHolds(g, t) && 0 <= ip < |g.inodes|
    ensures g.inodes[ip].typ == T_DIR <==> ip in t.dirs
    ensures ip in t.dirs ==> DirHolds(g, ip, t.dirs[ip]) && InodesNamed(t.dirs[ip], |g.inodes|)
  {
    hide Shape, DirHolds;
  }

  /** Every directory is free of holes. */
  ghost predicate NoDirHoles(g: Img, t: Tree)
    requires Shape(g)
  {
    forall d :: d in t.dirs && 0 <= d < |g.inodes| ==> NoHoles(g, d, g.inodes[d].size)
  }

  /** Following names from inode ip; 0 when one is missing or ip is not a directory. */
  ghost function Follow(t: Tree, ip: int, names: seq<string>): (r: int)
    decreases |names|
  {
    if names == [] then ip
    else if ip !in t.dirs || Cut(names[0]) !in AsMap(t.dirs[ip]) then 0
    else Follow(t, AsMap(t.dirs[ip])[Cut(names[0])], names[1..])
  }

  /** From ip, the names from k on lead where all of them lead from start; likewise without the last. */
  ghost predicate Followed(t: Tree, start: int, names: seq<string>, k: int, ip: int) {
    && 0 <= k <= |names| && Follow(t, start, names) == Follow(t, ip, names[k..])
    && (k < |names| ==> Follow(t, start, names[..|names| - 1]) == Follow(t, ip, names[k..|names| - 1]))
  }

  lemma FollowStarts(t: Tree, ip: int, names: seq<string>)
    ensures Followed(t, ip, names, 0, ip)
  {
    hide Follow;
    assert names[0..] == names;
    assert names != [] ==> names[0..|names| - 1] == names[..|names| - 1];
  }

  lemma FollowStep(t: Tree, start: int, names: seq<string>, k: int, ip: int)
    requires Followed(t, start, names, k, ip) && k < |names|
    ensures var dir := Follow(t, start, names[..|names| - 1]);
      && (k == |names| - 1 ==> dir == ip)
      && (if ip !in t.dirs || Cut(names[k]) !in AsMap(t.dirs[ip]) then
            Follow(t, start, names) == 0 && (k < |names| - 1 ==> dir == 0)
          else Followed(t, start, names, k + 1, AsMap(t.dirs[ip])[Cut(names[k])]))
  {
    hide Cut, AsMap;
    assert names[k..][1..] == names[k + 1..];
    if k < |names| - 1 {
      assert names[k..|names| - 1][1..] == names[k + 1..|names| - 1];
    } else {
      assert names[k..|names| - 1] == [];
    }
  }

  lemma FollowEnds(t: Tree, start: int, names: seq<string>, k: int, ip: int)
    requires Followed(t, start, names, k, ip) && names[k..] == []
    ensures Follow(t, start, names) == ip
  {
  }

  lemma CutTwice(name: string)
    ensures Cut(Cut(name)) == Cut(name)
  {
  }

  /** What namex returns: where the path leads, or the directory of its last element and that element. */
  ghost predicate NamexResult(t: Tree, start: int, names: seq<string>, parent: bool, r: int, name: string) {
    && (!parent ==> r == Follow(t, start, names))
    && (parent ==>
          if names == [] then r == 0
          else
            var dir := Follow(t, start, names[..|names| - 1]);
            if dir != 0 && dir in t.dirs then r == dir && name == Cut(names[|names| - 1]) else r == 0)
  }

  /** namex stops at element k: at something that is no directory, at the parent, or at a missing name. */
  lemma StopsAt(t: Tree, start: int, names: seq<string>, k: int, ip: int, parent: bool, name: string)
    requires Followed(t, start, names, k, ip) && 0 <= k < |names| && ip > 0
    ensures ip !in t.dirs ==> NamexResult(t, start, names, parent, 0, name)
    ensures ip in t.dirs && parent && k == |names| - 1 && name == Cut(names[k]) ==>
              NamexResult(t, start, names, parent, ip, name)
    ensures ip in t.dirs && Cut(names[k]) !in AsMap(t.dirs[ip]) && (parent ==> k < |names| - 1) ==>
              NamexResult(t, start, names, parent, 0, name)
    ensures ip in t.dirs && Cut(names[k]) in AsMap(t.dirs[ip]) ==>
              Followed(t, start, names, k + 1, AsMap(t.dirs[ip])[Cut(names[k])])
  {
    hide Cut, AsMap, Followed, Follow;
    FollowStep(t, start, names, k, ip);
  }

  lemma StopsEnd(t: Tree, start: int, names: seq<string>, k: int, ip: int, parent: bool, name: string)
    requires Followed(t, start, names, k, ip) && names[k..] == [] && (parent ==> names == [])
    ensures NamexResult(t, start, names, parent, if parent then 0 else ip, name)
  {
    hide Cut, AsMap, Followed, Follow;
    FollowEnds(t, start, names, k, ip);
  }

  lemma SameFilesTrans(g: Img, h: Img, m: Img, i: int)
    requires Shape(g) && Shape(h) && Shape(m) && SameFiles(g, h) && Grew(h, m, i)
    ensures SameFiles(g, m)
  {
    hide Shape, FileBlock, Addr;
  }

  // ----- What a path takes

  /** How far into each directory a path is read: `seen` blocks of each so far, and the rest along the names. */
  ghost function Visits(t: Tree, ip: int, names: seq<string>, parent: bool, seen: seq<int>): (r: seq<int>)
    ensures |r| == |seen| && forall d :: 0 <= d < |seen| ==> r[d] >= seen[d]
    decreases |names|
  {
    if !Looks(t, ip, names, parent, |seen|) then seen
    else if Cut(names[0]) !in AsMap(t.dirs[ip]) then Seen(t, ip, Cut(names[0]), seen)
    else Visits(t, AsMap(t.dirs[ip])[Cut(names[0])], names[1..], parent, Seen(t, ip, Cut(names[0]), seen))
  }

  /** namex looks the first name up in ip. */
  ghost predicate Looks(t: Tree, ip: int, names: seq<string>, parent: bool, n: int) {
    names != [] && ip in t.dirs && 0 <= ip < n && !(parent && |names| == 1)
  }

  ghost function Seen(t: Tree, ip: int, key: string, seen: seq<int>): (r: seq<int>)
    requires ip in t.dirs && 0 <= ip < |seen|
    ensures |r| == |seen| && forall d :: 0 <= d < |seen| ==> r[d] >= seen[d]
  {
    seen[ip := Max(seen[ip], DirBlocks(Scanned(t.dirs[ip], key)))]
  }

  ghost predicate Bounded(g: Img, seen: seq<int>) {
    |seen| <= |g.inodes| && forall d :: 0 <= d < |seen| ==> 0 <= seen[d] <= MAXFILE
  }

  /** What it takes to read that much of each directory. */
  ghost function Total(g: Img, seen: seq<int>): (n: int)
    requires Shape(g) && Bounded(g, seen)
    ensures n >= 0
    decreases |seen|
  {
    if seen == [] then 0
    else Total(g, seen[..|seen| - 1]) + Need(g, |seen| - 1, 0, seen[|seen| - 1])
  }

  ghost function Nothing(n: int): (r: seq<int>)
    requires 0 <= n
    ensures |r| == n && forall d :: 0 <= d < n ==> r[d] == 0
  {
    seq(n, _ => 0)
  }

  lemma {:induction false} TotalNothing(g: Img, seen: seq<int>)
    requires Shape(g) && Bounded(g, seen) && forall d :: 0 <= d < |seen| ==> seen[d] == 0
    ensures Total(g, seen) == 0
    decreases |seen|
  {
    hide Shape;
    if seen != [] {
      TotalNothing(g, seen[..|seen| - 1]);
    }
  }

  lemma {:induction false} TotalSet(g: Img, seen: seq<int>, d: int, b: int)
    requires Shape(g) && Bounded(g, seen) && 0 <= d < |seen| && 0 <= b <= MAXFILE
    ensures Bounded(g, seen[d := b])
    ensures Total(g, seen[d := b]) == Total(g, seen) - Need(g, d, 0, seen[d]) + Need(g, d, 0, b)
    decreases |seen|
  {
    hide Shape, Need;
    var n, r := |seen| - 1, seen[d := b];
    if d == n {
      assert r[..n] == seen[..n];
    } else {
      assert r[..n] == seen[..n][d := b];
      TotalSet(g, seen[..n], d, b);
    }
  }

  lemma {:induction false} TotalMonotone(g: Img, seen: seq<int>, more: seq<int>)
    requires Shape(g) && Bounded(g, seen) && Bounded(g, more) && |seen| == |more|
    requires forall d :: 0 <= d < |seen| ==> seen[d] <= more[d]
    ensures Total(g, seen) <= Total(g, more)
    decreases |seen|
  {
    hide Shape, Need;
    if seen != [] {
      var n := |seen| - 1;
      TotalMonotone(g, seen[..n], more[..n]);
      NeedMonotone(g, n, 0, seen[n], more[n]);
    }
  }

  /** On the way from g to h, that much of each directory was read, and nothing else taken. */
  ghost predicate Walked(g: Img, h: Img, t: Tree, seen: seq<int>)
    requires Shape(g) && Shape(h)
  {
    && Bounded(g, seen) && |seen| == |g.inodes| == |h.inodes| && SameFiles(g, h) && TreeHolds(g, t) && TreeHolds(h, t)
    && (forall d :: 0 <= d < |seen| ==> ReachedIn(g, h, d, 0, seen[d]))
    && Spare(h) == Spare(g) - Total(g, seen) && (NoDirHoles(g, t) ==> h == g)
  }

  lemma WalkStarts(g: Img, t: Tree)
    requires Shape(g) && TreeHolds(g, t)
    ensures Walked(g, g, t, Nothing(|g.inodes|))
  {
    hide Shape, TreeHolds, NoDirHoles, Need, Spare, Addr;
    SameFilesSelf(g);
    TotalNothing(g, Nothing(|g.inodes|));
  }

  lemma SeenBounded(g: Img, t: Tree, ip: int, key: string, seen: seq<int>)
    requires Shape(g) && TreeHolds(g, t) && Bounded(g, seen) && ip in t.dirs && 0 <= ip < |seen|
    ensures Bounded(g, Seen(t, ip, key, seen))
  {
    hide Shape, DirHolds, Scanned, DirBlocks;
    TreeDir(g, t, ip);
    DirBounds(g, ip, t.dirs[ip]);
    DirBlocksGrow(Scanned(t.dirs[ip], key), |t.dirs[ip]|);
  }

  lemma {:induction false} VisitsBounded(g: Img, t: Tree, ip: int, names: seq<string>, parent: bool, seen: seq<int>)
    requires Shape(g) && TreeHolds(g, t) && Bounded(g, seen)
    ensures Bounded(g, Visits(t, ip, names, parent, seen))
    decreases |names|
  {
    hide Shape, TreeHolds, AsMap, Cut, Seen;
    if Looks(t, ip, names, parent, |seen|) {
      SeenBounded(g, t, ip, Cut(names[0]), seen);
      if Cut(names[0]) in AsMap(t.dirs[ip]) {
        VisitsBounded(g, t, AsMap(t.dirs[ip])[Cut(names[0])], names[1..], parent, Seen(t, ip, Cut(names[0]), seen));
      }
    }
  }

  /** Reading on in one directory, past what was seen of it or not. */
  lemma ReadOn(g: Img, h: Img, k: Img, i: int, was: int, b: int)
    requires Shape(g) && Shape(h) && Shape(k) && ReachedIn(g, h, i, 0, was) && ReachedIn(h, k, i, 0, b) && Grew(h, k, i)
    ensures 0 <= i < |g.inodes| && 0 <= was <= MAXFILE && 0 <= b <= MAXFILE && ReachedIn(g, k, i, 0, Max(was, b))
    ensures Need(g, i, 0, Max(was, b)) == Need(g, i, 0, was) + Need(h, i, 0, b)
  {
    hide Shape, Addr, Need, SameFiles;
    if b >= was {
      ReachedJoin(g, h, k, i, 0, 0, was, b);
      NeedJoin(g, h, i, 0, 0, was, b);
    } else {
      NeedNone(h, i, 0, b);
      forall c | 0 <= c < was ensures Addr(k, i, SlotOf(c)) != 0 {
        assert Addr(h, i, SlotOf(c)) != 0;
      }
    }
  }

  /** One lookup more. */
  lemma WalkNext(g: Img, h: Img, k: Img, t: Tree, seen: seq<int>, ip: int, key: string)
    requires Shape(g) && Shape(h) && Shape(k) && Walked(g, h, t, seen) && ip in t.dirs && 0 <= ip < |seen|
    requires ScanDone(h, k, ip, t.dirs[ip], Scanned(t.dirs[ip], key), true) && TreeHolds(k, t)
    ensures Walked(g, k, t, Seen(t, ip, key, seen))
  {
    hide Shape, TreeHolds, NoDirHoles, DirHolds, Scanned, DirBlocks, Need, Spare, Addr, SameFiles, Full, NoHoles;
    hide ReachedIn, Total;
    var b, r := DirBlocks(Scanned(t.dirs[ip], key)), Seen(t, ip, key, seen);
    SameFilesTrans(g, h, k, ip);
    assert ReachedIn(g, h, ip, 0, seen[ip]);
    FilledBounds(h, k, ip, 0, b);
    ReadOn(g, h, k, ip, seen[ip], b);
    TotalSet(g, seen, ip, Max(seen[ip], b));
    forall d | 0 <= d < |r| ensures ReachedIn(g, k, d, 0, r[d]) {
      if d != ip {
        assert ReachedIn(g, h, d, 0, seen[d]);
        OthersReached(g, h, k, ip, d, 0, seen[d], b);
      }
    }
    DirDense(g, h, t, ip);
  }

  lemma OthersReached(g: Img, h: Img, k: Img, ip: int, d: int, lo: int, hi: int, b: int)
    requires Shape(g) && Shape(h) && Shape(k) && ReachedIn(g, h, d, lo, hi) && Filled(h, k, ip, 0, b) && d != ip
    ensures ReachedIn(g, k, d, lo, hi)
  {
    hide Shape, Addr, Need, Spare;
  }

  lemma DirDense(g: Img, h: Img, t: Tree, ip: int)
    requires Shape(g) && Shape(h) && ip in t.dirs && 0 <= ip < |g.inodes| == |h.inodes|
    ensures NoDirHoles(g, t) && h == g ==> NoHoles(h, ip, h.inodes[ip].size)
  {
    hide Shape, NoHoles;
  }

  /** A lookup that panics shows that no path through it can be followed. */
  lemma WalkFails(g: Img, h: Img, k: Img, t: Tree, seen: seq<int>, ip: int, key: string, all: seq<int>)
    requires Shape(g) && Shape(h) && Shape(k) && Walked(g, h, t, seen) && ip in t.dirs && 0 <= ip < |seen|
    requires ScanDone(h, k, ip, t.dirs[ip], Scanned(t.dirs[ip], key), false)
    requires Bounded(g, all) && |all| == |seen|
      && forall d :: 0 <= d < |seen| ==> Seen(t, ip, key, seen)[d] <= all[d]
    ensures Total(g, all) > Spare(g) && !NoDirHoles(g, t) && SameFiles(g, k)
  {
    hide Shape, TreeHolds, NoDirHoles, DirHolds, Scanned, DirBlocks, Need, Spare, Addr, SameFiles, Full, NoHoles;
    hide ReachedIn, Total;
    var b := DirBlocks(Scanned(t.dirs[ip], key));
    DirBounds(h, ip, t.dirs[ip]);
    DirBlocksGrow(Scanned(t.dirs[ip], key), |t.dirs[ip]|);
    SameFilesTrans(g, h, k, ip);
    SeenBounded(g, t, ip, key, seen);
    assert ReachedIn(g, h, ip, 0, seen[ip]);
    NeedMore(g, h, ip, seen[ip], b);
    TotalSet(g, seen, ip, Max(seen[ip], b));
    TotalMonotone(g, Seen(t, ip, key, seen), all);
    DirDense(g, h, t, ip);
  }

  lemma NeedMore(g: Img, h: Img, i: int, was: int, b: int)
    requires Shape(g) && Shape(h) && ReachedIn(g, h, i, 0, was) && 0 <= b <= MAXFILE
    ensures 0 <= i < |g.inodes| == |h.inodes| && 0 <= was <= MAXFILE
    ensures Need(g, i, 0, Max(was, b)) == Need(g, i, 0, was) + Need(h, i, 0, b)
  {
    hide Shape, Addr, Need;
    if b >= was {
      NeedJoin(g, h, i, 0, 0, was, b);
    } else {
      NeedNone(h, i, 0, b);
    }
  }

  /** From ip, the names from k on are looked up as all of them are from start. */
  ghost predicate Visiting(t: Tree, start: int, names: seq<string>, parent: bool, k: int, ip: int, seen: seq<int>) {
    && 0 <= k <= |names|
    && Visits(t, start, names, parent, Nothing(|seen|)) == Visits(t, ip, names[k..], parent, seen)
  }

  lemma VisitStarts(t: Tree, start: int, names: seq<string>, parent: bool, n: int)
    requires 0 <= n
    ensures Visiting(t, start, names, parent, 0, start, Nothing(n))
  {
    hide Visits, Nothing;
    assert names[0..] == names;
  }

  /** A lookup of name k, or the end of the path. */
  lemma VisitNext(t: Tree, start: int, names: seq<string>, parent: bool, k: int, ip: int, seen: seq<int>)
    requires Visiting(t, start, names, parent, k, ip, seen)
    ensures var all := Visits(t, start, names, parent, Nothing(|seen|));
      && |all| == |seen|
      && if !Looks(t, ip, names[k..], parent, |seen|) then all == seen
         else
           && (forall d :: 0 <= d < |seen| ==> Seen(t, ip, Cut(names[k]), seen)[d] <= all[d])
           && if Cut(names[k]) !in AsMap(t.dirs[ip]) then all == Seen(t, ip, Cut(names[k]), seen)
              else
                var next := AsMap(t.dirs[ip])[Cut(names[k])];
                Visiting(t, start, names, parent, k + 1, next, Seen(t, ip, Cut(names[k]), seen))
  {
    hide AsMap, Cut, Nothing;
    if k < |names| {
      assert names[k..][0] == names[k] && names[k..][1..] == names[k + 1..];
    }
  }

  /** What a path takes: the holes in what is read of the directories on it. */
  ghost function PathNeed(g: Img, t: Tree, start: int, names: seq<string>, parent: bool): int
    requires Shape(g) && TreeHolds(g, t)
  {
    VisitsBounded(g, t, start, names, parent, Nothing(|g.inodes|));
    Total(g, Visits(t, start, names, parent, Nothing(|g.inodes|)))
  }

  lemma WalkEnds(g: Img, h: Img, t: Tree, seen: seq<int>)
    requires Shape(g) && Shape(h) && Walked(g, h, t, seen)
    ensures Bounded(g, seen) && Total(g, seen) <= Spare(g) && SameFiles(g, h) && TreeHolds(h, t)
      && |seen| == |h.inodes|
    ensures NoDirHoles(g, t) ==> h == g
  {
    hide Shape, TreeHolds, NoDirHoles, ReachedIn, SameFiles, Spare, Need;
  }

  /** namex: the inode of a path, or with `parent` that of its last directory and the last name.  Not ok is
      dirlookup's panic: the directories on the path take more blocks than are free. */
  method Namex(fs: FileSystem, cwd: int, path: string, parent: bool, ghost t: Tree)
    returns (ok: bool, r: int, name: string)
    requires fs.Ok() && TreeHolds(fs.G(), t) && NoNul(path) && 0 < cwd < |fs.inodes| && ROOTINO < |fs.inodes|
    modifies fs`blocks, fs`inodes, fs`owner, fs`logged
    ensures fs.Ok() && SameFiles(old(fs.G()), fs.G()) && TreeHolds(fs.G(), t)
    ensures var start := if path != [] && path[0] == '/' then ROOTINO else cwd;
      && (ok <==> PathNeed(old(fs.G()), t, start, Components(path), parent) <= Spare(old(fs.G())))
      && (ok ==> NamexResult(t, start, Components(path), parent, r, name))
    ensures old(NoDirHoles(fs.G(), t)) ==> ok && fs.G() == old(fs.G())
  {
    hide FileSystem.Ok, FileSystem.G, Cut, AsMap, Components, Follow, Followed, NamexResult, Shape, SameFiles;
    hide TreeHolds, NoDirHoles, Walked, Visiting, Visits, Seen, Total, Spare, Nothing;
    fs.OkShape();
    var ip := if |path| > 0 && path[0] == '/' then ROOTINO else cwd;
    ghost var start, names, k, g := ip, Components(path), 0, fs.G();
    ghost var seen := Nothing(|g.inodes|);
    ghost var all := Visits(t, start, names, parent, seen);
    var rest := path;
    ok, r, name := true, 0, [];
    FollowStarts(t, ip, names);
    VisitStarts(t, ip, names, parent, |g.inodes|);
    VisitsBounded(g, t, start, names, parent, seen);
    WalkStarts(g, t);
    while true
      invariant NoNul(rest) && 0 <= k <= |names| && Components(rest) == names[k..] && 0 < ip < |fs.inodes|
      invariant Followed(t, start, names, k, ip) && (parent && names != [] ==> k < |names|)
      invariant Visiting(t, start, names, parent, k, ip, seen)
      invariant fs.Ok() && |fs.inodes| == |g.inodes| == |seen| && Shape(fs.G()) && Walked(g, fs.G(), t, seen)
      decreases |rest|
    {
      var some, elem, more := Skipelem(rest);
      VisitNext(t, start, names, parent, k, ip, seen);
      WalkEnds(g, fs.G(), t, seen);
      if !some {
        break;
      }
      name, rest := elem, more;
      StopsAt(t, start, names, k, ip, parent, name);
      fs.OkShape();
      TreeDir(fs.G(), t, ip);
      if fs.inodes[ip].typ != T_DIR {
        return true, 0, name;
      }
      if parent && |rest| == 0 {
        return true, ip, name;
      }
      var next;
      CutTwice(names[k]);
      ok, next := Lookup(fs, ip, name, t, g, seen, all);
      if !ok {
        return;
      }
      seen := Seen(t, ip, Cut(names[k]), seen);
      fs.OkShape();
      if next == 0 {
        WalkEnds(g, fs.G(), t, seen);
        return true, 0, name;
      }
      ip := next;
      k := k + 1;
    }
    StopsEnd(t, start, names, k, ip, parent, name);
    r := if parent then 0 else ip;
  }

  /** One lookup on the way, in the file system that started as g; `all` is what the whole path reads. */
  method Lookup(fs: FileSystem, ip: int, name: string, ghost t: Tree, ghost g: Img, ghost seen: seq<int>,
                ghost all: seq<int>)
    returns (ok: bool, next: int)
    requires fs.Ok() && Shape(g) && ip in t.dirs && 0 <= ip < |seen| && NoNul(name) && Walked(g, fs.G(), t, seen)
    requires Bounded(g, all) && |all| == |seen|
      && forall d :: 0 <= d < |seen| ==> Seen(t, ip, Cut(name), seen)[d] <= all[d]
    modifies fs`blocks, fs`inodes, fs`owner, fs`logged
    ensures fs.Ok() && |fs.inodes| == old(|fs.inodes|) && SameFiles(g, fs.G()) && TreeHolds(fs.G(), t)
    ensures ok ==> Walked(g, fs.G(), t, Seen(t, ip, Cut(name), seen))
    ensures ok ==> 0 <= next < |fs.inodes| && (next != 0 <==> Cut(name) in AsMap(t.dirs[ip]))
    ensures ok && next != 0 ==> next == AsMap(t.dirs[ip])[Cut(name)]
    ensures !ok ==> Total(g, all) > Spare(g) && !NoDirHoles(g, t)
  {
    hide FileSystem.Ok, FileSystem.G, Cut, AsMap, Shape, SameFiles, TreeHolds, NoDirHoles, DirHolds, Walked, Seen;
    hide Total, Spare, ScanDone, Scanned;
    fs.OkShape();
    ghost var h := fs.G();
    WalkEnds(g, h, t, seen);
    TreeDir(h, t, ip);
    var i;
    ok, next, i := Dirlookup(fs, ip, name, t.dirs[ip]);
    fs.OkShape();
    LookupGrew(h, fs.G(), ip, t, Scanned(t.dirs[ip], Cut(name)), ok);
    if ok {
      WalkNext(g, h, fs.G(), t, seen, ip, Cut(name));
      WalkEnds(g, fs.G(), t, Seen(t, ip, Cut(name), seen));
    } else {
      WalkFails(g, h, fs.G(), t, seen, ip, Cut(name), all);
    }
    SomeInode(t.dirs[ip], |fs.inodes|);
  }

  lemma LookupGrew(g: Img, h: Img, ip: int, t: Tree, n: int, ok: bool)
    requires Shape(g) && Shape(h) && TreeHolds(g, t) && ip in t.dirs && ScanDone(g, h, ip, t.dirs[ip], n, ok)
    ensures TreeHolds(h, t) && |h.inodes| == |g.inodes|
  {
    hide Shape, TreeHolds, DirHolds, Grew, Filled, Full, Need, Spare, NoHoles;
    GrewTree(g, h, ip, t);
  }

  lemma SomeInode(es: seq<Dirent>, n: int)
    requires InodesNamed(es, n)
    ensures forall i, key :: Holds(es, i, key) ==> 0 <= es[i].inum < n
  {
  }

  lemma SameFilesSelf(g: Img)
    requires Shape(g)
    ensures SameFiles(g, g)
  {
  }
}
