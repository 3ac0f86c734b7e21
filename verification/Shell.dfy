/**
 The parser of user/sh.c: a cursor moving over the line, words as pairs of positions, and the NULs that
 nulterminate writes behind them.
 */
module Shell {
  import opened Params
  import opened ShellSpec

  /** A word of the line: from q up to eq. */
  datatype Span = Span(q: int, eq: int)

  datatype Cmd =
    | CExec(argv: seq<Span>)
    | CRedir(sub: Cmd, file: Span, mode: Mode)
    | CPipe(left: Cmd, right: Cmd)
    | CList(first: Cmd, second: Cmd)
    | CBack(job: Cmd)

  /** All of the span are word characters, and none follows. */
  ghost predicate SpanOk(s: string, w: Span) {
    && 0 <= w.q <= w.eq <= |s| && (forall i :: w.q <= i < w.eq ==> IsWord(s[i]))
    && (w.eq < |s| ==> !IsWord(s[w.eq]))
  }

  ghost predicate SpansOk(s: string, ws: seq<Span>) {
    forall i :: 0 <= i < |ws| ==> SpanOk(s, ws[i])
  }

  ghost predicate CmdOk(s: string, c: Cmd) {
    match c
    case CExec(argv) => SpansOk(s, argv)
    case CRedir(sub, file, mode) => CmdOk(s, sub) && SpanOk(s, file)
    case CPipe(l, r) => CmdOk(s, l) && CmdOk(s, r)
    case CList(l, r) => CmdOk(s, l) && CmdOk(s, r)
    case CBack(j) => CmdOk(s, j)
  }

  function Text(s: string, w: Span): string {
    if 0 <= w.q <= w.eq <= |s| then s[w.q..w.eq] else []
  }

  function Texts(s: string, ws: seq<Span>): (r: seq<string>)
    ensures |r| == |ws|
  {
    if ws == [] then [] else Texts(s, ws[..|ws| - 1]) + [Text(s, ws[|ws| - 1])]
  }

  /** The tree a command stands for. */
  function TreeOf(s: string, c: Cmd): Tree {
    match c
    case CExec(argv) => Exec(Texts(s, argv))
    case CRedir(sub, file, mode) => Redir(TreeOf(s, sub), Text(s, file), mode)
    case CPipe(l, r) => Pipe(TreeOf(s, l), TreeOf(s, r))
    case CList(l, r) => List(TreeOf(s, l), TreeOf(s, r))
    case CBack(j) => Back(TreeOf(s, j))
  }

  /** What is left of the line. */
  function Rest(s: string, p: int): string {
    if 0 <= p <= |s| then s[p..] else []
  }

  // ----- Tokens

  lemma SkipAt(s: string, p: int)
    requires 0 <= p <= |s|
    ensures p < |s| && IsSpace(s[p]) ==> Skip(Rest(s, p)) == Skip(Rest(s, p + 1))
    ensures !(p < |s| && IsSpace(s[p])) ==> Skip(Rest(s, p)) == Rest(s, p)
  {
    if p < |s| {
      assert s[p..][1..] == s[p + 1..];
    }
  }

  method SkipSpaces(s: string, p: int) returns (r: int)
    requires 0 <= p <= |s|
    ensures p <= r <= |s| && Rest(s, r) == Skip(Rest(s, p)) && (r < |s| ==> !IsSpace(s[r]))
  {
    hide Skip, Rest;
    r := p;
    SkipAt(s, r);
    while r < |s| && IsSpace(s[r])
      invariant p <= r <= |s| && Skip(Rest(s, r)) == Skip(Rest(s, p))
    {
      SkipAt(s, r);
      r := r + 1;
    }
    SkipAt(s, r);
  }

  method PeekAt(s: string, p: int, toks: set<char>) returns (b: bool, r: int)
    requires 0 <= p <= |s|
    ensures p <= r <= |s| && Rest(s, r) == Skip(Rest(s, p)) && b == Peek(Rest(s, p), toks)
  {
    hide Skip;
    r := SkipSpaces(s, p);
    b := r < |s| && s[r] != NUL && s[r] in toks;
  }

  /** The token after p is kind, with word w, and ends at e. */
  ghost predicate TokenTo(s: string, p: int, kind: char, w: Span, e: int) {
    && GetToken(Rest(s, p)) == Token(kind, if kind == 'a' then Text(s, w) else [], Skip(Rest(s, e)))
    && (kind == 'a' ==> SpanOk(s, w))
  }

  /** gettoken */
  method Gettoken(s: string, p: int) returns (kind: char, w: Span, r: int)
    requires 0 <= p <= |s|
    ensures p <= r <= |s| && GetToken(Rest(s, p)) == Token(kind, if kind == 'a' then Text(s, w) else [], Rest(s, r))
    ensures kind == 'a' ==> SpanOk(s, w)
  {
    hide *;
    var u := SkipSpaces(s, p);
    var e := u;
    w := Span(u, u);
    if u == |s| || s[u] == NUL {
      kind := NUL;
      NoToken(s, p, u);
    } else {
      kind := s[u];
      if s[u] == '>' {
        e := u + 1;
        if e < |s| && s[e] == '>' {
          kind := '+';
          e := e + 1;
        }
        AngleToken(s, p, u);
      } else if IsSymbol(s[u]) {
        e := u + 1;
        SymbolToken(s, p, u);
      } else {
        kind := 'a';
        SpaceOrWord(s[u]);
        e := WordEnd(s, u);
        w := Span(u, e);
        WordAt(s, p, u, e);
      }
    }
    r := SkipSpaces(s, e);
    TokenDone(s, p, kind, w, e, r);
  }

  lemma TokenDone(s: string, p: int, kind: char, w: Span, e: int, r: int)
    requires TokenTo(s, p, kind, w, e) && Rest(s, r) == Skip(Rest(s, e))
    ensures GetToken(Rest(s, p)) == Token(kind, if kind == 'a' then Text(s, w) else [], Rest(s, r))
    ensures kind == 'a' ==> SpanOk(s, w)
  {
    hide GetToken, Skip, Rest, Text, SpanOk;
  }

  lemma SpaceOrWord(c: char)
    ensures !IsSpace(c) && !IsSymbol(c) && c != NUL ==> IsWord(c)
  {
  }

  lemma NoToken(s: string, p: int, u: int)
    requires 0 <= p <= u <= |s| && Rest(s, u) == Skip(Rest(s, p)) && (u == |s| || s[u] == NUL)
    ensures TokenTo(s, p, NUL, Span(u, u), u)
  {
    SkipOnce(Rest(s, u));
    hide Skip, WordLen, IsSymbol, IsSpace;
  }

  lemma AngleToken(s: string, p: int, u: int)
    requires 0 <= p <= u < |s| && Rest(s, u) == Skip(Rest(s, p)) && s[u] == '>'
    ensures u + 1 < |s| && s[u + 1] == '>' ==> TokenTo(s, p, '+', Span(u, u), u + 2)
    ensures !(u + 1 < |s| && s[u + 1] == '>') ==> TokenTo(s, p, '>', Span(u, u), u + 1)
  {
    hide Skip, WordLen, IsSymbol, IsSpace;
    assert Rest(s, u)[1..] == Rest(s, u + 1);
    assert u + 1 < |s| ==> Rest(s, u)[2..] == Rest(s, u + 2) && Rest(s, u)[1] == s[u + 1];
  }

  lemma SymbolToken(s: string, p: int, u: int)
    requires 0 <= p <= u < |s| && Rest(s, u) == Skip(Rest(s, p)) && s[u] != '>' && IsSymbol(s[u])
    ensures TokenTo(s, p, s[u], Span(u, u), u + 1)
  {
    assert s[u] != NUL && s[u] != 'a';
    hide Skip, WordLen, IsSymbol, IsSpace;
    assert Rest(s, u)[1..] == Rest(s, u + 1);
  }

  lemma WordAt(s: string, p: int, u: int, e: int)
    requires 0 <= p <= u < e <= |s| && Rest(s, u) == Skip(Rest(s, p)) && SpanOk(s, Span(u, e))
    ensures TokenTo(s, p, 'a', Span(u, e), e)
  {
    assert IsWord(s[u]) && Rest(s, u)[0] == s[u];
    LenIs(s, u, e);
    hide Skip, WordLen, IsSpace;
    assert Rest(s, u)[e - u..] == Rest(s, e) && Rest(s, u)[..e - u] == s[u..e];
  }

  method WordEnd(s: string, u: int) returns (e: int)
    requires 0 <= u < |s| && IsWord(s[u])
    ensures u < e <= |s| && SpanOk(s, Span(u, e))
  {
    e := u;
    while e < |s| && IsWord(s[e])
      invariant u <= e <= |s| && (forall i :: u <= i < e ==> IsWord(s[i]))
    {
      e := e + 1;
    }
  }

  lemma LenIs(s: string, u: int, e: int)
    requires 0 <= u <= e <= |s| && (forall i :: u <= i < e ==> IsWord(s[i])) && (e < |s| ==> !IsWord(s[e]))
    ensures WordLen(Rest(s, u)) == e - u
  {
    assert Rest(s, u) == s[u..e] + s[e..];
    WordLenOf(s[u..e], s[e..]);
  }

  // ----- The parser

  /** A redirection as the parser keeps it. */
  datatype Mark = Mark(file: Span, mode: Mode)

  function Redirected(s: string, ms: seq<Mark>): (rs: seq<Redirect>)
    ensures |rs| == |ms|
  {
    if ms == [] then [] else Redirected(s, ms[..|ms| - 1]) + [Redirect(Text(s, ms[|ms| - 1].file), ms[|ms| - 1].mode)]
  }

  function WrapCmd(c: Cmd, ms: seq<Mark>): Cmd
    decreases |ms|
  {
    if ms == [] then c else CRedir(WrapCmd(c, ms[..|ms| - 1]), ms[|ms| - 1].file, ms[|ms| - 1].mode)
  }

  ghost predicate MarksOk(s: string, ms: seq<Mark>) {
    forall i :: 0 <= i < |ms| ==> SpanOk(s, ms[i].file)
  }

  lemma {:induction false} Wrapped(s: string, c: Cmd, ms: seq<Mark>)
    ensures TreeOf(s, WrapCmd(c, ms)) == Wrap(TreeOf(s, c), Redirected(s, ms))
    ensures CmdOk(s, c) && MarksOk(s, ms) ==> CmdOk(s, WrapCmd(c, ms))
    decreases |ms|
  {
    hide Text;
    if ms != [] {
      var n := |ms| - 1;
      Wrapped(s, c, ms[..n]);
      assert Redirected(s, ms)[..n] == Redirected(s, ms[..n]);
    }
  }

  lemma MarkAdded(s: string, ms: seq<Mark>, m: Mark)
    ensures Redirected(s, ms + [m]) == Redirected(s, ms) + [Redirect(Text(s, m.file), m.mode)]
  {
    assert (ms + [m])[..|ms|] == ms;
  }

  lemma ArgAdded(s: string, ws: seq<Span>, w: Span)
    ensures Texts(s, ws + [w]) == Texts(s, ws) + [Text(s, w)]
  {
    assert (ws + [w])[..|ws|] == ws;
  }

  lemma SkipToken(z: string)
    ensures GetToken(Skip(z)) == GetToken(z) && Skip(Skip(z)) == Skip(z)
      && forall toks :: Peek(Skip(z), toks) == Peek(z, toks)
  {
    hide Skip, WordLen;
    SkipOnce(Skip(z));
  }

  lemma RestLen(s: string, r: int)
    requires 0 <= r <= |s|
    ensures |Rest(s, r)| == |s| - r
  {
  }

  /** parseredirs, after the redirections already found.  ok is false for its panic. */
  method Parseredirs(s: string, start: seq<Mark>, p: int) returns (ok: bool, ms: seq<Mark>, r: int)
    requires 0 <= p <= |s| && MarksOk(s, start)
    ensures p <= r <= |s| && MarksOk(s, ms)
    ensures ParseRedirs(Redirected(s, start), Rest(s, p)) ==
        if ok then Redirs(Redirected(s, ms), Rest(s, r)) else BadRedir
  {
    hide ParseRedirs, Peek, GetToken, Skip, Rest, Text, SpanOk, Redirected;
    ok, ms, r := true, start, p;
    while true
      invariant p <= r <= |s| && MarksOk(s, ms) && ok
      invariant ParseRedirs(Redirected(s, ms), Rest(s, r)) == ParseRedirs(Redirected(s, start), Rest(s, p))
      decreases |s| - r
    {
      RedirsOf(Redirected(s, ms), Rest(s, r));
      SkipToken(Rest(s, r));
      var b, r0 := PeekAt(s, r, {'<', '>'});
      if !b {
        r := r0;
        break;
      }
      var tok, w0, r1 := Gettoken(s, r0);
      var kind, w, r2 := Gettoken(s, r1);
      if kind != 'a' {
        return false, ms, r2;
      }
      MarkAdded(s, ms, Mark(w, ModeOf(tok)));
      RestLen(s, r1);
      RestLen(s, r2);
      ms, r := ms + [Mark(w, ModeOf(tok))], r2;
    }
  }

  datatype Parsed = NoCmd | Parsed(cmd: Cmd)

  /** What a parsing method promises: the tree of its command is the one the grammar gives. */
  ghost predicate Agrees(s: string, q: Result, c: Parsed, r: int) {
    && 0 <= r <= |s| && (c.NoCmd? <==> q.Fail?)
    && (c.Parsed? ==> CmdOk(s, c.cmd) && q == Ok(TreeOf(s, c.cmd), Rest(s, r)))
  }

  /** The loop of parseexec. */
  method Parseargs(s: string, start: seq<Mark>, p: int) returns (c: Parsed, r: int)
    requires 0 <= p <= |s| && MarksOk(s, start)
    ensures p <= r && Agrees(s, ParseArgs([], Redirected(s, start), Rest(s, p)), c, r)
  {
    hide ParseArgs, ParseRedirs, Peek, GetToken, Skip, Rest, Text, SpanOk, Redirected, Wrap;
    var argv, ms := [], start;
    r := p;
    while true
      invariant p <= r <= |s| && MarksOk(s, ms) && SpansOk(s, argv)
      invariant ParseArgs(Texts(s, argv), Redirected(s, ms), Rest(s, r)) ==
          ParseArgs([], Redirected(s, start), Rest(s, p))
      decreases |s| - r
    {
      ArgsOf(Texts(s, argv), Redirected(s, ms), Rest(s, r));
      SkipToken(Rest(s, r));
      Wrapped(s, CExec(argv), ms);
      var b, r0 := PeekAt(s, r, {'|', ')', '&', ';'});
      if b {
        return Parsed(WrapCmd(CExec(argv), ms)), r0;
      }
      var kind, w, r1 := Gettoken(s, r0);
      if kind == NUL {
        return Parsed(WrapCmd(CExec(argv), ms)), r1;
      }
      if kind != 'a' {
        return NoCmd, r1;
      }
      ArgAdded(s, argv, w);
      argv := argv + [w];
      if |argv| >= MAXARGS {
        return NoCmd, r1;
      }
      RestLen(s, r0);
      RestLen(s, r1);
      var ok;
      ok, ms, r := Parseredirs(s, ms, r1);
      if !ok {
        return NoCmd, r;
      }
    }
  }

  method Parseexec(s: string, p: int) returns (c: Parsed, r: int)
    requires 0 <= p <= |s|
    ensures p <= r && Agrees(s, ParseExec(Rest(s, p)), c, r)
    decreases |s| - p, 1
  {
    hide ParseExec, ParseBlock, ParseArgs, ParseRedirs, Peek, Skip, Rest, Agrees;
    ExecOf(Rest(s, p));
    SkipToken(Rest(s, p));
    var b, r0 := PeekAt(s, p, {'('});
    if b {
      SkipBlock(Rest(s, p));
      c, r := Parseblock(s, r0);
      return;
    }
    var ok, ms, r1 := Parseredirs(s, [], r0);
    SkipSkip(Rest(s, p));
    if !ok {
      Failed(s, r1);
      return NoCmd, r1;
    }
    c, r := Parseargs(s, ms, r1);
  }

  lemma Failed(s: string, r: int)
    requires 0 <= r <= |s|
    ensures Agrees(s, Fail, NoCmd, r)
  {
  }

  lemma SkipBlock(z: string)
    requires Peek(z, {'('})
    ensures Peek(Skip(z), {'('}) && ParseBlock(Skip(z)) == ParseBlock(z)
  {
    hide ParseBlock, ParseLine, ParseRedirs, Peek, Skip, GetToken, Wrap;
    SkipToken(z);
    BlockOf(z);
    BlockOf(Skip(z));
  }

  method Parseblock(s: string, p: int) returns (c: Parsed, r: int)
    requires 0 <= p <= |s| && Peek(Rest(s, p), {'('})
    ensures p <= r && Agrees(s, ParseBlock(Rest(s, p)), c, r)
    decreases |s| - p, 0
  {
    hide ParseBlock, ParseLine, ParseRedirs, Peek, Skip, Rest, GetToken, Wrap, CmdOk, TreeOf;
    BlockOf(Rest(s, p));
    var kind, w, r0 := Gettoken(s, p);
    AfterShorter(s, p, r0, {'('});
    var line, r1 := Parseline(s, r0);
    r := r1;
    if line.NoCmd? {
      return NoCmd, r;
    }
    var b;
    SkipToken(Rest(s, r1));
    b, r := PeekAt(s, r1, {')'});
    if !b {
      return NoCmd, r;
    }
    ghost var r2 := r;
    kind, w, r := Gettoken(s, r);
    AfterIs(s, r1, r2, r, {')'});
    var ok, ms;
    ok, ms, r := Parseredirs(s, [], r);
    if !ok {
      return NoCmd, r;
    }
    Wrapped(s, line.cmd, ms);
    c := Parsed(WrapCmd(line.cmd, ms));
  }

  /** Taking the token just seen. */
  lemma AfterShorter(s: string, p: int, r: int, toks: set<char>)
    requires 0 <= p <= |s| && 0 <= r <= |s| && Peek(Rest(s, p), toks) && GetToken(Rest(s, p)).rest == Rest(s, r)
    ensures After(Rest(s, p), toks) == Rest(s, r) && p < r
  {
    RestLen(s, p);
    RestLen(s, r);
  }

  lemma AfterIs(s: string, p: int, q: int, r: int, toks: set<char>)
    requires 0 <= p <= q <= |s| && 0 <= r <= |s| && Rest(s, q) == Skip(Rest(s, p)) && Peek(Rest(s, p), toks)
    requires GetToken(Rest(s, q)).rest == Rest(s, r)
    ensures After(Rest(s, p), toks) == Rest(s, r) && p < r
  {
    hide Skip, GetToken, Peek, Rest;
    SkipToken(Rest(s, p));
    AfterShorter(s, p, r, toks);
  }

  method Parsepipe(s: string, p: int) returns (c: Parsed, r: int)
    requires 0 <= p <= |s|
    ensures p <= r && Agrees(s, ParsePipe(Rest(s, p)), c, r)
    decreases |s| - p, 2
  {
    hide ParseExec, ParsePipe, Peek, Skip, Rest, GetToken;
    PipeOf(Rest(s, p));
    var r1;
    c, r1 := Parseexec(s, p);
    r := r1;
    if c.NoCmd? {
      return;
    }
    var b;
    b, r := PeekAt(s, r1, {'|'});
    if b {
      ghost var r2 := r;
      var kind, w, r3 := Gettoken(s, r);
      AfterIs(s, r1, r2, r3, {'|'});
      var right;
      right, r := Parsepipe(s, r3);
      if right.NoCmd? {
        return NoCmd, r;
      }
      c := Parsed(CPipe(c.cmd, right.cmd));
    }
  }

  /** The loop over '&' in parseline. */
  method Parsebacks(s: string, cmd: Cmd, p: int) returns (c: Cmd, r: int)
    requires 0 <= p <= |s| && CmdOk(s, cmd)
    ensures p <= r <= |s| && CmdOk(s, c) && ParseBacks(TreeOf(s, cmd), Rest(s, p)) == Ok(TreeOf(s, c), Rest(s, r))
  {
    hide ParseBacks, Peek, Skip, Rest, GetToken;
    c, r := cmd, p;
    while true
      invariant p <= r <= |s| && CmdOk(s, c)
      invariant ParseBacks(TreeOf(s, c), Rest(s, r)) == ParseBacks(TreeOf(s, cmd), Rest(s, p))
      decreases |s| - r
    {
      BacksOf(TreeOf(s, c), Rest(s, r));
      var b, r0 := PeekAt(s, r, {'&'});
      if !b {
        r := r0;
        break;
      }
      var kind, w, r1 := Gettoken(s, r0);
      AfterIs(s, r, r0, r1, {'&'});
      c, r := CBack(c), r1;
    }
  }

  method Parseline(s: string, p: int) returns (c: Parsed, r: int)
    requires 0 <= p <= |s|
    ensures p <= r && Agrees(s, ParseLine(Rest(s, p)), c, r)
    decreases |s| - p, 3
  {
    hide ParsePipe, ParseLine, ParseBacks, Peek, Skip, Rest, GetToken;
    LineOf(Rest(s, p));
    c, r := Parsepipe(s, p);
    if c.NoCmd? {
      return;
    }
    var cmd, r1 := Parsebacks(s, c.cmd, r);
    var b;
    b, r := PeekAt(s, r1, {';'});
    c := Parsed(cmd);
    if b {
      ghost var r2 := r;
      var kind, w, r3 := Gettoken(s, r);
      AfterIs(s, r1, r2, r3, {';'});
      var right;
      right, r := Parseline(s, r3);
      if right.NoCmd? {
        return NoCmd, r;
      }
      c := Parsed(CList(cmd, right.cmd));
    }
  }

  // ----- nulterminate

  /** The C string at q, in a buffer with a NUL at its end. */
  ghost predicate IsCString(buf: seq<char>, q: int, w: string) {
    && 0 <= q && q + |w| < |buf| && buf[q..q + |w|] == w && buf[q + |w|] == NUL
    && forall i :: 0 <= i < |w| ==> w[i] != NUL
  }

  /** The line with its closing NUL, no word character overwritten. */
  ghost predicate Kept(s: string, buf: seq<char>) {
    |buf| > |s| && buf[|s|] == NUL && forall i :: 0 <= i < |s| && IsWord(s[i]) ==> buf[i] == s[i]
  }

  /** The word ends in a NUL. */
  ghost predicate Ended(buf: seq<char>, w: Span) {
    0 <= w.eq < |buf| && buf[w.eq] == NUL
  }

  ghost predicate AllEnded(buf: seq<char>, c: Cmd) {
    match c
    case CExec(argv) => forall i :: 0 <= i < |argv| ==> Ended(buf, argv[i])
    case CRedir(sub, file, mode) => AllEnded(buf, sub) && Ended(buf, file)
    case CPipe(l, r) => AllEnded(buf, l) && AllEnded(buf, r)
    case CList(l, r) => AllEnded(buf, l) && AllEnded(buf, r)
    case CBack(j) => AllEnded(buf, j)
  }

  /** More NULs in the line, and nothing else changed. */
  ghost predicate MoreNuls(s: string, was: seq<char>, buf: seq<char>) {
    && |buf| == |was| > |s| && (forall i :: 0 <= i < |was| ==> buf[i] == was[i] || buf[i] == NUL)
    && forall i :: |s| < i < |was| ==> buf[i] == was[i]
  }

  lemma {:induction false} StillEnded(s: string, was: seq<char>, buf: seq<char>, c: Cmd)
    requires MoreNuls(s, was, buf) && AllEnded(was, c)
    ensures AllEnded(buf, c)
    decreases c
  {
    match c
    case CExec(argv) =>
    case CRedir(sub, file, mode) => StillEnded(s, was, buf, sub);
    case CPipe(l, r) =>
      StillEnded(s, was, buf, l);
      StillEnded(s, was, buf, r);
    case CList(l, r) =>
      StillEnded(s, was, buf, l);
      StillEnded(s, was, buf, r);
    case CBack(j) => StillEnded(s, was, buf, j);
  }

  /** nulterminate */
  method Nulterminate(s: string, buf: array<char>, c: Cmd)
    requires CmdOk(s, c) && Kept(s, buf[..])
    modifies buf
    ensures Kept(s, buf[..]) && AllEnded(buf[..], c) && MoreNuls(s, old(buf[..]), buf[..])
    decreases c
  {
    match c
    case CExec(argv) =>
      for i := 0 to |argv|
        invariant Kept(s, buf[..]) && MoreNuls(s, old(buf[..]), buf[..]) && forall k :: 0 <= k < i ==>
                    Ended(buf[..], argv[k])
      {
        assert SpanOk(s, argv[i]);
        buf[argv[i].eq] := NUL;
      }
    case CRedir(sub, file, mode) =>
      Nulterminate(s, buf, sub);
      ghost var was := buf[..];
      buf[file.eq] := NUL;
      StillEnded(s, was, buf[..], sub);
    case CPipe(l, r) =>
      Nulterminate(s, buf, l);
      ghost var was := buf[..];
      Nulterminate(s, buf, r);
      StillEnded(s, was, buf[..], l);
    case CList(l, r) =>
      Nulterminate(s, buf, l);
      ghost var was := buf[..];
      Nulterminate(s, buf, r);
      StillEnded(s, was, buf[..], l);
    case CBack(j) => Nulterminate(s, buf, j);
  }

  /** After nulterminate every word, read as a C string, is its token. */
  lemma WordsAreTokens(s: string, buf: seq<char>, w: Span)
    requires Kept(s, buf) && SpanOk(s, w) && Ended(buf, w)
    ensures IsCString(buf, w.q, Text(s, w))
  {
    var t := Text(s, w);
    assert forall i :: 0 <= i < |t| ==> t[i] == s[w.q + i] && IsWord(s[w.q + i]);
    assert buf[w.q..w.q + |t|] == t;
  }

  /** The strings the command points to in buf are those of the tree. */
  ghost predicate ReadsAs(buf: seq<char>, c: Cmd, t: Tree) {
    match c
    case CExec(argv) =>
      t.Exec? && |t.args| == |argv| && forall i :: 0 <= i < |argv| ==> IsCString(buf, argv[i].q, t.args[i])
    case CRedir(sub, file, mode) =>
      t.Redir? && ReadsAs(buf, sub, t.sub) && IsCString(buf, file.q, t.file) && mode == t.mode
    case CPipe(l, r) => t.Pipe? && ReadsAs(buf, l, t.left) && ReadsAs(buf, r, t.right)
    case CList(l, r) => t.List? && ReadsAs(buf, l, t.first) && ReadsAs(buf, r, t.second)
    case CBack(j) => t.Back? && ReadsAs(buf, j, t.job)
  }

  lemma {:induction false} TextsAt(s: string, ws: seq<Span>, i: int)
    requires 0 <= i < |ws|
    ensures Texts(s, ws)[i] == Text(s, ws[i])
    decreases |ws|
  {
    hide Text;
    if i < |ws| - 1 {
      TextsAt(s, ws[..|ws| - 1], i);
    }
  }

  lemma {:induction false} Reads(s: string, buf: seq<char>, c: Cmd)
    requires CmdOk(s, c) && Kept(s, buf) && AllEnded(buf, c)
    ensures ReadsAs(buf, c, TreeOf(s, c))
    decreases c
  {
    hide IsCString, Text, Kept, SpanOk, Ended;
    match c
    case CExec(argv) =>
      forall i | 0 <= i < |argv| ensures IsCString(buf, argv[i].q, Texts(s, argv)[i]) {
        TextsAt(s, argv, i);
        WordsAreTokens(s, buf, argv[i]);
      }
    case CRedir(sub, file, mode) =>
      Reads(s, buf, sub);
      WordsAreTokens(s, buf, file);
    case CPipe(l, r) =>
      Reads(s, buf, l);
      Reads(s, buf, r);
    case CList(l, r) =>
      Reads(s, buf, l);
      Reads(s, buf, r);
    case CBack(j) => Reads(s, buf, j);
  }

  /** The C string at the front of a buffer. */
  function Line(buf: seq<char>): (s: string)
    ensures |s| <= |buf| && s == buf[..|s|] && NUL !in s && (|s| < |buf| ==> buf[|s|] == NUL)
  {
    if buf == [] || buf[0] == NUL then [] else [buf[0]] + Line(buf[1..])
  }

  lemma {:induction false} LineIs(buf: seq<char>, n: int)
    requires 0 <= n < |buf| && buf[n] == NUL && NUL !in buf[..n]
    ensures Line(buf) == buf[..n]
    decreases n
  {
    if n > 0 {
      assert buf[..n][0] == buf[0] && buf[..n][1..] == buf[1..][..n - 1];
      LineIs(buf[1..], n - 1);
    }
  }

  method Strlen(buf: array<char>) returns (n: int)
    requires NUL in buf[..]
    ensures 0 <= n < buf.Length && buf[n] == NUL && buf[..n] == Line(buf[..])
  {
    n := 0;
    while n < buf.Length && buf[n] != NUL
      invariant 0 <= n <= buf.Length && NUL !in buf[..n]
    {
      n := n + 1;
    }
    assert buf[..buf.Length] == buf[..];
    LineIs(buf[..], n);
    assert buf[..][..n] == buf[..n];
  }

  /**
   parsecmd, on a buffer that holds a C string; NoCmd for any of the shell's panics.  Read back through the pointers
   of the command, the buffer holds the tree the grammar gives the line.
   */
  method Parsecmd(buf: array<char>) returns (c: Parsed)
    requires NUL in buf[..]
    modifies buf
    ensures var q := ParseCmd(Line(old(buf[..])));
      (c.NoCmd? <==> q.Fail?) && (c.Parsed? ==> ReadsAs(buf[..], c.cmd, q.tree))
    ensures c.NoCmd? ==> buf[..] == old(buf[..])
    ensures MoreNuls(Line(old(buf[..])), old(buf[..]), buf[..])
  {
    hide ParseLine, Skip, CmdOk, TreeOf, AllEnded, Line;
    var n := Strlen(buf);
    var s := buf[..n];
    var r;
    c, r := Parseline(s, 0);
    assert Rest(s, 0) == s;
    if c.NoCmd? {
      return;
    }
    r := SkipSpaces(s, r);
    RestLen(s, r);
    if r != |s| {
      return NoCmd;
    }
    Nulterminate(s, buf, c.cmd);
    Reads(s, buf[..], c.cmd);
  }

  lemma {:induction false} NoNulPrinted(t: Tree, z: string)
    requires TreeOk(t) && NUL !in z
    ensures NUL !in Show(t, z)
    decreases t
  {
    match t
    case Exec(args) => NoNulArgs(args, [')'] + z);
    case Redir(sub, file, mode) => NoNulPrinted(sub, ShowMode(mode, file + ([')'] + z)));
    case Pipe(l, r) =>
      NoNulPrinted(r, [')'] + z);
      NoNulPrinted(l, ['|'] + Show(r, [')'] + z));
    case List(l, r) =>
      NoNulPrinted(r, [')'] + z);
      NoNulPrinted(l, [';'] + Show(r, [')'] + z));
    case Back(j) => NoNulPrinted(j, ['&'] + ([')'] + z));
  }

  lemma {:induction false} NoNulArgs(args: seq<string>, z: string)
    requires (forall i :: 0 <= i < |args| ==> WordOk(args[i])) && NUL !in z
    ensures NUL !in ShowArgs(args, z)
    decreases |args|
  {
    if args != [] {
      NoNulArgs(args[1..], z);
      assert WordOk(args[0]);
    }
  }

  /** A printed tree, parsed in place. */
  method PrintedReads(t: Tree) returns (buf: array<char>, c: Parsed)
    requires TreeOk(t)
    ensures c.Parsed? && ReadsAs(buf[..], c.cmd, t)
  {
    NoNulPrinted(t, []);
    assert NUL !in Print(t);
    hide Print, ParseCmd;
    RoundTrip(t);
    var s := Print(t);
    buf := new char[|s| + 1](i requires 0 <= i => if i < |s| then s[i] else NUL);
    assert buf[..][..|s|] == s && buf[..][|s|] == NUL;
    LineIs(buf[..], |s|);
    c := Parsecmd(buf);
  }
}
