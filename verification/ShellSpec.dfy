/**
 The grammar of user/sh.c as functions on strings, a printer, and the round trip between them.
 */
module ShellSpec {
  import opened Params

  const MAXARGS := 10

  /** How a redirection opens its file: "<", ">" and ">>". */
  datatype Mode = In | Out | Append

  datatype Tree =
    | Exec(args: seq<string>)
    | Redir(sub: Tree, file: string, mode: Mode)
    | Pipe(left: Tree, right: Tree)
    | List(first: Tree, second: Tree)
    | Back(job: Tree)

  /** One of the shell's panics, or a tree and what is left of the input. */
  datatype Result = Fail | Ok(tree: Tree, rest: string)

  predicate IsSpace(c: char) {
    c == ' ' || c == '\t' || c == '\r' || c == '\n' || c == '\U{0B}'
  }

  predicate IsSymbol(c: char) {
    c == '<' || c == '|' || c == '>' || c == '&' || c == ';' || c == '(' || c == ')'
  }

  predicate IsWord(c: char) {
    !IsSpace(c) && !IsSymbol(c) && c != NUL
  }

  // ----- Tokens

  function Skip(r: string): (u: string)
    ensures |u| <= |r| && (u == [] || !IsSpace(u[0]))
  {
    if r != [] && IsSpace(r[0]) then Skip(r[1..]) else r
  }

  /** The length of the word at the front. */
  function WordLen(r: string): (n: int)
    ensures 0 <= n <= |r| && (forall i :: 0 <= i < n ==> IsWord(r[i])) && (n == |r| || !IsWord(r[n]))
  {
    if r != [] && IsWord(r[0]) then 1 + WordLen(r[1..]) else 0
  }

  /** A token: NUL at the end, a symbol, '+' for ">>", 'a' for a word, and the input after it. */
  datatype Token = Token(kind: char, word: string, rest: string)

  function GetToken(r: string): (t: Token)
    ensures |t.rest| <= |r| && (t.kind != NUL ==> |t.rest| < |r|)
  {
    var u := Skip(r);
    if u == [] || u[0] == NUL then Token(NUL, [], u)
    else if u[0] == '>' then
      if |u| > 1 && u[1] == '>' then Token('+', [], Skip(u[2..])) else Token('>', [], Skip(u[1..]))
    else if IsSymbol(u[0]) then Token(u[0], [], Skip(u[1..]))
    else Token('a', u[..WordLen(u)], Skip(u[WordLen(u)..]))
  }

  predicate Peek(r: string, toks: set<char>) {
    var u := Skip(r);
    u != [] && u[0] != NUL && u[0] in toks
  }

  /** The input after a token that was just seen. */
  function After(r: string, toks: set<char>): (u: string)
    requires Peek(r, toks)
    ensures |u| < |r|
  {
    GetToken(r).rest
  }

  // ----- The grammar

  /** A redirection, and a list of them: the later ones are outside. */
  datatype Redirect = Redirect(file: string, mode: Mode)

  function Wrap(t: Tree, rs: seq<Redirect>): Tree
    decreases |rs|
  {
    if rs == [] then t else Redir(Wrap(t, rs[..|rs| - 1]), rs[|rs| - 1].file, rs[|rs| - 1].mode)
  }

  function ModeOf(kind: char): Mode {
    if kind == '<' then In else if kind == '>' then Out else Append
  }

  datatype Redirs = BadRedir | Redirs(rs: seq<Redirect>, rest: string)

  function ParseRedirs(rs: seq<Redirect>, r: string): (q: Redirs)
    ensures q.Redirs? ==> |q.rest| <= |r|
    decreases |r|
  {
    if !Peek(r, {'<', '>'}) then Redirs(rs, Skip(r))
    else
      var op := GetToken(r);
      var w := GetToken(op.rest);
      if w.kind != 'a' then BadRedir else ParseRedirs(rs + [Redirect(w.word, ModeOf(op.kind))], w.rest)
  }

  function ParseArgs(args: seq<string>, rs: seq<Redirect>, r: string): (q: Result)
    ensures q.Ok? ==> |q.rest| <= |r|
    decreases |r|
  {
    if Peek(r, {'|', ')', '&', ';'}) then Ok(Wrap(Exec(args), rs), Skip(r))
    else
      var t := GetToken(r);
      if t.kind == NUL then Ok(Wrap(Exec(args), rs), t.rest)
      else if t.kind != 'a' || |args| + 1 >= MAXARGS then Fail
      else
        var q := ParseRedirs(rs, t.rest);
        if q.BadRedir? then Fail else ParseArgs(args + [t.word], q.rs, q.rest)
  }

  function ParseExec(r: string): (q: Result)
    ensures q.Ok? ==> |q.rest| <= |r|
    decreases |r|, 1
  {
    if Peek(r, {'('}) then ParseBlock(r)
    else
      var q := ParseRedirs([], r);
      if q.BadRedir? then Fail else ParseArgs([], q.rs, q.rest)
  }

  function ParseBlock(r: string): (q: Result)
    requires Peek(r, {'('})
    ensures q.Ok? ==> |q.rest| < |r|
    decreases |r|, 0
  {
    hide Peek, After;
    var line := ParseLine(After(r, {'('}));
    if line.Fail? || !Peek(line.rest, {')'}) then Fail
    else
      var q := ParseRedirs([], After(line.rest, {')'}));
      if q.BadRedir? then Fail else Ok(Wrap(line.tree, q.rs), q.rest)
  }

  function ParsePipe(r: string): (q: Result)
    ensures q.Ok? ==> |q.rest| <= |r|
    decreases |r|, 2
  {
    hide Peek, After, Skip;
    var left := ParseExec(r);
    if left.Fail? then Fail
    else if !Peek(left.rest, {'|'}) then left.(rest := Skip(left.rest))
    else
      var right := ParsePipe(After(left.rest, {'|'}));
      if right.Fail? then Fail else Ok(Pipe(left.tree, right.tree), right.rest)
  }

  function ParseBacks(t: Tree, r: string): (q: Result)
    ensures q.Ok? && |q.rest| <= |r|
    decreases |r|
  {
    if Peek(r, {'&'}) then ParseBacks(Back(t), After(r, {'&'})) else Ok(t, Skip(r))
  }

  function ParseLine(r: string): (q: Result)
    ensures q.Ok? ==> |q.rest| <= |r|
    decreases |r|, 3
  {
    hide Peek, After, Skip;
    var left := ParsePipe(r);
    if left.Fail? then Fail
    else
      var back := ParseBacks(left.tree, left.rest);
      if !Peek(back.rest, {';'}) then back.(rest := Skip(back.rest))
      else
        var right := ParseLine(After(back.rest, {';'}));
        if right.Fail? then Fail else Ok(List(back.tree, right.tree), right.rest)
  }

  /** parsecmd: the whole input must be used. */
  function ParseCmd(r: string): (q: Result) {
    var line := ParseLine(r);
    if line.Fail? || Skip(line.rest) != [] then Fail else line
  }

  // ----- The printer

  ghost predicate WordOk(w: string) {
    w != [] && forall i :: 0 <= i < |w| ==> IsWord(w[i])
  }

  /** Words a user could type, and few enough arguments. */
  ghost predicate TreeOk(t: Tree) {
    match t
    case Exec(args) => |args| < MAXARGS && forall i :: 0 <= i < |args| ==> WordOk(args[i])
    case Redir(sub, file, mode) => TreeOk(sub) && WordOk(file)
    case Pipe(l, r) => TreeOk(l) && TreeOk(r)
    case List(l, r) => TreeOk(l) && TreeOk(r)
    case Back(j) => TreeOk(j)
  }

  function ShowArgs(args: seq<string>, z: string): string {
    if args == [] then z else args[0] + (" " + ShowArgs(args[1..], z))
  }

  function ShowMode(m: Mode, z: string): string {
    match m
    case In => ['<'] + z
    case Out => ['>'] + z
    case Append => ['>'] + (['>'] + z)
  }

  /** The tree in print, everything in parentheses, followed by z. */
  function Show(t: Tree, z: string): string {
    match t
    case Exec(args) => ['('] + ShowArgs(args, [')'] + z)
    case Redir(sub, file, mode) => ['('] + Show(sub, ShowMode(mode, file + ([')'] + z)))
    case Pipe(l, r) => ['('] + Show(l, ['|'] + Show(r, [')'] + z))
    case List(l, r) => ['('] + Show(l, [';'] + Show(r, [')'] + z))
    case Back(j) => ['('] + Show(j, ['&'] + ([')'] + z))
  }

  function Print(t: Tree): string {
    Show(t, [])
  }

  // ----- Round trip

  // One step of each rule, with the rules it uses left closed.

  lemma ExecOf(r: string)
    ensures ParseExec(r) ==
      if Peek(r, {'('}) then ParseBlock(r)
      else if ParseRedirs([], r).BadRedir? then Fail
      else ParseArgs([], ParseRedirs([], r).rs, ParseRedirs([], r).rest)
  {
    hide ParseBlock, ParseRedirs, ParseArgs, Peek;
  }

  lemma BlockOf(r: string)
    requires Peek(r, {'('})
    ensures ParseBlock(r) ==
      var line := ParseLine(After(r, {'('}));
      if line.Fail? || !Peek(line.rest, {')'}) then Fail
      else
        var q := ParseRedirs([], After(line.rest, {')'}));
        if q.BadRedir? then Fail else Ok(Wrap(line.tree, q.rs), q.rest)
  {
    hide ParseLine, ParseRedirs, Peek, After, Wrap;
  }

  lemma PipeOf(r: string)
    ensures ParsePipe(r) ==
      var left := ParseExec(r);
      if left.Fail? then Fail
      else if !Peek(left.rest, {'|'}) then left.(rest := Skip(left.rest))
      else
        var right := ParsePipe(After(left.rest, {'|'}));
        if right.Fail? then Fail else Ok(Pipe(left.tree, right.tree), right.rest)
  {
    hide ParseExec, Peek, After, Skip;
  }

  lemma BacksOf(t: Tree, r: string)
    ensures ParseBacks(t, r) == if Peek(r, {'&'}) then ParseBacks(Back(t), After(r, {'&'})) else Ok(t, Skip(r))
  {
    hide Peek, After, Skip;
  }

  lemma LineOf(r: string)
    ensures ParseLine(r) ==
      var left := ParsePipe(r);
      if left.Fail? then Fail
      else
        var back := ParseBacks(left.tree, left.rest);
        if !Peek(back.rest, {';'}) then back.(rest := Skip(back.rest))
        else
          var right := ParseLine(After(back.rest, {';'}));
          if right.Fail? then Fail else Ok(List(back.tree, right.tree), right.rest)
  {
    hide ParsePipe, ParseBacks, Peek, After, Skip;
  }

  lemma RedirsOf(rs: seq<Redirect>, r: string)
    ensures ParseRedirs(rs, r) ==
      if !Peek(r, {'<', '>'}) then Redirs(rs, Skip(r))
      else
        var op := GetToken(r);
        var w := GetToken(op.rest);
        if w.kind != 'a' then BadRedir else ParseRedirs(rs + [Redirect(w.word, ModeOf(op.kind))], w.rest)
  {
    hide Peek, GetToken, Skip;
  }

  lemma ArgsOf(args: seq<string>, rs: seq<Redirect>, r: string)
    ensures ParseArgs(args, rs, r) ==
      if Peek(r, {'|', ')', '&', ';'}) then Ok(Wrap(Exec(args), rs), Skip(r))
      else
        var t := GetToken(r);
        if t.kind == NUL then Ok(Wrap(Exec(args), rs), t.rest)
        else if t.kind != 'a' || |args| + 1 >= MAXARGS then Fail
        else
          var q := ParseRedirs(rs, t.rest);
          if q.BadRedir? then Fail else ParseArgs(args + [t.word], q.rs, q.rest)
  {
    hide Peek, GetToken, Skip, ParseRedirs, Wrap;
  }

  // What the tokens are.

  lemma Front(c: char, z: string)
    requires !IsSpace(c) && c != NUL
    ensures Skip([c] + z) == [c] + z && forall toks :: Peek([c] + z, toks) <==> c in toks
  {
    hide IsSpace;
  }

  lemma Symbols()
    ensures forall c :: IsSymbol(c) ==> !IsSpace(c) && c != NUL
    ensures IsSymbol('(') && IsSymbol(')') && IsSymbol('|') && IsSymbol(';') && IsSymbol('&') && IsSymbol('<')
      && IsSymbol('>')
  {
  }

  lemma AfterSymbol(c: char, z: string, toks: set<char>)
    requires IsSymbol(c) && c != '>' && c in toks
    ensures Skip([c] + z) == [c] + z && GetToken([c] + z) == Token(c, [], Skip(z)) && Peek([c] + z, toks)
      && After([c] + z, toks) == Skip(z)
  {
    Symbols();
    Front(c, z);
    assert ([c] + z)[1..] == z;
    hide IsSpace, IsSymbol, Skip, Peek, WordLen;
  }

  lemma WordLenOf(w: string, z: string)
    requires (forall i :: 0 <= i < |w| ==> IsWord(w[i])) && (z == [] || !IsWord(z[0]))
    ensures WordLen(w + z) == |w|
  {
    hide IsWord, WordLen;
    assert forall i :: 0 <= i < |w| ==> (w + z)[i] == w[i];
    assert z != [] ==> (w + z)[|w|] == z[0];
  }

  lemma WordToken(w: string, z: string)
    requires WordOk(w) && (z == [] || !IsWord(z[0]))
    ensures GetToken(w + z) == Token('a', w, Skip(z)) && Skip(w + z) == w + z
    ensures forall toks :: Peek(w + z, toks) ==> w[0] in toks
  {
    assert (w + z)[0] == w[0] && IsWord(w[0]);
    WordLenOf(w, z);
    assert (w + z)[..|w|] == w && (w + z)[|w|..] == z;
    hide WordLen, IsSpace, IsSymbol;
  }

  lemma SkipSkip(z: string)
    ensures Skip(Skip(z)) == Skip(z) && ParseRedirs([], Skip(z)) == ParseRedirs([], z)
  {
    var u := Skip(z);
    SkipOnce(u);
    SamePeek(u, z);
    RedirsOf([], z);
    RedirsOf([], u);
    hide Skip, ParseRedirs, Peek, GetToken;
  }

  lemma SkipOnce(u: string)
    requires u == [] || !IsSpace(u[0])
    ensures Skip(u) == u
  {
  }

  lemma SamePeek(u: string, z: string)
    requires Skip(u) == u == Skip(z)
    ensures Peek(u, {'<', '>'}) == Peek(z, {'<', '>'}) && GetToken(u) == GetToken(z)
  {
    hide Skip, WordLen, IsSymbol;
  }

  lemma NoRedirs(c: char, z: string)
    requires !IsSpace(c) && c != NUL && c != '<' && c != '>'
    ensures ParseRedirs([], [c] + z) == Redirs([], [c] + z)
  {
    hide Skip, ParseRedirs, Peek, GetToken;
    Front(c, z);
    RedirsOf([], [c] + z);
  }

  // What follows a subtree.

  /** A closing parenthesis ends the rules above. */
  lemma Closed(t: Tree, r: string, z: string)
    requires ParseExec(r) == Ok(t, [')'] + z)
    ensures ParsePipe(r) == Ok(t, [')'] + z) && ParseLine(r) == Ok(t, [')'] + z)
  {
    hide *;
    Symbols();
    Front(')', z);
    PipeOf(r);
    BacksOf(t, [')'] + z);
    LineOf(r);
  }

  /** A body in parentheses. */
  lemma InParens(t: Tree, body: string, y: string)
    requires ParseLine(Skip(body)) == Ok(t, [')'] + y) && ParseRedirs([], y).Redirs?
    ensures ParseExec(['('] + body) == Ok(Wrap(t, ParseRedirs([], y).rs), ParseRedirs([], y).rest)
  {
    hide *;
    Symbols();
    AfterSymbol('(', body, {'('});
    AfterSymbol(')', y, {')'});
    SkipSkip(y);
    ExecOf(['('] + body);
    BlockOf(['('] + body);
  }

  lemma WrapNone(t: Tree)
    ensures Wrap(t, []) == t
  {
  }

  lemma WrapOne(t: Tree, file: string, mode: Mode)
    ensures Wrap(t, [Redirect(file, mode)]) == Redir(t, file, mode)
  {
    assert [Redirect(file, mode)][..0] == [];
  }

  lemma ShowFront(t: Tree, z: string)
    ensures Skip(Show(t, z)) == Show(t, z)
  {
    Symbols();
    var b := Show(t, z)[1..];
    assert Show(t, z) == ['('] + b;
    Front('(', b);
  }

  lemma PipeLine(l: Tree, r: Tree, x: string, w: string, y: string)
    requires ParseExec(x) == Ok(l, ['|'] + w) && Skip(w) == w && ParsePipe(w) == Ok(r, [')'] + y)
    ensures ParseLine(x) == Ok(Pipe(l, r), [')'] + y)
  {
    hide *;
    Symbols();
    AfterSymbol('|', w, {'|'});
    Front(')', y);
    PipeOf(x);
    BacksOf(Pipe(l, r), [')'] + y);
    LineOf(x);
  }

  lemma PlainPipe(l: Tree, x: string, c: char, w: string)
    requires ParseExec(x) == Ok(l, [c] + w) && (c == ';' || c == '&')
    ensures ParsePipe(x) == Ok(l, [c] + w)
  {
    hide *;
    Symbols();
    Front(c, w);
    PipeOf(x);
  }

  lemma ListLine(l: Tree, r: Tree, x: string, w: string, y: string)
    requires ParseExec(x) == Ok(l, [';'] + w) && Skip(w) == w && ParseLine(w) == Ok(r, [')'] + y)
    ensures ParseLine(x) == Ok(List(l, r), [')'] + y)
  {
    hide *;
    Symbols();
    PlainPipe(l, x, ';', w);
    Front(';', w);
    AfterSymbol(';', w, {';'});
    BacksOf(l, [';'] + w);
    LineOf(x);
  }

  lemma BackLine(j: Tree, x: string, y: string)
    requires ParseExec(x) == Ok(j, ['&'] + ([')'] + y))
    ensures ParseLine(x) == Ok(Back(j), [')'] + y)
  {
    hide *;
    Symbols();
    var z := [')'] + y;
    PlainPipe(j, x, '&', z);
    AfterSymbol('&', z, {'&'});
    Front(')', y);
    BacksOf(j, ['&'] + z);
    BacksOf(Back(j), z);
    LineOf(x);
  }

  // Redirections and arguments in print.

  lemma ShownRedir(file: string, mode: Mode, z: string)
    requires WordOk(file)
    ensures ParseRedirs([], ShowMode(mode, file + ([')'] + z))) == Redirs([Redirect(file, mode)], [')'] + z)
  {
    Symbols();
    assert !IsWord(')');
    hide *;
    var w := file + ([')'] + z);
    WordToken(file, [')'] + z);
    Front(')', z);
    ModeToken(mode, file, w);
    assert [] + [Redirect(file, mode)] == [Redirect(file, mode)];
    RedirsOf([], ShowMode(mode, w));
    RedirsOf([Redirect(file, mode)], [')'] + z);
  }

  lemma ModeToken(mode: Mode, file: string, w: string)
    requires WordOk(file) && w != [] && w[0] == file[0] && Skip(w) == w
    ensures Peek(ShowMode(mode, w), {'<', '>'})
    ensures var t := GetToken(ShowMode(mode, w)); ModeOf(t.kind) == mode && t.rest == w
  {
    Symbols();
    assert w[0] != '>';
    hide Skip, WordLen, IsSpace, IsSymbol, IsWord, Peek;
    match mode
    case In => AfterSymbol('<', w, {'<', '>'});
    case Out =>
      Front('>', w);
      assert (['>'] + w)[1..] == w && (['>'] + w)[1] == w[0];
    case Append =>
      Front('>', ['>'] + w);
      assert (['>'] + (['>'] + w))[2..] == w;
  }

  lemma NextIsWord(args: seq<string>, z: string)
    requires (forall i :: 0 <= i < |args| ==> WordOk(args[i])) && z != [] && z[0] == ')'
    ensures var r := ShowArgs(args, z);
      && r != [] && (IsWord(r[0]) || r[0] == ')') && r == [r[0]] + r[1..]
      && !IsSpace(r[0]) && r[0] != NUL && r[0] != '<' && r[0] != '>' && r[0] != '('
  {
    if args != [] {
      assert WordOk(args[0]);
    }
  }

  lemma {:induction false} ArgsShown(done: seq<string>, args: seq<string>, y: string)
    requires |done| + |args| < MAXARGS && forall i :: 0 <= i < |args| ==> WordOk(args[i])
    ensures ParseArgs(done, [], ShowArgs(args, [')'] + y)) == Ok(Exec(done + args), [')'] + y)
    decreases |args|
  {
    Symbols();
    hide ParseArgs, ParseRedirs, Skip, Peek, GetToken, Wrap, IsSpace, IsSymbol, WordOk;
    var z := [')'] + y;
    Front(')', y);
    WrapNone(Exec(done));
    ArgsOf(done, [], ShowArgs(args, z));
    if args == [] {
      assert done + args == done;
    } else {
      var w, next := args[0], ShowArgs(args[1..], z);
      ArgsShown(done + [w], args[1..], y);
      assert done + [w] + args[1..] == done + args;
      NextIsWord(args[1..], z);
      OneArg(w, next);
      NoRedirs(next[0], next[1..]);
    }
  }

  /** A word, a blank, and what comes next. */
  lemma OneArg(w: string, next: string)
    requires WordOk(w) && next != [] && !IsSpace(next[0])
    ensures GetToken(w + (" " + next)) == Token('a', w, next) && !Peek(w + (" " + next), {'|', ')', '&', ';'})
  {
    var more := " " + next;
    assert IsWord(w[0]) && !IsWord(more[0]) && more[1..] == next;
    WordToken(w, more);
    SkipOnce(next);
    hide GetToken, Peek, WordLen;
  }

  lemma ShownArgs(args: seq<string>, y: string)
    requires TreeOk(Exec(args))
    ensures ParseLine(Skip(ShowArgs(args, [')'] + y))) == Ok(Exec(args), [')'] + y)
  {
    var z := [')'] + y;
    var r := ShowArgs(args, z);
    ArgsShown([], args, y);
    assert [] + args == args;
    NextIsWord(args, z);
    hide *;
    NoRedirs(r[0], r[1..]);
    Front(r[0], r[1..]);
    ExecOf(r);
    Closed(Exec(args), r, y);
  }

  /** Printing and parsing again, anywhere a subtree may stand: redirections that follow are taken too. */
  lemma {:induction false} Shown(t: Tree, y: string)
    requires TreeOk(t) && ParseRedirs([], y).Redirs?
    ensures ParseExec(Show(t, y)) == Ok(Wrap(t, ParseRedirs([], y).rs), ParseRedirs([], y).rest)
    decreases t, 0
  {
    hide ParseExec, ParseLine, ParsePipe, ParseRedirs, Skip, Peek, Wrap;
    var z := [')'] + y;
    match t
    case Exec(args) =>
      ShownArgs(args, y);
      InParens(t, ShowArgs(args, z), y);
    case Redir(sub, file, mode) =>
      var x := Show(sub, ShowMode(mode, file + z));
      ShownRedir(file, mode, y);
      Shown(sub, ShowMode(mode, file + z));
      WrapOne(sub, file, mode);
      ShowFront(sub, ShowMode(mode, file + z));
      Closed(t, x, y);
      InParens(t, x, y);
    case Pipe(l, r) =>
      var w := Show(r, z);
      ShownOpen(l, '|', w);
      ShownClosed(r, y);
      PipeLine(l, r, Show(l, ['|'] + w), w, y);
      ShowFront(l, ['|'] + w);
      InParens(t, Show(l, ['|'] + w), y);
    case List(l, r) =>
      var w := Show(r, z);
      ShownOpen(l, ';', w);
      ShownClosed(r, y);
      ListLine(l, r, Show(l, [';'] + w), w, y);
      ShowFront(l, [';'] + w);
      InParens(t, Show(l, [';'] + w), y);
    case Back(j) =>
      ShownOpen(j, '&', z);
      BackLine(j, Show(j, ['&'] + z), y);
      ShowFront(j, ['&'] + z);
      InParens(t, Show(j, ['&'] + z), y);
  }

  lemma {:induction false} ShownOpen(t: Tree, c: char, w: string)
    requires TreeOk(t) && (c == '|' || c == ';' || c == '&')
    ensures ParseExec(Show(t, [c] + w)) == Ok(t, [c] + w)
    decreases t, 1
  {
    Symbols();
    hide *;
    NoRedirs(c, w);
    Shown(t, [c] + w);
    WrapNone(t);
  }

  lemma {:induction false} ShownClosed(t: Tree, y: string)
    requires TreeOk(t)
    ensures var r := Show(t, [')'] + y);
      ParsePipe(r) == Ok(t, [')'] + y) && ParseLine(r) == Ok(t, [')'] + y) && Skip(r) == r
    decreases t, 1
  {
    Symbols();
    hide *;
    NoRedirs(')', y);
    Shown(t, [')'] + y);
    WrapNone(t);
    Closed(t, Show(t, [')'] + y), y);
    ShowFront(t, [')'] + y);
  }

  lemma AtEnd()
    ensures Skip([]) == [] && forall toks :: !Peek([], toks)
  {
  }

  /** Parsing a printed tree gives the tree back. */
  lemma RoundTrip(t: Tree)
    requires TreeOk(t)
    ensures ParseCmd(Print(t)) == Ok(t, [])
  {
    hide Show, ParseExec, ParsePipe, ParseLine, ParseBacks, ParseRedirs, Skip, Peek, Wrap;
    AtEnd();
    RedirsOf([], []);
    Shown(t, []);
    WrapNone(t);
    PipeOf(Print(t));
    BacksOf(t, []);
    LineOf(Print(t));
  }
}
