/**
 What users type: commands with words and redirections in any order, and trees printed with no more parentheses than
 the grammar of user/sh.c asks for.
 */
module ShellFlat {
  import opened Params
  import opened ShellSpec

  // ----- Layers of redirections

  /** The redirections around a tree, the innermost first. */
  function Layers(t: Tree): (rs: seq<Redirect>) {
    if t.Redir? then Layers(t.sub) + [Redirect(t.file, t.mode)] else []
  }

  /** The tree inside them. */
  function Core(t: Tree): (c: Tree)
    ensures !c.Redir? && Size(c) <= Size(t)
  {
    if t.Redir? then Core(t.sub) else t
  }

  function Size(t: Tree): nat {
    match t
    case Exec(args) => 1
    case Redir(sub, file, mode) => 1 + Size(sub)
    case Pipe(l, r) => 1 + Size(l) + Size(r)
    case List(l, r) => 1 + Size(l) + Size(r)
    case Back(j) => 1 + Size(j)
  }

  /** A list of redirections goes around the tree in order, and nothing of it is lost. */
  lemma {:induction false} WrapLayers(t: Tree, rs: seq<Redirect>)
    ensures Layers(Wrap(t, rs)) == Layers(t) + rs && Core(Wrap(t, rs)) == Core(t)
    decreases |rs|
  {
    if rs == [] {
      assert Layers(t) + rs == Layers(t);
    } else {
      var n := |rs| - 1;
      WrapLayers(t, rs[..n]);
      assert rs[n] == Redirect(rs[n].file, rs[n].mode);
      assert rs == rs[..n] + [rs[n]];
    }
  }

  /** A tree is its layers around its core. */
  lemma {:induction false} Unwrapped(t: Tree)
    ensures Wrap(Core(t), Layers(t)) == t
    decreases t
  {
    if t.Redir? {
      Unwrapped(t.sub);
      var rs, r := Layers(t.sub), Redirect(t.file, t.mode);
      assert (rs + [r])[..|rs|] == rs;
    }
  }

  // ----- Simple commands

  /** A word or a redirection of a simple command. */
  datatype Piece = Arg(w: string) | Re(r: Redirect)

  ghost predicate PieceOk(p: Piece) {
    match p
    case Arg(w) => WordOk(w)
    case Re(r) => WordOk(r.file)
  }

  ghost predicate PiecesOk(ps: seq<Piece>) {
    forall i :: 0 <= i < |ps| ==> PieceOk(ps[i])
  }

  function Words(ps: seq<Piece>): (ws: seq<string>) {
    if ps == [] then [] else (if ps[0].Arg? then [ps[0].w] else []) + Words(ps[1..])
  }

  function Redirections(ps: seq<Piece>): (rs: seq<Redirect>) {
    if ps == [] then [] else (if ps[0].Re? then [ps[0].r] else []) + Redirections(ps[1..])
  }

  /** The pieces as typed, a blank after each, followed by z. */
  function Typed(ps: seq<Piece>, z: string): string {
    if ps == [] then z
    else match ps[0]
      case Arg(w) => w + (" " + Typed(ps[1..], z))
      case Re(r) => ShowMode(r.mode, r.file + (" " + Typed(ps[1..], z)))
  }

  /** What may follow a command. */
  predicate Ends(z: string) {
    z == [] || z[0] in {'|', '&', ';', ')'}
  }

  lemma EndsFront(z: string)
    requires Ends(z)
    ensures Skip(z) == z && !Peek(z, {'<', '>'}) && !Peek(z, {'('})
    ensures z == [] || Peek(z, {'|', ')', '&', ';'})
    ensures z == [] ==> GetToken(z) == Token(NUL, [], [])
  {
    Symbols();
    if z == [] {
      AtEnd();
    } else {
      assert z == [z[0]] + z[1..];
      Front(z[0], z[1..]);
    }
  }

  lemma TypedFront(ps: seq<Piece>, z: string)
    requires PiecesOk(ps) && Ends(z)
    ensures var x := Typed(ps, z);
      && Skip(x) == x && (x == [] || !IsSpace(x[0])) && !Peek(x, {'('})
      && (ps == [] || ps[0].Arg? ==> !Peek(x, {'<', '>'}))
  {
    hide Skip, Peek;
    Symbols();
    EndsFront(z);
    if ps != [] {
      assert PieceOk(ps[0]);
      var x := Typed(ps, z);
      assert x == [x[0]] + x[1..];
      Front(x[0], x[1..]);
    }
  }

  /** A word, a blank, and what comes next. */
  lemma OneWord(w: string, next: string)
    requires WordOk(w) && (next == [] || !IsSpace(next[0]))
    ensures GetToken(w + (" " + next)) == Token('a', w, next) && !Peek(w + (" " + next), {'|', ')', '&', ';'})
    ensures Skip(w + (" " + next)) == w + (" " + next)
  {
    var more := " " + next;
    assert IsWord(w[0]) && !IsWord(more[0]) && more[1..] == next;
    WordToken(w, more);
    SkipOnce(next);
    hide GetToken, Peek, WordLen;
  }

  /** A redirection at the front is taken. */
  lemma OneRedir(rs: seq<Redirect>, r: Redirect, next: string)
    requires WordOk(r.file) && (next == [] || !IsSpace(next[0]))
    ensures ParseRedirs(rs, ShowMode(r.mode, r.file + (" " + next))) == ParseRedirs(rs + [r], next)
  {
    hide *;
    var w := r.file + (" " + next);
    OneWord(r.file, next);
    FirstOf(r.file, " " + next);
    ModeToken(r.mode, r.file, w);
    RedirsOf(rs, ShowMode(r.mode, w));
    assert r == Redirect(r.file, r.mode);
  }

  lemma FirstOf(w: string, z: string)
    requires WordOk(w)
    ensures w != [] && w + z != [] && (w + z)[0] == w[0]
  {
  }

  /** The redirections up to the next word, and the pieces from there on. */
  function Lead(ps: seq<Piece>): (rs: seq<Redirect>) {
    if ps == [] || ps[0].Arg? then [] else [ps[0].r] + Lead(ps[1..])
  }

  function Later(ps: seq<Piece>): (qs: seq<Piece>)
    ensures |qs| <= |ps| && (qs == [] || qs[0].Arg?)
  {
    if ps == [] || ps[0].Arg? then ps else Later(ps[1..])
  }

  lemma {:induction false} LaterOf(ps: seq<Piece>)
    requires PiecesOk(ps)
    ensures PiecesOk(Later(ps)) && Words(Later(ps)) == Words(ps)
    ensures Redirections(ps) == Lead(ps) + Redirections(Later(ps))
    decreases |ps|
  {
    hide PieceOk;
    if ps == [] || ps[0].Arg? {
      assert Lead(ps) == [] && Later(ps) == ps;
    } else {
      var q, r := ps[1..], ps[0].r;
      LaterOf(q);
      assert Words(ps) == [] + Words(q) && Redirections(ps) == [r] + Redirections(q);
      assert Later(ps) == Later(q) && Lead(ps) == [r] + Lead(q);
      hide Words, Redirections, Lead, Later;
      assert [r] + (Lead(q) + Redirections(Later(q))) == ([r] + Lead(q)) + Redirections(Later(q));
    }
  }

  lemma PieceWord(ps: seq<Piece>)
    requires PiecesOk(ps) && ps != []
    ensures PiecesOk(ps[1..])
    ensures ps[0].Re? ==> WordOk(ps[0].r.file)
    ensures ps[0].Arg? ==> WordOk(ps[0].w)
  {
    hide WordOk;
    assert PieceOk(ps[0]);
  }

  lemma TypedOf(ps: seq<Piece>, z: string)
    ensures Typed(ps, z) == if ps == [] then z
      else if ps[0].Arg? then ps[0].w + (" " + Typed(ps[1..], z))
      else ShowMode(ps[0].r.mode, ps[0].r.file + (" " + Typed(ps[1..], z)))
  {
    hide ShowMode;
  }

  lemma {:induction false} LeadingRedirs(rs: seq<Redirect>, ps: seq<Piece>, z: string)
    requires PiecesOk(ps) && Ends(z)
    ensures ParseRedirs(rs, Typed(ps, z)) == Redirs(rs + Lead(ps), Typed(Later(ps), z))
    decreases |ps|
  {
    hide ParseRedirs, Skip, Peek, GetToken, ShowMode, PiecesOk, WordOk, Typed;
    TypedFront(ps, z);
    if ps == [] || ps[0].Arg? {
      RedirsOf(rs, Typed(ps, z));
      assert rs + [] == rs;
    } else {
      var r, rest := ps[0].r, ps[1..];
      PieceWord(ps);
      LeadingRedirs(rs + [r], rest, z);
      TypedFront(rest, z);
      TypedOf(ps, z);
      OneRedir(rs, r, Typed(rest, z));
      assert rs + [r] + Lead(rest) == rs + ([r] + Lead(rest));
    }
  }

  lemma ArgFirst(ps: seq<Piece>)
    requires ps != [] && ps[0].Arg?
    ensures Words(ps) == [ps[0].w] + Words(ps[1..]) && Redirections(ps) == Redirections(ps[1..])
  {
  }

  lemma NoPieces()
    ensures Words([]) == [] && Redirections([]) == []
  {
  }

  lemma {:induction false} TypedArgs(done: seq<string>, rs: seq<Redirect>, ps: seq<Piece>, z: string)
    requires PiecesOk(ps) && Ends(z) && (ps == [] || ps[0].Arg?) && |done| + |Words(ps)| < MAXARGS
    ensures ParseArgs(done, rs, Typed(ps, z)) == Ok(Wrap(Exec(done + Words(ps)), rs + Redirections(ps)), z)
    decreases |ps|
  {
    hide ParseArgs, ParseRedirs, Skip, Peek, GetToken, Wrap, PiecesOk, WordOk, Typed, Words, Redirections, Lead, Later;
    hide ShowMode;
    EndsFront(z);
    NoPieces();
    TypedOf(ps, z);
    ArgsOf(done, rs, Typed(ps, z));
    if ps == [] {
      assert done + [] == done && rs + [] == rs;
    } else {
      var w, rest := ps[0].w, ps[1..];
      PieceWord(ps);
      ArgFirst(ps);
      TypedFront(rest, z);
      OneWord(w, Typed(rest, z));
      LeadingRedirs(rs, rest, z);
      LaterOf(rest);
      TypedArgs(done + [w], rs + Lead(rest), Later(rest), z);
      assert done + [w] + Words(rest) == done + ([w] + Words(rest));
      assert rs + Lead(rest) + Redirections(Later(rest)) == rs + (Lead(rest) + Redirections(Later(rest)));
    }
  }

  /** Words and redirections of a simple command may come in any order: the words in theirs are the arguments, and
      the redirections in theirs go around it. */
  lemma SimpleCommand(ps: seq<Piece>, z: string)
    requires PiecesOk(ps) && Ends(z) && |Words(ps)| < MAXARGS
    ensures ParseExec(Typed(ps, z)) == Ok(Wrap(Exec(Words(ps)), Redirections(ps)), z)
    ensures var t := ParseExec(Typed(ps, z)).tree; Core(t) == Exec(Words(ps)) && Layers(t) == Redirections(ps)
  {
    hide ParseArgs, ParseRedirs, ParseExec, Skip, Peek, Typed, Words, Redirections, Wrap, PiecesOk, Later, Lead;
    TypedFront(ps, z);
    ExecOf(Typed(ps, z));
    LeadingRedirs([], ps, z);
    LaterOf(ps);
    TypedArgs([], [] + Lead(ps), Later(ps), z);
    assert [] + Words(ps) == Words(ps);
    assert [] + Lead(ps) + Redirections(Later(ps)) == Redirections(ps);
    WrapLayers(Exec(Words(ps)), Redirections(ps));
  }

  // ----- Trees with as few parentheses as needed

  function Pieces(args: seq<string>, rs: seq<Redirect>): (ps: seq<Piece>) {
    seq(|args|, i requires 0 <= i < |args| => Arg(args[i])) + seq(|rs|, i requires 0 <= i < |rs| => Re(rs[i]))
  }

  lemma {:induction false} PiecesAre(args: seq<string>, rs: seq<Redirect>)
    ensures Words(Pieces(args, rs)) == args && Redirections(Pieces(args, rs)) == rs
    decreases |args|, |rs|
  {
    var ps := Pieces(args, rs);
    if args != [] {
      PiecesAre(args[1..], rs);
      assert ps[1..] == Pieces(args[1..], rs);
      assert args == [args[0]] + args[1..];
    } else if rs != [] {
      PiecesAre(args, rs[1..]);
      assert ps[1..] == Pieces(args, rs[1..]);
      assert rs == [rs[0]] + rs[1..];
    }
  }

  /** What stands between parentheses, or at the top: a pipeline, a list or a background command. */
  function FlatBody(t: Tree, z: string): string
    requires t.Pipe? || t.List? || t.Back?
    decreases Size(t), 0
  {
    match t
    case Pipe(l, r) => FlatExec(l, ['|'] + FlatPipe(r, z))
    case List(l, r) => FlatBacks(l, [';'] + FlatLine(r, z))
    case Back(j) => FlatBacks(j, ['&'] + z)
  }

  /** A simple command, or a tree in parentheses, with its redirections. */
  function FlatExec(t: Tree, z: string): string
    decreases Size(t), 1
  {
    var c := Core(t);
    if c.Exec? then Typed(Pieces(c.args, Layers(t)), z)
    else ['('] + FlatBody(c, [')'] + Typed(Pieces([], Layers(t)), z))
  }

  function FlatPipe(t: Tree, z: string): string
    decreases Size(t), 2
  {
    if t.Pipe? then FlatBody(t, z) else FlatExec(t, z)
  }

  function FlatBacks(t: Tree, z: string): string
    decreases Size(t), 3
  {
    if t.Back? then FlatBody(t, z) else FlatPipe(t, z)
  }

  function FlatLine(t: Tree, z: string): string
    decreases Size(t), 4
  {
    if t.List? then FlatBody(t, z) else FlatBacks(t, z)
  }

  lemma {:induction false} LayersOk(t: Tree)
    requires TreeOk(t)
    ensures TreeOk(Core(t)) && PiecesOk(Pieces([], Layers(t)))
    ensures Core(t).Exec? ==> PiecesOk(Pieces(Core(t).args, Layers(t))) && |Core(t).args| < MAXARGS
    decreases t
  {
    hide WordOk;
    if t.Redir? {
      LayersOk(t.sub);
    }
    FilesOk(t);
  }

  lemma {:induction false} FilesOk(t: Tree)
    requires TreeOk(t)
    ensures forall i :: 0 <= i < |Layers(t)| ==> WordOk(Layers(t)[i].file)
    decreases t
  {
    hide WordOk;
    if t.Redir? {
      FilesOk(t.sub);
    }
  }

  /** Nothing flat starts with a blank. */
  lemma {:induction false} FlatFront(t: Tree, z: string)
    requires TreeOk(t) && Ends(z)
    ensures Skip(FlatExec(t, z)) == FlatExec(t, z) && Skip(FlatPipe(t, z)) == FlatPipe(t, z)
    ensures Skip(FlatBacks(t, z)) == FlatBacks(t, z) && Skip(FlatLine(t, z)) == FlatLine(t, z)
    ensures t.Pipe? || t.List? || t.Back? ==> Skip(FlatBody(t, z)) == FlatBody(t, z)
    decreases Size(t)
  {
    hide Skip, Typed, Pieces, Layers, PiecesOk, WordOk;
    Symbols();
    LayersOk(t);
    var c := Core(t);
    if c.Exec? {
      TypedFront(Pieces(c.args, Layers(t)), z);
    } else {
      Front('(', FlatBody(c, [')'] + Typed(Pieces([], Layers(t)), z)));
    }
    match t
    case Pipe(l, r) => FlatFront(l, ['|'] + FlatPipe(r, z));
    case List(l, r) => FlatFront(l, [';'] + FlatLine(r, z));
    case Back(j) => FlatFront(j, ['&'] + z);
    case _ =>
  }

  // ----- Parsing them again

  /** What may follow a pipeline, a background command and a line. */
  predicate AfterPipe(z: string) {
    z == [] || z[0] in {'&', ';', ')'}
  }

  predicate AfterLine(z: string) {
    z == [] || z[0] == ')'
  }

  lemma After1(z: string)
    ensures AfterLine(z) ==> AfterPipe(z)
    ensures AfterPipe(z) ==> Ends(z) && !Peek(z, {'|'})
    ensures AfterLine(z) ==> !Peek(z, {'&'}) && !Peek(z, {';'})
    ensures Ends(z) ==> Skip(z) == z
  {
    if Ends(z) {
      EndsFront(z);
    }
  }

  lemma Starts(c: char, z: string)
    requires c in {'|', '&', ';', ')'}
    ensures Ends([c] + z) && (c != '|' ==> AfterPipe([c] + z)) && (c == ')' ==> AfterLine([c] + z))
  {
  }

  lemma {:induction false} FlatExecParsed(t: Tree, z: string)
    requires TreeOk(t) && Ends(z)
    ensures ParseExec(FlatExec(t, z)) == Ok(t, z)
    decreases Size(t), 2
  {
    hide *;
    LayersOk(t);
    CoreOf(t, z);
    Unwrapped(t);
    var c, rs := Core(t), Layers(t);
    if c.Exec? {
      PiecesAre(c.args, rs);
      SimpleCommand(Pieces(c.args, rs), z);
    } else {
      var y := Typed(Pieces([], rs), z);
      Starts(')', y);
      FlatBodyParsed(c, [')'] + y);
      FlatBodyFront(c, [')'] + y);
      PiecesAre([], rs);
      OnlyRedirs(rs, z);
      InParens(c, FlatBody(c, [')'] + y), y);
    }
  }

  lemma CoreOf(t: Tree, z: string)
    ensures !Core(t).Redir? && Size(Core(t)) <= Size(t)
    ensures FlatExec(t, z) == if Core(t).Exec? then Typed(Pieces(Core(t).args, Layers(t)), z)
      else ['('] + FlatBody(Core(t), [')'] + Typed(Pieces([], Layers(t)), z))
  {
    hide Typed, Pieces, Layers, FlatBody, Core;
  }

  lemma FlatBodyFront(t: Tree, z: string)
    requires TreeOk(t) && AfterLine(z) && (t.Pipe? || t.List? || t.Back?)
    ensures Skip(FlatBody(t, z)) == FlatBody(t, z)
  {
    hide FlatBody, Skip;
    After1(z);
    FlatFront(t, z);
  }

  /** Redirections alone. */
  lemma OnlyRedirs(rs: seq<Redirect>, z: string)
    requires PiecesOk(Pieces([], rs)) && Ends(z)
    ensures ParseRedirs([], Typed(Pieces([], rs), z)) == Redirs(rs, z)
  {
    hide ParseRedirs, Typed, Redirections, Words, PiecesOk;
    var ps := Pieces([], rs);
    PiecesAre([], rs);
    AllLead(ps);
    LeadingRedirs([], ps, z);
    LaterOf(ps);
    NoPieces();
    TypedOf([], z);
    assert [] + Redirections(ps) == Redirections(ps) && Lead(ps) + [] == Lead(ps);
  }

  lemma {:induction false} AllLead(ps: seq<Piece>)
    requires forall i :: 0 <= i < |ps| ==> ps[i].Re?
    ensures Later(ps) == []
    decreases |ps|
  {
    if ps != [] {
      AllLead(ps[1..]);
    }
  }

  /** The body of parentheses, or a line that is not a single command. */
  lemma {:induction false} FlatBodyParsed(t: Tree, z: string)
    requires TreeOk(t) && AfterLine(z) && (t.Pipe? || t.List? || t.Back?)
    ensures ParseLine(FlatBody(t, z)) == Ok(t, z)
    decreases Size(t), 1
  {
    hide *;
    After1(z);
    BodyParts(t, z);
    match t
    case Pipe(l, r) =>
      Sizes(l, r);
      FlatPiped(l, r, z);
      LinePlain(t, FlatBody(t, z), z);
    case List(l, r) =>
      var x := FlatLine(r, z);
      Starts(';', x);
      FlatBacksParsed(l, [';'] + x);
      FlatLineParsed(r, z);
      FlatFront(r, z);
      LineList(l, r, FlatBody(t, z), x, z);
    case Back(j) =>
      Starts('&', z);
      FlatBacksParsed(j, ['&'] + z);
      LineBack(j, FlatBody(t, z), z);
  }

  lemma BodyParts(t: Tree, z: string)
    requires TreeOk(t) && (t.Pipe? || t.List? || t.Back?)
    ensures t.Pipe? ==> TreeOk(t.left) && TreeOk(t.right) && Size(t.left) < Size(t) && Size(t.right) < Size(t)
    ensures t.Pipe? ==> FlatBody(t, z) == FlatExec(t.left, ['|'] + FlatPipe(t.right, z))
    ensures t.List? ==> TreeOk(t.first) && TreeOk(t.second) && Size(t.first) < Size(t) && Size(t.second) < Size(t)
    ensures t.List? ==> FlatBody(t, z) == FlatBacks(t.first, [';'] + FlatLine(t.second, z))
    ensures t.Back? ==> TreeOk(t.job) && Size(t.job) < Size(t) && FlatBody(t, z) == FlatBacks(t.job, ['&'] + z)
  {
    hide FlatExec, FlatPipe, FlatBacks, FlatLine;
  }

  lemma {:induction false} FlatPiped(l: Tree, r: Tree, z: string)
    requires TreeOk(l) && TreeOk(r) && AfterPipe(z)
    ensures ParsePipe(FlatExec(l, ['|'] + FlatPipe(r, z))) == Ok(Pipe(l, r), z)
    decreases Size(l) + Size(r) + 1, 0
  {
    hide *;
    After1(z);
    Sizes(l, r);
    var x := FlatPipe(r, z);
    Starts('|', x);
    FlatExecParsed(l, ['|'] + x);
    FlatPipeParsed(r, z);
    FlatFront(r, z);
    Symbols();
    AfterSymbol('|', x, {'|'});
    PipeOf(FlatExec(l, ['|'] + x));
  }

  lemma Sizes(l: Tree, r: Tree)
    ensures Size(l) > 0 && Size(r) > 0 && Size(Pipe(l, r)) == Size(l) + Size(r) + 1
  {
  }

  lemma {:induction false} FlatPipeParsed(t: Tree, z: string)
    requires TreeOk(t) && AfterPipe(z)
    ensures ParsePipe(FlatPipe(t, z)) == Ok(t, z)
    decreases Size(t), 3
  {
    hide *;
    After1(z);
    PipeCases(t, z);
    if t.Pipe? {
      BodyParts(t, z);
      Sizes(t.left, t.right);
      FlatPiped(t.left, t.right, z);
    } else {
      FlatExecParsed(t, z);
      PipeOf(FlatExec(t, z));
    }
  }

  lemma PipeCases(t: Tree, z: string)
    ensures FlatPipe(t, z) == if t.Pipe? then FlatBody(t, z) else FlatExec(t, z)
    ensures FlatBacks(t, z) == if t.Back? then FlatBody(t, z) else FlatPipe(t, z)
    ensures FlatLine(t, z) == if t.List? then FlatBody(t, z) else FlatBacks(t, z)
  {
    hide FlatBody, FlatExec;
  }

  /** The pipeline and its ampersands. */
  lemma {:induction false} FlatBacksParsed(t: Tree, z: string)
    requires TreeOk(t) && AfterPipe(z)
    ensures var left := ParsePipe(FlatBacks(t, z));
      left.Ok? && ParseBacks(left.tree, left.rest) == ParseBacks(t, z)
    decreases Size(t), 4
  {
    hide *;
    PipeCases(t, z);
    if t.Back? {
      BodyParts(t, z);
      Starts('&', z);
      FlatBacksParsed(t.job, ['&'] + z);
      Symbols();
      After1(z);
      AfterSymbol('&', z, {'&'});
      BacksOf(t.job, ['&'] + z);
      assert t == Back(t.job);
    } else {
      FlatPipeParsed(t, z);
    }
  }

  lemma {:induction false} FlatLineParsed(t: Tree, z: string)
    requires TreeOk(t) && AfterLine(z)
    ensures ParseLine(FlatLine(t, z)) == Ok(t, z)
    decreases Size(t), 5
  {
    hide *;
    After1(z);
    PipeCases(t, z);
    if t.List? {
      FlatBodyParsed(t, z);
    } else {
      FlatBacksParsed(t, z);
      BacksOf(t, z);
      LineOf(FlatBacks(t, z));
    }
  }

  lemma LinePlain(t: Tree, x: string, z: string)
    requires ParsePipe(x) == Ok(t, z) && AfterLine(z)
    ensures ParseLine(x) == Ok(t, z)
  {
    hide *;
    After1(z);
    BacksOf(t, z);
    LineOf(x);
  }

  lemma LineList(l: Tree, r: Tree, x: string, w: string, z: string)
    requires var left := ParsePipe(x); left.Ok? && ParseBacks(left.tree, left.rest) == ParseBacks(l, [';'] + w)
    requires Skip(w) == w && ParseLine(w) == Ok(r, z)
    ensures ParseLine(x) == Ok(List(l, r), z)
  {
    hide *;
    Symbols();
    Front(';', w);
    AfterSymbol(';', w, {';'});
    BacksOf(l, [';'] + w);
    LineOf(x);
  }

  lemma LineBack(j: Tree, x: string, z: string)
    requires var left := ParsePipe(x); left.Ok? && ParseBacks(left.tree, left.rest) == ParseBacks(j, ['&'] + z)
    requires AfterLine(z)
    ensures ParseLine(x) == Ok(Back(j), z)
  {
    hide *;
    Symbols();
    After1(z);
    AfterSymbol('&', z, {'&'});
    BacksOf(j, ['&'] + z);
    BacksOf(Back(j), z);
    LineOf(x);
  }

  /** Every tree, typed with the parentheses it needs and no others, is parsed back. */
  lemma FlatRoundTrip(t: Tree)
    requires TreeOk(t)
    ensures ParseCmd(FlatLine(t, [])) == Ok(t, [])
  {
    hide ParseLine, FlatLine, Skip;
    FlatLineParsed(t, []);
    AtEnd();
  }

  /** Redirections behind a tree in parentheses go around all of it, in order. */
  lemma ParenRedirs(t: Tree, rs: seq<Redirect>, z: string)
    requires TreeOk(t) && PiecesOk(Pieces([], rs)) && Ends(z)
    ensures var q := ParseExec(Show(t, Typed(Pieces([], rs), z)));
      q.Ok? && q.rest == z && Layers(q.tree) == Layers(t) + rs && Core(q.tree) == Core(t)
  {
    hide ParseExec, ParseRedirs, Show, Typed, Pieces, PiecesOk, Ends, Wrap, Layers, Core;
    OnlyRedirs(rs, z);
    Shown(t, Typed(Pieces([], rs), z));
    WrapLayers(t, rs);
  }

  // ----- What is refused

  lemma ExecFails(x: string)
    requires ParseExec(x).Fail?
    ensures ParseCmd(x).Fail?
  {
    hide ParseExec, ParsePipe, ParseLine, Skip;
    PipeOf(x);
    LineOf(x);
  }

  /** A closing parenthesis too many. */
  lemma Leftover(t: Tree, y: string)
    requires TreeOk(t)
    ensures ParseCmd(FlatLine(t, [')'] + y)).Fail?
  {
    hide ParseLine, FlatLine, Skip;
    Starts(')', y);
    After1([')'] + y);
    FlatLineParsed(t, [')'] + y);
  }

  /** One too few. */
  lemma Unclosed(t: Tree)
    requires TreeOk(t)
    ensures ParseCmd(['('] + FlatLine(t, [])).Fail?
  {
    hide ParseLine, ParseBlock, ParseExec, ParseCmd, FlatLine, Skip, Peek, After;
    Symbols();
    AtEnd();
    var x := FlatLine(t, []);
    FlatLineParsed(t, []);
    FlatFront(t, []);
    AfterSymbol('(', x, {'('});
    ExecOf(['('] + x);
    BlockOf(['('] + x);
    ExecFails(['('] + x);
  }

  lemma {:induction false} TooManyArgs(done: seq<string>, rs: seq<Redirect>, ps: seq<Piece>, z: string)
    requires PiecesOk(ps) && Ends(z) && (ps == [] || ps[0].Arg?) && |done| < MAXARGS <= |done| + |Words(ps)|
    ensures ParseArgs(done, rs, Typed(ps, z)).Fail?
    decreases |ps|
  {
    hide ParseArgs, ParseRedirs, Skip, Peek, GetToken, Wrap, PiecesOk, WordOk, Typed, Words, Redirections, Lead, Later;
    hide ShowMode;
    NoPieces();
    TypedOf(ps, z);
    ArgsOf(done, rs, Typed(ps, z));
    var w, rest := ps[0].w, ps[1..];
    PieceWord(ps);
    ArgFirst(ps);
    TypedFront(rest, z);
    OneWord(w, Typed(rest, z));
    if |done| + 1 < MAXARGS {
      LeadingRedirs(rs, rest, z);
      LaterOf(rest);
      TooManyArgs(done + [w], rs + Lead(rest), Later(rest), z);
    }
  }

  /** MAXARGS words or more. */
  lemma TooManyWords(ps: seq<Piece>)
    requires PiecesOk(ps) && |Words(ps)| >= MAXARGS
    ensures ParseCmd(Typed(ps, [])).Fail?
  {
    hide ParseArgs, ParseRedirs, ParseExec, ParseCmd, Skip, Peek, Typed, Words, PiecesOk, Later, Lead, Redirections;
    TypedFront(ps, []);
    ExecOf(Typed(ps, []));
    LeadingRedirs([], ps, []);
    LaterOf(ps);
    TooManyArgs([], [] + Lead(ps), Later(ps), []);
    ExecFails(Typed(ps, []));
  }

  /** A redirection without a file. */
  lemma NoFile(rs: seq<Redirect>, m: Mode, e: string)
    requires Ends(e)
    ensures ParseRedirs(rs, ShowMode(m, e)).BadRedir? && Peek(ShowMode(m, e), {'<', '>'})
    ensures Skip(ShowMode(m, e)) == ShowMode(m, e) && !Peek(ShowMode(m, e), {'('})
  {
    hide ParseRedirs, Skip, Peek, WordLen;
    Symbols();
    EndsFront(e);
    var x := ShowMode(m, e);
    RedirsOf(rs, x);
    assert x == [x[0]] + x[1..];
    Front(x[0], x[1..]);
    NoFileToken(e);
    match m
    case In => AfterSymbol('<', e, {'<'});
    case Out => assert x[1..] == e;
    case Append => assert x[2..] == e;
  }

  lemma NoFileToken(e: string)
    requires Ends(e)
    ensures GetToken(e).kind != 'a' && (e != [] ==> e[0] != '>')
  {
    hide WordLen, Skip;
    Symbols();
    EndsFront(e);
  }

  lemma MissingFront(ps: seq<Piece>, m: Mode, e: string)
    requires PiecesOk(ps) && Ends(e)
    ensures var x := Typed(ps, ShowMode(m, e));
      x != [] && Skip(x) == x && !IsSpace(x[0]) && !Peek(x, {'('}) && (ps != [] && ps[0].Arg? ==> !Peek(x, {'<', '>'}))
  {
    hide Skip, Peek;
    Symbols();
    var x := Typed(ps, ShowMode(m, e));
    if ps != [] {
      assert PieceOk(ps[0]);
    }
    assert x == [x[0]] + x[1..];
    Front(x[0], x[1..]);
  }

  lemma {:induction false} MissingLead(rs: seq<Redirect>, ps: seq<Piece>, m: Mode, e: string)
    requires PiecesOk(ps) && Ends(e)
    ensures var q := ParseRedirs(rs, Typed(ps, ShowMode(m, e)));
      if Later(ps) == [] then q.BadRedir? else q == Redirs(rs + Lead(ps), Typed(Later(ps), ShowMode(m, e)))
    decreases |ps|
  {
    hide ParseRedirs, Skip, Peek, GetToken, ShowMode, PiecesOk, WordOk, Typed;
    var z := ShowMode(m, e);
    MissingFront(ps, m, e);
    TypedOf(ps, z);
    if ps == [] {
      NoFile(rs, m, e);
    } else if ps[0].Arg? {
      RedirsOf(rs, Typed(ps, z));
      assert rs + [] == rs;
    } else {
      var r, rest := ps[0].r, ps[1..];
      PieceWord(ps);
      MissingLead(rs + [r], rest, m, e);
      MissingFront(rest, m, e);
      OneRedir(rs, r, Typed(rest, z));
      assert rs + [r] + Lead(rest) == rs + ([r] + Lead(rest));
    }
  }

  lemma {:induction false} MissingArgs(done: seq<string>, rs: seq<Redirect>, ps: seq<Piece>, m: Mode, e: string)
    requires PiecesOk(ps) && Ends(e) && ps != [] && ps[0].Arg?
    ensures ParseArgs(done, rs, Typed(ps, ShowMode(m, e))).Fail?
    decreases |ps|
  {
    hide ParseArgs, ParseRedirs, Skip, Peek, GetToken, Wrap, PiecesOk, WordOk, Typed, Words, Redirections, Lead, Later;
    hide ShowMode;
    var z := ShowMode(m, e);
    TypedOf(ps, z);
    ArgsOf(done, rs, Typed(ps, z));
    var w, rest := ps[0].w, ps[1..];
    PieceWord(ps);
    MissingFront(rest, m, e);
    OneWord(w, Typed(rest, z));
    MissingLead(rs, rest, m, e);
    LaterOf(rest);
    if Later(rest) != [] {
      MissingArgs(done + [w], rs + Lead(rest), Later(rest), m, e);
    }
  }

  /** A redirection whose file is missing, after any words and redirections. */
  lemma MissingFile(ps: seq<Piece>, m: Mode, e: string)
    requires PiecesOk(ps) && Ends(e)
    ensures ParseCmd(Typed(ps, ShowMode(m, e))).Fail?
  {
    hide ParseArgs, ParseRedirs, ParseExec, ParseCmd, Skip, Peek, Typed, Words, PiecesOk, Later, Lead, ShowMode;
    hide Redirections;
    var x := Typed(ps, ShowMode(m, e));
    MissingFront(ps, m, e);
    ExecOf(x);
    MissingLead([], ps, m, e);
    LaterOf(ps);
    if Later(ps) != [] {
      MissingArgs([], [] + Lead(ps), Later(ps), m, e);
    }
    ExecFails(x);
  }

  // ----- Blanks

  predicate Blank(w: string) {
    forall i :: 0 <= i < |w| ==> w[i] in {' ', '\t', '\r', '\n', '\U{0B}'}
  }

  lemma {:induction false} SkipBlanks(w: string, x: string)
    requires Blank(w)
    ensures Skip(w + x) == Skip(x)
  {
    if w == [] {
      assert w + x == x;
    } else {
      assert (w + x)[1..] == w[1..] + x && (w + x)[0] == w[0];
      SkipBlanks(w[1..], x);
    }
  }

  lemma SameTokens(y: string, x: string)
    requires Skip(y) == Skip(x)
    ensures GetToken(y) == GetToken(x) && forall toks :: Peek(y, toks) <==> Peek(x, toks)
  {
    hide Skip, WordLen, IsSymbol;
  }

  /** Blanks in front change nothing for any rule. */
  lemma SameParse(y: string, x: string)
    requires Skip(y) == Skip(x)
    ensures ParseExec(y) == ParseExec(x) && ParseLine(y) == ParseLine(x)
  {
    hide ParseExec, ParseBlock, ParsePipe, ParseLine, ParseRedirs, ParseArgs, ParseBacks, Skip, Peek, GetToken, Wrap;
    SameTokens(y, x);
    RedirsOf([], y);
    RedirsOf([], x);
    ExecOf(y);
    ExecOf(x);
    if Peek(x, {'('}) {
      BlockOf(y);
      BlockOf(x);
    }
    PipeOf(y);
    PipeOf(x);
    LineOf(y);
    LineOf(x);
  }

  /** A line means the same with spaces, tabs, carriage returns, newlines and vertical tabs in front of it. */
  lemma LeadingBlanks(w: string, x: string)
    requires Blank(w)
    ensures ParseCmd(w + x) == ParseCmd(x)
  {
    SkipBlanks(w, x);
    SameParse(w + x, x);
  }
}
