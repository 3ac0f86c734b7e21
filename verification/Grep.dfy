/**
 user/grep.c: the regular expression matcher against the language its patterns stand for, and the
 line loop over a buffer refilled by reads of any size.
 */
module Grep {
  import opened Params

  // ----- What patterns mean

  /** One character, or any number of them; '.' stands for every character. */
  datatype Item = One(c: char) | Star(c: char)

  datatype Regex = Regex(items: seq<Item>, atEnd: bool)

  predicate Hit(c: char, x: char) {
    c == '.' || c == x
  }

  /** w is in the language of the items, in order. */
  ghost predicate In(items: seq<Item>, w: string)
    decreases |items|
  {
    if items == [] then w == []
    else match items[0]
      case One(c) => w != [] && Hit(c, w[0]) && In(items[1..], w[1..])
      case Star(c) => exists k :: Stars(c, w, k) && In(items[1..], w[k..])
  }

  ghost predicate Stars(c: char, w: string, k: int) {
    0 <= k <= |w| && forall i :: 0 <= i < k ==> Hit(c, w[i])
  }

  /** A prefix of text, or all of it if the pattern ends in '$', is in the language. */
  ghost predicate Here(r: Regex, text: string) {
    exists j :: Cut(r, text, j)
  }

  ghost predicate Cut(r: Regex, text: string, j: int) {
    0 <= j <= |text| && (r.atEnd ==> j == |text|) && In(r.items, text[..j])
  }

  /** The regular expression that a pattern writes, once a leading '^' is gone. */
  function Parse(re: string): (r: Regex) {
    if re == [] then Regex([], false)
    else if |re| >= 2 && re[1] == '*' then
      var r := Parse(re[2..]);
      Regex([Star(re[0])] + r.items, r.atEnd)
    else if re == "$" then Regex([], true)
    else
      var r := Parse(re[1..]);
      Regex([One(re[0])] + r.items, r.atEnd)
  }

  /** Some substring of text, at the beginning if the pattern starts with '^', matches. */
  ghost predicate Matches(re: string, text: string) {
    if re != [] && re[0] == '^' then Here(Parse(re[1..]), text)
    else exists i :: From(Parse(re), text, i)
  }

  ghost predicate From(r: Regex, text: string, i: int) {
    0 <= i <= |text| && Here(r, text[i..])
  }

  // ----- How patterns are written

  function ShowItem(x: Item): string {
    match x
    case One(c) => [c]
    case Star(c) => [c, '*']
  }

  function ShowItems(items: seq<Item>): string {
    if items == [] then [] else ShowItem(items[0]) + ShowItems(items[1..])
  }

  /** The pattern that writes r. */
  function Show(r: Regex): string {
    ShowItems(r.items) + (if r.atEnd then "$" else "")
  }

  /** A pattern can write r: a plain character is not followed by a star, and a '$' at the end is not plain. */
  ghost predicate Writable(r: Regex) {
    && (forall i :: 0 <= i < |r.items| - 1 && r.items[i].One? ==> r.items[i + 1].c != '*')
    && (r.items != [] && r.items[|r.items| - 1] == One('$') ==> r.atEnd)
  }

  lemma ShowFirst(r: Regex)
    requires r.items != []
    ensures var rest := Regex(r.items[1..], r.atEnd); Show(r) == ShowItem(r.items[0]) + Show(rest)
  {
  }

  /** What follows the first item in print. */
  lemma ShowNext(r: Regex)
    ensures Show(r) == [] <==> r == Regex([], false)
    ensures r.items != [] ==> |Show(r)| > 0 && Show(r)[0] == r.items[0].c
    ensures r == Regex([], true) ==> Show(r) == "$"
    ensures Show(r) == "$" && Writable(r) ==> r == Regex([], true)
  {
    if r.items != [] {
      ShowFirst(r);
      var rest := Regex(r.items[1..], r.atEnd);
      if rest.items != [] {
        ShowFirst(rest);
      }
    }
  }

  lemma WritableRest(r: Regex)
    requires Writable(r) && r.items != []
    ensures Writable(Regex(r.items[1..], r.atEnd))
  {
  }

  /** Parsing the print of a regular expression that can be written gives it back. */
  lemma {:induction false} ParseShow(r: Regex)
    requires Writable(r)
    ensures Parse(Show(r)) == r
    decreases |r.items|
  {
    hide Show, Writable;
    ShowNext(r);
    if r.items != [] {
      var x, rest := r.items[0], Regex(r.items[1..], r.atEnd);
      WritableRest(r);
      ParseShow(rest);
      ShowFirst(r);
      ShowNext(rest);
      NotStarred(r);
      assert r.items == [x] + rest.items;
      match x
      case Star(c) => assert Show(r)[2..] == Show(rest);
      case One(c) => assert Show(r)[1..] == Show(rest);
    }
  }

  lemma NotStarred(r: Regex)
    requires Writable(r) && r.items != []
    ensures r.items[0].One? && |Show(r)| >= 2 ==> Show(r)[1] != '*'
    ensures Show(r) != "$"
  {
    ShowFirst(r);
    var rest := Regex(r.items[1..], r.atEnd);
    ShowNext(rest);
    ShowNext(r);
  }

  /** Every pattern is the print of what it parses to, which can be written: the two forms match one to one. */
  lemma {:induction false} ShowParse(re: string)
    ensures Show(Parse(re)) == re && Writable(Parse(re))
    decreases |re|
  {
    if re == [] || re == "$" {
    } else if |re| >= 2 && re[1] == '*' {
      var r := Parse(re[2..]);
      ShowParse(re[2..]);
      ShowFirst(Parse(re));
      assert Parse(re).items[1..] == r.items;
      assert re == [re[0], '*'] + re[2..];
    } else {
      var r := Parse(re[1..]);
      ShowParse(re[1..]);
      ShowFirst(Parse(re));
      ShowNext(r);
      assert Parse(re).items[1..] == r.items;
      assert re == [re[0]] + re[1..];
    }
  }

  // ----- What single patterns match

  /** Words without operators; a '.' stands for any character. */
  ghost predicate NoOperators(w: string) {
    forall i :: 0 <= i < |w| ==> w[i] !in {'*', '$', '^'}
  }

  ghost predicate Agrees(w: string, v: string) {
    |v| == |w| && forall i :: 0 <= i < |w| ==> w[i] == '.' || w[i] == v[i]
  }

  lemma {:induction false} ParsePlain(w: string, tail: string)
    requires NoOperators(w) && tail in {"", "$"}
    ensures Parse(w + tail) == Regex(Ones(w), tail == "$")
    decreases |w|
  {
    if w == [] {
      assert w + tail == tail;
    } else {
      ParsePlain(w[1..], tail);
      assert (w + tail)[1..] == w[1..] + tail;
      assert |w| >= 2 ==> w[1] != '*';
      assert w[0] != '$';
    }
  }

  function Ones(w: string): seq<Item> {
    if w == [] then [] else [One(w[0])] + Ones(w[1..])
  }

  lemma {:induction false} InOnes(w: string, v: string)
    ensures In(Ones(w), v) <==> Agrees(w, v)
    decreases |w|
  {
    if w != [] {
      assert Ones(w)[1..] == Ones(w[1..]);
      if v != [] {
        InOnes(w[1..], v[1..]);
        if Agrees(w[1..], v[1..]) && Hit(w[0], v[0]) {
          forall i | 0 <= i < |w| ensures w[i] == '.' || w[i] == v[i] {
            assert i > 0 ==> w[i] == w[1..][i - 1] && v[i] == v[1..][i - 1];
          }
        }
      }
    }
  }

  lemma HereOnes(w: string, atEnd: bool, text: string)
    ensures Here(Regex(Ones(w), atEnd), text) <==>
      |w| <= |text| && (atEnd ==> |w| == |text|) && Agrees(w, text[..|w|])
  {
    var r := Regex(Ones(w), atEnd);
    forall j | 0 <= j <= |text| ensures In(r.items, text[..j]) <==> Agrees(w, text[..j]) {
      InOnes(w, text[..j]);
    }
    if |w| <= |text| && (atEnd ==> |w| == |text|) && Agrees(w, text[..|w|]) {
      assert Cut(r, text, |w|);
    }
  }

  /** Between '^' and '$', a plain word matches the texts that agree with it character by character. */
  lemma WholeLine(w: string, text: string)
    requires NoOperators(w)
    ensures Matches("^" + w + "$", text) <==> Agrees(w, text)
  {
    assert ("^" + w + "$")[1..] == w + "$";
    ParsePlain(w, "$");
    HereOnes(w, true, text);
    assert text[..|text|] == text;
  }

  /** After '^', the beginnings. */
  lemma LineStart(w: string, text: string)
    requires NoOperators(w)
    ensures Matches("^" + w, text) <==> |w| <= |text| && Agrees(w, text[..|w|])
  {
    assert ("^" + w)[1..] == w + "";
    ParsePlain(w, "");
    HereOnes(w, false, text);
  }

  ghost predicate AgreesAt(w: string, atEnd: bool, text: string, i: int) {
    0 <= i && i + |w| <= |text| && (atEnd ==> i + |w| == |text|) && Agrees(w, text[i..i + |w|])
  }

  /** On its own it is searched for; before '$', at the end. */
  lemma Substring(w: string, atEnd: bool, text: string)
    requires NoOperators(w)
    ensures Matches(w + (if atEnd then "$" else ""), text) <==> exists i :: AgreesAt(w, atEnd, text, i)
  {
    var tail := if atEnd then "$" else "";
    var r := Regex(Ones(w), atEnd);
    ParsePlain(w, tail);
    assert w == [] || w[0] != '^';
    assert w + tail == [] || (w + tail)[0] != '^';
    forall i ensures From(r, text, i) <==> AgreesAt(w, atEnd, text, i) {
      if 0 <= i <= |text| {
        HereOnes(w, atEnd, text[i..]);
        if i + |w| <= |text| {
          assert text[i..][..|w|] == text[i..i + |w|];
        }
      }
    }
  }

  /** A starred character alone matches the lines of nothing else; with '.', every line. */
  lemma OnlyStar(c: char, text: string)
    ensures Matches(['^', c, '*', '$'], text) <==> forall i :: 0 <= i < |text| ==> c == '.' || text[i] == c
  {
    var re := ['^', c, '*', '$'];
    assert re[1..] == [c, '*', '$'] && [c, '*', '$'][2..] == "$";
    var r := Regex([], true);
    assert Parse(re[1..]) == Regex([Star(c)] + r.items, true);
    HereStar(c, r, text);
    forall k | 0 <= k <= |text| ensures Here(r, text[k..]) <==> k == |text| {
      HereEmpty(text[k..]);
    }
    assert text[|text|..] == [];
    if forall i :: 0 <= i < |text| ==> c == '.' || text[i] == c {
      assert Stars(c, text, |text|);
    }
  }

  // ----- The matcher

  lemma HereEmpty(text: string)
    ensures Here(Regex([], false), text) && (Here(Regex([], true), text) <==> text == [])
  {
    assert Cut(Regex([], false), text, 0);
    if text == [] {
      assert Cut(Regex([], true), text, 0);
    }
  }

  lemma HereOne(c: char, r: Regex, text: string)
    ensures Here(Regex([One(c)] + r.items, r.atEnd), text) <==> text != [] && Hit(c, text[0]) && Here(r, text[1..])
  {
    var s := Regex([One(c)] + r.items, r.atEnd);
    assert s.items[1..] == r.items;
    if Here(s, text) {
      var j :| Cut(s, text, j);
      assert text[..j][1..] == text[1..][..j - 1];
      assert Cut(r, text[1..], j - 1);
    }
    if text != [] && Hit(c, text[0]) && Here(r, text[1..]) {
      var j :| Cut(r, text[1..], j);
      assert text[..j + 1][1..] == text[1..][..j];
      assert Cut(s, text, j + 1);
    }
  }

  lemma HereStar(c: char, r: Regex, text: string)
    ensures Here(Regex([Star(c)] + r.items, r.atEnd), text) <==> exists k :: Stars(c, text, k) && Here(r, text[k..])
  {
    var s := Regex([Star(c)] + r.items, r.atEnd);
    assert s.items[1..] == r.items;
    if Here(s, text) {
      var j :| Cut(s, text, j);
      var k :| Stars(c, text[..j], k) && In(r.items, text[..j][k..]);
      assert text[..j][k..] == text[k..][..j - k];
      assert Cut(r, text[k..], j - k) && Stars(c, text, k);
    }
    if k :| Stars(c, text, k) && Here(r, text[k..]) {
      var j :| Cut(r, text[k..], j);
      assert text[..k + j][k..] == text[k..][..j];
      assert Stars(c, text[..k + j], k);
      assert Cut(s, text, k + j);
    }
  }

  method Match(re: string, text: string) returns (b: bool)
    ensures b <==> Matches(re, text)
  {
    if |re| > 0 && re[0] == '^' {
      b := MatchHere(re[1..], text);
      return;
    }
    var t := 0;
    while true
      invariant 0 <= t <= |text| && forall i :: 0 <= i < t ==> !From(Parse(re), text, i)
      decreases |text| - t
    {
      var here := MatchHere(re, text[t..]);
      if here {
        assert From(Parse(re), text, t);
        return true;
      }
      if t == |text| {
        return false;
      }
      t := t + 1;
    }
  }

  method MatchHere(re: string, text: string) returns (b: bool)
    ensures b <==> Here(Parse(re), text)
    decreases |re|, 0
  {
    HereEmpty(text);
    if |re| == 0 {
      return true;
    }
    if |re| > 1 && re[1] == '*' {
      HereStar(re[0], Parse(re[2..]), text);
      b := MatchStar(re[0], re[2..], text);
      return;
    }
    if re[0] == '$' && |re| == 1 {
      return |text| == 0;
    }
    HereOne(re[0], Parse(re[1..]), text);
    if |text| > 0 && (re[0] == '.' || re[0] == text[0]) {
      b := MatchHere(re[1..], text[1..]);
      return;
    }
    b := false;
  }

  method MatchStar(c: char, re: string, text: string) returns (b: bool)
    ensures b <==> exists k :: Stars(c, text, k) && Here(Parse(re), text[k..])
    decreases |re|, 1
  {
    var t := 0;
    while true
      invariant Stars(c, text, t) && forall k :: 0 <= k < t ==> !Here(Parse(re), text[k..])
      decreases |text| - t
    {
      var here := MatchHere(re, text[t..]);
      if here {
        return true;
      }
      if !(t < |text| && (text[t] == c || c == '.')) {
        return false;
      }
      t := t + 1;
    }
  }

  // ----- Lines

  const BUFSIZE := 1024

  /** The first newline, or -1. */
  function FirstNl(s: string): (i: int)
    ensures -1 <= i < |s| && (i >= 0 ==> s[i] == '\n')
    ensures forall k :: 0 <= k < (if i < 0 then |s| else i) ==> s[k] != '\n'
  {
    if s == [] then -1
    else if s[0] == '\n' then 0
    else
      var i := FirstNl(s[1..]);
      if i < 0 then -1 else i + 1
  }

  /** The newline-terminated lines of s that match, in order. */
  ghost function Grepped(re: string, s: string): (out: string)
    decreases |s|
  {
    var i := FirstNl(s);
    if i < 0 then [] else (if Matches(re, s[..i]) then s[..i + 1] else []) + Grepped(re, s[i + 1..])
  }

  /** s up to the first line that does not fit the buffer with its newline. */
  ghost function Readable(s: string): (r: string)
    decreases |s|
  {
    var i := FirstNl(s);
    if i < 0 || i > BUFSIZE - 2 then [] else s[..i + 1] + Readable(s[i + 1..])
  }

  lemma FirstNlIs(s: string, i: int)
    requires 0 <= i < |s| && s[i] == '\n' && forall k :: 0 <= k < i ==> s[k] != '\n'
    ensures FirstNl(s) == i
  {
    var j := FirstNl(s);
    assert j >= 0 ==> s[j] == '\n';
  }

  lemma NoNl(s: string, n: int)
    requires 0 <= n <= |s| && forall k :: 0 <= k < n ==> s[k] != '\n'
    ensures FirstNl(s) < 0 || FirstNl(s) >= n
  {
  }

  lemma {:induction false} GreppedAppend(re: string, a: string, b: string)
    requires a == [] || a[|a| - 1] == '\n'
    ensures Grepped(re, a + b) == Grepped(re, a) + Grepped(re, b)
    decreases |a|
  {
    hide FirstNl, Matches;
    if a == [] {
      assert a + b == b;
    } else {
      var i := FirstNl(a);
      assert i >= 0 by { assert a[|a| - 1] == '\n'; }
      FirstNlIs(a + b, i);
      assert (a + b)[..i] == a[..i] && (a + b)[..i + 1] == a[..i + 1] && (a + b)[i + 1..] == a[i + 1..] + b;
      GreppedAppend(re, a[i + 1..], b);
      GreppedAssoc(if Matches(re, a[..i]) then a[..i + 1] else [], Grepped(re, a[i + 1..]), Grepped(re, b));
    }
  }

  lemma GreppedAssoc(x: string, y: string, z: string)
    ensures x + (y + z) == (x + y) + z
  {
  }

  /** A single line. */
  lemma GreppedLine(re: string, line: string)
    requires line != [] && line[|line| - 1] == '\n' && forall k :: 0 <= k < |line| - 1 ==> line[k] != '\n'
    ensures Grepped(re, line) == if Matches(re, line[..|line| - 1]) then line else []
  {
    hide Matches, FirstNl;
    FirstNlIs(line, |line| - 1);
    assert line[..|line|] == line && line[|line|..] == [];
    assert Grepped(re, []) == [];
  }

  lemma ReadableOf(s: string, i: int)
    requires i == FirstNl(s)
    ensures Readable(s) == if i < 0 || i > BUFSIZE - 2 then [] else s[..i + 1] + Readable(s[i + 1..])
  {
    hide FirstNl;
  }

  lemma GreppedOf(re: string, s: string, i: int)
    requires i == FirstNl(s)
    ensures Grepped(re, s) ==
        if i < 0 then [] else (if Matches(re, s[..i]) then s[..i + 1] else []) + Grepped(re, s[i + 1..])
  {
    hide FirstNl, Matches;
  }

  /** Whole lines that fit the buffer together are read. */
  lemma {:induction false} ReadableAppend(a: string, b: string)
    requires a == [] || a[|a| - 1] == '\n'
    requires |a| < BUFSIZE
    ensures Readable(a + b) == a + Readable(b)
    decreases |a|
  {
    hide FirstNl, Readable;
    if a == [] {
      assert a + b == b;
    } else {
      var i := FirstNl(a);
      assert i >= 0 by { assert a[|a| - 1] == '\n'; }
      FirstNlIs(a + b, i);
      ReadableOf(a + b, i);
      Halves(a, b, i + 1);
      ReadableAppend(a[i + 1..], b);
      GreppedAssoc(a[..i + 1], a[i + 1..], Readable(b));
    }
  }

  lemma Halves(a: string, b: string, k: int)
    requires 0 <= k <= |a|
    ensures (a + b)[..k] == a[..k] && (a + b)[k..] == a[k..] + b && a == a[..k] + a[k..]
  {
  }

  lemma NothingMore(pend: string, unread: string)
    requires (forall k :: 0 <= k < |pend| ==> pend[k] != '\n') && (unread == [] || |pend| >= BUFSIZE - 1)
    ensures Readable(pend + unread) == []
  {
    NoNl(pend + unread, |pend|);
  }

  /** Every line fits the buffer with its newline. */
  ghost predicate ShortLines(s: string)
    decreases |s|
  {
    var i := FirstNl(s);
    i < 0 || (i <= BUFSIZE - 2 && ShortLines(s[i + 1..]))
  }

  /** Then nothing is left out. */
  lemma {:induction false} AllReadable(re: string, s: string)
    requires ShortLines(s)
    ensures Grepped(re, Readable(s)) == Grepped(re, s)
    decreases |s|
  {
    hide Matches, FirstNl, Grepped, Readable;
    var i := FirstNl(s);
    ReadableOf(s, i);
    if i >= 0 {
      var a, t := s[..i + 1], s[i + 1..];
      AllReadable(re, t);
      GreppedAppend(re, a, Readable(t));
      GreppedAppend(re, a, t);
      assert s == a + t;
    } else {
      GreppedOf(re, s, i);
      GreppedNothing(re);
    }
  }

  // ----- The loop

  /** strchr(p, '\n') in a buffer with a NUL at m. */
  method FindNl(buf: array<char>, p: int, m: int) returns (q: int)
    requires buf.Length == BUFSIZE && 0 <= p <= m < BUFSIZE && buf[m] == NUL && forall k :: p <= k < m ==> buf[k] != NUL
    ensures q == -1 ==> forall k :: p <= k < m ==> buf[k] != '\n'
    ensures q != -1 ==> p <= q < m && buf[q] == '\n' && forall k :: p <= k < q ==> buf[k] != '\n'
  {
    q := p;
    while buf[q] != NUL
      invariant p <= q <= m && forall k :: p <= k < q ==> buf[k] != '\n'
      decreases m - q
    {
      if buf[q] == '\n' {
        return;
      }
      q := q + 1;
    }
    q := -1;
  }

  function Min(a: int, b: int): int {
    if a < b then a else b
  }

  /** s has neither newline nor NUL. */
  ghost predicate Plain(s: string) {
    forall k :: 0 <= k < |s| ==> s[k] != '\n' && s[k] != NUL
  }

  ghost predicate NoNul(s: string) {
    forall k :: 0 <= k < |s| ==> s[k] != NUL
  }

  /** The loop over the lines in the buffer; what is left of it, from p on, has no newline. */
  method Lines(re: string, buf: array<char>, m: int) returns (out: string, p: int)
    requires buf.Length == BUFSIZE && 0 <= m < BUFSIZE && buf[m] == NUL && NoNul(buf[..m])
    modifies buf
    ensures 0 <= p <= m && buf[p..m] == old(buf[..m])[p..] && Plain(buf[p..m])
    ensures p == 0 || old(buf[..m])[p - 1] == '\n'
    ensures out == Grepped(re, old(buf[..m])[..p])
  {
    hide Matches, Grepped, FirstNl;
    ghost var s := buf[..m];
    p, out := 0, [];
    GreppedNothing(re);
    while true
      invariant 0 <= p <= m && buf[m] == NUL && forall k :: p <= k < m ==> buf[k] == s[k]
      invariant p == 0 || s[p - 1] == '\n'
      invariant out == Grepped(re, s[..p])
      decreases m - p
    {
      var q := FindNl(buf, p, m);
      if q == -1 {
        break;
      }
      NextLine(re, s, p, q);
      SameText(buf[p..q], s, p, q);
      SameText(buf[p..q + 1], s, p, q + 1);
      var line := OneLine(re, buf, p, q);
      out := out + line;
      p := q + 1;
    }
  }

  /** The C string at the front of s. */
  function CText(s: string): string {
    if s == [] || s[0] == NUL then [] else [s[0]] + CText(s[1..])
  }

  lemma {:induction false} CTextEnds(s: string, n: int)
    requires 0 <= n < |s| && s[n] == NUL && forall k :: 0 <= k < n ==> s[k] != NUL
    ensures CText(s) == s[..n]
    decreases n
  {
    if n > 0 {
      CTextEnds(s[1..], n - 1);
      assert s[..n] == [s[0]] + s[1..][..n - 1];
    }
  }

  /** One line, cut off with a NUL for the matcher; it gets its newline back to be printed. */
  method OneLine(re: string, buf: array<char>, p: int, q: int) returns (out: string)
    requires 0 <= p <= q < buf.Length && buf[q] == '\n' && forall k :: p <= k < q ==> buf[k] != NUL
    modifies buf
    ensures forall k :: 0 <= k < buf.Length && k != q ==> buf[k] == old(buf[k])
    ensures out == if Matches(re, old(buf[p..q])) then old(buf[p..q + 1]) else []
  {
    hide Matches;
    ghost var text := buf[p..q];
    out := [];
    buf[q] := NUL;
    CTextEnds(buf[p..], q - p);
    assert buf[p..][..q - p] == text;
    var b := Match(re, CText(buf[p..]));
    if b {
      buf[q] := '\n';
      out := buf[p..q + 1];
    }
  }

  lemma SameText(x: string, s: string, p: int, q: int)
    requires 0 <= p <= q <= |s| && |x| == q - p && forall k :: 0 <= k < |x| ==> x[k] == s[p + k]
    ensures x == s[p..q] && forall r :: q <= r <= |s| ==> x == s[p..r][..q - p]
  {
  }

  lemma NextLine(re: string, s: string, p: int, q: int)
    requires 0 <= p <= q < |s| && s[q] == '\n' && (forall k :: p <= k < q ==> s[k] != '\n')
      && (p == 0 || s[p - 1] == '\n')
    ensures var line := s[p..q + 1];
      Grepped(re, s[..q + 1]) == Grepped(re, s[..p]) + if Matches(re, line[..q - p]) then line else []
  {
    hide Matches, Grepped, FirstNl;
    var line := s[p..q + 1];
    assert s[..q + 1] == s[..p] + line;
    GreppedAppend(re, s[..p], line);
    GreppedLine(re, line);
  }

  lemma GreppedNothing(re: string)
    ensures Grepped(re, []) == []
  {
  }

  /** What the outer loop has done so far: whole lines, and the rest of the input to come. */
  ghost predicate Progress(re: string, input: string, done: string, rest: string, out: string) {
    && (done == [] || done[|done| - 1] == '\n') && out == Grepped(re, done)
    && Readable(input) == done + Readable(rest)
  }

  lemma Round(re: string, input: string, done: string, s: string, unread: string, out: string, p: int, more: string)
    requires Progress(re, input, done, s + unread, out) && |s| < BUFSIZE && 0 <= p <= |s|
    requires (p == 0 || s[p - 1] == '\n') && more == Grepped(re, s[..p])
    ensures Progress(re, input, done + s[..p], s[p..] + unread, out + more)
  {
    hide Grepped, Readable;
    var a, b := s[..p], s[p..];
    assert s == a + b;
    GreppedAppend(re, done, a);
    ReadableAppend(a, b + unread);
    GreppedAssoc(a, b, unread);
    GreppedAssoc(done, a, Readable(b + unread));
  }

  /** grep: read number t returns about cuts[t] bytes, or as many as fit. */
  method Grep(re: string, input: string, cuts: seq<int>) returns (out: string)
    requires NoNul(input)
    ensures out == Grepped(re, Readable(input))
  {
    hide Grepped, Readable, Progress;
    var buf := new char[BUFSIZE];
    var m, pos, t := 0, 0, 0;
    out := [];
    ghost var done := [];
    GrepStarts(re, input);
    assert buf[..m] + input[pos..] == input;
    while true
      invariant 0 <= m < BUFSIZE && 0 <= pos <= |input| && 0 <= t && Plain(buf[..m])
      invariant Progress(re, input, done, buf[..m] + input[pos..], out)
      decreases |input| - pos
    {
      var room := Min(BUFSIZE - m - 1, |input| - pos);
      var n := if t < |cuts| && 0 < cuts[t] < room then cuts[t] else room;
      if n <= 0 {
        break;
      }
      Refilled(buf[..m], input, pos, n);
      Fill(buf, m, input[pos..pos + n]);
      m, pos, t := m + n, pos + n, t + 1;
      ghost var s := buf[..m];
      buf[m] := NUL;
      assert buf[..m] == s;
      var more, p := Lines(re, buf, m);
      Round(re, input, done, s, input[pos..], out, p, more);
      done := done + s[..p];
      out := out + more;
      ghost var left := buf[p..m];
      Fill(buf, 0, buf[p..m]);
      m := m - p;
      assert buf[..m] == left;
    }
    GrepEnds(re, input, done, buf[..m], input[pos..], out);
  }

  lemma GrepStarts(re: string, input: string)
    ensures Progress(re, input, [], input, [])
  {
    GreppedNothing(re);
  }

  lemma GrepEnds(re: string, input: string, done: string, pend: string, unread: string, out: string)
    requires Progress(re, input, done, pend + unread, out) && Plain(pend) && (unread == [] || |pend| >= BUFSIZE - 1)
    ensures out == Grepped(re, Readable(input))
  {
    hide Grepped, Readable;
    NothingMore(pend, unread);
    assert done + [] == done;
  }

  /** read into buf + m, or memmove to its front. */
  method Fill(buf: array<char>, m: int, s: string)
    requires 0 <= m && m + |s| <= buf.Length
    modifies buf
    ensures buf[..m + |s|] == old(buf[..m]) + s
  {
    forall x | 0 <= x < |s| {
      buf[m + x] := s[x];
    }
  }

  lemma Refilled(pend: string, input: string, pos: int, n: int)
    requires 0 <= pos && 0 <= n && pos + n <= |input| && NoNul(input) && Plain(pend)
    ensures var s := pend + input[pos..pos + n]; pend + input[pos..] == s + input[pos + n..] && NoNul(s)
  {
    assert input[pos..] == input[pos..pos + n] + input[pos + n..];
    GreppedAssoc(pend, input[pos..pos + n], input[pos + n..]);
  }
}
