/**
 Directories of kernel/fs.c as values: entries with fixed-size names, the bytes they are stored as, and the map
 from names cut to DIRSIZ that they stand for.
 */
module Dirs {
  import opened Params

  /** struct dirent; name has DIRSIZ bytes, padded with NUL. */
  datatype Dirent = Dirent(inum: int, name: string)

  const DIRENT := 16    // sizeof(struct dirent)

  // ----- Names

  /** Byte i of a C string. */
  function At(s: string, i: int): char
    requires 0 <= i
  {
    if i < |s| then s[i] else NUL
  }

  predicate NoNul(s: string) {
    forall i :: 0 <= i < |s| ==> s[i] != NUL
  }

  /** A name as far as directories keep it. */
  function Cut(name: string): (r: string)
    ensures |r| <= DIRSIZ
  {
    if |name| > DIRSIZ then name[..DIRSIZ] else name
  }

  /** name in an entry: the bytes, then NULs. */
  function Padded(name: string): (r: string)
    ensures |r| == DIRSIZ && forall i :: 0 <= i < DIRSIZ ==> r[i] == At(name, i)
  {
    seq(DIRSIZ, i requires 0 <= i => At(name, i))
  }

  /** The first n bytes of s and t are the same C string. */
  ghost predicate SameUpTo(s: string, t: string, n: int) {
    forall i :: 0 <= i < n && (forall k :: 0 <= k < i ==> At(s, k) != NUL) ==> At(s, i) == At(t, i)
  }

  /** strncmp; only whether the result is 0 matters here. */
  method Strncmp(p: string, q: string, n: int) returns (r: int)
    requires 0 <= n
    ensures r == 0 <==> SameUpTo(p, q, n)
  {
    var i := 0;
    while i < n && At(p, i) != NUL && At(p, i) == At(q, i)
      invariant 0 <= i <= n && forall k :: 0 <= k < i ==> At(p, k) != NUL && At(p, k) == At(q, k)
    {
      i := i + 1;
    }
    if i == n {
      return 0;
    }
    r := At(p, i) as int - At(q, i) as int;
  }

  /** strncpy of a name into an entry. */
  method Strncpy(t: string) returns (s: string)
    requires NoNul(t)
    ensures s == Padded(t)
  {
    s := [];
    while |s| < DIRSIZ && At(t, |s|) != NUL
      invariant |s| <= DIRSIZ && |s| <= |t| && forall k :: 0 <= k < |s| ==> s[k] == At(t, k)
      decreases DIRSIZ - |s|
    {
      s := s + [t[|s|]];
    }
    ghost var n := |s|;
    while |s| < DIRSIZ
      invariant n <= |s| <= DIRSIZ && (|s| > n ==> n == |t|) && forall k :: 0 <= k < |s| ==> s[k] == At(t, k)
      decreases DIRSIZ - |s|
    {
      s := s + [NUL];
    }
  }

  lemma SameIsCut(name: string, other: string)
    requires NoNul(name) && NoNul(other) && SameUpTo(name, Padded(other), DIRSIZ)
    ensures Cut(name) == Cut(other)
  {
    forall i | 0 <= i < DIRSIZ && i <= |name| ensures At(name, i) == At(other, i) {
      assert forall k :: 0 <= k < i ==> At(name, k) != NUL;
      assert At(name, i) == At(Padded(other), i);
    }
    assert |name| < DIRSIZ ==> At(other, |name|) == NUL;
    assert |other| < DIRSIZ && |other| < |name| ==> At(name, |other|) == NUL;
    assert |Cut(name)| == |Cut(other)|;
    assert forall i :: 0 <= i < |Cut(name)| ==> Cut(name)[i] == At(name, i) && Cut(other)[i] == At(other, i);
  }

  lemma CutIsSame(name: string, other: string)
    requires NoNul(name) && NoNul(other) && Cut(name) == Cut(other)
    ensures SameUpTo(name, Padded(other), DIRSIZ)
  {
    forall i | 0 <= i < DIRSIZ ensures At(name, i) == At(Padded(other), i) {
      assert |Cut(name)| == |Cut(other)|;
      if i < |Cut(name)| {
        assert Cut(name)[i] == Cut(other)[i];
      }
    }
  }

  /** namecmp tells names apart exactly as far as they are kept. */
  lemma NamesEqual(name: string, other: string)
    requires NoNul(name) && NoNul(other)
    ensures SameUpTo(name, Padded(other), DIRSIZ) <==> Cut(name) == Cut(other)
  {
    if SameUpTo(name, Padded(other), DIRSIZ) {
      SameIsCut(name, other);
    }
    if Cut(name) == Cut(other) {
      CutIsSame(name, other);
    }
  }

  // ----- A directory

  /** The text of an entry's name. */
  function Text(name: string): (r: string)
    ensures |r| <= |name| && NoNul(r)
    ensures r == name[..|r|] && (|r| < |name| ==> name[|r|] == NUL)
  {
    if name == [] || name[0] == NUL then [] else [name[0]] + Text(name[1..])
  }

  lemma PaddedText(name: string)
    requires NoNul(name)
    ensures Text(Padded(name)) == Cut(name)
  {
    var t, p := Text(Padded(name)), Padded(name);
    assert |name| < DIRSIZ ==> p[|name|] == NUL;
    assert |t| < DIRSIZ ==> p[|t|] == NUL;
    assert |t| == |Cut(name)|;
    assert forall i :: 0 <= i < |t| ==> t[i] == p[i] == name[i];
  }

  /** Names as written by dirlink: nothing after the first NUL but NULs. */
  ghost predicate EntryOk(e: Dirent) {
    |e.name| == DIRSIZ && e.name == Padded(Text(e.name)) && 0 <= e.inum
  }

  /** No name is used twice. */
  ghost predicate DirOk(es: seq<Dirent>) {
    && (forall i :: 0 <= i < |es| ==> EntryOk(es[i]))
    && (forall i, j :: 0 <= i < j < |es| && es[i].inum != 0 && es[j].inum != 0 ==> Text(es[i].name) != Text(es[j].name))
  }

  /** Entry i is a live entry for this name. */
  ghost predicate Holds(es: seq<Dirent>, i: int, key: string) {
    0 <= i < |es| && es[i].inum != 0 && Text(es[i].name) == key
  }

  /** The directory as a map. */
  ghost function AsMap(es: seq<Dirent>): (m: map<string, int>)
    decreases |es|
  {
    if es == [] then map[]
    else
      var n := |es| - 1;
      var m := AsMap(es[..n]);
      if es[n].inum == 0 then m else m[Text(es[n].name) := es[n].inum]
  }

  lemma FrontOk(es: seq<Dirent>)
    requires DirOk(es) && es != []
    ensures DirOk(es[..|es| - 1])
  {
    hide EntryOk, Text;
    var front := es[..|es| - 1];
    assert forall i :: 0 <= i < |front| ==> front[i] == es[i];
  }

  lemma {:induction false} HeldInMap(es: seq<Dirent>, i: int, key: string)
    requires DirOk(es) && Holds(es, i, key)
    ensures key in AsMap(es) && AsMap(es)[key] == es[i].inum
    decreases |es|
  {
    hide Text, EntryOk;
    var n := |es| - 1;
    if i < n {
      FrontOk(es);
      assert es[..n][i] == es[i];
      HeldInMap(es[..n], i, key);
    }
  }

  lemma {:induction false} MapHolder(es: seq<Dirent>, key: string) returns (i: int)
    requires key in AsMap(es)
    ensures Holds(es, i, key)
    decreases |es|
  {
    hide Text;
    var n := |es| - 1;
    if es[n].inum != 0 && Text(es[n].name) == key {
      i := n;
    } else {
      i := MapHolder(es[..n], key);
      assert es[..n][i] == es[i];
    }
  }

  lemma TextCut(name: string)
    requires |name| == DIRSIZ
    ensures Cut(Text(name)) == Text(name)
  {
  }

  function Stored(es: seq<Dirent>, off: int, e: Dirent): (r: seq<Dirent>)
    requires 0 <= off <= |es|
  {
    if off < |es| then es[off := e] else es + [e]
  }

  lemma NewEntry(es: seq<Dirent>, off: int, name: string, inum: int)
    requires DirOk(es) && NoNul(name) && inum > 0 && Cut(name) !in AsMap(es)
    requires 0 <= off <= |es| && (off < |es| ==> es[off].inum == 0)
    ensures var r := Stored(es, off, Dirent(inum, Padded(name)));
      DirOk(r) && AsMap(r) == AsMap(es)[Cut(name) := inum]
  {
    hide Text, AsMap, Cut, Padded;
    var e := Dirent(inum, Padded(name));
    var r := Stored(es, off, e);
    PaddedText(name);
    PaddedOk(name, inum);
    forall i | 0 <= i < |es| && es[i].inum != 0 ensures Text(es[i].name) != Cut(name) {
      if Text(es[i].name) == Cut(name) {
        HeldInMap(es, i, Cut(name));
      }
    }
    assert DirOk(r);
    StoredMap(es, off, e);
  }

  lemma PaddedOk(name: string, inum: int)
    requires NoNul(name) && 0 <= inum
    ensures EntryOk(Dirent(inum, Padded(name)))
  {
    PaddedText(name);
    assert Padded(Cut(name)) == Padded(name);
  }

  /** A new live entry in a free place adds its name to the map. */
  lemma {:induction false} StoredMap(es: seq<Dirent>, off: int, e: Dirent)
    requires 0 <= off <= |es| && (off < |es| ==> es[off].inum == 0) && e.inum != 0 && Text(e.name) !in AsMap(es)
    ensures AsMap(Stored(es, off, e)) == AsMap(es)[Text(e.name) := e.inum]
    decreases |es|
  {
    hide Text;
    var r, n := Stored(es, off, e), |es| - 1;
    if off == |es| {
      assert r[..|es|] == es;
    } else if off == n {
      assert r[..n] == es[..n];
    } else {
      assert r[..n] == Stored(es[..n], off, e);
      assert es[..n][off] == es[off];
      StoredMap(es[..n], off, e);
      SwapUpdates(AsMap(es[..n]), Text(e.name), e.inum, Text(es[n].name), es[n].inum);
    }
  }

  lemma SwapUpdates(m: map<string, int>, a: string, x: int, b: string, y: int)
    ensures a != b ==> m[a := x][b := y] == m[b := y][a := x]
  {
  }

  // ----- Entries as bytes

  /** A char as the C program has it. */
  predicate IsByte(c: char) {
    c as int < 0x100
  }

  ghost predicate EntryFits(e: Dirent) {
    |e.name| == DIRSIZ && EntryOk(e) && e.inum < 0x1_0000 && forall k :: 0 <= k < DIRSIZ ==> IsByte(e.name[k])
  }

  /** The entry in memory: a 16-bit inode number, low byte first, and the name. */
  function EntryBytes(e: Dirent): (b: seq<int>)
    requires |e.name| == DIRSIZ
    ensures |b| == DIRENT
  {
    [e.inum % 0x100, e.inum / 0x100 % 0x100] + seq(DIRSIZ, k requires 0 <= k < DIRSIZ => e.name[k] as int)
  }

  function ToChar(x: int): char {
    if 0 <= x < 0x100 then x as char else NUL
  }

  function Decode(b: seq<int>): (e: Dirent)
    requires |b| == DIRENT
    ensures |e.name| == DIRSIZ
  {
    Dirent(b[0] + 0x100 * b[1], seq(DIRSIZ, k requires 0 <= k < DIRSIZ => ToChar(b[2 + k])))
  }

  lemma DecodeEncode(e: Dirent)
    requires EntryFits(e)
    ensures Decode(EntryBytes(e)) == e
  {
    var d := Decode(EntryBytes(e));
    assert forall k :: 0 <= k < DIRSIZ ==> d.name[k] == e.name[k] by {
      assert forall k :: 0 <= k < DIRSIZ ==> EntryBytes(e)[2 + k] == e.name[k] as int;
    }
    assert d.name == e.name;
  }

  /** A free entry is all zeroes. */
  function FreeEntry(): (e: Dirent)
    ensures EntryFits(e) && e.inum == 0
  {
    PaddedOk([], 0);
    Dirent(0, Padded([]))
  }

  lemma FreeBytes()
    ensures forall k :: 0 <= k < DIRENT ==> EntryBytes(FreeEntry())[k] == 0
  {
  }
}
