/**
 dirlookup and dirlink of kernel/fs.c on the bytes of a directory, read and written by readi and writei.
 */
module DirCode {
  import opened Params
  import opened FsSpec
  import opened FsRoom
  import opened FsCode
  import opened Dirs

  // ----- A directory on the disk

  /** The bytes of entry i of file dp. */
  ghost predicate EntryAt(g: Img, dp: int, i: int, e: Dirent)
    requires Shape(g) && 0 <= dp < |g.inodes| && 0 <= i && DIRENT * i + DIRENT <= MAXFILE * BSIZE && |e.name| == DIRSIZ
  {
    forall k :: 0 <= k < DIRENT ==> FileByte(g, dp, DIRENT * i + k) == EntryBytes(e)[k]
  }

  /** File dp is the directory with these entries. */
  ghost predicate DirHolds(g: Img, dp: int, es: seq<Dirent>)
    requires Shape(g)
  {
    && 0 <= dp < |g.inodes| && DirOk(es) && g.inodes[dp].size == DIRENT * |es| <= MAXFILE * BSIZE
    && forall i :: 0 <= i < |es| ==> EntryFits(es[i]) && EntryAt(g, dp, i, es[i])
  }

  /** A file whose contents and size stay is the same directory. */
  lemma SameDir(g: Img, h: Img, dp: int, es: seq<Dirent>)
    requires Shape(g) && Shape(h) && DirHolds(g, dp, es) && |h.inodes| == |g.inodes|
      && h.inodes[dp].size == g.inodes[dp].size
    requires forall bn :: 0 <= bn < MAXFILE ==> FileBlock(h, dp, bn) == FileBlock(g, dp, bn)
    ensures DirHolds(h, dp, es)
  {
    hide Shape, FileBlock, DirOk, EntryOk, EntryBytes;
    forall i | 0 <= i < |es| ensures EntryAt(h, dp, i, es[i]) {
      assert EntryFits(es[i]) && EntryAt(g, dp, i, es[i]);
      forall k | 0 <= k < DIRENT ensures FileByte(h, dp, DIRENT * i + k) == EntryBytes(es[i])[k] {
        assert FileBlock(h, dp, (DIRENT * i + k) / BSIZE) == FileBlock(g, dp, (DIRENT * i + k) / BSIZE);
      }
    }
  }

  lemma GrewDir(g: Img, h: Img, i: int, dp: int, es: seq<Dirent>)
    requires Shape(g) && Shape(h) && Grew(g, h, i) && DirHolds(g, dp, es)
    ensures DirHolds(h, dp, es)
  {
    hide Shape, FileBlock, DirHolds, Addr;
    DirBounds(g, dp, es);
    SameDir(g, h, dp, es);
  }

  lemma DirBounds(g: Img, dp: int, es: seq<Dirent>)
    requires Shape(g) && DirHolds(g, dp, es)
    ensures 0 <= dp < |g.inodes| && DirOk(es) && g.inodes[dp].size == DIRENT * |es| <= MAXFILE * BSIZE
  {
  }

  lemma ReadIsEntry(g: Img, dp: int, es: seq<Dirent>, i: int, bytes: seq<Byte>)
    requires Shape(g) && DirHolds(g, dp, es) && 0 <= i < |es| && ReadBytes(g, dp, DIRENT * i, DIRENT, bytes)
    ensures Decode(bytes) == es[i]
  {
    hide Shape, FileByte, EntryBytes, Decode;
    assert EntryFits(es[i]) && EntryAt(g, dp, i, es[i]);
    assert forall k :: 0 <= k < DIRENT ==> bytes[k] == EntryBytes(es[i])[k];
    assert bytes == EntryBytes(es[i]);
    DecodeEncode(es[i]);
  }

  /** The blocks of a directory that hold its first n entries. */
  function DirBlocks(n: int): int {
    UpTo(0, DIRENT * n)
  }

  lemma EntryBlocks(i: int)
    requires 0 <= i
    ensures DIRENT * i / BSIZE == i / 64 && UpTo(DIRENT * i, DIRENT) == i / 64 + 1
    ensures i / 64 <= DirBlocks(i) <= i / 64 + 1 == DirBlocks(i + 1)
  {
    EntryBlock(i);
  }

  lemma DirBlocksGrow(m: int, n: int)
    requires 0 <= m <= n && DIRENT * n <= MAXFILE * BSIZE
    ensures 0 <= DirBlocks(m) <= DirBlocks(n) <= MAXFILE
  {
  }

  /** Entries do not cross blocks. */
  lemma EntryBlock(off: int)
    requires 0 <= off
    ensures InOneBlock(DIRENT * off, DIRENT)
  {
    var q, r := off / 64, off % 64;
    assert DIRENT * off == BSIZE * q + DIRENT * r;
    assert (DIRENT * off) % BSIZE == DIRENT * r;
  }

  lemma ReadEntryDone(g: Img, h: Img, dp: int, es: seq<Dirent>, i: int, off: int, r: int, bytes: seq<Byte>)
    requires Shape(g) && Shape(h) && DirHolds(g, dp, es) && 0 <= i < |es| && off == DIRENT * i && 0 <= dp < |g.inodes|
      && off <= g.inodes[dp].size && off + Max(Min(DIRENT, g.inodes[dp].size - off), 0) <= MAXFILE * BSIZE
    requires Grew(g, h, dp) && (NoHoles(g, dp, g.inodes[dp].size) ==> h == g)
    requires ReadDone(g, h, dp, off, Min(DIRENT, g.inodes[dp].size - off), DIRENT, r)
    requires ReadBytes(g, dp, off, |bytes|, bytes) && (r == -1 || r == |bytes|)
    ensures EntryRead(g, h, dp, es, i, r == DIRENT) && DirHolds(h, dp, es) && |h.inodes| == |g.inodes|
    ensures r == DIRENT ==> |bytes| == DIRENT && Decode(bytes) == es[i]
  {
    DirBounds(g, dp, es);
    hide Shape, Grew, DirHolds, Decode, Full, ReadBytes, NoHoles, Filled, Need, Spare;
    EntryBlocks(i);
    GrewDir(g, h, dp, dp, es);
    GrewIndirect(g, h, dp);
    if Need(g, dp, i / 64, i / 64 + 1) <= Spare(g) {
      ReadIsEntry(g, dp, es, i, bytes);
    }
  }

  lemma EntryOff(g: Img, dp: int, es: seq<Dirent>, i: int)
    requires Shape(g) && DirHolds(g, dp, es) && 0 <= i < |es|
    ensures 0 <= dp < |g.inodes| && 0 <= DIRENT * i <= g.inodes[dp].size <= MAXFILE * BSIZE
  {
  }

  /** Reading entry i.  Not ok is the panic: the block of the entry is a hole, and the disk has too little room. */
  method ReadEntry(fs: FileSystem, dp: int, i: int, ghost es: seq<Dirent>) returns (ok: bool, e: Dirent)
    requires fs.Ok() && DirHolds(fs.G(), dp, es) && 0 <= i < |es|
    modifies fs`blocks, fs`inodes, fs`owner, fs`logged
    ensures fs.Ok() && DirHolds(fs.G(), dp, es) && |fs.inodes| == old(|fs.inodes|) && |e.name| == DIRSIZ
    ensures ok ==> e == es[i]
    ensures EntryRead(old(fs.G()), fs.G(), dp, es, i, ok)
  {
    hide FileSystem.Ok, FileSystem.G, Shape, Grew, DirHolds, Decode, Full, ReadBytes, NoHoles, Filled, Need, Spare;
    hide Logs, ReadDone, EntryRead, UpTo;
    ghost var g := fs.G();
    fs.OkShape();
    EntryOff(g, dp, es, i);
    var off := DIRENT * i;
    var r, bytes := fs.Readi(dp, off, DIRENT, DIRENT);
    fs.OkShape();
    ReadEntryDone(g, fs.G(), dp, es, i, off, r, bytes);
    ok, e := r == DIRENT, FreeEntry();
    if ok {
      e := Decode(bytes);
    }
  }

  // ----- dirlookup

  /** The entries dirlookup reads: up to the one that holds the name, or all. */
  ghost function Scanned(es: seq<Dirent>, key: string): (n: int)
    ensures 0 <= n <= |es| && (forall k :: 0 <= k < n - 1 ==> !Holds(es, k, key))
    ensures if n > 0 && Holds(es, n - 1, key) then true else n == |es|
  {
    ScanFrom(es, key, 0)
  }

  ghost function ScanFrom(es: seq<Dirent>, key: string, i: int): (n: int)
    requires 0 <= i <= |es| && forall k :: 0 <= k < i ==> !Holds(es, k, key)
    ensures i <= n <= |es| && forall k :: 0 <= k < n - 1 ==> !Holds(es, k, key)
    ensures if n > 0 && Holds(es, n - 1, key) then true else n == |es|
    decreases |es| - i
  {
    if i == |es| then i else if Holds(es, i, key) then i + 1 else ScanFrom(es, key, i + 1)
  }

  /** The scan of a directory has read n entries; a directory without holes is as it was. */
  ghost predicate Scanning(g: Img, h: Img, dp: int, es: seq<Dirent>, n: int)
    requires Shape(g) && Shape(h)
  {
    && DirHolds(g, dp, es) && DirHolds(h, dp, es) && 0 <= n <= |es| && Grew(g, h, dp)
    && Filled(g, h, dp, 0, DirBlocks(n)) && (NoHoles(g, dp, g.inodes[dp].size) ==> h == g)
  }

  lemma ScanStarts(g: Img, dp: int, es: seq<Dirent>)
    requires Shape(g) && DirHolds(g, dp, es)
    ensures 0 <= dp < |g.inodes| && g.inodes[dp].size == DIRENT * |es| && Scanning(g, g, dp, es, 0)
  {
    DirBounds(g, dp, es);
    hide Shape, Grew, DirHolds, NoHoles;
    GrewRefl(g, dp);
    FilledNothing(g, dp, 0);
  }

  /** Reading entry i: ok as long as its block is there or can be had. */
  ghost predicate EntryRead(g: Img, h: Img, dp: int, es: seq<Dirent>, i: int, ok: bool)
    requires Shape(g) && Shape(h)
  {
    && 0 <= dp < |g.inodes| && 0 <= i / 64 < MAXFILE && DirHolds(h, dp, es) && Grew(g, h, dp)
    && (NoHoles(g, dp, g.inodes[dp].size) ==> h == g)
    && (if ok then Filled(g, h, dp, i / 64, i / 64 + 1)
        else Full(h) && Need(g, dp, i / 64, i / 64 + 1) > Spare(g))
  }

  lemma ScanNext(g: Img, h: Img, k: Img, dp: int, es: seq<Dirent>, i: int)
    requires Shape(g) && Shape(h) && Shape(k) && Scanning(g, h, dp, es, i) && i < |es|
    requires EntryRead(h, k, dp, es, i, true)
    ensures 0 <= dp < |k.inodes| == |g.inodes| && k.inodes[dp].size == DIRENT * |es| && Scanning(g, k, dp, es, i + 1)
  {
    DirBounds(k, dp, es);
    hide Shape, Grew, Filled, DirHolds, NoHoles, DirBlocks;
    EntryBlocks(i);
    GrewTrans(g, h, k, dp);
    GrewIndirect(g, k, dp);
    FilledJoin(g, h, k, dp, 0, i / 64, DirBlocks(i), i / 64 + 1);
  }

  /** A scan that cannot read entry i cannot read n entries, for any n past i. */
  lemma ScanFails(g: Img, h: Img, k: Img, dp: int, es: seq<Dirent>, i: int, n: int)
    requires Shape(g) && Shape(h) && Shape(k) && Scanning(g, h, dp, es, i) && i < n <= |es|
    requires EntryRead(h, k, dp, es, i, false)
    ensures ScanDone(g, k, dp, es, n, false)
  {
    DirBounds(g, dp, es);
    hide Shape, Grew, Filled, Need, Spare, DirBlocks, DirHolds, NoHoles, Full;
    EntryBlocks(i);
    DirBlocksGrow(i + 1, n);
    GrewTrans(g, h, k, dp);
    GrewIndirect(g, k, dp);
    NeedFails(g, h, dp, 0, i / 64, DirBlocks(i), i / 64 + 1, DirBlocks(n));
    DenseNeed(g, dp, es, n);
  }

  /** A scan of n entries: what it takes is what decides. */
  ghost predicate ScanDone(g: Img, h: Img, dp: int, es: seq<Dirent>, n: int, ok: bool)
    requires Shape(g) && Shape(h)
  {
    && DirHolds(g, dp, es) && DirHolds(h, dp, es) && 0 <= n <= |es| && Grew(g, h, dp) && |h.inodes| == |g.inodes|
    && DirBlocks(n) <= MAXFILE && (ok <==> Need(g, dp, 0, DirBlocks(n)) <= Spare(g))
    && (if ok then Filled(g, h, dp, 0, DirBlocks(n)) else Full(h))
    && (NoHoles(g, dp, g.inodes[dp].size) ==> ok && h == g)
  }

  lemma ScanEnds(g: Img, h: Img, dp: int, es: seq<Dirent>, n: int)
    requires Shape(g) && Shape(h) && Scanning(g, h, dp, es, n)
    ensures ScanDone(g, h, dp, es, n, true)
  {
    hide Shape, Grew, Filled, Need, Spare, DirHolds, NoHoles, Full;
    FilledBounds(g, h, dp, 0, DirBlocks(n));
  }

  /** dirlookup: the inode number and index of the entry, or 0.  Not ok is its panic: the entries it has to read take
      more blocks than are free. */
  method Dirlookup(fs: FileSystem, dp: int, name: string, ghost es: seq<Dirent>) returns (ok: bool, inum: int, i: int)
    requires fs.Ok() && DirHolds(fs.G(), dp, es) && NoNul(name)
    modifies fs`blocks, fs`inodes, fs`owner, fs`logged
    ensures fs.Ok() && ScanDone(old(fs.G()), fs.G(), dp, es, Scanned(es, Cut(name)), ok)
    ensures ok ==> (inum != 0 <==> Cut(name) in AsMap(es))
    ensures ok && inum != 0 ==> Holds(es, i, Cut(name)) && inum == es[i].inum == AsMap(es)[Cut(name)]
  {
    hide FileSystem.Ok, FileSystem.G, Shape, Grew, DirHolds, Full, NoHoles, Text, AsMap, Cut, EntryOk, DirOk, Scanning;
    hide Scanned, EntryRead, ScanDone;
    ghost var g := fs.G();
    fs.OkShape();
    DirBounds(g, dp, es);
    ScanStarts(g, dp, es);
    i := 0;
    while DIRENT * i < fs.inodes[dp].size
      invariant 0 <= i <= |es| && fs.Ok() && Shape(fs.G()) && Scanning(g, fs.G(), dp, es, i) && DirHolds(fs.G(), dp, es)
      invariant |fs.inodes| == |g.inodes| && fs.inodes[dp].size == DIRENT * |es|
      invariant forall k :: 0 <= k < i ==> !Holds(es, k, Cut(name))
      decreases |es| - i
    {
      fs.OkShape();
      ghost var h := fs.G();
      var e;
      ok, e := ReadEntry(fs, dp, i, es);
      fs.OkShape();
      if !ok {
        ScanFails(g, h, fs.G(), dp, es, i, Scanned(es, Cut(name)));
        return false, 0, i;
      }
      ScanNext(g, h, fs.G(), dp, es, i);
      if e.inum != 0 {
        EntryIs(es, i);
        var same := Namecmp(name, e);
        if same {
          HeldInMap(es, i, Cut(name));
          ScanEnds(g, fs.G(), dp, es, i + 1);
          return true, e.inum, i;
        }
      }
      i := i + 1;
    }
    ok, inum := true, 0;
    ScanEnds(g, fs.G(), dp, es, i);
    if Cut(name) in AsMap(es) {
      ghost var k := MapHolder(es, Cut(name));
    }
  }

  lemma DenseNeed(g: Img, dp: int, es: seq<Dirent>, n: int)
    requires Shape(g) && DirHolds(g, dp, es) && 0 <= n <= |es|
    ensures 0 <= dp < |g.inodes| && DirBlocks(n) <= MAXFILE
    ensures NoHoles(g, dp, g.inodes[dp].size) ==> Need(g, dp, 0, DirBlocks(n)) == 0
  {
    DirBounds(g, dp, es);
    hide Shape, DirHolds, Addr, DirOk;
    DirBlocksGrow(n, |es|);
    if NoHoles(g, dp, g.inodes[dp].size) {
      forall c | 0 <= c < DirBlocks(n) ensures Addr(g, dp, SlotOf(c)) != 0 {
        assert c * BSIZE < DIRENT * n;
      }
      NeedNone(g, dp, 0, DirBlocks(n));
    }
  }

  /** namecmp with the name of an entry. */
  method Namecmp(name: string, e: Dirent) returns (same: bool)
    requires NoNul(name) && EntryOk(e)
    ensures same <==> Text(e.name) == Cut(name)
  {
    hide Text, Cut, SameUpTo, Padded;
    var c := Strncmp(name, e.name, DIRSIZ);
    NamesEqual(name, Text(e.name));
    TextCut(e.name);
    same := c == 0;
  }

  lemma EntryIs(es: seq<Dirent>, i: int)
    requires DirOk(es) && 0 <= i < |es|
    ensures EntryOk(es[i])
  {
  }

  // ----- dirlink

  datatype Link = Linked | Refused | Panic

  /** The first free place, or the end. */
  ghost predicate FirstFree(es: seq<Dirent>, off: int) {
    0 <= off <= |es| && (off < |es| ==> es[off].inum == 0) && forall k :: 0 <= k < off ==> es[k].inum != 0
  }

  /** What dirlink leaves of the other files: everything. */
  ghost predicate OthersSame(g: Img, h: Img, dp: int)
    requires Shape(g) && Shape(h)
  {
    && |h.inodes| == |g.inodes|
    && (forall j :: 0 <= j < |g.inodes| && j != dp ==> h.inodes[j] == g.inodes[j])
    && (forall j, bn :: 0 <= j < |g.inodes| && j != dp && 0 <= bn < MAXFILE ==>
          FileBlock(h, j, bn) == FileBlock(g, j, bn))
  }

  /** The bytes of a new entry, written at its place, give the directory with that entry. */
  lemma LinkHolds(g: Img, h: Img, dp: int, es: seq<Dirent>, off: int, e: Dirent)
    requires Shape(g) && Shape(h) && DirHolds(g, dp, es) && 0 <= off <= |es| && EntryFits(e)
      && DirOk(Stored(es, off, e))
    requires DIRENT * off + DIRENT <= MAXFILE * BSIZE && Written(g, h, dp, EntryBytes(e), DIRENT * off, DIRENT)
    requires h.inodes[dp].size == Max(g.inodes[dp].size, DIRENT * off + DIRENT)
    ensures DirHolds(h, dp, Stored(es, off, e))
  {
    hide Shape, FileByte, FileBlock, EntryOk, EntryBytes, DirOk;
    var r := Stored(es, off, e);
    forall i | 0 <= i < |r| ensures EntryFits(r[i]) && EntryAt(h, dp, i, r[i]) {
      assert i != off ==> EntryFits(es[i]) && EntryAt(g, dp, i, es[i]) && r[i] == es[i];
      forall k | 0 <= k < DIRENT ensures FileByte(h, dp, DIRENT * i + k) == EntryBytes(r[i])[k] {
      }
    }
  }

  lemma WrittenNothing(g: Img, h: Img, dp: int, src: seq<Byte>, off: int, es: seq<Dirent>)
    requires Shape(g) && Shape(h) && Written(g, h, dp, src, off, 0) && DirHolds(g, dp, es)
      && h.inodes[dp].size == g.inodes[dp].size
    ensures DirHolds(h, dp, es)
  {
    hide Shape, FileByte, FileBlock, EntryOk, EntryBytes, DirOk;
    forall i | 0 <= i < |es| ensures EntryAt(h, dp, i, es[i]) {
      assert EntryFits(es[i]) && EntryAt(g, dp, i, es[i]);
    }
  }

  lemma OthersLink(g: Img, m: Img, h: Img, dp: int, src: seq<Byte>, off: int, n: int)
    requires Shape(g) && Shape(m) && Shape(h) && Grew(g, m, dp) && Written(m, h, dp, src, off, n)
    ensures OthersSame(g, h, dp)
  {
    hide Shape, FileBlock, FileByte, Addr;
  }

  lemma OthersGrew(g: Img, h: Img, dp: int)
    requires Shape(g) && Shape(h) && Grew(g, h, dp)
    ensures OthersSame(g, h, dp)
  {
    hide Shape, FileBlock, Addr;
  }

  /** The scan of dirlink for a free entry. */
  method FindPlace(fs: FileSystem, dp: int, ghost es: seq<Dirent>) returns (ok: bool, off: int)
    requires fs.Ok() && DirHolds(fs.G(), dp, es)
    modifies fs`blocks, fs`inodes, fs`owner, fs`logged
    ensures fs.Ok() && ScanDone(old(fs.G()), fs.G(), dp, es, Searched(es, 0), ok)
    ensures ok ==> FirstFree(es, off)
  {
    hide FileSystem.Ok, FileSystem.G, Shape, Grew, DirHolds, Full, NoHoles, DirOk, Scanning, ScanDone, EntryRead;
    ghost var g := fs.G();
    fs.OkShape();
    ScanStarts(g, dp, es);
    off := 0;
    while DIRENT * off < fs.inodes[dp].size
      invariant 0 <= off <= |es| && fs.Ok() && Shape(fs.G()) && Scanning(g, fs.G(), dp, es, off)
        && DirHolds(fs.G(), dp, es)
      invariant |fs.inodes| == |g.inodes| && fs.inodes[dp].size == DIRENT * |es|
      invariant Searched(es, 0) == Searched(es, off) && forall k :: 0 <= k < off ==> es[k].inum != 0
      decreases |es| - off
    {
      fs.OkShape();
      ghost var h := fs.G();
      var e;
      ok, e := ReadEntry(fs, dp, off, es);
      fs.OkShape();
      if !ok {
        ScanFails(g, h, fs.G(), dp, es, off, Searched(es, 0));
        return;
      }
      ScanNext(g, h, fs.G(), dp, es, off);
      if e.inum == 0 {
        ScanEnds(g, fs.G(), dp, es, off + 1);
        return;
      }
      off := off + 1;
    }
    ok := true;
    ScanEnds(g, fs.G(), dp, es, off);
  }

  /** The entries the search for a free one reads, when it has read i of them. */
  ghost function Searched(es: seq<Dirent>, i: int): (n: int)
    requires 0 <= i <= |es|
    ensures i <= n <= |es| && (i < |es| ==> i < n)
    decreases |es| - i
  {
    if i == |es| then i else if es[i].inum == 0 then i + 1 else Searched(es, i + 1)
  }

  /** The end of dirlink: the entry goes to its place, in full or not at all. */
  method StoreEntry(fs: FileSystem, dp: int, off: int, e: Dirent, ghost es: seq<Dirent>) returns (ok: bool)
    requires fs.Ok() && DirHolds(fs.G(), dp, es) && 0 <= off <= |es| && EntryFits(e) && DirOk(Stored(es, off, e))
    modifies fs`blocks, fs`inodes, fs`dinodes, fs`owner, fs`logged
    ensures fs.Ok() && OthersSame(old(fs.G()), fs.G(), dp) && |fs.inodes| == old(|fs.inodes|)
    ensures DirHolds(fs.G(), dp, if ok then Stored(es, off, e) else es)
    ensures ok <==> PlaceFits(old(fs.G()), dp, off)
    ensures old(fs.Dense(dp)) ==> fs.Dense(dp)
  {
    hide FileSystem.Ok, FileSystem.G, FileSystem.Dense, Shape, DirHolds, EntryBytes, OthersSame, DirOk, PlaceFits;
    hide WriteDone;
    ghost var g := fs.G();
    fs.OkShape();
    PlaceOff(g, dp, es, off);
    var bytes, pos := EntryBytes(e), DIRENT * off;
    var r, extra := fs.Writei(dp, bytes, pos, DIRENT, 0);
    fs.OkShape();
    ok := r == DIRENT;
    if r == -1 {
      NotStored(g, fs.G(), dp, off);
    } else {
      EntryStored(g, fs.G(), dp, es, off, e, r, extra);
    }
  }

  /** There is room for an entry at place off: the file may be that long, and its block is there or can be had. */
  ghost predicate PlaceFits(g: Img, dp: int, off: int)
    requires Shape(g)
  {
    && 0 <= dp < |g.inodes| && 0 <= off && DIRENT * off + DIRENT <= MAXFILE * BSIZE
    && Need(g, dp, off / 64, off / 64 + 1) <= Spare(g)
  }

  lemma PlaceOff(g: Img, dp: int, es: seq<Dirent>, off: int)
    requires Shape(g) && DirHolds(g, dp, es) && 0 <= off <= |es|
    ensures 0 <= dp < |g.inodes| && 0 <= DIRENT * off <= g.inodes[dp].size <= MAXFILE * BSIZE
  {
  }

  lemma NotStored(g: Img, h: Img, dp: int, off: int)
    requires Shape(g) && h == g && 0 <= dp < |g.inodes| && DIRENT * off + DIRENT > MAXFILE * BSIZE
    ensures OthersSame(g, h, dp) && !PlaceFits(g, dp, off)
  {
    hide Shape, FileBlock;
  }

  lemma EntryStored(g: Img, h: Img, dp: int, es: seq<Dirent>, off: int, e: Dirent, r: int, extra: int)
    requires Shape(g) && Shape(h) && DirHolds(g, dp, es) && 0 <= off <= |es| && EntryFits(e) && 0 <= dp < |g.inodes|
      && DirOk(Stored(es, off, e)) && DIRENT * off + DIRENT <= MAXFILE * BSIZE && |h.inodes| == |g.inodes|
    requires WriteDone(g, h, dp, EntryBytes(e), DIRENT * off, DIRENT, 0, r, extra)
    requires h.inodes[dp].size == Max(g.inodes[dp].size, DIRENT * off + r)
    ensures OthersSame(g, h, dp) && (r == DIRENT <==> PlaceFits(g, dp, off))
    ensures DirHolds(h, dp, if r == DIRENT then Stored(es, off, e) else es)
  {
    hide Shape, DirHolds, EntryBytes, Written, OthersSame, DirOk, Filled, Full, Need, Spare, EntryOk;
    GrewRefl(g, dp);
    EntryBlocks(off);
    EntryBlock(off);
    OneTurn(DIRENT * off, DIRENT, r);
    OthersLink(g, g, h, dp, EntryBytes(e), DIRENT * off, r);
    PlaceOff(g, dp, es, off);
    if r == DIRENT {
      LinkHolds(g, h, dp, es, off, e);
    } else {
      WrittenNothing(g, h, dp, EntryBytes(e), DIRENT * off, es);
    }
  }

  // ----- dirlink

  /** There is room for one more entry: a free one, or one at the end. */
  ghost predicate LinkFits(g: Img, dp: int, es: seq<Dirent>)
    requires Shape(g)
  {
    || (exists k :: 0 <= k < |es| && es[k].inum == 0)
    || (&& 0 <= dp < |g.inodes| && DIRENT * |es| + DIRENT <= MAXFILE * BSIZE && DirBlocks(|es| + 1) <= MAXFILE
        && Need(g, dp, 0, DirBlocks(|es| + 1)) <= Spare(g))
  }

  /** A scan over entries that were all read before takes nothing more. */
  lemma ScanAgain(g: Img, h: Img, dp: int, es: seq<Dirent>, n: int)
    requires Shape(g) && Shape(h) && ScanDone(g, h, dp, es, |es|, true) && 0 <= n <= |es|
    ensures 0 <= dp < |h.inodes| && DirBlocks(n) <= MAXFILE && Need(h, dp, 0, DirBlocks(n)) == 0
  {
    DirBounds(g, dp, es);
    hide Shape, Grew, DirHolds, NoHoles, Full, Spare, Need, Addr, DirOk;
    DirBlocksGrow(n, |es|);
    NeedNone(h, dp, 0, DirBlocks(n));
  }

  /** So after a lookup that found nothing, the search for a free entry does not panic. */
  lemma PlaceFound(g: Img, h: Img, k: Img, dp: int, es: seq<Dirent>, n: int, ok: bool)
    requires Shape(g) && Shape(h) && Shape(k) && ScanDone(g, h, dp, es, |es|, true) && ScanDone(h, k, dp, es, n, ok)
    ensures ok
  {
    hide Shape, Grew, DirHolds, NoHoles, Full, Spare, Need, Filled;
    ScanAgain(g, h, dp, es, n);
  }

  /** After both scans, the blocks of all entries are there, and nothing else was taken. */
  lemma BothScans(g: Img, h: Img, k: Img, dp: int, es: seq<Dirent>, n: int)
    requires Shape(g) && Shape(h) && Shape(k) && ScanDone(g, h, dp, es, |es|, true) && ScanDone(h, k, dp, es, n, true)
    ensures Grew(g, k, dp) && DirHolds(k, dp, es) && |k.inodes| == |g.inodes| && Filled(g, k, dp, 0, DirBlocks(|es|))
    ensures OthersSame(g, k, dp) && (NoHoles(g, dp, g.inodes[dp].size) ==> k == g)
  {
    DirBounds(g, dp, es);
    DirBlocksGrow(n, |es|);
    ScanAgain(g, h, dp, es, n);
    hide Shape, Grew, DirHolds, NoHoles, Full, Spare, Need, OthersSame, Reached, DirBlocks;
    GrewTrans(g, h, k, dp);
    OthersGrew(g, k, dp);
    FilledAgain(g, h, k, dp, DirBlocks(n), DirBlocks(|es|));
  }

  lemma FilledAgain(g: Img, h: Img, k: Img, i: int, n: int, hi: int)
    requires Shape(g) && Shape(h) && Shape(k) && Filled(g, h, i, 0, hi) && Filled(h, k, i, 0, n) && Grew(h, k, i)
    requires 0 <= n <= hi && Need(h, i, 0, n) == 0
    ensures Filled(g, k, i, 0, hi)
  {
    hide Shape, Addr, Spare, Need, SameFiles;
    forall c | 0 <= c < hi ensures Addr(k, i, SlotOf(c)) != 0 {
      assert Addr(h, i, SlotOf(c)) != 0;
    }
  }

  /** Room at the place found is room for one more entry. */
  lemma PlaceIsRoom(g: Img, k: Img, dp: int, es: seq<Dirent>, off: int)
    requires Shape(g) && Shape(k) && DirHolds(g, dp, es) && FirstFree(es, off)
      && Filled(g, k, dp, 0, DirBlocks(|es|))
    ensures PlaceFits(k, dp, off) <==> LinkFits(g, dp, es)
  {
    hide Shape, DirHolds, ReachedIn, Need, Spare, DirOk, DirBlocks, Addr;
    DirBounds(g, dp, es);
    FilledBounds(g, k, dp, 0, DirBlocks(|es|));
    EntryBlocks(off);
    if off < |es| {
      DirBlocksGrow(off + 1, |es|);
      ReachedBlock(g, k, dp, DirBlocks(|es|), off / 64);
    } else if DIRENT * off + DIRENT <= MAXFILE * BSIZE {
      DirBlocksGrow(|es| + 1, |es| + 1);
      NeedJoin(g, k, dp, 0, off / 64, DirBlocks(off), off / 64 + 1);
    }
  }

  lemma ReachedBlock(g: Img, k: Img, i: int, hi: int, c: int)
    requires Shape(g) && Shape(k) && Filled(g, k, i, 0, hi) && 0 <= c < hi <= MAXFILE
    ensures 0 <= i < |k.inodes| && Need(k, i, c, c + 1) == 0
  {
    hide Shape, Addr, Need, Spare;
    HoleNeeds(k, i, c);
  }

  /** dirlink.  es' are the entries afterwards. */
  method Dirlink(fs: FileSystem, dp: int, name: string, inum: int, ghost es: seq<Dirent>)
    returns (out: Link, ghost es': seq<Dirent>)
    requires fs.Ok() && DirHolds(fs.G(), dp, es) && NoNul(name) && 0 < inum < 0x1_0000
    requires forall k :: 0 <= k < |name| ==> IsByte(name[k])
    modifies fs`blocks, fs`inodes, fs`dinodes, fs`owner, fs`logged
    ensures fs.Ok() && OthersSame(old(fs.G()), fs.G(), dp) && DirHolds(fs.G(), dp, es')
      && |fs.inodes| == old(|fs.inodes|)
    ensures out == Panic <==> LookupNeed(old(fs.G()), dp, es, name) > Spare(old(fs.G()))
    ensures out == Linked <==> out != Panic && Cut(name) !in AsMap(es) && LinkFits(old(fs.G()), dp, es)
    ensures out != Linked ==> es' == es
    ensures out == Linked ==> AsMap(es') == AsMap(es)[Cut(name) := inum]
    ensures out == Linked ==> exists off :: FirstFree(es, off) && es' == Stored(es, off, Dirent(inum, Padded(name)))
    ensures old(fs.Dense(dp)) ==> fs.Dense(dp) && out != Panic
  {
    hide FileSystem.Ok, FileSystem.G, NoHoles, Shape, DirHolds, Text, AsMap, SameUpTo, Cut, Padded, DirOk;
    hide OthersSame, ScanDone, LinkFits, PlaceFits, LookupNeed, Scanned, Searched, Spare, Filled;
    ghost var g := fs.G();
    fs.OkShape();
    DirBounds(g, dp, es);
    es' := es;
    var ok, found, at := Dirlookup(fs, dp, name, es);
    ghost var h := fs.G();
    fs.OkShape();
    LookupDone(g, h, dp, es, name, ok);
    if !ok {
      return Panic, es;
    }
    if found != 0 {
      return Refused, es;
    }
    NotFound(es, Cut(name));
    var off;
    ok, off := FindPlace(fs, dp, es);
    fs.OkShape();
    ghost var m := fs.G();
    if !ok {
      // dirlink's own panic: the lookup has read every entry, so this scan takes no block.
      PlaceFound(g, h, m, dp, es, Searched(es, 0), ok);
      assert false;
    }
    BothScans(g, h, m, dp, es, Searched(es, 0));
    PlaceIsRoom(g, m, dp, es, off);
    var de := Strncpy(name);
    NewEntry(es, off, name, inum);
    NewFits(name, inum);
    ok := StoreEntry(fs, dp, off, Dirent(inum, de), es);
    fs.OkShape();
    OthersBoth(g, m, fs.G(), dp);
    if ok {
      return Linked, Stored(es, off, Dirent(inum, de));
    }
    out := Refused;
  }

  /** What a lookup takes: the holes among the blocks of the entries it reads. */
  ghost function LookupNeed(g: Img, dp: int, es: seq<Dirent>, name: string): int
    requires Shape(g) && 0 <= dp < |g.inodes| && DIRENT * |es| <= MAXFILE * BSIZE
  {
    DirBlocksGrow(Scanned(es, Cut(name)), |es|);
    Need(g, dp, 0, DirBlocks(Scanned(es, Cut(name))))
  }

  lemma LookupDone(g: Img, h: Img, dp: int, es: seq<Dirent>, name: string, ok: bool)
    requires Shape(g) && Shape(h) && ScanDone(g, h, dp, es, Scanned(es, Cut(name)), ok)
    ensures 0 <= dp < |g.inodes| == |h.inodes| && DIRENT * |es| <= MAXFILE * BSIZE && DirHolds(h, dp, es)
    ensures ok <==> LookupNeed(g, dp, es, name) <= Spare(g)
    ensures OthersSame(g, h, dp) && (NoHoles(g, dp, g.inodes[dp].size) ==> ok && h == g)
  {
    DirBounds(g, dp, es);
    hide Shape, Grew, DirHolds, Filled, Full, Need, Spare, Scanned, Cut, NoHoles, DirOk, OthersSame, DirBlocks;
    OthersGrew(g, h, dp);
  }

  lemma NotFound(es: seq<Dirent>, key: string)
    requires DirOk(es) && key !in AsMap(es)
    ensures Scanned(es, key) == |es|
  {
    hide AsMap, DirOk, Text;
    var n := Scanned(es, key);
    if n > 0 && Holds(es, n - 1, key) {
      HeldInMap(es, n - 1, key);
    }
  }

  lemma OthersBoth(g: Img, m: Img, h: Img, dp: int)
    requires Shape(g) && Shape(m) && Shape(h) && OthersSame(g, m, dp) && OthersSame(m, h, dp)
    ensures OthersSame(g, h, dp)
  {
    hide Shape, FileBlock;
  }

  lemma NewFits(name: string, inum: int)
    requires NoNul(name) && 0 < inum < 0x1_0000 && forall k :: 0 <= k < |name| ==> IsByte(name[k])
    ensures EntryFits(Dirent(inum, Padded(name)))
  {
    hide EntryOk, Padded;
    var e := Dirent(inum, Padded(name));
    PaddedOk(name, inum);
    forall k | 0 <= k < DIRSIZ ensures IsByte(e.name[k]) {
      assert e.name[k] == At(name, k);
      assert IsByte(NUL);
    }
    assert |e.name| == DIRSIZ && EntryOk(e) && e.inum < 0x1_0000;
  }
}
