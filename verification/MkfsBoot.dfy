/**
 The image mkfs builds, as the kernel finds it: the file-system invariant holds, the root directory lists the files,
 and a path leads to each of them.
 */
module MkfsBoot {
  import opened Params
  import opened FsSpec
  import opened FsRoom
  import opened FsCode
  import opened Dirs
  import opened DirCode
  import opened Paths
  import opened Mkfs

  // ----- The root directory

  /** Names that can be told apart, and fit the 16-bit inode numbers of a directory. */
  ghost predicate NamesOk(files: seq<Source>) {
    && |files| + 2 <= 0x1_0000 && (forall i :: 0 <= i < |files| ==> NameOk(files[i].name))
    && (forall i, j :: 0 <= i < j < |files| ==> Cut(files[i].name) != Cut(files[j].name))
  }

  ghost predicate NameOk(name: string) {
    && name != [] && NoNul(name) && (forall k :: 0 <= k < |name| ==> IsByte(name[k]) && name[k] != '/')
    && Cut(name) != "." && Cut(name) != ".."
  }

  function NameAt(files: seq<Source>, i: int): string
    requires 0 <= i < |files| + 2
  {
    if i == 0 then "." else if i == 1 then ".." else files[i - 2].name
  }

  function InumAt(i: int): int {
    if i < 2 then ROOTINO else i
  }

  /** The entries of the root, and the free ones that fill its last block. */
  function RootEntry(files: seq<Source>, i: int): (e: Dirent)
    requires 0 <= i
    ensures |e.name| == DIRSIZ
  {
    if i < |files| + 2 then Dirent(InumAt(i), Padded(NameAt(files, i))) else FreeEntry()
  }

  function RootCount(files: seq<Source>): int {
    (DIRENT * (|files| + 2) / BSIZE + 1) * BSIZE / DIRENT
  }

  function RootEntries(files: seq<Source>): (es: seq<Dirent>)
    ensures |es| == RootCount(files) && forall i :: 0 <= i < |es| ==> es[i] == RootEntry(files, i)
  {
    seq(RootCount(files), i requires 0 <= i => RootEntry(files, i))
  }

  lemma {:induction false} RootBytes(files: seq<Source>, k: int, i: int, b: int)
    requires 0 <= k <= |files| && 0 <= i < k + 2 && 0 <= b < DIRENT
    ensures RootDir(files, k)[DIRENT * i + b] == EntryBytes(RootEntry(files, i))[b]
    decreases k
  {
    hide EntryBytes, Padded;
    if k > 0 && i < k + 1 {
      RootBytes(files, k - 1, i, b);
    }
  }

  lemma NamesApart(files: seq<Source>, i: int, j: int)
    requires NamesOk(files) && 0 <= i < j < |files| + 2
    ensures Cut(NameAt(files, i)) != Cut(NameAt(files, j)) && NoNul(NameAt(files, i)) && NoNul(NameAt(files, j))
  {
    assert Cut(".") == "." && Cut("..") == "..";
  }

  lemma EntryName(files: seq<Source>, i: int)
    requires NamesOk(files) && 0 <= i < |files| + 2
    ensures Text(RootEntry(files, i).name) == Cut(NameAt(files, i)) && EntryFits(RootEntry(files, i))
  {
    var name := NameAt(files, i);
    assert NoNul(name) && forall k :: 0 <= k < |name| ==> IsByte(name[k]) by {
      if i >= 2 {
        assert NameOk(files[i - 2].name);
      }
    }
    hide Text, Cut, Padded, EntryOk;
    PaddedText(name);
    NewFits(name, InumAt(i));
  }

  lemma RootOk(files: seq<Source>)
    requires NamesOk(files)
    ensures DirOk(RootEntries(files)) && forall i :: 0 <= i < RootCount(files) ==> EntryFits(RootEntries(files)[i])
  {
    hide Text, Cut, Padded, EntryOk, RootCount;
    var es := RootEntries(files);
    forall i | 0 <= i < |es| ensures EntryFits(es[i]) {
      if i < |files| + 2 {
        EntryName(files, i);
      }
    }
    forall i, j | 0 <= i < j < |es| && es[i].inum != 0 && es[j].inum != 0 ensures Text(es[i].name) != Text(es[j].name) {
      EntryName(files, i);
      EntryName(files, j);
      NamesApart(files, i, j);
    }
  }

  lemma RoundBounds(n: int)
    requires 0 <= n
    ensures var c := (DIRENT * n / BSIZE + 1) * BSIZE / DIRENT;
      n <= c && DIRENT * c == (DIRENT * n / BSIZE + 1) * BSIZE
  {
    var q := DIRENT * n / BSIZE;
    assert (q + 1) * BSIZE == DIRENT * (64 * (q + 1));
  }

  /** The root directory on the disk has exactly these entries. */
  lemma RootHolds(g: Img, files: seq<Source>)
    requires Shape(g) && NamesOk(files) && RootStored(g, RootDir(files, |files|))
      && |RootDir(files, |files|)| < MAXFILE * BSIZE
    ensures DirHolds(g, ROOTINO, RootEntries(files))
  {
    hide Shape, FileByte, EntryBytes, DirOk, NoHoles, RootDir, EntryOk, RootEntry;
    var es, d := RootEntries(files), RootDir(files, |files|);
    RootOk(files);
    RoundBounds(|files| + 2);
    forall i | 0 <= i < |es| ensures EntryAt(g, ROOTINO, i, es[i]) {
      RootEntryAt(g, files, i);
    }
  }

  lemma FreeAt(files: seq<Source>, i: int)
    requires 0 <= i
    ensures |files| + 2 <= i ==> forall b :: 0 <= b < DIRENT ==> EntryBytes(RootEntry(files, i))[b] == 0
  {
    FreeBytes();
  }

  lemma RootEntryAt(g: Img, files: seq<Source>, i: int)
    requires Shape(g) && Mkfs.Holds(g, ROOTINO, RootDir(files, |files|)) && 0 <= i
      && DIRENT * i + DIRENT <= MAXFILE * BSIZE
    ensures EntryAt(g, ROOTINO, i, RootEntry(files, i))
  {
    hide Shape, FileByte, RootDir, EntryBytes, RootEntry, FreeEntry;
    var d := RootDir(files, |files|);
    FreeAt(files, i);
    forall b | 0 <= b < DIRENT ensures FileByte(g, ROOTINO, DIRENT * i + b) == EntryBytes(RootEntry(files, i))[b] {
      if i < |files| + 2 {
        RootBytes(files, |files|, i, b);
      } else {
        assert DIRENT * i + b >= |d|;
      }
    }
  }

  // ----- The tree

  ghost function RootTree(files: seq<Source>): Tree {
    Tree(map[ROOTINO := RootEntries(files)])
  }

  lemma BootTree(g: Img, files: seq<Source>)
    requires Shape(g) && NamesOk(files) && RootStored(g, RootDir(files, |files|))
      && |RootDir(files, |files|)| < MAXFILE * BSIZE
    requires |files| + 2 <= |g.inodes| && forall i :: 0 <= i < |g.inodes| ==> g.inodes[i].typ == TypeAfter(|files|, i)
    ensures TreeHolds(g, RootTree(files))
  {
    hide Shape, DirHolds, RootStored, RootDir, RootCount;
    RootHolds(g, files);
  }

  /** In that tree the path of a file leads to it. */
  lemma PathFound(files: seq<Source>, i: int)
    requires NamesOk(files) && 0 <= i < |files|
    ensures Follow(RootTree(files), ROOTINO, Components("/" + files[i].name)) == i + 2
  {
    hide Text, Cut, Padded, EntryOk, DirOk, NamesOk, Components, AsMap, RootCount;
    var es, key := RootEntries(files), Cut(files[i].name);
    OneComponent(files, i);
    RootOk(files);
    RoundCount(files);
    EntryName(files, i + 2);
    HeldInMap(es, i + 2, key);
    assert [files[i].name][1..] == [];
  }

  // ----- Boot

  /** Enough blocks for the files, all within one bitmap block. */
  ghost predicate Enough(size: int, nlog: int, ninodes: int, files: seq<Source>)
    requires 0 <= ninodes
  {
    var sb, data := LayoutOf(size, nlog, ninodes), DataAfter(files, |files|, (ninodes / IPB + 1) * IPB);
    Room(sb, data) && sb.nmeta + Used(data) < BPB
  }

  /** A fresh image, and the kernel's first look at it. */
  method Boot(size: int, nlog: int, ninodes: int, files: seq<Source>) returns (fs: FileSystem?)
    requires 0 <= nlog && 0 <= ninodes && 2 + nlog + (ninodes / IPB + 1) + (size / BPB + 1) <= size <= UINT
    requires |files| + 2 <= (ninodes / IPB + 1) * IPB && |RootDir(files, |files|)| < MAXFILE * BSIZE
    ensures fs != null <==> Enough(size, nlog, ninodes, files)
    ensures fs != null ==> fs.Ok() && RootStored(fs.G(), RootDir(files, |files|))
    ensures fs != null ==> forall i :: 0 <= i < |files| ==> Mkfs.Stored(fs.G(), i + 2, Whole(files[i]), T_FILE)
    ensures fs != null && NamesOk(files) ==> TreeHolds(fs.G(), RootTree(files))
    ensures fs != null ==> fresh(fs) && |fs.inodes| == (ninodes / IPB + 1) * IPB && fs.logged == {}
    ensures fs != null ==> var sb, data := LayoutOf(size, nlog, ninodes), DataAfter(files, |files|, |fs.inodes|);
              Spare(fs.G()) == sb.size - sb.nmeta - Used(data)
  {
    hide Mkfs.Stored, Spare, RootStored, Whole, RootDir, Shape, Owned, BitsAre, Room, Used, DataAfter, TreeHolds;
    hide NamesOk;
    var im := new Image(size, nlog, ninodes);
    im.OkSizes();
    var ok := im.Build(files);
    if !ok {
      return null;
    }
    RootSize(im.Disk(), RootDir(files, |files|));
    fs := new FileSystem(Img(im.sb, im.blocks, im.inodes), im.owner);
    if NamesOk(files) {
      BootTree(im.Disk(), files);
    }
  }

  lemma RootSize(g: Img, d: seq<Byte>)
    requires Shape(g) && RootStored(g, d) && |d| < MAXFILE * BSIZE
    ensures ROOTINO < |g.inodes| && g.inodes[ROOTINO].size <= MAXFILE * BSIZE
  {
    hide Shape, NoHoles;
  }

  /** namex, just after boot, finds every file that mkfs was given, full disk or not. */
  method BootAndFind(size: int, nlog: int, ninodes: int, files: seq<Source>, i: int)
    returns (fs: FileSystem?, ok: bool, r: int)
    requires 0 <= nlog && 0 <= ninodes && 2 + nlog + (ninodes / IPB + 1) + (size / BPB + 1) <= size <= UINT
    requires |files| + 2 <= (ninodes / IPB + 1) * IPB && |RootDir(files, |files|)| < MAXFILE * BSIZE
    requires NamesOk(files) && 0 <= i < |files|
    ensures fs != null <==> Enough(size, nlog, ninodes, files)
    ensures fs != null <==> ok
    ensures ok ==> fs.Ok() && r == i + 2 && Contains(fs.G(), r, Whole(files[i]))
  {
    hide Mkfs.Stored, RootStored, Whole, RootDir, TreeHolds, NamesOk, Enough, Valid, Contains, Used, DataAfter, Spare;
    fs := Boot(size, nlog, ninodes, files);
    ok, r := false, 0;
    if fs != null {
      ok, r := Find(fs, files, i);
    }
  }

  method Find(fs: FileSystem, files: seq<Source>, i: int) returns (ok: bool, r: int)
    requires fs.Ok() && TreeHolds(fs.G(), RootTree(files)) && NamesOk(files) && 0 <= i < |files|
      && |files| + 2 <= |fs.inodes| && RootStored(fs.G(), RootDir(files, |files|))
      && |RootDir(files, |files|)| < MAXFILE * BSIZE
    requires Mkfs.Stored(fs.G(), i + 2, Whole(files[i]), T_FILE)
    modifies fs`blocks, fs`inodes, fs`owner, fs`logged
    ensures fs.Ok() && ok && r == i + 2 && Contains(fs.G(), r, Whole(files[i]))
  {
    hide FileSystem.Ok, FileSystem.G, Mkfs.Stored, Whole, TreeHolds, NamesOk, Follow, Components, SameFiles, Contains;
    hide RootTree, Cut, NoDirHoles, RootStored, RootDir, PathNeed, Spare, Shape;
    ghost var g := fs.G();
    fs.OkShape();
    PathFound(files, i);
    PathFree(g, files, i);
    NamePath(files[i].name) by {
      assert NamesOk(files);
      NameIs(files, i);
    }
    var name;
    ok, r, name := Namex(fs, ROOTINO, "/" + files[i].name, false, RootTree(files));
    fs.OkShape();
    StillStored(g, fs.G(), i + 2, Whole(files[i]), T_FILE);
  }

  lemma NameIs(files: seq<Source>, i: int)
    requires NamesOk(files) && 0 <= i < |files|
    ensures NoNul(files[i].name)
  {
    assert NameOk(files[i].name);
  }

  /** The lookup stops at the entry of the file, inside the blocks that the root has. */
  lemma PathFree(g: Img, files: seq<Source>, i: int)
    requires Shape(g) && TreeHolds(g, RootTree(files)) && NamesOk(files) && 0 <= i < |files|
    requires RootStored(g, RootDir(files, |files|)) && |RootDir(files, |files|)| < MAXFILE * BSIZE
    ensures PathNeed(g, RootTree(files), ROOTINO, Components("/" + files[i].name), false) == 0
  {
    hide Shape, Text, Padded, EntryOk, DirOk, NamesOk, Components, RootStored, RootDir, TreeHolds, Total, Seen, Follow;
    hide AsMap, Cut, Scanned, DirBlocks, Addr, Need;
    var name, t, es, n := files[i].name, RootTree(files), RootEntries(files), |g.inodes|;
    OneComponent(files, i);
    HolderScanned(files, i);
    RootInodes(g, files, t);
    var key, none := Cut(name), Nothing(n);
    assert [name][1..] == [];
    var seen := Seen(t, ROOTINO, key, none);
    assert Visits(t, ROOTINO, [name], false, none) == seen;
    VisitsBounded(g, t, ROOTINO, [name], false, none);
    SeenRoot(t, key, none);
    TotalNothing(g, none);
    RootNeed(g, files, i + 3);
    DirBlocksGrow(i + 3, i + 3);
    TotalSet(g, none, ROOTINO, DirBlocks(i + 3));
    NeedNone(g, ROOTINO, 0, 0);
  }

  lemma SeenRoot(t: Tree, key: string, none: seq<int>)
    requires ROOTINO in t.dirs && ROOTINO < |none| && none[ROOTINO] == 0
    ensures 0 <= DirBlocks(Scanned(t.dirs[ROOTINO], key))
    ensures Seen(t, ROOTINO, key, none) == none[ROOTINO := DirBlocks(Scanned(t.dirs[ROOTINO], key))]
  {
    hide Scanned;
  }

  lemma RootInodes(g: Img, files: seq<Source>, t: Tree)
    requires Shape(g) && t == RootTree(files) && TreeHolds(g, t)
    ensures ROOTINO in t.dirs && t.dirs[ROOTINO] == RootEntries(files) && ROOTINO < |g.inodes|
  {
    hide Shape, DirHolds;
  }

  lemma OneComponent(files: seq<Source>, i: int)
    requires NamesOk(files) && 0 <= i < |files|
    ensures Components("/" + files[i].name) == [files[i].name]
  {
    var name, path := files[i].name, "/" + files[i].name;
    assert NameOk(name);
    hide Cut, NamesOk;
    assert path[1..] == name;
    SlashSkipped(path);
    ComponentsSplit(name, |name|);
    assert name[..|name|] == name && name[|name|..] == [];
    assert Components([]) == [];
  }

  /** dirlookup reads the entries up to the one of the file. */
  lemma HolderScanned(files: seq<Source>, i: int)
    requires NamesOk(files) && 0 <= i < |files|
    ensures Scanned(RootEntries(files), Cut(files[i].name)) == i + 3
    ensures Cut(files[i].name) in AsMap(RootEntries(files))
  {
    hide Text, Cut, Padded, EntryOk, DirOk, NamesOk, AsMap, RootCount, Scanned;
    var es, key := RootEntries(files), Cut(files[i].name);
    RootOk(files);
    RoundCount(files);
    EntryName(files, i + 2);
    HeldInMap(es, i + 2, key);
    var n := Scanned(es, key);
    if n < i + 3 && n > 0 && Dirs.Holds(es, n - 1, key) {
      OneHolder(files, n - 1, i + 2);
    }
  }

  lemma RoundCount(files: seq<Source>)
    ensures |files| + 2 <= RootCount(files)
  {
    RoundBounds(|files| + 2);
  }

  lemma OneHolder(files: seq<Source>, i: int, j: int)
    requires NamesOk(files) && 0 <= i < j < |files| + 2 <= RootCount(files)
    ensures Text(RootEntries(files)[i].name) != Cut(NameAt(files, j))
  {
    hide Text, Cut, Padded, EntryOk, NamesOk, RootCount;
    EntryName(files, i);
    NamesApart(files, i, j);
  }

  /** Reading the first n entries of the root takes nothing, as long as they are there. */
  lemma RootNeed(g: Img, files: seq<Source>, n: int)
    requires Shape(g) && RootStored(g, RootDir(files, |files|)) && 0 <= n <= |files| + 2
      && |RootDir(files, |files|)| < MAXFILE * BSIZE
    ensures ROOTINO < |g.inodes| && 0 <= DirBlocks(n) <= MAXFILE && Need(g, ROOTINO, 0, DirBlocks(n)) == 0
  {
    hide Shape, Addr, RootDir;
    forall c | 0 <= c < DirBlocks(n) ensures Addr(g, ROOTINO, SlotOf(c)) != 0 {
      assert c * BSIZE < DIRENT * n;
    }
    NeedNone(g, ROOTINO, 0, DirBlocks(n));
  }

  /** File i holds these bytes. */
  ghost predicate Contains(g: Img, i: int, d: seq<Byte>) {
    Shape(g) && 0 <= i < |g.inodes| && Mkfs.Holds(g, i, d)
  }

  lemma StillStored(g: Img, h: Img, i: int, d: seq<Byte>, typ: int)
    requires Shape(g) && Shape(h) && SameFiles(g, h) && Mkfs.Stored(g, i, d, typ)
    ensures Contains(h, i, d)
  {
    hide Shape, FileBlock, NoHoles;
    HoldsSame(g, h, i, d);
  }

  lemma NamePath(name: string)
    requires NoNul(name)
    ensures NoNul("/" + name)
  {
  }

  // ----- A root directory with a hole

  /** 62 empty files and the two entries of the root itself fill one block. */
  function SixtyTwo(): (files: seq<Source>)
    ensures |files| == 62 && forall i :: 0 <= i < 62 ==> files[i].chunks == []
  {
    seq(62, i requires 0 <= i < 62 => Source([(0x41 + i) as char], []))
  }

  lemma {:induction false} OnlyRootUsed(data: seq<seq<Byte>>)
    requires |data| > ROOTINO && forall i :: 0 <= i < |data| && i != ROOTINO ==> data[i] == []
    ensures Used(data) == Blocks(|data[ROOTINO]|)
  {
    var none := data[ROOTINO := []];
    NothingUsed(none);
    assert none[ROOTINO := data[ROOTINO]] == data;
    UsedSet(none, ROOTINO, data[ROOTINO]);
  }

  /** mkfs on the disk of the build, and 62 empty files: the root's size covers a block it does not have. */
  method RootHole() returns (im: Image)
    ensures fresh(im) && Valid(im.Disk(), im.owner) && |im.inodes| == 208 && im.inodes[ROOTINO].size == 2 * BSIZE
    ensures !NoHoles(im.Disk(), ROOTINO, im.inodes[ROOTINO].size)
  {
    hide Valid, Mkfs.Stored, DataAfter, Used, Room, RootDir, NoHoles, Shape, Spare, Whole, Mkfs.Holds;
    SixtyTwoUsed();
    var files := SixtyTwo();
    im := new Image(2000, LOGSIZE, 200);
    RootRoom(im.sb);
    var ok := im.Build(files);
  }

  lemma SixtyTwoNames()
    ensures NamesOk(SixtyTwo())
  {
    var files := SixtyTwo();
    forall i | 0 <= i < 62 ensures NameOk(files[i].name) {
      assert files[i].name == [(0x41 + i) as char];
    }
  }

  lemma SixtyTwoUsed()
    ensures |RootDir(SixtyTwo(), 62)| == BSIZE && Used(DataAfter(SixtyTwo(), 62, 208)) == 1
  {
    OnlyRootUsed(DataAfter(SixtyTwo(), 62, 208));
  }

  lemma RootRoom(sb: Super)
    ensures Room(sb, DataAfter(SixtyTwo(), 62, 208)) <==> sb.nmeta + 1 <= sb.size
  {
    hide RootDir, Used;
    SixtyTwoUsed();
  }

  /** The same files on a disk that they fill: looking up any name that is not there panics. */
  method MissingPanics(name: string) returns (fs: FileSystem, ok: bool)
    requires NoNul(name) && Cut(name) !in AsMap(RootEntries(SixtyTwo()))
    ensures fresh(fs) && fs.Ok() && !ok
  {
    hide Text, Cut, Padded, EntryOk, DirOk, NamesOk, AsMap, RootCount, Mkfs.Stored, RootStored, RootDir, Used;
    hide DataAfter, TreeHolds, Valid, Spare, Scanned, DirHolds, ScanDone, Shape;
    SixtyTwoNames();
    SixtyTwoUsed();
    var files := SixtyTwo();
    var b := Boot(47, LOGSIZE, 200, files);
    fs := b;
    fs.OkShape();
    ghost var g, es := fs.G(), RootEntries(files);
    RootInodes(g, files, RootTree(files));
    TreeDir(g, RootTree(files), ROOTINO);
    DirBounds(g, ROOTINO, es);
    NotFound(es, Cut(name));
    var inum, i;
    ok, inum, i := Dirlookup(fs, ROOTINO, name, es);
    fs.OkShape();
    HolePanics(g, fs.G(), es, ok);
  }

  /** And on the disk of the build, where there is room: reading the root past its entries, as ls does, meets
      log_write's panic. */
  method ReadingPanics() returns (fs: FileSystem, first: FileRead, second: FileRead)
    ensures fresh(fs) && fs.Ok() && first == Read(BSIZE) && second == Panicked
  {
    hide NamesOk, Mkfs.Stored, RootStored, RootDir, Used, DataAfter, FileSystem.Ok, FileSystem.G, Grew, ReadBytes;
    hide TreeHolds, Valid, Spare, Shape, ReadNeed;
    SixtyTwoUsed();
    RootRoom(LayoutOf(2000, LOGSIZE, 200));
    var b := Boot(2000, LOGSIZE, 200, SixtyTwo());
    fs := b;
    fs.OkShape();
    RootNeeds(fs.G());
    var f := new File(fs, ROOTINO, true, false);
    var dst;
    first, dst := f.FileRead(BSIZE, BSIZE);
    fs.OkShape();
    second, dst := f.FileRead(DIRENT, DIRENT);
  }

  lemma RootNeeds(g: Img)
    requires Shape(g) && RootStored(g, RootDir(SixtyTwo(), 62)) && |RootDir(SixtyTwo(), 62)| == BSIZE
    ensures ROOTINO < |g.inodes| && g.inodes[ROOTINO].size == 2 * BSIZE
    ensures ReadNeed(g, ROOTINO, 0, BSIZE, BSIZE) == 0 && ReadNeed(g, ROOTINO, BSIZE, DIRENT, DIRENT) > 0
  {
    hide Shape, Addr, RootDir, Need;
    var c :| 0 <= c < MAXFILE && c * BSIZE < 2 * BSIZE && Addr(g, ROOTINO, SlotOf(c)) == 0;
    HoleNeeds(g, ROOTINO, 0);
    HoleNeeds(g, ROOTINO, 1);
    assert UpTo(0, BSIZE) == 1 && UpTo(BSIZE, DIRENT) == 2;
  }

  /** A scan past the hole of the root, on a full disk. */
  lemma HolePanics(g: Img, h: Img, es: seq<Dirent>, ok: bool)
    requires Shape(g) && Shape(h) && RootStored(g, RootDir(SixtyTwo(), 62)) && |RootDir(SixtyTwo(), 62)| == BSIZE
      && Spare(g) == 0 && ScanDone(g, h, ROOTINO, es, |es|, ok)
    ensures !ok
  {
    hide Shape, Addr, RootDir, DirHolds, Grew, Full, Spare, Need, Filled;
    DirBounds(g, ROOTINO, es);
    assert |es| == 128;
    var c :| 0 <= c < MAXFILE && c * BSIZE < 2 * BSIZE && Addr(g, ROOTINO, SlotOf(c)) == 0;
    if Need(g, ROOTINO, 0, 2) == 0 {
      NoneNeeded(g, ROOTINO, 0, 2, c);
    }
  }

  /** There are such names. */
  lemma SomeMissing()
    ensures NoNul("no") && Cut("no") !in AsMap(RootEntries(SixtyTwo()))
  {
    hide Text, Padded, EntryOk, DirOk, NamesOk, AsMap, RootCount, Cut;
    var files := SixtyTwo();
    SixtyTwoNames();
    RootOk(files);
    var es := RootEntries(files);
    CutIs("no");
    if "no" in AsMap(es) {
      var k := MapHolder(es, "no");
      EntryName(files, k);
      CutIs(NameAt(files, k));
    }
  }
}
