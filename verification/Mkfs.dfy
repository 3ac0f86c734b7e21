/**
 mkfs/mkfs.c: the image a fresh file system starts from.  Blocks are handed out in order and marked in the
 bitmap only at the end, so the invariant is kept for the image as it would be if they were marked already.
 */
module Mkfs {
  import opened Params
  import opened FsSpec
  import opened FsRoom
  import opened FsCode
  import Dirs

  // ----- The layout

  ghost predicate Layout(sb: Super) {
    0 < sb.bmapstart && sb.nmeta == sb.bmapstart + sb.size / BPB + 1 && sb.nmeta <= sb.size <= UINT
  }

  /** A number with its low m bits set. */
  function Ones(m: nat): int {
    if m == 0 then 0 else 2 * Ones(m - 1) + 1
  }

  lemma {:induction false} OnesTest(m: nat, k: nat)
    ensures TestBit(Ones(m), k) <==> k < m
    decreases k
  {
    if m > 0 && k > 0 {
      assert Ones(m) / 2 == Ones(m - 1);
      OnesTest(m - 1, k - 1);
    } else if m == 0 && k > 0 {
      OnesTest(0, k - 1);
    }
  }

  function Clip(m: int): (r: nat) {
    if m < 0 then 0 else if m > 8 then 8 else m
  }

  /** A bitmap block with its first n bits set. */
  function BitBlock(n: int): (b: Block)
    ensures |b| == BSIZE
  {
    seq(BSIZE, j => Ones(Clip(n - 8 * j)))
  }

  /** The image with the blocks below n marked. */
  ghost function View(sb: Super, blocks: seq<Block>, inodes: seq<Inode>, n: int): (g: Img)
    requires |blocks| == sb.size
    ensures g.sb == sb && g.inodes == inodes && |g.blocks| == |blocks|
    ensures forall b :: 0 <= b < |blocks| && !(sb.bmapstart <= b < sb.nmeta) ==> g.blocks[b] == blocks[b]
    ensures forall b :: 0 <= b < |blocks| && sb.bmapstart <= b < sb.nmeta ==>
              g.blocks[b] == BitBlock(n - (b - sb.bmapstart) * BPB)
  {
    Img(sb, seq(|blocks|, b requires 0 <= b < |blocks| =>
      if sb.bmapstart <= b < sb.nmeta then BitBlock(n - (b - sb.bmapstart) * BPB) else blocks[b]), inodes)
  }

  /** The state of mkfs between two calls: data blocks below n are owned, those from n on are still zero. */
  ghost predicate Building(sb: Super, blocks: seq<Block>, inodes: seq<Inode>, n: int, owner: map<int, Slot>) {
    && Layout(sb) && |blocks| == sb.size && sb.nmeta <= n <= sb.size
    && Valid(View(sb, blocks, inodes, n), owner) && (forall a :: a in owner <==> sb.nmeta <= a < n)
    && Unused(sb, blocks, n)
  }

  ghost predicate Unused(sb: Super, blocks: seq<Block>, n: int)
    requires |blocks| == sb.size
  {
    && (forall b :: 0 <= n <= b < sb.size ==> blocks[b] == ZeroBlock())
    && (forall b :: 0 <= sb.bmapstart <= b < sb.nmeta && b < sb.size ==> blocks[b] == ZeroBlock())
  }

  // ----- Marking

  lemma BlockOfBit(sb: Super, b: int)
    requires Layout(sb) && 0 <= b < sb.size
    ensures sb.bmapstart <= BBlock(sb, b) < sb.nmeta
  {
  }

  lemma ViewBit(sb: Super, blocks: seq<Block>, inodes: seq<Inode>, n: int, b: int)
    requires Layout(sb) && |blocks| == sb.size && 0 <= b < sb.size && 0 <= BBlock(sb, b) < sb.size
    requires var g := View(sb, blocks, inodes, n); |g.blocks[BBlock(sb, b)]| == BSIZE
    ensures Bit(View(sb, blocks, inodes, n), b) <==> b < n
  {
    hide TestBit, Ones, View;
    BlockOfBit(sb, b);
    var q, r := b / BPB, b % BPB;
    var m := n - q * BPB - 8 * (r / 8);
    assert b == q * BPB + 8 * (r / 8) + r % 8;
    assert View(sb, blocks, inodes, n).blocks[BBlock(sb, b)] == BitBlock(n - q * BPB);
    assert BitBlock(n - q * BPB)[r / 8] == Ones(Clip(m));
    OnesTest(Clip(m), r % 8);
  }

  /** Marking one more block changes no address and no file. */
  lemma Mark(sb: Super, blocks: seq<Block>, inodes: seq<Inode>, n: int, owner: map<int, Slot>)
    requires Building(sb, blocks, inodes, n, owner) && n < sb.size
    ensures Allocated(View(sb, blocks, inodes, n), View(sb, blocks, inodes, n + 1), owner, n)
  {
    var g, m := View(sb, blocks, inodes, n), View(sb, blocks, inodes, n + 1);
    ViewShape(sb, blocks, inodes, n, n + 1);
    hide View;
    assert forall a :: a in owner ==> m.blocks[a] == g.blocks[a];
    AddrFrame(g, m, owner);
    MarkBits(sb, blocks, inodes, n, owner);
    MarkFiles(g, m, owner);
  }

  lemma ViewShape(sb: Super, blocks: seq<Block>, inodes: seq<Inode>, n: int, m: int)
    requires Layout(sb) && |blocks| == sb.size && Shape(View(sb, blocks, inodes, n))
    ensures Shape(View(sb, blocks, inodes, m))
  {
    hide View, BitBlock;
    var g, h := View(sb, blocks, inodes, n), View(sb, blocks, inodes, m);
    forall b | 0 <= b < sb.size ensures |h.blocks[b]| == BSIZE {
      assert |g.blocks[b]| == BSIZE;
    }
    forall i | 0 <= i < |inodes| ensures InodeShape(h, h.inodes[i]) {
      assert InodeShape(g, g.inodes[i]);
    }
  }

  lemma MarkBits(sb: Super, blocks: seq<Block>, inodes: seq<Inode>, n: int, owner: map<int, Slot>)
    requires Layout(sb) && |blocks| == sb.size && sb.nmeta <= n && Shape(View(sb, blocks, inodes, n + 1))
    requires forall a :: a in owner <==> sb.nmeta <= a < n
    ensures BitsAre(View(sb, blocks, inodes, n + 1), owner.Keys + {n})
  {
    hide View, TestBit;
    var g := View(sb, blocks, inodes, n + 1);
    forall b | 0 <= b < g.sb.size ensures Bit(g, b) <==> b < g.sb.nmeta || b in owner.Keys + {n} {
      ViewBit(sb, blocks, inodes, n + 1, b);
    }
  }

  lemma MarkFiles(g: Img, m: Img, owner: map<int, Slot>)
    requires Shape(g) && Shape(m) && Owned(g, owner) && SameAddrs(g, m) && g.sb == m.sb
    requires forall a :: a in owner ==> m.blocks[a] == g.blocks[a]
    ensures SameFiles(g, m)
  {
    hide Addr, InodeShape, BBlock, ZeroBlock;
    forall i, bn | 0 <= i < |g.inodes| && 0 <= bn < MAXFILE ensures FileBlock(g, i, bn) == FileBlock(m, i, bn) {
      assert Addr(m, i, SlotOf(bn)) == Addr(g, i, SlotOf(bn));
    }
  }

  // ----- Single steps

  /** Block bn of file i and the way to it aside, every slot of every inode keeps its address. */
  ghost predicate Only(g: Img, h: Img, i: int, bn: int)
    requires Shape(g) && Shape(h)
  {
    && 0 <= i < |g.inodes| == |h.inodes|
    && forall j, l :: 0 <= j < |g.inodes| && 0 <= l < NSLOTS && !OnWay(j, l, i, bn) ==> Addr(h, j, l) == Addr(g, j, l)
  }

  predicate OnWay(j: int, l: int, i: int, bn: int) {
    j == i && (l == SlotOf(bn) || (l == NDIRECT && bn >= NDIRECT))
  }

  lemma UnusedNext(sb: Super, blocks: seq<Block>, n: int)
    requires |blocks| == sb.size && 0 <= n && Unused(sb, blocks, n)
    ensures Unused(sb, blocks, n + 1)
  {
    hide ZeroBlock;
  }

  /** An address of inode i takes the next block. */
  lemma TakeSlotStep(sb: Super, blocks: seq<Block>, inodes: seq<Inode>, n: int, owner: map<int, Slot>, i: int, k: int)
    requires Building(sb, blocks, inodes, n, owner) && n < sb.size && 0 <= i < |inodes| && 0 <= k <= NDIRECT
    requires |inodes[i].addrs| == NDIRECT + 1 && inodes[i].addrs[k] == 0
    ensures var inodes' := inodes[i := inodes[i].(addrs := inodes[i].addrs[k := n])];
      var g, h := View(sb, blocks, inodes, n), View(sb, blocks, inodes', n + 1);
      Building(sb, blocks, inodes', n + 1, owner[n := Slot(i, k)]) && Grew(g, h, i) && OneAddr(g, h, i, k, n)
  {
    hide Addr, Owned, BitsAre, Shape, Unused, Allocated, Grew, View;
    var g, m := View(sb, blocks, inodes, n), View(sb, blocks, inodes, n + 1);
    Mark(sb, blocks, inodes, n, owner);
    AllocatedFrame(g, m, owner, n);
    AllocatedAddrs(g, m, owner, n);
    RecordSlot(g, m, owner, i, k, n);
    WithSlotAddrs(m, i, k, n);
    UnusedNext(sb, blocks, n);
    ViewInodes(sb, blocks, inodes, inodes[i := inodes[i].(addrs := inodes[i].addrs[k := n])], n + 1);
  }

  lemma AllocatedAddrs(g: Img, m: Img, owner: map<int, Slot>, a: int)
    requires Shape(g) && Allocated(g, m, owner, a)
    ensures m.inodes == g.inodes && SameAddrs(g, m) && m.blocks[a] == ZeroBlock() && Owned(m, owner)
      && 0 < a < m.sb.size
  {
  }

  lemma ViewInodes(sb: Super, blocks: seq<Block>, inodes: seq<Inode>, inodes': seq<Inode>, n: int)
    requires |blocks| == sb.size
    ensures View(sb, blocks, inodes', n) == View(sb, blocks, inodes, n).(inodes := inodes')
  {
    assert View(sb, blocks, inodes', n).blocks == View(sb, blocks, inodes, n).blocks;
  }

  lemma ViewBlock(sb: Super, blocks: seq<Block>, inodes: seq<Inode>, n: int, a: int, v: Block)
    requires |blocks| == sb.size && sb.nmeta <= a < sb.size && 0 <= a
    ensures View(sb, blocks[a := v], inodes, n) ==
        View(sb, blocks, inodes, n).(blocks := View(sb, blocks, inodes, n).blocks[a := v])
  {
    assert View(sb, blocks[a := v], inodes, n).blocks == View(sb, blocks, inodes, n).blocks[a := v];
  }

  /** An entry of inode i's indirect block takes the next block. */
  lemma TakeEntryStep(sb: Super, blocks: seq<Block>, inodes: seq<Inode>, n: int, owner: map<int, Slot>, i: int, j: int)
    requires Building(sb, blocks, inodes, n, owner) && n < sb.size && 0 <= i < |inodes| && 0 <= j < NINDIRECT
    requires var g := View(sb, blocks, inodes, n); Addr(g, i, NDIRECT) != 0 && Addr(g, i, NDIRECT + 1 + j) == 0
    ensures |inodes[i].addrs| == NDIRECT + 1 && 0 <= inodes[i].addrs[NDIRECT] < |blocks|
      && |blocks[inodes[i].addrs[NDIRECT]]| == BSIZE
    ensures var ind := inodes[i].addrs[NDIRECT];
      var blocks' := blocks[ind := PutWord(blocks[ind], j, n)];
      var g, h := View(sb, blocks, inodes, n), View(sb, blocks', inodes, n + 1);
      && Building(sb, blocks', inodes, n + 1, owner[n := Slot(i, NDIRECT + 1 + j)])
      && Grew(g, h, i) && OneAddr(g, h, i, NDIRECT + 1 + j, n)
  {
    hide Addr, BitsAre, Shape, Unused, Grew, View, PutWord;
    var g, m := View(sb, blocks, inodes, n), View(sb, blocks, inodes, n + 1);
    IndirectAddr(g, i);
    var ind := inodes[i].addrs[NDIRECT];
    EntryAddr(g, i, j);
    assert ind in owner;
    Mark(sb, blocks, inodes, n, owner);
    AllocatedFrame(g, m, owner, n);
    RecordEntry(g, m, owner, i, j, n);
    WithEntryAddrs(m, owner, i, j, n);
    UnusedNext(sb, blocks, n);
    UnusedWrite(sb, blocks, n + 1, ind, PutWord(blocks[ind], j, n));
    ViewBlock(sb, blocks, inodes, n + 1, ind, PutWord(blocks[ind], j, n));
  }

  /** Data copied into block bn of file i. */
  lemma CopyStep(sb: Super, blocks: seq<Block>, inodes: seq<Inode>, n: int, owner: map<int, Slot>, g: Img, i: int,
                 bn: int, o: int, d: seq<Byte>)
    requires Building(sb, blocks, inodes, n, owner) && Shape(g) && Grew(g, View(sb, blocks, inodes, n), i)
    requires Only(g, View(sb, blocks, inodes, n), i, bn) && 0 <= bn < MAXFILE && 0 <= o && o + |d| <= BSIZE
    requires Addr(View(sb, blocks, inodes, n), i, SlotOf(bn)) != 0
    ensures var a := Addr(View(sb, blocks, inodes, n), i, SlotOf(bn));
      && 0 <= a < |blocks| && |blocks[a]| == BSIZE
      && var h := View(sb, blocks[a := Splice(blocks[a], o, d)], inodes, n);
      && Building(sb, blocks[a := Splice(blocks[a], o, d)], inodes, n, owner)
      && BlockSpliced(g, h, i, bn, o, d) && KeepsAddrs(g, h, i) && Only(g, h, i, bn) && Addr(h, i, SlotOf(bn)) == a
  {
    hide Addr, BitsAre, Shape, Grew, View, Splice, BlockSpliced, KeepsAddrs, FileBlock;
    var h := View(sb, blocks, inodes, n);
    var a := Addr(h, i, SlotOf(bn));
    assert a in owner && owner[a] == Slot(i, SlotOf(bn));
    SpliceBlock(g, h, owner, i, bn, a, o, d);
    DataFrame(h, owner, owner.Keys, a, Splice(h.blocks[a], o, d));
    UnusedWrite(sb, blocks, n, a, Splice(blocks[a], o, d));
    ViewBlock(sb, blocks, inodes, n, a, Splice(blocks[a], o, d));
  }

  lemma UnusedWrite(sb: Super, blocks: seq<Block>, n: int, a: int, v: Block)
    requires |blocks| == sb.size && Unused(sb, blocks, n) && 0 <= a < n && sb.nmeta <= a < sb.size
    ensures Unused(sb, blocks[a := v], n)
  {
    hide ZeroBlock;
  }

  // ----- Contents

  /** File i holds data, and zeroes after it. */
  ghost predicate Holds(g: Img, i: int, data: seq<Byte>)
    requires Shape(g)
  {
    && 0 <= i < |g.inodes| && |data| <= MAXFILE * BSIZE
    && forall pos :: 0 <= pos < MAXFILE * BSIZE ==> FileByte(g, i, pos) == if pos < |data| then data[pos] else 0
  }

  /** No block of file i from size on is allocated, and no indirect block before it is needed. */
  ghost predicate Tight(g: Img, i: int, size: int)
    requires Shape(g) && 0 <= i < |g.inodes|
  {
    && (forall bn :: 0 <= bn < MAXFILE && bn * BSIZE >= size ==> Addr(g, i, SlotOf(bn)) == 0)
    && (size <= NDIRECT * BSIZE ==> Addr(g, i, NDIRECT) == 0)
  }

  /** File i holds data[i], for every file. */
  ghost predicate HoldsAll(g: Img, data: seq<seq<Byte>>)
    requires Shape(g)
  {
    |data| == |g.inodes| && forall i :: 0 <= i < |data| ==> Holds(g, i, data[i])
  }

  ghost predicate SizesAre(inodes: seq<Inode>, data: seq<seq<Byte>>) {
    |data| == |inodes| && forall i :: 0 <= i < |data| ==> inodes[i].size == |data[i]|
  }

  lemma HoldsSame(g: Img, h: Img, i: int, d: seq<Byte>)
    requires Shape(g) && Shape(h) && Holds(g, i, d) && |h.inodes| == |g.inodes|
    requires forall bn :: 0 <= bn < MAXFILE ==> FileBlock(h, i, bn) == FileBlock(g, i, bn)
    ensures Holds(h, i, d)
  {
    hide Shape, FileBlock;
    forall pos | 0 <= pos < MAXFILE * BSIZE ensures FileByte(h, i, pos) == FileByte(g, i, pos) {
      assert FileBlock(h, i, pos / BSIZE) == FileBlock(g, i, pos / BSIZE);
    }
  }

  lemma HoldsSameFiles(g: Img, h: Img, data: seq<seq<Byte>>)
    requires Shape(g) && Shape(h) && HoldsAll(g, data) && SameFiles(g, h)
    ensures HoldsAll(h, data)
  {
    hide Shape, FileBlock, Holds;
    forall i | 0 <= i < |data| ensures Holds(h, i, data[i]) {
      HoldsSame(g, h, i, data[i]);
    }
  }

  lemma AppendedAll(g: Img, h: Img, i: int, data: seq<seq<Byte>>, p: seq<Byte>)
    requires Shape(g) && Shape(h) && HoldsAll(g, data) && 0 <= i < |data| && |data[i]| + |p| <= MAXFILE * BSIZE
    requires Written(g, h, i, p, |data[i]|, |p|)
    ensures HoldsAll(h, data[i := data[i] + p])
  {
    hide Shape, FileBlock, Holds, FileByte;
    Appended(g, h, i, data[i], p);
    forall j | 0 <= j < |data| && j != i ensures Holds(h, j, data[j]) {
      HoldsSame(g, h, j, data[j]);
    }
  }

  lemma Appended(g: Img, h: Img, i: int, data: seq<Byte>, p: seq<Byte>)
    requires Shape(g) && Shape(h) && Holds(g, i, data) && Written(g, h, i, p, |data|, |p|)
      && |data| + |p| <= MAXFILE * BSIZE
    ensures Holds(h, i, data + p)
  {
    hide Shape, FileByte, FileBlock;
    forall pos | 0 <= pos < MAXFILE * BSIZE
      ensures FileByte(h, i, pos) == if pos < |data + p| then (data + p)[pos] else 0
    {
      assert FileByte(g, i, pos) == if pos < |data| then data[pos] else 0;
    }
  }

  lemma TightStep(g: Img, h: Img, i: int, cur: int, m: int)
    requires Shape(g) && Shape(h) && Only(g, h, i, cur / BSIZE) && Tight(g, i, cur)
    requires 0 <= cur < MAXFILE * BSIZE && 0 < m && cur % BSIZE + m <= BSIZE
    ensures Tight(h, i, cur + m)
  {
    hide Shape, Addr;
    forall bn | 0 <= bn < MAXFILE && bn * BSIZE >= cur + m ensures Addr(h, i, SlotOf(bn)) == 0 {
      assert bn != cur / BSIZE;
      assert Addr(g, i, SlotOf(bn)) == 0;
    }
  }

  // ----- Steps of mkfs as values

  /** What mkfs has so far: blocks, inodes, the next free block, and who owns the taken ones. */
  datatype State = State(blocks: seq<Block>, inodes: seq<Inode>, n: int, owner: map<int, Slot>)

  ghost predicate Built(sb: Super, s: State) {
    && Building(sb, s.blocks, s.inodes, s.n, s.owner)
    && forall i :: 0 <= i < |s.inodes| ==> |s.inodes[i].addrs| == NDIRECT + 1
  }

  ghost function ViewOf(sb: Super, s: State): (g: Img)
    requires Built(sb, s)
    ensures Shape(g) && g.sb == sb && g.inodes == s.inodes && Valid(g, s.owner)
  {
    View(sb, s.blocks, s.inodes, s.n)
  }

  /** Slot k of inode i names x, and no other slot of it changed. */
  ghost predicate Took(sb: Super, s: State, t: State, i: int, k: int, x: int) {
    && Built(sb, s) && Built(sb, t) && 0 <= i < |s.inodes| && 0 <= k < NSLOTS
    && Grew(ViewOf(sb, s), ViewOf(sb, t), i) && |t.inodes| == |s.inodes|
    && x == Addr(ViewOf(sb, t), i, k) && 0 < sb.nmeta <= x < |t.blocks|
    && OneAddr(ViewOf(sb, s), ViewOf(sb, t), i, k, x) && t.n == s.n + New(ViewOf(sb, s), i, k)
  }

  lemma TookAddr(sb: Super, s: State, t: State, i: int, k: int, x: int)
    requires Took(sb, s, t, i, k, x)
    ensures Built(sb, t) && 0 <= i < |t.inodes| == |s.inodes| && 0 <= k < NSLOTS && Addr(ViewOf(sb, t), i, k) != 0
  {
    hide Built, Grew, OneAddr;
  }

  lemma Named(sb: Super, s: State, i: int, k: int)
    requires Built(sb, s) && 0 <= i < |s.inodes| && 0 <= k < NSLOTS && Addr(ViewOf(sb, s), i, k) != 0
    ensures Took(sb, s, s, i, k, Addr(ViewOf(sb, s), i, k))
  {
    hide Addr, FileBlock;
    GrewRefl(ViewOf(sb, s), i);
    assert Addr(ViewOf(sb, s), i, k) in s.owner;
  }

  function SlotTaken(s: State, i: int, k: int): State
    requires 0 <= i < |s.inodes| && 0 <= k < |s.inodes[i].addrs|
  {
    s.(inodes := s.inodes[i := s.inodes[i].(addrs := s.inodes[i].addrs[k := s.n])], n := s.n + 1,
       owner := s.owner[s.n := Slot(i, k)])
  }

  lemma BuiltFacts(sb: Super, s: State)
    requires Built(sb, s)
    ensures Building(sb, s.blocks, s.inodes, s.n, s.owner) && 0 < sb.nmeta <= s.n <= sb.size == |s.blocks| <= UINT
    ensures forall i :: 0 <= i < |s.inodes| ==> |s.inodes[i].addrs| == NDIRECT + 1
  {
  }

  lemma TookNew(sb: Super, s: State, t: State, i: int, k: int, x: int)
    requires Built(sb, s) && Building(sb, t.blocks, t.inodes, t.n, t.owner) && 0 <= i < |s.inodes| && 0 <= k < NSLOTS
      && |t.inodes| == |s.inodes|
    requires forall j :: 0 <= j < |t.inodes| ==> |t.inodes[j].addrs| == NDIRECT + 1
    requires Grew(ViewOf(sb, s), View(sb, t.blocks, t.inodes, t.n), i) && 0 < sb.nmeta <= x < |t.blocks|
    requires OneAddr(ViewOf(sb, s), View(sb, t.blocks, t.inodes, t.n), i, k, x)
    requires t.n == s.n + 1 && Addr(ViewOf(sb, s), i, k) == 0
    ensures Took(sb, s, t, i, k, x)
  {
    hide Valid, Unused, View, Grew, Shape, Addr;
    assert ViewOf(sb, t) == View(sb, t.blocks, t.inodes, t.n);
  }

  lemma TookSlot(sb: Super, s: State, i: int, k: int)
    requires Built(sb, s) && 0 <= i < |s.inodes| && 0 <= k <= NDIRECT
    ensures |s.inodes[i].addrs| == NDIRECT + 1
    ensures s.inodes[i].addrs[k] != 0 ==> Took(sb, s, s, i, k, s.inodes[i].addrs[k])
    ensures s.inodes[i].addrs[k] == 0 ==> New(ViewOf(sb, s), i, k) == 1
    ensures s.inodes[i].addrs[k] == 0 && s.n < sb.size ==> Took(sb, s, SlotTaken(s, i, k), i, k, s.n)
  {
    hide Building, Built, View, Addr, Shape, Grew, OneAddr, Took;
    OwnAddr(ViewOf(sb, s), i, k);
    BuiltFacts(sb, s);
    if s.inodes[i].addrs[k] != 0 {
      Named(sb, s, i, k);
    } else if s.n < sb.size {
      TakeSlotStep(sb, s.blocks, s.inodes, s.n, s.owner, i, k);
      TookNew(sb, s, SlotTaken(s, i, k), i, k, s.n);
    }
  }

  function EntryTaken(s: State, i: int, j: int): State
    requires 0 <= i < |s.inodes| && 0 <= j < NINDIRECT && |s.inodes[i].addrs| == NDIRECT + 1 && 0 <= s.n < UINT
    requires 0 <= s.inodes[i].addrs[NDIRECT] < |s.blocks| && |s.blocks[s.inodes[i].addrs[NDIRECT]]| == BSIZE
  {
    var ind := s.inodes[i].addrs[NDIRECT];
    s.(blocks := s.blocks[ind := PutWord(s.blocks[ind], j, s.n)], n := s.n + 1,
       owner := s.owner[s.n := Slot(i, NDIRECT + 1 + j)])
  }

  lemma TookEntry(sb: Super, s: State, i: int, j: int)
    requires Built(sb, s) && 0 <= i < |s.inodes| && 0 <= j < NINDIRECT && Addr(ViewOf(sb, s), i, NDIRECT) != 0
    ensures |s.inodes[i].addrs| == NDIRECT + 1
    ensures var ind := s.inodes[i].addrs[NDIRECT];
      && 0 <= ind < |s.blocks| && |s.blocks[ind]| == BSIZE
      && (Word(s.blocks[ind], j) != 0 ==> Took(sb, s, s, i, NDIRECT + 1 + j, Word(s.blocks[ind], j)))
      && (Word(s.blocks[ind], j) == 0 ==> New(ViewOf(sb, s), i, NDIRECT + 1 + j) == 1)
      && (Word(s.blocks[ind], j) == 0 && s.n < sb.size ==> Took(sb, s, EntryTaken(s, i, j), i, NDIRECT + 1 + j, s.n))
  {
    hide Building, Built, View, Addr, Shape, Grew, OneAddr, Took, Word, PutWord;
    var g := ViewOf(sb, s);
    BuiltFacts(sb, s);
    EntryAddr(g, i, j);
    IndirectIsData(g, s.owner, i);
    if Addr(g, i, NDIRECT + 1 + j) != 0 {
      Named(sb, s, i, NDIRECT + 1 + j);
    } else if s.n < sb.size {
      TakeEntryStep(sb, s.blocks, s.inodes, s.n, s.owner, i, j);
      TookNew(sb, s, EntryTaken(s, i, j), i, NDIRECT + 1 + j, s.n);
    }
  }

  lemma IndirectIsData(g: Img, owner: map<int, Slot>, i: int)
    requires Shape(g) && Owned(g, owner) && 0 <= i < |g.inodes| && Addr(g, i, NDIRECT) != 0
    ensures |g.inodes[i].addrs| == NDIRECT + 1 && g.sb.nmeta <= g.inodes[i].addrs[NDIRECT] < g.sb.size
  {
    assert Addr(g, i, NDIRECT) in owner;
    IndirectAddr(g, i);
  }

  /** Block bn of file i is block x. */
  ghost predicate Placed(sb: Super, s: State, t: State, i: int, bn: int, x: int) {
    && Built(sb, s) && Built(sb, t) && 0 <= i < |s.inodes| && 0 <= bn < MAXFILE
    && Grew(ViewOf(sb, s), ViewOf(sb, t), i) && |t.inodes| == |s.inodes| && Only(ViewOf(sb, s), ViewOf(sb, t), i, bn)
    && x == Addr(ViewOf(sb, t), i, SlotOf(bn)) && 0 < sb.nmeta <= x < |t.blocks|
    && t.n == s.n + NewOnWay(ViewOf(sb, s), i, bn)
  }

  lemma PlacedDirect(sb: Super, s: State, t: State, i: int, bn: int, x: int)
    requires 0 <= bn < NDIRECT && Took(sb, s, t, i, bn, x)
    ensures Placed(sb, s, t, i, bn, x)
  {
    hide Built, ViewOf, Addr, Grew, Shape;
  }

  lemma PlacedEntry(sb: Super, s: State, t: State, u: State, i: int, bn: int, y: int, x: int)
    requires NDIRECT <= bn < MAXFILE && Took(sb, s, t, i, NDIRECT, y) && Took(sb, t, u, i, bn + 1, x)
    ensures Placed(sb, s, u, i, bn, x)
  {
    hide Built, ViewOf, Addr, Grew, Shape;
    GrewTrans(ViewOf(sb, s), ViewOf(sb, t), ViewOf(sb, u), i);
  }

  /** Room for the indirect block, but none for the entry. */
  lemma EntryShort(sb: Super, s: State, t: State, i: int, bn: int, y: int)
    requires NDIRECT <= bn < MAXFILE && Took(sb, s, t, i, NDIRECT, y) && t.n == sb.size
    requires New(ViewOf(sb, t), i, bn + 1) == 1
    ensures s.n + NewOnWay(ViewOf(sb, s), i, bn) > sb.size
  {
    hide Built, ViewOf, Addr, Grew, Shape;
    assert Addr(ViewOf(sb, t), i, bn + 1) == Addr(ViewOf(sb, s), i, bn + 1);
  }

  // ----- Appending

  /** The blocks a file of this length takes, with its indirect block. */
  function Blocks(len: int): (n: int)
    requires 0 <= len
    ensures 0 <= n
  {
    (len + BSIZE - 1) / BSIZE + (if len > NDIRECT * BSIZE then 1 else 0)
  }

  lemma BlocksGrow(a: int, b: int)
    requires 0 <= a <= b
    ensures Blocks(a) <= Blocks(b)
  {
  }

  /** What the next m bytes of a block take. */
  lemma NeedIs(g: Img, i: int, cur: int, m: int)
    requires Shape(g) && 0 <= i < |g.inodes| && Fits(g, i, cur) && cur < MAXFILE * BSIZE && 0 < m
      && cur % BSIZE + m <= BSIZE
    ensures NewOnWay(g, i, cur / BSIZE) == Blocks(cur + m) - Blocks(cur)
  {
    hide Shape, Addr;
    var q := cur / BSIZE;
    BlocksIn(cur, m);
    if cur % BSIZE != 0 {
      assert Addr(g, i, SlotOf(q)) != 0;
    }
    if q >= NDIRECT && cur != NDIRECT * BSIZE {
      assert Addr(g, i, SlotOf(NDIRECT)) != 0;
      IndirectFirst(g, i, 0);
    }
  }

  lemma BlocksIn(cur: int, m: int)
    requires 0 <= cur && 0 < m && cur % BSIZE + m <= BSIZE
    ensures Blocks(cur + m) - Blocks(cur) ==
        (if cur % BSIZE == 0 then 1 else 0) + (if cur == NDIRECT * BSIZE then 1 else 0)
  {
    var q, r := cur / BSIZE, cur % BSIZE;
    assert cur == q * BSIZE + r;
    assert (cur + m + BSIZE - 1) / BSIZE == q + 1;
    assert (cur + BSIZE - 1) / BSIZE == if r == 0 then q else q + 1;
  }

  /** The blocks of file i are those up to size. */
  ghost predicate Fits(g: Img, i: int, size: int)
    requires Shape(g) && 0 <= i < |g.inodes|
  {
    0 <= size <= MAXFILE * BSIZE && NoHoles(g, i, size) && Tight(g, i, size)
  }

  ghost predicate AllFit(g: Img)
    requires Shape(g)
  {
    forall i :: 0 <= i < |g.inodes| ==> Fits(g, i, g.inodes[i].size)
  }

  /** Addresses of the other files are the same. */
  ghost predicate OthersStay(g: Img, h: Img, i: int)
    requires Shape(g) && Shape(h)
  {
    && 0 <= i < |g.inodes| == |h.inodes|
    && forall j, l :: 0 <= j < |g.inodes| && 0 <= l < NSLOTS && j != i ==> Addr(h, j, l) == Addr(g, j, l)
  }

  /** After the first tot bytes of src have gone to file i at off. */
  ghost predicate Progress(sb: Super, s: State, t: State, i: int, src: seq<Byte>, off: int, tot: int) {
    && Built(sb, s) && Built(sb, t) && 0 <= i < |s.inodes| == |t.inodes| && 0 <= off && 0 <= tot <= |src|
    && Written(ViewOf(sb, s), ViewOf(sb, t), i, src, off, tot) && OthersStay(ViewOf(sb, s), ViewOf(sb, t), i)
    && Fits(ViewOf(sb, t), i, off + tot) && t.n == s.n + Blocks(off + tot) - Blocks(off)
  }

  lemma AppendStarts(sb: Super, s: State, i: int, src: seq<Byte>, off: int)
    requires Built(sb, s) && 0 <= i < |s.inodes| && Fits(ViewOf(sb, s), i, off)
    ensures Progress(sb, s, s, i, src, off, 0)
  {
    hide Built, ViewOf, Shape, Addr, NoHoles, Tight, Written;
    WriteStarts(ViewOf(sb, s), i, src, off, 0);
  }

  function Copied(s: State, x: int, o: int, d: seq<Byte>): State
    requires 0 <= x < |s.blocks| && |s.blocks[x]| == BSIZE && 0 <= o && o + |d| <= BSIZE
  {
    s.(blocks := s.blocks[x := Splice(s.blocks[x], o, d)])
  }

  /** The state after the copy, and what it did to the file. */
  lemma CopyDone(sb: Super, s: State, t: State, i: int, bn: int, x: int, o: int, d: seq<Byte>)
    requires Placed(sb, s, t, i, bn, x) && 0 <= o && o + |d| <= BSIZE
    ensures 0 <= x < |t.blocks| && |t.blocks[x]| == BSIZE && |t.inodes| == |s.inodes|
    ensures t.n == s.n + NewOnWay(ViewOf(sb, s), i, bn)
    ensures var u := Copied(t, x, o, d);
      && Built(sb, u) && BlockSpliced(ViewOf(sb, s), ViewOf(sb, u), i, bn, o, d)
        && KeepsAddrs(ViewOf(sb, s), ViewOf(sb, u), i)
      && Only(ViewOf(sb, s), ViewOf(sb, u), i, bn) && Addr(ViewOf(sb, u), i, SlotOf(bn)) != 0
  {
    hide Building, View, Addr, Shape, Grew, Only, BlockSpliced, KeepsAddrs, Splice;
    BuiltFacts(sb, t);
    CopyStep(sb, t.blocks, t.inodes, t.n, t.owner, ViewOf(sb, s), i, bn, o, d);
    assert Built(sb, Copied(t, x, o, d));
  }

  lemma AppendStep(sb: Super, s0: State, s: State, t: State, i: int, src: seq<Byte>, off: int, tot: int, m: int, x: int)
    requires Progress(sb, s0, s, i, src, off, tot) && 0 < m && tot + m <= |src| && off + tot + m <= MAXFILE * BSIZE
    requires (off + tot) % BSIZE + m <= BSIZE && Placed(sb, s, t, i, (off + tot) / BSIZE, x)
    ensures 0 <= x < |t.blocks| && |t.blocks[x]| == BSIZE
    ensures Progress(sb, s0, Copied(t, x, (off + tot) % BSIZE, src[tot..tot + m]), i, src, off, tot + m)
  {
    hide Built, ViewOf, Addr, Shape, Grew, Only, BlockSpliced, KeepsAddrs, Written, NoHoles, Tight, Placed, OthersStay;
    hide NewOnWay, Blocks;
    var cur := off + tot;
    CopyDone(sb, s, t, i, cur / BSIZE, x, cur % BSIZE, src[tot..tot + m]);
    var u := Copied(t, x, cur % BSIZE, src[tot..tot + m]);
    var g0, g, h := ViewOf(sb, s0), ViewOf(sb, s), ViewOf(sb, u);
    SpliceStep(g0, g, h, i, src, off, tot, m);
    NoHolesStep(g, h, i, cur, cur, m);
    TightStep(g, h, i, cur, m);
    OthersStep(g0, g, h, i, cur / BSIZE);
    NeedIs(g, i, cur, m);
  }

  lemma OthersStep(g0: Img, g: Img, h: Img, i: int, bn: int)
    requires Shape(g0) && Shape(g) && Shape(h) && OthersStay(g0, g, i) && Only(g, h, i, bn)
    ensures OthersStay(g0, h, i)
  {
    hide Addr, Shape;
  }

  function Sized(s: State, i: int, size: int): State
    requires 0 <= i < |s.inodes|
  {
    s.(inodes := s.inodes[i := s.inodes[i].(size := size)])
  }

  /** Writing the inode back, with any type and size. */
  lemma InodeWritten(sb: Super, s: State, i: int, ip: Inode)
    requires Built(sb, s) && 0 <= i < |s.inodes| && ip.addrs == s.inodes[i].addrs
    ensures var t := s.(inodes := s.inodes[i := ip]);
      Built(sb, t) && SameFiles(ViewOf(sb, s), ViewOf(sb, t)) && SameAddrs(ViewOf(sb, s), ViewOf(sb, t))
  {
    hide View, Addr, Shape, Owned, BitsAre, FileBlock;
    var t := s.(inodes := s.inodes[i := ip]);
    var g, h := View(sb, s.blocks, s.inodes, s.n), View(sb, t.blocks, t.inodes, t.n);
    ViewInodes(sb, s.blocks, s.inodes, t.inodes, s.n);
    SizeOnly(g, h, s.owner, i);
    SizeOnlyAddrs(g, h, i);
    assert Built(sb, t);
  }

  lemma FitsSame(g: Img, h: Img, i: int, size: int)
    requires Shape(g) && Shape(h) && 0 <= i < |g.inodes| == |h.inodes| && Fits(g, i, size)
    requires forall l :: 0 <= l < NSLOTS ==> Addr(h, i, l) == Addr(g, i, l)
    ensures Fits(h, i, size)
  {
    hide Addr, Shape;
  }

  lemma AppendDone(sb: Super, s: State, t: State, i: int, src: seq<Byte>, off: int)
    requires Progress(sb, s, t, i, src, off, |src|) && AllFit(ViewOf(sb, s))
    ensures var u := Sized(t, i, off + |src|);
      Built(sb, u) && AllFit(ViewOf(sb, u)) && Written(ViewOf(sb, s), ViewOf(sb, u), i, src, off, |src|)
  {
    hide Built, Addr, Shape, Fits, View, ViewOf;
    var u := Sized(t, i, off + |src|);
    InodeWritten(sb, t, i, u.inodes[i]);
    var g, h, m := ViewOf(sb, s), ViewOf(sb, t), ViewOf(sb, u);
    WrittenSize(g, h, m, i, src, off, |src|);
    forall j | 0 <= j < |m.inodes| ensures Fits(m, j, m.inodes[j].size) {
      if j == i {
        FitsSame(h, m, i, off + |src|);
      } else {
        FitsSame(g, m, j, g.inodes[j].size);
      }
    }
  }

  // ----- Room on the disk

  /** The blocks all files together take. */
  ghost function Used(data: seq<seq<Byte>>): (n: int)
    ensures 0 <= n
  {
    if data == [] then 0 else Used(data[..|data| - 1]) + Blocks(|data[|data| - 1]|)
  }

  lemma {:induction false} UsedSet(data: seq<seq<Byte>>, i: int, d: seq<Byte>)
    requires 0 <= i < |data|
    ensures Used(data[i := d]) == Used(data) - Blocks(|data[i]|) + Blocks(|d|)
    decreases |data|
  {
    hide Blocks;
    var n := |data| - 1;
    if i == n {
      assert data[i := d][..n] == data[..n];
    } else {
      assert data[i := d][..n] == data[..n][i := d];
      UsedSet(data[..n], i, d);
    }
  }

  ghost predicate Below(a: seq<seq<Byte>>, b: seq<seq<Byte>>) {
    |a| == |b| && forall i :: 0 <= i < |a| ==> |a[i]| <= |b[i]|
  }

  lemma {:induction false} UsedGrows(a: seq<seq<Byte>>, b: seq<seq<Byte>>)
    requires Below(a, b)
    ensures Used(a) <= Used(b)
    decreases |a|
  {
    hide Blocks;
    if a != [] {
      var n := |a| - 1;
      UsedGrows(a[..n], b[..n]);
      BlocksGrow(|a[n]|, |b[n]|);
    }
  }

  /** Files that can be stored: none too long, and blocks for all of them. */
  ghost predicate Room(sb: Super, data: seq<seq<Byte>>) {
    (forall i :: 0 <= i < |data| ==> |data[i]| <= MAXFILE * BSIZE) && sb.nmeta + Used(data) <= sb.size
  }

  lemma RoomBelow(sb: Super, a: seq<seq<Byte>>, b: seq<seq<Byte>>)
    requires Below(a, b) && Room(sb, b)
    ensures Room(sb, a)
  {
    UsedGrows(a, b);
    assert forall i :: 0 <= i < |a| ==> |a[i]| <= |b[i]| <= MAXFILE * BSIZE;
  }

  /** An append that stops before its end, for want of a block or of room in the file. */
  lemma AppendShort(sb: Super, s: State, t: State, data: seq<seq<Byte>>, i: int, p: seq<Byte>, tot: int)
    requires 0 <= i < |data| && s.n == sb.nmeta + Used(data) && Progress(sb, s, t, i, p, |data[i]|, tot) && tot < |p|
    requires var cur := |data[i]| + tot;
      cur < MAXFILE * BSIZE ==> t.n + NewOnWay(ViewOf(sb, t), i, cur / BSIZE) > sb.size
    ensures !Room(sb, data[i := data[i] + p])
  {
    hide Built, ViewOf, Addr, Shape, Written, NoHoles, Tight, OthersStay, NewOnWay, Blocks;
    var cur := |data[i]| + tot;
    if cur < MAXFILE * BSIZE {
      NeedIs(ViewOf(sb, t), i, cur, 1);
      BlocksGrow(cur + 1, |data[i] + p|);
      UsedSet(data, i, data[i] + p);
    } else {
      assert data[i := data[i] + p][i] == data[i] + p;
    }
  }

  lemma AppendFits(sb: Super, s: State, t: State, data: seq<seq<Byte>>, i: int, p: seq<Byte>)
    requires 0 <= i < |data| && s.n == sb.nmeta + Used(data) && Progress(sb, s, t, i, p, |data[i]|, |p|)
    requires forall j :: 0 <= j < |data| ==> |data[j]| <= MAXFILE * BSIZE
    ensures t.n == sb.nmeta + Used(data[i := data[i] + p]) && Room(sb, data[i := data[i] + p])
  {
    hide ViewOf, Valid, Unused, Addr, Shape, Written, NoHoles, Tight, OthersStay, Blocks;
    UsedSet(data, i, data[i] + p);
  }

  // ----- mkfs

  class Image {
    const sb: Super
    var blocks: seq<Block>
    var inodes: seq<Inode>       // the inode blocks
    var freeblock: int
    var freeinode: int
    ghost var owner: map<int, Slot>
    ghost var data: seq<seq<Byte>>   // what each file holds

    /** The state, with inode inum not yet written back. */
    ghost function With(inum: int, din: Inode): (s: State)
      reads this`blocks, this`inodes, this`freeblock, this`owner
    {
      State(blocks, if 0 <= inum < |inodes| then inodes[inum := din] else inodes, freeblock, owner)
    }

    /** An address in the inode, taken from the free blocks if it is 0; not ok is a read past the end of the disk. */
    method TakeSlot(inum: int, din: Inode, k: int) returns (ok: bool, d: Inode)
      requires Built(sb, With(inum, din)) && 0 <= inum < |inodes| && 0 <= k <= NDIRECT
      modifies this`freeblock, this`owner
      ensures d.size == din.size && d.typ == din.typ
      ensures ok ==> |d.addrs| == NDIRECT + 1 && Took(sb, old(With(inum, din)), With(inum, d), inum, k, d.addrs[k])
      ensures !ok ==> freeblock == old(freeblock) == sb.size && New(ViewOf(sb, old(With(inum, din))), inum, k) == 1
    {
      hide Built, Building, Took, New;
      TookSlot(sb, With(inum, din), inum, k);
      BuiltFacts(sb, With(inum, din));
      ok, d := true, din;
      if din.addrs[k] == 0 {
        if freeblock == sb.size {
          return false, din;
        }
        ghost var s := With(inum, din);
        d := din.(addrs := din.addrs[k := freeblock]);
        owner := owner[freeblock := Slot(inum, k)];
        freeblock := freeblock + 1;
        assert With(inum, d) == SlotTaken(s, inum, k);
      }
    }

    /** The same for an entry of the indirect block. */
    method TakeEntry(inum: int, din: Inode, j: int) returns (ok: bool, x: int)
      requires Built(sb, With(inum, din)) && 0 <= inum < |inodes| && 0 <= j < NINDIRECT
      requires Addr(ViewOf(sb, With(inum, din)), inum, NDIRECT) != 0
      modifies this`blocks, this`freeblock, this`owner
      ensures ok ==> Took(sb, old(With(inum, din)), With(inum, din), inum, NDIRECT + 1 + j, x)
      ensures !ok ==> freeblock == old(freeblock) == sb.size
      ensures !ok ==> New(ViewOf(sb, old(With(inum, din))), inum, NDIRECT + 1 + j) == 1
    {
      hide Built, Building, Took, New, Word, PutWord, Addr;
      TookEntry(sb, With(inum, din), inum, j);
      BuiltFacts(sb, With(inum, din));
      ok := true;
      var ind := din.addrs[NDIRECT];
      x := Word(blocks[ind], j);
      if x == 0 {
        if freeblock == sb.size {
          return false, 0;
        }
        ghost var s := With(inum, din);
        x := freeblock;
        blocks := blocks[ind := PutWord(blocks[ind], j, freeblock)];
        owner := owner[freeblock := Slot(inum, NDIRECT + 1 + j)];
        freeblock := freeblock + 1;
        assert With(inum, din) == EntryTaken(s, inum, j);
      }
    }

    /** The block for block fbn of the file. */
    method Place(inum: int, din: Inode, fbn: int) returns (ok: bool, d: Inode, x: int)
      requires Built(sb, With(inum, din)) && 0 <= inum < |inodes| && 0 <= fbn < MAXFILE
      modifies this`blocks, this`freeblock, this`owner
      ensures d.size == din.size && d.typ == din.typ
      ensures ok ==> Placed(sb, old(With(inum, din)), With(inum, d), inum, fbn, x)
      ensures !ok ==> old(freeblock) + NewOnWay(ViewOf(sb, old(With(inum, din))), inum, fbn) > sb.size
    {
      hide Built, Addr, Took, Placed, New;
      ghost var s := With(inum, din);
      x := 0;
      if fbn < NDIRECT {
        ok, d := TakeSlot(inum, din, fbn);
        if ok {
          x := d.addrs[fbn];
          PlacedDirect(sb, s, With(inum, d), inum, fbn, x);
        }
      } else {
        ok, d := TakeSlot(inum, din, NDIRECT);
        if ok {
          ghost var t := With(inum, d);
          TookAddr(sb, s, t, inum, NDIRECT, d.addrs[NDIRECT]);
          ok, x := TakeEntry(inum, d, fbn - NDIRECT);
          if ok {
            PlacedEntry(sb, s, t, With(inum, d), inum, fbn, d.addrs[NDIRECT], x);
          } else {
            EntryShort(sb, s, t, inum, fbn, d.addrs[NDIRECT]);
          }
        }
      }
    }

    ghost function S(): (s: State)
      reads this`blocks, this`inodes, this`freeblock, this`owner
    {
      State(blocks, inodes, freeblock, owner)
    }

    ghost predicate Ok()
      reads this`blocks, this`inodes, this`freeblock, this`freeinode, this`owner, this`data
    {
      && Built(sb, S()) && AllFit(ViewOf(sb, S())) && HoldsAll(ViewOf(sb, S()), data) && SizesAre(inodes, data)
      && freeblock == sb.nmeta + Used(data)
      && 1 <= freeinode <= |inodes| && forall j :: freeinode <= j < |inodes| ==> inodes[j] == NoInode()
    }

    /** main, up to the first ialloc: every block zero, the layout fixed. */
    constructor (size: int, nlog: int, ninodes: int)
      requires 0 <= nlog && 0 <= ninodes && 2 + nlog + (ninodes / IPB + 1) + (size / BPB + 1) <= size <= UINT
      ensures Ok() && Untouched() && |inodes| == (ninodes / IPB + 1) * IPB
      ensures sb == LayoutOf(size, nlog, ninodes)
    {
      hide Built, AllFit, HoldsAll;
      var bmapstart := 2 + nlog + (ninodes / IPB + 1);
      var n := (ninodes / IPB + 1) * IPB;
      sb := Super(size, 2 + nlog, bmapstart, bmapstart + size / BPB + 1);  // boot, super, log, inodes, bitmap
      blocks := seq(size, _ => ZeroBlock());
      inodes := seq(n, _ => NoInode());
      freeblock := bmapstart + size / BPB + 1;
      freeinode := 1;
      owner := map[];
      data := seq(n, _ => []);
      new;
      Fresh(sb, S(), data);
      NothingUsed(data);
    }

    /** ialloc; mkfs has room for the inodes it is given. */
    method Ialloc(typ: int) returns (inum: int)
      requires Ok() && freeinode < |inodes|
      modifies this`inodes, this`freeinode
      ensures Ok() && inum == old(freeinode) && freeinode == inum + 1
      ensures inodes == old(inodes)[inum := NoInode().(typ := typ)]
    {
      hide Built, AllFit, HoldsAll;
      ghost var s := S();
      inum := freeinode;
      freeinode := freeinode + 1;
      InodeMade(sb, s, data, inum, NoInode().(typ := typ));
      inodes := inodes[inum := NoInode().(typ := typ)];
    }

    /** iappend.  Not ok is an assertion or a read that fails: the file too big, or the disk too small. */
    method Iappend(inum: int, p: seq<Byte>) returns (ok: bool)
      requires Ok() && 0 < inum < freeinode
      modifies this`blocks, this`inodes, this`freeblock, this`owner, this`data
      ensures ok ==> Ok() && |inodes| == old(|inodes|) && data == old(data)[inum := old(data)[inum] + p]
      ensures ok ==> inodes[inum].typ == old(inodes[inum].typ)
      ensures ok ==> forall j :: 0 <= j < |inodes| && j != inum ==> inodes[j] == old(inodes[j])
      ensures ok <==> Room(sb, old(data)[inum := old(data)[inum] + p])
    {
      hide Built, AllFit, HoldsAll, Progress, Placed, Splice, Fits, Written, Used, Room, NewOnWay, Blocks;
      ghost var s := S();
      var din := inodes[inum];
      var off, tot := din.size, 0;
      FitsNow(sb, s, inum);
      AppendStarts(sb, s, inum, p, off);
      assert inodes[inum := din] == inodes;
      while tot < |p|
        invariant 0 <= tot <= |p| && inodes == old(inodes) && data == old(data) && off == |data[inum]| + tot
        invariant Progress(sb, s, With(inum, din), inum, p, |data[inum]|, tot)
        invariant din.size == |data[inum]| && din.typ == old(inodes[inum].typ)
      {
        var fbn := off / BSIZE;
        ghost var t := With(inum, din);
        if fbn >= MAXFILE {
          AppendShort(sb, s, t, data, inum, p, tot);
          return false;
        }
        var m := Min(|p| - tot, (fbn + 1) * BSIZE - off);
        ProgressBuilt(sb, s, t, inum, p, |data[inum]|, tot);
        var x;
        ok, din, x := Place(inum, din, fbn);
        if !ok {
          AppendShort(sb, s, t, data, inum, p, tot);
          return;
        }
        AppendStep(sb, s, t, With(inum, din), inum, p, |data[inum]|, tot, m, x);
        ghost var u := With(inum, din);
        blocks := blocks[x := Splice(blocks[x], off - fbn * BSIZE, p[tot..tot + m])];
        assert With(inum, din) == Copied(u, x, off % BSIZE, p[tot..tot + m]);
        off, tot := off + m, tot + m;
      }
      ghost var u := With(inum, din);
      ProgressBuilt(sb, s, u, inum, p, |data[inum]|, tot);
      AppendDone(sb, s, u, inum, p, |data[inum]|);
      SizesFit(sb, s, data);
      AppendFits(sb, s, u, data, inum, p);
      inodes := inodes[inum := din.(size := off)];
      assert S() == Sized(u, inum, off);
      AppendedAll(ViewOf(sb, s), ViewOf(sb, S()), inum, data, p);
      data := data[inum := data[inum] + p];
      ok := true;
    }

    /** The image as it is on disk. */
    ghost function Disk(): (g: Img)
      reads this`blocks, this`inodes
    {
      Img(sb, blocks, inodes)
    }

    /** balloc: one bitmap block, with the blocks in use marked.  Not ok is its assertion. */
    method Balloc() returns (ok: bool)
      requires Built(sb, S()) && HoldsAll(ViewOf(sb, S()), data)
      modifies this`blocks
      ensures ok <==> freeblock < BPB
      ensures ok ==> Valid(Disk(), owner) && HoldsAll(Disk(), data) && SameAddrs(old(ViewOf(sb, S())), Disk())
      ensures !ok ==> blocks == old(blocks)
    {
      hide Built, Building, HoldsAll, Valid, SameAddrs, TestBit, PutBit;
      BuiltFacts(sb, S());
      if freeblock >= BPB {
        return false;
      }
      var buf := ZeroBlock();
      NoBits(buf);
      for i := 0 to freeblock
        invariant |buf| == BSIZE && MarkedTo(buf, i) && blocks == old(blocks)
      {
        NextBit(buf, i);
        buf := buf[i / 8 := PutBit(buf[i / 8], i % 8, true)];
      }
      Marked(sb, S(), buf, data);
      blocks := blocks[sb.bmapstart := buf];
      ok := true;
    }

    /** One file: its inode, its entry in the root directory, and its bytes as read hands them over. */
    method AddFile(f: Source) returns (ok: bool)
      requires Ok() && ROOTINO < freeinode < |inodes| && data[freeinode] == []
      modifies this`blocks, this`inodes, this`freeblock, this`freeinode, this`owner, this`data
      ensures ok ==> Ok() && |inodes| == old(|inodes|) && freeinode == old(freeinode) + 1
      ensures ok ==> data == Added(old(data), old(freeinode), f)
      ensures ok ==> forall j :: 0 <= j < |inodes| ==>
                inodes[j].typ == if j == old(freeinode) then T_FILE else old(inodes[j].typ)
      ensures ok <==> Room(sb, Added(old(data), old(freeinode), f))
    {
      hide Ok, Entry, Room, Added, Whole;
      OkSizes();
      var inum := Ialloc(T_FILE);
      AddedParts(sb, data, inum, f);
      ok := Iappend(ROOTINO, Entry(inum, f.name));
      if ok {
        OkSizes();
        ok := AppendAll(inum, f);
      }
    }

    /** The loop that copies a file. */
    method AppendAll(inum: int, f: Source) returns (ok: bool)
      requires Ok() && 0 < inum < freeinode && data[inum] == []
      modifies this`blocks, this`inodes, this`freeblock, this`owner, this`data
      ensures ok ==> Ok() && |inodes| == old(|inodes|) && data == old(data)[inum := Whole(f)]
      ensures ok ==> forall j :: 0 <= j < |inodes| ==> inodes[j].typ == old(inodes[j].typ)
      ensures ok <==> Room(sb, old(data)[inum := Whole(f)])
    {
      hide Ok, Room, Bytes, Whole;
      OkSizes();
      ghost var was := data;
      ChunkParts(sb, data, inum, f, 0);
      for i := 0 to |f.chunks|
        invariant Ok() && |inodes| == old(|inodes|) && |data| == |was| && data == was[inum := Bytes(f.chunks, i)]
        invariant forall j :: 0 <= j < |inodes| ==> inodes[j].typ == old(inodes[j].typ)
      {
        ChunkParts(sb, was, inum, f, i);
        OkSizes();
        assert data[inum := data[inum] + f.chunks[i]] == was[inum := Bytes(f.chunks, i + 1)];
        ok := Iappend(inum, f.chunks[i]);
        if !ok {
          return;
        }
      }
      ChunkParts(sb, was, inum, f, |f.chunks|);
      OkRoom();
      ok := true;
    }

    /** main, as far as the last file. */
    method AddAll(files: seq<Source>) returns (ok: bool)
      requires Ok() && Untouched() && |files| + 2 <= |inodes|
      modifies this`blocks, this`inodes, this`freeblock, this`freeinode, this`owner, this`data
      ensures ok ==> Ok() && |inodes| == old(|inodes|) && Sofar(files, |files|, data, inodes)
      ensures ok <==> Room(sb, DataAfter(files, |files|, old(|inodes|)))
    {
      hide Ok, Entry, RootDir, Room, DataAfter, Sofar;
      OkSizes();
      ghost var n := |inodes|;
      RootParts(sb, files, data);
      var root := Ialloc(T_DIR);
      ok := Iappend(ROOTINO, Entry(ROOTINO, "."));
      if !ok {
        return;
      }
      OkSizes();
      ok := Iappend(ROOTINO, Entry(ROOTINO, ".."));
      if !ok {
        return;
      }
      OkSizes();
      SofarStarts(files, data, inodes);
      for k := 0 to |files|
        invariant Ok() && |inodes| == n && freeinode == k + 2 && Sofar(files, k, data, inodes)
      {
        AfterBelow(sb, files, k + 1, |files|, n);
        ok := AddNext(files, k);
        if !ok {
          return;
        }
      }
      OkRoom();
      SofarData(files, |files|, data, inodes);
      ok := true;
    }

    /** One turn of the loop over the files. */
    method AddNext(files: seq<Source>, k: int) returns (ok: bool)
      requires Ok() && freeinode == k + 2 && Sofar(files, k, data, inodes) && 0 <= k < |files|
        && |files| + 2 <= |inodes|
      modifies this`blocks, this`inodes, this`freeblock, this`freeinode, this`owner, this`data
      ensures ok ==> Ok() && |inodes| == old(|inodes|) && freeinode == k + 3 && Sofar(files, k + 1, data, inodes)
      ensures ok <==> Room(sb, DataAfter(files, k + 1, old(|inodes|)))
    {
      hide Ok, Sofar, DataAfter, Added, Room;
      OkSizes();
      SofarData(files, k, data, inodes);
      AfterNext(files, k, |inodes|);
      ghost var ips := inodes;
      ok := AddFile(files[k]);
      if ok {
        SofarStep(files, k, ips, data, inodes);
      }
    }

    /** main: the root directory, the files, the root's size rounded up, and the bitmap. */
    method Build(files: seq<Source>) returns (ok: bool)
      requires Ok() && Untouched() && |files| + 2 <= |inodes|
      modifies this`blocks, this`inodes, this`freeblock, this`freeinode, this`owner, this`data
      ensures ok <==> Room(sb, DataAfter(files, |files|, old(|inodes|)))
                      && sb.nmeta + Used(DataAfter(files, |files|, old(|inodes|))) < BPB
      ensures ok ==> Valid(Disk(), owner) && |inodes| == old(|inodes|)
      ensures ok ==> Spare(Disk()) == sb.size - sb.nmeta - Used(DataAfter(files, |files|, |inodes|))
      ensures ok ==> forall i :: 0 <= i < |files| ==> Stored(Disk(), i + 2, Whole(files[i]), T_FILE)
      ensures ok ==> RootStored(Disk(), RootDir(files, |files|))
      ensures ok ==> forall i :: 0 <= i < |inodes| && i != ROOTINO ==> 0 <= inodes[i].size <= MAXFILE * BSIZE
      ensures ok ==> forall i :: 0 <= i < |inodes| ==> inodes[i].typ == TypeAfter(|files|, i)
    {
      hide Ok, Stored, RootStored, Owned, BitsAre, Shape, Built, SameAddrs, AllFit, HoldsAll, Sofar, RootDir, Whole;
      hide DataAfter, Room, Used, Spare;
      ok := AddAll(files);
      if !ok {
        return;
      }
      OkSizes();
      OkOwners();
      SofarData(files, |files|, data, inodes);
      ghost var s := S();
      var off := inodes[ROOTINO].size;
      OkRound(off);
      inodes := inodes[ROOTINO := inodes[ROOTINO].(size := (off / BSIZE + 1) * BSIZE)];
      ghost var t := S();
      ok := Balloc();
      if ok {
        Finished(files, sb, s, t, Disk(), data);
        SpareOwner(Disk(), owner);
      }
    }

    /** As the constructor leaves it. */
    ghost predicate Untouched()
      reads this`freeinode, this`data, this`inodes
    {
      && freeinode == 1 && (forall i :: 0 <= i < |data| ==> data[i] == [])
      && forall i :: 0 <= i < |inodes| ==> inodes[i].typ == 0
    }

    lemma OkRoom()
      requires Ok()
      ensures Room(sb, data) && freeblock == sb.nmeta + Used(data)
    {
      hide AllFit, HoldsAll, Valid, Used;
      SizesFit(sb, S(), data);
    }

    lemma OkOwners()
      requires Ok()
      ensures |owner| == Used(data)
    {
      hide AllFit, HoldsAll, Valid, Used;
      RangeSize(sb.nmeta, freeblock, owner.Keys);
      assert |owner| == |owner.Keys|;
    }

    lemma OkRound(off: int)
      requires Ok() && |inodes| > ROOTINO && off == inodes[ROOTINO].size
      ensures var s := S();
        && Built(sb, s) && AllFit(ViewOf(sb, s)) && HoldsAll(ViewOf(sb, s), data) && freeblock == sb.nmeta + Used(data)
        && var t := Sized(s, ROOTINO, (off / BSIZE + 1) * BSIZE);
        && Built(sb, t) && HoldsAll(ViewOf(sb, t), data) && SameAddrs(ViewOf(sb, s), ViewOf(sb, t))
    {
      hide Built, AllFit, HoldsAll, Shape, SameAddrs;
      var t := Sized(S(), ROOTINO, (off / BSIZE + 1) * BSIZE);
      InodeWritten(sb, S(), ROOTINO, t.inodes[ROOTINO]);
      HoldsSameFiles(ViewOf(sb, S()), ViewOf(sb, t), data);
    }

    lemma OkSizes()
      requires Ok()
      ensures |data| == |inodes| && 1 <= freeinode <= |inodes| && forall i :: 0 <= i < |data| ==>
                inodes[i].size == |data[i]|
    {
    }
  }

  /** The layout main computes. */
  function LayoutOf(size: int, nlog: int, ninodes: int): Super {
    var bmapstart := 2 + nlog + ninodes / IPB + 1;
    Super(size, 2 + nlog, bmapstart, bmapstart + size / BPB + 1)
  }

  /** The regions follow each other: boot block and superblock, log, inodes, bitmap, data.  Every inode and every bitmap
      bit is in its own region. */
  lemma Regions(size: int, nlog: int, ninodes: int, inum: int, b: int)
    requires 0 <= nlog && 0 <= ninodes && 2 + nlog + (ninodes / IPB + 1) + (size / BPB + 1) <= size
    requires 0 <= inum < (ninodes / IPB + 1) * IPB && 0 <= b < size
    ensures var sb := LayoutOf(size, nlog, ninodes);
      && 2 + nlog == sb.inodestart <= IBlock(sb, inum) < sb.bmapstart <= BBlock(sb, b) < sb.nmeta <= size == sb.size
      && ninodes <= (sb.bmapstart - sb.inodestart) * IPB && size <= (sb.nmeta - sb.bmapstart) * BPB
  {
    assert inum / IPB < ninodes / IPB + 1;
    assert b / BPB <= size / BPB;
  }

  // ----- main

  /** A file for the image: its name, and its bytes in the pieces that read returns. */
  datatype Source = Source(name: string, chunks: seq<seq<Byte>>)

  /** The first k chunks. */
  function Bytes(chunks: seq<seq<Byte>>, k: int): (d: seq<Byte>)
    requires 0 <= k <= |chunks|
    decreases k
  {
    if k == 0 then [] else Bytes(chunks, k - 1) + chunks[k - 1]
  }

  lemma {:induction false} BytesGrow(chunks: seq<seq<Byte>>, k: int, n: int)
    requires 0 <= k <= n <= |chunks|
    ensures |Bytes(chunks, k)| <= |Bytes(chunks, n)|
    decreases n - k
  {
    if k < n {
      BytesGrow(chunks, k + 1, n);
    }
  }

  function Whole(f: Source): seq<Byte> {
    Bytes(f.chunks, |f.chunks|)
  }

  /** A directory entry, as bytes. */
  function Entry(inum: int, name: string): (e: seq<Byte>)
    ensures |e| == Dirs.DIRENT
  {
    Dirs.EntryBytes(Dirs.Dirent(inum, Dirs.Padded(name)))
  }

  /** The root directory with the first k files. */
  function RootDir(files: seq<Source>, k: int): (d: seq<Byte>)
    requires 0 <= k <= |files|
    ensures |d| == Dirs.DIRENT * (k + 2)
    decreases k
  {
    if k == 0 then Entry(ROOTINO, ".") + Entry(ROOTINO, "..")
    else RootDir(files, k - 1) + Entry(k + 1, files[k - 1].name)
  }

  // What every file holds after k files, and its type.

  ghost function ContentAfter(files: seq<Source>, k: int, j: int): seq<Byte>
    requires 0 <= k <= |files|
  {
    if j == ROOTINO then RootDir(files, k) else if 2 <= j < k + 2 then Whole(files[j - 2]) else []
  }

  ghost function DataAfter(files: seq<Source>, k: int, n: int): (d: seq<seq<Byte>>)
    requires 0 <= k <= |files| && 0 <= n
    ensures |d| == n && forall j :: 0 <= j < n ==> d[j] == ContentAfter(files, k, j)
  {
    seq(n, j => ContentAfter(files, k, j))
  }

  function TypeAfter(k: int, j: int): int {
    if j == ROOTINO then T_DIR else if 2 <= j < k + 2 then T_FILE else 0
  }

  ghost predicate Sofar(files: seq<Source>, k: int, data: seq<seq<Byte>>, inodes: seq<Inode>) {
    && 0 <= k <= |files| && |files| + 2 <= |inodes| && data == DataAfter(files, k, |inodes|)
    && forall j :: 0 <= j < |inodes| ==> inodes[j].typ == TypeAfter(k, j)
  }

  ghost function Added(data: seq<seq<Byte>>, inum: int, f: Source): seq<seq<Byte>>
    requires ROOTINO < inum < |data|
  {
    data[ROOTINO := data[ROOTINO] + Entry(inum, f.name)][inum := Whole(f)]
  }

  /** No room for part of something is no room for all of it. */
  lemma AddedParts(sb: Super, data: seq<seq<Byte>>, inum: int, f: Source)
    requires ROOTINO < inum < |data| && data[inum] == []
    ensures var d := data[ROOTINO := data[ROOTINO] + Entry(inum, f.name)];
      (Room(sb, Added(data, inum, f)) ==> Room(sb, d)) && Added(data, inum, f) == d[inum := Whole(f)]
  {
    hide Room, Entry, Whole;
    var d := data[ROOTINO := data[ROOTINO] + Entry(inum, f.name)];
    if Room(sb, Added(data, inum, f)) {
      RoomBelow(sb, d, Added(data, inum, f));
    }
  }

  /** The file data[inum] after i chunks. */
  lemma ChunkParts(sb: Super, data: seq<seq<Byte>>, inum: int, f: Source, i: int)
    requires 0 <= inum < |data| && data[inum] == [] && 0 <= i <= |f.chunks|
    ensures Room(sb, data[inum := Whole(f)]) ==> Room(sb, data[inum := Bytes(f.chunks, i)])
    ensures i == 0 ==> data[inum := Bytes(f.chunks, i)] == data
    ensures i == |f.chunks| ==> Bytes(f.chunks, i) == Whole(f)
    ensures i < |f.chunks| ==> Bytes(f.chunks, i + 1) == Bytes(f.chunks, i) + f.chunks[i]
    ensures i < |f.chunks| && Room(sb, data[inum := Whole(f)]) ==> Room(sb, data[inum := Bytes(f.chunks, i + 1)])
  {
    hide Room;
    if Room(sb, data[inum := Whole(f)]) {
      BytesGrow(f.chunks, i, |f.chunks|);
      RoomBelow(sb, data[inum := Bytes(f.chunks, i)], data[inum := Whole(f)]);
      if i < |f.chunks| {
        BytesGrow(f.chunks, i + 1, |f.chunks|);
        RoomBelow(sb, data[inum := Bytes(f.chunks, i + 1)], data[inum := Whole(f)]);
      }
    }
  }

  lemma RootParts(sb: Super, files: seq<Source>, data: seq<seq<Byte>>)
    requires |files| + 2 <= |data| && forall i :: 0 <= i < |data| ==> data[i] == []
    ensures var one := data[ROOTINO := data[ROOTINO] + Entry(ROOTINO, ".")];
      var two := one[ROOTINO := one[ROOTINO] + Entry(ROOTINO, "..")];
      && two == DataAfter(files, 0, |data|)
      && (Room(sb, DataAfter(files, |files|, |data|)) ==> Room(sb, one) && Room(sb, two))
  {
    hide Room, Entry;
    var one := data[ROOTINO := data[ROOTINO] + Entry(ROOTINO, ".")];
    var two := one[ROOTINO := one[ROOTINO] + Entry(ROOTINO, "..")];
    assert one[ROOTINO] == Entry(ROOTINO, ".");
    assert two == DataAfter(files, 0, |data|);
    AfterBelow(sb, files, 0, |files|, |data|);
    if Room(sb, two) {
      RoomBelow(sb, one, two);
    }
  }

  lemma AfterBelow(sb: Super, files: seq<Source>, k: int, l: int, n: int)
    requires 0 <= k <= l <= |files| && 0 <= n
    ensures Room(sb, DataAfter(files, l, n)) ==> Room(sb, DataAfter(files, k, n))
  {
    hide Room, RootDir, Whole, DataAfter;
    if Room(sb, DataAfter(files, l, n)) {
      RoomBelow(sb, DataAfter(files, k, n), DataAfter(files, l, n));
    }
  }

  lemma AfterNext(files: seq<Source>, k: int, n: int)
    requires 0 <= k < |files| && |files| + 2 <= n
    ensures Added(DataAfter(files, k, n), k + 2, files[k]) == DataAfter(files, k + 1, n)
      && DataAfter(files, k, n)[k + 2] == []
  {
    hide Entry, Whole;
    assert RootDir(files, k + 1) == RootDir(files, k) + Entry(k + 2, files[k].name);
    assert Added(DataAfter(files, k, n), k + 2, files[k]) == DataAfter(files, k + 1, n);
  }

  lemma AfterIs(files: seq<Source>, k: int, n: int)
    requires 0 <= k <= |files| && k + 2 <= n
    ensures DataAfter(files, k, n)[ROOTINO] == RootDir(files, k) && TypeAfter(k, ROOTINO) == T_DIR
    ensures forall i :: 0 <= i < k ==> DataAfter(files, k, n)[i + 2] == Whole(files[i]) && TypeAfter(k, i + 2) == T_FILE
  {
    hide RootDir, Whole, DataAfter;
  }

  lemma SofarStarts(files: seq<Source>, data: seq<seq<Byte>>, inodes: seq<Inode>)
    requires |files| + 2 <= |inodes| && data == DataAfter(files, 0, |inodes|)
    requires forall j :: 0 <= j < |inodes| ==> inodes[j].typ == TypeAfter(0, j)
    ensures Sofar(files, 0, data, inodes)
  {
  }

  lemma SofarData(files: seq<Source>, k: int, data: seq<seq<Byte>>, inodes: seq<Inode>)
    requires Sofar(files, k, data, inodes)
    ensures 0 <= k <= |files| && |files| + 2 <= |data| == |inodes| && data == DataAfter(files, k, |inodes|)
    ensures forall j :: 0 <= j < |inodes| ==> inodes[j].typ == TypeAfter(k, j)
  {
  }

  lemma SofarStep(files: seq<Source>, k: int, ips: seq<Inode>, data: seq<seq<Byte>>, inodes: seq<Inode>)
    requires 0 <= k < |files| && |files| + 2 <= |inodes| == |ips| && data == DataAfter(files, k + 1, |inodes|)
    requires forall j :: 0 <= j < |ips| ==> ips[j].typ == TypeAfter(k, j)
    requires forall j :: 0 <= j < |inodes| ==> inodes[j].typ == if j == k + 2 then T_FILE else ips[j].typ
    ensures Sofar(files, k + 1, data, inodes)
  {
    hide DataAfter;
  }

  /** A file as the kernel will find it. */
  ghost predicate Stored(g: Img, i: int, d: seq<Byte>, typ: int)
    requires Shape(g)
  {
    Holds(g, i, d) && g.inodes[i].typ == typ && g.inodes[i].size == |d| && NoHoles(g, i, |d|)
  }

  /** The root directory: its size is rounded up, which leaves a hole exactly when it adds a block. */
  ghost predicate RootStored(g: Img, d: seq<Byte>)
    requires Shape(g)
  {
    && Holds(g, ROOTINO, d) && g.inodes[ROOTINO].typ == T_DIR && g.inodes[ROOTINO].size == (|d| / BSIZE + 1) * BSIZE
    && NoHoles(g, ROOTINO, |d|)
    && (|d| < MAXFILE * BSIZE ==> (NoHoles(g, ROOTINO, g.inodes[ROOTINO].size) <==> |d| % BSIZE != 0))
  }

  /** Rounding the size up leaves a hole exactly when it adds a block. */
  lemma RoundedHole(g: Img, i: int, size: int)
    requires Shape(g) && 0 <= i < |g.inodes| && Fits(g, i, size) && size < MAXFILE * BSIZE
    ensures NoHoles(g, i, (size / BSIZE + 1) * BSIZE) <==> size % BSIZE != 0
  {
    hide Addr, Shape;
    var q := size / BSIZE;
    if size % BSIZE == 0 {
      assert q * BSIZE >= size && Addr(g, i, SlotOf(q)) == 0;
    }
  }

  lemma Finished(files: seq<Source>, sb: Super, s: State, t: State, h: Img, data: seq<seq<Byte>>)
    requires Built(sb, s) && AllFit(ViewOf(sb, s)) && SizesAre(s.inodes, data) && Sofar(files, |files|, data, s.inodes)
    requires t == Sized(s, ROOTINO, (s.inodes[ROOTINO].size / BSIZE + 1) * BSIZE)
    requires Built(sb, t) && SameAddrs(ViewOf(sb, s), ViewOf(sb, t))
    requires Shape(h) && h.inodes == t.inodes && SameAddrs(ViewOf(sb, t), h) && HoldsAll(h, data)
    ensures forall i :: 0 <= i < |files| ==> Stored(h, i + 2, Whole(files[i]), T_FILE)
    ensures RootStored(h, RootDir(files, |files|))
    ensures forall i :: 0 <= i < |h.inodes| && i != ROOTINO ==> 0 <= h.inodes[i].size <= MAXFILE * BSIZE
    ensures forall i :: 0 <= i < |h.inodes| ==> h.inodes[i].typ == TypeAfter(|files|, i)
  {
    hide Built, ViewOf, Addr, Shape, Fits, Holds, NoHoles, RootDir, Whole, Stored, RootStored, DataAfter, Sofar;
    hide AllFit, HoldsAll;
    hide ContentAfter, TypeAfter, SameAddrs, Valid;
    SofarData(files, |files|, data, s.inodes);
    AfterIs(files, |files|, |s.inodes|);
    var g := ViewOf(sb, s);
    forall i | 0 <= i < |data| ensures Fits(h, i, |data[i]|) && Holds(h, i, data[i]) && |data[i]| <= MAXFILE * BSIZE {
      FitsStill(g, ViewOf(sb, t), h, i, data);
    }
    forall i | 0 <= i < |files| ensures Stored(h, i + 2, Whole(files[i]), T_FILE) {
      StoredFile(h, i + 2, Whole(files[i]), T_FILE);
    }
    StoredRoot(h, RootDir(files, |files|));
  }

  lemma FitsStill(g: Img, m: Img, h: Img, i: int, data: seq<seq<Byte>>)
    requires Shape(g) && Shape(m) && Shape(h) && SameAddrs(g, m) && SameAddrs(m, h) && AllFit(g)
      && SizesAre(g.inodes, data)
    requires HoldsAll(h, data) && 0 <= i < |data|
    ensures Fits(h, i, |data[i]|) && Holds(h, i, data[i]) && |data[i]| <= MAXFILE * BSIZE
  {
    hide Addr, Shape, Fits, Holds;
    assert Fits(g, i, g.inodes[i].size);
    FitsSame(g, h, i, |data[i]|);
    FitsHoles(h, i, |data[i]|);
  }

  lemma StoredFile(g: Img, i: int, d: seq<Byte>, typ: int)
    requires Shape(g) && 0 <= i < |g.inodes| && Holds(g, i, d) && Fits(g, i, |d|) && g.inodes[i].typ == typ
      && g.inodes[i].size == |d|
    ensures Stored(g, i, d, typ)
  {
    hide Holds, NoHoles, Shape;
  }

  lemma StoredRoot(g: Img, d: seq<Byte>)
    requires Shape(g) && ROOTINO < |g.inodes| && Holds(g, ROOTINO, d) && Fits(g, ROOTINO, |d|)
    requires g.inodes[ROOTINO].typ == T_DIR && g.inodes[ROOTINO].size == (|d| / BSIZE + 1) * BSIZE
    ensures RootStored(g, d)
  {
    hide Holds, NoHoles, Shape, Fits;
    FitsHoles(g, ROOTINO, |d|);
    if |d| < MAXFILE * BSIZE {
      RoundedHole(g, ROOTINO, |d|);
    }
  }

  lemma FitsHoles(g: Img, i: int, size: int)
    requires Shape(g) && 0 <= i < |g.inodes| && Fits(g, i, size)
    ensures NoHoles(g, i, size) && size <= MAXFILE * BSIZE
  {
  }

  // ----- The bitmap

  ghost predicate MarkedTo(buf: Block, n: int)
    requires |buf| == BSIZE
  {
    forall j :: 0 <= j < BPB ==> (TestBit(buf[j / 8], j % 8) <==> j < n)
  }

  lemma ZeroBit(k: nat)
    ensures !TestBit(0, k)
  {
    OnesTest(0, k);
  }

  lemma NoBits(buf: Block)
    requires buf == ZeroBlock()
    ensures MarkedTo(buf, 0)
  {
    hide TestBit;
    forall j | 0 <= j < BPB ensures !TestBit(buf[j / 8], j % 8) {
      ZeroBit(j % 8);
    }
  }

  lemma NextBit(buf: Block, i: int)
    requires |buf| == BSIZE && 0 <= i < BPB && MarkedTo(buf, i)
    ensures MarkedTo(buf[i / 8 := PutBit(buf[i / 8], i % 8, true)], i + 1)
  {
    hide TestBit, PutBit;
    var next := buf[i / 8 := PutBit(buf[i / 8], i % 8, true)];
    forall j | 0 <= j < BPB ensures TestBit(next[j / 8], j % 8) <==> j < i + 1 {
      PutBitTest(buf[i / 8], i % 8, true, j % 8);
      assert TestBit(buf[j / 8], j % 8) <==> j < i;
    }
  }

  lemma MarkedShape(sb: Super, s: State, buf: Block)
    requires Built(sb, s) && |buf| == BSIZE
    ensures 0 <= sb.bmapstart < |s.blocks| && Shape(Img(sb, s.blocks[sb.bmapstart := buf], s.inodes))
  {
    hide BBlock, ZeroBlock;
    var g, h := ViewOf(sb, s), Img(sb, s.blocks[sb.bmapstart := buf], s.inodes);
    forall b | 0 <= b < sb.size ensures |h.blocks[b]| == BSIZE {
      assert |g.blocks[b]| == BSIZE;
    }
    forall i | 0 <= i < |s.inodes| ensures InodeShape(h, h.inodes[i]) {
      assert InodeShape(g, g.inodes[i]);
    }
  }

  lemma MarkedBits(sb: Super, s: State, buf: Block)
    requires Built(sb, s) && |buf| == BSIZE && MarkedTo(buf, s.n) && s.n < BPB
    requires 0 <= sb.bmapstart < |s.blocks| && Shape(Img(sb, s.blocks[sb.bmapstart := buf], s.inodes))
    ensures BitsAre(Img(sb, s.blocks[sb.bmapstart := buf], s.inodes), s.owner.Keys)
  {
    hide TestBit, Valid;
    var h := Img(sb, s.blocks[sb.bmapstart := buf], s.inodes);
    forall b | 0 <= b < h.sb.size ensures Bit(h, b) <==> b < h.sb.nmeta || b in s.owner.Keys {
      BlockOfBit(sb, b);
      ZeroBit(b % BPB % 8);
      if b < BPB {
        assert TestBit(buf[b / 8], b % 8) <==> b < s.n;
      } else {
        assert h.blocks[BBlock(sb, b)] == ZeroBlock();
      }
    }
  }

  /** With the bitmap written, the disk is what it was taken to be. */
  lemma Marked(sb: Super, s: State, buf: Block, data: seq<seq<Byte>>)
    requires Built(sb, s) && |buf| == BSIZE && MarkedTo(buf, s.n) && s.n < BPB && HoldsAll(ViewOf(sb, s), data)
    ensures 0 <= sb.bmapstart < |s.blocks|
    ensures var h := Img(sb, s.blocks[sb.bmapstart := buf], s.inodes);
      Valid(h, s.owner) && HoldsAll(h, data) && SameAddrs(ViewOf(sb, s), h)
  {
    MarkedShape(sb, s, buf);
    MarkedBits(sb, s, buf);
    var g, h := ViewOf(sb, s), Img(sb, s.blocks[sb.bmapstart := buf], s.inodes);
    assert forall a :: a in s.owner ==> h.blocks[a] == g.blocks[a];
    hide View, Unused, BitsAre, Addr, Shape, HoldsAll, Owned, MarkedTo;
    AddrFrame(g, h, s.owner);
    MarkFiles(g, h, s.owner);
    HoldsSameFiles(g, h, data);
  }

  // ----- Inodes

  lemma InodeMade(sb: Super, s: State, data: seq<seq<Byte>>, i: int, ip: Inode)
    requires Built(sb, s) && 0 <= i < |s.inodes| && ip.addrs == s.inodes[i].addrs && ip.size == s.inodes[i].size
    requires AllFit(ViewOf(sb, s)) && HoldsAll(ViewOf(sb, s), data)
    ensures var t := s.(inodes := s.inodes[i := ip]);
      Built(sb, t) && AllFit(ViewOf(sb, t)) && HoldsAll(ViewOf(sb, t), data)
  {
    hide Built, ViewOf, Addr, Shape, Fits, HoldsAll;
    var t := s.(inodes := s.inodes[i := ip]);
    InodeWritten(sb, s, i, ip);
    var g, h := ViewOf(sb, s), ViewOf(sb, t);
    HoldsSameFiles(g, h, data);
    forall j | 0 <= j < |h.inodes| ensures Fits(h, j, h.inodes[j].size) {
      FitsSame(g, h, j, g.inodes[j].size);
    }
  }

  lemma {:induction false} NothingUsed(data: seq<seq<Byte>>)
    requires forall i :: 0 <= i < |data| ==> data[i] == []
    ensures Used(data) == 0
    decreases |data|
  {
    if data != [] {
      NothingUsed(data[..|data| - 1]);
    }
  }

  /** An image with nothing in it. */
  lemma Fresh(sb: Super, s: State, data: seq<seq<Byte>>)
    requires Layout(sb) && s.owner == map[] && s.n == sb.nmeta && |s.blocks| == sb.size && |data| == |s.inodes|
    requires (forall b :: 0 <= b < sb.size ==> s.blocks[b] == ZeroBlock())
      && (forall i :: 0 <= i < |data| ==> data[i] == [])
    requires forall i :: 0 <= i < |s.inodes| ==> s.inodes[i] == NoInode()
    ensures Built(sb, s) && AllFit(ViewOf(sb, s)) && HoldsAll(ViewOf(sb, s), data)
  {
    FreshValid(sb, s);
    hide View, BBlock;
    var g := ViewOf(sb, s);
    assert forall i, k :: 0 <= i < |g.inodes| && 0 <= k < NSLOTS ==> Addr(g, i, k) == 0;
  }

  lemma FreshValid(sb: Super, s: State)
    requires Layout(sb) && s.owner == map[] && s.n == sb.nmeta && |s.blocks| == sb.size
    requires forall b :: 0 <= b < sb.size ==> s.blocks[b] == ZeroBlock()
    requires forall i :: 0 <= i < |s.inodes| ==> s.inodes[i] == NoInode()
    ensures Built(sb, s)
  {
    hide View, TestBit;
    var g := View(sb, s.blocks, s.inodes, s.n);
    assert forall i :: 0 <= i < |g.inodes| ==> InodeShape(g, g.inodes[i]);
    forall b | 0 <= b < g.sb.size ensures 0 <= BBlock(g.sb, b) < g.sb.nmeta {
      BlockOfBit(sb, b);
    }
    assert Shape(g);
    forall b | 0 <= b < g.sb.size ensures Bit(g, b) <==> b < g.sb.nmeta {
      ViewBit(sb, s.blocks, s.inodes, s.n, b);
    }
    assert forall i, k :: 0 <= i < |g.inodes| && 0 <= k < NSLOTS ==> Addr(g, i, k) == 0;
  }

  lemma SizesFit(sb: Super, s: State, data: seq<seq<Byte>>)
    requires Built(sb, s) && AllFit(ViewOf(sb, s)) && SizesAre(s.inodes, data)
    ensures forall j :: 0 <= j < |data| ==> |data[j]| <= MAXFILE * BSIZE
  {
    hide Built, ViewOf, NoHoles, Tight;
    forall j | 0 <= j < |data| ensures |data[j]| <= MAXFILE * BSIZE {
      FitsNow(sb, s, j);
    }
  }

  lemma FitsNow(sb: Super, s: State, i: int)
    requires Built(sb, s) && AllFit(ViewOf(sb, s)) && 0 <= i < |s.inodes|
    ensures Fits(ViewOf(sb, s), i, s.inodes[i].size) && 0 <= s.inodes[i].size <= MAXFILE * BSIZE
  {
    hide Built, NoHoles, Tight;
    assert Fits(ViewOf(sb, s), i, ViewOf(sb, s).inodes[i].size);
  }

  lemma ProgressBuilt(sb: Super, s: State, t: State, i: int, src: seq<Byte>, off: int, tot: int)
    requires Progress(sb, s, t, i, src, off, tot)
    ensures Built(sb, t) && off + tot <= MAXFILE * BSIZE
  {
    hide Built, NoHoles, Tight, Written, OthersStay;
  }

  function NoInode(): (ip: Inode)
    ensures ip.size == 0 && |ip.addrs| == NDIRECT + 1 && forall k :: 0 <= k <= NDIRECT ==> ip.addrs[k] == 0
  {
    Inode(0, 0, seq(NDIRECT + 1, _ => 0))
  }
}
