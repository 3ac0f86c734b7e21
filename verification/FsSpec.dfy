/**
 The on-disk file system of kernel/fs.h as values: the free bitmap, inode block maps through
 direct and indirect addresses, and who owns each data block.
 */
module FsSpec {
  import opened Params

  const NDIRECT := 12
  const NINDIRECT := 256       // BSIZE / sizeof(uint)
  const MAXFILE := 268         // NDIRECT + NINDIRECT
  const NSLOTS := 269          // direct addresses, the indirect block, its entries
  const BPB := 8192            // bitmap bits per block
  const IPB := 16              // inodes per block
  const UINT := 0x1_0000_0000

  type Byte = int
  type Block = seq<Byte>  // BSIZE bytes

  function ZeroBlock(): (b: Block)
    ensures |b| == BSIZE && forall i :: 0 <= i < BSIZE ==> b[i] == 0
  {
    seq(BSIZE, _ => 0)
  }

  // ----- Bits of a byte

  /** (x >> k) & 1 */
  function TestBit(x: int, k: nat): bool
    decreases k
  {
    if k == 0 then x % 2 == 1 else TestBit(x / 2, k - 1)
  }

  /** x | (1 << k), or x & ~(1 << k) */
  function PutBit(x: int, k: nat, v: bool): (y: int)
    decreases k
  {
    if k == 0 then 2 * (x / 2) + (if v then 1 else 0) else 2 * PutBit(x / 2, k - 1, v) + x % 2
  }

  lemma {:induction false} PutBitTest(x: int, k: nat, v: bool, j: nat)
    ensures TestBit(PutBit(x, k, v), j) == if j == k then v else TestBit(x, j)
    decreases k
  {
    if k > 0 && j > 0 {
      PutBitTest(x / 2, k - 1, v, j - 1);
      assert PutBit(x, k, v) / 2 == PutBit(x / 2, k - 1, v);
    } else if k == 0 && j > 0 {
      assert PutBit(x, k, v) / 2 == x / 2;
    } else if k > 0 {
      assert PutBit(x, k, v) % 2 == x % 2;
    }
  }

  function P2(n: nat): (p: int) {
    if n == 0 then 1 else 2 * P2(n - 1)
  }

  /** Setting or clearing one of the low n bits of an n-bit number gives an n-bit number. */
  lemma {:induction false} PutBitBound(x: int, k: nat, v: bool, n: nat)
    requires 0 <= x < P2(n) && k < n
    ensures 0 <= PutBit(x, k, v) < P2(n)
    decreases k
  {
    if k > 0 {
      PutBitBound(x / 2, k - 1, v, n - 1);
    }
  }

  // ----- Words of a block

  function Word(b: Block, j: int): (w: int)
    requires 0 <= j < NINDIRECT && |b| == BSIZE
  {
    b[4 * j] + 0x100 * b[4 * j + 1] + 0x1_0000 * b[4 * j + 2] + 0x100_0000 * b[4 * j + 3]
  }

  function PutWord(b: Block, j: int, w: int): (r: Block)
    requires 0 <= j < NINDIRECT && 0 <= w < UINT && |b| == BSIZE
    ensures |r| == BSIZE
  {
    b[4 * j := w % 0x100][4 * j + 1 := w / 0x100 % 0x100]
      [4 * j + 2 := w / 0x1_0000 % 0x100][4 * j + 3 := w / 0x100_0000]
  }

  lemma ZeroWords()
    ensures forall j :: 0 <= j < NINDIRECT ==> Word(ZeroBlock(), j) == 0
  {
  }

  lemma Digits(w: int)
    requires 0 <= w < UINT
    ensures w == w % 0x100 + 0x100 * (w / 0x100 % 0x100)
      + 0x1_0000 * (w / 0x1_0000 % 0x100) + 0x100_0000 * (w / 0x100_0000)
  {
    var w1 := w / 0x100;
    var w2 := w1 / 0x100;
    assert w / 0x1_0000 == w2 && w / 0x100_0000 == w2 / 0x100;
  }

  lemma PutWordWords(b: Block, j: int, w: int)
    requires 0 <= j < NINDIRECT && 0 <= w < UINT && |b| == BSIZE
    ensures forall l :: 0 <= l < NINDIRECT ==> Word(PutWord(b, j, w), l) == if l == j then w else Word(b, l)
  {
    Digits(w);
  }

  // ----- The image

  /** size blocks in all; the bitmap starts at bmapstart, data blocks at nmeta. */
  datatype Super = Super(size: int, inodestart: int, bmapstart: int, nmeta: int)

  datatype Inode = Inode(typ: int, size: int, addrs: seq<int>)

  /** The blocks as bread returns them, and the inodes as the kernel holds them. */
  datatype Img = Img(sb: Super, blocks: seq<Block>, inodes: seq<Inode>)

  function BBlock(sb: Super, b: int): int {
    b / BPB + sb.bmapstart
  }

  function IBlock(sb: Super, inum: int): int {
    inum / IPB + sb.inodestart
  }

  ghost predicate Shape(g: Img) {
    && |g.blocks| == g.sb.size <= UINT
    && 0 < g.sb.nmeta <= g.sb.size
    && (forall b :: 0 <= b < g.sb.size ==> 0 <= BBlock(g.sb, b) < g.sb.nmeta)
    && (forall b :: 0 <= b < g.sb.size ==> |g.blocks[b]| == BSIZE)
    && (forall i :: 0 <= i < |g.inodes| ==> InodeShape(g, g.inodes[i]))
  }

  ghost predicate InodeShape(g: Img, ip: Inode) {
    |ip.addrs| == NDIRECT + 1 && forall k :: 0 <= k <= NDIRECT ==> 0 <= ip.addrs[k] < g.sb.size
  }

  predicate Bit(g: Img, b: int)
    requires 0 <= BBlock(g.sb, b) < |g.blocks| && |g.blocks[BBlock(g.sb, b)]| == BSIZE
  {
    TestBit(g.blocks[BBlock(g.sb, b)][b % BPB / 8], b % BPB % 8)
  }

  function WithBit(g: Img, b: int, v: bool): (r: Img)
    requires 0 <= BBlock(g.sb, b) < |g.blocks| && |g.blocks[BBlock(g.sb, b)]| == BSIZE
  {
    var bb := BBlock(g.sb, b);
    var old' := g.blocks[bb];
    g.(blocks := g.blocks[bb := old'[b % BPB / 8 := PutBit(old'[b % BPB / 8], b % BPB % 8, v)]])
  }

  lemma WithBitBits(g: Img, b: int, v: bool, c: int)
    requires 0 <= BBlock(g.sb, b) < |g.blocks| && |g.blocks[BBlock(g.sb, b)]| == BSIZE
    requires 0 <= BBlock(g.sb, c) < |g.blocks| && |g.blocks[BBlock(g.sb, c)]| == BSIZE
    ensures Bit(WithBit(g, b, v), c) == if c == b then v else Bit(g, c)
  {
    hide TestBit, PutBit;
    var old' := g.blocks[BBlock(g.sb, b)][b % BPB / 8];
    PutBitTest(old', b % BPB % 8, v, c % BPB % 8);
    if c != b && c / BPB == b / BPB && c % BPB / 8 == b % BPB / 8 {
      assert c % BPB != b % BPB;
      assert c % BPB % 8 != b % BPB % 8;
    }
  }

  /** Every byte of every block fits a byte. */
  ghost predicate BytesOk(g: Img) {
    forall b :: 0 <= b < |g.blocks| ==> BlockOk(g.blocks[b])
  }

  ghost predicate BlockOk(b: Block) {
    forall k :: 0 <= k < |b| ==> 0 <= b[k] < 0x100
  }

  /** Marking, unmarking and zeroing keep bytes in range. */
  lemma BitBytes(g: Img, b: int, v: bool)
    requires 0 <= BBlock(g.sb, b) < |g.blocks| && |g.blocks[BBlock(g.sb, b)]| == BSIZE && BytesOk(g)
    ensures BytesOk(WithBit(g, b, v))
  {
    hide PutBit;
    var x := g.blocks[BBlock(g.sb, b)][b % BPB / 8];
    assert BlockOk(g.blocks[BBlock(g.sb, b)]);
    assert P2(8) == 0x100 by {
      assert P2(4) == 16;
    }
    PutBitBound(x, b % BPB % 8, v, 8);
  }

  lemma AllocatedBytes(g: Img, a: int)
    requires Shape(g) && 0 <= a < g.sb.size && BytesOk(g)
    ensures 0 <= BBlock(g.sb, a) < |g.blocks| && |g.blocks[BBlock(g.sb, a)]| == BSIZE
    ensures BytesOk(WithBlock(WithBit(g, a, true), a, ZeroBlock()))
  {
    hide WithBit, InodeShape;
    BitBytes(g, a, true);
    BitFrameBlocks(g, a, true);
  }

  // ----- Inode block maps

  /** A place that names a block: slot k of inode i. */
  datatype Slot = Slot(i: int, k: int)

  /** Block bn of a file is named by this slot. */
  function SlotOf(bn: int): int {
    if bn < NDIRECT then bn else bn + 1
  }

  /** The address in slot k of inode i: direct, the indirect block, or an entry of it. */
  function Addr(g: Img, i: int, k: int): (a: int)
    requires Shape(g) && 0 <= i < |g.inodes| && 0 <= k < NSLOTS
  {
    var ip := g.inodes[i];
    if k <= NDIRECT then ip.addrs[k]
    else if ip.addrs[NDIRECT] == 0 then 0
    else Word(g.blocks[ip.addrs[NDIRECT]], k - NDIRECT - 1)
  }

  /** The bitmap marks the metadata blocks and `used`, and nothing else. */
  ghost predicate BitsAre(g: Img, used: set<int>)
    requires Shape(g)
  {
    forall b :: 0 <= b < g.sb.size ==> (Bit(g, b) <==> b < g.sb.nmeta || b in used)
  }

  /** Every named block is a data block and has one owner; every owner names its block. */
  ghost predicate Owned(g: Img, owner: map<int, Slot>)
    requires Shape(g)
  {
    && (forall a :: a in owner ==> g.sb.nmeta <= a < g.sb.size)
    && (forall a :: a in owner ==>
          0 <= owner[a].i < |g.inodes| && 0 <= owner[a].k < NSLOTS && Addr(g, owner[a].i, owner[a].k) == a)
    && (forall i, k :: 0 <= i < |g.inodes| && 0 <= k < NSLOTS && Addr(g, i, k) != 0 ==>
          Addr(g, i, k) in owner && owner[Addr(g, i, k)] == Slot(i, k))
  }

  /** The file system invariant: exactly the metadata and the owned blocks are marked in use. */
  ghost predicate Valid(g: Img, owner: map<int, Slot>) {
    Shape(g) && Owned(g, owner) && BitsAre(g, owner.Keys)
  }

  /** Block bn of file i; a block not yet allocated reads as zeroes. */
  ghost function FileBlock(g: Img, i: int, bn: int): (b: Block)
    requires Shape(g) && 0 <= i < |g.inodes| && 0 <= bn < MAXFILE
    ensures |b| == BSIZE
  {
    var a := Addr(g, i, SlotOf(bn));
    if 0 < a < |g.blocks| then g.blocks[a] else ZeroBlock()
  }

  ghost predicate SameFiles(g: Img, h: Img)
    requires Shape(g) && Shape(h)
  {
    && |g.inodes| == |h.inodes|
    && (forall i, bn :: 0 <= i < |g.inodes| && 0 <= bn < MAXFILE ==> FileBlock(g, i, bn) == FileBlock(h, i, bn))
  }

  ghost predicate SameAddrs(g: Img, h: Img)
    requires Shape(g) && Shape(h)
  {
    && |g.inodes| == |h.inodes|
    && (forall i, k :: 0 <= i < |g.inodes| && 0 <= k < NSLOTS ==> Addr(h, i, k) == Addr(g, i, k))
  }

  // ----- What single changes do to the invariant

  /** Changing blocks that hold no inode's addresses keeps every address. */
  lemma AddrFrame(g: Img, h: Img, owner: map<int, Slot>)
    requires Shape(g) && Owned(g, owner) && Shape(h) && h.inodes == g.inodes && h.sb == g.sb
    requires forall a :: a in owner && owner[a].k == NDIRECT ==> h.blocks[a] == g.blocks[a]
    ensures SameAddrs(g, h) && Owned(h, owner)
  {
    forall i, k | 0 <= i < |g.inodes| && 0 <= k < NSLOTS ensures Addr(h, i, k) == Addr(g, i, k) {
      assert Addr(g, i, NDIRECT) == g.inodes[i].addrs[NDIRECT];
    }
  }

  lemma OwnedSameAddrs(g: Img, h: Img, owner: map<int, Slot>)
    requires Shape(g) && Shape(h) && Owned(g, owner) && SameAddrs(g, h) && h.sb == g.sb
    ensures Owned(h, owner)
  {
    hide Addr, Shape;
  }

  /** Marking a block. */
  lemma BitFrame(g: Img, owner: map<int, Slot>, used: set<int>, b: int, v: bool)
    requires Shape(g) && Owned(g, owner) && BitsAre(g, used) && g.sb.nmeta <= b < g.sb.size
    ensures var h := WithBit(g, b, v);
      && Shape(h) && Owned(h, owner) && BitsAre(h, if v then used + {b} else used - {b})
      && SameAddrs(g, h) && SameFiles(g, h)
  {
    var h := WithBit(g, b, v);
    BitFrameBits(g, used, b, v);
    BitFrameBlocks(g, b, v);
    AddrFrame(g, h, owner);
    hide WithBit, Bit, BBlock;
    forall i, bn | 0 <= i < |g.inodes| && 0 <= bn < MAXFILE ensures FileBlock(g, i, bn) == FileBlock(h, i, bn) {
      var a := Addr(g, i, SlotOf(bn));
      assert a != 0 ==> a in owner;
    }
  }

  lemma BitFrameBits(g: Img, used: set<int>, b: int, v: bool)
    requires Shape(g) && BitsAre(g, used) && g.sb.nmeta <= b < g.sb.size
    ensures var h := WithBit(g, b, v); Shape(h) && BitsAre(h, if v then used + {b} else used - {b})
  {
    var h := WithBit(g, b, v);
    forall c | 0 <= c < g.sb.size ensures Bit(h, c) == if c == b then v else Bit(g, c) {
      WithBitBits(g, b, v, c);
    }
  }

  lemma BitFrameBlocks(g: Img, b: int, v: bool)
    requires Shape(g) && 0 <= b < g.sb.size
    ensures var h := WithBit(g, b, v);
      && Shape(h) && h.sb == g.sb && h.inodes == g.inodes
      && forall a :: g.sb.nmeta <= a < g.sb.size ==> h.blocks[a] == g.blocks[a]
  {
    assert BBlock(g.sb, b) < g.sb.nmeta;
  }

  function WithBlock(g: Img, a: int, v: Block): (h: Img)
    requires 0 <= a < |g.blocks|
  {
    g.(blocks := g.blocks[a := v])
  }

  lemma WithBlockBits(g: Img, used: set<int>, a: int, v: Block)
    requires Shape(g) && BitsAre(g, used) && g.sb.nmeta <= a < g.sb.size && |v| == BSIZE
    ensures Shape(WithBlock(g, a, v)) && BitsAre(WithBlock(g, a, v), used)
  {
    hide TestBit;
    var h := WithBlock(g, a, v);
    forall b | 0 <= b < g.sb.size ensures Bit(h, b) == Bit(g, b) {
      assert BBlock(g.sb, b) < g.sb.nmeta;
    }
  }

  /** Writing a data block that no inode uses for addresses; only the file it belongs to can see it. */
  lemma DataFrame(g: Img, owner: map<int, Slot>, used: set<int>, a: int, v: Block)
    requires Shape(g) && Owned(g, owner) && BitsAre(g, used) && g.sb.nmeta <= a < g.sb.size && |v| == BSIZE
    requires a in owner ==> owner[a].k != NDIRECT
    ensures var h := WithBlock(g, a, v);
      && Shape(h) && Owned(h, owner) && BitsAre(h, used) && SameAddrs(g, h)
      && (forall i, bn :: 0 <= i < |g.inodes| && 0 <= bn < MAXFILE ==>
            FileBlock(h, i, bn) == if Addr(g, i, SlotOf(bn)) == a then v else FileBlock(g, i, bn))
  {
    WithBlockBits(g, used, a, v);
    AddrFrame(g, WithBlock(g, a, v), owner);
    hide BitsAre, Owned, BBlock;
  }

  // ----- Allocation

  /** m is g after a has been taken from the free blocks and zeroed; no inode names it yet. */
  ghost predicate Allocated(g: Img, m: Img, owner: map<int, Slot>, a: int)
    requires Shape(g)
  {
    && Shape(m) && m.sb == g.sb && m.inodes == g.inodes && Owned(m, owner) && BitsAre(m, owner.Keys + {a})
    && SameFiles(g, m) && SameAddrs(g, m)
    && g.sb.nmeta <= a < g.sb.size && a !in owner && m.blocks[a] == ZeroBlock()
  }

  lemma AllocateBlock(g: Img, owner: map<int, Slot>, a: int)
    requires Valid(g, owner) && g.sb.nmeta <= a < g.sb.size && a !in owner
    ensures Shape(WithBit(g, a, true)) && Allocated(g, WithBlock(WithBit(g, a, true), a, ZeroBlock()), owner, a)
  {
    var h := WithBit(g, a, true);
    BitFrame(g, owner, owner.Keys, a, true);
    BitFrameBlocks(g, a, true);
    hide WithBit;
    DataFrame(h, owner, owner.Keys + {a}, a, ZeroBlock());
    var m := WithBlock(h, a, ZeroBlock());
    hide Addr, BitsAre, FileBlock;
    forall i, bn | 0 <= i < |g.inodes| && 0 <= bn < MAXFILE ensures FileBlock(g, i, bn) == FileBlock(m, i, bn) {
      assert Addr(g, i, SlotOf(bn)) != a;
    }
  }

  /** Allocating for inode i: addresses may appear there; no contents and no other inode change. */
  ghost predicate Grew(g: Img, h: Img, i: int)
    requires Shape(g) && Shape(h)
  {
    && g.sb == h.sb && SameFiles(g, h) && 0 <= i < |g.inodes|
    && (forall j :: 0 <= j < |g.inodes| && j != i ==> h.inodes[j] == g.inodes[j])
    && h.inodes[i].size == g.inodes[i].size && h.inodes[i].typ == g.inodes[i].typ
    && (forall k :: 0 <= k < NSLOTS && Addr(g, i, k) != 0 ==> Addr(h, i, k) == Addr(g, i, k))
  }

  lemma GrewTrans(g: Img, h: Img, m: Img, i: int)
    requires Shape(g) && Shape(h) && Shape(m) && Grew(g, h, i) && Grew(h, m, i)
    ensures Grew(g, m, i)
  {
    hide Shape, Addr, FileBlock;
  }

  /** The inode's own slot k names a. */
  function WithSlot(g: Img, i: int, k: int, a: int): (h: Img)
    requires 0 <= i < |g.inodes| && 0 <= k < |g.inodes[i].addrs|
  {
    g.(inodes := g.inodes[i := g.inodes[i].(addrs := g.inodes[i].addrs[k := a])])
  }

  lemma WithSlotAddrs(g: Img, i: int, k: int, a: int)
    requires Shape(g) && 0 <= i < |g.inodes| && 0 <= k <= NDIRECT && g.inodes[i].addrs[k] == 0 && 0 < a < g.sb.size
    requires g.blocks[a] == ZeroBlock()
    ensures Shape(WithSlot(g, i, k, a))
    ensures forall j, l :: 0 <= j < |g.inodes| && 0 <= l < NSLOTS ==>
      Addr(WithSlot(g, i, k, a), j, l) == if j == i && l == k then a else Addr(g, j, l)
  {
    var h := WithSlot(g, i, k, a);
    assert InodeShape(g, g.inodes[i]);
    assert InodeShape(h, h.inodes[i]);
    ZeroWords();
    hide BBlock, Word;
  }

  /** Slot k of inode i names a in h; no other slot changed. */
  ghost predicate OneAddr(g: Img, h: Img, i: int, k: int, a: int)
    requires Shape(g) && Shape(h)
  {
    && |g.inodes| == |h.inodes|
    && forall j, l :: 0 <= j < |g.inodes| && 0 <= l < NSLOTS ==>
         Addr(h, j, l) == if j == i && l == k then a else Addr(g, j, l)
  }

  /** A direct address or the indirect block of an inode takes the block just allocated. */
  lemma RecordSlot(g: Img, m: Img, owner: map<int, Slot>, i: int, k: int, a: int)
    requires Valid(g, owner) && Allocated(g, m, owner, a) && 0 <= i < |g.inodes| && 0 <= k <= NDIRECT
      && g.inodes[i].addrs[k] == 0
    ensures var h := WithSlot(m, i, k, a);
      && Valid(h, owner[a := Slot(i, k)]) && Grew(g, h, i) && OneAddr(g, h, i, k, a)
  {
    var h := WithSlot(m, i, k, a);
    WithSlotAddrs(m, i, k, a);
    assert owner[a := Slot(i, k)].Keys == owner.Keys + {a};
    assert Addr(m, i, k) == 0;
    hide Addr, InodeShape;
    assert forall b :: 0 <= b < m.sb.size ==> Bit(h, b) == Bit(m, b);
    NewAddrOwned(m, h, owner, i, k, a);
    NewAddrFiles(m, h, i, k, a);
  }

  /** Slot (i, k), empty in m, names a in h. */
  ghost predicate NewAddr(m: Img, h: Img, i: int, k: int, a: int)
    requires Shape(m) && Shape(h)
  {
    && h.sb == m.sb && |h.inodes| == |m.inodes| && 0 <= i < |m.inodes| && 0 <= k < NSLOTS && Addr(m, i, k) == 0
    && (forall j, l :: 0 <= j < |m.inodes| && 0 <= l < NSLOTS ==>
          Addr(h, j, l) == if j == i && l == k then a else Addr(m, j, l))
  }

  lemma NewAddrOwned(m: Img, h: Img, owner: map<int, Slot>, i: int, k: int, a: int)
    requires Shape(m) && Shape(h) && NewAddr(m, h, i, k, a) && Owned(m, owner)
    requires a !in owner && m.sb.nmeta <= a < m.sb.size
    ensures Owned(h, owner[a := Slot(i, k)])
  {
    hide Addr, InodeShape, BBlock;
  }

  /** A fresh zero block in an empty slot reads as the hole did. */
  lemma NewAddrFiles(m: Img, h: Img, i: int, k: int, a: int)
    requires Shape(m) && Shape(h) && NewAddr(m, h, i, k, a) && 0 < a < m.sb.size && m.blocks[a] == ZeroBlock()
    requires forall j, l :: 0 <= j < |m.inodes| && 0 <= l < NSLOTS && l != NDIRECT && 0 < Addr(h, j, l) < m.sb.size ==>
               h.blocks[Addr(h, j, l)] == m.blocks[Addr(h, j, l)]
    ensures SameFiles(m, h)
  {
    hide Addr, InodeShape, BBlock, ZeroBlock;
    forall j, bn | 0 <= j < |m.inodes| && 0 <= bn < MAXFILE ensures FileBlock(m, j, bn) == FileBlock(h, j, bn) {
      var l := SlotOf(bn);
      assert Addr(h, j, l) == if j == i && l == k then a else Addr(m, j, l);
    }
  }

  /** Entry j of inode i's indirect block names a. */
  function WithEntry(g: Img, i: int, j: int, a: int): (h: Img)
    requires Shape(g) && 0 <= i < |g.inodes| && 0 <= j < NINDIRECT && 0 <= a < UINT
  {
    var ind := g.inodes[i].addrs[NDIRECT];
    g.(blocks := g.blocks[ind := PutWord(g.blocks[ind], j, a)])
  }

  lemma WithEntryAddrs(g: Img, owner: map<int, Slot>, i: int, j: int, a: int)
    requires Shape(g) && Owned(g, owner) && 0 <= a < UINT
    requires 0 <= i < |g.inodes| && 0 <= j < NINDIRECT && g.inodes[i].addrs[NDIRECT] != 0
    ensures Shape(WithEntry(g, i, j, a))
    ensures forall m, l :: 0 <= m < |g.inodes| && 0 <= l < NSLOTS ==>
      Addr(WithEntry(g, i, j, a), m, l) == if m == i && l == NDIRECT + 1 + j then a else Addr(g, m, l)
  {
    hide BBlock, Word, PutWord;
    var ind := g.inodes[i].addrs[NDIRECT];
    PutWordWords(g.blocks[ind], j, a);
    assert Addr(g, i, NDIRECT) == ind;
    forall m, l | 0 <= m < |g.inodes| && 0 <= l < NSLOTS
      ensures Addr(WithEntry(g, i, j, a), m, l) == if m == i && l == NDIRECT + 1 + j then a else Addr(g, m, l)
    {
      assert Addr(g, m, NDIRECT) == g.inodes[m].addrs[NDIRECT];
    }
  }

  lemma IndirectAddr(g: Img, i: int)
    requires Shape(g) && 0 <= i < |g.inodes|
    ensures |g.inodes[i].addrs| == NDIRECT + 1 && Addr(g, i, NDIRECT) == g.inodes[i].addrs[NDIRECT] < g.sb.size
  {
    assert InodeShape(g, g.inodes[i]);
  }

  /** An entry of the indirect block takes the block just allocated. */
  lemma RecordEntry(g: Img, m: Img, owner: map<int, Slot>, i: int, j: int, a: int)
    requires Valid(g, owner) && Allocated(g, m, owner, a) && 0 <= i < |g.inodes| && 0 <= j < NINDIRECT
    requires g.inodes[i].addrs[NDIRECT] != 0 && Addr(g, i, NDIRECT + 1 + j) == 0
    ensures var h := WithEntry(m, i, j, a);
      && Valid(h, owner[a := Slot(i, NDIRECT + 1 + j)]) && Grew(g, h, i) && OneAddr(g, h, i, NDIRECT + 1 + j, a)
  {
    hide Addr, InodeShape, PutWord, FileBlock, ZeroBlock, BBlock, Bit;
    IndirectAddr(m, i);
    var ind, h := m.inodes[i].addrs[NDIRECT], WithEntry(m, i, j, a);
    WithEntryAddrs(m, owner, i, j, a);
    assert owner[a := Slot(i, NDIRECT + 1 + j)].Keys == owner.Keys + {a};
    assert ind in owner && owner[ind] == Slot(i, NDIRECT);
    WithBlockBits(m, owner.Keys + {a}, ind, PutWord(m.blocks[ind], j, a));
    assert Addr(m, i, NDIRECT + 1 + j) == 0;
    NewAddrOwned(m, h, owner, i, NDIRECT + 1 + j, a);
    EntryFiles(m, h, owner, i, j, a);
  }

  lemma EntryFiles(m: Img, h: Img, owner: map<int, Slot>, i: int, j: int, a: int)
    requires Shape(m) && Shape(h) && Owned(m, owner) && 0 <= i < |m.inodes| && 0 <= j < NINDIRECT && 0 < a < m.sb.size
    requires h == WithEntry(m, i, j, a) && NewAddr(m, h, i, NDIRECT + 1 + j, a)
    requires Addr(m, i, NDIRECT) == m.inodes[i].addrs[NDIRECT] != 0 && a !in owner && m.blocks[a] == ZeroBlock()
    ensures SameFiles(m, h)
  {
    var ind := m.inodes[i].addrs[NDIRECT];
    hide Addr, InodeShape, PutWord, ZeroBlock, BBlock;
    assert owner[ind] == Slot(i, NDIRECT);
    forall n, l | 0 <= n < |m.inodes| && 0 <= l < NSLOTS && l != NDIRECT && 0 < Addr(h, n, l) < m.sb.size
      ensures Addr(h, n, l) != ind
    {
      assert Addr(h, n, l) == a || (Addr(h, n, l) == Addr(m, n, l) && owner[Addr(m, n, l)] == Slot(n, l));
    }
    NewAddrFiles(m, h, i, NDIRECT + 1 + j, a);
  }

  // ----- Freeing

  /** The owners that remain when slots lo..hi of inode i are given up. */
  ghost function Without(owner: map<int, Slot>, i: int, lo: int, hi: int): (r: map<int, Slot>)
    ensures forall a :: a in r <==> a in owner && !(owner[a].i == i && lo <= owner[a].k < hi)
    ensures forall a :: a in r ==> r[a] == owner[a]
  {
    map a | a in owner && !(owner[a].i == i && lo <= owner[a].k < hi) :: owner[a]
  }

  lemma WithoutWithout(owner: map<int, Slot>, i: int, lo: int, mid: int, hi: int)
    requires lo <= mid <= hi
    ensures Without(Without(owner, i, lo, mid), i, mid, hi) == Without(owner, i, lo, hi)
  {
  }

  /** Inodes other than i keep their addresses and contents. */
  ghost predicate OthersKept(g: Img, h: Img, i: int)
    requires Shape(g) && Shape(h)
  {
    && h.sb == g.sb && |h.inodes| == |g.inodes|
    && (forall j :: 0 <= j < |g.inodes| && j != i ==> h.inodes[j] == g.inodes[j])
    && (forall j, bn :: 0 <= j < |g.inodes| && j != i && 0 <= bn < MAXFILE ==>
          FileBlock(h, j, bn) == FileBlock(g, j, bn))
  }

  lemma OthersTrans(g: Img, h: Img, m: Img, i: int)
    requires Shape(g) && Shape(h) && Shape(m) && OthersKept(g, h, i) && OthersKept(h, m, i)
    ensures OthersKept(g, m, i)
  {
    hide Shape, FileBlock;
  }

  lemma ClearedOwned(m: Img, h: Img, owner: map<int, Slot>, i: int, lo: int, hi: int)
    requires Shape(m) && Shape(h) && Owned(m, owner) && h.sb == m.sb && |h.inodes| == |m.inodes|
    requires forall j, l :: 0 <= j < |m.inodes| && 0 <= l < NSLOTS ==>
      Addr(h, j, l) == if j == i && lo <= l < hi then 0 else Addr(m, j, l)
    ensures Owned(h, Without(owner, i, lo, hi))
  {
    hide Shape, Addr;
  }

  /** Zeroing an address of the inode clears that slot, and with the indirect block all its entries. */
  lemma ZeroSlot(m: Img, i: int, k: int)
    requires Shape(m) && 0 <= i < |m.inodes| && 0 <= k <= NDIRECT
    ensures Shape(WithSlot(m, i, k, 0))
    ensures var hi := if k == NDIRECT then NSLOTS else k + 1;
      forall j, l :: 0 <= j < |m.inodes| && 0 <= l < NSLOTS ==>
        Addr(WithSlot(m, i, k, 0), j, l) == if j == i && k <= l < hi then 0 else Addr(m, j, l)
  {
    var h := WithSlot(m, i, k, 0);
    assert InodeShape(m, m.inodes[i]) && InodeShape(h, h.inodes[i]);
    hide BBlock, Word;
  }

  /** The image after slot k of inode i is zeroed, its blocks already unmarked. */
  lemma DropSlot(m: Img, owner: map<int, Slot>, i: int, k: int, hi: int)
    requires Shape(m) && Owned(m, owner) && 0 <= i < |m.inodes| && 0 <= k <= NDIRECT
    requires hi == if k == NDIRECT then NSLOTS else k + 1
    requires BitsAre(m, Without(owner, i, k, hi).Keys)
    ensures var h := WithSlot(m, i, k, 0); Valid(h, Without(owner, i, k, hi)) && OthersKept(m, h, i)
  {
    var h := WithSlot(m, i, k, 0);
    ZeroSlot(m, i, k);
    hide Addr, InodeShape;
    ClearedOwned(m, h, owner, i, k, hi);
    assert forall b :: 0 <= b < m.sb.size ==> Bit(h, b) == Bit(m, b);
  }

  /** Giving up one more slot, above or below a range, gives up the block it names, if any. */
  lemma NextWithout(g: Img, owner: map<int, Slot>, i: int, lo: int, hi: int, k: int)
    requires Shape(g) && Owned(g, owner) && 0 <= i < |g.inodes| && 0 <= k < NSLOTS && lo <= hi
    requires k == hi || k == lo - 1
    ensures var used, a := Without(owner, i, lo, hi).Keys, Addr(g, i, k);
      && Without(owner, i, if k == hi then lo else k, if k == hi then k + 1 else hi).Keys == used - {a}
      && (a != 0 ==> a in used)
  {
    hide Addr, InodeShape, BBlock;
    var used, a := Without(owner, i, lo, hi).Keys, Addr(g, i, k);
    var next := Without(owner, i, if k == hi then lo else k, if k == hi then k + 1 else hi).Keys;
    forall b ensures b in next <==> b in used - {a} {
      if b in owner && owner[b].i == i && owner[b].k == k {
        assert Addr(g, i, k) == b;
      }
    }
  }

  /** Unmarking a named block, if there is one. */
  lemma Unmark(g: Img, owner: map<int, Slot>, used: set<int>, i: int, k: int)
    requires Shape(g) && Owned(g, owner) && 0 <= i < |g.inodes| && 0 <= k < NSLOTS && BitsAre(g, used)
    requires Addr(g, i, k) != 0 ==> Addr(g, i, k) in used
    ensures var a := Addr(g, i, k);
      if a == 0 then BitsAre(g, used - {a})
      else
        && g.sb.nmeta <= a < g.sb.size && Bit(g, a)
        && var h := WithBit(g, a, false);
           Shape(h) && Owned(h, owner) && BitsAre(h, used - {a}) && SameAddrs(g, h) && OthersKept(g, h, i)
  {
    hide Addr, Bit, InodeShape, BBlock;
    var a := Addr(g, i, k);
    if a != 0 {
      assert owner[a] == Slot(i, k);
      BitFrame(g, owner, used, a, false);
      BitFrameBlocks(g, a, false);
    }
  }
}
