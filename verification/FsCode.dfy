/**
 The block allocator and the file reads and writes of kernel/fs.c, run in place on the cached
 disk blocks and inodes, and the chunked file writes of kernel/file.c.
 */
module FsCode {
  import opened Params
  import opened FsSpec
  import opened FsRoom

  function Max(a: int, b: int): int {
    if a > b then a else b
  }

  function Min(a: int, b: int): int {
    if a < b then a else b
  }

  // ----- Contents

  ghost function FileByte(g: Img, i: int, pos: int): (b: Byte)
    requires Shape(g) && 0 <= i < |g.inodes| && 0 <= pos < MAXFILE * BSIZE
  {
    FileBlock(g, i, pos / BSIZE)[pos % BSIZE]
  }

  /** The bytes of d placed into b from position o on. */
  function Splice(b: Block, o: int, d: seq<Byte>): (r: Block)
    requires |b| == BSIZE && 0 <= o && o + |d| <= BSIZE
    ensures |r| == BSIZE
  {
    b[..o] + d + b[o + |d|..]
  }

  /** In h, bytes off..off+k of file i are the first k bytes of src; nothing else changed in any file. */
  ghost predicate Written(g: Img, h: Img, i: int, src: seq<Byte>, off: int, k: int)
    requires Shape(g) && Shape(h)
  {
    && g.sb == h.sb && |h.inodes| == |g.inodes| && 0 <= i < |g.inodes| && 0 <= k <= |src|
    && (forall pos :: 0 <= pos < MAXFILE * BSIZE ==>
          FileByte(h, i, pos) == if off <= pos < off + k then src[pos - off] else FileByte(g, i, pos))
    && (forall j :: 0 <= j < |g.inodes| && j != i ==> h.inodes[j] == g.inodes[j])
    && (forall j, bn :: 0 <= j < |g.inodes| && j != i && 0 <= bn < MAXFILE ==>
          FileBlock(h, j, bn) == FileBlock(g, j, bn))
  }

  /** Every block below size is allocated. */
  ghost predicate NoHoles(g: Img, i: int, size: int)
    requires Shape(g) && 0 <= i < |g.inodes|
  {
    forall bn :: 0 <= bn < MAXFILE && bn * BSIZE < size ==> Addr(g, i, SlotOf(bn)) != 0
  }

  /** The blocks below n are all in use. */
  ghost predicate MarkedBelow(g: Img, n: int)
    requires Shape(g)
  {
    forall b :: 0 <= b < n && b < g.sb.size ==> Bit(g, b)
  }

  ghost predicate Full(g: Img)
    requires Shape(g)
  {
    MarkedBelow(g, g.sb.size)
  }

  /** One block of file i takes the bytes d at o. */
  ghost predicate BlockSpliced(g: Img, h: Img, i: int, bn: int, o: int, d: seq<Byte>)
    requires Shape(g) && Shape(h) && 0 <= bn < MAXFILE && 0 <= o && o + |d| <= BSIZE
  {
    && g.sb == h.sb && |h.inodes| == |g.inodes| && 0 <= i < |g.inodes|
    && (forall j :: 0 <= j < |g.inodes| && j != i ==> h.inodes[j] == g.inodes[j])
    && (forall j, c :: 0 <= j < |g.inodes| && 0 <= c < MAXFILE ==>
          FileBlock(h, j, c) == if j == i && c == bn then Splice(FileBlock(g, j, c), o, d) else FileBlock(g, j, c))
  }

  /** Addresses once set stay. */
  ghost predicate KeepsAddrs(g: Img, h: Img, i: int)
    requires Shape(g) && Shape(h)
  {
    && 0 <= i < |g.inodes| == |h.inodes|
    && forall k :: 0 <= k < NSLOTS && Addr(g, i, k) != 0 ==> Addr(h, i, k) == Addr(g, i, k)
  }

  /** The indirect block of an inode and its bitmap block. */
  ghost function IndirectLog(g: Img, i: int): (s: set<int>)
    requires Shape(g) && 0 <= i < |g.inodes|
    ensures |s| <= 2
  {
    var ind := Addr(g, i, NDIRECT);
    if ind == 0 then {} else {ind, BBlock(g.sb, ind)}
  }

  // ----- The file system

  class FileSystem {
    const sb: Super
    var blocks: seq<Block>       // what bread returns
    var inodes: seq<Inode>       // in-memory inodes
    var dinodes: seq<Inode>      // their copies in the inode blocks
    ghost var owner: map<int, Slot>
    var logged: set<int>         // blocks passed to log_write since begin_op

    ghost function G(): (g: Img)
      reads this`blocks, this`inodes
    {
      Img(sb, blocks, inodes)
    }

    /** The file system of a disk image, every inode read in. */
    constructor (g: Img, ghost owner: map<int, Slot>)
      requires Valid(g, owner) && forall i :: 0 <= i < |g.inodes| ==> g.inodes[i].size <= MAXFILE * BSIZE
      ensures Ok() && G() == g && this.owner == owner && dinodes == inodes && logged == {}
    {
      sb, blocks, inodes, dinodes := g.sb, g.blocks, g.inodes, g.inodes;
      this.owner, logged := owner, {};
    }

    ghost predicate Ok()
      reads this`blocks, this`inodes, this`dinodes, this`owner
    {
      && Valid(G(), owner) && |dinodes| == |inodes|
      && (forall i :: 0 <= i < |inodes| ==> inodes[i].size <= MAXFILE * BSIZE)
    }

    /** The search of balloc: the first clear bit of the bitmap, bitmap block by bitmap block. */
    method FindFree() returns (addr: int)
      requires Ok()
      ensures addr == 0 ==> Full(G())
      ensures addr != 0 ==> sb.nmeta <= addr < sb.size && addr !in owner
      ensures addr != 0 ==> MarkedBelow(G(), addr)
    {
      hide Owned, InodeShape, TestBit, BitsAre;
      ghost var g := G();
      var b := 0;
      ghost var q := 0;
      while b < sb.size
        invariant b == q * BPB && 0 <= q
        invariant MarkedBelow(g, b)
      {
        BitIndex(q, 0);
        assert BBlock(sb, b) < sb.nmeta;
        var data := blocks[BBlock(sb, b)];
        var bi := 0;
        while bi < BPB && b + bi < sb.size
          invariant 0 <= bi <= BPB
          invariant MarkedBelow(g, b + bi)
        {
          BitIndex(q, bi);
          if !TestBit(data[bi / 8], bi % 8) {
            NotMarked(g, owner, b + bi);
            return b + bi;
          }
          bi := bi + 1;
        }
        b := b + BPB;
        q := q + 1;
      }
      addr := 0;
    }

    /** balloc: the first free block, marked and zeroed, or 0 when there is none. */
    method Balloc() returns (addr: int)
      requires Ok()
      modifies this`blocks, this`logged
      ensures Shape(G())
      ensures addr == 0 ==> Full(G()) && blocks == old(blocks) && logged == old(logged)
      ensures addr != 0 ==> Allocated(old(G()), G(), owner, addr) && logged == old(logged) + {BBlock(sb, addr), addr}
      ensures addr != 0 ==> MarkedBelow(old(G()), addr)
      ensures Saved(old(G()), G(), old(logged), logged)
      ensures old(BytesOk(G())) ==> BytesOk(G())
    {
      hide Owned, BitsAre, InodeShape, TestBit, PutBit, Allocated, MarkedBelow, BytesOk;
      ghost var g := G();
      addr := FindFree();
      if addr == 0 {
        return;
      }
      var bb, bi := BBlock(sb, addr), addr % BPB;
      assert bb < sb.nmeta;
      var data := blocks[bb];
      blocks := blocks[bb := data[bi / 8 := PutBit(data[bi / 8], bi % 8, true)]];
      logged := logged + {bb};
      AllocateBlock(g, owner, addr);
      blocks := blocks[addr := ZeroBlock()];
      logged := logged + {addr};
      assert G() == WithBlock(WithBit(g, addr, true), addr, ZeroBlock());
      AllocatedFrame(g, G(), owner, addr);
      if BytesOk(g) {
        AllocatedBytes(g, addr);
      }
    }

    /** bfree: clears the bit; false is the panic "freeing free block". */
    method Bfree(b: int) returns (ok: bool)
      requires Shape(G()) && 0 <= b < sb.size
      modifies this`blocks, this`logged
      ensures ok <==> old(Bit(G(), b))
      ensures ok ==> G() == WithBit(old(G()), b, false) && logged == old(logged) + {BBlock(sb, b)}
      ensures !ok ==> blocks == old(blocks) && logged == old(logged)
      ensures Saved(old(G()), G(), old(logged), logged)
      ensures old(BytesOk(G())) ==> BytesOk(G())
    {
      hide InodeShape, TestBit, PutBit, BytesOk;
      ghost var g := G();
      assert BBlock(sb, b) < sb.nmeta;
      var data := blocks[BBlock(sb, b)];
      var bi := b % BPB;
      if !TestBit(data[bi / 8], bi % 8) {
        return false;
      }
      data := data[bi / 8 := PutBit(data[bi / 8], bi % 8, false)];
      blocks := blocks[BBlock(sb, b) := data];
      logged := logged + {BBlock(sb, b)};
      ok := true;
      if BytesOk(g) {
        BitBytes(g, b, false);
      }
    }

    /** The part of bmap that works on the inode's own addresses. */
    method BmapSlot(inum: int, k: int) returns (addr: int)
      requires Ok() && 0 <= inum < |inodes| && 0 <= k <= NDIRECT
      modifies this`blocks, this`inodes, this`owner, this`logged
      ensures Ok() && Grew(old(G()), G(), inum)
      ensures addr == Addr(G(), inum, k) && addr == inodes[inum].addrs[k]
      ensures addr == 0 ==> Full(G())
      ensures Addr(old(G()), inum, k) != 0 || addr == 0 ==> G() == old(G()) && logged == old(logged)
      ensures Addr(old(G()), inum, k) == 0 && addr != 0 ==> Taken(old(G()), G(), inum, k, addr) && addr in logged
      ensures Saved(old(G()), G(), old(logged), logged)
      ensures logged <= old(logged)
        + (if Addr(old(G()), inum, k) != 0 || addr == 0 then {} else {addr, BBlock(sb, addr)})
    {
      OwnAddr(G(), inum, k);
      GrewRefl(G(), inum);
      hide Owned, BitsAre, InodeShape, Full, Addr, Grew, Allocated, BBlock, Spare, OneAddr;
      addr := inodes[inum].addrs[k];
      if addr == 0 {
        ghost var g := G();
        addr := Balloc();
        if addr == 0 {
          return;
        }
        RecordSlot(g, G(), owner, inum, k, addr);
        AllocatedFrame(g, G(), owner, addr);
        SlotSizes(G(), inum, k, addr);
        inodes := inodes[inum := inodes[inum].(addrs := inodes[inum].addrs[k := addr])];
        SpareNext(g, G(), owner, addr, Slot(inum, k));
        owner := owner[addr := Slot(inum, k)];
        OneAddrIs(g, G(), inum, k, addr);
      }
    }

    /** The part of bmap that works on an indirect block known to exist. */
    method BmapEntry(inum: int, j: int) returns (addr: int)
      requires Ok() && 0 <= inum < |inodes| && 0 <= j < NINDIRECT && Addr(G(), inum, NDIRECT) != 0
      modifies this`blocks, this`owner, this`logged
      ensures Ok() && Grew(old(G()), G(), inum)
      ensures addr == Addr(G(), inum, NDIRECT + 1 + j)
      ensures addr == 0 ==> Full(G())
      ensures Addr(old(G()), inum, NDIRECT + 1 + j) != 0 || addr == 0 ==> G() == old(G()) && logged == old(logged)
      ensures Addr(old(G()), inum, NDIRECT + 1 + j) == 0 && addr != 0 ==>
                Taken(old(G()), G(), inum, NDIRECT + 1 + j, addr) && addr in logged
      ensures Saved(old(G()), G(), old(logged), logged)
      ensures logged <= old(logged) + IndirectLog(G(), inum)
        + (if Addr(old(G()), inum, NDIRECT + 1 + j) != 0 || addr == 0 then {} else {addr, BBlock(sb, addr)})
    {
      hide Valid, Shape, Full, Addr, Grew, Allocated, Word, PutWord, IndirectLog, Spare, OneAddr, Taken, Saved;
      OkShape();
      IndirectAddr(G(), inum);
      EntryAddr(G(), inum, j);
      GrewRefl(G(), inum);
      IndirectLogged(G(), inum);
      SavedSame(G(), G(), logged, logged);
      var ind := inodes[inum].addrs[NDIRECT];
      addr := Word(blocks[ind], j);
      if addr == 0 {
        ghost var g := G();
        addr := Balloc();
        if addr != 0 {
          ghost var m, logs := G(), logged;
          EntryTakes(g, m, owner, inum, j, addr);
          blocks := blocks[ind := PutWord(blocks[ind], j, addr)];
          logged := logged + {ind};
          owner := owner[addr := Slot(inum, NDIRECT + 1 + j)];
          assert G() == WithEntry(m, inum, j, addr);
          SavedBlock(g, m, G(), ind, old(logged), logs);
        }
      }
    }

    /** bmap: the block that holds block bn of the file, allocated if need be; 0 if the disk is full. */
    method Bmap(inum: int, bn: int) returns (addr: int)
      requires Ok() && 0 <= inum < |inodes| && 0 <= bn < MAXFILE
      modifies this`blocks, this`inodes, this`owner, this`logged
      ensures Ok() && Grew(old(G()), G(), inum)
      ensures addr == Addr(G(), inum, SlotOf(bn))
      ensures if addr != 0 then Filled(old(G()), G(), inum, bn, bn + 1)
              else Full(G()) && Need(old(G()), inum, bn, bn + 1) > Spare(old(G()))
      ensures Logs(old(G()), G(), inum, bn, bn + 1, old(logged), logged)
      ensures logged <= old(logged) + IndirectLog(G(), inum)
        + (if Addr(old(G()), inum, SlotOf(bn)) != 0 || addr == 0 then {} else {addr, BBlock(sb, addr)})
    {
      hide Owned, BitsAre, Shape, Full, Addr, Grew, BBlock, Spare, Taken, Need, Filled, Logs;
      ghost var g := G();
      if bn < NDIRECT {
        addr := BmapSlot(inum, bn);
        MappedOne(g, G(), inum, bn, addr, old(logged), logged);
        return;
      }
      var j := bn - NDIRECT;
      IndirectFirst(g, inum, j);
      addr := BmapSlot(inum, NDIRECT);
      ghost var h, logs := G(), logged;
      if addr == 0 {
        IndirectNone(h, inum, j);
        MappedNone(g, inum, bn, logged);
        return;
      }
      addr := BmapEntry(inum, j);
      MappedTwo(g, h, G(), inum, bn, addr, old(logged), logs, logged);
      GrewTrans(g, h, G(), inum);
      GrewIndirect(h, G(), inum);
    }

    /** iupdate */
    method Iupdate(inum: int)
      requires 0 <= inum < |inodes| == |dinodes|
      modifies this`dinodes, this`logged
      ensures dinodes == old(dinodes)[inum := inodes[inum]]
      ensures logged == old(logged) + {IBlock(sb, inum)}
    {
      dinodes := dinodes[inum := inodes[inum]];
      logged := logged + {IBlock(sb, inum)};
    }

    /** Every block of the file up to its size is allocated. */
    ghost predicate Dense(inum: int)
      reads this`blocks, this`inodes, this`dinodes, this`owner
    {
      Ok() && 0 <= inum < |inodes| && NoHoles(G(), inum, inodes[inum].size)
    }

    /** begin_op, as far as the file system sees it: a new transaction. */
    method BeginOp()
      modifies this`logged
      ensures logged == {}
    {
      logged := {};
    }

    lemma OkValid()
      requires Ok()
      ensures Valid(G(), owner)
    {
    }

    lemma OkShape()
      requires Ok()
      ensures Shape(G()) && G().inodes == inodes && forall i :: 0 <= i < |inodes| ==> inodes[i].size <= MAXFILE * BSIZE
    {
    }

    /** One turn of writei's loop: bmap, copy into the buffer and, when the copy is whole, log_write.  False when the
        disk is full. */
    method WriteBlock(inum: int, bn: int, o: int, d: seq<Byte>, whole: bool) returns (ok: bool, ghost used: set<int>)
      requires Ok() && 0 <= inum < |inodes| && 0 <= bn < MAXFILE && 0 <= o && o + |d| <= BSIZE
      modifies this`blocks, this`inodes, this`owner, this`logged
      ensures Ok() && |inodes| == old(|inodes|) && inodes[inum].size == old(inodes[inum].size)
      ensures KeepsAddrs(old(G()), G(), inum)
      ensures ok ==> BlockSpliced(old(G()), G(), inum, bn, o, d) && Filled(old(G()), G(), inum, bn, bn + 1)
      ensures !ok ==> Grew(old(G()), G(), inum) && Full(G()) && Need(old(G()), inum, bn, bn + 1) > Spare(old(G()))
      ensures IndirectLog(old(G()), inum) <= IndirectLog(G(), inum)
      ensures logged <= old(logged) + IndirectLog(G(), inum) + used
      ensures |used| <= if Addr(old(G()), inum, SlotOf(bn)) != 0 then 1 else 2
      ensures !ok ==> used == {}
      ensures ok && !whole && Addr(old(G()), inum, SlotOf(bn)) != 0 ==> logged == old(logged)
      ensures ok && whole ==> Addr(G(), inum, SlotOf(bn)) in logged
      ensures old(logged) <= logged
      ensures Saved(old(G()), G(), old(logged),
                    logged + (if ok && !whole && d != [] then {Addr(G(), inum, SlotOf(bn))} else {}))
    {
      hide Owned, BitsAre, Shape, Full, Addr, Grew, BlockSpliced, KeepsAddrs, IndirectLog, Splice, BBlock, Filled, Need;
      hide Spare, SameAddrs, Saved, Logs;
      ghost var g := G();
      var addr := Bmap(inum, bn);
      ghost var h, logs := G(), logged;
      LogsSaved(g, h, inum, bn, old(logged), logged);
      GrewIndirect(g, h, inum);
      ok := addr != 0;
      used := {};
      if ok {
        used := if Addr(g, inum, SlotOf(bn)) == 0 then {addr, BBlock(sb, addr)} else if whole then {addr} else {};
        SpliceBlock(g, h, owner, inum, bn, addr, o, d);
        HoleLogs(g, h, inum, bn, old(logged), logged);
        blocks := blocks[addr := Splice(blocks[addr], o, d)];
        if whole {
          logged := logged + {addr};
        }
        assert G() == WithBlock(h, addr, Splice(h.blocks[addr], o, d));
        FilledSame(g, h, G(), owner, inum, bn, bn + 1);
        SavedSplice(g, h, G(), inum, bn, addr, o, d, old(logged), logs, logged);
      }
    }

    /** One turn, tot bytes into a write of n that started on the image g.  It goes on to `next`, or stops. */
    method WriteTurn(inum: int, src: seq<Byte>, off: int, n: int, stray: int, tot: int, ghost g: Img, ghost size: int,
                     ghost cnt: int, ghost used: set<int>, ghost before: set<int>)
      returns (stop: bool, next: int, ghost extra: int, ghost now: set<int>)
      requires Ok() && Shape(g) && 0 <= inum < |inodes| == |g.inodes| && inodes[inum].size == size
      requires 0 <= off && 0 <= tot < n && tot <= |src| && off + n <= MAXFILE * BSIZE && 0 <= stray
      requires Partly(g, G(), inum, src, off, n, tot, size, cnt, |used|)
        && Tracked(g, G(), inum, before, logged, used)
      modifies this`blocks, this`inodes, this`owner, this`logged
      ensures Ok() && |inodes| == old(|inodes|) && inodes[inum].size == size
      ensures !stop ==> tot < next <= n && next <= |src| && extra == 0
      ensures !stop ==> Partly(g, G(), inum, src, off, n, next, size, cnt + 1, |now|)
                        && Tracked(g, G(), inum, before, logged, now)
      ensures stop ==> next == tot && WriteDone(g, G(), inum, src, off, n, stray, tot, extra)
      ensures stop && NoHoles(g, inum, Max(size, off)) ==>
                NoHoles(G(), inum, Max(size, off + tot)) && (n <= 3 * BSIZE ==> |now| <= 7)
      ensures stop ==> before <= logged <= before + IndirectLog(G(), inum) + now
      ensures stop ==> Saved(g, G(), before, logged + Stray(G(), inum, off + tot, extra))
    {
      hide Ok, Shape, Full, Addr, Grew, BlockSpliced, KeepsAddrs, IndirectLog, NoHoles, Partly, WriteDone;
      hide Filled, Need, Spare, Saved, Stray, Tracked;
      OkShape();
      now, next, extra := used, tot, 0;
      var cur := off + tot;
      var m := Min(n - tot, BSIZE - cur % BSIZE);
      var whole := tot + m <= |src|;
      var p := if whole then m else Min(stray, |src| - tot);
      ghost var h, logs := G(), logged;
      var ok, more := WriteBlock(inum, cur / BSIZE, cur % BSIZE, src[tot..tot + p], whole);
      OkShape();
      TrackedNext(g, h, G(), inum, cur, if ok && !whole then p else 0, before, logs, logged, used, more);
      if !ok {
        PartlyStops(g, h, G(), inum, src, off, n, stray, tot, size, cnt, |used|);
        return true, tot, 0, used;
      }
      UnionSize(used, more);
      now := used + more;
      if !whole {
        PartlyStray(g, h, G(), inum, src, off, n, stray, tot, size, cnt, |used|, m, p, |more|, |now|);
        return true, tot, p, now;
      }
      PartlyNext(g, h, G(), inum, src, off, n, tot, size, cnt, |used|, m, |more|, |now|);
      stop, next := false, tot + m;
    }

    /** The loop of writei.  src is what can be read of the source; when the copy of a block fails, `stray` bytes of it
        are already in the buffer. */
    method WriteBlocks(inum: int, src: seq<Byte>, off: int, n: int, stray: int)
      returns (tot: int, ghost extra: int, ghost used: set<int>)
      requires Ok() && 0 <= inum < |inodes| && 0 <= off && 0 <= n && off + n <= MAXFILE * BSIZE && 0 <= stray
      modifies this`blocks, this`inodes, this`owner, this`logged
      ensures Ok() && |inodes| == old(|inodes|) && 0 <= tot <= n && inodes[inum].size == old(inodes[inum].size)
      ensures WriteDone(old(G()), G(), inum, src, off, n, stray, tot, extra)
      ensures old(NoHoles(G(), inum, Max(inodes[inum].size, off))) ==>
                NoHoles(G(), inum, Max(inodes[inum].size, off + tot)) && (n <= 3 * BSIZE ==> |used| <= 7)
      ensures logged <= old(logged) + IndirectLog(G(), inum) + used
      ensures old(logged) <= logged && Saved(old(G()), G(), old(logged), logged + Stray(G(), inum, off + tot, extra))
    {
      hide Ok, Shape, IndirectLog, NoHoles, Partly, WriteDone, Saved, Stray, Tracked;
      OkShape();
      ghost var g, size := G(), inodes[inum].size;
      ghost var cnt := 0;
      used, extra := {}, 0;
      tot := 0;
      PartlyStarts(g, inum, src, off, n, size);
      TrackedStarts(g, inum, logged);
      while tot < n
        invariant 0 <= tot <= n && tot <= |src| && Ok() && |inodes| == |g.inodes| && inodes[inum].size == size
        invariant Shape(G()) && Partly(g, G(), inum, src, off, n, tot, size, cnt, |used|)
        invariant Tracked(g, G(), inum, old(logged), logged, used) && extra == 0
      {
        var stop;
        stop, tot, extra, used := WriteTurn(inum, src, off, n, stray, tot, g, size, cnt, used, old(logged));
        if stop {
          return;
        }
        OkShape();
        cnt := cnt + 1;
      }
      PartlyDone(g, G(), inum, src, off, n, stray, size, cnt, |used|);
      TrackedEnds(g, G(), inum, off + tot, old(logged), logged, used);
    }

    /** writei.  src is what can be read of the source, all of it in the kernel's own memory.  `extra` bytes past the
        ones it reports reached the cached block, which was not logged for them. */
    method Writei(inum: int, src: seq<Byte>, off: int, n: int, stray: int) returns (r: int, ghost extra: int)
      requires Ok() && 0 <= inum < |inodes| && 0 <= off < UINT && 0 <= n < UINT && 0 <= stray
      modifies this`blocks, this`inodes, this`dinodes, this`owner, this`logged
      ensures Ok() && |inodes| == old(|inodes|)
      ensures r == -1 <==> off > old(inodes[inum].size) || off + n >= UINT || off + n > MAXFILE * BSIZE
      ensures r == -1 ==> G() == old(G()) && dinodes == old(dinodes) && logged == old(logged) && extra == 0
      ensures r != -1 ==> 0 <= r <= n && WriteDone(old(G()), G(), inum, src, off, n, stray, r, extra)
      ensures r != -1 ==> inodes[inum].size == Max(old(inodes[inum].size), off + r)
      ensures r != -1 ==> dinodes == old(dinodes)[inum := inodes[inum]] && IBlock(sb, inum) in logged
      ensures old(logged) <= logged && Saved(old(G()), G(), old(logged), logged + Stray(G(), inum, off + r, extra))
      ensures old(Dense(inum)) ==> Dense(inum)
      ensures old(logged == {} && Dense(inum)) && n <= 3 * BSIZE ==> |logged| <= MAXOPBLOCKS
    {
      hide Ok, Shape, Full, Addr, Grew, WriteDone, NoHoles, IndirectLog, SameFiles, SameAddrs, Saved, Stray;
      extra := 0;
      OkShape();
      SavedSame(G(), G(), logged, logged);
      NoStray(G(), inum, off - 1, logged);
      if off > inodes[inum].size || (off + n) % UINT < off {
        return -1, 0;
      }
      if off + n > MAXFILE * BSIZE {
        return -1, 0;
      }
      ghost var used;
      r, extra, used := WriteBlocks(inum, src, off, n, stray);
      OkShape();
      OkValid();
      ghost var h, logs := G(), logged;
      SetSize(inum, Max(inodes[inum].size, off + r));
      OkValid();
      WriteSized(old(G()), h, G(), owner, inum, src, off, n, stray, r, extra);
      SavedSized(old(G()), h, G(), inum, off + r, extra, old(logged), logs, logged);
      if old(Dense(inum)) {
        NoHolesKept(h, G(), inum, inodes[inum].size);
        if old(logged) == {} && n <= 3 * BSIZE {
          ThreeParts(logged, IndirectLog(G(), inum), used, {IBlock(sb, inum)});
        }
      }
    }

    /** The end of writei: the size, if it grew, and iupdate. */
    method SetSize(inum: int, size: int)
      requires Ok() && 0 <= inum < |inodes| && size <= MAXFILE * BSIZE
      modifies this`inodes, this`dinodes, this`logged
      ensures Ok() && inodes == old(inodes)[inum := old(inodes[inum]).(size := size)]
      ensures dinodes == old(dinodes)[inum := inodes[inum]] && logged == old(logged) + {IBlock(sb, inum)}
      ensures SameFiles(old(G()), G()) && KeepsAddrs(old(G()), G(), inum) && SameAddrs(old(G()), G())
      ensures IndirectLog(G(), inum) == IndirectLog(old(G()), inum)
      ensures old(Full(G())) ==> Full(G())
    {
      hide Owned, BitsAre, Shape, Full, Addr, SameFiles, KeepsAddrs, IndirectLog;
      ghost var h := G();
      if size != inodes[inum].size {
        inodes := inodes[inum := inodes[inum].(size := size)];
      }
      SizeOnly(h, G(), owner, inum);
      Iupdate(inum);
    }

    /** readi; `room` is how many bytes of the destination can be stored to, all of them in the kernel's own memory.
        dst are the bytes of the blocks copied in full. */
    method Readi(inum: int, off: int, n: int, room: int) returns (r: int, dst: seq<Byte>)
      requires Ok() && 0 <= inum < |inodes| && 0 <= off < UINT && 0 <= n < UINT && 0 <= room
      modifies this`blocks, this`inodes, this`owner, this`logged
      ensures Ok() && Grew(old(G()), G(), inum)
      ensures off > old(inodes[inum].size) || off + n >= UINT ==>
                r == 0 && dst == [] && G() == old(G()) && logged == old(logged)
      ensures off <= old(inodes[inum].size) && off + n < UINT ==>
                var want := Min(n, old(inodes[inum].size) - off);
                && ReadDone(old(G()), G(), inum, off, want, room, r)
                && Logs(old(G()), G(), inum, off / BSIZE, UpTo(off, Min(want, room + 1)), old(logged), logged)
      ensures ReadBytes(old(G()), inum, off, |dst|, dst) && (r == -1 || r == |dst|)
      ensures old(Dense(inum)) ==> G() == old(G()) && logged == old(logged)
    {
      hide Owned, BitsAre, Full, Addr, Grew, NoHoles, ReadBytes, ReadDone, Filled, Logs, UpTo, Need, Spare, Shape;
      hide AtTurn, Reading;
      r, dst := 0, [];
      ghost var g := G();
      ReadStarts(g, inum, off);
      if off > inodes[inum].size || (off + n) % UINT < off {
        GrewRefl(g, inum);
        return;
      }
      var want := n;
      if off + n > inodes[inum].size {
        want := inodes[inum].size - off;
      }
      var tot := 0;
      ReadingStarts(g, inum, off, want, logged);
      while tot < want
        invariant Ok() && |inodes| == |g.inodes| && tot == |dst| && ReadBytes(g, inum, off, tot, dst)
        invariant 0 <= tot <= want && Reading(g, G(), inum, off, want, tot, old(logged), logged)
        invariant tot > 0 ==> tot <= room
        decreases want - tot
      {
        var cur := off + tot;
        ghost var h, logs := G(), logged;
        var addr := Bmap(inum, cur / BSIZE);
        var m := Min(want - tot, BSIZE - cur % BSIZE);
        ReadingNext(g, h, G(), inum, off, want, room, tot, m, old(logged), logs, logged, addr);
        if addr == 0 {
          r := tot;
          DenseQuiet(g, G(), inum, off, want, room, old(logged), logged);
          return;
        }
        ReadBlock(g, G(), owner, inum, cur / BSIZE, addr);
        if tot + m > room {
          r := -1;
          DenseQuiet(g, G(), inum, off, want, room, old(logged), logged);
          return;
        }
        ReadStep(g, inum, off, tot, dst, blocks[addr], m);
        dst := dst + blocks[addr][cur % BSIZE..cur % BSIZE + m];
        tot := tot + m;
      }
      r := tot;
      ReadingEnds(g, G(), inum, off, want, room, old(logged), logged);
      DenseQuiet(g, G(), inum, off, want, room, old(logged), logged);
    }

    /** The first loop of itrunc.  False would be bfree's panic. */
    method FreeDirect(inum: int) returns (ok: bool)
      requires Ok() && 0 <= inum < |inodes|
      modifies this`blocks, this`inodes, this`owner, this`logged
      ensures ok && Ok() && OthersKept(old(G()), G(), inum)
      ensures owner == Without(old(owner), inum, 0, NDIRECT)
      ensures Emptied(old(inodes[inum]), inodes[inum], NDIRECT)
      ensures logged <= old(logged) + BitmapBlocks(sb) && Saved(old(G()), G(), old(logged), logged)
    {
      hide Owned, BitsAre, Shape, Addr, OthersKept, Bit, BitmapBlocks, Without, Emptied, Saved;
      SavedSame(G(), G(), logged, logged);
      FreeStarts(G(), owner, inum);
      ok := true;
      for i := 0 to NDIRECT
        invariant ok && Ok() && |inodes| == old(|inodes|) && OthersKept(old(G()), G(), inum)
        invariant owner == Without(old(owner), inum, 0, i)
        invariant Emptied(old(inodes[inum]), inodes[inum], i)
        invariant logged <= old(logged) + BitmapBlocks(sb) && Saved(old(G()), G(), old(logged), logged)
      {
        ghost var g, logs := G(), logged;
        OwnAddr(g, inum, i);
        var a := inodes[inum].addrs[i];
        FreeSlot(g, owner, inum, i);
        WithoutWithout(old(owner), inum, 0, i, i + 1);
        EmptiedStep(old(inodes[inum]), inodes[inum], i);
        owner := Without(owner, inum, i, i + 1);
        if a != 0 {
          ok := Bfree(a);
          ghost var f := G();
          inodes := inodes[inum := inodes[inum].(addrs := inodes[inum].addrs[i := 0])];
          SavedFrom(old(G()), g, f, G(), old(logged), logs, logged);
          OthersTrans(old(G()), g, G(), inum);
        }
      }
    }

    /** The second loop of itrunc: the blocks named by the indirect block. */
    method FreeEntries(inum: int) returns (ok: bool)
      requires Ok() && 0 <= inum < |inodes| && Addr(G(), inum, NDIRECT) != 0
      modifies this`blocks, this`logged
      ensures ok && Shape(G()) && Owned(G(), owner) && OthersKept(old(G()), G(), inum) && Addr(G(), inum, NDIRECT) != 0
      ensures BitsAre(G(), Without(owner, inum, NDIRECT + 1, NSLOTS).Keys)
      ensures logged <= old(logged) + BitmapBlocks(sb) && Saved(old(G()), G(), old(logged), logged)
    {
      hide Owned, BitsAre, Shape, Addr, OthersKept, Bit, BitmapBlocks, Without, SameAddrs, Saved;
      SavedSame(G(), G(), logged, logged);
      FreeStarts(G(), owner, inum);
      ok := true;
      for j := 0 to NINDIRECT
        invariant ok && Shape(G()) && Owned(G(), owner) && OthersKept(old(G()), G(), inum)
          && Addr(G(), inum, NDIRECT) != 0
        invariant BitsAre(G(), Without(owner, inum, NDIRECT + 1, NDIRECT + 1 + j).Keys)
        invariant logged <= old(logged) + BitmapBlocks(sb) && Saved(old(G()), G(), old(logged), logged)
      {
        ghost var g, logs := G(), logged;
        IndirectAddr(g, inum);
        EntryAddr(g, inum, j);
        var a := Word(blocks[inodes[inum].addrs[NDIRECT]], j);
        FreeOne(g, owner, inum, NDIRECT + 1, NDIRECT + 1 + j, NDIRECT + 1 + j);
        if a != 0 {
          ok := Bfree(a);
          SavedTrans(old(G()), g, G(), old(logged), logs, logged);
          OthersTrans(old(G()), g, G(), inum);
        }
      }
    }

    /** itrunc: gives up every block of the inode.  The panic of bfree is out of reach. */
    method Itrunc(inum: int) returns (ok: bool)
      requires Ok() && 0 <= inum < |inodes|
      modifies this`blocks, this`inodes, this`dinodes, this`owner, this`logged
      ensures ok && Ok() && OthersKept(old(G()), G(), inum)
      ensures owner == Without(old(owner), inum, 0, NSLOTS)
      ensures Emptied(old(inodes[inum]), inodes[inum], NDIRECT + 1) && inodes[inum].size == 0
      ensures dinodes == old(dinodes)[inum := inodes[inum]]
      ensures logged <= old(logged) + BitmapBlocks(sb) + {IBlock(sb, inum)}
      ensures IBlock(sb, inum) in logged && Saved(old(G()), G(), old(logged), logged)
    {
      hide Owned, BitsAre, Shape, Addr, OthersKept, Bit, BitmapBlocks, Without, Emptied, Saved;
      ok := FreeDirect(inum);
      ghost var g, logs := G(), logged;
      SavedSame(g, g, logs, logs);
      IndirectAddr(g, inum);
      EmptiedStep(old(inodes[inum]), inodes[inum], NDIRECT);
      WithoutWithout(old(owner), inum, 0, NDIRECT, NSLOTS);
      var ind := inodes[inum].addrs[NDIRECT];
      if ind != 0 {
        ok := FreeEntries(inum);
        ghost var h, logs1 := G(), logged;
        FreeIndirect(h, owner, inum);
        OwnAddr(h, inum, NDIRECT);
        ok := Bfree(ind);
        ghost var f := G();
        inodes := inodes[inum := inodes[inum].(addrs := inodes[inum].addrs[NDIRECT := 0])];
        SavedFrom(g, h, f, G(), logs, logs1, logged);
        OthersTrans(g, h, G(), inum);
        OthersTrans(old(G()), g, G(), inum);
      } else {
        NoIndirect(g, owner, inum);
      }
      owner := Without(owner, inum, NDIRECT, NSLOTS);
      ghost var m, logs2 := G(), logged;
      inodes := inodes[inum := inodes[inum].(size := 0)];
      SizeOnly(m, G(), owner, inum);
      SizeOthers(old(G()), m, G(), inum);
      Iupdate(inum);
      SavedTrans(old(G()), g, m, old(logged), logs, logs2);
      SavedSame(m, G(), logs2, logged);
      SavedTrans(old(G()), m, G(), old(logged), logs2, logged);
    }
  }

  datatype FileRead = Panicked | Read(r: int)

  /** An open file on an inode. */
  class File {
    const fs: FileSystem
    const inum: int
    const readable: bool
    const writable: bool
    var off: int

    constructor (fs: FileSystem, inum: int, readable: bool, writable: bool)
      ensures this.fs == fs && this.inum == inum && this.readable == readable && this.writable == writable && off == 0
    {
      this.fs, this.inum, this.readable, this.writable, off := fs, inum, readable, writable, 0;
    }

    /** fileread on an inode while no operation is open.  It opens none, so that log_write panics. */
    method FileRead(n: int, room: int) returns (out: FileRead, dst: seq<Byte>)
      requires fs.Ok() && 0 <= inum < |fs.inodes| && 0 <= off < UINT && -0x8000_0000 <= n < 0x8000_0000 && 0 <= room
        && fs.logged == {}
      modifies this`off, fs`blocks, fs`inodes, fs`owner, fs`logged
      ensures fs.Ok() && Grew(old(fs.G()), fs.G(), inum)
      ensures out == Panicked <==>
                && readable && old(InFile(off, n % UINT, fs.inodes[inum].size))
                && old(ReadNeed(fs.G(), inum, off, n % UINT, room)) > 0 && Spare(old(fs.G())) > 0
      ensures out.Read? ==> fs.G() == old(fs.G()) && fs.logged == {} && off == old(off) + Max(out.r, 0)
      ensures out.Read? && readable && old(InFile(off, n % UINT, fs.inodes[inum].size)) ==>
                var want := Min(n % UINT, old(fs.inodes[inum].size - off));
                if old(ReadNeed(fs.G(), inum, off, n % UINT, room)) > 0 then 0 <= out.r < want
                else out.r == (if room < want then -1 else want)
      ensures out.Read? && !(readable && old(InFile(off, n % UINT, fs.inodes[inum].size))) ==>
                out.r == (if readable then 0 else -1)
      ensures out.Read? && out.r != -1 ==> out.r == |dst| && ReadBytes(old(fs.G()), inum, old(off), |dst|, dst)
    {
      hide FileSystem.Ok, FileSystem.Dense, FileSystem.G, Grew, Full, Spare, Shape, ReadBytes, Filled;
      fs.OkShape();
      ghost var g := fs.G();
      GrewRefl(g, inum);
      dst := [];
      if !readable {
        return Read(-1), [];
      }
      var r;
      r, dst := fs.Readi(inum, off, n % UINT, room);
      fs.OkShape();
      if fs.logged != {} {
        return Panicked, dst;
      }
      if r > 0 {
        off := off + r;
      }
      out := Read(r);
    }

    /** One turn of filewrite's loop, a transaction of its own, i bytes after the start at `at`. */
    method WriteChunk(src: seq<Byte>, i: int, n1: int, stray: int, ghost g: Img, ghost at: int)
      returns (r: int, ghost extra: int, ghost logs: int)
      requires fs.Ok() && 0 <= inum < |fs.inodes| && 0 <= off < UINT && 0 < n1 <= CHUNK && 0 <= stray
      requires 0 <= i <= |src| && 0 <= at && off == at + i && Shape(g) && |fs.inodes| == |g.inodes|
        && Writing(g, fs.G(), inum, src, at, i)
      modifies this`off, fs`blocks, fs`inodes, fs`dinodes, fs`owner, fs`logged
      ensures fs.Ok() && |fs.inodes| == old(|fs.inodes|) && -1 <= r <= n1 && off == old(off) + Max(r, 0) < UINT
      ensures r == n1 ==> i + r <= |src| && Writing(g, fs.G(), inum, src, at, i + r) && off <= MAXFILE * BSIZE
      ensures r != n1 ==> forall n :: i + n1 <= n ==> !WriteFits(g, inum, src, at, n)
      ensures r != n1 ==> Written(g, fs.G(), inum, src, at, off - at + extra) && 0 <= extra
      ensures r != n1 && extra > 0 ==> |src| < i + n1
      ensures old(fs.Dense(inum)) ==> fs.Dense(inum) && logs <= MAXOPBLOCKS
      ensures Saved(old(fs.G()), fs.G(), {}, fs.logged + Stray(fs.G(), inum, off, extra)) && (r == n1 ==> extra == 0)
      ensures r != -1 ==> fs.dinodes == old(fs.dinodes)[inum := fs.inodes[inum]] && IBlock(fs.sb, inum) in fs.logged
    {
      hide FileSystem.Ok, FileSystem.Dense, FileSystem.G, Written, Full, NoHoles, Shape, WriteDone, WriteFits, Writing;
      hide Saved, Stray;
      fs.OkShape();
      ghost var h := fs.G();
      fs.BeginOp();
      r, extra := fs.Writei(inum, src[i..], off, n1, stray);
      fs.OkShape();
      logs := |fs.logged|;
      if r > 0 {
        off := off + r;
      }
      NoStray(fs.G(), inum, off, fs.logged);
      NoStray(fs.G(), inum, off - 1, fs.logged);
      if r != n1 {
        ChunkStops(g, h, fs.G(), inum, src, at, i, n1, stray, r, extra);
      } else {
        ChunkNext(g, h, fs.G(), inum, src, at, i, n1, stray, extra);
      }
    }

    /** filewrite on an inode.  `worst` is the largest number of blocks one transaction logged; stages[k] is the image
        before transaction k. */
    method FileWrite(src: seq<Byte>, n: int, stray: int)
      returns (ret: int, ghost extra: int, ghost worst: int, ghost stages: seq<Img>)
      requires fs.Ok() && 0 <= inum < |fs.inodes| && 0 <= off < UINT && n < 0x8000_0000 && 0 <= stray
      modifies this`off, fs`blocks, fs`inodes, fs`dinodes, fs`owner, fs`logged
      ensures fs.Ok() && |fs.inodes| == old(|fs.inodes|) && old(off) <= off < UINT && off - old(off) <= Max(n, 0)
      ensures Written(old(fs.G()), fs.G(), inum, src, old(off), off - old(off) + extra)
      ensures ret == n || ret == -1
      ensures 0 <= n ==>
                (ret == n <==> writable && (n == 0 || WriteFits(old(fs.G()), inum, src, old(off), n)))
      ensures 0 <= n && ret == n ==> off == old(off) + n && extra == 0
      ensures 0 <= extra && (extra > 0 ==> |src| < n)
      ensures Stages(old(fs.G()), stages, inum, src, old(off))
      ensures old(fs.Dense(inum)) ==> fs.Dense(inum) && worst <= MAXOPBLOCKS
    {
      hide FileSystem.Ok, FileSystem.Dense, FileSystem.G, Written, Full, Shape, WriteFits, Writing, Stages;
      worst, extra, stages := 0, 0, [];
      fs.OkShape();
      ghost var g := fs.G();
      WritingStarts(g, inum, src, off);
      if !writable {
        ret := -1;
        return;
      }
      var max := (MAXOPBLOCKS - 1 - 1 - 2) / 2 * BSIZE;
      var i := 0;
      while i < n
        invariant 0 <= i <= Max(n, 0) && i <= |src| && fs.Ok() && |fs.inodes| == |g.inodes|
        invariant off == old(off) + i < UINT && Shape(fs.G()) && Writing(g, fs.G(), inum, src, old(off), i)
        invariant i < n ==> i == max * |stages|
        invariant Stages(g, stages, inum, src, old(off))
        invariant old(fs.Dense(inum)) ==> fs.Dense(inum) && worst <= MAXOPBLOCKS
      {
        var n1 := n - i;
        if n1 > max {
          n1 := max;
        }
        StagesNext(g, fs.G(), stages, inum, src, old(off));
        stages := stages + [fs.G()];
        var r, x, logs := WriteChunk(src, i, n1, stray, g, old(off));
        fs.OkShape();
        worst := Max(worst, logs);
        if r != n1 {
          return -1, x, worst, stages;
        }
        i := i + r;
      }
      ret := if i == n then n else -1;
      WritingEnds(g, fs.G(), inum, src, old(off), i);
    }
  }

  // ----- Writing in chunks

  const CHUNK := (MAXOPBLOCKS - 1 - 1 - 2) / 2 * BSIZE

  /** A read of n bytes at off starts inside the file, and n does not wrap. */
  predicate InFile(off: int, n: int, size: int) {
    0 <= off <= size && 0 <= n && off + n < UINT
  }

  /** What it takes to read n bytes at off, up to the end of the file or the first byte that cannot be stored. */
  ghost function ReadNeed(g: Img, i: int, off: int, n: int, room: int): int
    requires Shape(g) && 0 <= i < |g.inodes| && InFile(off, n, g.inodes[i].size) && g.inodes[i].size <= MAXFILE * BSIZE
  {
    Need(g, i, off / BSIZE, UpTo(off, Min(Min(n, g.inodes[i].size - off), room + 1)))
  }

  /** n bytes of src fit: no gap before them, the file not too long, all of them readable, and room on the disk. */
  ghost predicate WriteFits(g: Img, i: int, src: seq<Byte>, off: int, n: int)
    requires Shape(g) && 0 <= i < |g.inodes|
  {
    && 0 <= off <= g.inodes[i].size && 0 <= n <= |src| && off + n <= MAXFILE * BSIZE
    && Need(g, i, off / BSIZE, UpTo(off, n)) <= Spare(g)
  }

  /** `done` bytes are written. */
  ghost predicate Writing(g: Img, h: Img, i: int, src: seq<Byte>, off: int, done: int)
    requires Shape(g) && Shape(h)
  {
    && Written(g, h, i, src, off, done) && (done == 0 ==> h == g)
    && (done > 0 ==> h.inodes[i].size == Max(g.inodes[i].size, off + done))
    && (done > 0 ==> 0 <= off <= g.inodes[i].size && off + done <= MAXFILE * BSIZE)
    && (done > 0 ==> Filled(g, h, i, off / BSIZE, UpTo(off, done)))
  }

  /** stages[k] has k whole chunks, and nothing else changed. */
  ghost predicate Stages(g: Img, stages: seq<Img>, i: int, src: seq<Byte>, off: int)
    requires Shape(g)
  {
    forall k :: 0 <= k < |stages| ==> Shape(stages[k]) && Writing(g, stages[k], i, src, off, CHUNK * k)
  }

  lemma StagesNext(g: Img, h: Img, stages: seq<Img>, i: int, src: seq<Byte>, off: int)
    requires Shape(g) && Shape(h) && Stages(g, stages, i, src, off) && Writing(g, h, i, src, off, CHUNK * |stages|)
    ensures Stages(g, stages + [h], i, src, off)
  {
    hide Shape, Writing;
  }

  lemma WritingStarts(g: Img, i: int, src: seq<Byte>, off: int)
    requires Shape(g) && 0 <= i < |g.inodes|
    ensures Writing(g, g, i, src, off, 0) && Written(g, g, i, src, off, 0) && Stages(g, [], i, src, off)
  {
    hide Shape, Filled;
    WriteStarts(g, i, src, off, 0);
  }

  lemma WholeTurnsBound(off: int, k: int)
    requires 0 <= off && 0 <= k
    ensures 0 <= WholeTurns(off, k) <= k
  {
  }

  lemma ChunkNext(g: Img, h: Img, k: Img, i: int, src: seq<Byte>, off: int, done: int, n1: int, stray: int, x: int)
    requires Shape(g) && Shape(h) && Shape(k) && 0 <= i < |g.inodes| == |h.inodes| == |k.inodes|
    requires 0 <= off && 0 <= done <= |src| && 0 < n1 && off + done + n1 <= MAXFILE * BSIZE
    requires Writing(g, h, i, src, off, done) && off + done <= h.inodes[i].size
    requires WriteDone(h, k, i, src[done..], off + done, n1, stray, n1, x)
    requires k.inodes[i].size == Max(h.inodes[i].size, off + done + n1)
    ensures done + n1 <= |src| && Writing(g, k, i, src, off, done + n1) && x == 0
  {
    hide Shape, Written, Filled, Full, Need, Spare;
    WholeTurnsBound(off + done, |src[done..]|);
    WrittenTrans(g, h, k, i, src, off, done, n1);
    ChunkBlocks(off, done, n1);
    if done > 0 {
      FilledJoin(g, h, k, i, off / BSIZE, (off + done) / BSIZE, UpTo(off, done), UpTo(off, done + n1));
    }
  }

  lemma ChunkBlocks(off: int, done: int, n1: int)
    requires 0 <= off && 0 <= done && 0 < n1
    ensures UpTo(off + done, n1) == UpTo(off, done + n1)
    ensures done > 0 ==> off / BSIZE <= (off + done) / BSIZE <= UpTo(off, done) <= UpTo(off, done + n1)
    ensures (off + done) / BSIZE < UpTo(off, done + n1)
  {
  }

  /** A chunk that stops early leaves what it could write, and shows that no write that holds it fits. */
  lemma ChunkStops(g: Img, h: Img, k: Img, i: int, src: seq<Byte>, off: int, done: int, n1: int, stray: int, r: int,
                   x: int)
    requires Shape(g) && Shape(h) && Shape(k) && 0 <= i < |g.inodes| == |h.inodes| == |k.inodes|
    requires 0 <= off && 0 <= done <= |src| && 0 < n1 && Writing(g, h, i, src, off, done) && 0 <= stray
    requires -1 <= r < n1
    requires r == -1 ==> k == h && x == 0 && (off + done > h.inodes[i].size || off + done + n1 > MAXFILE * BSIZE)
    requires r != -1 ==>
               off + done + n1 <= MAXFILE * BSIZE && WriteDone(h, k, i, src[done..], off + done, n1, stray, r, x)
    ensures forall n :: done + n1 <= n ==> !WriteFits(g, i, src, off, n)
    ensures 0 <= x && (x > 0 ==> |src| < done + n1) && Written(g, k, i, src, off, done + Max(r, 0) + x)
  {
    hide Shape, Written, Filled, Full, Need, Spare;
    if r != -1 {
      WrittenBounds(h, k, i, src[done..], off + done, r + x);
      WrittenTrans(g, h, k, i, src, off, done, r + x);
    }
    forall n | done + n1 <= n ensures !WriteFits(g, i, src, off, n) {
      if WriteFits(g, i, src, off, n) {
        ChunkNoRoom(g, h, i, src, off, n, done, n1);
      }
    }
  }

  lemma ChunkNoRoom(g: Img, h: Img, i: int, src: seq<Byte>, off: int, n: int, done: int, n1: int)
    requires Shape(g) && Shape(h) && 0 <= i < |g.inodes| == |h.inodes| && 0 <= done && 0 < n1 && done + n1 <= n
    requires Writing(g, h, i, src, off, done) && WriteFits(g, i, src, off, n)
    ensures UpTo(off + done, n1) <= MAXFILE && Need(h, i, (off + done) / BSIZE, UpTo(off + done, n1)) <= Spare(h)
    ensures off + done <= h.inodes[i].size
  {
    hide Shape, Written, Filled, Full, Need, Spare;
    ChunkBlocks(off, done, n1);
    UpToGrows(off, done + n1, n);
    if Need(h, i, (off + done) / BSIZE, UpTo(off + done, n1)) > Spare(h) {
      if done > 0 {
        NeedFails(g, h, i, off / BSIZE, (off + done) / BSIZE, UpTo(off, done), UpTo(off, done + n1), UpTo(off, n));
      } else {
        NeedMonotone(g, i, off / BSIZE, UpTo(off, n1), UpTo(off, n));
      }
    }
  }

  lemma WrittenBounds(g: Img, h: Img, i: int, src: seq<Byte>, off: int, k: int)
    requires Shape(g) && Shape(h) && Written(g, h, i, src, off, k)
    ensures 0 <= k <= |src|
  {
  }

  lemma WritingEnds(g: Img, h: Img, i: int, src: seq<Byte>, off: int, done: int)
    requires Shape(g) && Shape(h) && 0 <= i < |g.inodes| && Writing(g, h, i, src, off, done) && 0 <= done
    ensures Written(g, h, i, src, off, done) && (done > 0 ==> WriteFits(g, i, src, off, done))
  {
    hide Shape, Filled, Need, Spare;
    WrittenBounds(g, h, i, src, off, done);
    if done > 0 {
      FilledBounds(g, h, i, off / BSIZE, UpTo(off, done));
    }
  }

  // ----- Freeing

  ghost function BitmapBlocks(sb: Super): (s: set<int>) {
    set b | 0 <= b < sb.size :: BBlock(sb, b)
  }

  /** The first k addresses of the inode are zeroed; the rest of it is as it was. */
  ghost predicate Emptied(was: Inode, ip: Inode, k: int) {
    && |ip.addrs| == |was.addrs| == NDIRECT + 1 && ip.typ == was.typ && 0 <= k <= NDIRECT + 1
    && (forall l :: 0 <= l < k ==> ip.addrs[l] == 0)
    && (forall l :: k <= l <= NDIRECT ==> ip.addrs[l] == was.addrs[l])
  }

  lemma EmptiedStep(was: Inode, ip: Inode, k: int)
    requires Emptied(was, ip, k) && k <= NDIRECT
    ensures |ip.addrs| == NDIRECT + 1 && Emptied(was, ip.(addrs := ip.addrs[k := 0]), k + 1)
    ensures ip.addrs[k] == 0 ==> Emptied(was, ip, k + 1)
    ensures Emptied(was, ip.(addrs := ip.addrs[k := 0], size := 0), k + 1)
    ensures ip.addrs[k] == 0 ==> Emptied(was, ip.(size := 0), k + 1)
  {
  }

  lemma FreeStarts(g: Img, owner: map<int, Slot>, i: int)
    requires Shape(g) && 0 <= i < |g.inodes|
    ensures OthersKept(g, g, i) && Emptied(g.inodes[i], g.inodes[i], 0)
    ensures Without(owner, i, 0, 0) == owner && Without(owner, i, NDIRECT + 1, NDIRECT + 1) == owner
  {
    assert InodeShape(g, g.inodes[i]);
  }

  /** The block named by slot k, next to the range already given up, can be unmarked. */
  lemma FreeOne(g: Img, owner: map<int, Slot>, i: int, lo: int, hi: int, k: int)
    requires Shape(g) && Owned(g, owner) && 0 <= i < |g.inodes| && 0 <= k < NSLOTS && lo <= hi
      && (k == hi || k == lo - 1)
    requires BitsAre(g, Without(owner, i, lo, hi).Keys)
    ensures var a := Addr(g, i, k);
      var left := Without(owner, i, if k == hi then lo else k, if k == hi then k + 1 else hi).Keys;
      if a == 0 then BitsAre(g, left)
      else
        && 0 <= a < g.sb.size && Bit(g, a) && BBlock(g.sb, a) in BitmapBlocks(g.sb)
        && var h := WithBit(g, a, false);
           && Shape(h) && Owned(h, owner) && BitsAre(h, left) && OthersKept(g, h, i) && h.inodes == g.inodes
           && (Addr(g, i, NDIRECT) != 0 ==> Addr(h, i, NDIRECT) != 0)
  {
    hide Addr, InodeShape, Without, Owned, BitsAre, OthersKept;
    var a := Addr(g, i, k);
    NextWithout(g, owner, i, lo, hi, k);
    Unmark(g, owner, Without(owner, i, lo, hi).Keys, i, k);
  }

  /** A direct block is unmarked and its address zeroed. */
  lemma FreeSlot(g: Img, owner: map<int, Slot>, i: int, k: int)
    requires Valid(g, owner) && 0 <= i < |g.inodes| && 0 <= k < NDIRECT
    ensures var a, left := Addr(g, i, k), Without(owner, i, k, k + 1);
      if a == 0 then left == owner
      else
        && 0 <= a < g.sb.size && Bit(g, a) && BBlock(g.sb, a) in BitmapBlocks(g.sb)
        && |g.inodes[i].addrs| == NDIRECT + 1
        && var h := WithSlot(WithBit(g, a, false), i, k, 0); Valid(h, left) && OthersKept(g, h, i)
  {
    var a := Addr(g, i, k);
    OwnAddr(g, i, k);
    if a != 0 {
      hide Addr, InodeShape, Without, Owned, BitsAre, OthersKept;
      assert Without(owner, i, k, k) == owner;
      FreeOne(g, owner, i, k, k, k);
      DropSlot(WithBit(g, a, false), owner, i, k, k + 1);
      OthersTrans(g, WithBit(g, a, false), WithSlot(WithBit(g, a, false), i, k, 0), i);
    } else {
      NoneOwned(g, owner, i, k, k + 1);
    }
  }

  lemma NoneOwned(g: Img, owner: map<int, Slot>, i: int, lo: int, hi: int)
    requires Shape(g) && Owned(g, owner) && 0 <= i < |g.inodes| && 0 <= lo <= hi <= NSLOTS
    requires forall k :: lo <= k < hi ==> Addr(g, i, k) == 0
    ensures Without(owner, i, lo, hi) == owner
  {
    hide Addr;
    assert forall a :: a in owner ==> a != 0;
  }

  lemma NoIndirect(g: Img, owner: map<int, Slot>, i: int)
    requires Valid(g, owner) && 0 <= i < |g.inodes| && Addr(g, i, NDIRECT) == 0
    ensures Without(owner, i, NDIRECT, NSLOTS) == owner
  {
    NoneOwned(g, owner, i, NDIRECT, NSLOTS);
  }

  /** The indirect block itself, after the blocks it names. */
  lemma FreeIndirect(g: Img, owner: map<int, Slot>, i: int)
    requires Shape(g) && Owned(g, owner) && 0 <= i < |g.inodes| && Addr(g, i, NDIRECT) != 0
    requires BitsAre(g, Without(owner, i, NDIRECT + 1, NSLOTS).Keys)
    ensures var a, left := Addr(g, i, NDIRECT), Without(owner, i, NDIRECT, NSLOTS);
      && 0 <= a < g.sb.size && Bit(g, a) && BBlock(g.sb, a) in BitmapBlocks(g.sb) && |g.inodes[i].addrs| == NDIRECT + 1
      && var h := WithSlot(WithBit(g, a, false), i, NDIRECT, 0); Valid(h, left) && OthersKept(g, h, i)
  {
    var a := Addr(g, i, NDIRECT);
    OwnAddr(g, i, NDIRECT);
    hide Addr, InodeShape, Without, Owned, BitsAre, OthersKept;
    FreeOne(g, owner, i, NDIRECT + 1, NSLOTS, NDIRECT);
    DropSlot(WithBit(g, a, false), owner, i, NDIRECT, NSLOTS);
    OthersTrans(g, WithBit(g, a, false), WithSlot(WithBit(g, a, false), i, NDIRECT, 0), i);
  }

  lemma SizeOthers(g: Img, m: Img, h: Img, i: int)
    requires Shape(g) && Shape(m) && Shape(h) && OthersKept(g, m, i) && SameFiles(m, h) && h.sb == m.sb
    requires forall j :: 0 <= j < |m.inodes| && j != i ==> h.inodes[j] == m.inodes[j]
    ensures OthersKept(g, h, i)
  {
    hide Shape, FileBlock;
  }

  // ----- Reading

  /** dst is bytes off..off+tot of the file. */
  ghost predicate ReadBytes(g: Img, i: int, off: int, tot: int, dst: seq<Byte>)
    requires Shape(g)
  {
    && 0 <= i < |g.inodes| && |dst| == tot && 0 <= off && (tot > 0 ==> off + tot <= MAXFILE * BSIZE)
    && (forall p :: 0 <= p < tot ==> dst[p] == FileByte(g, i, off + p))
  }

  lemma ReadStarts(g: Img, i: int, off: int)
    requires Shape(g) && 0 <= i < |g.inodes| && 0 <= off
    ensures ReadBytes(g, i, off, 0, [])
  {
  }

  lemma ReadBlock(g: Img, h: Img, owner: map<int, Slot>, i: int, bn: int, a: int)
    requires Shape(g) && Valid(h, owner) && Grew(g, h, i) && 0 <= bn < MAXFILE && a != 0 && a == Addr(h, i, SlotOf(bn))
    ensures 0 <= a < |h.blocks| && |h.blocks[a]| == BSIZE && FileBlock(g, i, bn) == h.blocks[a]
  {
    hide BBlock, Bit, InodeShape, Addr;
    assert a in owner;
    assert FileBlock(g, i, bn) == FileBlock(h, i, bn);
  }

  lemma ReadStep(g: Img, i: int, off: int, tot: int, dst: seq<Byte>, b: Block, m: int)
    requires Shape(g) && ReadBytes(g, i, off, tot, dst)
    requires 0 <= off && 0 <= tot && off + tot + m <= MAXFILE * BSIZE && 0 < m && (off + tot) % BSIZE + m <= BSIZE
    requires b == FileBlock(g, i, (off + tot) / BSIZE)
    ensures var o := (off + tot) % BSIZE; ReadBytes(g, i, off, tot + m, dst + b[o..o + m])
  {
    hide Shape, FileBlock;
    var o := (off + tot) % BSIZE;
    var d := dst + b[o..o + m];
    forall p | 0 <= p < tot + m ensures d[p] == FileByte(g, i, off + p) {
      if p >= tot {
        SameBlock(off + tot, p - tot, m);
      }
    }
  }

  /** What readi returns.  It reaches the blocks of the bytes it wants, up to the first one it cannot store. */
  ghost predicate ReadDone(g: Img, h: Img, i: int, off: int, want: int, room: int, r: int)
    requires Shape(g) && Shape(h) && 0 <= i < |g.inodes| && 0 <= off && off + Max(want, 0) <= MAXFILE * BSIZE
  {
    var lo, hi := off / BSIZE, UpTo(off, Min(want, room + 1));
    if Need(g, i, lo, hi) <= Spare(g) then r == (if room < want then -1 else want) && Filled(g, h, i, lo, hi)
    else 0 <= r < want && Full(h)
  }

  /** readi has copied tot bytes. */
  ghost predicate Reading(g: Img, h: Img, i: int, off: int, want: int, tot: int, before: set<int>, after: set<int>)
    requires Shape(g) && Shape(h)
  {
    && 0 <= i < |g.inodes| && 0 <= off && off + want <= MAXFILE * BSIZE && AtTurn(off, want, tot) && Grew(g, h, i)
    && UpTo(off, tot) <= MAXFILE && Filled(g, h, i, off / BSIZE, UpTo(off, tot))
    && Logs(g, h, i, off / BSIZE, UpTo(off, tot), before, after)
  }

  lemma ReadingStarts(g: Img, i: int, off: int, want: int, logs: set<int>)
    requires Shape(g) && 0 <= i < |g.inodes| && 0 <= off && 0 <= want && off + want <= MAXFILE * BSIZE
    ensures Reading(g, g, i, off, want, 0, logs, logs)
  {
    hide Shape, Spare, Grew;
    GrewRefl(g, i);
    FilledNothing(g, i, off / BSIZE);
  }

  lemma ReadingNext(g: Img, h: Img, k: Img, i: int, off: int, want: int, room: int, tot: int, m: int,
                    s0: set<int>, s1: set<int>, s2: set<int>, a: int)
    requires Shape(g) && Shape(h) && Shape(k) && Reading(g, h, i, off, want, tot, s0, s1) && tot < want
    requires 0 <= room && (tot > 0 ==> tot <= room) && m == Min(want - tot, BSIZE - (off + tot) % BSIZE)
    requires Grew(h, k, i) && 0 <= (off + tot) / BSIZE < MAXFILE
    requires var bn := (off + tot) / BSIZE;
      && 0 <= i < |h.inodes|
      && Logs(h, k, i, bn, bn + 1, s1, s2)
      && if a != 0 then Filled(h, k, i, bn, bn + 1) else Full(k) && Need(h, i, bn, bn + 1) > Spare(h)
    ensures 0 < m && (off + tot) % BSIZE + m <= BSIZE && Grew(g, k, i) && |k.inodes| == |g.inodes|
    ensures off + want <= MAXFILE * BSIZE && 0 <= off && 0 <= i < |g.inodes|
    ensures a != 0 ==> Reading(g, k, i, off, want, tot + m, s0, s2)
    ensures UpTo(off, Min(want, room + 1)) <= MAXFILE
    ensures a == 0 ==> ReadDone(g, k, i, off, want, room, tot)
    ensures a != 0 && tot + m > room ==> ReadDone(g, k, i, off, want, room, -1)
    ensures a == 0 || tot + m > room ==> Logs(g, k, i, off / BSIZE, UpTo(off, Min(want, room + 1)), s0, s2)
  {
    hide Shape, Need, Spare, Grew, Filled, Logs, Full, UpTo;
    var lo, bn, end := off / BSIZE, UpTo(off, tot), UpTo(off, Min(want, room + 1));
    NextTurn(off, want, tot, m);
    UpToGrows(off, tot + 1, Min(want, room + 1));
    UpToGrows(off, tot, want);
    UpToGrows(off, Min(want, room + 1), want);
    GrewTrans(g, h, k, i);
    GrewIndirect(g, k, i);
    if a != 0 {
      FilledJoin(g, h, k, i, lo, bn, bn, bn + 1);
      FilledBounds(g, k, i, lo, bn + 1);
      LogsJoin(g, h, k, i, lo, bn, bn + 1, bn + 1, s0, s1, s2);
    } else {
      NeedFails(g, h, i, lo, bn, bn, bn + 1, end);
      LogsJoin(g, h, k, i, lo, bn, bn + 1, end, s0, s1, s2);
    }
  }

  lemma ReadingEnds(g: Img, h: Img, i: int, off: int, want: int, room: int, before: set<int>, after: set<int>)
    requires Shape(g) && Shape(h) && Reading(g, h, i, off, want, want, before, after) && 0 <= want
      && (want > 0 ==> want <= room) && 0 <= room
    ensures Grew(g, h, i) && 0 <= i < |g.inodes| && 0 <= off && off + want <= MAXFILE * BSIZE
    ensures UpTo(off, Min(want, room + 1)) <= MAXFILE
    ensures ReadDone(g, h, i, off, want, room, want)
      && Logs(g, h, i, off / BSIZE, UpTo(off, Min(want, room + 1)), before, after)
  {
    hide Shape, Need, Spare, Grew, Filled, Logs, Full, UpTo;
    FilledBounds(g, h, i, off / BSIZE, UpTo(off, want));
  }

  /** Reading a file without holes changes nothing. */
  lemma DenseQuiet(g: Img, h: Img, i: int, off: int, want: int, room: int, before: set<int>, after: set<int>)
    requires Shape(g) && 0 <= i < |g.inodes| && 0 <= off && off + want <= MAXFILE * BSIZE && 0 <= room && 0 <= want
    requires off + want <= g.inodes[i].size && UpTo(off, Min(want, room + 1)) <= MAXFILE
      && Logs(g, h, i, off / BSIZE, UpTo(off, Min(want, room + 1)), before, after)
    ensures NoHoles(g, i, g.inodes[i].size) ==> h == g && after == before
  {
    hide Shape, Spare, Addr;
    var hi := UpTo(off, Min(want, room + 1));
    if NoHoles(g, i, g.inodes[i].size) {
      forall c | off / BSIZE <= c < hi ensures Addr(g, i, SlotOf(c)) != 0 {
        assert c * BSIZE < off + want;
      }
      NeedNone(g, i, off / BSIZE, hi);
    }
  }

  lemma SameBlock(c: int, q: int, m: int)
    requires 0 <= c && 0 <= q < m && c % BSIZE + m <= BSIZE
    ensures (c + q) / BSIZE == c / BSIZE && (c + q) % BSIZE == c % BSIZE + q
  {
  }

  // ----- Writing

  /** What can be read of a source ends at k: the bytes of the blocks it fills from off on. */
  function WholeTurns(off: int, k: int): int {
    Max(0, (off + k) / BSIZE * BSIZE - off)
  }

  /** What writei's loop leaves.  It reaches the blocks of the n bytes, up to the first byte it cannot read. */
  ghost predicate WriteDone(g: Img, h: Img, i: int, src: seq<Byte>, off: int, n: int, stray: int, tot: int, extra: int)
    requires Shape(g) && Shape(h) && 0 <= i < |g.inodes| && 0 <= off && 0 <= n && off + n <= MAXFILE * BSIZE
  {
    var lo, hi := off / BSIZE, UpTo(off, Min(n, |src| + 1));
    && Written(g, h, i, src, off, tot + extra) && 0 <= extra && AtTurn(off, n, tot)
    && if Need(g, i, lo, hi) > Spare(g) then 0 <= tot < n && extra == 0 && Full(h)
       else
         && Filled(g, h, i, lo, hi)
         && tot == (if |src| < n then WholeTurns(off, |src|) else n)
         && extra == (if |src| < n then Min(stray, |src| - tot) else 0)
  }

  /** After tot of n bytes, written to cnt blocks, of which `logs` were logged. */
  ghost predicate Partly(g: Img, h: Img, i: int, src: seq<Byte>, off: int, n: int, tot: int, size: int, cnt: int,
                         logs: int)
    requires Shape(g) && Shape(h) && 0 <= i < |g.inodes| == |h.inodes|
  {
    && Written(g, h, i, src, off, tot) && 0 <= off && off + n <= MAXFILE * BSIZE && AtTurn(off, n, tot)
    && Filled(g, h, i, off / BSIZE, UpTo(off, tot))
    && (NoHoles(g, i, Max(size, off)) ==> NoHoles(h, i, Max(size, off + tot)) && Count(off, n, tot, cnt, logs))
  }

  lemma PartlyStarts(g: Img, i: int, src: seq<Byte>, off: int, n: int, size: int)
    requires Shape(g) && 0 <= i < |g.inodes| && 0 <= off && 0 <= n && off + n <= MAXFILE * BSIZE
    ensures Partly(g, g, i, src, off, n, 0, size, 0, 0)
  {
    hide Written, NoHoles, Shape, Filled;
    WriteStarts(g, i, src, off, n);
    FilledNothing(g, i, off / BSIZE);
  }

  /** One more block has been reached, and `more` blocks logged for it. */
  lemma PartlyBlock(g: Img, h: Img, k: Img, i: int, src: seq<Byte>, off: int, n: int, tot: int, size: int, cnt: int,
                    logs: int, m: int, more: int, logs': int)
    requires Shape(g) && Shape(h) && Shape(k) && 0 <= i < |g.inodes| == |h.inodes| == |k.inodes|
    requires Partly(g, h, i, src, off, n, tot, size, cnt, logs) && 0 <= tot < n
    requires m == Min(n - tot, BSIZE - (off + tot) % BSIZE) && logs' <= logs + more
    requires 0 <= (off + tot) / BSIZE < MAXFILE && KeepsAddrs(h, k, i)
    requires Filled(h, k, i, (off + tot) / BSIZE, (off + tot) / BSIZE + 1)
    requires more <= if Addr(h, i, SlotOf((off + tot) / BSIZE)) != 0 then 1 else 2
    ensures 0 < m && (off + tot) % BSIZE + m <= BSIZE && AtTurn(off, n, tot + m)
    ensures Filled(g, k, i, off / BSIZE, UpTo(off, tot + m))
    ensures NoHoles(g, i, Max(size, off)) ==>
              NoHoles(k, i, Max(size, off + tot + m)) && NoHoles(k, i, Max(size, off + tot))
              && Count(off, n, tot + m, cnt + 1, logs')
  {
    hide Written, NoHoles, Shape, Addr, KeepsAddrs, Count, Filled, UpTo, AtTurn;
    var bn := (off + tot) / BSIZE;
    NextTurn(off, n, tot, m);
    FilledJoin(g, h, k, i, off / BSIZE, bn, bn, bn + 1);
    FilledThere(h, k, i, bn);
    if NoHoles(g, i, Max(size, off)) {
      FirstAllocated(h, i, off, tot, size);
      NoHolesStep(h, k, i, size, off + tot, m);
      NoHolesKept(h, k, i, Max(size, off + tot));
      CountStep(off, n, tot, cnt, logs, m, more, logs');
    }
  }

  lemma PartlyNext(g: Img, h: Img, k: Img, i: int, src: seq<Byte>, off: int, n: int, tot: int, size: int, cnt: int,
                   logs: int, m: int, more: int, logs': int)
    requires Shape(g) && Shape(h) && Shape(k) && 0 <= i < |g.inodes| == |h.inodes| == |k.inodes|
    requires Partly(g, h, i, src, off, n, tot, size, cnt, logs) && 0 <= tot < n && 0 <= m && tot + m <= |src|
    requires m == Min(n - tot, BSIZE - (off + tot) % BSIZE) && logs' <= logs + more
    requires 0 <= off && 0 <= (off + tot) / BSIZE < MAXFILE && (off + tot) % BSIZE + m <= BSIZE
    requires BlockSpliced(h, k, i, (off + tot) / BSIZE, (off + tot) % BSIZE, src[tot..tot + m]) && KeepsAddrs(h, k, i)
    requires Filled(h, k, i, (off + tot) / BSIZE, (off + tot) / BSIZE + 1)
    requires more <= if Addr(h, i, SlotOf((off + tot) / BSIZE)) != 0 then 1 else 2
    ensures Partly(g, k, i, src, off, n, tot + m, size, cnt + 1, logs')
  {
    hide Written, NoHoles, Shape, Addr, BlockSpliced, KeepsAddrs, Count, Filled, UpTo, AtTurn;
    PartlyBlock(g, h, k, i, src, off, n, tot, size, cnt, logs, m, more, logs');
    SpliceStep(g, h, k, i, src, off, tot, m);
  }

  /** The source ends inside the block, and the write stops with the block reached but not logged. */
  lemma PartlyStray(g: Img, h: Img, k: Img, i: int, src: seq<Byte>, off: int, n: int, stray: int, tot: int, size: int,
                    cnt: int, logs: int, m: int, p: int, more: int, logs': int)
    requires Shape(g) && Shape(h) && Shape(k) && 0 <= i < |g.inodes| == |h.inodes| == |k.inodes|
    requires Partly(g, h, i, src, off, n, tot, size, cnt, logs) && 0 <= tot < n && tot <= |src| < tot + m && 0 <= stray
    requires m == Min(n - tot, BSIZE - (off + tot) % BSIZE) && logs' <= logs + more && p == Min(stray, |src| - tot)
    requires 0 <= off && 0 <= (off + tot) / BSIZE < MAXFILE && (off + tot) % BSIZE + p <= BSIZE
    requires BlockSpliced(h, k, i, (off + tot) / BSIZE, (off + tot) % BSIZE, src[tot..tot + p]) && KeepsAddrs(h, k, i)
    requires Filled(h, k, i, (off + tot) / BSIZE, (off + tot) / BSIZE + 1)
    requires more <= if Addr(h, i, SlotOf((off + tot) / BSIZE)) != 0 then 1 else 2
    ensures off + n <= MAXFILE * BSIZE && WriteDone(g, k, i, src, off, n, stray, tot, p)
    ensures NoHoles(g, i, Max(size, off)) ==> NoHoles(k, i, Max(size, off + tot)) && (n <= 3 * BSIZE ==> logs' <= 7)
  {
    hide Written, NoHoles, Shape, Addr, BlockSpliced, KeepsAddrs, Count, Filled, Full, Need, Spare;
    PartlyBlock(g, h, k, i, src, off, n, tot, size, cnt, logs, m, more, logs');
    SpliceStep(g, h, k, i, src, off, tot, p);
    NextTurn(off, n, tot, m);
    TurnEnds(off, n, tot, m, |src|);
    FilledBounds(g, k, i, off / BSIZE, UpTo(off, tot + m));
    if NoHoles(g, i, Max(size, off)) && n <= 3 * BSIZE {
      CountBound(off, n, tot + m, cnt + 1, logs');
    }
  }

  lemma TurnEnds(off: int, n: int, tot: int, m: int, k: int)
    requires 0 <= off && AtTurn(off, n, tot) && tot < n && m == Min(n - tot, BSIZE - (off + tot) % BSIZE)
    requires tot <= k < tot + m
    ensures WholeTurns(off, k) == tot
  {
    assert (off + k) / BSIZE == (off + tot) / BSIZE;
  }

  /** The disk is full, and the write stops with the blocks it has. */
  lemma PartlyStops(g: Img, h: Img, k: Img, i: int, src: seq<Byte>, off: int, n: int, stray: int, tot: int, size: int,
                    cnt: int, logs: int)
    requires Shape(g) && Shape(h) && Shape(k) && 0 <= i < |g.inodes| == |h.inodes| == |k.inodes|
    requires Partly(g, h, i, src, off, n, tot, size, cnt, logs) && 0 <= tot < n && tot <= |src|
    requires 0 <= (off + tot) / BSIZE < MAXFILE && Full(k) && Grew(h, k, i)
      && Need(h, i, (off + tot) / BSIZE, (off + tot) / BSIZE + 1) > Spare(h)
    ensures 0 <= off && off + n <= MAXFILE * BSIZE && WriteDone(g, k, i, src, off, n, stray, tot, 0)
    ensures NoHoles(g, i, Max(size, off)) ==> NoHoles(k, i, Max(size, off + tot)) && (n <= 3 * BSIZE ==> logs <= 7)
  {
    hide Written, NoHoles, Shape, Addr, Grew, KeepsAddrs, Count, Filled, Full, Need, Spare;
    WrittenGrew(g, h, k, i, src, off, tot);
    var bn, reach := (off + tot) / BSIZE, Min(n, |src| + 1);
    NextTurn(off, n, tot, Min(n - tot, BSIZE - (off + tot) % BSIZE));
    UpToGrows(off, tot + 1, reach);
    UpToGrows(off, reach, n);
    NeedFails(g, h, i, off / BSIZE, bn, bn, bn + 1, UpTo(off, reach));
    if NoHoles(g, i, Max(size, off)) {
      NoHolesKept(h, k, i, Max(size, off + tot));
      if n <= 3 * BSIZE {
        CountBound(off, n, tot, cnt, logs);
      }
    }
  }

  lemma PartlyDone(g: Img, h: Img, i: int, src: seq<Byte>, off: int, n: int, stray: int, size: int, cnt: int, logs: int)
    requires Shape(g) && Shape(h) && 0 <= i < |g.inodes| == |h.inodes| && 0 <= n <= |src|
      && Partly(g, h, i, src, off, n, n, size, cnt, logs)
    ensures 0 <= off && off + n <= MAXFILE * BSIZE && WriteDone(g, h, i, src, off, n, stray, n, 0)
    ensures NoHoles(g, i, Max(size, off)) ==> NoHoles(h, i, Max(size, off + n)) && (n <= 3 * BSIZE ==> logs <= 7)
  {
    hide Written, NoHoles, Shape, Filled, Count, Full, Need, Spare;
    FilledBounds(g, h, i, off / BSIZE, UpTo(off, n));
    if NoHoles(g, i, Max(size, off)) && n <= 3 * BSIZE {
      CountBound(off, n, n, cnt, logs);
    }
  }

  /** Setting the size keeps all of that. */
  lemma WriteSized(g: Img, h: Img, k: Img, owner: map<int, Slot>, i: int, src: seq<Byte>, off: int, n: int, stray: int,
                   tot: int, extra: int)
    requires Shape(g) && Valid(h, owner) && Valid(k, owner) && 0 <= i < |g.inodes| && 0 <= off && 0 <= n
      && off + n <= MAXFILE * BSIZE
    requires WriteDone(g, h, i, src, off, n, stray, tot, extra) && SameFiles(h, k) && SameAddrs(h, k) && k.sb == h.sb
    requires (forall j :: 0 <= j < |h.inodes| && j != i ==> k.inodes[j] == h.inodes[j]) && (Full(h) ==> Full(k))
    ensures WriteDone(g, k, i, src, off, n, stray, tot, extra)
  {
    assert Shape(h) && Shape(k);
    hide Valid, Shape, Written, Filled, Full, Need, Spare, SameAddrs, SameFiles;
    WrittenSize(g, h, k, i, src, off, tot + extra);
    var lo, hi := off / BSIZE, UpTo(off, Min(n, |src| + 1));
    if Need(g, i, lo, hi) <= Spare(g) {
      FilledSame(g, h, k, owner, i, lo, hi);
    }
  }

  /** The block that a failed copy has changed, `extra` bytes of it, without logging it. */
  ghost function Stray(g: Img, i: int, pos: int, extra: int): set<int>
    requires Shape(g) && 0 <= i < |g.inodes|
  {
    if extra > 0 && 0 <= pos < MAXFILE * BSIZE then {Addr(g, i, SlotOf(pos / BSIZE))} else {}
  }

  lemma NoStray(g: Img, i: int, pos: int, logs: set<int>)
    requires Shape(g) && 0 <= i < |g.inodes|
    ensures logs + Stray(g, i, pos, 0) == logs
  {
  }

  lemma LogsSaved(g: Img, h: Img, i: int, bn: int, before: set<int>, after: set<int>)
    requires Shape(g) && 0 <= i < |g.inodes| && 0 <= bn < MAXFILE && Logs(g, h, i, bn, bn + 1, before, after)
    ensures Saved(g, h, before, after) && before <= after && Saved(g, h, before, after + {})
  {
    hide Need, Spare;
    assert after + {} == after;
  }

  /** The block spliced is logged, or nothing was put into it, or it is the stray one. */
  lemma SavedSplice(g: Img, h: Img, k: Img, i: int, bn: int, a: int, o: int, d: seq<Byte>, s0: set<int>, s1: set<int>,
                    s2: set<int>)
    requires Shape(k) && 0 <= i < |k.inodes| && 0 <= bn < MAXFILE && a == Addr(k, i, SlotOf(bn))
    requires Saved(g, h, s0, s1) && 0 <= a < |h.blocks| && |h.blocks[a]| == BSIZE && 0 <= o && o + |d| <= BSIZE
      && k == WithBlock(h, a, Splice(h.blocks[a], o, d))
    requires s2 == s1 || s2 == s1 + {a}
    ensures s0 <= s2
    ensures Saved(g, k, s0, s2 + (if a !in s2 && d != [] then {a} else {}))
    ensures Saved(g, k, s0, s2 + (if d != [] then {a} else {}))
    ensures a in s2 ==> Saved(g, k, s0, s2 + {})
  {
    hide Shape, Addr;
    if d == [] {
      assert Splice(h.blocks[a], o, d) == h.blocks[a];
    }
  }

  lemma SavedOn(g: Img, h: Img, k: Img, i: int, pos: int, extra: int, s0: set<int>, s1: set<int>, s2: set<int>)
    requires Shape(k) && 0 <= i < |k.inodes| && 0 <= pos < MAXFILE * BSIZE && 0 <= extra
    requires Saved(g, h, s0, s1) && s1 <= s2
    requires Saved(h, k, s1, s2 + (if extra > 0 then {Addr(k, i, SlotOf(pos / BSIZE))} else {}))
    ensures Saved(g, k, s0, s2 + Stray(k, i, pos, extra)) && (extra == 0 ==> Saved(g, k, s0, s2))
  {
    hide Shape, Addr;
    assert s2 + {} == s2;
  }

  /** What the loop of writei has logged: every block changed, and not too many. */
  ghost predicate Tracked(g: Img, h: Img, i: int, before: set<int>, after: set<int>, used: set<int>)
    requires Shape(h) && 0 <= i < |h.inodes|
  {
    Saved(g, h, before, after) && after <= before + IndirectLog(h, i) + used
  }

  lemma TrackedStarts(g: Img, i: int, logs: set<int>)
    requires Shape(g) && 0 <= i < |g.inodes|
    ensures Tracked(g, g, i, logs, logs, {})
  {
    hide Shape, IndirectLog;
  }

  lemma TrackedNext(g: Img, h: Img, k: Img, i: int, pos: int, extra: int, s0: set<int>, s1: set<int>, s2: set<int>,
                    used: set<int>, more: set<int>)
    requires Shape(h) && Shape(k) && 0 <= i < |h.inodes| == |k.inodes| && 0 <= pos < MAXFILE * BSIZE && 0 <= extra
    requires Tracked(g, h, i, s0, s1, used) && s1 <= s2 && IndirectLog(h, i) <= IndirectLog(k, i)
    requires Saved(h, k, s1, s2 + (if extra > 0 then {Addr(k, i, SlotOf(pos / BSIZE))} else {}))
    requires s2 <= s1 + IndirectLog(k, i) + more
    ensures s0 <= s2 && Saved(g, k, s0, s2 + Stray(k, i, pos, extra))
    ensures s2 <= s0 + IndirectLog(k, i) + (used + more) && (more == {} ==> s2 <= s0 + IndirectLog(k, i) + used)
    ensures extra == 0 ==> Tracked(g, k, i, s0, s2, used + more)
  {
    hide Shape, Addr, IndirectLog, Saved;
    SavedBefore(g, h, s0, s1);
    SavedOn(g, h, k, i, pos, extra, s0, s1, s2);
  }

  lemma SavedBefore(g: Img, h: Img, before: set<int>, after: set<int>)
    requires Saved(g, h, before, after)
    ensures before <= after
  {
  }

  lemma TrackedEnds(g: Img, h: Img, i: int, pos: int, before: set<int>, after: set<int>, used: set<int>)
    requires Shape(h) && 0 <= i < |h.inodes| && Tracked(g, h, i, before, after, used)
    ensures before <= after <= before + IndirectLog(h, i) + used && Saved(g, h, before, after + Stray(h, i, pos, 0))
  {
    hide Shape, IndirectLog;
    NoStray(h, i, pos, after);
  }

  /** The size and the inode block are logged besides. */
  lemma SavedSized(g: Img, h: Img, k: Img, i: int, pos: int, extra: int, s0: set<int>, s1: set<int>, s2: set<int>)
    requires Shape(h) && Shape(k) && 0 <= i < |h.inodes| == |k.inodes| && k.blocks == h.blocks && SameAddrs(h, k)
    requires Saved(g, h, s0, s1 + Stray(h, i, pos, extra)) && s0 <= s1 <= s2
    ensures Saved(g, k, s0, s2 + Stray(k, i, pos, extra))
  {
    hide Shape, Addr;
    assert Stray(k, i, pos, extra) == Stray(h, i, pos, extra);
  }

  lemma FilledThere(g: Img, h: Img, i: int, bn: int)
    requires Shape(g) && Shape(h) && 0 <= bn < MAXFILE && Filled(g, h, i, bn, bn + 1)
    ensures 0 <= i < |h.inodes| && Addr(h, i, SlotOf(bn)) != 0
  {
    hide Shape, Addr, Need, Spare;
  }

  lemma HoleLogs(g: Img, h: Img, i: int, bn: int, before: set<int>, after: set<int>)
    requires Shape(g) && 0 <= i < |g.inodes| && 0 <= bn < MAXFILE && Logs(g, h, i, bn, bn + 1, before, after)
    ensures Addr(g, i, SlotOf(bn)) != 0 ==> after == before
  {
    hide Shape, Addr, Need, Spare;
    HoleNeeds(g, i, bn);
  }

  /** n bytes at off that do not cross into another block. */
  predicate InOneBlock(off: int, n: int) {
    off % BSIZE + n <= BSIZE
  }

  /** A write within one block is done in full or not at all. */
  lemma OneTurn(off: int, n: int, tot: int)
    requires AtTurn(off, n, tot) && InOneBlock(off, n) && 0 <= off
    ensures tot == 0 || tot == n
  {
  }

  lemma WriteStarts(g: Img, i: int, src: seq<Byte>, off: int, n: int)
    requires Shape(g) && 0 <= i < |g.inodes|
    ensures Written(g, g, i, src, off, 0) && Count(off, n, 0, 0, 0)
  {
  }

  lemma SpliceStep(g0: Img, g: Img, h: Img, i: int, src: seq<Byte>, off: int, k: int, m: int)
    requires Shape(g0) && Shape(g) && Shape(h) && Written(g0, g, i, src, off, k)
    requires 0 <= off && 0 <= k && 0 <= m && k + m <= |src| && off + k + m <= MAXFILE * BSIZE
      && off + k < MAXFILE * BSIZE && (off + k) % BSIZE + m <= BSIZE
    requires BlockSpliced(g, h, i, (off + k) / BSIZE, (off + k) % BSIZE, src[k..k + m])
    ensures Written(g0, h, i, src, off, k + m)
  {
    hide Shape, Addr, FileBlock;
    forall pos | 0 <= pos < MAXFILE * BSIZE
      ensures FileByte(h, i, pos) == if off <= pos < off + k + m then src[pos - off] else FileByte(g0, i, pos)
    {
      SpliceAt(g, h, i, src, off, k, m, pos);
    }
  }

  lemma SpliceAt(g: Img, h: Img, i: int, src: seq<Byte>, off: int, k: int, m: int, pos: int)
    requires Shape(g) && Shape(h) && 0 <= pos < MAXFILE * BSIZE
    requires 0 <= off && 0 <= k && 0 <= m && k + m <= |src| && off + k + m <= MAXFILE * BSIZE
      && off + k < MAXFILE * BSIZE && (off + k) % BSIZE + m <= BSIZE
    requires BlockSpliced(g, h, i, (off + k) / BSIZE, (off + k) % BSIZE, src[k..k + m])
    ensures FileByte(h, i, pos) == if off + k <= pos < off + k + m then src[pos - off] else FileByte(g, i, pos)
  {
    hide Shape, Addr, FileBlock;
    var c, bn, o := pos / BSIZE, (off + k) / BSIZE, (off + k) % BSIZE;
    assert FileBlock(h, i, c) == if c == bn then Splice(FileBlock(g, i, c), o, src[k..k + m]) else FileBlock(g, i, c);
    assert off + k == bn * BSIZE + o && pos == c * BSIZE + pos % BSIZE;
  }

  /** Splicing bytes into the block of one slot changes that block of that file only. */
  lemma SpliceBlock(g: Img, h: Img, owner: map<int, Slot>, i: int, bn: int, a: int, o: int, d: seq<Byte>)
    requires Shape(g) && Valid(h, owner) && Grew(g, h, i) && 0 <= bn < MAXFILE && 0 <= o && o + |d| <= BSIZE
    requires a != 0 && Addr(h, i, SlotOf(bn)) == a
    ensures 0 <= a < |h.blocks| && |h.blocks[a]| == BSIZE
    ensures var m := WithBlock(h, a, Splice(h.blocks[a], o, d));
      && Valid(m, owner) && BlockSpliced(g, m, i, bn, o, d) && KeepsAddrs(g, m, i) && SameAddrs(h, m)
      && Addr(m, i, SlotOf(bn)) == a && IndirectLog(m, i) == IndirectLog(h, i)
  {
    assert a in owner && owner[a] == Slot(i, SlotOf(bn));
    var v := Splice(h.blocks[a], o, d);
    DataFrame(h, owner, owner.Keys, a, v);
    var m := WithBlock(h, a, v);
    assert FileBlock(h, i, bn) == h.blocks[a];
    hide Shape, Addr, FileBlock, BitsAre, Splice, WithBlock;
    forall j, c | 0 <= j < |g.inodes| && 0 <= c < MAXFILE
      ensures FileBlock(m, j, c) == if j == i && c == bn then Splice(FileBlock(g, j, c), o, d) else FileBlock(g, j, c)
    {
      assert FileBlock(g, j, c) == FileBlock(h, j, c);
      if Addr(h, j, SlotOf(c)) == a {
        assert owner[a] == Slot(j, SlotOf(c));
      }
    }
  }

  lemma WrittenGrew(g: Img, h: Img, m: Img, i: int, src: seq<Byte>, off: int, k: int)
    requires Shape(g) && Shape(h) && Shape(m) && Written(g, h, i, src, off, k) && Grew(h, m, i)
    ensures Written(g, m, i, src, off, k) && KeepsAddrs(h, m, i)
  {
    hide Shape, Addr, FileBlock;
    forall pos | 0 <= pos < MAXFILE * BSIZE ensures FileByte(m, i, pos) == FileByte(h, i, pos) {
      assert FileBlock(m, i, pos / BSIZE) == FileBlock(h, i, pos / BSIZE);
    }
  }

  lemma WrittenSize(g: Img, h: Img, m: Img, i: int, src: seq<Byte>, off: int, k: int)
    requires Shape(g) && Shape(h) && Shape(m) && Written(g, h, i, src, off, k) && SameFiles(h, m) && m.sb == h.sb
    requires forall j :: 0 <= j < |h.inodes| && j != i ==> m.inodes[j] == h.inodes[j]
    ensures Written(g, m, i, src, off, k)
  {
    hide Shape, Addr, FileBlock;
    forall pos | 0 <= pos < MAXFILE * BSIZE ensures FileByte(m, i, pos) == FileByte(h, i, pos) {
      assert FileBlock(m, i, pos / BSIZE) == FileBlock(h, i, pos / BSIZE);
    }
  }

  lemma WrittenTrans(g: Img, h: Img, m: Img, i: int, src: seq<Byte>, off: int, k: int, r: int)
    requires Shape(g) && Shape(h) && Shape(m) && 0 <= off && 0 <= k <= k + r <= |src|
    requires Written(g, h, i, src, off, k) && Written(h, m, i, src[k..], off + k, r)
    ensures Written(g, m, i, src, off, k + r)
  {
    hide Shape, FileByte, FileBlock;
    forall pos | 0 <= pos < MAXFILE * BSIZE
      ensures FileByte(m, i, pos) == if off <= pos < off + k + r then src[pos - off] else FileByte(g, i, pos)
    {
      assert FileByte(h, i, pos) == if off <= pos < off + k then src[pos - off] else FileByte(g, i, pos);
    }
  }

  /** Setting an inode's size changes no address and no contents. */
  lemma SizeOnly(g: Img, h: Img, owner: map<int, Slot>, i: int)
    requires Valid(g, owner) && 0 <= i < |g.inodes| == |h.inodes|
    requires h == g.(inodes := g.inodes[i := h.inodes[i]]) && h.inodes[i].addrs == g.inodes[i].addrs
    ensures Valid(h, owner) && SameFiles(g, h) && IndirectLog(h, i) == IndirectLog(g, i) && KeepsAddrs(g, h, i)
    ensures SameAddrs(g, h) && (Full(g) ==> Full(h))
  {
    SizeOnlyAddrs(g, h, i);
    hide Addr, InodeShape;
    OwnedSameAddrs(g, h, owner);
    assert forall b :: 0 <= b < g.sb.size ==> Bit(h, b) == Bit(g, b);
  }

  lemma SizeOnlyAddrs(g: Img, h: Img, i: int)
    requires Shape(g) && 0 <= i < |g.inodes| == |h.inodes|
    requires h == g.(inodes := g.inodes[i := h.inodes[i]]) && h.inodes[i].addrs == g.inodes[i].addrs
    ensures Shape(h) && SameAddrs(g, h)
  {
    assert InodeShape(g, g.inodes[i]) && InodeShape(h, h.inodes[i]);
    assert Shape(h);
    hide BBlock;
  }

  lemma NoHolesKept(g: Img, h: Img, i: int, size: int)
    requires Shape(g) && Shape(h) && KeepsAddrs(g, h, i) && NoHoles(g, i, size)
    ensures NoHoles(h, i, size)
  {
    hide Addr, Shape;
  }

  lemma NoHolesStep(g: Img, h: Img, i: int, size: int, cur: int, m: int)
    requires Shape(g) && Shape(h) && KeepsAddrs(g, h, i) && NoHoles(g, i, Max(size, cur))
    requires 0 <= cur < MAXFILE * BSIZE && cur % BSIZE + m <= BSIZE
    requires Addr(h, i, SlotOf(cur / BSIZE)) != 0
    ensures NoHoles(h, i, Max(size, cur + m))
  {
    hide Addr, Shape;
    forall bn | 0 <= bn < MAXFILE && bn * BSIZE < Max(size, cur + m) ensures Addr(h, i, SlotOf(bn)) != 0 {
      if bn * BSIZE < Max(size, cur) {
        assert Addr(g, i, SlotOf(bn)) != 0;
      } else {
        assert bn == cur / BSIZE;
      }
    }
  }

  // ----- Counting the blocks a write logs

  /** After cnt blocks of a write of n bytes at off, of which tot are done, `logs` blocks were logged:
      two for each block, but one for an unaligned first block, which was already allocated. */
  ghost predicate Count(off: int, n: int, tot: int, cnt: int, logs: int) {
    && (tot == 0 ==> cnt == 0 && logs == 0)
    && (tot > 0 ==>
          cnt > 0 && logs <= 2 * cnt - (if off % BSIZE == 0 then 0 else 1) && (cnt - 1) * BSIZE < tot + off % BSIZE)
    && (0 < tot < n ==> tot + off % BSIZE == cnt * BSIZE)
  }

  lemma FirstAllocated(g: Img, i: int, off: int, tot: int, size: int)
    requires Shape(g) && 0 <= i < |g.inodes| && NoHoles(g, i, Max(size, off + tot)) && 0 <= off && 0 <= tot
      && off + tot < MAXFILE * BSIZE
    ensures tot == 0 && off % BSIZE != 0 ==> Addr(g, i, SlotOf((off + tot) / BSIZE)) != 0
  {
    hide Addr, Shape;
    if tot == 0 && off % BSIZE != 0 {
      assert off / BSIZE * BSIZE < off;
    }
  }

  lemma CountStep(off: int, n: int, tot: int, cnt: int, logs: int, m: int, more: int, logs': int)
    requires Count(off, n, tot, cnt, logs) && 0 <= tot < n && 0 <= off
    requires m == Min(n - tot, BSIZE - (off + tot) % BSIZE)
    requires more <= 2 && logs' <= logs + more
    requires tot == 0 && off % BSIZE != 0 ==> more <= 1
    ensures Count(off, n, tot + m, cnt + 1, logs')
  {
    if tot > 0 {
      assert (off + tot) % BSIZE == 0;
    }
  }

  lemma CountBound(off: int, n: int, tot: int, cnt: int, logs: int)
    requires Count(off, n, tot, cnt, logs) && 0 <= tot <= n <= 3 * BSIZE
    ensures logs <= 7
  {
  }

  lemma UnionSize(a: set<int>, b: set<int>)
    ensures |a + b| <= |a| + |b|
  {
    assert a + b == a + (b - a);
    assert b == (b - a) + (b * a);
  }

  lemma ThreeParts(all: set<int>, a: set<int>, b: set<int>, c: set<int>)
    requires all <= a + b + c
    ensures |all| <= |a| + |b| + |c|
  {
    UnionSize(a, b);
    UnionSize(a + b, c);
    assert a + b + c == all + (a + b + c - all);
  }

  // ----- Lemmas about single steps

  lemma BitIndex(q: int, bi: int)
    requires 0 <= bi < BPB
    ensures (q * BPB + bi) / BPB == q && (q * BPB + bi) % BPB == bi && (q * BPB) / BPB == q
  {
  }

  lemma NotMarked(g: Img, owner: map<int, Slot>, b: int)
    requires Valid(g, owner) && 0 <= b < g.sb.size && !Bit(g, b)
    ensures g.sb.nmeta <= b && b !in owner
  {
  }

  lemma OwnAddr(g: Img, i: int, k: int)
    requires Shape(g) && 0 <= i < |g.inodes| && 0 <= k <= NDIRECT
    ensures |g.inodes[i].addrs| == NDIRECT + 1 && Addr(g, i, k) == g.inodes[i].addrs[k]
  {
    assert InodeShape(g, g.inodes[i]);
  }

  lemma EntryAddr(g: Img, i: int, j: int)
    requires Shape(g) && 0 <= i < |g.inodes| && 0 <= j < NINDIRECT && Addr(g, i, NDIRECT) != 0
    ensures |g.inodes[i].addrs| == NDIRECT + 1 && 0 <= g.inodes[i].addrs[NDIRECT] < g.sb.size == |g.blocks|
    ensures |g.blocks[g.inodes[i].addrs[NDIRECT]]| == BSIZE
    ensures Addr(g, i, NDIRECT + 1 + j) == Word(g.blocks[g.inodes[i].addrs[NDIRECT]], j)
  {
    assert InodeShape(g, g.inodes[i]);
  }

  lemma IndirectLogged(g: Img, i: int)
    requires Shape(g) && 0 <= i < |g.inodes|
    ensures |g.inodes[i].addrs| == NDIRECT + 1
    ensures g.inodes[i].addrs[NDIRECT] != 0 ==> g.inodes[i].addrs[NDIRECT] in IndirectLog(g, i)
  {
    assert InodeShape(g, g.inodes[i]);
  }

  lemma IndirectFirst(g: Img, i: int, j: int)
    requires Shape(g) && 0 <= i < |g.inodes| && 0 <= j < NINDIRECT
    ensures Addr(g, i, NDIRECT + 1 + j) != 0 ==> Addr(g, i, NDIRECT) != 0
  {
  }

  lemma IndirectNone(g: Img, i: int, j: int)
    requires Shape(g) && 0 <= i < |g.inodes| && 0 <= j < NINDIRECT && Addr(g, i, NDIRECT) == 0
    ensures Addr(g, i, NDIRECT + 1 + j) == 0
  {
  }

  lemma GrewRefl(g: Img, i: int)
    requires Shape(g) && 0 <= i < |g.inodes|
    ensures Grew(g, g, i)
  {
  }

  lemma GrewIndirect(g: Img, h: Img, i: int)
    requires Shape(g) && Shape(h) && Grew(g, h, i)
    ensures |h.inodes| == |g.inodes| && 0 <= i < |g.inodes|
    ensures Addr(g, i, NDIRECT) != 0 ==> Addr(h, i, NDIRECT) == Addr(g, i, NDIRECT)
    ensures IndirectLog(g, i) <= IndirectLog(h, i) && KeepsAddrs(g, h, i)
    ensures forall j :: 0 <= j < |g.inodes| ==> h.inodes[j].size == g.inodes[j].size
  {
  }

  lemma AllocatedFrame(g: Img, m: Img, owner: map<int, Slot>, a: int)
    requires Shape(g) && Allocated(g, m, owner, a)
    ensures Shape(m) && g.sb.nmeta <= a < g.sb.size && a !in owner && |m.blocks| == g.sb.size <= UINT
  {
  }

  lemma OneAddrIs(g: Img, h: Img, i: int, k: int, a: int)
    requires Shape(g) && Shape(h) && OneAddr(g, h, i, k, a) && 0 <= i < |g.inodes| && 0 <= k < NSLOTS
    ensures |h.inodes| == |g.inodes| && Addr(h, i, k) == a
  {
    hide Shape, Addr;
  }

  lemma NoneSpare(g: Img)
    requires Shape(g)
    ensures Full(g) <==> Spare(g) == 0
  {
    hide Bit, BBlock, InodeShape;
    assert Spare(g) == 0 <==> FreeBlocks(g) == {};
    if !Full(g) {
      var b :| 0 <= b < g.sb.size && !Bit(g, b);
      assert b in FreeBlocks(g);
    }
  }

  /** balloc's block in an entry of the indirect block. */
  lemma EntryTakes(g: Img, m: Img, owner: map<int, Slot>, i: int, j: int, a: int)
    requires Valid(g, owner) && Allocated(g, m, owner, a) && 0 <= i < |g.inodes| && 0 <= j < NINDIRECT
    requires Addr(g, i, NDIRECT) != 0 && Addr(g, i, NDIRECT + 1 + j) == 0
    ensures 0 <= a < UINT && Shape(m) && |m.blocks| == |g.blocks| && m.inodes == g.inodes
      && |g.inodes[i].addrs| == NDIRECT + 1 && 0 <= g.inodes[i].addrs[NDIRECT] < |g.blocks|
      && |m.blocks[g.inodes[i].addrs[NDIRECT]]| == BSIZE
    ensures var h := WithEntry(m, i, j, a);
      && Valid(h, owner[a := Slot(i, NDIRECT + 1 + j)]) && Grew(g, h, i) && Taken(g, h, i, NDIRECT + 1 + j, a)
      && Addr(h, i, NDIRECT + 1 + j) == a && IndirectLog(h, i) == IndirectLog(g, i)
  {
    IndirectAddr(g, i);
    IndirectAddr(m, i);
    AllocatedFrame(g, m, owner, a);
    hide Addr, InodeShape, PutWord, Spare, OneAddr, Allocated, BBlock;
    RecordEntry(g, m, owner, i, j, a);
    var h := WithEntry(m, i, j, a);
    SpareNext(g, h, owner, a, Slot(i, NDIRECT + 1 + j));
    OneAddrIs(g, h, i, NDIRECT + 1 + j, a);
    IndirectAddr(h, i);
  }

  /** bmap finds no block. */
  lemma MappedNone(g: Img, i: int, bn: int, logs: set<int>)
    requires Shape(g) && 0 <= i < |g.inodes| && 0 <= bn < MAXFILE && Addr(g, i, SlotOf(bn)) == 0 && Full(g)
    ensures Spare(g) == 0 && Need(g, i, bn, bn + 1) > Spare(g) && Logs(g, g, i, bn, bn + 1, logs, logs)
  {
    hide Shape, Addr, Spare, Need, Full;
    HoleNeeds(g, i, bn);
    NoneSpare(g);
  }

  /** bmap through one slot: taken, there already, or not to be had. */
  lemma MappedOne(g: Img, h: Img, i: int, bn: int, a: int, before: set<int>, after: set<int>)
    requires Shape(g) && Shape(h) && 0 <= i < |g.inodes| == |h.inodes| && 0 <= bn < MAXFILE
      && a == Addr(h, i, SlotOf(bn))
    requires bn >= NDIRECT ==> Addr(g, i, NDIRECT) != 0
    requires if Addr(g, i, SlotOf(bn)) != 0 || a == 0 then h == g && after == before
             else Taken(g, h, i, SlotOf(bn), a) && Saved(g, h, before, after) && after != {}
    requires a == 0 ==> Full(h)
    ensures Logs(g, h, i, bn, bn + 1, before, after)
    ensures if a != 0 then Filled(g, h, i, bn, bn + 1) else Need(g, i, bn, bn + 1) > Spare(g)
  {
    hide Shape, Addr, Spare, Need, Reached, OneAddr, Full;
    HoleNeeds(g, i, bn);
    if a == 0 {
      MappedNone(g, i, bn, before);
    } else if Addr(g, i, SlotOf(bn)) == 0 {
      TakenBlock(g, h, i, bn, a);
    } else {
      FilledAlready(g, i, bn);
    }
  }

  /** bmap through the indirect block, itself taken or there already. */
  lemma MappedTwo(g: Img, h: Img, k: Img, i: int, bn: int, a: int, s0: set<int>, s1: set<int>, s2: set<int>)
    requires Shape(g) && Shape(h) && Shape(k) && 0 <= i < |g.inodes| == |h.inodes| == |k.inodes|
      && NDIRECT <= bn < MAXFILE
    requires Addr(h, i, NDIRECT) != 0 && a == Addr(k, i, SlotOf(bn))
    requires Addr(g, i, SlotOf(bn)) != 0 ==> Addr(g, i, NDIRECT) != 0
    requires if Addr(g, i, NDIRECT) != 0 then h == g && s1 == s0
             else Taken(g, h, i, NDIRECT, Addr(h, i, NDIRECT)) && Saved(g, h, s0, s1) && s1 != {}
    requires if Addr(h, i, SlotOf(bn)) != 0 || a == 0 then k == h && s2 == s1
             else Taken(h, k, i, SlotOf(bn), a) && Saved(h, k, s1, s2) && s2 != {}
    requires a == 0 ==> Full(k)
    ensures Logs(g, k, i, bn, bn + 1, s0, s2)
    ensures if a != 0 then Filled(g, k, i, bn, bn + 1) else Need(g, i, bn, bn + 1) > Spare(g)
  {
    hide Shape, Addr, Spare, Need, Reached, OneAddr, Full;
    HoleNeeds(g, i, bn);
    MappedOne(h, k, i, bn, a, s1, s2);
    if Addr(g, i, NDIRECT) == 0 {
      TakenNeed(g, h, i, bn, Addr(h, i, NDIRECT));
      if a != 0 {
        TakenBoth(g, h, k, i, bn, Addr(h, i, NDIRECT));
      }
    }
  }

  lemma SlotSizes(g: Img, i: int, k: int, a: int)
    requires Shape(g) && 0 <= i < |g.inodes| && 0 <= k <= NDIRECT
    ensures |g.inodes[i].addrs| == NDIRECT + 1
  {
    assert InodeShape(g, g.inodes[i]);
  }
}
