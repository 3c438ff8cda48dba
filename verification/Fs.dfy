/** kernel/fs.c: the allocator, the block map and reading, writing and truncating files,
    in place on the cached blocks and the in-memory inodes.

    The buffer cache is seen as the plain block array it implements.  `logged` collects the
    blocks given to log_write since the current operation began. */
module FileSystem {
  import opened Blocks
  import opened Bitmap
  import opened FsState
  import opened FsBytes
  import opened Sets

  /** One call of log_write: block b now holds v. */
  datatype Store = Store(b: nat, v: Block)

  function Played(blocks: seq<Block>, writes: seq<Store>): (r: seq<Block>)
    ensures |r| == |blocks|
  {
    if writes == [] then blocks else
      var k, w := |writes| - 1, writes[|writes| - 1];
      var r := Played(blocks, writes[..k]);
      if w.b < |r| then r[w.b := w.v] else r
  }

  ghost function Touched(writes: seq<Store>): set<nat> {
    set k | 0 <= k < |writes| :: writes[k].b
  }

  /** The writes, none below block lo, turn origin into blocks, and logged are the blocks they touch. */
  ghost predicate IsTrace(lo: nat, origin: seq<Block>, writes: seq<Store>, blocks: seq<Block>, logged: set<nat>) {
    && blocks == Played(origin, writes) && logged == Touched(writes)
    && forall k :: 0 <= k < |writes| ==> lo <= writes[k].b < |blocks|
  }

  lemma TraceMore(lo: nat, origin: seq<Block>, writes: seq<Store>, blocks: seq<Block>, logged: set<nat>,
                  b: nat, v: Block)
    requires IsTrace(lo, origin, writes, blocks, logged) && lo <= b < |blocks|
    ensures IsTrace(lo, origin, writes + [Store(b, v)], blocks[b := v], logged + {b})
  {
    var more := writes + [Store(b, v)];
    assert more[..|writes|] == writes;
    assert more[|writes|].b == b;
    forall x ensures x in Touched(more) <==> x in logged || x == b {
      if x in logged {
        var k :| 0 <= k < |writes| && writes[k].b == x;
        assert more[k].b == x;
      }
    }
  }

  class FileSystem {
    const lay: Layout
    var blocks: seq<Block>
    var inodes: map<nat, Inode>
    ghost var owner: map<nat, Slot>
    ghost var logged: set<nat>
    var writes: seq<Store>           // the calls of log_write since the current operation began
    ghost var origin: seq<Block>     // the blocks when it began

    ghost predicate Traced()
      reads `blocks, `logged, `writes, `origin
    {
      IsTrace(lay.inodestart, origin, writes, blocks, logged)
    }

    constructor (lay: Layout, blocks: seq<Block>, inodes: map<nat, Inode>, ghost owner: map<nat, Slot>)
      ensures View() == Fs(lay, blocks, inodes, owner) && this.lay == lay && Traced()
    {
      this.lay, this.blocks, this.inodes, this.owner := lay, blocks, inodes, owner;
      logged, writes, origin := {}, [], blocks;
    }

    /** A new operation. */
    method StartOp()
      modifies `logged, `writes, `origin
      ensures Traced() && logged == {} && writes == [] && origin == blocks
    {
      logged, writes, origin := {}, [], blocks;
    }

    ghost function View(): Fs
      reads this
    {
      Fs(lay, blocks, inodes, owner)
    }

    /** Copy a changed buffer to the log. */
    method LogWrite(b: nat, v: Block)
      requires lay.inodestart <= b < |blocks| && Traced()
      modifies `blocks, `logged, `writes
      ensures Traced() && blocks == old(blocks)[b := v] && logged == old(logged) + {b}
    {
      TraceMore(lay.inodestart, origin, writes, blocks, logged, b, v);
      blocks := blocks[b := v];
      logged := logged + {b};
      writes := writes + [Store(b, v)];
    }

    /** Allocate a zeroed block: the lowest free one, or 0 when there is none. */
    method Balloc() returns (r: nat)
      requires Shape(View()) && Owned(View())
      requires Traced()
      modifies `blocks, `logged, `writes
      ensures Traced()
      ensures r == 0 ==> blocks == old(blocks) && logged == old(logged)
      ensures r == 0 ==> forall c: nat :: c < lay.size ==> c in UsedSet(lay, blocks)
      ensures r != 0 ==> r < lay.size && r !in UsedSet(lay, old(blocks)) && blocks == AllocBlocks(lay, old(blocks), r)
      ensures r != 0 ==> logged == old(logged) + {BBlock(lay, r), r}
      ensures r != 0 ==> forall c: nat :: c < r ==> c in UsedSet(lay, old(blocks))
    {
      hide IsTrace, TestBit, SetBit, Owned, AllocBlocks, BBlock;
      var b := 0;
      ghost var k := 0;
      while b < lay.size
        invariant Traced() && b == k * BPB
        invariant blocks == old(blocks) && logged == old(logged)
        invariant forall c: nat :: c < b && c < lay.size ==> Used(lay, blocks, c)
        decreases lay.size - b
      {
        var bi := FirstClear(b, k);
        if bi < BPB && b + bi < lay.size {
          BallocZero(b + bi);
          MarkAndZero(b + bi);
          return b + bi;
        }
        b, k := b + BPB, k + 1;
      }
      return 0;
    }

    /** Set the bit of a free block and zero it. */
    method MarkAndZero(b: nat)
      requires ValidLayout(lay) && |blocks| == lay.size && lay.meta <= b < lay.size && !Used(lay, blocks, b)
      requires Traced()
      modifies `blocks, `logged, `writes
      ensures Traced()
      ensures blocks == AllocBlocks(lay, old(blocks), b) && logged == old(logged) + {BBlock(lay, b), b}
    {
      hide IsTrace, TestBit, SetBit;
      LogWrite(BBlock(lay, b), SetBit(blocks[BBlock(lay, b)], b % BPB));
      LogWrite(b, ZeroBlock());
    }

    /** Block 0 is metadata, so a free block never is block 0. */
    lemma BallocZero(b: nat)
      requires Shape(View()) && Owned(View()) && b < lay.size && !Used(lay, blocks, b)
      ensures b != 0 && lay.meta <= b
    {
      assert b !in UsedSet(lay, blocks);
    }

    /** The scan of one free-map block. */
    method FirstClear(b: nat, ghost k: nat) returns (bi: nat)
      requires ValidLayout(lay) && |blocks| == lay.size && b < lay.size && b == k * BPB
      ensures bi <= BPB && forall c: nat :: b <= c < b + bi && c < lay.size ==> Used(lay, blocks, c)
      ensures bi < BPB && b + bi < lay.size ==> !Used(lay, blocks, b + bi)
    {
      hide TestBit, BBlock, Used;
      bi := 0;
      while bi < BPB && b + bi < lay.size && TestBit(blocks[BBlock(lay, b)], bi)
        invariant bi <= BPB && forall c: nat :: b <= c < b + bi && c < lay.size ==> Used(lay, blocks, c)
      {
        UsedAt(lay, blocks, k, bi);
        bi := bi + 1;
      }
      if bi < BPB && b + bi < lay.size {
        UsedAt(lay, blocks, k, bi);
      }
    }

    /** Free a block; the panic on a free block is excluded by the precondition. */
    method Bfree(b: nat)
      requires ValidLayout(lay) && |blocks| == lay.size && b < lay.size && Used(lay, blocks, b)
      requires Traced()
      modifies `blocks, `logged, `writes
      ensures Traced()
      ensures blocks == FreeBlocks(lay, old(blocks), b) && logged == old(logged) + {BBlock(lay, b)}
    {
      hide IsTrace;
      LogWrite(BBlock(lay, b), ClearBit(blocks[BBlock(lay, b)], b % BPB));
    }

    ghost predicate Full()
      requires ValidLayout(lay) && |blocks| == lay.size
      reads this
    {
      forall c: nat :: c < lay.size ==> c in UsedSet(lay, blocks)
    }

    /** Allocate a block for pointer i of inode n, which holds none. */
    method GrowPointer(n: nat, i: nat) returns (addr: nat)
      requires Shape(View()) && Owned(View()) && n in inodes && i <= NDIRECT && inodes[n].addrs[i] == 0
      requires Traced()
      modifies `blocks, `inodes, `owner, `logged, `writes
      ensures Traced()
      ensures addr == 0 ==> View() == old(View()) && Full() && logged == old(logged)
      ensures addr < lay.size
      ensures addr != 0 ==> CanAttach(old(View()), Pointer(n, i), addr)
      ensures addr != 0 ==> View() == Attach(old(View()), Pointer(n, i), addr)
      ensures addr != 0 ==> logged == old(logged) + {BBlock(lay, addr), addr}
    {
      hide IsTrace, Owned, AllocBlocks, UsedSet;
      addr := Balloc();
      if addr != 0 {
        inodes := inodes[n := inodes[n].(addrs := inodes[n].addrs[i := addr])];
        owner := owner[addr := Pointer(n, i)];
      }
    }

    /** Allocate a block for entry j of inode n's indirect block. */
    method GrowEntry(n: nat, j: nat) returns (addr: nat)
      requires Shape(View()) && Owned(View()) && n in inodes && j < NINDIRECT && inodes[n].addrs[NDIRECT] != 0
      requires EntryAt(blocks, inodes[n], j) == 0
      requires Traced()
      modifies `blocks, `owner, `logged, `writes
      ensures Traced()
      ensures addr == 0 ==> View() == old(View()) && Full() && logged == old(logged)
      ensures addr < lay.size
      ensures addr != 0 ==> CanAttach(old(View()), Entry(n, j), addr)
      ensures addr != 0 ==> View() == Attach(old(View()), Entry(n, j), addr)
      ensures addr != 0 ==> logged == old(logged) + {BBlock(lay, addr), addr, inodes[n].addrs[NDIRECT]}
    {
      hide IsTrace, Owned, AllocBlocks, UsedSet, GetWord, PutWord;
      IndirectOwned(View(), n);
      addr := Balloc();
      if addr != 0 {
        var p := inodes[n].addrs[NDIRECT];
        LogWrite(p, PutWord(blocks[p], 4 * j, addr));
        owner := owner[addr := Entry(n, j)];
      }
    }

    /** The block number of the bn-th block of file n, allocated if there was none; 0 when
        the disk is full.  `maps` are the free-map blocks this touches. */
    method Bmap(n: nat, bn: nat) returns (addr: nat, ghost maps: set<nat>)
      requires Shape(View()) && Owned(View()) && n in inodes && bn < MAXFILE
      requires Traced()
      modifies `blocks, `inodes, `owner, `logged, `writes
      ensures Traced()
      ensures Grew(old(View()), View(), n)
      ensures addr == At(View(), SlotOf(n, bn))
      ensures At(old(View()), SlotOf(n, bn)) != 0 ==> View() == old(View()) && logged == old(logged) && maps == {}
      ensures addr == 0 ==> Full()
      ensures logged <= old(logged) + maps + {addr, inodes[n].addrs[NDIRECT]}
      ensures bn < NDIRECT ==> logged <= old(logged) + maps + {addr}
      ensures bn < NDIRECT ==> inodes[n].addrs[NDIRECT] == old(inodes)[n].addrs[NDIRECT]
      ensures |maps| <= 1 + (if old(inodes)[n].addrs[NDIRECT] == 0 && inodes[n].addrs[NDIRECT] != 0 then 1 else 0)
    {
      hide IsTrace, Owned, Attach, UsedSet, EntryAt, CanAttach, Grew;
      maps := {};
      GrewRefl(View(), n);
      if bn < NDIRECT {
        addr := inodes[n].addrs[bn];
        if addr == 0 {
          addr := GrowPointer(n, bn);
          if addr != 0 {
            maps := {BBlock(lay, addr)};
            PointerAttached(old(View()), n, bn, addr);
          }
        }
      } else {
        addr, maps := BmapIndirect(n, bn - NDIRECT);
      }
    }

    method BmapIndirect(n: nat, j: nat) returns (addr: nat, ghost maps: set<nat>)
      requires Shape(View()) && Owned(View()) && n in inodes && j < NINDIRECT
      requires Traced()
      modifies `blocks, `inodes, `owner, `logged, `writes
      ensures Traced()
      ensures Grew(old(View()), View(), n)
      ensures addr == At(View(), Entry(n, j))
      ensures At(old(View()), Entry(n, j)) != 0 ==> View() == old(View()) && logged == old(logged) && maps == {}
      ensures addr == 0 ==> Full()
      ensures logged <= old(logged) + maps + {addr, inodes[n].addrs[NDIRECT]}
      ensures |maps| <= 1 + (if old(inodes)[n].addrs[NDIRECT] == 0 && inodes[n].addrs[NDIRECT] != 0 then 1 else 0)
    {
      hide IsTrace, Owned, Attach, UsedSet, EntryAt, CanAttach, Grew;
      maps := {};
      GrewRefl(View(), n);
      var p := inodes[n].addrs[NDIRECT];
      if p == 0 {
        NoEntries(blocks, inodes[n], j);
        p := GrowPointer(n, NDIRECT);
        if p == 0 {
          addr := 0;
          return;
        }
        maps := {BBlock(lay, p)};
        PointerAttached(old(View()), n, NDIRECT, p);
      }
      addr := EntryAt(blocks, inodes[n], j);
      if addr == 0 {
        ghost var mid := View();
        addr := GrowEntry(n, j);
        if addr != 0 {
          maps := maps + {BBlock(lay, addr)};
          EntryAttached(mid, n, j, addr);
          GrewTrans(old(View()), mid, View(), n);
        }
      }
    }

    /** Copy the in-memory inode to its place on disk. */
    method Iupdate(n: nat)
      requires Shape(View()) && n in inodes
      requires Traced()
      modifies `blocks, `logged, `writes
      ensures Traced()
      ensures View() == Finished(old(View()), n, inodes[n].size)
      ensures logged == old(logged) + {IBlock(lay, n)}
    {
      hide IsTrace, PutWord;
      var ip := inodes[n];
      var ib := IBlock(lay, n);
      var blk := PutWord(blocks[ib], SizeOffset(n), ip.size);
      for i := 0 to NDIRECT + 1
        invariant Traced() && blk == PutInode(blocks[ib], n, ip, i)
      {
        blk := PutWord(blk, AddrOffset(n, i), ip.addrs[i]);
      }
      assert inodes == inodes[n := ip.(size := ip.size)];
      LogWrite(ib, blk);
    }

    /** Read up to cnt bytes of file n from offset off.  Offsets are 32-bit; the first `copies` copies
        to the reader succeed, and the next fails after `part` bytes.  dst holds what the reader has
        got, also when -1 is returned. */
    method Readi(n: nat, off: nat, cnt: nat, copies: nat, part: nat) returns (r: int, dst: seq<byte>)
      requires Good(View()) && n in inodes && off < WORD_LIMIT && cnt < WORD_LIMIT
      requires Traced()
      modifies `blocks, `inodes, `owner, `logged, `writes
      ensures Traced()
      ensures View() == old(View()) && logged == old(logged)
      ensures var c := Content(old(View()), n);
        if off > |c| || off + cnt >= WORD_LIMIT then r == 0 && dst == []
        else
          var all := c[off..if off + cnt < |c| then off + cnt else |c|];
          && (r == -1 <==> Span(off, |all|) > copies)
          && (r != -1 ==> dst == all && r == |all|)
          && (r == -1 ==> dst <= all && CutShort(off, |all|, |dst|, copies, part))
    {
      hide IsTrace, Shape, Owned, Allocated, ByteAt, Span, CutShort;
      if off > inodes[n].size || off + cnt >= WORD_LIMIT {
        return 0, [];
      }
      r, dst := ReadLoop(n, off, if off + cnt > inodes[n].size then inodes[n].size - off else cnt, copies, part);
    }

    /** The copying loop of readi, for cnt bytes that are there. */
    method ReadLoop(n: nat, off: nat, cnt: nat, copies: nat, part: nat) returns (r: int, dst: seq<byte>)
      requires Good(View()) && n in inodes && off + cnt <= inodes[n].size == |Content(View(), n)|
      requires Traced()
      modifies `blocks, `inodes, `owner, `logged, `writes
      ensures Traced()
      ensures View() == old(View()) && logged == old(logged)
      ensures r == -1 <==> Span(off, cnt) > copies
      ensures r != -1 ==> dst == Content(old(View()), n)[off..off + cnt] && r == cnt
      ensures r == -1 ==> dst <= Content(old(View()), n)[off..off + cnt] && CutShort(off, cnt, |dst|, copies, part)
    {
      hide IsTrace, Good, Content, Span, CutShort, Resumes;
      r, dst := 0, [];
      NotResumed(off, cnt);
      ghost var c := Content(View(), n);
      ghost var k := 0;
      var tot, left := 0, copies;
      while tot < cnt
        invariant Traced() && tot <= cnt && View() == old(View()) && logged == old(logged)
        invariant dst == c[off..off + tot] && k == Span(off, tot) == copies - left && Resumes(off, tot, cnt, k)
      {
        var m := ReadChunk(n, off + tot, cnt - tot);
        NextStart(off, tot, cnt, |m|, k);
        SpanGrows(off, tot + |m|, cnt);
        if left == 0 {
          var some := if part < |m| then part else |m|;
          ReadMore(c, off, tot, m, some);
          CutAt(off, tot, cnt, |m|, copies, part);
          return -1, dst + m[..some];
        }
        ReadMore(c, off, tot, m, |m|);
        dst := dst + m;
        tot, left, k := tot + |m|, left - 1, k + 1;
      }
      r := tot;
    }

    /** The round trip: what a complete write stored is what reading the same range returns. */
    method WriteThenRead(n: nat, off: nat, d: seq<byte>, copies: nat, copiesOut: nat, part: nat)
      returns (w: int, r: int, dst: seq<byte>)
      requires Good(View()) && n in inodes && off < WORD_LIMIT && |d| < WORD_LIMIT
      requires Traced()
      modifies `blocks, `inodes, `owner, `logged, `writes
      ensures w == |d| && Span(off, |d|) <= copiesOut ==> r == |d| && dst == d
      ensures w == |d| && Span(off, |d|) > copiesOut ==> r == -1 && dst <= d
      ensures w == -1 ==> View() == old(View())
    {
      hide Owned, Allocated, Stored, Span, IsTrace, ByteAt, Shape;
      w := Writei(n, off, d, copies);
      assert w == |d| ==> d[..w] == d;
      r, dst := Readi(n, off, |d|, copiesOut, part);
    }

    /** One iteration of readi: the bytes from cur to the end of its block, at most `left`. */
    method ReadChunk(n: nat, cur: nat, left: nat) returns (m: seq<byte>)
      requires Good(View()) && n in inodes && 0 < left && cur + left <= inodes[n].size
      requires Traced()
      modifies `blocks, `inodes, `owner, `logged, `writes
      ensures Traced()
      ensures View() == old(View()) && logged == old(logged)
      ensures 0 < |m| <= left && m == Content(View(), n)[cur..cur + |m|]
      ensures |m| == left || (cur + |m|) % BSIZE == 0
      ensures cur % BSIZE + |m| <= BSIZE
    {
      hide IsTrace, Owned, At, Bytes, Grew;
      BlockThere(View(), n, cur);
      var addr, maps := Bmap(n, cur / BSIZE);
      var len := if left < BSIZE - cur % BSIZE then left else BSIZE - cur % BSIZE;
      ChunkBytes(View(), n, cur, len);
      m := blocks[addr][cur % BSIZE..cur % BSIZE + len];
    }

    /** One iteration of writei: chunk d, within one block, copied to offset cur, unless its source
        cannot be read.  `bytes` is what the file has so far and s0 the state when writei was called. */
    method WriteChunk(n: nat, cur: nat, d: seq<byte>, readable: bool, ghost s0: Fs, ghost bytes: seq<byte>)
      returns (addr: nat, ghost maps: set<nat>)
      requires Writing(s0, View(), n, bytes) && cur <= |bytes| && cur < MAXFILE * BSIZE
      requires 0 < |d| <= BSIZE - cur % BSIZE
      requires Traced()
      modifies `blocks, `inodes, `owner, `logged, `writes
      ensures Traced()
      ensures Shape(View()) && n in inodes && n in old(inodes)
      ensures addr != 0 && readable ==> Writing(s0, View(), n, Splice(bytes, cur, d))
      ensures addr == 0 || !readable ==> Writing(s0, View(), n, bytes)
      ensures addr == 0 ==> Full()
      ensures var ind := inodes[n].addrs[NDIRECT];
        var ind0 := old(inodes)[n].addrs[NDIRECT];
        && logged <= old(logged) + maps + {addr} + (if cur / BSIZE < NDIRECT then {} else {ind})
        && |maps| <= 1 + (if ind0 == 0 && ind != 0 then 1 else 0)
        && (At(old(View()), SlotOf(n, cur / BSIZE)) != 0 ==> maps == {})
        && (ind0 != 0 || cur / BSIZE < NDIRECT ==> ind == ind0)
        && (addr != 0 && cur / BSIZE >= NDIRECT ==> ind != 0)
    {
      hide IsTrace, Owned, At, Writing, Grew, UsedSet;
      WritingShape(s0, View(), n, bytes);
      addr, maps := Bmap(n, cur / BSIZE);
      GrewIndirect(old(View()), View(), n, cur / BSIZE);
      WritingGrows(s0, old(View()), View(), n, bytes);
      if addr != 0 && readable {
        ChunkBlock(s0, View(), n, bytes, cur / BSIZE);
        WritingPatch(s0, View(), n, bytes, cur, d);
        LogWrite(addr, Patch(blocks[addr], cur % BSIZE, d));
      }
    }

    /** Write src to file n at offset off, which may extend the file but not leave a gap.
        Returns the number of bytes written, short only when the disk is full or one of the copies
        of src, of which the first `copies` succeed, fails; or -1. */
    method Writei(n: nat, off: nat, src: seq<byte>, copies: nat) returns (r: int)
      requires Good(View()) && n in inodes && off < WORD_LIMIT && |src| < WORD_LIMIT
      requires Traced()
      modifies `blocks, `inodes, `owner, `logged, `writes
      ensures Traced()
      ensures r == -1 <==> off > |Content(old(View()), n)| || off + |src| > MAXFILE * BSIZE
      ensures r == -1 ==> View() == old(View()) && logged == old(logged)
      ensures r != -1 ==> 0 <= r <= |src|
      ensures r != -1 ==> Rewrites(old(View()), View(), n, Splice(Content(old(View()), n), off, src[..r]))
      ensures 0 <= r < |src| ==> Full() || Span(off, r) == copies
      ensures r != -1 ==> Span(off, r) <= copies
      ensures |logged - old(logged)| <= Budget(off, |src|)
    {
      hide IsTrace, Owned, At, Writing, UsedSet, Rewrites, Finished, Allocated, ByteAt, Span;
      if off > inodes[n].size || off + |src| >= WORD_LIMIT {
        return -1;
      }
      if off + |src| > MAXFILE * BSIZE {
        return -1;
      }
      ghost var s0 := View();
      var tot, cost := WriteLoop(n, off, src, copies);
      ghost var s, l, bytes := View(), logged, Splice(Content(s0, n), off, src[..tot]);
      WritingShape(s0, s, n, bytes);
      if off + tot > inodes[n].size {
        inodes := inodes[n := inodes[n].(size := off + tot)];
      }
      WritingFinishes(s0, s, n, bytes);
      FinishedResize(s, n, |bytes|);
      assert View() == s.(inodes := s.inodes[n := s.inodes[n].(size := |bytes|)]);
      Iupdate(n);
      FinishedUsed(s, n, |bytes|);
      ChargeTotal(cost, off, |src|, old(logged), l, IBlock(lay, n));
      return tot;
    }

    /** The copying loop of writei. */
    method WriteLoop(n: nat, off: nat, src: seq<byte>, copies: nat) returns (tot: nat, ghost cost: Cost)
      requires Good(View()) && n in inodes && off <= inodes[n].size && off + |src| <= MAXFILE * BSIZE
      requires Traced()
      modifies `blocks, `inodes, `owner, `logged, `writes
      ensures Traced()
      ensures tot <= |src| && Writing(old(View()), View(), n, Splice(Content(old(View()), n), off, src[..tot]))
      ensures Shape(View()) && (tot < |src| ==> Full() || Span(off, tot) == copies) && Span(off, tot) <= copies
      ensures Bounded(cost, off, |src|, old(logged), logged)
    {
      hide IsTrace, Owned, At, Writing, UsedSet, Allocated, ByteAt, Shape, Bounded, Charged, Span, ChunkAt, Aligned;
      hide Charge, Iteration;
      ghost var s0 := View();
      ghost var c := Content(s0, n);
      WritingStarts(s0, n);
      assert Splice(c, off, src[..0]) == c;
      cost := Cost(0, {}, {}, {});
      AddrsLength(s0, n);
      ChargeStart(off, |src|, inodes[n], logged);
      tot := 0;
      var left := copies;
      SpanStep(off, 0, 0);
      NotStarted(off, |src|);
      while tot < |src|
        invariant Span(off, tot) == copies - left && Aligned(off, tot, |src|)
        invariant Traced() && tot <= |src| && Writing(s0, View(), n, Splice(c, off, src[..tot]))
        invariant n in s0.inodes && n in inodes && |s0.inodes[n].addrs| == |inodes[n].addrs| == NDIRECT + 1
        invariant Shape(View())
        invariant Charged(cost, off, tot, |src|, s0.inodes[n], inodes[n], old(logged), logged)
        invariant Bounded(cost, off, |src|, old(logged), logged)
        decreases |src| - tot
      {
        var cur := off + tot;
        var m := ChunkAt(off, tot, |src|);
        ChunkFits(off, tot, |src|);
        ghost var bytes := Splice(c, off, src[..tot]);
        ghost var ip, l := inodes[n], logged;
        FirstBlockThere(s0, View(), n, off, tot, bytes);
        var addr, maps := WriteChunk(n, cur, src[tot..tot + m], left > 0, s0, bytes);
        AddrsLength(View(), n);
        ChunkIteration(off, tot, ip, inodes[n], l, logged, addr, maps);
        ChargeStep(cost, off, tot, |src|, m, s0.inodes[n], ip, inodes[n], old(logged), l, logged, addr, maps);
        cost := Charge(cost, cur / BSIZE, addr, maps, inodes[n].addrs[NDIRECT]);
        if addr == 0 || left == 0 {
          break;
        }
        left := left - 1;
        SpliceSplice(c, off, src[..tot], src[tot..tot + m]);
        assert src[..tot] + src[tot..tot + m] == src[..tot + m];
        tot := tot + m;
      }
    }

    /** Discard the contents of file n: exactly its blocks become free. */
    method Itrunc(n: nat)
      requires Good(View()) && n in inodes
      requires Traced()
      modifies `blocks, `inodes, `owner, `logged, `writes
      ensures Traced()
      ensures logged == old(logged) + Maps(lay, Held(old(View()), n, NDIRECT + 1, NINDIRECT)) + {IBlock(lay, n)}
      ensures Rewrites(old(View()), View(), n, [])
      ensures owner == old(owner) - Held(old(View()), n, NDIRECT + 1, NINDIRECT)
      ensures forall b: nat :: b < lay.size ==>
        Used(lay, blocks, b) == (Used(lay, old(blocks), b) && !(b in old(owner) && old(owner)[b].inum == n))
    {
      hide IsTrace, Maps, Owned, At, Held, UsedSet, Rewrites, Finished, Truncates, EntryAt;
      ghost var s0 := View();
      FreeAll(n);
      inodes := inodes[n := inodes[n].(size := 0)];
      owner := owner - Held(s0, n, NDIRECT + 1, NINDIRECT);
      ghost var s := View();
      assert inodes == s0.inodes[n := EmptyInode()];
      TruncatesNow(s0, s, n);
      TruncatesRewrites(s0, s, n);
      Iupdate(n);
      FinishedUsed(s, n, 0);
      FreedExactly(s0, View(), n);
    }

    /** Free every block of file n and forget their numbers. */
    method FreeAll(n: nat)
      requires Shape(View()) && Owned(View()) && n in inodes
      requires Traced()
      modifies `blocks, `inodes, `logged, `writes
      ensures Traced() && logged == old(logged) + Maps(lay, Held(old(View()), n, NDIRECT + 1, NINDIRECT))
      ensures Freeing(old(View()), Held(old(View()), n, NDIRECT + 1, NINDIRECT))
      ensures inodes == old(inodes)[n := EmptyInode().(size := old(inodes)[n].size)]
    {
      hide IsTrace, Maps, Owned, At, Held, UsedSet, EntryAt;
      ghost var s0 := View();
      FreeDirect(n);
      FreeIndirect(n, s0, old(logged));
      assert |inodes[n].addrs| == NDIRECT + 1 && inodes[n].size == s0.inodes[n].size;
      assert inodes[n].addrs == EmptyInode().addrs;
    }

    /** While blocks are being freed, only the free map changes; `gone` are the freed blocks. */
    ghost predicate Freeing(s0: Fs, gone: set<nat>)
      requires Shape(s0)
      reads this
    {
      && lay == s0.lay && |blocks| == |s0.blocks| && owner == s0.owner
      && (forall b :: 0 <= b < lay.size && (b < lay.bmapstart || lay.meta <= b) ==> blocks[b] == s0.blocks[b])
      && UsedSet(lay, blocks) == UsedSet(lay, s0.blocks) - gone
    }

    lemma NothingFreed(s0: Fs, n: nat)
      requires Shape(s0) && s0 == View() && n in inodes
      ensures Freeing(s0, {}) && Zeroed(inodes, inodes, n, 0)
    {
      hide UsedSet;
    }

    /** Free one block that has not been freed yet. */
    method FreeOne(b: nat, ghost s0: Fs, ghost gone: set<nat>)
      requires Shape(s0) && Owned(s0) && Freeing(s0, gone) && b in s0.owner && b !in gone
      requires Traced()
      modifies `blocks, `logged, `writes
      ensures Traced() && b < lay.size && logged == old(logged) + {BBlock(lay, b)}
      ensures Maps(lay, gone + {b}) == Maps(lay, gone) + {BBlock(lay, b)}
      ensures Freeing(s0, gone + {b})
    {
      OwnedIsUsed(s0, b);
      assert b in UsedSet(lay, blocks);
      UsedFree(lay, blocks, b);
      MapsMore(lay, gone, b);
      hide IsTrace, Maps, Owned, ClearBit;
      Bfree(b);
    }

    method FreeDirect(n: nat)
      requires Shape(View()) && Owned(View()) && n in inodes
      requires Traced()
      modifies `blocks, `inodes, `logged, `writes
      ensures Traced() && logged == old(logged) + Maps(lay, Held(old(View()), n, NDIRECT, 0))
      ensures Freeing(old(View()), Held(old(View()), n, NDIRECT, 0))
      ensures Zeroed(old(inodes), inodes, n, NDIRECT)
    {
      hide IsTrace, Owned, At, UsedSet, Held, Maps, Freeing, Zeroed, Shape;
      ghost var s0 := View();
      NoneHeld(s0, n);
      NothingFreed(s0, n);
      assert logged == logged + {};
      var i := 0;
      while i < NDIRECT
        invariant i <= NDIRECT && Traced() && logged == old(logged) + Maps(lay, Held(s0, n, i, 0))
        invariant Freeing(s0, Held(s0, n, i, 0)) && Zeroed(s0.inodes, inodes, n, i)
      {
        FreePointer(n, i, s0, old(logged));
        i := i + 1;
      }
    }

    /** The block of one direct pointer, if it has one. */
    method FreePointer(n: nat, i: nat, ghost s0: Fs, ghost l0: set<nat>)
      requires Shape(s0) && Owned(s0) && n in s0.inodes && i < NDIRECT && Zeroed(s0.inodes, inodes, n, i)
      requires Freeing(s0, Held(s0, n, i, 0)) && Traced() && logged == l0 + Maps(lay, Held(s0, n, i, 0))
      modifies `blocks, `inodes, `logged, `writes
      ensures Zeroed(s0.inodes, inodes, n, i + 1)
      ensures Freeing(s0, Held(s0, n, i + 1, 0)) && Traced() && logged == l0 + Maps(lay, Held(s0, n, i + 1, 0))
    {
      hide IsTrace, Owned, At, UsedSet, Held, Maps;
      HeldPointer(s0, n, i, 0);
      var b := inodes[n].addrs[i];
      if b != 0 {
        FreeOne(b, s0, Held(s0, n, i, 0));
        inodes := inodes[n := inodes[n].(addrs := inodes[n].addrs[i := 0])];
      }
    }

    method FreeIndirect(n: nat, ghost s0: Fs, ghost l0: set<nat>)
      requires Shape(s0) && Owned(s0) && n in s0.inodes && Freeing(s0, Held(s0, n, NDIRECT, 0))
      requires n in inodes && |inodes[n].addrs| == NDIRECT + 1
      requires inodes[n].addrs[NDIRECT] == s0.inodes[n].addrs[NDIRECT]
      requires Traced() && logged == l0 + Maps(lay, Held(s0, n, NDIRECT, 0))
      modifies `blocks, `inodes, `logged, `writes
      ensures Traced() && logged == l0 + Maps(lay, Held(s0, n, NDIRECT + 1, NINDIRECT))
      ensures Freeing(s0, Held(s0, n, NDIRECT + 1, NINDIRECT))
      ensures inodes == old(inodes)[n := old(inodes)[n].(addrs := old(inodes)[n].addrs[NDIRECT := 0])]
    {
      hide IsTrace, Maps, Owned, At, UsedSet, Held, GetWord;
      var p := inodes[n].addrs[NDIRECT];
      if p == 0 {
        HeldNoIndirect(s0, n, NINDIRECT);
        assert inodes[n].addrs == inodes[n].addrs[NDIRECT := 0];
        assert inodes == inodes[n := inodes[n].(addrs := inodes[n].addrs[NDIRECT := 0])];
        return;
      }
      IndirectOwned(s0, n);
      var j := 0;
      while j < NINDIRECT
        invariant Traced() && logged == l0 + Maps(lay, Held(s0, n, NDIRECT, j))
        invariant j <= NINDIRECT && Freeing(s0, Held(s0, n, NDIRECT, j)) && inodes == old(inodes)
      {
        HeldEntry(s0, n, NDIRECT, j);
        var b := GetWord(blocks[p], 4 * j);
        assert b == EntryAt(s0.blocks, s0.inodes[n], j);
        if b != 0 {
          FreeOne(b, s0, Held(s0, n, NDIRECT, j));
        }
        j := j + 1;
      }
      HeldPointer(s0, n, NDIRECT, NINDIRECT);
      FreeOne(p, s0, Held(s0, n, NDIRECT, NINDIRECT));
      inodes := inodes[n := inodes[n].(addrs := inodes[n].addrs[NDIRECT := 0])];
    }
  }

  /** The bit of a block within its free-map block. */
  lemma UsedAt(l: Layout, blocks: seq<Block>, k: nat, bi: nat)
    requires ValidLayout(l) && |blocks| == l.size && bi < BPB && k * BPB + bi < l.size
    ensures BBlock(l, k * BPB) < l.size
    ensures Used(l, blocks, k * BPB + bi) == TestBit(blocks[BBlock(l, k * BPB)], bi)
  {
    hide TestBit, BBlock;
    BBlockOf(l, k, 0);
    BBlockOf(l, k, bi);
  }

  /** The first i pointers of inode n are zero, and nothing else has changed. */
  ghost predicate Zeroed(inodes: map<nat, Inode>, inodes': map<nat, Inode>, n: nat, i: nat) {
    && inodes'.Keys == inodes.Keys && n in inodes
    && (forall m :: m in inodes && m != n ==> inodes'[m] == inodes[m])
    && |inodes[n].addrs| == |inodes'[n].addrs| == NDIRECT + 1 && inodes'[n].size == inodes[n].size
    && (forall k :: 0 <= k <= NDIRECT ==> inodes'[n].addrs[k] == if k < i then 0 else inodes[n].addrs[k])
  }

  lemma NoneHeld(s: Fs, n: nat)
    requires Shape(s)
    ensures ValidLayout(s.lay) && Held(s, n, 0, 0) == {} && Maps(s.lay, {}) == {}
  {
  }

  /** The free-map blocks that hold the bits of some blocks. */
  ghost function Maps(l: Layout, bs: set<nat>): (r: set<nat>)
    requires ValidLayout(l)
    ensures r <= Range(l.bmapstart, l.meta)
  {
    set b | b in bs && b < l.size :: BBlock(l, b)
  }

  lemma MapsMore(l: Layout, bs: set<nat>, b: nat)
    requires ValidLayout(l) && b < l.size
    ensures Maps(l, bs + {b}) == Maps(l, bs) + {BBlock(l, b)}
  {
    hide BBlock;
  }

  lemma OwnedIsUsed(s: Fs, b: nat)
    requires Shape(s) && Owned(s) && b in s.owner
    ensures s.lay.meta <= b < s.lay.size && b in UsedSet(s.lay, s.blocks)
  {
    hide UsedSet, At;
    assert HeldRight(s, b);
  }

  lemma TruncatesNow(s0: Fs, s: Fs, n: nat)
    requires Shape(s0) && Owned(s0) && n in s0.inodes && s.lay == s0.lay && |s.blocks| == |s0.blocks|
    requires s.inodes == s0.inodes[n := EmptyInode()]
    requires s.owner == s0.owner - Held(s0, n, NDIRECT + 1, NINDIRECT)
    requires forall b :: 0 <= b < s.lay.size && (b < s.lay.bmapstart || s.lay.meta <= b) ==> s.blocks[b] == s0.blocks[b]
    requires UsedSet(s.lay, s.blocks) == UsedSet(s.lay, s0.blocks) - Held(s0, n, NDIRECT + 1, NINDIRECT)
    ensures Truncates(s0, s, n)
  {
  }

  /** Truncation empties the file and leaves every other one alone. */
  lemma TruncatesRewrites(s0: Fs, s: Fs, n: nat)
    requires Good(s0) && Truncates(s0, s, n)
    ensures Shape(s) && n in s.inodes && s.inodes[n].size == 0 && Rewrites(s0, Finished(s, n, 0), n, [])
  {
    hide Owned, At, Held, UsedSet, Allocated, Bytes, Finished, Stored;
    TruncatesOwned(s0, s, n);
    TruncatesBytes(s0, s, n);
    FinishedKeeps(s, n, 0);
    FinishedInodes(s, n, 0);
    FinishedStored(s, n, 0, n);
    var s' := Finished(s, n, 0);
    NothingAllocated(s', n);
    forall m | m in s0.inodes && m != n
      ensures Allocated(s', m, s0.inodes[m].size) && Bytes(s', m, s0.inodes[m].size) == Content(s0, m)
      ensures Stored(s', m) == Stored(s0, m)
    {
      FinishedStored(s, n, 0, m);
      TruncatesStored(s0, s, n, m);
    }
  }

  lemma NothingAllocated(s: Fs, n: nat)
    requires Shape(s) && Owned(s)
    ensures Allocated(s, n, 0) && Bytes(s, n, 0) == []
  {
    hide At, Owned;
  }

  lemma TruncatesStored(s0: Fs, s: Fs, n: nat, m: nat)
    requires Truncates(s0, s, n) && Shape(s) && m in s0.inodes && m != n
    ensures m in s.inodes && Stored(s, m) == Stored(s0, m) && s.inodes[m] == s0.inodes[m]
  {
    hide Owned, HoldsInode, Held, UsedSet;
  }

  lemma TruncatesBytes(s0: Fs, s: Fs, n: nat)
    requires Good(s0) && Truncates(s0, s, n) && Shape(s) && Owned(s)
    requires forall slot :: At(s, slot) == if slot.inum == n then 0 else At(s0, slot)
    ensures forall m :: m in s0.inodes && m != n ==>
      Allocated(s, m, s0.inodes[m].size) && Bytes(s, m, s0.inodes[m].size) == Content(s0, m)
  {
    hide Owned, At, Held, UsedSet, Bytes;
    forall m | m in s0.inodes && m != n
      ensures Allocated(s, m, s0.inodes[m].size) && Bytes(s, m, s0.inodes[m].size) == Content(s0, m)
    {
      forall bn: nat | bn < MAXFILE && At(s0, SlotOf(m, bn)) != 0
        ensures At(s, SlotOf(m, bn)) == At(s0, SlotOf(m, bn)) && DataBlock(s, m, bn) == DataBlock(s0, m, bn)
      {
        DataOwned(s0, m, bn);
      }
      SameBytes(s0, s, m, s0.inodes[m].size);
    }
  }

  lemma FreedExactly(s0: Fs, s: Fs, n: nat)
    requires Shape(s0) && Owned(s0) && s.lay == s0.lay && |s.blocks| == |s0.blocks|
    requires UsedSet(s.lay, s.blocks) == UsedSet(s.lay, s0.blocks) - Held(s0, n, NDIRECT + 1, NINDIRECT)
    ensures forall b: nat :: b < s.lay.size ==>
      Used(s.lay, s.blocks, b) == (Used(s.lay, s0.blocks, b) && !(b in s0.owner && s0.owner[b].inum == n))
  {
    hide TestBit, Held;
    AllHeld(s0, n);
    forall b: nat | b < s.lay.size
      ensures Used(s.lay, s.blocks, b) == (Used(s.lay, s0.blocks, b) && !(b in s0.owner && s0.owner[b].inum == n))
    {
      assert b in UsedSet(s.lay, s.blocks) <==> Used(s.lay, s.blocks, b);
      assert b in UsedSet(s.lay, s0.blocks) <==> Used(s.lay, s0.blocks, b);
    }
  }

  lemma AddrsLength(s: Fs, n: nat)
    requires Shape(s) && n in s.inodes
    ensures |s.inodes[n].addrs| == NDIRECT + 1 && ValidLayout(s.lay) && |s.blocks| == s.lay.size
  {
  }

  // ---------------------------------------------------------------- the log budget of a write

  /** The number of blocks that cnt bytes at offset off touch. */
  function Span(off: nat, cnt: nat): nat {
    if cnt == 0 then 0 else (off + cnt - 1) / BSIZE - off / BSIZE + 1
  }

  /** They are the blocks that hold one of the bytes. */
  lemma SpanIs(off: nat, cnt: nat, b: nat)
    ensures off / BSIZE <= b < off / BSIZE + Span(off, cnt) <==> exists k: nat :: off <= k < off + cnt && k / BSIZE == b
  {
    if off / BSIZE <= b < off / BSIZE + Span(off, cnt) {
      var k := if off < b * BSIZE then b * BSIZE else off;
      assert off <= k < off + cnt && k / BSIZE == b;
    }
  }

  lemma ReadMore(c: seq<byte>, off: nat, tot: nat, m: seq<byte>, k: nat)
    requires off + tot + |m| <= |c| && m == c[off + tot..off + tot + |m|] && k <= |m|
    ensures c[off..off + tot] + m[..k] == c[off..off + tot + k] && m[..|m|] == m
  {
    assert m[..k] == c[off + tot..off + tot + k];
    assert c[off..off + tot + k] == c[off..off + tot] + c[off + tot..off + tot + k];
  }

  /** How far a read of `all` bytes got whose copy after `copies` ones failed at `part` bytes. */
  predicate CutShort(off: nat, all: nat, got: nat, copies: nat, part: nat) {
    var whole := if copies == 0 then 0 else (off / BSIZE + copies) * BSIZE - off;
    && whole <= got <= whole + part && (part > 0 ==> got > whole) && got <= all
    && (got < whole + part ==> got == all || (off + got) % BSIZE == 0)
  }

  /** After k chunks a read of `all` bytes goes on at the start of a block. */
  predicate Resumes(off: nat, tot: nat, all: nat, k: nat) {
    (k == 0 <==> tot == 0) && (0 < tot < all ==> off + tot == (off / BSIZE + k) * BSIZE)
  }

  lemma NotResumed(off: nat, all: nat)
    ensures Resumes(off, 0, all, 0) && Span(off, 0) == 0
  {
  }

  lemma NextStart(off: nat, tot: nat, all: nat, m: nat, k: nat)
    requires Resumes(off, tot, all, k) && 0 < m <= all - tot && (off + tot) % BSIZE + m <= BSIZE
    requires tot + m == all || (off + tot + m) % BSIZE == 0
    ensures Resumes(off, tot + m, all, k + 1) && Span(off, tot + m) == Span(off, tot) + 1
  {
    SpanStep(off, tot, m);
  }

  lemma CutAt(off: nat, tot: nat, all: nat, m: nat, k: nat, part: nat)
    requires Resumes(off, tot, all, k) && 0 < m <= all - tot
    requires tot + m == all || (off + tot + m) % BSIZE == 0
    ensures CutShort(off, all, tot + if part < m then part else m, k, part)
  {
  }

  /** The next chunk: to the end of the block or of the data. */
  function ChunkAt(off: nat, tot: nat, cnt: nat): nat
    requires tot < cnt
  {
    var room := BSIZE - (off + tot) % BSIZE;
    if cnt - tot < room then cnt - tot else room
  }

  /** Every chunk but the first starts a block. */
  predicate Aligned(off: nat, tot: nat, cnt: nat) { 0 < tot < cnt ==> (off + tot) % BSIZE == 0 }

  lemma NotStarted(off: nat, cnt: nat)
    ensures Aligned(off, 0, cnt)
  {
  }

  lemma ChunkFits(off: nat, tot: nat, cnt: nat)
    requires tot < cnt && Aligned(off, tot, cnt)
    ensures var m := ChunkAt(off, tot, cnt);
      && 0 < m <= BSIZE - (off + tot) % BSIZE && tot + m <= cnt && Aligned(off, tot + m, cnt)
      && Span(off, tot + m) == Span(off, tot) + 1
  {
    var m := ChunkAt(off, tot, cnt);
    if tot + m < cnt {
      assert off + tot + m == ((off + tot) / BSIZE + 1) * BSIZE;
    }
    SpanStep(off, tot, m);
  }

  /** A chunk that stays within its block adds one to the span. */
  lemma SpanStep(off: nat, tot: nat, m: nat)
    requires m > 0 ==> (off + tot) % BSIZE + m <= BSIZE && (tot > 0 ==> (off + tot) % BSIZE == 0)
    ensures Span(off, 0) == 0 && (m > 0 ==> Span(off, tot + m) == Span(off, tot) + 1)
  {
    if m > 0 {
      assert (off + tot + m - 1) / BSIZE == (off + tot) / BSIZE;
      if tot > 0 {
        assert (off + tot - 1) / BSIZE == (off + tot) / BSIZE - 1;
      }
    }
  }

  lemma SpanGrows(off: nat, tot: nat, len: nat)
    requires tot <= len
    ensures Span(off, tot) <= Span(off, len)
  {
    if tot > 0 {
      assert (off + tot - 1) / BSIZE <= (off + len - 1) / BSIZE;
    }
  }

  /** At most this many blocks are logged: the data blocks, one free-map block for each data
      block that may be new and one for the indirect block, the indirect block, the inode. */
  function Budget(off: nat, cnt: nat): nat {
    if cnt == 0 then 1 else 2 * Span(off, cnt) + 3 - (if off % BSIZE != 0 then 1 else 0)
  }

  /** What the iterations so far have logged. */
  datatype Cost = Cost(count: nat, data: set<nat>, maps: set<nat>, ind: set<nat>)

  /** A write that starts inside a block finds that block allocated, so it cannot be new. */
  function Spared(count: nat, off: nat): nat {
    if count > 0 && off % BSIZE != 0 then 1 else 0
  }

  ghost predicate Charged(k: Cost, off: nat, tot: nat, cnt: nat, ip0: Inode, ip: Inode, l0: set<nat>, l: set<nat>)
    requires |ip0.addrs| == |ip.addrs| == NDIRECT + 1
  {
    && l <= l0 + k.data + k.maps + k.ind
    && |k.data| <= k.count && |k.ind| <= 1
    && |k.maps| <= k.count - Spared(k.count, off)
                   + (if ip0.addrs[NDIRECT] == 0 && ip.addrs[NDIRECT] != 0 then 1 else 0)
    && (ip0.addrs[NDIRECT] != 0 ==> ip.addrs[NDIRECT] != 0)
    && (tot < cnt && k.count > 0 ==> off + tot == (off / BSIZE + k.count) * BSIZE)
    && (k.count == 0 <==> tot == 0)
    && (k.count > 0 ==> cnt > 0 && (off / BSIZE + k.count - 1) * BSIZE < off + cnt)
    && (k.ind == {} || (k.ind == {ip.addrs[NDIRECT]} && ip.addrs[NDIRECT] != 0
                        && (tot < cnt ==> NDIRECT <= (off + tot) / BSIZE)))
  }

  ghost predicate Bounded(k: Cost, off: nat, cnt: nat, l0: set<nat>, l: set<nat>) {
    && l <= l0 + k.data + k.maps + k.ind
    && (cnt == 0 ==> k == Cost(0, {}, {}, {}))
    && (cnt > 0 ==> |k.data| <= Span(off, cnt) && |k.ind| <= 1)
    && (cnt > 0 ==> |k.maps| <= Span(off, cnt) + 1 - (if off % BSIZE != 0 then 1 else 0))
  }

  lemma ChargeStart(off: nat, cnt: nat, ip: Inode, l: set<nat>)
    requires |ip.addrs| == NDIRECT + 1
    ensures Charged(Cost(0, {}, {}, {}), off, 0, cnt, ip, ip, l, l) && Bounded(Cost(0, {}, {}, {}), off, cnt, l, l)
  {
  }

  /** One more iteration: block bn of the file is addr, and the free-map blocks are maps. */
  function Charge(k: Cost, bn: nat, addr: nat, maps: set<nat>, ind: nat): Cost {
    Cost(k.count + 1, k.data + {addr}, k.maps + maps, if bn < NDIRECT then k.ind else {ind})
  }

  lemma ChunkIteration(off: nat, tot: nat, ip: Inode, ip': Inode, l: set<nat>, l': set<nat>, addr: nat, maps: set<nat>)
    requires |ip.addrs| == |ip'.addrs| == NDIRECT + 1
    requires var bn, ind, ind' := (off + tot) / BSIZE, ip.addrs[NDIRECT], ip'.addrs[NDIRECT];
      && l' <= l + maps + {addr} + (if bn < NDIRECT then {} else {ind'})
      && |maps| <= 1 + (if ind == 0 && ind' != 0 then 1 else 0)
      && (tot == 0 && off % BSIZE != 0 ==> maps == {})
      && (ind != 0 || bn < NDIRECT ==> ind' == ind)
      && (addr != 0 && bn >= NDIRECT ==> ind' != 0)
    ensures Iteration(off, tot, ip, ip', l, l', addr, maps)
  {
  }

  /** What one iteration logs: free-map blocks, the data block addr and the indirect block. */
  ghost predicate Iteration(off: nat, tot: nat, ip: Inode, ip': Inode, l: set<nat>, l': set<nat>,
                            addr: nat, maps: set<nat>)
    requires |ip.addrs| == |ip'.addrs| == NDIRECT + 1
  {
    var bn, ind, ind' := (off + tot) / BSIZE, ip.addrs[NDIRECT], ip'.addrs[NDIRECT];
    && l' <= l + maps + {addr} + (if bn < NDIRECT then {} else {ind'})
    && |maps| <= 1 + (if ind == 0 && ind' != 0 then 1 else 0)
    && (tot == 0 && off % BSIZE != 0 ==> maps == {})
    && (ind != 0 || bn < NDIRECT ==> ind' == ind)
    && (addr != 0 && bn >= NDIRECT ==> ind' != 0)
  }

  lemma ChargeStep(k: Cost, off: nat, tot: nat, cnt: nat, m: nat, ip0: Inode, ip: Inode, ip': Inode,
                   l0: set<nat>, l: set<nat>, l': set<nat>, addr: nat, maps: set<nat>)
    requires |ip0.addrs| == |ip.addrs| == |ip'.addrs| == NDIRECT + 1
    requires Charged(k, off, tot, cnt, ip0, ip, l0, l) && tot < cnt
    requires m == ChunkAt(off, tot, cnt)
    requires Iteration(off, tot, ip, ip', l, l', addr, maps)
    ensures var k' := Charge(k, (off + tot) / BSIZE, addr, maps, ip'.addrs[NDIRECT]);
      Bounded(k', off, cnt, l0, l') && (addr != 0 ==> Charged(k', off, tot + m, cnt, ip0, ip', l0, l'))
  {
    hide Span, ChunkAt, Charged, Bounded, Iteration, Charge;
    ChargeBounded(k, off, tot, cnt, ip0, ip, ip', l0, l, l', addr, maps);
    if addr != 0 {
      ChargeNext(k, off, tot, cnt, m, ip0, ip, ip', l0, l, l', addr, maps);
    }
  }

  lemma ChargeBounded(k: Cost, off: nat, tot: nat, cnt: nat, ip0: Inode, ip: Inode, ip': Inode,
                      l0: set<nat>, l: set<nat>, l': set<nat>, addr: nat, maps: set<nat>)
    requires |ip0.addrs| == |ip.addrs| == |ip'.addrs| == NDIRECT + 1
    requires Charged(k, off, tot, cnt, ip0, ip, l0, l) && tot < cnt
    requires Iteration(off, tot, ip, ip', l, l', addr, maps)
    ensures Bounded(Charge(k, (off + tot) / BSIZE, addr, maps, ip'.addrs[NDIRECT]), off, cnt, l0, l')
  {
    SameBlockCount(k, off, tot, cnt, ip0, ip, l0, l);
    NextBlock(off, tot, cnt, ChunkAt(off, tot, cnt), k.count);
    SpanCounts(off, cnt, k.count);
    hide Span, ChunkAt;
    ChargeSizes(k, addr, maps);
  }

  lemma ChargeNext(k: Cost, off: nat, tot: nat, cnt: nat, m: nat, ip0: Inode, ip: Inode, ip': Inode,
                   l0: set<nat>, l: set<nat>, l': set<nat>, addr: nat, maps: set<nat>)
    requires |ip0.addrs| == |ip.addrs| == |ip'.addrs| == NDIRECT + 1
    requires Charged(k, off, tot, cnt, ip0, ip, l0, l) && tot < cnt && m == ChunkAt(off, tot, cnt)
    requires Iteration(off, tot, ip, ip', l, l', addr, maps) && addr != 0
    ensures Charged(Charge(k, (off + tot) / BSIZE, addr, maps, ip'.addrs[NDIRECT]), off, tot + m, cnt, ip0, ip', l0, l')
  {
    SameBlockCount(k, off, tot, cnt, ip0, ip, l0, l);
    NextBlock(off, tot, cnt, m, k.count);
    hide Span, ChunkAt;
    ChargeSizes(k, addr, maps);
  }

  lemma SameBlockCount(k: Cost, off: nat, tot: nat, cnt: nat, ip0: Inode, ip: Inode, l0: set<nat>, l: set<nat>)
    requires |ip0.addrs| == |ip.addrs| == NDIRECT + 1 && Charged(k, off, tot, cnt, ip0, ip, l0, l) && tot < cnt
    ensures (off + tot) / BSIZE == off / BSIZE + k.count
  {
  }

  lemma ChargeSizes(k: Cost, addr: nat, maps: set<nat>)
    ensures |k.maps + maps| <= |k.maps| + |maps| && |k.data + {addr}| <= |k.data| + 1
  {
  }

  lemma SpanCounts(off: nat, cnt: nat, i: nat)
    requires cnt > 0 && (off / BSIZE + i) * BSIZE < off + cnt
    ensures i + 1 <= Span(off, cnt)
  {
  }

  lemma NextBlock(off: nat, tot: nat, cnt: nat, m: nat, i: nat)
    requires tot < cnt && (off + tot) / BSIZE == off / BSIZE + i
    requires m == ChunkAt(off, tot, cnt)
    ensures (off / BSIZE + i) * BSIZE < off + cnt && m > 0
    ensures tot + m < cnt ==>
      off + tot + m == (off / BSIZE + i + 1) * BSIZE && (off + tot) / BSIZE <= (off + tot + m) / BSIZE
  {
  }

  lemma ChargeTotal(k: Cost, off: nat, cnt: nat, l0: set<nat>, l: set<nat>, ib: nat)
    requires Bounded(k, off, cnt, l0, l)
    ensures |l + {ib} - l0| <= Budget(off, cnt)
  {
    SubsetSize(l + {ib} - l0, k.data + k.maps + k.ind + {ib});
    assert |k.data + k.maps + k.ind + {ib}| <= |k.data| + |k.maps| + |k.ind| + 1;
  }

  lemma FirstBlockThere(s0: Fs, s: Fs, n: nat, off: nat, tot: nat, bytes: seq<byte>)
    requires Good(s0) && Writing(s0, s, n, bytes) && off <= s0.inodes[n].size
    ensures Shape(s) && (tot == 0 && off % BSIZE != 0 ==> At(s, SlotOf(n, (off + tot) / BSIZE)) != 0)
  {
    hide Owned, At, Writing;
    WritingShape(s0, s, n, bytes);
    if tot == 0 && off % BSIZE != 0 {
      BlockThere(s0, n, off - 1);
      assert (off - 1) / BSIZE == off / BSIZE;
    }
  }

  lemma ChunkBlock(s0: Fs, s: Fs, n: nat, bytes: seq<byte>, bn: nat)
    requires Writing(s0, s, n, bytes) && Shape(s) && bn < MAXFILE && At(s, SlotOf(n, bn)) != 0
    ensures s.lay.meta <= At(s, SlotOf(n, bn)) < s.lay.size && s.lay.inodestart <= s.lay.meta
  {
    hide Owned, At, Writing;
    WritingShape(s0, s, n, bytes);
    DataOwned(s, n, bn);
  }

  lemma FinishedResize(s: Fs, n: nat, size: nat)
    requires Shape(s) && n in s.inodes && size <= MAXFILE * BSIZE
    ensures var s1 := s.(inodes := s.inodes[n := s.inodes[n].(size := size)]);
      Shape(s1) && Finished(s1, n, size) == Finished(s, n, size)
  {
  }

  lemma FinishedUsed(s: Fs, n: nat, size: nat)
    requires Shape(s) && n in s.inodes && size <= MAXFILE * BSIZE
    ensures |Finished(s, n, size).blocks| == |s.blocks|
    ensures UsedSet(s.lay, Finished(s, n, size).blocks) == UsedSet(s.lay, s.blocks)
  {
    hide UsedSet, PutInode;
    var ib := IBlock(s.lay, n);
    UsedFrame(s.lay, s.blocks, ib, PutInode(s.blocks[ib], n, s.inodes[n].(size := size), NDIRECT + 1));
  }

  lemma WritingShape(s0: Fs, s: Fs, n: nat, bytes: seq<byte>)
    requires Writing(s0, s, n, bytes)
    ensures Shape(s0) && Owned(s0) && Shape(s) && Owned(s) && n in s.inodes && n in s0.inodes && s.lay == s0.lay
    ensures s.inodes[n].size == s0.inodes[n].size && |bytes| <= MAXFILE * BSIZE
    ensures forall slot :: At(s0, slot) != 0 ==> At(s, slot) == At(s0, slot)
  {
    hide Owned, At;
  }

  lemma GrewIndirect(s: Fs, s': Fs, n: nat, bn: nat)
    requires Grew(s, s', n) && n in s.inodes && bn < MAXFILE
    ensures Shape(s) && Shape(s') && n in s'.inodes
    ensures s.inodes[n].addrs[NDIRECT] != 0 ==> s'.inodes[n].addrs[NDIRECT] == s.inodes[n].addrs[NDIRECT]
    ensures bn >= NDIRECT && At(s', SlotOf(n, bn)) != 0 ==> s'.inodes[n].addrs[NDIRECT] != 0
  {
    hide Owned;
    assert At(s, Pointer(n, NDIRECT)) == s.inodes[n].addrs[NDIRECT];
    assert At(s', Pointer(n, NDIRECT)) == s'.inodes[n].addrs[NDIRECT];
  }

  /** No hole below the size. */
  lemma BlockThere(s: Fs, n: nat, k: nat)
    requires Good(s) && n in s.inodes && k < s.inodes[n].size
    ensures k / BSIZE < MAXFILE && At(s, SlotOf(n, k / BSIZE)) != 0
    ensures At(s, SlotOf(n, k / BSIZE)) < s.lay.size
  {
    hide Owned, At;
    assert k / BSIZE * BSIZE <= k;
    DataOwned(s, n, k / BSIZE);
  }

  /** Within one block, the file's bytes are the block's bytes. */
  lemma ChunkBytes(s: Fs, n: nat, cur: nat, len: nat)
    requires Good(s) && n in s.inodes && cur + len <= s.inodes[n].size && 0 < len <= BSIZE - cur % BSIZE
    ensures var b := At(s, SlotOf(n, cur / BSIZE));
      b < s.lay.size && Content(s, n)[cur..cur + len] == s.blocks[b][cur % BSIZE..cur % BSIZE + len]
  {
    hide Owned, At;
    BlockThere(s, n, cur);
    var blk := s.blocks[At(s, SlotOf(n, cur / BSIZE))];
    var a, d := Content(s, n)[cur..cur + len], blk[cur % BSIZE..cur % BSIZE + len];
    forall i | 0 <= i < len ensures a[i] == d[i] {
      BlockThere(s, n, cur + i);
      SameBlock(cur, i);
    }
  }

  lemma SameBlock(cur: nat, i: nat)
    requires i < BSIZE - cur % BSIZE
    ensures (cur + i) / BSIZE == cur / BSIZE && (cur + i) % BSIZE == cur % BSIZE + i
  {
  }

  lemma PointerAttached(s: Fs, n: nat, i: nat, b: nat)
    requires CanAttach(s, Pointer(n, i), b)
    ensures var s' := Attach(s, Pointer(n, i), b);
      Grew(s, s', n) && Shape(s') && Owned(s') && n in s'.inodes && s'.inodes[n].addrs == s.inodes[n].addrs[i := b]
  {
    hide Owned, Grew;
    GrewAttach(s, Pointer(n, i), b);
    AttachOwned(s, Pointer(n, i), b);
  }

  lemma EntryAttached(s: Fs, n: nat, j: nat, b: nat)
    requires CanAttach(s, Entry(n, j), b)
    ensures var s' := Attach(s, Entry(n, j), b);
      Grew(s, s', n) && Shape(s') && Owned(s') && At(s', Entry(n, j)) == b && s'.inodes == s.inodes
  {
    hide Owned, Grew;
    GrewAttach(s, Entry(n, j), b);
    AttachOwned(s, Entry(n, j), b);
  }

  // ---------------------------------------------------------------- conservation

  ghost function FreeSet(l: Layout, blocks: seq<Block>): set<nat>
    requires ValidLayout(l) && |blocks| == l.size
  {
    set b: nat | b < l.size && !Used(l, blocks, b)
  }

  /** Free and owned blocks always add up to the data blocks: none is lost, none is shared. */
  lemma FreePlusOwned(s: Fs)
    requires Good(s)
    ensures FreeSet(s.lay, s.blocks) !! s.owner.Keys
    ensures FreeSet(s.lay, s.blocks) + s.owner.Keys == Range(s.lay.meta, s.lay.size)
    ensures |FreeSet(s.lay, s.blocks)| + |s.owner| == s.lay.size - s.lay.meta
  {
    hide At, TestBit, Range, Allocated, HeldRight;
    var f, o := FreeSet(s.lay, s.blocks), s.owner.Keys;
    forall b | b in o ensures s.lay.meta <= b < s.lay.size && b in UsedSet(s.lay, s.blocks) {
      OwnedIsUsed(s, b);
    }
    forall b | 0 <= b < s.lay.size ensures b in f <==> b !in UsedSet(s.lay, s.blocks) {
    }
    assert f + o == Range(s.lay.meta, s.lay.size);
    assert |f + o| == |f| + |o|;
  }
}
