/** How the updates of kernel/fs.c act on file contents. */
module FsBytes {
  import opened Blocks
  import opened Bitmap
  import opened FsState

  /** c with the bytes from `off` on replaced by d, lengthened when d runs past the end. */
  function Splice(c: seq<byte>, off: nat, d: seq<byte>): seq<byte>
    requires off <= |c|
  {
    c[..off] + d + if off + |d| <= |c| then c[off + |d|..] else []
  }

  lemma SpliceSplice(c: seq<byte>, off: nat, d: seq<byte>, e: seq<byte>)
    requires off <= |c|
    ensures Splice(Splice(c, off, d), off + |d|, e) == Splice(c, off, d + e)
  {
  }

  /** The bn-th block of a file. */
  ghost function DataBlock(s: Fs, n: nat, bn: nat): Block
    requires Shape(s) && Owned(s) && At(s, SlotOf(n, bn)) != 0
  {
    assert HeldRight(s, At(s, SlotOf(n, bn)));
    s.blocks[At(s, SlotOf(n, bn))]
  }

  /** Where pointers and data blocks agree, contents agree. */
  lemma SameBytes(s: Fs, s': Fs, n: nat, len: nat)
    requires Shape(s) && Owned(s) && Shape(s') && Owned(s') && Allocated(s, n, len) && len <= MAXFILE * BSIZE
    requires s'.lay == s.lay
    requires forall bn: nat :: bn < MAXFILE && At(s, SlotOf(n, bn)) != 0 ==>
      At(s', SlotOf(n, bn)) == At(s, SlotOf(n, bn)) && DataBlock(s', n, bn) == DataBlock(s, n, bn)
    ensures Allocated(s', n, len) && Bytes(s', n, len) == Bytes(s, n, len)
  {
    hide At, Owned;
    forall k: nat | k < len ensures At(s, SlotOf(n, k / BSIZE)) != 0 && ByteAt(s', n, k) == ByteAt(s, n, k) {
      assert k / BSIZE * BSIZE < len;
    }
  }

  /** A data block is owned by its pointer. */
  lemma DataOwned(s: Fs, n: nat, bn: nat)
    requires Shape(s) && Owned(s) && bn < MAXFILE && At(s, SlotOf(n, bn)) != 0
    ensures var b := At(s, SlotOf(n, bn));
      b in s.owner && s.owner[b] == SlotOf(n, bn) && s.lay.meta <= b < s.lay.size && PlainBlock(s, b) && n in s.inodes
  {
    hide UsedSet;
    assert HeldRight(s, At(s, SlotOf(n, bn)));
  }

  /** Attaching a new block changes no contents. */
  lemma AttachBytes(s: Fs, slot: Slot, b: nat, n: nat, len: nat)
    requires CanAttach(s, slot, b) && Allocated(s, n, len) && len <= MAXFILE * BSIZE
    ensures var s' := Attach(s, slot, b);
      Shape(s') && Owned(s') && Allocated(s', n, len) && Bytes(s', n, len) == Bytes(s, n, len)
  {
    hide Attach, Owned, UsedSet, At;
    var s' := Attach(s, slot, b);
    AttachOwned(s, slot, b);
    AttachOwner(s, slot, b);
    AttachShape(s, slot, b);
    IndirectOwned(s, slot.inum);
    forall bn: nat | bn < MAXFILE && At(s, SlotOf(n, bn)) != 0
      ensures At(s', SlotOf(n, bn)) == At(s, SlotOf(n, bn)) && DataBlock(s', n, bn) == DataBlock(s, n, bn)
    {
      DataOwned(s, n, bn);
      AttachBlocks(s, slot, b, At(s, SlotOf(n, bn)));
    }
    SameBytes(s, s', n, len);
  }

  /** Every run of bytes of every file is the same in s'. */
  ghost predicate KeepsBytes(s: Fs, s': Fs)
    requires Shape(s) && Owned(s) && Shape(s') && Owned(s')
  {
    forall m: nat, len: nat :: Allocated(s, m, len) && len <= MAXFILE * BSIZE ==>
      Allocated(s', m, len) && Bytes(s', m, len) == Bytes(s, m, len)
  }

  /** No inode but n has changed, and n keeps its size. */
  ghost predicate SameInodes(s: Fs, s': Fs, n: nat) {
    && s'.lay == s.lay && s'.inodes.Keys == s.inodes.Keys
    && (forall m :: m in s.inodes ==> s'.inodes[m].size == s.inodes[m].size)
    && (forall m :: m in s.inodes && m != n ==> s'.inodes[m] == s.inodes[m])
  }

  /** The blocks before the free map, where the inodes are stored, are the same. */
  ghost predicate SameLow(s: Fs, s': Fs)
    requires |s.blocks| == |s'.blocks| && s.lay.bmapstart <= |s.blocks|
  {
    forall b :: 0 <= b < s.lay.bmapstart ==> s'.blocks[b] == s.blocks[b]
  }

  ghost predicate KeepsPointers(s: Fs, s': Fs)
    requires Shape(s) && Shape(s')
  {
    forall slot :: At(s, slot) != 0 ==> At(s', slot) == At(s, slot)
  }

  /** s' has the files of s, and perhaps more blocks attached to inode n. */
  ghost predicate Grew(s: Fs, s': Fs, n: nat) {
    hide Owned;
    && Shape(s) && Owned(s) && Shape(s') && Owned(s')
    && SameInodes(s, s', n) && SameLow(s, s') && KeepsPointers(s, s') && KeepsBytes(s, s')
  }

  lemma GrewRefl(s: Fs, n: nat)
    requires Shape(s) && Owned(s)
    ensures Grew(s, s, n)
  {
    hide Owned, At;
  }

  lemma GrewTrans(s: Fs, t: Fs, u: Fs, n: nat)
    requires Grew(s, t, n) && Grew(t, u, n)
    ensures Grew(s, u, n)
  {
    hide Owned, At, Shape, Allocated, Bytes;
  }

  lemma GrewAttach(s: Fs, slot: Slot, b: nat)
    requires CanAttach(s, slot, b)
    ensures Grew(s, Attach(s, slot, b), slot.inum)
  {
    var s' := Attach(s, slot, b);
    AttachOwned(s, slot, b);
    AttachOwner(s, slot, b);
    AttachLow(s, slot, b);
    forall m: nat, len: nat | Allocated(s, m, len) && len <= MAXFILE * BSIZE
      ensures Allocated(s', m, len) && Bytes(s', m, len) == Bytes(s, m, len)
    {
      AttachBytes(s, slot, b, m, len);
    }
    hide Attach, Owned, UsedSet, At, Allocated, Bytes;
  }

  /** Attaching touches no inode block and no other inode. */
  lemma AttachLow(s: Fs, slot: Slot, b: nat)
    requires CanAttach(s, slot, b)
    ensures var s' := Attach(s, slot, b);
      && Shape(s')
      && (forall c :: 0 <= c < s.lay.bmapstart ==> s'.blocks[c] == s.blocks[c])
      && (forall m :: m in s.inodes && m != slot.inum ==> m in s'.inodes && s'.inodes[m] == s.inodes[m])
  {
    hide Owned, TestBit, SetBit;
    AttachShape(s, slot, b);
    IndirectOwned(s, slot.inum);
  }

  /** Storing into an inode block, or into another file's data, changes no contents. */
  lemma StoreBytes(s: Fs, b: nat, v: Block, n: nat, len: nat)
    requires Shape(s) && Owned(s) && b < s.lay.size && PlainBlock(s, b)
    requires b in s.owner && s.lay.bmapstart <= b ==> s.owner[b].inum != n
    requires Allocated(s, n, len) && len <= MAXFILE * BSIZE
    ensures var s' := s.(blocks := s.blocks[b := v]);
      Shape(s') && Owned(s') && Allocated(s', n, len) && Bytes(s', n, len) == Bytes(s, n, len)
  {
    hide Owned, UsedSet, At;
    var s' := s.(blocks := s.blocks[b := v]);
    StoreKeeps(s, b, v);
    forall bn: nat | bn < MAXFILE && At(s, SlotOf(n, bn)) != 0
      ensures DataBlock(s', n, bn) == DataBlock(s, n, bn)
    {
      DataOwned(s, n, bn);
    }
    SameBytes(s, s', n, len);
  }

  /** The block writei stores: the chunk d copied over position o. */
  function Patch(blk: Block, o: nat, d: seq<byte>): Block
    requires o + |d| <= BSIZE
  {
    blk[..o] + d + blk[o + |d|..]
  }

  /** Bytes of a file after a store into its own bn-th block. */
  lemma OwnByte(s: Fs, n: nat, bn: nat, v: Block, k: nat)
    requires Shape(s) && Owned(s) && bn < MAXFILE && 0 < At(s, SlotOf(n, bn)) < s.lay.size
    requires k < MAXFILE * BSIZE && At(s, SlotOf(n, k / BSIZE)) != 0
    ensures var s' := s.(blocks := s.blocks[At(s, SlotOf(n, bn)) := v]);
      Shape(s') && Owned(s') && At(s', SlotOf(n, k / BSIZE)) != 0
      && ByteAt(s', n, k) == if k / BSIZE == bn then v[k % BSIZE] else ByteAt(s, n, k)
  {
    hide Owned, UsedSet, At;
    DataOwned(s, n, bn);
    DataOwned(s, n, k / BSIZE);
    StoreKeeps(s, At(s, SlotOf(n, bn)), v);
  }

  /** Copying a chunk into one block of a file splices it into the file's bytes. */
  lemma PatchBytes(s: Fs, n: nat, len: nat, cur: nat, d: seq<byte>)
    requires Shape(s) && Owned(s) && Allocated(s, n, len)
    requires cur <= len <= MAXFILE * BSIZE && 0 < |d| <= BSIZE - cur % BSIZE && cur < MAXFILE * BSIZE
    requires At(s, SlotOf(n, cur / BSIZE)) != 0
    ensures var b := At(s, SlotOf(n, cur / BSIZE));
      b < s.lay.size &&
      var s' := s.(blocks := s.blocks[b := Patch(s.blocks[b], cur % BSIZE, d)]);
      var len' := if len < cur + |d| then cur + |d| else len;
      Shape(s') && Owned(s') && len' <= MAXFILE * BSIZE && Allocated(s', n, len')
      && Bytes(s', n, len') == Splice(Bytes(s, n, len), cur, d)
  {
    hide Owned, UsedSet, At;
    var bn, o := cur / BSIZE, cur % BSIZE;
    DataOwned(s, n, bn);
    var b := At(s, SlotOf(n, bn));
    var v := Patch(s.blocks[b], o, d);
    var s' := s.(blocks := s.blocks[b := v]);
    var len' := if len < cur + |d| then cur + |d| else len;
    StoreKeeps(s, b, v);
    assert len' <= MAXFILE * BSIZE;
    forall c: nat | c < MAXFILE && c * BSIZE < len' ensures At(s', SlotOf(n, c)) != 0 {
      if c * BSIZE >= len { assert c == bn; }
    }
    var before, after := Bytes(s, n, len), Bytes(s', n, len');
    forall k: nat | k < len' ensures after[k] == Splice(before, cur, d)[k] {
      assert k / BSIZE * BSIZE < len';
      PatchByte(s, n, bn, o, d, k);
    }
  }

  lemma PatchByte(s: Fs, n: nat, bn: nat, o: nat, d: seq<byte>, k: nat)
    requires Shape(s) && Owned(s) && bn < MAXFILE && At(s, SlotOf(n, bn)) != 0 && o + |d| <= BSIZE
    requires k < MAXFILE * BSIZE && At(s, SlotOf(n, k / BSIZE)) != 0
    ensures var b := At(s, SlotOf(n, bn));
      b < s.lay.size &&
      var s' := s.(blocks := s.blocks[b := Patch(s.blocks[b], o, d)]);
      var cur := bn * BSIZE + o;
      Shape(s') && Owned(s') && At(s', SlotOf(n, k / BSIZE)) != 0
      && ByteAt(s', n, k) == if cur <= k < cur + |d| then d[k - cur] else ByteAt(s, n, k)
  {
    hide Owned, UsedSet, At;
    DataOwned(s, n, bn);
    OwnByte(s, n, bn, Patch(s.blocks[At(s, SlotOf(n, bn))], o, d), k);
  }

  // ---------------------------------------------------------------- a write in progress

  /** Every file but n has the bytes it had. */
  ghost predicate OthersKept(s0: Fs, s: Fs, n: nat)
    requires Shape(s0) && Owned(s0) && Shape(s) && Owned(s)
  {
    forall m: nat, len: nat :: m != n && Allocated(s0, m, len) && len <= MAXFILE * BSIZE ==>
      Allocated(s, m, len) && Bytes(s, m, len) == Bytes(s0, m, len)
  }

  /** Since s0, blocks may have been attached to file n and its data changed; nothing else. */
  ghost predicate Elsewhere(s0: Fs, s: Fs, n: nat) {
    hide Owned;
    && Shape(s0) && Owned(s0) && Shape(s) && Owned(s) && n in s0.inodes
    && SameInodes(s0, s, n) && SameLow(s0, s) && KeepsPointers(s0, s) && OthersKept(s0, s, n)
  }

  ghost predicate HasBytes(s: Fs, n: nat, bytes: seq<byte>)
    requires Shape(s) && Owned(s)
  {
    |bytes| <= MAXFILE * BSIZE && Allocated(s, n, |bytes|) && Bytes(s, n, |bytes|) == bytes
  }

  /** Part of writei: file n already has `bytes`, though its size is not yet updated. */
  ghost predicate Writing(s0: Fs, s: Fs, n: nat, bytes: seq<byte>) {
    Elsewhere(s0, s, n) && HasBytes(s, n, bytes)
  }

  lemma WritingStarts(s: Fs, n: nat)
    requires Good(s) && n in s.inodes
    ensures Writing(s, s, n, Content(s, n))
  {
    hide Owned, At;
  }

  lemma WritingGrows(s0: Fs, s: Fs, s': Fs, n: nat, bytes: seq<byte>)
    requires Writing(s0, s, n, bytes) && Grew(s, s', n)
    ensures Writing(s0, s', n, bytes)
  {
    hide Owned, At, Shape, Allocated, Bytes;
    assert KeepsBytes(s, s');
  }

  lemma PatchOthers(s0: Fs, s: Fs, n: nat, bn: nat, v: Block)
    requires Shape(s0) && Owned(s0) && Shape(s) && Owned(s) && OthersKept(s0, s, n)
    requires bn < MAXFILE && 0 < At(s, SlotOf(n, bn)) < s.lay.size
    ensures var s' := s.(blocks := s.blocks[At(s, SlotOf(n, bn)) := v]);
      Shape(s') && Owned(s') && OthersKept(s0, s', n)
  {
    hide Owned, At, Allocated, Bytes, UsedSet;
    var b := At(s, SlotOf(n, bn));
    DataOwned(s, n, bn);
    StoreKeeps(s, b, v);
    var s' := s.(blocks := s.blocks[b := v]);
    forall m: nat, len: nat | m != n && Allocated(s0, m, len) && len <= MAXFILE * BSIZE
      ensures Allocated(s', m, len) && Bytes(s', m, len) == Bytes(s0, m, len)
    {
      StoreBytes(s, b, v, m, len);
    }
  }

  lemma PatchElsewhere(s0: Fs, s: Fs, n: nat, bn: nat, v: Block)
    requires Elsewhere(s0, s, n) && bn < MAXFILE && At(s, SlotOf(n, bn)) != 0
    ensures At(s, SlotOf(n, bn)) < s.lay.size
    ensures Elsewhere(s0, s.(blocks := s.blocks[At(s, SlotOf(n, bn)) := v]), n)
  {
    hide Owned, At, OthersKept;
    DataOwned(s, n, bn);
    StoreKeeps(s, At(s, SlotOf(n, bn)), v);
    PatchOthers(s0, s, n, bn, v);
  }

  lemma WritingPatch(s0: Fs, s: Fs, n: nat, bytes: seq<byte>, cur: nat, d: seq<byte>)
    requires Writing(s0, s, n, bytes)
    requires cur <= |bytes| && 0 < |d| <= BSIZE - cur % BSIZE && cur < MAXFILE * BSIZE
    requires At(s, SlotOf(n, cur / BSIZE)) != 0
    ensures var b := At(s, SlotOf(n, cur / BSIZE));
      b < s.lay.size
      && Writing(s0, s.(blocks := s.blocks[b := Patch(s.blocks[b], cur % BSIZE, d)]), n, Splice(bytes, cur, d))
  {
    hide Owned, At, Allocated, Bytes, Elsewhere;
    ElsewhereShape(s0, s, n);
    PatchBytes(s, n, |bytes|, cur, d);
    var b := At(s, SlotOf(n, cur / BSIZE));
    PatchElsewhere(s0, s, n, cur / BSIZE, Patch(s.blocks[b], cur % BSIZE, d));
  }

  lemma ElsewhereShape(s0: Fs, s: Fs, n: nat)
    requires Elsewhere(s0, s, n)
    ensures Shape(s) && Owned(s) && n in s.inodes && |s.blocks| == s.lay.size
    ensures s.lay == s0.lay && s.inodes.Keys == s0.inodes.Keys
  {
    hide Owned;
  }

  /** Is the on-disk copy of inode n up to date? */
  ghost predicate Stored(s: Fs, n: nat)
    requires Shape(s) && n in s.inodes
  {
    HoldsInode(s.blocks[IBlock(s.lay, n)], n, s.inodes[n])
  }

  /** The state writei leaves: the size raised if needed and the inode copied to disk. */
  ghost function Finished(s: Fs, n: nat, size: nat): Fs
    requires Shape(s) && n in s.inodes && size <= MAXFILE * BSIZE
  {
    var ip := s.inodes[n].(size := size);
    var ib := IBlock(s.lay, n);
    s.(inodes := s.inodes[n := ip], blocks := s.blocks[ib := PutInode(s.blocks[ib], n, ip, NDIRECT + 1)])
  }

  /** The contract of writei and itrunc towards the rest of the file system: the other files
      keep their contents and their on-disk inodes. */
  ghost predicate Rewrites(s0: Fs, s: Fs, n: nat, content: seq<byte>) {
    hide Owned, At, Allocated, Bytes;
    && Good(s0) && Good(s) && s.lay == s0.lay && s.inodes.Keys == s0.inodes.Keys && n in s.inodes
    && Content(s, n) == content
    && Stored(s, n)
    && (forall m :: m in s.inodes && m != n ==> Content(s, m) == Content(s0, m) && Stored(s, m) == Stored(s0, m))
  }

  lemma ResizeAt(s: Fs, n: nat, size: nat, slot: Slot)
    requires Shape(s) && n in s.inodes && size <= MAXFILE * BSIZE
    ensures var s' := s.(inodes := s.inodes[n := s.inodes[n].(size := size)]);
      Shape(s') && At(s', slot) == At(s, slot)
  {
  }

  lemma ResizeOwned(s: Fs, n: nat, size: nat)
    requires Shape(s) && Owned(s) && n in s.inodes && size <= MAXFILE * BSIZE
    ensures var s' := s.(inodes := s.inodes[n := s.inodes[n].(size := size)]);
      Shape(s') && Owned(s') && forall slot :: At(s', slot) == At(s, slot)
  {
    hide At, UsedSet;
    var s' := s.(inodes := s.inodes[n := s.inodes[n].(size := size)]);
    forall slot ensures Shape(s') && At(s', slot) == At(s, slot) {
      ResizeAt(s, n, size, slot);
    }
    ResizeAt(s, n, size, Pointer(0, 0));
    forall c | c in s'.owner ensures HeldRight(s', c) {
      assert HeldRight(s, c);
    }
  }

  lemma FinishedKeeps(s: Fs, n: nat, size: nat)
    requires Shape(s) && Owned(s) && n in s.inodes && size <= MAXFILE * BSIZE
    ensures var s' := Finished(s, n, size);
      Shape(s') && Owned(s') && KeepsBytes(s, s')
  {
    hide Owned, At, Allocated, Bytes, UsedSet;
    var ip := s.inodes[n].(size := size);
    var ib := IBlock(s.lay, n);
    var v := PutInode(s.blocks[ib], n, ip, NDIRECT + 1);
    var mid := s.(inodes := s.inodes[n := ip]);
    var s' := mid.(blocks := s.blocks[ib := v]);
    ResizeOwned(s, n, size);
    StoreKeeps(mid, ib, v);
    IBlockOwned(s, ib);
    forall m: nat, len: nat | Allocated(s, m, len) && len <= MAXFILE * BSIZE
      ensures Allocated(s', m, len) && Bytes(s', m, len) == Bytes(s, m, len)
    {
      ResizeBytes(s, n, size, m, len);
      StoreBytes(mid, ib, v, m, len);
    }
  }

  lemma IBlockOwned(s: Fs, b: nat)
    requires Shape(s) && Owned(s) && b < s.lay.bmapstart
    ensures b !in s.owner
  {
    hide At, UsedSet;
    assert b in s.owner ==> HeldRight(s, b);
  }

  lemma ResizeBytes(s: Fs, n: nat, size: nat, m: nat, len: nat)
    requires Shape(s) && Owned(s) && n in s.inodes && size <= MAXFILE * BSIZE
    requires Allocated(s, m, len) && len <= MAXFILE * BSIZE
    ensures var s' := s.(inodes := s.inodes[n := s.inodes[n].(size := size)]);
      Shape(s') && Owned(s') && Allocated(s', m, len) && Bytes(s', m, len) == Bytes(s, m, len)
  {
    hide Owned, At, UsedSet;
    var s' := s.(inodes := s.inodes[n := s.inodes[n].(size := size)]);
    ResizeOwned(s, n, size);
    SameBytes(s, s', m, len);
  }

  lemma FinishedStored(s: Fs, n: nat, size: nat, m: nat)
    requires Shape(s) && n in s.inodes && size <= MAXFILE * BSIZE && m in s.inodes && Shape(Finished(s, n, size))
    ensures Stored(Finished(s, n, size), n)
    ensures m != n ==> Stored(Finished(s, n, size), m) == Stored(s, m)
  {
    hide GetWord, PutWord, PutInode, HoldsInode, Owned;
    var ip := s.inodes[n].(size := size);
    PutInodeHolds(s.blocks[IBlock(s.lay, n)], n, ip, m, s.inodes[m]);
  }

  /** The end of writei. */
  lemma WritingFinishes(s0: Fs, s: Fs, n: nat, bytes: seq<byte>)
    requires Good(s0) && Writing(s0, s, n, bytes)
    ensures n in s.inodes && Shape(s) && Rewrites(s0, Finished(s, n, |bytes|), n, bytes)
  {
    hide Owned, At, Allocated, Bytes, HoldsInode, PutInode, Elsewhere, Stored;
    ElsewhereShape(s0, s, n);
    var s' := Finished(s, n, |bytes|);
    FinishedKeeps(s, n, |bytes|);
    FinishedStored(s, n, |bytes|, n);
    FinishedInodes(s, n, |bytes|);
    assert s'.inodes.Keys == s0.inodes.Keys;
    forall m | m in s0.inodes && m != n
      ensures Allocated(s', m, s0.inodes[m].size) && s'.inodes[m].size == s0.inodes[m].size
      ensures Content(s0, m) == Bytes(s', m, s0.inodes[m].size)
      ensures Stored(s', m) == Stored(s0, m)
    {
      FinishedStored(s, n, |bytes|, m);
      ElsewhereInodes(s0, s, n, m);
    }
  }

  lemma FinishedInodes(s: Fs, n: nat, size: nat)
    requires Shape(s) && n in s.inodes && size <= MAXFILE * BSIZE
    ensures var s' := Finished(s, n, size);
      s'.lay == s.lay && s'.inodes == s.inodes[n := s.inodes[n].(size := size)]
  {
  }

  lemma ElsewhereInodes(s0: Fs, s: Fs, n: nat, m: nat)
    requires Good(s0) && Elsewhere(s0, s, n) && m in s0.inodes
    ensures Shape(s) && Owned(s) && s.lay == s0.lay && s.inodes.Keys == s0.inodes.Keys
    ensures m != n ==> s.inodes[m] == s0.inodes[m] && Stored(s, m) == Stored(s0, m)
    ensures m != n ==> Allocated(s, m, s0.inodes[m].size) && Bytes(s, m, s0.inodes[m].size) == Content(s0, m)
  {
    hide Owned, At, Allocated, Bytes, HoldsInode;
  }
}
