/** Inodes, the free map and block ownership (kernel/fs.c), on values.

    `owner` records which pointer holds each allocated data block.  Being a map from blocks
    to pointers, it says by itself that no block has two owners. */
module FsState {
  import opened Blocks
  import opened Bitmap

  const NDIRECT: nat := 12
  const NINDIRECT: nat := 256  // BSIZE / sizeof(uint)
  const MAXFILE: nat := NDIRECT + NINDIRECT
  const IPB: nat := 16  // BSIZE / sizeof(struct dinode)

  /** The parts of the super block this code uses; `meta` is the first data block. */
  datatype Layout = Layout(size: nat, ninodes: nat, inodestart: nat, bmapstart: nat, meta: nat)

  predicate ValidLayout(l: Layout) {
    && l.inodestart + l.ninodes / IPB < l.bmapstart
    && l.bmapstart + l.size / BPB < l.meta <= l.size <= WORD_LIMIT
  }

  /** The block holding inode n. */
  function IBlock(l: Layout, n: nat): (r: nat)
    requires ValidLayout(l) && n < l.ninodes
    ensures l.inodestart <= r < l.bmapstart
  {
    n / IPB + l.inodestart
  }

  /** The free-map block holding the bit of block b. */
  function BBlock(l: Layout, b: nat): (r: nat)
    requires ValidLayout(l) && b < l.size
    ensures l.bmapstart <= r < l.meta
  {
    b / BPB + l.bmapstart
  }

  /** addrs[0..NDIRECT] are the direct pointers, addrs[NDIRECT] points to the indirect block. */
  datatype Inode = Inode(size: nat, addrs: seq<nat>)

  /** A place that can hold a block number. */
  datatype Slot = Pointer(inum: nat, i: nat) | Entry(inum: nat, j: nat)

  datatype Fs = Fs(lay: Layout, blocks: seq<Block>, inodes: map<nat, Inode>, owner: map<nat, Slot>)

  predicate ValidInode(l: Layout, ip: Inode) {
    && |ip.addrs| == NDIRECT + 1
    && (forall i :: 0 <= i <= NDIRECT ==> ip.addrs[i] < l.size)
    && ip.size <= MAXFILE * BSIZE
  }

  ghost predicate Shape(s: Fs) {
    && ValidLayout(s.lay)
    && |s.blocks| == s.lay.size
    && forall n :: n in s.inodes ==> n < s.lay.ninodes && ValidInode(s.lay, s.inodes[n])
  }

  /** Entry j of an inode's indirect block, or 0 when there is none. */
  function EntryAt(blocks: seq<Block>, ip: Inode, j: nat): nat
    requires |ip.addrs| == NDIRECT + 1 && ip.addrs[NDIRECT] < |blocks| && j < NINDIRECT
  {
    if ip.addrs[NDIRECT] == 0 then 0 else GetWord(blocks[ip.addrs[NDIRECT]], 4 * j)
  }

  ghost function At(s: Fs, slot: Slot): nat
    requires Shape(s)
  {
    match slot
    case Pointer(n, i) => if n in s.inodes && i <= NDIRECT then s.inodes[n].addrs[i] else 0
    case Entry(n, j) => if n in s.inodes && j < NINDIRECT then EntryAt(s.blocks, s.inodes[n], j) else 0
  }

  /** The free-map bit of block b. */
  predicate Used(l: Layout, blocks: seq<Block>, b: nat)
    requires ValidLayout(l) && |blocks| == l.size && b < l.size
  {
    TestBit(blocks[BBlock(l, b)], b % BPB)
  }

  ghost function UsedSet(l: Layout, blocks: seq<Block>): set<nat>
    requires ValidLayout(l) && |blocks| == l.size
  {
    set b: nat | b < l.size && Used(l, blocks, b)
  }

  /** An owned block is a data block, and its owner does hold its number. */
  ghost predicate HeldRight(s: Fs, b: nat)
    requires Shape(s) && b in s.owner
  {
    s.lay.meta <= b < s.lay.size && At(s, s.owner[b]) == b
  }

  /** Every block number held anywhere has exactly one holder, only data blocks are held,
      and the free map marks exactly the metadata and the held blocks. */
  ghost predicate Owned(s: Fs)
    requires Shape(s)
  {
    && (forall slot :: At(s, slot) != 0 ==> At(s, slot) in s.owner && s.owner[At(s, slot)] == slot)
    && (forall b {:trigger HeldRight(s, b)} :: b in s.owner ==> HeldRight(s, b))
    && (forall b :: 0 <= b < s.lay.size ==> (b in UsedSet(s.lay, s.blocks) <==> b < s.lay.meta || b in s.owner))
  }

  /** The pointer for the bn-th block of a file. */
  function SlotOf(n: nat, bn: nat): Slot {
    if bn < NDIRECT then Pointer(n, bn) else Entry(n, bn - NDIRECT)
  }

  ghost predicate Allocated(s: Fs, n: nat, len: nat)
    requires Shape(s)
  {
    forall bn: nat :: bn < MAXFILE && bn * BSIZE < len ==> At(s, SlotOf(n, bn)) != 0
  }

  /** The first len bytes of a file. */
  ghost function Bytes(s: Fs, n: nat, len: nat): seq<byte>
    requires Shape(s) && Owned(s) && Allocated(s, n, len) && len <= MAXFILE * BSIZE
  {
    seq(len, k requires 0 <= k < len => ByteAt(s, n, k))
  }

  ghost function ByteAt(s: Fs, n: nat, k: nat): byte
    requires Shape(s) && Owned(s) && k < MAXFILE * BSIZE && At(s, SlotOf(n, k / BSIZE)) != 0
  {
    assert HeldRight(s, At(s, SlotOf(n, k / BSIZE)));
    s.blocks[At(s, SlotOf(n, k / BSIZE))][k % BSIZE]
  }

  ghost predicate Good(s: Fs) {
    && Shape(s) && Owned(s)
    && forall n :: n in s.inodes ==> Allocated(s, n, s.inodes[n].size)
  }

  /** The contents of file n. */
  ghost function Content(s: Fs, n: nat): seq<byte>
    requires Good(s) && n in s.inodes
  {
    Bytes(s, n, s.inodes[n].size)
  }

  // ---------------------------------------------------------------- the free map

  /** The free-map position of the bi-th block of the k-th group. */
  lemma BBlockOf(l: Layout, k: nat, bi: nat)
    requires ValidLayout(l) && bi < BPB && k * BPB + bi < l.size
    ensures BBlock(l, k * BPB + bi) == k + l.bmapstart && (k * BPB + bi) % BPB == bi
  {
  }

  /** Stores outside the free map keep it. */
  lemma UsedFrame(l: Layout, blocks: seq<Block>, x: nat, v: Block)
    requires ValidLayout(l) && |blocks| == l.size && x < l.size && (x < l.bmapstart || l.meta <= x)
    ensures UsedSet(l, blocks[x := v]) == UsedSet(l, blocks)
  {
    hide TestBit, BBlock;
    assert forall b: nat :: b < l.size ==> Used(l, blocks[x := v], b) == Used(l, blocks, b);
  }

  /** balloc's effect on the disk: the bit set and the block zeroed. */
  function AllocBlocks(l: Layout, blocks: seq<Block>, b: nat): (r: seq<Block>)
    requires ValidLayout(l) && |blocks| == l.size && b < l.size && !Used(l, blocks, b)
    ensures |r| == |blocks|
  {
    blocks[BBlock(l, b) := SetBit(blocks[BBlock(l, b)], b % BPB)][b := ZeroBlock()]
  }

  /** bfree's effect on the disk. */
  function FreeBlocks(l: Layout, blocks: seq<Block>, b: nat): seq<Block>
    requires ValidLayout(l) && |blocks| == l.size && b < l.size && Used(l, blocks, b)
  {
    blocks[BBlock(l, b) := ClearBit(blocks[BBlock(l, b)], b % BPB)]
  }

  lemma UsedAlloc(l: Layout, blocks: seq<Block>, b: nat)
    requires ValidLayout(l) && |blocks| == l.size && l.meta <= b < l.size && !Used(l, blocks, b)
    ensures UsedSet(l, AllocBlocks(l, blocks, b)) == UsedSet(l, blocks) + {b}
  {
    hide TestBit, SetBit;
    var m := BBlock(l, b);
    var mid := blocks[m := SetBit(blocks[m], b % BPB)];
    forall c: nat | c < l.size ensures Used(l, mid, c) == (c == b || Used(l, blocks, c)) {
      if BBlock(l, c) == m {
        SetBitBits(blocks[m], b % BPB, c % BPB);
      }
    }
    UsedFrame(l, mid, b, ZeroBlock());
  }

  lemma UsedFree(l: Layout, blocks: seq<Block>, b: nat)
    requires ValidLayout(l) && |blocks| == l.size && b < l.size && Used(l, blocks, b)
    ensures UsedSet(l, FreeBlocks(l, blocks, b)) == UsedSet(l, blocks) - {b}
  {
    hide TestBit, ClearBit;
    var m := BBlock(l, b);
    forall c: nat | c < l.size ensures Used(l, FreeBlocks(l, blocks, b), c) == (c != b && Used(l, blocks, c)) {
      if BBlock(l, c) == m {
        ClearBitBits(blocks[m], b % BPB, c % BPB);
      }
    }
  }

  // ---------------------------------------------------------------- pointers

  lemma EntryFrame(blocks: seq<Block>, blocks': seq<Block>, ip: Inode, j: nat)
    requires |ip.addrs| == NDIRECT + 1 && ip.addrs[NDIRECT] < |blocks| == |blocks'| && j < NINDIRECT
    requires ip.addrs[NDIRECT] != 0 ==> blocks'[ip.addrs[NDIRECT]] == blocks[ip.addrs[NDIRECT]]
    ensures EntryAt(blocks', ip, j) == EntryAt(blocks, ip, j)
  {
  }

  /** The indirect block of an inode is owned by its pointer, so it is no other block. */
  lemma IndirectOwned(s: Fs, n: nat)
    requires Shape(s) && Owned(s) && n in s.inodes
    ensures var p := s.inodes[n].addrs[NDIRECT];
      p != 0 ==> p in s.owner && s.owner[p] == Pointer(n, NDIRECT) && s.lay.meta <= p
  {
    hide UsedSet;
    var p := s.inodes[n].addrs[NDIRECT];
    assert At(s, Pointer(n, NDIRECT)) == p;
    assert p != 0 ==> HeldRight(s, p);
  }

  /** A block that holds neither block numbers nor free-map bits: file data, or inodes. */
  ghost predicate PlainBlock(s: Fs, b: nat) {
    || b < s.lay.bmapstart
    || (b in s.owner && s.lay.meta <= b < s.lay.size && s.owner[b] != Pointer(s.owner[b].inum, NDIRECT))
  }

  lemma StoreAt(s: Fs, b: nat, v: Block, slot: Slot)
    requires Shape(s) && Owned(s) && b < s.lay.size && PlainBlock(s, b)
    ensures Shape(s.(blocks := s.blocks[b := v])) && At(s.(blocks := s.blocks[b := v]), slot) == At(s, slot)
  {
    hide Owned, EntryAt;
    if slot.Entry? && slot.inum in s.inodes && slot.j < NINDIRECT {
      IndirectOwned(s, slot.inum);
      EntryFrame(s.blocks, s.blocks[b := v], s.inodes[slot.inum], slot.j);
    }
  }

  lemma StoreKeeps(s: Fs, b: nat, v: Block)
    requires Shape(s) && Owned(s) && b < s.lay.size && PlainBlock(s, b)
    ensures var s' := s.(blocks := s.blocks[b := v]);
      Shape(s') && Owned(s') && forall slot :: At(s', slot) == At(s, slot)
  {
    var s' := s.(blocks := s.blocks[b := v]);
    forall slot ensures At(s', slot) == At(s, slot) {
      StoreAt(s, b, v, slot);
    }
    UsedFrame(s.lay, s.blocks, b, v);
    hide UsedSet, At;
    forall c | c in s'.owner ensures HeldRight(s', c) {
      assert HeldRight(s, c);
    }
  }

  // ---------------------------------------------------------------- attaching a new block

  ghost predicate CanAttach(s: Fs, slot: Slot, b: nat) {
    && Shape(s) && Owned(s)
    && slot.inum in s.inodes && At(s, slot) == 0
    && (match slot
        case Pointer(n, i) => i <= NDIRECT
        case Entry(n, j) => j < NINDIRECT && s.inodes[n].addrs[NDIRECT] != 0)
    && b < s.lay.size && b !in UsedSet(s.lay, s.blocks)
  }

  /** A fresh zeroed block b, held by `slot`. */
  ghost function Attach(s: Fs, slot: Slot, b: nat): Fs
    requires CanAttach(s, slot, b)
  {
    var ip := s.inodes[slot.inum];
    var blocks := AllocBlocks(s.lay, s.blocks, b);
    match slot
    case Pointer(n, i) =>
      s.(blocks := blocks, inodes := s.inodes[n := ip.(addrs := ip.addrs[i := b])], owner := s.owner[b := slot])
    case Entry(n, j) =>
      var p := ip.addrs[NDIRECT];
      s.(blocks := blocks[p := PutWord(blocks[p], 4 * j, b)], owner := s.owner[b := slot])
  }

  lemma FreshBlock(s: Fs, b: nat)
    requires Shape(s) && Owned(s) && b < s.lay.size && b !in UsedSet(s.lay, s.blocks)
    ensures b !in s.owner && s.lay.meta <= b
  {
    hide UsedSet, At;
  }

  lemma AttachShape(s: Fs, slot: Slot, b: nat)
    requires CanAttach(s, slot, b)
    ensures Shape(Attach(s, slot, b)) && b !in s.owner && s.lay.meta <= b
  {
    FreshBlock(s, b);
    hide TestBit, SetBit, PutWord, GetWord, Owned;
  }

  /** Blocks somebody already owns are not touched, except the indirect block of an entry. */
  lemma AttachBlocks(s: Fs, slot: Slot, b: nat, c: nat)
    requires CanAttach(s, slot, b) && s.lay.meta <= c < s.lay.size && c != b
    requires slot.Entry? ==> c != s.inodes[slot.inum].addrs[NDIRECT]
    ensures c < |Attach(s, slot, b).blocks| && Attach(s, slot, b).blocks[c] == s.blocks[c]
  {
    hide TestBit, SetBit, PutWord, GetWord, Owned;
  }

  lemma AttachZero(s: Fs, slot: Slot, b: nat)
    requires CanAttach(s, slot, b)
    ensures b < |Attach(s, slot, b).blocks| && Attach(s, slot, b).blocks[b] == ZeroBlock()
  {
    hide Owned, TestBit, SetBit, PutWord, GetWord;
    FreshBlock(s, b);
    IndirectOwned(s, slot.inum);
  }

  lemma AttachIndirect(s: Fs, slot: Slot, b: nat)
    requires CanAttach(s, slot, b) && slot.Entry?
    ensures var p := s.inodes[slot.inum].addrs[NDIRECT];
      p < |Attach(s, slot, b).blocks| && Attach(s, slot, b).blocks[p] == PutWord(s.blocks[p], 4 * slot.j, b)
  {
    hide Owned, TestBit, SetBit, PutWord, GetWord, UsedSet;
    IndirectOwned(s, slot.inum);
    FreshBlock(s, b);
  }

  lemma AttachEntry(s: Fs, slot: Slot, b: nat, n: nat, j: nat)
    requires CanAttach(s, slot, b) && n in s.inodes && j < NINDIRECT
    ensures Shape(Attach(s, slot, b))
    ensures At(Attach(s, slot, b), Entry(n, j)) == if Entry(n, j) == slot then b else At(s, Entry(n, j))
  {
    hide Owned, TestBit, SetBit, PutWord, GetWord, UsedSet, AllocBlocks;
    AttachShape(s, slot, b);
    IndirectOwned(s, n);
    IndirectOwned(s, slot.inum);
    AttachZero(s, slot, b);
    var p := s.inodes[n].addrs[NDIRECT];
    if slot == Pointer(n, NDIRECT) {
      ZeroWords(4 * j);
    } else if p != 0 {
      if slot.Entry? && slot.inum == n {
        GetPut(s.blocks[p], 4 * slot.j, b, 4 * j);
        AttachIndirect(s, slot, b);
      } else {
        AttachBlocks(s, slot, b, p);
      }
    }
  }

  lemma AttachAt(s: Fs, slot: Slot, b: nat, other: Slot)
    requires CanAttach(s, slot, b)
    ensures Shape(Attach(s, slot, b))
    ensures At(Attach(s, slot, b), other) == if other == slot then b else At(s, other)
  {
    AttachShape(s, slot, b);
    if other.Entry? && other.inum in s.inodes && other.j < NINDIRECT {
      AttachEntry(s, slot, b, other.inum, other.j);
    }
    hide Owned;
  }

  lemma AttachUsed(s: Fs, slot: Slot, b: nat)
    requires CanAttach(s, slot, b)
    ensures Shape(Attach(s, slot, b))
    ensures UsedSet(s.lay, Attach(s, slot, b).blocks) == UsedSet(s.lay, s.blocks) + {b}
  {
    hide Owned, SetBit, TestBit, AllocBlocks;
    AttachShape(s, slot, b);
    IndirectOwned(s, slot.inum);
    UsedAlloc(s.lay, s.blocks, b);
    if slot.Entry? {
      hide UsedSet;
      var p := s.inodes[slot.inum].addrs[NDIRECT];
      var mid := AllocBlocks(s.lay, s.blocks, b);
      UsedFrame(s.lay, mid, p, PutWord(mid[p], 4 * slot.j, b));
    }
  }

  lemma AttachOwner(s: Fs, slot: Slot, b: nat)
    requires CanAttach(s, slot, b)
    ensures Attach(s, slot, b).owner == s.owner[b := slot] && Attach(s, slot, b).lay == s.lay
    ensures Attach(s, slot, b).inodes.Keys == s.inodes.Keys
    ensures forall n :: n in s.inodes ==> Attach(s, slot, b).inodes[n].size == s.inodes[n].size
  {
  }

  lemma AttachOwned(s: Fs, slot: Slot, b: nat)
    requires CanAttach(s, slot, b)
    ensures Shape(Attach(s, slot, b)) && Owned(Attach(s, slot, b))
    ensures forall other :: At(Attach(s, slot, b), other) == if other == slot then b else At(s, other)
  {
    hide Attach, UsedSet, At, Owned;
    var s' := Attach(s, slot, b);
    AttachShape(s, slot, b);
    forall other ensures At(s', other) == if other == slot then b else At(s, other) {
      AttachAt(s, slot, b, other);
    }
    AttachUsed(s, slot, b);
    AttachOwner(s, slot, b);
    OneMoreOwned(s, s', slot, b);
  }

  lemma OneMoreOwned(s: Fs, s': Fs, slot: Slot, b: nat)
    requires Shape(s) && Owned(s) && Shape(s') && s'.lay == s.lay
    requires s'.owner == s.owner[b := slot] && b !in s.owner && s.lay.meta <= b < s.lay.size && At(s, slot) == 0
    requires UsedSet(s.lay, s'.blocks) == UsedSet(s.lay, s.blocks) + {b}
    requires forall other :: At(s', other) == if other == slot then b else At(s, other)
    ensures Owned(s')
  {
    hide At, UsedSet;
    forall other ensures At(s', other) != 0 ==> At(s', other) in s'.owner && s'.owner[At(s', other)] == other {
      assert At(s, other) != 0 ==> At(s, other) in s.owner && s.owner[At(s, other)] == other;
    }
    forall c | c in s'.owner ensures HeldRight(s', c) {
      assert c != b ==> HeldRight(s, c);
    }
  }

  // ---------------------------------------------------------------- releasing a file's blocks

  /** The blocks held by pointers below i and indirect entries below j of inode n. */
  ghost function Held(s: Fs, n: nat, i: nat, j: nat): set<nat> {
    set b | b in s.owner && s.owner[b].inum == n
            && (match s.owner[b] case Pointer(_, k) => k < i case Entry(_, k) => k < j)
  }

  /** The block in the next pointer is the only one the next step adds. */
  lemma HeldPointer(s: Fs, n: nat, i: nat, j: nat)
    requires Shape(s) && Owned(s) && n in s.inodes && i <= NDIRECT
    ensures var b := s.inodes[n].addrs[i];
      if b == 0 then Held(s, n, i + 1, j) == Held(s, n, i, j)
      else b !in Held(s, n, i, j) && Held(s, n, i + 1, j) == Held(s, n, i, j) + {b} && b in s.owner
           && s.lay.meta <= b < s.lay.size
  {
    hide UsedSet;
    var b := s.inodes[n].addrs[i];
    assert At(s, Pointer(n, i)) == b;
    assert b != 0 ==> HeldRight(s, b);
    forall c | c in s.owner ensures s.owner[c] == Pointer(n, i) ==> 0 != c == b {
      assert HeldRight(s, c);
    }
  }

  lemma HeldEntry(s: Fs, n: nat, i: nat, j: nat)
    requires Shape(s) && Owned(s) && n in s.inodes && j < NINDIRECT
    ensures var b := EntryAt(s.blocks, s.inodes[n], j);
      if b == 0 then Held(s, n, i, j + 1) == Held(s, n, i, j)
      else b !in Held(s, n, i, j) && Held(s, n, i, j + 1) == Held(s, n, i, j) + {b} && b in s.owner
           && s.lay.meta <= b < s.lay.size
  {
    hide UsedSet, EntryAt;
    var b := EntryAt(s.blocks, s.inodes[n], j);
    assert At(s, Entry(n, j)) == b;
    assert b != 0 ==> HeldRight(s, b);
    forall c | c in s.owner ensures s.owner[c] == Entry(n, j) ==> 0 != c == b {
      assert HeldRight(s, c);
    }
  }

  lemma HeldNoIndirect(s: Fs, n: nat, j: nat)
    requires Shape(s) && Owned(s) && n in s.inodes && s.inodes[n].addrs[NDIRECT] == 0 && j <= NINDIRECT
    ensures Held(s, n, NDIRECT, 0) == Held(s, n, NDIRECT + 1, j)
  {
    hide UsedSet;
    HeldPointer(s, n, NDIRECT, 0);
    forall b | b in s.owner ensures s.owner[b].Entry? ==> s.owner[b].inum != n {
      assert HeldRight(s, b);
    }
    assert Held(s, n, NDIRECT + 1, j) == Held(s, n, NDIRECT + 1, 0);
  }

  function EmptyInode(): Inode {
    Inode(0, seq(NDIRECT + 1, _ => 0))
  }

  /** What itrunc leaves: the file empty, its blocks free, and everything else as before. */
  ghost predicate Truncates(s: Fs, s': Fs, n: nat) {
    && Shape(s) && Owned(s) && n in s.inodes
    && s'.lay == s.lay && |s'.blocks| == |s.blocks|
    && s'.inodes == s.inodes[n := EmptyInode()]
    && s'.owner == s.owner - Held(s, n, NDIRECT + 1, NINDIRECT)
    && (forall b :: 0 <= b < s.lay.size && (b < s.lay.bmapstart || s.lay.meta <= b) ==> s'.blocks[b] == s.blocks[b])
    && UsedSet(s.lay, s'.blocks) == UsedSet(s.lay, s.blocks) - Held(s, n, NDIRECT + 1, NINDIRECT)
  }

  lemma TruncatesShape(s: Fs, s': Fs, n: nat)
    requires Truncates(s, s', n)
    ensures Shape(s')
  {
  }

  lemma TruncatesAt(s: Fs, s': Fs, n: nat, slot: Slot)
    requires Truncates(s, s', n)
    ensures Shape(s') && At(s', slot) == if slot.inum == n then 0 else At(s, slot)
  {
    hide Owned, UsedSet, Held, EntryAt;
    TruncatesShape(s, s', n);
    if slot.Entry? && slot.inum in s.inodes && slot.inum != n && slot.j < NINDIRECT {
      IndirectOwned(s, slot.inum);
      EntryFrame(s.blocks, s'.blocks, s.inodes[slot.inum], slot.j);
    } else if slot.Entry? && slot.inum == n && slot.j < NINDIRECT {
      NoEntries(s'.blocks, EmptyInode(), slot.j);
    }
  }

  lemma NoEntries(blocks: seq<Block>, ip: Inode, j: nat)
    requires |ip.addrs| == NDIRECT + 1 && ip.addrs[NDIRECT] == 0 < |blocks| && j < NINDIRECT
    ensures EntryAt(blocks, ip, j) == 0
  {
  }

  /** All pointers and all entries together hold everything the inode owns. */
  lemma AllHeld(s: Fs, n: nat)
    requires Shape(s) && Owned(s)
    ensures Held(s, n, NDIRECT + 1, NINDIRECT) == set b | b in s.owner && s.owner[b].inum == n
  {
    hide UsedSet;
    forall b | b in s.owner ensures b in Held(s, n, NDIRECT + 1, NINDIRECT) <==> s.owner[b].inum == n {
      assert HeldRight(s, b);
    }
  }

  lemma TruncatesOwned(s: Fs, s': Fs, n: nat)
    requires Truncates(s, s', n)
    ensures Shape(s') && Owned(s')
    ensures forall slot :: At(s', slot) == if slot.inum == n then 0 else At(s, slot)
  {
    hide UsedSet, At, Held;
    TruncatesShape(s, s', n);
    forall slot ensures At(s', slot) == if slot.inum == n then 0 else At(s, slot) {
      TruncatesAt(s, s', n, slot);
    }
    AllHeld(s, n);
    forall c | c in s'.owner ensures HeldRight(s', c) {
      assert HeldRight(s, c);
    }
    forall c | c in s.owner ensures s.lay.meta <= c {
      assert HeldRight(s, c);
    }
  }

  // ---------------------------------------------------------------- the inode on disk

  /** Words of the on-disk inode: the size after four shorts, then the pointers. */
  function SizeOffset(n: nat): nat { 64 * (n % IPB) + 8 }

  function AddrOffset(n: nat, i: nat): nat { 64 * (n % IPB) + 12 + 4 * i }

  predicate InodeWords(ip: Inode) {
    ip.size < WORD_LIMIT && |ip.addrs| == NDIRECT + 1 && forall i :: 0 <= i <= NDIRECT ==> ip.addrs[i] < WORD_LIMIT
  }

  /** iupdate's stores: the size and the first k pointers. */
  function PutInode(blk: Block, n: nat, ip: Inode, k: nat): Block
    requires InodeWords(ip) && k <= NDIRECT + 1
  {
    if k == 0 then PutWord(blk, SizeOffset(n), ip.size)
    else PutWord(PutInode(blk, n, ip, k - 1), AddrOffset(n, k - 1), ip.addrs[k - 1])
  }

  /** Is the inode stored at n's place in this block equal to ip? */
  predicate HoldsInode(blk: Block, n: nat, ip: Inode) {
    && |ip.addrs| == NDIRECT + 1
    && GetWord(blk, SizeOffset(n)) == ip.size
    && forall i :: 0 <= i <= NDIRECT ==> GetWord(blk, AddrOffset(n, i)) == ip.addrs[i]
  }

  /** Words outside the fields stored so far are kept. */
  lemma {:induction false} PutInodeFrame(blk: Block, n: nat, ip: Inode, k: nat, off: nat)
    requires InodeWords(ip) && k <= NDIRECT + 1 && off + 4 <= BSIZE
    requires off + 4 <= SizeOffset(n) || AddrOffset(n, k) <= off
    ensures GetWord(PutInode(blk, n, ip, k), off) == GetWord(blk, off)
  {
    hide GetWord, PutWord;
    if k == 0 {
      GetPut(blk, SizeOffset(n), ip.size, off);
    } else {
      PutInodeFrame(blk, n, ip, k - 1, off);
      GetPut(PutInode(blk, n, ip, k - 1), AddrOffset(n, k - 1), ip.addrs[k - 1], off);
    }
  }

  lemma {:induction false} PutInodeFields(blk: Block, n: nat, ip: Inode, k: nat)
    requires InodeWords(ip) && k <= NDIRECT + 1
    ensures GetWord(PutInode(blk, n, ip, k), SizeOffset(n)) == ip.size
    ensures forall i :: 0 <= i < k ==> GetWord(PutInode(blk, n, ip, k), AddrOffset(n, i)) == ip.addrs[i]
  {
    hide GetWord, PutWord;
    if k == 0 {
      GetPut(blk, SizeOffset(n), ip.size, SizeOffset(n));
    } else {
      var before := PutInode(blk, n, ip, k - 1);
      PutInodeFields(blk, n, ip, k - 1);
      GetPut(before, AddrOffset(n, k - 1), ip.addrs[k - 1], SizeOffset(n));
      forall i | 0 <= i < k ensures GetWord(PutInode(blk, n, ip, k), AddrOffset(n, i)) == ip.addrs[i] {
        GetPut(before, AddrOffset(n, k - 1), ip.addrs[k - 1], AddrOffset(n, i));
      }
    }
  }

  /** iupdate stores the inode, and no other inode of the block changes. */
  lemma PutInodeHolds(blk: Block, n: nat, ip: Inode, m: nat, other: Inode)
    requires InodeWords(ip)
    ensures HoldsInode(PutInode(blk, n, ip, NDIRECT + 1), n, ip)
    ensures m % IPB != n % IPB ==>
      HoldsInode(PutInode(blk, n, ip, NDIRECT + 1), m, other) == HoldsInode(blk, m, other)
  {
    hide GetWord, PutWord, PutInode;
    PutInodeFields(blk, n, ip, NDIRECT + 1);
    if m % IPB != n % IPB {
      PutInodeFrame(blk, n, ip, NDIRECT + 1, SizeOffset(m));
      forall i | 0 <= i <= NDIRECT
        ensures GetWord(PutInode(blk, n, ip, NDIRECT + 1), AddrOffset(m, i)) == GetWord(blk, AddrOffset(m, i))
      {
        PutInodeFrame(blk, n, ip, NDIRECT + 1, AddrOffset(m, i));
      }
    }
  }
}
