/** writei of kernel/fs.c by many processes at once.  Each holds the lock of the inode it writes, and
    blocks and free-map bits are changed under the lock of their buffer; so a step is what a process
    does up to and including one log_write, and the steps of different processes come in any order.

    `fs` is the file system without the blocks that calls of balloc under way have in hand; `blocks`
    is the cache, where their bits are set already. */
module Writers {
  import opened Bitmap
  import opened Blocks
  import opened FileSystem
  import opened FsBytes
  import opened FsState
  import opened Options
  import opened Sets

  /** A call of writei that has copied the first tot bytes of src. */
  datatype Job = Job(n: nat, off: nat, src: seq<byte>, tot: nat)

  datatype Pc =
    | Away
    | Copying(job: Job)                        // at the head of the loop of writei
    | Marked(job: Job, slot: Slot, b: nat)     // balloc has set the bit of b, which is for slot
    | Cleared(job: Job, j: nat, b: nat)        // b is zeroed, and is to be entry j of the indirect block
    | Leaving(job: Job)                        // out of the loop

  /** A call of writei that has returned: d was written to file n at off. */
  datatype Call = Call(n: nat, off: nat, d: seq<byte>)

  /** want holds the bytes of every file, the chunks copied so far included; done lists the calls that
      have returned, in the order in which they did. */
  datatype State = State(fs: Fs, blocks: seq<Block>, want: map<nat, seq<byte>>, pcs: seq<Pc>, done: seq<Call>)

  datatype Action =
    | Start(p: nat, n: nat, off: nat, src: seq<byte>)
    | Mark(p: nat, b: nat)
    | Clear(p: nat)
    | Enter(p: nat)
    | Copy(p: nat)
    | Leave(p: nat)
    | Update(p: nat)

  predicate Holds(pc: Pc) { pc.Marked? || pc.Cleared? }

  function SlotFor(pc: Pc): Slot
    requires Holds(pc)
  {
    if pc.Marked? then pc.slot else Entry(pc.job.n, pc.j)
  }

  ghost function Hand(pcs: seq<Pc>): set<nat> {
    set p | 0 <= p < |pcs| && Holds(pcs[p]) :: pcs[p].b
  }

  function InHand(pc: Pc): set<nat> { if Holds(pc) then {pc.b} else {} }

  /** The inodes that are locked. */
  ghost function Busy(pcs: seq<Pc>): set<nat> {
    set p | 0 <= p < |pcs| && !pcs[p].Away? :: pcs[p].job.n
  }

  // ---------------------------------------------------------------- steps

  /** The pointer that bmap finds missing on the way to block bn of file n. */
  function Missing(lay: Layout, inodes: map<nat, Inode>, blocks: seq<Block>, n: nat, bn: nat): Option<Slot>
    requires |blocks| == lay.size && n in inodes && ValidInode(lay, inodes[n]) && bn < MAXFILE
  {
    if bn < NDIRECT then
      if inodes[n].addrs[bn] == 0 then Some(Pointer(n, bn)) else None
    else if inodes[n].addrs[NDIRECT] == 0 then Some(Pointer(n, NDIRECT))
    else if EntryAt(blocks, inodes[n], bn - NDIRECT) == 0 then Some(Entry(n, bn - NDIRECT)) else None
  }

  /** The block number bmap returns when nothing is missing. */
  function Found(lay: Layout, inodes: map<nat, Inode>, blocks: seq<Block>, n: nat, bn: nat): nat
    requires |blocks| == lay.size && n in inodes && ValidInode(lay, inodes[n]) && bn < MAXFILE
  {
    if bn < NDIRECT then inodes[n].addrs[bn] else EntryAt(blocks, inodes[n], bn - NDIRECT)
  }

  ghost predicate Sized(s: State) {
    Shape(s.fs) && |s.blocks| == s.fs.lay.size
  }

  /** The next chunk of a job lies in a file. */
  ghost predicate MayCopy(s: State, job: Job) {
    Sized(s) && job.n in s.fs.inodes && job.tot < |job.src| && (job.off + job.tot) / BSIZE < MAXFILE
  }

  ghost function Wanting(s: State, job: Job): Option<Slot>
    requires MayCopy(s, job)
  {
    Missing(s.fs.lay, s.fs.inodes, s.blocks, job.n, (job.off + job.tot) / BSIZE)
  }

  /** Any free block may be found by balloc; a process may leave the loop at any time, because the
      disk is full or its memory cannot be read, or because it is done. */
  ghost predicate Enabled(s: State, a: Action) {
    && Sized(s) && a.p < |s.pcs|
    && var pc := s.pcs[a.p];
       match a
       case Start(_, n, off, src) =>
         && pc.Away? && n in s.fs.inodes && n !in Busy(s.pcs)
         && off <= s.fs.inodes[n].size && off + |src| < WORD_LIMIT && off + |src| <= MAXFILE * BSIZE
       case Mark(_, b) =>
         && pc.Copying? && MayCopy(s, pc.job) && Wanting(s, pc.job).Some?
         && b < s.fs.lay.size && !Used(s.fs.lay, s.blocks, b)
       case Clear(_) => pc.Marked?
       case Enter(_) => pc.Cleared?
       case Copy(_) => pc.Copying? && MayCopy(s, pc.job) && Wanting(s, pc.job).None?
       case Leave(_) => pc.Copying?
       case Update(_) => pc.Leaving?
  }

  function Max(a: nat, b: nat): nat { if a < b then b else a }

  // ---------------------------------------------------------------- the invariant

  /** No two processes write the same file or have the same block in hand. */
  ghost predicate Apart(pcs: seq<Pc>) {
    forall p, q :: 0 <= p < q < |pcs| && !pcs[p].Away? && !pcs[q].Away? ==>
      pcs[p].job.n != pcs[q].job.n && (Holds(pcs[p]) && Holds(pcs[q]) ==> pcs[p].b != pcs[q].b)
  }

  /** While file n is written, its size is what it was, and its bytes reach to where the call has come. */
  ghost predicate JobRight(fs: Fs, want: map<nat, seq<byte>>, job: Job) {
    && job.n in fs.inodes && job.n in want && job.tot <= |job.src| && job.off + |job.src| <= MAXFILE * BSIZE
    && job.off <= fs.inodes[job.n].size && |want[job.n]| == Max(fs.inodes[job.n].size, job.off + job.tot)
  }

  ghost predicate HandRight(fs: Fs, blocks: seq<Block>, pc: Pc)
    requires Holds(pc)
  {
    && CanAttach(fs, SlotFor(pc), pc.b) && SlotFor(pc).inum == pc.job.n && |blocks| == fs.lay.size
    && (pc.Cleared? ==> blocks[pc.b] == ZeroBlock())
  }

  ghost predicate PcRight(fs: Fs, blocks: seq<Block>, want: map<nat, seq<byte>>, pc: Pc) {
    && (!pc.Away? ==> JobRight(fs, want, pc.job))
    && (Holds(pc) ==> HandRight(fs, blocks, pc))
  }

  /** The cache is the file system, but for the blocks in hand and their bits. */
  ghost predicate Rel(lay: Layout, blocks: seq<Block>, settled: seq<Block>, hand: set<nat>)
    requires ValidLayout(lay)
  {
    && |blocks| == |settled| == lay.size
    && (forall x :: 0 <= x < lay.size && (x < lay.bmapstart || lay.meta <= x) && x !in hand ==> blocks[x] == settled[x])
    && (forall m, i :: lay.bmapstart <= m < lay.meta && 0 <= i < BPB ==>
          TestBit(blocks[m], i) == (TestBit(settled[m], i) || (m - lay.bmapstart) * BPB + i in hand))
  }

  ghost predicate FileRight(fs: Fs, want: map<nat, seq<byte>>, busy: set<nat>, m: nat)
    requires Shape(fs) && Owned(fs)
  {
    && m in fs.inodes && m in want && HasBytes(fs, m, want[m])
    && fs.inodes[m].size <= |want[m]|
    && (m !in busy ==> fs.inodes[m].size == |want[m]| && Stored(fs, m))
  }

  ghost predicate Files(fs: Fs, want: map<nat, seq<byte>>, busy: set<nat>) {
    && Shape(fs) && Owned(fs) && want.Keys == fs.inodes.Keys
    && forall m {:trigger FileRight(fs, want, busy, m)} :: m in fs.inodes ==> FileRight(fs, want, busy, m)
  }

  ghost predicate Pcs(fs: Fs, blocks: seq<Block>, want: map<nat, seq<byte>>, pcs: seq<Pc>) {
    forall p :: 0 <= p < |pcs| ==> PcRight(fs, blocks, want, pcs[p])
  }

  ghost predicate Inv(s: State) {
    && Files(s.fs, s.want, Busy(s.pcs)) && Apart(s.pcs) && Pcs(s.fs, s.blocks, s.want, s.pcs)
    && Rel(s.fs.lay, s.blocks, s.fs.blocks, Hand(s.pcs))
  }

  // ---------------------------------------------------------------- the cache and the blocks in hand

  /** A bit of the cache is set for used blocks and for those in hand. */
  lemma RelUsed(lay: Layout, blocks: seq<Block>, settled: seq<Block>, hand: set<nat>, b: nat)
    requires ValidLayout(lay) && Rel(lay, blocks, settled, hand) && b < lay.size
    ensures Used(lay, blocks, b) <==> Used(lay, settled, b) || b in hand
  {
    hide TestBit;
    assert (BBlock(lay, b) - lay.bmapstart) * BPB + b % BPB == b;
  }

  lemma RelMark(lay: Layout, blocks: seq<Block>, settled: seq<Block>, hand: set<nat>, b: nat)
    requires ValidLayout(lay) && Rel(lay, blocks, settled, hand) && b < lay.size && !Used(lay, blocks, b)
    ensures Rel(lay, blocks[BBlock(lay, b) := SetBit(blocks[BBlock(lay, b)], b % BPB)], settled, hand + {b})
  {
    hide TestBit, SetBit;
    var k := BBlock(lay, b);
    var blocks' := blocks[k := SetBit(blocks[k], b % BPB)];
    forall m, i | lay.bmapstart <= m < lay.meta && 0 <= i < BPB
      ensures TestBit(blocks'[m], i) == (TestBit(settled[m], i) || (m - lay.bmapstart) * BPB + i in hand + {b})
    {
      if m == k {
        SetBitBits(blocks[k], b % BPB, i);
      }
      OneBit(m - lay.bmapstart, i, b);
    }
  }

  lemma OneBit(k: nat, i: nat, b: nat)
    requires i < BPB
    ensures k * BPB + i == b <==> k == b / BPB && i == b % BPB
  {
  }

  /** A zeroed block goes from the hand into the file system. */
  lemma RelAlloc(lay: Layout, blocks: seq<Block>, settled: seq<Block>, hand: set<nat>, b: nat)
    requires ValidLayout(lay) && Rel(lay, blocks, settled, hand) && b in hand && lay.meta <= b < lay.size
    requires !Used(lay, settled, b) && blocks[b] == ZeroBlock()
    ensures Rel(lay, blocks, AllocBlocks(lay, settled, b), hand - {b})
  {
    hide TestBit, SetBit;
    var k := BBlock(lay, b);
    var settled' := AllocBlocks(lay, settled, b);
    forall m, i | lay.bmapstart <= m < lay.meta && 0 <= i < BPB
      ensures TestBit(blocks[m], i) == (TestBit(settled'[m], i) || (m - lay.bmapstart) * BPB + i in hand - {b})
    {
      if m == k {
        SetBitBits(settled[k], b % BPB, i);
      }
      OneBit(m - lay.bmapstart, i, b);
    }
  }

  lemma RelStore(lay: Layout, blocks: seq<Block>, settled: seq<Block>, hand: set<nat>, x: nat, v: Block)
    requires ValidLayout(lay) && Rel(lay, blocks, settled, hand) && x < lay.size && (x < lay.bmapstart || lay.meta <= x)
    ensures Rel(lay, blocks[x := v], settled[x := v], hand)
    ensures x in hand ==> Rel(lay, blocks[x := v], settled, hand)
  {
    hide TestBit;
  }

  /** With nothing in hand, the cache is the file system. */
  lemma RelEmpty(lay: Layout, blocks: seq<Block>, settled: seq<Block>)
    requires ValidLayout(lay) && Rel(lay, blocks, settled, {})
    ensures blocks == settled
  {
    hide TestBit;
    forall x | 0 <= x < lay.size ensures blocks[x] == settled[x] {
      if lay.bmapstart <= x < lay.meta {
        SameBlockBits(blocks[x], settled[x]);
      }
    }
  }

  // ---------------------------------------------------------------- one file changes

  /** From s to s', only file n and the free map change. */
  ghost predicate Moves(s: Fs, s': Fs, n: nat) {
    hide Owned;
    && Shape(s) && Owned(s) && Shape(s') && Owned(s')
    && s'.lay == s.lay && s'.inodes.Keys == s.inodes.Keys && n in s.inodes
    && (forall m :: m in s.inodes && m != n ==> s'.inodes[m] == s.inodes[m] && Stored(s', m) == Stored(s, m))
    && (forall slot: Slot :: slot.inum != n ==> At(s', slot) == At(s, slot))
    && OthersKept(s, s', n)
  }

  lemma AttachMoves(s: Fs, slot: Slot, b: nat)
    requires CanAttach(s, slot, b)
    ensures var s' := Attach(s, slot, b);
      && Moves(s, s', slot.inum) && KeepsBytes(s, s')
      && UsedSet(s.lay, s'.blocks) == UsedSet(s.lay, s.blocks) + {b}
      && s'.inodes[slot.inum].size == s.inodes[slot.inum].size
  {
    hide Attach, Owned, UsedSet, At, Allocated, Bytes, HoldsInode;
    var s' := Attach(s, slot, b);
    GrewAttach(s, slot, b);
    AttachOwned(s, slot, b);
    AttachUsed(s, slot, b);
    AttachOwner(s, slot, b);
    AttachLow(s, slot, b);
  }

  lemma PatchMoves(s: Fs, n: nat, bytes: seq<byte>, cur: nat, d: seq<byte>)
    requires Shape(s) && Owned(s) && HasBytes(s, n, bytes) && n in s.inodes
    requires cur <= |bytes| && 0 < |d| <= BSIZE - cur % BSIZE && cur < MAXFILE * BSIZE
    requires At(s, SlotOf(n, cur / BSIZE)) != 0
    ensures var b := At(s, SlotOf(n, cur / BSIZE));
      s.lay.meta <= b < s.lay.size &&
      var s' := s.(blocks := s.blocks[b := Patch(s.blocks[b], cur % BSIZE, d)]);
      Moves(s, s', n) && HasBytes(s', n, Splice(bytes, cur, d)) && UsedSet(s.lay, s'.blocks) == UsedSet(s.lay, s.blocks)
      && forall slot :: At(s', slot) == At(s, slot)
  {
    hide Owned, UsedSet, At, Allocated, Bytes, HoldsInode;
    var b := At(s, SlotOf(n, cur / BSIZE));
    DataOwned(s, n, cur / BSIZE);
    var v := Patch(s.blocks[b], cur % BSIZE, d);
    PatchBytes(s, n, |bytes|, cur, d);
    StoreKeeps(s, b, v);
    PatchOthers(s, s, n, cur / BSIZE, v);
    UsedFrame(s.lay, s.blocks, b, v);
  }

  lemma FinishedAt(s: Fs, n: nat, size: nat)
    requires Shape(s) && Owned(s) && n in s.inodes && size <= MAXFILE * BSIZE
    ensures Shape(Finished(s, n, size)) && forall slot :: At(Finished(s, n, size), slot) == At(s, slot)
  {
    hide Owned, UsedSet, At, PutInode;
    var ip := s.inodes[n].(size := size);
    var ib := IBlock(s.lay, n);
    ResizeOwned(s, n, size);
    StoreKeeps(s.(inodes := s.inodes[n := ip]), ib, PutInode(s.blocks[ib], n, ip, NDIRECT + 1));
  }

  lemma FinishedMoves(s: Fs, n: nat, size: nat)
    requires Shape(s) && Owned(s) && n in s.inodes && size <= MAXFILE * BSIZE
    ensures var s' := Finished(s, n, size);
      && Moves(s, s', n) && KeepsBytes(s, s') && Stored(s', n) && s'.inodes[n].size == size
      && UsedSet(s.lay, s'.blocks) == UsedSet(s.lay, s.blocks)
  {
    FinishedKeeps(s, n, size);
    FinishedAt(s, n, size);
    FinishedInodes(s, n, size);
    FinishedUsed(s, n, size);
    FinishedStored(s, n, size, n);
    hide Owned, UsedSet, At, Finished, Allocated, Bytes, Stored;
    forall m | m in s.inodes && m != n ensures Stored(Finished(s, n, size), m) == Stored(s, m) {
      FinishedStored(s, n, size, m);
    }
  }

  lemma MovesRefl(s: Fs, n: nat)
    requires Shape(s) && Owned(s) && n in s.inodes
    ensures Moves(s, s, n)
  {
    hide Owned, At, Allocated, Bytes;
  }

  lemma MovesShape(s: Fs, s': Fs, n: nat)
    requires Moves(s, s', n)
    ensures Shape(s) && Owned(s) && Shape(s') && Owned(s') && s'.lay == s.lay && s'.inodes.Keys == s.inodes.Keys
    ensures n in s.inodes
  {
    hide Owned;
  }

  // ---------------------------------------------------------------- what a step keeps

  lemma FilesMove(fs: Fs, fs': Fs, want: map<nat, seq<byte>>, want': map<nat, seq<byte>>,
                  busy: set<nat>, busy': set<nat>, n: nat)
    requires Files(fs, want, busy) && Moves(fs, fs', n) && n in want' && want' == want[n := want'[n]]
    requires forall m :: m != n ==> (m in busy' <==> m in busy)
    requires FileRight(fs', want', busy', n)
    ensures Files(fs', want', busy')
  {
    hide Owned, At, Allocated, Bytes, Stored;
    forall m | m in fs'.inodes ensures FileRight(fs', want', busy', m) {
      assert FileRight(fs, want, busy, m);
    }
  }

  /** A process that writes another file. */
  lemma OtherPc(fs: Fs, fs': Fs, blocks: seq<Block>, blocks': seq<Block>,
                want: map<nat, seq<byte>>, want': map<nat, seq<byte>>,
                n: nat, pc: Pc)
    requires PcRight(fs, blocks, want, pc) && Moves(fs, fs', n) && n in want' && want' == want[n := want'[n]]
    requires !pc.Away? ==> pc.job.n != n
    requires |blocks'| == |blocks|
    requires Holds(pc) ==> pc.b !in UsedSet(fs'.lay, fs'.blocks) && pc.b < |blocks| && blocks'[pc.b] == blocks[pc.b]
    ensures PcRight(fs', blocks', want', pc)
  {
    hide Owned, At, UsedSet, OthersKept, Stored;
  }

  lemma HandAt(pcs: seq<Pc>, p: nat)
    requires p < |pcs| && Holds(pcs[p])
    ensures pcs[p].b in Hand(pcs)
  {
  }

  lemma BusyAt(pcs: seq<Pc>, p: nat)
    requires p < |pcs| && !pcs[p].Away?
    ensures pcs[p].job.n in Busy(pcs)
  {
  }

  /** The hand and the locks when process p moves. */
  lemma HandMoves(pcs: seq<Pc>, p: nat, pc: Pc)
    requires Apart(pcs) && p < |pcs|
    requires Holds(pc) ==> pc.b !in Hand(pcs) || (Holds(pcs[p]) && pc.b == pcs[p].b)
    ensures Hand(pcs[p := pc]) ==
            Hand(pcs) - InHand(pcs[p]) + InHand(pc)
  {
    var pcs' := pcs[p := pc];
    forall x ensures x in Hand(pcs') <==>
      (x in Hand(pcs) && !(Holds(pcs[p]) && x == pcs[p].b)) || (Holds(pc) && x == pc.b)
    {
      if x in Hand(pcs') {
        var q :| 0 <= q < |pcs'| && Holds(pcs'[q]) && pcs'[q].b == x;
        if q != p {
          HandAt(pcs, q);
        }
      }
      if x in Hand(pcs) && !(Holds(pcs[p]) && x == pcs[p].b) {
        var q :| 0 <= q < |pcs| && Holds(pcs[q]) && pcs[q].b == x;
        HandAt(pcs', q);
      }
      if Holds(pc) && x == pc.b {
        HandAt(pcs', p);
      }
    }
  }

  lemma BusyMoves(pcs: seq<Pc>, p: nat, pc: Pc, n: nat)
    requires Apart(pcs) && p < |pcs| && (if pcs[p].Away? then n !in Busy(pcs) else pcs[p].job.n == n)
    requires (!pc.Away? ==> pc.job.n == n)
    ensures Busy(pcs[p := pc]) == Busy(pcs) - {n} + (if pc.Away? then {} else {n})
    ensures forall q :: 0 <= q < |pcs| && q != p && !pcs[q].Away? ==> pcs[q].job.n != n
  {
    var pcs' := pcs[p := pc];
    forall q | 0 <= q < |pcs| && q != p && !pcs[q].Away? ensures pcs[q].job.n != n {
      BusyAt(pcs, q);
    }
    forall x ensures x in Busy(pcs') <==> (x in Busy(pcs) && x != n) || (!pc.Away? && x == n) {
      if x in Busy(pcs') {
        var q :| 0 <= q < |pcs'| && !pcs'[q].Away? && pcs'[q].job.n == x;
        if q != p {
          BusyAt(pcs, q);
        }
      }
      if x in Busy(pcs) && x != n {
        var q :| 0 <= q < |pcs| && !pcs[q].Away? && pcs[q].job.n == x;
        BusyAt(pcs', q);
      }
      if !pc.Away? && x == n {
        BusyAt(pcs', p);
      }
    }
  }

  lemma ApartMoves(pcs: seq<Pc>, p: nat, pc: Pc, n: nat)
    requires Apart(pcs) && p < |pcs| && (if pcs[p].Away? then n !in Busy(pcs) else pcs[p].job.n == n)
    requires (!pc.Away? ==> pc.job.n == n)
    requires Holds(pc) ==> pc.b !in Hand(pcs) || (Holds(pcs[p]) && pc.b == pcs[p].b)
    ensures Apart(pcs[p := pc])
  {
    BusyMoves(pcs, p, pc, n);
    forall q | 0 <= q < |pcs| && q != p && Holds(pcs[q]) && Holds(pc) ensures pcs[q].b != pc.b {
      HandAt(pcs, q);
    }
  }

  /** A step of process p on file n: what is to be shown about p itself. */
  ghost predicate StepRight(s: State, s': State, p: nat, n: nat) {
    hide Owned;
    && p < |s.pcs| && |s'.pcs| == |s.pcs| && s'.pcs == s.pcs[p := s'.pcs[p]]
    && Moves(s.fs, s'.fs, n) && n in s'.want && s'.want == s.want[n := s'.want[n]] && |s'.blocks| == |s.blocks|
    && (if s.pcs[p].Away? then n !in Busy(s.pcs) else s.pcs[p].job.n == n)
    && (!s'.pcs[p].Away? ==> s'.pcs[p].job.n == n)
    && PcRight(s'.fs, s'.blocks, s'.want, s'.pcs[p])
    && (Holds(s'.pcs[p]) ==> s'.pcs[p].b !in Hand(s.pcs) || (Holds(s.pcs[p]) && s'.pcs[p].b == s.pcs[p].b))
    && UsedSet(s'.fs.lay, s'.fs.blocks) <= UsedSet(s.fs.lay, s.fs.blocks) + InHand(s.pcs[p])
    && FileRight(s'.fs, s'.want, if s'.pcs[p].Away? then {} else {n}, n)
  }

  /** Blocks in the hand of others are not written. */
  ghost predicate HandsKept(s: State, s': State, p: nat)
    requires p < |s.pcs|
  {
    && |s'.blocks| == |s.blocks|
    && forall x :: x in Hand(s.pcs) && x < |s.blocks| && !(Holds(s.pcs[p]) && s.pcs[p].b == x) ==>
      s'.blocks[x] == s.blocks[x]
  }

  lemma StepKeeps(s: State, s': State, p: nat, n: nat)
    requires Inv(s) && StepRight(s, s', p, n) && HandsKept(s, s', p)
    requires Rel(s'.fs.lay, s'.blocks, s'.fs.blocks,
                 Hand(s.pcs) - InHand(s.pcs[p]) + InHand(s'.pcs[p]))
    ensures Inv(s')
  {
    hide Owned, UsedSet, At, Moves, Rel, FileRight, PcRight;
    MovesShape(s.fs, s'.fs, n);
    HandMoves(s.pcs, p, s'.pcs[p]);
    BusyMoves(s.pcs, p, s'.pcs[p], n);
    ApartMoves(s.pcs, p, s'.pcs[p], n);
    FilesFor(s'.fs, s'.want, if s'.pcs[p].Away? then {} else {n}, Busy(s'.pcs), n);
    FilesMove(s.fs, s'.fs, s.want, s'.want, Busy(s.pcs), Busy(s'.pcs), n);
    forall q | 0 <= q < |s'.pcs| ensures PcRight(s'.fs, s'.blocks, s'.want, s'.pcs[q]) {
      if q != p {
        OtherStays(s, s', p, q, n);
      }
    }
  }

  lemma FilesFor(fs: Fs, want: map<nat, seq<byte>>, busy: set<nat>, busy': set<nat>, n: nat)
    requires Shape(fs) && Owned(fs) && FileRight(fs, want, busy, n) && (n in busy' <==> n in busy)
    ensures FileRight(fs, want, busy', n)
  {
  }

  lemma OtherStays(s: State, s': State, p: nat, q: nat, n: nat)
    requires Inv(s) && StepRight(s, s', p, n) && HandsKept(s, s', p) && q < |s.pcs| && q != p
    requires !s.pcs[q].Away? ==> s.pcs[q].job.n != n
    ensures PcRight(s'.fs, s'.blocks, s'.want, s.pcs[q])
  {
    hide Owned, UsedSet, At, Moves, Rel, Files, FileRight;
    assert PcRight(s.fs, s.blocks, s.want, s.pcs[q]);
    if Holds(s.pcs[q]) {
      HandAt(s.pcs, q);
      assert Holds(s.pcs[p]) ==> s.pcs[q].b != s.pcs[p].b;
    }
    OtherPc(s.fs, s'.fs, s.blocks, s'.blocks, s.want, s'.want, n, s.pcs[q]);
  }

  // ---------------------------------------------------------------- the steps

  /** Pointers read through the cache are those of the file system. */
  lemma SameMap(s: State, n: nat, bn: nat)
    requires Inv(s) && n in s.fs.inodes && bn < MAXFILE
    ensures Sized(s) && Found(s.fs.lay, s.fs.inodes, s.blocks, n, bn) == At(s.fs, SlotOf(n, bn))
    ensures match Missing(s.fs.lay, s.fs.inodes, s.blocks, n, bn)
            case None => At(s.fs, SlotOf(n, bn)) != 0
            case Some(slot) =>
              && At(s.fs, slot) == 0 && slot.inum == n
              && (match slot case Pointer(_, i) => i <= NDIRECT
                             case Entry(_, j) => j < NINDIRECT && s.fs.inodes[n].addrs[NDIRECT] != 0)
  {
    hide Owned, UsedSet, Files, Pcs, Apart, EntryAt;
    assert Shape(s.fs) && Owned(s.fs) by { FilesShape(s.fs, s.want, Busy(s.pcs)); }
    if bn >= NDIRECT {
      IndirectSame(s, n);
      EntryFrame(s.fs.blocks, s.blocks, s.fs.inodes[n], bn - NDIRECT);
      if s.fs.inodes[n].addrs[NDIRECT] == 0 {
        NoEntries(s.blocks, s.fs.inodes[n], bn - NDIRECT);
      }
    }
  }

  lemma FilesShape(fs: Fs, want: map<nat, seq<byte>>, busy: set<nat>)
    requires Files(fs, want, busy)
    ensures Shape(fs) && Owned(fs) && ValidLayout(fs.lay)
  {
    hide Owned;
  }

  /** Blocks in hand belong to no file. */
  lemma HandFree(s: State, x: nat)
    requires Inv(s) && x in Hand(s.pcs)
    ensures Sized(s) && x < s.fs.lay.size && x !in UsedSet(s.fs.lay, s.fs.blocks) && x !in s.fs.owner
    ensures s.fs.lay.meta <= x
  {
    hide Owned, UsedSet, Files, Rel;
    var p :| 0 <= p < |s.pcs| && Holds(s.pcs[p]) && s.pcs[p].b == x;
    assert PcRight(s.fs, s.blocks, s.want, s.pcs[p]);
    FreshBlock(s.fs, x);
    assert Sized(s);
  }

  lemma IndirectSame(s: State, n: nat)
    requires Inv(s) && n in s.fs.inodes
    ensures Sized(s) && var p := s.fs.inodes[n].addrs[NDIRECT];
      p != 0 ==>
        s.fs.lay.meta <= p < s.fs.lay.size && p in s.fs.owner && p !in Hand(s.pcs) && s.blocks[p] == s.fs.blocks[p]
  {
    hide Owned, UsedSet, Files, Pcs, Apart, Hand;
    FilesShape(s.fs, s.want, Busy(s.pcs));
    IndirectOwned(s.fs, n);
    var p := s.fs.inodes[n].addrs[NDIRECT];
    if p != 0 && p in Hand(s.pcs) {
      HandFree(s, p);
      assert false;
    }
  }

  lemma DataSame(s: State, n: nat, bn: nat)
    requires Inv(s) && n in s.fs.inodes && bn < MAXFILE && Shape(s.fs) && At(s.fs, SlotOf(n, bn)) != 0
    ensures Sized(s) && var b := At(s.fs, SlotOf(n, bn));
      s.fs.lay.meta <= b < s.fs.lay.size && b !in Hand(s.pcs) && s.blocks[b] == s.fs.blocks[b]
  {
    hide Owned, UsedSet, Files, Pcs, Apart, Hand, At;
    FilesShape(s.fs, s.want, Busy(s.pcs));
    DataOwned(s.fs, n, bn);
    var b := At(s.fs, SlotOf(n, bn));
    if b in Hand(s.pcs) {
      HandFree(s, b);
      assert false;
    }
  }

  lemma PcAt(s: State, p: nat)
    requires Inv(s) && p < |s.pcs|
    ensures PcRight(s.fs, s.blocks, s.want, s.pcs[p]) && Sized(s)
  {
    hide Owned, UsedSet, At, PcRight, Hand;
  }

  function Chunk(job: Job): seq<byte>
    requires job.tot < |job.src|
  {
    job.src[job.tot..job.tot + ChunkAt(job.off, job.tot, |job.src|)]
  }

  /** The inode that iupdate stores at the end of a call. */
  function Grown(ip: Inode, job: Job): Inode {
    ip.(size := Max(ip.size, job.off + job.tot))
  }

  /** The log_write of a step. */
  ghost function Logs(s: State, a: Action): (w: Option<Store>)
    requires Inv(s) && Enabled(s, a)
    ensures w.Some? ==> s.fs.lay.inodestart <= w.value.b < s.fs.lay.size
  {
    hide Owned, UsedSet, At, Hand, Rel, Files, Apart, Pcs, TestBit;
    PcAt(s, a.p);
    match a
    case Start(_, _, _, _) => None
    case Leave(_) => None
    case Mark(_, b) => Some(Store(BBlock(s.fs.lay, b), SetBit(s.blocks[BBlock(s.fs.lay, b)], b % BPB)))
    case Clear(p) => Some(ClearStore(s, p))
    case Enter(p) => Some(EnterStore(s, p))
    case Copy(p) => Some(CopyStore(s, s.pcs[p].job))
    case Update(p) => Some(UpdateStore(s, s.pcs[p].job))
  }

  ghost function ClearStore(s: State, p: nat): (w: Store)
    requires Inv(s) && p < |s.pcs| && s.pcs[p].Marked?
    ensures s.fs.lay.inodestart <= w.b < s.fs.lay.size
  {
    hide Owned, UsedSet, At, Hand, Rel, Files, Apart, Pcs;
    HandAt(s.pcs, p);
    HandFree(s, s.pcs[p].b);
    Store(s.pcs[p].b, ZeroBlock())
  }

  ghost function EnterStore(s: State, p: nat): (w: Store)
    requires Inv(s) && p < |s.pcs| && s.pcs[p].Cleared?
    ensures s.fs.lay.inodestart <= w.b < s.fs.lay.size
  {
    hide Owned, UsedSet, At, Hand, Rel, Files, Apart, Pcs;
    PcAt(s, p);
    var pc := s.pcs[p];
    IndirectSame(s, pc.job.n);
    var ind := s.fs.inodes[pc.job.n].addrs[NDIRECT];
    Store(ind, PutWord(s.blocks[ind], 4 * pc.j, pc.b))
  }

  ghost function CopyStore(s: State, job: Job): (w: Store)
    requires Inv(s) && MayCopy(s, job) && Wanting(s, job).None?
    ensures s.fs.lay.inodestart <= w.b < s.fs.lay.size
  {
    hide Owned, UsedSet, At, Hand, Rel, Files, Apart, Pcs;
    var cur := job.off + job.tot;
    SameMap(s, job.n, cur / BSIZE);
    DataSame(s, job.n, cur / BSIZE);
    var b := Found(s.fs.lay, s.fs.inodes, s.blocks, job.n, cur / BSIZE);
    Store(b, Patch(s.blocks[b], cur % BSIZE, Chunk(job)))
  }

  ghost function UpdateStore(s: State, job: Job): (w: Store)
    requires Sized(s) && JobRight(s.fs, s.want, job)
    ensures s.fs.lay.inodestart <= w.b < s.fs.lay.size
  {
    var ib := IBlock(s.fs.lay, job.n);
    Store(ib, PutInode(s.blocks[ib], job.n, Grown(s.fs.inodes[job.n], job), NDIRECT + 1))
  }

  ghost function Next(s: State, a: Action): State
    requires Inv(s) && Enabled(s, a)
  {
    hide Owned, UsedSet, At, Hand, Rel, Files, Apart, Pcs, TestBit;
    PcAt(s, a.p);
    var w, pc := Logs(s, a), s.pcs[a.p];
    var s1 := if w.None? then s else s.(blocks := s.blocks[w.value.b := w.value.v]);
    match a
    case Start(p, n, off, src) => s1.(pcs := s.pcs[p := Copying(Job(n, off, src, 0))])
    case Mark(p, b) => s1.(pcs := s.pcs[p := Marked(pc.job, Wanting(s, pc.job).value, b)])
    case Clear(p) =>
      if pc.slot.Pointer? then s1.(fs := Attach(s.fs, pc.slot, pc.b), pcs := s.pcs[p := Copying(pc.job)])
      else s1.(pcs := s.pcs[p := Cleared(pc.job, pc.slot.j, pc.b)])
    case Enter(p) => s1.(fs := Attach(s.fs, SlotFor(pc), pc.b), pcs := s.pcs[p := Copying(pc.job)])
    case Copy(p) =>
      var cur, d := pc.job.off + pc.job.tot, Chunk(pc.job);
      s1.(fs := s.fs.(blocks := s.fs.blocks[w.value.b := w.value.v]),
          want := s.want[pc.job.n := Splice(s.want[pc.job.n], cur, d)],
          pcs := s.pcs[p := Copying(pc.job.(tot := pc.job.tot + |d|))])
    case Leave(p) => s1.(pcs := s.pcs[p := Leaving(pc.job)])
    case Update(p) =>
      s1.(fs := Finished(s.fs, pc.job.n, Grown(s.fs.inodes[pc.job.n], pc.job).size), pcs := s.pcs[p := Away],
          done := s.done + [Call(pc.job.n, pc.job.off, pc.job.src[..pc.job.tot])])
  }

  // ---------------------------------------------------------------- every step keeps the invariant

  lemma FileAt(s: State, n: nat)
    requires Inv(s) && n in s.fs.inodes
    ensures Shape(s.fs) && Owned(s.fs) && Sized(s) && n in s.want && FileRight(s.fs, s.want, Busy(s.pcs), n)
  {
    hide Owned, UsedSet, At, Hand, Apart, Pcs;
  }

  lemma StartKeeps(s: State, p: nat, n: nat, off: nat, src: seq<byte>)
    requires Inv(s) && Enabled(s, Start(p, n, off, src))
    ensures Inv(Next(s, Start(p, n, off, src)))
  {
    hide Owned, UsedSet, At, Hand, Rel, Files, Apart, Pcs, Stored, Busy;
    var s' := Next(s, Start(p, n, off, src));
    FileAt(s, n);
    MovesRefl(s.fs, n);
    SameWant(s.want, n);
    FilesFor(s.fs, s.want, Busy(s.pcs), {}, n);
    Loosen(s.fs, s.want, {}, {n}, n);
    assert Hand(s.pcs) - {} + {} == Hand(s.pcs);
    InvRel(s);
    StepKeeps(s, s', p, n);
  }

  lemma SameWant(want: map<nat, seq<byte>>, n: nat)
    requires n in want
    ensures want[n := want[n]] == want
  {
  }

  lemma InvRel(s: State)
    requires Inv(s)
    ensures Sized(s) && Rel(s.fs.lay, s.blocks, s.fs.blocks, Hand(s.pcs))
  {
    hide Owned, UsedSet, At, Hand, Apart, Pcs;
  }

  lemma Loosen(fs: Fs, want: map<nat, seq<byte>>, busy: set<nat>, busy': set<nat>, n: nat)
    requires Shape(fs) && Owned(fs) && FileRight(fs, want, busy, n) && n in busy'
    ensures FileRight(fs, want, busy', n)
  {
    hide Owned, At;
  }

  lemma MarkKeeps(s: State, p: nat, b: nat)
    requires Inv(s) && Enabled(s, Mark(p, b))
    ensures Inv(Next(s, Mark(p, b)))
  {
    hide Owned, UsedSet, At, Hand, Rel, Files, Apart, Pcs, Stored, Busy, TestBit, SetBit, FileRight;
    var s', pc := Next(s, Mark(p, b)), s.pcs[p];
    var n := pc.job.n;
    PcAt(s, p);
    FileAt(s, n);
    MovesRefl(s.fs, n);
    SameWant(s.want, n);
    SameMap(s, n, (pc.job.off + pc.job.tot) / BSIZE);
    InvRel(s);
    RelUsed(s.fs.lay, s.blocks, s.fs.blocks, Hand(s.pcs), b);
    NotUsed(s.fs, b);
    BusyAt(s.pcs, p);
    Loosen(s.fs, s.want, Busy(s.pcs), {n}, n);
    RelMark(s.fs.lay, s.blocks, s.fs.blocks, Hand(s.pcs), b);
    assert Hand(s.pcs) - {} + {b} == Hand(s.pcs) + {b};
    HandsApart(s, s', p, BBlock(s.fs.lay, b), SetBit(s.blocks[BBlock(s.fs.lay, b)], b % BPB));
    StepKeeps(s, s', p, n);
  }

  lemma NotUsed(fs: Fs, b: nat)
    requires Shape(fs) && Owned(fs) && b < fs.lay.size
    ensures b in UsedSet(fs.lay, fs.blocks) <==> Used(fs.lay, fs.blocks, b)
  {
    hide Owned, TestBit;
  }

  /** A block outside the hands, or in one's own, is written. */
  lemma HandsApart(s: State, s': State, p: nat, x: nat, v: Block)
    requires Inv(s) && p < |s.pcs| && x < |s.blocks| && s'.blocks == s.blocks[x := v]
    requires x < s.fs.lay.meta || x !in Hand(s.pcs) || (Holds(s.pcs[p]) && s.pcs[p].b == x)
    ensures HandsKept(s, s', p)
  {
    hide Owned, UsedSet, At, Hand, Rel, Files, Apart, Pcs;
    forall x | x in Hand(s.pcs) ensures s.fs.lay.meta <= x {
      HandFree(s, x);
    }
  }

  /** A zeroed block in hand becomes the block of a pointer. */
  lemma ClearPointerKeeps(s: State, p: nat)
    requires Inv(s) && Enabled(s, Clear(p)) && s.pcs[p].slot.Pointer?
    ensures Inv(Next(s, Clear(p)))
  {
    hide Owned, UsedSet, At, Hand, Rel, Files, Apart, Pcs, Stored, Busy, TestBit, SetBit, FileRight, Moves, KeepsBytes;
    var s', pc := Next(s, Clear(p)), s.pcs[p];
    var n, b, fs := pc.job.n, pc.b, s.fs;
    PcAt(s, p);
    FileAt(s, n);
    AttachMoves(fs, pc.slot, b);
    BusyAt(s.pcs, p);
    AttachedFile(s, n, pc.slot, b);
    HandAt(s.pcs, p);
    HandFree(s, b);
    NotUsed(fs, b);
    InvRel(s);
    RelStore(fs.lay, s.blocks, fs.blocks, Hand(s.pcs), b, ZeroBlock());
    RelAlloc(fs.lay, s.blocks[b := ZeroBlock()], fs.blocks, Hand(s.pcs), b);
    assert Hand(s.pcs) - {b} + {} == Hand(s.pcs) - {b};
    SameWant(s.want, n);
    HandsApart(s, s', p, b, ZeroBlock());
    assert s'.fs.blocks == AllocBlocks(fs.lay, fs.blocks, b);
    StepKeeps(s, s', p, n);
  }

  lemma AttachedFile(s: State, n: nat, slot: Slot, b: nat)
    requires Inv(s) && CanAttach(s.fs, slot, b) && slot.inum == n && n in Busy(s.pcs)
    ensures var fs' := Attach(s.fs, slot, b);
      Shape(fs') && Owned(fs') && FileRight(fs', s.want, {n}, n)
  {
    hide Owned, UsedSet, At, Attach, Rel, Files, Apart, Pcs, Stored, Allocated, Bytes;
    FileAt(s, n);
    AttachMoves(s.fs, slot, b);
  }

  lemma ClearEntryKeeps(s: State, p: nat)
    requires Inv(s) && Enabled(s, Clear(p)) && s.pcs[p].slot.Entry?
    ensures Inv(Next(s, Clear(p)))
  {
    hide Owned, UsedSet, At, Hand, Rel, Files, Apart, Pcs, Stored, Busy, FileRight, Moves;
    var s', pc := Next(s, Clear(p)), s.pcs[p];
    var n, b := pc.job.n, pc.b;
    PcAt(s, p);
    FileAt(s, n);
    MovesRefl(s.fs, n);
    SameWant(s.want, n);
    HandAt(s.pcs, p);
    HandFree(s, b);
    InvRel(s);
    RelStore(s.fs.lay, s.blocks, s.fs.blocks, Hand(s.pcs), b, ZeroBlock());
    assert Hand(s.pcs) - {b} + {b} == Hand(s.pcs);
    BusyAt(s.pcs, p);
    Loosen(s.fs, s.want, Busy(s.pcs), {n}, n);
    HandsApart(s, s', p, b, ZeroBlock());
    StepKeeps(s, s', p, n);
  }

  lemma EnterKeeps(s: State, p: nat)
    requires Inv(s) && Enabled(s, Enter(p))
    ensures Inv(Next(s, Enter(p)))
  {
    hide Owned, UsedSet, At, Hand, Files, Apart, Pcs, Stored, Busy, TestBit, SetBit, FileRight, Moves, KeepsBytes, Rel;
    hide PutWord, GetWord;
    var s', pc := Next(s, Enter(p)), s.pcs[p];
    var n, b, fs := pc.job.n, pc.b, s.fs;
    PcAt(s, p);
    var ind := fs.inodes[n].addrs[NDIRECT];
    FileAt(s, n);
    BusyAt(s.pcs, p);
    AttachMoves(fs, SlotFor(pc), b);
    AttachedFile(s, n, SlotFor(pc), b);
    SameWant(s.want, n);
    IndirectSame(s, n);
    HandAt(s.pcs, p);
    EntryRel(s, p);
    assert Hand(s.pcs) - {b} + {} == Hand(s.pcs) - {b};
    HandsApart(s, s', p, ind, PutWord(s.blocks[ind], 4 * pc.j, b));
    StepKeeps(s, s', p, n);
  }

  lemma EntryRel(s: State, p: nat)
    requires Inv(s) && Enabled(s, Enter(p))
    ensures var s' := Next(s, Enter(p));
      && s'.fs.lay == s.fs.lay && ValidLayout(s.fs.lay)
      && Rel(s.fs.lay, s'.blocks, s'.fs.blocks, Hand(s.pcs) - {s.pcs[p].b})
  {
    hide Owned, UsedSet, At, Hand, Files, Apart, Pcs, TestBit, SetBit, Rel, PutWord, GetWord;
    var pc, fs := s.pcs[p], s.fs;
    var n, b := pc.job.n, pc.b;
    PcAt(s, p);
    var ind := fs.inodes[n].addrs[NDIRECT];
    FileAt(s, n);
    IndirectSame(s, n);
    HandAt(s.pcs, p);
    HandFree(s, b);
    NotUsed(fs, b);
    InvRel(s);
    RelAlloc(fs.lay, s.blocks, fs.blocks, Hand(s.pcs), b);
    var mid := AllocBlocks(fs.lay, fs.blocks, b);
    assert mid[ind] == s.blocks[ind];
    RelStore(fs.lay, s.blocks, mid, Hand(s.pcs) - {b}, ind, PutWord(s.blocks[ind], 4 * pc.j, b));
  }

  lemma CopyKeeps(s: State, p: nat)
    requires Inv(s) && Enabled(s, Copy(p))
    ensures Inv(Next(s, Copy(p)))
  {
    hide Owned, UsedSet, At, Hand, Rel, Files, Apart, Pcs, Stored, Busy, Moves, HasBytes, Patch, Splice;
    var s', pc := Next(s, Copy(p)), s.pcs[p];
    var n, fs, cur, d := pc.job.n, s.fs, pc.job.off + pc.job.tot, Chunk(pc.job);
    PcAt(s, p);
    FileAt(s, n);
    SameMap(s, n, cur / BSIZE);
    DataSame(s, n, cur / BSIZE);
    PatchMoves(fs, n, s.want[n], cur, d);
    SplicedSize(s.want[n], cur, d);
    var b := At(fs, SlotOf(n, cur / BSIZE));
    var v := Patch(s.blocks[b], cur % BSIZE, d);
    InvRel(s);
    RelStore(fs.lay, s.blocks, fs.blocks, Hand(s.pcs), b, v);
    assert Hand(s.pcs) - {} + {} == Hand(s.pcs);
    HandsApart(s, s', p, b, v);
    StepKeeps(s, s', p, n);
  }

  lemma SplicedSize(c: seq<byte>, cur: nat, d: seq<byte>)
    requires cur <= |c|
    ensures |Splice(c, cur, d)| == Max(|c|, cur + |d|)
  {
  }

  lemma LeaveKeeps(s: State, p: nat)
    requires Inv(s) && Enabled(s, Leave(p))
    ensures Inv(Next(s, Leave(p)))
  {
    hide Owned, UsedSet, At, Hand, Rel, Files, Apart, Pcs, Stored, Busy, FileRight, Moves;
    var s', n := Next(s, Leave(p)), s.pcs[p].job.n;
    PcAt(s, p);
    FileAt(s, n);
    MovesRefl(s.fs, n);
    SameWant(s.want, n);
    BusyAt(s.pcs, p);
    Loosen(s.fs, s.want, Busy(s.pcs), {n}, n);
    assert Hand(s.pcs) - {} + {} == Hand(s.pcs);
    InvRel(s);
    StepKeeps(s, s', p, n);
  }

  lemma UpdateKeeps(s: State, p: nat)
    requires Inv(s) && Enabled(s, Update(p))
    ensures Inv(Next(s, Update(p)))
  {
    hide Owned, UsedSet, At, Hand, Rel, Files, Apart, Pcs, Stored, Busy, Moves, Allocated, Bytes, PutInode;
    var s', pc := Next(s, Update(p)), s.pcs[p];
    var n, fs := pc.job.n, s.fs;
    PcAt(s, p);
    FileAt(s, n);
    FinishedMoves(fs, n, |s.want[n]|);
    SameWant(s.want, n);
    var ib := IBlock(fs.lay, n);
    var v := PutInode(s.blocks[ib], n, Grown(fs.inodes[n], pc.job), NDIRECT + 1);
    InvRel(s);
    InodeSame(s, n);
    RelStore(fs.lay, s.blocks, fs.blocks, Hand(s.pcs), ib, v);
    assert Hand(s.pcs) - {} + {} == Hand(s.pcs);
    HandsApart(s, s', p, ib, v);
    StepKeeps(s, s', p, n);
  }

  lemma InodeSame(s: State, n: nat)
    requires Inv(s) && n in s.fs.inodes
    ensures Sized(s) && s.blocks[IBlock(s.fs.lay, n)] == s.fs.blocks[IBlock(s.fs.lay, n)]
  {
    hide Owned, UsedSet, At, Hand, Files, Apart, Pcs, TestBit;
    FilesShape(s.fs, s.want, Busy(s.pcs));
    if IBlock(s.fs.lay, n) in Hand(s.pcs) {
      HandFree(s, IBlock(s.fs.lay, n));
      assert false;
    }
  }

  /** Whatever the order of the steps, the invariant stays. */
  lemma NextKeeps(s: State, a: Action)
    requires Inv(s) && Enabled(s, a)
    ensures Inv(Next(s, a))
  {
    hide Inv, Next;
    match a
    case Start(p, n, off, src) => StartKeeps(s, p, n, off, src);
    case Mark(p, b) => MarkKeeps(s, p, b);
    case Clear(p) =>
      if s.pcs[p].slot.Pointer? {
        ClearPointerKeeps(s, p);
      } else {
        ClearEntryKeeps(s, p);
      }
    case Enter(p) => EnterKeeps(s, p);
    case Copy(p) => CopyKeeps(s, p);
    case Leave(p) => LeaveKeeps(s, p);
    case Update(p) => UpdateKeeps(s, p);
  }

  // ---------------------------------------------------------------- one call after the other

  /** File n after the calls, run one after the other on files that were as in base. */
  function Effect(base: map<nat, seq<byte>>, done: seq<Call>, n: nat): seq<byte> {
    if done == [] then if n in base then base[n] else []
    else
      var c, e := done[|done| - 1], Effect(base, done[..|done| - 1], n);
      if c.n == n && c.off <= |e| then Splice(e, c.off, c.d) else e
  }

  ghost predicate InOrder(base: map<nat, seq<byte>>, s: State) {
    && (forall n :: n in s.want && n !in Busy(s.pcs) ==> s.want[n] == Effect(base, s.done, n))
    && (forall p :: 0 <= p < |s.pcs| && !s.pcs[p].Away? ==> JobInOrder(base, s, s.pcs[p].job))
  }

  /** A call under way has its first bytes in the file. */
  ghost predicate JobInOrder(base: map<nat, seq<byte>>, s: State, job: Job) {
    && job.n in s.want && job.tot <= |job.src| && job.off <= |Effect(base, s.done, job.n)|
    && s.want[job.n] == Splice(Effect(base, s.done, job.n), job.off, job.src[..job.tot])
  }

  lemma EffectMore(base: map<nat, seq<byte>>, done: seq<Call>, c: Call, n: nat)
    ensures var e := Effect(base, done, n);
      Effect(base, done + [c], n) == if c.n == n && c.off <= |e| then Splice(e, c.off, c.d) else e
  {
    assert (done + [c])[..|done|] == done;
  }

  lemma StartInOrder(base: map<nat, seq<byte>>, s: State, a: Action)
    requires Inv(s) && Enabled(s, a) && InOrder(base, s) && a.Start?
    ensures InOrder(base, Next(s, a))
  {
    hide Owned, UsedSet, At, Hand, Rel, Files, Pcs, Stored, HasBytes;
    var s', n := Next(s, a), a.n;
    BusyMoves(s.pcs, a.p, s'.pcs[a.p], n);
    FileAt(s, n);
    assert a.src[..0] == [];
    assert Splice(s.want[n], a.off, []) == s.want[n];
  }

  /** The other steps change no file. */
  lemma QuietInOrder(base: map<nat, seq<byte>>, s: State, a: Action)
    requires Inv(s) && Enabled(s, a) && InOrder(base, s) && !a.Start? && !a.Copy? && !a.Update?
    ensures InOrder(base, Next(s, a))
  {
    hide Owned, UsedSet, At, Hand, Rel, Files, Pcs, Stored, FileRight, Attach, Effect, Splice, Busy;
    var s', job := Next(s, a), s.pcs[a.p].job;
    PcAt(s, a.p);
    BusyAt(s.pcs, a.p);
    BusyMoves(s.pcs, a.p, s'.pcs[a.p], job.n);
    assert s'.want == s.want && s'.done == s.done && s'.pcs[a.p].job == job;
    assert JobInOrder(base, s, job);
  }

  lemma CopyInOrder(base: map<nat, seq<byte>>, s: State, p: nat)
    requires Inv(s) && Enabled(s, Copy(p)) && InOrder(base, s)
    ensures InOrder(base, Next(s, Copy(p)))
  {
    hide Owned, UsedSet, At, Hand, Rel, Files, Pcs, Splice, Effect;
    var s', job := Next(s, Copy(p)), s.pcs[p].job;
    PcAt(s, p);
    BusyMoves(s.pcs, p, s'.pcs[p], job.n);
    SpliceSplice(Effect(base, s.done, job.n), job.off, job.src[..job.tot], Chunk(job));
    assert job.src[..job.tot] + Chunk(job) == job.src[..job.tot + |Chunk(job)|];
  }

  lemma UpdateInOrder(base: map<nat, seq<byte>>, s: State, p: nat)
    requires Inv(s) && Enabled(s, Update(p)) && InOrder(base, s)
    ensures InOrder(base, Next(s, Update(p)))
  {
    hide Owned, UsedSet, At, Hand, Rel, Files, Pcs, Splice, Effect;
    var s', job := Next(s, Update(p)), s.pcs[p].job;
    PcAt(s, p);
    BusyMoves(s.pcs, p, s'.pcs[p], job.n);
    var c := Call(job.n, job.off, job.src[..job.tot]);
    forall m ensures Effect(base, s'.done, m) == if m == job.n then s.want[m] else Effect(base, s.done, m) {
      EffectMore(base, s.done, c, m);
    }
  }

  /** The calls have the effect of running one after the other, in the order in which they return. */
  lemma NextInOrder(base: map<nat, seq<byte>>, s: State, a: Action)
    requires Inv(s) && Enabled(s, a) && InOrder(base, s)
    ensures InOrder(base, Next(s, a))
  {
    hide Inv, Next, InOrder;
    if a.Start? {
      StartInOrder(base, s, a);
    } else if a.Copy? {
      CopyInOrder(base, s, a.p);
    } else if a.Update? {
      UpdateInOrder(base, s, a.p);
    } else {
      QuietInOrder(base, s, a);
    }
  }

  // ---------------------------------------------------------------- at rest

  ghost predicate AtRest(s: State) {
    forall p :: 0 <= p < |s.pcs| ==> s.pcs[p].Away?
  }

  /** When no call is under way, the cache is a file system: free map, pointers and files agree, every
      inode is on disk, and every file has had the calls written to it. */
  lemma Rests(base: map<nat, seq<byte>>, s: State)
    requires Inv(s) && AtRest(s) && InOrder(base, s)
    ensures s.blocks == s.fs.blocks && Good(s.fs)
    ensures forall n :: n in s.fs.inodes ==> Stored(s.fs, n) && Content(s.fs, n) == Effect(base, s.done, n)
  {
    hide Owned, UsedSet, At, Rel, Pcs, Stored, Allocated, Bytes, Effect;
    assert Hand(s.pcs) == {} && Busy(s.pcs) == {};
    InvRel(s);
    RelEmpty(s.fs.lay, s.blocks, s.fs.blocks);
    forall n | n in s.fs.inodes ensures FileRight(s.fs, s.want, {}, n) && s.want[n] == Effect(base, s.done, n) {
      FileAt(s, n);
    }
  }

  // ---------------------------------------------------------------- what others see of a step

  /** The file that a step is about. */
  ghost function FileOf(s: State, a: Action): nat
    requires a.p < |s.pcs| && (a.Start? || !s.pcs[a.p].Away?)
  {
    if a.Start? then a.n else s.pcs[a.p].job.n
  }

  lemma NextMoves(s: State, a: Action)
    requires Inv(s) && Enabled(s, a)
    ensures Moves(s.fs, Next(s, a).fs, FileOf(s, a)) && |Next(s, a).pcs| == |s.pcs|
    ensures forall q :: 0 <= q < |s.pcs| && q != a.p ==>
      Next(s, a).pcs[q] == s.pcs[q] && (!s.pcs[q].Away? ==> s.pcs[q].job.n != FileOf(s, a))
  {
    hide Owned, UsedSet, At, Hand, Rel, Files, Pcs, Stored, HasBytes, Moves, Patch, Splice, KeepsBytes, TestBit, SetBit;
    var s', n, pc := Next(s, a), FileOf(s, a), s.pcs[a.p];
    PcAt(s, a.p);
    BusyMoves(s.pcs, a.p, s'.pcs[a.p], n);
    FileAt(s, n);
    MovesRefl(s.fs, n);
    if a.Clear? || a.Enter? {
      AttachMoves(s.fs, SlotFor(pc), pc.b);
    } else if a.Copy? {
      var cur := pc.job.off + pc.job.tot;
      SameMap(s, n, cur / BSIZE);
      DataSame(s, n, cur / BSIZE);
      PatchMoves(s.fs, n, s.want[n], cur, Chunk(pc.job));
    } else if a.Update? {
      FinishedMoves(s.fs, n, Grown(s.fs.inodes[n], pc.job).size);
    }
  }

  /** A machine at rest. */
  lemma RestInv(fs: Fs, want: map<nat, seq<byte>>, procs: nat, done: seq<Call>)
    requires Good(fs) && want.Keys == fs.inodes.Keys && forall n :: n in fs.inodes ==>
      want[n] == Content(fs, n) && Stored(fs, n)
    ensures Inv(State(fs, fs.blocks, want, seq(procs, _ => Away), done))
  {
    hide Owned, UsedSet, At, Stored, Allocated, TestBit, ByteAt;
    var s := State(fs, fs.blocks, want, seq(procs, _ => Away), done);
    assert Busy(s.pcs) == {} && Hand(s.pcs) == {};
    forall m | m in fs.inodes ensures FileRight(fs, want, {}, m) {
    }
  }
}
