/** kernel/log.c itself: the functions that update log.lh, log.outstanding and
    log.committing and write raw disk blocks, each shown to make exactly the moves of the
    log machine.  The object carries, as ghost state, the run it has made so far, so
    everything proved about runs holds of every disk state these functions produce. */
module Log {
  import opened Blocks
  import opened LogMachine
  import LogTheorems

  // ---------------------------------------------------------------- the header block

  predicate IsWords(bs: seq<nat>) {
    forall i :: 0 <= i < |bs| ==> bs[i] < WORD_LIMIT
  }

  function HeadCount(h: Block): Word { GetWord(h, 0) }

  function HeadEntry(h: Block, i: nat): Word
    requires i < LOGBLOCKS
  {
    GetWord(h, 4 * (i + 1))
  }

  /** The block numbers listed by a header block. */
  function Head(h: Block): (r: seq<nat>)
    requires HeadCount(h) <= LOGBLOCKS
  {
    seq(HeadCount(h), i requires 0 <= i < LOGBLOCKS => HeadEntry(h, i))
  }

  /** write_head stores the count and then the first k entries, and leaves the rest of the
      block as it was. */
  function PutEntries(h: Block, lh: seq<nat>, k: nat): Block
    requires k <= |lh| <= LOGBLOCKS && IsWords(lh)
  {
    if k == 0 then PutWord(h, 0, |lh|) else PutWord(PutEntries(h, lh, k - 1), 4 * k, lh[k - 1])
  }

  lemma {:induction false} PutEntriesWords(h: Block, lh: seq<nat>, k: nat)
    requires k <= |lh| <= LOGBLOCKS && IsWords(lh)
    ensures HeadCount(PutEntries(h, lh, k)) == |lh|
    ensures forall i :: 0 <= i < k ==> HeadEntry(PutEntries(h, lh, k), i) == lh[i]
  {
    hide GetWord, PutWord;
    if k == 0 {
      GetPut(h, 0, |lh|, 0);
    } else {
      var before := PutEntries(h, lh, k - 1);
      PutEntriesWords(h, lh, k - 1);
      GetPut(before, 4 * k, lh[k - 1], 0);
      forall i | 0 <= i < k ensures HeadEntry(PutEntries(h, lh, k), i) == lh[i] {
        GetPut(before, 4 * k, lh[k - 1], 4 * (i + 1));
      }
    }
  }

  /** What write_head writes is what read_head reads back. */
  lemma HeadRoundTrip(h: Block, lh: seq<nat>)
    requires |lh| <= LOGBLOCKS && IsWords(lh)
    ensures HeadCount(PutEntries(h, lh, |lh|)) == |lh| && Head(PutEntries(h, lh, |lh|)) == lh
  {
    PutEntriesWords(h, lh, |lh|);
  }

  // ---------------------------------------------------------------- raw disks

  predicate IsHome(size: nat, start: nat, b: nat) {
    b < size && !(start <= b <= start + LOGBLOCKS)
  }

  predicate ValidRaw(blocks: seq<Block>, start: nat) {
    start + LOGBLOCKS < |blocks| <= WORD_LIMIT && HeadCount(blocks[start]) <= LOGBLOCKS
  }

  function HomeOf(blocks: seq<Block>, start: nat): Contents {
    map b: nat | b < |blocks| && IsHome(|blocks|, start, b) :: blocks[b]
  }

  /** The machine's view of a raw disk. */
  function DiskOf(blocks: seq<Block>, start: nat): Disk
    requires ValidRaw(blocks, start)
  {
    Disk(Head(blocks[start]), blocks[start + 1..start + 1 + LOGBLOCKS], HomeOf(blocks, start))
  }

  lemma PutLogBlock(blocks: seq<Block>, start: nat, t: nat, v: Block)
    requires ValidRaw(blocks, start) && t < LOGBLOCKS
    ensures var d := DiskOf(blocks, start);
      var blocks' := blocks[start + 1 + t := v];
      ValidRaw(blocks', start) && DiskOf(blocks', start) == d.(log := d.log[t := v])
  {
    hide Head, HeadCount;
    var b' := blocks[start + 1 + t := v];
    assert b'[start] == blocks[start];
    assert HomeOf(b', start) == HomeOf(blocks, start);
  }

  lemma PutHomeBlock(blocks: seq<Block>, start: nat, b: nat, v: Block)
    requires ValidRaw(blocks, start) && IsHome(|blocks|, start, b)
    ensures var d := DiskOf(blocks, start);
      ValidRaw(blocks[b := v], start) && DiskOf(blocks[b := v], start) == d.(home := d.home[b := v])
  {
    hide Head, HeadCount;
    var b' := blocks[b := v];
    assert b'[start] == blocks[start];
    assert b'[start + 1..start + 1 + LOGBLOCKS] == blocks[start + 1..start + 1 + LOGBLOCKS];
    assert HomeOf(b', start) == HomeOf(blocks, start)[b := v];
  }

  lemma PutHeader(blocks: seq<Block>, start: nat, h: Block)
    requires ValidRaw(blocks, start) && HeadCount(h) <= LOGBLOCKS
    ensures var d := DiskOf(blocks, start);
      ValidRaw(blocks[start := h], start) && DiskOf(blocks[start := h], start) == d.(head := Head(h))
  {
    hide Head, HeadCount;
    var b' := blocks[start := h];
    assert b'[start + 1..start + 1 + LOGBLOCKS] == blocks[start + 1..start + 1 + LOGBLOCKS];
    assert HomeOf(b', start) == HomeOf(blocks, start);
  }

  // ---------------------------------------------------------------- the log object

  ghost predicate SameFields(s: State, blocks: seq<Block>, start: nat, lh: seq<nat>, pinned: Contents,
                             outstanding: int, committing: bool) {
    && ValidRaw(blocks, start) && s.disk == DiskOf(blocks, start) && s.lh == lh && s.pinned == pinned
    && s.outstanding == outstanding && s.committing == committing
  }

  // The commit of n blocks takes 2n + 2 steps, each of which reads a block into the cache: n log
  // blocks, the header, n copies home, the header again.

  /** How many buffers are pinned before step i. */
  function PinnedAt(n: nat, i: nat): int {
    if i <= n then n else 2 * n + 1 - i
  }

  function PhaseAt(n: nat, i: nat): Phase {
    if i <= n then Logging(i) else Installing(i - n - 1)
  }

  /** Step i finds no buffer, others referring to held(i) of them at that moment. */
  predicate Starves(n: nat, held: nat -> nat, i: nat) {
    PinnedAt(n, i) + held(i) >= NBUF
  }

  predicate CommitStops(n: nat, held: nat -> nat) {
    n > 0 && exists i :: 0 <= i <= 2 * n + 1 && Starves(n, held, i)
  }

  /** The commit stops at step k and not before. */
  predicate StopsAt(n: nat, held: nat -> nat, k: nat) {
    n > 0 && k <= 2 * n + 1 && Starves(n, held, k) && forall i :: 0 <= i < k ==> !Starves(n, held, i)
  }

  lemma StarvesAt(n: nat, held: nat -> nat, k: nat, pinned: nat)
    requires pinned == PinnedAt(n, k)
    ensures Starves(n, held, k) <==> pinned + held(k) >= NBUF
    ensures k <= 2 * n + 1 && Starves(n, held, k) && n > 0 ==> CommitStops(n, held)
  {
  }

  /** While no one else refers to a buffer, a commit stops at its first step or not at all. */
  lemma StopsAlone(n: nat, held: nat -> nat)
    requires forall i :: held(i) == 0
    ensures CommitStops(n, held) <==> n >= NBUF
    ensures forall k :: StopsAt(n, held, k) ==> k == 0
  {
    assert Starves(n, held, 0) <==> n >= NBUF;
  }

  class Log {
    const start: nat
    var blocks: seq<Block>          // the disk
    var lh: seq<nat>                // log.lh.block[0 .. log.lh.n]
    var pinned: Contents            // buffers that log_write has pinned
    var outstanding: int
    var committing: bool

    ghost var at: State             // the machine state this object is in
    ghost var states: seq<State>    // the run so far, ending in `at`
    ghost var acts: seq<Action>

    /** The fields are the machine state's fields. */
    ghost predicate Matches()
      reads this
    {
      SameFields(at, blocks, start, lh, pinned, outstanding, committing)
    }

    ghost predicate OnRun()
      reads this
    {
      LogTheorems.IsRun(states, acts) && at == states[|states| - 1]
    }

    ghost predicate Valid()
      reads this
    {
      Matches() && OnRun()
    }

    /** A machine booting from a disk whose log header is well formed. */
    constructor (blocks: seq<Block>, start: nat, procs: nat)
      requires ValidRaw(blocks, start) && ValidDisk(DiskOf(blocks, start))
      ensures Valid() && at.phase == Booting && at.disk == DiskOf(blocks, start)
      ensures at.base == Recovered(at.disk) && this.start == start && this.blocks == blocks
      ensures states == [at] && |at.procs| == procs
    {
      var d := DiskOf(blocks, start);
      var s := State(d, [], map[], 0, false, Booting, seq(procs, _ => Outside), 0, Recovered(d), [], 0);
      this.start, this.blocks, lh, pinned, outstanding, committing := start, blocks, [], map[], 0, false;
      at, states, acts := s, [s], [];
    }

    /** Record the machine's move; the caller then changes the fields to match. */
    ghost method Step(a: Action)
      requires OnRun() && WellFormed(at) && Enabled(at, a)
      modifies `at, `states, `acts
      ensures OnRun()
      ensures at == Next(old(at), a) && WellFormed(at) && LogTheorems.Inv(at)
      ensures acts == old(acts) + [a] && states == old(states) + [at]
    {
      hide Next, Enabled, WellFormed, LogTheorems.Init;
      LogTheorems.RunInv(states, acts, |states| - 1);
      LogTheorems.StepKeeps(at, a);
      assert LogTheorems.StepsTo(at, a, Next(at, a));
      LogTheorems.ExtendRun(states, acts, a, Next(at, a));
      states, acts, at := states + [Next(at, a)], acts + [a], Next(at, a);
    }

    /** Since `before`, only commit or recovery has moved: same operations, same history. */
    twostate predicate OnlyTicks()
      reads this
    {
      && old(acts) <= acts && old(states) <= states
      && (forall i :: |old(acts)| <= i < |acts| ==> acts[i].Tick?)
      && at.procs == old(at.procs) && at.hist == old(at.hist) && at.base == old(at.base)
      && at.nextOp == old(at.nextOp) && outstanding == old(outstanding) && |blocks| == |old(blocks)|
    }

    /** bread: the pinned copy if there is one. */
    function Bread(b: nat): Block
      requires b < |blocks|
      reads this
    {
      if b in pinned then pinned[b] else blocks[b]
    }

    /** write_log; it panics, in bget, at the first step that finds no buffer. */
    method WriteLog(held: nat -> nat) returns (panicked: bool, k: nat)
      requires Valid() && at.phase == Logging(0) && |lh| > 0
      modifies `blocks, `at, `states, `acts
      ensures Valid() && OnlyTicks() && k <= |lh| && at.phase == Logging(k) && at.durable == old(at.durable)
      ensures forall i :: 0 <= i < k ==> !Starves(|lh|, held, i)
      ensures if panicked then k < |lh| && Starves(|lh|, held, k) else k == |lh|
      ensures k == 0 ==> at == old(at) && blocks == old(blocks)
    {
      hide LogTheorems.IsRun, Matches;
      k := 0;
      while k < |lh|
        invariant k <= |lh| && Valid() && OnlyTicks() && at.phase == Logging(k) && at.durable == old(at.durable)
        invariant forall i :: 0 <= i < k ==> !Starves(|lh|, held, i)
        invariant k == 0 ==> at == old(at) && blocks == old(blocks)
      {
        BuffersPinned();
        if |pinned| + held(k) >= NBUF {
          return true, k;
        }
        LogTick(k, held(k));
        k := k + 1;
      }
      panicked := false;
    }

    /** One iteration of write_log. */
    method LogTick(tail: nat, held: nat)
      requires Valid() && at.phase == Logging(tail) && tail < |lh| && |pinned| + held < NBUF
      modifies `blocks, `at, `states, `acts
      ensures Valid() && OnlyTicks() && at.phase == Logging(tail + 1) && at.durable == old(at.durable)
    {
      hide LogTheorems.IsRun, LogTheorems.Inv, Advance, WellFormed, DiskOf, ValidRaw;
      RunWellFormed();
      LogTickMoves(at, blocks, start, tail);
      var v := Bread(lh[tail]);
      Step(Tick(held));
      blocks := blocks[start + 1 + tail := v];
    }

    /** Write the in-memory header to its block: the count, then the entries. */
    method WriteHead()
      requires ValidRaw(blocks, start) && |lh| <= LOGBLOCKS && IsWords(lh)
      modifies `blocks
      ensures blocks == old(blocks)[start := PutEntries(old(blocks)[start], lh, |lh|)] && |blocks| == |old(blocks)|
    {
      hide PutWord, GetWord;
      var hb := PutWord(blocks[start], 0, |lh|);
      for i := 0 to |lh|
        invariant hb == PutEntries(blocks[start], lh, i)
      {
        hb := PutWord(hb, 4 * (i + 1), lh[i]);
      }
      blocks := blocks[start := hb];
    }

    /** Read the on-disk header into memory. */
    method ReadHead()
      requires ValidRaw(blocks, start)
      modifies `lh
      ensures lh == Head(blocks[start])
    {
      var n := HeadCount(blocks[start]);
      lh := [];
      for i := 0 to n
        invariant lh == Head(blocks[start])[..i]
      {
        lh := lh + [HeadEntry(blocks[start], i)];
      }
      assert Head(blocks[start])[..n] == Head(blocks[start]);
    }

    /** install_trans; in a commit, it panics at the first step that finds no buffer. */
    method InstallTrans(recovering: bool, held: nat -> nat) returns (panicked: bool, k: nat)
      requires Valid() && at.phase == (if recovering then Replaying(0) else Installing(0))
      modifies `blocks, `pinned, `at, `states, `acts
      ensures Valid() && OnlyTicks() && k <= |lh| && at.phase == (if recovering then Replaying(k) else Installing(k))
      ensures !recovering ==> forall i :: |lh| < i <= |lh| + k ==> !Starves(|lh|, held, i)
      ensures if panicked then !recovering && k < |lh| && Starves(|lh|, held, |lh| + 1 + k) else k == |lh|
    {
      hide LogTheorems.IsRun, Matches;
      k := 0;
      while k < |lh|
        invariant k <= |lh| && Valid() && OnlyTicks()
        invariant at.phase == if recovering then Replaying(k) else Installing(k)
        invariant !recovering ==> forall i :: |lh| < i <= |lh| + k ==> !Starves(|lh|, held, i)
      {
        BuffersPinned();
        if !recovering && |pinned| + held(|lh| + 1 + k) >= NBUF {
          return true, k;
        }
        InstallTick(recovering, k, held(|lh| + 1 + k));
        k := k + 1;
      }
      panicked := false;
    }

    /** One iteration of install_trans. */
    method InstallTick(recovering: bool, tail: nat, held: nat)
      requires Valid() && at.phase == (if recovering then Replaying(tail) else Installing(tail)) && tail < |lh|
      requires recovering || |pinned| + held < NBUF
      modifies `blocks, `pinned, `at, `states, `acts
      ensures Valid() && OnlyTicks() && at.phase == (if recovering then Replaying(tail + 1) else Installing(tail + 1))
    {
      hide LogTheorems.IsRun, LogTheorems.Inv, Advance, WellFormed, SameFields;
      RunWellFormed();
      InstallTickFields(at, blocks, start, lh, pinned, outstanding, committing, tail);
      var v := Bread(start + 1 + tail);
      MayTick(held);
      Step(Tick(held));
      blocks := blocks[lh[tail] := v];
      if !recovering {
        pinned := pinned - {lh[tail]};
      }
    }

    /** commit(), from the moment end_op has set `committing`.  It panics exactly when some step finds
        no buffer, and at the first; the blocks are committed already if that step is past the header. */
    method Commit(held: nat -> nat) returns (panicked: bool, k: nat)
      requires Valid() && at.phase == (if |lh| > 0 then Logging(0) else Finishing)
      modifies `blocks, `lh, `pinned, `at, `states, `acts
      ensures Valid() && OnlyTicks() && (panicked <==> CommitStops(|old(lh)|, held))
      ensures panicked ==> StopsAt(|old(lh)|, held, k) && at.phase == PhaseAt(|old(lh)|, k) && lh == old(lh)
      ensures panicked ==> at.durable == if k <= |lh| then old(at.durable) else |at.hist|
      ensures panicked && k == 0 ==> at == old(at) && blocks == old(blocks)
      ensures !panicked ==> at.phase == Finishing && lh == [] && pinned == map[] && at.durable == |at.hist|
    {
      hide LogTheorems.IsRun, LogTheorems.Inv, DiskOf, ValidRaw, Starves, Matches;
      k := 0;
      if |lh| > 0 {
        panicked, k := CommitBlocks(held);
        if panicked {
          return;
        }
      }
      FinishingIsEmpty();
      panicked := false;
    }

    /** The commit of one block or more. */
    method CommitBlocks(held: nat -> nat) returns (panicked: bool, k: nat)
      requires Valid() && at.phase == Logging(0) && |lh| > 0
      modifies `blocks, `lh, `pinned, `at, `states, `acts
      ensures Valid() && OnlyTicks() && (panicked <==> CommitStops(|old(lh)|, held))
      ensures panicked ==> StopsAt(|old(lh)|, held, k) && at.phase == PhaseAt(|old(lh)|, k) && lh == old(lh)
      ensures panicked ==> at.durable == if k <= |lh| then old(at.durable) else |at.hist|
      ensures panicked && k == 0 ==> at == old(at) && blocks == old(blocks)
      ensures !panicked ==> at.phase == Finishing
    {
      hide LogTheorems.IsRun, LogTheorems.Inv, DiskOf, ValidRaw, Starves, Matches;
      ghost var n := |lh|;
      panicked, k := WriteLog(held);
      BuffersPinned();
      StarvesAt(n, held, k, |pinned|);
      if panicked || |pinned| + held(k) >= NBUF {
        return true, k;
      }
      WriteCommittedHead(held(k));
      panicked, k := InstallAndClear(held);
      StarvesAt(n, held, k, PinnedAt(n, k));
    }

    /** The rest of commit, after the header has been written. */
    method InstallAndClear(held: nat -> nat) returns (panicked: bool, k: nat)
      requires Valid() && at.phase == Installing(0) && |lh| > 0
      modifies `blocks, `lh, `pinned, `at, `states, `acts
      ensures Valid() && OnlyTicks() && |old(lh)| < k <= 2 * |old(lh)| + 1
      ensures forall i :: |old(lh)| < i < k ==> !Starves(|old(lh)|, held, i)
      ensures panicked <==> Starves(|old(lh)|, held, k)
      ensures panicked ==> at.phase == PhaseAt(|old(lh)|, k) && lh == old(lh) && at.durable == |at.hist|
      ensures !panicked ==> at.phase == Finishing && k == 2 * |old(lh)| + 1
    {
      hide LogTheorems.IsRun, LogTheorems.Inv, DiskOf, ValidRaw, Starves, Matches;
      var done;
      panicked, done := InstallTrans(false, held);
      k := |lh| + 1 + done;
      BuffersPinned();
      StarvesAt(|lh|, held, k, |pinned|);
      if panicked || |pinned| + held(k) >= NBUF {
        return true, k;
      }
      ClearHead(held(k));
    }

    /** The real commit. */
    method WriteCommittedHead(held: nat)
      requires Valid() && at.phase == Logging(|lh|) && |lh| > 0 && |pinned| + held < NBUF
      modifies `blocks, `at, `states, `acts
      ensures Valid() && OnlyTicks() && at.phase == Installing(0)
    {
      hide LogTheorems.IsRun, LogTheorems.Inv, Advance, DiskOf, ValidRaw;
      RunWellFormed();
      HeadMoves(at, blocks, start);
      MayTick(held);
      Step(Tick(held));
      WriteHead();
    }

    /** log.lh.n = 0 followed by write_head, at the end of commit and of recovery. */
    method ClearHead(held: nat)
      requires Valid() && (at.phase == Installing(|lh|) || at.phase == Replaying(|lh|))
      requires at.phase.Replaying? || |pinned| + held < NBUF
      modifies `blocks, `lh, `at, `states, `acts
      ensures Valid() && OnlyTicks() && lh == []
      ensures at.phase == if old(at.phase.Installing?) then Finishing else Idle
    {
      hide LogTheorems.IsRun, LogTheorems.Inv, Advance, WellFormed, DiskOf, ValidRaw;
      RunWellFormed();
      HeadMoves(at, blocks, start);
      MayTick(held);
      Step(Tick(held));
      lh := [];
      WriteHead();
    }

    /** recover_from_log(), run at boot. */
    method RecoverFromLog()
      requires Valid() && at.phase == Booting
      modifies `blocks, `lh, `pinned, `at, `states, `acts
      ensures Valid() && OnlyTicks() && at.phase == Idle && lh == []
    {
      hide LogTheorems.IsRun, LogTheorems.Inv, Advance, WellFormed, DiskOf, ValidRaw;
      RunWellFormed();
      BootMoves(at, blocks, start);
      MayTick(0);
      Step(Tick(0));
      ReadHead();
      var _, _ := InstallTrans(true, _ => 0);
      ClearHead(0);
    }

    /** One pass of begin_op's loop: it returns false where begin_op would sleep. */
    method BeginOp(p: nat) returns (admitted: bool)
      requires Valid() && !at.phase.Booting? && !at.phase.Replaying? && p < |at.procs| && at.procs[p].Outside?
      modifies `outstanding, `at, `states, `acts
      ensures Valid() && admitted == Admits(old(at))
      ensures admitted <==> !old(committing) && |old(lh)| + 10 * (old(outstanding) + 1) <= 30
      ensures outstanding == if admitted then old(outstanding) + 1 else old(outstanding)
      ensures if admitted then LogTheorems.StepsTo(old(at), Begin(p), at) else at == old(at)
      ensures if admitted then states == old(states) + [at] else states == old(states)
    {
      hide LogTheorems.IsRun, LogTheorems.Inv, WellFormed, DiskOf, ValidRaw;
      RunWellFormed();
      if committing {
        admitted := false;
      } else if |lh| + (outstanding + 1) * MAXOPBLOCKS > LOGBLOCKS {
        admitted := false;
      } else {
        Step(Begin(p));
        outstanding := outstanding + 1;
        admitted := true;
      }
    }

    /** log_write of block b with contents v. */
    method LogWrite(p: nat, b: nat, v: Block)
      requires Valid() && MayLog(at, p, b) && !LogWritePanics(at)
      modifies `lh, `pinned, `at, `states, `acts
      ensures Valid() && LogTheorems.StepsTo(old(at), Action.LogWrite(p, b, v), at) && states == old(states) + [at]
    {
      hide LogTheorems.IsRun, LogTheorems.Inv, WellFormed, DiskOf, ValidRaw;
      RunWellFormed();
      var i := 0;
      while i < |lh| && lh[i] != b
        invariant i <= |lh| && b !in lh[..i]
      {
        i := i + 1;
      }
      Step(Action.LogWrite(p, b, v));
      if i == |lh| {
        lh := lh + [b];
      } else {
        lh := lh[i := b];
      }
      pinned := pinned[b := v];
    }

    /** end_op, with the commit it performs when no operation is left; it panics, leaving the log in
        the middle of that commit, exactly when some step of the commit finds no buffer. */
    method EndOp(p: nat, held: nat -> nat) returns (panicked: bool, k: nat)
      requires Valid() && p < |at.procs| && at.procs[p].Inside?
      modifies `blocks, `lh, `pinned, `outstanding, `committing, `at, `states, `acts
      ensures Valid() && outstanding == old(outstanding) - 1 && |blocks| == |old(blocks)|
      ensures panicked <==> outstanding == 0 && CommitStops(|old(lh)|, held)
      ensures at.hist == old(at.hist) && at.base == old(at.base) && at.procs == old(at.procs)[p := Outside]
      ensures panicked ==> StopsAt(|old(lh)|, held, k) && at.phase == PhaseAt(|old(lh)|, k) && CommitPanics(at, held(k))
      ensures panicked ==> at.durable == if k <= |old(lh)| then old(at.durable) else |at.hist|
      ensures panicked && k == 0 ==> blocks == old(blocks)
      ensures !panicked ==> at.phase == Idle
      ensures outstanding != 0 ==> LogTheorems.StepsTo(old(at), End(p), at)
      ensures outstanding == 0 && !panicked ==> at.disk.home == Cached(old(at)) && at.durable == |at.hist| && lh == []
      ensures old(states) <= states && old(acts) < acts && acts[|old(acts)|] == End(p)
      ensures forall i :: |old(acts)| < i < |acts| ==> acts[i].Tick?
    {
      hide LogTheorems.IsRun, LogTheorems.Inv, DiskOf, ValidRaw, ValidDisk, HomeList, Advance, CommitStops, StopsAt;
      hide PhaseAt;
      RunWellFormed();
      EndMoves(at, p);
      outstanding := outstanding - 1;
      Step(End(p));
      if outstanding == 0 {
        committing := true;
        panicked, k := CommitAndReopen(old(at), held);
      } else {
        panicked, k := false, 0;
      }
    }

    /** The commit of end_op, and the clearing of `committing` after it. */
    method CommitAndReopen(ghost s0: State, held: nat -> nat) returns (panicked: bool, k: nat)
      requires Valid() && at.phase == (if |lh| > 0 then Logging(0) else Finishing)
      requires LogTheorems.Inv(s0) && s0.phase == Idle && at.hist == s0.hist && at.base == s0.base
      modifies `blocks, `lh, `pinned, `committing, `at, `states, `acts
      ensures Valid() && OnlyTicks() && (panicked <==> CommitStops(|old(lh)|, held))
      ensures panicked ==> StopsAt(|old(lh)|, held, k) && at.phase == PhaseAt(|old(lh)|, k) && CommitPanics(at, held(k))
      ensures panicked ==> at.durable == if k <= |old(lh)| then old(at.durable) else |at.hist|
      ensures panicked && k == 0 ==> at == old(at) && blocks == old(blocks)
      ensures !panicked ==> at.phase == Idle && at.disk.home == Cached(s0) && at.durable == |at.hist| && lh == []
    {
      hide LogTheorems.IsRun, LogTheorems.Inv, DiskOf, ValidRaw, Cached;
      panicked, k := Commit(held);
      RunWellFormed();
      if panicked {
        LogTheorems.CommitPanicsExactly(at, held(k));
        return;
      }
      FinishMoves(at, s0);
      MayTick(0);
      Step(Tick(0));
      committing := false;
    }

    /** A crash keeps the disk and loses everything in memory. */
    method Crash()
      requires Valid()
      modifies `lh, `pinned, `outstanding, `committing, `at, `states, `acts
      ensures Valid() && LogTheorems.StepsTo(old(at), Action.Crash, at) && states == old(states) + [at]
    {
      hide LogTheorems.IsRun, LogTheorems.Inv, DiskOf, ValidRaw;
      RunWellFormed();
      Step(Action.Crash);
      lh, pinned, outstanding, committing := [], map[], 0, false;
    }

    lemma RunWellFormed()
      requires OnRun()
      ensures WellFormed(at) && LogTheorems.Inv(at)
    {
      LogTheorems.RunInv(states, acts, |states| - 1);
    }

    /** Exactly the logged blocks not copied home yet are pinned. */
    lemma BuffersPinned()
      requires Valid() && (at.phase.Logging? || at.phase.Installing? || at.phase.Replaying?)
      ensures !at.phase.Replaying? ==> |pinned| == if at.phase.Logging? then |lh| else |lh| - at.phase.t
      ensures at.phase.Installing? ==> at.durable == |at.hist|
    {
      RunWellFormed();
      LogTheorems.PinnedCount(at);
      if at.phase.Installing? {
        LogTheorems.PinnedLeft(at);
      }
    }

    lemma MayTick(held: nat)
      requires Valid() && !at.phase.Idle?
      requires at.phase.Logging? || at.phase.Installing? ==> |pinned| + held < NBUF
      ensures Enabled(at, Tick(held))
    {
    }

    lemma FinishingIsEmpty()
      requires Valid() && at.phase == Finishing
      ensures lh == [] && pinned == map[] && at.durable == |at.hist|
    {
      RunWellFormed();
    }
  }

  // The machine's moves on raw disks.

  lemma LogTickMoves(s: State, blocks: seq<Block>, start: nat, t: nat)
    requires WellFormed(s) && ValidRaw(blocks, start) && s.disk == DiskOf(blocks, start)
    requires s.phase == Logging(t) && t < |s.lh|
    ensures s.lh[t] < |blocks| && start + 1 + t < |blocks|
    ensures var v := if s.lh[t] in s.pinned then s.pinned[s.lh[t]] else blocks[s.lh[t]];
      var raw := blocks[start + 1 + t := v];
      ValidRaw(raw, start) && Advance(s) == s.(disk := DiskOf(raw, start), phase := Logging(t + 1))
  {
    hide Head, HeadCount;
    assert s.lh[t] in s.disk.home;
    PutLogBlock(blocks, start, t, if s.lh[t] in s.pinned then s.pinned[s.lh[t]] else blocks[s.lh[t]]);
  }

  lemma InstallTickMoves(s: State, blocks: seq<Block>, start: nat, t: nat)
    requires LogTheorems.Inv(s) && ValidRaw(blocks, start) && s.disk == DiskOf(blocks, start)
    requires (s.phase == Installing(t) || s.phase == Replaying(t)) && t < |s.lh|
    ensures s.lh[t] < |blocks| && start + 1 + t < |blocks| && start + 1 + t !in s.pinned
    ensures var raw := blocks[s.lh[t] := blocks[start + 1 + t]];
      ValidRaw(raw, start) && Advance(s) ==
        if s.phase.Installing?
        then s.(disk := DiskOf(raw, start), pinned := s.pinned - {s.lh[t]}, phase := Installing(t + 1))
        else s.(disk := DiskOf(raw, start), phase := Replaying(t + 1))
  {
    hide Head, HeadCount, LogTheorems.Ops, LogTheorems.Space, LogTheorems.Control;
    assert s.lh[t] in s.disk.home;
    PutHomeBlock(blocks, start, s.lh[t], blocks[start + 1 + t]);
    assert start + 1 + t !in s.disk.home;
    assert start + 1 + t !in s.lh;
  }

  lemma InstallTickFields(s: State, blocks: seq<Block>, start: nat, lh: seq<nat>, pinned: Contents,
                          outstanding: int, committing: bool, t: nat)
    requires LogTheorems.Inv(s) && SameFields(s, blocks, start, lh, pinned, outstanding, committing) && WellFormed(s)
    requires (s.phase == Installing(t) || s.phase == Replaying(t)) && t < |lh|
    ensures lh[t] < |blocks| && start + 1 + t < |blocks| && start + 1 + t !in pinned
    ensures var s' := Advance(s);
      && s'.phase == (if s.phase.Installing? then Installing(t + 1) else Replaying(t + 1))
      && s'.procs == s.procs && s'.hist == s.hist && s'.base == s.base && s'.nextOp == s.nextOp
      && SameFields(s', blocks[lh[t] := blocks[start + 1 + t]], start, lh,
                    if s.phase.Installing? then pinned - {lh[t]} else pinned, outstanding, committing)
  {
    hide LogTheorems.Inv, DiskOf, ValidRaw, Advance, WellFormed;
    InstallTickMoves(s, blocks, start, t);
  }

  lemma HeadMoves(s: State, blocks: seq<Block>, start: nat)
    requires WellFormed(s) && ValidRaw(blocks, start) && s.disk == DiskOf(blocks, start)
    requires s.phase == Logging(|s.lh|) || s.phase == Installing(|s.lh|) || s.phase == Replaying(|s.lh|)
    ensures IsWords(s.lh)
    ensures var lh := if s.phase.Logging? then s.lh else [];
      var raw := blocks[start := PutEntries(blocks[start], lh, |lh|)];
      ValidRaw(raw, start) && Advance(s) ==
        match s.phase
        case Logging(_) => s.(disk := DiskOf(raw, start), phase := Installing(0), durable := |s.hist|)
        case Installing(_) => s.(lh := [], disk := DiskOf(raw, start), phase := Finishing)
        case _ => s.(lh := [], disk := DiskOf(raw, start), phase := Idle)
  {
    assert IsWords(s.lh) by {
      forall i | 0 <= i < |s.lh| ensures s.lh[i] < WORD_LIMIT {
        assert s.lh[i] in s.disk.home;
      }
    }
    hide Head, HeadCount, PutEntries, GetWord, PutWord;
    var lh := if s.phase.Logging? then s.lh else [];
    HeadRoundTrip(blocks[start], lh);
    PutHeader(blocks, start, PutEntries(blocks[start], lh, |lh|));
  }

  lemma BootMoves(s: State, blocks: seq<Block>, start: nat)
    requires WellFormed(s) && ValidRaw(blocks, start) && s.disk == DiskOf(blocks, start) && s.phase == Booting
    ensures Advance(s) == s.(lh := Head(blocks[start]), phase := Replaying(0))
  {
  }

  lemma EndMoves(s: State, p: nat)
    requires LogTheorems.Inv(s) && p < |s.procs| && s.procs[p].Inside?
    ensures Enabled(s, End(p)) && s.phase == Idle
  {
  }

  lemma FinishMoves(s: State, s0: State)
    requires LogTheorems.Inv(s) && s.phase == Finishing && LogTheorems.Inv(s0) && s0.phase == Idle
    requires s.hist == s0.hist && s.base == s0.base
    ensures Advance(s) == s.(committing := false, phase := Idle)
    ensures s.disk.home == Cached(s0)
  {
    assert s.pinned == map[];
    assert Cached(s) == s.disk.home;
  }
}
