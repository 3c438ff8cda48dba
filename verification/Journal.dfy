/** The file system over the log: kernel/fs.c over kernel/log.c.  An operation changes cached blocks
    and gives every change to log_write; whatever the moment of a crash, recovery leaves the file
    system as it was at the boundary of some operation. */
module Journal {
  import opened Blocks
  import opened FileSystem
  import opened FsBytes
  import opened FsState
  import opened Sets
  import File
  import LogMachine
  import Logs = Log
  import LogTheorems

  /** A file system whose in-memory inodes are all on disk. */
  ghost predicate Sound(s: Fs) {
    Good(s) && forall n :: n in s.inodes ==> Stored(s, n)
  }

  /** The file system and the log share a disk without overlapping. */
  ghost predicate Fits(s: Fs, lay: Layout, start: nat) {
    Sound(s) && s.lay == lay && start + LogMachine.LOGBLOCKS < lay.inodestart
  }

  /** The same file system, on disks that differ at most in the log area. */
  ghost predicate Same(s: Fs, s': Fs, start: nat) {
    && s'.lay == s.lay && s'.inodes == s.inodes && s'.owner == s.owner && |s'.blocks| == |s.blocks|
    && Logs.HomeOf(s'.blocks, start) == Logs.HomeOf(s.blocks, start)
  }

  lemma HomeBlock(blocks: seq<Block>, start: nat, b: nat)
    requires b < |blocks| && b > start + LogMachine.LOGBLOCKS
    ensures b in Logs.HomeOf(blocks, start) && Logs.HomeOf(blocks, start)[b] == blocks[b]
  {
  }

  lemma SameBlocks(s: Fs, s': Fs, start: nat)
    requires Same(s, s', start) && start + LogMachine.LOGBLOCKS < s.lay.inodestart
    ensures forall b :: s.lay.inodestart <= b < |s.blocks| ==> s'.blocks[b] == s.blocks[b]
  {
    hide Logs.HomeOf;
    forall b | s.lay.inodestart <= b < |s.blocks| ensures s'.blocks[b] == s.blocks[b] {
      HomeBlock(s.blocks, start, b);
      HomeBlock(s'.blocks, start, b);
    }
  }

  /** Pointers, free map and files do not depend on what is in the log area. */
  lemma SameAt(s: Fs, s': Fs, slot: Slot)
    requires Shape(s) && Owned(s) && s'.lay == s.lay && s'.inodes == s.inodes && |s'.blocks| == |s.blocks|
    requires forall b :: s.lay.inodestart <= b < |s.blocks| ==> s'.blocks[b] == s.blocks[b]
    ensures Shape(s') && At(s', slot) == At(s, slot)
  {
    hide Owned, EntryAt;
    if slot.Entry? && slot.inum in s.inodes && slot.j < NINDIRECT {
      IndirectOwned(s, slot.inum);
      EntryFrame(s.blocks, s'.blocks, s.inodes[slot.inum], slot.j);
    }
  }

  lemma SameOwned(s: Fs, s': Fs)
    requires Shape(s) && Owned(s) && s'.lay == s.lay && s'.inodes == s.inodes && s'.owner == s.owner
    requires |s'.blocks| == |s.blocks|
    requires forall b :: s.lay.inodestart <= b < |s.blocks| ==> s'.blocks[b] == s.blocks[b]
    ensures Shape(s') && Owned(s') && forall slot :: At(s', slot) == At(s, slot)
  {
    forall slot ensures At(s', slot) == At(s, slot) {
      SameAt(s, s', slot);
    }
    assert Shape(s');
    assert UsedSet(s'.lay, s'.blocks) == UsedSet(s.lay, s.blocks) by {
      hide Owned, At;
      forall b: nat | b < s.lay.size ensures Used(s'.lay, s'.blocks, b) == Used(s.lay, s.blocks, b) {
      }
    }
    hide UsedSet, At;
    forall b | b in s'.owner ensures HeldRight(s', b) {
      assert HeldRight(s, b);
    }
  }

  lemma SameSound(s: Fs, s': Fs, start: nat)
    requires Sound(s) && Same(s, s', start) && start + LogMachine.LOGBLOCKS < s.lay.inodestart
    ensures Sound(s') && forall n :: n in s.inodes ==> Content(s', n) == Content(s, n)
  {
    SameBlocks(s, s', start);
    SameOwned(s, s');
    hide Owned, At, Logs.HomeOf, Same, Bytes, Allocated, Stored;
    assert s'.inodes == s.inodes && s'.lay == s.lay by { assert Same(s, s', start); SameFields(s, s', start); }
    forall n | n in s.inodes
      ensures Allocated(s', n, s.inodes[n].size) && Bytes(s', n, s.inodes[n].size) == Content(s, n) && Stored(s', n)
    {
      SameFile(s, s', n);
    }
  }

  lemma SameFields(s: Fs, s': Fs, start: nat)
    requires Same(s, s', start)
    ensures s'.inodes == s.inodes && s'.lay == s.lay && s'.owner == s.owner && |s'.blocks| == |s.blocks|
    ensures Logs.HomeOf(s'.blocks, start) == Logs.HomeOf(s.blocks, start)
  {
  }

  lemma SameData(s: Fs, s': Fs, n: nat, bn: nat)
    requires Shape(s) && Owned(s) && Shape(s') && Owned(s') && bn < MAXFILE && At(s, SlotOf(n, bn)) != 0
    requires At(s', SlotOf(n, bn)) == At(s, SlotOf(n, bn)) && s'.lay == s.lay
    requires forall b :: s.lay.inodestart <= b < |s.blocks| ==> s'.blocks[b] == s.blocks[b]
    ensures DataBlock(s', n, bn) == DataBlock(s, n, bn)
  {
    hide Owned, At;
    DataOwned(s, n, bn);
  }

  lemma SameFile(s: Fs, s': Fs, n: nat)
    requires Good(s) && Shape(s') && Owned(s') && s'.lay == s.lay && s'.inodes == s.inodes && n in s.inodes
    requires Stored(s, n)
    requires forall slot :: At(s', slot) == At(s, slot)
    requires forall b :: s.lay.inodestart <= b < |s.blocks| ==> s'.blocks[b] == s.blocks[b]
    ensures Allocated(s', n, s.inodes[n].size) && Bytes(s', n, s.inodes[n].size) == Content(s, n) && Stored(s', n)
  {
    hide Owned, At, Bytes, HoldsInode, Allocated, DataBlock;
    forall bn: nat | bn < MAXFILE && At(s, SlotOf(n, bn)) != 0
      ensures At(s', SlotOf(n, bn)) == At(s, SlotOf(n, bn)) && DataBlock(s', n, bn) == DataBlock(s, n, bn)
    {
      SameData(s, s', n, bn);
    }
    SameBytes(s, s', n, s.inodes[n].size);
  }

  // ---------------------------------------------------------------- loading inodes

  /** The inode that ilock reads from its block. */
  function InodeAt(blk: Block, n: nat): Inode {
    Inode(GetWord(blk, SizeOffset(n)), seq(NDIRECT + 1, i requires 0 <= i <= NDIRECT => GetWord(blk, AddrOffset(n, i))))
  }

  function Loaded(lay: Layout, blocks: seq<Block>, inums: set<nat>): map<nat, Inode>
    requires ValidLayout(lay) && |blocks| == lay.size && forall n :: n in inums ==> n < lay.ninodes
  {
    map n | n in inums :: InodeAt(blocks[IBlock(lay, n)], n)
  }

  /** What iupdate stored is what ilock reads. */
  lemma LoadsStored(blk: Block, n: nat, ip: Inode)
    requires HoldsInode(blk, n, ip)
    ensures InodeAt(blk, n) == ip
  {
    hide GetWord;
  }

  // ---------------------------------------------------------------- what a crash leaves behind

  /** A crash in this state recovers snapshot k. */
  ghost predicate Backed(st: LogMachine.State, k: nat, snaps: seq<Fs>, start: nat) {
    k < |snaps| && LogMachine.ValidDisk(st.disk) && LogMachine.Recovered(st.disk) == Logs.HomeOf(snaps[k].blocks, start)
  }

  ghost predicate AllBacked(states: seq<LogMachine.State>, marks: seq<nat>, snaps: seq<Fs>, start: nat) {
    |marks| == |states| && forall i :: 0 <= i < |states| ==> Backed(states[i], marks[i], snaps, start)
  }

  lemma BackedMore(states: seq<LogMachine.State>, marks: seq<nat>, snaps: seq<Fs>, start: nat, st: LogMachine.State)
    requires AllBacked(states, marks, snaps, start) && |states| > 0 && LogMachine.ValidDisk(st.disk)
    requires LogMachine.ValidDisk(states[|states| - 1].disk)
             && LogMachine.Recovered(st.disk) == LogMachine.Recovered(states[|states| - 1].disk)
    ensures AllBacked(states + [st], marks + [marks[|marks| - 1]], snaps, start)
  {
    hide LogMachine.ValidDisk, LogMachine.Recovered, Logs.HomeOf;
  }

  lemma BackedSnap(states: seq<LogMachine.State>, marks: seq<nat>, snaps: seq<Fs>, start: nat, s: Fs)
    requires AllBacked(states, marks, snaps, start)
    ensures AllBacked(states, marks, snaps + [s], start)
  {
    hide LogMachine.ValidDisk, LogMachine.Recovered, Logs.HomeOf;
  }

  /** Since s0, commit has moved on, but no operation. */
  ghost predicate CommittingFrom(s: LogMachine.State, s0: LogMachine.State) {
    && LogTheorems.Inv(s) && LogTheorems.Inv(s0) && (s.phase.Idle? || LogTheorems.Committing(s.phase))
    && s.hist == s0.hist && s.base == s0.base
    && (|| LogMachine.Recovered(s.disk) == LogMachine.Recovered(s0.disk)
        || LogMachine.Recovered(s.disk) == LogMachine.Cached(s0))
  }

  lemma EndStep(s: LogMachine.State, p: nat)
    requires LogTheorems.Inv(s) && s.phase.Idle? && LogMachine.Enabled(s, LogMachine.End(p))
    ensures CommittingFrom(LogMachine.Next(s, LogMachine.End(p)), s)
  {
    LogTheorems.EndKeeps(s, p);
  }

  lemma CommitStep(s: LogMachine.State, s0: LogMachine.State, held: nat)
    requires CommittingFrom(s, s0) && LogMachine.Enabled(s, LogMachine.Tick(held)) && s0.phase.Idle?
    ensures CommittingFrom(LogMachine.Next(s, LogMachine.Tick(held)), s0)
  {
    hide LogTheorems.Inv, LogMachine.Recovered, LogMachine.Cached, LogMachine.Next, LogMachine.Enabled;
    TickStays(s, held);
    LogTheorems.OnlyHeaderWriteCommits(s, LogMachine.Tick(held));
    WholeHistory(s);
    WholeHistory(s0);
  }

  lemma TickStays(s: LogMachine.State, held: nat)
    requires LogTheorems.Inv(s) && LogMachine.Enabled(s, LogMachine.Tick(held))
    requires s.phase.Idle? || LogTheorems.Committing(s.phase)
    ensures LogMachine.WellFormed(s)
    ensures var s' := LogMachine.Next(s, LogMachine.Tick(held));
      (s'.phase.Idle? || LogTheorems.Committing(s'.phase)) && s'.hist == s.hist && s'.base == s.base
  {
    hide LogMachine.Install, LogMachine.Cached;
  }

  /** Outside recovery, the cache is the whole history. */
  lemma WholeHistory(s: LogMachine.State)
    requires LogTheorems.Inv(s) && !s.phase.Booting? && !s.phase.Replaying?
    ensures LogMachine.Cached(s) == LogMachine.Applied(s.base, s.hist)
  {
  }

  /** From end_op to the end of its commit, a crash leaves what it left before or all there was. */
  lemma {:induction false} EndSegment(ss: seq<LogMachine.State>, acts: seq<LogMachine.Action>, a: nat, i: nat)
    requires LogTheorems.IsRun(ss, acts) && a < i < |ss| && acts[a].End? && ss[a].phase.Idle?
    requires forall j :: a < j < i ==> acts[j].Tick?
    ensures CommittingFrom(ss[i], ss[a])
  {
    hide LogTheorems.Inv, LogMachine.Next, LogMachine.Enabled, CommittingFrom, LogMachine.WellFormed, LogTheorems.Init;
    LogTheorems.StepAt(ss, acts, i - 1);
    if i == a + 1 {
      EndStep(ss[a], acts[a].p);
    } else {
      EndSegment(ss, acts, a, i - 1);
      CommitStep(ss[i - 1], ss[a], acts[i - 1].held);
    }
  }

  /** Writing block b of the cache. */
  lemma CachedWrite(s: LogMachine.State, a: LogMachine.Action, s': LogMachine.State)
    requires LogTheorems.StepsTo(s, a, s') && a.LogWrite?
    ensures LogMachine.Cached(s') == LogMachine.Cached(s)[a.b := a.v] && s'.disk == s.disk && s'.phase == s.phase
    ensures |s'.procs| == |s.procs| && s'.outstanding == s.outstanding
    ensures s'.procs == s.procs[a.p := LogMachine.Inside(s.procs[a.p].op, s.procs[a.p].blocks + {a.b})]
    ensures Elements(s'.lh) <= Elements(s.lh) + {a.b}
  {
  }

  /** The cache follows the trace. */
  lemma PlayedHome(origin: seq<Block>, writes: seq<Store>, j: nat, start: nat)
    requires j < |writes| && start + LogMachine.LOGBLOCKS < writes[j].b < |origin|
    ensures Logs.HomeOf(Played(origin, writes[..j + 1]), start) ==
            Logs.HomeOf(Played(origin, writes[..j]), start)[writes[j].b := writes[j].v]
  {
    assert writes[..j + 1][..j] == writes[..j];
  }

  lemma TouchedMore(writes: seq<Store>, j: nat)
    requires j < |writes|
    ensures Touched(writes[..j + 1]) == Touched(writes[..j]) + {writes[j].b}
    ensures Touched(writes[..j + 1]) <= Touched(writes)
  {
    var a, b := writes[..j], writes[..j + 1];
    forall x ensures x in Touched(b) <==> x in Touched(a) || x == writes[j].b {
      if x in Touched(a) {
        var k :| 0 <= k < |a| && a[k].b == x;
        assert b[k].b == x;
      }
      if x == writes[j].b {
        assert b[j].b == x;
      }
    }
    forall x | x in Touched(b) ensures x in Touched(writes) {
      var k :| 0 <= k < |b| && b[k].b == x;
      assert writes[k].b == x;
    }
  }

  /** How an operation ends: with what writei returned, asleep in begin_op, or with the machine stopped
      by a panic of log_write or of commit. */
  datatype Outcome = Ended(r: int) | Slept | Stopped(r: int)

  class Journal {
    const log: Logs.Log
    const lay: Layout
    const inums: set<nat>
    var fs: FileSystem
    ghost var snaps: seq<Fs>      // the file system at the boundaries of operations
    ghost var marks: seq<nat>     // for every state of the log, the snapshot a crash there recovers

    /** Whenever the machine stops, or has stopped, recovery finds a snapshot. */
    ghost predicate Safe()
      reads this, log
    {
      && log.Valid() && |log.blocks| == lay.size && |snaps| > 0
      && (forall k :: 0 <= k < |snaps| ==> Fits(snaps[k], lay, log.start) && snaps[k].inodes.Keys == inums)
      && AllBacked(log.states, marks, snaps, log.start)
    }

    /** The cached file system is the last snapshot. */
    ghost predicate InStep()
      reads this, log, fs
    {
      && Safe() && fs.lay == lay && Same(snaps[|snaps| - 1], fs.View(), log.start)
      && Logs.HomeOf(fs.blocks, log.start) == LogMachine.Cached(log.at)
      && !log.at.phase.Booting? && !log.at.phase.Replaying?
    }

    /** No operation is open, and all that has been done is committed. */
    ghost predicate Quiet()
      reads this, log
    {
      log.at.outstanding == 0 && log.at.phase.Idle? && |marks| > 0 && marks[|marks| - 1] == |snaps| - 1
    }

    /** Process p is in an operation that has logged nothing yet. */
    ghost predicate Fresh(p: nat)
      reads log
    {
      p < |log.at.procs| && log.at.procs[p].Inside? && log.at.procs[p].blocks == {}
    }

    /** Boot from a disk that recovers to file system s0. */
    constructor (blocks: seq<Block>, start: nat, procs: nat, lay: Layout, inums: set<nat>, ghost s0: Fs)
      requires Logs.ValidRaw(blocks, start) && LogMachine.ValidDisk(Logs.DiskOf(blocks, start)) && |blocks| == lay.size
      requires Fits(s0, lay, start) && s0.inodes.Keys == inums
      requires LogMachine.Recovered(Logs.DiskOf(blocks, start)) == Logs.HomeOf(s0.blocks, start)
      ensures fresh(log) && Safe() && log.at.phase.Booting? && snaps == [s0] && |log.at.procs| == procs
      ensures this.lay == lay && this.inums == inums && log.start == start
    {
      hide LogMachine.Recovered, Logs.HomeOf, Logs.DiskOf, Fits, LogMachine.ValidDisk, Logs.ValidRaw;
      log := new Logs.Log(blocks, start, procs);
      fs := new FileSystem(lay, blocks, map[], map[]);
      this.lay, this.inums := lay, inums;
      snaps, marks := [s0], [0];
    }

    lemma Last()
      requires Safe()
      ensures |marks| == |log.states| > 0 && LogTheorems.Inv(log.at) && log.at == log.states[|log.states| - 1]
      ensures Backed(log.at, marks[|marks| - 1], snaps, log.start) && LogMachine.WellFormed(log.at)
    {
      hide LogTheorems.Inv, LogMachine.ValidDisk, LogMachine.Recovered, Logs.HomeOf, Fits;
      log.RunWellFormed();
    }

    /** Give log_write block b, now v. */
    method EmitOne(p: nat, b: nat, v: Block)
      requires Safe() && LogMachine.MayLog(log.at, p, b) && !LogMachine.LogWritePanics(log.at)
      modifies log, `marks
      ensures Safe() && LogMachine.Cached(log.at) == LogMachine.Cached(old(log.at))[b := v]
      ensures log.at.disk == old(log.at.disk) && log.at.phase == old(log.at.phase)
      ensures log.at.outstanding == old(log.at.outstanding)
      ensures p < |old(log.at.procs)| && old(log.at.procs[p]).Inside? && log.at.procs ==
        old(log.at.procs)[p := LogMachine.Inside(old(log.at.procs)[p].op, old(log.at.procs)[p].blocks + {b})]
      ensures Elements(log.at.lh) <= Elements(old(log.at.lh)) + {b}
      ensures old(log.states) <= log.states && old(marks) <= marks && |old(marks)| > 0
      ensures forall i :: |old(marks)| <= i < |marks| ==> marks[i] == old(marks)[|old(marks)| - 1]
    {
      hide LogTheorems.Inv, LogMachine.ValidDisk, LogMachine.Recovered, Logs.HomeOf, Fits, AllBacked, LogTheorems.IsRun;
      hide LogTheorems.StepsTo, LogMachine.Cached, Elements;
      Last();
      ghost var s, ss := log.at, log.states;
      log.LogWrite(p, b, v);
      CachedWrite(s, LogMachine.LogWrite(p, b, v), log.at);
      BackedMore(ss, marks, snaps, log.start, log.at);
      marks := marks + [marks[|marks| - 1]];
    }

    /** The changes of an operation, given to log_write in order; true where log_write panics. */
    method Emit(p: nat) returns (panicked: bool)
      requires Safe() && fs.lay == lay && fs.Traced() && |fs.blocks| == lay.size && Fresh(p)
      requires |fs.logged| <= LogMachine.MAXOPBLOCKS
      requires Logs.HomeOf(fs.origin, log.start) == LogMachine.Cached(log.at)
      modifies log, `marks
      ensures Safe() && (panicked ==> |log.at.lh| >= LogMachine.LOGBLOCKS)
      ensures log.at.phase.Idle? && log.at.outstanding == old(log.at.outstanding)
      ensures p < |log.at.procs| == |old(log.at.procs)| && log.at.procs[p].Inside?
      ensures !panicked ==> Logs.HomeOf(fs.blocks, log.start) == LogMachine.Cached(log.at)
      ensures Elements(log.at.lh) <= Elements(old(log.at.lh)) + fs.logged
      ensures old(log.states) <= log.states && old(marks) <= marks && |old(marks)| > 0
      ensures forall i :: |old(marks)| <= i < |marks| ==> marks[i] == old(marks)[|old(marks)| - 1]
    {
      hide LogTheorems.Inv, LogMachine.ValidDisk, LogMachine.Recovered, Logs.HomeOf, Fits, AllBacked, LogTheorems.IsRun;
      hide LogMachine.Cached, Elements, Touched, Played;
      Last();
      LogTheorems.InProgress(log.at, p);
      ghost var op := log.at.procs[p].op;
      TraceStarts(fs.origin, fs.writes);
      var j := 0;
      while j < |fs.writes|
        invariant j <= |fs.writes| && Safe() && log.at.phase.Idle? && log.at.outstanding == old(log.at.outstanding) > 0
        invariant p < |log.at.procs| == |old(log.at.procs)|
        invariant log.at.procs[p] == LogMachine.Inside(op, Touched(fs.writes[..j]))
        invariant Logs.HomeOf(Played(fs.origin, fs.writes[..j]), log.start) == LogMachine.Cached(log.at)
        invariant Elements(log.at.lh) <= Elements(old(log.at.lh)) + Touched(fs.writes[..j])
        invariant old(log.states) <= log.states && old(marks) <= marks
        invariant forall i :: |old(marks)| <= i < |marks| ==> marks[i] == old(marks)[|old(marks)| - 1]
        invariant marks[|marks| - 1] == old(marks)[|old(marks)| - 1]
        invariant Touched(fs.writes[..j]) <= fs.logged
      {
        if |log.lh| >= LogMachine.LOGBLOCKS {
          return true;
        }
        var w := fs.writes[j];
        TouchedMore(fs.writes, j);
        IsHomeBlock(log.blocks, log.start, w.b, snaps[0], lay);
        PlayedHome(fs.origin, fs.writes, j, log.start);
        SubsetSize(Touched(fs.writes[..j + 1]), fs.logged);
        EmitOne(p, w.b, w.v);
        j := j + 1;
      }
      assert fs.writes[..j] == fs.writes;
      panicked := false;
    }

    /** begin_op; false where it would sleep. */
    method Begin(p: nat) returns (admitted: bool)
      requires InStep() && p < |log.at.procs| && log.at.procs[p].Outside?
      modifies log, `marks
      ensures InStep() && (admitted ==> Fresh(p)) && |log.at.procs| == |old(log.at.procs)|
      ensures log.at.lh == old(log.at.lh)
      ensures !admitted ==> log.at == old(log.at) && marks == old(marks)
      ensures admitted == LogMachine.Admits(old(log.at))
      ensures (admitted ==> log.at.outstanding == old(log.at.outstanding) + 1)
      ensures old(log.states) <= log.states && old(marks) <= marks && |old(marks)| > 0
      ensures forall i :: |old(marks)| <= i < |marks| ==> marks[i] == old(marks)[|old(marks)| - 1]
    {
      hide LogTheorems.Inv, LogMachine.ValidDisk, LogMachine.Recovered, Logs.HomeOf, Fits, AllBacked;
      hide LogTheorems.IsRun, Same;
      Last();
      ghost var s, ss := log.at, log.states;
      admitted := log.BeginOp(p);
      if admitted {
        BackedMore(ss, marks, snaps, log.start, log.at);
        marks := marks + [marks[|marks| - 1]];
      }
    }

    /** The cached file system is as good as the snapshot it is the same as. */
    lemma Ready()
      requires InStep()
      ensures Fits(fs.View(), lay, log.start) && fs.inodes.Keys == inums && |fs.blocks| == lay.size && Good(fs.View())
      ensures Safe() && |marks| > 0
    {
      hide LogTheorems.Inv, LogMachine.ValidDisk, LogMachine.Recovered, Logs.HomeOf, AllBacked, LogTheorems.IsRun;
      hide Good, Stored;
      Last();
      SameFields(snaps[|snaps| - 1], fs.View(), log.start);
      SameSound(snaps[|snaps| - 1], fs.View(), log.start);
      SizeOf(fs.View());
    }

    /** An operation that has changed the file system is given to the log. */
    method Finish(p: nat) returns (panicked: bool)
      requires Safe() && fs.lay == lay && fs.Traced() && Fresh(p) && |fs.logged| <= LogMachine.MAXOPBLOCKS
      requires Logs.HomeOf(fs.origin, log.start) == LogMachine.Cached(log.at)
      requires Fits(fs.View(), lay, log.start) && fs.inodes.Keys == inums && |fs.blocks| == lay.size
      modifies log, `marks, `snaps
      ensures Safe() && log.at.phase.Idle? && log.at.outstanding == old(log.at.outstanding)
      ensures p < |log.at.procs| == |old(log.at.procs)| && log.at.procs[p].Inside?
      ensures panicked ==> |log.at.lh| >= LogMachine.LOGBLOCKS && snaps == old(snaps)
      ensures !panicked ==> InStep() && snaps == old(snaps) + [fs.View()]
      ensures Elements(log.at.lh) <= Elements(old(log.at.lh)) + fs.logged
      ensures old(log.states) <= log.states && old(marks) <= marks && |old(marks)| > 0
      ensures forall i :: |old(marks)| <= i < |marks| ==> marks[i] == old(marks)[|old(marks)| - 1]
    {
      hide LogTheorems.Inv, LogMachine.ValidDisk, LogMachine.Recovered, Logs.HomeOf, Fits, AllBacked;
      hide LogTheorems.IsRun, IsTrace;
      hide LogMachine.Cached, Elements;
      panicked := Emit(p);
      if !panicked {
        BackedSnap(log.states, marks, snaps, log.start, fs.View());
        snaps := snaps + [fs.View()];
      }
    }

    /** A writei of at most one chunk, inside an operation. */
    method Write(p: nat, n: nat, off: nat, d: seq<byte>, copies: nat) returns (r: int, panicked: bool)
      requires InStep() && Fresh(p) && n in fs.inodes && off < WORD_LIMIT && |d| <= File.MAX_CHUNK
      modifies log, fs, `marks, `snaps
      ensures Safe() && fs == old(fs) && log.at.phase.Idle? && log.at.outstanding == old(log.at.outstanding)
      ensures p < |log.at.procs| == |old(log.at.procs)| && log.at.procs[p].Inside?
      ensures panicked ==> |log.at.lh| >= LogMachine.LOGBLOCKS && snaps == old(snaps)
      ensures !panicked ==> InStep() && snaps == old(snaps) + [fs.View()]
      ensures Good(old(fs.View())) && Good(fs.View()) && Shape(fs.View())
      ensures r == -1 <==> off > |Content(old(fs.View()), n)| || off + |d| > MAXFILE * BSIZE
      ensures r == -1 ==> fs.View() == old(fs.View())
      ensures r != -1 ==> 0 <= r <= |d| && off <= |Content(old(fs.View()), n)|
      ensures r != -1 ==> Rewrites(old(fs.View()), fs.View(), n, Splice(Content(old(fs.View()), n), off, d[..r]))
      ensures Shape(fs.View()) && (0 <= r < |d| ==> fs.Full() || Span(off, r) == copies)
      ensures |log.at.lh| <= |old(log.at.lh)| + LogMachine.MAXOPBLOCKS
      ensures old(log.states) <= log.states && old(marks) <= marks && |old(marks)| > 0
      ensures forall i :: |old(marks)| <= i < |marks| ==> marks[i] == old(marks)[|old(marks)| - 1]
    {
      hide LogTheorems.Inv, LogMachine.ValidDisk, LogMachine.Recovered, Logs.HomeOf, AllBacked, LogTheorems.IsRun;
      hide IsTrace;
      hide LogMachine.Cached, Elements, Budget, Rewrites, Content, Same, Fits, Span;
      Ready();
      ghost var s0, lh0 := fs.View(), log.at.lh;
      File.ContentSize(s0, n);
      File.ChunkBudget(off, |d|);
      hide Good;
      fs.StartOp();
      r := fs.Writei(n, off, d, copies);
      assert fs.logged - {} == fs.logged;
      if r == -1 {
        assert fs.View() == s0;
      } else {
        RewritesFits(s0, fs.View(), n, Splice(Content(s0, n), off, d[..r]), lay, log.start);
      }
      SizeOf(fs.View()) by { FitsGood(fs.View(), lay, log.start); }
      FitsGood(fs.View(), lay, log.start);
      panicked := Finish(p);
      ShortList(lh0, log.at.lh, fs.logged) by { Last(); }
    }

    /** An itrunc inside an operation, of a file whose blocks have their bits in fewer free-map blocks
        than an operation may log: itrunc logs just those, and the inode. */
    method Truncate(p: nat, n: nat) returns (panicked: bool)
      requires InStep() && Fresh(p) && n in fs.inodes && ValidLayout(lay)
      requires |Maps(lay, Held(fs.View(), n, NDIRECT + 1, NINDIRECT))| < LogMachine.MAXOPBLOCKS
      modifies log, fs, `marks, `snaps
      ensures Safe() && fs == old(fs) && log.at.phase.Idle? && log.at.outstanding == old(log.at.outstanding)
      ensures p < |log.at.procs| == |old(log.at.procs)| && log.at.procs[p].Inside?
      ensures panicked ==> |log.at.lh| >= LogMachine.LOGBLOCKS && snaps == old(snaps)
      ensures !panicked ==> InStep() && snaps == old(snaps) + [fs.View()]
      ensures Rewrites(old(fs.View()), fs.View(), n, [])
      ensures old(log.states) <= log.states && old(marks) <= marks && |old(marks)| > 0
      ensures forall i :: |old(marks)| <= i < |marks| ==> marks[i] == old(marks)[|old(marks)| - 1]
    {
      hide LogTheorems.Inv, LogMachine.ValidDisk, LogMachine.Recovered, Logs.HomeOf, AllBacked, LogTheorems.IsRun;
      hide IsTrace;
      hide LogMachine.Cached, Elements, Rewrites, Content, Same, Fits, Held, Maps;
      Ready();
      ghost var s0 := fs.View();
      SizeOf(s0);
      hide Good;
      fs.StartOp();
      fs.Itrunc(n);
      assert fs.logged == Maps(lay, Held(s0, n, NDIRECT + 1, NINDIRECT)) + {IBlock(lay, n)};
      RewritesFits(s0, fs.View(), n, [], lay, log.start);
      FitsGood(fs.View(), lay, log.start);
      SizeOf(fs.View());
      panicked := Finish(p);
    }

    /** end_op; it panics exactly when some step of its commit finds no buffer. */
    method End(p: nat, held: nat -> nat) returns (panicked: bool)
      requires InStep() && p < |log.at.procs| && log.at.procs[p].Inside?
      modifies log, `marks
      ensures Safe() && log.at.outstanding == old(log.at.outstanding) - 1
      ensures log.at.procs == old(log.at.procs)[p := LogMachine.Outside]
      ensures panicked <==> log.at.outstanding == 0 && Logs.CommitStops(|old(log.at.lh)|, held)
      ensures !panicked ==> InStep() && log.at.phase.Idle?
      ensures !panicked && log.at.outstanding == 0 ==>
        log.at.lh == [] && |marks| > 0 && marks[|marks| - 1] == |snaps| - 1
      ensures old(log.states) <= log.states && old(marks) <= marks && |old(marks)| > 0
      ensures forall i :: |old(marks)| <= i < |marks| ==>
        marks[i] == old(marks)[|old(marks)| - 1] || marks[i] == |snaps| - 1
    {
      hide LogTheorems.Inv, LogMachine.ValidDisk, LogMachine.Recovered, Logs.HomeOf, Fits, AllBacked, LogTheorems.IsRun;
      hide LogMachine.Cached, LogMachine.WellFormed, LogMachine.Admits, LogMachine.CommitPanics, LogTheorems.StepsTo;
      hide Same, Backed, Logs.CommitStops, Logs.StopsAt, Logs.PhaseAt;
      Last();
      ghost var s, k := log.at, marks[|marks| - 1];
      LogTheorems.InProgress(s, p);
      RunLength(log.states, log.acts);
      SameFields(snaps[|snaps| - 1], fs.View(), log.start);
      ghost var ss := log.states;
      var step;
      panicked, step := log.EndOp(p, held);
      log.RunWellFormed();
      assert log.states[..|marks|] == ss;
      RunLength(log.states, log.acts);
      EndMarks(log.states, log.acts, |marks| - 1, marks, snaps, log.start);
      marks := marks + NewMarks(log.states, |marks|, snaps, log.start, k);
      if !panicked {
        CachedSame(s, log.at);
      }
      if !panicked && log.outstanding == 0 {
        IdleHome(log.at);
        LastMark(log.at, snaps, log.start, k);
      }
    }

    /** filewrite, a chunk an operation, while other operations may be open.  It may come to a begin_op
        that sleeps, or stop the machine by a panic.  Whatever the moment of a crash, what is recovered
        is what would have been recovered before the call, or has some prefix of src written at off and
        no other file changed. */
    method FileWrite(p: nat, n: nat, off: nat, src: seq<byte>, copies: nat -> nat, held: nat -> nat -> nat)
      returns (done: nat, end: Outcome, ghost ops: nat, ghost last: nat)
      requires InStep() && p < |log.at.procs| && log.at.procs[p].Outside? && n in fs.inodes
      requires off < WORD_LIMIT && |src| < WORD_LIMIT / 2
      modifies log, fs, `marks, `snaps
      ensures Safe() && (!end.Stopped? ==> InStep()) && fs == old(fs) && done <= |src|
      ensures old(log.states) <= log.states && GoneOn(old(marks), marks, old(snaps), snaps)
      ensures AllPartly(old(fs.View()), snaps, |old(snaps)|, n, off, src)
      ensures File.Changed(old(fs.View()), fs.View(), n, off, src[..done])
      ensures !end.Stopped? ==> log.at.outstanding == old(log.at.outstanding)
      ensures old(Quiet()) && !end.Stopped? ==> Quiet()
      ensures old(Quiet()) ==> !end.Slept?
      ensures old(Quiet()) && FewHeld(held) ==> !end.Stopped?
      ensures end.Ended? && done < |src| ==> Good(fs.View()) && n in fs.inodes
      ensures end.Ended? && done < |src| ==>
        fs.Full() || off + done > |Content(fs.View(), n)| || off + done + File.Chunk(|src| - done) > MAXFILE * BSIZE
        || (ops > 0 && last <= off + done && Span(last, off + done - last) == copies(ops - 1))
    {
      hide LogTheorems.Inv, LogMachine.ValidDisk, LogMachine.Recovered, Logs.HomeOf, Fits, AllBacked, LogTheorems.IsRun;
      hide LogMachine.Cached, Rewrites, Content, Same, Good, File.Changed, AllPartly, GoneOn, LogMachine.Admits;
      hide Splice, Shape, Span, FewHeld, Safe, InStep, Quiet;
      ghost var s0 := fs.View();
      Ready();
      Unchanged(s0, n, off);
      GoneOnRefl(marks, snaps);
      NoneYet(s0, snaps, n, off, src);
      assert src[..0] == [];
      done, ops, last, end := 0, 0, off, Ended(0);
      var op := 0;
      while done < |src|
        invariant op == ops && done <= |src| && Safe() && InStep() && p < |log.at.procs| && log.at.procs[p].Outside?
        invariant end.Ended?
        invariant log.at.outstanding == old(log.at.outstanding) && (old(Quiet()) ==> Quiet())
        invariant old(log.states) <= log.states && n in fs.inodes && off + done < WORD_LIMIT
        invariant GoneOn(old(marks), marks, old(snaps), snaps) && AllPartly(s0, snaps, |old(snaps)|, n, off, src)
        invariant File.Changed(s0, fs.View(), n, off, src[..done])
        decreases |src| - done
      {
        var n1 := File.Chunk(|src| - done);
        ghost var s, marks0, snaps0 := fs.View(), marks, snaps;
        last, ops := off + done, ops + 1;
        FewHeldAt(held, op);
        end := WriteOp(p, n, off + done, src[done..done + n1], copies(op), held(op));
        op := op + 1;
        GoneOnTrans(old(marks), marks0, marks, old(snaps), snaps0, snaps);
        if end.Slept? {
          return;
        }
        WriteNext(s0, s, fs.View(), n, off, src, done, n1, end.r, snaps0, snaps, |old(snaps)|);
        done := done + if end.r == -1 then 0 else end.r;
        if end.Stopped? || end.r != n1 {
          return;
        }
      }
    }

    /** One whole operation: begin_op, writei, end_op. */
    method WriteOp(p: nat, n: nat, off: nat, d: seq<byte>, copies: nat, held: nat -> nat) returns (end: Outcome)
      requires InStep() && p < |log.at.procs| && log.at.procs[p].Outside? && n in fs.inodes
      requires off < WORD_LIMIT && |d| <= File.MAX_CHUNK
      modifies log, fs, `marks, `snaps
      ensures Safe() && (!end.Stopped? ==> InStep()) && fs == old(fs)
      ensures (end.Slept? <==> !LogMachine.Admits(old(log.at)))
      ensures old(log.states) <= log.states && GoneOn(old(marks), marks, old(snaps), snaps)
      ensures snaps == old(snaps) || snaps == old(snaps) + [fs.View()]
      ensures !end.Stopped? ==>
        log.at.outstanding == old(log.at.outstanding) && p < |log.at.procs| && log.at.procs[p].Outside?
      ensures end.Slept? ==> fs.View() == old(fs.View()) && snaps == old(snaps)
      ensures old(Quiet()) && !end.Stopped? ==> Quiet()
      ensures old(Quiet()) ==> !end.Slept?
      ensures old(Quiet()) && (forall i :: held(i) + LogMachine.MAXOPBLOCKS < LogMachine.NBUF) ==> !end.Stopped?
      ensures Good(old(fs.View())) && Good(fs.View())
      ensures !end.Slept? ==>
        (end.r == -1 <==> off > |Content(old(fs.View()), n)| || off + |d| > MAXFILE * BSIZE)
      ensures !end.Slept? && end.r == -1 ==> fs.View() == old(fs.View())
      ensures !end.Slept? && end.r != -1 ==> 0 <= end.r <= |d| && off <= |Content(old(fs.View()), n)|
      ensures !end.Slept? && end.r != -1 ==>
        Rewrites(old(fs.View()), fs.View(), n, Splice(Content(old(fs.View()), n), off, d[..end.r]))
      ensures !end.Slept? ==> Shape(fs.View()) && (0 <= end.r < |d| ==> fs.Full() || Span(off, end.r) == copies)
    {
      hide LogTheorems.Inv, LogMachine.ValidDisk, LogMachine.Recovered, Logs.HomeOf, Fits, AllBacked, LogTheorems.IsRun;
      hide LogMachine.Cached, Rewrites, Content, Same, Good, Splice, Shape, Span, Logs.CommitStops;
      if Quiet() {
        AloneMayBegin(p);
      }
      Ready();
      var admitted := Begin(p);
      if !admitted {
        return Slept;
      }
      var r, panicked := Write(p, n, off, d, copies);
      if panicked {
        return Stopped(r);
      }
      FewPinned(|log.at.lh|, held);
      panicked := End(p, held);
      if panicked {
        return Stopped(r);
      }
      end := Ended(r);
    }

    /** With no operation in progress the log is empty and begin_op does not sleep. */
    lemma AloneMayBegin(p: nat)
      requires InStep() && log.at.outstanding == 0 && log.at.phase.Idle? && p < |log.at.procs|
      ensures LogMachine.Admits(log.at) && log.at.lh == [] && log.at.procs[p].Outside?
    {
      hide LogMachine.ValidDisk, LogMachine.Recovered, Logs.HomeOf, Fits, AllBacked, LogTheorems.IsRun, Same;
      Last();
      AllOutside(log.at, p);
    }

    /** The machine stops; what was in memory is lost. */
    method Crash()
      requires Safe()
      modifies log, `marks
      ensures Safe() && log.at.phase.Booting? && |log.at.procs| == |old(log.at.procs)|
      ensures |old(marks)| > 0 && marks == old(marks) + [old(marks)[|old(marks)| - 1]] && old(log.states) <= log.states
    {
      hide LogTheorems.Inv, LogMachine.ValidDisk, LogMachine.Recovered, Logs.HomeOf, Fits, AllBacked, LogTheorems.IsRun;
      Last();
      ghost var ss := log.states;
      log.Crash();
      BackedMore(ss, marks, snaps, log.start, log.at);
      marks := marks + [marks[|marks| - 1]];
    }

    /** The file system as it is on disk, every inode read from its block. */
    method Load(ghost s: Fs) returns (f: FileSystem)
      requires Fits(s, lay, log.start) && s.inodes.Keys == inums && |log.blocks| == lay.size
      requires Logs.HomeOf(log.blocks, log.start) == Logs.HomeOf(s.blocks, log.start)
      ensures fresh(f) && f.lay == lay && Same(s, f.View(), log.start) && f.blocks == log.blocks
    {
      hide Logs.HomeOf, Fits, InodeAt, Same;
      FitsShape(s, lay, log.start);
      f := new FileSystem(lay, log.blocks, Loaded(lay, log.blocks, inums), s.owner);
      LoadedSame(s, f.View(), log.start, lay);
    }

    /** Boot: recover from the log, then read the file system from the disk.  It is the snapshot
        that was marked, with every file as it was there. */
    method Recover()
      requires Safe() && log.at.phase.Booting?
      modifies log, `fs, `marks, `snaps
      ensures InStep() && fresh(fs) && log.at.phase.Idle? && log.at.lh == [] && log.at.procs == old(log.at.procs)
      ensures |old(marks)| > 0 && old(marks)[|old(marks)| - 1] < |old(snaps)|
      ensures snaps == old(snaps) + [old(snaps)[old(marks)[|old(marks)| - 1]]]
      ensures Sound(fs.View()) && fs.inodes == snaps[|snaps| - 1].inodes && Good(snaps[|snaps| - 1])
      ensures forall n :: n in fs.inodes ==> Content(fs.View(), n) == Content(snaps[|snaps| - 1], n)
    {
      hide LogTheorems.Inv, LogMachine.ValidDisk, LogMachine.Recovered, Logs.HomeOf, Fits, AllBacked, LogTheorems.IsRun;
      hide LogMachine.Cached, LogMachine.WellFormed, Backed, LogTheorems.StepsTo, Sound, Content, Good, Same;
      hide Logs.DiskOf;
      Last();
      ghost var s, k := log.at, marks[|marks| - 1];
      BackedAt(s, k, snaps, log.start);
      RunLength(log.states, log.acts);
      ghost var ss := log.states;
      log.RecoverFromLog();
      log.RunWellFormed();
      assert log.states[..|marks|] == ss;
      RunLength(log.states, log.acts);
      RecoveryMarks(log.states, log.acts, |marks| - 1, marks, snaps, log.start);
      marks := marks + seq(|log.states| - |marks|, _ => k);
      IdleHome(log.at);
      RecoveredAt(log.states, log.acts, |old(marks)| - 1, |log.states| - 1);
      assert Logs.HomeOf(log.blocks, log.start) == Logs.HomeOf(snaps[k].blocks, log.start) by { HomeIs(log); }
      fs := Load(snaps[k]);
      BackedSnap(log.states, marks, snaps, log.start, snaps[k]);
      snaps := snaps + [snaps[k]];
      SameSoundNow(snaps[k], fs.View(), lay, log.start);
    }
  }

  lemma AllOutside(s: LogMachine.State, p: nat)
    requires LogTheorems.Inv(s) && s.phase.Idle? && s.outstanding == 0 && p < |s.procs|
    ensures LogMachine.Admits(s) && s.lh == [] && s.procs[p].Outside?
  {
    if s.procs[p].Inside? {
      LogTheorems.InProgress(s, p);
    }
  }

  /** File n has had a prefix of src written at off; no other file has changed. */
  ghost predicate Partly(s0: Fs, s: Fs, n: nat, off: nat, src: seq<byte>) {
    exists j :: 0 <= j <= |src| && File.Changed(s0, s, n, off, src[..j])
  }

  lemma Unchanged(s: Fs, n: nat, off: nat)
    requires Good(s) && n in s.inodes
    ensures File.Changed(s, s, n, off, [])
  {
  }

  ghost predicate AllPartly(s0: Fs, snaps: seq<Fs>, from: nat, n: nat, off: nat, src: seq<byte>) {
    forall k :: from <= k < |snaps| ==> Partly(s0, snaps[k], n, off, src)
  }

  lemma ChangedPartly(s0: Fs, s: Fs, n: nat, off: nat, src: seq<byte>, j: nat, snaps: seq<Fs>, from: nat)
    requires j <= |src| && File.Changed(s0, s, n, off, src[..j]) && AllPartly(s0, snaps, from, n, off, src)
    ensures AllPartly(s0, snaps + [s], from, n, off, src)
  {
    hide File.Changed;
  }

  /** Snapshots have been added; what a crash recovers has stayed the same or is one of the new ones, or
      the one they continue. */
  ghost predicate GoneOn(marks: seq<nat>, marks': seq<nat>, snaps: seq<Fs>, snaps': seq<Fs>) {
    && 0 < |marks| && marks <= marks' && snaps <= snaps'
    && forall i :: |marks| <= i < |marks'| ==> marks'[i] == marks[|marks| - 1] || |snaps| - 1 <= marks'[i] < |snaps'|
  }

  lemma GoneOnRefl(marks: seq<nat>, snaps: seq<Fs>)
    requires |marks| > 0
    ensures GoneOn(marks, marks, snaps, snaps)
  {
  }

  lemma NoneYet(s0: Fs, snaps: seq<Fs>, n: nat, off: nat, src: seq<byte>)
    ensures AllPartly(s0, snaps, |snaps|, n, off, src)
  {
  }

  lemma GoneOnTrans(m0: seq<nat>, m1: seq<nat>, m2: seq<nat>, s0: seq<Fs>, s1: seq<Fs>, s2: seq<Fs>)
    requires GoneOn(m0, m1, s0, s1) && GoneOn(m1, m2, s1, s2)
    ensures GoneOn(m0, m2, s0, s2)
  {
    assert m2[|m1| - 1] == m1[|m1| - 1];
    forall i | |m0| <= i < |m2| ensures m2[i] == m0[|m0| - 1] || |s0| - 1 <= m2[i] < |s2| {
      if i < |m1| {
        assert m2[i] == m1[i];
      }
    }
  }

  /** At no step of any commit do others refer to so many buffers that an operation finds none. */
  ghost predicate FewHeld(held: nat -> nat -> nat) {
    forall op, i :: held(op)(i) + LogMachine.MAXOPBLOCKS < LogMachine.NBUF
  }

  lemma FewHeldAt(held: nat -> nat -> nat, op: nat)
    ensures FewHeld(held) ==> forall i :: held(op)(i) + LogMachine.MAXOPBLOCKS < LogMachine.NBUF
  {
  }

  lemma FewPinned(n: nat, held: nat -> nat)
    ensures n <= LogMachine.MAXOPBLOCKS && (forall i :: held(i) + LogMachine.MAXOPBLOCKS < LogMachine.NBUF) ==>
              !Logs.CommitStops(n, held)
  {
  }

  lemma ChangedNext(s0: Fs, s: Fs, s': Fs, n: nat, off: nat, src: seq<byte>, i: nat, m: nat, r: nat)
    requires i + m <= |src| && r <= m && File.Changed(s0, s, n, off, src[..i]) && off + i <= |Content(s, n)|
    requires Rewrites(s, s', n, Splice(Content(s, n), off + i, src[i..i + m][..r]))
    ensures File.Changed(s0, s', n, off, src[..i + r]) && n in s'.inodes && off + i + r < WORD_LIMIT
  {
    hide Good, Content, Stored;
    File.ChangedMore(s0, s, s', n, off, src[..i], src[i..i + m][..r]);
    File.Prefixes(src, i, m, r);
    File.ContentSize(s', n);
  }

  lemma WriteNext(s0: Fs, s: Fs, s': Fs, n: nat, off: nat, src: seq<byte>, i: nat, m: nat, r: int,
                  snaps: seq<Fs>, snaps': seq<Fs>, from: nat)
    requires i + m <= |src| && File.Changed(s0, s, n, off, src[..i]) && AllPartly(s0, snaps, from, n, off, src)
    requires n in s.inodes && off + i < WORD_LIMIT && (r == -1 ==> s' == s)
    requires r != -1 ==> 0 <= r <= m && Good(s) && off + i <= |Content(s, n)|
    requires r != -1 ==> Rewrites(s, s', n, Splice(Content(s, n), off + i, src[i..i + m][..r]))
    requires snaps' == snaps || snaps' == snaps + [s']
    ensures var j := i + if r == -1 then 0 else r;
      n in s'.inodes && off + j < WORD_LIMIT && File.Changed(s0, s', n, off, src[..j])
    ensures AllPartly(s0, snaps', from, n, off, src)
  {
    hide File.Changed, Rewrites, Good, Content, AllPartly, Splice;
    if r != -1 {
      ChangedNext(s0, s, s', n, off, src, i, m, r);
    }
    ChangedPartly(s0, s', n, off, src, i + if r == -1 then 0 else r, snaps, from);
  }

  /** A free map of fewer blocks than an operation may log, as mkfs makes it, is enough for every file. */
  lemma TruncateFits(s: Fs, n: nat)
    requires Shape(s) && s.lay.meta - s.lay.bmapstart < LogMachine.MAXOPBLOCKS
    ensures |Maps(s.lay, Held(s, n, NDIRECT + 1, NINDIRECT))| < LogMachine.MAXOPBLOCKS
  {
    SubsetSize(Maps(s.lay, Held(s, n, NDIRECT + 1, NINDIRECT)), Range(s.lay.bmapstart, s.lay.meta));
  }

  ghost function Mark(st: LogMachine.State, snaps: seq<Fs>, start: nat, k: nat): (r: nat)
    requires |snaps| > 0
    ensures r == k || r == |snaps| - 1
  {
    if Backed(st, |snaps| - 1, snaps, start) then |snaps| - 1 else k
  }

  ghost function NewMarks(ss: seq<LogMachine.State>, from: nat, snaps: seq<Fs>, start: nat, k: nat): (r: seq<nat>)
    requires |snaps| > 0 && from <= |ss|
    ensures |r| == |ss| - from && forall i :: 0 <= i < |r| ==> r[i] == Mark(ss[from + i], snaps, start, k)
    decreases |ss| - from
  {
    if from == |ss| then [] else [Mark(ss[from], snaps, start, k)] + NewMarks(ss, from + 1, snaps, start, k)
  }

  lemma CommitBacked(s: LogMachine.State, s0: LogMachine.State, k: nat, snaps: seq<Fs>, start: nat)
    requires CommittingFrom(s, s0) && Backed(s0, k, snaps, start)
    requires LogMachine.Cached(s0) == Logs.HomeOf(snaps[|snaps| - 1].blocks, start)
    ensures Backed(s, Mark(s, snaps, start, k), snaps, start)
  {
    hide LogMachine.Cached, Logs.HomeOf, LogMachine.Recovered;
  }

  lemma EndMarks(ss: seq<LogMachine.State>, acts: seq<LogMachine.Action>, a: nat, marks: seq<nat>, snaps: seq<Fs>,
                 start: nat)
    requires LogTheorems.IsRun(ss, acts) && a + 1 == |marks| <= |ss| && |snaps| > 0
    requires a < |acts| && acts[a].End? && ss[a].phase.Idle?
    requires forall j :: a < j < |acts| ==> acts[j].Tick?
    requires AllBacked(ss[..|marks|], marks, snaps, start)
    requires LogMachine.Cached(ss[a]) == Logs.HomeOf(snaps[|snaps| - 1].blocks, start)
    ensures AllBacked(ss, marks + NewMarks(ss, |marks|, snaps, start, marks[a]), snaps, start)
  {
    hide LogTheorems.IsRun, LogMachine.Cached, Logs.HomeOf, Backed, CommittingFrom, Mark;
    var all := marks + NewMarks(ss, |marks|, snaps, start, marks[a]);
    assert Backed(ss[..|marks|][a], marks[a], snaps, start);
    RunLength(ss, acts);
    forall i | 0 <= i < |ss| ensures Backed(ss[i], all[i], snaps, start) {
      if i <= a {
        assert Backed(ss[..|marks|][i], marks[i], snaps, start);
      } else {
        EndSegment(ss, acts, a, i);
        CommitBacked(ss[i], ss[a], marks[a], snaps, start);
      }
    }
  }

  lemma RunLength(ss: seq<LogMachine.State>, acts: seq<LogMachine.Action>)
    requires LogTheorems.IsRun(ss, acts)
    ensures |ss| == |acts| + 1
  {
  }

  lemma CachedSame(s: LogMachine.State, s': LogMachine.State)
    requires LogTheorems.Inv(s) && LogTheorems.Inv(s') && s.phase.Idle? && s'.phase.Idle?
    requires s'.hist == s.hist && s'.base == s.base
    ensures LogMachine.Cached(s') == LogMachine.Cached(s)
  {
  }

  /** At rest the log is empty on disk, and with no operation in progress nothing is pinned. */
  lemma IdleHome(s: LogMachine.State)
    requires LogTheorems.Inv(s) && s.phase.Idle?
    ensures LogMachine.Recovered(s.disk) == s.disk.home && (s.lh == [] ==> LogMachine.Cached(s) == s.disk.home)
  {
  }

  lemma LastMark(s: LogMachine.State, snaps: seq<Fs>, start: nat, k: nat)
    requires |snaps| > 0 && LogMachine.ValidDisk(s.disk)
    requires LogMachine.Recovered(s.disk) == Logs.HomeOf(snaps[|snaps| - 1].blocks, start)
    ensures Mark(s, snaps, start, k) == |snaps| - 1
  {
    hide LogMachine.ValidDisk, LogMachine.Recovered, Logs.HomeOf;
  }

  lemma BackedAt(s: LogMachine.State, k: nat, snaps: seq<Fs>, start: nat)
    requires Backed(s, k, snaps, start)
    ensures k < |snaps| && LogMachine.ValidDisk(s.disk)
    ensures LogMachine.Recovered(s.disk) == Logs.HomeOf(snaps[k].blocks, start)
  {
  }

  /** Recovery keeps what it works towards. */
  lemma RecoveredAt(ss: seq<LogMachine.State>, acts: seq<LogMachine.Action>, a: nat, i: nat)
    requires LogTheorems.IsRun(ss, acts) && a <= i < |ss| && ss[a].phase.Booting? && forall j :: a <= j < i ==>
      acts[j].Tick?
    ensures LogMachine.ValidDisk(ss[a].disk) && LogMachine.ValidDisk(ss[i].disk)
    ensures LogMachine.Recovered(ss[i].disk) == LogMachine.Recovered(ss[a].disk)
  {
    hide LogTheorems.IsRun;
    LogTheorems.RunInv(ss, acts, a);
    LogTheorems.RecoveryKeeps(ss, acts, a, i, LogMachine.Recovered(ss[a].disk), ss[a].hist);
  }

  lemma RecoveryMarks(ss: seq<LogMachine.State>, acts: seq<LogMachine.Action>, a: nat,
                      marks: seq<nat>, snaps: seq<Fs>, start: nat)
    requires LogTheorems.IsRun(ss, acts) && a + 1 == |marks| <= |ss| && ss[a].phase.Booting?
    requires forall j :: a <= j < |acts| ==> acts[j].Tick?
    requires AllBacked(ss[..|marks|], marks, snaps, start)
    ensures AllBacked(ss, marks + seq(|ss| - |marks|, _ => marks[a]), snaps, start)
  {
    hide LogTheorems.IsRun, Logs.HomeOf, LogMachine.Recovered, LogMachine.ValidDisk;
    var all := marks + seq(|ss| - |marks|, _ => marks[a]);
    assert Backed(ss[..|marks|][a], marks[a], snaps, start);
    RunLength(ss, acts);
    forall i | 0 <= i < |ss| ensures Backed(ss[i], all[i], snaps, start) {
      if i <= a {
        assert Backed(ss[..|marks|][i], marks[i], snaps, start);
      } else {
        RecoveredAt(ss, acts, a, i);
      }
    }
  }

  lemma HomeIs(log: Logs.Log)
    requires log.Valid()
    ensures log.at.disk.home == Logs.HomeOf(log.blocks, log.start)
  {
  }

  lemma FitsShape(s: Fs, lay: Layout, start: nat)
    requires Fits(s, lay, start)
    ensures Shape(s) && ValidLayout(lay) && s.lay == lay && |s.blocks| == lay.size
    ensures forall n :: n in s.inodes ==> n < lay.ninodes && IBlock(lay, n) < lay.size
  {
  }

  lemma LoadedSame(s: Fs, s': Fs, start: nat, lay: Layout)
    requires s.lay == s'.lay == lay && s'.owner == s.owner && ValidLayout(lay)
    requires |s'.blocks| == |s.blocks| == lay.size && forall n :: n in s.inodes ==> n < lay.ninodes
    requires Logs.HomeOf(s'.blocks, start) == Logs.HomeOf(s.blocks, start) && s'.inodes.Keys == s.inodes.Keys
    requires forall n :: n in s.inodes ==> s'.inodes[n] == InodeAt(s'.blocks[IBlock(lay, n)], n)
    requires Fits(s, lay, start)
    ensures Same(s, s', start)
  {
    hide Logs.HomeOf, InodeAt, Fits;
    forall n | n in s.inodes ensures s'.inodes[n] == s.inodes[n] {
      LoadedInode(s, s'.blocks, start, lay, n, IBlock(lay, n));
    }
    assert s'.inodes == s.inodes;
  }

  lemma LoadedInode(s: Fs, blocks: seq<Block>, start: nat, lay: Layout, n: nat, ib: nat)
    requires ValidLayout(lay) && |blocks| == |s.blocks| && n in s.inodes && n < lay.ninodes
    requires ib == IBlock(lay, n) < |blocks|
    requires Logs.HomeOf(blocks, start) == Logs.HomeOf(s.blocks, start) && Fits(s, lay, start)
    ensures InodeAt(blocks[ib], n) == s.inodes[n]
  {
    hide Logs.HomeOf, InodeAt, HoldsInode, Owned, Allocated;
    HomeBlock(s.blocks, start, ib);
    HomeBlock(blocks, start, ib);
    assert Stored(s, n);
    LoadsStored(s.blocks[ib], n, s.inodes[n]);
  }

  lemma CrashGoal(ss: seq<LogMachine.State>, acts: seq<LogMachine.Action>, k: nat, m: nat)
    requires LogTheorems.IsRun(ss, acts) && k < m < |ss| && LogMachine.ValidDisk(ss[k].disk)
    requires acts[k].Crash? && (forall i :: k < i < m ==> acts[i].Crash? || acts[i].Tick?) && ss[m].phase.Idle?
    ensures ss[m].disk.home == LogMachine.Recovered(ss[k].disk)
  {
    RunLength(ss, acts);
    hide LogTheorems.IsRun, LogTheorems.Inv, LogMachine.Recovered, LogMachine.ValidDisk;
    LogTheorems.StepAt(ss, acts, k);
    LogTheorems.CrashStep(ss[k]);
    LogTheorems.RecoveryKeeps(ss, acts, k + 1, m, LogMachine.Recovered(ss[k].disk), ss[k].hist[..ss[k].durable]);
    IdleHome(ss[m]);
  }

  /** Crash in any state that a snapshot backs, and crash again during recovery as often as you
      like: on the disk that recovery leaves, the inodes read from their blocks are those of the
      snapshot, every file is as it was there, and the free map and all pointers agree. */
  lemma CrashAnywhere(ss: seq<LogMachine.State>, acts: seq<LogMachine.Action>, k: nat, m: nat,
                      snaps: seq<Fs>, mark: nat, start: nat, lay: Layout, blocks: seq<Block>)
    requires LogTheorems.IsRun(ss, acts) && k < m < |ss| && Backed(ss[k], mark, snaps, start)
    requires acts[k].Crash? && (forall i :: k < i < m ==> acts[i].Crash? || acts[i].Tick?) && ss[m].phase.Idle?
    requires |blocks| == lay.size && Logs.HomeOf(blocks, start) == ss[m].disk.home
    requires Fits(snaps[mark], lay, start)
    ensures ValidLayout(lay) && forall n :: n in snaps[mark].inodes ==> n < lay.ninodes
    ensures Loaded(lay, blocks, snaps[mark].inodes.Keys) == snaps[mark].inodes
    ensures var s := Fs(lay, blocks, snaps[mark].inodes, snaps[mark].owner);
      Sound(s) && Good(snaps[mark]) && forall n :: n in s.inodes ==> Content(s, n) == Content(snaps[mark], n)
  {
    hide Logs.HomeOf, Fits, Good, Content, LogTheorems.IsRun, Sound, LogMachine.Recovered, LogMachine.ValidDisk;
    CrashGoal(ss, acts, k, m);
    FitsShape(snaps[mark], lay, start);
    forall n | n in snaps[mark].inodes ensures InodeAt(blocks[IBlock(lay, n)], n) == snaps[mark].inodes[n] {
      LoadedInode(snaps[mark], blocks, start, lay, n, IBlock(lay, n));
    }
    SameSoundNow(snaps[mark], Fs(lay, blocks, snaps[mark].inodes, snaps[mark].owner), lay, start);
  }

  lemma SameSoundNow(s: Fs, s': Fs, lay: Layout, start: nat)
    requires Fits(s, lay, start) && Same(s, s', start)
    ensures Sound(s') && s'.inodes == s.inodes && Good(s) && Good(s')
    ensures forall n :: n in s.inodes ==> Content(s', n) == Content(s, n)
  {
    hide Good, Stored, Content;
    SameFields(s, s', start);
    SameSound(s, s', start);
  }

  lemma SizeOf(s: Fs)
    requires Good(s)
    ensures |s.blocks| == s.lay.size && Shape(s)
  {
  }

  lemma FitsGood(s: Fs, lay: Layout, start: nat)
    requires Fits(s, lay, start)
    ensures Good(s)
  {
  }

  /** An operation keeps all inodes on disk. */
  lemma RewritesFits(s0: Fs, s: Fs, n: nat, c: seq<byte>, lay: Layout, start: nat)
    requires Fits(s0, lay, start) && Rewrites(s0, s, n, c)
    ensures Fits(s, lay, start) && s.inodes.Keys == s0.inodes.Keys
  {
    hide Good, Content, Stored;
  }

  lemma ShortList(lh0: seq<nat>, lh: seq<nat>, more: set<nat>)
    requires Distinct(lh) && Elements(lh) <= Elements(lh0) + more
    ensures |lh| <= |lh0| + |more|
  {
    SeqSize(lh);
    ElementsBound(lh0);
    SubsetSize(Elements(lh), Elements(lh0) + more);
    assert |Elements(lh0) + more| <= |Elements(lh0)| + |more|;
  }

  lemma {:induction false} ElementsBound(s: seq<nat>)
    ensures |Elements(s)| <= |s|
  {
    if s != [] {
      var n := |s| - 1;
      ElementsBound(s[..n]);
      assert s == s[..n] + [s[n]];
      assert Elements(s) == Elements(s[..n]) + {s[n]};
    }
  }

  lemma TraceStarts(origin: seq<Block>, writes: seq<Store>)
    ensures writes[..0] == [] && Touched([]) == {} && Played(origin, []) == origin
  {
  }

  lemma IsHomeBlock(blocks: seq<Block>, start: nat, b: nat, s: Fs, lay: Layout)
    requires Fits(s, lay, start) && lay.inodestart <= b < |blocks| == lay.size
    ensures b > start + LogMachine.LOGBLOCKS && b in Logs.HomeOf(blocks, start)
  {
    hide Sound;
  }
}
