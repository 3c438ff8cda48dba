/** The redo log of kernel/log.c as a step machine.

    A state holds the disk, the in-memory log, the operations in progress and the
    program counter of whoever is inside commit() or recover_from_log().  One step is
    either one section run under log.lock, or one disk write, or a crash; so a crash may
    fall between any two disk writes, and operations of any number of processes
    interleave freely.

    `hist` records every log_write since boot in order and `durable` how many of them
    have committed.  Both are bookkeeping for the theorems: no step reads them. */
module LogMachine {
  import opened Blocks
  import opened Sets

  const MAXOPBLOCKS: nat := 10
  const LOGBLOCKS: nat := 3 * MAXOPBLOCKS
  const NBUF: nat := 3 * MAXOPBLOCKS  // buffers in the cache

  // ---------------------------------------------------------------- disks

  /** The contents of the blocks outside the log area, by block number. */
  type Contents = map<nat, Block>

  /** A disk: the block numbers in the log header, the log blocks, and all other blocks. */
  datatype Disk = Disk(head: seq<nat>, log: seq<Block>, home: Contents)

  predicate HomeList(home: Contents, bs: seq<nat>) {
    && |bs| <= LOGBLOCKS
    && Distinct(bs)
    && forall i :: 0 <= i < |bs| ==> bs[i] in home
  }

  predicate ValidDisk(d: Disk) {
    |d.log| == LOGBLOCKS && HomeList(d.home, d.head)
  }

  /** The first k entries of the log copied to their homes, in order. */
  function Replay(home: Contents, bs: seq<nat>, log: seq<Block>, k: nat): Contents
    requires k <= |bs| <= |log|
  {
    if k == 0 then home else Replay(home, bs, log, k - 1)[bs[k - 1] := log[k - 1]]
  }

  /** What a crash now would leave behind once recovery has run. */
  function Recovered(d: Disk): Contents
    requires ValidDisk(d)
  {
    Replay(d.home, d.head, d.log, |d.head|)
  }

  // ---------------------------------------------------------------- histories

  datatype Write = Write(op: nat, block: nat, value: Block)

  /** The plain meaning of a list of writes: later ones win. */
  function Applied(base: Contents, hist: seq<Write>): Contents {
    if hist == [] then base
    else
      var w := hist[|hist| - 1];
      Applied(base, hist[..|hist| - 1])[w.block := w.value]
  }

  // ---------------------------------------------------------------- states

  /** An operation between begin_op and end_op, with the blocks it has logged. */
  datatype Proc = Outside | Inside(op: nat, blocks: set<nat>)

  /** Where the committing or recovering process stands.
      Logging(t) is write_log about to copy entry t, or write_head once all are copied;
      Installing(t) is install_trans(0) likewise, Replaying(t) is install_trans(1). */
  datatype Phase =
    | Idle
    | Logging(t: nat)
    | Installing(t: nat)
    | Finishing
    | Booting
    | Replaying(t: nat)

  datatype State = State(
    disk: Disk,
    lh: seq<nat>,
    pinned: Contents,
    outstanding: int,
    committing: bool,
    phase: Phase,
    procs: seq<Proc>,
    nextOp: nat,
    base: Contents,
    hist: seq<Write>,
    durable: nat)

  /** What bread returns: a block with uncommitted changes is pinned in the cache. */
  function Cached(s: State): Contents {
    s.disk.home + s.pinned
  }

  predicate WellFormed(s: State) {
    && ValidDisk(s.disk)
    && HomeList(s.disk.home, s.lh)
    && s.durable <= |s.hist|
    && match s.phase
       case Logging(t) => t <= |s.lh|
       case Installing(t) => t <= |s.lh|
       case Replaying(t) => t <= |s.lh|
       case _ => true
  }

  // ---------------------------------------------------------------- steps

  /** Tick is a move of the committing or recovering process, at a moment when other processes
      refer to `held` buffers besides the pinned ones. */
  datatype Action =
    | Begin(p: nat)
    | LogWrite(p: nat, b: nat, v: Block)
    | End(p: nat)
    | Tick(held: nat)
    | Crash

  /** begin_op goes to sleep unless this holds. */
  predicate Admits(s: State) {
    !s.committing && |s.lh| + (s.outstanding + 1) * MAXOPBLOCKS <= LOGBLOCKS
  }

  /** The two panics of log_write. */
  predicate LogWritePanics(s: State) {
    |s.lh| >= LOGBLOCKS || s.outstanding < 1
  }

  /** The panic of end_op. */
  predicate EndPanics(s: State) {
    s.committing
  }

  /** Commit reads a log block or the header into the cache at every step; when the pinned buffers
      and those that others refer to are all there are, bget panics.  Recovery runs before there
      are others. */
  predicate CommitPanics(s: State, held: nat) {
    (s.phase.Logging? || s.phase.Installing?) && |s.pinned| + held >= NBUF
  }

  /** log_write's scan for absorption. */
  function LogAppend(lh: seq<nat>, b: nat): seq<nat> {
    if b in lh then lh else lh + [b]
  }

  /** The discipline of the callers: log_write only inside an operation, only for home
      blocks, and for at most MAXOPBLOCKS distinct blocks per operation. */
  predicate MayLog(s: State, p: nat, b: nat) {
    && p < |s.procs| && s.procs[p].Inside?
    && b in s.disk.home
    && |s.procs[p].blocks + {b}| <= MAXOPBLOCKS
  }

  /** Recovery runs before the first operation, so operations wait for it; after that the
      guard of begin_op alone decides. */
  predicate Enabled(s: State, a: Action) {
    match a
    case Begin(p) => !s.phase.Booting? && !s.phase.Replaying? && p < |s.procs| && s.procs[p].Outside? && Admits(s)
    case LogWrite(p, b, v) => MayLog(s, p, b) && !LogWritePanics(s)
    case End(p) => p < |s.procs| && s.procs[p].Inside? && !EndPanics(s)
    case Tick(held) => !s.phase.Idle? && !CommitPanics(s, held)
    case Crash => true
  }

  function Next(s: State, a: Action): State
    requires WellFormed(s) && Enabled(s, a)
  {
    match a
    case Begin(p) =>
      s.(outstanding := s.outstanding + 1, procs := s.procs[p := Inside(s.nextOp, {})], nextOp := s.nextOp + 1)
    case LogWrite(p, b, v) =>
      s.(lh := LogAppend(s.lh, b),
         pinned := s.pinned[b := v],
         procs := s.procs[p := s.procs[p].(blocks := s.procs[p].blocks + {b})],
         hist := s.hist + [Write(s.procs[p].op, b, v)])
    case End(p) =>
      var out := s.(outstanding := s.outstanding - 1, procs := s.procs[p := Outside]);
      if s.outstanding - 1 != 0 then out
      else out.(committing := true, phase := if |s.lh| > 0 then Logging(0) else Finishing)
    case Tick(_) => Advance(s)
    case Crash =>
      s.(lh := [], pinned := map[], outstanding := 0, committing := false, phase := Booting,
         procs := seq(|s.procs|, _ => Outside), hist := s.hist[..s.durable])
  }

  /** The next action of commit() or recover_from_log(). */
  function Advance(s: State): State
    requires WellFormed(s) && !s.phase.Idle?
  {
    match s.phase
    case Logging(t) =>
      if t < |s.lh| then
        s.(disk := s.disk.(log := s.disk.log[t := Cached(s)[s.lh[t]]]), phase := Logging(t + 1))
      else // the real commit
        s.(disk := s.disk.(head := s.lh), phase := Installing(0), durable := |s.hist|)
    case Installing(t) =>
      if t < |s.lh| then
        s.(disk := Install(s.disk, s.lh, t), pinned := s.pinned - {s.lh[t]}, phase := Installing(t + 1))
      else
        s.(lh := [], disk := s.disk.(head := []), phase := Finishing)
    case Finishing => s.(committing := false, phase := Idle)
    case Booting => s.(lh := s.disk.head, phase := Replaying(0))
    case Replaying(t) =>
      if t < |s.lh| then
        s.(disk := Install(s.disk, s.lh, t), phase := Replaying(t + 1))
      else
        s.(lh := [], disk := s.disk.(head := []), phase := Idle)
  }

  /** One iteration of install_trans: log block t copied to its home. */
  function Install(d: Disk, lh: seq<nat>, t: nat): Disk
    requires t < |lh| <= |d.log|
  {
    d.(home := d.home[lh[t] := d.log[t]])
  }
}
