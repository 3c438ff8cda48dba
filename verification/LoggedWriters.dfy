/** Calls of writei by many processes, each in an operation of its own, over the log of kernel/log.c:
    the steps of Writers and of LogMachine together.  Every log_write of one is a log_write of the
    other, a commit may begin when the last operation has ended, and a crash may come at any time. */
module LoggedWriters {
  import opened Blocks
  import opened FileSystem
  import opened FsBytes
  import opened FsState
  import opened Journal
  import opened Options
  import opened WriterCosts
  import opened Writers
  import File
  import LogMachine
  import LogTheorems
  import Logs = Log

  /** The file system at a moment when no operation was open, and the calls that had returned. */
  datatype Snap = Snap(fs: Fs, done: seq<Call>)

  /** `mark` is the snapshot that a crash now would recover. */
  datatype Sys = Sys(log: LogMachine.State, w: Writers.State, bills: seq<Bill>, snaps: seq<Snap>, mark: nat)

  datatype Move =
    | Begin(p: nat)
    | Do(a: Writers.Action)
    | End(p: nat)
    | Tick(held: nat)
    | Crash

  /** What does not change in a run: where the log is, the layout, and the files at first. */
  datatype Site = Site(start: nat, lay: Layout, base: map<nat, seq<byte>>)

  ghost predicate SnapRight(site: Site, x: Snap) {
    && Fits(x.fs, site.lay, site.start) && Good(x.fs)
    && forall n :: n in x.fs.inodes ==> Content(x.fs, n) == Effect(site.base, x.done, n)
  }

  /** Outside an operation there is no call; inside, the log and the call agree on what is logged. */
  ghost predicate ProcRight(proc: LogMachine.Proc, pc: Pc, bill: Bill) {
    !pc.Away? ==> proc.Inside? && proc.blocks == bill.logged && |pc.job.src| <= File.MAX_CHUNK
  }

  ghost predicate Procs(y: Sys) {
    && |y.bills| == |y.w.pcs| == |y.log.procs| && Shape(y.w.fs)
    && (forall p :: 0 <= p < |y.bills| ==> ProcRight(y.log.procs[p], y.w.pcs[p], y.bills[p]))
    && (forall p :: 0 <= p < |y.bills| ==> BillRight(y.w.fs, y.w.pcs[p], y.bills[p]))
  }

  ghost predicate Recovering(s: LogMachine.State) { s.phase.Booting? || s.phase.Replaying? }

  /** What is cached, what is to be committed, and what is on disk. */
  ghost predicate OnDisk(site: Site, y: Sys) {
    && LogMachine.ValidDisk(y.log.disk) && y.mark < |y.snaps|
    && LogMachine.Recovered(y.log.disk) == Logs.HomeOf(y.snaps[y.mark].fs.blocks, site.start)
    && (!Recovering(y.log) ==> LogMachine.Cached(y.log) == Logs.HomeOf(y.w.blocks, site.start))
    && (Recovering(y.log) ==> y.w.fs == y.snaps[y.mark].fs && y.w.blocks == y.w.fs.blocks)
    && (LogTheorems.Committing(y.log.phase) ==>
          y.snaps[|y.snaps| - 1] == Snap(y.w.fs, y.w.done) && y.w.blocks == y.w.fs.blocks)
  }

  ghost predicate Snaps(site: Site, y: Sys) {
    && site.start + LogMachine.LOGBLOCKS < site.lay.inodestart && y.w.fs.lay == site.lay
    && (forall k :: 0 <= k < |y.snaps| ==> SnapRight(site, y.snaps[k]))
    && y.mark < |y.snaps| && y.snaps[y.mark].done <= y.w.done
  }

  ghost predicate Right(site: Site, y: Sys) {
    && LogTheorems.Inv(y.log) && Writers.Inv(y.w) && InOrder(site.base, y.w)
    && Procs(y) && OnDisk(site, y) && Snaps(site, y)
  }

  /** A panic of log_write is a step that is not enabled; the machine then waits for a crash. */
  ghost predicate Enabled(y: Sys, m: Move) {
    match m
    case Begin(p) => LogMachine.Enabled(y.log, LogMachine.Begin(p))
    case Do(a) =>
      && Writers.Inv(y.w) && Writers.Enabled(y.w, a) && a.p < |y.log.procs| && y.log.procs[a.p].Inside?
      && (a.Start? ==> y.log.procs[a.p].blocks == {} && |a.src| <= File.MAX_CHUNK)
      && (Writers.Logs(y.w, a).Some? ==> !LogMachine.LogWritePanics(y.log))
    case End(p) => p < |y.w.pcs| && y.w.pcs[p].Away? && LogMachine.Enabled(y.log, LogMachine.End(p))
    case Tick(held) => LogMachine.Enabled(y.log, LogMachine.Tick(held))
    case Crash => true
  }

  /** The files of a snapshot. */
  ghost function FilesOf(fs: Fs): map<nat, seq<byte>>
    requires Good(fs)
  {
    map n | n in fs.inodes :: Content(fs, n)
  }

  /** A machine at rest with file system fs. */
  ghost function Resting(x: Snap, procs: nat): Writers.State
    requires Good(x.fs)
  {
    Writers.State(x.fs, x.fs.blocks, FilesOf(x.fs), seq(procs, _ => Away), x.done)
  }

  ghost function Next(site: Site, y: Sys, m: Move): Sys
    requires Right(site, y) && Enabled(y, m)
  {
    hide LogTheorems.Inv, Writers.Inv, LogMachine.WellFormed;
    assert LogMachine.WellFormed(y.log) by { LogWell(y.log); }
    match m
    case Begin(p) => y.(log := LogMachine.Next(y.log, LogMachine.Begin(p)))
    case Do(a) =>
      var w := Writers.Logs(y.w, a);
      if w.None? then y.(w := Writers.Next(y.w, a), bills := y.bills[a.p := NextBill(y.w, a, y.bills[a.p])])
      else
        LogsAllowed(site, y, a);
        y.(log := LogMachine.Next(y.log, LogMachine.LogWrite(a.p, w.value.b, w.value.v)),
           w := Writers.Next(y.w, a), bills := y.bills[a.p := NextBill(y.w, a, y.bills[a.p])])
    case End(p) =>
      y.(log := LogMachine.Next(y.log, LogMachine.End(p)),
         snaps := if y.log.outstanding == 1 then y.snaps + [Snap(y.w.fs, y.w.done)] else y.snaps)
    case Tick(held) =>
      y.(log := LogMachine.Next(y.log, LogMachine.Tick(held)),
         mark := if y.log.phase == LogMachine.Logging(|y.log.lh|) then |y.snaps| - 1 else y.mark)
    case Crash =>
      assert SnapRight(site, y.snaps[y.mark]);
      y.(log := LogMachine.Next(y.log, LogMachine.Crash), w := Resting(y.snaps[y.mark], |y.w.pcs|))
  }

  lemma LogWell(s: LogMachine.State)
    requires LogTheorems.Inv(s)
    ensures LogMachine.WellFormed(s)
  {
  }

  /** Each log_write of a call is for a home block, and within what begin_op has reserved. */
  lemma LogsAllowed(site: Site, y: Sys, a: Writers.Action)
    requires Right(site, y) && Enabled(y, Do(a)) && Writers.Logs(y.w, a).Some?
    ensures var w := Writers.Logs(y.w, a).value; LogMachine.Enabled(y.log, LogMachine.LogWrite(a.p, w.b, w.v))
    ensures y.bills[a.p].logged == y.log.procs[a.p].blocks && !y.w.pcs[a.p].Away?
  {
    hide LogTheorems.Inv, Writers.Inv, InOrder, BillRight, LogMachine.Recovered, SnapRight, Logs.HomeOf, Budget;
    hide LogMachine.Cached;
    WithinBudget(y.w, a, y.bills[a.p]);
    File.ChunkBudget(y.w.pcs[a.p].job.off, |y.w.pcs[a.p].job.src|);
    assert ProcRight(y.log.procs[a.p], y.w.pcs[a.p], y.bills[a.p]);
    LogTheorems.InProgress(y.log, a.p);
    HomeKeys(site, y, Writers.Logs(y.w, a).value.b);
  }

  lemma HomeKeys(site: Site, y: Sys, b: nat)
    requires Right(site, y) && y.log.phase.Idle? && site.lay.inodestart <= b < site.lay.size
    ensures b in y.log.disk.home && site.start + LogMachine.LOGBLOCKS < b < |y.w.blocks|
  {
    hide LogTheorems.Inv, Writers.Inv, InOrder, Procs, LogMachine.Recovered, SnapRight;
    PinnedHome(y.log);
    CacheSize(y.w);
    HomeBlock(y.w.blocks, site.start, b);
  }

  lemma CacheSize(w: Writers.State)
    requires Writers.Inv(w)
    ensures |w.blocks| == w.fs.lay.size && Shape(w.fs)
  {
    hide Files, Pcs, Apart, Owned;
    FilesShape(w.fs, w.want, Busy(w.pcs));
  }

  lemma PinnedHome(s: LogMachine.State)
    requires LogTheorems.Inv(s)
    ensures LogMachine.Cached(s).Keys == s.disk.home.Keys
  {
    hide LogTheorems.Ops, LogTheorems.Space, LogTheorems.Control, LogTheorems.Pins, LogMachine.Applied;
    hide LogMachine.Recovered;
    forall b | b in s.pinned ensures b in s.disk.home {
      assert b in s.lh;
    }
  }

  // ---------------------------------------------------------------- every move keeps it right

  lemma LogKeeps(s: LogMachine.State, a: LogMachine.Action)
    requires LogTheorems.Inv(s) && LogMachine.Enabled(s, a)
    ensures LogMachine.WellFormed(s) && LogTheorems.Inv(LogMachine.Next(s, a))
    ensures LogMachine.ValidDisk(s.disk) && LogMachine.ValidDisk(LogMachine.Next(s, a).disk)
    ensures !(a.Tick? && s.phase == LogMachine.Logging(|s.lh|)) ==>
      LogMachine.Recovered(LogMachine.Next(s, a).disk) == LogMachine.Recovered(s.disk)
    ensures a.Tick? && s.phase == LogMachine.Logging(|s.lh|) ==>
      LogMachine.Recovered(LogMachine.Next(s, a).disk) == LogMachine.Cached(s)
  {
    hide LogTheorems.Inv, LogMachine.Recovered, LogMachine.Next, LogMachine.Enabled, LogMachine.WellFormed;
    hide LogMachine.Cached;
    LogWell(s);
    LogTheorems.OnlyHeaderWriteCommits(s, a);
    LogWell(LogMachine.Next(s, a));
    WellDisk(s);
    WellDisk(LogMachine.Next(s, a));
  }

  lemma WellDisk(s: LogMachine.State)
    requires LogMachine.WellFormed(s)
    ensures LogMachine.ValidDisk(s.disk)
  {
  }

  lemma BeginKeeps(site: Site, y: Sys, p: nat)
    requires Right(site, y) && Enabled(y, Begin(p))
    ensures Right(site, Next(site, y, Begin(p)))
  {
    hide LogTheorems.Inv, Writers.Inv, InOrder, BillRight, LogMachine.Recovered, SnapRight, Logs.HomeOf;
    hide LogMachine.WellFormed;
    var y' := Next(site, y, Begin(p));
    LogKeeps(y.log, LogMachine.Begin(p));
    assert !LogTheorems.Committing(y.log.phase) by { NotCommitting(y.log); }
    forall q | 0 <= q < |y'.bills| ensures ProcRight(y'.log.procs[q], y'.w.pcs[q], y'.bills[q]) {
      assert ProcRight(y.log.procs[q], y.w.pcs[q], y.bills[q]);
    }
  }

  lemma NotCommitting(s: LogMachine.State)
    requires LogTheorems.Inv(s) && !s.committing
    ensures !LogTheorems.Committing(s.phase)
  {
  }

  lemma HomeStore(blocks: seq<Block>, start: nat, b: nat, v: Block)
    requires start + LogMachine.LOGBLOCKS < b < |blocks|
    ensures Logs.HomeOf(blocks[b := v], start) == Logs.HomeOf(blocks, start)[b := v]
  {
  }

  lemma DoProcs(site: Site, y: Sys, a: Writers.Action)
    requires Right(site, y) && Enabled(y, Do(a))
    ensures Procs(Next(site, y, Do(a)))
  {
    hide LogTheorems.Inv, Writers.Inv, InOrder, BillRight, LogMachine.Recovered, SnapRight, Logs.HomeOf;
    hide LogMachine.WellFormed;
    hide LogMachine.Cached, Moves, Budget;
    var y', n := Next(site, y, Do(a)), FileOf(y.w, a);
    BillKeeps(y.w, a, y.bills[a.p]);
    NextMoves(y.w, a);
    LogWell(y.log);
    DoProc(site, y, a);
    forall q | 0 <= q < |y'.bills| && q != a.p
      ensures ProcRight(y'.log.procs[q], y'.w.pcs[q], y'.bills[q]) && BillRight(y'.w.fs, y'.w.pcs[q], y'.bills[q])
    {
      assert ProcRight(y.log.procs[q], y.w.pcs[q], y.bills[q]) && BillRight(y.w.fs, y.w.pcs[q], y.bills[q]);
      OtherBill(y.w.fs, y'.w.fs, n, y.w.pcs[q], y.bills[q]);
    }
  }

  lemma DoProc(site: Site, y: Sys, a: Writers.Action)
    requires Right(site, y) && Enabled(y, Do(a))
    ensures var y' := Next(site, y, Do(a));
      && |y'.w.pcs| == |y'.bills| == |y'.log.procs| == |y.log.procs|
      && ProcRight(y'.log.procs[a.p], y'.w.pcs[a.p], y'.bills[a.p])
      && forall q :: 0 <= q < |y.log.procs| && q != a.p ==> y'.log.procs[q] == y.log.procs[q]
  {
    hide LogTheorems.Inv, Writers.Inv, InOrder, BillRight, LogMachine.Recovered, SnapRight, Logs.HomeOf;
    hide LogMachine.Cached, Budget, Attach, Finished;
    assert ProcRight(y.log.procs[a.p], y.w.pcs[a.p], y.bills[a.p]);
    LogWell(y.log);
    if Writers.Logs(y.w, a).Some? {
      LogsAllowed(site, y, a);
      WithinBudget(y.w, a, y.bills[a.p]);
    }
  }

  /** The cache follows the log. */
  lemma DoDisk(site: Site, y: Sys, a: Writers.Action)
    requires Right(site, y) && Enabled(y, Do(a))
    ensures var y' := Next(site, y, Do(a)); OnDisk(site, y') && LogTheorems.Inv(y'.log)
  {
    hide LogTheorems.Inv, Writers.Inv, InOrder, LogMachine.Recovered, SnapRight, Logs.HomeOf, LogMachine.Cached, Procs;
    hide Attach, Finished;
    var y', w := Next(site, y, Do(a)), Writers.Logs(y.w, a);
    LogTheorems.InProgress(y.log, a.p);
    LogWell(y.log);
    if w.Some? {
      var la := LogMachine.LogWrite(a.p, w.value.b, w.value.v);
      LogsAllowed(site, y, a);
      LogKeeps(y.log, la);
      CachedWrite(y.log, la, y'.log);
      HomeKeys(site, y, w.value.b);
      HomeStore(y.w.blocks, site.start, w.value.b, w.value.v);
    }
    CacheAfter(y.w, a);
  }

  lemma CacheAfter(s: Writers.State, a: Writers.Action)
    requires Writers.Inv(s) && Writers.Enabled(s, a)
    ensures var w, s' := Writers.Logs(s, a), Writers.Next(s, a);
      && (w.None? ==> s'.blocks == s.blocks)
      && (w.Some? ==> w.value.b < |s.blocks| && s'.blocks == s.blocks[w.value.b := w.value.v])
      && s'.fs.lay == s.fs.lay && s.done <= s'.done
  {
    hide Writers.Inv, Moves;
    CacheSize(s);
    NextMoves(s, a);
    MovesShape(s.fs, Writers.Next(s, a).fs, FileOf(s, a));
    hide Attach, Finished;
  }

  lemma DoKeeps(site: Site, y: Sys, a: Writers.Action)
    requires Right(site, y) && Enabled(y, Do(a))
    ensures Right(site, Next(site, y, Do(a)))
  {
    hide LogTheorems.Inv, Writers.Inv, InOrder, SnapRight, Procs, OnDisk;
    NextKeeps(y.w, a);
    NextInOrder(site.base, y.w, a);
    DoProcs(site, y, a);
    DoDisk(site, y, a);
    CacheAfter(y.w, a);
  }

  /** At rest, the file system is one that may be recovered. */
  lemma RestSnap(site: Site, w: Writers.State)
    requires Writers.Inv(w) && InOrder(site.base, w) && AtRest(w) && w.fs.lay == site.lay
    requires site.start + LogMachine.LOGBLOCKS < site.lay.inodestart
    ensures SnapRight(site, Snap(w.fs, w.done)) && w.blocks == w.fs.blocks
  {
    hide Writers.Inv, InOrder, Good, Content, Effect, Stored;
    Rests(site.base, w);
  }

  lemma LastEnds(s: LogMachine.State, p: nat)
    requires LogTheorems.Inv(s) && LogMachine.Enabled(s, LogMachine.End(p))
    ensures LogMachine.WellFormed(s) && s.outstanding >= 1 && s.phase.Idle?
    ensures var s' := LogMachine.Next(s, LogMachine.End(p));
      && LogMachine.Cached(s') == LogMachine.Cached(s) && !Recovering(s')
      && s'.procs == s.procs[p := LogMachine.Outside]
      && (LogTheorems.Committing(s'.phase) <==> s.outstanding == 1)
      && (s.outstanding == 1 ==> forall q :: 0 <= q < |s'.procs| ==> s'.procs[q].Outside?)
  {
    hide LogTheorems.Inv;
    LogTheorems.InProgress(s, p);
    LogTheorems.StepKeeps(s, LogMachine.End(p));
    LogWell(s);
    AllAway(LogMachine.Next(s, LogMachine.End(p)));
  }

  lemma AllAway(s: LogMachine.State)
    requires LogTheorems.Inv(s)
    ensures !s.phase.Idle? ==> forall q :: 0 <= q < |s.procs| ==> s.procs[q].Outside?
  {
  }

  lemma EndKeeps(site: Site, y: Sys, p: nat)
    requires Right(site, y) && Enabled(y, End(p))
    ensures Right(site, Next(site, y, End(p)))
  {
    hide LogTheorems.Inv, Writers.Inv, InOrder, BillRight, LogMachine.Recovered, SnapRight, Logs.HomeOf;
    hide LogMachine.WellFormed;
    hide LogMachine.Cached, LogMachine.Next;
    var y' := Next(site, y, End(p));
    LogKeeps(y.log, LogMachine.End(p));
    LastEnds(y.log, p);
    forall q | 0 <= q < |y'.bills| ensures ProcRight(y'.log.procs[q], y'.w.pcs[q], y'.bills[q]) {
      assert ProcRight(y.log.procs[q], y.w.pcs[q], y.bills[q]);
    }
    if y.log.outstanding == 1 {
      forall q | 0 <= q < |y.w.pcs| ensures y.w.pcs[q].Away? {
        assert ProcRight(y'.log.procs[q], y'.w.pcs[q], y'.bills[q]);
      }
      RestSnap(site, y.w);
    }
  }

  lemma TickLog(s: LogMachine.State, held: nat)
    requires LogTheorems.Inv(s) && LogMachine.Enabled(s, LogMachine.Tick(held))
    ensures LogMachine.WellFormed(s) && (LogTheorems.Committing(s.phase) || Recovering(s))
    ensures var s' := LogMachine.Next(s, LogMachine.Tick(held));
      && s'.procs == s.procs && LogMachine.ValidDisk(s'.disk)
      && (LogTheorems.Committing(s.phase) ==>
            (s'.phase.Idle? || LogTheorems.Committing(s'.phase)) && LogMachine.Cached(s') == LogMachine.Cached(s))
      && (Recovering(s) ==>
            Recovering(s') || (s'.phase.Idle? && LogMachine.Cached(s') == LogMachine.Recovered(s'.disk)))
  {
    hide LogTheorems.Inv, LogMachine.Recovered, LogMachine.Cached;
    LogWell(s);
    var s' := LogMachine.Next(s, LogMachine.Tick(held));
    LogKeeps(s, LogMachine.Tick(held));
    if LogTheorems.Committing(s.phase) {
      TickStays(s, held);
      WholeHistory(s);
      WholeHistory(s');
    } else if s'.phase.Idle? {
      IdleHome(s');
    }
  }

  lemma TickKeeps(site: Site, y: Sys, held: nat)
    requires Right(site, y) && Enabled(y, Tick(held))
    ensures Right(site, Next(site, y, Tick(held)))
  {
    hide LogTheorems.Inv, Writers.Inv, InOrder, BillRight, LogMachine.Recovered, SnapRight, Logs.HomeOf;
    hide LogMachine.WellFormed;
    hide LogMachine.Cached, LogMachine.Next;
    LogKeeps(y.log, LogMachine.Tick(held));
    TickLog(y.log, held);
  }

  lemma RestingRight(site: Site, x: Snap, procs: nat)
    requires SnapRight(site, x)
    ensures Writers.Inv(Resting(x, procs)) && InOrder(site.base, Resting(x, procs))
  {
    hide Writers.Inv, Content, Good, Stored, Effect;
    RestInv(x.fs, FilesOf(x.fs), procs, x.done);
  }

  lemma CrashKeeps(site: Site, y: Sys)
    requires Right(site, y)
    ensures Right(site, Next(site, y, Crash))
  {
    hide LogTheorems.Inv, Writers.Inv, InOrder, LogMachine.Recovered, Logs.HomeOf, LogMachine.WellFormed;
    hide LogMachine.Cached, Good, Content, Effect;
    var x := y.snaps[y.mark];
    LogKeeps(y.log, LogMachine.Crash);
    assert SnapRight(site, x);
    RestingRight(site, x, |y.w.pcs|);
    FitsShape(x.fs, site.lay, site.start);
  }

  // ---------------------------------------------------------------- runs

  ghost predicate Init(site: Site, y: Sys) {
    && LogTheorems.Init(y.log) && |y.snaps| == 1 && y.mark == 0 && |y.bills| == |y.log.procs|
    && SnapRight(site, y.snaps[0]) && y.snaps[0].done == [] && y.w == Resting(y.snaps[0], |y.log.procs|)
    && LogMachine.Recovered(y.log.disk) == Logs.HomeOf(y.snaps[0].fs.blocks, site.start)
  }

  ghost predicate StepsTo(site: Site, y: Sys, m: Move, y': Sys) {
    Right(site, y) && Enabled(y, m) && y' == Next(site, y, m)
  }

  ghost predicate IsRun(site: Site, ys: seq<Sys>, moves: seq<Move>) {
    && |ys| == |moves| + 1 && Init(site, ys[0])
    && forall i :: 0 <= i < |moves| ==> StepsTo(site, ys[i], moves[i], ys[i + 1])
  }

  lemma InitRight(site: Site, y: Sys)
    requires Init(site, y)
    ensures Right(site, y)
  {
    hide LogTheorems.Inv, Writers.Inv, InOrder, LogMachine.Recovered, Logs.HomeOf, LogMachine.Cached, Good, Content;
    hide Effect;
    var x := y.snaps[0];
    LogTheorems.InitInv(y.log);
    RestingRight(site, x, |y.log.procs|);
    FitsShape(x.fs, site.lay, site.start);
  }

  /** Next is defined on right states only, but a move leads from a right state to a right state, so
      that a run is stopped by nothing but a move that is not enabled. */
  lemma {:induction false} RunRight(site: Site, ys: seq<Sys>, moves: seq<Move>, i: nat)
    requires IsRun(site, ys, moves) && i < |ys|
    ensures Right(site, ys[i])
  {
    hide Right, Enabled, Next, Init;
    if i == 0 {
      InitRight(site, ys[0]);
    } else {
      assert StepsTo(site, ys[i - 1], moves[i - 1], ys[i]);
      MoveKeeps(site, ys[i - 1], moves[i - 1]);
    }
  }

  lemma MoveKeeps(site: Site, y: Sys, m: Move)
    requires Right(site, y) && Enabled(y, m)
    ensures Right(site, Next(site, y, m))
  {
    hide Right, Enabled, Next;
    match m
    case Begin(p) => BeginKeeps(site, y, p);
    case Do(a) => DoKeeps(site, y, a);
    case End(p) => EndKeeps(site, y, p);
    case Tick(held) => TickKeeps(site, y, held);
    case Crash => CrashKeeps(site, y);
  }

  /** Whatever the order of the steps of the processes, and wherever they are when the machine stops,
      recovery leaves the blocks of a file system in which free map, pointers and inodes agree, and
      whose files have had exactly some of the calls written to them, one after the other: the first
      ones to return. */
  lemma InterleavedCrash(site: Site, ys: seq<Sys>, moves: seq<Move>, i: nat, blocks: seq<Block>)
    requires IsRun(site, ys, moves) && i < |ys| && |blocks| == site.lay.size && LogMachine.ValidDisk(ys[i].log.disk)
    requires Logs.HomeOf(blocks, site.start) == LogMachine.Recovered(ys[i].log.disk)
    ensures ys[i].mark < |ys[i].snaps| && var x := ys[i].snaps[ys[i].mark];
      && x.done <= ys[i].w.done && ValidLayout(site.lay) && (forall n :: n in x.fs.inodes ==> n < site.lay.ninodes)
      && Loaded(site.lay, blocks, x.fs.inodes.Keys) == x.fs.inodes
      && var fs := Fs(site.lay, blocks, x.fs.inodes, x.fs.owner);
         Sound(fs) && forall n :: n in fs.inodes ==> Content(fs, n) == Effect(site.base, x.done, n)
  {
    hide LogTheorems.Inv, Writers.Inv, InOrder, LogMachine.Recovered, Logs.HomeOf, LogMachine.Cached, Good, Content;
    hide Effect;
    hide IsRun, Procs, Sound, InodeAt, LogMachine.ValidDisk;
    RunRight(site, ys, moves, i);
    var x := ys[i].snaps[ys[i].mark];
    assert SnapRight(site, x);
    FitsShape(x.fs, site.lay, site.start);
    forall n | n in x.fs.inodes ensures InodeAt(blocks[IBlock(site.lay, n)], n) == x.fs.inodes[n] {
      LoadedInode(x.fs, blocks, site.start, site.lay, n, IBlock(site.lay, n));
    }
    SameSoundNow(x.fs, Fs(site.lay, blocks, x.fs.inodes, x.fs.owner), site.lay, site.start);
  }

  /** When no operation is open and no commit under way, the disk has every call that has returned. */
  lemma NothingLost(site: Site, ys: seq<Sys>, moves: seq<Move>, i: nat)
    requires IsRun(site, ys, moves) && i < |ys| && ys[i].log.phase.Idle? && ys[i].log.outstanding == 0
    ensures var y := ys[i];
      && AtRest(y.w) && LogMachine.ValidDisk(y.log.disk)
      && LogMachine.Recovered(y.log.disk) == y.log.disk.home == Logs.HomeOf(y.w.fs.blocks, site.start)
      && SnapRight(site, Snap(y.w.fs, y.w.done))
  {
    hide LogTheorems.Inv, Writers.Inv, InOrder, LogMachine.Recovered, Logs.HomeOf, LogMachine.Cached, SnapRight;
    hide BillRight;
    hide IsRun;
    RunRight(site, ys, moves, i);
    var y := ys[i];
    forall p | 0 <= p < |y.w.pcs| ensures y.w.pcs[p].Away? {
      AllOutside(y.log, p);
      assert ProcRight(y.log.procs[p], y.w.pcs[p], y.bills[p]);
    }
    NoneOpen(y.log);
    IdleHome(y.log);
    RestSnap(site, y.w);
  }

  lemma NoneOpen(s: LogMachine.State)
    requires LogTheorems.Inv(s) && s.phase.Idle? && s.outstanding == 0
    ensures s.lh == []
  {
  }

  /** No call is stopped for having logged too much: with its inode locked and its operation open, the
      only thing that can keep a call from its next step is a log_write that finds the log full. */
  lemma OnlyFullLogStops(site: Site, ys: seq<Sys>, moves: seq<Move>, i: nat, a: Writers.Action)
    requires IsRun(site, ys, moves) && i < |ys| && Writers.Inv(ys[i].w) && Writers.Enabled(ys[i].w, a) && !a.Start?
    ensures Enabled(ys[i], Do(a)) <==> !(Writers.Logs(ys[i].w, a).Some? && |ys[i].log.lh| >= LogMachine.LOGBLOCKS)
  {
    hide LogTheorems.Inv, Writers.Inv, InOrder, LogMachine.Recovered, Logs.HomeOf, LogMachine.Cached, SnapRight;
    hide BillRight;
    hide IsRun;
    RunRight(site, ys, moves, i);
    var y := ys[i];
    assert ProcRight(y.log.procs[a.p], y.w.pcs[a.p], y.bills[a.p]);
    LogTheorems.InProgress(y.log, a.p);
  }
}
