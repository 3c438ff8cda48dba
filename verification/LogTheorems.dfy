/** Crash atomicity, group commit and log space for every run of the log machine. */
module LogTheorems {
  import opened Blocks
  import opened LogMachine
  import opened Sets

  // ---------------------------------------------------------------- sums over processes

  function Sum(ps: seq<Proc>, f: Proc -> int): int {
    if ps == [] then 0 else f(ps[0]) + Sum(ps[1..], f)
  }

  lemma {:induction false} SumUpdate(ps: seq<Proc>, p: nat, q: Proc, f: Proc -> int)
    requires p < |ps|
    ensures Sum(ps[p := q], f) == Sum(ps, f) - f(ps[p]) + f(q)
  {
    if p == 0 {
      assert ps[p := q][1..] == ps[1..];
    } else {
      assert ps[p := q][1..] == ps[1..][p - 1 := q];
      SumUpdate(ps[1..], p - 1, q, f);
    }
  }

  const IS_INSIDE: Proc -> int := (q: Proc) => if q.Inside? then 1 else 0

  /** Blocks the operation may still log. */
  const ALLOWANCE: Proc -> int := (q: Proc) => if q.Inside? then MAXOPBLOCKS - |q.blocks| else 0

  lemma {:induction false} SumOutside(ps: seq<Proc>)
    requires forall p :: 0 <= p < |ps| ==> ps[p].Outside?
    ensures Sum(ps, IS_INSIDE) == 0 && Sum(ps, ALLOWANCE) == 0
  {
    if ps != [] {
      SumOutside(ps[1..]);
    }
  }

  lemma {:induction false} SumBounds(ps: seq<Proc>)
    requires forall p :: 0 <= p < |ps| && ps[p].Inside? ==> |ps[p].blocks| <= MAXOPBLOCKS
    ensures 0 <= Sum(ps, IS_INSIDE)
    ensures 0 <= Sum(ps, ALLOWANCE) <= MAXOPBLOCKS * Sum(ps, IS_INSIDE)
    ensures forall p :: 0 <= p < |ps| && ps[p].Inside? ==>
      1 <= Sum(ps, IS_INSIDE) && MAXOPBLOCKS - |ps[p].blocks| <= Sum(ps, ALLOWANCE)
  {
    if ps != [] {
      SumBounds(ps[1..]);
      forall p | 0 <= p < |ps| && ps[p].Inside?
        ensures 1 <= Sum(ps, IS_INSIDE) && MAXOPBLOCKS - |ps[p].blocks| <= Sum(ps, ALLOWANCE)
      {
        if p > 0 {
          assert ps[1..][p - 1] == ps[p];
        }
      }
    }
  }

  // ---------------------------------------------------------------- the invariant

  ghost predicate Committing(ph: Phase) {
    ph.Logging? || ph.Installing? || ph.Finishing?
  }

  /** `outstanding` counts the operations in progress, and nobody commits or recovers while
      there is one. */
  ghost predicate Control(s: State) {
    && s.outstanding == Sum(s.procs, IS_INSIDE)
    && s.committing == Committing(s.phase)
    && (!s.phase.Idle? ==> forall p :: 0 <= p < |s.procs| ==> s.procs[p].Outside?)
    && (s.phase.Idle? && s.outstanding == 0 ==> s.lh == [])
  }

  /** Every operation's unused allowance still fits in the log. */
  ghost predicate Space(s: State) {
    && (forall p :: 0 <= p < |s.procs| && s.procs[p].Inside? ==> |s.procs[p].blocks| <= MAXOPBLOCKS)
    && (forall p, b :: 0 <= p < |s.procs| && s.procs[p].Inside? && b in s.procs[p].blocks ==> b in s.lh)
    && |s.lh| + Sum(s.procs, ALLOWANCE) <= LOGBLOCKS
  }

  /** Operation numbers are fresh, and no operation straddles the commit point. */
  ghost predicate Ops(s: State) {
    && (forall i :: 0 <= i < |s.hist| ==> s.hist[i].op < s.nextOp && s.hist[i].block in s.disk.home)
    && (forall p :: 0 <= p < |s.procs| && s.procs[p].Inside? ==> s.procs[p].op < s.nextOp)
    && (forall i, j :: 0 <= i < s.durable <= j < |s.hist| ==> s.hist[i].op != s.hist[j].op)
    && (forall i, p :: 0 <= i < s.durable && i < |s.hist| && 0 <= p < |s.procs| && s.procs[p].Inside? ==>
          s.hist[i].op != s.procs[p].op)
  }

  /** What recovery would restore is the history up to the commit point. */
  ghost predicate DiskHolds(s: State)
    requires WellFormed(s)
  {
    Recovered(s.disk) == Applied(s.base, s.hist[..s.durable])
  }

  /** What bread returns is the whole history, and only logged blocks are pinned. */
  ghost predicate CacheHolds(s: State)
    requires WellFormed(s)
  {
    && (forall b :: b in s.pinned ==> b in s.lh)
    && (!s.phase.Booting? && !s.phase.Replaying? ==>
          Cached(s) == Applied(s.base, s.hist))
  }

  ghost predicate PhaseHolds(s: State)
    requires WellFormed(s)
  {
    match s.phase
    case Idle => s.disk.head == [] && (s.lh == [] ==> s.durable == |s.hist|)
    case Logging(t) => s.disk.head == [] && forall i :: 0 <= i < t ==> s.disk.log[i] == Cached(s)[s.lh[i]]
    case Installing(t) =>
      && s.disk.head == s.lh && s.durable == |s.hist|
      && forall i :: 0 <= i < t ==> s.disk.home[s.lh[i]] == s.disk.log[i] && s.lh[i] !in s.pinned
    case Finishing => s.disk.head == [] && s.lh == [] && s.durable == |s.hist|
    case Booting => s.durable == |s.hist| && s.lh == [] && s.pinned == map[]
    case Replaying(t) =>
      && s.disk.head == s.lh && s.durable == |s.hist| && s.pinned == map[]
      && forall i :: 0 <= i < t ==> s.disk.home[s.lh[i]] == s.disk.log[i]
  }

  ghost predicate Storage(s: State) {
    WellFormed(s) && DiskHolds(s) && CacheHolds(s) && PhaseHolds(s)
  }

  /** Exactly the logged blocks are pinned, but for those copied home; commit has got past its first
      block only if a buffer was left. */
  ghost predicate Pins(s: State) {
    && (s.phase.Idle? || s.phase.Logging? ==> forall b :: b in s.lh ==> b in s.pinned)
    && (s.phase.Installing? ==> forall i :: s.phase.t <= i < |s.lh| ==> s.lh[i] in s.pinned)
    && ((s.phase.Logging? && s.phase.t > 0) || s.phase.Installing? ==> |s.lh| < NBUF)
  }

  ghost predicate Inv(s: State) {
    WellFormed(s) && Control(s) && Space(s) && Ops(s) && Storage(s) && Pins(s)
  }

  /** A machine at boot: any disk whose header is well formed, holding whatever recovery
      would make of it. */
  ghost predicate Init(s: State) {
    && WellFormed(s)
    && s.phase.Booting? && s.lh == [] && s.pinned == map[] && s.hist == [] && s.durable == 0
    && s.outstanding == 0 && !s.committing
    && (forall p :: 0 <= p < |s.procs| ==> s.procs[p].Outside?)
    && s.base == Recovered(s.disk)
  }

  lemma InitInv(s: State)
    requires Init(s)
    ensures Inv(s)
  {
    SumOutside(s.procs);
    assert s.hist[..0] == [];
  }

  // ---------------------------------------------------------------- every step keeps the invariant

  lemma BeginKeeps(s: State, p: nat)
    requires Inv(s) && Enabled(s, Begin(p))
    ensures Inv(Next(s, Begin(p)))
  {
    var s' := Next(s, Begin(p));
    SumBounds(s.procs);
    SumUpdate(s.procs, p, s'.procs[p], IS_INSIDE);
    SumUpdate(s.procs, p, s'.procs[p], ALLOWANCE);
  }

  lemma EndControl(s: State, p: nat)
    requires Inv(s) && Enabled(s, End(p))
    ensures Control(Next(s, End(p))) && Space(Next(s, End(p)))
  {
    var s' := Next(s, End(p));
    InProgress(s, p);
    hide Storage, Ops, Sum;
    SumBounds(s.procs);
    SumUpdate(s.procs, p, Outside, IS_INSIDE);
    SumUpdate(s.procs, p, Outside, ALLOWANCE);
    SumBounds(s'.procs);
  }

  lemma EndKeeps(s: State, p: nat)
    requires Inv(s) && Enabled(s, End(p))
    ensures Inv(Next(s, End(p)))
  {
    EndControl(s, p);
    InProgress(s, p);
    hide Control, Space, Sum, Recovered, Applied;
  }

  /** One more block for operation p. */
  function Logged(q: Proc, b: nat): Proc
    requires q.Inside?
  {
    q.(blocks := q.blocks + {b})
  }

  lemma LogWriteControl(s: State, p: nat, b: nat, v: Block)
    requires Inv(s) && Enabled(s, LogWrite(p, b, v))
    ensures Control(Next(s, LogWrite(p, b, v))) && Ops(Next(s, LogWrite(p, b, v)))
  {
    hide Sum, Storage, Space;
    SumUpdate(s.procs, p, Logged(s.procs[p], b), IS_INSIDE);
    InProgress(s, p);
  }

  lemma InProgress(s: State, p: nat)
    requires Inv(s) && p < |s.procs| && s.procs[p].Inside?
    ensures s.phase.Idle? && s.outstanding > 0
  {
    SumBounds(s.procs);
  }

  lemma LogWriteSpace(s: State, p: nat, b: nat, v: Block)
    requires Inv(s) && Enabled(s, LogWrite(p, b, v))
    ensures Space(Next(s, LogWrite(p, b, v)))
  {
    hide Sum, Storage, Control, Ops;
    var q := s.procs[p];
    SumUpdate(s.procs, p, Logged(q, b), ALLOWANCE);
    assert b in q.blocks ==> b in s.lh;
    assert |q.blocks + {b}| == |q.blocks| + if b in q.blocks then 0 else 1 by {
      if b in q.blocks { assert q.blocks + {b} == q.blocks; }
    }
  }

  lemma LogWriteStorage(s: State, p: nat, b: nat, v: Block)
    requires Inv(s) && Enabled(s, LogWrite(p, b, v))
    ensures Storage(Next(s, LogWrite(p, b, v)))
  {
    InProgress(s, p);
    hide Sum, Space, Ops, Control, Recovered, Applied, Cached, Pins;
    LogWriteCached(s, b, v, s.procs[p].op);
    LogWriteListed(s, b);
    hide ValidDisk, HomeList;
  }

  lemma LogWriteListed(s: State, b: nat)
    requires HomeList(s.disk.home, s.lh) && |s.lh| < LOGBLOCKS && b in s.disk.home
    ensures HomeList(s.disk.home, LogAppend(s.lh, b))
  {
  }

  /** One more write, in the cache and in the history. */
  lemma LogWriteCached(s: State, b: nat, v: Block, op: nat)
    requires WellFormed(s) && b in s.disk.home && !s.phase.Booting? && !s.phase.Replaying?
    requires CacheHolds(s) && s.durable <= |s.hist|
    ensures var s' := s.(lh := LogAppend(s.lh, b), pinned := s.pinned[b := v], hist := s.hist + [Write(op, b, v)]);
      Cached(s') == Applied(s'.base, s'.hist) && s'.hist[..s.durable] == s.hist[..s.durable]
  {
    var s' := s.(lh := LogAppend(s.lh, b), pinned := s.pinned[b := v], hist := s.hist + [Write(op, b, v)]);
    assert s'.hist[..|s.hist|] == s.hist;
    assert Cached(s') == Cached(s)[b := v];
  }

  lemma CrashKeeps(s: State)
    requires Inv(s)
    ensures Inv(Next(s, Crash))
  {
    var s' := Next(s, Crash);
    SumOutside(s'.procs);
    assert s'.hist[..s'.durable] == s.hist[..s.durable];
  }

  // ---------------------------------------------------------------- replaying

  /** Replay keeps the other blocks. */
  lemma {:induction false} ReplayFrame(home: Contents, bs: seq<nat>, log: seq<Block>, k: nat, b: nat, v: Block)
    requires k <= |bs| <= |log|
    ensures Replay(home[b := v], bs, log, k)[b := v] == Replay(home, bs, log, k)[b := v]
  {
    if k > 0 {
      ReplayFrame(home, bs, log, k - 1, b, v);
      var r: Contents := Replay(home, bs, log, k - 1);
      var r': Contents := Replay(home[b := v], bs, log, k - 1);
      var c, w := bs[k - 1], log[k - 1];
      assert r'[b := v][c := w][b := v] == r'[c := w][b := v];
      assert r[b := v][c := w][b := v] == r[c := w][b := v];
    }
  }

  /** Copying a logged block home does not change what replaying the log gives. */
  lemma {:induction false} ReplayAbsorbs(home: Contents, bs: seq<nat>, log: seq<Block>, k: nat, t: nat)
    requires t < k <= |bs| <= |log|
    ensures Replay(home[bs[t] := log[t]], bs, log, k) == Replay(home, bs, log, k)
  {
    if t == k - 1 {
      ReplayFrame(home, bs, log, t, bs[t], log[t]);
    } else {
      ReplayAbsorbs(home, bs, log, k - 1, t);
    }
  }

  /** With distinct block numbers, replaying leaves each logged block in its home. */
  lemma {:induction false} ReplayAt(home: Contents, bs: seq<nat>, log: seq<Block>, k: nat, t: nat)
    requires t < k <= |bs| <= |log| && Distinct(bs)
    ensures bs[t] in Replay(home, bs, log, k) && Replay(home, bs, log, k)[bs[t]] == log[t]
  {
    if t < k - 1 {
      ReplayAt(home, bs, log, k - 1, t);
    }
  }

  /** When every logged block is the one `c` gives, replaying overwrites exactly those. */
  lemma {:induction false} ReplayValues(home: Contents, bs: seq<nat>, log: seq<Block>, k: nat, c: Contents)
    requires k <= |bs| <= |log| && home.Keys <= c.Keys
    requires forall i :: 0 <= i < k ==> bs[i] in home && log[i] == c[bs[i]]
    ensures Replay(home, bs, log, k).Keys == home.Keys
    ensures forall b :: b in home ==> Replay(home, bs, log, k)[b] == if b in bs[..k] then c[b] else home[b]
  {
    if k > 0 {
      ReplayValues(home, bs, log, k - 1, c);
      assert bs[..k] == bs[..k - 1] + [bs[k - 1]];
    }
  }

  lemma LoggingKeeps(s: State)
    requires Storage(s) && s.phase.Logging? && s.phase.t < |s.lh|
    ensures Storage(Advance(s))
  {
  }

  /** Once every logged block is copied, replaying the log gives what bread returns. */
  lemma LoggedIsCached(s: State)
    requires WellFormed(s) && CacheHolds(s) && PhaseHolds(s) && s.phase == Logging(|s.lh|)
    ensures Replay(s.disk.home, s.lh, s.disk.log, |s.lh|) == Cached(s)
  {
    hide Applied;
    assert Cached(s).Keys == s.disk.home.Keys;
    ReplayValues(s.disk.home, s.lh, s.disk.log, |s.lh|, Cached(s));
    assert s.lh[..|s.lh|] == s.lh;
  }

  lemma CommitKeeps(s: State)
    requires Storage(s) && s.phase == Logging(|s.lh|)
    ensures Storage(Advance(s))
    ensures Recovered(Advance(s).disk) == Applied(s.base, s.hist) == Cached(s)
  {
    hide Replay, Applied;
    LoggedIsCached(s);
    assert s.hist[..|s.hist|] == s.hist;
  }

  /** Copying logged block t home changes nothing that recovery would restore. */
  lemma InstallDisk(d: Disk, t: nat)
    requires ValidDisk(d) && t < |d.head|
    ensures ValidDisk(Install(d, d.head, t))
    ensures Recovered(Install(d, d.head, t)) == Recovered(d)
    ensures d.head[t] in Recovered(d) && Recovered(d)[d.head[t]] == d.log[t]
    ensures Install(d, d.head, t).home.Keys == d.home.Keys
  {
    ReplayAbsorbs(d.home, d.head, d.log, |d.head|, t);
    ReplayAt(d.home, d.head, d.log, |d.head|, t);
  }

  lemma InstallKeeps(s: State)
    requires Storage(s) && s.phase.Installing? && s.phase.t < |s.lh|
    ensures Storage(Advance(s))
  {
    hide Recovered, Applied;
    InstallDisk(s.disk, s.phase.t);
    assert s.hist[..|s.hist|] == s.hist;
    assert Cached(Advance(s)) == Cached(s);
  }

  lemma ReplayKeeps(s: State)
    requires Storage(s) && s.phase.Replaying? && s.phase.t < |s.lh|
    ensures Storage(Advance(s))
  {
    InstallDisk(s.disk, s.phase.t);
  }

  /** Emptying the header once every logged block is home. */
  lemma ClearDisk(d: Disk)
    requires ValidDisk(d)
    requires forall i :: 0 <= i < |d.head| ==> d.home[d.head[i]] == d.log[i]
    ensures ValidDisk(d.(head := [])) && Recovered(d.(head := [])) == Recovered(d) == d.home
  {
    ReplayValues(d.home, d.head, d.log, |d.head|, d.home);
  }

  lemma ClearKeeps(s: State)
    requires Storage(s) && (s.phase.Installing? || s.phase.Replaying?) && s.phase.t == |s.lh|
    ensures Storage(Advance(s))
  {
    ClearDisk(s.disk);
    assert s.hist[..|s.hist|] == s.hist;
    assert s.pinned == map[];
  }

  lemma TickStorage(s: State)
    requires Storage(s) && !s.phase.Idle?
    ensures Storage(Advance(s))
  {
    match s.phase {
      case Logging(t) => if t < |s.lh| { LoggingKeeps(s); } else { CommitKeeps(s); }
      case Installing(t) => if t < |s.lh| { InstallKeeps(s); } else { ClearKeeps(s); }
      case Replaying(t) => if t < |s.lh| { ReplayKeeps(s); } else { ClearKeeps(s); }
      case _ =>
    }
  }

  /** What commit and recovery leave alone. */
  lemma TickShape(s: State)
    requires WellFormed(s) && !s.phase.Idle?
    ensures var s' := Advance(s);
      && s'.procs == s.procs && s'.nextOp == s.nextOp && s'.hist == s.hist && s'.outstanding == s.outstanding
      && (s'.durable == s.durable || s'.durable == |s.hist|)
      && s'.disk.home.Keys == s.disk.home.Keys
      && s'.committing == (s.committing && !s.phase.Finishing?)
      && Committing(s'.phase) == (Committing(s.phase) && !s.phase.Finishing?)
  {
  }

  lemma TickBookkeeping(s: State, s': State)
    requires Control(s) && Space(s) && Ops(s) && !s.phase.Idle?
    requires s'.procs == s.procs && s'.nextOp == s.nextOp && s'.hist == s.hist && s'.outstanding == s.outstanding
    requires s'.durable == s.durable || s'.durable == |s.hist|
    requires s'.disk.home.Keys == s.disk.home.Keys && |s'.lh| <= LOGBLOCKS
    requires s'.committing == Committing(s'.phase) && (s'.phase.Idle? ==> s'.lh == [])
    ensures Control(s') && Space(s') && Ops(s')
  {
    SumOutside(s.procs);
  }

  lemma TickKeeps(s: State, held: nat)
    requires Inv(s) && Enabled(s, Tick(held))
    ensures Inv(Next(s, Tick(held)))
  {
    TickStorage(s);
    TickShape(s);
    TickPins(s, held);
    var s' := Advance(s);
    TickBookkeeping(s, s');
    assert Inv(s');
  }

  lemma TickPins(s: State, held: nat)
    requires WellFormed(s) && CacheHolds(s) && PhaseHolds(s) && Pins(s) && Enabled(s, Tick(held))
    ensures Pins(Advance(s))
  {
    hide Applied, Cached, Install, ValidDisk;
    if s.phase.Logging? {
      PinnedCount(s);
    }
  }

  /** As many buffers are pinned as blocks are logged. */
  lemma PinnedCount(s: State)
    requires WellFormed(s) && CacheHolds(s)
    ensures |s.pinned| <= |s.lh|
    ensures (forall b :: b in s.lh ==> b in s.pinned) ==> |s.pinned| == |s.lh|
  {
    hide Applied;
    SeqSize(s.lh);
    assert s.pinned.Keys <= Elements(s.lh);
    SubsetSize(s.pinned.Keys, Elements(s.lh));
    if forall b :: b in s.lh ==> b in s.pinned {
      assert s.pinned.Keys == Elements(s.lh);
    }
  }

  /** During installation, as many as have not been copied home. */
  lemma PinnedLeft(s: State)
    requires WellFormed(s) && CacheHolds(s) && PhaseHolds(s) && Pins(s) && s.phase.Installing?
    ensures |s.pinned| == |s.lh| - s.phase.t
  {
    hide Applied, Cached;
    SuffixSize(s.pinned.Keys, s.lh, s.phase.t);
  }

  lemma StepKeeps(s: State, a: Action)
    requires Inv(s) && Enabled(s, a)
    ensures Inv(Next(s, a))
  {
    match a {
      case Begin(p) => BeginKeeps(s, p);
      case LogWrite(p, b, v) => LogWriteControl(s, p, b, v); LogWriteSpace(s, p, b, v); LogWriteStorage(s, p, b, v);
      case End(p) => EndKeeps(s, p);
      case Tick(held) => TickKeeps(s, held);
      case Crash => CrashKeeps(s);
    }
  }

  // ---------------------------------------------------------------- runs

  /** A run: states and the actions between them. */
  ghost predicate IsRun(ss: seq<State>, acts: seq<Action>) {
    && |ss| == |acts| + 1
    && Init(ss[0])
    && forall i :: 0 <= i < |acts| ==> StepsTo(ss[i], acts[i], ss[i + 1])
  }

  ghost predicate StepsTo(s: State, a: Action, s': State) {
    WellFormed(s) && Enabled(s, a) && s' == Next(s, a)
  }

  lemma {:induction false} RunInv(ss: seq<State>, acts: seq<Action>, i: nat)
    requires IsRun(ss, acts) && i < |ss|
    ensures Inv(ss[i])
  {
    hide Inv, Init, Next, Enabled, WellFormed;
    if i == 0 {
      InitInv(ss[0]);
    } else {
      RunInv(ss, acts, i - 1);
      assert StepsTo(ss[i - 1], acts[i - 1], ss[i]);
      StepKeeps(ss[i - 1], acts[i - 1]);
    }
  }

  lemma StepAt(ss: seq<State>, acts: seq<Action>, i: nat)
    requires IsRun(ss, acts) && i < |acts|
    ensures Inv(ss[i]) && Enabled(ss[i], acts[i]) && Inv(ss[i + 1]) && ss[i + 1] == Next(ss[i], acts[i])
  {
    assert StepsTo(ss[i], acts[i], ss[i + 1]);
    RunInv(ss, acts, i);
    RunInv(ss, acts, i + 1);
  }

  // ---------------------------------------------------------------- crash atomicity

  /** Only commit's header write changes what a crash would leave behind. */
  lemma OnlyHeaderWriteCommits(s: State, a: Action)
    requires Inv(s) && Enabled(s, a)
    ensures Inv(Next(s, a))
    ensures !(a.Tick? && s.phase == Logging(|s.lh|)) ==> Recovered(Next(s, a).disk) == Recovered(s.disk)
    ensures a.Tick? && s.phase == Logging(|s.lh|) ==> Recovered(Next(s, a).disk) == Cached(s)
  {
    hide Inv, Recovered, Next, Enabled, Storage;
    StepKeeps(s, a);
    InvStorage(s);
    InvStorage(Next(s, a));
    if a.Tick? && s.phase == Logging(|s.lh|) {
      CommitAt(s, a.held);
      CommitKeeps(s);
    } else {
      StepDurable(s, a);
      SameRecovered(s, Next(s, a));
    }
  }

  lemma InvStorage(s: State)
    requires Inv(s)
    ensures Storage(s) && WellFormed(s)
  {
  }

  lemma CommitAt(s: State, held: nat)
    requires WellFormed(s) && Enabled(s, Tick(held))
    ensures !s.phase.Idle? && Next(s, Tick(held)) == Advance(s)
  {
  }

  /** No other step moves the commit point or the history before it. */
  lemma StepDurable(s: State, a: Action)
    requires WellFormed(s) && Enabled(s, a) && !(a.Tick? && s.phase == Logging(|s.lh|))
    ensures var s' := Next(s, a);
      s'.base == s.base && s'.durable <= |s'.hist| && s'.hist[..s'.durable] == s.hist[..s.durable]
  {
    hide ValidDisk, HomeList, Cached, Install, LogAppend, MayLog, Admits;
    assert s.hist[..s.durable][..s.durable] == s.hist[..s.durable];
    if a.LogWrite? {
      assert Next(s, a).hist[..s.durable] == s.hist[..s.durable];
    }
  }

  lemma SameRecovered(s: State, s': State)
    requires Storage(s) && Storage(s') && s'.base == s.base && s'.hist[..s'.durable] == s.hist[..s.durable]
    ensures Recovered(s'.disk) == Recovered(s.disk)
  {
    hide Recovered, Applied, CacheHolds, PhaseHolds, ValidDisk, HomeList;
  }

  /** What a crash and the recovery after it work towards: `goal` on the home blocks. */
  ghost predicate RecoveringTo(s: State, goal: Contents, done: seq<Write>) {
    && Inv(s)
    && (s.phase.Booting? || s.phase.Replaying? || s.phase.Idle?)
    && s.pinned == map[]
    && Recovered(s.disk) == goal
    && s.hist == done && s.durable == |s.hist|
  }

  lemma CrashStep(s: State)
    requires Inv(s)
    ensures RecoveringTo(Next(s, Crash), Recovered(s.disk), s.hist[..s.durable])
  {
    CrashKeeps(s);
  }

  lemma RecoveryStep(s: State, a: Action, goal: Contents, done: seq<Write>)
    requires RecoveringTo(s, goal, done) && Enabled(s, a) && (a.Crash? || a.Tick?)
    ensures RecoveringTo(Next(s, a), goal, done)
  {
    OnlyHeaderWriteCommits(s, a);
    if a.Crash? {
      assert s.hist[..s.durable] == s.hist;
    }
  }

  /** Recovery may itself crash any number of times: what it works towards stays the same. */
  lemma {:induction false} RecoveryKeeps(ss: seq<State>, acts: seq<Action>, k: nat, m: nat,
                                         goal: Contents, done: seq<Write>)
    requires IsRun(ss, acts) && k <= m < |ss|
    requires RecoveringTo(ss[k], goal, done)
    requires forall i :: k <= i < m ==> acts[i].Crash? || acts[i].Tick?
    ensures RecoveringTo(ss[m], goal, done)
  {
    hide Inv, RecoveringTo, Enabled, Next, WellFormed, Init;
    if k < m {
      RecoveryKeeps(ss, acts, k, m - 1, goal, done);
      StepAt(ss, acts, m - 1);
      RecoveryStep(ss[m - 1], acts[m - 1], goal, done);
    }
  }

  /** Crash atomicity.  Crash in any state of any run, crash again during recovery as often
      as you like; once recovery finishes, the home blocks hold exactly the committed part
      of the history, and the log is empty. */
  lemma CrashAtomicity(ss: seq<State>, acts: seq<Action>, k: nat, m: nat)
    requires IsRun(ss, acts) && k < m < |ss|
    requires acts[k].Crash? && forall i :: k < i < m ==> acts[i].Crash? || acts[i].Tick?
    requires ss[m].phase.Idle?
    ensures ss[k].durable <= |ss[k].hist|
    ensures ss[m].disk.home == Applied(ss[k].base, ss[k].hist[..ss[k].durable])
    ensures ss[m].disk.head == [] && Cached(ss[m]) == ss[m].disk.home
  {
    StepAt(ss, acts, k);
    CrashStep(ss[k]);
    RecoveryKeeps(ss, acts, k + 1, m, Recovered(ss[k].disk), ss[k].hist[..ss[k].durable]);
  }

  /** Steps left until commit or recovery is over. */
  function Remaining(s: State): nat {
    match s.phase
    case Idle => 0
    case Finishing => 1
    case Installing(t) => if t <= |s.lh| then |s.lh| - t + 2 else 0
    case Logging(t) => if t <= |s.lh| then 2 * |s.lh| - t + 3 else 0
    case Replaying(t) => if t <= |s.lh| then |s.lh| - t + 1 else 0
    case Booting => |s.disk.head| + 2
  }

  /** How many buffers are pinned at a step of commit. */
  function PinnedNow(s: State): int {
    if s.phase.Installing? then |s.lh| - s.phase.t else |s.lh|
  }

  /** Commit lacks a buffer exactly when the logged blocks, less those copied home, and the buffers
      others refer to are all there are.  While no one refers to any, that is only before its first
      block write, and exactly for NBUF logged blocks or more. */
  lemma CommitPanicsExactly(s: State, held: nat)
    requires Inv(s)
    ensures CommitPanics(s, held) <==> (s.phase.Logging? || s.phase.Installing?) && PinnedNow(s) + held >= NBUF
    ensures CommitPanics(s, 0) <==> s.phase == Logging(0) && |s.lh| >= NBUF
  {
    hide Control, Space, Ops, Recovered, Applied;
    PinnedCount(s);
    if s.phase.Installing? {
      PinnedLeft(s);
    }
  }

  /** In every state of every run, commit or recovery cannot go on exactly then. */
  lemma WantOfBuffer(ss: seq<State>, acts: seq<Action>, i: nat, held: nat)
    requires IsRun(ss, acts) && i < |ss| && !ss[i].phase.Idle?
    ensures !Enabled(ss[i], Tick(held)) <==>
            (ss[i].phase.Logging? || ss[i].phase.Installing?) && PinnedNow(ss[i]) + held >= NBUF
    ensures !Enabled(ss[i], Tick(0)) <==> ss[i].phase == Logging(0) && |ss[i].lh| >= NBUF
  {
    RunInv(ss, acts, i);
    CommitPanicsExactly(ss[i], held);
  }

  /** Commit and recovery, not interrupted by a crash, come one step nearer to their end with every
      step; while the logged blocks and the buffers others refer to leave one over, they can go on
      to it. */
  lemma CommitFinishes(s: State, held: nat)
    requires Inv(s) && !s.phase.Idle?
    ensures Enabled(s, Tick(held)) ==> Remaining(Next(s, Tick(held))) == Remaining(s) - 1
    ensures |s.lh| + held < NBUF || s.phase.Booting? || s.phase.Replaying? || s.phase.Finishing? ==>
      Enabled(s, Tick(held))
    ensures Enabled(s, Tick(0)) <==> !(s.phase == Logging(0) && |s.lh| >= NBUF)
    ensures Enabled(s, Tick(held)) && Remaining(s) > 1 ==>
      (|s.lh| + held < NBUF ==> Enabled(Next(s, Tick(held)), Tick(held))) && Enabled(Next(s, Tick(held)), Tick(0))
  {
    hide Inv, Next, Remaining;
    CommitPanicsExactly(s, held);
    if Enabled(s, Tick(held)) {
      TickKeeps(s, held);
      TickRemaining(s, held);
      CommitPanicsExactly(Next(s, Tick(held)), held);
    }
  }

  lemma TickRemaining(s: State, held: nat)
    requires Inv(s) && Enabled(s, Tick(held))
    ensures WellFormed(s) && Remaining(Next(s, Tick(held))) == Remaining(s) - 1
    ensures var s' := Next(s, Tick(held));
      && (s'.phase.Idle? <==> Remaining(s) == 1) && (s'.phase.Logging? ==> s'.phase.t > 0)
      && (s'.phase.Logging? || s'.phase.Installing? ==> s'.lh == s.lh)
  {
    hide Control, Space, Ops, DiskHolds, CacheHolds, Pins, Cached, Install;
  }

  // ---------------------------------------------------------------- group commit

  /** The committed writes `done` are still there, and no later write, nor any operation in
      progress, belongs to an operation that has a write among them. */
  ghost predicate Whole(done: seq<Write>, s: State) {
    && |done| <= s.durable <= |s.hist|
    && s.hist[..|done|] == done
    && (forall x, y :: 0 <= x < |done| <= y < |s.hist| ==> done[x].op != s.hist[y].op)
    && (forall x, p :: 0 <= x < |done| && 0 <= p < |s.procs| && s.procs[p].Inside? ==> done[x].op != s.procs[p].op)
  }

  lemma WholeKept(done: seq<Write>, s: State, a: Action)
    requires Inv(s) && Enabled(s, a) && Whole(done, s)
    ensures Whole(done, Next(s, a))
  {
    hide Storage, Control, Space;
    var s' := Next(s, a);
    match a {
      case Begin(p) => assert forall x :: 0 <= x < |done| ==> done[x] == s.hist[x];
      case LogWrite(p, b, v) =>
      case End(p) =>
      case Tick(_) => TickShape(s); assert s.durable <= s'.durable by { TickDurable(s); }
      case Crash =>
    }
  }

  lemma OpsWhole(s: State)
    requires WellFormed(s) && Ops(s)
    ensures Whole(s.hist[..s.durable], s)
  {
  }

  lemma TickDurable(s: State)
    requires WellFormed(s) && !s.phase.Idle?
    ensures s.durable <= Advance(s).durable <= |s.hist|
  {
  }

  /** What has committed by state i is still there, and whole, in every later state j. */
  lemma {:induction false} CommittedOperationsAreWhole(ss: seq<State>, acts: seq<Action>, i: nat, j: nat)
    requires IsRun(ss, acts) && i <= j < |ss|
    ensures ss[i].durable <= |ss[i].hist| && Whole(ss[i].hist[..ss[i].durable], ss[j])
  {
    hide Control, Space, Storage, Ops, ValidDisk, Enabled, Next, Init;
    RunInv(ss, acts, i);
    if i == j {
      OpsWhole(ss[i]);
    } else {
      CommittedOperationsAreWhole(ss, acts, i, j - 1);
      StepAt(ss, acts, j - 1);
      WholeKept(ss[i].hist[..ss[i].durable], ss[j - 1], acts[j - 1]);
    }
  }

  /** Nobody commits while an operation is in progress, end_op never panics, and once the
      last operation's commit is over everything logged is permanent and the log is free. */
  lemma GroupCommit(ss: seq<State>, acts: seq<Action>, i: nat)
    requires IsRun(ss, acts) && i < |ss|
    ensures ss[i].committing ==> ss[i].outstanding == 0
    ensures forall p :: 0 <= p < |ss[i].procs| && ss[i].procs[p].Inside? ==> !EndPanics(ss[i])
    ensures ss[i].phase.Idle? && ss[i].outstanding == 0 ==> ss[i].durable == |ss[i].hist| && Admits(ss[i])
  {
    RunInv(ss, acts, i);
    if ss[i].committing {
      SumOutside(ss[i].procs);
    }
  }

  // ---------------------------------------------------------------- log space

  /** A process that keeps to its budget finds room for every new block; the panic in
      log_write can only strike a block that is already in a full log. */
  lemma LogSpace(ss: seq<State>, acts: seq<Action>, i: nat, p: nat, b: nat)
    requires IsRun(ss, acts) && i < |ss| && MayLog(ss[i], p, b)
    ensures |ss[i].lh| <= LOGBLOCKS
    ensures LogWritePanics(ss[i]) <==> |ss[i].lh| == LOGBLOCKS
    ensures LogWritePanics(ss[i]) ==> b in ss[i].lh
  {
    RunInv(ss, acts, i);
    SumBounds(ss[i].procs);
  }

  // A full log is reachable, and then re-logging a block panics although no budget is exceeded.

  lemma ExtendRun(ss: seq<State>, acts: seq<Action>, a: Action, s': State)
    requires IsRun(ss, acts) && StepsTo(ss[|ss| - 1], a, s')
    ensures IsRun(ss + [s'], acts + [a])
  {
    hide StepsTo, Init;
    var ss', acts' := ss + [s'], acts + [a];
    forall i | 0 <= i < |acts'| ensures StepsTo(ss'[i], acts'[i], ss'[i + 1]) {
      if i < |acts| {
        assert StepsTo(ss[i], acts[i], ss[i + 1]);
      }
    }
  }

  function Zeros(n: nat): Contents {
    map b | b in Range(0, n) :: ZeroBlock()
  }

  /** The blocks among the first k that the p-th of three writers has logged. */
  function Share(p: nat, k: nat): set<nat> {
    Range(10 * p, if k < 10 * p + 10 then k else 10 * p + 10)
  }

  /** Three operations in progress that have logged blocks 0, 1, ..., k - 1 between them. */
  function Filling(k: nat): State {
    var home := Zeros(LOGBLOCKS);
    State(Disk([], seq(LOGBLOCKS, _ => ZeroBlock()), home), seq(k, i => i), Zeros(k),
          3, false, Idle, [Inside(0, Share(0, k)), Inside(1, Share(1, k)), Inside(2, Share(2, k))], 3, home,
          seq(k, i requires i >= 0 => Write(i / 10, i, ZeroBlock())), 0)
  }

  lemma FillingShares(k: nat)
    requires k < LOGBLOCKS
    ensures Filling(k + 1).procs == Filling(k).procs[k / 10 := Inside(k / 10, Share(k / 10, k) + {k})]
    ensures |Share(k / 10, k) + {k}| <= MAXOPBLOCKS
  {
    hide Range;
    var p := k / 10;
    assert Share(p, k) + {k} == Share(p, k + 1);
    assert p != 0 ==> Share(0, k + 1) == Share(0, k);
    assert p != 1 ==> Share(1, k + 1) == Share(1, k);
    assert p != 2 ==> Share(2, k + 1) == Share(2, k);
  }

  lemma FillingStep(k: nat)
    requires k < LOGBLOCKS
    ensures StepsTo(Filling(k), LogWrite(k / 10, k, ZeroBlock()), Filling(k + 1))
  {
    hide Range, Share, ZeroBlock;
    var s, s' := Filling(k), Filling(k + 1);
    FillingShares(k);
    assert s'.lh == s.lh + [k];
    assert s'.pinned == s.pinned[k := ZeroBlock()];
    assert s'.hist == s.hist + [Write(k / 10, k, ZeroBlock())];
  }

  lemma FillingStarts() returns (ss: seq<State>, acts: seq<Action>)
    ensures IsRun(ss, acts) && ss[|ss| - 1] == Filling(0)
  {
    var s := Filling(0);
    assert s.lh == [] && s.pinned == map[] && s.hist == [];
    assert Share(0, 0) == Share(1, 0) == Share(2, 0) == {};
    assert s.procs == [Inside(0, {}), Inside(1, {}), Inside(2, {})];
    hide Zeros, Share, Range, ZeroBlock;
    var boot := s.(phase := Booting, outstanding := 0, procs := [Outside, Outside, Outside], nextOp := 0);
    ss, acts := [boot], [];
    var s1 := boot.(phase := Replaying(0));
    ExtendRun(ss, acts, Tick(0), s1);
    ss, acts := ss + [s1], acts + [Tick(0)];
    var s2 := boot.(phase := Idle);
    ExtendRun(ss, acts, Tick(0), s2);
    ss, acts := ss + [s2], acts + [Tick(0)];
    var s3 := s2.(outstanding := 1, procs := [Inside(0, {}), Outside, Outside], nextOp := 1);
    ExtendRun(ss, acts, Begin(0), s3);
    ss, acts := ss + [s3], acts + [Begin(0)];
    var s4 := s2.(outstanding := 2, procs := [Inside(0, {}), Inside(1, {}), Outside], nextOp := 2);
    ExtendRun(ss, acts, Begin(1), s4);
    ss, acts := ss + [s4], acts + [Begin(1)];
    ExtendRun(ss, acts, Begin(2), s);
    ss, acts := ss + [s], acts + [Begin(2)];
  }

  lemma {:induction false} FillingIsReachable(k: nat) returns (ss: seq<State>, acts: seq<Action>)
    requires k <= LOGBLOCKS
    ensures IsRun(ss, acts) && ss[|ss| - 1] == Filling(k)
  {
    hide IsRun, StepsTo, Filling;
    if k == 0 {
      ss, acts := FillingStarts();
    } else {
      ss, acts := FillingIsReachable(k - 1);
      FillingStep(k - 1);
      ExtendRun(ss, acts, LogWrite((k - 1) / 10, k - 1, ZeroBlock()), Filling(k));
      ss, acts := ss + [Filling(k)], acts + [LogWrite((k - 1) / 10, k - 1, ZeroBlock())];
    }
  }

  /** Because log_write tests for a full log before it looks for the block, a process that
      writes one of its own blocks again can panic within its budget. */
  lemma AbsorbedWriteCanPanic() returns (ss: seq<State>, acts: seq<Action>)
    ensures IsRun(ss, acts)
    ensures MayLog(ss[|ss| - 1], 0, 0) && 0 in ss[|ss| - 1].lh && LogWritePanics(ss[|ss| - 1])
  {
    ss, acts := FillingIsReachable(LOGBLOCKS);
    assert Share(0, LOGBLOCKS) + {0} == Range(0, 10);
    assert Filling(LOGBLOCKS).lh[0] == 0;
  }

  /** The state of Filling(k) after the operations of the first n processes have ended. */
  function Ending(k: nat, n: nat): State
    requires n <= 3
  {
    var s := Filling(k);
    var procs := seq(3, i requires 0 <= i < 3 => if i < n then Outside else s.procs[i]);
    s.(outstanding := 3 - n, procs := procs, committing := n == 3, phase := if n == 3 then Logging(0) else Idle)
  }

  lemma EndingStep(k: nat, n: nat)
    requires n < 3 && 0 < k <= LOGBLOCKS
    ensures StepsTo(Ending(k, n), End(n), Ending(k, n + 1))
  {
    hide Range, Share, ZeroBlock, Zeros;
    var s, s' := Ending(k, n), Ending(k, n + 1);
    assert WellFormed(s) by { FillingWellFormed(k); }
    assert s'.procs == s.procs[n := Outside];
  }

  lemma FillingWellFormed(k: nat)
    requires k <= LOGBLOCKS
    ensures WellFormed(Filling(k))
  {
    hide ZeroBlock, Share, Range;
    var s := Filling(k);
    assert |s.disk.log| == LOGBLOCKS && s.disk.head == [] && |s.lh| == k;
    assert forall i :: 0 <= i < k ==> s.lh[i] == i && i in s.disk.home;
  }

  lemma {:induction false} EndingIsReachable(k: nat, n: nat) returns (ss: seq<State>, acts: seq<Action>)
    requires n <= 3 && 0 < k <= LOGBLOCKS
    ensures IsRun(ss, acts) && ss[|ss| - 1] == Ending(k, n)
  {
    hide IsRun, StepsTo, Filling, Ending;
    if n == 0 {
      ss, acts := FillingIsReachable(k);
      EndingStarts(k);
    } else {
      ss, acts := EndingIsReachable(k, n - 1);
      EndingStep(k, n - 1);
      ExtendRun(ss, acts, End(n - 1), Ending(k, n));
      ss, acts := ss + [Ending(k, n)], acts + [End(n - 1)];
    }
  }

  /** Three operations of MAXOPBLOCKS blocks each, and nothing else, take the commit to a state in
      which every buffer is pinned: it cannot go on. */
  lemma FullCommitPanics() returns (ss: seq<State>, acts: seq<Action>)
    ensures IsRun(ss, acts) && |ss[|ss| - 1].lh| == NBUF
    ensures CommitPanics(ss[|ss| - 1], 0) && !Enabled(ss[|ss| - 1], Tick(0))
  {
    hide IsRun, StepsTo, Filling, Ending;
    ss, acts := EndingIsReachable(LOGBLOCKS, 3);
    EndingCommits(LOGBLOCKS);
  }

  /** One block less, and the commit goes on or not as one reader refers to the last buffer or not;
      a reader that takes it after the first log block stops the commit there. */
  lemma ReaderCanStopCommit() returns (ss: seq<State>, acts: seq<Action>, s': State)
    ensures IsRun(ss, acts) && ss[|ss| - 1].phase == Logging(0) && |ss[|ss| - 1].lh| == NBUF - 1
    ensures !Enabled(ss[|ss| - 1], Tick(1)) && StepsTo(ss[|ss| - 1], Tick(0), s')
    ensures s'.phase == Logging(1) && |s'.lh| == NBUF - 1 && !Enabled(s', Tick(1))
  {
    hide Filling, Ending, Inv;
    ss, acts := EndingIsReachable(NBUF - 1, 3);
    var s := ss[|ss| - 1];
    EndingCommits(NBUF - 1);
    RunInv(ss, acts, |ss| - 1);
    CommitPanicsExactly(s, 0);
    InvStorage(s);
    s' := Next(s, Tick(0));
  }

  lemma EndingStarts(k: nat)
    ensures Ending(k, 0) == Filling(k)
  {
    hide Range, Zeros, ZeroBlock, Share;
    assert Ending(k, 0).procs == Filling(k).procs;
  }

  lemma EndingCommits(k: nat)
    ensures Ending(k, 3).phase == Logging(0) && |Ending(k, 3).lh| == |Ending(k, 3).pinned| == k
  {
    hide Range, ZeroBlock, Share;
    assert Zeros(k).Keys == Range(0, k);
  }
}
