/** sleep, wakeup, kexit, reparent, kwait and kwaitpid of kernel/proc.c and the mutex calls of
    kernel/sysproc.c, as steps of any number of processes that run at once.

    Each step is one acquire, one release, or one access to shared fields under the lock that
    guards them.  Taking a process's lock, looking at the process and letting go again is one
    step, possible only while no one holds that lock; sleep holds its own lock over several. */
module SleepWakeup {
  import opened Options

  datatype Chan = NoChan | OnProc(p: nat) | OnMutex(id: nat) | Elsewhere(c: nat)

  /** What a process under wait_lock sleeps for: a child (any, or that pid), or a mutex. */
  datatype Why = ForChild(target: Option<nat>) | ForMutex(id: nat)

  datatype RunState = UNUSED | USED | SLEEPING | RUNNABLE | RUNNING | ZOMBIE

  /** The calls that take wait_lock. */
  datatype Op =
    | Wait(target: Option<nat>)
    | Exit(status: int)
    | Link(child: nat)
    | Create
    | Lock(id: nat)
    | Relock(id: nat)
    | Unlock(id: nat)
    | Trylock(id: nat)

  datatype Pc =
    | User
    | Acquire(op: Op)                              // waits for wait_lock
    | Scan(target: Option<nat>, k: nat, have: bool)
    | Reparent(status: int, k: nat)
    | LinkChild(child: nat)
    | Linked(child: nat)                           // about to let go of wait_lock
    | StartChild(child: nat)
    | CreateMutex
    | LockMutex(id: nat)
    | WokenOnMutex(id: nat)
    | UnlockMutex(id: nat)
    | TryMutex(id: nat)
    | Wake(chan: Chan, j: nat, next: Pc)           // wakeup, about to look at process j
    | Return(call: Op, r: int, out: Option<int>)   // about to let go of wait_lock and return r
    | SleepLock(why: Why)                          // about to take its own lock
    | SleepRelease(why: Why)                       // about to let go of wait_lock
    | SleepSet(why: Why)                           // about to set chan and state
    | Asleep(why: Why)
    | Woken(why: Why)                              // back from sched, holding its own lock
    | ExitLock(status: int)
    | ExitMark(status: int)
    | ExitRelease
    | ExitSched
    | Embryo(maker: nat)                           // allocated, not yet started
    | Gone

  datatype Proc = Proc(state: RunState, chan: Chan, killed: bool, pid: nat, parent: Option<nat>, xstate: int,
                       locked: bool, pc: Pc)

  datatype Mutex = Mutex(used: bool, locked: bool, owner: int)

  /** waitLock names the process that holds wait_lock. */
  datatype State = State(procs: seq<Proc>, waitLock: Option<nat>, mutexes: seq<Mutex>, initproc: nat, nextpid: nat)

  datatype Action =
    | Call(i: nat, op: Op)
    | Fork(i: nat, k: nat)
    | Advance(i: nat, fault: bool)   // fault: copyout of the exit status fails
    | Kill(i: nat)
    | Preempt(i: nat)
    | Dispatch(i: nat)
    | SleepElsewhere(i: nat, c: nat)
    | WakeElsewhere(i: nat)

  predicate HoldsWait(pc: Pc) {
    || pc.Scan? || pc.Reparent? || pc.LinkChild? || pc.Linked? || pc.CreateMutex? || pc.LockMutex?
    || pc.WokenOnMutex? || pc.UnlockMutex? || pc.TryMutex? || pc.Wake? || pc.Return? || pc.SleepLock?
    || pc.SleepRelease? || pc.ExitLock? || pc.ExitMark? || pc.ExitRelease?
  }

  predicate HoldsOwn(pc: Pc) {
    pc.SleepRelease? || pc.SleepSet? || pc.Woken? || pc.ExitMark? || pc.ExitRelease? || pc.ExitSched?
  }

  function ChanOf(i: nat, why: Why): Chan {
    if why.ForChild? then OnProc(i) else OnMutex(why.id)
  }

  function Begin(op: Op): Pc {
    match op
    case Wait(t) => Scan(t, 0, false)
    case Exit(status) => Reparent(status, 0)
    case Link(k) => LinkChild(k)
    case Create => CreateMutex
    case Lock(id) => LockMutex(id)
    case Relock(id) => WokenOnMutex(id)
    case Unlock(id) => UnlockMutex(id)
    case Trylock(id) => TryMutex(id)
  }

  function Again(why: Why): Op {
    match why
    case ForChild(t) => Wait(t)
    case ForMutex(id) => Relock(id)
  }

  predicate MayCall(s: State, i: nat, op: Op) {
    match op
    case Wait(t) => t.Some? ==> t.value > 0
    case Exit(_) => i != s.initproc
    case Create => true
    case Lock(id) => id < |s.mutexes|
    case Unlock(id) => id < |s.mutexes|
    case Trylock(id) => id < |s.mutexes|
    case Link(_) => false
    case Relock(_) => false
  }

  /** Process k is the child that i waits for. */
  predicate Wanted(s: State, i: nat, target: Option<nat>, k: nat)
    requires k < |s.procs|
  {
    s.procs[k].parent == Some(i) && (target.Some? ==> s.procs[k].pid == target.value)
  }

  function Set(s: State, i: nat, p: Proc): State
    requires i < |s.procs|
  {
    s.(procs := s.procs[i := p])
  }

  function Goto(s: State, i: nat, pc: Pc): State
    requires i < |s.procs|
  {
    Set(s, i, s.procs[i].(pc := pc))
  }

  function SetMutex(s: State, id: nat, m: Mutex): State
    requires id < |s.mutexes|
  {
    s.(mutexes := s.mutexes[id := m])
  }

  // ---------------------------------------------------------------- steps

  /** The locks a step needs are free, and the process has a processor. */
  predicate Ready(s: State, i: nat)
    requires i < |s.procs|
  {
    var p := s.procs[i];
    match p.pc
    case User => false
    case Embryo(_) => false
    case Gone => false
    case Asleep(_) => p.state == RUNNABLE && !p.locked
    case Acquire(_) => p.state == RUNNING && s.waitLock.None?
    case Scan(t, k, _) => k < |s.procs| && Wanted(s, i, t, k) ==> !s.procs[k].locked
    case Wake(_, j, _) => j < |s.procs| && j != i ==> !s.procs[j].locked
    case StartChild(k) => p.state == RUNNING && k < |s.procs| && !s.procs[k].locked
    case SleepLock(_) => !p.locked
    case ExitLock(_) => !p.locked
    case LinkChild(k) => k < |s.procs|
    case LockMutex(id) => id < |s.mutexes|
    case UnlockMutex(id) => id < |s.mutexes|
    case TryMutex(id) => id < |s.mutexes|
    case _ => true
  }

  predicate Enabled(s: State, a: Action) {
    a.i < |s.procs| &&
    var p := s.procs[a.i];
    match a
    case Call(i, op) => p.state == RUNNING && p.pc == User && MayCall(s, i, op)
    case Fork(i, k) =>
      p.state == RUNNING && p.pc == User && k < |s.procs| && s.procs[k].state == UNUSED && !s.procs[k].locked
    case Advance(i, _) => Ready(s, i)
    case Kill(i) => !p.locked
    case Preempt(i) => p.state == RUNNING && !p.locked && !HoldsWait(p.pc)
    case Dispatch(i) => p.state == RUNNABLE && !p.locked && !p.pc.Asleep?
    case SleepElsewhere(i, _) => p.state == RUNNING && p.pc == User
    case WakeElsewhere(i) => p.state == SLEEPING && p.chan.Elsewhere? && !p.locked
  }

  /** freeproc, as far as these fields go. */
  const FREED: Proc := Proc(UNUSED, NoChan, false, 0, None, 0, false, Gone)

  /** kwait and kwaitpid, looking at process k; the last part of Return is the status copyout stores. */
  function ScanStep(s: State, i: nat, fault: bool): State
    requires i < |s.procs| && s.procs[i].pc.Scan?
  {
    var Scan(t, k, have) := s.procs[i].pc;
    if k >= |s.procs| then
      Goto(s, i, if !have || s.procs[i].killed then Return(Wait(t), -1, None) else SleepLock(ForChild(t)))
    else if !Wanted(s, i, t, k) then Goto(s, i, Scan(t, k + 1, have))
    else if s.procs[k].state != ZOMBIE then Goto(s, i, Scan(t, if t.Some? then |s.procs| else k + 1, true))
    else if fault then Goto(s, i, Return(Wait(t), -1, None))
    else Goto(Set(s, k, FREED), i, Return(Wait(t), s.procs[k].pid, Some(s.procs[k].xstate)))
  }

  function ReparentStep(s: State, i: nat): State
    requires i < |s.procs| && s.procs[i].pc.Reparent?
  {
    var Reparent(status, k) := s.procs[i].pc;
    if k >= |s.procs| then
      Goto(s, i, Wake(if s.procs[i].parent.Some? then OnProc(s.procs[i].parent.value) else NoChan, 0, ExitLock(status)))
    else if s.procs[k].parent != Some(i) then Goto(s, i, Reparent(status, k + 1))
    else
      Goto(Set(s, k, s.procs[k].(parent := Some(s.initproc))), i, Wake(OnProc(s.initproc), 0, Reparent(status, k + 1)))
  }

  function WakeStep(s: State, i: nat): State
    requires i < |s.procs| && s.procs[i].pc.Wake?
  {
    var Wake(c, j, next) := s.procs[i].pc;
    if j >= |s.procs| then Goto(s, i, next)
    else
      var p := s.procs[j];
      var s1 := if j != i && p.state == SLEEPING && p.chan == c then Set(s, j, p.(state := RUNNABLE)) else s;
      Goto(s1, i, Wake(c, j + 1, next))
  }

  function MutexStep(s: State, i: nat): State
    requires i < |s.procs|
  {
    var pid := s.procs[i].pid;
    match s.procs[i].pc
    case CreateMutex =>
      var id := FirstUnused(s.mutexes);
      if id == |s.mutexes| then Goto(s, i, Return(Create, -1, None))
      else Goto(SetMutex(s, id, Mutex(true, false, -1)), i, Return(Create, id, None))
    case LockMutex(id) =>
      if id >= |s.mutexes| then s
      else if !s.mutexes[id].used then Goto(s, i, Return(Lock(id), -1, None))
      else if !s.mutexes[id].locked then Goto(SetMutex(s, id, Mutex(true, true, pid)), i, Return(Lock(id), 0, None))
      else Goto(s, i, if s.mutexes[id].owner == pid then Return(Lock(id), -1, None) else SleepLock(ForMutex(id)))
    case WokenOnMutex(id) => Goto(s, i, if s.procs[i].killed then Return(Lock(id), -1, None) else LockMutex(id))
    case UnlockMutex(id) =>
      if id >= |s.mutexes| then s
      else if !s.mutexes[id].used || !s.mutexes[id].locked then Goto(s, i, Return(Unlock(id), -1, None))
      else if s.mutexes[id].owner != pid then Goto(s, i, Return(Unlock(id), -1, None))
      else Goto(SetMutex(s, id, Mutex(true, false, -1)), i, Wake(OnMutex(id), 0, Return(Unlock(id), 0, None)))
    case TryMutex(id) =>
      if id >= |s.mutexes| then s
      else if !s.mutexes[id].used then Goto(s, i, Return(Trylock(id), -1, None))
      else if !s.mutexes[id].locked then Goto(SetMutex(s, id, Mutex(true, true, pid)), i, Return(Trylock(id), 0, None))
      else Goto(s, i, Return(Trylock(id), -1, None))
    case _ => s
  }

  function SleepStep(s: State, i: nat): State
    requires i < |s.procs|
  {
    var p := s.procs[i];
    match p.pc
    case SleepLock(why) => Set(s, i, p.(locked := true, pc := SleepRelease(why)))
    case SleepRelease(why) => Goto(s.(waitLock := None), i, SleepSet(why))
    case SleepSet(why) => Set(s, i, p.(chan := ChanOf(i, why), state := SLEEPING, locked := false, pc := Asleep(why)))
    case Asleep(why) => Set(s, i, p.(state := RUNNING, locked := true, pc := Woken(why)))
    case Woken(why) => Set(s, i, p.(chan := NoChan, locked := false, pc := Acquire(Again(why))))
    case _ => s
  }

  function Proceed(s: State, i: nat, fault: bool): State
    requires i < |s.procs|
  {
    var p := s.procs[i];
    match p.pc
    case Acquire(op) => Goto(s.(waitLock := Some(i)), i, Begin(op))
    case Scan(_, _, _) => ScanStep(s, i, fault)
    case Reparent(_, _) => ReparentStep(s, i)
    case LinkChild(k) =>
      if k < |s.procs| then Goto(Set(s, k, s.procs[k].(parent := Some(i))), i, Linked(k)) else s
    case Linked(k) => Goto(s.(waitLock := None), i, StartChild(k))
    case StartChild(k) =>
      if k < |s.procs| then Goto(Set(s, k, s.procs[k].(state := RUNNABLE, pc := User)), i, User) else s
    case Wake(_, _, _) => WakeStep(s, i)
    case Return(_, _, _) => Goto(s.(waitLock := None), i, User)
    case ExitLock(status) => Set(s, i, p.(locked := true, pc := ExitMark(status)))
    case ExitMark(status) => Set(s, i, p.(xstate := status, state := ZOMBIE, pc := ExitRelease))
    case ExitRelease => Goto(s.(waitLock := None), i, ExitSched)
    case ExitSched => Set(s, i, p.(locked := false, pc := Gone))
    case _ =>
      if p.pc.SleepLock? || p.pc.SleepRelease? || p.pc.SleepSet? || p.pc.Asleep? || p.pc.Woken? then SleepStep(s, i)
      else MutexStep(s, i)
  }

  function Next(s: State, a: Action): State
    requires Enabled(s, a)
  {
    var p := s.procs[a.i];
    match a
    case Call(i, op) => Goto(s, i, Acquire(op))
    case Fork(i, k) =>
      var child := Proc(USED, NoChan, false, s.nextpid, None, 0, false, Embryo(i));
      Goto(Set(s, k, child).(nextpid := s.nextpid + 1), i, Acquire(Link(k)))
    case Advance(i, fault) => Proceed(s, i, fault)
    case Kill(i) => Set(s, i, p.(killed := true, state := if p.state == SLEEPING then RUNNABLE else p.state))
    case Preempt(i) => Set(s, i, p.(state := RUNNABLE))
    case Dispatch(i) => Set(s, i, p.(state := RUNNING))
    case SleepElsewhere(i, c) => Set(s, i, p.(state := SLEEPING, chan := Elsewhere(c)))
    case WakeElsewhere(i) => Set(s, i, p.(state := RUNNABLE))
  }

  function FirstUnused(ms: seq<Mutex>): (id: nat)
    ensures id <= |ms| && (id < |ms| ==> !ms[id].used) && forall j :: 0 <= j < id ==> ms[j].used
  {
    if ms == [] || !ms[0].used then 0 else
      assert forall j :: 0 < j < |ms| ==> ms[j] == ms[1..][j - 1];
      1 + FirstUnused(ms[1..])
  }

  // ---------------------------------------------------------------- runs

  predicate Initial(s: State) {
    && s.initproc < |s.procs| && s.waitLock == None && s.nextpid == 2
    && (forall i :: 0 <= i < |s.procs| ==>
          s.procs[i] == if i == s.initproc then FREED.(state := RUNNABLE, pid := 1, pc := User) else FREED)
    && (forall id :: 0 <= id < |s.mutexes| ==> !s.mutexes[id].used)
  }

  /** The states of a run that takes the given steps. */
  ghost predicate Run(ss: seq<State>, actions: seq<Action>) {
    && |ss| == |actions| + 1 && Initial(ss[0])
    && forall n :: 0 <= n < |actions| ==> StepAt(ss, actions, n)
  }

  ghost predicate StepAt(ss: seq<State>, actions: seq<Action>, n: nat)
    requires n < |actions| && |ss| == |actions| + 1
  {
    Enabled(ss[n], actions[n]) && ss[n + 1] == Next(ss[n], actions[n])
  }
}
