/** What the calls under wait_lock return, over every run of the sleep/wakeup machine: kwait and
    kwaitpid collect exited children, each of which is collected once. */
module SleepResults {
  import opened Options
  import opened SleepWakeup
  import opened SleepTheorems

  // ---------------------------------------------------------------- calls and their returns

  function CallFor(why: Why): Op {
    match why
    case ForChild(t) => Wait(t)
    case ForMutex(id) => Lock(id)
  }

  /** The call that the code at pc is part of. */
  function CallOf(pc: Pc): Option<Op> {
    match pc
    case Acquire(op) => if op.Link? then None else if op.Relock? then Some(Lock(op.id)) else Some(op)
    case Scan(t, _, _) => Some(Wait(t))
    case Reparent(status, _) => Some(Exit(status))
    case CreateMutex => Some(Create)
    case LockMutex(id) => Some(Lock(id))
    case WokenOnMutex(id) => Some(Lock(id))
    case UnlockMutex(id) => Some(Unlock(id))
    case TryMutex(id) => Some(Trylock(id))
    case Wake(_, _, next) => CallOf(next)
    case Return(call, _, _) => Some(call)
    case SleepLock(why) => Some(CallFor(why))
    case SleepRelease(why) => Some(CallFor(why))
    case SleepSet(why) => Some(CallFor(why))
    case Asleep(why) => Some(CallFor(why))
    case Woken(why) => Some(CallFor(why))
    case ExitLock(status) => Some(Exit(status))
    case ExitMark(status) => Some(Exit(status))
    case _ => None
  }

  /** No one else gets further in their code, but for being started, made or freed. */
  predicate Stays(p: Proc, p': Proc) {
    || (p'.pc == p.pc && p'.pid == p.pid && p'.killed == p.killed && (p'.state == SLEEPING ==> p.state == SLEEPING))
    || p'.pc.User? || p'.pc.Gone? || p'.pc.Embryo?
  }

  lemma WalkStays(s: State, i: nat, fault: bool, x: nat)
    requires i < |s.procs| && x < |s.procs| && x != i
    ensures s.procs[i].pc.Scan? ==>
      |ScanStep(s, i, fault).procs| == |s.procs| && Stays(s.procs[x], ScanStep(s, i, fault).procs[x])
    ensures s.procs[i].pc.Reparent? ==>
      |ReparentStep(s, i).procs| == |s.procs| && Stays(s.procs[x], ReparentStep(s, i).procs[x])
    ensures s.procs[i].pc.Wake? ==> |WakeStep(s, i).procs| == |s.procs| && Stays(s.procs[x], WakeStep(s, i).procs[x])
  {
  }

  lemma OwnStays(s: State, i: nat, x: nat)
    requires i < |s.procs| && x < |s.procs| && x != i
    ensures |MutexStep(s, i).procs| == |s.procs| && Stays(s.procs[x], MutexStep(s, i).procs[x])
    ensures |SleepStep(s, i).procs| == |s.procs| && Stays(s.procs[x], SleepStep(s, i).procs[x])
  {
  }

  lemma ProceedStays(s: State, i: nat, fault: bool, x: nat)
    requires i < |s.procs| && x < |s.procs| && x != i
    ensures |Proceed(s, i, fault).procs| == |s.procs| && Stays(s.procs[x], Proceed(s, i, fault).procs[x])
  {
    WalkStays(s, i, fault, x);
    OwnStays(s, i, x);
    hide ScanStep, ReparentStep, WakeStep, MutexStep, SleepStep;
  }

  /** A step takes no one else further in their code, but for starting or freeing a process. */
  lemma OthersStay(s: State, a: Action, x: nat)
    requires Inv(s) && Enabled(s, a) && x < |s.procs| && x != a.i
    ensures |Next(s, a).procs| == |s.procs| && Stays(s.procs[x], Next(s, a).procs[x])
  {
    OneLocal(s, a.i);
    hide Inv, Proceed;
    if a.Advance? {
      ProceedStays(s, a.i, a.fault, x);
    }
  }

  predicate SameCall(p: Proc, p': Proc) {
    CallOf(p'.pc).Some? ==> p'.pid == p.pid && CallOf(p'.pc) == CallOf(p.pc)
  }

  lemma ScanCall(s: State, i: nat, fault: bool)
    requires i < |s.procs| && s.procs[i].pc.Scan? && Local(s, i)
    ensures |ScanStep(s, i, fault).procs| == |s.procs| && SameCall(s.procs[i], ScanStep(s, i, fault).procs[i])
  {
  }

  lemma ReparentCall(s: State, i: nat)
    requires i < |s.procs| && s.procs[i].pc.Reparent?
    ensures |ReparentStep(s, i).procs| == |s.procs| && SameCall(s.procs[i], ReparentStep(s, i).procs[i])
  {
  }

  lemma WakeCall(s: State, i: nat)
    requires i < |s.procs| && s.procs[i].pc.Wake?
    ensures |WakeStep(s, i).procs| == |s.procs| && SameCall(s.procs[i], WakeStep(s, i).procs[i])
  {
  }

  lemma MutexCall(s: State, i: nat)
    requires i < |s.procs|
    ensures |MutexStep(s, i).procs| == |s.procs| && SameCall(s.procs[i], MutexStep(s, i).procs[i])
  {
  }

  lemma SleepCall(s: State, i: nat)
    requires i < |s.procs|
    ensures |SleepStep(s, i).procs| == |s.procs| && SameCall(s.procs[i], SleepStep(s, i).procs[i])
  {
  }

  lemma AdvanceCall(s: State, i: nat, fault: bool)
    requires i < |s.procs| && Local(s, i) && Ready(s, i) && Making(s, i)
    ensures |Proceed(s, i, fault).procs| == |s.procs| && SameCall(s.procs[i], Proceed(s, i, fault).procs[i])
  {
    hide ScanStep, ReparentStep, WakeStep, MutexStep, SleepStep;
    match s.procs[i].pc
    case Scan(_, _, _) => ScanCall(s, i, fault);
    case Reparent(_, _) => ReparentCall(s, i);
    case Wake(_, _, _) => WakeCall(s, i);
    case _ =>
      MutexCall(s, i);
      SleepCall(s, i);
  }

  lemma OwnCall(s: State, a: Action)
    requires Inv(s) && Enabled(s, a)
    ensures |Next(s, a).procs| == |s.procs|
    ensures var p, p' := s.procs[a.i], Next(s, a).procs[a.i];
      SameCall(p, p') || (p'.pid == p.pid && p.pc == User && a.Call? && CallOf(p'.pc) == Some(a.op))
  {
    OneLocal(s, a.i);
    hide Inv, Proceed;
    if a.Advance? {
      AdvanceCall(s, a.i, a.fault);
    }
  }

  /** A process stays in the call it has made until it returns. */
  lemma CallKept(s: State, a: Action, i: nat)
    requires Inv(s) && Enabled(s, a) && i < |s.procs|
    ensures |Next(s, a).procs| == |s.procs|
    ensures var p, p' := s.procs[i], Next(s, a).procs[i];
      CallOf(p'.pc).Some? ==>
        p'.pid == p.pid && (CallOf(p'.pc) == CallOf(p.pc) || (p.pc == User && a == Call(i, CallOf(p'.pc).value)))
  {
    hide Next, Enabled, Inv;
    if i == a.i {
      OwnCall(s, a);
    } else {
      OthersStay(s, a, i);
    }
  }

  ghost predicate InRun(ss: seq<State>, actions: seq<Action>, n: nat, i: nat) {
    Run(ss, actions) && n < |ss| && i < |ss[n].procs|
  }

  lemma {:induction false} Sizes(ss: seq<State>, actions: seq<Action>, n: nat)
    requires Run(ss, actions) && n < |ss|
    ensures |ss[n].procs| == |ss[0].procs|
  {
    hide Next, Enabled, Initial;
    if n > 0 {
      Sizes(ss, actions, n - 1);
      assert StepAt(ss, actions, n - 1);
      RunInv(ss, actions, n - 1);
      OwnCall(ss[n - 1], actions[n - 1]);
    }
  }

  /** One step of a run, and the invariant before it. */
  lemma RunStep(ss: seq<State>, actions: seq<Action>, n: nat, i: nat)
    requires InRun(ss, actions, n, i) && n < |actions|
    ensures Inv(ss[n]) && Enabled(ss[n], actions[n]) && ss[n + 1] == Next(ss[n], actions[n])
    ensures |ss[n + 1].procs| == |ss[n].procs| == |ss[0].procs|
  {
    hide Next, Enabled, Initial, Inv;
    RunInv(ss, actions, n);
    assert StepAt(ss, actions, n);
    Sizes(ss, actions, n);
    Sizes(ss, actions, n + 1);
  }

  /** From step m on, where it called, process i is in the same call and has not returned. */
  ghost predicate Calling(ss: seq<State>, i: nat, m: nat, n: nat, call: Op)
    requires n < |ss| && i < |ss[n].procs|
  {
    forall j :: m < j <= n ==>
      i < |ss[j].procs| && CallOf(ss[j].procs[i].pc) == Some(call) && ss[j].procs[i].pid == ss[n].procs[i].pid
  }

  /** A process in a call has made that call. */
  lemma {:induction false} MadeCall(ss: seq<State>, actions: seq<Action>, n: nat, i: nat) returns (m: nat)
    requires InRun(ss, actions, n, i) && CallOf(ss[n].procs[i].pc).Some?
    ensures m < n && actions[m] == Call(i, CallOf(ss[n].procs[i].pc).value)
    ensures i < |ss[m].procs| && ss[m].procs[i].pid == ss[n].procs[i].pid
    ensures Calling(ss, i, m, n, CallOf(ss[n].procs[i].pc).value)
  {
    hide Next, Enabled, Inv;
    Sizes(ss, actions, n);
    if n > 0 {
      Sizes(ss, actions, n - 1);
      RunStep(ss, actions, n - 1, i);
      CallKept(ss[n - 1], actions[n - 1], i);
      if CallOf(ss[n - 1].procs[i].pc) == CallOf(ss[n].procs[i].pc) {
        m := MadeCall(ss, actions, n - 1, i);
      } else {
        m := n - 1;
      }
    }
  }

  // ---------------------------------------------------------------- when a result is decided

  lemma ReturnKept(s: State, a: Action, i: nat)
    requires Inv(s) && Enabled(s, a) && i < |s.procs|
    ensures |Next(s, a).procs| == |s.procs|
    ensures var p, p' := s.procs[i], Next(s, a).procs[i];
      p'.pc.Return? ==> p'.pid == p.pid && (p'.pc == p.pc || (a.Advance? && a.i == i && !p.pc.Return?))
  {
    hide Next, Enabled, Inv;
    CallKept(s, a, i);
    if i == a.i {
      ReturnLeft(s, a);
    } else {
      OthersStay(s, a, i);
    }
  }

  /** A process that is about to return does nothing else. */
  lemma ReturnLeft(s: State, a: Action)
    requires Enabled(s, a) && a.i < |Next(s, a).procs|
    ensures Next(s, a).procs[a.i].pc.Return? ==>
      Next(s, a).procs[a.i].pc == s.procs[a.i].pc || (a.Advance? && !s.procs[a.i].pc.Return?)
  {
    hide ScanStep, ReparentStep, WakeStep, MutexStep, SleepStep;
  }

  /** The step at which a process that is about to return came to know its result. */
  lemma {:induction false} Decided(ss: seq<State>, actions: seq<Action>, n: nat, i: nat) returns (d: nat)
    requires InRun(ss, actions, n, i) && ss[n].procs[i].pc.Return?
    ensures d < n && actions[d].Advance? && actions[d].i == i
    ensures i < |ss[d].procs| && !ss[d].procs[i].pc.Return?
    ensures forall j :: d < j <= n ==> i < |ss[j].procs| && ss[j].procs[i].pc == ss[n].procs[i].pc
  {
    hide Next, Enabled, Inv;
    Sizes(ss, actions, n);
    if n > 0 {
      Sizes(ss, actions, n - 1);
      RunStep(ss, actions, n - 1, i);
      ReturnKept(ss[n - 1], actions[n - 1], i);
      if ss[n - 1].procs[i].pc == ss[n].procs[i].pc {
        d := Decided(ss, actions, n - 1, i);
      } else {
        d := n - 1;
      }
    }
  }

  /** In state n process i is about to return from a call it made at step m, and whose result it
      found at step d; it has not returned in between. */
  ghost predicate Answers(ss: seq<State>, actions: seq<Action>, m: nat, d: nat, n: nat, i: nat)
    requires |ss| == |actions| + 1 && n < |ss| && i < |ss[n].procs| && ss[n].procs[i].pc.Return?
  {
    && m < d < n && actions[m] == Call(i, ss[n].procs[i].pc.call)
    && actions[d].Advance? && actions[d].i == i
    && (forall j :: m < j <= n ==> i < |ss[j].procs| && ss[j].procs[i].pc != User)
    && (forall j :: m <= j <= n ==> i < |ss[j].procs| && ss[j].procs[i].pid == ss[n].procs[i].pid)
    && (forall j :: d < j <= n ==> ss[j].procs[i].pc == ss[n].procs[i].pc)
  }

  /** Every result has its call and the step that decided it. */
  lemma EveryReturn(ss: seq<State>, actions: seq<Action>, n: nat, i: nat) returns (m: nat, d: nat)
    requires InRun(ss, actions, n, i) && ss[n].procs[i].pc.Return?
    ensures Answers(ss, actions, m, d, n, i) && !ss[d].procs[i].pc.Return?
  {
    hide Next, Enabled, Inv;
    m := MadeCall(ss, actions, n, i);
    d := Decided(ss, actions, n, i);
    RunStep(ss, actions, m, i);
    CalledAt(ss[m], i, ss[n].procs[i].pc.call);
    assert CallOf(User).None?;
  }

  lemma Advances(s: State, i: nat, fault: bool)
    requires Enabled(s, Advance(i, fault))
    ensures i < |s.procs| && Ready(s, i) && Next(s, Advance(i, fault)) == Proceed(s, i, fault)
  {
  }

  lemma CalledAt(s: State, i: nat, op: Op)
    requires Enabled(s, Call(i, op))
    ensures i < |s.procs| == |Next(s, Call(i, op)).procs| && Next(s, Call(i, op)).procs[i].pc == Acquire(op)
  {
  }

  // ---------------------------------------------------------------- kwait and kwaitpid

  /** i collects its exited child k: the slot is free afterwards, and no one else has changed. */
  ghost predicate Collected(s: State, s': State, i: nat, target: Option<nat>, k: nat, r: int, out: Option<int>) {
    && i < |s.procs| == |s'.procs| && k < |s.procs| && k != i
    && s.procs[k].state == ZOMBIE && s.procs[k].parent == Some(i) && s.procs[k].pid == r > 0
    && (target.Some? ==> r == target.value) && out == Some(s.procs[k].xstate)
    && s'.procs[k].state == UNUSED && s'.procs[k].parent == None
    && (forall x :: 0 <= x < |s.procs| && x != k && x != i ==> s'.procs[x] == s.procs[x])
    && s'.procs[i] == s.procs[i].(pc := s'.procs[i].pc) && s'.mutexes == s.mutexes && s'.waitLock == s.waitLock
  }

  /** i has no child to wait for, or has been killed and none of them has exited, or the status of
      one that has cannot be stored. */
  ghost predicate Refused(s: State, s': State, i: nat, target: Option<nat>, fault: bool) {
    && i < |s.procs| == |s'.procs| && s' == s.(procs := s.procs[i := s.procs[i].(pc := s'.procs[i].pc)])
    && (|| (s.procs[i].killed && forall k :: 0 <= k < |s.procs| && s.procs[k].state == ZOMBIE ==>
              s.procs[k].parent != Some(i) || (target.Some? && s.procs[k].pid != target.value))
        || (forall k :: 0 <= k < |s.procs| ==>
              s.procs[k].parent != Some(i) || (target.Some? && s.procs[k].pid != target.value))
        || (fault && exists k :: 0 <= k < |s.procs| && s.procs[k].state == ZOMBIE && s.procs[k].parent == Some(i)
                                 && (target.Some? ==> s.procs[k].pid == target.value)))
  }

  ghost predicate WaitOutcome(s: State, s': State, i: nat, fault: bool, pc: Pc)
    requires pc.Return? && pc.call.Wait?
  {
    if pc.r > 0 then exists k :: Collected(s, s', i, pc.call.target, k, pc.r, pc.out)
    else pc.r == -1 && pc.out.None? && Refused(s, s', i, pc.call.target, fault)
  }

  lemma ScanReturns(s: State, i: nat, fault: bool)
    requires Inv(s) && i < |s.procs| && s.procs[i].pc.Scan? && ScanStep(s, i, fault).procs[i].pc.Return?
    ensures var pc := ScanStep(s, i, fault).procs[i].pc;
      pc.call.Wait? && WaitOutcome(s, ScanStep(s, i, fault), i, fault, pc)
  {
    var s' := ScanStep(s, i, fault);
    var pc := s'.procs[i].pc;
    OneLocal(s, i);
    var Scan(t, k, have) := s.procs[i].pc;
    assert Progress(s, i) && (k < |s.procs| ==> PidFits(s, k));
    hide Inv;
    if k >= |s.procs| {
      SeenNone(s, i);
    } else if !fault {
      assert Collected(s, s', i, t, k, pc.r, pc.out);
    }
  }

  lemma SeenNone(s: State, i: nat)
    requires i < |s.procs| && s.procs[i].pc.Scan? && Progress(s, i) && s.procs[i].pc.k >= |s.procs|
    ensures var t := s.procs[i].pc.target;
      forall k :: 0 <= k < |s.procs| && (!s.procs[i].pc.have || s.procs[k].state == ZOMBIE) ==>
        s.procs[k].parent != Some(i) || (t.Some? && s.procs[k].pid != t.value)
  {
    var Scan(t, _, have) := s.procs[i].pc;
    assert Seen(s, i, t, |s.procs|, have) && Scanned(s, i, t, |s.procs|);
    forall k | 0 <= k < |s.procs| && (!have || s.procs[k].state == ZOMBIE)
      ensures s.procs[k].parent != Some(i) || (t.Some? && s.procs[k].pid != t.value)
    {
      assert !Zombie(s, i, t, k);
      assert have || !Wanted(s, i, t, k);
    }
  }

  /** Only the scan decides a result of kwait or kwaitpid. */
  lemma WaitDecides(s: State, i: nat, fault: bool, s': State)
    requires Inv(s) && i < |s.procs| == |s'.procs| && Ready(s, i) && s' == Proceed(s, i, fault)
    requires !s.procs[i].pc.Return? && s'.procs[i].pc.Return? && s'.procs[i].pc.call.Wait?
    ensures WaitOutcome(s, s', i, fault, s'.procs[i].pc)
  {
    OneLocal(s, i);
    OwnCall(s, Advance(i, fault));
    hide WaitOutcome, Inv, ScanStep, MutexStep, ReparentStep, WakeStep;
    if s.procs[i].pc.Scan? {
      ScanReturns(s, i, fault);
    }
  }

  /** What kwait and kwaitpid return.  A positive result is the pid of a child that had exited, the
      one asked for if one was; its slot is free afterwards, and nothing else has changed.  -1 means
      that there was no such child, that the caller had been killed, or that the status could not be
      stored; then nothing has changed.  There is no other result. */
  lemma WaitReturns(ss: seq<State>, actions: seq<Action>, n: nat, i: nat) returns (m: nat, d: nat)
    requires InRun(ss, actions, n, i) && ss[n].procs[i].pc.Return? && ss[n].procs[i].pc.call.Wait?
    ensures Answers(ss, actions, m, d, n, i)
    ensures WaitOutcome(ss[d], ss[d + 1], i, actions[d].fault, ss[n].procs[i].pc)
  {
    hide Next, Enabled, Inv, WaitOutcome, Proceed, Ready;
    m, d := EveryReturn(ss, actions, n, i);
    RunStep(ss, actions, d, i);
    assert actions[d] == Advance(i, actions[d].fault);
    Advances(ss[d], i, actions[d].fault);
    WaitDecides(ss[d], i, actions[d].fault, ss[d + 1]);
  }

  lemma ScanZombie(s: State, i: nat, fault: bool, k: nat)
    requires i < |s.procs| && k < |s.procs| && s.procs[i].pc.Scan? && s.procs[k].state == ZOMBIE
    requires Local(s, i) && PidFits(s, k)
    ensures var p, s' := s.procs[k], ScanStep(s, i, fault);
      && |s'.procs| == |s.procs|
      && (s'.procs[k].state != ZOMBIE ==>
            var t := s.procs[i].pc.target;
            && s'.procs[i].pc == Return(Wait(t), p.pid, Some(p.xstate))
            && Collected(s, s', i, t, k, p.pid, Some(p.xstate)))
      && (s'.procs[k].state == ZOMBIE ==> s'.procs[k] == p)
  {
  }

  /** The process is who it was, and has not exited now. */
  predicate SameLife(p: Proc, p': Proc) {
    p'.pid == p.pid && p'.xstate == p.xstate && (p'.state == ZOMBIE <==> p.state == ZOMBIE)
  }

  lemma WakeLife(s: State, i: nat, x: nat)
    requires i < |s.procs| && x < |s.procs| && s.procs[i].pc.Wake?
    ensures |WakeStep(s, i).procs| == |s.procs| && SameLife(s.procs[x], WakeStep(s, i).procs[x])
  {
  }

  lemma ReparentLife(s: State, i: nat, x: nat)
    requires i < |s.procs| && x < |s.procs| && s.procs[i].pc.Reparent?
    ensures |ReparentStep(s, i).procs| == |s.procs| && SameLife(s.procs[x], ReparentStep(s, i).procs[x])
  {
  }

  lemma MutexLife(s: State, i: nat, x: nat)
    requires i < |s.procs| && x < |s.procs|
    ensures |MutexStep(s, i).procs| == |s.procs| && SameLife(s.procs[x], MutexStep(s, i).procs[x])
  {
  }

  lemma SleepLife(s: State, i: nat, x: nat)
    requires i < |s.procs| && x < |s.procs| && Local(s, i)
    ensures |SleepStep(s, i).procs| == |s.procs| && SameLife(s.procs[x], SleepStep(s, i).procs[x])
  {
  }

  lemma AdvanceLife(s: State, i: nat, fault: bool, x: nat)
    requires i < |s.procs| && x < |s.procs| && Local(s, i) && Making(s, i) && Ready(s, i)
    requires Local(s, x) && !s.procs[i].pc.Scan? && (x == i ==> !s.procs[i].pc.ExitMark?)
    ensures |Proceed(s, i, fault).procs| == |s.procs| && SameLife(s.procs[x], Proceed(s, i, fault).procs[x])
  {
    hide ReparentStep, WakeStep, MutexStep, SleepStep;
    match s.procs[i].pc
    case Reparent(_, _) => ReparentLife(s, i, x);
    case Wake(_, _, _) => WakeLife(s, i, x);
    case StartChild(k) => OneMade(s, i, k);
    case _ =>
      MutexLife(s, i, x);
      SleepLife(s, i, x);
  }

  lemma OneMade(s: State, i: nat, k: nat)
    requires i < |s.procs| && Making(s, i) && s.procs[i].pc == StartChild(k)
    ensures k < |s.procs| && s.procs[k].pc == Embryo(i)
  {
  }

  /** An exited process stays as it is, until its parent collects it. */
  lemma ZombieKept(s: State, a: Action, k: nat)
    requires Inv(s) && Enabled(s, a) && k < |s.procs| && s.procs[k].state == ZOMBIE
    ensures |Next(s, a).procs| == |s.procs| && a.i < |s.procs|
    ensures var p, p' := s.procs[k], Next(s, a).procs[k];
      && (p'.state == ZOMBIE ==> p'.pid == p.pid && p'.xstate == p.xstate)
      && (p'.state != ZOMBIE ==> a.Advance? && s.procs[a.i].pc.Scan? && Next(s, a) == ScanStep(s, a.i, a.fault))
  {
    OneLocal(s, a.i);
    OneLocal(s, k);
    assert PidFits(s, k);
    hide Inv, ScanStep, ReparentStep, WakeStep, MutexStep, SleepStep;
    if a.Advance? {
      if s.procs[a.i].pc.Scan? {
        ScanZombie(s, a.i, a.fault, k);
      } else {
        AdvanceLife(s, a.i, a.fault, k);
      }
    }
  }

  lemma BecomesZombie(s: State, a: Action, k: nat)
    requires Inv(s) && Enabled(s, a) && k < |s.procs| == |Next(s, a).procs|
    requires s.procs[k].state != ZOMBIE && Next(s, a).procs[k].state == ZOMBIE
    ensures s.procs[k].pc.ExitMark? && s.procs[k].pc.status == Next(s, a).procs[k].xstate
    ensures Next(s, a).procs[k].pid == s.procs[k].pid
  {
    OneLocal(s, a.i);
    OneLocal(s, k);
    hide Inv, ReparentStep, WakeStep, MutexStep, SleepStep;
    if a.Advance? && !s.procs[a.i].pc.Scan? && !(a.i == k && s.procs[k].pc.ExitMark?) {
      AdvanceLife(s, a.i, a.fault, k);
    }
  }

  /** A process that has exited called kexit, and its status is the one it gave. */
  lemma {:induction false} ExitedWith(ss: seq<State>, actions: seq<Action>, n: nat, k: nat) returns (m: nat)
    requires InRun(ss, actions, n, k) && ss[n].procs[k].state == ZOMBIE
    ensures m < n && actions[m] == Call(k, Exit(ss[n].procs[k].xstate))
    ensures k < |ss[m].procs| && ss[m].procs[k].pid == ss[n].procs[k].pid
  {
    hide Next, Enabled, Inv;
    Sizes(ss, actions, n);
    if n > 0 {
      Sizes(ss, actions, n - 1);
      RunStep(ss, actions, n - 1, k);
      if ss[n - 1].procs[k].state == ZOMBIE {
        ZombieKept(ss[n - 1], actions[n - 1], k);
        m := ExitedWith(ss, actions, n - 1, k);
      } else {
        BecomesZombie(ss[n - 1], actions[n - 1], k);
        m := MadeCall(ss, actions, n - 1, k);
      }
    }
  }

  /** The status that kwait stores is the one the child gave to kexit. */
  lemma WaitStatus(ss: seq<State>, actions: seq<Action>, n: nat, i: nat) returns (d: nat, k: nat, e: nat)
    requires InRun(ss, actions, n, i) && ss[n].procs[i].pc.Return? && ss[n].procs[i].pc.call.Wait?
    requires ss[n].procs[i].pc.r > 0
    ensures var Return(call, r, out) := ss[n].procs[i].pc;
      && e < d < n && Collected(ss[d], ss[d + 1], i, call.target, k, r, out)
      && actions[e] == Call(k, Exit(out.value)) && k < |ss[e].procs| && ss[e].procs[k].pid == r
  {
    hide Collected;
    var m;
    m, d := WaitReturns(ss, actions, n, i);
    var Return(call, r, out) := ss[n].procs[i].pc;
    k :| Collected(ss[d], ss[d + 1], i, call.target, k, r, out);
    WasZombie(ss[d], ss[d + 1], i, call.target, k, r, out);
    e := ExitedWith(ss, actions, d, k);
  }

  lemma WasZombie(s: State, s': State, i: nat, target: Option<nat>, k: nat, r: int, out: Option<int>)
    requires Collected(s, s', i, target, k, r, out)
    ensures k < |s.procs| && s.procs[k].state == ZOMBIE && s.procs[k].pid == r && out == Some(s.procs[k].xstate)
  {
  }

  /** No exited process is lost, and none is reported twice: its slot changes only in the step in
      which its parent's kwait or kwaitpid finds it, with its pid and its status as the answer. */
  lemma OnlyCollected(ss: seq<State>, actions: seq<Action>, n: nat, k: nat) returns (i: nat, target: Option<nat>)
    requires InRun(ss, actions, n, k) && n < |actions| && k < |ss[n + 1].procs|
    requires ss[n].procs[k].state == ZOMBIE && ss[n + 1].procs[k].state != ZOMBIE
    ensures var p := ss[n].procs[k];
      && Collected(ss[n], ss[n + 1], i, target, k, p.pid, Some(p.xstate))
      && ss[n + 1].procs[i].pc == Return(Wait(target), p.pid, Some(p.xstate))
  {
    hide Next, Enabled, Collected, ScanStep;
    RunStep(ss, actions, n, k);
    ZombieKept(ss[n], actions[n], k);
    i := actions[n].i;
    target := ss[n].procs[i].pc.target;
    OneLocal(ss[n], i);
    assert PidFits(ss[n], k);
    hide Inv;
    ScanZombie(ss[n], i, actions[n].fault, k);
  }

  lemma SleepDecides(s: State, a: Action, i: nat)
    requires Inv(s) && Enabled(s, a) && i < |s.procs| == |Next(s, a).procs| && !s.procs[i].pc.SleepLock?
    requires Next(s, a).procs[i].pc.SleepLock? && Next(s, a).procs[i].pc.why.ForChild?
    ensures s.procs[i].pc.Scan? && s.procs[i].pc.target == Next(s, a).procs[i].pc.why.target
    ensures s.procs[i].pc.k >= |s.procs| && s.procs[i].pc.have && !s.procs[i].killed && Progress(s, i)
  {
    hide Next, Enabled, Inv, Progress;
    if a.i == i {
      OwnSleep(s, a);
    } else {
      OthersStay(s, a, i);
    }
  }

  lemma OwnSleep(s: State, a: Action)
    requires Inv(s) && Enabled(s, a) && |s.procs| == |Next(s, a).procs| && !s.procs[a.i].pc.SleepLock?
    requires Next(s, a).procs[a.i].pc.SleepLock? && Next(s, a).procs[a.i].pc.why.ForChild?
    ensures s.procs[a.i].pc.Scan? && s.procs[a.i].pc.target == Next(s, a).procs[a.i].pc.why.target
    ensures s.procs[a.i].pc.k >= |s.procs| && s.procs[a.i].pc.have && !s.procs[a.i].killed && Progress(s, a.i)
  {
    OneLocal(s, a.i);
    OwnCall(s, a);
    hide Owed, Pids, Locals, Progress, MutexStep, ReparentStep, WakeStep;
  }

  lemma SeenSome(s: State, i: nat)
    requires i < |s.procs| && s.procs[i].pc.Scan? && Progress(s, i)
    requires s.procs[i].pc.k >= |s.procs| && s.procs[i].pc.have
    ensures var t := s.procs[i].pc.target;
      && (exists k :: 0 <= k < |s.procs| && s.procs[k].parent == Some(i) && (t.Some? ==> s.procs[k].pid == t.value))
      && (forall k :: 0 <= k < |s.procs| && s.procs[k].parent == Some(i) && (t.Some? ==> s.procs[k].pid == t.value) ==>
            s.procs[k].state != ZOMBIE)
  {
    var t := s.procs[i].pc.target;
    var z :| 0 <= z < |s.procs| && Wanted(s, i, t, z);
    assert s.procs[z].parent == Some(i);
    forall k | 0 <= k < |s.procs| && s.procs[k].parent == Some(i) && (t.Some? ==> s.procs[k].pid == t.value)
      ensures s.procs[k].state != ZOMBIE
    {
      assert !Zombie(s, i, t, k);
    }
  }

  /** kwait and kwaitpid go to sleep only while there is a child to wait for, none of those has
      exited, and the caller has not been killed. */
  lemma WaitSleeps(ss: seq<State>, actions: seq<Action>, n: nat, i: nat)
    requires InRun(ss, actions, n, i) && n < |actions| && i < |ss[n + 1].procs|
    requires !ss[n].procs[i].pc.SleepLock? && ss[n + 1].procs[i].pc.SleepLock? && ss[n + 1].procs[i].pc.why.ForChild?
    ensures var s, t := ss[n], ss[n + 1].procs[i].pc.why.target;
      && !s.procs[i].killed
      && (exists k :: 0 <= k < |s.procs| && s.procs[k].parent == Some(i) && (t.Some? ==> s.procs[k].pid == t.value))
      && (forall k :: 0 <= k < |s.procs| && s.procs[k].parent == Some(i) && (t.Some? ==> s.procs[k].pid == t.value) ==>
            s.procs[k].state != ZOMBIE)
  {
    hide Next, Enabled, Inv, Progress;
    RunStep(ss, actions, n, i);
    SleepDecides(ss[n], actions[n], i);
    SeenSome(ss[n], i);
  }

  /** Each look at the table brings the scan forward, to a result or to sleep. */
  lemma WaitGoesOn(ss: seq<State>, actions: seq<Action>, n: nat, i: nat)
    requires InRun(ss, actions, n, i) && n < |actions| && i < |ss[n + 1].procs|
    requires actions[n].Advance? && actions[n].i == i && ss[n].procs[i].pc.Scan?
    ensures var Scan(t, k, _) := ss[n].procs[i].pc;
      match ss[n + 1].procs[i].pc
      case Scan(t', k', _) => t' == t && k < k' <= |ss[n].procs|
      case Return(call, _, _) => call == Wait(t)
      case SleepLock(why) => why == ForChild(t)
      case _ => false
  {
    RunStep(ss, actions, n, i);
    OneLocal(ss[n], i);
    hide Inv;
  }

  // ---------------------------------------------------------------- wakeup

  lemma WakesFrom(s: State, a: Action, j: nat)
    requires Inv(s) && Enabled(s, a) && j < |s.procs| && s.procs[j].state == SLEEPING
    ensures |Next(s, a).procs| == |s.procs| && a.i < |s.procs|
    ensures Next(s, a).procs[j].state != SLEEPING ==>
      && Next(s, a).procs[j] == s.procs[j].(state := RUNNABLE, killed := Next(s, a).procs[j].killed)
      && (|| a == Kill(j) || a == WakeElsewhere(j)
          || (a.Advance? && s.procs[a.i].pc.Wake? && s.procs[a.i].pc.chan == s.procs[j].chan))
  {
    OneLocal(s, a.i);
    OneLocal(s, j);
    hide Inv, Proceed;
    if a.Advance? {
      ProceedWakes(s, a.i, a.fault, j);
    }
  }

  lemma ProceedWakes(s: State, i: nat, fault: bool, j: nat)
    requires i < |s.procs| && j < |s.procs| && s.procs[j].state == SLEEPING
    requires Local(s, i) && Local(s, j) && Making(s, i) && Ready(s, i)
    ensures |Proceed(s, i, fault).procs| == |s.procs|
    ensures Proceed(s, i, fault).procs[j].state != SLEEPING ==>
      && s.procs[i].pc.Wake? && s.procs[i].pc.chan == s.procs[j].chan
      && Proceed(s, i, fault).procs[j] == s.procs[j].(state := RUNNABLE)
  {
  }

  /** A sleeping process is woken only by kill, or by a wakeup on the channel it sleeps on. */
  lemma OnlyWoken(ss: seq<State>, actions: seq<Action>, n: nat, j: nat)
    requires InRun(ss, actions, n, j) && n < |actions| && j < |ss[n + 1].procs|
    requires ss[n].procs[j].state == SLEEPING && ss[n + 1].procs[j].state != SLEEPING
    ensures actions[n].i < |ss[n].procs| && ss[n + 1].procs[j].state == RUNNABLE
    ensures ss[n + 1].procs[j].pc == ss[n].procs[j].pc && ss[n + 1].procs[j].chan == ss[n].procs[j].chan
    ensures || actions[n] == Kill(j) || actions[n] == WakeElsewhere(j)
            || (actions[n].Advance? && ss[n].procs[actions[n].i].pc.Wake?
                && ss[n].procs[actions[n].i].pc.chan == ss[n].procs[j].chan)
  {
    hide Next, Enabled, Inv;
    RunStep(ss, actions, n, j);
    WakesFrom(ss[n], actions[n], j);
  }
}
