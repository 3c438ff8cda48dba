/** Parents and children over every run of the sleep/wakeup machine: no process has a parent that
    is gone, because reparent of kernel/proc.c gives the children of an exiting process to init. */
module Orphans {
  import opened Options
  import opened SleepResults
  import opened SleepTheorems
  import opened SleepWakeup

  /** A process at pc is not, or no longer, the parent of z. */
  predicate Left(pc: Pc, z: nat) {
    match pc
    case Reparent(_, k) => z < k
    case Wake(_, _, next) => Left(next, z)
    case ExitLock(_) => true
    case ExitMark(_) => true
    case ExitRelease => true
    case ExitSched => true
    case Embryo(_) => true
    case Gone => true
    case _ => false
  }

  /** A process at pc has called kexit, or has not been started. */
  predicate Ending(pc: Pc) {
    match pc
    case Acquire(op) => op.Exit?
    case Reparent(_, _) => true
    case Wake(_, _, next) => Ending(next)
    case ExitLock(_) => true
    case ExitMark(_) => true
    case ExitRelease => true
    case ExitSched => true
    case Embryo(_) => true
    case Gone => true
    case _ => false
  }

  predicate Tied(s: State, z: nat)
    requires z < |s.procs|
  {
    var q := s.procs[z].parent;
    q.Some? ==> q.value < |s.procs| && !Left(s.procs[q.value].pc, z)
  }

  /** The child that has no parent yet. */
  function Linking(pc: Pc): Option<nat> {
    if pc.Acquire? && pc.op.Link? then Some(pc.op.child) else if pc.LinkChild? then Some(pc.child) else None
  }

  /** A started process has a parent, and one that is about to be started has its maker. */
  predicate Rooted(s: State, z: nat)
    requires z < |s.procs|
  {
    var p := s.procs[z];
    && (z != s.initproc && p.state != UNUSED && !p.pc.Embryo? ==> p.parent.Some?)
    && (p.pc.Linked? || p.pc.StartChild? ==> p.pc.child < |s.procs| && s.procs[p.pc.child].parent == Some(z))
    && (Linking(p.pc).Some? ==> Linking(p.pc).value < |s.procs| && s.procs[Linking(p.pc).value].parent == None)
  }

  ghost predicate Family(s: State) {
    && s.initproc < |s.procs| && !Ending(s.procs[s.initproc].pc)
    && (forall z {:trigger Tied(s, z)} :: 0 <= z < |s.procs| ==> Tied(s, z))
    && (forall z {:trigger Rooted(s, z)} :: 0 <= z < |s.procs| ==> Rooted(s, z))
  }

  /** No one gets another parent, and no one with a child gets further in giving it away. */
  ghost predicate Steady(s: State, s': State) {
    && |s'.procs| == |s.procs| && s'.initproc == s.initproc
    && (forall x :: 0 <= x < |s.procs| ==> StaysRooted(s.procs[x], s'.procs[x]))
    && (forall x, z :: 0 <= x < |s.procs| && 0 <= z < |s.procs| && s.procs[z].parent == Some(x) ==>
          Left(s'.procs[x].pc, z) ==> Left(s.procs[x].pc, z))
    && (s.initproc < |s.procs| && Ending(s'.procs[s.initproc].pc) ==> Ending(s.procs[s.initproc].pc))
  }

  predicate StaysRooted(p: Proc, p': Proc) {
    && p'.parent == p.parent && (p'.state != UNUSED && !p'.pc.Embryo? ==> p.state != UNUSED && !p.pc.Embryo?)
    && (p'.pc.Linked? || p'.pc.StartChild? ==> (p.pc.Linked? || p.pc.StartChild?) && p'.pc.child == p.pc.child)
    && (Linking(p'.pc).Some? ==> Linking(p'.pc) == Linking(p.pc))
  }

  lemma SteadyFamily(s: State, s': State)
    requires Family(s) && Steady(s, s')
    ensures Family(s')
  {
    forall z | 0 <= z < |s'.procs| ensures Tied(s', z) {
      assert Tied(s, z);
    }
    forall z | 0 <= z < |s'.procs| ensures Rooted(s', z) {
      assert Rooted(s, z);
    }
  }

  lemma ScanSteady(s: State, i: nat, fault: bool)
    requires i < |s.procs| && s.procs[i].pc.Scan?
    requires var k := s.procs[i].pc.k; k < |s.procs| && Wanted(s, i, s.procs[i].pc.target, k) ==>
      s.procs[k].state != ZOMBIE || fault
    ensures Steady(s, ScanStep(s, i, fault))
  {
  }

  lemma WakeSteady(s: State, i: nat)
    requires i < |s.procs| && s.procs[i].pc.Wake? && NextFits(s.procs[i].pc)
    ensures Steady(s, WakeStep(s, i))
  {
    var Wake(c, j, next) := s.procs[i].pc;
    forall z: nat, k: nat
      ensures Left(Wake(c, k, next), z) == Left(next, z) && Ending(Wake(c, k, next)) == Ending(next)
    {
    }
    hide Left, Ending;
  }

  /** Only process i has gone on in its code, and it is not ending. */
  lemma GotoSteady(s: State, s': State, i: nat)
    requires i < |s.procs| == |s'.procs| && s'.procs == s.procs[i := s'.procs[i]] && s'.initproc == s.initproc
    requires var p, p' := s.procs[i], s'.procs[i];
      && !Ending(p'.pc) && !p'.pc.Linked? && !p'.pc.StartChild? && Linking(p'.pc).None?
      && !p.pc.Embryo? && p.state != UNUSED && p'.parent == p.parent
    ensures Steady(s, s')
  {
    forall z: nat ensures !Left(s'.procs[i].pc, z) {
      LeftEnds(s'.procs[i].pc, z);
    }
    hide Left, Ending;
  }

  lemma {:induction false} LeftEnds(pc: Pc, z: nat)
    ensures Left(pc, z) ==> Ending(pc)
  {
    if pc.Wake? {
      LeftEnds(pc.next, z);
    }
  }

  lemma MutexSteady(s: State, i: nat)
    requires i < |s.procs| && Local(s, i) && Ready(s, i)
    requires var pc := s.procs[i].pc;
      pc.CreateMutex? || pc.LockMutex? || pc.WokenOnMutex? || pc.UnlockMutex? || pc.TryMutex?
    ensures Steady(s, MutexStep(s, i))
  {
    hide Steady;
    var s' := MutexStep(s, i);
    GotoSteady(s, s', i);
  }

  lemma SleepSteady(s: State, i: nat)
    requires i < |s.procs| && Local(s, i)
    requires var pc := s.procs[i].pc; pc.SleepLock? || pc.SleepRelease? || pc.SleepSet? || pc.Asleep? || pc.Woken?
    ensures Steady(s, SleepStep(s, i))
  {
    hide Steady;
    GotoSteady(s, SleepStep(s, i), i);
  }

  lemma ReparentSteady(s: State, i: nat)
    requires i < |s.procs| && s.procs[i].pc.Reparent?
    requires var k := s.procs[i].pc.k; k < |s.procs| ==> s.procs[k].parent != Some(i)
    ensures Steady(s, ReparentStep(s, i))
  {
  }

  /** A process whose slot is not in use, or that has exited, has no children. */
  lemma Childless(s: State, k: nat)
    requires Inv(s) && Family(s) && k < |s.procs| && (s.procs[k].state == UNUSED || s.procs[k].state == ZOMBIE)
    ensures forall z :: 0 <= z < |s.procs| ==> s.procs[z].parent != Some(k)
    ensures k != s.initproc
  {
    OneLocal(s, k);
    hide Inv;
    forall z | 0 <= z < |s.procs| ensures s.procs[z].parent != Some(k) {
      assert Tied(s, z);
    }
  }

  lemma FreeFamily(s: State, i: nat, fault: bool)
    requires Inv(s) && Family(s) && i < |s.procs| && s.procs[i].pc.Scan? && !fault
    requires var k := s.procs[i].pc.k; k < |s.procs| && s.procs[k].state == ZOMBIE
                                       && Wanted(s, i, s.procs[i].pc.target, k)
    ensures Family(ScanStep(s, i, fault))
  {
    var s', k := ScanStep(s, i, fault), s.procs[i].pc.k;
    OneLocal(s, i);
    Childless(s, k);
    hide Inv;
    forall z | 0 <= z < |s'.procs| ensures Tied(s', z) {
      assert Tied(s, z);
    }
    forall z | 0 <= z < |s'.procs| ensures Rooted(s', z) {
      assert Rooted(s, z);
    }
  }

  lemma AdoptFamily(s: State, i: nat)
    requires Family(s) && i < |s.procs| && s.procs[i].pc.Reparent?
    requires var k := s.procs[i].pc.k; k < |s.procs| && s.procs[k].parent == Some(i)
    ensures Family(ReparentStep(s, i))
  {
    var s' := ReparentStep(s, i);
    forall z | 0 <= z < |s'.procs| ensures Tied(s', z) {
      assert Tied(s, z);
      LeftEnds(s.procs[s.initproc].pc, z);
    }
    forall z | 0 <= z < |s'.procs| ensures Rooted(s', z) {
      assert Rooted(s, z);
    }
  }

  lemma LinkFamily(s: State, i: nat, fault: bool)
    requires Inv(s) && Family(s) && i < |s.procs| && s.procs[i].pc.LinkChild? && Ready(s, i)
    ensures Family(Proceed(s, i, fault))
  {
    var s', k := Proceed(s, i, fault), s.procs[i].pc.child;
    OneLocal(s, i);
    OneLocal(s, k);
    assert Locals(s);
    hide Inv, Locals;
    forall z | 0 <= z < |s'.procs| ensures Tied(s', z) {
      assert Tied(s, z);
    }
    forall z | 0 <= z < |s'.procs| ensures Rooted(s', z) {
      assert Rooted(s, z);
      OneLocal(s, z);
    }
  }

  lemma StartFamily(s: State, i: nat, fault: bool)
    requires Inv(s) && Family(s) && i < |s.procs| && s.procs[i].pc.StartChild? && Ready(s, i)
    ensures Family(Proceed(s, i, fault))
  {
    var s', k := Proceed(s, i, fault), s.procs[i].pc.child;
    OneLocal(s, i);
    OneLocal(s, k);
    assert Rooted(s, i);
    hide Inv;
    forall z | 0 <= z < |s'.procs| ensures Tied(s', z) {
      assert Tied(s, z);
    }
    forall z | 0 <= z < |s'.procs| ensures Rooted(s', z) {
      assert Rooted(s, z);
    }
  }

  lemma ForkRooted(s: State, i: nat, k: nat)
    requires Inv(s) && Family(s) && Enabled(s, Fork(i, k))
    ensures var s' := Next(s, Fork(i, k));
      |s'.procs| == |s.procs| && forall z {:trigger Rooted(s', z)} :: 0 <= z < |s'.procs| ==> Rooted(s', z)
  {
    var s' := Next(s, Fork(i, k));
    OneLocal(s, k);
    assert Locals(s);
    hide Inv, Locals;
    forall z | 0 <= z < |s'.procs| ensures Rooted(s', z) {
      assert Rooted(s, z);
      OneLocal(s, z);
    }
  }

  lemma ForkFamily(s: State, i: nat, k: nat)
    requires Inv(s) && Family(s) && Enabled(s, Fork(i, k))
    ensures Family(Next(s, Fork(i, k)))
  {
    var s' := Next(s, Fork(i, k));
    OneLocal(s, i);
    Childless(s, k);
    ForkRooted(s, i, k);
    hide Inv, Rooted;
    forall z | 0 <= z < |s'.procs| ensures Tied(s', z) {
      assert Tied(s, z);
    }
  }

  lemma OutsideSteady(s: State, a: Action)
    requires Enabled(s, a) && !a.Advance? && !a.Fork? && Local(s, a.i)
    ensures Steady(s, Next(s, a))
  {
  }

  lemma ExitSteady(s: State, i: nat, fault: bool)
    requires i < |s.procs| && Local(s, i)
    requires var pc := s.procs[i].pc;
      pc.Acquire? || pc.Return? || pc.Linked? || pc.ExitLock? || pc.ExitMark? || pc.ExitRelease? || pc.ExitSched?
    ensures Steady(s, Proceed(s, i, fault))
  {
    hide ScanStep, ReparentStep, WakeStep, MutexStep, SleepStep;
  }

  /** Every other step leaves parents and children as they are. */
  lemma AdvanceSteady(s: State, i: nat, fault: bool)
    requires i < |s.procs| && Local(s, i) && Ready(s, i)
    requires var pc := s.procs[i].pc; !pc.Scan? && !pc.Reparent? && !pc.LinkChild? && !pc.StartChild?
    ensures Steady(s, Proceed(s, i, fault))
  {
    hide Steady, ScanStep, ReparentStep, WakeStep, MutexStep, SleepStep;
    var pc := s.procs[i].pc;
    if pc.Wake? {
      WakeSteady(s, i);
    } else if pc.CreateMutex? || pc.LockMutex? || pc.WokenOnMutex? || pc.UnlockMutex? || pc.TryMutex? {
      MutexSteady(s, i);
    } else if pc.SleepLock? || pc.SleepRelease? || pc.SleepSet? || pc.Asleep? || pc.Woken? {
      SleepSteady(s, i);
    } else {
      ExitSteady(s, i, fault);
    }
  }

  lemma AdvanceFamily(s: State, i: nat, fault: bool)
    requires Inv(s) && Family(s) && i < |s.procs| && Ready(s, i)
    ensures Family(Proceed(s, i, fault))
  {
    OneLocal(s, i);
    hide Inv, Family, Steady, ScanStep, ReparentStep, WakeStep, MutexStep, SleepStep;
    var pc, s' := s.procs[i].pc, Proceed(s, i, fault);
    if pc.Scan? {
      if pc.k < |s.procs| && Wanted(s, i, pc.target, pc.k) && s.procs[pc.k].state == ZOMBIE && !fault {
        FreeFamily(s, i, fault);
      } else {
        ScanSteady(s, i, fault);
        SteadyFamily(s, s');
      }
    } else if pc.Reparent? {
      if pc.k < |s.procs| && s.procs[pc.k].parent == Some(i) {
        AdoptFamily(s, i);
      } else {
        ReparentSteady(s, i);
        SteadyFamily(s, s');
      }
    } else if pc.LinkChild? {
      LinkFamily(s, i, fault);
    } else if pc.StartChild? {
      StartFamily(s, i, fault);
    } else {
      AdvanceSteady(s, i, fault);
      SteadyFamily(s, s');
    }
  }

  lemma StepFamily(s: State, a: Action)
    requires Inv(s) && Family(s) && Enabled(s, a)
    ensures Family(Next(s, a))
  {
    OneLocal(s, a.i);
    hide Inv, Family, Steady, Proceed;
    if a.Advance? {
      AdvanceFamily(s, a.i, a.fault);
    } else if a.Fork? {
      ForkFamily(s, a.i, a.k);
    } else {
      OutsideSteady(s, a);
      SteadyFamily(s, Next(s, a));
    }
  }

  lemma FirstFamily(s: State)
    requires Initial(s)
    ensures Family(s)
  {
  }

  lemma {:induction false} RunFamily(ss: seq<State>, actions: seq<Action>, n: nat)
    requires Run(ss, actions) && n < |ss|
    ensures Family(ss[n])
  {
    hide Inv, Next, Enabled, Family;
    if n == 0 {
      FirstFamily(ss[0]);
    } else {
      RunFamily(ss, actions, n - 1);
      RunInv(ss, actions, n - 1);
      assert StepAt(ss, actions, n - 1);
      StepFamily(ss[n - 1], actions[n - 1]);
    }
  }

  // ---------------------------------------------------------------- theorems

  /** Every started process but init has a parent, which is itself started and has not exited, so
      that someone is left to collect it. */
  lemma ParentLives(ss: seq<State>, actions: seq<Action>, n: nat, z: nat)
    requires InRun(ss, actions, n, z) && z != ss[n].initproc
    requires ss[n].procs[z].state != UNUSED && ss[n].procs[z].state != USED
    ensures var q := ss[n].procs[z].parent;
      && q.Some? && q.value < |ss[n].procs|
      && var p := ss[n].procs[q.value]; p.state != UNUSED && p.state != USED && p.state != ZOMBIE
  {
    RunInv(ss, actions, n);
    RunFamily(ss, actions, n);
    assert Rooted(ss[n], z) && Tied(ss[n], z);
    OneLocal(ss[n], z);
    OneLocal(ss[n], ss[n].procs[z].parent.value);
  }

  /** init does not exit. */
  lemma InitLives(ss: seq<State>, actions: seq<Action>, n: nat)
    requires Run(ss, actions) && n < |ss|
    ensures ss[n].initproc < |ss[n].procs|
    ensures var p := ss[n].procs[ss[n].initproc]; p.state != UNUSED && p.state != USED && p.state != ZOMBIE
  {
    RunInv(ss, actions, n);
    RunFamily(ss, actions, n);
    OneLocal(ss[n], ss[n].initproc);
  }

  /** z keeps its parent, is given to init by it, or is freed after it has exited. */
  predicate Reparents(s: State, s': State, i: nat, z: nat)
    requires i < |s.procs| && z < |s.procs| == |s'.procs|
  {
    || s'.procs[z].parent == s.procs[z].parent
    || (s'.procs[z].parent == Some(s.initproc) && s.procs[z].parent == Some(i) && s.procs[i].pc.Reparent?)
    || (s'.procs[z].parent == None && s.procs[z].state == ZOMBIE && s'.procs[z].state == UNUSED)
  }

  lemma AdvanceParent(s: State, i: nat, fault: bool, z: nat)
    requires i < |s.procs| && z < |s.procs| && Local(s, i) && Rooted(s, i) && Ready(s, i) && s.procs[z].parent.Some?
    ensures |Proceed(s, i, fault).procs| == |s.procs| && Proceed(s, i, fault).initproc == s.initproc
    ensures Reparents(s, Proceed(s, i, fault), i, z)
  {
    hide WakeStep, MutexStep, SleepStep;
    var pc := s.procs[i].pc;
    if !pc.Scan? && !pc.Reparent? && !pc.LinkChild? && !pc.StartChild? {
      AdvanceSteady(s, i, fault);
    }
  }

  lemma NewParent(s: State, a: Action, z: nat)
    requires Inv(s) && Family(s) && Enabled(s, a) && z < |s.procs| && s.procs[z].parent.Some?
    ensures |Next(s, a).procs| == |s.procs| && Next(s, a).initproc == s.initproc && a.i < |s.procs|
    ensures Reparents(s, Next(s, a), a.i, z)
  {
    OneLocal(s, a.i);
    assert PidFits(s, z);
    assert Rooted(s, a.i);
    hide Inv, Family, Proceed;
    if a.Advance? {
      AdvanceParent(s, a.i, a.fault, z);
    }
  }

  /** A process loses its parent only to init, when the parent exits, until it is collected. */
  lemma {:induction false} ParentOrInit(ss: seq<State>, actions: seq<Action>, n: nat, l: nat, z: nat)
    requires InRun(ss, actions, n, z) && n <= l < |ss| && ss[n].procs[z].parent.Some?
    requires forall j :: n <= j <= l ==> z < |ss[j].procs| && ss[j].procs[z].state != UNUSED
    ensures ss[l].initproc == ss[n].initproc
    ensures ss[l].procs[z].parent == ss[n].procs[z].parent || ss[l].procs[z].parent == Some(ss[l].initproc)
  {
    hide Inv, Family, Next, Enabled;
    if l > n {
      ParentOrInit(ss, actions, n, l - 1, z);
      RunStep(ss, actions, l - 1, z);
      RunFamily(ss, actions, l - 1);
      NewParent(ss[l - 1], actions[l - 1], z);
    }
  }

  /** Once the parent of z has exited, z has init as its parent from then on, until it is collected. */
  lemma Adopted(ss: seq<State>, actions: seq<Action>, n: nat, m: nat, l: nat, z: nat)
    requires InRun(ss, actions, n, z) && n <= m <= l < |ss| && ss[n].procs[z].parent.Some?
    requires forall j :: n <= j <= l ==> z < |ss[j].procs| && ss[j].procs[z].state != UNUSED
    requires var q := ss[n].procs[z].parent.value;
      q < |ss[m].procs| && (ss[m].procs[q].state == ZOMBIE || ss[m].procs[q].state == UNUSED)
    ensures ss[l].procs[z].parent == Some(ss[l].initproc)
  {
    hide Inv, Family, Next, Enabled;
    ParentOrInit(ss, actions, n, m, z);
    RunInv(ss, actions, m);
    RunFamily(ss, actions, m);
    Childless(ss[m], ss[n].procs[z].parent.value);
    ParentOrInit(ss, actions, m, l, z);
  }

  // ---------------------------------------------------------------- fork

  lemma NextPids(s: State, a: Action)
    requires Enabled(s, a)
    ensures Next(s, a).nextpid >= s.nextpid
    ensures a.Fork? ==> a.k < |s.procs| == |Next(s, a).procs|
    ensures a.Fork? ==> Next(s, a).nextpid == s.nextpid + 1 && (a.k != a.i ==> Next(s, a).procs[a.k].pid == s.nextpid)
  {
  }

  lemma {:induction false} PidsGrow(ss: seq<State>, actions: seq<Action>, m: nat, n: nat)
    requires Run(ss, actions) && m <= n < |ss|
    ensures ss[m].nextpid <= ss[n].nextpid
  {
    hide Next, Enabled, Initial;
    if m < n {
      PidsGrow(ss, actions, m, n - 1);
      assert StepAt(ss, actions, n - 1);
      NextPids(ss[n - 1], actions[n - 1]);
    }
  }

  /** A new process gets a pid that no process has had before, so that a pid names one process for
      the whole run. */
  lemma FreshPid(ss: seq<State>, actions: seq<Action>, m: nat, n: nat, x: nat)
    requires InRun(ss, actions, m, x) && m <= n < |actions| && actions[n].Fork?
    ensures actions[n].k < |ss[n].procs| == |ss[n + 1].procs| && ss[n].procs[actions[n].k].state == UNUSED
    ensures ss[n + 1].procs[actions[n].k].state == USED && ss[n + 1].procs[actions[n].k].pid > ss[m].procs[x].pid
  {
    RunInv(ss, actions, m);
    assert PidFits(ss[m], x);
    hide Inv;
    PidsGrow(ss, actions, m, n);
    assert StepAt(ss, actions, n);
    NextPids(ss[n], actions[n]);
  }

  /** When fork is done, the child is ready to run and its parent is the caller. */
  lemma ForkDone(ss: seq<State>, actions: seq<Action>, n: nat, i: nat)
    requires InRun(ss, actions, n, i) && n < |actions| && i < |ss[n + 1].procs|
    requires ss[n].procs[i].pc.StartChild? && actions[n].Advance? && actions[n].i == i
    ensures var k := ss[n].procs[i].pc.child;
      && k < |ss[n].procs| == |ss[n + 1].procs| && k != i && ss[n].procs[k].state == USED
      && ss[n + 1].procs[k].state == RUNNABLE && ss[n + 1].procs[k].parent == Some(i)
      && ss[n + 1].procs[k].pid == ss[n].procs[k].pid && ss[n + 1].procs[i].pc == User
  {
    RunStep(ss, actions, n, i);
    RunFamily(ss, actions, n);
    assert Rooted(ss[n], i);
    OneLocal(ss[n], i);
    OneLocal(ss[n], ss[n].procs[i].pc.child);
    hide Inv, Family, ScanStep, ReparentStep, WakeStep, MutexStep, SleepStep;
  }
}
