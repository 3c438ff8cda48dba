/** kkill of kernel/proc.c against the sleep of kwait and kwaitpid, over every run of the
    sleep/wakeup machine: when a killed process sleeps all the same. */
module KillResults {
  import opened Options
  import opened SleepResults
  import opened SleepTheorems
  import opened SleepWakeup

  /** Past the test of killed in kwait or kwaitpid, and not woken since. */
  predicate Napping(p: Proc) {
    && (p.pc.SleepLock? || p.pc.SleepRelease? || p.pc.SleepSet? || (p.pc.Asleep? && p.state == SLEEPING))
    && p.pc.why.ForChild?
  }

  /** kill finds its way to everyone but those who have made their test and do not hold their own
      lock yet. */
  lemma KillStep(s: State, a: Action, i: nat)
    requires Inv(s) && Enabled(s, a) && i < |s.procs| == |Next(s, a).procs|
    requires Napping(Next(s, a).procs[i]) && Next(s, a).procs[i].killed
    ensures Napping(s.procs[i]) && s.procs[i].pc.why == Next(s, a).procs[i].pc.why
    ensures s.procs[i].killed || (a == Kill(i) && s.procs[i].pc.SleepLock?)
  {
    hide Next, Enabled, Inv, Progress;
    if a.i == i {
      OwnNap(s, a);
    } else {
      OthersStay(s, a, i);
    }
  }

  lemma OwnNap(s: State, a: Action)
    requires Inv(s) && Enabled(s, a) && |s.procs| == |Next(s, a).procs|
    requires Napping(Next(s, a).procs[a.i]) && Next(s, a).procs[a.i].killed
    ensures Napping(s.procs[a.i]) && s.procs[a.i].pc.why == Next(s, a).procs[a.i].pc.why
    ensures s.procs[a.i].killed || (a == Kill(a.i) && s.procs[a.i].pc.SleepLock?)
  {
    OneLocal(s, a.i);
    OwnCall(s, a);
    hide Inv, Proceed;
    if a.Advance? {
      AdvanceNap(s, a.i, a.fault);
    }
  }

  /** To the test and then to sleep: a process that goes on there has not been killed before. */
  lemma AdvanceNap(s: State, i: nat, fault: bool)
    requires i < |s.procs| == |Proceed(s, i, fault).procs| && Local(s, i) && Ready(s, i)
    requires SameCall(s.procs[i], Proceed(s, i, fault).procs[i]) && Napping(Proceed(s, i, fault).procs[i])
    ensures Proceed(s, i, fault).procs[i].killed ==>
      Napping(s.procs[i]) && s.procs[i].killed && s.procs[i].pc.why == Proceed(s, i, fault).procs[i].pc.why
  {
    hide MutexStep, ReparentStep, WakeStep;
    assert s.procs[i].pc.Wake? ==> CallOf(s.procs[i].pc) == CallOf(s.procs[i].pc.next);
  }

  /** A killed process sleeps in kwait only if it was killed between its test of killed and its
      taking of its own lock in sleep. */
  lemma {:induction false} KilledAsleep(ss: seq<State>, actions: seq<Action>, n: nat, i: nat) returns (m: nat)
    requires InRun(ss, actions, n, i) && ss[n].procs[i].killed && Napping(ss[n].procs[i])
    ensures m < n && actions[m] == Kill(i) && i < |ss[m].procs|
    ensures ss[m].procs[i].pc == SleepLock(ss[n].procs[i].pc.why)
    ensures forall j :: m <= j <= n ==> i < |ss[j].procs| && Napping(ss[j].procs[i])
  {
    hide Next, Enabled, Inv;
    Sizes(ss, actions, n);
    if n > 0 {
      Sizes(ss, actions, n - 1);
      RunStep(ss, actions, n - 1, i);
      KillStep(ss[n - 1], actions[n - 1], i);
      if ss[n - 1].procs[i].killed {
        m := KilledAsleep(ss, actions, n - 1, i);
      } else {
        m := n - 1;
      }
    }
  }

  /** The process was killed at step m, past its test, and has not been woken since. */
  ghost predicate MissedAt(ss: seq<State>, actions: seq<Action>, m: nat, n: nat, i: nat) {
    && |ss| == |actions| + 1 && m < n < |ss| && actions[m] == Kill(i)
    && (forall j :: m <= j <= n ==> i < |ss[j].procs| && Napping(ss[j].procs[i]))
    && ss[m].procs[i].pc == SleepLock(ss[n].procs[i].pc.why)
  }

  lemma StillKilled(s: State, a: Action, i: nat)
    requires Inv(s) && Enabled(s, a) && i < |s.procs| == |Next(s, a).procs| && Napping(Next(s, a).procs[i])
    requires s.procs[i].killed || a == Kill(i)
    ensures Next(s, a).procs[i].killed
  {
    if a.i != i {
      OthersStay(s, a, i);
    }
    OneLocal(s, a.i);
    hide Inv, Proceed;
    if a.Advance? && a.i == i {
      AdvanceKilled(s, i, a.fault);
    }
  }

  lemma AdvanceKilled(s: State, i: nat, fault: bool)
    requires i < |s.procs| == |Proceed(s, i, fault).procs| && Local(s, i) && Making(s, i) && Ready(s, i)
    requires s.procs[i].killed
    ensures Proceed(s, i, fault).procs[i].killed
  {
  }

  /** A process that sleeps in kwait, or is past its test and about to, has been killed exactly if the
      kill came between its test of killed and its taking of its own lock in sleep. */
  lemma {:induction false} KilledExactly(ss: seq<State>, actions: seq<Action>, n: nat, i: nat)
    requires InRun(ss, actions, n, i) && Napping(ss[n].procs[i])
    ensures ss[n].procs[i].killed <==> exists m :: MissedAt(ss, actions, m, n, i)
  {
    hide Inv, Next, Enabled;
    if ss[n].procs[i].killed {
      var m := KilledAsleep(ss, actions, n, i);
      assert MissedAt(ss, actions, m, n, i);
    } else if m :| MissedAt(ss, actions, m, n, i) {
      StaysKilled(ss, actions, m, n, i);
      assert false;
    }
  }

  lemma {:induction false} StaysKilled(ss: seq<State>, actions: seq<Action>, m: nat, n: nat, i: nat)
    requires Run(ss, actions) && m < n < |ss| && actions[m] == Kill(i)
    requires forall j :: m <= j <= n ==> i < |ss[j].procs| && Napping(ss[j].procs[i])
    ensures ss[n].procs[i].killed
  {
    hide Inv, Next, Enabled;
    RunStep(ss, actions, n - 1, i);
    if m < n - 1 {
      StaysKilled(ss, actions, m, n - 1, i);
    }
    StillKilled(ss[n - 1], actions[n - 1], i);
  }

  lemma Extend(ss: seq<State>, actions: seq<Action>, a: Action, s: State)
    requires Run(ss, actions) && Enabled(ss[|ss| - 1], a) && s == Next(ss[|ss| - 1], a)
    ensures Run(ss + [s], actions + [a])
  {
    hide Next, Enabled, Initial;
    var ss', actions' := ss + [s], actions + [a];
    forall n | 0 <= n < |actions'| ensures StepAt(ss', actions', n) {
      if n < |actions| {
        assert StepAt(ss, actions, n);
      }
    }
  }

  /** init, in slot 0 of two and holding wait_lock or not, at pc; and its child, if it has one. */
  function Pair(held: bool, killed: bool, pc: Pc, child: Proc, nextpid: nat): State {
    State([Proc(RUNNING, NoChan, killed, 1, None, 0, HoldsOwn(pc), pc), child],
          if held then Some(0) else None, [], 0, nextpid)
  }

  ghost predicate EndsIn(ss: seq<State>, actions: seq<Action>, s: State) {
    Run(ss, actions) && ss[|ss| - 1] == s
  }

  ghost predicate Steps(s: State, a: Action, s': State) {
    Enabled(s, a) && s' == Next(s, a)
  }

  lemma OneMore(ss: seq<State>, actions: seq<Action>, s: State, a: Action, s': State)
    returns (ss': seq<State>, actions': seq<Action>)
    requires EndsIn(ss, actions, s) && Steps(s, a, s')
    ensures EndsIn(ss', actions', s')
  {
    Extend(ss, actions, a, s');
    return ss + [s'], actions + [a];
  }

  /** A child of init, with parent or not, before it is started, and after. */
  function Kid(linked: bool, started: bool): Proc {
    Proc(if started then RUNNABLE else USED, NoChan, false, 2, if linked then Some(0) else None, 0, false,
         if started then User else Embryo(0))
  }

  lemma Boots() returns (ss: seq<State>, actions: seq<Action>)
    ensures EndsIn(ss, actions, Pair(false, false, User, FREED, 2))
  {
    var s0 := State([FREED.(state := RUNNABLE, pid := 1, pc := User), FREED], None, [], 0, 2);
    ss, actions := [s0], [];
    assert Steps(s0, Dispatch(0), Pair(false, false, User, FREED, 2));
    ss, actions := OneMore(ss, actions, s0, Dispatch(0), Pair(false, false, User, FREED, 2));
  }

  lemma ForkSteps()
    ensures Steps(Pair(false, false, User, FREED, 2), Fork(0, 1),
                  Pair(false, false, Acquire(Link(1)), Kid(false, false), 3))
    ensures Steps(Pair(false, false, Acquire(Link(1)), Kid(false, false), 3), Advance(0, false),
                  Pair(true, false, LinkChild(1), Kid(false, false), 3))
  {
  }

  lemma LinkSteps()
    ensures Steps(Pair(true, false, LinkChild(1), Kid(false, false), 3), Advance(0, false),
                  Pair(true, false, Linked(1), Kid(true, false), 3))
    ensures Steps(Pair(true, false, Linked(1), Kid(true, false), 3), Advance(0, false),
                  Pair(false, false, StartChild(1), Kid(true, false), 3))
  {
  }

  lemma StartSteps()
    ensures Steps(Pair(false, false, StartChild(1), Kid(true, false), 3), Advance(0, false),
                  Pair(false, false, User, Kid(true, true), 3))
  {
  }

  lemma WaitSteps(c: Proc)
    requires c == Kid(true, true)
    ensures Steps(Pair(false, false, User, c, 3), Call(0, Wait(None)), Pair(false, false, Acquire(Wait(None)), c, 3))
    ensures Steps(Pair(false, false, Acquire(Wait(None)), c, 3), Advance(0, false),
                  Pair(true, false, Scan(None, 0, false), c, 3))
    ensures Steps(Pair(true, false, Scan(None, 0, false), c, 3), Advance(0, false),
                  Pair(true, false, Scan(None, 1, false), c, 3))
  {
  }

  lemma ScanSteps(c: Proc)
    requires c == Kid(true, true)
    ensures Steps(Pair(true, false, Scan(None, 1, false), c, 3), Advance(0, false),
                  Pair(true, false, Scan(None, 2, true), c, 3))
    ensures Steps(Pair(true, false, Scan(None, 2, true), c, 3), Advance(0, false),
                  Pair(true, false, SleepLock(ForChild(None)), c, 3))
  {
  }

  lemma KillSteps(c: Proc)
    requires c == Kid(true, true)
    ensures Steps(Pair(true, false, SleepLock(ForChild(None)), c, 3), Kill(0),
                  Pair(true, true, SleepLock(ForChild(None)), c, 3))
    ensures Steps(Pair(true, true, SleepLock(ForChild(None)), c, 3), Advance(0, false),
                  Pair(true, true, SleepRelease(ForChild(None)), c, 3))
    ensures Steps(Pair(true, true, SleepRelease(ForChild(None)), c, 3), Advance(0, false),
                  Pair(false, true, SleepSet(ForChild(None)), c, 3))
  {
  }

  lemma InitForks() returns (ss: seq<State>, actions: seq<Action>)
    ensures EndsIn(ss, actions, Pair(false, false, User, Kid(true, true), 3))
  {
    ForkSteps();
    LinkSteps();
    StartSteps();
    hide *;
    var a, b := Kid(false, false), Kid(true, false);
    ss, actions := Boots();
    ss, actions := OneMore(ss, actions, Pair(false, false, User, FREED, 2), Fork(0, 1),
                           Pair(false, false, Acquire(Link(1)), a, 3));
    ss, actions := OneMore(ss, actions, Pair(false, false, Acquire(Link(1)), a, 3), Advance(0, false),
                           Pair(true, false, LinkChild(1), a, 3));
    ss, actions := OneMore(ss, actions, Pair(true, false, LinkChild(1), a, 3), Advance(0, false),
                           Pair(true, false, Linked(1), b, 3));
    ss, actions := OneMore(ss, actions, Pair(true, false, Linked(1), b, 3), Advance(0, false),
                           Pair(false, false, StartChild(1), b, 3));
    ss, actions := OneMore(ss, actions, Pair(false, false, StartChild(1), b, 3), Advance(0, false),
                           Pair(false, false, User, Kid(true, true), 3));
  }

  lemma InitWaits() returns (ss: seq<State>, actions: seq<Action>)
    ensures EndsIn(ss, actions, Pair(true, false, SleepLock(ForChild(None)), Kid(true, true), 3))
  {
    var c := Kid(true, true);
    WaitSteps(c);
    ScanSteps(c);
    hide *;
    ss, actions := InitForks();
    ss, actions := OneMore(ss, actions, Pair(false, false, User, c, 3), Call(0, Wait(None)),
                           Pair(false, false, Acquire(Wait(None)), c, 3));
    ss, actions := OneMore(ss, actions, Pair(false, false, Acquire(Wait(None)), c, 3), Advance(0, false),
                           Pair(true, false, Scan(None, 0, false), c, 3));
    ss, actions := OneMore(ss, actions, Pair(true, false, Scan(None, 0, false), c, 3), Advance(0, false),
                           Pair(true, false, Scan(None, 1, false), c, 3));
    ss, actions := OneMore(ss, actions, Pair(true, false, Scan(None, 1, false), c, 3), Advance(0, false),
                           Pair(true, false, Scan(None, 2, true), c, 3));
    ss, actions := OneMore(ss, actions, Pair(true, false, Scan(None, 2, true), c, 3), Advance(0, false),
                           Pair(true, false, SleepLock(ForChild(None)), c, 3));
  }

  /** It does happen: init, killed at that moment, goes to sleep in kwait all the same. */
  lemma KillCanMiss() returns (ss: seq<State>, actions: seq<Action>)
    ensures Run(ss, actions) && |ss[|actions|].procs| == 2
    ensures var p := ss[|actions|].procs[0]; p.killed && p.state == SLEEPING && p.pc == Asleep(ForChild(None))
  {
    var c := Kid(true, true);
    ss, actions := KilledInTime(c);
    var s := Pair(false, true, SleepSet(ForChild(None)), c, 3);
    var s' := s.(procs := [Proc(SLEEPING, OnProc(0), true, 1, None, 0, false, Asleep(ForChild(None))), c]);
    assert Steps(s, Advance(0, false), s');
    ss, actions := OneMore(ss, actions, s, Advance(0, false), s');
  }

  lemma KilledInTime(c: Proc) returns (ss: seq<State>, actions: seq<Action>)
    requires c == Kid(true, true)
    ensures EndsIn(ss, actions, Pair(false, true, SleepSet(ForChild(None)), c, 3))
  {
    KillSteps(c);
    hide *;
    ss, actions := InitWaits();
    ss, actions := OneMore(ss, actions, Pair(true, false, SleepLock(ForChild(None)), c, 3), Kill(0),
                           Pair(true, true, SleepLock(ForChild(None)), c, 3));
    ss, actions := OneMore(ss, actions, Pair(true, true, SleepLock(ForChild(None)), c, 3), Advance(0, false),
                           Pair(true, true, SleepRelease(ForChild(None)), c, 3));
    ss, actions := OneMore(ss, actions, Pair(true, true, SleepRelease(ForChild(None)), c, 3), Advance(0, false),
                           Pair(false, true, SleepSet(ForChild(None)), c, 3));
  }
}
