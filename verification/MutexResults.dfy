/** The mutexes of kernel/sysproc.c exclude, over every run of the sleep/wakeup machine.  A process
    holds a mutex from the return of a lock or trylock with 0 to the return of its unlock with 0. */
module MutexResults {
  import opened Options
  import opened SleepResults
  import opened SleepTheorems
  import opened SleepWakeup

  /** The pids of the processes that hold mutex id in state n. */
  ghost function Holders(ss: seq<State>, actions: seq<Action>, n: nat, id: nat): set<int>
    requires |ss| == |actions| + 1 && n < |ss|
  {
    if n == 0 then {} else After(ss[n - 1], actions[n - 1], id, Holders(ss, actions, n - 1, id))
  }

  /** Who holds the mutex after a step, if h did before. */
  ghost function After(s: State, a: Action, id: nat, h: set<int>): set<int> {
    if a.Advance? && a.i < |s.procs| && s.procs[a.i].pc.Return? && s.procs[a.i].pc.r == 0 then
      var p := s.procs[a.i];
      if p.pc.call == Lock(id) || p.pc.call == Trylock(id) then h + {p.pid}
      else if p.pc.call == Unlock(id) then h - {p.pid}
      else h
    else h
  }

  // ---------------------------------------------------------------- the table agrees with the holders

  /** About to return 0 from locking the mutex. */
  predicate Takes(pc: Pc, id: nat) {
    pc.Return? && pc.r == 0 && (pc.call == Lock(id) || pc.call == Trylock(id))
  }

  /** About to return 0 from unlocking it. */
  predicate Gives(pc: Pc, id: nat) {
    (pc.Return? && pc.r == 0 && pc.call == Unlock(id)) || (pc.Wake? && Gives(pc.next, id))
  }

  ghost predicate Agree(s: State, h: set<int>, id: nat)
    requires id < |s.mutexes|
  {
    var m := s.mutexes[id];
    if s.waitLock.Some? && s.waitLock.value < |s.procs| && Takes(s.procs[s.waitLock.value].pc, id) then
      m.used && m.locked && m.owner == s.procs[s.waitLock.value].pid && h == {}
    else if s.waitLock.Some? && s.waitLock.value < |s.procs| && Gives(s.procs[s.waitLock.value].pc, id) then
      m.used && !m.locked && h == {s.procs[s.waitLock.value].pid}
    else
      h == if m.used && m.locked then {m.owner} else {}
  }

  /** Nothing that matters for the mutex has changed. */
  lemma AgreeKept(s: State, s': State, h: set<int>, id: nat)
    requires id < |s.mutexes| == |s'.mutexes| && s'.mutexes[id] == s.mutexes[id] && Agree(s, h, id)
    requires s.waitLock.Some? ==>
      var q := s.waitLock.value;
      && q < |s.procs| == |s'.procs| && s'.procs[q].pid == s.procs[q].pid
      && Takes(s'.procs[q].pc, id) == Takes(s.procs[q].pc, id) && Gives(s'.procs[q].pc, id) == Gives(s.procs[q].pc, id)
    requires s'.waitLock == s.waitLock
    ensures Agree(s', h, id)
  {
  }

  /** wait_lock changes hands while the mutex is neither being taken nor given up. */
  lemma AgreeIdle(s: State, s': State, h: set<int>, id: nat, i: nat)
    requires id < |s.mutexes| == |s'.mutexes| && s'.mutexes[id] == s.mutexes[id] && Agree(s, h, id)
    requires i < |s.procs| == |s'.procs|
    requires s.waitLock.Some? ==> s.waitLock.value == i && !Takes(s.procs[i].pc, id) && !Gives(s.procs[i].pc, id)
    requires s'.waitLock.Some? ==> s'.waitLock.value == i && !Takes(s'.procs[i].pc, id) && !Gives(s'.procs[i].pc, id)
    ensures Agree(s', h, id)
  {
  }

  /** A step of a process that does not hold wait_lock. */
  lemma AgreeOther(s: State, a: Action, h: set<int>, id: nat)
    requires Inv(s) && Enabled(s, a) && id < |s.mutexes| && Agree(s, h, id) && s.waitLock != Some(a.i)
    ensures |Next(s, a).mutexes| == |s.mutexes| && Agree(Next(s, a), h, id) && After(s, a, id, h) == h
  {
    var s' := Next(s, a);
    OneLocal(s, a.i);
    HolderInRange(s);
    OtherLock(s, a);
    StepKeeps(s, a);
    OneLocal(s', if s.waitLock.Some? then s.waitLock.value else a.i);
    hide Inv, Next, Enabled, Agree;
    if s.waitLock.Some? {
      OthersStay(s, a, s.waitLock.value);
      AgreeKept(s, s', h, id);
    } else {
      AgreeIdle(s, s', h, id, a.i);
    }
  }

  lemma OtherLock(s: State, a: Action)
    requires Inv(s) && Enabled(s, a) && s.waitLock != Some(a.i)
    ensures var s' := Next(s, a);
      && s'.mutexes == s.mutexes && |s'.procs| == |s.procs| && !s.procs[a.i].pc.Return?
      && (s'.waitLock == s.waitLock || (s.waitLock.None? && s'.waitLock == Some(a.i)))
      && (s.waitLock.Some? ==> s'.waitLock == s.waitLock)
      && (s'.waitLock == Some(a.i) ==> !s'.procs[a.i].pc.Return? && !s'.procs[a.i].pc.Wake?)
  {
    OneLocal(s, a.i);
    hide Inv, ScanStep, ReparentStep, WakeStep, MutexStep;
  }

  lemma ReturnAgree(s: State, i: nat, fault: bool, h: set<int>, id: nat)
    requires i < |s.procs| && s.waitLock == Some(i) && s.procs[i].pc.Return? && id < |s.mutexes| && Agree(s, h, id)
    ensures Agree(Proceed(s, i, fault), After(s, Advance(i, fault), id, h), id)
  {
    hide ScanStep, ReparentStep, WakeStep, MutexStep, SleepStep;
    var pid := s.procs[i].pid;
    assert {} + {pid} == {pid} && {pid} - {pid} == {};
  }

  lemma WakeAgree(s: State, i: nat, h: set<int>, id: nat)
    requires i < |s.procs| && s.waitLock == Some(i) && s.procs[i].pc.Wake? && NextFits(s.procs[i].pc)
    requires id < |s.mutexes| && Agree(s, h, id)
    ensures |WakeStep(s, i).mutexes| == |s.mutexes| && Agree(WakeStep(s, i), h, id)
  {
    AgreeKept(s, WakeStep(s, i), h, id);
  }

  lemma MutexAgree(s: State, i: nat, h: set<int>, id: nat)
    requires i < |s.procs| && s.waitLock == Some(i) && Ready(s, i) && id < |s.mutexes| && Agree(s, h, id)
    requires var pc := s.procs[i].pc;
      pc.CreateMutex? || pc.LockMutex? || pc.WokenOnMutex? || pc.UnlockMutex? || pc.TryMutex?
    ensures |MutexStep(s, i).mutexes| == |s.mutexes| && Agree(MutexStep(s, i), h, id)
  {
    var pc := s.procs[i].pc;
    if pc.UnlockMutex? {
      GivesWhich(pc.id, id);
    }
  }

  lemma GivesWhich(x: nat, id: nat)
    ensures Gives(Wake(OnMutex(x), 0, Return(Unlock(x), 0, None)), id) == (x == id)
  {
    assert Gives(Return(Unlock(x), 0, None), id) == (x == id);
  }

  lemma ScanAgree(s: State, i: nat, fault: bool, h: set<int>, id: nat)
    requires i < |s.procs| && s.waitLock == Some(i) && s.procs[i].pc.Scan? && id < |s.mutexes| && Agree(s, h, id)
    ensures |ScanStep(s, i, fault).mutexes| == |s.mutexes| && Agree(ScanStep(s, i, fault), h, id)
  {
    AgreeIdle(s, ScanStep(s, i, fault), h, id, i);
  }

  lemma ReparentAgree(s: State, i: nat, h: set<int>, id: nat)
    requires i < |s.procs| && s.waitLock == Some(i) && s.procs[i].pc.Reparent? && id < |s.mutexes| && Agree(s, h, id)
    ensures |ReparentStep(s, i).mutexes| == |s.mutexes| && Agree(ReparentStep(s, i), h, id)
  {
    AgreeIdle(s, ReparentStep(s, i), h, id, i);
  }

  /** A step of the holder of wait_lock. */
  lemma AdvanceAgree(s: State, i: nat, fault: bool, h: set<int>, id: nat)
    requires i < |s.procs| && Local(s, i) && Ready(s, i) && s.waitLock == Some(i) && id < |s.mutexes| && Agree(s, h, id)
    ensures |Proceed(s, i, fault).mutexes| == |s.mutexes|
    ensures Agree(Proceed(s, i, fault), After(s, Advance(i, fault), id, h), id)
  {
    hide ScanStep, ReparentStep, WakeStep, MutexStep, Agree;
    var pc := s.procs[i].pc;
    if pc.Scan? {
      ScanAgree(s, i, fault, h, id);
    } else if pc.Reparent? {
      ReparentAgree(s, i, h, id);
    } else if pc.Wake? {
      WakeAgree(s, i, h, id);
    } else if pc.Return? {
      ReturnAgree(s, i, fault, h, id);
    } else if pc.CreateMutex? || pc.LockMutex? || pc.WokenOnMutex? || pc.UnlockMutex? || pc.TryMutex? {
      MutexAgree(s, i, h, id);
    } else {
      AgreeIdle(s, Proceed(s, i, fault), h, id, i);
    }
  }

  lemma StepAgrees(s: State, a: Action, h: set<int>, id: nat)
    requires Inv(s) && Enabled(s, a) && id < |s.mutexes| && Agree(s, h, id)
    ensures |Next(s, a).mutexes| == |s.mutexes| && Agree(Next(s, a), After(s, a, id, h), id)
  {
    OneLocal(s, a.i);
    hide Inv, Proceed, Agree;
    if s.waitLock != Some(a.i) {
      hide Next, Enabled;
      AgreeOther(s, a, h, id);
    } else if a.Advance? {
      AdvanceAgree(s, a.i, a.fault, h, id);
    } else {
      AgreeKept(s, Next(s, a), h, id);
    }
  }

  /** In every state of every run the table agrees with who holds what. */
  lemma {:induction false} RunAgrees(ss: seq<State>, actions: seq<Action>, n: nat, id: nat)
    requires Run(ss, actions) && n < |ss| && id < |ss[0].mutexes|
    ensures |ss[n].mutexes| == |ss[0].mutexes| && Agree(ss[n], Holders(ss, actions, n, id), id)
  {
    hide Inv, Next, Enabled, After;
    if n > 0 {
      hide Agree;
      RunAgrees(ss, actions, n - 1, id);
      RunInv(ss, actions, n - 1);
      assert StepAt(ss, actions, n - 1);
      StepAgrees(ss[n - 1], actions[n - 1], Holders(ss, actions, n - 1, id), id);
    }
  }

  lemma {:induction false} MutexSizes(ss: seq<State>, actions: seq<Action>, n: nat)
    requires Run(ss, actions) && n < |ss|
    ensures |ss[n].mutexes| == |ss[0].mutexes|
  {
    hide Inv, Next, Enabled;
    if n > 0 {
      MutexSizes(ss, actions, n - 1);
      RunInv(ss, actions, n - 1);
      assert StepAt(ss, actions, n - 1);
      MutexSize(ss[n - 1], actions[n - 1]);
    }
  }

  lemma MutexSize(s: State, a: Action)
    requires Enabled(s, a)
    ensures |Next(s, a).mutexes| == |s.mutexes|
  {
  }

  /** Process i, whose pid that is, is about to return 0 from locking the mutex. */
  ghost predicate Locking(s: State, i: nat, id: nat, pid: int) {
    && i < |s.procs| && s.procs[i].pid == pid && s.procs[i].pc.Return? && s.procs[i].pc.r == 0
    && (s.procs[i].pc.call == Lock(id) || s.procs[i].pc.call == Trylock(id))
  }

  /** A mutex has at most one holder, and a locked one names its holder as the owner, or else the
      process that is about to return from locking it, when there is no holder yet. */
  lemma OneHolder(ss: seq<State>, actions: seq<Action>, n: nat, id: nat)
    requires Run(ss, actions) && n < |ss| && id < |ss[n].mutexes|
    ensures var h, m := Holders(ss, actions, n, id), ss[n].mutexes[id];
      && (forall p, q :: p in h && q in h ==> p == q)
      && (m.used && m.locked && h != {} ==> h == {m.owner})
      && (m.used && m.locked && h == {} ==> exists i :: Locking(ss[n], i, id, m.owner))
      && (ss[n].waitLock.None? ==> h == if m.used && m.locked then {m.owner} else {})
  {
    MutexSizes(ss, actions, n);
    RunAgrees(ss, actions, n, id);
    var s := ss[n];
    if s.waitLock.Some? && s.waitLock.value < |s.procs| && Takes(s.procs[s.waitLock.value].pc, id) {
      assert Locking(s, s.waitLock.value, id, s.mutexes[id].owner);
    }
  }

  // ---------------------------------------------------------------- what the calls return

  /** Only process i has gone on, and of the mutexes at most this one has changed, to m. */
  ghost predicate Sets(s: State, s': State, i: nat, id: nat, m: Mutex) {
    && i < |s.procs| == |s'.procs| && id < |s.mutexes|
    && s' == s.(procs := s.procs[i := s.procs[i].(pc := s'.procs[i].pc)], mutexes := s.mutexes[id := m])
  }

  lemma TryDecides(s: State, i: nat, s': State)
    requires Inv(s) && i < |s.procs| == |s'.procs| && Ready(s, i) && s' == MutexStep(s, i) && s.procs[i].pc.TryMutex?
    ensures var id, m := s.procs[i].pc.id, s.mutexes[s.procs[i].pc.id];
      var free := m.used && !m.locked;
      && s'.procs[i].pc == Return(Trylock(id), if free then 0 else -1, None)
      && Sets(s, s', i, id, if free then Mutex(true, true, s.procs[i].pid) else m)
  {
    hide Inv;
  }

  /** trylock returns 0 exactly when the mutex exists and no one holds it; the caller is the owner then. */
  lemma TrylockReturns(ss: seq<State>, actions: seq<Action>, n: nat, i: nat) returns (m: nat, d: nat)
    requires InRun(ss, actions, n, i) && ss[n].procs[i].pc.Return? && ss[n].procs[i].pc.call.Trylock?
    ensures Answers(ss, actions, m, d, n, i) && ss[n].procs[i].pc.call.id < |ss[d].mutexes|
    ensures var id, r, x := ss[n].procs[i].pc.call.id, ss[n].procs[i].pc.r, ss[d].mutexes[ss[n].procs[i].pc.call.id];
      && (r == 0 || r == -1)
      && (r == 0 <==> x.used && !x.locked) && (r == 0 <==> x.used && Holders(ss, actions, d, id) == {})
      && Sets(ss[d], ss[d + 1], i, id, if r == 0 then Mutex(true, true, ss[d].procs[i].pid) else x)
  {
    hide Next, Enabled, Inv, Proceed, Ready, MutexStep, Sets;
    m, d := EveryReturn(ss, actions, n, i);
    RunStep(ss, actions, d, i);
    var fault := actions[d].fault;
    assert actions[d] == Advance(i, fault);
    Advances(ss[d], i, fault);
    TryFrom(ss[d], i, fault, ss[d + 1]);
    TryDecides(ss[d], i, ss[d + 1]);
    AtMutex(ss, actions, d, i);
  }

  lemma TryFrom(s: State, i: nat, fault: bool, s': State)
    requires Inv(s) && i < |s.procs| == |s'.procs| && Ready(s, i) && s' == Proceed(s, i, fault)
    requires !s.procs[i].pc.Return? && s'.procs[i].pc.Return? && s'.procs[i].pc.call.Trylock?
    ensures s.procs[i].pc == TryMutex(s'.procs[i].pc.call.id) && s' == MutexStep(s, i)
    ensures s.procs[i].pc.id < |s.mutexes|
  {
    OneLocal(s, i);
    AdvanceCall(s, i, fault);
    hide Inv, ScanStep, ReparentStep, MutexStep;
  }

  /** While a process looks at a mutex, the table says who holds it. */
  lemma AtMutex(ss: seq<State>, actions: seq<Action>, n: nat, i: nat)
    requires InRun(ss, actions, n, i)
    requires var pc := ss[n].procs[i].pc; (pc.TryMutex? || pc.LockMutex? || pc.UnlockMutex?) && pc.id < |ss[n].mutexes|
    ensures var id := ss[n].procs[i].pc.id;
      Holders(ss, actions, n, id)
      == if ss[n].mutexes[id].used && ss[n].mutexes[id].locked then {ss[n].mutexes[id].owner} else {}
  {
    MutexSizes(ss, actions, n);
    RunAgrees(ss, actions, n, ss[n].procs[i].pc.id);
    RunInv(ss, actions, n);
    OneLocal(ss[n], i);
  }

  lemma UnlockFrom(s: State, i: nat, fault: bool, s': State)
    requires Inv(s) && i < |s.procs| == |s'.procs| && Ready(s, i) && s' == Proceed(s, i, fault)
    requires !s.procs[i].pc.Return? && s'.procs[i].pc.Return? && s'.procs[i].pc.call.Unlock?
    ensures var pc, pc' := s.procs[i].pc, s'.procs[i].pc;
      || (pc.Wake? && pc.next == pc' && pc'.r == 0)
      || (pc == UnlockMutex(pc'.call.id) && pc'.call.id < |s.mutexes| && pc'.r == -1
          && s.procs[i].pid == s'.procs[i].pid
          && var m := s.mutexes[pc'.call.id]; !m.used || !m.locked || m.owner != s.procs[i].pid)
  {
    OneLocal(s, i);
    AdvanceCall(s, i, fault);
    hide Inv, ScanStep, ReparentStep;
  }

  /** unlock returns 0 exactly for the holder, and then leaves the mutex unlocked. */
  lemma UnlockReturns(ss: seq<State>, actions: seq<Action>, n: nat, i: nat) returns (m: nat, d: nat)
    requires InRun(ss, actions, n, i) && ss[n].procs[i].pc.Return? && ss[n].procs[i].pc.call.Unlock?
    ensures Answers(ss, actions, m, d, n, i) && ss[n].procs[i].pc.call.id < |ss[n].mutexes|
    ensures var Return(call, r, _) := ss[n].procs[i].pc;
      && (r == 0 || r == -1) && (r == 0 <==> ss[n].procs[i].pid in Holders(ss, actions, d, call.id))
      && (r == 0 ==> ss[n].mutexes[call.id].used && !ss[n].mutexes[call.id].locked)
  {
    hide Next, Enabled, Inv, Proceed, Ready, MutexStep;
    m, d := EveryReturn(ss, actions, n, i);
    var id := ss[n].procs[i].pc.call.id;
    RunStep(ss, actions, m, i);
    CalledOn(ss[m], i, ss[n].procs[i].pc.call);
    MutexSizes(ss, actions, m);
    MutexSizes(ss, actions, d);
    MutexSizes(ss, actions, n);
    RunStep(ss, actions, d, i);
    var fault := actions[d].fault;
    assert actions[d] == Advance(i, fault);
    Advances(ss[d], i, fault);
    UnlockFrom(ss[d], i, fault, ss[d + 1]);
    if ss[d].procs[i].pc.Wake? {
      GivingUp(ss, actions, d, i, id);
      GivingUp(ss, actions, n, i, id);
    } else {
      AtMutex(ss, actions, d, i);
    }
  }

  lemma CalledOn(s: State, i: nat, op: Op)
    requires Enabled(s, Call(i, op)) && (op.Lock? || op.Unlock? || op.Trylock?)
    ensures op.id < |s.mutexes|
  {
  }

  /** A process that is about to return 0 from unlock holds the mutex, which is unlocked. */
  lemma GivingUp(ss: seq<State>, actions: seq<Action>, n: nat, i: nat, id: nat)
    requires InRun(ss, actions, n, i) && Gives(ss[n].procs[i].pc, id) && id < |ss[n].mutexes|
    ensures Holders(ss, actions, n, id) == {ss[n].procs[i].pid}
    ensures ss[n].mutexes[id].used && !ss[n].mutexes[id].locked
  {
    MutexSizes(ss, actions, n);
    RunAgrees(ss, actions, n, id);
    RunInv(ss, actions, n);
    OneLocal(ss[n], i);
  }

  lemma LockFrom(s: State, i: nat, fault: bool, s': State)
    requires Inv(s) && i < |s.procs| == |s'.procs| && Ready(s, i) && s' == Proceed(s, i, fault)
    requires !s.procs[i].pc.Return? && s'.procs[i].pc.Return? && s'.procs[i].pc.call.Lock?
    requires s'.procs[i].pc.call.id < |s.mutexes|
    ensures var pc, pc', pid := s.procs[i].pc, s'.procs[i].pc, s.procs[i].pid;
      var id, x := pc'.call.id, s.mutexes[pc'.call.id];
      && (pc'.r == 0 || pc'.r == -1)
      && (pc'.r == 0 ==> pc == LockMutex(id) && x.used && !x.locked && Sets(s, s', i, id, Mutex(true, true, pid)))
      && (pc'.r == -1 ==> Sets(s, s', i, id, x))
      && (pc'.r == -1 && !s.procs[i].killed ==> pc == LockMutex(id) && (!x.used || (x.locked && x.owner == pid)))
  {
    OneLocal(s, i);
    AdvanceCall(s, i, fault);
    hide Inv, ScanStep, ReparentStep;
  }

  /** lock returns 0 only when the mutex exists and no one held it, and the caller is the owner then;
      it returns -1 only when there is no such mutex, the caller holds it, or has been killed. */
  lemma LockReturns(ss: seq<State>, actions: seq<Action>, n: nat, i: nat) returns (m: nat, d: nat)
    requires InRun(ss, actions, n, i) && ss[n].procs[i].pc.Return? && ss[n].procs[i].pc.call.Lock?
    ensures Answers(ss, actions, m, d, n, i) && ss[n].procs[i].pc.call.id < |ss[d].mutexes|
    ensures var id, r, x := ss[n].procs[i].pc.call.id, ss[n].procs[i].pc.r, ss[d].mutexes[ss[n].procs[i].pc.call.id];
      && (r == 0 || r == -1)
      && (r == 0 ==> x.used && !x.locked && Holders(ss, actions, d, id) == {})
      && (r == -1 ==> !x.used || ss[n].procs[i].pid in Holders(ss, actions, d, id) || ss[d].procs[i].killed)
      && Sets(ss[d], ss[d + 1], i, id, if r == 0 then Mutex(true, true, ss[n].procs[i].pid) else x)
  {
    hide Next, Enabled, Inv, Proceed, Ready, MutexStep, Sets;
    m, d := EveryReturn(ss, actions, n, i);
    RunStep(ss, actions, m, i);
    CalledOn(ss[m], i, ss[n].procs[i].pc.call);
    MutexSizes(ss, actions, m);
    MutexSizes(ss, actions, d);
    RunStep(ss, actions, d, i);
    var fault := actions[d].fault;
    assert actions[d] == Advance(i, fault);
    Advances(ss[d], i, fault);
    LockFrom(ss[d], i, fault, ss[d + 1]);
    if ss[d].procs[i].pc.LockMutex? {
      AtMutex(ss, actions, d, i);
    }
  }

  /** Killed while it slept for the mutex, and not back from the call. */
  predicate Doomed(p: Proc) {
    (p.pc.WokenOnMutex? && p.killed) || (p.pc.Return? && p.pc.call.Lock? && p.pc.r == -1)
  }

  lemma DoomedKept(s: State, a: Action, i: nat)
    requires Inv(s) && Enabled(s, a) && i < |s.procs| && Doomed(s.procs[i])
    ensures |Next(s, a).procs| == |s.procs| && (Doomed(Next(s, a).procs[i]) || Next(s, a).procs[i].pc.User?)
  {
    OneLocal(s, i);
    StepKeeps(s, a);
    OwnCall(s, a);
    if a.i == i {
      OwnDoomed(s, a);
    } else {
      OthersStay(s, a, i);
      OtherLock(s, a);
    }
    OneLocal(Next(s, a), i);
    hide Inv, Next, Enabled;
  }

  lemma OwnDoomed(s: State, a: Action)
    requires Enabled(s, a) && Doomed(s.procs[a.i]) && |Next(s, a).procs| == |s.procs|
    ensures Doomed(Next(s, a).procs[a.i]) || Next(s, a).procs[a.i].pc.User?
  {
    hide ScanStep, ReparentStep, WakeStep, SleepStep;
  }

  /** A process that was killed while it slept for a mutex gets -1 from that call, not the mutex. */
  lemma {:induction false} LockKilled(ss: seq<State>, actions: seq<Action>, m: nat, n: nat, i: nat)
    requires Run(ss, actions) && m <= n < |ss|
    requires forall j :: m <= j <= n ==> i < |ss[j].procs| && ss[j].procs[i].pc != User
    requires ss[m].procs[i].pc.WokenOnMutex? && ss[m].procs[i].killed
    ensures Doomed(ss[n].procs[i])
    ensures ss[n].procs[i].pc.Return? ==> ss[n].procs[i].pc.r == -1
  {
    hide Inv, Next, Enabled;
    if m < n {
      LockKilled(ss, actions, m, n - 1, i);
      RunStep(ss, actions, n - 1, i);
      DoomedKept(ss[n - 1], actions[n - 1], i);
    }
  }

  lemma LockSleepFrom(s: State, a: Action, i: nat)
    requires Inv(s) && Enabled(s, a) && i < |s.procs| == |Next(s, a).procs| && !s.procs[i].pc.SleepLock?
    requires Next(s, a).procs[i].pc.SleepLock? && Next(s, a).procs[i].pc.why.ForMutex?
    ensures var id := Next(s, a).procs[i].pc.why.id;
      && s.procs[i].pc == LockMutex(id) && id < |s.mutexes|
      && s.mutexes[id].used && s.mutexes[id].locked && s.mutexes[id].owner != s.procs[i].pid
  {
    hide Next, Enabled, Inv;
    if a.i == i {
      OwnLockSleep(s, a);
    } else {
      OthersStay(s, a, i);
    }
  }

  lemma OwnLockSleep(s: State, a: Action)
    requires Inv(s) && Enabled(s, a) && |s.procs| == |Next(s, a).procs| && !s.procs[a.i].pc.SleepLock?
    requires Next(s, a).procs[a.i].pc.SleepLock? && Next(s, a).procs[a.i].pc.why.ForMutex?
    ensures var id := Next(s, a).procs[a.i].pc.why.id;
      && s.procs[a.i].pc == LockMutex(id) && id < |s.mutexes|
      && s.mutexes[id].used && s.mutexes[id].locked && s.mutexes[id].owner != s.procs[a.i].pid
  {
    OneLocal(s, a.i);
    OwnCall(s, a);
    hide Inv, ScanStep, ReparentStep, WakeStep;
  }

  /** lock goes to sleep only while another process holds the mutex. */
  lemma LockSleeps(ss: seq<State>, actions: seq<Action>, n: nat, i: nat)
    requires InRun(ss, actions, n, i) && n < |actions| && i < |ss[n + 1].procs|
    requires !ss[n].procs[i].pc.SleepLock? && ss[n + 1].procs[i].pc.SleepLock? && ss[n + 1].procs[i].pc.why.ForMutex?
    ensures var h := Holders(ss, actions, n, ss[n + 1].procs[i].pc.why.id); h != {} && ss[n].procs[i].pid !in h
  {
    hide Next, Enabled, Inv;
    RunStep(ss, actions, n, i);
    LockSleepFrom(ss[n], actions[n], i);
    AtMutex(ss, actions, n, i);
  }

  lemma CreateFrom(s: State, i: nat, fault: bool, s': State)
    requires Inv(s) && i < |s.procs| == |s'.procs| && Ready(s, i) && s' == Proceed(s, i, fault)
    requires !s.procs[i].pc.Return? && s'.procs[i].pc.Return? && s'.procs[i].pc.call.Create?
    ensures s.procs[i].pc.CreateMutex? && s' == MutexStep(s, i)
  {
    OneLocal(s, i);
    AdvanceCall(s, i, fault);
    hide Inv, ScanStep, ReparentStep, MutexStep;
  }

  lemma CreateDecides(s: State, i: nat, s': State)
    requires i < |s.procs| == |s'.procs| && s' == MutexStep(s, i) && s.procs[i].pc.CreateMutex?
    ensures s'.procs[i].pc.Return?
    ensures var r := s'.procs[i].pc.r;
      && (r == -1 ==> s'.mutexes == s.mutexes && forall j :: 0 <= j < |s.mutexes| ==> s.mutexes[j].used)
      && (r != -1 ==> 0 <= r < |s.mutexes| && !s.mutexes[r].used && Sets(s, s', i, r, Mutex(true, false, -1)))
      && (r != -1 ==> forall j :: 0 <= j < r ==> s.mutexes[j].used)
  {
  }

  /** create returns the lowest mutex that is not in use, unlocked, or -1 when all are. */
  lemma CreateReturns(ss: seq<State>, actions: seq<Action>, n: nat, i: nat) returns (m: nat, d: nat)
    requires InRun(ss, actions, n, i) && ss[n].procs[i].pc.Return? && ss[n].procs[i].pc.call.Create?
    ensures Answers(ss, actions, m, d, n, i)
    ensures var s, s', r := ss[d], ss[d + 1], ss[n].procs[i].pc.r;
      && (r == -1 ==> s'.mutexes == s.mutexes && forall j :: 0 <= j < |s.mutexes| ==> s.mutexes[j].used)
      && (r != -1 ==> 0 <= r < |s.mutexes| && !s.mutexes[r].used && Sets(s, s', i, r, Mutex(true, false, -1)))
      && (r != -1 ==> forall j :: 0 <= j < r ==> s.mutexes[j].used)
  {
    hide Next, Enabled, Inv, Proceed, Ready, MutexStep, Sets;
    m, d := EveryReturn(ss, actions, n, i);
    RunStep(ss, actions, d, i);
    var fault := actions[d].fault;
    assert actions[d] == Advance(i, fault);
    Advances(ss[d], i, fault);
    CreateFrom(ss[d], i, fault, ss[d + 1]);
    CreateDecides(ss[d], i, ss[d + 1]);
  }

  lemma ChangeFrom(s: State, a: Action, id: nat, s': State)
    requires Inv(s) && Enabled(s, a) && s' == Next(s, a) && id < |s.mutexes| == |s'.mutexes|
    requires s'.mutexes[id] != s.mutexes[id]
    ensures a.i < |s.procs| == |s'.procs|
    ensures var pc, pc', pid, x := s.procs[a.i].pc, s'.procs[a.i].pc, s.procs[a.i].pid, s.mutexes[id];
      || (pc == CreateMutex && pc' == Return(Create, id, None) && !x.used && s'.mutexes[id] == Mutex(true, false, -1))
      || (pc == UnlockMutex(id) && x == Mutex(true, true, pid) && s'.mutexes[id] == Mutex(true, false, -1))
      || ((pc == LockMutex(id) || pc == TryMutex(id)) && x.used && !x.locked
          && s'.mutexes[id] == Mutex(true, true, pid))
  {
    hide Inv;
  }

  /** A mutex is changed only by the call that creates it, by the lock or trylock of a process while
      no one holds it, and by the unlock of its holder. */
  lemma OnlyChanges(ss: seq<State>, actions: seq<Action>, n: nat, id: nat)
    requires Run(ss, actions) && n < |actions| && id < |ss[n].mutexes| == |ss[n + 1].mutexes|
    requires ss[n + 1].mutexes[id] != ss[n].mutexes[id]
    ensures actions[n].i < |ss[n].procs| == |ss[n + 1].procs|
    ensures var i, x, x', h := actions[n].i, ss[n].mutexes[id], ss[n + 1].mutexes[id], Holders(ss, actions, n, id);
      var pid := ss[n].procs[i].pid;
      || (!x.used && x' == Mutex(true, false, -1) && ss[n + 1].procs[i].pc == Return(Create, id, None))
      || (x.used && h == {} && x' == Mutex(true, true, pid))
      || (x.used && h == {pid} && x' == Mutex(true, false, -1))
  {
    hide Next, Enabled, Inv;
    RunInv(ss, actions, n);
    assert StepAt(ss, actions, n);
    ChangeFrom(ss[n], actions[n], id, ss[n + 1]);
    if ss[n].mutexes[id].used {
      AtMutex(ss, actions, n, actions[n].i);
    }
  }
}
