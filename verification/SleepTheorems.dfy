/** No wakeup is lost: what every step of the sleep/wakeup machine keeps. */
module SleepTheorems {
  import opened Options
  import opened SleepWakeup

  // ---------------------------------------------------------------- the invariant

  /** The process has let go of wait_lock to sleep, and has not been woken. */
  predicate Blocked(s: State, i: nat)
    requires i < |s.procs|
  {
    var p := s.procs[i];
    p.pc.SleepSet? || (p.pc.Asleep? && p.state == SLEEPING)
  }

  predicate BlockedOn(s: State, i: nat, c: Chan)
    requires i < |s.procs|
  {
    Blocked(s, i) && ChanOf(i, s.procs[i].pc.why) == c
  }

  /** The holder of wait_lock is waking the channel of i and has not come to i yet. */
  predicate Pending(s: State, i: nat)
    requires i < |s.procs| && Blocked(s, i)
  {
    && s.waitLock.Some? && s.waitLock.value < |s.procs|
    && var pc := s.procs[s.waitLock.value].pc;
       pc.Wake? && pc.chan == ChanOf(i, s.procs[i].pc.why) && pc.j <= i
  }

  predicate Zombie(s: State, i: nat, target: Option<nat>, k: nat)
    requires k < |s.procs|
  {
    Wanted(s, i, target, k) && s.procs[k].state == ZOMBIE
  }

  predicate IsLocked(s: State, id: nat) {
    id < |s.mutexes| && s.mutexes[id].used && s.mutexes[id].locked
  }

  /** A process that sleeps although child k is there to be collected is about to be woken. */
  predicate ChildOwed(s: State, i: nat, k: nat)
    requires i < |s.procs| && k < |s.procs|
  {
    Blocked(s, i) && s.procs[i].pc.why.ForChild? && Zombie(s, i, s.procs[i].pc.why.target, k) ==> Pending(s, i)
  }

  /** A process that sleeps although its mutex is free is about to be woken. */
  predicate MutexOwed(s: State, i: nat)
    requires i < |s.procs|
  {
    Blocked(s, i) && s.procs[i].pc.why.ForMutex? ==> IsLocked(s, s.procs[i].pc.why.id) || Pending(s, i)
  }

  ghost predicate Owed(s: State) {
    && (forall i, k {:trigger ChildOwed(s, i, k)} :: 0 <= i < |s.procs| && 0 <= k < |s.procs| ==> ChildOwed(s, i, k))
    && (forall i {:trigger MutexOwed(s, i)} :: 0 <= i < |s.procs| ==> MutexOwed(s, i))
  }

  /** The process that the code at pc is making. */
  function Child(pc: Pc): Option<nat> {
    match pc
    case Acquire(op) => if op.Link? then Some(op.child) else None
    case LinkChild(k) => Some(k)
    case Linked(k) => Some(k)
    case StartChild(k) => Some(k)
    case _ => None
  }

  predicate StateFits(p: Proc, i: nat) {
    match p.pc
    case Gone => p.state == UNUSED || p.state == ZOMBIE
    case Embryo(_) => p.state == USED
    case ExitRelease => p.state == ZOMBIE
    case ExitSched => p.state == ZOMBIE
    case Asleep(why) => p.state == RUNNABLE || (p.state == SLEEPING && p.chan == ChanOf(i, why))
    case User => p.state == RUNNING || p.state == RUNNABLE || (p.state == SLEEPING && p.chan.Elsewhere?)
    case Acquire(_) => p.state == RUNNING || p.state == RUNNABLE
    case StartChild(_) => p.state == RUNNING || p.state == RUNNABLE
    case _ => p.state == RUNNING
  }

  predicate NextFits(pc: Pc) {
    pc.Wake? ==> pc.next.ExitLock? || pc.next.Reparent? || (pc.next.Return? && pc.next.call.Unlock? && pc.next.r == 0)
  }

  /** Locks are held by exactly the processes whose code says so. */
  predicate Local(s: State, i: nat)
    requires i < |s.procs|
  {
    var p := s.procs[i];
    && p.locked == HoldsOwn(p.pc)
    && (s.waitLock == Some(i)) == HoldsWait(p.pc)
    && StateFits(p, i) && NextFits(p.pc)
  }

  /** A process in the making has one maker. */
  predicate Making(s: State, i: nat)
    requires i < |s.procs|
  {
    var k := Child(s.procs[i].pc);
    k.Some? ==> k.value < |s.procs| && s.procs[k.value].pc == Embryo(i)
  }

  ghost predicate Locals(s: State) {
    && (forall i {:trigger Local(s, i)} :: 0 <= i < |s.procs| ==> Local(s, i))
    && (forall i {:trigger Making(s, i)} :: 0 <= i < |s.procs| ==> Making(s, i))
    && (s.waitLock.Some? ==> s.waitLock.value < |s.procs|)
  }

  predicate PidFits(s: State, i: nat)
    requires i < |s.procs|
  {
    && s.procs[i].pid < s.nextpid && (s.procs[i].state == UNUSED ==> s.procs[i].parent == None)
    && (s.procs[i].state != UNUSED ==> s.procs[i].pid > 0)
  }

  /** Processes in use have different pids. */
  ghost predicate Pids(s: State) {
    && s.nextpid > 0 && (forall i {:trigger PidFits(s, i)} :: 0 <= i < |s.procs| ==> PidFits(s, i))
    && (forall i, k :: 0 <= i < k < |s.procs| && s.procs[i].state != UNUSED && s.procs[k].state != UNUSED ==>
          s.procs[i].pid != s.procs[k].pid)
  }

  /** No one that the walk has passed still sleeps on the channel. */
  ghost predicate Woke(s: State, c: Chan, n: nat)
    requires n <= |s.procs|
  {
    forall i :: 0 <= i < n ==> !BlockedOn(s, i, c)
  }

  ghost predicate Scanned(s: State, q: nat, target: Option<nat>, n: nat)
    requires n <= |s.procs|
  {
    forall k :: 0 <= k < n ==> !Zombie(s, q, target, k)
  }

  /** The scan remembers whether it has met a child. */
  ghost predicate Seen(s: State, q: nat, target: Option<nat>, n: nat, have: bool)
    requires n <= |s.procs|
  {
    have <==> exists k :: 0 <= k < n && Wanted(s, q, target, k)
  }

  function ParentChan(s: State, q: nat): Chan
    requires q < |s.procs|
  {
    if s.procs[q].parent.Some? then OnProc(s.procs[q].parent.value) else NoChan
  }

  /** How far the holder of wait_lock has come. */
  ghost predicate Progress(s: State, q: nat)
    requires q < |s.procs|
  {
    match s.procs[q].pc
    case Wake(c, j, next) => j <= |s.procs| && Woke(s, c, j) && (next.ExitLock? ==> c == ParentChan(s, q))
    case ExitLock(_) => Woke(s, ParentChan(s, q), |s.procs|)
    case ExitMark(_) => Woke(s, ParentChan(s, q), |s.procs|)
    case Scan(t, k, have) => k <= |s.procs| && Scanned(s, q, t, k) && Seen(s, q, t, k, have)
    case SleepLock(why) => Safe(s, q, why)
    case SleepRelease(why) => Safe(s, q, why)
    case _ => true
  }

  /** What q is about to sleep for has not happened yet. */
  ghost predicate Safe(s: State, q: nat, why: Why) {
    match why
    case ForChild(t) => Scanned(s, q, t, |s.procs|)
    case ForMutex(id) => IsLocked(s, id)
  }

  ghost predicate Holder(s: State) {
    s.waitLock.Some? && s.waitLock.value < |s.procs| ==> Progress(s, s.waitLock.value)
  }

  ghost predicate Inv(s: State) {
    Locals(s) && Pids(s) && Owed(s) && Holder(s)
  }

  // ---------------------------------------------------------------- what steps have in common

  ghost predicate SameZombies(s: State, s': State) {
    && |s'.procs| == |s.procs|
    && forall k :: 0 <= k < |s.procs| && s'.procs[k].state == ZOMBIE ==>
         s.procs[k].state == ZOMBIE && s'.procs[k].parent == s.procs[k].parent && s'.procs[k].pid == s.procs[k].pid
  }

  ghost predicate SameSleepers(s: State, s': State) {
    && |s'.procs| == |s.procs|
    && forall i :: 0 <= i < |s.procs| && Blocked(s', i) ==> Blocked(s, i) && s'.procs[i].pc.why == s.procs[i].pc.why
  }

  ghost predicate SameMutexes(s: State, s': State) {
    forall id: nat :: IsLocked(s, id) ==> IsLocked(s', id)
  }

  /** Everyone has the parent they had. */
  ghost predicate SameFamily(s: State, s': State) {
    && |s'.procs| == |s.procs|
    && forall k :: 0 <= k < |s.procs| ==>
         s'.procs[k].parent == s.procs[k].parent && (s.procs[k].parent.Some? ==> s'.procs[k].pid == s.procs[k].pid)
  }

  /** Nothing new to be woken for, and the walk of the holder, if it is waking, is as it was. */
  lemma StillOwed(s: State, s': State)
    requires Owed(s) && SameZombies(s, s') && SameSleepers(s, s') && SameMutexes(s, s')
    requires forall i :: 0 <= i < |s.procs| && Blocked(s', i) && Blocked(s, i) && Pending(s, i) ==> Pending(s', i)
    ensures Owed(s')
  {
    forall i, k | 0 <= i < |s'.procs| && 0 <= k < |s'.procs| ensures ChildOwed(s', i, k) {
      assert ChildOwed(s, i, k);
    }
    forall i | 0 <= i < |s'.procs| ensures MutexOwed(s', i) {
      assert MutexOwed(s, i);
    }
  }

  lemma StillProgress(s: State, s': State, q: nat)
    requires q < |s.procs| && Progress(s, q) && SameZombies(s, s') && SameSleepers(s, s') && SameMutexes(s, s')
    requires s'.procs[q].pc == s.procs[q].pc && SameFamily(s, s')
    ensures Progress(s', q)
  {
    forall k, t | 0 <= k < |s.procs| ensures Wanted(s', q, t, k) == Wanted(s, q, t, k) {
    }
    forall k, t | 0 <= k < |s.procs| ensures Zombie(s', q, t, k) ==> Zombie(s, q, t, k) {
    }
    forall i, c | 0 <= i < |s.procs| ensures BlockedOn(s', i, c) ==> BlockedOn(s, i, c) {
    }
  }

  /** A step of a process that does not hold wait_lock. */
  lemma Bystander(s: State, s': State)
    requires Owed(s) && Holder(s) && SameZombies(s, s') && SameSleepers(s, s') && s'.mutexes == s.mutexes
    requires s'.waitLock == s.waitLock && SameFamily(s, s')
    requires s.waitLock.Some? ==> var q := s.waitLock.value; q < |s.procs| && s'.procs[q].pc == s.procs[q].pc
    ensures Owed(s') && Holder(s')
  {
    hide Progress;
    StillOwed(s, s');
    if s.waitLock.Some? {
      StillProgress(s, s', s.waitLock.value);
    }
  }

  /** A step of the holder that is not part of a wakeup. */
  lemma Calm(s: State, s': State)
    requires Owed(s) && s.waitLock.Some? && s.waitLock.value < |s.procs| && !s.procs[s.waitLock.value].pc.Wake?
    requires SameZombies(s, s') && SameSleepers(s, s') && SameMutexes(s, s')
    ensures Owed(s')
  {
    StillOwed(s, s');
  }

  // ---------------------------------------------------------------- locks and pids

  /** Only i, and k as far as others may change it, are different. */
  ghost predicate Touches(s: State, s': State, i: nat, k: nat) {
    && |s'.procs| == |s.procs|
    && (forall x :: 0 <= x < |s.procs| && x != i && x != k ==> s'.procs[x] == s.procs[x])
    && (|| s'.waitLock == s.waitLock
        || (s.waitLock.None? && s'.waitLock == Some(i))
        || (s.waitLock == Some(i) && s'.waitLock.None?))
  }

  lemma LocalsKept(s: State, s': State, i: nat, k: nat)
    requires Locals(s) && Touches(s, s', i, k) && i < |s.procs| && k < |s.procs|
    requires Local(s', i) && Local(s', k)
    requires k != i && s'.procs[k].pc != s.procs[k].pc ==>
      && (!s.procs[k].pc.Embryo? || s.procs[k].pc == Embryo(i))
      && (s'.procs[k].pc.User? || s'.procs[k].pc.Gone? || s'.procs[k].pc.Embryo?)
    requires Making(s', i)
    requires !s.procs[i].pc.Embryo? || s'.procs[i].pc == s.procs[i].pc
    ensures Locals(s')
  {
    forall x | 0 <= x < |s'.procs| ensures Local(s', x) {
      assert Local(s, x);
    }
    forall x | 0 <= x < |s'.procs| ensures Making(s', x) {
      assert Making(s, x);
    }
  }

  lemma PidsKept(s: State, s': State)
    requires Pids(s) && |s'.procs| == |s.procs| && s'.nextpid == s.nextpid
    requires forall k :: 0 <= k < |s.procs| ==>
      || (s'.procs[k].pid == s.procs[k].pid && (s'.procs[k].state == UNUSED <==> s.procs[k].state == UNUSED)
          && (s'.procs[k].parent == s.procs[k].parent || s.procs[k].state != UNUSED))
      || s'.procs[k] == FREED
    ensures Pids(s')
  {
    forall k | 0 <= k < |s'.procs| ensures PidFits(s', k) {
      assert PidFits(s, k);
    }
  }

  // ---------------------------------------------------------------- every step keeps the invariant

  lemma OneLocal(s: State, i: nat)
    requires Locals(s) && i < |s.procs|
    ensures Local(s, i) && Making(s, i)
  {
    assert Local(s, i) && Making(s, i);
  }

  lemma HolderInRange(s: State)
    requires Locals(s)
    ensures s.waitLock.Some? ==> s.waitLock.value < |s.procs|
  {
  }

  /** The holder of wait_lock moves on in its code. */
  lemma GotoLocals(s: State, s': State, i: nat, pc: Pc)
    requires Locals(s) && Pids(s) && i < |s.procs| && s.waitLock == Some(i) && HoldsWait(pc) && Child(pc).None?
    requires !HoldsOwn(s.procs[i].pc) && !HoldsOwn(pc) && NextFits(pc)
    requires s'.procs == s.procs[i := s.procs[i].(pc := pc)] && s'.waitLock == s.waitLock && s'.nextpid == s.nextpid
    ensures Locals(s') && Pids(s')
  {
    OneLocal(s, i);
    hide Locals, Pids;
    LocalsKept(s, s', i, i);
    PidsKept(s, s');
  }

  lemma FreeLocals(s: State, i: nat, k: nat)
    requires Locals(s) && Pids(s) && i < |s.procs| && k < |s.procs| && s.waitLock == Some(i)
    requires s.procs[k].state == ZOMBIE && !s.procs[k].locked
    ensures Locals(Set(s, k, FREED)) && Pids(Set(s, k, FREED))
  {
    var s' := Set(s, k, FREED);
    OneLocal(s, k);
    hide Locals, Pids;
    LocalsKept(s, s', k, k);
    PidsKept(s, s');
  }

  lemma ScanLocals(s: State, i: nat, fault: bool)
    requires Locals(s) && Pids(s) && i < |s.procs| && s.procs[i].pc.Scan? && Ready(s, i)
    ensures Locals(ScanStep(s, i, fault)) && Pids(ScanStep(s, i, fault))
  {
    var s' := ScanStep(s, i, fault);
    OneLocal(s, i);
    var Scan(t, k, have) := s.procs[i].pc;
    hide Locals, Pids;
    if k < |s.procs| && Wanted(s, i, t, k) && s.procs[k].state == ZOMBIE && !fault {
      FreeLocals(s, i, k);
      GotoLocals(Set(s, k, FREED), s', i, s'.procs[i].pc);
    } else {
      GotoLocals(s, s', i, s'.procs[i].pc);
    }
  }

  /** There is no second child with that pid. */
  lemma OneWanted(s: State, i: nat, t: Option<nat>, k: nat, z: nat)
    requires Pids(s) && t.Some? && k < |s.procs| && z < |s.procs| && Wanted(s, i, t, k) && Wanted(s, i, t, z)
    ensures k == z
  {
    assert PidFits(s, k) && PidFits(s, z);
  }

  lemma SeenMore(s: State, s': State, i: nat, t: Option<nat>, k: nat, have: bool)
    requires |s'.procs| == |s.procs| && k < |s.procs| && Seen(s, i, t, k, have)
    requires forall z :: 0 <= z < |s.procs| ==> Wanted(s', i, t, z) == Wanted(s, i, t, z)
    ensures !Wanted(s, i, t, k) ==> Seen(s', i, t, k + 1, have)
    ensures Wanted(s, i, t, k) ==> Seen(s', i, t, k + 1, true) && Seen(s', i, t, |s.procs|, true)
  {
    if have {
      var z :| 0 <= z < k && Wanted(s, i, t, z);
      assert Wanted(s', i, t, z);
    }
    assert Wanted(s', i, t, k) == Wanted(s, i, t, k);
  }

  /** Of the processes passed, none is an exited child. */
  lemma ScannedMore(s: State, s': State, i: nat, t: Option<nat>, k: nat)
    requires Pids(s) && |s'.procs| == |s.procs| && k < |s.procs| && Scanned(s, i, t, k) && !Zombie(s, i, t, k)
    requires forall z :: 0 <= z < |s.procs| ==> Zombie(s', i, t, z) == Zombie(s, i, t, z)
    ensures Scanned(s', i, t, k + 1) && (t.Some? && Wanted(s, i, t, k) ==> Scanned(s', i, t, |s.procs|))
  {
    hide Pids;
    if t.Some? && Wanted(s, i, t, k) {
      forall z | 0 <= z < |s.procs| ensures !Zombie(s', i, t, z) {
        if Wanted(s, i, t, z) {
          OneWanted(s, i, t, k, z);
        }
      }
    }
  }

  lemma ScanProgress(s: State, i: nat, fault: bool)
    requires Pids(s) && i < |s.procs| && s.procs[i].pc.Scan? && Progress(s, i)
    ensures Progress(ScanStep(s, i, fault), i)
  {
    var s' := ScanStep(s, i, fault);
    hide Pids, Scanned, Seen;
    var Scan(t, k, have) := s.procs[i].pc;
    if k < |s.procs| && !Zombie(s, i, t, k) {
      forall z | 0 <= z < |s.procs|
        ensures Zombie(s', i, t, z) == Zombie(s, i, t, z) && Wanted(s', i, t, z) == Wanted(s, i, t, z)
      {
      }
      SeenMore(s, s', i, t, k, have);
      ScannedMore(s, s', i, t, k);
    } else {
      ScanEnds(s, i, fault);
    }
  }

  lemma ScanEnds(s: State, i: nat, fault: bool)
    requires i < |s.procs| && s.procs[i].pc.Scan? && Progress(s, i)
    requires var Scan(t, k, _) := s.procs[i].pc; k < |s.procs| ==> Zombie(s, i, t, k)
    ensures Progress(ScanStep(s, i, fault), i)
  {
    var s' := ScanStep(s, i, fault);
    if s'.procs[i].pc.SleepLock? {
      forall z, t | 0 <= z < |s.procs| ensures Zombie(s', i, t, z) == Zombie(s, i, t, z) {
      }
    }
  }

  lemma ScanKeeps(s: State, i: nat, fault: bool)
    requires Inv(s) && i < |s.procs| && s.procs[i].pc.Scan? && Ready(s, i)
    ensures Inv(ScanStep(s, i, fault))
  {
    ScanLocals(s, i, fault);
    OneLocal(s, i);
    hide Locals, Pids, Progress, Owed;
    ScanProgress(s, i, fault);
    Calm(s, ScanStep(s, i, fault));
  }

  lemma ReparentLocals(s: State, i: nat)
    requires Locals(s) && Pids(s) && i < |s.procs| && s.procs[i].pc.Reparent?
    ensures Locals(ReparentStep(s, i)) && Pids(ReparentStep(s, i))
  {
    var s' := ReparentStep(s, i);
    var k := s.procs[i].pc.k;
    var x := if k < |s.procs| then k else i;
    OneLocal(s, i);
    OneLocal(s, x);
    assert PidFits(s, x);
    hide Locals, Pids;
    LocalsKept(s, s', i, x);
    PidsKept(s, s');
  }

  lemma ReparentKeeps(s: State, i: nat)
    requires Inv(s) && i < |s.procs| && s.procs[i].pc.Reparent?
    ensures Inv(ReparentStep(s, i))
  {
    var s' := ReparentStep(s, i);
    var k := s.procs[i].pc.k;
    ReparentLocals(s, i);
    OneLocal(s, i);
    hide Locals, Pids;
    if k < |s.procs| && s.procs[k].parent == Some(i) {
      forall y, z | 0 <= y < |s'.procs| && 0 <= z < |s'.procs| ensures ChildOwed(s', y, z) {
        assert ChildOwed(s, y, z);
      }
      forall y | 0 <= y < |s'.procs| ensures MutexOwed(s', y) {
        assert MutexOwed(s, y);
      }
    } else {
      Calm(s, s');
    }
  }

  lemma WakeLocals(s: State, i: nat)
    requires Locals(s) && Pids(s) && i < |s.procs| && s.procs[i].pc.Wake? && Ready(s, i)
    ensures Locals(WakeStep(s, i)) && Pids(WakeStep(s, i))
  {
    var s' := WakeStep(s, i);
    var j := s.procs[i].pc.j;
    var x := if j < |s.procs| then j else i;
    OneLocal(s, i);
    OneLocal(s, x);
    assert PidFits(s, x);
    hide Locals, Pids;
    LocalsKept(s, s', i, x);
    PidsKept(s, s');
  }

  /** One more of those asleep on the channel is awake. */
  lemma WakeProgress(s: State, i: nat)
    requires i < |s.procs| && s.procs[i].pc.Wake? && Local(s, i) && Progress(s, i) && s.waitLock == Some(i)
    requires s.procs[i].pc.j < |s.procs| ==> Local(s, s.procs[i].pc.j)
    requires s.procs[i].pc.j < |s.procs| && s.procs[i].pc.j != i ==> !s.procs[s.procs[i].pc.j].locked
    ensures Progress(WakeStep(s, i), i) && SameSleepers(s, WakeStep(s, i))
    ensures var j := s.procs[i].pc.j;
      j < |s.procs| && Blocked(WakeStep(s, i), j) ==> ChanOf(j, s.procs[j].pc.why) != s.procs[i].pc.chan
  {
    var s' := WakeStep(s, i);
    var Wake(c, j, next) := s.procs[i].pc;
    forall y | 0 <= y < |s.procs| ensures BlockedOn(s', y, c) ==> BlockedOn(s, y, c) && y != j {
    }
  }

  lemma WakeKeeps(s: State, i: nat)
    requires Inv(s) && i < |s.procs| && s.procs[i].pc.Wake? && Ready(s, i)
    ensures Inv(WakeStep(s, i))
  {
    var s', j := WakeStep(s, i), s.procs[i].pc.j;
    WakeLocals(s, i);
    OneLocal(s, i);
    if j < |s.procs| {
      OneLocal(s, j);
    }
    hide Locals, Pids, Owed, Progress;
    WakeProgress(s, i);
    StillOwed(s, s');
  }

  lemma MutexLocals(s: State, i: nat)
    requires Locals(s) && Pids(s) && i < |s.procs| && Ready(s, i)
    requires var pc := s.procs[i].pc;
      pc.CreateMutex? || pc.LockMutex? || pc.WokenOnMutex? || pc.UnlockMutex? || pc.TryMutex?
    ensures Locals(MutexStep(s, i)) && Pids(MutexStep(s, i))
  {
    var s' := MutexStep(s, i);
    OneLocal(s, i);
    hide Locals, Pids;
    GotoLocals(s, s', i, s'.procs[i].pc);
  }

  lemma MutexKeeps(s: State, i: nat)
    requires Inv(s) && i < |s.procs| && Ready(s, i)
    requires var pc := s.procs[i].pc;
      pc.CreateMutex? || pc.LockMutex? || pc.WokenOnMutex? || pc.UnlockMutex? || pc.TryMutex?
    ensures Inv(MutexStep(s, i))
  {
    var s' := MutexStep(s, i);
    MutexLocals(s, i);
    OneLocal(s, i);
    hide Locals, Pids, Owed;
    if s.procs[i].pc.UnlockMutex? {
      UnlockKeeps(s, i);
    } else {
      Calm(s, s');
    }
  }

  lemma UnlockKeeps(s: State, i: nat)
    requires Inv(s) && i < |s.procs| && Ready(s, i) && s.procs[i].pc.UnlockMutex?
    ensures Owed(MutexStep(s, i)) && Holder(MutexStep(s, i))
  {
    var s' := MutexStep(s, i);
    OneLocal(s, i);
    hide Locals, Pids;
    if s'.procs[i].pc.Wake? {
      forall y, z | 0 <= y < |s'.procs| && 0 <= z < |s'.procs| ensures ChildOwed(s', y, z) {
        assert ChildOwed(s, y, z);
      }
      forall y | 0 <= y < |s'.procs| ensures MutexOwed(s', y) {
        assert MutexOwed(s, y);
      }
    } else {
      Calm(s, s');
    }
  }

  lemma SleepLocals(s: State, i: nat)
    requires Locals(s) && Pids(s) && i < |s.procs| && Ready(s, i)
    requires var pc := s.procs[i].pc; pc.SleepLock? || pc.SleepRelease? || pc.SleepSet? || pc.Asleep? || pc.Woken?
    ensures Locals(SleepStep(s, i)) && Pids(SleepStep(s, i))
  {
    var s' := SleepStep(s, i);
    OneLocal(s, i);
    hide Locals, Pids;
    LocalsKept(s, s', i, i);
    PidsKept(s, s');
  }

  lemma SleepKeeps(s: State, i: nat)
    requires Inv(s) && i < |s.procs| && Ready(s, i)
    requires var pc := s.procs[i].pc; pc.SleepLock? || pc.SleepRelease? || pc.SleepSet? || pc.Asleep? || pc.Woken?
    ensures Inv(SleepStep(s, i))
  {
    var s' := SleepStep(s, i);
    SleepLocals(s, i);
    OneLocal(s, i);
    HolderInRange(s);
    hide Locals, Pids;
    if s.procs[i].pc.SleepLock? {
      Calm(s, s');
      var why := s.procs[i].pc.why;
      if why.ForChild? {
        forall z | 0 <= z < |s.procs| ensures Zombie(s', i, why.target, z) <==> Zombie(s, i, why.target, z) {
        }
      }
    } else if s.procs[i].pc.SleepRelease? {
      forall y, z | 0 <= y < |s'.procs| && 0 <= z < |s'.procs| ensures ChildOwed(s', y, z) {
        assert ChildOwed(s, y, z);
        var why := s.procs[i].pc.why;
        assert y == i && Safe(s, i, why) && why.ForChild? ==> !Zombie(s, i, why.target, z);
      }
      forall y | 0 <= y < |s'.procs| ensures MutexOwed(s', y) {
        assert MutexOwed(s, y);
      }
    } else {
      Bystander(s, s');
    }
  }

  lemma ExitLocals(s: State, i: nat)
    requires Locals(s) && Pids(s) && i < |s.procs| && Ready(s, i)
    requires var pc := s.procs[i].pc; pc.ExitLock? || pc.ExitMark? || pc.ExitRelease? || pc.ExitSched?
    ensures Locals(Proceed(s, i, false)) && Pids(Proceed(s, i, false))
  {
    var s' := Proceed(s, i, false);
    OneLocal(s, i);
    hide Locals, Pids, ScanStep, ReparentStep, WakeStep, MutexStep, SleepStep;
    LocalsKept(s, s', i, i);
    PidsKept(s, s');
  }

  /** The process becomes a zombie, and its parent, if it sleeps, has been woken. */
  lemma MarkKeeps(s: State, i: nat)
    requires Inv(s) && i < |s.procs| && s.procs[i].pc.ExitMark?
    ensures Owed(Proceed(s, i, false)) && Holder(Proceed(s, i, false))
  {
    var s' := Proceed(s, i, false);
    OneLocal(s, i);
    hide Locals, Pids, ScanStep, ReparentStep, WakeStep, MutexStep, SleepStep;
    forall y, z | 0 <= y < |s'.procs| && 0 <= z < |s'.procs| ensures ChildOwed(s', y, z) {
      assert ChildOwed(s, y, z);
      assert !BlockedOn(s, y, ParentChan(s, i));
    }
    forall y | 0 <= y < |s'.procs| ensures MutexOwed(s', y) {
      assert MutexOwed(s, y);
    }
  }

  lemma ExitKeeps(s: State, i: nat)
    requires Inv(s) && i < |s.procs| && Ready(s, i)
    requires var pc := s.procs[i].pc; pc.ExitLock? || pc.ExitMark? || pc.ExitRelease? || pc.ExitSched?
    ensures Inv(Proceed(s, i, false)) && Proceed(s, i, true) == Proceed(s, i, false)
  {
    var s' := Proceed(s, i, false);
    OneLocal(s, i);
    HolderInRange(s);
    ExitLocals(s, i);
    hide Locals, Pids, Owed, ScanStep, ReparentStep, WakeStep, MutexStep, SleepStep;
    if s.procs[i].pc.ExitMark? {
      MarkKeeps(s, i);
    } else if s.procs[i].pc.ExitSched? {
      Bystander(s, s');
    } else {
      Calm(s, s');
      forall y, c | 0 <= y < |s.procs| ensures BlockedOn(s', y, c) ==> BlockedOn(s, y, c) {
      }
    }
  }

  lemma LinkLocals(s: State, i: nat)
    requires Locals(s) && Pids(s) && i < |s.procs| && Ready(s, i)
    requires (s.procs[i].pc.LinkChild? || s.procs[i].pc.StartChild?)
    ensures Locals(Proceed(s, i, false)) && Pids(Proceed(s, i, false))
    ensures s.procs[s.procs[i].pc.child].state == USED
  {
    var s' := Proceed(s, i, false);
    OneLocal(s, i);
    var k := s.procs[i].pc.child;
    OneLocal(s, k);
    assert PidFits(s, k);
    hide Locals, Pids, ScanStep, ReparentStep, WakeStep, MutexStep, SleepStep;
    LocalsKept(s, s', i, k);
    PidsKept(s, s');
  }

  lemma OtherLocals(s: State, i: nat)
    requires Locals(s) && Pids(s) && i < |s.procs| && Ready(s, i)
    requires s.procs[i].pc.Acquire? || s.procs[i].pc.Return? || s.procs[i].pc.Linked?
    ensures Locals(Proceed(s, i, false)) && Pids(Proceed(s, i, false))
  {
    var s' := Proceed(s, i, false);
    OneLocal(s, i);
    hide Locals, Pids, ScanStep, ReparentStep, WakeStep, MutexStep, SleepStep;
    LocalsKept(s, s', i, i);
    PidsKept(s, s');
  }

  lemma LinkKeeps(s: State, i: nat)
    requires Inv(s) && i < |s.procs| && Ready(s, i) && (s.procs[i].pc.LinkChild? || s.procs[i].pc.StartChild?)
    ensures Inv(Proceed(s, i, false)) && Proceed(s, i, true) == Proceed(s, i, false)
  {
    var s' := Proceed(s, i, false);
    OneLocal(s, i);
    LinkLocals(s, i);
    OneLocal(s, s.procs[i].pc.child);
    HolderInRange(s);
    hide Locals, Pids, Owed;
    if s.procs[i].pc.StartChild? {
      hide Holder;
      Bystander(s, s');
    } else {
      Calm(s, s');
    }
  }

  lemma AcquireKeeps(s: State, i: nat)
    requires Inv(s) && i < |s.procs| && Ready(s, i) && s.procs[i].pc.Acquire?
    ensures Inv(Proceed(s, i, false)) && Proceed(s, i, true) == Proceed(s, i, false)
  {
    var s' := Proceed(s, i, false);
    OneLocal(s, i);
    OtherLocals(s, i);
    hide Locals, Pids, Owed;
    StillOwed(s, s');
  }

  lemma ReleaseKeeps(s: State, i: nat)
    requires Inv(s) && i < |s.procs| && Ready(s, i) && (s.procs[i].pc.Return? || s.procs[i].pc.Linked?)
    ensures Inv(Proceed(s, i, false)) && Proceed(s, i, true) == Proceed(s, i, false)
  {
    var s' := Proceed(s, i, false);
    OneLocal(s, i);
    OtherLocals(s, i);
    hide Locals, Pids, Owed;
    Calm(s, s');
  }

  lemma ForkLocals(s: State, i: nat, k: nat)
    requires Locals(s) && Pids(s) && Enabled(s, Fork(i, k))
    ensures Locals(Next(s, Fork(i, k))) && Pids(Next(s, Fork(i, k)))
  {
    var s' := Next(s, Fork(i, k));
    OneLocal(s, i);
    OneLocal(s, k);
    hide Locals;
    LocalsKept(s, s', i, k);
    forall x | 0 <= x < |s'.procs| ensures PidFits(s', x) && (x != k ==> s'.procs[x].pid < s.nextpid) {
      assert PidFits(s, x);
    }
  }

  lemma OutsideLocals(s: State, a: Action)
    requires Locals(s) && Pids(s) && Enabled(s, a) && !a.Advance?
    ensures Locals(Next(s, a)) && Pids(Next(s, a))
  {
    if a.Fork? {
      ForkLocals(s, a.i, a.k);
    } else {
      var s' := Next(s, a);
      OneLocal(s, a.i);
      hide Locals, Pids;
      LocalsKept(s, s', a.i, a.i);
      PidsKept(s, s');
    }
  }

  lemma ForkKeeps(s: State, i: nat, k: nat)
    requires Inv(s) && Enabled(s, Fork(i, k))
    ensures Inv(Next(s, Fork(i, k)))
  {
    var s' := Next(s, Fork(i, k));
    ForkLocals(s, i, k);
    OneLocal(s, i);
    OneLocal(s, k);
    assert PidFits(s, k);
    HolderInRange(s);
    hide Locals, Pids, Owed, Holder, PidFits;
    Bystander(s, s');
  }

  lemma OutsideKeeps(s: State, a: Action)
    requires Inv(s) && Enabled(s, a) && !a.Advance? && !a.Fork?
    ensures Inv(Next(s, a))
  {
    var s' := Next(s, a);
    OutsideLocals(s, a);
    OneLocal(s, a.i);
    HolderInRange(s);
    hide Locals, Pids, Owed, Holder, PidFits;
    Bystander(s, s');
  }

  lemma StepKeeps(s: State, a: Action)
    requires Inv(s) && Enabled(s, a)
    ensures Inv(Next(s, a))
  {
    hide Inv, ScanStep, ReparentStep, WakeStep, MutexStep, SleepStep;
    if a.Advance? {
      match s.procs[a.i].pc
      case Scan(_, _, _) => ScanKeeps(s, a.i, a.fault);
      case Reparent(_, _) => ReparentKeeps(s, a.i);
      case Wake(_, _, _) => WakeKeeps(s, a.i);
      case CreateMutex => MutexKeeps(s, a.i);
      case LockMutex(_) => MutexKeeps(s, a.i);
      case WokenOnMutex(_) => MutexKeeps(s, a.i);
      case UnlockMutex(_) => MutexKeeps(s, a.i);
      case TryMutex(_) => MutexKeeps(s, a.i);
      case Acquire(_) => AcquireKeeps(s, a.i);
      case LinkChild(_) => LinkKeeps(s, a.i);
      case StartChild(_) => LinkKeeps(s, a.i);
      case Linked(_) => ReleaseKeeps(s, a.i);
      case Return(_, _, _) => ReleaseKeeps(s, a.i);
      case ExitLock(_) => ExitKeeps(s, a.i);
      case ExitMark(_) => ExitKeeps(s, a.i);
      case ExitRelease => ExitKeeps(s, a.i);
      case ExitSched => ExitKeeps(s, a.i);
      case _ => SleepKeeps(s, a.i);
    } else if a.Fork? {
      ForkKeeps(s, a.i, a.k);
    } else {
      OutsideKeeps(s, a);
    }
  }

  lemma InitialInv(s: State)
    requires Initial(s)
    ensures Inv(s)
  {
  }

  lemma {:induction false} RunInv(ss: seq<State>, actions: seq<Action>, n: nat)
    requires Run(ss, actions) && n < |ss|
    ensures Inv(ss[n])
  {
    hide Inv, Next, Enabled;
    if n == 0 {
      InitialInv(ss[0]);
    } else {
      RunInv(ss, actions, n - 1);
      assert StepAt(ss, actions, n - 1);
      StepKeeps(ss[n - 1], actions[n - 1]);
    }
  }

  /** Whenever wait_lock is free, a process asleep in kwait has no exited child, one asleep in
      kwaitpid has not got its target exited, and one asleep on a mutex faces a locked mutex. */
  lemma NoLostWakeup(ss: seq<State>, actions: seq<Action>, n: nat, i: nat)
    requires Run(ss, actions) && n < |ss| && i < |ss[n].procs| && ss[n].waitLock.None?
    requires ss[n].procs[i].pc.SleepSet? || (ss[n].procs[i].pc.Asleep? && ss[n].procs[i].state == SLEEPING)
    ensures match ss[n].procs[i].pc.why
      case ForChild(t) =>
        forall k :: 0 <= k < |ss[n].procs| && ss[n].procs[k].state == ZOMBIE ==>
          ss[n].procs[k].parent != Some(i) || (t.Some? && ss[n].procs[k].pid != t.value)
      case ForMutex(id) => id < |ss[n].mutexes| && ss[n].mutexes[id].used && ss[n].mutexes[id].locked
  {
    var s := ss[n];
    RunInv(ss, actions, n);
    hide Locals, Pids, Holder;
    if s.procs[i].pc.why.ForChild? {
      var t := s.procs[i].pc.why.target;
      forall k | 0 <= k < |s.procs| && Wanted(s, i, t, k) ensures s.procs[k].state != ZOMBIE {
        assert ChildOwed(s, i, k);
      }
    }
    assert MutexOwed(s, i);
  }

  /** wait_lock, and each process's own lock, are never held by two. */
  lemma MutualExclusion(ss: seq<State>, actions: seq<Action>, n: nat, i: nat, k: nat)
    requires Run(ss, actions) && n < |ss| && i < |ss[n].procs| && k < |ss[n].procs|
    requires HoldsWait(ss[n].procs[i].pc) && HoldsWait(ss[n].procs[k].pc)
    ensures i == k
  {
    RunInv(ss, actions, n);
    assert Local(ss[n], i) && Local(ss[n], k);
  }

  /** Every process in use has its own pid. */
  lemma PidsUnique(ss: seq<State>, actions: seq<Action>, n: nat, i: nat, k: nat)
    requires Run(ss, actions) && n < |ss| && i < k < |ss[n].procs|
    requires ss[n].procs[i].state != UNUSED && ss[n].procs[k].state != UNUSED
    ensures ss[n].procs[i].pid != ss[n].procs[k].pid
  {
    RunInv(ss, actions, n);
  }
}
