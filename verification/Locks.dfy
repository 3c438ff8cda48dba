/** The file server's reader/writer locks (G16_Project_3/src/locks.c): one lock per path, made on
    first use, and operations on two paths that take both locks in strcmp order.

    Any number of threads run at once.  A step is one look-up in the registry, which its mutex
    makes atomic, or one operation on a reader/writer lock. */
module Locks {
  import opened Options

  /** strcmp(a, b) < 0 */
  predicate Less(a: string, b: string) {
    if b == [] then false
    else if a == [] then true
    else if a[0] != b[0] then a[0] < b[0]
    else Less(a[1..], b[1..])
  }

  lemma {:induction false} LessIrreflexive(a: string)
    ensures !Less(a, a)
  {
    if a != [] {
      LessIrreflexive(a[1..]);
    }
  }

  lemma {:induction false} LessTransitive(a: string, b: string, c: string)
    requires Less(a, b) && Less(b, c)
    ensures Less(a, c)
  {
    if a != [] && a[0] == b[0] && b[0] == c[0] {
      LessTransitive(a[1..], b[1..], c[1..]);
    }
  }

  lemma {:induction false} LessTotal(a: string, b: string)
    requires a != b
    ensures Less(a, b) || Less(b, a)
  {
    if a != [] && b != [] && a[0] == b[0] {
      assert a == [a[0]] + a[1..] && b == [b[0]] + b[1..];
      LessTotal(a[1..], b[1..]);
    }
  }

  // ---------------------------------------------------------------- the registry

  class Registry {
    var paths: seq<string>   // in the order of creation; the list's head is the last

    ghost predicate Valid()
      reads this
    {
      forall i, j :: 0 <= i < j < |paths| ==> paths[i] != paths[j]
    }

    constructor ()
      ensures Valid() && paths == []
    {
      paths := [];
    }

    /** get_or_create_lock: one entry per path, made on first use; `memory` says whether a new
        entry can be allocated. */
    method GetOrCreate(path: string, memory: bool) returns (r: Option<nat>)
      requires Valid()
      modifies this
      ensures Valid() && (r.Some? ==> r.value < |paths| && paths[r.value] == path)
      ensures r.None? <==> path !in old(paths) && !memory
      ensures paths == if path in old(paths) || !memory then old(paths) else old(paths) + [path]
      ensures Lookup(old(paths), path, memory) == (r, paths)
    {
      var cur := |paths|;
      while cur > 0
        invariant 0 <= cur <= |paths| && forall k :: cur <= k < |paths| ==> paths[k] != path
      {
        cur := cur - 1;
        if paths[cur] == path {
          FindAt(paths, path, cur);
          return Some(cur);
        }
      }
      FindNone(paths, path);
      if !memory {
        return None;
      }
      paths := paths + [path];
      return Some(|paths| - 1);
    }
  }

  /** Where a path is in the registry. */
  function Find(paths: seq<string>, path: string): (r: Option<nat>)
    ensures r.Some? ==> r.value < |paths| && paths[r.value] == path
    ensures r.None? ==> forall k :: 0 <= k < |paths| ==> paths[k] != path
  {
    if paths == [] then None
    else if paths[|paths| - 1] == path then Some(|paths| - 1)
    else Find(paths[..|paths| - 1], path)
  }

  lemma FindAt(paths: seq<string>, path: string, k: nat)
    requires k < |paths| && paths[k] == path && forall i, j :: 0 <= i < j < |paths| ==> paths[i] != paths[j]
    ensures Find(paths, path) == Some(k)
  {
    var r := Find(paths, path);
    assert r.Some? && paths[r.value] == paths[k];
  }

  lemma FindNone(paths: seq<string>, path: string)
    requires forall k :: 0 <= k < |paths| ==> paths[k] != path
    ensures Find(paths, path) == None
  {
  }

  function Lookup(paths: seq<string>, path: string, memory: bool): (Option<nat>, seq<string>) {
    var r := Find(paths, path);
    if r.Some? then (r, paths) else if memory then (Some(|paths|), paths + [path]) else (None, paths)
  }

  // ---------------------------------------------------------------- threads

  datatype Op = Read(path: string) | Write(path: string) | Two(a: string, b: string)

  /** The locks an operation takes, in the order it takes them. */
  function Needs(op: Op): seq<string> {
    match op
    case Read(p) => [p]
    case Write(p) => [p]
    case Two(a, b) => if a == b then [a] else if Less(b, a) then [b, a] else [a, b]
  }

  /** The locks it hands to the release functions, lock_a first. */
  function Returned(op: Op, held: seq<nat>): seq<nat> {
    if op.Two? && |held| == 2 && Less(op.b, op.a) then [held[1], held[0]] else held
  }

  datatype Pc =
    | Idle
    | Looking                 // get_or_create_lock next
    | Acquiring(id: nat)      // rdlock or wrlock next, which may block
    | Using
    | Releasing

  datatype Thread = Thread(pc: Pc, op: Op, held: seq<nat>)

  datatype RwLock = RwLock(readers: set<nat>, writer: Option<nat>)

  /** Under `writersFirst` a reader also waits while a writer waits for the lock; POSIX allows
      either policy. */
  datatype State = State(paths: seq<string>, locks: seq<RwLock>, threads: seq<Thread>, writersFirst: bool)

  predicate Shared(op: Op) { op.Read? }

  predicate Free(l: RwLock, op: Op) {
    l.writer.None? && (Shared(op) || l.readers == {})
  }

  predicate WriterWaits(s: State, id: nat, t: nat)
    requires t < |s.threads|
  {
    s.threads[t].pc == Acquiring(id) && !Shared(s.threads[t].op)
  }

  /** A reader gives way to a waiting writer. */
  predicate Yields(s: State, id: nat, op: Op) {
    s.writersFirst && Shared(op) && exists t :: 0 <= t < |s.threads| && WriterWaits(s, id, t)
  }

  function Locked(l: RwLock, t: nat, op: Op): RwLock {
    if Shared(op) then l.(readers := l.readers + {t}) else l.(writer := Some(t))
  }

  function Unlocked(l: RwLock, t: nat, op: Op): RwLock {
    if Shared(op) then l.(readers := l.readers - {t}) else l.(writer := None)
  }

  /** Start begins an operation; Step goes on, and `fail` makes a look-up or a lock call fail. */
  datatype Action = Start(t: nat, op: Op) | Step(t: nat, fail: bool)

  predicate Enabled(s: State, a: Action) {
    a.t < |s.threads| &&
    var th := s.threads[a.t];
    match a
    case Start(_, _) => th.pc == Idle
    case Step(_, fail) =>
      match th.pc
      case Idle => false
      case Acquiring(id) => id < |s.locks| && (fail || (Free(s.locks[id], th.op) && !Yields(s, id, th.op)))
      case _ => true
  }

  function SetThread(s: State, t: nat, th: Thread): State
    requires t < |s.threads|
  {
    s.(threads := s.threads[t := th])
  }

  /** Giving up: what is held is released first. */
  function GiveUp(th: Thread): Thread {
    th.(pc := Releasing)
  }

  function Next(s: State, a: Action): State
    requires Enabled(s, a)
  {
    var th := s.threads[a.t];
    match a
    case Start(t, op) => SetThread(s, t, Thread(Looking, op, []))
    case Step(t, fail) =>
      match th.pc
      case Idle => s
      case Looking =>
        if |th.held| >= |Needs(th.op)| then s
        else
          var (r, paths) := Lookup(s.paths, Needs(th.op)[|th.held|], !fail);
          if r.None? then SetThread(s, t, GiveUp(th))
          else SetThread(s.(paths := paths,
                            locks := if |paths| > |s.paths| then s.locks + [RwLock({}, None)] else s.locks),
                         t, th.(pc := Acquiring(r.value)))
      case Acquiring(id) =>
        if fail then SetThread(s, t, GiveUp(th))
        else
          var held := th.held + [id];
          SetThread(s.(locks := s.locks[id := Locked(s.locks[id], t, th.op)]), t,
                    th.(held := held, pc := if |held| == |Needs(th.op)| then Using else Looking))
      case Using => SetThread(s, t, th.(pc := Releasing, held := Returned(th.op, th.held)))
      case Releasing =>
        if th.held == [] then SetThread(s, t, th.(pc := Idle))
        else if th.held[0] >= |s.locks| then s
        else
          var id := th.held[0];
          SetThread(s.(locks := s.locks[id := Unlocked(s.locks[id], t, th.op)]), t, th.(held := th.held[1..]))
  }

  predicate Initial(s: State) {
    && s.paths == [] && s.locks == []
    && forall t :: 0 <= t < |s.threads| ==> s.threads[t].pc == Idle && s.threads[t].held == []
  }

  ghost predicate StepAt(ss: seq<State>, actions: seq<Action>, n: nat)
    requires n < |actions| && |ss| == |actions| + 1
  {
    Enabled(ss[n], actions[n]) && ss[n + 1] == Next(ss[n], actions[n])
  }

  ghost predicate Run(ss: seq<State>, actions: seq<Action>) {
    && |ss| == |actions| + 1 && Initial(ss[0])
    && forall n :: 0 <= n < |actions| ==> StepAt(ss, actions, n)
  }

  // ---------------------------------------------------------------- the invariant

  ghost predicate OneLockPerPath(s: State) {
    |s.locks| == |s.paths| && forall i, j :: 0 <= i < j < |s.paths| ==> s.paths[i] != s.paths[j]
  }

  /** A lock names a thread exactly when the thread holds it, and a writer is alone. */
  ghost predicate Exact(s: State, t: nat, id: nat)
    requires t < |s.threads| && id < |s.locks|
  {
    var l, th := s.locks[id], s.threads[t];
    && (l.writer == Some(t) <==> id in th.held && !Shared(th.op))
    && (t in l.readers <==> id in th.held && Shared(th.op))
  }

  ghost predicate LockRight(s: State, id: nat)
    requires id < |s.locks|
  {
    var l := s.locks[id];
    && (l.writer.Some? ==> l.writer.value < |s.threads| && l.readers == {})
    && (forall t :: t in l.readers ==> t < |s.threads|)
  }

  /** What a thread holds, it has asked for, in order, until it starts to release. */
  ghost predicate ThreadRight(s: State, t: nat)
    requires t < |s.threads|
  {
    var th := s.threads[t];
    && (forall k :: 0 <= k < |th.held| ==> th.held[k] < |s.paths|)
    && (forall i, j :: 0 <= i < j < |th.held| ==> th.held[i] != th.held[j])
    && |th.held| <= 2 && (th.pc == Idle ==> th.held == [])
    && (th.pc == Looking || th.pc.Acquiring? ==> |th.held| < |Needs(th.op)|)
    && (th.pc == Using ==> |th.held| == |Needs(th.op)|)
    && (th.pc != Releasing ==> forall k :: 0 <= k < |th.held| && k < |Needs(th.op)| ==>
          s.paths[th.held[k]] == Needs(th.op)[k])
    && (th.pc.Acquiring? ==> th.pc.id < |s.paths| && s.paths[th.pc.id] == Needs(th.op)[|th.held|])
  }

  ghost predicate Inv(s: State) {
    && OneLockPerPath(s)
    && (forall t {:trigger ThreadRight(s, t)} :: 0 <= t < |s.threads| ==> ThreadRight(s, t))
    && (forall id {:trigger LockRight(s, id)} :: 0 <= id < |s.locks| ==> LockRight(s, id))
    && (forall t, id {:trigger Exact(s, t, id)} :: 0 <= t < |s.threads| && 0 <= id < |s.locks| ==> Exact(s, t, id))
  }

  lemma NeedsOrdered(op: Op)
    ensures 0 < |Needs(op)| <= 2
    ensures |Needs(op)| == 2 ==> Less(Needs(op)[0], Needs(op)[1]) && Needs(op)[0] != Needs(op)[1] && op.Two?
  {
    if op.Two? && op.a != op.b {
      LessTotal(op.a, op.b);
    }
  }

  /** Changes to thread t alone, and to locks only as far as t holds them. */
  lemma OneThread(s: State, s': State, t: nat)
    requires Inv(s) && t < |s.threads| && |s'.threads| == |s.threads| && OneLockPerPath(s') && s.paths <= s'.paths
    requires forall x :: 0 <= x < |s.threads| && x != t ==> s'.threads[x] == s.threads[x]
    requires ThreadRight(s', t)
    requires forall id :: 0 <= id < |s'.locks| ==> LockRight(s', id) && Exact(s', t, id)
    requires forall id, x :: 0 <= id < |s.locks| && x != t ==>
      && (s'.locks[id].writer == Some(x) <==> s.locks[id].writer == Some(x))
      && (x in s'.locks[id].readers <==> x in s.locks[id].readers)
    requires forall id :: |s.locks| <= id < |s'.locks| ==> s'.locks[id].writer.None? && s'.locks[id].readers == {}
    ensures Inv(s')
  {
    forall x | 0 <= x < |s'.threads| ensures ThreadRight(s', x) {
      assert ThreadRight(s, x);
    }
    forall x, id | 0 <= x < |s'.threads| && 0 <= id < |s'.locks| ensures Exact(s', x, id) {
      if id < |s.locks| {
        assert Exact(s, x, id);
      } else {
        assert ThreadRight(s, x);
      }
    }
  }

  /** Looking a path up finds its place, and adds it only at the end. */
  lemma LookedUp(paths: seq<string>, path: string, memory: bool)
    requires forall i, j :: 0 <= i < j < |paths| ==> paths[i] != paths[j]
    ensures var (r, paths') := Lookup(paths, path, memory);
      && |paths| <= |paths'| <= |paths| + 1 && (r.None? ==> paths' == paths)
      && (forall k :: 0 <= k < |paths| ==> paths'[k] == paths[k])
      && (forall i, j :: 0 <= i < j < |paths'| ==> paths'[i] != paths'[j])
      && (r.Some? ==> r.value < |paths'| && paths'[r.value] == path)
  {
  }

  lemma LookKeeps(s: State, t: nat, fail: bool)
    requires Inv(s) && Enabled(s, Step(t, fail)) && s.threads[t].pc == Looking
    ensures Inv(Next(s, Step(t, fail)))
  {
    hide Lookup, Needs, Free, Yields;
    var s' := Next(s, Step(t, fail));
    assert ThreadRight(s, t);
    LookedUp(s.paths, Needs(s.threads[t].op)[|s.threads[t].held|], !fail);
    var th' := s'.threads[t];
    var look := Lookup(s.paths, Needs(th'.op)[|th'.held|], !fail);
    assert th'.pc.Acquiring? ==> look.0.Some? && th'.pc.id == look.0.value;
    assert ThreadRight(s', t);
    forall id | 0 <= id < |s'.locks| ensures LockRight(s', id) && Exact(s', t, id) {
      if id < |s.locks| {
        assert LockRight(s, id) && Exact(s, t, id);
      }
    }
    OneThread(s, s', t);
  }

  lemma AcquireKeeps(s: State, t: nat, fail: bool)
    requires Inv(s) && Enabled(s, Step(t, fail)) && s.threads[t].pc.Acquiring?
    ensures Inv(Next(s, Step(t, fail)))
  {
    var s' := Next(s, Step(t, fail));
    var th := s.threads[t];
    assert ThreadRight(s, t);
    NeedsOrdered(th.op);
    assert Exact(s, t, th.pc.id);
    forall id | 0 <= id < |s'.locks| ensures LockRight(s', id) && Exact(s', t, id) {
      assert LockRight(s, id) && Exact(s, t, id);
    }
    OneThread(s, s', t);
  }

  lemma ReleaseKeeps(s: State, t: nat, fail: bool)
    requires Inv(s) && Enabled(s, Step(t, fail)) && (s.threads[t].pc == Using || s.threads[t].pc == Releasing)
    ensures Inv(Next(s, Step(t, fail)))
  {
    hide Lookup, Less, Free, Yields;
    var s' := Next(s, Step(t, fail));
    var th := s.threads[t];
    assert ThreadRight(s, t);
    NeedsOrdered(th.op);
    if th.pc == Releasing && th.held != [] {
      assert th.held[0] in th.held && th.held == [th.held[0]] + th.held[1..];
      assert LockRight(s, th.held[0]) && Exact(s, t, th.held[0]);
    } else {
      ReturnedSame(th.op, th.held);
    }
    forall id | 0 <= id < |s'.locks| ensures LockRight(s', id) && Exact(s', t, id) {
      assert LockRight(s, id) && Exact(s, t, id);
    }
    OneThread(s, s', t);
  }

  lemma ReturnedSame(op: Op, held: seq<nat>)
    ensures forall id :: id in Returned(op, held) <==> id in held
  {
  }

  lemma ReturnedPermuted(op: Op, held: seq<nat>)
    ensures multiset(Returned(op, held)) == multiset(held)
  {
    if |held| == 2 {
      assert held == [held[0], held[1]];
    }
  }

  lemma StepKeeps(s: State, a: Action)
    requires Inv(s) && Enabled(s, a)
    ensures Inv(Next(s, a))
  {
    match a
    case Step(t, fail) =>
      if s.threads[t].pc == Looking {
        LookKeeps(s, t, fail);
      } else if s.threads[t].pc.Acquiring? {
        AcquireKeeps(s, t, fail);
      } else {
        ReleaseKeeps(s, t, fail);
      }
    case Start(t, op) =>
      var s' := Next(s, a);
      assert ThreadRight(s, t);
      NeedsOrdered(op);
      forall id | 0 <= id < |s'.locks| ensures LockRight(s', id) && Exact(s', t, id) {
        assert LockRight(s, id) && Exact(s, t, id);
      }
      OneThread(s, s', t);
  }

  lemma {:induction false} RunInv(ss: seq<State>, actions: seq<Action>, n: nat)
    requires Run(ss, actions) && n < |ss|
    ensures Inv(ss[n])
  {
    hide Inv, Next, Enabled;
    if n == 0 {
      FirstInv(ss[0]);
    } else {
      RunInv(ss, actions, n - 1);
      assert StepAt(ss, actions, n - 1);
      StepKeeps(ss[n - 1], actions[n - 1]);
    }
  }

  lemma FirstInv(s: State)
    requires Initial(s)
    ensures Inv(s)
  {
  }

  // ---------------------------------------------------------------- theorems

  /** A thread that waits for a lock holds only strictly smaller ones. */
  lemma WaitsUpward(s: State, t: nat, id: nat)
    requires Inv(s) && t < |s.threads| && s.threads[t].pc.Acquiring? && id in s.threads[t].held
    ensures id < |s.paths| && s.threads[t].pc.id < |s.paths| && Less(s.paths[id], s.paths[s.threads[t].pc.id])
  {
    assert ThreadRight(s, t);
    NeedsOrdered(s.threads[t].op);
  }

  /** Of the threads below n that wait for a lock, one whose lock has the greatest path. */
  lemma {:induction false} Greatest(s: State, n: nat) returns (t: nat)
    requires Inv(s) && n <= |s.threads|
    requires exists x :: 0 <= x < n && s.threads[x].pc.Acquiring?
    ensures t < n && s.threads[t].pc.Acquiring? && s.threads[t].pc.id < |s.paths|
    ensures forall x :: 0 <= x < n && s.threads[x].pc.Acquiring? ==>
      s.threads[x].pc.id < |s.paths| && !Less(s.paths[s.threads[t].pc.id], s.paths[s.threads[x].pc.id])
  {
    var last := n - 1;
    assert ThreadRight(s, last);
    if exists x :: 0 <= x < last && s.threads[x].pc.Acquiring? {
      t := Greatest(s, last);
      if s.threads[last].pc.Acquiring? {
        var p, q := s.paths[s.threads[t].pc.id], s.paths[s.threads[last].pc.id];
        LessIrreflexive(q);
        if Less(p, q) {
          forall x | 0 <= x < last && s.threads[x].pc.Acquiring? ensures !Less(q, s.paths[s.threads[x].pc.id]) {
            if Less(q, s.paths[s.threads[x].pc.id]) {
              LessTransitive(p, q, s.paths[s.threads[x].pc.id]);
            }
          }
          t := last;
        }
      }
    } else {
      t := last;
      LessIrreflexive(s.paths[s.threads[t].pc.id]);
    }
  }

  /** Deadlock freedom: in every reachable state where some thread is in an operation, some thread
      that is in one can go on without anything failing. */
  lemma NoDeadlock(ss: seq<State>, actions: seq<Action>, n: nat, x: nat) returns (t: nat)
    requires Run(ss, actions) && n < |ss| && x < |ss[n].threads| && ss[n].threads[x].pc != Idle
    ensures t < |ss[n].threads| && ss[n].threads[t].pc != Idle && Enabled(ss[n], Step(t, false))
  {
    var s := ss[n];
    RunInv(ss, actions, n);
    if s.threads[x].pc.Acquiring? {
      var g := Greatest(s, |s.threads|);
      t := Behind(s, g);
    } else {
      t := x;
    }
  }

  /** The thread at the head of the greatest queue, or one that holds its lock, can go on. */
  lemma Behind(s: State, g: nat) returns (t: nat)
    requires Inv(s) && g < |s.threads| && s.threads[g].pc.Acquiring? && s.threads[g].pc.id < |s.paths|
    requires forall x :: 0 <= x < |s.threads| && s.threads[x].pc.Acquiring? ==>
      s.threads[x].pc.id < |s.paths| && !Less(s.paths[s.threads[g].pc.id], s.paths[s.threads[x].pc.id])
    ensures t < |s.threads| && s.threads[t].pc != Idle && Enabled(s, Step(t, false))
  {
    var id := s.threads[g].pc.id;
    assert LockRight(s, id);
    if Free(s.locks[id], s.threads[g].op) {
      if Yields(s, id, s.threads[g].op) {
        t := FirstInLine(s, id);
      } else {
        t := g;
      }
    } else {
      t := if s.locks[id].writer.Some? then s.locks[id].writer.value else Someone(s.locks[id].readers);
      assert Exact(s, t, id) && ThreadRight(s, t);
      if s.threads[t].pc.Acquiring? {
        WaitsUpward(s, t, id);
      }
    }
  }

  /** The lock is held by someone who is not in its way, or free for the writer that waits. */
  lemma FirstInLine(s: State, id: nat) returns (t: nat)
    requires Inv(s) && id < |s.locks| && s.locks[id].writer.None?
    requires exists t :: 0 <= t < |s.threads| && WriterWaits(s, id, t)
    requires forall x :: 0 <= x < |s.threads| && s.threads[x].pc.Acquiring? ==>
      s.threads[x].pc.id < |s.paths| && !Less(s.paths[id], s.paths[s.threads[x].pc.id])
    ensures t < |s.threads| && s.threads[t].pc != Idle && Enabled(s, Step(t, false))
  {
    assert LockRight(s, id);
    if s.locks[id].readers == {} {
      t :| 0 <= t < |s.threads| && WriterWaits(s, id, t);
    } else {
      t := Someone(s.locks[id].readers);
      assert Exact(s, t, id) && ThreadRight(s, t);
      if s.threads[t].pc.Acquiring? {
        WaitsUpward(s, t, id);
      }
    }
  }

  ghost function Someone(readers: set<nat>): nat
    requires readers != {}
    ensures Someone(readers) in readers
  {
    var t :| t in readers; t
  }

  /** A writer excludes everyone else from its lock. */
  lemma Exclusion(ss: seq<State>, actions: seq<Action>, n: nat, t: nat, u: nat, id: nat)
    requires Run(ss, actions) && n < |ss| && t < |ss[n].threads| && u < |ss[n].threads| && id < |ss[n].locks|
    requires id in ss[n].threads[t].held && id in ss[n].threads[u].held && !Shared(ss[n].threads[t].op)
    ensures t == u
  {
    RunInv(ss, actions, n);
    assert Exact(ss[n], t, id) && Exact(ss[n], u, id) && LockRight(ss[n], id);
  }

  /** A thread between operations has left no lock behind. */
  lemma NothingLeft(ss: seq<State>, actions: seq<Action>, n: nat, t: nat, id: nat)
    requires Run(ss, actions) && n < |ss| && t < |ss[n].threads| && ss[n].threads[t].pc == Idle && id < |ss[n].locks|
    ensures ss[n].locks[id].writer != Some(t) && t !in ss[n].locks[id].readers
  {
    RunInv(ss, actions, n);
    assert Exact(ss[n], t, id) && ThreadRight(ss[n], t);
  }

  /** The lock with number id is that of path p, and t has it for writing. */
  ghost predicate HasWrite(s: State, t: nat, p: string, id: nat)
    requires t < |s.threads|
  {
    id in s.threads[t].held && id < |s.locks| == |s.paths| && s.paths[id] == p && s.locks[id].writer == Some(t)
  }

  ghost predicate HasRead(s: State, t: nat, p: string, id: nat)
    requires t < |s.threads|
  {
    id in s.threads[t].held && id < |s.locks| == |s.paths| && s.paths[id] == p && t in s.locks[id].readers
  }

  /** A thread that uses its files holds the lock of every path it named: for reading if it
      reads, for writing if it writes, and both for writing if it named two. */
  lemma HoldsWhatItNeeds(ss: seq<State>, actions: seq<Action>, n: nat, t: nat)
    requires Run(ss, actions) && n < |ss| && t < |ss[n].threads| && ss[n].threads[t].pc == Using
    ensures match ss[n].threads[t].op
      case Read(p) => exists id :: HasRead(ss[n], t, p, id)
      case Write(p) => exists id :: HasWrite(ss[n], t, p, id)
      case Two(a, b) => (exists id :: HasWrite(ss[n], t, a, id)) && exists id :: HasWrite(ss[n], t, b, id)
  {
    RunInv(ss, actions, n);
    var s := ss[n];
    match s.threads[t].op
    case Read(p) =>
      HeldAt(s, t, 0);
      assert HasRead(s, t, p, s.threads[t].held[0]);
    case Write(p) =>
      HeldAt(s, t, 0);
      assert HasWrite(s, t, p, s.threads[t].held[0]);
    case Two(a, b) =>
      var last := |Needs(Two(a, b))| - 1;
      HeldAt(s, t, 0);
      HeldAt(s, t, last);
      assert HasWrite(s, t, Needs(Two(a, b))[0], s.threads[t].held[0]);
      assert HasWrite(s, t, Needs(Two(a, b))[last], s.threads[t].held[last]);
  }

  /** The lock taken k-th is that of the k-th path needed. */
  lemma HeldAt(s: State, t: nat, k: nat)
    requires Inv(s) && t < |s.threads| && s.threads[t].pc == Using && k < |Needs(s.threads[t].op)|
    ensures var th := s.threads[t];
      && |th.held| == |Needs(th.op)| && th.held[k] < |s.locks| == |s.paths|
      && s.paths[th.held[k]] == Needs(th.op)[k]
      && if th.op.Read? then t in s.locks[th.held[k]].readers else s.locks[th.held[k]].writer == Some(t)
  {
    assert ThreadRight(s, t);
    assert Exact(s, t, s.threads[t].held[k]);
  }

  lemma SamePath(s: State, i: nat, j: nat)
    requires Inv(s) && i < |s.paths| && j < |s.paths| && s.paths[i] == s.paths[j]
    ensures i == j
  {
  }

  /** The paths an operation works on. */
  function Files(op: Op): set<string> {
    match op
    case Read(p) => {p}
    case Write(p) => {p}
    case Two(a, b) => {a, b}
  }

  lemma LockOf(ss: seq<State>, actions: seq<Action>, n: nat, t: nat, p: string) returns (id: nat)
    requires Run(ss, actions) && n < |ss| && t < |ss[n].threads| && ss[n].threads[t].pc == Using
    requires p in Files(ss[n].threads[t].op)
    ensures id in ss[n].threads[t].held && id < |ss[n].locks| == |ss[n].paths| && ss[n].paths[id] == p
  {
    HoldsWhatItNeeds(ss, actions, n, t);
    if ss[n].threads[t].op.Read? {
      id :| HasRead(ss[n], t, p, id);
    } else {
      id :| HasWrite(ss[n], t, p, id);
    }
  }

  /** What the locks are for: two threads that use a common file both only read it. */
  lemma NoConflict(ss: seq<State>, actions: seq<Action>, n: nat, t: nat, u: nat, p: string)
    requires Run(ss, actions) && n < |ss| && t < |ss[n].threads| && u < |ss[n].threads| && t != u
    requires ss[n].threads[t].pc == Using && ss[n].threads[u].pc == Using
    requires p in Files(ss[n].threads[t].op) && p in Files(ss[n].threads[u].op)
    ensures ss[n].threads[t].op == Read(p) && ss[n].threads[u].op == Read(p)
  {
    RunInv(ss, actions, n);
    var i := LockOf(ss, actions, n, t, p);
    var j := LockOf(ss, actions, n, u, p);
    SamePath(ss[n], i, j);
    assert LockRight(ss[n], i) && Exact(ss[n], t, i) && Exact(ss[n], u, i);
  }

  /** An operation goes on unless a call fails: it looks its paths up, takes at most two locks,
      uses its files, and gives back what it holds, one lock a step. */
  lemma GoesOn(ss: seq<State>, actions: seq<Action>, n: nat, t: nat)
    requires Run(ss, actions) && n < |ss| && t < |ss[n].threads| && Enabled(ss[n], Step(t, false))
    ensures var th, th' := ss[n].threads[t], Next(ss[n], Step(t, false)).threads[t];
      && th'.op == th.op && |th'.held| <= 2
      && (th.pc == Looking ==> th'.pc.Acquiring? && th'.held == th.held)
      && (th.pc.Acquiring? ==> th'.held == th.held + [th.pc.id] && (th'.pc == Using || th'.pc == Looking))
      && (th'.pc == Looking ==> |th'.held| == 1)
      && (th.pc == Using ==> th'.pc == Releasing && multiset(th'.held) == multiset(th.held))
      && (th.pc == Releasing && th.held == [] ==> th'.pc == Idle)
      && (th.pc == Releasing && th.held != [] ==> th'.pc == Releasing && th'.held == th.held[1..])
  {
    RunInv(ss, actions, n);
    assert ThreadRight(ss[n], t);
    NeedsOrdered(ss[n].threads[t].op);
    ReturnedPermuted(ss[n].threads[t].op, ss[n].threads[t].held);
  }
}
