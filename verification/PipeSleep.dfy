/** Who sleeps on a pipe (kernel/pipe.c).  A writer or a reader holds the pipe's lock from acquire to
    its return or its next sleep, and sleep gives the lock up only once the process counts as asleep,
    so a step is everything one process does in between; any number of processes take steps in any
    order. */
module PipeSleep {

  const PIPESIZE: nat := 512

  /** pending counts the bytes in the pipe; readers sleep on nread, writers on nwrite. */
  datatype State = State(pending: nat, readopen: bool, writeopen: bool, readers: set<nat>, writers: set<nat>)

  datatype Action =
    | Wrote(p: nat, k: nat)         // pipewrite puts k bytes in and returns, waking the readers
    | WriterSlept(p: nat, k: nat)   // it puts k bytes in, finds the pipe full, wakes the readers and sleeps
    | GaveUp(p: nat, k: nat)        // it puts k bytes in and returns -1, waking no one
    | Took(p: nat, k: nat)          // piperead takes k bytes out and returns, waking the writers
    | ReaderSlept(p: nat)
    | ReaderGaveUp(p: nat)          // killed before an empty pipe
    | Close(writable: bool)
    | Rouse(p: nat)                 // kill

  predicate Awake(s: State, p: nat) {
    p !in s.readers && p !in s.writers
  }

  predicate Enabled(s: State, a: Action) {
    match a
    case Wrote(p, k) => Awake(s, p) && s.pending + k <= PIPESIZE && (k > 0 ==> s.readopen)
    case WriterSlept(p, k) => Awake(s, p) && s.pending + k == PIPESIZE && s.readopen
    case GaveUp(p, k) => Awake(s, p) && s.pending + k <= PIPESIZE && (k > 0 ==> s.readopen)
    case Took(p, k) => Awake(s, p) && k <= s.pending && !(s.pending == 0 && s.writeopen)
    case ReaderSlept(p) => Awake(s, p) && s.pending == 0 && s.writeopen
    case ReaderGaveUp(p) => Awake(s, p) && s.pending == 0 && s.writeopen
    case Close(_) => true
    case Rouse(_) => true
  }

  function Next(s: State, a: Action): State
    requires Enabled(s, a)
  {
    match a
    case Wrote(_, k) => s.(pending := s.pending + k, readers := {})
    case WriterSlept(p, k) => s.(pending := PIPESIZE, readers := {}, writers := s.writers + {p})
    case GaveUp(_, k) => s.(pending := s.pending + k)
    case Took(_, k) => s.(pending := s.pending - k, writers := {})
    case ReaderSlept(p) => s.(readers := s.readers + {p})
    case ReaderGaveUp(_) => s
    case Close(writable) =>
      if writable then s.(writeopen := false, readers := {}) else s.(readopen := false, writers := {})
    case Rouse(p) => s.(readers := s.readers - {p}, writers := s.writers - {p})
  }

  /** A new pipe and what becomes of it. */
  ghost predicate IsRun(ss: seq<State>, acts: seq<Action>) {
    && |ss| == |acts| + 1 && ss[0] == State(0, true, true, {}, {})
    && forall i :: 0 <= i < |acts| ==> StepsTo(ss[i], acts[i], ss[i + 1])
  }

  predicate StepsTo(s: State, a: Action, s': State) {
    Enabled(s, a) && s' == Next(s, a)
  }

  /** A reader sleeps although there is something to read. */
  predicate Lost(s: State) {
    s.readers != {} && s.pending > 0
  }

  /** A writer stops short of its last byte, having put some in, while a reader sleeps. */
  predicate Forgets(s: State, a: Action) {
    a.GaveUp? && a.k > 0 && s.readers != {}
  }

  predicate Inv(s: State) {
    && s.pending <= PIPESIZE
    && (s.writers != {} ==> s.pending == PIPESIZE && s.readopen)
    && (s.readers != {} ==> s.writeopen && s.writers == {})
  }

  /** A reader is left asleep before bytes by exactly the steps that forget it. */
  lemma LostExactly(s: State, a: Action)
    requires Inv(s) && Enabled(s, a) && !Lost(s)
    ensures Inv(Next(s, a)) && (Lost(Next(s, a)) <==> Forgets(s, a))
  {
  }

  lemma {:induction false} RunInv(ss: seq<State>, acts: seq<Action>, i: nat)
    requires IsRun(ss, acts) && i < |ss|
    ensures Inv(ss[i])
  {
    if i > 0 {
      RunInv(ss, acts, i - 1);
      assert StepsTo(ss[i - 1], acts[i - 1], ss[i]);
    }
  }

  /** In every state of every run, a sleeping writer has a full pipe before it that is open for
      reading, a sleeping reader a pipe that is open for writing, and never do both kinds sleep; so
      nothing sleeps on a pipe that is freed. */
  lemma Sleepers(ss: seq<State>, acts: seq<Action>, i: nat)
    requires IsRun(ss, acts) && i < |ss|
    ensures ss[i].writers != {} ==> ss[i].pending == PIPESIZE && ss[i].readopen && ss[i].readers == {}
    ensures ss[i].readers != {} ==> ss[i].writeopen && ss[i].writers == {}
    ensures !ss[i].readopen && !ss[i].writeopen ==> ss[i].readers == {} && ss[i].writers == {}
  {
    RunInv(ss, acts, i);
  }

  /** Step j forgot a reader, and from then to state i some reader has slept before bytes. */
  ghost predicate ForgottenAt(ss: seq<State>, acts: seq<Action>, j: nat, i: nat)
    requires |ss| == |acts| + 1
  {
    j < i < |ss| && Forgets(ss[j], acts[j]) && forall m :: j < m <= i ==> Lost(ss[m])
  }

  /** A reader sleeps before bytes exactly when some step forgot one and none has slept before an
      empty pipe, or been woken, since. */
  lemma {:induction false} ForgottenExactly(ss: seq<State>, acts: seq<Action>, i: nat)
    requires IsRun(ss, acts) && i < |ss|
    ensures Lost(ss[i]) <==> exists j :: ForgottenAt(ss, acts, j, i)
  {
    if Lost(ss[i]) {
      RunInv(ss, acts, i - 1);
      assert StepsTo(ss[i - 1], acts[i - 1], ss[i]);
      if Lost(ss[i - 1]) {
        ForgottenExactly(ss, acts, i - 1);
        var j :| ForgottenAt(ss, acts, j, i - 1);
        assert ForgottenAt(ss, acts, j, i);
      } else {
        LostExactly(ss[i - 1], acts[i - 1]);
        assert ForgottenAt(ss, acts, i - 1, i);
      }
    }
  }

  /** Unless a killed writer gives up after its first byte while a reader sleeps, whenever the lock is
      free a sleeping reader has an empty pipe before it and a sleeping writer a full one. */
  lemma NoLostWakeup(ss: seq<State>, acts: seq<Action>, i: nat)
    requires IsRun(ss, acts) && i < |ss| && forall j :: 0 <= j < i ==> !Forgets(ss[j], acts[j])
    ensures ss[i].readers != {} ==> ss[i].pending == 0 && ss[i].writeopen
    ensures ss[i].writers != {} ==> ss[i].pending == PIPESIZE && ss[i].readopen
  {
    RunInv(ss, acts, i);
    ForgottenExactly(ss, acts, i);
  }

  lemma ExtendRun(ss: seq<State>, acts: seq<Action>, a: Action, s: State)
    requires IsRun(ss, acts) && StepsTo(ss[|ss| - 1], a, s)
    ensures IsRun(ss + [s], acts + [a])
  {
    var ss', acts' := ss + [s], acts + [a];
    forall i | 0 <= i < |acts'| ensures StepsTo(ss'[i], acts'[i], ss'[i + 1]) {
      if i < |acts| {
        assert StepsTo(ss[i], acts[i], ss[i + 1]);
      }
    }
  }
}
