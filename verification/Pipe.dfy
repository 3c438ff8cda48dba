/** Pipes (kernel/pipe.c): a ring of PIPESIZE bytes with 32-bit counters that wrap.

    Writers and readers give up the pipe's lock only when they sleep, so each method is what one
    of them does from getting the lock to its return or its next sleep, and calls by any number
    of processes may come in any order.  The object carries the run it has made of the machine of
    PipeSleep, so what is proved there about sleepers holds of it. */
module Pipe {
  import opened Blocks
  import opened PipeSleep
  import opened RingBuffer

  const WRAP: nat := 0x1_0000_0000

  /** How far the writer has come when it returns, sleeps, or gives up with -1. */
  datatype WriteResult = Written(i: nat) | WriteSlept(i: nat) | WriteFailed(i: nat)

  datatype ReadResult = Delivered(bytes: seq<byte>) | ReadSlept | ReadFailed

  function WriterAct(p: nat, r: WriteResult, k: nat): Action {
    match r
    case Written(_) => Wrote(p, k)
    case WriteSlept(_) => WriterSlept(p, k)
    case WriteFailed(_) => GaveUp(p, k)
  }

  function ReaderAct(p: nat, r: ReadResult, empty: bool): Action {
    match r
    case Delivered(bytes) => Took(p, |bytes|)
    case ReadSlept => ReaderSlept(p)
    case ReadFailed => if empty then ReaderGaveUp(p) else Took(p, 0)
  }

  class Pipe {
    const data: array<byte>
    var nread: nat
    var nwrite: nat
    var readopen: bool
    var writeopen: bool
    var readers: set<nat>             // processes asleep on nread
    var writers: set<nat>             // processes asleep on nwrite
    ghost var accepted: seq<byte>     // all bytes ever taken from writers
    ghost var delivered: seq<byte>    // all bytes ever given to readers
    ghost var states: seq<State>      // the run so far
    ghost var acts: seq<Action>

    /** What has been written and not yet read. */
    ghost function Pending(): seq<byte>
      reads this
      requires |delivered| <= |accepted|
    {
      accepted[|delivered|..]
    }

    ghost function Now(): State
      reads this
      requires |delivered| <= |accepted|
    {
      State(|accepted| - |delivered|, readopen, writeopen, readers, writers)
    }

    /** The run ends in the state the pipe is in. */
    ghost predicate OnRun()
      reads this
    {
      |delivered| <= |accepted| && IsRun(states, acts) && states[|states| - 1] == Now()
    }

    /** The last step was a, by a process that found the pipe as it was. */
    twostate predicate Did(a: Action)
      reads this
    {
      && |old(delivered)| <= |old(accepted)| && |delivered| <= |accepted| && StepsTo(old(Now()), a, Now())
      && states == old(states) + [Now()] && acts == old(acts) + [a]
    }

    ghost predicate Valid()
      reads this, data
    {
      Ring() && OnRun()
    }

    ghost predicate Ring()
      reads this, data
    {
      && data.Length == PIPESIZE
      && delivered <= accepted && |accepted| - |delivered| <= PIPESIZE
      && nread == |delivered| % WRAP && nwrite == |accepted| % WRAP
      && InRing(data[..], |delivered|, Pending())
    }

    constructor ()
      ensures Valid() && accepted == [] && delivered == [] && fresh(data)
      ensures Now() == State(0, true, true, {}, {}) && acts == []
    {
      data := new byte[PIPESIZE];
      nread, nwrite, readopen, writeopen := 0, 0, true, true;
      readers, writers := {}, {};
      accepted, delivered := [], [];
      states, acts := [State(0, true, true, {}, {})], [];
    }

    /** Record a step whose fields have been changed already. */
    ghost method Step(s: State, a: Action)
      requires IsRun(states, acts) && states[|states| - 1] == s && |delivered| <= |accepted| && StepsTo(s, a, Now())
      modifies `states, `acts
      ensures OnRun() && states == old(states) + [Now()] && acts == old(acts) + [a]
    {
      ExtendRun(states, acts, a, Now());
      states, acts := states + [Now()], acts + [a];
    }

    /** pipewrite from byte `start` of src on; `copies` bytes can be copied in before a fault, and
        the test of killed is true from byte `killedAt` on.  Full exactly when PIPESIZE bytes are
        pending, though the counters wrap.  Bytes accepted before the writer gives up stay. */
    method Write(p: nat, src: seq<byte>, start: nat, n: int, killedAt: nat, copies: nat) returns (r: WriteResult)
      requires Valid() && n <= |src| && start <= |src| && Awake(Now(), p)
      modifies `nwrite, `readers, `writers, `accepted, `states, `acts, data
      ensures Valid() && start <= r.i <= |src| && accepted == old(accepted) + src[start..r.i]
      ensures n <= start ==> r == Written(start)
      ensures n > start ==>
        var stop := if !readopen || killedAt < start then start else killedAt;
        var full := start + PIPESIZE - |old(Pending())|;
        var bad := start + copies;
        && (r.WriteFailed? <==> stop < n && stop <= full && stop <= bad) && (r.WriteFailed? ==> r.i == stop)
        && (r.WriteSlept? <==> full < n && full < stop && full <= bad) && (r.WriteSlept? ==> r.i == full)
        && (r.Written? ==> r.i == if n <= bad then n else bad)
      ensures Did(WriterAct(p, r, r.i - start))
    {
      hide InRing, IsRun;
      ghost var s := Now();
      r := Fill(src, start, n, killedAt, copies);
      if !r.WriteFailed? {
        readers := {};
      }
      if r.WriteSlept? {
        writers := writers + {p};
      }
      Step(s, WriterAct(p, r, r.i - start));
    }

    /** The loop of pipewrite, up to its end, its sleep or its return of -1. */
    method Fill(src: seq<byte>, start: nat, n: int, killedAt: nat, copies: nat) returns (r: WriteResult)
      requires Ring() && n <= |src| && start <= |src|
      modifies `nwrite, `accepted, data
      ensures Ring() && start <= r.i <= |src| && accepted == old(accepted) + src[start..r.i]
      ensures n <= start ==> r == Written(start)
      ensures n > start ==>
        var stop := if !readopen || killedAt < start then start else killedAt;
        var full := start + PIPESIZE - |old(Pending())|;
        var bad := start + copies;
        && (r.WriteFailed? <==> stop < n && stop <= full && stop <= bad) && (r.WriteFailed? ==> r.i == stop)
        && (r.WriteSlept? <==> full < n && full < stop && full <= bad) && (r.WriteSlept? ==> r.i == full)
        && (r.Written? ==> r.i == if n <= bad then n else bad)
      ensures r.i > start || r.WriteSlept? ==> readopen
    {
      hide InRing;
      var i := start;
      assert src[start..start] == [];
      while i < n
        invariant start <= i <= |src| && i <= start + copies && Ring() && accepted == old(accepted) + src[start..i]
        invariant i == start || (readopen && start < i <= n && i <= killedAt)
        invariant i - start <= PIPESIZE - |old(Pending())|
      {
        if !readopen || i >= killedAt {
          return WriteFailed(i);
        }
        FullWhen(|delivered|, |accepted|);
        if nwrite == (nread + PIPESIZE) % WRAP {
          return WriteSlept(i);
        }
        if i == start + copies {
          break;
        }
        Put(src[i]);
        assert src[start..i + 1] == src[start..i] + [src[i]];
        i := i + 1;
      }
      return Written(i);
    }

    /** One byte into the ring. */
    method Put(ch: byte)
      requires Ring() && |Pending()| < PIPESIZE
      modifies `nwrite, `accepted, data
      ensures Ring() && accepted == old(accepted) + [ch]
    {
      NextCount(|accepted|);
      ghost var ring, pending := data[..], Pending();
      data[nwrite % PIPESIZE] := ch;
      PushRing(ring, |delivered|, pending, ch);
      assert data[..] == ring[|accepted| % PIPESIZE := ch];
      nwrite := (nwrite + 1) % WRAP;
      accepted := accepted + [ch];
      assert Pending() == pending + [ch];
    }

    /** piperead of up to n bytes.  Nothing for n > 0 only from an empty pipe whose write end is closed. */
    method Read(p: nat, n: int, killed: bool, copies: nat) returns (r: ReadResult)
      requires Valid() && Awake(Now(), p)
      modifies `nread, `readers, `writers, `delivered, `states, `acts
      ensures Valid()
      ensures r.ReadSlept? <==> old(Pending()) == [] && writeopen && !killed
      ensures !r.Delivered? ==> delivered == old(delivered)
      ensures r.ReadFailed? <==>
        (killed && writeopen && old(Pending()) == []) || (copies == 0 && n > 0 && old(Pending()) != [])
      ensures r.Delivered? ==> r.bytes <= old(Pending()) && delivered == old(delivered) + r.bytes
      ensures r.Delivered? ==> |r.bytes| >= n || |r.bytes| == copies || |r.bytes| == |old(Pending())|
      ensures r.Delivered? ==> |r.bytes| <= copies && |r.bytes| <= if n < 0 then 0 else n
      ensures r == Delivered([]) && n > 0 ==> old(Pending()) == [] && !writeopen
      ensures Did(ReaderAct(p, r, old(Pending()) == []))
    {
      hide InRing, IsRun;
      ghost var s := Now();
      EmptyWhen(|delivered|, |accepted|);
      if nread == nwrite && writeopen {
        if killed {
          Step(s, ReaderGaveUp(p));
          return ReadFailed;
        }
        readers := readers + {p};
        Step(s, ReaderSlept(p));
        return ReadSlept;
      }
      r := Drain(n, copies);
      writers := {};
      Step(s, Took(p, if r.Delivered? then |r.bytes| else 0));
    }

    /** The copying loop of piperead. */
    method Drain(n: int, copies: nat) returns (r: ReadResult)
      requires Ring()
      modifies `nread, `delivered
      ensures Ring() && !r.ReadSlept?
      ensures r.ReadFailed? <==> copies == 0 && n > 0 && old(Pending()) != []
      ensures r.ReadFailed? ==> delivered == old(delivered)
      ensures r.Delivered? ==> r.bytes <= old(Pending()) && delivered == old(delivered) + r.bytes
      ensures r.Delivered? ==> |r.bytes| >= n || |r.bytes| == copies || |r.bytes| == |old(Pending())|
      ensures r.Delivered? ==> |r.bytes| <= copies && |r.bytes| <= if n < 0 then 0 else n
      ensures r == Delivered([]) && n > 0 ==> old(Pending()) == []
    {
      hide InRing;
      var i, bytes := 0, [];
      while i < n
        invariant 0 <= i && (i <= n || i == 0) && i <= copies && Ring() && |bytes| == i
        invariant delivered == old(delivered) + bytes && accepted == old(accepted) && bytes <= old(Pending())
      {
        EmptyWhen(|delivered|, |accepted|);
        if nread == nwrite {
          break;
        }
        var ch := Peek();
        if i == copies {
          if i == 0 {
            return ReadFailed;
          }
          break;
        }
        Pop();
        bytes := bytes + [ch];
        i := i + 1;
      }
      return Delivered(bytes);
    }

    /** The oldest byte in the ring. */
    method Peek() returns (ch: byte)
      requires Ring() && Pending() != []
      ensures ch == Pending()[0] == accepted[|delivered|]
    {
      NextCount(|delivered|);
      assert data[..][(|delivered| + 0) % PIPESIZE] == Pending()[0];
      return data[nread % PIPESIZE];
    }

    method Pop()
      requires Ring() && Pending() != []
      modifies `nread, `delivered
      ensures Ring() && delivered == old(delivered) + [accepted[|old(delivered)|]]
    {
      NextCount(|delivered|);
      PopRing(data[..], |delivered|, Pending());
      ghost var pending := Pending();
      nread := (nread + 1) % WRAP;
      delivered := delivered + [accepted[|delivered|]];
      assert Pending() == pending[1..];
    }

    /** pipeclose; true when both ends are closed and the pipe is freed, and then no one sleeps on it. */
    method Close(writable: bool) returns (freed: bool)
      requires Valid()
      modifies `readopen, `writeopen, `readers, `writers, `states, `acts
      ensures Valid() && freed == (!readopen && !writeopen) && Did(Action.Close(writable))
      ensures freed ==> readers == {} && writers == {}
    {
      ghost var s := Now();
      if writable {
        writeopen := false;
        readers := {};
      } else {
        readopen := false;
        writers := {};
      }
      Step(s, Action.Close(writable));
      Sleepers(states, acts, |states| - 1);
      freed := !readopen && !writeopen;
    }

    /** kill makes a sleeping process runnable; it finds itself killed when it has the lock again. */
    method Rouse(p: nat)
      requires Valid()
      modifies `readers, `writers, `states, `acts
      ensures Valid() && Did(Action.Rouse(p)) && Awake(Now(), p)
    {
      ghost var s := Now();
      readers, writers := readers - {p}, writers - {p};
      Step(s, Action.Rouse(p));
    }
  }

  /** A reader sleeps, a writer puts its first byte in and is killed: the byte is in the pipe, and the
      reader sleeps on.  Any writer or close that comes after would wake it. */
  method ForgottenReader() returns (pipe: Pipe)
    ensures fresh(pipe) && pipe.Valid() && pipe.Pending() == [1] && pipe.readers == {1} && Lost(pipe.Now())
    ensures pipe.acts == [ReaderSlept(1), GaveUp(2, 1)]
  {
    pipe := new Pipe();
    var r := pipe.Read(1, 1, false, 1);
    var w := pipe.Write(2, [1, 2], 0, 2, 1, 2);
    assert w == WriteFailed(1);
    assert [1, 2][0..1] == [1];
  }

  /** PIPESIZE divides 2^32, so places in the ring do not jump when a counter wraps. */
  lemma NextCount(n: nat)
    ensures (n % WRAP + 1) % WRAP == (n + 1) % WRAP && n % WRAP % PIPESIZE == n % PIPESIZE
  {
    AddWrap(n, 1, WRAP);
    WrapAt(n, WRAP, 0x80_0000, PIPESIZE);
  }

  lemma EmptyWhen(m: nat, n: nat)
    requires m <= n <= m + PIPESIZE
    ensures m % WRAP == n % WRAP <==> m == n
  {
    SameCount(m, n, WRAP);
  }

  lemma FullWhen(m: nat, n: nat)
    requires m <= n <= m + PIPESIZE
    ensures n % WRAP == (m % WRAP + PIPESIZE) % WRAP <==> n == m + PIPESIZE
  {
    AddWrap(m, PIPESIZE, WRAP);
    SameCount(n, m + PIPESIZE, WRAP);
  }
}
