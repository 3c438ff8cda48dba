/** The disk driver of kernel/virtio_disk.c: split virtqueues (section 2.6 of VIRTIO 1.1) and the
    block device (section 5.2), with the device as an environment that takes posted chains in
    order and completes each once, in any order.

    virtio_disk_rw gives up vdisk_lock while it sleeps, so it is two methods here, Submit and
    Finish; an interrupt and the device may act between any two methods. */
module Virtio {
  import opened Blocks
  import opened Options
  import opened RingBuffer
  import opened Sets

  const NUM: nat := 8
  const WRAP: nat := 0x1_0000  // ring indices are 16 bits wide

  const F_NEXT: nat := 1
  const F_WRITE: nat := 2

  /** What a descriptor points at: a request header, the data of a buffer, a status byte. */
  datatype Addr = Nowhere | ToOp(i: nat) | ToData(b: nat) | ToStatus(i: nat)

  datatype Desc = Desc(addr: Addr, len: nat, flags: nat, next: nat)

  datatype Op = Op(write: bool, sector: nat)

  datatype Info = Info(b: Option<nat>, status: nat)

  const NO_DESC: Desc := Desc(Nowhere, 0, 0, 0)

  /** Who has a descriptor: no one, the running code, or the chain with that head. */
  datatype Owner = Idle | Held | Of(head: nat)

  /** A request on its way: posted, taken by the device, completed, and seen by the interrupt handler. */
  datatype Stage = Posted | Taken | Completed | Seen

  datatype Chain = Chain(second: nat, third: nat, b: nat, write: bool, sector: nat, stage: Stage)

  datatype Queue = Queue(
    free: seq<bool>, desc: seq<Desc>, ops: seq<Op>, info: seq<Info>,
    availRing: seq<nat>, availIdx: nat, devIdx: nat,
    usedRing: seq<nat>, usedDev: nat, usedIdx: nat,
    busy: set<nat>)

  /** The requests in flight; `posted` and `done` are the heads the rings hold, `taken` and `seen`
      how many have gone through them since the start. */
  datatype Flight = Flight(
    owner: seq<Owner>, chains: map<nat, Chain>, posted: seq<nat>, taken: nat, done: seq<nat>, seen: nat)

  ghost predicate Sizes(q: Queue, f: Flight) {
    && |q.free| == |q.desc| == |q.ops| == |q.info| == |q.availRing| == |q.usedRing| == |f.owner| == NUM
    && forall h :: h in f.chains ==> h < NUM && f.chains[h].second < NUM && f.chains[h].third < NUM
  }

  /** A descriptor is free when no one has it, and one that is in a chain is one of its three. */
  ghost predicate DescRight(q: Queue, f: Flight, i: nat)
    requires Sizes(q, f) && i < NUM
  {
    && (q.free[i] <==> f.owner[i].Idle?)
    && (f.owner[i].Of? ==> var h := f.owner[i].head;
          h in f.chains && (i == h || i == f.chains[h].second || i == f.chains[h].third))
  }

  /** The descriptors of a chain are three of its own, say what was asked for, and its buffer is
      the disk's until the interrupt handler has seen the completion. */
  ghost predicate ChainRight(q: Queue, f: Flight, h: nat)
    requires Sizes(q, f) && h in f.chains
  {
    var c := f.chains[h];
    && h != c.second && h != c.third && c.second != c.third
    && f.owner[h] == Of(h) && f.owner[c.second] == Of(h) && f.owner[c.third] == Of(h)
    && q.desc[h] == Desc(ToOp(h), 16, F_NEXT, c.second)
    && q.desc[c.second] == Desc(ToData(c.b), BSIZE, F_NEXT + (if c.write then 0 else F_WRITE), c.third)
    && q.desc[c.third] == Desc(ToStatus(h), 1, F_WRITE, 0)
    && q.ops[h] == Op(c.write, c.sector) && q.info[h].b == Some(c.b)
    && q.info[h].status == (if c.stage.Posted? || c.stage.Taken? then 0xff else 0)
    && (c.b in q.busy <==> !c.stage.Seen?)
    && (c.stage.Posted? <==> h in f.posted) && (c.stage.Completed? <==> h in f.done)
  }

  /** No buffer is in two requests. */
  ghost predicate Apart(f: Flight) {
    forall h, k :: h in f.chains && k in f.chains && f.chains[h].b == f.chains[k].b ==> h == k
  }

  ghost predicate BusyRight(q: Queue, f: Flight, b: nat) {
    b in q.busy ==> exists h :: h in f.chains && f.chains[h].b == b
  }

  ghost predicate Rings(q: Queue, f: Flight) {
    && InRing(q.availRing, f.taken, f.posted) && InRing(q.usedRing, f.seen, f.done)
    && |q.availRing| == |q.usedRing| == NUM
    && Distinct(f.posted) && Distinct(f.done)
    && q.devIdx == f.taken % WRAP && q.availIdx == (f.taken + |f.posted|) % WRAP
    && q.usedIdx == f.seen % WRAP && q.usedDev == (f.seen + |f.done|) % WRAP
    && (forall h :: h in f.posted || h in f.done ==> h in f.chains)
  }

  ghost predicate Good(q: Queue, f: Flight, held: set<nat>) {
    && Sizes(q, f) && Apart(f) && Rings(q, f)
    && (forall i {:trigger DescRight(q, f, i)} :: 0 <= i < NUM ==> DescRight(q, f, i))
    && (forall h {:trigger ChainRight(q, f, h)} :: h in f.chains ==> ChainRight(q, f, h))
    && (forall b {:trigger BusyRight(q, f, b)} :: BusyRight(q, f, b))
    && (forall i :: i in held <==> 0 <= i < NUM && f.owner[i] == Held)
  }

  // ---------------------------------------------------------------- rings

  /** The indices differ exactly when something is between them. */
  lemma IndexGap(n: nat, k: nat)
    requires k <= NUM
    ensures n % WRAP == (n + k) % WRAP <==> k == 0
  {
    SameCount(n, n + k, WRAP);
  }

  lemma NextIndex(n: nat)
    ensures (n % WRAP + 1) % WRAP == (n + 1) % WRAP && n % WRAP % NUM == n % NUM
  {
    AddWrap(n, 1, WRAP);
    WrapAt(n, WRAP, 8192, NUM);
  }

  /** Heads that are all different and below NUM, with one missing, leave room in the ring. */
  lemma Room(queue: seq<nat>, h: nat)
    requires Distinct(queue)
    requires forall x :: x in queue ==> x < NUM
    requires h < NUM && h !in queue
    ensures |queue| < NUM
  {
    hide Range;
    SeqSize(queue);
    var s := Elements(queue);
    assert s + {h} <= Range(0, NUM);
    SubsetSize(s + {h}, Range(0, NUM));
    assert |s + {h}| == |s| + 1;
  }

  // ---------------------------------------------------------------- what each action keeps

  lemma TakeGood(q: Queue, f: Flight, held: set<nat>, i: nat)
    requires Good(q, f, held) && i < NUM && q.free[i]
    ensures i !in held && f.owner[i].Idle?
    ensures Good(q.(free := q.free[i := false]), f.(owner := f.owner[i := Held]), held + {i})
  {
    var q', f' := q.(free := q.free[i := false]), f.(owner := f.owner[i := Held]);
    assert DescRight(q, f, i);
    forall j | 0 <= j < NUM ensures DescRight(q', f', j) {
      assert DescRight(q, f, j);
    }
    forall h | h in f'.chains ensures ChainRight(q', f', h) {
      assert ChainRight(q, f, h);
    }
    forall b ensures BusyRight(q', f', b) {
      assert BusyRight(q, f, b);
    }
  }

  lemma GiveGood(q: Queue, f: Flight, held: set<nat>, i: nat)
    requires Good(q, f, held) && i in held
    ensures i < NUM && !q.free[i]
    ensures Good(q.(desc := q.desc[i := NO_DESC], free := q.free[i := true]),
                 f.(owner := f.owner[i := Idle]), held - {i})
  {
    var q', f' := q.(desc := q.desc[i := NO_DESC], free := q.free[i := true]), f.(owner := f.owner[i := Idle]);
    assert DescRight(q, f, i);
    forall j | 0 <= j < NUM ensures DescRight(q', f', j) {
      assert DescRight(q, f, j);
    }
    forall h | h in f'.chains ensures ChainRight(q', f', h) {
      assert ChainRight(q, f, h);
    }
    forall b ensures BusyRight(q', f', b) {
      assert BusyRight(q, f, b);
    }
  }

  ghost function Chained(q: Queue, h: nat, c: Chain): Queue
    requires |q.desc| == |q.ops| == |q.info| == |q.availRing| == NUM && h < NUM && c.second < NUM && c.third < NUM
  {
    q.(ops := q.ops[h := Op(c.write, c.sector)],
       desc := q.desc[h := Desc(ToOp(h), 16, F_NEXT, c.second)]
                     [c.second := Desc(ToData(c.b), BSIZE, F_NEXT + (if c.write then 0 else F_WRITE), c.third)]
                     [c.third := Desc(ToStatus(h), 1, F_WRITE, 0)],
       info := q.info[h := Info(Some(c.b), 0xff)],
       busy := q.busy + {c.b},
       availRing := q.availRing[q.availIdx % NUM := h],
       availIdx := (q.availIdx + 1) % WRAP)
  }

  ghost function Owned(owner: seq<Owner>, h: nat, c: Chain, o: Owner): seq<Owner>
    requires |owner| == NUM && h < NUM && c.second < NUM && c.third < NUM
  {
    owner[h := o][c.second := o][c.third := o]
  }

  ghost predicate CanSubmit(q: Queue, f: Flight, h: nat, c: Chain) {
    && h != c.second && h != c.third && c.second != c.third && c.stage == Posted
    && Good(q, f, {h, c.second, c.third}) && c.b !in q.busy && (forall k :: k in f.chains ==> f.chains[k].b != c.b)
    && h < NUM && c.second < NUM && c.third < NUM
  }

  ghost function Submitted(f: Flight, h: nat, c: Chain): Flight
    requires |f.owner| == NUM && h < NUM && c.second < NUM && c.third < NUM
  {
    f.(owner := Owned(f.owner, h, c, Of(h)), chains := f.chains[h := c], posted := f.posted + [h])
  }

  lemma HeldThree(q: Queue, f: Flight, h: nat, c: Chain)
    requires CanSubmit(q, f, h, c)
    ensures f.owner[h] == f.owner[c.second] == f.owner[c.third] == Held && h !in f.chains
    ensures forall i :: 0 <= i < NUM && f.owner[i] == Held ==> i == h || i == c.second || i == c.third
  {
    var held := {h, c.second, c.third};
    assert h in held && c.second in held && c.third in held;
    assert h in f.chains ==> ChainRight(q, f, h);
  }

  lemma SubmitRings(q: Queue, f: Flight, h: nat, c: Chain)
    requires CanSubmit(q, f, h, c) && h !in f.chains
    ensures Rings(Chained(q, h, c), Submitted(f, h, c))
  {
    Room(f.posted, h);
    PushRing(q.availRing, f.taken, f.posted, h);
    NextIndex(f.taken + |f.posted|);
  }

  lemma SubmitDesc(q: Queue, f: Flight, h: nat, c: Chain, i: nat)
    requires CanSubmit(q, f, h, c) && i < NUM && Sizes(Chained(q, h, c), Submitted(f, h, c))
    ensures DescRight(Chained(q, h, c), Submitted(f, h, c), i)
  {
    assert DescRight(q, f, i);
    HeldThree(q, f, h, c);
  }

  lemma SubmitChain(q: Queue, f: Flight, h: nat, c: Chain, k: nat)
    requires CanSubmit(q, f, h, c) && (k in f.chains || k == h) && Sizes(Chained(q, h, c), Submitted(f, h, c))
    ensures ChainRight(Chained(q, h, c), Submitted(f, h, c), k)
  {
    HeldThree(q, f, h, c);
    if k != h {
      assert ChainRight(q, f, k);
    } else {
      assert h !in f.done;
    }
  }

  lemma SubmitGood(q: Queue, f: Flight, h: nat, c: Chain)
    requires CanSubmit(q, f, h, c)
    ensures h !in f.chains && Good(Chained(q, h, c), Submitted(f, h, c), {})
  {
    var q', f' := Chained(q, h, c), Submitted(f, h, c);
    HeldThree(q, f, h, c);
    SubmitRings(q, f, h, c);
    assert Sizes(q', f');
    hide DescRight, ChainRight, Rings, Chained;
    forall i | 0 <= i < NUM ensures DescRight(q', f', i) {
      SubmitDesc(q, f, h, c, i);
    }
    forall k | k in f'.chains ensures ChainRight(q', f', k) {
      SubmitChain(q, f, h, c, k);
    }
    forall b ensures BusyRight(q', f', b) {
      SubmitBusy(q, f, h, c, b);
    }
  }

  lemma SubmitBusy(q: Queue, f: Flight, h: nat, c: Chain, b: nat)
    requires CanSubmit(q, f, h, c) && h !in f.chains
    ensures BusyRight(Chained(q, h, c), Submitted(f, h, c), b)
  {
    var f' := Submitted(f, h, c);
    assert BusyRight(q, f, b);
    assert h in f'.chains && f'.chains[h].b == c.b;
    assert forall k :: k in f.chains ==> k in f'.chains && f'.chains[k] == f.chains[k];
  }

  /** A chain moves to its next stage; its descriptors and buffer stay. */
  ghost function Moved(f: Flight, h: nat, stage: Stage): map<nat, Chain>
    requires h in f.chains
  {
    f.chains[h := f.chains[h].(stage := stage)]
  }

  lemma FetchGood(q: Queue, f: Flight)
    requires Good(q, f, {}) && q.devIdx != q.availIdx
    ensures f.posted != [] && |q.availRing| == NUM && q.availRing[q.devIdx % NUM] == f.posted[0]
    ensures f.posted[0] in f.chains
    ensures var f' := f.(chains := Moved(f, f.posted[0], Taken), posted := f.posted[1..], taken := f.taken + 1);
      Good(q.(devIdx := (q.devIdx + 1) % WRAP), f', {})
  {
    IndexGap(f.taken, |f.posted|);
    PopRing(q.availRing, f.taken, f.posted);
    NextIndex(f.taken);
    var h := f.posted[0];
    assert h in f.posted;
    assert f.posted == [h] + f.posted[1..];
    var q' := q.(devIdx := (q.devIdx + 1) % WRAP);
    var f' := f.(chains := Moved(f, h, Taken), posted := f.posted[1..], taken := f.taken + 1);
    KeepsRest(q, f, q', f', h);
  }

  /** What does not depend on the stage of chain h. */
  lemma KeepsRest(q: Queue, f: Flight, q': Queue, f': Flight, h: nat)
    requires Good(q, f, {}) && h in f.chains && h in f'.chains && f'.owner == f.owner
    requires f'.chains == f.chains[h := f.chains[h].(stage := f'.chains[h].stage)]
    requires q'.free == q.free && q'.desc == q.desc && q'.ops == q.ops
    requires |q'.info| == |q'.availRing| == |q'.usedRing| == NUM
    requires forall k :: 0 <= k < NUM && k != h ==> q'.info[k] == q.info[k]
    requires forall k :: k != h ==> (k in f'.posted <==> k in f.posted) && (k in f'.done <==> k in f.done)
    requires q'.busy == q.busy || q'.busy == q.busy - {f.chains[h].b}
    requires Rings(q', f')
    requires ChainRight(q, f, h) && Sizes(q', f') ==> ChainRight(q', f', h)
    ensures Good(q', f', {})
  {
    assert ChainRight(q, f, h);
    forall j | 0 <= j < NUM ensures DescRight(q', f', j) {
      assert DescRight(q, f, j);
    }
    forall k | k in f'.chains ensures ChainRight(q', f', k) {
      assert ChainRight(q, f, k);
    }
    forall b ensures BusyRight(q', f', b) {
      assert BusyRight(q, f, b);
      assert forall k :: k in f.chains ==> k in f'.chains && f'.chains[k].b == f.chains[k].b;
    }
  }

  lemma CompleteGood(q: Queue, f: Flight, h: nat)
    requires Good(q, f, {}) && h in f.chains && f.chains[h].stage == Taken
    ensures h < |q.info| && |q.usedRing| == NUM
    ensures var f' := f.(chains := Moved(f, h, Completed), done := f.done + [h]);
      Good(q.(info := q.info[h := q.info[h].(status := 0)],
              usedRing := q.usedRing[q.usedDev % NUM := h], usedDev := (q.usedDev + 1) % WRAP), f', {})
  {
    assert ChainRight(q, f, h);
    var q' := q.(info := q.info[h := q.info[h].(status := 0)],
                 usedRing := q.usedRing[q.usedDev % NUM := h], usedDev := (q.usedDev + 1) % WRAP);
    var f' := f.(chains := Moved(f, h, Completed), done := f.done + [h]);
    Room(f.done, h);
    PushRing(q.usedRing, f.seen, f.done, h);
    NextIndex(f.seen + |f.done|);
    KeepsRest(q, f, q', f', h);
  }

  lemma SeeGood(q: Queue, f: Flight)
    requires Good(q, f, {}) && q.usedIdx != q.usedDev
    ensures f.done != [] && f.done[0] in f.chains && f.done[0] < NUM && |q.usedRing| == |q.info| == NUM
    ensures q.usedRing[q.usedIdx % NUM] == f.done[0] && q.info[f.done[0]] == Info(Some(f.chains[f.done[0]].b), 0)
    ensures var f' := f.(chains := Moved(f, f.done[0], Seen), done := f.done[1..], seen := f.seen + 1);
      Good(q.(busy := q.busy - {f.chains[f.done[0]].b}, usedIdx := (q.usedIdx + 1) % WRAP), f', {})
  {
    IndexGap(f.seen, |f.done|);
    PopRing(q.usedRing, f.seen, f.done);
    NextIndex(f.seen);
    var h := f.done[0];
    assert h in f.done;
    assert f.done == [h] + f.done[1..];
    assert ChainRight(q, f, h);
    var q' := q.(busy := q.busy - {f.chains[h].b}, usedIdx := (q.usedIdx + 1) % WRAP);
    var f' := f.(chains := Moved(f, h, Seen), done := f.done[1..], seen := f.seen + 1);
    KeepsRest(q, f, q', f', h);
  }

  ghost predicate Unchains(q: Queue, f: Flight, h: nat, q': Queue, f': Flight) {
    && Sizes(q, f) && h in f.chains
    && q' == q.(info := q.info[h := q.info[h].(b := None)])
    && f' == f.(owner := Owned(f.owner, h, f.chains[h], Held), chains := f.chains - {h})
  }

  /** Another chain, or a descriptor, when chain h comes apart. */
  lemma UnchainOther(q: Queue, f: Flight, h: nat, q': Queue, f': Flight, k: nat)
    requires Unchains(q, f, h, q', f') && ChainRight(q, f, h) && k in f.chains && k != h && ChainRight(q, f, k)
    ensures Sizes(q', f') && k in f'.chains && ChainRight(q', f', k)
  {
  }

  lemma UnchainDesc(q: Queue, f: Flight, h: nat, q': Queue, f': Flight, j: nat)
    requires Unchains(q, f, h, q', f') && ChainRight(q, f, h) && j < NUM && DescRight(q, f, j)
    ensures Sizes(q', f') && DescRight(q', f', j)
  {
  }

  lemma UnchainGood(q: Queue, f: Flight, h: nat)
    requires Good(q, f, {}) && h in f.chains && f.chains[h].b !in q.busy
    ensures var c := f.chains[h];
      && Sizes(q, f) && ChainRight(q, f, h)
      && Good(q.(info := q.info[h := q.info[h].(b := None)]),
              f.(owner := Owned(f.owner, h, c, Held), chains := f.chains - {h}), {h, c.second, c.third})
  {
    var c := f.chains[h];
    assert ChainRight(q, f, h);
    var q' := q.(info := q.info[h := q.info[h].(b := None)]);
    var f' := f.(owner := Owned(f.owner, h, c, Held), chains := f.chains - {h});
    assert Unchains(q, f, h, q', f');
    assert h !in f.posted && h !in f.done && Sizes(q', f') && h < NUM && c.second < NUM && c.third < NUM;
    hide ChainRight, DescRight, InRing;
    forall j | 0 <= j < NUM ensures DescRight(q', f', j) {
      assert DescRight(q, f, j);
      UnchainDesc(q, f, h, q', f', j);
    }
    forall k | k in f'.chains ensures ChainRight(q', f', k) {
      assert ChainRight(q, f, k);
      UnchainOther(q, f, h, q', f', k);
    }
    forall b ensures BusyRight(q', f', b) {
      assert BusyRight(q, f, b);
      if b in q.busy {
        var k :| k in f.chains && f.chains[k].b == b;
        assert k in f'.chains && f'.chains[k].b == b;
      }
    }
  }

  // ---------------------------------------------------------------- the driver and the device

  class VirtioDisk {
    var free: seq<bool>
    var desc: seq<Desc>
    var ops: seq<Op>
    var info: seq<Info>
    var availRing: seq<nat>
    var availIdx: nat
    var devIdx: nat                // how far the device has read the avail ring
    var usedRing: seq<nat>
    var usedDev: nat               // used->idx, which the device advances
    var usedIdx: nat               // how far the driver has read the used ring
    var busy: set<nat>             // buffers whose disk field is 1
    var data: nat -> Block         // contents of buffers
    var blocks: nat -> Block       // contents of the disk, by first sector
    ghost var flight: Flight

    ghost function Now(): Queue
      reads this
    {
      Queue(free, desc, ops, info, availRing, availIdx, devIdx, usedRing, usedDev, usedIdx, busy)
    }

    ghost predicate Valid(held: set<nat>)
      reads this
    {
      Good(Now(), flight, held)
    }

    constructor (blocks: nat -> Block)
      ensures Valid({}) && flight.chains == map[] && busy == {} && this.blocks == blocks
      ensures forall i :: 0 <= i < NUM ==> free[i]
    {
      free, desc := seq(NUM, _ => true), seq(NUM, _ => NO_DESC);
      ops, info := seq(NUM, _ => Op(false, 0)), seq(NUM, _ => Info(None, 0));
      availRing, availIdx, devIdx := seq(NUM, _ => 0), 0, 0;
      usedRing, usedDev, usedIdx := seq(NUM, _ => 0), 0, 0;
      busy, data, this.blocks := {}, (_: nat) => ZeroBlock(), blocks;
      flight := Flight(seq(NUM, _ => Idle), map[], [], 0, [], 0);
      new;
      forall b ensures BusyRight(Now(), flight, b) {
      }
    }

    /** The first free descriptor, or -1. */
    method AllocDesc(ghost held: set<nat>) returns (r: int)
      requires Valid(held)
      modifies `free, `flight
      ensures r == -1 || 0 <= r < NUM
      ensures r == -1 ==>
        Valid(held) && free == old(free) && flight == old(flight) && forall i :: 0 <= i < NUM ==> !free[i]
      ensures r >= 0 ==> r !in held && Valid(held + {r}) && old(free)[r] && free == old(free)[r := false]
      ensures r >= 0 ==> flight == old(flight).(owner := old(flight).owner[r := Held])
    {
      var i := 0;
      while i < NUM
        invariant i <= NUM && forall j :: 0 <= j < i ==> !free[j]
      {
        if free[i] {
          TakeGood(Now(), flight, held, i);
          free := free[i := false];
          flight := flight.(owner := flight.owner[i := Held]);
          return i;
        }
        i := i + 1;
      }
      return -1;
    }

    /** free_desc; a descriptor that the code holds is in range and not free, so neither panic
        can happen. */
    method FreeDesc(i: nat, ghost held: set<nat>)
      requires Valid(held) && i in held
      modifies `free, `desc, `flight
      ensures Valid(held - {i}) && i < NUM && !old(free)[i] && |old(desc)| == NUM
      ensures free == old(free)[i := true] && desc == old(desc)[i := NO_DESC]
      ensures flight == old(flight).(owner := old(flight).owner[i := Idle])
    {
      GiveGood(Now(), flight, held, i);
      assert i < NUM && !free[i];
      desc := desc[i := NO_DESC];
      free := free[i := true];
      flight := flight.(owner := flight.owner[i := Idle]);
    }

    /** Three free descriptors, or none taken. */
    method Alloc3Desc() returns (ok: bool, idx: seq<nat>)
      requires Valid({})
      modifies `free, `desc, `flight
      ensures !ok ==> Valid({}) && free == old(free) && flight.chains == old(flight).chains
      ensures !ok ==> forall i, j, k :: 0 <= i < j < k < NUM ==> !(old(free)[i] && old(free)[j] && old(free)[k])
      ensures ok ==> |idx| == 3 && idx[0] < NUM && idx[1] < NUM && idx[2] < NUM
      ensures ok ==> idx[0] != idx[1] && idx[0] != idx[2] && idx[1] != idx[2] && Valid({idx[0], idx[1], idx[2]})
      ensures ok ==> old(free)[idx[0]] && old(free)[idx[1]] && old(free)[idx[2]]
      ensures flight.chains == old(flight).chains && flight.posted == old(flight).posted
      ensures flight.done == old(flight).done
    {
      hide Good;
      SizesOf(Now(), flight, {});
      var a := AllocDesc({});
      if a < 0 {
        return false, [];
      }
      assert {} + {a} == {a};
      var b := AllocDesc({a});
      if b < 0 {
        FreeDesc(a, {a});
        assert {a} - {a} == {};
        assert free == old(free);
        return false, [];
      }
      assert {a} + {b} == {a, b};
      var c := AllocDesc({a, b});
      if c < 0 {
        FreeDesc(a, {a, b});
        assert {a, b} - {a} == {b} && {b} - {b} == {};
        FreeDesc(b, {b});
        assert free == old(free);
        return false, [];
      }
      assert {a, b} + {c} == {a, b, c};
      return true, [a, b, c];
    }

    /** virtio_disk_rw up to the wait: None when three descriptors are not to be had and the
        process sleeps to try again. */
    method Submit(b: nat, write: bool, blockno: nat) returns (h: Option<nat>)
      requires Valid({}) && b !in busy && forall k :: k in flight.chains ==> flight.chains[k].b != b
      modifies `free, `desc, `ops, `info, `availRing, `availIdx, `busy, `flight
      ensures Valid({})
      ensures h.None? ==> flight.chains == old(flight).chains && busy == old(busy) && free == old(free)
      ensures h.None? ==> forall i, j, k :: 0 <= i < j < k < NUM ==> !(old(free)[i] && old(free)[j] && old(free)[k])
      ensures h.Some? ==> h.value in flight.chains && h.value !in old(flight).chains && busy == old(busy) + {b}
      ensures h.Some? ==> flight.chains == old(flight).chains[h.value := flight.chains[h.value]]
      ensures h.Some? ==> var c := flight.chains[h.value];
        && c == Chain(c.second, c.third, b, write, blockno * 2, Posted)
        && h.value < NUM && c.second < NUM && c.third < NUM
        && old(free)[h.value] && old(free)[c.second] && old(free)[c.third]
    {
      hide Good;
      var ok, idx := Alloc3Desc();
      if !ok {
        return None;
      }
      var x, y, z := idx[0], idx[1], idx[2];
      SizesOf(Now(), flight, {x, y, z});
      ghost var c := Chain(y, z, b, write, blockno * 2, Posted);
      SubmitGood(Now(), flight, x, c);
      Post(b, write, blockno * 2, x, y, z);
      flight := Submitted(flight, x, c);
      return Some(x);
    }

    /** Fill in the three descriptors and put the chain in the avail ring. */
    method Post(b: nat, write: bool, sector: nat, x: nat, y: nat, z: nat)
      requires |desc| == |ops| == |info| == |availRing| == NUM && x < NUM && y < NUM && z < NUM
      modifies `desc, `ops, `info, `availRing, `availIdx, `busy
      ensures |old(desc)| == |old(ops)| == |old(info)| == |old(availRing)| == NUM
      ensures Now() == Chained(old(Now()), x, Chain(y, z, b, write, sector, Posted))
    {
      ops := ops[x := Op(write, sector)];
      desc := desc[x := Desc(ToOp(x), 16, F_NEXT, y)];
      desc := desc[y := Desc(ToData(b), BSIZE, F_NEXT + if write then 0 else F_WRITE, z)];
      info := info[x := info[x].(status := 0xff)];
      desc := desc[z := Desc(ToStatus(x), 1, F_WRITE, 0)];
      busy := busy + {b};
      info := info[x := info[x].(b := Some(b))];
      availRing := availRing[availIdx % NUM := x];
      availIdx := (availIdx + 1) % WRAP;
    }

    /** free_chain, on a chain of three that the code has taken back. */
    method FreeChain(h: nat, ghost c: Chain)
      requires Valid({h, c.second, c.third}) && h != c.second && h != c.third && c.second != c.third
      requires |desc| == NUM && h < NUM && c.second < NUM && c.third < NUM
      requires desc[h].flags == F_NEXT && desc[h].next == c.second && desc[c.third].flags == F_WRITE
      requires (desc[c.second].flags == F_NEXT || desc[c.second].flags == F_NEXT + F_WRITE)
      requires desc[c.second].next == c.third
      modifies `free, `desc, `flight
      ensures Valid({}) && |old(free)| == |free| == NUM
      ensures free == old(free)[h := true][c.second := true][c.third := true]
      ensures flight.chains == old(flight).chains && flight.posted == old(flight).posted
      ensures flight.done == old(flight).done
    {
      hide Good;
      SizesOf(Now(), flight, {h, c.second, c.third});
      var i := h;
      ghost var n := 0;
      var more := true;
      while more
        invariant n <= 3 && (more <==> n < 3) && (more ==> i == Nth(h, c, n)) && Valid(Rest(h, c, n))
        invariant |desc| == |free| == NUM && free == FreedUpTo(old(free), h, c, n)
        invariant forall m :: n <= m < 3 ==> desc[Nth(h, c, m)] == old(desc)[Nth(h, c, m)]
        invariant flight.chains == old(flight).chains && flight.posted == old(flight).posted
        invariant flight.done == old(flight).done
        decreases 3 - n
      {
        assert desc[Nth(h, c, n)] == old(desc)[Nth(h, c, n)];
        assert Rest(h, c, n) - {i} == Rest(h, c, n + 1);
        var flag, nxt := desc[i].flags, desc[i].next;
        FreeDesc(i, Rest(h, c, n));
        if flag % 2 == 1 {
          i := nxt;
        } else {
          more := false;
        }
        n := n + 1;
      }
    }

    /** The end of virtio_disk_rw, once the buffer is no longer the disk's. */
    method Finish(b: nat, h: nat)
      requires Valid({}) && h in flight.chains && flight.chains[h].b == b && b !in busy
      modifies `free, `desc, `info, `flight
      ensures Valid({}) && flight.chains == old(flight).chains - {h}
      ensures var c := old(flight).chains[h];
        |free| == NUM && h < NUM && c.second < NUM && c.third < NUM && free[h] && free[c.second] && free[c.third]
    {
      hide Good;
      ghost var c := flight.chains[h];
      SizesOf(Now(), flight, {});
      UnchainGood(Now(), flight, h);
      info := info[h := info[h].(b := None)];
      flight := flight.(owner := Owned(flight.owner, h, c, Held), chains := flight.chains - {h});
      FreeChain(h, c);
    }

    /** The interrupt handler: every completion is seen, and frees the buffer that asked for it. */
    method Intr()
      requires Valid({})
      modifies `busy, `usedIdx, `flight
      ensures Valid({}) && flight.done == [] && usedIdx == usedDev
      ensures busy == old(busy) - (set h | h in old(flight).done && h in old(flight).chains :: old(flight).chains[h].b)
      ensures flight.chains.Keys == old(flight).chains.Keys
      ensures forall h :: h in flight.chains ==>
        flight.chains[h] ==
        old(flight).chains[h].(stage := if h in old(flight).done then Seen else old(flight).chains[h].stage)
    {
      hide Good;
      ghost var f0, n := flight, 0;
      DoneInFlight(Now(), flight);
      while usedIdx != usedDev
        invariant Valid({}) && n <= |f0.done| && flight.done == f0.done[n..] && flight.chains.Keys == f0.chains.Keys
        invariant busy == old(busy) - Buffers(f0, n)
        invariant forall h :: h in flight.chains ==>
          flight.chains[h] == f0.chains[h].(stage := if h in f0.done[..n] then Seen else f0.chains[h].stage)
        decreases |flight.done|
      {
        SeeGood(Now(), flight);
        var id := usedRing[usedIdx % NUM];
        assert info[id].status == 0;
        var b := info[id].b.value;
        busy := busy - {b};
        flight := flight.(
          chains := Moved(flight, flight.done[0], Seen), done := flight.done[1..], seen := flight.seen + 1);
        usedIdx := (usedIdx + 1) % WRAP;
        assert f0.done[..n + 1] == f0.done[..n] + [id];
        BuffersMore(f0, n);
        n := n + 1;
      }
      AllSeen(Now(), flight);
      assert f0.done[..n] == f0.done;
    }

    /** The device takes the next chain from the avail ring. */
    method DeviceTake() returns (h: Option<nat>)
      requires Valid({})
      modifies `devIdx, `flight
      ensures Valid({}) && (h.None? <==> old(flight).posted == [])
      ensures h.None? ==> flight == old(flight) && devIdx == old(devIdx)
      ensures h.Some? ==> h.value == old(flight).posted[0] && h.value in old(flight).chains
      ensures h.Some? ==> flight.chains == Moved(old(flight), h.value, Taken)
    {
      hide Good;
      NonePosted(Now(), flight);
      if devIdx == availIdx {
        return None;
      }
      FetchGood(Now(), flight);
      h := Some(availRing[devIdx % NUM]);
      flight := flight.(
        chains := Moved(flight, flight.posted[0], Taken), posted := flight.posted[1..], taken := flight.taken + 1);
      devIdx := (devIdx + 1) % WRAP;
    }

    /** The device carries out a chain it has taken, going by the descriptors alone: it moves the
        block of the request's sector between the disk and the request's buffer. */
    method DeviceComplete(h: nat)
      requires Valid({}) && h in flight.chains && flight.chains[h].stage == Taken
      modifies `info, `usedRing, `usedDev, `data, `blocks, `flight
      ensures Valid({}) && flight.chains == Moved(old(flight), h, Completed)
      ensures var c := old(flight).chains[h];
        if c.write then
          data == old(data) && forall k :: blocks(k) == if k == c.sector then old(data)(c.b) else old(blocks)(k)
        else
          blocks == old(blocks) && forall k :: data(k) == if k == c.b then old(blocks)(c.sector) else old(data)(k)
    {
      hide Good, ChainRight;
      ChainOf(Now(), flight, h);
      CompleteGood(Now(), flight, h);
      var second := desc[h].next;
      var third := desc[second].next;
      Transfer(ops[desc[h].addr.i], desc[second].addr.b);
      info := info[desc[third].addr.i := info[desc[third].addr.i].(status := 0)];
      usedRing := usedRing[usedDev % NUM := h];
      usedDev := (usedDev + 1) % WRAP;
      flight := flight.(chains := Moved(flight, h, Completed), done := flight.done + [h]);
    }

    /** Move a block between the disk and a buffer. */
    method Transfer(op: Op, b: nat)
      modifies `data, `blocks
      ensures if op.write then
          data == old(data) && forall k :: blocks(k) == if k == op.sector then old(data)(b) else old(blocks)(k)
        else
          blocks == old(blocks) && forall k :: data(k) == if k == b then old(blocks)(op.sector) else old(data)(k)
    {
      var d, k := data, blocks;
      if op.write {
        blocks := (x: nat) => if x == op.sector then d(b) else k(x);
      } else {
        data := (x: nat) => if x == b then k(op.sector) else d(x);
      }
    }
  }

  /** The n-th descriptor of a chain, and those from the n-th on. */
  ghost function Nth(h: nat, c: Chain, n: nat): nat {
    if n == 0 then h else if n == 1 then c.second else c.third
  }

  ghost function Rest(h: nat, c: Chain, n: nat): set<nat> {
    if n == 0 then {h, c.second, c.third} else if n == 1 then {c.second, c.third} else if n == 2 then {c.third} else {}
  }

  ghost function FreedUpTo(free: seq<bool>, h: nat, c: Chain, n: nat): seq<bool>
    requires |free| == NUM && h < NUM && c.second < NUM && c.third < NUM
  {
    if n == 0 then free
    else if n == 1 then free[h := true]
    else if n == 2 then free[h := true][c.second := true]
    else free[h := true][c.second := true][c.third := true]
  }

  lemma SizesOf(q: Queue, f: Flight, held: set<nat>)
    requires Good(q, f, held)
    ensures Sizes(q, f)
  {
  }

  lemma ChainOf(q: Queue, f: Flight, h: nat)
    requires Good(q, f, {}) && h in f.chains
    ensures var c := f.chains[h];
      && Sizes(q, f) && q.desc[h].addr == ToOp(h) && q.desc[h].next == c.second && q.ops[h] == Op(c.write, c.sector)
      && q.desc[c.second].addr == ToData(c.b) && q.desc[c.second].next == c.third && q.desc[c.third].addr == ToStatus(h)
  {
    assert ChainRight(q, f, h);
  }

  /** The buffers of the first n completions. */
  ghost function Buffers(f: Flight, n: nat): set<nat>
    requires n <= |f.done|
  {
    set h | h in f.done[..n] && h in f.chains :: f.chains[h].b
  }

  lemma BuffersMore(f: Flight, n: nat)
    requires n < |f.done| && f.done[n] in f.chains
    ensures Buffers(f, n + 1) == Buffers(f, n) + {f.chains[f.done[n]].b}
  {
    assert f.done[..n + 1] == f.done[..n] + [f.done[n]];
  }

  lemma DoneInFlight(q: Queue, f: Flight)
    requires Good(q, f, {})
    ensures forall h :: h in f.done ==> h in f.chains
  {
  }

  lemma AllSeen(q: Queue, f: Flight)
    requires Good(q, f, {}) && q.usedIdx == q.usedDev
    ensures f.done == []
  {
    IndexGap(f.seen, |f.done|);
  }

  lemma NonePosted(q: Queue, f: Flight)
    requires Good(q, f, {})
    ensures q.devIdx == q.availIdx <==> f.posted == []
  {
    IndexGap(f.taken, |f.posted|);
  }

  ghost predicate InChain(f: Flight, h: nat, i: nat)
    requires h in f.chains
  {
    i == h || i == f.chains[h].second || i == f.chains[h].third
  }

  /** Free descriptors and the three of each request make up the whole queue: a descriptor is free
      or in exactly one chain. */
  lemma Partition(q: Queue, f: Flight, i: nat)
    requires Good(q, f, {}) && i < NUM
    ensures q.free[i] <==> forall h :: h in f.chains ==> !InChain(f, h, i)
    ensures forall h, k :: h in f.chains && k in f.chains && InChain(f, h, i) && InChain(f, k, i) ==> h == k
  {
    assert DescRight(q, f, i);
    assert i in {} <==> f.owner[i] == Held;
    forall h | h in f.chains ensures InChain(f, h, i) ==> f.owner[i] == Of(h) {
      assert ChainRight(q, f, h);
    }
  }
}
