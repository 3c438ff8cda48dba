/** The buffer cache of kernel/bio.c, with the pins that log_write puts on buffers (kernel/log.c).

    Processes use the cache by bread, changes to the locked buffer, log_write or bwrite, and
    brelse; each method here is what one of them does without giving up bcache.lock or the
    buffer's sleep lock, and any of them may come between.  `current` is what every block should
    read as: its last logged or written value. */
module Bio {
  import opened Blocks
  import opened Options
  import opened Ring
  import opened Sets

  datatype Key = Key(dev: nat, blockno: nat)

  datatype Buf = Buf(key: Key, valid: bool, refcnt: nat, locked: bool, data: Block)

  /** refs counts the processes that hold or wait for a buffer; a dirty buffer has been changed
      by the process that locked it and not yet logged or written. */
  datatype View = View(
    bufs: seq<Buf>, refs: seq<nat>, dirty: seq<bool>, pinned: map<Key, nat>, current: Key -> Block, disk: Key -> Block)

  ghost predicate Pins(v: View, b: nat)
    requires b < |v.bufs|
  {
    v.bufs[b].key in v.pinned && v.pinned[v.bufs[b].key] == b
  }

  ghost predicate BufRight(v: View, b: nat)
    requires b < |v.bufs| && |v.refs| == |v.dirty| == |v.bufs|
  {
    var x := v.bufs[b];
    && x.refcnt == v.refs[b] + (if Pins(v, b) then 1 else 0)
    && (x.locked ==> v.refs[b] > 0)
    && (v.dirty[b] ==> x.locked && x.valid)
    && (x.valid && x.key.dev != 0 && !v.dirty[b] ==> x.data == v.current(x.key))
  }

  /** A logged block is in a valid buffer. */
  ghost predicate PinRight(v: View, k: Key) {
    k in v.pinned ==> k.dev != 0 && v.pinned[k] < |v.bufs| && v.bufs[v.pinned[k]].key == k && v.bufs[v.pinned[k]].valid
  }

  /** A block that is not logged is current on disk. */
  ghost predicate DiskRight(v: View, k: Key) {
    k.dev != 0 && k !in v.pinned ==> v.disk(k) == v.current(k)
  }

  ghost predicate Unique(v: View) {
    forall a, b :: 0 <= a < b < |v.bufs| && v.bufs[a].key == v.bufs[b].key ==> v.bufs[a].key.dev == 0
  }

  ghost predicate Good(v: View) {
    && |v.refs| == |v.dirty| == |v.bufs| && Unique(v)
    && (forall b {:trigger BufRight(v, b)} :: 0 <= b < |v.bufs| ==> BufRight(v, b))
    && (forall k {:trigger PinRight(v, k)} :: PinRight(v, k))
    && (forall k {:trigger DiskRight(v, k)} :: DiskRight(v, k))
  }

  /** Other buffers, and what every block should read as, are untouched. */
  ghost predicate Only(v: View, v': View, b: nat) {
    && |v'.bufs| == |v.bufs| && |v'.refs| == |v.refs| == |v'.dirty| == |v.dirty| == |v.bufs|
    && v'.current == v.current
    && forall x :: 0 <= x < |v.bufs| && x != b ==>
         v'.bufs[x] == v.bufs[x] && v'.refs[x] == v.refs[x] && v'.dirty[x] == v.dirty[x]
  }

  function Update(f: Key -> Block, k: Key, d: Block): Key -> Block {
    (x: Key) => if x == k then d else f(x)
  }

  /** A change to one buffer that keeps its key, and to what is pinned and current for that key. */
  lemma Touch(v: View, v': View, b: nat)
    requires Good(v) && b < |v.bufs| && |v'.bufs| == |v'.refs| == |v'.dirty| == |v.bufs|
    requires forall x :: 0 <= x < |v.bufs| && x != b ==>
      v'.bufs[x] == v.bufs[x] && v'.refs[x] == v.refs[x] && v'.dirty[x] == v.dirty[x]
    requires v'.bufs[b].key == v.bufs[b].key
    requires forall k :: k != v.bufs[b].key ==>
      (k in v'.pinned <==> k in v.pinned) && (k in v.pinned ==> v'.pinned[k] == v.pinned[k])
    requires forall k :: k != v.bufs[b].key ==> v'.current(k) == v.current(k) && v'.disk(k) == v.disk(k)
    requires v.bufs[b].key.dev == 0 ==> v.bufs[b].key !in v'.pinned
    requires BufRight(v', b) && PinRight(v', v.bufs[b].key) && DiskRight(v', v.bufs[b].key)
    ensures Good(v')
  {
    forall x | 0 <= x < |v'.bufs| ensures BufRight(v', x) {
      assert BufRight(v, x);
      assert PinRight(v, v.bufs[x].key);
    }
    forall k ensures PinRight(v', k) {
      assert PinRight(v, k);
    }
    forall k ensures DiskRight(v', k) {
      assert DiskRight(v, k);
    }
  }

  /** A buffer that no one refers to takes another block. */
  lemma Recycle(v: View, b: nat, k: Key)
    requires Good(v) && b < |v.bufs| && v.bufs[b].refcnt == 0
    requires forall x :: 0 <= x < |v.bufs| ==> v.bufs[x].key != k
    ensures Good(v.(bufs := v.bufs[b := v.bufs[b].(key := k, valid := false, refcnt := 1)], refs := v.refs[b := 1]))
    ensures |v.refs| == |v.dirty| == |v.bufs| && v.refs[b] == 0 && !v.dirty[b] && !v.bufs[b].locked
  {
    var v' := v.(bufs := v.bufs[b := v.bufs[b].(key := k, valid := false, refcnt := 1)], refs := v.refs[b := 1]);
    assert BufRight(v, b) && PinRight(v, k);
    forall x | 0 <= x < |v'.bufs| ensures BufRight(v', x) {
      assert BufRight(v, x);
    }
    forall j ensures PinRight(v', j) {
      assert PinRight(v, j);
    }
    forall j ensures DiskRight(v', j) {
      assert DiskRight(v, j);
    }
  }

  class BufferCache {
    const nbuf: nat
    var bufs: seq<Buf>
    var next: seq<nat>
    var prev: seq<nat>
    var disk: Key -> Block
    var pinned: map<Key, nat>            // the blocks in the log header, and their buffers
    ghost var order: seq<nat>            // most recently used first
    ghost var refs: seq<nat>
    ghost var dirty: seq<bool>
    ghost var current: Key -> Block

    ghost function Now(): View
      reads this
    {
      View(bufs, refs, dirty, pinned, current, disk)
    }

    /** The list runs through all buffers, each once. */
    ghost predicate List()
      reads this
    {
      Linked(next, prev, order, nbuf) && |next| == nbuf + 1 && forall b :: 0 <= b < nbuf <==> b in order
    }

    ghost predicate Valid()
      reads this
    {
      |bufs| == nbuf && List() && Good(Now())
    }

    /** binit */
    constructor (nbuf: nat, disk: Key -> Block)
      ensures Valid() && this.nbuf == nbuf && this.disk == disk && current == disk && pinned == map[]
      ensures forall b :: 0 <= b < nbuf ==> bufs[b].refcnt == 0 && !bufs[b].locked
    {
      this.nbuf, this.disk, current, pinned := nbuf, disk, disk, map[];
      bufs := seq(nbuf, _ => Buf(Key(0, 0), false, 0, false, ZeroBlock()));
      refs, dirty := seq(nbuf, _ => 0), seq(nbuf, _ => false);
      var zeros := seq(nbuf, _ => 0);
      next, prev, order := zeros + [nbuf], zeros + [nbuf], [];
      new;
      assert Good(Now());
      assert LinkAt(next, prev, order, nbuf, -1);
      InsertAll();
    }

    method InsertAll()
      requires |bufs| == nbuf && Linked(next, prev, order, nbuf) && |next| == nbuf + 1 && order == []
      modifies `next, `prev, `order
      ensures List()
    {
      var b := 0;
      while b < nbuf
        invariant b <= nbuf && Linked(next, prev, order, nbuf) && |next| == nbuf + 1
        invariant forall x :: 0 <= x < b <==> x in order
      {
        ToFront(b);
        b := b + 1;
      }
    }

    /** Link buffer b in after the head. */
    method ToFront(b: nat)
      requires Linked(next, prev, order, nbuf) && |next| == nbuf + 1 && b < nbuf && b !in order
      modifies `next, `prev, `order
      ensures Linked(next, prev, order, nbuf) && |next| == nbuf + 1 && order == [b] + old(order)
    {
      PushFront(next, prev, order, nbuf, b);
      order := [b] + order;
      next := next[b := next[nbuf]];
      prev := prev[b := nbuf];
      prev := prev[next[nbuf] := b];
      next := next[nbuf := b];
    }

    /** The buffer of a block if it is cached. */
    method Find(k: Key) returns (r: Option<nat>)
      requires Valid()
      ensures r.Some? ==> r.value < nbuf && bufs[r.value].key == k
      ensures r.None? ==> forall b :: 0 <= b < nbuf ==> bufs[b].key != k
    {
      hide Good;
      assert LinkAt(next, prev, order, nbuf, -1);
      ghost var i := 0;
      var b := next[nbuf];
      while b != nbuf
        invariant i <= |order| && b == At(order, nbuf, i) && (i < |order| ==> b in order)
        invariant forall j :: 0 <= j < i ==> order[j] < nbuf && bufs[order[j]].key != k
        decreases |order| - i
      {
        if bufs[b].key == k {
          return Some(b);
        }
        assert LinkAt(next, prev, order, nbuf, i);
        i := i + 1;
        b := next[b];
      }
      forall x | 0 <= x < nbuf ensures bufs[x].key != k { assert x in order; }
      return None;
    }

    /** The least recently used buffer that no one refers to. */
    method Unused() returns (r: Option<nat>)
      requires Valid()
      ensures r.Some? ==> r.value < nbuf && bufs[r.value].refcnt == 0
      ensures r.Some? ==> exists i :: Lru(bufs, order, r.value, i)
      ensures r.None? ==> forall b :: 0 <= b < nbuf ==> bufs[b].refcnt > 0
    {
      hide Good;
      ghost var i := |order| - 1;
      assert LinkAt(next, prev, order, nbuf, i);
      var b := prev[nbuf];
      while b != nbuf
        invariant -1 <= i < |order| && b == At(order, nbuf, i) && (i >= 0 ==> b in order)
        invariant forall j :: i < j < |order| ==> order[j] < nbuf && bufs[order[j]].refcnt > 0
        decreases i
      {
        if bufs[b].refcnt == 0 {
          assert Lru(bufs, order, b, i);
          return Some(b);
        }
        assert LinkAt(next, prev, order, nbuf, i - 1);
        i := i - 1;
        b := prev[b];
      }
      forall x | 0 <= x < nbuf ensures bufs[x].refcnt > 0 { assert x in order; }
      return None;
    }

    /** A reference to the buffer of a block, recycling one if need be; None, where the kernel
        panics, exactly when the block is not cached and every buffer is referred to. */
    method Bget(dev: nat, blockno: nat) returns (r: Option<nat>)
      requires Valid()
      modifies `bufs, `refs
      ensures Valid()
      ensures r.None? <==>
              forall b :: 0 <= b < nbuf ==> old(bufs)[b].key != Key(dev, blockno) && old(bufs)[b].refcnt > 0
      ensures r.None? ==> bufs == old(bufs) && refs == old(refs)
      ensures r.Some? ==> r.value < nbuf && Only(old(Now()), Now(), r.value) && refs[r.value] == old(refs)[r.value] + 1
      ensures r.Some? ==> bufs[r.value].key == Key(dev, blockno)
      // a buffer that is referred to keeps its block
      ensures forall b :: 0 <= b < nbuf && old(bufs)[b].refcnt > 0 ==>
        bufs[b] == old(bufs)[b] || bufs[b] == old(bufs)[b].(refcnt := old(bufs)[b].refcnt + 1)
      ensures r.Some? && old(bufs)[r.value].key != Key(dev, blockno) ==>
        old(bufs)[r.value].refcnt == 0 && !bufs[r.value].valid && exists i :: Lru(old(bufs), order, r.value, i)
    {
      hide Good, Linked;
      ghost var v := Now();
      r := Find(Key(dev, blockno));
      if r.Some? {
        var b := r.value;
        Referred(v, b);
        bufs := bufs[b := bufs[b].(refcnt := bufs[b].refcnt + 1)];
        refs := refs[b := refs[b] + 1];
        return;
      }
      r := Unused();
      if r.Some? {
        var b := r.value;
        Recycle(v, b, Key(dev, blockno));
        bufs := bufs[b := bufs[b].(key := Key(dev, blockno), valid := false, refcnt := 1)];
        refs := refs[b := 1];
      }
    }

    /** acquiresleep on a buffer, when it is free. */
    method AcquireSleep(b: nat)
      requires Valid() && b < nbuf && refs[b] > 0 && !bufs[b].locked
      modifies `bufs
      ensures Valid() && bufs == old(bufs)[b := old(bufs)[b].(locked := true)]
    {
      ghost var v := Now();
      assert BufRight(v, b) && PinRight(v, v.bufs[b].key) && DiskRight(v, v.bufs[b].key);
      bufs := bufs[b := bufs[b].(locked := true)];
      Touch(v, Now(), b);
    }

    /** The rest of bread: the data is what the block should read as. */
    method Bread(b: nat)
      requires Valid() && b < nbuf && bufs[b].locked && !dirty[b]
      modifies `bufs
      ensures Valid() && Only(old(Now()), Now(), b) && bufs[b].valid && bufs[b].key == old(bufs)[b].key
      ensures bufs[b].locked && refs == old(refs) && dirty == old(dirty) && bufs[b].refcnt == old(bufs)[b].refcnt
      ensures bufs[b].key.dev != 0 ==> bufs[b].data == current(bufs[b].key)
    {
      ghost var v := Now();
      assert BufRight(v, b) && PinRight(v, v.bufs[b].key) && DiskRight(v, v.bufs[b].key);
      if !bufs[b].valid {
        bufs := bufs[b := bufs[b].(data := disk(bufs[b].key))];
        bufs := bufs[b := bufs[b].(valid := true)];
      }
      Touch(v, Now(), b);
    }

    /** The process that has the buffer changes its data. */
    method Modify(b: nat, data: Block)
      requires Valid() && b < nbuf && bufs[b].locked && bufs[b].valid
      modifies `bufs, `dirty
      ensures Valid() && bufs == old(bufs)[b := old(bufs)[b].(data := data)] && dirty == old(dirty)[b := true]
    {
      ghost var v := Now();
      assert BufRight(v, b) && PinRight(v, v.bufs[b].key) && DiskRight(v, v.bufs[b].key);
      bufs := bufs[b := bufs[b].(data := data)];
      dirty := dirty[b := true];
      Touch(v, Now(), b);
    }

    /** bwrite: the data is on disk, and is what the block should read as. */
    method Bwrite(b: nat)
      requires Valid() && b < nbuf && bufs[b].locked && bufs[b].valid
      modifies `disk, `dirty, `current
      ensures Valid() && dirty == old(dirty)[b := false]
      ensures forall k :: disk(k) == (if k == bufs[b].key then bufs[b].data else old(disk)(k))
      ensures forall k :: current(k) == (if k == bufs[b].key then bufs[b].data else old(current)(k))
    {
      ghost var v := Now();
      assert BufRight(v, b) && PinRight(v, v.bufs[b].key) && DiskRight(v, v.bufs[b].key);
      disk := Update(disk, bufs[b].key, bufs[b].data);
      current := Update(current, bufs[b].key, bufs[b].data);
      dirty := dirty[b := false];
      Touch(v, Now(), b);
    }

    /** log_write: the data is what the block should read as; the buffer is pinned the first time. */
    method LogWrite(b: nat)
      requires Valid() && b < nbuf && bufs[b].locked && bufs[b].valid && bufs[b].key.dev != 0
      modifies `bufs, `dirty, `current, `pinned
      ensures Valid() && dirty == old(dirty)[b := false] && pinned == old(pinned)[bufs[b].key := b]
      ensures var x, more := old(bufs)[b], if bufs[b].key in old(pinned) then 0 else 1;
        bufs == old(bufs)[b := x.(refcnt := x.refcnt + more)]
      ensures forall k :: current(k) == (if k == bufs[b].key then bufs[b].data else old(current)(k))
    {
      ghost var v := Now();
      PinnedHere(v, b);
      assert BufRight(v, b) && PinRight(v, v.bufs[b].key) && DiskRight(v, v.bufs[b].key);
      current := Update(current, bufs[b].key, bufs[b].data);
      dirty := dirty[b := false];
      if bufs[b].key !in pinned {
        Bpin(b);
      }
      pinned := pinned[bufs[b].key := b];
      Touch(v, Now(), b);
    }

    method Bpin(b: nat)
      requires b < |bufs|
      modifies `bufs
      ensures bufs == old(bufs)[b := old(bufs)[b].(refcnt := old(bufs)[b].refcnt + 1)]
    {
      bufs := bufs[b := bufs[b].(refcnt := bufs[b].refcnt + 1)];
    }

    method Bunpin(b: nat)
      requires b < |bufs| && bufs[b].refcnt > 0
      modifies `bufs
      ensures bufs == old(bufs)[b := old(bufs)[b].(refcnt := old(bufs)[b].refcnt - 1)]
    {
      bufs := bufs[b := bufs[b].(refcnt := bufs[b].refcnt - 1)];
    }

    /** The part of install_trans on a home buffer, once the transaction is committed: the logged
        value goes to disk and the pin goes.  No block reads differently. */
    method Install(b: nat)
      requires Valid() && b < nbuf && bufs[b].locked && bufs[b].valid && !dirty[b] && bufs[b].key in pinned
      modifies `bufs, `disk, `pinned
      ensures Valid() && pinned == old(pinned) - {bufs[b].key}
      ensures bufs[b].refcnt + 1 == old(bufs)[b].refcnt
      ensures bufs == old(bufs)[b := old(bufs)[b].(refcnt := bufs[b].refcnt)]
      ensures forall k :: disk(k) == (if k == bufs[b].key then current(k) else old(disk)(k))
    {
      ghost var v := Now();
      PinnedHere(v, b);
      assert BufRight(v, b) && PinRight(v, v.bufs[b].key) && DiskRight(v, v.bufs[b].key);
      disk := Update(disk, bufs[b].key, bufs[b].data);
      Bunpin(b);
      pinned := pinned - {bufs[b].key};
      Touch(v, Now(), b);
    }

    /** brelse of a buffer whose changes, if any, have been logged or written. */
    method Brelse(b: nat)
      requires Valid() && b < nbuf && bufs[b].locked && !dirty[b]
      modifies `bufs, `refs, `next, `prev, `order
      ensures Valid() && refs[b] + 1 == old(refs)[b] && refs == old(refs)[b := refs[b]]
      ensures bufs[b].refcnt + 1 == old(bufs)[b].refcnt
      ensures bufs == old(bufs)[b := old(bufs)[b].(locked := false, refcnt := bufs[b].refcnt)]
      ensures bufs[b].refcnt > 0 ==> order == old(order)
      ensures bufs[b].refcnt == 0 ==> exists i :: InFront(old(order), order, b, i)
    {
      hide Linked;
      ghost var v := Now();
      assert BufRight(v, b) && PinRight(v, v.bufs[b].key) && DiskRight(v, v.bufs[b].key);
      bufs := bufs[b := bufs[b].(locked := false)];
      bufs := bufs[b := bufs[b].(refcnt := bufs[b].refcnt - 1)];
      refs := refs[b := refs[b] - 1];
      Touch(v, Now(), b);
      if bufs[b].refcnt == 0 {
        hide Good;
        Refresh(b);
      }
    }

    /** Move buffer b to the front of the list. */
    method Refresh(b: nat)
      requires List() && b < nbuf
      modifies `next, `prev, `order
      ensures List() && exists i :: InFront(old(order), order, b, i)
    {
      hide Linked;
      assert b in order;
      ghost var i :| 0 <= i < |order| && order[i] == b;
      MovedFront(order, i);
      Unlink(next, prev, order, nbuf, i);
      order := Without(order, i);
      var n, p := next[b], prev[b];
      prev := prev[n := p];
      next := next[p := n];
      ToFront(b);
      SameMembers(order, old(order));
      assert InFront(old(order), order, b, i);
    }
  }

  /** Buffer b, which was at place i, is first, and the others are in the order they were in. */
  ghost predicate InFront(order: seq<nat>, order': seq<nat>, b: nat, i: int) {
    0 <= i < |order| && order[i] == b && order' == [b] + order[..i] + order[i + 1..]
  }

  /** Buffer b is at place i and everyone behind it is referred to. */
  ghost predicate Lru(bufs: seq<Buf>, order: seq<nat>, b: nat, i: int) {
    && 0 <= i < |order| && order[i] == b
    && forall j :: i < j < |order| ==> order[j] < |bufs| && bufs[order[j]].refcnt > 0
  }

  lemma SameMembers(s: seq<nat>, t: seq<nat>)
    requires multiset(s) == multiset(t)
    ensures forall x :: x in s <==> x in t
  {
    forall x ensures x in s <==> x in t {
      assert x in s <==> x in multiset(s);
      assert x in t <==> x in multiset(t);
    }
  }

  lemma Referred(v: View, b: nat)
    requires Good(v) && b < |v.bufs|
    ensures var x := v.bufs[b];
      Good(v.(bufs := v.bufs[b := x.(refcnt := x.refcnt + 1)], refs := v.refs[b := v.refs[b] + 1]))
    ensures |v.refs| == |v.dirty| == |v.bufs|
  {
    var v' := v.(bufs := v.bufs[b := v.bufs[b].(refcnt := v.bufs[b].refcnt + 1)], refs := v.refs[b := v.refs[b] + 1]);
    assert BufRight(v, b) && PinRight(v, v.bufs[b].key) && DiskRight(v, v.bufs[b].key);
    Touch(v, v', b);
  }

  /** If the block is logged, this is the buffer that is pinned for it. */
  lemma PinnedHere(v: View, b: nat)
    requires Good(v) && b < |v.bufs|
    ensures v.bufs[b].key in v.pinned ==> v.pinned[v.bufs[b].key] == b
  {
    assert PinRight(v, v.bufs[b].key);
  }

  /** The buffers that are pinned. */
  ghost function Image(pinned: map<Key, nat>): set<nat> {
    set k | k in pinned :: pinned[k]
  }

  /** Different blocks are pinned in different buffers. */
  lemma {:induction false} ImageSize(pinned: map<Key, nat>)
    requires forall k, j :: k in pinned && j in pinned && pinned[k] == pinned[j] ==> k == j
    ensures |Image(pinned)| == |pinned|
    decreases |pinned|
  {
    if k :| k in pinned {
      var rest := pinned - {k};
      assert pinned.Keys == rest.Keys + {k};
      ImageSize(rest);
      ImageLess(pinned, k);
    } else {
      assert pinned == map[];
    }
  }

  lemma ImageLess(pinned: map<Key, nat>, k: Key)
    requires k in pinned && forall k, j :: k in pinned && j in pinned && pinned[k] == pinned[j] ==> k == j
    ensures Image(pinned) == Image(pinned - {k}) + {pinned[k]} && pinned[k] !in Image(pinned - {k})
  {
    var rest := pinned - {k};
    forall x ensures x in Image(pinned) <==> x in Image(rest) + {pinned[k]} {
      if j :| j in pinned && pinned[j] == x {
        assert j != k ==> j in rest && rest[j] == x;
      }
    }
  }

  /** The buffers that processes refer to without their being pinned. */
  ghost function Held(v: View): set<nat>
    requires |v.refs| == |v.bufs|
  {
    set b | 0 <= b < |v.bufs| && v.refs[b] > 0 && !Pins(v, b)
  }

  /** bget fails for block k: k is not cached, and no buffer is unused. */
  ghost predicate Fails(v: View, k: Key) {
    forall b :: 0 <= b < |v.bufs| ==> v.bufs[b].key != k && v.bufs[b].refcnt > 0
  }

  /** A buffer is in use exactly when it is pinned or held. */
  lemma InUse(v: View)
    requires Good(v)
    ensures |Image(v.pinned) + Held(v)| == |v.pinned| + |Held(v)| && Image(v.pinned) + Held(v) <= Range(0, |v.bufs|)
    ensures forall b :: 0 <= b < |v.bufs| ==> (v.bufs[b].refcnt > 0 <==> b in Image(v.pinned) + Held(v))
  {
    forall j | j in v.pinned ensures v.pinned[j] < |v.bufs| && v.bufs[v.pinned[j]].key == j {
      assert PinRight(v, j);
    }
    ImageSize(v.pinned);
    forall b | 0 <= b < |v.bufs| ensures v.bufs[b].refcnt > 0 <==> b in Image(v.pinned) + Held(v) {
      assert BufRight(v, b);
      assert Pins(v, b) <==> b in Image(v.pinned);
    }
    assert Image(v.pinned) !! Held(v);
  }

  /** A block that is not cached finds no buffer exactly when the logged blocks and the buffers that
      processes refer to besides them fill the cache; so does one that is cached and in no use. */
  lemma NoBufferLeft(v: View, k: Key)
    requires Good(v)
    ensures Fails(v, k) <==>
            (forall b :: 0 <= b < |v.bufs| ==> v.bufs[b].key != k) && |v.pinned| + |Held(v)| >= |v.bufs|
    ensures (forall b :: 0 <= b < |v.bufs| && v.bufs[b].key == k ==> v.bufs[b].refcnt == 0) ==>
              (Fails(v, k) <==> |v.pinned| + |Held(v)| >= |v.bufs|)
  {
    InUse(v);
    hide Good, Image, Held;
    var all, used := Range(0, |v.bufs|), Image(v.pinned) + Held(v);
    SubsetSize(used, all);
    if |used| >= |v.bufs| {
      FullSubset(used, all);
    } else if forall b :: 0 <= b < |v.bufs| ==> v.bufs[b].refcnt > 0 {
      assert all <= used;
      SubsetSize(all, used);
    }
  }

  lemma FullSubset(a: set<nat>, b: set<nat>)
    requires a <= b && |a| >= |b|
    ensures a == b
  {
    if x :| x in b && x !in a {
      SubsetSize(a + {x}, b);
    }
  }
}
