/** copyout and copyin of kernel/vm.c: bytes moved to and from the memory of a process, page by
    page, faulting in pages that were claimed and not yet touched.  A byte in an attached segment
    is a byte of every process that has the segment attached. */
module CopyUser {
  import opened Blocks
  import opened Options
  import opened PageTable
  import opened ProcMem
  import opened Spaces
  import opened Vm

  /** Does an entry have that flag? */
  predicate Accessible(flags: nat, bit: nat)
    requires bit > 0
  {
    flags / bit % 2 == 1
  }

  /** The byte at address a of an address space. */
  ghost function ByteAt(m: Mem, d: Data, r: nat, a: nat): Option<byte>
    requires Good(m) && IsRoot(m, r)
  {
    if a / 4096 < MAXPAGES && Lookup(m, r, a / 4096).Some?
    then Some(d(Lookup(m, r, a / 4096).value.ppn)[a % 4096]) else None
  }

  /** From address va on, the address space holds these bytes. */
  ghost predicate Holds(m: Mem, d: Data, r: nat, va: nat, bytes: seq<byte>) {
    Good(m) && IsRoot(m, r) && forall a: nat :: va <= a < va + |bytes| ==> ByteAt(m, d, r, a) == Some(bytes[a - va])
  }

  /** Processes x and r have the same segment attached at page v, or are the same. */
  ghost predicate Share(w: World, x: nat, r: nat, v: nat) {
    x == r || (x in w.procs && r in w.procs && HasSegment(w.segs, w.procs[x], v) && HasSegment(w.segs, w.procs[r], v))
  }

  /** Every byte of every address space is as it was, but for n bytes of r from va on, and the same
      addresses of processes that share a segment there. */
  ghost predicate Kept(w: World, m0: Mem, d0: Data, m: Mem, d: Data, r: nat, va: nat, n: nat) {
    && Good(m0) && Good(m)
    && forall x, a: nat ::
         IsRoot(m0, x) && ByteAt(m0, d0, x, a).Some? && !(va <= a < va + n && Share(w, x, r, a / 4096)) ==>
         IsRoot(m, x) && ByteAt(m, d, x, a) == ByteAt(m0, d0, x, a)
  }

  /** Mapped pages of r stay mapped as they are. */
  ghost predicate Stays(m0: Mem, m: Mem, r: nat) {
    && Good(m0) && Good(m) && IsRoot(m0, r) && IsRoot(m, r)
    && forall v: nat :: v < MAXPAGES && Lookup(m0, r, v).Some? ==> Lookup(m, r, v) == Lookup(m0, r, v)
  }

  /** Page v is mapped with PTE_U, and with PTE_W if it is to be written. */
  ghost predicate Usable(m: Mem, r: nat, v: nat, write: bool)
    requires Good(m) && IsRoot(m, r)
  {
    && v < MAXPAGES && Lookup(m, r, v).Some? && Lookup(m, r, v).value.flags / 16 % 2 == 1
    && (write ==> Lookup(m, r, v).value.flags / 4 % 2 == 1)
  }

  /** All pages of the n bytes from va on are mapped for the user, and for writing if so asked. */
  ghost predicate Reachable(m: Mem, r: nat, va: nat, n: nat, write: bool) {
    Good(m) && IsRoot(m, r) && forall v: nat :: n > 0 && va / 4096 <= v && v * 4096 < va + n ==> Usable(m, r, v, write)
  }

  /** A page faulted in, or not, changes no byte that was there. */
  lemma FaultKeeps(w: World, m0: Mem, d0: Data, m: Mem, d: Data, r: nat, v: nat, n: nat, q: nat, flags: nat)
    requires MapsRange(m0, m, r, v, n, q, flags, true) && (n == 0 || (n == 1 && Lookup(m0, r, v).None?))
    requires InUseKept(m0.use, d0, d)
    ensures Kept(w, m0, d0, m, d, r, 0, 0) && Stays(m0, m, r)
  {
    hide Good, OnlyTouches, Keeps, Share;
    forall x, a: nat | IsRoot(m0, x) && ByteAt(m0, d0, x, a).Some?
      ensures IsRoot(m, x) && ByteAt(m, d, x, a) == ByteAt(m0, d0, x, a)
    {
      LookupUse(m0, x, a / 4096);
      if x != r {
        OtherLookup(m0, m, r, x, a / 4096);
      }
      hide Lookup;
    }
    hide Lookup;
  }

  function Overwritten(page: Page, off: nat, chunk: seq<byte>): Page
    requires off + |chunk| <= 4096
  {
    page[..off] + chunk + page[off + |chunk|..]
  }

  /** A frame that the user of r reaches at page v is seen elsewhere only where a segment is shared,
      and there at the same page. */
  lemma Alias(m: Mem, w: World, r: nat, v: nat, x: nat, u: nat)
    requires Inv(m, w) && r in w.procs && x in w.procs && IsRoot(m, r) && IsRoot(m, x) && v < MAXPAGES && u < MAXPAGES
    requires Lookup(m, r, v).Some? && Accessible(Lookup(m, r, v).value.flags, PTE_U) && Lookup(m, x, u).Some?
    ensures Lookup(m, x, u).value.ppn == Lookup(m, r, v).value.ppn <==> u == v && Share(w, x, r, v)
  {
    hide Good, Lookup, Counts, Known;
    var q := Lookup(m, r, v).value.ppn;
    LookupUse(m, r, v);
    if Lookup(m, r, v).value.owned {
      OwnAlias(m, w, r, v, x, u);
    } else {
      LentName(m, w, r, v);
      SegmentAt(m, w, r, v);
      if Lookup(m, x, u).value.ppn == q {
        LentName(m, w, x, u);
        SegmentAt(m, w, x, u);
      }
      if u == v && Share(w, x, r, v) {
        SharedFrame(m, w, x, v);
        SharedFrame(m, w, r, v);
      }
    }
  }

  lemma OwnAlias(m: Mem, w: World, r: nat, v: nat, x: nat, u: nat)
    requires Inv(m, w) && r in w.procs && x in w.procs && IsRoot(m, r) && IsRoot(m, x) && v < MAXPAGES && u < MAXPAGES
    requires Lookup(m, r, v).Some? && Lookup(m, r, v).value.owned && Lookup(m, x, u).Some?
    ensures Lookup(m, x, u).value.ppn == Lookup(m, r, v).value.ppn <==> u == v && Share(w, x, r, v)
  {
    hide Good, Lookup, Counts, Known;
    if Lookup(m, x, u).value.ppn == Lookup(m, r, v).value.ppn {
      FrameOnce(m, r, v, x, u);
    }
    assert SpaceRight(m, w.segs, w.trampoline, r, w.procs[r]);
    assert PageRight(m, w.segs, w.trampoline, r, w.procs[r], v);
  }

  /** Where a segment is attached, its page is mapped. */
  lemma SharedFrame(m: Mem, w: World, r: nat, v: nat)
    requires Inv(m, w) && r in w.procs && IsRoot(m, r) && HasSegment(w.segs, w.procs[r], v)
    ensures v < MAXPAGES && Lookup(m, r, v) == Some(Mapping(w.segs[Slot(v).0].pa[Slot(v).1], SHARED, false))
  {
    hide Good, Lookup, Counts, Known;
    SlotAt(v, 0, 0);
    SameView(m, w, r, r, Slot(v).0, Slot(v).1);
  }

  /** A lent page is a segment's exactly where a segment is attached, and then it says where. */
  lemma SegmentAt(m: Mem, w: World, r: nat, v: nat)
    requires Tables(m, w) && Named(m, w) && r in w.procs && v < MAXPAGES && Lookup(m, r, v).Some?
    requires Lookup(m, r, v) == Lent(w.segs, w.trampoline, w.procs[r], v)
    ensures Accessible(Lookup(m, r, v).value.flags, PTE_U) ==> HasSegment(w.segs, w.procs[r], v)
    ensures HasSegment(w.segs, w.procs[r], v) ==>
      Lookup(m, r, v).value.ppn in m.use && m.use[Lookup(m, r, v).value.ppn] == Shared(Slot(v).0, Slot(v).1)
      && v == Region(Slot(v).0) + Slot(v).1 && Slot(v).0 < MAX_SHM
    ensures Lookup(m, r, v).value.ppn in m.use && m.use[Lookup(m, r, v).value.ppn].Shared? ==>
      HasSegment(w.segs, w.procs[r], v)
  {
    hide Good, Lookup;
    SlotAt(v, 0, 0);
    assert TrapPage(m, w.procs, r);
    if HasSegment(w.segs, w.procs[r], v) {
      assert SegPage(m, w.segs, Slot(v).0, Slot(v).1);
    }
  }

  /** What one process sees in a shared segment every other one sees, at the same address. */
  lemma SharedBytes(m: Mem, d: Data, w: World, r: nat, x: nat, a: nat)
    requires Inv(m, w) && r in w.procs && x in w.procs && IsRoot(m, r) && IsRoot(m, x) && Share(w, x, r, a / 4096)
    ensures ByteAt(m, d, x, a) == ByteAt(m, d, r, a)
    ensures x != r ==> ByteAt(m, d, r, a).Some?
  {
    hide Good, Lookup, Inv, Lent;
    if x != r {
      SharedFrame(m, w, r, a / 4096);
      SharedFrame(m, w, x, a / 4096);
    }
  }

  /** Bytes written into a frame appear at one place of the address space, and at the same place of
      those that share it. */
  lemma WriteBytes(m: Mem, w: World, d: Data, d': Data, r: nat, v: nat, off: nat, chunk: seq<byte>, x: nat, a: nat)
    requires Inv(m, w) && r in w.procs && IsRoot(m, r) && IsRoot(m, x) && x in w.procs && Usable(m, r, v, false)
    requires off + |chunk| <= 4096
    requires forall p :: d'(p) == if p == Lookup(m, r, v).value.ppn then Overwritten(d(p), off, chunk) else d(p)
    ensures var at := v * 4096 + off;
      ByteAt(m, d', x, a) ==
      if at <= a < at + |chunk| && Share(w, x, r, v) then Some(chunk[a - at]) else ByteAt(m, d, x, a)
  {
    InvGood(m, w);
    hide Good, Lookup, Inv, Share, Lent;
    var u := a / 4096;
    assert a == u * 4096 + a % 4096;
    if u < MAXPAGES && Lookup(m, x, u).Some? {
      Alias(m, w, r, v, x, u);
    } else if u == v && Share(w, x, r, v) {
      SharedMapped(m, w, r, x, v);
    }
  }

  lemma SharedMapped(m: Mem, w: World, r: nat, x: nat, v: nat)
    requires Inv(m, w) && r in w.procs && x in w.procs && IsRoot(m, r) && IsRoot(m, x)
    requires Share(w, x, r, v) && Usable(m, r, v, false)
    ensures Lookup(m, x, v).Some?
  {
    hide Good, Lookup, Inv;
    if x != r {
      SharedFrame(m, w, x, v);
    }
  }

  lemma WriteKeeps(w: World, m0: Mem, d0: Data, m: Mem, d: Data, d': Data,
                   r: nat, va: nat, n: nat, v: nat, off: nat, chunk: seq<byte>)
    requires Kept(w, m0, d0, m, d, r, va, n) && va + n == v * 4096 + off && Inv(m, w) && r in w.procs
    requires IsRoot(m, r) && Usable(m, r, v, false) && off + |chunk| <= 4096
    requires forall p :: d'(p) == if p == Lookup(m, r, v).value.ppn then Overwritten(d(p), off, chunk) else d(p)
    ensures Kept(w, m0, d0, m, d', r, va, n + |chunk|)
  {
    InvGood(m, w);
    RootsOf(m, w);
    hide Good, Lookup, ByteAt, Inv, Share;
    forall x, a: nat |
      IsRoot(m0, x) && ByteAt(m0, d0, x, a).Some? && !(va <= a < va + n + |chunk| && Share(w, x, r, a / 4096))
      ensures IsRoot(m, x) && ByteAt(m, d', x, a) == ByteAt(m0, d0, x, a)
    {
      if v * 4096 + off <= a < v * 4096 + off + |chunk| {
        assert a / 4096 == v;
      }
      WriteBytes(m, w, d, d', r, v, off, chunk, x, a);
    }
  }

  lemma RootsOf(m: Mem, w: World)
    requires Inv(m, w)
    ensures forall r :: IsRoot(m, r) <==> r in w.procs
  {
  }

  lemma WriteHolds(w: World, m: Mem, d: Data, d': Data,
                   r: nat, va: nat, bytes: seq<byte>, v: nat, off: nat, chunk: seq<byte>)
    requires Holds(m, d, r, va, bytes) && va + |bytes| == v * 4096 + off && Inv(m, w) && r in w.procs
    requires Usable(m, r, v, false) && off + |chunk| <= 4096
    requires forall p :: d'(p) == if p == Lookup(m, r, v).value.ppn then Overwritten(d(p), off, chunk) else d(p)
    ensures Holds(m, d', r, va, bytes + chunk)
  {
    hide Good, Lookup, ByteAt, Inv;
    forall a: nat | va <= a < va + |bytes + chunk| ensures ByteAt(m, d', r, a) == Some((bytes + chunk)[a - va]) {
      WriteBytes(m, w, d, d', r, v, off, chunk, r, a);
    }
  }

  lemma KeptTrans(w: World, m0: Mem, d0: Data, m1: Mem, d1: Data, m2: Mem, d2: Data, r: nat, va: nat, n: nat)
    requires Kept(w, m0, d0, m1, d1, r, va, n) && Kept(w, m1, d1, m2, d2, r, 0, 0)
    ensures Kept(w, m0, d0, m2, d2, r, va, n)
  {
    hide Good, ByteAt, Share;
  }

  lemma KeptHolds(w: World, m0: Mem, d0: Data, m: Mem, d: Data, r: nat, va: nat, bytes: seq<byte>)
    requires Holds(m0, d0, r, va, bytes) && Kept(w, m0, d0, m, d, r, 0, 0) && IsRoot(m, r)
    ensures Holds(m, d, r, va, bytes)
  {
    hide Good, ByteAt, Share;
  }

  lemma StaysTrans(m0: Mem, m1: Mem, m2: Mem, r: nat)
    requires Stays(m0, m1, r) && Stays(m1, m2, r)
    ensures Stays(m0, m2, r)
  {
    hide Good, Lookup;
  }

  lemma StaysReachable(m0: Mem, m: Mem, r: nat, va: nat, n: nat, write: bool)
    requires Stays(m0, m, r) && Reachable(m0, r, va, n, write)
    ensures Reachable(m, r, va, n, write)
  {
    hide Good, Lookup, Accessible;
    forall v: nat | n > 0 && va / 4096 <= v && v * 4096 < va + n ensures Usable(m, r, v, write) {
      assert Usable(m0, r, v, write);
    }
  }

  /** An address space holds at most one sequence of that length at va. */
  lemma HoldsOnce(m: Mem, d: Data, r: nat, va: nat, bytes: seq<byte>, bytes': seq<byte>)
    requires Holds(m, d, r, va, bytes) && Holds(m, d, r, va, bytes') && |bytes| == |bytes'|
    ensures bytes == bytes'
  {
    hide Good, ByteAt;
    forall k | 0 <= k < |bytes| ensures bytes[k] == bytes'[k] {
      assert ByteAt(m, d, r, va + k) == Some(bytes[va + k - va]);
    }
  }

  /** Page v of the process cannot be used for a copy: out of range, without permission, or not
      there and not to be had. */
  ghost predicate Denied(m: Mem, r: nat, sz: nat, v: nat, free: nat, write: bool)
    requires Good(m) && IsRoot(m, r)
  {
    || v >= MAXPAGES
    || match Lookup(m, r, v)
       case Some(x) => x.flags / 16 % 2 == 0 || (write && x.flags / 4 % 2 == 0)
       case None => v * 4096 >= sz || free < PAGE_COST
  }

  /** walkaddr, for page v */
  method Walkaddr(p: Processes, r: nat, v: nat) returns (q: Option<nat>)
    requires p.Valid() && r in p.procs
    modifies p.vm`tables, p.vm`freelist, p.vm`use, p.vm`data
    ensures p.Valid() && p.vm.View() == old(p.vm.View()) && p.vm.freelist == old(p.vm.freelist)
    ensures p.vm.data == old(p.vm.data)
    ensures IsRoot(p.vm.View(), r) && (q.Some? <==> Usable(p.vm.View(), r, v, false))
    ensures q.Some? ==> q.value == Lookup(p.vm.View(), r, v).value.ppn
  {
    hide Good, Lookup, OnlyTouches, Inv, SpaceRight, FreeOnce;
    ghost var m := p.vm.View();
    SpaceOf(m, p.State(), r);
    if v >= MAXPAGES {
      return None;
    }
    Found(m, r, v);
    var t := p.vm.WalkTo(r, v, false, {});
    if t.None? {
      return None;
    }
    EntryAt(m, t.value, Px(0, v));
    var e := p.vm.tables[t.value][Px(0, v)];
    if !Present(e) {
      return None;
    }
    FoundEntry(m, r, v, t.value);
    return if Accessible(e.flags, PTE_U) then Some(e.ppn) else None;
  }

  /** The frame of page v, faulted in if it was claimed and not yet there. */
  method UserPage(p: Processes, r: nat, v: nat) returns (q: Option<nat>)
    requires p.Valid() && r in p.procs
    modifies p.vm
    ensures p.Valid() && Stays(old(p.vm.View()), p.vm.View(), r)
    ensures Kept(p.State(), old(p.vm.View()), old(p.vm.data), p.vm.View(), p.vm.data, r, 0, 0)
    ensures q.Some? ==> Usable(p.vm.View(), r, v, false) && Lookup(p.vm.View(), r, v).value.ppn == q.value
    ensures q.None? ==> Denied(p.vm.View(), r, p.procs[r].sz, v, |p.vm.freelist|, false)
  {
    hide Good, Lookup, OnlyTouches, Inv, SpaceRight, Kept, FreeOnce, Stays, MapsRange, InUseKept;
    ghost var m, d, w := p.vm.View(), p.vm.data, p.State();
    SpaceOf(m, w, r);
    MapsNothing(m, r, v, 0, 0, true);
    KeptFirst(m.use, d);
    FaultKeeps(w, m, d, m, d, r, v, 0, 0, 0);
    StaysRoots(m, m, r);
    q := Walkaddr(p, r, v);
    if q.None? {
      q := p.Vmfault(r, v * 4096);
      assert v * 4096 / 4096 == v;
      ghost var flags := PTE_V + PTE_R + PTE_U + PTE_W;
      ghost var n, frame := if q.Some? then 1 else 0, if q.Some? then q.value else 0;
      FaultKeeps(w, m, d, p.vm.View(), p.vm.data, r, v, n, frame, flags);
      StaysRoots(m, p.vm.View(), r);
      SpaceOf(p.vm.View(), w, r);
      Faulted(m, p.vm.View(), r, v, n, frame, flags);
    }
  }

  lemma Faulted(m: Mem, m': Mem, r: nat, v: nat, n: nat, q: nat, flags: nat)
    requires MapsRange(m, m', r, v, n, q, flags, true) && n <= 1
    ensures n == 1 && v < MAXPAGES ==> Lookup(m', r, v) == Some(Mapping(q, flags, true))
    ensures n == 0 && v < MAXPAGES ==> Lookup(m', r, v) == Lookup(m, r, v)
  {
    hide Good, Lookup, OnlyTouches;
  }

  lemma StaysRoots(m: Mem, m': Mem, r: nat)
    requires Stays(m, m', r)
    ensures Good(m) && Good(m') && IsRoot(m, r) && IsRoot(m', r)
  {
  }

  /** The same for a page that is to be written. */
  method WritablePage(p: Processes, r: nat, v: nat) returns (q: Option<nat>)
    requires p.Valid() && r in p.procs
    modifies p.vm
    ensures p.Valid() && Stays(old(p.vm.View()), p.vm.View(), r)
    ensures Kept(p.State(), old(p.vm.View()), old(p.vm.data), p.vm.View(), p.vm.data, r, 0, 0)
    ensures q.Some? ==> Usable(p.vm.View(), r, v, true) && Lookup(p.vm.View(), r, v).value.ppn == q.value
    ensures q.None? ==> Denied(p.vm.View(), r, p.procs[r].sz, v, |p.vm.freelist|, true)
  {
    hide Good, Lookup, OnlyTouches, Inv, SpaceRight, Kept, FreeOnce, Stays;
    q := UserPage(p, r, v);
    ghost var m := p.vm.View();
    StaysRoots(old(p.vm.View()), m, r);
    if q.None? {
      return;
    }
    var flags := FlagsOf(p, r, v);
    if !Accessible(flags, PTE_W) {
      q := None;
    }
  }

  /** The flags of a mapped page. */
  method FlagsOf(p: Processes, r: nat, v: nat) returns (flags: nat)
    requires p.Valid() && r in p.procs && v < MAXPAGES && IsRoot(p.vm.View(), r) && Lookup(p.vm.View(), r, v).Some?
    modifies p.vm`tables, p.vm`freelist, p.vm`use, p.vm`data
    ensures p.Valid() && p.vm.View() == old(p.vm.View()) && p.vm.freelist == old(p.vm.freelist)
    ensures p.vm.data == old(p.vm.data)
    ensures flags == Lookup(p.vm.View(), r, v).value.flags
  {
    hide Good, Lookup, OnlyTouches, Inv, SpaceRight, FreeOnce;
    ghost var m := p.vm.View();
    Found(m, r, v);
    var t := p.vm.WalkTo(r, v, false, {});
    EntryAt(m, t.value, Px(0, v));
    FoundEntry(m, r, v, t.value);
    return p.vm.tables[t.value][Px(0, v)].flags;
  }

  method Overwrite(p: Processes, frame: nat, off: nat, chunk: seq<byte>)
    requires p.Valid() && off + |chunk| <= 4096
    modifies p.vm`data
    ensures p.Valid()
    ensures forall x ::
      p.vm.data(x) == if x == frame then Overwritten(old(p.vm.data)(x), off, chunk) else old(p.vm.data)(x)
  {
    var d := p.vm.data;
    p.vm.data := (x: nat) => if x == frame then Overwritten(d(x), off, chunk) else d(x);
  }

  lemma CopiedChunk(w: World, m0: Mem, d0: Data, m: Mem, d: Data, d': Data,
                    r: nat, va: nat, src: seq<byte>, i: nat, v: nat, off: nat, n: nat)
    requires i + n <= |src| && va + i == v * 4096 + off && off + n <= 4096 && Inv(m, w) && r in w.procs
    requires Holds(m, d, r, va, src[..i]) && Kept(w, m0, d0, m, d, r, va, i) && IsRoot(m, r)
    requires Usable(m, r, v, true)
    requires forall p :: d'(p) == if p == Lookup(m, r, v).value.ppn then Overwritten(d(p), off, src[i..i + n]) else d(p)
    ensures Holds(m, d', r, va, src[..i + n]) && Kept(w, m0, d0, m, d', r, va, i + n)
  {
    hide Good, Lookup, ByteAt, Overwritten, Kept, Inv;
    WriteKeeps(w, m0, d0, m, d, d', r, va, i, v, off, src[i..i + n]);
    WriteHolds(w, m, d, d', r, va, src[..i], v, off, src[i..i + n]);
    assert src[..i] + src[i..i + n] == src[..i + n];
  }

  /** The pages used so far and the next one. */
  lemma ReachableMore(m0: Mem, m: Mem, r: nat, va: nat, i: nat, n: nat, v: nat, write: bool)
    requires Reachable(m0, r, va, i, write) && Stays(m0, m, r) && IsRoot(m, r) && Good(m) && Usable(m, r, v, write)
    requires v == (va + i) / 4096 && va + i + n <= (v + 1) * 4096
    ensures Reachable(m, r, va, i + n, write)
  {
    hide Good, Lookup, Accessible, Stays;
    StaysReachable(m0, m, r, va, i, write);
    forall u: nat | i + n > 0 && va / 4096 <= u && u * 4096 < va + i + n ensures Usable(m, r, u, write) {
      if i > 0 && u * 4096 < va + i {
        assert Usable(m, r, u, write);
      } else {
        assert u == v;
      }
    }
  }

  /** copyout: the bytes are in the process's memory, and in that of processes that share a segment
      there; no other byte of any process has changed.  After a failure, the bytes before the page
      that could not be used. */
  method Copyout(p: Processes, r: nat, dstva: nat, src: seq<byte>) returns (ok: bool, ghost done: nat)
    requires p.Valid() && r in p.procs
    modifies p.vm
    ensures p.Valid() && Stays(old(p.vm.View()), p.vm.View(), r) && done <= |src| && (ok <==> done == |src|)
    ensures Holds(p.vm.View(), p.vm.data, r, dstva, src[..done]) && Reachable(p.vm.View(), r, dstva, done, true)
    ensures Kept(p.State(), old(p.vm.View()), old(p.vm.data), p.vm.View(), p.vm.data, r, dstva, done)
    ensures !ok ==> Denied(p.vm.View(), r, p.procs[r].sz, (dstva + done) / 4096, |p.vm.freelist|, true)
  {
    hide Good, Lookup, OnlyTouches, Inv, SpaceRight, Kept, Holds, Denied, Overwritten, FreeOnce, Stays, Reachable;
    hide Usable;
    ghost var m0, d0, w := p.vm.View(), p.vm.data, p.State();
    SpaceOf(m0, w, r);
    NothingCopied(w, m0, d0, r, dstva, true);
    var va, i := dstva, 0;
    assert src[..0] == [];
    while i < |src|
      invariant i <= |src| && (i < |src| ==> va == dstva + i) && p.Valid() && Stays(m0, p.vm.View(), r)
      invariant Holds(p.vm.View(), p.vm.data, r, dstva, src[..i]) && Reachable(p.vm.View(), r, dstva, i, true)
      invariant Kept(w, m0, d0, p.vm.View(), p.vm.data, r, dstva, i)
    {
      var v, off := va / 4096, va % 4096;
      ghost var m1, d1 := p.vm.View(), p.vm.data;
      var q := WritablePage(p, r, v);
      ghost var m, d := p.vm.View(), p.vm.data;
      StaysRoots(m1, m, r);
      StaysTrans(m0, m1, m, r);
      KeptTrans(w, m0, d0, m1, d1, m, d, r, dstva, i);
      KeptHolds(w, m1, d1, m, d, r, dstva, src[..i]);
      if q.None? {
        StaysReachable(m1, m, r, dstva, i, true);
        return false, i;
      }
      var n := if 4096 - off > |src| - i then |src| - i else 4096 - off;
      ReachableMore(m1, m, r, dstva, i, n, v, true);
      Overwrite(p, q.value, off, src[i..i + n]);
      CopiedChunk(w, m0, d0, m, d, p.vm.data, r, dstva, src, i, v, off, n);
      i := i + n;
      va := (v + 1) * 4096;
    }
    assert src[..i] == src;
    return true, i;
  }

  lemma NothingCopied(w: World, m: Mem, d: Data, r: nat, va: nat, write: bool)
    requires Good(m) && IsRoot(m, r)
    ensures Holds(m, d, r, va, []) && Kept(w, m, d, m, d, r, va, 0) && Kept(w, m, d, m, d, r, 0, 0) && Stays(m, m, r)
    ensures Reachable(m, r, va, 0, write)
  {
  }

  /** copyin: the bytes of the process's memory, and no byte of any process has changed. */
  method Copyin(p: Processes, r: nat, srcva: nat, len: nat) returns (ok: bool, dst: seq<byte>)
    requires p.Valid() && r in p.procs
    modifies p.vm
    ensures p.Valid() && Stays(old(p.vm.View()), p.vm.View(), r) && |dst| <= len && (ok <==> |dst| == len)
    ensures Holds(p.vm.View(), p.vm.data, r, srcva, dst)
    ensures Kept(p.State(), old(p.vm.View()), old(p.vm.data), p.vm.View(), p.vm.data, r, 0, 0)
    ensures !ok ==> Denied(p.vm.View(), r, p.procs[r].sz, (srcva + |dst|) / 4096, |p.vm.freelist|, false)
  {
    hide Good, Lookup, OnlyTouches, Inv, SpaceRight, Kept, Holds, Denied, FreeOnce, Stays;
    ghost var m0, d0, w := p.vm.View(), p.vm.data, p.State();
    SpaceOf(m0, w, r);
    NothingCopied(w, m0, d0, r, srcva, false);
    dst := [];
    var va, left := srcva, len;
    while left > 0
      invariant 0 <= left && |dst| + left == len && (left > 0 ==> va == srcva + |dst|)
      invariant p.Valid() && Stays(m0, p.vm.View(), r)
      invariant Holds(p.vm.View(), p.vm.data, r, srcva, dst)
      invariant Kept(w, m0, d0, p.vm.View(), p.vm.data, r, 0, 0)
    {
      var v, off := va / 4096, va % 4096;
      ghost var m1, d1 := p.vm.View(), p.vm.data;
      var q := UserPage(p, r, v);
      ghost var m, d := p.vm.View(), p.vm.data;
      StaysRoots(m1, m, r);
      StaysTrans(m0, m1, m, r);
      KeptTrans(w, m0, d0, m1, d1, m, d, r, 0, 0);
      KeptHolds(w, m1, d1, m, d, r, srcva, dst);
      if q.None? {
        return false, dst;
      }
      var n := if 4096 - off > left then left else 4096 - off;
      var chunk := p.vm.data(q.value)[off..off + n];
      ReadHolds(m, d, r, srcva, dst, v, off, n);
      dst := dst + chunk;
      left := left - n;
      va := (v + 1) * 4096;
    }
    return true, dst;
  }

  lemma ReadHolds(m: Mem, d: Data, r: nat, va: nat, bytes: seq<byte>, v: nat, off: nat, n: nat)
    requires Holds(m, d, r, va, bytes) && va + |bytes| == v * 4096 + off && off + n <= 4096
    requires v < MAXPAGES && Lookup(m, r, v).Some?
    ensures Holds(m, d, r, va, bytes + d(Lookup(m, r, v).value.ppn)[off..off + n])
  {
    hide Good, Lookup;
    var chunk := d(Lookup(m, r, v).value.ppn)[off..off + n];
    forall a: nat | va <= a < va + |bytes + chunk| ensures ByteAt(m, d, r, a) == Some((bytes + chunk)[a - va]) {
      if a < va + |bytes| {
        assert ByteAt(m, d, r, a) == Some(bytes[a - va]);
      } else {
        assert a / 4096 == v && a % 4096 == a - v * 4096;
      }
    }
  }

  /** What copyout has stored, copyin gives back. */
  method CopyThereAndBack(p: Processes, r: nat, va: nat, src: seq<byte>)
    returns (ok: bool, dst: seq<byte>, ghost done: nat)
    requires p.Valid() && r in p.procs
    modifies p.vm
    ensures p.Valid() && IsRoot(p.vm.View(), r) && (ok ==> dst == src)
    ensures !ok ==> done < |src| && Denied(p.vm.View(), r, p.procs[r].sz, (va + done) / 4096, |p.vm.freelist|, true)
  {
    hide Good, Lookup, Inv, SpaceRight, Kept, Holds, Denied, FreeOnce, Stays, Reachable;
    ghost var m0, w := p.vm.View(), p.State();
    dst := [];
    ok, done := Copyout(p, r, va, src);
    ghost var m, d := p.vm.View(), p.vm.data;
    StaysRoots(m0, m, r);
    if ok {
      assert src[..done] == src;
      var back;
      back, dst := Copyin(p, r, va, |src|);
      StaysRoots(m, p.vm.View(), r);
      StaysReachable(m, p.vm.View(), r, va, |src|, true);
      if !back {
        NotDenied(p.vm.View(), r, va, |src|, p.procs[r].sz, |dst|, |p.vm.freelist|);
      }
      KeptHolds(w, m, d, p.vm.View(), p.vm.data, r, va, src);
      HoldsOnce(p.vm.View(), p.vm.data, r, va, src, dst);
    }
  }

  lemma NotDenied(m: Mem, r: nat, va: nat, n: nat, sz: nat, done: nat, free: nat)
    requires Reachable(m, r, va, n, true) && done < n
    ensures !Denied(m, r, sz, (va + done) / 4096, free, false)
  {
    hide Good, Lookup;
    assert Usable(m, r, (va + done) / 4096, true);
  }
}
