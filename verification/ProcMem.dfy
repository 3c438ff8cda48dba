/** The memory of processes (kernel/proc.c, kernel/sysproc.c and vmfault of kernel/vm.c): processes
    created, grown, shrunk, copied, faulted in and freed, and segments shared between them, over
    one pool of pages.

    A page taken from the free list and not yet put to its use counts as the kernel's. */
module ProcMem {
  import opened Blocks
  import opened Options
  import opened PageTable
  import opened Sets
  import opened Shm
  import opened Spaces
  import opened Vm

  const NPROC: nat := 64

  /** The size of struct trapframe, and where its a0 begins. */
  const TRAPFRAME_SIZE: nat := 288
  const A0: nat := 112

  /** What fork makes of the saved registers. */
  function Registers(p: Page): seq<byte> {
    p[..A0] + [0, 0, 0, 0, 0, 0, 0, 0] + p[A0 + 8..TRAPFRAME_SIZE]
  }

  /** A child's saved registers, byte by byte: a0 is 0, every other one is the parent's. */
  ghost predicate Inherits(child: Page, parent: Page) {
    forall i :: 0 <= i < 288 ==> child[i] == if 112 <= i < 120 then 0 else parent[i]
  }

  /** A process costs a trapframe, a root and the tables of two pages. */
  const PROC_COST: nat := 2 + 2 * ROOT_LEVEL

  /** Pages taken and put back were free all along. */
  lemma TookThenGave(u: map<nat, Use>, l0: seq<nat>, d0: Data, l1: seq<nat>, d1: Data, l2: seq<nat>, d2: Data)
    requires TookOnly(l0, d0, l1, d1) && GaveOnly(l1, d1, l2, d2)
    requires forall p :: p in l0 || p in l2 ==> p in u && u[p].Free?
    ensures InUseKept(u, d0, d2)
  {
  }

  ghost function Reversed(s: seq<nat>): seq<nat> {
    if s == [] then [] else [s[|s| - 1]] + Reversed(s[..|s| - 1])
  }

  /** The free pages in `pages` have become the kernel's. */
  ghost predicate Took(u0: map<nat, Use>, u: map<nat, Use>, pages: seq<nat>) {
    && u.Keys == u0.Keys
    && (forall p :: p in u ==> u[p] == if p in pages then Kernel else u0[p])
    && (forall p :: p in pages ==> p in u0 && u0[p].Free?)
  }

  /** The pages in `pages` have become free. */
  ghost predicate Gave(u0: map<nat, Use>, u: map<nat, Use>, pages: seq<nat>) {
    u.Keys == u0.Keys && forall p :: p in u ==> u[p] == if p in pages then Free else u0[p]
  }

  lemma TookMore(u0: map<nat, Use>, u: map<nat, Use>, pages: seq<nat>, q: nat)
    requires Took(u0, u, pages) && q in u && u[q].Free?
    ensures Took(u0, u[q := Kernel], pages + [q]) && q in u0 && u0[q].Free? && q !in pages
    ensures Elements(pages + [q]) == Elements(pages) + {q} && (Distinct(pages) ==> Distinct(pages + [q]))
  {
  }

  lemma TookBack(u0: map<nat, Use>, u: map<nat, Use>, u': map<nat, Use>, pages: seq<nat>)
    requires Took(u0, u, pages) && Gave(u, u', pages)
    ensures u' == u0
  {
  }

  lemma GaveMore(u0: map<nat, Use>, u: map<nat, Use>, pages: seq<nat>, k: nat, list: seq<nat>)
    requires k < |pages| && Gave(u0, u, pages[..k]) && pages[k] in u
    ensures Gave(u0, u[pages[k] := Free], pages[..k + 1])
    ensures Reversed(pages[..k + 1]) + list == [pages[k]] + (Reversed(pages[..k]) + list)
    ensures Elements(pages[..k + 1]) == Elements(pages[..k]) + {pages[k]}
  {
    assert pages[..k + 1] == pages[..k] + [pages[k]];
    assert pages[..k + 1][..k] == pages[..k];
  }

  lemma SameMapsTrans(m: Mem, m1: Mem, m2: Mem)
    requires SameMaps(m, m1) && SameMaps(m1, m2)
    ensures SameMaps(m, m2)
  {
    hide Good, Lookup;
  }

  lemma SameMapsRefl(m: Mem)
    requires Good(m)
    ensures SameMaps(m, m)
  {
  }

  lemma InvGood(m: Mem, w: World)
    requires Inv(m, w)
    ensures Good(m) && Shaped(w) && w.trampoline in w.kernel
    ensures forall r :: r in w.procs ==> IsRoot(m, r)
  {
  }

  /** Memory before and after a new process r with trapframe tf. */
  ghost predicate Born(m: Mem, m': Mem, r: nat, tf: nat) {
    && Good(m) && Good(m') && !IsRoot(m, r) && IsRoot(m', r) && tf in m.use && m.use[tf].Free?
    && tf in m'.use && m'.use[tf] == Trapframe(r) && OnlyTouches(Use1(m, tf, Trapframe(r)), m', r)
  }

  class Processes {
    const vm: Vm
    const trampoline: nat
    var procs: map<nat, Proc>     // by the roots of their page tables
    var segs: seq<Seg>
    ghost var kernel: set<nat>

    ghost function State(): World
      reads this
    {
      World(procs, segs, kernel, trampoline)
    }

    ghost predicate Valid()
      reads this, vm
    {
      vm.Valid({}) && vm.early == {} && Inv(vm.View(), State())
    }

    constructor (end: nat, top: nat, trampoline: nat)
      requires trampoline < end <= top
      ensures Valid() && fresh(vm) && procs == map[] && segs == seq(MAX_SHM, _ => NO_SEG) && kernel == Range(0, end)
      ensures |vm.freelist| == top - end
    {
      this.vm := new Vm(end, top);
      this.trampoline, procs, segs, kernel := trampoline, map[], seq(MAX_SHM, _ => NO_SEG), Range(0, end);
      new;
      FirstInv(end, top, trampoline);
    }

    // -------------------------------------------------------------- single pages

    /** A page in hand counts as the kernel's. */
    ghost method Keep(q: nat)
      requires vm.Valid({q}) && vm.early == {} && Inv(vm.View(), State())
      modifies vm`use, `kernel
      ensures Valid() && q !in old(kernel) && kernel == old(kernel) + {q} && q in old(vm.use) && old(vm.use)[q].Free?
      ensures vm.View() == Use1(old(vm.View()), q, Kernel) && SameMaps(old(vm.View()), vm.View())
    {
      hide Inv, Good, FreeOnce, SameMaps;
      OnTheList(vm.freelist, vm.use, vm.early, {q}, q);
      PutToUse(vm.freelist, vm.use, vm.early, {q}, q, Kernel);
      assert {q} - {q} == {};
      TakenInv(vm.View(), State(), q);
      vm.use, kernel := vm.use[q := Kernel], kernel + {q};
      InvGood(vm.View(), State());
    }

    /** kfree of a page of the kernel. */
    method FreePage(p: nat)
      requires Valid() && p in kernel && p != trampoline
      modifies vm`use, vm`freelist, vm`data, `kernel
      ensures Valid() && kernel == old(kernel) - {p} && vm.freelist == [p] + old(vm.freelist)
      ensures p in old(vm.use) && vm.View() == Use1(old(vm.View()), p, Free) && SameMaps(old(vm.View()), vm.View())
      ensures GaveOnly(old(vm.freelist), old(vm.data), vm.freelist, vm.data)
    {
      hide Inv, Good, FreeOnce, SameMaps, GaveOnly;
      ReturnedInv(vm.View(), State(), p);
      InHand(vm.freelist, vm.use, p);
      vm.use, kernel := vm.use[p := Free], kernel - {p};
      vm.Kfree(p, {p});
      assert {p} - {p} == {};
      InvGood(vm.View(), State());
    }

    /** kfree of some pages of the kernel, in order. */
    method FreePages(pages: seq<nat>)
      requires Valid() && Distinct(pages) && forall p :: p in pages ==> p in kernel && p != trampoline
      modifies vm`use, vm`freelist, vm`data, `kernel
      ensures Valid() && kernel == old(kernel) - Elements(pages) && vm.freelist == Reversed(pages) + old(vm.freelist)
      ensures Gave(old(vm.use), vm.use, pages) && SameMaps(old(vm.View()), vm.View())
      ensures GaveOnly(old(vm.freelist), old(vm.data), vm.freelist, vm.data)
    {
      hide Inv, Good, FreeOnce, SameMaps, GaveOnly, Gave, Reversed, Elements;
      ghost var m0 := vm.View();
      SameMapsRefl(m0);
      NothingMoved(vm.freelist, vm.data);
      GaveNothing(vm.use, pages, kernel, vm.freelist);
      var k := 0;
      while k < |pages|
        invariant k <= |pages| && Valid() && kernel == old(kernel) - Elements(pages[..k])
        invariant vm.freelist == Reversed(pages[..k]) + old(vm.freelist) && Gave(old(vm.use), vm.use, pages[..k])
        invariant SameMaps(m0, vm.View()) && GaveOnly(old(vm.freelist), old(vm.data), vm.freelist, vm.data)
      {
        ghost var m, l, d := vm.View(), vm.freelist, vm.data;
        NotYet(pages, k);
        FreePage(pages[k]);
        SameMapsTrans(m0, m, vm.View());
        GaveTrans(old(vm.freelist), old(vm.data), l, d, vm.freelist, vm.data);
        GaveMore(old(vm.use), m.use, pages, k, old(vm.freelist));
        assert old(kernel) - Elements(pages[..k]) - {pages[k]} == old(kernel) - Elements(pages[..k + 1]);
        k := k + 1;
      }
      assert pages[..k] == pages;
    }

    /** n zeroed pages, or none. */
    method TakePages(n: nat) returns (ok: bool, pages: seq<nat>)
      requires Valid()
      modifies vm`use, vm`freelist, vm`data, `kernel
      ensures Valid() && SameMaps(old(vm.View()), vm.View()) && InUseKept(old(vm.use), old(vm.data), vm.data)
      ensures ok ==> |pages| == n && Distinct(pages) && kernel == old(kernel) + Elements(pages)
      ensures ok ==> |vm.freelist| + n == |old(vm.freelist)|
      ensures ok ==> Took(old(vm.use), vm.use, pages) && forall k :: 0 <= k < n ==> vm.data(pages[k]) == ZeroPage()
      ensures forall p :: p in pages ==> p !in old(kernel)
      ensures !ok ==> vm.use == old(vm.use) && kernel == old(kernel) && |old(vm.freelist)| < n
    {
      hide Inv, Good, FreeOnce, SameMaps, GaveOnly, Elements, ZeroPage, Took, InUseKept;
      ghost var m0 := vm.View();
      InvGood(m0, State());
      SameMapsRefl(m0);
      KeptFirst(vm.use, vm.data);
      pages := [];
      TookNothing(vm.use, kernel);
      while |pages| < n
        invariant |pages| <= n && Valid() && Distinct(pages) && kernel == old(kernel) + Elements(pages)
        invariant forall p :: p in pages ==> p !in old(kernel)
        invariant forall k :: 0 <= k < |pages| ==> vm.data(pages[k]) == ZeroPage()
        invariant Took(old(vm.use), vm.use, pages) && |vm.freelist| + |pages| == |old(vm.freelist)|
        invariant SameMaps(m0, vm.View()) && InUseKept(old(vm.use), old(vm.data), vm.data)
      {
        ghost var m, d, l := vm.View(), vm.data, vm.freelist;
        var q := vm.NewPage(ZeroPage());
        if q.None? {
          FreeTaken(m0.use, old(kernel), pages);
          SameMapsTrans(m0, m, vm.View());
          KeptTaken(m0.use, old(vm.data), d, l, vm.freelist, vm.data, vm.use);
          return false, [];
        }
        Keep(q.value);
        SameMapsTrans(m0, m, vm.View());
        TookMore(m0.use, m.use, pages, q.value);
        KeptFresh(m0.use, old(vm.data), d, q.value, vm.data);
        OldKernel(old(kernel), pages, q.value);
        pages := pages + [q.value];
      }
      ok := true;
    }

    /** Give back the pages taken so far. */
    method FreeTaken(ghost u0: map<nat, Use>, ghost kernel0: set<nat>, pages: seq<nat>)
      requires Valid() && Distinct(pages) && Took(u0, vm.use, pages)
      requires kernel == kernel0 + Elements(pages) && trampoline in kernel0
      requires forall p :: p in pages ==> p !in kernel0
      modifies vm`use, vm`freelist, vm`data, `kernel
      ensures Valid() && vm.use == u0 && kernel == kernel0 && SameMaps(old(vm.View()), vm.View())
      ensures GaveOnly(old(vm.freelist), old(vm.data), vm.freelist, vm.data)
    {
      hide Inv, Good, FreeOnce, SameMaps, GaveOnly, Took, Gave;
      FreePages(pages);
      TookBack(u0, old(vm.use), vm.use, pages);
      assert kernel0 + Elements(pages) - Elements(pages) == kernel0;
    }

    // -------------------------------------------------------------- processes

    /** proc_pagetable: an address space with only trampoline and trapframe; on failure every page
        is back where it was. */
    method ProcPagetable(tf: nat) returns (r: Option<nat>)
      requires vm.Valid({}) && vm.early == {}
      requires trampoline in vm.use && IsLent(vm.use[trampoline]) && tf in vm.use && IsLent(vm.use[tf])
      modifies vm
      ensures vm.Valid({}) && vm.early == {} && InUseKept(old(vm.use), old(vm.data), vm.data)
      ensures r.None? ==> vm.View() == old(vm.View()) && |old(vm.freelist)| < PROC_COST - 1
      ensures r.Some? ==> !IsRoot(old(vm.View()), r.value) && IsRoot(vm.View(), r.value)
      ensures r.Some? ==>
        OnlyTouches(old(vm.View()), vm.View(), r.value) && |vm.freelist| >= |old(vm.freelist)| - (PROC_COST - 1)
      ensures r.Some? ==> SpaceRight(vm.View(), segs, trampoline, r.value, NewProc(tf))
    {
      hide Good, Lookup, OnlyTouches, Gone, SpaceRight, FreeOnce, TookOnly, GaveOnly, InUseKept, MapsRange, Fresh;
      hide IsRoot;
      ghost var m0, l0, d0, m1 := vm.View(), vm.freelist, vm.data, vm.View();
      OnTheList(l0, vm.use, vm.early, {}, 0);
      r, m1 := StartSpace(tf);
      if r.None? {
        return;
      }
      ghost var m2, l2, d2 := vm.View(), vm.freelist, vm.data;
      FreshOther(m0, m1, m2, r.value, trampoline, PTE_V + PTE_R + PTE_X);
      var ok, done := vm.Mappages(r.value, TRAPFRAME, 1, tf, PTE_V + PTE_R + PTE_W, false, {});
      ghost var m3, l3, d3 := vm.View(), vm.freelist, vm.data;
      TookTrans(l0, d0, l2, d2, l3, d3);
      if !ok {
        FreshTrampoline(m2, m3, r.value, m1, trampoline, tf);
        vm.Uvmunmap(r.value, TRAMPOLINE, 1, false, {});
        ghost var m4, l4, d4 := vm.View(), vm.freelist, vm.data;
        UndoneMapping(m0, m1, m2, m3, m4, r.value, trampoline, tf, PTE_V + PTE_R + PTE_X, PTE_V + PTE_R + PTE_W);
        FreshTouches(m0, m1, m4, r.value);
        vm.Uvmfree(r.value, 0);
        CreatedAndGone(m0, m4, vm.View(), r.value);
        OnTheList(vm.freelist, vm.use, vm.early, {}, 0);
        GaveTrans(l3, d3, l4, d4, vm.freelist, vm.data);
        TookThenGave(m0.use, l0, d0, l3, d3, vm.freelist, vm.data);
        return None;
      }
      TookInUseKept(m0.use, l0, d0, l3, d3);
      MappedSpace(m0, m1, m2, m3, segs, trampoline, r.value, tf);
      FreshTouches(m0, m1, m3, r.value);
    }

    /** The first half of proc_pagetable: a root with the trampoline. */
    method StartSpace(ghost tf: nat) returns (r: Option<nat>, ghost m1: Mem)
      requires vm.Valid({}) && vm.early == {}
      requires trampoline in vm.use && IsLent(vm.use[trampoline]) && tf in vm.use && IsLent(vm.use[tf])
      modifies vm`tables, vm`freelist, vm`use, vm`data, vm`early
      ensures vm.Valid({}) && vm.early == {} && InUseKept(old(vm.use), old(vm.data), vm.data)
      ensures r.None? ==> vm.View() == old(vm.View()) && |old(vm.freelist)| < PROC_COST - 1
      ensures r.Some? ==> Fresh(old(vm.View()), m1, r.value) && tf in vm.use && IsLent(vm.use[tf])
      ensures r.Some? ==> MapsRange(m1, vm.View(), r.value, TRAMPOLINE, 1, trampoline, PTE_V + PTE_R + PTE_X, false)
      ensures r.Some? ==> |vm.freelist| >= |old(vm.freelist)| - (1 + ROOT_LEVEL)
      ensures r.Some? ==> TookOnly(old(vm.freelist), old(vm.data), vm.freelist, vm.data)
    {
      hide Good, Lookup, OnlyTouches, Gone, FreeOnce, TookOnly, GaveOnly, InUseKept, MapsRange, Fresh, IsRoot;
      ghost var m0, l0, d0 := vm.View(), vm.freelist, vm.data;
      OnTheList(l0, vm.use, vm.early, {}, 0);
      r := vm.Uvmcreate();
      m1 := vm.View();
      ghost var l1, d1 := vm.freelist, vm.data;
      if r.None? {
        TookInUseKept(m0.use, l0, d0, l1, d1);
        return;
      }
      FreshLent(m0, m1, r.value, trampoline);
      FreshLent(m0, m1, r.value, tf);
      var ok, done := vm.Mappages(r.value, TRAMPOLINE, 1, trampoline, PTE_V + PTE_R + PTE_X, false, {});
      ghost var m2, l2, d2 := vm.View(), vm.freelist, vm.data;
      TookTrans(l0, d0, l1, d1, l2, d2);
      RangeChanges(m1, m2, r.value, TRAMPOLINE, done, trampoline, PTE_V + PTE_R + PTE_X, tf);
      if !ok {
        FreshTouches(m0, m1, m2, r.value);
        FreshClear(m0, m1, m2, r.value, TRAMPOLINE, trampoline, PTE_V + PTE_R + PTE_X);
        vm.Uvmfree(r.value, 0);
        CreatedAndGone(m0, m2, vm.View(), r.value);
        OnTheList(vm.freelist, vm.use, vm.early, {}, 0);
        TookThenGave(m0.use, l0, d0, l2, d2, vm.freelist, vm.data);
        return None, m1;
      }
      TookInUseKept(m0.use, l0, d0, l2, d2);
    }

    /** proc_freepagetable: every page of the address space becomes free, nothing else changes. */
    method ProcFreepagetable(r: nat)
      requires vm.Valid({}) && Inv(vm.View(), State()) && r in procs && Attached(State(), r) == {}
      modifies vm`tables, vm`freelist, vm`use, vm`data, vm`early
      ensures vm.Valid({}) && vm.early == old(vm.early) && Gone(old(vm.View()), vm.View(), r)
      ensures GaveOnly(old(vm.freelist), old(vm.data), vm.freelist, vm.data)
    {
      hide Good, Lookup, OnlyTouches, Gone, FreeOnce, GaveOnly, Inv;
      ghost var m0, l0, d0 := vm.View(), vm.freelist, vm.data;
      BareSpace(m0, State(), r);
      vm.Uvmunmap(r, TRAMPOLINE, 1, false, {});
      ghost var m1, l1, d1 := vm.View(), vm.freelist, vm.data;
      vm.Uvmunmap(r, TRAPFRAME, 1, false, {});
      ghost var m2, l2, d2 := vm.View(), vm.freelist, vm.data;
      GaveTrans(l0, d0, l1, d1, l2, d2);
      ChangesTrans(m0, m1, m2, r);
      vm.Uvmfree(r, procs[r].sz);
      GaveTrans(l0, d0, l2, d2, vm.freelist, vm.data);
      GoneFrom(m0, m2, vm.View(), r);
    }

    /** The memory part of allocproc: a trapframe and an address space, or nothing. */
    method Allocproc() returns (r: Option<nat>)
      requires Valid()
      modifies this, vm
      ensures Valid() && segs == old(segs) && kernel == old(kernel) && InUseKept(old(vm.use), old(vm.data), vm.data)
      ensures r.None? ==> procs == old(procs) && vm.View() == old(vm.View())
      ensures r.None? ==> |old(procs)| >= NPROC || |old(vm.freelist)| < PROC_COST
      ensures r.Some? ==> |old(procs)| < NPROC && r.value !in old(procs) && r.value in procs
      ensures r.Some? ==> procs == old(procs)[r.value := NewProc(procs[r.value].trapframe)]
      ensures r.Some? ==> procs[r.value].sz == 0 && forall id :: 0 <= id < MAX_SHM ==> procs[r.value].shmVa[id] == 0
      ensures r.Some? ==> Born(old(vm.View()), vm.View(), r.value, procs[r.value].trapframe)
      ensures r.Some? ==> |vm.freelist| >= |old(vm.freelist)| - PROC_COST
    {
      hide Good, Lookup, OnlyTouches, SpaceRight, FreeOnce, TookOnly, GaveOnly, InUseKept, Inv, Born, SameMaps;
      KeptFirst(vm.use, vm.data);
      if |procs| >= NPROC {
        return None;
      }
      ghost var m0, d0 := vm.View(), vm.data;
      InvGood(m0, State());
      var mem := vm.Kalloc({});
      if mem.None? {
        return None;
      }
      var tf := mem.value;
      assert {} + {tf} == {tf};
      KeptFresh(m0.use, d0, d0, tf, vm.data);
      Keep(tf);
      ghost var m1, d1 := vm.View(), vm.data;
      r := AddSpace(m0, tf);
      KeptMore(m0.use, d0, m1.use, d1, vm.data);
      assert old(kernel) + {tf} - {tf} == old(kernel);
      if r.None? {
        ghost var l2, d2 := vm.freelist, vm.data;
        FreePage(tf);
        assert vm.use == m0.use;
        OnTheList(vm.freelist, vm.use, vm.early, {}, 0);
        KeptFreed(m0.use, d0, l2, d2, vm.freelist, vm.data);
      }
    }

    /** proc_pagetable for a process whose trapframe has been allocated. */
    method AddSpace(ghost m0: Mem, tf: nat) returns (r: Option<nat>)
      requires Valid() && tf in kernel && tf != trampoline
      requires Good(m0) && tf in m0.use && m0.use[tf].Free? && vm.View() == Use1(m0, tf, Kernel)
      modifies this, vm
      ensures Valid() && segs == old(segs) && InUseKept(old(vm.use), old(vm.data), vm.data)
      ensures r.None? ==> procs == old(procs) && vm.View() == old(vm.View()) && kernel == old(kernel)
      ensures r.None? ==> |old(vm.freelist)| < PROC_COST - 1
      ensures r.Some? ==>
        r.value !in old(procs) && kernel == old(kernel) - {tf} && procs == old(procs)[r.value := NewProc(tf)]
      ensures r.Some? ==> Born(m0, vm.View(), r.value, tf) && |vm.freelist| >= |old(vm.freelist)| - (PROC_COST - 1)
    {
      hide Good, Lookup, OnlyTouches, SpaceRight, FreeOnce, TookOnly, GaveOnly, InUseKept, Inv, Born, SameMaps, IsRoot;
      ghost var m1, w1 := vm.View(), State();
      InvNames(m1, w1);
      r := ProcPagetable(tf);
      if r.None? {
        return;
      }
      ghost var m2 := vm.View();
      AddProc(m1, m2, w1, r.value, tf);
      Relent(vm.freelist, vm.use, tf, Trapframe(r.value));
      vm.use := vm.use[tf := Trapframe(r.value)];
      kernel := kernel - {tf};
      procs := procs[r.value := NewProc(tf)];
      InvGood(vm.View(), State());
      BornFrom(m0, m1, m2, r.value, tf);
    }

    // -------------------------------------------------------------- sizes and faults

    /** growproc: n more bytes, mapped at once, or -n fewer.  Growth that meets an attached segment
        panics in mappages; shrinking over one frees its pages: see Shrink. */
    method Growproc(r: nat, n: int) returns (ok: bool, panicked: bool)
      requires Valid() && r in procs && -0x8000_0000 <= n < 0x8000_0000
      modifies this, vm
      ensures panicked ==> !ok && 0 < n <= TRAPFRAME * 4096 - old(procs)[r].sz
      ensures panicked ==> !NoSegmentIn(old(segs), old(procs)[r], Pages(old(procs)[r].sz), Pages(old(procs)[r].sz + n))
      ensures !panicked ==>
        segs == old(segs) && kernel == old(kernel) && Changes(old(vm.View()), vm.View(), r) && vm.Valid({})
      ensures !panicked && MayShrink(old(segs), old(procs)[r], n) ==>
        Valid() && DataKept(old(vm.use), old(vm.data), vm.use, vm.data)
      ensures !MayShrink(old(segs), old(procs)[r], n) ==>
        vm.early != {} && forall q :: q in vm.early ==> q in vm.freelist && StillMapped(vm.View(), old(State()), r, q)
      ensures !ok && !panicked ==> procs == old(procs) && n > 0
      ensures !ok && !panicked ==> Clears(old(vm.View()), vm.View(), r, Pages(old(procs)[r].sz), 0)
      ensures !ok && !panicked ==>
        || old(procs)[r].sz + n > TRAPFRAME * 4096
        || |old(vm.freelist)| < PAGE_COST * (Pages(old(procs)[r].sz + n) - Pages(old(procs)[r].sz))
      ensures ok ==>
        var sz := old(procs)[r].sz; procs == old(procs)[r := old(procs)[r].(sz := if sz + n < 0 then sz else sz + n)]
      ensures ok && n > 0 ==> NoSegmentIn(segs, old(procs)[r], Pages(old(procs)[r].sz), Pages(procs[r].sz))
      ensures ok && n > 0 ==>
        Grown(old(vm.View()), vm.View(), r, Pages(old(procs)[r].sz), Pages(procs[r].sz), PTE_V + PTE_R + PTE_U + PTE_W)
        && Zeroed(vm.View(), vm.data, r, Pages(old(procs)[r].sz), Pages(procs[r].sz))
      ensures ok && n <= 0 ==> Cut(old(vm.View()), vm.View(), r, old(procs)[r].sz, procs[r].sz, vm.early)
    {
      hide Good, Lookup, OnlyTouches, Inv, SpaceRight, FreeOnce, GaveOnly, DataKept, NoSegmentIn, Zeroed, Grown;
      hide Clears, StillMapped;
      hide Cut;
      ghost var m0, w0 := vm.View(), State();
      SpaceOf(m0, w0, r);
      ChangesRefl(m0, r);
      ClearsNothing(m0, r, Pages(procs[r].sz));
      KeptFirst(vm.use, vm.data);
      panicked := false;
      var p := procs[r];
      var size := p.sz;
      if n > 0 {
        if p.sz + n > TRAPFRAME * 4096 {
          return false, false;
        }
        ghost var grown;
        size, grown, panicked := vm.Uvmalloc(r, p.sz, p.sz + n, PTE_W);
        if panicked {
          InTheWay(m0, w0, r, p.sz + n);
          return false, true;
        }
        if size == 0 {
          ClearsChanges(m0, vm.View(), r, Pages(p.sz), 0);
          SameSpace(m0, vm.View(), segs, trampoline, r, p, Pages(p.sz));
          ChangeOne(m0, vm.View(), w0, r, p);
          assert procs[r := p] == procs;
          return false, false;
        }
        NothingInTheWay(m0, w0, r, p.sz + n);
        GrownChanges(m0, vm.View(), r, Pages(p.sz), Pages(size));
        GrownSpace(m0, vm.View(), segs, trampoline, r, p, size, PTE_V + PTE_R + PTE_U + PTE_W);
        ChangeOne(m0, vm.View(), w0, r, p.(sz := size));
        procs := procs[r := p.(sz := size)];
      } else if n < 0 {
        Shrink(r, n);
      } else {
        CutNothing(m0, r, size);
        assert procs[r := p.(sz := size)] == procs;
      }
      ok := true;
    }

    /** The shrinking half of growproc.  It frees what it unmaps, so each page of an attached segment in
        its range ends up on the free list while the other processes attached to the segment map it;
        if there are none in its range, all is well. */
    method Shrink(r: nat, n: int)
      requires Valid() && r in procs && -0x8000_0000 <= n < 0
      modifies `procs, vm
      ensures var sz := old(procs)[r].sz;
        procs == old(procs)[r := old(procs)[r].(sz := if sz + n < 0 then sz else sz + n)]
      ensures Changes(old(vm.View()), vm.View(), r)
      ensures vm.Valid({}) && Cut(old(vm.View()), vm.View(), r, old(procs)[r].sz, procs[r].sz, vm.early)
      ensures vm.early == {} <==> MayShrink(segs, old(procs)[r], n)
      ensures vm.early == {} ==> Valid() && DataKept(old(vm.use), old(vm.data), vm.use, vm.data)
      ensures forall q :: q in vm.early ==> q in vm.freelist && StillMapped(vm.View(), old(State()), r, q)
    {
      hide Good, Lookup, OnlyTouches, Inv, SpaceRight, FreeOnce, GaveOnly, DataKept, NoSegmentIn, Clears, LentIn;
      hide LentOnce, StillMapped;
      ghost var m0, w0, l0, d0 := vm.View(), State(), vm.freelist, vm.data;
      SpaceOf(m0, w0, r);
      KeptFirst(vm.use, vm.data);
      var p := procs[r];
      // the sum is taken modulo 2^64: below zero it wraps to a size nothing shrinks to
      var newsz := (p.sz + n) % 0x1_0000_0000_0000_0000;
      ShrinkRange(m0, w0, r, n, newsz);
      var size := vm.Uvmdealloc(r, p.sz, newsz, {});
      Shrunk(m0, vm.View(), r, p.sz, newsz, size);
      if vm.early == {} {
        OnTheList(vm.freelist, vm.use, vm.early, {}, 0);
        KeptThenGiven(m0.use, d0, l0, d0, vm.use, vm.freelist, vm.data);
        ClearedSpace(m0, vm.View(), segs, trampoline, r, p, size);
        ChangeOne(m0, vm.View(), w0, r, p.(sz := size));
      }
      LentStillMapped(m0, vm.View(), w0, r, Pages(size), Pages(p.sz), vm.freelist, vm.early);
      procs := procs[r := p.(sz := size)];
    }

    /** The lazy branch of sbrk: the size grows, pages come later. */
    method SbrkLazy(r: nat, n: nat) returns (ok: bool)
      requires Valid() && r in procs && n < 0x8000_0000
      modifies `procs
      ensures Valid() && ok == (old(procs)[r].sz + n <= TRAPFRAME * 4096)
      ensures procs == if ok then old(procs)[r := old(procs)[r].(sz := old(procs)[r].sz + n)] else old(procs)
    {
      hide Good, Lookup, OnlyTouches, Inv, SpaceRight;
      ghost var m := vm.View();
      SpaceOf(m, State(), r);
      var p := procs[r];
      if p.sz + n > TRAPFRAME * 4096 {
        return false;
      }
      LazySpace(m, segs, trampoline, r, p, p.sz + n);
      ChangesRefl(m, r);
      ChangeOne(m, m, State(), r, p.(sz := p.sz + n));
      procs := procs[r := p.(sz := p.sz + n)];
      ok := true;
    }

    /** vmfault at address va: a zeroed page, or None with no page mapped. */
    method Vmfault(r: nat, va: nat) returns (q: Option<nat>)
      requires Valid() && r in procs
      modifies vm
      ensures Valid() && Changes(old(vm.View()), vm.View(), r)
      ensures q.Some? ==> va < procs[r].sz && Lookup(old(vm.View()), r, va / 4096).None?
      ensures q.None? ==>
        va >= procs[r].sz || Lookup(old(vm.View()), r, va / 4096).Some? || |old(vm.freelist)| < PAGE_COST
      ensures |vm.freelist| <= |old(vm.freelist)|
      ensures MapsRange(old(vm.View()), vm.View(), r, va / 4096, if q.Some? then 1 else 0,
                        if q.Some? then q.value else 0, PTE_V + PTE_R + PTE_U + PTE_W, true)
      ensures q.Some? ==> vm.data(q.value) == ZeroPage()
      ensures InUseKept(old(vm.use), old(vm.data), vm.data)
    {
      hide Good, Lookup, OnlyTouches, Inv, SpaceRight, ZeroPage, FreeOnce, InUseKept, MapsRange;
      ghost var m := vm.View();
      SpaceOf(m, State(), r);
      MapsNothing(m, r, va / 4096, 0, PTE_V + PTE_R + PTE_U + PTE_W, true);
      ChangesRefl(m, r);
      KeptFirst(vm.use, vm.data);
      if va >= procs[r].sz {
        return None;
      }
      var v := va / 4096;
      var mapped := vm.IsMapped(r, v, {});
      if mapped {
        return None;
      }
      var panicked;
      q, panicked := vm.AllocPage(r, v, PTE_V + PTE_R + PTE_U + PTE_W, ZeroPage());
      ghost var n, frame := if q.Some? then 1 else 0, if q.Some? then q.value else 0;
      MapsChanges(m, vm.View(), r, v, n, frame, PTE_V + PTE_R + PTE_U + PTE_W);
      FaultedSpace(m, vm.View(), segs, trampoline, r, procs[r], v, n, frame, PTE_V + PTE_R + PTE_U + PTE_W);
      ChangeOne(m, vm.View(), State(), r, procs[r]);
      assert procs[r := procs[r]] == procs;
    }

    // -------------------------------------------------------------- shared segments

    /** The segment with that key, made if there is none; -1 if it cannot be. */
    method Shmget(key: int, size: int) returns (id: int)
      requires Valid()
      modifies `segs, `kernel, vm`use, vm`freelist, vm`data
      ensures Valid() && kernel == old(kernel) && SameMaps(old(vm.View()), vm.View())
      ensures |segs| == |old(segs)| == MAX_SHM
      ensures InUseKept(old(vm.use), old(vm.data), vm.data) && Keeps(old(vm.View()), vm.View())
      ensures id >= 0 ==> |vm.freelist| >= |old(vm.freelist)| - MAX_SHM_PG
      ensures id == -1 || (0 <= id < MAX_SHM && segs[id].used && segs[id].key == key)
      ensures id == -1 ==> vm.use == old(vm.use)
      ensures id == -1 && segs != old(segs) ==> size > 0 && exists i ::
        && 0 <= i < MAX_SHM && !old(segs)[i].used
        && segs == old(segs)[i := Seg(false, key, size, (size + 4095) / 4096, 0, [])]
      ensures id == -1 ==>
        || size <= 0 || size > MAX_SHM_SIZE || |old(vm.freelist)| < (size + 4095) / 4096
        || forall i :: 0 <= i < MAX_SHM ==> old(segs)[i].used && old(segs)[i].key != key
      ensures id >= 0 && old(segs)[id].used ==> segs == old(segs) && vm.use == old(vm.use)
      ensures id >= 0 && !old(segs)[id].used ==>
        && size > 0 && segs == old(segs)[id := Seg(true, key, size, (size + 4095) / 4096, 0, segs[id].pa)]
        && forall k :: 0 <= k < |segs[id].pa| ==> vm.data(segs[id].pa[k]) == ZeroPage()
      ensures 0 < size <= MAX_SHM_SIZE ==>
        forall i :: 0 <= i < MAX_SHM && old(segs)[i].used && old(segs)[i].key == key ==> id == i
    {
      hide Good, Lookup, Inv, SameMaps, InUseKept, ZeroPage, FreeOnce, Took, Keeps, Elements;
      ghost var m0 := vm.View();
      InvGood(m0, State());
      SameMapsRefl(m0);
      KeptFirst(vm.use, vm.data);
      KeepsRefl(m0);
      if size <= 0 || size > MAX_SHM_SIZE {
        return -1;
      }
      var npages := (size + 4095) / 4096;
      var i := 0;
      while i < MAX_SHM
        invariant i <= MAX_SHM && forall j :: 0 <= j < i ==> !(segs[j].used && segs[j].key == key)
      {
        if segs[i].used && segs[i].key == key {
          OneKey(m0, State(), i);
          return i;
        }
        i := i + 1;
      }
      i := 0;
      while i < MAX_SHM
        invariant i <= MAX_SHM && forall j :: 0 <= j < i ==> segs[j].used
      {
        if !segs[i].used {
          var made := MakeSegment(i, key, size, npages);
          return if made then i else -1;
        }
        i := i + 1;
      }
      return -1;
    }

    /** Slot i filled with a new segment, if there is memory for it. */
    method MakeSegment(i: nat, key: int, size: int, npages: nat) returns (ok: bool)
      requires Valid() && i < MAX_SHM == |segs| && !segs[i].used && 0 < npages <= MAX_SHM_PG
      requires forall j :: 0 <= j < MAX_SHM ==> !(segs[j].used && segs[j].key == key)
      modifies `segs, `kernel, vm`use, vm`freelist, vm`data
      ensures Valid() && kernel == old(kernel) && SameMaps(old(vm.View()), vm.View()) && |segs| == MAX_SHM
      ensures InUseKept(old(vm.use), old(vm.data), vm.data) && Keeps(old(vm.View()), vm.View())
      ensures !ok ==> segs == old(segs)[i := Seg(false, key, size, npages, 0, [])]
      ensures !ok ==> vm.use == old(vm.use) && |old(vm.freelist)| < npages
      ensures ok ==> segs == old(segs)[i := Seg(true, key, size, npages, 0, segs[i].pa)]
      ensures ok ==> |vm.freelist| + npages == |old(vm.freelist)|
      ensures ok ==> forall k :: 0 <= k < |segs[i].pa| ==> vm.data(segs[i].pa[k]) == ZeroPage()
    {
      hide Good, Lookup, Inv, SameMaps, InUseKept, ZeroPage, FreeOnce, Took, Keeps, Elements, Labelled;
      ghost var m0, w0 := vm.View(), State();
      KeepsRefl(m0);
      InvGood(m0, w0);
      var pages;
      ok, pages := TakePages(npages);
      if !ok {
        LeftOver(vm.View(), State(), i, Seg(false, key, size, npages, 0, []));
        segs := segs[i := Seg(false, key, size, npages, 0, [])];
        return;
      }
      ghost var m1, w1 := vm.View(), State();
      TakenKernel(old(kernel), pages, trampoline);
      NewSegment(m1, w1, i, key, size, pages);
      RelentAll(vm.freelist, vm.use, kernel, i, pages, m1, w1);
      vm.use := Labelled(vm.use, i, pages);
      kernel := kernel - Elements(pages);
      segs := segs[i := Seg(true, key, size, npages, 0, pages)];
      SameMapsTrans(m0, m1, vm.View());
      TookKeeps(m0.use, m1.use, vm.use, i, pages, m0, vm.View());
      InvGood(vm.View(), State());
    }

    /** Attach segment id to process r; -1, with nothing mapped, if that fails.  A page of the
        region that is mapped already makes mappages panic. */
    method Shmat(r: nat, id: int) returns (va: int, panicked: bool)
      requires Valid() && r in procs
      modifies `segs, `procs, vm
      ensures panicked ==> va == -1 && 0 <= id < MAX_SHM && old(segs)[id].used && old(procs)[r].shmVa[id] == 0
      ensures panicked ==>
        exists v :: Region(id) <= v < Region(id) + |old(segs)[id].pa| && Lookup(old(vm.View()), r, v).Some?
      ensures !panicked ==>
        Valid() && OnlyTouches(old(vm.View()), vm.View(), r) && InUseKept(old(vm.use), old(vm.data), vm.data)
      ensures id < 0 || id >= MAX_SHM || !old(segs)[id].used ==> va == -1
      ensures va == -1 && !panicked ==> State() == old(State()) && Clears(old(vm.View()), vm.View(), r, 0, 0)
      ensures va == -1 && !panicked ==>
        id < 0 || id >= MAX_SHM || !old(segs)[id].used || |old(vm.freelist)| < ROOT_LEVEL * |old(segs)[id].pa|
      ensures va != -1 ==> 0 <= id < MAX_SHM && va == TRAPFRAME - 4 * (id + 1) && old(segs)[id].used && !panicked
      ensures va != -1 ==> |vm.freelist| >= |old(vm.freelist)| - ROOT_LEVEL * |old(segs)[id].pa|
      ensures va != -1 && old(procs)[r].shmVa[id] != 0 ==> State() == old(State()) && vm.View() == old(vm.View())
      ensures va != -1 && old(procs)[r].shmVa[id] == 0 ==> State() == SetAttached(old(State()), r, id, Region(id))
      ensures va != -1 && old(procs)[r].shmVa[id] == 0 ==>
        Mapped(old(vm.View()), vm.View(), r, Region(id), old(segs)[id].pa, |old(segs)[id].pa|)
        && forall v :: Region(id) <= v < Region(id) + |old(segs)[id].pa| ==> Lookup(old(vm.View()), r, v).None?
    {
      hide Good, Lookup, OnlyTouches, Inv, Mapped, FreeOnce, InUseKept, TookOnly, GaveOnly;
      ghost var m0, w := vm.View(), State();
      InvGood(m0, w);
      ClearsNothing(m0, r, 0);
      ClearsChanges(m0, m0, r, 0, 0);
      KeptFirst(vm.use, vm.data);
      panicked := false;
      if id < 0 || id >= MAX_SHM {
        return -1, false;
      }
      RegionOf(m0, w, r, id);
      if !segs[id].used {
        return -1, false;
      }
      if procs[r].shmVa[id] != 0 {
        return procs[r].shmVa[id], false;
      }
      var pa := segs[id].pa;
      var ok;
      ok, panicked := MapSegment(r, id, pa);
      if panicked {
        return -1, true;
      }
      if !ok {
        ClearsChanges(m0, vm.View(), r, 0, 0);
        SpaceOf(m0, w, r);
        SameSpace(m0, vm.View(), segs, trampoline, r, procs[r], 0);
        ChangeOne(m0, vm.View(), w, r, procs[r]);
        assert procs[r := procs[r]] == procs;
        return -1, false;
      }
      MappedRegion(m0, vm.View(), r, id, pa);
      AttachedInv(m0, vm.View(), w, r, id, Region(id));
      var p := procs[r];
      procs := procs[r := p.(shmVa := p.shmVa[id := Region(id)])];
      segs := segs[id := segs[id].(refcount := segs[id].refcount + 1)];
      return Region(id), false;
    }

    /** The loop of shmat: the pages of the segment, mapped one by one. */
    method MapSegment(r: nat, id: nat, pa: seq<nat>) returns (ok: bool, panicked: bool)
      requires vm.Valid({}) && vm.early == {} && IsRoot(vm.View(), r) && id < MAX_SHM && |pa| <= MAX_SHM_PG
      requires forall j :: 0 <= j < |pa| ==> pa[j] in vm.use && IsLent(vm.use[pa[j]])
      modifies vm`tables, vm`freelist, vm`use, vm`data, vm`early
      ensures panicked ==> exists v :: Region(id) <= v < Region(id) + |pa| && Lookup(old(vm.View()), r, v).Some?
      ensures !panicked ==> vm.Valid({}) && vm.early == {} && InUseKept(old(vm.use), old(vm.data), vm.data)
      ensures !panicked && ok ==> Mapped(old(vm.View()), vm.View(), r, Region(id), pa, |pa|)
      ensures !panicked && ok ==> |vm.freelist| >= |old(vm.freelist)| - ROOT_LEVEL * |pa|
      ensures !panicked && ok ==> forall v :: Region(id) <= v < Region(id) + |pa| ==> Lookup(old(vm.View()), r, v).None?
      ensures !panicked && !ok ==> Clears(old(vm.View()), vm.View(), r, 0, 0) && |old(vm.freelist)| < ROOT_LEVEL * |pa|
    {
      hide Good, Lookup, OnlyTouches, Mapped, FreeOnce, InUseKept, TookOnly, GaveOnly, Clears, MapsRange;
      ghost var m0, l0, d0 := vm.View(), vm.freelist, vm.data;
      MappedNothing(m0, r, Region(id), pa);
      NothingMoved(vm.freelist, vm.data);
      OnTheList(vm.freelist, vm.use, vm.early, {}, 0);
      var j := 0;
      while j < |pa|
        invariant j <= |pa| && vm.Valid({}) && vm.early == {} && IsRoot(vm.View(), r)
        invariant Mapped(m0, vm.View(), r, Region(id), pa, j)
        invariant |vm.freelist| >= |old(vm.freelist)| - ROOT_LEVEL * j && TookOnly(l0, d0, vm.freelist, vm.data)
        invariant forall v :: Region(id) <= v < Region(id) + j ==> Lookup(m0, r, v).None?
      {
        ghost var m, l, d := vm.View(), vm.freelist, vm.data;
        MappedNext(m0, m, r, Region(id), pa, j);
        panicked := vm.IsMapped(r, Region(id) + j, {});
        if panicked {
          return false, true;
        }
        ghost var done;
        ok, done := vm.Mappages(r, Region(id) + j, 1, pa[j], SHARED, false, {});
        TookTrans(l0, d0, l, d, vm.freelist, vm.data);
        if !ok {
          MappedFailed(m0, m, vm.View(), r, Region(id), pa, j);
          ghost var l1, d1 := vm.freelist, vm.data;
          MapsRoot(m, vm.View(), r, Region(id) + j, 0, pa[j]);
          Undo(m0, r, Region(id), pa, j);
          OnTheList(vm.freelist, vm.use, vm.early, {}, 0);
          UndoneData(m0.use, l0, d0, l1, d1, vm.freelist, vm.data);
          return false, false;
        }
        MapsRoot(m, vm.View(), r, Region(id) + j, 1, pa[j]);
        MappedMore(m0, m, vm.View(), r, Region(id), pa, j);
        j := j + 1;
      }
      TookInUseKept(m0.use, l0, d0, vm.freelist, vm.data);
      return true, false;
    }

    /** Unmap, one by one, the pages that were mapped before shmat failed. */
    method Undo(ghost m0: Mem, r: nat, va: nat, ghost pa: seq<nat>, j: nat)
      requires vm.Valid({}) && IsRoot(vm.View(), r) && Mapped(m0, vm.View(), r, va, pa, j) && va + j <= MAXPAGES
      requires Good(m0) && IsRoot(m0, r) && forall v: nat :: va <= v < va + j ==> Lookup(m0, r, v).None?
      modifies vm`tables, vm`freelist, vm`use, vm`data, vm`early
      ensures vm.Valid({}) && vm.early == old(vm.early) && Clears(m0, vm.View(), r, 0, 0)
      ensures vm.freelist == old(vm.freelist)
      ensures GaveOnly(old(vm.freelist), old(vm.data), vm.freelist, vm.data)
    {
      hide Good, Lookup, OnlyTouches, Mapped, Clears, FreeOnce, GaveOnly;
      ghost var m1 := vm.View();
      NothingMoved(vm.freelist, vm.data);
      ClearsNothing(m1, r, va);
      MappedShared(m0, m1, r, va, pa, j);
      var k := 0;
      while k < j
        invariant k <= j && vm.Valid({}) && IsRoot(vm.View(), r) && Clears(m1, vm.View(), r, va, k)
        invariant vm.freelist == old(vm.freelist) && vm.early == old(vm.early)
        invariant GaveOnly(old(vm.freelist), old(vm.data), vm.freelist, vm.data)
      {
        ghost var m, l, d := vm.View(), vm.freelist, vm.data;
        ClearedShared(m1, m, r, va, k, j);
        vm.Uvmunmap(r, va + k, 1, false, {});
        GaveTrans(old(vm.freelist), old(vm.data), l, d, vm.freelist, vm.data);
        ClearsOneMore(m1, m, vm.View(), r, va, k);
        k := k + 1;
      }
      MappedCleared(m0, m1, vm.View(), r, va, pa, j);
    }

    /** Detach segment id, attached to r; with the last process go the pages, each once. */
    method Detach(r: nat, id: nat)
      requires Valid() && r in procs && id < MAX_SHM && |procs[r].shmVa| == |segs| == MAX_SHM && procs[r].shmVa[id] != 0
      modifies `segs, `procs, `kernel, vm`tables, vm`freelist, vm`use, vm`data, vm`early
      ensures Valid() && kernel == old(kernel) && |segs| == |old(segs)| && Elsewhere(old(vm.View()), vm.View(), r)
      ensures procs == old(procs)[r := old(procs)[r].(shmVa := old(procs)[r].shmVa[id := 0])]
      ensures segs == old(segs)[id := Released(old(segs)[id], true)]
      ensures vm.freelist == (if old(segs)[id].refcount == 1 then Reversed(old(segs)[id].pa) else []) + old(vm.freelist)
      ensures Unmaps(old(vm.View()), vm.View(), r, Region(id), |old(segs)[id].pa|)
      ensures Detaches(old(vm.View()), vm.View(), old(State()), r, id, id + 1)
      ensures GaveOnly(old(vm.freelist), old(vm.data), vm.freelist, vm.data)
    {
      hide Good, Lookup, OnlyTouches, Inv, FreeOnce, GaveOnly, SameMaps, Elsewhere, Detaches, Gave, Reversed, Unmaps;
      hide Clears;
      ghost var m0, w0, l0, d0 := vm.View(), State(), vm.freelist, vm.data;
      RegionOf(m0, w0, r, id);
      var pa := segs[id].pa;
      vm.Uvmunmap(r, procs[r].shmVa[id], segs[id].npages, false, {});
      ghost var m1, l1, d1 := vm.View(), vm.freelist, vm.data;
      ClearsChanges(m0, m1, r, Region(id), |pa|);
      ClearedRegion(m0, m1, r, id, pa);
      AttachedInv(m0, m1, w0, r, id, 0);
      TouchesElsewhere(m0, m1, r);
      var p := procs[r];
      procs := procs[r := p.(shmVa := p.shmVa[id := 0])];
      segs := segs[id := segs[id].(refcount := segs[id].refcount - 1)];
      if segs[id].refcount <= 0 {
        DropSegment(id);
        SameMapsElsewhere(m1, vm.View(), r);
        ElsewhereTrans(m0, m1, vm.View(), r);
        GaveTrans(l0, d0, l1, d1, vm.freelist, vm.data);
        UnmapsSame(m0, m1, vm.View(), r, Region(id), |pa|);
        DetachedLast(m0, m1, vm.View(), w0, r, id);
      } else {
        SameMapsRefl(m1);
        UnmapsSame(m0, m1, m1, r, Region(id), |pa|);
        DetachedMore(m0, m1, w0, r, id);
        assert [] + old(vm.freelist) == old(vm.freelist);
      }
    }

    /** The pages of a segment that nobody has attached go to the free list. */
    method DropSegment(id: nat)
      requires Valid() && id < MAX_SHM == |segs| && segs[id].refcount == 0
      modifies `segs, `kernel, vm`use, vm`freelist, vm`data
      ensures Valid() && kernel == old(kernel) && segs == old(segs)[id := NO_SEG]
      ensures SameMaps(old(vm.View()), vm.View()) && vm.freelist == Reversed(old(segs)[id].pa) + old(vm.freelist)
      ensures Gave(old(vm.use), vm.use, old(segs)[id].pa)
      ensures forall p :: p in old(segs)[id].pa ==>
        p in old(vm.use) && old(vm.use)[p].Shared? && old(vm.use)[p].seg == id
      ensures forall p :: p in old(vm.use) && old(vm.use)[p].Shared? && old(vm.use)[p].seg == id ==>
        p in old(segs)[id].pa
      ensures GaveOnly(old(vm.freelist), old(vm.data), vm.freelist, vm.data)
    {
      hide Good, Lookup, Inv, FreeOnce, GaveOnly, SameMaps, Gave, Reversed, BackToKernel;
      ghost var m0, w0 := vm.View(), State();
      var pa := segs[id].pa;
      SegmentPages(m0, w0, id);
      LastGone(m0, w0, id);
      RelentBack(vm.freelist, vm.use, pa);
      vm.use := BackToKernel(vm.use, pa);
      kernel := kernel + Elements(pa);
      segs := segs[id := NO_SEG];
      ghost var m1 := vm.View();
      InvGood(m1, State());
      FreePages(pa);
      SameMapsTrans(m0, m1, vm.View());
      assert old(kernel) + Elements(pa) - Elements(pa) == old(kernel);
      GaveAll(m0.use, vm.use, pa);
    }

    /** shmdt */
    method Shmdt(r: nat, id: int) returns (ret: int)
      requires Valid() && r in procs
      modifies `segs, `procs, `kernel, vm`tables, vm`freelist, vm`use, vm`data, vm`early
      ensures Valid() && kernel == old(kernel) && Elsewhere(old(vm.View()), vm.View(), r)
      ensures |old(segs)| == |segs| == |old(procs)[r].shmVa| == MAX_SHM
      ensures DataKept(old(vm.use), old(vm.data), vm.use, vm.data)
      ensures ret == -1 <==> id < 0 || id >= MAX_SHM || !old(segs)[id].used || old(procs)[r].shmVa[id] == 0
      ensures ret == -1 ==> State() == old(State()) && vm.View() == old(vm.View())
      ensures ret != -1 ==> ret == 0 && procs == old(procs)[r := old(procs)[r].(shmVa := old(procs)[r].shmVa[id := 0])]
      ensures ret != -1 ==> segs == old(segs)[id := Released(old(segs)[id], true)]
      ensures ret != -1 ==> Unmaps(old(vm.View()), vm.View(), r, Region(id), |old(segs)[id].pa|)
      ensures ret != -1 ==>
        vm.freelist == (if |Holders(old(State()), id)| == 1 then Reversed(old(segs)[id].pa) else []) + old(vm.freelist)
    {
      hide Good, Lookup, OnlyTouches, Inv, FreeOnce, GaveOnly, Elsewhere, Detaches, Unmaps, DataKept;
      ghost var m0, l0, d0 := vm.View(), vm.freelist, vm.data;
      InvGood(m0, State());
      SameMapsRefl(m0);
      SameMapsElsewhere(m0, m0, r);
      KeptFirst(vm.use, vm.data);
      assert ProcShaped(procs[r]);
      if id < 0 || id >= MAX_SHM || !segs[id].used || procs[r].shmVa[id] == 0 {
        return -1;
      }
      CountedAt(m0, State(), id);
      Detach(r, id);
      OnTheList(vm.freelist, vm.use, vm.early, {}, 0);
      KeptFirst(m0.use, d0);
      KeptThenGiven(m0.use, d0, l0, d0, vm.use, vm.freelist, vm.data);
      return 0;
    }

    /** The first part of freeproc: detach from every segment. */
    method DetachAll(r: nat)
      requires Valid() && r in procs
      modifies `segs, `procs, `kernel, vm`tables, vm`freelist, vm`use, vm`data, vm`early
      ensures Valid() && kernel == old(kernel) && Elsewhere(old(vm.View()), vm.View(), r) && r in procs
      ensures procs == old(procs)[r := old(procs)[r].(shmVa := procs[r].shmVa)] && Attached(State(), r) == {}
      ensures |old(segs)| == |segs| == |old(procs)[r].shmVa| == MAX_SHM
      ensures forall id :: 0 <= id < MAX_SHM ==> segs[id] == Released(old(segs)[id], old(procs)[r].shmVa[id] != 0)
      ensures Detaches(old(vm.View()), vm.View(), old(State()), r, 0, MAX_SHM)
      ensures GaveOnly(old(vm.freelist), old(vm.data), vm.freelist, vm.data)
    {
      hide Good, Lookup, OnlyTouches, Inv, FreeOnce, GaveOnly, Elsewhere, Detaches, Unmaps, Released, SpaceRight;
      ghost var m0, w0, l0, d0 := vm.View(), State(), vm.freelist, vm.data;
      SpaceOf(m0, w0, r);
      InvGood(m0, w0);
      SameMapsRefl(m0);
      SameMapsElsewhere(m0, m0, r);
      NothingMoved(vm.freelist, vm.data);
      DetachesNothing(m0, w0, r);
      var p0 := procs[r];
      assert procs == procs[r := p0.(shmVa := procs[r].shmVa)];
      var i := 0;
      while i < MAX_SHM
        invariant i <= MAX_SHM && Valid() && kernel == old(kernel) && Elsewhere(m0, vm.View(), r) && r in procs
        invariant procs == old(procs)[r := p0.(shmVa := procs[r].shmVa)] && |segs| == |procs[r].shmVa| == MAX_SHM
        invariant forall id :: 0 <= id < i ==> procs[r].shmVa[id] == 0
        invariant forall id :: i <= id < MAX_SHM ==> procs[r].shmVa[id] == p0.shmVa[id] && segs[id] == old(segs)[id]
        invariant forall id :: 0 <= id < i ==> segs[id] == Released(old(segs)[id], p0.shmVa[id] != 0)
        invariant Detaches(m0, vm.View(), w0, r, 0, i)
        invariant GaveOnly(old(vm.freelist), old(vm.data), vm.freelist, vm.data)
      {
        ghost var m, w, l, d := vm.View(), State(), vm.freelist, vm.data;
        RegionOf(m, w, r, i);
        if procs[r].shmVa[i] != 0 && segs[i].used {
          Detach(r, i);
          ElsewhereTrans(m0, m, vm.View(), r);
          GaveTrans(l0, d0, l, d, vm.freelist, vm.data);
          DetachesTrans(m0, m, vm.View(), w0, w, r, i);
        } else {
          DetachesSkip(m0, m, w0, r, i);
          NotReleased(segs[i]);
        }
        i := i + 1;
      }
    }

    /** freeproc: detached from its segments, the process gives back its trapframe and all its
        pages; what others have stays. */
    method Freeproc(r: nat)
      requires Valid() && r in procs
      modifies this, vm
      ensures Valid() && kernel == old(kernel) && Elsewhere(old(vm.View()), vm.View(), r) && procs == old(procs) - {r}
      ensures |old(segs)| == |segs| == |old(procs)[r].shmVa| == MAX_SHM
      ensures forall id :: 0 <= id < MAX_SHM ==> segs[id] == Released(old(segs)[id], old(procs)[r].shmVa[id] != 0)
      ensures Leaves(old(vm.View()), vm.View(), old(State()), r)
      ensures DataKept(old(vm.use), old(vm.data), vm.use, vm.data)
    {
      hide Good, Lookup, OnlyTouches, Inv, FreeOnce, GaveOnly, Elsewhere, Detaches, Gone, Leaves, DataKept, InUseKept;
      ghost var m0, w0, l0, d0 := vm.View(), State(), vm.freelist, vm.data;
      TrapframeOf(m0, w0, r);
      DetachAll(r);
      ghost var m1, l1, d1 := vm.View(), vm.freelist, vm.data;
      ghost var m2 := FreeSpace(r);
      GaveTrans(l0, d0, l1, d1, vm.freelist, vm.data);
      ElsewhereTrans(m0, m1, vm.View(), r);
      LeavesFrom(m0, m1, m2, w0, r);
      OnTheList(vm.freelist, vm.use, vm.early, {}, 0);
      KeptFirst(m0.use, d0);
      KeptThenGiven(m0.use, d0, l0, d0, vm.use, vm.freelist, vm.data);
    }

    /** The second part of freeproc: the trapframe goes first, then the page table that maps it. */
    method FreeSpace(r: nat) returns (ghost m: Mem)
      requires Valid() && r in procs && Attached(State(), r) == {}
      modifies this, vm
      ensures Valid() && kernel == old(kernel) && segs == old(segs) && procs == old(procs) - {r}
      ensures Elsewhere(old(vm.View()), vm.View(), r) && GaveOnly(old(vm.freelist), old(vm.data), vm.freelist, vm.data)
      ensures Gone(old(vm.View()), m, r) && vm.View() == Use1(m, old(procs)[r].trapframe, Free)
    {
      hide Good, Lookup, OnlyTouches, Inv, FreeOnce, GaveOnly, Elsewhere, Gone;
      ghost var m1, w1, l1, d1 := vm.View(), State(), vm.freelist, vm.data;
      var tf := procs[r].trapframe;
      TrapframeOf(m1, w1, r);
      InvGood(m1, w1);
      TooEarly(vm.freelist, vm.use, vm.early, {}, tf);
      assert {} + {tf} == {tf} && {tf} - {tf} == {};
      vm.early := {tf};
      vm.Kfree(tf, {tf});
      GaveOne(l1, d1, tf, vm.data);
      ghost var l2, d2 := vm.freelist, vm.data;
      ProcFreepagetable(r);
      GaveTrans(l1, d1, l2, d2, vm.freelist, vm.data);
      m := vm.View();
      DropProc(m1, m, w1, r);
      Settled(vm.freelist, vm.use, tf);
      vm.use, vm.early := vm.use[tf := Free], {};
      procs := procs - {r};
      InvGood(vm.View(), State());
      LeftElsewhere(m1, m, vm.View(), r);
    }

    /** The memory part of fork: a child with a copy of the parent's pages and of its saved registers,
        but for a result of 0, and nothing attached; on failure every page is back where it was. */
    method Fork(r: nat) returns (child: Option<nat>)
      requires Valid() && r in procs
      modifies this, vm
      ensures Valid() && kernel == old(kernel) && DataKept(old(vm.use), old(vm.data), vm.use, vm.data)
      ensures segs == old(segs)
      ensures child.None? ==> vm.View() == old(vm.View()) && procs == old(procs)
      ensures child.None? ==>
        |old(procs)| >= NPROC || |old(vm.freelist)| < PROC_COST + PAGE_COST * Pages(old(procs)[r].sz)
      ensures child.Some? ==> child.value !in old(procs) && child.value in procs && child.value != r
      ensures child.Some? ==>
        procs == old(procs)[child.value := NewProc(procs[child.value].trapframe).(sz := old(procs)[r].sz)]
        && Attached(State(), child.value) == {}
      ensures child.Some? ==> Elsewhere(old(vm.View()), vm.View(), child.value) && Keeps(old(vm.View()), vm.View())
      ensures child.Some? ==>
        AllCopied(old(vm.View()), old(vm.data), vm.View(), vm.data, r, child.value, Pages(old(procs)[r].sz))
      ensures child.Some? ==>
        Inherits(vm.data(procs[child.value].trapframe), old(vm.data)(old(procs)[r].trapframe))
    {
      hide Good, Lookup, OnlyTouches, Inv, SpaceRight, FreeOnce, InUseKept, DataKept, Born, Copied, CopiedPage;
      hide Elsewhere, Keeps, Leaves, AllCopied, Inherits, NewProc, Attached;
      ghost var m0, w0, d0 := vm.View(), State(), vm.data;
      SpaceOf(m0, w0, r);
      KeptFirst(vm.use, vm.data);
      child := Allocproc();
      if child.None? {
        KeptData(m0.use, d0, vm.use, vm.data);
        return;
      }
      var c := child.value;
      ghost var m1, w1, d1, tf := vm.View(), State(), vm.data, procs[c].trapframe;
      NoTrapframe(m0, w0, c);
      SpaceOf(m1, w1, r);
      SpaceOf(m1, w1, c);
      EmptySpace(m1, segs, trampoline, c, tf, Pages(procs[r].sz));
      var ok := vm.Uvmcopy(r, c, procs[r].sz);
      ghost var m2 := vm.View();
      if !ok {
        ghost var d2 := vm.data;
        ChildEmpty(w1, c, tf);
        FreeChild(c, m0, m1, tf);
        assert procs == old(procs);
        ForkData(m0, m1, m2, c, tf, d0, d1, d2, vm.data);
        return None;
      }
      CopiedChanges(m1, d1, m2, vm.data, r, c, Pages(procs[r].sz));
      CopiedSpace(m1, d1, m2, vm.data, segs, trampoline, r, c, tf, procs[r].sz);
      ChangeOne(m1, m2, w1, c, procs[c].(sz := procs[r].sz));
      ForkKept(m0, m1, m2, d0, d1, vm.data, c, tf);
      ForkCopied(m0, m1, m2, d0, d1, vm.data, r, c, tf, Pages(procs[r].sz));
      procs := procs[c := procs[c].(sz := procs[r].sz)];
      InvGood(m2, State());
      Trapframes(m0, m1, w0, r, c, tf);
      ForkedEmpty(State(), c, tf, procs[r].sz);
      CopyTrapframe(r, c, m0, d0, Pages(procs[r].sz));
    }

    /** The saved registers of r for its child c, with 0 as what fork returns. */
    method CopyTrapframe(r: nat, c: nat, ghost m0: Mem, ghost d0: Data, ghost n: nat)
      requires Valid() && r in procs && c in procs
      requires procs[c].trapframe in m0.use && m0.use[procs[c].trapframe].Free?
      requires procs[r].trapframe in m0.use && !m0.use[procs[r].trapframe].Free?
      requires DataKept(m0.use, d0, vm.use, vm.data) && AllCopied(m0, d0, vm.View(), vm.data, r, c, n)
      modifies vm`data
      ensures Valid() && DataKept(m0.use, d0, vm.use, vm.data) && AllCopied(m0, d0, vm.View(), vm.data, r, c, n)
      ensures Inherits(vm.data(procs[c].trapframe), d0(procs[r].trapframe))
    {
      hide Inv, FreeOnce;
      ghost var w := State();
      TrapframeOf(vm.View(), w, r);
      TrapframeOf(vm.View(), w, c);
      var from, to, d := procs[r].trapframe, procs[c].trapframe, vm.data;
      vm.data := (p: nat) => if p == to then Registers(d(from)) + d(to)[TRAPFRAME_SIZE..] else d(p);
      NotATrapframe(m0, d0, vm.View(), d, vm.data, r, c, to, n);
    }

    /** Fork gives up: the child, which has nothing yet, is freed. */
    method FreeChild(c: nat, ghost m0: Mem, ghost m1: Mem, ghost tf: nat)
      requires vm.Valid({}) && vm.early == {} && c in procs && Inv(m1, State()) && Clears(m1, vm.View(), c, 0, 0)
      requires Born(m0, m1, c, tf) && Attached(State(), c) == {} && forall p :: p in m0.use ==>
        m0.use[p] != Trapframe(c)
      modifies this, vm
      ensures Valid() && kernel == old(kernel) && segs == old(segs) && procs == old(procs) - {c}
      ensures vm.View() == m0 && DataKept(old(vm.use), old(vm.data), vm.use, vm.data) && Changes(m1, old(vm.View()), c)
    {
      hide Good, Lookup, OnlyTouches, Inv, SpaceRight, FreeOnce, DataKept, Born, Elsewhere, Leaves, Clears;
      ghost var m2, w := vm.View(), State();
      ClearsChanges(m1, m2, c, 0, 0);
      SpaceOf(m1, w, c);
      SameSpace(m1, m2, segs, trampoline, c, procs[c], 0);
      ChangeOne(m1, m2, w, c, procs[c]);
      assert procs[c := procs[c]] == procs;
      InvGood(m2, w);
      Freeproc(c);
      NoneReleased(w, c, segs);
      ForkUndone(m0, m1, m2, vm.View(), w, c, tf);
    }
  }

  lemma ChildEmpty(w: World, c: nat, tf: nat)
    requires c in w.procs && w.procs[c] == NewProc(tf)
    ensures Attached(w, c) == {}
  {
  }

  /** What is left of a segment after one process, if it was attached, has detached. */
  function Released(s: Seg, attached: bool): Seg {
    if !attached then s else if s.refcount == 1 then NO_SEG else s.(refcount := s.refcount - 1)
  }

  lemma ForkedEmpty(w: World, c: nat, tf: nat, sz: nat)
    requires c in w.procs && w.procs[c] == NewProc(tf).(sz := sz)
    ensures Attached(w, c) == {}
  {
  }

  lemma NotReleased(s: Seg)
    ensures Released(s, false) == s
  {
  }

  /** Process r is the last one that has segment id attached. */
  ghost predicate LastOne(w: World, r: nat, id: nat) {
    id < |w.segs| && r in w.procs && id < |w.procs[r].shmVa| && w.procs[r].shmVa[id] != 0 && w.segs[id].refcount == 1
  }

  /** r no longer maps pages v to v + n; its other translations are as before. */
  ghost predicate Unmaps(m: Mem, m': Mem, r: nat, v: nat, n: nat) {
    && Good(m) && Good(m') && IsRoot(m, r) && IsRoot(m', r)
    && forall x: nat :: x < MAXPAGES ==> Lookup(m', r, x) == if v <= x < v + n then None else Lookup(m, r, x)
  }

  lemma UnmapsSame(m0: Mem, m1: Mem, m2: Mem, r: nat, v: nat, n: nat)
    requires Clears(m0, m1, r, v, n) && SameMaps(m1, m2)
    ensures Unmaps(m0, m2, r, v, n)
  {
    hide Good, Lookup, OnlyTouches;
  }

  /** Only r's own pages have changed, and those of segments lo to hi that r was the last to have
      are free or r's. */
  ghost predicate Detaches(m: Mem, m': Mem, w: World, r: nat, lo: nat, hi: nat) {
    && m'.use.Keys == m.use.Keys
    && forall p {:trigger Mine(m', p, r)} :: p in m.use ==>
         if m.use[p].Shared? && lo <= m.use[p].seg < hi && LastOne(w, r, m.use[p].seg) then Mine(m', p, r)
         else (Mine(m, p, r) <==> Mine(m', p, r)) && (Mine(m, p, r) || Untouched(m, m', p))
  }

  lemma DetachesNothing(m: Mem, w: World, r: nat)
    ensures Detaches(m, m, w, r, 0, 0)
  {
  }

  lemma DetachesSkip(m: Mem, m': Mem, w: World, r: nat, i: nat)
    requires Detaches(m, m', w, r, 0, i) && !LastOne(w, r, i)
    ensures Detaches(m, m', w, r, 0, i + 1)
  {
  }

  lemma DetachesTrans(m0: Mem, m: Mem, m': Mem, w0: World, w: World, r: nat, i: nat)
    requires Detaches(m0, m, w0, r, 0, i) && Detaches(m, m', w, r, i, i + 1) && LastOne(w, r, i) == LastOne(w0, r, i)
    ensures Detaches(m0, m', w0, r, 0, i + 1)
  {
    forall p | p in m0.use
      ensures if m0.use[p].Shared? && 0 <= m0.use[p].seg < i + 1 && LastOne(w0, r, m0.use[p].seg) then Mine(m', p, r)
              else (Mine(m0, p, r) <==> Mine(m', p, r)) && (Mine(m0, p, r) || Untouched(m0, m', p))
    {
      assert Mine(m, p, r) || !Mine(m, p, r);
      assert Mine(m', p, r) || !Mine(m', p, r);
    }
  }

  lemma DetachedMore(m: Mem, m': Mem, w: World, r: nat, id: nat)
    requires OnlyTouches(m, m', r) && id < |w.segs| && w.segs[id].refcount != 1
    ensures Detaches(m, m', w, r, id, id + 1)
  {
  }

  lemma DetachedLast(m: Mem, m1: Mem, m2: Mem, w: World, r: nat, id: nat)
    requires OnlyTouches(m, m1, r) && LastOne(w, r, id) && Gave(m1.use, m2.use, w.segs[id].pa) && m2.tables == m1.tables
    requires forall p :: p in m1.use && m1.use[p].Shared? && m1.use[p].seg == id <==> p in w.segs[id].pa
    ensures Detaches(m, m2, w, r, id, id + 1)
  {
    forall p | p in m.use
      ensures if m.use[p].Shared? && id <= m.use[p].seg < id + 1 && LastOne(w, r, m.use[p].seg) then Mine(m2, p, r)
              else (Mine(m, p, r) <==> Mine(m2, p, r)) && (Mine(m, p, r) || Untouched(m, m2, p))
    {
      assert Mine(m, p, r) || Untouched(m, m1, p);
      assert Mine(m, p, r) <==> Mine(m1, p, r);
      LentBefore(m, m1, r, p);
    }
  }

  lemma SegmentPages(m: Mem, w: World, id: nat)
    requires Inv(m, w) && id < MAX_SHM
    ensures forall p :: p in w.segs[id].pa <==> p in m.use && m.use[p].Shared? && m.use[p].seg == id
  {
    hide Tables, Counts;
    assert |w.segs| == MAX_SHM by { assert Tables(m, w); InvGood(m, w); }
    forall p ensures p in w.segs[id].pa <==> p in m.use && m.use[p].Shared? && m.use[p].seg == id {
      if p in w.segs[id].pa {
        var j :| 0 <= j < |w.segs[id].pa| && w.segs[id].pa[j] == p;
        assert SegPage(m, w.segs, id, j);
      }
      if p in m.use && m.use[p].Shared? {
        assert KnownPage(m, w, p);
      }
    }
  }

  lemma RelentBack(list: seq<nat>, u: map<nat, Use>, pages: seq<nat>)
    requires FreeOnce(list, u, {}, {}) && forall p :: p in pages ==> p in u && u[p].Shared?
    ensures FreeOnce(list, BackToKernel(u, pages), {}, {})
  {
  }

  lemma GaveAll(u0: map<nat, Use>, u: map<nat, Use>, pages: seq<nat>)
    requires Gave(BackToKernel(u0, pages), u, pages)
    ensures Gave(u0, u, pages)
  {
  }

  lemma CountedAt(m: Mem, w: World, id: nat)
    requires Inv(m, w) && id < MAX_SHM
    ensures Shaped(w) && w.segs[id].refcount == |Holders(w, id)|
  {
    assert Counted(w, id);
  }

  lemma TrapframeOf(m: Mem, w: World, r: nat)
    requires Inv(m, w) && r in w.procs
    ensures w.procs[r].trapframe in m.use && m.use[w.procs[r].trapframe] == Trapframe(r)
    ensures forall p :: p in m.use && m.use[p] == Trapframe(r) ==> p == w.procs[r].trapframe
  {
    assert TrapPage(m, w.procs, r);
    forall p | p in m.use && m.use[p] == Trapframe(r) ensures p == w.procs[r].trapframe {
      assert KnownPage(m, w, p);
    }
  }

  lemma Settled(list: seq<nat>, u: map<nat, Use>, p: nat)
    requires FreeOnce(list, u, {p}, {})
    ensures p in u && FreeOnce(list, u[p := Free], {}, {})
  {
  }

  lemma LeftElsewhere(m1: Mem, m2: Mem, m3: Mem, r: nat)
    requires Gone(m1, m2, r) && SameMaps(m2, m3) && IsRoot(m1, r) && Good(m1)
    ensures Elsewhere(m1, m3, r)
  {
    hide Good, Lookup, OnlyTouches, Elsewhere, SameMaps;
    GoneTouches(m1, m2, r);
    GoneGood(m1, m2, r);
    TouchesElsewhere(m1, m2, r);
    SameMapsElsewhere(m2, m3, r);
    ElsewhereTrans(m1, m2, m3, r);
  }

  /** Exactly the pages of process r, its trapframe and the pages of segments it was the last to
      have attached are free; nothing else has changed. */
  ghost predicate Leaves(m: Mem, m': Mem, w: World, r: nat) {
    && m'.use.Keys == m.use.Keys
    && forall p :: p in m.use ==>
         if Mine(m, p, r) || m.use[p] == Trapframe(r) || (m.use[p].Shared? && LastOne(w, r, m.use[p].seg))
         then m'.use[p].Free?
         else Untouched(m, m', p)
  }

  lemma LeavesFrom(m0: Mem, m1: Mem, m2: Mem, w: World, r: nat)
    requires Detaches(m0, m1, w, r, 0, MAX_SHM) && Gone(m1, m2, r) && r in w.procs && |w.segs| == MAX_SHM
    requires w.procs[r].trapframe in m0.use && m0.use[w.procs[r].trapframe] == Trapframe(r)
    requires forall p :: p in m0.use && m0.use[p] == Trapframe(r) ==> p == w.procs[r].trapframe
    ensures Leaves(m0, Use1(m2, w.procs[r].trapframe, Free), w, r)
  {
    var m3 := Use1(m2, w.procs[r].trapframe, Free);
    forall p | p in m0.use
      ensures if Mine(m0, p, r) || m0.use[p] == Trapframe(r) || (m0.use[p].Shared? && LastOne(w, r, m0.use[p].seg))
              then m3.use[p].Free?
              else Untouched(m0, m3, p)
    {
      assert Mine(m1, p, r) || !Mine(m1, p, r);
      assert p in m1.use;
    }
  }

  lemma NoneReleased(w: World, r: nat, segs: seq<Seg>)
    requires Shaped(w) && r in w.procs && Attached(w, r) == {} && |segs| == MAX_SHM
    requires forall id :: 0 <= id < MAX_SHM ==> segs[id] == Released(w.segs[id], w.procs[r].shmVa[id] != 0)
    ensures segs == w.segs
  {
    forall id | 0 <= id < MAX_SHM ensures segs[id] == w.segs[id] {
      assert id !in Attached(w, r);
    }
  }

  /** A child made, and freed again before it had anything, leaves no trace. */
  lemma ForkUndone(m0: Mem, m1: Mem, m2: Mem, m3: Mem, w: World, c: nat, tf: nat)
    requires Born(m0, m1, c, tf) && Changes(m1, m2, c) && Leaves(m2, m3, w, c) && Attached(w, c) == {} && Good(m3)
    requires forall p :: p in m0.use ==> m0.use[p] != Trapframe(c)
    ensures m3 == m0
  {
    hide Good, Leaves, OnlyTouches;
    TouchesTrans(Use1(m0, tf, Trapframe(c)), m1, m2, c);
    forall p | p in m0.use
      ensures p in m3.use && m3.use[p] == m0.use[p] && (!m0.use[p].Free? ==> Untouched(m0, m3, p))
    {
      ChildPage(m0, m1, m2, c, tf, p);
      UndonePage(m0, m2, m3, w, c, tf, p);
    }
    LeavesKeys(m2, m3, w, c);
    TouchesKeys(Use1(m0, tf, Trapframe(c)), m2, c);
    assert tf in m0.use;
    assert m3.use == m0.use;
    SameMem(m0, m3);
  }

  lemma TouchesKeys(m: Mem, m': Mem, r: nat)
    requires OnlyTouches(m, m', r)
    ensures m'.use.Keys == m.use.Keys
  {
  }

  lemma LeavesKeys(m: Mem, m': Mem, w: World, r: nat)
    requires Leaves(m, m', w, r)
    ensures m'.use.Keys == m.use.Keys
  {
  }

  lemma SameMem(m: Mem, m': Mem)
    requires Good(m) && Good(m') && m'.use == m.use && forall p :: p in m.use && !m.use[p].Free? ==> Untouched(m, m', p)
    ensures m' == m
  {
    hide EntryRight, HeldRight;
    assert m'.tables.Keys == m.tables.Keys;
    assert m'.tables == m.tables;
  }

  lemma UndonePage(m0: Mem, m2: Mem, m3: Mem, w: World, c: nat, tf: nat, p: nat)
    requires Leaves(m2, m3, w, c) && Attached(w, c) == {} && p in m0.use && p in m2.use && m0.use[p] != Trapframe(c)
    requires if m0.use[p].Free? then Mine(m2, p, c) || m2.use[p] == Trapframe(c)
             else !Mine(m2, p, c) && Untouched(m0, m2, p)
    ensures p in m3.use && m3.use[p] == m0.use[p] && (!m0.use[p].Free? ==> Untouched(m0, m3, p))
  {
    if m2.use[p].Shared? {
      assert m2.use[p].seg !in Attached(w, c);
    }
  }

  lemma ChildPage(m0: Mem, m1: Mem, m2: Mem, c: nat, tf: nat, p: nat)
    requires Born(m0, m1, c, tf) && OnlyTouches(Use1(m0, tf, Trapframe(c)), m2, c) && p in m0.use
    ensures p in m2.use && (p == tf ==> m2.use[p] == Trapframe(c) && p !in m2.tables && p !in m0.tables)
    ensures m0.use[p].Free? && p != tf ==> Mine(m2, p, c) && p !in m0.tables
    ensures !m0.use[p].Free? ==> !Mine(m2, p, c) && Untouched(m0, m2, p)
  {
    var x := Use1(m0, tf, Trapframe(c));
    assert p in x.use;
    if IsHeld(m0.use[p]) {
      RootExists(m0, p);
    }
    assert Mine(x, p, c) <==> Mine(m2, p, c);
    assert Mine(x, p, c) || Untouched(x, m2, p);
  }

  lemma NoTrapframe(m: Mem, w: World, c: nat)
    requires Inv(m, w) && c !in w.procs
    ensures forall p :: p in m.use ==> m.use[p] != Trapframe(c)
  {
    forall p | p in m.use ensures m.use[p] != Trapframe(c) {
      assert KnownPage(m, w, p);
    }
  }

  lemma ForkData(m0: Mem, m1: Mem, m2: Mem, c: nat, tf: nat, d0: Data, d1: Data, d2: Data, d3: Data)
    requires Born(m0, m1, c, tf) && Changes(m1, m2, c)
    requires InUseKept(m0.use, d0, d1) && DataKept(m1.use, d1, m2.use, d2) && DataKept(m2.use, d2, m0.use, d3)
    ensures DataKept(m0.use, d0, m0.use, d3)
  {
    hide Good;
    TouchesTrans(Use1(m0, tf, Trapframe(c)), m1, m2, c);
    forall p | p in m0.use && !m0.use[p].Free? ensures d3(p) == d0(p) {
      ChildPage(m0, m1, m1, c, tf, p);
      ChildPage(m0, m1, m2, c, tf, p);
    }
  }

  lemma CopiedChanges(m: Mem, d: Data, m': Mem, d': Data, r: nat, child: nat, n: nat)
    requires Copied(m, d, m', d', r, child, n)
    ensures Changes(m, m', child)
  {
  }

  lemma BornElsewhere(m0: Mem, m1: Mem, c: nat, tf: nat)
    requires Born(m0, m1, c, tf)
    ensures Elsewhere(m0, m1, c)
  {
    var x := Use1(m0, tf, Trapframe(c));
    hide Good, Lookup, OnlyTouches, SameMaps, Elsewhere;
    RelabelledMaps(m0, x);
    SameMapsElsewhere(m0, x, c);
    SameMapsGood(m0, x);
    TouchesElsewhere(x, m1, c);
    ElsewhereTrans(m0, x, m1, c);
  }

  lemma SameMapsGood(m: Mem, m': Mem)
    requires SameMaps(m, m')
    ensures Good(m) && Good(m')
  {
  }

  lemma ForkKept(m0: Mem, m1: Mem, m2: Mem, d0: Data, d1: Data, d2: Data, c: nat, tf: nat)
    requires Born(m0, m1, c, tf) && Changes(m1, m2, c)
    requires InUseKept(m0.use, d0, d1) && DataKept(m1.use, d1, m2.use, d2)
    ensures Elsewhere(m0, m2, c) && Keeps(m0, m2) && DataKept(m0.use, d0, m2.use, d2) && IsRoot(m2, c)
  {
    hide Good, Lookup, Elsewhere;
    BornElsewhere(m0, m1, c, tf);
    TouchesElsewhere(m1, m2, c);
    ElsewhereTrans(m0, m1, m2, c);
    TouchesTrans(Use1(m0, tf, Trapframe(c)), m1, m2, c);
    forall p | p in m0.use && !m0.use[p].Free? ensures p in m2.use && m2.use[p] == m0.use[p] && d2(p) == d0(p) {
      ChildPage(m0, m1, m1, c, tf, p);
      ChildPage(m0, m1, m2, c, tf, p);
    }
  }

  /** The first n pages of c hold what those of r held. */
  ghost predicate AllCopied(m0: Mem, d0: Data, m: Mem, d: Data, r: nat, c: nat, n: nat) {
    && Good(m0) && IsRoot(m0, r) && Good(m) && IsRoot(m, c)
    && forall v: nat {:trigger CopiedPage(m0, d0, m, d, r, c, v)} :: v < n ==> CopiedPage(m0, d0, m, d, r, c, v)
  }

  lemma ForkCopied(m0: Mem, m1: Mem, m2: Mem, d0: Data, d1: Data, d2: Data, r: nat, c: nat, tf: nat, n: nat)
    requires Born(m0, m1, c, tf) && Copied(m1, d1, m2, d2, r, c, n) && IsRoot(m0, r) && r != c
    requires InUseKept(m0.use, d0, d1)
    ensures AllCopied(m0, d0, m2, d2, r, c, n)
  {
    hide Good, Lookup, OnlyTouches, Keeps;
    BornElsewhere(m0, m1, c, tf);
    forall v: nat | v < n ensures CopiedPage(m0, d0, m2, d2, r, c, v) {
      assert CopiedPage(m1, d1, m2, d2, r, c, v);
      if Lookup(m0, r, v).Some? {
        LookupUse(m0, r, v);
      }
    }
  }

  lemma Trapframes(m0: Mem, m1: Mem, w: World, r: nat, c: nat, tf: nat)
    requires Inv(m0, w) && r in w.procs && Born(m0, m1, c, tf)
    ensures tf in m0.use && m0.use[tf].Free? && w.procs[r].trapframe in m0.use && !m0.use[w.procs[r].trapframe].Free?
  {
    hide Inv;
    TrapframeOf(m0, w, r);
  }

  /** Writing a trapframe changes no page of an address space. */
  lemma NotATrapframe(m0: Mem, d0: Data, m: Mem, d: Data, d': Data, r: nat, c: nat, tf: nat, n: nat)
    requires AllCopied(m0, d0, m, d, r, c, n) && tf in m.use && m.use[tf].Trapframe?
    requires forall p: nat :: p != tf ==> d'(p) == d(p)
    ensures AllCopied(m0, d0, m, d', r, c, n)
  {
    hide Good, Lookup;
    forall v: nat | v < n ensures CopiedPage(m0, d0, m, d', r, c, v) {
      assert CopiedPage(m0, d0, m, d, r, c, v);
      if Lookup(m, c, v).Some? {
        LookupUse(m, c, v);
      }
    }
  }

  lemma MapsRoot(m: Mem, m': Mem, r: nat, v: nat, n: nat, q: nat)
    requires MapsRange(m, m', r, v, n, q, SHARED, false)
    ensures IsRoot(m', r) && Good(m')
  {
  }

  /** Mapping and unmapping again writes no page that is in use. */
  lemma UndoneData(u: map<nat, Use>, l0: seq<nat>, d0: Data, l1: seq<nat>, d1: Data, l2: seq<nat>, d2: Data)
    requires TookOnly(l0, d0, l1, d1) && GaveOnly(l1, d1, l2, d2)
    requires l2 == l1 && forall p :: p in l0 ==> p in u && u[p].Free?
    ensures InUseKept(u, d0, d2)
  {
  }

  lemma KeepsRefl(m: Mem)
    ensures Keeps(m, m)
  {
  }

  lemma OneKey(m: Mem, w: World, i: nat)
    requires Inv(m, w) && i < MAX_SHM && w.segs[i].used
    ensures forall j :: 0 <= j < MAX_SHM && w.segs[j].used && w.segs[j].key == w.segs[i].key ==> j == i
  {
    hide Tables, Named, Known;
  }

  lemma TakenKernel(kernel: set<nat>, pages: seq<nat>, trampoline: nat)
    requires trampoline in kernel && forall p :: p in pages ==> p !in kernel
    ensures forall p :: p in pages ==> p in kernel + Elements(pages) && p != trampoline
    ensures kernel + Elements(pages) - Elements(pages) == kernel
  {
  }

  lemma RelentAll(list: seq<nat>, u: map<nat, Use>, kernel: set<nat>, id: nat, pages: seq<nat>, m: Mem, w: World)
    requires FreeOnce(list, u, {}, {}) && u == m.use && Inv(m, w) && w.kernel == kernel && forall p :: p in pages ==>
      p in kernel
    ensures FreeOnce(list, Labelled(u, id, pages), {}, {})
  {
  }

  lemma TookKeeps(u0: map<nat, Use>, u1: map<nat, Use>, u2: map<nat, Use>, id: nat, pages: seq<nat>, m: Mem, m': Mem)
    requires Took(u0, u1, pages) && u2 == Labelled(u1, id, pages) && m.use == u0 && m'.use == u2
    ensures Keeps(m, m')
  {
  }

  /** MayShrink can fail.  Two processes attach a segment; one of them claims all memory below the
      trapframe lazily and shrinks: a page is on the free list that the other process maps. */
  method FreedWhileMapped() returns (k: Processes, c: nat, q: nat, v: nat)
    ensures fresh(k) && k.vm.Valid({}) && q in k.vm.freelist && IsRoot(k.vm.View(), c)
    ensures Lookup(k.vm.View(), c, v) == Some(Mapping(q, SHARED, false))
  {
    hide Good, Lookup, Inv, Pages, FreeOnce, StillMapped, LentIn, LentAt, MayShrink, OnlyTouches, Clears;
    var r, id;
    k, r, c, id := AttachedProcesses();
    ghost var attached := k.procs[r].shmVa;
    while k.procs[r].sz < TRAPFRAME * 4096
      invariant k.Valid() && r in k.procs && k.procs[r].sz <= TRAPFRAME * 4096 && |k.segs| == MAX_SHM
      invariant k.segs[id].used && k.procs[r].shmVa == attached && fresh(k.vm) && fresh(k)
      invariant c in k.procs && c != r && |k.procs[c].shmVa| == MAX_SHM && k.procs[c].shmVa[id] != 0
      decreases TRAPFRAME * 4096 - k.procs[r].sz
    {
      var left := TRAPFRAME * 4096 - k.procs[r].sz;
      var ok := k.SbrkLazy(r, if left < 0x7fff_f000 then left else 0x7fff_f000);
    }
    PagesThere(k.vm.View(), k.State(), id);
    q, v := k.segs[id].pa[0], Region(id);
    ghost var m, w := k.vm.View(), k.State();
    SegmentBelow(m, w, r, id);
    var ok, panicked := k.Growproc(r, -((TRAPFRAME - Region(id)) * 4096));
    LentKept(m, k.vm.View(), r, q);
    MappedByOther(k.vm.View(), w, r, c, q, id);
  }

  /** A process whose size reaches the trapframe shrinks over segment id, which it has attached. */
  lemma SegmentBelow(m: Mem, w: World, r: nat, id: nat)
    requires Inv(m, w) && r in w.procs && w.procs[r].sz == TRAPFRAME * 4096 && id < MAX_SHM && |w.segs[id].pa| > 0
    requires |w.procs[r].shmVa| == MAX_SHM && w.procs[r].shmVa[id] != 0
    ensures Good(m) && IsRoot(m, r) && !MayShrink(w.segs, w.procs[r], -((TRAPFRAME - Region(id)) * 4096))
    ensures Pages(TRAPFRAME * 4096) == TRAPFRAME && Pages(Region(id) * 4096) == Region(id)
    ensures w.segs[id].pa[0] in LentIn(m, r, Region(id), TRAPFRAME - Region(id))
    ensures w.segs[id].pa[0] in m.use && m.use[w.segs[id].pa[0]] == Shared(id, 0)
  {
    hide Good, Lookup, Inv, Pages, LentAt;
    WholePages(Region(id));
    WholePages(TRAPFRAME);
    SlotAt(0, id, 0);
    assert HasSegment(w.segs, w.procs[r], Region(id)) by { InvShaped(m, w); }
    LentBelow(m, w, r, Region(id));
  }

  lemma InvShaped(m: Mem, w: World)
    requires Inv(m, w)
    ensures |w.segs| == MAX_SHM
  {
  }

  lemma MappedByOther(m: Mem, w: World, r: nat, c: nat, q: nat, id: nat)
    requires StillMapped(m, w, r, q) && c in w.procs && c != r && id < MAX_SHM && m.use[q] == Shared(id, 0)
    requires |w.procs[c].shmVa| == MAX_SHM && w.procs[c].shmVa[id] != 0
    ensures IsRoot(m, c) && Lookup(m, c, Region(id)) == Some(Mapping(q, SHARED, false))
  {
    hide Good, Lookup;
  }

  /** Two processes attached to a segment of one page. */
  method AttachedProcesses() returns (k: Processes, r: nat, c: nat, id: nat)
    ensures fresh(k) && fresh(k.vm) && k.Valid() && r in k.procs && id < MAX_SHM == |k.segs| == |k.procs[r].shmVa|
    ensures k.segs[id].used && k.procs[r].shmVa[id] != 0 && k.procs[r].sz == 0
    ensures c in k.procs && c != r && |k.procs[c].shmVa| == MAX_SHM && k.procs[c].shmVa[id] != 0
  {
    hide Good, Lookup, Inv, SameMaps, InUseKept, Born, Keeps, OnlyTouches, Mapped, ZeroPage, FreeOnce, Pages, Clears;
    k, r, c := NewProcesses();
    assert k.segs[0] == NO_SEG;
    var got := k.Shmget(1, 4096);
    id := got;
    PagesThere(k.vm.View(), k.State(), id);
    AttachFirst(k, r, id);
    AttachFirst(k, c, id);
  }

  method NewProcesses() returns (k: Processes, r: nat, c: nat)
    ensures fresh(k) && fresh(k.vm) && k.Valid() && r in k.procs && c in k.procs && c != r && |k.vm.freelist| >= 80
    ensures k.procs[r] == NewProc(k.procs[r].trapframe) && k.procs[c] == NewProc(k.procs[c].trapframe)
    ensures k.segs == seq(MAX_SHM, _ => NO_SEG)
  {
    hide Good, Lookup, Inv, InUseKept, Born, OnlyTouches, FreeOnce;
    k := new Processes(1, 101, 0);
    var made := k.Allocproc();
    r := made.value;
    made := k.Allocproc();
    c := made.value;
  }

  /** A new process attaches a segment. */
  method AttachFirst(k: Processes, r: nat, id: nat)
    requires k.Valid() && r in k.procs && k.procs[r] == NewProc(k.procs[r].trapframe) && id < MAX_SHM == |k.segs|
    requires k.segs[id].used
    requires |k.segs[id].pa| <= 1 && |k.vm.freelist| >= ROOT_LEVEL
    modifies k, k.vm
    ensures k.Valid() && k.State() == SetAttached(old(k.State()), r, id, Region(id))
    ensures |k.vm.freelist| >= |old(k.vm.freelist)| - ROOT_LEVEL
  {
    hide Good, Lookup, Inv, InUseKept, OnlyTouches, Mapped, FreeOnce, Pages, Clears;
    ChildEmpty(k.State(), r, k.procs[r].trapframe);
    NoneAttached(k.vm.View(), k.State(), r, id);
    RegionOf(k.vm.View(), k.State(), r, id);
    var va, panicked := k.Shmat(r, id);
  }

  lemma WholePages(n: nat)
    ensures Pages(n * 4096) == n
  {
  }

  lemma PagesThere(m: Mem, w: World, id: nat)
    requires Inv(m, w) && id < MAX_SHM && w.segs[id].used
    ensures 0 < |w.segs[id].pa| == w.segs[id].npages
  {
    assert Counted(w, id);
  }

  lemma NoneAttached(m: Mem, w: World, r: nat, id: nat)
    requires Inv(m, w) && r in w.procs && Attached(w, r) == {} && w.procs[r].sz == 0 && id < MAX_SHM
    ensures Good(m) && IsRoot(m, r) && |w.segs[id].pa| <= MAX_SHM_PG
    ensures forall v :: Region(id) <= v < Region(id) + MAX_SHM_PG ==> Lookup(m, r, v).None?
  {
    hide Good, Lookup, Inv;
    PagesBound(0);
    RegionOf(m, w, r, id);
    forall v | Region(id) <= v < Region(id) + MAX_SHM_PG ensures Lookup(m, r, v).None? {
      SlotAt(v, id, 0);
      MappedAbove(m, w, r, v);
      assert Slot(v).0 !in Attached(w, r);
    }
  }

  /** Shrinking frees the pages it unmaps, so none of them may be a segment's. */
  ghost predicate MayShrink(segs: seq<Seg>, p: Proc, n: int) {
    n < 0 && p.sz + n >= 0 ==> NoSegmentIn(segs, p, Pages(p.sz + n), Pages(p.sz))
  }

  lemma SpaceOf(m: Mem, w: World, r: nat)
    requires Inv(m, w) && r in w.procs
    ensures SpaceRight(m, w.segs, w.trampoline, r, w.procs[r]) && Good(m) && IsRoot(m, r) && ProcShaped(w.procs[r])
    ensures Pages(w.procs[r].sz) <= TRAPFRAME && w.procs[r].sz <= TRAPFRAME * 4096
  {
    hide SpaceRight;
    PagesBound(w.procs[r].sz);
    assert ProcShaped(w.procs[r]);
  }

  lemma InTheWay(m: Mem, w: World, r: nat, sz: nat)
    requires Inv(m, w) && r in w.procs && sz <= TRAPFRAME * 4096 && Good(m) && IsRoot(m, r)
    requires exists v :: Pages(w.procs[r].sz) <= v < Pages(sz) && Lookup(m, r, v).Some?
    ensures !NoSegmentIn(w.segs, w.procs[r], Pages(w.procs[r].sz), Pages(sz))
  {
    hide Good, Lookup, Inv, Pages, HasSegment;
    PagesBound(sz);
    var v :| Pages(w.procs[r].sz) <= v < Pages(sz) && Lookup(m, r, v).Some?;
    MappedAbove(m, w, r, v);
  }

  lemma NothingInTheWay(m: Mem, w: World, r: nat, sz: nat)
    requires Inv(m, w) && r in w.procs && sz <= TRAPFRAME * 4096 && Good(m) && IsRoot(m, r)
    requires forall v :: Pages(w.procs[r].sz) <= v < Pages(sz) ==> Lookup(m, r, v).None?
    ensures NoSegmentIn(w.segs, w.procs[r], Pages(w.procs[r].sz), Pages(sz))
  {
    hide Good, Lookup, Inv, Pages, HasSegment;
    PagesBound(sz);
    forall v | Pages(w.procs[r].sz) <= v < Pages(sz) ensures !HasSegment(w.segs, w.procs[r], v) {
      MappedAbove(m, w, r, v);
    }
  }

  lemma ClearsChanges(m: Mem, m': Mem, r: nat, v: nat, n: nat)
    requires Clears(m, m', r, v, n)
    ensures Changes(m, m', r)
  {
  }

  lemma GrownChanges(m: Mem, m': Mem, r: nat, lo: nat, hi: nat)
    requires Grown(m, m', r, lo, hi, PTE_V + PTE_R + PTE_U + PTE_W)
    ensures Changes(m, m', r)
  {
  }

  lemma MapsChanges(m: Mem, m': Mem, r: nat, v: nat, n: nat, q: nat, flags: nat)
    requires MapsRange(m, m', r, v, n, q, flags, true)
    ensures Changes(m, m', r)
  {
  }

  lemma ShrinkRange(m: Mem, w: World, r: nat, n: int, newsz: nat)
    requires Inv(m, w) && r in w.procs && -0x8000_0000 <= n < 0 && Good(m) && IsRoot(m, r)
    requires newsz == (w.procs[r].sz + n) % 0x1_0000_0000_0000_0000 && w.procs[r].sz <= TRAPFRAME * 4096
    ensures newsz < w.procs[r].sz <==> w.procs[r].sz + n >= 0
    ensures newsz < w.procs[r].sz ==> newsz == w.procs[r].sz + n
    ensures Pages(w.procs[r].sz) <= MAXPAGES
    ensures var sz := w.procs[r].sz;
      var k := if newsz < sz then Pages(sz) - Pages(newsz) else 0;
      && LentOnce(m, r, Pages(newsz), k)
      && (LentIn(m, r, Pages(newsz), k) == {} <==> MayShrink(w.segs, w.procs[r], n))
      && LentIn(m, r, Pages(newsz), k) == LentIn(m, r, Pages(sz) - k, k)
      && (LentIn(m, r, Pages(newsz), k) == {} <==> NoSegmentIn(w.segs, w.procs[r], Pages(sz) - k, Pages(sz)))
  {
    hide Good, Lookup, Inv, HasSegment, LentOnce, LentIn;
    if w.procs[r].sz + n >= 0 {
      ShrinkLimit(m, w, r, Pages(newsz), Pages(w.procs[r].sz));
    } else {
      LentNowhere(m, r, Pages(newsz));
      LentNowhere(m, r, Pages(w.procs[r].sz));
    }
  }

  /** Page q, of a segment, is mapped by every other process that has the segment attached. */
  ghost predicate StillMapped(m: Mem, w: World, r: nat, q: nat) {
    && Good(m) && Shaped(w) && q in m.use && m.use[q].Shared? && m.use[q].seg < MAX_SHM
    && forall x :: x in w.procs && x != r && w.procs[x].shmVa[m.use[q].seg] != 0 ==>
         IsRoot(m, x) && Lookup(m, x, Region(m.use[q].seg) + m.use[q].page) == Some(Mapping(q, SHARED, false))
  }

  lemma LentStillMapped(m: Mem, m': Mem, w: World, r: nat, lo: nat, hi: nat, list: seq<nat>, early: set<nat>)
    requires Inv(m, w) && r in w.procs && lo <= hi <= Pages(w.procs[r].sz) && Changes(m, m', r)
    requires FreeOnce(list, m'.use, early, {}) && early == LentIn(m, r, lo, hi - lo)
    ensures forall q :: q in early ==> q in list && StillMapped(m', w, r, q)
  {
    hide Good, Lookup, OnlyTouches, Inv, Elsewhere;
    TouchesElsewhere(m, m', r);
    forall q | q in early ensures q in list && StillMapped(m', w, r, q) {
      LentSegment(m, w, r, lo, hi, q);
      LentKept(m, m', r, q);
      OthersMap(m, m', w, r, q);
    }
  }

  lemma OthersMap(m: Mem, m': Mem, w: World, r: nat, q: nat)
    requires Inv(m, w) && Elsewhere(m, m', r) && q in m.use && m.use[q].Shared?
    requires m.use[q].seg < MAX_SHM && m.use[q].page < |w.segs[m.use[q].seg].pa|
    requires w.segs[m.use[q].seg].pa[m.use[q].page] == q
    requires q in m'.use && m'.use[q] == m.use[q]
    ensures StillMapped(m', w, r, q)
  {
    hide Good, Lookup;
    var id, j := m.use[q].seg, m.use[q].page;
    forall x | x in w.procs && x != r && w.procs[x].shmVa[id] != 0
      ensures IsRoot(m', x) && Lookup(m', x, Region(id) + j) == Some(Mapping(q, SHARED, false))
    {
      SameView(m, w, x, x, id, j);
    }
  }

  /** The pages between two sizes are unmapped; those that were lent are freed too early. */
  ghost predicate Cut(m: Mem, m': Mem, r: nat, sz: nat, sz': nat, early: set<nat>) {
    && Pages(sz') <= Pages(sz) && Clears(m, m', r, Pages(sz'), Pages(sz) - Pages(sz'))
    && early == LentIn(m, r, Pages(sz'), Pages(sz) - Pages(sz'))
  }

  lemma CutNothing(m: Mem, r: nat, sz: nat)
    requires Good(m) && IsRoot(m, r)
    ensures Cut(m, m, r, sz, sz, {})
  {
    hide Good, Lookup, OnlyTouches;
    ClearsNothing(m, r, Pages(sz));
    LentNowhere(m, r, Pages(sz));
  }

  lemma Shrunk(m: Mem, m': Mem, r: nat, sz: nat, newsz: nat, size: nat)
    requires size == (if newsz >= sz then sz else newsz)
    requires Clears(m, m', r, Pages(newsz), if newsz < sz then Pages(sz) - Pages(newsz) else 0)
    ensures Clears(m, m', r, Pages(size), Pages(sz) - Pages(size)) && Changes(m, m', r)
  {
    hide Good, Lookup, OnlyTouches;
  }

  lemma InvNames(m: Mem, w: World)
    requires Inv(m, w)
    ensures forall p :: p in w.kernel ==> p in m.use && IsLent(m.use[p])
    ensures w.trampoline in w.kernel && Good(m)
  {
  }

  lemma Relent(list: seq<nat>, u: map<nat, Use>, p: nat, x: Use)
    requires FreeOnce(list, u, {}, {}) && p in u && IsLent(u[p]) && IsLent(x)
    ensures FreeOnce(list, u[p := x], {}, {})
  {
  }

  lemma KeptFreed(u: map<nat, Use>, d0: Data, l: seq<nat>, d: Data, l': seq<nat>, d': Data)
    requires InUseKept(u, d0, d) && GaveOnly(l, d, l', d') && forall q :: q in l' ==> q in u && u[q].Free?
    ensures InUseKept(u, d0, d')
  {
  }

  lemma TookInUseKept(u: map<nat, Use>, l0: seq<nat>, d0: Data, l: seq<nat>, d: Data)
    requires TookOnly(l0, d0, l, d) && forall p :: p in l0 ==> p in u && u[p].Free?
    ensures InUseKept(u, d0, d)
  {
  }

  lemma BornFrom(m0: Mem, m1: Mem, m2: Mem, r: nat, tf: nat)
    requires Good(m0) && tf in m0.use && m0.use[tf].Free? && m1 == Use1(m0, tf, Kernel)
    requires Good(m2) && !IsRoot(m1, r) && IsRoot(m2, r) && OnlyTouches(m1, m2, r) && Good(Use1(m2, tf, Trapframe(r)))
    ensures Born(m0, Use1(m2, tf, Trapframe(r)), r, tf)
  {
    hide Good;
    var x, y := Use1(m0, tf, Trapframe(r)), Use1(m2, tf, Trapframe(r));
    assert !Mine(m1, tf, r);
    assert Untouched(m1, m2, tf);
    forall p | p in x.use ensures (Mine(x, p, r) <==> Mine(y, p, r)) && (Mine(x, p, r) || Untouched(x, y, p)) {
      if p != tf {
        assert Mine(x, p, r) <==> Mine(m1, p, r);
        assert Mine(y, p, r) <==> Mine(m2, p, r);
        assert Mine(m1, p, r) || Untouched(m1, m2, p);
      }
    }
  }

  lemma FreshLent(m: Mem, m': Mem, r: nat, p: nat)
    requires Fresh(m, m', r) && p in m.use && IsLent(m.use[p])
    ensures p in m'.use && IsLent(m'.use[p]) && IsRoot(m', r) && Good(m')
    ensures forall v: nat :: Lookup(m', r, v).None?
  {
    hide Good, Lookup;
    assert !Mine(m, p, r);
    assert Untouched(m, m', p);
  }

  lemma RangeChanges(m: Mem, m': Mem, r: nat, v: nat, n: nat, q: nat, flags: nat, p: nat)
    requires MapsRange(m, m', r, v, n, q, flags, false) && p in m.use && IsLent(m.use[p])
    ensures Changes(m, m', r) && p in m'.use && IsLent(m'.use[p]) && IsRoot(m', r)
  {
    hide Good, Lookup, OnlyTouches;
    LentKept(m, m', r, p);
  }

  lemma FreshClear(m0: Mem, m: Mem, m': Mem, r: nat, v: nat, q: nat, flags: nat)
    requires Fresh(m0, m, r) && MapsRange(m, m', r, v, 0, q, flags, false)
    ensures Good(m') && IsRoot(m', r) && forall w: nat :: w < MAXPAGES ==> Lookup(m', r, w).None?
  {
    hide Good, Lookup, OnlyTouches;
  }

  lemma FreshOther(m0: Mem, m: Mem, m': Mem, r: nat, q: nat, flags: nat)
    requires Fresh(m0, m, r) && MapsRange(m, m', r, TRAMPOLINE, 1, q, flags, false)
    ensures Good(m') && IsRoot(m', r) && Lookup(m', r, TRAPFRAME).None?
  {
    hide Good, Lookup, OnlyTouches;
  }

  lemma FreshTrampoline(m2: Mem, m3: Mem, r: nat, m1: Mem, t: nat, tf: nat)
    requires MapsRange(m1, m2, r, TRAMPOLINE, 1, t, PTE_V + PTE_R + PTE_X, false)
    requires MapsRange(m2, m3, r, TRAPFRAME, 0, tf, PTE_V + PTE_R + PTE_W, false)
    ensures Good(m3) && IsRoot(m3, r) && Lookup(m3, r, TRAMPOLINE).Some? && !Lookup(m3, r, TRAMPOLINE).value.owned
  {
    hide Good, Lookup, OnlyTouches;
  }

  /** Detached from everything, a process has only trampoline and trapframe above its size. */
  lemma BareSpace(m: Mem, w: World, r: nat)
    requires Inv(m, w) && r in w.procs && Attached(w, r) == {}
    ensures Good(m) && IsRoot(m, r) && Pages(w.procs[r].sz) <= TRAPFRAME
    ensures forall v: nat :: v < MAXPAGES && Lookup(m, r, v).Some? ==>
      if v == TRAMPOLINE || v == TRAPFRAME then !Lookup(m, r, v).value.owned
      else v < Pages(w.procs[r].sz) && Lookup(m, r, v).value.owned
  {
    hide Good, Lookup;
    var p := w.procs[r];
    PagesBound(p.sz);
    assert ProcShaped(p) && SpaceRight(m, w.segs, w.trampoline, r, p);
    forall v: nat | v < MAXPAGES && Lookup(m, r, v).Some?
      ensures if v == TRAMPOLINE || v == TRAPFRAME then !Lookup(m, r, v).value.owned
              else v < Pages(p.sz) && Lookup(m, r, v).value.owned
    {
      SlotAt(v, 0, 0);
      assert PageRight(m, w.segs, w.trampoline, r, p, v);
      if Region(MAX_SHM - 1) <= v < TRAPFRAME {
        assert Slot(v).0 !in Attached(w, r);
      }
    }
  }

  lemma GoneFrom(m: Mem, m1: Mem, m2: Mem, r: nat)
    requires Changes(m, m1, r) && Gone(m1, m2, r)
    ensures Gone(m, m2, r)
  {
    forall p | p in m.use ensures if Mine(m, p, r) then m2.use[p].Free? else Untouched(m, m2, p) {
      assert Mine(m, p, r) <==> Mine(m1, p, r);
      assert Mine(m, p, r) || Untouched(m, m1, p);
    }
  }

  lemma FirstInv(end: nat, top: nat, trampoline: nat)
    requires trampoline < end <= top
    ensures Inv(Mem(map[], FirstUse(end, top)), World(map[], seq(MAX_SHM, _ => NO_SEG), Range(0, end), trampoline))
  {
    FirstPages(end, top);
    var m, w := Mem(map[], FirstUse(end, top)), World(map[], seq(MAX_SHM, _ => NO_SEG), Range(0, end), trampoline);
    forall id | 0 <= id < MAX_SHM ensures Counted(w, id) {
      assert Holders(w, id) == {};
    }
    forall p | p in m.use ensures KnownPage(m, w, p) {
    }
  }

  lemma InHand(list: seq<nat>, u: map<nat, Use>, p: nat)
    requires FreeOnce(list, u, {}, {}) && p in u && u[p].Kernel?
    ensures FreeOnce(list, u[p := Free], {}, {p})
  {
  }

  lemma GaveNothing(u: map<nat, Use>, pages: seq<nat>, kernel: set<nat>, list: seq<nat>)
    ensures Gave(u, u, pages[..0]) && Reversed(pages[..0]) + list == list && kernel - Elements(pages[..0]) == kernel
  {
  }

  lemma TookNothing(u: map<nat, Use>, kernel: set<nat>)
    ensures Took(u, u, []) && kernel + Elements([]) == kernel
  {
  }

  lemma NotYet(pages: seq<nat>, k: nat)
    requires Distinct(pages) && k < |pages|
    ensures pages[k] !in Elements(pages[..k])
  {
  }

  lemma OldKernel(kernel: set<nat>, pages: seq<nat>, q: nat)
    ensures kernel + Elements(pages) + {q} == kernel + Elements(pages + [q])
  {
  }

  lemma KeptTaken(u: map<nat, Use>, d0: Data, d: Data, l: seq<nat>, l': seq<nat>, d': Data, u': map<nat, Use>)
    requires InUseKept(u, d0, d) && GaveOnly(l, d, l', d') && u' == u && FreeOnce(l', u', {}, {})
    ensures InUseKept(u, d0, d')
  {
  }
}
