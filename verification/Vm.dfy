/** kernel/vm.c and kernel/kalloc.c: page-table pages and user frames taken from and returned
    to the free list, with entries written in place.

    Addresses are page numbers.  Between kalloc and the moment a page is put to use (and between
    losing its use and kfree) the running code holds it; `held` names those pages. */
module Vm {
  import opened Options
  import opened PageTable
  import opened Blocks
  import opened Sets

  type Page = p: seq<byte> | |p| == 4096 witness seq(4096, _ => 0)

  /** What every physical page holds. */
  type Data = nat -> Page

  /** A new page takes at most a frame and a table at each lower level. */
  const PAGE_COST: nat := 1 + ROOT_LEVEL

  function Junk(b: byte): Page { seq(4096, _ => b) }

  function ZeroPage(): (p: Page)
    ensures forall i :: 0 <= i < 4096 ==> p[i] == 0
  {
    seq(4096, _ => 0)
  }

  /** Page p is free or belongs to the address space of r. */
  ghost predicate Mine(m: Mem, p: nat, r: nat) {
    p in m.use && (m.use[p].Free? || ((IsTable(m.use[p]) || IsHeld(m.use[p])) && RootOf(m, p) == r))
  }

  ghost predicate Untouched(m: Mem, m': Mem, p: nat)
    requires p in m.use && p in m'.use
  {
    m'.use[p] == m.use[p] && (p in m.tables <==> p in m'.tables) && (p in m.tables ==> m'.tables[p] == m.tables[p])
  }

  /** Only the free pool and the address space of r have changed: pages move between the two,
      and everything that belongs to others is as it was. */
  ghost predicate OnlyTouches(m: Mem, m': Mem, r: nat) {
    && m'.use.Keys == m.use.Keys
    && (forall p :: p in m.use ==> (Mine(m, p, r) <==> Mine(m', p, r)))
    && (forall p :: p in m.use && !Mine(m, p, r) ==> Untouched(m, m', p))
  }

  lemma TouchesTrans(m: Mem, m1: Mem, m2: Mem, r: nat)
    requires OnlyTouches(m, m1, r) && OnlyTouches(m1, m2, r)
    ensures OnlyTouches(m, m2, r)
  {
    hide Mine;
  }

  /** Pages in use keep their use. */
  ghost predicate Keeps(m: Mem, m': Mem) {
    m'.use.Keys == m.use.Keys && forall p :: p in m.use && !m.use[p].Free? ==> m'.use[p] == m.use[p]
  }

  /** Other address spaces translate every page as before. */
  lemma {:induction false} OtherWalk(m: Mem, m': Mem, r: nat, p: nat, v: nat)
    requires Good(m) && Good(m') && OnlyTouches(m, m', r) && p in m.tables && RootOf(m, p) != r
    ensures p in m'.tables && Walk(m', p, v) == Walk(m, p, v)
    decreases Level(m.use[p])
  {
    assert !Mine(m, p, r);
    assert Untouched(m, m', p);
    var l := Level(m.use[p]);
    if l > 0 {
      assert EntryRight(m, p, Px(l, v));
      if Present(m.tables[p][Px(l, v)]) {
        OtherWalk(m, m', r, m.tables[p][Px(l, v)].ppn, v);
      }
    }
  }

  lemma OtherEntry(m: Mem, m': Mem, r: nat, r': nat, v: nat)
    requires Good(m) && Good(m') && OnlyTouches(m, m', r) && IsRoot(m, r') && r' != r
    ensures IsRoot(m', r') && Entry(m', r', v) == Entry(m, r', v)
  {
    OtherWalk(m, m', r, r', v);
    WalkTable(m, r', v);
    if Walk(m, r', v).Some? {
      var t := Walk(m, r', v).value;
      assert !Mine(m, t, r);
      assert Untouched(m, m', t);
    }
    assert !Mine(m, r', r);
    assert Untouched(m, m', r');
  }

  lemma OtherRoots(m: Mem, m': Mem, r: nat, r': nat)
    requires OnlyTouches(m, m', r) && r' != r
    ensures IsRoot(m, r') <==> IsRoot(m', r')
  {
    if r' in m.use {
      assert Mine(m, r', r) || Untouched(m, m', r');
      assert IsRoot(m, r') ==> !Mine(m, r', r);
      assert IsRoot(m', r') ==> !Mine(m', r', r);
    }
  }

  /** Pages have been taken off the list, and no other page has been written. */
  ghost predicate TookOnly(list: seq<nat>, d: Data, list': seq<nat>, d': Data) {
    (forall p :: p in list' ==> p in list) && forall p :: p !in list ==> d'(p) == d(p)
  }

  /** Pages have been put on the list, and no other page has been written. */
  ghost predicate GaveOnly(list: seq<nat>, d: Data, list': seq<nat>, d': Data) {
    (forall p :: p in list ==> p in list') && forall p :: p !in list' ==> d'(p) == d(p)
  }

  lemma TookTrans(l0: seq<nat>, d0: Data, l1: seq<nat>, d1: Data, l2: seq<nat>, d2: Data)
    requires TookOnly(l0, d0, l1, d1) && TookOnly(l1, d1, l2, d2)
    ensures TookOnly(l0, d0, l2, d2)
  {
  }

  lemma GaveTrans(l0: seq<nat>, d0: Data, l1: seq<nat>, d1: Data, l2: seq<nat>, d2: Data)
    requires GaveOnly(l0, d0, l1, d1) && GaveOnly(l1, d1, l2, d2)
    ensures GaveOnly(l0, d0, l2, d2)
  {
  }

  lemma NothingMoved(l: seq<nat>, d: Data)
    ensures TookOnly(l, d, l, d) && GaveOnly(l, d, l, d)
  {
  }

  lemma GaveOne(l: seq<nat>, d: Data, p: nat, d': Data)
    requires forall x: nat :: x != p ==> d'(x) == d(x)
    ensures GaveOnly(l, d, [p] + l, d')
  {
  }

  /** A page that stays in use keeps its contents. */
  ghost predicate DataKept(u: map<nat, Use>, d: Data, u': map<nat, Use>, d': Data) {
    forall p :: p in u && !u[p].Free? && p in u' && !u'[p].Free? ==> d'(p) == d(p)
  }

  /** Pages in use have not been written. */
  ghost predicate InUseKept(u: map<nat, Use>, d: Data, d': Data) {
    forall p :: p in u && !u[p].Free? ==> d'(p) == d(p)
  }

  lemma KeptFirst(u: map<nat, Use>, d: Data)
    ensures InUseKept(u, d, d) && DataKept(u, d, u, d)
  {
  }

  lemma InUseData(u: map<nat, Use>, d: Data, d': Data, p: nat)
    requires InUseKept(u, d, d') && p in u && !u[p].Free?
    ensures d'(p) == d(p)
  {
  }

  lemma KeptMore(u0: map<nat, Use>, d0: Data, u: map<nat, Use>, d: Data, d': Data)
    requires InUseKept(u0, d0, d) && InUseKept(u, d, d')
    requires u.Keys == u0.Keys && forall p :: p in u0 && !u0[p].Free? ==> u[p] == u0[p]
    ensures InUseKept(u0, d0, d')
  {
  }

  lemma KeptData(u: map<nat, Use>, d: Data, u': map<nat, Use>, d': Data)
    requires InUseKept(u, d, d')
    ensures DataKept(u, d, u', d')
  {
  }

  /** Writing a page that was free. */
  lemma KeptFresh(u: map<nat, Use>, d: Data, d1: Data, mem: nat, d2: Data)
    requires InUseKept(u, d, d1) && mem in u && u[mem].Free? && forall p: nat :: p != mem ==> d2(p) == d1(p)
    ensures InUseKept(u, d, d2)
  {
  }

  lemma TookInUse(u: map<nat, Use>, d: Data, l: seq<nat>, d1: Data, mem: nat, l': seq<nat>, d': Data)
    requires TookOnly(l, d1, l', d') && mem in u && u[mem].Free? && mem !in l
    requires (forall p :: p in l ==> p in u && u[p].Free?) && forall p: nat :: p != mem ==> d1(p) == d(p)
    ensures InUseKept(u, d, d') && d'(mem) == d1(mem)
  {
  }

  lemma KeptThenGiven(u0: map<nat, Use>, d0: Data, l1: seq<nat>, d1: Data, u: map<nat, Use>, l: seq<nat>, d: Data)
    requires InUseKept(u0, d0, d1) && GaveOnly(l1, d1, l, d) && forall p :: p in l ==> p in u && u[p].Free?
    ensures DataKept(u0, d0, u, d)
  {
  }

  /** The list holds each free page once, and the early ones, except those in `held`. */
  ghost predicate FreeOnce(list: seq<nat>, u: map<nat, Use>, early: set<nat>, held: set<nat>) {
    && (forall i, j :: 0 <= i < j < |list| ==> list[i] != list[j])
    && (forall p :: p in list <==> p !in held && (p in early || (p in u && u[p].Free?)))
    && (forall p :: p in early ==> p in u && IsLent(u[p]))
    && (forall p :: p in held ==> p in u && (p in early || u[p].Free?))
  }

  /** A page in hand is put to use. */
  lemma PutToUse(list: seq<nat>, u: map<nat, Use>, early: set<nat>, held: set<nat>, q: nat, x: Use)
    requires FreeOnce(list, u, early, held) && q in held && q !in early && !x.Free?
    ensures FreeOnce(list, u[q := x], early, held - {q})
  {
  }

  /** A page loses its use and is in hand. */
  lemma OutOfUse(list: seq<nat>, u: map<nat, Use>, early: set<nat>, held: set<nat>, q: nat)
    requires FreeOnce(list, u, early, held) && q in u && !u[q].Free? && !IsLent(u[q])
    ensures FreeOnce(list, u[q := Free], early, held + {q}) && q !in held
  {
  }

  /** A page that is lent, and will go on being mapped, is in hand to be freed. */
  lemma TooEarly(list: seq<nat>, u: map<nat, Use>, early: set<nat>, held: set<nat>, q: nat)
    requires FreeOnce(list, u, early, held) && q in u && IsLent(u[q]) && q !in early
    ensures FreeOnce(list, u, early + {q}, held + {q}) && q !in held
  {
  }

  lemma OnTheList(list: seq<nat>, u: map<nat, Use>, early: set<nat>, held: set<nat>, q: nat)
    requires FreeOnce(list, u, early, held) && early == {}
    ensures q in held ==> q !in list && q in u && u[q].Free?
    ensures forall p :: p in list ==> p in u && u[p].Free?
  {
  }

  class Vm {
    var tables: map<nat, seq<Pte>>
    var freelist: seq<nat>
    var data: Data            // contents of pages
    ghost var use: map<nat, Use>
    ghost var early: set<nat>        // pages given to kfree while an address space maps them

    ghost function View(): Mem
      reads this
    {
      Mem(tables, use)
    }

    ghost predicate Pool(held: set<nat>)
      reads `freelist, `use, `early
    {
      FreeOnce(freelist, use, early, held)
    }

    ghost predicate Valid(held: set<nat>)
      reads this
    {
      Good(View()) && Pool(held)
    }

    /** kinit: pages below `end` are the kernel's, the others are freed. */
    constructor (end: nat, top: nat)
      requires end <= top
      ensures Valid({}) && tables == map[] && use == FirstUse(end, top) && early == {} && |freelist| == top - end
    {
      hide Good, FirstUse, Range;
      tables, freelist, data := map[], [], (_: nat) => ZeroPage();
      use, early := FirstUse(end, top), {};
      new;
      FirstPages(end, top);
      Freerange(end, top);
      assert Elements(freelist) == Range(end, top);
      SeqSize(freelist);
    }

    /** freerange: one page after another freed. */
    method Freerange(start: nat, top: nat)
      requires start <= top && Pool(Range(start, top))
      modifies `freelist, `data
      ensures Pool({})
    {
      hide Range, Pool;
      var p := start;
      while p < top
        invariant start <= p <= top && Pool(Range(p, top))
      {
        RangeFirst(p, top);
        Kfree(p, Range(p, top));
        p := p + 1;
      }
      RangeFirst(top, top);
    }

    /** A page off the list, filled with junk. */
    method Kalloc(ghost held: set<nat>) returns (p: Option<nat>)
      requires Pool(held) && early == {}
      modifies `freelist, `data
      ensures p.None? ==> freelist == [] == old(freelist) && data == old(data) && Pool(held)
      ensures p.Some? ==> p.value !in held && Pool(held + {p.value}) && p.value in use && use[p.value].Free?
      ensures p.Some? ==> old(freelist) == [p.value] + freelist
      ensures forall x: nat :: data(x) == if p.Some? && p.value == x then Junk(5) else old(data)(x)
      ensures TookOnly(old(freelist), old(data), freelist, data)
    {
      NothingMoved(freelist, data);
      if freelist == [] {
        return None;
      }
      var q, d := freelist[0], data;
      assert q in freelist;
      freelist := freelist[1..];
      data := (x: nat) => if x == q then Junk(5) else d(x);
      p := Some(q);
    }

    /** A page back on the list, filled with junk. */
    method Kfree(p: nat, ghost held: set<nat>)
      requires Pool(held) && p in held
      modifies `freelist, `data
      ensures freelist == [p] + old(freelist) && Pool(held - {p})
      ensures forall x :: data(x) == if x == p then Junk(1) else old(data)(x)
      ensures GaveOnly(old(freelist), old(data), freelist, data)
    {
      var d := data;
      data := (x: nat) => if x == p then Junk(1) else d(x);
      freelist := [p] + freelist;
    }

    /** The missing table below p on the way to page v. */
    method NewTable(r: nat, v: nat, p: nat, level: nat, ghost held: set<nat>) returns (q: Option<nat>)
      requires Valid(held) && early == {} && IsRoot(View(), r) && r in tables && v < MAXPAGES
      requires p in tables && p in use && Level(use[p]) == level && 0 < level <= ROOT_LEVEL && OnPath(View(), r, p, v)
      requires |tables[p]| == ENTRIES && !Present(tables[p][Px(level, v)])
      modifies `tables, `freelist, `use, `data
      ensures Valid(held) && TookOnly(old(freelist), old(data), freelist, data)
      ensures q.None? ==> View() == old(View()) && freelist == [] == old(freelist)
      ensures q.Some? ==> Grows(old(View()), View(), r) && |freelist| + 1 == |old(freelist)|
      ensures q.Some? ==> r in tables && q.value in tables && q.value in use && OnPath(View(), r, q.value, v)
      ensures q.Some? ==> Level(use[q.value]) == level - 1
    {
      hide Good, Entry, OnlyTouches, Grows, TookOnly, FreeOnce;
      var i := Px(level, v);
      q := Kalloc(held);
      if q.Some? {
        ghost var m := View();
        PutToUse(freelist, use, early, held + {q.value}, q.value, Table(level - 1, p, i, RootOf(m, p)));
        assert held + {q.value} - {q.value} == held;
        AddLower(m, r, p, i, q.value, v);
        tables := tables[q.value := EmptyTable()][p := tables[p][i := Pte(q.value, PTE_V)]];
        use := use[q.value := Table(level - 1, p, i, RootOf(m, p))];
        assert View() == AddTable(m, p, i, q.value);
      }
    }

    /** Find the last-level table for page v, adding missing tables when `alloc` is set. */
    method WalkTo(r: nat, v: nat, alloc: bool, ghost held: set<nat>) returns (t: Option<nat>)
      requires Valid(held) && IsRoot(View(), r) && v < MAXPAGES && (alloc ==> early == {})
      modifies `tables, `freelist, `use, `data
      ensures Valid(held) && Grows(old(View()), View(), r)
      ensures TookOnly(old(freelist), old(data), freelist, data)
      ensures t == Walk(View(), r, v)
      ensures !alloc ==> View() == old(View()) && freelist == old(freelist) && data == old(data)
      ensures alloc && t.None? ==> freelist == [] && |old(freelist)| < ROOT_LEVEL
      ensures |old(freelist)| - ROOT_LEVEL <= |freelist| <= |old(freelist)|
    {
      hide Good, Entry, OnlyTouches, Grows, IsTable, TookOnly, Pool;
      GrowsRefl(View(), r);
      NothingMoved(freelist, data);
      var p, level := r, ROOT_LEVEL;
      while level > 0
        invariant level <= ROOT_LEVEL && Valid(held) && Grows(old(View()), View(), r) && IsRoot(View(), r)
        invariant p in tables && p in use && r in tables && Level(use[p]) == level
        invariant OnPath(View(), r, p, v)
        invariant !alloc ==> View() == old(View()) && freelist == old(freelist) && data == old(data)
        invariant TookOnly(old(freelist), old(data), freelist, data)
        invariant |old(freelist)| - (ROOT_LEVEL - level) <= |freelist| <= |old(freelist)|
      {
        var i := Px(level, v);
        EntryAt(View(), p, i);
        if Present(tables[p][i]) {
          OnPathStep(View(), r, p, v);
          p := tables[p][i].ppn;
        } else {
          OnPathWalk(View(), r, p, v);
          if !alloc {
            return None;
          }
          ghost var m, l, d := View(), freelist, data;
          var q := NewTable(r, v, p, level, held);
          TookTrans(old(freelist), old(data), l, d, freelist, data);
          if q.None? {
            return None;
          }
          GrowsTrans(old(View()), m, View(), r);
          p := q.value;
        }
        level := level - 1;
      }
      OnPathWalk(View(), r, p, v);
      t := Some(p);
    }

    /** One page of mappages: q is a page this code holds (`own`) or one that is lent. */
    method MapOne(r: nat, v: nat, q: nat, flags: nat, ghost own: bool, ghost held: set<nat>) returns (ok: bool)
      requires Valid(held) && early == {} && IsRoot(View(), r) && v < MAXPAGES && Lookup(View(), r, v).None?
      requires if own then q in held else q in use && IsLent(use[q])
      requires Present(Pte(q, flags)) && Maps(Pte(q, flags))
      modifies `tables, `freelist, `use, `data
      ensures TookOnly(old(freelist), old(data), freelist, data)
      ensures ok ==> Valid(if own then held - {q} else held)
      ensures ok ==> SetsTo(old(View()), View(), r, v, Some(Mapping(q, flags, own))) && Keeps(old(View()), View())
      ensures !ok ==> Valid(held) && Grows(old(View()), View(), r) && freelist == [] && |old(freelist)| < ROOT_LEVEL
      ensures |old(freelist)| - ROOT_LEVEL <= |freelist| <= |old(freelist)|
    {
      hide Good, Entry, OnlyTouches, Grows, SetsTo, Lookup, TookOnly, FreeOnce;
      ghost var m0 := View();
      var t := WalkTo(r, v, true, held);
      if t.None? {
        return false;
      }
      OnTheList(freelist, use, early, held, q);
      ghost var m := View();
      GrowsUse(m0, m, r, v, q, held);
      EntryAt(m, t.value, Px(0, v));
      SetsMap(m, t.value, q, flags, r, v);
      ghost var k := Px(0, v);
      ghost var m' := if m.use[q].Free? then MapFrame(m, t.value, k, q, flags) else MapLent(m, t.value, k, q, flags);
      GrowsSets(m0, m, m', r, v, Some(Mapping(q, flags, own)));
      tables := tables[t.value := tables[t.value][Px(0, v) := Pte(q, flags)]];
      if own {
        PutToUse(freelist, use, early, held, q, Frame(t.value, Px(0, v), RootOf(m, t.value)));
      } else {
        assert use[q := use[q]] == use;
      }
      use := use[q := if own then Frame(t.value, Px(0, v), RootOf(m, t.value)) else use[q]];
      assert Keeps(m, View());
      ok := true;
    }

    /** One page of uvmunmap: delete the mapping of v, freeing its frame when asked to. */
    method UnmapOne(r: nat, v: nat, doFree: bool, ghost held: set<nat>)
      requires Valid(held) && IsRoot(View(), r) && v < MAXPAGES
      requires if doFree then LentAt(View(), r, v) !! early else !OwnedAt(View(), r, v)
      modifies `tables, `freelist, `use, `data, `early
      ensures GaveOnly(old(freelist), old(data), freelist, data)
      ensures Valid(held) && SetsTo(old(View()), View(), r, v, None)
      ensures early == old(early) + if doFree then LentAt(old(View()), r, v) else {}
      ensures !doFree ==> freelist == old(freelist)
    {
      hide Good, OnlyTouches, SetsTo, GaveOnly, FreeOnce;
      ghost var m := View();
      NothingMoved(freelist, data);
      SetsNone(m, r, v);
      Found(m, r, v);
      var t := WalkTo(r, v, false, held);
      if t.None? {
        return;
      }
      EntryAt(View(), t.value, Px(0, v));
      var e := tables[t.value][Px(0, v)];
      if !Present(e) {
        return;
      }
      SetsUnmap(m, t.value, r, v);
      if use[e.ppn].Frame? {
        OutOfUse(freelist, use, early, held, e.ppn);
      } else {
        assert use[e.ppn := use[e.ppn]] == use;
        if doFree {
          TooEarly(freelist, use, early, held, e.ppn);
          early := early + {e.ppn};
        }
      }
      use := use[e.ppn := if use[e.ppn].Frame? then Free else use[e.ppn]];
      if doFree {
        Kfree(e.ppn, held + {e.ppn});
        assert held + {e.ppn} - {e.ppn} == held;
      }
      tables := tables[t.value := tables[t.value][Px(0, v) := NO_PTE]];
    }

    /** Map n consecutive pages from q at v; `done` tells how many were mapped. */
    method Mappages(r: nat, v: nat, n: nat, q: nat, flags: nat, ghost own: bool, ghost held: set<nat>)
      returns (ok: bool, ghost done: nat)
      requires Valid(held) && early == {} && IsRoot(View(), r) && 0 < n && v + n <= MAXPAGES
      requires forall w :: v <= w < v + n ==> Lookup(View(), r, w).None?
      requires if own then Range(q, q + n) <= held else forall p :: q <= p < q + n ==> p in use && IsLent(use[p])
      requires Present(Pte(q, flags)) && Maps(Pte(q, flags))
      modifies `tables, `freelist, `use, `data
      ensures TookOnly(old(freelist), old(data), freelist, data)
      ensures ok == (done == n) && done <= n
      ensures Valid(if own then held - Range(q, q + done) else held)
      ensures MapsRange(old(View()), View(), r, v, done, q, flags, own)
      ensures !ok ==> freelist == [] && |old(freelist)| < ROOT_LEVEL * n
      ensures |old(freelist)| - ROOT_LEVEL * n <= |freelist| <= |old(freelist)|
    {
      hide Good, OnlyTouches, Lookup, Range, TookOnly, Pool;
      ghost var m0 := View();
      NothingMoved(freelist, data);
      done := 0;
      assert held - Range(q, q) == held;
      MapsNothing(m0, r, v, q, flags, own);
      var a, pa := v, q;
      ok := true;
      while a < v + n
        invariant done <= n && a == v + done && pa == q + done
        invariant Valid(if own then held - Range(q, q + done) else held)
        invariant MapsRange(m0, View(), r, v, done, q, flags, own) && IsRoot(View(), r)
        invariant |old(freelist)| - ROOT_LEVEL * done <= |freelist| <= |old(freelist)|
        invariant TookOnly(old(freelist), old(data), freelist, data)
        decreases n - done
      {
        ghost var m := View();
        if !own {
          LentKept(m0, m, r, pa);
        }
        ghost var l, d := freelist, data;
        ok := MapOne(r, a, pa, flags, own, if own then held - Range(q, q + done) else held);
        TookTrans(old(freelist), old(data), l, d, freelist, data);
        if !ok {
          MapsGrow(m0, m, View(), r, v, done, q, flags, own);
          return;
        }
        MapsMore(m0, m, View(), r, v, done, q, flags, own);
        assert held - Range(q, q + done) - {pa} == held - Range(q, q + done + 1);
        done := done + 1;
        a, pa := a + 1, pa + 1;
      }
    }

    /** Delete the mappings of n pages from v on, freeing their frames when asked to; a lent page that
        is freed so is on the list too early. */
    method Uvmunmap(r: nat, v: nat, n: nat, doFree: bool, ghost held: set<nat>)
      requires Valid(held) && IsRoot(View(), r) && v + n <= MAXPAGES
      requires if doFree then LentOnce(View(), r, v, n) && LentIn(View(), r, v, n) !! early
               else NoneOwned(View(), r, v, n)
      modifies `tables, `freelist, `use, `data, `early
      ensures GaveOnly(old(freelist), old(data), freelist, data)
      ensures Valid(held) && Clears(old(View()), View(), r, v, n)
      ensures early == old(early) + if doFree then LentIn(old(View()), r, v, n) else {}
      ensures !doFree ==> freelist == old(freelist)
    {
      hide Good, OnlyTouches, Lookup, LentAt, OwnedAt, LentIn, LentOnce, NoneOwned;
      hide GaveOnly, Pool;
      ghost var m0 := View();
      NothingMoved(freelist, data);
      ClearsNothing(m0, r, v);
      LentNowhere(m0, r, v);
      var a := v;
      while a < v + n
        invariant v <= a <= v + n && Valid(held) && Clears(m0, View(), r, v, a - v) && IsRoot(View(), r)
        invariant early == old(early) + if doFree then LentIn(m0, r, v, a - v) else {}
        invariant !doFree ==> freelist == old(freelist)
        invariant GaveOnly(old(freelist), old(data), freelist, data)
      {
        ghost var m, l, d := View(), freelist, data;
        LentNext(m0, m, r, v, a - v, n);
        UnmapOne(r, a, doFree, held);
        GaveTrans(old(freelist), old(data), l, d, freelist, data);
        ClearsMore(m0, m, View(), r, v, a - v);
        a := a + 1;
      }
    }

    /** An empty address space, or None when there is no page for its root. */
    method Uvmcreate() returns (r: Option<nat>)
      requires Valid({}) && early == {}
      modifies `tables, `freelist, `use, `data
      ensures TookOnly(old(freelist), old(data), freelist, data)
      ensures Valid({})
      ensures r.None? ==> View() == old(View()) && freelist == [] == old(freelist)
      ensures r.Some? ==> |freelist| + 1 == |old(freelist)|
      ensures r.Some? ==> Fresh(old(View()), View(), r.value)
    {
      hide Good, OnlyTouches, Lookup;
      r := Kalloc({});
      if r.Some? {
        FreshRoot(View(), r.value);
        tables := tables[r.value := EmptyTable()];
        use := use[r.value := Root];
        assert {} + {r.value} - {r.value} == {};
      }
    }

    /** Shrink from oldsz to newsz bytes. */
    method Uvmdealloc(r: nat, oldsz: nat, newsz: nat, ghost held: set<nat>) returns (sz: nat)
      requires Valid(held) && IsRoot(View(), r) && Pages(oldsz) <= MAXPAGES
      requires var n := if newsz < oldsz then Pages(oldsz) - Pages(newsz) else 0;
        LentOnce(View(), r, Pages(newsz), n) && LentIn(View(), r, Pages(newsz), n) !! early
      modifies `tables, `freelist, `use, `data, `early
      ensures GaveOnly(old(freelist), old(data), freelist, data)
      ensures Valid(held) && sz == if newsz >= oldsz then oldsz else newsz
      ensures var n := if newsz < oldsz then Pages(oldsz) - Pages(newsz) else 0;
        Clears(old(View()), View(), r, Pages(newsz), n) && early == old(early) + LentIn(old(View()), r, Pages(newsz), n)
    {
      hide Good, OnlyTouches, Lookup, GaveOnly, LentOnce, LentIn;
      NothingMoved(freelist, data);
      ClearsNothing(View(), r, Pages(newsz));
      LentNowhere(View(), r, Pages(newsz));
      if newsz >= oldsz {
        return oldsz;
      }
      if Pages(newsz) < Pages(oldsz) {
        Uvmunmap(r, Pages(newsz), Pages(oldsz) - Pages(newsz), true, held);
      }
      return newsz;
    }

    /** A page in hand, filled with `content`. */
    method NewPage(content: Page) returns (q: Option<nat>)
      requires Pool({}) && early == {}
      modifies `freelist, `data
      ensures q.None? ==> freelist == [] == old(freelist) && data == old(data) && Pool({})
      ensures q.Some? ==> Pool({q.value}) && old(freelist) == [q.value] + freelist
      ensures q.Some? ==> forall x: nat :: data(x) == if x == q.value then content else old(data)(x)
    {
      hide FreeOnce, TookOnly;
      q := Kalloc({});
      if q.Some? {
        var d, mem := data, q.value;
        data := (p: nat) => if p == mem then content else d(p);
        assert {} + {mem} == {mem};
      }
    }

    /** Is page v mapped? */
    method IsMapped(r: nat, v: nat, ghost held: set<nat>) returns (b: bool)
      requires Valid(held) && IsRoot(View(), r) && v < MAXPAGES
      modifies `tables, `freelist, `use, `data
      ensures Valid(held) && View() == old(View()) && freelist == old(freelist) && data == old(data)
      ensures b <==> Lookup(View(), r, v).Some?
    {
      hide Good, OnlyTouches, Lookup, FreeOnce, TookOnly;
      Found(View(), r, v);
      var t := WalkTo(r, v, false, held);
      if t.None? {
        return false;
      }
      EntryAt(View(), t.value, Px(0, v));
      b := Present(tables[t.value][Px(0, v)]);
      if b {
        FoundEntry(View(), r, v, t.value);
      }
    }

    /** Map a new page at v holding `content`; None, with nothing mapped, when memory runs out.  If
        there is a page to be had, and v is mapped already, mappages panics. */
    method AllocPage(r: nat, v: nat, flags: nat, content: Page) returns (q: Option<nat>, panicked: bool)
      requires Valid({}) && early == {} && IsRoot(View(), r) && v < MAXPAGES
      requires Present(Pte(0, flags)) && Maps(Pte(0, flags))
      modifies `tables, `freelist, `use, `data
      ensures panicked <==> Lookup(old(View()), r, v).Some? && old(freelist) != []
      ensures !panicked ==> Valid({}) && InUseKept(old(use), old(data), data)
      ensures q.Some? ==> !panicked && Lookup(old(View()), r, v).None?
      ensures q.Some? ==> MapsRange(old(View()), View(), r, v, 1, q.value, flags, true) && data(q.value) == content
      ensures q.Some? ==> q.value in old(use) && old(use)[q.value].Free?
      ensures q.None? && !panicked ==>
        MapsRange(old(View()), View(), r, v, 0, 0, flags, true) && |old(freelist)| < PAGE_COST
      ensures !panicked ==> |old(freelist)| - PAGE_COST <= |freelist| <= |old(freelist)|
    {
      hide Good, OnlyTouches, Lookup, Mine, Range, MapsRange, Keeps, TookOnly, GaveOnly, FreeOnce, InUseKept;
      MapsNothing(View(), r, v, 0, flags, true);
      KeptFirst(use, data);
      panicked := false;
      q := NewPage(content);
      if q.None? {
        return;
      }
      var mem := q.value;
      panicked := IsMapped(r, v, {mem});
      if panicked {
        return None, true;
      }
      OnTheList(freelist, use, early, {mem}, mem);
      ghost var l, d1 := freelist, data;
      RangeOne(mem);
      var ok, done := Mappages(r, v, 1, mem, flags, true, {mem});
      TookInUse(old(use), old(data), l, d1, mem, freelist, data);
      if !ok {
        ghost var d2 := data;
        Kfree(mem, {mem});
        KeptFresh(old(use), old(data), d2, mem, data);
        MapsNoneAlike(old(View()), View(), r, v, mem, flags);
        q := None;
      }
    }

    /** Grow from oldsz to newsz bytes with zeroed pages; on failure, 0 and everything undone. */
    method Uvmalloc(r: nat, oldsz: nat, newsz: nat, xperm: nat) returns (sz: nat, ghost ok: bool, panicked: bool)
      requires Valid({}) && early == {} && IsRoot(View(), r)
      requires Pages(newsz) <= MAXPAGES && xperm in {0, PTE_W, PTE_X, PTE_W + PTE_X}
      modifies `tables, `freelist, `use, `data, `early
      ensures panicked ==> !ok && exists w :: Pages(oldsz) <= w < Pages(newsz) && Lookup(old(View()), r, w).Some?
      ensures !panicked ==> Valid({}) && early == {} && sz == if !ok then 0 else if newsz < oldsz then oldsz else newsz
      ensures ok ==> forall w :: Pages(oldsz) <= w < Pages(newsz) ==> Lookup(old(View()), r, w).None?
      ensures ok ==> Grown(old(View()), View(), r, Pages(oldsz), Pages(newsz), PTE_V + PTE_R + PTE_U + xperm)
      ensures ok ==> Zeroed(View(), data, r, Pages(oldsz), Pages(newsz))
      ensures !ok && !panicked ==> Clears(old(View()), View(), r, Pages(oldsz), 0)
      ensures !ok && !panicked ==> |old(freelist)| < PAGE_COST * (Pages(newsz) - Pages(oldsz))
      ensures !panicked ==> DataKept(old(use), old(data), use, data)
    {
      hide Good, OnlyTouches, Lookup, Mine, ZeroPage, Grown, MapsRange, Clears, Zeroed, GaveOnly, InUseKept, DataKept;
      hide FreeOnce;
      ghost var m0 := View();
      KeptFirst(use, data);
      var flags, lo := PTE_V + PTE_R + PTE_U + xperm, Pages(oldsz);
      GrownNothing(m0, data, r, lo, Pages(newsz), flags);
      if newsz < oldsz {
        return oldsz, true, false;
      }
      var a := lo;
      while a < Pages(newsz)
        invariant lo <= a <= Pages(newsz) && Valid({}) && early == {} && IsRoot(View(), r)
        invariant Grown(m0, View(), r, lo, a, flags) && Zeroed(View(), data, r, lo, a)
        invariant |freelist| >= |old(freelist)| - PAGE_COST * (a - lo)
        invariant InUseKept(old(use), old(data), data)
        invariant forall w :: lo <= w < a ==> Lookup(m0, r, w).None?
      {
        ghost var m, d := View(), data;
        GrownInUse(m0, m, r, lo, a, flags);
        var q;
        q, panicked := AllocPage(r, a, flags, ZeroPage());
        if panicked {
          return 0, false, true;
        }
        KeptMore(m0.use, old(data), m.use, d, data);
        if q.None? {
          GrownGrow(m0, m, View(), r, lo, a, 0, flags);
          ghost var m1, l1, d1 := View(), freelist, data;
          GrownOwned(m0, m1, r, lo, a, flags);
          NoneLent(m1, r, lo, a - lo);
          sz := Uvmdealloc(r, a * 4096, lo * 4096, {});
          OnTheList(freelist, use, early, {}, 0);
          KeptThenGiven(m0.use, old(data), l1, d1, use, freelist, data);
          GrownUndone(m0, m1, View(), r, lo, a, flags);
          return 0, false, false;
        }
        GrownMore(m0, m, View(), r, lo, a, q.value, flags);
        ZeroedMore(m0, m, d, View(), data, r, lo, a, q.value, flags);
        a := a + 1;
      }
      KeptData(old(use), old(data), use, data);
      return newsz, true, false;
    }

    /** Give the address space of `child` a copy of the first pages of r; on failure, none of them. */
    method Uvmcopy(r: nat, child: nat, sz: nat) returns (ok: bool)
      requires Valid({}) && early == {} && IsRoot(View(), r) && IsRoot(View(), child) && r != child
      requires Pages(sz) <= MAXPAGES
      requires forall w :: 0 <= w < Pages(sz) ==> Lookup(View(), child, w).None?
      modifies `tables, `freelist, `use, `data, `early
      ensures Valid({}) && early == {}
      ensures ok ==> Copied(old(View()), old(data), View(), data, r, child, Pages(sz))
      ensures !ok ==> Clears(old(View()), View(), child, 0, 0) && |old(freelist)| < PAGE_COST * Pages(sz)
      ensures DataKept(old(use), old(data), use, data)
    {
      hide Good, OnlyTouches, Lookup, Mine, CopiedPage, Copied, GaveOnly, InUseKept, DataKept, Clears, MapsRange;
      hide FreeOnce;
      hide LentIn, LentOnce;
      ghost var m0, d0 := View(), data;
      KeptFirst(use, data);
      CopiedNothing(m0, d0, r, child);
      var a := 0;
      while a < Pages(sz)
        invariant a <= Pages(sz) && Valid({}) && early == {} && IsRoot(View(), r) && IsRoot(View(), child)
        invariant Copied(m0, d0, View(), data, r, child, a) && |freelist| >= |old(freelist)| - PAGE_COST * a
        invariant InUseKept(old(use), d0, data)
      {
        ghost var m, d := View(), data;
        CopiedSource(m0, d0, m, d, r, child, a);
        Found(m, r, a);
        var t := WalkTo(r, a, false, {});
        if t.Some? {
          EntryAt(m, t.value, Px(0, a));
        }
        if t.None? || !Present(tables[t.value][Px(0, a)]) {
          CopiedSkip(m0, d0, m, d, r, child, a);
        } else {
          var e := tables[t.value][Px(0, a)];
          FoundEntry(m, r, a, t.value);
          MapsAny(e);
          SourceInUse(m0, m, r, a);
          InUseData(m0.use, d0, d, e.ppn);
          var q, panicked := AllocPage(child, a, e.flags, data(e.ppn));
          KeptMore(m0.use, d0, m.use, d, data);
          if q.None? {
            CopiedGrow(m0, d0, m, d, data, View(), r, child, a);
            ghost var m1, l1, d1 := View(), freelist, data;
            CopiedOwned(m0, d0, m1, data, r, child, a);
            Uvmunmap(child, 0, a, true, {});
            OnTheList(freelist, use, early, {}, 0);
            KeptThenGiven(m0.use, d0, l1, d1, use, freelist, data);
            CopiedUndone(m0, d0, m1, View(), r, child, a);
            return false;
          }
          CopiedMore(m0, d0, m, d, View(), data, r, child, a, q.value);
          OtherKept(m, View(), child, r);
        }
        a := a + 1;
      }
      KeptData(old(use), d0, use, data);
      ok := true;
    }

    /** A table page, already empty, back on the list. */
    method FreeTablePage(p: nat, ghost held: set<nat>)
      requires Pool(held) && p in use && IsTable(use[p])
      modifies `tables, `freelist, `use, `data
      ensures View() == Mem(old(tables) - {p}, old(use)[p := Free]) && Pool(held)
      ensures GaveOnly(old(freelist), old(data), freelist, data)
    {
      hide GaveOnly, FreeOnce;
      OutOfUse(freelist, use, early, held, p);
      tables := tables - {p};
      use := use[p := Free];
      Kfree(p, held + {p});
      assert held + {p} - {p} == held;
    }

    /** Free table p and all below it.  The entry that points to p is left to the caller: `m` is
        the memory just before p itself is freed. */
    method Freewalk(p: nat, ghost r: nat, ghost held: set<nat>) returns (ghost m: Mem)
      requires Valid(held) && IsRoot(View(), r) && p in tables && RootOf(View(), p) == r && NoLeaves(View(), r)
      modifies `tables, `freelist, `use, `data
      ensures GaveOnly(old(freelist), old(data), freelist, data)
      ensures Emptied(old(View()), m, p, r) && IsEmpty(m, p)
      ensures View() == Mem(m.tables - {p}, m.use[p := Free]) && Pool(held)
      decreases Level(use[p])
    {
      hide Good, OnlyTouches, NoLeaves, GaveOnly, Emptied, Pool;
      ghost var m0 := View();
      NothingMoved(freelist, data);
      EmptiedRefl(m0, p, r);
      var i := 0;
      while i < ENTRIES
        invariant i <= ENTRIES && Valid(held) && p in tables && |tables[p]| == ENTRIES
        invariant Emptied(m0, View(), p, r)
        invariant forall j :: 0 <= j < i ==> !Present(tables[p][j])
        invariant GaveOnly(old(freelist), old(data), freelist, data)
      {
        ghost var m1, l1, d1 := View(), freelist, data;
        EmptiedAt(m0, m1, p, r);
        EntryAt(m1, p, i);
        LeafNone(m1, p, i, r);
        var e := tables[p][i];
        if Present(e) && !Maps(e) {
          var child := e.ppn;
          ghost var m2 := Freewalk(child, r, held);
          GaveTrans(old(freelist), old(data), l1, d1, freelist, data);
          EmptiedAt(m1, m2, child, r);
          EmptiedMore(m0, m1, m2, p, i, r);
          tables := tables[p := tables[p][i := NO_PTE]];
          assert View() == FreeTable(m2, child);
        } else if Present(e) {
          assert false;
        }
        i := i + 1;
      }
      m := View();
      EmptiedAt(m0, m, p, r);
      ghost var l1, d1 := freelist, data;
      FreeTablePage(p, held);
      GaveTrans(old(freelist), old(data), l1, d1, freelist, data);
    }

    /** Free an address space: the first pages and their frames, then every table. */
    method Uvmfree(r: nat, sz: nat)
      requires Valid({}) && IsRoot(View(), r) && Pages(sz) <= MAXPAGES
      requires forall w :: 0 <= w < MAXPAGES && Lookup(View(), r, w).Some? ==>
        w < Pages(sz) && Lookup(View(), r, w).value.owned
      modifies `tables, `freelist, `use, `data, `early
      ensures GaveOnly(old(freelist), old(data), freelist, data)
      ensures Valid({}) && early == old(early) && Gone(old(View()), View(), r)
    {
      hide Good, OnlyTouches, Lookup, Emptied, Gone, GaveOnly, LentIn, LentOnce;
      NoneLent(View(), r, 0, Pages(sz));
      ghost var m0 := View();
      NothingMoved(freelist, data);
      ClearsNothing(m0, r, 0);
      if sz > 0 {
        Uvmunmap(r, 0, Pages(sz), true, {});
      }
      ghost var m1, l1, d1 := View(), freelist, data;
      AllClear(m1, r);
      RootTable(m1, r);
      ghost var m2 := Freewalk(r, r, {});
      GaveTrans(old(freelist), old(data), l1, d1, freelist, data);
      RootGone(m0, m1, m2, r);
    }
  }

  lemma RangeOne(p: nat)
    ensures Range(p, p + 1) == {p} && {p} - Range(p, p) == {p} && {p} - {p} == {}
  {
  }

  lemma RangeFirst(p: nat, top: nat)
    ensures p < top ==> p in Range(p, top) && Range(p, top) - {p} == Range(p + 1, top)
    ensures Range(top, top) == {}
  {
  }

  ghost function FirstUse(end: nat, top: nat): map<nat, Use> {
    map p: nat | p in Range(0, top) :: if p < end then Kernel else Free
  }

  lemma FirstPages(end: nat, top: nat)
    ensures Good(Mem(map[], FirstUse(end, top)))
    ensures forall p :: p in Range(end, top) <==> p in FirstUse(end, top) && FirstUse(end, top)[p].Free?
  {
  }

  lemma GrownOwned(m0: Mem, m: Mem, r: nat, lo: nat, a: nat, flags: nat)
    requires Grown(m0, m, r, lo, a, flags)
    ensures forall w: nat :: lo <= w < a && w < MAXPAGES && Lookup(m, r, w).Some? ==> Lookup(m, r, w).value.owned
  {
  }

  lemma MapsNoneAlike(m: Mem, m': Mem, r: nat, v: nat, q: nat, flags: nat)
    requires MapsRange(m, m', r, v, 0, q, flags, true)
    ensures MapsRange(m, m', r, v, 0, 0, flags, true)
  {
    hide Good, OnlyTouches, Lookup;
  }

  /** Mapped pages are in use. */
  lemma GrownInUse(m0: Mem, m: Mem, r: nat, lo: nat, a: nat, flags: nat)
    requires Grown(m0, m, r, lo, a, flags) && a <= MAXPAGES
    ensures forall w :: lo <= w < a ==> Lookup(m, r, w).Some? && Lookup(m, r, w).value.ppn in m.use
                                        && !m.use[Lookup(m, r, w).value.ppn].Free?
    ensures lo <= a < MAXPAGES ==> Lookup(m, r, a) == Lookup(m0, r, a)
    ensures Keeps(m0, m)
  {
    hide OnlyTouches, Keeps;
    forall w | lo <= w < a
      ensures Lookup(m, r, w).Some? && Lookup(m, r, w).value.ppn in m.use && !m.use[Lookup(m, r, w).value.ppn].Free?
    {
      LookupUse(m, r, w);
    }
  }

  // ---------------------------------------------------------------- copying an address space

  lemma OtherLookup(m: Mem, m': Mem, r: nat, r': nat, v: nat)
    requires Good(m) && Good(m') && OnlyTouches(m, m', r) && IsRoot(m, r') && r' != r
    ensures IsRoot(m', r') && Lookup(m', r', v) == Lookup(m, r', v)
  {
    OtherEntry(m, m', r, r', v);
    if Present(Entry(m, r', v)) {
      EntryUse(m, r', v);
      var q := Entry(m, r', v).ppn;
      assert !Mine(m, q, r);
      assert Untouched(m, m', q);
    }
  }

  lemma OtherKept(m: Mem, m': Mem, r: nat, r': nat)
    requires Changes(m, m', r) && IsRoot(m, r') && r' != r
    ensures IsRoot(m', r')
  {
    OtherLookup(m, m', r, r', 0);
  }

  /** Page w of the child holds, in a frame of its own, what page w of r holds; or neither is mapped. */
  ghost predicate CopiedPage(m0: Mem, d0: Data, m: Mem, d: Data, r: nat, child: nat, w: nat)
    requires Good(m0) && IsRoot(m0, r) && Good(m) && IsRoot(m, child)
  {
    var x, y := Lookup(m0, r, w), Lookup(m, child, w);
    && x.Some? == y.Some?
    && (x.Some? ==> y.value.owned && y.value.flags == x.value.flags && d(y.value.ppn) == d0(x.value.ppn))
  }

  ghost predicate Copied(m0: Mem, d0: Data, m: Mem, d: Data, r: nat, child: nat, n: nat) {
    && Changes(m0, m, child) && Keeps(m0, m) && IsRoot(m0, r)
    && (forall w: nat {:trigger CopiedPage(m0, d0, m, d, r, child, w)} ::
          w < n ==> CopiedPage(m0, d0, m, d, r, child, w))
    && (forall w: nat :: n <= w < MAXPAGES ==> Lookup(m, child, w) == Lookup(m0, child, w))
  }

  lemma CopiedNothing(m: Mem, d: Data, r: nat, child: nat)
    requires Good(m) && IsRoot(m, r) && IsRoot(m, child)
    ensures Copied(m, d, m, d, r, child, 0)
  {
    ChangesRefl(m, child);
  }

  lemma CopiedOwned(m0: Mem, d0: Data, m: Mem, d: Data, r: nat, child: nat, n: nat)
    requires Copied(m0, d0, m, d, r, child, n)
    ensures LentIn(m, child, 0, n) == {} && LentOnce(m, child, 0, n)
  {
    hide Good, OnlyTouches, Lookup, LentIn, LentOnce;
    forall w: nat | w < n && Lookup(m, child, w).Some? ensures Lookup(m, child, w).value.owned {
      assert CopiedPage(m0, d0, m, d, r, child, w);
    }
    NoneLent(m, child, 0, n);
  }

  lemma CopiedSkip(m0: Mem, d0: Data, m: Mem, d: Data, r: nat, child: nat, a: nat)
    requires Copied(m0, d0, m, d, r, child, a) && a < MAXPAGES
    requires Lookup(m0, r, a).None? && Lookup(m0, child, a).None?
    ensures Copied(m0, d0, m, d, r, child, a + 1)
  {
    hide Good, OnlyTouches, Lookup;
  }

  lemma FoundEntry(m: Mem, r: nat, v: nat, t: nat)
    requires Good(m) && IsRoot(m, r) && Walk(m, r, v) == Some(t) && t in m.tables && |m.tables[t]| == ENTRIES
    requires Present(m.tables[t][Px(0, v)])
    ensures Lookup(m, r, v).Some? && Lookup(m, r, v).value.ppn == m.tables[t][Px(0, v)].ppn
    ensures Lookup(m, r, v).value.flags == m.tables[t][Px(0, v)].flags && Maps(m.tables[t][Px(0, v)])
  {
    EntryUse(m, r, v);
  }

  lemma MapsAny(e: Pte)
    requires Present(e) && Maps(e)
    ensures Present(Pte(0, e.flags)) && Maps(Pte(0, e.flags))
  {
  }

  /** What the parent maps was in use all along, so it has not been written. */
  lemma SourceInUse(m0: Mem, m: Mem, r: nat, v: nat)
    requires Good(m0) && IsRoot(m0, r) && Good(m) && IsRoot(m, r) && Lookup(m, r, v) == Lookup(m0, r, v)
    requires Lookup(m0, r, v).Some?
    ensures Lookup(m0, r, v).value.ppn in m0.use && !m0.use[Lookup(m0, r, v).value.ppn].Free?
  {
    LookupUse(m0, r, v);
  }

  lemma CopiedKept(m0: Mem, d0: Data, m: Mem, d: Data, m': Mem, d': Data, r: nat, child: nat, w: nat)
    requires Good(m0) && IsRoot(m0, r) && Good(m) && IsRoot(m, child) && Good(m') && IsRoot(m', child)
    requires CopiedPage(m0, d0, m, d, r, child, w) && Lookup(m', child, w) == Lookup(m, child, w)
    requires InUseKept(m.use, d, d')
    ensures CopiedPage(m0, d0, m', d', r, child, w)
  {
    if Lookup(m, child, w).Some? {
      LookupUse(m, child, w);
    }
  }

  lemma CopiedMore(m0: Mem, d0: Data, m: Mem, d: Data, m': Mem, d': Data, r: nat, child: nat, a: nat, q: nat)
    requires Copied(m0, d0, m, d, r, child, a) && a < MAXPAGES && Lookup(m0, r, a).Some?
    requires MapsRange(m, m', child, a, 1, q, Lookup(m0, r, a).value.flags, true)
    requires d'(q) == d0(Lookup(m0, r, a).value.ppn) && InUseKept(m.use, d, d')
    ensures Copied(m0, d0, m', d', r, child, a + 1) && Good(m') && IsRoot(m', child) && Changes(m, m', child)
  {
    hide Good, OnlyTouches, Lookup;
    ChangesTrans(m0, m, m', child);
    assert CopiedPage(m0, d0, m', d', r, child, a);
    hide CopiedPage;
    forall w: nat | w < a ensures CopiedPage(m0, d0, m', d', r, child, w) {
      CopiedKept(m0, d0, m, d, m', d', r, child, w);
    }
  }

  lemma CopiedGrow(m0: Mem, d0: Data, m: Mem, d: Data, d': Data, m': Mem, r: nat, child: nat, a: nat)
    requires Copied(m0, d0, m, d, r, child, a) && a < MAXPAGES && InUseKept(m.use, d, d')
    requires exists flags :: MapsRange(m, m', child, a, 0, 0, flags, true)
    ensures Copied(m0, d0, m', d', r, child, a) && Good(m') && IsRoot(m', child)
    ensures forall w :: 0 <= w < a && Lookup(m', child, w).Some? ==> Lookup(m', child, w).value.owned
  {
    hide Good, OnlyTouches, Lookup;
    ChangesTrans(m0, m, m', child);
    forall w: nat | w < a
      ensures CopiedPage(m0, d0, m', d', r, child, w)
      ensures Lookup(m', child, w).Some? ==> Lookup(m', child, w).value.owned
    {
      assert CopiedPage(m0, d0, m, d, r, child, w);
      CopiedKept(m0, d0, m, d, m', d', r, child, w);
    }
  }

  /** The parent still translates page a as it did, and the child does not have it yet. */
  lemma CopiedSource(m0: Mem, d0: Data, m: Mem, d: Data, r: nat, child: nat, a: nat)
    requires Copied(m0, d0, m, d, r, child, a) && r != child && a < MAXPAGES && Good(m0) && IsRoot(m0, child)
    ensures Good(m) && IsRoot(m, r) && IsRoot(m, child) && Lookup(m, r, a) == Lookup(m0, r, a)
    ensures Lookup(m, child, a) == Lookup(m0, child, a) && Keeps(m0, m)
  {
    hide Good, OnlyTouches, Lookup, CopiedPage;
    OtherLookup(m0, m, child, r, a);
  }

  lemma CopiedUndone(m0: Mem, d0: Data, m: Mem, m': Mem, r: nat, child: nat, a: nat)
    requires exists d :: Copied(m0, d0, m, d, r, child, a)
    requires forall w :: 0 <= w < a ==> Lookup(m0, child, w).None?
    requires Clears(m, m', child, 0, a)
    ensures Clears(m0, m', child, 0, 0)
  {
    hide Good, OnlyTouches, Lookup, CopiedPage;
    ChangesTrans(m0, m, m', child);
  }

  // ---------------------------------------------------------------- freeing an address space

  /** No last-level table of r maps anything. */
  ghost predicate NoLeaves(m: Mem, r: nat) {
    forall t :: t in m.tables && t in m.use && Level(m.use[t]) == 0 && RootOf(m, t) == r ==> IsEmpty(m, t)
  }

  /** An address space that maps no page has no leaf in its tables. */
  lemma AllClear(m: Mem, r: nat)
    requires Good(m) && IsRoot(m, r) && forall w: nat :: w < MAXPAGES ==> Lookup(m, r, w).None?
    ensures NoLeaves(m, r)
  {
    forall t | t in m.tables && t in m.use && Level(m.use[t]) == 0 && RootOf(m, t) == r ensures IsEmpty(m, t) {
      forall k | 0 <= k < |m.tables[t]| ensures !Present(m.tables[t][k]) {
        var v := EntryPage(m, r, t, k);
        assert Lookup(m, r, v).None?;
      }
    }
  }

  /** The tables of r below level of p have changed, others have not; p is still there. */
  ghost predicate Emptied(m: Mem, m': Mem, p: nat, r: nat) {
    && Good(m) && Good(m') && IsRoot(m, r) && IsRoot(m', r) && OnlyTouches(m, m', r) && NoLeaves(m', r)
    && p in m.tables && RootOf(m, p) == r && m'.use[p] == m.use[p] && p in m'.tables
    && (forall x :: x in m.tables && x != p && Level(m.use[x]) >= Level(m.use[p]) ==> Untouched(m, m', x))
  }

  lemma EmptiedRefl(m: Mem, p: nat, r: nat)
    requires Good(m) && IsRoot(m, r) && p in m.tables && RootOf(m, p) == r && NoLeaves(m, r)
    ensures Emptied(m, m, p, r) && |m.tables[p]| == ENTRIES
  {
  }

  lemma EmptiedAt(m: Mem, m': Mem, p: nat, r: nat)
    requires Emptied(m, m', p, r)
    ensures Good(m') && IsRoot(m', r) && NoLeaves(m', r) && p in m.tables && p in m.use && p in m'.tables && p in m'.use
    ensures m'.use[p] == m.use[p] && RootOf(m', p) == r && |m'.tables[p]| == ENTRIES && IsTable(m'.use[p])
  {
  }

  lemma LeafNone(m: Mem, p: nat, i: nat, r: nat)
    requires Good(m) && p in m.tables && RootOf(m, p) == r && NoLeaves(m, r) && i < ENTRIES
    ensures var e := m.tables[p][i];
      Present(e) ==> !Maps(e) && e.ppn in m.tables && RootOf(m, e.ppn) == r && Level(m.use[e.ppn]) < Level(m.use[p])
  {
    assert EntryRight(m, p, i);
  }

  lemma EmptiedMore(m0: Mem, m1: Mem, m2: Mem, p: nat, i: nat, r: nat)
    requires Emptied(m0, m1, p, r) && i < ENTRIES && Present(m1.tables[p][i]) && !Maps(m1.tables[p][i])
    requires Emptied(m1, m2, m1.tables[p][i].ppn, r) && IsEmpty(m2, m1.tables[p][i].ppn)
    ensures var q := m1.tables[p][i].ppn;
      && m2.use[q] == Table(Level(m1.use[p]) - 1, p, i, r) && q != p && p in m2.tables && m2.tables[p] == m1.tables[p]
      && Good(FreeTable(m2, q)) && Emptied(m0, FreeTable(m2, q), p, r)
  {
    var q := m1.tables[p][i].ppn;
    ChildTable(m1, m2, p, i, r);
    hide Good, OnlyTouches, NoLeaves, IsEmpty;
    FreeTableGood(m2, q);
    var m3 := FreeTable(m2, q);
    TouchesTrans(m0, m1, m2, r);
    FreeTouches(m2, q, r);
    TouchesTrans(m0, m2, m3, r);
    FreeNoLeaves(m2, q, r);
    forall x | x in m0.tables && x != p && Level(m0.use[x]) >= Level(m0.use[p]) ensures Untouched(m0, m3, x) {
      assert Untouched(m0, m1, x);
      assert Untouched(m1, m2, x);
    }
  }

  /** The table that entry i of table p points to, when all below it has been emptied. */
  lemma ChildTable(m1: Mem, m2: Mem, p: nat, i: nat, r: nat)
    requires Good(m1) && p in m1.tables && |m1.tables[p]| == ENTRIES && RootOf(m1, p) == r && i < ENTRIES
    requires Present(m1.tables[p][i]) && !Maps(m1.tables[p][i]) && Emptied(m1, m2, m1.tables[p][i].ppn, r)
    ensures var q := m1.tables[p][i].ppn;
      && q in m2.use && Level(m1.use[p]) > 0 && m2.use[q] == Table(Level(m1.use[p]) - 1, p, i, r)
      && q != p && p in m2.tables && m2.tables[p] == m1.tables[p] && m2.use[p] == m1.use[p]
  {
    assert EntryRight(m1, p, i);
    assert Untouched(m1, m2, p);
  }

  lemma FreeTouches(m: Mem, q: nat, r: nat)
    requires Good(m) && IsEmpty(m, q) && m.use[q].Table? && m.use[q].root == r
    ensures OnlyTouches(m, FreeTable(m, q), r)
  {
    assert HeldRight(m, q);
  }

  lemma FreeNoLeaves(m: Mem, q: nat, r: nat)
    requires Good(m) && IsEmpty(m, q) && m.use[q].Table? && NoLeaves(m, r)
    ensures NoLeaves(FreeTable(m, q), r)
  {
    assert HeldRight(m, q);
    var m' := FreeTable(m, q);
    forall t | t in m'.tables && t in m'.use && Level(m'.use[t]) == 0 && RootOf(m', t) == r ensures IsEmpty(m', t) {
      assert IsEmpty(m, t);
    }
  }

  /** The address space of r is gone: all its pages are free, and nothing else has changed. */
  ghost predicate Gone(m: Mem, m': Mem, r: nat) {
    && Good(m') && m'.use.Keys == m.use.Keys
    && forall p :: p in m.use ==> if Mine(m, p, r) then m'.use[p].Free? else Untouched(m, m', p)
  }

  lemma GoneTouches(m: Mem, m': Mem, r: nat)
    requires Gone(m, m', r) && IsRoot(m, r)
    ensures OnlyTouches(m, m', r) && !IsRoot(m', r)
  {
    hide Good;
    assert Mine(m, r, r);
  }

  lemma RootTable(m: Mem, r: nat)
    requires Good(m) && IsRoot(m, r)
    ensures r in m.tables && RootOf(m, r) == r
  {
  }

  /** Freeing the root leaves no page behind: a page still held would belong to a root that exists. */
  lemma RootGone(m0: Mem, m1: Mem, m2: Mem, r: nat)
    requires Changes(m0, m1, r) && Emptied(m1, m2, r, r) && IsEmpty(m2, r)
    ensures var m' := Mem(m2.tables - {r}, m2.use[r := Free]); Good(m') && Gone(m0, m', r)
  {
    TouchesTrans(m0, m1, m2, r);
    FreeRootGood(m2, r);
    var m' := FreeRoot(m2, r);
    forall p | p in m0.use ensures if Mine(m0, p, r) then m'.use[p].Free? else Untouched(m0, m', p) {
      if Mine(m0, p, r) {
        assert Mine(m2, p, r);
        if IsHeld(m'.use[p]) {
          RootExists(m', p);
        }
      } else {
        assert Untouched(m0, m2, p);
      }
    }
  }

  /** Pages lo to hi are mapped to pages of zeroes. */
  ghost predicate Zeroed(m: Mem, d: Data, r: nat, lo: nat, hi: nat) {
    && Good(m) && IsRoot(m, r)
    && forall w :: lo <= w < hi ==> Lookup(m, r, w).Some? && d(Lookup(m, r, w).value.ppn) == ZeroPage()
  }

  lemma ZeroedMore(m0: Mem, m: Mem, d: Data, m': Mem, d': Data, r: nat, lo: nat, a: nat, q: nat, flags: nat)
    requires Grown(m0, m, r, lo, a, flags) && Zeroed(m, d, r, lo, a) && MapsRange(m, m', r, a, 1, q, flags, true)
    requires a < MAXPAGES
    requires d'(q) == ZeroPage() && InUseKept(m.use, d, d')
    ensures Zeroed(m', d', r, lo, a + 1)
  {
    hide Good, OnlyTouches, Lookup, ZeroPage;
    GrownInUse(m0, m, r, lo, a, flags);
  }

  lemma GrownNothing(m: Mem, d: Data, r: nat, lo: nat, hi: nat, flags: nat)
    requires Good(m) && IsRoot(m, r)
    ensures Grown(m, m, r, lo, lo, flags) && Zeroed(m, d, r, lo, lo)
    ensures hi <= lo ==> Grown(m, m, r, lo, hi, flags) && Zeroed(m, d, r, lo, hi)
  {
    ChangesRefl(m, r);
  }

  lemma GrownMore(m0: Mem, m: Mem, m': Mem, r: nat, lo: nat, a: nat, q: nat, flags: nat)
    requires Grown(m0, m, r, lo, a, flags) && lo <= a && MapsRange(m, m', r, a, 1, q, flags, true)
    ensures Grown(m0, m', r, lo, a + 1, flags) && IsRoot(m', r)
  {
    hide Good, OnlyTouches, Lookup;
    ChangesTrans(m0, m, m', r);
  }

  lemma GrownGrow(m0: Mem, m: Mem, m': Mem, r: nat, lo: nat, a: nat, q: nat, flags: nat)
    requires Grown(m0, m, r, lo, a, flags) && MapsRange(m, m', r, a, 0, q, flags, true)
    ensures Grown(m0, m', r, lo, a, flags) && Good(m') && IsRoot(m', r)
    ensures forall w :: lo <= w < a && w < MAXPAGES && Lookup(m', r, w).Some? ==> Lookup(m', r, w).value.owned
  {
    hide Good, OnlyTouches, Lookup;
    ChangesTrans(m0, m, m', r);
  }

  lemma GrownUndone(m0: Mem, m: Mem, m': Mem, r: nat, lo: nat, a: nat, flags: nat)
    requires Good(m0) && IsRoot(m0, r) && forall w :: lo <= w < a ==> Lookup(m0, r, w).None?
    requires Grown(m0, m, r, lo, a, flags) && lo <= a && Clears(m, m', r, lo, a - lo)
    ensures Clears(m0, m', r, lo, 0)
  {
    hide Good, OnlyTouches, Lookup;
    ChangesTrans(m0, m, m', r);
  }

  lemma LookupUse(m: Mem, r: nat, v: nat)
    requires Good(m) && IsRoot(m, r) && Lookup(m, r, v).Some?
    ensures var x := Lookup(m, r, v).value;
      && x.ppn in m.use
      && if x.owned then m.use[x.ppn].Frame? && RootOf(m, x.ppn) == RootOf(m, r) else IsLent(m.use[x.ppn])
  {
    EntryUse(m, r, v);
  }

  /** Pages covering sz bytes: PGROUNDUP(sz) / PGSIZE. */
  function Pages(sz: nat): (n: nat)
    ensures sz <= n * 4096 && (n > 0 ==> (n - 1) * 4096 < sz)
  {
    (sz + 4095) / 4096
  }

  /** r is a new address space with nothing mapped; no other one has changed. */
  ghost predicate Fresh(m: Mem, m': Mem, r: nat) {
    && Good(m) && Good(m') && !IsRoot(m, r) && IsRoot(m', r) && OnlyTouches(m, m', r)
    && forall w: nat :: Lookup(m', r, w).None?
  }

  lemma FreshRoot(m: Mem, r: nat)
    requires Good(m) && r in m.use && m.use[r].Free?
    ensures Fresh(m, AddRoot(m, r), r)
  {
    hide EntryRight, HeldRight;
    AddRootGood(m, r);
  }

  /** Pages lo to hi of r are mapped, each to a frame of its own. */
  ghost predicate Grown(m: Mem, m': Mem, r: nat, lo: nat, hi: nat, flags: nat) {
    && Changes(m, m', r) && Keeps(m, m')
    && forall w: nat :: w < MAXPAGES ==>
         if lo <= w < hi
         then Lookup(m', r, w).Some? && Lookup(m', r, w).value.owned && Lookup(m', r, w).value.flags == flags
         else Lookup(m', r, w) == Lookup(m, r, w)
  }

  /** An address space before and after a change to it alone. */
  ghost predicate Changes(m: Mem, m': Mem, r: nat) {
    Good(m) && Good(m') && IsRoot(m, r) && IsRoot(m', r) && OnlyTouches(m, m', r)
  }

  ghost predicate MapsRange(m: Mem, m': Mem, r: nat, v: nat, n: nat, q: nat, flags: nat, own: bool) {
    && Changes(m, m', r) && Keeps(m, m')
    && forall w: nat :: w < MAXPAGES ==>
         Lookup(m', r, w) == if v <= w < v + n then Some(Mapping(q + (w - v), flags, own)) else Lookup(m, r, w)
  }

  ghost predicate Clears(m: Mem, m': Mem, r: nat, v: nat, n: nat) {
    && Changes(m, m', r)
    && forall w: nat :: w < MAXPAGES ==> Lookup(m', r, w) == if v <= w < v + n then None else Lookup(m, r, w)
  }

  // What one address space maps without owning it.

  ghost predicate OwnedAt(m: Mem, r: nat, v: nat)
    requires Good(m) && IsRoot(m, r)
  {
    Lookup(m, r, v).Some? && Lookup(m, r, v).value.owned
  }

  ghost function LentAt(m: Mem, r: nat, v: nat): set<nat>
    requires Good(m) && IsRoot(m, r)
  {
    if Lookup(m, r, v).Some? && !Lookup(m, r, v).value.owned then {Lookup(m, r, v).value.ppn} else {}
  }

  ghost predicate NoneOwned(m: Mem, r: nat, v: nat, n: nat)
    requires Good(m) && IsRoot(m, r)
  {
    forall w: nat :: v <= w < v + n ==> !OwnedAt(m, r, w)
  }

  ghost function LentIn(m: Mem, r: nat, v: nat, n: nat): set<nat>
    requires Good(m) && IsRoot(m, r)
  {
    set w: nat, p | v <= w < v + n && p in LentAt(m, r, w) :: p
  }

  /** No page is lent twice. */
  ghost predicate LentOnce(m: Mem, r: nat, v: nat, n: nat)
    requires Good(m) && IsRoot(m, r)
  {
    forall w: nat, x: nat :: v <= w < x < v + n ==> LentAt(m, r, w) !! LentAt(m, r, x)
  }

  lemma LentNowhere(m: Mem, r: nat, v: nat)
    requires Good(m) && IsRoot(m, r)
    ensures LentIn(m, r, v, 0) == {} && LentOnce(m, r, v, 0)
  {
  }

  /** Nothing is lent where all that is mapped is owned. */
  lemma NoneLent(m: Mem, r: nat, v: nat, n: nat)
    requires Good(m) && IsRoot(m, r)
    ensures (forall w: nat :: v <= w < v + n && Lookup(m, r, w).Some? ==> Lookup(m, r, w).value.owned) ==>
              LentIn(m, r, v, n) == {} && LentOnce(m, r, v, n)
  {
    hide Good, Lookup;
  }

  /** Page v + k, the next to be unmapped. */
  lemma LentNext(m0: Mem, m: Mem, r: nat, v: nat, k: nat, n: nat)
    requires Clears(m0, m, r, v, k) && k < n && v + n <= MAXPAGES
    ensures LentAt(m, r, v + k) == LentAt(m0, r, v + k) && OwnedAt(m, r, v + k) == OwnedAt(m0, r, v + k)
    ensures LentIn(m0, r, v, k + 1) == LentIn(m0, r, v, k) + LentAt(m0, r, v + k)
    ensures LentAt(m0, r, v + k) <= LentIn(m0, r, v, n)
    ensures LentOnce(m0, r, v, n) ==> LentAt(m0, r, v + k) !! LentIn(m0, r, v, k)
    ensures NoneOwned(m0, r, v, n) ==> !OwnedAt(m0, r, v + k)
  {
    hide Good, Lookup, OnlyTouches;
  }

  lemma ChangesRefl(m: Mem, r: nat)
    requires Good(m) && IsRoot(m, r)
    ensures Changes(m, m, r)
  {
  }

  lemma ChangesTrans(m: Mem, m1: Mem, m2: Mem, r: nat)
    requires Changes(m, m1, r) && Changes(m1, m2, r)
    ensures Changes(m, m2, r)
  {
    hide Good, Mine;
    TouchesTrans(m, m1, m2, r);
  }

  lemma MapsNothing(m: Mem, r: nat, v: nat, q: nat, flags: nat, own: bool)
    requires Good(m) && IsRoot(m, r)
    ensures MapsRange(m, m, r, v, 0, q, flags, own)
  {
    ChangesRefl(m, r);
  }

  lemma MapsMore(m0: Mem, m: Mem, m': Mem, r: nat, v: nat, n: nat, q: nat, flags: nat, own: bool)
    requires MapsRange(m0, m, r, v, n, q, flags, own) && SetsTo(m, m', r, v + n, Some(Mapping(q + n, flags, own)))
    requires Keeps(m, m')
    ensures MapsRange(m0, m', r, v, n + 1, q, flags, own)
  {
    hide Good, OnlyTouches, Lookup;
    ChangesTrans(m0, m, m', r);
  }

  lemma MapsGrow(m0: Mem, m: Mem, m': Mem, r: nat, v: nat, n: nat, q: nat, flags: nat, own: bool)
    requires MapsRange(m0, m, r, v, n, q, flags, own) && Grows(m, m', r)
    ensures MapsRange(m0, m', r, v, n, q, flags, own)
  {
    hide Good, OnlyTouches, Lookup;
    ChangesTrans(m0, m, m', r);
  }

  lemma ClearsNothing(m: Mem, r: nat, v: nat)
    requires Good(m) && IsRoot(m, r)
    ensures Clears(m, m, r, v, 0)
  {
    ChangesRefl(m, r);
  }

  lemma ClearsMore(m0: Mem, m: Mem, m': Mem, r: nat, v: nat, n: nat)
    requires Clears(m0, m, r, v, n) && SetsTo(m, m', r, v + n, None)
    ensures Clears(m0, m', r, v, n + 1)
  {
    hide Good, OnlyTouches, Lookup;
    ChangesTrans(m0, m, m', r);
  }

  /** A lent page keeps its use. */
  lemma LentKept(m: Mem, m': Mem, r: nat, p: nat)
    requires OnlyTouches(m, m', r) && p in m.use && IsLent(m.use[p])
    ensures p in m'.use && m'.use[p] == m.use[p]
  {
    assert !Mine(m, p, r);
    assert Untouched(m, m', p);
  }

  /** The mapping of page v of r is now x, and nothing else is mapped differently. */
  ghost predicate SetsTo(m: Mem, m': Mem, r: nat, v: nat, x: Option<Mapping>) {
    && Good(m) && Good(m') && IsRoot(m, r) && IsRoot(m', r) && OnlyTouches(m, m', r)
    && forall w: nat :: w < MAXPAGES ==> Lookup(m', r, w) == if w == v then x else Lookup(m, r, w)
  }

  lemma SetsNone(m: Mem, r: nat, v: nat)
    requires Good(m) && IsRoot(m, r)
    ensures Lookup(m, r, v).None? ==> SetsTo(m, m, r, v, None)
  {
  }

  lemma Found(m: Mem, r: nat, v: nat)
    requires Good(m) && IsRoot(m, r)
    ensures r in m.tables && (Walk(m, r, v).Some? ==> LastLevel(m, Walk(m, r, v).value))
    ensures Walk(m, r, v).None? ==> Lookup(m, r, v).None?
    ensures Walk(m, r, v).Some? && !Present(m.tables[Walk(m, r, v).value][Px(0, v)]) ==> Lookup(m, r, v).None?
  {
    WalkTable(m, r, v);
  }

  /** Walking for a new mapping does not disturb the page to be mapped. */
  lemma GrowsUse(m0: Mem, m: Mem, r: nat, v: nat, q: nat, held: set<nat>)
    requires Grows(m0, m, r) && Walk(m, r, v).Some? && Lookup(m0, r, v).None?
    ensures var t := Walk(m, r, v).value;
      LastLevel(m, t) && IsRoot(m, r) && !Present(m.tables[t][Px(0, v)]) && t in m.use
    ensures q in m0.use && IsLent(m0.use[q]) ==> q in m.use && m.use[q] == m0.use[q]
    ensures Keeps(m0, m)
  {
    WalkTable(m, r, v);
    assert Lookup(m, r, v) == Lookup(m0, r, v);
  }

  lemma SetTouches(m: Mem, t: nat, k: nat, e: Pte, q: nat, u: Use, r: nat)
    requires t in m.tables && k < |m.tables[t]| && Mine(m, t, r) && q in m.use && q !in m.tables && q != t
    requires || (IsLent(m.use[q]) && u == m.use[q])
             || (m.use[q].Free? && u.Frame? && u.root == r)
             || (Mine(m, q, r) && u.Free?)
    ensures OnlyTouches(m, SetEntry(m, t, k, e, q, u), r)
  {
  }

  lemma SetsMap(m: Mem, t: nat, q: nat, flags: nat, r: nat, v: nat)
    requires LastLevel(m, t) && IsRoot(m, r) && v < MAXPAGES
    requires Walk(m, r, v) == Some(t) && !Present(m.tables[t][Px(0, v)])
    requires q in m.use && (m.use[q].Free? || IsLent(m.use[q])) && Present(Pte(q, flags)) && Maps(Pte(q, flags))
    ensures var m' := if m.use[q].Free? then MapFrame(m, t, Px(0, v), q, flags) else MapLent(m, t, Px(0, v), q, flags);
      Good(m') && IsRoot(m', r) && SetsTo(m, m', r, v, Some(Mapping(q, flags, m.use[q].Free?)))
  {
    hide EntryRight, HeldRight, Lookup, OnlyTouches;
    var m' := if m.use[q].Free? then MapFrame(m, t, Px(0, v), q, flags) else MapLent(m, t, Px(0, v), q, flags);
    WalkTable(m, r, v);
    MapLookup(m, t, q, flags, r, v, r, v);
    EntryAt(m, t, Px(0, v));
    var u := if m.use[q].Free? then Frame(t, Px(0, v), RootOf(m, t)) else m.use[q];
    SetTouches(m, t, Px(0, v), Pte(q, flags), q, u, r);
    forall w: nat | w < MAXPAGES
      ensures Lookup(m', r, w) == if w == v then Some(Mapping(q, flags, m.use[q].Free?)) else Lookup(m, r, w)
    {
      MapLookup(m, t, q, flags, r, v, r, w);
    }
  }

  lemma SetsUnmap(m: Mem, t: nat, r: nat, v: nat)
    requires LastLevel(m, t) && IsRoot(m, r) && v < MAXPAGES
    requires Walk(m, r, v) == Some(t) && Present(m.tables[t][Px(0, v)])
    ensures Good(Unmap(m, t, Px(0, v))) && SetsTo(m, Unmap(m, t, Px(0, v)), r, v, None)
    ensures m.tables[t][Px(0, v)].ppn in m.use
    ensures Lookup(m, r, v).Some? && Lookup(m, r, v).value.owned == m.use[m.tables[t][Px(0, v)].ppn].Frame?
    ensures !m.use[m.tables[t][Px(0, v)].ppn].Free?
  {
    var m' := Unmap(m, t, Px(0, v));
    WalkTable(m, r, v);
    EntryUse(m, r, v);
    UnmapLookup(m, t, r, v, r, v);
    hide EntryRight, HeldRight, Lookup, OnlyTouches;
    EntryAt(m, t, Px(0, v));
    var q := m.tables[t][Px(0, v)].ppn;
    SetTouches(m, t, Px(0, v), NO_PTE, q, if m.use[q].Frame? then Free else m.use[q], r);
    forall w: nat | w < MAXPAGES ensures Lookup(m', r, w) == if w == v then None else Lookup(m, r, w) {
      UnmapLookup(m, t, r, v, r, w);
    }
  }

  lemma GrowsSets(m: Mem, m1: Mem, m2: Mem, r: nat, v: nat, x: Option<Mapping>)
    requires Grows(m, m1, r) && SetsTo(m1, m2, r, v, x)
    ensures SetsTo(m, m2, r, v, x)
  {
    hide Lookup, EntryRight, HeldRight, Mine;
    TouchesTrans(m, m1, m2, r);
  }

  /** Tables have been added to the address space of r; no translation has changed. */
  ghost predicate Grows(m: Mem, m': Mem, r: nat) {
    hide Walk;
    && Good(m) && Good(m') && IsRoot(m, r) && IsRoot(m', r) && OnlyTouches(m, m', r)
    && (forall w: nat :: Lookup(m', r, w) == Lookup(m, r, w))
    && Keeps(m, m')
  }

  lemma GrowsRefl(m: Mem, r: nat)
    requires Good(m) && IsRoot(m, r)
    ensures Grows(m, m, r) && r in m.tables && OnPath(m, r, r, 0) && Level(m.use[r]) == ROOT_LEVEL
    ensures forall v: nat :: OnPath(m, r, r, v)
  {
  }

  lemma GrowsTrans(m: Mem, m1: Mem, m2: Mem, r: nat)
    requires Grows(m, m1, r) && Grows(m1, m2, r)
    ensures Grows(m, m2, r) && r in m2.tables && IsRoot(m2, r)
  {
    hide Lookup, EntryRight, HeldRight, Mine;
    TouchesTrans(m, m1, m2, r);
  }

  lemma EntryAt(m: Mem, p: nat, i: nat)
    requires Good(m) && p in m.tables && i < ENTRIES
    ensures |m.tables[p]| == ENTRIES && p in m.use && EntryRight(m, p, i)
    ensures Level(m.use[p]) > 0 && Present(m.tables[p][i]) ==> m.tables[p][i].ppn in m.tables
  {
    assert EntryRight(m, p, i);
  }

  /** Adding the missing table on the path of a walk. */
  lemma AddLower(m: Mem, r: nat, p: nat, i: nat, q: nat, v: nat)
    requires CanAddTable(m, p, i, q) && IsRoot(m, r) && i == Px(Level(m.use[p]), v) && OnPath(m, r, p, v)
    ensures Grows(m, AddTable(m, p, i, q), r) && OnPath(AddTable(m, p, i, q), r, q, v)
    ensures q in AddTable(m, p, i, q).tables && Good(AddTable(m, p, i, q))
  {
    var m' := AddTable(m, p, i, q);
    OnPathWalk(m, r, p, v);
    AddTableGood(m, p, i, q);
    AddTablePath(m, p, q, r, v);
    hide EntryRight, HeldRight;
    forall w: nat ensures Lookup(m', r, w) == Lookup(m, r, w) {
      AddTableLookup(m, p, i, q, r, w);
    }
  }
}
