/** Shared-memory segments (shmget, shmat and shmdt of kernel/sysproc.c, and the part of freeproc
    in kernel/proc.c that detaches), on values: what keeps the invariant of all address spaces. */
module Shm {
  import opened Options
  import opened PageTable
  import opened Sets
  import opened Spaces
  import opened Vm

  // ---------------------------------------------------------------- a segment made and dropped

  ghost function IndexOf(pages: seq<nat>, p: nat): nat
    requires p in pages
  {
    var j: nat :| j < |pages| && pages[j] == p;
    j
  }

  ghost function Labelled(u: map<nat, Use>, id: nat, pages: seq<nat>): map<nat, Use> {
    map p | p in u :: if p in pages then Shared(id, IndexOf(pages, p)) else u[p]
  }

  ghost function WithSeg(w: World, id: nat, key: int, size: int, pages: seq<nat>): World
    requires id < |w.segs|
  {
    w.(segs := w.segs[id := Seg(true, key, size, |pages|, 0, pages)], kernel := w.kernel - Elements(pages))
  }

  /** No process is attached to a segment that is not in use. */
  lemma Unattached(w: World, r: nat, id: nat)
    requires Counts(w) && r in w.procs && id < MAX_SHM && w.segs[id].refcount == 0
    ensures w.procs[r].shmVa[id] == 0
  {
    assert Counted(w, id);
    assert r in Holders(w, id) <==> w.procs[r].shmVa[id] != 0;
  }

  /** A segment whose pages were the kernel's. */
  lemma NewSegment(m: Mem, w: World, id: nat, key: int, size: int, pages: seq<nat>)
    requires Inv(m, w) && id < MAX_SHM && !w.segs[id].used && 0 < |pages| <= MAX_SHM_PG && Distinct(pages)
    requires forall p :: p in pages ==> p in w.kernel && p != w.trampoline
    requires forall i :: 0 <= i < MAX_SHM && w.segs[i].used ==> w.segs[i].key != key
    ensures Inv(m.(use := Labelled(m.use, id, pages)), WithSeg(w, id, key, size, pages))
    ensures SameMaps(m, m.(use := Labelled(m.use, id, pages)))
  {
    var m', w' := m.(use := Labelled(m.use, id, pages)), WithSeg(w, id, key, size, pages);
    hide Good, SpaceRight, ProcShaped, SameMaps;
    RelabelledMaps(m, m');
    assert Counted(w, id);
    forall r | r in w.procs ensures SameLent(w, w', w.procs[r]) {
      Unattached(w, r, id);
    }
    TablesRelabelled(m, m', w, w');
    SegmentNames(m, w, id, key, size, pages);
    SegmentCounts(w, id, w'.segs[id], w');
  }

  lemma SegmentNames(m: Mem, w: World, id: nat, key: int, size: int, pages: seq<nat>)
    requires Named(m, w) && Known(m, w) && id < |w.segs| && w.segs[id].pa == [] && Distinct(pages)
    requires forall p :: p in pages ==> p in w.kernel && p != w.trampoline
    ensures Named(m.(use := Labelled(m.use, id, pages)), WithSeg(w, id, key, size, pages))
    ensures Known(m.(use := Labelled(m.use, id, pages)), WithSeg(w, id, key, size, pages))
  {
    var m', w' := m.(use := Labelled(m.use, id, pages)), WithSeg(w, id, key, size, pages);
    forall r | r in w'.procs ensures TrapPage(m', w'.procs, r) {
      assert TrapPage(m, w.procs, r);
    }
    forall i, j | 0 <= i < |w'.segs| && 0 <= j < |w'.segs[i].pa| ensures SegPage(m', w'.segs, i, j) {
      if i == id {
        assert pages[j] in pages && IndexOf(pages, pages[j]) == j;
      } else {
        assert SegPage(m, w.segs, i, j);
      }
    }
    forall p | p in m'.use ensures KnownPage(m', w', p) {
      assert KnownPage(m, w, p);
    }
  }

  /** A segment that nobody has attached may be made or dropped. */
  lemma SegmentCounts(w: World, id: nat, s: Seg, w': World)
    requires Counts(w) && id < MAX_SHM && w.segs[id].refcount == 0 && w'.segs == w.segs[id := s] && w'.procs == w.procs
    requires s.refcount == 0 && if s.used then 0 < |s.pa| == s.npages <= MAX_SHM_PG else s.pa == []
    requires s.used ==> forall i :: 0 <= i < MAX_SHM && i != id && w.segs[i].used ==> w.segs[i].key != s.key
    ensures Counts(w')
  {
    forall i | 0 <= i < MAX_SHM ensures Counted(w', i) {
      assert Counted(w, i);
      assert Holders(w', i) == Holders(w, i);
    }
  }

  /** What shmget leaves in a slot when memory runs out does not matter. */
  lemma LeftOver(m: Mem, w: World, id: nat, s: Seg)
    requires Inv(m, w) && id < MAX_SHM && !w.segs[id].used && !s.used && s.pa == [] && s.refcount == 0
    ensures Inv(m, w.(segs := w.segs[id := s]))
  {
    var w' := w.(segs := w.segs[id := s]);
    assert Counted(w, id);
    SegmentCounts(w, id, s, w');
    hide SpaceRight, ProcShaped, Counts;
    forall r | r in w.procs ensures SpaceRight(m, w'.segs, w'.trampoline, r, w'.procs[r]) {
      MovedSpace(m, m, w, w', r, w.procs[r]);
    }
    forall i, j | 0 <= i < |w'.segs| && 0 <= j < |w'.segs[i].pa| ensures SegPage(m, w'.segs, i, j) {
      assert SegPage(m, w.segs, i, j);
    }
    forall p | p in m.use ensures KnownPage(m, w', p) {
      assert KnownPage(m, w, p);
    }
  }

  ghost function BackToKernel(u: map<nat, Use>, pages: seq<nat>): map<nat, Use> {
    map p | p in u :: if p in pages then Kernel else u[p]
  }

  ghost function WithoutSeg(w: World, id: nat): World
    requires id < |w.segs|
  {
    w.(segs := w.segs[id := NO_SEG], kernel := w.kernel + Elements(w.segs[id].pa))
  }

  /** When the last process has gone, the pages of the segment are the kernel's again, and as such
      mapped nowhere. */
  lemma LastGone(m: Mem, w: World, id: nat)
    requires Inv(m, w) && id < MAX_SHM && w.segs[id].refcount == 0
    ensures Inv(m.(use := BackToKernel(m.use, w.segs[id].pa)), WithoutSeg(w, id))
    ensures SameMaps(m, m.(use := BackToKernel(m.use, w.segs[id].pa)))
    ensures Distinct(w.segs[id].pa) && w.trampoline !in w.segs[id].pa
    ensures forall p :: p in w.segs[id].pa ==> p in m.use && m.use[p].Shared? && p !in w.kernel
  {
    var pa, w' := w.segs[id].pa, WithoutSeg(w, id);
    var m' := m.(use := BackToKernel(m.use, pa));
    hide Good, SpaceRight, ProcShaped, SameMaps;
    forall j | 0 <= j < |pa| ensures pa[j] in m.use && m.use[pa[j]] == Shared(id, j) {
      assert SegPage(m, w.segs, id, j);
    }
    RelabelledMaps(m, m');
    forall r | r in w.procs ensures SameLent(w, w', w.procs[r]) {
      Unattached(w, r, id);
    }
    TablesRelabelled(m, m', w, w');
    DroppedNames(m, w, id);
    SegmentCounts(w, id, NO_SEG, w');
  }

  lemma DroppedNames(m: Mem, w: World, id: nat)
    requires Named(m, w) && Known(m, w) && id < |w.segs|
    ensures Named(m.(use := BackToKernel(m.use, w.segs[id].pa)), WithoutSeg(w, id))
    ensures Known(m.(use := BackToKernel(m.use, w.segs[id].pa)), WithoutSeg(w, id))
  {
    var pa, w' := w.segs[id].pa, WithoutSeg(w, id);
    var m' := m.(use := BackToKernel(m.use, pa));
    forall p | p in pa ensures p in m.use && m.use[p].Shared? && m.use[p].seg == id {
      var j :| 0 <= j < |pa| && pa[j] == p;
      assert SegPage(m, w.segs, id, j);
    }
    forall r | r in w'.procs ensures TrapPage(m', w'.procs, r) {
      assert TrapPage(m, w.procs, r);
    }
    forall i, j | 0 <= i < |w'.segs| && 0 <= j < |w'.segs[i].pa| ensures SegPage(m', w'.segs, i, j) {
      assert SegPage(m, w.segs, i, j);
    }
    forall p | p in m'.use ensures KnownPage(m', w', p) {
      assert KnownPage(m, w, p);
    }
  }

  // ---------------------------------------------------------------- attaching and detaching

  ghost function SetAttached(w: World, r: nat, id: nat, va: nat): World
    requires Shaped(w) && r in w.procs && id < MAX_SHM
  {
    var p := w.procs[r];
    w.(procs := w.procs[r := p.(shmVa := p.shmVa[id := va])],
       segs := w.segs[id := w.segs[id].(refcount := w.segs[id].refcount + if va != 0 then 1 else -1)])
  }

  /** The region of the segment is mapped (va not 0) or clear, and nothing else has changed. */
  ghost predicate RegionSet(m: Mem, m': Mem, pa: seq<nat>, r: nat, id: nat, va: nat)
    requires id < MAX_SHM && Changes(m, m', r)
  {
    forall v: nat :: v < MAXPAGES ==>
      Lookup(m', r, v) ==
        if Region(id) <= v < Region(id) + |pa|
        then (if va != 0 then Some(Mapping(pa[v - Region(id)], SHARED, false)) else None)
        else Lookup(m, r, v)
  }

  lemma CountAttached(w: World, r: nat, id: nat, va: nat, i: nat)
    requires Shaped(w) && r in w.procs && id < MAX_SHM && i < MAX_SHM && Counted(w, i) && w.segs[id].used
    requires (va == 0) != (w.procs[r].shmVa[id] == 0) && Shaped(SetAttached(w, r, id, va))
    ensures Counted(SetAttached(w, r, id, va), i)
  {
    var w' := SetAttached(w, r, id, va);
    var before, after := Holders(w, i), Holders(w', i);
    forall x | x != r ensures x in after <==> x in before {
      assert x in w.procs ==> w'.procs[x] == w.procs[x];
    }
    assert r in before <==> w.procs[r].shmVa[i] != 0;
    assert r in after <==> w'.procs[r].shmVa[i] != 0;
    hide Holders;
    if i != id {
      assert after == before;
    } else if va != 0 {
      assert after == before + {r};
    } else {
      assert before == after + {r};
    }
  }

  /** The page tables agree with an attachment made or undone. */
  lemma AttachedInv(m: Mem, m': Mem, w: World, r: nat, id: nat, va: nat)
    requires Inv(m, w) && r in w.procs && id < MAX_SHM && w.segs[id].used && Changes(m, m', r)
    requires (va == 0 && w.procs[r].shmVa[id] != 0) || (va == Region(id) && w.procs[r].shmVa[id] == 0)
    requires RegionSet(m, m', w.segs[id].pa, r, id, va)
    ensures Inv(m', SetAttached(w, r, id, va))
  {
    var w' := SetAttached(w, r, id, va);
    assert Shaped(w');
    hide OnlyTouches, Good, SpaceRight, Lookup, Elsewhere;
    TouchesElsewhere(m, m', r);
    NamesKept(m, m', w, r);
    AttachedSpace(m, m', w, r, id, va);
    OthersKept(m, m', w, w', r);
    AttachedNames(m', w, r, id, va);
    forall i | 0 <= i < MAX_SHM ensures Counted(w', i) {
      assert Counted(w, i);
      CountAttached(w, r, id, va, i);
    }
  }

  lemma AttachedNames(m: Mem, w: World, r: nat, id: nat, va: nat)
    requires Named(m, w) && Known(m, w) && Shaped(w) && r in w.procs && id < MAX_SHM
    ensures Named(m, SetAttached(w, r, id, va)) && Known(m, SetAttached(w, r, id, va))
  {
    var w' := SetAttached(w, r, id, va);
    forall x | x in w'.procs ensures TrapPage(m, w'.procs, x) {
      assert TrapPage(m, w.procs, x);
    }
    forall i, j | 0 <= i < |w'.segs| && 0 <= j < |w'.segs[i].pa| ensures SegPage(m, w'.segs, i, j) {
      assert SegPage(m, w.segs, i, j);
    }
    forall p | p in m.use ensures KnownPage(m, w', p) {
      assert KnownPage(m, w, p);
    }
  }

  lemma AttachedSpace(m: Mem, m': Mem, w: World, r: nat, id: nat, va: nat)
    requires Inv(m, w) && r in w.procs && id < MAX_SHM && w.segs[id].used && Changes(m, m', r)
    requires (va == 0 && w.procs[r].shmVa[id] != 0) || (va == Region(id) && w.procs[r].shmVa[id] == 0)
    requires RegionSet(m, m', w.segs[id].pa, r, id, va)
    ensures var w' := SetAttached(w, r, id, va); SpaceRight(m', w'.segs, w'.trampoline, r, w'.procs[r])
  {
    var w', p, t := SetAttached(w, r, id, va), w.procs[r], w.trampoline;
    var p' := w'.procs[r];
    assert Counted(w, id);
    assert SpaceRight(m, w.segs, t, r, p);
    hide OnlyTouches, Good, Lookup;
    forall v: nat | v < MAXPAGES ensures PageRight(m', w'.segs, t, r, p', v) {
      assert PageRight(m, w.segs, t, r, p, v);
      SlotAt(v, id, 0);
    }
  }

  /** The first n pages of the segment are mapped in its region, and nothing else has changed. */
  ghost predicate Mapped(m: Mem, m': Mem, r: nat, va: nat, pa: seq<nat>, n: nat) {
    && Changes(m, m', r) && Keeps(m, m') && n <= |pa|
    && forall v: nat :: v < MAXPAGES ==>
         Lookup(m', r, v) == if va <= v < va + n then Some(Mapping(pa[v - va], SHARED, false)) else Lookup(m, r, v)
  }

  lemma MappedNothing(m: Mem, r: nat, va: nat, pa: seq<nat>)
    requires Good(m) && IsRoot(m, r)
    ensures Mapped(m, m, r, va, pa, 0)
  {
    ChangesRefl(m, r);
  }

  lemma MappedMore(m0: Mem, m: Mem, m': Mem, r: nat, va: nat, pa: seq<nat>, n: nat)
    requires Mapped(m0, m, r, va, pa, n) && n < |pa| && MapsRange(m, m', r, va + n, 1, pa[n], SHARED, false)
    ensures Mapped(m0, m', r, va, pa, n + 1)
  {
    hide Good, Lookup, OnlyTouches;
    ChangesTrans(m0, m, m', r);
  }

  lemma MappedFailed(m0: Mem, m: Mem, m': Mem, r: nat, va: nat, pa: seq<nat>, n: nat)
    requires Mapped(m0, m, r, va, pa, n) && n < |pa| && MapsRange(m, m', r, va + n, 0, pa[n], SHARED, false)
    ensures Mapped(m0, m', r, va, pa, n)
  {
    hide Good, Lookup, OnlyTouches;
    ChangesTrans(m0, m, m', r);
  }

  lemma MappedCleared(m0: Mem, m: Mem, m': Mem, r: nat, va: nat, pa: seq<nat>, n: nat)
    requires Mapped(m0, m, r, va, pa, n) && Clears(m, m', r, va, n) && Good(m0) && IsRoot(m0, r)
    requires forall v: nat :: va <= v < va + n ==> Lookup(m0, r, v).None?
    ensures Clears(m0, m', r, 0, 0)
  {
    hide Good, Lookup, OnlyTouches;
    ChangesTrans(m0, m, m', r);
  }

  lemma MappedNext(m0: Mem, m: Mem, r: nat, va: nat, pa: seq<nat>, n: nat)
    requires Mapped(m0, m, r, va, pa, n) && n < |pa| && va + n < MAXPAGES && Good(m0) && IsRoot(m0, r)
    requires pa[n] in m0.use && IsLent(m0.use[pa[n]])
    ensures Lookup(m, r, va + n) == Lookup(m0, r, va + n) && pa[n] in m.use && IsLent(m.use[pa[n]])
  {
    hide Good, Lookup, OnlyTouches;
  }

  lemma MappedRegion(m: Mem, m': Mem, r: nat, id: nat, pa: seq<nat>)
    requires id < MAX_SHM && Mapped(m, m', r, Region(id), pa, |pa|)
    ensures Changes(m, m', r) && RegionSet(m, m', pa, r, id, Region(id))
  {
    hide Good, Lookup, OnlyTouches;
  }

  lemma ClearedRegion(m: Mem, m': Mem, r: nat, id: nat, pa: seq<nat>)
    requires id < MAX_SHM && Clears(m, m', r, Region(id), |pa|)
    ensures Changes(m, m', r) && RegionSet(m, m', pa, r, id, 0)
  {
    hide Good, Lookup, OnlyTouches;
  }

  lemma MappedShared(m0: Mem, m: Mem, r: nat, va: nat, pa: seq<nat>, n: nat)
    requires Mapped(m0, m, r, va, pa, n) && va + n <= MAXPAGES
    ensures forall v: nat :: va <= v < va + n ==> Lookup(m, r, v).Some? && !Lookup(m, r, v).value.owned
  {
    hide Good, Lookup, OnlyTouches;
  }

  lemma ClearedShared(m: Mem, m': Mem, r: nat, va: nat, k: nat, n: nat)
    requires Clears(m, m', r, va, k) && k < n && va + n <= MAXPAGES
    requires forall v: nat :: va <= v < va + n ==> Lookup(m, r, v).Some? && !Lookup(m, r, v).value.owned
    ensures Lookup(m', r, va + k).Some? && !Lookup(m', r, va + k).value.owned
  {
    hide Good, Lookup, OnlyTouches;
  }

  lemma ClearsOneMore(m0: Mem, m: Mem, m': Mem, r: nat, va: nat, k: nat)
    requires Clears(m0, m, r, va, k) && Clears(m, m', r, va + k, 1)
    ensures Clears(m0, m', r, va, k + 1) && IsRoot(m', r)
  {
    hide Good, Lookup, OnlyTouches;
    ChangesTrans(m0, m, m', r);
  }

  /** Segment id as process r has it. */
  lemma RegionOf(m: Mem, w: World, r: nat, id: nat)
    requires Inv(m, w) && r in w.procs && id < MAX_SHM
    ensures Good(m) && IsRoot(m, r) && |w.segs[id].pa| <= MAX_SHM_PG
    ensures (w.segs[id].used ==> |w.segs[id].pa| == w.segs[id].npages)
    ensures w.procs[r].shmVa[id] == 0 || w.procs[r].shmVa[id] == Region(id)
    ensures w.procs[r].shmVa[id] != 0 ==> w.segs[id].used && w.segs[id].refcount > 0
    ensures w.procs[r].shmVa[id] != 0 ==>
      forall v: nat :: Region(id) <= v < Region(id) + |w.segs[id].pa| ==>
        Lookup(m, r, v).Some? && !Lookup(m, r, v).value.owned
    ensures forall j :: 0 <= j < |w.segs[id].pa| ==> w.segs[id].pa[j] in m.use && IsLent(m.use[w.segs[id].pa[j]])
  {
    hide Good, Lookup;
    assert Counted(w, id);
    assert r in Holders(w, id) <==> w.procs[r].shmVa[id] != 0;
    forall v: nat | w.procs[r].shmVa[id] != 0 && Region(id) <= v < Region(id) + |w.segs[id].pa|
      ensures Lookup(m, r, v).Some? && !Lookup(m, r, v).value.owned
    {
      SameView(m, w, r, r, id, v - Region(id));
    }
    forall j | 0 <= j < |w.segs[id].pa| ensures w.segs[id].pa[j] in m.use && IsLent(m.use[w.segs[id].pa[j]]) {
      assert SegPage(m, w.segs, id, j);
    }
  }
}
