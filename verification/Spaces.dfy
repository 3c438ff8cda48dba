/** The memory of all processes: what every address space maps, whose every page is, and how often
    every shared segment is attached (kernel/proc.c, kernel/sysproc.c and kernel/shm.h).

    Processes are named by the roots of their page tables. */
module Spaces {
  import opened Options
  import opened PageTable
  import opened Vm

  const MAX_SHM: nat := 8
  const MAX_SHM_PG: nat := 4
  const MAX_SHM_SIZE: nat := 16384
  const SHARED: nat := PTE_V + PTE_R + PTE_W + PTE_U

  datatype Seg = Seg(used: bool, key: int, size: int, npages: nat, refcount: int, pa: seq<nat>)

  const NO_SEG: Seg := Seg(false, 0, 0, 0, 0, [])

  /** shmVa holds the page where each segment is attached, 0 for not attached. */
  datatype Proc = Proc(sz: nat, trapframe: nat, shmVa: seq<nat>)

  /** `kernel` are the pages the kernel keeps for itself. */
  datatype World = World(procs: map<nat, Proc>, segs: seq<Seg>, kernel: set<nat>, trampoline: nat)

  /** The page where segment id is attached. */
  function Region(id: nat): (v: nat)
    requires id < MAX_SHM
    ensures TRAPFRAME - 32 <= v <= TRAPFRAME - 4
  {
    TRAPFRAME - (id + 1) * MAX_SHM_PG
  }

  /** Regions of different segments do not overlap, and lie below the trapframe. */
  lemma RegionsApart(id: nat, j: nat, id': nat, j': nat)
    requires id < MAX_SHM && id' < MAX_SHM && j < MAX_SHM_PG && j' < MAX_SHM_PG && Region(id) + j == Region(id') + j'
    ensures id == id' && j == j' && Region(id) + j < TRAPFRAME
  {
  }

  ghost predicate ProcShaped(p: Proc) {
    && |p.shmVa| == MAX_SHM && p.sz <= TRAPFRAME * 4096
    && forall id :: 0 <= id < MAX_SHM ==> p.shmVa[id] == 0 || p.shmVa[id] == Region(id)
  }

  ghost predicate Shaped(w: World) {
    |w.segs| == MAX_SHM && forall r :: r in w.procs ==> ProcShaped(w.procs[r])
  }

  /** The segment and the page of it that have their place at page v. */
  function Slot(v: nat): (nat, nat)
    requires Region(MAX_SHM - 1) <= v < TRAPFRAME
  {
    ((TRAPFRAME - 1 - v) / MAX_SHM_PG, (v - (TRAPFRAME - 32)) % MAX_SHM_PG)
  }

  lemma SlotAt(v: nat, id: nat, j: nat)
    requires id < MAX_SHM && j < MAX_SHM_PG
    ensures Region(MAX_SHM - 1) <= Region(id) + j < TRAPFRAME && Slot(Region(id) + j) == (id, j)
    ensures Region(MAX_SHM - 1) <= v < TRAPFRAME ==>
      Slot(v).0 < MAX_SHM && Slot(v).1 < MAX_SHM_PG && v == Region(Slot(v).0) + Slot(v).1
  {
  }

  /** Does the process have page j of segment id attached? */
  predicate HasPage(segs: seq<Seg>, p: Proc, id: nat, j: nat) {
    id < |segs| && id < |p.shmVa| && p.shmVa[id] != 0 && j < |segs[id].pa|
  }

  ghost predicate HasSegment(segs: seq<Seg>, p: Proc, v: nat) {
    Region(MAX_SHM - 1) <= v < TRAPFRAME && HasPage(segs, p, Slot(v).0, Slot(v).1)
  }

  /** What a process maps at page v without owning it: trampoline, trapframe, and the pages of the
      segments it is attached to. */
  ghost function Lent(segs: seq<Seg>, trampoline: nat, p: Proc, v: nat): Option<Mapping> {
    if v == TRAMPOLINE then Some(Mapping(trampoline, PTE_V + PTE_R + PTE_X, false))
    else if v == TRAPFRAME then Some(Mapping(p.trapframe, PTE_V + PTE_R + PTE_W, false))
    else if HasSegment(segs, p, v) then Some(Mapping(segs[Slot(v).0].pa[Slot(v).1], SHARED, false))
    else None
  }

  /** Apart from what is lent, pages below the size are owned or not yet there, and above it there
      is nothing. */
  ghost predicate PageRight(m: Mem, segs: seq<Seg>, trampoline: nat, r: nat, p: Proc, v: nat)
    requires Good(m) && IsRoot(m, r)
  {
    var x, y := Lookup(m, r, v), Lent(segs, trampoline, p, v);
    if y.Some? then x == y else if v < Pages(p.sz) then x.Some? ==> x.value.owned else x.None?
  }

  ghost predicate SpaceRight(m: Mem, segs: seq<Seg>, trampoline: nat, r: nat, p: Proc) {
    && Good(m) && IsRoot(m, r)
    && forall v: nat {:trigger PageRight(m, segs, trampoline, r, p, v)} ::
         v < MAXPAGES ==> PageRight(m, segs, trampoline, r, p, v)
  }

  /** The roots are those of the processes, each with the address space it should have. */
  ghost predicate Tables(m: Mem, w: World) {
    && Good(m) && Shaped(w)
    && (forall r :: IsRoot(m, r) <==> r in w.procs)
    && (forall r :: r in w.procs ==> SpaceRight(m, w.segs, w.trampoline, r, w.procs[r]))
  }

  ghost predicate SegPage(m: Mem, segs: seq<Seg>, id: nat, j: nat)
    requires id < |segs| && j < |segs[id].pa|
  {
    segs[id].pa[j] in m.use && m.use[segs[id].pa[j]] == Shared(id, j)
  }

  ghost predicate TrapPage(m: Mem, procs: map<nat, Proc>, r: nat)
    requires r in procs
  {
    procs[r].trapframe in m.use && m.use[procs[r].trapframe] == Trapframe(r)
  }

  /** The pages of the kernel, of processes and of segments have the use they should have. */
  ghost predicate Named(m: Mem, w: World) {
    && w.trampoline in w.kernel
    && (forall p :: p in w.kernel ==> p in m.use && m.use[p] == Kernel)
    && (forall r {:trigger TrapPage(m, w.procs, r)} :: r in w.procs ==> TrapPage(m, w.procs, r))
    && (forall id, j {:trigger SegPage(m, w.segs, id, j)} ::
          0 <= id < |w.segs| && 0 <= j < |w.segs[id].pa| ==> SegPage(m, w.segs, id, j))
  }

  /** Page p, if it is lent, is the kernel's, the trapframe of a process or a page of a segment. */
  ghost predicate KnownPage(m: Mem, w: World, p: nat)
    requires p in m.use
  {
    match m.use[p]
    case Kernel => p in w.kernel
    case Trapframe(r) => r in w.procs && w.procs[r].trapframe == p
    case Shared(id, j) => id < |w.segs| && j < |w.segs[id].pa| && w.segs[id].pa[j] == p
    case _ => true
  }

  ghost predicate Known(m: Mem, w: World) {
    forall p {:trigger KnownPage(m, w, p)} :: p in m.use ==> KnownPage(m, w, p)
  }

  ghost function Holders(w: World, id: nat): set<nat>
    requires Shaped(w) && id < MAX_SHM
  {
    set r | r in w.procs && w.procs[r].shmVa[id] != 0
  }

  /** The reference count is the number of processes attached; only a segment in use has any. */
  ghost predicate Counted(w: World, id: nat)
    requires Shaped(w) && id < MAX_SHM
  {
    var s := w.segs[id];
    && s.refcount == |Holders(w, id)|
    && (if s.used then 0 < |s.pa| == s.npages <= MAX_SHM_PG else s.pa == [] && s.refcount == 0)
  }

  ghost predicate Keys(segs: seq<Seg>) {
    forall i, j :: 0 <= i < j < |segs| && segs[i].used && segs[j].used ==> segs[i].key != segs[j].key
  }

  ghost predicate Counts(w: World) {
    && Shaped(w) && Keys(w.segs)
    && forall id {:trigger Counted(w, id)} :: 0 <= id < MAX_SHM ==> Counted(w, id)
  }

  ghost predicate Inv(m: Mem, w: World) {
    Tables(m, w) && Named(m, w) && Known(m, w) && Counts(w)
  }

  // ---------------------------------------------------------------- one address space changes

  /** The process sees the same segments. */
  ghost predicate SameLent(w: World, w': World, p: Proc) {
    && w'.trampoline == w.trampoline && |w'.segs| == |w.segs|
    && forall id :: 0 <= id < |w.segs| && id < |p.shmVa| && p.shmVa[id] != 0 ==> w'.segs[id].pa == w.segs[id].pa
  }

  lemma SameLentAt(w: World, w': World, p: Proc, v: nat)
    requires SameLent(w, w', p)
    ensures Lent(w'.segs, w'.trampoline, p, v) == Lent(w.segs, w.trampoline, p, v)
  {
    SlotAt(v, 0, 0);
  }

  lemma MovedSpace(m: Mem, m': Mem, w: World, w': World, r: nat, p: Proc)
    requires SpaceRight(m, w.segs, w.trampoline, r, p) && SameLent(w, w', p) && Good(m') && IsRoot(m', r)
    requires forall v: nat :: v < MAXPAGES ==> Lookup(m', r, v) == Lookup(m, r, v)
    ensures SpaceRight(m', w'.segs, w'.trampoline, r, p)
  {
    hide Good, Lookup, Lent, SameLent;
    forall v: nat | v < MAXPAGES ensures PageRight(m', w'.segs, w'.trampoline, r, p, v) {
      assert PageRight(m, w.segs, w.trampoline, r, p, v);
      SameLentAt(w, w', p, v);
    }
  }

  /** Every translation of every process but r is as before. */
  ghost predicate Elsewhere(m: Mem, m': Mem, r: nat) {
    && Good(m) && Good(m')
    && (forall x :: x != r ==> (IsRoot(m, x) <==> IsRoot(m', x)))
    && (forall x, v: nat :: x != r && IsRoot(m, x) ==> Lookup(m', x, v) == Lookup(m, x, v))
  }

  lemma TouchesElsewhere(m: Mem, m': Mem, r: nat)
    requires Good(m) && Good(m') && OnlyTouches(m, m', r)
    ensures Elsewhere(m, m', r)
  {
    hide Good, Lookup, OnlyTouches;
    forall x | x != r ensures IsRoot(m, x) <==> IsRoot(m', x) {
      OtherRoots(m, m', r, x);
    }
    forall x, v: nat | x != r && IsRoot(m, x) ensures Lookup(m', x, v) == Lookup(m, x, v) {
      OtherLookup(m, m', r, x, v);
    }
  }

  lemma ElsewhereTrans(m: Mem, m1: Mem, m2: Mem, r: nat)
    requires Elsewhere(m, m1, r) && Elsewhere(m1, m2, r)
    ensures Elsewhere(m, m2, r)
  {
    hide Good, Lookup;
  }

  /** A change to r alone, which may be new or gone, leaves the other processes as they were. */
  lemma OthersKept(m: Mem, m': Mem, w: World, w': World, r: nat)
    requires Tables(m, w) && Shaped(w') && Elsewhere(m, m', r)
    requires forall x :: x != r ==> (x in w'.procs <==> x in w.procs)
    requires forall x :: x != r && x in w.procs ==> w'.procs[x] == w.procs[x] && SameLent(w, w', w.procs[x])
    requires r in w'.procs <==> IsRoot(m', r)
    requires r in w'.procs ==> SpaceRight(m', w'.segs, w'.trampoline, r, w'.procs[r])
    ensures Tables(m', w')
  {
    hide Good, Lookup, SpaceRight, SameLent, ProcShaped;
    forall x | x in w'.procs && x != r ensures SpaceRight(m', w'.segs, w'.trampoline, x, w'.procs[x]) {
      MovedSpace(m, m', w, w', x, w.procs[x]);
    }
  }

  /** Lent pages keep their use, and no page becomes lent. */
  lemma NamesKept(m: Mem, m': Mem, w: World, r: nat)
    requires Named(m, w) && Known(m, w) && OnlyTouches(m, m', r)
    ensures Named(m', w) && Known(m', w)
  {
    hide OnlyTouches;
    forall p | p in w.kernel ensures p in m'.use && m'.use[p] == Kernel {
      LentKept(m, m', r, p);
    }
    forall x | x in w.procs ensures TrapPage(m', w.procs, x) {
      assert TrapPage(m, w.procs, x);
      LentKept(m, m', r, w.procs[x].trapframe);
    }
    forall id, j | 0 <= id < |w.segs| && 0 <= j < |w.segs[id].pa| ensures SegPage(m', w.segs, id, j) {
      assert SegPage(m, w.segs, id, j);
      LentKept(m, m', r, w.segs[id].pa[j]);
    }
    forall p | p in m'.use ensures KnownPage(m', w, p) {
      LentBefore(m, m', r, p);
      assert p in m.use ==> KnownPage(m, w, p);
    }
  }

  lemma LentBefore(m: Mem, m': Mem, r: nat, p: nat)
    requires OnlyTouches(m, m', r) && p in m'.use
    ensures p in m.use && (IsLent(m'.use[p]) ==> m'.use[p] == m.use[p])
  {
    if IsLent(m'.use[p]) {
      assert !Mine(m', p, r);
      assert Untouched(m, m', p);
    }
  }

  /** Process r changes its own pages and its size; nothing else does. */
  lemma ChangeOne(m: Mem, m': Mem, w: World, r: nat, p: Proc)
    requires Inv(m, w) && r in w.procs && Changes(m, m', r) && ProcShaped(p)
    requires p.trapframe == w.procs[r].trapframe && p.shmVa == w.procs[r].shmVa
    requires SpaceRight(m', w.segs, w.trampoline, r, p)
    ensures Inv(m', w.(procs := w.procs[r := p]))
  {
    var w' := w.(procs := w.procs[r := p]);
    TouchesElsewhere(m, m', r);
    NamesKept(m, m', w, r);
    hide Good, SpaceRight, OnlyTouches, Elsewhere, ProcShaped;
    assert w'.procs.Keys == w.procs.Keys;
    OthersKept(m, m', w, w', r);
    assert Named(m', w') by {
      forall x | x in w'.procs ensures TrapPage(m', w'.procs, x) {
        assert TrapPage(m', w.procs, x);
      }
    }
    assert Known(m', w') by {
      forall x | x in m'.use ensures KnownPage(m', w', x) {
        assert KnownPage(m', w, x);
      }
    }
    SameCounts(w, w');
  }

  lemma SameCounts(w: World, w': World)
    requires Counts(w) && Shaped(w') && w'.segs == w.segs
    requires forall r :: r in w.procs || r in w'.procs ==>
      Attached(w, r) == Attached(w', r)
    ensures Counts(w')
  {
    forall id | 0 <= id < MAX_SHM ensures Counted(w', id) {
      assert Counted(w, id);
      forall r ensures r in Holders(w', id) <==> r in Holders(w, id) {
        assert r in w.procs || r in w'.procs ==> Attached(w, r) == Attached(w', r);
        assert r in w.procs && Shaped(w) ==> |w.procs[r].shmVa| == MAX_SHM;
        assert r in w'.procs ==> |w'.procs[r].shmVa| == MAX_SHM;
        assert (r in Holders(w', id)) == (id in Attached(w', r));
      }
      assert Holders(w', id) == Holders(w, id);
    }
  }

  /** The segments a process is attached to. */
  ghost function Attached(w: World, r: nat): set<nat> {
    if r in w.procs then set id | 0 <= id < |w.procs[r].shmVa| && w.procs[r].shmVa[id] != 0 else {}
  }

  // ---------------------------------------------------------------- pages change their use

  /** No address space maps the page. */
  ghost predicate Loose(m: Mem, p: nat) {
    && Good(m) && p in m.use && IsLent(m.use[p])
    && forall r, v: nat :: IsRoot(m, r) && v < MAXPAGES && Lookup(m, r, v).Some? ==> Lookup(m, r, v).value.ppn != p
  }

  ghost predicate Unowned(u: Use) { u.Free? || IsLent(u) }

  /** Pages that no address space owns may change their use; to become free, none may map them. */
  ghost predicate Relabelled(m: Mem, m': Mem) {
    && m'.tables == m.tables && m'.use.Keys == m.use.Keys
    && (forall p :: p in m.use && m'.use[p] != m.use[p] ==> Unowned(m.use[p]) && Unowned(m'.use[p]))
    && (forall p :: p in m.use && m'.use[p] != m.use[p] && m'.use[p].Free? ==> Loose(m, p))
  }

  /** Every translation is as before. */
  ghost predicate SameMaps(m: Mem, m': Mem) {
    && Good(m) && Good(m') && (forall r :: IsRoot(m, r) <==> IsRoot(m', r))
    && (forall r, v: nat :: IsRoot(m, r) ==> Lookup(m', r, v) == Lookup(m, r, v))
  }

  lemma LooseEntry(m: Mem, p: nat, x: nat, i: nat)
    requires Loose(m, p) && x in m.tables && i < ENTRIES && Present(m.tables[x][i])
    ensures m.tables[x][i].ppn != p
  {
    assert EntryRight(m, x, i);
    if Level(m.use[x]) == 0 {
      RootExists(m, x);
      var v := EntryPage(m, RootOf(m, x), x, i);
      EntryUse(m, RootOf(m, x), v);
      assert Lookup(m, RootOf(m, x), v).Some?;
    }
  }

  lemma RelabelledGood(m: Mem, m': Mem)
    requires Good(m) && Relabelled(m, m')
    ensures Good(m')
  {
    hide Loose;
    assert Shape(m') by {
      hide EntryRight, HeldRight;
    }
    forall x, i | x in m'.tables && 0 <= i < ENTRIES ensures EntryRight(m', x, i) {
      assert EntryRight(m, x, i);
      if Present(m.tables[x][i]) && Loose(m, m.tables[x][i].ppn) {
        LooseEntry(m, m.tables[x][i].ppn, x, i);
      }
    }
    forall x | x in m'.use && IsHeld(m'.use[x]) ensures HeldRight(m', x) {
      assert HeldRight(m, x);
    }
  }

  lemma RelabelledMaps(m: Mem, m': Mem)
    requires Good(m) && Relabelled(m, m')
    ensures SameMaps(m, m')
  {
    RelabelledGood(m, m');
    hide EntryRight, HeldRight, Loose;
    forall r, v: nat | IsRoot(m, r) ensures Lookup(m', r, v) == Lookup(m, r, v) {
      SameWalk(m, m', r, v);
      WalkTable(m, r, v);
      if Present(Entry(m, r, v)) {
        EntryUse(m, r, v);
        EntryUse(m', r, v);
      }
    }
  }

  lemma SameMapsElsewhere(m: Mem, m': Mem, r: nat)
    requires SameMaps(m, m')
    ensures Elsewhere(m, m', r)
  {
    hide Good, Lookup;
  }

  lemma TablesRelabelled(m: Mem, m': Mem, w: World, w': World)
    requires Tables(m, w) && SameMaps(m, m') && Shaped(w') && w'.procs == w.procs
    requires forall r :: r in w.procs ==> SameLent(w, w', w.procs[r])
    ensures Tables(m', w')
  {
    hide Good, Lookup, SpaceRight, SameLent, ProcShaped;
    forall r | r in w'.procs ensures SpaceRight(m', w'.segs, w'.trampoline, r, w'.procs[r]) {
      MovedSpace(m, m', w, w', r, w.procs[r]);
    }
  }

  /** A lent page that a process maps is the trampoline, its trapframe or a page of a segment it
      is attached to. */
  lemma LentName(m: Mem, w: World, r: nat, v: nat)
    requires Tables(m, w) && Named(m, w) && r in w.procs && v < MAXPAGES && Lookup(m, r, v).Some?
    requires Lookup(m, r, v).value.ppn in m.use && IsLent(m.use[Lookup(m, r, v).value.ppn])
    ensures Some(Lookup(m, r, v).value) == Lent(w.segs, w.trampoline, w.procs[r], v)
    ensures var p := Lookup(m, r, v).value.ppn;
      match m.use[p]
      case Trapframe(o) => o == r
      case Shared(id, _) => id < MAX_SHM && w.procs[r].shmVa[id] != 0
      case _ => p == w.trampoline
  {
    hide Good, Lookup;
    assert SpaceRight(m, w.segs, w.trampoline, r, w.procs[r]);
    assert PageRight(m, w.segs, w.trampoline, r, w.procs[r], v);
    LookupUse(m, r, v);
    SlotAt(v, 0, 0);
    assert TrapPage(m, w.procs, r);
    if HasSegment(w.segs, w.procs[r], v) {
      assert SegPage(m, w.segs, Slot(v).0, Slot(v).1);
    }
  }

  /** Who maps nothing that is meant for it leaves a lent page loose. */
  lemma IsLoose(m: Mem, w: World, p: nat)
    requires Tables(m, w) && Named(m, w) && p in m.use && IsLent(m.use[p])
    requires m.use[p].Kernel? ==> p != w.trampoline
    requires m.use[p].Trapframe? ==> m.use[p].owner !in w.procs
    requires m.use[p].Shared? ==> m.use[p].seg < MAX_SHM && Holders(w, m.use[p].seg) == {}
    ensures Loose(m, p)
  {
    hide Good, Lookup, SpaceRight, Named, Lent;
    forall r, v: nat | IsRoot(m, r) && v < MAXPAGES && Lookup(m, r, v).Some? ensures Lookup(m, r, v).value.ppn != p {
      if m.use[p].Shared? {
        assert r !in Holders(w, m.use[p].seg);
      }
      if Lookup(m, r, v).value.ppn == p {
        LentName(m, w, r, v);
      }
    }
  }

  ghost function Use1(m: Mem, p: nat, u: Use): Mem {
    m.(use := m.use[p := u])
  }

  /** kalloc: a free page is the kernel's for now. */
  lemma TakenInv(m: Mem, w: World, p: nat)
    requires Inv(m, w) && p in m.use && m.use[p].Free?
    ensures Inv(Use1(m, p, Kernel), w.(kernel := w.kernel + {p})) && SameMaps(m, Use1(m, p, Kernel))
    ensures p !in w.kernel
  {
    var m', w' := Use1(m, p, Kernel), w.(kernel := w.kernel + {p});
    RelabelledMaps(m, m');
    hide Good, SameMaps, ProcShaped;
    TablesRelabelled(m, m', w, w');
    SameCounts(w, w');
    OneRelabelled(m, w, w', p, Kernel);
  }

  /** kfree: a page of the kernel, not the trampoline, is mapped nowhere. */
  lemma ReturnedInv(m: Mem, w: World, p: nat)
    requires Inv(m, w) && p in w.kernel && p != w.trampoline
    ensures p in m.use && m.use[p].Kernel? && Inv(Use1(m, p, Free), w.(kernel := w.kernel - {p}))
    ensures SameMaps(m, Use1(m, p, Free))
  {
    var m', w' := Use1(m, p, Free), w.(kernel := w.kernel - {p});
    IsLoose(m, w, p);
    hide Loose;
    RelabelledMaps(m, m');
    hide Good, SameMaps, ProcShaped;
    TablesRelabelled(m, m', w, w');
    SameCounts(w, w');
    OneRelabelled(m, w, w', p, Free);
  }

  lemma OneRelabelled(m: Mem, w: World, w': World, p: nat, u: Use)
    requires Named(m, w) && Known(m, w) && p in m.use && (u.Free? || u.Kernel?)
    requires w'.procs == w.procs && w'.segs == w.segs && w'.trampoline == w.trampoline && w.trampoline in w'.kernel
    requires u.Free? ==> m.use[p].Kernel? && w'.kernel == w.kernel - {p}
    requires u.Kernel? ==> m.use[p].Free? && w'.kernel == w.kernel + {p}
    ensures Named(Use1(m, p, u), w') && Known(Use1(m, p, u), w')
  {
    var m' := Use1(m, p, u);
    forall x | x in w'.procs ensures TrapPage(m', w'.procs, x) {
      assert TrapPage(m, w.procs, x);
    }
    forall id, j | 0 <= id < |w'.segs| && 0 <= j < |w'.segs[id].pa| ensures SegPage(m', w'.segs, id, j) {
      assert SegPage(m, w.segs, id, j);
    }
    forall x | x in m'.use ensures KnownPage(m', w', x) {
      assert KnownPage(m, w, x);
    }
  }

  // ---------------------------------------------------------------- processes come and go

  function NewProc(trapframe: nat): Proc {
    Proc(0, trapframe, seq(MAX_SHM, _ => 0))
  }

  /** A new address space with only trampoline and trapframe, whose trapframe page was the kernel's. */
  lemma AddProc(m: Mem, m': Mem, w: World, r: nat, tf: nat)
    requires Inv(m, w) && tf in w.kernel && tf != w.trampoline
    requires !IsRoot(m, r) && IsRoot(m', r) && Good(m') && OnlyTouches(m, m', r)
    requires SpaceRight(m', w.segs, w.trampoline, r, NewProc(tf))
    ensures r !in w.procs && tf in m'.use && m'.use[tf] == Kernel
    ensures Inv(Use1(m', tf, Trapframe(r)), w.(procs := w.procs[r := NewProc(tf)], kernel := w.kernel - {tf}))
    ensures SameMaps(m', Use1(m', tf, Trapframe(r)))
  {
    var w', m'' := w.(procs := w.procs[r := NewProc(tf)], kernel := w.kernel - {tf}), Use1(m', tf, Trapframe(r));
    hide OnlyTouches, SpaceRight, Good, Elsewhere, SameMaps, Lookup;
    TouchesElsewhere(m, m', r);
    NamesKept(m, m', w, r);
    assert tf in m'.use && m'.use[tf] == Kernel;
    hide Known;
    AddNames(m', w, r, tf);
    RelabelledMaps(m', m'');
    hide Named;
    OthersKept(m, m', w, w', r);
    TablesRelabelled(m', m'', w', w');
    hide ProcShaped;
    SameCounts(w, w');
  }

  lemma AddNames(m: Mem, w: World, r: nat, tf: nat)
    requires Named(m, w) && Known(m, w) && r !in w.procs && tf in w.kernel && tf != w.trampoline
    ensures var w' := w.(procs := w.procs[r := NewProc(tf)], kernel := w.kernel - {tf});
      Named(Use1(m, tf, Trapframe(r)), w') && Known(Use1(m, tf, Trapframe(r)), w')
  {
    var w', m' := w.(procs := w.procs[r := NewProc(tf)], kernel := w.kernel - {tf}), Use1(m, tf, Trapframe(r));
    forall x | x in w'.procs ensures TrapPage(m', w'.procs, x) {
      assert x != r ==> TrapPage(m, w.procs, x);
    }
    forall id, j | 0 <= id < |w'.segs| && 0 <= j < |w'.segs[id].pa| ensures SegPage(m', w'.segs, id, j) {
      assert SegPage(m, w.segs, id, j);
    }
    forall x | x in m'.use ensures KnownPage(m', w', x) {
      assert KnownPage(m, w, x);
    }
  }

  /** The address space of r is gone; so can be its trapframe, which nothing maps any more. */
  lemma DropProc(m: Mem, m': Mem, w: World, r: nat)
    requires Inv(m, w) && r in w.procs && Gone(m, m', r) && Attached(w, r) == {}
    ensures var tf := w.procs[r].trapframe;
      && tf in m'.use && m'.use[tf] == Trapframe(r) && Good(m')
      && Inv(Use1(m', tf, Free), w.(procs := w.procs - {r})) && SameMaps(m', Use1(m', tf, Free))
  {
    var tf, w' := w.procs[r].trapframe, w.(procs := w.procs - {r});
    var m'' := Use1(m', tf, Free);
    GoneKeeps(m, m', w, r);
    hide Gone, Tables, SameMaps, Loose, Known, Named, Counts;
    DropNames(m', w, r);
    IsLoose(m', w', tf);
    TablesGood(m', w');
    RelabelledMaps(m', m'');
    TablesRelabelled(m', m'', w', w');
    SameCounts(w, w');
  }

  /** The page table of r is gone, its trapframe is not yet free. */
  lemma GoneKeeps(m: Mem, m': Mem, w: World, r: nat)
    requires Inv(m, w) && r in w.procs && Gone(m, m', r)
    ensures var tf := w.procs[r].trapframe;
      && tf in m'.use && m'.use[tf] == Trapframe(r) && Good(m')
      && Named(m', w) && Known(m', w) && Tables(m', w.(procs := w.procs - {r}))
  {
    hide Gone, OnlyTouches, Good, SpaceRight, Lookup, Elsewhere;
    GoneGood(m, m', r);
    GoneTouches(m, m', r);
    TouchesElsewhere(m, m', r);
    NamesKept(m, m', w, r);
    assert TrapPage(m', w.procs, r);
    hide Known, Named, Counts, Counted, ProcShaped;
    OthersKept(m, m', w, w.(procs := w.procs - {r}), r);
  }

  lemma GoneGood(m: Mem, m': Mem, r: nat)
    requires Gone(m, m', r)
    ensures Good(m')
  {
  }

  lemma TablesGood(m: Mem, w: World)
    requires Tables(m, w)
    ensures Good(m) && Shaped(w)
  {
  }

  lemma DropNames(m: Mem, w: World, r: nat)
    requires Named(m, w) && Known(m, w) && r in w.procs
    ensures var w' := w.(procs := w.procs - {r}); Named(m, w') && Named(Use1(m, w.procs[r].trapframe, Free), w')
    ensures Known(Use1(m, w.procs[r].trapframe, Free), w.(procs := w.procs - {r}))
  {
    var tf, w' := w.procs[r].trapframe, w.(procs := w.procs - {r});
    var m' := Use1(m, tf, Free);
    assert TrapPage(m, w.procs, r);
    forall x | x in w'.procs ensures TrapPage(m, w'.procs, x) && TrapPage(m', w'.procs, x) {
      assert TrapPage(m, w.procs, x);
    }
    forall id, j | 0 <= id < |w'.segs| && 0 <= j < |w'.segs[id].pa| ensures SegPage(m', w'.segs, id, j) {
      assert SegPage(m, w.segs, id, j);
    }
    forall x | x in m'.use ensures KnownPage(m', w', x) {
      assert KnownPage(m, w, x);
    }
  }

  // ---------------------------------------------------------------- an address space changes

  /** A larger size may be claimed without mapping anything. */
  lemma LazySpace(m: Mem, segs: seq<Seg>, t: nat, r: nat, p: Proc, sz: nat)
    requires SpaceRight(m, segs, t, r, p) && p.sz <= sz
    ensures SpaceRight(m, segs, t, r, p.(sz := sz))
  {
    hide Good, Lookup;
    var p' := p.(sz := sz);
    forall v: nat | v < MAXPAGES ensures PageRight(m, segs, t, r, p', v) {
      assert PageRight(m, segs, t, r, p, v);
    }
  }

  /** No page of an attached segment lies between the two. */
  ghost predicate NoSegmentIn(segs: seq<Seg>, p: Proc, lo: nat, hi: nat) {
    forall v :: lo <= v < hi ==> !HasSegment(segs, p, v)
  }

  lemma ClearedSpace(m: Mem, m': Mem, segs: seq<Seg>, t: nat, r: nat, p: Proc, sz: nat)
    requires SpaceRight(m, segs, t, r, p) && sz <= p.sz <= TRAPFRAME * 4096
    requires NoSegmentIn(segs, p, Pages(sz), Pages(p.sz))
    requires Clears(m, m', r, Pages(sz), Pages(p.sz) - Pages(sz))
    ensures SpaceRight(m', segs, t, r, p.(sz := sz))
  {
    hide Good, Lookup, OnlyTouches;
    var p' := p.(sz := sz);
    forall v: nat | v < MAXPAGES ensures PageRight(m', segs, t, r, p', v) {
      assert PageRight(m, segs, t, r, p, v);
      assert HasSegment(segs, p', v) == HasSegment(segs, p, v);
    }
  }

  lemma SameSpace(m: Mem, m': Mem, segs: seq<Seg>, t: nat, r: nat, p: Proc, v: nat)
    requires SpaceRight(m, segs, t, r, p) && Clears(m, m', r, v, 0)
    ensures SpaceRight(m', segs, t, r, p)
  {
    hide Good, Lookup, OnlyTouches, Lent;
    forall v: nat | v < MAXPAGES ensures PageRight(m', segs, t, r, p, v) {
      assert PageRight(m, segs, t, r, p, v);
    }
  }

  lemma GrownSpace(m: Mem, m': Mem, segs: seq<Seg>, t: nat, r: nat, p: Proc, sz: nat, flags: nat)
    requires SpaceRight(m, segs, t, r, p) && p.sz <= sz <= TRAPFRAME * 4096
    requires Grown(m, m', r, Pages(p.sz), Pages(sz), flags)
    requires forall v :: Pages(p.sz) <= v < Pages(sz) ==> Lookup(m, r, v).None?
    ensures SpaceRight(m', segs, t, r, p.(sz := sz))
  {
    hide Good, Lookup, OnlyTouches, Keeps;
    var p' := p.(sz := sz);
    forall v: nat | v < MAXPAGES ensures PageRight(m', segs, t, r, p', v) {
      assert PageRight(m, segs, t, r, p, v);
      assert HasSegment(segs, p', v) == HasSegment(segs, p, v);
    }
  }

  lemma FaultedSpace(m: Mem, m': Mem, segs: seq<Seg>, t: nat, r: nat, p: Proc, v: nat, n: nat, q: nat, flags: nat)
    requires SpaceRight(m, segs, t, r, p) && v + n <= Pages(p.sz) && MapsRange(m, m', r, v, n, q, flags, true)
    requires forall x :: v <= x < v + n ==> Lookup(m, r, x).None?
    ensures SpaceRight(m', segs, t, r, p)
  {
    hide Good, Lookup, OnlyTouches, Keeps, Lent;
    forall x: nat | x < MAXPAGES ensures PageRight(m', segs, t, r, p, x) {
      assert PageRight(m, segs, t, r, p, x);
    }
  }

  /** The child of a fork: its own copy of every page of the parent, and nothing attached. */
  lemma CopiedSpace(m: Mem, d: Data, m': Mem, d': Data, segs: seq<Seg>, t: nat, r: nat, child: nat, tf: nat, sz: nat)
    requires SpaceRight(m, segs, t, child, NewProc(tf)) && sz <= TRAPFRAME * 4096
    requires Copied(m, d, m', d', r, child, Pages(sz))
    ensures SpaceRight(m', segs, t, child, NewProc(tf).(sz := sz))
  {
    hide Good, Lookup, OnlyTouches, Keeps, Pages;
    assert Pages(0) == 0 && Pages(sz) <= TRAPFRAME by { PagesBound(sz); }
    var p, p' := NewProc(tf), NewProc(tf).(sz := sz);
    forall v: nat | v < MAXPAGES ensures PageRight(m', segs, t, child, p', v) {
      assert PageRight(m, segs, t, child, p, v);
      assert !HasSegment(segs, p, v) && !HasSegment(segs, p', v) by { SlotAt(v, 0, 0); }
      if v < Pages(sz) {
        assert CopiedPage(m, d, m', d', r, child, v);
      }
    }
  }

  lemma PagesBound(sz: nat)
    ensures Pages(0) == 0 && (sz <= TRAPFRAME * 4096 ==> Pages(sz) <= TRAPFRAME)
  {
  }

  /** A process that maps nothing yet maps no page below the trapframe. */
  lemma EmptySpace(m: Mem, segs: seq<Seg>, t: nat, r: nat, tf: nat, n: nat)
    requires SpaceRight(m, segs, t, r, NewProc(tf)) && n <= TRAPFRAME
    ensures forall v :: 0 <= v < n ==> Lookup(m, r, v).None?
  {
    hide Good, Lookup;
    PagesBound(0);
    forall v | 0 <= v < n ensures Lookup(m, r, v).None? {
      assert PageRight(m, segs, t, r, NewProc(tf), v);
      SlotAt(v, 0, 0);
    }
  }

  lemma MappedSpace(m: Mem, m1: Mem, m2: Mem, m3: Mem, segs: seq<Seg>, t: nat, r: nat, tf: nat)
    requires Fresh(m, m1, r) && MapsRange(m1, m2, r, TRAMPOLINE, 1, t, PTE_V + PTE_R + PTE_X, false)
    requires MapsRange(m2, m3, r, TRAPFRAME, 1, tf, PTE_V + PTE_R + PTE_W, false)
    ensures SpaceRight(m3, segs, t, r, NewProc(tf)) && Changes(m1, m3, r)
  {
    hide Good, Lookup, OnlyTouches, Keeps;
    ChangesTrans(m1, m2, m3, r);
    PagesBound(0);
    forall v: nat | v < MAXPAGES ensures PageRight(m3, segs, t, r, NewProc(tf), v) {
      SlotAt(v, 0, 0);
    }
  }

  lemma UndoneMapping(m: Mem, m1: Mem, m2: Mem, m3: Mem, m4: Mem, r: nat, t: nat, tf: nat, flags: nat, flags': nat)
    requires Fresh(m, m1, r) && MapsRange(m1, m2, r, TRAMPOLINE, 1, t, flags, false)
    requires MapsRange(m2, m3, r, TRAPFRAME, 0, tf, flags', false) && Clears(m3, m4, r, TRAMPOLINE, 1)
    ensures Changes(m1, m4, r) && forall v: nat :: v < MAXPAGES ==> Lookup(m4, r, v).None?
  {
    hide Good, Lookup, OnlyTouches, Keeps;
    ChangesTrans(m1, m2, m3, r);
    ChangesTrans(m1, m3, m4, r);
  }

  lemma FreshTouches(m: Mem, m1: Mem, m2: Mem, r: nat)
    requires Fresh(m, m1, r) && Changes(m1, m2, r)
    ensures Good(m) && Good(m2) && OnlyTouches(m, m2, r) && IsRoot(m2, r) && !IsRoot(m, r)
  {
    hide Good, Lookup;
    TouchesTrans(m, m1, m2, r);
  }

  /** Creating an address space and freeing it again puts every page back to its use. */
  lemma CreatedAndGone(m: Mem, m1: Mem, m2: Mem, r: nat)
    requires Good(m) && !IsRoot(m, r) && OnlyTouches(m, m1, r) && Gone(m1, m2, r)
    ensures m2 == m
  {
    forall p | p in m.use ensures Untouched(m, m2, p) {
      if Mine(m, p, r) {
        if IsHeld(m.use[p]) {
          RootExists(m, p);
        }
        assert Mine(m1, p, r);
      } else {
        assert !Mine(m1, p, r);
        assert Untouched(m, m1, p);
      }
    }
    assert m2.use == m.use;
    assert m2.tables == m.tables;
  }

  // ---------------------------------------------------------------- what the invariant says

  /** Below the size, a page is lent exactly where a segment is attached. */
  lemma LentBelow(m: Mem, w: World, r: nat, v: nat)
    requires Inv(m, w) && r in w.procs && v < Pages(w.procs[r].sz)
    ensures Good(m) && IsRoot(m, r) && v < TRAPFRAME
    ensures if HasSegment(w.segs, w.procs[r], v)
            then var q := w.segs[Slot(v).0].pa[Slot(v).1];
                 LentAt(m, r, v) == {q} && q in m.use && m.use[q] == Shared(Slot(v).0, Slot(v).1)
            else LentAt(m, r, v) == {}
  {
    hide Good, Lookup, Counts, Known;
    PagesBound(w.procs[r].sz);
    SlotAt(v, 0, 0);
    assert ProcShaped(w.procs[r]);
    assert SpaceRight(m, w.segs, w.trampoline, r, w.procs[r]);
    assert PageRight(m, w.segs, w.trampoline, r, w.procs[r], v);
    if HasSegment(w.segs, w.procs[r], v) {
      assert SegPage(m, w.segs, Slot(v).0, Slot(v).1);
    }
  }

  /** Shrinking frees only what the process owns, exactly when no attached segment is in the way; and
      it frees no page twice. */
  lemma ShrinkLimit(m: Mem, w: World, r: nat, lo: nat, hi: nat)
    requires Inv(m, w) && r in w.procs && lo <= hi <= Pages(w.procs[r].sz)
    ensures Good(m) && IsRoot(m, r) && (LentIn(m, r, lo, hi - lo) == {} <==> NoSegmentIn(w.segs, w.procs[r], lo, hi))
    ensures LentOnce(m, r, lo, hi - lo)
  {
    hide Good, Inv, HasSegment, LentAt;
    assert Good(m) && IsRoot(m, r) by { InvRoot(m, w, r); }
    forall v | lo <= v < hi ensures LentAt(m, r, v) == {} <==> !HasSegment(w.segs, w.procs[r], v) {
      LentBelow(m, w, r, v);
    }
    if v :| lo <= v < hi && HasSegment(w.segs, w.procs[r], v) {
      assert LentAt(m, r, v) <= LentIn(m, r, lo, hi - lo);
    }
    forall v: nat, x: nat | lo <= v < x < hi ensures LentAt(m, r, v) !! LentAt(m, r, x) {
      LentBelow(m, w, r, v);
      LentBelow(m, w, r, x);
      SlotAt(v, 0, 0);
      SlotAt(x, 0, 0);
    }
  }

  lemma InvRoot(m: Mem, w: World, r: nat)
    requires Inv(m, w) && r in w.procs
    ensures Good(m) && IsRoot(m, r)
  {
  }

  /** What shrinking frees without owning it are pages of segments. */
  lemma LentSegment(m: Mem, w: World, r: nat, lo: nat, hi: nat, q: nat)
    requires Inv(m, w) && r in w.procs && lo <= hi <= Pages(w.procs[r].sz) && Good(m) && IsRoot(m, r)
    requires q in LentIn(m, r, lo, hi - lo)
    ensures q in m.use && m.use[q].Shared? && m.use[q].seg < MAX_SHM
    ensures m.use[q].page < |w.segs[m.use[q].seg].pa| && w.segs[m.use[q].seg].pa[m.use[q].page] == q
  {
    hide Good, LentAt;
    var v: nat :| lo <= v < hi && q in LentAt(m, r, v);
    LentBelow(m, w, r, v);
    SlotAt(v, 0, 0);
  }

  /** Growth and attaching meet a mapped page exactly where a segment is attached or, below the
      size, where a page has been faulted in. */
  lemma MappedAbove(m: Mem, w: World, r: nat, v: nat)
    requires Inv(m, w) && r in w.procs && Pages(w.procs[r].sz) <= v < TRAPFRAME
    ensures Lookup(m, r, v).Some? <==> HasSegment(w.segs, w.procs[r], v)
  {
    hide Good, Lookup;
    assert SpaceRight(m, w.segs, w.trampoline, r, w.procs[r]);
    assert PageRight(m, w.segs, w.trampoline, r, w.procs[r], v);
  }

  /** freewalk, run when trampoline, trapframe and the pages below the size have been unmapped,
      meets a leaf exactly when a segment is still attached above the size. */
  lemma FreewalkLeaf(m: Mem, m': Mem, w: World, r: nat)
    requires Inv(m, w) && r in w.procs && Good(m') && IsRoot(m', r)
    requires forall v: nat :: v < MAXPAGES ==>
      Lookup(m', r, v) == if Pages(w.procs[r].sz) <= v < TRAPFRAME then Lookup(m, r, v) else None
    ensures NoLeaves(m', r) <==> NoSegmentIn(w.segs, w.procs[r], Pages(w.procs[r].sz), TRAPFRAME)
  {
    hide Good, Lookup, NoLeaves, Inv, HasSegment, Pages;
    var lo := Pages(w.procs[r].sz);
    if NoSegmentIn(w.segs, w.procs[r], lo, TRAPFRAME) {
      forall v: nat | v < MAXPAGES ensures Lookup(m', r, v).None? {
        if lo <= v < TRAPFRAME {
          MappedAbove(m, w, r, v);
        }
      }
      AllClear(m', r);
    } else {
      var v :| lo <= v < TRAPFRAME && HasSegment(w.segs, w.procs[r], v);
      MappedAbove(m, w, r, v);
      LeafThere(m', r, v);
    }
  }

  lemma LeafThere(m: Mem, r: nat, v: nat)
    requires Good(m) && IsRoot(m, r) && Lookup(m, r, v).Some?
    ensures !NoLeaves(m, r)
  {
    WalkTable(m, r, v);
    var t := Walk(m, r, v).value;
    assert Present(m.tables[t][Px(0, v)]);
    assert !IsEmpty(m, t);
  }

  /** Every page is accounted for, once: it is on the free list, the kernel's, the trapframe of a
      process, a page of a segment in use, or part of the address space of a process. */
  lemma Accounted(m: Mem, w: World, list: seq<nat>, p: nat)
    requires Inv(m, w) && FreeOnce(list, m.use, {}, {}) && p in m.use
    ensures p in list <==> m.use[p].Free?
    ensures match m.use[p]
            case Free => true
            case Kernel => p in w.kernel
            case Trapframe(r) => r in w.procs && w.procs[r].trapframe == p
            case Shared(id, j) => id < MAX_SHM && j < |w.segs[id].pa| && w.segs[id].pa[j] == p && w.segs[id].used
            case Root => p in w.procs
            case Table(_, _, _, r) => r in w.procs
            case Frame(_, _, r) => r in w.procs
  {
    hide SpaceRight;
    assert KnownPage(m, w, p);
    assert IsRoot(m, p) ==> p in w.procs;
    if IsHeld(m.use[p]) {
      RootExists(m, p);
    }
    if m.use[p].Shared? {
      assert Counted(w, m.use[p].seg);
    }
  }

  /** When no process is left, every page is free, the kernel's, or of a segment nobody is
      attached to. */
  lemma NoneLeft(m: Mem, w: World, p: nat)
    requires Inv(m, w) && w.procs == map[] && p in m.use
    ensures match m.use[p]
            case Free => true
            case Kernel => p in w.kernel
            case Shared(id, j) => id < MAX_SHM && j < |w.segs[id].pa| && w.segs[id].pa[j] == p && w.segs[id].used
                                  && w.segs[id].refcount == 0
            case _ => false
  {
    hide SpaceRight;
    assert !IsRoot(m, p);
    if IsHeld(m.use[p]) {
      RootExists(m, p);
    }
    assert KnownPage(m, w, p);
    if m.use[p].Shared? {
      assert Counted(w, m.use[p].seg);
      assert Holders(w, m.use[p].seg) == {};
    }
  }

  /** Two processes that have the same segment attached see the same page at the same address. */
  lemma SameView(m: Mem, w: World, r: nat, r': nat, id: nat, j: nat)
    requires Inv(m, w) && r in w.procs && r' in w.procs && id < MAX_SHM && j < |w.segs[id].pa|
    requires w.procs[r].shmVa[id] != 0 && w.procs[r'].shmVa[id] != 0
    ensures w.segs[id].used && j < MAX_SHM_PG && Lookup(m, r, Region(id) + j) == Lookup(m, r', Region(id) + j)
    ensures Lookup(m, r, Region(id) + j) == Some(Mapping(w.segs[id].pa[j], SHARED, false))
  {
    hide Good, Lookup;
    assert Counted(w, id);
    SlotAt(0, id, j);
    assert SpaceRight(m, w.segs, w.trampoline, r, w.procs[r]) && SpaceRight(m, w.segs, w.trampoline, r', w.procs[r']);
    assert PageRight(m, w.segs, w.trampoline, r, w.procs[r], Region(id) + j);
    assert PageRight(m, w.segs, w.trampoline, r', w.procs[r'], Region(id) + j);
  }
}
