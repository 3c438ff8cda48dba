/** The three-level page tables of kernel/vm.c (Sv39, section 4.4 of the RISC-V Privileged
    Architecture, version 20211203), on values.

    `use` says what each physical page is for; a lower table or a user frame also records the
    one page-table entry that holds it and the root it belongs to.  Since a page has one use,
    every table is a tree and no page is shared or lost. */
module PageTable {
  import opened Options

  const ENTRIES: nat := 512
  const ROOT_LEVEL: nat := 2
  const MAXPAGES: nat := 0x400_0000  // MAXVA / PGSIZE
  const TRAMPOLINE: nat := MAXPAGES - 1
  const TRAPFRAME: nat := MAXPAGES - 2

  const PTE_V: nat := 1
  const PTE_R: nat := 2
  const PTE_W: nat := 4
  const PTE_X: nat := 8
  const PTE_U: nat := 16

  /** A page-table entry: a physical page number and ten flag bits. */
  datatype Pte = Pte(ppn: nat, flags: nat)

  predicate Present(e: Pte) { e.flags % 2 == 1 }

  /** Any of R, W and X set: the entry maps a page rather than pointing to a table. */
  predicate Maps(e: Pte) { e.flags / 2 % 8 != 0 }

  const NO_PTE: Pte := Pte(0, 0)

  /** The nine index bits of page number v for a level. */
  function Px(level: nat, v: nat): nat
    requires level <= ROOT_LEVEL
  {
    if level == 0 then v % 512 else if level == 1 then v / 512 % 512 else v / 512 / 512 % 512
  }

  /** Below MAXVA the page number is its three indices, the root's first. */
  lemma PxParts(v: nat)
    requires v < MAXPAGES
    ensures v == (Px(2, v) * 512 + Px(1, v)) * 512 + Px(0, v) && Px(0, v) < 512 && Px(1, v) < 512 && Px(2, v) < 256
  {
    assert v / 512 / 512 < 256;
  }

  lemma PxInjective(v: nat, w: nat)
    requires v < MAXPAGES && w < MAXPAGES
    requires Px(0, v) == Px(0, w) && Px(1, v) == Px(1, w) && Px(2, v) == Px(2, w)
    ensures v == w
  {
    hide Px;
    PxParts(v);
    PxParts(w);
  }

  /** A page is free, the kernel's, the trapframe of a process, a page of a shared-memory segment,
      the root of an address space, or held by entry i of table `at` as a lower table or as a user
      frame.  Processes are named by their roots. */
  datatype Use =
    | Free
    | Kernel
    | Trapframe(owner: nat)
    | Shared(seg: nat, page: nat)
    | Root
    | Table(level: nat, at: nat, i: nat, root: nat)
    | Frame(at: nat, i: nat, root: nat)

  datatype Mem = Mem(tables: map<nat, seq<Pte>>, use: map<nat, Use>)

  predicate IsTable(u: Use) { u.Root? || u.Table? }

  /** Pages that address spaces map without owning them. */
  predicate IsLent(u: Use) { u.Kernel? || u.Trapframe? || u.Shared? }

  predicate IsHeld(u: Use) { u.Table? || u.Frame? }

  function Level(u: Use): nat { if u.Table? then u.level else ROOT_LEVEL }

  /** The root that table p belongs to. */
  ghost function RootOf(m: Mem, p: nat): nat
    requires p in m.use
  {
    if IsHeld(m.use[p]) then m.use[p].root else p
  }

  ghost predicate IsRoot(m: Mem, r: nat) {
    r in m.use && m.use[r].Root?
  }

  ghost predicate Shape(m: Mem) {
    && (forall p :: p in m.tables <==> p in m.use && IsTable(m.use[p]))
    && (forall p :: p in m.tables ==> |m.tables[p]| == ENTRIES && Level(m.use[p]) <= ROOT_LEVEL)
  }

  /** A present entry above the last level points to a table it holds; at the last level it maps
      a frame it holds, or a page that is lent.  Half of a root stays unused, MAXVA being one
      bit below what Sv39 allows. */
  ghost predicate EntryRight(m: Mem, p: nat, i: nat)
    requires p in m.tables && p in m.use && i < |m.tables[p]|
  {
    var e, l := m.tables[p][i], Level(m.use[p]);
    Present(e) ==>
      && e.ppn in m.use && (m.use[p].Root? ==> i < 256)
      && if l > 0
         then e.flags == PTE_V && m.use[e.ppn] == Table(l - 1, p, i, RootOf(m, p))
         else Maps(e) && (IsLent(m.use[e.ppn]) || m.use[e.ppn] == Frame(p, i, RootOf(m, p)))
  }

  /** A held page is in fact in the entry that is said to hold it. */
  ghost predicate HeldRight(m: Mem, q: nat)
    requires q in m.use && IsHeld(m.use[q])
  {
    var u := m.use[q];
    && u.at in m.tables && u.at in m.use && u.i < |m.tables[u.at]|
    && Present(m.tables[u.at][u.i]) && m.tables[u.at][u.i].ppn == q
    && Level(m.use[u.at]) == (if u.Frame? then 0 else u.level + 1)
    && RootOf(m, u.at) == u.root
  }

  ghost predicate Good(m: Mem) {
    && Shape(m)
    && (forall p, i {:trigger EntryRight(m, p, i)} :: p in m.tables && 0 <= i < ENTRIES ==> EntryRight(m, p, i))
    && (forall q {:trigger HeldRight(m, q)} :: q in m.use && IsHeld(m.use[q]) ==> HeldRight(m, q))
  }

  // ---------------------------------------------------------------- walking

  /** The last-level table that covers page v below table p, if it exists. */
  ghost function Walk(m: Mem, p: nat, v: nat): Option<nat>
    requires Good(m) && p in m.tables
    decreases Level(m.use[p])
  {
    if Level(m.use[p]) == 0 then Some(p) else
      var i := Px(Level(m.use[p]), v);
      assert EntryRight(m, p, i);
      if Present(m.tables[p][i]) then Walk(m, m.tables[p][i].ppn, v) else None
  }

  /** The entry for page v in the address space with root r. */
  ghost function Entry(m: Mem, r: nat, v: nat): Pte
    requires Good(m) && r in m.tables
  {
    WalkTable(m, r, v);
    match Walk(m, r, v)
    case Some(t) => m.tables[t][Px(0, v)]
    case None => NO_PTE
  }

  lemma {:induction false} WalkTable(m: Mem, p: nat, v: nat)
    requires Good(m) && p in m.tables
    ensures Walk(m, p, v).Some? ==>
      var t := Walk(m, p, v).value; t in m.tables && Level(m.use[t]) == 0 && RootOf(m, t) == RootOf(m, p)
    decreases Level(m.use[p])
  {
    var l := Level(m.use[p]);
    if l > 0 {
      assert EntryRight(m, p, Px(l, v));
      if Present(m.tables[p][Px(l, v)]) {
        WalkTable(m, m.tables[p][Px(l, v)].ppn, v);
      }
    }
  }

  /** Two walks from the same level that end in one table took the same path. */
  lemma {:induction false} SamePath(m: Mem, p: nat, v: nat, q: nat, w: nat)
    requires Good(m) && p in m.tables && q in m.tables && Level(m.use[p]) == Level(m.use[q])
    requires Walk(m, p, v).Some? && Walk(m, p, v) == Walk(m, q, w)
    ensures p == q && forall l :: 1 <= l <= Level(m.use[p]) ==> Px(l, v) == Px(l, w)
    decreases Level(m.use[p])
  {
    var l := Level(m.use[p]);
    if l > 0 {
      var i, j := Px(l, v), Px(l, w);
      assert EntryRight(m, p, i) && EntryRight(m, q, j);
      SamePath(m, m.tables[p][i].ppn, v, m.tables[q][j].ppn, w);
    }
  }

  /** Table p is on the way from table x to the entry of page v. */
  ghost predicate OnPath(m: Mem, x: nat, p: nat, v: nat)
    requires Good(m) && x in m.tables
    decreases Level(m.use[x])
  {
    || x == p
    || (Level(m.use[x]) > 0
        && var i := Px(Level(m.use[x]), v);
           assert EntryRight(m, x, i);
           Present(m.tables[x][i]) && OnPath(m, m.tables[x][i].ppn, p, v))
  }

  lemma {:induction false} OnPathWalk(m: Mem, x: nat, p: nat, v: nat)
    requires Good(m) && x in m.tables && p in m.tables && OnPath(m, x, p, v)
    ensures Walk(m, x, v) == Walk(m, p, v) && RootOf(m, p) == RootOf(m, x)
    decreases Level(m.use[x])
  {
    if x != p {
      var i := Px(Level(m.use[x]), v);
      assert EntryRight(m, x, i);
      OnPathWalk(m, m.tables[x][i].ppn, p, v);
    }
  }

  /** The path goes on through a present entry. */
  lemma {:induction false} OnPathStep(m: Mem, x: nat, p: nat, v: nat)
    requires Good(m) && x in m.tables && p in m.tables && OnPath(m, x, p, v) && Level(m.use[p]) > 0
    requires Present(m.tables[p][Px(Level(m.use[p]), v)])
    ensures OnPath(m, x, m.tables[p][Px(Level(m.use[p]), v)].ppn, v)
    decreases Level(m.use[x])
  {
    var i := Px(Level(m.use[x]), v);
    assert EntryRight(m, x, i);
    if x == p {
      assert OnPath(m, m.tables[p][i].ppn, m.tables[p][i].ppn, v);
    } else {
      OnPathStep(m, m.tables[x][i].ppn, p, v);
    }
  }

  /** Every table and frame belongs to a root that exists. */
  lemma {:induction false} RootExists(m: Mem, q: nat)
    requires Good(m) && q in m.use && IsHeld(m.use[q])
    ensures IsRoot(m, m.use[q].root)
    decreases if m.use[q].Frame? then 3 else ROOT_LEVEL - Level(m.use[q])
  {
    assert HeldRight(m, q);
    var p := m.use[q].at;
    if IsHeld(m.use[p]) {
      RootExists(m, p);
    }
  }

  /** Every entry of every last-level table of r is the entry of some page below MAXVA. */
  lemma EntryPage(m: Mem, r: nat, t: nat, k: nat) returns (v: nat)
    requires Good(m) && IsRoot(m, r) && t in m.tables && Level(m.use[t]) == 0 && RootOf(m, t) == r && k < ENTRIES
    ensures v < MAXPAGES && Walk(m, r, v) == Some(t) && Px(0, v) == k
  {
    assert HeldRight(m, t);
    var p, i := m.use[t].at, m.use[t].i;
    assert HeldRight(m, p);
    var j := m.use[p].i;
    assert m.use[p].at == r by {
      assert IsHeld(m.use[m.use[p].at]) ==> HeldRight(m, m.use[p].at);
    }
    assert EntryRight(m, p, i) && EntryRight(m, r, j);
    v := (j * 512 + i) * 512 + k;
    assert v / 512 == j * 512 + i && v / 512 / 512 == j;
    assert Walk(m, t, v) == Some(t);
    assert Walk(m, p, v) == Walk(m, t, v);
  }

  // ---------------------------------------------------------------- adding a table

  function EmptyTable(): seq<Pte> {
    seq(ENTRIES, _ => NO_PTE)
  }

  ghost predicate CanAddTable(m: Mem, p: nat, i: nat, q: nat) {
    && Good(m) && p in m.tables && Level(m.use[p]) > 0 && i < ENTRIES && !Present(m.tables[p][i])
    && q in m.use && m.use[q].Free? && (m.use[p].Root? ==> i < 256)
  }

  /** Page q becomes the empty table that entry i of table p points to. */
  ghost function AddTable(m: Mem, p: nat, i: nat, q: nat): Mem
    requires CanAddTable(m, p, i, q)
  {
    Mem(m.tables[q := EmptyTable()][p := m.tables[p][i := Pte(q, PTE_V)]],
        m.use[q := Table(Level(m.use[p]) - 1, p, i, RootOf(m, p))])
  }

  lemma AddTableGood(m: Mem, p: nat, i: nat, q: nat)
    requires CanAddTable(m, p, i, q)
    ensures Good(AddTable(m, p, i, q))
  {
    var m' := AddTable(m, p, i, q);
    assert Shape(m');
    forall x, j | x in m'.tables && 0 <= j < ENTRIES ensures EntryRight(m', x, j) {
      if x != q {
        assert EntryRight(m, x, j);
      }
    }
    forall x | x in m'.use && IsHeld(m'.use[x]) ensures HeldRight(m', x) {
      if x != q {
        assert HeldRight(m, x);
        assert !(m.use[x].at == p && m.use[x].i == i);
      }
    }
  }

  /** Existing walks are kept; a walk that used to fail may now reach the new, empty table. */
  lemma {:induction false} AddTableWalk(m: Mem, p: nat, i: nat, q: nat, x: nat, v: nat)
    requires CanAddTable(m, p, i, q) && Good(AddTable(m, p, i, q)) && x in m.tables
    ensures var w := Walk(AddTable(m, p, i, q), x, v);
      w == Walk(m, x, v) || (w == Some(q) && Walk(m, x, v).None?)
    decreases Level(m.use[x])
  {
    var m' := AddTable(m, p, i, q);
    var l := Level(m.use[x]);
    if l > 0 {
      var j := Px(l, v);
      assert EntryRight(m, x, j) && EntryRight(m', x, j);
      if Present(m.tables[x][j]) {
        AddTableWalk(m, p, i, q, m.tables[x][j].ppn, v);
      } else if x == p && j == i {
        assert l - 1 > 0 ==> EntryRight(m', q, Px(l - 1, v));
      }
    }
  }

  lemma {:induction false} AddTablePath(m: Mem, p: nat, q: nat, x: nat, v: nat)
    requires p in m.tables && p in m.use && Level(m.use[p]) <= ROOT_LEVEL
    requires CanAddTable(m, p, Px(Level(m.use[p]), v), q) && Good(AddTable(m, p, Px(Level(m.use[p]), v), q))
    requires x in m.tables && OnPath(m, x, p, v)
    ensures OnPath(AddTable(m, p, Px(Level(m.use[p]), v), q), x, q, v)
    decreases Level(m.use[x])
  {
    var m' := AddTable(m, p, Px(Level(m.use[p]), v), q);
    var i := Px(Level(m.use[x]), v);
    assert EntryRight(m, x, i) && EntryRight(m', x, i);
    if x == p {
      assert OnPath(m', q, q, v);
    } else {
      AddTablePath(m, p, q, m.tables[x][i].ppn, v);
    }
  }

  lemma AddTableEntry(m: Mem, p: nat, i: nat, q: nat, r: nat, v: nat)
    requires CanAddTable(m, p, i, q) && r in m.tables
    ensures Good(AddTable(m, p, i, q)) && Entry(AddTable(m, p, i, q), r, v) == Entry(m, r, v)
  {
    AddTableGood(m, p, i, q);
    AddTableWalk(m, p, i, q, r, v);
    WalkTable(m, r, v);
  }

  // ---------------------------------------------------------------- changing a mapping

  ghost predicate LastLevel(m: Mem, t: nat) {
    Good(m) && t in m.tables && Level(m.use[t]) == 0
  }

  /** Entry k of the last-level table t set to e, with the use of page q updated. */
  ghost function SetEntry(m: Mem, t: nat, k: nat, e: Pte, q: nat, u: Use): Mem
    requires t in m.tables && k < |m.tables[t]|
  {
    Mem(m.tables[t := m.tables[t][k := e]], m.use[q := u])
  }

  /** A fresh frame q mapped at an empty entry. */
  ghost function MapFrame(m: Mem, t: nat, k: nat, q: nat, flags: nat): Mem
    requires LastLevel(m, t) && k < ENTRIES
  {
    SetEntry(m, t, k, Pte(q, flags), q, Frame(t, k, RootOf(m, t)))
  }

  /** A lent page mapped at an empty entry. */
  ghost function MapLent(m: Mem, t: nat, k: nat, q: nat, flags: nat): Mem
    requires LastLevel(m, t) && k < ENTRIES && q in m.use
  {
    SetEntry(m, t, k, Pte(q, flags), q, m.use[q])
  }

  lemma MapGood(m: Mem, t: nat, k: nat, q: nat, flags: nat)
    requires LastLevel(m, t) && k < ENTRIES && !Present(m.tables[t][k])
    requires q in m.use && Present(Pte(q, flags)) && Maps(Pte(q, flags))
    ensures m.use[q].Free? ==> Good(MapFrame(m, t, k, q, flags))
    ensures IsLent(m.use[q]) ==> Good(MapLent(m, t, k, q, flags))
  {
    if m.use[q].Free? || IsLent(m.use[q]) {
      var m' := if m.use[q].Free? then MapFrame(m, t, k, q, flags) else MapLent(m, t, k, q, flags);
      assert Shape(m');
      forall x, j | x in m'.tables && 0 <= j < ENTRIES ensures EntryRight(m', x, j) {
        assert EntryRight(m, x, j);
      }
      forall x | x in m'.use && IsHeld(m'.use[x]) ensures HeldRight(m', x) {
        if x != q {
          assert HeldRight(m, x);
          assert !(m.use[x].at == t && m.use[x].i == k);
        }
      }
    }
  }

  /** An entry cleared; a frame it held becomes free, a lent page stays what it is. */
  ghost function Unmap(m: Mem, t: nat, k: nat): Mem
    requires LastLevel(m, t) && k < ENTRIES && Present(m.tables[t][k])
  {
    assert EntryRight(m, t, k);
    var q := m.tables[t][k].ppn;
    SetEntry(m, t, k, NO_PTE, q, if m.use[q].Frame? then Free else m.use[q])
  }

  lemma UnmapGood(m: Mem, t: nat, k: nat)
    requires LastLevel(m, t) && k < ENTRIES && Present(m.tables[t][k])
    ensures Good(Unmap(m, t, k))
  {
    var m' := Unmap(m, t, k);
    assert EntryRight(m, t, k);
    assert Shape(m');
    forall x, j | x in m'.tables && 0 <= j < ENTRIES ensures EntryRight(m', x, j) {
      assert EntryRight(m, x, j);
    }
    forall x | x in m'.use && IsHeld(m'.use[x]) ensures HeldRight(m', x) {
      assert HeldRight(m, x);
      assert !(m.use[x].at == t && m.use[x].i == k);
    }
  }

  /** When tables keep their use and their upper entries, walks are the same. */
  lemma {:induction false} SameWalk(m: Mem, m': Mem, x: nat, v: nat)
    requires Good(m) && Good(m') && x in m.tables && m'.tables.Keys == m.tables.Keys
    requires forall p :: p in m.tables ==> m'.use[p] == m.use[p]
    requires forall p :: p in m.tables && Level(m.use[p]) > 0 ==> m'.tables[p] == m.tables[p]
    ensures Walk(m', x, v) == Walk(m, x, v)
    decreases Level(m.use[x])
  {
    var l := Level(m.use[x]);
    if l > 0 {
      assert EntryRight(m, x, Px(l, v));
      if Present(m.tables[x][Px(l, v)]) {
        SameWalk(m, m', m.tables[x][Px(l, v)].ppn, v);
      }
    }
  }

  /** Of all pages of all address spaces, exactly the one walked to sees the change. */
  lemma SetEntryEntry(m: Mem, t: nat, e: Pte, q: nat, u: Use, r: nat, v: nat, r': nat, v': nat)
    requires Good(m) && IsRoot(m, r) && IsRoot(m, r') && v < MAXPAGES && v' < MAXPAGES
    requires Walk(m, r, v) == Some(t) && t in m.tables && q !in m.tables
    requires Good(SetEntry(m, t, Px(0, v), e, q, u)) && !IsTable(u)
    ensures Entry(SetEntry(m, t, Px(0, v), e, q, u), r', v') == if r' == r && v' == v then e else Entry(m, r', v')
  {
    var m' := SetEntry(m, t, Px(0, v), e, q, u);
    WalkTable(m, r, v);
    WalkTable(m, r', v');
    SameWalk(m, m', r', v');
    if Walk(m, r', v') == Some(t) && Px(0, v') == Px(0, v) {
      SamePath(m, r, v, r', v');
      assert Px(1, v) == Px(1, v') && Px(2, v) == Px(2, v');
      PxInjective(v, v');
    }
  }

  // ---------------------------------------------------------------- roots and freeing tables

  ghost predicate IsEmpty(m: Mem, q: nat) {
    q in m.tables && forall i :: 0 <= i < |m.tables[q]| ==> !Present(m.tables[q][i])
  }

  /** An empty lower table freed and the entry that held it cleared. */
  ghost function FreeTable(m: Mem, q: nat): Mem
    requires Good(m) && IsEmpty(m, q) && m.use[q].Table?
  {
    assert HeldRight(m, q);
    var u := m.use[q];
    Mem((m.tables - {q})[u.at := m.tables[u.at][u.i := NO_PTE]], m.use[q := Free])
  }

  lemma FreeTableGood(m: Mem, q: nat)
    requires Good(m) && IsEmpty(m, q) && m.use[q].Table?
    ensures Good(FreeTable(m, q))
  {
    var m' := FreeTable(m, q);
    assert HeldRight(m, q);
    assert m.use[q].at != q;
    assert Shape(m');
    forall x, j | x in m'.tables && 0 <= j < ENTRIES ensures EntryRight(m', x, j) {
      assert EntryRight(m, x, j);
    }
    forall x | x in m'.use && IsHeld(m'.use[x]) ensures HeldRight(m', x) {
      assert HeldRight(m, x);
      assert !(m.use[x].at == m.use[q].at && m.use[x].i == m.use[q].i);
      assert m.use[x].at != q;
    }
  }

  /** An empty root freed. */
  ghost function FreeRoot(m: Mem, r: nat): Mem
    requires Good(m) && IsEmpty(m, r) && IsRoot(m, r)
  {
    Mem(m.tables - {r}, m.use[r := Free])
  }

  lemma FreeRootGood(m: Mem, r: nat)
    requires Good(m) && IsEmpty(m, r) && IsRoot(m, r)
    ensures Good(FreeRoot(m, r))
  {
    var m' := FreeRoot(m, r);
    assert Shape(m');
    forall x, j | x in m'.tables && 0 <= j < ENTRIES ensures EntryRight(m', x, j) {
      assert EntryRight(m, x, j);
    }
    forall x | x in m'.use && IsHeld(m'.use[x]) ensures HeldRight(m', x) {
      assert HeldRight(m, x);
      assert m.use[x].at != r;
    }
  }

  /** A free page made an empty root. */
  ghost function AddRoot(m: Mem, r: nat): Mem
    requires Good(m) && r in m.use && m.use[r].Free?
  {
    Mem(m.tables[r := EmptyTable()], m.use[r := Root])
  }

  lemma AddRootGood(m: Mem, r: nat)
    requires Good(m) && r in m.use && m.use[r].Free?
    ensures Good(AddRoot(m, r))
    ensures forall v: nat :: Entry(AddRoot(m, r), r, v) == NO_PTE
  {
    var m' := AddRoot(m, r);
    assert Shape(m');
    forall x, j | x in m'.tables && 0 <= j < ENTRIES ensures EntryRight(m', x, j) {
      if x != r {
        assert EntryRight(m, x, j);
      }
    }
    forall x | x in m'.use && IsHeld(m'.use[x]) ensures HeldRight(m', x) {
      assert HeldRight(m, x);
    }
    forall v: nat ensures Entry(m', r, v) == NO_PTE {
      assert EntryRight(m', r, Px(ROOT_LEVEL, v));
    }
  }

  // ---------------------------------------------------------------- the partial map a table stands for

  /** A mapped page: its frame and flags, and whether the address space owns the frame. */
  datatype Mapping = Mapping(ppn: nat, flags: nat, owned: bool)

  lemma EntryUse(m: Mem, r: nat, v: nat)
    requires Good(m) && r in m.tables && Present(Entry(m, r, v))
    ensures var e := Entry(m, r, v);
      && e.ppn in m.use && Maps(e)
      && Walk(m, r, v).Some?
      && (IsLent(m.use[e.ppn]) || m.use[e.ppn] == Frame(Walk(m, r, v).value, Px(0, v), RootOf(m, r)))
  {
    WalkTable(m, r, v);
    assert EntryRight(m, Walk(m, r, v).value, Px(0, v));
  }

  /** What page v of address space r is mapped to. */
  ghost function Lookup(m: Mem, r: nat, v: nat): Option<Mapping>
    requires Good(m) && IsRoot(m, r)
  {
    var e := Entry(m, r, v);
    if Present(e) then
      EntryUse(m, r, v);
      Some(Mapping(e.ppn, e.flags, m.use[e.ppn].Frame?))
    else None
  }

  /** Adding a table changes no translation. */
  lemma AddTableLookup(m: Mem, p: nat, i: nat, q: nat, r: nat, v: nat)
    requires CanAddTable(m, p, i, q) && IsRoot(m, r)
    ensures Good(AddTable(m, p, i, q)) && IsRoot(AddTable(m, p, i, q), r)
    ensures Lookup(AddTable(m, p, i, q), r, v) == Lookup(m, r, v)
  {
    AddTableEntry(m, p, i, q, r, v);
    if Present(Entry(m, r, v)) {
      EntryUse(m, r, v);
    }
  }

  /** A table hangs from one entry only. */
  lemma TableOnce(m: Mem, p: nat, i: nat, q: nat, j: nat)
    requires Good(m) && p in m.tables && q in m.tables && Level(m.use[p]) > 0 && Level(m.use[q]) > 0 && i < ENTRIES
    requires j < ENTRIES
    requires Present(m.tables[p][i]) && Present(m.tables[q][j]) && m.tables[p][i].ppn == m.tables[q][j].ppn
    ensures p == q && i == j
  {
    assert EntryRight(m, p, i) && EntryRight(m, q, j);
  }

  /** An owned frame is mapped at one page only. */
  lemma FrameOnce(m: Mem, r: nat, v: nat, r': nat, v': nat)
    requires Good(m) && IsRoot(m, r) && IsRoot(m, r') && v < MAXPAGES && v' < MAXPAGES
    requires Lookup(m, r, v).Some? && Lookup(m, r', v').Some?
    requires Lookup(m, r, v).value.owned && Lookup(m, r, v).value.ppn == Lookup(m, r', v').value.ppn
    ensures r == r' && v == v'
  {
    EntryUse(m, r, v);
    EntryUse(m, r', v');
    SamePath(m, r, v, r', v');
    assert Px(1, v) == Px(1, v') && Px(2, v) == Px(2, v');
    PxInjective(v, v');
  }

  /** Mapping inserts at v, and changes no other page of any address space. */
  lemma MapLookup(m: Mem, t: nat, q: nat, flags: nat, r: nat, v: nat, r': nat, v': nat)
    requires LastLevel(m, t) && IsRoot(m, r) && IsRoot(m, r') && v < MAXPAGES && v' < MAXPAGES
    requires Walk(m, r, v) == Some(t) && !Present(m.tables[t][Px(0, v)])
    requires q in m.use && (m.use[q].Free? || IsLent(m.use[q])) && Present(Pte(q, flags)) && Maps(Pte(q, flags))
    ensures var m' := if m.use[q].Free? then MapFrame(m, t, Px(0, v), q, flags) else MapLent(m, t, Px(0, v), q, flags);
      Good(m') && IsRoot(m', r') && Lookup(m', r', v') ==
        if r' == r && v' == v then Some(Mapping(q, flags, m.use[q].Free?)) else Lookup(m, r', v')
  {
    MapGood(m, t, Px(0, v), q, flags);
    var u := if m.use[q].Free? then Frame(t, Px(0, v), RootOf(m, t)) else m.use[q];
    SetEntryEntry(m, t, Pte(q, flags), q, u, r, v, r', v');
    if Present(Entry(m, r', v')) {
      EntryUse(m, r', v');
    }
  }

  /** Unmapping deletes v, and changes no other page of any address space. */
  lemma UnmapLookup(m: Mem, t: nat, r: nat, v: nat, r': nat, v': nat)
    requires LastLevel(m, t) && IsRoot(m, r) && IsRoot(m, r') && v < MAXPAGES && v' < MAXPAGES
    requires Walk(m, r, v) == Some(t) && Present(m.tables[t][Px(0, v)])
    ensures var m' := Unmap(m, t, Px(0, v));
      Good(m') && IsRoot(m', r') && Lookup(m', r', v') == if r' == r && v' == v then None else Lookup(m, r', v')
  {
    UnmapGood(m, t, Px(0, v));
    EntryUse(m, r, v);
    var q := m.tables[t][Px(0, v)].ppn;
    SetEntryEntry(m, t, NO_PTE, q, if m.use[q].Frame? then Free else m.use[q], r, v, r', v');
    if Present(Entry(m, r', v')) && !(r' == r && v' == v) {
      EntryUse(m, r', v');
      if m.use[q].Frame? && Entry(m, r', v').ppn == q {
        FrameOnce(m, r, v, r', v');
      }
    }
  }
}
