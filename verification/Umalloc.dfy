/** user/umalloc.c: the circular free list threaded through block headers, with free,
    morecore and malloc relinking it in place.

    A header is one unit of memory; `ptr` and `size` are the two header fields by address.
    sbrk is the only outside call: malloc takes the address it would return (0 for failure)
    as an argument, and is shown to need it at most once. */
module Umalloc {
  import opened FreeList

  const MIN_CORE: nat := 4096

  function NextIndex(i: nat, n: nat): nat {
    if i + 1 == n then 0 else i + 1
  }

  /** Steps from index i forward around a cycle of n to index k. */
  function Distance(i: nat, k: nat, n: nat): nat
    requires i < n && k < n
  {
    if i <= k then k - i else n - i + k
  }

  /** The header of block i gives its size and points to the next block of the cycle. */
  ghost predicate LinkAt(ptr: map<nat, nat>, size: map<nat, nat>, l: seq<Seg>, i: nat)
    requires i < |l|
  {
    && l[i].at in ptr && l[i].at in size
    && size[l[i].at] == l[i].len
    && ptr[l[i].at] == l[NextIndex(i, |l|)].at
  }

  /** The headers of the blocks in l form one cycle, in the order of l. */
  ghost predicate Chain(ptr: map<nat, nat>, size: map<nat, nat>, l: seq<Seg>) {
    forall i {:trigger LinkAt(ptr, size, l, i)} :: 0 <= i < |l| ==> LinkAt(ptr, size, l, i)
  }

  ghost predicate InList(l: seq<Seg>, a: nat) {
    exists i :: 0 <= i < |l| && l[i].at == a
  }

  /** Allocated blocks: their headers are intact and they meet neither each other nor the
      free blocks. */
  ghost predicate LiveApart(size: map<nat, nat>, l: seq<Seg>, live: map<nat, nat>, base: nat) {
    && (forall a :: a in live ==>
          base < a && live[a] > 0 && a in size && size[a] == live[a] && ApartFromAll(l, Seg(a, live[a])))
    && (forall a, b :: a in live && b in live && a != b ==> Apart(Seg(a, live[a]), Seg(b, live[b])))
  }

  ghost function MapTotal(m: map<nat, nat>): nat {
    if m == map[] then 0 else
      var a :| a in m;
      m[a] + MapTotal(m - {a})
  }

  lemma {:induction false} MapTotalRemove(m: map<nat, nat>, a: nat)
    requires a in m
    ensures MapTotal(m) == m[a] + MapTotal(m - {a})
  {
    var b :| b in m && MapTotal(m) == m[b] + MapTotal(m - {b});
    if b != a {
      MapTotalRemove(m - {b}, a);
      MapTotalRemove(m - {a}, b);
      assert m - {a} - {b} == m - {b} - {a};
    }
  }

  lemma MapTotalAdd(m: map<nat, nat>, a: nat, n: nat)
    requires a !in m
    ensures MapTotal(m[a := n]) == MapTotal(m) + n
  {
    MapTotalRemove(m[a := n], a);
    assert m[a := n] - {a} == m;
  }

  /** Every address above the base has its place in the list. */
  lemma PlaceExists(l: seq<Seg>, at: nat) returns (k: nat)
    requires Sorted(l) && l[0].at < at && !InList(l, at)
    ensures Place(l, k, at)
  {
    k := 0;
    while k + 1 < |l| && l[k + 1].at < at
      invariant k < |l| && l[k].at < at
    {
      k := k + 1;
    }
    assert k + 1 < |l| ==> l[k + 1].at != at;
  }

  class Allocator {
    const base: nat
    var ptr: map<nat, nat>
    var size: map<nat, nat>
    var freep: nat
    var brk: nat                     // end of the memory sbrk has given out
    ghost var list: seq<Seg>         // the free list, from base in address order
    ghost var live: map<nat, nat>    // allocated blocks: header address to units
    ghost var obtained: nat          // units obtained from sbrk

    /** The list as free and malloc need it. */
    ghost predicate Linked()
      reads this
    {
      Sorted(list) && list[0].at == base && Chain(ptr, size, list) && InList(list, freep)
    }

    ghost predicate Below()
      reads this
    {
      && base < brk
      && (forall i :: 0 <= i < |list| ==> list[i].at + list[i].len <= brk)
      && (forall a :: a in live ==> a + live[a] <= brk)
    }

    ghost predicate Valid()
      reads this
    {
      && 0 < base
      && (freep == 0 ==> list == [Seg(base, 0)] && live == map[])
      && (freep != 0 ==> Linked())
      && Sorted(list) && list[0].at == base
      && LiveApart(size, list, live, base)
      && Below()
      && obtained == Total(list) + MapTotal(live)
    }

    constructor (base: nat, brk: nat)
      requires 0 < base < brk
      ensures Valid() && freep == 0 && live == map[] && obtained == 0
    {
      this.base, this.brk, ptr, size, freep := base, brk, map[], map[], 0;
      list, live, obtained := [Seg(base, 0)], map[], 0;
    }

    /** The search of free: the block after which bp belongs. */
    method FindPlace(bp: nat) returns (p: nat, ghost k: nat)
      requires Linked() && base < bp && !InList(list, bp)
      ensures Place(list, k, bp) && p == list[k].at
      ensures exists j: nat :: Place(list, j, bp) && p == list[j].at
    {
      k := PlaceExists(list, bp);
      p := freep;
      ghost var i :| 0 <= i < |list| && list[i].at == p;
      LinkedAt(i);
      while !(bp > p && bp < ptr[p])
        invariant 0 <= i < |list| && list[i].at == p && LinkAt(ptr, size, list, i)
        decreases Distance(i, k, |list|)
      {
        OnlyHere(list, i, k, bp);
        LinkedAt(NextIndex(i, |list|));
        if p >= ptr[p] && (bp > p || bp < ptr[p]) {
          break;
        }
        p := ptr[p];
        i := NextIndex(i, |list|);
      }
      OnlyHere(list, i, k, bp);
    }

    /** The relinking of free, for a block that is on no list: join it with the block above,
        then with the block below. */
    method Link(bp: nat, p: nat, ghost k: nat)
      requires Linked() && bp in size && CanInsert(list, k, Seg(bp, size[bp])) && p == list[k].at
      modifies `ptr, `size, `freep, `list
      ensures Linked() && list == Insert(old(list), k, Seg(bp, old(size)[bp])) && freep == p >= base
      ensures forall a :: a in old(size) && a != bp && !InList(old(list), a) ==> a in size && size[a] == old(size)[a]
    {
      hide Insert, Sorted, Chain, ApartFromAll, InList;
      ghost var l, n := list, size[bp];
      LinkedAt(k);
      InsertSorted(l, k, Seg(bp, n));
      BaseFirst(l, k);
      var q := ptr[p];
      if bp + size[bp] == q {
        size := size[bp := size[bp] + size[q]];
        ptr := ptr[bp := ptr[q]];
      } else {
        ptr := ptr[bp := q];
      }
      if p + size[p] == bp {
        size := size[p := size[p] + size[bp]];
        ptr := ptr[p := ptr[bp]];
      } else {
        ptr := ptr[p := bp];
      }
      freep := p;
      list := Insert(l, k, Seg(bp, n));
      LinkChain(old(ptr), old(size), l, k, bp, ptr, size);
      IsInList(list, k);
    }

    /** Return an allocated block to the free list. */
    method Free(ap: nat) returns (ghost k: nat)
      requires Valid() && ap > 0 && ap - 1 in live
      modifies `ptr, `size, `freep, `list, `live
      ensures Valid() && live == old(live) - {ap - 1}
      ensures k < |old(list)| && Place(old(list), k, ap - 1)
      ensures list == Insert(old(list), k, Seg(ap - 1, old(live)[ap - 1]))
    {
      hide Insert, Chain, Total, MapTotal, LiveApart, Sorted, ApartFromAll, InList;
      var bp := ap - 1;
      ghost var s := Seg(bp, live[bp]);
      LiveOne(size, list, live, base, bp);
      ApartNotIn(list, s);
      var p;
      p, k := FindPlace(bp);
      live := live - {bp};
      MapTotalRemove(old(live), bp);
      InsertTotal(list, k, s);
      InsertBelow(list, k, s, brk);
      LiveAfterInsert(size, list, live, base, k, s);
      Link(bp, p, k);
      LiveSizes(old(size), size, old(list), list, live, base);
    }

    /** Ask sbrk for at least nu units and free them; `core` is sbrk's answer, 0 for failure. */
    method Morecore(nu: nat, core: nat) returns (r: nat, ghost k: nat)
      requires Valid() && freep != 0 && (core == 0 || core >= brk)
      modifies `ptr, `size, `freep, `brk, `list, `obtained
      ensures Valid() && freep != 0
      ensures core == 0 ==> r == 0 && freep == old(freep) && list == old(list) && obtained == old(obtained)
      ensures core != 0 ==> r == freep && k < |old(list)| && obtained == old(obtained) + CoreSize(nu)
      ensures core != 0 ==> list == Insert(old(list), k, Seg(core, CoreSize(nu)))
      ensures core != 0 ==> k < |list| && list[k].at == freep && HasFit(list, nu)
    {
      hide Insert, Chain, Total, LiveApart, Sorted, ApartFromAll, InList;
      var n := CoreSize(nu);
      k := 0;
      if core == 0 {
        return 0, k;
      }
      ghost var s, l := Seg(core, n), list;
      CoreApart(list, live, base, s, brk);
      ApartNotIn(list, s);
      HeaderKeeps(ptr, size, list, live, base, s);
      size := size[core := n];
      brk, obtained := core + n, obtained + n;
      var p;
      p, k := FindPlace(core);
      InsertSorted(l, k, s);
      InsertTotal(l, k, s);
      InsertBelow(l, k, s, brk);
      InsertFits(l, k, s, nu);
      LiveAfterInsert(size, l, live, base, k, s);
      ghost var size1 := size;
      Link(core, p, k);
      LiveSizes(size1, size, l, list, live, base);
      r := freep;
    }

    /** The end of malloc: take n units from block i, whose predecessor is prevp. */
    method Take(prevp: nat, p: nat, n: nat, ghost i: nat) returns (r: nat)
      requires Valid() && freep != 0 && 0 < i < |list| && p == list[i].at && prevp == list[i - 1].at
      requires 0 < n <= list[i].len
      modifies `ptr, `size, `freep, `list, `live
      ensures Valid() && freep == prevp && freep != 0
      ensures list == Carve(old(list), i, n)
      ensures r > 0 && r - 1 == Carved(old(list), i, n).at && live == old(live)[r - 1 := n] && r - 1 !in old(live)
    {
      hide Carve, Chain, Total, MapTotal, LiveApart, Sorted, ApartFromAll, InList;
      ghost var l, s := list, Carved(list, i, n);
      CarveSorted(l, i, n);
      CarveTotal(l, i, n);
      BaseFirst(l, i - 1);
      LinkedAt(i);
      LinkedAt(i - 1);
      LiveAfterCarve(size, l, live, base, i, n);
      CarveBelow(l, i, n, brk);
      var q := p;
      if size[p] == n {
        UnlinkChain(ptr, size, l, i);
        ptr := ptr[prevp := ptr[p]];
      } else {
        ShrinkChain(ptr, size, l, i, n);
        size := size[p := size[p] - n];
        q := p + size[p];
      }
      CarvedOutside(l, i, n);
      list := Carve(l, i, n);
      ListHeader(old(size), size, l, list, live, base, p);
      ApartNotIn(list, s);
      HeaderKeeps(ptr, size, list, live, base, s);
      size := size[q := n];
      freep := prevp;
      CarveKeepsBefore(l, i, n);
      IsInList(list, i - 1);
      live := live[q := n];
      MapTotalAdd(old(live), q, n);
      LiveAdd(size, list, old(live), base, s);
      r := q + 1;
    }

    /** Allocate nbytes bytes.  `core` is what sbrk returns if asked; `grew` tells whether it
        was.  The search visits the list once, asks for memory at most once, and then finds it.
        A block of `units` units of 16 bytes is the smallest with room for the bytes and a header. */
    method Malloc(nbytes: nat, core: nat) returns (r: nat, ghost grew: bool, ghost units: nat)
      requires Valid() && (core == 0 || core >= brk)
      modifies `ptr, `size, `freep, `brk, `list, `live, `obtained
      ensures Valid()
      ensures r == 0 ==> live == old(live) && obtained == old(obtained) && grew && core == 0
      ensures 16 * (units - 1) >= nbytes && 16 * (units - 2) < nbytes
      ensures r == 0 ==> list == old(list)
      ensures r != 0 ==> r - 1 !in old(live) && live == old(live)[r - 1 := units]
      ensures r != 0 ==> 16 * (live[r - 1] - 1) >= nbytes && 16 * (live[r - 1] - 2) < nbytes
      ensures grew ==> forall j :: 0 <= j < |old(list)| ==> old(list)[j].len < units
      ensures obtained == old(obtained) + (if !grew || core == 0 then 0 else if units < 4096 then 4096 else units)
    {
      hide Insert, Carve, Chain, Total, MapTotal, LiveApart, Sorted, ApartFromAll, InList, Checked, HasFit, Below;
      var nunits := (nbytes + 15) / 16 + 1;
      grew, units := false, nunits;
      if freep == 0 {
        Init();
      }
      ghost var f: nat := Locate();
      var prevp := freep;
      var p := ptr[prevp];
      ghost var h: nat, i: nat := f, NextIndex(f, |list|);
      StartRound(list, f, nunits);
      while true
        invariant Valid() && freep != 0 && f < |list| && h < |list| && i == NextIndex(h, |list|)
        invariant list[f].at == freep && list[h].at == prevp && list[i].at == p
        invariant live == old(live) && (!grew ==> list == old(list) && obtained == old(obtained) && brk == old(brk))
        invariant grew ==> core != 0 && obtained == old(obtained) + CoreSize(nunits) && HasFit(list, nunits)
        invariant grew ==> forall j :: 0 <= j < |old(list)| ==> old(list)[j].len < nunits
        invariant Checked(list, f, i, nunits)
        decreases !grew, Distance(i, f, |list|)
      {
        LinkedAt(i);
        if size[p] >= nunits {
          FitIsNotBase(list, i, nunits);
          r := Take(prevp, p, nunits, i);
          return;
        }
        CheckedMore(list, f, i, nunits);
        if p == freep {
          SameIndex(list, f, i);
          AllChecked(list, f, nunits);
          assert !grew;
          ghost var k;
          p, k := Morecore(nunits, core);
          grew := true;
          if p == 0 {
            return 0, grew, units;
          }
          f, i := k, k;
          StartRound(list, f, nunits);
        } else {
          CheckedNext(list, f, i, nunits);
        }
        LinkedAt(i);
        prevp, p := p, ptr[p];
        h, i := i, NextIndex(i, |list|);
      }
    }

    /** The first call makes base a list of its own. */
    method Init()
      requires Valid() && freep == 0
      modifies `ptr, `size, `freep
      ensures Valid() && freep == base
    {
      ptr, size, freep := ptr[base := base], size[base := 0], base;
      assert list == [Seg(base, 0)];
      assert LinkAt(ptr, size, list, 0);
      assert list[0].at == base;
    }

    lemma Locate() returns (f: nat)
      requires Linked()
      ensures f < |list| && list[f].at == freep
      ensures LinkAt(ptr, size, list, f)
    {
      f :| f < |list| && list[f].at == freep;
      assert LinkAt(ptr, size, list, f);
    }

    lemma LinkedAt(k: nat)
      requires Linked() && k < |list|
      ensures LinkAt(ptr, size, list, k)
      ensures var p, q := list[k].at, list[NextIndex(k, |list|)].at;
        p in ptr && p in size && ptr[p] == q && q in size && q in ptr && InList(list, p) && InList(list, q)
    {
      assert LinkAt(ptr, size, list, k);
      assert LinkAt(ptr, size, list, NextIndex(k, |list|));
    }
  }

  /** The header updates of free, as one change. */
  ghost predicate Relinked(ptr: map<nat, nat>, size: map<nat, nat>, p: nat, bp: nat,
                           ptr': map<nat, nat>, size': map<nat, nat>)
    requires p in ptr && p in size && bp in size && ptr[p] in ptr && ptr[p] in size
  {
    var q := ptr[p];
    var above := bp + size[bp] == q;
    var n := if above then size[bp] + size[q] else size[bp];
    var next := if above then ptr[q] else q;
    if p + size[p] == bp
    then size' == size[bp := n][p := size[p] + n] && ptr' == ptr[bp := next][p := next]
    else size' == size[bp := n] && ptr' == ptr[bp := next][p := bp]
  }

  ghost predicate Ascending(l: seq<Seg>) {
    forall i, j :: 0 <= i < j < |l| ==> l[i].at < l[j].at
  }

  function AddAfter(l: seq<Seg>, k: nat, s: Seg): seq<Seg>
    requires k < |l|
  {
    l[..k + 1] + [s] + l[k + 1..]
  }

  /** Segments i and i + 1 as one. */
  function Merge(l: seq<Seg>, i: nat): seq<Seg>
    requires i + 1 < |l|
  {
    l[..i] + [Seg(l[i].at, l[i].len + l[i + 1].len)] + l[i + 2..]
  }

  lemma AddChain(ptr: map<nat, nat>, size: map<nat, nat>, l: seq<Seg>, k: nat, bp: nat)
    requires Chain(ptr, size, l) && Ascending(l) && k < |l| && bp in size
    requires forall i :: 0 <= i < |l| ==> l[i].at != bp
    requires l[k].at in ptr
    ensures Chain(ptr[l[k].at := bp][bp := ptr[l[k].at]], size, AddAfter(l, k, Seg(bp, size[bp])))
  {
    var r := AddAfter(l, k, Seg(bp, size[bp]));
    var ptr' := ptr[l[k].at := bp][bp := ptr[l[k].at]];
    forall i | 0 <= i < |r| ensures LinkAt(ptr', size, r, i) {
      if i <= k {
        assert r[i] == l[i] && LinkAt(ptr, size, l, i);
      } else if i == k + 1 {
        assert LinkAt(ptr, size, l, k);
      } else {
        assert r[i] == l[i - 1] && LinkAt(ptr, size, l, i - 1);
      }
    }
  }

  lemma MergeChain(ptr: map<nat, nat>, size: map<nat, nat>, l: seq<Seg>, i: nat)
    requires Chain(ptr, size, l) && Ascending(l) && i + 1 < |l|
    requires l[i].at in size && l[i + 1].at in ptr && l[i + 1].at in size
    ensures var a, b := l[i].at, l[i + 1].at;
      Chain(ptr[a := ptr[b]], size[a := size[a] + size[b]], Merge(l, i))
  {
    var r := Merge(l, i);
    var a, b := l[i].at, l[i + 1].at;
    assert LinkAt(ptr, size, l, i) && LinkAt(ptr, size, l, i + 1);
    var ptr', size' := ptr[a := ptr[b]], size[a := size[a] + size[b]];
    forall j | 0 <= j < |r| ensures LinkAt(ptr', size', r, j) {
      if j < i {
        assert r[j] == l[j] && LinkAt(ptr, size, l, j);
      } else if j > i {
        assert r[j] == l[j + 1] && LinkAt(ptr, size, l, j + 1);
      }
    }
  }

  lemma AddAscending(l: seq<Seg>, k: nat, s: Seg)
    requires Sorted(l) && Place(l, k, s.at)
    ensures Ascending(l) && Ascending(AddAfter(l, k, s))
    ensures forall i :: 0 <= i < |l| ==> l[i].at != s.at
  {
    forall i | 0 <= i < |l| ensures if i <= k then l[i].at < s.at else s.at < l[i].at {
      if i < k {
        assert l[i].at < l[k].at;
      } else if k + 1 < i {
        assert l[k + 1].at < l[i].at;
      }
    }
    var r := AddAfter(l, k, s);
    forall i, j | 0 <= i < j < |r| ensures r[i].at < r[j].at {
      assert r[i] == if i <= k then l[i] else if i == k + 1 then s else l[i - 1];
      assert r[j] == if j <= k then l[j] else if j == k + 1 then s else l[j - 1];
    }
  }

  lemma MergeAscending(l: seq<Seg>, i: nat)
    requires Ascending(l) && i + 1 < |l|
    ensures Ascending(Merge(l, i))
  {
  }

  /** Inserting is adding, then merging upwards and downwards where blocks touch. */
  lemma InsertSteps(l: seq<Seg>, k: nat, s: Seg)
    requires k < |l|
    ensures var l1 := AddAfter(l, k, s);
      var above := k + 1 < |l| && s.at + s.len == l[k + 1].at;
      var l2 := if above then Merge(l1, k + 1) else l1;
      Insert(l, k, s) == if l[k].at + l[k].len == s.at then Merge(l2, k) else l2
  {
    var (t, rest) := JoinAbove(l, k, s);
    var l1 := AddAfter(l, k, s);
    var l2 := l[..k + 1] + [t] + rest;
    if k + 1 < |l| && s.at + s.len == l[k + 1].at {
      assert Merge(l1, k + 1) == l2;
    } else {
      assert l1 == l2;
    }
    assert l2[..k] == l[..k] && l2[k] == l[k] && l2[k + 1] == t && l2[k + 2..] == rest;
    assert Merge(l2, k) == l[..k] + [Seg(l[k].at, l[k].len + t.len)] + rest;
  }

  /** The first half of free's relinking: the new block, joined with the one above it. */
  lemma AboveChain(ptr: map<nat, nat>, size: map<nat, nat>, l: seq<Seg>, k: nat, bp: nat)
    requires Chain(ptr, size, l) && bp in size && CanInsert(l, k, Seg(bp, size[bp]))
    requires l[k].at in ptr && ptr[l[k].at] in ptr && ptr[l[k].at] in size
    ensures var p, s := l[k].at, Seg(bp, size[bp]);
      var q := ptr[p];
      var above := bp + size[bp] == q;
      var l1 := AddAfter(l, k, s);
      var l2 := if k + 1 < |l| && bp + size[bp] == l[k + 1].at then Merge(l1, k + 1) else l1;
      Chain(ptr[p := bp][bp := if above then ptr[q] else q],
            size[bp := if above then size[bp] + size[q] else size[bp]], l2)
      && Ascending(l2) && k + 1 < |l2| && l2[k] == l[k] && l2[k + 1].at == bp
  {
    hide Sorted, ApartFromAll, Chain, Ascending;
    var p: nat := l[k].at;
    var q: nat := ptr[p];
    var s := Seg(bp, size[bp]);
    AddAscending(l, k, s);
    AddChain(ptr, size, l, k, bp);
    NotAboveBase(l, k, s);
    ChainNext(ptr, size, l, k);
    var l1 := AddAfter(l, k, s);
    var ptr1 := ptr[p := bp][bp := q];
    if bp + size[bp] == q {
      assert l1[k + 1] == s && l1[k + 2] == l[k + 1];
      MergeChain(ptr1, size, l1, k + 1);
      MergeAscending(l1, k + 1);
      assert ptr1[bp := ptr1[q]] == ptr[p := bp][bp := ptr[q]];
    } else {
      assert size[bp := size[bp]] == size;
    }
  }

  lemma ChainNext(ptr: map<nat, nat>, size: map<nat, nat>, l: seq<Seg>, k: nat)
    requires Chain(ptr, size, l) && k < |l|
    ensures l[k].at in ptr && l[k].at in size && size[l[k].at] == l[k].len
    ensures ptr[l[k].at] == if k + 1 < |l| then l[k + 1].at else l[0].at
  {
    assert LinkAt(ptr, size, l, k);
  }

  lemma LinkChain(ptr: map<nat, nat>, size: map<nat, nat>, l: seq<Seg>, k: nat, bp: nat,
                  ptr': map<nat, nat>, size': map<nat, nat>)
    requires Chain(ptr, size, l) && bp in size && CanInsert(l, k, Seg(bp, size[bp]))
    requires l[k].at in ptr && l[k].at in size && ptr[l[k].at] in ptr && ptr[l[k].at] in size
    requires Relinked(ptr, size, l[k].at, bp, ptr', size')
    ensures Chain(ptr', size', Insert(l, k, Seg(bp, size[bp])))
  {
    hide Sorted, Insert, ApartFromAll, Chain, Ascending;
    var p: nat := l[k].at;
    var q: nat := ptr[p];
    var s := Seg(bp, size[bp]);
    AboveChain(ptr, size, l, k, bp);
    InsertSteps(l, k, s);
    ChainNext(ptr, size, l, k);
    var above := bp + size[bp] == q;
    var ptr2 := ptr[p := bp][bp := if above then ptr[q] else q];
    var size2 := size[bp := if above then size[bp] + size[q] else size[bp]];
    var l1 := AddAfter(l, k, s);
    var l2 := if k + 1 < |l| && s.at + s.len == l[k + 1].at then Merge(l1, k + 1) else l1;
    if p + l[k].len == bp {
      MergeChain(ptr2, size2, l2, k);
      assert ptr2[p := ptr2[bp]] == ptr' && size2[p := size2[p] + size2[bp]] == size';
    } else {
      assert ptr2 == ptr' && size2 == size';
    }
  }

  /** The block above the last one is the base, which nothing touches from below. */
  lemma NotAboveBase(l: seq<Seg>, k: nat, s: Seg)
    requires Sorted(l) && Place(l, k, s.at)
    ensures l[0].at < s.at
  {
    assert k > 0 ==> l[0].at < l[k].at;
  }

  /** The two exit tests of the search hold at the right block and nowhere else. */
  lemma OnlyHere(l: seq<Seg>, i: nat, k: nat, at: nat)
    requires Sorted(l) && i < |l| && Place(l, k, at) && l[0].at < at && !InList(l, at)
    ensures var p, q := l[i].at, l[NextIndex(i, |l|)].at;
      (at > p && at < q) || (p >= q && (at > p || at < q)) <==> i == k
  {
    var q := l[NextIndex(i, |l|)].at;
    if i < k {
      assert l[i + 1].at <= l[k].at;
    } else if i > k {
      assert at < l[k + 1].at <= l[i].at;
    }
  }

  lemma BaseFirst(l: seq<Seg>, k: nat)
    requires Sorted(l) && k < |l|
    ensures l[0].at <= l[k].at
  {
  }

  lemma IsInList(l: seq<Seg>, k: nat)
    requires k < |l|
    ensures InList(l, l[k].at)
  {
  }

  /** A block apart from the list is not one of its blocks. */
  lemma ApartNotIn(l: seq<Seg>, s: Seg)
    requires Sorted(l) && l[0].at < s.at && s.len > 0 && ApartFromAll(l, s)
    ensures !InList(l, s.at)
  {
    forall i | 0 <= i < |l| ensures l[i].at != s.at {
      assert Apart(l[i], s);
    }
  }

  lemma LiveOne(size: map<nat, nat>, l: seq<Seg>, live: map<nat, nat>, base: nat, a: nat)
    requires LiveApart(size, l, live, base) && a in live
    ensures base < a && live[a] > 0 && a in size && size[a] == live[a] && ApartFromAll(l, Seg(a, live[a]))
    ensures LiveApart(size, l, live - {a}, base)
    ensures forall b :: b in live - {a} ==> Apart(Seg(a, live[a]), Seg(b, live[b]))
  {
  }

  lemma InsertBelow(l: seq<Seg>, k: nat, s: Seg, brk: nat)
    requires k < |l| && s.at + s.len <= brk && forall i :: 0 <= i < |l| ==> l[i].at + l[i].len <= brk
    requires CanInsert(l, k, s)
    ensures forall i :: 0 <= i < |Insert(l, k, s)| ==> Insert(l, k, s)[i].at + Insert(l, k, s)[i].len <= brk
  {
    hide Sorted, ApartFromAll;
  }

  lemma LiveAfterInsert(size: map<nat, nat>, l: seq<Seg>, live: map<nat, nat>, base: nat, k: nat, s: Seg)
    requires LiveApart(size, l, live, base) && CanInsert(l, k, s)
    requires forall a :: a in live ==> Apart(s, Seg(a, live[a]))
    ensures LiveApart(size, Insert(l, k, s), live, base)
  {
    hide Insert, Sorted;
    forall a | a in live ensures ApartFromAll(Insert(l, k, s), Seg(a, live[a])) {
      InsertApart(l, k, s, Seg(a, live[a]));
    }
  }

  /** Relinking the list leaves the headers of allocated blocks alone. */
  lemma LiveSizes(size: map<nat, nat>, size': map<nat, nat>, l: seq<Seg>, l': seq<Seg>, live: map<nat, nat>, base: nat)
    requires LiveApart(size, l', live, base) && LiveApart(size, l, live, base) && Sorted(l) && l[0].at == base
    requires forall a :: a in live && !InList(l, a) ==> a in size' && size'[a] == size[a]
    ensures LiveApart(size', l', live, base)
  {
    forall a | a in live ensures a in size' && size'[a] == size[a] {
      ApartNotIn(l, Seg(a, live[a]));
    }
  }

  // ---------------------------------------------------------------- growing

  function CoreSize(nu: nat): nat {
    if nu < MIN_CORE then MIN_CORE else nu
  }

  ghost predicate HasFit(l: seq<Seg>, n: nat) {
    exists i :: 0 <= i < |l| && l[i].len >= n
  }

  lemma InsertFits(l: seq<Seg>, k: nat, s: Seg, n: nat)
    requires k < |l| && n <= s.len
    ensures HasFit(Insert(l, k, s), n)
  {
    var r := Insert(l, k, s);
    var i := if l[k].at + l[k].len == s.at then k else k + 1;
    assert r[i].len >= n;
  }

  /** Memory fresh from sbrk meets nothing. */
  lemma CoreApart(l: seq<Seg>, live: map<nat, nat>, base: nat, s: Seg, brk: nat)
    requires base < brk <= s.at
    requires forall i :: 0 <= i < |l| ==> l[i].at + l[i].len <= brk
    requires forall a :: a in live ==> a + live[a] <= brk
    ensures ApartFromAll(l, s) && forall a :: a in live ==> Apart(s, Seg(a, live[a]))
  {
  }

  /** Writing the header of a block that meets nothing keeps the list and the live blocks. */
  lemma HeaderKeeps(ptr: map<nat, nat>, size: map<nat, nat>, l: seq<Seg>, live: map<nat, nat>, base: nat, s: Seg)
    requires Chain(ptr, size, l) && LiveApart(size, l, live, base) && !InList(l, s.at)
    requires s.len > 0 && forall a :: a in live ==> Apart(s, Seg(a, live[a]))
    ensures Chain(ptr, size[s.at := s.len], l) && LiveApart(size[s.at := s.len], l, live, base)
    ensures forall a :: a in live ==> a != s.at && a in size
  {
    var size' := size[s.at := s.len];
    forall i | 0 <= i < |l| ensures LinkAt(ptr, size', l, i) {
      assert LinkAt(ptr, size, l, i);
    }
    forall a | a in live ensures a != s.at {
      assert Apart(s, Seg(a, live[a]));
    }
  }

  // ---------------------------------------------------------------- taking

  lemma UnlinkChain(ptr: map<nat, nat>, size: map<nat, nat>, l: seq<Seg>, i: nat)
    requires Chain(ptr, size, l) && Sorted(l) && 0 < i < |l| && l[i].at in ptr
    ensures Chain(ptr[l[i - 1].at := ptr[l[i].at]], size, l[..i] + l[i + 1..])
  {
    var r, ptr' := l[..i] + l[i + 1..], ptr[l[i - 1].at := ptr[l[i].at]];
    assert LinkAt(ptr, size, l, i) && LinkAt(ptr, size, l, i - 1);
    forall j | 0 <= j < |r| ensures LinkAt(ptr', size, r, j) {
      if j < i {
        assert r[j] == l[j] && LinkAt(ptr, size, l, j);
      } else {
        assert r[j] == l[j + 1] && LinkAt(ptr, size, l, j + 1);
      }
    }
  }

  lemma ShrinkChain(ptr: map<nat, nat>, size: map<nat, nat>, l: seq<Seg>, i: nat, n: nat)
    requires Chain(ptr, size, l) && Sorted(l) && 0 < i < |l| && n < l[i].len && l[i].at in size
    requires size[l[i].at] == l[i].len
    ensures Chain(ptr, size[l[i].at := size[l[i].at] - n], l[i := Seg(l[i].at, l[i].len - n)])
  {
    var r, size' := l[i := Seg(l[i].at, l[i].len - n)], size[l[i].at := size[l[i].at] - n];
    forall j | 0 <= j < |r| ensures LinkAt(ptr, size', r, j) {
      assert LinkAt(ptr, size, l, j);
    }
  }

  lemma CarveBelow(l: seq<Seg>, i: nat, n: nat, brk: nat)
    requires 0 < i < |l| && n <= l[i].len && forall j :: 0 <= j < |l| ==> l[j].at + l[j].len <= brk
    ensures forall j :: 0 <= j < |Carve(l, i, n)| ==> Carve(l, i, n)[j].at + Carve(l, i, n)[j].len <= brk
    ensures Carved(l, i, n).at + n <= brk
  {
  }

  lemma CarveKeepsBefore(l: seq<Seg>, i: nat, n: nat)
    requires 0 < i < |l| && n <= l[i].len
    ensures i - 1 < |Carve(l, i, n)| && Carve(l, i, n)[i - 1] == l[i - 1]
  {
  }

  lemma CarvedOutside(l: seq<Seg>, i: nat, n: nat)
    requires 0 < i < |l| && n <= l[i].len
    ensures Carve(l, i, n) == if l[i].len == n then l[..i] + l[i + 1..] else l[i := Seg(l[i].at, l[i].len - n)]
  {
  }

  lemma LiveAfterCarve(size: map<nat, nat>, l: seq<Seg>, live: map<nat, nat>, base: nat, i: nat, n: nat)
    requires LiveApart(size, l, live, base) && Sorted(l) && 0 < i < |l| && 0 < n <= l[i].len
    ensures LiveApart(size, Carve(l, i, n), live, base)
    ensures forall a :: a in live ==> Apart(Carved(l, i, n), Seg(a, live[a]))
  {
    hide Carve, Sorted, ApartFromAll;
    forall a | a in live
      ensures ApartFromAll(Carve(l, i, n), Seg(a, live[a])) && Apart(Carved(l, i, n), Seg(a, live[a]))
    {
      CarveApart(l, i, n, Seg(a, live[a]));
    }
  }

  /** A change to one list header leaves the live blocks alone. */
  lemma ListHeader(size: map<nat, nat>, size': map<nat, nat>, l: seq<Seg>, l': seq<Seg>, live: map<nat, nat>,
                   base: nat, p: nat)
    requires LiveApart(size, l', live, base) && LiveApart(size, l, live, base) && Sorted(l) && l[0].at == base
    requires InList(l, p) && p in size' && size' == size[p := size'[p]]
    ensures LiveApart(size', l', live, base)
  {
    hide Sorted;
    LiveSizes(size, size', l, l', live, base);
  }

  lemma LiveAdd(size: map<nat, nat>, l: seq<Seg>, live: map<nat, nat>, base: nat, s: Seg)
    requires LiveApart(size, l, live, base) && base < s.at && s.len > 0 && s.at in size && size[s.at] == s.len
    requires ApartFromAll(l, s) && s.at !in live && forall a :: a in live ==> Apart(s, Seg(a, live[a]))
    ensures LiveApart(size, l, live[s.at := s.len], base)
  {
  }

  // ---------------------------------------------------------------- malloc's search

  /** Every block from the one after f up to, not including, i is too small. */
  ghost predicate Checked(l: seq<Seg>, f: nat, i: nat, n: nat)
    requires f < |l| && i < |l|
  {
    forall j :: 0 <= j < |l| && Distance(NextIndex(f, |l|), j, |l|) < Distance(NextIndex(f, |l|), i, |l|) ==>
      l[j].len < n
  }

  lemma StartRound(l: seq<Seg>, f: nat, n: nat)
    requires f < |l|
    ensures Checked(l, f, NextIndex(f, |l|), n)
  {
  }

  /** Block i is too small as well. */
  lemma CheckedMore(l: seq<Seg>, f: nat, i: nat, n: nat)
    requires f < |l| && i < |l| && Checked(l, f, i, n) && l[i].len < n
    ensures i == f ==> forall j :: 0 <= j < |l| ==> l[j].len < n
    ensures i != f ==> Checked(l, f, NextIndex(i, |l|), n)
  {
  }

  lemma CheckedNext(l: seq<Seg>, f: nat, i: nat, n: nat)
    requires f < |l| && i < |l| && i != f
    ensures Distance(NextIndex(i, |l|), f, |l|) < Distance(i, f, |l|)
  {
  }

  lemma AllChecked(l: seq<Seg>, f: nat, n: nat)
    requires forall j :: 0 <= j < |l| ==> l[j].len < n
    ensures !HasFit(l, n) && forall j :: 0 <= j < |l| ==> l[j].len < n
  {
  }

  lemma SameIndex(l: seq<Seg>, f: nat, i: nat)
    requires Sorted(l) && f < |l| && i < |l| && l[f].at == l[i].at
    ensures f == i
  {
  }

  lemma FitIsNotBase(l: seq<Seg>, i: nat, n: nat)
    requires Sorted(l) && i < |l| && 0 < n <= l[i].len
    ensures i > 0
  {
  }
}
