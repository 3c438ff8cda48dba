/** The free list of user/umalloc.c as a sorted list of segments, and how freeing and
    allocating change it.  Addresses and sizes are in units of one header. */
module FreeList {

  datatype Seg = Seg(at: nat, len: nat)

  ghost predicate Gaps(l: seq<Seg>) {
    forall i, j :: 0 <= i < j < |l| ==> l[i].at + l[i].len < l[j].at
  }

  /** The list starts with the empty `base` block; the other blocks follow in address order,
      and between any block and the next there is a gap: touching blocks have been merged. */
  ghost predicate Sorted(l: seq<Seg>) {
    && |l| > 0 && l[0].len == 0
    && (forall i :: 1 <= i < |l| ==> l[i].len > 0)
    && Gaps(l)
  }

  /** A segment and an interval that do not meet. */
  predicate Apart(s: Seg, t: Seg) {
    s.at + s.len <= t.at || t.at + t.len <= s.at
  }

  ghost predicate ApartFromAll(l: seq<Seg>, t: Seg) {
    forall i :: 0 <= i < |l| ==> Apart(l[i], t)
  }

  /** k is where a block at address `at` belongs: after l[k]. */
  ghost predicate Place(l: seq<Seg>, k: nat, at: nat) {
    k < |l| && l[k].at < at && (k + 1 < |l| ==> at < l[k + 1].at)
  }

  function Total(l: seq<Seg>): nat {
    if l == [] then 0 else Total(l[..|l| - 1]) + l[|l| - 1].len
  }

  lemma {:induction false} TotalConcat(l: seq<Seg>, m: seq<Seg>)
    ensures Total(l + m) == Total(l) + Total(m)
  {
    if m == [] {
      assert l + m == l;
    } else {
      TotalConcat(l, m[..|m| - 1]);
      assert (l + m)[..|l + m| - 1] == l + m[..|m| - 1];
    }
  }

  // ---------------------------------------------------------------- freeing

  /** free joins the new block with the block above it ... */
  function JoinAbove(l: seq<Seg>, k: nat, s: Seg): (Seg, seq<Seg>)
    requires k < |l|
  {
    if k + 1 < |l| && s.at + s.len == l[k + 1].at
    then (Seg(s.at, s.len + l[k + 1].len), l[k + 2..])
    else (s, l[k + 1..])
  }

  /** ... and then with the block below it. */
  function Insert(l: seq<Seg>, k: nat, s: Seg): seq<Seg>
    requires k < |l|
  {
    var (t, rest) := JoinAbove(l, k, s);
    if l[k].at + l[k].len == s.at
    then l[..k] + [Seg(l[k].at, l[k].len + t.len)] + rest
    else l[..k + 1] + [t] + rest
  }

  ghost predicate CanInsert(l: seq<Seg>, k: nat, s: Seg) {
    Sorted(l) && Place(l, k, s.at) && s.len > 0 && ApartFromAll(l, s)
  }

  lemma GapsGlue(a: seq<Seg>, u: Seg, b: seq<Seg>)
    requires Gaps(a) && Gaps(b)
    requires forall i :: 0 <= i < |a| ==> a[i].at + a[i].len < u.at
    requires forall i :: 0 <= i < |b| ==> u.at + u.len < b[i].at
    ensures Gaps(a + [u] + b)
  {
    var l := a + [u] + b;
    forall i, j | 0 <= i < j < |l| ensures l[i].at + l[i].len < l[j].at {
      assert l[j] == if j < |a| then a[j] else if j == |a| then u else b[j - |a| - 1];
      assert l[i] == if i < |a| then a[i] else if i == |a| then u else b[i - |a| - 1];
    }
  }

  lemma AboveSorted(l: seq<Seg>, k: nat, s: Seg)
    requires CanInsert(l, k, s)
    ensures var (t, rest) := JoinAbove(l, k, s);
      t.at == s.at && t.len > 0 && Gaps(rest)
      && forall i :: 0 <= i < |rest| ==> t.at + t.len < rest[i].at && rest[i].len > 0
  {
    if k + 1 < |l| { assert Apart(l[k + 1], s); }
  }

  lemma InsertSorted(l: seq<Seg>, k: nat, s: Seg)
    requires CanInsert(l, k, s)
    ensures Sorted(Insert(l, k, s))
    ensures k < |Insert(l, k, s)| && Insert(l, k, s)[k].at == l[k].at && Insert(l, k, s)[0].at == l[0].at
  {
    hide JoinAbove;
    assert Apart(l[k], s);
    AboveSorted(l, k, s);
    var (t, rest) := JoinAbove(l, k, s);
    if l[k].at + l[k].len == s.at {
      GapsGlue(l[..k], Seg(l[k].at, l[k].len + t.len), rest);
    } else {
      GapsGlue(l[..k + 1], t, rest);
    }
  }

  lemma TotalGlue(a: seq<Seg>, u: Seg, b: seq<Seg>)
    ensures Total(a + [u] + b) == Total(a) + u.len + Total(b)
  {
    TotalConcat(a + [u], b);
    assert (a + [u])[..|a + [u]| - 1] == a;
  }

  lemma JoinTotal(l: seq<Seg>, k: nat, s: Seg)
    requires k < |l|
    ensures var (t, rest) := JoinAbove(l, k, s); t.len + Total(rest) == s.len + Total(l[k + 1..])
  {
    hide Total;
    var (t, rest) := JoinAbove(l, k, s);
    if k + 1 < |l| && s.at + s.len == l[k + 1].at {
      assert l[k + 1..] == [] + [l[k + 1]] + rest;
      TotalGlue([], l[k + 1], rest);
      TotalNil();
    }
  }

  /** Freeing keeps the units: what was free plus the freed block. */
  lemma InsertTotal(l: seq<Seg>, k: nat, s: Seg)
    requires k < |l|
    ensures Total(Insert(l, k, s)) == Total(l) + s.len
  {
    hide Total;
    var (t, rest) := JoinAbove(l, k, s);
    JoinTotal(l, k, s);
    assert l == l[..k] + [l[k]] + l[k + 1..];
    TotalGlue(l[..k], l[k], l[k + 1..]);
    if l[k].at + l[k].len == s.at {
      TotalGlue(l[..k], Seg(l[k].at, l[k].len + t.len), rest);
    } else {
      TotalGlue(l[..k + 1], t, rest);
      TotalGlue(l[..k], l[k], []);
      TotalNil();
      assert l[..k + 1] == l[..k] + [l[k]] + [];
    }
  }

  lemma TotalNil()
    ensures Total([]) == 0
  {
  }

  /** What was apart from the list and from the freed block is apart from the new list. */
  lemma InsertApart(l: seq<Seg>, k: nat, s: Seg, t: Seg)
    requires CanInsert(l, k, s) && ApartFromAll(l, t) && Apart(s, t) && t.len > 0
    ensures ApartFromAll(Insert(l, k, s), t)
  {
    assert Apart(l[k], t);
    if k + 1 < |l| { assert Apart(l[k + 1], t); }
  }

  // ---------------------------------------------------------------- allocating

  /** malloc takes n units off the tail of block i, or all of it. */
  function Carve(l: seq<Seg>, i: nat, n: nat): seq<Seg>
    requires 0 < i < |l| && n <= l[i].len
  {
    if l[i].len == n then l[..i] + l[i + 1..] else l[i := Seg(l[i].at, l[i].len - n)]
  }

  /** The block handed out. */
  function Carved(l: seq<Seg>, i: nat, n: nat): Seg
    requires i < |l| && n <= l[i].len
  {
    Seg(l[i].at + l[i].len - n, n)
  }

  lemma CarveSorted(l: seq<Seg>, i: nat, n: nat)
    requires Sorted(l) && 0 < i < |l| && 0 < n <= l[i].len
    ensures Sorted(Carve(l, i, n)) && Carve(l, i, n)[0].at == l[0].at
    ensures ApartFromAll(Carve(l, i, n), Carved(l, i, n))
    ensures l[0].at < Carved(l, i, n).at
  {
  }

  lemma CarveApart(l: seq<Seg>, i: nat, n: nat, t: Seg)
    requires Sorted(l) && 0 < i < |l| && 0 < n <= l[i].len && ApartFromAll(l, t) && t.len > 0
    ensures ApartFromAll(Carve(l, i, n), t) && Apart(Carved(l, i, n), t)
  {
    assert Apart(l[i], t);
  }

  lemma CarveTotal(l: seq<Seg>, i: nat, n: nat)
    requires 0 < i < |l| && n <= l[i].len
    ensures Total(Carve(l, i, n)) + n == Total(l)
  {
    hide Total;
    assert l == l[..i] + [l[i]] + l[i + 1..];
    TotalGlue(l[..i], l[i], l[i + 1..]);
    if l[i].len == n {
      TotalConcat(l[..i], l[i + 1..]);
    } else {
      var u := Seg(l[i].at, l[i].len - n);
      assert l[i := u] == l[..i] + [u] + l[i + 1..];
      TotalGlue(l[..i], u, l[i + 1..]);
    }
  }
}
