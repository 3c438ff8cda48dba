/** Sizes of finite sets of numbers. */
module Sets {

  function Range(lo: nat, hi: nat): (r: set<nat>)
    ensures forall b :: b in r <==> lo <= b < hi
    ensures |r| == if lo <= hi then hi - lo else 0
  {
    if lo < hi then Range(lo, hi - 1) + {hi - 1} else {}
  }

  lemma {:induction false} SubsetSize(a: set<nat>, b: set<nat>)
    requires a <= b
    ensures |a| <= |b|
  {
    if a != {} {
      var x :| x in a;
      SubsetSize(a - {x}, b - {x});
    }
  }

  predicate Distinct(s: seq<nat>) {
    forall i, j :: 0 <= i < j < |s| ==> s[i] != s[j]
  }

  ghost function Elements(s: seq<nat>): set<nat> {
    set x | x in s
  }

  lemma {:induction false} SeqSize(s: seq<nat>)
    requires Distinct(s)
    ensures |Elements(s)| == |s|
  {
    if s != [] {
      var n := |s| - 1;
      SeqSize(s[..n]);
      assert s == s[..n] + [s[n]];
      assert Elements(s) == Elements(s[..n]) + {s[n]};
      assert s[n] !in Elements(s[..n]);
    }
  }

  /** A set holding exactly what a sequence holds from t on. */
  lemma SuffixSize(a: set<nat>, s: seq<nat>, t: nat)
    requires Distinct(s) && t <= |s|
    requires forall x :: x in a ==> x in s
    requires forall i :: 0 <= i < |s| ==> (s[i] in a <==> t <= i)
    ensures |a| == |s| - t
  {
    SeqSize(s[t..]);
    forall x ensures x in a <==> x in Elements(s[t..]) {
      if x in a {
        var i :| 0 <= i < |s| && s[i] == x;
        assert s[t..][i - t] == x;
      }
    }
    assert a == Elements(s[t..]);
  }
}
