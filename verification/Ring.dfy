/** A circular doubly linked list through prev and next, as indices into arrays; `head` is the
    cell that belongs to no element. */
module Ring {
  import opened Sets

  /** The cell at place i, where the head comes before the first and after the last. */
  ghost function At(order: seq<nat>, head: nat, i: int): nat {
    if 0 <= i < |order| then order[i] else head
  }

  ghost predicate LinkAt(next: seq<nat>, prev: seq<nat>, order: seq<nat>, head: nat, i: int)
    requires |next| == |prev|
  {
    var x, y := At(order, head, i), At(order, head, i + 1);
    x < |next| && y < |next| && next[x] == y && prev[y] == x
  }

  /** Following next from the head gives `order` and then the head again, and prev goes back. */
  ghost predicate Linked(next: seq<nat>, prev: seq<nat>, order: seq<nat>, head: nat) {
    && |next| == |prev| && head < |next| && Distinct(order)
    && (forall x :: x in order ==> x < |next| && x != head)
    && (forall i {:trigger LinkAt(next, prev, order, head, i)} ::
          -1 <= i < |order| ==> LinkAt(next, prev, order, head, i))
  }

  ghost function Without(order: seq<nat>, i: nat): seq<nat>
    requires i < |order|
  {
    order[..i] + order[i + 1..]
  }

  lemma Unlink(next: seq<nat>, prev: seq<nat>, order: seq<nat>, head: nat, i: nat)
    requires Linked(next, prev, order, head) && i < |order|
    ensures var b := order[i];
      && |prev| == |next| && b < |next| && next[b] < |next| && prev[b] < |next|
      && Linked(next[prev[b] := next[b]], prev[next[b] := prev[b]], Without(order, i), head)
      && b !in Without(order, i)
  {
    var b, rest := order[i], Without(order, i);
    assert LinkAt(next, prev, order, head, i) && LinkAt(next, prev, order, head, i - 1);
    var next', prev' := next[prev[b] := next[b]], prev[next[b] := prev[b]];
    assert forall k :: 0 <= k < |rest| ==> rest[k] == if k < i then order[k] else order[k + 1];
    assert Distinct(rest);
    forall x | x in rest ensures x in order && x != b {
    }
    forall j | -1 <= j < |rest| ensures LinkAt(next', prev', rest, head, j) {
      assert LinkAt(next, prev, order, head, j) && LinkAt(next, prev, order, head, j + 1);
      assert At(rest, head, j) == At(order, head, if j < i then j else j + 1);
      assert At(rest, head, j + 1) == At(order, head, if j + 1 < i then j + 1 else j + 2);
    }
  }

  lemma PushFront(next: seq<nat>, prev: seq<nat>, order: seq<nat>, head: nat, b: nat)
    requires Linked(next, prev, order, head) && b < |next| && b != head && b !in order
    ensures next[head] < |next|
    ensures Linked(next[b := next[head]][head := b], prev[b := head][next[head] := b], [b] + order, head)
  {
    var order' := [b] + order;
    assert LinkAt(next, prev, order, head, -1);
    var next', prev' := next[b := next[head]][head := b], prev[b := head][next[head] := b];
    forall j | -1 <= j < |order'| ensures LinkAt(next', prev', order', head, j) {
      assert At(order', head, j + 1) == if j == -1 then b else At(order, head, j);
      assert At(order', head, j) == if j == -1 then head else if j == 0 then b else At(order, head, j - 1);
      if j > 0 {
        assert LinkAt(next, prev, order, head, j - 1);
        assert order[j - 1] in order && order[0] in order && (j < |order| ==> order[j] in order);
      } else if |order| > 0 {
        assert order[0] in order;
      }
    }
  }

  /** The list holds what it held, in another order. */
  lemma MovedFront(order: seq<nat>, i: nat)
    requires i < |order|
    ensures multiset([order[i]] + Without(order, i)) == multiset(order)
  {
    assert order == order[..i] + [order[i]] + order[i + 1..];
  }
}
