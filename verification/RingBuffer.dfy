/** Ring buffers indexed by counters that wrap: a queue held in a ring of |ring| places, and what
    survives when the counters keep only their low bits. */
module RingBuffer {

  /** From place n on, the ring holds the queue. */
  ghost predicate InRing<T(!new)>(ring: seq<T>, n: nat, queue: seq<T>) {
    0 < |ring| && |queue| <= |ring| && forall k :: 0 <= k < |queue| ==> ring[(n + k) % |ring|] == queue[k]
  }

  lemma PushRing<T(!new)>(ring: seq<T>, n: nat, queue: seq<T>, x: T)
    requires InRing(ring, n, queue) && |queue| < |ring|
    ensures InRing(ring[(n + |queue|) % |ring| := x], n, queue + [x])
  {
    var ring' := ring[(n + |queue|) % |ring| := x];
    forall k | 0 <= k < |queue| ensures ring'[(n + k) % |ring|] == queue[k] {
      SameCount(n + k, n + |queue|, |ring|);
    }
  }

  lemma PopRing<T(!new)>(ring: seq<T>, n: nat, queue: seq<T>)
    requires InRing(ring, n, queue) && queue != []
    ensures ring[n % |ring|] == queue[0] && InRing(ring, n + 1, queue[1..])
  {
    assert ring[(n + 0) % |ring|] == queue[0];
    forall k | 0 <= k < |queue[1..]| ensures ring[(n + 1 + k) % |ring|] == queue[1..][k] {
      assert ring[(n + (k + 1)) % |ring|] == queue[k + 1];
    }
  }

  /** Counting on from the low part of a count. */
  lemma AddWrap(n: nat, k: nat, m: nat)
    requires k < m
    ensures (n % m + k) % m == (n + k) % m
  {
    var a := n % m;
    assert n == n / m * m + a;
    if a + k < m {
      Remainder(n / m, a + k, m);
      Remainder(0, a + k, m);
    } else {
      assert n + k == (n / m + 1) * m + (a + k - m);
      Remainder(n / m + 1, a + k - m, m);
      Remainder(1, a + k - m, m);
    }
  }

  lemma {:induction false} Remainder(d: nat, r: nat, m: nat)
    requires r < m
    ensures (d * m + r) % m == r
    decreases d
  {
    if d > 0 {
      Remainder(d - 1, r, m);
      assert d * m + r == (d - 1) * m + r + m;
      AddModulus((d - 1) * m + r, m);
    }
  }

  lemma AddModulus(x: nat, m: nat)
    requires m > 0
    ensures (x + m) % m == x % m
  {
    var q := x / m;
    assert x + m == (q + 1) * m + x % m;
    assert (x + m) / m == q + 1 by {
      assert (x + m) / m * m + (x + m) % m == x + m;
      Unique((x + m) / m, (x + m) % m, q + 1, x % m, m);
    }
  }

  lemma Unique(q: int, r: nat, q': int, r': nat, m: nat)
    requires q * m + r == q' * m + r' && r < m && r' < m
    ensures q == q'
  {
    if q < q' {
      AtLeast(q' - q, m);
      Distribute(q' - q, q, m);
    } else if q > q' {
      AtLeast(q - q', m);
      Distribute(q - q', q', m);
    }
  }

  lemma AtLeast(k: int, m: nat)
    requires k >= 1
    ensures k * m >= m
  {
  }

  lemma Distribute(a: int, b: int, m: int)
    ensures (a + b) * m == a * m + b * m
  {
  }

  /** Counts less than m apart are equal when their low parts are. */
  lemma SameCount(a: nat, b: nat, m: nat)
    requires a <= b < a + m
    ensures a % m == b % m <==> a == b
  {
    AddWrap(a, b - a, m);
    var r := a % m + (b - a);
    if r < m {
      Remainder(0, r, m);
    } else {
      Remainder(1, r - m, m);
    }
  }

  /** When the size of the ring divides the counters' modulus, wrapping does not move a place. */
  lemma WrapAt(n: nat, m: nat, c: nat, size: nat)
    requires 0 < size && 0 < m && m == c * size
    ensures n % m % size == n % size
  {
    var low := n % m;
    Divided(n, m);
    Divided(low, size);
    InParts(n, n / m, low, low / size, low % size, m, c, size);
  }

  lemma Divided(n: nat, m: nat)
    requires 0 < m
    ensures n == n / m * m + n % m && n % m < m
  {
  }

  lemma InParts(n: nat, high: nat, low: nat, q: nat, r: nat, m: nat, c: nat, size: nat)
    requires n == high * m + low && low == q * size + r && m == c * size && r < size
    ensures n % size == r
  {
    Regroup(high, c, q, r, size);
    Remainder(high * c + q, r, size);
  }

  lemma Regroup(high: nat, c: nat, q: nat, r: nat, size: nat)
    ensures high * (c * size) + (q * size + r) == (high * c + q) * size + r
  {
    Spread(high, c, size);
    Distribute(high * c, q, size);
  }

  lemma Spread(a: int, b: int, c: int)
    ensures a * (b * c) == (a * b) * c
  {
  }
}
