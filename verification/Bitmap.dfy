/** The bits of a free-map block (kernel/fs.c, balloc and bfree).

    A byte is a number, so testing `data[bi/8] & (1 << bi%8)` halves it bi%8 times and
    looks at the parity; setting a clear bit adds the power of two, and clearing a set bit
    subtracts it. */
module Bitmap {
  import opened Blocks

  const BPB: nat := 8 * BSIZE

  function Power(k: nat): nat {
    if k == 0 then 1 else 2 * Power(k - 1)
  }

  predicate Bit(x: nat, k: nat) {
    if k == 0 then x % 2 == 1 else Bit(x / 2, k - 1)
  }

  predicate TestBit(b: Block, bi: nat)
    requires bi < BPB
  {
    Bit(b[bi / 8] as int, bi % 8)
  }

  /** Adding a missing power of two sets that bit and no other, and stays below any limit
      that is a larger power. */
  lemma {:induction false} AddPower(x: nat, k: nat, j: nat, n: nat)
    requires !Bit(x, k) && x < Power(n) && k < n
    ensures x + Power(k) < Power(n)
    ensures Bit(x + Power(k), j) == (j == k || Bit(x, j))
  {
    if k > 0 {
      AddPower(x / 2, k - 1, if j > 0 then j - 1 else 0, n - 1);
      assert (x + Power(k)) / 2 == x / 2 + Power(k - 1);
    }
  }

  lemma {:induction false} BitIsPower(x: nat, k: nat)
    requires Bit(x, k)
    ensures Power(k) <= x && !Bit(x - Power(k), k)
  {
    if k > 0 {
      BitIsPower(x / 2, k - 1);
      assert (x - Power(k)) / 2 == x / 2 - Power(k - 1);
    }
  }

  function SetBit(b: Block, bi: nat): Block
    requires bi < BPB && !TestBit(b, bi)
  {
    AddPower(b[bi / 8] as int, bi % 8, 0, 8);
    b[bi / 8 := (b[bi / 8] as int + Power(bi % 8)) as byte]
  }

  function ClearBit(b: Block, bi: nat): Block
    requires bi < BPB && TestBit(b, bi)
  {
    BitIsPower(b[bi / 8] as int, bi % 8);
    b[bi / 8 := (b[bi / 8] as int - Power(bi % 8)) as byte]
  }

  lemma SetBitBits(b: Block, bi: nat, bj: nat)
    requires bi < BPB && bj < BPB && !TestBit(b, bi)
    ensures TestBit(SetBit(b, bi), bj) == (bj == bi || TestBit(b, bj))
  {
    AddPower(b[bi / 8] as int, bi % 8, bj % 8, 8);
  }

  lemma ClearBitBits(b: Block, bi: nat, bj: nat)
    requires bi < BPB && bj < BPB && TestBit(b, bi)
    ensures TestBit(ClearBit(b, bi), bj) == (bj != bi && TestBit(b, bj))
  {
    var x, k := b[bi / 8] as int, bi % 8;
    BitIsPower(x, k);
    AddPower(x - Power(k), k, bj % 8, 8);
  }

  lemma {:induction false} SameBits(x: nat, y: nat, n: nat)
    requires x < Power(n) && y < Power(n) && forall k :: 0 <= k < n ==> Bit(x, k) == Bit(y, k)
    ensures x == y
  {
    if n > 0 {
      assert Bit(x, 0) == Bit(y, 0);
      forall k | 0 <= k < n - 1 ensures Bit(x / 2, k) == Bit(y / 2, k) {
        assert Bit(x, k + 1) == Bit(y, k + 1);
      }
      SameBits(x / 2, y / 2, n - 1);
    }
  }

  /** A block is determined by its bits. */
  lemma SameBlockBits(a: Block, b: Block)
    requires forall bi :: 0 <= bi < BPB ==> TestBit(a, bi) == TestBit(b, bi)
    ensures a == b
  {
    forall i | 0 <= i < BSIZE ensures a[i] == b[i] {
      var x, y := a[i] as int, b[i] as int;
      forall k | 0 <= k < 8 ensures Bit(x, k) == Bit(y, k) {
        assert TestBit(a, 8 * i + k) == TestBit(b, 8 * i + k);
      }
      assert Power(8) == 256;
      SameBits(x, y, 8);
    }
  }
}
