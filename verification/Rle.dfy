/** The run-length codec of the file server (G16_Project_3/src/file_ops.c): round trip, size, and
    that no stream the decoder accepts says the same in fewer bytes. */
module Rle {
  import opened Blocks

  const MAX_FILE_SIZE: nat := 64 * 1024 * 1024

  datatype Error = EINVAL | EFBIG | ENOMEM

  datatype Result<T> = Ok(value: T) | Err(error: Error)

  const HEADER: seq<byte> := [82, 76, 69, 49]  // RLE1

  // ---------------------------------------------------------------- streams of (count, value) pairs

  function Repeat(v: byte, n: nat): (s: seq<byte>)
    ensures |s| == n && forall i :: 0 <= i < n ==> s[i] == v
  {
    seq(n, _ => v)
  }

  /** The bytes a stream of pairs stands for; an odd byte at the end stands for nothing. */
  function Expand(p: seq<byte>): seq<byte> {
    if |p| < 2 then [] else Repeat(p[1], p[0] as nat) + Expand(p[2..])
  }

  function Total(p: seq<byte>): nat {
    if |p| < 2 then 0 else p[0] as nat + Total(p[2..])
  }

  /** The first pairs, up to byte i, taken off at the end rather than at the start. */
  lemma {:induction false} TotalStep(p: seq<byte>, i: nat)
    requires i % 2 == 0 && i + 1 < |p|
    ensures Total(p[..i + 2]) == Total(p[..i]) + p[i] as nat
    ensures Expand(p[..i + 2]) == Expand(p[..i]) + Repeat(p[i + 1], p[i] as nat)
    decreases i
  {
    if i == 0 {
      assert p[..2][2..] == [];
      assert Expand(p[..2]) == Repeat(p[1], p[0] as nat) + [];
    } else {
      TotalStep(p[2..], i - 2);
      assert p[2..][..i] == p[..i + 2][2..] && p[2..][..i - 2] == p[..i][2..];
    }
  }

  lemma {:induction false} ExpandTotal(p: seq<byte>)
    ensures |Expand(p)| == Total(p)
  {
    if |p| >= 2 {
      ExpandTotal(p[2..]);
    }
  }

  lemma {:induction false} TotalPrefix(p: seq<byte>, i: nat)
    requires i % 2 == 0 && i <= |p|
    ensures Total(p[..i]) <= Total(p)
  {
    if i > 0 {
      TotalPrefix(p[2..], i - 2);
      assert p[2..][..i - 2] == p[..i][2..];
    }
  }

  /** What a stream stands for, byte by byte: where the first pairs end, pair i says how often its
      value follows, and the last pair ends at the end. */
  lemma {:induction false} ExpandAt(p: seq<byte>, i: nat, k: nat)
    requires i % 2 == 0 && i + 1 < |p| && k < p[i] as nat
    ensures Total(p[..i]) + k < |Expand(p)| == Total(p) && Expand(p)[Total(p[..i]) + k] == p[i + 1]
    decreases i
  {
    hide Repeat;
    ExpandTotal(p);
    var first := Repeat(p[1], p[0] as nat);
    if i == 0 {
      assert Expand(p)[k] == first[k];
    } else {
      ExpandAt(p[2..], i - 2, k);
      assert p[2..][..i - 2] == p[..i][2..];
      assert Total(p[..i]) == p[0] as nat + Total(p[2..][..i - 2]);
    }
  }

  /** A last odd byte changes nothing. */
  lemma {:induction false} OddTail(p: seq<byte>, i: nat)
    requires i % 2 == 0 && i <= |p| <= i + 1
    ensures Total(p) == Total(p[..i]) && Expand(p) == Expand(p[..i])
  {
    if i > 0 {
      OddTail(p[2..], i - 2);
      assert p[2..][..i - 2] == p[..i][2..];
    }
  }

  // ---------------------------------------------------------------- encoding

  /** The length of the run that s starts with, from the first n bytes known to be equal on. */
  function RunFrom(s: seq<byte>, n: nat): (r: nat)
    requires 0 < n <= |s| && n <= 255 && forall i :: 0 <= i < n ==> s[i] == s[0]
    ensures n <= r <= |s| && r <= 255 && (forall i :: 0 <= i < r ==> s[i] == s[0])
    ensures r == |s| || r == 255 || s[r] != s[0]
    decreases |s| - n
  {
    if n < |s| && s[n] == s[0] && n < 255 then RunFrom(s, n + 1) else n
  }

  function Run(s: seq<byte>): nat
    requires s != []
  {
    RunFrom(s, 1)
  }

  /** The pairs that greedy encoding gives. */
  function Pairs(s: seq<byte>): seq<byte> {
    if s == [] then [] else [Run(s) as byte, s[0]] + Pairs(s[Run(s)..])
  }

  lemma RunIs(s: seq<byte>, r: nat)
    requires 0 < r <= |s| && r <= 255 && (forall i :: 0 <= i < r ==> s[i] == s[0])
    requires (r == |s| || r == 255 || s[r] != s[0])
    ensures Run(s) == r
  {
  }

  lemma PairsFirst(s: seq<byte>)
    requires s != []
    ensures var p := Pairs(s);
      |p| == |Pairs(s[Run(s)..])| + 2 && p[0] as nat == Run(s) && p[1] == s[0] && p[2..] == Pairs(s[Run(s)..])
    ensures 0 < Run(s) <= |s| && Repeat(s[0], Run(s)) == s[..Run(s)]
  {
  }

  lemma ExpandFirst(p: seq<byte>)
    requires |p| >= 2
    ensures Expand(p) == Repeat(p[1], p[0] as nat) + Expand(p[2..])
  {
  }

  lemma {:induction false} PairsSize(s: seq<byte>)
    ensures |Pairs(s)| % 2 == 0 && |Pairs(s)| <= 2 * |s|
  {
    if s != [] {
      PairsFirst(s);
      hide Pairs, Run;
      PairsSize(s[Run(s)..]);
    }
  }

  /** Decoding what was encoded gives it back. */
  lemma {:induction false} PairsExpand(s: seq<byte>)
    ensures Expand(Pairs(s)) == s
  {
    hide *;
    if s == [] {
      NoPairs();
    } else {
      PairsFirst(s);
      var r := Run(s);
      PairsExpand(s[r..]);
      ExpandFirst(Pairs(s));
      assert Expand(Pairs(s)) == s[..r] + s[r..];
    }
  }

  lemma NoPairs()
    ensures Pairs([]) == [] && Expand([]) == []
  {
  }

  // ---------------------------------------------------------------- no shorter stream

  /** Fewer bytes to encode never need more pairs. */
  lemma {:induction false} DropOne(s: seq<byte>)
    requires s != []
    ensures |Pairs(s[1..])| <= |Pairs(s)|
    decreases |s|
  {
    var r, t := Run(s), s[1..];
    if r > 1 {
      assert t[0] == s[0];
      if r == 255 && r < |s| && s[r] == s[0] {
        RunIs(t, 255);
        DropOne(s[255..]);
        assert t[255..] == s[255..][1..];
      } else {
        RunIs(t, r - 1);
        assert t[r - 1..] == s[r..];
      }
    }
  }

  lemma {:induction false} DropSome(s: seq<byte>, k: nat)
    requires k <= |s|
    ensures |Pairs(s[k..])| <= |Pairs(s)|
    decreases k
  {
    if k > 0 {
      DropSome(s, k - 1);
      DropOne(s[k - 1..]);
      assert s[k - 1..][1..] == s[k..];
    } else {
      assert s[0..] == s;
    }
  }

  /** Every stream of pairs is at least as long as the encoding of what it stands for. */
  lemma {:induction false} Shortest(p: seq<byte>)
    requires |p| % 2 == 0
    ensures |Pairs(Expand(p))| <= |p|
  {
    if p != [] {
      var s, rest, n := Expand(p), Expand(p[2..]), p[0] as nat;
      Shortest(p[2..]);
      if n == 0 {
        assert s == rest;
      } else {
        var r := Run(s);
        assert s[n..] == rest;
        assert forall i :: 0 <= i < n ==> s[i] == p[1];
        RunAtLeast(s, n);
        DropSome(rest, r - n);
        assert rest[r - n..] == s[r..];
      }
    }
  }

  lemma RunAtLeast(s: seq<byte>, n: nat)
    requires 0 < n <= |s| && n <= 255 && forall i :: 0 <= i < n ==> s[i] == s[0]
    ensures n <= Run(s)
  {
  }

  // ---------------------------------------------------------------- the two functions

  function Compressed(s: seq<byte>): seq<byte> {
    HEADER + Pairs(s)
  }

  /** What decompression gives, with the errors in the order they are found. */
  function Decompressed(x: seq<byte>): Result<seq<byte>> {
    if |x| < 4 || x[..4] != HEADER then Err(EINVAL)
    else if Total(x[4..]) > MAX_FILE_SIZE then Err(EFBIG)
    else if (|x| - 4) % 2 != 0 then Err(EINVAL)
    else Ok(Expand(x[4..]))
  }

  /** rle_compress_bytes; `memory` says whether malloc succeeds. */
  method Compress(input: array<byte>, memory: bool) returns (r: Result<seq<byte>>)
    ensures r == if memory then Ok(Compressed(input[..])) else Err(ENOMEM)
    ensures r.Ok? ==> |r.value| <= 2 * input.Length + 4
  {
    if !memory {
      return Err(ENOMEM);
    }
    var buf := new byte[input.Length * 2 + 8];
    ghost var s := input[..];
    hide Encoded, Run, Compressed;
    Magic(buf);
    Starts(buf[..4], s);
    var w, i := 4, 0;
    while i < input.Length
      invariant i <= input.Length && 4 <= w <= 2 * i + 4 && Encoded(buf[..w], s, i)
    {
      var run := RunLength(input, i);
      Emitted(buf[..w], s, i);
      Emit(buf, w, run as byte, input[i]);
      w := w + 2;
      i := i + run;
    }
    Ends(buf[..w], s);
    return Ok(buf[..w]);
  }

  /** The first i bytes are encoded. */
  ghost predicate Encoded(written: seq<byte>, s: seq<byte>, i: nat) {
    i <= |s| && written + Pairs(s[i..]) == Compressed(s)
  }

  method Magic(buf: array<byte>)
    requires buf.Length >= 4
    modifies buf
    ensures buf[..4] == [82, 76, 69, 49]
  {
    buf[0], buf[1], buf[2], buf[3] := 82, 76, 69, 49;
  }

  method Emit(buf: array<byte>, w: nat, run: byte, value: byte)
    requires w + 2 <= buf.Length
    modifies buf
    ensures buf[..w + 2] == old(buf[..w]) + [run, value]
  {
    buf[w] := run;
    buf[w + 1] := value;
  }

  lemma Starts(written: seq<byte>, s: seq<byte>)
    requires written == [82, 76, 69, 49]
    ensures Encoded(written, s, 0)
  {
    assert s[0..] == s;
  }

  lemma Emitted(written: seq<byte>, s: seq<byte>, i: nat)
    requires i < |s| && Encoded(written, s, i)
    ensures var run := Run(s[i..]); run <= 255 && Encoded(written + [run as byte, s[i]], s, i + run)
  {
    var rest := s[i..];
    var run := Run(rest);
    PairsFirst(rest);
    assert rest[run..] == s[i + run..];
    var pair := [run as byte, s[i]];
    assert Pairs(rest) == pair + Pairs(s[i + run..]);
    Assoc(written, pair, Pairs(s[i + run..]));
  }

  lemma Assoc(a: seq<byte>, b: seq<byte>, c: seq<byte>)
    ensures a + (b + c) == (a + b) + c
  {
  }

  lemma Ends(written: seq<byte>, s: seq<byte>)
    requires Encoded(written, s, |s|)
    ensures written == Compressed(s) && |written| <= 2 * |s| + 4
  {
    assert s[|s|..] == [];
    assert written + [] == written;
    PairsSize(s);
  }

  /** The inner loop: how many bytes from i on are equal, up to 255. */
  method RunLength(input: array<byte>, i: nat) returns (run: nat)
    requires i < input.Length
    ensures run == Run(input[..][i..])
    ensures 0 < run <= 255 && i + run <= input.Length
  {
    run := 1;
    ghost var s := input[..][i..];
    while i + run < input.Length && input[i + run] == input[i] && run < 255
      invariant 1 <= run <= 255 && i + run <= input.Length
      invariant forall k :: 0 <= k < run ==> s[k] == s[0]
    {
      run := run + 1;
    }
    RunIs(s, run);
  }

  /** rle_decompress_bytes; the buffer is filled exactly to the total found first. */
  method Decompress(input: array<byte>, memory: bool) returns (r: Result<seq<byte>>)
    ensures var x := input[..];
      if |x| < 4 || x[..4] != [82, 76, 69, 49] then r == Err(EINVAL)
      else if Total(x[4..]) > MAX_FILE_SIZE then r == Err(EFBIG)
      else if |x| % 2 == 1 then r == Err(EINVAL)
      else if !memory then r == Err(ENOMEM)
      else r == Ok(Expand(x[4..]))
    ensures r == Decompressed(input[..]) || (!memory && r == Err(ENOMEM) && Decompressed(input[..]).Ok?)
  {
    ghost var x := input[..];
    if input.Length < 4 || input[0] != 82 || input[1] != 76 || input[2] != 69 || input[3] != 49 {
      return Err(EINVAL);
    }
    assert x[..4] == HEADER;
    var total, big := SumCounts(input);
    if big {
      return Err(EFBIG);
    }
    if (input.Length - 4) % 2 != 0 {
      return Err(EINVAL);
    }
    if !memory {
      return Err(ENOMEM);
    }
    var out := Fill(input, total);
    return Ok(out);
  }

  /** The total of the counts, given up as soon as it exceeds the limit. */
  method SumCounts(input: array<byte>) returns (total: nat, big: bool)
    requires input.Length >= 4
    ensures big <==> Total(input[4..]) > MAX_FILE_SIZE
    ensures !big ==> total == Total(input[4..])
  {
    total := 0;
    ghost var p := input[4..];
    var i := 4;
    while i + 1 < input.Length
      invariant 4 <= i <= input.Length && i % 2 == 0 && total == Total(p[..i - 4]) <= MAX_FILE_SIZE
    {
      TotalStep(p, i - 4);
      TotalPrefix(p, i - 2);
      total := total + input[i] as nat;
      if total > MAX_FILE_SIZE {
        return total, true;
      }
      i := i + 2;
    }
    OddTail(p, i - 4);
    big := false;
  }

  /** The second pass: the bytes written are exactly `total`. */
  method Fill(input: array<byte>, total: nat) returns (out: seq<byte>)
    requires input.Length >= 4 && (input.Length - 4) % 2 == 0 && total == Total(input[4..])
    ensures out == Expand(input[4..]) && |out| == total
  {
    hide Expand, Total;
    var buf := new byte[if total > 0 then total else 1];
    ghost var p := input[4..];
    NothingYet(p);
    var w, i := 0, 4;
    while i + 1 < input.Length
      invariant 4 <= i <= input.Length && i % 2 == 0 && w == Total(p[..i - 4]) <= total <= buf.Length
      invariant buf[..w] == Expand(p[..i - 4])
    {
      TotalStep(p, i - 4);
      TotalPrefix(p, i - 2);
      var run, value := input[i] as nat, input[i + 1];
      Memset(buf, w, value, run);
      w := w + run;
      i := i + 2;
    }
    assert p[..i - 4] == p;
    ExpandTotal(p);
    return buf[..w];
  }

  method Memset(buf: array<byte>, w: nat, value: byte, n: nat)
    requires w + n <= buf.Length
    modifies buf
    ensures buf[..w + n] == old(buf[..w]) + Repeat(value, n)
  {
    var k := 0;
    while k < n
      invariant k <= n && buf[..w + k] == old(buf[..w]) + Repeat(value, k)
    {
      buf[w + k] := value;
      assert buf[..w + k + 1] == buf[..w + k] + [value];
      k := k + 1;
    }
  }

  lemma NothingYet(p: seq<byte>)
    ensures Total(p[..0]) == 0 && Expand(p[..0]) == []
  {
  }

  // ---------------------------------------------------------------- theorems

  /** Files up to the size limit survive compression and decompression. */
  lemma RoundTrip(s: seq<byte>)
    requires |s| <= MAX_FILE_SIZE
    ensures Decompressed(Compressed(s)) == Ok(s)
  {
    PairsSize(s);
    PairsExpand(s);
    hide Pairs, Expand, Total;
    ExpandTotal(Pairs(s));
    assert Compressed(s)[4..] == Pairs(s);
  }

  /** Compression never more than doubles the size, but for the header. */
  lemma SizeBound(s: seq<byte>)
    ensures |Compressed(s)| <= 2 * |s| + 4
  {
    PairsSize(s);
  }

  /** No accepted stream that decodes to the same bytes is shorter. */
  lemma Optimal(x: seq<byte>)
    requires Decompressed(x).Ok?
    ensures |Compressed(Decompressed(x).value)| <= |x|
  {
    Shortest(x[4..]);
  }
}
