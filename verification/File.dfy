/** filewrite of kernel/file.c for an inode: a long write split into operations that each
    fit the log. */
module File {
  import opened Blocks
  import opened FsState
  import opened FsBytes
  import opened FileSystem
  import LogMachine

  /** The largest chunk: room for the inode, the indirect block and two partial blocks. */
  const MAX_CHUNK: nat := (LogMachine.MAXOPBLOCKS - 1 - 1 - 2) / 2 * BSIZE

  /** At any alignment, a chunk logs no more blocks than an operation may. */
  lemma ChunkBudget(off: nat, cnt: nat)
    requires cnt <= MAX_CHUNK
    ensures Budget(off, cnt) <= LogMachine.MAXOPBLOCKS
  {
  }

  function Chunk(left: nat): nat {
    if left > MAX_CHUNK then MAX_CHUNK else left
  }

  /** File n has had d written at off (nothing, when d is empty), and no other file changed. */
  ghost predicate Changed(s0: Fs, s: Fs, n: nat, off: nat, d: seq<byte>) {
    && Good(s0) && Good(s) && s.inodes.Keys == s0.inodes.Keys && n in s.inodes
    && (forall m :: m in s.inodes && m != n ==> Content(s, m) == Content(s0, m))
    && (d == [] ==> Content(s, n) == Content(s0, n))
    && (d != [] ==> off <= |Content(s0, n)| && Content(s, n) == Splice(Content(s0, n), off, d))
  }

  lemma ChangedMore(s0: Fs, s: Fs, s': Fs, n: nat, off: nat, d: seq<byte>, e: seq<byte>)
    requires Changed(s0, s, n, off, d) && off + |d| <= |Content(s, n)|
    requires Rewrites(s, s', n, Splice(Content(s, n), off + |d|, e))
    ensures Changed(s0, s', n, off, d + e)
  {
    hide Good, Content, Stored;
    if d == [] {
      assert d + e == e;
      assert e == [] ==> Splice(Content(s, n), off, e) == Content(s, n);
    } else {
      SpliceSplice(Content(s0, n), off, d, e);
    }
  }

  lemma NoChange(s: Fs, n: nat, off: nat)
    requires Good(s) && n in s.inodes
    ensures Changed(s, s, n, off, [])
  {
  }

  lemma ContentSize(s: Fs, n: nat)
    requires Good(s) && n in s.inodes
    ensures |Content(s, n)| == s.inodes[n].size <= MAXFILE * BSIZE
  {
    hide Owned, At, Allocated;
  }

  class OpenFile {
    const fs: FileSystem
    const ip: nat
    const writable: bool
    var off: nat

    constructor (fs: FileSystem, ip: nat, writable: bool)
      ensures this.fs == fs && this.ip == ip && this.writable == writable && off == 0
    {
      this.fs, this.ip, this.writable, off := fs, ip, writable, 0;
    }

    /** One operation of filewrite, between begin_op and end_op. */
    method WriteOp(d: seq<byte>, copies: nat) returns (r: int)
      requires Good(fs.View()) && ip in fs.inodes && off < WORD_LIMIT && |d| <= MAX_CHUNK
      modifies fs, `off
      ensures |fs.logged| <= LogMachine.MAXOPBLOCKS && fs.Traced() && fs.origin == old(fs.blocks)
      ensures Good(fs.View()) && ip in fs.inodes && off < WORD_LIMIT
      ensures r == -1 <==> old(off) > |Content(old(fs.View()), ip)| || old(off) + |d| > MAXFILE * BSIZE
      ensures r == -1 ==> fs.View() == old(fs.View()) && off == old(off)
      ensures r != -1 ==> 0 <= r <= |d| && off == old(off) + r && old(off) <= |Content(old(fs.View()), ip)|
      ensures r != -1 ==> Rewrites(old(fs.View()), fs.View(), ip, Splice(Content(old(fs.View()), ip), old(off), d[..r]))
      ensures 0 <= r < |d| ==> Shape(fs.View()) && (fs.Full() || Span(old(off), r) == copies)
    {
      hide Budget, Owned, At, Allocated, Bytes, Stored;
      ContentSize(fs.View(), ip);
      ChunkBudget(off, |d|);
      fs.StartOp();
      r := fs.Writei(ip, off, d, copies);
      assert fs.logged - {} == fs.logged;
      if r > 0 {
        off := off + r;
      }
    }

    /** Write src at the file offset; in the i-th operation the first copies(i) copies of src succeed.
        `done` counts the bytes that reached the file, `costs` lists how many blocks each operation
        logged, and `last` is where the last operation began.  Every operation but the last writes
        3072 bytes. */
    method Write(src: seq<byte>, copies: nat -> nat)
      returns (ret: int, ghost done: nat, ghost costs: seq<nat>, ghost last: nat)
      requires Good(fs.View()) && ip in fs.inodes && off < WORD_LIMIT && |src| < WORD_LIMIT / 2
      modifies fs, `off
      ensures done <= |src| && off == old(off) + done
      ensures ret == if writable && done == |src| then |src| else -1
      ensures !writable ==> fs.View() == old(fs.View()) && done == 0
      ensures Changed(old(fs.View()), fs.View(), ip, old(off), src[..done])
      ensures forall k :: 0 <= k < |costs| ==> costs[k] <= LogMachine.MAXOPBLOCKS
      ensures |costs| > 0 ==> last == old(off) + 3072 * (|costs| - 1) && 3072 * (|costs| - 1) <= done
      ensures Good(fs.View()) && ip in fs.inodes
      ensures writable && done < |src| ==>
        fs.Full() || off > |Content(fs.View(), ip)| || off + Chunk(|src| - done) > MAXFILE * BSIZE
        || (|costs| > 0 && last <= off && Span(last, off - last) == copies(|costs| - 1))
    {
      hide Good, Content, Rewrites, Splice, Span, Changed, Shape;
      ghost var s0 := fs.View();
      var i := 0;
      costs := [];
      done, last := 0, off;
      var op := 0;
      if !writable {
        GoodShape(s0);
        NoChange(s0, ip, off);
        assert src[..0] == [];
        return -1, 0, [], off;
      }
      NoChange(s0, ip, off);
      assert src[..0] == [];
      while i < |src|
        invariant op == |costs| && i == done <= |src| && off == old(off) + i && off < WORD_LIMIT
        invariant i < |src| ==> i == 3072 * op
        invariant |costs| > 0 ==> last == old(off) + 3072 * (|costs| - 1) && 3072 * (|costs| - 1) <= i
        invariant Good(fs.View()) && ip in fs.inodes && Changed(s0, fs.View(), ip, old(off), src[..i])
        invariant forall k :: 0 <= k < |costs| ==> costs[k] <= LogMachine.MAXOPBLOCKS
        decreases |src| - i
      {
        var n1 := Chunk(|src| - i);
        ghost var s := fs.View();
        last := off;
        var r := WriteOp(src[i..i + n1], copies(op));
        op, costs := op + 1, costs + [|fs.logged|];
        if r != -1 {
          ChangedMore(s0, s, fs.View(), ip, old(off), src[..i], src[i..i + n1][..r]);
          Prefixes(src, i, n1, r);
          done := i + r;
        }
        if r != n1 {
          break;
        }
        i := i + r;
      }
      GoodShape(fs.View());
      ret := if i == |src| then |src| else -1;
    }
  }

  lemma Prefixes(src: seq<byte>, i: nat, n: nat, r: nat)
    requires i + n <= |src| && r <= n
    ensures src[..i] + src[i..i + n][..r] == src[..i + r]
  {
  }

  lemma GoodShape(s: Fs)
    requires Good(s)
    ensures Shape(s)
  {
  }
}
