/** Disk blocks and the 32-bit words stored in them (kernel/fs.h).

    A block is BSIZE bytes.  The log header, the indirect block and the on-disk
    inode are C structures laid over those bytes, so words are read and written
    at byte offsets in little-endian order. */
module Blocks {

  const BSIZE: nat := 1024
  const WORD_LIMIT: nat := 0x1_0000_0000

  newtype byte = x: int | 0 <= x < 256

  type Word = w: int | 0 <= w < 0x1_0000_0000

  type Block = b: seq<byte> | |b| == BSIZE witness seq(BSIZE, _ => 0)

  function ZeroBlock(): (b: Block)
    ensures forall i :: 0 <= i < BSIZE ==> b[i] == 0
  {
    seq(BSIZE, _ => 0)
  }

  /** The four bytes of a word, least significant first. */
  function WordBytes(w: Word): (r: seq<byte>)
    ensures |r| == 4
  {
    [(w % 256) as byte, (w / 256 % 256) as byte, (w / 65536 % 256) as byte, (w / 16777216 % 256) as byte]
  }

  function BytesWord(r: seq<byte>): Word
    requires |r| == 4
  {
    r[0] as int + 256 * r[1] as int + 65536 * r[2] as int + 16777216 * r[3] as int
  }

  lemma WordRoundTrip(w: Word)
    ensures BytesWord(WordBytes(w)) == w
  {
    var q1 := w / 256;
    var q2 := q1 / 256;
    assert w / 65536 == q2;
    assert w / 16777216 == q2 / 256;
  }

  /** The word at byte offset `off` of a block. */
  function GetWord(b: Block, off: nat): Word
    requires off + 4 <= BSIZE
  {
    BytesWord(b[off..off + 4])
  }

  function PutWord(b: Block, off: nat, w: Word): Block
    requires off + 4 <= BSIZE
  {
    b[..off] + WordBytes(w) + b[off + 4..]
  }

  /** A stored word reads back, and words at offsets that do not overlap it are kept. */
  lemma GetPut(b: Block, off: nat, w: Word, at: nat)
    requires off + 4 <= BSIZE && at + 4 <= BSIZE
    requires at == off || at + 4 <= off || off + 4 <= at
    ensures GetWord(PutWord(b, off, w), at) == if at == off then w else GetWord(b, at)
  {
    var p := PutWord(b, off, w);
    if at == off {
      assert p[off..off + 4] == WordBytes(w);
      WordRoundTrip(w);
    } else {
      assert p[at..at + 4] == b[at..at + 4];
    }
  }

  lemma ZeroWords(off: nat)
    requires off + 4 <= BSIZE
    ensures GetWord(ZeroBlock(), off) == 0
  {
  }
}
