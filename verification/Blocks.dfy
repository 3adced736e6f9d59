/** Disk blocks as byte strings, and the 32-bit little-endian words that the
    kernel reads out of them by casting `bp->data` to `uint *`. */
module Blocks {

  const BSIZE: nat := 1024
  const WORDS: nat := 256

  type Byte = b: int | 0 <= b < 256
  type Word = w: int | 0 <= w < 0x1_0000_0000
  type Block = b: seq<Byte> | |b| == BSIZE witness Zeros(BSIZE)

  function Zeros(n: nat): (z: seq<Byte>)
    ensures |z| == n && forall k :: 0 <= k < n ==> z[k] == 0
  {
    if n == 0 then [] else Zeros(n - 1) + [0]
  }

  const ZeroBlock: Block := Zeros(BSIZE)

  /** A disk: the block stored at each block number. */
  type Disk = map<nat, Block>

  function GetWord(b: Block, i: nat): (w: Word)
    requires i < WORDS
  {
    var b0: int, b1: int, b2: int, b3: int := b[4 * i], b[4 * i + 1], b[4 * i + 2], b[4 * i + 3];
    b0 + 0x100 * b1 + 0x1_0000 * b2 + 0x100_0000 * b3
  }

  function PutWord(b: Block, i: nat, w: Word): (r: Block)
    requires i < WORDS
  {
    b[4 * i     := w % 0x100]
     [4 * i + 1 := w / 0x100 % 0x100]
     [4 * i + 2 := w / 0x1_0000 % 0x100]
     [4 * i + 3 := w / 0x100_0000]
  }

  /** n bytes from position o on as a number, low byte first. */
  function Bytes(b: Block, o: nat, n: nat): (x: int)
    requires o + n <= BSIZE
    decreases n
  {
    if n == 0 then 0 else b[o] as int + 0x100 * Bytes(b, o + 1, n - 1)
  }

  lemma FourBytes(b: Block, w: nat)
    requires w < WORDS
    ensures GetWord(b, w) == Bytes(b, 4 * w, 4)
    ensures GetWord(b, w) % 0x1_0000 == Bytes(b, 4 * w, 2) && GetWord(b, w) / 0x1_0000 == Bytes(b, 4 * w + 2, 2)
  {
    var o := 4 * w;
    assert Bytes(b, o + 1, 1) == b[o + 1] as int && Bytes(b, o + 3, 1) == b[o + 3] as int;
    assert Bytes(b, o + 2, 2) == b[o + 2] as int + 0x100 * b[o + 3] as int;
    assert Bytes(b, o, 4) == b[o] as int + 0x100 * (b[o + 1] as int + 0x100 * Bytes(b, o + 2, 2));
    Halves(b[o], b[o + 1], b[o + 2], b[o + 3]);
  }

  lemma Halves(b0: int, b1: int, b2: int, b3: int)
    requires 0 <= b0 < 0x100 && 0 <= b1 < 0x100
    ensures var w := b0 + 0x100 * b1 + 0x1_0000 * b2 + 0x100_0000 * b3;
            w % 0x1_0000 == b0 + 0x100 * b1 && w / 0x1_0000 == b2 + 0x100 * b3
  {
  }

  lemma WordSplit(w: Word)
    ensures w == w % 0x100 + 0x100 * (w / 0x100 % 0x100) + 0x1_0000 * (w / 0x1_0000 % 0x100)
                 + 0x100_0000 * (w / 0x100_0000)
  {
    assert w / 0x1_0000 == w / 0x100 / 0x100;
    assert w / 0x100_0000 == w / 0x1_0000 / 0x100;
  }

  /** Storing a word changes that word and no other. */
  lemma GetPutWord(b: Block, i: nat, w: Word, j: nat)
    requires i < WORDS && j < WORDS
    ensures GetWord(PutWord(b, i, w), j) == if i == j then w else GetWord(b, j)
  {
    WordSplit(w);
  }

  /** A freshly zeroed block reads as zero words. */
  lemma ZeroWord(i: nat)
    requires i < WORDS
    ensures GetWord(ZeroBlock, i) == 0
  {
  }
}
