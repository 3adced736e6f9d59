/** The on-disk file system of fs.h, on values: free bitmap, inode table, block
    addresses, and who owns which block. */
module FsLayout {
  import opened Blocks

  const NDIRECT: nat := 12
  const NINDIRECT: nat := 256
  const MAXFILE: nat := NDIRECT + NINDIRECT
  const IPB: nat := 16
  const BPB: nat := 8192

  // ----- bits of a bitmap block -----

  function Pow2(w: nat): (p: nat) { if w == 0 then 1 else 2 * Pow2(w - 1) }

  /** `x & (1 << k) != 0` */
  predicate HasBit(x: nat, k: nat) {
    if k == 0 then x % 2 == 1 else HasBit(x / 2, k - 1)
  }

  /** `x | (1 << k)`, or `x & ~(1 << k)`, by the value the bit is to have. */
  function WithBit(x: nat, k: nat, v: bool): (y: nat)
  {
    if k == 0 then x / 2 * 2 + (if v then 1 else 0) else WithBit(x / 2, k - 1, v) * 2 + x % 2
  }

  lemma {:induction false} WithBitBits(x: nat, k: nat, v: bool, j: nat)
    ensures HasBit(WithBit(x, k, v), j) == if j == k then v else HasBit(x, j)
  {
    if k > 0 && j > 0 { WithBitBits(x / 2, k - 1, v, j - 1); }
  }

  lemma {:induction false} WithBitRange(x: nat, k: nat, v: bool, w: nat)
    requires k < w && x < Pow2(w)
    ensures WithBit(x, k, v) < Pow2(w)
  {
    var p := Pow2(w - 1);
    assert x / 2 < p by { assert Pow2(w) == 2 * p; }
    var y := if k > 0 then WithBit(x / 2, k - 1, v) else x / 2;
    if k > 0 { WithBitRange(x / 2, k - 1, v, w - 1); }
    assert y < p && WithBit(x, k, v) <= 2 * y + 1;
  }

  /** Bit k of a bitmap block: bit k % 8 of byte k / 8. */
  predicate GetBit(b: Block, k: nat)
    requires k < BPB
  {
    HasBit(b[k / 8], k % 8)
  }

  function PutBit(b: Block, k: nat, v: bool): (r: Block)
    requires k < BPB
  {
    assert Pow2(8) == 256;
    WithBitRange(b[k / 8], k % 8, v, 8);
    b[k / 8 := WithBit(b[k / 8], k % 8, v)]
  }

  /** 1 << k within a byte */
  function Weight(k: nat): (w: int)
    requires k < 8
  {
    if k == 0 then 1 else if k == 1 then 2 else if k == 2 then 4 else if k == 3 then 8
    else if k == 4 then 16 else if k == 5 then 32 else if k == 6 then 64 else 128
  }

  lemma {:induction false} HasBitIs(x: nat, k: nat)
    requires k < 8
    ensures HasBit(x, k) <==> x / Weight(k) % 2 == 1
  {
    if k > 0 {
      HasBitIs(x / 2, k - 1);
      assert x / 2 / Weight(k - 1) == x / Weight(k);
    }
  }

  lemma {:induction false} WithBitIs(x: nat, k: nat, v: bool)
    requires k < 8
    ensures HasBit(x, k) == v ==> WithBit(x, k, v) == x
    ensures HasBit(x, k) != v ==> WithBit(x, k, v) == if v then x + Weight(k) else x - Weight(k)
  {
    if k > 0 {
      WithBitIs(x / 2, k - 1, v);
      assert Weight(k) == 2 * Weight(k - 1);
    }
  }

  /** Where a bit lies in the block: in byte k / 8, with the weight of the power of two k % 8. Setting or
      clearing it adds or takes away that weight. */
  lemma BitPlace(b: Block, k: nat, v: bool)
    requires k < BPB
    ensures GetBit(b, k) <==> b[k / 8] / Weight(k % 8) % 2 == 1
    ensures GetBit(b, k) == v ==> PutBit(b, k, v) == b
    ensures GetBit(b, k) != v ==>
              && (PutBit(b, k, v)[k / 8] as int) == (b[k / 8] as int) + (if v then Weight(k % 8) else -Weight(k % 8))
              && forall j :: 0 <= j < BSIZE && j != k / 8 ==> PutBit(b, k, v)[j] == b[j]
  {
    HasBitIs(b[k / 8], k % 8);
    WithBitIs(b[k / 8], k % 8, v);
  }

  /** Setting or clearing a bit changes that bit and no other. */
  lemma GetPutBit(b: Block, k: nat, v: bool, j: nat)
    requires k < BPB && j < BPB
    ensures GetBit(PutBit(b, k, v), j) == if j == k then v else GetBit(b, j)
  {
    WithBitBits(b[k / 8], k % 8, v, j % 8);
    if k / 8 == j / 8 {
      assert k == 8 * (k / 8) + k % 8 && j == 8 * (j / 8) + j % 8;
    }
  }

  // ----- on-disk inodes -----

  type Half = h: int | 0 <= h < 0x1_0000

  /** `struct dinode`: 64 bytes, sixteen words. */
  datatype Dinode = Dinode(itype: Half, major: Half, minor: Half, nlink: Half, size: Word, addrs: Addrs)

  type Addrs = a: seq<Word> | |a| == NDIRECT + 1 witness [0, 0, 0, 0, 0, 0, 0, 0, 0, 0, 0, 0, 0]

  /** Word w of an inode as laid out on disk. */
  function InodeWord(di: Dinode, w: nat): (r: Word)
    requires w < 16
  {
    if w == 0 then di.itype + 0x1_0000 * di.major
    else if w == 1 then di.minor + 0x1_0000 * di.nlink
    else if w == 2 then di.size
    else di.addrs[w - 3]
  }

  function WordsAt(b: Block, from: nat, n: nat): (r: seq<Word>)
    requires from + n <= WORDS
    ensures |r| == n && forall i :: 0 <= i < n ==> r[i] == GetWord(b, from + i)
  {
    if n == 0 then [] else WordsAt(b, from, n - 1) + [GetWord(b, from + n - 1)]
  }

  /** The inode in slot k of an inode block. */
  function GetInode(b: Block, k: nat): (di: Dinode)
    requires k < IPB
  {
    var w0, w1 := GetWord(b, 16 * k), GetWord(b, 16 * k + 1);
    Dinode(w0 % 0x1_0000, w0 / 0x1_0000, w1 % 0x1_0000, w1 / 0x1_0000, GetWord(b, 16 * k + 2),
           WordsAt(b, 16 * k + 3, NDIRECT + 1))
  }

  /** Stores the first n words of an inode into slot k. */
  function PutInodeWords(b: Block, k: nat, di: Dinode, n: nat): (r: Block)
    requires k < IPB && n <= 16
  {
    if n == 0 then b else PutWord(PutInodeWords(b, k, di, n - 1), 16 * k + n - 1, InodeWord(di, n - 1))
  }

  function PutInode(b: Block, k: nat, di: Dinode): (r: Block)
    requires k < IPB
  {
    PutInodeWords(b, k, di, 16)
  }

  lemma {:induction false} PutInodeWord(b: Block, k: nat, di: Dinode, n: nat, j: nat)
    requires k < IPB && n <= 16 && j < WORDS
    ensures GetWord(PutInodeWords(b, k, di, n), j) ==
            if 16 * k <= j < 16 * k + n then InodeWord(di, j - 16 * k) else GetWord(b, j)
  {
    if n > 0 {
      PutInodeWord(b, k, di, n - 1, j);
      GetPutWord(PutInodeWords(b, k, di, n - 1), 16 * k + n - 1, InodeWord(di, n - 1), j);
    }
  }

  /** `struct dinode` byte by byte: four halves, the size and thirteen addresses, low byte first. */
  lemma InodeBytes(b: Block, k: nat, a: nat)
    requires k < IPB && a <= NDIRECT
    ensures var di, o := GetInode(b, k), 64 * k;
            && di.itype == Bytes(b, o, 2) && di.major == Bytes(b, o + 2, 2)
            && di.minor == Bytes(b, o + 4, 2) && di.nlink == Bytes(b, o + 6, 2)
            && di.size == Bytes(b, o + 8, 4) && di.addrs[a] == Bytes(b, o + 12 + 4 * a, 4)
  {
    hide GetWord, Bytes;
    FourBytes(b, 16 * k);
    FourBytes(b, 16 * k + 1);
    FourBytes(b, 16 * k + 2);
    FourBytes(b, 16 * k + 3 + a);
  }

  /** Inode round trip: iupdate then ilock gives the inode back, and no other inode
      of the block changes. */
  lemma GetPutInode(b: Block, k: nat, di: Dinode, j: nat)
    requires k < IPB && j < IPB
    ensures GetInode(PutInode(b, k, di), j) == if j == k then di else GetInode(b, j)
  {
    hide PutWord, GetWord, PutInodeWords, WordsAt;
    InodeWordAt(b, k, di, j, 0);
    InodeWordAt(b, k, di, j, 1);
    InodeWordAt(b, k, di, j, 2);
    var l, r := GetInode(PutInode(b, k, di), j), if j == k then di else GetInode(b, j);
    forall a | 0 <= a < NDIRECT + 1 ensures l.addrs[a] == r.addrs[a] {
      InodeWordAt(b, k, di, j, 3 + a);
    }
    assert l.addrs == r.addrs;
  }

  lemma InodeWordAt(b: Block, k: nat, di: Dinode, j: nat, w: nat)
    requires k < IPB && j < IPB && w < 16
    ensures GetWord(PutInode(b, k, di), 16 * j + w) == if j == k then InodeWord(di, w) else GetWord(b, 16 * j + w)
  {
    PutInodeWord(b, k, di, 16, 16 * j + w);
  }
}
