/** One file system, block by block: ninety full files, one file of twelve blocks, and four free blocks that
    lie under four different bitmap blocks. On it filewrite fills its share of the log exactly, and a source
    that faults leaves bytes in the file that writei does not report, for a while or for good. */
module FsExample {
  import opened Blocks
  import opened LogFormat
  import opened FsLayout
  import opened FsOwner
  import opened FsTrace
  import opened FileSystem
  import opened FileWrite

  const SIZE: nat := 28300
  const GEO := Geo(SIZE, 200, 33, 3996)
  const FIRST: nat := 4000           // DataStart(GEO)
  const RUN: nat := 8071             // a free block and the blocks of thirty full files
  const PERFILE: nat := 269          // twelve direct blocks, the indirect block, 256 more
  const FILE: nat := 91              // the file of twelve blocks

  // ----- who owns what -----

  /** The first block of full file i. */
  function Base(i: nat): (b: nat)
    requires 1 <= i <= 90
  {
    FIRST + RUN * ((i - 1) / 30) + 1 + PERFILE * ((i - 1) % 30)
  }

  /** The block that slot x names. */
  function Placed(x: Slot): (a: nat) {
    if 1 <= x.i <= 90 then
      match x
      case Direct(i, k) => if k < NDIRECT then Base(i) + k else 0
      case IndPtr(i) => Base(i) + NDIRECT
      case IndEntry(i, j) => if j < NINDIRECT then Base(i) + NDIRECT + 1 + j else 0
    else if x.i == FILE && x.Direct? && x.k < NDIRECT then FIRST + 3 * RUN + 1 + x.k
    else 0
  }

  /** Slot number e of the PERFILE slots of file i. */
  function SlotNo(i: nat, e: nat): (x: Slot) {
    if e < NDIRECT then Direct(i, e) else if e == NDIRECT then IndPtr(i) else IndEntry(i, e - NDIRECT - 1)
  }

  predicate Owned(b: nat) {
    var o := b - FIRST;
    && b >= FIRST
    && (o < 3 * RUN ==> o % RUN != 0)
    && (o >= 3 * RUN ==> 3 * RUN < o <= 3 * RUN + NDIRECT)
  }

  function OwnerOf(b: nat): (x: Slot)
    requires Owned(b)
  {
    var o := b - FIRST;
    if o >= 3 * RUN then Direct(FILE, o - 3 * RUN - 1)
    else var e := o % RUN - 1; SlotNo(1 + 30 * (o / RUN) + e / PERFILE, e % PERFILE)
  }

  ghost function Owners(): (m: Owner) { map b | 0 <= b < SIZE && Owned(b) :: OwnerOf(b) }

  lemma OwnerNames(b: nat)
    requires Owned(b)
    ensures b < SIZE && ValidSlot(GEO, OwnerOf(b)) && Placed(OwnerOf(b)) == b
  {
    var o := b - FIRST;
    if o < 3 * RUN {
      var j, e := o / RUN, o % RUN - 1;
      assert o == RUN * j + e + 1 && j < 3 && 0 <= e < 30 * PERFILE;
      var q, r := e / PERFILE, e % PERFILE;
      assert e == PERFILE * q + r && q < 30;
      var i := 1 + 30 * j + q;
      assert (i - 1) / 30 == j && (i - 1) % 30 == q;
    }
  }

  lemma NamedIsOwned(x: Slot)
    requires ValidSlot(GEO, x) && Placed(x) != 0
    ensures Owned(Placed(x)) && OwnerOf(Placed(x)) == x
  {
    hide OwnerOf, SlotNo, Base;
    if x.i != FILE {
      var r := if x.Direct? then x.k else if x.IndPtr? then NDIRECT else NDIRECT + 1 + x.j;
      assert x == SlotNo(x.i, r) by { SlotNoIs(x, r); }
      assert Placed(x) == Base(x.i) + r;
      PlaceOf(x.i, r);
    } else {
      FileOwns(x.k);
    }
  }

  lemma SlotNoIs(x: Slot, r: nat)
    requires ValidSlot(GEO, x) && r == if x.Direct? then x.k else if x.IndPtr? then NDIRECT else NDIRECT + 1 + x.j
    ensures x == SlotNo(x.i, r) && r < PERFILE
  {
  }

  lemma FileOwns(k: nat)
    requires k < NDIRECT
    ensures var b := FIRST + 3 * RUN + 1 + k; Owned(b) && OwnerOf(b) == Direct(FILE, k)
  {
  }

  /** Slot number r of full file i, from its block back to the slot. */
  lemma PlaceOf(i: nat, r: nat)
    requires 1 <= i <= 90 && r < PERFILE
    ensures Owned(Base(i) + r) && OwnerOf(Base(i) + r) == SlotNo(i, r)
  {
    hide SlotNo;
    var j, q := (i - 1) / 30, (i - 1) % 30;
    assert i == 1 + 30 * j + q && j < 3;
    var e := PERFILE * q + r;
    var o := Base(i) + r - FIRST;
    assert o == RUN * j + (e + 1) && e + 1 < RUN;
    assert o / RUN == j && o % RUN == e + 1;
    assert e / PERFILE == q && e % PERFILE == r;
  }

  // ----- the blocks -----

  predicate InUse(c: nat) { c < FIRST || Owned(c) }

  function Address(x: Slot): (a: Word)
    ensures a == Placed(x)
  {
    NamesFits(x);
    Placed(x)
  }

  lemma NamesFits(x: Slot)
    ensures Placed(x) < SIZE
  {
    if 1 <= x.i <= 90 {
      assert (x.i - 1) / 30 <= 2 && (x.i - 1) % 30 <= 29;
    }
  }

  /** The first n addresses of file i. */
  function FirstAddrs(i: nat, n: nat): (a: seq<Word>)
    ensures |a| == n && forall k :: 0 <= k < n ==> a[k] == Placed(SlotNo(i, k))
  {
    if n == 0 then [] else FirstAddrs(i, n - 1) + [Address(SlotNo(i, n - 1))]
  }

  function InodeNo(i: nat): (di: Dinode) {
    Dinode(2, 0, 0, 1, if i == FILE then NDIRECT * BSIZE else if 1 <= i <= 90 then MAXFILE * BSIZE else 0,
           FirstAddrs(i, NDIRECT + 1))
  }

  function BitmapBlock(m: nat, n: nat): (b: Block)
    requires n <= BPB
  {
    if n == 0 then ZeroBlock else PutBit(BitmapBlock(m, n - 1), n - 1, InUse(m * BPB + n - 1))
  }

  lemma {:induction false} BitmapBits(m: nat, n: nat, k: nat)
    requires k < n <= BPB
    ensures GetBit(BitmapBlock(m, n), k) == InUse(m * BPB + k)
  {
    hide GetBit, PutBit;
    GetPutBit(BitmapBlock(m, n - 1), n - 1, InUse(m * BPB + n - 1), k);
    if k < n - 1 { BitmapBits(m, n - 1, k); }
  }

  function InodeBlock(t: nat, n: nat): (b: Block)
    requires n <= IPB
  {
    if n == 0 then ZeroBlock else PutInode(InodeBlock(t, n - 1), n - 1, InodeNo(t * IPB + n - 1))
  }

  lemma {:induction false} InodesOf(t: nat, n: nat, k: nat)
    requires k < n <= IPB
    ensures GetInode(InodeBlock(t, n), k) == InodeNo(t * IPB + k)
  {
    hide GetInode, PutInode, InodeNo;
    GetPutInode(InodeBlock(t, n - 1), n - 1, InodeNo(t * IPB + n - 1), k);
    if k < n - 1 { InodesOf(t, n - 1, k); }
  }

  function EntryBlock(i: nat, n: nat): (b: Block)
    requires n <= NINDIRECT
  {
    if n == 0 then ZeroBlock else PutWord(EntryBlock(i, n - 1), n - 1, Address(IndEntry(i, n - 1)))
  }

  lemma {:induction false} EntriesOf(i: nat, n: nat, k: nat)
    requires k < n <= NINDIRECT
    ensures GetWord(EntryBlock(i, n), k) == Placed(IndEntry(i, k))
  {
    hide GetWord, PutWord, Names;
    GetPutWord(EntryBlock(i, n - 1), n - 1, Address(IndEntry(i, n - 1)), k);
    if k < n - 1 { EntriesOf(i, n - 1, k); }
  }

  function BlockAt(b: nat): (x: Block) {
    if GEO.inodestart <= b < GEO.bmapstart then InodeBlock(b - GEO.inodestart, IPB)
    else if GEO.bmapstart <= b < FIRST then BitmapBlock(b - GEO.bmapstart, BPB)
    else if Owned(b) && OwnerOf(b).IndPtr? then EntryBlock(OwnerOf(b).i, NINDIRECT)
    else ZeroBlock
  }

  function TheDisk(): (d: Disk) { map b | 0 <= b < SIZE :: BlockAt(b) }

  function TheTable(): (m: map<nat, Dinode>) { map[FILE := InodeNo(FILE)] }

  function TheFs(): (s: Fs) { Fs(GEO, TheDisk(), TheTable()) }

  // ----- it is a file system -----

  lemma ShapeOf()
    ensures GeoOk(GEO) && DataStart(GEO) == FIRST && Shape(TheFs())
  {
    hide BlockAt;
  }

  lemma InodeIs(i: nat)
    requires i < GEO.ninodes
    ensures Shape(TheFs()) && Ino(TheFs(), i) == InodeNo(i) && InodeOf(TheFs(), i) == InodeNo(i)
  {
    hide GetInode, InodeBlock, InodeNo, BitmapBlock, EntryBlock;
    ShapeOf();
    IBlockBelow(GEO, i);
    InodesOf(i / IPB, IPB, i % IPB);
    assert i / IPB * IPB + i % IPB == i;
    assert TheDisk()[IBlock(GEO, i)] == InodeBlock(i / IPB, IPB);
  }

  lemma AddrIs(x: Slot)
    requires ValidSlot(GEO, x)
    ensures Shape(TheFs()) && Addr(TheFs(), x) == Placed(x)
  {
    hide GetInode, GetWord, InodeBlock, BitmapBlock, EntryBlock, Base, OwnerOf, Owned;
    InodeIs(x.i);
    if x.IndEntry? {
      var p := Placed(IndPtr(x.i));
      assert InodeNo(x.i).addrs[NDIRECT] == p;
      if p != 0 {
        NamedIsOwned(IndPtr(x.i));
        NamesFits(IndPtr(x.i));
        PlacedHigh(IndPtr(x.i));
        EntriesOf(x.i, NINDIRECT, x.j);
        assert TheDisk()[p] == EntryBlock(x.i, NINDIRECT);
      }
    }
  }

  lemma PlacedHigh(x: Slot)
    ensures Placed(x) == 0 || FIRST < Placed(x)
  {
  }

  lemma BitIs(b: nat)
    requires b < SIZE
    ensures Shape(TheFs()) && Bit(TheFs(), b) == InUse(b)
  {
    hide GetBit, InodeBlock, BitmapBlock, EntryBlock, InUse;
    ShapeOf();
    BBlockBelow(GEO, b);
    BitmapBits(b / BPB, BPB, b % BPB);
    assert b / BPB * BPB + b % BPB == b;
    assert TheDisk()[BBlock(GEO, b)] == BitmapBlock(b / BPB, BPB);
  }

  lemma OwnIs()
    ensures Own(TheFs(), Owners(), {}, {})
  {
    hide Addr, Bit, TheFs, Placed, Owned, OwnerOf, BlockAt, TheDisk;
    ShapeOf();
    GeoIs();
    var s, o := TheFs(), Owners();
    forall x | ValidSlot(s.geo, x) && Addr(s, x) != 0 ensures Addr(s, x) in o && o[Addr(s, x)] == x {
      AddrIs(x);
      NamedIsOwned(x);
      NamesFits(x);
    }
    forall b | b in o ensures ValidSlot(s.geo, o[b]) && Addr(s, o[b]) == b && FIRST <= b < SIZE {
      OwnerNames(b);
      AddrIs(o[b]);
      OwnedHigh(b);
    }
    forall b | 0 <= b < SIZE ensures Bit(s, b) <==> Used(s.geo, o, {}, {}, b) {
      BitIs(b);
    }
  }

  lemma GeoIs()
    ensures TheFs().geo == GEO && TheFs().itable == TheTable() && TheFs().blocks == TheDisk()
  {
    hide BlockAt;
  }

  lemma OwnedHigh(b: nat)
    requires Owned(b)
    ensures FIRST <= b
  {
  }

  lemma FileIs()
    ensures Own(TheFs(), Owners(), {}, {}) && NoHoles(TheFs(), FILE) && OnDisk(TheFs())
    ensures TheFs().itable == TheTable() && TheTable()[FILE].size == NDIRECT * BSIZE
    ensures forall bn | 0 <= bn < MAXFILE :: Addr(TheFs(), SlotOf(FILE, bn)) ==
              if bn < NDIRECT then FIRST + 3 * RUN + 1 + bn else 0
    ensures Addr(TheFs(), IndPtr(FILE)) == 0
  {
    hide Addr, Bit, Own, TheFs, Owned, OwnerOf, BlockAt, TheDisk, InodeOf, Ino;
    OwnIs();
    GeoIs();
    InodeIs(FILE);
    AddrIs(IndPtr(FILE));
    forall bn | 0 <= bn < MAXFILE
      ensures Addr(TheFs(), SlotOf(FILE, bn)) == if bn < NDIRECT then FIRST + 3 * RUN + 1 + bn else 0
    {
      AddrIs(SlotOf(FILE, bn));
    }
  }

  /** The four lowest free blocks. */
  function TheFree(): (q: set<nat>) { {FIRST, FIRST + RUN, FIRST + 2 * RUN, FIRST + 3 * RUN} }

  lemma FreeIs()
    ensures Shape(TheFs()) && LowestFour(TheFs(), TheFree()) && |Maps(GEO, TheFree())| == 4
    ensures !Bit(TheFs(), SIZE - 1)
  {
    hide Bit, BlockAt, TheDisk, TheFs;
    ShapeOf();
    GeoIs();
    BitIs(SIZE - 1);
    assert |TheFree()| == 4;
    forall q | q in TheFree() ensures q < SIZE && !Bit(TheFs(), q) {
      BitIs(q);
    }
    forall q, c | q in TheFree() && 0 <= c < q ensures Bit(TheFs(), c) || c in TheFree() {
      BitIs(c);
      FreeBelow(c);
    }
    assert Maps(GEO, TheFree()) == {3996, 3997, 3998, 3999};
  }

  lemma FreeBelow(c: nat)
    requires c < FIRST + 3 * RUN
    ensures InUse(c) || c in TheFree()
  {
    if c >= FIRST {
      var j := (c - FIRST) / RUN;
      assert c - FIRST == RUN * j + (c - FIRST) % RUN && j < 3;
    }
  }

  method Mount() returns (fs: FileSys)
    ensures fresh(fs) && fs.St() == TheFs() && fs.owner == Owners() && fs.undo == map[] && fs.trace == []
    ensures fs.Ok() && NoHoles(fs.St(), FILE) && OnDisk(fs.St())
  {
    hide Own, NoHoles, OnDisk, TheDisk, TheTable, Owners;
    FileIs();
    fs := new FileSys(GEO, TheDisk());
    fs.itable := TheTable();
    fs.owner := Owners();
    assert fs.St() == TheFs();
  }

  // ----- a transaction that uses up its share of the log -----

  ghost predicate AllFree(s: Fs, free: set<nat>)
    requires Shape(s)
  {
    forall x :: x in free ==> x < s.geo.size && !Bit(s, x)
  }

  /** Five free blocks are more than a chunk can take. */
  lemma NotAllTaken(s0: Fs, o0: Owner, s: Fs, owner: Owner, i: nat, off: nat, free: set<nat>)
    requires Own(s0, o0, {}, {}) && Own(s, owner, {}, {}) && i < s.geo.ninodes
    requires Grew(s0, s, i, off, MAXCHUNK) && KeepsAddrs(s0, s) && Crossing(s0, i, off)
    requires |free| == 5 && AllFree(s0, free)
    ensures exists x | 0 <= x < s.geo.size :: !Bit(s, x)
  {
    hide Own, Bit, Addr, KeepsAddrs, LowestFirst, NewWithin;
    if forall x | 0 <= x < s.geo.size :: Bit(s, x) {
      forall x | x in free ensures x in Added(s, i, off / BSIZE) {
        NewSlotIs(s0, o0, s, owner, i, off, x);
      }
      Smaller(free, Added(s, i, off / BSIZE));
      AtMostFour(s, i, off / BSIZE);
    }
  }

  lemma AtMostFour(s: Fs, i: nat, f: nat)
    requires Shape(s) && i < s.geo.ninodes && f < NDIRECT
    ensures |Added(s, i, f)| <= 4
  {
    hide Addr;
    var a, b, c, d := Addr(s,
                           SlotOf(i, f + 1)), Addr(s, SlotOf(i, f + 2)), Addr(s, SlotOf(i, f + 3)), Addr(s, IndPtr(i));
    assert Added(s, i, f) == {a} + {b} + {c} + {d};
  }

  /** The bound on a transaction is reached: this one logs MAXOPBLOCKS different blocks. */
  method LargestTransaction() returns (fs: FileSys)
    ensures |fs.Logged()| == MAXOPBLOCKS
  {
    hide Own, Torn, NoHoles, OnDisk, TheFs, Grew, Recorded, KeepsAddrs, OtherInodes, Overwritten, Bit, Crossing;
    hide LowestFour;
    hide Targets, Maps, TheFree, AllFree;
    fs := Mount();
    FileIs();
    FreeIs();
    GeoIs();
    var file := new File(fs, FILE);
    file.off := NDIRECT * BSIZE - 1;
    ghost var s0, o0 := fs.St(), fs.owner;
    var r;
    ghost var w;
    r, w := file.WriteOne(Zeros(MAXCHUNK), MAXCHUNK, true);
    NoTargets(fs.Logged());
    CrossingIs();
    FiveFree();
    NotAllTaken(s0, o0, fs.St(), fs.owner, FILE, NDIRECT * BSIZE - 1, TheFree() + {SIZE - 1});
    assert r == MAXCHUNK;
    ChunkIsTight(s0, o0, fs.St(), fs.owner, fs.Logged(), FILE, NDIRECT * BSIZE - 1, TheFree());
  }

  lemma NoTargets(l: set<nat>)
    ensures Targets([]) == {} && l - Targets([]) == l
  {
  }

  lemma CrossingIs()
    ensures Shape(TheFs()) && TheFs().geo == GEO && Crossing(TheFs(), FILE, NDIRECT * BSIZE - 1)
  {
    hide Addr, TheFs, Own, OnDisk, NoHoles;
    ShapeOf();
    GeoIs();
    FileIs();
  }

  lemma FiveFree()
    ensures |TheFree() + {SIZE - 1}| == 5 && Shape(TheFs()) && AllFree(TheFs(), TheFree() + {SIZE - 1})
  {
    hide Bit, TheFs;
    FreeIs();
    GeoIs();
  }

  // ----- a write whose source faults -----

  /** The block that holds the first byte of the file. */
  const START: nat := FIRST + 3 * RUN + 1

  /** A write over the first block takes at most one block. */
  lemma NotBothTaken(s0: Fs, o0: Owner, s: Fs, owner: Owner, x: nat, y: nat)
    requires Own(s0, o0, {}, {}) && Own(s, owner, {}, {}) && FILE < s.geo.ninodes && Grew(s0, s, FILE, 0, 2)
    requires KeepsAddrs(s0, s)
    requires Addr(s0, Direct(FILE, 0)) != 0 && x < y < s.geo.size && !Bit(s0, x) && !Bit(s0, y)
    ensures !Bit(s, x) || !Bit(s, y)
  {
    hide Addr, Bit, Own, LowestFirst, NewWithin, KeepsAddrs;
    if Bit(s, x) && Bit(s, y) {
      MustBePointer(s0, o0, s, owner, x);
      MustBePointer(s0, o0, s, owner, y);
    }
  }

  lemma MustBePointer(s0: Fs, o0: Owner, s: Fs, owner: Owner, x: nat)
    requires Own(s0, o0, {}, {}) && Own(s, owner, {}, {}) && FILE < s.geo.ninodes && Grew(s0, s, FILE, 0, 2)
    requires KeepsAddrs(s0, s)
    requires Addr(s0, Direct(FILE, 0)) != 0 && x < s.geo.size && !Bit(s0, x) && Bit(s, x)
    ensures x == Addr(s, IndPtr(FILE))
  {
    hide Addr, Bit, LowestFirst;
    assert x in owner && x !in o0;
    var y := owner[x];
    assert ValidSlot(s.geo, y) && Addr(s, y) == x && x != 0;
    assert Addr(s0, y) == 0;
    assert !y.IndPtr? ==> BlockNo(y) == 0;
  }

  lemma FirstByte(s: Fs, a: nat)
    requires Shape(s) && FILE < s.geo.ninodes && NoHoles(s, FILE) && Ino(s, FILE).size > 0
    requires Addr(s, Direct(FILE, 0)) == a && a != 0 && a in s.blocks
    ensures |Content(s, FILE)| > 0 && Content(s, FILE)[..1] == [s.blocks[a][0]] && Raw(s, FILE, 0) == s.blocks[a][0]
  {
    hide Addr, Ino;
  }

  lemma KeptSlot(s: Fs, s': Fs, a: nat)
    requires Shape(s) && Shape(s') && s'.geo == s.geo && FILE < s.geo.ninodes && Addr(s, Direct(FILE, 0)) == a && a != 0
    ensures KeepsAddrs(s, s') || SameAddrs(s, s') ==> Addr(s', Direct(FILE, 0)) == a
  {
    hide Addr;
    assert ValidSlot(s.geo, Direct(FILE, 0));
  }

  lemma StartIs()
    ensures Shape(TheFs()) && TheFs().geo == GEO && Addr(TheFs(), Direct(FILE, 0)) == START
    ensures START in TheDisk() && TheDisk()[START] == ZeroBlock && TheFs().blocks == TheDisk()
    ensures !Bit(TheFs(), FIRST) && !Bit(TheFs(), FIRST + RUN)
  {
    hide TheFs, Bit, BitmapBlock, InodeBlock, EntryBlock;
    ShapeOf();
    GeoIs();
    AddrIs(Direct(FILE, 0));
    BitIs(FIRST);
    BitIs(FIRST + RUN);
    OwnerNames(START);
  }

  /** The bytes of a file's first block, from what the file reads there. */
  lemma FirstBlock(s0: Fs, d: Fs, x: seq<Byte>)
    requires Shape(s0) && Shape(d) && d.geo == s0.geo && FILE < d.geo.ninodes && Visible(s0, d, FILE, 0, x)
    requires Ino(d, FILE).size >= BSIZE >= |x|
    requires Addr(s0, Direct(FILE, 0)) == START && Addr(d, Direct(FILE, 0)) == START
    requires START in s0.blocks && s0.blocks[START] == ZeroBlock && START in d.blocks
    ensures d.blocks[START] == x + ZeroBlock[|x|..]
  {
    hide Addr, Ino;
    forall k | 0 <= k < BSIZE ensures d.blocks[START][k] == (x + ZeroBlock[|x|..])[k] {
      assert Raw(d, FILE, k) == if k < |x| then x[k] else Raw(s0, FILE, k);
    }
  }

  /** The file system after at most one write to the first two bytes of the file, all of it zeros. */
  ghost predicate Ready(s: Fs, owner: Owner) {
    && Own(s, owner, {}, {}) && s.geo == GEO && FILE in s.itable && NoHoles(s, FILE)
    && Shape(TheFs()) && TheFs().geo == GEO && Grew(TheFs(), s, FILE, 0, 2) && KeepsAddrs(TheFs(), s)
    && Ino(s, FILE).size >= BSIZE && START in s.blocks && s.blocks[START] == ZeroBlock
    && Addr(s, Direct(FILE, 0)) == START
  }

  lemma ReadyStart()
    ensures Ready(TheFs(), Owners())
  {
    hide Own, NoHoles, OnDisk, TheFs, Addr, Grew, Ino;
    StartIs();
    GeoIs();
    FileIs();
    GrewStart(TheFs(), FILE, 0, 2);
    MemInode(TheFs(), FILE);
  }

  /** One more write of at most two bytes: the file has as many blocks as before, and the disk is not full. */
  lemma ReadyNext(s: Fs, owner: Owner, s': Fs, owner': Owner, n: nat)
    requires Ready(s, owner) && Own(s', owner', {}, {}) && s'.geo == GEO && n <= 2
    requires Shape(s) && Shape(s') && Grew(s, s', FILE, 0, n) && KeepsAddrs(s, s')
    ensures Shape(TheFs()) && TheFs().geo == GEO && Grew(TheFs(), s', FILE, 0, 2) && KeepsAddrs(TheFs(), s')
    ensures Addr(s', Direct(FILE, 0)) == START && START in s'.blocks
    ensures exists c | 0 <= c < s'.geo.size :: !Bit(s', c)
  {
    hide Own, NoHoles, OnDisk, TheFs, Addr, Grew, Ino, Bit, KeepsAddrs;
    StartIs();
    FileIs();
    GrewTurn(TheFs(), s, s', FILE, 0, 0, n, 2);
    KeepsThen(TheFs(), s, s');
    KeptSlot(s, s', START);
    OwnShape(s', owner');
    NotBothTaken(TheFs(), Owners(), s', owner', FIRST, FIRST + RUN);
  }

  lemma KeepsThen(s0: Fs, s1: Fs, s2: Fs)
    requires Shape(s0) && Shape(s1) && Shape(s2) && s1.geo == s0.geo && s2.geo == s0.geo
    requires KeepsAddrs(s0, s1) && KeepsAddrs(s1, s2)
    ensures KeepsAddrs(s0, s2)
  {
    hide Addr;
  }

  /** The first byte of the file as its buffer shows it, and the block that holds it as the log and the disk do. */
  ghost predicate Shows(fs: FileSys, x: Byte, d: Block)
    reads fs
  {
    && fs.Ok() && fs.geo == GEO && FILE in fs.itable && NoHoles(fs.St(), FILE) && Ino(fs.St(), FILE).size > 0
    && Addr(fs.St(), Direct(FILE, 0)) == START && START in fs.blocks && fs.blocks[START][0] == x
    && START in fs.Durable().blocks && fs.Durable().blocks[START] == d
  }

  const OneBlock: Block := [1] + ZeroBlock[1..]

  /** Of two bytes written over the start of the file only the first can be read. It stays if the block is in
      the log group already, and only then. */
  method WriteTwo(fs: FileSys) returns (r: int)
    requires fs.Ok() && Ready(fs.St(), fs.owner) && fs.undo == map[]
    modifies fs
    ensures r == 0 && Shows(fs, 1, if START in old(fs.Logged()) then OneBlock else ZeroBlock)
  {
    hide Own, NoHoles, OnDisk, TheFs, Grew, Recorded, KeepsAddrs, OtherInodes, Overwritten, Bit, Raw, Content, Ino;
    hide Targets, Addr, SameAddrs, SameInodes, SameBits, LogsWithin, Splice, Logs, Visible;
    OkShape(fs);
    ghost var s0, o0, l0, w := fs.St(), fs.owner, fs.Logged(), 0;
    MemInode(s0, FILE);
    r, w := fs.Writei(FILE, 0, [1, 1], 1);
    OkShape(fs);
    ReadyNext(s0, o0, fs.St(), fs.owner, 2);
    BehindOwn(fs.St(), fs.owner, fs.undo);
    KeptSlot(fs.St(), fs.Durable(), START);
    SameSize(fs.St(), fs.Durable());
    var d := if START in l0 then 1 else 0;
    assert Settled(s0, l0, FILE, 0, 0, 1) == d;
    FirstBlock(s0, fs.Durable(), [1, 1][..d]);
    ShowsByte(s0, fs.St(), START);
  }

  lemma SameSize(s: Fs, d: Fs)
    requires Shape(s) && Shape(d) && d.geo == s.geo && FILE < s.geo.ninodes && SameInodes(s, d)
    ensures Ino(d, FILE) == Ino(s, FILE)
  {
    hide Ino;
  }

  lemma ShowsByte(s0: Fs, s: Fs, a: nat)
    requires Shape(s0) && Shape(s) && s.geo == s0.geo && FILE < s.geo.ninodes
    requires Overwritten(s0, s, FILE, 0, [1, 1][..1])
    requires Addr(s, Direct(FILE, 0)) == a && a != 0 && a in s.blocks
    ensures s.blocks[a][0] == 1
  {
    hide Addr;
    assert Raw(s, FILE, 0) == 1;
  }

  /** The same byte written in full, so that its block is in the log group. */
  method WriteZero(fs: FileSys)
    requires fs.Ok() && Ready(fs.St(), fs.owner) && fs.undo == map[]
    modifies fs
    ensures fs.Ok() && Ready(fs.St(), fs.owner) && fs.undo == map[] && START in fs.Logged()
  {
    hide Own, NoHoles, OnDisk, TheFs, Grew, Recorded, KeepsAddrs, OtherInodes, Overwritten, Bit, Raw, Content, Ino;
    hide Targets, Addr, SameAddrs, SameInodes, SameBits, LogsWithin, Splice, Logs, Visible;
    OkShape(fs);
    ghost var s0, o0, l0, w := fs.St(), fs.owner, fs.Logged(), 0;
    MemInode(s0, FILE);
    var r;
    r, w := fs.Writei(FILE, 0, [0], 1);
    OkShape(fs);
    ReadyNext(s0, o0, fs.St(), fs.owner, 1);
    assert r == 1 && w == 1;
    NothingTorn(fs.St());
    assert [0][..1] == [0];
    FirstBlock(s0, fs.St(), [0]);
    assert [0] + ZeroBlock[1..] == ZeroBlock;
    DataIn(s0, fs.St(), l0, fs.Logged());
  }

  lemma DataIn(s0: Fs, s: Fs, l0: set<nat>, l: set<nat>)
    requires Recorded(s0, s, l0, l, FILE, 0, 1) && Addr(s, Direct(FILE, 0)) == START
    ensures START in l
  {
    hide Addr, Shape, NewLogged;
    assert SlotOf(FILE, 0) == Direct(FILE, 0);
  }

  /** The byte that a reader sees, before and after the buffer is recycled. */
  method ReadTwice(fs: FileSys, d: Block) returns (seen: seq<Byte>, later: seq<Byte>)
    requires Shows(fs, 1, d)
    modifies fs
    ensures seen == [1] && later == [d[0]]
  {
    hide Own, NoHoles, OnDisk, Content, Ino, Addr, SameAddrs, SameBits;
    OkShape(fs);
    FirstByte(fs.St(), START);
    var n;
    n, seen := fs.Readi(FILE, 0, 1, 1);
    ghost var s1 := fs.St();
    fs.Reread(START, d);
    OkShape(fs);
    SelfAddrs(s1);
    KeptSlot(s1, fs.St(), START);
    NoHolesVia(s1, s1, fs.St(), FILE);
    FirstByte(fs.St(), START);
    n, later := fs.Readi(FILE, 0, 1, 1);
  }

  lemma SelfAddrs(s: Fs)
    requires Shape(s)
    ensures SameAddrs(s, s)
  {
    hide Addr;
  }

  /** writei returns 0, but the buffer shows the byte that was copied; the block on disk does not, and once
      the buffer is recycled neither does the file. */
  method FaultingWrite() returns (r: int, seen: seq<Byte>, later: seq<Byte>)
    ensures r == 0 && seen == [1] && later == [0]
  {
    hide Ready, Shows, NoHoles, OnDisk, TheFs;
    var fs := Mount();
    ReadyStart();
    assert Targets([]) == {};
    r := WriteTwo(fs);
    seen, later := ReadTwice(fs, ZeroBlock);
  }

  /** The same call once the block is in the log group: writei returns 0 again, and the byte is there to stay. */
  method PinnedWrite() returns (r: int, seen: seq<Byte>, later: seq<Byte>)
    ensures r == 0 && seen == [1] && later == [1]
  {
    hide Ready, Shows, NoHoles, OnDisk, TheFs;
    var fs := Mount();
    ReadyStart();
    WriteZero(fs);
    r := WriteTwo(fs);
    seen, later := ReadTwice(fs, OneBlock);
  }
}
