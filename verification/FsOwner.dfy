/** Who owns which disk block: every block is reserved, free, or named by exactly
    one slot of one inode, and the free bitmap says so. */
module FsOwner {
  import opened Blocks
  import opened FsLayout

  /** The superblock fields that fs.c uses. */
  datatype Geo = Geo(size: nat, ninodes: nat, inodestart: nat, bmapstart: nat)

  /** The first block that files may use; everything below is metadata. */
  function DataStart(g: Geo): (b: nat) { g.bmapstart + g.size / BPB + 1 }

  predicate GeoOk(g: Geo) {
    && 0 < g.inodestart
    && g.inodestart + g.ninodes / IPB + 1 <= g.bmapstart
    && DataStart(g) <= g.size < 0x1_0000_0000
  }

  function IBlock(g: Geo, i: nat): (b: nat) { i / IPB + g.inodestart }

  function BBlock(g: Geo, b: nat): (r: nat) { b / BPB + g.bmapstart }

  /** The file system: latest block contents, and the inodes held in memory. */
  datatype Fs = Fs(geo: Geo, blocks: Disk, itable: map<nat, Dinode>)

  predicate Shape(s: Fs) {
    GeoOk(s.geo) && forall b | 0 <= b < s.geo.size :: b in s.blocks
  }

  /** The current inode i: the one in memory if it is there, else the one on disk. */
  function Ino(s: Fs, i: nat): (di: Dinode)
    requires Shape(s) && i < s.geo.ninodes
  {
    if i in s.itable then s.itable[i] else GetInode(s.blocks[IBlock(s.geo, i)], i % IPB)
  }

  /** The places that can name a block. */
  datatype Slot = Direct(i: nat, k: nat) | IndPtr(i: nat) | IndEntry(i: nat, j: nat)

  predicate ValidSlot(g: Geo, x: Slot) {
    && x.i < g.ninodes
    && (x.Direct? ==> x.k < NDIRECT)
    && (x.IndEntry? ==> x.j < NINDIRECT)
  }

  /** The block a slot names, 0 for none. */
  function Addr(s: Fs, x: Slot): (a: nat)
    requires Shape(s) && ValidSlot(s.geo, x)
  {
    match x
    case Direct(i, k) => Ino(s, i).addrs[k]
    case IndPtr(i) => Ino(s, i).addrs[NDIRECT]
    case IndEntry(i, j) =>
      var p := Ino(s, i).addrs[NDIRECT];
      if p == 0 || p !in s.blocks then 0 else GetWord(s.blocks[p], j)
  }

  /** The slot for block number bn of a file. */
  function SlotOf(i: nat, bn: nat): (x: Slot)
    requires bn < MAXFILE
  {
    if bn < NDIRECT then Direct(i, bn) else IndEntry(i, bn - NDIRECT)
  }

  /** Where things are on the disk: inode i is the i-th record of 64 bytes from block inodestart on, and the bit of
      block b is the b-th bit from block bmapstart on. */
  lemma AreaPlaces(g: Geo, i: nat, b: nat)
    ensures BSIZE * IBlock(g, i) + 64 * (i % IPB) == BSIZE * g.inodestart + 64 * i
    ensures BPB * BBlock(g, b) + b % BPB == BPB * g.bmapstart + b
  {
  }

  /** Which block holds block bn of file i, read off the bytes of a disk with no inode in memory: the address at byte
      12 + 4 * bn of the inode, or, from block 12 on, the one at byte 4 * (bn - 12) of the block named at byte 60. */
  lemma BlockPlace(s: Fs, i: nat, bn: nat)
    requires Shape(s) && s.itable == map[] && i < s.geo.ninodes && bn < MAXFILE && IBlock(s.geo, i) in s.blocks
    ensures var b, o := s.blocks[IBlock(s.geo, i)], 64 * (i % IPB);
            var p := Bytes(b, o + 60, 4);
            Addr(s, SlotOf(i, bn)) ==
            if bn < 12 then Bytes(b, o + 12 + 4 * bn, 4)
            else if p <= 0 || p !in s.blocks then 0
            else Bytes(s.blocks[p], 4 * (bn - 12), 4)
  {
    hide GetWord, Bytes, GetInode;
    InodeBytes(s.blocks[IBlock(s.geo, i)], i % IPB, if bn < NDIRECT then bn else NDIRECT);
    var p := Addr(s, IndPtr(i));
    if bn >= NDIRECT && p in s.blocks { FourBytes(s.blocks[p], bn - NDIRECT); }
  }

  /** The bitmap's opinion of block b. */
  predicate Bit(s: Fs, b: nat)
    requires Shape(s) && b < s.geo.size
  {
    GetBit(s.blocks[BBlock(s.geo, b)], b % BPB)
  }

  type Owner = map<nat, Slot>

  predicate Used(g: Geo, owner: Owner, extra: set<nat>, freed: set<nat>, b: nat) {
    b < DataStart(g) || (b in owner && b !in freed) || b in extra
  }

  /** Slots and owners are inverse to each other: no block is named twice. */
  ghost predicate Exclusive(s: Fs, owner: Owner)
    requires Shape(s)
  {
    && (forall x :: ValidSlot(s.geo, x) && Addr(s, x) != 0 ==> Addr(s, x) in owner && owner[Addr(s, x)] == x)
    && (forall b :: b in owner ==> ValidSlot(s.geo, owner[b]) && Addr(s, owner[b]) == b)
  }

  ghost predicate BitmapOk(s: Fs, owner: Owner, extra: set<nat>, freed: set<nat>)
    requires Shape(s)
  {
    forall b | 0 <= b < s.geo.size :: Bit(s, b) <==> Used(s.geo, owner, extra, freed, b)
  }

  /** Block ownership. `extra` holds blocks allocated and not yet named, `freed`
      blocks still named whose bit has been cleared; both are empty between calls. */
  ghost predicate Own(s: Fs, owner: Owner, extra: set<nat>, freed: set<nat>) {
    && Shape(s)
    && Exclusive(s, owner)
    && (forall b :: b in owner ==> DataStart(s.geo) <= b < s.geo.size && b !in extra)
    && (forall b :: b in extra ==> DataStart(s.geo) <= b < s.geo.size)
    && freed <= owner.Keys
    && BitmapOk(s, owner, extra, freed)
  }

  /** Between calls: a bit is set exactly when the block is reserved or some slot names it, and a block
      has at most one slot. */
  lemma OwnershipMeaning(s: Fs, owner: Owner, b: nat)
    requires Own(s, owner, {}, {}) && 0 < b < s.geo.size
    ensures Bit(s, b) <==> b < DataStart(s.geo) || exists x :: ValidSlot(s.geo, x) && Addr(s, x) == b
    ensures forall x, y :: ValidSlot(s.geo, x) && ValidSlot(s.geo, y) && Addr(s, x) == b && Addr(s, y) == b ==> x == y
    ensures forall x :: ValidSlot(s.geo, x) && Addr(s, x) == b ==> b >= DataStart(s.geo)
  {
    hide Addr, Bit, Shape, ValidSlot;
    if b in owner { assert Addr(s, owner[b]) == b; }
  }

  lemma OwnShape(s: Fs, owner: Owner)
    requires Own(s, owner, {}, {})
    ensures Shape(s)
  {
  }

  // ----- geometry -----

  lemma IBlockBelow(g: Geo, i: nat)
    requires GeoOk(g) && i < g.ninodes
    ensures IBlock(g, i) < g.bmapstart && IBlock(g, i) < g.size
  {
    assert i / IPB <= g.ninodes / IPB;
  }

  lemma BBlockBelow(g: Geo, b: nat)
    requires GeoOk(g) && b < g.size
    ensures g.bmapstart <= BBlock(g, b) < DataStart(g)
  {
    assert b / BPB <= g.size / BPB;
  }

  // ----- what a store leaves alone -----

  ghost predicate SameInodes(s: Fs, s': Fs)
    requires Shape(s) && Shape(s') && s'.geo == s.geo
  {
    forall i | 0 <= i < s.geo.ninodes :: Ino(s', i) == Ino(s, i)
  }

  ghost predicate SameAddrs(s: Fs, s': Fs)
    requires Shape(s) && Shape(s') && s'.geo == s.geo
  {
    forall x :: ValidSlot(s.geo, x) ==> Addr(s', x) == Addr(s, x)
  }

  ghost predicate SameBits(s: Fs, s': Fs)
    requires Shape(s) && Shape(s') && s'.geo == s.geo
  {
    forall b | 0 <= b < s.geo.size :: Bit(s', b) == Bit(s, b)
  }

  lemma OwnSame(s: Fs, s': Fs, owner: Owner, extra: set<nat>, freed: set<nat>)
    requires Own(s, owner, extra, freed) && Shape(s') && s'.geo == s.geo
    requires SameAddrs(s, s') && SameBits(s, s')
    ensures Own(s', owner, extra, freed)
  {
    hide Addr, Bit;
  }

  /** Block b is nobody's indirect block and not metadata. */
  predicate Plain(s: Fs, owner: Owner, b: nat) {
    DataStart(s.geo) <= b < s.geo.size && (b in owner ==> !owner[b].IndPtr?)
  }

  /** The state with block b replaced. */
  function Stored(s: Fs, b: nat, x: Block): (s': Fs) { s.(blocks := s.blocks[b := x]) }

  /** Storing into a plain block moves no block and changes no inode and no bit. */
  lemma PlainStore(s: Fs, owner: Owner, extra: set<nat>, freed: set<nat>, b: nat, x: Block)
    requires Own(s, owner, extra, freed) && Plain(s, owner, b)
    ensures Shape(Stored(s, b, x))
    ensures SameInodes(s, Stored(s, b, x)) && SameAddrs(s, Stored(s, b, x)) && SameBits(s, Stored(s, b, x))
    ensures Own(Stored(s, b, x), owner, extra, freed)
  {
    hide GetInode, GetBit, GetWord;
    var s' := Stored(s, b, x);
    forall i | 0 <= i < s.geo.ninodes ensures Ino(s', i) == Ino(s, i) { IBlockBelow(s.geo, i); }
    forall y | ValidSlot(s.geo, y) ensures Addr(s', y) == Addr(s, y) {
      if y.IndEntry? { PointerIsOwned(s, owner, extra, freed, y.i); }
    }
    forall c | 0 <= c < s.geo.size ensures Bit(s', c) == Bit(s, c) { BBlockBelow(s.geo, c); }
    OwnSame(s, s', owner, extra, freed);
  }

  lemma PointerIsOwned(s: Fs, owner: Owner, extra: set<nat>, freed: set<nat>, i: nat)
    requires Own(s, owner, extra, freed) && i < s.geo.ninodes
    ensures var p := Ino(s, i).addrs[NDIRECT];
            p != 0 ==> p in owner && owner[p] == IndPtr(i) && DataStart(s.geo) <= p < s.geo.size && p in s.blocks
  {
    var x := IndPtr(i);
    assert ValidSlot(s.geo, x) && Addr(s, x) == Ino(s, i).addrs[NDIRECT];
  }

  /** The state with the bit of block b set or cleared. */
  function WithBlockBit(s: Fs, b: nat, v: bool): (s': Fs)
    requires Shape(s) && b < s.geo.size
  {
    BBlockBelow(s.geo, b);
    Stored(s, BBlock(s.geo, b), PutBit(s.blocks[BBlock(s.geo, b)], b % BPB, v))
  }

  lemma BitStore(s: Fs, owner: Owner, extra: set<nat>, freed: set<nat>, b: nat, v: bool)
    requires Own(s, owner, extra, freed) && b < s.geo.size
    ensures var s' := WithBlockBit(s, b, v);
            && Shape(s') && s'.geo == s.geo
            && SameInodes(s, s') && SameAddrs(s, s')
            && (forall c | 0 <= c < s.geo.size :: Bit(s', c) == if c == b then v else Bit(s, c))
            && (forall c :: DataStart(s.geo) <= c < s.geo.size ==> s'.blocks[c] == s.blocks[c])
  {
    hide GetInode, GetBit, GetWord, PutBit;
    var s' := WithBlockBit(s, b, v);
    BBlockBelow(s.geo, b);
    forall i | 0 <= i < s.geo.ninodes ensures Ino(s', i) == Ino(s, i) { IBlockBelow(s.geo, i); }
    forall y | ValidSlot(s.geo, y) ensures Addr(s', y) == Addr(s, y) {
      if y.IndEntry? { PointerIsOwned(s, owner, extra, freed, y.i); }
    }
    forall c | 0 <= c < s.geo.size ensures Bit(s', c) == if c == b then v else Bit(s, c) {
      GetPutBit(s.blocks[BBlock(s.geo, b)], b % BPB, v, c % BPB);
      SameBitPlace(b, c);
    }
  }

  lemma SameBitPlace(b: nat, c: nat)
    ensures b / BPB == c / BPB && b % BPB == c % BPB ==> b == c
  {
    assert b == BPB * (b / BPB) + b % BPB && c == BPB * (c / BPB) + c % BPB;
  }

  /** Taking a free block: its bit is set and nothing names it yet. */
  lemma OwnTake(s: Fs, owner: Owner, extra: set<nat>, freed: set<nat>, b: nat)
    requires Own(s, owner, extra, freed) && b < s.geo.size && !Bit(s, b)
    ensures DataStart(s.geo) <= b && b !in extra && (b in owner ==> b in freed)
    ensures b !in owner ==> Own(WithBlockBit(s, b, true), owner, extra + {b}, freed)
  {
    hide Addr, Bit;
    BitStore(s, owner, extra, freed, b, true);
  }

  /** Clearing the bit of a block that a slot still names. */
  lemma OwnClear(s: Fs, owner: Owner, extra: set<nat>, freed: set<nat>, b: nat)
    requires Own(s, owner, extra, freed) && b in owner && b !in freed
    ensures b < s.geo.size && Bit(s, b)
    ensures Own(WithBlockBit(s, b, false), owner, extra, freed + {b})
  {
    hide Addr, Bit;
    assert b < s.geo.size;
    BitStore(s, owner, extra, freed, b, false);
  }

  // ----- naming a taken block -----

  /** Slot x, empty in s, names block b in s'. */
  ghost predicate Names(s: Fs, s': Fs, x: Slot, b: nat)
    requires Shape(s) && Shape(s') && s'.geo == s.geo && ValidSlot(s.geo, x)
  {
    && Addr(s, x) == 0
    && forall y :: ValidSlot(s.geo, y) ==> Addr(s', y) == if y == x then b else Addr(s, y)
  }

  lemma OwnName(s: Fs, s': Fs, owner: Owner, extra: set<nat>, freed: set<nat>, x: Slot, b: nat)
    requires Own(s, owner, extra, freed) && Shape(s') && s'.geo == s.geo && ValidSlot(s.geo, x)
    requires SameBits(s, s') && Names(s, s', x, b) && b in extra
    ensures Own(s', owner[b := x], extra - {b}, freed)
  {
    hide Addr, Bit;
    var owner' := owner[b := x];
    assert b !in owner && b != 0;
    forall c | 0 <= c < s.geo.size ensures Bit(s', c) <==> Used(s.geo, owner', extra - {b}, freed, c) {
      assert Bit(s', c) == Bit(s, c);
    }
  }

  /** The state with address k of in-memory inode i changed. */
  function WithAddr(s: Fs, i: nat, k: nat, a: Word): (s': Fs)
    requires i in s.itable && k <= NDIRECT
  {
    s.(itable := s.itable[i := s.itable[i].(addrs := s.itable[i].addrs[k := a])])
  }

  lemma MemAddr(s: Fs, i: nat)
    requires Shape(s) && i in s.itable && i < s.geo.ninodes
    ensures forall k :: 0 <= k < NDIRECT ==> Addr(s, Direct(i, k)) == s.itable[i].addrs[k]
    ensures Addr(s, IndPtr(i)) == s.itable[i].addrs[NDIRECT]
  {
  }

  lemma NoPointerNoEntry(s: Fs, i: nat, j: nat)
    requires Shape(s) && i < s.geo.ninodes && j < NINDIRECT
    ensures Addr(s, IndPtr(i)) == 0 ==> Addr(s, IndEntry(i, j)) == 0
  {
  }

  lemma EntryAddr(s: Fs, owner: Owner, extra: set<nat>, freed: set<nat>, i: nat, j: nat)
    requires Own(s, owner, extra, freed) && i < s.geo.ninodes && j < NINDIRECT
    requires Addr(s, IndPtr(i)) != 0
    ensures Addr(s, IndPtr(i)) in s.blocks
    ensures Addr(s, IndEntry(i, j)) == GetWord(s.blocks[Addr(s, IndPtr(i))], j)
  {
    PointerIsOwned(s, owner, extra, freed, i);
  }

  lemma DirectIsOwned(s: Fs, owner: Owner, extra: set<nat>, freed: set<nat>, i: nat, k: nat)
    requires Own(s, owner, extra, freed) && i in s.itable && i < s.geo.ninodes && k < NDIRECT
    ensures var b := s.itable[i].addrs[k];
            b != 0 ==> b in owner && owner[b] == Direct(i, k) && b < s.geo.size
  {
    assert ValidSlot(s.geo, Direct(i, k)) && Addr(s, Direct(i, k)) == s.itable[i].addrs[k];
  }

  /** bmap stores a direct address. */
  lemma NameDirect(s: Fs, i: nat, k: nat, b: Word)
    requires Shape(s) && i in s.itable && i < s.geo.ninodes && k < NDIRECT && Addr(s, Direct(i, k)) == 0
    ensures Shape(WithAddr(s, i, k, b)) && SameBits(s, WithAddr(s, i, k, b))
    ensures Names(s, WithAddr(s, i, k, b), Direct(i, k), b)
  {
    hide GetWord, GetInode;
  }

  /** bmap stores the address of a fresh, zeroed indirect block. */
  lemma NameIndirect(s: Fs, i: nat, b: Word)
    requires Shape(s) && i in s.itable && i < s.geo.ninodes && Addr(s, IndPtr(i)) == 0
    requires b in s.blocks && s.blocks[b] == ZeroBlock
    ensures Shape(WithAddr(s, i, NDIRECT, b)) && SameBits(s, WithAddr(s, i, NDIRECT, b))
    ensures Names(s, WithAddr(s, i, NDIRECT, b), IndPtr(i), b)
  {
    hide GetInode;
    var s' := WithAddr(s, i, NDIRECT, b);
    forall y | ValidSlot(s.geo, y) ensures Addr(s', y) == if y == IndPtr(i) then b else Addr(s, y) {
      if y.IndEntry? && y.i == i && b != 0 { ZeroWord(y.j); }
    }
  }

  /** bmap stores an entry of the indirect block. */
  lemma NameEntry(s: Fs, owner: Owner, extra: set<nat>, freed: set<nat>, i: nat, j: nat, b: Word)
    requires Own(s, owner, extra, freed) && i < s.geo.ninodes && j < NINDIRECT
    requires Addr(s, IndPtr(i)) != 0 && Addr(s, IndEntry(i, j)) == 0
    ensures var p := Addr(s, IndPtr(i));
            && p in s.blocks && p in owner && owner[p] == IndPtr(i) && DataStart(s.geo) <= p < s.geo.size
            && var s' := Stored(s, p, PutWord(s.blocks[p], j, b));
               Shape(s') && SameBits(s, s') && SameInodes(s, s') && Names(s, s', IndEntry(i, j), b)
  {
    hide GetInode, GetWord, PutWord, GetBit;
    PointerIsOwned(s, owner, extra, freed, i);
    var p := Ino(s, i).addrs[NDIRECT];
    var s' := Stored(s, p, PutWord(s.blocks[p], j, b));
    forall c | 0 <= c < s.geo.ninodes ensures Ino(s', c) == Ino(s, c) { IBlockBelow(s.geo, c); }
    forall c | 0 <= c < s.geo.size ensures Bit(s', c) == Bit(s, c) { BBlockBelow(s.geo, c); }
    forall y | ValidSlot(s.geo, y) ensures Addr(s', y) == if y == IndEntry(i, j) then b else Addr(s, y) {
      if y.IndEntry? {
        PointerIsOwned(s, owner, extra, freed, y.i);
        if y.i == i { GetPutWord(s.blocks[p], j, b, y.j); }
      }
    }
  }

  // ----- forgetting freed blocks -----

  /** Every slot that named one of the blocks `gone` is empty in s'. */
  ghost predicate Forgets(s: Fs, s': Fs, gone: set<nat>)
    requires Shape(s) && Shape(s') && s'.geo == s.geo
  {
    forall y :: ValidSlot(s.geo, y) ==> Addr(s', y) == if Addr(s, y) in gone then 0 else Addr(s, y)
  }

  lemma OwnForget(s: Fs, s': Fs, owner: Owner, extra: set<nat>, freed: set<nat>, gone: set<nat>)
    requires Own(s, owner, extra, freed) && Shape(s') && s'.geo == s.geo
    requires SameBits(s, s') && gone <= freed && Forgets(s, s', gone)
    ensures Own(s', owner - gone, extra, freed - gone)
  {
    hide Addr, Bit;
    forall x | ValidSlot(s.geo, x) && Addr(s', x) != 0
      ensures Addr(s', x) in owner - gone && (owner - gone)[Addr(s', x)] == x
    {
      assert Addr(s, x) == Addr(s', x);
    }
    forall c | 0 <= c < s.geo.size ensures Bit(s', c) <==> Used(s.geo, owner - gone, extra, freed - gone, c) {
      assert Bit(s', c) == Bit(s, c);
    }
  }

  /** itrunc zeroes a direct address. */
  lemma ForgetDirect(s: Fs, owner: Owner, extra: set<nat>, freed: set<nat>, i: nat, k: nat)
    requires Own(s, owner, extra, freed) && i in s.itable && i < s.geo.ninodes && k < NDIRECT
    requires s.itable[i].addrs[k] != 0
    ensures var s' := WithAddr(s, i, k, 0);
            Shape(s') && SameBits(s, s') && Forgets(s, s', {s.itable[i].addrs[k]})
  {
    hide GetInode, GetWord, Bit;
    var b := s.itable[i].addrs[k];
    var s' := WithAddr(s, i, k, 0);
    assert SameBits(s, s') by { BitsFromBlocks(s, s'); }
    forall y | ValidSlot(s.geo, y) ensures Addr(s', y) == if Addr(s, y) == b then 0 else Addr(s, y) {
      assert ValidSlot(s.geo, Direct(i, k)) && Addr(s, Direct(i, k)) == b;
      assert Addr(s, y) == b ==> y == Direct(i, k);
    }
  }

  lemma BitsFromBlocks(s: Fs, s': Fs)
    requires Shape(s) && Shape(s') && s'.geo == s.geo && s'.blocks == s.blocks
    ensures SameBits(s, s')
  {
  }

  /** All the blocks of inode i. */
  ghost function BlocksOf(owner: Owner, i: nat): (r: set<nat>) {
    set b | b in owner && owner[b].i == i
  }

  /** Those named by its first k direct addresses. */
  ghost function DirectBelow(owner: Owner, i: nat, k: nat): (r: set<nat>) {
    set b | b in owner && owner[b].Direct? && owner[b].i == i && owner[b].k < k
  }

  /** Those named by the first n entries of its indirect block. */
  ghost function EntryBlocks(owner: Owner, i: nat, n: nat): (r: set<nat>) {
    set b | b in owner && owner[b].IndEntry? && owner[b].i == i && owner[b].j < n
  }

  lemma NextDirect(s: Fs, owner: Owner, extra: set<nat>, freed: set<nat>, i: nat, k: nat)
    requires Own(s, owner, extra, freed) && i in s.itable && i < s.geo.ninodes && k < NDIRECT
    ensures owner - DirectBelow(owner, i, k + 1) == owner - DirectBelow(owner, i, k) - {s.itable[i].addrs[k] as nat}
  {
    hide BitmapOk, GetWord, GetInode;
    var b := s.itable[i].addrs[k];
    DirectIsOwned(s, owner, extra, freed, i, k);
    ZeroNotOwned(s, owner, extra, freed);
    forall c | c in owner && owner[c] == Direct(i, k) ensures c == b {
      assert Addr(s, owner[c]) == c;
    }
    assert DirectBelow(owner, i, k + 1) == DirectBelow(owner, i, k) + (if b == 0 then {} else {b as nat});
  }

  lemma NextEntry(s: Fs, owner: Owner, extra: set<nat>, freed: set<nat>, i: nat, j: nat)
    requires Own(s, owner, extra, freed) && i < s.geo.ninodes && j < NINDIRECT
    ensures var b := Addr(s, IndEntry(i, j));
            && (b != 0 ==> b in owner && b < s.geo.size && b !in EntryBlocks(owner, i, j))
            && EntryBlocks(owner, i, j + 1) == EntryBlocks(owner, i, j) + (if b == 0 then {} else {b})
  {
    hide BitmapOk, Addr;
    var b := Addr(s, IndEntry(i, j));
    assert ValidSlot(s.geo, IndEntry(i, j));
    ZeroNotOwned(s, owner, extra, freed);
    forall c | c in owner && owner[c] == IndEntry(i, j) ensures c == b {
      assert Addr(s, owner[c]) == c;
    }
  }

  /** The indirect block of inode i and the blocks its entries name. */
  ghost function IndirectBlocks(owner: Owner, i: nat): (r: set<nat>)
  {
    set b | b in owner && owner[b].i == i && !owner[b].Direct?
  }

  /** itrunc zeroes the indirect pointer, and with it every entry. */
  lemma ForgetIndirect(s: Fs, owner: Owner, extra: set<nat>, freed: set<nat>, i: nat)
    requires Own(s, owner, extra, freed) && i in s.itable && i < s.geo.ninodes
    ensures var s' := WithAddr(s, i, NDIRECT, 0);
            Shape(s') && SameBits(s, s') && Forgets(s, s', IndirectBlocks(owner, i))
  {
    hide GetInode, GetWord, Bit;
    var s' := WithAddr(s, i, NDIRECT, 0);
    var gone := IndirectBlocks(owner, i);
    BitsFromBlocks(s, s');
    forall y | ValidSlot(s.geo, y) ensures Addr(s', y) == if Addr(s, y) in gone then 0 else Addr(s, y) {
      if Addr(s, y) != 0 {
        assert Addr(s, y) in owner && owner[Addr(s, y)] == y;
      } else {
        assert 0 !in owner by { ZeroNotOwned(s, owner, extra, freed); }
      }
    }
  }

  lemma IndirectIs(s: Fs, owner: Owner, extra: set<nat>, freed: set<nat>, i: nat)
    requires Own(s, owner, extra, freed) && i < s.geo.ninodes
    ensures var p := Addr(s, IndPtr(i));
            && (p != 0 ==> p in owner && p < s.geo.size && p !in EntryBlocks(owner, i, NINDIRECT))
            && IndirectBlocks(owner, i) == if p == 0 then {} else EntryBlocks(owner, i, NINDIRECT) + {p}
  {
    hide BitmapOk, GetWord, GetInode;
    var p := Addr(s, IndPtr(i));
    PointerIsOwned(s, owner, extra, freed, i);
    forall b | b in IndirectBlocks(owner, i) ensures p != 0 && b in EntryBlocks(owner, i, NINDIRECT) + {p} {
      assert Addr(s, owner[b]) == b && ValidSlot(s.geo, owner[b]);
      ZeroNotOwned(s, owner, extra, freed);
    }
  }

  /** Direct blocks first, then the indirect ones: that is all of them. */
  lemma AllBlocks(s: Fs, owner: Owner, i: nat)
    requires Own(s, owner, {}, {})
    ensures var o1 := owner - DirectBelow(owner, i, NDIRECT);
            o1 - IndirectBlocks(o1, i) == owner - BlocksOf(owner, i)
  {
    hide BitmapOk, Addr;
    assert forall b :: b in owner ==> ValidSlot(s.geo, owner[b]);
  }

  lemma SizeKeeps(s: Fs, owner: Owner, i: nat, n: Word)
    requires Own(s, owner, {}, {}) && i in s.itable
    ensures var s' := s.(itable := s.itable[i := s.itable[i].(size := n)]);
            Own(s', owner, {}, {}) && SameAddrs(s, s') && SameBits(s, s')
  {
    hide GetInode, GetWord, BitmapOk;
    var s' := s.(itable := s.itable[i := s.itable[i].(size := n)]);
    BitsFromBlocks(s, s');
    OwnSame(s, s', owner, {}, {});
  }

  lemma ZeroNotOwned(s: Fs, owner: Owner, extra: set<nat>, freed: set<nat>)
    requires Own(s, owner, extra, freed)
    ensures 0 !in owner
  {
    assert DataStart(s.geo) > 0;
  }

  // ----- moving inodes between memory and disk -----

  /** iupdate */
  function Flushed(s: Fs, i: nat): (s': Fs)
    requires Shape(s) && i in s.itable && i < s.geo.ninodes
  {
    IBlockBelow(s.geo, i);
    Stored(s, IBlock(s.geo, i), PutInode(s.blocks[IBlock(s.geo, i)], i % IPB, s.itable[i]))
  }

  lemma FlushKeeps(s: Fs, owner: Owner, extra: set<nat>, freed: set<nat>, i: nat)
    requires Own(s, owner, extra, freed) && i in s.itable && i < s.geo.ninodes
    ensures var s' := Flushed(s, i);
            && Shape(s') && SameInodes(s, s') && SameAddrs(s, s') && Own(s', owner, extra, freed)
            && (forall c :: DataStart(s.geo) <= c < s.geo.size ==> s'.blocks[c] == s.blocks[c])
            && GetInode(s'.blocks[IBlock(s.geo, i)], i % IPB) == s.itable[i]
  {
    hide GetInode, PutInode, GetWord, GetBit;
    IBlockBelow(s.geo, i);
    var t, s' := IBlock(s.geo, i), Flushed(s, i);
    GetPutInode(s.blocks[t], i % IPB, s.itable[i], i % IPB);
    forall c | 0 <= c < s.geo.ninodes ensures Ino(s', c) == Ino(s, c) {
      GetPutInode(s.blocks[t], i % IPB, s.itable[i], c % IPB);
      SameInodePlace(i, c);
    }
    forall y | ValidSlot(s.geo, y) ensures Addr(s', y) == Addr(s, y) {
      if y.IndEntry? { PointerIsOwned(s, owner, extra, freed, y.i); }
    }
    forall c | 0 <= c < s.geo.size ensures Bit(s', c) == Bit(s, c) { BBlockBelow(s.geo, c); }
    OwnSame(s, s', owner, extra, freed);
  }

  lemma SameInodePlace(i: nat, c: nat)
    ensures i / IPB == c / IPB && i % IPB == c % IPB ==> i == c
  {
    assert i == IPB * (i / IPB) + i % IPB && c == IPB * (c / IPB) + c % IPB;
  }

  // ----- file contents -----

  /** The byte at position pos of file i, 0 where no block is present. */
  function Raw(s: Fs, i: nat, pos: nat): (x: Byte)
    requires Shape(s) && i < s.geo.ninodes && pos < MAXFILE * BSIZE
  {
    var a := Addr(s, SlotOf(i, pos / BSIZE));
    if a == 0 || a !in s.blocks then 0 else s.blocks[a][pos % BSIZE]
  }

  /** The file as one flat byte sequence. */
  function Content(s: Fs, i: nat): (r: seq<Byte>)
    requires Shape(s) && i < s.geo.ninodes && Ino(s, i).size <= MAXFILE * BSIZE
  {
    seq(Ino(s, i).size, pos requires 0 <= pos < Ino(s, i).size => Raw(s, i, pos))
  }

  /** Every block that holds bytes of file i is present. */
  predicate NoHoles(s: Fs, i: nat)
    requires Shape(s) && i < s.geo.ninodes
  {
    && Ino(s, i).size <= MAXFILE * BSIZE
    && forall bn | 0 <= bn < MAXFILE :: bn * BSIZE < Ino(s, i).size ==> Addr(s, SlotOf(i, bn)) != 0
  }

  /** All bytes of all files read the same. */
  ghost predicate SameRaw(s: Fs, s': Fs)
    requires Shape(s) && Shape(s') && s'.geo == s.geo
  {
    forall j, pos | 0 <= j < s.geo.ninodes && 0 <= pos < MAXFILE * BSIZE :: Raw(s', j, pos) == Raw(s, j, pos)
  }

  lemma SlotIsOwned(s: Fs, owner: Owner, x: Slot)
    requires Own(s, owner, {}, {}) && ValidSlot(s.geo, x) && Addr(s, x) != 0
    ensures Addr(s, x) in owner && owner[Addr(s, x)] == x && Addr(s, x) in s.blocks
    ensures DataStart(s.geo) <= Addr(s, x) < s.geo.size
  {
  }

  /** Naming a zeroed block where there was none adds no visible byte: no file
      changes when bmap allocates. */
  lemma RawKept(s: Fs, s': Fs, owner: Owner, owner': Owner, i: nat, x: Slot)
    requires Own(s, owner, {}, {}) && Own(s', owner', {}, {}) && s'.geo == s.geo
    requires i < s.geo.ninodes && ValidSlot(s.geo, x) && x.i == i
    requires forall y :: ValidSlot(s.geo, y) && y != x && y != IndPtr(i) ==> Addr(s', y) == Addr(s, y)
    requires Addr(s, x) != 0 ==> Addr(s', x) == Addr(s, x)
    requires Addr(s, x) == 0 && Addr(s', x) != 0 && !x.IndPtr? ==>
               Addr(s', x) in s'.blocks && s'.blocks[Addr(s', x)] == ZeroBlock
    requires forall b :: b in owner && owner[b] != IndPtr(i) && b in s.blocks ==>
               b in s'.blocks && s'.blocks[b] == s.blocks[b]
    ensures SameRaw(s, s')
  {
    hide Exclusive, BitmapOk, Addr;
    forall j, pos | 0 <= j < s.geo.ninodes && 0 <= pos < MAXFILE * BSIZE ensures Raw(s', j, pos) == Raw(s, j, pos) {
      var y := SlotOf(j, pos / BSIZE);
      assert ValidSlot(s.geo, y) && y != IndPtr(i);
      if Addr(s, y) != 0 { SlotIsOwned(s, owner, y); }
      if Addr(s', y) != 0 { SlotIsOwned(s', owner', y); }
    }
  }

  /** A block with bytes lo.. replaced by x. */
  function Patch(b: Block, lo: nat, x: seq<Byte>): (r: Block)
    requires lo + |x| <= BSIZE
  {
    b[..lo] + x + b[lo + |x|..]
  }

  /** Patching the block that slot bn of file i names changes exactly those bytes
      of that file, and nothing of any other file. */
  lemma PatchRaw(s: Fs, owner: Owner, i: nat, bn: nat, lo: nat, x: seq<Byte>)
    requires Own(s, owner, {}, {}) && i < s.geo.ninodes && bn < MAXFILE && lo + |x| <= BSIZE
    requires Addr(s, SlotOf(i, bn)) != 0
    ensures Addr(s, SlotOf(i, bn)) in s.blocks
    ensures var a := Addr(s, SlotOf(i, bn));
            var s' := Stored(s, a, Patch(s.blocks[a], lo, x));
            && Own(s', owner, {}, {}) && SameInodes(s, s') && SameAddrs(s, s')
            && forall j, pos | 0 <= j < s.geo.ninodes && 0 <= pos < MAXFILE * BSIZE ::
                 Raw(s', j, pos) == if j == i && bn * BSIZE + lo <= pos < bn * BSIZE + lo + |x|
                                    then x[pos - bn * BSIZE - lo] else Raw(s, j, pos)
  {
    hide Exclusive, BitmapOk, Addr;
    var a := Addr(s, SlotOf(i, bn));
    SlotIsOwned(s, owner, SlotOf(i, bn));
    var s' := Stored(s, a, Patch(s.blocks[a], lo, x));
    PlainStore(s, owner, {}, {}, a, Patch(s.blocks[a], lo, x));
    forall j, pos | 0 <= j < s.geo.ninodes && 0 <= pos < MAXFILE * BSIZE
      ensures Raw(s', j, pos) == if j == i && bn * BSIZE + lo <= pos < bn * BSIZE + lo + |x|
                                 then x[pos - bn * BSIZE - lo] else Raw(s, j, pos)
    {
      var y := SlotOf(j, pos / BSIZE);
      assert ValidSlot(s.geo, y);
      if Addr(s, y) != 0 { SlotIsOwned(s, owner, y); }
      assert pos == pos / BSIZE * BSIZE + pos % BSIZE;
      if j != i || pos / BSIZE != bn {
        assert y != SlotOf(i, bn);
      }
    }
  }
}
