/** fs.c: block allocation, block maps, and reading and writing files, over the
    latest contents of each block (what the cache shows, see BufferCache). */
module FileSystem {
  import opened Blocks
  import opened LogFormat
  import opened FsLayout
  import opened FsOwner
  import opened FsTrace

  /** No owner is lost or changed. */
  predicate Extends(owner: Owner, owner': Owner) {
    forall b :: b in owner ==> b in owner' && owner'[b] == owner[b]
  }

  /** What bmap and its parts keep: other inodes, all but one slot of this one,
      the blocks of every data slot, and every owner. */
  ghost predicate Mapped(s: Fs, owner: Owner, s': Fs, owner': Owner, i: nat, x: Slot) {
    && Shape(s) && Shape(s') && s'.geo == s.geo && i < s.geo.ninodes && ValidSlot(s.geo, x)
    && i in s.itable && i in s'.itable
    && s'.itable == s.itable[i := s.itable[i].(addrs := s'.itable[i].addrs)]
    && Extends(owner, owner')
    && OtherInodes(s, s', i)
    && (forall y :: ValidSlot(s.geo, y) && y != x && (y != IndPtr(i) || Addr(s, y) != 0) ==> Addr(s', y) == Addr(s, y))
    && (Addr(s, x) != 0 ==> Addr(s', x) == Addr(s, x))
    && (forall b :: b in owner && owner[b] != IndPtr(i) && b in s.blocks ==>
          b in s'.blocks && s'.blocks[b] == s.blocks[b])
  }

  lemma MappedSame(s: Fs, owner: Owner, i: nat, x: Slot)
    requires Shape(s) && i < s.geo.ninodes && ValidSlot(s.geo, x) && i in s.itable
    ensures Mapped(s, owner, s, owner, i, x)
  {
    hide Addr, Ino;
  }

  /** balloc took block r, giving s1; then slot x was made to name it, giving s2. */
  lemma MappedNew(s: Fs, s1: Fs, s2: Fs, owner: Owner, i: nat, x: Slot, r: nat)
    requires Own(s, owner, {}, {}) && Shape(s1) && Shape(s2) && s1.geo == s.geo && s2.geo == s.geo
    requires i < s.geo.ninodes && ValidSlot(s.geo, x) && i in s.itable && i in s2.itable
    requires SameAddrs(s, s1) && SameInodes(s, s1) && Names(s1, s2, x, r)
    requires s1.itable == s.itable && s2.itable == s.itable[i := s.itable[i].(addrs := s2.itable[i].addrs)]
    requires OtherInodes(s1, s2, i) && r !in owner
    requires forall c :: DataStart(s.geo) <= c < s.geo.size && c != r ==>
               c in s.blocks && c in s1.blocks && s1.blocks[c] == s.blocks[c]
    requires forall b :: b in owner && owner[b] != IndPtr(i) ==>
               b in s1.blocks && b in s2.blocks && s2.blocks[b] == s1.blocks[b]
    ensures Mapped(s, owner, s2, owner[r := x], i, x)
  {
    hide Addr, Ino, Exclusive, BitmapOk;
  }

  /** balloc took block r, giving s1; now the indirect block gets it as entry j. */
  lemma EntryNamed(s: Fs, s1: Fs, owner: Owner, i: nat, j: nat, r: Word)
    requires Own(s, owner, {}, {}) && Own(s1, owner, {} + {r as nat}, {}) && s1.geo == s.geo && s1.itable == s.itable
    requires i < s.geo.ninodes && i in s.itable && j < NINDIRECT && r !in owner
    requires Addr(s, IndPtr(i)) != 0 && Addr(s, IndEntry(i, j)) == 0
    requires SameAddrs(s, s1) && SameInodes(s, s1) && LowestFirst(s, s1)
    requires forall c :: DataStart(s.geo) <= c < s.geo.size && c != r ==>
               c in s.blocks && c in s1.blocks && s1.blocks[c] == s.blocks[c]
    ensures var p := Addr(s, IndPtr(i));
            && p in s1.blocks && p in owner && owner[p] == IndPtr(i) && DataStart(s.geo) <= p
            && Addr(s1, IndPtr(i)) == p
            && var s2 := Stored(s1, p, PutWord(s1.blocks[p], j, r));
               && Own(s2, owner[r := IndEntry(i, j)], {}, {}) && LowestFirst(s, s2)
               && Mapped(s, owner, s2, owner[r := IndEntry(i, j)], i, IndEntry(i, j))
               && Addr(s2, IndEntry(i, j)) == r
               && (r in s1.blocks && p != r ==> r in s2.blocks && s2.blocks[r] == s1.blocks[r])
  {
    hide Exclusive, BitmapOk, Bit, Addr, Ino, GetWord, PutWord, Mapped, SameBits, SameInodes, OtherInodes, LowestFirst;
    assert ValidSlot(s.geo, IndPtr(i)) && ValidSlot(s.geo, IndEntry(i, j));
    NameEntry(s1, owner, {} + {r as nat}, {}, i, j, r);
    var p := Addr(s1, IndPtr(i));
    var s2 := Stored(s1, p, PutWord(s1.blocks[p], j, r));
    LowestThenSame(s, s1, s2);
    InodesKept(s1, s2, i);
    OwnName(s1, s2, owner, {} + {r as nat}, {}, IndEntry(i, j), r);
    MappedNew(s, s1, s2, owner, i, IndEntry(i, j), r);
    assert {} + {r as nat} - {r as nat} == {};
  }

  lemma MappedFacts(s: Fs, owner: Owner, s': Fs, owner': Owner, i: nat, x: Slot)
    requires Mapped(s, owner, s', owner', i, x)
    ensures i in s'.itable && s'.itable == s.itable[i := s.itable[i].(addrs := s'.itable[i].addrs)]
    ensures Addr(s, IndPtr(i)) != 0 ==> Addr(s', IndPtr(i)) == Addr(s, IndPtr(i))
    ensures forall j :: 0 <= j < NINDIRECT && IndEntry(i, j) != x ==>
              Addr(s', IndEntry(i, j)) == Addr(s, IndEntry(i, j))
  {
    hide Addr, Ino;
    assert ValidSlot(s.geo, IndPtr(i));
    assert forall j :: 0 <= j < NINDIRECT ==> ValidSlot(s.geo, IndEntry(i, j));
  }

  lemma InodesKept(s: Fs, s': Fs, i: nat)
    requires Shape(s) && Shape(s') && s'.geo == s.geo && SameInodes(s, s')
    ensures OtherInodes(s, s', i)
  {
    hide Ino;
  }

  /** Mapping an indirect block, then one of its entries. */
  lemma MappedChain(s: Fs, s1: Fs, s2: Fs, o: Owner, o1: Owner, o2: Owner, i: nat, x: Slot)
    requires Mapped(s, o, s1, o1, i, IndPtr(i)) && Mapped(s1, o1, s2, o2, i, x) && x.IndEntry? && x.i == i
    ensures Mapped(s, o, s2, o2, i, x)
  {
    hide Addr, Ino;
  }

  /** Changing inode i in memory leaves the others alone. */
  lemma OthersKeep(s: Fs, s': Fs, i: nat)
    requires Shape(s) && Shape(s') && s'.geo == s.geo && s'.blocks == s.blocks
    requires i in s.itable && i in s'.itable && s'.itable == s.itable[i := s'.itable[i]]
    ensures OtherInodes(s, s', i)
  {
  }

  lemma OthersThen(s0: Fs, s1: Fs, s2: Fs, i: nat)
    requires Shape(s0) && Shape(s1) && Shape(s2) && s1.geo == s0.geo && s2.geo == s0.geo
    requires s0 == s1 || SameInodes(s0, s1)
    requires s2.blocks == s1.blocks && i in s1.itable && i in s2.itable && s2.itable == s1.itable[i := s2.itable[i]]
    ensures OtherInodes(s0, s2, i)
  {
    hide GetInode;
    OthersKeep(s1, s2, i);
  }

  lemma InodesThen(s0: Fs, s1: Fs, s2: Fs)
    requires Shape(s0) && Shape(s1) && Shape(s2) && s1.geo == s0.geo && s2.geo == s0.geo
    requires SameInodes(s0, s1) && SameInodes(s1, s2)
    ensures SameInodes(s0, s2)
  {
    hide Ino;
  }

  lemma OthersChain(s0: Fs, s1: Fs, s2: Fs, s3: Fs, i: nat)
    requires Shape(s0) && Shape(s1) && Shape(s2) && Shape(s3)
    requires s1.geo == s0.geo && s2.geo == s0.geo && s3.geo == s0.geo
    requires OtherInodes(s0, s1, i) && OtherInodes(s1, s2, i) && OtherInodes(s2, s3, i)
    ensures OtherInodes(s0, s3, i)
  {
    hide Ino;
  }

  /** Inode i in memory with another size. */
  function Resized(s: Fs, i: nat, size: Word): (s': Fs)
    requires i in s.itable
  {
    s.(itable := s.itable[i := s.itable[i].(size := size)])
  }

  lemma BitsWithout(s0: Fs, o0: Owner, s: Fs, o: Owner, gone: set<nat>)
    requires Own(s0, o0, {}, {}) && Own(s, o, {}, {}) && s.geo == s0.geo && o == o0 - gone && gone <= o0.Keys
    ensures forall c | 0 <= c < s.geo.size :: Bit(s, c) <==> Bit(s0, c) && c !in gone
  {
    hide Bit, Exclusive;
  }

  lemma BlocksOwned(owner: Owner, i: nat)
    ensures BlocksOf(owner, i) <= owner.Keys
  {
  }

  lemma OthersResized(s: Fs, s': Fs, i: nat, size: Word)
    requires Shape(s) && Shape(s') && s'.geo == s.geo && i in s.itable && SameInodes(Resized(s, i, size), s')
    ensures OtherInodes(s, s', i)
  {
    hide GetInode;
    OthersKeep(s, Resized(s, i, size), i);
  }

  class FileSys {
    const geo: Geo                  // struct superblock sb
    var blocks: Disk                // latest contents of every block
    var itable: map<nat, Dinode>    // inodes held in memory, by number
    ghost var owner: Owner
    ghost var trace: seq<Write>     // what went to the log
    ghost var undo: Disk            // contents without the changes that the log does not have

    constructor (geo: Geo, blocks: Disk)
      ensures this.geo == geo && this.blocks == blocks && itable == map[] && owner == map[]
      ensures trace == [] && undo == map[]
    {
      this.geo, this.blocks, itable, owner := geo, blocks, map[], map[];
      trace, undo := [], map[];
    }

    function St(): (s: Fs)
      reads this
    {
      Fs(geo, blocks, itable)
    }

    ghost function Dv(): (v: Dev)
      reads this`blocks, this`undo, this`trace
    {
      Dev(blocks, undo, trace)
    }

    /** The blocks passed to log_write. */
    ghost function Logged(): (r: set<nat>)
      reads this`trace
    {
      Targets(trace)
    }

    /** The file system without the changes that were never logged. */
    ghost function Durable(): (s: Fs)
      reads this
    {
      Behind(St(), undo)
    }

    /** bread, change, log_write, brelse. */
    method LogBlock(b: nat, x: Block)
      requires b in blocks
      modifies this`blocks, this`trace, this`undo
      ensures St() == Stored(old(St()), b, x) && Logged() == old(Logged()) + {b}
      ensures undo == old(undo) - {b} && Logs(old(Dv()), Dv(), b)
    {
      LogsOne(Dv(), b, x);
      TargetsNext(trace, Write(b, x));
      blocks := blocks[b := x];
      trace := trace + [Write(b, x)];
      undo := undo - {b};
    }

    /** The buffer of block b is recycled and the block read again, as x: what was not logged is gone. */
    method Reread(b: nat, x: Block)
      requires Ok() && b < geo.size && b in Durable().blocks && x == Durable().blocks[b]
      modifies this`blocks, this`undo
      ensures Ok() && St() == Stored(old(St()), b, x) && undo == old(undo) - {b} && Durable() == old(Durable())
      ensures SameInodes(old(St()), St()) && SameAddrs(old(St()), St()) && SameBits(old(St()), St())
    {
      hide Exclusive, BitmapOk, Bit, Addr, Ino;
      ghost var s0, u0 := St(), undo;
      if b in undo {
        PlainStore(s0, owner, {}, {}, b, x);
      } else {
        assert Stored(s0, b, x) == s0;
      }
      blocks := blocks[b := x];
      undo := undo - {b};
      assert Behind(St(), undo).blocks == Behind(s0, u0).blocks;
    }

    /** The scan in balloc: the lowest-numbered free block, or none. */
    method FindFree() returns (found: bool, b: nat)
      requires Shape(St())
      ensures found ==> b < geo.size && !Bit(St(), b) && forall c | 0 <= c < b :: Bit(St(), c)
      ensures !found ==> forall c | 0 <= c < geo.size :: Bit(St(), c)
    {
      hide GetBit;
      b := 0;
      while b < geo.size
        invariant b % BPB == 0
        invariant forall c | 0 <= c < geo.size :: c < b ==> Bit(St(), c)
      {
        BBlockBelow(geo, b);
        var data := blocks[BBlock(geo, b)];
        var bi := 0;
        while bi < BPB && b + bi < geo.size
          invariant 0 <= bi <= BPB && b < geo.size
          invariant forall c | 0 <= c < geo.size :: c < b + bi ==> Bit(St(), c)
        {
          assert (b + bi) / BPB == b / BPB && (b + bi) % BPB == bi;
          if !GetBit(data, bi) {
            return true, b + bi;
          }
          bi := bi + 1;
        }
        b := b + BPB;
      }
      found := false;
    }

    /** balloc: the lowest free block, marked and zeroed; 0 when there is none. */
    method Balloc(ghost extra: set<nat>) returns (r: Word)
      requires Own(St(), owner, extra, {})
      modifies this`blocks, this`trace, this`undo
      ensures undo.Keys <= old(undo).Keys && Logs(old(Dv()), Dv(), geo.bmapstart)
      ensures Shape(St()) && LowestFirst(old(St()), St())
      ensures r == 0 ==> St() == old(St()) && Dv() == old(Dv())
      ensures r == 0 ==> forall c | 0 <= c < geo.size :: Bit(St(), c)
      ensures r != 0 ==>
                && DataStart(geo) <= r < geo.size && r !in owner && r !in extra
                && !Bit(old(St()), r) && (forall c | 0 <= c < r :: Bit(old(St()), c))
                && St() == Stored(WithBlockBit(old(St()), r, true), r, ZeroBlock)
                && Logged() == old(Logged()) + Cost(r)
                && Own(St(), owner, extra + {r}, {})
                && SameInodes(old(St()), St()) && SameAddrs(old(St()), St())
                && (forall c :: DataStart(geo) <= c < geo.size && c != r ==> blocks[c] == old(blocks)[c])
                && r !in undo
    {
      hide Exclusive, BitmapOk, Bit, Logs, Targets, LowestFirst;
      LogsNone(Dv(), geo.bmapstart);
      LowestSelf(St());
      var found, b := FindFree();
      if !found {
        return 0;
      }
      ghost var v0 := Dv();
      ghost var s0 := St();
      OwnTake(s0, owner, extra, {}, b);
      BitStore(s0, owner, extra, {}, b, true);
      var t := BBlock(geo, b);
      BBlockBelow(geo, b);
      LogBlock(t, PutBit(blocks[t], b % BPB, true));
      ghost var s1, v1 := St(), Dv();
      PlainStore(s1, owner, extra + {b}, {}, b, ZeroBlock);
      LogBlock(b, ZeroBlock);
      LogsThen(v0, v1, Dv(), t, b, geo.bmapstart);
      LowestTake(s0, St(), b);
      r := b;
    }

    ghost predicate Ok()
      reads this
    {
      Own(St(), owner, {}, {}) && Torn(St(), owner, undo)
    }

    /** bmap, direct part. */
    method BmapDirect(i: nat, k: nat) returns (r: Word)
      requires Ok() && i in itable && i < geo.ninodes && k < NDIRECT
      modifies this
      ensures Ok() && Mapped(old(St()), old(owner), St(), owner, i, Direct(i, k))
      ensures undo.Keys <= old(undo).Keys && Logs(old(Dv()), Dv(), geo.bmapstart) && LowestFirst(old(St()), St())
      ensures r == Addr(St(), Direct(i, k))
      ensures r == 0 ==> forall c | 0 <= c < geo.size :: Bit(St(), c)
      ensures old(Addr(St(), Direct(i, k))) != 0 || r == 0 ==>
                St() == old(St()) && Dv() == old(Dv()) && owner == old(owner)
      ensures old(Addr(St(), Direct(i, k))) == 0 && r != 0 ==>
                && r in blocks && blocks[r] == ZeroBlock && r !in old(owner)
                && Logged() == old(Logged()) + Cost(r) && owner == old(owner)[r := Direct(i, k)]
      ensures Addr(St(), IndPtr(i)) == old(Addr(St(), IndPtr(i)))
    {
      hide Exclusive, BitmapOk, Bit, Addr, Ino, Mapped, SameAddrs, SameBits, SameInodes, Names, OtherInodes;
      hide Logs, Targets, LowestFirst;
      ghost var s0 := St();
      LogsNone(Dv(), geo.bmapstart);
      LowestSelf(s0);
      MemAddr(s0, i);
      MappedSame(s0, owner, i, Direct(i, k));
      r := itable[i].addrs[k];
      if r == 0 {
        r := Balloc({});
        if r == 0 {
          return;
        }
        ghost var s1 := St();
        MemAddr(s1, i);
        NameDirect(s1, i, k, r);
        itable := itable[i := itable[i].(addrs := itable[i].addrs[k := r])];
        MemAddr(St(), i);
        OthersKeep(s1, St(), i);
        OwnName(s1, St(), owner, {} + {r}, {}, Direct(i, k), r);
        MappedNew(s0, s1, St(), owner, i, Direct(i, k), r);
        LowestThenSame(s0, s1, St());
        assert {} + {r} - {r} == {};
        owner := owner[r := Direct(i, k)];
      }
    }

    /** bmap, the part that makes sure there is an indirect block. */
    method BmapPointer(i: nat) returns (r: Word)
      requires Ok() && i in itable && i < geo.ninodes
      modifies this
      ensures Ok() && Mapped(old(St()), old(owner), St(), owner, i, IndPtr(i))
      ensures undo.Keys <= old(undo).Keys && Logs(old(Dv()), Dv(), geo.bmapstart) && LowestFirst(old(St()), St())
      ensures r == Addr(St(), IndPtr(i))
      ensures r == 0 ==> forall c | 0 <= c < geo.size :: Bit(St(), c)
      ensures old(Addr(St(), IndPtr(i))) != 0 || r == 0 ==>
                St() == old(St()) && Dv() == old(Dv()) && owner == old(owner)
      ensures old(Addr(St(), IndPtr(i))) == 0 && r != 0 ==>
                r !in old(owner) && Logged() == old(Logged()) + Cost(r) && owner == old(owner)[r := IndPtr(i)]
    {
      hide Exclusive, BitmapOk, Bit, Addr, Ino, Mapped, SameAddrs, SameBits, SameInodes, Names, OtherInodes;
      hide Logs, Targets, LowestFirst;
      ghost var s0 := St();
      LogsNone(Dv(), geo.bmapstart);
      LowestSelf(s0);
      MemAddr(s0, i);
      MappedSame(s0, owner, i, IndPtr(i));
      r := itable[i].addrs[NDIRECT];
      if r == 0 {
        r := Balloc({});
        if r == 0 {
          return;
        }
        ghost var s1 := St();
        MemAddr(s1, i);
        NameIndirect(s1, i, r);
        itable := itable[i := itable[i].(addrs := itable[i].addrs[NDIRECT := r])];
        MemAddr(St(), i);
        OthersKeep(s1, St(), i);
        OwnName(s1, St(), owner, {} + {r}, {}, IndPtr(i), r);
        MappedNew(s0, s1, St(), owner, i, IndPtr(i), r);
        LowestThenSame(s0, s1, St());
        assert {} + {r} - {r} == {};
        owner := owner[r := IndPtr(i)];
      }
    }

    /** bmap, the entry of the indirect block `p`. */
    method BmapEntry(i: nat, j: nat, p: Word) returns (r: Word)
      requires Ok() && i in itable && i < geo.ninodes && j < NINDIRECT
      requires p == Addr(St(), IndPtr(i)) && p != 0
      modifies this
      ensures Ok() && Mapped(old(St()), old(owner), St(), owner, i, IndEntry(i, j)) && itable == old(itable)
      ensures undo.Keys <= old(undo).Keys && Logs(old(Dv()), Dv(), geo.bmapstart) && LowestFirst(old(St()), St())
      ensures r == Addr(St(), IndEntry(i, j))
      ensures r == 0 ==> forall c | 0 <= c < geo.size :: Bit(St(), c)
      ensures old(Addr(St(), IndEntry(i, j))) != 0 || r == 0 ==>
                St() == old(St()) && Dv() == old(Dv()) && owner == old(owner)
      ensures old(Addr(St(), IndEntry(i, j))) == 0 && r != 0 ==>
                && r in blocks && blocks[r] == ZeroBlock && r !in old(owner)
                && Logged() == old(Logged()) + Cost(r) + {p} && owner == old(owner)[r := IndEntry(i, j)]
    {
      hide Exclusive, BitmapOk, Bit, Addr, Ino, GetWord, PutWord, Mapped, SameBits, SameInodes, OtherInodes;
      hide Logs, Targets, LowestFirst;
      ghost var s0, v0 := St(), Dv();
      LogsNone(v0, geo.bmapstart);
      LowestSelf(s0);
      EntryAddr(s0, owner, {}, {}, i, j);
      MappedSame(s0, owner, i, IndEntry(i, j));
      r := GetWord(blocks[p], j);
      if r == 0 {
        r := Balloc({});
        if r != 0 {
          ghost var s1, v1 := St(), Dv();
          EntryNamed(s0, s1, owner, i, j, r);
          LogBlock(p, PutWord(blocks[p], j, r));
          LogsThen(v0, v1, Dv(), geo.bmapstart, p, geo.bmapstart);
          owner := owner[r := IndEntry(i, j)];
        }
      }
    }

    /** bmap: the address of block bn, allocating what is missing; 0 when the disk
        is full, in which case an indirect block may still have been added. */
    method Bmap(i: nat, bn: nat) returns (r: Word)
      requires Ok() && i in itable && i < geo.ninodes && bn < MAXFILE
      modifies this
      ensures Ok() && Mapped(old(St()), old(owner), St(), owner, i, SlotOf(i, bn))
      ensures undo.Keys <= old(undo).Keys && Logs(old(Dv()), Dv(), geo.bmapstart) && LowestFirst(old(St()), St())
      ensures r == Addr(St(), SlotOf(i, bn))
      ensures r == 0 ==> forall c | 0 <= c < geo.size :: Bit(St(), c)
      ensures old(Addr(St(), SlotOf(i, bn))) != 0 ==>
                St() == old(St()) && Dv() == old(Dv()) && owner == old(owner)
      ensures old(Addr(St(), SlotOf(i, bn))) == 0 && r != 0 ==>
                r in blocks && blocks[r] == ZeroBlock && r !in old(owner)
      ensures Logged() <= old(Logged()) + Cost(Addr(St(), IndPtr(i)))
                          + (if old(Addr(St(), SlotOf(i, bn))) == 0 then Cost(r) else {})
      ensures old(Logged()) <= Logged() && NewLogged(old(St()), St(), Logged(), i)
    {
      hide Exclusive, BitmapOk, Bit, Addr, Ino, Mapped, NewLogged, Logs, Targets, LowestFirst;
      ghost var s0, o0, v0 := St(), owner, Dv();
      if bn < NDIRECT {
        r := BmapDirect(i, bn);
        MappedFacts(s0, o0, St(), owner, i, Direct(i, bn));
        NewSlot(s0, o0, St(), owner, Logged(), i, Direct(i, bn));
      } else {
        var j := bn - NDIRECT;
        NoPointerNoEntry(s0, i, j);
        var p := BmapPointer(i);
        MappedFacts(s0, o0, St(), owner, i, IndPtr(i));
        MappedSame(s0, o0, i, IndEntry(i, j));
        NewSlot(s0, o0, St(), owner, Logged(), i, IndPtr(i));
        if p == 0 {
          return 0;
        }
        ghost var l1 := Logged();
        ghost var s1, o1, v1 := St(), owner, Dv();
        r := BmapEntry(i, j, p);
        LogsThen(v0, v1, Dv(), geo.bmapstart, geo.bmapstart, geo.bmapstart);
        LowestThen(s0, s1, St());
        MappedFacts(s1, o1, St(), owner, i, IndEntry(i, j));
        MappedChain(s0, s1, St(), o0, o1, owner, i, IndEntry(i, j));
        NewSlot(s1, o1, St(), owner, Logged(), i, IndEntry(i, j));
        NewMore(s0, s1, St(), l1, Logged(), i, o1, owner, IndEntry(i, j));
      }
    }

    function Cost(p: nat): (r: set<nat>) {
      CostOf(geo, p)
    }

    /** bfree. `panic` is "freeing free block". */
    method Bfree(b: nat, ghost freed: set<nat>) returns (panic: bool)
      requires Own(St(), owner, {}, freed) && b < geo.size
      modifies this`blocks, this`trace, this`undo
      ensures undo.Keys <= old(undo).Keys && Logs(old(Dv()), Dv(), geo.bmapstart)
      ensures panic <==> !Bit(old(St()), b)
      ensures panic ==> St() == old(St())
      ensures !panic ==> St() == WithBlockBit(old(St()), b, false) && Logged() == old(Logged()) + {BBlock(geo, b)}
      ensures b in owner && b !in freed ==>
                && !panic
                && Own(St(), owner, {}, freed + {b})
                && SameInodes(old(St()), St()) && SameAddrs(old(St()), St())
                && (forall c :: DataStart(geo) <= c < geo.size ==> blocks[c] == old(blocks)[c])
    {
      hide Exclusive, BitmapOk, GetBit, PutBit, SameInodes, SameAddrs, Logs, Targets;
      BBlockBelow(geo, b);
      LogsNone(Dv(), geo.bmapstart);
      ghost var v0 := Dv();
      if b in owner && b !in freed {
        OwnClear(St(), owner, {}, freed, b);
        BitStore(St(), owner, {}, freed, b, false);
      }
      var t := BBlock(geo, b);
      var data := blocks[t];
      if !GetBit(data, b % BPB) {
        return true;
      }
      LogBlock(t, PutBit(data, b % BPB, false));
      LogsThen(v0, v0, Dv(), geo.bmapstart, t, geo.bmapstart);
      panic := false;
    }

    /** Body of itrunc's first loop. */
    method FreeDirect(i: nat, k: nat) returns (panic: bool)
      requires Ok() && i in itable && i < geo.ninodes && k < NDIRECT
      modifies this
      ensures !panic && Ok() && OtherInodes(old(St()), St(), i)
      ensures undo.Keys <= old(undo).Keys && Logs(old(Dv()), Dv(), geo.bmapstart)
      ensures itable == old(itable)[i := old(itable)[i].(addrs := old(itable)[i].addrs[k := 0])]
      ensures owner == old(owner) - {old(itable)[i].addrs[k]}
      ensures forall c :: DataStart(geo) <= c < geo.size ==>
                c in old(blocks) && c in blocks && blocks[c] == old(blocks)[c]
    {
      hide Exclusive, BitmapOk, Bit, Addr, Ino, SameInodes, SameAddrs, SameBits, Forgets, Logs, Targets, OtherInodes;
      var b := itable[i].addrs[k];
      ghost var s0 := St();
      LogsNone(Dv(), geo.bmapstart);
      DirectIsOwned(s0, owner, {}, {}, i, k);
      if b != 0 {
        panic := Bfree(b, {});
        ghost var s1 := St();
        ForgetDirect(s1, owner, {}, {} + {b}, i, k);
        itable := itable[i := itable[i].(addrs := itable[i].addrs[k := 0])];
        OwnForget(s1, St(), owner, {}, {} + {b}, {b});
        OthersThen(s0, s1, St(), i);
        assert {} + {b} - {b} == {};
        owner := owner - {b};
      } else {
        panic := false;
        OthersThen(s0, s0, s0, i);
        assert itable[i].addrs[k := 0] == itable[i].addrs;
        ZeroNotOwned(St(), owner, {}, {});
        assert owner - {0} == owner;
      }
    }

    /** itrunc's second loop: the blocks named by the indirect block p. */
    method FreeEntries(i: nat, p: nat) returns (panic: bool, ghost freed: set<nat>)
      requires Ok() && i < geo.ninodes && p == Addr(St(), IndPtr(i)) && p != 0
      modifies this`blocks, this`trace, this`undo
      ensures !panic && Own(St(), owner, {}, freed)
      ensures undo.Keys <= old(undo).Keys && Logs(old(Dv()), Dv(), geo.bmapstart)
      ensures freed == EntryBlocks(owner, i, NINDIRECT)
      ensures SameAddrs(old(St()), St()) && SameInodes(old(St()), St())
      ensures forall c :: DataStart(geo) <= c < geo.size ==>
                c in old(blocks) && c in blocks && blocks[c] == old(blocks)[c]
    {
      hide Exclusive, BitmapOk, Bit, Addr, Ino, GetWord, Logs, Targets;
      EntryAddr(St(), owner, {}, {}, i, 0);
      var a := blocks[p];
      freed := {};
      assert EntryBlocks(owner, i, 0) == {};
      ghost var s0, v0 := St(), Dv();
      LogsNone(v0, geo.bmapstart);
      var j := 0;
      while j < NINDIRECT
        invariant 0 <= j <= NINDIRECT
        invariant Own(St(), owner, {}, freed) && freed == EntryBlocks(owner, i, j)
        invariant undo.Keys <= old(undo).Keys && Logs(v0, Dv(), geo.bmapstart)
        invariant SameAddrs(s0, St()) && SameInodes(s0, St())
        invariant forall c :: DataStart(geo) <= c < geo.size ==>
                  c in s0.blocks && c in blocks && blocks[c] == s0.blocks[c]
      {
        EntryAddr(s0, owner, {}, {}, i, j);
        NextEntry(s0, owner, {}, {}, i, j);
        if GetWord(a, j) != 0 {
          ghost var v1 := Dv();
          panic := Bfree(GetWord(a, j), freed);
          LogsThen(v0, v1, Dv(), geo.bmapstart, geo.bmapstart, geo.bmapstart);
          freed := freed + {GetWord(a, j)};
        }
        j := j + 1;
      }
      panic := false;
    }

    /** The part of itrunc that frees the indirect block and what it names. */
    method FreeIndirect(i: nat) returns (panic: bool)
      requires Ok() && i in itable && i < geo.ninodes
      modifies this
      ensures !panic && Ok() && OtherInodes(old(St()), St(), i)
      ensures undo.Keys <= old(undo).Keys && Logs(old(Dv()), Dv(), geo.bmapstart)
      ensures itable == old(itable)[i := old(itable)[i].(addrs := old(itable)[i].addrs[NDIRECT := 0])]
      ensures owner == old(owner) - IndirectBlocks(old(owner), i)
      ensures forall c :: DataStart(geo) <= c < geo.size ==>
                c in old(blocks) && c in blocks && blocks[c] == old(blocks)[c]
    {
      hide Exclusive, BitmapOk, Bit, Addr, Ino, SameInodes, SameBits, Forgets, Logs, Targets, OtherInodes;
      panic := false;
      ghost var s0, v0 := St(), Dv();
      LogsNone(v0, geo.bmapstart);
      MemAddr(s0, i);
      IndirectIs(St(), owner, {}, {}, i);
      var p := itable[i].addrs[NDIRECT];
      if p != 0 {
        ghost var freed;
        panic, freed := FreeEntries(i, p);
        ghost var sf, vf := St(), Dv();
        panic := Bfree(p, freed);
        ghost var s1 := St();
        LogsThen(v0, vf, Dv(), geo.bmapstart, geo.bmapstart, geo.bmapstart);
        InodesThen(s0, sf, s1);
        ForgetIndirect(s1, owner, {}, freed + {p as nat}, i);
        itable := itable[i := itable[i].(addrs := itable[i].addrs[NDIRECT := 0])];
        OwnForget(s1, St(), owner, {}, freed + {p as nat}, IndirectBlocks(owner, i));
        OthersThen(s0, s1, St(), i);
        assert freed + {p as nat} - IndirectBlocks(owner, i) == {};
        owner := owner - IndirectBlocks(owner, i);
      } else {
        OthersThen(s0, s0, s0, i);
        assert itable[i].addrs[NDIRECT := 0] == itable[i].addrs;
        assert owner - {} == owner;
      }
    }

    /** The first loop of itrunc. */
    method FreeDirects(i: nat) returns (panic: bool)
      requires Ok() && i in itable && i < geo.ninodes
      modifies this
      ensures !panic && Ok() && i in itable && OtherInodes(old(St()), St(), i)
      ensures undo.Keys <= old(undo).Keys && Logs(old(Dv()), Dv(), geo.bmapstart)
      ensures itable == old(itable)[i := old(itable)[i].(addrs := itable[i].addrs)]
      ensures forall a :: 0 <= a <= NDIRECT ==> itable[i].addrs[a] == if a < NDIRECT then 0 else old(itable)[i].addrs[a]
      ensures owner == old(owner) - DirectBelow(old(owner), i, NDIRECT)
      ensures forall c :: DataStart(geo) <= c < geo.size ==>
                c in old(blocks) && c in blocks && blocks[c] == old(blocks)[c]
    {
      hide Exclusive, BitmapOk, Bit, Addr, Ino, SameInodes, SameAddrs, SameBits, Forgets, Logs, Targets;
      ghost var o0, v0 := owner, Dv();
      LogsNone(v0, geo.bmapstart);
      assert o0 - DirectBelow(o0, i, 0) == o0;
      panic := false;
      var k := 0;
      while k < NDIRECT
        invariant 0 <= k <= NDIRECT && !panic
        invariant Ok() && i in itable && OtherInodes(old(St()), St(), i)
        invariant undo.Keys <= old(undo).Keys && Logs(v0, Dv(), geo.bmapstart)
        invariant itable == old(itable)[i := old(itable)[i].(addrs := itable[i].addrs)]
        invariant forall a :: 0 <= a <= NDIRECT ==> itable[i].addrs[a] == if a < k then 0 else old(itable)[i].addrs[a]
        invariant owner == o0 - DirectBelow(o0, i, k)
        invariant forall c :: DataStart(geo) <= c < geo.size ==>
                  c in old(blocks) && c in blocks && blocks[c] == old(blocks)[c]
      {
        NextDirect(old(St()), o0, {}, {}, i, k);
        ghost var v1 := Dv();
        panic := FreeDirect(i, k);
        LogsThen(v0, v1, Dv(), geo.bmapstart, geo.bmapstart, geo.bmapstart);
        k := k + 1;
      }
    }

    /** iupdate: the inode on disk becomes the inode in memory. */
    method Iupdate(i: nat)
      requires Ok() && i in itable && i < geo.ninodes
      modifies this`blocks, this`trace, this`undo
      ensures St() == Flushed(old(St()), i) && Logged() == old(Logged()) + {IBlock(geo, i)}
      ensures undo == old(undo) && Logs(old(Dv()), Dv(), geo.inodestart)
      ensures Ok() && SameInodes(old(St()), St()) && SameAddrs(old(St()), St())
      ensures IBlock(geo, i) in blocks && GetInode(blocks[IBlock(geo, i)], i % IPB) == itable[i]
      ensures forall c :: DataStart(geo) <= c < geo.size ==>
                c in old(blocks) && c in blocks && blocks[c] == old(blocks)[c]
    {
      hide Exclusive, BitmapOk, PutInode, GetInode, SameInodes, SameAddrs, Logs, Targets;
      FlushKeeps(St(), owner, {}, {}, i);
      IBlockBelow(geo, i);
      var t := IBlock(geo, i);
      ghost var v0 := Dv();
      LogsNone(v0, geo.inodestart);
      LogBlock(t, PutInode(blocks[t], i % IPB, itable[i]));
      LogsThen(v0, v0, Dv(), geo.inodestart, t, geo.inodestart);
      assert undo == old(undo);
    }

    /** itrunc: frees exactly the blocks of inode i, without ever meeting the
        "freeing free block" panic, and empties the inode in memory and on disk. */
    method Itrunc(i: nat) returns (panic: bool)
      requires Ok() && i in itable && i < geo.ninodes
      modifies this
      ensures !panic && Ok() && OtherInodes(old(St()), St(), i)
      ensures undo.Keys <= old(undo).Keys && Logs(old(Dv()), Dv(), geo.inodestart)
      ensures OnDisk(old(St())) ==> OnDisk(St())
      ensures owner == old(owner) - BlocksOf(old(owner), i)
      ensures i in itable && itable == old(itable)[i := itable[i]]
      ensures itable[i] == old(itable)[i].(size := 0, addrs := itable[i].addrs)
      ensures forall a :: 0 <= a <= NDIRECT ==> itable[i].addrs[a] == 0
      ensures IBlock(geo, i) in blocks && GetInode(blocks[IBlock(geo, i)], i % IPB) == itable[i]
      ensures forall c | 0 <= c < geo.size :: Bit(St(), c) <==> Bit(old(St()), c) && c !in BlocksOf(old(owner), i)
      ensures forall c :: DataStart(geo) <= c < geo.size ==>
                c in old(blocks) && c in blocks && blocks[c] == old(blocks)[c]
    {
      hide Exclusive, Bit, Addr, Ino, SameInodes, SameAddrs, SameBits, GetInode, OtherInodes, Logs, Targets;
      hide OnDisk, Flushed;
      hide BitmapOk, BlocksOf;
      ghost var s0, o0, v0 := St(), owner, Dv();
      panic := FreeDirects(i);
      ghost var s1, v1 := St(), Dv();
      panic := FreeIndirect(i);
      ghost var s2, v2 := St(), Dv();
      AllBlocks(s0, o0, i);
      BlocksOwned(o0, i);
      SetSize(i, 0);
      OthersResized(s2, St(), i, 0);
      OthersChain(s0, s1, s2, St(), i);
      LogsThen(v0, v1, v2, geo.bmapstart, geo.bmapstart, geo.bmapstart);
      LogsThen(v0, v2, Dv(), geo.bmapstart, geo.inodestart, geo.inodestart);
      BitsWithout(s0, o0, St(), owner, BlocksOf(o0, i));
      if OnDisk(s0) {
        OnDiskAfter(s0, v0, s2, v2, Resized(s2, i, 0), St(), i);
      }
    }

    /** bmap for a block that is there: nothing is allocated. */
    method BmapPresent(i: nat, bn: nat) returns (r: Word)
      requires Ok() && i in itable && i < geo.ninodes && bn < MAXFILE && Addr(St(), SlotOf(i, bn)) != 0
      modifies this
      ensures St() == old(St()) && Dv() == old(Dv()) && owner == old(owner)
      ensures r == Addr(St(), SlotOf(i, bn)) && r in blocks
    {
      hide Exclusive, BitmapOk, Addr;
      SlotIsOwned(St(), owner, SlotOf(i, bn));
      r := Bmap(i, bn);
    }

    /** One turn of readi's loop: bmap and the bytes of that block. */
    method ReadChunk(i: nat, pos: nat, m: nat) returns (x: seq<Byte>)
      requires Ok() && i in itable && i < geo.ninodes && NoHoles(St(), i)
      requires 0 < m && pos % BSIZE + m <= BSIZE && pos + m <= Ino(St(), i).size
      modifies this
      ensures St() == old(St()) && Dv() == old(Dv()) && owner == old(owner)
      ensures pos + m <= |Content(St(), i)| && x == Content(St(), i)[pos..pos + m]
    {
      hide Exclusive, BitmapOk, Addr, Raw, NoHoles, Content;
      SizeOf(St(), i);
      ThereAt(St(), i, pos);
      var addr := BmapPresent(i, pos / BSIZE);
      ChunkIs(St(), i, pos, m);
      x := blocks[addr][pos % BSIZE..pos % BSIZE + m];
    }

    /** readi. The destination accepts its first `writable` bytes. Returns the exact
        slice of the file clamped to its size, or -1 when the destination faults,
        and never allocates a block. */
    method Readi(i: nat, off: Word, n: Word, writable: nat) returns (r: int, out: seq<Byte>)
      requires Ok() && i in itable && i < geo.ninodes && NoHoles(St(), i)
      modifies this
      ensures St() == old(St()) && Dv() == old(Dv()) && owner == old(owner)
      ensures var c := Content(St(), i);
              if off > |c| || off + n >= 0x1_0000_0000 then r == 0 && out == []
              else var want := Min(n, |c| - off);
                   if writable < want then r == -1 else r == want && out == c[off..off + want]
    {
      hide Exclusive, BitmapOk, Addr, Ino, Raw, NoHoles, Content;
      out := [];
      ghost var s0 := St();
      SizeOf(s0, i);
      ghost var c := Content(s0, i);
      if off > itable[i].size || (off + n) % 0x1_0000_0000 < off {
        return 0, [];
      }
      var want: nat := if off + n > itable[i].size then itable[i].size - off else n;
      var tot: nat := 0;
      while tot < want
        invariant 0 <= tot <= want == Min(n, |c| - off) && tot <= writable
        invariant St() == s0 && Dv() == old(Dv()) && owner == old(owner)
        invariant out == c[off..off + tot]
      {
        var pos: nat := off + tot;
        var m := Min(want - tot, BSIZE - pos % BSIZE);
        var x := ReadChunk(i, pos, m);
        if tot + m > writable {
          return -1, out;
        }
        assert c[off..off + tot] + c[pos..pos + m] == c[off..off + tot + m];
        out := out + x;
        tot := tot + m;
      }
      r := tot;
    }

    /** The second half of a turn of writei's loop: copy in, log_write. */
    method CopyIn(i: nat, pos: nat, x: seq<Byte>, copied: nat, addr: Word) returns (res: Chunk)
      requires Ok() && i < geo.ninodes && pos / BSIZE < MAXFILE && pos % BSIZE + |x| <= BSIZE && copied <= |x|
      requires addr == Addr(St(), SlotOf(i, pos / BSIZE)) && addr != 0
      modifies this`blocks, this`trace, this`undo
      ensures Ok() && SameAddrs(old(St()), St()) && SameInodes(old(St()), St())
      ensures Overwritten(old(St()), St(), i, pos, x[..copied])
      ensures !res.DiskFull? && (res.Written? <==> copied == |x|)
      ensures Logged() == old(Logged()) + if res.Written? then {addr} else {}
      ensures Logs(old(Dv()), Dv(), geo.bmapstart)
      ensures old(undo) == map[] ==>
                if res.Fault? && addr !in old(Logged()) then Durable() == old(St()) else undo == map[]
    {
      hide Exclusive, BitmapOk, Bit, Addr, Ino, Raw, Logs, Targets, SameAddrs, SameInodes;
      var bn, lo := pos / BSIZE, pos % BSIZE;
      ghost var s1, v1 := St(), Dv();
      PatchRaw(s1, owner, i, bn, lo, x[..copied]);
      SlotIsOwned(s1, owner, SlotOf(i, bn));
      LogsNone(v1, geo.bmapstart);
      var data := Patch(blocks[addr], lo, x[..copied]);
      if copied < |x| {
        UnloggedUnder(v1, addr, data, geo.bmapstart);
        ghost var v2 := Unlogged(v1, addr, data);
        undo, trace := v2.undo, v2.trace;
        blocks := blocks[addr := data];
        assert Dv() == v2;
        NothingTorn(s1);
        res := Fault;
      } else {
        LogBlock(addr, data);
        LogsThen(v1, v1, Dv(), geo.bmapstart, addr, geo.bmapstart);
        res := Written;
      }
      assert pos == bn * BSIZE + lo;
    }

    /** One turn of writei's loop: bmap, copy in, log_write. Of the chunk x the first
        `copied` bytes can be read; a fault leaves those in the buffer, unlogged. */
    method WriteChunk(i: nat, pos: nat, x: seq<Byte>, copied: nat) returns (res: Chunk)
      requires Ok() && i in itable && i < geo.ninodes
      requires pos / BSIZE < MAXFILE && x != [] && pos % BSIZE + |x| <= BSIZE && copied <= |x|
      modifies this
      ensures Ok() && i in itable && itable == old(itable)[i := old(itable)[i].(addrs := itable[i].addrs)]
      ensures Chunked(old(St()), old(owner), old(Dv()), St(), owner, Dv(), res, i, pos, x, copied)
    {
      hide Exclusive, BitmapOk, Bit, Addr, Ino, Raw, NewLogged, Logs, Targets, LowestFirst, NewWithin, Overwritten;
      hide SameRaw, SameAddrs, SameInodes, Mapped, Chunked, OtherInodes, KeepsAddrs;
      var bn := pos / BSIZE;
      ghost var s0, o0, v0 := St(), owner, Dv();
      var addr := Bmap(i, bn);
      ghost var s1, v1 := St(), Dv();
      MappedFacts(s0, o0, s1, owner, i, SlotOf(i, bn));
      if addr == 0 {
        FullChunk(s0, o0, v0, s1, owner, v1, i, pos, x, copied);
        return DiskFull;
      }
      res := CopyIn(i, pos, x, copied, addr);
      DoneChunk(s0, o0, v0, s1, v1, St(), owner, Dv(), res, i, pos, x, copied);
    }

    /** One turn of writei's loop, with what the whole loop has done so far. */
    method WriteTurn(i: nat, off: nat, src: seq<Byte>, readable: nat, tot: nat, ghost s0: Fs, ghost v0: Dev,
                     ghost spent: Spent)
      returns (res: Chunk, m: nat, ghost w: nat, ghost spent': Spent)
      requires Ok() && i < geo.ninodes && off + |src| <= MAXFILE * BSIZE && tot < |src| && tot <= readable
      requires Turning(s0, v0, St(), owner, Dv(), spent, i, off, src, tot)
      modifies this
      ensures Ok() && 0 < m && tot + m <= |src|
      ensures res.Written? ==>
                w == tot + m <= readable && Turning(s0, v0, St(), owner, Dv(), spent', i, off, src, tot + m)
      ensures !res.Written? ==> Looped(s0, v0, St(), Dv(), i, off, src, readable, tot, w)
    {
      hide Own, Torn, Turning, Looped, Chunked, ChunkLen;
      ghost var s1, o1, v1 := St(), owner, Dv();
      var pos := off + tot;
      m := ChunkLen(pos, |src| - tot);
      ChunkFacts(pos, |src| - tot);
      TurningFacts(s0, v0, s1, o1, v1, spent, i, off, src, tot);
      var copied := if readable <= tot then 0 else Min(readable - tot, m);
      var x := src[tot..tot + m];
      res := WriteChunk(i, pos, x, copied);
      w := if res.Written? then tot + m else if res.Fault? then tot + copied else tot;
      spent' := TurnEnds(s0, v0, s1, o1, v1, St(), owner, Dv(), spent, res, i, off, src, readable, tot, m, copied, w);
    }

    /** The loop of writei. `w` bytes end up in the file: `tot`, or more when the
        source faulted part-way through a chunk. */
    method WriteBlocks(i: nat, off: nat, src: seq<Byte>, readable: nat) returns (tot: nat, ghost w: nat)
      requires Ok() && i in itable && i < geo.ninodes && NoHoles(St(), i)
      requires off <= itable[i].size && off + |src| <= MAXFILE * BSIZE
      modifies this
      ensures Ok() && i in itable && Looped(old(St()), old(Dv()), St(), Dv(), i, off, src, readable, tot, w)
      ensures itable == old(itable)[i := itable[i]] && itable[i].size == old(itable)[i].size
      ensures off + tot <= MAXFILE * BSIZE
    {
      hide Own, Torn, Turning, Looped, NoHoles;
      ghost var s0, v0 := St(), Dv();
      ghost var spent := Spent({}, {});
      OwnShape(s0, owner);
      TurningStart(s0, owner, v0, i, off, src);
      tot, w := 0, 0;
      while tot < |src|
        invariant 0 <= tot <= |src| && w == tot <= readable
        invariant Ok() && Turning(s0, v0, St(), owner, Dv(), spent, i, off, src, tot)
      {
        var res, m;
        res, m, w, spent := WriteTurn(i, off, src, readable, tot, s0, v0, spent);
        if !res.Written? {
          LoopedFacts(s0, v0, St(), Dv(), i, off, src, readable, tot, w);
          return;
        }
        tot := tot + m;
      }
      TurnedAll(s0, v0, St(), owner, Dv(), spent, i, off, src, readable);
      LoopedFacts(s0, v0, St(), Dv(), i, off, src, readable, tot, w);
    }

    /** writei. The source is readable for its first `readable` bytes. */
    method Writei(i: nat, off: Word, src: seq<Byte>, readable: nat) returns (r: int, ghost w: nat)
      requires Ok() && i in itable && i < geo.ninodes && NoHoles(St(), i) && |src| < 0x1_0000_0000
      modifies this
      ensures Ok() && NoHoles(St(), i) && i in itable
      ensures r == -1 <==> off > old(itable)[i].size || off + |src| >= 0x1_0000_0000 || off + |src| > MAXFILE * BSIZE
      ensures r == -1 ==> St() == old(St()) && Dv() == old(Dv()) && owner == old(owner)
      ensures r != -1 ==>
                && 0 <= r <= w <= |src|
                && (Stops(off, |src|, readable, r, w) || (r == w && forall c | 0 <= c < geo.size :: Bit(St(), c)))
                && itable == old(itable)[i := itable[i]]
                && Ino(St(), i).size == Max(old(itable)[i].size, off + r)
                && InodeOf(St(), i) == Ino(St(), i)
                && KeepsAddrs(old(St()), St()) && OtherInodes(old(St()), St(), i)
                && Overwritten(old(St()), St(), i, off, src[..w])
                && (r == |src| ==> Content(St(), i) == Splice(old(Content(St(), i)), off, src))
                && LogsWithin(old(Logged()), Logged(), TouchCost(off, |src|) + 1)
                && (r == |src| ==> Recorded(old(St()), St(), old(Logged()), Logged(), i, off, |src|))
                && IBlock(geo, i) in Logged()
                && Logs(old(Dv()), Dv(), geo.inodestart) && Grew(old(St()), St(), i, off, |src|)
                && (old(undo) == map[] ==>
                      && Shape(Durable())
                      && var d := Settled(old(St()), old(Logged()), i, off, r, w);
                         d <= |src| && Visible(old(St()), Durable(), i, off, src[..d]))
                && (old(undo) == map[] && r == |src| ==> undo == map[])
                && (OnDisk(old(St())) ==> OnDisk(St()))
    {
      hide Exclusive, BitmapOk, Bit, Addr, Ino, Raw, NoHoles, Content, KeepsAddrs, OtherInodes, Overwritten, Splice;
      hide Grew, Recorded, LogsWithin, TouchCost, Logs, OnDisk, Stops, GetInode, Targets;
      if off > itable[i].size || (off + |src|) % 0x1_0000_0000 < off {
        return -1, 0;
      }
      if off + |src| > MAXFILE * BSIZE {
        return -1, 0;
      }
      r, w := WriteAndUpdate(i, off, src, readable);
    }

    /** writei once its arguments have been accepted. */
    method WriteAndUpdate(i: nat, off: Word, src: seq<Byte>, readable: nat) returns (tot: nat, ghost w: nat)
      requires Ok() && i in itable && i < geo.ninodes && NoHoles(St(), i)
      requires off <= itable[i].size && off + |src| <= MAXFILE * BSIZE
      modifies this
      ensures Ok() && Updated(old(St()), old(Dv()), St(), Dv(), i, off, src, readable, tot, w)
    {
      hide Looped, SizeSet, Updated, Own, Torn, NoHoles;
      ghost var s0, v0, o0 := St(), Dv(), owner;
      tot, w := WriteBlocks(i, off, src, readable);
      ghost var s1, v1 := St(), Dv();
      var size := if off + tot > itable[i].size then off + tot else itable[i].size;
      SetSize(i, size);
      Finished(s0, v0, o0, s1, v1, St(), Dv(), owner, i, off, src, readable, tot, w, size);
    }

    /** The last lines of writei, and of itrunc. */
    method SetSize(i: nat, size: Word)
      requires Ok() && i in itable && i < geo.ninodes
      modifies this`blocks, this`itable, this`trace, this`undo
      ensures Ok() && itable == old(itable)[i := old(itable)[i].(size := size)]
      ensures SizeSet(old(St()), old(Dv()), St(), Dv(), i, size)
    {
      hide Exclusive, BitmapOk, Addr, Ino, GetInode, PutInode, Logs, Targets, SameBits;
      SizeKeeps(St(), owner, i, size);
      itable := itable[i := itable[i].(size := size)];
      Iupdate(i);
    }
  }

  function Min(a: nat, b: nat): (m: nat) { if a < b then a else b }

  lemma SizeOf(s: Fs, i: nat)
    requires Shape(s) && i < s.geo.ninodes && i in s.itable && NoHoles(s, i)
    ensures Ino(s, i) == s.itable[i] && s.itable[i].size <= MAXFILE * BSIZE && |Content(s, i)| == s.itable[i].size
  {
  }

  lemma ThereAt(s: Fs, i: nat, pos: nat)
    requires Shape(s) && i < s.geo.ninodes && NoHoles(s, i) && pos < Ino(s, i).size
    ensures pos / BSIZE < MAXFILE && Addr(s, SlotOf(i, pos / BSIZE)) != 0
  {
    hide Addr, Ino;
    assert pos / BSIZE * BSIZE <= pos;
  }

  /** How much of the n remaining bytes fits the block that holds position pos. */
  function ChunkLen(pos: nat, n: nat): (m: nat) { Min(n, BSIZE - pos % BSIZE) }

  lemma ChunkFacts(pos: nat, n: nat)
    requires 0 < n && pos + n <= MAXFILE * BSIZE
    ensures 0 < ChunkLen(pos, n) <= n && pos % BSIZE + ChunkLen(pos, n) <= BSIZE && pos / BSIZE < MAXFILE
    ensures var m := ChunkLen(pos, n); m == n || ((pos + m) % BSIZE == 0 && (pos + m) / BSIZE == pos / BSIZE + 1)
  {
  }

  /** Part of one block of a file, seen as part of the flat file. */
  lemma ChunkIs(s: Fs, i: nat, pos: nat, m: nat)
    requires Shape(s) && i < s.geo.ninodes && Ino(s, i).size <= MAXFILE * BSIZE
    requires pos % BSIZE + m <= BSIZE && pos + m <= Ino(s, i).size && pos / BSIZE < MAXFILE
    requires var a := Addr(s, SlotOf(i, pos / BSIZE)); a != 0 && a in s.blocks
    ensures s.blocks[Addr(s, SlotOf(i, pos / BSIZE))][pos % BSIZE..pos % BSIZE + m] == Content(s, i)[pos..pos + m]
  {
    hide Addr, Ino;
    var a := Addr(s, SlotOf(i, pos / BSIZE));
    var l, r := s.blocks[a][pos % BSIZE..pos % BSIZE + m], Content(s, i)[pos..pos + m];
    forall k | 0 <= k < m ensures l[k] == r[k] {
      assert (pos + k) / BSIZE == pos / BSIZE && (pos + k) % BSIZE == pos % BSIZE + k;
    }
  }

  lemma RawThen(s0: Fs, s1: Fs, s2: Fs, i: nat, pos: nat, x: seq<Byte>)
    requires Shape(s0) && Shape(s1) && Shape(s2) && s1.geo == s0.geo && s2.geo == s0.geo
    requires SameRaw(s0, s1) && Overwritten(s1, s2, i, pos, x)
    ensures Overwritten(s0, s2, i, pos, x)
  {
    hide Raw;
  }

  /** Where a write of n bytes at off ends when the disk does not fill up: `r` is returned and `w` bytes are in
      the file. A source that can be read for fewer than n bytes stops it after the last whole block. */
  predicate Stops(off: nat, n: nat, readable: nat, r: int, w: nat) {
    w == Min(n, readable) && r == if n <= readable then n else Boundary(off, readable)
  }

  /** How many of the k bytes from off lie before the last block boundary passed. */
  function Boundary(off: nat, k: nat): (t: nat) {
    var e := (off + k) / BSIZE * BSIZE;
    if e <= off then 0 else e - off
  }

  lemma BoundaryIs(off: nat, t: nat, m: nat, k: nat)
    requires t == 0 || (off + t) % BSIZE == 0
    requires 0 < m <= BSIZE - (off + t) % BSIZE && t <= k < t + m
    ensures Boundary(off, k) == t
  {
    var q := (off + t) / BSIZE;
    assert off + t == BSIZE * q + (off + t) % BSIZE;
    assert (off + k) / BSIZE == q;
  }

  /** Exactly when more bytes reach the file than writei returns: the source faults inside a block of which
      some bytes have been copied. */
  lemma TornIff(off: nat, n: nat, readable: nat, r: int, w: nat)
    requires Stops(off, n, readable, r, w)
    ensures w > r <==> 0 < readable < n && (off + readable) % BSIZE != 0
    ensures w >= r
  {
    var e := (off + readable) / BSIZE * BSIZE;
    assert off + readable == e + (off + readable) % BSIZE;
  }

  /** Nothing that a reader of files can see has changed. */
  ghost predicate Silent(s: Fs, s': Fs, i: nat) {
    && Shape(s) && Shape(s') && s'.geo == s.geo && i < s.geo.ninodes
    && KeepsAddrs(s, s') && OtherInodes(s, s', i) && SameRaw(s, s')
  }

  ghost predicate OtherInodes(s: Fs, s': Fs, i: nat)
    requires Shape(s) && Shape(s') && s'.geo == s.geo
  {
    forall j | 0 <= j < s.geo.ninodes :: j != i ==> Ino(s', j) == Ino(s, j)
  }

  /** How one turn of writei's loop ends: block written, disk full, or source fault. */
  datatype Chunk = Written | DiskFull | Fault

  /** Slots that name a block keep naming it. */
  ghost predicate KeepsAddrs(s: Fs, s': Fs)
    requires Shape(s) && Shape(s') && s'.geo == s.geo
  {
    forall y :: ValidSlot(s.geo, y) && Addr(s, y) != 0 ==> Addr(s', y) == Addr(s, y)
  }

  /** File i has the bytes x at position pos; all other bytes of all files are as before. */
  ghost predicate Overwritten(s: Fs, s': Fs, i: nat, pos: nat, x: seq<Byte>)
    requires Shape(s) && Shape(s') && s'.geo == s.geo
  {
    forall j, p | 0 <= j < s.geo.ninodes && 0 <= p < MAXFILE * BSIZE ::
      Raw(s', j, p) == if j == i && pos <= p < pos + |x| then x[p - pos] else Raw(s, j, p)
  }

  /** Blocks [off, off + t) of the file are all there. */
  ghost predicate Present(s: Fs, i: nat, off: nat, t: nat)
    requires Shape(s) && i < s.geo.ninodes
  {
    forall bn | 0 <= bn < MAXFILE :: off / BSIZE <= bn && bn * BSIZE < off + t ==> Addr(s, SlotOf(i, bn)) != 0
  }

  /** How many blocks t bytes from off reach into. */
  function Touched(off: nat, t: nat): (n: nat) {
    if t == 0 then 0 else (off + t - 1) / BSIZE - off / BSIZE + 1
  }

  /** How many of those can be new: a first block entered part-way is already there. */
  function Fresh(off: nat, t: nat): (n: nat) {
    if Touched(off, t) == 0 then 0 else Touched(off, t) - if off % BSIZE != 0 then 1 else 0
  }

  /** Data blocks, their bitmap blocks, and the indirect block with its bitmap block. */
  function TouchCost(off: nat, t: nat): (n: nat) { Touched(off, t) + Fresh(off, t) + 2 }

  /** What writei's loop has done from s0 to s: the bytes x are in file i at off, the
      blocks of the first t bytes are there, and nothing else has changed. */
  ghost predicate Wrote(s0: Fs, s: Fs, i: nat, off: nat, x: seq<Byte>, t: nat) {
    && Shape(s0) && Shape(s) && s.geo == s0.geo && i < s.geo.ninodes
    && KeepsAddrs(s0, s) && OtherInodes(s0, s, i)
    && Overwritten(s0, s, i, off, x)
    && Present(s, i, off, t)
  }

  lemma WroteStart(s: Fs, i: nat, off: nat, src: seq<Byte>)
    requires Shape(s) && i < s.geo.ninodes && i in s.itable && NoHoles(s, i) && off <= s.itable[i].size
    ensures Wrote(s, s, i, off, src[..0], 0)
  {
    hide Addr, GetInode, Raw;
  }

  lemma DurableStart(s: Fs, l: set<nat>, i: nat, off: nat, src: seq<Byte>)
    requires Wrote(s, s, i, off, src[..0], 0)
    ensures DurableTo(s, s, l, i, off, src, 0, 0)
  {
    hide Wrote;
  }

  lemma ChainOverwritten(s0: Fs, s1: Fs, s2: Fs, i: nat, off: nat, x: seq<Byte>, y: seq<Byte>)
    requires Shape(s0) && Shape(s1) && Shape(s2) && s1.geo == s0.geo && s2.geo == s0.geo
    requires Overwritten(s0, s1, i, off, x) && Overwritten(s1, s2, i, off + |x|, y)
    ensures Overwritten(s0, s2, i, off, x + y)
  {
    hide Raw;
  }

  lemma WrotePart(s0: Fs, s1: Fs, s2: Fs, i: nat, off: nat, x: seq<Byte>, y: seq<Byte>, t: nat)
    requires Wrote(s0, s1, i, off, x, t) && |x| == t
    requires Shape(s1) && Shape(s2) && s2.geo == s1.geo && i < s1.geo.ninodes && KeepsAddrs(s1, s2)
    requires OtherInodes(s1, s2, i)
    requires Overwritten(s1, s2, i, off + t, y)
    ensures Wrote(s0, s2, i, off, x + y, t)
  {
    hide Addr, Ino, Overwritten;
    ChainOverwritten(s0, s1, s2, i, off, x, y);
  }

  lemma WroteNothing(s0: Fs, s1: Fs, s2: Fs, i: nat, off: nat, x: seq<Byte>, t: nat)
    requires Wrote(s0, s1, i, off, x, t) && |x| == t
    requires Shape(s1) && Shape(s2) && s2.geo == s1.geo && i < s1.geo.ninodes && KeepsAddrs(s1, s2)
    requires OtherInodes(s1, s2, i) && SameRaw(s1, s2)
    ensures Wrote(s0, s2, i, off, x, t)
  {
    hide Addr, Ino, Raw;
  }

  /** The same when a fault has left the blocks behind the buffers alone. */
  lemma WroteSilent(s0: Fs, s1: Fs, s2: Fs, i: nat, off: nat, x: seq<Byte>, t: nat)
    requires Wrote(s0, s1, i, off, x, t) && |x| == t && Silent(s1, s2, i)
    ensures Wrote(s0, s2, i, off, x, t)
  {
    hide Addr, Ino, Raw, Wrote, KeepsAddrs, OtherInodes, SameRaw, Shape;
    WroteNothing(s0, s1, s2, i, off, x, t);
  }

  /** One turn as the log and the disk see it. */
  lemma TurnDurable(s0: Fs, l0: set<nat>, s1: Fs, o1: Owner, l1: set<nat>, s2: Fs, d2: Fs, res: Chunk, i: nat,
                    off: nat, src: seq<Byte>, tot: nat, m: nat, w: nat)
    requires tot <= w <= |src| && Wrote(s0, s1, i, off, src[..tot], tot) && Own(s1, o1, {}, {}) && i < s1.geo.ninodes
    requires (off + tot) / BSIZE < MAXFILE && LoggedSlots(s1.geo, o1, l1 - l0, i, (off + tot) / BSIZE) && l0 <= l1
    requires Wrote(s0, s2, i, off, src[..w], if res.Written? then tot + m else tot) && tot + m <= |src|
    requires res.Written? ==> w == tot + m
    requires res.DiskFull? ==> w == tot
    requires var a := Addr(s1, SlotOf(i, (off + tot) / BSIZE));
             if res.Fault? && a != 0 && a !in l1 then Silent(s1, d2, i) else d2 == s2
    ensures DurableTo(s0, d2, l0, i, off, src, if res.Written? then tot + m else tot, w)
  {
    hide Addr, Ino, Raw, Wrote, Silent, Own, LoggedSlots;
    ThereBefore(s0, s1, i, off, src[..tot], tot);
    var a := Addr(s1, SlotOf(i, (off + tot) / BSIZE));
    if res.Fault? {
      NotLoggedYet(s1, o1, l1 - l0, i, (off + tot) / BSIZE);
      if a != 0 && a !in l1 {
        WroteSilent(s0, s1, d2, i, off, src[..tot], tot);
        assert Wrote(s0, d2, i, off, src[..tot], tot);
      }
    }
  }

  lemma WroteShape(s0: Fs, s: Fs, i: nat, off: nat, x: seq<Byte>, t: nat)
    requires Wrote(s0, s, i, off, x, t)
    ensures Shape(s0) && Shape(s) && s.geo == s0.geo && i < s.geo.ninodes
  {
    hide Addr, Ino, Raw, Shape;
  }

  lemma WroteTurn(s0: Fs, s1: Fs, s2: Fs, i: nat, off: nat, x: seq<Byte>, y: seq<Byte>, t: nat)
    requires Wrote(s0, s1, i, off, x, t) && |x| == t
    requires Shape(s1) && Shape(s2) && s2.geo == s1.geo && i < s1.geo.ninodes && KeepsAddrs(s1, s2)
    requires OtherInodes(s1, s2, i)
    requires (off + t) % BSIZE + |y| <= BSIZE && (off + t) / BSIZE < MAXFILE
    requires Overwritten(s1, s2, i, off + t, y) && Addr(s2, SlotOf(i, (off + t) / BSIZE)) != 0
    ensures Wrote(s0, s2, i, off, x + y, t + |y|)
  {
    hide Addr, Ino, Overwritten;
    WrotePart(s0, s1, s2, i, off, x, y, t);
    forall bn | 0 <= bn < MAXFILE && off / BSIZE <= bn && bn * BSIZE < off + (t + |y|)
      ensures Addr(s2, SlotOf(i, bn)) != 0
    {
      if bn * BSIZE >= off + t {
        assert bn == (off + t) / BSIZE;
      }
    }
  }

  /** What one turn of writei's loop does. */
  ghost predicate Chunked(s0: Fs, o0: Owner, v0: Dev, s: Fs, o: Owner, v: Dev, res: Chunk, i: nat, pos: nat,
                          x: seq<Byte>,
                          copied: nat)
  {
    && Shape(s0) && Shape(s) && s.geo == s0.geo && i < s.geo.ninodes && pos / BSIZE < MAXFILE && copied <= |x|
    && KeepsAddrs(s0, s) && OtherInodes(s0, s, i)
    && (res.DiskFull? ==> SameRaw(s0, s) && forall c | 0 <= c < s.geo.size :: Bit(s, c))
    && (!res.DiskFull? ==>
          && Addr(s, SlotOf(i, pos / BSIZE)) != 0
          && Overwritten(s0, s, i, pos, x[..copied]) && (res.Written? <==> copied == |x|))
    && var l0, l := Targets(v0.trace), Targets(v.trace);
       var a0, a := Addr(s0, SlotOf(i, pos / BSIZE)), Addr(s, SlotOf(i, pos / BSIZE));
       && l <= l0 + CostOf(s.geo, Addr(s, IndPtr(i))) + (if a == 0 then {} else {a})
               + (if a0 == 0 then CostOf(s.geo, a) else {})
       && l0 <= l && NewLogged(s0, s, l, i) && (res.Written? ==> a in l)
       && Logs(v0, v, s.geo.bmapstart) && Grew(s0, s, i, pos, |x|)
       && (v0.undo == map[] ==>
             if res.Fault? && a0 != 0 && a0 !in l0 then Silent(s0, Behind(s, v.undo), i) else v.undo == map[])
       && Extends(o0, o) && LoggedSlots(s.geo, o, l - l0, i, pos / BSIZE + 1)
  }

  /** What bmap leaves for the rest of the turn. */
  ghost predicate Bmapped(s0: Fs, o0: Owner, v0: Dev, s1: Fs, o1: Owner, v1: Dev, i: nat, bn: nat) {
    && Own(s0, o0, {}, {}) && Own(s1, o1, {}, {}) && bn < MAXFILE && Mapped(s0, o0, s1, o1, i, SlotOf(i, bn))
    && v1.undo.Keys <= v0.undo.Keys && Logs(v0, v1, s1.geo.bmapstart) && LowestFirst(s0, s1)
    && var l0, l1, a0, a := Targets(v0.trace), Targets(v1.trace), Addr(s0, SlotOf(i, bn)), Addr(s1, SlotOf(i, bn));
       && l1 <= l0 + CostOf(s1.geo, Addr(s1, IndPtr(i))) + (if a0 == 0 then CostOf(s1.geo, a) else {})
       && l0 <= l1 && NewLogged(s0, s1, l1, i)
       && (a0 != 0 ==> s1 == s0 && v1 == v0)
  }

  lemma BmappedRaw(s0: Fs, o0: Owner, v0: Dev, s1: Fs, o1: Owner, v1: Dev, i: nat, bn: nat)
    requires Bmapped(s0, o0, v0, s1, o1, v1, i, bn)
    requires var a := Addr(s1, SlotOf(i, bn));
             Addr(s0, SlotOf(i, bn)) == 0 && a != 0 ==> a in s1.blocks && s1.blocks[a] == ZeroBlock
    ensures Shape(s0) && Shape(s1) && s1.geo == s0.geo && i < s1.geo.ninodes
    ensures SameRaw(s0, s1) && KeepsAddrs(s0, s1) && OtherInodes(s0, s1, i) && Silent(s0, s1, i)
  {
    hide Addr, Ino, Raw, BitmapOk, Exclusive, NewLogged, Logs, LowestFirst, Targets;
    RawKept(s0, s1, o0, o1, i, SlotOf(i, bn));
  }

  lemma FullChunk(s0: Fs, o0: Owner, v0: Dev, s1: Fs, o1: Owner, v1: Dev, i: nat, pos: nat, x: seq<Byte>, copied: nat)
    requires pos / BSIZE < MAXFILE && x != [] && copied <= |x| && Bmapped(s0, o0, v0, s1, o1, v1, i, pos / BSIZE)
    requires Addr(s1, SlotOf(i, pos / BSIZE)) == 0 && forall c | 0 <= c < s1.geo.size :: Bit(s1, c)
    ensures Chunked(s0, o0, v0, s1, o1, v1, DiskFull, i, pos, x, copied)
  {
    hide Addr, Ino, Raw, Bit, BitmapOk, Exclusive, NewLogged, Logs, LowestFirst, Targets, SameRaw, KeepsAddrs;
    hide OtherInodes, Mapped, NewWithin, Overwritten, LoggedSlots, Extends;
    BmappedRaw(s0, o0, v0, s1, o1, v1, i, pos / BSIZE);
    NewInBlock(s0, o0, s1, o1, i, pos, |x|);
    SlotsLogged(s0, o0, s1, o1, Targets(v0.trace), Targets(v1.trace), i, pos / BSIZE);
  }

  lemma DoneChunk(s0: Fs, o0: Owner, v0: Dev, s1: Fs, v1: Dev, s2: Fs, o: Owner, v2: Dev, res: Chunk, i: nat, pos: nat,
                  x: seq<Byte>, copied: nat)
    requires pos / BSIZE < MAXFILE && x != [] && copied <= |x| && Bmapped(s0, o0, v0, s1, o, v1, i, pos / BSIZE)
    requires Addr(s1, SlotOf(i, pos / BSIZE)) != 0
    requires var a := Addr(s1, SlotOf(i, pos / BSIZE));
             Addr(s0, SlotOf(i, pos / BSIZE)) == 0 ==> a in s1.blocks && s1.blocks[a] == ZeroBlock
    requires Own(s2, o, {}, {}) && s2.geo == s1.geo && SameAddrs(s1, s2) && SameInodes(s1, s2)
    requires Overwritten(s1, s2, i, pos, x[..copied]) && !res.DiskFull? && (res.Written? <==> copied == |x|)
    requires var a := Addr(s1, SlotOf(i, pos / BSIZE));
             && Targets(v2.trace) == Targets(v1.trace) + (if res.Written? then {a} else {})
             && Logs(v1, v2, s1.geo.bmapstart)
             && (v1.undo == map[] ==>
                   if res.Fault? && a !in Targets(v1.trace) then Behind(s2, v2.undo) == s1 else v2.undo == map[])
    ensures Chunked(s0, o0, v0, s2, o, v2, res, i, pos, x, copied)
  {
    hide Ino, Raw, Bit, BitmapOk, Exclusive, NewLogged, Logs, LowestFirst, Targets, SameRaw;
    hide Mapped, NewWithin, Overwritten, LoggedSlots, Addr, SameAddrs, SameInodes, KeepsAddrs, OtherInodes, Extends;
    var bn, l0, l1, l2 := pos / BSIZE, Targets(v0.trace), Targets(v1.trace), Targets(v2.trace);
    BmappedRaw(s0, o0, v0, s1, o, v1, i, bn);
    SlotsLogged(s0, o0, s1, o, l0, l1, i, bn);
    SlotsMore(s1, o, l1 - l0, l2 - l0, i, bn);
    NewIsLogged(s0, s1, l1, i, bn);
    NewInBlock(s0, o0, s1, o, i, pos, |x|);
    NewSame(s0, s1, s2, l1, l2, i);
    GrewSame(s0, s1, s2, o, i, pos, |x|);
    LogsThen(v0, v1, v2, s1.geo.bmapstart, s1.geo.bmapstart, s1.geo.bmapstart);
    RawThen(s0, s1, s2, i, pos, x[..copied]);
    SameThen(s0, s1, s2, i, bn);
    if v0.undo == map[] {
      assert v1.undo == map[];
    }
  }

  lemma SameThen(s0: Fs, s1: Fs, s2: Fs, i: nat, bn: nat)
    requires Shape(s0) && Shape(s1) && Shape(s2) && s1.geo == s0.geo && s2.geo == s0.geo && i < s0.geo.ninodes
    requires bn < MAXFILE && KeepsAddrs(s0, s1) && OtherInodes(s0, s1, i) && SameAddrs(s1, s2) && SameInodes(s1, s2)
    ensures KeepsAddrs(s0, s2) && OtherInodes(s0, s2, i)
    ensures Addr(s2, SlotOf(i, bn)) == Addr(s1, SlotOf(i, bn)) && Addr(s2, IndPtr(i)) == Addr(s1, IndPtr(i))
  {
    hide Addr, Ino;
    assert ValidSlot(s0.geo, SlotOf(i, bn)) && ValidSlot(s0.geo, IndPtr(i));
  }

  /** What the loop of writei has done after `tot` bytes, all of them whole blocks. */
  ghost predicate Turning(s0: Fs, v0: Dev, s: Fs, owner: Owner, v: Dev, spent: Spent, i: nat, off: nat,
                          src: seq<Byte>, tot: nat)
  {
    && Shape(s0) && Shape(s) && s.geo == s0.geo && i < s.geo.ninodes && i in s0.itable && i in s.itable && tot <= |src|
    && s.itable == s0.itable[i := s0.itable[i].(addrs := s.itable[i].addrs)]
    && (tot == 0 || tot == |src| || (off + tot) % BSIZE == 0)
    && Wrote(s0, s, i, off, src[..tot], tot)
    && SpentOn(s.geo, Targets(v0.trace), Targets(v.trace), spent, Addr(s, IndPtr(i)), off, tot)
    && Recorded(s0, s, Targets(v0.trace), Targets(v.trace), i, off, tot)
    && Logs(v0, v, s.geo.bmapstart) && Grew(s0, s, i, off, |src|)
    && v0.bufs == s0.blocks && v.bufs == s.blocks && Targets(v0.trace) <= Targets(v.trace)
    && (v0.undo == map[] ==>
          v.undo == map[] && DurableTo(s0, Behind(s, v.undo), Targets(v0.trace), i, off, src, tot, tot))
    && (tot < |src| ==>
          LoggedSlots(s.geo, owner, Targets(v.trace) - Targets(v0.trace), i, (off + tot) / BSIZE))
  }

  lemma TurningStart(s: Fs, owner: Owner, v: Dev, i: nat, off: nat, src: seq<Byte>)
    requires Shape(s) && i < s.geo.ninodes && i in s.itable && NoHoles(s, i) && off <= s.itable[i].size
    requires v.bufs == s.blocks
    ensures Turning(s, v, s, owner, v, Spent({}, {}), i, off, src, 0)
  {
    hide Addr, NoHoles, Wrote, SpentOn, Recorded, Logs, Grew, DurableTo, LoggedSlots, Targets;
    WroteStart(s, i, off, src);
    SpentStart(s.geo, Targets(v.trace), Addr(s, IndPtr(i)), off);
    RecordedStart(s, Targets(v.trace), i, off);
    LogsNone(v, s.geo.bmapstart);
    GrewStart(s, i, off, |src|);
    NothingTorn(s);
    DurableStart(s, Targets(v.trace), i, off, src);
    NoneLogged(s.geo, owner, Targets(v.trace), i, off / BSIZE);
  }

  lemma TurningFacts(s0: Fs, v0: Dev, s: Fs, owner: Owner, v: Dev, spent: Spent, i: nat, off: nat, src: seq<Byte>,
                     tot: nat)
    requires Turning(s0, v0, s, owner, v, spent, i, off, src, tot)
    ensures i in s.itable
  {
    hide Wrote, SpentOn, Recorded, Logs, Grew, DurableTo, LoggedSlots, Targets, Shape;
  }

  lemma TurnedAll(s0: Fs, v0: Dev, s: Fs, owner: Owner, v: Dev, spent: Spent, i: nat, off: nat, src: seq<Byte>,
                  readable: nat)
    requires Turning(s0, v0, s, owner, v, spent, i, off, src, |src|) && |src| <= readable
    ensures Looped(s0, v0, s, v, i, off, src, readable, |src|, |src|)
  {
    hide Wrote, SpentOn, Recorded, Logs, Grew, DurableTo, LoggedSlots, Targets, Shape, LogsWithin, TouchCost, Addr;
    SpentEnd(s.geo, Targets(v0.trace), Targets(v.trace), spent, Addr(s, IndPtr(i)), off, |src|, |src|);
  }

  lemma LoopedFacts(s0: Fs, v0: Dev, s: Fs, v: Dev, i: nat, off: nat, src: seq<Byte>, readable: nat, tot: nat, w: nat)
    requires Looped(s0, v0, s, v, i, off, src, readable, tot, w)
    ensures i in s0.itable && i in s.itable && s.itable == s0.itable[i := s.itable[i]]
    ensures s.itable[i].size == s0.itable[i].size && tot <= |src|
  {
    hide Wrote, Recorded, Logs, Grew, DurableTo, Targets, Shape, LogsWithin, Stops;
  }

  /** One more turn: the loop goes on, or this is where it stops. */
  lemma TurnEnds(s0: Fs, v0: Dev, s1: Fs, o1: Owner, v1: Dev, s2: Fs, o2: Owner, v2: Dev, spent: Spent, res: Chunk,
                 i: nat,
                 off: nat, src: seq<Byte>, readable: nat, tot: nat, m: nat, copied: nat, w: nat)
    returns (spent': Spent)
    requires Turning(s0, v0, s1, o1, v1, spent, i, off, src, tot) && tot < |src| && tot <= readable
    requires m == ChunkLen(off + tot, |src| - tot) && off + |src| <= MAXFILE * BSIZE && tot + m <= |src|
    requires copied == if readable <= tot then 0 else Min(readable - tot, m)
    requires Own(s1, o1, {}, {}) && v2.bufs == s2.blocks
    requires i in s2.itable && s2.itable == s1.itable[i := s1.itable[i].(addrs := s2.itable[i].addrs)]
    requires Chunked(s1, o1, v1, s2, o2, v2, res, i, off + tot, src[tot..tot + m], copied)
    requires w == if res.Written? then tot + m else if res.Fault? then tot + copied else tot
    ensures res.Written? ==> tot + m <= readable && Turning(s0, v0, s2, o2, v2, spent', i, off, src, tot + m)
    ensures !res.Written? ==> Looped(s0, v0, s2, v2, i, off, src, readable, tot, w)
  {
    hide Own, Addr, Ino, Raw, Bit, Wrote, SpentOn, Recorded, Logs, Grew, DurableTo, LoggedSlots, Targets, NewLogged;
    hide KeepsAddrs, OtherInodes, SameRaw, Overwritten, Silent, LogsWithin, TouchCost, Boundary, ChunkLen;
    var pos, l0, l1, l2 := off + tot, Targets(v0.trace), Targets(v1.trace), Targets(v2.trace);
    ChunkFacts(pos, |src| - tot);
    FirstIsThere(s0, s1, i, off, src[..tot], tot);
    LogsThen(v0, v1, v2, s1.geo.bmapstart, s1.geo.bmapstart, s1.geo.bmapstart);
    GrewTurn(s0, s1, s2, i, off, tot, m, |src|);
    PointerKept(s1, s2, i);
    spent' := SpentTurn(s1.geo, l0, l1, l2, spent, Addr(s1, IndPtr(i)), Addr(s2, IndPtr(i)),
                        Addr(s1, SlotOf(i, pos / BSIZE)), Addr(s2, SlotOf(i, pos / BSIZE)), off, tot, m);
    TurnWrote(s0, s1, s2, res, i, off, src, tot, m, copied, w);
    if v0.undo == map[] {
      NothingTorn(s2);
      TurnDurable(s0, l0, s1, o1, l1, s2, Behind(s2, v2.undo), res, i, off, src, tot, m, w);
    }
    if res.Written? {
      if tot + m < |src| {
        SlotsTurn(s1.geo, o1, o2, l0, l1, l2, i, pos, (pos + m) / BSIZE);
      }
      RecordedTurn(s0, s1, s2, l0, l1, l2, i, off, tot, m);
    } else {
      SpentEnd(s1.geo, l0, l2, spent', Addr(s2, IndPtr(i)), off, tot + m, |src|);
      if res.Fault? {
        BoundaryIs(off, tot, m, readable);
      }
    }
  }

  lemma PointerKept(s: Fs, s': Fs, i: nat)
    requires Shape(s) && Shape(s') && s'.geo == s.geo && i < s.geo.ninodes && KeepsAddrs(s, s')
    ensures Addr(s, IndPtr(i)) != 0 ==> Addr(s', IndPtr(i)) == Addr(s, IndPtr(i))
  {
    hide Addr;
    assert ValidSlot(s.geo, IndPtr(i));
  }

  lemma TurnWrote(s0: Fs, s1: Fs, s2: Fs, res: Chunk, i: nat, off: nat, src: seq<Byte>, tot: nat, m: nat,
                  copied: nat, w: nat)
    requires tot + m <= |src| && copied <= m && Wrote(s0, s1, i, off, src[..tot], tot)
    requires Shape(s1) && Shape(s2) && s2.geo == s1.geo && i < s1.geo.ninodes && KeepsAddrs(s1, s2)
    requires OtherInodes(s1, s2, i)
    requires (off + tot) % BSIZE + m <= BSIZE && (off + tot) / BSIZE < MAXFILE
    requires res.DiskFull? ==> SameRaw(s1, s2)
    requires !res.DiskFull? ==>
               && Addr(s2, SlotOf(i, (off + tot) / BSIZE)) != 0
               && Overwritten(s1, s2, i, off + tot, src[tot..tot + m][..copied]) && (res.Written? <==> copied == m)
    requires w == if res.Written? then tot + m else if res.Fault? then tot + copied else tot
    ensures Wrote(s0, s2, i, off, src[..w], if res.Written? then tot + m else tot)
  {
    hide Addr, Ino, Raw, Wrote, KeepsAddrs, OtherInodes, SameRaw, Overwritten, Shape;
    var x := src[tot..tot + m];
    match res {
      case Written =>
        assert x[..copied] == x && src[..tot] + x == src[..tot + m];
        WroteTurn(s0, s1, s2, i, off, src[..tot], x, tot);
      case Fault =>
        assert src[..tot] + x[..copied] == src[..w];
        WrotePart(s0, s1, s2, i, off, src[..tot], x[..copied], tot);
      case DiskFull =>
        WroteNothing(s0, s1, s2, i, off, src[..tot], tot);
    }
  }

  /** The block that a write enters part-way is there before the write. */
  lemma FirstIsThere(s0: Fs, s1: Fs, i: nat, off: nat, x: seq<Byte>, t: nat)
    requires Wrote(s0, s1, i, off, x, t)
    ensures off % BSIZE != 0 && t == 0 && off / BSIZE < MAXFILE ==> Addr(s1, SlotOf(i, off / BSIZE)) != 0
  {
    hide Addr, Ino, Overwritten;
  }

  lemma SameOwnerSameBits(s: Fs, s': Fs, owner: Owner)
    requires Own(s, owner, {}, {}) && Own(s', owner, {}, {}) && s'.geo == s.geo
    ensures (forall c | 0 <= c < s.geo.size :: Bit(s, c)) ==> forall c | 0 <= c < s.geo.size :: Bit(s', c)
  {
    hide Exclusive, Bit;
  }

  lemma RawFromAddrs(s: Fs, s': Fs, owner: Owner)
    requires Own(s, owner, {}, {}) && Shape(s') && s'.geo == s.geo && SameAddrs(s, s')
    requires forall c :: DataStart(s.geo) <= c < s.geo.size ==>
               c in s.blocks && c in s'.blocks && s'.blocks[c] == s.blocks[c]
    ensures SameRaw(s, s')
  {
    hide Exclusive, BitmapOk, Addr;
    forall j, pos | 0 <= j < s.geo.ninodes && 0 <= pos < MAXFILE * BSIZE ensures Raw(s', j, pos) == Raw(s, j, pos) {
      var y := SlotOf(j, pos / BSIZE);
      assert ValidSlot(s.geo, y);
      if Addr(s, y) != 0 { SlotIsOwned(s, owner, y); }
    }
  }

  /** Setting the size and flushing the inode after the loop. */
  lemma Grown(s0: Fs, s1: Fs, s3: Fs, owner: Owner, i: nat, off: nat, x: seq<Byte>, t: nat, size: Word)
    requires Wrote(s0, s1, i, off, x, t) && Own(s1, owner, {}, {})
    requires i in s0.itable && i in s1.itable && s1.itable == s0.itable[i := s0.itable[i].(addrs := s1.itable[i].addrs)]
    requires NoHoles(s0, i) && off <= s0.itable[i].size && off + t <= MAXFILE * BSIZE
    requires size == Max(s0.itable[i].size, off + t)
    requires Shape(s3) && s3.geo == s1.geo && s3.itable == Resized(s1, i, size).itable
    requires SameAddrs(s1, s3) && SameInodes(Resized(s1, i, size), s3)
    requires forall c :: DataStart(s1.geo) <= c < s1.geo.size ==>
               c in s1.blocks && c in s3.blocks && s3.blocks[c] == s1.blocks[c]
    ensures NoHoles(s3, i) && Ino(s3, i).size == size && Ino(s3, i) == s3.itable[i]
    ensures Ino(s0, i) == s0.itable[i] && Ino(s0, i).size <= MAXFILE * BSIZE
    ensures KeepsAddrs(s0, s3) && OtherInodes(s0, s3, i) && Overwritten(s0, s3, i, off, x)
  {
    hide Addr, Raw, GetInode, Exclusive, BitmapOk;
    RawFromAddrs(s1, s3, owner);
    OthersKeep(s1, Resized(s1, i, size), i);
    assert Overwritten(s0, s3, i, off, x);
    forall bn | 0 <= bn < MAXFILE && bn * BSIZE < size ensures Addr(s3, SlotOf(i, bn)) != 0 {
      assert ValidSlot(s0.geo, SlotOf(i, bn));
      if bn * BSIZE >= s0.itable[i].size {
        assert off / BSIZE <= bn;
      }
    }
  }

  /** What writei has done. */
  ghost predicate Updated(s0: Fs, v0: Dev, s: Fs, v: Dev, i: nat, off: nat, src: seq<Byte>, readable: nat, tot: nat,
                          w: nat)
  {
    && Shape(s0) && Shape(s) && s.geo == s0.geo && i < s.geo.ninodes && i in s0.itable && i in s.itable
    && s.itable == s0.itable[i := s.itable[i]]
    && tot <= w <= |src|
    && (Stops(off, |src|, readable, tot, w) || (tot == w && forall c | 0 <= c < s.geo.size :: Bit(s, c)))
    && Ino(s, i).size == Max(s0.itable[i].size, off + tot)
    && InodeOf(s, i) == Ino(s, i) && NoHoles(s, i)
    && KeepsAddrs(s0, s) && OtherInodes(s0, s, i)
    && Overwritten(s0, s, i, off, src[..w])
    && (tot == |src| ==> && Ino(s0, i).size <= MAXFILE * BSIZE && off <= Ino(s0, i).size
                         && Content(s, i) == Splice(Content(s0, i), off, src)
                         && Recorded(s0, s, Targets(v0.trace), Targets(v.trace), i, off, |src|))
    && LogsWithin(Targets(v0.trace), Targets(v.trace), TouchCost(off, |src|) + 1)
    && IBlock(s.geo, i) in Targets(v.trace)
    && Logs(v0, v, s.geo.inodestart) && Grew(s0, s, i, off, |src|)
    && UpdatedDisk(s0, v0, s, v, i, off, src, tot, w)
  }

  /** What writei has done to the disk behind the buffers. */
  ghost predicate UpdatedDisk(s0: Fs, v0: Dev, s: Fs, v: Dev, i: nat, off: nat, src: seq<Byte>, tot: nat, w: nat)
    requires Shape(s0) && Shape(s) && s.geo == s0.geo && i < s.geo.ninodes && tot <= w <= |src|
  {
    && (v0.undo == map[] ==>
          && Shape(Behind(s, v.undo))
          && Visible(s0, Behind(s, v.undo), i, off, src[..Settled(s0, Targets(v0.trace), i, off, tot, w)]))
    && (v0.undo == map[] && tot == |src| ==> v.undo == map[])
    && (OnDisk(s0) ==> OnDisk(s))
  }

  /** What the loop of writei has done. */
  ghost predicate Looped(s0: Fs, v0: Dev, s: Fs, v: Dev, i: nat, off: nat, src: seq<Byte>, readable: nat, tot: nat,
                         w: nat)
  {
    && Shape(s0) && Shape(s) && s.geo == s0.geo && i < s.geo.ninodes && i in s0.itable && i in s.itable
    && s.itable == s0.itable[i := s0.itable[i].(addrs := s.itable[i].addrs)]
    && tot <= w <= |src|
    && (Stops(off, |src|, readable, tot, w) || (tot == w && forall c | 0 <= c < s.geo.size :: Bit(s, c)))
    && Wrote(s0, s, i, off, src[..w], tot)
    && (tot == |src| ==> Recorded(s0, s, Targets(v0.trace), Targets(v.trace), i, off, |src|))
    && LogsWithin(Targets(v0.trace), Targets(v.trace), TouchCost(off, |src|))
    && Logs(v0, v, s.geo.bmapstart) && Grew(s0, s, i, off, |src|)
    && (v0.undo == map[] ==> DurableTo(s0, Behind(s, v.undo), Targets(v0.trace), i, off, src, tot, w))
    && (v0.undo == map[] && tot == |src| ==> v.undo == map[])
    && v0.bufs == s0.blocks && v.bufs == s.blocks
  }

  /** The last lines of writei: inode i of s1 gets its size and is written back, giving s3. */
  ghost predicate SizeSet(s1: Fs, v1: Dev, s3: Fs, v3: Dev, i: nat, size: Word) {
    && Shape(s1) && i < s1.geo.ninodes && i in s1.itable
    && s3 == Flushed(Resized(s1, i, size), i) && Shape(s3) && s3.geo == s1.geo
    && s3.itable == Resized(s1, i, size).itable
    && SameAddrs(s1, s3) && SameInodes(Resized(s1, i, size), s3) && InodeOf(s3, i) == s3.itable[i]
    && (forall c :: DataStart(s1.geo) <= c < s1.geo.size ==>
          c in s1.blocks && c in s3.blocks && s3.blocks[c] == s1.blocks[c])
    && Targets(v3.trace) == Targets(v1.trace) + {IBlock(s1.geo, i)} && v3.undo == v1.undo
    && Logs(v1, v3, s1.geo.inodestart)
  }

  /** The loop, then the last lines. */
  lemma Finished(s0: Fs, v0: Dev, o0: Owner, s1: Fs, v1: Dev, s3: Fs, v3: Dev, owner: Owner, i: nat, off: nat,
                 src: seq<Byte>, readable: nat, t: nat, w: nat, size: Word)
    requires Looped(s0, v0, s1, v1, i, off, src, readable, t, w) && SizeSet(s1, v1, s3, v3, i, size)
    requires Own(s1, owner, {}, {}) && Own(s3, owner, {}, {}) && Torn(s0, o0, v0.undo) && Torn(s1, owner, v1.undo)
    requires NoHoles(s0, i) && off <= s0.itable[i].size && off + |src| <= MAXFILE * BSIZE
    requires size == Max(s0.itable[i].size, off + t)
    ensures Updated(s0, v0, s3, v3, i, off, src, readable, t, w)
  {
    hide Exclusive, BitmapOk, Bit, Addr, Ino, Raw, Wrote, NoHoles, Content, SameAddrs, KeepsAddrs, OtherInodes;
    hide Overwritten, Splice, Grew, SameInodes, Recorded, LogsWithin, Logs, OnDisk, Stops, Flushed, TouchCost, Targets;
    WroteShape(s0, s1, i, off, src[..w], t);
    Grown(s0, s1, s3, owner, i, off, src[..w], t, size);
    SameOwnerSameBits(s1, s3, owner);
    GrewSame(s0, s1, s3, owner, i, off, |src|);
    LogsThen(v0, v1, v3, s0.geo.bmapstart, s0.geo.inodestart, s0.geo.inodestart);
    OneMore(Targets(v0.trace), Targets(v1.trace), Targets(v3.trace), TouchCost(off, |src|), IBlock(s1.geo, i));
    if t == |src| {
      assert src[..w] == src;
      Spliced(s0, s3, i, off, src);
      RecordedSame(s0, s1, s3, Targets(v0.trace), Targets(v1.trace), Targets(v3.trace), i, off, |src|);
    }
    FinishedDisk(s0, v0, o0, s1, v1, s3, v3, owner, i, off, src, readable, t, w, size);
  }

  lemma FinishedDisk(s0: Fs, v0: Dev, o0: Owner, s1: Fs, v1: Dev, s3: Fs, v3: Dev, owner: Owner, i: nat, off: nat,
                     src: seq<Byte>, readable: nat, t: nat, w: nat, size: Word)
    requires Looped(s0, v0, s1, v1, i, off, src, readable, t, w) && SizeSet(s1, v1, s3, v3, i, size)
    requires Own(s1, owner, {}, {}) && Torn(s0, o0, v0.undo) && Torn(s1, owner, v1.undo)
    requires NoHoles(s0, i) && off <= s0.itable[i].size && off + |src| <= MAXFILE * BSIZE
    requires size == Max(s0.itable[i].size, off + t)
    ensures UpdatedDisk(s0, v0, s3, v3, i, off, src, t, w)
  {
    hide Own, Wrote, NoHoles, Grew, SameAddrs, SameInodes, Recorded, LogsWithin, Logs, OnDisk, Stops, Flushed;
    hide TouchCost, Targets, Visible, DurableTo, InodeOf, Shape, Bit, Resized;
    if v0.undo == map[] {
      DurableGrown(s0, Targets(v0.trace), s1, s3, owner, v1.undo, i, off, src, t, w, size);
    }
    if OnDisk(s0) {
      ResizedIs(s1, i, size);
      OnDiskAfter(s0, v0, s1, v1, Resized(s1, i, size), s3, i);
    }
  }

  lemma ResizedIs(s: Fs, i: nat, size: Word)
    requires Shape(s) && i in s.itable
    ensures var s' := Resized(s, i, size);
            Shape(s') && i in s'.itable && s' == s.(itable := s.itable[i := s'.itable[i]])
  {
  }

  /** The same for the blocks behind the buffers. */
  lemma DurableGrown(s0: Fs, l: set<nat>, s1: Fs, s3: Fs, owner: Owner, undo: Disk, i: nat, off: nat, src: seq<Byte>,
                     t: nat, w: nat, size: Word)
    requires t <= w <= |src| && Own(s1, owner, {}, {}) && Torn(s1, owner, undo)
    requires DurableTo(s0, Behind(s1, undo), l, i, off, src, t, w) && Shape(s0) && s0.geo == s1.geo
    requires i < s0.geo.ninodes
    requires i in s0.itable && i in s1.itable && s1.itable == s0.itable[i := s0.itable[i].(addrs := s1.itable[i].addrs)]
    requires NoHoles(s0, i) && off <= s0.itable[i].size && off + |src| <= MAXFILE * BSIZE
    requires size == Max(s0.itable[i].size, off + t)
    requires s3 == Flushed(Resized(s1, i, size), i)
    ensures Shape(Behind(s3, undo)) && Visible(s0, Behind(s3, undo), i, off, src[..Settled(s0, l, i, off, t, w)])
  {
    hide Exclusive, BitmapOk, Addr, Raw, GetInode, PutInode, NoHoles, Overwritten, KeepsAddrs, OtherInodes, Present;
    hide Visible, PinnedAt, LooseAt, Ino;
    var d :| t <= d <= |src| && Wrote(s0, Behind(s1, undo), i, off, src[..d], t) && Reaches(s0, l, i, off + t, t, w, d);
    var b1, b2 := Behind(s1, undo), Resized(Behind(s1, undo), i, size);
    BehindOwn(s1, owner, undo);
    SizeKeeps(b1, owner, i, size);
    FlushKeeps(b2, owner, {}, {}, i);
    IBlockBelow(s1.geo, i);
    assert Behind(s3, undo).blocks == Flushed(b2, i).blocks;
    Grown(s0, b1, Flushed(b2, i), owner, i, off, src[..d], t, size);
    VisibleUpTo(s0, l, Flushed(b2, i), i, off, src, t, w, d);
    assert Behind(s3, undo) == Flushed(b2, i);
  }

  /** As far as the files reach, file i has the bytes x at position off; all other bytes of all files are as before. */
  ghost predicate Visible(s: Fs, s': Fs, i: nat, off: nat, x: seq<Byte>)
    requires Shape(s) && Shape(s') && s'.geo == s.geo
  {
    forall j, p | 0 <= j < s.geo.ninodes && 0 <= p < MAXFILE * BSIZE :: p < Ino(s', j).size ==>
      Raw(s', j, p) == if j == i && off <= p < off + |x| then x[p - off] else Raw(s, j, p)
  }

  lemma VisibleUpTo(s: Fs, l: set<nat>, s': Fs, i: nat, off: nat, src: seq<Byte>, t: nat, w: nat, d: nat)
    requires Shape(s) && Shape(s') && s'.geo == s.geo && i < s.geo.ninodes && i in s.itable && NoHoles(s, i)
    requires t <= d <= |src| && t <= w <= |src| && off + |src| <= MAXFILE * BSIZE
    requires Overwritten(s, s', i, off, src[..d]) && Reaches(s, l, i, off + t, t, w, d)
    requires Ino(s', i).size == Max(s.itable[i].size, off + t)
    ensures Visible(s, s', i, off, src[..Settled(s, l, i, off, t, w)])
  {
    hide Raw, Addr, GetInode;
    if d > t && !PinnedAt(s, l, i, off + t) {
      var bn := (off + t) / BSIZE;
      assert bn * BSIZE >= s.itable[i].size && bn * BSIZE <= off + t;
    }
  }

  /** The inode table still copies the disk once inode i has been written back. */
  lemma OnDiskAfter(s0: Fs, v0: Dev, s1: Fs, v1: Dev, s2: Fs, s3: Fs, i: nat)
    requires Shape(s0) && OnDisk(s0) && Shape(s1) && s1.geo == s0.geo && i in s1.itable && i < s1.geo.ninodes
    requires v0.bufs == s0.blocks && v1.bufs == s1.blocks && Logs(v0, v1, s0.geo.bmapstart)
    requires (forall b :: b in v0.undo ==> DataStart(s0.geo) <= b)
    requires forall b :: b in v1.undo ==> DataStart(s0.geo) <= b
    requires s1.itable == s0.itable[i := s1.itable[i]]
    requires i in s2.itable && s2 == s1.(itable := s1.itable[i := s2.itable[i]]) && Shape(s2) && s3 == Flushed(s2, i)
    ensures Shape(s3) && OnDisk(s3)
  {
    hide GetInode, PutInode, Logs;
    var t := IBlock(s0.geo, i);
    IBlockBelow(s0.geo, i);
    forall j | j in s3.itable ensures j < s3.geo.ninodes && InodeOf(s3, j) == s3.itable[j] {
      IBlockBelow(s0.geo, j);
      InodesUnder(v0, v1, s0.geo.bmapstart, IBlock(s0.geo, j));
      GetPutInode(s2.blocks[t], i % IPB, s2.itable[i], j % IPB);
      SameInodePlace(i, j);
    }
  }

  function Max(a: nat, b: nat): (m: nat) { if a < b then b else a }

  /** c with x written over it from position off on. */
  function Splice(c: seq<Byte>, off: nat, x: seq<Byte>): (r: seq<Byte>)
    requires off <= |c|
  {
    c[..off] + x + if off + |x| < |c| then c[off + |x|..] else []
  }

  lemma Spliced(s: Fs, s': Fs, i: nat, off: nat, x: seq<Byte>)
    requires Shape(s) && Shape(s') && s'.geo == s.geo && i < s.geo.ninodes
    requires Overwritten(s, s', i, off, x)
    requires Ino(s, i).size <= MAXFILE * BSIZE && off <= Ino(s, i).size && off + |x| <= MAXFILE * BSIZE
    requires Ino(s', i).size == Max(Ino(s, i).size, off + |x|)
    ensures Content(s', i) == Splice(Content(s, i), off, x)
  {
    hide Raw, Ino;
    var l, r := Content(s', i), Splice(Content(s, i), off, x);
    forall p | 0 <= p < |l| ensures l[p] == r[p] {
    }
  }

  /** A write to file i leaves the contents of every other file alone. */
  lemma OtherContent(s: Fs, s': Fs, i: nat, off: nat, x: seq<Byte>, j: nat)
    requires Shape(s) && Shape(s') && s'.geo == s.geo && i < s.geo.ninodes && j < s.geo.ninodes && j != i
    requires OtherInodes(s, s', i) && Overwritten(s, s', i, off, x) && Ino(s, j).size <= MAXFILE * BSIZE
    ensures Ino(s', j) == Ino(s, j) && Content(s', j) == Content(s, j)
  {
    hide Raw, Ino;
  }

  // ----- what a write allocates -----

  /** The file block behind a data slot. */
  function BlockNo(y: Slot): (bn: nat)
    requires !y.IndPtr?
  {
    if y.Direct? then y.k else NDIRECT + y.j
  }

  /** Slots filled since s0 belong to file i and to its bytes [off, off + n), or are its indirect pointer. */
  ghost predicate NewWithin(s0: Fs, s: Fs, i: nat, off: nat, n: nat)
    requires Shape(s0) && Shape(s) && s.geo == s0.geo
  {
    forall y :: ValidSlot(s.geo, y) && Addr(s0, y) == 0 && Addr(s, y) != 0 ==>
      y.i == i && (!y.IndPtr? ==> off / BSIZE <= BlockNo(y) && BlockNo(y) * BSIZE < off + n)
  }

  /** What writing n bytes at off may allocate, and in which order. */
  ghost predicate Grew(s0: Fs, s: Fs, i: nat, off: nat, n: nat) {
    && Shape(s0) && Shape(s) && s.geo == s0.geo
    && LowestFirst(s0, s) && NewWithin(s0, s, i, off, n)
  }

  lemma GrewStart(s: Fs, i: nat, off: nat, n: nat)
    requires Shape(s)
    ensures Grew(s, s, i, off, n)
  {
    hide Addr;
    LowestSelf(s);
  }

  lemma NewInBlock(s0: Fs, o0: Owner, s: Fs, o: Owner, i: nat, pos: nat, n: nat)
    requires pos / BSIZE < MAXFILE && Mapped(s0, o0, s, o, i, SlotOf(i, pos / BSIZE)) && n > 0
    ensures NewWithin(s0, s, i, pos, n)
  {
    hide Addr, Shape, OtherInodes, Extends;
    assert BlockNo(SlotOf(i, pos / BSIZE)) == pos / BSIZE;
    assert pos / BSIZE * BSIZE <= pos;
  }

  lemma GrewSame(s0: Fs, s1: Fs, s2: Fs, owner: Owner, i: nat, off: nat, n: nat)
    requires Grew(s0, s1, i, off, n) && Own(s1, owner, {}, {}) && Own(s2, owner, {}, {}) && s2.geo == s1.geo
    requires SameAddrs(s1, s2)
    ensures Grew(s0, s2, i, off, n)
  {
    hide Addr, Exclusive, Bit, LowestFirst;
    assert SameBits(s1, s2);
    LowestThenSame(s0, s1, s2);
  }

  lemma GrewTurn(s0: Fs, s1: Fs, s2: Fs, i: nat, off: nat, t: nat, m: nat, n: nat)
    requires Grew(s0, s1, i, off, n) && Grew(s1, s2, i, off + t, m) && t + m <= n
    ensures Grew(s0, s2, i, off, n)
  {
    hide Addr, LowestFirst, Shape;
    LowestThen(s0, s1, s2);
    assert off / BSIZE <= (off + t) / BSIZE;
  }

  // ----- which blocks a write logs -----

  /** What is logged is metadata, the indirect block of file i, or one of its blocks below number nb. */
  ghost predicate LoggedSlots(g: Geo, owner: Owner, l: set<nat>, i: nat, nb: nat) {
    forall b :: b in l && b >= DataStart(g) ==>
      b in owner && owner[b].i == i && (owner[b].IndPtr? || BlockNo(owner[b]) < nb)
  }

  lemma SlotsLogged(s0: Fs, o0: Owner, s: Fs, o: Owner, l0: set<nat>, l: set<nat>, i: nat, bn: nat)
    requires bn < MAXFILE && Mapped(s0, o0, s, o, i, SlotOf(i, bn)) && Own(s, o, {}, {})
    requires l <= l0 + CostOf(s.geo, Addr(s, IndPtr(i)))
                  + (if Addr(s0, SlotOf(i, bn)) == 0 then CostOf(s.geo, Addr(s, SlotOf(i, bn))) else {})
    ensures LoggedSlots(s.geo, o, l - l0, i, bn + 1) && Extends(o0, o)
  {
    hide Addr, Exclusive, BitmapOk, OtherInodes;
    if Addr(s, IndPtr(i)) != 0 {
      SlotIsOwned(s, o, IndPtr(i));
      BBlockBelow(s.geo, Addr(s, IndPtr(i)));
    }
    if Addr(s, SlotOf(i, bn)) != 0 {
      SlotIsOwned(s, o, SlotOf(i, bn));
      BBlockBelow(s.geo, Addr(s, SlotOf(i, bn)));
    }
  }

  lemma SlotsMore(s: Fs, owner: Owner, l: set<nat>, l': set<nat>, i: nat, bn: nat)
    requires Own(s, owner, {}, {}) && i < s.geo.ninodes && bn < MAXFILE && Addr(s, SlotOf(i, bn)) != 0
    requires l' <= l + {Addr(s, SlotOf(i, bn))}
    ensures LoggedSlots(s.geo, owner, l, i, bn + 1) ==> LoggedSlots(s.geo, owner, l', i, bn + 1)
  {
    hide Addr, Exclusive, BitmapOk;
    SlotIsOwned(s, owner, SlotOf(i, bn));
  }

  /** The blocks logged before a turn of the loop, and those that the turn adds. */
  lemma SlotsTurn(g: Geo, o1: Owner, o2: Owner, l0: set<nat>, l1: set<nat>, l2: set<nat>, i: nat, pos: nat, nb: nat)
    requires LoggedSlots(g, o1, l1 - l0, i, pos / BSIZE) && LoggedSlots(g, o2, l2 - l1, i, pos / BSIZE + 1)
    requires Extends(o1, o2) && nb > pos / BSIZE
    ensures LoggedSlots(g, o2, l2 - l0, i, nb)
  {
  }

  lemma NewIsLogged(s0: Fs, s: Fs, l: set<nat>, i: nat, bn: nat)
    requires Shape(s0) && Shape(s) && s.geo == s0.geo && i < s.geo.ninodes && bn < MAXFILE && NewLogged(s0, s, l, i)
    ensures var a := Addr(s, SlotOf(i, bn)); Addr(s0, SlotOf(i, bn)) == 0 && a != 0 ==> a in l
  {
    hide Addr;
    assert ValidSlot(s.geo, SlotOf(i, bn)) && SlotOf(i, bn).i == i;
  }

  /** A block of the file that lies further on and is there already has not been logged. */
  lemma NotLoggedYet(s: Fs, owner: Owner, l: set<nat>, i: nat, bn: nat)
    requires Own(s, owner, {}, {}) && i < s.geo.ninodes && bn < MAXFILE && LoggedSlots(s.geo, owner, l, i, bn)
    ensures Addr(s, SlotOf(i, bn)) != 0 ==> Addr(s, SlotOf(i, bn)) !in l
  {
    hide Addr, Exclusive, BitmapOk;
    if Addr(s, SlotOf(i, bn)) != 0 { SlotIsOwned(s, owner, SlotOf(i, bn)); }
  }

  lemma NoneLogged(g: Geo, owner: Owner, l: set<nat>, i: nat, nb: nat)
    ensures LoggedSlots(g, owner, l - l, i, nb)
  {
  }

  /** What the log and the disk hold of w bytes once the loop of writei has done t. */
  ghost predicate DurableTo(s0: Fs, b: Fs, l: set<nat>, i: nat, off: nat, src: seq<Byte>, t: nat, w: nat) {
    exists d :: t <= d <= |src| && Wrote(s0, b, i, off, src[..d], t) && Reaches(s0, l, i, off + t, t, w, d)
  }

  /** Of the block that the write stops in, nothing counts unless its buffer is pinned. */
  ghost predicate Reaches(s: Fs, l: set<nat>, i: nat, pos: nat, t: nat, w: nat, d: nat) {
    (d == t || d == w) && (PinnedAt(s, l, i, pos) ==> d == w) && (LooseAt(s, l, i, pos) ==> d == t)
  }

  /** File i has a block at position pos, and it is among the logged blocks l. */
  ghost predicate PinnedAt(s: Fs, l: set<nat>, i: nat, pos: nat) {
    && Shape(s) && i < s.geo.ninodes && pos / BSIZE < MAXFILE
    && Addr(s, SlotOf(i, pos / BSIZE)) != 0 && Addr(s, SlotOf(i, pos / BSIZE)) in l
  }

  ghost predicate LooseAt(s: Fs, l: set<nat>, i: nat, pos: nat) {
    && Shape(s) && i < s.geo.ninodes && pos / BSIZE < MAXFILE
    && Addr(s, SlotOf(i, pos / BSIZE)) != 0 && Addr(s, SlotOf(i, pos / BSIZE)) !in l
  }

  /** How many bytes of a write that returns r, and has put w bytes into the buffers, the disk ends up with:
      the bytes past r are in one block, and commit writes them if that block was in the log group before. */
  ghost function Settled(s: Fs, l: set<nat>, i: nat, off: nat, r: nat, w: nat): (d: nat) {
    if PinnedAt(s, l, i, off + r) then w else r
  }

  /** Exactly when the disk shows what writei returns and no more: either the block that the source faults in
      was not in the log group, or the bytes copied into it were there before, as far as the file reaches. */
  lemma TornOnDiskIff(s: Fs, d: Fs, l: set<nat>, i: nat, off: nat, src: seq<Byte>, readable: nat, r: nat, w: nat)
    requires Shape(s) && Shape(d) && d.geo == s.geo && i < s.geo.ninodes && off + |src| <= MAXFILE * BSIZE
    requires Stops(off, |src|, readable, r, w) && Ino(d, i).size == Max(Ino(s, i).size, off + r)
    requires Settled(s, l, i, off, r, w) <= |src| && Visible(s, d, i, off, src[..Settled(s, l, i, off, r, w)])
    ensures r <= |src|
    ensures Visible(s, d, i, off, src[..r]) <==>
              || !PinnedAt(s, l, i, off + r)
              || forall p | r <= p < Min(|src|, readable) :: off + p < Ino(s, i).size ==> src[p] == Raw(s, i, off + p)
  {
    hide Raw, Ino, PinnedAt, Boundary;
    TornIff(off, |src|, readable, r, w);
    if PinnedAt(s, l, i, off + r) && Visible(s, d, i, off, src[..r]) {
      forall p | r <= p < w && off + p < Ino(s, i).size ensures src[p] == Raw(s, i, off + p) {
        assert Raw(d, i, off + p) == src[..w][p];
      }
    }
  }

  /** A block that the file had before the loop is still the same one. */
  lemma ThereBefore(s0: Fs, s1: Fs, i: nat, off: nat, x: seq<Byte>, t: nat)
    requires Wrote(s0, s1, i, off, x, t) && (off + t) / BSIZE < MAXFILE
    ensures Shape(s0) && Shape(s1) && s0.geo == s1.geo && i < s0.geo.ninodes
    ensures var y := SlotOf(i, (off + t) / BSIZE); Addr(s0, y) != 0 ==> Addr(s1, y) == Addr(s0, y)
  {
    hide Addr, Ino, Raw, Overwritten, OtherInodes;
    assert ValidSlot(s0.geo, SlotOf(i, (off + t) / BSIZE));
  }

  // ----- how many blocks a write logs -----

  lemma OneMore(l0: set<nat>, l1: set<nat>, l2: set<nat>, n: nat, b: nat)
    requires LogsWithin(l0, l1, n) && l2 == l1 + {b}
    ensures LogsWithin(l0, l2, n + 1)
  {
    var z :| l1 <= l0 + z && |z| <= n;
    assert l2 <= l0 + (z + {b}) && |z + {b}| <= n + 1;
  }

  datatype Spent = Spent(data: set<nat>, maps: set<nat>)

  ghost predicate LogsWithin(l0: set<nat>, l: set<nat>, n: nat) {
    exists z :: l <= l0 + z && |z| <= n
  }

  /** What allocating block p logs: the block and its bitmap block. */
  function CostOf(g: Geo, p: nat): (r: set<nat>) { if p == 0 then {} else {BBlock(g, p), p} }

  ghost predicate SpentOn(g: Geo, l0: set<nat>, l: set<nat>, sp: Spent, ind: nat, off: nat, t: nat) {
    && l <= l0 + sp.data + sp.maps + CostOf(g, ind)
    && |sp.data| <= Touched(off, t) && |sp.maps| <= Fresh(off, t)
  }

  lemma SpentStart(g: Geo, l0: set<nat>, ind: nat, off: nat)
    ensures SpentOn(g, l0, l0, Spent({}, {}), ind, off, 0)
  {
  }

  lemma TouchedNext(off: nat, t: nat, m: nat)
    requires t == 0 || (off + t) % BSIZE == 0
    requires 0 < m <= BSIZE - (off + t) % BSIZE
    ensures Touched(off, t + m) == Touched(off, t) + 1
    ensures Fresh(off, t + m) == Fresh(off, t) + if off % BSIZE != 0 && t == 0 then 0 else 1
  {
  }

  lemma SpentTurn(g: Geo, l0: set<nat>, l1: set<nat>, l2: set<nat>, sp: Spent, ind1: nat, ind2: nat,
                  a1: nat, a2: nat, off: nat, t: nat, m: nat) returns (sp': Spent)
    requires SpentOn(g, l0, l1, sp, ind1, off, t)
    requires t == 0 || (off + t) % BSIZE == 0
    requires 0 < m <= BSIZE - (off + t) % BSIZE
    requires l2 <= l1 + CostOf(g, ind2) + (if a2 == 0 then {} else {a2}) + (if a1 == 0 then CostOf(g, a2) else {})
    requires ind1 != 0 ==> ind2 == ind1
    requires off % BSIZE != 0 && t == 0 ==> a1 != 0
    ensures SpentOn(g, l0, l2, sp', ind2, off, t + m)
  {
    hide BBlock, Touched, Fresh;
    TouchedNext(off, t, m);
    var d: set<nat> := if a2 == 0 then {} else {a2};
    var b: set<nat> := if a1 == 0 && a2 != 0 then {BBlock(g, a2)} else {};
    UnionSize(sp.data, d);
    UnionSize(sp.maps, b);
    sp' := Spent(sp.data + d, sp.maps + b);
    forall x | x in l2 ensures x in l0 + sp'.data + sp'.maps + CostOf(g, ind2) {
      if x !in l1 && x !in CostOf(g, ind2) && x !in d {
        assert x in CostOf(g, a2);
      }
    }
  }

  lemma UnionSize(a: set<nat>, b: set<nat>)
    ensures |a + b| <= |a| + |b|
  {
  }

  lemma TouchedGrows(off: nat, t: nat, n: nat)
    requires t <= n
    ensures Touched(off, t) <= Touched(off, n) && Fresh(off, t) <= Fresh(off, n)
  {
  }

  lemma CostSize(g: Geo, p: nat)
    ensures |CostOf(g, p)| <= 2
  {
  }

  lemma SpentEnd(g: Geo, l0: set<nat>, l: set<nat>, sp: Spent, ind: nat, off: nat, t: nat, n: nat)
    requires SpentOn(g, l0, l, sp, ind, off, t) && t <= n
    ensures LogsWithin(l0, l, TouchCost(off, n))
  {
    hide Touched, Fresh, CostOf;
    var z := sp.data + sp.maps + CostOf(g, ind);
    TouchedGrows(off, t, n);
    CostSize(g, ind);
    UnionSize(sp.data, sp.maps);
    UnionSize(sp.data + sp.maps, CostOf(g, ind));
    assert l0 + sp.data + sp.maps + CostOf(g, ind) == l0 + z;
    assert |z| <= TouchCost(off, n);
  }

  // ----- what has to be logged -----

  /** Every block that a slot of file i has come to name since s0 is logged, and so is its bitmap block. */
  ghost predicate NewLogged(s0: Fs, s: Fs, l: set<nat>, i: nat)
    requires Shape(s0) && Shape(s) && s.geo == s0.geo
  {
    forall y :: ValidSlot(s.geo, y) && y.i == i && Addr(s0, y) == 0 && Addr(s, y) != 0 ==>
        CostOf(s.geo, Addr(s, y)) <= l
  }

  lemma NewSlot(s0: Fs, o0: Owner, s: Fs, o: Owner, l: set<nat>, i: nat, x: Slot)
    requires Mapped(s0, o0, s, o, i, x) && x.i == i
    requires x != IndPtr(i) && Addr(s0, IndPtr(i)) == 0 ==> Addr(s, IndPtr(i)) == 0
    requires Addr(s0, x) == 0 && Addr(s, x) != 0 ==> CostOf(s.geo, Addr(s, x)) <= l
    ensures NewLogged(s0, s, l, i)
  {
    hide Addr, Shape, OtherInodes, Extends;
  }

  lemma NewMore(s0: Fs, s1: Fs, s2: Fs, l1: set<nat>, l2: set<nat>, i: nat, o1: Owner, o2: Owner, x: Slot)
    requires Shape(s0) && s1.geo == s0.geo && Mapped(s1, o1, s2, o2, i, x) && l1 <= l2
    requires NewLogged(s0, s1, l1, i) && NewLogged(s1, s2, l2, i)
    ensures NewLogged(s0, s2, l2, i)
  {
    hide Addr, Shape, OtherInodes, Extends;
  }

  /** A later state in which the slots name the same blocks. */
  lemma NewSame(s0: Fs, s1: Fs, s2: Fs, l1: set<nat>, l2: set<nat>, i: nat)
    requires Shape(s0) && Shape(s1) && Shape(s2) && s1.geo == s0.geo && s2.geo == s0.geo && SameAddrs(s1, s2)
    requires l1 <= l2
    requires NewLogged(s0, s1, l1, i)
    ensures NewLogged(s0, s2, l2, i)
  {
    hide Addr, Shape;
  }

  /** The blocks behind bytes [off, off + t) of file i are there and logged. */
  ghost predicate DataLogged(s: Fs, l: set<nat>, i: nat, off: nat, t: nat)
    requires Shape(s) && i < s.geo.ninodes
  {
    t > 0 ==> forall bn | 0 <= bn < MAXFILE :: off / BSIZE <= bn && bn * BSIZE < off + t ==>
      Addr(s, SlotOf(i, bn)) != 0 && Addr(s, SlotOf(i, bn)) in l
  }

  /** What writing t bytes at off has put into the log at the least: the data blocks, and every new block
      with its bitmap block. */
  ghost predicate Recorded(s0: Fs, s: Fs, l0: set<nat>, l: set<nat>, i: nat, off: nat, t: nat) {
    && Shape(s0) && Shape(s) && s.geo == s0.geo && i < s.geo.ninodes
    && l0 <= l && NewLogged(s0, s, l, i) && DataLogged(s, l, i, off, t)
  }

  lemma RecordedStart(s: Fs, l: set<nat>, i: nat, off: nat)
    requires Shape(s) && i < s.geo.ninodes
    ensures Recorded(s, s, l, l, i, off, 0)
  {
    hide Addr;
  }

  lemma RecordedTurn(s0: Fs, s1: Fs, s2: Fs, l0: set<nat>, l1: set<nat>, l2: set<nat>, i: nat, off: nat, t: nat, m: nat)
    requires Recorded(s0, s1, l0, l1, i, off, t) && Shape(s2) && s2.geo == s1.geo && KeepsAddrs(s1, s2)
    requires l1 <= l2 && NewLogged(s1, s2, l2, i) && (t == 0 || (off + t) % BSIZE == 0)
    requires (off + t) / BSIZE < MAXFILE && (off + t) % BSIZE + m <= BSIZE
    requires Addr(s2, SlotOf(i, (off + t) / BSIZE)) != 0 && Addr(s2, SlotOf(i, (off + t) / BSIZE)) in l2
    ensures Recorded(s0, s2, l0, l2, i, off, t + m)
  {
    hide Addr, Shape;
    forall bn | 0 <= bn < MAXFILE && off / BSIZE <= bn && bn * BSIZE < off + (t + m)
      ensures Addr(s2, SlotOf(i, bn)) != 0 && Addr(s2, SlotOf(i, bn)) in l2
    {
      if bn * BSIZE >= off + t || t == 0 {
        assert bn == (off + t) / BSIZE;
      } else {
        assert Addr(s1, SlotOf(i, bn)) in l1;
      }
    }
  }

  lemma RecordedSame(s0: Fs, s1: Fs, s2: Fs, l0: set<nat>, l1: set<nat>, l2: set<nat>, i: nat, off: nat, t: nat)
    requires Recorded(s0, s1, l0, l1, i, off, t) && Shape(s2) && s2.geo == s1.geo && SameAddrs(s1, s2) && l1 <= l2
    ensures Recorded(s0, s2, l0, l2, i, off, t)
  {
    hide Addr, Shape;
    NewSame(s0, s1, s2, l1, l2, i);
  }
}
