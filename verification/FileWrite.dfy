/** filewrite in file.c: a write to an inode, split into log transactions. */
module FileWrite {
  import opened Blocks
  import opened LogFormat
  import opened FsLayout
  import opened FsOwner
  import opened FsTrace
  import opened FileSystem

  /** The most that filewrite puts into one transaction. */
  const MAXCHUNK: nat := (MAXOPBLOCKS - 1 - 1 - 2) / 2 * BSIZE

  /** Data, bitmap, indirect and inode blocks of one chunk fit one operation's share
      of the log, at every offset. */
  lemma ChunkFits(off: nat, n: nat)
    requires n <= MAXCHUNK
    ensures TouchCost(off, n) + 1 <= MAXOPBLOCKS
  {
  }

  // ----- the bound is tight -----

  /** The bitmap blocks that hold the bits of the blocks `bs`. */
  function Maps(g: Geo, bs: set<nat>): (r: set<nat>) { set b | b in bs :: BBlock(g, b) }

  /** `free` are the four lowest free blocks. */
  ghost predicate LowestFour(s: Fs, free: set<nat>)
    requires Shape(s)
  {
    && |free| == 4
    && (forall q :: q in free ==> q < s.geo.size && !Bit(s, q))
    && forall q, c | q in free && 0 <= c < q :: Bit(s, c) || c in free
  }

  /** `taken` are the blocks whose bits have been set from s0 to s. */
  ghost predicate NewBits(s0: Fs, s: Fs, taken: set<nat>)
    requires Shape(s0) && Shape(s) && s.geo == s0.geo
  {
    && (forall x :: x in taken ==> x < s.geo.size)
    && forall x | 0 <= x < s.geo.size :: x in taken <==> !Bit(s0, x) && Bit(s, x)
  }

  /** Blocks are taken lowest first, so four new blocks are the four lowest free ones. */
  lemma TookFour(s0: Fs, s: Fs, free: set<nat>, taken: set<nat>)
    requires Shape(s0) && Shape(s) && s.geo == s0.geo && LowestFirst(s0, s)
    requires LowestFour(s0, free) && NewBits(s0, s, taken) && |taken| == 4
    ensures taken == free
  {
    hide Bit;
    forall q | q in free ensures q in taken {
      if q !in taken {
        forall x | x in taken ensures x in free - {q} {
          assert SetBelow(s, x);
        }
        Smaller(taken, free - {q});
      }
    }
    assert taken == free + (taken - free);
    assert |taken| == |free| + |taken - free|;
  }

  lemma Smaller(a: set<nat>, b: set<nat>)
    requires a <= b
    ensures |a| <= |b|
  {
    assert b == a + (b - a);
  }

  /** A full chunk that starts inside block f of file i, the last present one, and reaches past the direct blocks. */
  ghost predicate Crossing(s: Fs, i: nat, off: nat)
    requires Shape(s) && i < s.geo.ninodes
  {
    var f := off / BSIZE;
    && off % BSIZE != 0 && NDIRECT - 3 <= f < NDIRECT
    && Addr(s, SlotOf(i, f)) != 0 && Addr(s, IndPtr(i)) == 0
    && Addr(s, SlotOf(i, f + 1)) == 0 && Addr(s, SlotOf(i, f + 2)) == 0 && Addr(s, SlotOf(i, f + 3)) == 0
  }

  /** The blocks it adds. */
  ghost function Added(s: Fs, i: nat, f: nat): (r: set<nat>)
    requires Shape(s) && i < s.geo.ninodes && f < NDIRECT
  {
    {Addr(s, SlotOf(i, f + 1)), Addr(s, SlotOf(i, f + 2)), Addr(s, SlotOf(i, f + 3)), Addr(s, IndPtr(i))}
  }

  lemma AddedAreNew(s0: Fs, o0: Owner, s: Fs, owner: Owner, i: nat, off: nat)
    requires Own(s0, o0, {}, {}) && Own(s, owner, {}, {}) && i < s.geo.ninodes
    requires Grew(s0, s, i, off, MAXCHUNK) && KeepsAddrs(s0, s) && Crossing(s0, i, off)
    requires 0 !in Added(s, i, off / BSIZE)
    ensures NewBits(s0, s, Added(s, i, off / BSIZE))
  {
    hide Addr, Bit, Shape, LowestFirst, Own, NewWithin, KeepsAddrs;
    var f := off / BSIZE;
    NewIsNew(s0, o0, s, owner, SlotOf(i, f + 1));
    NewIsNew(s0, o0, s, owner, SlotOf(i, f + 2));
    NewIsNew(s0, o0, s, owner, SlotOf(i, f + 3));
    NewIsNew(s0, o0, s, owner, IndPtr(i));
    forall x | 0 <= x < s.geo.size && !Bit(s0, x) && Bit(s, x) ensures x in Added(s, i, f) {
      NewSlotIs(s0, o0, s, owner, i, off, x);
    }
  }

  /** A block that a slot has come to name was free. */
  lemma NewIsNew(s0: Fs, o0: Owner, s: Fs, owner: Owner, y: Slot)
    requires Own(s0, o0, {}, {}) && Own(s, owner, {}, {}) && s.geo == s0.geo && KeepsAddrs(s0, s)
    requires ValidSlot(s.geo, y) && Addr(s0, y) == 0 && Addr(s, y) != 0
    ensures Addr(s, y) < s.geo.size && !Bit(s0, Addr(s, y)) && Bit(s, Addr(s, y))
  {
    hide Addr, Bit;
  }

  lemma NewSlotIs(s0: Fs, o0: Owner, s: Fs, owner: Owner, i: nat, off: nat, x: nat)
    requires Own(s0, o0, {}, {}) && Own(s, owner, {}, {}) && i < s.geo.ninodes
    requires Grew(s0, s, i, off, MAXCHUNK) && KeepsAddrs(s0, s) && Crossing(s0, i, off)
    requires x < s.geo.size && !Bit(s0, x) && Bit(s, x)
    ensures x in Added(s, i, off / BSIZE)
  {
    hide Addr, Bit, LowestFirst;
    var f := off / BSIZE;
    assert x in owner && x !in o0;
    var y := owner[x];
    assert ValidSlot(s.geo, y) && Addr(s, y) == x;
    assert x != 0;
    assert Addr(s0, y) == 0;
    if !y.IndPtr? {
      assert f <= BlockNo(y) <= f + 3;
      assert y == SlotOf(i, BlockNo(y));
    }
  }

  /** The bound is tight: such a chunk logs all of MAXOPBLOCKS blocks if the four lowest free blocks fall
      under four different bitmap blocks. */
  lemma ChunkIsTight(s0: Fs, o0: Owner, s: Fs, owner: Owner, l: set<nat>, i: nat, off: nat, free: set<nat>)
    requires Own(s0, o0, {}, {}) && i < s0.geo.ninodes && Crossing(s0, i, off)
    requires LowestFour(s0, free) && |Maps(s0.geo, free)| == 4
    requires Own(s, owner, {}, {}) && Grew(s0, s, i, off, MAXCHUNK) && KeepsAddrs(s0, s)
    requires Recorded(s0, s, {}, l, i, off, MAXCHUNK) && IBlock(s.geo, i) in l
    ensures |l| >= MAXOPBLOCKS
  {
    hide Addr, Shape, Exclusive, BitmapOk, BBlock, IBlock, Bit, LowestFirst, NewWithin, KeepsAddrs, LowestFour, NewBits;
    var f := off / BSIZE;
    ThereAfter(s0, s, l, i, off);
    FiveBlocks(s, owner, i, f);
    AddedAreNew(s0, o0, s, owner, i, off);
    TookFour(s0, s, free, Added(s, i, f));
    forall x | x in Added(s, i, f) + {Addr(s, SlotOf(i, f))}
      ensures IBlock(s.geo, i) < s.geo.bmapstart <= BBlock(s.geo, x) < DataStart(s.geo) <= x
    {
      Places(s, owner, i, x);
    }
    TenBlocks(l, IBlock(s.geo, i), Maps(s.geo, Added(s, i, f)), Added(s, i, f) + {Addr(s, SlotOf(i, f))},
              s.geo.bmapstart, DataStart(s.geo));
  }

  /** What such a chunk has put into the log. */
  lemma ThereAfter(s0: Fs, s: Fs, l: set<nat>, i: nat, off: nat)
    requires Recorded(s0, s, {}, l, i, off, MAXCHUNK) && Crossing(s0, i, off)
    ensures 0 !in Added(s, i, off / BSIZE) && Addr(s, SlotOf(i, off / BSIZE)) != 0
    ensures Added(s, i, off / BSIZE) + {Addr(s, SlotOf(i, off / BSIZE))} <= l
    ensures Maps(s.geo, Added(s, i, off / BSIZE)) <= l
  {
    hide Addr, Shape, BBlock;
    var f := off / BSIZE;
    var d1, d2, d3, p := Addr(s,
                              SlotOf(i,
                                     f + 1)), Addr(s, SlotOf(i, f + 2)), Addr(s, SlotOf(i, f + 3)), Addr(s, IndPtr(i));
    assert Addr(s, SlotOf(i, f)) != 0 && Addr(s, SlotOf(i, f)) in l;
    assert d1 != 0 && d2 != 0 && d3 != 0 && {d1, d2, d3} <= l;
    PointerThere(s, i, f + 3 - NDIRECT);
    assert CostOf(s.geo, d1) + CostOf(s.geo, d2) + CostOf(s.geo, d3) + CostOf(s.geo, p) <= l;
  }

  /** An entry of the indirect block is named only if there is an indirect block. */
  lemma PointerThere(s: Fs, i: nat, j: nat)
    requires Shape(s) && i < s.geo.ninodes && j < NINDIRECT && Addr(s, IndEntry(i, j)) != 0
    ensures Addr(s, IndPtr(i)) != 0
  {
  }

  lemma FiveBlocks(s: Fs, owner: Owner, i: nat, f: nat)
    requires Own(s, owner, {}, {}) && i < s.geo.ninodes && f < NDIRECT
    requires Addr(s, SlotOf(i, f)) != 0 && 0 !in Added(s, i, f)
    ensures |Added(s, i, f)| == 4 && |Added(s, i, f) + {Addr(s, SlotOf(i, f))}| == 5
    ensures forall x :: x in Added(s, i, f) + {Addr(s, SlotOf(i, f))} ==> x in owner
  {
    hide Addr, Shape, BitmapOk;
    assert Added(s, i, f) !! {Addr(s, SlotOf(i, f))};
  }

  lemma Places(s: Fs, owner: Owner, i: nat, d: nat)
    requires Own(s, owner, {}, {}) && i < s.geo.ninodes && d in owner
    ensures IBlock(s.geo, i) < s.geo.bmapstart <= BBlock(s.geo, d) < DataStart(s.geo) <= d
  {
    hide Addr, Exclusive, BitmapOk;
    IBlockBelow(s.geo, i);
    BBlockBelow(s.geo, d);
  }

  lemma TenBlocks(l: set<nat>, x: nat, maps: set<nat>, data: set<nat>, m: nat, d: nat)
    requires x in l && maps <= l && data <= l && |maps| == 4 && |data| == 5
    requires x < m && (forall y :: y in maps ==> m <= y < d) && (forall y :: y in data ==> d <= y)
    ensures |l| >= 10
  {
    assert {x} !! maps && ({x} + maps) !! data;
    var all := {x} + maps + data;
    assert all <= l && |all| == 10;
    assert |l| == |all| + |l - all| by { assert l == all + (l - all); }
  }

  lemma WithinSize(l0: set<nat>, l: set<nat>, n: nat)
    requires LogsWithin(l0, l, n)
    ensures |l - l0| <= n
  {
    var z :| l <= l0 + z && |z| <= n;
    assert z == (l - l0) + (z - (l - l0));
    assert |z| == |l - l0| + |z - (l - l0)|;
  }

  /** The bytes that writei reports. */
  function Returned(r: int): (n: nat) { if r < 0 then 0 else r }

  class File {
    const fs: FileSys
    const inum: nat
    var off: Word
    ghost var most: nat   // the largest number of blocks that any transaction has added to its log group

    constructor (fs: FileSys, inum: nat)
      ensures this.fs == fs && this.inum == inum && off == 0 && most == 0
    {
      this.fs, this.inum, off, most := fs, inum, 0, 0;
    }

    /** One transaction: begin_op, writei, end_op. It begins a log group if `begins`, and joins the one under way
        otherwise. */
    method WriteOne(src: seq<Byte>, readable: nat, ghost begins: bool) returns (r: int, ghost w: nat)
      requires fs.Ok() && inum in fs.itable && inum < fs.geo.ninodes && NoHoles(fs.St(), inum)
      requires |src| <= MAXCHUNK && most <= MAXOPBLOCKS
      modifies this, fs
      ensures fs.Ok() && inum in fs.itable && NoHoles(fs.St(), inum)
      ensures |fs.Logged() - Targets(Group(begins, old(fs.trace)))| <= most <= MAXOPBLOCKS
      ensures r == -1 <==> old(off) > old(fs.itable)[inum].size || old(off) + |src| > MAXFILE * BSIZE
      ensures r == -1 ==> fs.St() == old(fs.St()) && fs.undo == old(fs.undo) && off == old(off) && w == 0
      ensures r != -1 ==>
                && 0 <= r <= w <= |src|
                && (Stops(old(off), |src|, readable, r, w)
                    || (r == w && forall c | 0 <= c < fs.geo.size :: Bit(fs.St(), c)))
                && off == old(off) + r
                && fs.itable[inum].size == Max(old(fs.itable)[inum].size, old(off) + r)
                && Grew(old(fs.St()), fs.St(), inum, old(off), |src|)
      ensures Overwritten(old(fs.St()), fs.St(), inum, old(off), src[..w])
      ensures KeepsAddrs(old(fs.St()), fs.St()) && OtherInodes(old(fs.St()), fs.St(), inum)
      ensures r == |src| ==>
                && Recorded(old(fs.St()), fs.St(), Targets(Group(begins, old(fs.trace))), fs.Logged(), inum, old(off),
                            |src|)
                && IBlock(fs.geo, inum) in fs.Logged()
      ensures Logs(old(fs.Dv()).(trace := Group(begins, old(fs.trace))), fs.Dv(), fs.geo.inodestart)
      ensures old(fs.undo) == map[] ==>
                && Shape(fs.Durable())
                && var l := Targets(Group(begins, old(fs.trace)));
                   var d := Settled(old(fs.St()), l, inum, old(off), Returned(r), w);
                   d <= |src| && Visible(old(fs.St()), fs.Durable(), inum, old(off), src[..d])
      ensures old(fs.undo) == map[] && r == |src| ==> fs.undo == map[]
      ensures OnDisk(old(fs.St())) ==> OnDisk(fs.St())
    {
      hide Exclusive, BitmapOk, Bit, Addr, Ino, Raw, NoHoles, LogsWithin, GetInode, Content, Splice, TouchCost, Torn;
      hide KeepsAddrs, OtherInodes, Overwritten, Visible, Recorded, Grew, OnDisk, Stops, Targets, PinnedAt, Logs;
      Unchanged(fs.St(), inum, off, src);
      MemInode(fs.St(), inum);
      fs.trace := Group(begins, fs.trace);
      ghost var t0 := fs.trace;
      LogsNone(fs.Dv(), fs.geo.inodestart);
      NothingTorn(fs.St());
      r, w := fs.Writei(inum, off, src, readable);
      if r == -1 {
        w := 0;
        return;
      }
      MemInode(fs.St(), inum);
      off := off + r;
      ChunkFits(old(off), |src|);
      WithinSize(Targets(t0), fs.Logged(), TouchCost(old(off), |src|) + 1);
      most := Max(|fs.Logged() - Targets(t0)|, most);
    }

    /** One turn of filewrite's loop. */
    method WriteNext(src: seq<Byte>, readable: nat, i: nat, n1: nat, ghost begins: bool, ghost s0: Fs, ghost off0: nat,
                     ghost disks: seq<Disk>, ghost txs: seq<seq<Write>>, ghost clean: bool)
      returns (r: int, ghost w1: nat, ghost tx: seq<Write>, ghost d1: nat)
      requires fs.Ok() && most <= MAXOPBLOCKS && Progress(s0, fs.St(), inum, off0, src, i) && off == off0 + i
      requires 0 < n1 <= MAXCHUNK && i + n1 <= |src| && i == Min(|txs| * MAXCHUNK, |src|)
      requires clean ==> Staged(s0, fs.St(), fs.undo, disks, txs, inum, off0, src, i, i) && fs.undo == map[]
      modifies this, fs
      ensures fs.Ok() && most <= MAXOPBLOCKS && inum in fs.itable && NoHoles(fs.St(), inum)
      ensures -1 <= r && Returned(r) <= w1 <= n1 && off == off0 + i + Returned(r)
      ensures Overwritten(s0, fs.St(), inum, off0, src[..i + w1])
      ensures KeepsAddrs(s0, fs.St()) && OtherInodes(s0, fs.St(), inum)
      ensures r == n1 ==> Progress(s0, fs.St(), inum, off0, src, i + n1)
      ensures s0.itable[inum].size < off0 ==> r == -1 && fs.St() == s0
      ensures clean ==> Staged(s0, fs.St(), fs.undo, disks + [fs.Durable().blocks], txs + [tx], inum, off0, src,
                               i + Returned(r), i + d1)
      ensures clean && r == n1 ==> fs.undo == map[]
      ensures Returned(r) <= d1 <= w1 && (begins ==> d1 == Returned(r) && |Targets(tx)| <= MAXOPBLOCKS)
      ensures d1 == Settled(old(fs.St()), Targets(Group(begins, old(fs.trace))), inum, off0 + i, Returned(r), w1)
    {
      hide Exclusive, BitmapOk, Bit, Addr, Ino, Raw, NoHoles, Content, Splice, Overwritten, Visible, KeepsAddrs;
      hide OtherInodes;
      hide Own, Torn, OnDisk, Stages, Grew, Recorded, Stops, Targets, Progress, Staged, Min, Logs, PinnedAt, Apply;
      ghost var s1, o1, v1 := fs.St(), fs.owner, fs.Dv().(trace := Group(begins, fs.trace));
      ProgressFacts(s0, s1, inum, off0, src, i);
      NothingTorn(s1);
      r, w1 := WriteOne(src[i..i + n1], if readable < i then 0 else readable - i, begins);
      tx := Suffix(v1, fs.Dv(), fs.geo.inodestart);
      d1 := Settled(s1, Targets(v1.trace), inum, off0 + i, Returned(r), w1);
      NonePinned(s1, inum, off0 + i + Returned(r));
      OkShape(fs);
      Chained(s0, s1, fs.St(), inum, off0, src, i, n1, w1);
      if clean {
        SubChunk(src, i, n1, d1);
        StagedNext(s0, s1, o1, fs.St(), fs.owner, fs.undo, disks, txs, tx, inum, off0, src, i, i + Returned(r), i + d1);
      }
      if r == n1 {
        ProgressNext(s0, s1, fs.St(), inum, off0, src, i, n1);
      }
    }

    /** filewrite for FD_INODE. When it returns n the whole range has been replaced;
        when it returns -1 some prefix of the data has reached the file. No
        transaction adds more than MAXOPBLOCKS blocks to the log either way. `txs` are
        the transactions, of which number k begins a log group if `begins(k)`, and `disks`
        the disks between them: each holds a whole number of chunks, the last one `kept`
        bytes, or `shown` if the source faults in a block of a group under way. */
    method Write(src: seq<Byte>, readable: nat, ghost begins: nat -> bool)
      returns (ret: int, ghost w: nat, ghost txs: seq<seq<Write>>, ghost disks: seq<Disk>, ghost kept: nat,
               ghost shown: nat)
      requires fs.Ok() && inum in fs.itable && inum < fs.geo.ninodes && NoHoles(fs.St(), inum)
      requires |src| < 0x8000_0000 && most <= MAXOPBLOCKS
      modifies this, fs
      ensures fs.Ok() && inum in fs.itable && NoHoles(fs.St(), inum) && most <= MAXOPBLOCKS
      ensures ret == |src| || ret == -1
      ensures w <= |src| && Overwritten(old(fs.St()), fs.St(), inum, old(off), src[..w])
      ensures KeepsAddrs(old(fs.St()), fs.St()) && OtherInodes(old(fs.St()), fs.St(), inum)
      ensures ret == |src| ==> w == |src| && off == old(off) + |src|
      ensures ret == |src| && src != [] ==>
                && old(off) <= old(fs.itable)[inum].size
                && Content(fs.St(), inum) == Splice(old(Content(fs.St(), inum)), old(off), src)
      ensures src != [] && old(off) > old(fs.itable)[inum].size ==> ret == -1 && fs.St() == old(fs.St())
      ensures off == old(off) + kept && kept <= shown <= w
      ensures shown > kept ==> txs != [] && !begins(|txs| - 1)
      ensures forall k | 0 <= k < |txs| :: begins(k) ==> |Targets(txs[k])| <= MAXOPBLOCKS
      ensures old(fs.undo) == map[] && OnDisk(old(fs.St())) ==>
                Staged(old(fs.St()), fs.St(), fs.undo, disks, txs, inum, old(off), src, kept, shown)
    {
      hide Exclusive, BitmapOk, Bit, Addr, Ino, Raw, NoHoles, Content, Splice, Overwritten, Visible, KeepsAddrs;
      hide OtherInodes;
      hide Own, Torn, OnDisk, Stages, Grew, Recorded, Stops, Targets, Progress, Staged, Min;
      ghost var s0, off0 := fs.St(), off;
      OkShape(fs);
      ProgressStart(s0, inum, off, src);
      NothingTorn(s0);
      var n := |src|;
      var i := 0;
      w, txs, disks, kept, shown := 0, [], [fs.blocks], 0, 0;
      MinZero(n);
      if fs.undo == map[] && OnDisk(s0) {
        StagedStart(s0, fs.owner, inum, off, src);
      }
      while i < n
        invariant 0 <= i <= n && w == i == kept == shown && off == off0 + i && i == Min(|txs| * MAXCHUNK, n)
        invariant fs.Ok() && most <= MAXOPBLOCKS && Progress(s0, fs.St(), inum, off0, src, i)
        invariant old(fs.undo) == map[] && OnDisk(s0) ==>
                    Staged(s0, fs.St(), fs.undo, disks, txs, inum, off0, src, i, i) && fs.undo == map[]
        invariant forall k | 0 <= k < |txs| :: begins(k) ==> |Targets(txs[k])| <= MAXOPBLOCKS
      {
        var n1 := Min(n - i, MAXCHUNK);
        var r;
        ghost var w1, tx, d1;
        NextChunk(|txs|, i, n);
        r, w1, tx, d1 := WriteNext(src, readable, i, n1, begins(|txs|), s0, off0, disks, txs,
                                   old(fs.undo) == map[] && OnDisk(s0));
        w, kept, shown := i + w1, i + Returned(r), i + d1;
        txs, disks := txs + [tx], disks + [fs.Durable().blocks];
        if r != n1 {
          return -1, w, txs, disks, kept, shown;
        }
        i := i + r;
      }
      ret := n;
      ProgressEnd(s0, fs.St(), inum, off0, src);
    }
  }

  /** How far filewrite has got after i bytes. */
  ghost predicate Progress(s0: Fs, s: Fs, inum: nat, off: nat, src: seq<Byte>, i: nat) {
    && Shape(s0) && Shape(s) && s.geo == s0.geo && inum < s.geo.ninodes && inum in s0.itable && inum in s.itable
    && i <= |src|
    && NoHoles(s0, inum) && NoHoles(s, inum)
    && Overwritten(s0, s, inum, off, src[..i]) && KeepsAddrs(s0, s) && OtherInodes(s0, s, inum)
    && (i == 0 ==> s == s0)
    && (i > 0 ==> && off <= s0.itable[inum].size && off + i <= MAXFILE * BSIZE
                  && s.itable[inum].size == Max(s0.itable[inum].size, off + i))
  }

  lemma ProgressStart(s: Fs, inum: nat, off: nat, src: seq<Byte>)
    requires Shape(s) && inum < s.geo.ninodes && inum in s.itable && NoHoles(s, inum)
    ensures Progress(s, s, inum, off, src, 0)
  {
    hide NoHoles, Overwritten, KeepsAddrs, OtherInodes;
    Unchanged(s, inum, off, src);
  }

  lemma ProgressFacts(s0: Fs, s: Fs, inum: nat, off: nat, src: seq<Byte>, i: nat)
    requires Progress(s0, s, inum, off, src, i)
    ensures Shape(s0) && Shape(s) && s.geo == s0.geo && inum < s.geo.ninodes && inum in s0.itable && inum in s.itable
    ensures i <= |src| && NoHoles(s, inum)
    ensures Overwritten(s0, s, inum, off, src[..i]) && KeepsAddrs(s0, s) && OtherInodes(s0, s, inum)
    ensures i == 0 ==> s == s0
    ensures i > 0 ==> off <= s0.itable[inum].size
  {
    hide NoHoles, Overwritten, KeepsAddrs, OtherInodes, Shape;
  }

  lemma ProgressNext(s0: Fs, s1: Fs, s2: Fs, inum: nat, off: nat, src: seq<Byte>, i: nat, m: nat)
    requires Progress(s0, s1, inum, off, src, i) && 0 < m && i + m <= |src|
    requires Shape(s2) && s2.geo == s1.geo && inum in s2.itable && NoHoles(s2, inum)
    requires Overwritten(s0, s2, inum, off, src[..i + m]) && KeepsAddrs(s0, s2) && OtherInodes(s0, s2, inum)
    requires off + i <= s1.itable[inum].size && off + i + m <= MAXFILE * BSIZE
    requires s2.itable[inum].size == Max(s1.itable[inum].size, off + i + m)
    ensures Progress(s0, s2, inum, off, src, i + m)
  {
    hide NoHoles, Overwritten, KeepsAddrs, OtherInodes, Shape;
  }

  lemma ProgressEnd(s0: Fs, s: Fs, inum: nat, off: nat, src: seq<Byte>)
    requires Progress(s0, s, inum, off, src, |src|)
    ensures Shape(s0) && Shape(s) && s.geo == s0.geo && inum < s.geo.ninodes && inum in s0.itable && inum in s.itable
    ensures NoHoles(s, inum) && KeepsAddrs(s0, s) && OtherInodes(s0, s, inum)
    ensures Overwritten(s0, s, inum, off, src[..|src|])
    ensures Ino(s0, inum).size <= MAXFILE * BSIZE && Ino(s, inum).size <= MAXFILE * BSIZE
    ensures src != [] ==> && off <= s0.itable[inum].size && off <= |Content(s0, inum)|
                          && Content(s, inum) == Splice(Content(s0, inum), off, src)
  {
    hide Overwritten, KeepsAddrs, OtherInodes, Shape, Splice, Raw, Addr;
    assert src[..|src|] == src;
    MemInode(s0, inum);
    MemInode(s, inum);
    if src != [] {
      Spliced(s0, s, inum, off, src);
    }
  }

  lemma MinZero(n: nat)
    ensures Min(0, n) == 0
  {
  }

  lemma NextChunk(k: nat, i: nat, n: nat)
    requires i == Min(k * MAXCHUNK, n)
    ensures i < n ==>
              0 < Min(n - i, MAXCHUNK) <= MAXCHUNK && i + Min(n - i, MAXCHUNK) == Min((k + 1) * MAXCHUNK, n) <= n
  {
    assert (k + 1) * MAXCHUNK == k * MAXCHUNK + MAXCHUNK;
  }

  lemma SubChunk(src: seq<Byte>, i: nat, m: nat, t: nat)
    requires i + m <= |src| && t <= m
    ensures src[i..i + m][..t] == src[i..i + t]
  {
  }

  lemma StagedStart(s: Fs, owner: Owner, i: nat, off: nat, src: seq<Byte>)
    requires Own(s, owner, {}, {}) && OnDisk(s) && i < s.geo.ninodes && NoHoles(s, i)
    ensures Staged(s, s, map[], [s.blocks], [], i, off, src, 0, 0)
  {
    hide Own, OnDisk, NoHoles, Stages;
    NothingTorn(s);
    OwnShape(s, owner);
    StagesStart(s, owner, i, off, src);
  }

  /** The disks so far, the last one behind state s. */
  ghost predicate Staged(s0: Fs, s: Fs, undo: Disk, disks: seq<Disk>, txs: seq<seq<Write>>, inum: nat, off: nat,
                         src: seq<Byte>, kept: nat, shown: nat)
  {
    && Shape(s) && OnDisk(s)
    && Stages(s.geo, disks, txs, inum, off, src, kept, shown) && disks[0] == s0.blocks
    && disks[|txs|] == Behind(s, undo).blocks
  }

  lemma StagedNext(s0: Fs, s1: Fs, o1: Owner, s2: Fs, o2: Owner, undo: Disk, disks: seq<Disk>, txs: seq<seq<Write>>,
                   tx: seq<Write>, i: nat, off: nat, src: seq<Byte>, t: nat, kept: nat, shown: nat)
    requires Staged(s0, s1, map[], disks, txs, i, off, src, t, t) && t == Min(|txs| * MAXCHUNK, |src|)
    requires Own(s1, o1, {}, {}) && Own(s2, o2, {}, {}) && Torn(s2, o2, undo) && Shape(s2) && s2.geo == s1.geo
    requires Shape(s1) && (OnDisk(s1) ==> OnDisk(s2)) && i < s1.geo.ninodes && i in s1.itable
    requires i in s2.itable && NoHoles(s2, i) && OtherInodes(s1, s2, i)
    requires t <= kept <= shown <= |src|
    requires Shape(Behind(s2, undo)) && Visible(s1, Behind(s2, undo), i, off + t, src[t..shown])
    requires s2.itable[i].size == if kept == t then s1.itable[i].size else Max(s1.itable[i].size, off + kept)
    requires kept > t ==> off + t <= s1.itable[i].size
    requires Behind(s2, undo).blocks == Apply(s1.blocks, tx)
    requires forall k :: 0 <= k < |tx| ==> tx[k].b >= s1.geo.inodestart && tx[k].b in s1.blocks
    ensures Staged(s0, s2, undo, disks + [Behind(s2, undo).blocks], txs + [tx], i, off, src, kept, shown)
  {
    hide Own, Torn, OnDisk, NoHoles, Visible, OtherInodes, Stages, Shape, Targets, Ino, Apply;
    NothingTorn(s1);
    MemInode(s1, i);
    MemInode(s2, i);
    assert Transaction(s1.geo, s1.blocks, tx, Behind(s2, undo).blocks);
    StagesNext(disks, txs, tx, s1, o1, s2, o2, undo, i, off, src, t, kept, shown);
    StagesLast(s1.geo, disks, txs, i, off, src, t, t);
  }

  lemma StagesLast(g: Geo, disks: seq<Disk>, txs: seq<seq<Write>>, i: nat, off: nat, src: seq<Byte>, kept: nat,
                   shown: nat)
    requires Stages(g, disks, txs, i, off, src, kept, shown)
    ensures |disks| == |txs| + 1
  {
    hide Holds, Transaction;
  }

  lemma OkShape(fs: FileSys)
    requires fs.Ok()
    ensures Shape(fs.St())
  {
  }

  /** What the log group holds when a transaction begins. */
  function Group(begins: bool, trace: seq<Write>): (r: seq<Write>) { if begins then [] else trace }

  lemma NonePinned(s: Fs, i: nat, pos: nat)
    ensures !PinnedAt(s, {}, i, pos)
  {
  }

  /** What the transaction that leads from v0 to v has added. */
  lemma Suffix(v0: Dev, v: Dev, lo: nat) returns (tx: seq<Write>)
    requires Logs(v0, v, lo)
    ensures v.trace == v0.trace + tx && Under(v) == Apply(Under(v0), tx)
    ensures forall k :: 0 <= k < |tx| ==> tx[k].b >= lo && tx[k].b in v0.bufs
    ensures v0.trace == [] ==> Targets(v0.trace) == {} && |Targets(tx)| == |Targets(v.trace) - Targets(v0.trace)|
  {
    hide Under;
    tx := v.trace[|v0.trace|..];
    assert v0.trace == [] ==> Targets(v.trace) - Targets(v0.trace) == Targets(tx);
  }

  // ----- the disks between the transactions of one write -----

  ghost predicate Consistent(s: Fs) { exists owner :: Own(s, owner, {}, {}) }

  /** Disk d is disk d0 with the bytes x in file i from off on, of which n count for its size: every other file
      and inode is as on d0, and d is a file system in which no block has two owners. */
  ghost predicate Holds(g: Geo, d0: Disk, d: Disk, i: nat, off: nat, x: seq<Byte>, n: nat) {
    var a, b := Fs(g, d0, map[]), Fs(g, d, map[]);
    && Shape(a) && Shape(b) && i < g.ninodes && Consistent(b) && NoHoles(b, i)
    && Visible(a, b, i, off, x) && OtherInodes(a, b, i) && n <= |x| && (n > 0 ==> off <= Ino(a, i).size)
    && Ino(b, i).size == if n == 0 then Ino(a, i).size else Max(Ino(a, i).size, off + n)
  }

  /** The writes of one transaction: to blocks of the disk, and not to the log itself. */
  ghost predicate Transaction(g: Geo, d: Disk, tx: seq<Write>, d': Disk) {
    d' == Apply(d, tx) && forall k :: 0 <= k < |tx| ==> tx[k].b >= g.inodestart && tx[k].b in d
  }

  ghost predicate Stages(g: Geo, disks: seq<Disk>, txs: seq<seq<Write>>, i: nat, off: nat, src: seq<Byte>, kept: nat,
                         shown: nat)
  {
    && |disks| == |txs| + 1 && kept <= shown <= |src|
    && (forall k :: 0 <= k < |txs| ==> Transaction(g, disks[k], txs[k], disks[k + 1]))
    && (forall k :: 0 <= k < |txs| ==> Whole(g, disks[0], disks[k], i, off, src, k))
    && Holds(g, disks[0], disks[|txs|], i, off, src[..shown], kept)
  }

  /** Disk d holds the first k chunks of the write. */
  ghost predicate Whole(g: Geo, d0: Disk, d: Disk, i: nat, off: nat, src: seq<Byte>, k: nat) {
    var n := Min(k * MAXCHUNK, |src|);
    Holds(g, d0, d, i, off, src[..n], n)
  }

  /** What one call of writei leaves on the disk. */
  lemma HoldsOne(s1: Fs, o1: Owner, s2: Fs, o2: Owner, undo: Disk, i: nat, off: nat, x: seq<Byte>, n: nat)
    requires Own(s1, o1, {}, {}) && OnDisk(s1) && Own(s2, o2, {}, {}) && Torn(s2, o2, undo) && OnDisk(s2)
    requires s2.geo == s1.geo
    requires i < s1.geo.ninodes && NoHoles(s2, i) && OtherInodes(s1, s2, i)
    requires Shape(Behind(s2, undo)) && Visible(s1, Behind(s2, undo), i, off, x)
    requires Ino(s2, i).size == if n == 0 then Ino(s1, i).size else Max(Ino(s1, i).size, off + n)
    requires n <= |x| && (n > 0 ==> off <= Ino(s1, i).size)
    ensures Holds(s1.geo, s1.blocks, Behind(s2, undo).blocks, i, off, x, n)
  {
    hide Addr, Ino, Raw, NoHoles, Visible, OtherInodes, SameInodes, SameAddrs, SameRaw, Shape, Own, OnDisk;
    NothingTorn(s1);
    OwnShape(s1, o1);
    OwnShape(s2, o2);
    ImageSame(s1, o1, map[]);
    ImageSame(s2, o2, undo);
    BehindOwn(s2, o2, undo);
    var a, b := Image(s1, map[]), Image(s2, undo);
    assert Consistent(b);
    assert a == Fs(s1.geo, s1.blocks, map[]) && b == Fs(s1.geo, Behind(s2, undo).blocks, map[]);
    VisibleVia(s1, a, Behind(s2, undo), b, i, off, x);
    InodesVia(s1, a, s2, b, i);
    NoHolesVia(s2, Behind(s2, undo), b, i);
  }

  lemma VisibleVia(a: Fs, a': Fs, b: Fs, b': Fs, i: nat, off: nat, x: seq<Byte>)
    requires Shape(a) && Shape(a') && Shape(b) && Shape(b') && a'.geo == a.geo && b.geo == a.geo && b'.geo == a.geo
    requires SameRaw(a, a') && SameRaw(b, b') && SameInodes(b, b') && Visible(a, b, i, off, x)
    ensures Visible(a', b', i, off, x)
  {
    hide Raw, Ino;
  }

  lemma InodesVia(a: Fs, a': Fs, b: Fs, b': Fs, i: nat)
    requires Shape(a) && Shape(a') && Shape(b) && Shape(b') && a'.geo == a.geo && b.geo == a.geo && b'.geo == a.geo
    requires SameInodes(a, a') && SameInodes(b, b') && OtherInodes(a, b, i)
    ensures OtherInodes(a', b', i) && (i < a.geo.ninodes ==> Ino(a', i) == Ino(a, i) && Ino(b', i) == Ino(b, i))
  {
    hide Ino;
  }

  lemma NoHolesVia(a: Fs, b: Fs, c: Fs, i: nat)
    requires Shape(a) && Shape(b) && Shape(c) && b.geo == a.geo && c.geo == a.geo && i < a.geo.ninodes && NoHoles(a, i)
    requires SameAddrs(a, b) && SameAddrs(b, c) && SameInodes(a, c)
    ensures NoHoles(c, i)
  {
    hide Ino, Addr;
    forall bn | 0 <= bn < MAXFILE && bn * BSIZE < Ino(c, i).size ensures Addr(c, SlotOf(i, bn)) != 0 {
      assert ValidSlot(a.geo, SlotOf(i, bn));
    }
  }

  lemma VisibleThen(a: Fs, b: Fs, c: Fs, i: nat, off: nat, x: seq<Byte>, y: seq<Byte>, m: nat)
    requires Shape(a) && Shape(b) && Shape(c) && b.geo == a.geo && c.geo == a.geo && i < a.geo.ninodes
    requires Visible(a, b, i, off, x) && Visible(b, c, i, off + |x|, y) && OtherInodes(b, c, i)
    requires x != [] ==> Ino(b, i).size >= off + |x|
    requires Ino(c, i).size == if m == 0 then Ino(b, i).size else Max(Ino(b, i).size, off + |x| + m)
    requires m <= |y| && (m > 0 ==> Ino(b, i).size >= off + |x|)
    ensures Visible(a, c, i, off, x + y)
  {
    hide Raw, Ino;
  }

  lemma HoldsThen(g: Geo, d0: Disk, d1: Disk, d2: Disk, i: nat, off: nat, x: seq<Byte>, y: seq<Byte>, m: nat)
    requires Holds(g, d0, d1, i, off, x, |x|) && Holds(g, d1, d2, i, off + |x|, y, m)
    ensures Holds(g, d0, d2, i, off, x + y, |x| + m)
  {
    hide Addr, Ino, Visible, Consistent, Shape;
    VisibleThen(Fs(g, d0, map[]), Fs(g, d1, map[]), Fs(g, d2, map[]), i, off, x, y, m);
  }

  lemma StagesStart(s: Fs, owner: Owner, i: nat, off: nat, src: seq<Byte>)
    requires Own(s, owner, {}, {}) && OnDisk(s) && i < s.geo.ninodes && NoHoles(s, i)
    ensures Stages(s.geo, [s.blocks], [], i, off, src, 0, 0)
  {
    hide Exclusive, BitmapOk, Addr, Ino, Raw, NoHoles;
    NothingTorn(s);
    Unchanged(s, i, off, src);
    HoldsOne(s, owner, s, owner, map[], i, off, src[..0], 0);
  }

  lemma StagesNext(disks: seq<Disk>, txs: seq<seq<Write>>, tx: seq<Write>, s1: Fs, o1: Owner, s2: Fs, o2: Owner,
                   undo: Disk, i: nat, off: nat, src: seq<Byte>, t: nat, kept: nat, shown: nat)
    requires Stages(s1.geo, disks, txs, i, off, src, t, t) && t == Min(|txs| * MAXCHUNK, |src|)
    requires disks[|txs|] == s1.blocks
    requires Own(s1, o1, {}, {}) && OnDisk(s1) && Own(s2, o2, {}, {}) && Torn(s2, o2, undo) && OnDisk(s2)
    requires s2.geo == s1.geo
    requires i < s1.geo.ninodes && NoHoles(s2, i) && OtherInodes(s1, s2, i) && t <= kept <= shown <= |src|
    requires Shape(Behind(s2, undo)) && Visible(s1, Behind(s2, undo), i, off + t, src[t..shown])
    requires Ino(s2, i).size == if kept == t then Ino(s1, i).size else Max(Ino(s1, i).size, off + kept)
    requires kept > t ==> off + t <= Ino(s1, i).size
    requires Transaction(s1.geo, s1.blocks, tx, Behind(s2, undo).blocks)
    ensures Stages(s1.geo, disks + [Behind(s2, undo).blocks], txs + [tx], i, off, src, kept, shown)
  {
    hide Holds, Transaction, Own, Torn, OnDisk, NoHoles, Visible, OtherInodes, Ino;
    var d := Behind(s2, undo).blocks;
    HoldsOne(s1, o1, s2, o2, undo, i, off + t, src[t..shown], kept - t);
    HoldsThen(s1.geo, disks[0], s1.blocks, d, i, off, src[..t], src[t..shown], kept - t);
    assert src[..t] + src[t..shown] == src[..shown];
    var disks', txs' := disks + [d], txs + [tx];
    assert forall k :: 0 <= k < |disks| ==> disks'[k] == disks[k];
    assert forall k :: 0 <= k < |txs| ==> txs'[k] == txs[k];
  }

  lemma Unchanged(s: Fs, i: nat, off: nat, src: seq<Byte>)
    requires Shape(s)
    ensures KeepsAddrs(s, s) && OtherInodes(s, s, i) && Overwritten(s, s, i, off, src[..0])
    ensures Visible(s, s, i, off, src[..0])
  {
    hide Addr, Ino, Raw;
  }

  lemma MemInode(s: Fs, i: nat)
    requires Shape(s) && i in s.itable && i < s.geo.ninodes
    ensures Ino(s, i) == s.itable[i]
    ensures NoHoles(s, i) ==> s.itable[i].size <= MAXFILE * BSIZE
  {
  }

  lemma Chained(s0: Fs, s1: Fs, s2: Fs, i: nat, off: nat, src: seq<Byte>, t: nat, m: nat, w: nat)
    requires Shape(s0) && Shape(s1) && Shape(s2) && s1.geo == s0.geo && s2.geo == s0.geo
    requires t + m <= |src| && w <= m
    requires KeepsAddrs(s0, s1) && OtherInodes(s0, s1, i) && Overwritten(s0, s1, i, off, src[..t])
    requires KeepsAddrs(s1, s2) && OtherInodes(s1, s2, i) && Overwritten(s1, s2, i, off + t, src[t..t + m][..w])
    ensures KeepsAddrs(s0, s2) && OtherInodes(s0, s2, i) && Overwritten(s0, s2, i, off, src[..t + w])
  {
    hide Addr, Ino, Overwritten;
    ChainOverwritten(s0, s1, s2, i, off, src[..t], src[t..t + m][..w]);
    assert src[..t] + src[t..t + m][..w] == src[..t + w];
  }
}
