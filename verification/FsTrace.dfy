/** What the log holds of the changes fs.c makes, and what that leaves on the disk behind the buffers. The
    trace is that of the log group under way, which any number of operations may share. A buffer that is changed
    without log_write loses the change when it is recycled, unless its block is in the group already: that pins
    the buffer, and commit writes what the buffer then holds. `undo` keeps what the log or the disk holds for the
    blocks whose changes will be lost. */
module FsTrace {
  import opened Blocks
  import opened LogFormat
  import opened FsLayout
  import opened FsOwner

  datatype Dev = Dev(bufs: Disk, undo: Disk, trace: seq<Write>)

  /** The blocks without the changes that were never logged. */
  function Under(v: Dev): (d: Disk) { v.bufs + v.undo }

  ghost function Targets(trace: seq<Write>): (r: set<nat>) {
    set k | 0 <= k < |trace| :: trace[k].b
  }

  lemma TargetsNext(trace: seq<Write>, e: Write)
    ensures Targets(trace + [e]) == Targets(trace) + {e.b}
  {
    var l, r := Targets(trace + [e]), Targets(trace) + {e.b};
    forall b | b in r ensures b in l {
      if b != e.b {
        var k :| 0 <= k < |trace| && trace[k].b == b;
        assert (trace + [e])[k].b == b;
      } else {
        assert (trace + [e])[|trace|].b == b;
      }
    }
  }

  /** From v0 to v the blocks have changed by exactly the writes newly logged, all at block lo or above. */
  ghost predicate Logs(v0: Dev, v: Dev, lo: nat) {
    && v0.trace <= v.trace && v.bufs.Keys == v0.bufs.Keys
    && Under(v) == Apply(Under(v0), v.trace[|v0.trace|..])
    && forall k :: |v0.trace| <= k < |v.trace| ==> v.trace[k].b >= lo && v.trace[k].b in v0.bufs
  }

  lemma LogsNone(v: Dev, lo: nat)
    ensures Logs(v, v, lo)
  {
    assert v.trace[|v.trace|..] == [];
  }

  lemma LogsThen(v0: Dev, v1: Dev, v2: Dev, lo1: nat, lo2: nat, lo: nat)
    requires Logs(v0, v1, lo1) && Logs(v1, v2, lo2) && lo <= lo1 && lo <= lo2
    ensures Logs(v0, v2, lo)
  {
    hide Under;
    var a, b := v1.trace[|v0.trace|..], v2.trace[|v1.trace|..];
    assert v2.trace[|v0.trace|..] == a + b;
    ApplyConcat(Under(v0), a, b);
  }

  lemma LogsOne(v: Dev, b: nat, x: Block)
    requires b in v.bufs
    ensures Logs(v, Dev(v.bufs[b := x], v.undo - {b}, v.trace + [Write(b, x)]), b)
  {
    var v' := Dev(v.bufs[b := x], v.undo - {b}, v.trace + [Write(b, x)]);
    assert v'.trace[|v.trace|..] == [] + [Write(b, x)];
    ApplySnoc(Under(v), [], Write(b, x));
    assert Under(v') == Under(v)[b := x];
  }

  /** A change without log_write. */
  ghost function Unlogged(v: Dev, b: nat, x: Block): (v': Dev)
    requires b in v.bufs
  {
    if b in Targets(v.trace) then Dev(v.bufs[b := x], v.undo - {b}, v.trace + [Write(b, x)])
    else Dev(v.bufs[b := x], map[b := v.bufs[b]] + v.undo, v.trace)
  }

  lemma UnloggedUnder(v: Dev, b: nat, x: Block, lo: nat)
    requires b in v.bufs && b >= lo
    ensures b !in Targets(v.trace) ==> Under(Unlogged(v, b, x)) == Under(v)
    ensures Logs(v, Unlogged(v, b, x), lo) && Targets(Unlogged(v, b, x).trace) == Targets(v.trace)
  {
    hide Targets;
    var v' := Unlogged(v, b, x);
    if b in Targets(v.trace) {
      TargetsNext(v.trace, Write(b, x));
      assert Targets(v.trace) + {b} == Targets(v.trace);
      LogsNone(v, lo);
      LogsOne(v, b, x);
      LogsThen(v, v, v', lo, b, lo);
    } else {
      assert Under(v') == Under(v);
      assert v'.trace[|v.trace|..] == [];
    }
  }

  /** Only data blocks are ever changed without being logged. */
  ghost predicate Torn(s: Fs, owner: Owner, undo: Disk) {
    forall b :: b in undo ==> Plain(s, owner, b)
  }

  /** The same inodes over the blocks behind the buffers. */
  function Behind(s: Fs, undo: Disk): (d: Fs) { s.(blocks := s.blocks + undo) }

  lemma NothingTorn(s: Fs)
    ensures Behind(s, map[]) == s
  {
    assert s.blocks + map[] == s.blocks;
  }

  lemma BehindOwn(s: Fs, owner: Owner, undo: Disk)
    requires Own(s, owner, {}, {}) && Torn(s, owner, undo)
    ensures var d := Behind(s, undo);
            Shape(d) && Own(d, owner, {}, {}) && SameInodes(s, d) && SameAddrs(s, d) && SameBits(s, d)
  {
    hide GetInode, GetBit, GetWord, BitmapOk;
    var d := Behind(s, undo);
    forall i | 0 <= i < s.geo.ninodes ensures Ino(d, i) == Ino(s, i) { IBlockBelow(s.geo, i); }
    forall y | ValidSlot(s.geo, y) ensures Addr(d, y) == Addr(s, y) {
      if y.IndEntry? { PointerIsOwned(s, owner, {}, {}, y.i); }
    }
    forall c | 0 <= c < s.geo.size ensures Bit(d, c) == Bit(s, c) { BBlockBelow(s.geo, c); }
    OwnSame(s, d, owner, {}, {});
  }

  // ----- inodes in memory and on disk -----

  /** The inode table holds copies of the inodes on disk. */
  ghost predicate OnDisk(s: Fs)
    requires Shape(s)
  {
    forall j :: j in s.itable ==> j < s.geo.ninodes && InodeOf(s, j) == s.itable[j]
  }

  /** Inode j on disk. */
  function InodeOf(s: Fs, j: nat): (di: Dinode)
    requires Shape(s) && j < s.geo.ninodes
  {
    IBlockBelow(s.geo, j);
    GetInode(s.blocks[IBlock(s.geo, j)], j % IPB)
  }

  /** What a restart finds: the blocks alone. */
  function Image(s: Fs, undo: Disk): (d: Fs) { Behind(s, undo).(itable := map[]) }

  lemma ImageSame(s: Fs, owner: Owner, undo: Disk)
    requires Own(s, owner, {}, {}) && Torn(s, owner, undo) && OnDisk(s)
    ensures var d := Image(s, undo);
            && Shape(d) && Own(d, owner, {}, {}) && Shape(Behind(s, undo))
            && SameInodes(Behind(s, undo), d) && SameAddrs(Behind(s, undo), d) && SameRaw(Behind(s, undo), d)
            && SameInodes(s, d)
  {
    hide GetInode, GetBit, GetWord, BitmapOk, Exclusive;
    var b, d := Behind(s, undo), Image(s, undo);
    BehindOwn(s, owner, undo);
    forall i | 0 <= i < s.geo.ninodes ensures Ino(d, i) == Ino(b, i) {
      IBlockBelow(s.geo, i);
      assert i in s.itable ==> InodeOf(s, i) == s.itable[i];
    }
    BitsFromBlocks(b, d);
    OwnSame(b, d, owner, {}, {});
  }

  /** Logging blocks above the inodes leaves every inode on disk alone. */
  lemma InodesUnder(v0: Dev, v: Dev, lo: nat, b: nat)
    requires Logs(v0, v, lo) && b < lo && b in v0.bufs && b in v.bufs && b !in v0.undo && b !in v.undo
    ensures v.bufs[b] == v0.bufs[b]
  {
    ApplyElsewhere(Under(v0), v.trace[|v0.trace|..], b);
  }

  // ----- allocation order -----

  predicate SetBelow(s: Fs, a: nat)
    requires Shape(s) && a <= s.geo.size
  {
    forall c | 0 <= c < a :: Bit(s, c)
  }

  /** Bits have only been set, lowest first. */
  ghost predicate LowestFirst(s0: Fs, s: Fs)
    requires Shape(s0) && Shape(s) && s.geo == s0.geo
  {
    && (forall c | 0 <= c < s.geo.size :: Bit(s0, c) ==> Bit(s, c))
    && (forall a | 0 <= a < s.geo.size :: !Bit(s0, a) && Bit(s, a) ==> SetBelow(s, a))
  }

  lemma LowestTake(s0: Fs, s: Fs, r: nat)
    requires Shape(s0) && Shape(s) && s.geo == s0.geo && r < s.geo.size && SetBelow(s0, r)
    requires forall c | 0 <= c < s.geo.size :: Bit(s, c) == if c == r then true else Bit(s0, c)
    ensures LowestFirst(s0, s)
  {
    hide Bit;
  }

  lemma LowestThen(s0: Fs, s1: Fs, s2: Fs)
    requires Shape(s0) && Shape(s1) && Shape(s2) && s1.geo == s0.geo && s2.geo == s0.geo
    requires LowestFirst(s0, s1) && LowestFirst(s1, s2)
    ensures LowestFirst(s0, s2)
  {
    hide Bit;
  }

  lemma LowestSelf(s: Fs)
    requires Shape(s)
    ensures LowestFirst(s, s)
  {
    hide Bit;
  }

  lemma LowestThenSame(s0: Fs, s1: Fs, s2: Fs)
    requires Shape(s0) && Shape(s1) && Shape(s2) && s1.geo == s0.geo && s2.geo == s0.geo
    requires LowestFirst(s0, s1) && SameBits(s1, s2)
    ensures LowestFirst(s0, s2)
  {
    hide Bit;
  }
}
