/** The block cache of bio.c: a fixed pool of buffers on a doubly linked ring in
    order of last use, with reference counts, sleep locks and pins.

    Bget, Acquire, Fill, Edit, Bwrite, Releasesleep, Unref, Bpin, Bunpin and
    Publish are one atomic step each (they run under `bcache.lock`, or under the
    buffer's sleep lock), so the invariant they keep holds in every interleaving
    of processes. Bread and Brelse are such steps in a row. */
module BufferCache {
  import opened Basics
  import opened Blocks
  import opened LogFormat

  const NBUF: nat := 30
  const HEAD: nat := NBUF
  const ROOTDEV: nat := 1

  datatype Lock = Unlocked | HeldBy(pid: nat)

  /** `struct buf`. Links are indices: a buffer number, or HEAD. */
  datatype Buf = Buf(valid: bool, dev: nat, blockno: nat, lock: Lock, refcnt: nat,
                     prev: nat, next: nat, data: Block)

  /** A buffer of the zeroed `bcache`. */
  const FreshBuf := Buf(false, 0, 0, Unlocked, 0, 0, 0, ZeroBlock)

  // ----- the ring -----

  /** Position 0 and position |ring| + 1 are the list head. */
  function At(ring: seq<nat>, i: int): (b: nat)
  {
    if 1 <= i <= |ring| then ring[i - 1] else HEAD
  }

  /** The prev/next fields of `buf` spell out exactly `ring`, most recent first. */
  ghost predicate Linked(buf: seq<Buf>, ring: seq<nat>) {
    && |buf| == NBUF + 1
    && (forall i :: 0 <= i < |ring| ==> ring[i] < NBUF)
    && (forall i, j :: 0 <= i < j < |ring| ==> ring[i] != ring[j])
    && (forall i {:trigger buf[At(ring, i)].next} :: 0 <= i <= |ring| ==> buf[At(ring, i)].next == At(ring, i + 1))
    && (forall i {:trigger buf[At(ring, i)].prev} :: 1 <= i <= |ring| + 1 ==> buf[At(ring, i)].prev == At(ring, i - 1))
  }

  function Unlink(buf: seq<Buf>, b: nat): (r: seq<Buf>)
    requires |buf| == NBUF + 1 && b < NBUF && buf[b].next <= NBUF && buf[b].prev <= NBUF
  {
    var p, n := buf[b].prev, buf[b].next;
    var buf1 := buf[n := buf[n].(prev := p)];
    buf1[p := buf1[p].(next := n)]
  }

  function PushFront(buf: seq<Buf>, b: nat): (r: seq<Buf>)
    requires |buf| == NBUF + 1 && b < NBUF && buf[HEAD].next <= NBUF
  {
    var f := buf[HEAD].next;
    var buf1 := buf[b := buf[b].(next := f, prev := HEAD)];
    var buf2 := buf1[f := buf1[f].(prev := b)];
    buf2[HEAD := buf2[HEAD].(next := b)]
  }

  function Without(ring: seq<nat>, k: nat): (r: seq<nat>)
    requires k < |ring|
  {
    ring[..k] + ring[k + 1..]
  }

  lemma WithoutMembers(ring: seq<nat>, k: nat, x: nat)
    requires k < |ring|
    ensures x in ring ==> x == ring[k] || x in Without(ring, k)
  {
    if x in ring {
      var j :| 0 <= j < |ring| && ring[j] == x;
      assert j < k ==> Without(ring, k)[j] == x;
      assert j > k ==> Without(ring, k)[j - 1] == x;
    }
  }

  lemma WithoutAt(ring: seq<nat>, k: nat, i: int)
    requires k < |ring| && 0 <= i <= |ring|
    ensures At(Without(ring, k), i) == At(ring, if i <= k then i else i + 1)
  {
  }

  lemma UnlinkNext(buf: seq<Buf>, ring: seq<nat>, k: nat, i: int)
    requires Linked(buf, ring) && k < |ring|
    requires buf[ring[k]].next == At(ring, k + 2) && buf[ring[k]].prev == At(ring, k)
    requires 0 <= i < |ring|
    ensures Unlink(buf, ring[k])[At(Without(ring, k), i)].next == At(Without(ring, k), i + 1)
  {
    hide Without;
    WithoutAt(ring, k, i);
    WithoutAt(ring, k, i + 1);
    var i0 := if i <= k then i else i + 1;
    assert buf[At(ring, i0)].next == At(ring, i0 + 1);
  }

  lemma UnlinkPrev(buf: seq<Buf>, ring: seq<nat>, k: nat, i: int)
    requires Linked(buf, ring) && k < |ring|
    requires buf[ring[k]].next == At(ring, k + 2) && buf[ring[k]].prev == At(ring, k)
    requires 1 <= i <= |ring|
    ensures Unlink(buf, ring[k])[At(Without(ring, k), i)].prev == At(Without(ring, k), i - 1)
  {
    hide Without;
    WithoutAt(ring, k, i);
    WithoutAt(ring, k, i - 1);
    var i0 := if i <= k then i else i + 1;
    assert buf[At(ring, i0)].prev == At(ring, i0 - 1);
  }

  lemma UnlinkLinked(buf: seq<Buf>, ring: seq<nat>, k: nat)
    requires Linked(buf, ring) && k < |ring|
    ensures buf[ring[k]].next == At(ring, k + 2) && buf[ring[k]].prev == At(ring, k)
    ensures Linked(Unlink(buf, ring[k]), Without(ring, k))
  {
    assert buf[At(ring, k + 1)] == buf[ring[k]];
    assert buf[At(ring, k + 1)].next == At(ring, k + 2) && buf[At(ring, k + 1)].prev == At(ring, k);
    var buf', ring' := Unlink(buf, ring[k]), Without(ring, k);
    forall i | 0 <= i <= |ring'| ensures buf'[At(ring', i)].next == At(ring', i + 1) {
      UnlinkNext(buf, ring, k, i);
    }
    forall i | 1 <= i <= |ring'| + 1 ensures buf'[At(ring', i)].prev == At(ring', i - 1) {
      UnlinkPrev(buf, ring, k, i);
    }
  }

  lemma PushFrontLinked(buf: seq<Buf>, ring: seq<nat>, b: nat)
    requires Linked(buf, ring) && b < NBUF && b !in ring
    ensures buf[HEAD].next == At(ring, 1)
    ensures Linked(PushFront(buf, b), [b] + ring)
  {
    assert At(ring, 0) == HEAD;
    var buf', ring' := PushFront(buf, b), [b] + ring;
    forall i | 0 <= i <= |ring'| ensures buf'[At(ring', i)].next == At(ring', i + 1) {
      if i >= 1 {
        assert i >= 2 ==> buf[At(ring, i - 1)].next == At(ring, i);
      }
    }
    forall i | 1 <= i <= |ring'| + 1 ensures buf'[At(ring', i)].prev == At(ring', i - 1) {
      if i >= 2 {
        assert At(ring', i) == At(ring, i - 1);
        assert buf[At(ring, i - 1)].prev == At(ring, i - 2);
      }
    }
  }

  /** The relinking of brelse: unlink b, then insert it after the head. */
  lemma FrontLinked(buf: seq<Buf>, ring: seq<nat>, k: nat)
    requires Linked(buf, ring) && k < |ring|
    ensures buf[ring[k]].next <= NBUF && buf[ring[k]].prev <= NBUF
    ensures Unlink(buf, ring[k])[HEAD].next <= NBUF
    ensures Linked(PushFront(Unlink(buf, ring[k]), ring[k]), [ring[k]] + Without(ring, k))
    ensures forall x :: x in ring ==> x in [ring[k]] + Without(ring, k)
    ensures |[ring[k]] + Without(ring, k)| == |ring|
  {
    UnlinkLinked(buf, ring, k);
    PushFrontLinked(Unlink(buf, ring[k]), Without(ring, k), ring[k]);
    forall x | x in ring ensures x in [ring[k]] + Without(ring, k) {
      WithoutMembers(ring, k, x);
    }
  }

  lemma FrontKeepsData(buf: seq<Buf>, b: nat)
    requires |buf| == NBUF + 1 && b < NBUF && buf[b].next <= NBUF && buf[b].prev <= NBUF
    requires Unlink(buf, b)[HEAD].next <= NBUF
    ensures forall i :: 0 <= i < NBUF ==> SameButLinks(buf[i], PushFront(Unlink(buf, b), b)[i])
  {
  }

  /** Fields other than the links do not matter to the ring. */
  lemma LinkedIgnoresData(buf: seq<Buf>, buf': seq<Buf>, ring: seq<nat>)
    requires Linked(buf, ring) && |buf'| == |buf|
    requires forall i :: 0 <= i < |buf| ==> buf'[i].prev == buf[i].prev && buf'[i].next == buf[i].next
    ensures Linked(buf', ring)
  {
    forall i | 0 <= i <= |ring| ensures buf'[At(ring, i)].next == At(ring, i + 1) {
      assert buf[At(ring, i)].next == At(ring, i + 1);
    }
    forall i | 1 <= i <= |ring| + 1 ensures buf'[At(ring, i)].prev == At(ring, i - 1) {
      assert buf[At(ring, i)].prev == At(ring, i - 1);
    }
  }

  // ----- what the buffers hold -----

  predicate Holds(b: Buf, blockno: nat) { b.dev == ROOTDEV && b.blockno == blockno }

  predicate Cached(buf: seq<Buf>, blockno: nat)
    requires |buf| == NBUF + 1
  {
    exists i :: 0 <= i < NBUF && Holds(buf[i], blockno)
  }

  /** At most one buffer holds any block. */
  predicate Unique(buf: seq<Buf>)
    requires |buf| == NBUF + 1
  {
    forall i, j :: 0 <= i < j < NBUF && buf[i].dev == ROOTDEV && buf[j].dev == ROOTDEV ==>
      buf[i].blockno != buf[j].blockno
  }

  /** One buffer against its reference and pin counts, the disk, and the latest
      contents `cur` of every block. */
  predicate BufOk(b: Buf, refs: nat, pins: nat, disk: Disk, cur: Disk) {
    && b.refcnt == refs + pins
    && (b.dev != ROOTDEV ==> b.dev == 0 && b.refcnt == 0 && !b.valid && b.lock.Unlocked?)
    && (b.dev == ROOTDEV ==> b.blockno in disk && b.blockno in cur)
    && (b.lock.HeldBy? ==> refs >= 1)
    && (pins > 0 ==> b.valid)
    && (b.dev == ROOTDEV && (!b.valid || pins == 0) ==> disk[b.blockno] == cur[b.blockno])
    && (b.dev == ROOTDEV && b.valid && b.lock.Unlocked? ==> b.data == cur[b.blockno])
  }

  predicate Coherent(buf: seq<Buf>, refs: seq<nat>, pins: seq<nat>, disk: Disk, cur: Disk) {
    && |buf| == NBUF + 1 && |refs| == NBUF && |pins| == NBUF
    && disk.Keys == cur.Keys
    && Unique(buf)
    && (forall i :: 0 <= i < NBUF ==> BufOk(buf[i], refs[i], pins[i], disk, cur))
    && (forall b :: b in disk && !Cached(buf, b) ==> cur[b] == disk[b])
  }

  /** What a reader finds in block b: the valid buffer holding it, else the disk. */
  ghost predicate Reads(buf: seq<Buf>, disk: Disk, b: nat, data: Block)
    requires |buf| == NBUF + 1 && b in disk
  {
    (exists i :: 0 <= i < NBUF && Holds(buf[i], b) && buf[i].valid && buf[i].data == data)
    || ((forall i :: 0 <= i < NBUF && Holds(buf[i], b) ==> !buf[i].valid) && disk[b] == data)
  }

  /** Some process holds the sleep lock of the block's buffer. */
  predicate LockedBy(buf: seq<Buf>, blockno: nat)
    requires |buf| == NBUF + 1
  {
    exists i :: 0 <= i < NBUF && Holds(buf[i], blockno) && buf[i].lock.HeldBy?
  }

  lemma LockSeen(buf: seq<Buf>, refs: seq<nat>, pins: seq<nat>, disk: Disk, cur: Disk, blockno: nat, b: nat,
                 buf': seq<Buf>)
    requires Coherent(buf, refs, pins, disk, cur) && b < NBUF && |buf'| == NBUF + 1
    ensures !Cached(buf, blockno) ==> !LockedBy(buf, blockno)
    ensures Cached(buf, blockno) && Holds(buf'[b], blockno) && buf'[b] == buf[b].(refcnt := buf[b].refcnt + 1) ==>
              (LockedBy(buf, blockno) <==> buf'[b].lock.HeldBy?)
  {
    hide BufOk;
  }

  /** The cache over the disk is a plain map from block number to contents: an
      unlocked block has exactly one reading, its latest contents. */
  lemma CacheIsMap(buf: seq<Buf>, refs: seq<nat>, pins: seq<nat>, disk: Disk, cur: Disk, b: nat, data: Block)
    requires Coherent(buf, refs, pins, disk, cur) && b in disk
    requires forall i :: 0 <= i < NBUF && Holds(buf[i], b) ==> buf[i].lock.Unlocked?
    ensures Reads(buf, disk, b, data) <==> data == cur[b]
  {
    if Cached(buf, b) {
      var i :| 0 <= i < NBUF && Holds(buf[i], b);
      assert BufOk(buf[i], refs[i], pins[i], disk, cur);
      forall j | 0 <= j < NBUF && Holds(buf[j], b) ensures j == i {}
    }
  }

  // ----- steps that keep the cache coherent -----

  /** Links, and only links, may differ. */
  predicate SameButLinks(a: Buf, b: Buf) {
    a == b.(prev := a.prev, next := a.next)
  }

  lemma CoherentIgnoresLinks(buf: seq<Buf>, buf': seq<Buf>, refs: seq<nat>, pins: seq<nat>, disk: Disk, cur: Disk)
    requires Coherent(buf, refs, pins, disk, cur) && |buf'| == |buf|
    requires forall i :: 0 <= i < NBUF ==> SameButLinks(buf[i], buf'[i])
    ensures Coherent(buf', refs, pins, disk, cur)
  {
    forall b | b in disk && !Cached(buf', b) ensures cur[b] == disk[b] {
      assert forall i :: 0 <= i < NBUF ==> Holds(buf[i], b) == Holds(buf'[i], b);
    }
  }

  lemma Counted(buf: seq<Buf>, refs: seq<nat>, pins: seq<nat>, disk: Disk, cur: Disk)
    requires Coherent(buf, refs, pins, disk, cur)
    ensures |buf| == NBUF + 1 && |refs| == NBUF && |pins| == NBUF
    ensures forall i :: 0 <= i < NBUF ==> buf[i].refcnt == refs[i] + pins[i]
  {
    assert forall i :: 0 <= i < NBUF ==> BufOk(buf[i], refs[i], pins[i], disk, cur);
  }

  lemma UniqueHolder(buf: seq<Buf>, refs: seq<nat>, pins: seq<nat>, disk: Disk, cur: Disk, i: nat, j: nat, b: nat)
    requires Coherent(buf, refs, pins, disk, cur) && i < NBUF && j < NBUF
    requires Holds(buf[i], b) && Holds(buf[j], b)
    ensures i == j
  {
  }

  /** With nothing pinned the device is up to date. */
  lemma UnpinnedIsClean(buf: seq<Buf>, refs: seq<nat>, pins: seq<nat>, disk: Disk, cur: Disk)
    requires Coherent(buf, refs, pins, disk, cur)
    requires forall i :: 0 <= i < NBUF ==> pins[i] == 0
    ensures disk == cur
  {
    forall b | b in disk ensures disk[b] == cur[b] {
      if Cached(buf, b) {
        var i :| 0 <= i < NBUF && Holds(buf[i], b);
        assert BufOk(buf[i], refs[i], pins[i], disk, cur);
      }
    }
  }

  /** Changing one buffer without changing which block it holds. */
  lemma CoherentInPlace(buf: seq<Buf>, refs: seq<nat>, pins: seq<nat>, disk: Disk, cur: Disk,
                        i: nat, b': Buf, r': nat, p': nat)
    requires Coherent(buf, refs, pins, disk, cur) && i < NBUF
    requires b'.dev == buf[i].dev && b'.blockno == buf[i].blockno
    requires BufOk(b', r', p', disk, cur)
    ensures Coherent(buf[i := b'], refs[i := r'], pins[i := p'], disk, cur)
  {
    var buf' := buf[i := b'];
    forall b | b in disk && !Cached(buf', b) ensures cur[b] == disk[b] {
      assert forall j :: 0 <= j < NBUF ==> Holds(buf[j], b) == Holds(buf'[j], b);
    }
  }

  /** Recycling an unreferenced buffer loses nothing: its block is clean. */
  lemma CoherentRecycle(buf: seq<Buf>, refs: seq<nat>, pins: seq<nat>, disk: Disk, cur: Disk, i: nat, blockno: nat)
    requires Coherent(buf, refs, pins, disk, cur) && i < NBUF && buf[i].refcnt == 0
    requires blockno in disk && !Cached(buf, blockno)
    ensures Coherent(buf[i := buf[i].(dev := ROOTDEV, blockno := blockno, valid := false, refcnt := 1)],
                     refs[i := 1], pins, disk, cur)
  {
    var buf' := buf[i := buf[i].(dev := ROOTDEV, blockno := blockno, valid := false, refcnt := 1)];
    assert BufOk(buf[i], refs[i], pins[i], disk, cur);
    assert forall j :: 0 <= j < NBUF ==> !Holds(buf[j], blockno);
    forall b | b in disk && cur[b] != disk[b] ensures Cached(buf', b) {
      var j :| 0 <= j < NBUF && Holds(buf[j], b);
      assert BufOk(buf[j], refs[j], pins[j], disk, cur);
      assert Holds(buf'[j], b);
    }
  }

  /** New contents `x` for the block of buffer i, on disk and in memory alike. */
  lemma CoherentStore(buf: seq<Buf>, refs: seq<nat>, pins: seq<nat>, disk: Disk, cur: Disk, disk': Disk, cur': Disk,
                      i: nat)
    requires Coherent(buf, refs, pins, disk, cur) && i < NBUF && buf[i].dev == ROOTDEV
    requires buf[i].valid && buf[i].lock.HeldBy?
    requires cur' == cur[buf[i].blockno := buf[i].data]
    requires disk' == disk[buf[i].blockno := buf[i].data] || (disk' == disk && pins[i] > 0)
    ensures Coherent(buf, refs, pins, disk', cur')
  {
    assert BufOk(buf[i], refs[i], pins[i], disk, cur);
    assert disk'.Keys == disk.Keys && cur'.Keys == cur.Keys;
    forall j | 0 <= j < NBUF ensures BufOk(buf[j], refs[j], pins[j], disk', cur') {
      assert BufOk(buf[j], refs[j], pins[j], disk, cur);
    }
    forall b | b in disk' && !Cached(buf, b) ensures cur'[b] == disk'[b] {
      assert !Holds(buf[i], b);
    }
  }

  /** Some buffer could be recycled. */
  predicate SomeUnreferenced(refs: seq<nat>, pins: seq<nat>)
    requires |refs| == |pins| == NBUF
  {
    exists i :: 0 <= i < NBUF && refs[i] + pins[i] == 0
  }

  class BCache {
    var buf: seq<Buf>              // bcache.buf[NBUF], and bcache.head at index HEAD
    var disk: Disk                 // the blocks on the device
    ghost var writes: seq<Write>   // every block write the device has done
    ghost var ring: seq<nat>       // the LRU order spelt by the links
    ghost var refs: seq<nat>       // references taken by bget and not yet released
    ghost var pins: seq<nat>       // references taken by bpin
    ghost var cur: Disk            // the latest contents of every block

    /** The ring is a permutation of all buffers. */
    ghost predicate RingOk()
      reads this
    {
      && Linked(buf, ring)
      && |ring| == NBUF
      && forall b :: 0 <= b < NBUF ==> b in ring
    }

    ghost predicate Inv()
      reads this
    {
      && RingOk()
      && |buf| == NBUF + 1 && |refs| == NBUF && |pins| == NBUF && disk.Keys == cur.Keys
      && Coherent(buf, refs, pins, disk, cur)
    }

    /** binit */
    constructor (disk: Disk)
      ensures Inv()
      ensures this.disk == disk && cur == disk && writes == []
      ensures refs == seq(NBUF, _ => 0) && pins == seq(NBUF, _ => 0)
      ensures forall i :: 0 <= i < NBUF ==>
                !buf[i].valid && buf[i].dev == 0 && buf[i].refcnt == 0 && buf[i].lock.Unlocked?
    {
      this.disk, cur, writes := disk, disk, [];
      refs, pins := seq(NBUF, _ => 0), seq(NBUF, _ => 0);
      var bufs := seq(NBUF + 1, _ => FreshBuf);
      bufs := bufs[HEAD := bufs[HEAD].(prev := HEAD, next := HEAD)];
      ghost var order: seq<nat> := [];
      assert Linked(bufs, order) by {
        assert At(order, 0) == HEAD && At(order, 1) == HEAD;
      }
      var b := 0;
      while b < NBUF
        invariant 0 <= b <= NBUF
        invariant Linked(bufs, order) && |order| == b
        invariant forall i :: 0 <= i < |order| ==> order[i] < b
        invariant forall i :: 0 <= i < b ==> i in order
        invariant forall i :: 0 <= i < NBUF ==> SameButLinks(FreshBuf, bufs[i])
      {
        PushFrontLinked(bufs, order, b);
        var first := bufs[HEAD].next;
        bufs := bufs[b := bufs[b].(next := first, prev := HEAD)];
        bufs := bufs[first := bufs[first].(prev := b)];
        bufs := bufs[HEAD := bufs[HEAD].(next := b)];
        order := [b] + order;
        b := b + 1;
      }
      buf := bufs;
      ring := order;
    }

    /** First loop of bget: is the block cached? */
    method FindCached(blockno: nat) returns (r: Option<nat>)
      requires RingOk()
      ensures r.Some? ==> r.value < NBUF && Holds(buf[r.value], blockno)
      ensures r.None? <==> !Cached(buf, blockno)
    {
      var b := buf[HEAD].next;
      ghost var k := 0;
      assert buf[At(ring, 0)].next == At(ring, 1);
      while b != HEAD
        invariant 0 <= k <= NBUF && b == At(ring, k + 1)
        invariant forall j :: 0 <= j < k ==> !Holds(buf[ring[j]], blockno)
        decreases NBUF - k
      {
        if Holds(buf[b], blockno) {
          return Some(b);
        }
        assert buf[At(ring, k + 1)].next == At(ring, k + 2);
        b := buf[b].next;
        k := k + 1;
      }
      forall i | 0 <= i < NBUF ensures !Holds(buf[i], blockno) {
        assert i in ring;
      }
      return None;
    }

    /** Second loop of bget: the least recently used unreferenced buffer. */
    method FindUnused() returns (r: Option<nat>)
      requires RingOk()
      ensures r.Some? ==> r.value < NBUF && buf[r.value].refcnt == 0 && LeastRecentlyUsed(buf, ring, r.value)
      ensures r.None? <==> forall i :: 0 <= i < NBUF ==> buf[i].refcnt > 0
    {
      var b := buf[HEAD].prev;
      ghost var k := NBUF;
      assert buf[At(ring, NBUF + 1)].prev == At(ring, NBUF);
      while b != HEAD
        invariant 0 <= k <= NBUF && b == At(ring, k)
        invariant forall j :: k <= j < NBUF ==> buf[ring[j]].refcnt > 0
        decreases k
      {
        if buf[b].refcnt == 0 {
          assert ring[k - 1] == b;
          return Some(b);
        }
        assert buf[At(ring, k)].prev == At(ring, k - 1);
        b := buf[b].prev;
        k := k - 1;
      }
      forall i | 0 <= i < NBUF ensures buf[i].refcnt > 0 {
        assert i in ring;
      }
      return None;
    }

    /** Replaces buffer b, leaving its links and its block number alone. */
    method Put(b: nat, b': Buf, ghost r': nat, ghost p': nat)
      requires Inv() && b < NBUF
      requires b'.dev == buf[b].dev && b'.blockno == buf[b].blockno
      requires b'.prev == buf[b].prev && b'.next == buf[b].next
      requires BufOk(b', r', p', disk, cur)
      modifies this`buf, this`refs, this`pins
      ensures Inv()
      ensures buf == old(buf)[b := b']
      ensures refs == old(refs)[b := r'] && pins == old(pins)[b := p']
    {
      CoherentInPlace(buf, refs, pins, disk, cur, b, b', r', p');
      LinkedIgnoresData(buf, buf[b := b'], ring);
      hide Coherent, Linked, BufOk;
      buf, refs, pins := buf[b := b'], refs[b := r'], pins[b := p'];
    }

    method TakeReference(b: nat)
      requires Inv() && b < NBUF && buf[b].dev == ROOTDEV
      modifies this`buf, this`refs, this`pins
      ensures Inv() && pins == old(pins)
      ensures buf == old(buf)[b := old(buf)[b].(refcnt := old(buf)[b].refcnt + 1)]
      ensures refs == old(refs)[b := old(refs)[b] + 1]
    {
      assert BufOk(buf[b], refs[b], pins[b], disk, cur);
      assert pins[b := pins[b]] == pins;
      Put(b, buf[b].(refcnt := buf[b].refcnt + 1), refs[b] + 1, pins[b]);
    }

    method Recycle(b: nat, blockno: nat)
      requires Inv() && b < NBUF && buf[b].refcnt == 0
      requires blockno in disk && !Cached(buf, blockno)
      modifies this`buf, this`refs
      ensures Inv()
      ensures buf == old(buf)[b := old(buf)[b].(dev := ROOTDEV, blockno := blockno, valid := false, refcnt := 1)]
      ensures buf[b].lock.Unlocked?
      ensures old(refs)[b] == 0 && old(pins)[b] == 0 && refs == old(refs)[b := 1]
    {
      var b' := buf[b].(dev := ROOTDEV, blockno := blockno, valid := false, refcnt := 1);
      assert BufOk(buf[b], refs[b], pins[b], disk, cur);
      CoherentRecycle(buf, refs, pins, disk, cur, b, blockno);
      LinkedIgnoresData(buf, buf[b := b'], ring);
      refs := refs[b := 1];
      buf := buf[b := b'];
    }

    /** bget, up to the point where it waits for the sleep lock. `None` is the
        panic "bget: no buffers". */
    method Bget(blockno: nat) returns (r: Option<nat>)
      requires Inv() && blockno in disk
      modifies this`buf, this`refs, this`pins
      ensures Inv() && pins == old(pins)
      ensures r.None? <==> !Cached(old(buf), blockno) && !SomeUnreferenced(old(refs), old(pins))
      ensures r.None? ==> buf == old(buf) && refs == old(refs)
      ensures r.Some? ==>
                && r.value < NBUF
                && refs == old(refs)[r.value := old(refs)[r.value] + 1]
                && Holds(buf[r.value], blockno)
                && buf == old(buf)[r.value := buf[r.value]] && buf[r.value].lock == old(buf)[r.value].lock
      ensures r.Some? && Cached(old(buf), blockno) ==>
                buf[r.value] == old(buf)[r.value].(refcnt := old(buf)[r.value].refcnt + 1)
      ensures r.Some? && !Cached(old(buf), blockno) ==>
                && !buf[r.value].valid && buf[r.value].lock.Unlocked?
                && LeastRecentlyUsed(old(buf), ring, r.value)
      ensures r.Some? && old(refs)[r.value] + old(pins)[r.value] > 0 ==> Holds(old(buf)[r.value], blockno)
    {
      hide Coherent, LeastRecentlyUsed;
      Counted(buf, refs, pins, disk, cur);
      r := FindCached(blockno);
      if r.Some? {
        TakeReference(r.value);
        return;
      }
      r := FindUnused();
      if r.Some? {
        Recycle(r.value, blockno);
      }
    }

    /** acquiresleep at the end of bget, once the lock is free. */
    method Acquire(me: nat, b: nat)
      requires Inv() && b < NBUF && refs[b] > 0 && buf[b].lock.Unlocked?
      modifies this`buf, this`refs, this`pins
      ensures Inv()
      ensures buf == old(buf)[b := old(buf)[b].(lock := HeldBy(me))]
      ensures refs == old(refs) && pins == old(pins)
      ensures buf[b].dev == ROOTDEV
      ensures buf[b].valid ==> buf[b].data == cur[buf[b].blockno]
    {
      assert BufOk(buf[b], refs[b], pins[b], disk, cur);
      assert refs[b := refs[b]] == refs && pins[b := pins[b]] == pins;
      Put(b, buf[b].(lock := HeldBy(me)), refs[b], pins[b]);
    }

    /** The rest of bread: read the block from the device unless it is valid. */
    method Fill(me: nat, b: nat)
      requires Inv() && b < NBUF && buf[b].dev == ROOTDEV && buf[b].lock == HeldBy(me)
      modifies this`buf, this`refs, this`pins
      ensures Inv() && refs == old(refs) && pins == old(pins)
      ensures old(buf)[b].valid ==> buf == old(buf)
      ensures !old(buf)[b].valid ==>
                buf == old(buf)[b := old(buf)[b].(valid := true, data := cur[old(buf)[b].blockno])]
    {
      if !buf[b].valid {
        assert BufOk(buf[b], refs[b], pins[b], disk, cur);
        assert refs[b := refs[b]] == refs && pins[b := pins[b]] == pins;
        Put(b, buf[b].(valid := true, data := disk[buf[b].blockno]), refs[b], pins[b]);
      }
    }

    /** bread: the latest contents of the block, in a buffer locked by the caller. When another process holds the
        buffer's sleep lock, the caller has its reference and waits; it goes on with Acquire and Fill. */
    method Bread(me: nat, blockno: nat) returns (r: Option<nat>, waits: bool)
      requires Inv() && blockno in disk
      modifies this`buf, this`refs, this`pins
      ensures Inv() && pins == old(pins)
      ensures r.None? <==> !Cached(old(buf), blockno) && !SomeUnreferenced(old(refs), old(pins))
      ensures r.None? ==> buf == old(buf) && refs == old(refs)
      ensures r.Some? ==>
                && r.value < NBUF && blockno in cur
                && refs == old(refs)[r.value := old(refs)[r.value] + 1]
                && buf == old(buf)[r.value := buf[r.value]] && Holds(buf[r.value], blockno)
      ensures waits <==> LockedBy(old(buf), blockno)
      ensures r.Some? && !waits ==> old(buf)[r.value].lock.Unlocked?
      ensures waits ==> r.Some? && buf[r.value] == old(buf)[r.value].(refcnt := old(buf)[r.value].refcnt + 1)
      ensures r.Some? && !waits ==>
                buf[r.value].valid && buf[r.value].lock == HeldBy(me) && buf[r.value].data == cur[blockno]
      ensures r.Some? && !Cached(old(buf), blockno) ==> LeastRecentlyUsed(old(buf), ring, r.value)
      ensures r.Some? && old(refs)[r.value] + old(pins)[r.value] > 0 ==> Holds(old(buf)[r.value], blockno)
    {
      hide Coherent, Linked, LeastRecentlyUsed, LockedBy, Cached, SomeUnreferenced;
      ghost var was, refs0, pins0 := buf, refs, pins;
      r := Bget(blockno);
      waits := r.Some? && buf[r.value].lock.HeldBy?;
      LockSeen(was, refs0, pins0, disk, cur, blockno, if r.Some? then r.value else 0, buf);
      if r.Some? && !waits {
        Acquire(me, r.value);
        Fill(me, r.value);
      }
    }

    /** The holder changes the data of its buffer. */
    method Edit(me: nat, b: nat, data: Block)
      requires Inv() && b < NBUF && buf[b].dev == ROOTDEV && buf[b].valid && buf[b].lock == HeldBy(me)
      modifies this`buf, this`refs, this`pins
      ensures Inv() && refs == old(refs) && pins == old(pins)
      ensures buf == old(buf)[b := old(buf)[b].(data := data)]
    {
      assert BufOk(buf[b], refs[b], pins[b], disk, cur);
      assert refs[b := refs[b]] == refs && pins[b := pins[b]] == pins;
      Put(b, buf[b].(data := data), refs[b], pins[b]);
    }

    /** bwrite: one atomic block write. */
    method Bwrite(me: nat, b: nat)
      requires Inv() && b < NBUF && buf[b].dev == ROOTDEV && buf[b].valid && buf[b].lock == HeldBy(me)
      modifies this`disk, this`cur, this`writes
      ensures Inv()
      ensures disk == old(disk)[buf[b].blockno := buf[b].data]
      ensures cur == old(cur)[buf[b].blockno := buf[b].data]
      ensures writes == old(writes) + [Write(buf[b].blockno, buf[b].data)]
    {
      var x := buf[b].data;
      CoherentStore(buf, refs, pins, disk, cur, disk[buf[b].blockno := x], cur[buf[b].blockno := x], b);
      hide Coherent, Linked;
      disk := disk[buf[b].blockno := x];
      cur := cur[buf[b].blockno := x];
      writes := writes + [Write(buf[b].blockno, x)];
    }

    /** brelse: drops the reference and the lock; the last reference moves the
        buffer to the most recently used end. The holder must have written or
        logged what it changed. */
    method Brelse(me: nat, b: nat)
      requires Inv() && b < NBUF && buf[b].dev == ROOTDEV && buf[b].lock == HeldBy(me)
      requires buf[b].blockno in cur && (buf[b].valid ==> buf[b].data == cur[buf[b].blockno])
      modifies this`buf, this`refs, this`pins, this`ring
      ensures Inv() && pins == old(pins)
      ensures old(refs)[b] > 0 && refs == old(refs)[b := old(refs)[b] - 1]
      ensures forall i :: 0 <= i < NBUF && i != b ==> SameButLinks(old(buf)[i], buf[i])
      ensures old(buf)[b].refcnt > 0
      ensures SameButLinks(old(buf)[b].(lock := Unlocked, refcnt := old(buf)[b].refcnt - 1), buf[b])
      ensures if buf[b].refcnt > 0 then ring == old(ring) && buf == old(buf)[b := buf[b]]
              else exists k :: 0 <= k < NBUF && old(ring)[k] == b && ring == [b] + Without(old(ring), k)
    {
      hide Coherent, Linked;
      Releasesleep(me, b);
      Unref(b);
    }

    /** releasesleep in brelse. */
    method Releasesleep(me: nat, b: nat)
      requires Inv() && b < NBUF && buf[b].dev == ROOTDEV && buf[b].lock == HeldBy(me)
      requires buf[b].blockno in cur && (buf[b].valid ==> buf[b].data == cur[buf[b].blockno])
      modifies this`buf, this`refs, this`pins
      ensures Inv() && refs == old(refs) && refs[b] > 0 && pins == old(pins)
      ensures buf == old(buf)[b := old(buf)[b].(lock := Unlocked)]
    {
      assert BufOk(buf[b], refs[b], pins[b], disk, cur);
      assert refs[b := refs[b]] == refs && pins[b := pins[b]] == pins;
      Put(b, buf[b].(lock := Unlocked), refs[b], pins[b]);
    }

    /** The rest of brelse. By now another process may hold the sleep lock, with a reference of its own. */
    method Unref(b: nat)
      requires Inv() && b < NBUF && buf[b].dev == ROOTDEV && refs[b] > 0 && (buf[b].lock.HeldBy? ==> refs[b] >= 2)
      modifies this`buf, this`refs, this`pins, this`ring
      ensures Inv() && pins == old(pins) && refs == old(refs)[b := old(refs)[b] - 1]
      ensures forall i :: 0 <= i < NBUF && i != b ==> SameButLinks(old(buf)[i], buf[i])
      ensures old(buf)[b].refcnt > 0 && SameButLinks(old(buf)[b].(refcnt := old(buf)[b].refcnt - 1), buf[b])
      ensures if buf[b].refcnt > 0 then ring == old(ring) && buf == old(buf)[b := buf[b]]
              else exists k :: 0 <= k < NBUF && old(ring)[k] == b && ring == [b] + Without(old(ring), k)
    {
      hide Coherent, Linked;
      Decrement(b);
      if buf[b].refcnt == 0 {
        MoveToFront(b);
      }
    }

    method Decrement(b: nat)
      requires Inv() && b < NBUF && buf[b].dev == ROOTDEV && refs[b] > 0 && (buf[b].lock.HeldBy? ==> refs[b] >= 2)
      modifies this`buf, this`refs, this`pins
      ensures Inv() && pins == old(pins) && refs == old(refs)[b := old(refs)[b] - 1]
      ensures old(buf)[b].refcnt > 0 && buf == old(buf)[b := old(buf)[b].(refcnt := old(buf)[b].refcnt - 1)]
    {
      assert BufOk(buf[b], refs[b], pins[b], disk, cur);
      assert pins[b := pins[b]] == pins;
      Put(b, buf[b].(refcnt := buf[b].refcnt - 1), refs[b] - 1, pins[b]);
    }

    /** The relinking in brelse. */
    method MoveToFront(b: nat)
      requires Inv() && b < NBUF
      modifies this`buf, this`ring
      ensures Inv()
      ensures forall i :: 0 <= i < NBUF ==> SameButLinks(old(buf)[i], buf[i])
      ensures exists k :: 0 <= k < NBUF && old(ring)[k] == b && ring == [b] + Without(old(ring), k)
    {
      hide At, BufOk, Unique;
      assert b in ring;
      ghost var k :| 0 <= k < NBUF && ring[k] == b;
      ghost var was := buf;
      FrontLinked(buf, ring, k);
      FrontKeepsData(buf, b);
      CoherentIgnoresLinks(buf, PushFront(Unlink(buf, b), b), refs, pins, disk, cur);
      hide Linked, Coherent;
      var n, p := buf[b].next, buf[b].prev;
      buf := buf[n := buf[n].(prev := p)];
      buf := buf[p := buf[p].(next := n)];
      assert buf == Unlink(was, b);
      var first := buf[HEAD].next;
      buf := buf[b := buf[b].(next := first, prev := HEAD)];
      buf := buf[first := buf[first].(prev := b)];
      buf := buf[HEAD := buf[HEAD].(next := b)];
      assert buf == PushFront(Unlink(was, b), b);
      ring := [b] + Without(ring, k);
    }

    /** bpin, by the holder inside log_write. */
    method Bpin(b: nat)
      requires Inv() && b < NBUF && buf[b].valid && buf[b].dev == ROOTDEV
      modifies this`buf, this`refs, this`pins
      ensures Inv() && refs == old(refs)
      ensures buf == old(buf)[b := old(buf)[b].(refcnt := old(buf)[b].refcnt + 1)]
      ensures pins == old(pins)[b := old(pins)[b] + 1]
    {
      assert BufOk(buf[b], refs[b], pins[b], disk, cur);
      assert refs[b := refs[b]] == refs;
      Put(b, buf[b].(refcnt := buf[b].refcnt + 1), refs[b], pins[b] + 1);
    }

    /** bunpin: safe once the block has reached its home location. */
    method Bunpin(b: nat)
      requires Inv() && b < NBUF && pins[b] > 0
      requires buf[b].dev == ROOTDEV && disk[buf[b].blockno] == cur[buf[b].blockno]
      modifies this`buf, this`refs, this`pins
      ensures Inv() && refs == old(refs)
      ensures old(buf)[b].refcnt > 0 && buf == old(buf)[b := old(buf)[b].(refcnt := old(buf)[b].refcnt - 1)]
      ensures pins == old(pins)[b := old(pins)[b] - 1]
    {
      assert BufOk(buf[b], refs[b], pins[b], disk, cur);
      assert refs[b := refs[b]] == refs;
      Put(b, buf[b].(refcnt := buf[b].refcnt - 1), refs[b], pins[b] - 1);
    }

    /** log_write makes a pinned buffer's data the block's latest contents. */
    ghost method Publish(me: nat, b: nat)
      requires Inv() && b < NBUF && buf[b].dev == ROOTDEV && buf[b].valid && buf[b].lock == HeldBy(me)
      requires pins[b] > 0
      modifies this`cur
      ensures Inv()
      ensures cur == old(cur)[buf[b].blockno := buf[b].data]
    {
      CoherentStore(buf, refs, pins, disk, cur, disk, cur[buf[b].blockno := buf[b].data], b);
      cur := cur[buf[b].blockno := buf[b].data];
    }
  }

  /** b is the unreferenced buffer furthest from the front of the ring. */
  ghost predicate LeastRecentlyUsed(buf: seq<Buf>, ring: seq<nat>, b: nat) {
    && |buf| == NBUF + 1
    && (forall i :: 0 <= i < |ring| ==> ring[i] < NBUF)
    && exists k :: 0 <= k < |ring| && ring[k] == b && buf[b].refcnt == 0
                   && forall j :: k < j < |ring| ==> buf[ring[j]].refcnt > 0
  }
}
