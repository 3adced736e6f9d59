/** The bookkeeping of the block-device queue in virtio_disk.c (sections 2.6 and 5.2 of VIRTIO 1.1): which
    descriptors are in use, the two rings with their 16-bit indices, and which request each completion belongs to.
    The device is the two methods Take and Complete, which may come at any time the standard allows. */
module Virtio {

  import opened Basics

  const NUM: nat := 8
  const WRAP: nat := 0x1_0000

  const BSIZE: nat := 1024

  /** What a descriptor points to: disk.ops[i], the data of buffer b, or disk.info[i].status. */
  datatype Target = Nowhere | Header(i: nat) | Data(b: nat) | Status(i: nat)

  /** A descriptor: more is VRING_DESC_F_NEXT, write is VRING_DESC_F_WRITE, which lets the device write. */
  datatype Desc = Desc(next: nat, more: bool, write: bool, at: Target, len: nat)

  const NoDesc: Desc := Desc(0, false, false, Nowhere, 0)

  /** struct virtio_blk_req: out is VIRTIO_BLK_T_OUT, a write to the disk. */
  datatype Op = Op(out: bool, sector: nat)

  datatype Info = Info(b: Option<nat>, status: nat)

  /** A request: on the avail ring, with the device, on the used ring, or seen by virtio_disk_intr. */
  datatype Phase = Queued | Taken | Used | Seen

  /** The chain of one request, kept under its first descriptor; id numbers the requests. */
  datatype Chain = Chain(d1: nat, d2: nat, b: nat, op: Op, id: nat, phase: Phase)

  type Chains = map<nat, Chain>

  // ----- descriptors -----

  ghost predicate ChainAt(desc: seq<Desc>, owner: seq<Option<nat>>, h: nat, c: Chain)
    requires |desc| == NUM && |owner| == NUM
  {
    && h < NUM && c.d1 < NUM && c.d2 < NUM && h != c.d1 && h != c.d2 && c.d1 != c.d2
    && desc[h] == Desc(c.d1, true, false, Header(h), 16)
    && desc[c.d1] == Desc(c.d2, true, !c.op.out, Data(c.b), BSIZE)
    && desc[c.d2] == Desc(0, false, true, Status(h), 1)
    && owner[h] == Some(h) && owner[c.d1] == Some(h) && owner[c.d2] == Some(h)
  }

  /** Every descriptor is free, or in the hands of the driver, or in exactly one chain. */
  ghost predicate OwnerOk(free: seq<bool>, desc: seq<Desc>, owner: seq<Option<nat>>, hand: set<nat>, chains: Chains) {
    && |free| == NUM && |desc| == NUM && |owner| == NUM
    && (forall d :: 0 <= d < NUM ==> (free[d] <==> owner[d].None? && d !in hand))
    && (forall d :: d in hand ==> d < NUM && owner[d].None?)
    && (forall d :: 0 <= d < NUM && owner[d].Some? ==>
          var h := owner[d].value; h in chains && (d == h || d == chains[h].d1 || d == chains[h].d2))
    && (forall h :: h in chains ==> ChainAt(desc, owner, h, chains[h]))
  }

  predicate InChain(chains: Chains, h: nat, d: nat) {
    h in chains && (d == h || d == chains[h].d1 || d == chains[h].d2)
  }

  /** Between calls, a descriptor is free exactly when it is in no chain, and no descriptor is in two. */
  lemma OneChain(free: seq<bool>, desc: seq<Desc>, owner: seq<Option<nat>>, chains: Chains, d: nat)
    requires OwnerOk(free, desc, owner, {}, chains) && d < NUM
    ensures free[d] <==> forall h :: !InChain(chains, h, d)
    ensures forall g, h :: InChain(chains, g, d) && InChain(chains, h, d) ==> g == h
  {
    forall h | InChain(chains, h, d) ensures owner[d] == Some(h) { assert ChainAt(desc, owner, h, chains[h]); }
    if owner[d].Some? { assert InChain(chains, owner[d].value, d); }
  }

  /** The three descriptors of a request, linked. */
  function Linked(desc: seq<Desc>, h: nat, d1: nat, d2: nat, b: nat, out: bool): (r: seq<Desc>)
    requires h < |desc| && d1 < |desc| && d2 < |desc|
  {
    desc[h := Desc(d1, true, false, Header(h), 16)]
        [d1 := Desc(d2, true, !out, Data(b), BSIZE)]
        [d2 := Desc(0, false, true, Status(h), 1)]
  }

  /** The request headers are those of the requests. */
  ghost predicate OpsOk(ops: seq<Op>, chains: Chains) {
    |ops| == NUM && forall h :: h in chains ==> h < NUM && ops[h] == chains[h].op
  }

  lemma OpsMore(ops: seq<Op>, chains: Chains, h: nat, c: Chain)
    requires OpsOk(ops, chains) && h < NUM
    ensures h < |ops| && OpsOk(ops[h := c.op], chains[h := c])
  {
  }

  /** What the device finds when it follows the descriptors from h on, until its completion has been seen: the header of
      the request, the data of its buffer, which it may write if and only if the request reads the disk, and the
      status byte that virtio_disk_intr will look at. */
  lemma DeviceSees(free: seq<bool>, desc: seq<Desc>, owner: seq<Option<nat>>, hand: set<nat>, chains: Chains,
                   ops: seq<Op>, h: nat)
    requires OwnerOk(free, desc, owner, hand, chains) && OpsOk(ops, chains) && h in chains
    ensures h < NUM && desc[h].next < NUM && desc[desc[h].next].next < NUM
    ensures var d0 := desc[h]; var d1 := desc[d0.next]; var d2 := desc[d1.next];
            && d0.at == Header(h) && d0.len == 16 && !d0.write && d0.more && ops[h] == chains[h].op
            && d1.at == Data(chains[h].b) && d1.len == BSIZE && d1.write == !chains[h].op.out && d1.more
            && d2.at == Status(h) && d2.len == 1 && d2.write && !d2.more
  {
    assert ChainAt(desc, owner, h, chains[h]);
  }

  ghost function Owned(owner: seq<Option<nat>>, h: nat, d1: nat, d2: nat): (r: seq<Option<nat>>)
    requires h < |owner| && d1 < |owner| && d2 < |owner|
  {
    owner[h := Some(h)][d1 := Some(h)][d2 := Some(h)]
  }

  ghost function Three(h: nat, d1: nat, d2: nat): (s: set<nat>) { {h, d1, d2} }

  /** No request in flight is for buffer b. */
  ghost predicate Idle(chains: Chains, b: nat) { forall g :: g in chains ==> chains[g].b != b }

  // ----- rings -----

  function Place(k: nat): (p: nat)
    ensures p < NUM
  {
    k % NUM
  }

  /** The entries from number first on are those of q. */
  ghost predicate RingOk(ring: seq<nat>, first: nat, q: seq<nat>) {
    |ring| == NUM && |q| <= NUM && forall j :: 0 <= j < |q| ==> ring[Place(first + j)] == q[j]
  }

  /** q lists exactly the chains in a phase, each once. */
  ghost predicate Lists(chains: Chains, q: seq<nat>, phase: Phase) {
    Distinct(q) && forall h :: h in q <==> h in chains && chains[h].phase == phase
  }

  /** Both rings, with the driver's and the device's 16-bit indices. */
  ghost predicate RingsOk(avail: seq<nat>, availIdx: nat, device: nat, used: seq<nat>, usedIdx: nat, usedSeen: nat,
                          chains: Chains, queue: seq<nat>, finished: seq<nat>, taken: nat, looked: nat)
  {
    && RingOk(avail, taken, queue) && Lists(chains, queue, Queued)
    && availIdx == (taken + |queue|) % WRAP && device == taken % WRAP
    && RingOk(used, looked, finished) && Lists(chains, finished, Used)
    && usedIdx == (looked + |finished|) % WRAP && usedSeen == looked % WRAP
  }

  /** A chain that is not on the ring leaves room for one more entry. */
  lemma Room(free: seq<bool>, desc: seq<Desc>, owner: seq<Option<nat>>, hand: set<nat>, chains: Chains,
             q: seq<nat>, phase: Phase, x: nat)
    requires OwnerOk(free, desc, owner, hand, chains) && Lists(chains, q, phase) && x < NUM && x !in q
    ensures |q| < NUM
  {
    forall i | 0 <= i < |q| ensures q[i] < NUM { assert q[i] in q; }
    Pigeonhole(q, NUM);
  }

  lemma RingApart(first: nat, j: nat, k: nat)
    requires j < k < j + NUM
    ensures Place(first + j) != Place(first + k)
  {
  }

  /** Writing the next entry of a ring that has room overwrites none that counts. */
  lemma RingPut(ring: seq<nat>, first: nat, q: seq<nat>, x: nat)
    requires RingOk(ring, first, q) && |q| < NUM
    ensures |ring| == NUM && RingOk(ring[Place(first + |q|) := x], first, q + [x])
  {
    forall j | 0 <= j < |q| ensures ring[Place(first + |q|) := x][Place(first + j)] == q[j] {
      RingApart(first, j, |q|);
    }
  }

  lemma RingSize(ring: seq<nat>, first: nat, q: seq<nat>)
    requires RingOk(ring, first, q)
    ensures |ring| == NUM && |q| <= NUM
  {
  }

  lemma RingTake(ring: seq<nat>, first: nat, q: seq<nat>)
    requires RingOk(ring, first, q) && q != []
    ensures |ring| == NUM && ring[Place(first)] == q[0] && RingOk(ring, first + 1, q[1..])
  {
    assert ring[Place(first + 0)] == q[0];
    forall j | 0 <= j < |q| - 1 ensures ring[Place(first + 1 + j)] == q[1..][j] {
      assert ring[Place(first + (j + 1))] == q[j + 1];
    }
  }

  /** The 16-bit indices tell how many entries there are, and where, although they wrap. */
  lemma IndexWraps(n: nat, first: nat)
    requires first <= n <= first + NUM
    ensures n % WRAP % NUM == Place(n) && (n % WRAP + 1) % WRAP == (n + 1) % WRAP
    ensures n % WRAP == first % WRAP <==> n == first
  {
    hide Place;
    var k, x, y := n / WRAP - first / WRAP, n % WRAP, first % WRAP;
    assert n - first == WRAP * k + (x - y);
    assert k == 0 || k == 1;
    PlaceWraps(n);
    NextIndex(n);
  }

  lemma PlaceWraps(n: nat)
    ensures n % WRAP % NUM == Place(n)
  {
    var x := n % WRAP;
    var q := 0x2000 * (n / WRAP) + x / NUM;
    assert n == NUM * q + x % NUM;
  }

  lemma NextIndex(n: nat)
    ensures (n % WRAP + 1) % WRAP == (n + 1) % WRAP
  {
  }

  // ----- requests -----

  /** Requests in flight are for different buffers; a buffer is busy until its own completion is seen,
      and a request is in seen exactly from then on. */
  ghost predicate RequestsOk(chains: Chains, info: seq<Info>, busy: set<nat>, seen: set<nat>, requests: nat) {
    && |info| == NUM
    && (forall h :: h in chains ==>
          && h < NUM && info[h].b == Some(chains[h].b) && chains[h].id < requests
          && (chains[h].b in busy <==> chains[h].phase != Seen)
          && (chains[h].id in seen <==> chains[h].phase == Seen))
    && (forall g, h :: g in chains && h in chains && g != h ==>
          chains[g].b != chains[h].b && chains[g].id != chains[h].id)
    && (forall r :: r in seen ==> r < requests)
  }

  function FreeCount(free: seq<bool>): (n: nat) {
    if free == [] then 0 else FreeCount(free[..|free| - 1]) + if free[|free| - 1] then 1 else 0
  }

  lemma {:induction false} FreeCountTake(free: seq<bool>, i: nat)
    requires i < |free| && free[i]
    ensures FreeCount(free[i := false]) == FreeCount(free) - 1
  {
    var n := |free| - 1;
    if i == n {
      assert free[i := false][..n] == free[..n];
    } else {
      FreeCountTake(free[..n], i);
      assert free[i := false][..n] == free[..n][i := false];
    }
  }

  lemma {:induction false} FreeCountNone(free: seq<bool>)
    requires forall i :: 0 <= i < |free| ==> !free[i]
    ensures FreeCount(free) == 0
  {
    if free != [] { FreeCountNone(free[..|free| - 1]); }
  }

  class Disk {
    var free: seq<bool>
    var desc: seq<Desc>
    var info: seq<Info>
    var ops: seq<Op>
    var busy: set<nat>        // the buffers with b->disk == 1
    var avail: seq<nat>
    var availIdx: nat
    var used: seq<nat>
    var usedIdx: nat          // used->idx, written by the device
    var usedSeen: nat         // disk.used_idx
    var device: nat           // the device's own place in the avail ring
    ghost var owner: seq<Option<nat>>
    ghost var hand: set<nat>
    ghost var chains: Chains
    ghost var queue: seq<nat>     // on the avail ring, not taken yet
    ghost var finished: seq<nat>  // on the used ring, not seen yet
    ghost var taken: nat          // how many avail entries the device has taken
    ghost var looked: nat         // how many used entries have been seen
    ghost var seen: set<nat>      // the requests whose completion has been seen
    ghost var requests: nat

    ghost predicate Descs() reads this { OwnerOk(free, desc, owner, hand, chains) }

    ghost predicate Rings() reads this {
      RingsOk(avail, availIdx, device, used, usedIdx, usedSeen, chains, queue, finished, taken, looked)
    }

    ghost predicate Ok()
      reads this
    {
      Descs() && Rings() && RequestsOk(chains, info, busy, seen, requests) && OpsOk(ops, chains) && hand == {}
    }

    constructor ()
      ensures Ok() && chains == map[] && requests == 0 && seen == {}
    {
      free, desc := seq(NUM, _ => true), seq(NUM, _ => NoDesc);
      info, ops, busy := seq(NUM, _ => Info(None, 0)), seq(NUM, _ => Op(false, 0)), {};
      avail, availIdx := seq(NUM, _ => 0), 0;
      used, usedIdx, usedSeen, device := seq(NUM, _ => 0), 0, 0, 0;
      owner, hand, chains := seq(NUM, _ => None), {}, map[];
      queue, finished, taken, looked, seen, requests := [], [], 0, 0, {}, 0;
    }

    method AllocDesc() returns (i: int)
      requires Descs()
      modifies this`free, this`hand
      ensures Descs() && -1 <= i < NUM
      ensures i >= 0 ==> forall j :: 0 <= j < i ==> !old(free)[j]
      ensures i >= 0 ==> old(free)[i] && free == old(free)[i := false] && hand == old(hand) + {i} && i !in old(hand)
      ensures i == -1 ==> free == old(free) && hand == old(hand) && FreeCount(free) == 0
    {
      var k := 0;
      while k < NUM
        invariant k <= NUM && forall j :: 0 <= j < k ==> !free[j]
      {
        if free[k] {
          free := free[k := false];
          hand := hand + {k};
          return k;
        }
        k := k + 1;
      }
      FreeCountNone(free);
      i := -1;
    }

    /** free_desc(): its two panics are for a descriptor out of range or already free. */
    method FreeDesc(i: nat)
      requires Descs() && i in hand
      modifies this`free, this`desc, this`hand
      ensures Descs() && free == old(free)[i := true] && desc == old(desc)[i := NoDesc]
      ensures hand == old(hand) - {i}
    {
      desc := desc[i := NoDesc];
      free := free[i := true];
      hand := hand - {i};
    }

    /** The roll-back of alloc3_desc. */
    method GiveBack(idx: seq<nat>)
      requires Descs() && Distinct(idx) && (forall d :: d in hand <==> d in idx)
      modifies this`free, this`desc, this`hand
      ensures Descs() && hand == {}
      ensures forall d :: 0 <= d < NUM ==> (free[d] <==> old(free)[d] || d in idx)
    {
      hide OwnerOk;
      var j := 0;
      HandIn(free, desc, owner, hand, chains);
      while j < |idx|
        invariant 0 <= j <= |idx| && Descs() && |free| == NUM
        invariant forall d :: d in hand <==> d in idx[j..]
        invariant forall d :: 0 <= d < NUM ==> (free[d] <==> old(free)[d] || d in idx[..j])
      {
        HandIn(free, desc, owner, hand, chains);
        assert idx[j..] == [idx[j]] + idx[j + 1..] && idx[..j + 1] == idx[..j] + [idx[j]];
        FreeDesc(idx[j]);
        j := j + 1;
      }
      assert idx[..j] == idx;
    }

    /** Three descriptors, or none. */
    method Alloc3() returns (ok: bool, idx: seq<nat>)
      requires Descs() && hand == {}
      modifies this`free, this`desc, this`hand
      ensures Descs()
      ensures ok <==> FreeCount(old(free)) >= 3
      ensures ok ==> && |idx| == 3 && Distinct(idx) && hand == {idx[0], idx[1], idx[2]} && desc == old(desc)
      ensures !ok ==> free == old(free) && hand == {}
    {
      hide OwnerOk, FreeCount;
      idx := [];
      var i := 0;
      HandIn(free, desc, owner, hand, chains);
      while i < 3
        invariant 0 <= i <= 3 && |idx| == i && Descs() && desc == old(desc) && |free| == NUM == |old(free)|
        invariant Distinct(idx) && (forall d :: d in hand <==> d in idx)
        invariant forall d :: 0 <= d < NUM ==> (old(free)[d] <==> free[d] || d in idx)
        invariant FreeCount(old(free)) == FreeCount(free) + i
      {
        ghost var f := free;
        var d := AllocDesc();
        HandIn(free, desc, owner, hand, chains);
        if d < 0 {
          GiveBack(idx);
          HandIn(free, desc, owner, hand, chains);
          assert free == old(free);
          return false, idx;
        }
        FreeCountTake(f, d);
        idx := idx + [d];
        i := i + 1;
      }
      ok := true;
      assert forall d :: d in hand <==> d in {idx[0], idx[1], idx[2]};
    }

    /** The first half of virtio_disk_rw, up to the notification: false when alloc3_desc found too few
        descriptors and the caller has to sleep. The caller holds the lock of b, which is for block blockno. */
    method Submit(b: nat, blockno: nat, write: bool) returns (ok: bool, h: nat)
      requires Ok() && Idle(chains, b)
      modifies this
      ensures Ok()
      ensures ok <==> FreeCount(old(free)) >= 3
      ensures ok ==> && h !in old(chains) && h in chains && chains == old(chains)[h := chains[h]]
                     && chains[h].op == Op(write, 2 * blockno % 0x1_0000_0000)
                     && chains[h].b == b && chains[h].id == old(requests) && chains[h].phase == Queued
                     && queue == old(queue) + [h] && finished == old(finished) && busy == old(busy) + {b}
                     && requests == old(requests) + 1 && seen == old(seen)
      ensures !ok ==> chains == old(chains) && queue == old(queue) && finished == old(finished) && busy == old(busy)
                      && free == old(free) && seen == old(seen) && requests == old(requests)
    {
      hide OwnerOk, RequestsOk, RingsOk, FreeCount;
      var idx: seq<nat>;
      ok, idx := Alloc3();
      h := 0;
      if ok {
        h := idx[0];
        Post(h, idx[1], idx[2], b, Op(write, blockno * (BSIZE / 512) % 0x1_0000_0000));
      }
    }

    method Format(h: nat, d1: nat, d2: nat, b: nat, op: Op)
      requires h < |desc| && d1 < |desc| && d2 < |desc| && h < |info| && h < |ops| && |owner| == |desc|
      requires h != d1 && h != d2 && d1 != d2
      modifies this`desc, this`info, this`ops, this`busy, this`owner, this`hand
      ensures owner == Owned(old(owner), h, d1, d2) && hand == {}
      ensures desc == Linked(old(desc), h, d1, d2, b, op.out) && info == old(info)[h := Info(Some(b), 0xff)]
      ensures busy == old(busy) + {b} && ops == old(ops)[h := op]
    {
      ops := ops[h := op];
      desc := desc[h := Desc(d1, true, false, Header(h), 16)];
      desc := desc[d1 := Desc(desc[d1].next, false, !op.out, Data(b), BSIZE)];
      desc := desc[d1 := desc[d1].(more := true, next := d2)];
      info := info[h := Info(info[h].b, 0xff)];
      desc := desc[d2 := Desc(0, false, true, Status(h), 1)];
      busy := busy + {b};
      info := info[h := Info(Some(b), info[h].status)];
      owner, hand := Owned(owner, h, d1, d2), {};
    }

    /** Formats the three descriptors and puts the chain on the avail ring. */
    method Post(h: nat, d1: nat, d2: nat, b: nat, op: Op)
      requires Descs() && Rings() && RequestsOk(chains, info, busy, seen, requests) && OpsOk(ops, chains)
      requires hand == Three(h, d1, d2) && h != d1 && h != d2 && d1 != d2 && Idle(chains, b)
      modifies this`desc, this`busy, this`info, this`ops, this`avail, this`availIdx
      modifies this`owner, this`hand, this`chains, this`queue, this`requests
      ensures Ok() && h !in old(chains) && chains == old(chains)[h := Chain(d1, d2, b, op, old(requests), Queued)]
      ensures queue == old(queue) + [h] && busy == old(busy) + {b} && requests == old(requests) + 1
    {
      hide OwnerOk, RequestsOk, RingsOk, Linked, Owned, Three, Idle, OpsOk;
      ghost var c := Chain(d1, d2, b, op, requests, Queued);
      Posted(free, desc, owner, hand, info, ops, busy, seen, requests, avail, availIdx, device, used, usedIdx, usedSeen,
             chains, queue, finished, taken, looked, h, c);
      Format(h, d1, d2, b, op);
      Enqueue(h, c);
    }

    method Enqueue(h: nat, ghost c: Chain)
      requires |avail| == NUM
      modifies this`avail, this`availIdx, this`chains, this`queue, this`requests
      ensures avail == old(avail)[old(availIdx) % NUM := h] && availIdx == (old(availIdx) + 1) % WRAP
      ensures chains == old(chains)[h := c] && queue == old(queue) + [h] && requests == old(requests) + 1
    {
      avail := avail[availIdx % NUM := h];
      availIdx := (availIdx + 1) % WRAP;
      chains, queue, requests := chains[h := c], queue + [h], requests + 1;
    }

    // ----- the device -----

    /** The device takes the next avail entry. */
    method Take() returns (h: nat)
      requires Ok() && queue != []
      modifies this`device, this`queue, this`taken, this`chains
      ensures Ok() && h == old(queue)[0] && h in old(chains) && old(chains)[h].phase == Queued
      ensures chains == old(chains)[h := old(chains)[h].(phase := Taken)] && queue == old(queue)[1..]
    {
      hide OwnerOk, RequestsOk, RingsOk;
      RingsTake(avail, availIdx, device, used, usedIdx, usedSeen, chains, queue, finished, taken, looked);
      h := avail[device % NUM];
      device := (device + 1) % WRAP;
      OwnerPhase(free, desc, owner, hand, chains, h, Taken);
      RequestsTaken(chains, info, busy, seen, requests, h);
      chains := chains[h := chains[h].(phase := Taken)];
      queue, taken := queue[1..], taken + 1;
    }

    /** The device is done with a request that it has taken: status, used entry, used index. */
    method Complete(h: nat, status: nat)
      requires Ok() && h in chains && chains[h].phase == Taken
      modifies this`info, this`used, this`usedIdx, this`finished, this`chains
      ensures Ok() && h < |old(info)| && info == old(info)[h := Info(old(info)[h].b, status)]
      ensures chains == old(chains)[h := old(chains)[h].(phase := Used)] && finished == old(finished) + [h]
    {
      hide OwnerOk, RequestsOk, RingsOk;
      RingsComplete(free, desc, owner, hand, avail, availIdx, device, used, usedIdx, usedSeen,
                    chains, queue, finished, taken, looked, h);
      OwnerPhase(free, desc, owner, hand, chains, h, Used);
      RequestsDone(chains, info, busy, seen, requests, h, status);
      info := info[h := Info(info[h].b, status)];
      used := used[usedIdx % NUM := h];
      usedIdx := (usedIdx + 1) % WRAP;
      chains := chains[h := chains[h].(phase := Used)];
      finished := finished + [h];
    }

    // ----- completion -----

    /** One turn of virtio_disk_intr: false when there is nothing on the used ring. The buffer that is
        released is the one of the request that the entry completes, which had not been released before.
        `panic` is "virtio_disk_intr status". */
    method IntrTurn() returns (more: bool, panic: bool, h: nat)
      requires Ok()
      modifies this`busy, this`usedSeen, this`chains, this`finished, this`looked, this`seen
      ensures Ok() && (more || panic <==> old(finished) != []) && !(more && panic)
      ensures panic <==> old(finished) != [] && old(finished)[0] < |info| && info[old(finished)[0]].status != 0
      ensures !more ==> chains == old(chains) && busy == old(busy) && seen == old(seen) && finished == old(finished)
      ensures more ==> && h == old(finished)[0] && h in old(chains) && finished == old(finished)[1..]
                       && old(chains)[h].b in old(busy) && busy == old(busy) - {old(chains)[h].b}
                       && old(chains)[h].id !in old(seen) && seen == old(seen) + {old(chains)[h].id}
                       && chains == old(chains)[h := old(chains)[h].(phase := Seen)]
    {
      hide OwnerOk, RingsOk, RequestsOk;
      RingsSeen(avail, availIdx, device, used, usedIdx, usedSeen, chains, queue, finished, taken, looked);
      more, panic, h := usedSeen != usedIdx, false, 0;
      if !more { return; }
      h := used[usedSeen % NUM];
      OwnerPhase(free, desc, owner, hand, chains, h, Seen);
      RequestsSeen(chains, info, busy, seen, requests, h);
      if info[h].status != 0 {
        return false, true, h;
      }
      var b := info[h].b.value;
      seen := seen + {chains[h].id};
      busy := busy - {b};
      chains := chains[h := chains[h].(phase := Seen)];
      usedSeen := (usedSeen + 1) % WRAP;
      finished, looked := finished[1..], looked + 1;
    }

    /** The second half of virtio_disk_rw, once b->disk is no longer 1. */
    method Finish(h: nat, b: nat)
      requires Ok() && h in chains && chains[h].b == b && b !in busy
      modifies this
      ensures Ok() && chains == old(chains) - {h} && queue == old(queue) && finished == old(finished)
      ensures old(chains)[h].id in seen && seen == old(seen) && requests == old(requests) && busy == old(busy)
      ensures var c := old(chains)[h]; free == old(free)[h := true][c.d1 := true][c.d2 := true]
    {
      hide OwnerOk, RingsOk, RequestsOk, LinkedBy, Three;
      ghost var c, f := chains[h], free;
      Detach(h);
      SameThree(h, c.d1, c.d2);
      FreeChain(h, [h, c.d1, c.d2]);
      HandIn(free, desc, owner, hand, chains);
      FreedThree(f, free, h, c.d1, c.d2);
    }

    /** disk.info[h].b = 0: the chain is no longer a request, its descriptors are in hand. */
    method Detach(h: nat)
      requires Ok() && h in chains && chains[h].b !in busy
      modifies this`info, this`owner, this`hand, this`chains
      ensures var c := old(chains)[h];
              && Descs() && Rings() && RequestsOk(chains, info, busy, seen, requests) && chains == old(chains) - {h}
              && OpsOk(ops, chains)
              && hand == Three(h, c.d1, c.d2) && LinkedBy(desc, [h, c.d1, c.d2]) && Distinct([h, c.d1, c.d2])
              && c.id in seen && h < NUM && c.d1 < NUM && c.d2 < NUM && |free| == NUM
    {
      hide OwnerOk, RingsOk, RequestsOk, LinkedBy, Three;
      ghost var c := chains[h];
      ChainLinks(free, desc, owner, hand, chains, h);
      OwnerDrop(free, desc, owner, hand, chains, h);
      RequestsDrop(chains, info, busy, seen, requests, h);
      RingsDrop(avail, availIdx, device, used, usedIdx, usedSeen, chains, queue, finished, taken, looked, h);
      info := info[h := Info(None, info[h].status)];
      owner := owner[h := None][c.d1 := None][c.d2 := None];
      hand, chains := Three(h, c.d1, c.d2), chains - {h};
    }

    /** free_chain(): follows the links and frees exactly the descriptors of the chain. */
    method FreeChain(first: nat, ghost links: seq<nat>)
      requires Descs() && links != [] && links[0] == first && Distinct(links)
      requires (forall d :: d in hand <==> d in links) && LinkedBy(desc, links)
      modifies this`free, this`desc, this`hand
      ensures Descs() && hand == {}
      ensures forall d :: 0 <= d < NUM ==> (free[d] <==> old(free)[d] || d in links)
    {
      var i := first;
      ghost var k := 0;
      while true
        invariant 0 <= k < |links| && i == links[k] && Descs() && LinkedBy(desc, links[k..])
        invariant forall d :: d in hand <==> d in links[k..]
        invariant forall d :: 0 <= d < NUM ==> (free[d] <==> old(free)[d] || d in links[..k])
        decreases |links| - k
      {
        assert links[k..] == [links[k]] + links[k + 1..] && links[..k + 1] == links[..k] + [links[k]];
        LinkedStep(desc, links, k);
        var flag, nxt := desc[i].more, desc[i].next;
        FreeDesc(i);
        if !flag { break; }
        i := nxt;
        k := k + 1;
      }
    }
  }

  // ----- what each step keeps -----

  lemma SameThree(h: nat, d1: nat, d2: nat)
    ensures forall d :: d in Three(h, d1, d2) <==> d in [h, d1, d2]
  {
  }

  lemma FreedThree(f: seq<bool>, f': seq<bool>, h: nat, d1: nat, d2: nat)
    requires |f| == |f'| == NUM && h < NUM && d1 < NUM && d2 < NUM
    requires forall d :: 0 <= d < NUM ==> (f'[d] <==> f[d] || d in [h, d1, d2])
    ensures f' == f[h := true][d1 := true][d2 := true]
  {
  }

  lemma HandIn(free: seq<bool>, desc: seq<Desc>, owner: seq<Option<nat>>, hand: set<nat>, chains: Chains)
    requires OwnerOk(free, desc, owner, hand, chains)
    ensures |free| == NUM && |desc| == NUM && |owner| == NUM && forall d :: d in hand ==> d < NUM && !free[d]
  {
  }

  /** The descriptors follow one another by their next fields, and the last has no successor. */
  ghost predicate LinkedBy(desc: seq<Desc>, links: seq<nat>) {
    && |desc| == NUM && links != [] && (forall d :: d in links ==> d < NUM)
    && forall i :: 0 <= i < |links| ==> LinkAt(desc, links, i)
  }

  ghost predicate LinkAt(desc: seq<Desc>, links: seq<nat>, i: nat)
    requires i < |links|
  {
    links[i] < |desc| && if i + 1 < |links| then desc[links[i]].more && desc[links[i]].next == links[i + 1]
                              else !desc[links[i]].more
  }

  lemma LinkedStep(desc: seq<Desc>, links: seq<nat>, k: nat)
    requires k < |links| && Distinct(links) && LinkedBy(desc, links[k..])
    ensures links[k] < |desc| && (desc[links[k]].more <==> k + 1 < |links|)
    ensures k + 1 < |links| ==> && desc[links[k]].next == links[k + 1]
                                && LinkedBy(desc[links[k] := NoDesc], links[k + 1..])
  {
    var all, desc' := links[k..], desc;
    assert LinkAt(desc, all, 0);
    if k + 1 < |links| {
      var rest := links[k + 1..];
      desc' := desc[links[k] := NoDesc];
      forall i | 0 <= i < |rest| ensures LinkAt(desc', rest, i) {
        assert LinkAt(desc, all, i + 1) && rest[i] == links[k + 1 + i] != links[k];
      }
      assert forall d :: d in rest ==> d in all;
    }
  }

  /** What formatting and queueing a request keeps. */
  lemma Posted(free: seq<bool>, desc: seq<Desc>, owner: seq<Option<nat>>, hand: set<nat>, info: seq<Info>, ops: seq<Op>,
               busy: set<nat>, seen: set<nat>, requests: nat,
               avail: seq<nat>, availIdx: nat, device: nat, used: seq<nat>, usedIdx: nat, usedSeen: nat,
               chains: Chains, queue: seq<nat>, finished: seq<nat>, taken: nat, looked: nat, h: nat, c: Chain)
    requires OwnerOk(free, desc, owner, hand, chains) && hand == Three(h, c.d1, c.d2)
    requires h != c.d1 && h != c.d2 && c.d1 != c.d2 && Idle(chains, c.b) && c.id == requests && c.phase == Queued
    requires RingsOk(avail, availIdx, device, used, usedIdx, usedSeen, chains, queue, finished, taken, looked)
    requires RequestsOk(chains, info, busy, seen, requests) && OpsOk(ops, chains)
    ensures h < NUM && c.d1 < NUM && c.d2 < NUM && h !in chains && |desc| == NUM && |owner| == NUM && |info| == NUM
    ensures |ops| == NUM && |avail| == NUM
    ensures OwnerOk(free, Linked(desc, h, c.d1, c.d2, c.b, c.op.out), Owned(owner, h, c.d1, c.d2), {}, chains[h := c])
    ensures RequestsOk(chains[h := c], info[h := Info(Some(c.b), 0xff)], busy + {c.b}, seen, requests + 1)
    ensures OpsOk(ops[h := c.op], chains[h := c])
    ensures RingsOk(avail[availIdx % NUM := h], (availIdx + 1) % WRAP, device, used, usedIdx, usedSeen,
                    chains[h := c], queue + [h], finished, taken, looked)
  {
    hide OwnerOk, RingsOk, Linked, Owned, Three, Idle;
    OwnerTake(free, desc, owner, hand, chains, h, c);
    RequestsMore(chains, info, busy, seen, requests, h, c);
    OpsMore(ops, chains, h, c);
    RingsSubmit(free, desc, owner, hand, avail, availIdx, device, used, usedIdx, usedSeen,
                chains, queue, finished, taken, looked, h, c);
  }

  lemma OwnerTake(free: seq<bool>, desc: seq<Desc>, owner: seq<Option<nat>>, hand: set<nat>, chains: Chains, h: nat,
                  c: Chain)
    requires OwnerOk(free, desc, owner, hand, chains) && hand == Three(h, c.d1, c.d2) && h != c.d1
    requires h != c.d2 && c.d1 != c.d2
    ensures h < NUM && c.d1 < NUM && c.d2 < NUM && h !in chains && |desc| == NUM && |owner| == NUM
    ensures OwnerOk(free, Linked(desc, h, c.d1, c.d2, c.b, c.op.out), Owned(owner, h, c.d1, c.d2), {}, chains[h := c])
  {
    assert h in hand && c.d1 in hand && c.d2 in hand;
  }

  lemma OwnerHead(free: seq<bool>, desc: seq<Desc>, owner: seq<Option<nat>>, hand: set<nat>, chains: Chains, h: nat)
    requires OwnerOk(free, desc, owner, hand, chains) && h in chains
    ensures h < NUM
  {
  }

  lemma OwnerPhase(free: seq<bool>, desc: seq<Desc>, owner: seq<Option<nat>>, hand: set<nat>, chains: Chains,
                   h: nat, phase: Phase)
    requires OwnerOk(free, desc, owner, hand, chains) && h in chains
    ensures OwnerOk(free, desc, owner, hand, chains[h := chains[h].(phase := phase)])
  {
  }

  lemma ChainLinks(free: seq<bool>, desc: seq<Desc>, owner: seq<Option<nat>>, hand: set<nat>, chains: Chains, h: nat)
    requires OwnerOk(free, desc, owner, hand, chains) && h in chains
    ensures var c := chains[h];
            ChainAt(desc, owner, h, c) && LinkedBy(desc, [h, c.d1, c.d2]) && Distinct([h, c.d1, c.d2])
  {
    var links := [h, chains[h].d1, chains[h].d2];
    assert LinkAt(desc, links, 0) && LinkAt(desc, links, 1) && LinkAt(desc, links, 2);
  }

  lemma OwnerDrop(free: seq<bool>, desc: seq<Desc>, owner: seq<Option<nat>>, hand: set<nat>, chains: Chains, h: nat)
    requires OwnerOk(free, desc, owner, hand, chains) && h in chains && hand == {}
    ensures var c := chains[h];
            && h < NUM && c.d1 < NUM && c.d2 < NUM && |owner| == NUM && |free| == NUM
            && OwnerOk(free, desc, owner[h := None][c.d1 := None][c.d2 := None], Three(h, c.d1, c.d2), chains - {h})
  {
    var c := chains[h];
    assert ChainAt(desc, owner, h, c);
    var owner' := owner[h := None][c.d1 := None][c.d2 := None];
    assert forall d :: 0 <= d < NUM ==> owner'[d] == if d in Three(h, c.d1, c.d2) then None else owner[d];
    OthersStay(desc, owner, owner', chains, h);
    hide ChainAt;
    forall d | 0 <= d < NUM && owner'[d].Some?
      ensures var g := owner'[d].value; g in chains - {h} && (d == g || d == chains[g].d1 || d == chains[g].d2)
    {
      assert owner'[d] == owner[d];
    }
  }

  lemma OthersStay(desc: seq<Desc>, owner: seq<Option<nat>>, owner': seq<Option<nat>>, chains: Chains, h: nat)
    requires |desc| == NUM && |owner| == NUM && |owner'| == NUM && h in chains
    requires forall g :: g in chains ==> ChainAt(desc, owner, g, chains[g])
    requires forall d :: 0 <= d < NUM && owner[d] != Some(h) ==> owner'[d] == owner[d]
    ensures forall g :: g in chains - {h} ==> ChainAt(desc, owner', g, chains[g])
  {
  }

  lemma ListsMore(chains: Chains, queue: seq<nat>, finished: seq<nat>, h: nat, c: Chain)
    requires Lists(chains, queue, Queued) && Lists(chains, finished, Used) && h !in chains && c.phase == Queued
    ensures Lists(chains[h := c], queue + [h], Queued) && Lists(chains[h := c], finished, Used) && h !in queue
  {
    assert forall g :: g in queue + [h] <==> g in queue || g == h;
  }

  lemma ListsTaken(chains: Chains, queue: seq<nat>, finished: seq<nat>)
    requires Lists(chains, queue, Queued) && Lists(chains, finished, Used) && queue != []
    ensures queue[0] in chains && chains[queue[0]].phase == Queued
    ensures var chains' := chains[queue[0] := chains[queue[0]].(phase := Taken)];
            Lists(chains', queue[1..], Queued) && Lists(chains', finished, Used)
  {
    assert queue[0] in queue;
    assert forall g :: g in queue[1..] <==> g in queue && g != queue[0];
  }

  lemma ListsUsed(chains: Chains, queue: seq<nat>, finished: seq<nat>, h: nat)
    requires Lists(chains, queue, Queued) && Lists(chains, finished, Used) && h in chains && chains[h].phase == Taken
    ensures var chains' := chains[h := chains[h].(phase := Used)];
            Lists(chains', queue, Queued) && Lists(chains', finished + [h], Used) && h !in finished
  {
    assert forall g :: g in finished + [h] <==> g in finished || g == h;
  }

  lemma ListsSeen(chains: Chains, queue: seq<nat>, finished: seq<nat>)
    requires Lists(chains, queue, Queued) && Lists(chains, finished, Used) && finished != []
    ensures finished[0] in chains && chains[finished[0]].phase == Used
    ensures var chains' := chains[finished[0] := chains[finished[0]].(phase := Seen)];
            Lists(chains', queue, Queued) && Lists(chains', finished[1..], Used)
  {
    assert finished[0] in finished;
    assert forall g :: g in finished[1..] <==> g in finished && g != finished[0];
  }

  lemma ListsDrop(chains: Chains, queue: seq<nat>, finished: seq<nat>, h: nat)
    requires Lists(chains, queue, Queued) && Lists(chains, finished, Used) && h in chains && chains[h].phase == Seen
    ensures Lists(chains - {h}, queue, Queued) && Lists(chains - {h}, finished, Used)
  {
  }

  lemma RequestsMore(chains: Chains, info: seq<Info>, busy: set<nat>, seen: set<nat>, requests: nat, h: nat, c: Chain)
    requires RequestsOk(chains, info, busy, seen, requests) && h !in chains && h < NUM
    requires c.id == requests && c.phase == Queued && Idle(chains, c.b)
    ensures |info| == NUM
    ensures RequestsOk(chains[h := c], info[h := Info(Some(c.b), 0xff)], busy + {c.b}, seen, requests + 1)
  {
  }

  lemma RequestsTaken(chains: Chains, info: seq<Info>, busy: set<nat>, seen: set<nat>, requests: nat, h: nat)
    requires RequestsOk(chains, info, busy, seen, requests) && h in chains && chains[h].phase == Queued
    ensures RequestsOk(chains[h := chains[h].(phase := Taken)], info, busy, seen, requests)
  {
  }

  lemma RequestsDone(chains: Chains, info: seq<Info>, busy: set<nat>, seen: set<nat>, requests: nat, h: nat,
                     status: nat)
    requires RequestsOk(chains, info, busy, seen, requests) && h in chains && chains[h].phase == Taken
    ensures |info| == NUM && h < NUM
    ensures RequestsOk(chains[h := chains[h].(phase := Used)], info[h := Info(info[h].b, status)], busy, seen, requests)
  {
  }

  lemma RequestsSeen(chains: Chains, info: seq<Info>, busy: set<nat>, seen: set<nat>, requests: nat, h: nat)
    requires RequestsOk(chains, info, busy, seen, requests) && h in chains && chains[h].phase == Used
    ensures |info| == NUM && h < NUM && info[h].b == Some(chains[h].b)
    ensures chains[h].b in busy && chains[h].id !in seen
    ensures RequestsOk(chains[h := chains[h].(phase := Seen)], info, busy - {chains[h].b}, seen + {chains[h].id},
                       requests)
  {
  }

  lemma RequestsDrop(chains: Chains, info: seq<Info>, busy: set<nat>, seen: set<nat>, requests: nat, h: nat)
    requires RequestsOk(chains, info, busy, seen, requests) && h in chains && chains[h].b !in busy
    ensures chains[h].phase == Seen && |info| == NUM && h < NUM && chains[h].id in seen
    ensures RequestsOk(chains - {h}, info[h := Info(None, info[h].status)], busy, seen, requests)
  {
  }

  lemma RingsSubmit(free: seq<bool>, desc: seq<Desc>, owner: seq<Option<nat>>, hand: set<nat>,
                    avail: seq<nat>, availIdx: nat, device: nat, used: seq<nat>, usedIdx: nat, usedSeen: nat,
                    chains: Chains, queue: seq<nat>, finished: seq<nat>, taken: nat, looked: nat, h: nat, c: Chain)
    requires OwnerOk(free, desc, owner, hand, chains)
    requires RingsOk(avail, availIdx, device, used, usedIdx, usedSeen, chains, queue, finished, taken, looked)
    requires h !in chains && h < NUM && c.phase == Queued
    ensures |avail| == NUM
    ensures RingsOk(avail[availIdx % NUM := h], (availIdx + 1) % WRAP, device, used, usedIdx, usedSeen,
                    chains[h := c], queue + [h], finished, taken, looked)
  {
    hide OwnerOk, RingOk, Lists;
    ListsMore(chains, queue, finished, h, c);
    Room(free, desc, owner, hand, chains, queue, Queued, h);
    IndexWraps(taken + |queue|, taken);
    RingPut(avail, taken, queue, h);
  }

  lemma RingsTake(avail: seq<nat>, availIdx: nat, device: nat, used: seq<nat>, usedIdx: nat, usedSeen: nat,
                  chains: Chains, queue: seq<nat>, finished: seq<nat>, taken: nat, looked: nat)
    requires RingsOk(avail, availIdx, device, used, usedIdx, usedSeen, chains, queue, finished, taken, looked)
    requires queue != []
    ensures |avail| == NUM && avail[device % NUM] == queue[0] && queue[0] in chains && chains[queue[0]].phase == Queued
    ensures RingsOk(avail, availIdx, (device + 1) % WRAP, used, usedIdx, usedSeen,
                    chains[queue[0] := chains[queue[0]].(phase := Taken)], queue[1..], finished, taken + 1, looked)
  {
    hide RingOk, Lists;
    RingTake(avail, taken, queue);
    IndexWraps(taken, taken);
    ListsTaken(chains, queue, finished);
  }

  lemma RingsComplete(free: seq<bool>, desc: seq<Desc>, owner: seq<Option<nat>>, hand: set<nat>,
                      avail: seq<nat>, availIdx: nat, device: nat, used: seq<nat>, usedIdx: nat, usedSeen: nat,
                      chains: Chains, queue: seq<nat>, finished: seq<nat>, taken: nat, looked: nat, h: nat)
    requires OwnerOk(free, desc, owner, hand, chains)
    requires RingsOk(avail, availIdx, device, used, usedIdx, usedSeen, chains, queue, finished, taken, looked)
    requires h in chains && chains[h].phase == Taken
    ensures |used| == NUM
    ensures RingsOk(avail, availIdx, device, used[usedIdx % NUM := h], (usedIdx + 1) % WRAP, usedSeen,
                    chains[h := chains[h].(phase := Used)], queue, finished + [h], taken, looked)
  {
    hide OwnerOk, RingOk, Lists;
    ListsUsed(chains, queue, finished, h);
    OwnerHead(free, desc, owner, hand, chains, h);
    Room(free, desc, owner, hand, chains, finished, Used, h);
    IndexWraps(looked + |finished|, looked);
    RingPut(used, looked, finished, h);
  }

  lemma RingsSeen(avail: seq<nat>, availIdx: nat, device: nat, used: seq<nat>, usedIdx: nat, usedSeen: nat,
                  chains: Chains, queue: seq<nat>, finished: seq<nat>, taken: nat, looked: nat)
    requires RingsOk(avail, availIdx, device, used, usedIdx, usedSeen, chains, queue, finished, taken, looked)
    ensures usedSeen == usedIdx <==> finished == []
    ensures finished != [] ==>
              && |used| == NUM && used[usedSeen % NUM] == finished[0]
              && finished[0] in chains && chains[finished[0]].phase == Used
              && RingsOk(avail, availIdx, device, used, usedIdx, (usedSeen + 1) % WRAP,
                         chains[finished[0] := chains[finished[0]].(phase := Seen)], queue, finished[1..], taken,
                         looked + 1)
  {
    hide RingOk, Lists;
    RingSize(used, looked, finished);
    IndexWraps(looked + |finished|, looked);
    IndexWraps(looked, looked);
    if finished != [] {
      RingTake(used, looked, finished);
      ListsSeen(chains, queue, finished);
    }
  }

  lemma RingsDrop(avail: seq<nat>, availIdx: nat, device: nat, used: seq<nat>, usedIdx: nat, usedSeen: nat,
                  chains: Chains, queue: seq<nat>, finished: seq<nat>, taken: nat, looked: nat, h: nat)
    requires RingsOk(avail, availIdx, device, used, usedIdx, usedSeen, chains, queue, finished, taken, looked)
    requires h in chains && chains[h].phase == Seen
    ensures RingsOk(avail, availIdx, device, used, usedIdx, usedSeen, chains - {h}, queue, finished, taken, looked)
  {
    hide RingOk, Lists;
    ListsDrop(chains, queue, finished, h);
  }
}
