/** Copying between the kernel and a process, page by page, with memory allocated on first use;
    growing and shrinking a process; taking an address space down. */
module UserMemory {

  import opened Blocks
  import opened PageTable
  import opened AddressSpace
  import opened Vm

  /** No page can be had at vpn, whatever the state of the free list. */
  ghost predicate Blocked(maps: Maps, root: nat, sz: nat, vpn: nat, write: bool) {
    if Va(root, vpn) in maps then !maps[Va(root, vpn)].u || (write && !maps[Va(root, vpn)].w)
    else PGSIZE * vpn >= sz
  }

  /** walkaddr() */
  method Walkaddr(mem: Memory, root: nat, vpn: nat) returns (page: nat)
    requires mem.Ok() && mem.IsRoot(root)
    modifies mem`tables, mem`free, mem`home
    ensures mem.Ok() && mem.All() == old(mem.All())
    ensures mem.tables == old(mem.tables) && mem.free == old(mem.free) && mem.home == old(mem.home)
    ensures page == if Va(root, vpn) in mem.maps && mem.maps[Va(root, vpn)].u then mem.maps[Va(root, vpn)].pa else 0
    ensures page != 0 <==> Va(root, vpn) in mem.maps && mem.maps[Va(root, vpn)].u
    ensures page != 0 ==> page in mem.owned && page in mem.data
  {
    hide TreeOk, LowTable, Pages, Lookup;
    if vpn >= MAXVPN { return 0; }
    var pt := mem.Walk(root, vpn, false);
    FoundIs(mem.tables, mem.home, mem.maps, root, vpn);
    if pt == 0 { return 0; }
    var pte := mem.tables[pt][PX(0, vpn)];
    if !pte.v || !pte.u { return 0; }
    page := pte.pa;
  }

  /** The page behind vpn for a copy: the mapped one, or one that vmfault supplies. */
  method Reach(mem: Memory, root: nat, sz: nat, vpn: nat) returns (page: nat)
    requires mem.Ok() && mem.IsRoot(root) && sz <= MAXVA
    modifies mem
    ensures mem.Ok() && KeepsHome(old(mem.home), mem.home) && mem.All() == old(mem.All())
    ensures SameView(old(mem.maps), old(mem.data), mem.maps, mem.data)
    ensures forall v :: v != vpn ==> Get(mem.maps, root, v) == Get(old(mem.maps), root, v)
    ensures Va(root, vpn) in old(mem.maps) ==> Get(mem.maps, root, vpn) == Get(old(mem.maps), root, vpn)
    ensures page != 0 ==>
              && Va(root, vpn) in mem.maps && mem.maps[Va(root, vpn)].pa == page && mem.maps[Va(root, vpn)].u
                          && (Va(root, vpn) !in old(mem.maps) ==> mem.maps[Va(root, vpn)].w)
                          && |old(mem.free)| <= |mem.free| + 3 && page in mem.data && page !in mem.foreign
                          && vpn < MAXVPN
                          && !Blocked(old(mem.maps), root, sz, vpn, false)
    ensures page == 0 ==> Blocked(old(mem.maps), root, sz, vpn, false) || |old(mem.free)| < 3
  {
    hide MemOk, Pages, SameView, ZeroPage;
    page := Walkaddr(mem, root, vpn);
    ReachMapped(mem.tables, mem.home, mem.maps, mem.owned, mem.foreign, mem.free, mem.data, root, vpn);
    if page == 0 {
      ghost var t, h, m, o, f, d := mem.tables, mem.home, mem.maps, mem.owned, mem.free, mem.data;
      var panic;
      page, panic := mem.Vmfault(root, root, sz, PGSIZE * vpn);
      assert PGSIZE * vpn / PGSIZE == vpn;
      if page != 0 {
        ReachNew(t, h, m, o, mem.foreign, f, d, mem.tables, mem.home, mem.maps, mem.owned, mem.free, mem.data, root,
                 vpn, page);
      }
    }
  }

  lemma ReachMapped(tables: Tables, home: Home, maps: Maps, owned: map<nat, Va>, foreign: set<nat>,
                    free: seq<nat>, data: map<nat, Page>, root: nat, vpn: nat)
    requires MemOk(tables, home, maps, owned, foreign, free, data)
    ensures SameView(maps, data, maps, data)
    ensures Va(root, vpn) in maps && maps[Va(root, vpn)].u ==> vpn < MAXVPN && maps[Va(root, vpn)].pa !in foreign
  {
    hide TreeOk;
  }

  lemma ReachNew(t0: Tables, h0: Home, m0: Maps, o0: map<nat, Va>, foreign: set<nat>, f0: seq<nat>, d0: map<nat, Page>,
                 t: Tables, h: Home, m: Maps, o: map<nat, Va>, f: seq<nat>, d: map<nat, Page>,
                 root: nat, vpn: nat, page: nat)
    requires MemOk(t0, h0, m0, o0, foreign, f0, d0) && MemOk(t, h, m, o, foreign, f, d)
    requires Va(root, vpn) !in m0 && page !in o0 && page !in d0
    requires m == m0[Va(root, vpn) := Pte(true, true, true, false, true, page)]
    requires o == o0[page := Va(root, vpn)] && d == d0[page := ZeroPage()]
    ensures SameView(m0, d0, m, d) && page !in foreign && vpn < MAXVPN
  {
    hide TreeOk, Lookup, Added, Filled, SameView, ZeroPage;
    var flags := Pte(true, true, true, false, true, 0);
    AddedStart(m0, o0, d0, root, vpn);
    AddedStep(m0, o0, d0, m0, o0, d0, root, vpn, 0, flags.(pa := page), ZeroPage());
    FilledStart(m0, d0, root, vpn, flags);
    FilledStep(m0, d0, root, vpn, 0, flags, page);
    FilledView(m0, o0, d0, m, o, d, foreign, root, vpn, 1, flags);
    assert Va(root, vpn) in m;
  }

  // ----- copyin -----

  function PageOf(a: nat): (v: nat) { a / PGSIZE }

  /** min(PGSIZE - (va - va0), left) */
  function Chunk(a: nat, left: nat): (n: nat)
    requires left > 0
    ensures 0 < n <= left && a % PGSIZE + n <= PGSIZE
    ensures forall x :: a <= x < a + n ==> PageOf(x) == PageOf(a) && x % PGSIZE == a % PGSIZE + (x - a)
    ensures n < left ==> (a + n) % PGSIZE == 0 && PageOf(a + n) == PageOf(a) + 1
  {
    if PGSIZE - a % PGSIZE > left then left else PGSIZE - a % PGSIZE
  }

  /** The copy has come to address a, having passed whole pages and met none that is blocked. */
  ghost predicate Passed(m0: Maps, m: Maps, root: nat, sz: nat, start: nat, a: nat, left: nat, write: bool) {
    && (left > 0 ==> a == start || a % PGSIZE == 0)
    && (forall v: nat :: (a <= start || v > PageOf(a - 1)) ==> Get(m, root, v) == Get(m0, root, v))
    && (forall x :: start <= x < a ==> !Blocked(m0, root, sz, PageOf(x), write))
  }

  /** The bytes are what the program sees from start on. */
  ghost predicate Reads(m: Maps, d: map<nat, Page>, root: nat, start: nat, bytes: seq<Byte>) {
    forall i :: 0 <= i < |bytes| ==> bytes[i] == View(m, d, root, start + i)
  }

  method Copyin(mem: Memory, root: nat, sz: nat, srcva: nat, len: nat) returns (ok: bool, dst: seq<Byte>)
    requires mem.Ok() && mem.IsRoot(root) && sz <= MAXVA
    modifies mem
    ensures mem.Ok() && KeepsHome(old(mem.home), mem.home) && mem.All() == old(mem.All())
    ensures SameView(old(mem.maps), old(mem.data), mem.maps, mem.data)
    ensures |dst| <= len && (ok <==> |dst| == len)
    ensures Reads(old(mem.maps), old(mem.data), root, srcva, dst)
    ensures forall x :: srcva <= x < srcva + |dst| ==> !Blocked(old(mem.maps), root, sz, PageOf(x), false)
    ensures !ok ==> || Blocked(old(mem.maps), root, sz, PageOf(srcva + |dst|), false)
                    || |old(mem.free)| < 3 * (PageOf(srcva + |dst|) - PageOf(srcva) + 1)
  {
    hide MemOk, Pages, SameView, View, PageOf, Passed, Blocked, Chunk, Get, Reads;
    dst := [];
    CopyStart(mem.maps, mem.data, root, sz, srcva, len, false);
    while |dst| < len
      invariant |dst| <= len
      invariant mem.Ok() && KeepsHome(old(mem.home), mem.home) && mem.All() == old(mem.All())
      invariant SameView(old(mem.maps), old(mem.data), mem.maps, mem.data)
      invariant Reads(old(mem.maps), old(mem.data), root, srcva, dst)
      invariant Passed(old(mem.maps), mem.maps, root, sz, srcva, srcva + |dst|, len - |dst|, false)
      invariant |dst| < len ==> |old(mem.free)| <= |mem.free| + 3 * (PageOf(srcva + |dst|) - PageOf(srcva))
    {
      var a := srcva + |dst|;
      ghost var m, d := mem.maps, mem.data;
      var page := Reach(mem, root, sz, PageOf(a));
      PassedTurn(old(mem.maps), m, mem.maps, root, sz, srcva, a, len - |dst|, false);
      SameTrans(old(mem.maps), old(mem.data), m, d, mem.maps, mem.data);
      if page == 0 {
        PassedAll(old(mem.maps), m, root, sz, srcva, a, len - |dst|, false);
        return false, dst;
      }
      var n := Chunk(a, len - |dst|);
      ReadMore(old(mem.maps), old(mem.data), mem.maps, mem.data, root, srcva, dst, len - |dst|, page);
      dst := dst + mem.data[page][a % PGSIZE..a % PGSIZE + n];
    }
    PassedAll(old(mem.maps), mem.maps, root, sz, srcva, srcva + |dst|, 0, false);
    ok := true;
  }

  lemma PassedAll(m0: Maps, m: Maps, root: nat, sz: nat, start: nat, a: nat, left: nat, write: bool)
    requires Passed(m0, m, root, sz, start, a, left, write)
    ensures forall x :: start <= x < a ==> !Blocked(m0, root, sz, PageOf(x), write)
  {
  }

  lemma CopyStart(m: Maps, d: map<nat, Page>, root: nat, sz: nat, start: nat, left: nat, write: bool)
    ensures SameView(m, d, m, d) && Passed(m, m, root, sz, start, start, left, write) && Reads(m, d, root, start, [])
  {
  }

  /** One turn of a copy: the page at a is still as it was at the start, and is passed if it is not blocked. */
  lemma PassedTurn(m0: Maps, m: Maps, m': Maps, root: nat, sz: nat, start: nat, a: nat, left: nat, write: bool)
    requires Passed(m0, m, root, sz, start, a, left, write) && left > 0 && start <= a
    requires forall v :: v != PageOf(a) ==> Get(m', root, v) == Get(m, root, v)
    ensures Get(m, root, PageOf(a)) == Get(m0, root, PageOf(a))
    ensures forall w :: Blocked(m, root, sz, PageOf(a), w) <==> Blocked(m0, root, sz, PageOf(a), w)
    ensures !Blocked(m0, root, sz, PageOf(a), write) ==>
              Passed(m0, m', root, sz, start, a + Chunk(a, left), left - Chunk(a, left), write)
  {
    var n := Chunk(a, left);
    assert a > start ==> PageOf(a) > PageOf(a - 1);
    assert PageOf(a + n - 1) == PageOf(a);
  }

  lemma SameTrans(m0: Maps, d0: map<nat, Page>, m1: Maps, d1: map<nat, Page>, m2: Maps, d2: map<nat, Page>)
    requires SameView(m0, d0, m1, d1) && SameView(m1, d1, m2, d2)
    ensures SameView(m0, d0, m2, d2)
  {
    hide View;
    forall r: nat, a: nat ensures View(m2, d2, r, a) == View(m0, d0, r, a) {
      assert View(m2, d2, r, a) == View(m1, d1, r, a);
    }
  }

  lemma ReadMore(m0: Maps, d0: map<nat, Page>, m: Maps, d: map<nat, Page>, root: nat, start: nat, dst: seq<Byte>,
                 left: nat, page: nat)
    requires SameView(m0, d0, m, d) && left > 0
    requires Reads(m0, d0, root, start, dst)
    requires var k := Va(root, PageOf(start + |dst|)); k in m && m[k].pa == page && page in d
    ensures var a := start + |dst|;
            Reads(m0, d0, root, start, dst + d[page][a % PGSIZE..a % PGSIZE + Chunk(a, left)])
  {
    var a := start + |dst|;
    var s := dst + d[page][a % PGSIZE..a % PGSIZE + Chunk(a, left)];
    forall i | 0 <= i < |s| ensures s[i] == View(m0, d0, root, start + i) {
      assert View(m, d, root, start + i) == View(m0, d0, root, start + i);
      if i >= |dst| { assert PageOf(start + i) == PageOf(a); }
    }
  }

  // ----- copyout -----

  /** The program sees the bytes from start on, and otherwise everything is as before, in every address space. */
  ghost predicate Written(m0: Maps, d0: map<nat, Page>, m: Maps, d: map<nat, Page>, root: nat, start: nat,
                          bytes: seq<Byte>)
  {
    forall r: nat, a: nat :: View(m, d, r, a) ==
        if r == root && start <= a < start + |bytes| then bytes[a - start] else View(m0, d0, r, a)
  }

  method Copyout(mem: Memory, root: nat, sz: nat, dstva: nat, src: seq<Byte>) returns (ok: bool, ghost done: nat)
    requires mem.Ok() && mem.IsRoot(root) && sz <= MAXVA
    modifies mem
    ensures mem.Ok() && KeepsHome(old(mem.home), mem.home) && mem.All() == old(mem.All())
    ensures done <= |src| && (ok <==> done == |src|)
    ensures Written(old(mem.maps), old(mem.data), mem.maps, mem.data, root, dstva, src[..done])
    ensures forall x :: dstva <= x < dstva + done ==> !Blocked(old(mem.maps), root, sz, PageOf(x), true)
    ensures !ok ==> || Blocked(old(mem.maps), root, sz, PageOf(dstva + done), true)
                    || |old(mem.free)| < 3 * (PageOf(dstva + done) - PageOf(dstva) + 1)
  {
    hide MemOk, Pages, SameView, View, PageOf, Passed, Blocked, Chunk, Get, Written, Patched, LowTable;
    var i := 0;
    WriteStart(mem.maps, mem.data, root, sz, dstva, src);
    while i < |src|
      invariant i <= |src|
      invariant mem.Ok() && KeepsHome(old(mem.home), mem.home) && mem.All() == old(mem.All())
      invariant Written(old(mem.maps), old(mem.data), mem.maps, mem.data, root, dstva, src[..i])
      invariant Passed(old(mem.maps), mem.maps, root, sz, dstva, dstva + i, |src| - i, true)
      invariant i < |src| ==> |old(mem.free)| <= |mem.free| + 3 * (PageOf(dstva + i) - PageOf(dstva))
    {
      var a := dstva + i;
      done := i;
      ghost var m, d := mem.maps, mem.data;
      var page := Reach(mem, root, sz, PageOf(a));
      PassedTurn(old(mem.maps), m, mem.maps, root, sz, dstva, a, |src| - i, true);
      PassedAll(old(mem.maps), m, root, sz, dstva, a, |src| - i, true);
      WriteNothing(old(mem.maps), old(mem.data), m, d, mem.maps, mem.data, root, dstva, src[..i]);
      if page == 0 {
        BlockedMore(m, root, sz, PageOf(a));
        return false, i;
      }
      var pt := mem.Walk(root, PageOf(a), false);
      WriteCheck(m, mem.tables, mem.home, mem.maps, mem.owned, mem.foreign, mem.free, mem.data, root, sz, PageOf(a));
      if !mem.tables[pt][PX(0, PageOf(a))].w { return false, i; }
      var n := Chunk(a, |src| - i);
      WriteMore(old(mem.maps), old(mem.data), mem.tables, mem.home, mem.maps, mem.owned, mem.foreign, mem.free,
                mem.data, root, dstva, src, i);
      mem.data := mem.data[page := Patched(mem.data[page], a % PGSIZE, src[i..i + n])];
      i := i + n;
    }
    PassedAll(old(mem.maps), mem.maps, root, sz, dstva, dstva + i, 0, true);
    ok, done := true, i;
  }

  lemma WriteStart(m: Maps, d: map<nat, Page>, root: nat, sz: nat, start: nat, src: seq<Byte>)
    ensures Passed(m, m, root, sz, start, start, |src|, true) && Written(m, d, m, d, root, start, src[..0])
  {
  }

  lemma BlockedMore(m: Maps, root: nat, sz: nat, vpn: nat)
    ensures Blocked(m, root, sz, vpn, false) ==> Blocked(m, root, sz, vpn, true)
  {
  }

  lemma WriteNothing(m0: Maps, d0: map<nat, Page>, m1: Maps, d1: map<nat, Page>, m2: Maps, d2: map<nat, Page>,
                     root: nat, start: nat, bytes: seq<Byte>)
    requires Written(m0, d0, m1, d1, root, start, bytes) && SameView(m1, d1, m2, d2)
    ensures Written(m0, d0, m2, d2, root, start, bytes)
  {
    hide View;
    forall r: nat, a: nat
      ensures View(m2, d2, r, a) ==
                if r == root && start <= a < start + |bytes| then bytes[a - start] else View(m0, d0, r, a)
    {
      assert View(m2, d2, r, a) == View(m1, d1, r, a);
    }
  }

  /** The entry whose PTE_W bit decides; m is the map before the page was reached. */
  lemma WriteCheck(m: Maps, tables: Tables, home: Home, maps: Maps, owned: map<nat, Va>, foreign: set<nat>,
                   free: seq<nat>, data: map<nat, Page>, root: nat, sz: nat, vpn: nat)
    requires MemOk(tables, home, maps, owned, foreign, free, data) && root in home && home[root].Root? && vpn < MAXVPN
    requires Va(root, vpn) in maps && !Blocked(m, root, sz, vpn, false)
    requires if Va(root, vpn) in m then Get(maps, root, vpn) == Get(m, root, vpn) else maps[Va(root, vpn)].w
    ensures LowTable(tables, root, vpn).Some? && LowTable(tables, root, vpn).value in tables
    ensures tables[LowTable(tables, root, vpn).value][PX(0, vpn)].w <==> !Blocked(m, root, sz, vpn, true)
  {
    hide TreeOk, Refines, Apart, Leaves, LowTable;
    FoundIs(tables, home, maps, root, vpn);
  }

  lemma WriteMore(m0: Maps, d0: map<nat, Page>, tables: Tables, home: Home, maps: Maps, owned: map<nat, Va>,
                  foreign: set<nat>, free: seq<nat>, data: map<nat, Page>, root: nat, start: nat, src: seq<Byte>,
                  i: nat)
    requires MemOk(tables, home, maps, owned, foreign, free, data) && i < |src|
    requires Written(m0, d0, maps, data, root, start, src[..i])
    requires var k := Va(root, PageOf(start + i)); k in maps && maps[k].pa in data && maps[k].pa !in foreign
    ensures var a, n := start + i, Chunk(start + i, |src| - i);
            var page := maps[Va(root, PageOf(a))].pa;
            var data' := data[page := Patched(data[page], a % PGSIZE, src[i..i + n])];
            && MemOk(tables, home, maps, owned, foreign, free, data')
            && Written(m0, d0, maps, data', root, start, src[..i + n])
  {
    hide TreeOk, Refines, Apart, View, Chunk;
    var a, n := start + i, Chunk(start + i, |src| - i);
    var k := Va(root, PageOf(a));
    var data' := data[maps[k].pa := Patched(data[maps[k].pa], a % PGSIZE, src[i..i + n])];
    assert PGSIZE * PageOf(a) + a % PGSIZE == a;
    forall r: nat, x: nat
      ensures View(maps, data', r, x) ==
                if r == root && start <= x < start + |src[..i + n]| then src[..i + n][x - start]
                                         else View(m0, d0, r, x)
    {
      PatchView(maps, owned, data, foreign, k, a % PGSIZE, src[i..i + n], r, x);
      assert View(maps, data, r, x) ==
                if r == root && start <= x < start + |src[..i]| then src[..i][x - start] else View(m0, d0, r, x);
    }
  }

  // ----- copyinstr -----

  /** A page that walkaddr finds for user code. */
  ghost predicate UserPage(maps: Maps, root: nat, vpn: nat) { Va(root, vpn) in maps && maps[Va(root, vpn)].u }

  /** The bytes are what the program sees from start on, none is zero, and all lie on mapped pages. */
  ghost predicate Scanned(m: Maps, d: map<nat, Page>, root: nat, start: nat, bytes: seq<Byte>) {
    && Reads(m, d, root, start, bytes)
    && forall i :: 0 <= i < |bytes| ==> bytes[i] != 0 && UserPage(m, root, PageOf(start + i))
  }

  /** A byte other than zero on a mapped user page. */
  ghost predicate ByteThere(m: Maps, d: map<nat, Page>, root: nat, a: nat) {
    UserPage(m, root, PageOf(a)) && View(m, d, root, a) != 0
  }

  /** From start on there are n such bytes and then a zero byte, also on a mapped user page. */
  ghost predicate StringEnds(m: Maps, d: map<nat, Page>, root: nat, start: nat, n: nat) {
    && (forall a :: start <= a < start + n ==> ByteThere(m, d, root, a))
    && UserPage(m, root, PageOf(start + n)) && View(m, d, root, start + n) == 0
  }

  /** copyinstr(): unlike copyin it never calls vmfault, so it stops at a page that is not mapped yet
      even though the program sees zeros there. */
  method Copyinstr(mem: Memory, root: nat, srcva: nat, max: nat) returns (ok: bool, dst: seq<Byte>)
    requires mem.Ok() && mem.IsRoot(root)
    modifies mem`tables, mem`free, mem`home
    ensures mem.Ok() && mem.tables == old(mem.tables) && mem.free == old(mem.free) && mem.home == old(mem.home)
    ensures |dst| <= max && Scanned(mem.maps, mem.data, root, srcva, dst)
    ensures ok <==> exists n :: 0 <= n < max && StringEnds(mem.maps, mem.data, root, srcva, n)
    ensures ok ==> StringEnds(mem.maps, mem.data, root, srcva, |dst|)
    ensures !ok ==> |dst| == max || !UserPage(mem.maps, root, PageOf(srcva + |dst|))
  {
    hide MemOk, Pages, PageOf, Reads, StringEnds, UserPage;
    dst := [];
    ScanStart(mem.maps, mem.data, root, srcva);
    while |dst| < max
      invariant mem.Ok() && mem.tables == old(mem.tables) && mem.free == old(mem.free) && mem.home == old(mem.home)
      invariant |dst| <= max && Scanned(mem.maps, mem.data, root, srcva, dst)
    {
      var a := srcva + |dst|;
      var page := Walkaddr(mem, root, PageOf(a));
      UserPageIs(mem.maps, root, PageOf(a));
      if page == 0 {
        ScanFails(mem.maps, mem.data, root, srcva, dst, max);
        return false, dst;
      }
      var n := Chunk(a, max - |dst|);
      var i := 0;
      while i < n
        invariant i <= n && |dst| == a - srcva + i && Scanned(mem.maps, mem.data, root, srcva, dst)
        modifies {}
      {
        ScanByte(mem.maps, mem.data, root, srcva, dst, a, a + i, n);
        var c := mem.data[page][a % PGSIZE + i];
        if c == 0 {
          ScanEnds(mem.maps, mem.data, root, srcva, dst);
          return true, dst;
        }
        dst := dst + [c];
        i := i + 1;
      }
    }
    ScanFails(mem.maps, mem.data, root, srcva, dst, max);
    ok := false;
  }

  lemma UserPageIs(m: Maps, root: nat, vpn: nat)
    ensures UserPage(m, root, vpn) <==> Va(root, vpn) in m && m[Va(root, vpn)].u
  {
  }

  lemma ScanEnds(m: Maps, d: map<nat, Page>, root: nat, start: nat, dst: seq<Byte>)
    requires Scanned(m, d, root, start, dst) && UserPage(m, root, PageOf(start + |dst|))
    requires View(m, d, root, start + |dst|) == 0
    ensures StringEnds(m, d, root, start, |dst|)
  {
    hide UserPage, View, PageOf;
    forall a | start <= a < start + |dst| ensures ByteThere(m, d, root, a) { assert dst[a - start] != 0; }
  }

  lemma ScanFails(m: Maps, d: map<nat, Page>, root: nat, start: nat, dst: seq<Byte>, max: nat)
    requires Scanned(m, d, root, start, dst) && |dst| <= max
    requires |dst| == max || !UserPage(m, root, PageOf(start + |dst|))
    ensures forall n :: 0 <= n < max ==> !StringEnds(m, d, root, start, n)
  {
    hide UserPage, View, PageOf;
    forall n | 0 <= n < max ensures !StringEnds(m, d, root, start, n) {
      if n < |dst| { assert dst[n] != 0; } else if n > |dst| { assert !ByteThere(m, d, root, start + |dst|); }
    }
  }

  /** copyinstr finds the string of n bytes that the program sees, if and only if all of its pages are mapped. */
  lemma StringIffMapped(m: Maps, d: map<nat, Page>, root: nat, start: nat, n: nat, max: nat)
    requires n < max && View(m, d, root, start + n) == 0
    requires forall a :: start <= a < start + n ==> View(m, d, root, a) != 0
    ensures (exists k :: 0 <= k < max && StringEnds(m, d, root, start, k))
            <==> forall a :: start <= a <= start + n ==> UserPage(m, root, PageOf(a))
  {
    hide UserPage, View, PageOf;
    if k :| 0 <= k < max && StringEnds(m, d, root, start, k) {
      assert n < k ==> ByteThere(m, d, root, start + n);
      forall a | start <= a <= start + n ensures UserPage(m, root, PageOf(a)) {
        if a < start + n { assert ByteThere(m, d, root, a); }
      }
    }
    if forall a :: start <= a <= start + n ==> UserPage(m, root, PageOf(a)) {
      assert StringEnds(m, d, root, start, n);
    }
  }

  /** A program whose memory is all lazy: at address 0 copyinstr fails, and copyin gives the zero byte that
      ends the empty string there. */
  method LazyString() returns (found: bool, read: bool, bytes: seq<Byte>)
    ensures !found && read && bytes == [0]
  {
    hide MemOk, Pages, View, SameView, UserOk;
    var mem := new Memory([1, 2, 3, 4], {});
    var root := mem.Uvmcreate();
    NothingThere(mem.maps, mem.foreign, root);
    var ok, sz := Sbrk(mem, root, 0, PGSIZE, false);
    var dst;
    found, dst := Copyinstr(mem, root, 0, 1);
    LazyPage(mem.maps, mem.data, root);
    read, bytes := Copyin(mem, root, sz, 0, 1);
  }

  lemma ScanStart(m: Maps, d: map<nat, Page>, root: nat, start: nat)
    ensures Scanned(m, d, root, start, [])
  {
  }

  lemma ScanByte(m: Maps, d: map<nat, Page>, root: nat, start: nat, dst: seq<Byte>, a: nat, x: nat, n: nat)
    requires Scanned(m, d, root, start, dst) && x == start + |dst| && a <= x < a + n
    requires UserPage(m, root, PageOf(a)) && m[Va(root, PageOf(a))].pa in d && a % PGSIZE + n <= PGSIZE
    ensures var c := d[m[Va(root, PageOf(a))].pa][a % PGSIZE + (x - a)];
            && PageOf(x) == PageOf(a) && View(m, d, root, x) == c
            && (c != 0 ==> Scanned(m, d, root, start, dst + [c]))
  {
    hide Scanned;
    SamePage(a, x, n);
    var c := d[m[Va(root, PageOf(a))].pa][a % PGSIZE + (x - a)];
    if c != 0 { ScannedMore(m, d, root, start, dst, c); }
  }

  lemma SamePage(a: nat, x: nat, n: nat)
    requires a <= x < a + n && a % PGSIZE + n <= PGSIZE
    ensures x / PGSIZE == a / PGSIZE && x % PGSIZE == a % PGSIZE + (x - a)
  {
  }

  lemma ScannedMore(m: Maps, d: map<nat, Page>, root: nat, start: nat, dst: seq<Byte>, c: Byte)
    requires Scanned(m, d, root, start, dst) && c != 0 && View(m, d, root, start + |dst|) == c
    requires UserPage(m, root, PageOf(start + |dst|))
    ensures Scanned(m, d, root, start, dst + [c])
  {
    hide View, PageOf;
  }

  lemma NothingThere(maps: Maps, foreign: set<nat>, root: nat)
    requires maps == map[]
    ensures UserOk(maps, foreign, root, 0)
  {
  }

  lemma LazyPage(maps: Maps, data: map<nat, Page>, root: nat)
    requires maps == map[]
    ensures !Blocked(maps, root, PGSIZE, PageOf(0), false) && View(maps, data, root, 0) == 0
    ensures forall n :: 0 <= n < 1 ==> !StringEnds(maps, data, root, 0, n)
    ensures PageOf(0) == 0
  {
  }

  // ----- fork -----

  /** uvmcopy as kfork uses it: the child sees what the parent sees, no other view changes, and no page is shared. */
  method ForkMemory(mem: Memory, from: nat, to: nat, sz: nat) returns (ok: bool)
    requires mem.Ok() && mem.IsRoot(from) && mem.IsRoot(to) && from != to && UserOk(mem.maps, mem.foreign, from, sz)
    requires forall v :: 0 <= v < PageUp(sz) ==> Va(to, v) !in mem.maps
    modifies mem
    ensures mem.Ok() && KeepsHome(old(mem.home), mem.home) && mem.All() == old(mem.All())
    ensures ok ==> forall a :: 0 <= a < PGSIZE * PageUp(sz) ==>
                     View(mem.maps, mem.data, to, a) == View(old(mem.maps), old(mem.data), from, a)
    ensures ok ==> forall r: nat, a: nat :: r != to ==>
              View(mem.maps, mem.data, r, a) == View(old(mem.maps), old(mem.data), r, a)
    ensures ok ==> forall v :: 0 <= v < PageUp(sz) && Va(to, v) in mem.maps ==>
              mem.maps[Va(to, v)].pa !in old(mem.owned)
    ensures !ok ==> mem.maps == old(mem.maps) && mem.data == old(mem.data) && |old(mem.free)| < 3 * PageUp(sz)
  {
    hide MemOk, Pages, View, Added, Mirrors;
    ghost var t, h, m, o, f, d := mem.tables, mem.home, mem.maps, mem.owned, mem.free, mem.data;
    ForkReady(m, mem.foreign, from, sz);
    ok := mem.Uvmcopy(from, to, sz);
    if ok {
      ForkView(t, h, m, o, mem.foreign, f, d, mem.tables, mem.home, mem.maps, mem.owned, mem.free, mem.data, from,
               to, PageUp(sz));
    }
  }

  lemma ForkReady(maps: Maps, foreign: set<nat>, from: nat, sz: nat)
    requires UserOk(maps, foreign, from, sz)
    ensures sz <= MAXVA && forall v :: 0 <= v < PageUp(sz) && Va(from, v) in maps ==> maps[Va(from, v)].pa !in foreign
  {
    Unmapped(maps, foreign, from, sz);
  }

  lemma ForkView(t0: Tables, h0: Home, m0: Maps, o0: map<nat, Va>, foreign: set<nat>, f0: seq<nat>, d0: map<nat, Page>,
                 t: Tables, h: Home, m: Maps, o: map<nat, Va>, f: seq<nat>, d: map<nat, Page>, from: nat, to: nat,
                 count: nat)
    requires MemOk(t0, h0, m0, o0, foreign, f0, d0) && MemOk(t, h, m, o, foreign, f, d)
    requires Added(m0, o0, d0, m, o, d, to, 0, count) && Mirrors(m, d, from, to, count) && from != to
    requires forall v :: 0 <= v < count ==> Va(to, v) !in m0
    ensures forall a :: 0 <= a < PGSIZE * count ==> View(m, d, to, a) == View(m0, d0, from, a)
    ensures forall r, a :: r != to ==> View(m, d, r, a) == View(m0, d0, r, a)
    ensures forall v :: 0 <= v < count && Va(to, v) in m ==> m[Va(to, v)].pa !in o0
  {
    hide TreeOk, Refines, View, Mirrors;
    CopiedView(m0, o0, d0, m, o, d, foreign, from, to, count);
  }

  // ----- sbrk -----

  /** What unmapping a range does to the view: zeros there, nothing elsewhere. */
  lemma ShrinkView(m: Maps, o: map<nat, Va>, d: map<nat, Page>, foreign: set<nat>, root: nat, lo: nat, count: nat,
                   r: nat, a: nat)
    requires Leaves(m, o, foreign) && forall p :: p in o ==> p !in foreign
    ensures var d' := d - (o.Keys - OwnedWithout(o, root, lo, count).Keys);
            View(Without(m, root, lo, count), d', r, a)
            == if r == root && PGSIZE * lo <= a < PGSIZE * (lo + count) then 0 else View(m, d, r, a)
  {
    var k := Va(r, a / PGSIZE);
    assert a == PGSIZE * (a / PGSIZE) + a % PGSIZE;
    assert InRange(k, root, lo, count) <==> r == root && PGSIZE * lo <= a < PGSIZE * (lo + count);
  }

  /** The view after the size went down: the freed pages read as zero. */
  ghost predicate Shrunk(m0: Maps, d0: map<nat, Page>, m: Maps, d: map<nat, Page>, root: nat, lo: nat, hi: nat) {
    forall r: nat, a: nat :: View(m, d, r, a) ==
        if r == root && PGSIZE * lo <= a < PGSIZE * hi then 0 else View(m0, d0, r, a)
  }

  lemma ShrunkBy(t0: Tables, h0: Home, m0: Maps, o0: map<nat, Va>, foreign: set<nat>, f0: seq<nat>, d0: map<nat, Page>,
                 root: nat, sz: nat, newsz: nat)
    requires MemOk(t0, h0, m0, o0, foreign, f0, d0) && UserOk(m0, foreign, root, sz) && newsz < sz
    ensures PageUp(newsz) <= PageUp(sz)
    ensures var lo, count := PageUp(newsz), PageUp(sz) - PageUp(newsz);
            var o := OwnedWithout(o0, root, lo, count);
            && Shrunk(m0, d0, Without(m0, root, lo, count), d0 - (o0.Keys - o.Keys), root, lo, PageUp(sz))
            && UserOk(Without(m0, root, lo, count), foreign, root, newsz)
  {
    hide TreeOk, Refines, View, OwnedWithout;
    var lo, count := PageUp(newsz), PageUp(sz) - PageUp(newsz);
    var o, m := OwnedWithout(o0, root, lo, count), Without(m0, root, lo, count);
    forall r: nat, a: nat
      ensures View(m, d0 - (o0.Keys - o.Keys), r, a) ==
                if r == root && PGSIZE * lo <= a < PGSIZE * PageUp(sz) then 0 else View(m0, d0, r, a)
    {
      ShrinkView(m0, o0, d0, foreign, root, lo, count, r, a);
    }
    forall k | k in m && k.root == root && k.vpn < MAXVPN - 2 ensures PGSIZE * k.vpn < newsz {
      assert !InRange(k, root, lo, count);
    }
  }

  lemma GrownBy(t0: Tables, h0: Home, m0: Maps, o0: map<nat, Va>, foreign: set<nat>, f0: seq<nat>, d0: map<nat, Page>,
                t: Tables, h: Home, m: Maps, o: map<nat, Va>, f: seq<nat>, d: map<nat, Page>, root: nat, sz: nat,
                newsz: nat, flags: Pte)
    requires MemOk(t0, h0, m0, o0, foreign, f0, d0) && MemOk(t, h, m, o, foreign, f, d)
    requires UserOk(m0, foreign, root, sz) && sz <= newsz <= TRAPFRAME && PageUp(sz) <= PageUp(newsz)
    requires Added(m0, o0, d0, m, o, d, root, PageUp(sz), PageUp(newsz) - PageUp(sz))
    requires Filled(m, d, root, PageUp(sz), PageUp(newsz) - PageUp(sz), flags)
    ensures SameView(m0, d0, m, d) && UserOk(m, foreign, root, newsz)
  {
    hide TreeOk, Refines, View, Filled;
    FilledView(m0, o0, d0, m, o, d, foreign, root, PageUp(sz), PageUp(newsz) - PageUp(sz), flags);
  }

  lemma Unmapped(maps: Maps, foreign: set<nat>, root: nat, sz: nat)
    requires UserOk(maps, foreign, root, sz)
    ensures forall v :: PageUp(sz) <= v < MAXVPN - 2 ==> Va(root, v) !in maps
    ensures forall v :: 0 <= v < MAXVPN - 2 && Va(root, v) in maps ==> maps[Va(root, v)].pa !in foreign
    ensures PageUp(sz) <= MAXVPN - 2
  {
  }

  /** growproc(), with the size of the process as argument and result. */
  method Growproc(mem: Memory, root: nat, sz: nat, n: int) returns (ok: bool, newsz: nat)
    requires mem.Ok() && mem.IsRoot(root) && UserOk(mem.maps, mem.foreign, root, sz)
    requires -0x8000_0000 <= n < 0x8000_0000
    modifies mem
    ensures mem.Ok() && KeepsHome(old(mem.home), mem.home) && mem.All() == old(mem.All())
    ensures UserOk(mem.maps, mem.foreign, root, newsz)
    ensures newsz == if ok && sz + n >= 0 then sz + n else sz
    ensures n >= 0 ==> SameView(old(mem.maps), old(mem.data), mem.maps, mem.data)
    ensures n < 0 ==> ok && Shrunk(old(mem.maps), old(mem.data), mem.maps, mem.data, root, PageUp(newsz), PageUp(sz))
    ensures ok && n > 0 ==> forall v :: PageUp(sz) <= v < PageUp(newsz) ==> ReadWrite(mem.maps, root, v)
    ensures !ok ==> mem.maps == old(mem.maps) && mem.data == old(mem.data) && mem.owned == old(mem.owned)
    ensures !ok ==> sz + n > TRAPFRAME || |old(mem.free)| < 3 * (PageUp(sz + n) - PageUp(sz))
    ensures sz + n > TRAPFRAME ==> !ok
  {
    hide MemOk, Pages, View, Added, Filled, Without, OwnedWithout, SameView, Shrunk, UserOk;
    Unmapped(mem.maps, mem.foreign, root, sz);
    Unmoved(mem.maps, mem.data, root, sz);
    ghost var t, h, m, o, f, d := mem.tables, mem.home, mem.maps, mem.owned, mem.free, mem.data;
    ok, newsz := true, sz;
    UserSize(mem.maps, mem.foreign, root, sz);
    if n > 0 {
      if sz + n > TRAPFRAME { return false, sz; }
      PageUpGrows(sz, sz + n);
      PageUpGrows(sz + n, TRAPFRAME);
      var r := mem.Uvmalloc(root, sz, sz + n, true, false);
      if r == 0 { return false, sz; }
      GrownBy(t, h, m, o, mem.foreign, f, d, mem.tables, mem.home, mem.maps, mem.owned, mem.free, mem.data,
              root, sz, sz + n, Pte(true, true, true, false, true, 0));
      FilledAll(mem.maps, mem.data, root, PageUp(sz), PageUp(sz + n) - PageUp(sz),
                Pte(true, true, true, false, true, 0));
      newsz := r;
    } else if n < 0 {
      var target: nat := if sz + n < 0 then sz + n + 0x1_0000_0000_0000_0000 else sz + n;
      if target < sz { ShrunkBy(t, h, m, o, mem.foreign, f, d, root, sz, target); }
      newsz := mem.Uvmdealloc(root, sz, target);
    }
  }

  lemma UserSize(maps: Maps, foreign: set<nat>, root: nat, sz: nat)
    requires UserOk(maps, foreign, root, sz)
    ensures sz <= TRAPFRAME
  {
  }

  lemma Unmoved(m: Maps, d: map<nat, Page>, root: nat, sz: nat)
    ensures SameView(m, d, m, d) && Shrunk(m, d, m, d, root, PageUp(sz), PageUp(sz))
  {
  }

  lemma FilledAll(m: Maps, d: map<nat, Page>, root: nat, lo: nat, count: nat, flags: Pte)
    requires Filled(m, d, root, lo, count, flags)
    ensures forall v :: lo <= v < lo + count ==> Va(root, v) in m && m[Va(root, v)] == flags.(pa := m[Va(root, v)].pa)
  {
    forall v | lo <= v < lo + count ensures Va(root, v) in m && m[Va(root, v)] == flags.(pa := m[Va(root, v)].pa) {
      assert InRange(Va(root, v), root, lo, count);
    }
  }

  /** A page that the program can read and write and not execute. */
  ghost predicate ReadWrite(maps: Maps, root: nat, v: nat) {
    Va(root, v) in maps && var e := maps[Va(root, v)]; e == Pte(true, true, true, false, true, e.pa)
  }

  /** sys_sbrk(): eagerly through growproc, or lazily by moving the size only. Growing either way leaves
      the same view, so a program cannot tell which was done. */
  method Sbrk(mem: Memory, root: nat, sz: nat, n: int, eager: bool) returns (ok: bool, newsz: nat)
    requires mem.Ok() && mem.IsRoot(root) && UserOk(mem.maps, mem.foreign, root, sz)
    requires -0x8000_0000 <= n < 0x8000_0000
    modifies mem
    ensures mem.Ok() && KeepsHome(old(mem.home), mem.home) && mem.All() == old(mem.All())
    ensures UserOk(mem.maps, mem.foreign, root, newsz)
    ensures newsz == if ok && sz + n >= 0 then sz + n else sz
    ensures n >= 0 ==> SameView(old(mem.maps), old(mem.data), mem.maps, mem.data)
    ensures n < 0 ==> ok && Shrunk(old(mem.maps), old(mem.data), mem.maps, mem.data, root, PageUp(newsz), PageUp(sz))
    ensures n >= 0 && !eager ==> mem.maps == old(mem.maps) && mem.free == old(mem.free) && (ok <==> sz + n <= TRAPFRAME)
    ensures n > 0 && eager && ok ==> forall v :: PageUp(sz) <= v < PageUp(newsz) ==> ReadWrite(mem.maps, root, v)
    ensures !ok ==> sz + n > TRAPFRAME || (eager && |old(mem.free)| < 3 * (PageUp(sz + n) - PageUp(sz)))
    ensures sz + n > TRAPFRAME ==> !ok
  {
    hide MemOk, Pages, View, Shrunk, SameView;
    Unmoved(mem.maps, mem.data, root, sz);
    ok, newsz := true, sz;
    if eager || n < 0 {
      ok, newsz := Growproc(mem, root, sz, n);
    } else {
      if sz + n > TRAPFRAME { return false, sz; }
      newsz := sz + n;
    }
  }
}
