/** What the page tables and the free list of pages stand for together: one finite map
    from (page table, virtual page) to leaf entry, and a single use for every page. */
module AddressSpace {

  import opened Basics
  import opened Blocks
  import opened PageTable

  const PGSIZE: nat := 4096
  const MAXVA: nat := PGSIZE * MAXVPN

  type Page = p: seq<Byte> | |p| == PGSIZE witness seq(PGSIZE, _ => 0)

  function ZeroPage(): (p: Page)
    ensures forall i :: 0 <= i < PGSIZE ==> p[i] == 0
  {
    seq(PGSIZE, _ => 0)
  }

  /** A virtual page of the address space with a given root table. */
  datatype Va = Va(root: nat, vpn: nat)

  type Maps = map<Va, Pte>

  function Get(maps: Maps, r: nat, v: nat): (e: Option<Pte>) {
    if Va(r, v) in maps then Some(maps[Va(r, v)]) else None
  }

  // ----- the representation invariant -----

  /** The tables stand for exactly the finite map maps. */
  ghost predicate Refines(tables: Tables, home: Home, maps: Maps) {
    && (forall r, v :: r in home && home[r].Root? && 0 <= v < MAXVPN ==> Lookup(tables, r, v) == Get(maps, r, v))
    && (forall k :: k in maps ==> k.root in home && home[k.root].Root? && k.vpn < MAXVPN)
  }

  /** No page has two uses: free, table, user memory, or none of the allocator's business. */
  ghost predicate Apart(free: seq<nat>, tables: Tables, owned: map<nat, Va>, foreign: set<nat>) {
    && Distinct(free)
    && (forall p :: p in free ==> p != 0 && p !in tables && p !in owned && p !in foreign)
    && (forall p :: p in tables ==> p != 0 && p !in owned && p !in foreign)
    && (forall p :: p in owned ==> p != 0 && p !in foreign)
  }

  /** Every page of user memory is mapped at exactly one place, and user code
      can reach no other page. */
  ghost predicate Leaves(maps: Maps, owned: map<nat, Va>, foreign: set<nat>) {
    && (forall k :: k in maps ==>
          && maps[k].v && IsLeaf(maps[k])
          && if maps[k].pa in foreign then !maps[k].u else maps[k].pa in owned && owned[maps[k].pa] == k)
    && (forall p :: p in owned ==> owned[p] in maps && maps[owned[p]].pa == p)
  }

  ghost predicate MemOk(tables: Tables, home: Home, maps: Maps, owned: map<nat, Va>, foreign: set<nat>,
                        free: seq<nat>, data: map<nat, Page>)
  {
    TreeOk(tables, home) && Refines(tables, home, maps) && Apart(free, tables, owned, foreign)
    && Leaves(maps, owned, foreign) && owned.Keys <= data.Keys && forall p :: p in free ==> p !in data
  }

  /** Every page the allocator answers for, whatever its present use. */
  /** What the hardware makes of address va with this root. */
  function Seen(tables: Tables, root: nat, va: nat): (r: Access) { Translate(tables, root, va, 2) }

  lemma SeenIs(tables: Tables, home: Home, maps: Maps, owned: map<nat, Va>, foreign: set<nat>, free: seq<nat>,
               data: map<nat, Page>, root: nat, va: nat)
    requires MemOk(tables, home, maps, owned, foreign, free, data) && root in home && home[root].Root? && va < MAXVA
    ensures var e := Get(maps, root, va / PGSIZE);
            Seen(tables, root, va) ==
            if e.Some? && Usable(e.value) then At(e.value, PGSIZE * e.value.pa + va % PGSIZE) else Fault
  {
    hide TreeOk, Lookup, Translate, Apart, Leaves;
    HardwareSees(tables, home, root, va);
    assert Lookup(tables, root, va / PGSIZE) == Get(maps, root, va / PGSIZE);
  }

  ghost function Pages(free: seq<nat>, tables: Tables, owned: map<nat, Va>): (s: set<nat>) {
    (set p | p in free) + tables.Keys + owned.Keys
  }

  /** A page that has been allocated and not yet put to use. */
  ghost predicate InHand(p: nat, free: seq<nat>, tables: Tables, owned: map<nat, Va>, foreign: set<nat>) {
    p != 0 && p !in Pages(free, tables, owned) && p !in foreign
  }

  // ----- steps -----

  lemma TakeKeeps(free: seq<nat>, tables: Tables, owned: map<nat, Va>, foreign: set<nat>)
    requires Apart(free, tables, owned, foreign) && free != []
    ensures Apart(free[1..], tables, owned, foreign) && InHand(free[0], free[1..], tables, owned, foreign)
    ensures Pages(free, tables, owned) == Pages(free[1..], tables, owned) + {free[0]}
  {
    assert free[0] in free && forall p :: p in free[1..] ==> p in free;
  }

  lemma GiveKeeps(free: seq<nat>, tables: Tables, owned: map<nat, Va>, foreign: set<nat>, p: nat)
    requires Apart(free, tables, owned, foreign) && InHand(p, free, tables, owned, foreign)
    ensures Apart([p] + free, tables, owned, foreign)
    ensures Pages([p] + free, tables, owned) == Pages(free, tables, owned) + {p}
  {
    assert forall q :: q in [p] + free <==> q == p || q in free;
  }

  lemma AttachKeeps(tables: Tables, home: Home, maps: Maps, owned: map<nat, Va>, foreign: set<nat>,
                    free: seq<nat>, data: map<nat, Page>, p: nat, i: nat, t: nat)
    requires MemOk(tables, home, maps, owned, foreign, free, data) && InHand(t, free, tables, owned, foreign)
    requires p in tables && i < ENTRIES && !tables[p][i].v && Level(home[p]) > 0
    requires Level(home[p]) == 2 ==> i < MAXVPN / 0x4_0000
    ensures var tables', home' := Attach(tables, p, i, t), home[t := Child(p, i, Level(home[p]) - 1)];
            && MemOk(tables', home', maps, owned, foreign, free, data)
            && Pages(free, tables', owned) == Pages(free, tables, owned) + {t}
  {
    hide TreeOk, Lookup, Leaves, ZeroTable;
    TreeKeys(tables, home);
    var tables', home' := Attach(tables, p, i, t), home[t := Child(p, i, Level(home[p]) - 1)];
    AttachTree(tables, home, p, i, t);
    forall r, v | r in home' && home'[r].Root? && 0 <= v < MAXVPN
      ensures Lookup(tables', r, v) == Get(maps, r, v)
    {
      AttachLookup(tables, home, p, i, t, r, v);
    }
  }

  lemma TreeKeys(tables: Tables, home: Home)
    requires TreeOk(tables, home)
    ensures tables.Keys == home.Keys
  {
  }

  lemma SetLeafRefines(tables: Tables, home: Home, maps: Maps, root: nat, vpn: nat, e: Pte)
    requires TreeOk(tables, home) && Refines(tables, home, maps) && root in home && home[root].Root? && vpn < MAXVPN
    requires LowTable(tables, root, vpn).Some? && (e.v ==> IsLeaf(e))
    ensures LowTable(tables, root, vpn).value in tables
    ensures var tables' := SetLeaf(tables, LowTable(tables, root, vpn).value, PX(0, vpn), e);
            var maps' := if e.v then maps[Va(root, vpn) := e] else maps - {Va(root, vpn)};
            TreeOk(tables', home) && Refines(tables', home, maps') && tables'.Keys == tables.Keys
  {
    hide TreeOk, Lookup, LowTable, SetLeaf;
    LowLevel(tables, home, root, vpn);
    var t := LowTable(tables, root, vpn).value;
    var tables' := SetLeaf(tables, t, PX(0, vpn), e);
    LeafTree(tables, home, t, PX(0, vpn), e);
    TreeKeys(tables, home);
    TreeKeys(tables', home);
    var maps' := if e.v then maps[Va(root, vpn) := e] else maps - {Va(root, vpn)};
    forall r, v | r in home && home[r].Root? && 0 <= v < MAXVPN
      ensures Lookup(tables', r, v) == Get(maps', r, v)
    {
      LeafLookup(tables, home, root, vpn, e, r, v);
    }
  }

  /** Mapping a page that is in hand (own) or foreign at an unmapped place. */
  lemma MapKeeps(tables: Tables, home: Home, maps: Maps, owned: map<nat, Va>, foreign: set<nat>,
                 free: seq<nat>, data: map<nat, Page>, root: nat, vpn: nat, e: Pte, own: bool)
    requires MemOk(tables, home, maps, owned, foreign, free, data) && root in home && home[root].Root? && vpn < MAXVPN
    requires LowTable(tables, root, vpn).Some? && e.v && IsLeaf(e) && Va(root, vpn) !in maps
    requires if own then InHand(e.pa, free, tables, owned, foreign) && e.pa in data else e.pa in foreign && !e.u
    ensures LowTable(tables, root, vpn).value in tables
    ensures var tables' := SetLeaf(tables, LowTable(tables, root, vpn).value, PX(0, vpn), e);
            var owned' := if own then owned[e.pa := Va(root, vpn)] else owned;
            && MemOk(tables', home, maps[Va(root, vpn) := e], owned', foreign, free, data)
            && Pages(free, tables', owned') == Pages(free, tables, owned) + (if own then {e.pa} else {})
  {
    hide TreeOk, Refines, LowTable, SetLeaf;
    SetLeafRefines(tables, home, maps, root, vpn, e);
  }

  /** Unmapping a page takes it out of use, unless it is foreign. */
  lemma UnmapKeeps(tables: Tables, home: Home, maps: Maps, owned: map<nat, Va>, foreign: set<nat>,
                   free: seq<nat>, data: map<nat, Page>, root: nat, vpn: nat)
    requires MemOk(tables, home, maps, owned, foreign, free, data) && vpn < MAXVPN
    requires LowTable(tables, root, vpn).Some? && Va(root, vpn) in maps
    ensures LowTable(tables, root, vpn).value in tables
    ensures var tables' := SetLeaf(tables, LowTable(tables, root, vpn).value, PX(0, vpn), NoPte);
            var p := maps[Va(root, vpn)].pa;
            && MemOk(tables', home, maps - {Va(root, vpn)}, owned - {p}, foreign, free, data)
            && (p !in foreign ==> p in owned && InHand(p, free, tables', owned - {p}, foreign)
                                  && Pages(free, tables', owned - {p}) + {p} == Pages(free, tables, owned))
            && (p in foreign ==> owned - {p} == owned && Pages(free, tables', owned) == Pages(free, tables, owned))
  {
    hide TreeOk, LowTable, SetLeaf, Lookup;
    UnmapLeaves(maps, owned, foreign, Va(root, vpn));
    SetLeafRefines(tables, home, maps, root, vpn, NoPte);
  }

  lemma UnmapLeaves(maps: Maps, owned: map<nat, Va>, foreign: set<nat>, k: Va)
    requires Leaves(maps, owned, foreign) && k in maps && forall p :: p in owned ==> p !in foreign
    ensures Leaves(maps - {k}, owned - {maps[k].pa}, foreign)
    ensures maps[k].pa in foreign ==> owned - {maps[k].pa} == owned
  {
  }

  /** The entry that walk finds is the one that the map gives. */
  lemma FoundIs(tables: Tables, home: Home, maps: Maps, root: nat, vpn: nat)
    requires TreeOk(tables, home) && Refines(tables, home, maps) && root in home && home[root].Root? && vpn < MAXVPN
    ensures LowTable(tables, root, vpn).None? ==> Va(root, vpn) !in maps
    ensures LowTable(tables, root, vpn).Some? ==>
              && LowTable(tables, root, vpn).value in tables
              && var e := tables[LowTable(tables, root, vpn).value][PX(0, vpn)];
                 (e.v <==> Va(root, vpn) in maps) && (e.v ==> e == maps[Va(root, vpn)])
  {
    hide TreeOk, LowTable, PX;
    if LowTable(tables, root, vpn).Some? { LowLevel(tables, home, root, vpn); }
    assert Lookup(tables, root, vpn) == Get(maps, root, vpn);
  }

  // ----- ranges of pages -----

  /** The map with entries for count pages from vpn on added. */
  ghost function MapRange(maps: Maps, root: nat, vpn: nat, e: Pte, count: nat): (r: Maps) {
    if count == 0 then maps
    else MapRange(maps, root, vpn, e, count - 1)[Va(root, vpn + count - 1) := e.(pa := e.pa + count - 1)]
  }

  ghost function OwnRange(owned: map<nat, Va>, root: nat, vpn: nat, pa: nat, count: nat): (r: map<nat, Va>) {
    if count == 0 then owned
    else OwnRange(owned, root, vpn, pa, count - 1)[pa + count - 1 := Va(root, vpn + count - 1)]
  }

  /** Exactly the range is added. */
  lemma {:induction false} MapRangeIs(maps: Maps, root: nat, vpn: nat, e: Pte, count: nat)
    ensures var r := MapRange(maps, root, vpn, e, count);
            && (forall k :: k in r <==> k in maps || InRange(k, root, vpn, count))
            && (forall k :: k in r ==>
                  r[k] == if InRange(k, root, vpn, count) then e.(pa := e.pa + k.vpn - vpn) else maps[k])
  {
    if count > 0 { MapRangeIs(maps, root, vpn, e, count - 1); }
  }

  /** What mapping a range changes for the hardware: the addresses of the range now lead to the new pages, byte by
      byte, and all other addresses, in this address space and in others, lead where they led. */
  ghost predicate LeadsTo(t0: Tables, h0: Home, t: Tables, root: nat, vpn: nat, e: Pte, count: nat) {
    forall r, va | r in h0 && h0[r].Root? && 0 <= va < MAXVA ::
      Seen(t, r, va) ==
      if r == root && PGSIZE * vpn <= va < PGSIZE * (vpn + count)
      then At(e.(pa := e.pa + (va / PGSIZE - vpn)), PGSIZE * e.pa + (va - PGSIZE * vpn))
      else Seen(t0, r, va)
  }

  /** What unmapping a range changes for the hardware. */
  ghost predicate LeadsNowhere(t0: Tables, h0: Home, t: Tables, root: nat, vpn: nat, count: nat) {
    forall r, va | r in h0 && h0[r].Root? && 0 <= va < MAXVA ::
      Seen(t, r, va) == if r == root && PGSIZE * vpn <= va < PGSIZE * (vpn + count) then Fault else Seen(t0, r, va)
  }

  lemma MapSeen(t0: Tables, h0: Home, m0: Maps, o0: map<nat, Va>, f0: seq<nat>, d0: map<nat, Page>,
                t: Tables, h: Home, m: Maps, o: map<nat, Va>, f: seq<nat>, d: map<nat, Page>, foreign: set<nat>,
                root: nat, vpn: nat, e: Pte, count: nat)
    requires MemOk(t0, h0, m0, o0, foreign, f0, d0) && MemOk(t, h, m, o, foreign, f, d)
    requires m == MapRange(m0, root, vpn, e, count) && Usable(e)
    requires forall r :: r in h0 ==> r in h && h[r] == h0[r]
    ensures LeadsTo(t0, h0, t, root, vpn, e, count)
  {
    hide MemOk, Seen;
    MapRangeIs(m0, root, vpn, e, count);
    forall r, va | r in h0 && h0[r].Root? && 0 <= va < MAXVA
      ensures Seen(t, r, va) ==
              if r == root && PGSIZE * vpn <= va < PGSIZE * (vpn + count)
              then At(e.(pa := e.pa + (va / PGSIZE - vpn)), PGSIZE * e.pa + (va - PGSIZE * vpn))
              else Seen(t0, r, va)
    {
      SeenIs(t0, h0, m0, o0, foreign, f0, d0, r, va);
      SeenIs(t, h, m, o, foreign, f, d, r, va);
      assert va == PGSIZE * (va / PGSIZE) + va % PGSIZE;
    }
  }

  lemma UnmapSeen(t0: Tables, h0: Home, m0: Maps, o0: map<nat, Va>, f0: seq<nat>, d0: map<nat, Page>,
                  t: Tables, h: Home, m: Maps, o: map<nat, Va>, f: seq<nat>, d: map<nat, Page>, foreign: set<nat>,
                  root: nat, vpn: nat, count: nat)
    requires MemOk(t0, h0, m0, o0, foreign, f0, d0) && MemOk(t, h, m, o, foreign, f, d)
    requires m == Without(m0, root, vpn, count) && h == h0
    ensures LeadsNowhere(t0, h0, t, root, vpn, count)
  {
    hide MemOk, Seen;
    forall r, va | r in h0 && h0[r].Root? && 0 <= va < MAXVA
      ensures Seen(t, r, va) ==
              if r == root && PGSIZE * vpn <= va < PGSIZE * (vpn + count) then Fault else Seen(t0, r, va)
    {
      SeenIs(t0, h0, m0, o0, foreign, f0, d0, r, va);
      SeenIs(t, h, m, o, foreign, f, d, r, va);
      assert va == PGSIZE * (va / PGSIZE) + va % PGSIZE;
    }
  }

  ghost function Span(pa: nat, count: nat): (s: set<nat>)
    ensures forall p :: p in s <==> pa <= p < pa + count
  {
    if count == 0 then {} else Span(pa, count - 1) + {pa + count - 1}
  }

  predicate InRange(k: Va, root: nat, vpn: nat, count: nat) { k.root == root && vpn <= k.vpn < vpn + count }

  /** The map with every entry for count pages from vpn on removed. */
  ghost function Without(maps: Maps, root: nat, vpn: nat, count: nat): (r: Maps) {
    map k | k in maps && !InRange(k, root, vpn, count) :: maps[k]
  }

  ghost function OwnedWithout(owned: map<nat, Va>, root: nat, vpn: nat, count: nat): (r: map<nat, Va>) {
    map p | p in owned && !InRange(owned[p], root, vpn, count) :: owned[p]
  }

  lemma WithoutNone(maps: Maps, owned: map<nat, Va>, root: nat, vpn: nat)
    ensures Without(maps, root, vpn, 0) == maps && OwnedWithout(owned, root, vpn, 0) == owned
  {
  }

  lemma RangeStep(root: nat, vpn: nat, count: nat)
    ensures forall k :: InRange(k, root, vpn, count + 1) <==> InRange(k, root, vpn, count) || k == Va(root, vpn + count)
  {
    forall k: Va ensures InRange(k, root, vpn, count + 1) <==>
        InRange(k, root, vpn, count) || k == Va(root, vpn + count) {
      assert k == Va(k.root, k.vpn);
    }
  }

  lemma WithoutStep(maps: Maps, root: nat, vpn: nat, count: nat)
    ensures Without(maps, root, vpn, count + 1) == Without(maps, root, vpn, count) - {Va(root, vpn + count)}
    ensures Va(root, vpn + count) in maps ==>
              Va(root, vpn + count) in Without(maps, root, vpn, count)
              && Without(maps, root, vpn, count)[Va(root, vpn + count)] == maps[Va(root, vpn + count)]
  {
    RangeStep(root, vpn, count);
  }

  lemma OwnedStep(maps: Maps, owned: map<nat, Va>, foreign: set<nat>, root: nat, vpn: nat, count: nat)
    requires Leaves(maps, owned, foreign) && forall p :: p in owned ==> p !in foreign
    ensures var k, o := Va(root, vpn + count), OwnedWithout(owned, root, vpn, count);
            OwnedWithout(owned, root, vpn, count + 1) == if k in maps then o - {maps[k].pa} else o
  {
    RangeStep(root, vpn, count);
  }

  // ----- pages added to one address space, and taken back -----

  /** m, o, d is m0, o0, d0 with new pages of its own mapped at some places of a range. */
  ghost predicate Added(m0: Maps, o0: map<nat, Va>, d0: map<nat, Page>, m: Maps, o: map<nat, Va>, d: map<nat, Page>,
                        root: nat, lo: nat, count: nat)
  {
    && (forall k :: k in m0 ==> k in m && m[k] == m0[k])
    && (forall k :: k in m && k !in m0 ==> InRange(k, root, lo, count) && m[k].pa in o && m[k].pa !in o0)
    && (forall p :: p in o0 ==> p in o && o[p] == o0[p])
    && (forall p :: p in o && p !in o0 ==> InRange(o[p], root, lo, count) && p !in d0)
    && (forall p :: p in d0 ==> p in d && d[p] == d0[p])
    && (forall p :: p in d && p !in d0 ==> p in o && p !in o0)
  }

  lemma AddedStart(m: Maps, o: map<nat, Va>, d: map<nat, Page>, root: nat, lo: nat)
    ensures Added(m, o, d, m, o, d, root, lo, 0)
  {
  }

  lemma AddedSkip(m0: Maps, o0: map<nat, Va>, d0: map<nat, Page>, m: Maps, o: map<nat, Va>, d: map<nat, Page>,
                  root: nat, lo: nat, count: nat)
    requires Added(m0, o0, d0, m, o, d, root, lo, count)
    ensures Added(m0, o0, d0, m, o, d, root, lo, count + 1)
  {
  }

  lemma AddedStep(m0: Maps, o0: map<nat, Va>, d0: map<nat, Page>, m: Maps, o: map<nat, Va>, d: map<nat, Page>,
                  root: nat, lo: nat, count: nat, e: Pte, c: Page)
    requires Added(m0, o0, d0, m, o, d, root, lo, count)
    requires Va(root, lo + count) !in m && e.pa !in o && e.pa !in d
    ensures var k := Va(root, lo + count);
            Added(m0, o0, d0, m[k := e], o[e.pa := k], d[e.pa := c], root, lo, count + 1)
  {
  }

  /** Unmapping the range takes everything back. */
  lemma AddedUndo(m0: Maps, o0: map<nat, Va>, d0: map<nat, Page>, m: Maps, o: map<nat, Va>, d: map<nat, Page>,
                  foreign: set<nat>, root: nat, lo: nat, count: nat)
    requires Added(m0, o0, d0, m, o, d, root, lo, count) && Leaves(m0, o0, foreign)
    requires forall v :: lo <= v < lo + count ==> Va(root, v) !in m0
    ensures Without(m, root, lo, count) == m0 && OwnedWithout(o, root, lo, count) == o0
    ensures d - (o.Keys - o0.Keys) == d0
  {
    forall k | InRange(k, root, lo, count) ensures k !in m0 { assert k == Va(root, k.vpn); }
  }

  /** The whole range is mapped, with the given flags, to pages of zeros. */
  ghost predicate Filled(m: Maps, d: map<nat, Page>, root: nat, lo: nat, count: nat, flags: Pte) {
    forall k :: InRange(k, root, lo, count) ==>
      k in m && m[k] == flags.(pa := m[k].pa) && m[k].pa in d && d[m[k].pa] == ZeroPage()
  }

  lemma FilledStep(m: Maps, d: map<nat, Page>, root: nat, lo: nat, count: nat, flags: Pte, page: nat)
    requires Filled(m, d, root, lo, count, flags) && page !in d
    ensures Filled(m[Va(root, lo + count) := flags.(pa := page)], d[page := ZeroPage()], root, lo, count + 1, flags)
  {
    hide ZeroPage;
    forall k | InRange(k, root, lo, count + 1)
      ensures k == Va(root, lo + count) || InRange(k, root, lo, count)
    {
      assert k == Va(root, k.vpn);
    }
  }

  /** Below count, the second address space has the same pages with the same flags and the same
      contents as the first, and no page in common with it. */
  ghost predicate Mirrors(m: Maps, d: map<nat, Page>, from: nat, to: nat, count: nat) {
    forall v :: 0 <= v < count ==>
      if Va(from, v) in m
      then && Va(to, v) in m && m[Va(to, v)] == m[Va(from, v)].(pa := m[Va(to, v)].pa)
           && m[Va(to, v)].pa != m[Va(from, v)].pa
           && m[Va(from, v)].pa in d && m[Va(to, v)].pa in d && d[m[Va(to, v)].pa] == d[m[Va(from, v)].pa]
      else Va(to, v) !in m
  }

  lemma MirrorsStep(m: Maps, d: map<nat, Page>, from: nat, to: nat, count: nat, page: nat)
    requires Mirrors(m, d, from, to, count) && page !in d && from != to
    requires Va(from, count) in m && m[Va(from, count)].pa in d
    ensures var e := m[Va(from, count)];
            Mirrors(m[Va(to, count) := e.(pa := page)], d[page := d[e.pa]], from, to, count + 1)
  {
  }

  // ----- what a program sees -----

  /** The byte at address a, with unmapped memory read as zero. */
  ghost function View(maps: Maps, data: map<nat, Page>, root: nat, a: nat): (b: Byte) {
    var k := Va(root, a / PGSIZE);
    if k in maps && maps[k].pa in data then data[maps[k].pa][a % PGSIZE] else 0
  }

  /** The byte that the program sees is the one at the physical address that the hardware makes of the address. */
  lemma ViewIsSeen(tables: Tables, home: Home, maps: Maps, owned: map<nat, Va>, foreign: set<nat>, free: seq<nat>,
                   data: map<nat, Page>, root: nat, a: nat)
    requires MemOk(tables, home, maps, owned, foreign, free, data) && root in home && home[root].Root? && a < MAXVA
    requires Seen(tables, root, a).At? && Seen(tables, root, a).e.u
    ensures var pa := Seen(tables, root, a).pa;
            pa / PGSIZE in data && View(maps, data, root, a) == data[pa / PGSIZE][pa % PGSIZE]
  {
    hide TreeOk, Refines, Seen;
    SeenIs(tables, home, maps, owned, foreign, free, data, root, a);
  }

  /** Nothing that any program sees has changed. */
  ghost predicate SameView(m0: Maps, d0: map<nat, Page>, m: Maps, d: map<nat, Page>) {
    forall r, a :: View(m, d, r, a) == View(m0, d0, r, a)
  }

  /** New pages of zeros are invisible. */
  lemma FilledView(m0: Maps, o0: map<nat, Va>, d0: map<nat, Page>, m: Maps, o: map<nat, Va>, d: map<nat, Page>,
                   foreign: set<nat>, root: nat, lo: nat, count: nat, flags: Pte)
    requires Added(m0, o0, d0, m, o, d, root, lo, count) && Filled(m, d, root, lo, count, flags)
    requires Leaves(m0, o0, foreign) && forall p :: p in o ==> p !in foreign
    requires o0.Keys <= d0.Keys
    ensures SameView(m0, d0, m, d)
  {
    forall r: nat, a: nat ensures View(m, d, r, a) == View(m0, d0, r, a) {
      var k := Va(r, a / PGSIZE);
      if k in m0 {
        assert k in m && m[k] == m0[k];
        if m0[k].pa !in d0 { assert m0[k].pa in foreign && m0[k].pa !in o && m0[k].pa !in d; }
      } else if k in m {
        assert InRange(k, root, lo, count);
      }
    }
  }

  /** A copied address space looks like the original, and no other has changed. */
  lemma CopiedView(m0: Maps, o0: map<nat, Va>, d0: map<nat, Page>, m: Maps, o: map<nat, Va>, d: map<nat, Page>,
                   foreign: set<nat>, from: nat, to: nat, count: nat)
    requires Added(m0, o0, d0, m, o, d, to, 0, count) && Mirrors(m, d, from, to, count) && from != to
    requires Leaves(m0, o0, foreign) && forall p :: p in o ==> p !in foreign
    requires o0.Keys <= d0.Keys
    ensures forall a :: 0 <= a < PGSIZE * count ==> View(m, d, to, a) == View(m0, d0, from, a)
    ensures forall r, a :: r != to ==> View(m, d, r, a) == View(m0, d0, r, a)
  {
    forall r: nat, a: nat | r != to ensures View(m, d, r, a) == View(m0, d0, r, a) {
      var k := Va(r, a / PGSIZE);
      if k in m0 {
        assert k in m && m[k] == m0[k];
        if m0[k].pa !in d0 { assert m0[k].pa in foreign && m0[k].pa !in o && m0[k].pa !in d; }
      }
    }
    forall a | 0 <= a < PGSIZE * count ensures View(m, d, to, a) == View(m0, d0, from, a) {
      assert View(m, d, from, a) == View(m0, d0, from, a);
      var v := a / PGSIZE;
      assert v < count;
    }
  }

  function Patched(page: Page, off: nat, bytes: seq<Byte>): (r: Page)
    requires off + |bytes| <= PGSIZE
  {
    page[..off] + bytes + page[off + |bytes|..]
  }

  /** Writing into a page of user memory changes those bytes of the one address space it belongs to. */
  lemma PatchView(m: Maps, o: map<nat, Va>, d: map<nat, Page>, foreign: set<nat>, k: Va, off: nat, bytes: seq<Byte>,
                  r: nat, a: nat)
    requires Leaves(m, o, foreign) && k in m && m[k].pa in d && m[k].pa !in foreign && off + |bytes| <= PGSIZE
    ensures var start := PGSIZE * k.vpn + off;
            View(m, d[m[k].pa := Patched(d[m[k].pa], off, bytes)], r, a)
            == if r == k.root && start <= a < start + |bytes| then bytes[a - start] else View(m, d, r, a)
  {
    var j := Va(r, a / PGSIZE);
    assert a == PGSIZE * (a / PGSIZE) + a % PGSIZE;
    if j in m && m[j].pa == m[k].pa { assert j == k; }
  }

  const TRAPFRAME: nat := PGSIZE * (MAXVPN - 2)

  /** The address space of a process of size sz: its own pages, all below PGROUNDUP(sz), and above
      TRAPFRAME two pages that are not its own. */
  ghost predicate UserOk(maps: Maps, foreign: set<nat>, root: nat, sz: nat) {
    && sz <= TRAPFRAME
    && forall k :: k in maps && k.root == root ==>
         if k.vpn < MAXVPN - 2 then PGSIZE * k.vpn < sz && maps[k].pa !in foreign else maps[k].pa in foreign
  }
}
