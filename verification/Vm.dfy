/** The kernel's page-table operations over the pages of physical memory. */
module Vm {

  import opened Basics
  import opened PageTable
  import opened AddressSpace

  /** Every table keeps the place it had. */
  ghost predicate KeepsHome(h0: Home, h: Home) {
    forall t :: t in h0 ==> t in h && h[t] == h0[t]
  }

  /** The table that walk has reached when it gets to a level. */
  ghost function TableAt(tables: Tables, root: nat, vpn: nat, level: nat): (r: Option<nat>)
    requires level <= 2 && vpn < MAXVPN
  {
    if level == 2 then Some(root)
    else if level == 1 then Below(tables, root, PX(2, vpn))
    else LowTable(tables, root, vpn)
  }

  /** One turn of walk: what the entry of the table at this level leads to. */
  lemma Descend(tables: Tables, home: Home, root: nat, vpn: nat, level: nat)
    requires TreeOk(tables, home) && root in home && home[root].Root? && vpn < MAXVPN && 0 < level <= 2
    requires TableAt(tables, root, vpn, level).Some? && TableAt(tables, root, vpn, level).value in tables
    ensures var pte := tables[TableAt(tables, root, vpn, level).value][PX(level, vpn)];
            && (pte.v ==> TableAt(tables, root, vpn, level - 1) == Some(pte.pa) && pte.pa in home
                          && Level(home[pte.pa]) == level - 1)
            && (!pte.v ==> LowTable(tables, root, vpn).None?)
  {
    hide Hangs, Points, PX;
    Path(tables, home, root, vpn);
  }

  /** Hanging a new table makes it the table at the next level. */
  lemma DescendNew(tables: Tables, home: Home, root: nat, vpn: nat, level: nat, t: nat)
    requires TreeOk(tables, home) && root in home && home[root].Root? && vpn < MAXVPN && 0 < level <= 2
    requires TableAt(tables, root, vpn, level).Some? && TableAt(tables, root, vpn, level).value in tables
    requires t !in tables && Level(home[TableAt(tables, root, vpn, level).value]) == level
    ensures var p := TableAt(tables, root, vpn, level).value;
            TableAt(Attach(tables, p, PX(level, vpn), t), root, vpn, level - 1) == Some(t)
  {
    hide Hangs, Points, PX, ZeroTable;
    Path(tables, home, root, vpn);
  }

  class Memory {
    var tables: Tables
    var data: map<nat, Page>
    var free: seq<nat>
    ghost var home: Home
    ghost var maps: Maps
    ghost var owned: map<nat, Va>
    ghost const foreign: set<nat>

    ghost predicate Ok() reads this { MemOk(tables, home, maps, owned, foreign, free, data) }

    ghost predicate IsRoot(root: nat) reads this { root in home && home[root].Root? }

    ghost function All(): (s: set<nat>) reads this { Pages(free, tables, owned) }

    /** kinit(): every page given to the allocator is free. */
    constructor (pages: seq<nat>, ghost others: set<nat>)
      requires Distinct(pages) && forall p :: p in pages ==> p != 0 && p !in others
      ensures Ok() && free == pages && maps == map[] && foreign == others && All() == (set p | p in pages)
    {
      tables, data, free := map[], map[], pages;
      home, maps, owned, foreign := map[], map[], map[], others;
    }

    /** kalloc(): 0 when there is no page left. */
    method Kalloc() returns (page: nat)
      requires Ok()
      modifies this`free
      ensures Ok()
      ensures page == 0 <==> old(free) == []
      ensures page == 0 ==> free == old(free)
      ensures page != 0 ==> [page] + free == old(free) && InHand(page, free, tables, owned, foreign)
                            && page !in data && All() + {page} == old(All())
    {
      hide TreeOk, Refines, Leaves, Pages;
      if free == [] { return 0; }
      TakeKeeps(free, tables, owned, foreign);
      page := free[0];
      free := free[1..];
    }

    /** kfree(): the page joins the free list and its contents are lost. */
    method Kfree(page: nat)
      modifies this`free, this`data
      ensures free == [page] + old(free) && data == old(data) - {page}
      ensures old(Ok() && InHand(page, free, tables, owned, foreign)) ==> Ok() && All() == old(All()) + {page}
    {
      hide TreeOk, Refines, Leaves, Pages;
      if Ok() && InHand(page, free, tables, owned, foreign) {
        GiveKeeps(free, tables, owned, foreign, page);
      }
      data := data - {page};
      free := [page] + free;
    }

    method Walk(root: nat, vpn: nat, alloc: bool) returns (pt: nat)
      requires Ok() && IsRoot(root) && vpn < MAXVPN
      modifies this`tables, this`free, this`home
      ensures Ok() && All() == old(All()) && KeepsHome(old(home), home)
      ensures pt != 0 <==> LowTable(tables, root, vpn).Some?
      ensures pt != 0 ==> LowTable(tables, root, vpn) == Some(pt)
      ensures !alloc ==> tables == old(tables) && free == old(free) && home == old(home)
      ensures |free| <= |old(free)| <= |free| + 2
      ensures alloc && pt == 0 ==> free == [] && |old(free)| < 2
    {
      hide MemOk, Pages, LowTable, Attach, TableAt, InHand;
      pt := root;
      var level := 2;
      WalkStart(tables, home, maps, owned, foreign, free, data, root, vpn);
      while level > 0
        invariant 0 <= level <= 2
        invariant Ok() && IsRoot(root) && pt in home && Level(home[pt]) == level && pt in tables && pt != 0
        invariant TableAt(tables, root, vpn, level) == Some(pt)
        invariant All() == old(All()) && KeepsHome(old(home), home)
        invariant !alloc ==> tables == old(tables) && free == old(free) && home == old(home)
        invariant |free| <= |old(free)| <= |free| + 2 - level
      {
        var pte := tables[pt][PX(level, vpn)];
        WalkDown(tables, home, maps, owned, foreign, free, data, root, vpn, level);
        if pte.v {
          pt := pte.pa;
        } else {
          if !alloc { return 0; }
          var page := Kalloc();
          if page == 0 { return 0; }
          WalkNew(tables, home, maps, owned, foreign, free, data, root, vpn, level, page);
          home := home[page := Child(pt, PX(level, vpn), level - 1)];
          tables := Attach(tables, pt, PX(level, vpn), page);
          pt := page;
        }
        level := level - 1;
      }
      WalkEnd(tables, root, vpn);
    }

    /** uvmcreate(): a new address space with nothing in it. */
    method Uvmcreate() returns (root: nat)
      requires Ok()
      modifies this`tables, this`free, this`home
      ensures Ok() && All() == old(All())
      ensures root == 0 <==> old(free) == []
      ensures root == 0 ==> home == old(home) && free == old(free)
      ensures root != 0 ==> root !in old(home) && home == old(home)[root := Root] && [root] + free == old(free)
      ensures forall v: nat :: Va(root, v) !in maps
    {
      hide MemOk, Pages, ZeroTable;
      root := Kalloc();
      CreateKeeps(tables, home, maps, owned, foreign, free, data, root);
      if root == 0 { return; }
      tables := tables[root := ZeroTable()];
      home := home[root := Root];
    }

    /** One turn of mappages: the entry for page vpn, which must not be in use. */
    method MapPage(root: nat, vpn: nat, e: Pte, ghost own: bool) returns (ok: bool)
      requires Ok() && IsRoot(root) && vpn < MAXVPN && e.v && IsLeaf(e) && Va(root, vpn) !in maps
      requires if own then InHand(e.pa, free, tables, owned, foreign) && e.pa in data else e.pa in foreign && !e.u
      modifies this`tables, this`free, this`home, this`maps, this`owned
      ensures Ok() && KeepsHome(old(home), home)
      ensures |free| <= |old(free)| <= |free| + 2
      ensures ok ==> && maps == old(maps)[Va(root, vpn) := e]
                     && owned == (if own then old(owned)[e.pa := Va(root, vpn)] else old(owned))
                     && All() == old(All()) + (if own then {e.pa} else {})
      ensures !ok ==> free == [] && |old(free)| < 2 && maps == old(maps) && owned == old(owned) && All() == old(All())
    {
      hide TreeOk, Refines, Apart, Leaves, Pages, LowTable, SetLeaf;
      var pt := Walk(root, vpn, true);
      if pt == 0 { return false; }
      MapKeeps(tables, home, maps, owned, foreign, free, data, root, vpn, e, own);
      FoundIs(tables, home, maps, root, vpn);
      tables := SetLeaf(tables, pt, PX(0, vpn), e);
      maps := maps[Va(root, vpn) := e];
      if own { owned := owned[e.pa := Va(root, vpn)]; }
      ok := true;
    }

    /** Maps count pages from vpn on to the physical pages from e.pa on, with the flags of e.
        When a table page cannot be had, the first done pages stay mapped. */
    method Mappages(root: nat, vpn: nat, count: nat, e: Pte, ghost own: bool) returns (ok: bool, ghost done: nat)
      requires Ok() && IsRoot(root) && vpn + count <= MAXVPN && count > 0 && e.v && IsLeaf(e)
      requires forall v :: vpn <= v < vpn + count ==> Va(root, v) !in maps
      requires own ==> forall p :: e.pa <= p < e.pa + count ==> InHand(p, free, tables, owned, foreign) && p in data
      requires !own ==> !e.u && forall p :: e.pa <= p < e.pa + count ==> p in foreign
      modifies this`tables, this`free, this`home, this`maps, this`owned
      ensures Ok() && KeepsHome(old(home), home)
      ensures done <= count && (ok <==> done == count) && (!ok ==> free == [] && |old(free)| < 2 * count)
      ensures |free| <= |old(free)| <= |free| + 2 * count
      ensures maps == MapRange(old(maps), root, vpn, e, done)
      ensures owned == if own then OwnRange(old(owned), root, vpn, e.pa, done) else old(owned)
      ensures All() == old(All()) + (if own then Span(e.pa, done) else {})
      ensures Usable(e) ==> LeadsTo(old(tables), old(home), tables, root, vpn, e, done)
    {
      hide MemOk, Pages, LeadsTo;
      var a := 0;
      done := 0;
      while true
        invariant a == done < count && Ok() && IsRoot(root) && KeepsHome(old(home), home)
        invariant |free| <= |old(free)| <= |free| + 2 * a
        invariant maps == MapRange(old(maps), root, vpn, e, a)
        invariant owned == if own then OwnRange(old(owned), root, vpn, e.pa, a) else old(owned)
        invariant All() == old(All()) + (if own then Span(e.pa, a) else {})
        decreases count - a
      {
        assert own ==> old(InHand(e.pa + a, free, tables, owned, foreign));
        MapRangeFresh(old(maps), root, vpn, e, a);
        ok := MapPage(root, vpn + a, e.(pa := e.pa + a), own);
        if !ok { break; }
        done := a + 1;
        if a == count - 1 { break; }
        a := a + 1;
      }
      if Usable(e) {
        MapSeen(old(tables), old(home), old(maps), old(owned), old(free), old(data), tables, home, maps, owned, free,
                data, foreign, root, vpn, e, done);
      }
    }

    /** kalloc, fill, mappages: a page of user memory at vpn, or 0 with everything as it was. */
    method NewPage(root: nat, vpn: nat, flags: Pte, contents: Page) returns (page: nat)
      requires Ok() && IsRoot(root) && vpn < MAXVPN && flags.v && IsLeaf(flags) && Va(root, vpn) !in maps
      modifies this
      ensures Ok() && KeepsHome(old(home), home) && All() == old(All())
      ensures page != 0 ==> && page !in old(owned) && page !in old(data) && |old(free)| <= |free| + 3
                            && maps == old(maps)[Va(root, vpn) := flags.(pa := page)]
                            && owned == old(owned)[page := Va(root, vpn)] && data == old(data)[page := contents]
      ensures page == 0 ==> maps == old(maps) && owned == old(owned) && data == old(data) && |old(free)| < 3
    {
      hide MemOk, Pages;
      page := Kalloc();
      if page == 0 { return 0; }
      NewPageHeld(tables, home, maps, owned, foreign, free, data, page, contents);
      data := data[page := contents];
      var ok, done := Mappages(root, vpn, 1, flags.(pa := page), true);
      if !ok {
        Kfree(page);
        return 0;
      }
    }

    /** One turn of uvmunmap: removes the entry for vpn, if there is one. */
    method UnmapPage(root: nat, vpn: nat, doFree: bool)
      requires Ok() && IsRoot(root) && vpn < MAXVPN
      requires doFree && Va(root, vpn) in maps ==> maps[Va(root, vpn)].pa !in foreign
      modifies this`tables, this`free, this`data, this`home, this`maps, this`owned
      ensures Ok() && home == old(home)
      ensures Va(root, vpn) !in old(maps) ==>
                && maps == old(maps) && owned == old(owned) && data == old(data) && free == old(free)
                && All() == old(All())
      ensures Va(root, vpn) in old(maps) ==>
                var p := old(maps)[Va(root, vpn)].pa;
                && maps == old(maps) - {Va(root, vpn)} && owned == old(owned) - {p}
                && (if doFree then free == [p] + old(free) && data == old(data) - {p} && All() == old(All())
                    else free == old(free) && data == old(data) && All() == old(All()) - (old(owned).Keys - owned.Keys))
    {
      hide Pages, KeepsHome;
      hide TreeOk, Refines, Leaves, Apart, LowTable, SetLeaf;
      var pt := Walk(root, vpn, false);
      FoundIs(tables, home, maps, root, vpn);
      if pt == 0 { return; }
      var pte := tables[pt][PX(0, vpn)];
      if !pte.v { return; }
      UnmapKeeps(tables, home, maps, owned, foreign, free, data, root, vpn);
      if doFree {
        GiveKeeps(free, SetLeaf(tables, pt, PX(0, vpn), NoPte), owned - {pte.pa}, foreign, pte.pa);
        Kfree(pte.pa);
      }
      maps := maps - {Va(root, vpn)};
      owned := owned - {pte.pa};
      tables := SetLeaf(tables, pt, PX(0, vpn), NoPte);
    }

    method Uvmunmap(root: nat, vpn: nat, count: nat, doFree: bool)
      requires Ok() && IsRoot(root) && vpn + count <= MAXVPN
      requires doFree ==> forall v :: vpn <= v < vpn + count && Va(root, v) in maps ==> maps[Va(root, v)].pa !in foreign
      modifies this`tables, this`free, this`data, this`home, this`maps, this`owned
      ensures Ok() && home == old(home)
      ensures maps == Without(old(maps), root, vpn, count)
      ensures owned == OwnedWithout(old(owned), root, vpn, count)
      ensures LeadsNowhere(old(tables), old(home), tables, root, vpn, count)
      ensures doFree ==>
                All() == old(All()) && data == old(data) - (old(owned).Keys - owned.Keys) && |free| >= |old(free)|
      ensures !doFree ==> data == old(data) && free == old(free) && All() == old(All()) - (old(owned).Keys - owned.Keys)
    {
      hide MemOk, Pages, Without, OwnedWithout, LeadsNowhere;
      var a := 0;
      WithoutNone(maps, owned, root, vpn);
      while a < count
        invariant a <= count && Ok() && home == old(home)
        invariant maps == Without(old(maps), root, vpn, a)
        invariant owned == OwnedWithout(old(owned), root, vpn, a) && owned.Keys <= old(owned).Keys
        invariant doFree ==>
                  All() == old(All()) && data == old(data) - (old(owned).Keys - owned.Keys) && |free| >= |old(free)|
        invariant !doFree ==>
                  data == old(data) && free == old(free) && All() == old(All()) - (old(owned).Keys - owned.Keys)
      {
        UnmapTurn(old(tables), old(home), old(maps), old(owned), foreign, old(free), old(data), root, vpn, a);
        UnmapPage(root, vpn + a, doFree);
        a := a + 1;
      }
      UnmapSeen(old(tables), old(home), old(maps), old(owned), old(free), old(data), tables, home, maps, owned, free,
                data, foreign, root, vpn, count);
    }

    /** Pages from PageUp(newsz) to PageUp(oldsz) are unmapped and freed. */
    method Uvmdealloc(root: nat, oldsz: nat, newsz: nat) returns (r: nat)
      requires Ok() && IsRoot(root) && oldsz <= MAXVA
      requires forall v :: PageUp(newsz) <= v < PageUp(oldsz) && Va(root, v) in maps ==>
                 maps[Va(root, v)].pa !in foreign
      modifies this
      ensures Ok() && home == old(home) && All() == old(All())
      ensures newsz >= oldsz ==>
                r == oldsz && maps == old(maps) && owned == old(owned) && data == old(data) && free == old(free)
      ensures newsz < oldsz ==> && r == newsz && |free| >= |old(free)|
                                && maps == Without(old(maps), root, PageUp(newsz), PageUp(oldsz) - PageUp(newsz))
                                && owned == OwnedWithout(old(owned), root, PageUp(newsz), PageUp(oldsz) - PageUp(newsz))
                                && data == old(data) - (old(owned).Keys - owned.Keys)
    {
      hide MemOk, Pages, Without, OwnedWithout;
      if newsz >= oldsz { return oldsz; }
      WithoutNone(maps, owned, root, PageUp(newsz));
      if PageUp(newsz) < PageUp(oldsz) {
        Uvmunmap(root, PageUp(newsz), PageUp(oldsz) - PageUp(newsz), true);
      }
      r := newsz;
    }

    /** Maps new zero pages up to newsz, or leaves the address space as it was. */
    method Uvmalloc(root: nat, oldsz: nat, newsz: nat, w: bool, x: bool) returns (r: nat)
      requires Ok() && IsRoot(root) && newsz <= MAXVA
      requires forall v :: PageUp(oldsz) <= v < PageUp(newsz) ==> Va(root, v) !in maps
      modifies this
      ensures Ok() && KeepsHome(old(home), home) && All() == old(All())
      ensures r == if newsz < oldsz then oldsz else if r == 0 then 0 else newsz
      ensures newsz < oldsz || r == 0 < newsz ==> maps == old(maps) && owned == old(owned) && data == old(data)
      ensures oldsz <= newsz && r == newsz ==>
                && Added(old(maps), old(owned), old(data), maps, owned, data, root, PageUp(oldsz),
                         PageUp(newsz) - PageUp(oldsz))
                && Filled(maps, data, root, PageUp(oldsz), PageUp(newsz) - PageUp(oldsz),
                          Pte(true, true, w, x, true, 0))
      ensures oldsz <= newsz && r == 0 < newsz ==> |old(free)| < 3 * (PageUp(newsz) - PageUp(oldsz))
    {
      hide MemOk, Pages, Without, OwnedWithout, Added, Filled, ZeroPage;
      if newsz < oldsz { return oldsz; }
      var lo, a := PageUp(oldsz), 0;
      PageUpGrows(oldsz, newsz);
      AddedStart(maps, owned, data, root, lo);
      FilledStart(maps, data, root, lo, Pte(true, true, w, x, true, 0));
      while PGSIZE * (lo + a) < newsz
        invariant a <= PageUp(newsz) - lo
        invariant Ok() && KeepsHome(old(home), home) && All() == old(All())
        invariant Added(old(maps), old(owned), old(data), maps, owned, data, root, lo, a)
        invariant Filled(maps, data, root, lo, a, Pte(true, true, w, x, true, 0))
        invariant |old(free)| <= |free| + 3 * a
        decreases PageUp(newsz) - lo - a
      {
        AddedMore(old(maps), old(owned), old(data), maps, owned, data, root, lo, a);
        ghost var m, o, d := maps, owned, data;
        var mem := NewPage(root, lo + a, Pte(true, true, w, x, true, 0), ZeroPage());
        if mem == 0 {
          AllocUndo(old(tables), old(home), old(maps), old(owned), foreign, old(free), old(data),
                    tables, home, maps, owned, free, data, root, lo, a);
          var _ := Uvmdealloc(root, PGSIZE * (lo + a), PGSIZE * lo);
          return 0;
        }
        AddedStep(old(maps), old(owned), old(data), m, o, d, root, lo, a, Pte(true, true, w, x, true, mem), ZeroPage());
        FilledStep(m, d, root, lo, a, Pte(true, true, w, x, true, 0), mem);
        a := a + 1;
      }
      r := newsz;
    }

    /** Copies the memory below sz of one address space into another that has none there,
        or leaves the other as it was. */
    method Uvmcopy(from: nat, to: nat, sz: nat) returns (ok: bool)
      requires Ok() && IsRoot(from) && IsRoot(to) && from != to && sz <= MAXVA
      requires forall v :: 0 <= v < PageUp(sz) ==> Va(to, v) !in maps
      requires forall v :: 0 <= v < PageUp(sz) && Va(from, v) in maps ==> maps[Va(from, v)].pa !in foreign
      modifies this
      ensures Ok() && KeepsHome(old(home), home) && All() == old(All())
      ensures ok ==> && Added(old(maps), old(owned), old(data), maps, owned, data, to, 0, PageUp(sz))
                     && Mirrors(maps, data, from, to, PageUp(sz))
      ensures !ok ==> maps == old(maps) && owned == old(owned) && data == old(data) && |old(free)| < 3 * PageUp(sz)
    {
      hide MemOk, Pages, Without, OwnedWithout, Added, Mirrors, LowTable;
      var i := 0;
      AddedStart(maps, owned, data, to, 0);
      MirrorsStart(maps, data, from, to);
      while PGSIZE * i < sz
        invariant i <= PageUp(sz)
        invariant Ok() && KeepsHome(old(home), home) && All() == old(All())
        invariant Added(old(maps), old(owned), old(data), maps, owned, data, to, 0, i)
        invariant Mirrors(maps, data, from, to, i)
        invariant |old(free)| <= |free| + 3 * i
        decreases PageUp(sz) - i
      {
        var pt := Walk(from, i, false);
        CopyTurn(old(maps), old(owned), old(data), tables, home, maps, owned, foreign, free, data, from, to, i);
        if pt == 0 || !tables[pt][PX(0, i)].v {
          i := i + 1;
          continue;
        }
        var pte := tables[pt][PX(0, i)];
        ghost var m, o, d := maps, owned, data;
        var mem := NewPage(to, i, pte, data[pte.pa]);
        if mem == 0 {
          AllocUndo(old(tables), old(home), old(maps), old(owned), foreign, old(free), old(data),
                    tables, home, maps, owned, free, data, to, 0, i);
          Uvmunmap(to, 0, i, true);
          return false;
        }
        AddedStep(old(maps), old(owned), old(data), m, o, d, to, 0, i, pte.(pa := mem), d[pte.pa]);
        MirrorsStep(m, d, from, to, i, mem);
        i := i + 1;
      }
      ok := true;
    }

    /** A page of zeros for an address below the size of the process that has none yet. The code looks the address
        up in the table `root` it is given and maps the page in the table `cur` of the running process; `panic` is
        "mappages: remap". */
    method Vmfault(root: nat, cur: nat, sz: nat, va: nat) returns (page: nat, panic: bool)
      requires Ok() && IsRoot(root) && IsRoot(cur) && sz <= MAXVA
      modifies this
      ensures Ok() && KeepsHome(old(home), home) && All() == old(All())
      ensures page != 0 ==> && va < sz && Va(root, va / PGSIZE) !in old(maps) && Va(cur, va / PGSIZE) !in old(maps)
                            && page !in old(owned) && page !in old(data) && |old(free)| <= |free| + 3
                            && maps == old(maps)[Va(cur, va / PGSIZE) := Pte(true, true, true, false, true, page)]
                            && owned == old(owned)[page := Va(cur, va / PGSIZE)]
                            && data == old(data)[page := ZeroPage()]
      ensures page == 0 ==> maps == old(maps) && owned == old(owned) && data == old(data)
      ensures page == 0 && !panic ==> va >= sz || Va(root, va / PGSIZE) in maps || |old(free)| < 3
      ensures panic <==>
                va < sz && Va(root, va / PGSIZE) !in old(maps) && Va(cur, va / PGSIZE) in old(maps) && old(free) != []
      ensures panic ==> page == 0
    {
      hide MemOk, Pages, ZeroPage, LowTable;
      if va >= sz { return 0, false; }
      var mapped := Ismapped(root, va / PGSIZE);
      if mapped { return 0, false; }
      var there := Ismapped(cur, va / PGSIZE);
      if there { return 0, free != []; }
      page := NewPage(cur, va / PGSIZE, Pte(true, true, true, false, true, 0), ZeroPage());
      panic := false;
    }

    method Ismapped(root: nat, vpn: nat) returns (r: bool)
      requires Ok() && IsRoot(root) && vpn < MAXVPN
      modifies this`tables, this`free, this`home
      ensures Ok() && All() == old(All()) && tables == old(tables) && free == old(free) && home == old(home)
      ensures r <==> Va(root, vpn) in maps
    {
      hide TreeOk, Refines, Apart, Leaves, Pages, LowTable;
      var pt := Walk(root, vpn, false);
      FoundIs(tables, home, maps, root, vpn);
      r := pt != 0 && tables[pt][PX(0, vpn)].v;
    }
  }

  lemma MirrorsStart(m: Maps, d: map<nat, Page>, from: nat, to: nat)
    ensures Mirrors(m, d, from, to, 0)
  {
  }

  lemma MirrorsSkip(m: Maps, d: map<nat, Page>, from: nat, to: nat, count: nat)
    requires Mirrors(m, d, from, to, count) && Va(from, count) !in m && Va(to, count) !in m
    ensures Mirrors(m, d, from, to, count + 1)
  {
  }

  /** What one turn of uvmcopy finds at page i. */
  lemma CopyTurn(m0: Maps, o0: map<nat, Va>, d0: map<nat, Page>, tables: Tables, home: Home, maps: Maps,
                 owned: map<nat, Va>,
                 foreign: set<nat>, free: seq<nat>, data: map<nat, Page>, from: nat, to: nat, i: nat)
    requires MemOk(tables, home, maps, owned, foreign, free, data) && i < MAXVPN && from != to
    requires from in home && home[from].Root? && to in home && home[to].Root?
    requires Added(m0, o0, d0, maps, owned, data, to, 0, i) && Mirrors(maps, data, from, to, i) && Va(to, i) !in m0
    requires Va(from, i) in m0 ==> m0[Va(from, i)].pa !in foreign
    ensures Va(to, i) !in maps
    ensures Va(from, i) !in maps ==>
              Added(m0, o0, d0, maps, owned, data, to, 0, i + 1) && Mirrors(maps, data, from, to, i + 1)
    ensures Va(from, i) in maps ==> && maps[Va(from, i)].pa in owned && maps[Va(from, i)].pa in data
                                    && maps[Va(from, i)].v && IsLeaf(maps[Va(from, i)])
    ensures LowTable(tables, from, i).None? ==> Va(from, i) !in maps
    ensures LowTable(tables, from, i).Some? ==>
              && LowTable(tables, from, i).value in tables
              && var e := tables[LowTable(tables, from, i).value][PX(0, i)];
                 (e.v <==> Va(from, i) in maps) && (e.v ==> e == maps[Va(from, i)])
  {
    hide TreeOk, Refines, Apart, LowTable, Added, Mirrors;
    FoundIs(tables, home, maps, from, i);
    AddedMore(m0, o0, d0, maps, owned, data, to, 0, i);
    AddedElsewhere(m0, o0, d0, maps, owned, data, to, 0, i, from, i);
    if Va(from, i) !in maps {
      AddedSkip(m0, o0, d0, maps, owned, data, to, 0, i);
      MirrorsSkip(maps, data, from, to, i);
    }
  }

  /** PGROUNDUP(sz) / PGSIZE */
  function PageUp(sz: nat): (v: nat) { (sz + PGSIZE - 1) / PGSIZE }

  lemma PageUpGrows(a: nat, b: nat)
    requires a <= b
    ensures PageUp(a) <= PageUp(b) && PGSIZE * PageUp(a) >= a && (PageUp(a) > 0 ==> PGSIZE * (PageUp(a) - 1) < a)
  {
  }

  lemma FilledStart(m: Maps, d: map<nat, Page>, root: nat, lo: nat, flags: Pte)
    ensures Filled(m, d, root, lo, 0, flags)
  {
  }

  lemma AddedMore(m0: Maps, o0: map<nat, Va>, d0: map<nat, Page>, m: Maps, o: map<nat, Va>, d: map<nat, Page>,
                  root: nat, lo: nat, count: nat)
    requires Added(m0, o0, d0, m, o, d, root, lo, count)
    ensures Va(root, lo + count) in m ==> Va(root, lo + count) in m0
  {
  }

  lemma AddedElsewhere(m0: Maps, o0: map<nat, Va>, d0: map<nat, Page>, m: Maps, o: map<nat, Va>, d: map<nat, Page>,
                       root: nat, lo: nat, count: nat, r: nat, v: nat)
    requires Added(m0, o0, d0, m, o, d, root, lo, count) && r != root
    ensures Get(m, r, v) == Get(m0, r, v)
  {
  }

  /** When the pages of a range are all new, unmapping it restores what was there before. */
  lemma AllocUndo(t0: Tables, h0: Home, m0: Maps, o0: map<nat, Va>, foreign: set<nat>, f0: seq<nat>, d0: map<nat, Page>,
                  t: Tables, h: Home, m: Maps, o: map<nat, Va>, f: seq<nat>, d: map<nat, Page>,
                  root: nat, lo: nat, count: nat)
    requires MemOk(t0, h0, m0, o0, foreign, f0, d0) && MemOk(t, h, m, o, foreign, f, d)
    requires Added(m0, o0, d0, m, o, d, root, lo, count) && forall v :: lo <= v < lo + count ==> Va(root, v) !in m0
    ensures Without(m, root, lo, count) == m0 && OwnedWithout(o, root, lo, count) == o0 && d - (o.Keys - o0.Keys) == d0
    ensures forall v :: lo <= v < lo + count && Va(root, v) in m ==> m[Va(root, v)].pa !in foreign
    ensures PageUp(PGSIZE * lo) == lo && PageUp(PGSIZE * (lo + count)) == lo + count
    ensures count == 0 ==> m == m0 && o == o0 && d == d0
  {
    hide TreeOk, Refines, Without, OwnedWithout;
    AddedUndo(m0, o0, d0, m, o, d, foreign, root, lo, count);
    if count == 0 { WithoutNone(m, o, root, lo); }
  }

  lemma NewPageHeld(tables: Tables, home: Home, maps: Maps, owned: map<nat, Va>, foreign: set<nat>,
                    free: seq<nat>, data: map<nat, Page>, page: nat, contents: Page)
    requires MemOk(tables, home, maps, owned, foreign, free, data) && InHand(page, free, tables, owned, foreign)
    ensures MemOk(tables, home, maps, owned, foreign, free, data[page := contents]) && page !in owned
  {
    hide TreeOk, Refines, Apart, Leaves;
  }

  lemma MapRangeFresh(maps: Maps, root: nat, vpn: nat, e: Pte, count: nat)
    requires Va(root, vpn + count) !in maps
    ensures Va(root, vpn + count) !in MapRange(maps, root, vpn, e, count)
  {
    MapRangeIs(maps, root, vpn, e, count);
  }

  lemma UnmapTurn(tables: Tables, home: Home, maps: Maps, owned: map<nat, Va>, foreign: set<nat>,
                  free: seq<nat>, data: map<nat, Page>, root: nat, vpn: nat, a: nat)
    requires MemOk(tables, home, maps, owned, foreign, free, data)
    ensures var k, m, o := Va(root, vpn + a), Without(maps, root, vpn, a), OwnedWithout(owned, root, vpn, a);
            && Without(maps, root, vpn, a + 1) == m - {k}
            && OwnedWithout(owned, root, vpn, a + 1) == (if k in maps then o - {maps[k].pa} else o)
            && (k in maps <==> k in m) && (k in maps ==> m[k] == maps[k])
            && (k in maps && maps[k].pa !in foreign ==> maps[k].pa in owned)
  {
    hide TreeOk, Refines;
    WithoutStep(maps, root, vpn, a);
    OwnedStep(maps, owned, foreign, root, vpn, a);
  }

  lemma CreateTree(tables: Tables, home: Home, root: nat)
    requires TreeOk(tables, home) && root !in tables
    ensures TreeOk(tables[root := ZeroTable()], home[root := Root])
  {
    var t', h' := tables[root := ZeroTable()], home[root := Root];
    forall c | c in h' ensures HangsAt(t', h', c) {
      if c != root { assert HangsAt(tables, home, c); }
    }
    forall c, i | c in h' && c in t' && 0 <= i < ENTRIES ensures PointsAt(t', h', c, i) {
      if c != root { assert PointsAt(tables, home, c, i); }
    }
  }

  lemma CreateLookup(tables: Tables, home: Home, root: nat, r: nat, v: nat)
    requires TreeOk(tables, home) && root !in tables && v < MAXVPN && (r == root || (r in home && home[r].Root?))
    ensures Lookup(tables[root := ZeroTable()], r, v) == if r == root then None else Lookup(tables, r, v)
  {
    hide Hangs, Points, PX;
    if r != root { Path(tables, home, r, v); }
  }

  lemma CreateKeeps(tables: Tables, home: Home, maps: Maps, owned: map<nat, Va>, foreign: set<nat>,
                    free: seq<nat>, data: map<nat, Page>, root: nat)
    requires MemOk(tables, home, maps, owned, foreign, free, data)
    requires root == 0 || InHand(root, free, tables, owned, foreign)
    ensures root !in home && forall v: nat :: Va(root, v) !in maps
    ensures root != 0 ==>
              && MemOk(tables[root := ZeroTable()], home[root := Root], maps, owned, foreign, free, data)
              && Pages(free, tables[root := ZeroTable()], owned) == Pages(free, tables, owned) + {root}
  {
    hide TreeOk, Lookup, Leaves, ZeroTable;
    TreeKeys(tables, home);
    if root != 0 {
      var t', h' := tables[root := ZeroTable()], home[root := Root];
      CreateTree(tables, home, root);
      forall r, v | r in h' && h'[r].Root? && 0 <= v < MAXVPN ensures Lookup(t', r, v) == Get(maps, r, v) {
        CreateLookup(tables, home, root, r, v);
      }
    }
  }

  lemma WalkStart(tables: Tables, home: Home, maps: Maps, owned: map<nat, Va>, foreign: set<nat>,
                  free: seq<nat>, data: map<nat, Page>, root: nat, vpn: nat)
    requires MemOk(tables, home, maps, owned, foreign, free, data) && root in home && home[root].Root? && vpn < MAXVPN
    ensures TableAt(tables, root, vpn, 2) == Some(root) && root in tables && root != 0
  {
  }

  lemma WalkEnd(tables: Tables, root: nat, vpn: nat)
    requires vpn < MAXVPN
    ensures TableAt(tables, root, vpn, 0) == LowTable(tables, root, vpn)
  {
  }

  lemma WalkDown(tables: Tables, home: Home, maps: Maps, owned: map<nat, Va>, foreign: set<nat>,
                 free: seq<nat>, data: map<nat, Page>, root: nat, vpn: nat, level: nat)
    requires MemOk(tables, home, maps, owned, foreign, free, data) && root in home && home[root].Root? && vpn < MAXVPN
    requires 0 < level <= 2
    requires TableAt(tables, root, vpn, level).Some? && TableAt(tables, root, vpn, level).value in tables
    ensures var pte := tables[TableAt(tables, root, vpn, level).value][PX(level, vpn)];
            && (pte.v ==> TableAt(tables, root, vpn, level - 1) == Some(pte.pa) && pte.pa in home && pte.pa in tables
                          && pte.pa != 0 && Level(home[pte.pa]) == level - 1)
            && (!pte.v ==> LowTable(tables, root, vpn).None?)
  {
    hide TableAt, PX, Points, Hangs, Refines, Leaves, LowTable;
    Descend(tables, home, root, vpn, level);
  }

  lemma WalkNew(tables: Tables, home: Home, maps: Maps, owned: map<nat, Va>, foreign: set<nat>,
                free: seq<nat>, data: map<nat, Page>, root: nat, vpn: nat, level: nat, page: nat)
    requires MemOk(tables, home, maps, owned, foreign, free, data) && root in home && home[root].Root? && vpn < MAXVPN
    requires 0 < level <= 2 && InHand(page, free, tables, owned, foreign)
    requires TableAt(tables, root, vpn, level).Some? && TableAt(tables, root, vpn, level).value in tables
    requires TableAt(tables, root, vpn, level).value in home
    requires Level(home[TableAt(tables, root, vpn, level).value]) == level
    requires !tables[TableAt(tables, root, vpn, level).value][PX(level, vpn)].v
    ensures var p := TableAt(tables, root, vpn, level).value;
            var tables' := Attach(tables, p, PX(level, vpn), page);
            var home' := home[page := Child(p, PX(level, vpn), level - 1)];
            && MemOk(tables', home', maps, owned, foreign, free, data)
            && TableAt(tables', root, vpn, level - 1) == Some(page) && page in tables' && page != 0
            && Pages(free, tables', owned) == Pages(free, tables, owned) + {page}
            && KeepsHome(home, home') && home'[root].Root?
  {
    hide TableAt, PX, Points, Hangs, Refines, Leaves, LowTable;
    var p := TableAt(tables, root, vpn, level).value;
    AttachKeeps(tables, home, maps, owned, foreign, free, data, p, PX(level, vpn), page);
    DescendNew(tables, home, root, vpn, level, page);
  }
}
