/** Taking down the tables of an address space: freewalk and uvmfree. */
module FreeTables {

  import opened Basics
  import opened PageTable
  import opened AddressSpace
  import opened Vm

  /** Table c is p or hangs below it. */
  ghost predicate Under(home: Home, c: nat, p: nat) {
    && c in home
    && (c == p || (home[c].Child? && (|| home[c].parent == p
                                      || (home[c].parent in home && home[home[c].parent].Child?
                                          && home[home[c].parent].parent == p))))
  }

  ghost function Subtree(home: Home, p: nat): (s: set<nat>) { set c | c in home && Under(home, c, p) }

  /** The entry of p through which c is reached. */
  ghost function Branch(home: Home, c: nat, p: nat): (i: nat)
    requires Under(home, c, p) && c != p
  {
    if home[c].parent == p then home[c].idx else home[home[c].parent].idx
  }

  ghost function Branches(home: Home, p: nat, i: nat): (s: set<nat>) {
    set c | c in home && Under(home, c, p) && c != p && Branch(home, c, p) < i
  }

  /** Table c is as freewalk expects it: pointers to lower tables, no leaf. */
  ghost predicate Bare(tables: Tables, home: Home, c: nat)
    requires c in home
  {
    && c in tables && HangsAt(tables, home, c)
    && forall i :: 0 <= i < ENTRIES ==> if Level(home[c]) == 0 then !tables[c][i].v else PointsAt(tables, home, c, i)
  }

  ghost predicate BareUnder(tables: Tables, home: Home, p: nat) {
    forall c :: c in home && Under(home, c, p) ==> Bare(tables, home, c)
  }

  /** Each table hangs one level below its parent. */
  ghost predicate Levels(home: Home) {
    forall c :: c in home && home[c].Child? ==>
      home[c].level < 2 && home[c].parent in home && Level(home[home[c].parent]) == home[c].level + 1
  }

  // ----- one table -----

  /** The branch at entry i is the subtree of the table that the entry points to. */
  lemma BranchIs(t0: Tables, home: Home, pt: nat, i: nat)
    requires Levels(home) && pt in home && BareUnder(t0, home, pt) && pt in t0 && i < ENTRIES && t0[pt][i].v
    ensures var child := t0[pt][i].pa;
            && child in home && home[child] == Child(pt, i, Level(home[pt]) - 1) && Level(home[pt]) > 0
            && t0[pt][i] == Pointer(child)
            && Branches(home, pt, i + 1) == Branches(home, pt, i) + Subtree(home, child)
            && Subtree(home, child) !! Branches(home, pt, i) && Subtree(home, child) <= Subtree(home, pt)
            && pt !in Subtree(home, child)
  {
    assert Bare(t0, home, pt) && PointsAt(t0, home, pt, i);
    var child := t0[pt][i].pa;
    forall c | c in home && Under(home, c, child)
      ensures Under(home, c, pt) && c != pt && Branch(home, c, pt) == i
    {
      UnderChild(home, pt, child, c);
    }
    forall c | c in home && Under(home, c, pt) && c != pt && Branch(home, c, pt) == i
      ensures Under(home, c, child)
    {
      assert Bare(t0, home, c);
      if home[c].parent != pt { assert Bare(t0, home, home[c].parent); }
    }
  }

  lemma UnderChild(home: Home, pt: nat, child: nat, c: nat)
    requires Levels(home) && pt in home && child in home && home[child].Child? && home[child].parent == pt
    requires Under(home, c, child)
    ensures Under(home, c, pt) && c != pt && Branch(home, c, pt) == home[child].idx
  {
  }

  /** An entry that is not valid has no branch. */
  lemma NoBranch(t0: Tables, home: Home, pt: nat, i: nat)
    requires Levels(home) && pt in home && BareUnder(t0, home, pt) && pt in t0 && i < ENTRIES && !t0[pt][i].v
    ensures Branches(home, pt, i + 1) == Branches(home, pt, i)
  {
    forall c | c in home && Under(home, c, pt) && c != pt ensures Branch(home, c, pt) != i {
      assert Bare(t0, home, c);
      if home[c].parent != pt { assert Bare(t0, home, home[c].parent); }
    }
  }

  lemma AllBranches(t0: Tables, home: Home, pt: nat)
    requires Levels(home) && pt in home && BareUnder(t0, home, pt)
    ensures Branches(home, pt, 0) == {} && Branches(home, pt, ENTRIES) + {pt} == Subtree(home, pt)
  {
    forall c | c in home && Under(home, c, pt) && c != pt ensures Branch(home, c, pt) < ENTRIES {
      assert Bare(t0, home, c);
      if home[c].parent != pt { assert Bare(t0, home, home[c].parent); }
    }
  }

  /** The first i entries of pt have been dealt with. */
  ghost predicate Cleared(t0: Tables, t: Tables, home: Home, pt: nat, i: nat) {
    && t.Keys == t0.Keys - Branches(home, pt, i) && pt in t && pt in t0
    && (forall c :: c in t && c != pt ==> t[c] == t0[c])
    && (forall j :: i <= j < ENTRIES ==> t[pt][j] == t0[pt][j])
  }

  /** The part of the tree below the next entry has not been touched. */
  lemma StillBare(t0: Tables, t: Tables, home: Home, pt: nat, i: nat, child: nat)
    requires Levels(home) && BareUnder(t0, home, pt) && Cleared(t0, t, home, pt, i) && i < ENTRIES
    requires pt in home && Level(home[pt]) > 0 && child in home && home[child] == Child(pt, i, Level(home[pt]) - 1)
    ensures BareUnder(t, home, child) && child in t
  {
    forall c | c in home && Under(home, c, child) ensures Bare(t, home, c) {
      UnderChild(home, pt, child, c);
      assert Bare(t0, home, c);
      assert c in t && t[c] == t0[c];
      if c != child { assert Under(home, home[c].parent, child); UnderChild(home, pt, child, home[c].parent); }
      forall j | 0 <= j < ENTRIES
        ensures if Level(home[c]) == 0 then !t[c][j].v else PointsAt(t, home, c, j)
      {
        assert Level(home[c]) > 0 ==> PointsAt(t0, home, c, j);
      }
    }
  }

  /** The pages of s have joined the free list, each once. */
  ghost predicate Freed(f0: seq<nat>, f: seq<nat>, s: set<nat>) {
    Distinct(f) && (forall p :: p in f <==> p in f0 || p in s)
  }

  lemma FreedMore(f0: seq<nat>, f1: seq<nat>, f2: seq<nat>, s1: set<nat>, s2: set<nat>)
    requires Freed(f0, f1, s1) && Freed(f1, f2, s2)
    ensures Freed(f0, f2, s1 + s2)
  {
  }

  lemma FreedOne(f: seq<nat>, p: nat)
    requires Distinct(f) && p !in f
    ensures Freed(f, [p] + f, {p})
  {
  }

  /** Frees the table and all tables below it; none of them may hold a leaf. */
  method Freewalk(mem: Memory, pt: nat, ghost home: Home)
    requires Levels(home) && pt in home && BareUnder(mem.tables, home, pt)
    requires Distinct(mem.free) && forall c :: c in Subtree(home, pt) ==> c !in mem.free
    modifies mem`tables, mem`free, mem`data
    ensures mem.tables == old(mem.tables) - Subtree(home, pt)
    ensures Freed(old(mem.free), mem.free, Subtree(home, pt))
    ensures mem.data == old(mem.data) - Subtree(home, pt)
    decreases Level(home[pt])
  {
    hide BareUnder, Subtree, Branches, Levels, Freed;
    FreewalkStart(mem.tables, mem.free, home, pt);
    var i := 0;
    while i < ENTRIES
      invariant i <= ENTRIES && Cleared(old(mem.tables), mem.tables, home, pt, i)
      invariant Freed(old(mem.free), mem.free, Branches(home, pt, i))
      invariant mem.data == old(mem.data) - Branches(home, pt, i)
    {
      var pte := mem.tables[pt][i];
      if pte.v && !IsLeaf(pte) {
        BranchIs(old(mem.tables), home, pt, i);
        StillBare(old(mem.tables), mem.tables, home, pt, i, pte.pa);
        FreedApart(old(mem.free), mem.free, home, pt, i, pte.pa);
        ghost var f := mem.free;
        Freewalk(mem, pte.pa, home);
        FreedMore(old(mem.free), f, mem.free, Branches(home, pt, i), Subtree(home, pte.pa));
        mem.tables := mem.tables[pt := mem.tables[pt][i := NoPte]];
      } else if pte.v {
        BranchIs(old(mem.tables), home, pt, i);
        assert false;
      } else {
        NoBranch(old(mem.tables), home, pt, i);
      }
      i := i + 1;
    }
    FreewalkEnd(old(mem.tables), old(mem.free), mem.free, home, pt);
    mem.Kfree(pt);
    mem.tables := mem.tables - {pt};
  }

  lemma FreewalkStart(t: Tables, f: seq<nat>, home: Home, pt: nat)
    requires Levels(home) && pt in home && BareUnder(t, home, pt) && Distinct(f)
    ensures Cleared(t, t, home, pt, 0) && Branches(home, pt, 0) == {} && Freed(f, f, {})
  {
    AllBranches(t, home, pt);
    assert Under(home, pt, pt) && Bare(t, home, pt);
  }

  lemma FreedApart(f0: seq<nat>, f: seq<nat>, home: Home, pt: nat, i: nat, child: nat)
    requires Freed(f0, f, Branches(home, pt, i)) && Subtree(home, child) !! Branches(home, pt, i)
    requires Subtree(home, child) <= Subtree(home, pt) && forall c :: c in Subtree(home, pt) ==> c !in f0
    ensures Distinct(f) && forall c :: c in Subtree(home, child) ==> c !in f
  {
  }

  lemma FreewalkEnd(t0: Tables, f0: seq<nat>, f: seq<nat>, home: Home, pt: nat)
    requires Levels(home) && pt in home && BareUnder(t0, home, pt)
    requires Freed(f0, f, Branches(home, pt, ENTRIES)) && forall c :: c in Subtree(home, pt) ==> c !in f0
    ensures Branches(home, pt, ENTRIES) + {pt} == Subtree(home, pt)
    ensures Freed(f0, [pt] + f, Subtree(home, pt))
  {
    AllBranches(t0, home, pt);
    assert pt in Subtree(home, pt) && pt !in Branches(home, pt, ENTRIES);
    FreedOne(f, pt);
    FreedMore(f0, f, [pt] + f, Branches(home, pt, ENTRIES), {pt});
  }

  // ----- a whole address space -----

  function Vpn(i: nat, j: nat, k: nat): (v: nat)
    requires i < MAXVPN / 0x4_0000 && j < ENTRIES && k < ENTRIES
    ensures v < MAXVPN && PX(2, v) == i && PX(1, v) == j && PX(0, v) == k
  {
    var low := j * ENTRIES + k;
    assert low < 0x4_0000;
    assert low / ENTRIES == j && low % ENTRIES == k;
    var v := i * 0x4_0000 + low;
    assert v / 0x4_0000 == i;
    assert v / ENTRIES == i * ENTRIES + j;
    v
  }

  /** A level-0 table below root is where some page is looked up. */
  lemma LowIs(tables: Tables, home: Home, root: nat, c: nat, k: nat)
    requires TreeOk(tables, home) && root in home && home[root].Root? && Under(home, c, root) && Level(home[c]) == 0
    requires k < ENTRIES && c in tables && tables[c][k].v
    ensures exists v :: 0 <= v < MAXVPN && Lookup(tables, root, v) == Some(tables[c][k])
  {
    assert HangsAt(tables, home, c);
    var m := home[c].parent;
    assert HangsAt(tables, home, m);
    var v := Vpn(home[m].idx, home[c].idx, k);
    assert Lookup(tables, root, v) == Some(tables[c][k]);
  }

  lemma RootBare(tables: Tables, home: Home, maps: Maps, root: nat)
    requires TreeOk(tables, home) && Refines(tables, home, maps) && root in home && home[root].Root?
    requires forall k :: k in maps ==> k.root != root
    ensures Levels(home) && BareUnder(tables, home, root)
  {
    hide Lookup, Vpn;
    forall c | c in home && home[c].Child?
      ensures home[c].level < 2 && home[c].parent in home && Level(home[home[c].parent]) == home[c].level + 1
    {
      assert HangsAt(tables, home, c);
    }
    forall c | c in home && Under(home, c, root) ensures Bare(tables, home, c) {
      assert HangsAt(tables, home, c);
      forall i | 0 <= i < ENTRIES
        ensures if Level(home[c]) == 0 then !tables[c][i].v else PointsAt(tables, home, c, i)
      {
        assert PointsAt(tables, home, c, i);
        if Level(home[c]) == 0 && tables[c][i].v {
          LowIs(tables, home, root, c, i);
        }
      }
    }
  }

  /** Taking one tree away leaves the others whole. */
  lemma RemoveTree(tables: Tables, home: Home, root: nat)
    requires TreeOk(tables, home) && root in home && home[root].Root? && Levels(home)
    ensures TreeOk(tables - Subtree(home, root), home - Subtree(home, root))
  {
    var t', h' := tables - Subtree(home, root), home - Subtree(home, root);
    forall c | c in h' ensures HangsAt(t', h', c) {
      assert HangsAt(tables, home, c);
      if home[c].Child? { assert !Under(home, home[c].parent, root); }
    }
    forall c, i | c in h' && c in t' && 0 <= i < ENTRIES ensures PointsAt(t', h', c, i) {
      assert PointsAt(tables, home, c, i);
      if tables[c][i].v && Level(home[c]) > 0 { assert !Under(home, tables[c][i].pa, root); }
    }
  }

  lemma RemoveLookup(tables: Tables, home: Home, root: nat, r: nat, v: nat)
    requires TreeOk(tables, home) && root in home && home[root].Root? && Levels(home) && v < MAXVPN
    requires r in home && home[r].Root? && r != root
    ensures Lookup(tables - Subtree(home, root), r, v) == Lookup(tables, r, v)
  {
    hide PX, TreeOk, Levels;
    Path(tables, home, r, v);
  }

  lemma RemoveRefines(tables: Tables, home: Home, maps: Maps, root: nat)
    requires TreeOk(tables, home) && Refines(tables, home, maps) && root in home && home[root].Root? && Levels(home)
    requires forall k :: k in maps ==> k.root != root
    ensures Refines(tables - Subtree(home, root), home - Subtree(home, root), maps)
  {
    hide TreeOk, Lookup, Levels;
    var s := Subtree(home, root);
    forall r, v | r in home - s && (home - s)[r].Root? && 0 <= v < MAXVPN
      ensures Lookup(tables - s, r, v) == Get(maps, r, v)
    {
      assert Under(home, root, root);
      RemoveLookup(tables, home, root, r, v);
    }
    forall k | k in maps ensures k.root in home - s && (home - s)[k.root].Root? { }
  }

  lemma RemoveKeeps(tables: Tables, home: Home, maps: Maps, owned: map<nat, Va>, foreign: set<nat>,
                    free: seq<nat>, data: map<nat, Page>, free': seq<nat>, root: nat)
    requires MemOk(tables, home, maps, owned, foreign, free, data) && root in home && home[root].Root? && Levels(home)
    requires (forall k :: k in maps ==> k.root != root) && Freed(free, free', Subtree(home, root))
    ensures var s := Subtree(home, root);
            && MemOk(tables - s, home - s, maps, owned, foreign, free', data - s)
            && Pages(free', tables - s, owned) == Pages(free, tables, owned)
            && s <= tables.Keys && s !! owned.Keys
  {
    hide TreeOk, Refines, Levels, Leaves, Under;
    TreeKeys(tables, home);
    RemoveTree(tables, home, root);
    RemoveRefines(tables, home, maps, root);
    assert Subtree(home, root) <= home.Keys;
  }

  /** Frees the user memory below sz and then every table. All of the address space must lie below sz. */
  method Uvmfree(mem: Memory, root: nat, sz: nat)
    requires mem.Ok() && mem.IsRoot(root) && sz <= MAXVA
    requires forall k :: k in mem.maps && k.root == root ==> k.vpn < PageUp(sz) && mem.maps[k].pa !in mem.foreign
    modifies mem
    ensures mem.Ok() && mem.All() == old(mem.All())
    ensures mem.home == old(mem.home) - Subtree(old(mem.home), root) && root !in mem.home
    ensures mem.maps == map k | k in old(mem.maps) && k.root != root :: old(mem.maps)[k]
    ensures mem.owned == map p | p in old(mem.owned) && old(mem.owned)[p].root != root :: old(mem.owned)[p]
    ensures forall p :: p in mem.owned ==> p in mem.data && mem.data[p] == old(mem.data)[p]
  {
    hide MemOk, Pages, Without, OwnedWithout, BareUnder, Levels, Freed, Subtree;
    FreeStart(mem.tables, mem.home, mem.maps, mem.owned, mem.foreign, mem.free, mem.data, root, sz);
    if sz > 0 { mem.Uvmunmap(root, 0, PageUp(sz), true); }
    FreeReady(mem.tables, mem.home, mem.maps, mem.owned, mem.foreign, mem.free, mem.data, root);
    ghost var t, f, d := mem.tables, mem.free, mem.data;
    Freewalk(mem, root, mem.home);
    RemoveKeeps(t, mem.home, mem.maps, mem.owned, mem.foreign, f, d, mem.free, root);
    mem.home := mem.home - Subtree(mem.home, root);
  }

  lemma FreeStart(tables: Tables, home: Home, maps: Maps, owned: map<nat, Va>, foreign: set<nat>,
                  free: seq<nat>, data: map<nat, Page>, root: nat, sz: nat)
    requires MemOk(tables, home, maps, owned, foreign, free, data)
    requires forall k :: k in maps && k.root == root ==> k.vpn < PageUp(sz) && maps[k].pa !in foreign
    ensures Without(maps, root, 0, PageUp(sz)) == map k | k in maps && k.root != root :: maps[k]
    ensures OwnedWithout(owned, root, 0, PageUp(sz)) == map p | p in owned && owned[p].root != root :: owned[p]
    ensures sz == 0 ==> Without(maps, root, 0, PageUp(sz)) == maps && OwnedWithout(owned, root, 0, PageUp(sz)) == owned
    ensures owned.Keys <= data.Keys
  {
    hide TreeOk, Refines, Apart;
    assert forall k :: k in maps ==> (InRange(k, root, 0, PageUp(sz)) <==> k.root == root);
    WithoutNone(maps, owned, root, 0);
  }

  lemma FreeReady(tables: Tables, home: Home, maps: Maps, owned: map<nat, Va>, foreign: set<nat>,
                  free: seq<nat>, data: map<nat, Page>, root: nat)
    requires MemOk(tables, home, maps, owned, foreign, free, data) && root in home && home[root].Root?
    requires forall k :: k in maps ==> k.root != root
    ensures Levels(home) && BareUnder(tables, home, root) && Distinct(free) && root in Subtree(home, root)
    ensures forall c :: c in Subtree(home, root) ==> c !in free
  {
    hide TreeOk, Refines, Leaves;
    RootBare(tables, home, maps, root);
    TreeKeys(tables, home);
  }

  /** proc_freepagetable(): the trampoline and trapframe pages are unmapped but not freed. */
  method ProcFreePagetable(mem: Memory, root: nat, sz: nat)
    requires mem.Ok() && mem.IsRoot(root) && UserOk(mem.maps, mem.foreign, root, sz)
    modifies mem
    ensures mem.Ok() && mem.All() == old(mem.All()) && root !in mem.home
    ensures mem.home == old(mem.home) - Subtree(old(mem.home), root)
    ensures mem.maps == map k | k in old(mem.maps) && k.root != root :: old(mem.maps)[k]
    ensures mem.owned == map p | p in old(mem.owned) && old(mem.owned)[p].root != root :: old(mem.owned)[p]
    ensures forall p :: p in mem.owned ==> p in mem.data && mem.data[p] == old(mem.data)[p]
  {
    hide MemOk, Pages, Without, OwnedWithout, Subtree;
    FreeTop(mem.tables, mem.home, mem.maps, mem.owned, mem.foreign, mem.free, mem.data, root, sz);
    mem.Uvmunmap(root, MAXVPN - 1, 1, false);
    mem.Uvmunmap(root, MAXVPN - 2, 1, false);
    Uvmfree(mem, root, sz);
  }

  lemma FreeTop(tables: Tables, home: Home, maps: Maps, owned: map<nat, Va>, foreign: set<nat>,
                free: seq<nat>, data: map<nat, Page>, root: nat, sz: nat)
    requires MemOk(tables, home, maps, owned, foreign, free, data) && UserOk(maps, foreign, root, sz)
    ensures var m1, o1 := Without(maps, root, MAXVPN - 1, 1), OwnedWithout(owned, root, MAXVPN - 1, 1);
            var m2, o2 := Without(m1, root, MAXVPN - 2, 1), OwnedWithout(o1, root, MAXVPN - 2, 1);
            && o1 == owned && o2 == owned
            && (map k | k in m2 && k.root != root :: m2[k]) == (map k | k in maps && k.root != root :: maps[k])
            && (forall k :: k in m2 && k.root == root ==> k.vpn < PageUp(sz) && m2[k].pa !in foreign)
    ensures sz <= MAXVA
  {
    hide TreeOk;
    WithoutStep(maps, root, MAXVPN - 1, 0);
    OwnedTop(maps, owned, foreign, root, sz, MAXVPN - 1);
    OwnedTop(maps, owned, foreign, root, sz, MAXVPN - 2);
  }

  lemma OwnedTop(maps: Maps, owned: map<nat, Va>, foreign: set<nat>, root: nat, sz: nat, v: nat)
    requires Leaves(maps, owned, foreign) && (forall p :: p in owned ==> p !in foreign)
    requires UserOk(maps, foreign, root, sz) && MAXVPN - 2 <= v < MAXVPN
    ensures OwnedWithout(owned, root, v, 1) == owned
  {
    assert forall p :: p in owned ==> owned[p] in maps;
  }
}
