/** Sv39 page tables on values: three levels of 512-entry tables, and the finite map
    from virtual page to leaf entry that they stand for. */
module PageTable {

  import opened Basics

  const ENTRIES: nat := 512
  const MAXVPN: nat := 0x400_0000   // MAXVA / PGSIZE

  /** A page-table entry: the flag bits the kernel uses, and the page it points to. */
  datatype Pte = Pte(v: bool, r: bool, w: bool, x: bool, u: bool, pa: nat)

  const NoPte: Pte := Pte(false, false, false, false, false, 0)

  /** An entry that points to a lower-level table: PA2PTE(pa) | PTE_V. */
  function Pointer(pa: nat): (e: Pte) { Pte(true, false, false, false, false, pa) }

  /** (pte & (PTE_R | PTE_W | PTE_X)) != 0 */
  predicate IsLeaf(e: Pte) { e.r || e.w || e.x }

  type Table = t: seq<Pte> | |t| == ENTRIES witness seq(ENTRIES, _ => Pte(false, false, false, false, false, 0))

  function ZeroTable(): (t: Table)
    ensures forall i :: 0 <= i < ENTRIES ==> t[i] == NoPte
  {
    seq(ENTRIES, _ => NoPte)
  }

  type Tables = map<nat, Table>

  /** PX(level, va) for virtual page number vpn. */
  function PX(level: nat, vpn: nat): (i: nat)
    requires level <= 2 && vpn < MAXVPN
    ensures i < if level == 2 then MAXVPN / 0x4_0000 else ENTRIES
  {
    if level == 2 then vpn / 0x4_0000 else if level == 1 then vpn / ENTRIES % ENTRIES else vpn % ENTRIES
  }

  /** The three indices determine the virtual page. */
  lemma PXUnique(v: nat, w: nat)
    requires v < MAXVPN && w < MAXVPN
    requires PX(2, v) == PX(2, w) && PX(1, v) == PX(1, w) && PX(0, v) == PX(0, w)
    ensures v == w
  {
    assert v / 0x4_0000 == v / ENTRIES / ENTRIES && w / 0x4_0000 == w / ENTRIES / ENTRIES;
    assert v / ENTRIES == v / ENTRIES / ENTRIES * ENTRIES + v / ENTRIES % ENTRIES;
    assert w / ENTRIES == w / ENTRIES / ENTRIES * ENTRIES + w / ENTRIES % ENTRIES;
    assert v == v / ENTRIES * ENTRIES + v % ENTRIES && w == w / ENTRIES * ENTRIES + w % ENTRIES;
  }

  // ----- following the tables -----

  /** The table that entry i of table t points to. */
  function Below(tables: Tables, t: nat, i: nat): (r: Option<nat>)
    requires i < ENTRIES
  {
    if t in tables && tables[t][i].v then Some(tables[t][i].pa) else None
  }

  /** The level-0 table for vpn. */
  function LowTable(tables: Tables, root: nat, vpn: nat): (r: Option<nat>)
    requires vpn < MAXVPN
  {
    var mid := Below(tables, root, PX(2, vpn));
    if mid.None? then None else Below(tables, mid.value, PX(1, vpn))
  }

  /** The leaf entry for vpn: the map that the tables stand for. */
  function Lookup(tables: Tables, root: nat, vpn: nat): (r: Option<Pte>)
    requires vpn < MAXVPN
  {
    var low := LowTable(tables, root, vpn);
    if low.None? || low.value !in tables || !tables[low.value][PX(0, vpn)].v then None
    else Some(tables[low.value][PX(0, vpn)])
  }

  // ----- what the hardware does with the tables -----

  /** The entry index that Sv39 takes from an address: bits 38 to 30, 29 to 21 or 20 to 12. */
  function Index(va: nat, level: nat): (i: nat)
    requires level <= 2
    ensures i < ENTRIES
  {
    if level == 2 then va / 0x4000_0000 % 0x200 else if level == 1 then va / 0x20_0000 % 0x200 else va / 0x1000 % 0x200
  }

  datatype Access = Fault | At(e: Pte, pa: nat)

  /** Address translation from table t down: section 4.3.2 of the RISC-V privileged architecture, with leaves at any
      level. An entry that can be written but not read is reserved. */
  function Translate(tables: Tables, t: nat, va: nat, level: nat): (r: Access)
    requires level <= 2
    decreases level
  {
    if t !in tables then Fault
    else
      var e := tables[t][Index(va, level)];
      if !e.v || (!e.r && e.w) then Fault
      else if e.r || e.x then
        var span := if level == 2 then 0x4_0000 else if level == 1 then 0x200 else 1;
        if e.pa % span != 0 then Fault else At(e, 0x1000 * e.pa + va % (0x1000 * span))
      else if level == 0 then Fault
      else Translate(tables, e.pa, va, level - 1)
  }

  predicate Usable(e: Pte) { e.r || (e.x && !e.w) }

  lemma IndexIsPX(va: nat, level: nat)
    requires va < 0x1000 * MAXVPN && level <= 2
    ensures Index(va, level) == PX(level, va / 0x1000)
  {
    assert va / 0x20_0000 == va / 0x1000 / 0x200 && va / 0x4000_0000 == va / 0x1000 / 0x4_0000;
  }

  /** The three indices are the digits of the page number. */
  lemma PXDigits(vpn: nat)
    requires vpn < MAXVPN
    ensures vpn == PX(2, vpn) * 0x4_0000 + PX(1, vpn) * ENTRIES + PX(0, vpn)
  {
    assert vpn / 0x4_0000 == vpn / ENTRIES / ENTRIES;
  }

  /** The hardware sees exactly the map that the tables stand for: the page of the leaf entry, byte by byte. */
  lemma HardwareSees(tables: Tables, home: Home, root: nat, va: nat)
    requires TreeOk(tables, home) && root in home && home[root].Root? && va < 0x1000 * MAXVPN
    ensures var e := Lookup(tables, root, va / 0x1000);
            Translate(tables, root, va, 2) ==
            if e.Some? && Usable(e.value) then At(e.value, 0x1000 * e.value.pa + va % 0x1000) else Fault
  {
    hide Hangs, PX, Index;
    var vpn := va / 0x1000;
    IndexIsPX(va, 2);
    IndexIsPX(va, 1);
    IndexIsPX(va, 0);
    Path(tables, home, root, vpn);
    assert PointsAt(tables, home, root, PX(2, vpn));
    var mid := Below(tables, root, PX(2, vpn));
    if mid.Some? {
      assert PointsAt(tables, home, mid.value, PX(1, vpn));
      assert Translate(tables, root, va, 2) == Translate(tables, mid.value, va, 1);
      var low := Below(tables, mid.value, PX(1, vpn));
      if low.Some? {
        assert PointsAt(tables, home, low.value, PX(0, vpn));
        assert Translate(tables, mid.value, va, 1) == Translate(tables, low.value, va, 0);
      }
    }
  }

  // ----- the tables form trees -----

  /** Where a table hangs: at the top, or from entry idx of a table one level up. */
  datatype Node = Root | Child(parent: nat, idx: nat, level: nat)

  type Home = map<nat, Node>

  function Level(n: Node): (l: nat) { if n.Root? then 2 else n.level }

  /** Table t hangs from the one place recorded for it. */
  ghost predicate HangsAt(tables: Tables, home: Home, t: nat)
    requires t in home
  {
    home[t].Child? ==>
      && home[t].level < 2 && home[t].idx < (if home[t].level == 1 then MAXVPN / 0x4_0000 else ENTRIES)
      && home[t].parent in home && home[t].parent in tables
      && Level(home[home[t].parent]) == home[t].level + 1
      && tables[home[t].parent][home[t].idx] == Pointer(t)
  }

  ghost predicate Hangs(tables: Tables, home: Home) { forall t :: t in home ==> HangsAt(tables, home, t) }

  /** A valid entry above level 0 points to the table recorded as hanging there,
      and a valid entry of level 0 is a leaf. */
  ghost predicate PointsAt(tables: Tables, home: Home, t: nat, i: nat)
    requires t in home && t in tables && i < ENTRIES
  {
    tables[t][i].v ==>
      if Level(home[t]) == 0 then IsLeaf(tables[t][i])
      else && tables[t][i] == Pointer(tables[t][i].pa)
           && tables[t][i].pa in home
           && home[tables[t][i].pa] == Child(t, i, Level(home[t]) - 1)
  }

  ghost predicate Points(tables: Tables, home: Home) {
    forall t, i :: t in home && t in tables && 0 <= i < ENTRIES ==> PointsAt(tables, home, t, i)
  }

  ghost predicate TreeOk(tables: Tables, home: Home) {
    home.Keys == tables.Keys && Hangs(tables, home) && Points(tables, home)
  }

  /** The tables on the way to vpn, and where they hang. */
  lemma Path(tables: Tables, home: Home, r: nat, v: nat)
    requires TreeOk(tables, home) && r in home && home[r].Root? && v < MAXVPN
    ensures var mid := Below(tables, r, PX(2, v));
            mid.Some? ==> && mid.value in tables && home[mid.value] == Child(r, PX(2, v), 1)
                          && var low := Below(tables, mid.value, PX(1, v));
                             low.Some? ==> low.value in tables && home[low.value] == Child(mid.value, PX(1, v), 0)
  {
    hide Hangs, PX;
    assert PointsAt(tables, home, r, PX(2, v));
    var mid := Below(tables, r, PX(2, v));
    if mid.Some? { assert PointsAt(tables, home, mid.value, PX(1, v)); }
  }

  /** No table is shared: two paths that reach the same level-0 table are the same. */
  lemma NoSharing(tables: Tables, home: Home, r: nat, v: nat, s: nat, w: nat)
    requires TreeOk(tables, home) && v < MAXVPN && w < MAXVPN
    requires r in home && home[r].Root? && s in home && home[s].Root?
    requires LowTable(tables, r, v).Some? && LowTable(tables, r, v) == LowTable(tables, s, w)
    ensures r == s && PX(2, v) == PX(2, w) && PX(1, v) == PX(1, w)
  {
    hide Hangs, PX;
    Path(tables, home, r, v);
    Path(tables, home, s, w);
  }

  // ----- walk -----

  /** walk hangs a fresh, empty table from an entry that was not valid. */
  function Attach(tables: Tables, p: nat, i: nat, t: nat): (r: Tables)
    requires p in tables && i < ENTRIES
  {
    tables[p := tables[p][i := Pointer(t)]][t := ZeroTable()]
  }

  lemma AttachHangs(tables: Tables, home: Home, p: nat, i: nat, t: nat)
    requires TreeOk(tables, home) && p in tables && i < ENTRIES && !tables[p][i].v
    requires Level(home[p]) > 0 && t !in tables && (Level(home[p]) == 2 ==> i < MAXVPN / 0x4_0000)
    ensures Hangs(Attach(tables, p, i, t), home[t := Child(p, i, Level(home[p]) - 1)])
  {
    hide Points, ZeroTable;
    var tables', home' := Attach(tables, p, i, t), home[t := Child(p, i, Level(home[p]) - 1)];
    forall c | c in home' ensures HangsAt(tables', home', c) {
      if c != t { assert HangsAt(tables, home, c); }
    }
  }

  lemma AttachTree(tables: Tables, home: Home, p: nat, i: nat, t: nat)
    requires TreeOk(tables, home) && p in tables && i < ENTRIES && !tables[p][i].v
    requires Level(home[p]) > 0 && t !in tables && (Level(home[p]) == 2 ==> i < MAXVPN / 0x4_0000)
    ensures TreeOk(Attach(tables, p, i, t), home[t := Child(p, i, Level(home[p]) - 1)])
  {
    hide Hangs;
    var tables', home' := Attach(tables, p, i, t), home[t := Child(p, i, Level(home[p]) - 1)];
    AttachHangs(tables, home, p, i, t);
    forall c, j | c in home' && c in tables' && 0 <= j < ENTRIES ensures PointsAt(tables', home', c, j) {
      if c != t { assert PointsAt(tables, home, c, j); }
    }
  }

  /** Hanging an empty table changes nothing that the tables map. */
  lemma AttachLookup(tables: Tables, home: Home, p: nat, i: nat, t: nat, r: nat, v: nat)
    requires TreeOk(tables, home) && p in tables && i < ENTRIES && !tables[p][i].v
    requires Level(home[p]) > 0 && t !in tables && r in home && home[r].Root? && v < MAXVPN
    ensures Lookup(Attach(tables, p, i, t), r, v) == Lookup(tables, r, v)
  {
    hide Hangs, Points, PX;
    Path(tables, home, r, v);
  }

  // ----- leaf entries -----

  function SetLeaf(tables: Tables, t: nat, i: nat, e: Pte): (r: Tables)
    requires t in tables && i < ENTRIES
  {
    tables[t := tables[t][i := e]]
  }

  lemma LeafTree(tables: Tables, home: Home, t: nat, i: nat, e: Pte)
    requires TreeOk(tables, home) && t in tables && i < ENTRIES && Level(home[t]) == 0 && (e.v ==> IsLeaf(e))
    ensures TreeOk(SetLeaf(tables, t, i, e), home)
  {
    var tables' := SetLeaf(tables, t, i, e);
    forall c | c in home ensures HangsAt(tables', home, c) { assert HangsAt(tables, home, c); }
    forall c, j | c in home && c in tables' && 0 <= j < ENTRIES ensures PointsAt(tables', home, c, j) {
      assert PointsAt(tables, home, c, j);
    }
  }

  /** Changing the leaf entry for vpn changes the map there and nowhere else. */
  lemma LeafLookup(tables: Tables, home: Home, root: nat, vpn: nat, e: Pte, r: nat, v: nat)
    requires TreeOk(tables, home) && root in home && home[root].Root? && r in home && home[r].Root?
    requires vpn < MAXVPN && v < MAXVPN && LowTable(tables, root, vpn).Some?
    requires LowTable(tables, root, vpn).value in tables
    ensures var t := LowTable(tables, root, vpn).value;
            var tables' := SetLeaf(tables, t, PX(0, vpn), e);
            Lookup(tables', r, v) ==
                if r == root && v == vpn then (if e.v then Some(e) else None) else Lookup(tables, r, v)
  {
    hide Hangs, PX;
    var t := LowTable(tables, root, vpn).value;
    var tables' := SetLeaf(tables, t, PX(0, vpn), e);
    LowLevel(tables, home, root, vpn);
    LowSame(tables, home, t, PX(0, vpn), e, r, v);
    if LowTable(tables, r, v) == Some(t) {
      NoSharing(tables, home, root, vpn, r, v);
      if PX(0, v) == PX(0, vpn) { PXUnique(v, vpn); }
    }
  }

  lemma LowLevel(tables: Tables, home: Home, root: nat, vpn: nat)
    requires TreeOk(tables, home) && root in home && home[root].Root? && vpn < MAXVPN
    requires LowTable(tables, root, vpn).Some?
    ensures LowTable(tables, root, vpn).value in home && Level(home[LowTable(tables, root, vpn).value]) == 0
    ensures LowTable(tables, root, vpn).value in tables
  {
    hide Hangs, Points, PX;
    Path(tables, home, root, vpn);
  }

  lemma LowSame(tables: Tables, home: Home, t: nat, i: nat, e: Pte, r: nat, v: nat)
    requires TreeOk(tables, home) && t in tables && i < ENTRIES && Level(home[t]) == 0
    requires r in home && home[r].Root? && v < MAXVPN
    ensures LowTable(SetLeaf(tables, t, i, e), r, v) == LowTable(tables, r, v)
  {
    hide Hangs, Points, PX;
    Path(tables, home, r, v);
  }
}
