/** The user heap allocator of umalloc.c (section 8.7 of Kernighan and Ritchie):
    a circular, address-ordered free list with splitting and coalescing. Addresses
    and sizes are in header units of 16 bytes. */
module Heap {

  import opened Basics

  const HEADER: nat := 16
  const MINCORE: nat := 4096

  datatype Header = Header(ptr: nat, size: nat)

  // ----- the heap as intervals -----

  /** Unit u lies in the block at a. */
  predicate In(blocks: map<nat, nat>, a: nat, u: nat)
    requires a in blocks
  {
    a <= u < a + blocks[a]
  }

  /** The blocks are non-empty, disjoint, and cover the arena exactly. */
  ghost predicate Partition(blocks: map<nat, nat>, arena: set<nat>) {
    && (forall a :: a in blocks ==> blocks[a] > 0)
    && (forall a, b :: a in blocks && b in blocks && a < b ==> a + blocks[a] <= b)
    && (forall a, u :: a in blocks && In(blocks, a, u) ==> u in arena)
    && (forall u :: u in arena ==> exists a :: a in blocks && In(blocks, a, u))
  }

  /** The block at a with everything up to the end of block b, which follows it. */
  function Merged(blocks: map<nat, nat>, a: nat, b: nat): (r: map<nat, nat>)
    requires a in blocks && b in blocks
  {
    (blocks - {b})[a := blocks[a] + blocks[b]]
  }

  lemma MergeKeeps(blocks: map<nat, nat>, arena: set<nat>, a: nat, b: nat)
    requires Partition(blocks, arena) && a in blocks && b in blocks && a != b && a + blocks[a] == b
    ensures Partition(Merged(blocks, a, b), arena)
  {
    var m := Merged(blocks, a, b);
    forall u | u in arena ensures exists c :: c in m && In(m, c, u) {
      var c :| c in blocks && In(blocks, c, u);
      assert In(m, if c == b then a else c, u);
    }
    forall c, u | c in m && In(m, c, u) ensures u in arena {
      if c == a {
        assert In(blocks, a, u) || In(blocks, b, u);
      } else {
        assert In(blocks, c, u);
      }
    }
  }

  /** The block at a cut so that its last n units become a block of their own. */
  function Cut(blocks: map<nat, nat>, a: nat, n: nat): (r: map<nat, nat>)
    requires a in blocks && n < blocks[a]
  {
    blocks[a := blocks[a] - n][a + blocks[a] - n := n]
  }

  lemma CutKeeps(blocks: map<nat, nat>, arena: set<nat>, a: nat, n: nat)
    requires Partition(blocks, arena) && a in blocks && 0 < n < blocks[a]
    ensures a + blocks[a] - n !in blocks
    ensures Partition(Cut(blocks, a, n), arena)
  {
    var m, b := Cut(blocks, a, n), a + blocks[a] - n;
    assert b !in blocks;
    forall u | u in arena ensures exists c :: c in m && In(m, c, u) {
      CutCovers(blocks, arena, a, n, u);
    }
    forall c, u | c in m && In(m, c, u) ensures u in arena {
      assert In(blocks, if c == b then a else c, u);
    }
    forall c, d | c in m && d in m && c < d ensures c + m[c] <= d {
      CutApart(blocks, arena, a, n, c, d);
    }
  }

  lemma CutCovers(blocks: map<nat, nat>, arena: set<nat>, a: nat, n: nat, u: nat)
    requires Partition(blocks, arena) && a in blocks && 0 < n < blocks[a] && a + blocks[a] - n !in blocks && u in arena
    ensures exists c :: c in Cut(blocks, a, n) && In(Cut(blocks, a, n), c, u)
  {
    var m, b := Cut(blocks, a, n), a + blocks[a] - n;
    var c :| c in blocks && In(blocks, c, u);
    assert In(m, if c == a && u >= b then b else c, u);
  }

  lemma CutApart(blocks: map<nat, nat>, arena: set<nat>, a: nat, n: nat, c: nat, d: nat)
    requires Partition(blocks, arena) && a in blocks && 0 < n < blocks[a] && a + blocks[a] - n !in blocks
    requires c in Cut(blocks, a, n) && d in Cut(blocks, a, n) && c < d
    ensures c + Cut(blocks, a, n)[c] <= d
  {
    hide In;
    var b := a + blocks[a] - n;
    var c0, d0 := if c == b then a else c, if d == b then a else d;
    assert c0 in blocks && d0 in blocks;
    assert c0 < d0 ==> c0 + blocks[c0] <= d0;
  }

  /** The n units from a on. */
  ghost function Region(a: nat, n: nat): (r: set<nat>)
    ensures forall u :: u in r <==> a <= u < a + n
  {
    if n == 0 then {} else Region(a, n - 1) + {a + n - 1}
  }

  lemma GrowKeeps(blocks: map<nat, nat>, arena: set<nat>, a: nat, n: nat)
    requires Partition(blocks, arena) && n > 0 && forall u :: u in arena ==> u < a
    ensures a !in blocks
    ensures Partition(blocks[a := n], arena + Region(a, n))
  {
    var m := blocks[a := n];
    forall c | c in blocks ensures c + blocks[c] <= a && c != a {
      assert In(blocks, c, c + blocks[c] - 1);
    }
    forall u | u in arena + Region(a, n) ensures exists c :: c in m && In(m, c, u) {
      if u in arena {
        var c :| c in blocks && In(blocks, c, u);
        assert In(m, c, u);
      } else {
        assert In(m, a, u);
      }
    }
    forall c, u | c in m && In(m, c, u) ensures u in arena + Region(a, n) {
      if c != a { assert In(blocks, c, u); }
    }
  }

  // ----- the free list -----

  predicate Sorted(fl: seq<nat>) {
    forall i, j :: 0 <= i < j < |fl| ==> fl[i] < fl[j]
  }

  /** The list element after position i, around the circle. */
  function Next(fl: seq<nat>, i: nat): (r: nat)
    requires i < |fl|
  {
    if i + 1 < |fl| then fl[i + 1] else fl[0]
  }

  /** The `ptr` fields spell out the circle fl. */
  predicate Linked(hdr: map<nat, Header>, fl: seq<nat>) {
    forall i :: 0 <= i < |fl| ==> fl[i] in hdr && hdr[fl[i]].ptr == Next(fl, i)
  }

  /** The list holds exactly the blocks that are not live, after `base`. */
  predicate Lists(fl: seq<nat>, base: nat, blocks: map<nat, nat>, live: set<nat>) {
    && fl != [] && fl[0] == base && base !in blocks
    && (forall i :: 1 <= i < |fl| ==> fl[i] in blocks && fl[i] !in live)
    && (forall a :: a in blocks && a !in live ==> a in fl)
  }

  /** No two free blocks touch, except perhaps those at positions t and t + 1. */
  predicate ApartBut(fl: seq<nat>, blocks: map<nat, nat>, t: nat)
    requires forall i :: 1 <= i < |fl| ==> fl[i] in blocks
  {
    forall i :: 1 <= i < |fl| - 1 && i != t ==> fl[i] + blocks[fl[i]] < fl[i + 1]
  }

  /** No two free blocks touch. */
  predicate Apart(fl: seq<nat>, blocks: map<nat, nat>)
    requires forall i :: 1 <= i < |fl| ==> fl[i] in blocks
  {
    ApartBut(fl, blocks, |fl|)
  }

  /** Headers record the sizes; `base` has size 0 and lies below the heap. */
  predicate Sized(hdr: map<nat, Header>, base: nat, blocks: map<nat, nat>) {
    && 0 < base && base in hdr && hdr[base].size == 0
    && forall a :: a in blocks ==> base < a && a in hdr && hdr[a].size == blocks[a]
  }

  /** Everything but Apart. */
  ghost predicate ListOk(hdr: map<nat, Header>, base: nat, fl: seq<nat>, blocks: map<nat, nat>, live: set<nat>,
                         arena: set<nat>)
  {
    && Partition(blocks, arena)
    && live <= blocks.Keys
    && Lists(fl, base, blocks, live)
    && Sorted(fl)
    && Linked(hdr, fl)
    && Sized(hdr, base, blocks)
  }

  ghost predicate HeapOk(hdr: map<nat, Header>, base: nat, fl: seq<nat>, blocks: map<nat, nat>, live: set<nat>,
                         arena: set<nat>)
  {
    ListOk(hdr, base, fl, blocks, live, arena) && Apart(fl, blocks)
  }

  // ----- free -----

  /** Position t of the list is where bp belongs: before it or last of all. */
  predicate Fits(fl: seq<nat>, t: nat, bp: nat) {
    t < |fl| && fl[t] < bp && (t + 1 < |fl| ==> bp < fl[t + 1])
  }

  /** bp linked in after position t, not merged with anything. */
  function InsertHdr(hdr: map<nat, Header>, fl: seq<nat>, t: nat, bp: nat): (r: map<nat, Header>)
    requires t < |fl| && fl[t] in hdr && bp in hdr
  {
    hdr[bp := hdr[bp].(ptr := Next(fl, t))][fl[t] := hdr[fl[t]].(ptr := bp)]
  }

  function InsertList(fl: seq<nat>, t: nat, bp: nat): (r: seq<nat>)
    requires t < |fl|
  {
    fl[..t + 1] + [bp] + fl[t + 1..]
  }

  lemma InsertAt(fl: seq<nat>, t: nat, bp: nat, i: nat)
    requires t < |fl| && i <= |fl|
    ensures InsertList(fl, t, bp)[i] == if i <= t then fl[i] else if i == t + 1 then bp else fl[i - 1]
  {
  }

  lemma InsertSorted(fl: seq<nat>, t: nat, bp: nat)
    requires Sorted(fl) && Fits(fl, t, bp)
    ensures Sorted(InsertList(fl, t, bp))
  {
    var fl' := InsertList(fl, t, bp);
    forall i, j | 0 <= i < j < |fl'| ensures fl'[i] < fl'[j] {
      InsertAt(fl, t, bp, i);
      InsertAt(fl, t, bp, j);
    }
  }

  lemma InsertLinked(hdr: map<nat, Header>, fl: seq<nat>, t: nat, bp: nat)
    requires Sorted(fl) && Linked(hdr, fl) && Fits(fl, t, bp) && bp in hdr
    ensures Linked(InsertHdr(hdr, fl, t, bp), InsertList(fl, t, bp))
  {
    var hdr', fl' := InsertHdr(hdr, fl, t, bp), InsertList(fl, t, bp);
    forall i | 0 <= i < |fl'| ensures fl'[i] in hdr' && hdr'[fl'[i]].ptr == Next(fl', i) {
      InsertAt(fl, t, bp, i);
      if i + 1 < |fl'| { InsertAt(fl, t, bp, i + 1); }
      InsertAt(fl, t, bp, 0);
      if i > t + 1 {
        assert fl[t] < fl[t + 1] <= fl[i - 1];
      }
    }
  }

  lemma InsertLists(fl: seq<nat>, base: nat, blocks: map<nat, nat>, live: set<nat>, t: nat, bp: nat)
    requires Lists(fl, base, blocks, live) && bp in live && bp in blocks && t < |fl|
    ensures Lists(InsertList(fl, t, bp), base, blocks, live - {bp})
  {
    var fl' := InsertList(fl, t, bp);
    forall i | 1 <= i < |fl'| ensures fl'[i] in blocks && fl'[i] !in live - {bp} {
      InsertAt(fl, t, bp, i);
    }
    InsertAt(fl, t, bp, 0);
    forall a | a in blocks && a !in live - {bp} ensures a in fl' {
      if a == bp {
        InsertAt(fl, t, bp, t + 1);
      } else {
        var i :| 0 <= i < |fl| && fl[i] == a;
        InsertAt(fl, t, bp, if i <= t then i else i + 1);
      }
    }
  }

  lemma InsertKeeps(hdr: map<nat, Header>, base: nat, fl: seq<nat>, blocks: map<nat, nat>, live: set<nat>,
                    arena: set<nat>,
                    t: nat, bp: nat)
    requires ListOk(hdr, base, fl, blocks, live, arena) && bp in live && Fits(fl, t, bp)
    ensures ListOk(InsertHdr(hdr, fl, t, bp), base, InsertList(fl, t, bp), blocks, live - {bp}, arena)
  {
    hide Partition, Sorted, Linked;
    InsertSorted(fl, t, bp);
    assert fl[t] in hdr && bp in hdr by { LinkedIn(hdr, fl, t); }
    InsertLinked(hdr, fl, t, bp);
    InsertLists(fl, base, blocks, live, t, bp);
  }

  lemma LinkedIn(hdr: map<nat, Header>, fl: seq<nat>, i: nat)
    requires Linked(hdr, fl) && i < |fl|
    ensures fl[i] in hdr && hdr[fl[i]].ptr == Next(fl, i)
  {
  }

  // ----- merging neighbours of the list -----

  /** The blocks at positions k and k + 1 of the list made one. */
  function MergeHdr(hdr: map<nat, Header>, a: nat, b: nat): (r: map<nat, Header>)
    requires a in hdr && b in hdr
  {
    hdr[a := Header(hdr[b].ptr, hdr[a].size + hdr[b].size)]
  }

  function RemoveAt(fl: seq<nat>, k: nat): (r: seq<nat>)
    requires k < |fl|
  {
    fl[..k] + fl[k + 1..]
  }

  lemma RemovedAt(fl: seq<nat>, k: nat, i: nat)
    requires k < |fl| && i < |fl| - 1
    ensures RemoveAt(fl, k)[i] == if i < k then fl[i] else fl[i + 1]
  {
  }

  lemma RemoveSorted(fl: seq<nat>, k: nat)
    requires Sorted(fl) && k < |fl|
    ensures Sorted(RemoveAt(fl, k))
  {
    var fl' := RemoveAt(fl, k);
    forall i, j | 0 <= i < j < |fl'| ensures fl'[i] < fl'[j] {
      RemovedAt(fl, k, i);
      RemovedAt(fl, k, j);
    }
  }

  /** Taking position k out of the circle: its predecessor points past it. */
  lemma RemoveLinked(hdr: map<nat, Header>, hdr': map<nat, Header>, fl: seq<nat>, k: nat)
    requires Sorted(fl) && Linked(hdr, fl) && 1 <= k < |fl|
    requires hdr'.Keys == hdr.Keys
    requires hdr'[fl[k - 1]].ptr == hdr[fl[k]].ptr
    requires forall i :: 0 <= i < |fl| && i != k - 1 && i != k ==> hdr'[fl[i]].ptr == hdr[fl[i]].ptr
    ensures Linked(hdr', RemoveAt(fl, k))
  {
    var fl' := RemoveAt(fl, k);
    forall i | 0 <= i < |fl'| ensures fl'[i] in hdr' && hdr'[fl'[i]].ptr == Next(fl', i) {
      RemoveLinkedAt(hdr, hdr', fl, k, i);
    }
  }

  lemma RemoveLinkedAt(hdr: map<nat, Header>, hdr': map<nat, Header>, fl: seq<nat>, k: nat, i: nat)
    requires Sorted(fl) && Linked(hdr, fl) && 1 <= k < |fl| && i < |fl| - 1
    requires hdr'.Keys == hdr.Keys
    requires hdr'[fl[k - 1]].ptr == hdr[fl[k]].ptr
    requires forall i :: 0 <= i < |fl| && i != k - 1 && i != k ==> hdr'[fl[i]].ptr == hdr[fl[i]].ptr
    ensures RemoveAt(fl, k)[i] in hdr' && hdr'[RemoveAt(fl, k)[i]].ptr == Next(RemoveAt(fl, k), i)
  {
    hide RemoveAt, Next, Linked, Sorted;
    var i0 := if i < k then i else i + 1;
    LinkedIn(hdr, fl, i0);
    LinkedIn(hdr, fl, k);
    RemovedAt(fl, k, i);
    NextRemoved(fl, k, i);
  }

  lemma NextRemoved(fl: seq<nat>, k: nat, i: nat)
    requires 1 <= k < |fl| && i < |fl| - 1
    ensures Next(RemoveAt(fl, k), i) == if i == k - 1 then Next(fl, k) else Next(fl, if i < k then i else i + 1)
  {
    RemovedAt(fl, k, 0);
    if i + 1 < |fl| - 1 { RemovedAt(fl, k, i + 1); }
  }

  lemma MergeListKeeps(hdr: map<nat, Header>, base: nat, fl: seq<nat>, blocks: map<nat, nat>, live: set<nat>,
                       arena: set<nat>, k: nat)
    requires ListOk(hdr, base, fl, blocks, live, arena) && 1 <= k < |fl| - 1
    requires fl[k] + blocks[fl[k]] == fl[k + 1]
    ensures fl[k] in hdr && fl[k + 1] in hdr
    ensures ListOk(MergeHdr(hdr, fl[k], fl[k + 1]), base, RemoveAt(fl, k + 1), Merged(blocks, fl[k], fl[k + 1]), live,
                   arena)
  {
    hide Partition, Sorted, Linked;
    var a, b := fl[k], fl[k + 1];
    LinkedIn(hdr, fl, k);
    LinkedIn(hdr, fl, k + 1);
    assert a < b by { SortedAt(fl, k, k + 1); }
    MergeKeeps(blocks, arena, a, b);
    RemoveSorted(fl, k + 1);
    var hdr' := MergeHdr(hdr, a, b);
    forall i | 0 <= i < |fl| && i != k && i != k + 1 ensures fl[i] != a && hdr'[fl[i]].ptr == hdr[fl[i]].ptr {
      SortedAt(fl, if i < k then i else k, if i < k then k else i);
    }
    RemoveLinked(hdr, hdr', fl, k + 1);
    MergeLists(fl, base, blocks, live, k);
  }

  lemma SortedAt(fl: seq<nat>, i: nat, j: nat)
    requires Sorted(fl) && i < j < |fl|
    ensures fl[i] < fl[j]
  {
  }

  lemma MergeLists(fl: seq<nat>, base: nat, blocks: map<nat, nat>, live: set<nat>, k: nat)
    requires Lists(fl, base, blocks, live) && 1 <= k < |fl| - 1 && Sorted(fl) && live <= blocks.Keys
    ensures Lists(RemoveAt(fl, k + 1), base, Merged(blocks, fl[k], fl[k + 1]), live)
    ensures live <= Merged(blocks, fl[k], fl[k + 1]).Keys
  {
    hide Sorted, RemoveAt;
    var fl', m, b := RemoveAt(fl, k + 1), Merged(blocks, fl[k], fl[k + 1]), fl[k + 1];
    assert |fl'| == |fl| - 1 by { RemovedLength(fl, k + 1); }
    assert fl[k] != b by { SortedAt(fl, k, k + 1); }
    forall i | 1 <= i < |fl'| ensures fl'[i] in m && fl'[i] !in live {
      RemovedAt(fl, k + 1, i);
      if i < k + 1 { SortedAt(fl, i, k + 1); } else { SortedAt(fl, k + 1, i + 1); }
    }
    RemovedAt(fl, k + 1, 0);
    forall a | a in m && a !in live ensures a in fl' {
      assert a in blocks && a != b;
      var i :| 0 <= i < |fl| && fl[i] == a;
      RemovedAt(fl, k + 1, if i <= k then i else i - 1);
    }
  }

  lemma RemovedLength(fl: seq<nat>, k: nat)
    requires k < |fl|
    ensures |RemoveAt(fl, k)| == |fl| - 1
  {
  }

  /** The headers after free(bp) with p the element found by the search. */
  function FreedHdr(hdr: map<nat, Header>, p: nat, bp: nat): (r: map<nat, Header>)
    requires p in hdr && bp in hdr && hdr[p].ptr in hdr
  {
    var nxt := hdr[p].ptr;
    var hdr1 := if bp + hdr[bp].size == nxt
                then hdr[bp := Header(hdr[nxt].ptr, hdr[bp].size + hdr[nxt].size)]
                else hdr[bp := hdr[bp].(ptr := nxt)];
    if p + hdr1[p].size == bp
    then hdr1[p := Header(hdr1[bp].ptr, hdr1[p].size + hdr1[bp].size)]
    else hdr1[p := hdr1[p].(ptr := bp)]
  }

  lemma ApartInsert(fl: seq<nat>, base: nat, blocks: map<nat, nat>, live: set<nat>, arena: set<nat>, t: nat, bp: nat)
    requires Partition(blocks, arena) && Lists(fl, base, blocks, live) && Apart(fl, blocks) && Fits(fl, t, bp)
    requires bp in blocks
    requires bp + blocks[bp] != Next(fl, t)
    ensures forall i :: 1 <= i < |InsertList(fl, t, bp)| ==> InsertList(fl, t, bp)[i] in blocks
    ensures ApartBut(InsertList(fl, t, bp), blocks, t)
  {
    var fl' := InsertList(fl, t, bp);
    forall i | 1 <= i < |fl'| ensures fl'[i] in blocks { InsertAt(fl, t, bp, i); }
    forall i | 1 <= i < |fl'| - 1 && i != t ensures fl'[i] + blocks[fl'[i]] < fl'[i + 1] {
      InsertAt(fl, t, bp, i);
      InsertAt(fl, t, bp, i + 1);
    }
  }

  lemma ApartMergeUp(fl: seq<nat>, base: nat, blocks: map<nat, nat>, live: set<nat>, t: nat, bp: nat)
    requires Sorted(fl) && Lists(fl, base, blocks, live) && Apart(fl, blocks) && Fits(fl, t, bp) && bp in blocks
    requires t + 1 < |fl| && bp + blocks[bp] == fl[t + 1]
    requires bp !in fl
    ensures var fl2, m := RemoveAt(InsertList(fl, t, bp), t + 2), Merged(blocks, bp, fl[t + 1]);
            (forall i :: 1 <= i < |fl2| ==> fl2[i] in m) && ApartBut(fl2, m, t)
  {
    hide InsertList, RemoveAt;
    var fl1 := InsertList(fl, t, bp);
    InsertLength(fl, t, bp);
    var fl2, m := RemoveAt(fl1, t + 2), Merged(blocks, bp, fl[t + 1]);
    RemovedLength(fl1, t + 2);
    forall i | 0 <= i < |fl2| ensures fl2[i] == if i <= t then fl[i] else if i == t + 1 then bp else fl[i] {
      RemovedAt(fl1, t + 2, i);
      InsertAt(fl, t, bp, if i < t + 2 then i else i + 1);
    }
    forall i | 1 <= i < |fl2| ensures fl2[i] in m && (i != t + 1 ==> m[fl2[i]] == blocks[fl[i]]) {
      if i < t + 1 { SortedAt(fl, i, t + 1); }
      if i > t + 1 { SortedAt(fl, t + 1, i); }
    }
    forall i | 1 <= i < |fl2| - 1 && i != t ensures fl2[i] + m[fl2[i]] < fl2[i + 1] {
      assert i != t + 1 ==> fl[i] + blocks[fl[i]] < fl[i + 1];
      assert i == t + 1 ==> fl[t + 1] + blocks[fl[t + 1]] < fl[t + 2];
    }
  }

  lemma InsertLength(fl: seq<nat>, t: nat, bp: nat)
    requires t < |fl|
    ensures |InsertList(fl, t, bp)| == |fl| + 1
  {
  }

  lemma ApartMergeDown(fl: seq<nat>, base: nat, blocks: map<nat, nat>, live: set<nat>, t: nat)
    requires Sorted(fl) && Lists(fl, base, blocks, live) && ApartBut(fl, blocks, t) && 1 <= t < |fl| - 1
    requires fl[t] + blocks[fl[t]] == fl[t + 1]
    ensures var fl', m := RemoveAt(fl, t + 1), Merged(blocks, fl[t], fl[t + 1]);
            (forall i :: 1 <= i < |fl'| ==> fl'[i] in m) && Apart(fl', m)
  {
    hide RemoveAt;
    var fl', m := RemoveAt(fl, t + 1), Merged(blocks, fl[t], fl[t + 1]);
    RemovedLength(fl, t + 1);
    forall i | 0 <= i < |fl'| ensures fl'[i] == if i <= t then fl[i] else fl[i + 1] { RemovedAt(fl, t + 1, i); }
    forall i | 1 <= i < |fl'| ensures fl'[i] in m && (i != t ==> m[fl'[i]] == blocks[fl'[i]]) {
      RemovedAt(fl, t + 1, i);
      var e := if i <= t then i else i + 1;
      assert fl[e] in blocks && fl[e] != fl[t + 1];
      assert e != t ==> fl[e] != fl[t];
    }
    forall i | 1 <= i < |fl'| - 1 ensures fl'[i] + m[fl'[i]] < fl'[i + 1] {
      RemovedAt(fl, t + 1, i);
      RemovedAt(fl, t + 1, i + 1);
      assert i < t ==> fl[i] + blocks[fl[i]] < fl[i + 1];
      assert i >= t ==> fl[i + 1] + blocks[fl[i + 1]] < fl[i + 2];
    }
  }

  /** Linking bp in and merging it with its upper neighbour if they touch. */
  lemma FreeUp(hdr: map<nat, Header>, base: nat, fl: seq<nat>, blocks: map<nat, nat>, live: set<nat>, arena: set<nat>,
               t: nat, bp: nat) returns (hdr2: map<nat, Header>, fl2: seq<nat>, blocks2: map<nat, nat>)
    requires HeapOk(hdr, base, fl, blocks, live, arena) && bp in live && Fits(fl, t, bp)
    ensures fl[t] in hdr && bp in hdr && Next(fl, t) in hdr
    ensures ListOk(hdr2, base, fl2, blocks2, live - {bp}, arena) && ApartBut(fl2, blocks2, t)
    ensures t + 1 < |fl2| && fl2[t] == fl[t] && fl2[t + 1] == bp
    ensures hdr2 == (if bp + hdr[bp].size == Next(fl, t)
                     then hdr[bp := Header(hdr[Next(fl, t)].ptr, hdr[bp].size + hdr[Next(fl, t)].size)]
                     else hdr[bp := hdr[bp].(ptr := Next(fl, t))])[fl[t] := hdr[fl[t]].(ptr := bp)]
    ensures forall a :: a in live - {bp} ==> a in blocks2 && blocks2[a] == blocks[a]
    ensures bp in blocks2 && blocks2[bp] >= blocks[bp]
    ensures t >= 1 ==> fl[t] in blocks2 && blocks2[fl[t]] == blocks[fl[t]]
    ensures Joined(fl, blocks, fl2, blocks2, bp, t + 1)
  {
    hide Partition, Linked, Sorted, ApartBut, InsertList, RemoveAt, Fits, Joined;
    FitFacts(fl, t, bp);
    var p, nxt := fl[t], Next(fl, t);
    LinkedIn(hdr, fl, t);
    LinkedIn(hdr, fl, if t + 1 < |fl| then t + 1 else 0);
    InsertKeeps(hdr, base, fl, blocks, live, arena, t, bp);
    InsertLength(fl, t, bp);
    var hdr1, fl1 := InsertHdr(hdr, fl, t, bp), InsertList(fl, t, bp);
    InsertAt(fl, t, bp, t);
    InsertAt(fl, t, bp, t + 1);
    LiveNotListed(fl, base, blocks, live, bp);
    if bp + blocks[bp] == nxt {
      InsertAt(fl, t, bp, t + 2);
      MergeListKeeps(hdr1, base, fl1, blocks, live - {bp}, arena, t + 1);
      ApartMergeUp(fl, base, blocks, live, t, bp);
      hdr2, fl2, blocks2 := MergeHdr(hdr1, bp, nxt), RemoveAt(fl1, t + 2), Merged(blocks, bp, nxt);
      RemovedLength(fl1, t + 2);
      RemovedAt(fl1, t + 2, t);
      RemovedAt(fl1, t + 2, t + 1);
      HdrUp(hdr, p, bp, nxt);
      JoinedUp(fl, base, blocks, live, t, bp);
    } else {
      ApartInsert(fl, base, blocks, live, arena, t, bp);
      hdr2, fl2, blocks2 := hdr1, fl1, blocks;
      JoinedIn(fl, base, blocks, live, t, bp);
    }
  }

  /** Freeing bp has put it into the free block number j, and the other free blocks are as they were. */
  predicate Joined(fl: seq<nat>, blocks: map<nat, nat>, fl': seq<nat>, blocks': map<nat, nat>, bp: nat, j: nat) {
    && 1 <= j < |fl'| && |fl| >= 1 && bp in blocks && fl'[j] in blocks'
    && fl'[j] <= bp && bp + blocks[bp] <= fl'[j] + blocks'[fl'[j]]
    && forall i :: 1 <= i < |fl'| && i != j ==>
         fl'[i] in fl[1..] && fl'[i] in blocks && fl'[i] in blocks' && blocks'[fl'[i]] == blocks[fl'[i]]
  }

  lemma JoinedIn(fl: seq<nat>, base: nat, blocks: map<nat, nat>, live: set<nat>, t: nat, bp: nat)
    requires Lists(fl, base, blocks, live) && t < |fl| && bp in blocks
    ensures Joined(fl, blocks, InsertList(fl, t, bp), blocks, bp, t + 1)
  {
    hide InsertList;
    var fl' := InsertList(fl, t, bp);
    InsertLength(fl, t, bp);
    InsertAt(fl, t, bp, t + 1);
    forall i | 1 <= i < |fl'| && i != t + 1 ensures fl'[i] in fl[1..] && fl'[i] in blocks {
      InsertAt(fl, t, bp, i);
      var k := if i <= t then i else i - 1;
      assert fl[1..][k - 1] == fl[k];
    }
  }

  lemma JoinedUp(fl: seq<nat>, base: nat, blocks: map<nat, nat>, live: set<nat>, t: nat, bp: nat)
    requires Lists(fl, base, blocks, live) && Sorted(fl) && t + 1 < |fl| && bp in blocks && bp !in fl
    requires bp + blocks[bp] == fl[t + 1]
    ensures |InsertList(fl, t, bp)| > t + 2 && fl[t + 1] in blocks
    ensures Joined(fl, blocks, RemoveAt(InsertList(fl, t, bp), t + 2), Merged(blocks, bp, fl[t + 1]), bp, t + 1)
  {
    hide InsertList, RemoveAt;
    var fl1 := InsertList(fl, t, bp);
    InsertLength(fl, t, bp);
    RemovedLength(fl1, t + 2);
    var fl' := RemoveAt(fl1, t + 2);
    forall i | 1 <= i < |fl'|
      ensures if i == t + 1 then fl'[i] == bp else fl'[i] in fl[1..] && fl'[i] in blocks && fl'[i] != fl[t + 1]
    {
      RemovedAt(fl1, t + 2, i);
      InsertAt(fl, t, bp, if i < t + 2 then i else i + 1);
      if i != t + 1 {
        assert fl[1..][i - 1] == fl[i];
        SortedAt(fl, if i < t + 1 then i else t + 1, if i < t + 1 then t + 1 else i);
      }
    }
  }

  lemma JoinedDown(fl: seq<nat>, blocks: map<nat, nat>, fl2: seq<nat>, blocks2: map<nat, nat>, t: nat, bp: nat)
    requires Joined(fl, blocks, fl2, blocks2, bp, t + 1) && Sorted(fl2) && 1 <= t && t + 1 < |fl2| && fl2[t + 1] == bp
    requires fl2[t] in blocks2 && bp in blocks2 && fl2[t] + blocks2[fl2[t]] == bp
    ensures Joined(fl, blocks, RemoveAt(fl2, t + 1), Merged(blocks2, fl2[t], bp), bp, t)
  {
    hide RemoveAt;
    var fl' := RemoveAt(fl2, t + 1);
    RemovedLength(fl2, t + 1);
    RemovedAt(fl2, t + 1, t);
    forall i | 1 <= i < |fl'| && i != t
      ensures fl'[i] in fl[1..] && fl'[i] in blocks && fl'[i] in blocks2 && fl'[i] != fl2[t] && fl'[i] != bp
              && blocks2[fl'[i]] == blocks[fl'[i]]
    {
      RemovedAt(fl2, t + 1, i);
      var k := if i <= t then i else i + 1;
      SortedAt(fl2, if k < t then k else t, if k < t then t else k);
      SortedAt(fl2, if k < t + 1 then k else t + 1, if k < t + 1 then t + 1 else k);
    }
  }

  lemma FitFacts(fl: seq<nat>, t: nat, bp: nat)
    requires Fits(fl, t, bp) && Sorted(fl) && fl[0] < bp
    ensures t < |fl| && fl[t] < bp && Next(fl, t) != bp
    ensures bp < Next(fl, t) ==> t + 1 < |fl| && Next(fl, t) == fl[t + 1] && fl[t] < Next(fl, t)
  {
  }

  lemma HdrUp(hdr: map<nat, Header>, p: nat, bp: nat, nxt: nat)
    requires p in hdr && bp in hdr && nxt in hdr && p != bp && p != nxt && bp != nxt
    ensures MergeHdr(hdr[bp := hdr[bp].(ptr := nxt)][p := hdr[p].(ptr := bp)], bp, nxt)
            == hdr[bp := Header(hdr[nxt].ptr, hdr[bp].size + hdr[nxt].size)][p := hdr[p].(ptr := bp)]
  {
  }

  /** free keeps the heap: bp is free again, merged with any free block it touches. */
  lemma FreeKeeps(hdr: map<nat, Header>, base: nat, fl: seq<nat>, blocks: map<nat, nat>, live: set<nat>,
                  arena: set<nat>,
                  t: nat, bp: nat) returns (fl': seq<nat>, blocks': map<nat, nat>, j: nat)
    requires HeapOk(hdr, base, fl, blocks, live, arena) && bp in live && Fits(fl, t, bp)
    ensures fl[t] in hdr && bp in hdr && hdr[fl[t]].ptr in hdr
    ensures HeapOk(FreedHdr(hdr, fl[t], bp), base, fl', blocks', live - {bp}, arena)
    ensures fl[t] in fl'
    ensures forall a :: a in live - {bp} ==> a in blocks' && blocks'[a] == blocks[a]
    ensures HasFree(fl', blocks', blocks[bp]) && Joined(fl, blocks, fl', blocks', bp, j)
  {
    hide Partition, Sorted, Linked, ApartBut, Joined;
    LinkedIn(hdr, fl, t);
    var hdr2, fl2, blocks2 := FreeUp(hdr, base, fl, blocks, live, arena, t, bp);
    var p := fl[t];
    assert p + hdr[p].size == bp ==> t >= 1;
    if p + hdr[p].size == bp {
      MergeListKeeps(hdr2, base, fl2, blocks2, live - {bp}, arena, t);
      ApartMergeDown(fl2, base, blocks2, live - {bp}, t);
      fl', blocks', j := RemoveAt(fl2, t + 1), Merged(blocks2, p, bp), t;
      JoinedDown(fl, blocks, fl2, blocks2, t, bp);
      RemovedAt(fl2, t + 1, t);
      assert blocks'[fl'[t]] >= blocks[bp];
      assert FreedHdr(hdr, p, bp) == MergeHdr(hdr2, p, bp);
    } else {
      fl', blocks', j := fl2, blocks2, t + 1;
      NotTouching(fl2, base, blocks2, live - {bp}, arena, t);
      assert blocks'[fl'[t + 1]] >= blocks[bp];
      assert FreedHdr(hdr, p, bp) == hdr2;
    }
  }

  /** Some free block has at least n units. */
  predicate HasFree(fl: seq<nat>, blocks: map<nat, nat>, n: nat) {
    exists i :: 1 <= i < |fl| && fl[i] in blocks && blocks[fl[i]] >= n
  }

  lemma NotTouching(fl: seq<nat>, base: nat, blocks: map<nat, nat>, live: set<nat>, arena: set<nat>, t: nat)
    requires Partition(blocks, arena) && Sorted(fl) && Lists(fl, base, blocks, live)
    requires ApartBut(fl, blocks, t) && t + 1 < |fl|
    requires t >= 1 ==> fl[t] + blocks[fl[t]] != fl[t + 1]
    ensures Apart(fl, blocks)
  {
    forall i | 1 <= i < |fl| - 1 ensures fl[i] + blocks[fl[i]] < fl[i + 1] {
      assert fl[i] < fl[i + 1];
    }
  }

  // ----- the allocator -----

  /** How far the search of free still has to go from position k to position t. */
  function Distance(k: nat, t: nat, n: nat): (d: nat)
    requires k < n && t < n
  {
    if k <= t then t - k else t + n - k
  }

  lemma WhereFits(fl: seq<nat>, bp: nat) returns (t: nat)
    requires fl != [] && Sorted(fl) && fl[0] < bp && bp !in fl
    ensures Fits(fl, t, bp)
  {
    t := 0;
    while t + 1 < |fl| && fl[t + 1] < bp
      invariant t < |fl| && fl[t] < bp
    {
      t := t + 1;
    }
    assert t + 1 < |fl| ==> fl[t + 1] != bp;
  }

  // ----- what sbrk gives -----

  /** A byte count passed as an int. */
  function AsInt(n: nat): (i: int) {
    var m := n % 0x1_0000_0000;
    if m < 0x8000_0000 then m else m - 0x1_0000_0000
  }

  /** By how many units sbrk moves the break when morecore asks for nu units. */
  function Moved(nu: nat): (k: int) { AsInt(nu * HEADER) / HEADER }

  /** What the process has once sbrk has been asked to move its break from hp by k units. A move down by more
      than the whole process wraps around in growproc and has no effect. */
  ghost function Grant(granted: set<nat>, hp: nat, k: int): (r: set<nat>) {
    if k >= 0 then granted + Region(hp, k)
    else if hp + k >= 0 then set u | u in granted && u < hp + k
    else granted
  }

  /** morecore gets the units it takes exactly when their byte count fits in an int. */
  lemma GrantExact(arena: set<nat>, granted: set<nat>, hp: nat, nu: nat)
    requires nu > 0
    ensures arena <= granted && (forall u :: u in granted ==> u < hp) ==>
              (arena + Region(hp, nu) <= Grant(granted, hp, Moved(nu)) <==> nu * HEADER < 0x8000_0000)
  {
    if nu * HEADER < 0x8000_0000 {
      assert Moved(nu) == nu;
    } else {
      assert AsInt(nu * HEADER) < nu * HEADER && Moved(nu) < nu;
      assert hp + nu - 1 in arena + Region(hp, nu);
    }
  }

  class Allocator {
    const base: nat                     // &base, below every heap address
    var hdr: map<nat, Header>           // the headers in memory
    var freep: nat                      // 0 before the first malloc
    ghost var fl: seq<nat>              // the free list from base on
    ghost var blocks: map<nat, nat>     // every block, free or live, with its size
    ghost var live: set<nat>            // blocks handed out and not freed
    ghost var arena: set<nat>           // every unit that morecore took for its own
    ghost var granted: set<nat>         // every unit that sbrk has given the process
    ghost var grown: nat                // number of sbrk calls that succeeded or failed

    ghost predicate Ok()
      reads this
    {
      && live <= blocks.Keys
      && if freep == 0 then base > 0 && blocks == map[] && live == {} && arena == {}
         else HeapOk(hdr, base, fl, blocks, live, arena) && freep in fl
    }

    constructor (base: nat)
      requires base > 0
      ensures Ok() && this.base == base && freep == 0 && live == {} && arena == {} && granted == {}
    {
      this.base, hdr, freep, fl, blocks, live, arena, grown := base, map[], 0, [], map[], {}, {}, 0;
      granted := {};
    }

    /** The search loop of free: from any freep it stops at the list element after
        which bp belongs. */
    method Search(bp: nat) returns (p: nat, ghost t: nat)
      requires Ok() && freep != 0 && bp in live
      ensures Fits(fl, t, bp) && p == fl[t] && p > 0
    {
      hide Partition, Apart;
      assert bp !in fl by { LiveNotListed(fl, base, blocks, live, bp); }
      ghost var n := |fl|;
      t := WhereFits(fl, bp);
      ghost var k :| 0 <= k < n && fl[k] == freep;
      assert fl[t] >= fl[0];
      p := freep;
      while !(bp > p && bp < hdr[p].ptr)
        invariant 0 <= k < n == |fl| && p == fl[k] && p in hdr && hdr[p].ptr == Next(fl, k)
        decreases Distance(k, t, n)
      {
        if p >= hdr[p].ptr && (bp > p || bp < hdr[p].ptr) {
          AtEnd(fl, k, t, bp);
          return;
        }
        NotHere(fl, k, t, bp);
        ghost var k' := if k + 1 < n then k + 1 else 0;
        LinkedIn(hdr, fl, k');
        p := hdr[p].ptr;
        k := k';
      }
      AtMiddle(fl, k, t, bp);
    }

    /** free(ap), where bp is the header below ap. */
    method Free(bp: nat) returns (ghost j: nat)
      requires Ok() && freep != 0 && bp in live
      modifies this`hdr, this`freep, this`fl, this`blocks, this`live
      ensures Ok() && freep != 0 && freep in fl && live == old(live) - {bp}
      ensures SameSizes(old(blocks), blocks, live)
      ensures HasFree(fl, blocks, old(blocks)[bp]) && Joined(old(fl), old(blocks), fl, blocks, bp, j)
      ensures freep in old(fl) && freep < bp && forall x :: x in old(fl) && x < bp ==> x <= freep
    {
      hide HeapOk, HasFree, Fits, Joined;
      ghost var t;
      var p;
      p, t := Search(bp);
      FitsBelow(hdr, base, fl, blocks, live, arena, t, bp);
      ghost var fl', blocks';
      fl', blocks', j := FreeKeeps(hdr, base, fl, blocks, live, arena, t, bp);
      var nxt := hdr[p].ptr;
      if bp + hdr[bp].size == nxt {
        hdr := hdr[bp := Header(hdr[nxt].ptr, hdr[bp].size + hdr[nxt].size)];
      } else {
        hdr := hdr[bp := hdr[bp].(ptr := nxt)];
      }
      if p + hdr[p].size == bp {
        hdr := hdr[p := Header(hdr[bp].ptr, hdr[p].size + hdr[bp].size)];
      } else {
        hdr := hdr[p := hdr[p].(ptr := bp)];
      }
      freep := p;
      fl, blocks, live := fl', blocks', live - {bp};
    }

    /** morecore: `sbrk` is the address sbrk returns, or None for SBRK_ERROR. */
    method Morecore(nunits: nat, sbrk: Option<nat>) returns (ok: bool)
      requires Ok() && freep != 0 && nunits > 0
      requires sbrk.Some? ==> sbrk.value > base && forall u :: u in arena ==> u < sbrk.value
      modifies this
      ensures Ok() && freep != 0 && live == old(live) && grown == old(grown) + 1
      ensures ok <==> sbrk.Some?
      ensures SameSizes(old(blocks), blocks, live)
      ensures !ok ==>
                arena == old(arena) && fl == old(fl) && hdr == old(hdr) && freep == old(freep) && blocks == old(blocks)
      ensures !ok ==> granted == old(granted)
      ensures ok ==> arena == old(arena) + Region(sbrk.value, CoreUnits(nunits)) && HasFree(fl, blocks, nunits)
      ensures ok ==> granted == Grant(old(granted), sbrk.value, Moved(CoreUnits(nunits)))
      ensures CoreUnits(nunits) == if nunits < 4096 then 4096 else nunits
      ensures ok && !old(HasFree(fl, blocks, nunits)) ==>
                FitsEndAt(fl, blocks, nunits, sbrk.value + CoreUnits(nunits))
    {
      hide HeapOk, Joined, FitsEndAt, HasFree;
      grown := grown + 1;
      var nu := CoreUnits(nunits);
      if sbrk.None? {
        return false;
      }
      granted := Grant(granted, sbrk.value, Moved(nu));
      AddCore(sbrk.value, nu, nunits);
      EnoughFree(fl, blocks, nu, nunits);
      ok := true;
    }

    /** The new region becomes a block and is freed. */
    method AddCore(hp: nat, nu: nat, ghost n: nat)
      requires Ok() && freep != 0 && nu > 0 && hp > base && forall u :: u in arena ==> u < hp
      modifies this`hdr, this`freep, this`fl, this`blocks, this`live, this`arena
      ensures Ok() && freep != 0 && live == old(live) && arena == old(arena) + Region(hp, nu)
      ensures SameSizes(old(blocks), blocks, live) && HasFree(fl, blocks, nu)
      ensures !old(HasFree(fl, blocks, n)) ==> FitsEndAt(fl, blocks, n, hp + nu)
    {
      hide HeapOk, Joined, FitsEndAt, HasFree;
      CoreKeeps(hdr, base, fl, blocks, live, arena, hp, nu);
      hdr := hdr[hp := Header(if hp in hdr then hdr[hp].ptr else 0, nu)];
      blocks, live, arena := blocks[hp := nu], live + {hp}, arena + Region(hp, nu);
      ghost var fl1, blocks1 := fl, blocks;
      ghost var j := Free(hp);
      if !old(HasFree(fl, blocks, n)) {
        CoreIsLast(hdr, base, fl1, old(blocks), blocks1, fl, blocks, live, arena, hp, nu, n, j);
      }
      assert live == old(live);
    }

    /** The two ways malloc hands out the block p found after prevp. */
    method Take(prevp: nat, p: nat, nunits: nat, ghost q: nat) returns (r: nat)
      requires Ok() && freep != 0 && nunits > 0
      requires 1 <= q < |fl| && p == fl[q] && prevp == fl[q - 1] && p in hdr && hdr[p].size >= nunits
      modifies this
      ensures Ok() && freep == prevp && arena == old(arena) && granted == old(granted) && grown == old(grown)
      ensures r !in old(live) && live == old(live) + {r} && r in blocks && blocks[r] == nunits
      ensures p in old(blocks) && r + nunits == p + old(blocks)[p]
      ensures SameSizes(old(blocks), blocks, old(live))
    {
      hide HeapOk;
      PrevFacts(hdr, base, fl, blocks, live, arena, q);
      if hdr[p].size == nunits {
        TakeKeeps(hdr, base, fl, blocks, live, arena, q);
        hdr := hdr[prevp := hdr[prevp].(ptr := hdr[p].ptr)];
        fl, live := RemoveAt(fl, q), live + {p};
        r := p;
      } else {
        FreeSize(hdr, base, fl, blocks, live, arena, q);
        CutHeapKeeps(hdr, base, fl, blocks, live, arena, p, nunits, p + hdr[p].size - nunits);
        hdr := hdr[p := hdr[p].(size := hdr[p].size - nunits)];
        r := p + hdr[p].size;
        hdr := hdr[r := Header(if r in hdr then hdr[r].ptr else 0, nunits)];
        blocks, live := Cut(blocks, p, nunits), live + {r};
      }
      freep := prevp;
    }

    /** malloc. Returns the header of a new live block, or None when sbrk fails. The
        heap stays within what sbrk gave, except after a call whose request does not
        fit the int that sbrk takes. */
    method Malloc(nbytes: nat, sbrk: Option<nat>) returns (r: Option<nat>)
      requires Ok() && nbytes < 0x1_0000_0000
      requires sbrk.Some? ==> sbrk.value > base && forall u :: u in arena ==> u < sbrk.value
      modifies this
      ensures Ok() && freep != 0
      ensures grown <= old(grown) + 1
      ensures grown == old(grown) ==> arena == old(arena) && granted == old(granted)
      ensures grown > old(grown) && sbrk.Some? ==>
                && arena == old(arena) + Region(sbrk.value, CoreUnits(Units(nbytes)))
                && granted == Grant(old(granted), sbrk.value, Moved(CoreUnits(Units(nbytes))))
      ensures old(arena <= granted) && (sbrk.Some? ==> forall u :: u in old(granted) ==> u < sbrk.value) ==>
                (arena <= granted <==>
                    grown == old(grown) || sbrk.None? || CoreUnits(Units(nbytes)) * HEADER < 0x8000_0000)
      ensures r.Some? ==>
                && r.value !in old(live) && live == old(live) + {r.value}
                && r.value in blocks && blocks[r.value] == Units(nbytes)
      ensures r.None? ==> live == old(live) && arena == old(arena) && granted == old(granted) && sbrk.None?
      ensures old(live) <= live && SameSizes(old(blocks), blocks, old(live))
      ensures grown == old(grown) <==> old(freep) != 0 && old(HasFree(fl, blocks, Units(nbytes)))
      ensures grown == old(grown) ==> r.Some?
      ensures grown == old(grown) && r.Some? ==>
                FirstFit(old(fl), old(blocks), old(freep), Units(nbytes), freep, r.value)
      ensures grown > old(grown) && r.Some? ==>
                sbrk.Some? && r.value + Units(nbytes) == sbrk.value + CoreUnits(Units(nbytes))
    {
      hide HeapOk, HasFree, Scan, Units, Grant, Moved, FitsEndAt, FirstFit;
      var nunits := Units(nbytes);
      if sbrk.Some? {
        GrantExact(arena, granted, sbrk.value, CoreUnits(nunits));
      }
      UnitsEnough(nbytes);
      if freep == 0 {
        EmptyKeeps(base);
        hdr := map[base := Header(base, 0)];
        freep := base;
        fl := [base];
        NoneFree(base, nunits);
      }
      var prevp := freep;
      ghost var f := ScanStart(hdr, base, fl, blocks, live, arena, freep, nunits);
      ghost var k, c := f, 0;
      var p := hdr[prevp].ptr;
      ghost var full := HasFree(fl, blocks, nunits);
      while true
        invariant Ok() && freep != 0
        invariant Scan(hdr, fl, freep, prevp, p, f, k, c, nunits)
        invariant live == old(live) && SameSizes(old(blocks), blocks, live)
        invariant old(grown) <= grown <= old(grown) + 1
        invariant grown == old(grown) ==> arena == old(arena) && granted == old(granted) && (full <==>
                  HasFree(fl, blocks, nunits))
        invariant grown > old(grown) ==> sbrk.Some? && HasFree(fl, blocks, nunits) && !full
        invariant grown > old(grown) ==> FitsEndAt(fl, blocks, nunits, sbrk.value + CoreUnits(nunits))
        invariant grown == old(grown) && full ==> fl == old(fl) && blocks == old(blocks) && freep == old(freep)
        invariant grown > old(grown) ==> arena == old(arena) + Region(sbrk.value, CoreUnits(nunits))
        invariant grown > old(grown) ==> granted == Grant(old(granted), sbrk.value, Moved(CoreUnits(nunits)))
        decreases old(grown) + 1 - grown, |fl| - c
      {
        ScanAt(hdr, base, fl, blocks, live, arena, freep, prevp, p, f, k, c, nunits);
        if hdr[p].size >= nunits {
          ghost var fl1, blocks1, freep1 := fl, blocks, freep;
          Chosen(hdr, base, fl, blocks, live, arena, freep, prevp, p, f, k, c, nunits,
                 if sbrk.Some? then sbrk.value + CoreUnits(nunits) else 0);
          var h := Take(prevp, p, nunits, k + 1);
          FirstFitIs(fl1, blocks1, freep1, nunits, prevp, p, h, f, k);
          return Some(h);
        }
        if p == freep {
          var ok := Morecore(nunits, sbrk);
          if !ok {
            return None;
          }
          f := ScanStart(hdr, base, fl, blocks, live, arena, freep, nunits);
          prevp := freep;
          k, c := f, 0;
          p := hdr[prevp].ptr;
        } else {
          prevp := p;
          k, c := After(k, |fl|), c + 1;
          p := hdr[p].ptr;
        }
      }
    }
  }

  /** The units malloc takes for nbytes, header included. */
  function Units(nbytes: nat): (n: nat) { (nbytes + HEADER - 1) / HEADER + 1 }

  /** The block has room for what was asked, and no unit more than it takes. */
  lemma UnitsEnough(nbytes: nat)
    ensures Units(nbytes) >= 1 && (Units(nbytes) - 1) * HEADER >= nbytes
    ensures if nbytes == 0 then Units(nbytes) == 1 else (Units(nbytes) - 2) * HEADER < nbytes
  {
  }

  /** Every free block with room for n units ends at `end`. */
  predicate FitsEndAt(fl: seq<nat>, blocks: map<nat, nat>, n: nat, end: nat) {
    forall i :: 1 <= i < |fl| && fl[i] in blocks && blocks[fl[i]] >= n ==> fl[i] + blocks[fl[i]] == end
  }

  /** r is cut from the end of the first free block with room for n units that comes after freep in the ring, and
      freep' is the block before that one. */
  ghost predicate FirstFit(fl: seq<nat>, blocks: map<nat, nat>, freep: nat, n: nat, freep': nat, r: nat) {
    exists f, q :: 0 <= f < |fl| && 1 <= q < |fl| && IsFirst(fl, blocks, freep, n, f, q) && fl[q - 1] == freep'
                   && fl[q] in blocks && r + n == fl[q] + blocks[fl[q]]
  }

  /** In the ring from position f on, q is the first block with room for n units. */
  predicate IsFirst(fl: seq<nat>, blocks: map<nat, nat>, freep: nat, n: nat, f: nat, q: nat)
    requires f < |fl| && q < |fl|
  {
    && fl[f] == freep && fl[q] in blocks && blocks[fl[q]] >= n
    && forall j :: 1 <= j < |fl| && fl[j] in blocks && Order(j, f, |fl|) < Order(q, f, |fl|) ==> blocks[fl[j]] < n
  }

  lemma FirstFitIs(fl: seq<nat>, blocks: map<nat, nat>, freep: nat, n: nat, prevp: nat, p: nat, r: nat, f: nat, k: nat)
    requires f < |fl| && k + 1 < |fl| && IsFirst(fl, blocks, freep, n, f, k + 1) && fl[k] == prevp && fl[k + 1] == p
    requires p in blocks && r + n == p + blocks[p]
    ensures FirstFit(fl, blocks, freep, n, prevp, r)
  {
    var q := k + 1;
    assert IsFirst(fl, blocks, freep, n, f, q);
  }

  /** The block that malloc's loop stops at. */
  lemma Chosen(hdr: map<nat, Header>, base: nat, fl: seq<nat>, blocks: map<nat, nat>, live: set<nat>, arena: set<nat>,
               freep: nat, prevp: nat, p: nat, f: nat, k: nat, c: nat, n: nat, end: nat)
    requires HeapOk(hdr, base, fl, blocks, live, arena) && Scan(hdr, fl, freep, prevp, p, f, k, c, n) && n > 0
    requires p in hdr && hdr[p].size >= n && k + 1 < |fl| && p == fl[k + 1]
    ensures f < |fl| && IsFirst(fl, blocks, freep, n, f, k + 1) && p in blocks
    ensures FitsEndAt(fl, blocks, n, end) ==> p + blocks[p] == end
  {
    hide Partition, ApartBut, Sorted, Linked;
    assert After(k, |fl|) == k + 1;
    forall j | 1 <= j < |fl| && fl[j] in blocks && Order(j, f, |fl|) < Order(k + 1, f, |fl|) ensures blocks[fl[j]] < n {
    }
  }

  lemma FitsBelow(hdr: map<nat, Header>, base: nat, fl: seq<nat>, blocks: map<nat, nat>, live: set<nat>,
                  arena: set<nat>, t: nat, bp: nat)
    requires HeapOk(hdr, base, fl, blocks, live, arena) && Fits(fl, t, bp)
    ensures t < |fl| && fl[t] in fl && fl[t] < bp && forall x :: x in fl && x < bp ==> x <= fl[t]
  {
    hide Partition, ApartBut, Linked, Lists;
  }

  /** When no free block was large enough, the only one that is now holds the new region, at its end. */
  lemma CoreIsLast(hdr: map<nat, Header>, base: nat, fl0: seq<nat>, blocks0: map<nat, nat>, blocks1: map<nat, nat>,
                   fl: seq<nat>, blocks: map<nat, nat>, live: set<nat>, arena: set<nat>, hp: nat, nu: nat, n: nat,
                   j: nat)
    requires HeapOk(hdr, base, fl, blocks, live, arena) && Joined(fl0, blocks1, fl, blocks, hp, j)
    requires hp !in blocks0 && blocks1 == blocks0[hp := nu] && nu > 0 && !HasFree(fl0, blocks0, n) && hp !in fl0
    requires forall u :: u in arena ==> u < hp + nu
    ensures FitsEndAt(fl, blocks, n, hp + nu)
  {
    hide ApartBut, Linked, Lists, Sorted;
    forall i | 1 <= i < |fl| && fl[i] in blocks && blocks[fl[i]] >= n ensures fl[i] + blocks[fl[i]] == hp + nu {
      assert In(blocks, fl[i], fl[i] + blocks[fl[i]] - 1);
      if i != j { TooSmallBefore(fl0, blocks0, n, fl[i]); }
    }
  }

  lemma TooSmallBefore(fl: seq<nat>, blocks: map<nat, nat>, n: nat, x: nat)
    requires |fl| >= 1 && x in fl[1..] && x in blocks && !HasFree(fl, blocks, n)
    ensures blocks[x] < n
  {
    var k :| 0 <= k < |fl[1..]| && fl[1..][k] == x;
    assert fl[k + 1] == x;
  }

  lemma NoneFree(base: nat, n: nat)
    ensures !HasFree([base], map[], n)
  {
  }

  /** A request that does not fit an int: malloc returns a block, but sbrk has not given it. */
  method HugeRequest() returns (heap: Allocator, r: Option<nat>)
    ensures r.Some? && r.value in heap.live && !(heap.arena <= heap.granted)
  {
    heap := new Allocator(1);
    r := heap.Malloc(0x8000_0000, Some(2));
    assert CoreUnits(Units(0x8000_0000)) * HEADER >= 0x8000_0000;
  }

  function After(k: nat, n: nat): (q: nat)
    requires k < n
  {
    if k + 1 < n then k + 1 else 0
  }

  /** When the scan of malloc, started after position f, comes to position j. */
  function Order(j: nat, f: nat, n: nat): (o: nat)
    requires j < n && f < n
  {
    if j > f then j - f - 1 else j + n - f - 1
  }

  /** The first c blocks of the scan have fewer than n units. */
  predicate TooSmall(hdr: map<nat, Header>, fl: seq<nat>, f: nat, c: nat, n: nat) {
    f < |fl| && forall j :: 0 <= j < |fl| && Order(j, f, |fl|) < c ==> fl[j] in hdr && hdr[fl[j]].size < n
  }

  /** The state of malloc's loop: p, after prevp, is the block number c of the scan. */
  predicate Scan(hdr: map<nat, Header>, fl: seq<nat>, freep: nat, prevp: nat, p: nat, f: nat, k: nat, c: nat, n: nat) {
    && k < |fl| && f < |fl| && fl[f] == freep && prevp == fl[k] && p == Next(fl, k)
    && c < |fl| && Order(After(k, |fl|), f, |fl|) == c
    && TooSmall(hdr, fl, f, c, n)
  }

  lemma ScanStart(hdr: map<nat, Header>, base: nat, fl: seq<nat>, blocks: map<nat, nat>, live: set<nat>,
                  arena: set<nat>,
                  freep: nat, n: nat) returns (f: nat)
    requires HeapOk(hdr, base, fl, blocks, live, arena) && freep in fl
    ensures freep in hdr && Scan(hdr, fl, freep, freep, hdr[freep].ptr, f, f, 0, n)
  {
    hide Partition, ApartBut, Sorted;
    f :| 0 <= f < |fl| && fl[f] == freep;
    LinkedIn(hdr, fl, f);
  }

  /** What the loop body may rely on at block p: taking it, passing it, or, back at
      freep, knowing that no free block is large enough. */
  lemma ScanAt(hdr: map<nat, Header>, base: nat, fl: seq<nat>, blocks: map<nat, nat>, live: set<nat>, arena: set<nat>,
               freep: nat, prevp: nat, p: nat, f: nat, k: nat, c: nat, n: nat)
    requires HeapOk(hdr, base, fl, blocks, live, arena) && Scan(hdr, fl, freep, prevp, p, f, k, c, n) && n > 0
    ensures p in hdr && k < |fl| && c < |fl|
    ensures hdr[p].size >= n ==> k + 1 < |fl| && p == fl[k + 1] && prevp == fl[k] && HasFree(fl, blocks, n)
    ensures hdr[p].size < n && p != freep ==>
              c + 1 < |fl| && Scan(hdr, fl, freep, p, hdr[p].ptr, f, After(k, |fl|), c + 1, n)
    ensures hdr[p].size < n && p == freep ==> !HasFree(fl, blocks, n)
  {
    hide Partition, ApartBut, Sorted, Linked;
    var q := After(k, |fl|);
    LinkedIn(hdr, fl, q);
    assert fl[q] == p;
    if hdr[p].size >= n {
      assert q != 0;
      assert blocks[fl[q]] >= n;
    } else {
      if p == freep {
        SortedSame(fl, f, q);
        forall i | 1 <= i < |fl| && fl[i] in blocks ensures blocks[fl[i]] < n {
          assert i == f || Order(i, f, |fl|) < c;
        }
      }
    }
  }

  lemma SortedSame(fl: seq<nat>, i: nat, j: nat)
    requires Sorted(fl) && i < |fl| && j < |fl| && fl[i] == fl[j]
    ensures i == j
  {
  }

  lemma PrevFacts(hdr: map<nat, Header>, base: nat, fl: seq<nat>, blocks: map<nat, nat>, live: set<nat>,
                  arena: set<nat>, q: nat)
    requires HeapOk(hdr, base, fl, blocks, live, arena) && 1 <= q < |fl|
    ensures fl[q - 1] in hdr && fl[q - 1] > 0 && fl[q] in hdr && fl[q] in blocks && hdr[fl[q]].size == blocks[fl[q]]
    ensures fl[q] !in live
  {
    hide Partition, ApartBut;
    assert fl[q - 1] >= fl[0];
  }

  lemma EmptyKeeps(base: nat)
    requires base > 0
    ensures HeapOk(map[base := Header(base, 0)], base, [base], map[], {}, {})
  {
  }

  /** Handing out a whole block. */
  lemma TakeKeeps(hdr: map<nat, Header>, base: nat, fl: seq<nat>, blocks: map<nat, nat>, live: set<nat>,
                  arena: set<nat>, q: nat)
    requires HeapOk(hdr, base, fl, blocks, live, arena) && 1 <= q < |fl|
    ensures fl[q - 1] in hdr && fl[q] in hdr
    ensures HeapOk(hdr[fl[q - 1] := hdr[fl[q - 1]].(ptr := hdr[fl[q]].ptr)], base, RemoveAt(fl, q), blocks,
                   live + {fl[q]}, arena)
    ensures fl[q - 1] in RemoveAt(fl, q)
  {
    hide Partition, Linked, Sorted, ApartBut, RemoveAt;
    LinkedIn(hdr, fl, q);
    LinkedIn(hdr, fl, q - 1);
    var hdr' := hdr[fl[q - 1] := hdr[fl[q - 1]].(ptr := hdr[fl[q]].ptr)];
    RemoveSorted(fl, q);
    forall i | 0 <= i < |fl| && i != q - 1 && i != q ensures fl[i] in hdr && hdr'[fl[i]].ptr == hdr[fl[i]].ptr {
      LinkedIn(hdr, fl, i);
      SortedAt(fl, if i < q - 1 then i else q - 1, if i < q - 1 then q - 1 else i);
    }
    RemoveLinked(hdr, hdr', fl, q);
    RemoveLists(fl, base, blocks, live, q);
    ApartRemove(fl, base, blocks, live, q);
    RemovedLength(fl, q);
    RemovedAt(fl, q, q - 1);
  }

  lemma RemoveLists(fl: seq<nat>, base: nat, blocks: map<nat, nat>, live: set<nat>, q: nat)
    requires Lists(fl, base, blocks, live) && 1 <= q < |fl| && Sorted(fl)
    ensures Lists(RemoveAt(fl, q), base, blocks, live + {fl[q]})
  {
    hide RemoveAt;
    var fl' := RemoveAt(fl, q);
    RemovedLength(fl, q);
    RemovedAt(fl, q, 0);
    forall i | 1 <= i < |fl'| ensures fl'[i] in blocks && fl'[i] !in live + {fl[q]} {
      RemovedAt(fl, q, i);
    }
    forall a | a in blocks && a !in live + {fl[q]} ensures a in fl' {
      var i :| 0 <= i < |fl| && fl[i] == a;
      RemovedAt(fl, q, if i < q then i else i - 1);
    }
  }

  lemma ApartRemove(fl: seq<nat>, base: nat, blocks: map<nat, nat>, live: set<nat>, q: nat)
    requires Sorted(fl) && Lists(fl, base, blocks, live) && Apart(fl, blocks) && 1 <= q < |fl|
    ensures (forall i :: 1 <= i < |RemoveAt(fl, q)| ==> RemoveAt(fl, q)[i] in blocks) && Apart(RemoveAt(fl, q), blocks)
  {
    hide RemoveAt;
    var fl' := RemoveAt(fl, q);
    RemovedLength(fl, q);
    forall i | 1 <= i < |fl'| ensures fl'[i] in blocks { RemovedAt(fl, q, i); }
    forall i | 1 <= i < |fl'| - 1 ensures fl'[i] + blocks[fl'[i]] < fl'[i + 1] {
      RemovedAt(fl, q, i);
      RemovedAt(fl, q, i + 1);
      var e := if i < q then i else i + 1;
      assert fl[e] + blocks[fl[e]] < fl[e + 1];
      if i == q - 1 { SortedAt(fl, q, q + 1); }
    }
  }

  /** The headers after malloc has cut n units off the end of block p. The `ptr` of the
      new header is whatever was in memory there. */
  function CutHdr(hdr: map<nat, Header>, p: nat, n: nat): (r: map<nat, Header>)
    requires p in hdr && n < hdr[p].size
  {
    var h := p + hdr[p].size - n;
    var hdr1 := hdr[p := hdr[p].(size := hdr[p].size - n)];
    hdr1[h := Header(if h in hdr1 then hdr1[h].ptr else 0, n)]
  }

  lemma FreeSize(hdr: map<nat, Header>, base: nat, fl: seq<nat>, blocks: map<nat, nat>, live: set<nat>,
                 arena: set<nat>, q: nat)
    requires HeapOk(hdr, base, fl, blocks, live, arena) && 1 <= q < |fl| && fl[q] in hdr
    ensures fl[q] in blocks && hdr[fl[q]].size == blocks[fl[q]]
  {
    hide Partition, Linked, Sorted, ApartBut;
  }

  /** Handing out the last n units of a larger block. */
  lemma CutHeapKeeps(hdr: map<nat, Header>, base: nat, fl: seq<nat>, blocks: map<nat, nat>, live: set<nat>,
                     arena: set<nat>, p: nat, n: nat, h: nat)
    requires p !in live && 0 < n && p in hdr && n < hdr[p].size
    requires p in blocks && hdr[p].size == blocks[p] && h + n == p + blocks[p]
    requires HeapOk(hdr, base, fl, blocks, live, arena)
    ensures h !in blocks && h !in live
    ensures HeapOk(CutHdr(hdr, p, n), base, fl, Cut(blocks, p, n), live + {h}, arena)
  {
    hide Partition, Linked, Sorted, ApartBut;
    var hdr' := CutHdr(hdr, p, n);
    CutKeeps(blocks, arena, p, n);
    NotInList(fl, base, blocks, live, h);
    LinkedSame(hdr, hdr', fl, h);
    ApartSame(fl, blocks, Cut(blocks, p, n));
  }

  /** morecore asks for at least MINCORE units. */
  function CoreUnits(n: nat): (r: nat) { if n < MINCORE then MINCORE else n }

  /** Blocks that stay live keep their sizes. */
  predicate SameSizes(blocks: map<nat, nat>, blocks': map<nat, nat>, live: set<nat>) {
    forall a :: a in live ==> a in blocks && a in blocks' && blocks'[a] == blocks[a]
  }

  lemma EnoughFree(fl: seq<nat>, blocks: map<nat, nat>, n: nat, m: nat)
    requires HasFree(fl, blocks, n) && m <= n
    ensures HasFree(fl, blocks, m)
  {
  }

  lemma NotInList(fl: seq<nat>, base: nat, blocks: map<nat, nat>, live: set<nat>, a: nat)
    requires Lists(fl, base, blocks, live) && a !in blocks && a != base
    ensures a !in fl
  {
  }

  lemma LinkedSame(hdr: map<nat, Header>, hdr': map<nat, Header>, fl: seq<nat>, a: nat)
    requires Linked(hdr, fl) && a !in fl
    requires forall b :: b in hdr && b != a ==> b in hdr' && hdr'[b].ptr == hdr[b].ptr
    ensures Linked(hdr', fl)
  {
  }

  lemma ApartSame(fl: seq<nat>, blocks: map<nat, nat>, blocks': map<nat, nat>)
    requires forall i :: 1 <= i < |fl| ==> fl[i] in blocks && fl[i] in blocks' && blocks'[fl[i]] <= blocks[fl[i]]
    requires Apart(fl, blocks)
    ensures Apart(fl, blocks')
  {
    forall i | 1 <= i < |fl| - 1 ensures fl[i] + blocks'[fl[i]] < fl[i + 1] {
      assert fl[i] + blocks[fl[i]] < fl[i + 1];
    }
  }

  /** Fresh memory from sbrk, as a block that is live until it is freed. */
  lemma CoreKeeps(hdr: map<nat, Header>, base: nat, fl: seq<nat>, blocks: map<nat, nat>, live: set<nat>,
                  arena: set<nat>,
                  hp: nat, nu: nat)
    requires HeapOk(hdr, base, fl, blocks, live, arena) && nu > 0 && hp > base && forall u :: u in arena ==> u < hp
    ensures hp !in blocks && hp !in live && hp !in fl
    ensures HeapOk(hdr[hp := Header(if hp in hdr then hdr[hp].ptr else 0, nu)], base, fl, blocks[hp := nu], live + {hp},
                   arena + Region(hp, nu))
  {
    hide Partition, Sorted, Linked, ApartBut;
    GrowKeeps(blocks, arena, hp, nu);
    NotInList(fl, base, blocks, live, hp);
    LinkedSame(hdr, hdr[hp := Header(if hp in hdr then hdr[hp].ptr else 0, nu)], fl, hp);
    ApartSame(fl, blocks, blocks[hp := nu]);
  }

  lemma LiveNotListed(fl: seq<nat>, base: nat, blocks: map<nat, nat>, live: set<nat>, bp: nat)
    requires Lists(fl, base, blocks, live) && bp in live && live <= blocks.Keys
    ensures bp !in fl
  {
  }

  /** free's exit at the wrap-around: only the last element is not below its successor. */
  lemma AtEnd(fl: seq<nat>, k: nat, t: nat, bp: nat)
    requires Sorted(fl) && k < |fl| && Fits(fl, t, bp) && fl[0] < bp
    requires fl[k] >= Next(fl, k) && (bp > fl[k] || bp < Next(fl, k))
    ensures k == t
  {
  }

  lemma AtMiddle(fl: seq<nat>, k: nat, t: nat, bp: nat)
    requires Sorted(fl) && k < |fl| && Fits(fl, t, bp) && fl[0] < bp
    requires fl[k] < bp < Next(fl, k)
    ensures k == t
  {
  }

  lemma NotHere(fl: seq<nat>, k: nat, t: nat, bp: nat)
    requires Sorted(fl) && k < |fl| && Fits(fl, t, bp) && fl[0] < bp
    requires !(fl[k] < bp < Next(fl, k)) && !(fl[k] >= Next(fl, k) && (bp > fl[k] || bp < Next(fl, k)))
    ensures k != t
  {
  }
}
