/** pipe.c: a byte queue in a ring of PIPESIZE bytes, with 32-bit counters that wrap around.
    pi->lock is held except in sleep, so each method below is what one process does between two sleeps;
    a run is any sequence of them by any processes. */
module Pipe {

  import opened Basics
  import opened Blocks

  const PIPESIZE: nat := 512
  const WRAP: nat := 0x1_0000_0000

  /** How a stretch of pipewrite or piperead ends. */
  datatype Outcome = Returns(n: int) | Sleeps

  /** Counters that differ by at most PIPESIZE keep their distance when they wrap. */
  lemma Wraps(w: nat, r: nat)
    requires r <= w <= r + PIPESIZE
    ensures (w % WRAP - r % WRAP) % WRAP == w - r
    ensures w % WRAP == r % WRAP <==> w == r
    ensures w % WRAP == (r % WRAP + PIPESIZE) % WRAP <==> w == r + PIPESIZE
    ensures w % WRAP % PIPESIZE == w % PIPESIZE
  {
    var k, x, y := w / WRAP - r / WRAP, w % WRAP, r % WRAP;
    assert w - r == WRAP * k + (x - y);
    assert k == 0 || k == 1;
    RingWraps(w);
  }

  /** The size of the ring divides the range of the counters. */
  lemma RingWraps(w: nat)
    ensures w % WRAP % PIPESIZE == w % PIPESIZE
  {
    var x := w % WRAP;
    var q := 0x80_0000 * (w / WRAP) + x / PIPESIZE;
    assert w == PIPESIZE * q + x % PIPESIZE;
    ModIs(w, q, x % PIPESIZE);
  }

  lemma ModIs(n: nat, q: nat, m: nat)
    requires n == PIPESIZE * q + m && m < PIPESIZE
    ensures n % PIPESIZE == m
  {
  }

  /** Different places in the queue are different places in the ring. */
  lemma RingApart(j: nat, w: nat)
    requires j < w < j + PIPESIZE
    ensures j % PIPESIZE != w % PIPESIZE
  {
  }

  lemma NextCount(w: nat)
    ensures (w % WRAP + 1) % WRAP == (w + 1) % WRAP
  {
  }

  class Pipe {
    const data: array<Byte>
    var nread: nat
    var nwrite: nat
    var readopen: bool
    var writeopen: bool
    ghost var accepted: seq<Byte>    // everything ever put in
    ghost var from: seq<nat>         // by which process
    ghost var delivered: nat         // how many bytes have been taken out
    ghost var output: seq<Byte>      // everything ever handed to a reader

    /** First in, first out: what readers have got is a first part of what writers have put in. */
    ghost predicate Ok()
      reads this, data
    {
      && delivered <= |accepted| && output == accepted[..delivered] && |from| == |accepted|
      && data.Length == PIPESIZE
      && delivered <= |accepted| <= delivered + PIPESIZE
      && nwrite == |accepted| % WRAP && nread == delivered % WRAP
      && forall j :: delivered <= j < |accepted| ==> data[Place(j)] == accepted[j]
    }

    constructor ()
      ensures Ok() && accepted == [] && from == [] && output == [] && delivered == 0 && readopen && writeopen
      ensures fresh(data)
    {
      data := new Byte[PIPESIZE](_ => 0);
      nread, nwrite, readopen, writeopen := 0, 0, true, true;
      accepted, from, delivered, output := [], [], 0, [];
    }

    /** pi->data[pi->nwrite++ % PIPESIZE] = ch */
    method Put(me: nat, ch: Byte)
      requires Ok() && |accepted| < delivered + PIPESIZE
      modifies this`nwrite, this`accepted, this`from, data
      ensures Ok() && accepted == old(accepted) + [ch] && from == old(from) + [me]
    {
      Wraps(|accepted|, delivered);
      NextCount(|accepted|);
      forall j | delivered <= j < |accepted| ensures Place(j) != Place(|accepted|) { RingApart(j, |accepted|); }
      data[nwrite % PIPESIZE] := ch;
      nwrite := (nwrite + 1) % WRAP;
      accepted := accepted + [ch];
      from := from + [me];
    }

    /** A stretch of pipewrite by process me, with start bytes behind it. src[j] is None where copyin fails;
        killed(pr) reads true from the turn killAt on. i is the byte at which the stretch ends. */
    method Write(me: nat, src: seq<Option<Byte>>, start: nat, killAt: Option<nat>) returns (out: Outcome, i: nat)
      requires Ok() && start <= |src|
      modifies this`nwrite, this`accepted, this`from, data
      ensures Ok() && start <= i <= |src| && Readable(src, start, i)
      ensures accepted == old(accepted) + Values(src, start, i) && from == old(from) + Repeat(me, i - start)
      ensures out == Returns(-1) <==> i < |src| && (!readopen || Struck(killAt, i - start))
      ensures out == Sleeps <==>
                i < |src| && readopen && !Struck(killAt, i - start) && |accepted| == delivered + PIPESIZE
      ensures out.Returns? && out.n != -1 ==> out.n == i && (i == |src| || src[i].None?)
      ensures i > start ==> readopen && !Struck(killAt, i - 1 - start)
    {
      hide Values, Repeat;
      i := start;
      assert Values(src, start, start) == [] && Repeat(me, 0) == [];
      while i < |src|
        invariant Ok() && start <= i <= |src| && Readable(src, start, i)
        invariant accepted == old(accepted) + Values(src, start, i) && from == old(from) + Repeat(me, i - start)
        invariant i > start ==> readopen && !Struck(killAt, i - 1 - start)
      {
        Wraps(|accepted|, delivered);
        if !readopen || (killAt.Some? && killAt.value <= i - start) { return Returns(-1), i; }
        if nwrite == (nread + PIPESIZE) % WRAP { return Sleeps, i; }
        if src[i].None? { break; }
        Put(me, src[i].value);
        i := i + 1;
        ValuesNext(src, start, i, me);
      }
      out := Returns(i);
    }

    /** pipewrite from entry to return. naps[k] is what the other processes do while it sleeps for the k-th
        time, and kills[k] the turn of the stretch before that sleep at which killed(pr) begins to read true;
        when the naps are over it goes on sleeping. */
    method Call(me: nat, src: seq<Option<Byte>>, naps: seq<seq<Turn>>, kills: seq<Option<nat>>)
      returns (out: Outcome, i: nat, ghost k: nat, ghost start: nat)
      requires Ok() && |kills| == |naps| + 1
      requires forall k :: 0 <= k < |naps| ==> Others(me, naps[k])
      modifies this, data
      ensures Ok() && i <= |src| && Readable(src, 0, i)
      ensures old(accepted) <= accepted && old(from) <= from
      ensures Part(accepted, from, me) == old(Part(accepted, from, me)) + Values(src, 0, i)
      ensures out.Returns? && out.n != -1 ==> out.n == i && (i == |src| || src[i].None?)
      ensures k < |kills| && start <= i   // the last stretch, and where it began
      ensures out == Returns(-1) <==> i < |src| && (!readopen || Struck(kills[k], i - start))
      ensures out == Sleeps <==>
                i < |src| && readopen && !Struck(kills[k], i - start) && |accepted| == delivered + PIPESIZE
      ensures out == Sleeps ==> k == |naps|
    {
      hide Values, Part, Repeat, Others, Struck;
      i, k, start := 0, 0, 0;
      var n := 0;
      assert Values(src, 0, 0) == [];
      while true
        invariant Ok() && 0 <= n == k <= |naps| && 0 <= i <= |src| && Readable(src, 0, i)
        invariant old(accepted) <= accepted && old(from) <= from
        invariant Part(accepted, from, me) == old(Part(accepted, from, me)) + Values(src, 0, i)
        decreases |naps| - n
      {
        ghost var a, f := accepted, from;
        start := i;
        OkSizes(this);
        out, i := Write(me, src, i, kills[n]);
        PartMore(a, f, me, Values(src, start, i));
        ValuesThen(src, 0, start, i);
        if out.Returns? || n == |naps| { return; }
        Nap(me, naps[n]);
        n, k := n + 1, k + 1;
      }
    }

    /** What the other processes do to the pipe, stretch by stretch. */
    method Nap(me: nat, turns: seq<Turn>)
      requires Ok() && Others(me, turns)
      modifies this, data
      ensures Ok() && old(accepted) <= accepted && old(from) <= from
      ensures Part(accepted, from, me) == old(Part(accepted, from, me))
    {
      for k := 0 to |turns|
        invariant Ok() && old(accepted) <= accepted && old(from) <= from
        invariant Part(accepted, from, me) == old(Part(accepted, from, me))
      {
        match turns[k]
        case Writes(p, src, start, killAt) =>
          if start <= |src| {
            ghost var a, f := accepted, from;
            var out, i := Write(p, src, start, killAt);
            PartOther(a, f, me, p, Values(src, start, i));
          }
        case Reads(n, killed, copied) => var out, got := Read(n, killed, j => j < copied);
        case Closes(writable) => var freed := Close(writable);
      }
    }

    /** The byte at nread has been copied out. */
    method Get(ch: Byte)
      requires Ok() && delivered < |accepted| && ch == data[nread % PIPESIZE]
      modifies this`nread, this`delivered, this`output
      ensures Ok() && delivered == old(delivered) + 1 && ch == accepted[old(delivered)] && output == old(output) + [ch]
    {
      Wraps(delivered, delivered);
      NextCount(delivered);
      assert ch == accepted[delivered] by { assert nread % PIPESIZE == Place(delivered); }
      nread := (nread + 1) % WRAP;
      delivered := delivered + 1;
      output := output + [ch];
    }

    /** piperead up to its first sleep. copies says for which bytes copyout succeeds. */
    method Read(n: int, killed: bool, copies: nat -> bool) returns (out: Outcome, got: seq<Byte>)
      requires Ok()
      modifies this`nread, this`delivered, this`output
      ensures Ok() && delivered == old(delivered) + |got| && output == old(output) + got
      ensures got == accepted[old(delivered)..delivered] && |got| <= (if n < 0 then 0 else n)
      ensures out == Sleeps <==> old(delivered) == |accepted| && writeopen && !killed
      ensures out == Sleeps ==> got == []
      ensures out == Returns(-1) <==> if old(delivered) == |accepted| then writeopen && killed else n > 0 && !copies(0)
      ensures out == Returns(-1) ==> got == []
      ensures forall j :: 0 <= j < |got| ==> copies(j)
      ensures out.Returns? && out.n != -1 ==>
                out.n == |got| && (|got| >= n || delivered == |accepted| || (|got| > 0 && !copies(|got|)))
    {
      Wraps(|accepted|, delivered);
      got := [];
      if nread == nwrite && writeopen {
        if killed { return Returns(-1), got; }
        return Sleeps, got;
      }
      var i := 0;
      while i < n
        invariant Ok() && 0 <= i == |got| <= (if n < 0 then 0 else n) && delivered == old(delivered) + i
        invariant output == old(output) + got && forall j :: 0 <= j < |got| ==> copies(j)
        invariant got == accepted[old(delivered)..delivered]
      {
        Wraps(|accepted|, delivered);
        if nread == nwrite { break; }
        var ch := data[nread % PIPESIZE];
        if !copies(i) {
          return Returns(if i == 0 then -1 else i), got;
        }
        Get(ch);
        got := got + [ch];
        i := i + 1;
      }
      out := Returns(i);
    }

    /** pipeclose(): true when both ends are closed and the page goes back. */
    method Close(writable: bool) returns (freed: bool)
      requires Ok()
      modifies this`readopen, this`writeopen
      ensures Ok() && freed == (!readopen && !writeopen)
      ensures if writable then !writeopen && readopen == old(readopen) else !readopen && writeopen == old(writeopen)
    {
      if writable { writeopen := false; } else { readopen := false; }
      freed := !readopen && !writeopen;
    }
  }

  function Place(j: nat): (p: nat)
    ensures p < PIPESIZE
  {
    j % PIPESIZE
  }

  /** killed(pr) reads true in turn n. */
  predicate Struck(killAt: Option<nat>, n: nat) { killAt.Some? && killAt.value <= n }

  /** A stretch of another process. */
  datatype Turn =
    | Writes(p: nat, src: seq<Option<Byte>>, start: nat, killAt: Option<nat>)
    | Reads(n: int, killed: bool, copied: nat)    // copyout succeeds for the first `copied` bytes
    | Closes(writable: bool)

  predicate Others(me: nat, turns: seq<Turn>) {
    forall k :: 0 <= k < |turns| && turns[k].Writes? ==> turns[k].p != me
  }

  predicate Readable(src: seq<Option<Byte>>, lo: nat, hi: nat) {
    lo <= hi <= |src| && forall j :: lo <= j < hi ==> src[j].Some?
  }

  /** The bytes lo to hi - 1 of the source. */
  function Values(src: seq<Option<Byte>>, lo: nat, hi: nat): (r: seq<Byte>)
    requires Readable(src, lo, hi)
    ensures |r| == hi - lo && forall j :: lo <= j < hi ==> r[j - lo] == src[j].value
  {
    if lo == hi then [] else Values(src, lo, hi - 1) + [src[hi - 1].value]
  }

  lemma ValuesThen(src: seq<Option<Byte>>, lo: nat, mid: nat, hi: nat)
    requires Readable(src, lo, mid) && Readable(src, mid, hi)
    ensures Readable(src, lo, hi) && Values(src, lo, hi) == Values(src, lo, mid) + Values(src, mid, hi)
  {
  }

  function Repeat(p: nat, n: nat): (r: seq<nat>)
    ensures |r| == n && forall k :: 0 <= k < n ==> r[k] == p
  {
    if n == 0 then [] else Repeat(p, n - 1) + [p]
  }

  lemma ValuesNext(src: seq<Option<Byte>>, lo: nat, hi: nat, p: nat)
    requires Readable(src, lo, hi) && lo < hi
    ensures Values(src, lo, hi) == Values(src, lo, hi - 1) + [src[hi - 1].value]
    ensures Repeat(p, hi - lo) == Repeat(p, hi - 1 - lo) + [p]
  {
  }

  lemma OkSizes(p: Pipe)
    requires p.Ok()
    ensures |p.from| == |p.accepted|
  {
  }

  /** The bytes that process p has put in, in order. */
  function Part(bytes: seq<Byte>, from: seq<nat>, p: nat): (r: seq<Byte>)
    requires |from| == |bytes|
  {
    if bytes == [] then []
    else
      var n := |bytes| - 1;
      Part(bytes[..n], from[..n], p) + if from[n] == p then [bytes[n]] else []
  }

  lemma {:induction false} PartMore(bytes: seq<Byte>, from: seq<nat>, p: nat, x: seq<Byte>)
    requires |from| == |bytes|
    ensures Part(bytes + x, from + Repeat(p, |x|), p) == Part(bytes, from, p) + x
  {
    if x == [] {
      assert bytes + x == bytes && from + Repeat(p, 0) == from;
    } else {
      var n := |x| - 1;
      PartMore(bytes, from, p, x[..n]);
      var b, f := bytes + x, from + Repeat(p, |x|);
      assert b[..|b| - 1] == bytes + x[..n] && f[..|b| - 1] == from + Repeat(p, n);
    }
  }

  lemma {:induction false} PartOther(bytes: seq<Byte>, from: seq<nat>, p: nat, q: nat, x: seq<Byte>)
    requires |from| == |bytes| && p != q
    ensures Part(bytes + x, from + Repeat(q, |x|), p) == Part(bytes, from, p)
  {
    if x == [] {
      assert bytes + x == bytes && from + Repeat(q, 0) == from;
    } else {
      var n := |x| - 1;
      PartOther(bytes, from, p, q, x[..n]);
      var b, f := bytes + x, from + Repeat(q, |x|);
      assert b[..|b| - 1] == bytes + x[..n] && f[..|b| - 1] == from + Repeat(q, n);
    }
  }

  /** An instance: the first of two bytes goes in, and the call returns -1. */
  method KilledWriter() returns (p: Pipe, out: Outcome)
    ensures p.Ok() && out == Returns(-1) && p.accepted == [1]
  {
    p := new Pipe();
    var src: seq<Option<Byte>> := [Some(1), Some(2)];
    var i;
    out, i := p.Write(0, src, 0, Some(1));
    assert !Struck(Some(1), 0) && Struck(Some(1), 1);
    assert i == 1 && p.accepted[0] == src[0].value;
  }
}
