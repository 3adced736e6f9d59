/** The file system on top of the log: the transactions of one write become operations of the log,
    and a crash at any point leaves a consistent file system that holds a whole number of them. */
module FsCrash {
  import opened Blocks
  import opened LogFormat
  import opened FsLayout
  import opened FsOwner
  import opened FsTrace
  import opened FileSystem
  import opened FileWrite
  import G = GroupCommit

  // ----- transactions as log histories -----

  /** The log_writes of operation op. */
  function Stores(op: nat, tx: seq<Write>): (r: seq<G.Event>)
    ensures |r| == |tx|
  {
    seq(|tx|, k requires 0 <= k < |tx| => G.Store(op, tx[k].b, tx[k].data))
  }

  /** One operation from begin_op to end_op. */
  function OneOp(op: nat, tx: seq<Write>): (r: seq<G.Event>) { [G.Begin(op)] + Stores(op, tx) + [G.End(op)] }

  /** The transactions one after the other. */
  function Serial(txs: seq<seq<Write>>): (r: seq<G.Event>) {
    if txs == [] then [] else Serial(txs[..|txs| - 1]) + OneOp(|txs| - 1, txs[|txs| - 1])
  }

  lemma {:induction false} StoresReplay(base: Disk, h: seq<G.Event>, op: nat, tx: seq<Write>)
    ensures G.Replay(base, h + Stores(op, tx)) == Apply(G.Replay(base, h), tx)
    ensures G.OpenOps(h + Stores(op, tx)) == G.OpenOps(h)
  {
    if tx == [] {
      assert h + Stores(op, tx) == h;
    } else {
      var m := |tx| - 1;
      StoresReplay(base, h, op, tx[..m]);
      var e := G.Store(op, tx[m].b, tx[m].data);
      assert h + Stores(op, tx) == h + Stores(op, tx[..m]) + [e];
      G.ReplayNext(base, h + Stores(op, tx[..m]), e);
    }
  }

  lemma OneOpReplay(base: Disk, h: seq<G.Event>, op: nat, tx: seq<Write>)
    ensures G.Replay(base, h + OneOp(op, tx)) == Apply(G.Replay(base, h), tx)
  {
    var h1 := h + [G.Begin(op)];
    var h2 := h1 + Stores(op, tx);
    assert h + OneOp(op, tx) == h2 + [G.End(op)];
    G.ReplayNext(base, h, G.Begin(op));
    StoresReplay(base, h1, op, tx);
    G.ReplayNext(base, h2, G.End(op));
  }

  /** An operation that has begun and not ended is open. */
  lemma CutOpIsOpen(base: Disk, h: seq<G.Event>, op: nat, tx: seq<Write>, k: nat)
    requires 0 < k < |OneOp(op, tx)|
    ensures op in G.OpenOps(h + OneOp(op, tx)[..k])
  {
    var h1 := h + [G.Begin(op)];
    assert h + OneOp(op, tx)[..k] == h1 + Stores(op, tx[..k - 1]);
    G.ReplayNext(base, h, G.Begin(op));
    StoresReplay(base, h1, op, tx[..k - 1]);
  }

  /** A part of the history without open operations ends between two transactions. */
  lemma {:induction false} CutBetween(base: Disk, txs: seq<seq<Write>>, n: nat) returns (j: nat)
    requires n <= |Serial(txs)| && G.OpenOps(Serial(txs)[..n]) == {}
    ensures j <= |txs| && Serial(txs)[..n] == Serial(txs[..j])
    ensures n == |Serial(txs)| ==> j == |txs|
  {
    hide G.OpenOps, OneOp;
    if txs == [] {
      j := 0;
      assert txs[..0] == txs;
    } else if n == |Serial(txs)| {
      j := |txs|;
      assert txs[..j] == txs && Serial(txs)[..n] == Serial(txs);
    } else {
      var m := |txs| - 1;
      var front := Serial(txs[..m]);
      if n <= |front| {
        assert Serial(txs)[..n] == front[..n];
        j := CutBetween(base, txs[..m], n);
        assert txs[..m][..j] == txs[..j];
      } else {
        assert Serial(txs)[..n] == front + OneOp(m, txs[m])[..n - |front|];
        CutOpIsOpen(base, front, m, txs[m], n - |front|);
        assert false;
      }
    }
  }

  /** Writes outside the log area change the home blocks as they change the disk. */
  lemma {:induction false} HomeApply(d: Disk, tx: seq<Write>, start: nat)
    requires forall k :: 0 <= k < |tx| ==> !InLog(start, tx[k].b)
    ensures Home(Apply(d, tx), start) == Apply(Home(d, start), tx)
  {
    if tx != [] {
      var m := |tx| - 1;
      HomeApply(d, tx[..m], start);
      var d' := Apply(d, tx[..m]);
      assert Home(d'[tx[m].b := tx[m].data], start) == Home(d', start)[tx[m].b := tx[m].data];
    }
  }

  /** Disk after disk, by transactions that spare the log area. */
  ghost predicate Chain(disks: seq<Disk>, txs: seq<seq<Write>>, g: Geo) {
    |disks| == |txs| + 1 && forall k :: 0 <= k < |txs| ==> Transaction(g, disks[k], txs[k], disks[k + 1])
  }

  lemma {:induction false} SerialReplay(disks: seq<Disk>, txs: seq<seq<Write>>, g: Geo, start: nat)
    requires Chain(disks, txs, g) && start + LOGBLOCKS < g.inodestart
    ensures G.Replay(Home(disks[0], start), Serial(txs)) == Home(disks[|txs|], start)
  {
    hide G.Replay, Apply, Home, Targets, OneOp;
    G.ReplayNothing(Home(disks[0], start));
    if txs != [] {
      var m := |txs| - 1;
      assert forall k :: 0 <= k < m ==> disks[..m + 1][k] == disks[k] && txs[..m][k] == txs[k];
      SerialReplay(disks[..m + 1], txs[..m], g, start);
      OneOpReplay(Home(disks[0], start), Serial(txs[..m]), m, txs[m]);
      assert Transaction(g, disks[m], txs[m], disks[m + 1]);
      HomeApply(disks[m], txs[m], start);
    }
  }

  // ----- a transaction is a run of the log -----

  ghost predicate Lists(lh: seq<nat>, a: set<nat>) { |lh| == |a| && forall b :: b in lh <==> b in a }

  /** After the log_writes tx of the only operation op. */
  ghost predicate InOp(s: G.State, t: G.State, op: nat, tx: seq<Write>) {
    && s.phase.Running? && t.cur.Keys == s.cur.Keys && Lists(t.lh, Targets(tx))
    && t == s.(cur := t.cur, lh := t.lh, open := map[op := |Targets(tx)|],
               hist := s.hist + [G.Begin(op)] + Stores(op, tx))
  }

  lemma OpBegins(s: G.State, op: nat)
    requires G.Inv(s) && s.phase.Running? && s.open == map[]
    ensures G.Enabled(s, G.BeginOp(op)) && InOp(s, G.Do(s, G.BeginOp(op)), op, [])
  {
    hide G.Inv;
    G.IdleIsEmpty(s);
    assert Targets([]) == {};
    assert s.hist + [G.Begin(op)] + Stores(op, []) == s.hist + [G.Begin(op)];
  }

  lemma OpStores(s: G.State, t: G.State, op: nat, tx: seq<Write>, e: Write)
    requires InOp(s, t, op, tx) && |Targets(tx + [e])| <= MAXOPBLOCKS && e.b in s.cur && e.b < 0x8000_0000
    ensures G.Enabled(t, G.LogWrite(op, e.b, e.data)) && InOp(s, G.Do(t, G.LogWrite(op, e.b, e.data)), op, tx + [e])
  {
    hide Targets, Stores, G.L.Absorb, Lists, G.Do, G.Enabled;
    StoresNext(s.hist + [G.Begin(op)], op, tx, e);
    TargetsNext(tx, e);
    AbsorbOne(t.lh, e.b, Targets(tx));
    StoreStep(t, op, |Targets(tx)|, e);
  }

  lemma StoreStep(t: G.State, op: nat, n: nat, e: Write)
    requires t.phase.Running? && e.b in t.cur && e.b < 0x8000_0000 && |t.lh| < LOGBLOCKS && t.open == map[op := n]
    requires e.b in t.lh || n < MAXOPBLOCKS
    ensures G.Enabled(t, G.LogWrite(op, e.b, e.data))
    ensures var t' := G.Do(t, G.LogWrite(op, e.b, e.data));
            && t'.cur.Keys == t.cur.Keys && t'.lh == G.L.Absorb(t.lh, e.b)
            && t' == t.(cur := t'.cur, lh := t'.lh, open := map[op := n + if e.b in t.lh then 0 else 1],
                        hist := t.hist + [G.Store(op, e.b, e.data)])
  {
    OneKey(op, n, n + 1);
    var t' := G.Do(t, G.LogWrite(op, e.b, e.data));
    assert t'.cur.Keys == t.cur.Keys;
  }

  lemma OneKey(op: nat, n: nat, n': nat)
    ensures map[op := n][op := n'] == map[op := n'] && |map[op := n]| == 1
  {
  }

  lemma AbsorbOne(lh: seq<nat>, b: nat, a: set<nat>)
    requires Lists(lh, a)
    ensures Lists(G.L.Absorb(lh, b), a + {b}) && |lh| == |a| && (b in lh <==> b in a)
    ensures |a + {b}| == |a| + if b in a then 0 else 1
  {
    if b in a { assert a + {b} == a; }
  }

  lemma StoresNext(h: seq<G.Event>, op: nat, tx: seq<Write>, e: Write)
    ensures h + Stores(op, tx + [e]) == h + Stores(op, tx) + [G.Store(op, e.b, e.data)]
  {
    assert Stores(op, tx + [e]) == Stores(op, tx) + [G.Store(op, e.b, e.data)];
  }

  /** A transaction can be run on an idle log: its writes never exceed the share that begin_op reserved, and its
      commit leaves enough buffers unpinned to go through. */
  lemma TransactionRuns(s: G.State, op: nat, tx: seq<Write>) returns (acts: seq<G.Action>, t: G.State)
    requires G.Inv(s) && s.phase.Running? && s.open == map[] && Runnable(s.cur.Keys, tx)
    ensures G.Run(s, acts, t) && t.hist == s.hist + OneOp(op, tx) && t.durable == |t.hist|
    ensures G.Inv(t) && t.phase.Running? && t.open == map[] && t.cur.Keys == s.cur.Keys
  {
    hide G.Inv, G.Enabled, G.Do, G.Run, Targets, InOp, OneOp;
    var more, m;
    acts, m := StoresRun(s, op, tx);
    OpEnds(s, m, op, tx);
    G.RunNext(s, acts, m, G.EndOp(op));
    G.StepKeeps(m, G.EndOp(op));
    more, t := G.CommitRuns(G.Do(m, G.EndOp(op)));
    G.RunConcat(s, acts + [G.EndOp(op)], G.Do(m, G.EndOp(op)), more, t);
    acts := acts + [G.EndOp(op)] + more;
  }

  /** Home blocks that fit one operation's share of the log. */
  ghost predicate Runnable(keys: set<nat>, tx: seq<Write>) {
    |Targets(tx)| <= MAXOPBLOCKS && forall k :: 0 <= k < |tx| ==> tx[k].b in keys && tx[k].b < 0x8000_0000
  }

  lemma StoresRun(s: G.State, op: nat, tx: seq<Write>) returns (acts: seq<G.Action>, t: G.State)
    requires G.Inv(s) && s.phase.Running? && s.open == map[] && Runnable(s.cur.Keys, tx)
    ensures G.Run(s, acts, t) && G.Inv(t) && InOp(s, t, op, tx)
  {
    hide G.Inv, G.Enabled, G.Do, G.Run, Targets, InOp;
    G.RunNothing(s);
    OpBegins(s, op);
    G.RunNext(s, [], s, G.BeginOp(op));
    G.StepKeeps(s, G.BeginOp(op));
    acts, t := [] + [G.BeginOp(op)], G.Do(s, G.BeginOp(op));
    var k := 0;
    assert tx[..0] == [];
    while k < |tx|
      invariant 0 <= k <= |tx| && G.Run(s, acts, t) && G.Inv(t) && InOp(s, t, op, tx[..k])
    {
      var a := G.LogWrite(op, tx[k].b, tx[k].data);
      assert tx[..k] + [tx[k]] == tx[..k + 1];
      TargetsPrefix(tx, k + 1);
      OpStores(s, t, op, tx[..k], tx[k]);
      G.RunNext(s, acts, t, a);
      G.StepKeeps(t, a);
      acts, t, k := acts + [a], G.Do(t, a), k + 1;
    }
    assert tx[..k] == tx;
  }

  /** Transaction after transaction, each committed before the next begins. */
  lemma {:induction false} SerialRuns(s: G.State, txs: seq<seq<Write>>) returns (acts: seq<G.Action>, t: G.State)
    requires G.Inv(s) && s.phase.Running? && s.open == map[]
    requires forall k :: 0 <= k < |txs| ==> Runnable(s.cur.Keys, txs[k])
    ensures G.Run(s, acts, t) && t.hist == s.hist + Serial(txs) && t.durable == |t.hist|
    ensures G.Inv(t) && t.phase.Running? && t.open == map[] && t.cur.Keys == s.cur.Keys
  {
    hide G.Inv, G.Run, Runnable, OneOp;
    if txs == [] {
      acts, t := [], s;
      G.RunNothing(s);
      G.IdleIsDurable(s);
    } else {
      var n := |txs| - 1;
      var more, m;
      acts, m := SerialRuns(s, txs[..n]);
      more, t := TransactionRuns(m, n, txs[n]);
      G.RunConcat(s, acts, m, more, t);
      acts := acts + more;
    }
  }

  lemma TargetsPrefix(tx: seq<Write>, n: nat)
    requires n <= |tx|
    ensures |Targets(tx[..n])| <= |Targets(tx)|
  {
    forall b | b in Targets(tx[..n]) ensures b in Targets(tx) {
      var k :| 0 <= k < n && tx[..n][k].b == b;
      assert tx[k].b == b;
    }
    Smaller(Targets(tx[..n]), Targets(tx));
  }

  lemma OpEnds(s: G.State, t: G.State, op: nat, tx: seq<Write>)
    requires InOp(s, t, op, tx) && |Targets(tx)| <= MAXOPBLOCKS
    ensures G.Enabled(t, G.EndOp(op))
    ensures var t' := G.Do(t, G.EndOp(op));
            && t'.hist == s.hist + OneOp(op, tx) && t'.phase.Committing? && |t'.lh| <= MAXOPBLOCKS
            && t'.cur.Keys == s.cur.Keys
  {
    hide Targets;
    assert s.hist + [G.Begin(op)] + Stores(op, tx) + [G.End(op)] == s.hist + OneOp(op, tx);
    assert t.open - {op} == map[];
  }

  // ----- the file system does not look at the log area -----

  /** Two disks that agree from the inodes on. */
  predicate AgreeAbove(g: Geo, d: Disk, d': Disk) {
    forall b | g.inodestart <= b < g.size :: b in d && b in d' && d[b] == d'[b]
  }

  lemma SameAbove(g: Geo, d: Disk, d': Disk, owner: Owner)
    requires Own(Fs(g, d, map[]), owner, {}, {}) && Shape(Fs(g, d', map[])) && AgreeAbove(g, d, d')
    ensures var a, b := Fs(g, d, map[]), Fs(g, d', map[]);
            Own(b, owner, {}, {}) && SameInodes(a, b) && SameAddrs(a, b) && SameRaw(a, b)
  {
    hide GetInode, GetBit, GetWord, BitmapOk, Exclusive;
    var a, b := Fs(g, d, map[]), Fs(g, d', map[]);
    forall i | 0 <= i < g.ninodes ensures Ino(b, i) == Ino(a, i) { IBlockBelow(g, i); }
    forall y | ValidSlot(g, y) ensures Addr(b, y) == Addr(a, y) {
      if y.IndEntry? { PointerIsOwned(a, owner, {}, {}, y.i); }
    }
    forall c | 0 <= c < g.size ensures Bit(b, c) == Bit(a, c) { BBlockBelow(g, c); }
    OwnSame(a, b, owner, {}, {});
    SameRawAbove(a, b, owner);
  }

  lemma SameRawAbove(a: Fs, b: Fs, owner: Owner)
    requires Own(a, owner, {}, {}) && Shape(b) && b.geo == a.geo && SameAddrs(a, b)
    requires AgreeAbove(a.geo, a.blocks, b.blocks)
    ensures SameRaw(a, b)
  {
    hide Addr, BitmapOk, Exclusive;
    RawFromAddrs(a, b, owner);
  }

  lemma HoldsSame(g: Geo, d0: Disk, d: Disk, d': Disk, i: nat, off: nat, x: seq<Byte>, n: nat)
    requires Holds(g, d0, d, i, off, x, n) && Shape(Fs(g, d', map[])) && AgreeAbove(g, d, d')
    ensures Holds(g, d0, d', i, off, x, n)
  {
    hide Addr, Ino, Raw, NoHoles, Visible, OtherInodes, SameInodes, SameAddrs, SameRaw, Shape, Own, AgreeAbove;
    var a, b, c := Fs(g, d0, map[]), Fs(g, d, map[]), Fs(g, d', map[]);
    var owner :| Own(b, owner, {}, {});
    SameAbove(g, d, d', owner);
    assert Consistent(c);
    SelfSame(a);
    VisibleVia(a, a, b, c, i, off, x);
    InodesVia(a, a, b, c, i);
    SelfSame(b);
    NoHolesVia(b, b, c, i);
  }

  lemma SelfSame(s: Fs)
    requires Shape(s)
    ensures SameRaw(s, s) && SameInodes(s, s) && SameAddrs(s, s)
  {
    hide Raw, Ino, Addr;
  }

  // ----- crash atomicity of a write -----

  /** Disk d is the write after k of its m transactions: whole chunks, and at the end all that was kept. */
  ghost predicate Stage(g: Geo, d0: Disk, d: Disk, i: nat, off: nat, src: seq<Byte>, kept: nat, shown: nat,
                        k: nat, m: nat)
  {
    if k < m then Whole(g, d0, d, i, off, src, k) else shown <= |src| && Holds(g, d0, d, i, off, src[..shown], kept)
  }

  lemma StageIs(g: Geo, disks: seq<Disk>, txs: seq<seq<Write>>, i: nat, off: nat, src: seq<Byte>, kept: nat,
                shown: nat, k: nat)
    requires Stages(g, disks, txs, i, off, src, kept, shown) && k <= |txs|
    ensures |disks| == |txs| + 1 && Chain(disks, txs, g)
    ensures Stage(g, disks[0], disks[k], i, off, src, kept, shown, k, |txs|)
    ensures exists x, n :: Holds(g, disks[0], disks[k], i, off, x, n)
  {
    hide Holds, Transaction;
  }

  lemma StageSame(g: Geo, d0: Disk, d: Disk, d': Disk, i: nat, off: nat, src: seq<Byte>, kept: nat, shown: nat,
                  k: nat, m: nat)
    requires Stage(g, d0, d, i, off, src, kept, shown, k, m) && Shape(Fs(g, d', map[])) && AgreeAbove(g, d, d')
    ensures Stage(g, d0, d', i, off, src, kept, shown, k, m)
  {
    hide Holds, Shape, AgreeAbove;
    var n := Min(k * MAXCHUNK, |src|);
    if k < m {
      HoldsSame(g, d0, d, d', i, off, src[..n], n);
    } else {
      HoldsSame(g, d0, d, d', i, off, src[..shown], kept);
    }
  }

  /** The disk after the transactions of a history that ends between two of them. */
  lemma StageReplay(g: Geo, disks: seq<Disk>, txs: seq<seq<Write>>, start: nat, h: seq<G.Event>) returns (j: nat)
    requires Chain(disks, txs, g) && start + LOGBLOCKS < g.inodestart && h <= Serial(txs) && G.OpenOps(h) == {}
    ensures j <= |txs| && G.Replay(Home(disks[0], start), h) == Home(disks[j], start)
    ensures h == Serial(txs) ==> j == |txs|
  {
    hide Transaction, G.Replay, G.OpenOps, Serial, Apply, Home;
    assert h == Serial(txs)[..|h|];
    j := CutBetween(disks[0], txs, |h|);
    assert forall k :: 0 <= k < j ==> disks[..j + 1][k] == disks[k] && txs[..j][k] == txs[k];
    SerialReplay(disks[..j + 1], txs[..j], g, start);
  }

  lemma SameHome(g: Geo, d: Disk, final: Disk, start: nat)
    requires Shape(Fs(g, d, map[])) && ValidLog(final, start) && Home(final, start) == Home(d, start)
    requires start + LOGBLOCKS < g.inodestart
    ensures Shape(Fs(g, final, map[])) && AgreeAbove(g, d, final)
  {
    hide Loggable;
    forall b | 0 <= b < g.size ensures b in final && (!InLog(start, b) ==> b in d && final[b] == d[b]) {
      if !InLog(start, b) {
        assert b in Home(d, start) && b in Home(final, start) && Home(d, start)[b] == Home(final, start)[b];
      }
    }
  }

  lemma HoldsShape(g: Geo, d0: Disk, d: Disk, i: nat, off: nat, x: seq<Byte>, n: nat)
    requires Holds(g, d0, d, i, off, x, n)
    ensures Shape(Fs(g, d0, map[])) && Shape(Fs(g, d, map[])) && Consistent(Fs(g, d, map[])) && i < g.ninodes
  {
    hide Consistent, NoHoles, Visible, OtherInodes, Ino, Shape;
  }

  /** Crash atomicity of filewrite. From any idle state on, the log sees the transactions of one write, in order,
      and as far as the write got. After a crash at any point of any such run, with recovery cut off any number of
      times, the disk is a consistent file system in which the file holds a whole number of chunks of the write,
      or all that the write kept, and in which nothing else has changed. */
  lemma WriteIsAtomic(s0: G.State, acts0: seq<G.Action>, s1: G.State, acts: seq<G.Action>, s: G.State,
                      h: seq<G.Event>, cuts: seq<nat>,
                      g: Geo, disks: seq<Disk>, txs: seq<seq<Write>>, i: nat, off: nat, src: seq<Byte>,
                      kept: nat, shown: nat)
    requires G.Init(s0) && G.Run(s0, acts0, s1) && s1.phase.Running? && s1.open == map[] && G.Run(s1, acts, s)
    requires Stages(g, disks, txs, i, off, src, kept, shown) && s.start + LOGBLOCKS < g.inodestart
    requires s1.cur == Home(disks[0], s.start) && s.hist == s1.hist + h && h <= Serial(txs)
    ensures ValidLog(s.disk, s.start)
    ensures var retried := CutRecoveries(s.disk, s.start, cuts);
            var final := Apply(retried, RecoveryWrites(retried, s.start));
            exists j :: 0 <= j <= |txs| && Stage(g, disks[0], final, i, off, src, kept, shown, j, |txs|)
                        && (h == Serial(txs) && s.durable == |s.hist| ==> j == |txs|)
  {
    hide Stages, Holds, Stage, G.Replay, G.OpenOps, Serial, Apply, G.Run, G.Init, ValidLog, Home, Chain, Shape;
    var h' := G.SafetyFromIdle(s0, acts0, s1, acts, s, cuts);
    var retried := CutRecoveries(s.disk, s.start, cuts);
    var final := Apply(retried, RecoveryWrites(retried, s.start));
    CutLater(s.hist, s1.hist, h, s.durable, h');
    StageIs(g, disks, txs, i, off, src, kept, shown, 0);
    var j := StageReplay(g, disks, txs, s.start, h');
    StageIs(g, disks, txs, i, off, src, kept, shown, j);
    var x, n :| Holds(g, disks[0], disks[j], i, off, x, n);
    HoldsShape(g, disks[0], disks[j], i, off, x, n);
    SameHome(g, disks[j], final, s.start);
    StageSame(g, disks[0], disks[j], final, i, off, src, kept, shown, j, |txs|);
  }

  lemma CutLater(hist: seq<G.Event>, h1: seq<G.Event>, h: seq<G.Event>, n: nat, h': seq<G.Event>)
    requires hist == h1 + h && n <= |hist| && hist[..n] == h1 + h'
    ensures h' <= h && (n == |hist| ==> h' == h)
  {
    assert |h'| <= |h|;
    assert h' == hist[..n][|h1|..];
    assert h' == h[..|h'|];
  }

  /** Such runs exist: from boot, every write whose transactions each begin a log group of their own runs to its
      end, and then all of it is durable. */
  lemma WriteRuns(s0: G.State, g: Geo, disks: seq<Disk>, txs: seq<seq<Write>>, i: nat, off: nat, src: seq<Byte>,
                  kept: nat, shown: nat)
    returns (acts0: seq<G.Action>, s1: G.State, acts: seq<G.Action>, s: G.State)
    requires G.Init(s0) && Stages(g, disks, txs, i, off, src, kept, shown)
    requires s0.start + LOGBLOCKS < g.inodestart && s0.base == Home(disks[0], s0.start)
    requires forall k :: 0 <= k < |txs| ==> |Targets(txs[k])| <= MAXOPBLOCKS
    requires forall b :: b in s0.base ==> b < 0x8000_0000
    ensures G.Run(s0, acts0, s1) && s1.phase.Running? && s1.open == map[] && G.Run(s1, acts, s)
    ensures s1.cur == Home(disks[0], s.start) && s.hist == s1.hist + Serial(txs) && s.durable == |s.hist|
  {
    hide G.Inv, G.Run, G.Init, Targets, Serial, Transaction, Stages, Chain;
    acts0, s1 := G.Boot(s0);
    StageIs(g, disks, txs, i, off, src, kept, shown, 0);
    forall k | 0 <= k < |txs| ensures Runnable(s1.cur.Keys, txs[k]) {
      ChainTargets(disks, txs, g, s0.start, k);
    }
    acts, s := SerialRuns(s1, txs);
    G.RunFixes(s1, acts, s);
  }

  lemma {:induction false} ChainKeys(disks: seq<Disk>, txs: seq<seq<Write>>, g: Geo, k: nat)
    requires Chain(disks, txs, g) && k <= |txs|
    ensures disks[k].Keys == disks[0].Keys
  {
    if k > 0 {
      ChainKeys(disks, txs, g, k - 1);
      assert Transaction(g, disks[k - 1], txs[k - 1], disks[k - 1 + 1]);
      ApplyKeys(disks[k - 1], txs[k - 1]);
    }
  }

  lemma {:induction false} ApplyKeys(d: Disk, tx: seq<Write>)
    requires forall k :: 0 <= k < |tx| ==> tx[k].b in d
    ensures Apply(d, tx).Keys == d.Keys
  {
    if tx != [] {
      ApplyKeys(d, tx[..|tx| - 1]);
    }
  }

  lemma ChainTargets(disks: seq<Disk>, txs: seq<seq<Write>>, g: Geo, start: nat, k: nat)
    requires Chain(disks, txs, g) && start + LOGBLOCKS < g.inodestart && k < |txs|
    ensures forall n :: 0 <= n < |txs[k]| ==> txs[k][n].b in Home(disks[0], start)
  {
    ChainKeys(disks, txs, g, k);
    assert Transaction(g, disks[k], txs[k], disks[k + 1]);
    forall n | 0 <= n < |txs[k]| ensures txs[k][n].b in Home(disks[0], start) {
      assert txs[k][n].b in disks[0].Keys;
    }
  }

  // ----- the same among other operations -----

  /** The events of the operations below m, or of the others. */
  function Of(h: seq<G.Event>, m: nat, mine: bool): (r: seq<G.Event>) {
    if h == [] then []
    else
      var r, e := Of(h[..|h| - 1], m, mine), h[|h| - 1];
      if (e.op < m) == mine then r + [e] else r
  }

  lemma OfNext(h: seq<G.Event>, m: nat, mine: bool, e: G.Event)
    ensures Of(h + [e], m, mine) == if (e.op < m) == mine then Of(h, m, mine) + [e] else Of(h, m, mine)
  {
    assert (h + [e])[..|h + [e]| - 1] == h;
  }

  lemma {:induction false} OfPrefix(h: seq<G.Event>, h': seq<G.Event>, m: nat, mine: bool)
    requires h' <= h
    ensures Of(h', m, mine) <= Of(h, m, mine)
  {
    if h' != h {
      var f := h[..|h| - 1];
      OfPrefix(f, h', m, mine);
    }
  }

  lemma {:induction false} OfOpen(h: seq<G.Event>, m: nat, mine: bool)
    ensures forall op :: op in G.OpenOps(Of(h, m, mine)) <==> op in G.OpenOps(h) && (op < m) == mine
  {
    if h != [] {
      var f, e := h[..|h| - 1], h[|h| - 1];
      OfOpen(f, m, mine);
      assert h == f + [e];
      hide Of, G.OpenOps, G.Replay;
      OfNext(f, m, mine, e);
      G.ReplayNext(map[], f, e);
      G.ReplayNext(map[], Of(f, m, mine), e);
    }
  }

  /** Some operation of the other kind stores to block b. */
  ghost predicate StoredBy(h: seq<G.Event>, m: nat, mine: bool, b: nat) {
    exists k :: 0 <= k < |h| && h[k].Store? && (h[k].op < m) == mine && h[k].b == b
  }

  /** A block that only one kind of operation stores to has what those operations leave in it. */
  lemma {:induction false} OfReplay(base: Disk, h: seq<G.Event>, m: nat, mine: bool, b: nat)
    requires !StoredBy(h, m, !mine, b) && b in base
    ensures b in G.Replay(base, h) && b in G.Replay(base, Of(h, m, mine))
    ensures G.Replay(base, h)[b] == G.Replay(base, Of(h, m, mine))[b]
  {
    if h != [] {
      var f, e := h[..|h| - 1], h[|h| - 1];
      assert !StoredBy(f, m, !mine, b);
      OfReplay(base, f, m, mine, b);
      assert h == f + [e];
      OfNext(f, m, mine, e);
      G.ReplayNext(base, f, e);
      G.ReplayNext(base, Of(f, m, mine), e);
      assert h[|h| - 1] == e;
    }
  }

  /** Some transaction of the write writes block b. */
  ghost predicate Touches(txs: seq<seq<Write>>, b: nat) {
    exists k, n :: 0 <= k < |txs| && 0 <= n < |txs[k]| && txs[k][n].b == b
  }

  lemma {:induction false} SerialStores(txs: seq<seq<Write>>, k: nat)
    requires k < |Serial(txs)| && Serial(txs)[k].Store?
    ensures Touches(txs, Serial(txs)[k].b)
  {
    var m := |txs| - 1;
    var front := Serial(txs[..m]);
    if k < |front| {
      SerialStores(txs[..m], k);
      var x, n :| 0 <= x < m && 0 <= n < |txs[..m][x]| && txs[..m][x][n].b == front[k].b;
      assert txs[x][n].b == Serial(txs)[k].b;
    } else {
      assert txs[m][k - |front| - 1].b == Serial(txs)[k].b;
    }
  }

  lemma {:induction false} OfStores(h: seq<G.Event>, m: nat, mine: bool, k: nat) returns (n: nat)
    requires k < |h| && (h[k].op < m) == mine
    ensures n < |Of(h, m, mine)| && Of(h, m, mine)[n] == h[k]
  {
    var f := h[..|h| - 1];
    if k == |h| - 1 {
      n := |Of(f, m, mine)|;
    } else {
      n := OfStores(f, m, mine, k);
    }
  }

  /** The write's own stores go to the blocks of its transactions. */
  lemma MineTouch(h: seq<G.Event>, txs: seq<seq<Write>>, b: nat)
    requires Of(h, |txs|, true) <= Serial(txs) && StoredBy(h, |txs|, true, b)
    ensures Touches(txs, b)
  {
    hide Serial, Of;
    var k :| 0 <= k < |h| && h[k].Store? && (h[k].op < |txs|) == true && h[k].b == b;
    var n := OfStores(h, |txs|, true, k);
    assert Serial(txs)[n] == Of(h, |txs|, true)[n];
    SerialStores(txs, n);
  }

  /** Block b holds the inode of file i on disk d, or is one of its blocks. */
  ghost predicate OfFile(g: Geo, d: Disk, i: nat, b: nat) {
    var a := Fs(g, d, map[]);
    && Shape(a) && i < g.ninodes
    && (b == IBlock(g, i) || exists y :: ValidSlot(g, y) && y.i == i && b != 0 && Addr(a, y) == b)
  }

  /** File i is the same on two disks: its inode, the blocks it names, and every byte. */
  ghost predicate SameFile(g: Geo, d: Disk, d': Disk, i: nat) {
    var a, b := Fs(g, d, map[]), Fs(g, d', map[]);
    && Shape(a) && Shape(b) && i < g.ninodes && Ino(b, i) == Ino(a, i)
    && (forall bn | 0 <= bn < MAXFILE :: Addr(b, SlotOf(i, bn)) == Addr(a, SlotOf(i, bn)))
    && forall p | 0 <= p < MAXFILE * BSIZE :: Raw(b, i, p) == Raw(a, i, p)
  }

  lemma FileSame(g: Geo, d: Disk, d': Disk, i: nat)
    requires Consistent(Fs(g, d, map[])) && Shape(Fs(g, d', map[])) && i < g.ninodes
    requires forall b :: OfFile(g, d, i, b) ==> b in d && b in d' && d'[b] == d[b]
    ensures SameFile(g, d, d', i)
  {
    hide GetInode, GetWord, Exclusive, BitmapOk;
    var a, b := Fs(g, d, map[]), Fs(g, d', map[]);
    var owner :| Own(a, owner, {}, {});
    IBlockBelow(g, i);
    assert OfFile(g, d, i, IBlock(g, i));
    assert Ino(b, i) == Ino(a, i);
    PointerIsOwned(a, owner, {}, {}, i);
    var p := Addr(a, IndPtr(i));
    assert p != 0 ==> OfFile(g, d, i, p);
    forall bn | 0 <= bn < MAXFILE ensures Addr(b, SlotOf(i, bn)) == Addr(a, SlotOf(i, bn)) {
    }
    forall q | 0 <= q < MAXFILE * BSIZE ensures Raw(b, i, q) == Raw(a, i, q) {
      SlotSame(g, d, d', owner, i, q / BSIZE);
    }
  }

  lemma SlotSame(g: Geo, d: Disk, d': Disk, owner: Owner, i: nat, bn: nat)
    requires Own(Fs(g, d, map[]), owner, {}, {}) && i < g.ninodes && bn < MAXFILE
    requires forall b :: OfFile(g, d, i, b) ==> b in d && b in d' && d'[b] == d[b]
    ensures var a := Addr(Fs(g, d, map[]), SlotOf(i, bn)); a != 0 ==> a in d && a in d' && d'[a] == d[a]
  {
    hide Addr, Exclusive, BitmapOk;
    var y := SlotOf(i, bn);
    assert ValidSlot(g, y) && y.i == i;
    assert Addr(Fs(g, d, map[]), y) != 0 ==> OfFile(g, d, i, Addr(Fs(g, d, map[]), y));
  }

  /** The others store to no block that the write touches, and to none that is the file's at any stage. */
  ghost predicate Apart(g: Geo, disks: seq<Disk>, txs: seq<seq<Write>>, i: nat, h: seq<G.Event>) {
    forall b :: StoredBy(h, |txs|, false, b) ==>
      !Touches(txs, b) && forall k | 0 <= k < |disks| :: !OfFile(g, disks[k], i, b)
  }

  /** Home block b is what the write has left in it if the write touches it, and what the others have otherwise. */
  ghost predicate Merged(home: Disk, mine: Disk, theirs: Disk, txs: seq<seq<Write>>, b: nat) {
    b in home && if Touches(txs, b) then b in mine && home[b] == mine[b] else b in theirs && home[b] == theirs[b]
  }

  /** Atomicity among other operations, in the same log groups or others: operations 0 to |txs| - 1 are the write,
      and all other operations may do anything at any time, as long as they stay away from its blocks. Of the
      write a whole number of transactions is recovered, file i is exactly as they left it, and every other block
      is as the others left it that had ended by then. */
  lemma WriteAmongOthers(s0: G.State, acts0: seq<G.Action>, s1: G.State, acts: seq<G.Action>, s: G.State,
                         h: seq<G.Event>, cuts: seq<nat>,
                         g: Geo, disks: seq<Disk>, txs: seq<seq<Write>>, i: nat, off: nat, src: seq<Byte>,
                         kept: nat, shown: nat)
    returns (past: seq<G.Event>, j: nat)
    requires G.Init(s0) && G.Run(s0, acts0, s1) && s1.phase.Running? && s1.open == map[] && G.Run(s1, acts, s)
    requires Stages(g, disks, txs, i, off, src, kept, shown) && s.start + LOGBLOCKS < g.inodestart
    requires s1.cur == Home(disks[0], s.start) && s.hist == s1.hist + h && Of(h, |txs|, true) <= Serial(txs)
    requires Apart(g, disks, txs, i, h)
    ensures past <= h && G.OpenOps(past) == {} && (s.durable == |s.hist| ==> past == h)
    ensures j <= |txs| && Stage(g, disks[0], disks[j], i, off, src, kept, shown, j, |txs|)
    ensures Of(past, |txs|, true) == Serial(txs) ==> j == |txs|
    ensures ValidLog(s.disk, s.start)
    ensures var retried := CutRecoveries(s.disk, s.start, cuts);
            var final := Apply(retried, RecoveryWrites(retried, s.start));
            && SameFile(g, disks[j], final, i)
            && forall b | b in s1.cur ::
                 Merged(final, disks[j], G.Replay(s1.cur, Of(past, |txs|, false)), txs, b)
  {
    hide Stages, Holds, Stage, G.Replay, G.OpenOps, Serial, Apply, G.Run, G.Init, ValidLog, Home, Chain, Shape, Of;
    hide SameFile, Merged, Apart, Consistent;
    past := G.SafetyFromIdle(s0, acts0, s1, acts, s, cuts);
    var retried := CutRecoveries(s.disk, s.start, cuts);
    var final := Apply(retried, RecoveryWrites(retried, s.start));
    CutLater(s.hist, s1.hist, h, s.durable, past);
    OfPrefix(h, past, |txs|, true);
    OfOpen(past, |txs|, true);
    StageIs(g, disks, txs, i, off, src, kept, shown, 0);
    j := StageReplay(g, disks, txs, s.start, Of(past, |txs|, true));
    StageIs(g, disks, txs, i, off, src, kept, shown, j);
    var x, n :| Holds(g, disks[0], disks[j], i, off, x, n);
    HoldsShape(g, disks[0], disks[j], i, off, x, n);
    ApartPrefix(g, disks, txs, i, h, past);
    forall b | b in s1.cur
      ensures Merged(final, disks[j], G.Replay(s1.cur, Of(past, |txs|, false)), txs, b)
    {
      MergedAt(g, disks, txs, i, past, j, final, s.start, b);
    }
    MergedFile(g, disks, txs, i, past, j, final, s.start);
  }

  lemma ApartPrefix(g: Geo, disks: seq<Disk>, txs: seq<seq<Write>>, i: nat, h: seq<G.Event>, past: seq<G.Event>)
    requires Apart(g, disks, txs, i, h) && past <= h
    ensures Apart(g, disks, txs, i, past)
  {
    hide Touches, OfFile;
    forall b | StoredBy(past, |txs|, false, b) ensures StoredBy(h, |txs|, false, b) {
      var k :| 0 <= k < |past| && past[k].Store? && (past[k].op < |txs|) == false && past[k].b == b;
      assert h[k] == past[k];
    }
  }

  /** What a recovered history leaves in one block that only the write stores to. */
  lemma MineAt(d0: Disk, d: Disk, final: Disk, txs: seq<seq<Write>>, past: seq<G.Event>, start: nat, b: nat)
    requires Home(final, start) == G.Replay(Home(d0, start), past)
    requires G.Replay(Home(d0, start), Of(past, |txs|, true)) == Home(d, start)
    requires b in Home(d0, start) && !StoredBy(past, |txs|, false, b)
    ensures b in final && b in d && final[b] == d[b]
  {
    hide G.Replay, Of, StoredBy;
    OfReplay(Home(d0, start), past, |txs|, true, b);
    assert b in Home(final, start) && b in Home(d, start) && Home(final, start)[b] == Home(d, start)[b];
  }

  lemma MergedAt(g: Geo, disks: seq<Disk>, txs: seq<seq<Write>>, i: nat, past: seq<G.Event>, j: nat, final: Disk,
                 start: nat, b: nat)
    requires Apart(g, disks, txs, i, past) && 0 <= j < |disks| && Of(past, |txs|, true) <= Serial(txs)
    requires Home(final, start) == G.Replay(Home(disks[0], start), past)
    requires G.Replay(Home(disks[0], start), Of(past, |txs|, true)) == Home(disks[j], start)
    requires b in Home(disks[0], start)
    ensures Merged(final, disks[j], G.Replay(Home(disks[0], start), Of(past, |txs|, false)), txs, b)
  {
    hide G.Replay, Of, StoredBy, Serial, OfFile, Touches;
    if Touches(txs, b) {
      MineAt(disks[0], disks[j], final, txs, past, start, b);
    } else {
      if StoredBy(past, |txs|, true, b) { MineTouch(past, txs, b); }
      OfReplay(Home(disks[0], start), past, |txs|, false, b);
      assert b in Home(final, start) && Home(final, start)[b] == final[b];
    }
  }

  lemma MergedFile(g: Geo, disks: seq<Disk>, txs: seq<seq<Write>>, i: nat, past: seq<G.Event>, j: nat, final: Disk,
                   start: nat)
    requires Apart(g, disks, txs, i, past) && 0 <= j < |disks| && start + LOGBLOCKS < g.inodestart
    requires Home(final, start) == G.Replay(Home(disks[0], start), past) && ValidLog(final, start)
    requires G.Replay(Home(disks[0], start), Of(past, |txs|, true)) == Home(disks[j], start)
    requires Shape(Fs(g, disks[0], map[])) && Consistent(Fs(g, disks[j], map[])) && i < g.ninodes
    ensures SameFile(g, disks[j], final, i)
  {
    hide G.Replay, Of, StoredBy, Touches, SameFile, Loggable;
    forall b | 0 <= b < g.size ensures b in final {
      if !InLog(start, b) { ReplayKeeps(Home(disks[0], start), past, b); assert b in Home(final, start); }
    }
    var owner :| Own(Fs(g, disks[j], map[]), owner, {}, {});
    forall b | OfFile(g, disks[j], i, b) ensures b in disks[j] && b in final && final[b] == disks[j][b] {
      OfFileAbove(g, disks[j], owner, i, b);
      MineAt(disks[0], disks[j], final, txs, past, start, b);
    }
    FileSame(g, disks[j], final, i);
  }

  lemma OfFileAbove(g: Geo, d: Disk, owner: Owner, i: nat, b: nat)
    requires Own(Fs(g, d, map[]), owner, {}, {}) && OfFile(g, d, i, b)
    ensures g.inodestart <= b < g.size
  {
    hide Addr, Exclusive, BitmapOk;
    IBlockBelow(g, i);
    if b != IBlock(g, i) {
      var y :| ValidSlot(g, y) && y.i == i && b != 0 && Addr(Fs(g, d, map[]), y) == b;
      SlotIsOwned(Fs(g, d, map[]), owner, y);
    }
  }

  lemma {:induction false} ReplayKeeps(base: Disk, h: seq<G.Event>, b: nat)
    requires b in base
    ensures b in G.Replay(base, h)
  {
    if h != [] {
      ReplayKeeps(base, h[..|h| - 1], b);
    }
  }
}
