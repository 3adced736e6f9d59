/** Whole runs of the log: any number of concurrent operations, group commit,
    crashes between any two block writes, interrupted recoveries, and sys_sync.
    Each action is one step under `log.lock`, or one block write. */
module GroupCommit {
  import opened Basics
  import opened Blocks
  import opened LogFormat
  import BufferCache
  import L = Log

  type Op = nat

  datatype Event = Begin(op: Op) | Store(op: Op, b: nat, data: Block) | End(op: Op)

  datatype Phase =
    | Running
    | Committing(d0: Disk, k: nat)    // k block writes of commit() done, started on disk d0
    | Recovering(d0: Disk, k: nat)    // k block writes of recover_from_log() done

  /** A process inside sys_sync: the commit count it waits for, and how much
      history there was when it called. */
  datatype Waiter = Waiter(target: nat, mark: nat)

  datatype State = State(
    start: nat,
    disk: Disk,
    cur: Disk,                  // latest contents of every home block, except changes that the log never gets
    lh: seq<nat>,               // logged block numbers
    open: map<Op, nat>,         // open operations and how many new blocks each logged
    phase: Phase,
    ncommit: nat,
    waiters: map<nat, Waiter>,
    base: Disk,                 // home blocks at the start of the history
    hist: seq<Event>,           // everything that happened and was not lost
    durable: nat)               // how much of hist the last commit covers

  // ----- histories -----

  /** The home blocks after the stores of a history. */
  function Replay(base: Disk, hist: seq<Event>): (r: Disk)
  {
    if hist == [] then base
    else
      var e, r := hist[|hist| - 1], Replay(base, hist[..|hist| - 1]);
      if e.Store? then r[e.b := e.data] else r
  }

  function OpenOps(hist: seq<Event>): (r: set<Op>)
  {
    if hist == [] then {}
    else
      var e, r := hist[|hist| - 1], OpenOps(hist[..|hist| - 1]);
      match e case Begin(op) => r + {op} case End(op) => r - {op} case Store(_, _, _) => r
  }

  /** Stores happen inside open operations, on blocks of the disk. */
  ghost predicate WellFormed(base: Disk, hist: seq<Event>) {
    forall i :: 0 <= i < |hist| && hist[i].Store? ==> hist[i].b in base && hist[i].op in OpenOps(hist[..i])
  }

  lemma ReplayNothing(base: Disk)
    ensures Replay(base, []) == base
  {
  }

  lemma ReplayNext(base: Disk, hist: seq<Event>, e: Event)
    ensures Replay(base, hist + [e]) == if e.Store? then Replay(base, hist)[e.b := e.data] else Replay(base, hist)
    ensures OpenOps(hist + [e]) == match e case Begin(op) => OpenOps(hist) + {op}
                                           case End(op) => OpenOps(hist) - {op}
                                           case Store(_, _, _) => OpenOps(hist)
  {
    assert (hist + [e])[..|hist + [e]| - 1] == hist;
  }

  /** A history goes on from where the one before it ended. */
  lemma {:induction false} ReplayFrom(base: Disk, h1: seq<Event>, h2: seq<Event>)
    ensures Replay(base, h1 + h2) == Replay(Replay(base, h1), h2)
    ensures OpenOps(h1) == {} ==> OpenOps(h1 + h2) == OpenOps(h2)
  {
    if h2 == [] {
      assert h1 + h2 == h1;
    } else {
      var h, e := h2[..|h2| - 1], h2[|h2| - 1];
      ReplayFrom(base, h1, h);
      assert h1 + h2 == h1 + h + [e];
      ReplayNext(base, h1 + h, e);
    }
  }

  lemma WellFormedPrefix(base: Disk, hist: seq<Event>, n: nat)
    requires WellFormed(base, hist) && n <= |hist|
    ensures WellFormed(base, hist[..n])
  {
    assert forall i :: 0 <= i < n ==> hist[..n][..i] == hist[..i];
  }

  lemma WellFormedNext(base: Disk, hist: seq<Event>, e: Event)
    requires WellFormed(base, hist)
    requires e.Store? ==> e.b in base && e.op in OpenOps(hist)
    ensures WellFormed(base, hist + [e])
  {
    forall i | 0 <= i < |hist| + 1 && (hist + [e])[i].Store?
      ensures (hist + [e])[i].b in base && (hist + [e])[i].op in OpenOps((hist + [e])[..i])
    {
      assert (hist + [e])[..i] == hist[..i];
    }
  }

  /** In a history with no open operation, every store is followed by the end of
      its operation: nothing of an unfinished operation is in it. */
  lemma {:induction false} StoresAreFinished(base: Disk, hist: seq<Event>, i: nat)
    requires WellFormed(base, hist) && i < |hist| && hist[i].Store?
    requires hist[i].op !in OpenOps(hist)
    ensures exists j :: i < j < |hist| && hist[j] == End(hist[i].op)
  {
    var m := |hist| - 1;
    if i == m {
      assert false;
    } else if hist[m] != End(hist[i].op) {
      var h := hist[..m];
      assert WellFormed(base, h) by {
        assert forall j :: 0 <= j < |h| ==> h[..j] == hist[..j];
      }
      StoresAreFinished(base, h, i);
      var j :| i < j < |h| && h[j] == End(h[i].op);
      assert hist[j] == End(hist[i].op);
    }
  }

  // ----- reservations -----

  /** Log entries promised to open operations and not yet used. */
  ghost function Unused(open: map<Op, nat>): (r: int)
  {
    if open == map[] then 0
    else
      var op :| op in open;
      MAXOPBLOCKS - open[op] + Unused(open - {op})
  }

  lemma {:induction false} UnusedOf(open: map<Op, nat>, op: Op)
    requires op in open
    ensures Unused(open) == MAXOPBLOCKS - open[op] + Unused(open - {op})
    decreases open
  {
    var x :| x in open && Unused(open) == MAXOPBLOCKS - open[x] + Unused(open - {x});
    if x != op {
      UnusedOf(open - {x}, op);
      UnusedOf(open - {op}, x);
      assert open - {x} - {op} == open - {op} - {x};
    }
  }

  lemma UnusedSet(open: map<Op, nat>, op: Op, n: nat)
    ensures Unused(open[op := n]) == MAXOPBLOCKS - n + Unused(open - {op})
    ensures op !in open ==> open - {op} == open
  {
    UnusedOf(open[op := n], op);
    assert open[op := n] - {op} == open - {op};
    assert op !in open ==> open - {op} == open;
  }

  lemma {:induction false} UnusedBounds(open: map<Op, nat>)
    requires forall op :: op in open ==> open[op] <= MAXOPBLOCKS
    ensures 0 <= Unused(open) <= |open| * MAXOPBLOCKS
    decreases open
  {
    if open != map[] {
      var op :| op in open && Unused(open) == MAXOPBLOCKS - open[op] + Unused(open - {op});
      UnusedBounds(open - {op});
      assert |open - {op}| == |open| - 1;
    }
  }

  // ----- actions -----

  datatype Action =
    | BeginOp(op: Op)
    | LogWrite(op: Op, b: nat, data: Block)
    | Scribble(op: Op, b: nat, data: Block)   // a change without log_write
    | EndOp(op: Op)
    | CommitWrite
    | CommitDone
    | Crash
    | RecoveryWrite
    | RecoveryDone
    | SyncCall(p: nat)
    | SyncReturn(p: nat)

  predicate Copyable(lh: seq<nat>, cur: Disk) {
    |lh| <= LOGBLOCKS && forall i :: 0 <= i < |lh| ==> lh[i] in cur && lh[i] < 0x8000_0000
  }

  ghost predicate HasWrites(s: State) {
    match s.phase
    case Running => false
    case Committing(d0, _) => s.start in d0 && Copyable(s.lh, s.cur)
    case Recovering(d0, _) => ValidLog(d0, s.start)
  }

  /** The block writes of the commit or recovery under way. */
  ghost function Writes(s: State): (ws: seq<Write>)
    requires HasWrites(s)
  {
    if s.phase.Committing? then CommitWrites(s.phase.d0[s.start], s.start, s.lh, s.cur)
    else RecoveryWrites(s.phase.d0, s.start)
  }

  /** When an action can happen. An operation logs at most MAXOPBLOCKS new blocks;
      a log_write that would panic is not a step. A commit needs a buffer besides the
      pinned ones, or its first bread panics. */
  ghost predicate Enabled(s: State, a: Action) {
    match a
    case BeginOp(op) => s.phase.Running? && op !in s.open && L.Admits(|s.lh|, |s.open|)
    case LogWrite(op, b, _) =>
      && s.phase.Running? && op in s.open && b in s.cur && b < 0x8000_0000
      && (b in s.lh || s.open[op] < MAXOPBLOCKS)
      && L.LogOutcome(|s.lh|, |s.open|) == L.Recorded
    case Scribble(op, b, _) => s.phase.Running? && op in s.open && b in s.cur
    case EndOp(op) => s.phase.Running? && op in s.open
    case CommitWrite =>
      s.phase.Committing? && HasWrites(s) && s.phase.k < |Writes(s)| && |s.lh| < BufferCache.NBUF
    case CommitDone => s.phase.Committing? && HasWrites(s) && s.phase.k == |Writes(s)|
    case Crash => s.durable <= |s.hist|
    case RecoveryWrite => s.phase.Recovering? && HasWrites(s) && s.phase.k < |Writes(s)|
    case RecoveryDone => s.phase.Recovering? && HasWrites(s) && s.phase.k == |Writes(s)|
    case SyncCall(p) => !s.phase.Recovering? && p !in s.waiters
    case SyncReturn(p) => p in s.waiters && s.waiters[p].target <= s.ncommit
  }

  /** sys_sync returns at once unless a commit or an operation is under way. */
  predicate SyncMustWait(s: State) { s.phase.Committing? || s.open != map[] }

  ghost function Do(s: State, a: Action): (s': State)
    requires Enabled(s, a)
  {
    match a
    case BeginOp(op) => s.(open := s.open[op := 0], hist := s.hist + [Begin(op)])
    case LogWrite(op, b, data) =>
      s.(cur := s.cur[b := data],
         lh := L.Absorb(s.lh, b),
         open := if b in s.lh then s.open else s.open[op := s.open[op] + 1],
         hist := s.hist + [Store(op, b, data)])
    case Scribble(op, b, data) =>
      if b in s.lh then s.(cur := s.cur[b := data], hist := s.hist + [Store(op, b, data)]) else s
    case EndOp(op) =>
      var s' := s.(open := s.open - {op}, hist := s.hist + [End(op)]);
      if s'.open != map[] then s'
      else s'.(phase := Committing(s.disk, 0), durable := if s.lh == [] then |s'.hist| else s.durable)
    case CommitWrite =>
      var w := Writes(s)[s.phase.k];
      s.(disk := s.disk[w.b := w.data],
         phase := Committing(s.phase.d0, s.phase.k + 1),
         durable := if s.phase.k == |s.lh| then |s.hist| else s.durable)
    case CommitDone => s.(phase := Running, lh := [], ncommit := s.ncommit + 1)
    case Crash =>
      s.(cur := map[], lh := [], open := map[], phase := Recovering(s.disk, 0), ncommit := 0, waiters := map[],
         hist := s.hist[..s.durable])
    case RecoveryWrite =>
      var w := Writes(s)[s.phase.k];
      s.(disk := s.disk[w.b := w.data], phase := Recovering(s.phase.d0, s.phase.k + 1))
    case RecoveryDone => s.(phase := Running, cur := Home(s.disk, s.start))
    case SyncCall(p) =>
      if SyncMustWait(s) then s.(waiters := s.waiters[p := Waiter(s.ncommit + 1, |s.hist|)]) else s
    case SyncReturn(p) => s.(waiters := s.waiters - {p})
  }

  // ----- the invariant -----

  /** `cur` differs from the home blocks `h` only where something is logged. */
  predicate Agree(h: Disk, cur: Disk, lh: seq<nat>) {
    h.Keys == cur.Keys && forall b :: b in h && b !in lh ==> cur[b] == h[b]
  }

  ghost predicate HistoryOk(s: State) {
    && WellFormed(s.base, s.hist)
    && s.durable <= |s.hist|
    && OpenOps(s.hist) == s.open.Keys
    && OpenOps(s.hist[..s.durable]) == {}
  }

  ghost predicate RunningOk(s: State) {
    && s.start in s.disk && GetWord(s.disk[s.start], 0) == 0
    && s.cur == Replay(s.base, s.hist)
    && Loggable(s.disk.Keys, s.start, s.lh)
    && Agree(Home(s.disk, s.start), s.cur, s.lh)
    && (forall op :: op in s.open ==> s.open[op] <= MAXOPBLOCKS)
    && |s.lh| + Unused(s.open) <= LOGBLOCKS
    && (s.open == map[] ==> s.lh == [] && s.durable == |s.hist|)
  }

  ghost predicate CommittingOk(s: State)
    requires s.phase.Committing? && s.durable <= |s.hist|
  {
    var d0 := s.phase.d0;
    && ValidLog(d0, s.start) && GetWord(d0[s.start], 0) == 0
    && s.open == map[]
    && s.cur == Replay(s.base, s.hist)
    && Loggable(d0.Keys, s.start, s.lh)
    && Agree(Home(d0, s.start), s.cur, s.lh)
    && HasWrites(s)
    && s.phase.k <= |Writes(s)|
    && s.disk == Apply(d0, Writes(s)[..s.phase.k])
    && Home(d0, s.start).Keys == s.base.Keys
    && (s.durable == |s.hist| || (s.phase.k <= |s.lh| && Home(d0, s.start) == Replay(s.base, s.hist[..s.durable])))
    && (s.lh == [] || s.phase.k > |s.lh| ==> s.durable == |s.hist|)
    && (|s.lh| >= BufferCache.NBUF ==> s.phase.k == 0)
  }

  ghost predicate RecoveringOk(s: State)
    requires s.phase.Recovering?
  {
    && ValidLog(s.phase.d0, s.start)
    && s.open == map[] && s.lh == [] && s.durable == |s.hist|
    && s.phase.k <= |Writes(s)|
    && s.disk == Apply(s.phase.d0, Writes(s)[..s.phase.k])
  }

  ghost predicate WaitersOk(s: State) {
    forall p :: p in s.waiters ==>
      && s.waiters[p].mark <= |s.hist|
      && (s.waiters[p].target <= s.ncommit ==> s.waiters[p].mark <= s.durable)
  }

  ghost predicate Inv(s: State) {
    && ValidLog(s.disk, s.start)
    && Home(s.disk, s.start).Keys == s.base.Keys
    && HistoryOk(s)
    && Recovered(s.disk, s.start) == Replay(s.base, s.hist[..s.durable])
    && WaitersOk(s)
    && (s.phase.Running? ==> RunningOk(s))
    && (s.phase.Committing? ==> CommittingOk(s))
    && (s.phase.Recovering? ==> RecoveringOk(s))
  }

  // ----- the invariant is kept -----

  lemma BeginIs(s: State, op: Op)
    requires Enabled(s, BeginOp(op))
    ensures s.phase.Running? && op !in s.open && L.Admits(|s.lh|, |s.open|)
    ensures Do(s, BeginOp(op)) == s.(open := s.open[op := 0], hist := s.hist + [Begin(op)])
  {
    hide L.Admits;
  }

  lemma BeginHistory(s: State, op: Op)
    requires HistoryOk(s) && WaitersOk(s)
    ensures var s' := s.(open := s.open[op := 0], hist := s.hist + [Begin(op)]);
            HistoryOk(s') && WaitersOk(s') && s'.hist[..s.durable] == s.hist[..s.durable]
  {
    hide WellFormed, Replay, OpenOps;
    ReplayNext(s.base, s.hist, Begin(op));
    WellFormedNext(s.base, s.hist, Begin(op));
    assert (s.hist + [Begin(op)])[..s.durable] == s.hist[..s.durable];
    assert s.open[op := 0].Keys == s.open.Keys + {op};
  }

  lemma BeginKeeps(s: State, op: Op)
    requires Inv(s) && Enabled(s, BeginOp(op))
    ensures Inv(Do(s, BeginOp(op)))
  {
    hide ValidLog, Recovered, Loggable, Agree, GetWord, Replay, OpenOps, Unused, Home, L.Admits, CommittingOk,
         RecoveringOk, Enabled, Do, WellFormed, WaitersOk;
    BeginIs(s, op);
    BeginHistory(s, op);
    ReplayNext(s.base, s.hist, Begin(op));
    BeginFits(s.lh, s.open, op);
  }

  lemma BeginFits(lh: seq<nat>, open: map<Op, nat>, op: Op)
    requires op !in open && L.Admits(|lh|, |open|)
    requires forall o :: o in open ==> open[o] <= MAXOPBLOCKS
    ensures |lh| + Unused(open[op := 0]) <= LOGBLOCKS
  {
    UnusedSet(open, op, 0);
    UnusedBounds(open);
  }

  lemma AbsorbLoggable(keys: set<nat>, start: nat, lh: seq<nat>, b: nat)
    requires Loggable(keys, start, lh) && b in keys && !InLog(start, b) && b < 0x8000_0000
    requires b in lh || |lh| < LOGBLOCKS
    ensures Loggable(keys, start, L.Absorb(lh, b))
    ensures |L.Absorb(lh, b)| == |lh| + if b in lh then 0 else 1
  {
  }

  lemma AbsorbAgree(h: Disk, cur: Disk, lh: seq<nat>, b: nat, data: Block)
    requires Agree(h, cur, lh) && b in cur
    ensures Agree(h, cur[b := data], L.Absorb(lh, b))
  {
    var lh' := L.Absorb(lh, b);
    assert b in lh' by { if b !in lh { assert lh'[|lh|] == b; } }
    assert forall x :: x in lh ==> x in lh';
    assert cur[b := data].Keys == cur.Keys;
  }

  lemma LogWriteKeeps(s: State, op: Op, b: nat, data: Block)
    requires Inv(s) && Enabled(s, LogWrite(op, b, data))
    ensures Inv(Do(s, LogWrite(op, b, data)))
  {
    hide ValidLog, Recovered, Loggable, Agree, GetWord, WellFormed, Replay, OpenOps, Unused, L.Absorb, Home;
    var e := Store(op, b, data);
    var s' := Do(s, LogWrite(op, b, data));
    LogWriteFits(s, op, b);
    ReplayNext(s.base, s.hist, e);
    WellFormedNext(s.base, s.hist, e);
    assert s'.hist[..s.durable] == s.hist[..s.durable];
    AbsorbLoggable(s.disk.Keys, s.start, s.lh, b);
    AbsorbAgree(Home(s.disk, s.start), s.cur, s.lh, b, data);
    if b !in s.lh {
      UnusedOf(s.open, op);
      UnusedSet(s.open, op, s.open[op] + 1);
    }
  }

  /** The buffer of a logged block is pinned, so commit writes the change; that of any other block is
      recycled, and the change is gone. */
  lemma ScribbleKeeps(s: State, op: Op, b: nat, data: Block)
    requires Inv(s) && Enabled(s, Scribble(op, b, data))
    ensures Inv(Do(s, Scribble(op, b, data)))
  {
    hide ValidLog, Recovered, Loggable, Agree, GetWord, WellFormed, Replay, OpenOps, Unused, Home;
    if b in s.lh {
      var e := Store(op, b, data);
      var s' := Do(s, Scribble(op, b, data));
      LogWriteFits(s, op, b);
      ReplayNext(s.base, s.hist, e);
      WellFormedNext(s.base, s.hist, e);
      assert s'.hist[..s.durable] == s.hist[..s.durable];
      AbsorbAgree(Home(s.disk, s.start), s.cur, s.lh, b, data);
    }
  }

  lemma LogWriteFits(s: State, op: Op, b: nat)
    requires Inv(s) && s.phase.Running? && b in s.cur
    ensures b in s.disk.Keys && !InLog(s.start, b) && b in s.base
  {
    assert b in Home(s.disk, s.start);
  }

  lemma EndKeeps(s: State, op: Op)
    requires Inv(s) && Enabled(s, EndOp(op))
    ensures Inv(Do(s, EndOp(op)))
  {
    hide ValidLog, Recovered, Loggable, Agree, GetWord, WellFormed, Replay, OpenOps, Unused, Home, Apply, CommitWrites;
    var s' := Do(s, EndOp(op));
    ReplayNext(s.base, s.hist, End(op));
    WellFormedNext(s.base, s.hist, End(op));
    assert s'.hist[..s.durable] == s.hist[..s.durable];
    UnusedOf(s.open, op);
    if s'.open == map[] {
      assert s'.hist[..|s'.hist|] == s'.hist;
      NothingWritten(s);
    }
  }

  /** Before commit's first block write the home blocks are those of the last commit. */
  lemma NothingWritten(s: State)
    requires Inv(s) && s.phase.Running?
    ensures Home(s.disk, s.start) == Replay(s.base, s.hist[..s.durable])
    ensures s.lh == [] ==> Home(s.disk, s.start) == s.cur
    ensures s.start in s.disk && Copyable(s.lh, s.cur)
    ensures Apply(s.disk, CommitWrites(s.disk[s.start], s.start, s.lh, s.cur)[..0]) == s.disk
  {
    EmptyLogRecovers(s.disk, s.start);
    forall i | 0 <= i < |s.lh| ensures s.lh[i] in s.cur {
      assert s.lh[i] in Home(s.disk, s.start);
    }
  }

  /** What the first k block writes of a commit leave on disk. */
  lemma CommitProgress(s: State, k: nat)
    requires s.phase.Committing? && s.durable <= |s.hist| && CommittingOk(s)
    requires k <= |Writes(s)|
    ensures var d := Apply(s.phase.d0, Writes(s)[..k]);
            && ValidLog(d, s.start)
            && Recovered(d, s.start) == (if k <= |s.lh| then Home(s.phase.d0, s.start) else s.cur)
            && Home(d, s.start).Keys == s.base.Keys
            && (k == |Writes(s)| ==> GetWord(d[s.start], 0) == 0 && Home(d, s.start) == s.cur)
  {
    hide Apply, CommitWrites, Loggable, Replay;
    CommitCut(s.phase.d0, s.start, s.lh, s.cur, k);
    OverlayAgrees(Home(s.phase.d0, s.start), s.lh, s.cur);
    RecoveredKeys(Apply(s.phase.d0, Writes(s)[..k]), s.start);
  }

  lemma OverlayAgrees(h: Disk, lh: seq<nat>, cur: Disk)
    requires Agree(h, cur, lh)
    ensures Overlay(h, lh, cur) == cur
    ensures lh == [] ==> h == cur
  {
  }

  lemma RecoveredKeys(d: Disk, start: nat)
    requires ValidLog(d, start)
    ensures Recovered(d, start).Keys == Home(d, start).Keys
    ensures ReadHeader(d[start]) == [] ==> GetWord(d[start], 0) == 0
  {
  }

  lemma CommitWriteKeeps(s: State)
    requires Inv(s) && Enabled(s, CommitWrite)
    ensures Inv(Do(s, CommitWrite))
  {
    hide ValidLog, Recovered, Loggable, Agree, GetWord, WellFormed, Replay, OpenOps, Home, Apply, CommitWrites;
    var s' := Do(s, CommitWrite);
    var k := s.phase.k;
    NextPrefix(s.phase.d0, Writes(s), k);
    CommitProgress(s, k);
    CommitProgress(s, k + 1);
    assert s.hist[..|s.hist|] == s.hist;
  }

  lemma NextPrefix(d: Disk, ws: seq<Write>, k: nat)
    requires k < |ws|
    ensures Apply(d, ws[..k + 1]) == Apply(d, ws[..k])[ws[k].b := ws[k].data]
  {
    assert ws[..k + 1] == ws[..k] + [ws[k]];
    ApplySnoc(d, ws[..k], ws[k]);
  }

  lemma CommitDoneKeeps(s: State)
    requires Inv(s) && Enabled(s, CommitDone)
    ensures Inv(Do(s, CommitDone))
  {
    hide ValidLog, Recovered, GetWord, WellFormed, Replay, OpenOps, Home, Apply, CommitWrites;
    CommitProgress(s, s.phase.k);
    LogIsThere(s.disk, s.start);
    CommitLength(s);
  }

  lemma CommitLength(s: State)
    requires s.phase.Committing? && s.durable <= |s.hist| && CommittingOk(s)
    ensures |Writes(s)| == if s.lh == [] then 0 else 2 * |s.lh| + 2
  {
  }

  lemma LogIsThere(d: Disk, start: nat)
    requires ValidLog(d, start)
    ensures start in d
  {
    assert InLog(start, start);
  }

  lemma CrashKeeps(s: State)
    requires Inv(s) && Enabled(s, Crash)
    ensures Inv(Do(s, Crash))
  {
    hide ValidLog, Recovered, GetWord, Replay, OpenOps, Home, WellFormed, RunningOk, CommittingOk;
    var s' := Do(s, Crash);
    assert s'.hist[..s'.durable] == s'.hist;
    WellFormedPrefix(s.base, s.hist, s.durable);
    assert Apply(s.disk, RecoveryWrites(s.disk, s.start)[..0]) == s.disk;
  }

  lemma RecoveryProgress(s: State, k: nat)
    requires s.phase.Recovering? && RecoveringOk(s)
    requires k <= |Writes(s)|
    ensures var d := Apply(s.phase.d0, Writes(s)[..k]);
            && ValidLog(d, s.start)
            && Recovered(d, s.start) == Recovered(s.phase.d0, s.start)
            && Home(d, s.start).Keys == Home(s.phase.d0, s.start).Keys
            && (k == |Writes(s)| ==> GetWord(d[s.start], 0) == 0 && Home(d, s.start) == Recovered(s.phase.d0, s.start))
  {
    RecoveryCut(s.phase.d0, s.start, k);
    var d := Apply(s.phase.d0, Writes(s)[..k]);
    assert forall b :: b in d <==> b in s.phase.d0;
  }

  lemma RecoveryWriteKeeps(s: State)
    requires Inv(s) && Enabled(s, RecoveryWrite)
    ensures Inv(Do(s, RecoveryWrite))
  {
    hide ValidLog, Recovered, GetWord, WellFormed, Replay, OpenOps, Home, Apply, RecoveryWrites;
    NextPrefix(s.phase.d0, Writes(s), s.phase.k);
    RecoveryProgress(s, s.phase.k);
    RecoveryProgress(s, s.phase.k + 1);
  }

  lemma RecoveryDoneKeeps(s: State)
    requires Inv(s) && Enabled(s, RecoveryDone)
    ensures Inv(Do(s, RecoveryDone))
  {
    hide ValidLog, Recovered, GetWord, WellFormed, Replay, OpenOps, Home, Apply, RecoveryWrites;
    RecoveryProgress(s, s.phase.k);
    LogIsThere(s.disk, s.start);
    assert s.hist[..s.durable] == s.hist;
  }

  lemma SyncKeeps(s: State, a: Action)
    requires Inv(s) && Enabled(s, a) && (a.SyncCall? || a.SyncReturn?)
    ensures Inv(Do(s, a))
  {
    hide ValidLog, Recovered, Replay, WellFormed, Loggable, Home, Agree, Apply, CommitWrites, RecoveryWrites, GetWord;
  }

  lemma StepKeeps(s: State, a: Action)
    requires Inv(s) && Enabled(s, a)
    ensures Inv(Do(s, a))
  {
    hide Inv, Enabled, Do;
    match a
    case BeginOp(op) => BeginKeeps(s, op);
    case LogWrite(op, b, data) => LogWriteKeeps(s, op, b, data);
    case Scribble(op, b, data) => ScribbleKeeps(s, op, b, data);
    case EndOp(op) => EndKeeps(s, op);
    case CommitWrite => CommitWriteKeeps(s);
    case CommitDone => CommitDoneKeeps(s);
    case Crash => CrashKeeps(s);
    case RecoveryWrite => RecoveryWriteKeeps(s);
    case RecoveryDone => RecoveryDoneKeeps(s);
    case SyncCall(p) => SyncKeeps(s, a);
    case SyncReturn(p) => SyncKeeps(s, a);
  }

  // ----- runs -----

  /** Boot on any disk with a readable log: recovery starts. */
  ghost predicate Init(s: State) {
    && ValidLog(s.disk, s.start)
    && s == State(s.start, s.disk, map[], [], map[], Recovering(s.disk, 0), 0, map[],
                  Recovered(s.disk, s.start), [], 0)
  }

  ghost predicate Step(s: State, a: Action, s': State) { Enabled(s, a) && s' == Do(s, a) }

  function Front(acts: seq<Action>): (r: seq<Action>)
    requires acts != []
  {
    acts[..|acts| - 1]
  }

  function Last(acts: seq<Action>): (r: Action)
    requires acts != []
  {
    acts[|acts| - 1]
  }

  /** The actions lead from s0 to s. */
  ghost predicate Run(s0: State, acts: seq<Action>, s: State) {
    if acts == [] then s == s0
    else exists m :: Step(m, Last(acts), s) && Run(s0, Front(acts), m)
  }

  lemma InitInv(s: State)
    requires Init(s)
    ensures Inv(s)
  {
    assert Apply(s.disk, RecoveryWrites(s.disk, s.start)[..0]) == s.disk;
    assert s.hist[..0] == [];
  }

  lemma {:induction false} RunKeeps(s0: State, acts: seq<Action>, s: State)
    requires Inv(s0) && Run(s0, acts, s)
    ensures Inv(s)
  {
    hide Inv, Do, Enabled;
    if acts != [] {
      var m :| Step(m, Last(acts), s) && Run(s0, Front(acts), m);
      RunKeeps(s0, Front(acts), m);
      StepKeeps(m, Last(acts));
    }
  }

  /** Whole-run crash safety. In every run, from any state, however often recovery
      is itself cut off, the recovery that finishes leaves exactly the stores of a
      prefix of the history, and that prefix holds no unfinished operation. */
  lemma CrashSafety(s0: State, acts: seq<Action>, s: State, cuts: seq<nat>)
    requires Init(s0) && Run(s0, acts, s)
    ensures ValidLog(s.disk, s.start) && s.durable <= |s.hist|
    ensures OpenOps(s.hist[..s.durable]) == {}
    ensures var retried := CutRecoveries(s.disk, s.start, cuts);
            var final := Apply(retried, RecoveryWrites(retried, s.start));
            ValidLog(final, s.start) && Home(final, s.start) == Replay(s.base, s.hist[..s.durable])
  {
    InitInv(s0);
    RunKeeps(s0, acts, s);
    var retried := CutRecoveries(s.disk, s.start, cuts);
    var ws := RecoveryWrites(retried, s.start);
    RecoveryCut(retried, s.start, |ws|);
    assert ws[..|ws|] == ws;
  }

  lemma StepFixes(s: State, a: Action)
    requires Enabled(s, a)
    ensures Do(s, a).start == s.start && Do(s, a).base == s.base
  {
    hide ValidLog, Home, CommitWrites, RecoveryWrites, HasWrites, L.LogOutcome, L.Admits, L.Absorb;
  }

  /** Where the log is and what was there at boot stay the same. */
  lemma {:induction false} RunFixes(s: State, acts: seq<Action>, s': State)
    requires Run(s, acts, s')
    ensures s'.start == s.start && s'.base == s.base
  {
    hide Enabled, Do;
    if acts != [] {
      var m :| Step(m, Last(acts), s') && Run(s, Front(acts), m);
      RunFixes(s, Front(acts), m);
      StepFixes(m, Last(acts));
    }
  }

  /** The same from any idle state s1 on: what is lost and what stays is a matter of the history since then. */
  lemma SafetyFromIdle(s0: State, acts0: seq<Action>, s1: State, acts: seq<Action>, s: State, cuts: seq<nat>)
    returns (h: seq<Event>)
    requires Init(s0) && Run(s0, acts0, s1) && s1.phase.Running? && s1.open == map[] && Run(s1, acts, s)
    ensures ValidLog(s.disk, s.start) && s.durable <= |s.hist| && s.start == s1.start
    ensures s.hist[..s.durable] == s1.hist + h && OpenOps(h) == {}
    ensures var retried := CutRecoveries(s.disk, s.start, cuts);
            var final := Apply(retried, RecoveryWrites(retried, s.start));
            ValidLog(final, s.start) && Home(final, s.start) == Replay(s1.cur, h)
  {
    hide Run, ValidLog, Recovered, Replay, OpenOps, WellFormed, Home, Apply, Loggable, Agree, CommittingOk;
    hide RecoveringOk;
    InitInv(s0);
    RunKeeps(s0, acts0, s1);
    DurableGrows(s1, acts, s);
    RunFixes(s1, acts, s);
    RunConcat(s0, acts0, s1, acts, s);
    CrashSafety(s0, acts0 + acts, s, cuts);
    assert s1.hist[..s1.durable] == s1.hist;
    h := s.hist[..s.durable][|s1.hist|..];
    assert s.hist[..s.durable] == s1.hist + h;
    ReplayFrom(s1.base, s1.hist, h);
  }

  /** The recovered prefix holds no store of an operation that had not ended. */
  lemma OnlyFinishedOperations(s0: State, acts: seq<Action>, s: State, i: nat)
    requires Init(s0) && Run(s0, acts, s)
    requires i < s.durable <= |s.hist| && s.hist[i].Store?
    ensures exists j :: i < j < s.durable && s.hist[j] == End(s.hist[i].op)
  {
    hide RunningOk, CommittingOk, RecoveringOk, ValidLog, Recovered, Run, Replay, OpenOps;
    InitInv(s0);
    RunKeeps(s0, acts, s);
    var h := s.hist[..s.durable];
    WellFormedPrefix(s.base, s.hist, s.durable);
    StoresAreFinished(s.base, h, i);
    var j :| i < j < |h| && h[j] == End(h[i].op);
    assert s.hist[j] == End(s.hist[i].op);
  }

  lemma StepGrows(s: State, a: Action)
    requires Enabled(s, a) && s.durable <= |s.hist|
    requires Do(s, a).durable <= |Do(s, a).hist|
    ensures s.hist[..s.durable] <= Do(s, a).hist[..Do(s, a).durable]
    ensures !a.Crash? ==> s.hist <= Do(s, a).hist
  {
    hide ValidLog, Home, CommitWrites, RecoveryWrites, HasWrites, L.LogOutcome, L.Admits, L.Absorb;
  }

  /** What is durable stays durable, across commits and crashes alike. */
  lemma {:induction false} DurableGrows(s: State, acts: seq<Action>, s': State)
    requires Inv(s) && Run(s, acts, s')
    ensures Inv(s') && s.hist[..s.durable] <= s'.hist[..s'.durable]
    ensures Crash !in acts ==> s.hist <= s'.hist
  {
    hide Do, Enabled, RunningOk, CommittingOk, RecoveringOk;
    if acts != [] {
      var m :| Step(m, Last(acts), s') && Run(s, Front(acts), m);
      DurableGrows(s, Front(acts), m);
      StepKeeps(m, Last(acts));
      StepGrows(m, Last(acts));
    }
  }

  /** Committing excludes open operations, and an idle log is empty and durable. */
  lemma GroupBoundaries(s0: State, acts: seq<Action>, s: State)
    requires Init(s0) && Run(s0, acts, s)
    ensures s.phase.Committing? ==> |s.open| == 0
    ensures s.phase.Running? && |s.open| == 0 ==> s.lh == [] && s.durable == |s.hist|
    ensures s.phase.Running? ==> s.start in s.disk && GetWord(s.disk[s.start], 0) == 0
  {
    InitInv(s0);
    RunKeeps(s0, acts, s);
  }

  /** No logged block reaches its home location before the header write that commits
      its group: until then the home blocks are those of the last commit. */
  lemma NoEarlyHomeWrites(s0: State, acts: seq<Action>, s: State)
    requires Init(s0) && Run(s0, acts, s)
    requires s.phase.Running? || (s.phase.Committing? && s.phase.k <= |s.lh|)
    ensures s.durable <= |s.hist| && Home(s.disk, s.start) == Replay(s.base, s.hist[..s.durable])
  {
    hide Run, Apply, Replay, WellFormed;
    InitInv(s0);
    RunKeeps(s0, acts, s);
    if s.phase.Running? {
      EmptyLogRecovers(s.disk, s.start);
    } else if s.lh == [] {
      CommitProgress(s, s.phase.k);
    } else {
      CommitPrefix(s.phase.d0[s.start], s.start, s.lh, s.cur, s.phase.k);
      CutBeforeHeader(s.phase.d0, s.start, s.lh, s.cur, s.phase.k);
    }
  }

  /** Recovery never gets stuck between its block writes; a commit gets on if and only if
      it leaves a buffer unpinned, and otherwise panics before its first write. */
  lemma WritersProgress(s0: State, acts: seq<Action>, s: State)
    requires Init(s0) && Run(s0, acts, s)
    ensures s.phase.Committing? ==> (Enabled(s, CommitWrite) || Enabled(s, CommitDone) <==> |s.lh| < BufferCache.NBUF)
    ensures s.phase.Committing? && |s.lh| >= BufferCache.NBUF ==> s.phase.k == 0
    ensures s.phase.Recovering? ==> Enabled(s, RecoveryWrite) || Enabled(s, RecoveryDone)
  {
    hide ValidLog, Recovered, Replay, WellFormed, Loggable, Home, Agree, Apply, CommitWrites, RecoveryWrites, Run;
    InitInv(s0);
    RunKeeps(s0, acts, s);
    if s.phase.Committing? { CommitLength(s); }
  }

  // ----- the log never overflows -----

  /** Reservation: entries used plus entries promised fit the log, so log_write by
      an operation with some of its share left never meets "too big a transaction". */
  lemma ReservationHolds(s0: State, acts: seq<Action>, s: State, op: Op)
    requires Init(s0) && Run(s0, acts, s) && s.phase.Running?
    ensures |s.lh| + Unused(s.open) <= LOGBLOCKS && Distinct(s.lh)
    ensures op in s.open && s.open[op] < MAXOPBLOCKS ==> L.LogOutcome(|s.lh|, |s.open|) == L.Recorded
  {
    InitInv(s0);
    RunKeeps(s0, acts, s);
    if op in s.open && s.open[op] < MAXOPBLOCKS {
      UnusedOf(s.open, op);
      UnusedBounds(s.open - {op});
      assert |s.open| > 0 by { assert op in s.open.Keys; }
    }
  }

  /** Exactly when begin_op lets a new operation in while no commit is under way: when every open operation and
      the new one could each log MAXOPBLOCKS further blocks. What it lets in fits, and an idle log refuses none. */
  lemma AdmittedIff(s0: State, acts: seq<Action>, s: State, op: Op)
    requires Init(s0) && Run(s0, acts, s) && s.phase.Running? && op !in s.open
    ensures Enabled(s, BeginOp(op)) <==> |s.lh| + MAXOPBLOCKS * |s.open| + MAXOPBLOCKS <= LOGBLOCKS
    ensures Enabled(s, BeginOp(op)) ==> |s.lh| + Unused(s.open) + MAXOPBLOCKS <= LOGBLOCKS
    ensures s.open == map[] ==> Enabled(s, BeginOp(op))
  {
    hide Run, ValidLog, Recovered, Replay, WellFormed, Loggable, Home, Agree;
    InitInv(s0);
    RunKeeps(s0, acts, s);
    UnusedBounds(s.open);
    if s.open == map[] { IdleIsEmpty(s); }
  }

  /** The test is stricter than the reservations ask for: here two operations are open, one block is logged, the
      shares that are left and a third one fit the log exactly, and the third operation is refused. */
  lemma RefusedThoughItFits(s0: State, b: nat)
    requires Init(s0) && b in s0.base && b < 0x8000_0000
    ensures exists acts, t :: && Run(s0, acts, t) && t.phase.Running? && 2 !in t.open
                              && |t.lh| + Unused(t.open) + MAXOPBLOCKS == LOGBLOCKS && !Enabled(t, BeginOp(2))
  {
    hide Inv, Run, Init, Do, Unused;
    var acts, t := Boot(s0);
    IdleIsEmpty(t);
    OpenStep(t, 0);
    RunNext(s0, acts, t, BeginOp(0));
    acts, t := acts + [BeginOp(0)], Do(t, BeginOp(0));
    OpenStep(t, 1);
    RunNext(s0, acts, t, BeginOp(1));
    acts, t := acts + [BeginOp(1)], Do(t, BeginOp(1));
    FirstBlock(t, b);
    RunNext(s0, acts, t, LogWrite(0, b, ZeroBlock));
    acts, t := acts + [LogWrite(0, b, ZeroBlock)], Do(t, LogWrite(0, b, ZeroBlock));
    assert Run(s0, acts, t);
  }

  lemma FirstBlock(t: State, b: nat)
    requires t.phase.Running? && t.lh == [] && FreshOps(t.open, 2) && b in t.cur && b < 0x8000_0000
    ensures Enabled(t, LogWrite(0, b, ZeroBlock))
    ensures var t' := Do(t, LogWrite(0, b, ZeroBlock));
            && t'.phase.Running? && 2 !in t'.open && |t'.lh| + Unused(t'.open) + MAXOPBLOCKS == LOGBLOCKS
            && !Enabled(t', BeginOp(2))
  {
    hide Unused;
    CountKeys(t.open, 2);
    var open: map<Op, nat> := map[0 := 1, 1 := 0];
    assert t.open[0 := 1] == open;
    UnusedOf(open, 0);
    assert open - {0} == map[1 := 0];
    UnusedOf(map[1 := 0], 1);
    assert map[1 := 0] - {1} == map[];
    UnusedBounds(map[]);
    CountKeys(open, 2);
  }

  lemma RunNext(s0: State, acts: seq<Action>, s: State, a: Action)
    requires Run(s0, acts, s) && Enabled(s, a)
    ensures Run(s0, acts + [a], Do(s, a))
  {
    hide Enabled, Do;
    assert Front(acts + [a]) == acts && Last(acts + [a]) == a;
    assert Step(s, a, Do(s, a));
  }

  /** Entries used by operation j once i blocks have been logged in turn. */
  function Share(i: nat, j: nat): (r: nat) {
    if i <= MAXOPBLOCKS * j then 0 else if i >= MAXOPBLOCKS * (j + 1) then MAXOPBLOCKS else i - MAXOPBLOCKS * j
  }

  function Shares(i: nat): (r: map<Op, nat>) { map[0 := Share(i, 0), 1 := Share(i, 1), 2 := Share(i, 2)] }

  lemma OpenThree(s: State) returns (acts: seq<Action>, t: State)
    requires Inv(s) && s.phase.Running? && s.open == map[]
    ensures Run(s, acts, t) && Inv(t) && t.phase.Running? && t.open == Shares(0) && t.lh == [] && t.cur == s.cur
  {
    hide Inv, Enabled, Do;
    IdleIsEmpty(s);
    acts, t := [], s;
    var op := 0;
    while op < 3
      invariant 0 <= op <= 3
      invariant Run(s, acts, t) && Inv(t) && t.phase.Running? && t.lh == [] && t.cur == s.cur
      invariant FreshOps(t.open, op)
    {
      OpenStep(t, op);
      RunNext(s, acts, t, BeginOp(op));
      StepKeeps(t, BeginOp(op));
      acts, t := acts + [BeginOp(op)], Do(t, BeginOp(op));
      op := op + 1;
    }
    assert t.open == Shares(0);
  }

  /** Operations 0 to n - 1 are open and have logged nothing. */
  ghost predicate FreshOps(open: map<Op, nat>, n: nat) {
    && (forall j :: j in open <==> 0 <= j < n)
    && (forall j :: j in open ==> open[j] == 0)
  }

  lemma OpenStep(t: State, op: nat)
    requires t.phase.Running? && t.lh == [] && op < 3 && FreshOps(t.open, op)
    ensures Enabled(t, BeginOp(op))
    ensures var t' := Do(t, BeginOp(op));
            t'.phase.Running? && t'.lh == [] && t'.cur == t.cur && FreshOps(t'.open, op + 1)
  {
    CountKeys(t.open, op);
  }

  lemma IdleIsEmpty(s: State)
    requires Inv(s) && s.phase.Running? && s.open == map[]
    ensures s.lh == []
  {
  }

  lemma CountKeys(m: map<Op, nat>, n: nat)
    requires forall j :: j in m <==> 0 <= j < n
    ensures |m| == n
  {
    assert m.Keys == UpTo(n);
  }

  lemma FillLog(s: State, blocks: seq<nat>) returns (acts: seq<Action>, t: State)
    requires Inv(s) && s.phase.Running? && s.open == map[]
    requires |blocks| == LOGBLOCKS && Distinct(blocks)
    requires forall i :: 0 <= i < |blocks| ==> blocks[i] in s.cur && blocks[i] < 0x8000_0000
    ensures Run(s, acts, t) && Inv(t) && t.phase.Running? && t.open == Shares(LOGBLOCKS) && t.lh == blocks
  {
    hide Inv, Enabled, Do, Shares;
    acts, t := OpenThree(s);
    var i := 0;
    while i < LOGBLOCKS
      invariant 0 <= i <= LOGBLOCKS
      invariant Run(s, acts, t) && Inv(t) && t.phase.Running? && t.lh == blocks[..i] && t.cur.Keys == s.cur.Keys
      invariant t.open == Shares(i)
    {
      var a := LogWrite(Turn(i), blocks[i], ZeroBlock);
      assert blocks[i] in t.cur.Keys;
      FillStep(t, blocks, i);
      RunNext(s, acts, t, a);
      StepKeeps(t, a);
      acts, t := acts + [a], Do(t, a);
      i := i + 1;
    }
    assert blocks[..LOGBLOCKS] == blocks;
  }

  function Turn(i: nat): (op: Op) {
    if i < MAXOPBLOCKS then 0 else if i < 2 * MAXOPBLOCKS then 1 else 2
  }

  lemma FillStep(t: State, blocks: seq<nat>, i: nat)
    requires t.phase.Running? && i < |blocks| == LOGBLOCKS && t.lh == blocks[..i] && t.open == Shares(i)
    requires Distinct(blocks) && blocks[i] in t.cur && blocks[i] < 0x8000_0000
    ensures var a := LogWrite(Turn(i), blocks[i], ZeroBlock);
            && Enabled(t, a)
            && var t' := Do(t, a);
               t'.phase.Running? && t'.lh == blocks[..i + 1] && t'.open == Shares(i + 1) && t'.cur.Keys == t.cur.Keys
  {
    hide Distinct;
    CountKeys(t.open, 3);
    assert blocks[..i + 1] == blocks[..i] + [blocks[i]];
    NotYet(blocks, i);
    SharesStep(i);
    assert t.cur[blocks[i] := ZeroBlock].Keys == t.cur.Keys;
  }

  lemma NotYet(blocks: seq<nat>, i: nat)
    requires Distinct(blocks) && i < |blocks|
    ensures blocks[i] !in blocks[..i]
  {
  }

  lemma SharesStep(i: nat)
    requires i < LOGBLOCKS
    ensures Turn(i) in Shares(i) && Shares(i)[Turn(i)] < MAXOPBLOCKS
    ensures Shares(i + 1) == Shares(i)[Turn(i) := Shares(i)[Turn(i)] + 1]
  {
  }

  lemma {:induction false} RunConcat(s0: State, acts: seq<Action>, s: State, more: seq<Action>, t: State)
    requires Run(s0, acts, s) && Run(s, more, t)
    ensures Run(s0, acts + more, t)
    decreases |more|
  {
    hide Step;
    if more == [] {
      assert acts + more == acts;
    } else {
      var m :| Step(m, Last(more), t) && Run(s, Front(more), m);
      RunConcat(s0, acts, s, Front(more), m);
      assert Front(acts + more) == acts + Front(more) && Last(acts + more) == Last(more);
    }
  }

  /** From boot, recovery can be carried through. */
  lemma Boot(s0: State) returns (acts: seq<Action>, t: State)
    requires Init(s0)
    ensures Run(s0, acts, t) && Inv(t) && t.phase.Running? && t.open == map[]
    ensures t.hist == [] && t.start == s0.start && t.cur == s0.base
  {
    hide Run, ValidLog, Recovered, Replay, WellFormed, Loggable, Home, Agree, Apply, RecoveryWrites, RunningOk;
    hide CommittingOk;
    InitInv(s0);
    acts, t := [], s0;
    RunNothing(s0);
    while t.phase.k < |Writes(t)|
      invariant Run(s0, acts, t) && Inv(t) && t.phase.Recovering?
      invariant t.hist == [] && t.start == s0.start && t.base == s0.base
      invariant HasWrites(t)
      decreases |Writes(t)| - t.phase.k
    {
      RunNext(s0, acts, t, RecoveryWrite);
      StepKeeps(t, RecoveryWrite);
      acts, t := acts + [RecoveryWrite], Do(t, RecoveryWrite);
    }
    RunNext(s0, acts, t, RecoveryDone);
    StepKeeps(t, RecoveryDone);
    acts, t := acts + [RecoveryDone], Do(t, RecoveryDone);
    RunningIs(t);
    ReplayNothing(t.base);
  }

  lemma IdleIsDurable(s: State)
    requires Inv(s) && s.phase.Running? && s.open == map[]
    ensures s.durable == |s.hist|
  {
    hide ValidLog, Recovered, Replay, WellFormed, Loggable, Home, Agree;
  }

  lemma RunningIs(t: State)
    requires Inv(t) && t.phase.Running?
    ensures t.cur == Replay(t.base, t.hist)
  {
    hide ValidLog, Recovered, Replay, WellFormed, Loggable, Home, Agree;
  }

  /** A commit that leaves a buffer unpinned can be carried through. */
  lemma CommitRuns(s: State) returns (acts: seq<Action>, t: State)
    requires Inv(s) && s.phase.Committing? && |s.lh| < BufferCache.NBUF
    ensures Run(s, acts, t) && Inv(t) && t.phase.Running? && t.open == map[]
    ensures t.hist == s.hist && t.cur == s.cur && t.durable == |t.hist|
    ensures t.waiters == s.waiters && t.ncommit == s.ncommit + 1
  {
    hide Run, ValidLog, Recovered, Replay, WellFormed, Loggable, Home, Agree, Apply, CommitWrites, RunningOk;
    hide RecoveringOk;
    acts, t := [], s;
    RunNothing(s);
    while t.phase.k < |Writes(t)|
      invariant Run(s, acts, t) && Inv(t) && t.phase.Committing? && HasWrites(t)
      invariant t.hist == s.hist && t.cur == s.cur && t.lh == s.lh
      invariant t.waiters == s.waiters && t.ncommit == s.ncommit
      decreases |Writes(t)| - t.phase.k
    {
      RunNext(s, acts, t, CommitWrite);
      StepKeeps(t, CommitWrite);
      acts, t := acts + [CommitWrite], Do(t, CommitWrite);
    }
    CommitLength(t);
    RunNext(s, acts, t, CommitDone);
    StepKeeps(t, CommitDone);
    acts, t := acts + [CommitDone], Do(t, CommitDone);
  }

  lemma RunNothing(s: State)
    ensures Run(s, [], s)
  {
  }

  /** From boot on any disk with enough home blocks, three operations can fill the log. */
  lemma FillFromBoot(s0: State, blocks: seq<nat>) returns (acts: seq<Action>, t: State)
    requires Init(s0) && |blocks| == LOGBLOCKS && Distinct(blocks)
    requires forall i :: 0 <= i < |blocks| ==> blocks[i] in s0.base && blocks[i] < 0x8000_0000
    ensures Run(s0, acts, t) && Inv(t) && t.phase.Running? && t.open == Shares(LOGBLOCKS) && t.lh == blocks
  {
    hide Inv, Run, Distinct, Init, Shares;
    var boot, s := Boot(s0);
    assert forall b :: b in s.cur <==> b in s0.base.Keys;
    var fill;
    fill, t := FillLog(s, blocks);
    RunConcat(s0, boot, s, fill, t);
    acts := boot + fill;
  }

  /** The reservation protects new blocks only: in this reachable state three operations have
      used their whole share, and log_write panics for every one of them, even on a
      block that is already logged. */
  lemma FullLogRefusesAbsorption(s0: State, blocks: seq<nat>)
    requires Init(s0) && |blocks| == LOGBLOCKS && Distinct(blocks)
    requires forall i :: 0 <= i < |blocks| ==> blocks[i] in s0.base && blocks[i] < 0x8000_0000
    ensures exists acts, t ::
              && Run(s0, acts, t)
              && (forall op :: op in t.open ==> t.open[op] == MAXOPBLOCKS)
              && 0 in t.open && blocks[0] in t.lh
              && L.LogOutcome(|t.lh|, |t.open|) == L.TooBig
  {
    hide Inv, Run, Distinct, Init;
    var acts, t := FillFromBoot(s0, blocks);
    assert Run(s0, acts, t);
  }

  /** ... and when they end, the commit of the full log is reached, which cannot make a single write. */
  lemma FullLogCannotCommit(s0: State, blocks: seq<nat>)
    requires Init(s0) && |blocks| == LOGBLOCKS && Distinct(blocks)
    requires forall i :: 0 <= i < |blocks| ==> blocks[i] in s0.base && blocks[i] < 0x8000_0000
    ensures exists acts, t ::
              && Run(s0, acts, t) && t.phase.Committing? && t.phase.k == 0 && t.lh == blocks
              && !Enabled(t, CommitWrite) && !Enabled(t, CommitDone)
  {
    hide Inv, Run, Distinct, Init, Enabled, Do;
    var acts, t := FillFromBoot(s0, blocks);
    t, acts := EndOne(s0, acts, t, 0);
    assert 1 in t.open && 2 in t.open;
    t, acts := EndOne(s0, acts, t, 1);
    assert 2 in t.open;
    t, acts := EndOne(s0, acts, t, 2);
    assert t.open == map[];
    WritersProgress(s0, acts, t);
    assert Run(s0, acts, t);
  }

  lemma EndOne(s0: State, acts: seq<Action>, s: State, op: Op) returns (t: State, acts': seq<Action>)
    requires Init(s0) && Run(s0, acts, s) && Inv(s) && s.phase.Running? && op in s.open
    ensures Run(s0, acts', t) && Inv(t) && t.lh == s.lh && t.open == s.open - {op}
    ensures if t.open == map[] then t.phase.Committing? && t.phase.k == 0 else t.phase.Running?
  {
    hide Inv, Run, Init;
    RunNext(s0, acts, s, EndOp(op));
    StepKeeps(s, EndOp(op));
    t, acts' := Do(s, EndOp(op)), acts + [EndOp(op)];
  }

  /** Exactly when log_write panics inside an operation: when the log is full. */
  lemma TooBigIffFull(s0: State, acts: seq<Action>, s: State, op: Op)
    requires Init(s0) && Run(s0, acts, s) && s.phase.Running? && op in s.open
    ensures L.LogOutcome(|s.lh|, |s.open|) != L.Recorded <==> |s.lh| == LOGBLOCKS
    ensures |s.lh| == LOGBLOCKS ==> Unused(s.open) == 0 && forall o :: o in s.open ==> s.open[o] == MAXOPBLOCKS
  {
    InitInv(s0);
    RunKeeps(s0, acts, s);
    UnusedBounds(s.open);
    assert |s.open| > 0 by { assert op in s.open.Keys; }
    forall o | o in s.open && |s.lh| == LOGBLOCKS ensures s.open[o] == MAXOPBLOCKS {
      UnusedOf(s.open, o);
      UnusedBounds(s.open - {o});
    }
  }

  // ----- sys_sync -----

  predicate Uninterrupted(acts: seq<Action>, p: nat) {
    Crash !in acts && SyncReturn(p) !in acts
  }

  lemma StepWaits(s: State, a: Action, s': State, p: nat)
    requires Step(s, a, s') && p in s.waiters && a != Crash && a != SyncReturn(p)
    ensures p in s'.waiters && s'.waiters[p] == s.waiters[p]
  {
  }

  lemma {:induction false} WaiterStays(s: State, acts: seq<Action>, s': State, p: nat)
    requires Run(s, acts, s') && p in s.waiters && Uninterrupted(acts, p)
    ensures p in s'.waiters && s'.waiters[p] == s.waiters[p]
  {
    hide Step;
    if acts != [] {
      var m :| Step(m, Last(acts), s') && Run(s, Front(acts), m);
      assert Last(acts) in acts;
      WaiterStays(s, Front(acts), m, p);
      StepWaits(m, Last(acts), s', p);
    }
  }

  /** On an idle log sys_sync returns at once. */
  lemma SyncIdle(s: State, p: nat)
    requires Enabled(s, SyncCall(p)) && s.phase.Running? && s.open == map[]
    ensures Do(s, SyncCall(p)) == s && p !in s.waiters
  {
  }

  lemma StepCounts(s: State, a: Action)
    requires Enabled(s, a) && !a.Crash?
    ensures Do(s, a).ncommit == s.ncommit + if a.CommitDone? then 1 else 0
  {
    hide ValidLog, Home, CommitWrites, RecoveryWrites, HasWrites, L.LogOutcome, L.Admits, L.Absorb;
  }

  lemma {:induction false} CommitsCounted(s: State, acts: seq<Action>, s': State)
    requires Run(s, acts, s') && Crash !in acts
    ensures s'.ncommit >= s.ncommit && (s'.ncommit > s.ncommit <==> CommitDone in acts)
  {
    hide Enabled, Do;
    if acts != [] {
      var m :| Step(m, Last(acts), s') && Run(s, Front(acts), m);
      assert acts == Front(acts) + [Last(acts)];
      CommitsCounted(s, Front(acts), m);
      StepCounts(m, Last(acts));
    }
  }

  /** Otherwise it can return exactly from the first commit that ends after the call. */
  lemma SyncReturnsIff(s: State, p: nat, acts: seq<Action>, s': State)
    requires Enabled(s, SyncCall(p)) && !(s.phase.Running? && s.open == map[])
    requires Run(Do(s, SyncCall(p)), acts, s') && Uninterrupted(acts, p)
    ensures Enabled(s', SyncReturn(p)) <==> CommitDone in acts
  {
    hide Run;
    WaiterStays(Do(s, SyncCall(p)), acts, s', p);
    CommitsCounted(Do(s, SyncCall(p)), acts, s');
  }

  /** ... and there is a way to get there, unless the commit has no buffer left. */
  lemma SyncCanReturn(s: State, p: nat) returns (acts: seq<Action>, t: State)
    requires Inv(s) && Enabled(s, SyncCall(p)) && !(s.phase.Running? && s.open == map[]) && |s.lh| < BufferCache.NBUF
    ensures Run(Do(s, SyncCall(p)), acts, t) && Enabled(t, SyncReturn(p))
  {
    hide Inv, Run;
    var s1 := Do(s, SyncCall(p));
    StepKeeps(s, SyncCall(p));
    var more, m;
    acts, m := EndAll(s1);
    more, t := CommitRuns(m);
    RunConcat(s1, acts, m, more, t);
    acts := acts + more;
  }

  /** The open operations end one by one, and the last one starts the commit. */
  lemma {:induction false} EndAll(s: State) returns (acts: seq<Action>, t: State)
    requires Inv(s) && (s.phase.Committing? || (s.phase.Running? && s.open != map[]))
    ensures Run(s, acts, t) && Inv(t) && t.phase.Committing? && t.lh == s.lh
    ensures t.waiters == s.waiters && t.ncommit == s.ncommit
    decreases s.open
  {
    hide Inv, Run;
    acts, t := [], s;
    RunNothing(s);
    if s.phase.Running? {
      var op :| op in s.open;
      StepKeeps(s, EndOp(op));
      RunNext(s, [], s, EndOp(op));
      var more;
      more, t := EndAll(Do(s, EndOp(op)));
      RunConcat(s, [] + [EndOp(op)], Do(s, EndOp(op)), more, t);
      acts := [] + [EndOp(op)] + more;
    }
  }

  lemma SyncAtOnce(s: State)
    requires Inv(s) && !s.phase.Recovering? && !SyncMustWait(s)
    ensures s.durable == |s.hist|
  {
  }

  /** sys_sync returns only when everything that happened before the call is
      durable: at once if nothing is open, else after the commit it waits for. */
  lemma SyncIsDurable(s: State, p: nat, acts: seq<Action>, s': State)
    requires Inv(s) && Enabled(s, SyncCall(p))
    requires Run(Do(s, SyncCall(p)), acts, s') && Uninterrupted(acts, p)
    requires SyncMustWait(s) ==> Enabled(s', SyncReturn(p))
    ensures s'.durable <= |s'.hist| && s.hist <= s'.hist[..s'.durable]
  {
    hide Run, RunningOk, CommittingOk, RecoveringOk, ValidLog, Recovered, Replay, WellFormed;
    var s1 := Do(s, SyncCall(p));
    if !SyncMustWait(s) { SyncAtOnce(s); }
    StepKeeps(s, SyncCall(p));
    DurableGrows(s1, acts, s');
    if SyncMustWait(s) {
      WaiterStays(s1, acts, s', p);
      assert s'.waiters[p].mark == |s.hist|;
    } else {
      assert s.hist[..s.durable] == s.hist;
    }
  }
}
