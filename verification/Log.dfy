/** log.c over the block cache: the in-memory log header, admission of
    operations, commit and recovery, down to single block writes. */
module Log {
  import opened Basics
  import opened Blocks
  import opened LogFormat
  import opened BufferCache

  /** No process is inside a buffer: every sleep lock is free. */
  predicate Quiet(buf: seq<Buf>) {
    forall i :: 0 <= i < |buf| && i < NBUF ==> buf[i].lock.Unlocked?
  }

  /** Every sleep lock is held by the same process, or free, as before. */
  predicate SameLocks(buf: seq<Buf>, buf': seq<Buf>)
    requires |buf| == |buf'| == NBUF + 1
  {
    forall i :: 0 <= i < NBUF ==> buf'[i].lock == buf[i].lock
  }

  lemma UnreferencedQuiet(buf: seq<Buf>, refs: seq<nat>, pins: seq<nat>, disk: Disk, cur: Disk)
    requires Coherent(buf, refs, pins, disk, cur) && forall i :: 0 <= i < NBUF ==> refs[i] == 0
    ensures Quiet(buf)
  {
  }

  /** Referenced buffers keep the block they hold. */
  predicate KeepsBlocks(buf: seq<Buf>, buf': seq<Buf>, refs: seq<nat>, pins: seq<nat>)
    requires |buf| == |buf'| == NBUF + 1 && |refs| == |pins| == NBUF
  {
    forall i :: 0 <= i < NBUF && refs[i] + pins[i] > 0 ==>
      buf'[i].dev == buf[i].dev && buf'[i].blockno == buf[i].blockno
  }

  predicate Referenced(buf: seq<Buf>, refs: seq<nat>, pins: seq<nat>, b: nat)
    requires |buf| == NBUF + 1 && |refs| == |pins| == NBUF
  {
    exists s :: 0 <= s < NBUF && Holds(buf[s], b) && refs[s] + pins[s] > 0
  }

  /** A referenced block stays cached when another block is read into buffer x. */
  lemma StillCached(buf: seq<Buf>, buf': seq<Buf>, refs: seq<nat>, pins: seq<nat>, b: nat, x: nat)
    requires |buf| == |buf'| == NBUF + 1 && |refs| == |pins| == NBUF && x < NBUF
    requires buf' == buf[x := buf'[x]]
    requires refs[x] + pins[x] > 0 ==> buf'[x].dev == buf[x].dev && buf'[x].blockno == buf[x].blockno
    ensures Referenced(buf, refs, pins, b) ==> Cached(buf', b)
  {
    if Referenced(buf, refs, pins, b) {
      var s :| 0 <= s < NBUF && Holds(buf[s], b) && refs[s] + pins[s] > 0;
      assert Holds(buf'[s], b);
    }
  }

  lemma OneTaken(refs: seq<nat>, pins: seq<nat>, x: nat)
    requires |refs| == |pins| == NBUF && x < NBUF
    ensures AllUnreferenced(refs, pins) ==>
              SomeUnreferenced(refs, pins) && SomeUnreferenced(refs[x := refs[x] + 1], pins)
  {
    var i := if x == 0 then 1 else 0;
    assert AllUnreferenced(refs, pins) ==> refs[i] + pins[i] == 0 && refs[x := refs[x] + 1][i] + pins[i] == 0;
  }

  predicate AllUnreferenced(refs: seq<nat>, pins: seq<nat>)
    requires |refs| == |pins| == NBUF
  {
    forall i :: 0 <= i < NBUF ==> refs[i] + pins[i] == 0
  }

  /** `pins'` is `pins` less one pin for each buffer listed. */
  predicate Unpinned(pins: seq<nat>, pins': seq<nat>, slots: seq<nat>) {
    && |pins| == |pins'| == NBUF
    && forall j :: 0 <= j < NBUF ==> pins[j] == pins'[j] + if j in slots then 1 else 0
  }

  /** Each logged block from the given position on sits pinned in its slot. */
  predicate PinnedFrom(slot: seq<nat>, lh: seq<nat>, buf: seq<Buf>, pins: seq<nat>, from: nat) {
    && |slot| == |lh|
    && |buf| == NBUF + 1 && |pins| == NBUF
    && forall i :: from <= i < |lh| ==> slot[i] < NBUF && pins[slot[i]] > 0 && Holds(buf[slot[i]], lh[i])
  }

  lemma PinsInDistinctSlots(slot: seq<nat>, lh: seq<nat>, buf: seq<Buf>, pins: seq<nat>)
    requires PinnedFrom(slot, lh, buf, pins, 0) && Distinct(lh)
    ensures Distinct(slot) && Unpinned(pins, pins, slot[..0])
  {
    forall i, j | 0 <= i < j < |lh| ensures slot[i] != slot[j] {
      assert Holds(buf[slot[i]], lh[i]) && Holds(buf[slot[j]], lh[j]);
    }
  }

  /** Unpinning slot t, with referenced buffers keeping their blocks. */
  lemma UnpinTurn(slot: seq<nat>, lh: seq<nat>, buf: seq<Buf>, buf': seq<Buf>, refs: seq<nat>,
                  pins0: seq<nat>, pins: seq<nat>, t: nat)
    requires PinnedFrom(slot, lh, buf, pins, t) && t < |lh| && Distinct(slot)
    requires Unpinned(pins0, pins, slot[..t]) && |refs| == NBUF && |buf'| == NBUF + 1
    requires KeepsBlocks(buf, buf', refs, pins)
    ensures slot[t] < NBUF && pins[slot[t]] > 0 && Holds(buf[slot[t]], lh[t])
    ensures PinnedFrom(slot, lh, buf', pins[slot[t] := pins[slot[t]] - 1], t + 1)
    ensures Unpinned(pins0, pins[slot[t] := pins[slot[t]] - 1], slot[..t + 1])
  {
    assert slot[..t + 1] == slot[..t] + [slot[t]];
    var pins' := pins[slot[t] := pins[slot[t]] - 1];
    forall i | t + 1 <= i < |lh| ensures slot[i] < NBUF && pins'[slot[i]] > 0 && Holds(buf'[slot[i]], lh[i]) {
      assert slot[t] != slot[i];
    }
  }

  /** Exactly the slots are pinned, once each. */
  predicate PinsAre(pins: seq<nat>, slot: seq<nat>) {
    && |pins| == NBUF
    && forall j :: 0 <= j < NBUF ==> pins[j] == if j in slot then 1 else 0
  }

  /** Only logged blocks may differ between memory and disk. */
  predicate Clean(disk: Disk, cur: Disk, lh: seq<nat>) {
    disk.Keys == cur.Keys && forall b :: b in disk && b !in lh ==> cur[b] == disk[b]
  }

  lemma StillUnreferenced(refs: seq<nat>, pins: seq<nat>, pins': seq<nat>, slots: seq<nat>)
    requires Unpinned(pins, pins', slots) && |refs| == NBUF
    ensures SomeUnreferenced(refs, pins) ==> SomeUnreferenced(refs, pins')
  {
    if SomeUnreferenced(refs, pins) {
      var i :| 0 <= i < NBUF && refs[i] + pins[i] == 0;
      assert refs[i] + pins'[i] == 0;
    }
  }

  /** What a copy loop started from. */
  datatype CacheState = CacheState(writes: seq<Write>, disk: Disk, cur: Disk, refs: seq<nat>, pins: seq<nat>)

  lemma PrefixNext(was: CacheState, ws: seq<Write>, t: nat)
    requires t < |ws|
    ensures was.writes + ws[..t + 1] == (was.writes + ws[..t]) + [ws[t]]
    ensures Apply(was.disk, ws[..t + 1]) == Apply(was.disk, ws[..t])[ws[t].b := ws[t].data]
    ensures Apply(was.cur, ws[..t + 1]) == Apply(was.cur, ws[..t])[ws[t].b := ws[t].data]
  {
    assert ws[..t + 1] == ws[..t] + [ws[t]];
    ApplySnoc(was.disk, ws[..t], ws[t]);
    ApplySnoc(was.cur, ws[..t], ws[t]);
  }

  lemma PrefixElsewhere(d: Disk, ws: seq<Write>, t: nat, b: nat)
    requires t <= |ws| && b in d && forall i :: 0 <= i < |ws| ==> ws[i].b != b
    ensures b in Apply(d, ws[..t]) && Apply(d, ws[..t])[b] == d[b]
  {
    ApplyElsewhere(d, ws[..t], b);
  }

  lemma PrefixKeys(d: Disk, ws: seq<Write>, t: nat)
    requires t <= |ws| && forall i :: 0 <= i < |ws| ==> ws[i].b in d
    ensures Apply(d, ws[..t]).Keys == d.Keys
  {
    ApplyKeys(d, ws[..t]);
  }

  /** What write_log has done after t turns, on values. */
  ghost predicate Logged(was: CacheState, start: nat, lh: seq<nat>, t: nat, writes: seq<Write>, disk: Disk, cur: Disk) {
    && HasLog(was.disk, start) && Loggable(was.disk.Keys, start, lh) && was.cur.Keys == was.disk.Keys && t <= |lh|
    && var ws := LogWrites(start, lh, was.cur)[..t];
       && writes == was.writes + ws
       && disk == Apply(was.disk, ws) && cur == Apply(was.cur, ws)
  }

  lemma LoggedStart(was: CacheState, start: nat, lh: seq<nat>)
    requires HasLog(was.disk, start) && Loggable(was.disk.Keys, start, lh) && was.cur.Keys == was.disk.Keys
    ensures Logged(was, start, lh, 0, was.writes, was.disk, was.cur)
  {
    assert LogWrites(start, lh, was.cur)[..0] == [];
  }

  lemma LoggedTurn(was: CacheState, start: nat, lh: seq<nat>, t: nat, writes: seq<Write>, disk: Disk, cur: Disk)
    requires Logged(was, start, lh, t, writes, disk, cur) && t < |lh|
    ensures |LogWrites(start, lh, was.cur)| == |lh| && writes == was.writes + LogWrites(start, lh, was.cur)[..t]
    ensures lh[t] in cur && start + t + 1 in disk && lh[t] in disk && lh[t] != start + t + 1
    ensures var w := Write(start + t + 1, cur[lh[t]]);
            Logged(was, start, lh, t + 1, writes + [w], disk[w.b := w.data], cur[w.b := w.data])
  {
    hide Apply;
    var ws := LogWrites(start, lh, was.cur);
    assert InLog(start, start + t + 1);
    PrefixNext(was, ws, t);
    assert forall i :: 0 <= i < |ws| ==> InLog(start, ws[i].b);
    PrefixElsewhere(was.cur, ws, t, lh[t]);
    PrefixKeys(was.disk, ws, t);
  }

  lemma LoggedEnd(was: CacheState, start: nat, lh: seq<nat>, writes: seq<Write>, disk: Disk, cur: Disk)
    requires Logged(was, start, lh, |lh|, writes, disk, cur)
    ensures |LogWrites(start, lh, was.cur)| == |lh| && writes == was.writes + LogWrites(start, lh, was.cur)[..|lh|]
    ensures disk == Apply(was.disk, LogWrites(start, lh, was.cur))
    ensures cur == Apply(was.cur, LogWrites(start, lh, was.cur))
  {
    var ws := LogWrites(start, lh, was.cur);
    assert ws[..|lh|] == ws;
  }

  lemma RecordStages(d: Disk, c: Disk, start: nat, lh: seq<nat>, writes: seq<Write>)
    requires HasLog(d, start) && Loggable(d.Keys, start, lh) && c.Keys == d.Keys
    ensures HasLog(c, start)
    ensures var lw := LogWrites(start, lh, c);
            var ws := HeadedWrites(c[start], start, lh, c);
            var d1, c1 := Apply(d, lw), Apply(c, lw);
            && |lw| == |lh| && |ws| == |lh| + 1
            && HasLog(d1, start) && d1.Keys == d.Keys && start in c1 && c1[start] == c[start]
            && (forall k :: 0 <= k <= |lh| ==> ws[..k] == lw[..k])
            && writes + ws[..|lh| + 1] == (writes + lw[..|lh|]) + [Write(start, PutHeader(c[start], lh))]
            && Apply(d, ws) == d1[start := PutHeader(c[start], lh)]
            && Apply(c, ws) == c1[start := PutHeader(c[start], lh)]
            && Apply(d, ws).Keys == d.Keys
  {
    hide Apply, PutHeader;
    var lw := LogWrites(start, lh, c);
    var e := Write(start, PutHeader(c[start], lh));
    assert InLog(start, start);
    assert HasLog(c, start) by { assert forall b :: InLog(start, b) ==> b in d.Keys; }
    assert forall i :: 0 <= i < |lw| ==> lw[i].b == start + 1 + i && InLog(start, lw[i].b);
    ApplyKeys(d, lw);
    ApplyElsewhere(c, lw, start);
    SnocStages(d, c, writes, lw, e);
  }

  lemma SnocStages(d: Disk, c: Disk, writes: seq<Write>, ws: seq<Write>, e: Write)
    ensures forall k :: 0 <= k <= |ws| ==> (ws + [e])[..k] == ws[..k]
    ensures writes + (ws + [e])[..|ws| + 1] == (writes + ws[..|ws|]) + [e]
    ensures Apply(d, ws + [e]) == Apply(d, ws)[e.b := e.data]
    ensures Apply(c, ws + [e]) == Apply(c, ws)[e.b := e.data]
  {
    ApplySnoc(d, ws, e);
    ApplySnoc(c, ws, e);
    assert ws[..|ws|] == ws && (ws + [e])[..|ws| + 1] == ws + [e];
  }

  /** What install_trans has done after t turns, on values. */
  ghost predicate Homed(was: CacheState, start: nat, lh: seq<nat>, t: nat, writes: seq<Write>, disk: Disk, cur: Disk) {
    && HasLog(was.disk, start) && HasLog(was.cur, start) && Loggable(was.disk.Keys, start, lh)
    && was.cur.Keys == was.disk.Keys && t <= |lh|
    && var ws := InstallWrites(lh, LogCopies(was.cur, start, |lh|))[..t];
       && writes == was.writes + ws
       && disk == Apply(was.disk, ws) && cur == Apply(was.cur, ws)
  }

  lemma HomedStart(was: CacheState, start: nat, lh: seq<nat>)
    requires HasLog(was.disk, start) && Loggable(was.disk.Keys, start, lh) && was.cur.Keys == was.disk.Keys
    ensures Homed(was, start, lh, 0, was.writes, was.disk, was.cur)
  {
    assert forall b :: InLog(start, b) ==> b in was.disk.Keys;
    assert InstallWrites(lh, LogCopies(was.cur, start, |lh|))[..0] == [];
  }

  lemma HomedTurn(was: CacheState, start: nat, lh: seq<nat>, t: nat, writes: seq<Write>, disk: Disk, cur: Disk)
    requires Homed(was, start, lh, t, writes, disk, cur) && t < |lh|
    ensures |InstallWrites(lh, LogCopies(was.cur, start, |lh|))| == |lh|
    ensures writes == was.writes + InstallWrites(lh, LogCopies(was.cur, start, |lh|))[..t]
    ensures start + t + 1 in cur && start + t + 1 in disk && lh[t] in disk && lh[t] != start + t + 1
    ensures var w := Write(lh[t], cur[start + t + 1]);
            Homed(was, start, lh, t + 1, writes + [w], disk[w.b := w.data], cur[w.b := w.data])
  {
    hide Apply;
    var ws := InstallWrites(lh, LogCopies(was.cur, start, |lh|));
    assert InLog(start, start + t + 1);
    PrefixNext(was, ws, t);
    assert forall i :: 0 <= i < |ws| ==> ws[i].b == lh[i];
    PrefixElsewhere(was.cur, ws, t, start + t + 1);
    PrefixKeys(was.disk, ws, t);
  }

  lemma HomedEnd(was: CacheState, start: nat, lh: seq<nat>, writes: seq<Write>, disk: Disk, cur: Disk)
    requires Homed(was, start, lh, |lh|, writes, disk, cur)
    ensures |InstallWrites(lh, LogCopies(was.cur, start, |lh|))| == |lh|
    ensures writes == was.writes + InstallWrites(lh, LogCopies(was.cur, start, |lh|))[..|lh|]
    ensures disk == Apply(was.disk, InstallWrites(lh, LogCopies(was.cur, start, |lh|)))
    ensures cur == Apply(was.cur, InstallWrites(lh, LogCopies(was.cur, start, |lh|)))
  {
    var ws := InstallWrites(lh, LogCopies(was.cur, start, |lh|));
    assert ws[..|lh|] == ws;
  }

  lemma InstallStages(d: Disk, c: Disk, start: nat, lh: seq<nat>, writes: seq<Write>)
    requires HasLog(d, start) && Loggable(d.Keys, start, lh) && c.Keys == d.Keys
    ensures HasLog(c, start)
    ensures var iw := InstallWrites(lh, LogCopies(c, start, |lh|));
            var e := Write(start, PutHeader(c[start], []));
            var d1, c1 := Apply(d, iw), Apply(c, iw);
            && |iw| == |lh|
            && HasLog(d1, start) && d1.Keys == d.Keys && start in c1 && c1[start] == c[start]
            && (forall k :: 0 <= k <= |lh| ==> (iw + [e])[..k] == iw[..k])
            && writes + (iw + [e])[..|lh| + 1] == (writes + iw[..|lh|]) + [e]
            && Apply(d, iw + [e]) == d1[start := e.data]
  {
    hide Apply, PutHeader;
    assert HasLog(c, start) by { assert forall b :: InLog(start, b) ==> b in d.Keys; }
    var iw := InstallWrites(lh, LogCopies(c, start, |lh|));
    var e := Write(start, PutHeader(c[start], []));
    assert InLog(start, start);
    assert forall i :: 0 <= i < |iw| ==> iw[i].b == lh[i];
    ApplyKeys(d, iw);
    ApplyElsewhere(c, iw, start);
    SnocStages(d, c, writes, iw, e);
  }

  /** The writes of the second half of commit, started from `c1`. */
  ghost function SecondHalf(c1: Disk, start: nat, lh: seq<nat>): (ws: seq<Write>)
    requires HasLog(c1, start) && |lh| <= LOGBLOCKS
  {
    InstallWrites(lh, LogCopies(c1, start, |lh|)) + [Write(start, PutHeader(c1[start], []))]
  }

  lemma CommitHalves(d: Disk, c: Disk, start: nat, lh: seq<nat>)
    requires HasLog(d, start) && HasLog(c, start) && d[start] == c[start] && lh != []
    requires c.Keys == d.Keys && Loggable(d.Keys, start, lh)
    ensures var headed := HeadedWrites(c[start], start, lh, c);
            var d1, c1 := Apply(d, headed), Apply(c, headed);
            && HasLog(d1, start) && d1.Keys == d.Keys && HasLog(c1, start) && |headed| == |lh| + 1
            && CommitWrites(d[start], start, lh, c) == headed + SecondHalf(c1, start, lh)
            && Apply(d, CommitWrites(d[start], start, lh, c)) == Apply(d1, SecondHalf(c1, start, lh))
  {
    hide Apply, LogCopies, Pick;
    var headed := HeadedWrites(c[start], start, lh, c);
    var c1 := Apply(c, headed);
    RecordStages(d, c, start, lh, []);
    Headed(c, start, lh, c);
    assert LogCopies(c1, start, |lh|) == Pick(lh, c);
    assert c1[start] == PutHeader(c[start], lh);
    ApplyConcat(d, headed, SecondHalf(c1, start, lh));
  }

  lemma CommitStages(d: Disk, c: Disk, start: nat, lh: seq<nat>, writes: seq<Write>)
    requires ValidLog(d, start) && GetWord(d[start], 0) == 0 && lh != []
    requires Loggable(d.Keys, start, lh) && Clean(d, c, lh)
    ensures HasLog(c, start) && c[start] == d[start]
    ensures var headed := HeadedWrites(c[start], start, lh, c);
            var d1, c1 := Apply(d, headed), Apply(c, headed);
            var all := CommitWrites(d[start], start, lh, c);
            && HasLog(d1, start) && d1.Keys == d.Keys && HasLog(c1, start)
            && |headed| == |lh| + 1
            && |all| == |headed| + |SecondHalf(c1, start, lh)|
            && (forall k :: 0 <= k <= |headed| ==> all[..k] == headed[..k])
            && (forall k :: 0 <= k <= |SecondHalf(c1, start, lh)| ==>
                  (writes + headed[..|lh| + 1]) + SecondHalf(c1, start, lh)[..k] == writes + all[..|lh| + 1 + k])
            && Apply(d, all) == Apply(d1, SecondHalf(c1, start, lh))
            && ValidLog(Apply(d, all), start) && GetWord(Apply(d, all)[start], 0) == 0
  {
    hide Apply, PutHeader, HasLog, ValidLog, Loggable, SecondHalf, CommitWrites, HeadedWrites, Clean, GetWord;
    CleanLog(d, c, start, lh);
    CommitHalves(d, c, start, lh);
    var headed := HeadedWrites(c[start], start, lh, c);
    SplitPrefixes(writes, headed, SecondHalf(Apply(c, headed), start, lh), CommitWrites(d[start], start, lh, c));
    CommitErases(d, c, start, lh);
  }

  lemma CleanLog(d: Disk, c: Disk, start: nat, lh: seq<nat>)
    requires ValidLog(d, start) && Loggable(d.Keys, start, lh) && Clean(d, c, lh)
    ensures HasLog(d, start) && HasLog(c, start) && start in d && start in c && c[start] == d[start] && c.Keys == d.Keys
    ensures |lh| <= LOGBLOCKS && forall i :: 0 <= i < |lh| ==> lh[i] in c && lh[i] < 0x8000_0000
  {
    assert InLog(start, start);
    assert forall b :: InLog(start, b) ==> b in d.Keys;
  }

  lemma SplitPrefixes(writes: seq<Write>, a: seq<Write>, b: seq<Write>, all: seq<Write>)
    requires all == a + b
    ensures forall k :: 0 <= k <= |a| ==> all[..k] == a[..k]
    ensures forall k :: 0 <= k <= |b| ==> (writes + a[..|a|]) + b[..k] == writes + all[..|a| + k]
  {
    assert a[..|a|] == a;
    forall k | 0 <= k <= |b| ensures (writes + a) + b[..k] == writes + all[..|a| + k] {
      assert all[..|a| + k] == a + b[..k];
    }
  }

  lemma CommitErases(d: Disk, c: Disk, start: nat, lh: seq<nat>)
    requires ValidLog(d, start) && GetWord(d[start], 0) == 0
    requires Loggable(d.Keys, start, lh) && d.Keys == c.Keys
    ensures var d' := Apply(d, CommitWrites(d[start], start, lh, c));
            ValidLog(d', start) && GetWord(d'[start], 0) == 0
  {
    var all := CommitWrites(d[start], start, lh, c);
    CommitCut(d, start, lh, c, |all|);
    assert all[..|all|] == all;
  }

  /** A log that fills the cache leaves no buffer for the log blocks themselves;
      any smaller log leaves one, if pins are the only references. */
  lemma FreeBuffers(slot: seq<nat>, lh: seq<nat>, start: nat, buf: seq<Buf>, refs: seq<nat>, pins: seq<nat>)
    requires PinnedFrom(slot, lh, buf, pins, 0) && PinsAre(pins, slot) && |refs| == NBUF
    requires Distinct(lh) && forall i :: 0 <= i < |lh| ==> !InLog(start, lh[i])
    ensures |lh| <= NBUF
    ensures |lh| == NBUF ==> !SomeUnreferenced(refs, pins) && !Cached(buf, start + 1)
    ensures |lh| < NBUF && (forall i :: 0 <= i < NBUF ==> refs[i] == 0) ==> SomeUnreferenced(refs, pins)
  {
    PinsInDistinctSlots(slot, lh, buf, pins);
    Pigeonhole(slot, NBUF);
    if |lh| == NBUF {
      forall j | 0 <= j < NBUF ensures !Holds(buf[j], start + 1) && refs[j] + pins[j] > 0 {
        assert j in slot;
        var i :| 0 <= i < |slot| && slot[i] == j;
        assert Holds(buf[j], lh[i]);
      }
    } else if forall i :: 0 <= i < NBUF ==> refs[i] == 0 {
      var j: nat :| j < NBUF && j !in slot;
      assert refs[j] + pins[j] == 0;
    }
  }

  lemma RecoveryErases(d: Disk, start: nat)
    requires ValidLog(d, start)
    ensures var ws := RecoveryWrites(d, start);
            && ws[..0] == [] && ws[..|ws|] == ws
            && ValidLog(Apply(d, ws), start) && GetWord(Apply(d, ws)[start], 0) == 0
  {
    var ws := RecoveryWrites(d, start);
    RecoveryCut(d, start, |ws|);
    assert ws[..|ws|] == ws;
  }

  lemma CommitNothing(d: Disk, c: Disk, start: nat)
    requires HasLog(d, start)
    ensures start in d && CommitWrites(d[start], start, [], c) == []
  {
    assert InLog(start, start);
  }

  lemma IdleLog(disk: Disk, start: nat, buf: seq<Buf>, pins: seq<nat>)
    requires |buf| == NBUF + 1 && |pins| == NBUF
    ensures Loggable(disk.Keys, start, []) && Clean(disk, disk, []) && PinnedFrom([], [], buf, pins, 0)
  {
  }

  lemma NothingPinned(buf: seq<Buf>, refs: seq<nat>, pins: seq<nat>, disk: Disk, cur: Disk, slot: seq<nat>,
                      lh: seq<nat>)
    requires Coherent(buf, refs, pins, disk, cur) && PinsAre(pins, slot) && PinnedFrom(slot, lh, buf, pins, 0)
    requires lh == []
    ensures disk == cur && Apply(disk, []) == disk
    ensures (forall i :: 0 <= i < NBUF ==> refs[i] == 0) ==> SomeUnreferenced(refs, pins)
  {
    assert pins[0] == 0;
    assert refs[0] == 0 ==> refs[0] + pins[0] == 0;
    UnpinnedIsClean(buf, refs, pins, disk, cur);
  }

  datatype LogResult = Recorded | TooBig | Outside

  /** The two checks at the head of log_write. */
  function LogOutcome(n: nat, outstanding: nat): (r: LogResult) {
    if n >= LOGBLOCKS then TooBig else if outstanding < 1 then Outside else Recorded
  }

  /** Log absorption: a block already logged keeps its entry. */
  function Absorb(lh: seq<nat>, b: nat): (r: seq<nat>) {
    if b in lh then lh else lh + [b]
  }

  /** log_write of a block already in the log: its buffer is the pinned one. */
  lemma OldEntry(slot: seq<nat>, lh: seq<nat>, start: nat, buf: seq<Buf>, refs: seq<nat>, pins: seq<nat>,
                 disk: Disk, cur: Disk, b: nat, i: nat)
    requires Coherent(buf, refs, pins, disk, cur) && PinnedFrom(slot, lh, buf, pins, 0) && Clean(disk, cur, lh)
    requires b < NBUF && i < |lh| && Holds(buf[b], lh[i])
    ensures pins[b] > 0
    ensures Absorb(lh, lh[i]) == lh
    ensures Clean(disk, cur[lh[i] := buf[b].data], lh)
  {
    UniqueHolder(buf, refs, pins, disk, cur, b, slot[i], lh[i]);
    assert BufOk(buf[b], refs[b], pins[b], disk, cur);
    var cur' := cur[lh[i] := buf[b].data];
    assert cur'.Keys == cur.Keys;
  }

  /** log_write of a new block: one more entry, one more pinned buffer. */
  lemma NewEntry(slot: seq<nat>, lh: seq<nat>, start: nat, buf: seq<Buf>, refs: seq<nat>, pins: seq<nat>,
                 disk: Disk, cur: Disk, b: nat)
    requires Coherent(buf, refs, pins, disk, cur) && PinnedFrom(slot, lh, buf, pins, 0) && Clean(disk, cur, lh)
    requires PinsAre(pins, slot) && Loggable(disk.Keys, start, lh) && |lh| < LOGBLOCKS
    requires b < NBUF && buf[b].dev == ROOTDEV
    requires !InLog(start, buf[b].blockno) && buf[b].blockno < 0x8000_0000
    requires forall j :: 0 <= j < |lh| ==> lh[j] != buf[b].blockno
    ensures var lh', pins' := lh + [buf[b].blockno], pins[b := pins[b] + 1];
            && lh' == Absorb(lh, buf[b].blockno)
            && PinnedFrom(slot + [b], lh', buf[b := buf[b].(refcnt := buf[b].refcnt + 1)], pins', 0)
            && PinsAre(pins', slot + [b])
            && Loggable(disk.Keys, start, lh')
            && Clean(disk, cur[buf[b].blockno := buf[b].data], lh')
            && pins'[b] > 0
  {
    var x := buf[b].blockno;
    assert BufOk(buf[b], refs[b], pins[b], disk, cur);
    var lh', pins' := lh + [x], pins[b := pins[b] + 1];
    assert b !in slot by {
      forall j | 0 <= j < |slot| ensures slot[j] != b {
        assert Holds(buf[slot[j]], lh[j]);
      }
    }
    assert x !in lh;
    var cur' := cur[x := buf[b].data];
    assert cur'.Keys == cur.Keys;
    forall y | y in disk && y !in lh' ensures cur'[y] == disk[y] {
      assert y !in lh && y != x by { assert lh'[|lh|] == x; assert forall z :: z in lh ==> z in lh'; }
    }
  }

  /** begin_op's test that one more operation cannot exhaust the log. */
  predicate Admits(n: nat, outstanding: nat) {
    n + (outstanding + 1) * MAXOPBLOCKS <= LOGBLOCKS
  }

  class Log {
    const cache: BCache
    const start: nat
    var n: nat                 // log.lh.n
    var block: seq<nat>        // log.lh.block[LOGBLOCKS]
    var outstanding: nat
    var committing: bool
    var ncommit: nat
    ghost var slot: seq<nat>   // the buffer pinned for each logged block

    /** The zeroed `struct log` with the fields that initlog sets. */
    constructor (cache: BCache, start: nat)
      ensures this.cache == cache && this.start == start
      ensures n == 0 && |block| == LOGBLOCKS && outstanding == 0 && !committing && ncommit == 0 && slot == []
    {
      this.cache, this.start := cache, start;
      n, block, outstanding, committing, ncommit := 0, seq(LOGBLOCKS, _ => 0), 0, false, 0;
      slot := [];
    }

    /** The common start of both copy loops: two bread calls. Here and below `ok` is false
        where the code goes no further: bget panics for want of a buffer, or another process
        holds the sleep lock of a buffer that bread needs. */
    method ReadPair(me: nat, first: nat, second: nat) returns (ok: bool, a: nat, b: nat)
      requires cache.Inv()
      requires first in cache.disk && second in cache.disk && first != second
      modifies cache`buf, cache`refs, cache`pins
      ensures ok ==>
                && cache.Inv() && a < NBUF && b < NBUF && a != b
                && cache.refs == old(cache.refs)[a := old(cache.refs)[a] + 1][b := old(cache.refs)[b] + 1]
                && cache.pins == old(cache.pins)
                && KeepsBlocks(old(cache.buf), cache.buf, old(cache.refs), old(cache.pins))
                && Holds(cache.buf[a], first) && Holds(cache.buf[b], second)
                && (forall c :: c == a || c == b ==>
                      && cache.buf[c].valid && cache.buf[c].lock == HeldBy(me)
                      && cache.buf[c].blockno in cache.cur
                      && cache.buf[c].data == cache.cur[cache.buf[c].blockno])
                && (forall i :: 0 <= i < NBUF && i != a && i != b ==> cache.buf[i].lock == old(cache.buf)[i].lock)
                && old(cache.buf)[a].lock.Unlocked? && old(cache.buf)[b].lock.Unlocked?
      ensures old(Quiet(cache.buf) && SomeUnreferenced(cache.refs, cache.pins))
              && old(Referenced(cache.buf, cache.refs, cache.pins, second)) ==>
                ok
      ensures old(Quiet(cache.buf) && AllUnreferenced(cache.refs, cache.pins)) ==> ok
      ensures old(!Cached(cache.buf, first) && !SomeUnreferenced(cache.refs, cache.pins)) ==> !ok
    {
      hide Coherent, Linked, LeastRecentlyUsed, BCache.RingOk, Referenced, AllUnreferenced, SomeUnreferenced, Cached;
      ghost var buf0, refs0, pins0 := cache.buf, cache.refs, cache.pins;
      OneTaken(refs0, pins0, 0);
      var x, waits := cache.Bread(me, first);
      if x.None? || waits { return false, 0, 0; }
      StillCached(buf0, cache.buf, refs0, pins0, second, x.value);
      OneTaken(refs0, pins0, x.value);
      var y;
      y, waits := cache.Bread(me, second);
      if y.None? || waits { return false, 0, 0; }
      return true, x.value, y.value;
    }

    /** Change a held buffer, write it to disk, and perhaps unpin it. */
    method Overwrite(me: nat, b: nat, data: Block, unpin: bool)
      requires cache.Inv() && b < NBUF
      requires cache.buf[b].dev == ROOTDEV && cache.buf[b].valid && cache.buf[b].lock == HeldBy(me)
      requires unpin ==> cache.pins[b] > 0
      modifies cache
      ensures cache.Inv() && cache.refs == old(cache.refs)
      ensures cache.pins == if unpin then old(cache.pins)[b := old(cache.pins)[b] - 1] else old(cache.pins)
      ensures cache.buf == old(cache.buf)[b := old(cache.buf)[b].(data := data, refcnt := cache.buf[b].refcnt)]
      ensures cache.disk == old(cache.disk)[old(cache.buf)[b].blockno := data]
      ensures cache.cur == old(cache.cur)[old(cache.buf)[b].blockno := data]
      ensures cache.writes == old(cache.writes) + [Write(old(cache.buf)[b].blockno, data)]
    {
      hide Coherent, Linked, BCache.RingOk;
      cache.Edit(me, b, data);
      cache.Bwrite(me, b);
      if unpin {
        cache.Bunpin(b);
      }
    }

    /** The common end of both copy loops: memmove, bwrite, perhaps bunpin,
        and the two brelse calls. */
    method CopyOver(me: nat, to: nat, from: nat, unpin: bool)
      requires cache.Inv() && to < NBUF && from < NBUF && to != from
      requires forall b :: b == to || b == from ==>
                 && cache.buf[b].dev == ROOTDEV && cache.buf[b].valid && cache.buf[b].lock == HeldBy(me)
                 && cache.refs[b] > 0 && cache.buf[b].blockno in cache.cur
      requires cache.buf[from].data == cache.cur[cache.buf[from].blockno]
      requires cache.buf[to].blockno != cache.buf[from].blockno
      requires unpin ==> cache.pins[to] > 0
      modifies cache
      ensures cache.Inv() && cache.buf[to].lock.Unlocked? && cache.buf[from].lock.Unlocked?
      ensures forall i :: 0 <= i < NBUF && i != to && i != from ==> cache.buf[i].lock == old(cache.buf)[i].lock
      ensures cache.refs == old(cache.refs)[to := old(cache.refs)[to] - 1][from := old(cache.refs)[from] - 1]
      ensures cache.pins == if unpin then old(cache.pins)[to := old(cache.pins)[to] - 1] else old(cache.pins)
      ensures forall i :: 0 <= i < NBUF ==>
                cache.buf[i].dev == old(cache.buf)[i].dev && cache.buf[i].blockno == old(cache.buf)[i].blockno
      ensures var w := Write(old(cache.buf)[to].blockno, old(cache.buf)[from].data);
              && cache.disk == old(cache.disk)[w.b := w.data]
              && cache.cur == old(cache.cur)[w.b := w.data]
              && cache.writes == old(cache.writes) + [w]
    {
      hide Coherent, Linked, BCache.RingOk;
      Overwrite(me, to, cache.buf[from].data, unpin);
      cache.Brelse(me, from);
      cache.Brelse(me, to);
    }

    /** Body of the loop in write_log: cache block `src` into log block `dst`. */
    method CopyToLog(me: nat, dst: nat, src: nat, ghost s: nat) returns (ok: bool)
      requires cache.Inv()
      requires dst in cache.disk && src in cache.disk && src != dst
      requires s < NBUF && cache.pins[s] > 0 && Holds(cache.buf[s], src)
      modifies cache
      ensures cache.disk.Keys == old(cache.disk).Keys
      ensures !ok ==> cache.writes == old(cache.writes) && cache.disk == old(cache.disk)
      ensures ok ==>
                && cache.Inv() && SameLocks(old(cache.buf), cache.buf)
                && cache.refs == old(cache.refs) && cache.pins == old(cache.pins)
                && KeepsBlocks(old(cache.buf), cache.buf, cache.refs, cache.pins)
                && cache.disk == old(cache.disk)[dst := old(cache.cur)[src]]
                && cache.cur == old(cache.cur)[dst := old(cache.cur)[src]]
                && cache.writes == old(cache.writes) + [Write(dst, old(cache.cur)[src])]
      ensures old(Quiet(cache.buf) && SomeUnreferenced(cache.refs, cache.pins)) ==> ok
      ensures old(!Cached(cache.buf, dst) && !SomeUnreferenced(cache.refs, cache.pins)) ==> !ok
    {
      hide Coherent, Linked, BCache.RingOk;
      assert Referenced(cache.buf, cache.refs, cache.pins, src);
      var to, from;
      ok, to, from := ReadPair(me, dst, src);
      if ok {
        CopyOver(me, to, from, false);
        assert cache.refs == old(cache.refs);
      }
    }

    /** Body of the loop in install_trans: log block `src` to its home `dst`. */
    method CopyHome(me: nat, src: nat, dst: nat, recovering: bool, ghost s: nat) returns (ok: bool)
      requires cache.Inv()
      requires dst in cache.disk && src in cache.disk && src != dst
      requires !recovering ==> s < NBUF && cache.pins[s] > 0 && Holds(cache.buf[s], dst)
      modifies cache
      ensures cache.disk.Keys == old(cache.disk).Keys
      ensures !ok ==> cache.writes == old(cache.writes) && cache.disk == old(cache.disk) && cache.cur == old(cache.cur)
      ensures ok ==>
                && cache.Inv() && SameLocks(old(cache.buf), cache.buf)
                && cache.refs == old(cache.refs)
                && cache.pins == (if recovering then old(cache.pins) else old(cache.pins)[s := old(cache.pins)[s] - 1])
                && KeepsBlocks(old(cache.buf), cache.buf, old(cache.refs), old(cache.pins))
                && cache.disk == old(cache.disk)[dst := old(cache.cur)[src]]
                && cache.cur == old(cache.cur)[dst := old(cache.cur)[src]]
                && cache.writes == old(cache.writes) + [Write(dst, old(cache.cur)[src])]
      ensures !recovering && old(Quiet(cache.buf) && SomeUnreferenced(cache.refs, cache.pins)) ==> ok
      ensures recovering && old(Quiet(cache.buf) && AllUnreferenced(cache.refs, cache.pins)) ==> ok
    {
      hide Coherent, Linked, BCache.RingOk;
      assert !recovering ==> Referenced(cache.buf, cache.refs, cache.pins, dst);
      var lbuf, dbuf;
      ok, lbuf, dbuf := ReadPair(me, src, dst);
      if ok {
        if !recovering {
          UniqueHolder(cache.buf, cache.refs, cache.pins, cache.disk, cache.cur, s, dbuf, dst);
        }
        CopyOver(me, dbuf, lbuf, !recovering);
        assert cache.refs == old(cache.refs);
      }
    }

    ghost function LH(): (lh: seq<nat>)
      reads this
      requires n <= |block|
    {
      block[..n]
    }

    ghost predicate SlotsOk(from: nat)
      reads this, cache
    {
      n <= |block| && PinnedFrom(slot, LH(), cache.buf, cache.pins, from)
    }

    /** write_log */
    method WriteLog(me: nat) returns (ok: bool, ghost k: nat)
      requires cache.Inv() && SlotsOk(0)
      requires HasLog(cache.disk, start) && Loggable(cache.disk.Keys, start, LH())
      modifies cache
      ensures k <= n && (ok ==> k == n)
      ensures cache.writes == old(cache.writes) + LogWrites(start, LH(), old(cache.cur))[..k]
      ensures ok ==>
                && cache.Inv() && SameLocks(old(cache.buf), cache.buf) && SlotsOk(0)
                && cache.refs == old(cache.refs) && cache.pins == old(cache.pins)
                && cache.disk == Apply(old(cache.disk), LogWrites(start, LH(), old(cache.cur)))
                && cache.cur == Apply(old(cache.cur), LogWrites(start, LH(), old(cache.cur)))
      ensures old(Quiet(cache.buf) && SomeUnreferenced(cache.refs, cache.pins)) ==> ok
      ensures n > 0 && old(!Cached(cache.buf, start + 1) && !SomeUnreferenced(cache.refs, cache.pins)) ==> !ok && k == 0
    {
      hide Coherent, Linked, BCache.RingOk, Apply, Loggable, HasLog, LogWrites, Logged;
      ghost var was := CacheState(cache.writes, cache.disk, cache.cur, cache.refs, cache.pins);
      LoggedStart(was, start, LH());
      var tail := 0;
      while tail < n
        invariant 0 <= tail <= n && |LH()| == n
        invariant cache.Inv() && SameLocks(old(cache.buf), cache.buf) && SlotsOk(0)
        invariant cache.refs == was.refs && cache.pins == was.pins
        invariant Logged(was, start, LH(), tail, cache.writes, cache.disk, cache.cur)
        invariant old(!Cached(cache.buf, start + 1) && !SomeUnreferenced(cache.refs, cache.pins)) ==>
                    tail == 0 && !Cached(cache.buf, start + 1)
      {
        k := tail;
        LoggedTurn(was, start, LH(), tail, cache.writes, cache.disk, cache.cur);
        ok := CopyToLog(me, start + tail + 1, block[tail], slot[tail]);
        if !ok { return; }
        tail := tail + 1;
      }
      LoggedEnd(was, start, LH(), cache.writes, cache.disk, cache.cur);
      ok, k := true, n;
    }

    /** The stores into the header block in write_head. */
    method FillHeader(b: Block) returns (hb: Block)
      requires n <= LOGBLOCKS == |block| && forall i :: 0 <= i < n ==> block[i] < 0x8000_0000
      ensures hb == PutHeader(b, LH())
    {
      hb := PutWord(b, 0, n);
      ghost var h0 := hb;
      var i := 0;
      while i < n
        invariant 0 <= i <= n
        invariant hb == PutEntries(h0, LH(), i)
      {
        hb := PutWord(hb, i + 1, block[i]);
        i := i + 1;
      }
    }

    /** write_head: one block write that carries the whole header. */
    method WriteHead(me: nat) returns (ok: bool)
      requires cache.Inv() && HasLog(cache.disk, start)
      requires n <= LOGBLOCKS == |block| && forall i :: 0 <= i < n ==> block[i] < 0x8000_0000
      modifies cache
      ensures !ok ==> cache.writes == old(cache.writes)
      ensures ok ==>
                && cache.Inv() && SameLocks(old(cache.buf), cache.buf)
                && cache.refs == old(cache.refs) && cache.pins == old(cache.pins)
                && KeepsBlocks(old(cache.buf), cache.buf, cache.refs, cache.pins)
                && cache.disk == old(cache.disk)[start := PutHeader(old(cache.cur)[start], LH())]
                && cache.cur == old(cache.cur)[start := PutHeader(old(cache.cur)[start], LH())]
                && cache.writes == old(cache.writes) + [Write(start, PutHeader(old(cache.cur)[start], LH()))]
      ensures old(Quiet(cache.buf) && SomeUnreferenced(cache.refs, cache.pins)) ==> ok
    {
      hide Coherent, Linked, LeastRecentlyUsed, BCache.RingOk, PutHeader, SomeUnreferenced;
      assert InLog(start, start);
      var b, waits := cache.Bread(me, start);
      if b.None? || waits { return false; }
      var hb := FillHeader(cache.buf[b.value].data);
      Overwrite(me, b.value, hb, false);
      cache.Brelse(me, b.value);
      assert cache.refs == old(cache.refs);
      return true;
    }

    /** install_trans */
    method InstallTrans(me: nat, recovering: bool) returns (ok: bool, ghost k: nat)
      requires cache.Inv()
      requires HasLog(cache.disk, start) && n <= |block| && Loggable(cache.disk.Keys, start, LH())
      requires !recovering ==> SlotsOk(0)
      modifies cache
      ensures HasLog(old(cache.cur), start)
      ensures k <= n && (ok ==> k == n)
      ensures cache.writes == old(cache.writes) + InstallWrites(LH(), LogCopies(old(cache.cur), start, n))[..k]
      ensures ok ==>
                && cache.Inv() && SameLocks(old(cache.buf), cache.buf) && cache.refs == old(cache.refs)
                && cache.disk == Apply(old(cache.disk), InstallWrites(LH(), LogCopies(old(cache.cur), start, n)))
                && cache.cur == Apply(old(cache.cur), InstallWrites(LH(), LogCopies(old(cache.cur), start, n)))
                && (recovering ==> cache.pins == old(cache.pins))
                && (!recovering ==> Unpinned(old(cache.pins), cache.pins, slot))
      ensures !recovering && old(Quiet(cache.buf) && SomeUnreferenced(cache.refs, cache.pins)) ==> ok
      ensures recovering && old(Quiet(cache.buf) && AllUnreferenced(cache.refs, cache.pins)) ==> ok
    {
      hide Coherent, Linked, BCache.RingOk, Apply, Distinct, HasLog, InstallWrites, LogCopies;
      hide Homed, Unpinned, KeepsBlocks, Distinct, SomeUnreferenced;
      ghost var was := CacheState(cache.writes, cache.disk, cache.cur, cache.refs, cache.pins);
      if !recovering {
        PinsInDistinctSlots(slot, LH(), cache.buf, cache.pins);
      }
      HomedStart(was, start, LH());
      var tail := 0;
      while tail < n
        invariant 0 <= tail <= n && |LH()| == n
        invariant cache.Inv() && SameLocks(old(cache.buf), cache.buf) && cache.refs == was.refs
        invariant recovering ==> cache.pins == was.pins
        invariant !recovering ==> SlotsOk(tail) && Unpinned(was.pins, cache.pins, slot[..tail])
        invariant Homed(was, start, LH(), tail, cache.writes, cache.disk, cache.cur)
      {
        k := tail;
        HomedTurn(was, start, LH(), tail, cache.writes, cache.disk, cache.cur);
        ghost var s := if recovering then 0 else slot[tail];
        ghost var buf0, pins0 := cache.buf, cache.pins;
        if !recovering {
          StillUnreferenced(cache.refs, was.pins, cache.pins, slot[..tail]);
        }
        ok := CopyHome(me, start + tail + 1, block[tail], recovering, s);
        if !ok { return; }
        if !recovering {
          UnpinTurn(slot, LH(), buf0, cache.buf, was.refs, was.pins, pins0, tail);
        }
        tail := tail + 1;
      }
      assert !recovering ==> slot[..n] == slot;
      HomedEnd(was, start, LH(), cache.writes, cache.disk, cache.cur);
      ok, k := true, n;
    }

    /** The log between operations: what is logged is pinned, what is not logged
        is on disk, and the header on disk is empty. */
    ghost predicate LogOk()
      reads this, cache
    {
      && cache.Inv()
      && n <= LOGBLOCKS == |block|
      && ValidLog(cache.disk, start) && GetWord(cache.disk[start], 0) == 0
      && Loggable(cache.disk.Keys, start, LH())
      && SlotsOk(0)
      && PinsAre(cache.pins, slot)
      && Clean(cache.disk, cache.cur, LH())
    }

    /** The first half of commit: write_log and the header write. */
    method Record(me: nat) returns (ok: bool, ghost k: nat)
      requires cache.Inv() && SlotsOk(0) && |block| == LOGBLOCKS
      requires HasLog(cache.disk, start) && Loggable(cache.disk.Keys, start, LH())
      modifies cache
      ensures HasLog(old(cache.cur), start)
      ensures var ws := HeadedWrites(old(cache.cur)[start], start, LH(), old(cache.cur));
              && |ws| == n + 1
              && (if ok then k == n + 1 else k <= n)
              && cache.writes == old(cache.writes) + ws[..k]
              && (ok ==> cache.disk == Apply(old(cache.disk), ws) && cache.cur == Apply(old(cache.cur), ws))
      ensures ok ==>
                && cache.Inv() && SameLocks(old(cache.buf), cache.buf) && SlotsOk(0)
                && cache.disk.Keys == old(cache.disk).Keys
                && cache.refs == old(cache.refs) && cache.pins == old(cache.pins)
      ensures old(Quiet(cache.buf) && SomeUnreferenced(cache.refs, cache.pins)) ==> ok
      ensures n > 0 && old(!Cached(cache.buf, start + 1) && !SomeUnreferenced(cache.refs, cache.pins)) ==> !ok && k == 0
    {
      hide Coherent, Linked, BCache.RingOk, Apply, PutHeader, PutEntries, LogWrites, HasLog, Distinct, HeadedWrites;
      RecordStages(cache.disk, cache.cur, start, LH(), cache.writes);
      ok, k := WriteLog(me);
      if !ok { return; }
      ok := WriteHead(me);
      k := if ok then n + 1 else n;
    }

    /** The second half of commit: install_trans and erasing the header. */
    method Install(me: nat) returns (ok: bool, ghost k: nat)
      requires cache.Inv() && SlotsOk(0) && |block| == LOGBLOCKS
      requires HasLog(cache.disk, start) && Loggable(cache.disk.Keys, start, LH())
      requires PinsAre(cache.pins, slot)
      modifies this`n, this`slot, cache
      ensures HasLog(old(cache.cur), start)
      ensures var ws := InstallWrites(old(LH()), LogCopies(old(cache.cur), start, old(n)))
                        + [Write(start, PutHeader(old(cache.cur)[start], []))];
              && k <= |ws| && (ok ==> k == |ws|)
              && cache.writes == old(cache.writes) + ws[..k]
              && (ok ==> cache.disk == Apply(old(cache.disk), ws))
      ensures ok ==>
                && cache.Inv() && SameLocks(old(cache.buf), cache.buf) && n == 0 && slot == []
                && cache.refs == old(cache.refs) && PinsAre(cache.pins, slot)
                && cache.cur == cache.disk
      ensures old(Quiet(cache.buf) && SomeUnreferenced(cache.refs, cache.pins)) ==> ok
    {
      hide Coherent, Linked, BCache.RingOk, Apply, PutHeader, InstallWrites, LogCopies, HasLog, Distinct;
      hide SomeUnreferenced;
      ghost var refs0, pins0 := cache.refs, cache.pins;
      InstallStages(cache.disk, cache.cur, start, LH(), cache.writes);
      ok, k := InstallTrans(me, false);
      if !ok { return; }
      StillUnreferenced(refs0, pins0, cache.pins, slot);
      assert forall j :: 0 <= j < NBUF ==> cache.pins[j] == 0;
      n, slot := 0, [];
      ok := WriteHead(me);
      if ok {
        k := k + 1;
        UnpinnedIsClean(cache.buf, cache.refs, cache.pins, cache.disk, cache.cur);
      }
    }

    /** commit: every prefix of its block writes is a prefix of CommitWrites, so
        LogFormat.CommitCut and LogFormat.CrashAtomicity describe every crash. */
    method Commit(me: nat) returns (ok: bool, ghost k: nat)
      requires LogOk()
      modifies this`n, this`slot, cache
      ensures k <= |CommitWrites(old(cache.disk)[start], start, old(LH()), old(cache.cur))|
      ensures cache.writes ==
                old(cache.writes) + CommitWrites(old(cache.disk)[start], start, old(LH()), old(cache.cur))[..k]
      ensures ok ==>
                && k == |CommitWrites(old(cache.disk)[start], start, old(LH()), old(cache.cur))|
                && cache.disk ==
                   Apply(old(cache.disk), CommitWrites(old(cache.disk)[start], start, old(LH()), old(cache.cur)))
                && LogOk() && SameLocks(old(cache.buf), cache.buf) && n == 0
                && cache.refs == old(cache.refs) && cache.cur == cache.disk
      ensures old(Quiet(cache.buf) && SomeUnreferenced(cache.refs, cache.pins)) ==> ok
      ensures old(n) == NBUF ==> !ok && k == 0
      ensures (forall i :: 0 <= i < NBUF ==> old(cache.refs)[i] == 0) ==> (ok <==> old(n) < NBUF)
    {
      hide Coherent, Linked, BCache.RingOk, Apply, PutHeader, HeadedWrites, InstallWrites, LogCopies, HasLog;
      hide SomeUnreferenced, Cached, CommitWrites, PinsAre, PinnedFrom, Clean, GetWord, ReadHeader, KeepsBlocks;
      if n == 0 {
        CommitNothing(cache.disk, cache.cur, start);
        NothingPinned(cache.buf, cache.refs, cache.pins, cache.disk, cache.cur, slot, LH());
        ok, k := true, 0;
        return;
      }
      FreeBuffers(slot, LH(), start, cache.buf, cache.refs, cache.pins);
      if forall i :: 0 <= i < NBUF ==> cache.refs[i] == 0 {
        UnreferencedQuiet(cache.buf, cache.refs, cache.pins, cache.disk, cache.cur);
      }
      CommitStages(cache.disk, cache.cur, start, LH(), cache.writes);
      ok, k := Record(me);
      if !ok { return; }
      var n0 := n;
      ok, k := Install(me);
      k := n0 + 1 + k;
      if ok {
        IdleLog(cache.disk, start, cache.buf, cache.pins);
      }
    }

    /** read_head */
    method ReadHead(me: nat) returns (ok: bool)
      requires cache.Inv() && |block| == LOGBLOCKS
      requires start in cache.disk && start in cache.cur && GetWord(cache.cur[start], 0) <= LOGBLOCKS
      modifies this`n, this`block, cache
      ensures cache.writes == old(cache.writes) && cache.disk == old(cache.disk) && cache.cur == old(cache.cur)
      ensures |block| == LOGBLOCKS
      ensures ok ==>
                && cache.Inv() && SameLocks(old(cache.buf), cache.buf)
                && cache.refs == old(cache.refs) && cache.pins == old(cache.pins)
                && n <= |block| && LH() == ReadHeader(cache.cur[start])
      ensures old(Quiet(cache.buf) && AllUnreferenced(cache.refs, cache.pins)) ==> ok
    {
      hide Coherent, Linked, LeastRecentlyUsed, BCache.RingOk;
      assert AllUnreferenced(cache.refs, cache.pins) ==> cache.refs[0] + cache.pins[0] == 0;
      var b, waits := cache.Bread(me, start);
      if b.None? || waits { return false; }
      var data := cache.buf[b.value].data;
      n := GetWord(data, 0);
      var i := 0;
      while i < n
        modifies this`block
        invariant 0 <= i <= n <= LOGBLOCKS == |block| && n == GetWord(data, 0)
        invariant forall j :: 0 <= j < i ==> block[j] == GetWord(data, j + 1)
      {
        block := block[i := GetWord(data, i + 1)];
        i := i + 1;
      }
      cache.Brelse(me, b.value);
      assert cache.refs == old(cache.refs);
      return true;
    }

    /** recover_from_log, right after boot: every prefix of its block writes is a
        prefix of RecoveryWrites. */
    method RecoverFromLog(me: nat) returns (ok: bool, ghost k: nat)
      requires cache.Inv() && |block| == LOGBLOCKS
      requires ValidLog(cache.disk, start) && cache.cur == cache.disk
      requires forall i :: 0 <= i < NBUF ==> cache.pins[i] == 0
      modifies this`n, this`block, this`slot, cache
      ensures k <= |RecoveryWrites(old(cache.disk), start)|
      ensures cache.writes == old(cache.writes) + RecoveryWrites(old(cache.disk), start)[..k]
      ensures ok ==>
                && k == |RecoveryWrites(old(cache.disk), start)|
                && cache.disk == Apply(old(cache.disk), RecoveryWrites(old(cache.disk), start))
                && LogOk() && SameLocks(old(cache.buf), cache.buf) && n == 0 && cache.refs == old(cache.refs)
                && cache.cur == cache.disk
      ensures old(AllUnreferenced(cache.refs, cache.pins)) ==> ok
    {
      hide Coherent, Linked, BCache.RingOk, Apply, PutHeader, InstallWrites, LogCopies, ReadHeader;
      RecoveryErases(cache.disk, start);
      if AllUnreferenced(cache.refs, cache.pins) {
        assert forall i :: 0 <= i < NBUF ==> cache.refs[i] + cache.pins[i] == 0;
        UnreferencedQuiet(cache.buf, cache.refs, cache.pins, cache.disk, cache.cur);
      }
      ok := ReadHead(me);
      if !ok { k := 0; return; }
      InstallStages(cache.disk, cache.cur, start, LH(), cache.writes);
      ok, k := InstallTrans(me, true);
      if !ok { return; }
      n, slot := 0, [];
      assert AllUnreferenced(cache.refs, cache.pins) ==> cache.refs[0] + cache.pins[0] == 0;
      ok := WriteHead(me);
      if ok {
        k := k + 1;
        UnpinnedIsClean(cache.buf, cache.refs, cache.pins, cache.disk, cache.cur);
      }
    }

    /** log_write by the holder of buffer b. The two panics are outcomes; note that
        the size check comes before the search, so a full log refuses even a
        block it already holds. */
    method LogWrite(me: nat, b: nat) returns (r: LogResult)
      requires LogOk() && b < NBUF
      requires cache.buf[b].dev == ROOTDEV && cache.buf[b].valid && cache.buf[b].lock == HeldBy(me)
      requires !InLog(start, cache.buf[b].blockno) && cache.buf[b].blockno < 0x8000_0000
      modifies this`n, this`block, this`slot, cache
      ensures LogOk() && cache.disk == old(cache.disk) && cache.writes == old(cache.writes)
      ensures r == LogOutcome(old(n), outstanding)
      ensures r == TooBig <==> old(n) >= LOGBLOCKS
      ensures r == Outside <==> old(n) < LOGBLOCKS && outstanding == 0
      ensures r != Recorded ==> LH() == old(LH()) && cache.cur == old(cache.cur)
      ensures r == Recorded ==>
                && LH() == Absorb(old(LH()), old(cache.buf)[b].blockno)
                && cache.cur == old(cache.cur)[old(cache.buf)[b].blockno := old(cache.buf)[b].data]
      ensures cache.refs == old(cache.refs)
      ensures forall i :: 0 <= i < NBUF ==> cache.buf[i] == old(cache.buf)[i].(refcnt := cache.buf[i].refcnt)
    {
      hide Coherent, Linked, BCache.RingOk, ValidLog, Loggable, PinsAre, Clean, PinnedFrom;
      if n >= LOGBLOCKS { return TooBig; }
      if outstanding < 1 { return Outside; }
      var blockno := cache.buf[b].blockno;
      var i := 0;
      while i < n
        invariant 0 <= i <= n
        invariant forall j :: 0 <= j < i ==> block[j] != blockno
      {
        if block[i] == blockno { break; }
        i := i + 1;
      }
      ghost var buf0, pins0, disk0, cur0 := cache.buf, cache.pins, cache.disk, cache.cur;
      if i == n {
        NewEntry(slot, LH(), start, buf0, cache.refs, pins0, disk0, cur0, b);
        block := block[i := blockno];
        cache.Bpin(b);
        n := n + 1;
        slot := slot + [b];
        assert block[..n] == old(block[..n]) + [blockno];
      } else {
        OldEntry(slot, LH(), start, buf0, cache.refs, pins0, disk0, cur0, b, i);
        block := block[i := blockno];
        assert block == old(block);
      }
      cache.Publish(me, b);
      return Recorded;
    }

    /** One pass of begin_op's loop under log.lock; false means sleep and retry. */
    method BeginOp() returns (go: bool)
      modifies this`outstanding
      ensures go <==> !committing && Admits(n, old(outstanding))
      ensures go <==> !committing && n + MAXOPBLOCKS * old(outstanding) + MAXOPBLOCKS <= LOGBLOCKS
      ensures outstanding == old(outstanding) + if go then 1 else 0
    {
      if committing {
        go := false;
      } else if n + (outstanding + 1) * MAXOPBLOCKS > LOGBLOCKS {
        go := false;
      } else {
        outstanding := outstanding + 1;
        go := true;
      }
    }

    /** end_op. `ok` is false when commit ran out of buffers and panicked, or waits for one. */
    method EndOp(me: nat) returns (ok: bool, ghost k: nat)
      requires LogOk() && outstanding >= 1 && !committing
      modifies this, cache
      ensures outstanding == old(outstanding) - 1
      ensures outstanding > 0 ==>
                ok && k == 0 && LogOk() && LH() == old(LH()) && ncommit == old(ncommit) && !committing
                && cache.writes == old(cache.writes) && cache.disk == old(cache.disk) && cache.cur == old(cache.cur)
      ensures outstanding == 0 ==>
                && k <= |CommitWrites(old(cache.disk)[start], start, old(LH()), old(cache.cur))|
                && cache.writes ==
                   old(cache.writes) + CommitWrites(old(cache.disk)[start], start, old(LH()), old(cache.cur))[..k]
      ensures outstanding == 0 && ok ==>
                && LogOk() && n == 0 && !committing && ncommit == old(ncommit) + 1 && cache.cur == cache.disk
                && cache.disk ==
                   Apply(old(cache.disk), CommitWrites(old(cache.disk)[start], start, old(LH()), old(cache.cur)))
      ensures outstanding == 0 && !ok ==> committing && ncommit == old(ncommit)
    {
      hide BCache.Inv, Apply, CommitWrites, PinsAre, PinnedFrom, Clean, ValidLog, Loggable, GetWord;
      var doCommit := false;
      outstanding := outstanding - 1;
      if outstanding == 0 {
        doCommit := true;
        committing := true;
      }
      if doCommit {
        ok, k := Commit(me);
        if ok {
          committing := false;
          ncommit := ncommit + 1;
        }
      } else {
        ok, k := true, 0;
      }
    }
  }
}
