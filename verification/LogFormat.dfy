/** The on-disk write-ahead log, on values: the header block, the block writes
    that a commit and a recovery perform, and what any cut in them leaves behind. */
module LogFormat {
  import opened Basics
  import opened Blocks

  const MAXOPBLOCKS: nat := 10
  const LOGBLOCKS: nat := 3 * MAXOPBLOCKS

  /** One block write as seen by the device: atomic, in issue order. */
  datatype Write = Write(b: nat, data: Block)

  // ----- geometry -----

  /** The log area: the header block and LOGBLOCKS data blocks after it. */
  predicate InLog(start: nat, b: nat) { start <= b <= start + LOGBLOCKS }

  ghost predicate HasLog(d: Disk, start: nat) {
    forall b :: InLog(start, b) ==> b in d
  }

  /** Numbers that may be logged: distinct blocks of the disk outside the log. */
  predicate Loggable(keys: set<nat>, start: nat, lh: seq<nat>) {
    && |lh| <= LOGBLOCKS
    && Distinct(lh)
    && forall i :: 0 <= i < |lh| ==> lh[i] in keys && !InLog(start, lh[i]) && lh[i] < 0x8000_0000
  }

  // ----- the header block -----

  /** Reads `n` and `block[0..n)` out of a header block. */
  function ReadHeader(b: Block): (lh: seq<nat>)
    requires GetWord(b, 0) <= LOGBLOCKS
  {
    seq(GetWord(b, 0), i requires 0 <= i < GetWord(b, 0) => GetWord(b, i + 1) as nat)
  }

  /** Stores the first `k` entries of `lh.block[]`. */
  function PutEntries(b: Block, lh: seq<nat>, k: nat): (r: Block)
    requires k <= |lh| <= LOGBLOCKS
    requires forall i :: 0 <= i < |lh| ==> lh[i] < 0x8000_0000
  {
    if k == 0 then b else PutWord(PutEntries(b, lh, k - 1), k, lh[k - 1])
  }

  /** The header block that write_head builds over the old header block:
      entries past `n` keep their stale values. */
  function PutHeader(b: Block, lh: seq<nat>): (r: Block)
    requires |lh| <= LOGBLOCKS
    requires forall i :: 0 <= i < |lh| ==> lh[i] < 0x8000_0000
  {
    PutEntries(PutWord(b, 0, |lh|), lh, |lh|)
  }

  lemma {:induction false} PutEntriesWords(b: Block, lh: seq<nat>, k: nat, j: nat)
    requires k <= |lh| <= LOGBLOCKS && j < WORDS
    requires forall i :: 0 <= i < |lh| ==> lh[i] < 0x8000_0000
    ensures GetWord(PutEntries(b, lh, k), j) == if 1 <= j <= k then lh[j - 1] else GetWord(b, j)
  {
    if k > 0 {
      PutEntriesWords(b, lh, k - 1, j);
      GetPutWord(PutEntries(b, lh, k - 1), k, lh[k - 1], j);
    }
  }

  /** Header round trip: what write_head stores, read_head loads. */
  lemma HeaderRoundTrip(b: Block, lh: seq<nat>)
    requires |lh| <= LOGBLOCKS
    requires forall i :: 0 <= i < |lh| ==> lh[i] < 0x8000_0000
    ensures GetWord(PutHeader(b, lh), 0) == |lh|
    ensures ReadHeader(PutHeader(b, lh)) == lh
  {
    var b0 := PutWord(b, 0, |lh|);
    GetPutWord(b, 0, |lh|, 0);
    PutEntriesWords(b0, lh, |lh|, 0);
    forall i | 0 <= i < |lh| ensures GetWord(PutHeader(b, lh), i + 1) == lh[i] {
      PutEntriesWords(b0, lh, |lh|, i + 1);
    }
  }

  /** A disk whose log header can be trusted by recovery. */
  ghost predicate ValidLog(d: Disk, start: nat) {
    && HasLog(d, start)
    && GetWord(d[start], 0) <= LOGBLOCKS
    && Loggable(d.Keys, start, ReadHeader(d[start]))
  }

  // ----- applying writes -----

  /** The disk after the writes `ws`, in order. */
  function Apply(d: Disk, ws: seq<Write>): (r: Disk)
  {
    if ws == [] then d
    else Apply(d, ws[..|ws| - 1])[ws[|ws| - 1].b := ws[|ws| - 1].data]
  }

  lemma {:induction false} ApplyConcat(d: Disk, v: seq<Write>, w: seq<Write>)
    ensures Apply(d, v + w) == Apply(Apply(d, v), w)
  {
    if w == [] {
      assert v + w == v;
    } else {
      var m := |w| - 1;
      ApplyConcat(d, v, w[..m]);
      assert (v + w)[..|v + w| - 1] == v + w[..m];
    }
  }

  lemma {:induction false} ApplyKeys(d: Disk, ws: seq<Write>)
    requires forall i :: 0 <= i < |ws| ==> ws[i].b in d
    ensures Apply(d, ws).Keys == d.Keys
  {
    if ws != [] { ApplyKeys(d, ws[..|ws| - 1]); }
  }

  /** Blocks that no write targets keep their contents. */
  lemma {:induction false} ApplyElsewhere(d: Disk, ws: seq<Write>, b: nat)
    requires b in d
    requires forall i :: 0 <= i < |ws| ==> ws[i].b != b
    ensures b in Apply(d, ws) && Apply(d, ws)[b] == d[b]
  {
    if ws != [] { ApplyElsewhere(d, ws[..|ws| - 1], b); }
  }

  /** A block targeted once, by write i, holds that write's data. */
  lemma {:induction false} ApplyAt(d: Disk, ws: seq<Write>, i: nat)
    requires i < |ws|
    requires forall j :: 0 <= j < |ws| && j != i ==> ws[j].b != ws[i].b
    ensures ws[i].b in Apply(d, ws) && Apply(d, ws)[ws[i].b] == ws[i].data
  {
    if i < |ws| - 1 { ApplyAt(d, ws[..|ws| - 1], i); }
  }

  // ----- what a disk means -----

  ghost function IndexOf(lh: seq<nat>, b: nat): (i: nat)
    requires b in lh
    ensures i < |lh| && lh[i] == b
  {
    var i :| 0 <= i < |lh| && lh[i] == b; i
  }

  /** The blocks outside the log area. */
  function Home(d: Disk, start: nat): (h: Disk)
  {
    map b | b in d && !InLog(start, b) :: d[b]
  }

  /** `h` with the logged blocks taken from `view`. */
  function Overlay(h: Disk, lh: seq<nat>, view: Disk): (r: Disk)
  {
    map b | b in h :: if b in lh && b in view then view[b] else h[b]
  }

  /** The home blocks that a completed recovery of `d` would leave: the header
      redirects each logged block to its copy in the log. */
  ghost function Recovered(d: Disk, start: nat): (h: Disk)
    requires ValidLog(d, start)
  {
    Redirected(d, start, ReadHeader(d[start]))
  }

  ghost function Redirected(d: Disk, start: nat, lh: seq<nat>): (h: Disk)
    requires HasLog(d, start) && |lh| <= LOGBLOCKS
  {
    map b | b in d && !InLog(start, b) :: if b in lh then d[start + 1 + IndexOf(lh, b)] else d[b]
  }

  // ----- the writes of commit() and recover_from_log() -----

  /** write_log: the logged blocks, from the cache, into the log. */
  function LogWrites(start: nat, lh: seq<nat>, view: Disk): (ws: seq<Write>)
    requires forall i :: 0 <= i < |lh| ==> lh[i] in view
  {
    seq(|lh|, i requires 0 <= i < |lh| => Write(start + 1 + i, view[lh[i]]))
  }

  /** install_trans: the log's copies to their home locations. */
  function InstallWrites(lh: seq<nat>, copies: seq<Block>): (ws: seq<Write>)
    requires |copies| == |lh|
  {
    seq(|lh|, i requires 0 <= i < |lh| => Write(lh[i], copies[i]))
  }

  function Pick(lh: seq<nat>, view: Disk): (r: seq<Block>)
    requires forall i :: 0 <= i < |lh| ==> lh[i] in view
  {
    seq(|lh|, i requires 0 <= i < |lh| => view[lh[i]])
  }

  function LogCopies(d: Disk, start: nat, n: nat): (r: seq<Block>)
    requires HasLog(d, start) && n <= LOGBLOCKS
  {
    seq(n, i requires 0 <= i < n => d[start + 1 + i])
  }

  /** All of commit(): log, header, install, erase; nothing when no block is logged. */
  function CommitWrites(header: Block, start: nat, lh: seq<nat>, view: Disk): (ws: seq<Write>)
    requires |lh| <= LOGBLOCKS
    requires forall i :: 0 <= i < |lh| ==> lh[i] in view && lh[i] < 0x8000_0000
  {
    if lh == [] then [] else
      LogWrites(start, lh, view)
      + [Write(start, PutHeader(header, lh))]
      + InstallWrites(lh, Pick(lh, view))
      + [Write(start, PutHeader(PutHeader(header, lh), []))]
  }

  /** All of recover_from_log(): install what the header lists, then erase it. */
  ghost function RecoveryWrites(d: Disk, start: nat): (ws: seq<Write>)
    requires ValidLog(d, start)
  {
    var lh := ReadHeader(d[start]);
    InstallWrites(lh, LogCopies(d, start, |lh|)) + [Write(start, PutHeader(d[start], []))]
  }

  /** What the log area holds once commit has written the header, byte by byte: the count and the block numbers in the
      first block, low byte first, and after it the blocks in that order. */
  lemma LogLayout(d: Disk, start: nat, lh: seq<nat>, view: Disk, i: nat)
    requires ValidLog(d, start) && ReadHeader(d[start]) == [] && Loggable(d.Keys, start, lh) && i < |lh|
    requires forall k :: 0 <= k < |lh| ==> lh[k] in view
    ensures |lh| + 1 <= |CommitWrites(d[start], start, lh, view)|
    ensures var d' := Apply(d, CommitWrites(d[start], start, lh, view)[..|lh| + 1]);
            && start in d' && Bytes(d'[start], 0, 4) == |lh| && Bytes(d'[start], 4 + 4 * i, 4) == lh[i]
            && start + 1 + i in d' && d'[start + 1 + i] == view[lh[i]]
  {
    hide GetWord, Bytes, Apply, CommitWrites, HeadedWrites;
    HeadedIs(d[start], start, lh, view);
    Headed(d, start, lh, view);
    var d' := Apply(d, HeadedWrites(d[start], start, lh, view));
    assert LogCopies(d', start, |lh|)[i] == Pick(lh, view)[i];
    assert ReadHeader(d'[start])[i] == lh[i];
    FourBytes(d'[start], 0);
    FourBytes(d'[start], i + 1);
  }

  lemma HeadedIs(header: Block, start: nat, lh: seq<nat>, view: Disk)
    requires 0 < |lh| <= LOGBLOCKS && forall k :: 0 <= k < |lh| ==> lh[k] in view && lh[k] < 0x8000_0000
    ensures |lh| + 1 <= |CommitWrites(header, start, lh, view)|
    ensures CommitWrites(header, start, lh, view)[..|lh| + 1] == HeadedWrites(header, start, lh, view)
  {
    hide PutHeader, GetWord;
  }

  // ----- crash atomicity -----

  /** An empty header means the home blocks are what they are. */
  lemma EmptyLogRecovers(d: Disk, start: nat)
    requires ValidLog(d, start) && ReadHeader(d[start]) == []
    ensures Recovered(d, start) == Home(d, start)
  {
  }

  /** Cutting commit before its header write: the old blocks. */
  lemma CutBeforeHeader(d: Disk, start: nat, lh: seq<nat>, view: Disk, k: nat)
    requires ValidLog(d, start) && ReadHeader(d[start]) == []
    requires Loggable(d.Keys, start, lh)
    requires forall i :: 0 <= i < |lh| ==> lh[i] in view
    requires k <= |lh|
    ensures var d' := Apply(d, LogWrites(start, lh, view)[..k]);
            ValidLog(d', start) && Recovered(d', start) == Home(d, start) && Home(d', start) == Home(d, start)
  {
    var ws := LogWrites(start, lh, view)[..k];
    ApplyKeys(d, ws);
    forall b | b in d && (b == start || !InLog(start, b)) ensures Apply(d, ws)[b] == d[b] {
      ApplyElsewhere(d, ws, b);
    }
    EmptyLogRecovers(Apply(d, ws), start);
  }

  /** A disk whose header lists `lh`, whose log holds `copies`, and whose home
      blocks are `h` except for some already installed copies. */
  ghost predicate Committed(d: Disk, start: nat, lh: seq<nat>, copies: seq<Block>, h: Disk) {
    && HasLog(d, start)
    && |copies| == |lh| <= LOGBLOCKS
    && Loggable(d.Keys, start, lh)
    && GetWord(d[start], 0) <= LOGBLOCKS && ReadHeader(d[start]) == lh
    && LogCopies(d, start, |lh|) == copies
    && h.Keys == Home(d, start).Keys
    && forall b :: b in h && b !in lh ==> d[b] == h[b]
  }

  ghost function Install(h: Disk, lh: seq<nat>, copies: seq<Block>): (r: Disk)
    requires |copies| == |lh|
  {
    map b | b in h :: if b in lh then copies[IndexOf(lh, b)] else h[b]
  }

  lemma RedirectedInstalls(d: Disk, start: nat, lh: seq<nat>, copies: seq<Block>, h: Disk)
    requires HasLog(d, start) && |copies| == |lh| <= LOGBLOCKS
    requires forall i :: 0 <= i < |lh| ==> copies[i] == d[start + 1 + i]
    requires h.Keys == Home(d, start).Keys
    requires forall b :: b in h && b !in lh ==> d[b] == h[b]
    ensures Redirected(d, start, lh) == Install(h, lh, copies)
  {
    var r, t := Redirected(d, start, lh), Install(h, lh, copies);
    assert r.Keys == t.Keys;
    forall b | b in h ensures r[b] == t[b] {
      if b in lh {
        assert copies[IndexOf(lh, b)] == d[start + 1 + IndexOf(lh, b)];
      }
    }
  }

  lemma CommittedRecovers(d: Disk, start: nat, lh: seq<nat>, copies: seq<Block>, h: Disk)
    requires Committed(d, start, lh, copies, h)
    ensures ValidLog(d, start) && Recovered(d, start) == Install(h, lh, copies)
  {
    RedirectedInstalls(d, start, lh, copies, h);
  }

  /** Installing any prefix of the log keeps the disk committed. */
  lemma CutWhileInstalling(d: Disk, start: nat, lh: seq<nat>, copies: seq<Block>, h: Disk, k: nat)
    requires Committed(d, start, lh, copies, h) && k <= |lh|
    ensures Committed(Apply(d, InstallWrites(lh, copies)[..k]), start, lh, copies, h)
  {
    hide Apply;
    var ws := InstallWrites(lh, copies)[..k];
    var d' := Apply(d, ws);
    assert forall i :: 0 <= i < |ws| ==> ws[i].b == lh[i];
    ApplyKeys(d, ws);
    forall b | b in d && b !in lh ensures d'[b] == d[b] {
      ApplyElsewhere(d, ws, b);
    }
    assert forall b :: InLog(start, b) ==> b !in lh;
    assert LogCopies(d', start, |lh|) == LogCopies(d, start, |lh|);
  }

  /** Installing the whole log puts its copies at home and leaves the log alone. */
  lemma Installed(d: Disk, start: nat, lh: seq<nat>, copies: seq<Block>, h: Disk)
    requires Committed(d, start, lh, copies, h)
    ensures var d' := Apply(d, InstallWrites(lh, copies));
            d'.Keys == d.Keys && Home(d', start) == Install(h, lh, copies)
  {
    var ws := InstallWrites(lh, copies);
    var d' := Apply(d, ws);
    ApplyKeys(d, ws);
    forall b | b in h ensures d'[b] == Install(h, lh, copies)[b] {
      if b in lh {
        ApplyAt(d, ws, IndexOf(lh, b));
      } else {
        ApplyElsewhere(d, ws, b);
      }
    }
  }

  /** Erasing the header empties the log and touches no home block. */
  lemma Erased(d: Disk, start: nat, header: Block)
    requires HasLog(d, start)
    ensures var d' := d[start := PutHeader(header, [])];
            && d'.Keys == d.Keys
            && ValidLog(d', start) && ReadHeader(d'[start]) == []
            && Home(d', start) == Home(d, start)
            && Recovered(d', start) == Home(d, start)
  {
    HeaderRoundTrip(header, []);
    var d' := d[start := PutHeader(header, [])];
    assert d'.Keys == d.Keys;
    assert Home(d', start) == Home(d, start);
    EmptyLogRecovers(d', start);
  }

  lemma ApplySnoc(d: Disk, ws: seq<Write>, e: Write)
    ensures Apply(d, ws + [e]) == Apply(d, ws)[e.b := e.data]
  {
    assert (ws + [e])[..|ws + [e]| - 1] == ws;
  }

  /** Installing the whole log and erasing the header leaves the new blocks at home. */
  lemma InstallThenErase(d: Disk, start: nat, lh: seq<nat>, copies: seq<Block>, h: Disk, header: Block)
    requires Committed(d, start, lh, copies, h)
    ensures var d' := Apply(d, InstallWrites(lh, copies) + [Write(start, PutHeader(header, []))]);
            && ValidLog(d', start) && ReadHeader(d'[start]) == []
            && Home(d', start) == Install(h, lh, copies)
            && Recovered(d', start) == Home(d', start)
  {
    var ws := InstallWrites(lh, copies);
    Installed(d, start, lh, copies, h);
    Erased(Apply(d, ws), start, header);
    ApplySnoc(d, ws, Write(start, PutHeader(header, [])));
  }

  /** After write_log the log area holds the cached copies; all else is as before. */
  lemma LogWritten(d: Disk, start: nat, lh: seq<nat>, view: Disk)
    requires HasLog(d, start) && |lh| <= LOGBLOCKS
    requires forall i :: 0 <= i < |lh| ==> lh[i] in view
    ensures var d' := Apply(d, LogWrites(start, lh, view));
            && d'.Keys == d.Keys
            && LogCopies(d', start, |lh|) == Pick(lh, view)
            && Home(d', start) == Home(d, start)
  {
    var ws := LogWrites(start, lh, view);
    var d' := Apply(d, ws);
    ApplyKeys(d, ws);
    forall i | 0 <= i < |lh| ensures d'[start + 1 + i] == view[lh[i]] {
      ApplyAt(d, ws, i);
    }
    forall b | b in d && !InLog(start, b) ensures d'[b] == d[b] {
      ApplyElsewhere(d, ws, b);
    }
    assert Home(d', start) == Home(d, start);
  }

  /** The header write turns a written log into a committed transaction. */
  lemma HeaderWriteCommits(d: Disk, start: nat, lh: seq<nat>, copies: seq<Block>, header: Block)
    requires HasLog(d, start) && Loggable(d.Keys, start, lh)
    requires LogCopies(d, start, |lh|) == copies
    ensures Committed(d[start := PutHeader(header, lh)], start, lh, copies, Home(d, start))
  {
    HeaderRoundTrip(header, lh);
    var d' := d[start := PutHeader(header, lh)];
    assert d'.Keys == d.Keys;
    assert LogCopies(d', start, |lh|) == LogCopies(d, start, |lh|);
    assert Home(d', start) == Home(d, start);
  }

  /** The writes of commit up to and including the header write. */
  function HeadedWrites(header: Block, start: nat, lh: seq<nat>, view: Disk): (ws: seq<Write>)
    requires |lh| <= LOGBLOCKS
    requires forall i :: 0 <= i < |lh| ==> lh[i] in view && lh[i] < 0x8000_0000
  {
    LogWrites(start, lh, view) + [Write(start, PutHeader(header, lh))]
  }

  lemma Headed(d: Disk, start: nat, lh: seq<nat>, view: Disk)
    requires HasLog(d, start)
    requires Loggable(d.Keys, start, lh)
    requires forall i :: 0 <= i < |lh| ==> lh[i] in view
    ensures Committed(Apply(d, HeadedWrites(d[start], start, lh, view)), start, lh, Pick(lh, view), Home(d, start))
  {
    var ws := LogWrites(start, lh, view);
    LogWritten(d, start, lh, view);
    HeaderWriteCommits(Apply(d, ws), start, lh, Pick(lh, view), d[start]);
    ApplySnoc(d, ws, Write(start, PutHeader(d[start], lh)));
  }

  lemma InstallIsOverlay(h: Disk, lh: seq<nat>, view: Disk)
    requires forall i :: 0 <= i < |lh| ==> lh[i] in view
    ensures Install(h, lh, Pick(lh, view)) == Overlay(h, lh, view)
  {
  }

  /** A prefix of the commit writes is a prefix of write_log's, or all up to the
      header followed by some installs, or everything. */
  lemma CommitPrefix(header: Block, start: nat, lh: seq<nat>, view: Disk, k: nat)
    requires 0 < |lh| <= LOGBLOCKS
    requires forall i :: 0 <= i < |lh| ==> lh[i] in view && lh[i] < 0x8000_0000
    requires k <= |CommitWrites(header, start, lh, view)|
    ensures |CommitWrites(header, start, lh, view)| == 2 * |lh| + 2
    ensures var p := CommitWrites(header, start, lh, view)[..k];
            var inst := InstallWrites(lh, Pick(lh, view));
            var headed := HeadedWrites(header, start, lh, view);
            if k <= |lh| then p == LogWrites(start, lh, view)[..k]
            else if k <= 2 * |lh| + 1 then p == headed + inst[..k - |lh| - 1]
            else p == headed + (inst + [Write(start, PutHeader(PutHeader(header, lh), []))])
  {
  }

  /** Crash atomicity of commit: after any number k of its block writes the disk
      recovers to all old blocks or all new ones, decided by whether the header
      write (write number |lh|) is among the k. */
  lemma CommitCut(d: Disk, start: nat, lh: seq<nat>, view: Disk, k: nat)
    requires ValidLog(d, start) && ReadHeader(d[start]) == []
    requires Loggable(d.Keys, start, lh)
    requires forall i :: 0 <= i < |lh| ==> lh[i] in view
    requires k <= |CommitWrites(d[start], start, lh, view)|
    ensures var d' := Apply(d, CommitWrites(d[start], start, lh, view)[..k]);
            && ValidLog(d', start)
            && Recovered(d', start) == (if k <= |lh| then Home(d, start) else Overlay(Home(d, start), lh, view))
            && (k == |CommitWrites(d[start], start, lh, view)| ==>
                  ReadHeader(d'[start]) == [] && Home(d', start) == Overlay(Home(d, start), lh, view))
  {
    if lh == [] {
      EmptyLogRecovers(d, start);
      assert Overlay(Home(d, start), lh, view) == Home(d, start);
    } else {
      CommitPrefix(d[start], start, lh, view, k);
      if k <= |lh| {
        CutBeforeHeader(d, start, lh, view, k);
      } else {
        CommitCutAfterHeader(d, start, lh, view, k);
      }
    }
  }

  lemma CommitCutAfterHeader(d: Disk, start: nat, lh: seq<nat>, view: Disk, k: nat)
    requires HasLog(d, start)
    requires Loggable(d.Keys, start, lh) && lh != []
    requires forall i :: 0 <= i < |lh| ==> lh[i] in view
    requires |lh| < k <= |CommitWrites(d[start], start, lh, view)|
    ensures var d' := Apply(d, CommitWrites(d[start], start, lh, view)[..k]);
            && ValidLog(d', start)
            && Recovered(d', start) == Overlay(Home(d, start), lh, view)
            && (k == |CommitWrites(d[start], start, lh, view)| ==>
                  ReadHeader(d'[start]) == [] && Home(d', start) == Overlay(Home(d, start), lh, view))
  {
    var n, h, copies := |lh|, Home(d, start), Pick(lh, view);
    var headed := HeadedWrites(d[start], start, lh, view);
    var inst := InstallWrites(lh, copies);
    var d1 := Apply(d, headed);
    Headed(d, start, lh, view);
    InstallIsOverlay(h, lh, view);
    CommitPrefix(d[start], start, lh, view, k);
    if k <= 2 * n + 1 {
      ApplyConcat(d, headed, inst[..k - n - 1]);
      CutWhileInstalling(d1, start, lh, copies, h, k - n - 1);
      CommittedRecovers(Apply(d1, inst[..k - n - 1]), start, lh, copies, h);
    } else {
      var erase := [Write(start, PutHeader(PutHeader(d[start], lh), []))];
      ApplyConcat(d, headed, inst + erase);
      InstallThenErase(d1, start, lh, copies, h, PutHeader(d[start], lh));
    }
  }

  /** Cutting recovery after any k of its writes changes nothing a later
      recovery would see; completing it puts the recovered blocks at home. */
  lemma RecoveryCut(d: Disk, start: nat, k: nat)
    requires ValidLog(d, start)
    requires k <= |RecoveryWrites(d, start)|
    ensures var d' := Apply(d, RecoveryWrites(d, start)[..k]);
            && ValidLog(d', start)
            && d'.Keys == d.Keys
            && Recovered(d', start) == Recovered(d, start)
            && (k == |RecoveryWrites(d, start)| ==>
                  ReadHeader(d'[start]) == [] && Home(d', start) == Recovered(d, start))
  {
    var lh := ReadHeader(d[start]);
    var copies := LogCopies(d, start, |lh|);
    var ws := InstallWrites(lh, copies);
    var all := RecoveryWrites(d, start);
    var h := Home(d, start);
    assert forall i :: 0 <= i < |all| ==> all[i].b in d;
    ApplyKeys(d, all[..k]);
    CommittedRecovers(d, start, lh, copies, h);
    if k <= |lh| {
      assert all[..k] == ws[..k];
      CutWhileInstalling(d, start, lh, copies, h, k);
      CommittedRecovers(Apply(d, ws[..k]), start, lh, copies, h);
    } else {
      assert all[..k] == all;
      InstallThenErase(d, start, lh, copies, h, d[start]);
    }
  }

  /** Recovery attempts that are each cut off after some number of writes. */
  ghost function CutRecoveries(d: Disk, start: nat, cuts: seq<nat>): (r: Disk)
    requires ValidLog(d, start)
    ensures ValidLog(r, start) && r.Keys == d.Keys && Recovered(r, start) == Recovered(d, start)
  {
    if cuts == [] then d
    else
      var r := CutRecoveries(d, start, cuts[..|cuts| - 1]);
      var ws := RecoveryWrites(r, start);
      var k := if cuts[|cuts| - 1] <= |ws| then cuts[|cuts| - 1] else |ws|;
      RecoveryCut(r, start, k);
      Apply(r, ws[..k])
  }

  /** The whole story of one transaction: commit is cut after k writes, recovery
      is cut off any number of times, and the recovery that finishes leaves every
      logged home block old or every one new. */
  lemma CrashAtomicity(d: Disk, start: nat, lh: seq<nat>, view: Disk, k: nat, cuts: seq<nat>)
    requires ValidLog(d, start) && ReadHeader(d[start]) == []
    requires Loggable(d.Keys, start, lh)
    requires forall i :: 0 <= i < |lh| ==> lh[i] in view
    requires k <= |CommitWrites(d[start], start, lh, view)|
    ensures ValidLog(Apply(d, CommitWrites(d[start], start, lh, view)[..k]), start)
    ensures var crashed := Apply(d, CommitWrites(d[start], start, lh, view)[..k]);
            var retried := CutRecoveries(crashed, start, cuts);
            var final := Apply(retried, RecoveryWrites(retried, start));
            && ValidLog(final, start) && ReadHeader(final[start]) == []
            && Home(final, start) == (if k <= |lh| then Home(d, start) else Overlay(Home(d, start), lh, view))
  {
    CommitCut(d, start, lh, view, k);
    var crashed := Apply(d, CommitWrites(d[start], start, lh, view)[..k]);
    var retried := CutRecoveries(crashed, start, cuts);
    var ws := RecoveryWrites(retried, start);
    RecoveryCut(retried, start, |ws|);
    assert ws[..|ws|] == ws;
  }
}
