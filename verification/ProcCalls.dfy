/** fork, exit and wait as calls: what each leaves when it returns, over whole runs of the state machine, and
    what can happen to a process between. */
module ProcCalls {

  import opened Basics
  import opened Proc

  // ----- what a step does to a slot -----

  /** What a step can do to the slot k of another process. */
  ghost predicate ByOther(s: State, a: Action, k: nat, q: Slot)
    requires a.i < |s.procs| && k < |s.procs|
  {
    var i, p, pc := a.i, s.procs[k], s.procs[a.i].pc;
    || q == p.(plock := q.plock)
    || (a == BeginFork(i, k) && pc.User? && p.st.UNUSED?
        && q == p.(st := USED, maker := Some(i), plock := By(i), id := NoId.(pid := s.nextpid)))
    || (a == FailFork(i) && pc.ForkHeld? && pc.c == k
        && q == p.(st := UNUSED, maker := None, parent := None, chan := None, killed := false, id := NoId))
    || (pc == ForkName(k) && q == p.(parent := Some(i)))
    || (pc == ForkSet(k) && q == p.(st := RUNNABLE, maker := None, pc := User))
    || (pc == Reparent(k) && p.parent == Some(i) && q == p.(parent := Some(INIT)))
    || (pc.ReparentHeld? && pc.k == k && q == Woken(p, Some(INIT)))
    || (pc == ExitHeld(k) && q == Woken(p, s.procs[i].parent))
    || (pc.WaitHeld? && pc.j == k && p.st.ZOMBIE?
        && q == Slot(Dead, UNUSED, None, None, p.plock, false, None, p.exits, p.reaps + 1, NoId))
  }

  lemma ForkOther(s: State, i: nat, k: nat)
    requires i < |s.procs| && InFork(s.procs[i].pc) && ForkEnabled(s, i) && k < |s.procs| && k != i
    ensures k < |DoFork(s, i).procs| && ByOther(s, Step(i), k, DoFork(s, i).procs[k])
  {
  }

  lemma ExitOther(s: State, i: nat, k: nat)
    requires i < |s.procs| && InKexit(s.procs[i].pc) && ExitEnabled(s, i) && k < |s.procs| && k != i
    ensures k < |DoExit(s, i).procs| && ByOther(s, Step(i), k, DoExit(s, i).procs[k])
  {
    hide Woken;
  }

  lemma WaitOther(s: State, i: nat, k: nat)
    requires i < |s.procs| && InKwait(s.procs[i].pc) && WaitEnabled(s, i) && k < |s.procs| && k != i
    ensures k < |DoWait(s, i).procs| && ByOther(s, Step(i), k, DoWait(s, i).procs[k])
  {
  }

  lemma SleepOther(s: State, i: nat, k: nat)
    requires i < |s.procs| && InSleep(s.procs[i].pc) && SleepEnabled(s, i) && k < |s.procs| && k != i
    ensures k < |DoSleep(s, i).procs| && DoSleep(s, i).procs[k] == s.procs[k]
  {
  }

  lemma StepOther(s: State, a: Action, k: nat)
    requires Enabled(s, a) && k < |s.procs| && k != a.i
    ensures k < |Do(s, a).procs| && ByOther(s, a, k, Do(s, a).procs[k])
  {
    hide DoFork, DoExit, DoWait, DoSleep, ForkEnabled, ExitEnabled, WaitEnabled, SleepEnabled, InFork, InKexit;
    hide InKwait, InSleep, Woken;
    if a.Step? {
      var pc := s.procs[a.i].pc;
      Disjoint(pc);
      if InFork(pc) { ForkOther(s, a.i, k); } else if InKexit(pc) { ExitOther(s, a.i, k); }
      else if InKwait(pc) { WaitOther(s, a.i, k); } else { SleepOther(s, a.i, k); }
    }
  }

  /** A process that is alive keeps its place and its results through the steps of others. */
  lemma OtherKeepsPlace(s: State, a: Action, k: nat)
    requires Inv(s) && Enabled(s, a) && k < |s.procs| && k != a.i && Alive(s.procs[k].st)
    ensures k < |Do(s, a).procs| && Do(s, a).procs[k].pc == s.procs[k].pc && Do(s, a).procs[k].id == s.procs[k].id
    ensures Alive(Do(s, a).procs[k].st)
  {
    hide Inv, Locks, FamilyOk, WaitOk, LockOk, Enabled, Do;
    EnabledActor(s, a);
    InvAt(s, a.i);
    InvAt(s, k);
    StepOther(s, a, k);
  }

  lemma EnabledActor(s: State, a: Action)
    requires Enabled(s, a)
    ensures a.i < |s.procs|
  {
  }

  // ----- wait -----

  predicate InCall(pc: Pc) { InKwait(pc) || InSleep(pc) || pc.Asleep? }

  /** From s to s' process i frees the slot of its zombie child c, and has its pid and exit status for a result. */
  ghost predicate Collects(s: State, s': State, i: nat, c: nat) {
    && i < |s.procs| == |s'.procs| && Child(s, i, c) && s.procs[c].st.ZOMBIE? && s'.procs[c].st.UNUSED?
    && s'.procs[i].id.ret == s.procs[c].id.pid && s'.procs[i].id.got == s.procs[c].id.xstate
  }

  /** The zombie child c is left as it is: its status could not be copied out. */
  ghost predicate Leaves(s: State, s': State, i: nat, c: nat) {
    && i < |s.procs| == |s'.procs| && Child(s, i, c) && s.procs[c].st.ZOMBIE? && s'.procs[c].st.ZOMBIE?
    && s'.procs[i].id.ret == -1
  }

  /** How a process gets on inside wait. */
  ghost predicate WaitMove(s: State, s': State, i: nat)
    requires i < |s.procs| == |s'.procs|
  {
    var p, q := s.procs[i], s'.procs[i];
    || (q.pc == p.pc && q.id == p.id)
    || (match p.pc
        case WaitScan(_, _) => (q.pc.WaitScan? || q.pc.WaitHeld? || q.pc.WaitTest?) && q.id == p.id
        case WaitHeld(j, _) =>
          || (q.pc.WaitScan? && q.id == p.id)
          || (q.pc == WaitReaped(j) && Collects(s, s', i, j))
          || (q.pc.WaitEnd? && Leaves(s, s', i, j))
        case WaitTest(_) =>
          if p.killed || !HasChild(s, i) then q.pc.WaitEnd? && q.id.ret == -1 else q.pc.SleepLock? && q.id == p.id
        case WaitReaped(_) => q.pc.WaitEnd? && q.id == p.id
        case WaitEnd => q.pc.User? && q.id == p.id
        case SleepLock => q.pc.SleepRelease? && q.id == p.id
        case SleepRelease => q.pc.SleepSet? && q.id == p.id
        case SleepSet => q.pc.SleepSwitch? && q.id == p.id && q.st.SLEEPING? && q.chan == Some(i)
        case SleepSwitch => q.pc.Asleep? && q.id == p.id
        case Asleep => q.pc.Awake? && q.id == p.id
        case Awake => q.pc.AwakeRelease? && q.id == p.id
        case AwakeRelease => q.pc.AwakeLock? && q.id == p.id
        case AwakeLock => q.pc.WaitScan? && q.id == p.id
        case _ => false)
  }

  lemma KwaitMoves(s: State, i: nat)
    requires Inv(s) && i < |s.procs| && InKwait(s.procs[i].pc) && WaitEnabled(s, i)
    ensures |DoWait(s, i).procs| == |s.procs| && WaitMove(s, DoWait(s, i), i)
  {
    hide Inv, Locks, FamilyOk, WaitingOk, ToldOk, HasWait, HasOwn, StateOk;
    InvAt(s, i);
    if s.procs[i].pc.WaitTest? && !s.procs[i].pc.kids {
      assert forall c: nat :: !Child(s, i, c);
    }
  }

  lemma SleepMoves(s: State, i: nat)
    requires i < |s.procs| && InSleep(s.procs[i].pc) && SleepEnabled(s, i)
    ensures |DoSleep(s, i).procs| == |s.procs| && WaitMove(s, DoSleep(s, i), i)
  {
  }

  lemma FailCopyMoves(s: State, i: nat)
    requires Inv(s) && Enabled(s, FailCopy(i))
    ensures |Do(s, FailCopy(i)).procs| == |s.procs| && WaitMove(s, Do(s, FailCopy(i)), i)
  {
    hide Inv, Locks, FamilyOk, WaitingOk, ToldOk, HasWait, HasOwn, StateOk;
    InvAt(s, i);
  }

  lemma WaitMoves(s: State, a: Action, i: nat)
    requires Inv(s) && Enabled(s, a) && i < |s.procs| && InCall(s.procs[i].pc)
    ensures |Do(s, a).procs| == |s.procs| && WaitMove(s, Do(s, a), i)
  {
    hide Inv, WaitMove, DoFork, DoExit, DoWait, DoSleep, ForkEnabled, ExitEnabled, WaitEnabled, SleepEnabled;
    hide HasChild;
    SameSlots(s, a);
    CallIsAlive(s, i);
    Disjoint(s.procs[i].pc);
    match a {
      case Step(k) =>
        if k != i { OtherMoves(s, a, i); }
        else if InKwait(s.procs[i].pc) { KwaitMoves(s, i); } else { SleepMoves(s, i); }
      case FailCopy(k) => if k != i { OtherMoves(s, a, i); } else { FailCopyMoves(s, i); }
      case _ => if a.i != i { OtherMoves(s, a, i); } else { QuietMoves(s, a); }
    }
  }

  lemma OtherMoves(s: State, a: Action, i: nat)
    requires Inv(s) && Enabled(s, a) && i < |s.procs| && Alive(s.procs[i].st) && a.i != i
    requires |Do(s, a).procs| == |s.procs|
    ensures WaitMove(s, Do(s, a), i)
  {
    hide Inv, Enabled, Do;
    OtherKeepsPlace(s, a, i);
  }

  lemma QuietMoves(s: State, a: Action)
    requires Enabled(s, a) && !a.Step? && !a.FailCopy? && InCall(s.procs[a.i].pc) && |Do(s, a).procs| == |s.procs|
    ensures WaitMove(s, Do(s, a), a.i)
  {
  }

  lemma CallIsAlive(s: State, i: nat)
    requires Inv(s) && i < |s.procs| && InCall(s.procs[i].pc)
    ensures Alive(s.procs[i].st)
  {
    hide Inv, Locks, FamilyOk, WaitOk, LockOk;
    InvAt(s, i);
  }

  /** In step t of the run process i frees the slot of child c. */
  ghost predicate ReapedAt(ss: seq<State>, t: nat, i: nat, c: nat) {
    && t + 1 < |ss| && Child(ss[t], i, c) && c < |ss[t + 1].procs|
    && ss[t].procs[c].st.ZOMBIE? && !ss[t + 1].procs[c].st.ZOMBIE?
  }

  lemma StepOf(ss: seq<State>, t: nat) returns (a: Action)
    requires Run(ss) && t + 1 < |ss|
    ensures Inv(ss[t]) && Enabled(ss[t], a) && Do(ss[t], a) == ss[t + 1] && |ss[t + 1].procs| == |ss[t].procs|
  {
    hide Inv, Enabled, Do;
    RunKeeps(ss, t);
    assert Next(ss, t);
    a :| Enabled(ss[t], a) && Do(ss[t], a) == ss[t + 1];
    SameSlots(ss[t], a);
  }

  /** Only wait frees slots, one in a step. */
  lemma ReapIsWait(ss: seq<State>, t: nat, i: nat, c: nat)
    requires Run(ss) && ReapedAt(ss, t, i, c)
    ensures i < |ss[t].procs| == |ss[t + 1].procs| && ss[t].procs[i].pc.WaitHeld? && ss[t].procs[i].pc.j == c
    ensures ss[t + 1].procs[i].pc == WaitReaped(c)
  {
    hide Inv, Enabled, Do, Run;
    var a := StepOf(ss, t);
    EnabledActor(ss[t], a);
    InvParent(ss[t], c, i);
    if a.i == c { OwnZombie(ss[t], a); }
    StepOther(ss[t], a, c);
    ReapOther(ss[t], a, i, c);
    HeldMoves(ss[t], a, i, c);
  }

  lemma InvParent(s: State, c: nat, i: nat)
    requires Inv(s) && Child(s, i, c)
    ensures i < |s.procs| && i != c
  {
    hide Inv, Locks, WaitOk, StateOk, LockOk;
    InvAt(s, c);
  }

  lemma OwnZombie(s: State, a: Action)
    requires Inv(s) && Enabled(s, a) && a.i < |s.procs| && s.procs[a.i].st.ZOMBIE?
    requires |Do(s, a).procs| == |s.procs|
    ensures Do(s, a).procs[a.i].st.ZOMBIE?
  {
    hide Inv, Locks, FamilyOk, WaitOk, LockOk;
    InvAt(s, a.i);
  }

  lemma ReapOther(s: State, a: Action, i: nat, c: nat)
    requires Inv(s) && Enabled(s, a) && Child(s, i, c) && c != a.i && s.procs[c].st.ZOMBIE? && a.i < |s.procs|
    requires c < |Do(s, a).procs| && !Do(s, a).procs[c].st.ZOMBIE? && ByOther(s, a, c, Do(s, a).procs[c])
    ensures a.i == i && s.procs[i].pc.WaitHeld? && s.procs[i].pc.j == c
  {
    hide Inv, Locks, FamilyOk, WaitingOk, ToldOk, LockOk, Enabled, Do;
    InvAt(s, a.i);
    InvAt(s, c);
  }

  lemma HeldMoves(s: State, a: Action, i: nat, c: nat)
    requires Inv(s) && Enabled(s, a) && i < |s.procs| == |Do(s, a).procs| && a.i == i && i != c && c < |s.procs|
    requires s.procs[i].pc.WaitHeld? && s.procs[i].pc.j == c
    requires s.procs[c].st.ZOMBIE? && !Do(s, a).procs[c].st.ZOMBIE?
    ensures Do(s, a).procs[i].pc == WaitReaped(c)
  {
    hide Inv, DoFork, DoExit, DoSleep;
  }

  /** A call of wait by process i begins with step a. */
  ghost predicate WaitBegins(ss: seq<State>, i: nat, a: nat) {
    && a + 1 < |ss| && i < |ss[a].procs| && i < |ss[a + 1].procs|
    && ss[a].procs[i].pc.User? && ss[a + 1].procs[i].pc.WaitScan?
  }

  /** Process i is not back in user code before state b. */
  ghost predicate Within(ss: seq<State>, i: nat, a: nat, b: nat) {
    b < |ss| && forall t | a < t < b :: i < |ss[t].procs| && !ss[t].procs[i].pc.User?
  }

  predicate Searching(pc: Pc) { pc.WaitScan? || pc.WaitHeld? || pc.WaitTest? || InSleep(pc) || pc.Asleep? }

  /** In step r the call settles on its result: a child is collected; or it gives up, because the process has been
      killed, has no child, or cannot take the status of a zombie child. */
  ghost predicate Settles(ss: seq<State>, i: nat, r: nat) {
    && r + 1 < |ss| && i < |ss[r].procs| && i < |ss[r + 1].procs|
    && var s, s' := ss[r], ss[r + 1];
       || (exists c :: Collects(s, s', i, c))
       || (s'.procs[i].id.ret == -1 && (s.procs[i].killed || !HasChild(s, i) || exists c :: Leaves(s, s', i, c)))
  }

  ghost predicate NoneReaped(ss: seq<State>, i: nat, a: nat, b: nat) {
    forall t, c | a <= t < b :: !ReapedAt(ss, t, i, c)
  }

  ghost predicate Settled(ss: seq<State>, i: nat, a: nat, b: nat, r: nat) {
    && a < r < b < |ss| && Settles(ss, i, r) && i < |ss[b].procs| && i < |ss[r + 1].procs|
    && ss[b].procs[i].id == ss[r + 1].procs[i].id
    && NoneReaped(ss, i, a, r) && NoneReaped(ss, i, r + 1, b)
    && (ss[b].procs[i].id.ret == -1 ==> NoneReaped(ss, i, r, r + 1))
    && (ss[b].procs[i].id.ret != -1 ==> exists c :: ReapedAt(ss, r, i, c) && Collects(ss[r], ss[r + 1], i, c))
  }

  /** A step of a call that has not settled yet, or of one that has. */
  lemma OneMove(ss: seq<State>, i: nat, t: nat)
    requires Run(ss) && t + 1 < |ss| && i < |ss[t].procs| && InCall(ss[t].procs[i].pc)
    ensures |ss[t + 1].procs| == |ss[t].procs| && WaitMove(ss[t], ss[t + 1], i)
  {
    hide Inv, Enabled, Do, Run, WaitMove;
    var a := StepOf(ss, t);
    WaitMoves(ss[t], a, i);
  }

  lemma NoReapNow(ss: seq<State>, i: nat, t: nat)
    requires Run(ss) && t + 1 < |ss| && i < |ss[t].procs|
    requires i < |ss[t + 1].procs| && !(ss[t].procs[i].pc.WaitHeld? && ss[t + 1].procs[i].pc.WaitReaped?)
    ensures NoneReaped(ss, i, t, t + 1)
  {
    hide Run, ReapedAt;
    forall u, c | t <= u < t + 1 ensures !ReapedAt(ss, u, i, c) {
      if ReapedAt(ss, u, i, c) { ReapIsWait(ss, u, i, c); }
    }
  }

  lemma NoneThen(ss: seq<State>, i: nat, a: nat, b: nat, c: nat)
    requires NoneReaped(ss, i, a, b) && NoneReaped(ss, i, b, c)
    ensures NoneReaped(ss, i, a, c)
  {
    hide ReapedAt;
  }

  lemma {:induction false} WaitSoFar(ss: seq<State>, i: nat, a: nat, b: nat)
    requires Run(ss) && WaitBegins(ss, i, a) && a < b && Within(ss, i, a, b)
    ensures i < |ss[b].procs|
    ensures || (Searching(ss[b].procs[i].pc) && NoneReaped(ss, i, a, b))
            || (!Searching(ss[b].procs[i].pc) && (InKwait(ss[b].procs[i].pc) || ss[b].procs[i].pc.User?)
                && exists r :: Settled(ss, i, a, b, r))
    decreases b
  {
    hide Run, ReapedAt, Settles, NoneReaped, Settled, WaitMove;
    if b == a + 1 {
      NoReapNow(ss, i, a);
    } else {
      var t := b - 1;
      WaitSoFar(ss, i, a, t);
      OneMove(ss, i, t);
      if Searching(ss[t].procs[i].pc) {
        SearchMoves(ss, i, a, t);
      } else {
        var r :| Settled(ss, i, a, t, r);
        SettledMoves(ss, i, a, t, r);
      }
    }
  }

  lemma SearchMoves(ss: seq<State>, i: nat, a: nat, t: nat)
    requires Run(ss) && a < t && t + 1 < |ss| && i < |ss[t].procs| == |ss[t + 1].procs|
    requires Searching(ss[t].procs[i].pc) && NoneReaped(ss, i, a, t) && WaitMove(ss[t], ss[t + 1], i)
    ensures var pc := ss[t + 1].procs[i].pc;
            || (Searching(pc) && NoneReaped(ss, i, a, t + 1))
            || (!Searching(pc) && InKwait(pc) && Settled(ss, i, a, t + 1, t))
  {
    hide Run, NoneReaped, HasChild, Child, ReapedAt;
    if !ss[t + 1].procs[i].pc.WaitReaped? {
      NoReapNow(ss, i, t);
      NoneThen(ss, i, a, t, t + 1);
    }
    NoneYet(ss, i, t + 1);
    if ss[t + 1].procs[i].pc.WaitReaped? {
      var c := ss[t].procs[i].pc.j;
      assert Collects(ss[t], ss[t + 1], i, c);
      CollectsIs(ss, i, t, c);
    }
  }

  lemma NoneYet(ss: seq<State>, i: nat, a: nat)
    ensures NoneReaped(ss, i, a, a)
  {
  }

  lemma CollectsIs(ss: seq<State>, i: nat, t: nat, c: nat)
    requires t + 1 < |ss| && Collects(ss[t], ss[t + 1], i, c)
    ensures ReapedAt(ss, t, i, c) && ss[t + 1].procs[i].id.ret != -1
  {
  }

  lemma SettledMoves(ss: seq<State>, i: nat, a: nat, t: nat, r: nat)
    requires Run(ss) && t + 1 < |ss| && Settled(ss, i, a, t, r) && |ss[t].procs| == |ss[t + 1].procs|
    requires InKwait(ss[t].procs[i].pc) && !Searching(ss[t].procs[i].pc) && WaitMove(ss[t], ss[t + 1], i)
    ensures var pc := ss[t + 1].procs[i].pc; !Searching(pc) && (InKwait(pc) || pc.User?)
    ensures Settled(ss, i, a, t + 1, r)
  {
    hide Run, NoneReaped, HasChild, Child, ReapedAt, Settles, Collects;
    NoReapNow(ss, i, t);
    NoneThen(ss, i, r + 1, t, t + 1);
  }

  /** wait from its call to its return. Either it has freed the slot of exactly one child, a zombie, and returns its
      pid and exit status; or it has freed none and returns -1, and at the step where it gave up the process had
      been killed, or had no child, or the status of a zombie child could not be copied out. */
  lemma WaitCall(ss: seq<State>, i: nat, a: nat, b: nat) returns (r: nat)
    requires Run(ss) && WaitBegins(ss, i, a) && a < b && Within(ss, i, a, b)
    requires i < |ss[b].procs| && ss[b].procs[i].pc.User?
    ensures a < r < b && Settles(ss, i, r)
    ensures NoneReaped(ss, i, a, r) && NoneReaped(ss, i, r + 1, b)
    ensures ss[b].procs[i].id.ret == -1 ==> NoneReaped(ss, i, r, r + 1)
    ensures ss[b].procs[i].id.ret != -1 ==>
              exists c: nat :: && ReapedAt(ss, r, i, c) && ss[b].procs[i].id.ret == ss[r].procs[c].id.pid
                               && ss[b].procs[i].id.got == ss[r].procs[c].id.xstate
  {
    hide Run, ReapedAt, Settles, NoneReaped, Child;
    WaitSoFar(ss, i, a, b);
    r :| Settled(ss, i, a, b, r);
  }

  /** The test at the end of a scan: wait gives up if and only if the process has been killed or has no child. */
  lemma GivesUpIff(ss: seq<State>, i: nat, t: nat)
    requires Run(ss) && t + 1 < |ss| && i < |ss[t].procs| && i < |ss[t + 1].procs|
    requires ss[t].procs[i].pc.WaitTest? && ss[t + 1].procs[i].pc != ss[t].procs[i].pc
    ensures ss[t + 1].procs[i].pc.WaitEnd? <==> ss[t].procs[i].killed || !HasChild(ss[t], i)
    ensures ss[t + 1].procs[i].pc.SleepLock? <==> !ss[t].procs[i].killed && HasChild(ss[t], i)
  {
    hide Run, HasChild;
    OneMove(ss, i, t);
  }

  predicate Falling(pc: Pc) { pc.SleepLock? || pc.SleepRelease? || pc.SleepSet? }

  /** Otherwise it goes to sleep before it does anything else. */
  lemma {:induction false} SleepsNext(ss: seq<State>, i: nat, t: nat, u: nat)
    requires Run(ss) && t < u < |ss| && i < |ss[t].procs| && i < |ss[t + 1].procs|
    requires ss[t].procs[i].pc.WaitTest? && ss[t + 1].procs[i].pc != ss[t].procs[i].pc
    requires !ss[t].procs[i].killed && HasChild(ss[t], i)
    ensures i < |ss[u].procs|
    ensures Falling(ss[u].procs[i].pc) || exists v :: t < v <= u && AsleepAt(ss, v, i)
    decreases u
  {
    hide Run, HasChild, Inv, Enabled, Do, AsleepAt, WaitMove;
    if u == t + 1 {
      GivesUpIff(ss, i, t);
    } else {
      SleepsNext(ss, i, t, u - 1);
      var a := StepOf(ss, u - 1);
      if Falling(ss[u - 1].procs[i].pc) {
        OneMove(ss, i, u - 1);
        FallMoves(ss, i, u - 1);
      }
    }
  }

  /** Process i sleeps on its own channel. */
  ghost predicate AsleepAt(ss: seq<State>, v: nat, i: nat) {
    v < |ss| && i < |ss[v].procs| && ss[v].procs[i].st.SLEEPING? && ss[v].procs[i].chan == Some(i)
  }

  lemma FallMoves(ss: seq<State>, i: nat, t: nat)
    requires t + 1 < |ss| && i < |ss[t].procs| == |ss[t + 1].procs| && WaitMove(ss[t], ss[t + 1], i)
    requires Falling(ss[t].procs[i].pc)
    ensures Falling(ss[t + 1].procs[i].pc) || AsleepAt(ss, t + 1, i)
  {
    hide HasChild, Collects;
  }

  // ----- pids and exit statuses -----

  /** Pids are for slots in use, no two have the same, and none comes again; a process in fork has the pid of its
      child for a result; a zombie's status is the argument of its exit. */
  ghost predicate IdOk(s: State, i: nat)
    requires i < |s.procs|
  {
    var p := s.procs[i];
    && (p.st.UNUSED? <==> p.id.pid == 0) && p.id.pid < s.nextpid
    && (forall k | 0 <= k < |s.procs| :: k != i && p.id.pid != 0 ==> s.procs[k].id.pid != p.id.pid)
    && (Making(p.pc).Some? && !p.pc.ForkHeld? && Making(p.pc).value < |s.procs| ==>
          p.id.ret == s.procs[Making(p.pc).value].id.pid)
    && (p.st.ZOMBIE? ==> p.id.xstate == p.id.arg)
  }

  ghost predicate Ids(s: State) { s.nextpid > 0 && forall i :: 0 <= i < |s.procs| ==> IdOk(s, i) }

  lemma NextPid(s: State, a: Action)
    requires Enabled(s, a)
    ensures Do(s, a).nextpid == s.nextpid + if a.BeginFork? then 1 else 0
  {
    hide DoFork, DoExit, DoWait, DoSleep, ForkEnabled, ExitEnabled, WaitEnabled, SleepEnabled;
    if a.Step? { StepPid(s, a.i); }
  }

  lemma StepPid(s: State, i: nat)
    requires i < |s.procs| && StepEnabled(s, i)
    ensures DoStep(s, i).nextpid == s.nextpid
  {
  }

  /** What a step does to the slot of the process that takes it. */
  ghost predicate ByOwn(s: State, i: nat, q: Slot)
    requires i < |s.procs|
  {
    var p := s.procs[i];
    && q.parent == p.parent && q.maker == p.maker && q.id.pid == p.id.pid
    && (|| q.st == p.st
        || (p.pc.User? && Alive(q.st))
        || (p.pc.SleepSet? && q.st.SLEEPING?)
        || (p.pc.Asleep? && p.st.RUNNABLE? && q.st.RUNNING?)
        || (p.st.SLEEPING? && q.st.RUNNABLE? && q.killed && p.plock == Free)
        || (p.pc.ExitZombie? && q.st.ZOMBIE?))
    && (|| q.id == p.id
        || (p.pc.User? && q.pc == Reparent(0) && q.id == p.id.(arg := q.id.arg))
        || (p.pc.ExitZombie? && q.id == p.id.(xstate := p.id.arg))
        || (InKwait(p.pc) && q.id == p.id.(ret := q.id.ret, got := q.id.got))
        || (p.pc.ForkHeld? && q.pc == ForkFree(p.pc.c) && q.id == p.id.(ret := -1))
        || (p.pc.ForkHeld? && q.pc == ForkJoin(p.pc.c) && p.pc.c < |s.procs|
            && q.id == p.id.(ret := s.procs[p.pc.c].id.pid)))
    && (q.killed == p.killed
        || (q.killed && q.pc == p.pc && p.plock == Free && (p.st.SLEEPING? ==> q.st.RUNNABLE?)))
    && (Waiting(q) ==> Waiting(p) || (p.pc.WaitTest? && !p.killed && q.pc.SleepLock?))
    && (p.pc.ExitZombie? && q.st.ZOMBIE? && !p.st.ZOMBIE? ==> q.id.xstate == p.id.arg)
    && (p.pc.ForkHeld? && !q.pc.ForkHeld? ==>
          || q.pc == ForkFree(p.pc.c)
          || (q.pc == ForkJoin(p.pc.c) && p.pc.c < |s.procs| && q.id.ret == s.procs[p.pc.c].id.pid))
    && (Making(q.pc) == Making(p.pc) || Making(q.pc).None? || (p.pc.User? && q.pc.ForkHeld?))
  }

  /** The step is not on the slot of the process that takes it. */
  predicate OffSelf(p: Slot, i: nat) { Target(p.pc) != Some(i) && Making(p.pc) != Some(i) && p.parent != Some(i) }

  lemma OffSelfOk(s: State, i: nat)
    requires Inv(s) && i < |s.procs|
    ensures OffSelf(s.procs[i], i)
  {
    hide Inv, Locks, WaitOk;
    InvAt(s, i);
  }

  lemma ForkOwn(s: State, i: nat)
    requires i < |s.procs| && InFork(s.procs[i].pc) && ForkEnabled(s, i) && OffSelf(s.procs[i], i)
    ensures i < |DoFork(s, i).procs| && ByOwn(s, i, DoFork(s, i).procs[i])
  {
  }

  lemma KexitOwn(s: State, i: nat)
    requires i < |s.procs| && InKexit(s.procs[i].pc) && ExitEnabled(s, i) && OffSelf(s.procs[i], i)
    ensures i < |DoExit(s, i).procs| && ByOwn(s, i, DoExit(s, i).procs[i])
  {
    hide Woken;
  }

  lemma KwaitOwn(s: State, i: nat)
    requires i < |s.procs| && InKwait(s.procs[i].pc) && WaitEnabled(s, i) && OffSelf(s.procs[i], i)
    ensures i < |DoWait(s, i).procs| && ByOwn(s, i, DoWait(s, i).procs[i])
  {
  }

  lemma SleepOwn(s: State, i: nat)
    requires i < |s.procs| && InSleep(s.procs[i].pc) && SleepEnabled(s, i)
    ensures i < |DoSleep(s, i).procs| && ByOwn(s, i, DoSleep(s, i).procs[i])
  {
  }

  lemma QuietOwn(s: State, a: Action)
    requires Enabled(s, a) && !a.Step? && OffSelf(s.procs[a.i], a.i)
    ensures a.i < |Do(s, a).procs| && ByOwn(s, a.i, Do(s, a).procs[a.i])
  {
  }

  lemma StepOwn(s: State, a: Action)
    requires Inv(s) && Enabled(s, a)
    ensures a.i < |s.procs| && a.i < |Do(s, a).procs| && ByOwn(s, a.i, Do(s, a).procs[a.i])
  {
    hide DoFork, DoExit, DoWait, DoSleep, ForkEnabled, ExitEnabled, WaitEnabled, SleepEnabled, InFork, InKexit;
    hide InKwait, InSleep, ByOwn, Inv, OffSelf;
    OffSelfOk(s, a.i);
    if a.Step? {
      var pc := s.procs[a.i].pc;
      Disjoint(pc);
      if InFork(pc) { ForkOwn(s, a.i); } else if InKexit(pc) { KexitOwn(s, a.i); }
      else if InKwait(pc) { KwaitOwn(s, a.i); } else { SleepOwn(s, a.i); }
    } else {
      QuietOwn(s, a);
    }
  }

  // ----- pids and exit statuses are kept -----

  /** How the pid of a slot changes in a step: not at all, from 0 to the next one, or to 0. */
  lemma PidMoves(s: State, a: Action, k: nat)
    requires Inv(s) && Enabled(s, a) && k < |s.procs| == |Do(s, a).procs|
    ensures var p, q := s.procs[k], Do(s, a).procs[k];
            || (q.id.pid == p.id.pid && (q.st.UNUSED? <==> p.st.UNUSED?))
            || (p.st.UNUSED? && !q.st.UNUSED? && q.id.pid == s.nextpid && a.BeginFork? && a.c == k)
            || (q.st.UNUSED? && q.id.pid == 0)
  {
    hide Inv, Locks, FamilyOk, WaitOk, LockOk, Enabled, Do;
    StepOwn(s, a);
    InvAt(s, a.i);
    InvAt(s, k);
    if k != a.i {
      StepOther(s, a, k);
    }
  }

  /** At most one slot gets a pid in a step. */
  lemma PidsKept(s: State, a: Action, i: nat)
    requires Inv(s) && Ids(s) && Enabled(s, a) && i < |s.procs| == |Do(s, a).procs|
    ensures var s' := Do(s, a); var p := s'.procs[i];
            && (p.st.UNUSED? <==> p.id.pid == 0) && p.id.pid < s'.nextpid
            && forall k | 0 <= k < |s'.procs| :: k != i && p.id.pid != 0 ==> s'.procs[k].id.pid != p.id.pid
  {
    hide Inv, Enabled, Do;
    NextPid(s, a);
    PidMoves(s, a, i);
    assert IdOk(s, i);
    forall k | 0 <= k < |s.procs| && k != i && Do(s, a).procs[i].id.pid != 0
      ensures Do(s, a).procs[k].id.pid != Do(s, a).procs[i].id.pid
    {
      PidMoves(s, a, k);
      assert IdOk(s, k);
    }
  }

  /** The slot that a fork is filling keeps its pid. */
  lemma MadeKeepsPid(s: State, a: Action, i: nat, c: nat)
    requires Inv(s) && Enabled(s, a) && i < |s.procs| == |Do(s, a).procs| && c < |s.procs|
    requires Making(s.procs[i].pc) == Some(c) && Making(Do(s, a).procs[i].pc) == Some(c)
    ensures Do(s, a).procs[c].id.pid == s.procs[c].id.pid
  {
    hide Inv, Locks, FamilyOk, WaitOk, LockOk, Enabled, Do;
    EnabledActor(s, a);
    InvAt(s, i);
    InvAt(s, c);
    InvAt(s, a.i);
    if a.i == c { StepOwn(s, a); } else { StepOther(s, a, c); }
    if a == FailFork(i) { OffSelfOk(s, i); FailGoes(s, i); }
  }

  lemma FailGoes(s: State, i: nat)
    requires Enabled(s, FailFork(i)) && s.procs[i].pc.c != i
    ensures i < |Do(s, FailFork(i)).procs| && Do(s, FailFork(i)).procs[i].pc.ForkFree?
  {
  }

  /** Where a process is in fork, and with which result. */
  ghost predicate ForkMove(s: State, p: Slot, q: Slot) {
    Making(q.pc).Some? && !q.pc.ForkHeld? ==>
      && Making(q.pc) == Making(p.pc)
      && q.id.ret == if p.pc.ForkHeld? && p.pc.c < |s.procs| then s.procs[p.pc.c].id.pid else p.id.ret
  }

  lemma ForkMoveOwn(s: State, i: nat, q: Slot)
    requires i < |s.procs| && ByOwn(s, i, q)
    requires (Making(s.procs[i].pc).Some? ==> Making(s.procs[i].pc).value < |s.procs|)
    ensures ForkMove(s, s.procs[i], q)
  {
  }

  lemma ForkMoves(s: State, a: Action, i: nat)
    requires Inv(s) && Enabled(s, a) && i < |s.procs| == |Do(s, a).procs|
    ensures ForkMove(s, s.procs[i], Do(s, a).procs[i])
  {
    hide Inv, Enabled, Do, Locks, FamilyOk, WaitOk, LockOk, ByOwn;
    InvAt(s, i);
    EnabledActor(s, a);
    if a.i == i {
      StepOwn(s, a);
      ForkMoveOwn(s, i, Do(s, a).procs[i]);
    } else if Alive(s.procs[i].st) {
      OtherKeepsPlace(s, a, i);
    } else {
      StepOther(s, a, i);
    }
  }

  lemma ResultKept(s: State, a: Action, i: nat)
    requires Inv(s) && Ids(s) && Enabled(s, a) && i < |s.procs| == |Do(s, a).procs|
    ensures var s' := Do(s, a); var q := s'.procs[i];
            Making(q.pc).Some? && !q.pc.ForkHeld? && Making(q.pc).value < |s'.procs| ==>
              q.id.ret == s'.procs[Making(q.pc).value].id.pid
  {
    hide Inv, Enabled, Do;
    assert IdOk(s, i);
    ForkMoves(s, a, i);
    var q := Do(s, a).procs[i];
    if Making(q.pc).Some? && !q.pc.ForkHeld? && Making(q.pc).value < |s.procs| {
      MadeKeepsPid(s, a, i, Making(q.pc).value);
    }
  }

  lemma StatusKept(s: State, a: Action, i: nat)
    requires Inv(s) && Ids(s) && Enabled(s, a) && i < |s.procs| == |Do(s, a).procs|
    ensures var q := Do(s, a).procs[i]; q.st.ZOMBIE? ==> q.id.xstate == q.id.arg
  {
    hide Inv, Enabled, Do, Locks, FamilyOk, WaitOk, LockOk;
    assert IdOk(s, i);
    InvAt(s, i);
    StepOwn(s, a);
    if a.i != i {
      StepOther(s, a, i);
      InvAt(s, a.i);
    }
  }

  lemma IdsKept(s: State, a: Action)
    requires Inv(s) && Ids(s) && Enabled(s, a)
    ensures Ids(Do(s, a))
  {
    hide Inv, Enabled, Do;
    SameSlots(s, a);
    NextPid(s, a);
    forall i | 0 <= i < |s.procs| ensures IdOk(Do(s, a), i) {
      PidsKept(s, a, i);
      ResultKept(s, a, i);
      StatusKept(s, a, i);
    }
  }

  lemma {:induction false} RunIds(ss: seq<State>, t: nat)
    requires Run(ss) && t < |ss|
    ensures Ids(ss[t])
  {
    hide Inv, Enabled, Do;
    if t > 0 {
      RunIds(ss, t - 1);
      var a := StepOf(ss, t - 1);
      IdsKept(ss[t - 1], a);
    }
  }

  /** No two processes have the same pid, however often slots are used again. */
  lemma PidsUnique(ss: seq<State>, t: nat, i: nat, k: nat)
    requires Run(ss) && t < |ss| && i < |ss[t].procs| && k < |ss[t].procs| && i != k
    requires !ss[t].procs[i].st.UNUSED?
    ensures 0 < ss[t].procs[i].id.pid != ss[t].procs[k].id.pid
  {
    hide Run;
    RunIds(ss, t);
    assert IdOk(ss[t], i);
  }

  // ----- fork -----

  /** From s to s' slot c, named a child of i, becomes a process. */
  ghost predicate Starts(s: State, s': State, i: nat, c: nat) {
    && c < |s.procs| == |s'.procs| && s.procs[c].st.USED? && s.procs[c].parent == Some(i)
    && s'.procs[c].st.RUNNABLE? && s'.procs[c].pc.User? && s'.procs[c].parent == Some(i)
    && s'.procs[c].id == s.procs[c].id
  }

  ghost predicate Drops(s: State, s': State, c: nat) {
    c < |s.procs| == |s'.procs| && s.procs[c].st.USED? && s'.procs[c].st.UNUSED?
  }

  /** How a process gets on inside fork. */
  ghost predicate ForkStep(s: State, s': State, i: nat)
    requires i < |s.procs| == |s'.procs|
  {
    var p, q := s.procs[i], s'.procs[i];
    || (q.pc == p.pc && q.id == p.id)
    || (match p.pc
        case ForkHeld(c) => || (q.pc == ForkJoin(c) && c < |s.procs| && q.id.ret == s.procs[c].id.pid)
                            || (q.pc == ForkFree(c) && q.id.ret == -1 && Drops(s, s', c))
        case ForkFree(_) => q.pc.User? && q.id == p.id
        case ForkJoin(c) => q.pc == ForkName(c) && q.id == p.id
        case ForkName(c) => q.pc == ForkUnwait(c) && q.id == p.id
        case ForkUnwait(c) => q.pc == ForkReady(c) && q.id == p.id
        case ForkReady(c) => q.pc == ForkSet(c) && q.id == p.id
        case ForkSet(c) => q.pc == ForkDone(c) && q.id == p.id && Starts(s, s', i, c)
        case ForkDone(_) => q.pc.User? && q.id == p.id
        case _ => false)
  }

  lemma KforkStep(s: State, i: nat)
    requires Inv(s) && i < |s.procs| && InFork(s.procs[i].pc) && ForkEnabled(s, i)
    ensures |DoFork(s, i).procs| == |s.procs| && ForkStep(s, DoFork(s, i), i)
  {
    hide Inv, Locks, WaitOk, LockOk;
    OffSelfOk(s, i);
    InvAt(s, i);
    if s.procs[i].pc.ForkSet? { InvAt(s, s.procs[i].pc.c); }
  }

  lemma FailStep(s: State, i: nat)
    requires Inv(s) && Enabled(s, FailFork(i)) && |Do(s, FailFork(i)).procs| == |s.procs|
    ensures ForkStep(s, Do(s, FailFork(i)), i)
  {
    hide Inv, Locks, WaitOk, LockOk, FamilyOk;
    OffSelfOk(s, i);
    InvAt(s, i);
    InvAt(s, s.procs[i].pc.c);
  }

  lemma QuietStep(s: State, a: Action)
    requires Enabled(s, a) && !a.Step? && !a.FailFork? && InFork(s.procs[a.i].pc) && |Do(s, a).procs| == |s.procs|
    ensures ForkStep(s, Do(s, a), a.i)
  {
  }

  lemma ForkSteps(s: State, a: Action, i: nat)
    requires Inv(s) && Enabled(s, a) && i < |s.procs| && InFork(s.procs[i].pc)
    ensures |Do(s, a).procs| == |s.procs| && ForkStep(s, Do(s, a), i)
  {
    hide Inv, ForkStep, DoFork, DoExit, DoWait, DoSleep, ForkEnabled, ExitEnabled, WaitEnabled, SleepEnabled;
    SameSlots(s, a);
    ForkIsAlive(s, i);
    if a.i != i { ForkOthers(s, a, i); }
    else if a.Step? { KforkStep(s, i); }
    else if a.FailFork? { FailStep(s, i); }
    else { QuietStep(s, a); }
  }

  lemma ForkOthers(s: State, a: Action, i: nat)
    requires Inv(s) && Enabled(s, a) && i < |s.procs| && Alive(s.procs[i].st) && a.i != i
    requires |Do(s, a).procs| == |s.procs|
    ensures ForkStep(s, Do(s, a), i)
  {
    hide Inv, Enabled, Do;
    OtherKeepsPlace(s, a, i);
  }

  lemma ForkIsAlive(s: State, i: nat)
    requires Inv(s) && i < |s.procs| && InFork(s.procs[i].pc)
    ensures Alive(s.procs[i].st)
  {
    hide Inv, Locks, FamilyOk, WaitOk, LockOk;
    InvAt(s, i);
  }

  /** A call of fork by process i begins with step a, and takes slot c. */
  ghost predicate ForkBegins(ss: seq<State>, i: nat, c: nat, a: nat) {
    && a + 1 < |ss| && i < |ss[a].procs| && i < |ss[a + 1].procs|
    && ss[a].procs[i].pc.User? && ss[a + 1].procs[i].pc == ForkHeld(c)
  }

  ghost predicate Made(ss: seq<State>, i: nat, c: nat, a: nat, b: nat, r: nat) {
    && a < r < b < |ss| && i < |ss[b].procs| && Starts(ss[r], ss[r + 1], i, c)
    && ss[b].procs[i].id.ret == ss[r].procs[c].id.pid
  }

  ghost predicate Dropped(ss: seq<State>, i: nat, c: nat, a: nat, b: nat, r: nat) {
    && a < r < b < |ss| && i < |ss[b].procs| && Drops(ss[r], ss[r + 1], c) && ss[b].procs[i].id.ret == -1
  }

  lemma {:induction false} ForkSoFar(ss: seq<State>, i: nat, c: nat, a: nat, b: nat)
    requires Run(ss) && ForkBegins(ss, i, c, a) && a < b && Within(ss, i, a, b)
    ensures i < |ss[b].procs|
    ensures var pc := ss[b].procs[i].pc;
            || Making(pc) == Some(c)
            || ((pc == ForkDone(c) || pc.User?) && exists r :: Made(ss, i, c, a, b, r))
            || ((pc == ForkFree(c) || pc.User?) && exists r :: Dropped(ss, i, c, a, b, r))
    decreases b
  {
    hide Run, Inv, Enabled, Do, ForkStep;
    if b > a + 1 {
      var t := b - 1;
      ForkSoFar(ss, i, c, a, t);
      var act := StepOf(ss, t);
      ForkSteps(ss[t], act, i);
      RunIds(ss, t);
      if Making(ss[t].procs[i].pc) == Some(c) {
        MakingMoves(ss, i, c, a, t);
      } else {
        DoneMoves(ss, i, c, a, t, b);
      }
    }
  }

  lemma MakingMoves(ss: seq<State>, i: nat, c: nat, a: nat, t: nat)
    requires a < t && t + 1 < |ss| && i < |ss[t].procs| == |ss[t + 1].procs| && Ids(ss[t])
    requires Making(ss[t].procs[i].pc) == Some(c) && ForkStep(ss[t], ss[t + 1], i)
    ensures var pc := ss[t + 1].procs[i].pc;
            || Making(pc) == Some(c)
            || (pc == ForkDone(c) && Made(ss, i, c, a, t + 1, t))
            || (pc == ForkFree(c) && Dropped(ss, i, c, a, t + 1, t))
  {
    assert IdOk(ss[t], i);
  }

  lemma DoneMoves(ss: seq<State>, i: nat, c: nat, a: nat, t: nat, b: nat)
    requires a < t && b == t + 1 && t + 1 < |ss| && i < |ss[t].procs| == |ss[t + 1].procs|
    requires ForkStep(ss[t], ss[t + 1], i)
    requires var pc := ss[t].procs[i].pc;
             || (pc == ForkDone(c) && exists r :: Made(ss, i, c, a, t, r))
             || (pc == ForkFree(c) && exists r :: Dropped(ss, i, c, a, t, r))
    ensures var pc := ss[b].procs[i].pc;
            || ((pc == ForkDone(c) || pc.User?) && exists r :: Made(ss, i, c, a, b, r))
            || ((pc == ForkFree(c) || pc.User?) && exists r :: Dropped(ss, i, c, a, b, r))
  {
    hide Starts, Drops;
    if ss[t].procs[i].pc == ForkDone(c) {
      var r :| Made(ss, i, c, a, t, r);
      assert Made(ss, i, c, a, b, r);
    } else {
      var r :| Dropped(ss, i, c, a, t, r);
      assert Dropped(ss, i, c, a, b, r);
    }
  }

  /** fork from its call to its return. Either a new process has started in the slot c, with the caller for a parent
      and the pid that fork returns; or fork returns -1 and the slot is free again. */
  lemma ForkCall(ss: seq<State>, i: nat, c: nat, a: nat, b: nat) returns (r: nat)
    requires Run(ss) && ForkBegins(ss, i, c, a) && a < b && Within(ss, i, a, b)
    requires i < |ss[b].procs| && ss[b].procs[i].pc.User?
    ensures a < r < b && if ss[b].procs[i].id.ret == -1 then Drops(ss[r], ss[r + 1], c)
                         else Starts(ss[r], ss[r + 1], i, c) && ss[b].procs[i].id.ret == ss[r].procs[c].id.pid
  {
    hide Run, Drops;
    ForkSoFar(ss, i, c, a, b);
    if r' :| Made(ss, i, c, a, b, r') {
      r := r';
    } else {
      r :| Dropped(ss, i, c, a, b, r);
    }
  }

  // ----- exit -----

  /** Step u of the run is the call exit(status) by process c. */
  ghost predicate ExitsAt(ss: seq<State>, u: nat, c: nat, status: int) {
    u + 1 < |ss| && Enabled(ss[u], BeginExit(c, status)) && ss[u + 1] == Do(ss[u], BeginExit(c, status))
  }

  predicate Exiting(pc: Pc) { InKexit(pc) || pc.Gone? }

  /** exit never returns, and the status it leaves is its argument: what a zombie has for wait is what its own last
      call of exit was given. */
  lemma {:induction false} ExitStatus(ss: seq<State>, t: nat, c: nat) returns (u: nat)
    requires Run(ss) && t < |ss| && c < |ss[t].procs| && Exiting(ss[t].procs[c].pc)
    ensures u < t && ExitsAt(ss, u, c, ss[t].procs[c].id.arg)
    ensures forall v | u < v <= t :: c < |ss[v].procs| && Exiting(ss[v].procs[c].pc)
    ensures ss[t].procs[c].st.ZOMBIE? ==> ss[t].procs[c].id.xstate == ss[t].procs[c].id.arg
  {
    hide Inv, Enabled, Do, Exiting;
    RunIds(ss, t);
    assert IdOk(ss[t], c);
    if t == 0 {
      NotExiting(ss[0], c);
    } else {
      var a := StepOf(ss, t - 1);
      ExitMoves(ss[t - 1], a, c);
      if Exiting(ss[t - 1].procs[c].pc) {
        u := ExitStatus(ss, t - 1, c);
      } else {
        u := t - 1;
      }
    }
  }

  lemma NotExiting(s: State, c: nat)
    requires Initial(s) && c < |s.procs|
    ensures !Exiting(s.procs[c].pc)
  {
  }

  lemma ExitMoves(s: State, a: Action, c: nat)
    requires Inv(s) && Enabled(s, a) && c < |s.procs| == |Do(s, a).procs| && Exiting(Do(s, a).procs[c].pc)
    ensures if Exiting(s.procs[c].pc) then Do(s, a).procs[c].id.arg == s.procs[c].id.arg
            else a == BeginExit(c, Do(s, a).procs[c].id.arg)
  {
    hide Inv, Locks, FamilyOk, WaitOk, LockOk, Do, Enabled;
    EnabledActor(s, a);
    if a.i == c {
      OwnExit(s, a);
    } else {
      InvAt(s, a.i);
      InvAt(s, c);
      StepOther(s, a, c);
    }
  }

  lemma OwnExit(s: State, a: Action)
    requires Inv(s) && Enabled(s, a) && a.i < |s.procs| == |Do(s, a).procs| && Exiting(Do(s, a).procs[a.i].pc)
    ensures if Exiting(s.procs[a.i].pc) then Do(s, a).procs[a.i].id.arg == s.procs[a.i].id.arg
            else a == BeginExit(a.i, Do(s, a).procs[a.i].id.arg)
  {
    hide Inv, DoFork, DoExit, DoWait, DoSleep;
    OffSelfOk(s, a.i);
    if a.Step? {
      var pc := s.procs[a.i].pc;
      if InFork(pc) { ForkGoes(s, a.i); } else if InKexit(pc) { ExitGoes(s, a.i); }
      else if InKwait(pc) { WaitGoes(s, a.i); } else { SleepGoes(s, a.i); }
    }
  }

  lemma ForkGoes(s: State, i: nat)
    requires i < |s.procs| && InFork(s.procs[i].pc) && ForkEnabled(s, i) && OffSelf(s.procs[i], i)
    ensures i < |DoFork(s, i).procs| && !Exiting(DoFork(s, i).procs[i].pc)
  {
  }

  lemma ExitGoes(s: State, i: nat)
    requires i < |s.procs| && InKexit(s.procs[i].pc) && ExitEnabled(s, i) && OffSelf(s.procs[i], i)
    ensures i < |DoExit(s, i).procs| && DoExit(s, i).procs[i].id.arg == s.procs[i].id.arg
  {
    hide Woken;
  }

  lemma WaitGoes(s: State, i: nat)
    requires i < |s.procs| && InKwait(s.procs[i].pc) && WaitEnabled(s, i) && OffSelf(s.procs[i], i)
    ensures i < |DoWait(s, i).procs| && !Exiting(DoWait(s, i).procs[i].pc)
  {
  }

  lemma SleepGoes(s: State, i: nat)
    requires i < |s.procs| && InSleep(s.procs[i].pc) && SleepEnabled(s, i)
    ensures i < |DoSleep(s, i).procs| && !Exiting(DoSleep(s, i).procs[i].pc)
  {
  }

  // ----- the life of a process -----

  /** What a step can do to the state and the parent of slot c. A process starts with its maker for a parent; a parent
      changes only from an exiting process to init; only wait ends a zombie. */
  ghost predicate Lives(s: State, s': State, c: nat) {
    && c < |s.procs| == |s'.procs|
    && var p, q := s.procs[c], s'.procs[c];
       && (|| q.st == p.st
           || (Alive(p.st) && (Alive(q.st) || q.st.ZOMBIE?))
           || (p.st.UNUSED? && q.st.USED?)
           || (p.st.USED? && q.st.UNUSED?)
           || (p.st.USED? && q.st.RUNNABLE? && p.parent == p.maker && p.maker.Some? && q.parent == p.parent)
           || (p.st.ZOMBIE? && q.st.UNUSED?))
       && (|| q.parent == p.parent
           || (p.st.USED? && p.parent.None? && q.st.USED? && q.parent == p.maker)
           || (q.st.UNUSED? && q.parent.None?)
           || (q.parent == Some(INIT) && p.parent.Some? && p.parent.value < |s.procs|
               && s.procs[p.parent.value].pc.Reparent?))
  }

  lemma StepLives(s: State, a: Action, c: nat)
    requires Inv(s) && Enabled(s, a) && c < |s.procs| == |Do(s, a).procs|
    ensures Lives(s, Do(s, a), c)
  {
    hide Inv, Locks, WaitOk, LockOk, Enabled, Do, ByOwn, ByOther, StateOk, FamilyOk, Lives;
    EnabledActor(s, a);
    InvAt(s, c);
    if a.i == c {
      StepOwn(s, a);
      OwnLives(s, Do(s, a), c);
    } else {
      InvAt(s, a.i);
      StepOther(s, a, c);
      OtherLives(s, a, Do(s, a), c);
    }
  }

  lemma OwnLives(s: State, s': State, c: nat)
    requires c < |s.procs| == |s'.procs| && ByOwn(s, c, s'.procs[c]) && StateOk(s, c)
    ensures Lives(s, s', c)
  {
    hide Making;
  }

  lemma OtherLives(s: State, a: Action, s': State, c: nat)
    requires a.i < |s.procs| && c < |s.procs| == |s'.procs| && c != a.i && ByOther(s, a, c, s'.procs[c])
    requires StateOk(s, c) && FamilyOk(s, c) && StateOk(s, a.i)
    ensures Lives(s, s', c)
  {
  }

  lemma RunLives(ss: seq<State>, t: nat, c: nat)
    requires Run(ss) && t + 1 < |ss| && c < |ss[t].procs|
    ensures Lives(ss[t], ss[t + 1], c)
  {
    hide Run, Inv, Enabled, Do;
    var a := StepOf(ss, t);
    StepLives(ss[t], a, c);
  }

  /** A process asleep in wait is woken only by a kill, by the exit of one of its children, or, if it is init, by an
      exiting process that has just given it a child. */
  lemma WokenBy(ss: seq<State>, t: nat, i: nat)
    requires Run(ss) && t + 1 < |ss| && i < |ss[t].procs| && i < |ss[t + 1].procs|
    requires ss[t].procs[i].pc.Asleep? && ss[t].procs[i].st.SLEEPING? && !ss[t + 1].procs[i].st.SLEEPING?
    ensures ss[t + 1].procs[i].st.RUNNABLE?
    ensures || ss[t + 1].procs[i].killed
            || exists k :: && 0 <= k < |ss[t].procs| && InKexit(ss[t].procs[k].pc)
                           && (i == INIT || ss[t].procs[k].parent == Some(i))
  {
    hide Run, Inv, Locks, WaitOk, LockOk, FamilyOk, Enabled, Do;
    var a := StepOf(ss, t);
    EnabledActor(ss[t], a);
    InvAt(ss[t], i);
    if a.i == i {
      StepOwn(ss[t], a);
    } else {
      StepOther(ss[t], a, i);
      InvAt(ss[t], a.i);
      assert InKexit(ss[t].procs[a.i].pc) && (i == INIT || ss[t].procs[a.i].parent == Some(i));
    }
  }

  /** A kill wakes a process that sleeps. */
  lemma KillWakes(ss: seq<State>, t: nat, i: nat)
    requires Run(ss) && t + 1 < |ss| && i < |ss[t].procs| && i < |ss[t + 1].procs|
    requires !ss[t].procs[i].killed && ss[t + 1].procs[i].killed
    ensures ss[t].procs[i].plock == Free && ss[t + 1].procs[i].pc == ss[t].procs[i].pc
    ensures ss[t].procs[i].st.SLEEPING? ==> ss[t + 1].procs[i].st.RUNNABLE?
  {
    hide Run, Inv, Enabled, Do;
    var a := StepOf(ss, t);
    EnabledActor(ss[t], a);
    StepOwn(ss[t], a);
    if a.i != i { StepOther(ss[t], a, i); }
  }

  /** Step u is a kill that finds process i between the test of killed() and sleep(). */
  ghost predicate Misses(ss: seq<State>, i: nat, u: nat) {
    && u + 1 < |ss| && i < |ss[u].procs| && i < |ss[u + 1].procs|
    && ss[u].procs[i].pc.SleepLock? && !ss[u].procs[i].killed && ss[u + 1].procs[i].killed
  }

  /** A killed process sleeps in wait only if the kill came in that gap. */
  lemma {:induction false} KillMissed(ss: seq<State>, t: nat, i: nat) returns (u: nat)
    requires Run(ss) && t < |ss| && i < |ss[t].procs| && Waiting(ss[t].procs[i]) && ss[t].procs[i].killed
    ensures u < t && Misses(ss, i, u)
    ensures forall v | u < v <= t :: i < |ss[v].procs| && Waiting(ss[v].procs[i])
  {
    hide Inv, Enabled, Do, Waiting;
    if t == 0 {
      assert false;
    } else {
      var a := StepOf(ss, t - 1);
      KillStep(ss[t - 1], a, i);
      if Waiting(ss[t - 1].procs[i]) && ss[t - 1].procs[i].killed {
        u := KillMissed(ss, t - 1, i);
      } else {
        u := t - 1;
      }
    }
  }

  lemma KillStep(s: State, a: Action, i: nat)
    requires Inv(s) && Enabled(s, a) && i < |s.procs| == |Do(s, a).procs|
    requires Waiting(Do(s, a).procs[i]) && Do(s, a).procs[i].killed
    ensures Waiting(s.procs[i])
    ensures !s.procs[i].killed ==> s.procs[i].pc.SleepLock?
  {
    hide Inv, Locks, WaitOk, FamilyOk, Enabled, Do, Target, ByOwn, ByOther, HasWait;
    EnabledActor(s, a);
    InvAt(s, i);
    StepOwn(s, a);
    if a.i == i {
      KillOwn(s, i, Do(s, a).procs[i]);
    } else {
      InvAt(s, a.i);
      StepOther(s, a, i);
      KillOther(s, a, i, Do(s, a).procs[i]);
    }
  }

  lemma KillOwn(s: State, i: nat, q: Slot)
    requires i < |s.procs| && ByOwn(s, i, q) && Waiting(q) && q.killed && StateOk(s, i)
    requires HasOwn(s.procs[i].pc) <==> s.procs[i].plock == By(i)
    ensures Waiting(s.procs[i]) && (!s.procs[i].killed ==> s.procs[i].pc.SleepLock?)
  {
    hide StateOk, Making;
  }

  lemma KillOther(s: State, a: Action, i: nat, q: Slot)
    requires a.i < |s.procs| && i < |s.procs| && a.i != i && ByOther(s, a, i, q) && Waiting(q) && q.killed
    ensures Waiting(s.procs[i]) && s.procs[i].killed
  {
  }

  lemma Extend(ss: seq<State>, a: Action, s: State) returns (r: seq<State>)
    requires Run(ss) && Enabled(ss[|ss| - 1], a) && Do(ss[|ss| - 1], a) == s
    ensures Run(r) && |r| > 0 && r[|r| - 1] == s
  {
    hide Enabled, Do, Initial;
    r := ss + [s];
    forall t | 0 <= t < |r| - 1 ensures Next(r, t) {
      if t < |ss| - 1 {
        assert Next(ss, t);
        var b :| Enabled(ss[t], b) && Do(ss[t], b) == ss[t + 1];
        assert Enabled(r[t], b) && Do(r[t], b) == r[t + 1];
      } else {
        assert Enabled(r[t], a) && Do(r[t], a) == r[t + 1];
      }
    }
  }

  /** init alone, then init with a child that runs. */
  function Alone(pc: Pc, st: RunState, c: Slot, w: Option<nat>, n: nat, ret: int): (s: State) {
    State(w, [Slot(pc, st, None, None, Free, false, None, 0, 0, Ident(1, 0, 0, ret, 0)), c], n)
  }

  function Kid(pc: Pc, st: RunState, parent: Option<nat>, o: Owner, maker: Option<nat>, pid: nat): (c: Slot) {
    Slot(pc, st, parent, None, o, false, maker, 0, 0, Ident(pid, 0, 0, 0, 0))
  }

  /** init inside wait. */
  function AtWait(pc: Pc, st: RunState, chan: Option<nat>, o: Owner, killed: bool, w: Option<nat>,
                  co: Owner): (s: State) {
    State(w, [Slot(pc, st, None, chan, o, killed, None, 0, 0, Ident(1, 0, 0, 2, 0)),
              Kid(User, RUNNABLE, Some(0), co, None, 2)], 3)
  }

  lemma StartRun() returns (ss: seq<State>)
    ensures Run(ss) && |ss| > 0
    ensures ss[|ss| - 1] == Alone(User, RUNNING, Kid(Dead, UNUSED, None, Free, None, 0), None, 2, 0)
  {
    hide Run, DoExit, DoWait, DoSleep, ExitEnabled, WaitEnabled, SleepEnabled;
    var s := Alone(User, RUNNABLE, Kid(Dead, UNUSED, None, Free, None, 0), None, 2, 0);
    ss := [s];
    assert Run(ss) by { FirstRun(s); }
    ss := Extend(ss, Elsewhere(0, RUNNING), Alone(User, RUNNING, Kid(Dead, UNUSED, None, Free, None, 0), None, 2, 0));
  }

  lemma MakeRun() returns (ss: seq<State>)
    ensures Run(ss) && |ss| > 0
    ensures ss[|ss| - 1] ==
            Alone(ForkUnwait(1), RUNNING, Kid(Dead, USED, Some(0), Free, Some(0), 2), Some(0), 3, 2)
  {
    hide Run, DoExit, DoWait, DoSleep, ExitEnabled, WaitEnabled, SleepEnabled, Initial;
    ss := StartRun();
    ss := Extend(ss, BeginFork(0, 1),
                 Alone(ForkHeld(1), RUNNING, Kid(Dead, USED, None, By(0), Some(0), 2), None, 3, 0));
    ss := Extend(ss, Step(0), Alone(ForkJoin(1), RUNNING, Kid(Dead, USED, None, Free, Some(0), 2), None, 3, 2));
    ss := Extend(ss, Step(0), Alone(ForkName(1), RUNNING, Kid(Dead, USED, None, Free, Some(0), 2), Some(0), 3, 2));
    ss := Extend(ss, Step(0), Alone(ForkUnwait(1), RUNNING, Kid(Dead, USED, Some(0), Free, Some(0), 2), Some(0), 3, 2));
  }

  lemma ForkRun() returns (ss: seq<State>)
    ensures Run(ss) && |ss| > 0 && ss[|ss| - 1] == AtWait(User, RUNNING, None, Free, false, None, Free)
  {
    hide Run, DoExit, DoWait, DoSleep, ExitEnabled, WaitEnabled, SleepEnabled, Initial;
    ss := MakeRun();
    ss := Extend(ss, Step(0), Alone(ForkReady(1), RUNNING, Kid(Dead, USED, Some(0), Free, Some(0), 2), None, 3, 2));
    ss := Extend(ss, Step(0), Alone(ForkSet(1), RUNNING, Kid(Dead, USED, Some(0), By(0), Some(0), 2), None, 3, 2));
    ss := Extend(ss, Step(0), Alone(ForkDone(1), RUNNING, Kid(User, RUNNABLE, Some(0), By(0), None, 2), None, 3, 2));
    ss := Extend(ss, Step(0), AtWait(User, RUNNING, None, Free, false, None, Free));
  }

  lemma FirstRun(s: State)
    requires Initial(s)
    ensures Run([s])
  {
  }

  lemma WaitRun() returns (ss: seq<State>)
    ensures Run(ss) && |ss| > 0 && ss[|ss| - 1] == AtWait(SleepLock, RUNNING, None, Free, false, Some(0), Free)
  {
    hide Run, DoExit, DoFork, DoSleep, ExitEnabled, ForkEnabled, SleepEnabled, Initial;
    ss := ForkRun();
    ss := Extend(ss, BeginWait(0), AtWait(WaitScan(0, false), RUNNING, None, Free, false, Some(0), Free));
    ss := Extend(ss, Step(0), AtWait(WaitScan(1, false), RUNNING, None, Free, false, Some(0), Free));
    ss := Extend(ss, Step(0), AtWait(WaitHeld(1, false), RUNNING, None, Free, false, Some(0), By(0)));
    ss := Extend(ss, Step(0), AtWait(WaitScan(2, true), RUNNING, None, Free, false, Some(0), Free));
    ss := Extend(ss, Step(0), AtWait(WaitTest(true), RUNNING, None, Free, false, Some(0), Free));
    ss := Extend(ss, Step(0), AtWait(SleepLock, RUNNING, None, Free, false, Some(0), Free));
  }

  /** The gap is there: a run in which a process that has been killed goes to sleep in wait, with no one to wake it
      but a child that need never exit. */
  lemma KilledSleeper() returns (ss: seq<State>)
    ensures Run(ss) && |ss| > 0 && |ss[|ss| - 1].procs| > 0
    ensures var p := ss[|ss| - 1].procs[0]; p.pc.Asleep? && p.st.SLEEPING? && p.killed
  {
    hide Run, DoExit, DoFork, DoWait, ExitEnabled, ForkEnabled, WaitEnabled, Initial;
    ss := WaitRun();
    ss := Extend(ss, Kill(0), AtWait(SleepLock, RUNNING, None, Free, true, Some(0), Free));
    ss := Extend(ss, Step(0), AtWait(SleepRelease, RUNNING, None, By(0), true, Some(0), Free));
    ss := Extend(ss, Step(0), AtWait(SleepSet, RUNNING, None, By(0), true, None, Free));
    ss := Extend(ss, Step(0), AtWait(SleepSwitch, SLEEPING, Some(0), By(0), true, None, Free));
    ss := Extend(ss, Step(0), AtWait(Asleep, SLEEPING, Some(0), Scheduler, true, None, Free));
  }
}
