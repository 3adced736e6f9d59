/** fork, exit and wait of proc.c as a state machine: one step per lock operation or access to the process
    table, with sleep and wakeup spelled out, any number of slots, any interleaving. */
module Proc {

  import opened Basics

  datatype RunState = UNUSED | USED | SLEEPING | RUNNABLE | RUNNING | ZOMBIE

  /** Where the process in a slot is. */
  datatype Pc =
    | Dead                                      // no process in this slot yet, or none any more
    | User                                      // in user code, or in other kernel code
    | Gone                                      // exited and off the CPU
    | ForkHeld(c: nat)                          // allocproc took slot c, its lock is held
    | ForkFree(c: nat)                          // freeproc after a failed allocation or uvmcopy
    | ForkJoin(c: nat)                          // about to take wait_lock
    | ForkName(c: nat) | ForkUnwait(c: nat)     // wait_lock held
    | ForkReady(c: nat)                         // about to take the lock of c again
    | ForkSet(c: nat) | ForkDone(c: nat)        // lock of c held
    | Reparent(j: nat)                          // kexit, wait_lock held up to ExitRelease
    | ReparentWake(j: nat, k: nat) | ReparentHeld(j: nat, k: nat)
    | ExitWake(k: nat) | ExitHeld(k: nat)
    | ExitOwn | ExitZombie | ExitRelease
    | ExitSched
    | WaitScan(j: nat, kids: bool)              // kwait, wait_lock held up to SleepRelease
    | WaitHeld(j: nat, kids: bool)
    | WaitReaped(j: nat)
    | WaitTest(kids: bool)
    | WaitEnd
    | SleepLock | SleepRelease | SleepSet | SleepSwitch
    | Asleep
    | Awake | AwakeRelease | AwakeLock

  /** The holder of a p->lock. */
  datatype Owner = Free | By(i: nat) | Scheduler

  /** chan is Some(p) when p->chan is the address of slot p, and None for 0 or any other channel. maker is
      the process whose kfork is filling the slot. exits and reaps count what has happened to the slot. */
  datatype Slot = Slot(pc: Pc, st: RunState, parent: Option<nat>, chan: Option<nat>, plock: Owner, killed: bool,
                       maker: Option<nat>, exits: nat, reaps: nat, id: Ident)

  /** arg is the argument of the process's exit; ret and got are the result of its last fork or wait, and the
      exit status that this wait copied out. */
  datatype Ident = Ident(pid: nat, xstate: int, arg: int, ret: int, got: int)

  const NoId: Ident := Ident(0, 0, 0, 0, 0)

  datatype State = State(waitLock: Option<nat>, procs: seq<Slot>, nextpid: nat)

  const INIT: nat := 0   // initproc is the first slot allocated

  datatype Action =
    | Step(i: nat)
    | BeginFork(i: nat, c: nat) | FailFork(i: nat) | BeginExit(i: nat, status: int) | BeginWait(i: nat)
    | FailCopy(i: nat)                       // copyout of the exit status fails
    | Kill(i: nat)
    | Dispatch(i: nat) | Look(i: nat) | Leave(i: nat)
    | Elsewhere(i: nat, st: RunState)        // runs, yields or sleeps on something else

  // ----- steps -----

  function Set(s: State, i: nat, p: Slot): (r: State)
    requires i < |s.procs|
  {
    s.(procs := s.procs[i := p])
  }

  function Goto(s: State, i: nat, pc: Pc): (r: State)
    requires i < |s.procs|
  {
    Set(s, i, s.procs[i].(pc := pc))
  }

  /** Slot i becomes p, the lock of slot t becomes o, wait_lock becomes w. */
  function Update(s: State, i: nat, p: Slot, t: nat, o: Owner, w: Option<nat>): (r: State)
    requires i < |s.procs| && t < |s.procs|
  {
    s.(waitLock := w,
       procs := if t == i then s.procs[i := p] else s.procs[t := s.procs[t].(plock := o)][i := p])
  }

  predicate Alive(st: RunState) { st.SLEEPING? || st.RUNNABLE? || st.RUNNING? }

  predicate Enabled(s: State, a: Action) {
    && a.i < |s.procs|
    && var p := s.procs[a.i];
       match a
       case BeginFork(i, c) =>
         p.pc == User && c < |s.procs| && c != i && s.procs[c].plock == Free && s.procs[c].st == UNUSED
       case FailFork(_) => p.pc.ForkHeld? && p.pc.c < |s.procs|
       case BeginExit(i, _) => p.pc == User && i != INIT && s.waitLock.None?
       case BeginWait(_) => p.pc == User && s.waitLock.None?
       case FailCopy(_) => p.pc.WaitHeld? && p.pc.j < |s.procs| && s.procs[p.pc.j].st == ZOMBIE
       case Kill(_) => p.plock == Free
       case Dispatch(_) => p.pc == Asleep && p.st == RUNNABLE && p.plock == Scheduler
       case Look(_) => p.plock == Free
       case Leave(_) => p.plock == Scheduler
       case Elsewhere(_, st) => p.plock == Free && p.pc == User && Alive(st)
       case Step(i) => StepEnabled(s, i)
  }

  predicate InFork(pc: Pc) {
    pc.ForkHeld? || pc.ForkFree? || pc.ForkJoin? || pc.ForkName? || pc.ForkUnwait? || pc.ForkReady? || pc.ForkSet?
    || pc.ForkDone?
  }

  predicate InKexit(pc: Pc) {
    pc.Reparent? || pc.ReparentWake? || pc.ReparentHeld? || pc.ExitWake? || pc.ExitHeld? || pc.ExitOwn?
    || pc.ExitZombie?
    || pc.ExitRelease? || pc.ExitSched?
  }

  predicate InKwait(pc: Pc) { pc.WaitScan? || pc.WaitHeld? || pc.WaitReaped? || pc.WaitTest? || pc.WaitEnd? }

  predicate InSleep(pc: Pc) {
    pc.SleepLock? || pc.SleepRelease? || pc.SleepSet? || pc.SleepSwitch? || pc.Awake? || pc.AwakeRelease?
    || pc.AwakeLock?
  }

  predicate StepEnabled(s: State, i: nat)
    requires i < |s.procs|
  {
    var pc := s.procs[i].pc;
    || (InFork(pc) && ForkEnabled(s, i)) || (InKexit(pc) && ExitEnabled(s, i))
    || (InKwait(pc) && WaitEnabled(s, i)) || (InSleep(pc) && SleepEnabled(s, i))
  }

  predicate ForkEnabled(s: State, i: nat)
    requires i < |s.procs|
  {
    match s.procs[i].pc
    case ForkHeld(c) => c < |s.procs|
    case ForkFree(c) => c < |s.procs|
    case ForkJoin(c) => s.waitLock.None?
    case ForkName(c) => c < |s.procs|
    case ForkReady(c) => c < |s.procs| && s.procs[c].plock == Free
    case ForkSet(c) => c < |s.procs|
    case ForkDone(c) => c < |s.procs|
    case _ => true
  }

  predicate ExitEnabled(s: State, i: nat)
    requires i < |s.procs|
  {
    match s.procs[i].pc
    case ReparentWake(j, k) => k < |s.procs| && k != i ==> s.procs[k].plock == Free
    case ReparentHeld(j, k) => k < |s.procs|
    case ExitWake(k) => k < |s.procs| && k != i ==> s.procs[k].plock == Free
    case ExitHeld(k) => k < |s.procs|
    case ExitOwn => s.procs[i].plock == Free
    case _ => true
  }

  predicate WaitEnabled(s: State, i: nat)
    requires i < |s.procs|
  {
    match s.procs[i].pc
    case WaitScan(j, _) => j < |s.procs| && s.procs[j].parent == Some(i) ==> s.procs[j].plock == Free
    case WaitHeld(j, _) => j < |s.procs|
    case WaitReaped(j) => j < |s.procs|
    case WaitTest(_) => s.procs[i].plock == Free
    case _ => true
  }

  predicate SleepEnabled(s: State, i: nat)
    requires i < |s.procs|
  {
    match s.procs[i].pc
    case SleepLock => s.procs[i].plock == Free
    case AwakeLock => s.waitLock.None?
    case _ => true
  }

  function Do(s: State, a: Action): (r: State)
    requires Enabled(s, a)
  {
    var p := s.procs[a.i];
    match a
    case BeginFork(i, c) =>
      Goto(Set(s, c, s.procs[c].(st := USED, maker := Some(i), plock := By(i), id := NoId.(pid := s.nextpid))),
           i, ForkHeld(c)).(nextpid := s.nextpid + 1)
    case FailFork(i) =>
      var q := s.procs[p.pc.c];
      Set(Set(s, p.pc.c, q.(st := UNUSED, maker := None, parent := None, chan := None, killed := false, id := NoId)),
          i, Returns(p, -1).(pc := ForkFree(p.pc.c)))
    case BeginExit(i, status) => Set(s, i, p.(pc := Reparent(0), id := p.id.(arg := status))).(waitLock := Some(i))
    case BeginWait(i) => Goto(s, i, WaitScan(0, false)).(waitLock := Some(i))
    case FailCopy(i) => Update(s, i, Returns(p, -1).(pc := WaitEnd), p.pc.j, Free, s.waitLock)
    case Kill(i) => Set(s, i, p.(killed := true, st := if p.st == SLEEPING then RUNNABLE else p.st))
    case Dispatch(i) => Set(s, i, p.(pc := Awake, st := RUNNING, plock := By(i)))
    case Look(i) => Set(s, i, p.(plock := Scheduler))
    case Leave(i) => Set(s, i, p.(plock := Free))
    case Elsewhere(i, st) => Set(s, i, p.(st := st))
    case Step(i) => DoStep(s, i)
  }

  /** The process with the result of its call. */
  function Returns(p: Slot, ret: int): (q: Slot) { p.(id := p.id.(ret := ret)) }

  /** The slot k as wakeup(chan) leaves it. */
  function Woken(q: Slot, chan: Option<nat>): (r: Slot) {
    if q.st == SLEEPING && q.chan.Some? && q.chan == chan then q.(st := RUNNABLE, plock := Free) else q.(plock := Free)
  }

  function DoStep(s: State, i: nat): (r: State)
    requires i < |s.procs| && StepEnabled(s, i)
  {
    var pc := s.procs[i].pc;
    if InFork(pc) then DoFork(s, i)
    else if InKexit(pc) then DoExit(s, i)
    else if InKwait(pc) then DoWait(s, i)
    else DoSleep(s, i)
  }

  /** kfork */
  function DoFork(s: State, i: nat): (r: State)
    requires i < |s.procs| && InFork(s.procs[i].pc) && ForkEnabled(s, i)
  {
    var p := s.procs[i];
    match p.pc
    case ForkHeld(c) => Update(s, i, Returns(p, s.procs[c].id.pid).(pc := ForkJoin(c)), c, Free, s.waitLock)
    case ForkFree(c) => Update(s, i, p.(pc := User), c, Free, s.waitLock)
    case ForkJoin(c) => Goto(s, i, ForkName(c)).(waitLock := Some(i))
    case ForkName(c) => Goto(Set(s, c, s.procs[c].(parent := Some(i))), i, ForkUnwait(c))
    case ForkUnwait(c) => Goto(s, i, ForkReady(c)).(waitLock := None)
    case ForkReady(c) => Update(s, i, p.(pc := ForkSet(c)), c, By(i), s.waitLock)
    case ForkSet(c) => Goto(Set(s, c, s.procs[c].(st := RUNNABLE, maker := None, pc := User)), i, ForkDone(c))
    case ForkDone(c) => Update(s, i, p.(pc := User), c, Free, s.waitLock)
    case _ => s
  }

  /** kexit, with reparent and wakeup */
  function DoExit(s: State, i: nat): (r: State)
    requires i < |s.procs| && InKexit(s.procs[i].pc) && ExitEnabled(s, i)
  {
    var p, n := s.procs[i], |s.procs|;
    match p.pc
    case Reparent(j) =>
      if j >= n then Goto(s, i, ExitWake(0))
      else if s.procs[j].parent == Some(i) then
        Goto(Set(s, j, s.procs[j].(parent := Some(INIT))), i, ReparentWake(j, 0))
      else Goto(s, i, Reparent(j + 1))
    case ReparentWake(j, k) =>
      if k >= n then Goto(s, i, Reparent(j + 1))
      else if k == i then Goto(s, i, ReparentWake(j, k + 1))
      else Update(s, i, p.(pc := ReparentHeld(j, k)), k, By(i), s.waitLock)
    case ReparentHeld(j, k) => Goto(Set(s, k, Woken(s.procs[k], Some(INIT))), i, ReparentWake(j, k + 1))
    case ExitWake(k) =>
      if k >= n then Goto(s, i, ExitOwn)
      else if k == i then Goto(s, i, ExitWake(k + 1))
      else Update(s, i, p.(pc := ExitHeld(k)), k, By(i), s.waitLock)
    case ExitHeld(k) => Goto(Set(s, k, Woken(s.procs[k], p.parent)), i, ExitWake(k + 1))
    case ExitOwn => Set(s, i, p.(pc := ExitZombie, plock := By(i)))
    case ExitZombie =>
      Set(s, i, p.(pc := ExitRelease, st := ZOMBIE, exits := p.exits + 1, id := p.id.(xstate := p.id.arg)))
    case ExitRelease => Goto(s, i, ExitSched).(waitLock := None)
    case ExitSched => Set(s, i, p.(pc := Gone, plock := Scheduler))
    case _ => s
  }

  /** kwait */
  function DoWait(s: State, i: nat): (r: State)
    requires i < |s.procs| && InKwait(s.procs[i].pc) && WaitEnabled(s, i)
  {
    var p, n := s.procs[i], |s.procs|;
    match p.pc
    case WaitScan(j, kids) =>
      if j >= n then Goto(s, i, WaitTest(kids))
      else if s.procs[j].parent == Some(i) then Update(s, i, p.(pc := WaitHeld(j, kids)), j, By(i), s.waitLock)
      else Goto(s, i, WaitScan(j + 1, kids))
    case WaitHeld(j, kids) =>
      var q := s.procs[j];
      if q.st == ZOMBIE
      then Set(Set(s, j, Slot(Dead, UNUSED, None, None, q.plock, false, None, q.exits, q.reaps + 1, NoId)),
               i, p.(pc := WaitReaped(j), id := p.id.(ret := q.id.pid, got := q.id.xstate)))
      else Update(s, i, p.(pc := WaitScan(j + 1, true)), j, Free, s.waitLock)
    case WaitReaped(j) => Update(s, i, p.(pc := WaitEnd), j, Free, s.waitLock)
    case WaitTest(kids) =>
      if !kids || p.killed then Set(s, i, Returns(p, -1).(pc := WaitEnd)) else Goto(s, i, SleepLock)
    case WaitEnd => Goto(s, i, User).(waitLock := None)
    case _ => s
  }

  /** sleep(p, &wait_lock) */
  function DoSleep(s: State, i: nat): (r: State)
    requires i < |s.procs| && InSleep(s.procs[i].pc) && SleepEnabled(s, i)
  {
    var p := s.procs[i];
    match p.pc
    case SleepLock => Set(s, i, p.(pc := SleepRelease, plock := By(i)))
    case SleepRelease => Goto(s, i, SleepSet).(waitLock := None)
    case SleepSet => Set(s, i, p.(pc := SleepSwitch, chan := Some(i), st := SLEEPING))
    case SleepSwitch => Set(s, i, p.(pc := Asleep, plock := Scheduler))
    case Awake => Set(s, i, p.(pc := AwakeRelease, chan := None))
    case AwakeRelease => Set(s, i, p.(pc := AwakeLock, plock := Free))
    case AwakeLock => Goto(s, i, WaitScan(0, false)).(waitLock := Some(i))
    case _ => s
  }

  // ----- the invariant: locks -----

  /** Places where wait_lock is held. */
  predicate HasWait(pc: Pc) {
    pc.ForkName? || pc.ForkUnwait? || pc.Reparent? || pc.ReparentWake? || pc.ReparentHeld? || pc.ExitWake?
    || pc.ExitHeld? || pc.ExitOwn? || pc.ExitZombie? || pc.ExitRelease? || pc.WaitScan? || pc.WaitHeld?
    || pc.WaitReaped? || pc.WaitTest?
    || pc.WaitEnd? || pc.SleepLock? || pc.SleepRelease?
  }

  /** Places where the process holds its own lock. */
  predicate HasOwn(pc: Pc) {
    pc.ExitZombie? || pc.ExitRelease? || pc.ExitSched? || pc.SleepRelease? || pc.SleepSet? || pc.SleepSwitch?
    || pc.Awake? || pc.AwakeRelease?
  }

  /** The other slot whose lock is held. */
  function Target(pc: Pc): (t: Option<nat>) {
    match pc
    case ForkHeld(c) => Some(c)
    case ForkFree(c) => Some(c)
    case ForkSet(c) => Some(c)
    case ForkDone(c) => Some(c)
    case ReparentHeld(_, k) => Some(k)
    case ExitHeld(k) => Some(k)
    case WaitHeld(j, _) => Some(j)
    case WaitReaped(j) => Some(j)
    case _ => None
  }

  ghost predicate LockOk(s: State, i: nat)
    requires i < |s.procs|
  {
    var p := s.procs[i];
    && (HasWait(p.pc) <==> s.waitLock == Some(i))
    && (HasOwn(p.pc) <==> p.plock == By(i))
    && (p.plock.By? && p.plock.i != i ==> p.plock.i < |s.procs| && Target(s.procs[p.plock.i].pc) == Some(i))
    && (Target(p.pc).Some? ==> var t := Target(p.pc).value; t < |s.procs| && t != i && s.procs[t].plock == By(i))
  }

  ghost predicate Locks(s: State) {
    && (s.waitLock.Some? ==> s.waitLock.value < |s.procs|)
    && forall i :: 0 <= i < |s.procs| ==> LockOk(s, i)
  }

  /** A step by i that touches at most the lock of one other slot t. */
  lemma LockFrame(s: State, s': State, i: nat, t: nat)
    requires Locks(s) && |s'.procs| == |s.procs| && i < |s.procs| && t < |s.procs|
    requires forall k :: 0 <= k < |s.procs| && k != i ==>
               && HasWait(s'.procs[k].pc) == HasWait(s.procs[k].pc) && HasOwn(s'.procs[k].pc) == HasOwn(s.procs[k].pc)
               && Target(s'.procs[k].pc) == Target(s.procs[k].pc) && (k != t ==> s'.procs[k].plock == s.procs[k].plock)
    requires || s'.waitLock == s.waitLock
             || (s.waitLock == Some(i) && s'.waitLock.None?)
             || (s.waitLock.None? && s'.waitLock == Some(i))
    requires LockOk(s', i) && LockOk(s', t)
    requires s'.procs[i].plock == s.procs[i].plock || !s.procs[i].plock.By? || s.procs[i].plock.i == i
    requires s'.procs[t].plock == s.procs[t].plock || !s.procs[t].plock.By? || s.procs[t].plock.i == i
    requires Target(s.procs[i].pc).Some? ==>
               Target(s.procs[i].pc).value == t || Target(s'.procs[i].pc) == Target(s.procs[i].pc)
    ensures Locks(s')
  {
    forall k | 0 <= k < |s'.procs| ensures LockOk(s', k) {
      assert LockOk(s, k) && LockOk(s, i) && LockOk(s, t);
    }
  }

  // ----- the invariant: states, families, sleepers -----

  /** The slot that a kfork is filling, until it is made runnable. */
  function Making(pc: Pc): (c: Option<nat>) {
    match pc
    case ForkHeld(c) => Some(c)
    case ForkJoin(c) => Some(c)
    case ForkName(c) => Some(c)
    case ForkUnwait(c) => Some(c)
    case ForkReady(c) => Some(c)
    case ForkSet(c) => Some(c)
    case _ => None
  }

  /** The new slot already has its parent. */
  predicate Named(pc: Pc) { pc.ForkUnwait? || pc.ForkReady? || pc.ForkSet? }

  ghost predicate StateOk(s: State, i: nat)
    requires i < |s.procs|
  {
    var p := s.procs[i];
    && (p.st.ZOMBIE? <==> p.pc.ExitRelease? || p.pc.ExitSched? || p.pc.Gone?)
    && (p.st.UNUSED? || p.st.USED? <==> p.pc.Dead?)
    && (p.chan == if p.pc.SleepSwitch? || p.pc.Asleep? || p.pc.Awake? then Some(i) else None)
    && (p.pc.SleepSwitch? ==> p.st.SLEEPING?)
    && (p.st.USED? <==> p.maker.Some?)
    && (p.maker.Some? ==> p.maker.value < |s.procs| && Making(s.procs[p.maker.value].pc) == Some(i))
    && (Making(p.pc).Some? ==> Making(p.pc).value < |s.procs| && s.procs[Making(p.pc).value].maker == Some(i))
    && p.exits == p.reaps + if p.st.ZOMBIE? then 1 else 0
  }

  /** kexit has given child c away. */
  predicate Cleared(pc: Pc, c: nat) {
    match pc
    case Reparent(j) => c < j
    case ReparentWake(j, _) => c <= j
    case ReparentHeld(j, _) => c <= j
    case _ => pc.ExitWake? || pc.ExitHeld? || pc.ExitOwn? || pc.ExitZombie? || pc.ExitRelease? || pc.ExitSched?
              || pc.Gone?
  }

  predicate InExit(pc: Pc) { pc.Reparent? || pc.ReparentWake? || pc.ReparentHeld? || Cleared(pc, 0) }

  ghost predicate FamilyOk(s: State, i: nat)
    requires i < |s.procs|
  {
    var p := s.procs[i];
    && (p.parent.Some? ==> p.parent.value < |s.procs| && p.parent.value != i && Alive(s.procs[p.parent.value].st))
    && (p.st.UNUSED? ==> p.parent.None?)
    && (p.maker.Some? && p.maker.value < |s.procs| ==>
          p.parent == if Named(s.procs[p.maker.value].pc) then p.maker else None)
    && (if i == INIT then p.parent.None? && Alive(p.st) && !InExit(p.pc)
        else Alive(p.st) || p.st.ZOMBIE? ==> p.parent.Some?)
    && (forall c :: 0 <= c < |s.procs| && Cleared(p.pc, c) ==> s.procs[c].parent != Some(i))
  }

  /** Asleep in kwait, or committed to it. */
  predicate Waiting(p: Slot) {
    p.pc.SleepLock? || p.pc.SleepRelease? || p.pc.SleepSet? || p.pc.SleepSwitch? || (p.pc.Asleep? && p.st.SLEEPING?)
  }

  /** kwait has looked at slot c. */
  predicate Seen(pc: Pc, c: nat) {
    match pc
    case WaitScan(j, _) => c < j
    case WaitHeld(j, _) => c < j
    case WaitTest(_) => true
    case _ => false
  }

  ghost predicate Child(s: State, i: nat, c: nat) { c < |s.procs| && s.procs[c].parent == Some(i) }

  ghost predicate HasChild(s: State, i: nat) { exists c :: Child(s, i, c) }

  /** An exiting process has just handed a child to init and not yet come to init in wakeup. */
  ghost predicate Waking(s: State) {
    && s.waitLock.Some? && s.waitLock.value < |s.procs|
    && AtInit(s.procs[s.waitLock.value].pc)
  }

  /** A process that waits has a child, and no zombie child. */
  ghost predicate WaitingOk(s: State, i: nat)
    requires i < |s.procs|
  {
    Waiting(s.procs[i]) ==>
      HasChild(s, i) && forall c: nat :: Child(s, i, c) && s.procs[c].st.ZOMBIE? ==> i == INIT && Waking(s)
  }

  /** kwait has passed no zombie child, and knows whether it has passed a child. */
  ghost predicate ScanOk(s: State, i: nat)
    requires i < |s.procs|
  {
    var pc := s.procs[i].pc;
    && (pc.WaitHeld? ==> Child(s, i, pc.j))
    && (InScan(pc) ==>
          && (forall c: nat :: Child(s, i, c) && Seen(pc, c) ==> !s.procs[c].st.ZOMBIE? && pc.kids)
          && (pc.kids ==> HasChild(s, i)))
  }

  /** kexit has come past its parent in wakeup only if the parent does not wait. */
  ghost predicate ToldOk(s: State, i: nat)
    requires i < |s.procs|
  {
    var p := s.procs[i];
    p.parent.Some? && p.parent.value < |s.procs| && Told(p.pc, p.parent.value) ==> !Waiting(s.procs[p.parent.value])
  }

  ghost predicate WaitOk(s: State, i: nat)
    requires i < |s.procs|
  {
    WaitingOk(s, i) && ScanOk(s, i) && ToldOk(s, i)
  }

  /** kexit has come past the parent in wakeup. */
  predicate Told(pc: Pc, parent: nat) {
    match pc
    case ExitWake(k) => parent < k
    case ExitHeld(k) => parent < k
    case _ => pc.ExitOwn? || pc.ExitZombie?
  }

  ghost predicate RestAt(s: State, i: nat)
    requires i < |s.procs|
  {
    StateOk(s, i) && FamilyOk(s, i) && WaitOk(s, i)
  }

  ghost predicate Inv(s: State) {
    && Locks(s) && |s.procs| > INIT
    && forall i :: 0 <= i < |s.procs| ==> RestAt(s, i)
  }

  // ----- quiet steps -----

  ghost predicate SameFamily(p: Slot, q: Slot) {
    q.parent == p.parent && q.maker == p.maker && (q.st == p.st || (Alive(q.st) && Alive(p.st)))
    && Making(q.pc) == Making(p.pc) && Named(q.pc) == Named(p.pc)
  }

  /** A step by i that changes no other slot except for a lock, and no parent, and makes no zombie. */
  lemma QuietFrame(s: State, s': State, i: nat)
    requires Inv(s) && |s'.procs| == |s.procs| && i < |s.procs|
    requires forall k :: 0 <= k < |s.procs| && k != i ==> s'.procs[k] == s.procs[k].(plock := s'.procs[k].plock)
    requires SameFamily(s.procs[i], s'.procs[i]) && RestAt(s', i)
    requires Waiting(s'.procs[i]) ==> Waiting(s.procs[i]) || s.waitLock == Some(i)
    requires Waking(s) ==> Waking(s')
    ensures forall k :: 0 <= k < |s'.procs| ==> RestAt(s', k)
  {
    forall k | 0 <= k < |s'.procs| ensures RestAt(s', k) {
      if k != i {
        assert LockOk(s, k) && RestAt(s, k) && RestAt(s, i);
        QuietState(s, s', i, k);
        QuietFamily(s, s', i, k);
        QuietWait(s, s', i, k);
      }
    }
  }

  lemma QuietState(s: State, s': State, i: nat, k: nat)
    requires |s'.procs| == |s.procs| && i < |s.procs| && k < |s.procs| && k != i
    requires forall k :: 0 <= k < |s.procs| && k != i ==> s'.procs[k] == s.procs[k].(plock := s'.procs[k].plock)
    requires SameFamily(s.procs[i], s'.procs[i]) && StateOk(s, k)
    ensures StateOk(s', k)
  {
  }

  lemma QuietFamily(s: State, s': State, i: nat, k: nat)
    requires |s'.procs| == |s.procs| && i < |s.procs| && k < |s.procs| && k != i
    requires forall k :: 0 <= k < |s.procs| && k != i ==> s'.procs[k] == s.procs[k].(plock := s'.procs[k].plock)
    requires SameFamily(s.procs[i], s'.procs[i]) && FamilyOk(s, k)
    ensures FamilyOk(s', k)
  {
  }

  lemma QuietWait(s: State, s': State, i: nat, k: nat)
    requires |s'.procs| == |s.procs| && i < |s.procs| && k < |s.procs| && k != i
    requires forall k :: 0 <= k < |s.procs| && k != i ==> s'.procs[k] == s.procs[k].(plock := s'.procs[k].plock)
    requires SameFamily(s.procs[i], s'.procs[i]) && WaitOk(s, k) && LockOk(s, k)
    requires Waiting(s'.procs[i]) ==> Waiting(s.procs[i]) || s.waitLock == Some(i)
    requires Waking(s) ==> Waking(s')
    ensures WaitOk(s', k)
  {
    assert forall c: nat :: Child(s', k, c) <==> Child(s, k, c);
    if HasChild(s, k) {
      var c :| Child(s, k, c);
      assert Child(s', k, c);
    }
  }

  lemma InvAt(s: State, i: nat)
    requires Inv(s) && i < |s.procs|
    ensures LockOk(s, i) && RestAt(s, i) && Locks(s) && (s.waitLock.Some? ==> s.waitLock.value < |s.procs|)
  {
  }

  lemma InvOf(s: State, s': State)
    requires Inv(s) && Locks(s') && |s'.procs| == |s.procs| && forall k :: 0 <= k < |s'.procs| ==> RestAt(s', k)
    ensures Inv(s')
  {
  }

  /** What a slot must satisfy by itself. */
  predicate SlotOk(p: Slot, i: nat) {
    && (p.st.ZOMBIE? <==> p.pc.ExitRelease? || p.pc.ExitSched? || p.pc.Gone?)
    && (p.st.UNUSED? || p.st.USED? <==> p.pc.Dead?)
    && (p.chan == if p.pc.SleepSwitch? || p.pc.Asleep? || p.pc.Awake? then Some(i) else None)
    && (p.pc.SleepSwitch? ==> p.st.SLEEPING?)
  }

  /** Locks are taken when free and dropped by their holder. */
  predicate LockMove(from: Owner, to: Owner, i: nat, self: bool) {
    || to == from
    || (from == Free && (to == By(i) || (self && to == Scheduler)))
    || (from == By(i) && (to == Free || (self && to == Scheduler)))
    || (self && from == Scheduler && (to == Free || to == By(i)))
  }

  predicate WaitMove(from: Option<nat>, to: Option<nat>, i: nat) {
    to == from || (from.None? && to == Some(i)) || (from == Some(i) && to.None?)
  }

  ghost predicate QuietLock(s: State, i: nat, p: Slot, t: nat, o: Owner, w: Option<nat>)
    requires i < |s.procs| && t < |s.procs|
  {
    var q := s.procs[i];
    && (HasOwn(p.pc) <==> p.plock == By(i))
    && (HasWait(p.pc) <==> w == Some(i)) && WaitMove(s.waitLock, w, i) && LockMove(q.plock, p.plock, i, true)
    && (if t == i then Target(p.pc) == Target(q.pc)
        else && LockMove(s.procs[t].plock, o, i, false)
             && (Target(p.pc) == if o == By(i) then Some(t) else None)
             && (Target(q.pc) == if s.procs[t].plock == By(i) then Some(t) else None))
  }

  ghost predicate QuietFam(s: State, i: nat, p: Slot)
    requires i < |s.procs|
  {
    var q := s.procs[i];
    && SameFamily(q, p) && p.exits == q.exits && p.reaps == q.reaps && SlotOk(p, i)
    && (i == INIT ==> !InExit(p.pc))
    && (forall c :: 0 <= c < |s.procs| && Cleared(p.pc, c) ==> Cleared(q.pc, c) || s.procs[c].parent != Some(i))
  }

  predicate InScan(pc: Pc) { pc.WaitScan? || pc.WaitHeld? || pc.WaitTest? }

  ghost predicate QuietSleep(s: State, i: nat, p: Slot)
    requires i < |s.procs|
  {
    var q := s.procs[i];
    && (Waiting(p) ==> Waiting(q) || q.pc == WaitTest(true))
    && (InScan(p.pc) && !InScan(q.pc) ==> p.pc == WaitScan(0, false))
    && (InScan(p.pc) && InScan(q.pc) && p.pc != q.pc ==> (p.pc.kids <==> q.pc.kids || q.pc.WaitHeld?))
    && (InScan(p.pc) ==> forall c :: 0 <= c < |s.procs| && Seen(p.pc, c) ==>
          Seen(q.pc, c) || s.procs[c].parent != Some(i) || (!s.procs[c].st.ZOMBIE? && p.pc.kids))
    && (p.pc.WaitHeld? && p.pc != q.pc ==> q.pc.WaitScan? && p.pc.j < |s.procs| && s.procs[p.pc.j].parent == Some(i))
    && (p.parent.Some? && p.parent.value < |s.procs| && Told(p.pc, p.parent.value) ==>
          Told(q.pc, p.parent.value) || !Waiting(s.procs[p.parent.value]))
    && (AtInit(q.pc) ==> AtInit(p.pc))
  }

  /** In the wakeup(initproc) of reparent, with init still ahead. */
  predicate AtInit(pc: Pc) { (pc.ReparentWake? || pc.ReparentHeld?) && pc.k == INIT }

  ghost predicate QuietOk(s: State, i: nat, p: Slot, t: nat, o: Owner, w: Option<nat>)
    requires i < |s.procs| && t < |s.procs|
  {
    QuietLock(s, i, p, t, o, w) && QuietFam(s, i, p) && QuietSleep(s, i, p)
  }

  lemma ChildIs(s: State, i: nat, c: nat)
    requires Child(s, i, c)
    ensures HasChild(s, i)
  {
  }

  lemma QuietLockOk(s: State, i: nat, p: Slot, t: nat, o: Owner, w: Option<nat>)
    requires i < |s.procs| && t < |s.procs| && LockOk(s, i) && LockOk(s, t) && QuietLock(s, i, p, t, o, w)
    ensures LockOk(Update(s, i, p, t, o, w), i)
  {
    hide HasWait, HasOwn, Target;
  }

  lemma QuietLockOther(s: State, i: nat, p: Slot, t: nat, o: Owner, w: Option<nat>)
    requires i < |s.procs| && t < |s.procs| && LockOk(s, i) && LockOk(s, t) && QuietLock(s, i, p, t, o, w) && t != i
    ensures LockOk(Update(s, i, p, t, o, w), t)
  {
    hide HasWait, HasOwn, Target;
  }

  lemma QuietLocks(s: State, i: nat, p: Slot, t: nat, o: Owner, w: Option<nat>)
    requires Inv(s) && i < |s.procs| && t < |s.procs| && QuietOk(s, i, p, t, o, w)
    ensures Locks(Update(s, i, p, t, o, w))
  {
    hide Inv, Locks, QuietFam, QuietSleep, RestAt, HasWait, HasOwn, Target, LockOk;
    InvAt(s, i);
    InvAt(s, t);
    QuietLockOk(s, i, p, t, o, w);
    if t != i { QuietLockOther(s, i, p, t, o, w); }
    LockFrame(s, Update(s, i, p, t, o, w), i, t);
  }

  lemma QuietAt(s: State, i: nat, p: Slot, t: nat, o: Owner, w: Option<nat>)
    requires Inv(s) && i < |s.procs| && t < |s.procs| && QuietOk(s, i, p, t, o, w)
    ensures var s' := Update(s, i, p, t, o, w); StateOk(s', i) && FamilyOk(s', i)
  {
    hide Inv, Locks, QuietLock, QuietSleep, LockOk, WaitOk, HasOwn, Making;
    InvAt(s, i);
  }

  lemma QuietParts(s: State, i: nat, p: Slot, t: nat, o: Owner, w: Option<nat>)
    requires Inv(s) && i < |s.procs| && t < |s.procs| && QuietOk(s, i, p, t, o, w)
    ensures var s' := Update(s, i, p, t, o, w);
            && (Waking(s) ==> Waking(s')) && (forall c: nat :: Child(s', i, c) <==> Child(s, i, c))
            && (HasChild(s, i) <==> HasChild(s', i)) && p.parent == s.procs[i].parent
            && (forall c :: 0 <= c < |s.procs| && s'.procs[c].st.ZOMBIE? ==> s.procs[c].st.ZOMBIE?)
            && (forall c :: 0 <= c < |s.procs| && c != i ==> Waiting(s'.procs[c]) == Waiting(s.procs[c]))
  {
    hide RestAt, InExit, Cleared, SlotOk, Target, Making, Named, Seen, Told, InScan;
    InvAt(s, i);
    var s' := Update(s, i, p, t, o, w);
    assert forall c: nat :: Child(s', i, c) <==> Child(s, i, c);
  }

  lemma QuietWaitingAt(s: State, i: nat, p: Slot, t: nat, o: Owner, w: Option<nat>)
    requires Inv(s) && i < |s.procs| && t < |s.procs| && QuietOk(s, i, p, t, o, w)
    ensures WaitingOk(Update(s, i, p, t, o, w), i) && ToldOk(Update(s, i, p, t, o, w), i)
  {
    hide Inv, Locks, LockOk, QuietFam, QuietLock, Cleared, StateOk, InExit, Waiting, Waking, AtInit, Told, HasChild;
    QuietParts(s, i, p, t, o, w);
    InvAt(s, i);
  }

  lemma QuietScanAt(s: State, i: nat, p: Slot, t: nat, o: Owner, w: Option<nat>)
    requires Inv(s) && i < |s.procs| && t < |s.procs| && QuietOk(s, i, p, t, o, w)
    ensures ScanOk(Update(s, i, p, t, o, w), i)
  {
    hide Inv, Locks, LockOk, QuietFam, QuietLock, FamilyOk, StateOk, WaitingOk, ToldOk, Waiting, Waking, AtInit;
    hide Told, HasChild;
    QuietParts(s, i, p, t, o, w);
    InvAt(s, i);
    var q := s.procs[i];
    if q.pc.WaitHeld? { ChildIs(s, i, q.pc.j); }
  }

  lemma QuietKeeps(s: State, i: nat, p: Slot, t: nat, o: Owner, w: Option<nat>)
    requires Inv(s) && i < |s.procs| && t < |s.procs| && QuietOk(s, i, p, t, o, w)
    ensures Inv(Update(s, i, p, t, o, w))
  {
    hide Inv, Locks, StateOk, FamilyOk, WaitingOk, ScanOk, ToldOk;
    var s' := Update(s, i, p, t, o, w);
    InvAt(s, i);
    QuietLocks(s, i, p, t, o, w);
    QuietAt(s, i, p, t, o, w);
    QuietWaitingAt(s, i, p, t, o, w);
    QuietScanAt(s, i, p, t, o, w);
    QuietFrame(s, s', i);
    InvOf(s, s');
  }

  /** A step that changes the slot of i alone. */
  lemma OwnKeeps(s: State, i: nat, p: Slot, w: Option<nat>)
    requires Inv(s) && i < |s.procs| && QuietOk(s, i, p, i, p.plock, w)
    ensures Inv(Set(s, i, p).(waitLock := w))
  {
    hide Inv, QuietOk;
    QuietKeeps(s, i, p, i, p.plock, w);
  }

  lemma ForkHeldKeeps(s: State, i: nat)
    requires Inv(s) && i < |s.procs| && InFork(s.procs[i].pc) && ForkEnabled(s, i)
    requires var pc := s.procs[i].pc; pc.ForkHeld?
    ensures Inv(DoFork(s, i))
  {
    hide Inv, Locks, FamilyOk, WaitOk;
    var p := s.procs[i];
    InvAt(s, i);
    InvAt(s, p.pc.c);
    QuietKeeps(s, i, Returns(p, s.procs[p.pc.c].id.pid).(pc := ForkJoin(p.pc.c)), p.pc.c, Free, s.waitLock);
  }

  lemma ForkDoneKeeps(s: State, i: nat)
    requires Inv(s) && i < |s.procs| && InFork(s.procs[i].pc) && ForkEnabled(s, i)
    requires var pc := s.procs[i].pc; pc.ForkFree? || pc.ForkDone?
    ensures Inv(DoFork(s, i))
  {
    hide Inv, Locks, FamilyOk, WaitOk;
    var p := s.procs[i];
    InvAt(s, i);
    InvAt(s, p.pc.c);
    QuietKeeps(s, i, p.(pc := User), p.pc.c, Free, s.waitLock);
  }

  lemma ForkReadyKeeps(s: State, i: nat)
    requires Inv(s) && i < |s.procs| && InFork(s.procs[i].pc) && ForkEnabled(s, i)
    requires var pc := s.procs[i].pc; pc.ForkReady?
    ensures Inv(DoFork(s, i))
  {
    hide Inv, Locks, FamilyOk, WaitOk;
    var p := s.procs[i];
    InvAt(s, i);
    InvAt(s, p.pc.c);
    QuietKeeps(s, i, p.(pc := ForkSet(p.pc.c)), p.pc.c, By(i), s.waitLock);
  }

  lemma ForkWaitKeeps(s: State, i: nat)
    requires Inv(s) && i < |s.procs| && InFork(s.procs[i].pc) && ForkEnabled(s, i)
    requires var pc := s.procs[i].pc; pc.ForkJoin? || pc.ForkUnwait?
    ensures Inv(DoFork(s, i))
  {
    hide Inv, Locks, FamilyOk, WaitOk;
    var p := s.procs[i];
    InvAt(s, i);
    if p.pc.ForkJoin? {
      OwnKeeps(s, i, p.(pc := ForkName(p.pc.c)), Some(i));
    } else {
      OwnKeeps(s, i, p.(pc := ForkReady(p.pc.c)), None);
    }
  }

  lemma ReparentKeeps(s: State, i: nat)
    requires Inv(s) && i < |s.procs| && InKexit(s.procs[i].pc) && ExitEnabled(s, i)
    requires var pc := s.procs[i].pc; pc.Reparent? && (pc.j >= |s.procs| || s.procs[pc.j].parent != Some(i))
    ensures Inv(DoExit(s, i))
  {
    hide Inv, Locks, WaitOk;
    var p := s.procs[i];
    InvAt(s, i);
    if p.pc.j >= |s.procs| {
      OwnKeeps(s, i, p.(pc := ExitWake(0)), s.waitLock);
    } else {
      OwnKeeps(s, i, p.(pc := Reparent(p.pc.j + 1)), s.waitLock);
    }
  }

  lemma ReparentTakes(s: State, i: nat)
    requires Inv(s) && i < |s.procs| && InKexit(s.procs[i].pc) && ExitEnabled(s, i)
    requires var pc := s.procs[i].pc; pc.ReparentWake? && pc.k < |s.procs| && pc.k != i
    ensures Inv(DoExit(s, i))
  {
    hide Inv, Locks, WaitOk;
    var p := s.procs[i];
    InvAt(s, i);
    InvAt(s, p.pc.k);
    QuietKeeps(s, i, p.(pc := ReparentHeld(p.pc.j, p.pc.k)), p.pc.k, By(i), s.waitLock);
  }

  lemma ReparentPasses(s: State, i: nat)
    requires Inv(s) && i < |s.procs| && InKexit(s.procs[i].pc) && ExitEnabled(s, i)
    requires var pc := s.procs[i].pc; pc.ReparentWake? && (pc.k >= |s.procs| || pc.k == i)
    ensures Inv(DoExit(s, i))
  {
    hide Inv, DoExit;
    if s.procs[i].pc.k >= |s.procs| {
      ReparentWoken(s, i);
    } else {
      ReparentSkips(s, i);
    }
  }

  lemma ReparentWoken(s: State, i: nat)
    requires Inv(s) && i < |s.procs| && InKexit(s.procs[i].pc) && ExitEnabled(s, i)
    requires var pc := s.procs[i].pc; pc.ReparentWake? && pc.k >= |s.procs|
    ensures Inv(DoExit(s, i))
  {
    hide Inv, Locks, WaitOk;
    var p := s.procs[i];
    InvAt(s, i);
    InvAt(s, INIT);
    OwnKeeps(s, i, p.(pc := Reparent(p.pc.j + 1)), s.waitLock);
  }

  lemma ReparentSkips(s: State, i: nat)
    requires Inv(s) && i < |s.procs| && InKexit(s.procs[i].pc) && ExitEnabled(s, i)
    requires var pc := s.procs[i].pc; pc.ReparentWake? && pc.k == i
    ensures Inv(DoExit(s, i))
  {
    hide Inv, Locks, WaitOk;
    var p := s.procs[i];
    InvAt(s, i);
    OwnKeeps(s, i, p.(pc := ReparentWake(p.pc.j, p.pc.k + 1)), s.waitLock);
  }

  lemma ExitTakes(s: State, i: nat)
    requires Inv(s) && i < |s.procs| && InKexit(s.procs[i].pc) && ExitEnabled(s, i)
    requires var pc := s.procs[i].pc; pc.ExitWake? && pc.k < |s.procs| && pc.k != i
    ensures Inv(DoExit(s, i))
  {
    hide Inv, Locks;
    var p := s.procs[i];
    InvAt(s, i);
    InvAt(s, p.pc.k);
    QuietKeeps(s, i, p.(pc := ExitHeld(p.pc.k)), p.pc.k, By(i), s.waitLock);
  }

  lemma ExitPasses(s: State, i: nat)
    requires Inv(s) && i < |s.procs| && InKexit(s.procs[i].pc) && ExitEnabled(s, i)
    requires var pc := s.procs[i].pc; pc.ExitWake? && (pc.k >= |s.procs| || pc.k == i)
    ensures Inv(DoExit(s, i))
  {
    hide Inv, Locks;
    var p := s.procs[i];
    InvAt(s, i);
    if p.pc.k >= |s.procs| {
      OwnKeeps(s, i, p.(pc := ExitOwn), s.waitLock);
    } else {
      OwnKeeps(s, i, p.(pc := ExitWake(p.pc.k + 1)), s.waitLock);
    }
  }

  lemma ExitOwnKeeps(s: State, i: nat)
    requires Inv(s) && i < |s.procs| && InKexit(s.procs[i].pc) && ExitEnabled(s, i)
    requires var pc := s.procs[i].pc; pc.ExitOwn?
    ensures Inv(DoExit(s, i))
  {
    hide Inv, Locks;
    var p := s.procs[i];
    InvAt(s, i);
    OwnKeeps(s, i, p.(pc := ExitZombie, plock := By(i)), s.waitLock);
  }

  lemma ExitLeaves(s: State, i: nat)
    requires Inv(s) && i < |s.procs| && InKexit(s.procs[i].pc) && ExitEnabled(s, i)
    requires var pc := s.procs[i].pc; pc.ExitRelease? || pc.ExitSched?
    ensures Inv(DoExit(s, i))
  {
    hide Inv, Locks;
    var p := s.procs[i];
    InvAt(s, i);
    if p.pc.ExitRelease? {
      OwnKeeps(s, i, p.(pc := ExitSched), None);
    } else {
      OwnKeeps(s, i, p.(pc := Gone, plock := Scheduler), s.waitLock);
    }
  }

  lemma ScanTakes(s: State, i: nat)
    requires Inv(s) && i < |s.procs| && InKwait(s.procs[i].pc) && WaitEnabled(s, i)
    requires var pc := s.procs[i].pc; pc.WaitScan? && pc.j < |s.procs| && s.procs[pc.j].parent == Some(i)
    ensures Inv(DoWait(s, i))
  {
    hide Inv, Locks;
    var p := s.procs[i];
    InvAt(s, i);
    InvAt(s, p.pc.j);
    QuietKeeps(s, i, p.(pc := WaitHeld(p.pc.j, p.pc.kids)), p.pc.j, By(i), s.waitLock);
  }

  lemma ScanPasses(s: State, i: nat)
    requires Inv(s) && i < |s.procs| && InKwait(s.procs[i].pc) && WaitEnabled(s, i)
    requires var pc := s.procs[i].pc; pc.WaitScan? && pc.j < |s.procs| && s.procs[pc.j].parent != Some(i)
    ensures Inv(DoWait(s, i))
  {
    hide Inv, Locks;
    var p := s.procs[i];
    InvAt(s, i);
    OwnKeeps(s, i, p.(pc := WaitScan(p.pc.j + 1, p.pc.kids)), s.waitLock);
  }

  lemma ScanEnds(s: State, i: nat)
    requires Inv(s) && i < |s.procs| && InKwait(s.procs[i].pc) && WaitEnabled(s, i)
    requires var pc := s.procs[i].pc; pc.WaitScan? && pc.j >= |s.procs|
    ensures Inv(DoWait(s, i))
  {
    hide Inv, Locks;
    var p := s.procs[i];
    InvAt(s, i);
    OwnKeeps(s, i, p.(pc := WaitTest(p.pc.kids)), s.waitLock);
  }

  lemma HeldPasses(s: State, i: nat)
    requires Inv(s) && i < |s.procs| && InKwait(s.procs[i].pc) && WaitEnabled(s, i)
    requires var pc := s.procs[i].pc; pc.WaitHeld? && !s.procs[pc.j].st.ZOMBIE?
    ensures Inv(DoWait(s, i))
  {
    hide FamilyOk;
    hide WaitOk;
    hide Inv, Locks;
    var p := s.procs[i];
    InvAt(s, i);
    InvAt(s, p.pc.j);
    QuietKeeps(s, i, p.(pc := WaitScan(p.pc.j + 1, true)), p.pc.j, Free, s.waitLock);
  }

  lemma ReapedKeeps(s: State, i: nat)
    requires Inv(s) && i < |s.procs| && InKwait(s.procs[i].pc) && WaitEnabled(s, i)
    requires var pc := s.procs[i].pc; pc.WaitReaped?
    ensures Inv(DoWait(s, i))
  {
    hide Inv, Locks, FamilyOk, WaitOk;
    var p := s.procs[i];
    InvAt(s, i);
    InvAt(s, p.pc.j);
    QuietKeeps(s, i, p.(pc := WaitEnd), p.pc.j, Free, s.waitLock);
  }

  lemma TestKeeps(s: State, i: nat)
    requires Inv(s) && i < |s.procs| && InKwait(s.procs[i].pc) && WaitEnabled(s, i)
    requires var pc := s.procs[i].pc; pc.WaitTest?
    ensures Inv(DoWait(s, i))
  {
    hide WaitingOk;
    hide Inv, Locks, FamilyOk;
    var p := s.procs[i];
    InvAt(s, i);
    if !p.pc.kids || p.killed {
      OwnKeeps(s, i, Returns(p, -1).(pc := WaitEnd), s.waitLock);
    } else {
      OwnKeeps(s, i, p.(pc := SleepLock), s.waitLock);
    }
  }

  lemma EndKeeps(s: State, i: nat)
    requires Inv(s) && i < |s.procs| && InKwait(s.procs[i].pc) && WaitEnabled(s, i)
    requires var pc := s.procs[i].pc; pc.WaitEnd?
    ensures Inv(DoWait(s, i))
  {
    hide Inv, Locks, FamilyOk;
    var p := s.procs[i];
    InvAt(s, i);
    OwnKeeps(s, i, p.(pc := User), None);
  }

  lemma SleepKeeps(s: State, i: nat)
    requires Inv(s) && i < |s.procs| && InSleep(s.procs[i].pc) && SleepEnabled(s, i)
    requires var pc := s.procs[i].pc; pc.SleepLock? || pc.SleepRelease?
    ensures Inv(DoSleep(s, i))
  {
    hide Inv, Locks, FamilyOk, ScanOk, ToldOk;
    var p := s.procs[i];
    InvAt(s, i);
    if p.pc.SleepLock? {
      OwnKeeps(s, i, p.(pc := SleepRelease, plock := By(i)), s.waitLock);
    } else {
      OwnKeeps(s, i, p.(pc := SleepSet), None);
    }
  }

  lemma SwitchKeeps(s: State, i: nat)
    requires Inv(s) && i < |s.procs| && InSleep(s.procs[i].pc) && SleepEnabled(s, i)
    requires var pc := s.procs[i].pc; pc.SleepSet? || pc.SleepSwitch?
    ensures Inv(DoSleep(s, i))
  {
    hide Inv, Locks, FamilyOk, ScanOk, ToldOk;
    var p := s.procs[i];
    InvAt(s, i);
    if p.pc.SleepSet? {
      OwnKeeps(s, i, p.(pc := SleepSwitch, chan := Some(i), st := SLEEPING), s.waitLock);
    } else {
      OwnKeeps(s, i, p.(pc := Asleep, plock := Scheduler), s.waitLock);
    }
  }

  lemma AwakeKeeps(s: State, i: nat)
    requires Inv(s) && i < |s.procs| && InSleep(s.procs[i].pc) && SleepEnabled(s, i)
    requires var pc := s.procs[i].pc; pc.Awake? || pc.AwakeRelease? || pc.AwakeLock?
    ensures Inv(DoSleep(s, i))
  {
    hide Inv, Locks, FamilyOk, WaitOk;
    var p := s.procs[i];
    InvAt(s, i);
    match p.pc
    case Awake => OwnKeeps(s, i, p.(pc := AwakeRelease, chan := None), s.waitLock);
    case AwakeRelease => OwnKeeps(s, i, p.(pc := AwakeLock, plock := Free), s.waitLock);
    case AwakeLock => OwnKeeps(s, i, p.(pc := WaitScan(0, false)), Some(i));
  }

  /** Steps of the scheduler and of kkill, and steps of a process elsewhere. */
  lemma LookKeeps(s: State, a: Action)
    requires Inv(s) && Enabled(s, a) && (a.Look? || a.Leave?)
    ensures Inv(Do(s, a))
  {
    hide Inv, Locks;
    InvAt(s, a.i);
    OwnKeeps(s, a.i, s.procs[a.i].(plock := if a.Look? then Scheduler else Free), s.waitLock);
  }

  lemma KillKeeps(s: State, i: nat)
    requires Inv(s) && Enabled(s, Kill(i))
    ensures Inv(Do(s, Kill(i)))
  {
    hide Inv, Locks;
    var p := s.procs[i];
    InvAt(s, i);
    OwnKeeps(s, i, p.(killed := true, st := if p.st == SLEEPING then RUNNABLE else p.st), s.waitLock);
  }

  lemma DispatchKeeps(s: State, a: Action)
    requires Inv(s) && Enabled(s, a) && (a.Dispatch? || a.Elsewhere?)
    ensures Inv(Do(s, a))
  {
    hide Inv, Locks, FamilyOk, WaitOk;
    var p := s.procs[a.i];
    InvAt(s, a.i);
    match a
    case Dispatch(i) => OwnKeeps(s, i, p.(pc := Awake, st := RUNNING, plock := By(i)), s.waitLock);
    case Elsewhere(i, st) => OwnKeeps(s, i, p.(st := st), s.waitLock);
  }

  /** Entering kexit and kwait. */
  lemma BeginKeeps(s: State, a: Action)
    requires Inv(s) && Enabled(s, a) && (a.BeginExit? || a.BeginWait?)
    ensures Inv(Do(s, a))
  {
    hide Inv, Locks, FamilyOk, WaitOk;
    var p := s.procs[a.i];
    InvAt(s, a.i);
    match a
    case BeginExit(i, status) => OwnKeeps(s, i, p.(pc := Reparent(0), id := p.id.(arg := status)), Some(i));
    case BeginWait(i) => OwnKeeps(s, i, p.(pc := WaitScan(0, false)), Some(i));
  }

  lemma FailCopyKeeps(s: State, i: nat)
    requires Inv(s) && Enabled(s, FailCopy(i))
    ensures Inv(Do(s, FailCopy(i)))
  {
    hide Inv, Locks, FamilyOk, WaitOk;
    var p := s.procs[i];
    InvAt(s, i);
    InvAt(s, p.pc.j);
    QuietKeeps(s, i, Returns(p, -1).(pc := WaitEnd), p.pc.j, Free, s.waitLock);
  }

  // ----- steps that change two slots -----

  /** How slot x, one of i and t, may change for the sake of slot k. */
  ghost predicate PairAt(s: State, s': State, i: nat, t: nat, x: nat, k: nat)
    requires x < |s.procs| && k < |s.procs| && |s'.procs| == |s.procs|
  {
    var p, q := s.procs[x], s'.procs[x];
    && (Making(p.pc) == Some(k) ==> Making(q.pc) == Some(k) && Named(q.pc) == Named(p.pc))
    && (p.maker == Some(k) ==> q.maker == Some(k))
    && (s'.procs[k].parent == Some(x) ==> Alive(q.st))
    && (p.parent == Some(k) ==> q.parent == Some(k))
    && (q.parent == Some(k) ==> p.parent == Some(k) || !InExit(s.procs[k].pc))
    && (Waiting(q) ==> Waiting(p))
    && (q.st.ZOMBIE? && q.parent == Some(k) ==>
          || (p.st.ZOMBIE? && p.parent == Some(k)) || !Waiting(s.procs[k]) || (k == INIT && Waking(s')))
    && (q.parent == Some(k) && InScan(s.procs[k].pc) ==> p.parent == Some(k) && (q.st.ZOMBIE? ==> p.st.ZOMBIE?))
  }

  ghost predicate PairFor(s: State, s': State, i: nat, t: nat, k: nat)
    requires |s'.procs| == |s.procs| && i < |s.procs| && t < |s.procs| && k < |s.procs|
  {
    PairAt(s, s', i, t, i, k) && PairAt(s, s', i, t, t, k) && (k == INIT && Waking(s) ==> Waking(s'))
  }

  /** Only slots i and t change. */
  ghost predicate Swaps(s: State, s': State, i: nat, t: nat) {
    i < |s.procs| && t < |s.procs| && |s'.procs| == |s.procs| && s'.procs == s.procs[t := s'.procs[t]][i := s'.procs[i]]
  }

  lemma PairFrame(s: State, s': State, i: nat, t: nat, k: nat)
    requires Inv(s) && |s'.procs| == |s.procs| && i < |s.procs| && t < |s.procs| && k < |s.procs| && k != i && k != t
    requires Swaps(s, s', i, t) && PairFor(s, s', i, t, k)
    ensures RestAt(s', k)
  {
    hide Inv, Locks, LockOk, Making, Named, Alive, InScan, Seen, Told, Cleared;
    InvAt(s, k);
    PairWait(s, s', i, t, k);
    PairFamily(s, s', i, t, k);
  }

  lemma PairFamily(s: State, s': State, i: nat, t: nat, k: nat)
    requires |s'.procs| == |s.procs| && i < |s.procs| && t < |s.procs| && k < |s.procs| && k != i && k != t
    requires s'.procs == s.procs[t := s'.procs[t]][i := s'.procs[i]] && FamilyOk(s, k) && StateOk(s, k)
    requires PairAt(s, s', i, t, i, k) && PairAt(s, s', i, t, t, k)
    ensures FamilyOk(s', k) && StateOk(s', k)
  {
    hide Making, Waiting, Seen, Told, InScan;
  }

  lemma PairWait(s: State, s': State, i: nat, t: nat, k: nat)
    requires |s'.procs| == |s.procs| && i < |s.procs| && t < |s.procs| && k < |s.procs| && k != i && k != t
    requires s'.procs == s.procs[t := s'.procs[t]][i := s'.procs[i]] && WaitOk(s, k)
    requires PairAt(s, s', i, t, i, k) && PairAt(s, s', i, t, t, k)
    requires k == INIT && Waking(s) ==> Waking(s')
    ensures WaitOk(s', k)
  {
    hide Making, Named, Told, Waking, InExit, Alive;
    assert forall c: nat :: Child(s, k, c) ==> Child(s', k, c);
    if HasChild(s, k) {
      var c :| Child(s, k, c);
      ChildIs(s', k, c);
    }
  }

  /** A slot that keeps its place in the family. */
  lemma PairQuiet(s: State, s': State, i: nat, t: nat, x: nat, k: nat)
    requires |s'.procs| == |s.procs| && x < |s.procs| && k < |s.procs| && FamilyOk(s, k) && s'.procs[k] == s.procs[k]
    requires SameFamily(s.procs[x], s'.procs[x]) && (Waiting(s'.procs[x]) ==> Waiting(s.procs[x]))
    ensures PairAt(s, s', i, t, x, k)
  {
  }

  /** A slot that wakeup leaves as it was, or makes runnable. */
  lemma WokenFamily(s: State, s': State, i: nat, t: nat, chan: Option<nat>)
    requires Swaps(s, s', i, t) && i != t && SameFamily(s.procs[i], s'.procs[i])
    requires s'.procs[t] == Woken(s.procs[t], chan)
    requires LockOk(s, t) && s.procs[t].plock == By(i) && StateOk(s, t) && FamilyOk(s, t)
    ensures StateOk(s', t) && FamilyOk(s', t)
  {
    hide InKexit, HasWait, Target, Making;
  }

  lemma WokenWait(s: State, s': State, i: nat, t: nat, chan: Option<nat>)
    requires Swaps(s, s', i, t) && i != t && SameFamily(s.procs[i], s'.procs[i])
    requires s'.procs[t] == Woken(s.procs[t], chan)
    requires s.waitLock == Some(i) && LockOk(s, t) && WaitOk(s, t)
    requires t == INIT && Waking(s) && Waiting(s'.procs[t]) ==> Waking(s')
    ensures WaitOk(s', t)
  {
    assert forall c: nat :: Child(s', t, c) <==> Child(s, t, c);
    if HasChild(s, t) {
      var c :| Child(s, t, c);
      ChildIs(s', t, c);
    }
  }

  lemma ForkSetHolds(c: nat)
    ensures forall pc :: pc == Dead || pc == User ==> !HasWait(pc) && !HasOwn(pc) && Target(pc).None?
    ensures forall pc :: pc == ForkSet(c) || pc == ForkDone(c) ==> !HasWait(pc) && !HasOwn(pc) && Target(pc) == Some(c)
  {
  }

  lemma PairKeeps(s: State, s': State, i: nat, t: nat)
    requires Inv(s) && Swaps(s, s', i, t) && Locks(s') && RestAt(s', i) && RestAt(s', t)
    requires forall k :: 0 <= k < |s.procs| && k != i && k != t ==> PairFor(s, s', i, t, k)
    ensures Inv(s')
  {
    hide Inv, Locks, RestAt, PairFor;
    forall k | 0 <= k < |s'.procs| ensures RestAt(s', k) {
      if k != i && k != t { PairFrame(s, s', i, t, k); }
    }
    InvOf(s, s');
  }

  // kfork sets the parent of the new slot.

  ghost predicate Names(s: State, i: nat) {
    && Inv(s) && i < |s.procs|
    && InFork(s.procs[i].pc) && ForkEnabled(s, i) && s.procs[i].pc.ForkName?
  }

  lemma NameLocks(s: State, i: nat)
    requires Names(s, i)
    ensures Swaps(s, DoFork(s, i), i, s.procs[i].pc.c) && Locks(DoFork(s, i))
  {
    hide Inv, Locks, FamilyOk, WaitOk;
    InvAt(s, i);
    InvAt(s, s.procs[i].pc.c);
    LockFrame(s, DoFork(s, i), i, s.procs[i].pc.c);
  }

  lemma NameOwn(s: State, i: nat)
    requires Names(s, i)
    ensures var s', t := DoFork(s, i), s.procs[i].pc.c;
            |s'.procs| == |s.procs| && RestAt(s', i)
  {
    hide Inv, Locks, HasWait;
    var s', t := DoFork(s, i), s.procs[i].pc.c;
    InvAt(s, i);
    InvAt(s, t);
  }

  lemma NameTheir(s: State, i: nat)
    requires Names(s, i)
    ensures var s', t := DoFork(s, i), s.procs[i].pc.c;
            |s'.procs| == |s.procs| && RestAt(s', t)
  {
    hide Inv, Locks, HasWait;
    var s', t := DoFork(s, i), s.procs[i].pc.c;
    InvAt(s, i);
    InvAt(s, t);
  }

  lemma NamePair(s: State, i: nat, k: nat)
    requires Names(s, i) && k < |s.procs| && k != i && k != s.procs[i].pc.c
    ensures |DoFork(s, i).procs| == |s.procs| && PairFor(s, DoFork(s, i), i, s.procs[i].pc.c, k)
  {
    hide ToldOk, WaitingOk, WaitOk;
    hide Inv, Locks;
    InvAt(s, i);
    InvAt(s, s.procs[i].pc.c);
    InvAt(s, k);
  }

  lemma NameKeeps(s: State, i: nat)
    requires Names(s, i)
    ensures Inv(DoFork(s, i))
  {
    hide Inv, Locks, RestAt, PairFor, DoFork, DoExit, DoWait;
    var s', t := DoFork(s, i), s.procs[i].pc.c;
    NameLocks(s, i);
    NameOwn(s, i);
    NameTheir(s, i);
    forall k | 0 <= k < |s.procs| && k != i && k != t ensures PairFor(s, s', i, t, k) { NamePair(s, i, k); }
    PairKeeps(s, s', i, t);
  }

  // kfork makes the new slot runnable.

  ghost predicate Readies(s: State, i: nat) {
    && Inv(s) && i < |s.procs|
    && InFork(s.procs[i].pc) && ForkEnabled(s, i) && s.procs[i].pc.ForkSet?
  }

  lemma ReadyLocks(s: State, i: nat)
    requires Readies(s, i)
    ensures Swaps(s, DoFork(s, i), i, s.procs[i].pc.c) && Locks(DoFork(s, i))
  {
    hide Inv, Locks, FamilyOk, WaitOk, HasWait, HasOwn, Target;
    InvAt(s, i);
    InvAt(s, s.procs[i].pc.c);
    ForkSetHolds(s.procs[i].pc.c);
    LockFrame(s, DoFork(s, i), i, s.procs[i].pc.c);
  }

  lemma ReadyOwn(s: State, i: nat)
    requires Readies(s, i)
    ensures var s', t := DoFork(s, i), s.procs[i].pc.c;
            |s'.procs| == |s.procs| && RestAt(s', i)
  {
    hide Inv, Locks, HasWait;
    var s', t := DoFork(s, i), s.procs[i].pc.c;
    InvAt(s, i);
    InvAt(s, t);
  }

  lemma ReadyTheir(s: State, i: nat)
    requires Readies(s, i)
    ensures var s', t := DoFork(s, i), s.procs[i].pc.c;
            |s'.procs| == |s.procs| && RestAt(s', t)
  {
    hide Inv, Locks, HasWait;
    var s', t := DoFork(s, i), s.procs[i].pc.c;
    InvAt(s, i);
    InvAt(s, t);
  }

  lemma ReadyPair(s: State, i: nat, k: nat)
    requires Readies(s, i) && k < |s.procs| && k != i && k != s.procs[i].pc.c
    ensures |DoFork(s, i).procs| == |s.procs| && PairFor(s, DoFork(s, i), i, s.procs[i].pc.c, k)
  {
    hide ToldOk, WaitingOk, LockOk, WaitOk, ForkEnabled;
    hide Inv, Locks;
    InvAt(s, i);
    InvAt(s, s.procs[i].pc.c);
    InvAt(s, k);
  }

  lemma ReadyKeeps(s: State, i: nat)
    requires Readies(s, i)
    ensures Inv(DoFork(s, i))
  {
    hide Inv, Locks, RestAt, PairFor, DoFork, DoExit, DoWait;
    var s', t := DoFork(s, i), s.procs[i].pc.c;
    ReadyLocks(s, i);
    ReadyOwn(s, i);
    ReadyTheir(s, i);
    forall k | 0 <= k < |s.procs| && k != i && k != t ensures PairFor(s, s', i, t, k) { ReadyPair(s, i, k); }
    PairKeeps(s, s', i, t);
  }

  // allocproc takes a slot.

  ghost predicate Allocates(s: State, i: nat, c: nat) {
    && Inv(s) && Enabled(s, BeginFork(i, c))
  }

  lemma AllocLocks(s: State, i: nat, c: nat)
    requires Allocates(s, i, c)
    ensures Swaps(s, Do(s, BeginFork(i, c)), i, c) && Locks(Do(s, BeginFork(i, c)))
  {
    hide Inv, Locks, FamilyOk, WaitOk;
    InvAt(s, i);
    InvAt(s, c);
    LockFrame(s, Do(s, BeginFork(i, c)), i, c);
  }

  lemma AllocSlots(s: State, i: nat, c: nat)
    requires Allocates(s, i, c)
    ensures var s', t := Do(s, BeginFork(i, c)), c;
            |s'.procs| == |s.procs| && RestAt(s', i) && RestAt(s', t)
  {
    hide Inv, Locks, HasWait;
    var s', t := Do(s, BeginFork(i, c)), c;
    InvAt(s, i);
    InvAt(s, t);
  }

  lemma AllocPair(s: State, i: nat, c: nat, k: nat)
    requires Allocates(s, i, c) && k < |s.procs| && k != i && k != c
    ensures |Do(s, BeginFork(i, c)).procs| == |s.procs| && PairFor(s, Do(s, BeginFork(i, c)), i, c, k)
  {
    hide ToldOk, LockOk, WaitOk;
    hide Inv, Locks;
    InvAt(s, i);
    InvAt(s, c);
    InvAt(s, k);
  }

  lemma AllocKeeps(s: State, i: nat, c: nat)
    requires Allocates(s, i, c)
    ensures Inv(Do(s, BeginFork(i, c)))
  {
    hide Inv, Locks, RestAt, PairFor, DoFork, DoExit, DoWait;
    var s', t := Do(s, BeginFork(i, c)), c;
    AllocLocks(s, i, c);
    AllocSlots(s, i, c);
    forall k | 0 <= k < |s.procs| && k != i && k != t ensures PairFor(s, s', i, t, k) { AllocPair(s, i, c, k); }
    PairKeeps(s, s', i, t);
  }

  // freeproc after a failed allocation or uvmcopy.

  ghost predicate Fails(s: State, i: nat) {
    && Inv(s) && Enabled(s, FailFork(i))
  }

  lemma FailLocks(s: State, i: nat)
    requires Fails(s, i)
    ensures Swaps(s, Do(s, FailFork(i)), i, s.procs[i].pc.c) && Locks(Do(s, FailFork(i)))
  {
    hide Inv, Locks, FamilyOk, WaitOk;
    InvAt(s, i);
    InvAt(s, s.procs[i].pc.c);
    LockFrame(s, Do(s, FailFork(i)), i, s.procs[i].pc.c);
  }

  lemma FailSlots(s: State, i: nat)
    requires Fails(s, i)
    ensures var s', t := Do(s, FailFork(i)), s.procs[i].pc.c;
            |s'.procs| == |s.procs| && RestAt(s', i) && RestAt(s', t)
  {
    hide Inv, Locks, HasWait;
    var s', t := Do(s, FailFork(i)), s.procs[i].pc.c;
    InvAt(s, i);
    InvAt(s, t);
  }

  lemma FailPairI(s: State, i: nat, k: nat)
    requires Fails(s, i) && k < |s.procs| && k != i && k != s.procs[i].pc.c
    ensures |Do(s, FailFork(i)).procs| == |s.procs| && PairAt(s, Do(s, FailFork(i)), i, s.procs[i].pc.c, i, k)
  {
    hide Inv, Locks, HasOwn, Target, Seen, Told;
    InvAt(s, i);
    InvAt(s, s.procs[i].pc.c);
    InvAt(s, k);
  }

  lemma FailPairT(s: State, i: nat, k: nat)
    requires Fails(s, i) && k < |s.procs| && k != i && k != s.procs[i].pc.c
    ensures |Do(s, FailFork(i)).procs| == |s.procs|
    ensures PairAt(s, Do(s, FailFork(i)), i, s.procs[i].pc.c, s.procs[i].pc.c, k)
  {
    hide Inv, Locks, HasOwn, Target, Seen, Told;
    InvAt(s, i);
    InvAt(s, s.procs[i].pc.c);
    InvAt(s, k);
  }

  lemma FailPair(s: State, i: nat, k: nat)
    requires Fails(s, i) && k < |s.procs| && k != i && k != s.procs[i].pc.c
    ensures |Do(s, FailFork(i)).procs| == |s.procs| && PairFor(s, Do(s, FailFork(i)), i, s.procs[i].pc.c, k)
  {
    hide Inv, Locks, PairAt, FamilyOk, WaitOk;
    InvAt(s, i);
    InvAt(s, s.procs[i].pc.c);
    InvAt(s, k);
    FailPairI(s, i, k);
    FailPairT(s, i, k);
  }

  lemma FailKeeps(s: State, i: nat)
    requires Fails(s, i)
    ensures Inv(Do(s, FailFork(i)))
  {
    hide Inv, Locks, RestAt, PairFor, DoFork, DoExit, DoWait;
    var s', t := Do(s, FailFork(i)), s.procs[i].pc.c;
    FailLocks(s, i);
    FailSlots(s, i);
    forall k | 0 <= k < |s.procs| && k != i && k != t ensures PairFor(s, s', i, t, k) { FailPair(s, i, k); }
    PairKeeps(s, s', i, t);
  }

  // reparent gives a child to init.

  ghost predicate Adopts(s: State, i: nat) {
    && Inv(s) && i < |s.procs|
    && InKexit(s.procs[i].pc) && ExitEnabled(s, i) && s.procs[i].pc.Reparent? && s.procs[i].pc.j < |s.procs|
    && s.procs[s.procs[i].pc.j].parent == Some(i)
  }

  lemma AdoptLocks(s: State, i: nat)
    requires Adopts(s, i)
    ensures Swaps(s, DoExit(s, i), i, s.procs[i].pc.j) && Locks(DoExit(s, i))
  {
    hide Inv, Locks, FamilyOk, WaitOk;
    InvAt(s, i);
    InvAt(s, s.procs[i].pc.j);
    LockFrame(s, DoExit(s, i), i, s.procs[i].pc.j);
  }

  lemma AdoptOwn(s: State, i: nat)
    requires Adopts(s, i)
    ensures var s', t := DoExit(s, i), s.procs[i].pc.j;
            |s'.procs| == |s.procs| && RestAt(s', i)
  {
    hide Inv, Locks;
    var s', t := DoExit(s, i), s.procs[i].pc.j;
    InvAt(s, i);
    InvAt(s, t);
  }

  lemma AdoptTheir(s: State, i: nat)
    requires Adopts(s, i)
    ensures var s', t := DoExit(s, i), s.procs[i].pc.j;
            |s'.procs| == |s.procs| && RestAt(s', t)
  {
    hide Inv, Locks;
    var s', t := DoExit(s, i), s.procs[i].pc.j;
    InvAt(s, i);
    InvAt(s, t);
    InvAt(s, INIT);
    if HasChild(s, t) {
      var c :| Child(s, t, c);
      ChildIs(s', t, c);
    }
  }

  lemma AdoptPairI(s: State, i: nat, k: nat)
    requires Adopts(s, i) && k < |s.procs| && k != i && k != s.procs[i].pc.j
    ensures |DoExit(s, i).procs| == |s.procs| && PairAt(s, DoExit(s, i), i, s.procs[i].pc.j, i, k)
  {
    hide Inv, Locks, HasOwn, Target, Seen, Told;
    InvAt(s, i);
    InvAt(s, s.procs[i].pc.j);
    InvAt(s, k);
  }

  lemma AdoptPairT(s: State, i: nat, k: nat)
    requires Adopts(s, i) && k < |s.procs| && k != i && k != s.procs[i].pc.j
    ensures |DoExit(s, i).procs| == |s.procs| && PairAt(s, DoExit(s, i), i, s.procs[i].pc.j, s.procs[i].pc.j, k)
  {
    hide WaitingOk, WaitOk, StateOk;
    hide Inv, Locks, HasOwn, Target, Seen, Told;
    InvAt(s, i);
    InvAt(s, s.procs[i].pc.j);
    InvAt(s, k);
  }

  lemma AdoptPair(s: State, i: nat, k: nat)
    requires Adopts(s, i) && k < |s.procs| && k != i && k != s.procs[i].pc.j
    ensures |DoExit(s, i).procs| == |s.procs| && PairFor(s, DoExit(s, i), i, s.procs[i].pc.j, k)
  {
    hide Inv, Locks, HasOwn, Target, Seen, Told, PairAt, FamilyOk, WaitOk;
    InvAt(s, i);
    InvAt(s, s.procs[i].pc.j);
    InvAt(s, k);
    AdoptPairI(s, i, k);
    AdoptPairT(s, i, k);
  }

  lemma AdoptKeeps(s: State, i: nat)
    requires Adopts(s, i)
    ensures Inv(DoExit(s, i))
  {
    hide Inv, Locks, RestAt, PairFor, DoFork, DoExit, DoWait;
    var s', t := DoExit(s, i), s.procs[i].pc.j;
    AdoptLocks(s, i);
    AdoptOwn(s, i);
    AdoptTheir(s, i);
    forall k | 0 <= k < |s.procs| && k != i && k != t ensures PairFor(s, s', i, t, k) { AdoptPair(s, i, k); }
    PairKeeps(s, s', i, t);
  }

  // wakeup(initproc) at one slot.

  ghost predicate WakesInit(s: State, i: nat) {
    && Inv(s) && i < |s.procs|
    && InKexit(s.procs[i].pc) && ExitEnabled(s, i) && s.procs[i].pc.ReparentHeld?
  }

  lemma InitWakeLocks(s: State, i: nat)
    requires WakesInit(s, i)
    ensures Swaps(s, DoExit(s, i), i, s.procs[i].pc.k) && Locks(DoExit(s, i))
  {
    hide Inv, Locks, FamilyOk, WaitOk;
    InvAt(s, i);
    InvAt(s, s.procs[i].pc.k);
    LockFrame(s, DoExit(s, i), i, s.procs[i].pc.k);
  }

  lemma InitWakeOwn(s: State, i: nat)
    requires WakesInit(s, i)
    ensures var s', t := DoExit(s, i), s.procs[i].pc.k;
            |s'.procs| == |s.procs| && RestAt(s', i)
  {
    hide Inv, Locks;
    var s', t := DoExit(s, i), s.procs[i].pc.k;
    InvAt(s, i);
    InvAt(s, t);
  }

  lemma InitWakeTheir(s: State, i: nat)
    requires WakesInit(s, i)
    ensures var s', t := DoExit(s, i), s.procs[i].pc.k;
            |s'.procs| == |s.procs| && RestAt(s', t)
  {
    hide Inv, Locks, FamilyOk, WaitOk;
    var s', t := DoExit(s, i), s.procs[i].pc.k;
    InvAt(s, i);
    InvAt(s, t);
    WokenFamily(s, s', i, t, Some(INIT));
    WokenWait(s, s', i, t, Some(INIT));
  }

  lemma InitWakePair(s: State, i: nat, k: nat)
    requires WakesInit(s, i) && k < |s.procs| && k != i && k != s.procs[i].pc.k
    ensures |DoExit(s, i).procs| == |s.procs| && PairFor(s, DoExit(s, i), i, s.procs[i].pc.k, k)
  {
    hide Inv, Locks, HasOwn, Target, Seen, Told, Cleared, PairAt, FamilyOk, WaitOk;
    InvAt(s, i);
    InvAt(s, s.procs[i].pc.k);
    InvAt(s, k);
    PairQuiet(s, DoExit(s, i), i, s.procs[i].pc.k, i, k);
    PairQuiet(s, DoExit(s, i), i, s.procs[i].pc.k, s.procs[i].pc.k, k);
  }

  lemma InitWakeKeeps(s: State, i: nat)
    requires WakesInit(s, i)
    ensures Inv(DoExit(s, i))
  {
    hide Inv, Locks, RestAt, PairFor, DoFork, DoExit, DoWait;
    var s', t := DoExit(s, i), s.procs[i].pc.k;
    InitWakeLocks(s, i);
    InitWakeOwn(s, i);
    InitWakeTheir(s, i);
    forall k | 0 <= k < |s.procs| && k != i && k != t ensures PairFor(s, s', i, t, k) { InitWakePair(s, i, k); }
    PairKeeps(s, s', i, t);
  }

  // wakeup(p->parent) at one slot.

  ghost predicate WakesParent(s: State, i: nat) {
    && Inv(s) && i < |s.procs|
    && InKexit(s.procs[i].pc) && ExitEnabled(s, i) && s.procs[i].pc.ExitHeld?
  }

  lemma ParentWakeLocks(s: State, i: nat)
    requires WakesParent(s, i)
    ensures Swaps(s, DoExit(s, i), i, s.procs[i].pc.k) && Locks(DoExit(s, i))
  {
    hide Inv, Locks, FamilyOk, WaitOk;
    InvAt(s, i);
    InvAt(s, s.procs[i].pc.k);
    LockFrame(s, DoExit(s, i), i, s.procs[i].pc.k);
  }

  lemma ParentWakeOwn(s: State, i: nat)
    requires WakesParent(s, i)
    ensures var s', t := DoExit(s, i), s.procs[i].pc.k;
            |s'.procs| == |s.procs| && RestAt(s', i)
  {
    hide Inv, Locks;
    var s', t := DoExit(s, i), s.procs[i].pc.k;
    InvAt(s, i);
    InvAt(s, t);
  }

  lemma ParentWakeTheir(s: State, i: nat)
    requires WakesParent(s, i)
    ensures var s', t := DoExit(s, i), s.procs[i].pc.k;
            |s'.procs| == |s.procs| && RestAt(s', t)
  {
    hide Inv, Locks, FamilyOk, WaitOk;
    var s', t := DoExit(s, i), s.procs[i].pc.k;
    InvAt(s, i);
    InvAt(s, t);
    WokenFamily(s, s', i, t, s.procs[i].parent);
    WokenWait(s, s', i, t, s.procs[i].parent);
  }

  lemma ParentWakePair(s: State, i: nat, k: nat)
    requires WakesParent(s, i) && k < |s.procs| && k != i && k != s.procs[i].pc.k
    ensures |DoExit(s, i).procs| == |s.procs| && PairFor(s, DoExit(s, i), i, s.procs[i].pc.k, k)
  {
    hide Inv, Locks, HasOwn, Target, Seen, Told, Cleared, PairAt, FamilyOk, WaitOk;
    InvAt(s, i);
    InvAt(s, s.procs[i].pc.k);
    InvAt(s, k);
    PairQuiet(s, DoExit(s, i), i, s.procs[i].pc.k, i, k);
    PairQuiet(s, DoExit(s, i), i, s.procs[i].pc.k, s.procs[i].pc.k, k);
  }

  lemma ParentWakeKeeps(s: State, i: nat)
    requires WakesParent(s, i)
    ensures Inv(DoExit(s, i))
  {
    hide Inv, Locks, RestAt, PairFor, DoFork, DoExit, DoWait;
    var s', t := DoExit(s, i), s.procs[i].pc.k;
    ParentWakeLocks(s, i);
    ParentWakeOwn(s, i);
    ParentWakeTheir(s, i);
    forall k | 0 <= k < |s.procs| && k != i && k != t ensures PairFor(s, s', i, t, k) { ParentWakePair(s, i, k); }
    PairKeeps(s, s', i, t);
  }

  // kexit turns the process into a zombie.

  ghost predicate Dies(s: State, i: nat) {
    && Inv(s) && i < |s.procs|
    && InKexit(s.procs[i].pc) && ExitEnabled(s, i) && s.procs[i].pc.ExitZombie?
  }

  lemma ZombieLocks(s: State, i: nat)
    requires Dies(s, i)
    ensures Swaps(s, DoExit(s, i), i, i) && Locks(DoExit(s, i))
  {
    hide Inv, Locks, FamilyOk, WaitOk;
    InvAt(s, i);
    InvAt(s, i);
    LockFrame(s, DoExit(s, i), i, i);
  }

  lemma ZombieSlots(s: State, i: nat)
    requires Dies(s, i)
    ensures var s', t := DoExit(s, i), i;
            |s'.procs| == |s.procs| && RestAt(s', i)
  {
    hide Inv, Locks, HasWait;
    var s', t := DoExit(s, i), i;
    InvAt(s, i);
    InvAt(s, t);
  }

  lemma ZombiePair(s: State, i: nat, k: nat)
    requires Dies(s, i) && k < |s.procs| && k != i && k != i
    ensures |DoExit(s, i).procs| == |s.procs| && PairFor(s, DoExit(s, i), i, i, k)
  {
    hide Inv, Locks;
    InvAt(s, i);
    InvAt(s, i);
    InvAt(s, k);
  }

  lemma ZombieKeeps(s: State, i: nat)
    requires Dies(s, i)
    ensures Inv(DoExit(s, i))
  {
    hide Inv, Locks, RestAt, PairFor, DoFork, DoExit, DoWait;
    var s', t := DoExit(s, i), i;
    ZombieLocks(s, i);
    ZombieSlots(s, i);
    forall k | 0 <= k < |s.procs| && k != i && k != t ensures PairFor(s, s', i, t, k) { ZombiePair(s, i, k); }
    PairKeeps(s, s', i, t);
  }

  // kwait frees the slot of a zombie child.

  ghost predicate Reaps(s: State, i: nat) {
    && Inv(s) && i < |s.procs|
    && InKwait(s.procs[i].pc) && WaitEnabled(s, i) && s.procs[i].pc.WaitHeld? && s.procs[s.procs[i].pc.j].st.ZOMBIE?
  }

  lemma ReapLocks(s: State, i: nat)
    requires Reaps(s, i)
    ensures Swaps(s, DoWait(s, i), i, s.procs[i].pc.j) && Locks(DoWait(s, i))
  {
    hide Inv, Locks, FamilyOk, WaitOk;
    InvAt(s, i);
    InvAt(s, s.procs[i].pc.j);
    LockFrame(s, DoWait(s, i), i, s.procs[i].pc.j);
  }

  lemma ReapSlots(s: State, i: nat)
    requires Reaps(s, i)
    ensures var s', t := DoWait(s, i), s.procs[i].pc.j;
            |s'.procs| == |s.procs| && RestAt(s', i) && RestAt(s', t)
  {
    hide Inv, Locks, HasWait;
    var s', t := DoWait(s, i), s.procs[i].pc.j;
    InvAt(s, i);
    InvAt(s, t);
  }

  lemma ReapPair(s: State, i: nat, k: nat)
    requires Reaps(s, i) && k < |s.procs| && k != i && k != s.procs[i].pc.j
    ensures |DoWait(s, i).procs| == |s.procs| && PairFor(s, DoWait(s, i), i, s.procs[i].pc.j, k)
  {
    hide Inv, Locks;
    InvAt(s, i);
    InvAt(s, s.procs[i].pc.j);
    InvAt(s, k);
  }

  lemma ReapKeeps(s: State, i: nat)
    requires Reaps(s, i)
    ensures Inv(DoWait(s, i))
  {
    hide Inv, Locks, RestAt, PairFor, DoFork, DoExit, DoWait;
    var s', t := DoWait(s, i), s.procs[i].pc.j;
    ReapLocks(s, i);
    ReapSlots(s, i);
    forall k | 0 <= k < |s.procs| && k != i && k != t ensures PairFor(s, s', i, t, k) { ReapPair(s, i, k); }
    PairKeeps(s, s', i, t);
  }

  // ----- every step -----

  lemma ForkKeeps(s: State, i: nat)
    requires Inv(s) && i < |s.procs| && InFork(s.procs[i].pc) && ForkEnabled(s, i)
    ensures Inv(DoFork(s, i))
  {
    hide Inv, DoFork, ForkEnabled;
    match s.procs[i].pc
    case ForkHeld(_) => ForkHeldKeeps(s, i);
    case ForkName(_) => NameKeeps(s, i);
    case ForkSet(_) => ReadyKeeps(s, i);
    case ForkReady(_) => ForkReadyKeeps(s, i);
    case ForkJoin(_) => ForkWaitKeeps(s, i);
    case ForkUnwait(_) => ForkWaitKeeps(s, i);
    case _ => ForkDoneKeeps(s, i);
  }

  lemma ExitKeeps(s: State, i: nat)
    requires Inv(s) && i < |s.procs| && InKexit(s.procs[i].pc) && ExitEnabled(s, i)
    ensures Inv(DoExit(s, i))
  {
    hide Inv, DoExit, ExitEnabled;
    match s.procs[i].pc
    case Reparent(j) =>
      if j < |s.procs| && s.procs[j].parent == Some(i) { AdoptKeeps(s, i); } else { ReparentKeeps(s, i); }
    case ReparentWake(_, k) =>
      if k < |s.procs| && k != i { ReparentTakes(s, i); } else { ReparentPasses(s, i); }
    case ReparentHeld(_, _) => InitWakeKeeps(s, i);
    case ExitWake(k) =>
      if k < |s.procs| && k != i { ExitTakes(s, i); } else { ExitPasses(s, i); }
    case ExitHeld(_) => ParentWakeKeeps(s, i);
    case ExitOwn => ExitOwnKeeps(s, i);
    case ExitZombie => ZombieKeeps(s, i);
    case _ => ExitLeaves(s, i);
  }

  lemma KwaitKeeps(s: State, i: nat)
    requires Inv(s) && i < |s.procs| && InKwait(s.procs[i].pc) && WaitEnabled(s, i)
    ensures Inv(DoWait(s, i))
  {
    hide Inv, DoWait;
    match s.procs[i].pc
    case WaitScan(j, _) =>
      if j >= |s.procs| { ScanEnds(s, i); }
      else if s.procs[j].parent == Some(i) { ScanTakes(s, i); } else { ScanPasses(s, i); }
    case WaitHeld(j, _) => if s.procs[j].st.ZOMBIE? { ReapKeeps(s, i); } else { HeldPasses(s, i); }
    case WaitReaped(_) => ReapedKeeps(s, i);
    case WaitTest(_) => TestKeeps(s, i);
    case _ => EndKeeps(s, i);
  }

  lemma InSleepKeeps(s: State, i: nat)
    requires Inv(s) && i < |s.procs| && InSleep(s.procs[i].pc) && SleepEnabled(s, i)
    ensures Inv(DoSleep(s, i))
  {
    hide Inv, DoSleep, SleepEnabled;
    var pc := s.procs[i].pc;
    if pc.SleepLock? || pc.SleepRelease? { SleepKeeps(s, i); }
    else if pc.SleepSet? || pc.SleepSwitch? { SwitchKeeps(s, i); }
    else { AwakeKeeps(s, i); }
  }

  lemma StepKeeps(s: State, a: Action)
    requires Inv(s) && Enabled(s, a)
    ensures Inv(Do(s, a))
  {
    hide Inv, DoFork, DoExit, DoWait, DoSleep, ForkEnabled, ExitEnabled, WaitEnabled, SleepEnabled,
         InFork, InKexit, InKwait, InSleep;
    match a
    case Step(i) =>
      var pc := s.procs[i].pc;
      Disjoint(pc);
      if InFork(pc) { ForkKeeps(s, i); } else if InKexit(pc) { ExitKeeps(s, i); }
      else if InKwait(pc) { KwaitKeeps(s, i); } else { InSleepKeeps(s, i); }
    case BeginFork(i, c) => AllocKeeps(s, i, c);
    case FailFork(i) => FailKeeps(s, i);
    case BeginExit(_, _) => BeginKeeps(s, a);
    case BeginWait(_) => BeginKeeps(s, a);
    case FailCopy(i) => FailCopyKeeps(s, i);
    case Kill(i) => KillKeeps(s, i);
    case Look(_) => LookKeeps(s, a);
    case Leave(_) => LookKeeps(s, a);
    case Dispatch(_) => DispatchKeeps(s, a);
    case Elsewhere(_, _) => DispatchKeeps(s, a);
  }

  lemma Disjoint(pc: Pc)
    ensures InFork(pc) ==> !InKexit(pc) && !InKwait(pc) && !InSleep(pc)
    ensures InKexit(pc) ==> !InKwait(pc) && !InSleep(pc)
    ensures InKwait(pc) ==> !InSleep(pc)
  {
  }

  // ----- whole runs -----

  /** After userinit: init is there, every other slot is unused. */
  ghost predicate Initial(s: State) {
    && |s.procs| > INIT && s.waitLock.None? && s.nextpid == 2
    && (forall i :: 0 <= i < |s.procs| ==>
          s.procs[i] == Slot(if i == INIT then User else Dead, if i == INIT then RUNNABLE else UNUSED,
                             None, None, Free, false, None, 0, 0, if i == INIT then NoId.(pid := 1) else NoId))
  }

  ghost predicate Next(ss: seq<State>, t: nat)
    requires t < |ss| - 1
  {
    exists a :: Enabled(ss[t], a) && Do(ss[t], a) == ss[t + 1]
  }

  ghost predicate Run(ss: seq<State>) {
    |ss| > 0 && Initial(ss[0]) && forall t :: 0 <= t < |ss| - 1 ==> Next(ss, t)
  }

  lemma InitialKeeps(s: State)
    requires Initial(s)
    ensures Inv(s)
  {
    forall i | 0 <= i < |s.procs| ensures LockOk(s, i) && RestAt(s, i) { }
  }

  lemma {:induction false} RunKeeps(ss: seq<State>, t: nat)
    requires Run(ss) && t < |ss|
    ensures Inv(ss[t])
  {
    hide Inv, Enabled, Do;
    if t == 0 {
      InitialKeeps(ss[0]);
    } else {
      RunKeeps(ss, t - 1);
      assert Next(ss, t - 1);
      var a :| Enabled(ss[t - 1], a) && Do(ss[t - 1], a) == ss[t];
      StepKeeps(ss[t - 1], a);
    }
  }

  /** A parent is never a zombie and never an unused slot, and every zombie has a parent to reap it. */
  lemma ParentsAlive(ss: seq<State>, t: nat, c: nat)
    requires Run(ss) && t < |ss| && c < |ss[t].procs|
    ensures var p := ss[t].procs[c];
            && (p.parent.Some? ==> p.parent.value < |ss[t].procs| && Alive(ss[t].procs[p.parent.value].st))
            && (p.st.ZOMBIE? ==> p.parent.Some?)
            && (p.st.UNUSED? ==> p.parent.None?)
  {
    hide Run, Locks;
    RunKeeps(ss, t);
    InvAt(ss[t], c);
  }

  /** No wakeup is lost: while wait_lock is free, a process that sleeps in kwait has a child and no zombie child. */
  lemma NoLostWakeup(ss: seq<State>, t: nat, i: nat, c: nat)
    requires Run(ss) && t < |ss| && i < |ss[t].procs| && ss[t].waitLock.None? && Waiting(ss[t].procs[i])
    ensures HasChild(ss[t], i)
    ensures Child(ss[t], i, c) ==> !ss[t].procs[c].st.ZOMBIE?
  {
    hide Run, Locks, HasChild, Waiting;
    RunKeeps(ss, t);
    InvAt(ss[t], i);
  }

  /** kwait gives up for want of children only when there is none. */
  lemma WaitSeesChildren(ss: seq<State>, t: nat, i: nat, c: nat)
    requires Run(ss) && t < |ss| && i < |ss[t].procs| && ss[t].procs[i].pc == WaitTest(false)
    ensures !Child(ss[t], i, c)
  {
    hide Run, Locks;
    RunKeeps(ss, t);
    InvAt(ss[t], i);
  }

  /** Every exit of a slot's process is followed by exactly one reap, or the slot is still a zombie. */
  lemma ReapedOnce(ss: seq<State>, t: nat, c: nat)
    requires Run(ss) && t < |ss| && c < |ss[t].procs|
    ensures ss[t].procs[c].exits == ss[t].procs[c].reaps + if ss[t].procs[c].st.ZOMBIE? then 1 else 0
  {
    hide Run, Locks;
    RunKeeps(ss, t);
    InvAt(ss[t], c);
  }

  lemma ForkSpares(s: State, i: nat, c: nat)
    requires i < |s.procs| && InFork(s.procs[i].pc) && ForkEnabled(s, i)
    requires c < |s.procs| && s.procs[c].st.ZOMBIE? && StateOk(s, c) && StateOk(s, i)
    ensures c < |DoFork(s, i).procs| && DoFork(s, i).procs[c].st.ZOMBIE?
  {
  }

  lemma ExitSpares(s: State, i: nat, c: nat)
    requires i < |s.procs| && InKexit(s.procs[i].pc) && ExitEnabled(s, i)
    requires c < |s.procs| && s.procs[c].st.ZOMBIE? && StateOk(s, c) && StateOk(s, i)
    ensures c < |DoExit(s, i).procs| && DoExit(s, i).procs[c].st.ZOMBIE?
  {
  }

  lemma WaitSpares(s: State, i: nat, c: nat)
    requires i < |s.procs| && InKwait(s.procs[i].pc) && WaitEnabled(s, i) && !s.procs[i].pc.WaitHeld?
    requires c < |s.procs| && s.procs[c].st.ZOMBIE? && StateOk(s, c) && StateOk(s, i)
    ensures c < |DoWait(s, i).procs| && DoWait(s, i).procs[c].st.ZOMBIE?
  {
  }

  lemma SleepSpares(s: State, i: nat, c: nat)
    requires i < |s.procs| && InSleep(s.procs[i].pc) && SleepEnabled(s, i)
    requires c < |s.procs| && s.procs[c].st.ZOMBIE? && StateOk(s, c) && StateOk(s, i)
    ensures c < |DoSleep(s, i).procs| && DoSleep(s, i).procs[c].st.ZOMBIE?
  {
  }

  /** Only the reaping step of kwait ends a zombie. */
  lemma ZombieStays(s: State, a: Action, c: nat)
    requires Enabled(s, a) && c < |s.procs| && s.procs[c].st.ZOMBIE? && StateOk(s, c) && StateOk(s, a.i)
    requires !(a.Step? && s.procs[a.i].pc.WaitHeld?)
    ensures c < |Do(s, a).procs| && Do(s, a).procs[c].st.ZOMBIE?
  {
    hide DoFork, DoExit, DoWait, DoSleep, ForkEnabled, ExitEnabled, WaitEnabled, SleepEnabled, InFork, InKexit;
    hide InKwait, InSleep;
    if a.Step? {
      var pc := s.procs[a.i].pc;
      Disjoint(pc);
      if InFork(pc) { ForkSpares(s, a.i, c); } else if InKexit(pc) { ExitSpares(s, a.i, c); }
      else if InKwait(pc) { WaitSpares(s, a.i, c); } else { SleepSpares(s, a.i, c); }
    }
  }

  /** A zombie's slot is freed only by its parent, and only when the zombie is off the CPU. */
  lemma ReapedByParent(s: State, a: Action, c: nat)
    requires Inv(s) && Enabled(s, a) && c < |s.procs| && s.procs[c].st.ZOMBIE?
    requires |Do(s, a).procs| == |s.procs| && !Do(s, a).procs[c].st.ZOMBIE?
    ensures a.Step? && s.procs[c].parent == Some(a.i) && s.procs[c].pc.Gone? && s.procs[c].plock == By(a.i)
    ensures Do(s, a).procs[c].st.UNUSED? && Do(s, a).procs[c].reaps == s.procs[c].reaps + 1
  {
    hide Inv, Locks, FamilyOk, WaitingOk, ToldOk, DoFork, DoExit, DoSleep, ForkEnabled, ExitEnabled;
    hide SleepEnabled, HasWait;
    InvAt(s, a.i);
    InvAt(s, c);
    if !(a.Step? && s.procs[a.i].pc.WaitHeld?) {
      ZombieStays(s, a, c);
    }
  }

  lemma RunReapedByParent(ss: seq<State>, t: nat, c: nat)
    requires Run(ss) && t + 1 < |ss| && c < |ss[t].procs| && c < |ss[t + 1].procs|
    requires ss[t].procs[c].st.ZOMBIE? && !ss[t + 1].procs[c].st.ZOMBIE?
    ensures ss[t].procs[c].parent.Some? && ss[t].procs[c].pc.Gone?
    ensures ss[t].procs[c].plock == By(ss[t].procs[c].parent.value)
    ensures ss[t + 1].procs[c].st.UNUSED? && ss[t + 1].procs[c].reaps == ss[t].procs[c].reaps + 1
  {
    hide Inv, Enabled, Do;
    RunKeeps(ss, t);
    assert Next(ss, t);
    var a :| Enabled(ss[t], a) && Do(ss[t], a) == ss[t + 1];
    SameSlots(ss[t], a);
    ReapedByParent(ss[t], a, c);
  }

  lemma SameSlots(s: State, a: Action)
    requires Enabled(s, a)
    ensures |Do(s, a).procs| == |s.procs|
  {
    hide DoStep, StepEnabled;
    if a.Step? { StepSlots(s, a.i); }
  }

  lemma StepSlots(s: State, i: nat)
    requires i < |s.procs| && StepEnabled(s, i)
    ensures |DoStep(s, i).procs| == |s.procs|
  {
    hide DoFork, DoExit, DoWait, DoSleep, ForkEnabled, ExitEnabled, WaitEnabled, SleepEnabled;
    var pc := s.procs[i].pc;
    if InFork(pc) { ForkSlots(s, i); }
    else if InKexit(pc) { ExitSlots(s, i); }
    else if InKwait(pc) { WaitSlots(s, i); }
    else { SleepSlots(s, i); }
  }

  lemma ForkSlots(s: State, i: nat)
    requires i < |s.procs| && InFork(s.procs[i].pc) && ForkEnabled(s, i)
    ensures |DoFork(s, i).procs| == |s.procs|
  {
  }

  lemma ExitSlots(s: State, i: nat)
    requires i < |s.procs| && InKexit(s.procs[i].pc) && ExitEnabled(s, i)
    ensures |DoExit(s, i).procs| == |s.procs|
  {
  }

  lemma WaitSlots(s: State, i: nat)
    requires i < |s.procs| && InKwait(s.procs[i].pc) && WaitEnabled(s, i)
    ensures |DoWait(s, i).procs| == |s.procs|
  {
  }

  lemma SleepSlots(s: State, i: nat)
    requires i < |s.procs| && InSleep(s.procs[i].pc) && SleepEnabled(s, i)
    ensures |DoSleep(s, i).procs| == |s.procs|
  {
  }
}
