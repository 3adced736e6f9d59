/** The counting semaphore of semaphore.c, built on sleep and wakeup_one of proc.c, as a state machine:
    one step per lock operation or access to shared state, any number of processes, any interleaving. */
module Semaphore {

  import opened Basics

  /** Where a process is. */
  datatype Pc =
    | Outside                    // not in a semaphore call
    | Decrement | TestWait       // sem_wait, sem->lock held
    | SleepLock | SleepRelease   // sleep: acquire p->lock, release sem->lock
    | SleepSet | Switch          // sleep: set chan and state, sched; p->lock held
    | Asleep                     // off the CPU
    | Awake | AwakeRelease       // back from sched, p->lock held
    | AwakeLock                  // reacquiring sem->lock
    | EndWait                    // sem_wait about to release sem->lock
    | Increment | TestSignal     // sem_signal, sem->lock held
    | Scan(at: nat)              // wakeup_one about to acquire the lock of process at
    | Held(at: nat)              // wakeup_one holding that lock
    | EndSignal(waiters: bool, woken: nat)

  datatype RunState = SLEEPING | RUNNABLE | RUNNING

  /** The holder of a p->lock. */
  datatype Owner = Free | By(i: nat) | Scheduler

  /** chan says whether p->chan is the semaphore; holds counts the grants to the process less its signals.
      waits and posts count its calls of sem_wait and sem_signal, granted the times it was given a unit. */
  datatype Proc = Proc(pc: Pc, st: RunState, chan: bool, plock: Owner, holds: int, waits: nat, posts: nat,
                       granted: nat)

  /** lock is sem->lock; grants and signals count what has happened so far. */
  datatype State = State(count: int, lock: Option<nat>, procs: seq<Proc>, grants: nat, signals: nat)

  datatype Action =
    | BeginWait(i: nat) | Step(i: nat) | BeginSignal(i: nat)
    | Dispatch(i: nat)                      // the scheduler runs a process that is off the CPU
    | Look(i: nat) | Leave(i: nat)          // the scheduler takes a p->lock and drops it again
    | Elsewhere(i: nat, st: RunState)       // a process runs, yields or sleeps on something else

  // ----- steps -----

  function Set(s: State, i: nat, p: Proc): (r: State)
    requires i < |s.procs|
  {
    s.(procs := s.procs[i := p])
  }

  function Goto(s: State, i: nat, pc: Pc): (r: State)
    requires i < |s.procs|
  {
    Set(s, i, s.procs[i].(pc := pc))
  }

  predicate Enabled(s: State, a: Action) {
    && a.i < |s.procs|
    && var p := s.procs[a.i];
       match a
       case BeginWait(_) => p.pc == Outside && p.st == RUNNING && s.lock.None?
       case BeginSignal(_) => p.pc == Outside && p.st == RUNNING && s.lock.None?
       case Dispatch(_) => p.pc == Asleep && p.st == RUNNABLE && p.plock == Scheduler
       case Look(_) => p.plock == Free
       case Leave(_) => p.plock == Scheduler
       case Elsewhere(_, st) =>
         p.plock == Free && (p.pc == Outside || (p.pc == AwakeLock && st != SLEEPING))
       case Step(i) =>
         match p.pc
         case Outside => false
         case Asleep => false
         case SleepLock => p.plock == Free
         case AwakeLock => s.lock.None? && p.st == RUNNING
         case Scan(j) => j < |s.procs| && j != i ==> s.procs[j].plock == Free
         case Held(j) => j < |s.procs|
         case _ => true
  }

  function Do(s: State, a: Action): (r: State)
    requires Enabled(s, a)
  {
    var p := s.procs[a.i];
    match a
    case BeginWait(i) => Set(s, i, p.(pc := Decrement, waits := p.waits + 1)).(lock := Some(i))
    case BeginSignal(i) => Set(s, i, p.(pc := Increment, posts := p.posts + 1)).(lock := Some(i))
    case Dispatch(i) => Set(s, i, p.(pc := Awake, st := RUNNING, plock := By(i)))
    case Look(i) => Set(s, i, p.(plock := Scheduler))
    case Leave(i) => Set(s, i, p.(plock := Free))
    case Elsewhere(i, st) => Set(s, i, p.(st := st))
    case Step(i) => DoStep(s, i)
  }

  /** The process is given a unit. */
  function Grant(p: Proc): (q: Proc) { p.(holds := p.holds + 1, granted := p.granted + 1) }

  function DoStep(s: State, i: nat): (r: State)
    requires Enabled(s, Step(i))
  {
    var p := s.procs[i];
    match p.pc
    case Decrement => Goto(s, i, TestWait).(count := s.count - 1)
    case TestWait =>
      if s.count < 0 then Goto(s, i, SleepLock)
      else Set(s, i, Grant(p).(pc := EndWait)).(grants := s.grants + 1)
    case SleepLock => Set(s, i, p.(pc := SleepRelease, plock := By(i)))
    case SleepRelease => Goto(s, i, SleepSet).(lock := None)
    case SleepSet => Set(s, i, p.(pc := Switch, st := SLEEPING, chan := true))
    case Switch => Set(s, i, p.(pc := Asleep, plock := Scheduler))
    case Awake => Set(s, i, p.(pc := AwakeRelease, chan := false))
    case AwakeRelease => Set(s, i, p.(pc := AwakeLock, plock := Free))
    case AwakeLock => Goto(s, i, EndWait).(lock := Some(i))
    case EndWait => Goto(s, i, Outside).(lock := None)
    case Increment =>
      Set(s, i, p.(pc := TestSignal, holds := p.holds - 1)).(count := s.count + 1, signals := s.signals + 1)
    case TestSignal => Goto(s, i, if s.count <= 0 then Scan(0) else EndSignal(false, 0))
    case Scan(j) =>
      if j >= |s.procs| then Goto(s, i, EndSignal(true, 0))
      else if j == i then Goto(s, i, Scan(j + 1))
      else Set(Goto(s, i, Held(j)), j, s.procs[j].(plock := By(i)))
    case Held(j) =>
      var q := s.procs[j];
      if q.st == SLEEPING && q.chan
      then Goto(Set(s, j, Grant(q).(st := RUNNABLE, plock := Free)), i, EndSignal(true, 1)).(grants := s.grants + 1)
      else Goto(Set(s, j, q.(plock := Free)), i, Scan(j + 1))
    case EndSignal(_, _) => Goto(s, i, Outside).(lock := None)
    case _ => s
  }

  // ----- counting -----

  /** Asleep on the semaphore, or committed to it. */
  predicate Waits(p: Proc) {
    p.pc.SleepLock? || p.pc.SleepRelease? || p.pc.SleepSet? || p.pc.Switch? || (p.pc.Asleep? && p.st.SLEEPING?)
  }

  function Waiters(ps: seq<Proc>): (n: nat) {
    if ps == [] then 0 else Waiters(ps[..|ps| - 1]) + if Waits(ps[|ps| - 1]) then 1 else 0
  }

  function Holding(ps: seq<Proc>): (n: int) {
    if ps == [] then 0 else Holding(ps[..|ps| - 1]) + ps[|ps| - 1].holds
  }

  /** Its calls of sem_wait that have taken the count down, and of sem_signal that have put it up. */
  function Past(p: Proc): (n: int) { if p.pc.Decrement? then p.waits - 1 else p.waits }

  function Posted(p: Proc): (n: int) { if p.pc.Increment? then p.posts - 1 else p.posts }

  /** Calls of sem_wait past their decrement, less calls of sem_signal past their increment. */
  function Taken(ps: seq<Proc>): (n: int) {
    if ps == [] then 0 else Taken(ps[..|ps| - 1]) + Past(ps[|ps| - 1]) - Posted(ps[|ps| - 1])
  }

  lemma {:induction false} CountUpdate(ps: seq<Proc>, i: nat, p: Proc)
    requires i < |ps|
    ensures Taken(ps[i := p]) == Taken(ps) - Past(ps[i]) + Posted(ps[i]) + Past(p) - Posted(p)
    ensures Waiters(ps[i := p]) == Waiters(ps) - (if Waits(ps[i]) then 1 else 0) + (if Waits(p) then 1 else 0)
    ensures Holding(ps[i := p]) == Holding(ps) - ps[i].holds + p.holds
  {
    var n := |ps| - 1;
    if i == n {
      assert ps[i := p][..n] == ps[..n];
    } else {
      CountUpdate(ps[..n], i, p);
      assert ps[i := p][..n] == ps[..n][i := p];
    }
  }

  lemma {:induction false} NoWaiters(ps: seq<Proc>)
    requires forall k :: 0 <= k < |ps| ==> !Waits(ps[k])
    ensures Waiters(ps) == 0
  {
    if ps != [] { NoWaiters(ps[..|ps| - 1]); }
  }

  // ----- the invariant -----

  /** Places where sem->lock is held. */
  predicate HasSem(pc: Pc) {
    pc.Decrement? || pc.TestWait? || pc.SleepLock? || pc.SleepRelease? || pc.EndWait? || pc.Increment? || pc.TestSignal?
    || pc.Scan? || pc.Held? || pc.EndSignal?
  }

  /** Places where the process holds its own p->lock. */
  predicate HasOwn(pc: Pc) {
    pc.SleepRelease? || pc.SleepSet? || pc.Switch? || pc.Awake? || pc.AwakeRelease?
  }

  ghost predicate ProcOk(s: State, i: nat)
    requires i < |s.procs|
  {
    var p := s.procs[i];
    && (HasSem(p.pc) <==> s.lock == Some(i))
    && (HasOwn(p.pc) <==> p.plock == By(i))
    && (p.plock.By? && p.plock.i != i ==> p.plock.i < |s.procs| && s.procs[p.plock.i].pc == Held(i))
    && (p.pc.Held? ==> p.pc.at < |s.procs| && p.pc.at != i && s.procs[p.pc.at].plock == By(i))
    && (p.chan <==> p.pc.Switch? || p.pc.Asleep? || p.pc.Awake?)
    && (p.pc.Switch? ==> p.st == SLEEPING) && (p.pc.Asleep? ==> p.st != RUNNING)
    && (p.pc.EndSignal? ==> p.pc.woken == if p.pc.waiters then 1 else 0)
    && CallOk(p)
  }

  /** In sem_wait and not yet given a unit. */
  predicate Ungranted(p: Proc) { p.pc.Decrement? || p.pc.TestWait? || Waits(p) }

  /** Every call of sem_wait but one under way has been given exactly one unit. */
  predicate CallOk(p: Proc) {
    && p.granted == p.waits - (if Ungranted(p) then 1 else 0)
    && p.holds == p.granted - Posted(p)
  }

  /** wakeup_one has passed no process that waits. */
  ghost predicate ScanOk(s: State, i: nat)
    requires i < |s.procs|
  {
    var pc := s.procs[i].pc;
    pc.Scan? || pc.Held? ==> s.count <= 0 && forall k :: 0 <= k < |s.procs| && k < pc.at ==> !Waits(s.procs[k])
  }

  /** The process that holds sem->lock. */
  function Holder(s: State): (pc: Pc) {
    if s.lock.Some? && s.lock.value < |s.procs| then s.procs[s.lock.value].pc else Outside
  }

  /** How far the number of waiters is off max(0, -count) in the middle of a call. */
  function Off(s: State): (n: int) {
    var pc := Holder(s);
    if pc.TestWait? then (if s.count < 0 then -1 else 0)
    else if pc.TestSignal? || pc.Scan? || pc.Held? then (if s.count <= 0 then 1 else 0)
    else 0
  }

  function Max0(n: int): (m: nat) { if n < 0 then 0 else n }

  ghost predicate CountOk(s: State, init: nat) {
    && Waiters(s.procs) == Max0(-s.count) + Off(s)
    && s.count == init - (s.grants - s.signals) - Waiters(s.procs) - (if Holder(s).TestWait? then 1 else 0)
    && Holding(s.procs) == s.grants - s.signals
    && s.count == init - Taken(s.procs)
  }

  ghost predicate Inv(s: State, init: nat) {
    && (s.lock.Some? ==> s.lock.value < |s.procs|)
    && (forall i :: 0 <= i < |s.procs| ==> ProcOk(s, i) && ScanOk(s, i))
    && CountOk(s, init)
  }

  /** A step in which only process i changes, and holds no other process's lock. */
  lemma OwnStep(s: State, s': State, init: nat, i: nat)
    requires Inv(s, init) && i < |s.procs| && |s'.procs| == |s.procs| && s'.procs == s.procs[i := s'.procs[i]]
    requires s'.lock == s.lock || (s.lock == Some(i) && s'.lock.None?) || (s.lock.None? && s'.lock == Some(i))
    requires ProcOk(s', i) && ScanOk(s', i) && CountOk(s', init)
    requires s.procs[i].pc.Held? || s'.procs[i].pc.Held? ==> s'.procs[i].pc == s.procs[i].pc
    requires s'.procs[i].plock == s.procs[i].plock || !s.procs[i].plock.By? || s.procs[i].plock.i == i
    requires s'.count == s.count || s.lock == Some(i)
    requires Waits(s'.procs[i]) ==> Waits(s.procs[i]) || s.lock == Some(i)
    ensures Inv(s', init)
  {
    forall k | 0 <= k < |s'.procs| ensures ProcOk(s', k) && ScanOk(s', k) {
      assert ProcOk(s, k) && ScanOk(s, k) && ProcOk(s, i);
    }
  }

  lemma SchedulerKeeps(s: State, init: nat, a: Action)
    requires Inv(s, init) && Enabled(s, a) && !a.Step?
    ensures Inv(Do(s, a), init)
  {
    hide Inv, Waiters, Holding, Taken;
    InvAt(s, init, a.i);
    var s' := Do(s, a);
    CountUpdate(s.procs, a.i, s'.procs[a.i]);
    OwnStep(s, s', init, a.i);
  }

  lemma InvAt(s: State, init: nat, i: nat)
    requires Inv(s, init) && i < |s.procs|
    ensures ProcOk(s, i) && ScanOk(s, i) && CountOk(s, init) && (s.lock.Some? ==> s.lock.value < |s.procs|)
  {
  }

  /** Places in sleep(). */
  predicate InSleep(pc: Pc) {
    pc.SleepLock? || HasOwn(pc) || pc.AwakeLock?
  }

  /** Steps of sleep. */
  lemma WaitKeeps(s: State, init: nat, i: nat)
    requires Inv(s, init) && Enabled(s, Step(i)) && !s.procs[i].pc.Held? && InSleep(s.procs[i].pc)
    ensures Inv(DoStep(s, i), init)
  {
    hide Inv, Waiters, Holding, Taken;
    InvAt(s, init, i);
    var s' := DoStep(s, i);
    CountUpdate(s.procs, i, s'.procs[i]);
    OwnStep(s, s', init, i);
  }

  /** Steps of sem_wait and sem_signal outside sleep and wakeup_one. */
  lemma CallKeeps(s: State, init: nat, i: nat)
    requires Inv(s, init) && Enabled(s, Step(i)) && !s.procs[i].pc.Held? && !InSleep(s.procs[i].pc)
    requires !s.procs[i].pc.Scan?
    ensures Inv(DoStep(s, i), init)
  {
    hide Inv, Waiters, Holding, Taken;
    InvAt(s, init, i);
    var s' := DoStep(s, i);
    CountUpdate(s.procs, i, s'.procs[i]);
    OwnStep(s, s', init, i);
  }

  /** wakeup_one skips the process that calls it. */
  lemma SkipKeeps(s: State, init: nat, i: nat)
    requires Inv(s, init) && Enabled(s, Step(i)) && s.procs[i].pc == Scan(i)
    ensures Inv(DoStep(s, i), init)
  {
    hide Inv, Waiters, Holding, Taken;
    InvAt(s, init, i);
    var s' := DoStep(s, i);
    CountUpdate(s.procs, i, s'.procs[i]);
    OwnStep(s, s', init, i);
  }

  /** wakeup_one never comes to the end of the table: a process that waits is still ahead of it. */
  lemma ScanFinds(s: State, init: nat, i: nat)
    requires Inv(s, init) && i < |s.procs| && (s.procs[i].pc.Scan? || s.procs[i].pc.Held?)
    ensures exists k :: s.procs[i].pc.at <= k < |s.procs| && k != i && Waits(s.procs[k])
  {
    InvAt(s, init, i);
    if forall k :: s.procs[i].pc.at <= k < |s.procs| && k != i ==> !Waits(s.procs[k]) {
      NoWaiters(s.procs);
    }
  }

  lemma ScanKeeps(s: State, init: nat, i: nat)
    requires Inv(s, init) && Enabled(s, Step(i)) && s.procs[i].pc.Scan? && s.procs[i].pc.at != i
    ensures Inv(DoStep(s, i), init)
  {
    hide Waiters, Holding, Taken;
    ScanFinds(s, init, i);
    InvAt(s, init, i);
    var j, s' := s.procs[i].pc.at, DoStep(s, i);
    var mid := Goto(s, i, Held(j));
    CountUpdate(s.procs, i, mid.procs[i]);
    CountUpdate(mid.procs, j, s'.procs[j]);
    forall k | 0 <= k < |s'.procs| ensures ProcOk(s', k) && ScanOk(s', k) {
      assert ProcOk(s, k) && ScanOk(s, k) && ProcOk(s, i) && ProcOk(s, j);
    }
  }

  /** wakeup_one finds a process asleep on the semaphore. */
  lemma WakeKeeps(s: State, init: nat, i: nat)
    requires Inv(s, init) && Enabled(s, Step(i)) && s.procs[i].pc.Held?
    requires var q := s.procs[s.procs[i].pc.at]; q.st == SLEEPING && q.chan
    ensures Inv(DoStep(s, i), init)
  {
    hide Waiters, Holding, Taken;
    InvAt(s, init, i);
    var j, s' := s.procs[i].pc.at, DoStep(s, i);
    InvAt(s, init, j);
    var mid := Set(s, j, s'.procs[j]);
    CountUpdate(s.procs, j, mid.procs[j]);
    CountUpdate(mid.procs, i, s'.procs[i]);
    forall k | 0 <= k < |s'.procs| ensures ProcOk(s', k) && ScanOk(s', k) {
      assert ProcOk(s, k) && ScanOk(s, k) && ProcOk(s, i) && ProcOk(s, j);
    }
  }

  /** wakeup_one passes a process, which then does not wait. */
  lemma PassKeeps(s: State, init: nat, i: nat)
    requires Inv(s, init) && Enabled(s, Step(i)) && s.procs[i].pc.Held?
    requires var q := s.procs[s.procs[i].pc.at]; !(q.st == SLEEPING && q.chan)
    ensures Inv(DoStep(s, i), init)
  {
    hide Waiters, Holding, Taken;
    InvAt(s, init, i);
    var j, s' := s.procs[i].pc.at, DoStep(s, i);
    InvAt(s, init, j);
    var mid := Set(s, j, s'.procs[j]);
    CountUpdate(s.procs, j, mid.procs[j]);
    CountUpdate(mid.procs, i, s'.procs[i]);
    forall k | 0 <= k < |s'.procs| ensures ProcOk(s', k) && ScanOk(s', k) {
      assert ProcOk(s, k) && ScanOk(s, k) && ProcOk(s, i) && ProcOk(s, j);
    }
  }

  lemma StepKeeps(s: State, init: nat, a: Action)
    requires Inv(s, init) && Enabled(s, a)
    ensures Inv(Do(s, a), init)
  {
    hide Inv, DoStep;
    if !a.Step? {
      SchedulerKeeps(s, init, a);
    } else if s.procs[a.i].pc.Held? {
      var q := s.procs[s.procs[a.i].pc.at];
      if q.st == SLEEPING && q.chan { WakeKeeps(s, init, a.i); } else { PassKeeps(s, init, a.i); }
    } else if s.procs[a.i].pc.Scan? {
      if s.procs[a.i].pc.at != a.i { ScanKeeps(s, init, a.i); } else { SkipKeeps(s, init, a.i); }
    } else if InSleep(s.procs[a.i].pc) {
      WaitKeeps(s, init, a.i);
    } else {
      CallKeeps(s, init, a.i);
    }
  }

  // ----- whole runs -----

  ghost predicate Initial(s: State, init: nat) {
    && s.count == init && s.lock.None? && s.grants == 0 && s.signals == 0
    && forall i :: 0 <= i < |s.procs| ==>
         && s.procs[i].pc == Outside && !s.procs[i].chan && s.procs[i].plock == Free
         && s.procs[i].holds == 0 && s.procs[i].waits == 0 && s.procs[i].posts == 0 && s.procs[i].granted == 0
  }

  ghost predicate Run(ss: seq<State>, init: nat) {
    && |ss| > 0 && Initial(ss[0], init)
    && forall t :: 0 <= t < |ss| - 1 ==> Next(ss, t)
  }

  ghost predicate Next(ss: seq<State>, t: nat)
    requires t < |ss| - 1
  {
    exists a :: Enabled(ss[t], a) && Do(ss[t], a) == ss[t + 1]
  }

  lemma {:induction false} HoldsNone(ps: seq<Proc>)
    requires forall k :: 0 <= k < |ps| ==>
               ps[k].holds == 0 && ps[k].waits == 0 && ps[k].posts == 0 && ps[k].pc.Outside?
    ensures Holding(ps) == 0 && Taken(ps) == 0
  {
    if ps != [] { HoldsNone(ps[..|ps| - 1]); }
  }

  lemma InitialKeeps(s: State, init: nat)
    requires Initial(s, init)
    ensures Inv(s, init)
  {
    NoWaiters(s.procs);
    HoldsNone(s.procs);
  }

  lemma {:induction false} RunKeeps(ss: seq<State>, init: nat, t: nat)
    requires Run(ss, init) && t < |ss|
    ensures Inv(ss[t], init)
  {
    hide Inv, Enabled, Do;
    if t == 0 {
      InitialKeeps(ss[0], init);
    } else {
      RunKeeps(ss, init, t - 1);
      assert Next(ss, t - 1);
      var a :| Enabled(ss[t - 1], a) && Do(ss[t - 1], a) == ss[t];
      StepKeeps(ss[t - 1], init, a);
    }
  }

  /** Whenever sem->lock is free, the processes that wait number max(0, -count), and they wait only
      while every unit of the semaphore is taken. */
  lemma WaitersMatchCount(ss: seq<State>, init: nat, t: nat)
    requires Run(ss, init) && t < |ss| && ss[t].lock.None?
    ensures Waiters(ss[t].procs) == Max0(-ss[t].count)
    ensures Waiters(ss[t].procs) > 0 ==> ss[t].grants == init + ss[t].signals
  {
    hide Run;
    RunKeeps(ss, init, t);
  }

  /** The count is the initial value, up by every call of sem_signal and down by every call of sem_wait that has
      come that far: no call counts twice, however often its process is woken. */
  lemma CountIsCalls(ss: seq<State>, init: nat, t: nat)
    requires Run(ss, init) && t < |ss|
    ensures ss[t].count == init - Taken(ss[t].procs)
  {
    hide Run, Taken;
    RunKeeps(ss, init, t);
  }

  /** A call of sem_wait is given a unit once: when it returns, and not again before the next call. */
  lemma GrantedOnce(ss: seq<State>, init: nat, t: nat, i: nat)
    requires Run(ss, init) && t < |ss| && i < |ss[t].procs|
    ensures var p := ss[t].procs[i];
            && p.granted == p.waits - (if Ungranted(p) then 1 else 0)
            && p.holds == p.granted - Posted(p)
            && (p.pc.Outside? ==> p.granted == p.waits && p.holds == p.waits - p.posts)
  {
    hide Run;
    RunKeeps(ss, init, t);
    InvAt(ss[t], init, i);
  }

  /** On the way out of sem_wait. */
  predicate Leaving(p: Proc) {
    (p.pc.Asleep? && p.st.RUNNABLE?) || p.pc.Awake? || p.pc.AwakeRelease? || p.pc.AwakeLock? || p.pc.EndWait?
  }

  lemma LeavesStep(s: State, init: nat, a: Action, i: nat)
    requires Inv(s, init) && Enabled(s, a) && i < |s.procs| && Leaving(s.procs[i])
    ensures i < |Do(s, a).procs| && (Leaving(Do(s, a).procs[i]) || Do(s, a).procs[i].pc.Outside?)
  {
    hide Waiters, Holding, Taken;
    InvAt(s, init, i);
    InvAt(s, init, a.i);
  }

  lemma GrantLeaves(s: State, init: nat, a: Action, i: nat)
    requires Inv(s, init) && Enabled(s, a) && i < |s.procs|
    ensures i < |Do(s, a).procs|
    ensures Do(s, a).procs[i].granted != s.procs[i].granted ==>
              Do(s, a).procs[i].granted == s.procs[i].granted + 1 && Ungranted(s.procs[i]) && Leaving(Do(s, a).procs[i])
  {
    hide Waiters, Holding, Taken;
    InvAt(s, init, i);
    InvAt(s, init, a.i);
  }

  /** A process that has been given a unit, by itself or by wakeup_one, returns from sem_wait before it can wait
      or signal again. */
  lemma {:induction false} GrantedReturns(ss: seq<State>, init: nat, t: nat, u: nat, i: nat)
    requires Run(ss, init) && t < u < |ss| && i < |ss[t].procs|
    requires |ss[t + 1].procs| == |ss[t].procs| && ss[t + 1].procs[i].granted != ss[t].procs[i].granted
    ensures |ss[u].procs| == |ss[t].procs|
    ensures Leaving(ss[u].procs[i]) || exists v :: t < v <= u && i < |ss[v].procs| && ss[v].procs[i].pc.Outside?
  {
    hide Inv, Enabled, Do, Leaving;
    RunKeeps(ss, init, u - 1);
    assert Next(ss, u - 1);
    var a :| Enabled(ss[u - 1], a) && Do(ss[u - 1], a) == ss[u];
    SameProcs(ss[u - 1], a);
    if u == t + 1 {
      GrantLeaves(ss[t], init, a, i);
    } else {
      GrantedReturns(ss, init, t, u - 1, i);
      if Leaving(ss[u - 1].procs[i]) {
        LeavesStep(ss[u - 1], init, a, i);
        assert Leaving(ss[u].procs[i]) || (t < u <= u && ss[u].procs[i].pc.Outside?);
      }
    }
  }

  /** wakeup_one gives the unit to the first process in the table that waits, and to no other. */
  lemma WakesFirst(ss: seq<State>, init: nat, t: nat, i: nat, k: nat)
    requires Run(ss, init) && t + 1 < |ss| && i < |ss[t].procs| == |ss[t + 1].procs| && k < |ss[t].procs| && k != i
    requires ss[t].procs[i].pc.Asleep? && ss[t + 1].procs[i].granted != ss[t].procs[i].granted
    ensures Waits(ss[t].procs[i]) && (k < i ==> !Waits(ss[t].procs[k]))
    ensures ss[t + 1].procs[k].granted == ss[t].procs[k].granted && ss[t + 1].procs[k].st == ss[t].procs[k].st
  {
    hide Run, Waiters, Holding, Taken;
    RunKeeps(ss, init, t);
    assert Next(ss, t) by { NextOf(ss, init, t); }
    var a :| Enabled(ss[t], a) && Do(ss[t], a) == ss[t + 1];
    InvAt(ss[t], init, i);
    InvAt(ss[t], init, a.i);
  }

  lemma NextOf(ss: seq<State>, init: nat, t: nat)
    requires Run(ss, init) && t < |ss| - 1
    ensures Next(ss, t)
  {
  }

  /** Never more grants than units: the initial ones and those that signals gave back. */
  lemma GrantsBounded(ss: seq<State>, init: nat, t: nat)
    requires Run(ss, init) && t < |ss|
    ensures ss[t].grants <= init + ss[t].signals
  {
    hide Run;
    RunKeeps(ss, init, t);
  }

  /** A sem_signal that is done has woken exactly one process if there were waiters, and none otherwise. */
  lemma SignalWakesOne(ss: seq<State>, init: nat, t: nat, i: nat)
    requires Run(ss, init) && t < |ss| && i < |ss[t].procs| && ss[t].procs[i].pc.EndSignal?
    ensures ss[t].procs[i].pc.woken == if ss[t].procs[i].pc.waiters then 1 else 0
  {
    hide Run;
    RunKeeps(ss, init, t);
    InvAt(ss[t], init, i);
  }

  /** ... and there were waiters exactly when the count had been negative. */
  lemma SignalSeesWaiters(ss: seq<State>, init: nat, t: nat, i: nat)
    requires Run(ss, init) && t < |ss| && i < |ss[t].procs| && ss[t].procs[i].pc.TestSignal?
    ensures ss[t].count <= 0 <==> Waiters(ss[t].procs) > 0
  {
    hide Run;
    RunKeeps(ss, init, t);
    InvAt(ss[t], init, i);
  }

  // ----- exclusion -----

  /** Every sem_signal in the run is by a process that holds a unit. */
  ghost predicate OnlyHoldersSignal(ss: seq<State>) {
    forall t, i :: 0 <= t < |ss| && 0 <= i < |ss[t].procs| && ss[t].procs[i].pc.Increment? ==> ss[t].procs[i].holds > 0
  }

  function Holders(ps: seq<Proc>): (n: nat) {
    if ps == [] then 0 else Holders(ps[..|ps| - 1]) + if ps[|ps| - 1].holds > 0 then 1 else 0
  }

  lemma {:induction false} HoldersBound(ps: seq<Proc>)
    requires forall k :: 0 <= k < |ps| ==> ps[k].holds >= 0
    ensures Holders(ps) <= Holding(ps)
  {
    if ps != [] { HoldersBound(ps[..|ps| - 1]); }
  }

  lemma HoldsStep(s: State, a: Action, i: nat)
    requires Enabled(s, a) && i < |s.procs| && s.procs[i].holds >= 0
    requires (s.procs[i].pc.Increment? ==> s.procs[i].holds > 0)
    ensures |Do(s, a).procs| == |s.procs| && Do(s, a).procs[i].holds >= 0
  {
  }

  lemma {:induction false} HoldsStay(ss: seq<State>, init: nat, t: nat, i: nat)
    requires Run(ss, init) && OnlyHoldersSignal(ss) && t < |ss| && i < |ss[t].procs|
    ensures ss[t].procs[i].holds >= 0
  {
    hide Enabled, Do;
    if t > 0 {
      assert Next(ss, t - 1);
      var a :| Enabled(ss[t - 1], a) && Do(ss[t - 1], a) == ss[t];
      SameProcs(ss[t - 1], a);
      HoldsStay(ss, init, t - 1, i);
      HoldsStep(ss[t - 1], a, i);
    }
  }

  lemma SameProcs(s: State, a: Action)
    requires Enabled(s, a)
    ensures |Do(s, a).procs| == |s.procs|
  {
  }

  /** When only holders signal, at most init processes hold the semaphore at any time. */
  lemma Exclusion(ss: seq<State>, init: nat, t: nat)
    requires Run(ss, init) && OnlyHoldersSignal(ss) && t < |ss|
    ensures Holders(ss[t].procs) <= init
  {
    hide Run, OnlyHoldersSignal;
    RunKeeps(ss, init, t);
    GrantsBounded(ss, init, t);
    forall i | 0 <= i < |ss[t].procs| ensures ss[t].procs[i].holds >= 0 { HoldsStay(ss, init, t, i); }
    HoldersBound(ss[t].procs);
  }
}
