/** The run queue over time: nobody overtakes, and a runnable process gets the processor after as many reschedules as
    there are processes before it. */
module KernelFairness {
  import opened KernelState
  import opened KernelInvariant
  import opened KernelRuns

  // The current process would have to wait for lock k.
  predicate Contended(st: State, k: LockId) {
    st.locks[k].pid >= 0 && st.locks[k].pid != st.current
  }

  // Does the step call the scheduler?
  predicate Reschedules(st: State, t: Trap) {
    if st.halted then false
    else match st.cont[st.current]
      case InCondWait(c) => Contended(st, st.conds[c].lock)
      case User =>
        (match t
         case Yield => true
         case Exit => true
         case SleepTrap => true
         case SemWaitTrap(h) => GoodSem(st, h) && st.sems[h].count <= 0
         case LockAcquireTrap(h) => GoodLock(st, h) && Contended(st, h)
         case CondWaitTrap(h) => GoodCond(st, h) && OwnsLockOf(st, h)
         case _ => false)
      case _ => false
  }

  // The step leaves the machine without a process to run, or a new process without a control block.
  predicate Stops(st: State, t: Trap) {
    if st.halted then true
    else if st.cont[st.current] == User && t.UnknownTrap? then true
    else if st.cont[st.current] == User && t.Create? then st.freepcbs == []
    else if st.cont[st.current] == User && t == Yield then false
    else if st.cont[st.current] == User && t.CondWaitTrap? then
      Reschedules(st, t) && |st.runQueue| == 1 && st.locks[st.conds[t.h].lock].waiting == []
    else Reschedules(st, t) && |st.runQueue| == 1
  }

  // The queue loses its head if the scheduler was called, and otherwise only grows at the end.
  ghost predicate Advances(st: State, st': State, gives: bool) {
    st.runQueue != [] && (if gives then st.runQueue[1..] else st.runQueue) <= st'.runQueue
  }

  // Asleep without a place on any waiting queue.
  predicate Dozes(st: State, p: Pid) { st.flags[p] == WAITING && st.cont[p] == User }

  // The current process takes the sleep trap from user code.
  predicate DozesOff(st: State, t: Trap) { !st.halted && st.cont[st.current] == User && t == SleepTrap }

  ghost predicate DozersAfter(st: State, t: Trap, st': State) {
    forall p: Pid :: Dozes(st', p) <==> Dozes(st, p) || (DozesOff(st, t) && p == st.current)
  }

  // The current process takes a new control block for a process, or gives up its own.
  predicate Creates(st: State, t: Trap) {
    !st.halted && st.cont[st.current] == User && t == Create(true) && st.freepcbs != []
  }

  predicate Exits(st: State, t: Trap) { !st.halted && st.cont[st.current] == User && t == Exit }

  ghost predicate FreeAfter(st: State, t: Trap, st': State) {
    forall p: Pid :: st'.flags[p] == FREE <==>
      (st.flags[p] == FREE && !(Creates(st, t) && p == st.freepcbs[0])) || (Exits(st, t) && p == st.current)
  }

  // What a step does to the others: one that runs stays where it is, one that waits may be woken, and a free control
  // block may become a process at user code. The current process, if it can still run, is back in user code.
  ghost predicate OthersAfter(st: State, st': State) {
    && (st'.flags[st.current] == RUNNABLE ==> st'.cont[st.current] == User)
    && forall p: Pid :: p != st.current ==> OtherAfter(st, st', p)
  }

  predicate OtherAfter(st: State, st': State, p: Pid) {
    match st.flags[p]
    case RUNNABLE => st'.flags[p] == RUNNABLE && st'.cont[p] == st.cont[p]
    case WAITING => (st'.flags[p] == WAITING || st'.flags[p] == RUNNABLE) && st'.cont[p] == st.cont[p]
    case FREE => st'.flags[p] == FREE || (st'.flags[p] == RUNNABLE && st'.cont[p] == User)
    case ZOMBIE => true
  }

  ghost predicate FreeStay(st: State, st': State) {
    forall p: Pid :: st'.flags[p] == FREE <==> st.flags[p] == FREE
  }

  ghost predicate DozersStay(st: State, st': State) {
    forall p: Pid :: Dozes(st', p) <==> Dozes(st, p)
  }

  ghost predicate GoesOn(st: State, t: Trap, st': State) {
    && st'.halted == Stops(st, t)
    && (!st'.halted ==>
          && Advances(st, st', Reschedules(st, t)) && DozersAfter(st, t, st') && FreeAfter(st, t, st')
          && OthersAfter(st, st'))
  }

  lemma SemWaitGoesOn(st: State, h: int)
    requires Ready(st) && st.cont[st.current] == User
    ensures GoesOn(st, SemWaitTrap(h), Handle(st, SemWaitTrap(h)))
  {
    hide QueuesOk, BlockedOk, SynchOk, Sleep;
    EnoughLinks(st);
    if GoodSem(st, h) && st.sems[h].count <= 0 {
      var sem := st.sems[h];
      var st1 := st.(freeLinks := st.freeLinks - 1, sems := st.sems[h := sem.(waiting := sem.waiting + [st.current])]);
      SameQueues(st, st1);
      SleepMoves(st1, InSemWait(h));
    }
  }

  // Process q is woken and the current process goes on.
  lemma WokenGoesOn(st: State, t: Trap, st': State, q: Pid)
    requires Ready(st) && st.cont[st.current] == User
    requires !Stops(st, t) && !Reschedules(st, t) && t != SleepTrap && t != Exit && !t.Create?
    requires st.flags[q] == WAITING && st.cont[q] != User && !st'.halted
    requires st'.flags == st.flags[q := RUNNABLE] && st'.cont == st.cont && st'.runQueue == st.runQueue + [q]
    ensures GoesOn(st, t, st')
  {
    hide QueuesOk, BlockedOk, SynchOk;
  }

  lemma SemSignalGoesOn(st: State, h: int)
    requires Ready(st) && st.cont[st.current] == User
    ensures GoesOn(st, SemSignalTrap(h), Handle(st, SemSignalTrap(h)))
  {
    hide QueuesOk, BlockedOk, SynchOk, GoesOn, Wakeup;
    assert st.cont[st.current := User] == st.cont;
    var st' := Handle(st, SemSignalTrap(h));
    if GoodSem(st, h) && st.sems[h].count + 1 > 0 && st.sems[h].waiting != [] {
      var sem := st.sems[h];
      WakesFirst(st, st.(freeLinks := st.freeLinks + 1, sems := st.sems[h := sem.(waiting := sem.waiting[1..])]),
          OnSem(h));
      WokenGoesOn(st, SemSignalTrap(h), st', sem.waiting[0]);
    } else {
      NothingMoves(st, SemSignalTrap(h), st');
    }
  }

  lemma AcquireGoesOn(st: State, k: LockId, c: Cont, call: Call)
    requires Ready(st) && c != User
    ensures var st' := LockAcquire(st, k, c, call);
            && st'.halted == (Contended(st, k) && |st.runQueue| == 1)
            && (!st'.halted ==>
                  && Advances(st, st', Contended(st, k)) && DozersStay(st, st') && FreeStay(st, st')
                  && OthersAfter(st, st'))
  {
    hide QueuesOk, BlockedOk, SynchOk, Sleep;
    EnoughLinks(st);
    var lock := st.locks[k];
    if Contended(st, k) {
      var st1 := st.(freeLinks := st.freeLinks - 1,
                     locks := st.locks[k := lock.(waiting := lock.waiting + [st.current])]);
      SameQueues(st, st1);
      SleepMoves(st1, c);
    }
  }

  lemma ReleaseGoesOn(st: State, h: int)
    requires Ready(st) && st.cont[st.current] == User
    ensures GoesOn(st, LockReleaseTrap(h), Handle(st, LockReleaseTrap(h)))
  {
    hide QueuesOk, BlockedOk, SynchOk, GoesOn, HandOff;
    assert st.cont[st.current := User] == st.cont;
    var st' := Handle(st, LockReleaseTrap(h));
    if GoodLock(st, h) && st.locks[h].pid == st.current && st.locks[h].waiting != [] {
      HandOffMoves(st, h);
      WokenGoesOn(st, LockReleaseTrap(h), st', st.locks[h].waiting[0]);
    } else {
      if GoodLock(st, h) && st.locks[h].waiting == [] { HandOffFrees(st, h); }
      NothingMoves(st, LockReleaseTrap(h), st');
    }
  }

  lemma CondWaitGoesOn(st: State, h: int)
    requires Ready(st) && st.cont[st.current] == User
    ensures GoesOn(st, CondWaitTrap(h), Handle(st, CondWaitTrap(h)))
  {
    hide Ready, CondWait;
    if !GoodCond(st, h) {
      BadHandleGoesOn(st, CondWaitTrap(h));
    } else if !OwnsLockOf(st, h) {
      CondWaitRefused(st, h);
      BadHandleGoesOn(st, CondWaitTrap(h));
    } else if st.locks[st.conds[h].lock].waiting == [] {
      LastWaiterGoesOn(st, h);
    } else {
      PassingOnGoesOn(st, h);
    }
  }

  // A trap that is refused.
  lemma BadHandleGoesOn(st: State, t: Trap)
    requires Ready(st) && st.cont[st.current] == User && t.CondWaitTrap?
    requires !GoodCond(st, t.h) || !OwnsLockOf(st, t.h)
    ensures GoesOn(st, t, Finish(st, CondWaitCall(t.h), SYNC_FAIL))
  {
    hide QueuesOk, BlockedOk, SynchOk;
  }

  lemma LastWaiterGoesOn(st: State, h: int)
    requires Ready(st) && st.cont[st.current] == User && GoodCond(st, h) && OwnsLockOf(st, h)
    requires st.locks[st.conds[h].lock].waiting == []
    ensures GoesOn(st, CondWaitTrap(h), CondWait(st, h))
  {
    hide QueuesOk, BlockedOk, SynchOk, CondWait;
    CondWaitAlone(st, h);
  }

  lemma PassingOnGoesOn(st: State, h: int)
    requires Ready(st) && st.cont[st.current] == User && GoodCond(st, h) && OwnsLockOf(st, h)
    requires st.locks[st.conds[h].lock].waiting != []
    ensures GoesOn(st, CondWaitTrap(h), CondWait(st, h))
  {
    hide QueuesOk, BlockedOk, SynchOk, CondWait, Minus;
    CondWaitPasses(st, h);
    assert (st.runQueue + [st.locks[st.conds[h].lock].waiting[0]])[1..]
           == st.runQueue[1..] + [st.locks[st.conds[h].lock].waiting[0]];
  }

  lemma SignalGoesOn(st: State, t: Trap)
    requires Ready(st) && st.cont[st.current] == User && (t.CondSignalTrap? || t.CondBroadcastTrap?)
    ensures GoesOn(st, t, Handle(st, t))
  {
    hide QueuesOk, BlockedOk, SynchOk, GoesOn, WakeFirst;
    assert st.cont[st.current := User] == st.cont;
    if GoodCond(st, t.h) && OwnsLockOf(st, t.h) {
      if st.conds[t.h].waiting == [] {
        NobodyToWake(st, t.h);
        NothingMoves(st, t, Handle(st, t));
      } else {
        WakingGoesOn(st, t);
      }
    } else {
      NothingMoves(st, t, Handle(st, t));
    }
  }

  lemma WakingGoesOn(st: State, t: Trap)
    requires Ready(st) && st.cont[st.current] == User && (t.CondSignalTrap? || t.CondBroadcastTrap?)
    requires GoodCond(st, t.h) && OwnsLockOf(st, t.h) && st.conds[t.h].waiting != []
    ensures GoesOn(st, t, Handle(st, t))
  {
    hide QueuesOk, BlockedOk, SynchOk, GoesOn, WakeFirst, Minus;
    assert st.cont[st.current := User] == st.cont;
    WakeFirstMoves(st, t.h);
    WokenGoesOn(st, t, Handle(st, t), st.conds[t.h].waiting[0]);
  }

  lemma NobodyToWake(st: State, c: CondId)
    requires st.conds[c].waiting == []
    ensures WakeFirst(st, c) == st
  {
  }

  lemma YieldGoesOn(st: State)
    requires Ready(st) && st.cont[st.current] == User
    ensures GoesOn(st, Yield, Handle(st, Yield))
  {
    hide QueuesOk, BlockedOk, SynchOk, Schedule;
    EnoughLinks(st);
    NoZombies(st);
    ScheduleMoves(st);
  }

  lemma ExitGoesOn(st: State)
    requires Ready(st) && st.cont[st.current] == User
    ensures GoesOn(st, Exit, Handle(st, Exit))
  {
    hide QueuesOk, BlockedOk, SynchOk, Schedule, Destroy, Minus;
    EnoughLinks(st);
    NoZombies(st);
    DestroyMoves(st, st.current);
    RunHeadLeaves(st);
    var st1 := Destroy(st, st.current);
    if st1.runQueue == [] { StopsWhenIdle(st1); } else { ScheduleMoves(st1); }
  }

  lemma SleepGoesOn(st: State)
    requires Ready(st) && st.cont[st.current] == User
    ensures GoesOn(st, SleepTrap, Handle(st, SleepTrap))
  {
    hide QueuesOk, BlockedOk, SynchOk, Sleep;
    EnoughLinks(st);
    SleepMoves(st, User);
  }

  lemma RunHeadLeaves(st: State)
    requires QueuesOk(st) && st.runQueue != []
    ensures Minus(st.runQueue, st.runQueue[0]) == st.runQueue[1..]
  {
  }

  lemma ForkGoesOn(st: State, found: bool)
    requires Ready(st) && st.cont[st.current] == User
    ensures GoesOn(st, Create(found), Handle(st, Create(found)))
  {
    hide Ready, GoesOn, Fork, Handle;
    if st.freepcbs == [] {
      ForkStops(st, found);
    } else if found {
      NewProcessGoesOn(st);
    } else {
      FailedForkGoesOn(st);
    }
  }

  lemma ForkStops(st: State, found: bool)
    requires Ready(st) && st.cont[st.current] == User && st.freepcbs == []
    ensures GoesOn(st, Create(found), Handle(st, Create(found)))
  {
    hide QueuesOk, BlockedOk, SynchOk, Fork;
    NoControlBlock(st, found);
  }

  lemma FailedForkGoesOn(st: State)
    requires Ready(st) && st.cont[st.current] == User && st.freepcbs != []
    ensures GoesOn(st, Create(false), Handle(st, Create(false)))
  {
    hide QueuesOk, BlockedOk, SynchOk, Fork;
    EnoughLinks(st);
    ForkFailsMoves(st);
  }

  lemma NewProcessGoesOn(st: State)
    requires Ready(st) && st.cont[st.current] == User && st.freepcbs != []
    ensures GoesOn(st, Create(true), Handle(st, Create(true)))
  {
    hide QueuesOk, BlockedOk, SynchOk, Fork;
    EnoughLinks(st);
    ForkMoves(st);
  }

  lemma NoControlBlock(st: State, found: bool)
    requires st.freepcbs == []
    ensures Fork(st, found).halted
  {
  }

  lemma HandleGoesOn(st: State, t: Trap)
    requires Ready(st) && st.cont[st.current] == User && Allowed(st, t)
    ensures GoesOn(st, t, Handle(st, t))
  {
    hide Ready, GoesOn, Handle;
    match t
    case Yield => YieldGoesOn(st);
    case Exit => ExitGoesOn(st);
    case Create(found) => ForkGoesOn(st, found);
    case SleepTrap => SleepGoesOn(st);
    case UnknownTrap => PlainGoesOn(st, t);
    case OtherTrap(_) => PlainGoesOn(st, t);
    case SemCreateTrap(_) => PlainGoesOn(st, t);
    case SemWaitTrap(h) => SemWaitGoesOn(st, h);
    case SemSignalTrap(h) => SemSignalGoesOn(st, h);
    case LockCreateTrap => PlainGoesOn(st, t);
    case LockAcquireTrap(h) => AcquireTrapGoesOn(st, h);
    case LockReleaseTrap(h) => ReleaseGoesOn(st, h);
    case CondCreateTrap(_) => PlainGoesOn(st, t);
    case CondWaitTrap(h) => CondWaitGoesOn(st, h);
    case CondSignalTrap(_) => SignalGoesOn(st, t);
    case CondBroadcastTrap(_) => SignalGoesOn(st, t);
  }

  // Traps that move no process.
  lemma PlainGoesOn(st: State, t: Trap)
    requires Ready(st) && st.cont[st.current] == User && Allowed(st, t)
    requires t.UnknownTrap? || t.OtherTrap? || t.SemCreateTrap? || t.LockCreateTrap? || t.CondCreateTrap?
    ensures GoesOn(st, t, Handle(st, t))
  {
    hide QueuesOk, BlockedOk, SynchOk, GoesOn, SemsUsed, LocksUsed, CondsUsed, FirstIdle;
    if !t.UnknownTrap? {
      assert st.cont[st.current := User] == st.cont;
      NothingMoves(st, t, Handle(st, t));
    } else {
      UnknownStops(st);
    }
  }

  lemma UnknownStops(st: State)
    requires Ready(st) && st.cont[st.current] == User
    ensures GoesOn(st, UnknownTrap, Halt(st))
  {
    hide QueuesOk, BlockedOk, SynchOk;
  }

  lemma NothingMoves(st: State, t: Trap, st': State)
    requires Ready(st) && st.cont[st.current] == User
    requires !Stops(st, t) && !Reschedules(st, t) && t != SleepTrap && t != Exit && !t.Create?
    requires st'.runQueue == st.runQueue && st'.flags == st.flags && st'.cont == st.cont && !st'.halted
    ensures GoesOn(st, t, st')
  {
    hide QueuesOk, BlockedOk, SynchOk;
  }

  lemma AcquireTrapGoesOn(st: State, h: int)
    requires Ready(st) && st.cont[st.current] == User
    ensures GoesOn(st, LockAcquireTrap(h), Handle(st, LockAcquireTrap(h)))
  {
    hide QueuesOk, BlockedOk, SynchOk, LockAcquire;
    if GoodLock(st, h) { AcquireGoesOn(st, h, InLockAcquire(h), LockAcquireCall(h)); }
  }

  // The machine stops exactly when there is nothing to run, no control block for a new process, or an unknown trap.
  // Links never run out. Otherwise the run queue advances by one place for each reschedule, and nobody overtakes.
  lemma StepGoesOn(st: State, t: Trap)
    requires Inv(st) && !st.halted && Allowed(st, t)
    ensures Step(st, t).halted <==> Stops(st, t)
    ensures !Step(st, t).halted ==> Advances(st, Step(st, t), Reschedules(st, t))
    ensures !Step(st, t).halted ==>
              DozersAfter(st, t, Step(st, t)) && FreeAfter(st, t, Step(st, t)) && OthersAfter(st, Step(st, t))
  {
    hide Inv, QueuesOk, BlockedOk, SynchOk, Handle, Resume, Stops, Reschedules, Advances, DozersAfter, FreeAfter,
      OthersAfter;
    var st1 := st.(ret := NoReturn);
    Quiet(st);
    CurrentRuns(st1);
    ReturnIsIrrelevant(st, t, Step(st, t));
    if st.cont[st.current] == User { HandleGoesOn(st1, t); } else { ResumeGoesOn(st1, t); }
  }

  lemma ResumeGoesOn(st: State, t: Trap)
    requires Ready(st) && st.cont[st.current] != User
    ensures GoesOn(st, t, Resume(st))
  {
    hide Ready, GoesOn, LockAcquire, Finish;
    match st.cont[st.current]
    case InCondWait(c) => ReacquiringGoesOn(st, t, c);
    case InSemWait(s) => BackInUserCode(st, t, SemWaitCall(s));
    case InLockAcquire(k) => BackInUserCode(st, t, LockAcquireCall(k));
    case InCondLock(c) => BackInUserCode(st, t, CondWaitCall(c));
  }

  lemma ReacquiringGoesOn(st: State, t: Trap, c: CondId)
    requires Ready(st) && st.cont[st.current] == InCondWait(c)
    ensures GoesOn(st, t, LockAcquire(st, st.conds[c].lock, InCondLock(c), CondWaitCall(c)))
  {
    hide QueuesOk, BlockedOk, SynchOk, LockAcquire;
    AcquireGoesOn(st, st.conds[c].lock, InCondLock(c), CondWaitCall(c));
  }

  lemma BackInUserCode(st: State, t: Trap, call: Call)
    requires Ready(st) && st.cont[st.current] != User && !st.cont[st.current].InCondWait?
    ensures GoesOn(st, t, Finish(st, call, SYNC_SUCCESS))
  {
    hide QueuesOk, BlockedOk, SynchOk;
  }

  lemma ReturnIsIrrelevant(st: State, t: Trap, st': State)
    ensures var st1 := st.(ret := NoReturn);
            && Stops(st1, t) == Stops(st, t) && Reschedules(st1, t) == Reschedules(st, t)
            && (forall gives :: Advances(st1, st', gives) == Advances(st, st', gives))
            && DozersAfter(st1, t, st') == DozersAfter(st, t, st') && FreeAfter(st1, t, st') == FreeAfter(st, t, st')
            && OthersAfter(st1, st') == OthersAfter(st, st')
  {
    hide DozersAfter, FreeAfter, OthersAfter;
    CensusIgnoresReturn(st, t, st');
    OthersIgnoreReturn(st, st');
  }

  lemma OthersIgnoreReturn(st: State, st': State)
    ensures OthersAfter(st.(ret := NoReturn), st') == OthersAfter(st, st')
  {
    assert forall p: Pid :: OtherAfter(st.(ret := NoReturn), st', p) == OtherAfter(st, st', p);
  }

  lemma CensusIgnoresReturn(st: State, t: Trap, st': State)
    ensures var st1 := st.(ret := NoReturn);
            DozersAfter(st1, t, st') == DozersAfter(st, t, st') && FreeAfter(st1, t, st') == FreeAfter(st, t, st')
  {
    var st1 := st.(ret := NoReturn);
    assert DozesOff(st1, t) == DozesOff(st, t) && Creates(st1, t) == Creates(st, t) && Exits(st1, t) == Exits(st, t);
    assert forall p: Pid :: Dozes(st1, p) == Dozes(st, p);
  }

  lemma RunQueueStands(st: State)
    requires Inv(st) && !st.halted
    ensures st.runQueue != [] && st.runQueue[0] == st.current
  {
  }

  // ---- Bounded waiting ----

  function RescheduleCount(st: State, ts: seq<Trap>): nat
    requires AllAllowed(st, ts)
    decreases |ts|
  {
    if ts == [] then 0
    else (if Reschedules(st, ts[0]) then 1 else 0) + RescheduleCount(Step(st, ts[0]), ts[1..])
  }

  lemma {:induction false} HaltedStays(st: State, ts: seq<Trap>)
    requires AllAllowed(st, ts) && st.halted
    ensures Run(st, ts).halted
    decreases |ts|
  {
    if ts != [] { HaltedStays(Step(st, ts[0]), ts[1..]); }
  }

  // Whatever mix of yields, sleeps, exits, forks and wakeups occurs: the process at place i has moved up by exactly
  // the number of reschedules.
  lemma {:induction false} PlaceInLine(st: State, ts: seq<Trap>, i: nat)
    requires Inv(st) && AllAllowed(st, ts) && !Run(st, ts).halted
    requires RescheduleCount(st, ts) <= i < |st.runQueue|
    ensures i - RescheduleCount(st, ts) < |Run(st, ts).runQueue|
    ensures Run(st, ts).runQueue[i - RescheduleCount(st, ts)] == st.runQueue[i]
    decreases |ts|
  {
    hide Inv, Step, Allowed, Reschedules;
    if ts != [] {
      var st1 := Step(st, ts[0]);
      if st.halted { HaltedStays(st, ts); }
      if st1.halted { HaltedStays(st1, ts[1..]); }
      StepGoesOn(st, ts[0]);
      StepKeeps(st, ts[0]);
      var j := if Reschedules(st, ts[0]) then i - 1 else i;
      assert st1.runQueue[j] == st.runQueue[i];
      PlaceInLine(st1, ts[1..], j);
    }
  }

  // A runnable process with i others before it is the current process after exactly i reschedules.
  lemma EveryoneGetsATurn(st: State, ts: seq<Trap>, i: nat)
    requires Inv(st) && AllAllowed(st, ts) && !Run(st, ts).halted
    requires RescheduleCount(st, ts) == i < |st.runQueue|
    ensures Run(st, ts).current == st.runQueue[i]
  {
    hide Inv, Step, Allowed, Reschedules;
    PlaceInLine(st, ts, i);
    RunKeeps(st, ts);
    RunQueueStands(Run(st, ts));
  }
}
