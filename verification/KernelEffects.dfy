/** What one step does to the semaphores, locks and condition variables, whatever it does to the processes. */
module KernelEffects {
  import opened KernelState

  ghost predicate SameObjects(st: State, st': State) {
    st'.sems == st.sems && st'.locks == st.locks && st'.conds == st.conds && st'.ret == st.ret
  }

  // ---- Routines that move processes leave the synchronisation objects alone ----

  lemma {:induction false} DrainedObjects(st: State)
    ensures SameObjects(st, Drained(st))
    decreases |st.zombieQueue|
  {
    if st.zombieQueue != [] {
      var p := st.zombieQueue[0];
      MinusLength(st.zombieQueue, p);
      DrainedObjects(FreeResources(Unqueue(st, p), p));
    }
  }

  lemma ScheduleObjects(st: State)
    ensures SameObjects(st, Schedule(st))
  {
    hide Drained;
    if st.runQueue != [] {
      var q := if st.flags[st.current] == RUNNABLE then Rotated(st.runQueue) else st.runQueue;
      DrainedObjects(st.(runQueue := q, current := q[0]));
    }
  }

  lemma SuspendObjects(st: State, p: Pid)
    ensures SameObjects(st, Suspend(st, p))
  {
  }

  lemma WakeupObjects(st: State, p: Pid)
    ensures SameObjects(st, Wakeup(st, p))
  {
  }

  lemma DestroyObjects(st: State, p: Pid)
    ensures SameObjects(st, Destroy(st, p))
  {
  }

  lemma ForkObjects(st: State, found: bool)
    ensures SameObjects(st, Fork(st, found))
  {
  }

  lemma SleepObjects(st: State, c: Cont)
    ensures SameObjects(st, Sleep(st, c))
  {
    hide Schedule, Suspend;
    var st1 := st.(cont := st.cont[st.current := c]);
    SuspendObjects(st1, st.current);
    ScheduleObjects(Suspend(st1, st.current));
  }

  // ---- The objects after each routine ----

  function SemWaited(st: State, s: SemId): Sems {
    var sem := st.sems[s];
    st.sems[s := if sem.count <= 0 then sem.(waiting := sem.waiting + [st.current]) else sem.(count := sem.count - 1)]
  }

  function SemSignalled(st: State, s: SemId): Sems {
    var sem := st.sems[s];
    st.sems[s := if sem.count + 1 > 0 && sem.waiting != [] then sem.(waiting := sem.waiting[1..])
                 else sem.(count := sem.count + 1)]
  }

  function LockAsked(st: State, k: LockId): Locks {
    var lock := st.locks[k];
    if lock.pid == st.current then st.locks
    else if lock.pid >= 0 then st.locks[k := lock.(waiting := lock.waiting + [st.current])]
    else st.locks[k := lock.(pid := st.current)]
  }

  function LockPassed(st: State, k: LockId): Locks {
    var lock := st.locks[k];
    st.locks[k := if lock.waiting == [] then lock.(pid := -1) else Lock(lock.inuse, lock.waiting[0], lock.waiting[1..])]
  }

  function CondJoined(st: State, c: CondId): Conds {
    st.conds[c := st.conds[c].(waiting := st.conds[c].waiting + [st.current])]
  }

  function CondLeft(st: State, c: CondId): Conds {
    var cond := st.conds[c];
    if cond.waiting == [] then st.conds else st.conds[c := cond.(waiting := cond.waiting[1..])]
  }

  lemma SemWaitObjects(st: State, s: SemId)
    ensures var st' := SemWait(st, s); st'.sems == SemWaited(st, s) && st'.locks == st.locks && st'.conds == st.conds
    ensures SemWait(st, s).ret ==
      if st.sems[s].count <= 0 then st.ret else Returned(st.current, SemWaitCall(s), SYNC_SUCCESS)
  {
    hide Sleep;
    SleepObjects(TakeLink(st).(sems := SemWaited(st, s)), InSemWait(s));
  }

  lemma SemSignalObjects(st: State, s: SemId)
    ensures var st' := SemSignal(st, s);
            st'.sems == SemSignalled(st, s) && st'.locks == st.locks && st'.conds == st.conds
  {
    hide Wakeup;
    var sem := st.sems[s];
    if sem.count + 1 > 0 && sem.waiting != [] {
      WakeupObjects(GiveLink(st).(sems := SemSignalled(st, s)), sem.waiting[0]);
    }
  }

  lemma LockAcquireObjects(st: State, k: LockId, c: Cont, call: Call)
    ensures var st' := LockAcquire(st, k, c, call);
            st'.locks == LockAsked(st, k) && st'.sems == st.sems && st'.conds == st.conds
    ensures LockAcquire(st, k, c, call).ret
            == if st.locks[k].pid >= 0 && st.locks[k].pid != st.current then st.ret
               else Returned(st.current, call, SYNC_SUCCESS)
  {
    hide Sleep;
    SleepObjects(TakeLink(st).(locks := LockAsked(st, k)), c);
  }

  lemma HandOffObjects(st: State, k: LockId)
    ensures var st' := HandOff(st, k);
            st'.locks == LockPassed(st, k) && st'.sems == st.sems && st'.conds == st.conds && st'.ret == st.ret
  {
    hide Wakeup;
    if st.locks[k].waiting != [] {
      WakeupObjects(GiveLink(st).(locks := LockPassed(st, k)), st.locks[k].waiting[0]);
    }
  }

  lemma CondWaitObjects(st: State, c: CondId)
    ensures var st' := CondWait(st, c);
            && st'.sems == st.sems
            && st'.locks == (if OwnsLockOf(st, c) then LockPassed(st, st.conds[c].lock) else st.locks)
            && st'.conds == (if OwnsLockOf(st, c) then CondJoined(st, c) else st.conds)
            && st'.ret == (if OwnsLockOf(st, c) then st.ret else Returned(st.current, CondWaitCall(c), SYNC_FAIL))
  {
    hide Sleep, HandOff;
    if OwnsLockOf(st, c) {
      var st1 := TakeLink(st).(conds := CondJoined(st, c));
      HandOffObjects(st1, st.conds[c].lock);
      SleepObjects(HandOff(st1, st.conds[c].lock), InCondWait(c));
    }
  }

  lemma WakeFirstObjects(st: State, c: CondId)
    ensures var st' := WakeFirst(st, c);
            st'.conds == CondLeft(st, c) && st'.sems == st.sems && st'.locks == st.locks && st'.ret == st.ret
  {
    hide Wakeup;
    if st.conds[c].waiting != [] {
      WakeupObjects(GiveLink(st).(conds := CondLeft(st, c)), st.conds[c].waiting[0]);
    }
  }

  // ---- The objects after a step ----

  // The current process is in user code and its trap is taken.
  predicate Takes(st: State) { !st.halted && st.cont[st.current] == User }

  // The current process finishes CondWait by asking for the lock again.
  predicate Reacquires(st: State) { !st.halted && st.cont[st.current].InCondWait? }

  function SemsAfter(st: State, t: Trap): Sems {
    if !Takes(st) then st.sems
    else match t
      case SemCreateTrap(count) =>
        var s := FirstIdle(SemsUsed(st.sems));
        if s == MAX_SEMS then st.sems else st.sems[s := Sem(true, count, [])]
      case SemWaitTrap(h) => if GoodSem(st, h) then SemWaited(st, h) else st.sems
      case SemSignalTrap(h) => if GoodSem(st, h) then SemSignalled(st, h) else st.sems
      case _ => st.sems
  }

  function LocksAfter(st: State, t: Trap): Locks {
    if Reacquires(st) then LockAsked(st, st.conds[st.cont[st.current].cond].lock)
    else if !Takes(st) then st.locks
    else match t
      case LockCreateTrap =>
        var k := FirstIdle(LocksUsed(st.locks));
        if k == MAX_LOCKS then st.locks else st.locks[k := Lock(true, -1, [])]
      case LockAcquireTrap(h) => if GoodLock(st, h) then LockAsked(st, h) else st.locks
      case LockReleaseTrap(h) =>
        if GoodLock(st, h) && st.locks[h].pid == st.current then LockPassed(st, h) else st.locks
      case CondWaitTrap(h) => if GoodCond(st, h) && OwnsLockOf(st, h) then LockPassed(st,
          st.conds[h].lock) else st.locks
      case _ => st.locks
  }

  function CondsAfter(st: State, t: Trap): Conds
    requires Allowed(st, t)
  {
    if !Takes(st) then st.conds
    else match t
      case CondCreateTrap(lock) =>
        var c := FirstIdle(CondsUsed(st.conds));
        if lock < 0 then st.conds
        else if c == MAX_CONDS then st.conds[c := st.conds[c].(inuse := true)]
        else st.conds[c := Cond(true, lock, [])]
      case CondWaitTrap(h) => if GoodCond(st, h) && OwnsLockOf(st, h) then CondJoined(st, h) else st.conds
      case CondSignalTrap(h) => if GoodCond(st, h) && OwnsLockOf(st, h) then CondLeft(st, h) else st.conds
      case CondBroadcastTrap(h) => if GoodCond(st, h) && OwnsLockOf(st, h) then CondLeft(st, h) else st.conds
      case _ => st.conds
  }

  lemma HandleObjects(st: State, t: Trap)
    requires Allowed(st, t) && Takes(st)
    ensures Handle(st, t).sems == SemsAfter(st, t)
    ensures Handle(st, t).locks == LocksAfter(st, t)
    ensures Handle(st, t).conds == CondsAfter(st, t)
  {
    hide Schedule, Destroy, Fork, Sleep, SemWait, SemSignal, LockAcquire, HandOff, CondWait, WakeFirst,
      LockPassed, LockAsked, SemWaited, SemSignalled, CondJoined, CondLeft;
    match t
    case Yield => ScheduleObjects(st);
    case Exit => DestroyObjects(st, st.current); ScheduleObjects(Destroy(st, st.current));
    case Create(found) => ForkObjects(st, found);
    case SleepTrap => SleepObjects(st, User);
    case SemWaitTrap(h) => if GoodSem(st, h) { SemWaitObjects(st, h); }
    case SemSignalTrap(h) => if GoodSem(st, h) { SemSignalObjects(st, h); }
    case LockAcquireTrap(h) => if GoodLock(st, h) { LockAcquireObjects(st, h, InLockAcquire(h), LockAcquireCall(h)); }
    case LockReleaseTrap(h) => if GoodLock(st, h) { HandOffObjects(st, h); }
    case CondWaitTrap(h) => if GoodCond(st, h) { CondWaitObjects(st, h); }
    case CondSignalTrap(h) => if GoodCond(st, h) { WakeFirstObjects(st, h); }
    case CondBroadcastTrap(h) => if GoodCond(st, h) { WakeFirstObjects(st, h); }
    case _ =>
  }

  lemma StepObjects(st: State, t: Trap)
    requires Allowed(st, t)
    ensures Step(st, t).sems == SemsAfter(st, t)
    ensures Step(st, t).locks == LocksAfter(st, t)
    ensures Step(st, t).conds == CondsAfter(st, t)
  {
    hide Handle, LockAcquire;
    var st1 := st.(ret := NoReturn);
    if Takes(st) {
      HandleObjects(st1, t);
    } else if Reacquires(st) {
      var c := st.cont[st.current].cond;
      LockAcquireObjects(st1, st.conds[c].lock, InCondLock(c), CondWaitCall(c));
    }
  }
}
