/** What processes may rely on: the partition of processes, ownership on return from a lock, first come first served,
    the closed form of a semaphore, condition variables that lose no wakeup. */
module KernelProtocols {
  import opened KernelState
  import opened KernelInvariant
  import opened KernelRuns
  import opened KernelEffects
  import opened KernelFairness

  // ---- The whole kernel, after every trap of every run from boot ----

  predicate OnExactly(st: State, p: Pid) {
    && (p in st.freepcbs <==> st.flags[p] == FREE)
    && (p in st.runQueue <==> st.flags[p] == RUNNABLE)
    && (p in st.waitQueue <==> st.flags[p] == WAITING)
    && p !in st.zombieQueue
  }

  // Every process is on the one queue its status names; a waiting process is on exactly one waiting queue if it fell
  // asleep inside a trap, and on none if it took the sleep trap itself, and no other process is on any; no queue holds
  // a process twice; the links in use are one for each process and one more for each asleep inside a trap; no
  // assertion has failed; the current process is the head of the run queue.
  lemma EveryProcessHasItsPlace(ts: seq<Trap>)
    requires AllAllowed(Boot(), ts)
    ensures var st := Run(Boot(), ts);
            !st.halted ==>
              && (forall p: Pid :: OnExactly(st, p))
              && (forall p: Pid, w :: p in WaitingAt(st, w) <==> w != Nowhere && w == Where(st, p))
              && (forall p: Pid ::
                    (exists w :: p in WaitingAt(st, w)) <==> st.flags[p] == WAITING && st.cont[p] != User)
              && (forall w :: NoDup(WaitingAt(st, w)))
              && MAX_LINKS - st.freeLinks == MAX_PROCS + |Blocked(st.flags, st.cont)| <= 2 * MAX_PROCS
              && !st.complained
              && st.runQueue != [] && st.current == st.runQueue[0]
  {
    hide Run, Boot, Inv, OnExactly, NoDup, Blocked;
    BootIsSound();
    RunKeeps(Boot(), ts);
    var st := Run(Boot(), ts);
    if !st.halted {
      QueuesInPlace(st);
      WaitersInPlace(st);
    }
  }

  // ---- The sleep trap, taken by a user program ----

  ghost predicate TookSleepTrap(st: State, ts: seq<Trap>, p: Pid)
    requires AllAllowed(st, ts)
    decreases |ts|
  {
    ts != [] && ((DozesOff(st, ts[0]) && st.current == p) || TookSleepTrap(Step(st, ts[0]), ts[1..], p))
  }

  // Who dozes after a run dozed before it or took that trap on the way; so nothing ever wakes such a process.
  lemma {:induction false} DozersAre(st: State, ts: seq<Trap>, p: Pid)
    requires Inv(st) && AllAllowed(st, ts) && !Run(st, ts).halted
    ensures Dozes(Run(st, ts), p) <==> Dozes(st, p) || TookSleepTrap(st, ts, p)
    decreases |ts|
  {
    hide Inv, Step, Allowed, Dozes, DozesOff;
    if ts != [] {
      var st1 := Step(st, ts[0]);
      if st.halted { HaltedStays(st, ts); }
      if st1.halted { HaltedStays(st1, ts[1..]); }
      StepGoesOn(st, ts[0]);
      StepKeeps(st, ts[0]);
      DozersAre(st1, ts[1..], p);
    }
  }

  // After any run from boot: the processes that wait on no waiting queue at all are those that took the sleep trap.
  lemma WaitsNowhereIff(ts: seq<Trap>, p: Pid)
    requires AllAllowed(Boot(), ts)
    ensures var st := Run(Boot(), ts);
            !st.halted ==>
              ((st.flags[p] == WAITING && forall w :: p !in WaitingAt(st, w)) <==> TookSleepTrap(Boot(), ts, p))
  {
    hide Run, Inv, TookSleepTrap;
    BootIsSound();
    RunKeeps(Boot(), ts);
    if !Run(Boot(), ts).halted {
      DozersAre(Boot(), ts, p);
      WaitersInPlace(Run(Boot(), ts));
    }
  }

  // From any point of any run: it stays asleep, whatever anyone does.
  lemma NeverWoken(st: State, ts: seq<Trap>, p: Pid)
    requires Inv(st) && AllAllowed(st, ts) && Dozes(st, p)
    ensures var st' := Run(st, ts);
            !st'.halted ==> st'.flags[p] == WAITING && p !in st'.runQueue && forall w :: p !in WaitingAt(st', w)
  {
    hide Run, Inv, TookSleepTrap;
    RunKeeps(st, ts);
    if !Run(st, ts).halted {
      DozersAre(st, ts, p);
      QueuesInPlace(Run(st, ts));
      WaitersInPlace(Run(st, ts));
      assert OnExactly(Run(st, ts), p);
    }
  }

  lemma QueuesInPlace(st: State)
    requires Inv(st) && !st.halted
    ensures forall p: Pid :: OnExactly(st, p)
    ensures MAX_LINKS - st.freeLinks == MAX_PROCS + |Blocked(st.flags, st.cont)| <= 2 * MAX_PROCS && !st.complained
    ensures st.runQueue != [] && st.current == st.runQueue[0]
  {
    hide BlockedOk, SynchOk;
    EnoughLinks(st);
  }

  lemma WaitersInPlace(st: State)
    requires Inv(st) && !st.halted
    ensures forall p: Pid, w :: p in WaitingAt(st, w) <==> w != Nowhere && w == Where(st, p)
    ensures forall p: Pid :: (exists w :: p in WaitingAt(st, w)) <==> st.flags[p] == WAITING && st.cont[p] != User
    ensures forall w :: NoDup(WaitingAt(st, w))
  {
    hide QueuesOk, SynchOk;
    forall p: Pid, w
      ensures p in WaitingAt(st, w) <==> w != Nowhere && w == Where(st, p)
    {
      if p in WaitingAt(st, w) { assert Where(st, p) == w != Nowhere; }
    }
    forall p: Pid
      ensures (exists w :: p in WaitingAt(st, w)) <==> st.flags[p] == WAITING && st.cont[p] != User
    {
      if w :| p in WaitingAt(st, w) { assert Where(st, p) == w != Nowhere; }
      if st.flags[p] == WAITING && st.cont[p] != User { assert p in WaitingAt(st, Where(st, p)); }
    }
  }

  // ---- Locks ----

  // A free lock has no waiters, and an owner does not wait for its own lock.
  lemma LocksAreInOrder(ts: seq<Trap>, k: LockId)
    requires AllAllowed(Boot(), ts)
    ensures var st := Run(Boot(), ts); var lock := st.locks[k];
            !st.halted ==>
              && (lock.pid == -1 ==> lock.waiting == [])
              && (lock.pid >= 0 ==> lock.pid < MAX_PROCS && lock.pid !in lock.waiting)
  {
    hide Run, Boot;
    BootIsSound();
    RunKeeps(Boot(), ts);
  }

  lemma FinishedAcquire(st: State)
    requires Ready(st)
    ensures Acquired(st, st.current) && UsesOnly(st, st.cont[st.current])
  {
  }

  ghost predicate OwnerReturns(st: State) {
    match st.ret
    case Returned(p, LockAcquireCall(k), code) =>
      code == SYNC_SUCCESS ==> 0 <= k < MAX_LOCKS && st.locks[k].pid == p
    case Returned(p, CondWaitCall(c), code) =>
      code == SYNC_SUCCESS ==> 0 <= c < MAX_CONDS && st.locks[st.conds[c].lock].pid == p
    case _ => true
  }

  // LockAcquire and CondWait report success only to the process that owns the lock at that moment, whatever happened
  // while it slept.
  lemma SuccessMeansOwner(st: State, t: Trap)
    requires Inv(st) && !st.halted && Allowed(st, t)
    ensures OwnerReturns(Step(st, t))
  {
    hide Inv, QueuesOk, BlockedOk, SynchOk, Handle, Resume;
    var st1 := st.(ret := NoReturn);
    Quiet(st);
    CurrentRuns(st1);
    if st1.cont[st1.current] != User { ResumeReturns(st1); } else { HandleReturns(st1, t); }
  }

  lemma ResumeReturns(st: State)
    requires Ready(st) && st.ret == NoReturn && st.cont[st.current] != User
    ensures OwnerReturns(Resume(st))
  {
    hide QueuesOk, BlockedOk, SynchOk, LockAcquire;
    FinishedAcquire(st);
    match st.cont[st.current]
    case InCondWait(c) => LockAcquireObjects(st, st.conds[c].lock, InCondLock(c), CondWaitCall(c));
    case _ =>
  }

  lemma HandleReturns(st: State, t: Trap)
    requires Allowed(st, t) && st.ret == NoReturn
    ensures OwnerReturns(Handle(st, t))
  {
    hide Schedule, Destroy, Fork, Sleep, SemWait, LockAcquire, HandOff, CondWait, WakeFirst, Wakeup;
    match t
    case Yield => ScheduleObjects(st);
    case Exit => DestroyObjects(st, st.current); ScheduleObjects(Destroy(st, st.current));
    case Create(found) => ForkObjects(st, found);
    case SleepTrap => SleepObjects(st, User);
    case SemWaitTrap(h) => if GoodSem(st, h) { SemWaitObjects(st, h); }
    case LockAcquireTrap(h) => if GoodLock(st, h) { LockAcquireObjects(st, h, InLockAcquire(h), LockAcquireCall(h)); }
    case CondWaitTrap(h) => if GoodCond(st, h) { CondWaitObjects(st, h); }
    case _ =>
  }

  // After any run from boot: a lock that was never made has no waiters and no owner but process 0, and for a condition
  // with such a lock at most process 0 waits; while anyone passes for the owner nobody does, so no signal wakes anyone.
  lemma UnmadeLocksServeNobody(ts: seq<Trap>, c: CondId)
    requires AllAllowed(Boot(), ts)
    ensures var st := Run(Boot(), ts); var lock := st.locks[st.conds[c].lock];
            !st.halted && !lock.inuse ==>
              && -1 <= lock.pid <= 0 && lock.waiting == []
              && (st.conds[c].waiting == []
                  || (st.conds[c].waiting == [0] && lock.pid == -1 && st.cont[0] == InCondWait(c)))
              && (OwnsLockOf(st, c) ==> st.current == 0 && st.conds[c].waiting == [])
  {
    hide Run, Boot, QueuesOk;
    BootIsSound();
    RunKeeps(Boot(), ts);
    var st := Run(Boot(), ts);
    if !st.halted && !st.locks[st.conds[c].lock].inuse {
      assert LockOk(st.locks[st.conds[c].lock]);
      OnlyProcessZero(st, c);
    }
  }

  lemma OnlyProcessZero(st: State, c: CondId)
    requires BlockedOk(st) && SynchOk(st) && !st.locks[st.conds[c].lock].inuse
    ensures var ws := st.conds[c].waiting;
            ws == [] || (ws == [0] && st.locks[st.conds[c].lock].pid == -1 && st.cont[0] == InCondWait(c))
  {
    var ws := st.conds[c].waiting;
    assert UnmadeOk(st.locks[st.conds[c].lock], ws) && ws == WaitingAt(st, OnCond(c));
    if ws != [] {
      OnlyOneZero(ws);
      assert Where(st, 0) == OnCond(c);
    }
  }

  lemma OnlyOneZero(q: seq<Pid>)
    requires NoDup(q) && q != [] && forall p :: p in q ==> p == 0
    ensures q == [0]
  {
    var j := if |q| > 1 then 1 else 0;
    assert q[0] in q && q[j] in q;
  }

  // ---- Mutual exclusion ----

  // Process p does not run in any step of the run.
  ghost predicate DoesNotRun(st: State, ts: seq<Trap>, p: Pid)
    requires AllAllowed(st, ts)
    decreases |ts|
  {
    ts == [] || (st.current != p && DoesNotRun(Step(st, ts[0]), ts[1..], p))
  }

  // Only its owner lets go of a lock: whatever the others do, for as long as the owner does not run the lock stays
  // with it, and those who wait go on waiting. That is so even when the owner has exited.
  lemma {:induction false} OnlyTheOwnerLetsGo(st: State, ts: seq<Trap>, k: LockId, p: Pid)
    requires AllAllowed(st, ts) && st.locks[k].inuse && st.locks[k].pid == p && DoesNotRun(st, ts, p)
    ensures var lock := Run(st, ts).locks[k];
            lock.inuse && lock.pid == p && st.locks[k].waiting <= lock.waiting
    decreases |ts|
  {
    hide Step, Allowed;
    if ts != [] {
      OthersLeaveIt(st, ts[0], k);
      OnlyTheOwnerLetsGo(Step(st, ts[0]), ts[1..], k, p);
    }
  }

  lemma OthersLeaveIt(st: State, t: Trap, k: LockId)
    requires Allowed(st, t) && st.locks[k].inuse && st.locks[k].pid >= 0 && st.locks[k].pid != st.current
    ensures var lock, lock' := st.locks[k], Step(st, t).locks[k];
            lock'.inuse && lock'.pid == lock.pid && lock.waiting <= lock'.waiting
  {
    hide Step, LocksAfter, AsksForLock, LockPassed;
    StepObjects(st, t);
    LockCases(st, t, k);
  }

  lemma ExitKeepsTheLocks(st: State)
    requires Takes(st)
    ensures Step(st, Exit).locks == st.locks
  {
    hide Step;
    StepObjects(st, Exit);
  }

  // ---- First come, first served ----

  // What an observer notes of a queue: who asked, in order, and who was served, in order.
  datatype Ledger = Ledger(asked: seq<Pid>, served: seq<Pid>)

  // The processes that a step without a reschedule made runnable.
  function Newcomers(st: State, st': State): seq<Pid> {
    if |st'.runQueue| > |st.runQueue| then st'.runQueue[|st.runQueue|..] else []
  }

  // -- locks --

  predicate AsksForLock(st: State, t: Trap, k: LockId) {
    && st.locks[k].pid != st.current
    && ((Takes(st) && t == LockAcquireTrap(k) && st.locks[k].inuse)
        || (Reacquires(st) && st.conds[st.cont[st.current].cond].lock == k))
  }

  function LockNoted(n: Ledger, st: State, t: Trap, st': State, k: LockId): Ledger {
    if !st.locks[k].inuse && st'.locks[k].inuse then Ledger([], [])
    else Ledger(if AsksForLock(st, t, k) then n.asked + [st.current] else n.asked,
                if 0 <= st'.locks[k].pid < MAX_PROCS && st'.locks[k].pid != st.locks[k].pid
                then n.served + [st'.locks[k].pid] else n.served)
  }

  // Those who asked are those who were served, in the same order, followed by those who wait; the owner is the one
  // served last.
  ghost predicate LockLaw(lock: Lock, n: Ledger) {
    lock.inuse ==>
      && n.asked == n.served + lock.waiting
      && (lock.pid >= 0 ==> n.served != [] && n.served[|n.served| - 1] == lock.pid)
  }

  lemma LockLawAsked(n: Ledger, lock: Lock, p: Pid)
    requires LockOk(lock) && lock.inuse && LockLaw(lock, n) && lock.pid != p
    ensures lock.pid >= 0 ==> LockLaw(lock.(waiting := lock.waiting + [p]), n.(asked := n.asked + [p]))
    ensures lock.pid < 0 ==> LockLaw(lock.(pid := p), Ledger(n.asked + [p], n.served + [p]))
  {
  }

  lemma LockLawPassed(n: Ledger, lock: Lock)
    requires LockOk(lock) && lock.inuse && LockLaw(lock, n)
    ensures lock.waiting == [] ==> LockLaw(lock.(pid := -1), n)
    ensures lock.waiting != [] ==>
              LockLaw(Lock(true, lock.waiting[0], lock.waiting[1..]), n.(served := n.served + [lock.waiting[0]]))
  {
    if lock.waiting != [] { assert lock.waiting == [lock.waiting[0]] + lock.waiting[1..]; }
  }

  predicate LetsGo(st: State, t: Trap, k: LockId) {
    && Takes(st) && st.locks[k].pid == st.current
    && (t == LockReleaseTrap(k) || (t.CondWaitTrap? && GoodCond(st, t.h) && st.conds[t.h].lock == k))
  }

  // What a step does to one lock in use.
  lemma LockCases(st: State, t: Trap, k: LockId)
    requires st.locks[k].inuse
    ensures var lock := st.locks[k];
            LocksAfter(st, t)[k] ==
              if AsksForLock(st, t, k)
              then (if lock.pid >= 0 then lock.(waiting := lock.waiting + [st.current]) else lock.(pid := st.current))
              else if LetsGo(st, t, k) then LockPassed(st, k)[k] else lock
    ensures AsksForLock(st, t, k) ==> !LetsGo(st, t, k)
  {
  }

  lemma NewLockIsFree(st: State, t: Trap, k: LockId)
    requires !st.locks[k].inuse
    ensures LocksAfter(st, t)[k].inuse ==> LocksAfter(st, t)[k] == Lock(true, -1, [])
  {
  }

  lemma LockLawStep(n: Ledger, st: State, t: Trap, k: LockId)
    requires Inv(st) && !st.halted && Allowed(st, t) && LockLaw(st.locks[k], n)
    ensures LockLaw(Step(st, t).locks[k], LockNoted(n, st, t, Step(st, t), k))
  {
    hide QueuesOk, BlockedOk, SynchOk, Step, LocksAfter, AsksForLock, LetsGo;
    var lock := st.locks[k];
    StepObjects(st, t);
    LockFacts(st, k);
    WaiterIsNotOwner(st, k);
    if lock.inuse {
      LockCases(st, t, k);
      AskersAreNotOwners(st, t, k);
      if lock.pid != st.current { LockLawAsked(n, lock, st.current); }
      LockLawPassed(n, lock);
    } else {
      NewLockIsFree(st, t, k);
    }
  }

  lemma AskersAreNotOwners(st: State, t: Trap, k: LockId)
    ensures AsksForLock(st, t, k) ==> st.locks[k].pid != st.current
    ensures LetsGo(st, t, k) ==> st.locks[k].pid == st.current
  {
  }

  lemma WaiterIsNotOwner(st: State, k: LockId)
    requires SynchOk(st)
    ensures var lock := st.locks[k]; lock.waiting != [] ==> lock.waiting[0] != lock.pid
  {
    assert LockOk(st.locks[k]);
  }

  ghost function LockLedger(n: Ledger, st: State, ts: seq<Trap>, k: LockId): Ledger
    requires AllAllowed(st, ts)
    decreases |ts|
  {
    if ts == [] || st.halted then n
    else LockLedger(LockNoted(n, st, ts[0], Step(st, ts[0]), k), Step(st, ts[0]), ts[1..], k)
  }

  lemma {:induction false} LocksAreFair(n: Ledger, st: State, ts: seq<Trap>, k: LockId)
    requires Inv(st) && AllAllowed(st, ts) && LockLaw(st.locks[k], n)
    ensures LockLaw(Run(st, ts).locks[k], LockLedger(n, st, ts, k))
    decreases |ts|
  {
    hide Inv, Step, Allowed, LockLaw, LockNoted;
    if ts != [] {
      if st.halted {
        HaltedObjects(st, ts);
      } else {
        LockLawStep(n, st, ts[0], k);
        StepKeeps(st, ts[0]);
        LocksAreFair(LockNoted(n, st, ts[0], Step(st, ts[0]), k), Step(st, ts[0]), ts[1..], k);
      }
    }
  }

  lemma {:induction false} HaltedObjects(st: State, ts: seq<Trap>)
    requires AllAllowed(st, ts) && st.halted
    ensures var st' := Run(st, ts); st'.sems == st.sems && st'.locks == st.locks && st'.conds == st.conds
    decreases |ts|
  {
    hide Allowed;
    if ts != [] { HaltedObjects(Step(st, ts[0]), ts[1..]); }
  }

  // -- semaphores --

  datatype SemLedger = SemLedger(init: int, signals: nat, n: Ledger)

  // A process is served when SemWait reports success to it at once, or when a signal makes it runnable.
  function SemNoted(m: SemLedger, st: State, t: Trap, st': State, s: SemId): SemLedger {
    if !Takes(st) then m
    else match t
      case SemCreateTrap(count) =>
        if !st.sems[s].inuse && st'.sems[s].inuse then SemLedger(count, 0, Ledger([], [])) else m
      case SemWaitTrap(h) =>
        if h != s || !st.sems[s].inuse then m
        else m.(n := Ledger(m.n.asked + [st.current],
                            if st'.ret == Returned(st.current, SemWaitCall(s), SYNC_SUCCESS)
                            then m.n.served + [st.current] else m.n.served))
      case SemSignalTrap(h) =>
        if h != s || !st.sems[s].inuse then m
        else m.(signals := m.signals + 1, n := m.n.(served := m.n.served + Newcomers(st, st')))
      case _ => m
  }

  ghost predicate SemLaw(sem: Sem, m: SemLedger) {
    sem.inuse ==>
      && m.n.asked == m.n.served + sem.waiting
      && sem.count == m.init + m.signals - |m.n.served|
      && (sem.waiting != [] ==> sem.count <= 0)
      && (m.n.served != [] ==> sem.count >= 0)
  }

  lemma SemWaitLaw(m: SemLedger, sem: Sem, p: Pid)
    requires sem.inuse && SemLaw(sem, m)
    ensures sem.count <= 0 ==> SemLaw(sem.(waiting := sem.waiting + [p]), m.(n := m.n.(asked := m.n.asked + [p])))
    ensures sem.count > 0 ==>
              SemLaw(sem.(count := sem.count - 1), m.(n := Ledger(m.n.asked + [p], m.n.served + [p])))
  {
  }

  lemma SemSignalLaw(m: SemLedger, sem: Sem)
    requires sem.inuse && SemLaw(sem, m)
    ensures sem.count + 1 > 0 && sem.waiting != [] ==>
              SemLaw(sem.(waiting := sem.waiting[1..]),
                     m.(signals := m.signals + 1, n := m.n.(served := m.n.served + [sem.waiting[0]])))
    ensures !(sem.count + 1 > 0 && sem.waiting != []) ==>
              SemLaw(sem.(count := sem.count + 1), m.(signals := m.signals + 1))
  {
    if sem.waiting != [] { assert sem.waiting == [sem.waiting[0]] + sem.waiting[1..]; }
  }

  lemma SignalNewcomers(st: State, s: SemId)
    requires Ready(st)
    ensures var sem := st.sems[s];
            Newcomers(st, SemSignal(st, s)) == if sem.count + 1 > 0 && sem.waiting != [] then [sem.waiting[0]] else []
  {
    hide QueuesOk, BlockedOk, SynchOk, Wakeup;
    var sem := st.sems[s];
    if sem.count + 1 > 0 && sem.waiting != [] {
      WakesFirst(st, st.(freeLinks := st.freeLinks + 1, sems := st.sems[s := sem.(waiting := sem.waiting[1..])]),
          OnSem(s));
    }
  }

  // What a step does to one semaphore in use, and what is noted of it.
  lemma SemCases(m: SemLedger, st: State, t: Trap, st': State, s: SemId)
    requires st.sems[s].inuse
    ensures SemsAfter(st, t)[s] ==
      if Takes(st) && t == SemWaitTrap(s) then SemWaited(st, s)[s]
      else if Takes(st) && t == SemSignalTrap(s) then SemSignalled(st, s)[s]
      else st.sems[s]
    ensures !Takes(st) || (t != SemWaitTrap(s) && t != SemSignalTrap(s)) ==> SemNoted(m, st, t, st', s) == m
  {
  }

  // A new semaphore has nobody waiting.
  lemma NewSemIsFresh(m: SemLedger, st: State, t: Trap, st': State, s: SemId)
    requires !st.sems[s].inuse && st'.sems == SemsAfter(st, t)
    ensures SemLaw(st'.sems[s], SemNoted(m, st, t, st', s))
  {
  }

  lemma WaitLawStep(m: SemLedger, st: State, s: SemId)
    requires Inv(st) && Takes(st) && st.sems[s].inuse && SemLaw(st.sems[s], m)
    ensures var st' := Step(st, SemWaitTrap(s));
            SemLaw(SemWaited(st, s)[s], SemNoted(m, st, SemWaitTrap(s), st', s))
  {
    hide Inv, SemWait, SemLaw;
    SemWaitLaw(m, st.sems[s], st.current);
    SemWaitObjects(st.(ret := NoReturn), s);
  }

  lemma SignalLawStep(m: SemLedger, st: State, s: SemId)
    requires Inv(st) && Takes(st) && st.sems[s].inuse && SemLaw(st.sems[s], m)
    ensures var st' := Step(st, SemSignalTrap(s));
            SemLaw(SemSignalled(st, s)[s], SemNoted(m, st, SemSignalTrap(s), st', s))
  {
    hide Inv, QueuesOk, BlockedOk, SynchOk, SemSignal, SemLaw;
    Quiet(st);
    CurrentRuns(st.(ret := NoReturn));
    SemSignalLaw(m, st.sems[s]);
    SignalNewcomers(st.(ret := NoReturn), s);
    assert m.n.served + [] == m.n.served;
  }

  lemma SemLawStep(m: SemLedger, st: State, t: Trap, s: SemId)
    requires Inv(st) && !st.halted && Allowed(st, t) && SemLaw(st.sems[s], m)
    ensures SemLaw(Step(st, t).sems[s], SemNoted(m, st, t, Step(st, t), s))
  {
    hide Inv, Step, SemsAfter, SemWaited, SemSignalled, SemNoted, SemLaw;
    var st' := Step(st, t);
    StepObjects(st, t);
    if !st.sems[s].inuse {
      NewSemIsFresh(m, st, t, st', s);
    } else {
      SemCases(m, st, t, st', s);
      if Takes(st) && t == SemWaitTrap(s) {
        WaitLawStep(m, st, s);
      } else if Takes(st) && t == SemSignalTrap(s) {
        SignalLawStep(m, st, s);
      }
    }
  }

  ghost function SemHistory(m: SemLedger, st: State, ts: seq<Trap>, s: SemId): SemLedger
    requires AllAllowed(st, ts)
    decreases |ts|
  {
    if ts == [] || st.halted then m
    else SemHistory(SemNoted(m, st, ts[0], Step(st, ts[0]), s), Step(st, ts[0]), ts[1..], s)
  }

  lemma {:induction false} SemsAreFair(m: SemLedger, st: State, ts: seq<Trap>, s: SemId)
    requires Inv(st) && AllAllowed(st, ts) && SemLaw(st.sems[s], m)
    ensures SemLaw(Run(st, ts).sems[s], SemHistory(m, st, ts, s))
    decreases |ts|
  {
    hide Inv, Step, Allowed, SemLaw, SemNoted;
    if ts != [] {
      if st.halted {
        HaltedObjects(st, ts);
      } else {
        SemLawStep(m, st, ts[0], s);
        StepKeeps(st, ts[0]);
        SemsAreFair(SemNoted(m, st, ts[0], Step(st, ts[0]), s), Step(st, ts[0]), ts[1..], s);
      }
    }
  }

  function Min(a: int, b: int): int { if a <= b then a else b }
  function Max(a: int, b: int): int { if a >= b then a else b }

  // After any run from boot, whatever the initial count: as many processes have been served as have asked and as the
  // initial count and the signals allow; they were served in the order in which they asked; and a semaphore with
  // waiters has nothing left to give.
  lemma SemaphoreClosedForm(ts: seq<Trap>, s: SemId)
    requires AllAllowed(Boot(), ts)
    ensures var sem := Run(Boot(), ts).sems[s];
            var m := SemHistory(SemLedger(0, 0, Ledger([], [])), Boot(), ts, s);
            sem.inuse ==>
              && |m.n.served| == Min(|m.n.asked|, Max(0, m.init + m.signals))
              && sem.count == m.init + m.signals - |m.n.served|
              && m.n.served + sem.waiting == m.n.asked
              && (sem.waiting != [] ==> sem.count <= 0)
  {
    hide Run, Inv, SemHistory;
    BootIsSound();
    SemsAreFair(SemLedger(0, 0, Ledger([], [])), Boot(), ts, s);
  }

  // After any run from boot: the lock has been granted in the order in which it was asked for, and the owner is the
  // process it was granted to last.
  lemma LockIsFirstComeFirstServed(ts: seq<Trap>, k: LockId)
    requires AllAllowed(Boot(), ts)
    ensures var lock := Run(Boot(), ts).locks[k]; var n := LockLedger(Ledger([], []), Boot(), ts, k);
            lock.inuse ==>
              && n.served + lock.waiting == n.asked
              && (lock.pid >= 0 ==> n.served != [] && n.served[|n.served| - 1] == lock.pid)
  {
    hide Run, Inv, LockLedger;
    BootIsSound();
    LocksAreFair(Ledger([], []), Boot(), ts, k);
  }
}
