/** Whole runs of the kernel from boot: what holds after every trap, and what a process may rely on over time. */
module KernelRuns {
  import opened KernelState
  import opened KernelInvariant

  // ---- Boot ----

  // ProcessModuleInit puts each process control block at the front of the free list; main then forks one process
  // and makes it the current one.
  function CountDown(n: nat): (q: seq<Pid>)
    requires n <= MAX_PROCS
    ensures |q| == n && forall i :: 0 <= i < n ==> q[i] == n - 1 - i
  {
    if n == 0 then [] else [n - 1] + CountDown(n - 1)
  }

  function Boot(): State {
    State(seq(MAX_PROCS, i => if i == MAX_PROCS - 1 then RUNNABLE else FREE),
          CountDown(MAX_PROCS - 1), [MAX_PROCS - 1], [], [],
          MAX_PROCS - 1,
          seq(MAX_PROCS, _ => User),
          seq(MAX_SEMS, _ => Sem(false, 0, [])),
          seq(MAX_LOCKS, _ => Lock(false, 0, [])),
          seq(MAX_LOCKS, _ => Cond(false, 0, [])),
          MAX_LINKS - MAX_PROCS, NoReturn, false, false)
  }

  // Before that fork.
  function Start(): State {
    State(seq(MAX_PROCS, _ => FREE), CountDown(MAX_PROCS), [], [], [], MAX_PROCS - 1, seq(MAX_PROCS, _ => User),
          seq(MAX_SEMS, _ => Sem(false, 0, [])), seq(MAX_LOCKS, _ => Lock(false, 0, [])),
          seq(MAX_LOCKS, _ => Cond(false, 0, [])), MAX_LINKS - MAX_PROCS, NoReturn, false, false)
  }

  lemma StartIs()
    ensures var st := Start();
            && st.freepcbs == CountDown(MAX_PROCS) && st.runQueue == st.waitQueue == st.zombieQueue == []
            && st.flags == seq(MAX_PROCS, _ => FREE) && st.cont == seq(MAX_PROCS, _ => User)
            && st.current == MAX_PROCS - 1 && st.freeLinks == MAX_LINKS - MAX_PROCS && st.ret == NoReturn
            && !st.complained && !st.halted
  {
  }

  lemma BootForksTheFirst()
    ensures Fork(Start(), true) == Boot()
  {
    assert CountDown(MAX_PROCS) == [MAX_PROCS - 1] + CountDown(MAX_PROCS - 1);
    assert Fork(Start(), true).flags == Boot().flags;
  }

  lemma BootQueues()
    ensures QueuesOk(Boot())
  {
    var st := Boot();
    forall p: Pid
      ensures p in st.freepcbs <==> st.flags[p] == FREE
    {
      if p < MAX_PROCS - 1 { assert st.freepcbs[MAX_PROCS - 2 - p] == p; }
    }
  }

  lemma NothingInUse(st: State)
    requires forall s: SemId :: st.sems[s] == Sem(false, 0, [])
    requires forall k: LockId :: st.locks[k] == Lock(false, 0, []) && st.conds[k] == Cond(false, 0, [])
    requires forall p: Pid :: st.cont[p] == User && st.flags[p] != WAITING
    ensures BlockedOk(st) && SynchOk(st)
  {
  }

  lemma BootPlaces()
    ensures BlockedOk(Boot()) && SynchOk(Boot())
  {
    hide BlockedOk, SynchOk, CountDown;
    NothingInUse(Boot());
  }

  lemma BootIsSound()
    ensures Inv(Boot()) && !Boot().halted
  {
    hide QueuesOk, BlockedOk, SynchOk;
    BootQueues();
    BootPlaces();
  }

  // ---- One step ----

  lemma HandleKeeps(st: State, t: Trap)
    requires Ready(st) && st.cont[st.current] == User && Allowed(st, t)
    ensures Inv(Handle(st, t))
  {
    hide Inv, QueuesOk, BlockedOk, SynchOk, LinksOk, Schedule, Destroy, Fork, Sleep, Halt, SemCreate, SemWait,
      SemSignal, LockCreate, LockAcquire, LockRelease, CondCreate, CondWait, CondSignal, Finish;
    ReadyIsInv(st);
    match t
    case Yield => ScheduleKeeps(st);
    case Exit => ExitKeeps(st);
    case Create(found) => ForkKeeps(st, found);
    case SleepTrap => SleepTrapKeeps(st);
    case UnknownTrap => HaltKeeps(st);
    case OtherTrap(code) => FinishKeeps(st, OtherCall, code);
    case SemCreateTrap(count) => SemCreateKeeps(st, count);
    case SemWaitTrap(h) =>
      if GoodSem(st, h) { SemWaitKeeps(st, h); } else { FinishKeeps(st, SemWaitCall(h), SYNC_FAIL); }
    case SemSignalTrap(h) =>
      if GoodSem(st, h) { SemSignalKeeps(st, h); } else { FinishKeeps(st, OtherCall, SYNC_FAIL); }
    case LockCreateTrap => LockCreateKeeps(st);
    case LockAcquireTrap(h) =>
      if GoodLock(st, h) { LockAcquireKeeps(st, h, InLockAcquire(h), LockAcquireCall(h)); }
      else { FinishKeeps(st, LockAcquireCall(h), SYNC_FAIL); }
    case LockReleaseTrap(h) =>
      if GoodLock(st, h) { LockReleaseKeeps(st, h); } else { FinishKeeps(st, OtherCall, SYNC_FAIL); }
    case CondCreateTrap(lock) => CondCreateKeeps(st, lock);
    case CondWaitTrap(h) =>
      if GoodCond(st, h) { CondWaitKeeps(st, h); } else { FinishKeeps(st, CondWaitCall(h), SYNC_FAIL); }
    case CondSignalTrap(h) =>
      if GoodCond(st, h) { CondSignalKeeps(st, h); } else { FinishKeeps(st, OtherCall, SYNC_FAIL); }
    case CondBroadcastTrap(h) =>
      if GoodCond(st, h) { CondSignalKeeps(st, h); } else { FinishKeeps(st, OtherCall, SYNC_FAIL); }
  }

  lemma ReadyIsInv(st: State)
    requires Ready(st)
    ensures Inv(st) && st.flags[st.current] == RUNNABLE
  {
  }

  lemma HaltKeeps(st: State)
    ensures Inv(Halt(st))
  {
  }

  lemma UsesItsLock(st: State, p: Pid)
    requires SynchOk(st) && st.flags[p] == RUNNABLE
    ensures UsesOnly(st, st.cont[p])
    ensures st.cont[p].InCondWait? ==> st.locks[st.conds[st.cont[p].cond].lock].inuse
  {
    assert UsesOnly(st, st.cont[p]) && Acquired(st, p);
  }

  lemma ResumeKeeps(st: State)
    requires Ready(st)
    ensures Inv(Resume(st))
  {
    hide QueuesOk, BlockedOk, SynchOk, LockAcquire, Finish;
    UsesItsLock(st, st.current);
    match st.cont[st.current]
    case User =>
    case InSemWait(s) => FinishKeeps(st, SemWaitCall(s), SYNC_SUCCESS);
    case InLockAcquire(k) => FinishKeeps(st, LockAcquireCall(k), SYNC_SUCCESS);
    case InCondWait(c) => LockAcquireKeeps(st, st.conds[c].lock, InCondLock(c), CondWaitCall(c));
    case InCondLock(c) => FinishKeeps(st, CondWaitCall(c), SYNC_SUCCESS);
  }

  lemma Quiet(st: State)
    requires Inv(st)
    ensures Inv(st.(ret := NoReturn))
  {
    var st' := st.(ret := NoReturn);
    if !st.halted { SamePlacesKeep(st, st'); }
  }

  lemma StepKeeps(st: State, t: Trap)
    requires Inv(st) && Allowed(st, t)
    ensures Inv(Step(st, t))
  {
    hide Inv, Handle, Resume;
    Quiet(st);
    var st1 := st.(ret := NoReturn);
    if !st.halted {
      CurrentRuns(st1);
      if st1.cont[st1.current] != User { ResumeKeeps(st1); } else { HandleKeeps(st1, t); }
    }
  }

  // ---- Runs ----

  // The machine after the given traps. A trap that comes up while the current process still has to finish an
  // earlier one is not taken: that step finishes the earlier trap.
  ghost predicate AllAllowed(st: State, ts: seq<Trap>)
    decreases |ts|
  {
    ts != [] ==> Allowed(st, ts[0]) && AllAllowed(Step(st, ts[0]), ts[1..])
  }

  function Run(st: State, ts: seq<Trap>): State
    requires AllAllowed(st, ts)
    decreases |ts|
  {
    if ts == [] then st else Run(Step(st, ts[0]), ts[1..])
  }

  lemma {:induction false} RunKeeps(st: State, ts: seq<Trap>)
    requires Inv(st) && AllAllowed(st, ts)
    ensures Inv(Run(st, ts))
    decreases |ts|
  {
    hide Inv, Step, Allowed;
    if ts != [] {
      StepKeeps(st, ts[0]);
      RunKeeps(Step(st, ts[0]), ts[1..]);
    }
  }

  // Runs one after the other.
  lemma {:induction false} Then(st: State, ts: seq<Trap>, more: seq<Trap>)
    requires AllAllowed(st, ts) && AllAllowed(Run(st, ts), more)
    ensures AllAllowed(st, ts + more) && Run(st, ts + more) == Run(Run(st, ts), more)
    decreases |ts|
  {
    hide Step, Allowed;
    if ts == [] {
      assert ts + more == more;
    } else {
      assert (ts + more)[1..] == ts[1..] + more;
      Then(Step(st, ts[0]), ts[1..], more);
    }
  }

  lemma Next(st: State, ts: seq<Trap>, t: Trap)
    requires AllAllowed(st, ts) && Allowed(Run(st, ts), t)
    ensures AllAllowed(st, ts + [t]) && Run(st, ts + [t]) == Step(Run(st, ts), t)
  {
    hide Step, Allowed;
    Then(st, ts, [t]);
  }

  lemma {:induction false} Prefix(st: State, ts: seq<Trap>, i: nat)
    requires AllAllowed(st, ts) && i <= |ts|
    ensures AllAllowed(st, ts[..i]) && (i < |ts| ==> Allowed(Run(st, ts[..i]), ts[i]))
    decreases i
  {
    hide Step, Allowed;
    if i > 0 {
      Prefix(Step(st, ts[0]), ts[1..], i - 1);
      assert ts[..i][1..] == ts[1..][..i - 1];
    }
  }
}
