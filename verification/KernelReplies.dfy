/** What processes are told: the codes that traps return, at once or after a sleep, and that every wait that is served
    is answered once. */
module KernelReplies {
  import opened KernelState
  import opened KernelInvariant
  import opened KernelRuns
  import opened KernelEffects
  import opened KernelFairness
  import opened KernelProtocols

  // ---- One reply ----

  // The call that a process asleep in a trap, or back from sleep, has yet to return from.
  function CallOf(c: Cont): Call {
    match c
    case User => OtherCall
    case InSemWait(s) => SemWaitCall(s)
    case InLockAcquire(k) => LockAcquireCall(k)
    case InCondWait(c) => CondWaitCall(c)
    case InCondLock(c) => CondWaitCall(c)
  }

  // The call that the current process is in when it takes this step.
  function CallMade(st: State, t: Trap): Call {
    if st.cont[st.current] != User then CallOf(st.cont[st.current])
    else match t
      case SemWaitTrap(h) => SemWaitCall(h)
      case LockAcquireTrap(h) => LockAcquireCall(h)
      case CondWaitTrap(h) => CondWaitCall(h)
      case _ => OtherCall
  }

  // May a call that may sleep report success to p? For a semaphore, if the handle is good; for a lock or a condition,
  // if p owns the lock.
  predicate Entitled(st: State, p: Pid, call: Call) {
    match call
    case SemWaitCall(s) => 0 <= s < 32 && st.sems[s].inuse
    case LockAcquireCall(k) => 0 <= k < 64 && st.locks[k].inuse && st.locks[k].pid == p
    case CondWaitCall(c) => 0 <= c < 32 && st.conds[c].inuse && st.locks[st.conds[c].lock].pid == p
    case OtherCall => true
  }

  // Either the process sleeps in its call and is told nothing, or it is told 1 if it is entitled to it and -1 if not.
  ghost predicate Answered(st: State, t: Trap, st': State) {
    var p, call := st.current, CallMade(st, t);
    if Reschedules(st, t) then st'.ret == NoReturn && st'.flags[p] == WAITING && CallOf(st'.cont[p]) == call
    else st'.ret == Returned(p, call, if Entitled(st', p, call) then 1 else -1)
  }

  /** In SemWait, LockAcquire and CondWait, whether the process has slept or not. */
  lemma WaitsAreAnswered(st: State, t: Trap)
    requires Inv(st) && !st.halted && Allowed(st, t) && !Step(st, t).halted && CallMade(st, t) != OtherCall
    ensures Answered(st, t, Step(st, t))
  {
    hide Inv, QueuesOk, BlockedOk, SynchOk, Handle, Resume, Answered;
    var st1 := st.(ret := NoReturn);
    Quiet(st);
    CurrentRuns(st1);
    SameQuestion(st, t);
    if st.cont[st.current] != User { ResumeAnswers(st1, t); } else { HandleAnswers(st1, t); }
  }

  lemma SameQuestion(st: State, t: Trap)
    ensures var st1 := st.(ret := NoReturn);
            CallMade(st1, t) == CallMade(st, t) && forall st' :: Answered(st1, t, st') == Answered(st, t, st')
  {
  }

  lemma ResumeAnswers(st: State, t: Trap)
    requires Ready(st) && st.cont[st.current] != User && st.ret == NoReturn && !Resume(st).halted
    ensures Answered(st, t, Resume(st))
  {
    hide QueuesOk, BlockedOk, SynchOk, LockAcquire;
    FinishedAcquire(st);
    UsesItsLock(st, st.current);
    match st.cont[st.current]
    case InCondWait(c) => AcquireAnswers(st, st.conds[c].lock, InCondLock(c), CondWaitCall(c));
    case _ =>
  }

  lemma AcquireAnswers(st: State, k: LockId, c: Cont, call: Call)
    requires Ready(st) && st.ret == NoReturn && c != User
    ensures var st' := LockAcquire(st, k, c, call);
            && st'.locks == LockAsked(st, k) && st'.conds == st.conds
            && (!st'.halted && Contended(st, k) ==>
                  st'.ret == NoReturn && st'.flags[st.current] == WAITING && st'.cont[st.current] == c)
            && (!Contended(st, k) ==> st'.ret == Returned(st.current, call, 1))
  {
    hide QueuesOk, BlockedOk, SynchOk, Sleep;
    EnoughLinks(st);
    LockAcquireObjects(st, k, c, call);
    if Contended(st, k) {
      var lock := st.locks[k];
      var st1 := st.(freeLinks := st.freeLinks - 1,
                     locks := st.locks[k := lock.(waiting := lock.waiting + [st.current])]);
      SameQueues(st, st1);
      SleepMoves(st1, c);
    }
  }

  lemma HandleAnswers(st: State, t: Trap)
    requires Ready(st) && st.cont[st.current] == User && st.ret == NoReturn && Allowed(st, t)
    requires CallMade(st, t) != OtherCall && !Handle(st, t).halted
    ensures Answered(st, t, Handle(st, t))
  {
    hide Ready, Answered, Handle;
    match t
    case SemWaitTrap(h) => SemWaitAnswers(st, h);
    case LockAcquireTrap(h) => LockAcquireAnswers(st, h);
    case CondWaitTrap(h) => CondWaitAnswers(st, h);
    case _ =>
  }

  lemma SemWaitAnswers(st: State, h: int)
    requires Ready(st) && st.cont[st.current] == User && st.ret == NoReturn && !Handle(st, SemWaitTrap(h)).halted
    ensures Answered(st, SemWaitTrap(h), Handle(st, SemWaitTrap(h)))
  {
    hide QueuesOk, BlockedOk, SynchOk, Sleep;
    EnoughLinks(st);
    if GoodSem(st, h) && st.sems[h].count <= 0 {
      var sem := st.sems[h];
      var st1 := st.(freeLinks := st.freeLinks - 1, sems := st.sems[h := sem.(waiting := sem.waiting + [st.current])]);
      SameQueues(st, st1);
      SleepMoves(st1, InSemWait(h));
    }
  }

  lemma LockAcquireAnswers(st: State, h: int)
    requires Ready(st) && st.cont[st.current] == User && st.ret == NoReturn && !Handle(st, LockAcquireTrap(h)).halted
    ensures Answered(st, LockAcquireTrap(h), Handle(st, LockAcquireTrap(h)))
  {
    hide QueuesOk, BlockedOk, SynchOk, LockAcquire;
    if GoodLock(st, h) { AcquireAnswers(st, h, InLockAcquire(h), LockAcquireCall(h)); }
  }

  lemma CondWaitAnswers(st: State, h: int)
    requires Ready(st) && st.cont[st.current] == User && st.ret == NoReturn && !Handle(st, CondWaitTrap(h)).halted
    ensures Answered(st, CondWaitTrap(h), Handle(st, CondWaitTrap(h)))
  {
    hide QueuesOk, BlockedOk, SynchOk, CondWait;
    if GoodCond(st, h) {
      if OwnsLockOf(st, h) { FallsAsleep(st, h); } else { CondWaitRefused(st, h); }
    }
  }

  lemma FallsAsleep(st: State, c: CondId)
    requires Ready(st) && st.ret == NoReturn && OwnsLockOf(st, c) && !CondWait(st, c).halted
    ensures var st' := CondWait(st, c);
            st'.ret == NoReturn && st'.flags[st.current] == WAITING && st'.cont[st.current] == InCondWait(c)
  {
    hide QueuesOk, BlockedOk, SynchOk, CondWait, Minus;
    if st.locks[st.conds[c].lock].waiting == [] { CondWaitAlone(st, c); } else { CondWaitPasses(st, c); }
  }

  // ---- Calls that never sleep ----

  // The code that the step returns to the current process, if it returns one for such a call.
  predicate Replies(st: State, st': State, code: int) {
    st'.ret == Returned(st.current, OtherCall, code)
  }

  /** SemCreate and LockCreate answer the first entry that was idle, now made, or -1 when there is none. */
  lemma NewHandles(st: State, count: int)
    requires Takes(st)
    ensures var st' := Step(st, SemCreateTrap(count));
            || (Replies(st, st', -1) && st'.sems == st.sems && forall i :: 0 <= i < 32 ==> st.sems[i].inuse)
            || (exists s :: 0 <= s < 32 && Replies(st, st', s) && !st.sems[s].inuse
                  && st'.sems == st.sems[s := Sem(true, count, [])] && forall i :: 0 <= i < s ==> st.sems[i].inuse)
    ensures var st' := Step(st, LockCreateTrap);
            || (Replies(st, st', -1) && st'.locks == st.locks && forall i :: 0 <= i < 64 ==> st.locks[i].inuse)
            || (exists k :: 0 <= k < 64 && Replies(st, st', k) && !st.locks[k].inuse
                  && st'.locks == st.locks[k := Lock(true, -1, [])] && forall i :: 0 <= i < k ==> st.locks[i].inuse)
  {
    NewSemaphore(st, count);
    NewLock(st);
  }

  lemma NewSemaphore(st: State, count: int)
    requires Takes(st)
    ensures var st' := Step(st, SemCreateTrap(count)); var used := SemsUsed(st.sems); var s := FirstIdle(used);
            && |used| == 32 && (forall i :: 0 <= i < 32 ==> used[i] == st.sems[i].inuse)
            && Replies(st, st', if s == 32 then -1 else s)
            && st'.sems == if s == 32 then st.sems else st.sems[s := Sem(true, count, [])]
  {
    hide FirstIdle;
  }

  lemma NewLock(st: State)
    requires Takes(st)
    ensures var st' := Step(st, LockCreateTrap); var used := LocksUsed(st.locks); var k := FirstIdle(used);
            && |used| == 64 && (forall i :: 0 <= i < 64 ==> used[i] == st.locks[i].inuse)
            && Replies(st, st', if k == 64 then -1 else k)
            && st'.locks == if k == 64 then st.locks else st.locks[k := Lock(true, -1, [])]
  {
    hide FirstIdle;
  }

  /** Which signals and releases report success: those on a handle in use, and where a lock guards the call those by
      its owner. */
  lemma SignalsAreAnswered(st: State, h: int)
    requires Inv(st) && Takes(st)
    ensures Replies(st, Step(st, SemSignalTrap(h)), if 0 <= h < 32 && st.sems[h].inuse then 1 else -1)
    ensures Replies(st, Step(st, LockReleaseTrap(h)),
                if 0 <= h < 64 && st.locks[h].inuse && st.locks[h].pid == st.current then 1 else -1)
    ensures Replies(st, Step(st, CondSignalTrap(h)),
                if 0 <= h < 32 && st.conds[h].inuse && st.locks[st.conds[h].lock].pid == st.current then 1 else -1)
    ensures Replies(st, Step(st, CondBroadcastTrap(h)),
                if 0 <= h < 32 && st.conds[h].inuse && st.locks[st.conds[h].lock].pid == st.current then 1 else -1)
  {
    hide Inv, Wakeup, WakeFirst, HandOff;
    var st1 := st.(ret := NoReturn);
    WakingKeepsCurrent(st1, h);
  }

  lemma WakingKeepsCurrent(st: State, h: int)
    ensures 0 <= h < 32 ==> WakeFirst(st, h).current == st.current
    ensures 0 <= h < 64 ==> HandOff(st, h).current == st.current
    ensures forall st1: State, p: Pid :: Wakeup(st1, p).current == st1.current
  {
    hide Wakeup;
    forall st1: State, p: Pid ensures Wakeup(st1, p).current == st1.current { WokenKeepsCurrent(st1, p); }
  }

  lemma WokenKeepsCurrent(st: State, p: Pid)
    ensures Wakeup(st, p).current == st.current
  {
    hide Minus;
  }

  // ---- Semaphores: every wait that is served is answered once ----

  // Woken from semaphore s and not yet told.
  predicate Due(st: State, p: Pid, s: SemId) {
    st.flags[p] == RUNNABLE && st.cont[p] == InSemWait(s)
  }

  // The processes told of success by semaphore s, in order.
  function ToldBy(st': State, s: SemId): seq<Pid> {
    match st'.ret
    case Returned(p, SemWaitCall(h), code) => if h == s && code == 1 then [p] else []
    case _ => []
  }

  ghost function Told(st: State, ts: seq<Trap>, s: SemId): seq<Pid>
    requires AllAllowed(st, ts)
    decreases |ts|
  {
    if ts == [] || st.halted then []
    else ToldBy(Step(st, ts[0]), s) + Told(Step(st, ts[0]), ts[1..], s)
  }

  function One(b: bool): nat { if b then 1 else 0 }

  // A process other than the current one becomes due exactly when it leaves the queue.
  lemma DueAfter(st: State, st': State, p: Pid, s: SemId)
    requires QueuesOk(st) && BlockedOk(st) && BlockedOk(st') && OthersAfter(st, st') && p != st.current
    requires st.flags[p] != ZOMBIE
    ensures Due(st', p, s) <==> Due(st, p, s) || (p in st.sems[s].waiting && p !in st'.sems[s].waiting)
  {
    assert OtherAfter(st, st', p);
    assert st.sems[s].waiting == WaitingAt(st, OnSem(s)) && st'.sems[s].waiting == WaitingAt(st', OnSem(s));
    if p in st.sems[s].waiting { assert Where(st, p) == OnSem(s); }
    if p in st'.sems[s].waiting { assert Where(st', p) == OnSem(s); }
    if Where(st, p) == OnSem(s) { assert p in WaitingAt(st, Where(st, p)); }
    if Where(st', p) == OnSem(s) { assert p in WaitingAt(st', Where(st', p)); }
  }

  // Who is served in a step: the caller that finds the count positive, or the first waiter on a signal.
  function ServedBy(st: State, t: Trap, s: SemId): seq<Pid> {
    if !Takes(st) || !st.sems[s].inuse then []
    else if t == SemWaitTrap(s) && st.sems[s].count > 0 then [st.current]
    else if t == SemSignalTrap(s) && st.sems[s].count >= 0 && st.sems[s].waiting != [] then [st.sems[s].waiting[0]]
    else []
  }

  lemma LeavesTheQueue(st: State, t: Trap, p: Pid, s: SemId)
    requires Inv(st) && !st.halted && Allowed(st, t)
    ensures var ws, ws' := st.sems[s].waiting, SemsAfter(st, t)[s].waiting;
            p in ws && p !in ws' <==> p in ws && Takes(st) && t == SemSignalTrap(s) && ServedBy(st, t, s) == [p]
  {
    hide QueuesOk, Allowed;
    var ws := st.sems[s].waiting;
    assert ws == WaitingAt(st, OnSem(s));
    assert SemOk(st.sems[s]);
    if ws != [] { HeadIsNotBehind(st, OnSem(s)); assert ws == [ws[0]] + ws[1..]; }
  }

  // What is told in a step is what was due to the current process, or what is served to it at once.
  lemma ToldInStep(st: State, t: Trap, s: SemId)
    requires Inv(st) && !st.halted && Allowed(st, t) && !Step(st, t).halted
    ensures ToldBy(Step(st, t), s) ==
      if Due(st, st.current, s) || (Takes(st) && t == SemWaitTrap(s) && ServedBy(st, t, s) != []) then [st.current]
      else []
  {
    hide Inv, Step, Allowed, SynchOk;
    CurrentRuns(st);
    if CallMade(st, t) == SemWaitCall(s) {
      WaitsAreAnswered(st, t);
      StepObjects(st, t);
      UsedSem(st, s);
    } else {
      AnswersOnlyItsCall(st, t, s);
    }
  }

  lemma UsedSem(st: State, s: SemId)
    requires Inv(st) && !st.halted
    ensures st.cont[st.current] == InSemWait(s) ==> st.sems[s].inuse
  {
    assert UsesOnly(st, st.cont[st.current]);
  }

  // No other call returns from SemWait on s.
  lemma AnswersOnlyItsCall(st: State, t: Trap, s: SemId)
    requires Inv(st) && !st.halted && Allowed(st, t) && !Step(st, t).halted && CallMade(st, t) != SemWaitCall(s)
    ensures ToldBy(Step(st, t), s) == []
  {
    hide Inv, QueuesOk, BlockedOk, SynchOk, Step, Answered;
    if CallMade(st, t) != OtherCall {
      WaitsAreAnswered(st, t);
      AnsweredItsCall(st, t, Step(st, t));
    } else {
      OtherCallsReturn(st, t);
    }
  }

  lemma AnsweredItsCall(st: State, t: Trap, st': State)
    requires Answered(st, t, st')
    ensures st'.ret == NoReturn || (st'.ret.Returned? && st'.ret.call == CallMade(st, t))
  {
  }

  // A call that never sleeps answers the caller in the same step, if it answers at all.
  lemma OtherCallsReturn(st: State, t: Trap)
    requires !st.halted && Allowed(st, t) && CallMade(st, t) == OtherCall
    ensures var st' := Step(st, t);
            if t.Yield? || t.Exit? || t.Create? || t.SleepTrap? || t.UnknownTrap? then st'.ret == NoReturn
            else st'.ret.Returned? && Replies(st, st', st'.ret.code) && (t.OtherTrap? ==> st'.ret.code == t.code)
  {
    hide Schedule, Destroy, Fork, Sleep, Wakeup, FirstIdle, WakeFirst, HandOff;
    var st1 := st.(ret := NoReturn);
    match t
    case Yield => ScheduleObjects(st1);
    case Exit => DestroyObjects(st1, st.current); ScheduleObjects(Destroy(st1, st.current));
    case Create(found) => ForkObjects(st1, found);
    case SleepTrap => SleepObjects(st1, User);
    case CondSignalTrap(h) => WakingKeepsCurrent(st1, h);
    case CondBroadcastTrap(h) => WakingKeepsCurrent(st1, h);
    case LockReleaseTrap(h) => WakingKeepsCurrent(st1, h);
    case SemSignalTrap(h) => WakingKeepsCurrent(st1, h);
    case _ =>
  }

  // -- over runs --

  // As often as p has been served it has been told, or is about to be.
  ghost predicate Settled(st: State, served: seq<Pid>, told: seq<Pid>, s: SemId) {
    forall p: Pid :: multiset(served)[p] == multiset(told)[p] + One(Due(st, p, s))
  }

  lemma SettledFor(st: State, t: Trap, s: SemId, served: seq<Pid>, told: seq<Pid>, p: Pid)
    requires Inv(st) && !st.halted && Allowed(st, t) && !Step(st, t).halted && Settled(st, served, told, s)
    ensures multiset(served + ServedBy(st, t, s))[p]
            == multiset(told + ToldBy(Step(st, t), s))[p] + One(Due(Step(st, t), p, s))
  {
    hide Inv, Step, Allowed, ServedBy, ToldBy, Takes;
    assert multiset(served)[p] == multiset(told)[p] + One(Due(st, p, s));
    ToldInStep(st, t, s);
    Shares(st, t, s, p);
  }

  // What becomes of p in one step.
  lemma Shares(st: State, t: Trap, s: SemId, p: Pid)
    requires Inv(st) && !st.halted && Allowed(st, t) && !Step(st, t).halted
    ensures var st' := Step(st, t); var served := ServedBy(st, t, s);
            && (served == [] || (exists q :: served == [q]))
            && One(served == [p]) + One(Due(st, p, s)) == One(ToldBy(st', s) == [p]) + One(Due(st', p, s))
            && (ToldBy(st', s) == [] || (exists q :: ToldBy(st', s) == [q]))
  {
    hide Inv, Step, Allowed, ToldBy, SynchOk;
    var st' := Step(st, t);
    ToldInStep(st, t, s);
    StepGoesOn(st, t);
    StepKeeps(st, t);
    StepObjects(st, t);
    LeavesTheQueue(st, t, p, s);
    CurrentRuns(st);
    WaitersSleep(st, s);
    QueuesOf(st);
    QueuesOf(st');
    if p != st.current { DueAfter(st, st', p, s); }
  }

  lemma QueuesOf(st: State)
    requires Inv(st) && !st.halted
    ensures QueuesOk(st) && BlockedOk(st) && forall p: Pid :: st.flags[p] != ZOMBIE
  {
  }

  lemma WaitersSleep(st: State, s: SemId)
    requires Inv(st) && !st.halted
    ensures forall p :: p in st.sems[s].waiting ==> st.flags[p] == WAITING && !Due(st, p, s)
  {
    assert st.sems[s].waiting == WaitingAt(st, OnSem(s));
    forall p | p in st.sems[s].waiting ensures st.flags[p] == WAITING {
      assert Where(st, p) == OnSem(s);
    }
  }

  lemma SettledStep(st: State, t: Trap, s: SemId, served: seq<Pid>, told: seq<Pid>)
    requires Inv(st) && !st.halted && Allowed(st, t) && !Step(st, t).halted && Settled(st, served, told, s)
    ensures Settled(Step(st, t), served + ServedBy(st, t, s), told + ToldBy(Step(st, t), s), s)
  {
    hide Inv, Step, Allowed, ServedBy;
    var st' := Step(st, t);
    forall p: Pid
      ensures multiset(served + ServedBy(st, t, s))[p] == multiset(told + ToldBy(st', s))[p] + One(Due(st', p, s))
    {
      SettledFor(st, t, s, served, told, p);
    }
  }

  // The ledger of a semaphore notes the same.
  lemma NotedAsServed(m: SemLedger, st: State, t: Trap, s: SemId)
    requires Inv(st) && !st.halted && Allowed(st, t) && !Step(st, t).halted
    requires !st.sems[s].inuse ==> m.n.served == []
    ensures var st' := Step(st, t); var m' := SemNoted(m, st, t, st', s);
            m'.n.served == m.n.served + ServedBy(st, t, s) && (!st'.sems[s].inuse ==> m'.n.served == [])
  {
    hide Inv, Step, Allowed, SynchOk, QueuesOk, BlockedOk;
    var st' := Step(st, t);
    StepObjects(st, t);
    assert m.n.served + [] == m.n.served;
    if st.sems[s].inuse && Takes(st) {
      if t == SemWaitTrap(s) {
        WaitsAreAnswered(st, t);
      } else if t == SemSignalTrap(s) {
        SignalNotes(st, s);
      }
    }
  }

  lemma SignalNotes(st: State, s: SemId)
    requires Inv(st) && !st.halted && Takes(st) && st.sems[s].inuse
    ensures Newcomers(st, Step(st, SemSignalTrap(s))) == ServedBy(st, SemSignalTrap(s), s)
  {
    hide Inv, QueuesOk, BlockedOk, SynchOk, SemSignal;
    Quiet(st);
    CurrentRuns(st.(ret := NoReturn));
    SignalNewcomers(st.(ret := NoReturn), s);
  }

  lemma {:induction false} StaysSettled(m: SemLedger, told: seq<Pid>, st: State, ts: seq<Trap>, s: SemId)
    requires Inv(st) && AllAllowed(st, ts) && !Run(st, ts).halted
    requires Settled(st, m.n.served, told, s) && (!st.sems[s].inuse ==> m.n.served == [])
    ensures Settled(Run(st, ts), SemHistory(m, st, ts, s).n.served, told + Told(st, ts, s), s)
    decreases |ts|
  {
    hide Inv, Step, Allowed, Settled, SemNoted, ServedBy, ToldBy;
    if ts == [] {
      assert told + [] == told;
    } else {
      var st' := Step(st, ts[0]);
      if st.halted { HaltedStays(st, ts); }
      if st'.halted { HaltedStays(st', ts[1..]); }
      NotedAsServed(m, st, ts[0], s);
      SettledStep(st, ts[0], s, m.n.served, told);
      StepKeeps(st, ts[0]);
      StaysSettled(SemNoted(m, st, ts[0], st', s), told + ToldBy(st', s), st', ts[1..], s);
      assert told + ToldBy(st', s) + Told(st', ts[1..], s) == told + (ToldBy(st', s) + Told(st', ts[1..], s));
    }
  }

  /** Over every run from boot: a process that semaphore s has served n times, those times included that it slept, has
      been told of success exactly n times, but for the last time while it has been woken and has not run yet. */
  lemma EveryWaitServedIsToldOnce(ts: seq<Trap>, s: SemId, p: Pid)
    requires AllAllowed(Boot(), ts) && !Run(Boot(), ts).halted
    ensures var m := SemHistory(SemLedger(0, 0, Ledger([], [])), Boot(), ts, s);
            multiset(m.n.served)[p] == multiset(Told(Boot(), ts, s))[p] + One(Due(Run(Boot(), ts), p, s))
  {
    hide Inv, SemHistory, Told, Run, AllAllowed;
    BootIsSound();
    StaysSettled(SemLedger(0, 0, Ledger([], [])), [], Boot(), ts, s);
    assert [] + Told(Boot(), ts, s) == Told(Boot(), ts, s);
    assert Settled(Run(Boot(), ts), SemHistory(SemLedger(0, 0, Ledger([], [])), Boot(), ts, s).n.served,
        Told(Boot(), ts, s), s);
  }
}
