/** Condition variables: no wakeup is lost, and what a broadcast does. */
module KernelConditions {
  import opened KernelState
  import opened KernelInvariant
  import opened KernelRuns
  import opened KernelEffects
  import opened KernelFairness
  import opened KernelProtocols

  // ---- Waiting and signalling ----

  // The lock without an owner, or with its first waiter for one.
  function Passed(lock: Lock): Lock {
    if lock.waiting == [] then lock.(pid := -1) else lock.(pid := lock.waiting[0], waiting := lock.waiting[1..])
  }

  // In the one step in which the owner of the lock starts to wait it is put on the condition's queue and the lock
  // passes on: whoever holds the lock afterwards finds it there.
  lemma WaiterIsQueuedBeforeTheLockIsFree(st: State, h: int)
    requires Inv(st) && Takes(st) && GoodCond(st, h) && OwnsLockOf(st, h)
    ensures var st' := Step(st, CondWaitTrap(h));
            && st'.conds[h].waiting == st.conds[h].waiting + [st.current]
            && st'.conds[h].lock == st.conds[h].lock
            && st'.locks[st.conds[h].lock] == Passed(st.locks[st.conds[h].lock])
            && st'.locks[st.conds[h].lock].pid != st.current
  {
    hide QueuesOk, BlockedOk, SynchOk, Step;
    StepObjects(st, CondWaitTrap(h));
    WaiterIsNotOwner(st, st.conds[h].lock);
  }

  predicate Signals(st: State, t: Trap, c: CondId) {
    Takes(st) && (t == CondSignalTrap(c) || t == CondBroadcastTrap(c)) && GoodCond(st, c) && OwnsLockOf(st, c)
  }

  // A signal by the owner of the lock wakes exactly the process that has waited longest; the signaller keeps the
  // lock and the processor.
  lemma SignalWakesTheFirst(st: State, t: Trap, c: CondId)
    requires Inv(st) && Signals(st, t, c) && st.conds[c].waiting != []
    ensures var st' := Step(st, t); var p := st.conds[c].waiting[0];
            && st.flags[p] == WAITING && st'.flags[p] == RUNNABLE && st'.runQueue == st.runQueue + [p]
            && st'.conds[c].waiting == st.conds[c].waiting[1..]
            && st'.current == st.current && st'.locks == st.locks && !st'.halted
  {
    hide QueuesOk, BlockedOk, SynchOk, WakeFirst;
    var st1 := st.(ret := NoReturn);
    Quiet(st);
    CurrentRuns(st1);
    WakeFirstMoves(st1, c);
  }

  function CondNoted(n: Ledger, st: State, t: Trap, st': State, c: CondId): Ledger {
    if !st.conds[c].inuse && st'.conds[c].inuse then Ledger([], [])
    else if Takes(st) && t == CondWaitTrap(c) && GoodCond(st, c) && OwnsLockOf(st, c)
    then n.(asked := n.asked + [st.current])
    else if Signals(st, t, c) then n.(served := n.served + Newcomers(st, st'))
    else n
  }

  // Those who have waited are those who were woken, in order, followed by those who still wait.
  ghost predicate CondLaw(cond: Cond, n: Ledger) {
    cond.inuse ==> n.asked == n.served + cond.waiting
  }

  lemma CondLawServed(n: Ledger, waiting: seq<Pid>)
    requires n.asked == n.served + waiting && waiting != []
    ensures n.asked == n.served + [waiting[0]] + waiting[1..]
  {
    assert waiting == [waiting[0]] + waiting[1..];
  }

  lemma IdleCondIsEmpty(st: State, c: CondId)
    requires SynchOk(st)
    ensures !st.conds[c].inuse ==> st.conds[c].waiting == []
  {
  }

  lemma CondSignalNewcomers(st: State, t: Trap, c: CondId)
    requires Inv(st) && Signals(st, t, c)
    ensures Newcomers(st, Step(st, t)) == if st.conds[c].waiting != [] then [st.conds[c].waiting[0]] else []
  {
    hide Inv, Step, Wakeup;
    if st.conds[c].waiting != [] {
      SignalWakesTheFirst(st, t, c);
    } else {
      SignalOfNobody(st, t, c);
    }
  }

  lemma SignalOfNobody(st: State, t: Trap, c: CondId)
    requires Signals(st, t, c) && st.conds[c].waiting == []
    ensures Step(st, t).runQueue == st.runQueue
  {
  }

  lemma CondLawStep(n: Ledger, st: State, t: Trap, c: CondId)
    requires Inv(st) && !st.halted && Allowed(st, t) && CondLaw(st.conds[c], n)
    ensures CondLaw(Step(st, t).conds[c], CondNoted(n, st, t, Step(st, t), c))
  {
    hide QueuesOk, BlockedOk, SynchOk, Step;
    var cond := st.conds[c];
    StepObjects(st, t);
    IdleCondIsEmpty(st, c);
    if Signals(st, t, c) {
      CondSignalNewcomers(st, t, c);
      if cond.waiting != [] { CondLawServed(n, cond.waiting); }
    }
  }

  ghost function CondLedger(n: Ledger, st: State, ts: seq<Trap>, c: CondId): Ledger
    requires AllAllowed(st, ts)
    decreases |ts|
  {
    if ts == [] || st.halted then n
    else CondLedger(CondNoted(n, st, ts[0], Step(st, ts[0]), c), Step(st, ts[0]), ts[1..], c)
  }

  lemma {:induction false} CondsAreFair(n: Ledger, st: State, ts: seq<Trap>, c: CondId)
    requires Inv(st) && AllAllowed(st, ts) && st.conds[c].inuse && CondLaw(st.conds[c], n)
    ensures Run(st, ts).conds[c].inuse && CondLaw(Run(st, ts).conds[c], CondLedger(n, st, ts, c))
    ensures n.asked <= CondLedger(n, st, ts, c).asked
    decreases |ts|
  {
    hide Inv, Step, Allowed, CondLaw, CondNoted;
    if ts != [] {
      if st.halted {
        HaltedObjects(st, ts);
      } else {
        CondLawStep(n, st, ts[0], c);
        CondStaysInUse(st, ts[0], c);
        NotesGrow(n, st, ts[0], Step(st, ts[0]), c);
        StepKeeps(st, ts[0]);
        CondsAreFair(CondNoted(n, st, ts[0], Step(st, ts[0]), c), Step(st, ts[0]), ts[1..], c);
      }
    }
  }

  lemma CondStaysInUse(st: State, t: Trap, c: CondId)
    requires Allowed(st, t) && st.conds[c].inuse
    ensures Step(st, t).conds[c].inuse
  {
    hide Step;
    StepObjects(st, t);
  }

  lemma NotesGrow(n: Ledger, st: State, t: Trap, st': State, c: CondId)
    requires st.conds[c].inuse
    ensures n.asked <= CondNoted(n, st, t, st', c).asked
  {
  }

  // From any point of any run: the processes waiting there are woken in their order, one by one, and those not yet
  // woken are still on the queue. Nobody who waits is forgotten.
  lemma NoWakeupIsLost(st: State, ts: seq<Trap>, c: CondId)
    requires Inv(st) && AllAllowed(st, ts) && st.conds[c].inuse
    ensures var n := CondLedger(Ledger(st.conds[c].waiting, []), st, ts, c);
            st.conds[c].waiting <= n.asked && n.served + Run(st, ts).conds[c].waiting == n.asked
  {
    hide Inv, Run, CondLedger;
    CondsAreFair(Ledger(st.conds[c].waiting, []), st, ts, c);
  }

  // ---- Broadcast ----

  lemma SignalShrinks(st: State, c: CondId)
    requires OwnsLockOf(st, c) && st.conds[c].waiting != []
    ensures var st' := CondSignal(st, c);
            st'.current == st.current && OwnsLockOf(st', c) && st'.conds[c].waiting == st.conds[c].waiting[1..]
  {
    hide Wakeup;
    WakeFirstObjects(st, c);
    WakeupRunsOn(GiveLink(st).(conds := CondLeft(st, c)), st.conds[c].waiting[0]);
  }

  lemma WakeupRunsOn(st: State, p: Pid)
    ensures Wakeup(st, p).current == st.current
  {
  }

  function SignalAll(st: State, c: CondId): State
    requires OwnsLockOf(st, c)
    decreases |st.conds[c].waiting|
  {
    if st.conds[c].waiting == [] then st
    else
      SignalShrinks(st, c);
      SignalAll(CondSignal(st, c), c)
  }

  function CondBroadcast(st: State, c: CondId): State {
    if !OwnsLockOf(st, c) then Finish(st, OtherCall, SYNC_FAIL)
    else Finish(SignalAll(st, c), OtherCall, SYNC_SUCCESS)
  }

  lemma SignalReady(st: State, c: CondId)
    requires Ready(st) && st.cont[st.current] == User && st.conds[c].inuse
    requires OwnsLockOf(st, c) && st.conds[c].waiting != []
    ensures var st' := CondSignal(st, c);
            && Ready(st') && st'.cont == st.cont && st'.current == st.current && st'.locks == st.locks
            && st'.conds == st.conds[c := st.conds[c].(waiting := st.conds[c].waiting[1..])]
            && st'.runQueue == st.runQueue + [st.conds[c].waiting[0]]
  {
    hide QueuesOk, BlockedOk, SynchOk, WakeFirst;
    WakeFirstMoves(st, c);
    FinishKeeps(WakeFirst(st, c), OtherCall, SYNC_SUCCESS);
    assert st.cont[st.current := User] == st.cont;
  }

  // The loop of signals ends with nobody waiting: everyone has been made runnable, first come first, and the caller
  // still runs and still owns the lock.
  lemma {:induction false} BroadcastWakesEveryone(st: State, c: CondId)
    requires Ready(st) && st.cont[st.current] == User && st.conds[c].inuse && OwnsLockOf(st, c)
    ensures var st' := SignalAll(st, c);
            && Ready(st') && st'.cont == st.cont && st'.current == st.current && st'.locks == st.locks
            && st'.conds == st.conds[c := st.conds[c].(waiting := [])]
            && st'.runQueue == st.runQueue + st.conds[c].waiting
    decreases |st.conds[c].waiting|
  {
    hide Ready, CondSignal;
    var ws := st.conds[c].waiting;
    if ws != [] {
      SignalReady(st, c);
      SignalShrinks(st, c);
      BroadcastWakesEveryone(CondSignal(st, c), c);
      assert ws == [ws[0]] + ws[1..];
      assert st.runQueue + [ws[0]] + ws[1..] == st.runQueue + ws;
    } else {
      assert st.conds[c := st.conds[c].(waiting := [])] == st.conds;
    }
  }

  lemma BroadcastKeeps(st: State, c: CondId)
    requires Ready(st) && st.cont[st.current] == User && st.conds[c].inuse
    ensures Inv(CondBroadcast(st, c))
    ensures OwnsLockOf(st, c) ==> CondBroadcast(st, c).conds[c].waiting == []
  {
    hide QueuesOk, BlockedOk, SynchOk, SignalAll;
    if OwnsLockOf(st, c) {
      BroadcastWakesEveryone(st, c);
      FinishKeeps(SignalAll(st, c), OtherCall, SYNC_SUCCESS);
    } else {
      FinishKeeps(st, OtherCall, SYNC_FAIL);
    }
  }

  // The broadcast trap calls CondSignal, so it does what CondBroadcast does exactly when at most one process waits.
  lemma BroadcastTrapFallsShortIff(st: State, h: int)
    requires Ready(st) && st.cont[st.current] == User && GoodCond(st, h) && OwnsLockOf(st, h)
    ensures Handle(st, CondBroadcastTrap(h)) == CondBroadcast(st, h) <==> |st.conds[h].waiting| <= 1
  {
    hide QueuesOk, BlockedOk, SynchOk, WakeFirst;
    var ws := st.conds[h].waiting;
    BroadcastKeeps(st, h);
    if ws == [] {
      NobodyToWake(st, h);
    } else {
      SignalReady(st, h);
      SignalShrinks(st, h);
      var st1 := CondSignal(st, h);
      if |ws| == 1 {
        assert SignalAll(st, h) == SignalAll(st1, h) == st1;
        assert st1.cont[st1.current := User] == st1.cont;
      }
    }
  }

  // ---- A run with two waiters ----

  // Three processes; each of two acquires lock 0 and waits for condition 0, and the third acquires the lock.
  const Cast := [LockCreateTrap, CondCreateTrap(0), Create(true), Create(true)]
  const Turn := [LockAcquireTrap(0), CondWaitTrap(0)]

  function TwoWaiters(): seq<Trap> { Cast + Turn + Turn + [LockAcquireTrap(0)] }

  // The processes of `run` are runnable, in this order, and at user code; the first runs.
  ghost predicate Running(st: State, run: seq<Pid>) {
    Inv(st) && !st.halted && st.runQueue == run && forall p :: p in run ==> st.cont[p] == User
  }

  ghost predicate Scene(st: State, run: seq<Pid>, owner: int, waiting: seq<Pid>) {
    Running(st, run) && st.locks[0] == Lock(true, owner, []) && st.conds[0] == Cond(true, 0, waiting)
  }

  lemma Runs(st: State, run: seq<Pid>)
    requires Running(st, run)
    ensures run != [] && st.current == run[0] && Takes(st) && Ready(st.(ret := NoReturn))
  {
    Quiet(st);
    CurrentRuns(st.(ret := NoReturn));
  }

  lemma SceneAcquire(st: State, run: seq<Pid>, waiting: seq<Pid>)
    requires Scene(st, run, -1, waiting)
    ensures run != [] && Scene(Step(st, LockAcquireTrap(0)), run, run[0], waiting)
  {
    hide QueuesOk, BlockedOk, SynchOk, Sleep;
    Runs(st, run);
    StepKeeps(st, LockAcquireTrap(0));
  }

  lemma SceneWait(st: State, run: seq<Pid>, waiting: seq<Pid>)
    requires |run| > 1 && Scene(st, run, run[0], waiting)
    ensures Scene(Step(st, CondWaitTrap(0)), run[1..], -1, waiting + [run[0]])
  {
    hide QueuesOk, BlockedOk, SynchOk, CondWait;
    Runs(st, run);
    StepKeeps(st, CondWaitTrap(0));
    CondWaitAlone(st.(ret := NoReturn), 0);
    RunnersDiffer(st);
  }

  lemma RunnersDiffer(st: State)
    requires Inv(st) && !st.halted
    ensures forall i :: 0 < i < |st.runQueue| ==> st.runQueue[i] != st.current
  {
  }

  lemma SceneFork(st: State, run: seq<Pid>, p: Pid)
    requires Scene(st, run, -1, []) && st.freepcbs != [] && st.freepcbs[0] == p
    ensures Scene(Step(st, Create(true)), run + [p], -1, []) && Step(st, Create(true)).freepcbs == st.freepcbs[1..]
  {
    hide QueuesOk, BlockedOk, SynchOk, Fork;
    Runs(st, run);
    StepKeeps(st, Create(true));
    EnoughLinks(st);
    ForkMoves(st.(ret := NoReturn));
  }

  // A user program takes the sleep trap: its process waits on no waiting queue, while the others run on.
  lemma SleepTrapLosesAProcess()
    ensures AllAllowed(Boot(), Cast + [SleepTrap])
    ensures var st := Run(Boot(), Cast + [SleepTrap]);
            && !st.halted && st.runQueue == [30, 29] && st.flags[31] == WAITING
            && forall w :: 31 !in WaitingAt(st, w)
  {
    hide Inv, Boot, Step, Run, AllAllowed, Scene;
    CastIsSet();
    Next(Boot(), Cast, SleepTrap);
    SceneSleepTrap(Run(Boot(), Cast), [31, 30, 29]);
    WaitersInPlace(Run(Boot(), Cast + [SleepTrap]));
  }

  lemma SceneSleepTrap(st: State, run: seq<Pid>)
    requires |run| > 1 && Scene(st, run, -1, [])
    ensures var st' := Step(st, SleepTrap);
            Inv(st') && !st'.halted && st'.runQueue == run[1..] && Dozes(st', run[0])
  {
    hide QueuesOk, BlockedOk, SynchOk, Sleep;
    Runs(st, run);
    StepKeeps(st, SleepTrap);
    EnoughLinks(st);
    SleepMoves(st.(ret := NoReturn), User);
  }

  // A lock and a condition of it are made.
  lemma Opening()
    ensures var st := Step(Boot(), LockCreateTrap);
            && Allowed(st, CondCreateTrap(0)) && Scene(Step(st, CondCreateTrap(0)), [31], -1, [])
            && Step(st, CondCreateTrap(0)).freepcbs == CountDown(31)
  {
    hide Inv, Step, Boot, CountDown;
    AtBoot();
    FirstLock(Boot());
    var st := Step(Boot(), LockCreateTrap);
    StepKeeps(Boot(), LockCreateTrap);
    FirstCond(st);
    StepKeeps(st, CondCreateTrap(0));
  }

  lemma AtBoot()
    ensures Running(Boot(), [31]) && Boot().freepcbs == CountDown(31)
    ensures !Boot().locks[0].inuse && Boot().conds[0] == Cond(false, 0, []) && Boot().cont[31] == User
  {
    hide Inv, CountDown;
    BootIsSound();
  }

  lemma FirstLock(st: State)
    requires !st.halted && st.cont[st.current] == User && !st.locks[0].inuse
    ensures var st' := Step(st, LockCreateTrap);
            && st' == st.(locks := st.locks[0 := Lock(true, -1, [])], cont := st'.cont, ret := st'.ret)
            && st'.cont == st.cont
  {
    hide LocksUsed, FirstIdle;
    LockZeroIdle(st.locks);
    assert st.cont[st.current := User] == st.cont;
  }

  lemma LockZeroIdle(locks: Locks)
    requires !locks[0].inuse
    ensures FirstIdle(LocksUsed(locks)) == 0
  {
  }

  lemma CondZeroIdle(conds: Conds)
    requires !conds[0].inuse
    ensures FirstIdle(CondsUsed(conds)) == 0
  {
  }

  lemma FirstCond(st: State)
    requires !st.halted && st.cont[st.current] == User && st.locks[0].inuse && !st.conds[0].inuse
    ensures Allowed(st, CondCreateTrap(0))
    ensures var st' := Step(st, CondCreateTrap(0));
            && st' == st.(conds := st.conds[0 := Cond(true, 0, [])], cont := st'.cont, ret := st'.ret)
            && st'.cont == st.cont
  {
    hide CondsUsed, FirstIdle;
    CondZeroIdle(st.conds);
    assert st.cont[st.current := User] == st.cont;
  }

  lemma FirstTwo()
    ensures CountDown(31) == [30] + CountDown(30) && CountDown(30)[0] == 29
  {
  }

  lemma CastIsSet()
    ensures AllAllowed(Boot(), Cast) && Scene(Run(Boot(), Cast), [31, 30, 29], -1, [])
  {
    hide Inv, Step, Boot, Scene, CountDown;
    Opening();
    FirstTwo();
    var st1 := Step(Boot(), LockCreateTrap);
    var st2 := Step(st1, CondCreateTrap(0));
    var p: Pid, q: Pid, r: Pid := 31, 30, 29;
    assert [p] + [q] == [p, q] && [p, q] + [r] == [p, q, r];
    SceneFork(st2, [p], q);
    SceneFork(Step(st2, Create(true)), [p, q], r);
    assert Cast == [] + [Cast[0]] + [Cast[1]] + [Cast[2]] + [Cast[3]];
    Next(Boot(), [], Cast[0]);
    Next(Boot(), [] + [Cast[0]], Cast[1]);
    Next(Boot(), [] + [Cast[0]] + [Cast[1]], Cast[2]);
    Next(Boot(), [] + [Cast[0]] + [Cast[1]] + [Cast[2]], Cast[3]);
  }

  lemma TurnTaken(st: State, run: seq<Pid>, waiting: seq<Pid>)
    requires |run| > 1 && Scene(st, run, -1, waiting)
    ensures AllAllowed(st, Turn) && Scene(Run(st, Turn), run[1..], -1, waiting + [run[0]])
  {
    hide Inv, Step, Scene;
    SceneAcquire(st, run, waiting);
    SceneWait(Step(st, Turn[0]), run, waiting);
    Next(st, [], Turn[0]);
    Next(st, Turn[..1], Turn[1]);
  }

  lemma TwoWaitersRun()
    ensures AllAllowed(Boot(), TwoWaiters()) && Scene(Run(Boot(), TwoWaiters()), [29], 29, [31, 30])
  {
    hide Inv, Step, Boot, Scene, Run, AllAllowed;
    var run: seq<Pid> := [31, 30, 29];
    assert [] + [run[0]] == [run[0]] && [run[0]] + [run[1]] == [run[0], run[1]] && run[1..][1..] == [run[2]];
    CastIsSet();
    TurnTaken(Run(Boot(), Cast), run, []);
    Then(Boot(), Cast, Turn);
    TurnTaken(Run(Boot(), Cast + Turn), run[1..], [run[0]]);
    Then(Boot(), Cast + Turn, Turn);
    SceneAcquire(Run(Boot(), Cast + Turn + Turn), [run[2]], [run[0], run[1]]);
    Next(Boot(), Cast + Turn + Turn, LockAcquireTrap(0));
  }

  // So the machine does reach states in which the broadcast trap leaves a waiter asleep that CondBroadcast wakes.
  lemma BroadcastTrapForgetsAWaiter()
    ensures AllAllowed(Boot(), TwoWaiters())
    ensures var st := Run(Boot(), TwoWaiters());
            && Ready(st) && st.cont[st.current] == User && GoodCond(st, 0) && OwnsLockOf(st, 0)
            && st.conds[0].waiting == [31, 30]
            && Handle(st, CondBroadcastTrap(0)).conds[0].waiting == [30]
            && CondBroadcast(st, 0).conds[0].waiting == []
  {
    hide Inv, Ready, Boot, Run, TwoWaiters, Handle, CondBroadcast, CondSignal;
    TwoWaitersRun();
    var st := Run(Boot(), TwoWaiters());
    Runs(st, [29]);
    CurrentRuns(st);
    BroadcastKeeps(st, 0);
    SignalReady(st, 0);
    TrapIsSignal(st, 0);
  }

  lemma TrapIsSignal(st: State, h: int)
    requires GoodCond(st, h)
    ensures Handle(st, CondBroadcastTrap(h)) == CondSignal(st, h)
  {
  }

  // ---- Creation ----

  // The scan for a condition variable goes over more entries than there are handles: what CondCreate returns can be
  // used if and only if the lock is not negative and one of the first MAX_CONDS entries is idle. With exactly these
  // taken it reports failure, but marks the next entry; from then on it reports success.
  lemma CondHandleIsGoodIff(st: State, lock: int)
    requires lock < MAX_LOCKS && FirstIdle(CondsUsed(st.conds)) < MAX_LOCKS
    ensures var st' := CondCreate(st, lock); var idle := FirstIdle(CondsUsed(st.conds));
            && st'.ret.Returned? && st'.ret.pid == st.current
            && (GoodCond(st', st'.ret.code) <==> 0 <= lock && idle < MAX_CONDS)
            && (st'.ret.code == SYNC_FAIL <==> lock < 0 || idle == MAX_CONDS)
            && (0 <= lock && idle > MAX_CONDS ==> st'.ret.code == idle && !GoodCond(st', idle))
            && (0 <= lock && idle < MAX_CONDS ==>
                  st'.ret.code == idle && st'.conds == st.conds[idle := Cond(true, lock, [])])
            && (lock < 0 || idle == MAX_CONDS ==> forall c :: 0 <= c < MAX_CONDS ==> st'.conds[c] == st.conds[c])
  {
  }

  // CondCreate is documented to fail on a lock that is not valid or when no condition is left. It does so if and only
  // if the lock is negative, exactly the usable entries are taken, or it need not fail at all.
  lemma CondCreateFailsAsDocumentedIff(st: State, lock: int)
    requires lock < MAX_LOCKS && FirstIdle(CondsUsed(st.conds)) < MAX_LOCKS
    ensures var idle := FirstIdle(CondsUsed(st.conds));
            var fails := CondCreate(st, lock).ret.Returned? && CondCreate(st, lock).ret.code == SYNC_FAIL;
            (fails <==> !GoodLock(st, lock) || idle >= MAX_CONDS)
            <==> lock < 0 || idle == MAX_CONDS || (idle < MAX_CONDS && st.locks[lock].inuse)
  {
    CondHandleIsGoodIff(st, lock);
  }

  function Creates(n: nat): seq<Trap> {
    if n == 0 then [LockCreateTrap] else Creates(n - 1) + [CondCreateTrap(0)]
  }

  // Lock 0 exists and the first n conditions are taken.
  ghost predicate Created(st: State, n: nat) {
    Running(st, [31]) && st.locks[0].inuse && forall c: CondId :: st.conds[c].inuse <==> c < n
  }

  lemma FirstIdleIs(st: State, n: nat)
    requires n <= MAX_LOCKS && forall c: CondId :: st.conds[c].inuse <==> c < n
    ensures FirstIdle(CondsUsed(st.conds)) == n
  {
    var used := CondsUsed(st.conds);
    var i := FirstIdle(used);
    assert i < |used| ==> used[i] == (i < n);
    assert n < |used| ==> !used[n];
  }

  lemma CreatesOne(st: State, n: nat)
    requires n < MAX_LOCKS && Created(st, n)
    ensures Allowed(st, CondCreateTrap(0))
    ensures var st' := Step(st, CondCreateTrap(0));
            Created(st', n + 1) && st'.ret == Returned(31, OtherCall, if n == MAX_CONDS then SYNC_FAIL else n)
  {
    hide QueuesOk, BlockedOk, SynchOk, CondsUsed, FirstIdle;
    Runs(st, [31]);
    FirstIdleIs(st, n);
    StepKeeps(st, CondCreateTrap(0));
  }

  lemma {:induction false} CreatesMany(n: nat)
    requires n <= MAX_LOCKS
    ensures AllAllowed(Boot(), Creates(n)) && Created(Run(Boot(), Creates(n)), n)
  {
    hide Inv, Step, Boot, Created;
    if n == 0 {
      LockMade();
      Next(Boot(), [], LockCreateTrap);
      assert [] + [LockCreateTrap] == Creates(0);
    } else {
      CreatesMany(n - 1);
      CreatesOne(Run(Boot(), Creates(n - 1)), n - 1);
      Next(Boot(), Creates(n - 1), CondCreateTrap(0));
    }
  }

  lemma LockMade()
    ensures Created(Step(Boot(), LockCreateTrap), 0)
  {
    hide QueuesOk, BlockedOk, SynchOk, CountDown, Step;
    AtBoot();
    FirstLock(Boot());
    StepKeeps(Boot(), LockCreateTrap);
  }

  // The run of one lock and 33 conditions, after which the next condition is handle 33: reported as a success, and
  // refused by every trap.
  lemma CondHandleThatNobodyTakes()
    ensures AllAllowed(Boot(), Creates(34))
    ensures var st := Run(Boot(), Creates(34));
            && st.ret == Returned(31, OtherCall, 33) && st.conds[33].inuse && !st.halted
            && Step(st, CondWaitTrap(33)).ret == Returned(31, CondWaitCall(33), SYNC_FAIL)
            && Step(st, CondSignalTrap(33)).ret == Returned(31, OtherCall, SYNC_FAIL)
            && Step(st, CondBroadcastTrap(33)).ret == Returned(31, OtherCall, SYNC_FAIL)
  {
    hide Inv, Boot, Run, AllAllowed, Step, Creates;
    CreatesMany(33);
    var st := Run(Boot(), Creates(33));
    CreatesOne(st, 33);
    OneMore(33);
    Next(Boot(), Creates(33), CondCreateTrap(0));
    Runs(Run(Boot(), Creates(34)), [31]);
    Refused(Run(Boot(), Creates(34)), 33);
  }

  lemma OneMore(n: nat)
    ensures Creates(n + 1) == Creates(n) + [CondCreateTrap(0)]
  {
  }

  lemma Refused(st: State, h: int)
    requires Takes(st) && !GoodCond(st, h)
    ensures Step(st, CondWaitTrap(h)).ret == Returned(st.current, CondWaitCall(h), SYNC_FAIL)
    ensures Step(st, CondSignalTrap(h)).ret == Returned(st.current, OtherCall, SYNC_FAIL)
    ensures Step(st, CondBroadcastTrap(h)).ret == Returned(st.current, OtherCall, SYNC_FAIL)
  {
  }

  // ---- A condition on a lock that was never made ----

  function Repeated(t: Trap, n: nat): (ts: seq<Trap>)
    ensures |ts| == n
  {
    if n == 0 then [] else Repeated(t, n - 1) + [t]
  }

  // A condition on lock 5, which nobody makes, as many processes as there are control blocks, and so many turns that
  // process 0 runs.
  function ZeroRuns(): seq<Trap> { [CondCreateTrap(5)] + Repeated(Create(true), 31) + Repeated(Yield, 31) }

  ghost predicate Unmade(st: State, run: seq<Pid>) {
    Running(st, run) && st.locks[5] == Lock(false, 0, []) && st.conds[0] == Cond(true, 5, [])
  }

  lemma UnmadeCond()
    ensures Allowed(Boot(), CondCreateTrap(5))
    ensures var st := Step(Boot(), CondCreateTrap(5)); Unmade(st, [31]) && st.freepcbs == CountDown(31)
  {
    hide QueuesOk, BlockedOk, SynchOk, CountDown, CondsUsed, FirstIdle;
    AtBoot();
    CondZeroIdle(Boot().conds);
    StepKeeps(Boot(), CondCreateTrap(5));
  }

  lemma UnmadeFork(st: State, run: seq<Pid>)
    requires Unmade(st, run) && st.freepcbs != []
    ensures var st' := Step(st, Create(true));
            Unmade(st', run + [st.freepcbs[0]]) && st'.freepcbs == st.freepcbs[1..]
  {
    hide QueuesOk, BlockedOk, SynchOk, Fork;
    Runs(st, run);
    StepKeeps(st, Create(true));
    EnoughLinks(st);
    ForkMoves(st.(ret := NoReturn));
  }

  lemma UnmadeYield(st: State, run: seq<Pid>)
    requires Unmade(st, run)
    ensures run != [] && Unmade(Step(st, Yield), Rotated(run))
  {
    hide QueuesOk, BlockedOk, SynchOk, Schedule;
    Runs(st, run);
    StepKeeps(st, Yield);
    EnoughLinks(st);
    ScheduleMoves(st.(ret := NoReturn));
  }

  lemma {:induction false} UnmadeForks(st: State, run: seq<Pid>, n: nat)
    requires Unmade(st, run) && n <= |st.freepcbs|
    ensures AllAllowed(st, Repeated(Create(true), n))
    ensures var st' := Run(st, Repeated(Create(true), n));
            Unmade(st', run + st.freepcbs[..n]) && st'.freepcbs == st.freepcbs[n..]
  {
    hide Inv, Step, Unmade;
    if n == 0 {
      assert run + st.freepcbs[..0] == run;
    } else {
      UnmadeForks(st, run, n - 1);
      var st1 := Run(st, Repeated(Create(true), n - 1));
      UnmadeFork(st1, run + st.freepcbs[..n - 1]);
      Next(st, Repeated(Create(true), n - 1), Create(true));
      assert run + st.freepcbs[..n - 1] + [st.freepcbs[n - 1]] == run + st.freepcbs[..n];
    }
  }

  lemma {:induction false} UnmadeYields(st: State, run: seq<Pid>, n: nat)
    requires Unmade(st, run) && n < |run|
    ensures AllAllowed(st, Repeated(Yield, n))
    ensures Unmade(Run(st, Repeated(Yield, n)), run[n..] + run[..n])
  {
    hide Inv, Step, Unmade;
    if n == 0 {
      assert run[0..] + run[..0] == run;
    } else {
      UnmadeYields(st, run, n - 1);
      var turned := run[n - 1..] + run[..n - 1];
      UnmadeYield(Run(st, Repeated(Yield, n - 1)), turned);
      Next(st, Repeated(Yield, n - 1), Yield);
      assert Rotated(turned) == run[n..] + run[..n];
    }
  }

  // Process 0 passes for the owner of a lock that nobody has made, and waits for the condition; then there is no owner.
  lemma ZeroWaitsOnUnmadeLock()
    ensures AllAllowed(Boot(), ZeroRuns())
    ensures var st := Run(Boot(), ZeroRuns());
            && st.current == 0 && GoodCond(st, 0) && !st.locks[st.conds[0].lock].inuse && OwnsLockOf(st, 0)
            && var st' := Step(st, CondWaitTrap(0));
               !st'.halted && st'.conds[0].waiting == [0] && st'.locks[5] == Lock(false, -1, [])
  {
    hide Inv, Step, Boot, CountDown, Unmade, Run, AllAllowed;
    var one, forks, turns := [CondCreateTrap(5)], Repeated(Create(true), 31), Repeated(Yield, 31);
    UnmadeCond();
    BootRun();
    Next(Boot(), [], CondCreateTrap(5));
    assert [] + one == one;
    ZeroIsLast();
    UnmadeForks(Run(Boot(), one), [31], 31);
    Then(Boot(), one, forks);
    var run := [31] + CountDown(31)[..31];
    UnmadeYields(Run(Boot(), one + forks), run, 31);
    Then(Boot(), one + forks, turns);
    ZeroWaits(Run(Boot(), ZeroRuns()), run[31..] + run[..31]);
  }

  lemma BootRun()
    ensures AllAllowed(Boot(), []) && Run(Boot(), []) == Boot()
  {
  }

  lemma ZeroIsLast()
    ensures |CountDown(31)| == 31 && CountDown(31)[30] == 0
  {
    hide CountDown;
  }

  lemma ZeroWaits(st: State, run: seq<Pid>)
    requires Unmade(st, run) && |run| > 1 && run[0] == 0
    ensures st.current == 0 && GoodCond(st, 0) && !st.locks[st.conds[0].lock].inuse && OwnsLockOf(st, 0)
    ensures var st' := Step(st, CondWaitTrap(0));
            !st'.halted && st'.conds[0].waiting == [0] && st'.locks[5] == Lock(false, -1, [])
  {
    hide QueuesOk, BlockedOk, SynchOk, CondWait;
    Runs(st, run);
    CondWaitAlone(st.(ret := NoReturn), 0);
  }
}
