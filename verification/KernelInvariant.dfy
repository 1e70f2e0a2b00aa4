/** What every step of the kernel keeps: processes partitioned over the queues their status names, blocked processes
    each on exactly one waiting queue, locks owned or idle, links accounted for. */
module KernelInvariant {
  import opened KernelState

  ghost predicate NoDup(q: seq<Pid>) {
    forall i, j :: 0 <= i < j < |q| ==> q[i] != q[j]
  }

  // ---- The four process queues ----

  ghost predicate Holds(q: seq<Pid>, flags: Flags, s: Status) {
    NoDup(q) && forall p: Pid :: p in q <==> flags[p] == s
  }

  ghost predicate QueuesOk(st: State) {
    && Holds(st.freepcbs, st.flags, FREE)
    && Holds(st.runQueue, st.flags, RUNNABLE)
    && Holds(st.waitQueue, st.flags, WAITING)
    && Holds(st.zombieQueue, st.flags, ZOMBIE)
  }

  // ---- The waiting queues of semaphores, locks and condition variables ----

  datatype Place = Nowhere | OnSem(s: SemId) | OnLock(k: LockId) | OnCond(c: CondId)

  function WaitingAt(st: State, w: Place): seq<Pid> {
    match w
    case Nowhere => []
    case OnSem(s) => st.sems[s].waiting
    case OnLock(k) => st.locks[k].waiting
    case OnCond(c) => st.conds[c].waiting
  }

  // Where a process is blocked.
  function Where(st: State, p: Pid): Place {
    if st.flags[p] != WAITING then Nowhere
    else match st.cont[p]
      case User => Nowhere
      case InSemWait(s) => OnSem(s)
      case InLockAcquire(k) => OnLock(k)
      case InCondWait(c) => OnCond(c)
      case InCondLock(c) => OnLock(st.conds[c].lock)
  }

  // Every process asleep inside a trap is on exactly one waiting queue, the one it fell asleep on, and nobody else is
  // on any.
  ghost predicate BlockedOk(st: State) {
    && (forall w :: NoDup(WaitingAt(st, w)))
    && (forall w, p :: p in WaitingAt(st, w) ==> Where(st, p) == w)
    && (forall p: Pid :: Where(st, p) != Nowhere ==> p in WaitingAt(st, Where(st, p)))
  }

  // ---- Locks, conditions, semaphores ----

  // A process that is about to return from acquiring lock k owns it already; one that is woken from a condition finds
  // its lock made.
  predicate Acquired(st: State, p: Pid) {
    match st.cont[p]
    case InLockAcquire(k) => st.locks[k].pid == p
    case InCondWait(c) => st.locks[st.conds[c].lock].inuse
    case InCondLock(c) => st.locks[st.conds[c].lock].pid == p
    case _ => true
  }

  ghost predicate LockOk(lock: Lock) {
    && -1 <= lock.pid < MAX_PROCS
    && (lock.pid == -1 ==> lock.waiting == [])
    && (lock.pid >= 0 ==> lock.pid !in lock.waiting)
    && (!lock.inuse ==> lock.waiting == [] && lock.pid <= 0)
  }

  // A lock that was never made starts out with owner 0, so process 0 passes for its owner until it waits; then it
  // waits alone, and nobody passes for the owner any more.
  ghost predicate UnmadeOk(lock: Lock, waiting: seq<Pid>) {
    !lock.inuse && waiting != [] ==> lock.pid == -1 && forall p :: p in waiting ==> p == 0
  }

  ghost predicate SemOk(sem: Sem) {
    (sem.waiting != [] ==> sem.inuse && sem.count <= 0)
  }

  predicate UsesOnly(st: State, c: Cont) {
    match c
    case User => true
    case InSemWait(s) => st.sems[s].inuse
    case InLockAcquire(k) => st.locks[k].inuse
    case InCondWait(c) => st.conds[c].inuse && c < MAX_CONDS
    case InCondLock(c) => st.conds[c].inuse && c < MAX_CONDS && st.locks[st.conds[c].lock].inuse
  }

  ghost predicate SynchOk(st: State) {
    && (forall k: LockId :: LockOk(st.locks[k]))
    && (forall s: SemId :: SemOk(st.sems[s]))
    && (forall c: CondId :: UnmadeOk(st.locks[st.conds[c].lock], st.conds[c].waiting))
    && (forall c: CondId :: !st.conds[c].inuse ==> st.conds[c].waiting == [])
    && (forall p: Pid :: st.flags[p] == RUNNABLE ==> Acquired(st, p))
    && (forall p: Pid :: UsesOnly(st, st.cont[p]))
  }

  // The processes that sleep inside a trap.
  ghost function Blocked(flags: Flags, cont: Conts): set<int> {
    set p | 0 <= p < MAX_PROCS && flags[p] == WAITING && cont[p] != User
  }

  // Links in use: one for each process and one more for each of these.
  ghost predicate LinksOk(st: State) {
    st.freeLinks == MAX_LINKS - MAX_PROCS - |Blocked(st.flags, st.cont)|
  }

  lemma BlockedSame(flags: Flags, cont: Conts, flags': Flags, cont': Conts)
    requires forall p: Pid :: (flags'[p] == WAITING && cont'[p] != User) <==> (flags[p] == WAITING && cont[p] != User)
    ensures Blocked(flags', cont') == Blocked(flags, cont)
  {
  }

  lemma BlockedMore(flags: Flags, cont: Conts, p: Pid, c: Cont)
    requires flags[p] != WAITING && c != User
    ensures |Blocked(flags[p := WAITING], cont[p := c])| == |Blocked(flags, cont)| + 1
  {
    assert Blocked(flags[p := WAITING], cont[p := c]) == Blocked(flags, cont) + {p};
  }

  lemma BlockedLess(flags: Flags, cont: Conts, p: Pid)
    requires flags[p] == WAITING && cont[p] != User
    ensures |Blocked(flags[p := RUNNABLE], cont)| == |Blocked(flags, cont)| - 1
  {
    assert Blocked(flags[p := RUNNABLE], cont) == Blocked(flags, cont) - {p};
  }

  ghost function UpTo(n: nat): (s: set<int>)
    ensures |s| == n && forall p :: p in s <==> 0 <= p < n
  {
    if n == 0 then {} else UpTo(n - 1) + {n - 1}
  }

  lemma BlockedAreProcesses(flags: Flags, cont: Conts)
    ensures |Blocked(flags, cont)| <= MAX_PROCS
  {
    var b, u := Blocked(flags, cont), UpTo(MAX_PROCS);
    assert b <= u;
    assert |u| == |b| + |u - b| by { assert u == b + (u - b); }
  }

  // After every trap step of a machine that has not stopped.
  ghost predicate Inv(st: State) {
    !st.halted ==>
      && QueuesOk(st) && BlockedOk(st) && SynchOk(st) && LinksOk(st)
      && !st.complained
      && st.zombieQueue == []
      && st.runQueue != [] && st.runQueue[0] == st.current
  }

  // ---- Sequences ----

  lemma {:induction false} MinusFacts(q: seq<Pid>, p: Pid)
    requires NoDup(q)
    ensures NoDup(Minus(q, p)) && forall x :: x in Minus(q, p) <==> x in q && x != p
    ensures p !in q ==> Minus(q, p) == q
    ensures |Minus(q, p)| == if p in q then |q| - 1 else |q|
    ensures q != [] && q[0] == p ==> Minus(q, p) == q[1..]
  {
    if q != [] {
      assert q == [q[0]] + q[1..];
      assert NoDup(q[1..]);
      if q[0] != p {
        var m := Minus(q[1..], p);
        MinusFacts(q[1..], p);
        assert Minus(q, p) == [q[0]] + m;
        assert forall j :: 0 <= j < |m| ==> m[j] in m;
      }
    }
  }

  // ---- The process queues under each routine ----

  lemma OnlyItsQueue(st: State, p: Pid)
    requires QueuesOk(st)
    ensures OnSomeQueue(st, p)
    ensures st.flags[p] != FREE ==> Minus(st.freepcbs, p) == st.freepcbs
    ensures st.flags[p] != RUNNABLE ==> Minus(st.runQueue, p) == st.runQueue
    ensures st.flags[p] != WAITING ==> Minus(st.waitQueue, p) == st.waitQueue
    ensures st.flags[p] != ZOMBIE ==> Minus(st.zombieQueue, p) == st.zombieQueue
  {
    MinusFacts(st.freepcbs, p);
    MinusFacts(st.runQueue, p);
    MinusFacts(st.waitQueue, p);
    MinusFacts(st.zombieQueue, p);
  }

  lemma Leaves(q: seq<Pid>, flags: Flags, s: Status, p: Pid, t: Status)
    requires Holds(q, flags, s) && s != t && flags[p] == s
    ensures Holds(Minus(q, p), flags[p := t], s)
  {
    MinusFacts(q, p);
  }

  lemma Stays(q: seq<Pid>, flags: Flags, s: Status, p: Pid, t: Status)
    requires Holds(q, flags, s) && flags[p] != s && s != t
    ensures Holds(q, flags[p := t], s)
  {
  }

  lemma JoinsEnd(q: seq<Pid>, flags: Flags, s: Status, p: Pid)
    requires Holds(q, flags, s) && flags[p] != s
    ensures Holds(q + [p], flags[p := s], s) && Holds([p] + q, flags[p := s], s)
  {
    assert forall i :: 0 <= i < |q| ==> q[i] in q;
  }

  lemma SuspendMoves(st: State, p: Pid)
    requires QueuesOk(st) && st.flags[p] == RUNNABLE && st.freeLinks >= 0
    ensures var st' := st.(flags := st.flags[p := WAITING], runQueue := Minus(st.runQueue, p),
        waitQueue := st.waitQueue + [p]);
            Suspend(st, p) == st' && QueuesOk(st')
  {
    hide Holds, Minus, NoDup;
    OnlyItsQueue(st, p);
    Stays(st.freepcbs, st.flags, FREE, p, WAITING);
    Leaves(st.runQueue, st.flags, RUNNABLE, p, WAITING);
    JoinsEnd(st.waitQueue, st.flags, WAITING, p);
    Stays(st.zombieQueue, st.flags, ZOMBIE, p, WAITING);
  }

  lemma WakeupMoves(st: State, p: Pid)
    requires QueuesOk(st) && st.flags[p] == WAITING && st.freeLinks >= 0
    ensures var st' := st.(flags := st.flags[p := RUNNABLE], waitQueue := Minus(st.waitQueue, p),
        runQueue := st.runQueue + [p]);
            Wakeup(st, p) == st' && QueuesOk(st')
  {
    hide Holds, Minus, NoDup;
    OnlyItsQueue(st, p);
    Stays(st.freepcbs, st.flags, FREE, p, RUNNABLE);
    JoinsEnd(st.runQueue, st.flags, RUNNABLE, p);
    Leaves(st.waitQueue, st.flags, WAITING, p, RUNNABLE);
    Stays(st.zombieQueue, st.flags, ZOMBIE, p, RUNNABLE);
  }

  lemma DestroyMoves(st: State, p: Pid)
    requires QueuesOk(st) && st.flags[p] == RUNNABLE && st.freeLinks >= 0
    ensures var st' := st.(flags := st.flags[p := ZOMBIE], runQueue := Minus(st.runQueue, p),
        zombieQueue := [p] + st.zombieQueue);
            Destroy(st, p) == st' && QueuesOk(st')
  {
    hide Holds, Minus, NoDup;
    OnlyItsQueue(st, p);
    Stays(st.freepcbs, st.flags, FREE, p, ZOMBIE);
    Leaves(st.runQueue, st.flags, RUNNABLE, p, ZOMBIE);
    Stays(st.waitQueue, st.flags, WAITING, p, ZOMBIE);
    JoinsEnd(st.zombieQueue, st.flags, ZOMBIE, p);
  }

  lemma ReapMoves(st: State)
    requires QueuesOk(st) && st.freeLinks >= 0 && st.zombieQueue != []
    ensures var p := st.zombieQueue[0];
            var st' := st.(flags := st.flags[p := FREE], zombieQueue := st.zombieQueue[1..],
                freepcbs := st.freepcbs + [p]);
            st.flags[p] == ZOMBIE && FreeResources(Unqueue(st, p), p) == st' && QueuesOk(st')
  {
    hide Minus, NoDup;
    var p := st.zombieQueue[0];
    assert p in st.zombieQueue;
    OnlyItsQueue(st, p);
    MinusFacts(st.zombieQueue, p);
    JoinsEnd(st.freepcbs, st.flags, FREE, p);
    Stays(st.runQueue, st.flags, RUNNABLE, p, FREE);
    Stays(st.waitQueue, st.flags, WAITING, p, FREE);
    Leaves(st.zombieQueue, st.flags, ZOMBIE, p, FREE);
  }

  lemma NoZombies(st: State)
    requires QueuesOk(st) && st.zombieQueue == []
    ensures forall p: Pid :: st.flags[p] != ZOMBIE
  {
  }

  lemma {:induction false} DrainMoves(st: State)
    requires QueuesOk(st) && st.freeLinks >= 0
    ensures var st' := Drained(st);
            && st' == st.(flags := st'.flags, zombieQueue := [], freepcbs := st.freepcbs + st.zombieQueue)
            && (forall p: Pid :: st'.flags[p] == if st.flags[p] == ZOMBIE then FREE else st.flags[p])
            && QueuesOk(st')
    decreases |st.zombieQueue|
  {
    hide QueuesOk, Unqueue, FreeResources;
    if st.zombieQueue == [] {
      NoZombies(st);
    } else {
      var p := st.zombieQueue[0];
      ReapMoves(st);
      var st1 := FreeResources(Unqueue(st, p), p);
      assert Drained(st) == Drained(st1);
      DrainMoves(st1);
      assert st.freepcbs + [p] + st.zombieQueue[1..] == st.freepcbs + st.zombieQueue;
    }
  }

  lemma RotateHolds(q: seq<Pid>, flags: Flags, s: Status)
    requires Holds(q, flags, s) && q != []
    ensures Holds(Rotated(q), flags, s)
  {
    assert q == [q[0]] + q[1..];
    assert forall p :: p in Rotated(q) <==> p in q;
  }

  // The scheduler either stops the machine or runs the head of the run queue, moving the old head to the end if
  // the current process can go on.
  lemma ScheduleMoves(st: State)
    requires QueuesOk(st) && st.freeLinks >= 0 && st.runQueue != []
    ensures var st' := Schedule(st);
            var q := if st.flags[st.current] == RUNNABLE then Rotated(st.runQueue) else st.runQueue;
            && st' == st.(flags := st'.flags, runQueue := q, current := q[0], zombieQueue := [],
                          freepcbs := st.freepcbs + st.zombieQueue)
            && (forall p: Pid :: st'.flags[p] == if st.flags[p] == ZOMBIE then FREE else st.flags[p])
            && QueuesOk(st')
  {
    hide Holds;
    if st.flags[st.current] == RUNNABLE { RotateHolds(st.runQueue, st.flags, RUNNABLE); }
    var q := if st.flags[st.current] == RUNNABLE then Rotated(st.runQueue) else st.runQueue;
    DrainMoves(st.(runQueue := q, current := q[0]));
  }

  // ---- The waiting queues when one process blocks or is released ----

  ghost predicate SamePlaces(st: State, st': State, p: Pid) {
    forall q: Pid :: q != p ==> Where(st', q) == Where(st, q)
  }

  lemma Blocks(st: State, st': State, p: Pid, w: Place)
    requires BlockedOk(st) && st.flags[p] != WAITING && w != Nowhere
    requires SamePlaces(st, st', p) && st'.flags[p] == WAITING && Where(st', p) == w
    requires forall v :: WaitingAt(st', v) == if v == w then WaitingAt(st, w) + [p] else WaitingAt(st, v)
    ensures BlockedOk(st')
  {
    var q := WaitingAt(st, w);
    assert Where(st, p) == Nowhere;
    forall v, x | x in WaitingAt(st', v)
      ensures Where(st', x) == v
    {
      if x in WaitingAt(st, v) { assert Where(st, x) == v; }
    }
    forall v
      ensures NoDup(WaitingAt(st', v))
    {
      assert NoDup(WaitingAt(st, v));
      if v == w {
        assert p !in q;
        assert forall i :: 0 <= i < |q| ==> q[i] in q;
      }
    }
  }

  lemma Unblocks(st: State, st': State, w: Place)
    requires BlockedOk(st) && WaitingAt(st, w) != []
    requires var p := WaitingAt(st, w)[0]; SamePlaces(st, st', p) && st'.flags[p] != WAITING
    requires forall v :: WaitingAt(st', v) == if v == w then WaitingAt(st, w)[1..] else WaitingAt(st, v)
    ensures BlockedOk(st')
  {
    var q := WaitingAt(st, w);
    assert q == [q[0]] + q[1..] && q[0] in q;
    assert NoDup(q);
    assert forall x :: x in q[1..] ==> x in q && x != q[0];
    forall v, x | x in WaitingAt(st', v)
      ensures Where(st', x) == v
    {
      assert x in WaitingAt(st, v) && Where(st, x) == v;
      assert Where(st, q[0]) == w;
      assert x != q[0];
    }
    forall x: Pid | Where(st', x) != Nowhere
      ensures x in WaitingAt(st', Where(st', x))
    {
      assert x in WaitingAt(st, Where(st, x));
    }
  }

  lemma SamePlacesKeep(st: State, st': State)
    requires BlockedOk(st)
    requires forall q: Pid :: Where(st', q) == Where(st, q)
    requires forall v :: WaitingAt(st', v) == WaitingAt(st, v)
    ensures BlockedOk(st')
  {
  }

  lemma EnoughLinks(st: State)
    requires LinksOk(st)
    ensures st.freeLinks >= MAX_LINKS - 2 * MAX_PROCS
  {
    BlockedAreProcesses(st.flags, st.cont);
  }

  // ---- Every step keeps the invariant ----

  ghost predicate Ready(st: State) {
    Inv(st) && !st.halted && st.flags[st.current] == RUNNABLE
  }

  lemma CurrentRuns(st: State)
    requires Inv(st) && !st.halted
    ensures Ready(st)
  {
    assert st.current in st.runQueue;
  }

  lemma StopsWhenIdle(st: State)
    requires st.runQueue == []
    ensures Schedule(st).halted
  {
  }

  // A step in which processes at most die keeps what concerns blocked processes, locks and semaphores.
  lemma OnlyDeaths(st: State, st': State)
    requires BlockedOk(st) && SynchOk(st)
    requires st'.sems == st.sems && st'.locks == st.locks && st'.conds == st.conds && st'.cont == st.cont
    requires forall p: Pid :: st'.flags[p] == st.flags[p] || (st.flags[p] == RUNNABLE && st'.flags[p] == FREE)
    ensures BlockedOk(st') && SynchOk(st') && Blocked(st'.flags, st'.cont) == Blocked(st.flags, st.cont)
  {
    SamePlacesKeep(st, st');
    BlockedSame(st.flags, st.cont, st'.flags, st'.cont);
  }

  lemma ScheduleKeeps(st: State)
    requires Ready(st)
    ensures Inv(Schedule(st))
  {
    hide QueuesOk, BlockedOk, SynchOk, Schedule, Destroy, Minus, NoDup;
    EnoughLinks(st);
    ScheduleMoves(st);
    NoZombies(st);
    OnlyDeaths(st, Schedule(st));
  }

  lemma ExitKeeps(st: State)
    requires Ready(st) && st.cont[st.current] == User
    ensures Inv(Schedule(Destroy(st, st.current)))
  {
    hide QueuesOk, BlockedOk, SynchOk, Schedule, Destroy, Minus, NoDup;
    var p := st.current;
    EnoughLinks(st);
    DestroyMoves(st, p);
    var st1 := Destroy(st, p);
    var st2 := Schedule(st1);
    if st1.runQueue == [] {
      StopsWhenIdle(st1);
    } else {
      ScheduleMoves(st1);
      NoZombies(st);
      OnlyDeaths(st, st2);
    }
  }

  // The trap by which the kernel puts a process to sleep, taken from user code: the process is on no waiting queue.
  lemma SleepTrapKeeps(st: State)
    requires Ready(st) && st.cont[st.current] == User
    ensures Inv(Sleep(st, User))
  {
    hide QueuesOk, BlockedOk, SynchOk, Sleep;
    EnoughLinks(st);
    SleepMoves(st, User);
    if |st.runQueue| > 1 { Dozing(st, Sleep(st, User)); }
  }

  lemma Dozing(st: State, st': State)
    requires BlockedOk(st) && SynchOk(st) && st.flags[st.current] == RUNNABLE
    requires st'.sems == st.sems && st'.locks == st.locks && st'.conds == st.conds
    requires st'.flags == st.flags[st.current := WAITING] && st'.cont == st.cont[st.current := User]
    ensures BlockedOk(st') && SynchOk(st') && Blocked(st'.flags, st'.cont) == Blocked(st.flags, st.cont)
  {
    SamePlacesKeep(st, st');
    BlockedSame(st.flags, st.cont, st'.flags, st'.cont);
  }

  lemma ForkMoves(st: State)
    requires QueuesOk(st) && st.freeLinks >= 0 && st.freepcbs != []
    ensures var p := st.freepcbs[0];
            && st.flags[p] == FREE
            && var st' := st.(flags := st.flags[p := RUNNABLE], freepcbs := st.freepcbs[1..],
                              runQueue := st.runQueue + [p], cont := st.cont[p := User]);
               Fork(st, true) == st' && QueuesOk(st')
  {
    hide Minus, NoDup;
    var p := st.freepcbs[0];
    assert p in st.freepcbs;
    OnlyItsQueue(st, p);
    MinusFacts(st.freepcbs, p);
    Leaves(st.freepcbs, st.flags, FREE, p, RUNNABLE);
    JoinsEnd(st.runQueue, st.flags, RUNNABLE, p);
    Stays(st.waitQueue, st.flags, WAITING, p, RUNNABLE);
    Stays(st.zombieQueue, st.flags, ZOMBIE, p, RUNNABLE);
  }

  // When the program cannot be opened the process goes to the end of the free list.
  lemma ForkFailsMoves(st: State)
    requires QueuesOk(st) && st.freeLinks >= 0 && st.freepcbs != []
    ensures Fork(st, false) == st.(freepcbs := Rotated(st.freepcbs)) && QueuesOk(Fork(st, false))
  {
    hide Minus, NoDup;
    var p := st.freepcbs[0];
    assert p in st.freepcbs;
    OnlyItsQueue(st, p);
    MinusFacts(st.freepcbs, p);
    RotateHolds(st.freepcbs, st.flags, FREE);
    assert st.flags[p := RUNNABLE][p := FREE] == st.flags;
  }

  lemma ForkKeeps(st: State, found: bool)
    requires Ready(st)
    ensures Inv(Fork(st, found))
  {
    hide QueuesOk, BlockedOk, SynchOk, Minus, NoDup;
    EnoughLinks(st);
    if st.freepcbs == [] {
      assert Fork(st, found).halted;
    } else if found {
      ForkMoves(st);
      NewProcess(st, Fork(st, true), st.freepcbs[0]);
    } else {
      ForkFailsMoves(st);
      OnlyDeaths(st, Fork(st, false));
    }
  }

  lemma NewProcess(st: State, st': State, p: Pid)
    requires BlockedOk(st) && SynchOk(st) && st.flags[p] == FREE
    requires st'.sems == st.sems && st'.locks == st.locks && st'.conds == st.conds
    requires st'.flags == st.flags[p := RUNNABLE] && st'.cont == st.cont[p := User]
    ensures BlockedOk(st') && SynchOk(st') && Blocked(st'.flags, st'.cont) == Blocked(st.flags, st.cont)
  {
    SamePlacesKeep(st, st');
    BlockedSame(st.flags, st.cont, st'.flags, st'.cont);
  }

  // The current process goes to sleep; the next in line runs, and without one the machine stops.
  lemma SleepMoves(st: State, c: Cont)
    requires QueuesOk(st) && st.freeLinks >= 0 && st.zombieQueue == []
    requires st.runQueue != [] && st.runQueue[0] == st.current && st.flags[st.current] == RUNNABLE
    ensures |st.runQueue| == 1 ==> Sleep(st, c).halted
    ensures |st.runQueue| > 1 ==>
              var p := st.current;
              var st' := st.(flags := st.flags[p := WAITING], cont := st.cont[p := c], runQueue := st.runQueue[1..],
                             waitQueue := st.waitQueue + [p], current := st.runQueue[1]);
              Sleep(st, c) == st' && QueuesOk(st')
  {
    var p := st.current;
    var st1 := st.(cont := st.cont[p := c]);
    SuspendMoves(st1, p);
    MinusFacts(st.runQueue, p);
    var st2 := Suspend(st1, p);
    if |st.runQueue| > 1 {
      ScheduleMoves(st2);
      assert Schedule(st2).flags == st2.flags;
    }
  }

  // Taking the first process off waiting queue w (its link is back already) and waking it.
  lemma WakesFirst(st: State, st1: State, w: Place)
    requires QueuesOk(st) && BlockedOk(st) && LinksOk(st) && WaitingAt(st, w) != []
    requires st1 == st.(sems := st1.sems, locks := st1.locks, conds := st1.conds, freeLinks := st.freeLinks + 1)
    ensures var p := WaitingAt(st, w)[0];
            var st' := st1.(flags := st.flags[p := RUNNABLE], waitQueue := Minus(st.waitQueue, p),
                runQueue := st.runQueue + [p]);
            st.flags[p] == WAITING && Wakeup(st1, p) == st' && QueuesOk(st') && LinksOk(st')
            && p in st.waitQueue && w == Where(st, p)
  {
    var p := WaitingAt(st, w)[0];
    assert p in WaitingAt(st, w);
    assert Where(st, p) == w;
    EnoughLinks(st);
    WakeupMoves(st1, p);
    BlockedLess(st.flags, st.cont, p);
  }

  lemma SameQueues(st: State, st': State)
    requires QueuesOk(st) && st'.flags == st.flags && st'.freepcbs == st.freepcbs && st'.runQueue == st.runQueue
    requires st'.waitQueue == st.waitQueue && st'.zombieQueue == st.zombieQueue
    ensures QueuesOk(st')
  {
  }

  // A process taken off a waiting queue had fallen asleep there.
  lemma ReleasedFrom(st: State, w: Place)
    requires BlockedOk(st) && WaitingAt(st, w) != []
    ensures var p := WaitingAt(st, w)[0]; st.flags[p] == WAITING && Where(st, p) == w
  {
    var p := WaitingAt(st, w)[0];
    assert p in WaitingAt(st, w);
    assert Where(st, p) == w != Nowhere;
  }

  // ---- Semaphores ----

  lemma SemFacts(st: State, s: SemId)
    requires SynchOk(st)
    ensures SemOk(st.sems[s])
  {
  }

  lemma SemEdited(st: State, st': State, s: SemId, sem: Sem)
    requires SynchOk(st) && SemOk(sem) && (st.sems[s].inuse ==> sem.inuse)
    requires st'.sems == st.sems[s := sem] && st'.locks == st.locks && st'.conds == st.conds
    requires forall p: Pid :: st'.flags[p] == RUNNABLE ==>
               st'.cont[p] == User || st'.cont[p] == InSemWait(s)
               || (st'.cont[p] == st.cont[p] && st.flags[p] == RUNNABLE)
    requires forall p: Pid ::
               st'.cont[p] == st.cont[p] || st'.cont[p] == User || (st'.cont[p] == InSemWait(s) && sem.inuse)
    ensures SynchOk(st')
  {
  }

  lemma SemSleeps(st: State, st': State, s: SemId, p: Pid)
    requires BlockedOk(st) && SynchOk(st) && st.sems[s].inuse && st.sems[s].count <= 0 && st.flags[p] == RUNNABLE
    requires st'.sems == st.sems[s := st.sems[s].(waiting := st.sems[s].waiting + [p])]
    requires st'.locks == st.locks && st'.conds == st.conds
    requires st'.flags == st.flags[p := WAITING] && st'.cont == st.cont[p := InSemWait(s)]
    ensures BlockedOk(st') && SynchOk(st')
  {
    hide BlockedOk, SynchOk;
    Blocks(st, st', p, OnSem(s));
    SemEdited(st, st', s, st'.sems[s]);
  }

  lemma SemWakes(st: State, st': State, s: SemId, p: Pid)
    requires BlockedOk(st) && SynchOk(st) && st.sems[s].waiting != [] && p == st.sems[s].waiting[0]
    requires st'.sems == st.sems[s := st.sems[s].(waiting := st.sems[s].waiting[1..])]
    requires st'.locks == st.locks && st'.conds == st.conds
    requires st'.flags == st.flags[p := RUNNABLE] && st'.cont == st.cont
    ensures BlockedOk(st') && SynchOk(st')
  {
    hide BlockedOk, SynchOk;
    SemFacts(st, s);
    ReleasedFrom(st, OnSem(s));
    Unblocks(st, st', OnSem(s));
    SemEdited(st, st', s, st'.sems[s]);
  }

  lemma SemCounts(st: State, st': State, s: SemId, count: int)
    requires BlockedOk(st) && SynchOk(st) && (st.sems[s].waiting != [] ==> count <= 0)
    requires st'.sems == st.sems[s := st.sems[s].(count := count)] && st'.locks == st.locks && st'.conds == st.conds
    requires st'.flags == st.flags && st'.cont == st.cont
    ensures BlockedOk(st') && SynchOk(st')
  {
    SamePlacesKeep(st, st');
    SemEdited(st, st', s, st'.sems[s]);
  }

  // Returning from a trap changes nothing that the invariant speaks about, if the process was at its beginning.
  lemma FinishKeeps(st: State, call: Call, code: int)
    requires Inv(st) && st.flags[st.current] == RUNNABLE
    ensures Inv(Finish(st, call, code))
  {
    var st' := Finish(st, call, code);
    if !st.halted {
      SamePlacesKeep(st, st');
      BlockedSame(st.flags, st.cont, st'.flags, st'.cont);
    }
  }

  lemma SemWaitKeeps(st: State, s: SemId)
    requires Ready(st) && st.cont[st.current] == User && st.sems[s].inuse
    ensures Inv(SemWait(st, s))
  {
    hide QueuesOk, BlockedOk, SynchOk, Sleep, Finish;
    var p, sem := st.current, st.sems[s];
    if sem.count <= 0 {
      EnoughLinks(st);
      var st1 := st.(freeLinks := st.freeLinks - 1, sems := st.sems[s := sem.(waiting := sem.waiting + [p])]);
      SameQueues(st, st1);
      SleepMoves(st1, InSemWait(s));
      BlockedMore(st.flags, st.cont, p, InSemWait(s));
      if |st.runQueue| > 1 { SemSleeps(st, SemWait(st, s), s, p); }
    } else {
      var st1 := st.(sems := st.sems[s := sem.(count := sem.count - 1)]);
      SemFacts(st, s);
      SameQueues(st, st1);
      SemCounts(st, st1, s, sem.count - 1);
      FinishKeeps(st1, SemWaitCall(s), SYNC_SUCCESS);
    }
  }

  lemma SemSignalKeeps(st: State, s: SemId)
    requires Ready(st) && st.cont[st.current] == User && st.sems[s].inuse
    ensures Inv(SemSignal(st, s))
  {
    hide QueuesOk, BlockedOk, SynchOk, Wakeup, Finish;
    var sem := st.sems[s];
    SemFacts(st, s);
    if sem.count + 1 > 0 && sem.waiting != [] {
      var p := sem.waiting[0];
      var st1 := st.(freeLinks := st.freeLinks + 1, sems := st.sems[s := sem.(waiting := sem.waiting[1..])]);
      WakesFirst(st, st1, OnSem(s));
      SemWakes(st, Wakeup(st1, p), s, p);
      StillRuns(st, Wakeup(st1, p), p);
      FinishKeeps(Wakeup(st1, p), OtherCall, SYNC_SUCCESS);
    } else {
      var st1 := st.(sems := st.sems[s := sem.(count := sem.count + 1)]);
      SameQueues(st, st1);
      SemCounts(st, st1, s, sem.count + 1);
      FinishKeeps(st1, OtherCall, SYNC_SUCCESS);
    }
  }

  lemma StillRuns(st: State, st': State, p: Pid)
    requires st.runQueue != [] && st.runQueue[0] == st.current && st.flags[st.current] == RUNNABLE
    requires st'.runQueue == st.runQueue + [p] && st'.flags == st.flags[p := RUNNABLE]
    ensures st'.runQueue != [] && st'.runQueue[0] == st.current && st'.flags[st.current] == RUNNABLE
  {
  }

  // ---- Locks ----

  // A process on its way back from acquiring lock k.
  predicate Acquiring(st: State, q: Pid, k: LockId) {
    match st.cont[q]
    case InLockAcquire(j) => j == k
    case InCondLock(c) => st.conds[c].lock == k
    case _ => false
  }

  ghost predicate NoneAcquiring(st: State, k: LockId) {
    forall q: Pid :: st.flags[q] == RUNNABLE ==> !Acquiring(st, q, k)
  }

  lemma LockFacts(st: State, k: LockId)
    requires SynchOk(st)
    ensures LockOk(st.locks[k])
  {
  }

  lemma OwnerIsDone(st: State, k: LockId, p: Pid)
    requires SynchOk(st) && st.locks[k].pid == p && (st.flags[p] != RUNNABLE || st.cont[p] == User)
    ensures NoneAcquiring(st, k)
  {
    forall q: Pid | st.flags[q] == RUNNABLE
      ensures !Acquiring(st, q, k)
    {
      assert Acquired(st, q);
    }
  }

  lemma NobodyOwns(st: State, k: LockId)
    requires SynchOk(st) && st.locks[k].pid == -1
    ensures NoneAcquiring(st, k)
  {
    forall q: Pid | st.flags[q] == RUNNABLE
      ensures !Acquiring(st, q, k)
    {
      assert Acquired(st, q);
    }
  }

  lemma LockEdited(st: State, st': State, k: LockId, lock: Lock)
    requires SynchOk(st) && LockOk(lock) && lock.inuse == st.locks[k].inuse && (!lock.inuse ==> lock.pid == -1)
    requires st'.locks == st.locks[k := lock] && st'.sems == st.sems && st'.conds == st.conds
    requires NoneAcquiring(st, k) || lock.pid == st.locks[k].pid
    requires forall p: Pid :: st'.flags[p] == RUNNABLE ==>
               Acquired(st', p) || (st'.cont[p] == st.cont[p] && st.flags[p] == RUNNABLE)
    requires forall p: Pid :: st'.cont[p] == st.cont[p] || UsesOnly(st, st'.cont[p])
    ensures SynchOk(st')
  {
    forall p: Pid | st'.flags[p] == RUNNABLE
      ensures Acquired(st', p)
    {
      if !Acquired(st', p) { assert Acquired(st, p); }
    }
    forall p: Pid
      ensures UsesOnly(st', st'.cont[p])
    {
      assert UsesOnly(st, st.cont[p]);
    }
  }

  predicate SleepsForLock(st: State, c: Cont, k: LockId) {
    c == InLockAcquire(k) || (c.InCondLock? && st.conds[c.cond].lock == k)
  }

  lemma LockSleeps(st: State, st': State, k: LockId, p: Pid, c: Cont)
    requires BlockedOk(st) && SynchOk(st) && st.locks[k].inuse && st.locks[k].pid >= 0 && st.locks[k].pid != p
    requires st.flags[p] == RUNNABLE && SleepsForLock(st, c, k) && UsesOnly(st, c)
    requires st'.locks == st.locks[k := st.locks[k].(waiting := st.locks[k].waiting + [p])]
    requires st'.sems == st.sems && st'.conds == st.conds
    requires st'.flags == st.flags[p := WAITING] && st'.cont == st.cont[p := c]
    ensures BlockedOk(st') && SynchOk(st')
  {
    hide BlockedOk, SynchOk;
    LockFacts(st, k);
    Blocks(st, st', p, OnLock(k));
    LockEdited(st, st', k, st'.locks[k]);
  }

  lemma LockTaken(st: State, st': State, k: LockId, p: Pid)
    requires BlockedOk(st) && SynchOk(st) && st.locks[k].pid == -1 && st.locks[k].inuse
    requires st'.locks == st.locks[k := st.locks[k].(pid := p)] && st'.sems == st.sems && st'.conds == st.conds
    requires st'.flags == st.flags && st'.cont == st.cont
    ensures BlockedOk(st') && SynchOk(st')
  {
    hide BlockedOk, SynchOk;
    LockFacts(st, k);
    NobodyOwns(st, k);
    SamePlacesKeep(st, st');
    LockEdited(st, st', k, st'.locks[k]);
  }

  lemma LockFreed(st: State, st': State, k: LockId)
    requires BlockedOk(st) && SynchOk(st) && NoneAcquiring(st, k) && st.locks[k].waiting == []
    requires st'.locks == st.locks[k := st.locks[k].(pid := -1)] && st'.sems == st.sems && st'.conds == st.conds
    requires st'.flags == st.flags && st'.cont == st.cont
    ensures BlockedOk(st') && SynchOk(st')
  {
    hide BlockedOk, SynchOk;
    LockFacts(st, k);
    SamePlacesKeep(st, st');
    LockEdited(st, st', k, st'.locks[k]);
  }

  lemma LockPasses(st: State, st': State, k: LockId, p: Pid)
    requires BlockedOk(st) && SynchOk(st) && NoneAcquiring(st, k)
    requires st.locks[k].waiting != [] && p == st.locks[k].waiting[0]
    requires st'.locks == st.locks[k := Lock(st.locks[k].inuse, p, st.locks[k].waiting[1..])]
    requires st'.sems == st.sems && st'.conds == st.conds
    requires st'.flags == st.flags[p := RUNNABLE] && st'.cont == st.cont
    ensures BlockedOk(st') && SynchOk(st')
  {
    hide BlockedOk, SynchOk;
    LockFacts(st, k);
    ReleasedFrom(st, OnLock(k));
    HeadIsNotBehind(st, OnLock(k));
    Unblocks(st, st', OnLock(k));
    LockEdited(st, st', k, st'.locks[k]);
  }

  lemma HeadIsNotBehind(st: State, w: Place)
    requires BlockedOk(st) && WaitingAt(st, w) != []
    ensures WaitingAt(st, w)[0] !in WaitingAt(st, w)[1..]
  {
    assert NoDup(WaitingAt(st, w));
  }

  lemma LockAcquireKeeps(st: State, k: LockId, c: Cont, call: Call)
    requires Ready(st) && st.locks[k].inuse && SleepsForLock(st, c, k) && UsesOnly(st, c)
    ensures Inv(LockAcquire(st, k, c, call))
  {
    hide QueuesOk, BlockedOk, SynchOk, Sleep, Finish;
    var p, lock := st.current, st.locks[k];
    LockFacts(st, k);
    if lock.pid == p {
      FinishKeeps(st, call, SYNC_SUCCESS);
    } else if lock.pid >= 0 {
      EnoughLinks(st);
      var st1 := st.(freeLinks := st.freeLinks - 1, locks := st.locks[k := lock.(waiting := lock.waiting + [p])]);
      SameQueues(st, st1);
      SleepMoves(st1, c);
      BlockedMore(st.flags, st.cont, p, c);
      if |st.runQueue| > 1 { LockSleeps(st, LockAcquire(st, k, c, call), k, p, c); }
    } else {
      var st1 := st.(locks := st.locks[k := lock.(pid := p)]);
      SameQueues(st, st1);
      LockTaken(st, st1, k, p);
      FinishKeeps(st1, call, SYNC_SUCCESS);
    }
  }

  lemma HandOffMoves(st: State, k: LockId)
    requires QueuesOk(st) && BlockedOk(st) && LinksOk(st) && st.locks[k].waiting != []
    ensures var p := st.locks[k].waiting[0];
            && st.flags[p] == WAITING && p in st.waitQueue && st.cont[p] != User
            && HandOff(st, k) == st.(locks := st.locks[k := Lock(st.locks[k].inuse, p, st.locks[k].waiting[1..])],
                                     flags := st.flags[p := RUNNABLE], waitQueue := Minus(st.waitQueue, p),
                                     runQueue := st.runQueue + [p], freeLinks := st.freeLinks + 1)
            && QueuesOk(HandOff(st, k)) && LinksOk(HandOff(st, k))
  {
    hide QueuesOk, BlockedOk, Wakeup;
    var lock := st.locks[k];
    var st1 := st.(freeLinks := st.freeLinks + 1, locks := st.locks[k := Lock(lock.inuse, lock.waiting[0],
        lock.waiting[1..])]);
    ReleasedFrom(st, OnLock(k));
    WakesFirst(st, st1, OnLock(k));
  }

  lemma LockReleaseKeeps(st: State, k: LockId)
    requires Ready(st) && st.cont[st.current] == User && st.locks[k].inuse
    ensures Inv(LockRelease(st, k))
  {
    hide QueuesOk, BlockedOk, SynchOk, HandOff, Finish;
    var lock := st.locks[k];
    if lock.pid != st.current {
      FinishKeeps(st, OtherCall, SYNC_FAIL);
    } else {
      var st1 := HandOff(st, k);
      OwnerIsDone(st, k, st.current);
      if lock.waiting == [] {
        HandOffFrees(st, k);
        SameQueues(st, st1);
        LockFreed(st, st1, k);
      } else {
        HandOffMoves(st, k);
        LockPasses(st, st1, k, lock.waiting[0]);
        StillRuns(st, st1, lock.waiting[0]);
      }
      FinishKeeps(st1, OtherCall, SYNC_SUCCESS);
    }
  }

  lemma HandOffFrees(st: State, k: LockId)
    requires st.locks[k].waiting == []
    ensures HandOff(st, k) == st.(locks := st.locks[k := st.locks[k].(pid := -1)])
  {
  }

  // ---- Condition variables ----

  lemma CondEdited(st: State, st': State, c: CondId, waiting: seq<Pid>)
    requires SynchOk(st) && (!st.conds[c].inuse ==> waiting == []) && UnmadeOk(st.locks[st.conds[c].lock], waiting)
    requires st'.conds == st.conds[c := st.conds[c].(waiting := waiting)]
    requires st'.sems == st.sems && st'.locks == st.locks
    requires forall p: Pid :: st'.flags[p] == RUNNABLE ==>
               Acquired(st', p) || (st'.cont[p] == st.cont[p] && st.flags[p] == RUNNABLE)
    requires forall p: Pid :: st'.cont[p] == st.cont[p] || UsesOnly(st, st'.cont[p])
    ensures SynchOk(st')
  {
    forall p: Pid | st'.flags[p] == RUNNABLE
      ensures Acquired(st', p)
    {
      if !Acquired(st', p) { assert Acquired(st, p); }
    }
    forall p: Pid
      ensures UsesOnly(st', st'.cont[p])
    {
      assert UsesOnly(st, st.cont[p]);
    }
  }

  lemma CondSleeps(st: State, st': State, c: CondId, p: Pid)
    requires BlockedOk(st) && SynchOk(st) && st.flags[p] == RUNNABLE && UsesOnly(st, InCondWait(c))
    requires UnmadeOk(st.locks[st.conds[c].lock], st.conds[c].waiting + [p])
    requires st'.conds == st.conds[c := st.conds[c].(waiting := st.conds[c].waiting + [p])]
    requires st'.sems == st.sems && st'.locks == st.locks
    requires st'.flags == st.flags[p := WAITING] && st'.cont == st.cont[p := InCondWait(c)]
    ensures BlockedOk(st') && SynchOk(st')
  {
    hide BlockedOk, SynchOk;
    Blocks(st, st', p, OnCond(c));
    CondEdited(st, st', c, st'.conds[c].waiting);
  }

  lemma CondWakes(st: State, st': State, c: CondId, p: Pid)
    requires BlockedOk(st) && SynchOk(st) && st.conds[c].inuse && st.locks[st.conds[c].lock].inuse
    requires st.conds[c].waiting != [] && p == st.conds[c].waiting[0]
    requires st'.conds == st.conds[c := st.conds[c].(waiting := st.conds[c].waiting[1..])]
    requires st'.sems == st.sems && st'.locks == st.locks
    requires st'.flags == st.flags[p := RUNNABLE] && st'.cont == st.cont
    ensures BlockedOk(st') && SynchOk(st')
  {
    hide BlockedOk, SynchOk;
    ReleasedFrom(st, OnCond(c));
    Unblocks(st, st', OnCond(c));
    CondEdited(st, st', c, st'.conds[c].waiting);
  }

  lemma CondSignalKeeps(st: State, c: CondId)
    requires Ready(st) && st.cont[st.current] == User && st.conds[c].inuse
    ensures Inv(CondSignal(st, c))
  {
    hide QueuesOk, BlockedOk, SynchOk, Wakeup, Finish;
    var cond := st.conds[c];
    if !OwnsLockOf(st, c) {
      FinishKeeps(st, OtherCall, SYNC_FAIL);
    } else if cond.waiting == [] {
      FinishKeeps(st, OtherCall, SYNC_SUCCESS);
    } else {
      WakeFirstMoves(st, c);
      FinishKeeps(WakeFirst(st, c), OtherCall, SYNC_SUCCESS);
    }
  }

  lemma WakeFirstMoves(st: State, c: CondId)
    requires Ready(st) && st.conds[c].inuse && st.conds[c].waiting != [] && OwnsLockOf(st, c)
    ensures var p, st' := st.conds[c].waiting[0], WakeFirst(st, c);
            && st.flags[p] == WAITING && p in st.waitQueue && st.cont[p] != User
            && st' == st.(conds := st.conds[c := st.conds[c].(waiting := st.conds[c].waiting[1..])],
                          flags := st.flags[p := RUNNABLE], waitQueue := Minus(st.waitQueue, p),
                          runQueue := st.runQueue + [p], freeLinks := st.freeLinks + 1)
            && Ready(st')
  {
    hide QueuesOk, BlockedOk, SynchOk, Wakeup;
    var cond := st.conds[c];
    var p := cond.waiting[0];
    var st1 := st.(freeLinks := st.freeLinks + 1, conds := st.conds[c := cond.(waiting := cond.waiting[1..])]);
    OwnedUnmadeIsEmpty(st, c);
    ReleasedFrom(st, OnCond(c));
    WakesFirst(st, st1, OnCond(c));
    CondWakes(st, Wakeup(st1, p), c, p);
    StillRuns(st, Wakeup(st1, p), p);
  }

  // Nobody waits for a condition whose lock was never made while somebody passes for the owner of that lock.
  lemma OwnedUnmadeIsEmpty(st: State, c: CondId)
    requires SynchOk(st) && OwnsLockOf(st, c)
    ensures var lock := st.locks[st.conds[c].lock];
            !lock.inuse ==> st.conds[c].waiting == [] && lock.waiting == [] && st.current == 0
  {
    assert UnmadeOk(st.locks[st.conds[c].lock], st.conds[c].waiting);
    assert LockOk(st.locks[st.conds[c].lock]);
  }

  // CondWait with the lock held: the caller joins the queue of the condition, the lock passes on, the caller sleeps.
  function CondWaitLocks(st: State, c: CondId): Locks {
    var k := st.conds[c].lock;
    var lock := st.locks[k];
    if lock.waiting == [] then st.locks[k := lock.(pid := -1)]
    else st.locks[k := Lock(lock.inuse, lock.waiting[0], lock.waiting[1..])]
  }

  function CondWaitConds(st: State, c: CondId): Conds {
    st.conds[c := st.conds[c].(waiting := st.conds[c].waiting + [st.current])]
  }

  lemma CondWaitAlone(st: State, c: CondId)
    requires Ready(st) && OwnsLockOf(st, c) && st.locks[st.conds[c].lock].waiting == []
    ensures |st.runQueue| == 1 ==> CondWait(st, c).halted
    ensures |st.runQueue| > 1 ==>
              var p := st.current;
              var st' := st.(flags := st.flags[p := WAITING], cont := st.cont[p := InCondWait(c)],
                             runQueue := st.runQueue[1..], waitQueue := st.waitQueue + [p], current := st.runQueue[1],
                             freeLinks := st.freeLinks - 1, conds := CondWaitConds(st, c),
                             locks := CondWaitLocks(st, c));
              CondWait(st, c) == st' && QueuesOk(st')
  {
    hide QueuesOk, BlockedOk, SynchOk, Sleep, HandOff;
    EnoughLinks(st);
    var st1 := st.(freeLinks := st.freeLinks - 1, conds := CondWaitConds(st, c));
    HandOffFrees(st1, st.conds[c].lock);
    SameQueues(st, HandOff(st1, st.conds[c].lock));
    SleepMoves(HandOff(st1, st.conds[c].lock), InCondWait(c));
  }

  lemma CondWaitPasses(st: State, c: CondId)
    requires Ready(st) && OwnsLockOf(st, c) && st.locks[st.conds[c].lock].waiting != []
    ensures var p, w := st.current, st.locks[st.conds[c].lock].waiting[0];
            var st' := st.(flags := st.flags[w := RUNNABLE][p := WAITING], cont := st.cont[p := InCondWait(c)],
                           runQueue := (st.runQueue + [w])[1..], waitQueue := Minus(st.waitQueue, w) + [p],
                           current := (st.runQueue + [w])[1],
                           conds := CondWaitConds(st, c), locks := CondWaitLocks(st, c));
            st.flags[w] == WAITING && w in st.waitQueue && st.cont[w] != User && CondWait(st, c) == st' && QueuesOk(st')
  {
    hide QueuesOk, BlockedOk, SynchOk, Sleep, Wakeup, Minus;
    EnoughLinks(st);
    var k := st.conds[c].lock;
    var w := st.locks[k].waiting[0];
    var st1 := st.(freeLinks := st.freeLinks - 1, conds := CondWaitConds(st, c));
    var st2 := st1.(freeLinks := st.freeLinks, locks := CondWaitLocks(st, c));
    ReleasedFrom(st, OnLock(k));
    WakesFirst(st, st2.(freeLinks := st.freeLinks + 1), OnLock(k));
    SameQueues(st, st2);
    WakeupMoves(st2, w);
    assert HandOff(st1, k) == Wakeup(st2, w);
    StillRuns(st, Wakeup(st2, w), w);
    SleepMoves(Wakeup(st2, w), InCondWait(c));
  }

  lemma CondWaitKeeps(st: State, c: CondId)
    requires Ready(st) && st.cont[st.current] == User && st.conds[c].inuse && c < MAX_CONDS
    ensures Inv(CondWait(st, c))
  {
    hide QueuesOk, BlockedOk, SynchOk, CondWait, Finish, Minus;
    var p, k := st.current, st.conds[c].lock;
    var st' := CondWait(st, c);
    if !OwnsLockOf(st, c) {
      CondWaitRefused(st, c);
      FinishKeeps(st, CondWaitCall(c), SYNC_FAIL);
    } else {
      var ws := st.locks[k].waiting;
      OwnedUnmadeIsEmpty(st, c);
      BlockedMore(st.flags, st.cont, p, InCondWait(c));
      if ws == [] {
        CondWaitAlone(st, c);
        var freed := st.(locks := CondWaitLocks(st, c));
        OwnerIsDone(st, k, p);
        LockFreed(st, freed, k);
        if |st.runQueue| > 1 { CondSleeps(freed, st', c, p); }
      } else {
        CondWaitPasses(st, c);
        var asleep := st.(flags := st.flags[p := WAITING], cont := st.cont[p := InCondWait(c)],
            conds := CondWaitConds(st, c));
        CondSleeps(st, asleep, c, p);
        OwnerIsDone(asleep, k, p);
        LockPasses(asleep, st', k, ws[0]);
        ReleasedFrom(st, OnLock(k));
        BlockedLess(st.flags, st.cont, ws[0]);
        BlockedMore(st.flags[ws[0] := RUNNABLE], st.cont, p, InCondWait(c));
      }
    }
  }

  lemma CondWaitRefused(st: State, c: CondId)
    requires !OwnsLockOf(st, c)
    ensures CondWait(st, c) == Finish(st, CondWaitCall(c), SYNC_FAIL)
  {
  }

  // ---- Creation ----

  lemma SemCreateKeeps(st: State, count: int)
    requires Ready(st)
    ensures Inv(SemCreate(st, count))
  {
    hide QueuesOk, BlockedOk, SynchOk, Finish;
    var s := FirstIdle(SemsUsed(st.sems));
    if s == MAX_SEMS {
      FinishKeeps(st, OtherCall, SYNC_FAIL);
    } else {
      assert !SemsUsed(st.sems)[s];
      var st1 := st.(sems := st.sems[s := Sem(true, count, [])]);
      SemFacts(st, s);
      SameQueues(st, st1);
      SamePlacesKeep(st, st1);
      SemEdited(st, st1, s, Sem(true, count, []));
      FinishKeeps(st1, OtherCall, s);
    }
  }

  lemma LockCreateKeeps(st: State)
    requires Ready(st)
    ensures Inv(LockCreate(st))
  {
    hide QueuesOk, BlockedOk, SynchOk, Finish;
    var k := FirstIdle(LocksUsed(st.locks));
    if k == MAX_LOCKS {
      FinishKeeps(st, OtherCall, SYNC_FAIL);
    } else {
      assert !LocksUsed(st.locks)[k];
      var st1 := st.(locks := st.locks[k := Lock(true, -1, [])]);
      LockFacts(st, k);
      SameQueues(st, st1);
      SamePlacesKeep(st, st1);
      NewLock(st, st1, k);
      FinishKeeps(st1, OtherCall, k);
    }
  }

  lemma NewLock(st: State, st': State, k: LockId)
    requires SynchOk(st) && !st.locks[k].inuse
    requires st' == st.(locks := st.locks[k := Lock(true, -1, [])])
    ensures SynchOk(st')
  {
    forall p: Pid | st'.flags[p] == RUNNABLE
      ensures Acquired(st', p)
    {
      assert Acquired(st, p) && UsesOnly(st, st.cont[p]);
    }
    forall p: Pid
      ensures UsesOnly(st', st'.cont[p])
    {
      assert UsesOnly(st, st.cont[p]);
    }
  }

  lemma CondCreateKeeps(st: State, lock: int)
    requires Ready(st) && Allowed(st, CondCreateTrap(lock))
    ensures Inv(CondCreate(st, lock))
  {
    hide QueuesOk, BlockedOk, SynchOk, Finish;
    if lock < 0 {
      FinishKeeps(st, OtherCall, SYNC_FAIL);
    } else {
      var c := FirstIdle(CondsUsed(st.conds));
      assert !CondsUsed(st.conds)[c];
      var cond := if c == MAX_CONDS then st.conds[c].(inuse := true) else Cond(true, lock, []);
      var st1 := st.(conds := st.conds[c := cond]);
      SameQueues(st, st1);
      NewCond(st, st1, c, cond);
      FinishKeeps(st1, OtherCall, if c == MAX_CONDS then SYNC_FAIL else c);
    }
  }

  lemma NewCond(st: State, st': State, c: CondId, cond: Cond)
    requires BlockedOk(st) && SynchOk(st) && !st.conds[c].inuse
    requires st' == st.(conds := st.conds[c := cond]) && cond.inuse
    requires cond.waiting == [] || cond.waiting == st.conds[c].waiting
    ensures BlockedOk(st') && SynchOk(st')
  {
    forall p: Pid
      ensures UsesOnly(st', st'.cont[p]) && Where(st', p) == Where(st, p)
      ensures st'.flags[p] == RUNNABLE ==> Acquired(st', p)
    {
      assert UsesOnly(st, st.cont[p]);
      if st.flags[p] == RUNNABLE { assert Acquired(st, p); }
    }
    SamePlacesKeep(st, st');
  }
}
