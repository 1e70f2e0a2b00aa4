/** The kernel's process and synchronisation state as a value, and what each kernel routine makes of it. */
module KernelState {
  import Queues

  const MAX_PROCS: nat := 32
  const MAX_SEMS: nat := 32
  const MAX_LOCKS: nat := 64
  const MAX_CONDS: nat := 32
  const MAX_LINKS := Queues.MAX_LINKS
  const SYNC_SUCCESS := 1
  const SYNC_FAIL := -1

  type Pid = p: nat | p < MAX_PROCS
  type SemId = s: nat | s < MAX_SEMS
  type LockId = k: nat | k < MAX_LOCKS
  type CondId = c: nat | c < MAX_LOCKS   // the array of condition variables has MAX_LOCKS entries

  datatype Status = FREE | RUNNABLE | WAITING | ZOMBIE

  // Where a process that gave up the processor inside a trap goes on when it is scheduled again.
  datatype Cont =
    | User | InSemWait(sem: SemId) | InLockAcquire(lock: LockId) | InCondWait(cond: CondId) | InCondLock(cond: CondId)

  datatype Sem = Sem(inuse: bool, count: int, waiting: seq<Pid>)
  datatype Lock = Lock(inuse: bool, pid: int, waiting: seq<Pid>)
  datatype Cond = Cond(inuse: bool, lock: LockId, waiting: seq<Pid>)

  type Flags = s: seq<Status> | |s| == MAX_PROCS witness seq(MAX_PROCS, _ => FREE)
  type Conts = s: seq<Cont> | |s| == MAX_PROCS witness seq(MAX_PROCS, _ => User)
  type Sems = s: seq<Sem> | |s| == MAX_SEMS witness seq(MAX_SEMS, _ => Sem(false, 0, []))
  type Locks = s: seq<Lock> | |s| == MAX_LOCKS witness seq(MAX_LOCKS, _ => Lock(false, 0, []))
  type Conds = s: seq<Cond> | |s| == MAX_LOCKS witness seq(MAX_LOCKS, _ => Cond(false, 0, []))

  datatype Call = SemWaitCall(sem: int) | LockAcquireCall(lock: int) | CondWaitCall(cond: int) | OtherCall
  datatype Return = NoReturn | Returned(pid: Pid, call: Call, code: int)

  datatype State = State(
    flags: Flags,
    freepcbs: seq<Pid>, runQueue: seq<Pid>, waitQueue: seq<Pid>, zombieQueue: seq<Pid>,
    current: Pid,
    cont: Conts,
    sems: Sems, locks: Locks, conds: Conds,
    freeLinks: int,
    ret: Return,        // what this step returned to a user process, if anything
    complained: bool,   // an ASSERT has failed
    halted: bool)       // exitsim() has been called

  // ---- Queues of processes ----

  function Minus(q: seq<Pid>, p: Pid): seq<Pid> {
    if q == [] then [] else if q[0] == p then q[1..] else [q[0]] + Minus(q[1..], p)
  }

  function Rotated(q: seq<Pid>): seq<Pid>
    requires q != []
  {
    q[1..] + [q[0]]
  }

  // ---- process.c ----

  function Halt(st: State): State { st.(halted := true) }

  // A link is taken from the pool; without one the kernel gives up.
  function TakeLink(st: State): State {
    if st.freeLinks <= 0 then Halt(st) else st.(freeLinks := st.freeLinks - 1)
  }

  function GiveLink(st: State): State { st.(freeLinks := st.freeLinks + 1) }

  function SetStatus(st: State, p: Pid, s: Status): State { st.(flags := st.flags[p := s]) }

  predicate OnSomeQueue(st: State, p: Pid) {
    p in st.freepcbs || p in st.runQueue || p in st.waitQueue || p in st.zombieQueue
  }

  // AQueueRemove on the process's own link.
  function Unqueue(st: State, p: Pid): State {
    if !OnSomeQueue(st, p) then Halt(st)
    else GiveLink(st.(freepcbs := Minus(st.freepcbs, p), runQueue := Minus(st.runQueue, p),
                      waitQueue := Minus(st.waitQueue, p), zombieQueue := Minus(st.zombieQueue, p)))
  }

  function Check(st: State, condition: bool): State { st.(complained := st.complained || !condition) }

  function Suspend(st: State, p: Pid): State {
    var st := SetStatus(Check(st, st.flags[p] == RUNNABLE), p, WAITING);
    var st := TakeLink(Unqueue(st, p));
    st.(waitQueue := st.waitQueue + [p])
  }

  function Wakeup(st: State, p: Pid): State {
    var st := SetStatus(Check(st, st.flags[p] == WAITING), p, RUNNABLE);
    var st := TakeLink(Unqueue(st, p));
    st.(runQueue := st.runQueue + [p])
  }

  function Destroy(st: State, p: Pid): State {
    var st := TakeLink(Unqueue(SetStatus(st, p, ZOMBIE), p));
    st.(zombieQueue := [p] + st.zombieQueue)
  }

  function FreeResources(st: State, p: Pid): State {
    var st := TakeLink(st);
    st.(freepcbs := st.freepcbs + [p], flags := st.flags[p := FREE])
  }

  lemma MinusLength(q: seq<Pid>, p: Pid)
    ensures |Minus(q, p)| == if p in q then |q| - 1 else |q|
  {
    if q != [] && q[0] != p {
      MinusLength(q[1..], p);
      assert q == [q[0]] + q[1..];
    }
  }

  // The scheduler's last act: every zombie becomes a free process.
  function Drained(st: State): State
    decreases |st.zombieQueue|
  {
    if st.zombieQueue == [] then st
    else
      var p := st.zombieQueue[0];
      Drained(FreeResources(Unqueue(st, p), p))
  }

  function Schedule(st: State): State {
    if st.runQueue == [] then Halt(st)
    else
      var q := if st.flags[st.current] == RUNNABLE then Rotated(st.runQueue) else st.runQueue;
      Drained(st.(runQueue := q, current := q[0]))
  }

  // ProcessSleep: the current process gives up the processor inside a trap.
  function Sleep(st: State, c: Cont): State {
    var p := st.current;
    Schedule(Suspend(st.(cont := st.cont[p := c]), p))
  }

  // The current process returns from its trap.
  function Finish(st: State, call: Call, code: int): State {
    st.(cont := st.cont[st.current := User], ret := Returned(st.current, call, code))
  }

  // A new process; when its program cannot be opened the process goes straight back.
  function Fork(st: State, found: bool): State {
    if st.freepcbs == [] then Halt(st)
    else
      var p := st.freepcbs[0];
      var st := SetStatus(Unqueue(st, p), p, RUNNABLE);
      if !found then FreeResources(st, p)
      else
        var st := TakeLink(st);
        st.(runQueue := st.runQueue + [p], cont := st.cont[p := User])
  }

  // ---- synch.c ----

  // The first entry of a table that is not in use, or the size of the table.
  function FirstIdle(used: seq<bool>): (i: nat)
    ensures i <= |used|
    ensures i < |used| ==> !used[i]
    ensures forall j :: 0 <= j < i ==> used[j]
  {
    if used == [] || !used[0] then 0 else 1 + FirstIdle(used[1..])
  }

  function SemsUsed(sems: seq<Sem>): seq<bool> { seq(|sems|, i requires 0 <= i < |sems| => sems[i].inuse) }
  function LocksUsed(locks: seq<Lock>): seq<bool> { seq(|locks|, i requires 0 <= i < |locks| => locks[i].inuse) }
  function CondsUsed(conds: seq<Cond>): seq<bool> { seq(|conds|, i requires 0 <= i < |conds| => conds[i].inuse) }

  function SemCreate(st: State, count: int): State {
    var s := FirstIdle(SemsUsed(st.sems));
    if s == MAX_SEMS then Finish(st, OtherCall, SYNC_FAIL)
    else Finish(st.(sems := st.sems[s := Sem(true, count, [])]), OtherCall, s)
  }

  function SemWait(st: State, s: SemId): State {
    var sem := st.sems[s];
    if sem.count <= 0 then
      Sleep(TakeLink(st).(sems := st.sems[s := sem.(waiting := sem.waiting + [st.current])]), InSemWait(s))
    else Finish(st.(sems := st.sems[s := sem.(count := sem.count - 1)]), SemWaitCall(s), SYNC_SUCCESS)
  }

  function SemSignal(st: State, s: SemId): State {
    var sem := st.sems[s];
    if sem.count + 1 > 0 && sem.waiting != [] then
      var st := GiveLink(st).(sems := st.sems[s := sem.(waiting := sem.waiting[1..])]);
      Finish(Wakeup(st, sem.waiting[0]), OtherCall, SYNC_SUCCESS)
    else Finish(st.(sems := st.sems[s := sem.(count := sem.count + 1)]), OtherCall, SYNC_SUCCESS)
  }

  function LockCreate(st: State): State {
    var k := FirstIdle(LocksUsed(st.locks));
    if k == MAX_LOCKS then Finish(st, OtherCall, SYNC_FAIL)
    else Finish(st.(locks := st.locks[k := Lock(true, -1, [])]), OtherCall, k)
  }

  // LockAcquire on behalf of `call`; when it has to wait it goes on at `c`.
  function LockAcquire(st: State, k: LockId, c: Cont, call: Call): State {
    var lock := st.locks[k];
    if lock.pid == st.current then Finish(st, call, SYNC_SUCCESS)
    else if lock.pid >= 0 then
      Sleep(TakeLink(st).(locks := st.locks[k := lock.(waiting := lock.waiting + [st.current])]), c)
    else Finish(st.(locks := st.locks[k := lock.(pid := st.current)]), call, SYNC_SUCCESS)
  }

  // The lock becomes free, or passes to the process that has waited longest.
  function HandOff(st: State, k: LockId): State {
    var lock := st.locks[k];
    if lock.waiting == [] then st.(locks := st.locks[k := lock.(pid := -1)])
    else
      var p := lock.waiting[0];
      Wakeup(GiveLink(st).(locks := st.locks[k := Lock(lock.inuse, p, lock.waiting[1..])]), p)
  }

  function LockRelease(st: State, k: LockId): State {
    if st.locks[k].pid != st.current then Finish(st, OtherCall, SYNC_FAIL)
    else Finish(HandOff(st, k), OtherCall, SYNC_SUCCESS)
  }

  // The scan runs over all MAX_LOCKS entries but entry MAX_CONDS counts as failure, after it has been marked.
  function CondCreate(st: State, lock: int): State
    requires lock < MAX_LOCKS
  {
    if lock < 0 then Finish(st, OtherCall, SYNC_FAIL)
    else
      var c := FirstIdle(CondsUsed(st.conds));
      if c == MAX_LOCKS then Halt(st)  // the code would write past the array
      else if c == MAX_CONDS then Finish(st.(conds := st.conds[c := st.conds[c].(inuse := true)]), OtherCall, SYNC_FAIL)
      else Finish(st.(conds := st.conds[c := Cond(true, lock, [])]), OtherCall, c)
  }

  predicate OwnsLockOf(st: State, c: CondId) { st.locks[st.conds[c].lock].pid == st.current }

  function CondWait(st: State, c: CondId): State {
    if !OwnsLockOf(st, c) then Finish(st, CondWaitCall(c), SYNC_FAIL)
    else
      var cond := st.conds[c];
      var st := TakeLink(st).(conds := st.conds[c := cond.(waiting := cond.waiting + [st.current])]);
      Sleep(HandOff(st, cond.lock), InCondWait(c))
  }

  // Wake the process that has waited longest, if there is one.
  function WakeFirst(st: State, c: CondId): State {
    var cond := st.conds[c];
    if cond.waiting == [] then st
    else Wakeup(GiveLink(st).(conds := st.conds[c := cond.(waiting := cond.waiting[1..])]), cond.waiting[0])
  }

  function CondSignal(st: State, c: CondId): State {
    if !OwnsLockOf(st, c) then Finish(st, OtherCall, SYNC_FAIL)
    else Finish(WakeFirst(st, c), OtherCall, SYNC_SUCCESS)
  }

  // ---- traps.c ----

  datatype Trap =
    | Yield | Exit | Create(found: bool)
    | SleepTrap              // the trap by which the kernel puts a process to sleep, taken by a user program
    | UnknownTrap            // any trap or interrupt without a case of its own
    | OtherTrap(code: int)   // a trap that only returns a result
    | SemCreateTrap(count: int) | SemWaitTrap(h: int) | SemSignalTrap(h: int)
    | LockCreateTrap | LockAcquireTrap(h: int) | LockReleaseTrap(h: int)
    | CondCreateTrap(lock: int) | CondWaitTrap(h: int) | CondSignalTrap(h: int) | CondBroadcastTrap(h: int)

  predicate GoodSem(st: State, h: int) { 0 <= h < MAX_SEMS && st.sems[h].inuse }
  predicate GoodLock(st: State, h: int) { 0 <= h < MAX_LOCKS && st.locks[h].inuse }
  predicate GoodCond(st: State, h: int) { 0 <= h < MAX_CONDS && st.conds[h].inuse }

  // A condition variable is created for a lock of the table, made or not, while an entry is unmarked.
  predicate Allowed(st: State, t: Trap) {
    t.CondCreateTrap? ==> t.lock < MAX_LOCKS && FirstIdle(CondsUsed(st.conds)) < MAX_LOCKS
  }

  function Handle(st: State, t: Trap): State
    requires Allowed(st, t)
  {
    match t
    case Yield => Schedule(st)
    case Exit => Schedule(Destroy(st, st.current))
    case Create(found) => Fork(st, found)
    case SleepTrap => Sleep(st, User)
    case UnknownTrap => Halt(st)
    case OtherTrap(code) => Finish(st, OtherCall, code)
    case SemCreateTrap(count) => SemCreate(st, count)
    case SemWaitTrap(h) => if GoodSem(st, h) then SemWait(st, h) else Finish(st, SemWaitCall(h), SYNC_FAIL)
    case SemSignalTrap(h) => if GoodSem(st, h) then SemSignal(st, h) else Finish(st, OtherCall, SYNC_FAIL)
    case LockCreateTrap => LockCreate(st)
    case LockAcquireTrap(h) =>
      if GoodLock(st, h) then LockAcquire(st, h, InLockAcquire(h), LockAcquireCall(h))
      else Finish(st, LockAcquireCall(h), SYNC_FAIL)
    case LockReleaseTrap(h) => if GoodLock(st, h) then LockRelease(st, h) else Finish(st, OtherCall, SYNC_FAIL)
    case CondCreateTrap(lock) => CondCreate(st, lock)
    case CondWaitTrap(h) => if GoodCond(st, h) then CondWait(st, h) else Finish(st, CondWaitCall(h), SYNC_FAIL)
    case CondSignalTrap(h) => if GoodCond(st, h) then CondSignal(st, h) else Finish(st, OtherCall, SYNC_FAIL)
    // The handle routine for broadcast calls CondSignal.
    case CondBroadcastTrap(h) => if GoodCond(st, h) then CondSignal(st, h) else Finish(st, OtherCall, SYNC_FAIL)
  }

  // A scheduled process first finishes the trap it fell asleep in.
  function Resume(st: State): State {
    match st.cont[st.current]
    case User => st
    case InSemWait(s) => Finish(st, SemWaitCall(s), SYNC_SUCCESS)
    case InLockAcquire(k) => Finish(st, LockAcquireCall(k), SYNC_SUCCESS)
    case InCondWait(c) => LockAcquire(st, st.conds[c].lock, InCondLock(c), CondWaitCall(c))
    case InCondLock(c) => Finish(st, CondWaitCall(c), SYNC_SUCCESS)
  }

  // One atomic step of the machine. Traps run with interrupts off, so a step reaches from one point where control
  // leaves the kernel or a process falls asleep to the next.
  function Step(st: State, t: Trap): State
    requires Allowed(st, t)
  {
    var st := st.(ret := NoReturn);
    if st.halted then st
    else if st.cont[st.current] != User then Resume(st)
    else Handle(st, t)
  }
}
