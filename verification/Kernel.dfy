/** The kernel at work: the tables of semaphores, locks and conditions, the queues of the processes that wait for
    them, and the traps, on top of the process control blocks. Every queue is a chain of links from the one pool;
    each routine does to this structure what KernelState says of its value. */
module Kernel {
  import opened Queues
  import opened KernelState
  import opened KernelInvariant
  import opened KernelRuns
  import opened KernelEffects
  import KernelConditions
  import opened KernelProtocols
  import opened KernelReplies
  import opened ProcessLinks

  // ---- The tables, without their queues ----

  datatype SemEntry = SemEntry(inuse: bool, count: int)
  datatype LockEntry = LockEntry(inuse: bool, pid: int)
  datatype CondEntry = CondEntry(inuse: bool, lock: LockId)

  type SemTable = s: seq<SemEntry> | |s| == MAX_SEMS witness seq(MAX_SEMS, _ => SemEntry(false, 0))
  type LockTable = s: seq<LockEntry> | |s| == MAX_LOCKS witness seq(MAX_LOCKS, _ => LockEntry(false, 0))
  type CondTable = s: seq<CondEntry> | |s| == MAX_LOCKS witness seq(MAX_LOCKS, _ => CondEntry(false, 0))

  ghost predicate Tabled(sems: SemTable, locks: LockTable, conds: CondTable, st: State) {
    && (forall s: SemId :: sems[s] == SemEntry(st.sems[s].inuse, st.sems[s].count))
    && (forall k: LockId :: locks[k] == LockEntry(st.locks[k].inuse, st.locks[k].pid))
    && (forall c: CondId :: conds[c] == CondEntry(st.conds[c].inuse, st.conds[c].lock))
  }

  // ---- The queues of waiting processes: of the semaphores, then of the locks, then of the conditions ----

  const SLOTS := MAX_SEMS + MAX_LOCKS + MAX_LOCKS

  function Slot(w: Place): (i: nat)
    requires w != Nowhere
    ensures i < SLOTS
  {
    match w
    case OnSem(s) => s
    case OnLock(k) => MAX_SEMS + k
    case OnCond(c) => MAX_SEMS + MAX_LOCKS + c
  }

  lemma SlotsDiffer(v: Place, w: Place)
    requires v != Nowhere && w != Nowhere && Slot(v) == Slot(w)
    ensures v == w
  {
  }

  // The entry is set up. Entry MAX_CONDS of the conditions is marked before it is found to be one too many.
  predicate SetUp(st: State, w: Place) {
    match w
    case Nowhere => false
    case OnSem(s) => st.sems[s].inuse
    case OnLock(k) => st.locks[k].inuse
    case OnCond(c) => st.conds[c].inuse && c != MAX_CONDS
  }

  // A queue is live exactly when its entry is set up, and then holds who waits there.
  ghost predicate Waiters(at: seq<Queue>, waiting: map<Queue, seq<int>>, st: State)
    requires |at| == SLOTS
  {
    forall w :: w != Nowhere ==>
      && (at[Slot(w)] in waiting <==> SetUp(st, w))
      && (if SetUp(st, w) then waiting[at[Slot(w)]] == WaitingAt(st, w) else WaitingAt(st, w) == [])
  }

  lemma WaitersChange(at: seq<Queue>, waiting: map<Queue, seq<int>>, st: State, st': State, w: Place)
    requires |at| == SLOTS && Distinct(at) && Waiters(at, waiting, st) && w != Nowhere && SetUp(st', w)
    requires forall v :: v != w ==> SetUp(st', v) == SetUp(st, v) && WaitingAt(st', v) == WaitingAt(st, v)
    ensures Waiters(at, waiting[at[Slot(w)] := WaitingAt(st', w)], st')
  {
    forall v | v != Nowhere && v != w
      ensures at[Slot(v)] != at[Slot(w)]
    {
      if Slot(v) == Slot(w) { SlotsDiffer(v, w); }
    }
  }

  lemma WaitersStay(at: seq<Queue>, waiting: map<Queue, seq<int>>, st: State, st': State)
    requires |at| == SLOTS && Waiters(at, waiting, st)
    requires forall v :: SetUp(st', v) == SetUp(st, v) && WaitingAt(st', v) == WaitingAt(st, v)
    ensures Waiters(at, waiting, st')
  {
  }

  // Other processes wait at w.
  function WithWaiting(st: State, w: Place, q: seq<Pid>): State {
    match w
    case Nowhere => st
    case OnSem(s) => st.(sems := st.sems[s := st.sems[s].(waiting := q)])
    case OnLock(k) => st.(locks := st.locks[k := st.locks[k].(waiting := q)])
    case OnCond(c) => st.(conds := st.conds[c := st.conds[c].(waiting := q)])
  }

  function WithSem(st: State, s: SemId, sem: Sem): State { st.(sems := st.sems[s := sem]) }
  function WithLock(st: State, k: LockId, lock: Lock): State { st.(locks := st.locks[k := lock]) }
  function WithCond(st: State, c: CondId, cond: Cond): State { st.(conds := st.conds[c := cond]) }

  // What a new or edited entry does to a table, and to the queues when it is new or keeps those who wait.
  lemma SemFilled(at: seq<Queue>, was: map<Queue, seq<int>>, sems: SemTable, locks: LockTable, conds: CondTable,
      st: State, s: SemId, sem: Sem)
    requires |at| == SLOTS && Distinct(at) && Waiters(at, was, st) && Tabled(sems, locks, conds, st)
    ensures var st' := WithSem(st, s, sem);
            && Tabled(sems[s := SemEntry(sem.inuse, sem.count)], locks, conds, st') && OnlyTables(st, st')
            && (!SetUp(st, OnSem(s)) && sem.inuse && sem.waiting == [] ==>
                  Waiters(at, was[at[Slot(OnSem(s))] := []], st'))
            && (sem.waiting == st.sems[s].waiting && sem.inuse == st.sems[s].inuse ==> Waiters(at, was, st'))
    ensures sems[s] == SemEntry(st.sems[s].inuse, st.sems[s].count)
  {
    hide Waiters;
    var st' := WithSem(st, s, sem);
    if !SetUp(st, OnSem(s)) && sem.inuse && sem.waiting == [] { WaitersChange(at, was, st, st', OnSem(s)); }
    if sem.waiting == st.sems[s].waiting && sem.inuse == st.sems[s].inuse { WaitersStay(at, was, st, st'); }
  }

  lemma LockFilled(at: seq<Queue>, was: map<Queue, seq<int>>, sems: SemTable, locks: LockTable, conds: CondTable,
      st: State, k: LockId, lock: Lock)
    requires |at| == SLOTS && Distinct(at) && Waiters(at, was, st) && Tabled(sems, locks, conds, st)
    ensures var st' := WithLock(st, k, lock);
            && Tabled(sems, locks[k := LockEntry(lock.inuse, lock.pid)], conds, st') && OnlyTables(st, st')
            && (!SetUp(st, OnLock(k)) && lock.inuse && lock.waiting == [] ==>
                  Waiters(at, was[at[Slot(OnLock(k))] := []], st'))
            && (lock.waiting == st.locks[k].waiting && lock.inuse == st.locks[k].inuse ==> Waiters(at, was, st'))
    ensures locks[k] == LockEntry(st.locks[k].inuse, st.locks[k].pid)
  {
    hide Waiters;
    var st' := WithLock(st, k, lock);
    if !SetUp(st, OnLock(k)) && lock.inuse && lock.waiting == [] { WaitersChange(at, was, st, st', OnLock(k)); }
    if lock.waiting == st.locks[k].waiting && lock.inuse == st.locks[k].inuse { WaitersStay(at, was, st, st'); }
  }

  lemma CondFilled(at: seq<Queue>, was: map<Queue, seq<int>>, sems: SemTable, locks: LockTable, conds: CondTable,
      st: State, c: CondId, cond: Cond)
    requires |at| == SLOTS && Distinct(at) && Waiters(at, was, st) && Tabled(sems, locks, conds, st)
    ensures var st' := WithCond(st, c, cond);
            && Tabled(sems, locks, conds[c := CondEntry(cond.inuse, cond.lock)], st') && OnlyTables(st, st')
            && (!SetUp(st, OnCond(c)) && cond.inuse && cond.waiting == [] && c != MAX_CONDS ==>
                  Waiters(at, was[at[Slot(OnCond(c))] := []], st'))
            && (cond.waiting == st.conds[c].waiting && (cond.inuse == st.conds[c].inuse || c == MAX_CONDS) ==>
                  Waiters(at, was, st'))
    ensures conds[c] == CondEntry(st.conds[c].inuse, st.conds[c].lock)
  {
    hide Waiters;
    var st' := WithCond(st, c, cond);
    if !SetUp(st, OnCond(c)) && cond.inuse && cond.waiting == [] && c != MAX_CONDS {
      WaitersChange(at, was, st, st', OnCond(c));
    }
    if cond.waiting == st.conds[c].waiting && (cond.inuse == st.conds[c].inuse || c == MAX_CONDS) {
      WaitersStay(at, was, st, st');
    }
  }

  // Control blocks without links, and a pool whose links are all on the free list.
  ghost predicate Unused(cb: ControlBlocks)
    reads cb, cb.m, cb.m.queues, cb.m.freeLinks, cb.m.pool
  {
    && cb.m.Valid() && cb.m.queues == {cb.m.freeLinks} && |cb.m.freeLinks.links| == Queues.MAX_LINKS
    && cb.Apart() && |cb.l| == MAX_PROCS && !cb.halted && !cb.complained && cb.m.freeLinks !in cb.Four()
  }

  method NewControlBlocks() returns (cb: ControlBlocks)
    ensures Unused(cb) && fresh({cb, cb.m, cb.m.freeLinks} + cb.Four() + cb.m.pool)
  {
    var pool := new LinkPool();
    pool.ModuleInit();
    cb := new ControlBlocks(pool);
    hide LinkPool.Valid, LinkPool.ValidBut;
  }

  method NewQueues(n: nat, ghost others: set<Queue>) returns (qs: seq<Queue>)
    ensures |qs| == n && Distinct(qs) && fresh(set q | q in qs)
    ensures forall q :: q in qs ==> q !in others && q.nitems == 0
  {
    qs := [];
    for i := 0 to n
      invariant |qs| == i && Distinct(qs) && forall q :: q in qs ==> q !in others && fresh(q) && q.nitems == 0
    {
      var q := new Queue();
      qs := qs + [q];
    }
  }

  method NewKernel() returns (k: Kernel)
    ensures k.AtStart() && k.state == Start() && fresh(k.Footprint())
  {
    hide Unused, ControlBlocks.Apart, ControlBlocks.Four, Distinct, Start;
    var blocks := NewControlBlocks();
    var queues := NewQueues(SLOTS, blocks.Four() + {blocks.m.freeLinks});
    k := new Kernel(blocks, queues);
  }

  class Kernel {
    const cb: ControlBlocks
    const waiting: seq<Queue>
    var sems: SemTable
    var locks: LockTable
    var conds: CondTable
    ghost var state: State

    ghost predicate Separate() {
      |waiting| == SLOTS && Distinct(waiting) && forall q :: q in waiting ==> cb.ForWaiting(q)
    }

    // The queue of an entry that was never set up is empty, as static storage is.
    ghost predicate IdleQueues()
      reads cb.m, waiting
    {
      forall q :: q in waiting && q !in cb.m.queues ==> q.nitems == 0
    }

    ghost predicate Valid()
      reads this, cb, cb.m, cb.m.queues, cb.m.pool, waiting
    {
      && cb.Valid() && cb.Apart() && cb.Agrees(state) && Separate()
      && cb.m.queues <= {cb.m.freeLinks} + cb.Four() + (set q | q in waiting)
      && Tabled(sems, locks, conds, state)
      && Waiters(waiting, cb.Waiting(), state) && IdleQueues()
    }

    ghost function Footprint(): set<object> {
      {this, cb, cb.m, cb.m.freeLinks} + cb.Four() + (set q | q in waiting) + cb.m.pool
    }

    // The static storage of both modules.
    constructor (blocks: ControlBlocks, queues: seq<Queue>)
      ensures cb == blocks && waiting == queues && state == Start()
    {
      cb := blocks;
      waiting := queues;
      state := Start();
    }

    ghost predicate AtStart()
      reads this, cb, cb.m, cb.m.queues, cb.m.freeLinks, cb.m.pool, waiting
    {
      Unused(cb) && Separate() && forall q :: q in waiting ==> q.nitems == 0
    }

    // The initialisation of both modules followed by the fork of the first process.
    method Initialise()
      requires AtStart() && state == Start()
      modifies Footprint()
      ensures Valid() && state == Boot()
    {
      hide LinkPool.Valid, LinkPool.ValidBut, ControlBlocks.Valid, ControlBlocks.Agrees, ControlBlocks.Waiting,
        ControlBlocks.Apart, Waiters, Tabled, Start, Boot, Fork;
      cb.ProcessModuleInit();
      SynchModuleInit();
      StartIsIdle();
      ProcessFork(true);
      BootForksTheFirst();
    }

    method SynchModuleInit()
      modifies this`sems, this`locks, this`conds
      ensures sems == seq(MAX_SEMS, _ => SemEntry(false, 0)) && locks == seq(MAX_LOCKS, _ => LockEntry(false, 0))
      ensures conds == seq(MAX_LOCKS, _ => CondEntry(false, 0))
    {
      sems := seq(MAX_SEMS, _ => SemEntry(false, 0));
      locks := seq(MAX_LOCKS, _ => LockEntry(false, 0));
      conds := seq(MAX_LOCKS, _ => CondEntry(false, 0));
    }

    lemma StartIsIdle()
      requires |waiting| == SLOTS
      requires sems == seq(MAX_SEMS, _ => SemEntry(false, 0)) && locks == seq(MAX_LOCKS, _ => LockEntry(false, 0))
      requires conds == seq(MAX_LOCKS, _ => CondEntry(false, 0))
      ensures Waiters(waiting, map[], Start()) && Tabled(sems, locks, conds, Start())
    {
      hide CountDown;
    }

    // ---- Processes ----

    // Routines of the process module leave the tables alone.
    lemma TablesKept(st: State)
      requires cb.Valid() && Separate() && Waiters(waiting, cb.Waiting(), state) && Tabled(sems, locks, conds, state)
      requires st.sems == state.sems && st.locks == state.locks && st.conds == state.conds
      ensures Waiters(waiting, cb.Waiting(), st) && Tabled(sems, locks, conds, st)
    {
    }

    method ProcessSchedule()
      requires Valid()
      modifies Footprint()
      ensures Valid() && state == Schedule(old(state))
    {
      hide LinkPool.Valid, LinkPool.ValidBut, ControlBlocks.Valid, ControlBlocks.Agrees, ControlBlocks.Waiting,
        ControlBlocks.Apart, Waiters, Tabled, Schedule;
      cb.ProcessSchedule(state);
      ScheduleObjects(state);
      TablesKept(Schedule(state));
      state := Schedule(state);
    }

    method ProcessSleep(c: Cont)
      requires Valid()
      modifies Footprint()
      ensures Valid() && state == Sleep(old(state), c)
    {
      hide LinkPool.Valid, LinkPool.ValidBut, ControlBlocks.Valid, ControlBlocks.Agrees, ControlBlocks.Waiting,
        ControlBlocks.Apart, Waiters, Tabled, Sleep;
      cb.ProcessSleep(c, state);
      SleepObjects(state, c);
      TablesKept(Sleep(state, c));
      state := Sleep(state, c);
    }

    method ProcessWakeup(p: Pid)
      requires Valid()
      modifies Footprint()
      ensures Valid() && state == Wakeup(old(state), p)
    {
      hide LinkPool.Valid, LinkPool.ValidBut, ControlBlocks.Valid, ControlBlocks.Agrees, ControlBlocks.Waiting,
        ControlBlocks.Apart, Waiters, Tabled, Wakeup;
      cb.ProcessWakeup(p, state);
      WakeupObjects(state, p);
      TablesKept(Wakeup(state, p));
      state := Wakeup(state, p);
    }

    method ProcessDestroy(p: Pid)
      requires Valid()
      modifies Footprint()
      ensures Valid() && state == Destroy(old(state), p)
    {
      hide LinkPool.Valid, LinkPool.ValidBut, ControlBlocks.Valid, ControlBlocks.Agrees, ControlBlocks.Waiting,
        ControlBlocks.Apart, Waiters, Tabled, Destroy;
      cb.ProcessDestroy(p, state);
      DestroyObjects(state, p);
      TablesKept(Destroy(state, p));
      state := Destroy(state, p);
    }

    method ProcessFork(found: bool)
      requires Valid()
      modifies Footprint()
      ensures Valid() && state == Fork(old(state), found)
    {
      hide LinkPool.Valid, LinkPool.ValidBut, ControlBlocks.Valid, ControlBlocks.Agrees, ControlBlocks.Waiting,
        ControlBlocks.Apart, Waiters, Tabled, Fork;
      cb.ProcessFork(found, state);
      ForkObjects(state, found);
      TablesKept(Fork(state, found));
      state := Fork(state, found);
    }

    method ReturnFromTrap(call: Call, code: int)
      requires Valid()
      modifies Footprint()
      ensures Valid() && state == Finish(old(state), call, code)
    {
      hide LinkPool.Valid, LinkPool.ValidBut, ControlBlocks.Valid, ControlBlocks.Agrees, ControlBlocks.Waiting,
        ControlBlocks.Apart, Waiters, Tabled;
      cb.ProcessSetResult(call, code, state);
      TablesKept(Finish(state, call, code));
      state := Finish(state, call, code);
    }

    method ClearResult()
      requires Valid()
      modifies Footprint()
      ensures Valid() && state == old(state).(ret := NoReturn)
    {
      hide LinkPool.Valid, LinkPool.ValidBut, ControlBlocks.Valid, ControlBlocks.Lists, ControlBlocks.Waiting,
        ControlBlocks.Apart, Waiters, Tabled;
      cb.SameListing(state, state.(ret := NoReturn));
      TablesKept(state.(ret := NoReturn));
      cb.ret := NoReturn;
      state := state.(ret := NoReturn);
    }

    // exitsim.
    method Stop()
      requires Valid()
      modifies Footprint()
      ensures Valid() && state == Halt(old(state))
    {
      hide LinkPool.Valid, LinkPool.ValidBut, ControlBlocks.Valid, ControlBlocks.Lists, ControlBlocks.Waiting,
        ControlBlocks.Apart, Waiters, Tabled;
      cb.SameListing(state, Halt(state));
      TablesKept(Halt(state));
      cb.halted := true;
      state := Halt(state);
    }

    // ---- Waiting queues ----

    lemma QueueOf(w: Place)
      requires Valid() && w != Nowhere
      ensures var q := waiting[Slot(w)];
              && cb.ForWaiting(q) && (q in cb.m.queues <==> SetUp(state, w))
              && q.nitems == |WaitingAt(state, w)|
              && (if SetUp(state, w) then |q.links| == |WaitingAt(state, w)| else WaitingAt(state, w) == [])
    {
      hide LinkPool.Valid, LinkPool.ValidBut, ControlBlocks.ValidOn, Tabled, ControlBlocks.Agrees;
      var q := waiting[Slot(w)];
      cb.PoolIsValid();
      if q in cb.m.queues {
        cb.WaitingOn(q);
        cb.Ends(q);
      }
    }

    // Only the queue of w has changed.
    lemma OneQueueChanges(was: map<Queue, seq<int>>, w: Place, st: State, q: seq<Pid>)
      requires |waiting| == SLOTS && Distinct(waiting) && w != Nowhere && SetUp(st, w)
      requires Waiters(waiting, was, st) && Tabled(sems, locks, conds, st)
      ensures var st' := WithWaiting(st, w, q);
              && Tabled(sems, locks, conds, st') && Waiters(waiting, was[waiting[Slot(w)] := q], st')
              && OnlyTables(st, st')
    {
      hide Waiters;
      var st' := WithWaiting(st, w, q);
      WaitersChange(waiting, was, st, st', w);
    }

    lemma WaitersAre(w: Place)
      requires Valid() && w != Nowhere && SetUp(state, w)
      ensures cb.m.Valid() && waiting[Slot(w)] in cb.Waiting() && cb.Waiting()[waiting[Slot(w)]] == WaitingAt(state, w)
    {
      hide LinkPool.Valid, LinkPool.ValidBut, ControlBlocks.ValidOn, ControlBlocks.Agrees,
        ControlBlocks.Waiting, Tabled;
      cb.PoolIsValid();
    }

    // The current process joins the queue of w.
    method Join(w: Place)
      requires Valid() && w != Nowhere && SetUp(state, w) && state.freeLinks > 0
      modifies Footprint()
      ensures Valid()
      ensures state == WithWaiting(TakeLink(old(state)), w, WaitingAt(old(state), w) + [old(state).current])
    {
      hide LinkPool.Valid, LinkPool.ValidBut, ControlBlocks.Valid, ControlBlocks.Agrees, ControlBlocks.Waiting,
        ControlBlocks.Apart, Waiters, Tabled, OnlyTables, WithWaiting;
      QueueOf(w);
      WaitersAre(w);
      Fields();
      ghost var st := TakeLink(state);
      ghost var q := WaitingAt(state, w) + [state.current];
      TablesKept(st);
      OneQueueChanges(cb.Waiting(), w, st, q);
      cb.Join(waiting[Slot(w)], cb.currentPCB, state);
      cb.AgreesBeyond(st, WithWaiting(st, w, q));
      state := WithWaiting(st, w, q);
    }

    // The process that has waited longest at w leaves the queue.
    method Leave(w: Place) returns (p: Pid)
      requires Valid() && w != Nowhere && SetUp(state, w) && WaitingAt(state, w) != []
      modifies Footprint()
      ensures Valid() && p == WaitingAt(old(state), w)[0]
      ensures state == WithWaiting(GiveLink(old(state)), w, WaitingAt(old(state), w)[1..])
    {
      hide LinkPool.Valid, LinkPool.ValidBut, ControlBlocks.Valid, ControlBlocks.Agrees, ControlBlocks.Waiting,
        ControlBlocks.Apart, Waiters, Tabled, OnlyTables, WithWaiting;
      QueueOf(w);
      WaitersAre(w);
      ghost var st := GiveLink(state);
      ghost var q := WaitingAt(state, w)[1..];
      TablesKept(st);
      OneQueueChanges(cb.Waiting(), w, st, q);
      p := cb.Leave(waiting[Slot(w)], state);
      cb.AgreesBeyond(st, WithWaiting(st, w, q));
      state := WithWaiting(st, w, q);
    }

    // ---- Entries ----

    // The queue of a new entry is initialised and the entry filled in.
    method SetUpSem(s: SemId, count: int)
      requires Valid() && !SetUp(state, OnSem(s))
      modifies Footprint()
      ensures Valid() && state == WithSem(old(state), s, Sem(true, count, []))
    {
      hide LinkPool.Valid, LinkPool.ValidBut, ControlBlocks.Valid, ControlBlocks.Agrees, ControlBlocks.Waiting,
        ControlBlocks.Apart, Waiters, Tabled, OnlyTables, WithSem;
      QueueOf(OnSem(s));
      cb.PoolIsValid();
      SemFilled(waiting, cb.Waiting(), sems, locks, conds, state, s, Sem(true, count, []));
      sems := sems[s := SemEntry(true, count)];
      cb.Open(waiting[Slot(OnSem(s))], state);
      cb.AgreesBeyond(state, WithSem(state, s, Sem(true, count, [])));
      state := WithSem(state, s, Sem(true, count, []));
    }

    method SetUpLock(k: LockId)
      requires Valid() && !SetUp(state, OnLock(k))
      modifies Footprint()
      ensures Valid() && state == WithLock(old(state), k, Lock(true, -1, []))
    {
      hide LinkPool.Valid, LinkPool.ValidBut, ControlBlocks.Valid, ControlBlocks.Agrees, ControlBlocks.Waiting,
        ControlBlocks.Apart, Waiters, Tabled, OnlyTables, WithLock;
      QueueOf(OnLock(k));
      cb.PoolIsValid();
      LockFilled(waiting, cb.Waiting(), sems, locks, conds, state, k, Lock(true, -1, []));
      locks := locks[k := LockEntry(true, -1)];
      cb.Open(waiting[Slot(OnLock(k))], state);
      cb.AgreesBeyond(state, WithLock(state, k, Lock(true, -1, [])));
      state := WithLock(state, k, Lock(true, -1, []));
    }

    method SetUpCond(c: CondId, lock: LockId)
      requires Valid() && !SetUp(state, OnCond(c)) && c != MAX_CONDS
      modifies Footprint()
      ensures Valid() && state == WithCond(old(state), c, Cond(true, lock, []))
    {
      hide LinkPool.Valid, LinkPool.ValidBut, ControlBlocks.Valid, ControlBlocks.Agrees, ControlBlocks.Waiting,
        ControlBlocks.Apart, Waiters, Tabled, OnlyTables, WithCond;
      QueueOf(OnCond(c));
      cb.PoolIsValid();
      CondFilled(waiting, cb.Waiting(), sems, locks, conds, state, c, Cond(true, lock, []));
      conds := conds[c := CondEntry(true, lock)];
      cb.Open(waiting[Slot(OnCond(c))], state);
      cb.AgreesBeyond(state, WithCond(state, c, Cond(true, lock, [])));
      state := WithCond(state, c, Cond(true, lock, []));
    }

    method SetCount(s: SemId, count: int)
      requires Valid()
      modifies this
      ensures Valid() && state == WithSem(old(state), s, old(state).sems[s].(count := count))
    {
      hide LinkPool.Valid, LinkPool.ValidBut, ControlBlocks.Valid, ControlBlocks.Agrees, ControlBlocks.Waiting,
        ControlBlocks.Apart, Waiters, Tabled, OnlyTables, WithSem;
      ghost var st := WithSem(state, s, state.sems[s].(count := count));
      cb.PoolIsValid();
      SemFilled(waiting, cb.Waiting(), sems, locks, conds, state, s, state.sems[s].(count := count));
      sems := sems[s := sems[s].(count := count)];
      cb.AgreesBeyond(state, st);
      state := st;
    }

    method SetOwner(k: LockId, pid: int)
      requires Valid()
      modifies this
      ensures Valid() && state == WithLock(old(state), k, old(state).locks[k].(pid := pid))
    {
      hide LinkPool.Valid, LinkPool.ValidBut, ControlBlocks.Valid, ControlBlocks.Agrees, ControlBlocks.Waiting,
        ControlBlocks.Apart, Waiters, Tabled, OnlyTables, WithLock;
      ghost var st := WithLock(state, k, state.locks[k].(pid := pid));
      cb.PoolIsValid();
      LockFilled(waiting, cb.Waiting(), sems, locks, conds, state, k, state.locks[k].(pid := pid));
      locks := locks[k := locks[k].(pid := pid)];
      cb.AgreesBeyond(state, st);
      state := st;
    }

    method MarkLast()
      requires Valid()
      modifies this
      ensures Valid() && state == WithCond(old(state), MAX_CONDS, old(state).conds[MAX_CONDS].(inuse := true))
    {
      hide LinkPool.Valid, LinkPool.ValidBut, ControlBlocks.Valid, ControlBlocks.Agrees, ControlBlocks.Waiting,
        ControlBlocks.Apart, Waiters, Tabled, OnlyTables, WithCond;
      ghost var st := WithCond(state, MAX_CONDS, state.conds[MAX_CONDS].(inuse := true));
      cb.PoolIsValid();
      CondFilled(waiting, cb.Waiting(), sems, locks, conds, state, MAX_CONDS, state.conds[MAX_CONDS].(inuse := true));
      conds := conds[MAX_CONDS := conds[MAX_CONDS].(inuse := true)];
      cb.AgreesBeyond(state, st);
      state := st;
    }

    // The fields are those of the value.
    lemma Fields()
      requires Valid()
      ensures Separate() && Tabled(sems, locks, conds, state)
      ensures cb.currentPCB == state.current && cb.cont == state.cont && cb.halted == state.halted
      ensures cb.ret == state.ret
    {
      hide ControlBlocks.Valid, ControlBlocks.Lists, ControlBlocks.Waiting;
    }

    // ---- Semaphores ----

    method SemCreate(count: int)
      requires Valid()
      modifies Footprint()
      ensures Valid() && state == KernelState.SemCreate(old(state), count)
    {
      hide Valid, Finish, FirstIdle, SemsUsed;
      Fields();
      var s := 0;
      while s < MAX_SEMS && sems[s].inuse
        invariant 0 <= s <= MAX_SEMS && forall j :: 0 <= j < s ==> state.sems[j].inuse
      {
        s := s + 1;
      }
      IdleSem(state.sems, s);
      if s == MAX_SEMS {
        ReturnFromTrap(OtherCall, SYNC_FAIL);
      } else {
        SetUpSem(s, count);
        ReturnFromTrap(OtherCall, s);
      }
    }

    method SemWait(s: SemId)
      requires Valid() && state.sems[s].inuse && state.freeLinks > 0
      modifies Footprint()
      ensures Valid() && state == KernelState.SemWait(old(state), s)
    {
      hide Valid, Sleep, Finish;
      Fields();
      if sems[s].count <= 0 {
        Join(OnSem(s));
        ProcessSleep(InSemWait(s));
      } else {
        SetCount(s, sems[s].count - 1);
        ReturnFromTrap(SemWaitCall(s), SYNC_SUCCESS);
      }
    }

    method SemSignal(s: SemId)
      requires Valid() && state.sems[s].inuse
      modifies Footprint()
      ensures Valid() && state == KernelState.SemSignal(old(state), s)
    {
      hide Valid, Wakeup, Finish;
      Fields();
      SetCount(s, sems[s].count + 1);
      Fields();
      QueueOf(OnSem(s));
      if sems[s].count > 0 {
        if waiting[Slot(OnSem(s))].nitems != 0 {
          ghost var sem := old(state).sems[s];
          assert WithSem(GiveLink(state), s, Sem(sem.inuse, sem.count, sem.waiting[1..]))
                 == WithSem(GiveLink(old(state)), s, sem.(waiting := sem.waiting[1..]));
          WakeWaiter(s);
        }
      }
      ReturnFromTrap(OtherCall, SYNC_SUCCESS);
    }

    // The first waiter is woken, and the counter lowered again on its behalf.
    method WakeWaiter(s: SemId)
      requires Valid() && state.sems[s].inuse && state.sems[s].waiting != []
      modifies Footprint()
      ensures Valid()
      ensures state == Served(old(state), s)
    {
      hide Valid, Wakeup;
      ghost var sem := state.sems[s];
      var p := Leave(OnSem(s));
      WakeupAside(state, s, sem.count - 1, p);
      WakeupObjects(state, p);
      assert WithSem(state, s, state.sems[s].(count := sem.count - 1))
             == WithSem(GiveLink(old(state)), s, Sem(sem.inuse, sem.count - 1, sem.waiting[1..]));
      ProcessWakeup(p);
      Fields();
      SetCount(s, sems[s].count - 1);
    }

    // ---- Locks ----

    method LockCreate()
      requires Valid()
      modifies Footprint()
      ensures Valid() && state == KernelState.LockCreate(old(state))
    {
      hide Valid, Finish, FirstIdle, LocksUsed;
      Fields();
      var k := 0;
      while k < MAX_LOCKS && locks[k].inuse
        invariant 0 <= k <= MAX_LOCKS && forall j :: 0 <= j < k ==> state.locks[j].inuse
      {
        k := k + 1;
      }
      IdleLock(state.locks, k);
      if k == MAX_LOCKS {
        ReturnFromTrap(OtherCall, SYNC_FAIL);
      } else {
        SetUpLock(k);
        ReturnFromTrap(OtherCall, k);
      }
    }

    method LockAcquire(k: LockId, c: Cont, call: Call)
      requires Valid() && state.locks[k].inuse && state.freeLinks > 0
      modifies Footprint()
      ensures Valid() && state == KernelState.LockAcquire(old(state), k, c, call)
    {
      hide Valid, Sleep, Finish;
      Fields();
      if locks[k].pid == cb.currentPCB {
        ReturnFromTrap(call, SYNC_SUCCESS);
      } else if locks[k].pid >= 0 {
        Join(OnLock(k));
        ProcessSleep(c);
      } else {
        SetOwner(k, cb.currentPCB);
        ReturnFromTrap(call, SYNC_SUCCESS);
      }
    }

    // The part of LockRelease after the ownership check.
    method LockHandOff(k: LockId)
      requires Valid()
      modifies Footprint()
      ensures Valid() && state == HandOff(old(state), k)
    {
      hide Valid, Wakeup;
      SetOwner(k, -1);
      Fields();
      QueueOf(OnLock(k));
      if waiting[Slot(OnLock(k))].nitems != 0 {
        var p := Leave(OnLock(k));
        SetOwner(k, p);
        ghost var lock := old(state).locks[k];
        assert state == WithLock(GiveLink(old(state)), k, Lock(lock.inuse, p, lock.waiting[1..]));
        ProcessWakeup(p);
      }
    }

    method LockRelease(k: LockId)
      requires Valid()
      modifies Footprint()
      ensures Valid() && state == KernelState.LockRelease(old(state), k)
    {
      hide Valid, HandOff, Finish;
      Fields();
      if locks[k].pid != cb.currentPCB {
        ReturnFromTrap(OtherCall, SYNC_FAIL);
        return;
      }
      LockHandOff(k);
      ReturnFromTrap(OtherCall, SYNC_SUCCESS);
    }

    // ---- Condition variables ----

    method CondCreate(lock: int)
      requires Valid() && lock < MAX_LOCKS
      modifies Footprint()
      ensures Valid() && state == KernelState.CondCreate(old(state), lock)
    {
      hide Valid, Finish, FirstIdle, CondsUsed;
      Fields();
      if lock < 0 {
        ReturnFromTrap(OtherCall, SYNC_FAIL);
        return;
      }
      var c := 0;
      while c < MAX_LOCKS && conds[c].inuse
        invariant 0 <= c <= MAX_LOCKS && forall j :: 0 <= j < c ==> state.conds[j].inuse
      {
        c := c + 1;
      }
      IdleCond(state.conds, c);
      if c == MAX_LOCKS {
        Stop();
      } else if c == MAX_CONDS {
        MarkLast();
        ReturnFromTrap(OtherCall, SYNC_FAIL);
      } else {
        SetUpCond(c, lock);
        ReturnFromTrap(OtherCall, c);
      }
    }

    method CondWait(c: CondId)
      requires Valid() && SetUp(state, OnCond(c)) && state.freeLinks > 0
      modifies Footprint()
      ensures Valid() && state == KernelState.CondWait(old(state), c)
    {
      hide Valid, Sleep, Finish, HandOff;
      Fields();
      if locks[conds[c].lock].pid != cb.currentPCB {
        ReturnFromTrap(CondWaitCall(c), SYNC_FAIL);
        return;
      }
      Join(OnCond(c));
      Fields();
      LockHandOff(conds[c].lock);
      ProcessSleep(InCondWait(c));
    }

    method CondSignal(c: CondId)
      requires Valid() && SetUp(state, OnCond(c))
      modifies Footprint()
      ensures Valid() && state == KernelState.CondSignal(old(state), c)
    {
      hide Valid, Wakeup, Finish;
      Fields();
      if locks[conds[c].lock].pid != cb.currentPCB {
        ReturnFromTrap(OtherCall, SYNC_FAIL);
        return;
      }
      QueueOf(OnCond(c));
      if waiting[Slot(OnCond(c))].nitems != 0 {
        var p := Leave(OnCond(c));
        ProcessWakeup(p);
      }
      ReturnFromTrap(OtherCall, SYNC_SUCCESS);
    }

    method CondBroadcast(c: CondId)
      requires Valid() && SetUp(state, OnCond(c))
      modifies Footprint()
      ensures Valid() && state == KernelConditions.CondBroadcast(old(state), c)
    {
      hide Valid, Finish, KernelState.CondSignal;
      Fields();
      if locks[conds[c].lock].pid != cb.currentPCB {
        ReturnFromTrap(OtherCall, SYNC_FAIL);
        return;
      }
      ghost var st := state;
      QueueOf(OnCond(c));
      while waiting[Slot(OnCond(c))].nitems != 0
        invariant Valid() && Separate() && SetUp(state, OnCond(c)) && OwnsLockOf(state, c)
        invariant waiting[Slot(OnCond(c))].nitems == |state.conds[c].waiting|
        invariant KernelConditions.SignalAll(state, c) == KernelConditions.SignalAll(st, c)
        decreases |state.conds[c].waiting|
      {
        KernelConditions.SignalShrinks(state, c);
        SignalKeepsSetUp(state, c);
        CondSignal(c);
        QueueOf(OnCond(c));
      }
      ReturnFromTrap(OtherCall, SYNC_SUCCESS);
    }

    // ---- Traps ----

    // A trap taken from user code.
    method DoInterrupt(t: Trap)
      requires Valid() && Ready(state) && Allowed(state, t)
      modifies Footprint()
      ensures Valid() && state == Handle(old(state), t)
    {
      hide Valid, Ready, Schedule, Destroy, Fork, Sleep, Halt, KernelState.SemCreate,
        KernelState.SemWait, KernelState.SemSignal, KernelState.LockCreate, KernelState.LockAcquire,
        KernelState.LockRelease, KernelState.CondCreate, KernelState.CondWait, KernelState.CondSignal, Finish,
        GoodSem, GoodLock, GoodCond;
      Fields();
      match t {
        case Yield => ProcessSchedule();
        case Exit =>
          ProcessDestroy(cb.currentPCB);
          ProcessSchedule();
        case Create(found) => ProcessFork(found);
        case SleepTrap => ProcessSleep(User);
        case UnknownTrap => Stop();
        case OtherTrap(code) => ReturnFromTrap(OtherCall, code);
        case SemCreateTrap(count) => SemCreate(count);
        case LockCreateTrap => LockCreate();
        case CondCreateTrap(lock) => CondCreate(lock);
        case _ => SynchTrap(t);
      }
    }

    // Those that concern semaphores, locks and conditions in use.
    method SynchTrap(t: Trap)
      requires Valid() && Ready(state) && UsesHandle(t)
      modifies Footprint()
      ensures Valid() && state == Handle(old(state), t)
    {
      hide Valid, Ready, KernelState.SemWait, KernelState.SemSignal, KernelState.LockAcquire, KernelState.LockRelease,
        KernelState.CondWait, KernelState.CondSignal, Finish, GoodSem, GoodLock, GoodCond;
      Fields();
      match t {
        case SemWaitTrap(h) =>
          GoodHandles(sems, locks, conds, state, h);
          if h < 0 || h >= MAX_SEMS || !sems[h].inuse { ReturnFromTrap(SemWaitCall(h), SYNC_FAIL); }
          else { SemWait(h); }
        case SemSignalTrap(h) =>
          GoodHandles(sems, locks, conds, state, h);
          if h < 0 || h >= MAX_SEMS || !sems[h].inuse { ReturnFromTrap(OtherCall, SYNC_FAIL); } else { SemSignal(h); }
        case LockAcquireTrap(h) =>
          GoodHandles(sems, locks, conds, state, h);
          if h < 0 || h >= MAX_LOCKS || !locks[h].inuse { ReturnFromTrap(LockAcquireCall(h), SYNC_FAIL); }
          else { LockAcquire(h, InLockAcquire(h), LockAcquireCall(h)); }
        case LockReleaseTrap(h) =>
          GoodHandles(sems, locks, conds, state, h);
          if h < 0 || h >= MAX_LOCKS || !locks[h].inuse { ReturnFromTrap(OtherCall, SYNC_FAIL); }
          else { LockRelease(h); }
        case CondWaitTrap(h) =>
          GoodHandles(sems, locks, conds, state, h);
          if h < 0 || h >= MAX_SEMS || !conds[h].inuse { ReturnFromTrap(CondWaitCall(h), SYNC_FAIL); }
          else { CondWait(h); }
        case CondSignalTrap(h) =>
          GoodHandles(sems, locks, conds, state, h);
          if h < 0 || h >= MAX_CONDS || !conds[h].inuse { ReturnFromTrap(OtherCall, SYNC_FAIL); }
          else { CondSignal(h); }
        case CondBroadcastTrap(h) =>
          GoodHandles(sems, locks, conds, state, h);
          if h < 0 || h >= MAX_CONDS || !conds[h].inuse { ReturnFromTrap(OtherCall, SYNC_FAIL); }
          else { CondSignal(h); }
      }
    }

    // The process that was scheduled finishes the trap it fell asleep in.
    method FinishTrap()
      requires Valid() && Ready(state) && state.cont[state.current] != User
      modifies Footprint()
      ensures Valid() && state == Resume(old(state))
    {
      hide Valid, KernelState.LockAcquire, Finish, QueuesOk, BlockedOk, SynchOk, LinksOk;
      Fields();
      LocksOfSleepers();
      match cb.cont[cb.currentPCB] {
        case InSemWait(s) => ReturnFromTrap(SemWaitCall(s), SYNC_SUCCESS);
        case InLockAcquire(k) => ReturnFromTrap(LockAcquireCall(k), SYNC_SUCCESS);
        case InCondWait(c) => LockAcquire(conds[c].lock, InCondLock(c), CondWaitCall(c));
        case InCondLock(c) => ReturnFromTrap(CondWaitCall(c), SYNC_SUCCESS);
      }
    }

    lemma LocksOfSleepers()
      requires Ready(state)
      ensures state.freeLinks > 0
      ensures var c := state.cont[state.current]; c.InCondWait? ==> state.locks[state.conds[c.cond].lock].inuse
    {
      EnoughLinks(state);
      UsesItsLock(state, state.current);
    }

    // One atomic step: control goes from one point where it leaves the kernel, or a process falls asleep, to the next.
    method TakeStep(t: Trap)
      requires Valid() && Inv(state) && Allowed(state, t)
      modifies Footprint()
      ensures Valid() && state == Step(old(state), t) && Inv(state)
      ensures OwnerReturns(state) && cb.ret == state.ret
    {
      hide Valid, Inv, Handle, Resume, OwnerReturns;
      StepKeeps(state, t);
      StepReturns(state, t);
      Quiet(state);
      Fields();
      ClearResult();
      Fields();
      if cb.halted { return; }
      CurrentRuns(state);
      if cb.cont[cb.currentPCB] != User { FinishTrap(); } else { DoInterrupt(t); }
      Fields();
    }

    ghost function QueueFor(s: Status): Queue {
      match s
      case FREE => cb.freepcbs
      case RUNNABLE => cb.runQueue
      case WAITING => cb.waitQueue
      case ZOMBIE => cb.zombieQueue
    }

    // Some link of the queue of w carries p.
    ghost predicate HangsOn(p: Pid, w: Place)
      requires |waiting| == SLOTS && w != Nowhere
      reads waiting[Slot(w)], waiting[Slot(w)].links
    {
      exists i :: 0 <= i < |waiting[Slot(w)].links| && waiting[Slot(w)].links[i].item == p
    }

    /** The links themselves: the own link of every process hangs on the queue its status names; a blocked process
        hangs by a second link on the queue it sleeps on and on no other, and nobody else hangs on any; the free list
        still holds enough links for all that any step can ask for. */
    lemma LinksAreInOrder()
      requires Valid() && Inv(state)
      ensures !cb.halted ==>
        && |cb.m.freeLinks.links| == Queues.MAX_LINKS - MAX_PROCS - |Blocked(cb.flags, cb.cont)|
        && |Blocked(cb.flags, cb.cont)| <= MAX_PROCS
        && (forall p: Pid :: cb.l[p] != null && cb.l[p].item == p && cb.l[p] in QueueFor(cb.flags[p]).links)
        && (forall p: Pid, w :: w != Nowhere && SetUp(state, w) ==>
              (HangsOn(p, w) <==> Where(state, p) == w))
    {
      hide Valid, Inv;
      Fields();
      if !cb.halted {
        QueuesInPlace(state);
        WaitersInPlace(state);
        FreeLinksLeft();
        forall p: Pid
          ensures cb.l[p] != null && cb.l[p].item == p && cb.l[p] in QueueFor(cb.flags[p]).links
        {
          OwnLink(p);
        }
        forall p: Pid, w | w != Nowhere && SetUp(state, w)
          ensures HangsOn(p, w) <==> Where(state, p) == w
        {
          HangersAre(p, w);
        }
      }
    }

    lemma FreeLinksLeft()
      requires Valid()
      ensures |cb.m.freeLinks.links| == state.freeLinks && |cb.l| == MAX_PROCS
      ensures cb.flags == state.flags && cb.cont == state.cont
    {
    }

    lemma OwnLink(p: Pid)
      requires Valid() && Inv(state) && !state.halted
      ensures |cb.l| == MAX_PROCS && cb.l[p] != null && cb.l[p].item == p && cb.l[p] in QueueFor(cb.flags[p]).links
    {
      hide LinkPool.Valid, LinkPool.ValidBut, ControlBlocks.HoldNoOthers, ControlBlocks.Waiting, Tabled, Waiters,
        BlockedOk, SynchOk;
      cb.PlacesOfPids(QueueFor(cb.flags[p]), FirstPids(MAX_PROCS), p);
    }

    lemma HangersAre(p: Pid, w: Place)
      requires Valid() && w != Nowhere && SetUp(state, w)
      ensures HangsOn(p, w) <==> p in WaitingAt(state, w)
    {
      hide LinkPool.Valid, LinkPool.ValidBut, ControlBlocks.ValidOn, ControlBlocks.Waiting, Tabled, Waiters;
      WaitersAre(w);
      QueueOf(w);
      cb.WaitingOn(waiting[Slot(w)]);
    }

    /** Any traps whatever, one after the other. The machine of links goes where the run of KernelState goes, and
        answers every wait, at once or after a sleep, as it should. */
    method PerformTraps(ts: seq<Trap>) returns (replies: seq<Return>)
      requires Valid() && Inv(state) && AllAllowed(state, ts)
      modifies Footprint()
      ensures Valid() && state == Run(old(state), ts) && Inv(state)
      ensures |replies| == |ts|
      ensures forall i :: 0 <= i < |ts| ==> RepliesWith(old(state), ts[..i + 1], replies[i])
    {
      hide Valid, Inv, Step, Allowed, OwnerReturns, RepliesWith;
      replies := [];
      for i := 0 to |ts|
        invariant Valid() && Inv(state) && AllAllowed(old(state), ts[..i]) && state == Run(old(state), ts[..i])
        invariant |replies| == i && forall j :: 0 <= j < i ==> RepliesWith(old(state), ts[..j + 1], replies[j])
      {
        Prefix(old(state), ts, i);
        Next(old(state), ts[..i], ts[i]);
        assert ts[..i] + [ts[i]] == ts[..i + 1];
        Replied(old(state), ts[..i], ts[i]);
        TakeStep(ts[i]);
        replies := replies + [cb.ret];
      }
      assert ts[..|ts|] == ts;
    }
  }

  // The whole machine, from initialisation over any traps, as its users see it.
  method RunFromBoot(ts: seq<Trap>) returns (replies: seq<Return>)
    requires AllAllowed(Boot(), ts)
    ensures |replies| == |ts|
    ensures forall i :: 0 <= i < |ts| ==> RepliesWith(Boot(), ts[..i + 1], replies[i])
  {
    hide Kernel.Valid, Kernel.AtStart, Inv, RepliesWith, Boot, Start;
    var k := NewKernel();
    k.Initialise();
    BootIsSound();
    replies := k.PerformTraps(ts);
    k.LinksAreInOrder();
  }

  // The last of the traps ts returns r. If it is one in which processes sleep, then either the caller sleeps in it, or
  // it is told of success exactly when its handle is good and it owns the lock, where there is one.
  ghost predicate RepliesWith(st: State, ts: seq<Trap>, r: Return) {
    && ts != [] && AllAllowed(st, ts) && r == Run(st, ts).ret && OwnerReturns(Run(st, ts))
    && var before := ts[..|ts| - 1]; AllAllowed(st, before) && Rightly(Run(st, before), ts[|ts| - 1], Run(st, ts))
  }

  ghost predicate Rightly(st: State, t: Trap, st': State) {
    !st.halted && !st'.halted && CallMade(st, t) != OtherCall ==> Answered(st, t, st')
  }

  lemma Replied(st: State, ts: seq<Trap>, t: Trap)
    requires AllAllowed(st, ts) && Inv(Run(st, ts)) && Allowed(Run(st, ts), t)
    ensures AllAllowed(st, ts + [t]) && RepliesWith(st, ts + [t], Run(st, ts + [t]).ret)
  {
    hide Inv, Step, Allowed, Answered, OwnerReturns;
    Next(st, ts, t);
    StepReturns(Run(st, ts), t);
    assert (ts + [t])[..|ts + [t]| - 1] == ts;
    var st1 := Run(st, ts);
    if !st1.halted && !Step(st1, t).halted && CallMade(st1, t) != OtherCall { WaitsAreAnswered(st1, t); }
  }

  predicate UsesHandle(t: Trap) {
    || t.SemWaitTrap? || t.SemSignalTrap? || t.LockAcquireTrap? || t.LockReleaseTrap?
    || t.CondWaitTrap? || t.CondSignalTrap? || t.CondBroadcastTrap?
  }

  // A halted machine returns nothing.
  lemma StepReturns(st: State, t: Trap)
    requires Inv(st) && Allowed(st, t)
    ensures OwnerReturns(Step(st, t))
  {
    hide Inv;
    if !st.halted { SuccessMeansOwner(st, t); }
  }

  // The first waiter of a semaphore is woken and the count lowered.
  function Served(st: State, s: SemId): State
    requires st.sems[s].waiting != []
  {
    var sem := st.sems[s];
    Wakeup(WithSem(GiveLink(st), s, Sem(sem.inuse, sem.count - 1, sem.waiting[1..])), sem.waiting[0])
  }

  // The counter takes no part in a wakeup.
  lemma WakeupAside(st: State, s: SemId, count: int, p: Pid)
    ensures Wakeup(WithSem(st, s, st.sems[s].(count := count)), p)
            == WithSem(Wakeup(st, p), s, Wakeup(st, p).sems[s].(count := count))
  {
    hide Minus;
    WakeupObjects(st, p);
  }

  lemma GoodHandles(sems: SemTable, locks: LockTable, conds: CondTable, st: State, h: int)
    requires Tabled(sems, locks, conds, st) && Ready(st)
    ensures st.freeLinks > 0
    ensures GoodSem(st, h) <==> 0 <= h < MAX_SEMS && sems[h].inuse
    ensures GoodLock(st, h) <==> 0 <= h < MAX_LOCKS && locks[h].inuse
    ensures GoodCond(st, h) <==> 0 <= h < MAX_CONDS && conds[h].inuse
    ensures GoodCond(st, h) ==> SetUp(st, OnCond(h))
  {
    hide QueuesOk, BlockedOk;
    EnoughLinks(st);
  }

  lemma SignalKeepsSetUp(st: State, c: CondId)
    requires OwnsLockOf(st, c)
    ensures CondSignal(st, c).conds[c].inuse == st.conds[c].inuse
  {
    hide Wakeup;
    WakeFirstObjects(st, c);
  }

  // Where the scans of the three tables end.
  lemma IdleIs(used: seq<bool>, i: nat)
    requires i <= |used| && (i < |used| ==> !used[i]) && forall j :: 0 <= j < i ==> used[j]
    ensures FirstIdle(used) == i
  {
  }

  lemma IdleSem(sems: Sems, s: nat)
    requires s <= MAX_SEMS && (s < MAX_SEMS ==> !sems[s].inuse) && forall j :: 0 <= j < s ==> sems[j].inuse
    ensures FirstIdle(SemsUsed(sems)) == s
  {
    IdleIs(SemsUsed(sems), s);
  }

  lemma IdleLock(locks: Locks, k: nat)
    requires k <= MAX_LOCKS && (k < MAX_LOCKS ==> !locks[k].inuse) && forall j :: 0 <= j < k ==> locks[j].inuse
    ensures FirstIdle(LocksUsed(locks)) == k
  {
    IdleIs(LocksUsed(locks), k);
  }

  lemma IdleCond(conds: Conds, c: nat)
    requires c <= MAX_LOCKS && (c < MAX_LOCKS ==> !conds[c].inuse) && forall j :: 0 <= j < c ==> conds[j].inuse
    ensures FirstIdle(CondsUsed(conds)) == c
  {
    IdleIs(CondsUsed(conds), c);
  }
}
