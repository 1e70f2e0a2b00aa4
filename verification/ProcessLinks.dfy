/** The process control blocks with their links: the routines of process.c, moving a process from queue to queue by
    its link, do to the queues and the control blocks what KernelState says they do. */
module ProcessLinks {
  import opened Queues
  import opened KernelState
  import KernelRuns

  // The process a link carries; the links of process queues carry nothing else.
  ghost function PidOf(item: int): Pid { if 0 <= item < MAX_PROCS then item else 0 }

  // The processes a queue holds, in order.
  ghost function Pids(links: seq<Link>): (s: seq<Pid>)
    reads links
    ensures |s| == |links| && forall i :: 0 <= i < |s| ==> s[i] == PidOf(links[i].item)
  {
    seq(|links|, i requires 0 <= i < |links| reads links => PidOf(links[i].item))
  }

  // What a queue holds, whatever its links carry.
  ghost function Items(links: seq<Link>): (s: seq<int>)
    reads links
    ensures |s| == |links| && forall i :: 0 <= i < |s| ==> s[i] == links[i].item
  {
    seq(|links|, i requires 0 <= i < |links| reads links => links[i].item)
  }

  // Dropping the one place where a process stands is taking it out.
  lemma {:induction false} DropIsMinus(s: seq<Pid>, i: nat)
    requires i < |s| && Distinct(s)
    ensures Drop(s, i) == Minus(s, s[i])
    decreases i
  {
    if i > 0 {
      DropIsMinus(s[1..], i - 1);
      assert Drop(s, i) == [s[0]] + Drop(s[1..], i - 1);
    }
  }

  lemma {:induction false} MinusAbsent(s: seq<Pid>, p: Pid)
    requires p !in s
    ensures Minus(s, p) == s
  {
    if s != [] { MinusAbsent(s[1..], p); }
  }

  // Taking link x out of a list takes its process p out of the processes listed.
  lemma PidsWithout(was: seq<Pid>, links: seq<Link>, x: Link, p: Pid)
    requires x in links && |was| == |links| && Distinct(was) && was[IndexOf(links, x)] == p
    ensures |Without(links, x)| == |Minus(was, p)|
    ensures forall j :: 0 <= j < |Without(links, x)| ==>
      exists k :: 0 <= k < |links| && Without(links, x)[j] == links[k] && Minus(was, p)[j] == was[k]
  {
    var i := IndexOf(links, x);
    DropFacts(links, i);
    DropFacts(was, i);
    DropIsMinus(was, i);
    forall j | 0 <= j < |Without(links, x)|
      ensures exists k :: 0 <= k < |links| && Without(links, x)[j] == links[k] && Minus(was, p)[j] == was[k]
    {
      var k := if j < i then j else j + 1;
      assert Without(links, x)[j] == links[k] && Minus(was, p)[j] == was[k];
    }
  }

  ghost function FirstPids(n: nat): (s: set<Pid>)
    requires n <= MAX_PROCS
    ensures forall p: Pid :: p in s <==> p < n
  {
    if n == 0 then {} else FirstPids(n - 1) + {n - 1}
  }

  class ControlBlocks {
    const m: LinkPool
    const freepcbs: Queue
    const runQueue: Queue
    const waitQueue: Queue
    const zombieQueue: Queue
    var l: seq<Link?>
    var flags: Flags
    var cont: Conts
    var currentPCB: Pid
    var ret: Return
    var complained: bool
    var halted: bool

    ghost function Four(): set<Queue> { {freepcbs, runQueue, waitQueue, zombieQueue} }

    // Each process of the set has its link on one of the four queues ...
    ghost predicate EachHasItsLink(on: set<Pid>)
      requires |l| == MAX_PROCS
      reads `l, m.pool
    {
      forall p :: p in on ==> l[p] != null && l[p] in m.pool && l[p].item == p && l[p].queue in Four()
    }

    // ... and these queues hold no other links.
    ghost predicate HoldNoOthers(on: set<Pid>, q: Queue)
      requires |l| == MAX_PROCS
      reads `l, q, m.pool
    {
      forall x :: x in q.links ==> x in m.pool && 0 <= x.item < MAX_PROCS && x.item in on && l[x.item] == x
    }

    ghost predicate ValidOn(on: set<Pid>)
      reads `l, m, m.queues, m.pool
    {
      && m.Valid() && |l| == MAX_PROCS && Four() <= m.queues && m.freeLinks !in Four()
      && EachHasItsLink(on)
      && (forall q :: q in Four() ==> HoldNoOthers(on, q))
    }

    ghost predicate Valid()
      reads `l, m, m.queues, m.pool
    {
      ValidOn(FirstPids(MAX_PROCS))
    }

    lemma Places(q: Queue)
      requires m.Valid() && q in m.queues
      ensures Distinct(q.links)
      ensures forall x :: x in q.links ==> x in m.pool && x.queue == q
      ensures forall x :: x in m.pool && x.queue == q ==> x in q.links
    {
      assert q.WellFormed(m.pool);
    }

    // What is known of process p and queue q.
    ghost predicate InPlace(q: Queue, on: set<Pid>, p: Pid)
      requires |l| == MAX_PROCS && l[p] != null && l[p] in m.pool
      reads `l, q, m.pool
    {
      && HoldNoOthers(on, q)
      && Distinct(q.links) && Distinct(Pids(q.links))
      && (l[p] in q.links <==> q == l[p].queue)
      && (p in Pids(q.links) <==> q == l[p].queue)
      && (q == l[p].queue ==> Pids(q.links)[IndexOf<Link>(q.links, l[p])] == p)
    }

    lemma PlacesOfPids(q: Queue, on: set<Pid>, p: Pid)
      requires ValidOn(on) && q in Four() && p in on
      ensures InPlace(q, on, p)
    {
      hide LinkPool.Valid, LinkPool.ValidBut;
      Places(q);
      forall i, j | 0 <= i < j < |q.links| ensures q.links[i].item != q.links[j].item {
        assert l[q.links[i].item] == q.links[i] && l[q.links[j].item] == q.links[j];
      }
    }

    // What the other queues hold: those on which processes wait for a semaphore, a lock or a condition.
    ghost function Waiting(): map<Queue, seq<int>>
      requires m.Valid()
      reads m, m.queues, m.pool
    {
      map q | q in m.queues && q !in Four() && q != m.freeLinks :: Items(q.links)
    }

    lemma FreeLinksLive()
      requires m.Valid()
      ensures m.freeLinks in m.queues
    {
    }

    // AQueueRemove on the process's own link.
    method Detach(p: Pid, ghost on: set<Pid>)
      requires ValidOn(on) && p in on
      modifies `l, m.queues, m.pool
      ensures ValidOn(on - {p}) && m.queues == old(m.queues) && Waiting() == old(Waiting())
      ensures |m.freeLinks.links| == old(|m.freeLinks.links|) + 1
      ensures forall q :: q in Four() ==> Pids(q.links) == Minus(old(Pids(q.links)), p)
    {
      hide LinkPool.Valid, LinkPool.ValidBut, HoldNoOthers, Minus, LinkPool.OthersRemain, InPlace, Waiting;
      ghost var x: Link := l[p];
      forall q | q in Four() ensures InPlace(q, on, p) { PlacesOfPids(q, on, p); }
      var code, none := m.Remove(l[p]);
      l := l[p := none];
      DetachLeaves(Taken(this, p, on, x));
      DetachKeepsLinks(Taken(this, p, on, x));
      DetachKeepsPids(Taken(this, p, on, x));
      DetachKeepsWaiting(Taken(this, p, on, x));
    }

    // AQueueAllocLink, and AQueueInsertFirst or AQueueInsertLast.
    method Attach(p: Pid, to: Queue, atFront: bool, ghost on: set<Pid>)
      requires ValidOn(on) && p !in on && to in Four() && m.freeLinks.links != []
      modifies `l, m.queues, m.pool
      ensures ValidOn(on + {p}) && m.queues == old(m.queues) && Waiting() == old(Waiting())
      ensures |m.freeLinks.links| == old(|m.freeLinks.links|) - 1
      ensures Pids(to.links) == if atFront then [p] + old(Pids(to.links)) else old(Pids(to.links)) + [p]
      ensures forall q :: q in Four() && q != to ==> Pids(q.links) == old(Pids(q.links))
    {
      hide LinkPool.Valid, LinkPool.ValidBut, EachHasItsLink, HoldNoOthers, Waiting, Pids;
      FreeLinksLive();
      var x := NewLink(p);
      l := l[p := x];
      Put(x, to, atFront);
      Places(to);
      AttachKeepsLinks(Given(this, p, on, x, to, atFront));
      AttachKeepsPids(Given(this, p, on, x, to, atFront));
      AttachKeepsWaiting(Given(this, p, on, x, to, atFront));
    }

    // The first free link, now carrying p and on no queue.
    method NewLink(p: Pid) returns (x: Link)
      requires m.Valid() && m.freeLinks.links != []
      modifies m.freeLinks, m.pool
      ensures m.ValidBut(x) && x in m.pool && x.item == p && x.queue == null && old(x.queue) == m.freeLinks
      ensures m.freeLinks.links == old(m.freeLinks.links)[1..]
      ensures forall q :: q in m.queues && q != m.freeLinks ==> x !in old(q.links) && q.links == old(q.links)
      ensures forall y :: y in m.pool && y != x ==> y.item == old(y.item) && y.queue == old(y.queue)
    {
      hide LinkPool.Valid, LinkPool.ValidBut;
      ghost var first := m.freeLinks.links[0];
      FreeLinksLive();
      Places(m.freeLinks);
      forall q | q in m.queues && q != m.freeLinks ensures first !in q.links { Places(q); }
      x := m.AllocLink(p);
      m.Unattached(x);
    }

    method Put(x: Link, to: Queue, atFront: bool)
      requires m.ValidBut(x) && x in m.pool && to in m.queues
      modifies m.queues, m.pool
      ensures m.Valid() && m.OthersUntouched(to, x)
      ensures to.links == if atFront then [x] + old(to.links) else old(to.links) + [x]
    {
      hide LinkPool.Valid, LinkPool.ValidBut, LinkPool.OthersUntouched;
      var code;
      if atFront {
        code := m.InsertFirst(to, x);
      } else {
        code := m.InsertLast(to, x);
      }
    }

    // The static storage: four queues, and control blocks without links.
    constructor (pool: LinkPool)
      requires pool.Valid() && pool.queues == {pool.freeLinks}
      ensures m == pool && Apart() && fresh(Four()) && |l| == MAX_PROCS && !halted && !complained
    {
      m := pool;
      freepcbs := new Queue();
      runQueue := new Queue();
      waitQueue := new Queue();
      zombieQueue := new Queue();
      l := seq(MAX_PROCS, _ => null);
      flags, cont := seq(MAX_PROCS, _ => FREE), seq(MAX_PROCS, _ => User);
      currentPCB, ret, complained, halted := MAX_PROCS - 1, NoReturn, false, false;
    }

    // Every process gets a link on the free queue.
    method ProcessModuleInit()
      requires m.Valid() && m.queues == {m.freeLinks} && |m.freeLinks.links| == Queues.MAX_LINKS
      requires Apart() && m.freeLinks !in Four() && |l| == MAX_PROCS && !halted && !complained
      modifies this, m`queues, m.freeLinks, Four(), m.pool
      ensures Valid() && m.queues == {m.freeLinks} + Four()
      ensures Agrees(KernelRuns.Start()) && Waiting() == map[]
    {
      hide LinkPool.Valid, LinkPool.ValidBut, ControlBlocks.ValidOn, ControlBlocks.Valid, Agrees, Waiting, Pids,
        KernelRuns.CountDown;
      flags, cont := seq(MAX_PROCS, _ => FREE), seq(MAX_PROCS, _ => User);
      currentPCB, ret := MAX_PROCS - 1, NoReturn;
      InitQueues();
      LinkAll();
      PoolIsValid();
      NobodyWaits();
      StartAgrees();
    }

    lemma StartAgrees()
      requires Valid() && Apart() && |m.freeLinks.links| == Queues.MAX_LINKS - MAX_PROCS
      requires Pids(freepcbs.links) == KernelRuns.CountDown(MAX_PROCS)
      requires forall q :: q in Four() && q != freepcbs ==> Pids(q.links) == []
      requires flags == seq(MAX_PROCS, _ => FREE) && cont == seq(MAX_PROCS, _ => User)
      requires currentPCB == MAX_PROCS - 1 && ret == NoReturn && !complained && !halted
      ensures Agrees(KernelRuns.Start())
    {
      hide LinkPool.Valid, LinkPool.ValidBut, ControlBlocks.ValidOn, KernelRuns.Start, Pids;
      KernelRuns.StartIs();
    }

    lemma NobodyWaits()
      requires m.Valid() && m.queues == {m.freeLinks} + Four()
      ensures Waiting() == map[]
    {
    }

    method LinkAll()
      requires ValidOn({}) && |m.freeLinks.links| == Queues.MAX_LINKS && m.queues == {m.freeLinks} + Four()
      requires forall q :: q in Four() ==> q.links == []
      modifies `l, m.queues, m.pool
      ensures Valid() && m.queues == old(m.queues) && |m.freeLinks.links| == Queues.MAX_LINKS - MAX_PROCS
      ensures Pids(freepcbs.links) == KernelRuns.CountDown(MAX_PROCS)
      ensures forall q :: q in Four() && q != freepcbs ==> Pids(q.links) == []
    {
      hide LinkPool.Valid, LinkPool.ValidBut, ControlBlocks.ValidOn, Pids;
      assert FirstPids(0) == {};
      for i := 0 to MAX_PROCS
        invariant ValidOn(FirstPids(i)) && |m.freeLinks.links| == Queues.MAX_LINKS - i
        invariant m.queues == old(m.queues)
        invariant Pids(freepcbs.links) == KernelRuns.CountDown(i)
        invariant forall q :: q in Four() && q != freepcbs ==> Pids(q.links) == []
      {
        Attach(i, freepcbs, true, FirstPids(i));
        assert FirstPids(i + 1) == FirstPids(i) + {i};
      }
    }

    method InitQueues()
      requires m.Valid() && m.queues == {m.freeLinks} && |l| == MAX_PROCS
      requires runQueue != freepcbs && waitQueue !in {freepcbs, runQueue}
      requires zombieQueue !in {freepcbs, runQueue, waitQueue} && m.freeLinks !in Four()
      modifies m`queues, Four()
      ensures ValidOn({}) && m.queues == {m.freeLinks} + Four() && m.freeLinks.links == old(m.freeLinks.links)
      ensures forall q :: q in Four() ==> q.links == []
    {
      hide LinkPool.Valid, LinkPool.ValidBut;
      var code := m.Init(freepcbs);
      code := m.Init(runQueue);
      code := m.Init(waitQueue);
      code := m.Init(zombieQueue);
    }

    // The queues of a kernel state, and its count of free links, are those of the links.
    ghost predicate Lists(st: State)
      requires Valid()
      reads `l, m, m.queues, m.pool
    {
      && Pids(freepcbs.links) == st.freepcbs && Pids(runQueue.links) == st.runQueue
      && Pids(waitQueue.links) == st.waitQueue && Pids(zombieQueue.links) == st.zombieQueue
      && |m.freeLinks.links| == st.freeLinks
    }

    // Everything of a kernel state but the semaphores, locks and conditions is that of the control blocks.
    ghost predicate Agrees(st: State)
      requires Valid()
      reads this, m, m.queues, m.pool
    {
      && Lists(st)
      && flags == st.flags && cont == st.cont && currentPCB == st.current
      && ret == st.ret && complained == st.complained && halted == st.halted
    }

    lemma FieldsOf(st: State)
      requires Valid() && Agrees(st)
      ensures Lists(st) && flags == st.flags && cont == st.cont && currentPCB == st.current
      ensures ret == st.ret && complained == st.complained && halted == st.halted
    {
    }

    lemma AgreesIn(st: State)
      requires Valid() && Lists(st) && flags == st.flags && cont == st.cont && currentPCB == st.current
      requires ret == st.ret && complained == st.complained && halted == st.halted
      ensures Agrees(st)
    {
    }

    ghost predicate Apart() {
      && runQueue != freepcbs && waitQueue !in {freepcbs, runQueue}
      && zombieQueue !in {freepcbs, runQueue, waitQueue}
    }

    ghost function Placed(q: Queue, s: seq<Pid>, p: Pid, to: Queue, atFront: bool): seq<Pid> {
      if q != to then Minus(s, p) else if atFront then [p] + Minus(s, p) else Minus(s, p) + [p]
    }

    // Process p has gone from the queue it was on to the front or the end of another.
    ghost function Moved(st: State, p: Pid, to: Queue, atFront: bool): State {
      st.(freepcbs := Placed(freepcbs, st.freepcbs, p, to, atFront),
          runQueue := Placed(runQueue, st.runQueue, p, to, atFront),
          waitQueue := Placed(waitQueue, st.waitQueue, p, to, atFront),
          zombieQueue := Placed(zombieQueue, st.zombieQueue, p, to, atFront))
    }

    lemma SuspendIsMove(st: State, p: Pid)
      requires Apart() && OnSomeQueue(st, p) && st.freeLinks >= 0
      ensures SameQueues(Moved(st, p, waitQueue, false), Suspend(st, p))
      ensures SameFields(st.(flags := st.flags[p := WAITING], complained := st.complained || st.flags[p] != RUNNABLE),
                         Suspend(st, p))
    {
      hide Minus;
    }

    lemma WakeupIsMove(st: State, p: Pid)
      requires Apart() && OnSomeQueue(st, p) && st.freeLinks >= 0
      ensures SameQueues(Moved(st, p, runQueue, false), Wakeup(st, p))
      ensures SameFields(st.(flags := st.flags[p := RUNNABLE], complained := st.complained || st.flags[p] != WAITING),
                         Wakeup(st, p))
    {
      hide Minus;
    }

    lemma DestroyIsMove(st: State, p: Pid)
      requires Apart() && OnSomeQueue(st, p) && st.freeLinks >= 0
      ensures SameQueues(Moved(st, p, zombieQueue, true), Destroy(st, p))
      ensures SameFields(st.(flags := st.flags[p := ZOMBIE]), Destroy(st, p))
    {
      hide Minus;
    }

    lemma FreeIsMove(st: State, p: Pid)
      requires Apart() && OnSomeQueue(st, p) && st.freeLinks >= 0
      ensures SameQueues(Moved(st, p, freepcbs, false), FreeResources(Unqueue(st, p), p))
      ensures SameFields(st.(flags := st.flags[p := FREE]), FreeResources(Unqueue(st, p), p))
    {
      hide Minus;
    }

    lemma ForkIsMove(st: State, p: Pid, found: bool)
      requires Apart() && OnSomeQueue(st, p) && st.freeLinks >= 0 && st.freepcbs != [] && st.freepcbs[0] == p
      ensures SameQueues(Moved(st, p, if found then runQueue else freepcbs, false), Fork(st, found))
      ensures SameFields(if found then st.(flags := st.flags[p := RUNNABLE], cont := st.cont[p := User])
                         else st.(flags := st.flags[p := FREE]), Fork(st, found))
    {
      hide Minus;
    }

    // Remove, allocate, insert.
    method Requeue(p: Pid, to: Queue, atFront: bool, ghost st: State)
      requires Valid() && Lists(st) && to in Four()
      modifies `l, m.queues, m.pool
      ensures Valid() && Lists(Moved(st, p, to, atFront))
      ensures m.queues == old(m.queues) && Waiting() == old(Waiting())
    {
      hide LinkPool.Valid, LinkPool.ValidBut, ControlBlocks.ValidOn, Minus, Waiting, Pids;
      ghost var all := FirstPids(MAX_PROCS);
      Detach(p, all);
      Attach(p, to, atFront, all - {p});
      assert all - {p} + {p} == all;
    }

    method ProcessSuspend(p: Pid, ghost st: State)
      requires Valid() && Apart() && Agrees(st)
      modifies this, m.queues, m.pool
      ensures Valid() && Agrees(Suspend(st, p)) && m.queues == old(m.queues) && Waiting() == old(Waiting())
    {
      hide LinkPool.Valid, LinkPool.ValidBut, ControlBlocks.Valid, Agrees, Lists, Waiting, Apart, SameQueues, Moved,
        Suspend;
      FieldsOf(st);
      OnOneQueue(p, st);
      SuspendIsMove(st, p);
      complained := complained || flags[p] != RUNNABLE;
      flags := flags[p := WAITING];
      Requeue(p, waitQueue, false, st);
      SameListing(Moved(st, p, waitQueue, false), Suspend(st, p));
      AgreesIn(Suspend(st, p));
    }

    method ProcessWakeup(p: Pid, ghost st: State)
      requires Valid() && Apart() && Agrees(st)
      modifies this, m.queues, m.pool
      ensures Valid() && Agrees(Wakeup(st, p)) && m.queues == old(m.queues) && Waiting() == old(Waiting())
    {
      hide LinkPool.Valid, LinkPool.ValidBut, ControlBlocks.Valid, Agrees, Lists, Waiting, Apart, SameQueues, Moved,
        Wakeup;
      FieldsOf(st);
      OnOneQueue(p, st);
      WakeupIsMove(st, p);
      complained := complained || flags[p] != WAITING;
      flags := flags[p := RUNNABLE];
      Requeue(p, runQueue, false, st);
      SameListing(Moved(st, p, runQueue, false), Wakeup(st, p));
      AgreesIn(Wakeup(st, p));
    }

    method ProcessDestroy(p: Pid, ghost st: State)
      requires Valid() && Apart() && Agrees(st)
      modifies this, m.queues, m.pool
      ensures Valid() && Agrees(Destroy(st, p)) && m.queues == old(m.queues) && Waiting() == old(Waiting())
    {
      hide LinkPool.Valid, LinkPool.ValidBut, ControlBlocks.Valid, Agrees, Lists, Waiting, Apart, SameQueues, Moved,
        Destroy;
      FieldsOf(st);
      OnOneQueue(p, st);
      DestroyIsMove(st, p);
      flags := flags[p := ZOMBIE];
      Requeue(p, zombieQueue, true, st);
      SameListing(Moved(st, p, zombieQueue, true), Destroy(st, p));
      AgreesIn(Destroy(st, p));
    }

    // The current process gives up the processor inside a trap, to go on at c.
    method ProcessSleep(c: Cont, ghost st: State)
      requires Valid() && Apart() && Agrees(st)
      modifies this, m.queues, m.pool
      ensures Valid() && Agrees(Sleep(st, c)) && m.queues == old(m.queues) && Waiting() == old(Waiting())
    {
      hide LinkPool.Valid, LinkPool.ValidBut, ControlBlocks.Valid, Lists, Waiting, Minus, Suspend, Schedule;
      ghost var st1 := st.(cont := st.cont[st.current := c]);
      cont := cont[currentPCB := c];
      SameListing(st, st1);
      ProcessSuspend(currentPCB, st1);
      ProcessSchedule(Suspend(st1, st.current));
    }

    // ProcessSetResult for the current process, which goes back to user code.
    method ProcessSetResult(call: Call, code: int, ghost st: State)
      requires Valid() && Agrees(st)
      modifies this
      ensures Valid() && Agrees(Finish(st, call, code)) && m.queues == old(m.queues) && Waiting() == old(Waiting())
    {
      hide LinkPool.Valid, LinkPool.ValidBut, ControlBlocks.Valid, Waiting;
      cont := cont[currentPCB := User];
      ret := Returned(currentPCB, call, code);
    }

    // The process at the head of a queue, read off the queue's first link.
    method Head(q: Queue) returns (p: int)
      requires Valid() && q in Four() && q.links != []
      ensures 0 <= p < MAX_PROCS && p == Pids(q.links)[0]
    {
      hide LinkPool.ValidBut;
      Ends(q);
      p := q.first.item;
      assert HoldNoOthers(FirstPids(MAX_PROCS), q) && q.links[0] in q.links;
    }

    method FirstOf(q: Queue, ghost s: seq<Pid>, ghost st: State) returns (p: int)
      requires Valid() && Lists(st) && s != []
      requires (q == freepcbs && s == st.freepcbs) || (q == runQueue && s == st.runQueue)
               || (q == zombieQueue && s == st.zombieQueue)
      ensures 0 <= p < MAX_PROCS && p == s[0]
    {
      hide LinkPool.Valid, LinkPool.ValidBut, ControlBlocks.ValidOn, Pids;
      QueueLength(q);
      p := Head(q);
    }

    lemma Ends(q: Queue)
      requires m.Valid() && q in m.queues
      ensures q.nitems == |q.links|
      ensures q.links != [] ==> q.first == q.links[0] && q.last == q.links[|q.links| - 1]
    {
      assert q.WellFormed(m.pool);
    }

    // The process at the head of the free queue goes to the run queue, or back when its program cannot be read.
    method ProcessFork(found: bool, ghost st: State)
      requires Valid() && Apart() && Agrees(st)
      modifies this, m.queues, m.pool
      ensures Valid() && Agrees(Fork(st, found)) && m.queues == old(m.queues) && Waiting() == old(Waiting())
    {
      hide LinkPool.Valid, LinkPool.ValidBut, ControlBlocks.Valid, Lists, Waiting, Apart, SameQueues, Moved,
        Fork;
      Lengths(st);
      if freepcbs.nitems == 0 {
        halted := true;
        NoFork(st, found);
        SameListing(st, Halt(st));
        return;
      }
      TakeBlock(found, st);
    }

    method TakeBlock(found: bool, ghost st: State)
      requires Valid() && Apart() && Agrees(st) && st.freepcbs != []
      modifies this, m.queues, m.pool
      ensures Valid() && Agrees(Fork(st, found)) && m.queues == old(m.queues) && Waiting() == old(Waiting())
    {
      hide LinkPool.Valid, LinkPool.ValidBut, ControlBlocks.Valid, Agrees, Lists, Waiting, Apart, SameQueues, Moved,
        Fork;
      FieldsOf(st);
      var p := FirstOf(freepcbs, st.freepcbs, st);
      OnOneQueue(p, st);
      ForkIsMove(st, p, found);
      flags := flags[p := if found then RUNNABLE else FREE];
      if found { cont := cont[p := User]; }
      Requeue(p, if found then runQueue else freepcbs, false, st);
      SameListing(Moved(st, p, if found then runQueue else freepcbs, false), Fork(st, found));
      AgreesIn(Fork(st, found));
    }

    lemma NoFork(st: State, found: bool)
      requires st.freepcbs == []
      ensures Fork(st, found) == Halt(st) && SameQueues(st, Halt(st))
    {
    }

    lemma Lengths(st: State)
      requires Valid() && Lists(st)
      ensures freepcbs.nitems == |st.freepcbs| && runQueue.nitems == |st.runQueue|
      ensures zombieQueue.nitems == |st.zombieQueue|
    {
      hide LinkPool.Valid, LinkPool.ValidBut, ControlBlocks.ValidOn, Pids;
      QueueLength(freepcbs);
      QueueLength(runQueue);
      QueueLength(zombieQueue);
    }

    lemma QueueLength(q: Queue)
      requires Valid() && q in Four()
      ensures q.nitems == |q.links| == |Pids(q.links)|
    {
      Ends(q);
    }

    // AQueueMoveAfter of the first link of the run queue after its last.
    method TurnRunQueue()
      requires Valid() && runQueue.links != []
      modifies m.queues, m.pool
      ensures Valid() && |m.freeLinks.links| == old(|m.freeLinks.links|) && m.queues == old(m.queues)
      ensures Waiting() == old(Waiting())
      ensures Pids(runQueue.links) == Rotated(old(Pids(runQueue.links)))
      ensures forall q :: q in Four() && q != runQueue ==> Pids(q.links) == old(Pids(q.links))
    {
      hide LinkPool.Valid, LinkPool.ValidBut, EachHasItsLink, HoldNoOthers, Chained, Insert, Drop, Pids, Waiting;
      ghost var s := runQueue.links;
      Places(runQueue);
      Ends(runQueue);
      var code := m.MoveAfter(runQueue, runQueue.last, runQueue.first);
      if |s| > 1 {
        MovingFirstAfterLastRotates(s);
        FreeLinksLive();
        TurnKeeps(Turned(this, s));
      } else {
        assert Rotated(old(Pids(s))) == old(Pids(s));
      }
    }

    lemma PoolIsValid()
      requires Valid()
      ensures m.Valid() && Four() <= m.queues && m.freeLinks !in Four() && m.freeLinks in m.queues
    {
    }

    // The loop at the end of ProcessSchedule: every zombie's control block is freed.
    method DrainZombies(ghost st: State)
      requires Valid() && Apart() && Agrees(st)
      modifies this, m.queues, m.pool
      ensures Valid() && Agrees(Drained(st)) && m.queues == old(m.queues) && Waiting() == old(Waiting())
    {
      hide LinkPool.Valid, LinkPool.ValidBut, ControlBlocks.ValidOn, Waiting, Minus, Pids;
      ghost var now := st;
      PoolIsValid();
      QueueLength(zombieQueue);
      while zombieQueue.nitems != 0
        invariant Valid() && Agrees(now) && Drained(now) == Drained(st)
        invariant m.Valid() && m.queues == old(m.queues) && Waiting() == old(Waiting())
        invariant zombieQueue.nitems == |now.zombieQueue|
        decreases |now.zombieQueue|
      {
        MinusLength(now.zombieQueue, now.zombieQueue[0]);
        FreeFirstZombie(now);
        now := FreeResources(Unqueue(now, now.zombieQueue[0]), now.zombieQueue[0]);
        PoolIsValid();
        QueueLength(zombieQueue);
      }
    }

    method FreeFirstZombie(ghost st: State)
      requires Valid() && Apart() && Agrees(st) && st.zombieQueue != []
      modifies this, m.queues, m.pool
      ensures Valid() && Agrees(FreeResources(Unqueue(st, st.zombieQueue[0]), st.zombieQueue[0]))
      ensures m.queues == old(m.queues) && Waiting() == old(Waiting())
    {
      hide LinkPool.Valid, LinkPool.ValidBut, ControlBlocks.Valid, Lists, Waiting, Apart, SameQueues, Moved,
        Unqueue, FreeResources;
      var p := FirstOf(zombieQueue, st.zombieQueue, st);
      OnOneQueue(p, st);
      FreeIsMove(st, p);
      Requeue(p, freepcbs, false, st);
      SameListing(Moved(st, p, freepcbs, false), FreeResources(Unqueue(st, p), p));
      flags := flags[p := FREE];
    }

    // The run queue is turned round when the current process stays runnable, and its head is next.
    method ChooseNext(ghost st: State, runnable: bool) returns (next: int)
      requires Valid() && Apart() && Lists(st) && st.runQueue != []
      requires runnable == (st.flags[st.current] == RUNNABLE)
      modifies m.queues, m.pool
      ensures Valid() && Lists(Chosen(st)) && 0 <= next < MAX_PROCS && next == Chosen(st).current
      ensures m.queues == old(m.queues) && Waiting() == old(Waiting())
    {
      hide LinkPool.Valid, LinkPool.ValidBut, ControlBlocks.Valid, Lists, Apart, Waiting;
      if runnable {
        Turn(st);
        next := FirstOf(runQueue, Rotated(st.runQueue), st.(runQueue := Rotated(st.runQueue)));
      } else {
        next := FirstOf(runQueue, st.runQueue, st);
      }
      SameListing(st.(runQueue := Chosen(st).runQueue), Chosen(st));
    }

    lemma AgreesBeyond(st: State, st': State)
      requires Valid() && Agrees(st) && OnlyTables(st, st')
      ensures Agrees(st')
    {
    }

    lemma SameListing(st: State, st': State)
      requires Valid() && Lists(st) && SameQueues(st, st')
      ensures Lists(st')
    {
    }

    method Turn(ghost st: State)
      requires Valid() && Apart() && Lists(st) && st.runQueue != []
      modifies m.queues, m.pool
      ensures Valid() && Lists(st.(runQueue := Rotated(st.runQueue)))
      ensures m.queues == old(m.queues) && Waiting() == old(Waiting())
    {
      hide LinkPool.Valid, LinkPool.ValidBut, ControlBlocks.ValidOn, Waiting, Pids, Rotated;
      QueueLength(runQueue);
      TurnRunQueue();
    }

    // The scheduler: the head of the run queue is next, and the zombies go to the free queue one by one.
    method ProcessSchedule(ghost st: State)
      requires Valid() && Apart() && Agrees(st)
      modifies this, m.queues, m.pool
      ensures Valid() && Agrees(Schedule(st)) && m.queues == old(m.queues) && Waiting() == old(Waiting())
    {
      hide LinkPool.Valid, LinkPool.ValidBut, ControlBlocks.Valid, Lists, Waiting, Apart, Schedule, Drained, Rotated;
      Lengths(st);
      ScheduleIs(st);
      if runQueue.nitems == 0 {
        halted := true;
        SameListing(st, Halt(st));
        return;
      }
      currentPCB := ChooseNext(st, flags[currentPCB] == RUNNABLE);
      DrainZombies(Chosen(st));
    }

    // ---- The queues on which processes wait ----

    ghost predicate ForWaiting(q: Queue) { q !in Four() && q != m.freeLinks }

    // AQueueInit of the queue of a new semaphore, lock or condition.
    method Open(q: Queue, ghost st: State)
      requires Valid() && Agrees(st) && ForWaiting(q) && (q in m.queues ==> q.links == [])
      modifies m`queues, q
      ensures Valid() && Agrees(st) && m.queues == old(m.queues) + {q} && Waiting() == old(Waiting())[q := []]
    {
      hide LinkPool.Valid, LinkPool.ValidBut, ControlBlocks.ValidOn, Waiting;
      PoolIsValid();
      var code := m.Init(q);
      FourStand(this);
      StillLists(Listing(this, st, st));
      WaitingChanges(OneQueue(this, q));
    }

    lemma WaitingOn(q: Queue)
      requires m.Valid() && q in m.queues && ForWaiting(q)
      ensures q in Waiting() && Waiting()[q] == Items(q.links)
    {
    }

    // A link carrying process p goes to the end of queue q.
    method Join(q: Queue, p: Pid, ghost st: State)
      requires Valid() && Agrees(st) && ForWaiting(q) && q in m.queues && st.freeLinks > 0
      modifies m.queues, m.pool
      ensures Valid() && Agrees(TakeLink(st)) && m.queues == old(m.queues)
      ensures Waiting() == old(Waiting())[q := old(Waiting())[q] + [p]]
    {
      hide LinkPool.Valid, LinkPool.ValidBut, ControlBlocks.Valid, Lists, Waiting, Four, Items;
      PoolIsValid();
      LinksLeft(st);
      WaitingOn(q);
      var x := NewLink(p);
      Put(x, q, false);
      ItemsJoined(OneLink(q, x));
      OnlyOneChanged(Change(this, q, x, st, TakeLink(st)));
    }

    // The first link is taken off queue q; the answer is the process it carried.
    method Leave(q: Queue, ghost st: State) returns (p: int)
      requires Valid() && Agrees(st) && ForWaiting(q) && q in m.queues && q.links != []
      modifies m.queues, m.pool
      ensures Valid() && Agrees(GiveLink(st)) && m.queues == old(m.queues)
      ensures p == old(Waiting())[q][0] && Waiting() == old(Waiting())[q := old(Waiting())[q][1..]]
    {
      hide LinkPool.Valid, LinkPool.ValidBut, ControlBlocks.Valid, Lists, Waiting, Four, Items;
      PoolIsValid();
      LinksLeft(st);
      WaitingOn(q);
      ghost var x := q.links[0];
      p := FirstItem(q);
      RemoveFirst(q);
      ItemsLeft(q);
      OnlyOneChanged(Change(this, q, x, st, GiveLink(st)));
    }

    method FirstItem(q: Queue) returns (p: int)
      requires m.Valid() && q in m.queues && q.links != []
      ensures p == Items(q.links)[0]
    {
      Ends(q);
      p := q.first.item;
    }

    method RemoveFirst(q: Queue)
      requires m.Valid() && q in m.queues && q != m.freeLinks && q.links != []
      modifies m.queues, m.pool
      ensures m.Valid() && m.queues == old(m.queues)
      ensures q.links == old(q.links)[1..] && |m.freeLinks.links| == old(|m.freeLinks.links|) + 1
      ensures forall r :: r in m.queues && r != q && r != m.freeLinks ==>
        r.links == old(r.links) && old(q.links)[0] !in r.links
      ensures forall y :: y in m.pool && y != old(q.links)[0] ==> y.item == old(y.item) && y.queue == old(y.queue)
      ensures old(q.links)[0] !in q.links && old(q.links[0].queue) == q
    {
      hide LinkPool.Valid, LinkPool.ValidBut;
      Ends(q);
      Places(q);
      OnlyPlace(q.links, 0);
      DropFirst(q.links);
      m.EveryLinkHasOnePlace(q.first);
      var code, none := m.Remove(q.first);
    }

    lemma LinksLeft(st: State)
      requires Valid() && Lists(st)
      ensures |m.freeLinks.links| == st.freeLinks
    {
    }

    lemma OnOneQueue(p: Pid, st: State)
      requires Valid() && Lists(st)
      ensures OnSomeQueue(st, p) && st.freeLinks >= 0
    {
      hide LinkPool.Valid, LinkPool.ValidBut, HoldNoOthers, Pids;
      var q := l[p].queue;
      PlacesOfPids(q, FirstPids(MAX_PROCS), p);
      assert p in Pids(q.links);
    }
  }

  lemma ScheduleIs(st: State)
    ensures st.runQueue == [] ==> Schedule(st) == Halt(st) && SameQueues(st, Halt(st))
    ensures st.runQueue != [] ==> Schedule(st) == Drained(Chosen(st))
  {
  }

  predicate SameQueues(st: State, st': State) {
    && st'.freepcbs == st.freepcbs && st'.runQueue == st.runQueue && st'.waitQueue == st.waitQueue
    && st'.zombieQueue == st.zombieQueue && st'.freeLinks == st.freeLinks
  }

  // Nothing but semaphores, locks and conditions differs.
  predicate OnlyTables(st: State, st': State) {
    st' == st.(sems := st'.sems, locks := st'.locks, conds := st'.conds)
  }

  predicate SameFields(st: State, st': State) {
    && st'.flags == st.flags && st'.cont == st.cont && st'.current == st.current && st'.ret == st.ret
    && st'.complained == st.complained && st'.halted == st.halted
  }

  // The state in which the scheduler has chosen the next process.
  function Chosen(st: State): State
    requires st.runQueue != []
  {
    var q := if st.flags[st.current] == RUNNABLE then Rotated(st.runQueue) else st.runQueue;
    st.(runQueue := q, current := q[0])
  }

  // Link x of process p has been taken off its queue.
  datatype Taken = Taken(c: ControlBlocks, p: Pid, on: set<Pid>, x: Link)

  // The links left on the four queues are those that were there, but for x, and carry what they carried.
  ghost predicate Before(w: Taken)
    reads w.c, w.c.m, w.c.m.queues, w.c.m.pool
  {
    && w.c.ValidOn(w.on) && w.p in w.on && w.x == w.c.l[w.p]
    && (forall q :: q in w.c.Four() ==> w.c.InPlace(q, w.on, w.p))
  }

  twostate lemma DetachLeaves(w: Taken)
    requires old(Before(w)) && w.c.m.OthersRemain(w.x)
    ensures forall q :: q in w.c.Four() ==>
      q.links == if q == old(w.x.queue) then Without(old(q.links), w.x) else old(q.links)
    ensures forall q, y :: q in w.c.Four() && y in q.links ==>
      y in old(q.links) && y != w.x && y.item == old(y.item) && y.queue == old(y.queue)
  {
    hide LinkPool.Valid, LinkPool.ValidBut, Drop;
    var from := old(w.x.queue);
    DropMembers(old(from.links), IndexOf(old(from.links), w.x));
    forall q, y | q in w.c.Four() && y in q.links
      ensures y in old(q.links) && y != w.x && y.item == old(y.item) && y.queue == old(y.queue)
    {
      assert old(w.c.InPlace(q, w.on, w.p));
      if q == from { assert y in Drop(old(from.links), IndexOf(old(from.links), w.x)); }
    }
  }

  twostate lemma DetachKeepsLinks(w: Taken)
    requires old(Before(w)) && w.c.m.OthersRemain(w.x) && w.c.m.Valid() && w.c.l == old(w.c.l)[w.p := null]
    requires forall q, y :: q in w.c.Four() && y in q.links ==>
      y in old(q.links) && y != w.x && y.item == old(y.item) && y.queue == old(y.queue)
    ensures w.c.ValidOn(w.on - {w.p})
  {
    hide LinkPool.Valid, LinkPool.ValidBut;
    assert w.c.EachHasItsLink(w.on - {w.p});
    forall q | q in w.c.Four() ensures w.c.HoldNoOthers(w.on - {w.p}, q) {
      assert old(w.c.InPlace(q, w.on, w.p));
    }
  }

  twostate lemma DetachKeepsPids(w: Taken)
    requires old(Before(w)) && w.c.ValidOn(w.on - {w.p})
    requires forall q :: q in w.c.Four() ==>
      q.links == if q == old(w.x.queue) then Without(old(q.links), w.x) else old(q.links)
    requires forall q, y :: q in w.c.Four() && y in q.links ==> y.item == old(y.item)
    ensures forall q :: q in w.c.Four() ==> Pids(q.links) == Minus(old(Pids(q.links)), w.p)
  {
    hide LinkPool.Valid, LinkPool.ValidBut, Without, Minus;
    forall q | q in w.c.Four() ensures Pids(q.links) == Minus(old(Pids(q.links)), w.p) {
      assert old(w.c.InPlace(q, w.on, w.p));
      if q == old(w.x.queue) {
        PidsWithout(old(Pids(q.links)), old(q.links), w.x, w.p);
      } else {
        MinusAbsent(old(Pids(q.links)), w.p);
      }
    }
  }

  // A link x carrying process p has been put on queue `to`.
  datatype Given = Given(c: ControlBlocks, p: Pid, on: set<Pid>, x: Link, to: Queue, atFront: bool)

  twostate predicate Joined(w: Given)
    reads w.c, w.c.m, w.c.m.queues, w.c.m.pool
  {
    && old(w.c.ValidOn(w.on)) && w.p !in w.on && w.to in w.c.Four() && w.x in w.c.m.pool && w.x.item == w.p
    && w.c.l == old(w.c.l)[w.p := w.x] && w.x.queue == w.to && w.c.m.queues == old(w.c.m.queues)
    && w.c.Four() <= w.c.m.queues && w.c.m.freeLinks !in w.c.Four()
    && old(w.x.queue) == w.c.m.freeLinks
    && (forall q :: q in w.c.m.queues && q != w.c.m.freeLinks ==>
          w.x !in old(q.links)
          && q.links == if q != w.to then old(q.links)
                        else if w.atFront then [w.x] + old(q.links) else old(q.links) + [w.x])
    && (forall y :: y in w.c.m.pool && y != w.x ==> y.item == old(y.item) && y.queue == old(y.queue))
  }

  twostate lemma AttachKeepsLinks(w: Given)
    requires Joined(w) && w.c.m.Valid()
    ensures w.c.ValidOn(w.on + {w.p})
  {
    hide LinkPool.Valid, LinkPool.ValidBut;
    assert old(w.c.EachHasItsLink(w.on));
    assert forall r :: r in w.on ==> old(w.c.l[r]) != w.x && old(w.c.l[r].queue) in w.c.Four();
    assert w.c.EachHasItsLink(w.on + {w.p});
    forall q | q in w.c.Four() ensures w.c.HoldNoOthers(w.on + {w.p}, q) {
      assert old(w.c.HoldNoOthers(w.on, q));
    }
  }

  // The other queues hold what they held.
  twostate lemma WaitingStays(c: ControlBlocks)
    requires old(c.m.Valid()) && c.m.Valid() && c.m.queues == old(c.m.queues)
    requires forall q :: q in c.m.queues && q !in c.Four() && q != c.m.freeLinks ==>
      q.links == old(q.links) && forall x :: x in q.links ==> x.item == old(x.item)
    ensures c.Waiting() == old(c.Waiting())
  {
    hide LinkPool.Valid, LinkPool.ValidBut;
    forall q | q in c.m.queues && q !in c.Four() && q != c.m.freeLinks ensures Items(q.links) == old(Items(q.links)) {
      assert forall i :: 0 <= i < |q.links| ==> q.links[i] in q.links;
    }
  }

  twostate lemma DetachKeepsWaiting(w: Taken)
    requires old(Before(w)) && w.c.m.OthersRemain(w.x) && w.c.m.Valid()
    ensures w.c.Waiting() == old(w.c.Waiting())
  {
    hide LinkPool.Valid, LinkPool.ValidBut, ControlBlocks.Waiting, ControlBlocks.HoldNoOthers, ControlBlocks.InPlace;
    forall q | q in w.c.m.queues && q !in w.c.Four() && q != w.c.m.freeLinks
      ensures q.links == old(q.links) && forall x :: x in q.links ==> x.item == old(x.item)
    {
      w.c.Places(q);
      OldPlaces(OneQueue(w.c, q));
    }
    WaitingStays(w.c);
  }

  datatype OneQueue = OneQueue(c: ControlBlocks, q: Queue)

  twostate lemma OldPlaces(w: OneQueue)
    requires old(w.c.m.Valid()) && w.q in old(w.c.m.queues)
    ensures forall x :: x in old(w.q.links) ==> x in w.c.m.pool && old(x.queue) == w.q
  {
    assert old(w.q.WellFormed(w.c.m.pool));
  }

  // Work elsewhere leaves the four queues and their processes as they are.
  twostate lemma FourStand(c: ControlBlocks)
    requires old(c.Valid()) && c.m.Valid() && c.l == old(c.l) && old(c.m.queues) <= c.m.queues
    requires forall q :: q in c.Four() ==> q.links == old(q.links)
    requires forall x :: x in c.m.pool && old(x.queue) in c.Four() ==> x.item == old(x.item) && x.queue == old(x.queue)
    ensures c.Valid() && forall q :: q in c.Four() ==> Pids(q.links) == old(Pids(q.links))
  {
    hide LinkPool.Valid, LinkPool.ValidBut;
    var on := FirstPids(MAX_PROCS);
    assert old(c.EachHasItsLink(on));
    assert c.EachHasItsLink(on);
    forall q | q in c.Four() ensures c.HoldNoOthers(on, q) && Pids(q.links) == old(Pids(q.links)) {
      assert old(c.HoldNoOthers(on, q));
      OldPlaces(OneQueue(c, q));
      SamePids(q.links);
    }
  }

  datatype Listing = Listing(c: ControlBlocks, st: State, st': State)

  twostate lemma StillLists(w: Listing)
    requires old(w.c.Valid()) && old(w.c.Lists(w.st)) && w.c.Valid()
    requires forall q :: q in w.c.Four() ==> Pids(q.links) == old(Pids(q.links))
    requires w.st'.freepcbs == w.st.freepcbs && w.st'.runQueue == w.st.runQueue && w.st'.waitQueue == w.st.waitQueue
    requires w.st'.zombieQueue == w.st.zombieQueue && w.st'.freeLinks == |w.c.m.freeLinks.links|
    ensures w.c.Lists(w.st')
  {
    hide LinkPool.Valid, LinkPool.ValidBut, ControlBlocks.ValidOn, Pids;
  }

  // Work by which link x joins or leaves queue q, on which processes wait, and the free list changes.
  datatype Change = Change(c: ControlBlocks, q: Queue, x: Link, st: State, st': State)

  twostate lemma OnlyOneChanged(w: Change)
    requires old(w.c.Valid()) && old(w.c.Lists(w.st)) && w.c.m.Valid() && w.c.l == old(w.c.l)
    requires w.c.m.queues == old(w.c.m.queues) && w.q in w.c.m.queues && w.c.ForWaiting(w.q)
    requires old(w.x.queue) == w.q || old(w.x.queue) == w.c.m.freeLinks
    requires forall r :: r in w.c.m.queues && r != w.q && r != w.c.m.freeLinks ==>
      r.links == old(r.links) && w.x !in r.links
    requires forall y :: y in w.c.m.pool && y != w.x ==> y.item == old(y.item) && y.queue == old(y.queue)
    requires SameQueues(w.st.(freeLinks := |w.c.m.freeLinks.links|), w.st')
    ensures w.c.Valid() && w.c.Lists(w.st') && w.c.Waiting() == old(w.c.Waiting())[w.q := Items(w.q.links)]
  {
    hide LinkPool.Valid, LinkPool.ValidBut, ControlBlocks.EachHasItsLink, ControlBlocks.HoldNoOthers,
      ControlBlocks.Lists, ControlBlocks.Waiting, Pids, Items;
    FourStand(w.c);
    StillLists(Listing(w.c, w.st, w.st'));
    forall r | r in w.c.m.queues && r != w.q && w.c.ForWaiting(r)
      ensures r.links == old(r.links) && forall y :: y in r.links ==> y.item == old(y.item)
    {
      w.c.Places(r);
    }
    WaitingChanges(OneQueue(w.c, w.q));
  }

  datatype OneLink = OneLink(q: Queue, x: Link)

  twostate lemma ItemsJoined(w: OneLink)
    requires w.q.links == old(w.q.links) + [w.x]
    requires forall y :: y in old(w.q.links) ==> y.item == old(y.item)
    ensures Items(w.q.links) == old(Items(w.q.links)) + [w.x.item]
  {
    assert forall i :: 0 <= i < |old(w.q.links)| ==> old(w.q.links)[i] in old(w.q.links);
  }

  twostate lemma ItemsLeft(q: Queue)
    requires old(q.links) != [] && q.links == old(q.links)[1..]
    requires forall y :: y in q.links ==> y.item == old(y.item)
    ensures Items(q.links) == old(Items(q.links))[1..]
  {
    assert forall i :: 0 <= i < |q.links| ==> q.links[i] in q.links;
  }

  // Only queue w.q changes among those on which processes wait.
  twostate lemma WaitingChanges(w: OneQueue)
    requires old(w.c.m.Valid()) && w.c.m.Valid() && w.c.m.queues == old(w.c.m.queues) + {w.q} && w.c.ForWaiting(w.q)
    requires forall q :: q in w.c.m.queues && q != w.q && w.c.ForWaiting(q) ==>
      q.links == old(q.links) && forall x :: x in q.links ==> x.item == old(x.item)
    ensures w.c.Waiting() == old(w.c.Waiting())[w.q := Items(w.q.links)]
  {
    hide LinkPool.Valid, LinkPool.ValidBut;
    forall q | q in w.c.m.queues && q != w.q && w.c.ForWaiting(q) ensures Items(q.links) == old(Items(q.links)) {
      assert forall i :: 0 <= i < |q.links| ==> q.links[i] in q.links;
    }
  }

  twostate lemma AttachKeepsWaiting(w: Given)
    requires Joined(w) && w.c.m.Valid()
    ensures w.c.Waiting() == old(w.c.Waiting())
  {
    hide LinkPool.Valid, LinkPool.ValidBut, ControlBlocks.Waiting, ControlBlocks.HoldNoOthers;
    forall q | q in w.c.m.queues && q !in w.c.Four() && q != w.c.m.freeLinks
      ensures q.links == old(q.links) && forall x :: x in q.links ==> x.item == old(x.item)
    {
      w.c.Places(q);
    }
    WaitingStays(w.c);
  }

  lemma PidsOfConcat(a: seq<Link>, b: seq<Link>)
    ensures Pids(a + b) == Pids(a) + Pids(b)
  {
  }

  twostate lemma SamePids(links: seq<Link>)
    requires forall y :: y in links ==> y.item == old(y.item)
    ensures Pids(links) == old(Pids(links))
  {
    assert forall i :: 0 <= i < |links| ==> links[i] in links;
  }

  twostate lemma OthersCarryOn(w: Given)
    requires Joined(w)
    ensures forall q, y :: q in w.c.Four() && y in old(q.links) ==> y.item == old(y.item)
  {
    hide LinkPool.Valid, LinkPool.ValidBut;
    forall q, y | q in w.c.Four() && y in old(q.links) ensures y.item == old(y.item) {
      assert old(w.c.HoldNoOthers(w.on, q));
    }
  }

  twostate lemma AttachKeepsPids(w: Given)
    requires Joined(w)
    ensures Pids(w.to.links) ==
      if w.atFront then [w.p] + old(Pids(w.to.links)) else old(Pids(w.to.links)) + [w.p]
    ensures forall q :: q in w.c.Four() && q != w.to ==> Pids(q.links) == old(Pids(q.links))
  {
    hide LinkPool.Valid, LinkPool.ValidBut, ControlBlocks.ValidOn, Pids;
    OthersCarryOn(w);
    forall q | q in w.c.Four() ensures Pids(old(q.links)) == old(Pids(q.links)) { SamePids(old(q.links)); }
    var s := old(w.to.links);
    assert Pids([w.x]) == [w.p];
    PidsOfConcat([w.x], s);
    PidsOfConcat(s, [w.x]);
  }

  // The links s of the run queue have been turned round.
  datatype Turned = Turned(c: ControlBlocks, s: seq<Link>)

  twostate predicate TurnedRound(w: Turned)
    reads w.c, w.c.m, w.c.m.queues, w.c.m.pool
  {
    && old(w.c.Valid()) && w.c.m.Valid() && w.c.l == old(w.c.l) && w.s != []
    && w.c.runQueue in w.c.m.queues && w.c.m.freeLinks in w.c.m.queues
    && w.s == old(w.c.runQueue.links) && w.c.runQueue.links == w.s[1..] + [w.s[0]]
    && w.c.m.OthersUntouched(w.c.runQueue, null)
  }

  twostate lemma TurnCarriesOn(w: Turned)
    requires TurnedRound(w)
    ensures forall q, y :: q in w.c.Four() && y in q.links ==> y in old(q.links) && y.item == old(y.item)
    ensures forall q :: q in w.c.Four() && q != w.c.runQueue ==> q.links == old(q.links)
    ensures |w.c.m.freeLinks.links| == old(|w.c.m.freeLinks.links|)
  {
    hide LinkPool.Valid, LinkPool.ValidBut, ControlBlocks.EachHasItsLink;
    forall q, y | q in w.c.Four() && y in q.links ensures y in old(q.links) && y.item == old(y.item) {
      assert old(w.c.HoldNoOthers(FirstPids(MAX_PROCS), q));
    }
  }

  twostate lemma TurnKeepsLinks(w: Turned)
    requires TurnedRound(w)
    ensures w.c.Valid()
  {
    hide LinkPool.Valid, LinkPool.ValidBut;
    var on := FirstPids(MAX_PROCS);
    TurnCarriesOn(w);
    assert old(w.c.EachHasItsLink(on));
    assert w.c.EachHasItsLink(on);
    forall q | q in w.c.Four() ensures w.c.HoldNoOthers(on, q) { assert old(w.c.HoldNoOthers(on, q)); }
  }

  twostate lemma TurnedPids(w: Turned)
    requires TurnedRound(w)
    requires forall y :: y in w.c.runQueue.links ==> y.item == old(y.item)
    ensures Pids(w.c.runQueue.links) == Rotated(old(Pids(w.s)))
  {
    hide LinkPool.Valid, LinkPool.ValidBut, ControlBlocks.ValidOn, LinkPool.OthersUntouched;
    var links := w.c.runQueue.links;
    assert forall i :: 0 <= i < |links| ==> links[i] in links;
  }

  twostate lemma TurnKeepsWaiting(w: Turned)
    requires TurnedRound(w)
    ensures w.c.Waiting() == old(w.c.Waiting())
  {
    hide LinkPool.Valid, LinkPool.ValidBut, ControlBlocks.Waiting;
    forall q | q in w.c.m.queues && q !in w.c.Four() && q != w.c.m.freeLinks
      ensures q.links == old(q.links) && forall x :: x in q.links ==> x.item == old(x.item)
    {
      w.c.Places(q);
    }
    WaitingStays(w.c);
  }

  twostate lemma TurnKeeps(w: Turned)
    requires TurnedRound(w)
    ensures w.c.Valid() && Pids(w.c.runQueue.links) == Rotated(old(Pids(w.s)))
    ensures forall q :: q in w.c.Four() && q != w.c.runQueue ==> Pids(q.links) == old(Pids(q.links))
    ensures |w.c.m.freeLinks.links| == old(|w.c.m.freeLinks.links|)
    ensures w.c.Waiting() == old(w.c.Waiting())
  {
    hide TurnedRound, ControlBlocks.Valid, ControlBlocks.Waiting, Pids, Rotated;
    TurnKeepsLinks(w);
    TurnCarriesOn(w);
    TurnedPids(w);
    TurnKeepsWaiting(w);
    forall q | q in w.c.Four() && q != w.c.runQueue ensures Pids(q.links) == old(Pids(q.links)) {
      assert q.links == old(q.links);
      SamePids(old(q.links));
    }
  }
}
