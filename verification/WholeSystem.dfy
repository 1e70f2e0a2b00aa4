/** The scheduler, the frames of memory and the saved contexts together. Each has its own theory and its own runs; here
    one run of the whole machine drives all three. What each theory asks of its events is proved of those that the
    kernel causes: that only a free control block gets pages, that a new system stack lies apart from all others, that
    the processor is given only to a process with a saved context, and that user programs cannot reach any of these. */
module WholeSystem {
  import opened KernelState
  import opened KernelInvariant
  import opened KernelRuns
  import opened KernelFairness
  import Frames
  import Spaces = AddressSpaces
  import Contexts
  import Ctx = ContextRuns

  const PAGE_WORDS: nat := 1024

  // The kernel's state, memory with its page tables, the processor with its saved contexts, and the frame of each
  // process's system stack.
  datatype Whole = Whole(st: State, s: Spaces.Session, sys: Ctx.Sys, stack: map<nat, nat>)

  ghost function Live(st: State): set<nat> {
    set p: nat | p < MAX_PROCS && st.flags[p] != FREE
  }

  // The words below the saved-frame place at the top of a stack frame.
  function StackArea(f: nat): Ctx.Area {
    Ctx.Area(f * PAGE_WORDS, f * PAGE_WORDS + PAGE_WORDS - 1)
  }

  // ---- What the three have in common ----

  ghost predicate Memory(st: State, s: Spaces.Session) {
    Spaces.Sound(s) && Spaces.Counted(s) && s.live == Live(st)
  }

  ghost predicate Stacked(st: State, s: Spaces.Session, stack: map<nat, nat>) {
    && (forall p: nat :: p in Live(st) ==> p in stack && stack[p] in s.stacks)
    && (forall p: nat, q: nat :: p in Live(st) && q in Live(st) && p != q ==> stack[p] != stack[q])
  }

  ghost predicate Saved(st: State, sys: Ctx.Sys, stack: map<nat, nat>) {
    && Ctx.Inv(sys) && sys.w.live == Live(st) && sys.m.current == st.current
    && |sys.m.saved| == MAX_PROCS && Frames.FRAMES * PAGE_WORDS <= |sys.m.mem|
    && (forall p: nat :: p in Live(st) && p in stack ==> sys.w.areas[p] == StackArea(stack[p]))
  }

  ghost predicate Joint(w: Whole) {
    && Inv(w.st) && !w.st.halted
    && Memory(w.st, w.s) && Stacked(w.st, w.s, w.stack) && Saved(w.st, w.sys, w.stack)
  }

  // ---- One step of the kernel: what it means for control blocks ----

  lemma LiveAfter(st: State, t: Trap)
    requires Inv(st) && !st.halted && Allowed(st, t) && !Step(st, t).halted
    ensures Live(Step(st, t)) ==
      if Creates(st, t) then Live(st) + {st.freepcbs[0]}
      else if Exits(st, t) then Live(st) - {st.current}
      else Live(st)
  {
    hide Inv, Step, Allowed, Creates, Exits;
    StepGoesOn(st, t);
    CreatesOrExits(st, t);
  }

  lemma CreatesOrExits(st: State, t: Trap)
    ensures !(Creates(st, t) && Exits(st, t)) && (Creates(st, t) ==> st.freepcbs != [])
  {
  }

  lemma TakenIsFree(st: State, t: Trap)
    requires Inv(st) && !st.halted && st.freepcbs != []
    ensures st.freepcbs[0] !in Live(st)
  {
    assert st.freepcbs[0] in st.freepcbs;
  }

  lemma CurrentIsLive(st: State)
    requires Inv(st) && !st.halted
    ensures st.current in Live(st) && st.flags[st.current] == RUNNABLE
  {
    CurrentRuns(st);
  }

  // Without a call of the scheduler the current process stays.
  lemma StaysCurrent(st: State, t: Trap)
    requires Inv(st) && !st.halted && Allowed(st, t) && !Step(st, t).halted && !Reschedules(st, t)
    ensures Step(st, t).current == st.current
  {
    hide Inv, Step, Allowed, Reschedules;
    StepGoesOn(st, t);
    StepKeeps(st, t);
    RunQueueStands(st);
    RunQueueStands(Step(st, t));
  }

  // ---- What it means for memory ----

  // A process that is created gets its pages, one whose program cannot be read gives them back at once, and one that
  // exits gives them back when the scheduler drains it.
  function MemoryEvents(st: State, t: Trap): seq<Spaces.Event> {
    if st.halted || st.cont[st.current] != User then []
    else match t
      case Create(found) =>
        if st.freepcbs == [] then []
        else if found then [Spaces.Fork(st.freepcbs[0])]
        else [Spaces.Fork(st.freepcbs[0]), Spaces.End(st.freepcbs[0])]
      case Exit => [Spaces.End(st.current)]
      case _ => []
  }

  // There are frames for a process, should one be created.
  ghost predicate Room(s: Spaces.Session, t: Trap)
    requires Spaces.Shaped(s.memory)
  {
    t.Create? ==> Spaces.Spare(s.memory.bits) >= 8
  }

  lemma OneEvent(s: Spaces.Session, e: Spaces.Event)
    requires Spaces.Sound(s) && Spaces.Counted(s) && Spaces.Possible(s, e)
    ensures Spaces.Allowed(s, [e]) && Spaces.Run(s, [e]) == Spaces.After(s, e)
  {
    hide Spaces.Sound, Spaces.Counted, Spaces.Possible, Spaces.After;
    Spaces.StepKeeps(s, e);
    assert [e][1..] == [];
  }

  lemma TwoEvents(s: Spaces.Session, e: Spaces.Event, f: Spaces.Event)
    requires Spaces.Sound(s) && Spaces.Counted(s) && Spaces.Possible(s, e)
    requires Spaces.Sound(Spaces.After(s, e)) && Spaces.Possible(Spaces.After(s, e), f)
    ensures Spaces.Allowed(s, [e, f]) && Spaces.Run(s, [e, f]) == Spaces.After(Spaces.After(s, e), f)
  {
    hide Spaces.Sound, Spaces.Counted, Spaces.Possible, Spaces.After;
    Spaces.StepKeeps(s, e);
    OneEvent(Spaces.After(s, e), f);
    assert [e, f][1..] == [f];
  }

  lemma HasMap(s: Spaces.Session)
    requires Spaces.Sound(s)
    ensures Spaces.Shaped(s.memory) && Frames.IsMap(s.memory.bits)
  {
  }

  // The events are possible, and afterwards the control blocks with pages are those in use.
  lemma MemoryFollows(w: Whole, t: Trap)
    requires Inv(w.st) && !w.st.halted && Allowed(w.st, t) && !Step(w.st, t).halted && Memory(w.st, w.s) && Room(w.s, t)
    ensures Spaces.Allowed(w.s, MemoryEvents(w.st, t))
    ensures var s' := Spaces.Run(w.s, MemoryEvents(w.st, t));
            && s'.live == Live(Step(w.st, t)) && w.s.stacks <= s'.stacks
            && (Creates(w.st, t) ==> var f := Spaces.FirstFree(w.s.memory.bits);
                                     f in s'.stacks && f !in w.s.stacks && f < Frames.FRAMES)
  {
    hide Inv, Step, Allowed, Spaces.Sound, Spaces.Counted, Spaces.Forked, Spaces.Freed, Spaces.FirstFree;
    var st, s := w.st, w.s;
    LiveAfter(st, t);
    CurrentIsLive(st);
    if st.cont[st.current] == User && t.Create? && st.freepcbs != [] {
      var p := st.freepcbs[0];
      TakenIsFree(st, t);
      Spaces.StepKeeps(s, Spaces.Fork(p));
      OneEvent(s, Spaces.Fork(p));
      if !t.found { TwoEvents(s, Spaces.Fork(p), Spaces.End(p)); }
      Spaces.StackIsNew(s, p);
      HasMap(s);
      Spaces.SpareMeansFree(s.memory.bits);
    } else if st.cont[st.current] == User && t == Exit {
      OneEvent(s, Spaces.End(st.current));
    }
  }

  // ---- What it means for saved contexts ----

  // A handler runs on the system stack of the process it was entered from, whose context is saved there.
  ghost predicate InHandler(sys: Ctx.Sys)
    requires Ctx.Inv(sys)
  {
    && Contexts.SysMode(sys.m.core.status) && sys.m.running == sys.m.current
    && sys.w.stacks[sys.m.current] != []
  }

  // That is how a trap leaves it, from wherever it was taken.
  lemma TrapEntersHandler(s: Ctx.Sys, cause: nat, vector: nat)
    requires Ctx.Inv(s) && Ctx.Allowed(s, Ctx.Trap(cause, vector))
    ensures var t := Ctx.Next(s, Ctx.Trap(cause, vector)); Ctx.Inv(t) && InHandler(t)
  {
    hide Ctx.Chain, Ctx.FrameAt;
    Ctx.NextKeeps(s, Ctx.Trap(cause, vector));
    Ctx.TrapCanSave(s, cause, vector);
  }

  // Memory `mem` with a first frame laid out at the top of a new system stack, where it differs from the old.
  ghost predicate LaidOut(was: seq<nat>, mem: seq<nat>, f: nat) {
    var area := StackArea(f);
    && |mem| == |was| && area.hi <= |mem|
    && (forall k :: 0 <= k < |mem| && !(area.lo <= k < area.hi) ==> mem[k] == was[k])
    && mem[area.hi - Contexts.FRAME + Contexts.PREVIOUS] == 0
    && !Contexts.SysMode(mem[area.hi - Contexts.FRAME + 75])
  }

  function ContextEvents(st: State, t: Trap, f: nat, mem: seq<nat>): seq<Ctx.Event>
    requires Allowed(st, t)
  {
    if Creates(st, t) then [Ctx.Create(st.freepcbs[0], StackArea(f), mem)]
    else if Exits(st, t) then [Ctx.Switch(Step(st, t).current), Ctx.Free(st.current)]
    else if Reschedules(st, t) then [Ctx.Switch(Step(st, t).current)]
    else []
  }

  lemma OneMove(s: Ctx.Sys, e: Ctx.Event)
    requires Ctx.Inv(s) && Ctx.Allowed(s, e)
    ensures Ctx.AllAllowed(s, [e]) && Ctx.Run(s, [e]) == Ctx.Next(s, e)
  {
    hide Ctx.Inv, Ctx.Allowed, Ctx.Next;
    Ctx.NextKeeps(s, e);
    assert [e][1..] == [];
  }

  lemma TwoMoves(s: Ctx.Sys, e: Ctx.Event, f: Ctx.Event)
    requires Ctx.Inv(s) && Ctx.Allowed(s, e)
    requires Ctx.Inv(Ctx.Next(s, e)) && Ctx.Allowed(Ctx.Next(s, e), f)
    ensures Ctx.AllAllowed(s, [e, f]) && Ctx.Run(s, [e, f]) == Ctx.Next(Ctx.Next(s, e), f)
  {
    hide Ctx.Inv, Ctx.Allowed, Ctx.Next;
    OneMove(Ctx.Next(s, e), f);
    assert [e, f][1..] == [f];
  }

  // The next process has a saved context, whoever it is.
  lemma CanSwitch(w: Whole, q: nat)
    requires Saved(w.st, w.sys, w.stack) && InHandler(w.sys) && q in Live(w.st)
    ensures Ctx.Allowed(w.sys, Ctx.Switch(q))
  {
  }

  lemma NextIsLive(st: State, t: Trap)
    requires Inv(st) && !st.halted && Allowed(st, t) && !Step(st, t).halted && !Creates(st, t)
    ensures Step(st, t).current in Live(st) && (Exits(st, t) ==> Step(st, t).current != st.current)
  {
    hide Inv, Step, Allowed, Creates, Exits;
    StepKeeps(st, t);
    LiveAfter(st, t);
    CurrentIsLive(Step(st, t));
  }

  lemma CreatesInPlace(st: State, t: Trap)
    requires Creates(st, t)
    ensures !Reschedules(st, t) && st.freepcbs != []
  {
  }

  lemma ExitReschedules(st: State, t: Trap)
    requires Exits(st, t)
    ensures Reschedules(st, t)
  {
  }

  // A new system stack lies apart from those in use.
  lemma NewStackIsApart(w: Whole, t: Trap, f: nat, mem: seq<nat>)
    requires Inv(w.st) && !w.st.halted && Creates(w.st, t)
    requires Stacked(w.st, w.s, w.stack) && Saved(w.st, w.sys, w.stack) && InHandler(w.sys)
    requires f !in w.s.stacks && f < Frames.FRAMES && LaidOut(w.sys.m.mem, mem, f)
    ensures Ctx.Allowed(w.sys, Ctx.Create(w.st.freepcbs[0], StackArea(f), mem))
  {
    hide QueuesOk, BlockedOk, SynchOk;
    TakenIsFree(w.st, t);
    forall q: nat | q in Live(w.st) ensures Ctx.Apart(StackArea(f), w.sys.w.areas[q]) {
      assert w.stack[q] in w.s.stacks;
      StacksAreApart(f, w.stack[q]);
    }
  }

  lemma StacksAreApart(f: nat, g: nat)
    requires f != g
    ensures Ctx.Apart(StackArea(f), StackArea(g))
  {
  }

  // Which stack frames belong to whom afterwards.
  ghost function StacksAfter(w: Whole, t: Trap): map<nat, nat>
    requires Spaces.Shaped(w.s.memory)
  {
    if Creates(w.st, t) then w.stack[w.st.freepcbs[0] := Spaces.FirstFree(w.s.memory.bits)] else w.stack
  }

  lemma CreateFollows(w: Whole, t: Trap, mem: seq<nat>)
    requires Inv(w.st) && !w.st.halted && Allowed(w.st, t) && !Step(w.st, t).halted && Creates(w.st, t)
    requires Spaces.Shaped(w.s.memory) && Stacked(w.st, w.s, w.stack) && Saved(w.st, w.sys, w.stack) && InHandler(w.sys)
    requires var f := Spaces.FirstFree(w.s.memory.bits);
             f !in w.s.stacks && f < Frames.FRAMES && LaidOut(w.sys.m.mem, mem, f)
    ensures var es := ContextEvents(w.st, t, Spaces.FirstFree(w.s.memory.bits), mem);
            Ctx.AllAllowed(w.sys, es) && Saved(Step(w.st, t), Ctx.Run(w.sys, es), StacksAfter(w, t))
  {
    hide Inv, Step, Allowed, Creates, Ctx.Inv, Spaces.FirstFree, LaidOut, Ctx.FrameAt;
    var f := Spaces.FirstFree(w.s.memory.bits);
    CreatesInPlace(w.st, t);
    var e := Ctx.Create(w.st.freepcbs[0], StackArea(f), mem);
    NewStackIsApart(w, t, f, mem);
    StaysCurrent(w.st, t);
    LiveAfter(w.st, t);
    TakenIsFree(w.st, t);
    Ctx.NextKeeps(w.sys, e);
    OneMove(w.sys, e);
    ShapeOf(w.sys);
  }

  lemma ShapeOf(sys: Ctx.Sys)
    requires Ctx.Inv(sys)
    ensures Ctx.Shaped(sys)
  {
  }

  lemma SwitchFollows(w: Whole, t: Trap, mem: seq<nat>)
    requires Inv(w.st) && !w.st.halted && Allowed(w.st, t) && !Step(w.st, t).halted && !Creates(w.st, t)
    requires Spaces.Shaped(w.s.memory) && Saved(w.st, w.sys, w.stack) && InHandler(w.sys)
    ensures var es := ContextEvents(w.st, t, Spaces.FirstFree(w.s.memory.bits), mem);
            Ctx.AllAllowed(w.sys, es) && Saved(Step(w.st, t), Ctx.Run(w.sys, es), StacksAfter(w, t))
  {
    hide Inv, Step, Allowed, Creates, Exits, Reschedules, Ctx.Inv;
    var st' := Step(w.st, t);
    var e := Ctx.Switch(st'.current);
    LiveAfter(w.st, t);
    NextIsLive(w.st, t);
    CurrentIsLive(w.st);
    if Exits(w.st, t) {
      ExitReschedules(w.st, t);
      LiveBefore(w.st, t);
      CanSwitch(w, st'.current);
      Ctx.NextKeeps(w.sys, e);
      var sys1 := Ctx.Next(w.sys, e);
      Ctx.NextKeeps(sys1, Ctx.Free(w.st.current));
      TwoMoves(w.sys, e, Ctx.Free(w.st.current));
    } else if Reschedules(w.st, t) {
      CanSwitch(w, st'.current);
      Ctx.NextKeeps(w.sys, e);
      OneMove(w.sys, e);
    } else {
      StaysCurrent(w.st, t);
    }
  }

  lemma LiveBefore(st: State, t: Trap)
    requires Inv(st) && !st.halted && Allowed(st, t) && !Step(st, t).halted && !Creates(st, t)
    ensures Step(st, t).current in Live(st)
  {
    hide Inv, Step, Allowed, Creates, Exits;
    NextIsLive(st, t);
    LiveAfter(st, t);
  }

  // ---- One step of the whole ----

  ghost predicate CanStep(w: Whole, t: Trap, mem: seq<nat>)
    requires Joint(w)
  {
    && Allowed(w.st, t) && !Step(w.st, t).halted && Room(w.s, t) && InHandler(w.sys)
    && (Creates(w.st, t) ==> LaidOut(w.sys.m.mem, mem, Spaces.FirstFree(w.s.memory.bits)))
  }

  lemma ContextsFollow(w: Whole, t: Trap, mem: seq<nat>)
    requires Joint(w) && CanStep(w, t, mem)
    ensures var es := ContextEvents(w.st, t, Spaces.FirstFree(w.s.memory.bits), mem);
            Ctx.AllAllowed(w.sys, es) && Saved(Step(w.st, t), Ctx.Run(w.sys, es), StacksAfter(w, t))
  {
    hide Inv, Step, Allowed, Creates, Ctx.Inv, Spaces.Sound, Spaces.Counted, Spaces.FirstFree, LaidOut, Stacked, Saved,
      InHandler, Room;
    HasMap(w.s);
    MemoryFollows(w, t);
    if Creates(w.st, t) { CreateFollows(w, t, mem); } else { SwitchFollows(w, t, mem); }
  }

  ghost function KernelStep(w: Whole, t: Trap, mem: seq<nat>): Whole
    requires Joint(w) && CanStep(w, t, mem)
  {
    MemoryFollows(w, t);
    ContextsFollow(w, t, mem);
    Whole(Step(w.st, t), Spaces.Run(w.s, MemoryEvents(w.st, t)),
          Ctx.Run(w.sys, ContextEvents(w.st, t, Spaces.FirstFree(w.s.memory.bits), mem)), StacksAfter(w, t))
  }

  lemma StacksFollow(w: Whole, t: Trap)
    requires Joint(w) && Allowed(w.st, t) && !Step(w.st, t).halted && Room(w.s, t)
    ensures Spaces.Allowed(w.s, MemoryEvents(w.st, t))
    ensures Stacked(Step(w.st, t), Spaces.Run(w.s, MemoryEvents(w.st, t)), StacksAfter(w, t))
  {
    hide Inv, Step, Allowed, Creates, Saved, Spaces.Sound, Spaces.Counted, Spaces.FirstFree, MemoryEvents;
    MemoryFollows(w, t);
    LiveAfter(w.st, t);
    CreatesOrExits(w.st, t);
  }

  lemma KernelStepKeeps(w: Whole, t: Trap, mem: seq<nat>)
    requires Joint(w) && CanStep(w, t, mem)
    ensures Joint(KernelStep(w, t, mem))
  {
    hide Inv, Step, Allowed, Creates, Ctx.Inv, Spaces.Sound, Spaces.Counted, Spaces.FirstFree, Stacked, Saved,
      Room, InHandler, LaidOut;
    StepKeeps(w.st, t);
    MemoryFollows(w, t);
    ContextsFollow(w, t, mem);
    StacksFollow(w, t);
  }

  // ---- Code in between ----

  // Memory is written only in frames that page tables of processes name: what user programs can do, and the kernel
  // when it copies to them.
  ghost predicate WritesPagesOnly(w: Whole, mem: seq<nat>)
    requires Spaces.Shaped(w.s.memory)
  {
    && |mem| == |w.sys.m.mem|
    && forall k: nat :: k < |mem| && mem[k] != w.sys.m.mem[k] ==> Spaces.Owned(w.s, k / PAGE_WORDS)
  }

  lemma InStackFrame(f: nat, k: nat)
    requires StackArea(f).lo <= k < StackArea(f).hi
    ensures k / PAGE_WORDS == f
  {
  }

  /** Such writes reach no saved context, of whichever process: page frames and system stacks never coincide. So a user
      program meets what the theory of contexts asks of the code between traps. */
  lemma PagesHoldNoContexts(w: Whole, core: Contexts.Core, mem: seq<nat>)
    requires Joint(w) && WritesPagesOnly(w, mem) && Contexts.IsCore(core)
    requires Contexts.SysMode(core.status) == Contexts.SysMode(w.sys.m.core.status)
    ensures Ctx.Allowed(w.sys, Ctx.Compute(core, mem))
  {
    hide Inv, Live, Spaces.Owned, Ctx.Chain, Ctx.Untouched;
    var sys := w.sys;
    forall p: nat | p in sys.w.live ensures Ctx.UntouchedFrames(sys, mem, p) {
      assert Ctx.ChainOf(sys, p) && sys.w.areas[p] == StackArea(w.stack[p]) && w.stack[p] in w.s.stacks;
      forall k | sys.w.areas[p].lo <= k < sys.w.areas[p].hi && k < |sys.m.mem|
        ensures mem[k] == sys.m.mem[k]
      {
        InStackFrame(w.stack[p], k);
      }
      Ctx.OutsideIsUntouched(sys.m.mem, mem, sys.m.saved[p], sys.w.areas[p].lo, sys.w.areas[p].hi, sys.w.stacks[p]);
    }
  }

  // ---- Runs of the whole ----

  datatype Move =
    | Kernel(t: Trap, mem: seq<nat>)            // a step of the kernel; mem holds a new process's first frame
    | Pages(core: Contexts.Core, mem: seq<nat>) // code that writes nothing but pages of processes
    | Local(e: Ctx.Event)                       // other code, traps, results, returns
    | Touch(pcb: nat, page: nat, marks: nat)    // the processor sets flag bits in a page table

  predicate IsLocal(e: Ctx.Event) { e.Compute? || e.Trap? || e.SetResult? || e.Return? }

  ghost predicate CanMove(w: Whole, mv: Move)
    requires Joint(w)
  {
    match mv
    case Kernel(t, mem) => CanStep(w, t, mem)
    case Pages(core, mem) =>
      && WritesPagesOnly(w, mem) && Contexts.IsCore(core)
      && Contexts.SysMode(core.status) == Contexts.SysMode(w.sys.m.core.status)
    case Local(e) => IsLocal(e) && Ctx.Allowed(w.sys, e)
    case Touch(p, i, marks) => Spaces.Possible(w.s, Spaces.Touch(p, i, marks))
  }

  ghost function Moved(w: Whole, mv: Move): Whole
    requires Joint(w) && CanMove(w, mv)
  {
    match mv
    case Kernel(t, mem) => KernelStep(w, t, mem)
    case Pages(core, mem) => PagesHoldNoContexts(w, core, mem); w.(sys := Ctx.Next(w.sys, Ctx.Compute(core, mem)))
    case Local(e) => w.(sys := Ctx.Next(w.sys, e))
    case Touch(p, i, marks) => w.(s := Spaces.After(w.s, Spaces.Touch(p, i, marks)))
  }

  lemma LocalKeeps(w: Whole, e: Ctx.Event)
    requires Joint(w) && IsLocal(e) && Ctx.Allowed(w.sys, e)
    ensures Joint(w.(sys := Ctx.Next(w.sys, e)))
  {
    hide Inv, Memory, Stacked, Live, Ctx.Inv, Ctx.Next, Ctx.Allowed;
    Ctx.NextKeeps(w.sys, e);
    LocalStays(w.sys, e);
  }

  lemma LocalStays(s: Ctx.Sys, e: Ctx.Event)
    requires Ctx.Inv(s) && IsLocal(e) && Ctx.Allowed(s, e)
    ensures var t := Ctx.Next(s, e);
            && t.w.live == s.w.live && t.w.areas == s.w.areas && t.m.current == s.m.current
            && |t.m.saved| == |s.m.saved| && |t.m.mem| == |s.m.mem|
  {
    hide Ctx.Chain, Ctx.FrameAt, Ctx.UntouchedFrames;
    match e
    case Trap(cause, vector) =>
      Ctx.TrapCanSave(s, cause, vector);
      assert |Contexts.Saved(s.m, cause, vector).mem| == |s.m.mem|;
    case SetResult(p, r) =>
      assert Ctx.ChainOf(s, p);
      Ctx.ChainBounds(s, p);
    case Return =>
    case Compute(_, _) =>
  }

  lemma TouchKeeps(w: Whole, p: nat, i: nat, marks: nat)
    requires Joint(w) && Spaces.Possible(w.s, Spaces.Touch(p, i, marks))
    ensures Joint(w.(s := Spaces.After(w.s, Spaces.Touch(p, i, marks))))
  {
    hide Inv, Live, Saved, Spaces.Sound, Spaces.Counted;
    Spaces.StepKeeps(w.s, Spaces.Touch(p, i, marks));
  }

  lemma MoveKeeps(w: Whole, mv: Move)
    requires Joint(w) && CanMove(w, mv)
    ensures Joint(Moved(w, mv))
  {
    hide Joint, CanStep, WritesPagesOnly, KernelStep;
    match mv
    case Kernel(t, mem) => KernelStepKeeps(w, t, mem);
    case Pages(core, mem) =>
      PagesHoldNoContexts(w, core, mem);
      LocalKeeps(w, Ctx.Compute(core, mem));
    case Local(e) => LocalKeeps(w, e);
    case Touch(p, i, marks) => TouchKeeps(w, p, i, marks);
  }

  ghost predicate AllCan(w: Whole, ms: seq<Move>)
    requires Joint(w)
    decreases |ms|
  {
    ms == [] || (CanMove(w, ms[0]) && (MoveKeeps(w, ms[0]); AllCan(Moved(w, ms[0]), ms[1..])))
  }

  ghost function RunAll(w: Whole, ms: seq<Move>): (r: Whole)
    requires Joint(w) && AllCan(w, ms)
    ensures Joint(r)
    decreases |ms|
  {
    if ms == [] then w else (MoveKeeps(w, ms[0]); RunAll(Moved(w, ms[0]), ms[1..]))
  }

  // ---- Boot ----

  // The first process runs on the stack frame f.
  ghost function FirstMachine(f: nat, core: Contexts.Core, mem: seq<nat>): Ctx.Sys
    requires f < Frames.FRAMES && Frames.FRAMES * PAGE_WORDS <= |mem|
  {
    var area := StackArea(f);
    var a := area.hi - Contexts.FRAME;
    var first := MAX_PROCS - 1;
    Ctx.Sys(
      Contexts.Machine(core, mem, seq(MAX_PROCS, _ => a), seq(MAX_PROCS, _ => a), first, first),
      Ctx.World(seq(MAX_PROCS, _ => area), seq(MAX_PROCS, _ => [Ctx.FrameAt(mem, a)]), {first}))
  }

  ghost predicate AtBoot(m: Spaces.Memory, lastPage: nat, core: Contexts.Core, mem: seq<nat>) {
    && Spaces.Starts(m, lastPage) && lastPage + 8 < Frames.FRAMES
    && Frames.FRAMES * PAGE_WORDS <= |mem| && Contexts.IsCore(core) && Contexts.SysMode(core.status)
    && LaidOut(mem, mem, Spaces.FirstFree(m.bits))
  }

  lemma RoomAtBoot(m: Spaces.Memory, lastPage: nat)
    requires Spaces.Starts(m, lastPage) && lastPage + 8 < Frames.FRAMES
    ensures Frames.IsMap(m.bits) && Spaces.Spare(m.bits) >= 8 && Spaces.FirstFree(m.bits) < Frames.FRAMES
    ensures var s := Spaces.Booted(m, lastPage);
            && Spaces.Possible(s, Spaces.Fork(MAX_PROCS - 1)) && s.memory == m && s.live == {} && s.stacks == {}
  {
    hide Spaces.Sound;
    assert Spaces.Counted(Spaces.Booted(m, lastPage));
    Spaces.SpareMeansFree(m.bits);
  }

  // The operating system has forked the first process and is about to return to it.
  ghost function FirstWhole(m: Spaces.Memory, lastPage: nat, core: Contexts.Core, mem: seq<nat>): Whole
    requires AtBoot(m, lastPage, core, mem)
  {
    RoomAtBoot(m, lastPage);
    var f := Spaces.FirstFree(m.bits);
    Whole(Boot(), Spaces.After(Spaces.Booted(m, lastPage), Spaces.Fork(MAX_PROCS - 1)), FirstMachine(f, core, mem),
          map[MAX_PROCS - 1 := f])
  }

  lemma BootIsJoint(m: Spaces.Memory, lastPage: nat, core: Contexts.Core, mem: seq<nat>)
    requires AtBoot(m, lastPage, core, mem)
    ensures Joint(FirstWhole(m, lastPage, core, mem))
  {
    hide Inv, Boot, Spaces.Sound, Spaces.Counted, Spaces.FirstFree, Spaces.Starts, Spaces.Booted, Spaces.Forked,
      Ctx.FrameAt, Ctx.Inv, Ctx.Allowed;
    var w := FirstWhole(m, lastPage, core, mem);
    BootIsSound();
    LiveAtBoot();
    RoomAtBoot(m, lastPage);
    Spaces.StepKeeps(Spaces.Booted(m, lastPage), Spaces.Fork(MAX_PROCS - 1));
    Ctx.FirstProcess(core, mem, MAX_PROCS - 1, StackArea(Spaces.FirstFree(m.bits)), MAX_PROCS);
  }

  ghost function Booted(m: Spaces.Memory, lastPage: nat, core: Contexts.Core, mem: seq<nat>): (w: Whole)
    requires AtBoot(m, lastPage, core, mem)
    ensures Joint(w)
  {
    BootIsJoint(m, lastPage, core, mem);
    FirstWhole(m, lastPage, core, mem)
  }

  lemma LiveAtBoot()
    ensures Live(Boot()) == {MAX_PROCS - 1} && Boot().current == MAX_PROCS - 1
  {
  }

  // ---- What holds throughout ----

  /** Over every run of the whole from boot: the control blocks in use are those that have pages and those that have
      saved contexts; no two processes share a page frame or a word of their system stacks; no page of any process lies
      in the system stack of any. */
  lemma ProcessesAreSeparate(m: Spaces.Memory, lastPage: nat, core: Contexts.Core, mem: seq<nat>, ms: seq<Move>,
                             p: nat, q: nat)
    requires AtBoot(m, lastPage, core, mem) && AllCan(Booted(m, lastPage, core, mem), ms)
    ensures var w := RunAll(Booted(m, lastPage, core, mem), ms);
      && Inv(w.st) && !w.st.halted && w.s.live == w.sys.w.live == Live(w.st) && w.sys.m.current == w.st.current
      && (p in Live(w.st) && q in Live(w.st) ==>
            && p in w.stack && q in w.stack && w.sys.w.areas[p] == StackArea(w.stack[p])
            && (p != q ==> Ctx.Apart(w.sys.w.areas[p], w.sys.w.areas[q]))
            && (forall i: nat :: Spaces.IsSlot(i) ==> Spaces.Frame(w.s.memory, p, i) != w.stack[q])
            && (p != q ==> forall i: nat, j: nat :: Spaces.IsSlot(i) && Spaces.IsSlot(j) ==>
                  Spaces.Frame(w.s.memory, p, i) != Spaces.Frame(w.s.memory, q, j)))
  {
    hide Inv, RunAll, AllCan, Booted, AtBoot, Ctx.Inv, Spaces.Counted, Spaces.Slotted, Spaces.TablesNameFrames,
      Spaces.Frame;
    var w := RunAll(Booted(m, lastPage, core, mem), ms);
    if p in Live(w.st) && q in Live(w.st) {
      if p != q { StacksAreApart(w.stack[p], w.stack[q]); }
      PagesAreNoStacks(w.s, p);
    }
  }

  lemma PagesAreNoStacks(s: Spaces.Session, p: nat)
    requires Spaces.Sound(s) && p in s.live
    ensures p < Spaces.PROCS && forall i: nat :: Spaces.IsSlot(i) ==> Spaces.Frame(s.memory, p, i) !in s.stacks
  {
    hide Spaces.Counted, Spaces.Slotted, Spaces.TablesNameFrames, Spaces.Frame, Spaces.Isolated, Frames.UsedFrames;
    forall i: nat | Spaces.IsSlot(i) ensures Spaces.Frame(s.memory, p, i) !in s.stacks {
      Spaces.OwnedAreUsed(s, p, i);
    }
  }

  function CreateMoves(ms: seq<Move>): nat {
    if ms == [] then 0 else (if ms[0].Kernel? && ms[0].t.Create? then 1 else 0) + CreateMoves(ms[1..])
  }

  lemma StackFrameCount(w: Whole, mv: Move)
    requires Joint(w) && CanMove(w, mv)
    ensures |Moved(w, mv).s.stacks| <= |w.s.stacks| + CreateMoves([mv]) && Moved(w, mv).s.lastPage == w.s.lastPage
  {
    hide Inv, Step, Saved, Stacked, Spaces.Sound, Spaces.Counted, Ctx.Next;
    assert [mv][1..] == [];
    if mv.Kernel? {
      MemoryFollows(w, mv.t);
      Spaces.RunCounts(w.s, MemoryEvents(w.st, mv.t));
      ForksOf(w.st, mv.t);
    }
  }

  lemma ForksOf(st: State, t: Trap)
    ensures Spaces.Forks(MemoryEvents(st, t)) <= if t.Create? then 1 else 0
  {
    var p := if st.freepcbs == [] then 0 else st.freepcbs[0];
    ForksOfTwo(Spaces.Fork(p), Spaces.End(p));
    ForksOfTwo(Spaces.End(st.current), Spaces.End(p));
  }

  lemma ForksOfTwo(e: Spaces.Event, f: Spaces.Event)
    ensures Spaces.Forks([e]) == if e.Fork? then 1 else 0
    ensures Spaces.Forks([e, f]) == Spaces.Forks([e]) + if f.Fork? then 1 else 0
  {
    assert [e][1..] == [] && [f][1..] == [] && [e, f][1..] == [f];
  }

  lemma {:induction false} StackFramesCount(w: Whole, ms: seq<Move>)
    requires Joint(w) && AllCan(w, ms)
    ensures |RunAll(w, ms).s.stacks| <= |w.s.stacks| + CreateMoves(ms) && RunAll(w, ms).s.lastPage == w.s.lastPage
    decreases |ms|
  {
    hide Joint, CanMove, Moved;
    if ms != [] {
      MoveKeeps(w, ms[0]);
      StackFrameCount(w, ms[0]);
      assert CreateMoves(ms) == CreateMoves([ms[0]]) + CreateMoves(ms[1..]) by { assert [ms[0]][1..] == []; }
      StackFramesCount(Moved(w, ms[0]), ms[1..]);
    }
  }

  lemma FewLive(st: State)
    requires Inv(st) && !st.halted && st.freepcbs != []
    ensures |Live(st)| < MAX_PROCS
  {
    TakenIsFree(st, Yield);
    Spaces.SubsetSize(Live(st), Spaces.Below(MAX_PROCS) - {st.freepcbs[0]});
    assert st.freepcbs[0] in Spaces.Below(MAX_PROCS);
  }

  /** System stacks are never given back, yet no fork that finds a control block lacks frames as long as the forks so
      far leave room for a process in every control block. */
  lemma FramesLast(m: Spaces.Memory, lastPage: nat, core: Contexts.Core, mem: seq<nat>, ms: seq<Move>, t: Trap)
    requires AtBoot(m, lastPage, core, mem) && AllCan(Booted(m, lastPage, core, mem), ms)
    requires lastPage + 7 * MAX_PROCS + 3 + CreateMoves(ms) <= Frames.FRAMES
    ensures var w := RunAll(Booted(m, lastPage, core, mem), ms); w.st.freepcbs != [] ==> Room(w.s, t)
  {
    hide Inv, RunAll, AllCan, Live, Stacked, Saved, Spaces.Sound, Spaces.Spare, AtBoot;
    var w0 := Booted(m, lastPage, core, mem);
    var w := RunAll(w0, ms);
    StackFramesCount(w0, ms);
    FirstStack(m, lastPage, core, mem);
    if w.st.freepcbs != [] {
      FewLive(w.st);
      SpareIs(w.s);
    }
  }

  lemma FirstStack(m: Spaces.Memory, lastPage: nat, core: Contexts.Core, mem: seq<nat>)
    requires AtBoot(m, lastPage, core, mem)
    ensures var s := Booted(m, lastPage, core, mem).s; |s.stacks| == 1 && s.lastPage == lastPage
  {
    RoomAtBoot(m, lastPage);
  }

  lemma SpareIs(s: Spaces.Session)
    requires Spaces.Sound(s) && Spaces.Counted(s)
    ensures Spaces.Spare(s.memory.bits) == Frames.FRAMES - (s.lastPage + 1 + 7 * |s.live| + |s.stacks|)
  {
  }
}
