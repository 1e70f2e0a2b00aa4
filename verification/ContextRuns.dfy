/** Saved frames in memory behave as one stack of contexts per process, and a process resumes with
    the context it was interrupted in, whatever traps nest and whatever runs in between. */
module ContextRuns {
  import opened Contexts

  datatype Area = Area(lo: nat, hi: nat)

  // The system stack area of each PCB, the contexts saved on it (innermost first), the PCBs in use.
  datatype World = World(areas: seq<Area>, stacks: seq<seq<Context>>, live: set<nat>)

  datatype Sys = Sys(m: Machine, w: World)

  // ---- Saved frames in memory ----

  ghost predicate Holds(mem: seq<nat>, a: nat, x: Context)
    requires a + FRAME <= |mem|
  {
    && IsContext(x)
    && (forall k :: a + 11 <= k <= a + 41 ==> mem[k] == x.r[k - a - 10])
    && (forall k :: a + 42 <= k <= a + 73 ==> mem[k] == x.f[k - a - 42])
    && mem[a + 74] == x.pc && mem[a + 75] == x.status && mem[a + 76] == x.cause && mem[a + 77] == x.fault
    && mem[a + 78] == x.ptBase && mem[a + 79] == x.ptSize && mem[a + 80] == x.ptBits
  }

  // A frame of system mode starts where the code it interrupted had its stack pointer; one of user
  // mode is the first on the stack.
  ghost predicate Placed(a: nat, hi: nat, xs: seq<Context>)
    requires xs != [] && |xs[0].r| == 32
  {
    if SysMode(xs[0].status) then xs[0].r[29] == a + FRAME else |xs| == 1 && a + FRAME == hi
  }

  ghost predicate Chain(mem: seq<nat>, a: nat, lo: nat, hi: nat, xs: seq<Context>)
    decreases |xs|
  {
    if xs == [] then a == 0
    else
      && lo <= a && a + FRAME <= hi <= |mem|
      && Holds(mem, a, xs[0]) && Placed(a, hi, xs)
      && Chain(mem, mem[a + PREVIOUS], a + FRAME, hi, xs[1..])
  }

  // Words 10 to 80 of every frame in the chain are as they were; the four arguments of the C handler
  // below them are its own to change.
  ghost predicate Untouched(mem: seq<nat>, after: seq<nat>, a: nat, lo: nat, hi: nat, xs: seq<Context>)
    requires Chain(mem, a, lo, hi, xs) && |after| == |mem|
    decreases |xs|
  {
    xs == [] ||
    ((forall k :: a + 10 <= k <= a + 80 ==> after[k] == mem[k])
     && Untouched(mem, after, mem[a + PREVIOUS], a + FRAME, hi, xs[1..]))
  }

  lemma {:induction false} ChainKept(mem: seq<nat>, after: seq<nat>, a: nat, lo: nat, hi: nat, xs: seq<Context>)
    requires Chain(mem, a, lo, hi, xs) && |after| == |mem| && Untouched(mem, after, a, lo, hi, xs)
    ensures Chain(after, a, lo, hi, xs)
    decreases |xs|
  {
    if xs != [] { ChainKept(mem, after, mem[a + PREVIOUS], a + FRAME, hi, xs[1..]); }
  }

  lemma {:induction false} OutsideIsUntouched(mem: seq<nat>, after: seq<nat>, a: nat, lo: nat, hi: nat,
      xs: seq<Context>)
    requires Chain(mem, a, lo, hi, xs) && |after| == |mem|
    requires forall k :: lo <= k < hi && k < |mem| ==> after[k] == mem[k]
    ensures Untouched(mem, after, a, lo, hi, xs)
    decreases |xs|
  {
    hide Holds, Placed;
    if xs != [] { OutsideIsUntouched(mem, after, mem[a + PREVIOUS], a + FRAME, hi, xs[1..]); }
  }

  lemma ChainAbove(mem: seq<nat>, a: nat, lo: nat, above: nat, hi: nat, xs: seq<Context>)
    requires Chain(mem, a, lo, hi, xs) && (xs != [] ==> above <= a)
    ensures Chain(mem, a, above, hi, xs)
  {
  }

  // ---- Events ----

  datatype Event =
    | Compute(core: Core, mem: seq<nat>)          // code runs between traps
    | Trap(cause: nat, vector: nat)               // exception and _intrhandler
    | SetResult(pcb: nat, result: nat)            // ProcessSetResult
    | Switch(pcb: nat)                            // ProcessSchedule picks another PCB
    | Return                                      // _intrreturn and rfe
    | Create(pcb: nat, area: Area, mem: seq<nat>) // ProcessFork lays out a first frame
    | Free(pcb: nat)                              // a drained zombie

  ghost function Interrupted(c: Core, cause: nat): Context {
    Context(c.r, c.f, c.pc, c.status, cause, c.fault, c.ptBase, c.ptSize, c.ptBits)
  }

  // What a frame in memory stands for.
  ghost function FrameAt(mem: seq<nat>, a: nat): (x: Context)
    requires a + FRAME <= |mem|
    ensures Holds(mem, a, x)
  {
    Context(seq(32, k requires 0 <= k < 32 => if k == 0 then 0 else mem[a + 10 + k]),
                    seq(32, k requires 0 <= k < 32 => mem[a + 42 + k]),
                    mem[a + 74], mem[a + 75], mem[a + 76], mem[a + 77], mem[a + 78], mem[a + 79], mem[a + 80])
  }

  ghost predicate Apart(a: Area, b: Area) { a.hi <= b.lo || b.hi <= a.lo }

  ghost predicate ChainOf(s: Sys, p: nat)
    requires p < |s.m.saved| == |s.w.areas| == |s.w.stacks|
  {
    && s.w.areas[p].lo + FRAME <= s.w.areas[p].hi <= |s.m.mem|
    && Chain(s.m.mem, s.m.saved[p], s.w.areas[p].lo, s.w.areas[p].hi, s.w.stacks[p])
  }

  ghost predicate Shaped(s: Sys) {
    && IsCore(s.m.core)
    && |s.m.saved| == |s.m.sysStack| == |s.w.areas| == |s.w.stacks|
    && s.m.current < |s.m.saved| && s.m.running < |s.m.saved|
    && (forall p: nat :: p in s.w.live ==> p < |s.m.saved|)
  }

  ghost predicate Inv(s: Sys) {
    && Shaped(s)
    && s.m.current in s.w.live
    && (forall p: nat :: p in s.w.live ==> ChainOf(s, p))
    && (forall p: nat, q: nat :: p in s.w.live && q in s.w.live && p != q ==> Apart(s.w.areas[p], s.w.areas[q]))
    && (forall p: nat :: p in s.w.live && (p != s.m.running || p != s.m.current) ==> s.w.stacks[p] != [])
    && (!SysMode(s.m.core.status) ==>
          s.m.running == s.m.current && s.w.stacks[s.m.current] == []
          && s.m.sysStack[s.m.current] == s.w.areas[s.m.current].hi)
  }

  // What the code in between is trusted with: not to write over saved registers, to keep the kernel's
  // stack pointer between the end of the stack area and the last saved frame, to call ProcessSchedule
  // only from a handler, and to trap only before it has picked another process.
  ghost predicate Allowed(s: Sys, e: Event)
    requires Inv(s)
  {
    match e
    case Compute(core, mem) =>
      && IsCore(core) && |mem| == |s.m.mem| && SysMode(core.status) == SysMode(s.m.core.status)
      && (forall p: nat :: p in s.w.live ==> UntouchedFrames(s, mem, p))
    case Trap(_, _) => SysMode(s.m.core.status) ==> s.m.running == s.m.current && StackPointerFits(s)
    case SetResult(p, _) => SysMode(s.m.core.status) && p in s.w.live && s.w.stacks[p] != []
    case Switch(q) =>
      && SysMode(s.m.core.status) && q in s.w.live && s.w.stacks[q] != []
      && s.w.stacks[s.m.current] != []
    case Return => SysMode(s.m.core.status) && s.w.stacks[s.m.current] != []
    case Create(p, area, mem) =>
      && SysMode(s.m.core.status) && p < |s.m.saved| && p !in s.w.live && p != s.m.running
      && area.lo + FRAME <= area.hi <= |mem| == |s.m.mem|
      && (forall q: nat :: q in s.w.live ==> Apart(area, s.w.areas[q]))
      && (forall k :: 0 <= k < |mem| && !(area.lo <= k < area.hi) ==> mem[k] == s.m.mem[k])
      && mem[area.hi - FRAME + PREVIOUS] == 0 && !SysMode(mem[area.hi - FRAME + 75])
    case Free(p) => SysMode(s.m.core.status) && p != s.m.current
  }

  ghost predicate UntouchedFrames(s: Sys, mem: seq<nat>, p: nat)
    requires Shaped(s) && p in s.w.live && ChainOf(s, p) && |mem| == |s.m.mem|
  {
    Untouched(s.m.mem, mem, s.m.saved[p], s.w.areas[p].lo, s.w.areas[p].hi, s.w.stacks[p])
  }

  ghost predicate StackPointerFits(s: Sys)
    requires Shaped(s)
  {
    var p, sp := s.m.current, s.m.core.r[29];
    s.w.areas[p].lo + FRAME <= sp <= if s.w.stacks[p] == [] then s.w.areas[p].hi else s.m.saved[p]
  }

  ghost function Next(s: Sys, e: Event): Sys
    requires Inv(s) && Allowed(s, e)
  {
    var m, w, p := s.m, s.w, s.m.current;
    match e
    case Compute(core, mem) => Sys(m.(core := core, mem := mem), w)
    case Trap(cause, vector) =>
      TrapCanSave(s, cause, vector);
      Sys(Saved(m, cause, vector), w.(stacks := w.stacks[p := [Interrupted(m.core, cause)] + w.stacks[p]]))
    case SetResult(q, v) =>
      assert ChainOf(s, q);
      Sys(m.(mem := m.mem[m.saved[q] + 11 := v]), w.(stacks := w.stacks[q := SetFirst(w.stacks[q], v)]))
    case Switch(q) => Sys(m.(current := q), w)
    case Return =>
      assert ChainOf(s, p);
      Sys(Returned(m), w.(stacks := w.stacks[p := w.stacks[p][1..]]))
    case Create(q, area, mem) =>
      var a := area.hi - FRAME;
      Sys(m.(mem := mem, saved := m.saved[q := a], sysStack := m.sysStack[q := a]),
          World(w.areas[q := area], w.stacks[q := [FrameAt(mem, a)]], w.live + {q}))
    case Free(q) => Sys(m, w.(live := w.live - {q}))
  }

  ghost function SetFirst(xs: seq<Context>, v: nat): (ys: seq<Context>)
    requires xs != [] && |xs[0].r| == 32
    ensures |ys| == |xs|
  {
    [xs[0].(r := xs[0].r[1 := v])] + xs[1..]
  }

  lemma ChainBounds(s: Sys, p: nat)
    requires p < |s.m.saved| == |s.w.areas| == |s.w.stacks| && ChainOf(s, p)
    ensures s.w.stacks[p] != [] ==>
      s.w.areas[p].lo <= s.m.saved[p] && s.m.saved[p] + FRAME <= s.w.areas[p].hi <= |s.m.mem|
  {
  }

  lemma TrapCanSave(s: Sys, cause: nat, vector: nat)
    requires Inv(s) && Allowed(s, Trap(cause, vector))
    ensures CanSave(s.m, cause, vector)
  {
    hide Chain;
    assert ChainOf(s, s.m.current);
    ChainBounds(s, s.m.current);
  }

  // ---- Every step keeps every chain ----

  lemma StoredFrame(mem: seq<nat>, a: nat, c: Core, cause: nat, vector: nat, previous: nat)
    requires IsCore(c) && a + FRAME <= |mem|
    ensures var after := StoreFrame(mem, a, Raised(c, cause, vector), previous);
      Holds(after, a, Interrupted(c, cause)) && after[a + PREVIOUS] == previous
  {
  }

  // A chain in an area no word of which has changed.
  lemma AreaKept(mem: seq<nat>, after: seq<nat>, a: nat, lo: nat, hi: nat, xs: seq<Context>)
    requires Chain(mem, a, lo, hi, xs) && |after| == |mem|
    requires forall k :: lo <= k < hi && k < |mem| ==> after[k] == mem[k]
    ensures Chain(after, a, lo, hi, xs)
  {
    hide Chain, Untouched;
    OutsideIsUntouched(mem, after, a, lo, hi, xs);
    ChainKept(mem, after, a, lo, hi, xs);
  }

  // Nor has one elsewhere when only one area has been written.
  lemma OthersKept(s: Sys, t: Sys, p: nat)
    requires Inv(s) && Shaped(t) && p < |s.w.areas| && |t.m.mem| == |s.m.mem|
    requires |t.m.saved| == |s.m.saved|
    requires forall k :: 0 <= k < |s.m.mem| && !(s.w.areas[p].lo <= k < s.w.areas[p].hi) ==> t.m.mem[k] == s.m.mem[k]
    requires forall q: nat :: q < |s.m.saved| && q != p ==>
      t.m.saved[q] == s.m.saved[q] && t.w.areas[q] == s.w.areas[q] && t.w.stacks[q] == s.w.stacks[q]
    ensures p in s.w.live ==> forall q: nat :: q in s.w.live && q != p ==> ChainOf(t, q)
  {
    hide Chain;
    forall q: nat | p in s.w.live && q in s.w.live && q != p ensures ChainOf(t, q) {
      assert ChainOf(s, q) && Apart(s.w.areas[p], s.w.areas[q]);
      AreaKept(s.m.mem, t.m.mem, s.m.saved[q], s.w.areas[q].lo, s.w.areas[q].hi, s.w.stacks[q]);
    }
  }

  lemma TrapPushes(s: Sys, cause: nat, vector: nat)
    requires Inv(s) && Allowed(s, Trap(cause, vector))
    ensures ChainOf(Next(s, Trap(cause, vector)), s.m.current)
  {
    hide Holds, FrameAt, StoreFrame;
    TrapCanSave(s, cause, vector);
    var t, p := Next(s, Trap(cause, vector)), s.m.current;
    var area, xs := s.w.areas[p], s.w.stacks[p];
    var a := t.m.saved[p];
    assert ChainOf(s, p);
    StoredFrame(s.m.mem, a, s.m.core, cause, vector, s.m.saved[p]);
    ChainAbove(s.m.mem, s.m.saved[p], area.lo, a + FRAME, area.hi, xs);
    AreaKept(s.m.mem, t.m.mem, s.m.saved[p], a + FRAME, area.hi, xs);
    assert ([Interrupted(s.m.core, cause)] + xs)[1..] == xs;
  }

  lemma TrapKeeps(s: Sys, cause: nat, vector: nat)
    requires Inv(s) && Allowed(s, Trap(cause, vector))
    ensures Inv(Next(s, Trap(cause, vector)))
  {
    hide Chain, StoreFrame;
    TrapCanSave(s, cause, vector);
    var t, p := Next(s, Trap(cause, vector)), s.m.current;
    assert ChainOf(s, p);
    ChainBounds(s, p);
    OthersKept(s, t, p);
    TrapPushes(s, cause, vector);
  }

  lemma ReturnKeeps(s: Sys)
    requires Inv(s) && Allowed(s, Return)
    ensures Inv(Next(s, Return))
  {
    var t, p := Next(s, Return), s.m.current;
    var area, xs := s.w.areas[p], s.w.stacks[p];
    assert ChainOf(s, p);
    ChainAbove(s.m.mem, t.m.saved[p], s.m.saved[p] + FRAME, area.lo, area.hi, xs[1..]);
    OthersKept(s, t, p);
  }

  lemma SetResultKeeps(s: Sys, p: nat, v: nat)
    requires Inv(s) && Allowed(s, SetResult(p, v))
    ensures Inv(Next(s, SetResult(p, v)))
  {
    hide FrameAt, Chain, Untouched, StoreFrame, SetFirst;
    var t := Next(s, SetResult(p, v));
    assert ChainOf(s, p);
    ResultInChain(s.m.mem, s.m.saved[p], s.w.areas[p].lo, s.w.areas[p].hi, s.w.stacks[p], v);
    OthersKept(s, t, p);
  }

  lemma ResultInChain(mem: seq<nat>, a: nat, lo: nat, hi: nat, xs: seq<Context>, v: nat)
    requires Chain(mem, a, lo, hi, xs) && xs != []
    ensures lo <= a && a + FRAME <= hi <= |mem| && |xs[0].r| == 32
    ensures Chain(mem[a + 11 := v], a, lo, hi, SetFirst(xs, v))
  {
    AreaKept(mem, mem[a + 11 := v], mem[a + PREVIOUS], a + FRAME, hi, xs[1..]);
    assert SetFirst(xs, v)[1..] == xs[1..];
  }

  lemma CreateKeeps(s: Sys, p: nat, area: Area, mem: seq<nat>)
    requires Inv(s) && Allowed(s, Create(p, area, mem))
    ensures Inv(Next(s, Create(p, area, mem)))
  {
    hide FrameAt, Holds, Chain;
    var t := Next(s, Create(p, area, mem));
    forall q: nat | q in s.w.live ensures ChainOf(t, q) {
      assert ChainOf(s, q) && Apart(area, s.w.areas[q]);
      AreaKept(s.m.mem, mem, s.m.saved[q], s.w.areas[q].lo, s.w.areas[q].hi, s.w.stacks[q]);
    }
    FirstFrame(mem, area);
    assert ChainOf(t, p);
  }

  lemma FirstFrame(mem: seq<nat>, area: Area)
    requires area.lo + FRAME <= area.hi <= |mem| && mem[area.hi - FRAME + PREVIOUS] == 0
    requires !SysMode(mem[area.hi - FRAME + 75])
    ensures Chain(mem, area.hi - FRAME, area.lo, area.hi, [FrameAt(mem, area.hi - FRAME)])
  {
    hide Holds;
  }

  lemma NextKeeps(s: Sys, e: Event)
    requires Inv(s) && Allowed(s, e)
    ensures Inv(Next(s, e))
  {
    hide Chain, FrameAt, StoreFrame, Untouched;
    match e
    case Compute(core, mem) =>
      forall p: nat | p in s.w.live ensures ChainOf(Next(s, e), p) {
        assert ChainOf(s, p) && UntouchedFrames(s, mem, p);
        ChainKept(s.m.mem, mem, s.m.saved[p], s.w.areas[p].lo, s.w.areas[p].hi, s.w.stacks[p]);
      }
    case Trap(cause, vector) => TrapKeeps(s, cause, vector);
    case SetResult(p, v) => SetResultKeeps(s, p, v);
    case Switch(q) => forall p: nat | p in s.w.live ensures ChainOf(Next(s, e), p) { assert ChainOf(s, p); }
    case Return => ReturnKeeps(s);
    case Create(p, area, mem) => CreateKeeps(s, p, area, mem);
    case Free(q) => forall p: nat | p in s.w.live ensures ChainOf(s, p) {}
  }

  /** What the C handler finds: it runs at the vector in system mode, its stack pointer is at the frame just stored, 85
      words below where the stack stood, with the cause, the interrupted pc, status and stack pointer at its foot; so it
      may trap in its turn, exactly as far as the stack has room for one more frame. */
  lemma HandlerStarts(s: Sys, cause: nat, vector: nat, cause2: nat, vector2: nat)
    requires Inv(s) && Allowed(s, Trap(cause, vector))
    ensures var t, c, area := Next(s, Trap(cause, vector)), s.m.core, s.w.areas[s.m.current];
            var a := t.m.saved[s.m.current];
            && t.m.current == t.m.running == s.m.current
            && t.m.core.pc == vector && t.m.core.status == HandlerStatus(c.status)
            && t.m.core.r[29] == a && a + 85 == (if SysMode(c.status) then c.r[29] else area.hi)
            && |t.m.mem| == |s.m.mem| >= a + 85 && t.m.mem[a..a + 4] == [cause, c.pc, c.status, c.r[29]]
            && (forall k :: 0 <= k < |s.m.mem| && !(a <= k < a + 85) ==> t.m.mem[k] == s.m.mem[k])
            && Inv(t) && (Allowed(t, Trap(cause2, vector2)) <==> area.lo + 85 <= a)
  {
    hide Chain;
    TrapCanSave(s, cause, vector);
    TrapKeeps(s, cause, vector);
    TrapAddsContext(s, cause, vector);
    assert ChainOf(s, s.m.current);
    ChainBounds(s, s.m.current);
  }

  // What _intrreturn loads is what the innermost frame stands for.
  lemma ReturnResumes(s: Sys)
    requires Inv(s) && Allowed(s, Return)
    ensures var c, x := Next(s, Return).m.core, s.w.stacks[s.m.current][0];
      && IsContext(x) && c.r == x.r && c.f == x.f && c.pc == x.pc - x.pc % 4 && c.status == x.status
      && c.iar == x.pc && c.isr == x.status && c.cause == x.cause && c.fault == x.fault
      && c.ptBase == x.ptBase && c.ptSize == x.ptSize && c.ptBits == x.ptBits
  {
    hide FrameAt;
    var p := s.m.current;
    assert ChainOf(s, p);
    var c, x, a, mem := Next(s, Return).m.core, s.w.stacks[p][0], s.m.saved[p], s.m.mem;
    assert Holds(mem, a, x);
    forall k: nat | k < 32 ensures c.r[k] == x.r[k] { assert k > 0 ==> mem[a + 10 + k] == x.r[a + 10 + k - a - 10]; }
    forall k: nat | k < 32 ensures c.f[k] == x.f[k] { assert mem[a + 42 + k] == x.f[a + 42 + k - a - 42]; }
    assert c.r == x.r && c.f == x.f;
  }

  // ---- Whole runs ----

  ghost predicate AllAllowed(s: Sys, es: seq<Event>)
    requires Inv(s)
    decreases |es|
  {
    es == [] || (Allowed(s, es[0]) && (NextKeeps(s, es[0]); AllAllowed(Next(s, es[0]), es[1..])))
  }

  ghost function Run(s: Sys, es: seq<Event>): (t: Sys)
    requires Inv(s) && AllAllowed(s, es)
    ensures Inv(t)
    decreases |es|
  {
    if es == [] then s else (NextKeeps(s, es[0]); Run(Next(s, es[0]), es[1..]))
  }

  // The frame d from the bottom of p's stack stays there throughout.
  ghost predicate NeverBelow(s: Sys, es: seq<Event>, p: nat, d: nat)
    requires Inv(s) && AllAllowed(s, es)
    decreases |es|
  {
    && p in s.w.live && |s.w.stacks[p]| >= d
    && (es == [] || (NextKeeps(s, es[0]); NeverBelow(Next(s, es[0]), es[1..], p, d)))
  }

  // The last result set while that frame was the innermost, r if there was none.
  ghost function ResultOf(s: Sys, es: seq<Event>, p: nat, d: nat, r: nat): nat
    requires Inv(s) && AllAllowed(s, es) && NeverBelow(s, es, p, d)
    decreases |es|
  {
    if es == [] then r
    else
      NextKeeps(s, es[0]);
      var sets := es[0].SetResult? && es[0].pcb == p && |s.w.stacks[p]| == d;
      ResultOf(Next(s, es[0]), es[1..], p, d, if sets then es[0].result else r)
  }

  ghost function FrameOf(s: Sys, p: nat, d: nat): (x: Context)
    requires Inv(s) && p in s.w.live && 0 < d <= |s.w.stacks[p]|
  {
    s.w.stacks[p][|s.w.stacks[p]| - d]
  }

  lemma NextKeepsFrame(s: Sys, e: Event, p: nat, d: nat)
    requires Inv(s) && Allowed(s, e) && Inv(Next(s, e)) && p in s.w.live && 0 < d <= |s.w.stacks[p]|
    requires p in Next(s, e).w.live && d <= |Next(s, e).w.stacks[p]|
    ensures |FrameOf(s, p, d).r| == 32
    ensures FrameOf(Next(s, e), p, d) ==
      if e.SetResult? && e.pcb == p && |s.w.stacks[p]| == d
      then FrameOf(s, p, d).(r := FrameOf(s, p, d).r[1 := e.result]) else FrameOf(s, p, d)
  {
    hide FrameAt, StoreFrame, Untouched, Chain, Saved, Returned, UntouchedFrames, CanSave, StackPointerFits;
    assert ChainOf(s, p);
    FramesAreContexts(s.m.mem, s.m.saved[p], s.w.areas[p].lo, s.w.areas[p].hi, s.w.stacks[p], |s.w.stacks[p]| - d);
  }

  lemma {:induction false} FramesAreContexts(mem: seq<nat>, a: nat, lo: nat, hi: nat, xs: seq<Context>, i: nat)
    requires Chain(mem, a, lo, hi, xs) && i < |xs|
    ensures IsContext(xs[i])
    decreases |xs|
  {
    if i > 0 { FramesAreContexts(mem, mem[a + PREVIOUS], a + FRAME, hi, xs[1..], i - 1); }
  }

  lemma FrameOfIsContext(s: Sys, p: nat, d: nat)
    requires Inv(s) && p in s.w.live && 0 < d <= |s.w.stacks[p]|
    ensures IsContext(FrameOf(s, p, d))
  {
    hide Chain;
    assert ChainOf(s, p);
    FramesAreContexts(s.m.mem, s.m.saved[p], s.w.areas[p].lo, s.w.areas[p].hi, s.w.stacks[p], |s.w.stacks[p]| - d);
  }

  lemma {:induction false} FrameIsKept(s: Sys, es: seq<Event>, p: nat, d: nat)
    requires Inv(s) && AllAllowed(s, es) && NeverBelow(s, es, p, d) && d > 0
    ensures var t, x := Run(s, es), FrameOf(s, p, d);
      && p in t.w.live && d <= |t.w.stacks[p]| && |x.r| == 32
      && FrameOf(t, p, d) == x.(r := x.r[1 := ResultOf(s, es, p, d, x.r[1])])
    decreases |es|
  {
    hide Inv, Allowed, Next;
    var x := FrameOf(s, p, d);
    FrameOfIsContext(s, p, d);
    if es != [] {
      NextKeeps(s, es[0]);
      NextKeepsFrame(s, es[0], p, d);
      FrameIsKept(Next(s, es[0]), es[1..], p, d);
    }
  }

  lemma TrapAddsContext(s: Sys, cause: nat, vector: nat)
    requires Inv(s) && Allowed(s, Trap(cause, vector))
    ensures var t, p := Next(s, Trap(cause, vector)), s.m.current;
      && |t.w.stacks| == |s.w.stacks| && p < |s.w.stacks| && p in t.w.live
      && t.w.stacks[p] == [Interrupted(s.m.core, cause)] + s.w.stacks[p]
  {
  }

  // The operating system has laid out the first process's frame and is about to return to it.
  lemma FirstProcess(core: Core, mem: seq<nat>, p: nat, area: Area, n: nat)
    requires IsCore(core) && SysMode(core.status) && p < n
    requires area.lo + FRAME <= area.hi <= |mem| && mem[area.hi - FRAME + PREVIOUS] == 0
    requires !SysMode(mem[area.hi - FRAME + 75])
    ensures var a := area.hi - FRAME;
      var m := Machine(core, mem, seq(n, _ => a), seq(n, _ => a), p, p);
      var s := Sys(m, World(seq(n, _ => area), seq(n, _ => [FrameAt(mem, a)]), {p}));
      Inv(s) && Allowed(s, Return)
  {
    hide FrameAt, Holds, Chain;
    FirstFrame(mem, area);
  }

  /** A process is interrupted; then anything happens, traps and returns nested to any depth, other
      processes running, created and freed, as long as the process's own frame is not returned to;
      when it is, registers, floating-point registers, status, page-table registers and the place to go
      on are what they were, but for r1 if a result was set. */
  lemma ContextIsTransparent(s: Sys, cause: nat, vector: nat, es: seq<Event>)
    requires Inv(s) && Allowed(s, Trap(cause, vector))
    ensures var t, p := Next(s, Trap(cause, vector)), s.m.current;
      && p < |s.w.stacks| && Inv(t)
      && (ComesBack(t, es, p, |s.w.stacks[p]| + 1) ==>
            var was, now := s.m.core, Next(Run(t, es), Return).m.core;
            && IsCore(was)
            && now.r == was.r[1 := ResultOf(t, es, p, |s.w.stacks[p]| + 1, was.r[1])]
            && now.f == was.f && now.pc == was.pc - was.pc % 4 && now.status == was.status
            && now.iar == was.pc && now.isr == was.status && now.cause == cause && now.fault == was.fault
            && now.ptBase == was.ptBase && now.ptSize == was.ptSize && now.ptBits == was.ptBits)
  {
    hide Allowed, Run, AllAllowed, NeverBelow, ResultOf, Chain, Next;
    NextKeeps(s, Trap(cause, vector));
    TrapAddsContext(s, cause, vector);
    var t, p := Next(s, Trap(cause, vector)), s.m.current;
    var d := |s.w.stacks[p]| + 1;
    if ComesBack(t, es, p, d) {
      FrameIsKept(t, es, p, d);
      ReturnResumes(Run(t, es));
    }
  }

  // The run es ends where the frame d from the bottom of p's stack, there all along, is about to be
  // returned to.
  ghost predicate ComesBack(t: Sys, es: seq<Event>, p: nat, d: nat)
    requires Inv(t)
  {
    && AllAllowed(t, es) && NeverBelow(t, es, p, d)
    && Run(t, es).m.current == p && p < |Run(t, es).w.stacks| && |Run(t, es).w.stacks[p]| == d
    && Allowed(Run(t, es), Return)
  }
}
