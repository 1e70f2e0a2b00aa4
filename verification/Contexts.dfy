/** Saving and restoring a process's context across traps, nested traps and process switches.
    Memory is counted in words here, and so are stack pointers. */
module Contexts {

  const FRAME: nat := 85 // words of a saved frame
  const PREVIOUS: nat := 10 // its link to the frame saved before it

  // bit 6 of a status word
  predicate SysMode(status: nat) { status / 64 % 2 == 1 }

  // System mode on, all interrupt levels off; every other bit as it was.
  function HandlerStatus(status: nat): (r: nat)
    ensures SysMode(r) && r % 16 == 15
    ensures r / 16 % 4 == status / 16 % 4 && r / 128 == status / 128
  {
    Fields(status / 128, status / 16 % 4);
    128 * (status / 128) + 64 + 16 * (status / 16 % 4) + 15
  }

  // The fields of a status word in system mode with all levels off.
  lemma Fields(high: nat, middle: nat)
    requires middle < 4
    ensures var r := 128 * high + 64 + 16 * middle + 15;
            SysMode(r) && r % 16 == 15 && r / 16 % 4 == middle && r / 128 == high
  {
    var r := 128 * high + 64 + 16 * middle + 15;
    assert r / 64 == 2 * high + 1 && r / 16 == 4 * (2 * high + 1) + middle;
  }

  // The processor: r0-r31, f0-f31, the next instruction, the special registers.
  datatype Core = Core(r: seq<nat>, f: seq<nat>, pc: nat, status: nat, iar: nat, isr: nat, cause: nat,
                       fault: nat, ir31: nat, ptBase: nat, ptSize: nat, ptBits: nat)

  ghost predicate IsCore(c: Core) { |c.r| == 32 && |c.f| == 32 && c.r[0] == 0 }

  // The processor, memory, and of every PCB its saved frame and system stack pointer; the current
  // PCB, and the one whose system stack the running code uses.
  datatype Machine = Machine(core: Core, mem: seq<nat>, saved: seq<nat>, sysStack: seq<nat>,
                             current: nat, running: nat)

  // What a saved frame stands for.
  datatype Context = Context(r: seq<nat>, f: seq<nat>, pc: nat, status: nat, cause: nat, fault: nat,
                             ptBase: nat, ptSize: nat, ptBits: nat)

  ghost predicate IsContext(x: Context) { |x.r| == 32 && |x.f| == 32 && x.r[0] == 0 }

  // ---- The hardware and the two assembly routines ----

  // Cpu::CauseException
  function Raised(c: Core, cause: nat, vector: nat): (d: Core)
    requires |c.r| == 32
  {
    c.(cause := cause, iar := c.pc, isr := c.status, ir31 := c.r[31], pc := vector, status := HandlerStatus(c.status))
  }

  // Word k of the frame the handler stores; words it does not store keep what they held.
  function FrameWord(c: Core, previous: nat, held: nat, k: nat): nat
    requires |c.r| == 32 && |c.f| == 32
  {
    if k == 0 then c.cause
    else if k == 1 then c.iar
    else if k == 2 then c.isr
    else if k == 3 then c.r[29]
    else if k == PREVIOUS then previous
    else if 11 <= k <= 40 then c.r[k - 10]
    else if k == 41 then c.ir31
    else if 42 <= k <= 73 then c.f[k - 42]
    else if k == 74 then c.iar
    else if k == 75 then c.isr
    else if k == 76 then c.cause
    else if k == 77 then c.fault
    else if k == 78 then c.ptBase
    else if k == 79 then c.ptSize
    else if k == 80 then c.ptBits
    else held
  }

  // A trap from user mode starts on the process's system stack, one from system mode goes on below.
  function StackTop(c: Core, sysStack: nat): nat
    requires |c.r| == 32
  {
    if SysMode(c.isr) then c.r[29] else sysStack
  }

  function StoreFrame(mem: seq<nat>, a: nat, c: Core, previous: nat): (r: seq<nat>)
    requires |c.r| == 32 && |c.f| == 32 && a + FRAME <= |mem|
    ensures |r| == |mem|
    ensures forall x: nat :: x < |mem| && !(a <= x < a + FRAME) ==> r[x] == mem[x]
  {
    seq(|mem|, x requires 0 <= x < |mem| =>
      if a <= x < a + FRAME then FrameWord(c, previous, mem[x], x - a) else mem[x])
  }

  ghost predicate CanHandle(m: Machine) {
    && IsCore(m.core) && m.current < |m.saved| == |m.sysStack|
    && FRAME <= StackTop(m.core, m.sysStack[m.current]) <= |m.mem|
  }

  // _intrhandler, up to the jump to the C handler: it stores the frame, links it before the last one
  // and leaves some values in the registers it used as scratch.
  ghost function Handled(m: Machine): (n: Machine)
    requires CanHandle(m)
    ensures |n.mem| == |m.mem| && IsCore(n.core)
  {
    var c := m.core;
    var a := StackTop(c, m.sysStack[m.current]) - FRAME;
    var previous := m.saved[m.current];
    var r31 := if SysMode(c.isr) then 64 else m.sysStack[m.current];
    m.(core := c.(r := c.r[1 := m.current][2 := previous][3 := c.ptBits][4 := c.iar][5 := c.isr][6 := c.cause]
                       [29 := a][31 := r31]),
       mem := StoreFrame(m.mem, a, c, previous),
       saved := m.saved[m.current := a])
  }

  // Where the handler's stack starts, and what lies there.
  lemma HandledStack(m: Machine)
    requires CanHandle(m)
    ensures var n, a := Handled(m), StackTop(m.core, m.sysStack[m.current]) - FRAME;
            && n.core.r[29] == n.saved[n.current] == a && n.current == m.current
            && n.mem[a..a + 4] == [m.core.cause, m.core.iar, m.core.isr, m.core.r[29]]
  {
  }

  ghost predicate CanSave(m: Machine, cause: nat, vector: nat) {
    IsCore(m.core) && CanHandle(m.(core := Raised(m.core, cause, vector)))
  }

  ghost function Saved(m: Machine, cause: nat, vector: nat): (n: Machine)
    requires CanSave(m, cause, vector)
    ensures |n.mem| == |m.mem| && IsCore(n.core)
  {
    Handled(m.(core := Raised(m.core, cause, vector)))
  }

  // The registers of a frame in memory.
  function Loaded(mem: seq<nat>, a: nat, c: Core): (d: Core)
    requires a + FRAME <= |mem|
  {
    Core(seq(32, k requires 0 <= k < 32 => if k == 0 then 0 else mem[a + 10 + k]),
         seq(32, k requires 0 <= k < 32 => mem[a + 42 + k]),
         mem[a + 74] - mem[a + 74] % 4, mem[a + 75], mem[a + 74], mem[a + 75], mem[a + 76], mem[a + 77], c.ir31,
         mem[a + 78], mem[a + 79], mem[a + 80])
  }

  ghost predicate CanReturn(m: Machine) {
    IsCore(m.core) && m.current < |m.saved| == |m.sysStack| && m.saved[m.current] + FRAME <= |m.mem|
  }

  // _intrreturn and Cpu::DoRfe
  ghost function Returned(m: Machine): (n: Machine)
    requires CanReturn(m)
    ensures IsCore(n.core)
  {
    var a := m.saved[m.current];
    m.(core := Loaded(m.mem, a, m.core),
       saved := m.saved[m.current := m.mem[a + PREVIOUS]],
       sysStack := m.sysStack[m.current := a + FRAME],
       running := m.current)
  }

  lemma WordIsOverwritten(mem: seq<nat>, a: nat, c: Core, previous: nat)
    requires |c.r| == 32 && |c.f| == 32 && a + FRAME <= |mem|
    ensures StoreFrame(mem[a + 39 := c.r[29]], a, c, previous) == StoreFrame(mem, a, c, previous)
  {
  }

  /** The same as code over registers and memory that are updated in place. A run of stores or loads
      of consecutive registers is written as one parallel assignment. */
  class Computer {
    var core: Core
    const mem: array<nat>
    var saved: seq<nat>
    var sysStack: seq<nat>
    var current: nat
    ghost var running: nat

    constructor (core: Core, words: seq<nat>, saved: seq<nat>, sysStack: seq<nat>, current: nat)
      ensures fresh(mem) && View() == Machine(core, words, saved, sysStack, current, current)
    {
      this.core, this.saved, this.sysStack, this.current, this.running := core, saved, sysStack, current, current;
      mem := new nat[|words|](i requires 0 <= i < |words| => words[i]);
    }

    ghost function View(): Machine reads this, mem {
      Machine(core, mem[..], saved, sysStack, current, running)
    }

    method CauseException(cause: nat, vector: nat)
      requires IsCore(core)
      modifies `core
      ensures core == Raised(old(core), cause, vector)
    {
      core := core.(cause := cause);
      core := core.(iar := core.pc);
      core := core.(isr := core.status);
      core := core.(ir31 := core.r[31]);
      core := core.(pc := vector);
      core := core.(status := HandlerStatus(core.status));
    }

    // sw of r1-r28 and r30
    method StoreIntegers(sp: nat)
      requires |core.r| == 32 && sp + FRAME <= mem.Length
      modifies mem
      ensures forall x :: 0 <= x < mem.Length ==>
        mem[x] == if sp + 11 <= x <= sp + 40 && x != sp + 39 then core.r[x - sp - 10] else old(mem[x])
    {
      forall k | 1 <= k < 31 && k != 29 { mem[sp + 10 + k] := core.r[k]; }
      assert forall k :: 1 <= k < 31 && k != 29 ==> mem[sp + 10 + k] == core.r[k];
      forall x | sp + 11 <= x <= sp + 40 && x != sp + 39 ensures mem[x] == core.r[x - sp - 10] {
        assert mem[sp + 10 + (x - sp - 10)] == core.r[x - sp - 10];
      }
    }

    // sd of f0-f31, two words at a time
    method StoreFloats(sp: nat)
      requires |core.f| == 32 && sp + FRAME <= mem.Length
      modifies mem
      ensures forall x :: 0 <= x < mem.Length ==>
        mem[x] == if sp + 42 <= x <= sp + 73 then core.f[x - sp - 42] else old(mem[x])
    {
      forall k | 0 <= k < 32 { mem[sp + 42 + k] := core.f[k]; }
      assert forall k :: 0 <= k < 32 ==> mem[sp + 42 + k] == core.f[k];
      forall x | sp + 42 <= x <= sp + 73 ensures mem[x] == core.f[x - sp - 42] {
        assert mem[sp + 42 + (x - sp - 42)] == core.f[x - sp - 42];
      }
    }

    // The special registers, and the arguments of the C handler at the foot of the frame.
    method StoreSpecials(sp: nat)
      requires sp + FRAME <= mem.Length
      modifies mem
      ensures forall x :: 0 <= x < mem.Length ==>
        mem[x] ==
          if x == sp || x == sp + 76 then core.cause
          else if x == sp + 1 || x == sp + 74 then core.iar
          else if x == sp + 2 || x == sp + 75 then core.isr
          else if x == sp + 3 then old(mem[sp + 39])
          else if x == sp + 77 then core.fault
          else if x == sp + 78 then core.ptBase
          else if x == sp + 79 then core.ptSize
          else if x == sp + 80 then core.ptBits
          else old(mem[x])
    {
      mem[sp + 74] := core.iar;
      mem[sp + 75] := core.isr;
      mem[sp + 76] := core.cause;
      mem[sp + 77] := core.fault;
      mem[sp + 78] := core.ptBase;
      mem[sp + 79] := core.ptSize;
      mem[sp + 80] := core.ptBits;
      mem[sp] := core.cause;
      mem[sp + 1] := core.iar;
      mem[sp + 2] := core.isr;
      mem[sp + 3] := mem[sp + 39];
    }

    // All but r29, which is stored before the stack pointer moves.
    method StoreRest(sp: nat, previous: nat)
      requires IsCore(core) && sp + FRAME <= mem.Length && mem[sp + 39] == core.r[29]
      modifies mem
      ensures mem[..] == StoreFrame(old(mem[..]), sp, core, previous)
    {
      StoreIntegers(sp);
      mem[sp + 41] := core.ir31;
      StoreFloats(sp);
      StoreSpecials(sp);
      mem[sp + PREVIOUS] := previous;
      forall x | 0 <= x < mem.Length
        ensures mem[x] == if sp <= x < sp + FRAME then FrameWord(core, previous, old(mem[x]), x - sp) else old(mem[x])
      {
      }
    }

    method IntrHandler()
      requires CanHandle(View())
      modifies this, mem
      ensures View() == Handled(old(View()))
      // The stack pointer is at the frame, with the arguments of the C handler at its foot.
      ensures current < |saved| && |core.r| == 32 && core.r[29] == saved[current] && core.r[29] + 85 <= mem.Length
      ensures core.r[29] + 85 == if old(SysMode(core.isr)) then old(core.r[29]) else old(sysStack[current])
      ensures mem[core.r[29]..core.r[29] + 4] == old([core.cause, core.iar, core.isr, core.r[29]])
    {
      hide FrameWord, StoreFrame;
      HandledStack(View());
      ghost var words := mem[..];
      var r29, r31 := core.r[29], if SysMode(core.isr) then 64 else 0;
      if r31 == 0 {
        r31 := sysStack[current];
        mem[r31 + 39 - FRAME] := r29;
        r29 := r31;
      } else {
        mem[r29 + 39 - FRAME] := r29;
      }
      r29 := r29 - FRAME;
      var previous := saved[current];
      StoreRest(r29, previous);
      assert mem[..] == StoreFrame(words, r29, core, previous) by { WordIsOverwritten(words, r29, core, previous); }
      saved := saved[current := r29];
      core := core.(r := core.r[1 := current][2 := previous][3 := core.ptBits][4 := core.iar][5 := core.isr]
                               [6 := core.cause][29 := r29][31 := r31]);
    }

    // lw of r2-r28, r30, r31, r29 and r1, in that order; r0 is always zero.
    method IntrReturn()
      requires CanReturn(View())
      modifies this
      ensures View() == Returned(old(View()))
    {
      var r29 := saved[current];
      saved := saved[current := mem[r29 + PREVIOUS]];
      var iar, isr, cause, fault := mem[r29 + 74], mem[r29 + 75], mem[r29 + 76], mem[r29 + 77];
      core := core.(iar := iar, isr := isr, cause := cause, fault := fault,
                    ptBase := mem[r29 + 78], ptSize := mem[r29 + 79], ptBits := mem[r29 + 80]);
      core := core.(f := seq(32, k requires 0 <= k < 32 reads mem => mem[r29 + 42 + k]));
      var stale := core.r;
      var r := seq(32, k requires 0 <= k < 32 reads mem =>
        if k == 0 || k == 1 || k == 29 then stale[k] else mem[r29 + 10 + k]);
      r29 := r29 + FRAME;
      sysStack := sysStack[current := r29];
      var r1 := r29;
      r := r[29 := mem[r1 + 39 - FRAME]];
      r := r[1 := mem[r1 + 11 - FRAME]];
      core := core.(r := r);
      DoRfe();
      running := current;
    }

    method DoRfe()
      modifies `core
      ensures core == old(core).(pc := old(core).iar - old(core).iar % 4, status := old(core).isr)
    {
      core := core.(status := core.isr);
      core := core.(pc := core.iar - core.iar % 4);
    }

    // ProcessSetResult
    method SetResult(pcb: nat, result: nat)
      requires pcb < |saved| && saved[pcb] + FRAME <= mem.Length
      modifies mem
      ensures mem[..] == old(mem[..])[saved[pcb] + 11 := result]
    {
      mem[saved[pcb] + 10 + 1] := result;
    }
  }
}
