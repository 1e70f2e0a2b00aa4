/** The two translations of a user address: the processor's page-table walk and the kernel's. */
module Translation {
  import opened Powers
  import opened Frames
  import Spaces = AddressSpaces

  const WORD_RANGE: nat := 0x1_0000_0000
  const PAGE_BITS: nat := 12
  const VIRTUAL_SIZE: nat := 0x10_0000

  // w >> k, w & ((1 << k) - 1) and w & ~((1 << k) - 1), for p the k-th power of two.
  function Shift(w: nat, p: nat): (r: nat)
    requires p > 0
    ensures r * p <= w
  {
    w / p
  }

  function Low(w: nat, p: nat): (r: nat)
    requires p > 0
    ensures r < p && r <= w
  {
    LowFits(w, p);
    w % p
  }

  function DropLow(w: nat, p: nat): (r: nat)
    requires p > 0
  {
    w - Low(w, p)
  }

  lemma LowFits(w: nat, p: nat)
    requires p > 0
    ensures w % p <= w
  {
    if w < p { DivisionIsUnique(w, p, 0, w); }
  }

  lemma DropLowAligned(w: nat, p: nat)
    requires p > 0
    ensures DropLow(w, p) == p * Shift(w, p) && DropLow(w, p) % p == 0
  {
    MultipleDivides(p, w / p);
  }

  datatype Fault = BadAddress | BadAccess | PageFault
  datatype Answer = Physical(paddr: nat) | Exception(fault: Fault)

  // The page-table registers: base, L2 bits << 16 | L1 bits, number of first-level entries.
  datatype Registers = Registers(base: nat, bits: nat, size: nat) {
    function L1(): nat { bits % 0x1_0000 }
    function L2(): nat { bits / 0x1_0000 % 0x1_0000 }
    predicate Meaningful() { L2() <= L1() < 32 }
  }

  function EntryAddress(base: nat, n: nat): nat { (base + 4 * n) % WORD_RANGE }

  // ---- Reference: one array of entries, one lookup ----

  // The two-level table at these registers, written out as one array of pages.
  function FlatTable(words: nat -> nat, r: Registers): (flat: seq<nat>)
    requires r.Meaningful()
    ensures |flat| == r.size * Pow2(r.L1() - r.L2())
  {
    seq(r.size * Pow2(r.L1() - r.L2()), n requires 0 <= n => FlatEntry(words, r, n))
  }

  function FlatEntry(words: nat -> nat, r: Registers, n: nat): (entry: nat)
    requires r.Meaningful()
  {
    var fan := Pow2(r.L1() - r.L2());
    if r.L1() == r.L2() then words(EntryAddress(r.base, n))
    else
      var second := words(EntryAddress(r.base, Shift(n, fan)));
      if second == 0 then 0 else words(EntryAddress(second, Low(n, fan)))
  }

  function Lookup(flat: seq<nat>, p: nat, vaddr: nat): (a: Answer)
    requires p > 0
  {
    var page := vaddr / p;
    if vaddr % 4 != 0 then Exception(BadAddress)
    else if page >= |flat| then Exception(BadAccess)
    else if flat[page] % 2 == 0 then Exception(PageFault)
    else Physical(flat[page] / p * p + vaddr % p)
  }

  // ---- The processor's walk ----

  // Where the walk finds the entry of an address, if it gets that far.
  function WalkEntry(words: nat -> nat, r: Registers, vaddr: nat): (at: Answer)
    requires r.Meaningful()
  {
    if vaddr % 4 != 0 then Exception(BadAddress)
    else
      var page := DropLow(vaddr, Pow2(r.L2()));
      var first := Shift(page, Pow2(r.L1()));
      if first >= r.size then Exception(BadAccess)
      else if r.L1() == r.L2() then Physical(EntryAddress(r.base, first))
      else
        var second := words(EntryAddress(r.base, first));
        if second == 0 then Exception(PageFault)
        else Physical(EntryAddress(second, Low(Shift(page, Pow2(r.L2())), Pow2(r.L1() - r.L2()))))
  }

  function Walk(words: nat -> nat, r: Registers, vaddr: nat): (a: Answer)
    requires r.Meaningful()
  {
    match WalkEntry(words, r, vaddr)
    case Exception(f) => Exception(f)
    case Physical(at) =>
      if words(at) % 2 == 0 then Exception(PageFault)
      else Physical(Or(DropLow(words(at), Pow2(r.L2())), Low(vaddr, Pow2(r.L2()))))
  }

  // p is the page size, d the number of pages a first-level entry covers.
  lemma PageArithmetic(vaddr: nat, p: nat, d: nat, size: nat)
    requires p > 0 && d > 0
    ensures p * d > 0
    ensures Shift(DropLow(vaddr, p), p) == Shift(vaddr, p)
    ensures Shift(DropLow(vaddr, p), p * d) == Shift(Shift(vaddr, p), d)
    ensures Shift(vaddr, p) < size * d <==> Shift(Shift(vaddr, p), d) < size
  {
    AtLeast(p, d);
    var n := vaddr / p;
    DropLowAligned(vaddr, p);
    MultipleDivides(p, n);
    var q, r := n / d, n % d;
    ThreeFactors(p, d, q, r);
    SmallProduct(p, r, d);
    DivisionIsUnique(p * n, p * d, q, p * r);
    QuotientBound(n, d, size);
  }

  lemma ThreeFactors(p: nat, d: nat, q: nat, r: nat)
    ensures p * (d * q + r) == (p * d) * q + p * r
  {
    Distribute(p, d * q, r);
    assert p * (d * q) == (p * d) * q;
  }

  lemma SmallProduct(p: nat, r: nat, d: nat)
    requires p > 0 && r < d
    ensures p * r < p * d
  {
    Distribute(p, r, d - r);
    AtLeast(p, d - r);
  }

  lemma QuotientBound(n: nat, d: nat, size: nat)
    requires d > 0
    ensures n < size * d <==> n / d < size
  {
    var q, r := n / d, n % d;
    assert n == d * q + r;
    if q < size { SmallMultiple(d, q, size); } else { Distribute(d, size, q - size); assert d * (q - size) >= 0; }
  }

  lemma SmallMultiple(d: nat, q: nat, size: nat)
    requires q < size
    ensures d * q + d <= size * d
  {
    Distribute(d, q, size - q);
    AtLeast(d, size - q);
  }

  // The entry the walk ends at is the entry of that page in the flat table.
  lemma WalkEndsAtFlatEntry(words: nat -> nat, r: Registers, vaddr: nat)
    requires r.Meaningful() && vaddr % 4 == 0
    ensures var at, n := WalkEntry(words, r, vaddr), Shift(vaddr, Pow2(r.L2()));
      && (n < r.size * Pow2(r.L1() - r.L2()) <==> at != Exception(BadAccess))
      && (at.Physical? ==> words(at.paddr) == FlatEntry(words, r, n))
      && (at.Exception? ==> at.fault == BadAccess || (at.fault == PageFault && FlatEntry(words, r, n) == 0))
  {
    hide Shift, Low, Pow2, DropLow, EntryAddress, Registers.L1, Registers.L2;
    var p, d := Pow2(r.L2()), Pow2(r.L1() - r.L2());
    PageArithmetic(vaddr, p, d, r.size);
    Pow2Add(r.L2(), r.L1() - r.L2());
    if r.L1() == r.L2() {
      Pow2Table();
      NoSecondLevel(Shift(vaddr, p), d);
    }
  }

  /** For any page size and any one- or two-level split, the walk is a lookup of the page number
      in the flat table, with the offset kept. */
  lemma WalkIsLookup(words: nat -> nat, r: Registers, vaddr: nat)
    requires r.Meaningful()
    ensures Walk(words, r, vaddr) == Lookup(FlatTable(words, r), Pow2(r.L2()), vaddr)
  {
    hide Or, Shift, Low, Pow2, DropLow, WalkEntry, FlatEntry, Registers.L1, Registers.L2;
    if vaddr % 4 == 0 {
      var p := Pow2(r.L2());
      WalkEndsAtFlatEntry(words, r, vaddr);
      InArithmetic(vaddr, p);
      var at := WalkEntry(words, r, vaddr);
      if at.Physical? {
        DropLowAligned(words(at.paddr), p);
        InArithmetic(words(at.paddr), p);
        OrAdds(DropLow(words(at.paddr), p), Low(vaddr, p), r.L2());
      }
    } else {
      MisalignedHasNoEntry(words, r, vaddr);
    }
  }

  lemma InArithmetic(w: nat, p: nat)
    requires p > 0
    ensures Shift(w, p) == w / p && Low(w, p) == w % p && DropLow(w, p) == w / p * p
  {
    DropLowAligned(w, p);
  }

  lemma MisalignedHasNoEntry(words: nat -> nat, r: Registers, vaddr: nat)
    requires r.Meaningful() && vaddr % 4 != 0
    ensures WalkEntry(words, r, vaddr) == Exception(BadAddress)
  {
  }

  lemma NoSecondLevel(n: nat, d: nat)
    requires d > 0
    ensures d == 1 ==> Shift(n, d) == n
  {
  }

  // ---- Tables laid out in memory ----

  // Entry i of a one-level table is the word 4 * i bytes behind its base.
  ghost predicate OneLevelAt(words: nat -> nat, base: nat, t: seq<nat>) {
    forall i: nat :: i < |t| ==> words((base + 4 * i) % 0x1_0000_0000) == t[i]
  }

  // Word i of the first level points to a table of its own, with the entries of `fan` pages, or is 0 if there is none.
  ghost predicate TwoLevelsAt(words: nat -> nat, base: nat, size: nat, fan: nat, t: seq<nat>)
    requires fan > 0
  {
    && |t| == size * fan
    && forall n: nat :: n < |t| ==>
         t[n] == SecondLevel(words, words((base + 4 * (n / fan)) % 0x1_0000_0000), n % fan)
  }

  function SecondLevel(words: nat -> nat, second: nat, j: nat): (entry: nat) {
    if second == 0 then 0 else words((second + 4 * j) % 0x1_0000_0000)
  }

  lemma RegistersMean(base: nat, l1: nat, l2: nat, size: nat)
    requires l2 <= l1 < 32
    ensures var r := Registers(base, l2 * 0x1_0000 + l1, size); r.Meaningful() && r.L1() == l1 && r.L2() == l2
  {
  }

  /** The walk, for pages of 2^bits bytes, is a lookup in the one table at the base register. */
  lemma WalkOfOneLevel(words: nat -> nat, base: nat, bits: nat, t: seq<nat>, vaddr: nat)
    requires bits < 32 && OneLevelAt(words, base, t)
    ensures var r := Registers(base, bits * 0x1_0000 + bits, |t|);
            r.Meaningful() && Walk(words, r, vaddr) == Lookup(t, Pow2(bits), vaddr)
  {
    hide Shift, Low, DropLow, Walk, Lookup, Registers.L1, Registers.L2;
    var r := Registers(base, bits * 0x1_0000 + bits, |t|);
    RegistersMean(base, bits, bits, |t|);
    WalkIsLookup(words, r, vaddr);
    var flat := FlatTable(words, r);
    forall i: nat | i < |t| ensures flat[i] == t[i] {}
    assert flat == t;
  }

  /** And with two levels it is a lookup in the second-level tables, one behind the other. */
  lemma WalkOfTwoLevels(words: nat -> nat, base: nat, l1: nat, l2: nat, size: nat, t: seq<nat>, vaddr: nat)
    requires l2 < l1 < 32 && TwoLevelsAt(words, base, size, Pow2(l1 - l2), t)
    ensures var r := Registers(base, l2 * 0x1_0000 + l1, size);
            r.Meaningful() && Walk(words, r, vaddr) == Lookup(t, Pow2(l2), vaddr)
  {
    hide Shift, Low, DropLow, Walk, Lookup, Registers.L1, Registers.L2, Pow2;
    var r := Registers(base, l2 * 0x1_0000 + l1, size);
    RegistersMean(base, l1, l2, size);
    WalkIsLookup(words, r, vaddr);
    var flat, fan := FlatTable(words, r), Pow2(l1 - l2);
    forall n: nat | n < |t| ensures flat[n] == t[n] {
      InArithmetic(n, fan);
    }
    assert flat == t;
  }

  // ---- The processor ----

  // The page-table registers and the memory of the simulated machine. The device addresses above
  // memory and the flag bits a reference leaves in an entry are parameters.
  class Cpu {
    var regs: Registers
    var words: nat -> nat
    var faultAddress: nat
    var raised: seq<Fault>
    const memorySize: nat
    const ioBase: nat
    const ioSize: nat

    constructor (regs: Registers, words: nat -> nat, memorySize: nat, ioBase: nat, ioSize: nat)
      ensures this.regs == regs && this.words == words && raised == []
      ensures this.memorySize == memorySize && this.ioBase == ioBase && this.ioSize == ioSize
    {
      this.regs, this.words, this.raised, this.faultAddress := regs, words, [], 0;
      this.memorySize, this.ioBase, this.ioSize := memorySize, ioBase, ioSize;
    }

    method CauseException(fault: Fault)
      modifies `raised
      ensures raised == old(raised) + [fault]
    {
      raised := raised + [fault];
    }

    // translating: page tables are on and the mode of this access goes through them.
    method VaddrToPaddr(vaddr: nat, translating: bool, marks: nat) returns (ok: bool, paddr: nat)
      requires regs.Meaningful()
      modifies `words, `faultAddress, `raised
      ensures translating && ok ==> Walk(old(words), regs, vaddr) == Physical(paddr)
      ensures translating && !ok ==>
        Walk(old(words), regs, vaddr).Exception? && raised == old(raised) + [Walk(old(words), regs, vaddr).fault]
      ensures translating && !ok && raised[|raised| - 1] == PageFault ==>
        faultAddress == vaddr - vaddr % Pow2(regs.L2())
      ensures faultAddress == old(faultAddress) || (!ok && |raised| > 0 && raised[|raised| - 1] == PageFault)
      ensures !translating ==> (ok <==>
        vaddr % 4 == 0 && (vaddr <= memorySize || ioBase <= vaddr <= ioBase + ioSize))
      ensures !translating && ok ==> paddr == vaddr
      ensures ok ==> raised == old(raised)
      // Memory changes only where the walk found the entry of a translated address.
      ensures forall a: nat ::
        (words(a) == if ok && translating && WalkEntry(old(words), regs, vaddr) == Physical(a)
                     then Or(old(words)(a), marks) else old(words)(a))
    {
      ok, paddr := false, 0;
      if vaddr % 4 != 0 {
        CauseException(BadAddress);
        return;
      }
      if !translating {
        if vaddr <= memorySize || (ioBase <= vaddr && vaddr <= ioBase + ioSize) {
          return true, vaddr;
        }
        CauseException(BadAccess);
        return;
      }
      var l1, l2 := regs.L1(), regs.L2();
      var offset := Low(vaddr, Pow2(l2));
      var page := DropLow(vaddr, Pow2(l2));
      var first := Shift(page, Pow2(l1));
      if first >= regs.size {
        CauseException(BadAccess);
        return;
      }
      var entryAddress := EntryAddress(regs.base, first);
      var entry := words(entryAddress);
      if l1 != l2 {
        if entry == 0 {
          faultAddress := page;
          CauseException(PageFault);
          return;
        }
        entryAddress := EntryAddress(entry, Low(Shift(page, Pow2(l2)), Pow2(l1 - l2)));
        entry := words(entryAddress);
      }
      if entry % 2 == 0 {
        faultAddress := page;
        CauseException(PageFault);
        return;
      }
      if marks != 0 {
        var before, marked := words, Or(entry, marks);
        words := a => if a == entryAddress then marked else before(a);
      }
      ok, paddr := true, Or(DropLow(entry, Pow2(l2)), offset);
    }
  }

  // ---- The kernel's translation ----

  function TranslateUserToSystem(t: Spaces.Table, isSystem: bool, addr: nat): (pa: nat) {
    var offset := addr % 4096;
    var page := addr / 4096 % 256;
    var frame := t[page] - t[page] % 8;
    if isSystem then addr else Or(frame, offset)
  }

  // The page-table registers every process is created with.
  function ForkRegisters(base: nat): Registers {
    Registers(base, PAGE_BITS * 0x1_0000 + PAGE_BITS, Spaces.PT_SIZE)
  }

  ghost predicate TableAt(words: nat -> nat, base: nat, t: Spaces.Table) {
    OneLevelAt(words, base, t)
  }

  // An entry holds a frame's address, with flags in the low three bits at most.
  ghost predicate FlagsFit(t: Spaces.Table) {
    forall i: nat :: i < Spaces.PT_SIZE ==> t[i] % PAGE_BYTES < 8
  }

  lemma PageOf4096()
    ensures Pow2(PAGE_BITS) == PAGE_BYTES == 4096
  {
    Pow2Table();
    Pow2Add(6, 6);
  }

  lemma ForkRegistersMean(base: nat)
    ensures ForkRegisters(base).Meaningful()
    ensures ForkRegisters(base).L1() == PAGE_BITS && ForkRegisters(base).L2() == PAGE_BITS
  {
  }

  // With those registers the walk is one lookup in the process's table.
  lemma WalkOfProcess(words: nat -> nat, base: nat, t: Spaces.Table, vaddr: nat)
    requires TableAt(words, base, t)
    ensures ForkRegisters(base).Meaningful()
    ensures Walk(words, ForkRegisters(base), vaddr) == Lookup(t, PAGE_BYTES, vaddr)
  {
    hide Pow2, Walk, OneLevelAt, Lookup;
    WalkOfOneLevel(words, base, PAGE_BITS, t, vaddr);
    PageOf4096();
  }

  /** The processor translates a user address exactly when it is word-aligned, below the size of the
      virtual space and its entry is valid, and otherwise raises the exception of the first of these that fails; where
      it translates, the kernel comes to the same byte. */
  lemma TranslationsAgree(words: nat -> nat, base: nat, t: Spaces.Table, vaddr: nat)
    requires TableAt(words, base, t) && FlagsFit(t)
    ensures ForkRegisters(base).Meaningful()
    ensures var cpu := Walk(words, ForkRegisters(base), vaddr);
      && (cpu == Exception(BadAddress) <==> vaddr % 4 != 0)
      && (cpu == Exception(BadAccess) <==> vaddr % 4 == 0 && vaddr >= 0x10_0000)
      && (cpu == Exception(PageFault) <==> vaddr % 4 == 0 && vaddr < 0x10_0000 && t[vaddr / 4096] % 2 == 0)
      && (cpu.Physical? <==> vaddr % 4 == 0 && vaddr < 0x10_0000 && t[vaddr / 4096] % 2 == 1)
      && (cpu.Physical? ==> cpu.paddr == TranslateUserToSystem(t, false, vaddr))
  {
    hide Or, Walk, DropLow, TranslateUserToSystem, FlagsFit, TableAt;
    WalkOfProcess(words, base, t, vaddr);
    PageAndOffset(vaddr);
    KernelAddress(t, vaddr);
    InArithmetic(t[vaddr / 4096 % 256], 4096);
  }

  lemma PageAndOffset(v: nat)
    ensures v < VIRTUAL_SIZE <==> v / 4096 < Spaces.PT_SIZE
    ensures v < VIRTUAL_SIZE ==> v / 4096 % 256 == v / 4096
  {
  }

  // The kernel keeps the offset and replaces the page by its frame.
  lemma KernelAddress(t: Spaces.Table, addr: nat)
    requires FlagsFit(t)
    ensures TranslateUserToSystem(t, false, addr) == t[addr / 4096 % 256] / 4096 * 4096 + addr % 4096
    ensures TranslateUserToSystem(t, true, addr) == addr
  {
    hide Or;
    var entry := t[addr / 4096 % 256];
    assert entry % PAGE_BYTES < 8;
    assert entry - entry % 8 == DropLow(entry, 4096);
    PageOf4096();
    OrAdds(DropLow(entry, 4096), addr % 4096, PAGE_BITS);
    InArithmetic(entry, 4096);
  }

  /** Where the two differ: the kernel wraps addresses past the virtual space, takes any alignment,
      and gives an unmapped page the bare offset, so only a page's first byte comes out as zero. */
  lemma KernelAcceptsMore(t: Spaces.Table, addr: nat)
    requires FlagsFit(t)
    ensures TranslateUserToSystem(t, false, addr) == TranslateUserToSystem(t, false, addr % VIRTUAL_SIZE)
    ensures TranslateUserToSystem(t, false, addr) == 0 <==>
      t[addr / 4096 % 256] < 8 && addr % 4096 == 0
  {
    hide Or, DropLow, TranslateUserToSystem, FlagsFit;
    KernelAddress(t, addr);
    KernelAddress(t, addr % VIRTUAL_SIZE);
    WrappedPage(addr);
    FlagsOf(t, addr / 4096 % 256);
    ZeroAddress(t[addr / 4096 % 256], addr % 4096);
  }

  lemma FlagsOf(t: Spaces.Table, i: nat)
    requires FlagsFit(t) && i < Spaces.PT_SIZE
    ensures t[i] % 4096 < 8
  {
  }

  lemma WrappedPage(addr: nat)
    ensures addr % VIRTUAL_SIZE / 4096 % 256 == addr / 4096 % 256 && addr % VIRTUAL_SIZE % 4096 == addr % 4096
  {
    var k := addr / VIRTUAL_SIZE;
    assert addr == VIRTUAL_SIZE * k + addr % VIRTUAL_SIZE;
    assert addr / 4096 == 256 * k + addr % VIRTUAL_SIZE / 4096;
  }

  lemma ZeroAddress(entry: nat, offset: nat)
    requires entry % 4096 < 8
    ensures DropLow(entry, 4096) + offset == 0 <==> entry < 8 && offset == 0
  {
  }

  /** No two processes reach the same byte, and no process reaches one byte at two addresses: over
      every run that creates, ends and marks address spaces, the processor's translation is injective
      on pairs of process and address. */
  lemma ProcessesShareNoMemory(m: Spaces.Memory, lastPage: nat, es: seq<Spaces.Event>,
                               p: nat, v: nat, q: nat, u: nat)
    requires Spaces.Starts(m, lastPage) && Spaces.Allowed(Spaces.Booted(m, lastPage), es)
    requires p < Spaces.PROCS && q < Spaces.PROCS
    ensures var s := Spaces.Run(Spaces.Booted(m, lastPage), es);
      && p in s.live && q in s.live
      && Lookup(s.memory.tables[p], PAGE_BYTES, v).Physical?
      && Lookup(s.memory.tables[q], PAGE_BYTES, u) == Lookup(s.memory.tables[p], PAGE_BYTES, v)
      ==> p == q && u == v
  {
    hide Spaces.Run, Spaces.Booted, Spaces.Allowed, Spaces.Starts, UsedFrames;
    var s := Spaces.Run(Spaces.Booted(m, lastPage), es);
    var i, j := v / 4096, u / 4096;
    if p in s.live && q in s.live && i < Spaces.PT_SIZE && j < Spaces.PT_SIZE {
      if p != q || i != j { Spaces.AddressSpacesAreIsolated(m, lastPage, es, p, i, q, j); }
      SameByteSameFrame(s.memory.tables[p], v, s.memory.tables[q], u);
    }
  }

  // What the processor answers a process whose table lies at this address: 256 entries for pages of 2^12 bytes each.
  function UserWalk(words: nat -> nat, base: nat, v: nat): (a: Answer) {
    RegistersMean(base, 12, 12, 256);
    Walk(words, Registers(base, 0xC_000C, 256), v)
  }

  // The addresses of the seven pages: code and data with the heap behind it, and the stack at the top.
  predicate InThePages(v: nat) { v < 0x6000 || 0xF_F000 <= v < 0x10_0000 }

  // The table of process p lies at this address.
  ghost predicate TableOf(s: Spaces.Session, p: nat, words: nat -> nat, base: nat) {
    p < |s.memory.tables| && TableAt(words, base, s.memory.tables[p])
  }

  // In a sound session the walk succeeds on exactly these pages of a live process.
  lemma SlotsTranslate(s: Spaces.Session, p: nat, words: nat -> nat, base: nat, v: nat)
    requires Spaces.Sound(s) && p in s.live && TableOf(s, p, words, base)
    ensures var a := UserWalk(words, base, v);
      && (a.Physical? <==> v % 4 == 0 && InThePages(v))
      && (a.Physical? ==> a.paddr / 4096 == Spaces.Frame(s.memory, p, v / 4096) && a.paddr % 4096 == v % 4096)
  {
    hide Walk, TableAt, Spaces.Isolated, Spaces.TablesNameFrames, Spaces.Owned, UsedFrames;
    assert Spaces.Slotted(s.memory, p);
    WalkOfProcess(words, base, s.memory.tables[p], v);
    PageAndOffset(v);
  }

  /** A new process can run at once: the processor finds every aligned address of its seven pages, each page in a frame
      that was free before the fork. */
  lemma NewPagesTranslate(s: Spaces.Session, p: nat, words: nat -> nat, base: nat, v: nat)
    requires Spaces.Sound(s) && Spaces.Counted(s) && Spaces.Possible(s, Spaces.Fork(p))
    requires TableOf(Spaces.After(s, Spaces.Fork(p)), p, words, base)
    requires v % 4 == 0 && InThePages(v)
    ensures var a := UserWalk(words, base, v);
      a.Physical? && a.paddr / 4096 !in UsedFrames(s.memory.bits) && a.paddr % 4096 == v % 4096
  {
    hide UserWalk, TableOf, Spaces.Sound, Spaces.Counted, Spaces.Forked, UsedFrames, Spaces.FirstFree;
    Spaces.StepKeeps(s, Spaces.Fork(p));
    SlotsTranslate(Spaces.After(s, Spaces.Fork(p)), p, words, base, v);
    Spaces.ForkOwners(s, p);
    PageAndOffset(v);
  }

  /** And it stays so, over every run of forks, endings and marks that the processor sets: a live process reaches the
      aligned addresses of its seven pages and no others. */
  lemma LivePagesTranslate(m: Spaces.Memory, lastPage: nat, es: seq<Spaces.Event>, p: nat,
                           words: nat -> nat, base: nat, v: nat)
    requires Spaces.Starts(m, lastPage) && Spaces.Allowed(Spaces.Booted(m, lastPage), es)
    requires TableOf(Spaces.Run(Spaces.Booted(m, lastPage), es), p, words, base)
    ensures var s := Spaces.Run(Spaces.Booted(m, lastPage), es);
      p in s.live ==> (UserWalk(words, base, v).Physical? <==> v % 4 == 0 && InThePages(v))
  {
    hide Spaces.Run, Spaces.Booted, Spaces.Allowed, Spaces.Starts, Spaces.Sound, UsedFrames, UserWalk, TableOf;
    var s := Spaces.Run(Spaces.Booted(m, lastPage), es);
    if p in s.live { SlotsTranslate(s, p, words, base, v); }
  }

  // ---- Flags in the low three bits ----

  ghost predicate AllFit(m: Spaces.Memory) {
    forall p: nat :: p < |m.tables| ==> FlagsFit(m.tables[p])
  }

  ghost predicate SmallMarks(es: seq<Spaces.Event>) {
    forall k :: 0 <= k < |es| && es[k].Touch? ==> es[k].marks < 8
  }

  lemma MarkedFits(entry: nat, marks: nat)
    requires entry % PAGE_BYTES < 8 && marks < 8
    ensures Or(entry, marks) % PAGE_BYTES < 8
  {
    hide Or, Pow2;
    Pow2Table();
    OrKeepsAbove(entry, marks, 3);
    OnlyLowBits(entry);
    OnlyLowBits(Or(entry, marks));
  }

  lemma OnlyLowBits(w: nat)
    ensures w % PAGE_BYTES < 8 <==> w / 8 % 512 == 0
  {
  }

  lemma StepFits(s: Spaces.Session, e: Spaces.Event)
    requires Spaces.Sound(s) && Spaces.Possible(s, e) && AllFit(s.memory) && (e.Touch? ==> e.marks < 8)
    ensures AllFit(Spaces.After(s, e).memory)
  {
    hide Spaces.Isolated, Spaces.Slotted, Spaces.Owned, Spaces.Forked, Spaces.Freed, Spaces.FirstFree, UsedFrames, Or,
      Spaces.Frame, FlagsFit;
    var t := Spaces.After(s, e);
    if e.Fork? { Spaces.ForkOwners(s, e.pcb); }
    if e.End? {
      assert Spaces.NamesFrames(s.memory.tables[e.pcb]);
      EndLeavesTables(s.memory, e.pcb);
    }
    forall q: nat | q < |t.memory.tables| ensures FlagsFit(t.memory.tables[q]) {
      assert FlagsFit(s.memory.tables[q]);
      if e.Fork? && q == e.pcb {
        ForkFits(s.memory, t.memory, q, Spaces.FirstFree(s.memory.bits));
      } else if e.Touch? && q == e.pcb {
        TouchFits(s.memory.tables[q], e.page, e.marks);
      }
    }
  }

  lemma EndLeavesTables(m: Spaces.Memory, p: nat)
    requires Spaces.Shaped(m) && p < Spaces.PROCS && Spaces.NamesFrames(m.tables[p])
    ensures Spaces.Freed(m, p).tables == m.tables
  {
  }

  lemma TouchFits(t: Spaces.Table, i: nat, marks: nat)
    requires FlagsFit(t) && i < Spaces.PT_SIZE && marks < 8
    ensures FlagsFit(t[i := Or(t[i], marks)])
  {
    hide Or;
    assert t[i] % PAGE_BYTES < 8;
    MarkedFits(t[i], marks);
  }

  lemma ForkFits(m: Spaces.Memory, r: Spaces.Memory, p: nat, stack: nat)
    requires Spaces.Shaped(m) && Spaces.Shaped(r) && p < Spaces.PROCS && Spaces.ForkTakes(m, r, p, stack)
    requires FlagsFit(m.tables[p])
    ensures FlagsFit(r.tables[p])
  {
    hide UsedFrames, Spaces.Frame, Spaces.Names;
    forall i: nat | i < Spaces.PT_SIZE ensures r.tables[p][i] % PAGE_BYTES < 8 {
      assert m.tables[p][i] % PAGE_BYTES < 8;
      if i !in Spaces.Slots() { assert r.tables[p][i] == m.tables[p][i]; } else { assert Spaces.IsSlot(i); }
    }
  }

  lemma {:induction false} RunFits(s: Spaces.Session, es: seq<Spaces.Event>)
    requires Spaces.Sound(s) && Spaces.Counted(s) && Spaces.Allowed(s, es) && AllFit(s.memory) && SmallMarks(es)
    ensures AllFit(Spaces.Run(s, es).memory)
    decreases |es|
  {
    hide Spaces.Sound, Spaces.Counted, Spaces.Possible, Spaces.After, AllFit;
    if es != [] {
      StepFits(s, es[0]);
      Spaces.StepKeeps(s, es[0]);
      assert SmallMarks(es[1..]) by { LaterMarksAreSmall(es); }
      RunFits(Spaces.After(s, es[0]), es[1..]);
    }
  }

  lemma LaterMarksAreSmall(es: seq<Spaces.Event>)
    requires SmallMarks(es) && es != []
    ensures SmallMarks(es[1..])
  {
    forall k | 0 <= k < |es[1..]| && es[1..][k].Touch? ensures es[1..][k].marks < 8 {
      assert es[k + 1].Touch? && es[k + 1].marks < 8;
    }
  }

  /** So while the processor marks entries in their low three bits, it and the kernel agree on every address of every
      table, over every run. */
  lemma FlagsStayFit(m: Spaces.Memory, lastPage: nat, es: seq<Spaces.Event>, p: nat)
    requires Spaces.Starts(m, lastPage) && Spaces.Allowed(Spaces.Booted(m, lastPage), es) && SmallMarks(es)
    ensures var s := Spaces.Run(Spaces.Booted(m, lastPage), es);
      p < |s.memory.tables| ==> FlagsFit(s.memory.tables[p])
  {
    hide Spaces.Run, Spaces.Allowed, Spaces.Sound, Spaces.Counted;
    var s := Spaces.Booted(m, lastPage);
    RunFits(s, es);
  }

  lemma SameByteSameFrame(t: Spaces.Table, v: nat, r: Spaces.Table, u: nat)
    requires v / 4096 < Spaces.PT_SIZE && u / 4096 < Spaces.PT_SIZE
    ensures Lookup(t, PAGE_BYTES, v).Physical?
            && Lookup(r, PAGE_BYTES, u) == Lookup(t, PAGE_BYTES, v) ==>
      && t[v / 4096] != 0 && r[u / 4096] != 0 && v % 4096 == u % 4096
      && t[v / 4096] / PAGE_BYTES == r[u / 4096] / PAGE_BYTES
  {
    if t[v / 4096] / 4096 * 4096 + v % 4096 == r[u / 4096] / 4096 * 4096 + u % 4096 {
      SameFrame(t[v / 4096], v % 4096, r[u / 4096], u % 4096);
    }
  }

  lemma SameFrame(e: nat, a: nat, f: nat, b: nat)
    requires a < 4096 && b < 4096 && e / 4096 * 4096 + a == f / 4096 * 4096 + b
    ensures e / PAGE_BYTES == f / PAGE_BYTES && a == b
  {
  }
}
