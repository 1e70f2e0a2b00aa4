/** The memory side of creating and ending a process: which frames the page tables name. */
module AddressSpaces {
  import opened Powers
  import opened Frames

  const PROCS: nat := 32
  const PT_SIZE: nat := 256

  type Table = t: seq<nat> | |t| == PT_SIZE witness seq(PT_SIZE, _ => 0)

  datatype Memory = Memory(bits: seq<Word>, tables: seq<Table>)

  ghost predicate Shaped(m: Memory) {
    IsMap(m.bits) && |m.tables| == PROCS
  }

  // ---- Free frames ----

  function FirstFreeFrom(s: seq<Word>, f: nat): (r: nat)
    requires |s| == WORDS && f <= FRAMES
    ensures f <= r <= FRAMES
    ensures forall g: nat :: f <= g < r ==> InUse(s, g)
    ensures r < FRAMES ==> !InUse(s, r)
    decreases FRAMES - f
  {
    if f == FRAMES || !InUse(s, f) then f else FirstFreeFrom(s, f + 1)
  }

  function FirstFree(s: seq<Word>): (r: nat)
    requires |s| == WORDS
  {
    FirstFreeFrom(s, 0)
  }

  ghost function Below(n: nat): (r: set<nat>)
    ensures forall f: nat :: f in r <==> f < n
    ensures |r| == n
  {
    if n == 0 then {} else Below(n - 1) + {n - 1}
  }

  lemma SubsetSize(a: set<nat>, b: set<nat>)
    requires a <= b
    ensures |a| <= |b|
    ensures |a| == |b| ==> a == b
  {
    assert b == a + (b - a);
    assert |b| == |a| + |b - a|;
  }

  ghost function Spare(s: seq<Word>): (r: nat)
    requires IsMap(s)
    ensures r == FRAMES - |UsedFrames(s)|
  {
    SubsetSize(UsedFrames(s), Below(FRAMES));
    FRAMES - |UsedFrames(s)|
  }

  // While a frame is spare, the search finds the least one, and marking it uses one up.
  lemma FirstFreeIsFree(s: seq<Word>)
    requires IsMap(s) && Spare(s) > 0
    ensures IsLeastFree(s, FirstFree(s)) && FirstFree(s) !in UsedFrames(s)
    ensures Spare(Mark(s, FirstFree(s))) == Spare(s) - 1
  {
    hide InUse, Mark;
    var f := FirstFree(s);
    if f == FRAMES {
      forall g: nat | g < FRAMES ensures g in UsedFrames(s) {}
      SubsetSize(Below(FRAMES), UsedFrames(s));
      assert false;
    }
    MarkAdds(s, f);
    assert f !in UsedFrames(s);
  }

  lemma {:induction false} LeastFreeIsFirst(s: seq<Word>, f: nat, from: nat)
    requires IsMap(s) && IsLeastFree(s, f) && from <= f
    ensures FirstFreeFrom(s, from) == f
    decreases f - from
  {
    hide InUse;
    if from < f { LeastFreeIsFirst(s, f, from + 1); }
  }

  lemma LeastIsFirstFree(s: seq<Word>, f: nat)
    requires IsMap(s) && IsLeastFree(s, f)
    ensures FirstFree(s) == f
  {
    LeastFreeIsFirst(s, f, 0);
  }

  // ---- Creating and ending ----

  function TakeFrame(m: Memory): (r: Memory)
    requires |m.bits| == WORDS && FirstFree(m.bits) < FRAMES
    ensures r.tables == m.tables && |r.bits| == WORDS
  {
    m.(bits := Mark(m.bits, FirstFree(m.bits)))
  }

  function MapPage(m: Memory, p: nat, i: nat): (r: Memory)
    requires |m.bits| == WORDS && |m.tables| == PROCS && FirstFree(m.bits) < FRAMES && p < PROCS && i < PT_SIZE
    ensures |r.bits| == WORDS && |r.tables| == PROCS
  {
    Memory(Mark(m.bits, FirstFree(m.bits)), m.tables[p := m.tables[p][i := EntryOf(FirstFree(m.bits), 1)]])
  }

  // The pages every process starts with: user stack, five pages of code and data, the heap.
  function Slots(): seq<nat> { [255, 0, 1, 2, 3, 4, 5] }

  predicate IsSlot(i: nat) { i <= 5 || i == 255 }

  predicate AreSlots(slots: seq<nat>) {
    forall k :: 0 <= k < |slots| ==> slots[k] < PT_SIZE
  }

  ghost function MapPages(m: Memory, p: nat, slots: seq<nat>): (r: Memory)
    requires Shaped(m) && p < PROCS && AreSlots(slots) && |slots| <= Spare(m.bits)
    ensures Shaped(r)
    decreases |slots|
  {
    if slots == [] then m
    else (FirstFreeIsFree(m.bits); MapPages(MapPage(m, p, slots[0]), p, slots[1..]))
  }

  // The system stack's frame is taken first; no table names it.
  ghost function Forked(m: Memory, p: nat): (r: Memory)
    requires Shaped(m) && p < PROCS && Spare(m.bits) >= 8
    ensures Shaped(r)
  {
    FirstFreeIsFree(m.bits);
    MapPages(TakeFrame(m), p, Slots())
  }

  ghost predicate NamesFrames(t: Table) {
    forall i: nat :: i < PT_SIZE ==> t[i] / PAGE_BYTES < FRAMES
  }

  function ClearFrom(s: seq<Word>, t: Table, i: nat): (r: seq<Word>)
    requires |s| == WORDS && i <= PT_SIZE
    requires forall j: nat :: j < PT_SIZE ==> t[j] / PAGE_BYTES < FRAMES
    ensures |r| == WORDS
    decreases PT_SIZE - i
  {
    if i == PT_SIZE then s
    else ClearFrom(if t[i] == 0 then s else Clear(s, t[i] / PAGE_BYTES), t, i + 1)
  }

  // Every frame the table names is freed; the table itself stays as it is.
  ghost function Freed(m: Memory, p: nat): (r: Memory)
    requires Shaped(m) && p < PROCS && NamesFrames(m.tables[p])
    ensures Shaped(r)
  {
    m.(bits := ClearFrom(m.bits, m.tables[p], 0))
  }

  // ---- What these do to the frames in use ----

  function Frame(m: Memory, p: nat, i: nat): nat
    requires p < |m.tables| && i < PT_SIZE
  {
    m.tables[p][i] / PAGE_BYTES
  }

  ghost predicate SameElsewhere(m: Memory, r: Memory, p: nat, slots: seq<nat>)
    requires Shaped(m) && Shaped(r) && p < PROCS
  {
    && (forall q: nat :: q < PROCS && q != p ==> r.tables[q] == m.tables[q])
    && (forall i: nat :: i < PT_SIZE && i !in slots ==> r.tables[p][i] == m.tables[p][i])
  }

  // The listed pages now name frames that were free, each its own, and nothing else has changed.
  lemma {:induction false} MapPagesTakes(m: Memory, p: nat, slots: seq<nat>)
    requires Shaped(m) && p < PROCS && AreSlots(slots) && |slots| <= Spare(m.bits)
    requires forall j, k :: 0 <= j < k < |slots| ==> slots[j] != slots[k]
    ensures var r := MapPages(m, p, slots);
      && SameElsewhere(m, r, p, slots)
      && Spare(r.bits) == Spare(m.bits) - |slots|
      && (forall i: nat :: i in slots ==>
            && i < PT_SIZE && r.tables[p][i] % PAGE_BYTES == 1
            && Frame(r, p, i) < FRAMES && Frame(r, p, i) !in UsedFrames(m.bits))
      && (forall i: nat, j: nat :: i in slots && j in slots && i != j ==> Frame(r, p, i) != Frame(r, p, j))
      && (forall f: nat :: f in UsedFrames(r.bits) <==>
            f in UsedFrames(m.bits) || exists i: nat :: i in slots && i < PT_SIZE && Frame(r, p, i) == f)
    decreases |slots|
  {
    hide FirstFree, UsedFrames, Mark, InUse;
    var r := MapPages(m, p, slots);
    if slots != [] {
      var f := FirstFree(m.bits);
      FirstFreeIsFree(m.bits);
      MarkAdds(m.bits, f);
      var n := MapPage(m, p, slots[0]);
      assert AreSlots(slots[1..]);
      MapPagesTakes(n, p, slots[1..]);
      assert slots == [slots[0]] + slots[1..];
      assert slots[0] !in slots[1..];
      assert r.tables[p][slots[0]] == EntryOf(f, 1);
      assert Frame(r, p, slots[0]) == f;
    }
  }

  // Each page gets a frame above those of the pages before it.
  lemma {:induction false} MapPagesAscends(m: Memory, p: nat, slots: seq<nat>)
    requires Shaped(m) && p < PROCS && AreSlots(slots) && |slots| <= Spare(m.bits)
    requires forall j, k :: 0 <= j < k < |slots| ==> slots[j] != slots[k]
    ensures var r := MapPages(m, p, slots);
      && (forall k :: 0 <= k < |slots| ==> FirstFree(m.bits) <= Frame(r, p, slots[k]))
      && (forall j, k :: 0 <= j < k < |slots| ==> Frame(r, p, slots[j]) < Frame(r, p, slots[k]))
    decreases |slots|
  {
    hide FirstFree, UsedFrames, Mark, InUse, Frame;
    if slots != [] {
      FirstFreeIsFree(m.bits);
      var n := MapPage(m, p, slots[0]);
      var r := MapPages(m, p, slots);
      NextFreeIsHigher(m.bits);
      assert AreSlots(slots[1..]);
      MapPagesTakes(n, p, slots[1..]);
      MapPagesAscends(n, p, slots[1..]);
      FirstSlotNames(m, r, p, slots);
      forall k | 1 <= k < |slots| ensures Frame(r, p, slots[k]) > FirstFree(m.bits) {
        assert slots[k] == slots[1..][k - 1];
      }
    }
  }

  lemma FirstSlotNames(m: Memory, r: Memory, p: nat, slots: seq<nat>)
    requires Shaped(m) && Shaped(r) && p < PROCS && slots != [] && slots[0] < PT_SIZE && FirstFree(m.bits) < FRAMES
    requires forall k :: 1 <= k < |slots| ==> slots[0] != slots[k]
    requires SameElsewhere(MapPage(m, p, slots[0]), r, p, slots[1..])
    ensures Frame(r, p, slots[0]) == FirstFree(m.bits)
  {
    hide FirstFree;
    assert slots[0] !in slots[1..];
    assert r.tables[p][slots[0]] == EntryOf(FirstFree(m.bits), 1);
  }

  lemma NextFreeIsHigher(s: seq<Word>)
    requires IsMap(s) && FirstFree(s) < FRAMES
    ensures FirstFree(Mark(s, FirstFree(s))) > FirstFree(s)
  {
    hide InUse, Mark;
    var f := FirstFree(s);
    forall g: nat | g <= f ensures InUse(Mark(s, f), g) { OneBitChanges(s, f, g); }
  }

  /** The order in which a fork takes its frames: the system stack, the user stack, code and data, the heap. */
  lemma ForkTakesInOrder(m: Memory, p: nat)
    requires Shaped(m) && p < PROCS && Spare(m.bits) >= 8
    ensures var r := Forked(m, p);
      FirstFree(m.bits) < Frame(r, p, 255) < Frame(r, p, 0) < Frame(r, p, 1) < Frame(r, p, 2) < Frame(r, p, 3)
      < Frame(r, p, 4) < Frame(r, p, 5) < FRAMES
  {
    hide FirstFree, UsedFrames, Mark, InUse, MapPages, Frame;
    FirstFreeIsFree(m.bits);
    NextFreeIsHigher(m.bits);
    var s := Slots();
    MapPagesAscends(TakeFrame(m), p, s);
    MapPagesTakes(TakeFrame(m), p, s);
    assert 5 in s;
    var r := Forked(m, p);
    assert Frame(r, p, s[0]) < Frame(r, p, s[1]) < Frame(r, p, s[2]) < Frame(r, p, s[3]) < Frame(r, p, s[4]);
    assert Frame(r, p, s[4]) < Frame(r, p, s[5]) < Frame(r, p, s[6]);
  }

  lemma {:induction false} ClearFromRemoves(s: seq<Word>, t: Table, i: nat)
    requires IsMap(s) && i <= PT_SIZE && NamesFrames(t)
    ensures forall f: nat :: f in UsedFrames(ClearFrom(s, t, i)) <==>
      f in UsedFrames(s) && !(exists j: nat :: i <= j < PT_SIZE && t[j] != 0 && t[j] / PAGE_BYTES == f)
    decreases PT_SIZE - i
  {
    hide UsedFrames, Clear, InUse;
    if i < PT_SIZE {
      var n := if t[i] == 0 then s else Clear(s, t[i] / PAGE_BYTES);
      if t[i] != 0 { ClearRemoves(s, t[i] / PAGE_BYTES); }
      ClearFromRemoves(n, t, i + 1);
    }
  }

  // ---- Whole runs ----

  // The memory, the PCBs holding pages, the system stack frames handed out, the last page of the
  // operating system.
  datatype Session = Session(memory: Memory, live: set<nat>, stacks: set<nat>, lastPage: nat)

  datatype Event =
    | Fork(pcb: nat) // a PCB from the free queue gets its pages
    | End(pcb: nat)  // resources freed: a drained zombie, or a fork whose program file cannot be read
    | Touch(pcb: nat, page: nat, marks: nat) // the processor sets flag bits in an entry

  ghost predicate Starts(m: Memory, lastPage: nat) {
    && Shaped(m) && lastPage < FRAMES
    && (forall f: nat :: f in UsedFrames(m.bits) <==> f <= lastPage)
    && (forall p: nat, i: nat :: p < PROCS && i < PT_SIZE ==> m.tables[p][i] == 0)
  }

  ghost predicate Possible(s: Session, e: Event)
    requires Shaped(s.memory)
  {
    match e
    case Fork(p) => p < PROCS && p !in s.live && Spare(s.memory.bits) >= 8
    case End(p) => p < PROCS && p in s.live
    case Touch(p, i, marks) =>
      p < PROCS && p in s.live && i < PT_SIZE && s.memory.tables[p][i] != 0 && marks < PAGE_BYTES
  }

  // Marks are or-ed into one entry.
  function Marked(m: Memory, p: nat, i: nat, marks: nat): (r: Memory)
    requires p < |m.tables| && i < PT_SIZE
  {
    m.(tables := m.tables[p := m.tables[p][i := Or(m.tables[p][i], marks)]])
  }

  ghost predicate TablesNameFrames(m: Memory)
    requires Shaped(m)
  {
    forall p: nat :: p < PROCS ==> NamesFrames(m.tables[p])
  }

  // Exactly the pages every process starts with are mapped, and their entries are valid.
  ghost predicate Slotted(m: Memory, p: nat)
    requires Shaped(m) && p < PROCS
  {
    forall i: nat :: i < PT_SIZE ==>
      (m.tables[p][i] != 0 <==> IsSlot(i)) && (IsSlot(i) ==> m.tables[p][i] % 2 == 1)
  }

  ghost predicate Isolated(s: Session)
    requires Shaped(s.memory)
  {
    forall p: nat, i: nat, q: nat, j: nat ::
      p in s.live && q in s.live && p < PROCS && q < PROCS && IsSlot(i) && IsSlot(j) && (p != q || i != j)
      ==> Frame(s.memory, p, i) != Frame(s.memory, q, j)
  }

  // Frame f is in the page table of p.
  ghost predicate Names(m: Memory, p: nat, f: nat)
    requires Shaped(m) && p < PROCS
  {
    exists i: nat :: IsSlot(i) && Frame(m, p, i) == f
  }

  ghost predicate Owned(s: Session, f: nat)
    requires Shaped(s.memory)
  {
    exists p: nat :: p in s.live && p < PROCS && Names(s.memory, p, f)
  }

  lemma SlotIsNamed(m: Memory, p: nat, i: nat)
    requires Shaped(m) && p < PROCS && IsSlot(i)
    ensures Names(m, p, Frame(m, p, i))
  {
  }

  lemma NamedIsOwned(s: Session, p: nat, f: nat)
    requires Shaped(s.memory) && p in s.live && p < PROCS && Names(s.memory, p, f)
    ensures Owned(s, f)
  {
  }

  // Every frame in use has exactly one owner: the operating system, a system stack, a page table.
  ghost predicate Sound(s: Session) {
    && Shaped(s.memory) && s.lastPage < FRAMES
    && TablesNameFrames(s.memory)
    && (forall p: nat :: p in s.live ==> p < PROCS && Slotted(s.memory, p))
    && (forall p: nat, i: nat :: p < PROCS && i < PT_SIZE && s.memory.tables[p][i] != 0 ==> IsSlot(i))
    && Isolated(s)
    && (forall f: nat :: f in s.stacks ==> s.lastPage < f < FRAMES && !Owned(s, f))
    && (forall f: nat :: Owned(s, f) ==> s.lastPage < f)
    && (forall f: nat :: f in UsedFrames(s.memory.bits) <==> f <= s.lastPage || f in s.stacks || Owned(s, f))
  }

  lemma SoundIsolates(s: Session)
    requires Sound(s)
    ensures Isolated(s)
  {
  }

  ghost predicate Counted(s: Session)
    requires Shaped(s.memory)
  {
    |UsedFrames(s.memory.bits)| == s.lastPage + 1 + 7 * |s.live| + |s.stacks|
  }

  ghost function After(s: Session, e: Event): (r: Session)
    requires Sound(s) && Possible(s, e)
    ensures Shaped(r.memory)
  {
    match e
    case Fork(p) =>
      Session(Forked(s.memory, p), s.live + {p}, s.stacks + {FirstFree(s.memory.bits)}, s.lastPage)
    case End(p) =>
      s.(memory := Freed(s.memory, p), live := s.live - {p})
    case Touch(p, i, marks) =>
      s.(memory := Marked(s.memory, p, i, marks))
  }

  // What a fork does, in terms of frames only.
  ghost predicate ForkTakes(m: Memory, r: Memory, p: nat, stack: nat)
    requires Shaped(m) && Shaped(r) && p < PROCS
  {
    && stack < FRAMES && stack !in UsedFrames(m.bits)
    && SameElsewhere(m, r, p, Slots())
    && Spare(r.bits) == Spare(m.bits) - 8
    && (forall i: nat :: IsSlot(i) ==>
          r.tables[p][i] % PAGE_BYTES == 1 && Frame(r, p, i) < FRAMES && Frame(r, p, i) != stack
          && Frame(r, p, i) !in UsedFrames(m.bits))
    && (forall i: nat, j: nat :: IsSlot(i) && IsSlot(j) && i != j ==> Frame(r, p, i) != Frame(r, p, j))
    && (forall f: nat :: f in UsedFrames(r.bits) <==>
          f in UsedFrames(m.bits) || f == stack || Names(r, p, f))
  }

  lemma ForkedTakes(m: Memory, p: nat)
    requires Shaped(m) && p < PROCS && Spare(m.bits) >= 8
    ensures ForkTakes(m, Forked(m, p), p, FirstFree(m.bits))
  {
    hide FirstFree, UsedFrames, Mark, InUse, MapPages, Frame;
    var f := FirstFree(m.bits);
    FirstFreeIsFree(m.bits);
    MarkAdds(m.bits, f);
    MapPagesTakes(TakeFrame(m), p, Slots());
    assert forall i: nat :: IsSlot(i) <==> i in Slots();
  }

  lemma SameTableNames(m: Memory, r: Memory, p: nat, f: nat)
    requires Shaped(m) && Shaped(r) && p < PROCS
    requires forall i: nat :: IsSlot(i) ==> Frame(m, p, i) == Frame(r, p, i)
    ensures Names(m, p, f) == Names(r, p, f)
  {
    if i: nat :| IsSlot(i) && Frame(m, p, i) == f { assert Frame(r, p, i) == f; }
    if i: nat :| IsSlot(i) && Frame(r, p, i) == f { assert Frame(m, p, i) == f; }
  }

  lemma ForkOwns(s: Session, t: Session, p: nat, f: nat)
    requires Shaped(s.memory) && Shaped(t.memory) && p < PROCS && p !in s.live && t.live == s.live + {p}
    requires SameElsewhere(s.memory, t.memory, p, Slots())
    ensures Owned(t, f) <==> Owned(s, f) || Names(t.memory, p, f)
  {
    forall q: nat | q < PROCS && q != p ensures Names(s.memory, q, f) == Names(t.memory, q, f) {
      SameTableNames(s.memory, t.memory, q, f);
    }
  }

  lemma OwnedAreUsed(s: Session, p: nat, i: nat)
    requires Sound(s) && p in s.live && IsSlot(i)
    ensures p < PROCS && Frame(s.memory, p, i) in UsedFrames(s.memory.bits) && Frame(s.memory, p, i) !in s.stacks
  {
    hide UsedFrames, Slotted, Isolated, TablesNameFrames;
    assert Owned(s, Frame(s.memory, p, i));
  }

  lemma ForkIsolates(s: Session, p: nat)
    requires Sound(s) && Possible(s, Fork(p))
    ensures Isolated(After(s, Fork(p)))
  {
    hide UsedFrames, FirstFree, Forked, Owned;
    var t := After(s, Fork(p));
    ForkedTakes(s.memory, p);
    forall q: nat, i: nat, k: nat, j: nat |
      q in t.live && k in t.live && q < PROCS && k < PROCS && IsSlot(i) && IsSlot(j) && (q != k || i != j)
      ensures Frame(t.memory, q, i) != Frame(t.memory, k, j)
    {
      if q != p { OwnedAreUsed(s, q, i); }
      if k != p { OwnedAreUsed(s, k, j); }
    }
  }

  lemma ForkFillsTables(s: Session, p: nat)
    requires Sound(s) && Possible(s, Fork(p))
    ensures var r := After(s, Fork(p)).memory;
      && TablesNameFrames(r)
      && (forall q: nat :: q in s.live + {p} ==> q < PROCS && Slotted(r, q))
      && (forall q: nat, i: nat :: q < PROCS && i < PT_SIZE && r.tables[q][i] != 0 ==> IsSlot(i))
  {
    hide UsedFrames, FirstFree, Forked, Owned, Isolated;
    var r := After(s, Fork(p)).memory;
    ForkedTakes(s.memory, p);
    forall q: nat | q < PROCS ensures NamesFrames(r.tables[q]) { assert NamesFrames(s.memory.tables[q]); }
    forall q: nat | q in s.live && q != p ensures q < PROCS && Slotted(r, q) { assert Slotted(s.memory, q); }
    assert Slotted(r, p);
  }

  lemma ForkOwners(s: Session, p: nat)
    requires Sound(s) && Possible(s, Fork(p))
    ensures var t := After(s, Fork(p));
            && (forall g: nat :: Owned(t, g) <==> Owned(s, g) || Names(t.memory, p, g))
            && ForkTakes(s.memory, t.memory, p, FirstFree(s.memory.bits))
  {
    hide UsedFrames, FirstFree, Forked, Owned, Isolated, Slotted, TablesNameFrames;
    var t := After(s, Fork(p));
    ForkedTakes(s.memory, p);
    forall g: nat ensures Owned(t, g) <==> Owned(s, g) || Names(t.memory, p, g) {
      ForkOwns(s, t, p, g);
    }
  }

  lemma ForkCounts(s: Session, p: nat)
    requires Sound(s) && Counted(s) && Possible(s, Fork(p))
    ensures Counted(After(s, Fork(p)))
  {
    hide UsedFrames, FirstFree, Forked, Frame, Owned, Isolated, Slotted, TablesNameFrames;
    ForkedTakes(s.memory, p);
    assert FirstFree(s.memory.bits) !in s.stacks;
  }

  lemma ForkKeeps(s: Session, p: nat)
    requires Sound(s) && Counted(s) && Possible(s, Fork(p))
    ensures Sound(After(s, Fork(p))) && Counted(After(s, Fork(p)))
  {
    hide UsedFrames, FirstFree, Forked, Frame, Owned, Isolated, Slotted, TablesNameFrames, Counted;
    ForkOwners(s, p);
    ForkIsolates(s, p);
    ForkFillsTables(s, p);
    ForkCounts(s, p);
  }

  lemma EndOwns(s: Session, p: nat, f: nat)
    requires Sound(s) && Possible(s, End(p))
    ensures Owned(After(s, End(p)), f) <==> Owned(s, f) && !Names(s.memory, p, f)
  {
    hide UsedFrames, TablesNameFrames, Slotted;
    var t := After(s, End(p));
    forall q: nat | q < PROCS ensures Names(s.memory, q, f) == Names(t.memory, q, f) {
      SameTableNames(s.memory, t.memory, q, f);
    }
  }

  lemma NamedIffListed(m: Memory, p: nat, f: nat)
    requires Shaped(m) && p < PROCS && Slotted(m, p)
    ensures Names(m, p, f) <==>
      exists j: nat :: 0 <= j < PT_SIZE && m.tables[p][j] != 0 && m.tables[p][j] / PAGE_BYTES == f
  {
    if i: nat :| IsSlot(i) && Frame(m, p, i) == f { assert m.tables[p][i] / PAGE_BYTES == f; }
    if j: nat :| 0 <= j < PT_SIZE && m.tables[p][j] != 0 && m.tables[p][j] / PAGE_BYTES == f {
      assert IsSlot(j) && Frame(m, p, j) == f;
    }
  }

  lemma EndFrees(s: Session, p: nat)
    requires Sound(s) && Possible(s, End(p))
    ensures forall f: nat :: f in UsedFrames(After(s, End(p)).memory.bits) <==>
      f in UsedFrames(s.memory.bits) && !Names(s.memory, p, f)
  {
    hide UsedFrames, Isolated, Owned, ClearFrom, Names, Frame;
    var m := s.memory;
    assert NamesFrames(m.tables[p]) && Slotted(m, p);
    ClearFromRemoves(m.bits, m.tables[p], 0);
    forall f: nat ensures f in UsedFrames(After(s, End(p)).memory.bits) <==>
      f in UsedFrames(m.bits) && !Names(m, p, f) { NamedIffListed(m, p, f); }
  }

  // The seven frames of a process are seven different frames.
  lemma SevenFrames(s: Session, p: nat) returns (frames: set<nat>)
    requires Sound(s) && p in s.live
    ensures p < PROCS && |frames| == 7 && frames <= UsedFrames(s.memory.bits)
    ensures forall f: nat :: f in frames <==> Names(s.memory, p, f)
  {
    hide UsedFrames, TablesNameFrames, Slotted, Owned;
    var m := s.memory;
    var a := {Frame(m, p, 255), Frame(m, p, 0), Frame(m, p, 1)};
    var b := {Frame(m, p, 2), Frame(m, p, 3)};
    var c := {Frame(m, p, 4), Frame(m, p, 5)};
    frames := a + b + c;
    forall i: nat | IsSlot(i) ensures Frame(m, p, i) in UsedFrames(m.bits) { OwnedAreUsed(s, p, i); }
    assert |a| == 3 && |b| == 2 && |c| == 2;
    assert a !! b && (a + b) !! c;
  }

  lemma EndCounts(s: Session, p: nat)
    requires Sound(s) && Counted(s) && Possible(s, End(p))
    ensures Counted(After(s, End(p)))
  {
    hide UsedFrames, Freed, Frame, Owned, Isolated, Names, Slotted, TablesNameFrames;
    var t := After(s, End(p));
    EndFrees(s, p);
    var frames := SevenFrames(s, p);
    assert UsedFrames(t.memory.bits) == UsedFrames(s.memory.bits) - frames;
  }

  // Tables whose entries name the same frames are as isolated as before.
  lemma SameFramesSameTables(s: Session, t: Session)
    requires Sound(s) && Shaped(t.memory) && t.live <= s.live
    requires forall q: nat, i: nat :: q < PROCS && i < PT_SIZE ==>
      && Frame(t.memory, q, i) == Frame(s.memory, q, i)
      && (t.memory.tables[q][i] == 0 <==> s.memory.tables[q][i] == 0)
      && (s.memory.tables[q][i] % 2 == 1 ==> t.memory.tables[q][i] % 2 == 1)
    ensures TablesNameFrames(t.memory) && Isolated(t)
    ensures forall q: nat :: q in t.live ==> q < PROCS && Slotted(t.memory, q)
  {
    hide UsedFrames, Owned;
    forall q: nat | q < PROCS ensures NamesFrames(t.memory.tables[q]) {
      assert NamesFrames(s.memory.tables[q]);
      forall i: nat | i < PT_SIZE ensures t.memory.tables[q][i] / PAGE_BYTES < FRAMES {
        assert Frame(t.memory, q, i) == Frame(s.memory, q, i);
      }
    }
    forall q: nat | q in t.live ensures q < PROCS && Slotted(t.memory, q) {
      assert Slotted(s.memory, q);
      forall i: nat | i < PT_SIZE
        ensures (t.memory.tables[q][i] != 0 <==> IsSlot(i)) && (IsSlot(i) ==> t.memory.tables[q][i] % 2 == 1)
      {
        assert Frame(t.memory, q, i) == Frame(s.memory, q, i);
      }
    }
    assert Isolated(s);
  }

  lemma SameTable(m: Memory, r: Memory, p: nat, i: nat)
    requires Shaped(m) && Shaped(r) && m.tables == r.tables && p < PROCS && i < PT_SIZE
    ensures Frame(m, p, i) == Frame(r, p, i)
  {
  }

  lemma SameOwners(s: Session, t: Session)
    requires Shaped(s.memory) && Shaped(t.memory) && s.live == t.live
    requires forall q: nat, i: nat :: q < PROCS && i < PT_SIZE ==> Frame(t.memory, q, i) == Frame(s.memory, q, i)
    ensures forall f: nat :: Owned(t, f) <==> Owned(s, f)
  {
    forall q: nat, f: nat | q < PROCS ensures Names(t.memory, q, f) == Names(s.memory, q, f) {
      SameTableNames(s.memory, t.memory, q, f);
    }
  }

  lemma EndKeeps(s: Session, p: nat)
    requires Sound(s) && Counted(s) && Possible(s, End(p))
    ensures Sound(After(s, End(p))) && Counted(After(s, End(p)))
  {
    hide UsedFrames, Frame, Owned, Isolated, Slotted, TablesNameFrames, Names, ClearFrom;
    var t := After(s, End(p));
    forall q: nat, i: nat | q < PROCS && i < PT_SIZE ensures Frame(t.memory, q, i) == Frame(s.memory, q, i) {
      SameTable(s.memory, t.memory, q, i);
    }
    SameFramesSameTables(s, t);
    EndCounts(s, p);
    EndFrees(s, p);
    forall f: nat ensures Owned(t, f) <==> Owned(s, f) && !Names(s.memory, p, f) { EndOwns(s, p, f); }
    forall f: nat ensures Names(s.memory, p, f) ==> Owned(s, f) {
      if Names(s.memory, p, f) { NamedIsOwned(s, p, f); }
    }
  }

  lemma TouchFrames(m: Memory, p: nat, i: nat, marks: nat, q: nat, j: nat)
    requires Shaped(m) && p < PROCS && i < PT_SIZE && q < PROCS && j < PT_SIZE
    requires m.tables[p][i] != 0 && marks < PAGE_BYTES
    ensures var r := Marked(m, p, i, marks);
      && Frame(r, q, j) == Frame(m, q, j) && (r.tables[q][j] == 0 <==> m.tables[q][j] == 0)
      && (m.tables[q][j] % 2 == 1 ==> r.tables[q][j] % 2 == 1)
  {
    hide Or;
    MarksStayBelow(m.tables[p][i], marks);
  }

  lemma MarksStayBelow(entry: nat, marks: nat)
    requires marks < PAGE_BYTES
    ensures Or(entry, marks) / PAGE_BYTES == entry / PAGE_BYTES && Or(entry, marks) >= entry
    ensures entry % 2 == 1 ==> Or(entry, marks) % 2 == 1
  {
    hide Or;
    assert Pow2(12) == PAGE_BYTES by { Pow2Table(); Pow2Add(6, 6); }
    OrKeepsAbove(entry, marks, 12);
  }

  // Flag bits do not change which frame an entry names.
  lemma TouchKeeps(s: Session, p: nat, i: nat, marks: nat)
    requires Sound(s) && Counted(s) && Possible(s, Touch(p, i, marks))
    ensures Sound(After(s, Touch(p, i, marks))) && Counted(After(s, Touch(p, i, marks)))
  {
    hide UsedFrames, Frame, Isolated, Slotted, TablesNameFrames, Names, Owned;
    var t := After(s, Touch(p, i, marks));
    forall q: nat, j: nat | q < PROCS && j < PT_SIZE
      ensures Frame(t.memory, q, j) == Frame(s.memory, q, j)
      ensures t.memory.tables[q][j] == 0 <==> s.memory.tables[q][j] == 0
      ensures s.memory.tables[q][j] % 2 == 1 ==> t.memory.tables[q][j] % 2 == 1
    {
      TouchFrames(s.memory, p, i, marks, q, j);
    }
    SameFramesSameTables(s, t);
    SameOwners(s, t);
  }

  lemma StepKeeps(s: Session, e: Event)
    requires Sound(s) && Counted(s) && Possible(s, e)
    ensures Sound(After(s, e)) && Counted(After(s, e))
  {
    hide *;
    match e
    case Fork(p) => ForkKeeps(s, p);
    case End(p) => EndKeeps(s, p);
    case Touch(p, i, marks) => TouchKeeps(s, p, i, marks);
  }

  // A run of events, each possible when its turn comes.
  ghost predicate Allowed(s: Session, es: seq<Event>)
    requires Sound(s) && Counted(s)
    decreases |es|
  {
    es == [] || (Possible(s, es[0]) && (StepKeeps(s, es[0]); Allowed(After(s, es[0]), es[1..])))
  }

  ghost function Run(s: Session, es: seq<Event>): (r: Session)
    requires Sound(s) && Counted(s) && Allowed(s, es)
    ensures Sound(r) && Counted(r)
    decreases |es|
  {
    if es == [] then s else (StepKeeps(s, es[0]); Run(After(s, es[0]), es[1..]))
  }

  function Forks(es: seq<Event>): nat {
    if es == [] then 0 else (if es[0].Fork? then 1 else 0) + Forks(es[1..])
  }

  ghost function Booted(m: Memory, lastPage: nat): (s: Session)
    requires Starts(m, lastPage)
    ensures Sound(s) && Counted(s) && s.lastPage == lastPage
  {
    var s := Session(m, {}, {}, lastPage);
    StartsSound(s);
    s
  }

  lemma StartsSound(s: Session)
    requires Starts(s.memory, s.lastPage) && s.live == {} && s.stacks == {}
    ensures Sound(s) && Counted(s)
  {
    hide UsedFrames;
    forall p: nat | p < PROCS ensures NamesFrames(s.memory.tables[p]) {}
    NothingOwned(s);
    assert UsedFrames(s.memory.bits) == Below(s.lastPage + 1);
  }

  lemma NothingOwned(s: Session)
    requires Shaped(s.memory) && s.live == {}
    ensures Isolated(s) && forall f: nat :: !Owned(s, f)
  {
  }

  lemma {:induction false} RunCounts(s: Session, es: seq<Event>)
    requires Sound(s) && Counted(s) && Allowed(s, es)
    ensures |Run(s, es).stacks| == |s.stacks| + Forks(es) && Run(s, es).lastPage == s.lastPage
    decreases |es|
  {
    hide Sound, Counted, UsedFrames, Forked, Freed, Possible;
    if es != [] {
      var e := es[0];
      StepKeeps(s, e);
      if e.Fork? { StackIsNew(s, e.pcb); }
      RunCounts(After(s, e), es[1..]);
    }
  }

  lemma StackIsNew(s: Session, p: nat)
    requires Sound(s) && Possible(s, Fork(p))
    ensures FirstFree(s.memory.bits) !in s.stacks
  {
    hide UsedFrames, Forked, Owned, Isolated, Slotted, TablesNameFrames, FirstFree;
    ForkedTakes(s.memory, p);
  }

  /** Isolation, over every run of forks, endings and flag updates from start-up: no frame occurs
      twice in the tables of live processes; each is marked used, lies above the operating system,
      and holds no process's system stack. */
  lemma AddressSpacesAreIsolated(m: Memory, lastPage: nat, es: seq<Event>, p: nat, i: nat, q: nat, j: nat)
    requires Starts(m, lastPage) && Allowed(Booted(m, lastPage), es)
    requires p < PROCS && q < PROCS && i < PT_SIZE && j < PT_SIZE && (p != q || i != j)
    ensures var s := Run(Booted(m, lastPage), es);
      p in s.live && q in s.live && s.memory.tables[p][i] != 0 && s.memory.tables[q][j] != 0 ==>
        && Frame(s.memory, p, i) != Frame(s.memory, q, j)
        && Frame(s.memory, p, i) in UsedFrames(s.memory.bits)
        && lastPage < Frame(s.memory, p, i)
        && Frame(s.memory, p, i) !in s.stacks
  {
    hide UsedFrames, Run, Allowed, Booted, Frame, Names;
    var s := Run(Booted(m, lastPage), es);
    RunCounts(Booted(m, lastPage), es);
    if p in s.live && q in s.live && s.memory.tables[p][i] != 0 && s.memory.tables[q][j] != 0 {
      assert Slotted(s.memory, p) && Slotted(s.memory, q);
      OwnedAreUsed(s, p, i);
      SlotIsNamed(s.memory, p, i);
      assert Owned(s, Frame(s.memory, p, i));
    }
  }

  /** Conservation: the frames in use are the operating system's, seven for each live process, and
      one more for every fork ever made, because no system stack is given back. */
  lemma FramesAreConserved(m: Memory, lastPage: nat, es: seq<Event>)
    requires Starts(m, lastPage) && Allowed(Booted(m, lastPage), es)
    ensures var s := Run(Booted(m, lastPage), es);
      |UsedFrames(s.memory.bits)| == lastPage + 1 + 7 * |s.live| + Forks(es)
  {
    RunCounts(Booted(m, lastPage), es);
  }

  /** So memory runs out however promptly processes end: no run holds more forks than this. */
  lemma {:induction false} ForksAreBounded(m: Memory, lastPage: nat, es: seq<Event>)
    requires Starts(m, lastPage) && Allowed(Booted(m, lastPage), es)
    ensures Forks(es) <= FRAMES - 1 - lastPage
  {
    hide UsedFrames, Run, Allowed, Booted;
    FramesAreConserved(m, lastPage, es);
    var s := Run(Booted(m, lastPage), es);
    var spare := Spare(s.memory.bits);
    assert |UsedFrames(s.memory.bits)| <= FRAMES;
  }

  lemma SpareMeansFree(s: seq<Word>)
    requires IsMap(s) && Spare(s) > 0
    ensures exists f: nat :: f < FRAMES && !InUse(s, f)
    ensures FirstFree(s) < FRAMES
  {
    FirstFreeIsFree(s);
    assert !InUse(s, FirstFree(s));
  }

  // The bitmap and the page tables of the PCBs, as the kernel updates them.
  class MemoryManager {
    const frames: FrameMap
    var pagetable: seq<Table>

    ghost predicate Valid() reads this, frames { frames.Valid() && |pagetable| == PROCS }

    ghost function View(): (m: Memory) reads this, frames, frames.freemap
      requires Valid()
      ensures Shaped(m)
    {
      Memory(frames.Map(), pagetable)
    }

    constructor (lastosaddress: nat)
      requires lastosaddress / PAGE_BYTES < FRAMES
      ensures Valid() && fresh(frames) && fresh(frames.freemap)
      ensures Starts(View(), lastosaddress / PAGE_BYTES)
    {
      frames := new FrameMap();
      pagetable := seq(PROCS, _ => seq(PT_SIZE, _ => 0));
      new;
      ghost var zero := frames.Map();
      forall f: nat | f < FRAMES ensures !InUse(zero, f) { assert f !in UsedFrames(zero); }
      frames.ModuleInit(lastosaddress);
    }

    method MapUserPage(pcb: nat, page: nat)
      requires Valid() && pcb < PROCS && page < PT_SIZE && Spare(View().bits) > 0
      modifies `pagetable, frames.freemap
      ensures Valid() && FirstFree(old(View().bits)) < FRAMES && View() == MapPage(old(View()), pcb, page)
    {
      hide InUse, Mark, FirstFree, Spare;
      SpareMeansFree(View().bits);
      ghost var before := View().bits;
      var entry := frames.AllocUserPage();
      LeastIsFirstFree(before, entry / PAGE_BYTES);
      assert entry == EntryOf(entry / PAGE_BYTES, 1);
      pagetable := pagetable[pcb := pagetable[pcb][page := entry]];
    }

    // The pages of a new process, in the order the kernel takes them.
    method ForkMemory(pcb: nat) returns (stackframe: nat)
      requires Valid() && pcb < PROCS && Spare(View().bits) >= 8
      modifies `pagetable, frames.freemap
      ensures Valid() && View() == Forked(old(View()), pcb)
      ensures forall i: nat :: IsSlot(i) ==> pagetable[pcb][i] % PAGE_BYTES == 1
      ensures stackframe == FirstFree(old(View().bits)) * PAGE_BYTES
    {
      hide InUse, Mark, FirstFree, Spare, MapPage;
      SpareMeansFree(View().bits);
      FirstFreeIsFree(View().bits);
      ForkedTakes(View(), pcb);
      ghost var before := View();
      stackframe := frames.AllocSysPage();
      LeastIsFirstFree(before.bits, stackframe / PAGE_BYTES);
      assert View() == TakeFrame(before);
      assert MapPages(View(), pcb, Slots()) == Forked(before, pcb);
      MapPagesUnfolds(View(), pcb, Slots());
      MapUserPage(pcb, PT_SIZE - 1);
      assert Slots()[1..] == [0, 1, 2, 3, 4, 5];
      for i := 0 to 5
        invariant Valid() && Spare(View().bits) >= 6 - i
        invariant MapPages(View(), pcb, [0, 1, 2, 3, 4, 5][i..]) == Forked(before, pcb)
      {
        MapPagesUnfolds(View(), pcb, [0, 1, 2, 3, 4, 5][i..]);
        MapUserPage(pcb, i);
        assert [0, 1, 2, 3, 4, 5][i..][1..] == [0, 1, 2, 3, 4, 5][i + 1..];
      }
      MapPagesUnfolds(View(), pcb, [5]);
      MapUserPage(pcb, 5);
    }

    method FreeResources(pcb: nat)
      requires Valid() && pcb < PROCS && NamesFrames(pagetable[pcb])
      modifies frames.freemap
      ensures Valid() && View() == Freed(old(View()), pcb)
    {
      hide Clear;
      for i := 0 to PT_SIZE
        invariant ClearFrom(frames.Map(), pagetable[pcb], i) == ClearFrom(old(frames.Map()), pagetable[pcb], 0)
      {
        if pagetable[pcb][i] != 0 {
          frames.FreePage(pagetable[pcb][i]);
        }
      }
    }
  }

  lemma MapPagesUnfolds(m: Memory, p: nat, slots: seq<nat>)
    requires Shaped(m) && p < PROCS && AreSlots(slots) && 0 < |slots| <= Spare(m.bits)
    ensures FirstFree(m.bits) < FRAMES
    ensures var r := MapPage(m, p, slots[0]);
      Spare(r.bits) == Spare(m.bits) - 1 && AreSlots(slots[1..])
      && MapPages(m, p, slots) == MapPages(r, p, slots[1..])
  {
    FirstFreeIsFree(m.bits);
  }
}
