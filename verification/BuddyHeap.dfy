/** The heap of one process: the allocator's routines on the 128-entry array in the process control block. */
module BuddyHeap {
  import opened Powers
  import opened BuddyTree
  import opened BuddyArray
  import opened BuddyReuse
  import Frames

  const UNIT_BYTES: nat := 32
  const PAGE_BYTES := Frames.PAGE_BYTES
  const FRAMES := Frames.FRAMES

  // 2^a for the low four bits of a.
  method PowerOfTwo(a: int) returns (b: int)
    ensures b == Pow2(Order(a))
  {
    var n := Order(a);
    b := 1;
    for i := 0 to n
      invariant b == Pow2(i)
    {
      b := b * 2;
    }
  }

  // The least i with a <= 2^i.
  method LogTwo(a: real) returns (i: nat)
    ensures a <= Pow2(i) as real
    ensures i > 0 ==> (Pow2(i - 1) as real) < a
  {
    i := 0;
    var b := 1.0;
    while a > b
      invariant b == Pow2(i) as real
      invariant i > 0 ==> (Pow2(i - 1) as real) < a
      decreases a.Floor - Pow2(i)
    {
      assert a.Floor >= Pow2(i);
      b := b * 2.0;
      i := i + 1;
    }
  }

  function OrderFrom(bytes: nat, k: nat): (o: nat)
    requires bytes <= PAGE_BYTES && k <= ORDER_MAX
    ensures k <= o <= ORDER_MAX && bytes <= UNIT_BYTES * Pow2(o)
    ensures o > k ==> UNIT_BYTES * Pow2(o - 1) < bytes
    decreases ORDER_MAX - k
  {
    Pow2Table();
    if bytes <= UNIT_BYTES * Pow2(k) then k else OrderFrom(bytes, k + 1)
  }

  // The least order whose blocks hold `bytes`.
  function OrderFor(bytes: nat): (o: nat)
    requires bytes <= PAGE_BYTES
    ensures o <= ORDER_MAX && bytes <= UNIT_BYTES * Pow2(o)
    ensures o > 0 ==> UNIT_BYTES * Pow2(o - 1) < bytes
  {
    OrderFrom(bytes, 0)
  }

  lemma LeastOrderIsUnique(bytes: nat, i: nat)
    requires bytes <= PAGE_BYTES
    requires bytes as real / 32.0 <= Pow2(i) as real
    requires i > 0 ==> (Pow2(i - 1) as real) < bytes as real / 32.0
    ensures i == OrderFor(bytes)
  {
    var o := OrderFor(bytes);
    if i < o { Pow2Monotone(i, o - 1); }
    if o < i { Pow2Monotone(o, i - 1); }
  }

  lemma SplitStep(h: seq<int>, base: nat, k: nat, j: nat, clean: bool)
    requires 0 < j <= k && Rep(h, base, SplitTo(k, j), k, clean)
    ensures base + Pow2(j - 1) < |h|
    ensures Rep(h[base := j - 1][base + Pow2(j - 1) := j - 1], base, SplitTo(k, j - 1), k, clean)
    decreases k
  {
    var h' := h[base := j - 1];
    if k == j {
      assert SplitTo(k, j - 1) == Node(Free, Free);
    } else {
      SplitStep(h, base, k - 1, j, clean);
      Pow2Monotone(j - 1, k - 2);
      RepFrame(h, h'[base + Pow2(j - 1) := j - 1], base + Half(k), Free, k - 1, clean);
    }
  }

  lemma SplitHead(h: seq<int>, base: nat, k: nat, j: nat, clean: bool)
    requires j <= k && Rep(h, base, SplitTo(k, j), k, clean)
    ensures base < |h| && h[base] == j
    decreases k
  {
    if j < k { SplitHead(h, base, k - 1, j, clean); }
  }

  // First pass over the heads: stops at a free block of order exactly o, and otherwise remembers the first free
  // block of a larger order.
  method FindFree(o: nat, heap: array<int>, ghost cs: seq<Cell>) returns (idx: int, tiniest: int)
    requires heap.Length == UNITS && CellsHold(heap[..], cs) && o <= ORDER_MAX
    ensures Found(cs, o, idx, tiniest)
  {
    var heapMax: int := PAGE_BYTES / UNIT_BYTES;
    idx := 0;
    tiniest := heapMax;
    ghost var c: nat, m: nat := 0, |cs|;
    while idx < heapMax
      invariant c <= |cs| && m <= |cs| && idx == StartOf(cs, c)
      invariant forall j :: 0 <= j < c ==> !Exact(cs[j], o)
      invariant m == |cs| ==> tiniest == heapMax && forall j :: 0 <= j < c ==> !Larger(cs[j], o)
      invariant m < |cs| ==> m < c && tiniest == cs[m].start < idx && Larger(cs[m], o)
      invariant m < |cs| ==> forall j :: 0 <= j < m ==> !Larger(cs[j], o)
      decreases heapMax - idx
    {
      EntryBits(heap[idx], cs[c], o);
      if heap[idx] == o && !IsUsed(heap[idx]) {
        ExactIsPicked(cs, o, c);
        return;
      }
      if heap[idx] > o && idx < tiniest && !IsUsed(heap[idx]) {
        tiniest := idx;
        m := c;
      }
      var size := PowerOfTwo(heap[idx]);
      idx := idx + size;
      c := c + 1;
    }
    if m < |cs| { LargerIsPicked(cs, o, m); } else { NoneIsPicked(cs, o); }
  }

  ghost predicate Found(cs: seq<Cell>, o: nat, idx: int, tiniest: int) {
    var i := Pick(cs, o);
    if i == |cs| then idx == UNITS == tiniest
    else if cs[i].order == o then idx == cs[i].start < UNITS
    else idx == UNITS && tiniest == cs[i].start < UNITS
  }

  // Second pass: split the chosen block down its left edge until its order is o. When nothing was chosen (m == |cs|)
  // the pass walks to the end.
  method SplitFrom(o: nat, heap: array<int>, from: int, ghost cs: seq<Cell>, ghost m: nat, ghost clean: bool)
    returns (idx: int)
    requires heap.Length == UNITS && CellsHold(heap[..], cs) && o <= ORDER_MAX && m == Pick(cs, o)
    requires m < |cs| ==> from == cs[m].start && Aligned(cs[m].start, cs[m].order)
    requires m < |cs| ==> Rep(heap[..], from, Free, cs[m].order, clean)
    requires m == |cs| ==> from == 0
    modifies heap
    ensures m == |cs| ==> idx == UNITS && heap[..] == old(heap[..])
    ensures m < |cs| ==> idx == from < UNITS
    ensures m < |cs| ==> SplitOff(old(heap[..]), heap[..], cs[m], o, o, clean)
  {
    hide SplitOff, Pow2, Rep, Sane, Pick, Order, IsUsed, CellsHold;
    FirstStart(heap[..], cs, o);
    var heapMax: int := PAGE_BYTES / UNIT_BYTES;
    idx := from;
    ghost var j: nat, c: nat := if m < |cs| then cs[m].order else 0, 0;
    if m < |cs| { SplitOffStart(heap[..], cs[m], o, clean); }
    while idx < heapMax && heap[idx] != o
      invariant m < |cs| ==> idx == from < UNITS && SplitOff(old(heap[..]), heap[..], cs[m], o, j, clean)
      invariant m == |cs| ==> heap[..] == old(heap[..]) && c <= |cs| && idx == StartOf(cs, c) <= UNITS
      decreases heapMax - idx, j
    {
      ghost var h := heap[..];
      if m < |cs| {
        SplitOffHead(old(heap[..]), h, cs[m], o, j, clean);
      } else {
        NothingToSplit(h, cs, c, o);
      }
      if !IsUsed(heap[idx]) && heap[idx] > o {
        SplitOnce(old(heap[..]), h, cs[m], o, j, clean);
        heap[idx] := heap[idx] - 1;
        var size := PowerOfTwo(heap[idx]);
        var buddy := size + idx;
        heap[buddy] := heap[idx];
        assert heap[..] == h[idx := j - 1][idx + Pow2(j - 1) := j - 1];
        j := j - 1;
      } else {
        var size := PowerOfTwo(heap[idx]);
        idx := idx + size;
        c := c + 1;
      }
    }
    if m < |cs| {
      SplitOffHead(old(heap[..]), heap[..], cs[m], o, j, clean);
    } else if idx < UNITS {
      NothingToSplit(heap[..], cs, c, o);
    }
  }

  lemma FirstStart(h: seq<int>, cs: seq<Cell>, o: nat)
    requires |h| == UNITS && CellsHold(h, cs)
    ensures StartOf(cs, 0) == 0 && StartOf(cs, |cs|) == UNITS
    ensures Pick(cs, o) < |cs| ==> cs[Pick(cs, o)].start < UNITS && o <= cs[Pick(cs, o)].order <= ORDER_MAX
  {
  }

  // On a walk that found no block, no head invites a split and the next head is one block size on.
  lemma NothingToSplit(h: seq<int>, cs: seq<Cell>, c: nat, o: nat)
    requires |h| == UNITS && CellsHold(h, cs) && o <= ORDER_MAX && Pick(cs, o) == |cs| && c <= |cs|
    requires StartOf(cs, c) < UNITS
    ensures c < |cs| && var v := h[StartOf(cs, c)];
      v != o && !(!IsUsed(v) && v > o)
      && StartOf(cs, c) + Pow2(Order(v)) == StartOf(cs, c + 1) <= UNITS && Pow2(Order(v)) > 0
  {
    EntryBits(h[cs[c].start], cs[c], o);
    assert StartOf(cs, c + 1) == cs[c].start + Pow2(cs[c].order);
  }

  // The free block c, in array h, has been split off down to order j.
  ghost predicate SplitOff(h: seq<int>, h': seq<int>, c: Cell, o: nat, j: nat, clean: bool) {
    && o <= j <= c.order <= ORDER_MAX && Aligned(c.start, c.order)
    && SameOutside(h, h', c.start, c.order)
    && Rep(h', c.start, SplitTo(c.order, j), c.order, clean)
    && (Sane(h) ==> Sane(h'))
  }

  lemma SplitOffStart(h: seq<int>, c: Cell, o: nat, clean: bool)
    requires Rep(h, c.start, Free, c.order, clean) && o <= c.order <= ORDER_MAX && Aligned(c.start, c.order)
    ensures SplitOff(h, h, c, o, c.order, clean)
  {
  }

  lemma SplitOffHead(h0: seq<int>, h: seq<int>, c: Cell, o: nat, j: nat, clean: bool)
    requires SplitOff(h0, h, c, o, j, clean)
    ensures o <= j <= c.order <= ORDER_MAX
    ensures c.start < |h| && h[c.start] == j && !IsUsed(j) && Order(j) == j
  {
    hide Sane, SameOutside, Aligned, Pow2, Rep;
    SplitHead(h, c.start, c.order, j, clean);
    NotUsed(j);
  }

  lemma SplitOnce(h0: seq<int>, h: seq<int>, c: Cell, o: nat, j: nat, clean: bool)
    requires SplitOff(h0, h, c, o, j, clean) && o < j
    ensures c.start + Pow2(j - 1) < |h| && Order(j - 1) == j - 1
    ensures SplitOff(h0, h[c.start := j - 1][c.start + Pow2(j - 1) := j - 1], c, o, j - 1, clean)
  {
    hide Rep, Sane;
    SplitStep(h, c.start, c.order, j, clean);
    Pow2Monotone(j, c.order);
    SaneHalves(h, c, j);
  }

  lemma SaneHalves(h: seq<int>, c: Cell, j: nat)
    requires 0 < j <= c.order <= ORDER_MAX && Aligned(c.start, c.order) && c.start + Pow2(j - 1) < |h|
    ensures Sane(h) ==> Sane(h[c.start := j - 1][c.start + Pow2(j - 1) := j - 1])
  {
    hide Pow2;
    AlignedToLess(c.start, c.order, j);
    HalvesAreAligned(c.start, j - 1);
    NotUsed(j - 1);
    assert SaneEntry(j - 1, c.start) && SaneEntry(j - 1, c.start + Pow2(j - 1));
  }

  lemma AlignedToLess(b: nat, k: nat, j: nat)
    requires j <= k && b % Pow2(k) == 0
    ensures b % Pow2(j) == 0
  {
    hide Pow2;
    Pow2Add(j, k - j);
    Multiple(b, Pow2(k));
    assert b == Pow2(j) * (Pow2(k - j) * (b / Pow2(k))) by { Associate(Pow2(j), Pow2(k - j), b / Pow2(k)); }
    MultipleDivides(Pow2(j), Pow2(k - j) * (b / Pow2(k)));
  }

  lemma Associate(p: nat, q: nat, x: nat)
    ensures (p * q) * x == p * (q * x)
  {
  }

  // The index of a free block of order exactly o, split off a larger one if need be; -1 when there is none.
  method MakeIndex(o: nat, heap: array<int>, ghost t: Tree, ghost clean: bool) returns (idx: int)
    requires heap.Length == UNITS && Rep(heap[..], 0, t, ORDER_MAX, clean) && o <= ORDER_MAX
    modifies heap
    ensures MadeIndex(old(heap[..]), heap[..], t, o, idx, clean)
  {
    hide Rep, SplitOff, Pick;
    RepBound(heap[..], 0, t, ORDER_MAX, clean);
    ghost var cs := Cells(t, ORDER_MAX, 0);
    ghost var m := Pick(cs, o);
    CellEntries(heap[..], t, clean);
    if m < |cs| { PickedIsWhole(heap[..], t, o, clean); }
    var tiniest;
    idx, tiniest := FindFree(o, heap, cs);
    if idx < UNITS {
      SplitOffStart(heap[..], cs[m], o, clean);
      return;
    }
    idx := SplitFrom(o, heap, if tiniest < UNITS then tiniest else 0, cs, m, clean);
    if idx == UNITS { idx := -1; }
  }

  lemma PickedIsWhole(h: seq<int>, t: Tree, o: nat, clean: bool)
    requires |h| == UNITS && Rep(h, 0, t, ORDER_MAX, clean)
    requires Pick(Cells(t, ORDER_MAX, 0), o) < |Cells(t, ORDER_MAX, 0)|
    ensures var c := Cells(t, ORDER_MAX, 0)[Pick(Cells(t, ORDER_MAX, 0), o)];
            Rep(h, c.start, Free, c.order, clean) && Aligned(c.start, c.order) && o <= c.order <= ORDER_MAX
  {
    var cs := Cells(t, ORDER_MAX, 0);
    HeadsAreCells(t, ORDER_MAX, 0, cs[Pick(cs, o)]);
    HeadRep(h, 0, t, ORDER_MAX, clean, cs[Pick(cs, o)].start);
    CellsAligned(t, ORDER_MAX, 0);
  }

  ghost predicate MadeIndex(h: seq<int>, h': seq<int>, t: Tree, o: nat, idx: int, clean: bool)
    requires Fits(t, ORDER_MAX)
  {
    var cs := Cells(t, ORDER_MAX, 0);
    var i := Pick(cs, o);
    if i == |cs| then idx == -1 && h' == h
    else
      && idx == cs[i].start
      && SplitOff(h, h', cs[i], o, o, clean)
  }

  lemma EntryBits(v: int, c: Cell, o: nat)
    requires v == c.order + (if c.used then 16 else 0) && c.order <= ORDER_MAX && o <= ORDER_MAX
    ensures IsUsed(v) == c.used && Order(v) == c.order
    ensures v == o && !IsUsed(v) <==> Exact(c, o)
    ensures v > o && !IsUsed(v) <==> Larger(c, o)
  {
  }

  function StartOf(cs: seq<Cell>, i: nat): nat {
    if i < |cs| then cs[i].start else UNITS
  }

  ghost predicate CellsHold(h: seq<int>, cs: seq<Cell>)
    requires |h| == UNITS
  {
    && |cs| > 0 && cs[0].start == 0
    && (forall i :: 0 <= i < |cs| ==> cs[i].start < UNITS && cs[i].order <= ORDER_MAX)
    && (forall i :: 0 <= i < |cs| ==> h[cs[i].start] == cs[i].order + (if cs[i].used then 16 else 0))
    && (forall i, j :: 0 <= i < |cs| && j == i + 1 ==> cs[i].start + Pow2(cs[i].order) == StartOf(cs, j))
  }

  lemma CellEntries(h: seq<int>, t: Tree, clean: bool)
    requires |h| == UNITS && Rep(h, 0, t, ORDER_MAX, clean)
    ensures CellsHold(h, Cells(t, ORDER_MAX, 0))
  {
    hide Rep, Pow2, Cells;
    RepBound(h, 0, t, ORDER_MAX, clean);
    var cs := Cells(t, ORDER_MAX, 0);
    Pow2Table();
    CellsTile(t, ORDER_MAX, 0);
    TilesChain(cs);
    forall i | 0 <= i < |cs|
      ensures cs[i].start < UNITS && cs[i].order <= ORDER_MAX
      ensures h[cs[i].start] == cs[i].order + (if cs[i].used then 16 else 0)
    {
      HeadsAreCells(t, ORDER_MAX, 0, cs[i]);
      RepHead(h, 0, t, ORDER_MAX, clean, cs[i].start);
    }
  }

  lemma TilesChain(cs: seq<Cell>)
    requires Tiles(cs, 0, UNITS)
    ensures |cs| > 0 && cs[0].start == 0
    ensures forall i, j :: 0 <= i < |cs| && j == i + 1 ==> cs[i].start + Pow2(cs[i].order) == StartOf(cs, j)
  {
  }

  lemma ExactIsPicked(cs: seq<Cell>, o: nat, c: nat)
    requires c < |cs| && Exact(cs[c], o) && forall j :: 0 <= j < c ==> !Exact(cs[j], o)
    ensures Pick(cs, o) == c
  {
    var i := FirstMatch(cs, o, true);
    assert c < i ==> !Matches(cs[c], o, true);
  }

  lemma LargerIsPicked(cs: seq<Cell>, o: nat, m: nat)
    requires forall j :: 0 <= j < |cs| ==> !Exact(cs[j], o)
    requires m < |cs| && Larger(cs[m], o) && forall j :: 0 <= j < m ==> !Larger(cs[j], o)
    ensures Pick(cs, o) == m
  {
    var i := FirstMatch(cs, o, false);
    assert m < i ==> !Matches(cs[m], o, false);
  }

  lemma NoneIsPicked(cs: seq<Cell>, o: nat)
    requires forall j :: 0 <= j < |cs| ==> !Exact(cs[j], o) && !Larger(cs[j], o)
    ensures Pick(cs, o) == |cs|
  {
  }

  // The heap part of a process control block.
  class HeapOwner {
    const heapNodes: array<int>
    var heapPte: nat       // the page table entry of the heap page
    ghost var tree: Tree
    ghost var clean: bool  // no earlier owner has left anything inside the blocks

    ghost predicate Valid()
      reads this, heapNodes
    {
      && heapNodes.Length == UNITS
      && Rep(heapNodes[..], 0, tree, ORDER_MAX, clean) && Sane(heapNodes[..])
      && Canonical(tree)
      && GoodPte(heapPte)
    }

    // A process control block that is used for the first time: the array is still all zero.
    constructor (frame: nat, flags: nat)
      requires 0 < frame < FRAMES && flags < 8
      ensures Valid() && fresh(heapNodes) && tree == Free && clean && heapPte == frame * PAGE_BYTES + flags
    {
      heapNodes := new int[UNITS](_ => 0);
      heapPte := frame * PAGE_BYTES + flags;
      tree, clean := Free, true;
      new;
      heapNodes[0] := ORDER_MAX;
      Pow2Table();
      EntryOfFrame(frame, flags);
      assert forall i: nat :: i < UNITS ==> SaneEntry(heapNodes[i], i);
    }

    // A process control block that is used again, with a new heap page: only the first entry is reset, so what
    // the previous owner wrote into the others stays.
    method ResetForFork(frame: nat, flags: nat)
      requires heapNodes.Length == UNITS && Sane(heapNodes[..]) && 0 < frame < FRAMES && flags < 8
      modifies this, heapNodes
      ensures heapNodes[..] == old(heapNodes[..])[0 := ORDER_MAX] && heapPte == frame * PAGE_BYTES + flags
      ensures Valid() && tree == Free
      ensures clean <==> forall i :: 1 <= i < UNITS ==> old(heapNodes[i]) == 0
    {
      ghost var was := heapNodes[..];
      heapNodes[0] := ORDER_MAX;
      heapPte := frame * PAGE_BYTES + flags;
      tree, clean := Free, forall i :: 1 <= i < UNITS ==> was[i] == 0;
      Pow2Table();
      EntryOfFrame(frame, flags);
      assert forall i :: 1 <= i < UNITS ==> heapNodes[..][i] == was[i];
      assert SaneEntry(ORDER_MAX, 0);
    }

    // Reserve `memsize` bytes: the address of the block, 0 when the request is out of range or nothing fits.
    method Malloc(memsize: int) returns (ptr: int)
      requires Valid()
      modifies this`tree, heapNodes
      ensures Valid()
      ensures !(0 <= memsize <= PAGE_BYTES) ==> ptr == 0 && tree == old(tree)
      ensures 0 <= memsize <= PAGE_BYTES ==> tree == Allocated(old(tree), ORDER_MAX, OrderFor(memsize))
      ensures 0 <= memsize <= PAGE_BYTES ==> ptr == AddressOf(heapPte, Placed(old(tree), ORDER_MAX, OrderFor(memsize)))
    {
      hide Rep, Sane, Canonical, Pow2, Allocated, Placed;
      if memsize > PAGE_BYTES || memsize < 0 { return 0; }
      var order := LogTwo(memsize as real / UNIT_BYTES as real);
      assert order == OrderFor(memsize) by { LeastOrderIsUnique(memsize, order); }
      RepBound(heapNodes[..], 0, tree, ORDER_MAX, clean);
      var idx := MakeIndex(order, heapNodes, tree, clean);
      if idx == -1 {
        NoRoomFor(tree, order);
        return 0;
      }
      ghost var h := heapNodes[..];
      AllocatedRep(old(heapNodes[..]), h, tree, order, idx, clean);
      heapNodes[idx] := SetUsed(heapNodes[idx]);
      assert heapNodes[..] == h[idx := SetUsed(h[idx])];
      AllocationAddsOneBlock(tree, ORDER_MAX, order);
      tree := Allocated(tree, ORDER_MAX, order);
      PageOfEntry(heapPte);
      // Masking off the low three bits of the entry leaves the page address, whose low 12 bits are zero, so the
      // bitwise or with the offset is an addition.
      ptr := heapPte - heapPte % 8 + idx * UNIT_BYTES;
    }

    // Give back the block whose first unit holds address `ptr`; -1 when the address is refused. A stale entry is
    // not refused; then no block is given back. With `checked` false this is the committed code.
    method Mfree(checked: bool, ptr: int) returns (code: int)
      requires Valid()
      modifies this`tree, heapNodes
      ensures !Accepts(old(heapNodes[..]), heapPte, ptr) ==>
                code == -1 && Valid() && tree == old(tree) && heapNodes[..] == old(heapNodes[..])
      ensures Accepts(old(heapNodes[..]), heapPte, ptr) ==>
                var h, i := old(heapNodes[..]), UnitOf(ptr);
                && code == 0
                && CanShrink(Cleared(h, i), i) && heapNodes[..] == Freed(checked, h, i)
                && Order(h[i]) <= ORDER_MAX && i % Pow2(Order(h[i])) == 0 && Fits(old(tree), ORDER_MAX)
                && (checked || !Damages(h, i) ==> Valid() && tree == TreeAfterFree(old(tree), i))
    {
      hide Rep, Sane, Canonical, Pow2, Damages, TreeAfterFree, Shrunk;
      var ptrPage := ptr / PAGE_BYTES % 256;
      var offset := ptr % PAGE_BYTES;
      var idx := offset / UNIT_BYTES;
      var heapLoc := heapPte / PAGE_BYTES % 256;
      if !IsUsed(heapNodes[idx]) || ptrPage != heapLoc { return -1; }
      ghost var h := heapNodes[..];
      FreeKeeps(checked, h, tree, idx, clean);
      heapNodes[idx] := ClearUsed(heapNodes[idx]);
      assert heapNodes[..] == Cleared(h, idx);
      Shrink(checked, heapNodes, idx);
      if checked || !Damages(h, idx) { tree := TreeAfterFree(tree, idx); }
      code := 0;
    }
  }

  predicate GoodPte(pte: nat) {
    0 < pte / PAGE_BYTES < FRAMES && pte % PAGE_BYTES < 8
  }

  lemma EntryOfFrame(frame: nat, flags: nat)
    requires 0 < frame < FRAMES && flags < 8
    ensures GoodPte(frame * PAGE_BYTES + flags)
  {
    DivisionIsUnique(frame * PAGE_BYTES + flags, PAGE_BYTES, frame, flags);
  }

  lemma PageOfEntry(pte: nat)
    requires pte % PAGE_BYTES < 8
    ensures pte - pte % 8 == pte / PAGE_BYTES * PAGE_BYTES
  {
    var q, r := pte / PAGE_BYTES, pte % PAGE_BYTES;
    DivisionIsUnique(pte, 8, 512 * q, r);
  }

  lemma NoRoomFor(t: Tree, o: nat)
    requires Fits(t, ORDER_MAX) && Pick(Cells(t, ORDER_MAX, 0), o) == |Cells(t, ORDER_MAX, 0)|
    ensures Placed(t, ORDER_MAX, o) == NoRoom && Allocated(t, ORDER_MAX, o) == t
  {
  }

  function AddressOf(pte: nat, p: Placement): int {
    match p
    case NoRoom => 0
    case At(start) => pte / PAGE_BYTES * PAGE_BYTES + start * UNIT_BYTES
  }

  function UnitOf(ptr: int): (i: nat)
    ensures i < UNITS
  {
    ptr % PAGE_BYTES / UNIT_BYTES
  }

  // The one test mfree makes of an address: some block head with the used bit, on a page whose number agrees with
  // the heap page in its low eight bits.
  predicate Accepts(h: seq<int>, pte: nat, ptr: int)
    requires |h| == UNITS
  {
    IsUsed(h[UnitOf(ptr)]) && ptr / PAGE_BYTES % 256 == pte / PAGE_BYTES % 256
  }

  // Coalesce the free block at idx with its buddies.
  method Shrink(checked: bool, heap: array<int>, idx: nat)
    requires heap.Length == UNITS && CanShrink(heap[..], idx)
    modifies heap
    ensures heap[..] == Shrunk(checked, old(heap[..]), idx)
    decreases ORDER_MAX - heap[idx]
  {
    hide Shrunk, Pow2, IsUsed;
    var order := heap[idx];
    ghost var h := heap[..];
    ShrunkUnfolds(checked, h, idx);
    var size := PowerOfTwo(order);
    var right := idx / size % 2;
    if right == 1 {
      var buddy := idx - size;
      if IsUsed(heap[buddy]) || (checked && heap[buddy] != order) { return; }
      heap[idx] := 0;
      heap[buddy] := order + 1;
      assert heap[..] == h[idx := 0][buddy := order + 1];
      Shrink(checked, heap, buddy);
      return;
    }
    var buddy := idx + size;
    if order < ORDER_MAX && heap[buddy] == order && !IsUsed(heap[buddy]) {
      heap[buddy] := 0;
      heap[idx] := order + 1;
      assert heap[..] == h[buddy := 0][idx := order + 1];
      Shrink(checked, heap, idx);
    }
  }

  lemma MarkCarved(h: seq<int>, base: nat, k: nat, o: nat, clean: bool)
    requires o <= k <= ORDER_MAX && Rep(h, base, SplitTo(k, o), k, clean)
    ensures base < |h| && Rep(h[base := SetUsed(h[base])], base, Carve(k, o), k, clean)
    decreases k
  {
    hide Pow2, IsUsed;
    SplitHead(h, base, k, o, clean);
    NotUsed(o);
    var h' := h[base := SetUsed(h[base])];
    if o < k {
      MarkCarved(h, base, k - 1, o, clean);
      RepFrame(h, h', base + Half(k), Free, k - 1, clean);
    }
  }

  lemma SaneMark(h: seq<int>, i: nat)
    requires Sane(h) && i < UNITS
    ensures Sane(h[i := SetUsed(h[i])])
  {
    hide Pow2;
    assert SaneEntry(h[i], i);
    assert SaneEntry(SetUsed(h[i]), i);
  }

  lemma AllocatedRep(h0: seq<int>, h: seq<int>, t: Tree, o: nat, idx: nat, clean: bool)
    requires |h0| == |h| == UNITS && o <= ORDER_MAX && Rep(h0, 0, t, ORDER_MAX, clean)
    requires MadeIndex(h0, h, t, o, idx, clean)
    ensures idx < UNITS && Placed(t, ORDER_MAX, o) == At(idx)
    ensures Rep(h[idx := SetUsed(h[idx])], 0, Allocated(t, ORDER_MAX, o), ORDER_MAX, clean)
    ensures Sane(h0) ==> Sane(h[idx := SetUsed(h[idx])])
  {
    hide Rep, Sane, Pow2, IsUsed;
    RepBound(h0, 0, t, ORDER_MAX, clean);
    PlacedIsHead(t, ORDER_MAX, o);
    var cs := Cells(t, ORDER_MAX, 0);
    var c := cs[Pick(cs, o)];
    HeadsAreCells(t, ORDER_MAX, 0, c);
    RepHead(h0, 0, t, ORDER_MAX, clean, idx);
    MarkCarved(h, idx, c.order, o, clean);
    RepReplace(h0, h[idx := SetUsed(h[idx])], 0, t, ORDER_MAX, clean, idx, Carve(c.order, o));
    if Sane(h) { SaneMark(h, idx); }
  }
}
