/** How the 128-entry heap array of a process encodes a buddy tree: the low four bits of a block head hold its
    order, bit 4 says "used", and entries inside a block say nothing. */
module BuddyArray {
  import opened Powers
  import opened BuddyTree

  const ORDER_MAX: nat := 7
  const UNITS: nat := 128

  function Order(v: int): nat { v % 16 }

  predicate IsUsed(v: int) { v / 16 % 2 == 1 }

  // v | (1 << 4) and v & ~(1 << 4)
  function SetUsed(v: int): int { if IsUsed(v) then v else v + 16 }
  function ClearUsed(v: int): int { if IsUsed(v) then v - 16 else v }

  // The walk every heap routine makes: from one head to the next.
  function Walk(h: seq<int>, i: nat): seq<Cell>
    decreases |h| - i
  {
    if i >= |h| then []
    else [Cell(i, Order(h[i]), IsUsed(h[i]))] + Walk(h, i + Pow2(Order(h[i])))
  }

  // The outstanding blocks that the walk finds.
  ghost function Outstanding(h: seq<int>): set<Block> {
    set c | c in Walk(h, 0) && c.used :: Block(c.start, c.order)
  }

  // Entries base .. base + 2^k of `h` encode `t`. In a clean heap the entries inside a block are zero.
  ghost predicate Rep(h: seq<int>, base: nat, t: Tree, k: nat, clean: bool)
    decreases t
  {
    && Fits(t, k)
    && base + Pow2(k) <= |h|
    && match t
       case Leaf(used) =>
         && h[base] == k + (if used then 16 else 0)
         && (clean ==> forall j :: base < j < base + Pow2(k) ==> h[j] == 0)
       case Node(l, r) =>
         && Rep(h, base, l, k - 1, clean)
         && Rep(h, base + Half(k), r, k - 1, clean)
  }

  ghost predicate SameOutside(h: seq<int>, h': seq<int>, base: nat, k: nat) {
    |h| == |h'| && forall j :: 0 <= j < |h| && !(base <= j < base + Pow2(k)) ==> h[j] == h'[j]
  }

  ghost predicate SameInside(h: seq<int>, h': seq<int>, base: nat, k: nat) {
    |h| == |h'| && forall j :: 0 <= j < |h| && base <= j < base + Pow2(k) ==> h[j] == h'[j]
  }

  lemma RepChildren(h: seq<int>, base: nat, l: Tree, r: Tree, k: nat, clean: bool)
    requires Rep(h, base, Node(l, r), k, clean)
    ensures k > 0 && Fits(l, k - 1) && Fits(r, k - 1)
    ensures Rep(h, base, l, k - 1, clean) && Rep(h, base + Half(k), r, k - 1, clean)
  {
  }

  lemma RepJoin(h: seq<int>, base: nat, l: Tree, r: Tree, k: nat, clean: bool)
    requires k > 0 && Rep(h, base, l, k - 1, clean) && Rep(h, base + Half(k), r, k - 1, clean)
    ensures Rep(h, base, Node(l, r), k, clean)
  {
  }

  lemma RepBound(h: seq<int>, base: nat, t: Tree, k: nat, clean: bool)
    requires Rep(h, base, t, k, clean)
    ensures Fits(t, k) && base + Pow2(k) <= |h|
  {
  }

  lemma RepLeaf(h: seq<int>, base: nat, used: bool, k: nat, clean: bool)
    requires Rep(h, base, Leaf(used), k, clean)
    ensures base < |h| && h[base] == k + (if used then 16 else 0)
  {
  }

  lemma {:induction false} RepFrame(h: seq<int>, h': seq<int>, base: nat, t: Tree, k: nat, clean: bool)
    requires Rep(h, base, t, k, clean) && SameInside(h, h', base, k)
    ensures Rep(h', base, t, k, clean)
    decreases t
  {
    match t
    case Leaf(_) =>
    case Node(l, r) =>
      RepFrame(h, h', base, l, k - 1, clean);
      RepFrame(h, h', base + Half(k), r, k - 1, clean);
  }

  lemma {:induction false} RepUnclean(h: seq<int>, base: nat, t: Tree, k: nat, clean: bool)
    requires Rep(h, base, t, k, clean)
    ensures Rep(h, base, t, k, false)
    decreases t
  {
    match t
    case Leaf(_) =>
    case Node(l, r) =>
      RepUnclean(h, base, l, k - 1, clean);
      RepUnclean(h, base + Half(k), r, k - 1, clean);
  }

  lemma {:induction false} RepHead(h: seq<int>, base: nat, t: Tree, k: nat, clean: bool, start: nat)
    requires Rep(h, base, t, k, clean) && IsHead(t, k, base, start)
    ensures start < |h| && var c := HeadCell(t, k, base, start); h[start] == c.order + (if c.used then 16 else 0)
    ensures start + Pow2(HeadCell(t, k, base, start).order) <= |h|
    decreases t
  {
    match t
    case Leaf(_) =>
    case Node(l, r) =>
      if start < base + Half(k) {
        RepHead(h, base, l, k - 1, clean, start);
      } else {
        RepHead(h, base + Half(k), r, k - 1, clean, start);
      }
  }

  lemma {:induction false} HeadRep(h: seq<int>, base: nat, t: Tree, k: nat, clean: bool, start: nat)
    requires Rep(h, base, t, k, clean) && IsHead(t, k, base, start)
    ensures var c := HeadCell(t, k, base, start); Rep(h, start, Leaf(c.used), c.order, clean)
    decreases t
  {
    match t
    case Leaf(_) =>
    case Node(l, r) =>
      if start < base + Half(k) {
        HeadRep(h, base, l, k - 1, clean, start);
      } else {
        HeadRep(h, base + Half(k), r, k - 1, clean, start);
      }
  }

  // In a clean heap only the head of an outstanding block has its used bit set.
  lemma {:induction false} UsedIsHead(h: seq<int>, base: nat, t: Tree, k: nat, i: nat)
    requires Rep(h, base, t, k, true) && k < 16 && base <= i < base + Pow2(k) && IsUsed(h[i])
    ensures IsHead(t, k, base, i) && HeadCell(t, k, base, i).used
    decreases t
  {
    match t
    case Leaf(_) =>
    case Node(l, r) =>
      if i < base + Half(k) {
        UsedIsHead(h, base, l, k - 1, i);
      } else {
        UsedIsHead(h, base + Half(k), r, k - 1, i);
      }
  }

  lemma {:induction false} RepDetermines(h: seq<int>, h': seq<int>, base: nat, t: Tree, k: nat)
    requires Rep(h, base, t, k, true) && Rep(h', base, t, k, true) && |h| == |h'|
    ensures SameInside(h, h', base, k)
    decreases t
  {
    match t
    case Leaf(_) =>
    case Node(l, r) =>
      RepDetermines(h, h', base, l, k - 1);
      RepDetermines(h, h', base + Half(k), r, k - 1);
  }

  lemma {:induction false} RepWalk(h: seq<int>, base: nat, t: Tree, k: nat, clean: bool)
    requires Rep(h, base, t, k, clean) && k < 16
    ensures Walk(h, base) == Cells(t, k, base) + Walk(h, base + Pow2(k))
    decreases t
  {
    hide Rep, Walk;
    match t
    case Leaf(used) =>
      RepLeaf(h, base, used, k, clean);
      WalkStep(h, base, k, used);
    case Node(l, r) =>
      RepChildren(h, base, l, r, k, clean);
      var mid, end := base + Half(k), base + Pow2(k);
      RepWalk(h, base, l, k - 1, clean);
      RepWalk(h, mid, r, k - 1, clean);
      calc {
        Walk(h, base);
        Cells(l, k - 1, base) + (Cells(r, k - 1, mid) + Walk(h, end));
        Cells(l, k - 1, base) + Cells(r, k - 1, mid) + Walk(h, end);
      }
  }

  lemma WalkStep(h: seq<int>, i: nat, k: nat, used: bool)
    requires i < |h| && k < 16 && h[i] == k + (if used then 16 else 0)
    ensures Walk(h, i) == [Cell(i, k, used)] + Walk(h, i + Pow2(k))
  {
    assert Order(h[i]) == k && IsUsed(h[i]) == used;
  }

  lemma OutstandingIsUsed(h: seq<int>, t: Tree, clean: bool)
    requires |h| == UNITS && Rep(h, 0, t, ORDER_MAX, clean)
    ensures Outstanding(h) == Used(t, ORDER_MAX, 0)
  {
    Pow2Table();
    RepWalk(h, 0, t, ORDER_MAX, clean);
    assert Walk(h, 0) == Cells(t, ORDER_MAX, 0);
    UsedAreCells(t, ORDER_MAX, 0);
    forall b: Block
      ensures b in Outstanding(h) <==> Cell(b.start, b.order, true) in Walk(h, 0)
    {
      if b in Outstanding(h) {
        var c :| c in Walk(h, 0) && c.used && Block(c.start, c.order) == b;
        assert c == Cell(b.start, b.order, true);
      }
      if Cell(b.start, b.order, true) in Walk(h, 0) {
        var c := Cell(b.start, b.order, true);
        assert c.used && Block(c.start, c.order) == b;
      }
    }
  }

  lemma {:induction false} RepReplace(h: seq<int>, h': seq<int>, base: nat, t: Tree, k: nat, clean: bool, start: nat,
      sub: Tree)
    requires Rep(h, base, t, k, clean) && IsHead(t, k, base, start)
    requires var o := HeadCell(t, k, base, start).order; SameOutside(h, h', start, o) && Rep(h', start, sub, o, clean)
    ensures Rep(h', base, Replace(t, k, base, start, sub), k, clean)
    decreases t
  {
    hide Rep, Pow2;
    RepBound(h, base, t, k, clean);
    RepBound(h', start, sub, HeadCell(t, k, base, start).order, clean);
    match t
    case Leaf(_) =>
    case Node(l, r) =>
      var mid := base + Half(k);
      RepChildren(h, base, l, r, k, clean);
      if start < mid {
        HeadRange(l, k - 1, base, start);
        RepReplace(h, h', base, l, k - 1, clean, start, sub);
        RepFrame(h, h', mid, r, k - 1, clean);
        RepJoin(h', base, Replace(l, k - 1, base, start, sub), r, k, clean);
      } else {
        HeadRange(r, k - 1, mid, start);
        RepReplace(h, h', mid, r, k - 1, clean, start, sub);
        RepFrame(h, h', base, l, k - 1, clean);
        RepJoin(h', base, l, Replace(r, k - 1, mid, start, sub), k, clean);
      }
  }

  // ---- Coalescing on the array ----

  ghost predicate CanShrink(h: seq<int>, idx: nat) {
    |h| == UNITS && idx < UNITS && 0 <= h[idx] <= ORDER_MAX && idx % Pow2(h[idx]) == 0
  }

  lemma BuddiesAreInRange(idx: nat, k: nat)
    requires k <= ORDER_MAX && idx < UNITS && idx % Pow2(k) == 0
    ensures idx / Pow2(k) % 2 == 1 ==> k < ORDER_MAX && idx >= Pow2(k) && (idx - Pow2(k)) % Pow2(k + 1) == 0
    ensures idx / Pow2(k) % 2 == 0 && k < ORDER_MAX ==> idx + Pow2(k) < UNITS && idx % Pow2(k + 1) == 0
  {
    var p := Pow2(k);
    Pow2Add(k, ORDER_MAX - k);
    Pow2Table();
    if idx / p % 2 == 1 {
      BuddyBelow(idx, p);
    } else if k < ORDER_MAX {
      var n := Pow2(ORDER_MAX - k - 1);
      assert UNITS == (2 * p) * n by { Reassociate(p, n); }
      BuddyAbove(idx, p, n);
    }
  }

  // The value the recursion computes. `checked` adds the equal-order test to the right-child branch; the
  // committed code runs with `checked` false. An order-7 block has no buddy in the array.
  function Shrunk(checked: bool, h: seq<int>, idx: nat): (r: seq<int>)
    requires CanShrink(h, idx)
    ensures |r| == |h|
    decreases ORDER_MAX - h[idx]
  {
    BuddiesAreInRange(idx, h[idx]);
    var order := h[idx];
    var size := Pow2(order);
    if idx / size % 2 == 1 then
      var buddy := idx - size;
      if IsUsed(h[buddy]) || (checked && h[buddy] != order) then h
      else Shrunk(checked, h[idx := 0][buddy := order + 1], buddy)
    else if order < ORDER_MAX && h[idx + size] == order && !IsUsed(h[idx + size]) then
      Shrunk(checked, h[idx + size := 0][idx := order + 1], idx)
    else h
  }

  lemma ShrunkUnfolds(checked: bool, h: seq<int>, idx: nat)
    requires CanShrink(h, idx)
    ensures Order(h[idx]) == h[idx]
    ensures idx / Pow2(h[idx]) % 2 == 1 ==> idx >= Pow2(h[idx]) && h[idx] < ORDER_MAX
    ensures idx / Pow2(h[idx]) % 2 == 0 && h[idx] < ORDER_MAX ==> idx + Pow2(h[idx]) < UNITS
    ensures idx / Pow2(h[idx]) % 2 == 1 ==>
              var buddy := idx - Pow2(h[idx]);
              var h' := h[idx := 0][buddy := h[idx] + 1];
              && CanShrink(h', buddy)
              && Shrunk(checked, h, idx)
                 == if IsUsed(h[buddy]) || (checked && h[buddy] != h[idx]) then h else Shrunk(checked, h', buddy)
    ensures idx / Pow2(h[idx]) % 2 == 0 && h[idx] < ORDER_MAX ==>
              var buddy := idx + Pow2(h[idx]);
              var h' := h[buddy := 0][idx := h[idx] + 1];
              && CanShrink(h', idx)
              && Shrunk(checked, h, idx)
                 == if h[buddy] == h[idx] && !IsUsed(h[buddy]) then Shrunk(checked, h', idx) else h
    ensures idx / Pow2(h[idx]) % 2 == 0 && h[idx] == ORDER_MAX ==> Shrunk(checked, h, idx) == h
  {
    BuddiesAreInRange(idx, h[idx]);
  }

  // From `h` the recursion at `idx` amounts to array `h'`: finished, or about to go on at `base`.
  ghost predicate Climbed(checked: bool, h: seq<int>, idx: nat, h': seq<int>, base: nat, goesOn: bool) {
    && CanShrink(h, idx)
    && (if goesOn then CanShrink(h', base) && Shrunk(checked, h, idx) == Shrunk(checked, h', base)
        else Shrunk(checked, h, idx) == h')
  }

  lemma ClimbStart(checked: bool, h: seq<int>, base: nat, k: nat)
    requires CanShrink(h, base)
    ensures SameOutside(h, h, base, k) && Climbed(checked, h, base, h, base, true)
  {
  }

  // `idx` has been freed in the array: the recursion climbs out of the subtree exactly as Release does, and goes
  // on at the subtree's root just when the whole subtree became free.
  lemma {:induction false} ShrinkClimbs(checked: bool, h: seq<int>, base: nat, t: Tree, k: nat, idx: nat, clean: bool)
    returns (h': seq<int>)
    requires |h| == UNITS && k <= ORDER_MAX && base % Pow2(k) == 0
    requires Fits(t, k) && IsHead(t, k, base, idx)
    requires Rep(h, base, Replace(t, k, base, idx, Free), k, clean)
    requires clean ==> checked
    requires CanShrink(h, idx)
    ensures SameOutside(h, h', base, k)
    ensures Rep(h', base, Release(checked, t, k, base, idx), k, clean)
    ensures Climbed(checked, h, idx, h', base, Release(checked, t, k, base, idx) == Free)
    decreases t
  {
    hide Rep, Climbed, SameOutside, Pow2;
    match t
    case Leaf(_) =>
      ClimbStart(checked, h, base, k);
      h' := h;
    case Node(l, r) =>
      var mid := base + Half(k);
      HalvesAreAligned(base, k - 1);
      if idx < mid {
        RepChildren(h, base, Replace(l, k - 1, base, idx, Free), r, k, clean);
        var h1 := ShrinkClimbs(checked, h, base, l, k - 1, idx, clean);
        h' := ClimbLeft(checked, h, idx, h1, base, Release(checked, l, k - 1, base, idx), r, k, clean);
      } else {
        RepChildren(h, base, l, Replace(r, k - 1, mid, idx, Free), k, clean);
        var h1 := ShrinkClimbs(checked, h, mid, r, k - 1, idx, clean);
        h' := ClimbRight(checked, h, idx, h1, base, l, Release(checked, r, k - 1, mid, idx), k, clean);
      }
  }

  lemma ClimbLeft(checked: bool, h: seq<int>, idx: nat, h1: seq<int>, base: nat, l: Tree, r: Tree, k: nat, clean: bool)
    returns (h': seq<int>)
    requires |h| == UNITS && 0 < k <= ORDER_MAX && base % Pow2(k) == 0
    requires SameOutside(h, h1, base, k - 1)
    requires Rep(h1, base, l, k - 1, clean) && Rep(h, base + Half(k), r, k - 1, clean)
    requires Climbed(checked, h, idx, h1, base, l == Free)
    ensures SameOutside(h, h', base, k)
    ensures Rep(h', base, JoinLeft(l, r), k, clean)
    ensures Climbed(checked, h, idx, h', base, JoinLeft(l, r) == Free)
  {
    hide Shrunk, Rep;
    RepFrame(h, h1, base + Half(k), r, k - 1, clean);
    h' := JoinFromLeft(checked, h1, base, l, r, k, clean);
  }

  lemma ClimbRight(checked: bool, h: seq<int>, idx: nat, h1: seq<int>, base: nat, l: Tree, r: Tree, k: nat, clean: bool)
    returns (h': seq<int>)
    requires |h| == UNITS && 0 < k <= ORDER_MAX && base % Pow2(k) == 0
    requires SameOutside(h, h1, base + Half(k), k - 1)
    requires Rep(h, base, l, k - 1, clean) && Rep(h1, base + Half(k), r, k - 1, clean)
    requires clean ==> checked
    requires Climbed(checked, h, idx, h1, base + Half(k), r == Free)
    ensures SameOutside(h, h', base, k)
    ensures Rep(h', base, JoinRight(checked, l, r), k, clean)
    ensures Climbed(checked, h, idx, h', base, JoinRight(checked, l, r) == Free)
  {
    hide Shrunk, Rep;
    RepFrame(h, h1, base, l, k - 1, clean);
    h' := JoinFromRight(checked, h1, base, l, r, k, clean);
  }

  lemma HeadEntry(h: seq<int>, base: nat, t: Tree, k: nat, clean: bool)
    requires Rep(h, base, t, k, clean) && k < 16
    ensures base < |h| && h[base] >= 0
    ensures IsUsed(h[base]) <==> !HeadFree(t)
    ensures h[base] == k <==> t == Free
  {
    match t
    case Leaf(_) =>
    case Node(l, _) =>
      HeadEntry(h, base, l, k - 1, clean);
      HeadOrder(h, base, t, k, clean);
  }

  lemma HeadOrder(h: seq<int>, base: nat, t: Tree, k: nat, clean: bool)
    requires Rep(h, base, t, k, clean) && k < 16
    ensures base < |h| && h[base] % 16 <= k && (t.Node? ==> h[base] % 16 < k)
  {
  }

  lemma ShrunkAtLeft(checked: bool, h: seq<int>, base: nat, o: nat)
    requires |h| == UNITS && o < ORDER_MAX && base % Pow2(o + 1) == 0 && base < UNITS && h[base] == o
    ensures CanShrink(h, base) && base + Pow2(o) < UNITS
    ensures var mid := base + Pow2(o);
            var h' := h[mid := 0][base := o + 1];
            CanShrink(h', base) &&
            Shrunk(checked, h, base) == if h[mid] == o && !IsUsed(h[mid]) then Shrunk(checked, h', base) else h
  {
    HalvesParity(base, o);
    BuddiesAreInRange(base, o);
  }

  lemma ShrunkAtRight(checked: bool, h: seq<int>, base: nat, o: nat)
    requires |h| == UNITS && o < ORDER_MAX && base % Pow2(o + 1) == 0
    requires base + Pow2(o) < UNITS && h[base + Pow2(o)] == o
    ensures CanShrink(h, base + Pow2(o))
    ensures var mid := base + Pow2(o);
            var h' := h[mid := 0][base := o + 1];
            CanShrink(h', base) &&
            Shrunk(checked, h, mid)
            == if IsUsed(h[base]) || (checked && h[base] != o) then h else Shrunk(checked, h', base)
  {
    HalvesParity(base, o);
  }

  lemma MergedRight(h: seq<int>, base: nat, l: Tree, k: nat, clean: bool)
    requires 0 < k <= ORDER_MAX
    requires Rep(h, base, l, k - 1, clean) && Rep(h, base + Half(k), Free, k - 1, clean)
    requires clean ==> l == Free
    ensures base + Pow2(k) <= |h| && Rep(h[base + Half(k) := 0][base := k], base, Free, k, clean)
  {
  }

  // One level up from a coalesced left child, and from a coalesced right child.
  lemma JoinFromLeft(checked: bool, h: seq<int>, base: nat, l: Tree, r: Tree, k: nat,
      clean: bool) returns (h': seq<int>)
    requires |h| == UNITS && 0 < k <= ORDER_MAX && base % Pow2(k) == 0
    requires Rep(h, base, l, k - 1, clean) && Rep(h, base + Half(k), r, k - 1, clean)
    ensures SameOutside(h, h', base, k)
    ensures Rep(h', base, JoinLeft(l, r), k, clean)
    ensures JoinLeft(l, r) == Free ==> CanShrink(h', base)
    ensures l == Free ==> CanShrink(h, base)
    ensures JoinLeft(l, r) == Free ==> Shrunk(checked, h, base) == Shrunk(checked, h', base)
    ensures JoinLeft(l, r) != Free ==> h' == h
    ensures l == Free && r != Free ==> Shrunk(checked, h, base) == h
  {
    hide Shrunk, IsUsed, Rep;
    var mid := base + Half(k);
    HeadEntry(h, mid, r, k - 1, clean);
    if l == Free {
      RepLeaf(h, base, false, k - 1, clean);
      ShrunkAtLeft(checked, h, base, k - 1);
      if r == Free { MergedRight(h, base, l, k, clean); }
    }
    if JoinLeft(l, r) != Free { RepJoin(h, base, l, r, k, clean); }
    h' := if JoinLeft(l, r) == Free then h[mid := 0][base := k] else h;
  }

  lemma JoinFromRight(checked: bool, h: seq<int>, base: nat, l: Tree, r: Tree, k: nat,
      clean: bool) returns (h': seq<int>)
    requires |h| == UNITS && 0 < k <= ORDER_MAX && base % Pow2(k) == 0
    requires Rep(h, base, l, k - 1, clean) && Rep(h, base + Half(k), r, k - 1, clean)
    requires clean ==> checked
    ensures SameOutside(h, h', base, k)
    ensures Rep(h', base, JoinRight(checked, l, r), k, clean)
    ensures JoinRight(checked, l, r) == Free ==> CanShrink(h', base)
    ensures r == Free ==> CanShrink(h, base + Half(k))
    ensures JoinRight(checked, l, r) == Free ==> Shrunk(checked, h, base + Half(k)) == Shrunk(checked, h', base)
    ensures JoinRight(checked, l, r) != Free ==> h' == h
    ensures r == Free && JoinRight(checked, l, r) != Free ==> Shrunk(checked, h, base + Half(k)) == h
  {
    hide Shrunk, IsUsed, Rep;
    var mid := base + Half(k);
    HeadEntry(h, base, l, k - 1, clean);
    if r == Free {
      RepLeaf(h, mid, false, k - 1, clean);
      ShrunkAtRight(checked, h, base, k - 1);
      if JoinRight(checked, l, r) == Free { MergedRight(h, base, l, k, clean); }
    }
    if JoinRight(checked, l, r) != Free { RepJoin(h, base, l, r, k, clean); }
    h' := if JoinRight(checked, l, r) == Free then h[mid := 0][base := k] else h;
  }

  // ---- The guard under which the committed merge is sound ----

  // Read before the call: do the merges starting from a block of order `order` at `idx` meet a right child whose
  // left buddy is free at its head but is not of equal order?
  predicate MixedMerge(h: seq<int>, idx: nat, order: nat)
    requires |h| == UNITS && idx < UNITS && order <= ORDER_MAX && idx % Pow2(order) == 0
    decreases ORDER_MAX - order
  {
    BuddiesAreInRange(idx, order);
    var size := Pow2(order);
    if idx / size % 2 == 1 then
      !IsUsed(h[idx - size]) && (h[idx - size] != order || MixedMerge(h, idx - size, order + 1))
    else
      order < ORDER_MAX && h[idx + size] == order && MixedMerge(h, idx, order + 1)
  }

  lemma MixedAtLeft(h: seq<int>, base: nat, r: Tree, k: nat, clean: bool)
    requires |h| == UNITS && 0 < k <= ORDER_MAX && base % Pow2(k) == 0 && base < UNITS
    requires Rep(h, base + Half(k), r, k - 1, clean)
    ensures base % Pow2(k - 1) == 0
    ensures MixedMerge(h, base, k - 1) <==> r == Free && MixedMerge(h, base, k)
  {
    HalvesParity(base, k - 1);
    HeadEntry(h, base + Half(k), r, k - 1, clean);
  }

  lemma MixedAtRight(h: seq<int>, base: nat, l: Tree, k: nat, clean: bool)
    requires |h| == UNITS && 0 < k <= ORDER_MAX && base % Pow2(k) == 0 && base + Half(k) < UNITS
    requires Rep(h, base, l, k - 1, clean)
    ensures (base + Half(k)) % Pow2(k - 1) == 0
    ensures MixedMerge(h, base + Half(k), k - 1) <==> HeadFree(l) && (l != Free || MixedMerge(h, base, k))
  {
    HalvesParity(base, k - 1);
    HeadEntry(h, base, l, k - 1, clean);
  }

  lemma {:induction false} MixedClimbs(h: seq<int>, base: nat, t: Tree, k: nat, idx: nat, clean: bool)
    requires |h| == UNITS && k <= ORDER_MAX && base % Pow2(k) == 0
    requires Rep(h, base, t, k, clean) && IsHead(t, k, base, idx)
    ensures var o := HeadCell(t, k, base, idx).order;
            idx < UNITS && idx % Pow2(o) == 0 &&
            (MixedMerge(h, idx, o)
             <==> Swallows(t, k, base, idx) || (Release(true, t, k, base, idx) == Free && MixedMerge(h, base, k)))
    decreases t
  {
    hide Rep, MixedMerge, Pow2;
    RepBound(h, base, t, k, clean);
    match t
    case Leaf(_) =>
    case Node(l, r) =>
      HalvesAreAligned(base, k - 1);
      RepChildren(h, base, l, r, k, clean);
      if idx < base + Half(k) {
        MixedClimbs(h, base, l, k - 1, idx, clean);
        MixedAtLeft(h, base, r, k, clean);
      } else {
        MixedClimbs(h, base + Half(k), r, k - 1, idx, clean);
        MixedAtRight(h, base, l, k, clean);
      }
  }

  // The buddy of a block, and the block the two make.
  lemma BuddyBlock(idx: nat, order: nat)
    requires order <= ORDER_MAX && idx < UNITS && idx % Pow2(order) == 0
    ensures Pow2(order) > 0 && Pow2(order + 1) == 2 * Pow2(order)
    ensures idx / Pow2(order) % 2 == 1 ==>
      order < ORDER_MAX && idx >= Pow2(order) && (idx - Pow2(order)) % Pow2(order + 1) == 0
    ensures idx / Pow2(order) % 2 == 0 && order < ORDER_MAX ==>
      idx + Pow2(order) < UNITS && idx % Pow2(order + 1) == 0
  {
    BuddiesAreInRange(idx, order);
  }

  lemma {:induction false} MixedFrame(h: seq<int>, h': seq<int>, idx: nat, order: nat)
    requires |h| == UNITS && idx < UNITS && order <= ORDER_MAX && idx % Pow2(order) == 0
    requires SameOutside(h, h', idx, order)
    ensures MixedMerge(h, idx, order) == MixedMerge(h', idx, order)
    decreases ORDER_MAX - order
  {
    hide Pow2, IsUsed;
    BuddyBlock(idx, order);
    if idx / Pow2(order) % 2 == 1 {
      MixedFrame(h, h', idx - Pow2(order), order + 1);
    } else if order < ORDER_MAX {
      MixedFrame(h, h', idx, order + 1);
    }
  }

  // One merge on: what lies ahead of the merged block lay ahead of the smaller one.
  lemma MixedAhead(h: seq<int>, idx: nat, order: nat)
    requires |h| == UNITS && idx < UNITS && order <= ORDER_MAX && idx % Pow2(order) == 0
    requires !MixedMerge(h, idx, order)
    ensures idx / Pow2(order) % 2 == 1 ==>
      var buddy := idx - Pow2(order);
      && 0 <= buddy && order < ORDER_MAX && buddy % Pow2(order + 1) == 0
      && (!IsUsed(h[buddy]) ==> h[buddy] == order && !MixedMerge(h[idx := 0][buddy := order + 1], buddy, order + 1))
    ensures idx / Pow2(order) % 2 == 0 && order < ORDER_MAX ==>
      var buddy := idx + Pow2(order);
      && buddy < UNITS && idx % Pow2(order + 1) == 0
      && (h[buddy] == order ==> !MixedMerge(h[buddy := 0][idx := order + 1], idx, order + 1))
  {
    hide Pow2, IsUsed;
    BuddyBlock(idx, order);
    if idx / Pow2(order) % 2 == 1 {
      var buddy := idx - Pow2(order);
      MixedFrame(h, h[idx := 0][buddy := order + 1], buddy, order + 1);
    } else if order < ORDER_MAX {
      var buddy := idx + Pow2(order);
      MixedFrame(h, h[buddy := 0][idx := order + 1], idx, order + 1);
    }
  }

  // Without a mixed merge ahead, the committed recursion writes exactly what the checked one writes.
  lemma {:induction false} UncheckedIsChecked(h: seq<int>, idx: nat)
    requires CanShrink(h, idx) && !MixedMerge(h, idx, h[idx])
    ensures Shrunk(false, h, idx) == Shrunk(true, h, idx)
    decreases ORDER_MAX - h[idx]
  {
    hide Shrunk, IsUsed, MixedMerge, Pow2;
    var order := h[idx];
    ShrunkUnfolds(false, h, idx);
    ShrunkUnfolds(true, h, idx);
    MixedAhead(h, idx, order);
    if idx / Pow2(order) % 2 == 1 {
      var buddy := idx - Pow2(order);
      if !IsUsed(h[buddy]) { UncheckedIsChecked(h[idx := 0][buddy := order + 1], buddy); }
    } else if order < ORDER_MAX && h[idx + Pow2(order)] == order && !IsUsed(h[idx + Pow2(order)]) {
      UncheckedIsChecked(h[idx + Pow2(order) := 0][idx := order + 1], idx);
    }
  }

  // Freeing the outstanding block at `idx`: the array in which its used bit is cleared, ready for the recursion.
  function Cleared(h: seq<int>, idx: nat): (h': seq<int>)
    requires idx < |h|
    ensures |h'| == |h|
  {
    h[idx := ClearUsed(h[idx])]
  }

  // What mfree leaves in the array once it has accepted the block whose first entry is `idx`.
  function Freed(checked: bool, h: seq<int>, idx: nat): (h': seq<int>)
    requires idx < |h| && CanShrink(Cleared(h, idx), idx)
    ensures |h'| == UNITS
  {
    Shrunk(checked, Cleared(h, idx), idx)
  }

  lemma ReadyToShrink(h: seq<int>, t: Tree, idx: nat, clean: bool)
    requires |h| == UNITS && Rep(h, 0, t, ORDER_MAX, clean)
    requires IsHead(t, ORDER_MAX, 0, idx) && HeadCell(t, ORDER_MAX, 0, idx).used
    ensures idx < UNITS && IsUsed(h[idx]) && Order(h[idx]) == HeadCell(t, ORDER_MAX, 0, idx).order <= ORDER_MAX
    ensures CanShrink(Cleared(h, idx), idx) && ClearUsed(h[idx]) == Order(h[idx])
    ensures Rep(Cleared(h, idx), 0, Replace(t, ORDER_MAX, 0, idx, Free), ORDER_MAX, clean)
    ensures MixedMerge(h, idx, Order(h[idx])) == MixedMerge(Cleared(h, idx), idx, Order(h[idx]))
    ensures MixedMerge(h, idx, Order(h[idx])) == Swallows(t, ORDER_MAX, 0, idx)
  {
    var c := HeadCell(t, ORDER_MAX, 0, idx);
    Pow2Table();
    RepHead(h, 0, t, ORDER_MAX, clean, idx);
    HeadRep(h, 0, t, ORDER_MAX, clean, idx);
    var h1 := Cleared(h, idx);
    RepReplace(h, h1, 0, t, ORDER_MAX, clean, idx, Free);
    MixedClimbs(h, 0, t, ORDER_MAX, idx, clean);
    MixedFrame(h, h1, idx, c.order);
  }

  // The checked release writes the array of the released tree ...
  lemma CheckedRelease(h: seq<int>, t: Tree, idx: nat, clean: bool)
    requires |h| == UNITS && Rep(h, 0, t, ORDER_MAX, clean)
    requires IsHead(t, ORDER_MAX, 0, idx) && HeadCell(t, ORDER_MAX, 0, idx).used
    ensures idx < UNITS && CanShrink(Cleared(h, idx), idx)
    ensures Rep(Freed(true, h, idx), 0, Release(true, t, ORDER_MAX, 0, idx), ORDER_MAX, clean)
  {
    hide Rep, Release, Shrunk, MixedMerge, Swallows;
    RepBound(h, 0, t, ORDER_MAX, clean);
    ReadyToShrink(h, t, idx, clean);
    Pow2Table();
    var h' := ShrinkClimbs(true, Cleared(h, idx), 0, t, ORDER_MAX, idx, clean);
    if Release(true, t, ORDER_MAX, 0, idx) == Free {
      RepLeaf(h', 0, false, ORDER_MAX, clean);
      ShrunkAtRoot(true, h');
    }
  }

  lemma ShrunkAtRoot(checked: bool, h: seq<int>)
    requires |h| == UNITS && h[0] == ORDER_MAX
    ensures CanShrink(h, 0) && Shrunk(checked, h, 0) == h
  {
    Pow2Table();
  }

  // The array that the committed release writes.
  lemma CommittedRelease(h: seq<int>, t: Tree, idx: nat)
    requires |h| == UNITS && Rep(h, 0, t, ORDER_MAX, false)
    requires IsHead(t, ORDER_MAX, 0, idx) && HeadCell(t, ORDER_MAX, 0, idx).used
    ensures idx < UNITS && CanShrink(Cleared(h, idx), idx)
    ensures Rep(Freed(false, h, idx), 0, Release(false, t, ORDER_MAX, 0, idx), ORDER_MAX, false)
  {
    hide Rep, Release, Shrunk, MixedMerge, Swallows;
    RepBound(h, 0, t, ORDER_MAX, false);
    ReadyToShrink(h, t, idx, false);
    Pow2Table();
    var h' := ShrinkClimbs(false, Cleared(h, idx), 0, t, ORDER_MAX, idx, false);
    if Release(false, t, ORDER_MAX, 0, idx) == Free {
      RepLeaf(h', 0, false, ORDER_MAX, false);
      ShrunkAtRoot(false, h');
    }
  }

  // ... and the committed release takes out exactly the freed block if and only if no mixed merge lies ahead.
  lemma CommittedReleaseIsSoundIff(h: seq<int>, t: Tree, idx: nat)
    requires |h| == UNITS && Rep(h, 0, t, ORDER_MAX, false) && Canonical(t)
    requires IsHead(t, ORDER_MAX, 0, idx) && HeadCell(t, ORDER_MAX, 0, idx).used
    ensures idx < UNITS && CanShrink(Cleared(h, idx), idx) && Order(h[idx]) <= ORDER_MAX
    ensures idx % Pow2(Order(h[idx])) == 0
    ensures Outstanding(Freed(false, h, idx)) == Outstanding(h) - {Block(idx, Order(h[idx]))}
            <==> !MixedMerge(h, idx, Order(h[idx]))
  {
    hide Rep, Release, MixedMerge, Swallows, Freed, Outstanding, Pow2;
    RepBound(h, 0, t, ORDER_MAX, false);
    ReadyToShrink(h, t, idx, false);
    CommittedRelease(h, t, idx);
    OutstandingIsUsed(h, t, false);
    OutstandingIsUsed(Freed(false, h, idx), Release(false, t, ORDER_MAX, 0, idx), false);
    if Swallows(t, ORDER_MAX, 0, idx) {
      UncheckedLoses(t, ORDER_MAX, 0, idx);
    } else {
      UncheckedAgrees(t, ORDER_MAX, 0, idx);
      ReleaseUsed(t, ORDER_MAX, 0, idx);
    }
  }
}
