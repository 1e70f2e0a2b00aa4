/** The heap array of a control block that has been used before. Only its first entry is reset, so inside the
    blocks lie entries of earlier owners, and mfree takes one whose used bit is set for the head of a block. */
module BuddyReuse {
  import opened Powers
  import opened BuddyTree
  import opened BuddyArray

  // What every entry ever written looks like: an order, perhaps the used bit, at a place aligned to that order.
  ghost predicate Sane(h: seq<int>) {
    |h| == UNITS && forall i: nat :: i < UNITS ==> SaneEntry(h[i], i)
  }

  predicate SaneEntry(v: int, i: nat) {
    0 <= v < 32 && Order(v) <= ORDER_MAX && i % Pow2(Order(v)) == 0
  }

  // Does the walk over the block heads come past entry i?
  predicate OnWalk(h: seq<int>, i: nat) {
    exists c :: c in Walk(h, 0) && c.start == i
  }

  // An entry with its used bit set that is not the head of any block.
  predicate Stale(h: seq<int>, i: nat)
    requires i < |h|
  {
    IsUsed(h[i]) && !OnWalk(h, i)
  }

  lemma OnWalkIsHead(h: seq<int>, t: Tree, clean: bool, i: nat)
    requires |h| == UNITS && Rep(h, 0, t, ORDER_MAX, clean)
    ensures Fits(t, ORDER_MAX) && (OnWalk(h, i) <==> IsHead(t, ORDER_MAX, 0, i))
  {
    hide Rep, Walk;
    RepBound(h, 0, t, ORDER_MAX, clean);
    Pow2Table();
    RepWalk(h, 0, t, ORDER_MAX, clean);
    WalkEnds(h);
    var cs := Cells(t, ORDER_MAX, 0);
    assert Walk(h, 0) == cs;
    if c :| c in cs && c.start == i { HeadsAreCells(t, ORDER_MAX, 0, c); }
    if IsHead(t, ORDER_MAX, 0, i) { HeadsAreCells(t, ORDER_MAX, 0, HeadCell(t, ORDER_MAX, 0, i)); }
  }

  lemma WalkEnds(h: seq<int>)
    ensures Walk(h, |h|) == []
  {
  }

  // ---- The block around an entry ----

  function Around(t: Tree, k: nat, base: nat, i: nat): (c: Cell)
    requires Fits(t, k)
  {
    match t
    case Leaf(used) => Cell(base, k, used)
    case Node(l, r) => if i < base + Half(k) then Around(l, k - 1, base, i) else Around(r, k - 1, base + Half(k), i)
  }

  lemma {:induction false} AroundIsHead(t: Tree, k: nat, base: nat, i: nat)
    requires Fits(t, k) && base <= i < base + Pow2(k) && base % Pow2(k) == 0
    ensures var c := Around(t, k, base, i);
            && IsHead(t, k, base, c.start) && HeadCell(t, k, base, c.start) == c
            && c.start <= i < c.start + Pow2(c.order) && c.start % Pow2(c.order) == 0
            && (IsHead(t, k, base, i) <==> c.start == i)
    decreases t
  {
    match t
    case Leaf(_) =>
    case Node(l, r) =>
      HalvesAreAligned(base, k - 1);
      var mid := base + Half(k);
      if i < mid {
        AroundIsHead(l, k - 1, base, i);
        HeadRange(l, k - 1, base, Around(l, k - 1, base, i).start);
      } else {
        AroundIsHead(r, k - 1, mid, i);
        HeadRange(r, k - 1, mid, Around(r, k - 1, mid, i).start);
      }
  }

  // An aligned place inside a block, but not at its head, is the place of a smaller block inside it.
  lemma InsideIsSmaller(b: nat, k: nat, i: nat, o: nat)
    requires b < i < b + Pow2(k) && b % Pow2(k) == 0 && i % Pow2(o) == 0
    ensures o < k && i + Pow2(o) <= b + Pow2(k)
  {
    hide Pow2;
    if o >= k {
      Pow2Add(k, o - k);
      NotInside(b, i, Pow2(k), Pow2(o - k));
    } else {
      Pow2Add(o, k - o);
      Inside(b, i, Pow2(o), Pow2(k - o));
    }
  }

  lemma NotInside(b: nat, i: nat, p: nat, g: nat)
    requires p > 0 && p * g > 0 && b % p == 0 && i % (p * g) == 0
    ensures !(b < i < b + p)
  {
    Multiple(b, p);
    Multiple(i, p * g);
    NoMultipleWithin(p, b / p, g, i / (p * g));
  }

  lemma Inside(b: nat, i: nat, q: nat, f: nat)
    requires q > 0 && q * f > 0 && b % (q * f) == 0 && i % q == 0 && i < b + q * f
    ensures i + q <= b + q * f
  {
    Multiple(b, q * f);
    Multiple(i, q);
    FitsWithin(q, i / q, f, b / (q * f));
  }

  lemma Multiple(b: nat, p: nat)
    requires p > 0 && b % p == 0
    ensures b == p * (b / p)
  {
  }

  lemma NoMultipleWithin(p: nat, m: nat, g: nat, x: nat)
    requires p > 0
    ensures !(p * m < (p * g) * x < p * m + p)
  {
    assert (p * g) * x == p * (g * x);
    if p * m < p * (g * x) { NextMultiple(p, m, g * x); }
  }

  lemma FitsWithin(q: nat, x: nat, f: nat, m: nat)
    requires q * x < (q * f) * m + q * f
    ensures q * x + q <= (q * f) * m + q * f
  {
    assert (q * f) * m == q * (f * m);
    Distribute(q, f * m, f);
    NextMultiple(q, x, f * m + f);
  }

  // ---- Where the climb ends ----

  // Read off the array before the call: the place and the order at which the merges from a free block of order
  // `order` at idx come to an end.
  datatype Place = Place(start: nat, order: nat)

  function Summit(checked: bool, h: seq<int>, idx: nat, order: nat): (s: Place)
    requires |h| == UNITS && idx < UNITS && order <= ORDER_MAX && idx % Pow2(order) == 0
    ensures s.start < UNITS && s.order <= ORDER_MAX && s.start % Pow2(s.order) == 0
    decreases ORDER_MAX - order
  {
    BuddyBlock(idx, order);
    var size := Pow2(order);
    if idx / size % 2 == 1 then
      if IsUsed(h[idx - size]) || (checked && h[idx - size] != order) then Place(idx, order)
      else Summit(checked, h, idx - size, order + 1)
    else if order < ORDER_MAX && h[idx + size] == order then Summit(checked, h, idx, order + 1)
    else Place(idx, order)
  }

  lemma {:induction false} SummitEncloses(checked: bool, h: seq<int>, idx: nat, order: nat)
    requires |h| == UNITS && idx < UNITS && order <= ORDER_MAX && idx % Pow2(order) == 0
    ensures var s := Summit(checked, h, idx, order);
            order <= s.order && s.start <= idx && idx + Pow2(order) <= s.start + Pow2(s.order)
    decreases ORDER_MAX - order
  {
    hide Pow2, IsUsed;
    BuddyBlock(idx, order);
    if idx / Pow2(order) % 2 == 1 {
      SummitEncloses(checked, h, idx - Pow2(order), order + 1);
    } else if order < ORDER_MAX {
      SummitEncloses(checked, h, idx, order + 1);
    }
  }

  // The climb reads only entries outside the block it has merged so far.
  lemma {:induction false} SummitFrame(checked: bool, h: seq<int>, h': seq<int>, idx: nat, order: nat)
    requires |h| == UNITS && idx < UNITS && order <= ORDER_MAX && idx % Pow2(order) == 0
    requires SameOutside(h, h', idx, order)
    ensures Summit(checked, h, idx, order) == Summit(checked, h', idx, order)
    decreases ORDER_MAX - order
  {
    hide Pow2, IsUsed;
    BuddyBlock(idx, order);
    if idx / Pow2(order) % 2 == 1 {
      SummitFrame(checked, h, h', idx - Pow2(order), order + 1);
    } else if order < ORDER_MAX {
      SummitFrame(checked, h, h', idx, order + 1);
    }
  }

  // What the recursion makes of the array: the merged block at the summit, and nothing outside it.
  ghost predicate Merged(h: seq<int>, h': seq<int>, s: Place) {
    |h'| == |h| && s.start < |h'| && h'[s.start] == s.order && SameOutside(h, h', s.start, s.order)
  }

  lemma MergedFrom(h: seq<int>, h1: seq<int>, h': seq<int>, s: Place, idx: nat, order: nat)
    requires SameOutside(h, h1, idx, order) && Merged(h1, h', s)
    requires s.start <= idx && idx + Pow2(order) <= s.start + Pow2(s.order)
    ensures Merged(h, h', s)
  {
  }

  // One merge, into the block at `at` of the next order, leaves the end of the climb where it was.
  lemma SummitAfterMerge(checked: bool, h: seq<int>, h1: seq<int>, r: seq<int>, at: nat, order: nat)
    requires |h| == UNITS && at < UNITS && order <= ORDER_MAX && at % Pow2(order) == 0
    requires SameOutside(h, h1, at, order) && Merged(h1, r, Summit(checked, h1, at, order))
    ensures Merged(h, r, Summit(checked, h, at, order))
  {
    hide Summit, Pow2;
    SummitFrame(checked, h, h1, at, order);
    SummitEncloses(checked, h, at, order);
    MergedFrom(h, h1, r, Summit(checked, h, at, order), at, order);
  }

  lemma SummitUnfolds(checked: bool, h: seq<int>, idx: nat, o: nat)
    requires |h| == UNITS && idx < UNITS && o <= ORDER_MAX && idx % Pow2(o) == 0
    ensures idx / Pow2(o) % 2 == 1 ==>
      && o < ORDER_MAX && 0 <= idx - Pow2(o) && (idx - Pow2(o)) % Pow2(o + 1) == 0
      && Summit(checked, h, idx, o) ==
           if IsUsed(h[idx - Pow2(o)]) || (checked && h[idx - Pow2(o)] != o) then Place(idx, o)
           else Summit(checked, h, idx - Pow2(o), o + 1)
    ensures idx / Pow2(o) % 2 == 0 && o < ORDER_MAX ==>
      && idx + Pow2(o) < UNITS && idx % Pow2(o + 1) == 0
      && Summit(checked, h, idx, o) ==
           if h[idx + Pow2(o)] == o && !IsUsed(h[idx + Pow2(o)]) then Summit(checked, h, idx, o + 1) else Place(idx, o)
    ensures idx / Pow2(o) % 2 == 0 && o == ORDER_MAX ==> Summit(checked, h, idx, o) == Place(idx, o)
  {
    hide Pow2, IsUsed;
    BuddyBlock(idx, o);
    NotUsed(o);
  }

  lemma SameButBuddies(h: seq<int>, i: nat, j: nat, v: int, order: nat, at: nat)
    requires |h| == UNITS && i < UNITS && j < UNITS && at <= i < at + Pow2(order) && at <= j < at + Pow2(order)
    ensures SameOutside(h, h[i := 0][j := v], at, order)
  {
  }

  lemma {:induction false} ShrunkAtSummit(checked: bool, h: seq<int>, idx: nat)
    requires CanShrink(h, idx)
    ensures Merged(h, Shrunk(checked, h, idx), Summit(checked, h, idx, h[idx]))
    decreases ORDER_MAX - h[idx]
  {
    hide Shrunk, Pow2, IsUsed, Merged, Summit, SameOutside;
    var order := h[idx];
    ShrunkUnfolds(checked, h, idx);
    SummitUnfolds(checked, h, idx, order);
    MergedStays(h, idx);
    BuddyBlock(idx, order);
    if idx / Pow2(order) % 2 == 1 {
      var buddy := idx - Pow2(order);
      if !(IsUsed(h[buddy]) || (checked && h[buddy] != order)) {
        var h1 := h[idx := 0][buddy := order + 1];
        ShrunkAtSummit(checked, h1, buddy);
        SameButBuddies(h, idx, buddy, order + 1, order + 1, buddy);
        SummitAfterMerge(checked, h, h1, Shrunk(checked, h1, buddy), buddy, order + 1);
      }
    } else if order < ORDER_MAX && h[idx + Pow2(order)] == order && !IsUsed(h[idx + Pow2(order)]) {
      var buddy := idx + Pow2(order);
      var h1 := h[buddy := 0][idx := order + 1];
      ShrunkAtSummit(checked, h1, idx);
      SameButBuddies(h, buddy, idx, order + 1, order + 1, idx);
      SummitAfterMerge(checked, h, h1, Shrunk(checked, h1, idx), idx, order + 1);
    }
  }

  lemma MergedStays(h: seq<int>, idx: nat)
    requires CanShrink(h, idx)
    ensures Merged(h, h, Place(idx, h[idx]))
  {
  }

  lemma NotUsed(order: nat)
    requires order <= ORDER_MAX
    ensures !IsUsed(order) && Order(order) == order && ClearUsed(order) == order
  {
  }

  // ---- Entries stay sane ----

  lemma {:induction false} ShrunkStaysSane(checked: bool, h: seq<int>, idx: nat)
    requires CanShrink(h, idx) && Sane(h)
    ensures Sane(Shrunk(checked, h, idx))
    decreases ORDER_MAX - h[idx]
  {
    hide Shrunk, Pow2, IsUsed, SaneEntry;
    var order := h[idx];
    ShrunkUnfolds(checked, h, idx);
    BuddyBlock(idx, order);
    if idx / Pow2(order) % 2 == 1 {
      var buddy := idx - Pow2(order);
      SaneMerge(idx, buddy, order);
      if !(IsUsed(h[buddy]) || (checked && h[buddy] != order)) {
        ShrunkStaysSane(checked, h[idx := 0][buddy := order + 1], buddy);
      }
    } else if order < ORDER_MAX && h[idx + Pow2(order)] == order && !IsUsed(h[idx + Pow2(order)]) {
      var buddy := idx + Pow2(order);
      SaneMerge(buddy, idx, order);
      ShrunkStaysSane(checked, h[buddy := 0][idx := order + 1], idx);
    }
  }

  lemma SaneMerge(i: nat, j: nat, order: nat)
    requires order < ORDER_MAX && j % Pow2(order + 1) == 0
    ensures SaneEntry(0, i) && SaneEntry(order + 1, j)
  {
  }

  lemma SaneCleared(h: seq<int>, i: nat)
    requires Sane(h) && i < UNITS
    ensures Sane(Cleared(h, i)) && ClearUsed(h[i]) == Order(h[i]) && CanShrink(Cleared(h, i), i)
    ensures Order(h[i]) <= ORDER_MAX && i % Pow2(Order(h[i])) == 0
  {
    hide Pow2;
    assert SaneEntry(h[i], i);
    var v := Cleared(h, i)[i];
    assert v == Order(h[i]) == Order(v) && SaneEntry(v, i);
  }

  // ---- Freeing a stale entry ----

  lemma {:induction false} ReplaceItself(t: Tree, k: nat, base: nat, start: nat)
    requires Fits(t, k) && IsHead(t, k, base, start)
    ensures Replace(t, k, base, start, Leaf(HeadCell(t, k, base, start).used)) == t
  {
    match t
    case Leaf(_) =>
    case Node(l, r) =>
      if start < base + Half(k) {
        ReplaceItself(l, k - 1, base, start);
      } else {
        ReplaceItself(r, k - 1, base + Half(k), start);
      }
  }

  // The block around entry i of the whole page.
  lemma BlockAround(h: seq<int>, t: Tree, i: nat)
    requires |h| == UNITS && Rep(h, 0, t, ORDER_MAX, false) && i < UNITS
    ensures Fits(t, ORDER_MAX)
    ensures var c := Around(t, ORDER_MAX, 0, i);
            && c.order <= ORDER_MAX && c.start <= i < c.start + Pow2(c.order) <= UNITS
            && c.start % Pow2(c.order) == 0 && IsHead(t, ORDER_MAX, 0, c.start)
            && HeadCell(t, ORDER_MAX, 0, c.start) == c && h[c.start] == c.order + (if c.used then 16 else 0)
            && (OnWalk(h, i) <==> c.start == i)
  {
    RepBound(h, 0, t, ORDER_MAX, false);
    Pow2Table();
    AroundIsHead(t, ORDER_MAX, 0, i);
    RepHead(h, 0, t, ORDER_MAX, false, Around(t, ORDER_MAX, 0, i).start);
    OnWalkIsHead(h, t, false, i);
  }

  // As long as the head of a block stands, what lies inside the block does not matter.
  lemma BlockKept(h: seq<int>, r: seq<int>, t: Tree, i: nat)
    requires |h| == UNITS && Rep(h, 0, t, ORDER_MAX, false) && i < UNITS && Fits(t, ORDER_MAX)
    requires var c := Around(t, ORDER_MAX, 0, i);
      c.start < |r| && SameOutside(h, r, c.start, c.order) && r[c.start] == h[c.start]
    ensures Rep(r, 0, t, ORDER_MAX, false)
  {
    hide Pow2, OnWalk;
    BlockAround(h, t, i);
    var c := Around(t, ORDER_MAX, 0, i);
    HeadRep(h, 0, t, ORDER_MAX, false, c.start);
    RepReplace(h, r, 0, t, ORDER_MAX, false, c.start, Leaf(c.used));
    ReplaceItself(t, ORDER_MAX, 0, c.start);
  }

  lemma HeadStopsCheckedClimb(v: int, k: nat, used: bool, order: nat)
    requires v == k + (if used then 16 else 0) && order < k <= ORDER_MAX
    ensures v != order
  {
  }

  // The left buddy of a smaller block inside a block does not lie before it.
  lemma BuddyInside(b: nat, k: nat, idx: nat, order: nat)
    requires b < idx < b + Pow2(k) && b % Pow2(k) == 0 && idx % Pow2(order) == 0
    requires idx < UNITS && order <= ORDER_MAX && idx / Pow2(order) % 2 == 1
    ensures order < k && b <= idx - Pow2(order)
  {
    hide Pow2;
    BuddyBlock(idx, order);
    InsideIsSmaller(b, k, idx, order);
    if idx - Pow2(order) < b { InsideIsSmaller(idx - Pow2(order), order + 1, b, k); }
  }

  // With the equal-order test the merges from a place inside a block stay inside it, short of its head.
  lemma {:induction false} CheckedClimbStaysInside(h: seq<int>, b: nat, k: nat, used: bool, idx: nat, order: nat)
    requires |h| == UNITS && k <= ORDER_MAX && b < idx < b + Pow2(k) <= UNITS && b % Pow2(k) == 0
    requires h[b] == k + (if used then 16 else 0) && order <= ORDER_MAX && idx % Pow2(order) == 0
    ensures var s := Summit(true, h, idx, order); b < s.start && s.start + Pow2(s.order) <= b + Pow2(k)
    decreases ORDER_MAX - order
  {
    hide Pow2, IsUsed, Summit;
    SummitUnfolds(true, h, idx, order);
    InsideIsSmaller(b, k, idx, order);
    HeadStopsCheckedClimb(h[b], k, used, order);
    if idx / Pow2(order) % 2 == 1 {
      BuddyInside(b, k, idx, order);
      if idx - Pow2(order) > b { CheckedClimbStaysInside(h, b, k, used, idx - Pow2(order), order + 1); }
    } else {
      CheckedClimbStaysInside(h, b, k, used, idx, order + 1);
    }
  }

  // What any free of the entry i makes of the array, seen from outside the summit.
  lemma FreedAtSummit(checked: bool, h: seq<int>, i: nat)
    requires Sane(h) && i < UNITS
    ensures Order(h[i]) <= ORDER_MAX && i % Pow2(Order(h[i])) == 0 && CanShrink(Cleared(h, i), i)
    ensures Merged(h, Freed(checked, h, i), Summit(checked, h, i, Order(h[i])))
  {
    hide Pow2, Summit, Shrunk, Merged;
    SaneCleared(h, i);
    var h1, o := Cleared(h, i), Order(h[i]);
    ShrunkAtSummit(checked, h1, i);
    OwnEntry(h, i, o);
    SummitAfterMerge(checked, h, h1, Freed(checked, h, i), i, o);
  }

  lemma OwnEntry(h: seq<int>, i: nat, o: nat)
    requires i < |h|
    ensures SameOutside(h, Cleared(h, i), i, o)
  {
  }

  /** With the equal-order test, freeing a stale entry changes no block, free or used. */
  lemma CheckedStaleFreeIsHarmless(h: seq<int>, t: Tree, i: nat)
    requires Sane(h) && Rep(h, 0, t, ORDER_MAX, false) && i < UNITS && Stale(h, i)
    ensures CanShrink(Cleared(h, i), i) && Rep(Freed(true, h, i), 0, t, ORDER_MAX, false)
  {
    hide Pow2, Summit, Rep, OnWalk, Freed;
    FreedAtSummit(true, h, i);
    BlockAround(h, t, i);
    var c := Around(t, ORDER_MAX, 0, i);
    CheckedClimbStaysInside(h, c.start, c.order, c.used, i, Order(h[i]));
    BlockKept(h, Freed(true, h, i), t, i);
  }

  // Read off the array before the call: do the committed merges from entry i do damage? From a block head, when one
  // of them is mixed; from a stale entry, when they end at a block head that then no longer has its own order.
  predicate Damages(h: seq<int>, i: nat)
    requires |h| == UNITS && i < UNITS && Order(h[i]) <= ORDER_MAX && i % Pow2(Order(h[i])) == 0
  {
    if OnWalk(h, i) then MixedMerge(h, i, Order(h[i]))
    else
      var s := Summit(false, h, i, Order(h[i]));
      OnWalk(h, s.start) && h[s.start] != s.order
  }

  lemma CommittedStaleFreeIff(h: seq<int>, t: Tree, i: nat)
    requires Sane(h) && Rep(h, 0, t, ORDER_MAX, false) && i < UNITS && Stale(h, i)
    ensures Order(h[i]) <= ORDER_MAX && i % Pow2(Order(h[i])) == 0 && CanShrink(Cleared(h, i), i)
    ensures Rep(Freed(false, h, i), 0, t, ORDER_MAX, false) <==> !Damages(h, i)
  {
    hide Pow2, Summit, Rep, OnWalk, Freed;
    FreedAtSummit(false, h, i);
    var s, r := Summit(false, h, i, Order(h[i])), Freed(false, h, i);
    BlockAround(h, t, s.start);
    var c := Around(t, ORDER_MAX, 0, s.start);
    if OnWalk(h, s.start) && h[s.start] != s.order {
      if Rep(r, 0, t, ORDER_MAX, false) { RepHead(r, 0, t, ORDER_MAX, false, s.start); }
    } else {
      if c.start < s.start { InsideIsSmaller(c.start, c.order, s.start, s.order); } else { OrderOfEntry(c, s.order); }
      BlockKept(h, r, t, s.start);
    }
  }

  lemma OrderOfEntry(c: Cell, order: nat)
    requires c.order <= ORDER_MAX && order <= ORDER_MAX
    ensures c.order + (if c.used then 16 else 0) == order ==> c.order == order
  {
  }

  // ---- Freeing any entry with its used bit set ----

  function TreeAfterFree(t: Tree, i: nat): (t': Tree)
    requires Fits(t, ORDER_MAX)
    ensures Fits(t', ORDER_MAX)
  {
    if IsHead(t, ORDER_MAX, 0, i) then Release(true, t, ORDER_MAX, 0, i) else t
  }

  lemma UsedHead(h: seq<int>, t: Tree, i: nat)
    requires |h| == UNITS && Rep(h, 0, t, ORDER_MAX, false) && i < UNITS && IsUsed(h[i])
    ensures Fits(t, ORDER_MAX) && (OnWalk(h, i) <==> IsHead(t, ORDER_MAX, 0, i))
    ensures OnWalk(h, i) ==> HeadCell(t, ORDER_MAX, 0, i).used
  {
    hide Rep, OnWalk;
    OnWalkIsHead(h, t, false, i);
    BlockAround(h, t, i);
    NotUsed(Around(t, ORDER_MAX, 0, i).order);
  }

  /** Whatever entry with its used bit set mfree is given, in an array with any past: with the equal-order test it
      releases the block that starts there, if one does, and otherwise changes no block. The committed code does so
      if and only if its merges do no damage. */
  lemma FreeIsSoundIff(h: seq<int>, t: Tree, i: nat)
    requires Sane(h) && Rep(h, 0, t, ORDER_MAX, false) && Canonical(t) && i < UNITS && IsUsed(h[i])
    ensures Order(h[i]) <= ORDER_MAX && i % Pow2(Order(h[i])) == 0 && CanShrink(Cleared(h, i), i) && Fits(t, ORDER_MAX)
    ensures Rep(Freed(true, h, i), 0, TreeAfterFree(t, i), ORDER_MAX, false)
    ensures Rep(Freed(false, h, i), 0, TreeAfterFree(t, i), ORDER_MAX, false) <==> !Damages(h, i)
  {
    hide Pow2, Summit, Rep, OnWalk, Freed, MixedMerge, Outstanding, Release, Canonical;
    SaneCleared(h, i);
    UsedHead(h, t, i);
    if OnWalk(h, i) {
      CheckedRelease(h, t, i, false);
      HeadFreeIsSoundIff(h, t, i);
    } else {
      CheckedStaleFreeIsHarmless(h, t, i);
      CommittedStaleFreeIff(h, t, i);
    }
  }

  lemma HeadFreeIsSoundIff(h: seq<int>, t: Tree, i: nat)
    requires |h| == UNITS && Rep(h, 0, t, ORDER_MAX, false) && Canonical(t)
    requires IsHead(t, ORDER_MAX, 0, i) && HeadCell(t, ORDER_MAX, 0, i).used
    ensures i < UNITS && CanShrink(Cleared(h, i), i) && Order(h[i]) <= ORDER_MAX && i % Pow2(Order(h[i])) == 0
    ensures Rep(Freed(false, h, i), 0, Release(true, t, ORDER_MAX, 0, i), ORDER_MAX, false)
            <==> !MixedMerge(h, i, Order(h[i]))
  {
    hide Pow2, Rep, Freed, MixedMerge, Outstanding, Release, Canonical, Swallows;
    RepBound(h, 0, t, ORDER_MAX, false);
    CommittedReleaseIsSoundIff(h, t, i);
    ReadyToShrink(h, t, i, false);
    CommittedRelease(h, t, i);
    if !MixedMerge(h, i, Order(h[i])) { UncheckedAgrees(t, ORDER_MAX, 0, i); }
    if Rep(Freed(false, h, i), 0, Release(true, t, ORDER_MAX, 0, i), ORDER_MAX, false) {
      OutstandingIsUsed(h, t, false);
      OutstandingIsUsed(Freed(false, h, i), Release(true, t, ORDER_MAX, 0, i), false);
      ReleaseUsed(t, ORDER_MAX, 0, i);
    }
  }

  // A sound free keeps everything that is known of the array.
  lemma FreeKeeps(checked: bool, h: seq<int>, t: Tree, i: nat, clean: bool)
    requires Sane(h) && Rep(h, 0, t, ORDER_MAX, clean) && Canonical(t) && i < UNITS && IsUsed(h[i])
    ensures Order(h[i]) <= ORDER_MAX && i % Pow2(Order(h[i])) == 0 && CanShrink(Cleared(h, i), i) && Fits(t, ORDER_MAX)
    ensures Sane(Freed(checked, h, i)) && Canonical(TreeAfterFree(t, i))
    ensures clean ==> IsHead(t, ORDER_MAX, 0, i)
    ensures checked || !Damages(h, i) ==> Rep(Freed(checked, h, i), 0, TreeAfterFree(t, i), ORDER_MAX, clean)
  {
    hide Pow2, Rep, OnWalk, MixedMerge, Release, Canonical, Shrunk, Sane, Summit;
    RepUnclean(h, 0, t, ORDER_MAX, clean);
    FreeIsSoundIff(h, t, i);
    SaneCleared(h, i);
    ShrunkStaysSane(checked, Cleared(h, i), i);
    if IsHead(t, ORDER_MAX, 0, i) { ReleaseKeepsCanonical(t, ORDER_MAX, 0, i); }
    if clean {
      Pow2Table();
      UsedIsHead(h, 0, t, ORDER_MAX, i);
      CleanFree(checked, h, t, i);
    }
  }

  lemma CleanFree(checked: bool, h: seq<int>, t: Tree, i: nat)
    requires |h| == UNITS && Rep(h, 0, t, ORDER_MAX, true)
    requires IsHead(t, ORDER_MAX, 0, i) && HeadCell(t, ORDER_MAX, 0, i).used
    ensures i < UNITS && CanShrink(Cleared(h, i), i) && Order(h[i]) <= ORDER_MAX && i % Pow2(Order(h[i])) == 0
    ensures checked || !Damages(h, i) ==>
      Rep(Freed(checked, h, i), 0, Release(true, t, ORDER_MAX, 0, i), ORDER_MAX, true)
  {
    hide Pow2, Rep, OnWalk, MixedMerge, Release, Shrunk, Swallows;
    OnWalkIsHead(h, t, true, i);
    ReadyToShrink(h, t, i, true);
    CheckedRelease(h, t, i, true);
    if !checked && !Damages(h, i) { UncheckedIsChecked(Cleared(h, i), i); }
  }
}
