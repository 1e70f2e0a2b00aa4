/** The binary buddy tree that the heap array encodes implicitly, as a mathematical reference:
    what allocation and release mean on the tree, and what they keep. */
module BuddyTree {
  import opened Powers

  datatype Tree = Leaf(used: bool) | Node(left: Tree, right: Tree)

  const Free := Leaf(false)

  // An outstanding allocation: its first unit and its order.
  datatype Block = Block(start: nat, order: nat)

  // One stop of the walk over block heads.
  datatype Cell = Cell(start: nat, order: nat, used: bool)

  predicate Fits(t: Tree, k: nat) {
    t.Node? ==> k > 0 && Fits(t.left, k - 1) && Fits(t.right, k - 1)
  }

  // No two free buddies of equal order stand side by side.
  predicate Canonical(t: Tree) {
    t.Node? ==> Canonical(t.left) && Canonical(t.right) && !(t.left == Free && t.right == Free)
  }

  function Half(k: nat): (p: nat)
    requires k > 0
  {
    Pow2(k - 1)
  }

  function Cells(t: Tree, k: nat, base: nat): seq<Cell>
    requires Fits(t, k)
  {
    match t
    case Leaf(used) => [Cell(base, k, used)]
    case Node(l, r) => Cells(l, k - 1, base) + Cells(r, k - 1, base + Half(k))
  }

  function Used(t: Tree, k: nat, base: nat): set<Block>
    requires Fits(t, k)
  {
    match t
    case Leaf(used) => if used then {Block(base, k)} else {}
    case Node(l, r) => Used(l, k - 1, base) + Used(r, k - 1, base + Half(k))
  }

  // ---- Tiling ----

  ghost predicate Tiles(cs: seq<Cell>, from: nat, to: nat) {
    && |cs| > 0 && cs[0].start == from
    && (forall i :: 0 <= i < |cs| - 1 ==> cs[i].start + Pow2(cs[i].order) == cs[i + 1].start)
    && cs[|cs| - 1].start + Pow2(cs[|cs| - 1].order) == to
  }

  lemma TilesAppend(a: seq<Cell>, b: seq<Cell>, from: nat, mid: nat, to: nat)
    requires Tiles(a, from, mid) && Tiles(b, mid, to)
    ensures Tiles(a + b, from, to)
  {
    var cs := a + b;
    forall i | 0 <= i < |cs| - 1
      ensures cs[i].start + Pow2(cs[i].order) == cs[i + 1].start
    {
      if i < |a| - 1 {
        assert cs[i] == a[i] && cs[i + 1] == a[i + 1];
      } else if i >= |a| {
        assert cs[i] == b[i - |a|] && cs[i + 1] == b[i + 1 - |a|];
      }
    }
  }

  lemma {:induction false} CellsTile(t: Tree, k: nat, base: nat)
    requires Fits(t, k)
    ensures Tiles(Cells(t, k, base), base, base + Pow2(k))
  {
    match t
    case Leaf(_) =>
    case Node(l, r) =>
      CellsTile(l, k - 1, base);
      CellsTile(r, k - 1, base + Half(k));
      TilesAppend(Cells(l, k - 1, base), Cells(r, k - 1, base + Half(k)), base, base + Half(k), base + Pow2(k));
  }

  predicate Aligned(start: nat, order: nat) { start % Pow2(order) == 0 }

  lemma {:induction false} CellsAligned(t: Tree, k: nat, base: nat)
    requires Fits(t, k) && Aligned(base, k)
    ensures forall c :: c in Cells(t, k, base) ==> c.order <= k && Aligned(c.start, c.order)
  {
    match t
    case Leaf(_) =>
    case Node(l, r) =>
      HalvesAreAligned(base, k - 1);
      CellsAligned(l, k - 1, base);
      CellsAligned(r, k - 1, base + Half(k));
  }

  lemma {:induction false} UsedAreCells(t: Tree, k: nat, base: nat)
    requires Fits(t, k)
    ensures forall b :: b in Used(t, k, base) <==> Cell(b.start, b.order, true) in Cells(t, k, base)
  {
    match t
    case Leaf(_) =>
    case Node(l, r) =>
      UsedAreCells(l, k - 1, base);
      UsedAreCells(r, k - 1, base + Half(k));
  }

  predicate Disjoint(a: Block, b: Block) {
    a.start + Pow2(a.order) <= b.start || b.start + Pow2(b.order) <= a.start
  }

  lemma {:induction false} UsedWithin(t: Tree, k: nat, base: nat)
    requires Fits(t, k)
    ensures forall b :: b in Used(t, k, base) ==>
              base <= b.start && b.start + Pow2(b.order) <= base + Pow2(k) && b.order <= k
    ensures t.Node? ==> forall b :: b in Used(t, k, base) ==> b.order < k
  {
    match t
    case Leaf(_) =>
    case Node(l, r) =>
      UsedWithin(l, k - 1, base);
      UsedWithin(r, k - 1, base + Half(k));
  }

  lemma {:induction false} UsedAreDisjoint(t: Tree, k: nat, base: nat)
    requires Fits(t, k)
    ensures forall a, b :: a in Used(t, k, base) && b in Used(t, k, base) && a != b ==> Disjoint(a, b)
  {
    match t
    case Leaf(_) =>
    case Node(l, r) =>
      UsedAreDisjoint(l, k - 1, base);
      UsedAreDisjoint(r, k - 1, base + Half(k));
      UsedWithin(l, k - 1, base);
      UsedWithin(r, k - 1, base + Half(k));
  }

  // ---- Canonical trees are determined by their outstanding blocks ----

  lemma {:induction false} NothingUsed(t: Tree, k: nat, base: nat)
    requires Fits(t, k) && Canonical(t) && Used(t, k, base) == {}
    ensures t == Free
  {
    match t
    case Leaf(_) =>
    case Node(l, r) =>
      assert Used(l, k - 1, base) <= Used(t, k, base);
      assert Used(r, k - 1, base + Half(k)) <= Used(t, k, base);
      NothingUsed(l, k - 1, base);
      NothingUsed(r, k - 1, base + Half(k));
  }

  lemma {:induction false} CanonicalIsUnique(t: Tree, s: Tree, k: nat, base: nat)
    requires Fits(t, k) && Fits(s, k) && Canonical(t) && Canonical(s)
    requires Used(t, k, base) == Used(s, k, base)
    ensures t == s
    decreases k
  {
    UsedWithin(t, k, base);
    UsedWithin(s, k, base);
    if Used(t, k, base) == {} {
      NothingUsed(t, k, base);
      NothingUsed(s, k, base);
    } else if t.Leaf? || s.Leaf? {
      assert Block(base, k) in Used(t, k, base);
    } else {
      var mid := base + Half(k);
      UsedHalves(t, k, base);
      UsedHalves(s, k, base);
      CanonicalIsUnique(t.left, s.left, k - 1, base);
      CanonicalIsUnique(t.right, s.right, k - 1, mid);
    }
  }

  lemma UsedHalves(t: Tree, k: nat, base: nat)
    requires Fits(t, k) && t.Node?
    ensures Used(t.left, k - 1, base) == set b | b in Used(t, k, base) && b.start < base + Half(k)
    ensures Used(t.right, k - 1, base + Half(k)) == set b | b in Used(t, k, base) && b.start >= base + Half(k)
  {
    UsedWithin(t.left, k - 1, base);
    UsedWithin(t.right, k - 1, base + Half(k));
    assert forall b :: b in Used(t.left, k - 1, base) ==> Pow2(b.order) > 0;
  }

  // ---- Rewriting one block ----

  predicate IsHead(t: Tree, k: nat, base: nat, start: nat)
    requires Fits(t, k)
  {
    match t
    case Leaf(_) => start == base
    case Node(l, r) =>
      if start < base + Half(k) then IsHead(l, k - 1, base, start)
      else IsHead(r, k - 1, base + Half(k), start)
  }

  function HeadCell(t: Tree, k: nat, base: nat, start: nat): (c: Cell)
    requires Fits(t, k) && IsHead(t, k, base, start)
    ensures c.start == start && c.order <= k
  {
    match t
    case Leaf(used) => Cell(base, k, used)
    case Node(l, r) =>
      if start < base + Half(k) then HeadCell(l, k - 1, base, start)
      else HeadCell(r, k - 1, base + Half(k), start)
  }

  lemma {:induction false} HeadsAreCells(t: Tree, k: nat, base: nat, c: Cell)
    requires Fits(t, k)
    ensures c in Cells(t, k, base) <==> IsHead(t, k, base, c.start) && HeadCell(t, k, base, c.start) == c
  {
    match t
    case Leaf(_) =>
    case Node(l, r) =>
      HeadsAreCells(l, k - 1, base, c);
      HeadsAreCells(r, k - 1, base + Half(k), c);
      HeadRange(l, k - 1, base, c.start);
      HeadRange(r, k - 1, base + Half(k), c.start);
  }

  lemma {:induction false} HeadRange(t: Tree, k: nat, base: nat, start: nat)
    requires Fits(t, k)
    ensures IsHead(t, k, base, start) ==>
              base <= start && start + Pow2(HeadCell(t, k, base, start).order) <= base + Pow2(k)
  {
    match t
    case Leaf(_) =>
    case Node(l, r) =>
      HeadRange(l, k - 1, base, start);
      HeadRange(r, k - 1, base + Half(k), start);
  }

  function Replace(t: Tree, k: nat, base: nat, start: nat, sub: Tree): (t': Tree)
    requires Fits(t, k) && IsHead(t, k, base, start)
    requires Fits(sub, HeadCell(t, k, base, start).order)
    ensures Fits(t', k)
  {
    match t
    case Leaf(_) => sub
    case Node(l, r) =>
      if start < base + Half(k) then Node(Replace(l, k - 1, base, start, sub), r)
      else Node(l, Replace(r, k - 1, base + Half(k), start, sub))
  }

  lemma {:induction false} ReplaceFree(t: Tree, k: nat, base: nat, start: nat, sub: Tree)
    requires Fits(t, k) && IsHead(t, k, base, start)
    requires var c := HeadCell(t, k, base, start); !c.used && Fits(sub, c.order)
    ensures var c := HeadCell(t, k, base, start);
            Used(Replace(t, k, base, start, sub), k, base) == Used(t, k, base) + Used(sub, c.order, start)
    ensures Canonical(t) && Canonical(sub) && sub != Free ==> Canonical(Replace(t, k, base, start, sub))
    ensures sub != Free ==> Replace(t, k, base, start, sub) != Free
  {
    match t
    case Leaf(_) =>
    case Node(l, r) =>
      if start < base + Half(k) {
        ReplaceFree(l, k - 1, base, start, sub);
      } else {
        ReplaceFree(r, k - 1, base + Half(k), start, sub);
      }
  }

  // ---- Allocation: split a free block down its left edge ----

  function SplitTo(k: nat, o: nat): (t: Tree)
    requires o <= k
    ensures Fits(t, k)
  {
    if k == o then Free else Node(SplitTo(k - 1, o), Free)
  }

  function Carve(k: nat, o: nat): (t: Tree)
    requires o <= k
    ensures Fits(t, k)
  {
    if k == o then Leaf(true) else Node(Carve(k - 1, o), Free)
  }

  lemma {:induction false} CarveIsOneBlock(k: nat, o: nat, base: nat)
    requires o <= k
    ensures Used(Carve(k, o), k, base) == {Block(base, o)}
    ensures Canonical(Carve(k, o)) && Carve(k, o) != Free
  {
    if o < k { CarveIsOneBlock(k - 1, o, base); }
  }

  predicate Exact(c: Cell, o: nat) { !c.used && c.order == o }

  predicate Larger(c: Cell, o: nat) { !c.used && c.order > o }

  predicate Matches(c: Cell, o: nat, exact: bool) { if exact then Exact(c, o) else Larger(c, o) }

  function FirstMatch(cs: seq<Cell>, o: nat, exact: bool): (i: nat)
    ensures i <= |cs|
    ensures i < |cs| ==> Matches(cs[i], o, exact)
    ensures forall j :: 0 <= j < i ==> !Matches(cs[j], o, exact)
  {
    if cs == [] || Matches(cs[0], o, exact) then 0 else 1 + FirstMatch(cs[1..], o, exact)
  }

  // The block that allocation takes: the first free block of exactly order o, else the first larger one;
  // |cs| when there is neither.
  function Pick(cs: seq<Cell>, o: nat): (i: nat)
    ensures i <= |cs|
    ensures i < |cs| ==> !cs[i].used && cs[i].order >= o
    ensures i == |cs| ==> forall j :: 0 <= j < |cs| ==> cs[j].used || cs[j].order < o
  {
    var i := FirstMatch(cs, o, true);
    if i < |cs| then i else FirstMatch(cs, o, false)
  }

  datatype Placement = NoRoom | At(start: nat)

  function Placed(t: Tree, k: nat, o: nat): (p: Placement)
    requires Fits(t, k)
  {
    var cs := Cells(t, k, 0);
    var i := Pick(cs, o);
    if i == |cs| then NoRoom else At(cs[i].start)
  }

  lemma PlacedIsHead(t: Tree, k: nat, o: nat)
    requires Fits(t, k) && Placed(t, k, o) != NoRoom
    ensures IsHead(t, k, 0, Placed(t, k, o).start)
    ensures !HeadCell(t, k, 0, Placed(t, k, o).start).used && HeadCell(t, k, 0, Placed(t, k, o).start).order >= o
  {
    var cs := Cells(t, k, 0);
    HeadsAreCells(t, k, 0, cs[Pick(cs, o)]);
  }

  function Allocated(t: Tree, k: nat, o: nat): (t': Tree)
    requires Fits(t, k)
    ensures Fits(t', k)
  {
    match Placed(t, k, o)
    case NoRoom => t
    case At(s) =>
      PlacedIsHead(t, k, o);
      Replace(t, k, 0, s, Carve(HeadCell(t, k, 0, s).order, o))
  }

  lemma AllocationAddsOneBlock(t: Tree, k: nat, o: nat)
    requires Fits(t, k) && Canonical(t) && Placed(t, k, o) != NoRoom
    ensures Canonical(Allocated(t, k, o))
    ensures var b := Block(Placed(t, k, o).start, o);
            b !in Used(t, k, 0) && Used(Allocated(t, k, o), k, 0) == Used(t, k, 0) + {b}
  {
    var s := Placed(t, k, o).start;
    PlacedIsHead(t, k, o);
    var c := HeadCell(t, k, 0, s);
    CarveIsOneBlock(c.order, o, s);
    ReplaceFree(t, k, 0, s, Carve(c.order, o));
    UsedAreCells(t, k, 0);
    HeadsAreCells(t, k, 0, Cell(s, o, true));
  }

  // ---- Release: free the block, then merge upwards ----

  predicate HeadFree(t: Tree) {
    match t
    case Leaf(used) => !used
    case Node(l, _) => HeadFree(l)
  }

  function JoinLeft(l: Tree, r: Tree): Tree {
    if l == Free && r == Free then Free else Node(l, r)
  }

  // With `checked` the right child merges only with a buddy of equal order. Without it the merge looks
  // no further than the used bit of the left buddy's first block.
  function JoinRight(checked: bool, l: Tree, r: Tree): Tree {
    if r == Free && (l == Free || (!checked && HeadFree(l))) then Free else Node(l, r)
  }

  function Release(checked: bool, t: Tree, k: nat, base: nat, start: nat): (t': Tree)
    requires Fits(t, k) && IsHead(t, k, base, start)
    ensures Fits(t', k)
  {
    match t
    case Leaf(_) => Free
    case Node(l, r) =>
      if start < base + Half(k) then JoinLeft(Release(checked, l, k - 1, base, start), r)
      else JoinRight(checked, l, Release(checked, r, k - 1, base + Half(k), start))
  }

  lemma {:induction false} ReleaseKeepsCanonical(t: Tree, k: nat, base: nat, start: nat)
    requires Fits(t, k) && IsHead(t, k, base, start) && Canonical(t)
    ensures Canonical(Release(true, t, k, base, start))
  {
    match t
    case Leaf(_) =>
    case Node(l, r) =>
      if start < base + Half(k) {
        ReleaseKeepsCanonical(l, k - 1, base, start);
      } else {
        ReleaseKeepsCanonical(r, k - 1, base + Half(k), start);
      }
  }

  lemma JoinsUsed(l: Tree, r: Tree, k: nat, base: nat)
    requires k > 0 && Fits(l, k - 1) && Fits(r, k - 1)
    ensures Used(JoinLeft(l, r), k, base) == Used(l, k - 1, base) + Used(r, k - 1, base + Half(k))
    ensures Used(JoinRight(true, l, r), k, base) == Used(l, k - 1, base) + Used(r, k - 1, base + Half(k))
  {
  }

  lemma {:induction false} ReleaseUsed(t: Tree, k: nat, base: nat, start: nat)
    requires Fits(t, k) && IsHead(t, k, base, start)
    ensures var c := HeadCell(t, k, base, start);
            Used(Release(true, t, k, base, start), k, base) == Used(t, k, base) - {Block(start, c.order)}
  {
    hide Pow2, JoinLeft, JoinRight;
    match t
    case Leaf(_) =>
    case Node(l, r) =>
      var mid, b := base + Half(k), Block(start, HeadCell(t, k, base, start).order);
      UsedHalves(t, k, base);
      if start < mid {
        ReleaseUsed(l, k - 1, base, start);
        JoinsUsed(Release(true, l, k - 1, base, start), r, k, base);
      } else {
        ReleaseUsed(r, k - 1, mid, start);
        JoinsUsed(l, Release(true, r, k - 1, mid, start), k, base);
      }
  }

  // The one way the unchecked merge goes wrong: the freed side has coalesced into a whole right child
  // and its left buddy is split but begins with a free block.
  predicate Swallows(t: Tree, k: nat, base: nat, start: nat)
    requires Fits(t, k) && IsHead(t, k, base, start)
  {
    match t
    case Leaf(_) => false
    case Node(l, r) =>
      if start < base + Half(k) then Swallows(l, k - 1, base, start)
      else Swallows(r, k - 1, base + Half(k), start)
           || (Release(true, r, k - 1, base + Half(k), start) == Free && l.Node? && HeadFree(l))
  }

  lemma {:induction false} UncheckedAgrees(t: Tree, k: nat, base: nat, start: nat)
    requires Fits(t, k) && IsHead(t, k, base, start) && !Swallows(t, k, base, start)
    ensures Release(false, t, k, base, start) == Release(true, t, k, base, start)
  {
    match t
    case Leaf(_) =>
    case Node(l, r) =>
      if start < base + Half(k) {
        UncheckedAgrees(l, k - 1, base, start);
      } else {
        UncheckedAgrees(r, k - 1, base + Half(k), start);
      }
  }

  // ... and then an outstanding block other than the freed one is gone.
  lemma {:induction false} UncheckedLoses(t: Tree, k: nat, base: nat, start: nat)
    requires Fits(t, k) && IsHead(t, k, base, start) && Canonical(t) && Swallows(t, k, base, start)
    ensures exists b :: b in Used(t, k, base) && b.start != start
                        && b !in Used(Release(false, t, k, base, start), k, base)
  {
    match t
    case Node(l, r) =>
      var mid := base + Half(k);
      UsedWithin(l, k - 1, base);
      UsedWithin(r, k - 1, mid);
      UsedWithin(Release(false, t, k, base, start), k, base);
      if start < mid {
        UncheckedLoses(l, k - 1, base, start);
      } else {
        HeadRange(r, k - 1, mid, start);
        if Swallows(r, k - 1, mid, start) {
          UncheckedLoses(r, k - 1, mid, start);
        } else {
          UncheckedAgrees(r, k - 1, mid, start);
          if Used(l, k - 1, base) == {} { NothingUsed(l, k - 1, base); }
          var b :| b in Used(l, k - 1, base);
        }
      }
  }
}
