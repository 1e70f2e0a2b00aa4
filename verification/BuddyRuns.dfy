/** Whole runs of the heap: any sequence of malloc and mfree calls with any arguments, by any number of processes that
    own the control block one after the other, seen through their replies. */
module BuddyRuns {
  import opened Powers
  import opened BuddyTree
  import opened BuddyArray
  import opened BuddyReuse
  import opened BuddyHeap

  datatype Call = Malloc(memsize: int) | Mfree(ptr: int)

  // A call and its reply, or the control block passing to a new process with heap page pte.
  datatype Event = Done(call: Call, reply: int) | NewOwner(pte: nat)

  datatype Session = Session(tree: Tree, pte: nat)

  predicate InRange(memsize: int) { 0 <= memsize <= PAGE_BYTES }

  predicate SamePage(pte: nat, ptr: int) { ptr / PAGE_BYTES % 256 == pte / PAGE_BYTES % 256 }

  // An outstanding block starts at the unit the address falls in, on a page that passes for the heap page.
  predicate Releasable(t: Tree, pte: nat, ptr: int)
    requires Fits(t, ORDER_MAX)
  {
    && IsHead(t, ORDER_MAX, 0, UnitOf(ptr)) && HeadCell(t, ORDER_MAX, 0, UnitOf(ptr)).used
    && SamePage(pte, ptr)
  }

  function Reply(t: Tree, pte: nat, call: Call): int
    requires Fits(t, ORDER_MAX)
  {
    match call
    case Malloc(n) => if InRange(n) then AddressOf(pte, Placed(t, ORDER_MAX, OrderFor(n))) else 0
    case Mfree(p) => if Releasable(t, pte, p) then 0 else -1
  }

  function After(t: Tree, pte: nat, call: Call): (t': Tree)
    requires Fits(t, ORDER_MAX)
    ensures Fits(t', ORDER_MAX)
  {
    match call
    case Malloc(n) => if InRange(n) then Allocated(t, ORDER_MAX, OrderFor(n)) else t
    case Mfree(p) => if Releasable(t, pte, p) then Release(true, t, ORDER_MAX, 0, UnitOf(p)) else t
  }

  // A reply that may be given: the one the blocks call for, or success for an address at which no block starts,
  // where an earlier owner has left a used entry.
  predicate MayReply(t: Tree, pte: nat, call: Call, reply: int)
    requires Fits(t, ORDER_MAX)
  {
    || reply == Reply(t, pte, call)
    || (call.Mfree? && reply == 0 && SamePage(pte, call.ptr) && !IsHead(t, ORDER_MAX, 0, UnitOf(call.ptr)))
  }

  // The run from the heap of a new process: one free block of order 7.
  function Run(pte: nat, es: seq<Event>): (s: Session)
    ensures Fits(s.tree, ORDER_MAX)
  {
    if es == [] then Session(Free, pte)
    else
      var s := Run(pte, es[..|es| - 1]);
      match es[|es| - 1]
      case Done(call, _) => Session(After(s.tree, s.pte, call), s.pte)
      case NewOwner(p) => Session(Free, p)
  }

  predicate Possible(pte: nat, es: seq<Event>) {
    es == [] ||
    (Possible(pte, es[..|es| - 1]) && MayFollow(Run(pte, es[..|es| - 1]), es[|es| - 1]))
  }

  predicate MayFollow(s: Session, e: Event)
    requires Fits(s.tree, ORDER_MAX)
  {
    match e
    case Done(call, r) => MayReply(s.tree, s.pte, call, r)
    case NewOwner(p) => GoodPte(p)
  }

  // What a client may believe it holds, judging by the replies alone.
  function Held(es: seq<Event>): set<Block> {
    if es == [] then {}
    else
      var held := Held(es[..|es| - 1]);
      match es[|es| - 1]
      case Done(Malloc(n), r) => if r != 0 && InRange(n) then held + {Block(UnitOf(r), OrderFor(n))} else held
      case Done(Mfree(p), r) => if r == 0 then set b | b in held && b.start != UnitOf(p) else held
      case NewOwner(_) => {}
  }

  lemma RunSnoc(pte: nat, es: seq<Event>, e: Event)
    ensures var s := Run(pte, es);
      && Run(pte, es + [e])
         == (match e
             case Done(call, _) => Session(After(s.tree, s.pte, call), s.pte)
             case NewOwner(p) => Session(Free, p))
      && (Possible(pte, es + [e]) <==> Possible(pte, es) && MayFollow(s, e))
  {
    assert (es + [e])[..|es|] == es;
  }

  // Of an address in the heap page the page and the unit can be read off again.
  lemma AddressFindsUnit(pte: nat, start: nat)
    requires GoodPte(pte) && start < UNITS
    ensures var a := AddressOf(pte, At(start));
            a != 0 && UnitOf(a) == start && a / PAGE_BYTES == pte / PAGE_BYTES
  {
    var page, offset := pte / PAGE_BYTES, start * UNIT_BYTES;
    DivisionIsUnique(page * PAGE_BYTES + offset, PAGE_BYTES, page, offset);
    DivisionIsUnique(offset, UNIT_BYTES, start, 0);
  }

  lemma PlacedInPage(t: Tree, o: nat)
    requires Fits(t, ORDER_MAX) && Placed(t, ORDER_MAX, o) != NoRoom
    ensures Placed(t, ORDER_MAX, o).start < UNITS
  {
    Pow2Table();
    PlacedIsHead(t, ORDER_MAX, o);
    HeadRange(t, ORDER_MAX, 0, Placed(t, ORDER_MAX, o).start);
  }

  lemma ReleasedBlock(t: Tree, i: nat)
    requires Fits(t, ORDER_MAX) && IsHead(t, ORDER_MAX, 0, i) && HeadCell(t, ORDER_MAX, 0, i).used
    ensures var b := Block(i, HeadCell(t, ORDER_MAX, 0, i).order);
            b in Used(t, ORDER_MAX, 0)
            && (set c | c in Used(t, ORDER_MAX, 0) && c.start != i) == Used(t, ORDER_MAX, 0) - {b}
  {
    UsedAreCells(t, ORDER_MAX, 0);
    forall c | c in Used(t, ORDER_MAX, 0) && c.start == i
      ensures c.order == HeadCell(t, ORDER_MAX, 0, i).order
    {
      HeadsAreCells(t, ORDER_MAX, 0, Cell(c.start, c.order, true));
    }
    HeadsAreCells(t, ORDER_MAX, 0, HeadCell(t, ORDER_MAX, 0, i));
  }

  // No outstanding block starts where no block starts.
  lemma NothingThere(t: Tree, i: nat)
    requires Fits(t, ORDER_MAX) && !IsHead(t, ORDER_MAX, 0, i)
    ensures forall b :: b in Used(t, ORDER_MAX, 0) ==> b.start != i
  {
    UsedAreCells(t, ORDER_MAX, 0);
    forall b | b in Used(t, ORDER_MAX, 0) ensures b.start != i {
      HeadsAreCells(t, ORDER_MAX, 0, Cell(b.start, b.order, true));
    }
  }

  lemma MallocIsSafe(t: Tree, pte: nat, n: int, es: seq<Event>)
    requires GoodPte(pte) && Fits(t, ORDER_MAX) && Canonical(t) && Used(t, ORDER_MAX, 0) == Held(es)
    ensures Canonical(After(t, pte, Malloc(n)))
    ensures Used(After(t, pte, Malloc(n)), ORDER_MAX, 0) == Held(es + [Done(Malloc(n), Reply(t, pte, Malloc(n)))])
  {
    hide Canonical, Used, Placed, Allocated;
    var es' := es + [Done(Malloc(n), Reply(t, pte, Malloc(n)))];
    assert es'[..|es' | - 1] == es;
    if InRange(n) {
      var o := OrderFor(n);
      if Placed(t, ORDER_MAX, o) != NoRoom {
        AllocationAddsOneBlock(t, ORDER_MAX, o);
        PlacedInPage(t, o);
        AddressFindsUnit(pte, Placed(t, ORDER_MAX, o).start);
      } else {
        NoPlaceNoChange(t, o);
      }
    }
  }

  lemma NoPlaceNoChange(t: Tree, o: nat)
    requires Fits(t, ORDER_MAX) && Placed(t, ORDER_MAX, o) == NoRoom
    ensures Allocated(t, ORDER_MAX, o) == t
  {
  }

  lemma MfreeIsSafe(t: Tree, pte: nat, p: int, r: int, es: seq<Event>)
    requires GoodPte(pte) && Fits(t, ORDER_MAX) && Canonical(t) && Used(t, ORDER_MAX, 0) == Held(es)
    requires MayReply(t, pte, Mfree(p), r)
    ensures Canonical(After(t, pte, Mfree(p)))
    ensures Used(After(t, pte, Mfree(p)), ORDER_MAX, 0) == Held(es + [Done(Mfree(p), r)])
  {
    hide Canonical, Used, Release;
    var es' := es + [Done(Mfree(p), r)];
    assert es'[..|es'| - 1] == es;
    if Releasable(t, pte, p) {
      ReleaseKeepsCanonical(t, ORDER_MAX, 0, UnitOf(p));
      ReleaseUsed(t, ORDER_MAX, 0, UnitOf(p));
      ReleasedBlock(t, UnitOf(p));
    } else if r == 0 {
      NothingThere(t, UnitOf(p));
    }
  }

  // One event keeps the canonical form and changes the outstanding blocks exactly as its reply says.
  lemma StepIsSafe(s: Session, e: Event, es: seq<Event>)
    requires GoodPte(s.pte) && Fits(s.tree, ORDER_MAX) && Canonical(s.tree)
    requires Used(s.tree, ORDER_MAX, 0) == Held(es) && MayFollow(s, e)
    ensures e.Done? ==> Canonical(After(s.tree, s.pte, e.call))
                        && Used(After(s.tree, s.pte, e.call), ORDER_MAX, 0) == Held(es + [e])
    ensures e.NewOwner? ==> Held(es + [e]) == {}
  {
    hide Canonical, Used, After;
    assert (es + [e])[..|es|] == es;
    match e
    case Done(Malloc(n), r) => MallocIsSafe(s.tree, s.pte, n, es);
    case Done(Mfree(p), r) => MfreeIsSafe(s.tree, s.pte, p, r, es);
    case NewOwner(p) =>
  }

  lemma {:induction false} RunIsCanonical(pte: nat, es: seq<Event>)
    requires GoodPte(pte) && Possible(pte, es)
    ensures var s := Run(pte, es); GoodPte(s.pte) && Canonical(s.tree) && Used(s.tree, ORDER_MAX, 0) == Held(es)
  {
    if es != [] {
      var init, e := es[..|es| - 1], es[|es| - 1];
      RunIsCanonical(pte, init);
      assert init + [e] == es;
      StepIsSafe(Run(pte, init), e, init);
    }
  }

  /** Safety over every run, through any number of owners: the heads tile the page exactly, and what clients hold never
      overlaps, is aligned to its own size and stays in the page. */
  lemma RunIsSafe(pte: nat, es: seq<Event>)
    requires GoodPte(pte) && Possible(pte, es)
    ensures var t := Run(pte, es).tree;
            && Tiles(Cells(t, ORDER_MAX, 0), 0, UNITS)
            && (forall a, b :: a in Held(es) && b in Held(es) && a != b ==> Disjoint(a, b))
            && (forall b :: b in Held(es) ==> Aligned(b.start, b.order) && b.start + Pow2(b.order) <= UNITS)
  {
    hide Run, Held, Pow2;
    var t := Run(pte, es).tree;
    Pow2Table();
    RunIsCanonical(pte, es);
    CellsTile(t, ORDER_MAX, 0);
    UsedAreDisjoint(t, ORDER_MAX, 0);
    UsedWithin(t, ORDER_MAX, 0);
    CellsAligned(t, ORDER_MAX, 0);
    UsedAreCells(t, ORDER_MAX, 0);
  }

  /** The blocks after a run depend on what is held and on nothing else: two runs that leave the same blocks
      outstanding leave arrays with the same walk, however they got there, and the same 128 entries unless an earlier
      owner has left something inside the blocks. */
  lemma HistoryIsForgotten(pte1: nat, es1: seq<Event>, h1: seq<int>, clean1: bool,
                           pte2: nat, es2: seq<Event>, h2: seq<int>, clean2: bool)
    requires GoodPte(pte1) && GoodPte(pte2) && Possible(pte1, es1) && Possible(pte2, es2)
    requires |h1| == |h2| == UNITS && Held(es1) == Held(es2)
    requires Rep(h1, 0, Run(pte1, es1).tree, ORDER_MAX, clean1)
    requires Rep(h2, 0, Run(pte2, es2).tree, ORDER_MAX, clean2)
    ensures Walk(h1, 0) == Walk(h2, 0)
    ensures clean1 && clean2 ==> h1 == h2
  {
    hide Run, Held, Rep, Walk, Canonical, Pow2;
    RunIsCanonical(pte1, es1);
    RunIsCanonical(pte2, es2);
    var t := Run(pte1, es1).tree;
    CanonicalIsUnique(t, Run(pte2, es2).tree, ORDER_MAX, 0);
    Pow2Table();
    RepWalk(h1, 0, t, ORDER_MAX, clean1);
    RepWalk(h2, 0, t, ORDER_MAX, clean2);
    WalkEnds(h1);
    WalkEnds(h2);
    if clean1 && clean2 { RepDetermines(h1, h2, 0, t, ORDER_MAX); }
  }

  // Once everything is given back, in whatever order, the page is one free block again.
  lemma AllFreedIsWhole(pte: nat, es: seq<Event>)
    requires GoodPte(pte) && Possible(pte, es) && Held(es) == {}
    ensures Run(pte, es).tree == Free
  {
    RunIsCanonical(pte, es);
    NothingUsed(Run(pte, es).tree, ORDER_MAX, 0);
  }

  // malloc replies 0 exactly when the request is out of range or every block is in use or too small.
  lemma MallocFailsIff(t: Tree, pte: nat, n: int)
    requires GoodPte(pte) && Fits(t, ORDER_MAX)
    ensures Reply(t, pte, Malloc(n)) == 0
            <==> (InRange(n) ==> forall c :: c in Cells(t, ORDER_MAX, 0) ==> c.used || UNIT_BYTES * Pow2(c.order) < n)
  {
    if InRange(n) {
      var o := OrderFor(n);
      var cs := Cells(t, ORDER_MAX, 0);
      if Placed(t, ORDER_MAX, o) == NoRoom {
        forall c | c in cs && !c.used
          ensures UNIT_BYTES * Pow2(c.order) < n
        {
          Pow2Monotone(c.order, o - 1);
        }
      } else {
        PlacedInPage(t, o);
        AddressFindsUnit(pte, Placed(t, ORDER_MAX, o).start);
        var c := cs[Pick(cs, o)];
        Pow2Monotone(o, c.order);
        assert c in cs && !c.used;
      }
    }
  }

  // mfree of what malloc has just returned restores the blocks exactly.
  lemma FreeUndoesMalloc(t: Tree, pte: nat, n: int)
    requires GoodPte(pte) && Fits(t, ORDER_MAX) && Canonical(t) && Reply(t, pte, Malloc(n)) != 0
    ensures var t' := After(t, pte, Malloc(n)); var p := Reply(t, pte, Malloc(n));
            Reply(t', pte, Mfree(p)) == 0 && After(t', pte, Mfree(p)) == t
  {
    hide Canonical, Used, Cells;
    var o := OrderFor(n);
    var t' := After(t, pte, Malloc(n));
    var p := Reply(t, pte, Malloc(n));
    var s := Placed(t, ORDER_MAX, o).start;
    AllocationAddsOneBlock(t, ORDER_MAX, o);
    PlacedInPage(t, o);
    AddressFindsUnit(pte, s);
    UsedAreCells(t', ORDER_MAX, 0);
    assert Block(s, o) in Used(t', ORDER_MAX, 0);
    HeadsAreCells(t', ORDER_MAX, 0, Cell(s, o, true));
    ReleaseKeepsCanonical(t', ORDER_MAX, 0, s);
    ReleaseUsed(t', ORDER_MAX, 0, s);
    CanonicalIsUnique(Release(true, t', ORDER_MAX, 0, s), t, ORDER_MAX, 0);
  }

  /** The reply of mfree is the one the blocks call for if and only if the address does not hit an entry that an
      earlier owner left behind. */
  lemma ReplyIsLawfulIff(h: seq<int>, t: Tree, pte: nat, ptr: int)
    requires |h| == UNITS && Rep(h, 0, t, ORDER_MAX, false)
    ensures Fits(t, ORDER_MAX)
    ensures (if Accepts(h, pte, ptr) then 0 else -1) == Reply(t, pte, Mfree(ptr))
            <==> !(Stale(h, UnitOf(ptr)) && SamePage(pte, ptr))
    ensures MayReply(t, pte, Mfree(ptr), if Accepts(h, pte, ptr) then 0 else -1)
    ensures Accepts(h, pte, ptr) ==> After(t, pte, Mfree(ptr)) == TreeAfterFree(t, UnitOf(ptr))
  {
    hide Rep, Pow2, OnWalk;
    var i := UnitOf(ptr);
    OnWalkIsHead(h, t, false, i);
    if IsUsed(h[i]) { UsedHead(h, t, i); }
    if Releasable(t, pte, ptr) { ReadyToShrink(h, t, i, false); }
  }

  // In an array in which no earlier owner has left anything the corrected mfree restores all 128 entries, and the
  // committed one does if and only if no mixed merge lies ahead of it.
  method MallocThenMfree(owner: HeapOwner, checked: bool, n: int) returns (ptr: int, ghost between: Entries)
    requires owner.Valid() && owner.clean
    modifies owner`tree, owner.heapNodes
    ensures owner.heapNodes.Length == UNITS
    ensures ptr == 0 ==> owner.Valid() && owner.heapNodes[..] == old(owner.heapNodes[..])
    ensures ptr != 0 ==>
      var i := UnitOf(ptr); Order(between[i]) <= ORDER_MAX && i % Pow2(Order(between[i])) == 0
    ensures ptr != 0 ==>
      (owner.heapNodes[..] == old(owner.heapNodes[..]) <==> checked || !Damages(between, UnitOf(ptr)))
  {
    hide HeapOwner.Valid, Rep, Canonical, Allocated, Placed, Accepts, Releasable, OnWalk, Damages;
    BlocksFit(owner);
    ghost var h, t, pte := owner.heapNodes[..], owner.tree, owner.heapPte;
    OwnerIs(owner);
    ptr := owner.Malloc(n);
    BlocksFit(owner);
    between := owner.heapNodes[..];
    OwnerIs(owner);
    if ptr == 0 {
      NoReplyNoChange(t, pte, n);
      RepDetermines(h, between, 0, t, ORDER_MAX);
    } else {
      FreeUndoesMalloc(t, pte, n);
      FreedAgain(h, between, t, pte, n, checked);
      var code := owner.Mfree(checked, ptr);
    }
  }

  lemma OwnerIs(owner: HeapOwner)
    requires owner.Valid()
    ensures owner.heapNodes.Length == UNITS && Rep(owner.heapNodes[..], 0, owner.tree, ORDER_MAX, owner.clean)
    ensures Sane(owner.heapNodes[..]) && Canonical(owner.tree) && GoodPte(owner.heapPte)
  {
  }

  lemma NoReplyNoChange(t: Tree, pte: nat, n: int)
    requires GoodPte(pte) && Fits(t, ORDER_MAX) && Reply(t, pte, Malloc(n)) == 0
    ensures After(t, pte, Malloc(n)) == t
  {
    if InRange(n) && Placed(t, ORDER_MAX, OrderFor(n)) != NoRoom {
      PlacedInPage(t, OrderFor(n));
      AddressFindsUnit(pte, Placed(t, ORDER_MAX, OrderFor(n)).start);
    }
  }

  // Array h1 is what malloc has made of h; what does mfree make of it?
  lemma FreedAgain(h: seq<int>, h1: seq<int>, t: Tree, pte: nat, n: int, checked: bool)
    requires |h| == |h1| == UNITS && GoodPte(pte) && Rep(h, 0, t, ORDER_MAX, true) && Canonical(t)
    requires Fits(t, ORDER_MAX) && Reply(t, pte, Malloc(n)) != 0
    requires Rep(h1, 0, After(t, pte, Malloc(n)), ORDER_MAX, true) && Sane(h1) && Canonical(After(t, pte, Malloc(n)))
    ensures var ptr := Reply(t, pte, Malloc(n)); var i := UnitOf(ptr);
      && Accepts(h1, pte, ptr) && CanShrink(Cleared(h1, i), i)
      && Order(h1[i]) <= ORDER_MAX && i % Pow2(Order(h1[i])) == 0
      && (Freed(checked, h1, i) == h <==> checked || !Damages(h1, i))
  {
    hide Rep, Canonical, Allocated, Placed, Accepts, Releasable, OnWalk, Damages, Freed, Sane, Pow2, Stale;
    var ptr := Reply(t, pte, Malloc(n));
    var i, t1 := UnitOf(ptr), After(t, pte, Malloc(n));
    FreeUndoesMalloc(t, pte, n);
    RepUnclean(h, 0, t, ORDER_MAX, true);
    RepUnclean(h1, 0, t1, ORDER_MAX, true);
    AcceptsReleasable(h1, t1, pte, ptr);
    ReplyIsLawfulIff(h1, t1, pte, ptr);
    FreeIsSoundIff(h1, t1, i);
    FreeKeeps(checked, h1, t1, i, true);
    Pow2Table();
    if checked || !Damages(h1, i) { RepDetermines(h, Freed(checked, h1, i), 0, t, ORDER_MAX); }
  }

  lemma AcceptsReleasable(h: seq<int>, t: Tree, pte: nat, ptr: int)
    requires |h| == UNITS && Rep(h, 0, t, ORDER_MAX, false)
    ensures Fits(t, ORDER_MAX) && (Releasable(t, pte, ptr) ==> Accepts(h, pte, ptr))
  {
    RepBound(h, 0, t, ORDER_MAX, false);
    if Releasable(t, pte, ptr) { ReadyToShrink(h, t, UnitOf(ptr), false); }
  }

  // ---- The routines on the array carry out the run ----

  datatype Request = Ask(call: Call) | Fork(frame: nat, flags: nat)

  type Entries = h: seq<int> | |h| == UNITS witness seq(UNITS, _ => 0)

  // The event e is what became of request q in session s, where it turned array h into h'.
  ghost predicate Answers(checked: bool, q: Request, e: Event, h: Entries, h': Entries, s: Session)
    requires Fits(s.tree, ORDER_MAX)
  {
    match q
    case Fork(frame, flags) => e == NewOwner(frame * PAGE_BYTES + flags) && h' == h[0 := ORDER_MAX]
    case Ask(Malloc(n)) => e == Done(Malloc(n), Reply(s.tree, s.pte, Malloc(n)))
    case Ask(Mfree(p)) =>
      var i := UnitOf(p);
      && e == Done(Mfree(p), if Accepts(h, s.pte, p) then 0 else -1)
      && (e.reply == Reply(s.tree, s.pte, Mfree(p)) <==> !(Stale(h, i) && SamePage(s.pte, p)))
      && (if Accepts(h, s.pte, p) then CanShrink(Cleared(h, i), i) && h' == Freed(checked, h, i) else h' == h)
  }

  // Would the committed mfree do damage?
  ghost predicate Harmful(owner: HeapOwner, q: Request)
    requires owner.Valid()
    reads owner, owner.heapNodes
  {
    q.Ask? && q.call.Mfree? && Accepts(owner.heapNodes[..], owner.heapPte, q.call.ptr) &&
    var i := UnitOf(q.call.ptr); var h := owner.heapNodes[..];
    Order(h[i]) <= ORDER_MAX && i % Pow2(Order(h[i])) == 0 && Damages(h, i)
  }

  // Before and after each event the array encodes the blocks of the run.
  ghost predicate Encodes(h: Entries, pte: nat, es: seq<Event>) {
    Rep(h, 0, Run(pte, es).tree, ORDER_MAX, false)
  }

  /** Any list of calls and changes of owner, with any arguments, from any array that earlier owners may have left: with
      the equal-order test all of it is carried out, as committed all of it up to the first free that would do damage.
      So far as it is carried out the events are possible ones, the blocks in the array are those of the run, and each
      reply is the lawful one if and only if it does not concern a stale entry. */
  method Perform(owner: HeapOwner, checked: bool, script: seq<Request>)
    returns (es: seq<Event>, ghost arrays: seq<Entries>)
    requires owner.Valid() && owner.tree == Free
    requires forall q :: q in script && q.Fork? ==> 0 < q.frame < FRAMES && q.flags < 8
    modifies owner, owner.heapNodes
    ensures owner.Valid() && Possible(old(owner.heapPte), es)
    ensures Run(old(owner.heapPte), es) == Session(owner.tree, owner.heapPte)
    ensures |es| <= |script| && |arrays| == |es| + 1
    ensures arrays[0] == old(owner.heapNodes[..]) && arrays[|es|] == owner.heapNodes[..]
    ensures forall i :: 0 <= i <= |es| ==> Encodes(arrays[i], old(owner.heapPte), es[..i])
    ensures forall i, j :: 0 <= i < |es| && j == i + 1 ==>
      Answers(checked, script[i], es[i], arrays[i], arrays[j], Run(old(owner.heapPte), es[..i]))
    ensures |es| < |script| ==> !checked && Harmful(owner, script[|es|])
    ensures (forall q :: q in script ==> q.Ask?) ==> owner.clean == old(owner.clean)
  {
    hide HeapOwner.Valid, Run, Possible, Encodes, Answers, MayFollow, Harmful;
    ghost var pte := owner.heapPte;
    BlocksFit(owner);
    es, arrays := [], [owner.heapNodes[..]];
    RunStarts(pte);
    EncodesBlocks(owner, pte, []);
    for n := 0 to |script|
      invariant owner.Valid() && Possible(pte, es) && Run(pte, es) == Session(owner.tree, owner.heapPte)
      invariant |es| == n && |arrays| == n + 1
      invariant (forall q :: q in script ==> q.Ask?) ==> owner.clean == old(owner.clean)
      invariant arrays[0] == old(owner.heapNodes[..]) && arrays[n] == owner.heapNodes[..]
      invariant forall i :: 0 <= i <= n ==> Encodes(arrays[i], pte, es[..i])
      invariant forall i, j :: 0 <= i < n && j == i + 1 ==>
        Answers(checked, script[i], es[i], arrays[i], arrays[j], Run(pte, es[..i]))
    {
      ghost var before := es;
      BlocksFit(owner);
      var served, e := Serve(owner, checked, script[n]);
      if !served { return; }
      BlocksFit(owner);
      es, arrays := es + [e], arrays + [owner.heapNodes[..]];
      RunSnoc(pte, before, e);
      EncodesBlocks(owner, pte, es);
      assert es[..n + 1] == es && forall i :: 0 <= i <= n ==> es[..i] == before[..i];
    }
  }

  // One request; not served only when the committed mfree would do damage.
  method Serve(owner: HeapOwner, checked: bool, q: Request) returns (served: bool, e: Event)
    requires owner.Valid() && (q.Fork? ==> 0 < q.frame < FRAMES && q.flags < 8)
    modifies owner, owner.heapNodes
    ensures owner.Valid() && owner.heapNodes.Length == UNITS && Fits(old(owner.tree), ORDER_MAX)
    ensures q.Ask? ==> owner.clean == old(owner.clean)
    ensures !served ==> !checked && Harmful(owner, q) && unchanged(owner) && unchanged(owner.heapNodes)
    ensures served ==>
      var s := Session(old(owner.tree), old(owner.heapPte));
      && MayFollow(s, e) && Answers(checked, q, e, old(owner.heapNodes[..]), owner.heapNodes[..], s)
      && Session(owner.tree, owner.heapPte)
         == match e
            case Done(call, _) => Session(After(s.tree, s.pte, call), s.pte)
            case NewOwner(p) => Session(Free, p)
  {
    hide Rep, Canonical, Sane, Damages, Stale, Pow2, Placed, Allocated, Releasable, TreeAfterFree;
    BlocksFit(owner);
    ghost var h := owner.heapNodes[..];
    match q {
      case Fork(frame, flags) =>
        owner.ResetForFork(frame, flags);
        e := NewOwner(frame * PAGE_BYTES + flags);
      case Ask(Malloc(size)) =>
        var r := owner.Malloc(size);
        e := Done(Malloc(size), r);
      case Ask(Mfree(ptr)) =>
        RepUnclean(h, 0, owner.tree, ORDER_MAX, owner.clean);
        ReplyIsLawfulIff(h, owner.tree, owner.heapPte, ptr);
        if !checked && Accepts(owner.heapNodes[..], owner.heapPte, ptr) {
          FreeKeeps(checked, h, owner.tree, UnitOf(ptr), owner.clean);
          if Damages(owner.heapNodes[..], UnitOf(ptr)) { return false, NewOwner(0); }
        }
        var r := owner.Mfree(checked, ptr);
        e := Done(Mfree(ptr), r);
    }
    served := true;
  }

  lemma BlocksFit(owner: HeapOwner)
    requires owner.Valid()
    ensures owner.heapNodes.Length == UNITS && Fits(owner.tree, ORDER_MAX)
  {
    RepBound(owner.heapNodes[..], 0, owner.tree, ORDER_MAX, owner.clean);
  }

  lemma EncodesBlocks(owner: HeapOwner, pte: nat, es: seq<Event>)
    requires owner.Valid() && Run(pte, es).tree == owner.tree
    ensures Encodes(owner.heapNodes[..], pte, es)
  {
    RepUnclean(owner.heapNodes[..], 0, owner.tree, ORDER_MAX, owner.clean);
  }

  lemma RunStarts(pte: nat)
    ensures Possible(pte, []) && Run(pte, []) == Session(Free, pte)
  {
  }

  // ---- The missing test, on a run ----

  // A small block or pair at the very start of the page, everything after its first four units free.
  function InFirstFour(t: Tree): Tree {
    Node(Node(Node(Node(Node(t, Free), Free), Free), Free), Free)
  }

  const Taken := Leaf(true)

  const MIXED := InFirstFour(Node(Node(Free, Taken), Taken))

  // Whatever happens at a block of t, beside t a free half changes nothing but the last merge.
  lemma BesideFreeHalf(t: Tree, k: nat, start: nat)
    requires Fits(t, k) && IsHead(t, k, 0, start)
    ensures var n := Node(t, Free);
      && Fits(n, k + 1) && IsHead(n, k + 1, 0, start)
      && HeadCell(n, k + 1, 0, start) == HeadCell(t, k, 0, start)
      && Cells(n, k + 1, 0) == Cells(t, k, 0) + [Cell(Pow2(k), k, false)]
      && Swallows(n, k + 1, 0, start) == Swallows(t, k, 0, start)
      && (forall sub :: Fits(sub, HeadCell(t, k, 0, start).order) ==>
            Replace(n, k + 1, 0, start, sub) == Node(Replace(t, k, 0, start, sub), Free))
      && (forall checked :: Release(checked, n, k + 1, 0, start) ==
            if Release(checked, t, k, 0, start) == Free then Free else Node(Release(checked, t, k, 0, start), Free))
  {
    HeadRange(t, k, 0, start);
  }

  lemma FirstFour(t: Tree, start: nat)
    requires Fits(t, 2) && IsHead(t, 2, 0, start)
    ensures var n := InFirstFour(t);
      && Fits(n, ORDER_MAX) && IsHead(n, ORDER_MAX, 0, start)
      && HeadCell(n, ORDER_MAX, 0, start) == HeadCell(t, 2, 0, start)
      && (exists rest :: Cells(n, ORDER_MAX, 0) == Cells(t, 2, 0) + rest)
      && Swallows(n, ORDER_MAX, 0, start) == Swallows(t, 2, 0, start)
      && (forall sub :: Fits(sub, HeadCell(t, 2, 0, start).order) ==>
            Replace(n, ORDER_MAX, 0, start, sub) == InFirstFour(Replace(t, 2, 0, start, sub)))
      && (forall checked :: Release(checked, n, ORDER_MAX, 0, start) ==
            if Release(checked, t, 2, 0, start) == Free then Free else InFirstFour(Release(checked, t, 2, 0, start)))
  {
    hide Pow2, Fits, IsHead, HeadCell, Swallows, Replace, Release, Cells;
    var a := Node(t, Free);
    var b := Node(a, Free);
    var c := Node(b, Free);
    var d := Node(c, Free);
    BesideFreeHalf(t, 2, start);
    BesideFreeHalf(a, 3, start);
    BesideFreeHalf(b, 4, start);
    BesideFreeHalf(c, 5, start);
    BesideFreeHalf(d, 6, start);
    var rest := [Cell(Pow2(2), 2, false), Cell(Pow2(3), 3, false), Cell(Pow2(4), 4, false),
                 Cell(Pow2(5), 5, false), Cell(Pow2(6), 6, false)];
    assert Cells(InFirstFour(t), ORDER_MAX, 0) == Cells(t, 2, 0) + rest;
  }

  // An exact match is taken where it is first found.
  lemma PlacedAtFirstExact(t: Tree, o: nat, i: nat)
    requires Fits(t, 2) && Fits(InFirstFour(t), ORDER_MAX)
    requires exists rest :: Cells(InFirstFour(t), ORDER_MAX, 0) == Cells(t, 2, 0) + rest
    requires var cs := Cells(t, 2, 0);
      i < |cs| && Exact(cs[i], o) && forall j :: 0 <= j < i ==> !Exact(cs[j], o)
    ensures Placed(InFirstFour(t), ORDER_MAX, o) == At(Cells(t, 2, 0)[i].start)
  {
    hide Cells, InFirstFour;
    var cs := Cells(InFirstFour(t), ORDER_MAX, 0);
    assert cs[i] == Cells(t, 2, 0)[i];
    var f := FirstMatch(cs, o, true);
    assert forall j :: 0 <= j < i ==> cs[j] == Cells(t, 2, 0)[j];
    assert f >= i;
  }

  lemma FirstUnit()
    ensures Placed(Free, ORDER_MAX, 0) == At(0)
    ensures Allocated(Free, ORDER_MAX, 0) == InFirstFour(Node(Node(Taken, Free), Free))
  {
    var cs := Cells(Free, ORDER_MAX, 0);
    assert cs == [Cell(0, ORDER_MAX, false)];
    assert FirstMatch(cs, 0, true) == 1 && FirstMatch(cs, 0, false) == 0;
    assert Carve(2, 0) == Node(Node(Taken, Free), Free);
    assert Carve(7, 0) == InFirstFour(Carve(2, 0));
  }

  lemma SecondUnit()
    ensures var t := InFirstFour(Node(Node(Taken, Free), Free));
      && Fits(t, ORDER_MAX) && Placed(t, ORDER_MAX, 0) == At(1)
      && Allocated(t, ORDER_MAX, 0) == InFirstFour(Node(Node(Taken, Taken), Free))
  {
    hide InFirstFour, Placed, Pow2;
    Pow2Table();
    var t := Node(Node(Taken, Free), Free);
    assert Cells(t.left, 1, 0) == [Cell(0, 0, true), Cell(1, 0, false)];
    assert Cells(t, 2, 0) == [Cell(0, 0, true), Cell(1, 0, false), Cell(2, 1, false)];
    FirstFour(t, 1);
    PlacedAtFirstExact(t, 0, 1);
  }

  lemma ThirdBlock()
    ensures var t := InFirstFour(Node(Node(Taken, Taken), Free));
      && Fits(t, ORDER_MAX) && Placed(t, ORDER_MAX, 1) == At(2)
      && Allocated(t, ORDER_MAX, 1) == InFirstFour(Node(Node(Taken, Taken), Taken))
  {
    hide InFirstFour, Placed, Pow2;
    Pow2Table();
    var t := Node(Node(Taken, Taken), Free);
    assert Cells(t.left, 1, 0) == [Cell(0, 0, true), Cell(1, 0, true)];
    assert Cells(t, 2, 0) == [Cell(0, 0, true), Cell(1, 0, true), Cell(2, 1, false)];
    FirstFour(t, 2);
    PlacedAtFirstExact(t, 1, 2);
  }

  lemma MixedOrders()
    ensures OrderFor(32) == 0 && OrderFor(64) == 1
  {
    Pow2Table();
    LeastOrderIsUnique(32, 0);
    LeastOrderIsUnique(64, 1);
  }

  // Two blocks of one unit and one of two, at units 0, 1 and 2.
  function ThreeBlocks(pte: nat): seq<Event> {
    [Done(Malloc(32), AddressOf(pte, At(0))), Done(Malloc(32), AddressOf(pte, At(1))),
     Done(Malloc(64), AddressOf(pte, At(2)))]
  }

  lemma ThreeBlocksTree(pte: nat)
    ensures Possible(pte, ThreeBlocks(pte))
    ensures Run(pte, ThreeBlocks(pte)) == Session(InFirstFour(Node(Node(Taken, Taken), Taken)), pte)
  {
    hide Placed, Allocated, Release, InFirstFour, AddressOf;
    var es := ThreeBlocks(pte);
    MixedOrders();
    FirstUnit();
    SecondUnit();
    ThirdBlock();
    RunSnoc(pte, [], es[0]);
    RunSnoc(pte, es[..1], es[1]);
    RunSnoc(pte, es[..2], es[2]);
    assert [] + [es[0]] == es[..1] && es[..1] + [es[1]] == es[..2] && es[..2] + [es[2]] == es;
  }

  lemma FreeFirstUnit(pte: nat)
    requires GoodPte(pte)
    ensures var t := InFirstFour(Node(Node(Taken, Taken), Taken));
      Fits(t, ORDER_MAX) && Releasable(t, pte, AddressOf(pte, At(0)))
      && After(t, pte, Mfree(AddressOf(pte, At(0)))) == MIXED
  {
    hide InFirstFour, AddressOf;
    AddressFindsUnit(pte, 0);
    FirstFour(Node(Node(Taken, Taken), Taken), 0);
  }

  // The first of the three is freed again.
  function MixedRun(pte: nat): seq<Event> {
    ThreeBlocks(pte) + [Done(Mfree(AddressOf(pte, At(0))), 0)]
  }

  lemma MixedTree(pte: nat)
    requires GoodPte(pte)
    ensures Possible(pte, MixedRun(pte)) && Run(pte, MixedRun(pte)) == Session(MIXED, pte)
  {
    hide ThreeBlocks, InFirstFour, AddressOf, Release, Run;
    ThreeBlocksTree(pte);
    FreeFirstUnit(pte);
    RunSnoc(pte, ThreeBlocks(pte), Done(Mfree(AddressOf(pte, At(0))), 0));
  }

  /** A run after which the committed mfree, asked for the block at unit 2, also drops the block at unit
      1, which is still held: the left buddy begins with a free unit, so it passes for a free pair. */
  lemma CommittedFreeLosesABlock(pte: nat)
    requires GoodPte(pte)
    ensures Possible(pte, MixedRun(pte)) && Run(pte, MixedRun(pte)).tree == MIXED
    ensures Releasable(MIXED, pte, AddressOf(pte, At(2))) && Swallows(MIXED, ORDER_MAX, 0, 2)
    ensures Block(1, 0) in Held(MixedRun(pte))
    ensures Release(false, MIXED, ORDER_MAX, 0, 2) == Free
    ensures Release(true, MIXED, ORDER_MAX, 0, 2) == InFirstFour(Node(Node(Free, Taken), Free))
  {
    hide InFirstFour, AddressOf, Run, Held, Possible, MixedRun;
    MixedTree(pte);
    AddressFindsUnit(pte, 2);
    var t := Node(Node(Free, Taken), Taken);
    Pow2Table();
    FirstFour(t, 2);
    FirstFour(t, 1);
    HeadsAreCells(MIXED, ORDER_MAX, 0, Cell(1, 0, true));
    UsedAreCells(MIXED, ORDER_MAX, 0);
    RunIsCanonical(pte, MixedRun(pte));
  }

  // Two units are taken and the first given back.
  function OneUnitLeft(pte: nat): seq<Event> {
    [Done(Malloc(32), AddressOf(pte, At(0))), Done(Malloc(32), AddressOf(pte, At(1))),
     Done(Mfree(AddressOf(pte, At(0))), 0)]
  }

  // What mfree makes of the blocks.
  function FreedTo(checked: bool, t: Tree, pte: nat, p: int): Tree
    requires Fits(t, ORDER_MAX)
  {
    if Releasable(t, pte, p) then Release(checked, t, ORDER_MAX, 0, UnitOf(p)) else t
  }

  const PairFree := InFirstFour(Node(Node(Free, Taken), Free))

  lemma FreeFirstOfTwo(pte: nat)
    requires GoodPte(pte)
    ensures var t := InFirstFour(Node(Node(Taken, Taken), Free));
      Fits(t, ORDER_MAX) && Releasable(t, pte, AddressOf(pte, At(0)))
      && After(t, pte, Mfree(AddressOf(pte, At(0)))) == PairFree
  {
    hide InFirstFour, AddressOf;
    AddressFindsUnit(pte, 0);
    FirstFour(Node(Node(Taken, Taken), Free), 0);
  }

  lemma OneUnitLeftTree(pte: nat)
    requires GoodPte(pte)
    ensures Possible(pte, OneUnitLeft(pte)) && Run(pte, OneUnitLeft(pte)) == Session(PairFree, pte)
  {
    hide Placed, Allocated, Release, InFirstFour, AddressOf, Releasable;
    var es := OneUnitLeft(pte);
    MixedOrders();
    FirstUnit();
    SecondUnit();
    FreeFirstOfTwo(pte);
    RunSnoc(pte, [], es[0]);
    RunSnoc(pte, es[..1], es[1]);
    RunSnoc(pte, es[..2], es[2]);
    assert [] + [es[0]] == es[..1] && es[..1] + [es[1]] == es[..2] && es[..2] + [es[2]] == es;
  }

  lemma PairTaken()
    ensures Fits(PairFree, ORDER_MAX) && Placed(PairFree, ORDER_MAX, 1) == At(2)
    ensures Allocated(PairFree, ORDER_MAX, 1) == MIXED
  {
    hide InFirstFour, Placed, Pow2;
    Pow2Table();
    var t := Node(Node(Free, Taken), Free);
    assert Cells(t.left, 1, 0) == [Cell(0, 0, false), Cell(1, 0, true)];
    assert Cells(t, 2, 0) == [Cell(0, 0, false), Cell(1, 0, true), Cell(2, 1, false)];
    FirstFour(t, 2);
    PlacedAtFirstExact(t, 1, 2);
  }

  /** So giving back at once what malloc has just returned can lose a block of somebody else: two calls after this run
      the committed code has made the whole page free, while the block at unit 1 is still held. */
  lemma CommittedPairLosesABlock(pte: nat)
    requires GoodPte(pte)
    ensures Possible(pte, OneUnitLeft(pte)) && Run(pte, OneUnitLeft(pte)) == Session(PairFree, pte)
    ensures Block(1, 0) in Held(OneUnitLeft(pte))
    ensures Fits(PairFree, ORDER_MAX) && Reply(PairFree, pte, Malloc(64)) == AddressOf(pte, At(2))
    ensures var t := After(PairFree, pte, Malloc(64)); var p := AddressOf(pte, At(2));
            FreedTo(true, t, pte, p) == PairFree && FreedTo(false, t, pte, p) == Free
  {
    hide InFirstFour, AddressOf, Run, Held, Possible, OneUnitLeft, MixedRun, Release, Placed, Allocated, Releasable;
    OneUnitLeftTree(pte);
    MixedOrders();
    PairTaken();
    CommittedFreeLosesABlock(pte);
    AddressFindsUnit(pte, 2);
    var t := Node(Node(Free, Taken), Free);
    Pow2Table();
    FirstFour(t, 1);
    HeadsAreCells(PairFree, ORDER_MAX, 0, Cell(1, 0, true));
    UsedAreCells(PairFree, ORDER_MAX, 0);
    RunIsCanonical(pte, OneUnitLeft(pte));
  }

  // ---- The dirty array, on a run ----

  lemma BesideRep(h: seq<int>, h': seq<int>, t: Tree, t': Tree, k: nat, clean: bool)
    requires Rep(h, 0, Node(t, Free), k + 1, clean) && SameOutside(h, h', 0, 2) && 2 <= k
    ensures Rep(h, 0, t, k, clean)
    ensures Rep(h', 0, t', k, clean) ==> Rep(h', 0, Node(t', Free), k + 1, clean)
  {
    hide Rep;
    RepChildren(h, 0, t, Free, k + 1, clean);
    if Rep(h', 0, t', k, clean) {
      Pow2Monotone(2, k);
      RepFrame(h, h', Half(k + 1), Free, k, clean);
      RepJoin(h', 0, t', Free, k + 1, clean);
    }
  }

  lemma FirstFourRep(h: seq<int>, h': seq<int>, t: Tree, t': Tree, clean: bool)
    requires Rep(h, 0, InFirstFour(t), ORDER_MAX, clean) && SameOutside(h, h', 0, 2)
    ensures Rep(h, 0, t, 2, clean)
    ensures Rep(h', 0, t', 2, clean) ==> Rep(h', 0, InFirstFour(t'), ORDER_MAX, clean)
  {
    hide Rep, SameOutside;
    var a, a' := Node(t, Free), Node(t', Free);
    var b, b' := Node(a, Free), Node(a', Free);
    var c, c' := Node(b, Free), Node(b', Free);
    var d, d' := Node(c, Free), Node(c', Free);
    BesideRep(h, h', d, d', 6, clean);
    BesideRep(h, h', c, c', 5, clean);
    BesideRep(h, h', b, b', 4, clean);
    BesideRep(h, h', a, a', 3, clean);
    BesideRep(h, h', t, t', 2, clean);
  }

  // The array of an owner that exits with three blocks, after the reset for the next one.
  lemma DirtyArray(h: seq<int>)
    requires Sane(h) && Rep(h, 0, InFirstFour(Node(Node(Taken, Taken), Taken)), ORDER_MAX, true)
    ensures var d := h[0 := ORDER_MAX];
      && d[1] == 16 && d[2] == 17 && Rep(d, 0, Free, ORDER_MAX, false) && Sane(d) && Stale(d, 1) && OnWalk(d, 0)
  {
    hide OnWalk, InFirstFour;
    var d := h[0 := ORDER_MAX];
    Pow2Table();
    FirstFourRep(h, h, Node(Node(Taken, Taken), Taken), Free, true);
    assert SaneEntry(ORDER_MAX, 0);
    OnWalkIsHead(d, Free, false, 1);
    OnWalkIsHead(d, Free, false, 0);
  }

  lemma DirtyFree(h: seq<int>)
    requires Sane(h) && Rep(h, 0, InFirstFour(Node(Node(Taken, Taken), Taken)), ORDER_MAX, true)
    ensures var d := h[0 := ORDER_MAX];
      && Order(d[1]) == 0 && Damages(d, 1) && CanShrink(Cleared(d, 1), 1)
      && Rep(Freed(false, d, 1), 0, InFirstFour(Node(Free, Taken)), ORDER_MAX, false)
  {
    hide OnWalk, InFirstFour, Shrunk, Summit;
    var d := h[0 := ORDER_MAX];
    DirtyArray(h);
    Pow2Table();
    var t := Node(Node(Taken, Taken), Taken);
    RepUnclean(h, 0, InFirstFour(t), ORDER_MAX, true);
    SummitUnfolds(false, d, 1, 0);
    SummitUnfolds(false, d, 0, 1);
    var c := Cleared(d, 1);
    ShrunkUnfolds(false, c, 1);
    ShrunkUnfolds(false, c[1 := 0][0 := 1], 0);
    var f := Freed(false, d, 1);
    assert f == c[1 := 0][0 := 1];
    FirstFourRep(h, f, t, Node(Free, Taken), false);
  }

  lemma DirtyFrees(h: seq<int>)
    requires Sane(h) && Rep(h, 0, InFirstFour(Node(Node(Taken, Taken), Taken)), ORDER_MAX, true)
    ensures var d := h[0 := ORDER_MAX];
      && CanShrink(Cleared(d, 1), 1)
      && Outstanding(Freed(false, d, 1)) == {Block(2, 1)} && Outstanding(Freed(true, d, 1)) == {}
  {
    hide OnWalk, InFirstFour, Freed, Outstanding;
    DirtyArray(h);
    DirtyFree(h);
    var d := h[0 := ORDER_MAX];
    CheckedStaleFreeIsHarmless(d, Free, 1);
    OutstandingIsUsed(Freed(true, d, 1), Free, false);
    OutstandingIsUsed(Freed(false, d, 1), InFirstFour(Node(Free, Taken)), false);
    PairHeld();
  }

  lemma SecondOwner(pte: nat, pte2: nat)
    requires GoodPte(pte2)
    ensures var es := ThreeBlocks(pte) + [NewOwner(pte2)];
      Possible(pte, es) && Held(es) == {} && Run(pte, es) == Session(Free, pte2)
  {
    hide ThreeBlocks, Run, Possible;
    ThreeBlocksTree(pte);
    RunSnoc(pte, ThreeBlocks(pte), NewOwner(pte2));
  }

  /** A run that reaches such an array: an owner exits holding three blocks. The next one, before it has asked for
      anything, has mfree accept the address of unit 1. As committed that takes the page apart: a block of the former
      owner counts as held. With the equal-order test the page stays whole. */
  lemma CommittedFreeOfStaleEntry(pte: nat, pte2: nat, h: seq<int>)
    requires GoodPte(pte) && GoodPte(pte2) && Sane(h) && Rep(h, 0, Run(pte, ThreeBlocks(pte)).tree, ORDER_MAX, true)
    ensures var es := ThreeBlocks(pte) + [NewOwner(pte2)];
      Possible(pte, es) && Held(es) == {} && Run(pte, es) == Session(Free, pte2)
    ensures var d, p := h[0 := ORDER_MAX], AddressOf(pte2, At(1));
      && Rep(d, 0, Free, ORDER_MAX, false) && UnitOf(p) == 1
      && Accepts(d, pte2, p) && Stale(d, 1) && Reply(Free, pte2, Mfree(p)) == -1
      && CanShrink(Cleared(d, 1), 1)
      && Outstanding(Freed(false, d, 1)) == {Block(2, 1)} && Outstanding(Freed(true, d, 1)) == {}
  {
    hide OnWalk, InFirstFour, Freed, Run, Possible, ThreeBlocks, AddressOf, Outstanding, Held, Rep, Pow2, Stale;
    ThreeBlocksTree(pte);
    SecondOwner(pte, pte2);
    DirtyArray(h);
    DirtyFrees(h);
    AddressFindsUnit(pte2, 1);
  }

  // Such a run on the array itself.
  method FreeStaleEntry(frame: nat, flags: nat, frame2: nat, flags2: nat, checked: bool)
    returns (owner: HeapOwner, code: int)
    requires 0 < frame < FRAMES && flags < 8 && 0 < frame2 < FRAMES && flags2 < 8
    ensures code == 0 && owner.heapNodes.Length == UNITS
    ensures Outstanding(owner.heapNodes[..]) == if checked then {} else {Block(2, 1)}
  {
    hide HeapOwner.Valid, Rep, Sane, Canonical, Allocated, Placed, OnWalk, InFirstFour, Freed, Outstanding, Damages,
      AddressOf, Accepts, Stale, Run, Possible, Held, ThreeBlocks, CanShrink, Release;
    owner := new HeapOwner(frame, flags);
    ghost var pte := owner.heapPte;
    var _ := owner.Malloc(32);
    var _ := owner.Malloc(32);
    var _ := owner.Malloc(64);
    MixedOrders();
    FirstUnit();
    SecondUnit();
    ThirdBlock();
    ThreeBlocksTree(pte);
    OwnerIs(owner);
    ghost var h := owner.heapNodes[..];
    owner.ResetForFork(frame2, flags2);
    EntryOfFrame(frame, flags);
    EntryOfFrame(frame2, flags2);
    CommittedFreeOfStaleEntry(pte, owner.heapPte, h);
    AddressIs(owner.heapPte, 1);
    code := owner.Mfree(checked, owner.heapPte - owner.heapPte % 8 + UNIT_BYTES);
  }

  lemma AddressIs(pte: nat, start: nat)
    requires GoodPte(pte) && start < UNITS
    ensures AddressOf(pte, At(start)) == pte - pte % 8 + start * UNIT_BYTES
  {
    PageOfEntry(pte);
  }

  lemma PairHeld()
    ensures Fits(InFirstFour(Node(Free, Taken)), ORDER_MAX)
    ensures Used(InFirstFour(Node(Free, Taken)), ORDER_MAX, 0) == {Block(2, 1)}
  {
    hide Pow2;
    Pow2Table();
    var t := Node(Free, Taken);
    assert Used(t, 2, 0) == {Block(2, 1)};
    assert Used(Node(t, Free), 3, 0) == Used(t, 2, 0);
    var b := Node(Node(t, Free), Free);
    assert Used(b, 4, 0) == Used(t, 2, 0);
    var c := Node(b, Free);
    assert Used(c, 5, 0) == Used(b, 4, 0);
    var d := Node(c, Free);
    assert Used(d, 6, 0) == Used(c, 5, 0);
  }
}
