/** Intrusive doubly-linked queues over a fixed pool of links, each link knowing the queue it is on. */
module Queues {

  const MAX_LINKS: nat := 400
  const QUEUE_FAIL := 0
  const QUEUE_SUCCESS := 1

  // ---- Sequence operations that the pointer work implements ----

  ghost predicate Distinct<T>(s: seq<T>) {
    forall i, j :: 0 <= i < j < |s| ==> s[i] != s[j]
  }

  ghost function IndexOf<T>(s: seq<T>, x: T): (i: nat)
    requires x in s
    ensures i < |s| && s[i] == x
  {
    var i :| 0 <= i < |s| && s[i] == x;
    i
  }

  ghost function Insert<T>(s: seq<T>, i: nat, x: T): seq<T>
    requires i <= |s|
  {
    s[..i] + [x] + s[i..]
  }

  ghost function Drop<T>(s: seq<T>, i: nat): seq<T>
    requires i < |s|
  {
    s[..i] + s[i + 1..]
  }

  ghost function Without<T>(s: seq<T>, x: T): seq<T>
    requires x in s
  {
    Drop(s, IndexOf(s, x))
  }

  ghost function InsertedAfter<T>(s: seq<T>, after: T, x: T): seq<T>
    requires after in s
  {
    Insert(s, IndexOf(s, after) + 1, x)
  }

  lemma InsertFacts<T>(s: seq<T>, i: nat, x: T)
    requires i <= |s|
    ensures var t := Insert(s, i, x);
            && |t| == |s| + 1 && t[i] == x
            && (forall j :: 0 <= j < i ==> t[j] == s[j])
            && (forall j :: i < j < |t| ==> t[j] == s[j - 1])
            && (Distinct(s) && x !in s ==> Distinct(t))
  {
    InsertMembers(s, i, x);
    assert forall j :: 0 <= j < |Insert(s, i, x)| && j != i ==> Insert(s, i, x)[j] in s;
  }

  lemma InsertMembers<T>(s: seq<T>, i: nat, x: T)
    requires i <= |s|
    ensures forall y :: y in Insert(s, i, x) <==> y in s || y == x
  {
    assert s == s[..i] + s[i..];
  }

  lemma DropFacts<T>(s: seq<T>, i: nat)
    requires i < |s|
    ensures var t := Drop(s, i);
            && |t| == |s| - 1
            && (forall j :: 0 <= j < i ==> t[j] == s[j])
            && (forall j :: i <= j < |t| ==> t[j] == s[j + 1])
            && (Distinct(s) ==> Distinct(t))
  {
    var t := Drop(s, i);
    assert forall j :: 0 <= j < |t| ==> t[j] == s[if j < i then j else j + 1];
  }

  lemma DropMembers<T>(s: seq<T>, i: nat)
    requires i < |s| && Distinct(s)
    ensures forall y :: y in Drop(s, i) <==> y in s && y != s[i]
  {
    assert s == s[..i] + [s[i]] + s[i + 1..];
  }

  /** Moving the first after the last turns the queue round by one, as the scheduler does. */
  lemma MovingFirstAfterLastRotates<T>(s: seq<T>)
    requires Distinct(s) && |s| > 1
    ensures s[|s| - 1] in Without(s, s[0])
    ensures InsertedAfter(Without(s, s[0]), s[|s| - 1], s[0]) == s[1..] + [s[0]]
  {
    hide Distinct, Insert, Drop, IndexOf;
    var d := s[1..];
    OnlyPlace(s, 0);
    DropFirst(s);
    DropFacts(s, 0);
    assert d[|d| - 1] == s[|s| - 1];
    OnlyPlace(d, |d| - 1);
    InsertAtEnd(d, s[0]);
  }

  lemma DropFirst<T>(s: seq<T>)
    requires s != []
    ensures Drop(s, 0) == s[1..]
  {
  }

  lemma OnlyPlace<T>(s: seq<T>, i: nat)
    requires Distinct(s) && i < |s|
    ensures IndexOf(s, s[i]) == i
  {
  }

  lemma InsertAtEnd<T>(s: seq<T>, x: T)
    ensures Insert(s, |s|, x) == s + [x]
  {
  }

  // ---- Links, queues and chains ----

  class Link {
    var next: Link?
    var prev: Link?
    var queue: Queue?
    var item: int

    constructor ()
      ensures queue == null
    {
      next, prev, queue, item := null, null, null, 0;
    }
  }

  class Queue {
    var first: Link?
    var last: Link?
    var nitems: int
    ghost var links: seq<Link>  // the links on the queue, from first to last

    constructor ()
      ensures nitems == 0
    {
      first, last, nitems, links := null, null, 0, [];
    }

    ghost predicate WellFormed(pool: set<Link>)
      reads this, pool
    {
      && Chained(links, pool)
      && (forall i :: 0 <= i < |links| ==> links[i].queue == this)
      && nitems == |links|
      && first == At(links, 0)
      && last == At(links, |links| - 1)
    }
  }

  ghost function At(s: seq<Link>, i: int): Link? {
    if 0 <= i < |s| then s[i] else null
  }

  // The next and prev pointers run through `s` in both directions and end in null.
  ghost predicate Chained(s: seq<Link>, pool: set<Link>)
    reads pool
  {
    && (forall i :: 0 <= i < |s| ==> s[i] in pool)
    && Distinct(s)
    && (s != [] ==> s[0].prev == null && s[|s| - 1].next == null)
    && (forall i, j :: 0 <= i < j < |s| && j == i + 1 ==> s[i].next == s[j] && s[j].prev == s[i])
  }

  lemma Neighbours(s: seq<Link>, pool: set<Link>, i: nat)
    requires Chained(s, pool) && i < |s|
    ensures s[i].next == At(s, i + 1) && s[i].prev == At(s, i - 1)
    ensures s[i] == At(s, 0) <==> i == 0
    ensures s[i] == At(s, |s| - 1) <==> i == |s| - 1
    ensures Distinct(s)
  {
    if i + 1 < |s| { assert s[i].next == s[i + 1]; }
    if i > 0 { assert s[i].prev == s[i - 1]; }
  }

  lemma EndsOfInsert(s: seq<Link>, i: nat, l: Link)
    requires i <= |s|
    ensures var t := Insert(s, i, l);
            && |t| == |s| + 1
            && At(t, 0) == (if i == 0 then l else At(s, 0))
            && At(t, |t| - 1) == (if i == |s| then l else At(s, |s| - 1))
  {
  }

  // Link l and position i of the links `s` of a pool.
  datatype Spot = Spot(pool: set<Link>, s: seq<Link>, i: nat, l: Link)

  twostate lemma ChainInsert(at: Spot)
    requires old(Chained(at.s, at.pool)) && at.l in at.pool && at.l !in at.s && at.i <= |at.s|
    requires at.l.prev == At(at.s, at.i - 1) && at.l.next == At(at.s, at.i)
    requires forall j :: 0 <= j < |at.s| ==> at.s[j].next == if j == at.i - 1 then at.l else old(at.s[j].next)
    requires forall j :: 0 <= j < |at.s| ==> at.s[j].prev == if j == at.i then at.l else old(at.s[j].prev)
    ensures Chained(Insert(at.s, at.i, at.l), at.pool)
  {
    var Spot(pool, s, i, l) := at;
    var t := Insert(s, i, l);
    InsertFacts(s, i, l);
    forall a, b | 0 <= a < b < |t| && b == a + 1
      ensures t[a].next == t[b] && t[b].prev == t[a]
    {
      if b < i {
        assert old(s[a].next) == s[b] && old(s[b].prev) == s[a];
      } else if a > i {
        assert old(s[a - 1].next) == s[b - 1] && old(s[b - 1].prev) == s[a - 1];
      }
    }
  }

  twostate lemma ChainDrop(at: Spot)
    requires old(Chained(at.s, at.pool)) && at.i < |at.s|
    requires forall j :: 0 <= j < |at.s| && j != at.i ==>
               at.s[j].next == if j == at.i - 1 then At(at.s, at.i + 1) else old(at.s[j].next)
    requires forall j :: 0 <= j < |at.s| && j != at.i ==>
               at.s[j].prev == if j == at.i + 1 then At(at.s, at.i - 1) else old(at.s[j].prev)
    ensures Chained(Drop(at.s, at.i), at.pool)
  {
    var Spot(_, s, i, _) := at;
    var t := Drop(s, i);
    DropFacts(s, i);
    forall a, b | 0 <= a < b < |t| && b == a + 1
      ensures t[a].next == t[b] && t[b].prev == t[a]
    {
      if b < i {
        assert old(s[a].next) == s[b] && old(s[b].prev) == s[a];
      } else if a >= i {
        assert old(s[a + 1].next) == s[b + 1] && old(s[b + 1].prev) == s[a + 1];
      }
    }
  }

  datatype Growth = Growth(q: Queue, at: Spot)

  twostate lemma GrownQueue(g: Growth)
    requires g.at.i <= |g.at.s| && g.q.links == Insert(g.at.s, g.at.i, g.at.l)
    requires old(Chained(Insert(g.at.s, g.at.i, g.at.l), g.at.pool)) && unchanged(g.at.pool)
    requires g.at.l.queue == g.q && forall j :: 0 <= j < |g.at.s| ==> g.at.s[j].queue == g.q
    requires g.q.nitems == |g.at.s| + 1
    requires g.q.first == if g.at.i == 0 then g.at.l else At(g.at.s, 0)
    requires g.q.last == if g.at.i == |g.at.s| then g.at.l else At(g.at.s, |g.at.s| - 1)
    ensures g.q.WellFormed(g.at.pool)
  {
    InsertFacts(g.at.s, g.at.i, g.at.l);
    EndsOfInsert(g.at.s, g.at.i, g.at.l);
  }

  // ---- Pointer work on one queue ----

  // Put l between two neighbours, either of which may be missing, as a link of queue q.
  method LinkBetween(ghost pool: set<Link>, ghost s: seq<Link>, ghost i: nat, q: Queue, before: Link?, after: Link?,
      l: Link)
    requires Chained(s, pool) && l in pool && l !in s && i <= |s|
    requires before == At(s, i - 1) && after == At(s, i)
    modifies pool
    ensures Chained(Insert(s, i, l), pool) && l.queue == q
    ensures forall x :: x in pool ==> x.item == old(x.item) && (x != l ==> x.queue == old(x.queue))
    ensures forall x :: x in pool && x != l && x !in s ==> unchanged(x)
  {
    l.queue := q;
    l.prev := before;
    l.next := after;
    if before != null { before.next := l; }
    if after != null { after.prev := l; }
    ChainInsert(Spot(pool, s, i, l));
  }

  method SpliceIntoEmpty(ghost pool: set<Link>, q: Queue, l: Link)
    requires q.WellFormed(pool) && l in pool && q.links == []
    modifies q, l
    ensures q.WellFormed(pool) && q.links == [l] && l.item == old(l.item)
  {
    l.queue := q;
    l.prev := null;
    l.next := null;
    q.first := l;
    q.last := l;
    q.nitems := 1;
    q.links := [l];
  }

  method SpliceAfter(ghost pool: set<Link>, q: Queue, after: Link, l: Link)
    requires q.WellFormed(pool) && l in pool && l !in q.links && after in q.links
    modifies q, pool
    ensures q.WellFormed(pool) && l.item == old(l.item)
    ensures q.links == InsertedAfter(old(q.links), after, l)
    ensures forall x :: x in pool && x != l ==> x.item == old(x.item) && x.queue == old(x.queue)
    ensures forall x :: x in pool && x != l && x !in old(q.links) ==> unchanged(x)
  {
    hide Chained;
    ghost var s := q.links;
    ghost var k := IndexOf(s, after);
    Neighbours(s, pool, k);
    LinkBetween(pool, s, k + 1, q, after, after.next, l);
    label Linked:
    if q.last == after { q.last := l; }
    q.nitems := q.nitems + 1;
    q.links := Insert(s, k + 1, l);
    GrownQueue@Linked(Growth(q, Spot(pool, s, k + 1, l)));
  }

  method SpliceBefore(ghost pool: set<Link>, q: Queue, before: Link, l: Link)
    requires q.WellFormed(pool) && l in pool && l !in q.links && before in q.links
    modifies q, pool
    ensures q.WellFormed(pool) && l.item == old(l.item)
    ensures q.links == Insert(old(q.links), IndexOf(old(q.links), before), l)
    ensures forall x :: x in pool && x != l ==> x.item == old(x.item) && x.queue == old(x.queue)
    ensures forall x :: x in pool && x != l && x !in old(q.links) ==> unchanged(x)
  {
    hide Chained;
    ghost var s := q.links;
    ghost var k := IndexOf(s, before);
    Neighbours(s, pool, k);
    LinkBetween(pool, s, k, q, before.prev, before, l);
    label Linked:
    if q.first == before { q.first := l; }
    q.nitems := q.nitems + 1;
    q.links := Insert(s, k, l);
    GrownQueue@Linked(Growth(q, Spot(pool, s, k, l)));
  }

  // Connect the neighbours of l with each other; the pointers of l itself are left as they are.
  method LinkAround(ghost pool: set<Link>, ghost s: seq<Link>, ghost i: nat, l: Link)
    requires Chained(s, pool) && i < |s| && l == s[i]
    modifies pool
    ensures Chained(Drop(s, i), pool) && unchanged(l)
    ensures forall x :: x in pool ==> x.item == old(x.item) && x.queue == old(x.queue)
    ensures forall x :: x in pool && x !in s ==> unchanged(x)
  {
    Neighbours(s, pool, i);
    if l.prev != null { l.prev.next := l.next; }
    if l.next != null { l.next.prev := l.prev; }
    ChainDrop(Spot(pool, s, i, l));
  }

  method Unlink(ghost pool: set<Link>, q: Queue, l: Link)
    requires q.WellFormed(pool) && l in q.links
    modifies q, pool
    ensures q.WellFormed(pool) && q.links == Without(old(q.links), l)
    ensures l.next == old(l.next) && l.prev == old(l.prev)
    ensures forall x :: x in pool ==> x.item == old(x.item) && x.queue == old(x.queue)
    ensures forall x :: x in pool && x !in old(q.links) ==> unchanged(x)
  {
    hide Chained;
    ghost var s := q.links;
    ghost var i := IndexOf(s, l);
    Neighbours(s, pool, i);
    if q.first == l { q.first := l.next; }
    if q.last == l { q.last := l.prev; }
    q.nitems := q.nitems - 1;
    q.links := Drop(s, i);
    LinkAround(pool, s, i, l);
    DropFacts(s, i);
  }

  method Relink(ghost pool: set<Link>, ghost s: seq<Link>, ghost i: nat, ghost k: nat, q: Queue, after: Link, l: Link)
    requires Chained(s, pool) && l.queue == q && i < |s| && l == s[i] && k < |s| - 1 && after == Drop(s, i)[k]
    modifies pool
    ensures Chained(Insert(Drop(s, i), k + 1, l), pool)
    ensures forall x :: x in pool ==> x.item == old(x.item) && x.queue == old(x.queue)
    ensures forall x :: x in pool && x !in s ==> unchanged(x)
  {
    ghost var d := Drop(s, i);
    DropFacts(s, i);
    DropMembers(s, i);
    LinkAround(pool, s, i, l);
    Neighbours(d, pool, k);
    LinkBetween(pool, d, k + 1, q, after, after.next, l);
  }

  lemma EndsOfMove(s: seq<Link>, i: nat, k: nat)
    requires Distinct(s) && i < |s| - 1 && k < |s| - 1
    ensures var d := Drop(s, i);
            && At(d, 0) == (if i == 0 then At(s, 1) else At(s, 0))
            && At(d, |d| - 1) == At(s, |s| - 1)
            && (k == |d| - 1 <==> d[k] == At(s, |s| - 1))
  {
    DropFacts(s, i);
  }

  lemma QueuesOfDrop(q: Queue, s: seq<Link>, i: nat)
    requires i < |s| && forall j :: 0 <= j < |s| ==> s[j].queue == q
    ensures |Drop(s, i)| == |s| - 1 && forall j :: 0 <= j < |Drop(s, i)| ==> Drop(s, i)[j].queue == q
  {
    DropFacts(s, i);
  }

  method MoveEnds(ghost pool: set<Link>, q: Queue, ghost i: nat, ghost k: nat, after: Link, l: Link)
    requires q.WellFormed(pool) && i < |q.links| - 1 && l == q.links[i] && k < |q.links| - 1
    requires after == Drop(q.links, i)[k]
    modifies q`first, q`last
    ensures var d := Drop(q.links, i);
            q.first == At(d, 0) && q.last == if k + 1 == |d| then l else At(d, |d| - 1)
  {
    Neighbours(q.links, pool, i);
    EndsOfMove(q.links, i, k);
    if q.first == l { q.first := l.next; }
    if q.last == after { q.last := l; }
  }

  // Move l, which is not the last link, to the place after `after`.
  method Rehang(ghost pool: set<Link>, q: Queue, after: Link, l: Link)
    requires q.WellFormed(pool) && l in q.links && after in q.links && l != after && q.last != l
    modifies q, pool
    ensures q.WellFormed(pool) && after in Without(old(q.links), l)
    ensures q.links == InsertedAfter(Without(old(q.links), l), after, l)
    ensures forall x :: x in pool ==> x.item == old(x.item) && x.queue == old(x.queue)
    ensures forall x :: x in pool && x !in old(q.links) ==> unchanged(x)
  {
    hide Chained, Drop, Insert;
    ghost var s := q.links;
    ghost var i := IndexOf(s, l);
    ghost var d := Drop(s, i);
    Neighbours(s, pool, i);
    assert after in d && |d| == |s| - 1 by {
      DropMembers(s, i);
      DropFacts(s, i);
    }
    ghost var k := IndexOf(d, after);
    MoveEnds(pool, q, i, k, after, l);
    Relink(pool, s, i, k, q, after, l);
    assert forall j :: 0 <= j < |d| ==> d[j].queue == q by { QueuesOfDrop(q, s, i); }
    label Linked:
    q.links := Insert(d, k + 1, l);
    GrownQueue@Linked(Growth(q, Spot(pool, d, k + 1, l)));
  }

  // ---- The module: one pool of links, the free list, and every queue that has been set up ----

  class LinkPool {
    const freeLinks: Queue
    const linkpool: seq<Link>
    ghost const pool: set<Link>  // the same links as a set
    ghost var queues: set<Queue>

    // Everything is in order, except that of `l` no more is known than that it is on no queue.
    ghost predicate ValidBut(l: Link?)
      reads this, queues, pool
    {
      && freeLinks in queues
      && (forall q :: q in queues ==> q.WellFormed(pool) && l !in q.links)
      && (forall x :: x in pool && x != l ==> x.queue == null || (x.queue in queues && x in x.queue.links))
    }

    // Every link is on the free list, on exactly one live queue, or detached.
    ghost predicate Valid()
      reads this, queues, pool
    {
      ValidBut(null)
    }

    // Every queue but `q` holds what it held, and every link but `l` is where it was and carries what it carried.
    twostate predicate OthersUntouched(q: Queue, l: Link?)
      reads this, queues, pool
    {
      && queues == old(queues)
      && (forall p :: p in queues && p != q ==> p.links == old(p.links))
      && (forall x :: x in pool ==> x.item == old(x.item))
      && (forall x :: x in pool && x != l ==> x.queue == old(x.queue))
    }

    /** The links are partitioned: a link is either detached and on no queue at all, or on the one
        queue it names, at one place of it. */
    lemma EveryLinkHasOnePlace(x: Link)
      requires Valid() && x in pool
      ensures x.queue == null ==> forall q :: q in queues ==> x !in q.links
      ensures x.queue != null ==>
                && x.queue in queues
                && (forall q :: q in queues ==> (x in q.links <==> q == x.queue))
                && (exists i :: 0 <= i < |x.queue.links| && x.queue.links[i] == x
                                && forall j :: 0 <= j < |x.queue.links| && j != i ==> x.queue.links[j] != x)
    {
      if x.queue != null {
        var s := x.queue.links;
        var i := IndexOf(s, x);
        assert Distinct(s) by { assert x.queue.WellFormed(pool); }
        assert forall j :: 0 <= j < |s| && j != i ==> s[j] != x;
      }
    }

    // The static storage before any initialisation: every link is detached, no queue is live.
    constructor ()
      ensures |linkpool| == MAX_LINKS && Distinct(linkpool) && pool == (set x | x in linkpool)
      ensures queues == {} && fresh(freeLinks) && fresh(pool)
      ensures forall x :: x in pool ==> x.queue == null
    {
      var links: seq<Link> := [];
      for i := 0 to MAX_LINKS
        invariant |links| == i && Distinct(links)
        invariant forall x :: x in links ==> fresh(x) && x.queue == null
      {
        var l := new Link();
        links := links + [l];
      }
      freeLinks := new Queue();
      linkpool := links;
      pool := set x | x in links;
      queues := {};
    }

    // Set up a queue with no items. Doing so again to a live queue that holds links would lose them.
    method Init(q: Queue?) returns (code: int)
      requires (q == freeLinks && queues == {} && forall x :: x in pool ==> x.queue == null)
               || (Valid() && (q in queues ==> q.links == []))
      modifies this`queues, q
      ensures q == null ==> code == QUEUE_FAIL && queues == old(queues) && Valid()
      ensures q != null ==> code == QUEUE_SUCCESS && Valid() && queues == old(queues) + {q} && q.links == []
    {
      if q == null { return QUEUE_FAIL; }
      q.first := null;
      q.last := null;
      q.nitems := 0;
      q.links := [];
      queues := queues + {q};
      code := QUEUE_SUCCESS;
    }

    method ClearLink(l: Link)
      requires Valid() && l in pool && l.queue == null
      modifies l
      ensures Valid() && l.queue == null
    {
      l.next := null;
      l.prev := null;
      l.item := 0;
      Detached(Work(this, freeLinks, null, l));
    }

    // The module's initialisation: every link of the pool goes onto the free list, in order.
    method ModuleInit()
      requires queues == {} && |linkpool| == MAX_LINKS && Distinct(linkpool) && pool == (set x | x in linkpool)
      requires forall x :: x in pool ==> x.queue == null
      modifies this`queues, freeLinks, pool
      ensures Valid() && queues == {freeLinks} && freeLinks.links == linkpool
    {
      hide ValidBut, Valid;
      var code := Init(freeLinks);
      for i := 0 to MAX_LINKS
        invariant Valid() && queues == {freeLinks} && freeLinks.links == linkpool[..i]
        invariant forall j :: i <= j < MAX_LINKS ==> linkpool[j].queue == null
      {
        ClearLink(linkpool[i]);
        Unattached(linkpool[i]);
        code := InsertLast(freeLinks, linkpool[i]);
      }
    }

    // Insert link l after link `after` in queue q.
    method InsertAfter(q: Queue?, after: Link?, l: Link?) returns (code: int)
      requires ValidBut(l)
      requires q != null ==> q in queues
      requires l != null ==> l in pool
      requires after != null ==> after in pool && after != l
      modifies queues, pool
      ensures code == QUEUE_SUCCESS <==>
              l != null && q != null && (if after != null then old(after.queue) == q else old(q.links) == [])
      ensures code != QUEUE_SUCCESS ==> code == QUEUE_FAIL && unchanged(queues) && unchanged(pool)
      ensures code == QUEUE_SUCCESS ==> Valid() && OthersUntouched(q, l)
      ensures code == QUEUE_SUCCESS ==>
                q.links == if after == null then [l] else InsertedAfter<Link>(old(q.links), after, l)
    {
      hide Chained, Insert;
      if l == null { return QUEUE_FAIL; }
      if q == null { return QUEUE_FAIL; }
      if after != null {
        if after.queue != q { return QUEUE_FAIL; }
        SpliceAfter(pool, q, after, l);
        InsertMembers<Link>(old(q.links), IndexOf<Link>(old(q.links), after) + 1, l);
      } else {
        if q.first != null || q.last != null || q.nitems != 0 { return QUEUE_FAIL; }
        SpliceIntoEmpty(pool, q, l);
      }
      Reassemble(Work(this, q, l, null));
      code := QUEUE_SUCCESS;
    }

    // Insert link l before link `before` in queue q.
    method InsertBefore(q: Queue?, before: Link?, l: Link?) returns (code: int)
      requires ValidBut(l)
      requires q != null ==> q in queues
      requires l != null ==> l in pool
      requires before != null ==> before in pool && before != l
      modifies queues, pool
      ensures code == QUEUE_SUCCESS <==>
              l != null && q != null && (if before != null then old(before.queue) == q else old(q.links) == [])
      ensures code != QUEUE_SUCCESS ==> code == QUEUE_FAIL && unchanged(queues) && unchanged(pool)
      ensures code == QUEUE_SUCCESS ==> Valid() && OthersUntouched(q, l)
      ensures code == QUEUE_SUCCESS ==>
                q.links == if before == null then [l]
                           else Insert<Link>(old(q.links), IndexOf<Link>(old(q.links), before), l)
    {
      hide Chained, Insert;
      if l == null { return QUEUE_FAIL; }
      if q == null { return QUEUE_FAIL; }
      if before != null {
        if before.queue != q { return QUEUE_FAIL; }
        SpliceBefore(pool, q, before, l);
        InsertMembers<Link>(old(q.links), IndexOf<Link>(old(q.links), before), l);
      } else {
        if q.first != null || q.last != null || q.nitems != 0 { return QUEUE_FAIL; }
        SpliceIntoEmpty(pool, q, l);
      }
      Reassemble(Work(this, q, l, null));
      code := QUEUE_SUCCESS;
    }

    method InsertFirst(q: Queue?, l: Link?) returns (code: int)
      requires ValidBut(l)
      requires q != null ==> q in queues
      requires l != null ==> l in pool
      modifies queues, pool
      ensures code == QUEUE_SUCCESS <==> l != null && q != null
      ensures code != QUEUE_SUCCESS ==> code == QUEUE_FAIL && unchanged(queues) && unchanged(pool)
      ensures code == QUEUE_SUCCESS ==> Valid() && OthersUntouched(q, l) && q.links == [l] + old(q.links)
    {
      if l == null { return QUEUE_FAIL; }
      if q == null { return QUEUE_FAIL; }
      code := InsertBefore(q, q.first, l);
    }

    method InsertLast(q: Queue?, l: Link?) returns (code: int)
      requires ValidBut(l)
      requires q != null ==> q in queues
      requires l != null ==> l in pool
      modifies queues, pool
      ensures code == QUEUE_SUCCESS <==> l != null && q != null
      ensures code != QUEUE_SUCCESS ==> code == QUEUE_FAIL && unchanged(queues) && unchanged(pool)
      ensures code == QUEUE_SUCCESS ==> Valid() && OthersUntouched(q, l) && q.links == old(q.links) + [l]
    {
      if l == null { return QUEUE_FAIL; }
      if q == null { return QUEUE_FAIL; }
      code := InsertAfter(q, q.last, l);
    }

    lemma Unattached(x: Link)
      requires Valid() && x in pool && x.queue == null
      ensures ValidBut(x)
    {
      assert forall q, i :: q in queues && 0 <= i < |q.links| ==> q.links[i].queue == q;
    }

    // Take the first link off the free list and let it carry x; null when the list is empty.
    method AllocLink(x: int) returns (l: Link?)
      requires Valid()
      modifies freeLinks, pool
      ensures Valid()
      ensures l == null <==> old(freeLinks.links) == []
      ensures l == null ==> unchanged(freeLinks) && unchanged(pool)
      ensures l != null ==> l == old(freeLinks.links)[0] && freeLinks.links == old(freeLinks.links)[1..]
      ensures l != null ==> l.queue == null && l.item == x
      ensures l != null ==> forall p :: p in queues && p != freeLinks ==> p.links == old(p.links)
      ensures l != null ==> forall y :: y in pool && y != l ==> y.item == old(y.item) && y.queue == old(y.queue)
    {
      if freeLinks.nitems == 0 { return null; }
      l := freeLinks.first;
      if l == null { return null; }
      ghost var s := freeLinks.links;
      Unlink(pool, freeLinks, l);
      DropMembers(s, IndexOf(s, l));
      Reassemble(Work(this, freeLinks, null, l));
      label Taken:
      l.next := null;
      l.prev := null;
      l.queue := null;
      l.item := x;
      Detached@Taken(Work(this, freeLinks, null, l));
    }

    // Take link l off its queue and put it back on the free list; the caller's pointer to it becomes null.
    method Remove(l0: Link?) returns (code: int, l: Link?)
      requires Valid() && (l0 != null ==> l0 in pool)
      modifies queues, pool
      ensures Valid()
      ensures code == QUEUE_SUCCESS <==> l0 != null && old(l0.queue) != null
      ensures code != QUEUE_SUCCESS ==> code == QUEUE_FAIL && l == l0 && unchanged(queues) && unchanged(pool)
      ensures code == QUEUE_SUCCESS ==> l == null && OthersRemain(l0)
    {
      l := l0;
      if l == null { return QUEUE_FAIL, l; }
      if l.queue == null { return QUEUE_FAIL, l; }
      var q := l.queue;
      ghost var s := q.links;
      Unlink(pool, q, l);
      DropMembers(s, IndexOf(s, l));
      Reassemble(Work(this, q, null, l));
      code := InsertLast(freeLinks, l);
      l := null;
      code := QUEUE_SUCCESS;
    }

    // What Remove does to the queues: l leaves its own and joins the end of the free list.
    twostate predicate OthersRemain(l: Link)
      requires old(l.queue) != null
      reads this, queues, pool, freeLinks
    {
      var q := old(l.queue);
      && queues == old(queues) && q in queues && l in old(q.links)
      && (if q == freeLinks then freeLinks.links == Without(old(q.links), l) + [l]
          else q.links == Without(old(q.links), l) && freeLinks.links == old(freeLinks.links) + [l])
      && (forall p :: p in queues && p != q && p != freeLinks ==> p.links == old(p.links))
      && (forall x :: x in pool && x != l ==> x.item == old(x.item) && x.queue == old(x.queue))
    }

    // When MoveAfter agrees to move l.
    ghost predicate CanMove(q: Queue?, after: Link?, l: Link?)
      reads q, pool
    {
      && q != null && l != null && l in q.links
      && (after == null ==> |q.links| == 1)
      && (after != null ==> after in q.links && (after == l || l != q.last))
    }

    lemma Membership(q: Queue, x: Link)
      requires Valid() && q in queues && x in pool
      ensures x in q.links <==> x.queue == q
      ensures q.nitems == |q.links| && (|q.links| == 1 ==> q.first == q.last)
    {
    }

    // Move link l to the place after link `after` in queue q.
    method MoveAfter(q: Queue?, after: Link?, l: Link?) returns (code: int)
      requires Valid()
      requires q != null ==> q in queues
      requires l != null ==> l in pool
      requires after != null ==> after in pool
      modifies queues, pool
      ensures Valid()
      ensures code == (if old(CanMove(q, after, l)) then QUEUE_SUCCESS else QUEUE_FAIL)
      ensures !old(CanMove(q, after, l)) || after == null || after == l ==> unchanged(queues) && unchanged(pool)
      ensures old(CanMove(q, after, l)) && after != null && after != l ==>
                && after in Without<Link>(old(q.links), l)
                && q.links == InsertedAfter<Link>(Without<Link>(old(q.links), l), after, l)
                && OthersUntouched(q, null)
    {
      if q == null { return QUEUE_FAIL; }
      if l == null { return QUEUE_FAIL; }
      Membership(q, l);
      if l.queue != q { return QUEUE_FAIL; }
      if after == null {
        if q.nitems != 1 { return QUEUE_FAIL; }
        if q.first != q.last { return QUEUE_FAIL; }
        return QUEUE_SUCCESS;
      }
      Membership(q, after);
      if after.queue != q { return QUEUE_FAIL; }
      if after == l { return QUEUE_SUCCESS; }
      if q.last == l { return QUEUE_FAIL; }
      MoveWithin(q, after, l);
      code := QUEUE_SUCCESS;
    }

    method MoveWithin(q: Queue, after: Link, l: Link)
      requires Valid() && q in queues && l in q.links && after in q.links && after != l && l != q.last
      modifies queues, pool
      ensures Valid() && OthersUntouched(q, null)
      ensures after in Without(old(q.links), l)
      ensures q.links == InsertedAfter(Without(old(q.links), l), after, l)
    {
      ghost var s := q.links;
      Rehang(pool, q, after, l);
      DropMembers(s, IndexOf(s, l));
      InsertMembers(Without(s, l), IndexOf(Without(s, l), after) + 1, l);
      Reassemble(Work(this, q, null, null));
    }
  }

  // ---- Putting the module back in order after work on one queue ----

  // Work on queue q of a pool, by which link l0 joins q and link l1 leaves it.
  datatype Work = Work(m: LinkPool, q: Queue, l0: Link?, l1: Link?)

  datatype PooledQueue = PooledQueue(pool: set<Link>, q: Queue)

  twostate lemma OtherQueueKept(p: PooledQueue)
    requires old(p.q.WellFormed(p.pool)) && unchanged(p.q)
    requires forall i :: 0 <= i < |p.q.links| ==> unchanged(p.q.links[i])
    ensures p.q.WellFormed(p.pool)
  {
  }

  // Work on queue q that touches no link of another queue keeps the whole in order.
  twostate lemma Reassemble(w: Work)
    requires old(w.m.ValidBut(w.l0)) && w.q in w.m.queues && w.q.WellFormed(w.m.pool) && w.l1 !in w.q.links
    requires unchanged(w.m) && forall p :: p in w.m.queues && p != w.q ==> unchanged(p)
    requires w.l0 != null ==> w.l0 in w.q.links
    requires forall x :: x in w.q.links <==> (x in old(w.q.links) && x != w.l1) || x == w.l0
    requires w.l1 != null ==> w.l1 in old(w.q.links)
    requires forall x :: x in w.m.pool && x != w.l0 && x != w.l1 ==> x.queue == old(x.queue)
    requires forall x :: x in w.m.pool && x !in old(w.q.links) && x != w.l0 ==> unchanged(x)
    ensures w.m.ValidBut(w.l1)
  {
    forall p | p in w.m.queues && p != w.q
      ensures p.WellFormed(w.m.pool) && w.l1 !in p.links
    {
      assert old(p.WellFormed(w.m.pool));
      forall i | 0 <= i < |p.links|
        ensures unchanged(p.links[i]) && p.links[i] != w.l1
      {
        assert p.links[i].queue == p && p.links[i] in p.links;
      }
      OtherQueueKept(PooledQueue(w.m.pool, p));
    }
  }

  // Clearing a link that is on no queue disturbs nothing.
  twostate lemma Detached(w: Work)
    requires w.l1 != null && old(w.m.ValidBut(w.l1)) && w.l1 in w.m.pool && w.l1.queue == null
    requires unchanged(w.m) && unchanged(w.m.queues) && forall x :: x in w.m.pool && x != w.l1 ==> unchanged(x)
    ensures w.m.Valid()
  {
    forall q | q in w.m.queues
      ensures q.WellFormed(w.m.pool)
    {
      assert old(q.WellFormed(w.m.pool));
      forall i | 0 <= i < |q.links|
        ensures unchanged(q.links[i])
      {
        assert q.links[i] in q.links;
      }
      OtherQueueKept(PooledQueue(w.m.pool, q));
    }
  }
}
