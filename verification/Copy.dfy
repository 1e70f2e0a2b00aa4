/** Moving bytes between the kernel and a user address space, a page at a time. */
module Copy {
  import opened Frames
  import Spaces = AddressSpaces
  import opened Translation

  type Byte = b: nat | b < 256

  // One request: the table of the process, the kernel buffer, the user buffer, the direction.
  datatype Move = Move(table: Spaces.Table, isSystem: bool, system: nat, user: nat, toUser: bool) {
    // Where byte i of the user buffer lies in physical memory, translated on its own.
    function Place(i: nat): nat { TranslateUserToSystem(table, isSystem, user + i) }

    function From(i: nat): nat { if toUser then system + i else Place(i) }

    function To(i: nat): nat { if toUser then Place(i) else system + i }

    // The start of the buffer or of a page, with nothing mapped there.
    predicate Stops(i: nat) { (i == 0 || (user + i) % PAGE_BYTES == 0) && Place(i) == 0 }

    ghost predicate Fits(memory: nat, k: nat) {
      forall i: nat :: i < k ==> From(i) < memory && To(i) < memory
    }

    predicate Mapped(i: nat) { table[(user + i) / PAGE_BYTES % Spaces.PT_SIZE] >= 8 }
  }

  // ---- Reference: byte after byte ----

  ghost function Bytewise(mem: seq<Byte>, mv: Move, k: nat): (r: seq<Byte>)
    requires mv.Fits(|mem|, k)
    ensures |r| == |mem|
  {
    if k == 0 then mem
    else
      var before := Bytewise(mem, mv, k - 1);
      before[mv.To(k - 1) := before[mv.From(k - 1)]]
  }

  function Moved(mv: Move, n: nat, from: nat): (k: nat)
    requires from <= n
    ensures from <= k <= n
    decreases n - from
  {
    if from == n || mv.Stops(from) then from else Moved(mv, n, from + 1)
  }

  // ---- Blocks ----

  ghost function Block(mem: seq<Byte>, src: nat, dst: nat, n: nat): (r: seq<Byte>)
    requires src + n <= |mem| && dst + n <= |mem|
    ensures |r| == |mem|
  {
    if n == 0 then mem
    else
      var before := Block(mem, src, dst, n - 1);
      before[dst + n - 1 := before[src + n - 1]]
  }

  // From byte k on, c bytes lie side by side on both ends.
  ghost predicate SideBySide(mv: Move, k: nat, c: nat) {
    forall j: nat :: k <= j < k + c ==> mv.From(j) == mv.From(k) + (j - k) && mv.To(j) == mv.To(k) + (j - k)
  }

  lemma {:induction false} StretchIsBlock(mem: seq<Byte>, mv: Move, k: nat, c: nat)
    requires mv.Fits(|mem|, k + c) && SideBySide(mv, k, c) && c > 0
    ensures mv.From(k) + c <= |mem| && mv.To(k) + c <= |mem|
    ensures Bytewise(mem, mv, k + c) == Block(Bytewise(mem, mv, k), mv.From(k), mv.To(k), c)
    decreases c
  {
    hide Move.From, Move.To;
    var last := k + c - 1;
    assert mv.From(last) == mv.From(k) + (c - 1) && mv.To(last) == mv.To(k) + (c - 1);
    if c == 1 {
      assert Block(Bytewise(mem, mv, k), mv.From(k), mv.To(k), 0) == Bytewise(mem, mv, k);
    } else {
      StretchIsBlock(mem, mv, k, c - 1);
      assert k + (c - 1) == last;
    }
  }

  // ---- Pages ----

  lemma SystemPlace(mv: Move, i: nat)
    requires mv.isSystem
    ensures mv.Place(i) == mv.user + i
  {
  }

  // Inside a page the translation only adds the offset.
  lemma PlaceIsLinear(mv: Move, k: nat, i: nat)
    requires FlagsFit(mv.table)
    requires (mv.user + k) % PAGE_BYTES + i < PAGE_BYTES
    ensures mv.Place(k + i) == mv.Place(k) + i && mv.Place(k) % PAGE_BYTES == (mv.user + k) % PAGE_BYTES
  {
    hide TranslateUserToSystem, FlagsFit, DropLow;
    var u := mv.user + k;
    assert (u + i) / 4096 == u / 4096 && (u + i) % 4096 == u % 4096 + i;
    if mv.isSystem {
      SystemPlace(mv, k);
      SystemPlace(mv, k + i);
    } else {
      KernelAddress(mv.table, u);
      KernelAddress(mv.table, u + i);
      DropLowAligned(mv.table[u / 4096 % 256], 4096);
      AlignedPlus(DropLow(mv.table[u / 4096 % 256], 4096), u % 4096);
    }
  }

  lemma AlignedPlus(a: nat, o: nat)
    requires a % 4096 == 0 && o < 4096
    ensures (a + o) % 4096 == o
  {
  }

  // What is left of a page lies side by side.
  lemma PageIsSideBySide(mv: Move, k: nat, c: nat)
    requires FlagsFit(mv.table) && (mv.user + k) % PAGE_BYTES + c <= PAGE_BYTES
    ensures SideBySide(mv, k, c)
  {
    hide Move.Place, FlagsFit, TranslateUserToSystem;
    forall j: nat | k <= j < k + c
      ensures mv.From(j) == mv.From(k) + (j - k) && mv.To(j) == mv.To(k) + (j - k)
    {
      PlaceIsLinear(mv, k, j - k);
    }
  }

  // No stop lies inside a page.
  lemma {:induction false} NoStopInside(mv: Move, n: nat, k: nat, c: nat)
    requires 0 < c && k + c <= n && !mv.Stops(k) && (mv.user + k) % PAGE_BYTES + c <= PAGE_BYTES
    ensures Moved(mv, n, k) == Moved(mv, n, k + c)
    decreases c
  {
    hide Move.Place;
    if c > 1 {
      assert (mv.user + (k + 1)) % PAGE_BYTES == (mv.user + k) % PAGE_BYTES + 1;
      NoStopInside(mv, n, k + 1, c - 1);
    }
  }

  lemma NextPageStarts(u: nat, c: nat)
    ensures u % PAGE_BYTES + c == PAGE_BYTES ==> (u + c) % PAGE_BYTES == 0
  {
  }

  lemma NothingMoved(mem: seq<Byte>, mv: Move)
    ensures mv.Fits(|mem|, 0) && Bytewise(mem, mv, 0) == mem
  {
  }

  // One turn of the copying loop, seen from the bytewise copy.
  lemma OneTurn(mem: seq<Byte>, mv: Move, total: nat, k: nat, c: nat)
    requires FlagsFit(mv.table) && 0 < c && k + c <= total && !mv.Stops(k)
    requires (mv.user + k) % PAGE_BYTES + c <= PAGE_BYTES
    requires mv.Fits(|mem|, Moved(mv, total, k))
    ensures Moved(mv, total, k + c) == Moved(mv, total, k)
    ensures mv.Fits(|mem|, k + c) && mv.From(k) + c <= |mem| && mv.To(k) + c <= |mem|
    ensures Bytewise(mem, mv, k + c) == Block(Bytewise(mem, mv, k), mv.From(k), mv.To(k), c)
    ensures (mv.user + k) % PAGE_BYTES + c == PAGE_BYTES ==> (mv.user + (k + c)) % PAGE_BYTES == 0
    ensures mv.From(k) == if mv.toUser then mv.system + k else mv.Place(k)
    ensures mv.To(k) == if mv.toUser then mv.Place(k) else mv.system + k
  {
    hide FlagsFit, Bytewise, Block, SideBySide, Move.Place;
    NextPageStarts(mv.user + k, c);
    NoStopInside(mv, total, k, c);
    PageIsSideBySide(mv, k, c);
    StretchIsBlock(mem, mv, k, c);
  }

  // ---- The kernel's routines ----

  class PhysicalMemory {
    const bytes: array<Byte>

    constructor (size: nat)
      ensures fresh(bytes) && bytes.Length == size
    {
      bytes := new Byte[size](_ => 0);
    }

    method Bcopy(src: nat, dst: nat, n: nat)
      requires src + n <= bytes.Length && dst + n <= bytes.Length
      modifies bytes
      ensures bytes[..] == Block(old(bytes[..]), src, dst, n)
    {
      for i := 0 to n
        invariant bytes[..] == Block(old(bytes[..]), src, dst, i)
      {
        bytes[dst + i] := bytes[src + i];
      }
    }

    // Copying page by page is copying byte by byte, each byte translated on its own, in every case:
    // pages anywhere, buffers that overlap, and stopping early included.
    method MoveBetweenSpaces(mv: Move, count: int) returns (bytesCopied: nat)
      requires FlagsFit(mv.table)
      requires var n := if count > 0 then count else 0; mv.Fits(bytes.Length, Moved(mv, n, 0))
      modifies bytes
      ensures var n := if count > 0 then count else 0;
        bytesCopied == Moved(mv, n, 0) && bytes[..] == Bytewise(old(bytes[..]), mv, bytesCopied)
    {
      hide Move.Place, FlagsFit, TranslateUserToSystem, Block, SideBySide, Move.Fits, Bytewise, Move.From, Move.To;
      NothingMoved(bytes[..], mv);
      bytesCopied := 0;
      var n := count;
      ghost var total: nat := if count > 0 then count else 0;
      ghost var all := Moved(mv, total, 0);
      while n > 0
        invariant n > 0 ==> bytesCopied + n == total
        invariant n <= 0 ==> bytesCopied == total
        invariant bytesCopied <= total && Moved(mv, total, bytesCopied) == all
        invariant bytesCopied == 0 || n <= 0 || (mv.user + bytesCopied) % PAGE_BYTES == 0
        invariant mv.Fits(bytes.Length, bytesCopied)
        invariant bytes[..] == Bytewise(old(bytes[..]), mv, bytesCopied)
      {
        var curUser := mv.Place(bytesCopied);
        if curUser == 0 {
          break;
        }
        PlaceIsLinear(mv, bytesCopied, 0);
        var bytesToCopy := PAGE_BYTES - curUser % PAGE_BYTES;
        if bytesToCopy > n {
          bytesToCopy := n;
        }
        OneTurn(old(bytes[..]), mv, total, bytesCopied, bytesToCopy);
        if mv.toUser {
          Bcopy(mv.system + bytesCopied, curUser, bytesToCopy);
        } else {
          Bcopy(curUser, mv.system + bytesCopied, bytesToCopy);
        }
        n := n - bytesToCopy;
        bytesCopied := bytesCopied + bytesToCopy;
      }
    }
  }

  // ---- What bytewise copying amounts to ----

  // The bytes written are all different and none of them is read.
  ghost predicate Apart(mv: Move, k: nat) {
    && (forall i: nat, j: nat :: i < j < k ==> mv.To(i) != mv.To(j))
    && (forall i: nat, j: nat :: i < k && j < k ==> mv.From(i) != mv.To(j))
  }

  lemma {:induction false} MovesEveryByte(mem: seq<Byte>, mv: Move, k: nat)
    requires mv.Fits(|mem|, k) && Apart(mv, k)
    ensures forall i: nat :: i < k ==> Bytewise(mem, mv, k)[mv.To(i)] == mem[mv.From(i)]
    ensures forall a: nat :: a < |mem| && (forall i: nat :: i < k ==> mv.To(i) != a) ==>
      Bytewise(mem, mv, k)[a] == mem[a]
  {
    hide Move.From, Move.To;
    if k > 0 {
      MovesEveryByte(mem, mv, k - 1);
      assert forall i: nat :: i < k - 1 ==> mv.To(i) != mv.From(k - 1);
    }
  }

  lemma BufferFits(memory: nat, mv: Move, k: nat)
    requires mv.Fits(memory, k)
    ensures k > 0 ==> mv.system + k <= memory
  {
    if k > 0 {
      var last := k - 1;
      assert mv.From(last) < memory && mv.To(last) < memory;
    }
  }

  /** In which direction: byte i of the kernel buffer comes to lie where the kernel translates the user address, or the
      byte there comes into the buffer. */
  lemma EveryByteArrives(mem: seq<Byte>, mv: Move, k: nat, i: nat)
    requires mv.Fits(|mem|, k) && Apart(mv, k) && i < k
    ensures var after, at := Bytewise(mem, mv, k), TranslateUserToSystem(mv.table, mv.isSystem, mv.user + i);
      && at < |mem| && mv.system + i < |mem|
      && (if mv.toUser then after[at] == mem[mv.system + i] else after[mv.system + i] == mem[at])
  {
    hide Bytewise, TranslateUserToSystem;
    MovesEveryByte(mem, mv, k);
    assert mv.From(i) < |mem| && mv.To(i) < |mem|;
  }

  /** System to user and back into any kernel buffer yields the bytes sent. */
  lemma RoundTrip(mem: seq<Byte>, out: Move, back: Move, k: nat)
    requires out.toUser && !back.toUser && back == out.(toUser := false, system := back.system)
    requires out.Fits(|mem|, k) && back.Fits(|mem|, k) && Apart(out, k) && Apart(back, k)
    ensures var got := Bytewise(Bytewise(mem, out, k), back, k);
      k > 0 ==>
        && out.system + k <= |mem| && back.system + k <= |mem|
        && got[back.system..back.system + k] == mem[out.system..out.system + k]
  {
    hide Move.From, Move.To, Bytewise, Move.Fits, Apart;
    var got := Bytewise(Bytewise(mem, out, k), back, k);
    BufferFits(|mem|, out, k);
    BufferFits(|mem|, back, k);
    if k > 0 {
      var a, b := got[back.system..back.system + k], mem[out.system..out.system + k];
      forall i: nat | i < k ensures a[i] == b[i] { ByteComesBack(mem, out, back, k, i); }
    }
  }

  lemma ByteComesBack(mem: seq<Byte>, out: Move, back: Move, k: nat, i: nat)
    requires out.toUser && !back.toUser && back == out.(toUser := false, system := back.system)
    requires out.Fits(|mem|, k) && back.Fits(|mem|, k) && Apart(out, k) && Apart(back, k) && i < k
    ensures var got := Bytewise(Bytewise(mem, out, k), back, k);
      out.system + i < |mem| && back.system + i < |mem| && got[back.system + i] == mem[out.system + i]
  {
    hide Move.From, Move.To, Bytewise, TranslateUserToSystem, Move.Fits, Apart;
    EveryByteArrives(mem, out, k, i);
    EveryByteArrives(Bytewise(mem, out, k), back, k, i);
  }

  /** Back into the same buffer, the second copy changes no byte of memory. */
  lemma RoundTripInPlace(mem: seq<Byte>, out: Move, k: nat)
    requires out.toUser && out.Fits(|mem|, k) && Apart(out, k)
    ensures var back := out.(toUser := false);
      back.Fits(|mem|, k) && Bytewise(Bytewise(mem, out, k), back, k) == Bytewise(mem, out, k)
  {
    hide Move.Place, Bytewise;
    var back := out.(toUser := false);
    forall i: nat | i < k ensures back.From(i) == out.To(i) && back.To(i) == out.From(i) { SwappedEnds(out, i); }
    var sent := Bytewise(mem, out, k);
    MovesEveryByte(mem, out, k);
    assert Apart(back, k) by { hide Move.From, Move.To; BufferIsInjective(out, k); }
    MovesEveryByte(sent, back, k);
    var got := Bytewise(sent, back, k);
    forall a: nat | a < |mem| ensures got[a] == sent[a] {
      if i: nat :| i < k && back.To(i) == a {
        assert got[back.To(i)] == sent[back.From(i)] == mem[out.From(i)];
        assert forall j: nat :: j < k ==> out.To(j) != out.From(i);
      }
    }
  }

  lemma SwappedEnds(out: Move, i: nat)
    requires out.toUser
    ensures var back := out.(toUser := false); back.From(i) == out.To(i) && back.To(i) == out.From(i)
  {
  }

  lemma BufferIsInjective(out: Move, k: nat)
    requires out.toUser
    ensures forall i: nat, j: nat :: i < j < k ==> out.From(i) != out.From(j)
  {
  }

  // ---- How far it goes ----

  function FirstUnmapped(mv: Move, n: nat, from: nat): (k: nat)
    requires from <= n
    ensures from <= k <= n && (forall i: nat :: from <= i < k ==> mv.Mapped(i)) && (k < n ==> !mv.Mapped(k))
    decreases n - from
  {
    if from == n || !mv.Mapped(from) then from else FirstUnmapped(mv, n, from + 1)
  }

  lemma StopsIff(mv: Move, i: nat)
    requires FlagsFit(mv.table) && !mv.isSystem
    ensures mv.Stops(i) <==> (mv.user + i) % PAGE_BYTES == 0 && !mv.Mapped(i)
  {
    hide TranslateUserToSystem, FlagsFit;
    KernelAcceptsMore(mv.table, mv.user + i);
  }

  // Bytes of one page are mapped together.
  lemma SamePage(mv: Move, i: nat)
    requires i > 0 && (mv.user + i) % PAGE_BYTES != 0
    ensures mv.Mapped(i) == mv.Mapped(i - 1)
  {
    assert (mv.user + i) / PAGE_BYTES == (mv.user + (i - 1)) / PAGE_BYTES;
  }

  lemma {:induction false} StopsAtFirstUnmappedFrom(mv: Move, n: nat, from: nat)
    requires FlagsFit(mv.table) && !mv.isSystem && from <= n
    requires from < n && !mv.Mapped(from) ==> (mv.user + from) % PAGE_BYTES == 0
    ensures Moved(mv, n, from) == FirstUnmapped(mv, n, from)
    decreases n - from
  {
    hide Move.Stops, Move.Mapped, FlagsFit;
    if from < n {
      StopsIff(mv, from);
      if !mv.Stops(from) {
        if (mv.user + (from + 1)) % PAGE_BYTES != 0 { SamePage(mv, from + 1); }
        StopsAtFirstUnmappedFrom(mv, n, from + 1);
      }
    }
  }

  /** The copy stops at the first unmapped address, as documented, exactly when there is nothing to
      copy, or the first page is mapped, or the user buffer starts a page. In the remaining case an
      unmapped first page is not noticed: its bytes go to or come from the lowest page of memory. */
  lemma StopsAtFirstUnmappedIff(mv: Move, n: nat)
    requires FlagsFit(mv.table) && !mv.isSystem
    ensures Moved(mv, n, 0) == FirstUnmapped(mv, n, 0)
            <==> n == 0 || mv.Mapped(0) || mv.user % PAGE_BYTES == 0
    ensures n > 0 && !mv.Mapped(0) ==> mv.Place(0) == mv.user % PAGE_BYTES
  {
    hide Move.Stops, Move.Mapped, FlagsFit, TranslateUserToSystem;
    StopsIff(mv, 0);
    if n == 0 || mv.Mapped(0) || mv.user % PAGE_BYTES == 0 { StopsAtFirstUnmappedFrom(mv, n, 0); }
    if n > 0 && !mv.Mapped(0) { UnmappedIsOffset(mv); }
  }

  lemma UnmappedIsOffset(mv: Move)
    requires FlagsFit(mv.table) && !mv.isSystem && !mv.Mapped(0)
    ensures mv.Place(0) == mv.user % PAGE_BYTES
  {
    hide TranslateUserToSystem, FlagsFit;
    KernelAddress(mv.table, mv.user);
  }

  // ---- Processes ----

  // The part of a move that a process of a running system can be asked for: a buffer inside its
  // mapped pages, a kernel buffer inside the operating system's own pages.
  ghost predicate Ordinary(s: Spaces.Session, p: nat, mv: Move, n: nat)
    requires Spaces.Shaped(s.memory)
  {
    && p in s.live && p < Spaces.PROCS && mv.table == s.memory.tables[p] && !mv.isSystem && FlagsFit(mv.table)
    && mv.system + n <= (s.lastPage + 1) * PAGE_BYTES
    && mv.user + n <= VIRTUAL_SIZE
    && (forall i: nat :: i < n ==> mv.Mapped(i))
  }

  lemma PlaceOfProcess(s: Spaces.Session, p: nat, mv: Move, n: nat, i: nat)
    requires Spaces.Sound(s) && Ordinary(s, p, mv, n) && i < n
    ensures var page := (mv.user + i) / PAGE_BYTES;
      && page < Spaces.PT_SIZE && Spaces.IsSlot(page)
      && mv.Place(i) == Spaces.Frame(s.memory, p, page) * PAGE_BYTES + (mv.user + i) % PAGE_BYTES
      && s.lastPage < Spaces.Frame(s.memory, p, page) < FRAMES
  {
    hide TranslateUserToSystem, FlagsFit, UsedFrames, Spaces.Isolated, Spaces.Names;
    var u := mv.user + i;
    var page := u / PAGE_BYTES;
    assert page < Spaces.PT_SIZE;
    KernelAddress(mv.table, u);
    assert mv.Mapped(i);
    assert Spaces.Slotted(s.memory, p) && Spaces.NamesFrames(s.memory.tables[p]);
    Spaces.SlotIsNamed(s.memory, p, page);
    assert Spaces.Owned(s, Spaces.Frame(s.memory, p, page));
  }

  /** In every reachable state such a move copies all its bytes, to and from places of their own:
      with MovesEveryByte, exactly byte i moves and nothing else changes. */
  lemma OrdinaryMoveIsExact(s: Spaces.Session, p: nat, mv: Move, n: nat)
    requires Spaces.Sound(s) && Ordinary(s, p, mv, n)
    ensures Moved(mv, n, 0) == n && mv.Fits(FRAMES * PAGE_BYTES, n) && Apart(mv, n)
  {
    hide Move.Place, Spaces.Sound, Spaces.Frame, FlagsFit;
    Spaces.SoundIsolates(s);
    forall i: nat | i < n ensures (s.lastPage + 1) * PAGE_BYTES <= mv.Place(i) < FRAMES * PAGE_BYTES {
      PlaceOfProcess(s, p, mv, n, i);
    }
    forall i: nat, j: nat | i < j < n ensures mv.Place(i) != mv.Place(j) {
      PlaceOfProcess(s, p, mv, n, i);
      PlaceOfProcess(s, p, mv, n, j);
    }
    NoStops(mv, n, 0);
  }

  lemma {:induction false} NoStops(mv: Move, n: nat, from: nat)
    requires from <= n && (forall i: nat :: i < n ==> mv.Place(i) > 0)
    ensures Moved(mv, n, from) == n
    decreases n - from
  {
    hide Move.Place;
    if from < n { NoStops(mv, n, from + 1); }
  }
}
