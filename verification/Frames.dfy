/** The bitmap of physical page frames, refined to the set of frames in use. */
module Frames {
  import opened Powers

  const PAGE_BYTES: nat := 4096
  const FRAMES: nat := 512
  const WORDS: nat := 16
  const ALL_ONES: nat := 0xFFFF_FFFF

  type Word = w: nat | w <= ALL_ONES

  // ---- Bits of a word ----

  // (w >> j) & 1
  predicate Bit(w: nat, j: nat) {
    if j == 0 then w % 2 == 1 else Bit(w / 2, j - 1)
  }

  // w | (1 << j)
  function SetBit(w: nat, j: nat): nat {
    if j == 0 then (if w % 2 == 1 then w else w + 1) else 2 * SetBit(w / 2, j - 1) + w % 2
  }

  // w & ~(1 << j)
  function ClearBit(w: nat, j: nat): nat {
    if j == 0 then (if w % 2 == 1 then w - 1 else w) else 2 * ClearBit(w / 2, j - 1) + w % 2
  }

  // a | b
  function Or(a: nat, b: nat): (r: nat) {
    if a == 0 then b
    else if b == 0 then a
    else 2 * Or(a / 2, b / 2) + (if a % 2 == 1 || b % 2 == 1 then 1 else 0)
  }

  /** Bit by bit, whether or not the two have bits in common. */
  lemma {:induction false} OrBits(a: nat, b: nat, k: nat)
    ensures Bit(Or(a, b), k) == (Bit(a, k) || Bit(b, k))
    decreases k
  {
    ZeroHasNoBits(k);
    if a != 0 && b != 0 && k > 0 {
      OrBits(a / 2, b / 2, k - 1);
      assert Or(a, b) / 2 == Or(a / 2, b / 2);
    }
  }

  // On disjoint bits it is addition.
  lemma {:induction false} OrAdds(a: nat, b: nat, k: nat)
    requires a % Pow2(k) == 0 && b < Pow2(k)
    ensures Or(a, b) == a + b
    decreases k
  {
    if a != 0 && b != 0 && k > 0 {
      HalfOfMultiple(a, Pow2(k - 1));
      OrAdds(a / 2, b / 2, k - 1);
    }
  }

  lemma HalfOfMultiple(a: nat, p: nat)
    requires p > 0 && a % (2 * p) == 0
    ensures a % 2 == 0 && a / 2 % p == 0
  {
    var q := a / (2 * p);
    Reassociate(p, q);
    assert a == 2 * (p * q);
    MultipleDivides(p, q);
  }

  // What lies above the bits of the marks stays; so does every bit that was set.
  lemma {:induction false} OrKeepsAbove(a: nat, b: nat, k: nat)
    requires b < Pow2(k)
    ensures Or(a, b) / Pow2(k) == a / Pow2(k) && Or(a, b) % Pow2(k) >= a % Pow2(k)
    ensures a % 2 == 1 ==> Or(a, b) % 2 == 1
    decreases k
  {
    if a != 0 && b != 0 {
      OrKeepsAbove(a / 2, b / 2, k - 1);
      Halved(a, Pow2(k - 1));
      Halved(Or(a, b), Pow2(k - 1));
    } else if a == 0 {
      DivisionIsUnique(b, Pow2(k), 0, b);
      DivisionIsUnique(0, Pow2(k), 0, 0);
    }
  }

  lemma Halved(a: nat, p: nat)
    requires p > 0
    ensures a / (2 * p) == a / 2 / p && a % (2 * p) == 2 * (a / 2 % p) + a % 2
  {
    var q, r := a / 2 / p, a / 2 % p;
    Reassociate(p, q);
    assert a == 2 * (p * q) + (2 * r + a % 2);
    DivisionIsUnique(a, 2 * p, q, 2 * r + a % 2);
  }

  function Ones(n: nat): nat {
    if n == 0 then 0 else 2 * Ones(n - 1) + 1
  }

  lemma {:induction false} BitsAfter(w: nat, j: nat, k: nat)
    ensures Bit(SetBit(w, j), k) == (k == j || Bit(w, k))
    ensures Bit(ClearBit(w, j), k) == (k != j && Bit(w, k))
    decreases j
  {
    if j > 0 && k > 0 {
      BitsAfter(w / 2, j - 1, k - 1);
      assert (2 * SetBit(w / 2, j - 1) + w % 2) / 2 == SetBit(w / 2, j - 1);
      assert (2 * ClearBit(w / 2, j - 1) + w % 2) / 2 == ClearBit(w / 2, j - 1);
    }
  }

  lemma {:induction false} StaysInWord(w: nat, j: nat, n: nat)
    requires w <= Ones(n) && j < n
    ensures SetBit(w, j) <= Ones(n) && ClearBit(w, j) <= w
    decreases n
  {
    if j > 0 { StaysInWord(w / 2, j - 1, n - 1); }
  }

  lemma OnesTable()
    ensures Ones(32) == ALL_ONES
  {
    assert Ones(8) == 0xFF;
    assert Ones(16) == 0xFFFF;
    assert Ones(24) == 0xFF_FFFF;
  }

  lemma {:induction false} ZeroHasNoBits(j: nat)
    ensures !Bit(0, j)
  {
    if j > 0 { ZeroHasNoBits(j - 1); }
  }

  // Two words with the same bits are the same word.
  lemma {:induction false} BitsDetermine(v: nat, w: nat, n: nat)
    requires v <= Ones(n) && w <= Ones(n)
    requires forall j :: 0 <= j < n ==> Bit(v, j) == Bit(w, j)
    ensures v == w
    decreases n
  {
    if n > 0 {
      assert Bit(v, 0) == Bit(w, 0);
      forall j | 0 <= j < n - 1 ensures Bit(v / 2, j) == Bit(w / 2, j) {
        assert Bit(v, j + 1) == Bit(w, j + 1);
      }
      BitsDetermine(v / 2, w / 2, n - 1);
    }
  }

  lemma {:induction false} OnesBits(n: nat, j: nat)
    ensures Bit(Ones(n), j) == (j < n)
    decreases n
  {
    if n == 0 {
      ZeroHasNoBits(j);
    } else {
      assert Ones(n) / 2 == Ones(n - 1);
      if j > 0 { OnesBits(n - 1, j - 1); }
    }
  }

  // A word is all ones exactly when no bit of it is clear.
  lemma {:induction false} AllOnesIff(w: Word)
    ensures w == ALL_ONES ==> forall j :: 0 <= j < 32 ==> Bit(w, j)
    ensures (forall j :: 0 <= j < 32 ==> Bit(w, j)) ==> w == ALL_ONES
  {
    hide Bit, Ones;
    OnesTable();
    if w == ALL_ONES {
      forall j: nat | j < 32 ensures Bit(w, j) { OnesBits(32, j); }
    }
    if forall j :: 0 <= j < 32 ==> Bit(w, j) {
      forall j: nat | j < 32 ensures Bit(w, j) == Bit(Ones(32), j) { OnesBits(32, j); }
      BitsDetermine(w, Ones(32), 32);
    }
  }

  // ---- The bitmap as a value ----

  ghost predicate IsMap(s: seq<Word>) { |s| == WORDS }

  predicate InUse(s: seq<Word>, f: nat)
    requires |s| == WORDS && f < FRAMES
  {
    Bit(s[f / 32], f % 32)
  }

  ghost function UsedFrames(s: seq<Word>): set<nat>
    requires IsMap(s)
  {
    set f: nat | f < FRAMES && InUse(s, f)
  }

  function Mark(s: seq<Word>, f: nat): (r: seq<Word>)
    requires |s| == WORDS && f < FRAMES
    ensures |r| == WORDS
  {
    OnesTable(); StaysInWord(s[f / 32], f % 32, 32);
    s[f / 32 := SetBit(s[f / 32], f % 32)]
  }

  function Clear(s: seq<Word>, f: nat): (r: seq<Word>)
    requires |s| == WORDS && f < FRAMES
    ensures |r| == WORDS
  {
    OnesTable(); StaysInWord(s[f / 32], f % 32, 32);
    s[f / 32 := ClearBit(s[f / 32], f % 32)]
  }

  lemma OneBitChanges(s: seq<Word>, f: nat, g: nat)
    requires IsMap(s) && f < FRAMES && g < FRAMES
    ensures InUse(Mark(s, f), g) == (g == f || InUse(s, g))
    ensures InUse(Clear(s, f), g) == (g != f && InUse(s, g))
  {
    hide Bit, SetBit, ClearBit, Ones;
    BitsAfter(s[f / 32], f % 32, g % 32);
    assert f == g <==> f / 32 == g / 32 && f % 32 == g % 32;
  }

  // The bitmap operations are insertion into and removal from the set of used frames.
  lemma MarkAdds(s: seq<Word>, f: nat)
    requires IsMap(s) && f < FRAMES
    ensures UsedFrames(Mark(s, f)) == UsedFrames(s) + {f}
  {
    hide InUse, Mark;
    forall g: nat | g < FRAMES ensures g in UsedFrames(Mark(s, f)) <==> g in UsedFrames(s) + {f} {
      OneBitChanges(s, f, g);
    }
  }

  lemma ClearRemoves(s: seq<Word>, f: nat)
    requires IsMap(s) && f < FRAMES
    ensures UsedFrames(Clear(s, f)) == UsedFrames(s) - {f}
  {
    hide InUse, Clear;
    forall g: nat | g < FRAMES ensures g in UsedFrames(Clear(s, f)) <==> g in UsedFrames(s) - {f} {
      OneBitChanges(s, f, g);
    }
  }

  // The bitmap holds nothing but the set: equal sets mean equal words.
  lemma SetDeterminesMap(s: seq<Word>, t: seq<Word>)
    requires IsMap(s) && IsMap(t) && UsedFrames(s) == UsedFrames(t)
    ensures s == t
  {
    hide Bit, Ones;
    forall i | 0 <= i < WORDS ensures s[i] == t[i] {
      forall j: nat | j < 32 ensures Bit(s[i], j) == Bit(t[i], j) {
        var f := i * 32 + j;
        assert f / 32 == i && f % 32 == j;
        assert f in UsedFrames(s) <==> f in UsedFrames(t);
      }
      OnesTable();
      BitsDetermine(s[i], t[i], 32);
    }
  }

  // A page-table entry made from a frame number: the frame's address with flag bits below it.
  function EntryOf(f: nat, flags: nat): nat { f * PAGE_BYTES + flags }

  /** Freeing an allocated entry restores the whole bitmap, whatever flag bits the entry has
      collected since. */
  lemma FreeUndoesAllocate(s: seq<Word>, f: nat, flags: nat)
    requires IsMap(s) && f < FRAMES && !InUse(s, f) && flags < PAGE_BYTES
    ensures EntryOf(f, flags) / PAGE_BYTES == f
    ensures Clear(Mark(s, f), EntryOf(f, flags) / PAGE_BYTES) == s
  {
    hide Mark, Clear, InUse;
    MarkAdds(s, f);
    ClearRemoves(Mark(s, f), f);
    assert UsedFrames(s) + {f} - {f} == UsedFrames(s);
    SetDeterminesMap(Clear(Mark(s, f), f), s);
  }

  ghost predicate IsLeastFree(s: seq<Word>, f: nat)
    requires IsMap(s)
  {
    && f < FRAMES && !InUse(s, f)
    && forall g: nat :: g < f ==> InUse(s, g)
  }

  class FrameMap {
    const freemap: array<Word>

    ghost predicate Valid() reads this { freemap.Length == WORDS }

    ghost function Map(): (s: seq<Word>) reads this, freemap
      requires Valid()
      ensures IsMap(s)
    {
      freemap[..]
    }

    // Static storage starts as zeros.
    constructor ()
      ensures Valid() && fresh(freemap)
      ensures UsedFrames(Map()) == {}
    {
      freemap := new Word[WORDS](_ => 0);
      new;
      forall f: nat | f < FRAMES ensures !InUse(freemap[..], f) { ZeroHasNoBits(f % 32); }
    }

    // freemap[i] |= 1 << j, for the frames of one word up to a last bit
    method MarkLow(i: nat, bits: nat)
      requires Valid() && i < WORDS && bits <= 32
      modifies freemap
      ensures forall k :: 0 <= k < WORDS && k != i ==> freemap[k] == old(freemap[k])
      ensures forall j: nat :: j < 32 ==> (Bit(freemap[i], j) <==> j < bits || Bit(old(freemap[i]), j))
    {
      hide Bit, SetBit, Ones;
      for j := 0 to bits
        invariant forall k :: 0 <= k < WORDS && k != i ==> freemap[k] == old(freemap[k])
        invariant forall b: nat :: b < 32 ==> (Bit(freemap[i], b) <==> b < j || Bit(old(freemap[i]), b))
      {
        OnesTable();
        StaysInWord(freemap[i], j, 32);
        ghost var before := freemap[i];
        freemap[i] := SetBit(freemap[i], j);
        forall b: nat | b < 32 ensures Bit(freemap[i], b) == (b == j || Bit(before, b)) {
          BitsAfter(before, j, b);
        }
      }
    }

    // After start-up exactly the frames up to the operating system's last page are in use, but for
    // what the one word that is or-ed rather than assigned held before.
    method ModuleInit(lastosaddress: nat)
      requires Valid()
      modifies freemap
      ensures forall f: nat :: f < FRAMES ==>
        (InUse(Map(), f) <==> f <= lastosaddress / PAGE_BYTES
                              || (f / 32 == lastosaddress / PAGE_BYTES / 32 && InUse(old(Map()), f)))
    {
      hide Bit, Ones;
      var lastPage := lastosaddress / PAGE_BYTES;
      var lastWord := lastPage / 32;
      for i := 0 to WORDS
        invariant forall k :: i <= k < WORDS ==> freemap[k] == old(freemap[k])
        invariant forall f: nat :: f < i * 32 ==>
          (Bit(freemap[f / 32], f % 32) <==>
            f <= lastPage || (f / 32 == lastWord && Bit(old(freemap[f / 32]), f % 32)))
      {
        label Before:
        if i < lastWord {
          freemap[i] := ALL_ONES;
        } else if i > lastWord {
          freemap[i] := 0;
        } else {
          MarkLow(i, lastPage % 32 + 1);
        }
        forall f: nat | f < (i + 1) * 32
          ensures Bit(freemap[f / 32], f % 32) <==>
            f <= lastPage || (f / 32 == lastWord && Bit(old(freemap[f / 32]), f % 32))
        {
          if f < i * 32 {
            assert f / 32 < i;
            assert freemap[f / 32] == old@Before(freemap[f / 32]);
          } else {
            assert f / 32 == i;
            AllOnesIff(ALL_ONES);
            ZeroHasNoBits(f % 32);
          }
        }
      }
    }

    // The least free frame, now marked; a caller must know that some frame is free, for with none
    // the original returns no value at all.
    method FindFreePage() returns (page: nat)
      requires Valid()
      requires exists f: nat :: f < FRAMES && !InUse(Map(), f)
      modifies freemap
      ensures IsLeastFree(old(Map()), page)
      ensures Map() == Mark(old(Map()), page)
    {
      hide Bit, SetBit, Ones;
      for i := 0 to WORDS
        invariant freemap[..] == old(freemap[..])
        invariant forall f: nat :: f < i * 32 ==> InUse(freemap[..], f)
      {
        if freemap[i] != ALL_ONES {
          AllOnesIff(freemap[i]);
          for j := 0 to 32
            invariant freemap[..] == old(freemap[..])
            invariant forall b: nat :: b < j ==> Bit(freemap[i], b)
          {
            if !Bit(freemap[i], j) {
              page := j + i * 32;
              assert page / 32 == i && page % 32 == j;
              forall g: nat | g < page ensures InUse(freemap[..], g) {
                if g >= i * 32 { assert g / 32 == i && g % 32 < j; }
              }
              OnesTable();
              StaysInWord(freemap[i], j, 32);
              freemap[i] := SetBit(freemap[i], j);
              return;
            }
          }
        }
        AllOnesIff(freemap[i]);
        forall f: nat | f < (i + 1) * 32 ensures InUse(freemap[..], f) {
          if f >= i * 32 { assert f / 32 == i && Bit(freemap[i], f % 32); }
        }
      }
      assert false;
    }

    // The original also masks the low eight bits of the address, which are zero already.
    method AllocUserPage() returns (entry: nat)
      requires Valid()
      requires exists f: nat :: f < FRAMES && !InUse(Map(), f)
      modifies freemap
      ensures IsLeastFree(old(Map()), entry / PAGE_BYTES) && entry % PAGE_BYTES == 1
      ensures Map() == Mark(old(Map()), entry / PAGE_BYTES)
    {
      var page := FindFreePage();
      var addr := page * PAGE_BYTES;
      addr := addr - addr % 256;
      entry := addr + 1;
    }

    method AllocSysPage() returns (address: nat)
      requires Valid()
      requires exists f: nat :: f < FRAMES && !InUse(Map(), f)
      modifies freemap
      ensures IsLeastFree(old(Map()), address / PAGE_BYTES) && address % PAGE_BYTES == 0
      ensures Map() == Mark(old(Map()), address / PAGE_BYTES)
    {
      var page := FindFreePage();
      address := page * PAGE_BYTES;
    }

    method FreePage(entry: nat)
      requires Valid() && entry / PAGE_BYTES < FRAMES
      modifies freemap
      ensures Map() == Clear(old(Map()), entry / PAGE_BYTES)
    {
      hide Bit, ClearBit, Ones;
      var page := entry / PAGE_BYTES;
      var idx, bit := page / 32, page % 32;
      OnesTable();
      StaysInWord(freemap[idx], bit, 32);
      freemap[idx] := ClearBit(freemap[idx], bit);
    }
  }
}
