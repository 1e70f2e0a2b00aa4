/** Powers of two and the alignment facts that the heap, frame and page arithmetic share. */
module Powers {

  function Pow2(k: nat): (p: nat)
    ensures p > 0
  {
    if k == 0 then 1 else 2 * Pow2(k - 1)
  }

  lemma Pow2Table()
    ensures Pow2(0) == 1 && Pow2(1) == 2 && Pow2(2) == 4 && Pow2(3) == 8
    ensures Pow2(4) == 16 && Pow2(5) == 32 && Pow2(6) == 64 && Pow2(7) == 128
  {
    assert Pow2(3) == 2 * Pow2(2);
    assert Pow2(5) == 2 * Pow2(4);
  }

  lemma {:induction false} Pow2Add(a: nat, b: nat)
    ensures Pow2(a + b) == Pow2(a) * Pow2(b)
    decreases b
  {
    if b > 0 {
      Pow2Add(a, b - 1);
      assert Pow2(a + b) == 2 * Pow2(a + (b - 1));
      assert Pow2(a) * (2 * Pow2(b - 1)) == 2 * (Pow2(a) * Pow2(b - 1));
    }
  }

  lemma {:induction false} Pow2Monotone(a: nat, b: nat)
    requires a <= b
    ensures Pow2(a) <= Pow2(b)
    decreases b - a
  {
    if a < b { Pow2Monotone(a, b - 1); }
  }

  // The two halves of a block of order k + 1 that is aligned to its own size.
  lemma HalvesAreAligned(base: nat, k: nat)
    requires base % Pow2(k + 1) == 0
    ensures base % Pow2(k) == 0 && (base + Pow2(k)) % Pow2(k) == 0
  {
    HalvesParity(base, k);
  }

  lemma HalvesParity(base: nat, k: nat)
    requires base % Pow2(k + 1) == 0
    ensures base % Pow2(k) == 0 && (base / Pow2(k)) % 2 == 0
    ensures (base + Pow2(k)) % Pow2(k) == 0 && ((base + Pow2(k)) / Pow2(k)) % 2 == 1
  {
    var p := Pow2(k);
    var q := base / (2 * p);
    Reassociate(p, q);
    DivisionIsUnique(base, p, 2 * q, 0);
    DivisionIsUnique(base + p, p, 2 * q + 1, 0);
  }

  lemma Reassociate(p: int, q: int)
    ensures (2 * p) * q == p * (2 * q) && p * (2 * q + 1) == (2 * p) * q + p
  {
  }

  // The block beside an aligned one: to the left of an odd block, to the right of an even one.
  lemma BuddyBelow(idx: nat, p: nat)
    requires p > 0 && idx % p == 0 && idx / p % 2 == 1
    ensures idx >= p && (idx - p) % (2 * p) == 0
  {
    var m := idx / p / 2;
    assert idx == p * (2 * m + 1);
    Reassociate(p, m);
    assert (2 * p) * m >= 0;
    DivisionIsUnique(idx - p, 2 * p, m, 0);
  }

  lemma BuddyAbove(idx: nat, p: nat, n: nat)
    requires p > 0 && idx % p == 0 && idx / p % 2 == 0 && idx < (2 * p) * n
    ensures idx % (2 * p) == 0 && idx + p < (2 * p) * n
  {
    var m := idx / p / 2;
    assert idx == p * (2 * m);
    Reassociate(p, m);
    DivisionIsUnique(idx, 2 * p, m, 0);
    NextMultiple(2 * p, m, n);
  }

  lemma NextMultiple(x: nat, m: int, n: int)
    requires x * m < x * n
    ensures x * m + x <= x * n
  {
    Distribute(x, m, n - m);
    if n - m >= 1 { AtLeast(x, n - m); }
  }

  lemma Distribute(x: int, a: int, b: int)
    ensures x * (a + b) == x * a + x * b
  {
  }

  lemma AtLeast(x: nat, d: int)
    requires d >= 1
    ensures x * d >= x
  {
  }

  lemma MultipleDivides(p: nat, q: nat)
    requires p > 0
    ensures (p * q) % p == 0 && (p * q) / p == q
  {
    DivisionIsUnique(p * q, p, q, 0);
  }

  lemma DivisionIsUnique(a: int, p: nat, q: int, r: nat)
    requires p > 0 && r < p && a == p * q + r
    ensures a / p == q && a % p == r
  {
    var q', r' := a / p, a % p;
    assert p * (q - q') == r' - r;
    FactorOfSmall(p, q - q');
  }

  lemma FactorOfSmall(p: int, d: int)
    requires -p < p * d < p
    ensures d == 0
  {
    assert p > 0;
    assert d >= 1 ==> p * d >= p * 1;
    assert d <= -1 ==> p * -d >= p * 1;
  }
}
