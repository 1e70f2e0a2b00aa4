/** Printing an integer and reading it back. */
module Digits {
  import opened Powers

  const INT_LIMIT: int := 0x8000_0000 // beyond the largest int
  const PRINTABLE: nat := 1_000_000_000
  const TURNED: nat := 1_410_065_408  // ten times that, as an int
  const ENDLESS: nat := 1_874_919_424

  // ---- 32-bit integers ----

  // What an int keeps of a product or sum, in two's complement.
  function Wrapped(v: int): (r: int)
    ensures -INT_LIMIT <= r < INT_LIMIT
    ensures -INT_LIMIT <= v < INT_LIMIT ==> r == v
  {
    (v + INT_LIMIT) % (2 * INT_LIMIT) - INT_LIMIT
  }

  lemma WrappedIsCongruent(v: int, t: int)
    ensures Wrapped(v + t * (2 * INT_LIMIT)) == Wrapped(v)
  {
    var w := 2 * INT_LIMIT;
    var q, r := (v + INT_LIMIT) / w, (v + INT_LIMIT) % w;
    assert v + INT_LIMIT + t * w == (q + t) * w + r;
    RemainderIsUnique(v + INT_LIMIT + t * w, q + t, r);
  }

  lemma RemainderIsUnique(x: int, q: int, r: int)
    requires 0 <= r < 2 * INT_LIMIT && x == q * (2 * INT_LIMIT) + r
    ensures x % (2 * INT_LIMIT) == r
  {
  }

  // Wrapping at every step comes to wrapping once at the end.
  lemma WrapOnce(a: int, b: int, c: int)
    ensures Wrapped(Wrapped(a) * b + c) == Wrapped(a * b + c)
    ensures Wrapped(Wrapped(a) + c) == Wrapped(a + c)
  {
    var w := 2 * INT_LIMIT;
    var t := (a + INT_LIMIT) / w;
    assert Wrapped(a) == a - t * w;
    assert (a - t * w) * b == a * b + -(t * b) * w;
    WrappedIsCongruent(a * b + c, -(t * b));
    WrappedIsCongruent(a + c, -t);
  }

  function Digit(d: nat): (c: char)
    requires d < 10
  {
    '0' + d as char
  }

  function Pow10(d: nat): (p: nat)
    ensures p > 0
  {
    if d == 0 then 1 else 10 * Pow10(d - 1)
  }

  // ---- Reference: decimal notation, least digit last ----

  function Decimal(n: nat): (s: string) {
    if n < 10 then [Digit(n)] else Decimal(n / 10) + [Digit(n % 10)]
  }

  // The same with exactly d digits.
  function Padded(n: nat, d: nat): (s: string)
    ensures |s| == d
  {
    if d == 0 then "" else Padded(n / 10, d - 1) + [Digit(n % 10)]
  }

  lemma {:induction false} PaddedIsDecimal(n: nat, d: nat)
    requires d > 0 && n < Pow10(d) && (d > 1 ==> Pow10(d - 1) <= n)
    ensures Padded(n, d) == Decimal(n)
  {
    if d == 1 {
      assert Pow10(1) == 10;
      assert Padded(n / 10, 0) == "";
    } else {
      assert Pow10(d) == 10 * Pow10(d - 1) && Pow10(d - 1) == 10 * Pow10(d - 2);
      PaddedIsDecimal(n / 10, d - 1);
    }
  }

  // Printing goes from the greatest digit down.
  lemma {:induction false} GreatestDigit(n: nat, d: nat)
    requires n < Pow10(d + 1)
    ensures n / Pow10(d) < 10 && n % Pow10(d) < Pow10(d)
    ensures Padded(n, d + 1) == [Digit(n / Pow10(d))] + Padded(n % Pow10(d), d)
  {
    if d == 0 {
      assert Pow10(1) == 10 && n / 1 == n && n % 1 == 0;
      assert Padded(n / 10, 0) == "" && Padded(0, 0) == "";
    } else {
      hide Pow10, Padded;
      var p := Pow10(d - 1);
      ScaleStep(d - 1);
      ScaleStep(d);
      GreatestDigit(n / 10, d - 1);
      DropDigit(n, p);
      PaddedStep(n, d);
      PaddedStep(n % (10 * p), d - 1);
    }
  }

  lemma PaddedStep(n: nat, d: nat)
    ensures Padded(n, d + 1) == Padded(n / 10, d) + [Digit(n % 10)]
  {
  }

  lemma DropDigit(n: nat, p: nat)
    requires p > 0
    ensures n / (10 * p) == n / 10 / p
    ensures n % (10 * p) / 10 == n / 10 % p && n % (10 * p) % 10 == n % 10
  {
    var q, r, u := n / 10 / p, n / 10 % p, n % 10;
    assert n / 10 == p * q + r;
    assert n == (10 * p) * q + (10 * r + u) by { assert 10 * (p * q) == (10 * p) * q; }
    DivisionIsUnique(n, 10 * p, q, 10 * r + u);
  }

  // ---- ditoa ----

  // The scale after i rounds of the first loop.
  function Scale(i: nat): int {
    if i == 0 then 1 else Wrapped(Scale(i - 1) * 10)
  }

  lemma {:induction false} SmallScale(i: nat)
    requires i <= 9
    ensures Scale(i) == Pow10(i) && Pow10(i) <= PRINTABLE
  {
    PrintableScale();
    Rising(i, 9);
    if i > 0 { SmallScale(i - 1); }
  }

  // One round of the loop, in which t times 2^32 is lost.
  lemma ScaleStepIs(i: nat, v: int, t: int)
    requires Scale(i) == v && -INT_LIMIT <= v * 10 - t * (2 * INT_LIMIT) < INT_LIMIT
    ensures Scale(i + 1) == v * 10 - t * (2 * INT_LIMIT)
  {
    hide Wrapped;
    WrappedIsCongruent(v * 10 - t * (2 * INT_LIMIT), t);
  }

  lemma LargeScale()
    ensures Scale(10) == TURNED && Scale(11) == 1_215_752_192 && Scale(12) < 0 && Scale(13) == 1_316_134_912
    ensures Scale(14) == 276_447_232 && Scale(15) < 0 && Scale(16) == ENDLESS
  {
    hide Pow10, Scale;
    SmallScale(9);
    PrintableScale();
    ScaleStepIs(9, 1_000_000_000, 2);
    ScaleStepIs(10, 1_410_065_408, 3);
    ScaleStepIs(11, 1_215_752_192, 3);
    ScaleStepIs(12, -727_379_968, -2);
    ScaleStepIs(13, 1_316_134_912, 3);
    ScaleStepIs(14, 276_447_232, 1);
    ScaleStepIs(15, -1_530_494_976, -4);
  }

  lemma LastScales()
    ensures forall i :: 17 <= i < 32 ==> Scale(i) <= ENDLESS
    ensures Scale(32) == 0
  {
    hide Scale;
    LargeScale();
    ScaleStepIs(16, 1_874_919_424, 4);
    ScaleStepIs(17, 1_569_325_056, 4);
    ScaleStepIs(18, -1_486_618_624, -3);
    ScaleStepIs(19, -1_981_284_352, -5);
    ScaleStepIs(20, 1_661_992_960, 4);
    ScaleStepIs(21, -559_939_584, -1);
    ScaleStepIs(22, -1_304_428_544, -3);
    ScaleStepIs(23, -159_383_552, 0);
    ScaleStepIs(24, -1_593_835_520, -4);
    ScaleStepIs(25, 1_241_513_984, 3);
    ScaleStepIs(26, -469_762_048, -1);
    ScaleStepIs(27, -402_653_184, -1);
    ScaleStepIs(28, 268_435_456, 1);
    ScaleStepIs(29, -1_610_612_736, -4);
    ScaleStepIs(30, 1_073_741_824, 3);
    ScaleStepIs(31, -2_147_483_648, -5);
  }

  lemma {:induction false} ScaleIsBounded(i: nat)
    ensures Scale(i) <= ENDLESS && (i >= 32 ==> Scale(i) == 0)
  {
    hide Scale, Pow10, Wrapped;
    if i > 32 {
      ScaleIsBounded(i - 1);
      ScaleStepIs(i - 1, 0, 0);
    } else if i <= 9 {
      SmallScale(i);
    } else if i <= 16 {
      LargeScale();
    } else {
      LastScales();
    }
  }

  /** The first loop ends exactly below this bound: from there on the scale wraps round without ever passing the
      number, until it stays 0. */
  lemma PrintingEndsIff(n: nat)
    ensures (exists i :: Scale(i) > n) <==> n < ENDLESS
  {
    LargeScale();
    if n < ENDLESS { assert Scale(16) > n; }
    forall i ensures Scale(i) <= ENDLESS { ScaleIsBounded(i); }
  }

  // The first loop.
  method FirstScaleAbove(n: nat) returns (k: nat, ghost d: nat)
    requires 0 < n < ENDLESS
    ensures d > 0 && k == Scale(d) && n < k && forall j :: 0 <= j < d ==> Scale(j) <= n
  {
    LargeScale();
    var scale := 1;
    d := 0;
    while scale <= n
      invariant scale == Scale(d) && d <= 16 && forall j :: 0 <= j < d ==> Scale(j) <= n
      decreases 16 - d
    {
      scale := Wrapped(scale * 10);
      d := d + 1;
    }
    k := scale;
  }

  // Which scale that is.
  function ScaleFor(n: nat): (k: nat)
    requires n < ENDLESS
    ensures n < k
  {
    if n < PRINTABLE then Above(n, 1) else if n < TURNED then TURNED else ENDLESS
  }

  // The power of ten above n, from p on.
  function Above(n: nat, p: nat): (k: nat)
    requires p > 0
    ensures n < k
    decreases n - p
  {
    if n < p then p else Above(n, 10 * p)
  }

  lemma {:induction false} AboveIs(n: nat, i: nat, d: nat)
    requires i <= d && n < Pow10(d) && forall j :: i <= j < d ==> Pow10(j) <= n
    ensures Above(n, Pow10(i)) == Pow10(d)
    decreases d - i
  {
    if i < d { AboveIs(n, i + 1, d); }
  }

  lemma FirstScaleIs(n: nat, d: nat)
    requires 0 < n < ENDLESS && d > 0 && n < Scale(d) && forall j :: 0 <= j < d ==> Scale(j) <= n
    ensures Scale(d) == ScaleFor(n)
    ensures n < PRINTABLE ==> Scale(d) == Pow10(d) && Pow10(d - 1) <= n
  {
    hide Pow10;
    LargeScale();
    if n < PRINTABLE {
      SmallScale(9);
      PrintableScale();
      assert d <= 9;
      forall j | 0 <= j <= d ensures Scale(j) == Pow10(j) { SmallScale(j); }
      ScaleStep(0);
      AboveIs(n, 0, d);
    } else {
      forall j | 0 <= j <= 9 ensures Scale(j) <= n { SmallScale(j); }
      assert d >= 10;
      if n < TURNED { assert d == 10; } else { assert d == 16; }
    }
  }

  // Dividing by ten leads down to one, and not past it.
  predicate LeadsToOne(k: nat) {
    k == 1 || (k >= 10 && LeadsToOne(k / 10))
  }

  lemma {:induction false} PowersLeadToOne(d: nat)
    ensures LeadsToOne(Pow10(d))
  {
    if d > 0 { PowersLeadToOne(d - 1); }
  }

  lemma ScalesLeadToOne(n: nat, d: nat)
    requires 0 < n < ENDLESS && d > 0 && n < Scale(d) && forall j :: 0 <= j < d ==> Scale(j) <= n
    ensures LeadsToOne(Scale(d)) && Scale(d) > 1
  {
    hide Scale;
    FirstScaleIs(n, d);
    if n < PRINTABLE { PowersLeadToOne(d); ScaleStep(d - 1); }
    assert LeadsToOne(14_100_654) && LeadsToOne(18_749_194);
    assert LeadsToOne(TURNED) && LeadsToOne(ENDLESS);
  }

  lemma QuotientIsSmall(n: nat, q: nat)
    requires q > 0 && n < 10 * q + 9
    ensures n / q < 19 && n % q < q
  {
    var d := n / q;
    assert n == q * d + n % q;
    assert d >= 19 ==> q * d >= q * 19;
  }

  // The characters written for n at scale k.
  function Places(n: nat, k: nat): (s: string)
    requires n < k && LeadsToOne(k)
    ensures forall i :: 0 <= i < |s| ==> '0' <= s[i] <= 'B'
  {
    if k == 1 then ""
    else
      QuotientIsSmall(n, k / 10);
      [Code(n / (k / 10))] + Places(n % (k / 10), k / 10)
  }

  // A quotient above 9 comes out as the character so many places after '0'.
  function Code(d: nat): (c: char)
    requires d < 19
    ensures '0' <= c <= 'B'
  {
    '0' + d as char
  }

  lemma PlacesStep(n: nat, k: nat)
    requires n < k && LeadsToOne(k) && k > 1
    ensures var q := k / 10;
            && q > 0 && LeadsToOne(q) && n / q < 19 && n % q < q
            && Places(n, k) == [Code(n / q)] + Places(n % q, q)
  {
    hide Code;
    QuotientIsSmall(n, k / 10);
  }

  lemma CodeIsDigit(d: nat)
    requires d < 10
    ensures Code(d) == Digit(d)
  {
  }

  lemma {:induction false} PlacesOfPower(n: nat, d: nat)
    requires n < Pow10(d)
    ensures LeadsToOne(Pow10(d)) && Places(n, Pow10(d)) == Padded(n, d)
    decreases d
  {
    hide Pow10, Places, Padded, LeadsToOne, Digit;
    if d == 0 {
      NoDigits(n);
    } else {
      var _, r := FirstPlace(n, d - 1);
      PlacesOfPower(r, d - 1);
    }
  }

  lemma FirstPlace(n: nat, d: nat) returns (u: nat, r: nat)
    requires n < Pow10(d + 1)
    ensures u < 10 && r < Pow10(d) && LeadsToOne(Pow10(d)) && LeadsToOne(Pow10(d + 1))
    ensures Padded(n, d + 1) == [Digit(u)] + Padded(r, d)
    ensures Places(n, Pow10(d + 1)) == [Digit(u)] + Places(r, Pow10(d))
  {
    hide Pow10, Places, Padded, LeadsToOne, Code, Digit;
    u, r := n / Pow10(d), n % Pow10(d);
    GreatestDigit(n, d);
    ScaleStep(d);
    PowersLeadToOne(d + 1);
    PowerPlaces(n, Pow10(d + 1), Pow10(d));
  }

  lemma PowerPlaces(n: nat, k: nat, q: nat)
    requires k == 10 * q && n < k && LeadsToOne(k) && n / q < 10 && n % q < q
    ensures LeadsToOne(q) && Places(n, k) == [Digit(n / q)] + Places(n % q, q)
  {
    hide Places, LeadsToOne, Code, Digit;
    PlacesStep(n, k);
    assert k / 10 == q;
    CodeIsDigit(n / q);
  }

  lemma NoDigits(n: nat)
    requires n < Pow10(0)
    ensures LeadsToOne(Pow10(0)) && Places(n, Pow10(0)) == Padded(n, 0)
  {
  }

  lemma {:induction false} PlacesLength(n: nat, k: nat, d: nat)
    requires n < k && LeadsToOne(k) && Pow10(d) <= k < Pow10(d + 1)
    ensures |Places(n, k)| == d
    decreases d
  {
    if d > 0 { PlacesLength(n % (k / 10), k / 10, d - 1); }
  }

  lemma LeadsUp(k: nat)
    requires LeadsToOne(k)
    ensures k > 0
  {
  }

  lemma NoPlaces(n: nat)
    ensures n < 1 ==> LeadsToOne(1) && Places(n, 1) == ""
  {
  }

  // What the characters weigh, each at its tenth of the scale.
  function Weight(s: string, k: nat): int {
    if s == "" then 0 else (s[0] as int - '0' as int) * (k / 10) + Weight(s[1..], k / 10)
  }

  /** Whatever the scale, the places add up to the number. */
  lemma {:induction false} PlacesAddUp(n: nat, k: nat)
    requires n < k && LeadsToOne(k)
    ensures Weight(Places(n, k), k) == n
    decreases k
  {
    hide Places, LeadsToOne, Code;
    if k > 1 {
      var d, r := PlaceAndRest(n, k);
      PlacesAddUp(r, k / 10);
      FirstWeighs(d, Places(r, k / 10), k);
    } else {
      LeadsUp(k);
      NoPlaces(n);
    }
  }

  lemma FirstWeighs(d: nat, s: string, k: nat)
    requires d < 19
    ensures Weight([Code(d)] + s, k) == d * (k / 10) + Weight(s, k / 10)
  {
    assert ([Code(d)] + s)[1..] == s;
  }

  lemma PlaceAndRest(n: nat, k: nat) returns (d: nat, r: nat)
    requires n < k && LeadsToOne(k) && k > 1
    ensures d < 19 && r < k / 10 && LeadsToOne(k / 10) && n == d * (k / 10) + r
    ensures Places(n, k) == [Code(d)] + Places(r, k / 10)
  {
    hide Places, LeadsToOne, Code;
    PlacesStep(n, k);
    d, r := n / (k / 10), n % (k / 10);
  }

  // The second loop: the places of n from the scale down. No division is by zero.
  method DigitsBelow(number: nat, scale: nat) returns (buf: string)
    requires number < scale && LeadsToOne(scale) && scale > 1
    ensures buf == Places(number, scale)
  {
    hide Places, LeadsToOne, Code;
    var n, k := number, scale;
    buf := "";
    var more := true;
    while more
      invariant n < k && LeadsToOne(k) && (more <==> k > 1)
      invariant buf + Places(n, k) == Places(number, scale)
      decreases k
    {
      PlacesStep(n, k);
      k := k / 10;
      assert buf + ([Code(n / k)] + Places(n % k, k)) == (buf + [Code(n / k)]) + Places(n % k, k);
      buf := buf + [Code(n / k)];
      n := n % k;
      more := k > 1;
      LeadsUp(k);
    }
    NoPlaces(n);
    assert buf + "" == buf;
  }

  // What is printed: the decimal digits as long as the scale is a power of ten, nine other characters when it has
  // wrapped round, and of a negative number only the sign.
  function Printed(n: int): (s: string)
    requires n < ENDLESS
  {
    if n < 0 then "-"
    else if n < PRINTABLE then Decimal(n)
    else
      WrappedScalesLeadToOne();
      Places(n, ScaleFor(n))
  }

  lemma WrappedScalesLeadToOne()
    ensures LeadsToOne(TURNED) && LeadsToOne(ENDLESS)
  {
    assert LeadsToOne(14_100_654) && LeadsToOne(18_749_194);
  }

  method Ditoa(number: int) returns (buf: string)
    requires number < ENDLESS
    ensures buf == Printed(number)
    ensures number < 0 ==> buf == "-"
    ensures 0 <= number < 1_000_000_000 ==> Numeral(number, 10, buf) && (buf[0] == '0' <==> buf == "0")
  {
    buf := "";
    if number < 0 {
      buf := buf + "-";
    } else if number == 0 {
      buf := buf + "0";
    } else {
      var k, d := FirstScaleAbove(number);
      FirstScaleIs(number, d);
      ScalesLeadToOne(number, d);
      var places := DigitsBelow(number, k);
      buf := buf + places;
      if number < PRINTABLE {
        PlacesOfPower(number, d);
        PaddedIsDecimal(number, d);
      }
    }
    if number >= 0 { DecimalIsNumeral(number); }
  }

  lemma ScaleStep(d: nat)
    ensures Pow10(0) == 1 && Pow10(d + 1) == 10 * Pow10(d) && Pow10(d + 1) > 1
  {
  }

  lemma PrintableScale()
    ensures Pow10(9) == PRINTABLE
  {
    assert Pow10(3) == 1000;
    assert Pow10(6) == 1_000_000;
  }

  lemma {:induction false} Rising(d: nat, e: nat)
    requires d <= e
    ensures Pow10(d) <= Pow10(e)
    decreases e
  {
    if d < e { Rising(d, e - 1); }
  }

  // ---- dstrtol ----

  datatype Parsed = Parsed(value: int, newpos: nat)

  function At(s: string, i: nat): char { if i < |s| then s[i] else '\0' }

  predicate IsBlank(c: char) { c == ' ' || c == '\t' || c == '\n' }

  function SkipBlanks(s: string, i: nat): (j: nat)
    requires i <= |s|
    ensures i <= j <= |s|
    decreases |s| - i
  {
    if IsBlank(At(s, i)) then SkipBlanks(s, i + 1) else i
  }

  // The value of a digit in any base; no digit is as large as a base.
  function DigitValue(c: char): (v: nat) {
    if '0' <= c <= '9' then (c - '0') as nat
    else if 'a' <= c <= 'z' then (c - 'a') as nat + 10
    else if 'A' <= c <= 'Z' then (c - 'A') as nat + 10
    else 1000
  }

  function DigitsEnd(s: string, i: nat, base: nat): (j: nat)
    requires i <= |s| && base <= 16
    ensures i <= j <= |s|
    decreases |s| - i
  {
    if DigitValue(At(s, i)) < base then DigitsEnd(s, i + 1, base) else i
  }

  function Value(s: string, i: nat, j: nat, base: nat): (v: nat)
    requires i <= j <= |s|
  {
    if i == j then 0 else Value(s, i, j - 1, base) * base + DigitValue(s[j - 1])
  }

  function Prefix(s: string, i: nat, base: int): (r: (nat, int))
    requires i <= |s|
    ensures i <= r.0 <= |s|
  {
    if base != 0 then (i, base)
    else if At(s, i) != '0' then (i, 10)
    else if At(s, i + 1) == 'x' || At(s, i + 1) == 'X' then (i + 2, 16)
    else (i + 1, 8)
  }

  function Strtol(s: string, base: int): (p: Parsed) {
    var start := SkipBlanks(s, 0);
    if At(s, start) == '\0' then Parsed(0, start)
    else
      var negative := At(s, start) == '-';
      var (from, b) := Prefix(s, if negative then start + 1 else start, base);
      if b <= 0 || b > 16 then Parsed(0, start)
      else
        var end := DigitsEnd(s, from, b);
        Parsed(Value(s, from, end, b) * (if negative then -1 else 1), end)
  }

  method ReadDigits(s: string, from: nat, base: nat) returns (v: int, c: nat)
    requires from <= |s| && base <= 16
    ensures c == DigitsEnd(s, from, base) && v == Wrapped(Value(s, from, c, base))
  {
    hide At, DigitValue, Wrapped;
    c, v := from, 0;
    var curdigit := 0;
    while curdigit < base
      invariant from <= c <= |s| && v == Wrapped(Value(s, from, c, base))
      invariant DigitsEnd(s, c, base) == DigitsEnd(s, from, base)
      invariant curdigit >= base ==> c == DigitsEnd(s, c, base)
      decreases |s| - c, curdigit < base
    {
      curdigit := DigitValue(At(s, c));
      if curdigit < base {
        DigitIsInside(s, c);
        WrapOnce(Value(s, from, c, base), base, 0);
        WrapOnce(Value(s, from, c, base) * base, 1, curdigit);
        v := Wrapped(v * base);
        v := Wrapped(v + curdigit);
        c := c + 1;
      }
    }
  }

  lemma DigitIsInside(s: string, c: nat)
    requires DigitValue(At(s, c)) < 16
    ensures c < |s| && At(s, c) == s[c]
  {
  }

  method Dstrtol(s: string, radix: int) returns (v: int, newpos: nat)
    ensures newpos == Strtol(s, radix).newpos && v == Wrapped(Strtol(s, radix).value)
  {
    hide DigitsEnd, Value, DigitValue;
    var base := radix;
    var c := 0;
    v := 0;
    while IsBlank(At(s, c))
      invariant c <= |s| && SkipBlanks(s, c) == SkipBlanks(s, 0)
      decreases |s| - c
    {
      c := c + 1;
    }
    newpos := c;
    if At(s, c) == '\0' {
      return;
    }
    var sign := 1;
    if At(s, c) == '-' {
      sign := -1;
      c := c + 1;
    }
    if base == 0 {
      if At(s, c) == '0' {
        c := c + 1;
        if At(s, c) == 'x' || At(s, c) == 'X' {
          base := 16;
          c := c + 1;
        } else {
          base := 8;
        }
      } else {
        base := 10;
      }
    }
    if base <= 0 || base > 16 {
      return;
    }
    v, newpos := ReadDigits(s, c, base);
    WrapOnce(Value(s, c, newpos, base), sign, 0);
    v := Wrapped(v * sign);
  }

  // ---- Numerals ----

  // c stands for d.
  predicate IsDigit(c: char, d: int) {
    0 <= d < 16 && (c == "0123456789abcdef"[d] || c == "0123456789ABCDEF"[d])
  }

  // s is n written in this base, in small or capital letters, with leading zeros or without; "" is 0.
  predicate Numeral(n: nat, base: nat, s: string)
    requires base >= 2
    decreases |s|
  {
    if s == "" then n == 0
    else IsDigit(s[|s| - 1], n % base) && Numeral(n / base, base, s[..|s| - 1])
  }

  // How the base is found: it is given, or the radix is 0 and what comes first tells.
  predicate TellsBase(radix: int, base: nat, prefix: string, digits: string, rest: string) {
    || (radix == base && prefix == "" && digits != "")
    || (radix == 0 && base == 16 && (prefix == "0x" || prefix == "0X"))
    || (radix == 0 && base == 8 && prefix == "0" && (digits != "" || rest == "" || (rest[0] != 'x' && rest[0] != 'X')))
    || (radix == 0 && base == 10 && prefix == "" && digits != "" && digits[0] != '0')
  }

  predicate Blank(s: string) { forall i :: 0 <= i < |s| ==> s[i] == ' ' || s[i] == '\t' || s[i] == '\n' }

  /** A number is read as what it stands for, in every base, behind any blanks, sign and prefix, and the position
      returned is the one behind its last digit. */
  lemma NumeralsAreRead(blanks: string, sign: string, prefix: string, digits: string, rest: string, n: nat, radix: int,
                        base: nat)
    requires Blank(blanks) && (sign == "" || sign == "-") && 2 <= base <= 16
    requires TellsBase(radix, base, prefix, digits, rest) && Numeral(n, base, digits)
    requires rest != "" ==> forall d :: 0 <= d < base ==> !IsDigit(rest[0], d)
    ensures var t := blanks + sign + prefix + digits + rest;
            && Strtol(t, radix).value == (if sign == "-" then -(n as int) else n)
            && Strtol(t, radix).newpos == |blanks + sign + prefix + digits|
  {
    hide DigitsEnd, Value, DigitValue, SkipBlanks, Numeral, TellsBase, Prefix;
    var t := blanks + sign + prefix + digits + rest;
    var start, from := |blanks|, |blanks + sign|;
    assert t[from..] == prefix + digits + rest;
    ReadDigitsOf(t, from + |prefix|, digits, n, base, rest);
    PrefixIs(t, from, prefix, digits, rest, n, radix, base);
    assert sign == "-" ==> t[start] == '-';
    SkipsBlanks(t, 0, start);
  }

  // Behind the sign.
  lemma PrefixIs(t: string, i: nat, prefix: string, digits: string, rest: string, n: nat, radix: int, base: nat)
    requires i <= |t| && t[i..] == prefix + digits + rest && 2 <= base <= 16
    requires TellsBase(radix, base, prefix, digits, rest) && Numeral(n, base, digits)
    ensures i < |t| && !IsBlank(t[i]) && t[i] != '-' && t[i] != '\0' && Prefix(t, i, radix) == (i + |prefix|, base)
  {
    hide Numeral, DigitValue;
    DigitsOf(n, base, digits);
    Characters();
    var all := prefix + digits + rest;
    assert i < |t| && t[i] == t[i..][0] == all[0] by { assert |all| > 0; }
    if |all| > 1 { assert t[i + 1] == t[i..][1] == all[1]; }
  }

  lemma Characters()
    ensures forall c: char :: DigitValue(c) < 16 ==> !IsBlank(c) && c != '-' && c != '\0' && c != 'x' && c != 'X'
    ensures DigitValue('0') == 0
  {
  }

  lemma {:induction false} SkipsBlanks(t: string, i: nat, j: nat)
    requires i <= j <= |t| && (forall k :: i <= k < j ==> IsBlank(t[k])) && !IsBlank(At(t, j))
    ensures SkipBlanks(t, i) == j
    decreases j - i
  {
    if i < j { SkipsBlanks(t, i + 1, j); }
  }

  lemma DigitHasValue(c: char, d: nat)
    requires d < 16
    ensures IsDigit(c, d) <==> DigitValue(c) == d
  {
    if d < 10 {
      assert "0123456789abcdef"[d] == '0' + d as char;
    } else {
      assert "0123456789abcdef"[d] == 'a' + (d - 10) as char;
      assert "0123456789ABCDEF"[d] == 'A' + (d - 10) as char;
    }
  }

  lemma {:induction false} DigitsOf(n: nat, base: nat, s: string)
    requires 2 <= base <= 16 && Numeral(n, base, s)
    ensures forall k :: 0 <= k < |s| ==> DigitValue(s[k]) < base
    decreases |s|
  {
    hide DigitValue, IsDigit;
    if s != "" {
      DigitHasValue(s[|s| - 1], n % base);
      DigitsOf(n / base, base, s[..|s| - 1]);
    }
  }

  lemma {:induction false} ValueOfNumeral(t: string, i: nat, s: string, n: nat, base: nat)
    requires 2 <= base <= 16 && Numeral(n, base, s) && i + |s| <= |t| && t[i..i + |s|] == s
    ensures Value(t, i, i + |s|, base) == n
    decreases |s|
  {
    hide DigitValue, IsDigit;
    if s != "" {
      var r, d := s[..|s| - 1], n % base;
      assert t[i..i + |r|] == t[i..i + |s|][..|r|];
      DigitHasValue(s[|s| - 1], d);
      ValueOfNumeral(t, i, r, n / base, base);
      assert t[i..i + |s|][|s| - 1] == t[i + |s| - 1];
    }
  }

  lemma {:induction false} DigitsEndAt(t: string, i: nat, j: nat, base: nat)
    requires i <= j <= |t| && base <= 16 && (forall k :: i <= k < j ==> DigitValue(t[k]) < base)
    requires DigitValue(At(t, j)) >= base
    ensures DigitsEnd(t, i, base) == j
    decreases j - i
  {
    hide DigitValue;
    if i < j { DigitsEndAt(t, i + 1, j, base); }
  }

  lemma ReadDigitsOf(t: string, i: nat, s: string, n: nat, base: nat, rest: string)
    requires 2 <= base <= 16 && Numeral(n, base, s) && i <= |t| && t[i..] == s + rest
    requires rest != "" ==> forall d :: 0 <= d < base ==> !IsDigit(rest[0], d)
    ensures DigitsEnd(t, i, base) == i + |s| && Value(t, i, i + |s|, base) == n
  {
    hide IsDigit, Numeral;
    assert |t| == i + |s| + |rest|;
    assert t[i..i + |s|] == t[i..][..|s|] == s;
    ValueOfNumeral(t, i, s, n, base);
    DigitsOf(n, base, s);
    forall k | i <= k < i + |s| ensures DigitValue(t[k]) < base { assert t[k] == t[i..][k - i] == s[k - i]; }
    if rest != "" {
      assert t[i + |s|] == t[i..][|s|] == rest[0];
      if DigitValue(rest[0]) < base { DigitHasValue(rest[0], DigitValue(rest[0])); }
    }
    DigitsEndAt(t, i, i + |s|, base);
  }

  /** With a radix that is no base nothing is read, and the position is behind the blanks. */
  lemma NoSuchBase(blanks: string, rest: string, radix: int)
    requires Blank(blanks) && (rest != "" ==> !Blank(rest[..1])) && (radix < 0 || radix > 16)
    ensures Strtol(blanks + rest, radix) == Parsed(0, |blanks|)
  {
    hide SkipBlanks;
    var t := blanks + rest;
    if rest != "" { assert rest[..1] == [t[|blanks|]]; }
    SkipsBlanks(t, 0, |blanks|);
  }

  lemma {:induction false} DecimalIsNumeral(n: nat)
    ensures var s := Decimal(n); s != "" && Numeral(n, 10, s) && (s[0] == '0' <==> n == 0)
  {
    DigitHasValue(Digit(n % 10), n % 10);
    if n < 10 {
      assert Decimal(n)[..0] == "";
    } else {
      DecimalIsNumeral(n / 10);
      assert Decimal(n)[..|Decimal(n)| - 1] == Decimal(n / 10);
    }
  }

  // ---- Round trip ----

  lemma {:induction false} EndOfDigits(s: string, i: nat, base: nat)
    requires i <= |s| && base <= 16
    ensures forall j :: i <= j < DigitsEnd(s, i, base) ==> DigitValue(s[j]) < base
    decreases |s| - i
  {
    if DigitValue(At(s, i)) < base {
      DigitIsInside(s, i);
      EndOfDigits(s, i + 1, base);
    }
  }

  lemma {:induction false} ValueBelow(s: string, i: nat, j: nat, base: nat)
    requires i <= j <= |s| && base <= 10 && forall k :: i <= k < j ==> DigitValue(s[k]) < base
    ensures Value(s, i, j, base) < Pow10(j - i)
    decreases j
  {
    if i < j {
      ValueBelow(s, i, j - 1, base);
      OneMoreDigit(Value(s, i, j - 1, base), base, Pow10(j - 1 - i), DigitValue(s[j - 1]));
    }
  }

  lemma OneMoreDigit(v: nat, base: nat, p: nat, digit: nat)
    requires v < p && digit < base <= 10
    ensures v * base + digit < 10 * p
  {
    assert v * base <= v * 10;
  }

  // Nine characters from '0' to 'B' never read as a number of more than nine digits.
  lemma WrappedPrintReadsLow(s: string, base: int)
    requires |s| == 9 && (forall i :: 0 <= i < |s| ==> '0' <= s[i] <= 'B') && (base == 10 || base == 0)
    ensures 0 <= Strtol(s, base).value < PRINTABLE
  {
    assert SkipBlanks(s, 0) == 0;
    var (from, b) := Prefix(s, 0, base);
    assert b == 10 || b == 8;
    var end := DigitsEnd(s, from, b);
    EndOfDigits(s, from, b);
    ValueBelow(s, from, end, b);
    Rising(end - from, 9);
    PrintableScale();
  }

  /** Reading what was printed, in base ten or with the base left open, gives the number back exactly
      when it is not negative and below 10^9, and then reads all of it. */
  lemma PrintedReadsBackIff(n: int, base: int)
    requires n < ENDLESS && (base == 10 || base == 0)
    ensures var s := Printed(n);
      && (Wrapped(Strtol(s, base).value) == n <==> 0 <= n < PRINTABLE)
      && (0 < n < PRINTABLE ==> Strtol(s, base).newpos == |s|)
  {
    if 0 <= n < PRINTABLE {
      SmallReadsBack(n, base);
    } else if n >= PRINTABLE {
      WrappedScalesLeadToOne();
      PrintableScale();
      assert Pow10(10) == 10 * Pow10(9);
      PlacesLength(n, ScaleFor(n), 9);
      WrappedPrintReadsLow(Printed(n), base);
    }
  }

  lemma SmallReadsBack(n: nat, base: int)
    requires n < PRINTABLE && (base == 10 || base == 0)
    ensures var s := Decimal(n); Strtol(s, base).value == n && (n > 0 ==> Strtol(s, base).newpos == |s|)
  {
    hide Strtol, Numeral;
    var s := Decimal(n);
    DecimalIsNumeral(n);
    if n == 0 && base == 0 {
      assert "" + "" + "0" + "" + "" == s;
      assert Numeral(0, 8, "") by { NothingIsZero(); }
      NumeralsAreRead("", "", "0", "", "", 0, base, 8);
    } else {
      assert "" + "" + "" + s + "" == s;
      NumeralsAreRead("", "", "", s, "", n, base, 10);
    }
  }

  lemma NothingIsZero()
    ensures Numeral(0, 8, "")
  {
  }
}
