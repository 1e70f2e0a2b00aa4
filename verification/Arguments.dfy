/** Packing command-line strings into one buffer, and taking them out again for the new process. */
module Arguments {
  import Digits

  const BUFFER: nat := 256
  const MAX_ARGS: nat := 10
  const MAX_NAME: nat := 100
  const NUL: char := '\0'

  // The characters of a C string, without the one that ends it.
  predicate IsString(s: string) { forall i :: 0 <= i < |s| ==> s[i] != NUL }

  ghost predicate AreStrings(strs: seq<string>) { forall k :: 0 <= k < |strs| ==> IsString(strs[k]) }

  function Packed(strs: seq<string>): (p: string) {
    if strs == [] then "" else Packed(strs[..|strs| - 1]) + strs[|strs| - 1] + [NUL]
  }

  function Nuls(n: nat): (s: string)
    ensures |s| == n && forall i :: 0 <= i < n ==> s[i] == NUL
  {
    seq(n, _ => NUL)
  }

  // Where string k begins.
  function Start(strs: seq<string>, k: nat): nat
    requires k <= |strs|
  {
    |Packed(strs[..k])|
  }

  predicate Fits(strs: seq<string>) { |Packed(strs)| < BUFFER }

  function BufferOf(strs: seq<string>): (b: string)
    requires Fits(strs)
    ensures |b| == BUFFER
  {
    Packed(strs) + Nuls(BUFFER - |Packed(strs)|)
  }

  lemma PackedNothing()
    ensures Packed([]) == ""
  {
  }

  lemma StartOfFirst(strs: seq<string>)
    ensures Start(strs, 0) == 0
  {
  }

  lemma PackedSnoc(strs: seq<string>, s: string)
    ensures Packed(strs + [s]) == Packed(strs) + s + [NUL]
  {
    assert (strs + [s])[..|strs|] == strs;
  }

  lemma {:induction false} PackedPrefix(strs: seq<string>, k: nat)
    requires k <= |strs|
    ensures Packed(strs[..k]) <= Packed(strs)
    decreases |strs|
  {
    if k < |strs| {
      PackedPrefix(strs[..|strs| - 1], k);
      assert strs[..|strs| - 1][..k] == strs[..k];
    } else {
      assert strs[..k] == strs;
    }
  }

  // String k and the NUL that ends it lie in the buffer from its start on, up to the next start.
  lemma StringAt(strs: seq<string>, k: nat)
    requires k < |strs| && Fits(strs)
    ensures Start(strs, k + 1) == Start(strs, k) + |strs[k]| + 1 <= |Packed(strs)|
    ensures strs[k] + [NUL] <= BufferOf(strs)[Start(strs, k)..]
  {
    PackedPrefix(strs, k + 1);
    assert strs[..k + 1] == strs[..k] + [strs[k]];
    PackedSnoc(strs[..k], strs[k]);
    var b, p := BufferOf(strs), Packed(strs[..k + 1]);
    assert p <= b;
    assert b[Start(strs, k)..][..|strs[k]| + 1] == p[Start(strs, k)..] == strs[k] + [NUL];
  }

  // ---- Packing ----

  // One argument, copied character by character up to and including its NUL; false when the buffer
  // fills up, be it with that NUL.
  method CopyArgument(allargs: array<char>, position: nat, arg: string) returns (ok: bool, next: nat)
    requires allargs.Length == BUFFER && position < BUFFER && IsString(arg)
    modifies allargs
    ensures ok <==> position + |arg| + 1 < BUFFER
    ensures ok ==> next == position + |arg| + 1
    ensures ok ==> allargs[..] == old(allargs[..position]) + arg + [NUL] + old(allargs[next..])
  {
    next := position;
    for j := 0 to BUFFER
      invariant next == position + j && j <= |arg| && next < BUFFER
      invariant forall x :: 0 <= x < BUFFER ==>
        allargs[x] == if position <= x < next then arg[x - position] else old(allargs[x])
    {
      allargs[next] := Digits.At(arg, j);
      next := next + 1;
      if next == BUFFER {
        return false, next;
      }
      if allargs[next - 1] == NUL {
        assert j == |arg|;
        assert allargs[..] == old(allargs[..position]) + arg + [NUL] + old(allargs[next..]);
        return true, next;
      }
    }
    ok := false;
    assert false;
  }

  /** The trap that creates a process: the name and its arguments go into the buffer one after the
      other, or the machine exits. */
  method Pack(name: string, args: seq<string>, allargs: array<char>) returns (ok: bool)
    requires allargs.Length == BUFFER && IsString(name) && AreStrings(args)
    modifies allargs
    ensures ok <==> |name| < MAX_NAME && |args| < MAX_ARGS && Fits([name] + args)
    ensures ok ==> allargs[..] == BufferOf([name] + args)
  {
    hide Packed;
    for i := 0 to BUFFER
      invariant allargs[..i] == Nuls(i)
    {
      allargs[i] := NUL;
    }
    if |name| >= MAX_NAME {
      return false;
    }
    ghost var strs := [name] + args;
    PackedSnoc([], name);
    PackedNothing();
    assert [] + [name] == strs[..1];
    ok := CopyName(allargs, name);
    var position := |name| + 1;
    var i := 0;
    while i < MAX_ARGS && i < |args|
      invariant i <= |args| && i <= MAX_ARGS
      invariant Fits(strs[..i + 1]) && position == |Packed(strs[..i + 1])|
      invariant allargs[..] == BufferOf(strs[..i + 1])
      decreases |args| - i
    {
      assert strs[..i + 2] == strs[..i + 1] + [args[i]];
      PackedSnoc(strs[..i + 1], args[i]);
      PackedPrefix(strs, i + 2);
      ghost var sofar := Packed(strs[..i + 1]);
      assert allargs[..position] == sofar;
      ok, position := CopyArgument(allargs, position, args[i]);
      if !ok {
        return;
      }
      assert allargs[..] == sofar + args[i] + [NUL] + Nuls(BUFFER - position);
      i := i + 1;
    }
    if i == MAX_ARGS {
      return false;
    }
    assert strs[..i + 1] == strs;
    ok := true;
  }

  method CopyName(allargs: array<char>, name: string) returns (ok: bool)
    requires allargs.Length == BUFFER && allargs[..] == Nuls(BUFFER) && IsString(name) && |name| < MAX_NAME
    modifies allargs
    ensures ok && allargs[..] == name + [NUL] + Nuls(BUFFER - |name| - 1)
  {
    var next;
    ok, next := CopyArgument(allargs, 0, name);
    assert Nuls(BUFFER)[next..] == Nuls(BUFFER - next);
  }

  // ---- Taking them out again ----

  // The strings an enumeration finds: the first, then those up to the first empty one.
  function Found(strs: seq<string>): (n: nat)
    requires strs != []
    ensures 1 <= n <= |strs| && (strs[0] == "" ==> n == 1) && forall j :: 1 <= j < n ==> strs[j] != ""
    ensures strs[0] != "" && n < |strs| ==> strs[n] == ""
  {
    if strs[0] == "" then 1 else 1 + Leading(strs, 1)
  }

  function Leading(strs: seq<string>, k: nat): (n: nat)
    requires k <= |strs|
    ensures n <= |strs| - k && (forall j :: k <= j < k + n ==> strs[j] != "") && (k + n < |strs| ==> strs[k + n] == "")
    decreases |strs| - k
  {
    if k == |strs| || strs[k] == "" then 0 else 1 + Leading(strs, k + 1)
  }

  lemma {:induction false} LeadingIsAllIff(strs: seq<string>, k: nat)
    requires k <= |strs|
    ensures Leading(strs, k) == |strs| - k <==> forall j :: k <= j < |strs| ==> strs[j] != ""
    decreases |strs| - k
  {
    if k < |strs| && strs[k] != "" { LeadingIsAllIff(strs, k + 1); }
  }

  /** Every string is found exactly when none is empty, or there is only the one. */
  lemma FoundIsAllIff(strs: seq<string>)
    requires strs != []
    ensures Found(strs) == |strs| <==> |strs| == 1 || forall j :: 0 <= j < |strs| ==> strs[j] != ""
  {
    LeadingIsAllIff(strs, 1);
    assert strs[0] == "" ==> !(forall j :: 0 <= j < |strs| ==> strs[j] != "");
  }

  // What get_argument answers at string k, and the string it stands before afterwards.
  function OffsetAt(strs: seq<string>, k: nat): nat
    requires k <= |strs|
  {
    if k < |strs| && strs[k] != "" then Start(strs, k) else 0
  }

  function After(strs: seq<string>, k: nat): (j: nat)
    requires k <= |strs|
    ensures j <= |strs|
  {
    if k < |strs| && strs[k] != "" then k + 1 else k
  }

  // The enumeration stands at string k and has found all before it.
  ghost predicate Midway(strs: seq<string>, k: nat) {
    && k < |strs| && (strs[k] == "" ==> k == 0)
    && Found(strs) == if strs[k] == "" then 1 else k + 1 + Leading(strs, k + 1)
  }

  lemma MidwayStarts(strs: seq<string>)
    requires strs != []
    ensures Midway(strs, 0) && Start(strs, 0) == 0 && OffsetAt(strs, 0) == 0
    ensures Fits(strs) ==> BufferOf(strs) != ""
  {
  }

  // Only the first string starts at offset zero, so a zero offset ends the list.
  lemma MidwayGoesOn(strs: seq<string>, k: nat)
    requires Midway(strs, k) && Fits(strs)
    ensures OffsetAt(strs, After(strs, k)) == 0 ==> Found(strs) == k + 1
    ensures OffsetAt(strs, After(strs, k)) != 0 ==>
      && Midway(strs, k + 1) && k + 1 < Found(strs) && After(strs, k) == k + 1
      && OffsetAt(strs, k + 1) == Start(strs, k + 1)
  {
    StringAt(strs, k);
    if k + 1 < |strs| { StringAt(strs, k + 1); }
  }

  // The place the parser is at holds the end of the strings, or the first character of string k.
  lemma AtStart(strs: seq<string>, k: nat)
    requires k <= |strs| && Fits(strs) && AreStrings(strs)
    ensures Start(strs, k) < BUFFER
    ensures BufferOf(strs)[Start(strs, k)] == NUL <==> k == |strs| || strs[k] == ""
    ensures k < |strs| ==> Start(strs, k) < BUFFER - 1
  {
    PackedPrefix(strs, k);
    if k < |strs| {
      StringAt(strs, k);
      var b := BufferOf(strs);
      assert b[Start(strs, k)] == b[Start(strs, k)..][0] == (strs[k] + [NUL])[0];
    } else {
      assert strs[..k] == strs;
    }
  }

  class ArgumentParser {
    var str: string
    var location: nat

    constructor ()
      ensures str == "" && location == 0
    {
      str, location := "", 0;
    }

    // get_argument; an empty string stands for the null pointer. The buffer given holds strs, and
    // location is at the start of one of them, or past the last.
    method GetArgument(text: string, ghost strs: seq<string>, ghost k: nat) returns (offset: nat)
      requires Fits(strs) && AreStrings(strs) && k <= |strs|
      requires if text == "" then str == BufferOf(strs) && location == Start(strs,
          k) else text == BufferOf(strs) && k == 0
      modifies this
      ensures str == BufferOf(strs)
      ensures offset == OffsetAt(strs, k)
      ensures location == Start(strs, After(strs, k))
    {
      hide BufferOf, Packed;
      if text != "" {
        str := text;
        location := 0;
        StartOfFirst(strs);
      }
      var location2 := location;
      offset := 0;
      AtStart(strs, k);
      if str[location] == NUL {
        return;
      }
      if location >= BUFFER - 1 {
        return;
      }
      StringAt(strs, k);
      ghost var s := strs[k] + [NUL];
      assert forall j :: 0 <= j < |s| ==> str[location2..][j] == s[j];
      assert IsString(strs[k]);
      while location < BUFFER
        invariant Start(strs, k) <= location <= Start(strs, k) + |strs[k]|
        invariant str == BufferOf(strs)
        decreases BUFFER - location
      {
        assert str[location] == s[location - location2];
        if str[location] == NUL {
          location := location + 1;
          break;
        }
        location := location + 1;
      }
      offset := location2;
    }
  }

  /** What a new process is started with: argc; argv, which points at where the third word goes; the address of each
      string found; a null word. The array has MAX_ARGS + 2 words; `words` shows the word behind it as well. */
  method UserParameters(buffer: string, parser: ArgumentParser, sp: nat, words: array<nat>, ghost strs: seq<string>)
    requires Fits(strs) && AreStrings(strs) && 0 < |strs| <= MAX_ARGS && buffer == BufferOf(strs)
    requires 4 * MAX_ARGS <= sp && words.Length == MAX_ARGS + 3
    modifies parser, words
    ensures words[0] == Found(strs) && words[1] == sp - 4 * Found(strs)
    ensures forall i :: 2 <= i < 2 + Found(strs) ==> words[i] == sp + Start(strs, i - 2)
    ensures words[2 + Found(strs)] == 0
    ensures forall i :: 2 + Found(strs) < i < words.Length ==> words[i] == old(words[i])
  {
    hide BufferOf, Packed, Leading, Found, Fits, Start, AreStrings, IsString, Midway, After, OffsetAt;
    MidwayStarts(strs);
    var offset := parser.GetArgument(buffer, strs, 0);
    var argc := 0;
    while argc < MAX_ARGS
      invariant argc < Found(strs) && Midway(strs, argc)
      invariant parser.str == BufferOf(strs) && parser.location == Start(strs, After(strs, argc))
      invariant offset == Start(strs, argc)
      invariant forall i :: 2 <= i < 2 + argc ==> words[i] == sp + Start(strs, i - 2)
      invariant forall i :: 2 + argc <= i < words.Length ==> words[i] == old(words[i])
      decreases MAX_ARGS - argc
    {
      words[argc + 2] := sp + offset;
      MidwayGoesOn(strs, argc);
      offset := parser.GetArgument("", strs, After(strs, argc));
      if offset == 0 {
        words[argc + 2 + 1] := 0;
        break;
      }
      argc := argc + 1;
    }
    argc := argc + 1;
    words[0] := argc;
    words[1] := sp - argc * 4;
  }

  /** Of what Pack accepts, the null word falls behind the array of MAX_ARGS + 2 words if and only if there are MAX_ARGS
      strings and none of them is empty. */
  lemma NullWordFallsOutsideIff(name: string, args: seq<string>)
    requires |args| < MAX_ARGS
    ensures var strs := [name] + args;
      2 + Found(strs) >= MAX_ARGS + 2 <==> |strs| == MAX_ARGS && forall j :: 0 <= j < |strs| ==> strs[j] != ""
  {
    FoundIsAllIff([name] + args);
  }

  // A name and nine arguments, each of one letter, are accepted and do so.
  lemma TenStringsOverrun()
    ensures var name, args := "p", seq(9, _ => "a"); var strs := [name] + args;
      && IsString(name) && AreStrings(args) && |name| < MAX_NAME && |args| < MAX_ARGS && Fits(strs)
      && 2 + Found(strs) == MAX_ARGS + 2
  {
    var strs := ["p"] + seq(9, _ => "a");
    ShortStringsPack(strs);
    NullWordFallsOutsideIff("p", seq(9, _ => "a"));
  }

  lemma {:induction false} ShortStringsPack(strs: seq<string>)
    requires forall k :: 0 <= k < |strs| ==> |strs[k]| == 1
    ensures |Packed(strs)| == 2 * |strs|
    decreases |strs|
  {
    if strs != [] { ShortStringsPack(strs[..|strs| - 1]); }
  }
}
