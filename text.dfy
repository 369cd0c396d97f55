/**
 * The Python text primitives the exporter relies on: `str.split()` with no
 * separator, `" ".join`, `str(int)`, `int(token)` and the ordering of `str`
 * values that `sorted` uses.
 */
module Text {
  import opened Wrappers

  /** The characters `str.isspace()` accepts, on which `str.split()` separates. */
  predicate IsSpace(c: char) {
    var k := c as int;
    (0x09 <= k <= 0x0D) || (0x1C <= k <= 0x20) || k == 0x85 || k == 0xA0 || k == 0x1680
    || (0x2000 <= k <= 0x200A) || k == 0x2028 || k == 0x2029 || k == 0x202F || k == 0x205F
    || k == 0x3000
  }

  /** A non-empty run of non-whitespace characters: one piece of `str.split()`. */
  predicate IsToken(t: string) {
    |t| > 0 && forall i :: 0 <= i < |t| ==> !IsSpace(t[i])
  }

  /** The length of the longest whitespace-free prefix of `s`. */
  function TokenLength(s: string): (n: nat)
    ensures n <= |s|
    ensures forall i :: 0 <= i < n ==> !IsSpace(s[i])
    ensures n == |s| || IsSpace(s[n])
  {
    if s == [] || IsSpace(s[0]) then 0 else 1 + TokenLength(s[1..])
  }

  /** `s.split()`: the maximal whitespace-free runs of `s`, in order. */
  function Split(s: string): (r: seq<string>)
    ensures forall i :: 0 <= i < |r| ==> IsToken(r[i])
    decreases |s|
  {
    if s == [] then []
    else if IsSpace(s[0]) then Split(s[1..])
    else
      var n := TokenLength(s);
      [s[..n]] + Split(s[n..])
  }

  /** `" ".join(ts)`. */
  function Join(ts: seq<string>): string {
    if ts == [] then ""
    else if |ts| == 1 then ts[0]
    else ts[0] + " " + Join(ts[1..])
  }

  lemma {:induction false} TokenLengthOfToken(t: string, rest: string)
    requires IsToken(t)
    requires rest == [] || IsSpace(rest[0])
    ensures TokenLength(t + rest) == |t|
    decreases |t|
  {
    assert (t + rest)[0] == t[0];
    if |t| > 1 {
      assert (t + rest)[1..] == t[1..] + rest;
      TokenLengthOfToken(t[1..], rest);
    } else {
      assert (t + rest)[1..] == rest;
    }
  }

  /** A token followed by whitespace (or nothing) is split off whole. */
  lemma SplitToken(t: string, rest: string)
    requires IsToken(t)
    requires rest == [] || IsSpace(rest[0])
    ensures Split(t + rest) == [t] + Split(rest)
  {
    TokenLengthOfToken(t, rest);
    assert (t + rest)[..|t|] == t;
    assert (t + rest)[|t|..] == rest;
  }

  /** Splitting undoes joining: `(" ".join(ts) + tail).split() == ts + tail.split()`. */
  lemma {:induction false} SplitJoin(ts: seq<string>, tail: string)
    requires forall i :: 0 <= i < |ts| ==> IsToken(ts[i])
    requires tail == [] || IsSpace(tail[0])
    ensures Split(Join(ts) + tail) == ts + Split(tail)
    decreases |ts|
  {
    if ts == [] {
      assert Join(ts) + tail == tail;
      assert ts + Split(tail) == Split(tail);
    } else if |ts| == 1 {
      assert Join(ts) == ts[0];
      SplitToken(ts[0], tail);
    } else {
      SplitJoin(ts[1..], tail);
      SplitJoinCons(ts, tail);
    }
  }

  lemma SplitJoinCons(ts: seq<string>, tail: string)
    requires |ts| > 1 && IsToken(ts[0])
    requires Split(Join(ts[1..]) + tail) == ts[1..] + Split(tail)
    ensures Split(Join(ts) + tail) == ts + Split(tail)
  {
    var rest := Join(ts[1..]) + tail;
    SplitJoinStep(ts[0], rest);
    JoinCons(ts, tail);
  }

  /** Joining a head onto the join of the tail puts one space between them. */
  lemma JoinCons(ts: seq<string>, tail: string)
    requires |ts| > 1
    ensures Join(ts) + tail == ts[0] + (" " + (Join(ts[1..]) + tail))
    ensures ts == [ts[0]] + ts[1..]
  {
    assert Join(ts) == ts[0] + " " + Join(ts[1..]);
    Regroup(ts[0], " ", Join(ts[1..]), tail);
  }

  lemma Regroup(a: string, b: string, c: string, d: string)
    ensures a + b + c + d == a + (b + (c + d))
  {
  }

  lemma SplitJoinStep(t: string, rest: string)
    requires IsToken(t)
    ensures Split(t + (" " + rest)) == [t] + Split(rest)
  {
    SplitToken(t, " " + rest);
    SplitSpace(' ', rest);
  }

  /** Leading whitespace yields no token. */
  lemma SplitSpace(c: char, rest: string)
    requires IsSpace(c)
    ensures Split([c] + rest) == Split(rest)
  {
    assert ([c] + rest)[1..] == rest;
  }

  /** A line made by joining tokens and ending in a newline splits back into those tokens. */
  lemma SplitLine(ts: seq<string>)
    requires forall i :: 0 <= i < |ts| ==> IsToken(ts[i])
    ensures Split(Join(ts) + "\n") == ts
  {
    SplitJoin(ts, "\n");
    assert Split("\n") == [];
  }

  // ---------------------------------------------------------------- integers

  predicate IsDigit(c: char) {
    48 <= c as int <= 57
  }

  predicate IsNumeral(s: string) {
    |s| > 0 && forall i :: 0 <= i < |s| ==> IsDigit(s[i])
  }

  function DigitChar(d: nat): char
    requires d < 10
  {
    (48 + d) as char
  }

  /** The value of a string of decimal digits, most significant first. */
  function NumeralValue(s: string): nat
    requires forall i :: 0 <= i < |s| ==> IsDigit(s[i])
  {
    if s == [] then 0
    else
      var last := s[|s| - 1];
      assert IsDigit(last);
      10 * NumeralValue(s[..|s| - 1]) + (last as int - 48)
  }

  /** `str(n)` for a non-negative integer. */
  function NatToString(n: nat): string
    decreases n
  {
    if n < 10 then [DigitChar(n)] else NatToString(n / 10) + [DigitChar(n % 10)]
  }

  /** `str(i)` for a Python `int`. */
  function IntToString(i: int): string {
    if i < 0 then "-" + NatToString(-i) else NatToString(i)
  }

  /**
   * `int(t)` for a whitespace-free token `t` (so the surrounding `strip()` and
   * the whitespace `int` itself tolerates play no part): an optional sign and
   * at least one decimal digit; `None` where Python raises `ValueError`.
   */
  function ParseInt(t: string): Option<int> {
    if |t| > 0 && (t[0] == '-' || t[0] == '+') then
      if IsNumeral(t[1..]) then
        var v: int := NumeralValue(t[1..]);
        Some(if t[0] == '-' then -v else v)
      else None
    else if IsNumeral(t) then Some(NumeralValue(t))
    else None
  }

  lemma {:induction false} NatToStringNumeral(n: nat)
    ensures IsNumeral(NatToString(n))
    ensures NumeralValue(NatToString(n)) == n
    decreases n
  {
    var s := NatToString(n);
    if n >= 10 {
      NatToStringNumeral(n / 10);
      assert s[..|s| - 1] == NatToString(n / 10);
    }
  }

  /** `int(str(i)) == i`, and `str(i)` is a single token. */
  lemma IntToStringRoundTrip(i: int)
    ensures IsToken(IntToString(i))
    ensures ParseInt(IntToString(i)) == Some(i)
  {
    NatToStringNumeral(if i < 0 then -i else i);
    if i < 0 {
      assert IntToString(i)[1..] == NatToString(-i);
    }
  }

  // ---------------------------------------------------------------- ordering

  /** Python's `<` on `str`: lexicographic by code point, a proper prefix first. */
  predicate LexLess(a: string, b: string) {
    if a == [] then b != []
    else if b == [] then false
    else if a[0] != b[0] then a[0] < b[0]
    else LexLess(a[1..], b[1..])
  }

  lemma {:induction false} LexLessIrreflexive(a: string)
    ensures !LexLess(a, a)
    decreases |a|
  {
    if a != [] {
      LexLessIrreflexive(a[1..]);
    }
  }

  lemma {:induction false} LexLessTransitive(a: string, b: string, c: string)
    requires LexLess(a, b) && LexLess(b, c)
    ensures LexLess(a, c)
    decreases |a|
  {
    if a != [] && b != [] && c != [] && a[0] == b[0] && b[0] == c[0] {
      LexLessTransitive(a[1..], b[1..], c[1..]);
    }
  }

  lemma {:induction false} LexLessTotal(a: string, b: string)
    requires a != b
    ensures LexLess(a, b) || LexLess(b, a)
    decreases |a|
  {
    if a != [] && b != [] && a[0] == b[0] {
      assert a == [a[0]] + a[1..] && b == [b[0]] + b[1..];
      LexLessTotal(a[1..], b[1..]);
    }
  }
}
