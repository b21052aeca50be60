/**
 * The JavaScript string semantics the application relies on: truthiness and
 * `||` chains over possibly-undefined strings, `filter(Boolean)` followed by
 * `join`, `trim`, `startsWith`/`endsWith`, `toLowerCase` and the decimal
 * rendering of a number inside a template literal.
 */
module JsText {
  import opened Wrappers

  /** A possibly-undefined string is truthy iff it is defined and not "". */
  predicate Present(o: Option<string>) {
    o.Some? && o.value != ""
  }

  /**
   * `c0 || c1 || ... ` over possibly-undefined strings: the first truthy
   * candidate, or None when there is none (the caller supplies the literal
   * that ends the chain with `GetOr`).
   */
  function FirstTruthy(cs: seq<Option<string>>): (r: Option<string>)
    ensures r.Some? ==> Present(r)
    ensures r.None? <==> forall i | 0 <= i < |cs| :: !Present(cs[i])
    ensures r.Some? ==> exists i | 0 <= i < |cs| :: cs[i] == r && forall j | 0 <= j < i :: !Present(cs[j])
  {
    if |cs| == 0 then None
    else if Present(cs[0]) then cs[0]
    else
      var r := FirstTruthy(cs[1..]);
      assert forall i | 1 <= i < |cs| :: cs[i] == cs[1..][i - 1];
      r
  }

  /** The rule of `FirstTruthy` read from the other side: the first truthy candidate wins. */
  lemma {:induction false} FirstTruthyPicksFirst(cs: seq<Option<string>>, i: nat)
    requires i < |cs| && Present(cs[i])
    requires forall j | 0 <= j < i :: !Present(cs[j])
    ensures FirstTruthy(cs) == cs[i]
  {
    if i > 0 {
      assert forall j | 0 <= j < i - 1 :: cs[1..][j] == cs[j + 1];
      FirstTruthyPicksFirst(cs[1..], i - 1);
    }
  }

  /** `xs.filter(Boolean)` on strings: drops every "" and keeps the order of the rest. */
  function Compact(xs: seq<string>): (r: seq<string>)
    ensures |r| <= |xs|
    ensures forall k | 0 <= k < |r| :: r[k] != ""
    ensures r == [] <==> forall i | 0 <= i < |xs| :: xs[i] == ""
    ensures IsSubsequence(r, xs)
    ensures forall v | v != "" :: multiset(r)[v] == multiset(xs)[v]
  {
    if |xs| == 0 then []
    else
      var rest := Compact(xs[1..]);
      assert xs == [xs[0]] + xs[1..];
      assert multiset(xs) == multiset{xs[0]} + multiset(xs[1..]);
      assert forall i | 1 <= i < |xs| :: xs[i] == xs[1..][i - 1];
      if xs[0] == "" then rest
      else [xs[0]] + rest
  }

  /** `a` is `b` with some elements removed, the rest in their original order. */
  predicate IsSubsequence<T(==)>(a: seq<T>, b: seq<T>)
    decreases |b|
  {
    if a == [] then true
    else if b == [] then false
    else (a[0] == b[0] && IsSubsequence(a[1..], b[1..])) || IsSubsequence(a, b[1..])
  }

  /** `xs.join(sep)`. */
  function Join(xs: seq<string>, sep: string): string {
    if |xs| == 0 then ""
    else if |xs| == 1 then xs[0]
    else xs[0] + sep + Join(xs[1..], sep)
  }

  /** The joined truthy parts are empty exactly when no part is truthy. */
  lemma JoinCompactEmpty(xs: seq<string>, sep: string)
    ensures Join(Compact(xs), sep) == "" <==> forall i | 0 <= i < |xs| :: xs[i] == ""
  {
    var c := Compact(xs);
    if |c| >= 2 {
      assert Join(c, sep) == c[0] + sep + Join(c[1..], sep);
      assert |Join(c, sep)| >= |c[0]| > 0;
    }
  }

  /** `[a, b].filter(Boolean).join(sep)` for two parts, spelled out. */
  lemma JoinTwo(a: string, b: string, sep: string)
    ensures Join(Compact([a, b]), sep) ==
      if a != "" && b != "" then a + sep + b
      else if a != "" then a
      else b
  {
    assert [a, b][1..] == [b];
    if a != "" {
      assert Compact([a, b]) == [a] + Compact([b]);
    } else {
      assert Compact([a, b]) == Compact([b]);
    }
  }

  /**
   * The characters `String.prototype.trim` removes: the ECMAScript WhiteSpace
   * production (tab, vertical tab, form feed, the byte order mark and every
   * Unicode space separator) and the LineTerminator production.
   */
  predicate IsWhitespace(c: char) {
    c == '\t' || c == '\n' || c == '\U{000B}' || c == '\U{000C}' || c == '\r' || c == ' '
    || c == '\U{00A0}' || c == '\U{1680}' || ('\U{2000}' <= c <= '\U{200A}')
    || c == '\U{2028}' || c == '\U{2029}' || c == '\U{202F}' || c == '\U{205F}'
    || c == '\U{3000}' || c == '\U{FEFF}'
  }

  /** Every character of `s` is whitespace (so `s.trim()` is ""). */
  predicate Blank(s: string) {
    forall k | 0 <= k < |s| :: IsWhitespace(s[k])
  }

  /** Joining with a blank separator gives a blank string iff every part is blank. */
  lemma {:induction false} JoinBlank(xs: seq<string>, sep: string)
    requires Blank(sep)
    ensures Blank(Join(xs, sep)) <==> forall i | 0 <= i < |xs| :: Blank(xs[i])
  {
    if |xs| >= 2 {
      JoinBlank(xs[1..], sep);
      var rest := Join(xs[1..], sep);
      var j := xs[0] + sep + rest;
      assert forall k | 0 <= k < |xs[0]| :: j[k] == xs[0][k];
      assert forall k | 0 <= k < |sep| :: j[|xs[0]| + k] == sep[k];
      assert forall k | 0 <= k < |rest| :: j[|xs[0]| + |sep| + k] == rest[k];
      assert forall i | 1 <= i < |xs| :: xs[i] == xs[1..][i - 1];
      if Blank(j) {
        assert Blank(xs[0]);
        assert Blank(rest);
      }
    }
  }

  /** Every part is blank. */
  predicate AllBlank(xs: seq<string>) {
    forall i | 0 <= i < |xs| :: Blank(xs[i])
  }

  /** Removing the empty strings does not change whether all parts are blank. */
  lemma {:induction false} CompactBlank(xs: seq<string>)
    ensures AllBlank(Compact(xs)) <==> AllBlank(xs)
  {
    if |xs| > 0 {
      CompactBlank(xs[1..]);
      var rest := Compact(xs[1..]);
      assert forall i | 1 <= i < |xs| :: xs[i] == xs[1..][i - 1];
      assert AllBlank(xs) <==> Blank(xs[0]) && AllBlank(xs[1..]);
      if xs[0] != "" {
        var c := [xs[0]] + rest;
        assert Compact(xs) == c;
        assert c[0] == xs[0];
        assert forall k | 1 <= k < |c| :: c[k] == rest[k - 1];
        assert AllBlank(c) <==> Blank(xs[0]) && AllBlank(rest);
      } else {
        assert Compact(xs) == rest && Blank(xs[0]);
      }
    }
  }

  /** `s` with its leading whitespace removed. */
  function TrimStart(s: string): (r: string)
    ensures |r| <= |s| && r == s[|s| - |r|..]
    ensures forall k | 0 <= k < |s| - |r| :: IsWhitespace(s[k])
    ensures r == "" || !IsWhitespace(r[0])
  {
    if |s| > 0 && IsWhitespace(s[0]) then
      var r := TrimStart(s[1..]);
      assert forall k | 1 <= k < |s| :: s[k] == s[1..][k - 1];
      r
    else s
  }

  /** `s` with its trailing whitespace removed. */
  function TrimEnd(s: string): (r: string)
    ensures |r| <= |s| && r == s[..|r|]
    ensures forall k | |r| <= k < |s| :: IsWhitespace(s[k])
    ensures r == "" || !IsWhitespace(r[|r| - 1])
  {
    if |s| > 0 && IsWhitespace(s[|s| - 1]) then
      var r := TrimEnd(s[..|s| - 1]);
      assert forall k | 0 <= k < |s| - 1 :: s[k] == s[..|s| - 1][k];
      r
    else s
  }

  /**
   * `s.trim()`: the result is the infix of `s` that starts after the leading
   * whitespace; only whitespace lies outside it, and it neither starts nor
   * ends with whitespace.
   */
  function Trim(s: string): (r: string)
    ensures r == "" || (!IsWhitespace(r[0]) && !IsWhitespace(r[|r| - 1]))
    ensures r == "" <==> forall k | 0 <= k < |s| :: IsWhitespace(s[k])
    ensures TrimmedAt(s, |s| - |TrimStart(s)|, r)
  {
    var t := TrimStart(s);
    TrimSplit(s, t, TrimEnd(t));
    TrimEnd(t)
  }

  /** `r` occurs in `s` at index `i`, with only whitespace before and after it. */
  predicate TrimmedAt(s: string, i: int, r: string) {
    && 0 <= i && i + |r| <= |s|
    && s[i..i + |r|] == r
    && (forall k | 0 <= k < i :: IsWhitespace(s[k]))
    && (forall k | i + |r| <= k < |s| :: IsWhitespace(s[k]))
  }

  /**
   * Removing leading whitespace (giving `t`) and then trailing whitespace
   * (giving `r`) leaves an infix of `s` surrounded by whitespace only.
   */
  lemma TrimSplit(s: string, t: string, r: string)
    requires |t| <= |s| && t == s[|s| - |t|..]
    requires forall k | 0 <= k < |s| - |t| :: IsWhitespace(s[k])
    requires t == "" || !IsWhitespace(t[0])
    requires |r| <= |t| && r == t[..|r|]
    requires forall k | |r| <= k < |t| :: IsWhitespace(t[k])
    requires r == "" || !IsWhitespace(r[|r| - 1])
    ensures r == "" || (!IsWhitespace(r[0]) && !IsWhitespace(r[|r| - 1]))
    ensures r == "" <==> forall k | 0 <= k < |s| :: IsWhitespace(s[k])
    ensures TrimmedAt(s, |s| - |t|, r)
  {
    var i := |s| - |t|;
    assert forall k | i <= k < |s| :: s[k] == t[k - i];
    if r != "" {
      assert r[0] == t[0] == s[i];
    }
  }

  /** `s.startsWith(p)`. */
  predicate StartsWith(s: string, p: string) {
    |p| <= |s| && s[..|p|] == p
  }

  /** `s.endsWith(p)`. */
  predicate EndsWith(s: string, p: string) {
    |p| <= |s| && s[|s| - |p|..] == p
  }

  /** Lower-casing of one character, restricted to ASCII letters. */
  function LowerChar(c: char): char {
    if 'A' <= c <= 'Z' then (c as int + 32) as char else c
  }

  /** `s.toLowerCase()` on the ASCII letters: length and position preserving. */
  function ToLower(s: string): (r: string)
    ensures |r| == |s|
    ensures forall k | 0 <= k < |s| :: r[k] == LowerChar(s[k])
  {
    seq(|s|, k requires 0 <= k < |s| => LowerChar(s[k]))
  }

  /** Lower-casing commutes with taking a suffix. */
  lemma ToLowerSuffix(s: string, k: nat)
    requires k <= |s|
    ensures ToLower(s)[k..] == ToLower(s[k..])
  {
  }

  function DigitChar(d: nat): char
    requires d < 10
  {
    ('0' as int + d) as char
  }

  predicate IsDigit(c: char) {
    '0' <= c <= '9'
  }

  /** The decimal digits a template literal prints for a non-negative integer. */
  function NatToDecimal(n: nat): (r: string)
    ensures |r| >= 1
    ensures forall k | 0 <= k < |r| :: IsDigit(r[k])
    ensures r[0] == '0' ==> n == 0 && r == "0"
  {
    if n < 10 then [DigitChar(n)]
    else NatToDecimal(n / 10) + [DigitChar(n % 10)]
  }

  /** The value of a string of decimal digits. */
  function DecimalValue(s: string): nat
    requires forall k | 0 <= k < |s| :: IsDigit(s[k])
  {
    if s == [] then 0
    else DecimalValue(s[..|s| - 1]) * 10 + DigitValue(s[|s| - 1])
  }

  function DigitValue(c: char): nat
    requires IsDigit(c)
  {
    c as int - '0' as int
  }

  /** Rendering a number in decimal loses nothing: reading the digits back gives it. */
  lemma {:induction false} DecimalRoundTrip(n: nat)
    ensures DecimalValue(NatToDecimal(n)) == n
  {
    if n >= 10 {
      var s := NatToDecimal(n);
      assert s[..|s| - 1] == NatToDecimal(n / 10);
      DecimalRoundTrip(n / 10);
    }
  }
}
