/** Character and string primitives shared by the whole model: the ASCII
    case tests and conversions of the regular expressions and of
    `toLowerCase`, JavaScript's `startsWith`, `includes`, `trim`, `join`,
    UTF-16 `length`, and decimal rendering of integers. */
module Text {

  predicate IsUpper(c: char) { 'A' <= c <= 'Z' }

  predicate IsLower(c: char) { 'a' <= c <= 'z' }

  function ToLower(c: char): (r: char)
    ensures IsUpper(c) ==> IsLower(r) && r as int == c as int + 32
    ensures !IsUpper(c) ==> r == c
  {
    if IsUpper(c) then (c as int + 32) as char else c
  }

  function ToUpper(c: char): (r: char)
    ensures IsLower(c) ==> IsUpper(r) && r as int == c as int - 32
    ensures !IsLower(c) ==> r == c
  {
    if IsLower(c) then (c as int - 32) as char else c
  }

  /** `toLowerCase`, restricted to the ASCII letters. */
  function Lower(s: string): (r: string)
    ensures |r| == |s|
    ensures forall i :: 0 <= i < |s| ==> r[i] == ToLower(s[i])
  {
    seq(|s|, i requires 0 <= i < |s| => ToLower(s[i]))
  }

  /** Case-insensitive equality as the catalog code writes it:
      `a.toLowerCase() === b.toLowerCase()`. */
  predicate EqualsIgnoreCase(a: string, b: string)
  {
    Lower(a) == Lower(b)
  }

  predicate StartsWith(s: string, prefix: string)
  {
    |prefix| <= |s| && s[..|prefix|] == prefix
  }

  /** A text cannot start with a prefix it differs from at index `i`. */
  /** Both texts start with `p`: they agree on a longer prefix exactly
      when what follows `p` does. */
  lemma StartsWithJoined(p: string, d: string, e: string)
    ensures StartsWith(p + d, p + e) <==> StartsWith(d, e)
  {
    if |e| <= |d| {
      assert (p + d)[..|p + e|] == p + d[..|e|];
      if (p + d)[..|p + e|] == p + e {
        assert (p + d[..|e|])[|p|..] == d[..|e|];
        assert (p + e)[|p|..] == e;
      }
    }
  }

  /** A text that starts with `p + e` starts with `p`. */
  lemma StartsWithLonger(s: string, p: string, e: string)
    ensures StartsWith(s, p + e) ==> StartsWith(s, p)
  {
    if StartsWith(s, p + e) {
      assert s[..|p|] == s[..|p + e|][..|p|];
      assert (p + e)[..|p|] == p;
    }
  }

  lemma LabelMismatch(line: string, prefix: string, i: nat)
    requires i < |prefix| && (i >= |line| || line[i] != prefix[i])
    ensures !StartsWith(line, prefix)
  {
    if |prefix| <= |line| {
      assert line[..|prefix|][i] != prefix[i];
    }
  }

  predicate OccursAt(s: string, sub: string, i: nat)
  {
    i + |sub| <= |s| && s[i..i + |sub|] == sub
  }

  /** Where `sub` occurs, each of its characters is found at its offset. */
  lemma OccursAtChar(s: string, a: string, p: nat, d: nat)
    requires d < |a|
    ensures OccursAt(s, a, p) ==> s[p + d] == a[d]
  {
    if OccursAt(s, a, p) {
      assert s[p..p + |a|][d] == s[p + d];
    }
  }

  /** Past the end of `p`, the occurrences in `p + c` are those in `c`. */
  lemma OccursInSuffix(p: string, c: string, sub: string, i: nat)
    requires |p| <= i
    ensures OccursAt(p + c, sub, i) <==> OccursAt(c, sub, i - |p|)
  {
    if i + |sub| <= |p| + |c| {
      assert (p + c)[i..i + |sub|] == c[i - |p|..i - |p| + |sub|];
    }
  }

  /** `s.includes(sub)`; the empty string occurs in every string. */
  predicate Contains(s: string, sub: string)
  {
    exists i: nat :: i <= |s| && OccursAt(s, sub, i)
  }

  lemma EmptyOccursEverywhere(s: string)
    ensures Contains(s, "")
  {
    assert OccursAt(s, "", 0);
  }

  /** The characters that `String.prototype.trim` removes: the
      ECMAScript WhiteSpace and LineTerminator code points. */
  predicate IsJsWhitespace(c: char)
  {
    || c == ' ' || c == '\t' || c == '\n' || c == '\r'
    || c == '\U{000B}' || c == '\U{000C}' || c == '\U{00A0}' || c == '\U{FEFF}'
    || c == '\U{1680}' || ('\U{2000}' <= c <= '\U{200A}')
    || c == '\U{2028}' || c == '\U{2029}' || c == '\U{202F}' || c == '\U{205F}'
    || c == '\U{3000}'
  }

  function TrimStart(s: string): (r: string)
    ensures |r| <= |s| && r == s[|s| - |r|..]
    ensures r != [] ==> !IsJsWhitespace(r[0])
    ensures forall i :: 0 <= i < |s| - |r| ==> IsJsWhitespace(s[i])
  {
    if s != [] && IsJsWhitespace(s[0]) then
      var r := TrimStart(s[1..]);
      assert forall i :: 1 <= i < |s| - |r| ==> s[i] == s[1..][i - 1];
      r
    else s
  }

  function TrimEnd(s: string): (r: string)
    ensures |r| <= |s| && r == s[..|r|]
    ensures r != [] ==> !IsJsWhitespace(r[|r| - 1])
    ensures forall i :: |r| <= i < |s| ==> IsJsWhitespace(s[i])
  {
    if s != [] && IsJsWhitespace(s[|s| - 1]) then
      var r := TrimEnd(s[..|s| - 1]);
      assert forall i :: |r| <= i < |s| - 1 ==> s[i] == s[..|s| - 1][i];
      r
    else s
  }

  /** `s.trim()`: the longest slice of `s` that neither begins nor ends
      with whitespace. */
  function Trim(s: string): (r: string)
    ensures |r| <= |s|
    ensures Contains(s, r)
    ensures r != [] ==> !IsJsWhitespace(r[0]) && !IsJsWhitespace(r[|r| - 1])
    ensures r == [] <==> forall i :: 0 <= i < |s| ==> IsJsWhitespace(s[i])
  {
    var t := TrimStart(s);
    var r := TrimEnd(t);
    TrimmedOccurs(s, t, r);
    TrimmedEmpty(s, t, r);
    r
  }

  /** A prefix of a suffix of `s` occurs in `s`. */
  lemma TrimmedOccurs(s: string, t: string, r: string)
    requires |t| <= |s| && t == s[|s| - |t|..]
    requires |r| <= |t| && r == t[..|r|]
    ensures Contains(s, r)
  {
    SliceOfSuffix(s, |s| - |t|, |r|);
    assert OccursAt(s, r, |s| - |t|);
  }

  lemma SliceOfSuffix(s: string, a: nat, n: nat)
    requires a + n <= |s|
    ensures s[a..][..n] == s[a..a + n]
  {
    forall k | 0 <= k < n ensures s[a..][..n][k] == s[a..a + n][k] {
      assert s[a..][..n][k] == s[a + k];
    }
  }

  lemma TrimmedEmpty(s: string, t: string, r: string)
    requires t == TrimStart(s) && r == TrimEnd(t)
    ensures r == [] <==> forall i :: 0 <= i < |s| ==> IsJsWhitespace(s[i])
  {
    if r == [] {
      assert t == [];
    }
  }

  /** The JavaScript `length` of a string: the number of UTF-16 code
      units, two for every code point outside the Basic Multilingual
      Plane. */
  function Utf16Length(s: string): (n: nat)
    ensures |s| <= n <= 2 * |s|
  {
    if s == [] then 0
    else (if s[0] as int > 0xFFFF then 2 else 1) + Utf16Length(s[1..])
  }

  /** `parts.join(sep)`. */
  function Join(parts: seq<string>, sep: string): (r: string)
  {
    if |parts| == 0 then ""
    else if |parts| == 1 then parts[0]
    else parts[0] + sep + Join(parts[1..], sep)
  }

  /** The concatenation of a sequence of strings. */
  function Concat(parts: seq<string>): (r: string)
  {
    if parts == [] then "" else parts[0] + Concat(parts[1..])
  }

  lemma {:induction false} ConcatAppend(a: seq<string>, b: seq<string>)
    ensures Concat(a + b) == Concat(a) + Concat(b)
  {
    if a == [] {
      assert a + b == b;
    } else {
      assert (a + b)[1..] == a[1..] + b;
      ConcatAppend(a[1..], b);
    }
  }

  function DigitChar(d: nat): (c: char)
    requires d < 10
    ensures '0' <= c <= '9'
  {
    ('0' as int + d) as char
  }

  function NatToString(n: nat): (r: string)
    ensures r != []
    ensures forall i :: 0 <= i < |r| ==> '0' <= r[i] <= '9'
  {
    if n < 10 then [DigitChar(n)] else NatToString(n / 10) + [DigitChar(n % 10)]
  }

  /** The decimal rendering JavaScript gives an integral number in a
      template literal. */
  function IntToString(n: int): (r: string)
    ensures r != []
    ensures n < 0 <==> r[0] == '-'
  {
    if n < 0 then "-" + NatToString(-n) else NatToString(n)
  }
}
