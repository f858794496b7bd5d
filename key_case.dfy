/** The two key spellings of the API client (frontend/src/lib/api/client.ts):
    `camelToSnake` turns every ASCII capital into `_` and its lower-case
    letter; `snakeToCamel` turns every `_` followed by an ASCII lower-case
    letter into that letter in upper case, scanning left to right as a
    global regular-expression replace does. */
module KeyCase {
  import opened Text

  /** No ASCII capital anywhere: the shape of every wire key. */
  predicate NoUpper(s: string)
  {
    forall i :: 0 <= i < |s| ==> !IsUpper(s[i])
  }

  /** No `_` directly followed by an ASCII lower-case letter: the keys
      that `snakeToCamel` leaves alone. */
  predicate NoSnakeBoundary(s: string)
  {
    forall i :: 0 <= i < |s| - 1 ==> !(s[i] == '_' && IsLower(s[i + 1]))
  }

  /** `str.replace(/[A-Z]/g, (letter) => '_' + letter.toLowerCase())`.
      A capital in first position is rewritten too. */
  function CamelToSnake(s: string): (r: string)
    ensures NoUpper(r)
    ensures s != [] ==> r != [] && r[0] == (if IsUpper(s[0]) then '_' else s[0])
  {
    if s == [] then []
    else (if IsUpper(s[0]) then ['_', ToLower(s[0])] else [s[0]]) + CamelToSnake(s[1..])
  }

  /** `str.replace(/_([a-z])/g, (_, letter) => letter.toUpperCase())`. */
  function SnakeToCamel(s: string): (r: string)
    ensures NoSnakeBoundary(r)
    ensures s != [] ==> r != [] && (IsLower(r[0]) <==> IsLower(s[0]))
    decreases |s|
  {
    if |s| >= 2 && s[0] == '_' && IsLower(s[1]) then
      [ToUpper(s[1])] + SnakeToCamel(s[2..])
    else if s == [] then []
    else
      var t := SnakeToCamel(s[1..]);
      var r := [s[0]] + t;
      assert s[0] == '_' && |s| >= 2 ==> !IsLower(r[1]);
      r
  }

  /** The rewrite works character by character: it distributes over
      concatenation, and a single character becomes `_x` for an ASCII
      capital `X` and stays itself otherwise. */
  lemma {:induction false} CamelToSnakeAppend(a: string, b: string)
    ensures CamelToSnake(a + b) == CamelToSnake(a) + CamelToSnake(b)
  {
    if a == [] {
      assert a + b == b;
    } else {
      assert (a + b)[0] == a[0];
      assert (a + b)[1..] == a[1..] + b;
      CamelToSnakeAppend(a[1..], b);
    }
  }

  lemma CamelToSnakeChar(c: char)
    ensures CamelToSnake([c]) == if IsUpper(c) then ['_', ToLower(c)] else [c]
  {
    assert [c][1..] == [];
  }

  /** `snakeToCamel` distributes over a split that does not fall right
      after an `_`. */
  lemma {:induction false} SnakeToCamelAppend(a: string, b: string)
    requires a == [] || a[|a| - 1] != '_'
    ensures SnakeToCamel(a + b) == SnakeToCamel(a) + SnakeToCamel(b)
    decreases |a|
  {
    if a == [] {
      assert a + b == b;
    } else if |a| >= 2 && a[0] == '_' && IsLower(a[1]) {
      assert (a + b)[2..] == a[2..] + b;
      SnakeToCamelAppend(a[2..], b);
      assert SnakeToCamel(a + b) == [ToUpper(a[1])] + SnakeToCamel(a[2..] + b);
      assert SnakeToCamel(a) == [ToUpper(a[1])] + SnakeToCamel(a[2..]);
      Regroup([ToUpper(a[1])], SnakeToCamel(a[2..]), SnakeToCamel(b));
    } else {
      assert (a + b)[1..] == a[1..] + b;
      assert (a + b)[0] == a[0];
      if |a| >= 2 {
        assert (a + b)[1] == a[1];
      }
      SnakeToCamelAppend(a[1..], b);
      assert SnakeToCamel(a + b) == [a[0]] + SnakeToCamel(a[1..] + b);
      assert SnakeToCamel(a) == [a[0]] + SnakeToCamel(a[1..]);
      Regroup([a[0]], SnakeToCamel(a[1..]), SnakeToCamel(b));
    }
  }

  lemma Regroup(x: string, y: string, z: string)
    ensures x + (y + z) == x + y + z
  {
  }

  /** A key without capitals is already in wire spelling. */
  lemma {:induction false} CamelToSnakeKeepsWireKey(s: string)
    requires NoUpper(s)
    ensures CamelToSnake(s) == s
  {
    if s != [] {
      CamelToSnakeKeepsWireKey(s[1..]);
    }
  }

  /** A key with one capital `u` between two wire keys gets one `_`. */
  lemma CamelToSnakeOneCapital(a: string, u: char, c: string)
    requires NoUpper(a) && IsUpper(u) && NoUpper(c)
    ensures CamelToSnake(a + [u] + c) == a + ['_', ToLower(u)] + c
  {
    CamelToSnakeAppend(a + [u], c);
    CamelToSnakeAppend(a, [u]);
    CamelToSnakeKeepsWireKey(a);
    CamelToSnakeKeepsWireKey(c);
    CamelToSnakeChar(u);
  }

  /** A key with one `_` boundary between two caller keys loses that `_`. */
  lemma SnakeToCamelOneBoundary(a: string, l: char, c: string)
    requires NoSnakeBoundary(a) && (a == [] || a[|a| - 1] != '_')
    requires IsLower(l) && NoSnakeBoundary(c)
    ensures SnakeToCamel(a + ['_', l] + c) == a + [ToUpper(l)] + c
  {
    var b := ['_', l] + c;
    calc {
      SnakeToCamel(a + ['_', l] + c);
      { assert a + ['_', l] + c == a + b; }
      SnakeToCamel(a + b);
      { SnakeToCamelAppend(a, b); }
      SnakeToCamel(a) + SnakeToCamel(b);
      { SnakeToCamelKeepsCallerKey(a); BoundaryHead(l, c); }
      a + ([ToUpper(l)] + SnakeToCamel(c));
      { SnakeToCamelKeepsCallerKey(c); }
      a + ([ToUpper(l)] + c);
      { Regroup(a, [ToUpper(l)], c); }
      a + [ToUpper(l)] + c;
    }
  }

  lemma BoundaryHead(l: char, c: string)
    requires IsLower(l)
    ensures SnakeToCamel(['_', l] + c) == [ToUpper(l)] + SnakeToCamel(c)
  {
    var b := ['_', l] + c;
    assert b[0] == '_' && b[1] == l && b[2..] == c;
  }

  lemma CamelToSnakeIdempotent(s: string)
    ensures CamelToSnake(CamelToSnake(s)) == CamelToSnake(s)
  {
    CamelToSnakeKeepsWireKey(CamelToSnake(s));
  }

  /** A key without a snake boundary is already in caller spelling. */
  lemma {:induction false} SnakeToCamelKeepsCallerKey(s: string)
    requires NoSnakeBoundary(s)
    ensures SnakeToCamel(s) == s
  {
    if s != [] {
      SnakeToCamelKeepsCallerKey(s[1..]);
    }
  }

  lemma SnakeToCamelIdempotent(s: string)
    ensures SnakeToCamel(SnakeToCamel(s)) == SnakeToCamel(s)
  {
    SnakeToCamelKeepsCallerKey(SnakeToCamel(s));
  }

  /** Caller spelling survives a trip over the wire: converting to snake
      case and back gives the key back, for every key in which no `_` is
      directly followed by a lower-case letter. */
  lemma {:induction false} CallerKeyRoundTrip(k: string)
    requires NoSnakeBoundary(k)
    ensures SnakeToCamel(CamelToSnake(k)) == k
  {
    if k != [] {
      var rest := CamelToSnake(k[1..]);
      CallerKeyRoundTrip(k[1..]);
      if IsUpper(k[0]) {
        assert CamelToSnake(k) == ['_', ToLower(k[0])] + rest;
        assert (['_', ToLower(k[0])] + rest)[2..] == rest;
      } else {
        assert CamelToSnake(k) == [k[0]] + rest;
        if k[0] == '_' && |k| >= 2 {
          assert !IsLower(k[1]);
          assert !IsLower(rest[0]);
        }
        assert ([k[0]] + rest)[1..] == rest;
      }
    }
  }

  /** Wire spelling survives the trip the other way: converting a key
      without capitals to camel case and back gives the key back. */
  lemma {:induction false} WireKeyRoundTrip(w: string)
    requires NoUpper(w)
    ensures CamelToSnake(SnakeToCamel(w)) == w
    decreases |w|
  {
    if |w| >= 2 && w[0] == '_' && IsLower(w[1]) {
      WireKeyRoundTrip(w[2..]);
      var t := SnakeToCamel(w[2..]);
      assert SnakeToCamel(w) == [ToUpper(w[1])] + t;
      CamelToSnakeAppend([ToUpper(w[1])], t);
      CamelToSnakeChar(ToUpper(w[1]));
      assert w == [w[0], w[1]] + w[2..];
    } else if w != [] {
      WireKeyRoundTrip(w[1..]);
      var t := SnakeToCamel(w[1..]);
      CamelToSnakeAppend([w[0]], t);
      CamelToSnakeChar(w[0]);
      assert w == [w[0]] + w[1..];
    }
  }

  /** On the keys it leaves intact in the round trip, `camelToSnake` is
      injective, so converting an object never merges two of them. */
  lemma CamelToSnakeInjective(a: string, b: string)
    requires NoSnakeBoundary(a) && NoSnakeBoundary(b)
    requires CamelToSnake(a) == CamelToSnake(b)
    ensures a == b
  {
    CallerKeyRoundTrip(a);
    CallerKeyRoundTrip(b);
  }
}
