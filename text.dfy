/**
 * The handful of JavaScript string operations the tracking pages rely on,
 * written out over `seq<char>`: `split` on a set of separator characters,
 * `padStart`, `trim`, `toLowerCase` (the capitals of the Latin, Greek and
 * Cyrillic blocks, character by character), `startsWith` and `includes`.
 */
module Text {

  /** `s.startsWith(p)` */
  predicate HasPrefix(s: string, p: string)
  {
    |p| <= |s| && s[..|p|] == p
  }

  /** `s.includes(sub)`: some position of `s` starts a copy of `sub`. */
  predicate Contains(s: string, sub: string)
    decreases |s|
  {
    HasPrefix(s, sub) || (s != [] && Contains(s[1..], sub))
  }

  /** No character of `s` is one of `seps`. */
  predicate Avoids(s: string, seps: set<char>)
  {
    forall k :: 0 <= k < |s| ==> s[k] !in seps
  }

  /**
   * `s.split(sep)` where `sep` matches exactly one character of `seps`
   * (a one-character string or a character class such as `/[/-]/`):
   * the empty string splits into one empty part, and a separator at either
   * end yields an empty first or last part.
   */
  function Split(s: string, seps: set<char>): (parts: seq<string>)
    ensures |parts| >= 1
    decreases |s|
  {
    if s == [] then [""]
    else
      var rest := Split(s[1..], seps);
      if s[0] in seps then [""] + rest
      else [[s[0]] + rest[0]] + rest[1..]
  }

  lemma AvoidsConcat(a: string, b: string, seps: set<char>)
    ensures Avoids(a + b, seps) <==> Avoids(a, seps) && Avoids(b, seps)
  {
    if Avoids(a + b, seps) {
      forall k | 0 <= k < |a|
        ensures a[k] !in seps
      {
        assert (a + b)[k] == a[k];
      }
      forall k | 0 <= k < |b|
        ensures b[k] !in seps
      {
        assert (a + b)[|a| + k] == b[k];
      }
    }
  }

  lemma {:induction false} SplitAvoiding(s: string, seps: set<char>)
    requires Avoids(s, seps)
    ensures Split(s, seps) == [s]
    decreases |s|
  {
    if s != [] {
      SplitAvoiding(s[1..], seps);
      assert [s[0]] + s[1..] == s;
    }
  }

  /** Splitting `a + [c] + b` at its first separator `c`. */
  lemma {:induction false} SplitAtFirst(a: string, c: char, b: string, seps: set<char>)
    requires Avoids(a, seps) && c in seps
    ensures Split(a + [c] + b, seps) == [a] + Split(b, seps)
    decreases |a|
  {
    if a == [] {
      assert a + [c] + b == [c] + b;
      assert ([c] + b)[1..] == b;
    } else {
      var s := a + [c] + b;
      assert s[0] == a[0];
      assert s[1..] == a[1..] + [c] + b;
      SplitAtFirst(a[1..], c, b, seps);
      assert [a[0]] + a[1..] == a;
    }
  }

  /** No part of a split contains a separator. */
  lemma {:induction false} SplitPartsAvoid(s: string, seps: set<char>)
    ensures forall i :: 0 <= i < |Split(s, seps)| ==> Avoids(Split(s, seps)[i], seps)
    decreases |s|
  {
    if s != [] {
      SplitPartsAvoid(s[1..], seps);
    }
  }

  /** The split only depends on which characters of `s` are separators. */
  lemma {:induction false} SplitSameSeparators(s: string, seps1: set<char>, seps2: set<char>)
    requires forall k :: 0 <= k < |s| ==> (s[k] in seps1 <==> s[k] in seps2)
    ensures Split(s, seps1) == Split(s, seps2)
    decreases |s|
  {
    if s != [] {
      SplitSameSeparators(s[1..], seps1, seps2);
    }
  }

  function Repeat(c: char, n: nat): (r: string)
    ensures |r| == n && forall k :: 0 <= k < n ==> r[k] == c
  {
    seq(n, _ => c)
  }

  /** `s.padStart(n, c)` with a one-character pad. */
  function PadStart(s: string, n: nat, c: char): (r: string)
    ensures |r| == if |s| >= n then |s| else n
    ensures r[|r| - |s|..] == s
    ensures forall k :: 0 <= k < |r| - |s| ==> r[k] == c
  {
    if |s| >= n then s else Repeat(c, n - |s|) + s
  }

  lemma PadStartAvoids(s: string, n: nat, c: char, seps: set<char>)
    requires Avoids(s, seps) && c !in seps
    ensures Avoids(PadStart(s, n, c), seps)
  {
    var r := PadStart(s, n, c);
    forall k | 0 <= k < |r|
      ensures r[k] !in seps
    {
      if k >= |r| - |s| {
        assert r[k] == r[|r| - |s|..][k - (|r| - |s|)];
      }
    }
  }

  /**
   * The characters `String.prototype.trim` removes: the ECMAScript
   * WhiteSpace and LineTerminator code points.
   */
  predicate IsWhitespace(c: char)
  {
    c == '\t' || c == '\n' || c == '\U{000B}' || c == '\U{000C}' || c == '\r' || c == ' '
    || c == '\U{00A0}' || c == '\U{1680}' || ('\U{2000}' <= c <= '\U{200A}')
    || c == '\U{2028}' || c == '\U{2029}' || c == '\U{202F}' || c == '\U{205F}'
    || c == '\U{3000}' || c == '\U{FEFF}'
  }

  function TrimStart(s: string): (r: string)
    ensures |r| <= |s| && r == s[|s| - |r|..]
    ensures forall k :: 0 <= k < |s| - |r| ==> IsWhitespace(s[k])
    ensures r == [] || !IsWhitespace(r[0])
    decreases |s|
  {
    if s != [] && IsWhitespace(s[0]) then TrimStart(s[1..]) else s
  }

  function TrimEnd(s: string): (r: string)
    ensures |r| <= |s| && r == s[..|r|]
    ensures forall k :: |r| <= k < |s| ==> IsWhitespace(s[k])
    ensures r == [] || !IsWhitespace(r[|r| - 1])
    decreases |s|
  {
    if s != [] && IsWhitespace(s[|s| - 1]) then TrimEnd(s[..|s| - 1]) else s
  }

  /** `s.trim()` */
  function Trim(s: string): (r: string)
    ensures |r| <= |s|
  {
    TrimEnd(TrimStart(s))
  }

  /** What `trim` returns neither starts nor ends with whitespace. */
  lemma TrimStripsEnds(s: string)
    ensures var r := Trim(s); r == [] || (!IsWhitespace(r[0]) && !IsWhitespace(r[|r| - 1]))
  {
    TrimEndOfTrimmedStart(TrimStart(s));
  }

  lemma {:induction false} TrimStartKeeps(s: string)
    requires s == [] || !IsWhitespace(s[0])
    ensures TrimStart(s) == s
  {
  }

  lemma {:induction false} TrimEndOfTrimmedStart(s: string)
    requires s == [] || !IsWhitespace(s[0])
    ensures TrimEnd(s) == [] || !IsWhitespace(TrimEnd(s)[0])
  {
    var r := TrimEnd(s);
    if r != [] {
      assert r[0] == s[0];
    }
  }

  /** Trimming twice is trimming once. */
  lemma {:induction false} TrimIdempotent(s: string)
    ensures Trim(Trim(s)) == Trim(s)
  {
    var t := Trim(s);
    TrimEndOfTrimmedStart(TrimStart(s));
    assert TrimStart(t) == t;
    assert TrimEnd(t) == t;
  }

  /**
   * `toLowerCase` on one character, for the capitals whose lower case is a
   * single character at a fixed distance: ASCII and Latin-1 letters, Greek
   * and basic Cyrillic, and the Kelvin, Ohm and Angstrom signs, which fold
   * to the letters they look like.
   */
  function LowerChar(c: char): (d: char)
    ensures d == c || IsUpper(c)
    ensures !IsUpper(d)
  {
    if 'A' <= c <= 'Z' || ('\U{00C0}' <= c <= '\U{00DE}' && c != '\U{00D7}') then (c as int + 0x20) as char
    else if '\U{0391}' <= c <= '\U{03AB}' && c != '\U{03A2}' then (c as int + 0x20) as char
    else if '\U{0410}' <= c <= '\U{042F}' then (c as int + 0x20) as char
    else if '\U{0400}' <= c <= '\U{040F}' then (c as int + 0x50) as char
    else if c == '\U{212A}' then 'k'
    else if c == '\U{2126}' then '\U{03C9}'
    else if c == '\U{212B}' then '\U{00E5}'
    else c
  }

  /** The capitals `LowerChar` folds. */
  predicate IsUpper(c: char)
  {
    || 'A' <= c <= 'Z' || ('\U{00C0}' <= c <= '\U{00DE}' && c != '\U{00D7}')
    || ('\U{0391}' <= c <= '\U{03AB}' && c != '\U{03A2}')
    || '\U{0400}' <= c <= '\U{042F}'
    || c == '\U{212A}' || c == '\U{2126}' || c == '\U{212B}'
  }

  function ToLower(s: string): (r: string)
    ensures |r| == |s| && forall k :: 0 <= k < |s| ==> r[k] == LowerChar(s[k])
  {
    seq(|s|, k requires 0 <= k < |s| => LowerChar(s[k]))
  }

  /** Lower-casing twice is lower-casing once. */
  lemma ToLowerIdempotent(s: string)
    ensures ToLower(ToLower(s)) == ToLower(s)
  {
  }
}
