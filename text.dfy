/**
 * String helpers the product schema, the query builder and the router rely on:
 * JavaScript-style trimming, ASCII case mapping, case-insensitive containment,
 * `String.prototype.split` on one separator character, and the binary
 * (code-point) ordering the store uses to sort strings.
 */
module Text {

  /** The whitespace characters `String.prototype.trim` removes (the ASCII ones plus
      no-break space, the line and paragraph separators and the byte-order mark). */
  predicate IsSpace(c: char) {
    c == ' ' || c == '\t' || c == '\n' || c == '\r' || c == '\U{000B}' || c == '\U{000C}'
    || c == '\U{00A0}' || c == '\U{2028}' || c == '\U{2029}' || c == '\U{FEFF}'
  }

  /** Neither starts nor ends with whitespace: a string as a `trim` leaves it. */
  predicate Trimmed(s: string) {
    s == [] || (!IsSpace(s[0]) && !IsSpace(s[|s| - 1]))
  }

  /** How many whitespace characters `s` starts with. */
  function LeadingSpaces(s: string): (n: nat)
    ensures n <= |s|
    ensures forall i :: 0 <= i < n ==> IsSpace(s[i])
    ensures n == |s| || !IsSpace(s[n])
  {
    if s != [] && IsSpace(s[0]) then 1 + LeadingSpaces(s[1..]) else 0
  }

  /** How many whitespace characters `s` ends with. */
  function TrailingSpaces(s: string): (n: nat)
    ensures n <= |s|
    ensures forall i :: |s| - n <= i < |s| ==> IsSpace(s[i])
    ensures n == |s| || !IsSpace(s[|s| - n - 1])
  {
    if s != [] && IsSpace(s[|s| - 1]) then 1 + TrailingSpaces(s[..|s| - 1]) else 0
  }

  /** Drops the leading whitespace. */
  function TrimStart(s: string): (r: string)
    ensures r == [] || !IsSpace(r[0])
  {
    s[LeadingSpaces(s)..]
  }

  /** Drops the trailing whitespace. */
  function TrimEnd(s: string): (r: string)
    ensures r == [] || !IsSpace(r[|r| - 1])
  {
    s[..|s| - TrailingSpaces(s)]
  }

  /** A character outside the Basic Multilingual Plane, which JavaScript stores as a
      surrogate pair. */
  predicate IsAstral(c: char) {
    c as int > 0xFFFF
  }

  /** An astral character is no whitespace, so a string of them is left as it is by `trim`. */
  lemma AstralTrimmed(s: string)
    requires forall i :: 0 <= i < |s| ==> IsAstral(s[i])
    ensures Trimmed(s)
  {
    if s != [] {
      assert IsAstral(s[0]) && IsAstral(s[|s| - 1]);
    }
  }

  /** JavaScript's `length`: the number of UTF-16 code units, two for an astral character. */
  function Utf16Length(s: string): (n: nat)
    ensures |s| <= n <= 2 * |s|
  {
    if s == [] then 0 else (if IsAstral(s[0]) then 2 else 1) + Utf16Length(s[1..])
  }

  /** Without astral characters the UTF-16 length is the character count; with only
      astral characters it is twice that. */
  lemma {:induction false} Utf16LengthPlanes(s: string)
    ensures (forall i :: 0 <= i < |s| ==> !IsAstral(s[i])) ==> Utf16Length(s) == |s|
    ensures (forall i :: 0 <= i < |s| ==> IsAstral(s[i])) ==> Utf16Length(s) == 2 * |s|
  {
    if s != [] {
      Utf16LengthPlanes(s[1..]);
      assert forall i :: 0 <= i < |s[1..]| ==> s[1..][i] == s[i + 1];
    }
  }

  /** `trim()`: no space at either end (`TrimIsSlice` shows it is a piece of `s`). */
  function Trim(s: string): (r: string)
    ensures |r| <= |s|
    ensures Trimmed(r)
  {
    TrimEnd(TrimStart(s))
  }

  /** `r` is the piece of `s` that starts at `k`, and all of `s` around it is whitespace. */
  predicate PaddedPiece(s: string, k: nat, r: string) {
    && k + |r| <= |s| && r == s[k..k + |r|]
    && (forall i :: 0 <= i < k ==> IsSpace(s[i]))
    && (forall i :: k + |r| <= i < |s| ==> IsSpace(s[i]))
  }

  /** The trimmed string is the piece of `s` left once the leading and trailing spaces
      are cut off. */
  lemma TrimIsSlice(s: string)
    ensures PaddedPiece(s, LeadingSpaces(s), Trim(s))
  {
    var k := LeadingSpaces(s);
    var t := TrimStart(s);
    var r := Trim(s);
    var m := |t| - TrailingSpaces(t);
    assert t == s[k..] && r == t[..m];
    SliceOfSlice(s, k, t, r);
    forall i | k + m <= i < |s|
      ensures IsSpace(s[i])
    {
      var j := i - k;
      assert m <= j < |t| && IsSpace(t[j]);
    }
  }

  /** A prefix of a suffix is a middle piece. */
  lemma SliceOfSlice<T>(s: seq<T>, k: nat, t: seq<T>, r: seq<T>)
    requires k <= |s| && t == s[k..] && |r| <= |t| && r == t[..|r|]
    ensures k + |r| <= |s| && r == s[k..k + |r|]
  {
  }

  /** A string that neither starts nor ends with a space is its own trim. */
  lemma TrimOfTrimmed(s: string)
    requires Trimmed(s)
    ensures Trim(s) == s
  {
  }

  /** Trimming twice is trimming once (express-validator trims, then the schema trims again). */
  lemma TrimIdempotent(s: string)
    ensures Trim(Trim(s)) == Trim(s)
  {
    TrimOfTrimmed(Trim(s));
  }

  function UpperChar(c: char): char {
    if 'a' <= c <= 'z' then (c as int - 32) as char else c
  }

  function LowerChar(c: char): char {
    if 'A' <= c <= 'Z' then (c as int + 32) as char else c
  }

  /** `toUpperCase()` restricted to ASCII letters. */
  function Upper(s: string): (r: string)
    ensures |r| == |s|
    ensures forall i :: 0 <= i < |s| ==> r[i] == UpperChar(s[i])
  {
    seq(|s|, i requires 0 <= i < |s| => UpperChar(s[i]))
  }

  /** `toLowerCase()` restricted to ASCII letters. */
  function Lower(s: string): (r: string)
    ensures |r| == |s|
    ensures forall i :: 0 <= i < |s| ==> r[i] == LowerChar(s[i])
  {
    seq(|s|, i requires 0 <= i < |s| => LowerChar(s[i]))
  }

  /** Case-insensitive substring containment: what a case-insensitive pattern match of a
      plain word amounts to. */
  predicate ContainsIgnoreCase(hay: string, needle: string) {
    exists i :: 0 <= i <= |hay| && OccursAt(hay, needle, i)
  }

  predicate OccursAt(hay: string, needle: string, i: int) {
    0 <= i <= |hay| - |needle| && Lower(hay)[i..i + |needle|] == Lower(needle)
  }

  /** `s.split(sep)`: always at least one part, no part holds `sep`. */
  function Split(s: string, sep: char): (parts: seq<string>)
    ensures |parts| >= 1
    ensures forall i :: 0 <= i < |parts| ==> sep !in parts[i]
  {
    if s == [] then [""]
    else
      var rest := Split(s[1..], sep);
      if s[0] == sep then [""] + rest
      else [[s[0]] + rest[0]] + rest[1..]
  }

  /** `parts.join(sep)`, the inverse of `Split`. */
  function Join(parts: seq<string>, sep: char): string
    requires |parts| >= 1
  {
    if |parts| == 1 then parts[0] else parts[0] + [sep] + Join(parts[1..], sep)
  }

  /** Splitting loses nothing: joining the parts back gives the original string. */
  lemma {:induction false} JoinSplit(s: string, sep: char)
    ensures Join(Split(s, sep), sep) == s
  {
    if s != [] {
      JoinSplit(s[1..], sep);
      var rest := Split(s[1..], sep);
      if s[0] == sep {
        assert Split(s, sep)[1..] == rest;
      } else {
        var parts := Split(s, sep);
        if |rest| == 1 {
          assert parts == [[s[0]] + rest[0]];
        } else {
          assert parts[1..] == rest[1..];
          assert Join(rest, sep) == rest[0] + [sep] + Join(rest[1..], sep);
        }
      }
    }
  }

  /** Splitting a string free of `sep` yields that string alone. */
  lemma {:induction false} SplitWithoutSeparator(s: string, sep: char)
    requires sep !in s
    ensures Split(s, sep) == [s]
  {
    if s != [] {
      SplitWithoutSeparator(s[1..], sep);
      assert [s[0]] + s[1..] == s;
    }
  }

  /** Splitting `a + [sep] + b` where `a` holds no separator puts `a` first. */
  lemma {:induction false} SplitAtFirstSeparator(a: string, b: string, sep: char)
    requires sep !in a
    ensures Split(a + [sep] + b, sep) == [a] + Split(b, sep)
  {
    if a == [] {
      assert ([] + [sep] + b)[1..] == b;
    } else {
      assert (a + [sep] + b)[1..] == a[1..] + [sep] + b;
      SplitAtFirstSeparator(a[1..], b, sep);
      assert [a[0]] + a[1..] == a;
    }
  }

  /** Joining parts that hold no separator and splitting again gives the parts back. */
  lemma {:induction false} SplitJoin(parts: seq<string>, sep: char)
    requires |parts| >= 1
    requires forall i :: 0 <= i < |parts| ==> sep !in parts[i]
    ensures Split(Join(parts, sep), sep) == parts
  {
    if |parts| == 1 {
      SplitWithoutSeparator(parts[0], sep);
    } else {
      SplitJoin(parts[1..], sep);
      SplitAtFirstSeparator(parts[0], Join(parts[1..], sep), sep);
      assert [parts[0]] + parts[1..] == parts;
    }
  }

  /** Binary comparison of two strings, code point by code point: -1, 0 or 1. */
  function StrCmp(s: string, t: string): int {
    if s == [] && t == [] then 0
    else if s == [] then -1
    else if t == [] then 1
    else if s[0] < t[0] then -1
    else if s[0] > t[0] then 1
    else StrCmp(s[1..], t[1..])
  }

  /** Two strings compare equal exactly when they are equal. */
  lemma {:induction false} StrCmpZero(s: string, t: string)
    ensures StrCmp(s, t) == 0 <==> s == t
    ensures -1 <= StrCmp(s, t) <= 1
  {
    if s != [] && t != [] && s[0] == t[0] {
      StrCmpZero(s[1..], t[1..]);
      assert s == [s[0]] + s[1..] && t == [t[0]] + t[1..];
    }
  }

  /** Swapping the operands flips the sign. */
  lemma {:induction false} StrCmpAntisymmetric(s: string, t: string)
    ensures StrCmp(t, s) == -StrCmp(s, t)
  {
    if s != [] && t != [] && s[0] == t[0] {
      StrCmpAntisymmetric(s[1..], t[1..]);
    }
  }

  /** The ordering is transitive. */
  lemma {:induction false} StrCmpTransitive(s: string, t: string, u: string)
    requires StrCmp(s, t) <= 0 && StrCmp(t, u) <= 0
    ensures StrCmp(s, u) <= 0
  {
    if s != [] && t != [] && u != [] && s[0] == t[0] == u[0] {
      StrCmpTransitive(s[1..], t[1..], u[1..]);
    }
  }
}
