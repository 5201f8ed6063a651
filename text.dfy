/**
 * The string primitives the chatbot relies on, as Python defines them:
 * `str.lower()` (over ASCII), `str.strip()`, `in` on strings and
 * `str.startswith`, plus the subsequence relation used to state that a
 * transformation only deletes characters.
 */
module Text {
  import opened Wrappers

  // ---------------------------------------------------------------------
  // Lowercasing
  // ---------------------------------------------------------------------

  predicate IsUpper(c: char) {
    'A' <= c <= 'Z'
  }

  /** `c.lower()` for an ASCII letter; every other character is kept. */
  function LowerChar(c: char): char {
    if IsUpper(c) then (c as int - 'A' as int + 'a' as int) as char else c
  }

  /** `s.lower()`: maps every character, keeps the length, leaves no upper-case letter. */
  function Lower(s: string): (r: string)
    ensures |r| == |s|
    ensures forall i :: 0 <= i < |s| ==> r[i] == LowerChar(s[i])
    ensures forall i :: 0 <= i < |r| ==> !IsUpper(r[i])
    decreases |s|
  {
    if s == [] then [] else [LowerChar(s[0])] + Lower(s[1..])
  }

  /** Lowercasing works character by character, so it distributes over concatenation. */
  lemma {:induction false} LowerAppend(a: string, b: string)
    ensures Lower(a + b) == Lower(a) + Lower(b)
    decreases |a|
  {
    if a != [] {
      assert (a + b)[1..] == a[1..] + b;
      LowerAppend(a[1..], b);
    }
  }

  /** A string without upper-case letters is its own lower-case form. */
  lemma LowerOfLower(s: string)
    requires forall i :: 0 <= i < |s| ==> !IsUpper(s[i])
    ensures Lower(s) == s
  {
  }

  // ---------------------------------------------------------------------
  // Stripping
  // ---------------------------------------------------------------------

  /** The characters Python's `str.isspace()` accepts, which `strip()` removes. */
  predicate IsSpace(c: char) {
    || ('\t' <= c <= '\r')          // tab, line feed, vertical tab, form feed, carriage return
    || ('\U{1C}' <= c <= ' ')       // the four information separators and space
    || c == '\U{85}' || c == '\U{A0}' || c == '\U{1680}'
    || ('\U{2000}' <= c <= '\U{200A}')
    || c == '\U{2028}' || c == '\U{2029}' || c == '\U{202F}' || c == '\U{205F}' || c == '\U{3000}'
  }

  /** The length of the longest all-whitespace prefix of `s`. */
  function LeadingSpace(s: string): (n: nat)
    ensures n <= |s|
    ensures forall k :: 0 <= k < n ==> IsSpace(s[k])
    ensures n < |s| ==> !IsSpace(s[n])
    decreases |s|
  {
    if s != [] && IsSpace(s[0]) then 1 + LeadingSpace(s[1..]) else 0
  }

  /** The length of the longest all-whitespace suffix of `s`. */
  function TrailingSpace(s: string): (n: nat)
    ensures n <= |s|
    ensures forall k :: |s| - n <= k < |s| ==> IsSpace(s[k])
    ensures n < |s| ==> !IsSpace(s[|s| - 1 - n])
    decreases |s|
  {
    if s != [] && IsSpace(s[|s| - 1]) then 1 + TrailingSpace(s[..|s| - 1]) else 0
  }

  /**
   * `s.strip()`: the result neither begins nor ends with whitespace, and it is
   * the slice of `s` left after the maximal whitespace prefix, followed in `s`
   * by whitespace only.
   */
  function Strip(s: string): (r: string)
    ensures r == [] || (!IsSpace(r[0]) && !IsSpace(r[|r| - 1]))
    ensures LeadingSpace(s) + |r| <= |s|
    ensures r == s[LeadingSpace(s)..LeadingSpace(s) + |r|]
    ensures forall k :: LeadingSpace(s) + |r| <= k < |s| ==> IsSpace(s[k])
  {
    var rest := s[LeadingSpace(s)..];
    rest[..|rest| - TrailingSpace(rest)]
  }

  /** Stripping twice is stripping once. */
  lemma StripIdempotent(s: string)
    ensures Strip(Strip(s)) == Strip(s)
  {
    StripTrimmed(Strip(s));
  }

  /** Text that neither begins nor ends with whitespace is left alone by `strip()`. */
  lemma StripTrimmed(s: string)
    requires s == [] || (!IsSpace(s[0]) && !IsSpace(s[|s| - 1]))
    ensures Strip(s) == s
  {
    assert LeadingSpace(s) == 0;
    assert TrailingSpace(s) == 0;
  }

  /** `strip()` returns the empty string exactly when `s` is all whitespace. */
  lemma StripEmpty(s: string)
    ensures Strip(s) == [] <==> forall k :: 0 <= k < |s| ==> IsSpace(s[k])
  {
    if forall k :: 0 <= k < |s| ==> IsSpace(s[k]) {
      assert LeadingSpace(s) == |s|;
    }
  }

  // ---------------------------------------------------------------------
  // Substrings
  // ---------------------------------------------------------------------

  /** `s.startswith(t)`. */
  predicate IsPrefix(t: string, s: string) {
    |t| <= |s| && s[..|t|] == t
  }

  /** `t` occurs in `s` at some position. */
  ghost predicate Occurs(t: string, s: string) {
    exists i :: 0 <= i <= |s| && IsPrefix(t, s[i..])
  }

  lemma OccursTail(t: string, s: string)
    requires s != [] && !IsPrefix(t, s)
    ensures Occurs(t, s) <==> Occurs(t, s[1..])
  {
    if Occurs(t, s) {
      var i :| 0 <= i <= |s| && IsPrefix(t, s[i..]);
      assert i != 0 by { assert s[0..] == s; }
      assert s[1..][i - 1..] == s[i..];
    }
    if Occurs(t, s[1..]) {
      var i :| 0 <= i <= |s[1..]| && IsPrefix(t, s[1..][i..]);
      assert s[1..][i..] == s[i + 1..];
    }
  }

  /** Python's `t in s` on strings: true exactly when `t` occurs in `s`. */
  function Contains(s: string, t: string): (b: bool)
    ensures b <==> Occurs(t, s)
    decreases |s|
  {
    if IsPrefix(t, s) then
      assert s[0..] == s;
      true
    else if s == [] then
      assert forall i :: 0 <= i <= |s| ==> s[i..] == s;
      false
    else
      OccursTail(t, s);
      Contains(s[1..], t)
  }

  /** An occurrence inside a slice is an occurrence in the whole string. */
  lemma OccursInSlice(t: string, s: string, a: nat, b: nat)
    requires a <= b <= |s|
    requires Occurs(t, s[a..b])
    ensures Occurs(t, s)
  {
    var i :| 0 <= i <= |s[a..b]| && IsPrefix(t, s[a..b][i..]);
    assert a + i + |t| <= b;
    forall j | 0 <= j < |t|
      ensures s[a + i..][j] == t[j]
    {
      assert s[a..b][i..][..|t|][j] == t[j];
    }
    assert s[a + i..][..|t|] == t;
  }

  /** A string holding a character the host string lacks does not occur in it. */
  lemma AbsentChar(t: string, s: string, c: char)
    requires c in t && c !in s
    ensures !Contains(s, t)
  {
    var j :| 0 <= j < |t| && t[j] == c;
    forall i | 0 <= i <= |s| && |t| <= |s| - i
      ensures s[i..][..|t|] != t
    {
      assert s[i..][..|t|][j] == s[i + j];
    }
  }

  /**
   * A string whose first character does not appear early enough in the host
   * string, at a position from which the rest would still fit, does not occur in it.
   */
  lemma AbsentFirstChar(t: string, s: string)
    requires t != [] && |t| <= |s|
    requires t[0] !in s[..|s| - |t| + 1]
    ensures !Contains(s, t)
  {
    forall i | 0 <= i <= |s| && |t| <= |s| - i
      ensures s[i..][..|t|] != t
    {
      assert s[i..][..|t|][0] == s[..|s| - |t| + 1][i];
    }
  }

  /** The first position at which `t` occurs in `s`, or `None` if it does not occur. */
  function Find(s: string, t: string): (i: Option<nat>)
    ensures i.Some? ==> i.value <= |s| && IsPrefix(t, s[i.value..])
    ensures i.Some? ==> forall j :: 0 <= j < i.value ==> !IsPrefix(t, s[j..])
    ensures i.None? <==> !Contains(s, t)
    decreases |s|
  {
    if IsPrefix(t, s) then
      assert s[0..] == s;
      Some(0)
    else if s == [] then
      None
    else
      match Find(s[1..], t)
      case None => None
      case Some(j) =>
        assert forall k :: 1 <= k <= |s| ==> s[k..] == s[1..][k - 1..];
        Some(j + 1)
  }

  /** Any occurrence preceded by none fixes what `Find` answers. */
  lemma FindFirst(s: string, t: string, m: nat)
    requires m <= |s| && IsPrefix(t, s[m..])
    requires forall j :: 0 <= j < m ==> !IsPrefix(t, s[j..])
    ensures Find(s, t) == Some(m)
  {
    assert Occurs(t, s);
  }

  // ---------------------------------------------------------------------
  // Subsequences
  // ---------------------------------------------------------------------

  /** `a` is obtained from `b` by deleting characters. */
  ghost predicate IsSubsequence(a: string, b: string)
    decreases |b|
  {
    || a == []
    || (b != [] && ((a[0] == b[0] && IsSubsequence(a[1..], b[1..])) || IsSubsequence(a, b[1..])))
  }

  lemma {:induction false} SubsequenceLength(a: string, b: string)
    requires IsSubsequence(a, b)
    ensures |a| <= |b|
    decreases |b|
  {
    if a != [] {
      if a[0] == b[0] && IsSubsequence(a[1..], b[1..]) {
        SubsequenceLength(a[1..], b[1..]);
      } else {
        SubsequenceLength(a, b[1..]);
      }
    }
  }

  lemma {:induction false} SubsequenceTransitive(a: string, b: string, c: string)
    requires IsSubsequence(a, b) && IsSubsequence(b, c)
    ensures IsSubsequence(a, c)
    decreases |c|
  {
    if a != [] {
      if IsSubsequence(b, c[1..]) {
        SubsequenceTransitive(a, b, c[1..]);
      } else if a[0] == b[0] && IsSubsequence(a[1..], b[1..]) {
        SubsequenceTransitive(a[1..], b[1..], c[1..]);
      } else {
        SubsequenceTransitive(a, b[1..], c[1..]);
      }
    }
  }

  lemma {:induction false} SubsequenceReflexive(s: string)
    ensures IsSubsequence(s, s)
    decreases |s|
  {
    if s != [] {
      SubsequenceReflexive(s[1..]);
    }
  }

  /** A string is a subsequence of anything it is a suffix of. */
  lemma {:induction false} SuffixSubsequence(a: string, s: string, n: nat)
    requires n <= |s| && IsSubsequence(a, s[n..])
    ensures IsSubsequence(a, s)
    decreases n
  {
    if n > 0 {
      assert s[1..][n - 1..] == s[n..];
      SuffixSubsequence(a, s[1..], n - 1);
    }
  }

  /** Every slice of `s` is a subsequence of `s`. */
  lemma {:induction false} SliceSubsequence(s: string, a: nat, b: nat)
    requires a <= b <= |s|
    ensures IsSubsequence(s[a..b], s)
    decreases |s|
  {
    if a > 0 {
      assert s[1..][a - 1..b - 1] == s[a..b];
      SliceSubsequence(s[1..], a - 1, b - 1);
    } else if b > 0 {
      assert s[0..b][1..] == s[1..][0..b - 1];
      SliceSubsequence(s[1..], 0, b - 1);
    }
  }

  /** A string equal to a slice of `s` is a subsequence of `s`. */
  lemma PartSubsequence(s: string, part: string, a: nat, b: nat)
    requires a <= b <= |s| && part == s[a..b]
    ensures IsSubsequence(part, s)
  {
    SliceSubsequence(s, a, b);
  }
}
