/**
 * `extract_location`: lower-case the message, delete every match of the
 * filler-word pattern in one left-to-right pass, strip surrounding whitespace.
 */
module Extract {
  import opened Wrappers
  import opened Text

  /** The alternatives of the pattern, in the order the regular expression lists them. */
  const Fillers: seq<string> :=
    ["show", "where is", "locate", "find", "me", "please", "can you", "display", "on the map"]

  /**
   * The alternative the pattern matches at the start of `s`, searching from
   * alternative `k` on: regular-expression alternation tries the alternatives
   * in order and the first that matches wins.
   */
  function MatchAlternative(s: string, k: nat): (m: Option<nat>)
    requires k <= |Fillers|
    ensures m.Some? ==> k <= m.value < |Fillers| && IsPrefix(Fillers[m.value], s)
    ensures m.Some? ==> forall j :: k <= j < m.value ==> !IsPrefix(Fillers[j], s)
    ensures m.None? ==> forall j :: k <= j < |Fillers| ==> !IsPrefix(Fillers[j], s)
    decreases |Fillers| - k
  {
    if k == |Fillers| then None
    else if IsPrefix(Fillers[k], s) then Some(k)
    else MatchAlternative(s, k + 1)
  }

  /** The nine alternatives begin with nine different letters. */
  lemma DistinctInitials(j: nat, k: nat)
    requires j < |Fillers| && k < |Fillers|
    requires Fillers[j][0] == Fillers[k][0]
    ensures j == k
  {
  }

  lemma OtherInitial(j: nat, k: nat)
    requires j < |Fillers| && k < |Fillers| && j != k
    ensures Fillers[j] != [] && Fillers[j][0] != Fillers[k][0]
  {
    if Fillers[j][0] == Fillers[k][0] {
      DistinctInitials(j, k);
    }
  }

  /** So at most one alternative matches at any position, and their order does not matter. */
  lemma AtMostOneAlternative(s: string, j: nat, k: nat)
    requires j < |Fillers| && k < |Fillers|
    requires IsPrefix(Fillers[j], s) && IsPrefix(Fillers[k], s)
    ensures j == k
  {
    assert Fillers[j][0] == s[0] == Fillers[k][0];
    DistinctInitials(j, k);
  }

  /**
   * `re.sub(pattern, "", s)`: scanning left to right, a match at the current
   * position is deleted and the scan resumes after it; otherwise one
   * character is kept. The result only deletes characters of `s`.
   */
  function RemoveFillers(s: string): (r: string)
    ensures IsSubsequence(r, s)
    decreases |s|
  {
    if s == [] then []
    else match MatchAlternative(s, 0)
      case Some(k) =>
        var rest := s[|Fillers[k]|..];
        SuffixSubsequence(RemoveFillers(rest), s, |Fillers[k]|);
        RemoveFillers(rest)
      case None =>
        assert ([s[0]] + RemoveFillers(s[1..]))[1..] == RemoveFillers(s[1..]);
        [s[0]] + RemoveFillers(s[1..])
  }

  /** `extract_location(text)`. */
  function ExtractLocation(text: string): (query: string)
    ensures query == [] || (!IsSpace(query[0]) && !IsSpace(query[|query| - 1]))
    ensures IsSubsequence(query, Lower(text))
    ensures |query| <= |text|
  {
    var removed := RemoveFillers(Lower(text));
    var query := Strip(removed);
    assert IsSubsequence(query, Lower(text)) by {
      PartSubsequence(removed, query, LeadingSpace(removed), LeadingSpace(removed) + |query|);
      SubsequenceTransitive(query, removed, Lower(text));
    }
    SubsequenceLength(query, Lower(text));
    query
  }

  /** No filler token occurs anywhere in `s`. */
  predicate FillerFree(s: string) {
    forall k :: 0 <= k < |Fillers| ==> !Contains(s, Fillers[k])
  }

  /** A slice `part == s[a..b]` of filler-free text is filler-free. */
  lemma FillerFreeSlice(s: string, part: string, a: nat, b: nat)
    requires a <= b <= |s| && part == s[a..b] && FillerFree(s)
    ensures FillerFree(part)
  {
    forall k | 0 <= k < |Fillers|
      ensures !Contains(part, Fillers[k])
    {
      if Contains(part, Fillers[k]) {
        OccursInSlice(Fillers[k], s, a, b);
      }
    }
  }

  /** On a string containing a filler token the pass deletes at least one character. */
  lemma {:induction false} RemoveFillersShrinks(s: string, k: nat)
    requires k < |Fillers| && Contains(s, Fillers[k])
    ensures |RemoveFillers(s)| < |s|
    decreases |s|
  {
    match MatchAlternative(s, 0)
    case Some(m) =>
      var rest := s[|Fillers[m]|..];
      SubsequenceLength(RemoveFillers(rest), rest);
    case None =>
      RemoveFillersShrinks(s[1..], k);
  }

  /** The pass changes nothing exactly when no filler token occurs. */
  lemma {:induction false} RemoveFillersIdentity(s: string)
    ensures RemoveFillers(s) == s <==> FillerFree(s)
    decreases |s|
  {
    if FillerFree(s) {
      if s != [] {
        assert MatchAlternative(s, 0).None? by {
          forall j | 0 <= j < |Fillers| ensures !IsPrefix(Fillers[j], s) {
            assert !Contains(s, Fillers[j]);
          }
        }
        FillerFreeSlice(s, s[1..], 1, |s|);
        RemoveFillersIdentity(s[1..]);
      }
    } else {
      var k :| 0 <= k < |Fillers| && Contains(s, Fillers[k]);
      RemoveFillersShrinks(s, k);
    }
  }

  /** On lower-case, filler-free text `extract_location` only strips. */
  lemma ExtractFillerFree(text: string)
    requires FillerFree(text)
    requires forall i :: 0 <= i < |text| ==> !IsUpper(text[i])
    ensures ExtractLocation(text) == Strip(text)
  {
    LowerOfLower(text);
    RemoveFillersIdentity(text);
  }

  /**
   * On text whose lower-case form is free of filler tokens, `extract_location`
   * is lowercasing and stripping, and applying it again changes nothing.
   */
  lemma ExtractIdempotent(text: string)
    requires FillerFree(Lower(text))
    ensures ExtractLocation(text) == Strip(Lower(text))
    ensures ExtractLocation(ExtractLocation(text)) == ExtractLocation(text)
  {
    RemoveFillersIdentity(Lower(text));
    StrippedStaysClean(Lower(text));
  }

  /** Stripping clean text leaves text that `extract_location` returns unchanged. */
  lemma StrippedStaysClean(s: string)
    requires FillerFree(s)
    requires forall i :: 0 <= i < |s| ==> !IsUpper(s[i])
    ensures ExtractLocation(Strip(s)) == Strip(s)
  {
    var query := Strip(s);
    CleanSlice(s, query, LeadingSpace(s), LeadingSpace(s) + |query|);
    ExtractFillerFree(query);
    StripTrimmed(query);
  }

  /** A slice `part == s[a..b]` of lower-case, filler-free text is lower-case and filler-free. */
  lemma CleanSlice(s: string, part: string, a: nat, b: nat)
    requires a <= b <= |s| && part == s[a..b]
    requires FillerFree(s)
    requires forall i :: 0 <= i < |s| ==> !IsUpper(s[i])
    ensures FillerFree(part)
    ensures forall i :: 0 <= i < |part| ==> !IsUpper(part[i])
  {
    FillerFreeSlice(s, part, a, b);
    forall i | 0 <= i < |part|
      ensures !IsUpper(part[i])
    {
      assert part[i] == s[a + i];
    }
  }

  /** Where no alternative matches, the pass keeps the current character. */
  lemma RemoveFillersKeeps(s: string)
    requires s != []
    requires forall j :: 0 <= j < |Fillers| ==> !IsPrefix(Fillers[j], s)
    ensures RemoveFillers(s) == [s[0]] + RemoveFillers(s[1..])
  {
    assert MatchAlternative(s, 0).None?;
  }

  /** A character no alternative begins with is always kept. */
  lemma RemoveFillersKeepsLetter(s: string)
    requires s != []
    requires s[0] !in {'s', 'w', 'l', 'f', 'm', 'p', 'c', 'd', 'o'}
    ensures RemoveFillers(s) == [s[0]] + RemoveFillers(s[1..])
  {
    forall j | 0 <= j < |Fillers| ensures !IsPrefix(Fillers[j], s) {
      assert Fillers[j][0] in {'s', 'w', 'l', 'f', 'm', 'p', 'c', 'd', 'o'};
    }
    RemoveFillersKeeps(s);
  }

  /** Where the one alternative beginning with the current character fails, the character is kept. */
  lemma RemoveFillersKeepsInitial(s: string, k: nat)
    requires s != [] && k < |Fillers|
    requires s[0] == Fillers[k][0] && !IsPrefix(Fillers[k], s)
    ensures RemoveFillers(s) == [s[0]] + RemoveFillers(s[1..])
  {
    forall j | 0 <= j < |Fillers| ensures !IsPrefix(Fillers[j], s) {
      if j != k && |Fillers[j]| <= |s| {
        OtherInitial(j, k);
        assert s[..|Fillers[j]|][0] != Fillers[j][0];
      }
    }
    RemoveFillersKeeps(s);
  }

  /** Where alternative `k` matches, the pass deletes it and resumes after it. */
  lemma RemoveFillersDeletes(s: string, k: nat)
    requires k < |Fillers| && IsPrefix(Fillers[k], s)
    ensures RemoveFillers(s) == RemoveFillers(s[|Fillers[k]|..])
  {
    var m := MatchAlternative(s, 0);
    assert m.Some?;
    AtMostOneAlternative(s, m.value, k);
  }
}
