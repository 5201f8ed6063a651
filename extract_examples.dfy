/**
 * Worked examples of `extract_location` for messages of the form the chat
 * input suggests ("Show me Shailer Park"), built from one-step facts about
 * the scan.
 */
module ExtractExamples {
  import opened Text
  import opened Extract

  /** A whitespace character at the front of a string is what `strip()` drops first. */
  lemma StripLeadingSpace(c: char, s: string)
    requires IsSpace(c)
    ensures Strip([c] + s) == Strip(s)
  {
    var t := [c] + s;
    assert t[1..] == s;
    assert LeadingSpace(t) == 1 + LeadingSpace(s);
    assert t[LeadingSpace(t)..] == s[LeadingSpace(s)..];
  }

  lemma LowerShowMe(place: string)
    ensures Lower("Show me " + place) == "show me " + Lower(place)
  {
    LowerShowMePrefix("Show me ");
    LowerAppend("Show me ", place);
  }

  lemma LowerShowMePrefix(prefix: string)
    requires prefix == "Show me "
    ensures Lower(prefix) == "show me "
  {
  }

  lemma ScanShow(rest: string)
    ensures RemoveFillers("show" + rest) == RemoveFillers(rest)
  {
    RemoveFillersDeletes("show" + rest, 0);
    assert ("show" + rest)[4..] == rest;
  }

  lemma ScanMe(rest: string)
    ensures RemoveFillers("me" + rest) == RemoveFillers(rest)
  {
    RemoveFillersDeletes("me" + rest, 4);
    assert ("me" + rest)[2..] == rest;
  }

  lemma ScanSpace(rest: string)
    ensures RemoveFillers(" " + rest) == " " + RemoveFillers(rest)
  {
    RemoveFillersKeepsLetter(" " + rest);
    assert (" " + rest)[1..] == rest;
  }

  lemma ScanShowMe(lp: string)
    requires FillerFree(lp)
    ensures RemoveFillers("show" + (" " + ("me" + (" " + lp)))) == " " + (" " + lp)
  {
    ScanShow(" " + ("me" + (" " + lp)));
    ScanSpace("me" + (" " + lp));
    ScanMe(" " + lp);
    ScanSpace(lp);
    RemoveFillersIdentity(lp);
  }

  lemma ShowMeSplit(lp: string)
    ensures "show me " + lp == "show" + (" " + ("me" + (" " + lp)))
    ensures "  " + lp == " " + (" " + lp)
  {
  }

  /**
   * "Show me <place>": both filler tokens go, the two spaces are stripped,
   * and the query is the lower-cased place, whenever the place itself
   * contains no filler token.
   */
  lemma ShowMeQuery(place: string)
    requires FillerFree(Lower(place))
    ensures ExtractLocation("Show me " + place) == Strip(Lower(place))
  {
    var lp := Lower(place);
    LowerShowMe(place);
    ShowMeSplit(lp);
    ScanShowMe(lp);
    StripLeadingSpace(' ', " " + lp);
    StripLeadingSpace(' ', lp);
  }

  /** Every character of `s` is one of `letters`. */
  predicate SpelledFrom(s: string, letters: set<char>) {
    forall i :: 0 <= i < |s| ==> s[i] in letters
  }

  const ShailerParkLetters: set<char> := {'s', 'h', 'a', 'i', 'l', 'e', 'r', ' ', 'p', 'k'}

  /** "shailer park" uses ten letters, and its only 'p' is in "park". */
  lemma ShailerParkSpelling(lp: string)
    requires lp == "shailer park"
    ensures |lp| == 12 && SpelledFrom(lp, ShailerParkLetters)
    ensures 'p' !in lp[..7]
  {
  }

  /** A keyword holding a letter that "shailer park" lacks does not occur in it. */
  lemma MissingLetter(lp: string, keyword: string, c: char)
    requires SpelledFrom(lp, ShailerParkLetters)
    requires c in keyword && c !in ShailerParkLetters
    ensures !Contains(lp, keyword)
  {
    AbsentChar(keyword, lp, c);
  }

  /** Eight of the nine filler tokens hold a letter "shailer park" lacks. */
  lemma ShailerParkLacksLetterTokens(lp: string)
    requires SpelledFrom(lp, ShailerParkLetters)
    ensures !Contains(lp, "show") && !Contains(lp, "where is") && !Contains(lp, "locate")
    ensures !Contains(lp, "find") && !Contains(lp, "me")
    ensures !Contains(lp, "can you") && !Contains(lp, "display") && !Contains(lp, "on the map")
  {
    MissingLetter(lp, "show", 'w');
    MissingLetter(lp, "where is", 'w');
    MissingLetter(lp, "locate", 'o');
    MissingLetter(lp, "find", 'f');
    MissingLetter(lp, "me", 'm');
    MissingLetter(lp, "can you", 'c');
    MissingLetter(lp, "display", 'd');
    MissingLetter(lp, "on the map", 'o');
  }

  /** No filler token occurs in "shailer park". */
  lemma ShailerParkFillerFree(lp: string)
    requires lp == "shailer park"
    ensures FillerFree(lp)
  {
    ShailerParkSpelling(lp);
    FillerFreeBySpelling(lp);
  }

  lemma FillerFreeBySpelling(lp: string)
    requires |lp| == 12 && SpelledFrom(lp, ShailerParkLetters) && 'p' !in lp[..7]
    ensures FillerFree(lp)
  {
    ShailerParkLacksLetterTokens(lp);
    AbsentFirstChar("please", lp);
    forall k | 0 <= k < |Fillers| ensures !Contains(lp, Fillers[k]) {
      if k < 3 {
        assert k == 0 || k == 1 || k == 2;
      }
    }
  }

  lemma ShailerParkLower(place: string)
    requires place == "Shailer Park"
    ensures Lower(place) == "shailer park"
  {
  }

  lemma ShailerParkStripped(lp: string)
    requires lp == "shailer park"
    ensures Strip(lp) == lp
  {
    assert LeadingSpace(lp) == 0;
    assert TrailingSpace(lp) == 0;
  }

  /** The chat input's own example: "Show me Shailer Park" asks the geocoder for "shailer park". */
  lemma ShailerParkQuery(place: string)
    requires place == "Shailer Park"
    ensures ExtractLocation("Show me " + place) == "shailer park"
  {
    ShailerParkLower(place);
    var lp := Lower(place);
    ShailerParkFillerFree(lp);
    ShowMeQuery(place);
    ShailerParkStripped(lp);
  }

  /** Tokens are deleted inside words too: the "me" of "Some" goes. */
  lemma InsideWordQuery(text: string)
    requires text == "Some"
    ensures ExtractLocation(text) == "so"
  {
    LowerSome(text);
    ScanSome(Lower(text));
    StripTrimmed("so");
  }

  lemma LowerSome(text: string)
    requires text == "Some"
    ensures Lower(text) == "some"
  {
  }

  lemma ScanSome(lowered: string)
    requires lowered == "some"
    ensures RemoveFillers(lowered) == "so"
  {
    ScanMe("");
    var tail := lowered[1..];
    assert tail[1..] == "me" + "";
    RemoveFillersKeepsInitial(tail, 8);
    assert lowered[2] != "show"[2];
    RemoveFillersKeepsInitial(lowered, 0);
  }

  lemma ScanOw()
    ensures RemoveFillers("ow") == "ow"
  {
    RemoveFillersKeepsInitial("w", 1);
    RemoveFillersKeepsInitial("ow", 8);
  }

  /** Deleting "show" from "shshowow" joins "sh" and "ow" into a new "show". */
  lemma ScanRejoins(rest: string)
    requires rest == "ow"
    ensures RemoveFillers("s" + ("h" + ("show" + rest))) == "s" + ("h" + rest)
  {
    ScanOw();
    ScanShow(rest);
    var tail := "h" + ("show" + rest);
    RemoveFillersKeepsLetter(tail);
    assert tail[1..] == "show" + rest;
    var text := "s" + tail;
    assert text[2] != "show"[2];
    RemoveFillersKeepsInitial(text, 0);
    assert text[1..] == tail;
  }

  /**
   * The single pass can join the pieces around a deletion into a new filler
   * token, so `extract_location` is not idempotent in general.
   */
  lemma ExtractNotIdempotent()
    ensures ExtractLocation("shshowow") == "show"
    ensures ExtractLocation("show") == ""
  {
    ExtractRejoins();
    ExtractShow();
  }

  lemma ExtractRejoins()
    ensures ExtractLocation("shshowow") == "show"
  {
    RemoveRejoins();
    StripTrimmed("show");
  }

  lemma RemoveRejoins()
    ensures RemoveFillers(Lower("shshowow")) == "show"
  {
    LowerShshowow();
    ScanRejoins("ow");
    assert "s" + ("h" + "ow") == "show";
  }

  lemma LowerShshowow()
    ensures Lower("shshowow") == "s" + ("h" + ("show" + "ow"))
  {
    LowerShshowowFixed("shshowow");
    ShshowowSplit("shshowow");
  }

  lemma LowerShshowowFixed(text: string)
    requires text == "shshowow"
    ensures Lower(text) == text
  {
    LowerOfLower(text);
  }

  lemma ShshowowSplit(text: string)
    requires text == "shshowow"
    ensures text == "s" + ("h" + ("show" + "ow"))
  {
  }

  lemma ExtractShow()
    ensures ExtractLocation("show") == ""
  {
    assert Lower("show") == "show";
    ScanShow("");
    assert "show" + "" == "show";
  }
}
