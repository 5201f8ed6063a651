/**
 * The test that decides whether a chat message is a location request: its
 * lower-case form contains one of four keywords, anywhere, even inside a word.
 */
module Intent {
  import opened Text
  import opened Extract

  /** The keywords, in the order line 71 of `streamlit_app.py` lists them. */
  const Keywords: seq<string> := ["show", "where is", "locate", "find"]

  /** `any(x in s for x in keys)`. */
  function AnyContained(keys: seq<string>, s: string): (b: bool)
    ensures b <==> exists k :: 0 <= k < |keys| && Contains(s, keys[k])
    decreases |keys|
  {
    if keys == [] then false
    else Contains(s, keys[0]) || AnyContained(keys[1..], s)
  }

  /** A message is a location request exactly when one of the four keywords occurs in its lower-case form. */
  function IsLocationRequest(prompt: string): (b: bool)
    ensures b <==> || Occurs("show", Lower(prompt)) || Occurs("where is", Lower(prompt))
                   || Occurs("locate", Lower(prompt)) || Occurs("find", Lower(prompt))
  {
    var b := AnyContained(Keywords, Lower(prompt));
    assert Keywords[0] == "show" && Keywords[1] == "where is";
    assert Keywords[2] == "locate" && Keywords[3] == "find";
    b
  }

  /** The four keywords are the first four filler tokens. */
  lemma KeywordsAreFillers()
    ensures |Keywords| <= |Fillers|
    ensures forall k :: 0 <= k < |Keywords| ==> Keywords[k] == Fillers[k]
  {
  }

  /**
   * The query derived from a location request is strictly shorter than the
   * message: the keyword that classified it is also a filler token, so the
   * deletion pass removes at least one character.
   */
  lemma LocationQueryShorter(prompt: string)
    requires IsLocationRequest(prompt)
    ensures !FillerFree(Lower(prompt))
    ensures |ExtractLocation(prompt)| < |prompt|
  {
    var lowered := Lower(prompt);
    var k :| 0 <= k < |Keywords| && Contains(lowered, Keywords[k]);
    KeywordsAreFillers();
    RemoveFillersShrinks(lowered, k);
    var removed := RemoveFillers(lowered);
    assert ExtractLocation(prompt) == Strip(removed);
  }

  /** Substring, not word, matching: "Bluefindland" is a location request. */
  lemma BluefindlandIsRequest(prompt: string)
    requires prompt == "Bluefindland"
    ensures IsLocationRequest(prompt)
  {
    LowerBluefindland(prompt);
    FindInBluefindland(Lower(prompt));
  }

  lemma LowerBluefindland(prompt: string)
    requires prompt == "Bluefindland"
    ensures Lower(prompt) == "bluefindland"
  {
  }

  lemma FindInBluefindland(lowered: string)
    requires lowered == "bluefindland"
    ensures Occurs("find", lowered)
  {
    assert IsPrefix("find", lowered[4..]);
  }

  /** "Tell me a joke" is not a location request. */
  lemma JokeIsNotRequest(prompt: string)
    requires prompt == "Tell me a joke"
    ensures !IsLocationRequest(prompt)
  {
    JokeLetters(prompt);
    NoKeywordLetter(prompt, "show", 's');
    NoKeywordLetter(prompt, "where is", 'w');
    NoKeywordLetter(prompt, "locate", 'c');
    NoKeywordLetter(prompt, "find", 'f');
  }

  /** The letters of "Tell me a joke". */
  lemma JokeLetters(prompt: string)
    requires prompt == "Tell me a joke"
    ensures forall i :: 0 <= i < |prompt| ==> prompt[i] in {'T', 'e', 'l', ' ', 'm', 'a', 'j', 'o', 'k'}
  {
  }

  /**
   * A message made of letters other than 's', 'w', 'c' and 'f', in either
   * case, contains no keyword holding one of them once lower-cased.
   */
  lemma NoKeywordLetter(prompt: string, keyword: string, c: char)
    requires forall i :: 0 <= i < |prompt| ==> prompt[i] in {'T', 'e', 'l', ' ', 'm', 'a', 'j', 'o', 'k'}
    requires c in keyword && c in {'s', 'w', 'c', 'f'}
    ensures !Occurs(keyword, Lower(prompt))
  {
    assert c !in Lower(prompt) by {
      forall i | 0 <= i < |prompt|
        ensures Lower(prompt)[i] != c
      {
        assert Lower(prompt)[i] == LowerChar(prompt[i]);
      }
    }
    AbsentChar(keyword, Lower(prompt), c);
  }
}
