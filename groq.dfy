/**
 * The status branch of `call_groq`: the completion text on status 200, and
 * otherwise a fixed diagnostic line carrying the status code and the raw
 * response body, which can be read back unambiguously.
 */
module Groq {
  import opened Wrappers
  import opened Text
  import opened Numerals

  /**
   * What the completion endpoint sent back: the HTTP status code, the text at
   * `choices[0].message.content` of the decoded JSON body, and the raw body.
   */
  datatype Response = Response(status: int, content: string, text: string)

  const ErrorPrefix: string := "Error from Groq: "
  const Separator: string := " - "

  /** The reply `call_groq` returns for a response. */
  function CallGroq(response: Response): (reply: string)
    ensures response.status == 200 ==> reply == response.content
    ensures response.status != 200 ==>
      reply == ErrorPrefix + IntToString(response.status) + Separator + response.text
  {
    if response.status == 200 then response.content
    else ErrorPrefix + IntToString(response.status) + Separator + response.text
  }

  /** Reads a diagnostic line back into its status code and body. */
  function ParseErrorReply(reply: string): Option<(int, string)> {
    if !IsPrefix(ErrorPrefix, reply) then None
    else
      var rest := reply[|ErrorPrefix|..];
      match Find(rest, Separator)
      case None => None
      case Some(i) =>
        match ParseInt(rest[..i])
        case None => None
        case Some(code) => Some((code, rest[i + |Separator|..]))
  }

  /** The first " - " after the status code is the one `call_groq` wrote: a numeral has no space. */
  lemma SeparatorAfterCode(code: string, body: string)
    requires ' ' !in code
    ensures Find(code + Separator + body, Separator) == Some(|code|)
  {
    var rest := code + Separator + body;
    assert rest[|code|..][..|Separator|] == Separator;
    forall j | 0 <= j < |code| ensures !IsPrefix(Separator, rest[j..]) {
      assert rest[j..][0] == code[j];
    }
    FindFirst(rest, Separator, |code|);
  }

  lemma ParseFormattedReply(code: string, body: string, status: int)
    requires ' ' !in code && ParseInt(code) == Some(status)
    ensures ParseErrorReply(ErrorPrefix + code + Separator + body) == Some((status, body))
  {
    var rest := code + Separator + body;
    var reply := ErrorPrefix + code + Separator + body;
    AfterPrefix(ErrorPrefix, code, Separator, body);
    SeparatorAfterCode(code, body);
    assert rest[..|code|] == code;
    assert rest[|code| + |Separator|..] == body;
  }

  /** A reply begins with its prefix, and what follows the prefix is the rest of it. */
  lemma AfterPrefix(prefix: string, code: string, separator: string, body: string)
    ensures IsPrefix(prefix, prefix + code + separator + body)
    ensures (prefix + code + separator + body)[|prefix|..] == code + separator + body
  {
    var reply := prefix + code + separator + body;
    assert reply[..|prefix|] == prefix;
  }

  /**
   * The status code and the body of every non-200 response can be recovered
   * from its reply.
   */
  lemma ErrorReplyRoundTrip(response: Response)
    requires response.status != 200
    ensures ParseErrorReply(CallGroq(response)) == Some((response.status, response.text))
  {
    ParseIntToString(response.status);
    ParseFormattedReply(IntToString(response.status), response.text, response.status);
  }

  /** A 401 from the endpoint reads "Error from Groq: 401 - " followed by the body. */
  lemma Unauthorized(content: string, body: string)
    ensures CallGroq(Response(401, content, body)) == "Error from Groq: 401 - " + body
  {
    assert NatToString(4) == "4";
    assert NatToString(40) == "40";
    assert NatToString(401) == "401";
  }
}
