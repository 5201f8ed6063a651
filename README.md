# GIS mapping chatbot — a Dafny model of its message handling

The chatbot is a single-page Streamlit app. The user types a message. The app
decides whether the message asks where a place is. If it does, the app reduces
the message to a place name and asks the Nominatim geocoder for coordinates.
When both coordinates come back and neither is zero, it answers with them and
draws a map. Otherwise it asks the Groq chat-completion endpoint about the place. Any other message goes
to the completion endpoint verbatim. Every turn whose calls return appends the
user's message and the assistant's reply to the session transcript.

This project models that logic, all of it from `streamlit_app.py`:

- `extract_location`: ASCII lower-casing, then one left-to-right `re.sub`
  pass over the nine-alternative filler pattern, then Python `str.strip()`.
  The pass is modelled as ordered regular-expression alternation.
- The keyword test that decides whether a message is a location request.
- The status branch of `call_groq`, including the exact error text.
- Turn routing and the transcript updates. The geocoder, the completion
  endpoint, `str.title()` and the `.4f` coordinate format are parameters
  (`Chat.Services`).

Modules:

- `Text`: lower-casing, whitespace stripping, substring search and subsequences.
- `Numerals`: Python's `str(int)`.
- `Extract`: `extract_location`.
- `Intent`: the keyword test.
- `Groq`: the `call_groq` reply.
- `Chat`: the routing function `Route` and the `Session` class that owns the
  transcript.
- `ExtractExamples` and `ChatExamples`: worked messages and turns.

## Model

| member | source | states |
|---|---|---|
| Text.Lower | streamlit_app.py:11 | `lower()` keeps the length, maps each character by ASCII lower-casing, and leaves no upper-case letter |
| Text.LowerAppend | streamlit_app.py:11 | lower-casing distributes over concatenation |
| Text.LowerOfLower | streamlit_app.py:11 | lower-casing text that has no upper-case letter changes nothing |
| Text.Strip | streamlit_app.py:14 | `strip()` returns the slice of the input between its leading and trailing whitespace; the result neither starts nor ends with whitespace, and only whitespace follows it in the input |
| Text.StripIdempotent | streamlit_app.py:14 | stripping twice equals stripping once |
| Text.StripTrimmed | streamlit_app.py:14 | text that neither starts nor ends with whitespace is left unchanged by `strip()` |
| Text.StripEmpty | streamlit_app.py:14 | the stripped text is empty exactly when the input is all whitespace |
| Text.Contains | streamlit_app.py:71 | Python's `x in s` holds exactly when `x` occurs at some position of `s` |
| Extract.MatchAlternative | streamlit_app.py:13 | the alternative the pattern matches at a position is the first one, in pattern order, that is a prefix there; none matches exactly when no alternative is a prefix |
| Extract.AtMostOneAlternative | streamlit_app.py:13 | at most one of the nine alternatives matches at any position, because they have distinct first letters |
| Extract.RemoveFillers | streamlit_app.py:13 | the `re.sub` pass only deletes characters: its result is a subsequence of its input |
| Extract.RemoveFillersShrinks | streamlit_app.py:13 | if any filler token occurs in the text, the pass deletes at least one character |
| Extract.RemoveFillersIdentity | streamlit_app.py:13 | the pass leaves the text unchanged exactly when no filler token occurs in it |
| Extract.RemoveFillersKeepsInitial | streamlit_app.py:13 | where the one alternative starting with the current letter does not match, the letter is kept and the scan moves one character on |
| Extract.RemoveFillersDeletes | streamlit_app.py:13 | where an alternative matches, it is deleted and the scan resumes right after it |
| Extract.ExtractLocation | streamlit_app.py:10-14 | the query never starts or ends with whitespace, is a subsequence of the lower-cased message, and is no longer than the message |
| Extract.ExtractIdempotent | streamlit_app.py:10-14 | when the lower-cased message contains no filler token, the query is just the lower-cased, stripped message, and extracting again changes nothing |
| ExtractExamples.ShowMeQuery | streamlit_app.py:10-14 | "Show me " followed by a place whose lower-case form has no filler token yields that place lower-cased and stripped |
| ExtractExamples.ShailerParkQuery | streamlit_app.py:10-14 | "Show me Shailer Park" yields "shailer park" |
| ExtractExamples.InsideWordQuery | streamlit_app.py:13 | "me" is deleted inside a word: "Some" yields "so" |
| ExtractExamples.ExtractNotIdempotent | streamlit_app.py:13 | a single pass can create a new match: "shshowow" yields "show", which yields "" |
| Intent.AnyContained | streamlit_app.py:71 | `any(x in s for x in keys)` holds exactly when some key occurs in `s` |
| Intent.IsLocationRequest | streamlit_app.py:71 | a message is a location request exactly when its lower-case form contains "show", "where is", "locate" or "find" |
| Intent.LocationQueryShorter | streamlit_app.py:71-72 | for a location request, the lower-cased message contains a filler token, so the query is strictly shorter than the message |
| Intent.BluefindlandIsRequest | streamlit_app.py:71 | a keyword inside a word counts: "Bluefindland" is a location request |
| Intent.JokeIsNotRequest | streamlit_app.py:71 | "Tell me a joke" is not a location request |
| Numerals.IntToString | streamlit_app.py:44 | `str()` of a status code is a non-empty run of decimal digits without a leading zero, preceded by "-" for a negative code, and never contains a space |
| Numerals.ParseIntToString | streamlit_app.py:44 | the status code can be read back from its decimal text |
| Groq.CallGroq | streamlit_app.py:41-44 | status 200 gives the message content; any other status gives "Error from Groq: ", then the status code, then " - ", then the response body |
| Groq.ErrorReplyRoundTrip | streamlit_app.py:44 | for every non-200 response, the status code and the body can be recovered from the error reply |
| Groq.Unauthorized | streamlit_app.py:43-44 | a 401 response gives "Error from Groq: 401 - " followed by the body |
| Chat.Route | streamlit_app.py:70-95 | A message that is not a location request makes exactly one completion call, with the message verbatim. That reply is stored and shown unchanged, and nothing is geocoded or drawn. A location request geocodes exactly the extracted query. If both coordinates are non-zero, there is no completion call, the coordinate reply is stored and shown, and a map is drawn at zoom 13 with the marker at the coordinates. Otherwise there is one completion call, "Where is {query}?", and no map. Its reply is stored without the banner and shown after the banner. A map is drawn exactly when no completion call is made. |
| Chat.ZeroCoordinateFallsBack | streamlit_app.py:74 | a place geocoded at latitude or longitude 0 is treated as not found and goes to the fallback |
| ChatExamples.ShailerParkTurn | streamlit_app.py:71-83 | for "Show me Shailer Park" with the geocoder finding the place, the geocoder is asked for "shailer park", no completion call is made, and a map is drawn |
| ChatExamples.ShailerParkFallback | streamlit_app.py:84-89 | for "Show me Shailer Park" with the geocoder finding nothing, exactly one completion call is made, "Where is shailer park?"; its reply is stored as returned and shown under the banner |
| ChatExamples.JokeTurn | streamlit_app.py:90-95 | "Tell me a joke" is sent verbatim to the completion endpoint and nothing is geocoded |
| Chat.AlternatesAppend | streamlit_app.py:66-95 | appending a user entry and then an assistant entry keeps the transcript a sequence of user/assistant exchanges |
| Chat.AlternatesRoles | streamlit_app.py:66-95 | in such a transcript the length is even and the roles alternate by position: user at even indexes, assistant at odd ones |
| Chat.Session.constructor | streamlit_app.py:57-58 | the transcript starts empty |
| Chat.Session.HandleTurn | streamlit_app.py:66-95 | a turn appends exactly two entries: the user's message, then the reply that `Route` stores. Earlier entries are unchanged and roles keep alternating. The turn's calls and output are those of `Route`. |
| Chat.Session.OnInput | streamlit_app.py:54-64 | without an API key, or without a non-empty submitted message, nothing happens; otherwise exactly one turn is handled |

## Left out

- HTTP and JSON are not modelled. The geocoder's answer and the completion endpoint's response are function parameters. The request URLs, headers, the model name and the `User-Agent` are not modelled; they are folded into those abstract functions.
- Chat.Session.HandleTurn: `Valid`/`Alternates`, "exactly two entries" and "roles keep alternating" assume the completion call returns. In the source, `call_groq` can raise: `requests.post` can fail (line 40), or a 200 body may not be JSON or may lack `choices[0].message.content` (line 42). The script run then stops after line 66 has appended the user entry, so the transcript keeps a user entry with no reply and the next turn yields `[..., User, User, Assistant]`. The model has no raising completion call and cannot reach that state.
- Decoding a 200 response is not modelled. `Groq.Response.content` stands for `choices[0].message.content`, and the exception a malformed body would raise is not modelled.
- Geocoder failures are not distinguished. Network errors, JSON errors and an empty result list all become `Geocode.NotFound`.
- Float parsing is not modelled. Coordinates are `real`, so NaN and infinities are out of scope.
- `Chat.Services.fixed4` stands for the `.4f` formatting. It is a parameter, not a modelled rounding.
- `Chat.Services.title` stands for `str.title()`. It is a parameter.
- Text.Lower: only ASCII letters are lower-cased. Python's Unicode lower-casing of other scripts is not modelled.
- Rendering is not modelled: the chat bubbles, the transcript replay loop (lines 60-62), the page title, the password field and the info box. Only what each turn shows and stores is captured.
- Debug `print` output is not modelled.
- `Chat.Session` models one UI session's `st.session_state`. Streamlit's rerun model and concurrent sessions are not modelled.
