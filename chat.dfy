/**
 * One chat turn: route the message, call the collaborators that route asks
 * for, and append the user's message and the assistant's reply to the
 * session transcript.
 */
module Chat {
  import opened Wrappers
  import opened Text
  import opened Extract
  import opened Intent
  import opened Groq

  datatype Role = User | Assistant

  /** A transcript entry: `{"role": ..., "content": ...}`. */
  datatype ChatMessage = ChatMessage(role: Role, content: string)

  /** What `geocode_location` returns: `(None, None)`, or the first result's coordinates. */
  datatype Geocode = NotFound | Found(lat: real, lon: real)

  /** The map drawn for a located place: centre, zoom level, marker position and popup label. */
  datatype MapView = MapView(center: (real, real), zoom: nat, marker: (real, real), popup: string)

  /**
   * The collaborators a turn consults but this model does not interpret:
   * the geocoder, the completion endpoint (its response to a prompt and an
   * API key), `str.title()`, and the `.4f` rendering of a coordinate.
   */
  datatype Services = Services(
    geocode: string -> Geocode,
    complete: (string, string) -> Response,
    title: string -> string,
    fixed4: real -> string)

  /**
   * What one turn did: the assistant content stored in the transcript, the
   * text shown in the assistant's bubble, the queries sent to the geocoder,
   * the prompts sent to the completion endpoint, and the map drawn, if any.
   */
  datatype Turn = Turn(
    stored: string,
    shown: string,
    geocoderQueries: seq<string>,
    completionPrompts: seq<string>,
    view: Option<MapView>)

  const MapZoom: nat := 13
  const FallbackBanner: string := "\U{274C} Could not locate on map. Here's what I found instead:\n\n"

  /** Python truthiness of a float. */
  predicate Truthy(x: real) {
    x != 0.0
  }

  /** `if lat and lon`: a result counts only when both coordinates are present and non-zero. */
  predicate Located(g: Geocode) {
    g.Found? && Truthy(g.lat) && Truthy(g.lon)
  }

  /** The reply for a located place. */
  function CoordinateReply(place: string, lat: real, lon: real, svc: Services): string {
    "\U{1F4CD} **" + svc.title(place) + "** is at:\n- Latitude: " + svc.fixed4(lat)
      + "\n- Longitude: " + svc.fixed4(lon)
  }

  /** The prompt sent to the completion endpoint when the geocoder finds nothing usable. */
  function FallbackPrompt(place: string): string {
    "Where is " + place + "?"
  }

  /**
   * The routing decision of a turn and everything it produces. A message
   * that is not a location request goes to the completion endpoint verbatim
   * and its reply is used verbatim; a location request is geocoded, and
   * either answered with the coordinates and a map, without any completion
   * call, or answered by one completion call about the place, shown under a
   * banner that is not stored.
   */
  function Route(prompt: string, apiKey: string, svc: Services): (t: Turn)
    ensures !IsLocationRequest(prompt) ==>
      && t.geocoderQueries == []
      && t.completionPrompts == [prompt]
      && t.stored == t.shown == CallGroq(svc.complete(prompt, apiKey))
      && t.view == None
    ensures IsLocationRequest(prompt) ==> t.geocoderQueries == [ExtractLocation(prompt)]
    ensures IsLocationRequest(prompt) && Located(svc.geocode(ExtractLocation(prompt))) ==>
      var place := ExtractLocation(prompt);
      var g := svc.geocode(place);
      && t.completionPrompts == []
      && t.stored == t.shown == CoordinateReply(place, g.lat, g.lon, svc)
      && t.view == Some(MapView((g.lat, g.lon), MapZoom, (g.lat, g.lon), svc.title(place)))
    ensures IsLocationRequest(prompt) && !Located(svc.geocode(ExtractLocation(prompt))) ==>
      var question := FallbackPrompt(ExtractLocation(prompt));
      && t.completionPrompts == [question]
      && t.stored == CallGroq(svc.complete(question, apiKey))
      && t.shown == FallbackBanner + t.stored
      && t.view == None
    ensures |t.completionPrompts| <= 1 && |t.geocoderQueries| <= 1
    ensures t.view.Some? <==> t.completionPrompts == []
    ensures t.view.Some? ==> t.stored == t.shown
  {
    if IsLocationRequest(prompt) then
      var place := ExtractLocation(prompt);
      var g := svc.geocode(place);
      if Located(g) then
        var reply := CoordinateReply(place, g.lat, g.lon, svc);
        Turn(reply, reply, [place], [], Some(MapView((g.lat, g.lon), MapZoom, (g.lat, g.lon), svc.title(place))))
      else
        var question := FallbackPrompt(place);
        var fallback := CallGroq(svc.complete(question, apiKey));
        Turn(fallback, FallbackBanner + fallback, [place], [question], None)
    else
      var reply := CallGroq(svc.complete(prompt, apiKey));
      Turn(reply, reply, [], [prompt], None)
  }

  /** A place found at a zero latitude or longitude is treated as not found. */
  lemma ZeroCoordinateFallsBack(prompt: string, apiKey: string, svc: Services)
    requires IsLocationRequest(prompt)
    requires var g := svc.geocode(ExtractLocation(prompt)); g.Found? && (g.lat == 0.0 || g.lon == 0.0)
    ensures Route(prompt, apiKey, svc).completionPrompts == [FallbackPrompt(ExtractLocation(prompt))]
    ensures Route(prompt, apiKey, svc).view == None
  {
  }

  /**
   * The transcript is a sequence of exchanges: each user entry is followed
   * by the assistant's reply to it.
   */
  predicate Alternates(messages: seq<ChatMessage>)
    decreases |messages|
  {
    if messages == [] then true
    else
      && |messages| >= 2
      && messages[|messages| - 2].role == User
      && messages[|messages| - 1].role == Assistant
      && Alternates(messages[..|messages| - 2])
  }

  /** Appending a user entry and its reply keeps the transcript a sequence of exchanges. */
  lemma AlternatesAppend(messages: seq<ChatMessage>, prompt: string, reply: string)
    requires Alternates(messages)
    ensures Alternates(messages + [ChatMessage(User, prompt)] + [ChatMessage(Assistant, reply)])
  {
    var extended := messages + [ChatMessage(User, prompt)] + [ChatMessage(Assistant, reply)];
    assert extended[..|extended| - 2] == messages;
  }

  /** In a sequence of exchanges the roles alternate, starting with the user. */
  lemma {:induction false} AlternatesRoles(messages: seq<ChatMessage>)
    requires Alternates(messages)
    ensures |messages| % 2 == 0
    ensures forall i :: 0 <= i < |messages| ==> messages[i].role == (if i % 2 == 0 then User else Assistant)
    decreases |messages|
  {
    if messages != [] {
      var front := messages[..|messages| - 2];
      AlternatesRoles(front);
      forall i | 0 <= i < |messages|
        ensures messages[i].role == (if i % 2 == 0 then User else Assistant)
      {
        if i < |front| {
          assert messages[i] == front[i];
        }
      }
    }
  }

  /** `st.session_state.messages`, the transcript of one UI session. */
  class Session {
    var messages: seq<ChatMessage>

    predicate Valid()
      reads this
    {
      Alternates(messages)
    }

    /** The transcript starts empty. */
    constructor ()
      ensures messages == [] && Valid()
    {
      messages := [];
    }

    /**
     * A submitted message: append it, route it, append the reply. Exactly
     * two entries are added, user first, and earlier entries are untouched.
     */
    method HandleTurn(prompt: string, apiKey: string, svc: Services) returns (t: Turn)
      requires Valid()
      modifies this
      ensures Valid()
      ensures t == Route(prompt, apiKey, svc)
      ensures messages == old(messages) + [ChatMessage(User, prompt), ChatMessage(Assistant, t.stored)]
    {
      AlternatesAppend(messages, prompt, Route(prompt, apiKey, svc).stored);
      messages := messages + [ChatMessage(User, prompt)];
      if IsLocationRequest(prompt) {
        var location := ExtractLocation(prompt);
        var g := svc.geocode(location);
        if g.Found? && Truthy(g.lat) && Truthy(g.lon) {
          var response := CoordinateReply(location, g.lat, g.lon, svc);
          var view := MapView((g.lat, g.lon), MapZoom, (g.lat, g.lon), svc.title(location));
          messages := messages + [ChatMessage(Assistant, response)];
          t := Turn(response, response, [location], [], Some(view));
        } else {
          var question := FallbackPrompt(location);
          var fallback := CallGroq(svc.complete(question, apiKey));
          messages := messages + [ChatMessage(Assistant, fallback)];
          t := Turn(fallback, FallbackBanner + fallback, [location], [question], None);
        }
      } else {
        var response := CallGroq(svc.complete(prompt, apiKey));
        messages := messages + [ChatMessage(Assistant, response)];
        t := Turn(response, response, [], [prompt], None);
      }
    }

    /**
     * One run of the page script: nothing happens without an API key or
     * without a non-empty submitted message; otherwise one turn is handled.
     */
    method OnInput(apiKey: string, input: Option<string>, svc: Services) returns (t: Option<Turn>)
      requires Valid()
      modifies this
      ensures Valid()
      ensures apiKey == "" || input == None || input == Some("") ==> t == None && messages == old(messages)
      ensures apiKey != "" && input.Some? && input.value != "" ==>
        && t == Some(Route(input.value, apiKey, svc))
        && messages == old(messages) + [ChatMessage(User, input.value), ChatMessage(Assistant, t.value.stored)]
    {
      if apiKey != "" && input.Some? && input.value != "" {
        var turn := HandleTurn(input.value, apiKey, svc);
        t := Some(turn);
      } else {
        t := None;
      }
    }
  }
}
