/**
 * Worked turns: the messages the chat input suggests, routed through
 * `Chat.Route` with the collaborators left abstract.
 */
module ChatExamples {
  import opened Wrappers
  import opened Text
  import opened Intent
  import opened Groq
  import opened ExtractExamples
  import opened Chat

  /** "Show me ..." is always a location request. */
  lemma ShowMeRequest(place: string)
    ensures IsLocationRequest("Show me " + place)
  {
    LowerShowMe(place);
    assert IsPrefix("show", Lower("Show me " + place)[0..]);
  }

  /** "Show me Shailer Park", located: the geocoder is asked for "shailer park" and a map is drawn. */
  lemma ShailerParkTurn(place: string, apiKey: string, svc: Services, lat: real, lon: real)
    requires place == "Shailer Park"
    requires svc.geocode("shailer park") == Found(lat, lon) && lat != 0.0 && lon != 0.0
    ensures var t := Route("Show me " + place, apiKey, svc);
      && t.geocoderQueries == ["shailer park"]
      && t.completionPrompts == []
      && t.stored == t.shown == CoordinateReply("shailer park", lat, lon, svc)
      && t.view == Some(MapView((lat, lon), MapZoom, (lat, lon), svc.title("shailer park")))
  {
    ShowMeRequest(place);
    ShailerParkQuery(place);
  }

  /** "Show me Shailer Park", not located: one completion call about the place, under the banner. */
  lemma ShailerParkFallback(place: string, apiKey: string, svc: Services)
    requires place == "Shailer Park"
    requires svc.geocode("shailer park") == NotFound
    ensures var t := Route("Show me " + place, apiKey, svc);
      && t.geocoderQueries == ["shailer park"]
      && t.completionPrompts == [FallbackPrompt("shailer park")]
      && t.stored == CallGroq(svc.complete(FallbackPrompt("shailer park"), apiKey))
      && t.shown == FallbackBanner + t.stored
      && t.view == None
  {
    ShowMeRequest(place);
    ShailerParkQuery(place);
  }

  /** "Tell me a joke" goes to the completion endpoint verbatim and nothing is geocoded. */
  lemma JokeTurn(prompt: string, apiKey: string, svc: Services)
    requires prompt == "Tell me a joke"
    ensures var t := Route(prompt, apiKey, svc);
      && t.geocoderQueries == []
      && t.completionPrompts == [prompt]
      && t.stored == t.shown == CallGroq(svc.complete(prompt, apiKey))
      && t.view == None
  {
    JokeIsNotRequest(prompt);
  }
}
