/**
 * End-to-end scenarios of `handle_whatsapp`, proved: messages with the given fields and
 * collaborators with the given answers. (Each scenario takes the message
 * and the answers as parameters fixed by its preconditions.)
 */
module Scenarios {
  import opened Wrappers
  import opened Text
  import opened CodePattern
  import opened CodeProperties
  import opened CodeExamples
  import opened Gateway
  import opened Messages
  import opened Webhook

  /** The compact code is its own cleaned form and passes the strict check. */
  lemma CompactCodeIsTyped()
    ensures Clean("GA1234567") == "GA1234567" && IsStrictCode("GA1234567")
  {
    CompactSpelled();
    StrictRoundTrip(Token("GA", false, "123", false, "4567"));
    CleanFixed("GA1234567");
  }

  lemma CompactSpelled()
    ensures Spell(Token("GA", false, "123", false, "4567")) == "GA1234567"
  {
  }

  /** The hyphenated example of the help text passes the strict check too. */
  lemma HyphenatedCodeIsTyped()
    ensures Clean("GA-123-4567") == "GA-123-4567" && IsStrictCode("GA-123-4567")
  {
    HyphenatedSpelled();
    StrictRoundTrip(Token("GA", true, "123", true, "4567"));
    CleanFixed("GA-123-4567");
  }

  lemma HyphenatedSpelled()
    ensures Spell(Token("GA", true, "123", true, "4567")) == "GA-123-4567"
  {
  }

  const RidgeRoadRow: Row := map[
    "Street" := "Ridge Road", "District" := "Accra", "Region" := "Greater Accra",
    "CenterLatitude" := "5.6", "CenterLongitude" := "-0.2"]

  const RidgeRoad := AddressRecord("Ridge Road", "Accra", "Greater Accra", Some("5.6"), Some("-0.2"), "GA1234567")

  lemma RidgeRoadRecord(code: string)
    ensures FetchRecord(code, Answered(200, Table([RidgeRoadRow]))) == Some(RidgeRoad.(rawCode := code))
  {
  }

  /** A typed compact code with a full upstream row: the address reply, with
      the code exactly as typed (the lookup is sent the unhyphenated body). */
  lemma TypedCodeFound(m: Inbound, env: Collaborators)
    requires m.body == "GA1234567" && m.mediaUrl.None?
    requires env.forward == Answered(200, Table([RidgeRoadRow]))
    ensures HandleWhatsapp(m, env) == AddressText(RidgeRoad, true)
  {
    CompactCodeIsTyped();
    RidgeRoadRecord("GA1234567");
    assert RidgeRoad.(rawCode := "GA1234567") == RidgeRoad;
    DirectCodeShownVerbatim(m, env);
  }

  /** A greeting is not a code. */
  lemma GreetingIsNoCode()
    ensures Clean("hello") == "HELLO" && !IsStrictCode("HELLO")
  {
    TrimFixed("hello");
    NotAllDigits("LLO", 0);
    assert "HELLO"[2..5] == "LLO";
  }

  /** A greeting gets the help text. */
  lemma GreetingGetsHelp(m: Inbound, env: Collaborators)
    requires m == Inbound("hello", None, None, None)
    ensures HandleWhatsapp(m, env) == HelpText
  {
    GreetingIsNoCode();
    assert Classify(m) == HelpRequest;
    ReplyOf(m, env, Help);
    RenderFixed(Help);
  }

  /** An image whose QR text holds a code among noise, with the lookup
      failing: the reply names the extracted code. */
  lemma QrCodeInNoiseNotFound(m: Inbound, env: Collaborators)
    requires Given(m.mediaUrl)
    requires env.qrText == Some("random noise AK-325-9995 more noise") && env.forward == PostFailed
    ensures HandleWhatsapp(m, env) == NotFoundPrefix + "AK-325-9995"
  {
    CodeInNoise();
    assert Classify(m) == QrLookup(m.mediaUrl.value);
    assert Dispatch(Classify(m), env) == QrNotFound("AK-325-9995");
    ReplyOf(m, env, QrNotFound("AK-325-9995"));
    RenderAnswer(QrNotFound("AK-325-9995"));
  }

  /** A shared location whose reverse lookup fails: coordinates to six
      places and "Not available" for the code, without an error. */
  lemma LocationReverseLookupFails(m: Inbound, env: Collaborators)
    requires m.body == "" && m.mediaUrl.None? && m.latitude == Some("5.55") && m.longitude == Some("-0.2167")
    requires env.parseCoordinate("5.55") == Some(Coordinate("5.550000", "5.55"))
    requires env.parseCoordinate("-0.2167") == Some(Coordinate("-0.216700", "-0.2167"))
    requires env.reverse == RevPostFailed
    ensures HandleWhatsapp(m, env) ==
            LocationText(Coordinate("5.550000", "5.55"), Coordinate("-0.216700", "-0.2167"), None)
  {
    assert Clean("") == "";
    var lat, lng := Coordinate("5.550000", "5.55"), Coordinate("-0.216700", "-0.2167");
    assert Classify(m) == LocationLookup("5.55", "-0.2167");
    assert Dispatch(Classify(m), env) == Located(lat, lng, None);
    ReplyOf(m, env, Located(lat, lng, None));
    RenderAnswer(Located(lat, lng, None));
  }
}
