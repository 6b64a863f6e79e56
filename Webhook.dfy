/**
 * `handle_whatsapp` (app.py): classify the inbound message by a fixed
 * priority (image, then a typed code, then a shared location, then help),
 * run the one pipeline the class calls for, and send exactly one reply.
 *
 * The outside world enters as values: the request fields, and what each
 * collaborator call returned (the QR text `decode_qr` produced, the answer
 * to the lookup request, the answer to the reverse request), and `float()`
 * as a parameter function from a coordinate field to its value, `None`
 * where it raises.
 */
module Webhook {
  import opened Wrappers
  import opened Text
  import opened CodePattern
  import opened CodeProperties
  import opened Gateway
  import opened Messages

  /** The request fields the handler reads. An absent `Body` is the empty text. */
  datatype Inbound = Inbound(
    body: string, mediaUrl: Option<string>,
    latitude: Option<string>, longitude: Option<string>)

  /** What the collaborators returned for this request. */
  datatype Collaborators = Collaborators(
    qrText: Option<string>,
    forward: ForwardResponse,
    reverse: ReverseResponse,
    parseCoordinate: string -> Option<Coordinate>)

  /** The four intents, in priority order. */
  datatype Intent =
    | QrLookup(mediaUrl: string)
    | DirectLookup(code: string)
    | LocationLookup(latitude: string, longitude: string)
    | HelpRequest

  /** Python truthiness of an optional text field: present and not empty. */
  predicate Given(v: Option<string>) {
    v.Some? && v.value != ""
  }

  /** The early-return ladder of `handle_whatsapp`. A typed code is the whole
      cleaned body when the strict grammar spells it, passed on as it is. */
  function Classify(m: Inbound): (r: Intent)
    ensures r.QrLookup? <==> Given(m.mediaUrl)
    ensures r.DirectLookup? <==> !Given(m.mediaUrl) && IsStrictCode(Clean(m.body))
    ensures r.LocationLookup? <==>
              !Given(m.mediaUrl) && !IsStrictCode(Clean(m.body))
              && Given(m.latitude) && Given(m.longitude)
    ensures r.QrLookup? ==> r.mediaUrl == m.mediaUrl.value
    ensures r.DirectLookup? ==> r.code == Clean(m.body)
    ensures r.LocationLookup? ==> r.latitude == m.latitude.value && r.longitude == m.longitude.value
  {
    if Given(m.mediaUrl) then QrLookup(m.mediaUrl.value)
    else if IsStrictCode(Clean(m.body)) then DirectLookup(Clean(m.body))
    else if Given(m.latitude) && Given(m.longitude) then LocationLookup(m.latitude.value, m.longitude.value)
    else HelpRequest
  }

  /** Without an image, a message is a typed-code lookup exactly when its
      cleaned body is spelled by the strict grammar. */
  lemma DirectLookupExactlyForSpelledCodes(m: Inbound)
    ensures Classify(m).DirectLookup? <==>
            !Given(m.mediaUrl) && exists t :: Shaped(t) && Spell(t) == Clean(m.body)
  {
    StrictGrammar(Clean(m.body));
  }

  /** `float()` succeeds on both coordinate fields. */
  predicate CoordinatesParse(env: Collaborators, latitude: string, longitude: string) {
    env.parseCoordinate(latitude).Some? && env.parseCoordinate(longitude).Some?
  }

  /** The pipeline for each intent, ending in the outcome to report. Each
      intent reaches only its own replies; the lookups report the code they
      looked up, and the apology comes from unparsable coordinates alone. */
  function Dispatch(intent: Intent, env: Collaborators): (o: Outcome)
    ensures intent.QrLookup? ==> o.QrUnreadable? || o.QrNoCode? || o.QrNotFound? || o.QrFound?
    ensures intent.DirectLookup? ==> o.DirectInvalid? || o.DirectFound?
    ensures intent.LocationLookup? ==> o.ServerError? || o.Located?
    ensures o.Help? <==> intent.HelpRequest?
    ensures o.QrUnreadable? <==> intent.QrLookup? && !Given(env.qrText)
    ensures o.QrNotFound? || o.QrFound? ==>
              exists code :: ExtractCode(env.qrText) == Some(code)
                && (if o.QrNotFound? then o.code == code else o.record.rawCode == code)
    ensures o.DirectFound? ==> o.record.rawCode == intent.code
    ensures o.ServerError? <==>
              intent.LocationLookup? && !CoordinatesParse(env, intent.latitude, intent.longitude)
    ensures o.Located? ==>
              o.lat == env.parseCoordinate(intent.latitude).value
              && o.lng == env.parseCoordinate(intent.longitude).value
              && o.found == ReverseGeocode(env.reverse)
  {
    match intent
    case QrLookup(_) =>
      if !Given(env.qrText) then QrUnreadable
      else (
        match ExtractCode(env.qrText)
        case None => QrNoCode
        case Some(code) => (
          match FetchRecord(code, env.forward)
          case None => QrNotFound(code)
          case Some(rec) => QrFound(rec)))
    case DirectLookup(code) => (
      match FetchRecord(code, env.forward)
      case None => DirectInvalid
      case Some(rec) => DirectFound(rec))
    case LocationLookup(latitude, longitude) =>
      if !CoordinatesParse(env, latitude, longitude) then ServerError
      else Located(env.parseCoordinate(latitude).value, env.parseCoordinate(longitude).value,
                   ReverseGeocode(env.reverse))
    case HelpRequest => Help
  }

  /** `handle_whatsapp`: the one reply for an inbound message. It opens with
      a rocket exactly when it is the help reply, and with a warning sign
      exactly when a shared location's coordinates do not parse. */
  function HandleWhatsapp(m: Inbound, env: Collaborators): (r: string)
    ensures |r| > 2
    ensures r[0] == '\U{1F680}' <==> Classify(m).HelpRequest?
    ensures r[0] == '\U{26A0}' <==>
              Classify(m).LocationLookup?
              && !CoordinatesParse(env, Classify(m).latitude, Classify(m).longitude)
  {
    Render(Dispatch(Classify(m), env))
  }

  /** The reply is the rendering of the outcome the pipeline reached. A proof
      aid: it unfolds `HandleWhatsapp` once the outcome is known. */
  lemma ReplyOf(m: Inbound, env: Collaborators, o: Outcome)
    requires Dispatch(Classify(m), env) == o
    ensures HandleWhatsapp(m, env) == Render(o)
  {
  }

  /** An attached image decides the reply alone: the body and any coordinates
      make no difference. */
  lemma MediaTakesPrecedence(m1: Inbound, m2: Inbound, env: Collaborators)
    requires Given(m1.mediaUrl) && m2.mediaUrl == m1.mediaUrl
    ensures HandleWhatsapp(m1, env) == HandleWhatsapp(m2, env)
  {
    assert Classify(m1) == Classify(m2);
  }

  /** An image without readable QR text gets the "could not read" reply. */
  lemma QrUnreadableReply(m: Inbound, env: Collaborators)
    requires Given(m.mediaUrl) && !Given(env.qrText)
    ensures HandleWhatsapp(m, env) == UnreadableText
  {
    assert Classify(m) == QrLookup(m.mediaUrl.value);
    ReplyOf(m, env, QrUnreadable);
    RenderFixed(QrUnreadable);
  }

  /** QR text in which the search pattern occurs nowhere gets the
      "no valid code" reply. */
  lemma QrWithoutCodeReply(m: Inbound, env: Collaborators)
    requires Given(m.mediaUrl) && Given(env.qrText)
    requires NoMatchFrom(Clean(env.qrText.value), 0)
    ensures HandleWhatsapp(m, env) == NoCodeText
  {
    ExtractNone(env.qrText.value);
    assert Classify(m) == QrLookup(m.mediaUrl.value);
    ReplyOf(m, env, QrNoCode);
    RenderFixed(QrNoCode);
  }

  /** The leftmost code in the QR text is looked up in canonical form; when
      the lookup fails the reply names that code. */
  lemma QrCodeNotFoundReply(m: Inbound, env: Collaborators, i: nat, t: Token)
    requires Given(m.mediaUrl) && Given(env.qrText)
    requires IsLeftmostMatch(Clean(env.qrText.value), i, t)
    requires FetchRecord(Canonical(t), env.forward).None?
    ensures HandleWhatsapp(m, env) == NotFoundPrefix + Canonical(t)
  {
    ExtractComplete(env.qrText.value, i, t);
    assert Classify(m) == QrLookup(m.mediaUrl.value);
    assert Dispatch(Classify(m), env) == QrNotFound(Canonical(t));
    ReplyOf(m, env, QrNotFound(Canonical(t)));
    RenderAnswer(QrNotFound(Canonical(t)));
  }

  /** When the lookup for the leftmost QR code succeeds, the reply is the
      unstarred address text, and its Code is the canonical code. */
  lemma QrCodeFoundReply(m: Inbound, env: Collaborators, i: nat, t: Token)
    requires Given(m.mediaUrl) && Given(env.qrText)
    requires IsLeftmostMatch(Clean(env.qrText.value), i, t)
    requires FetchRecord(Canonical(t), env.forward).Some?
    ensures var rec := FetchRecord(Canonical(t), env.forward).value;
            rec.rawCode == Canonical(t) && HandleWhatsapp(m, env) == AddressText(rec, false)
  {
    ExtractComplete(env.qrText.value, i, t);
    var rec := FetchRecord(Canonical(t), env.forward).value;
    assert Classify(m) == QrLookup(m.mediaUrl.value);
    assert Dispatch(Classify(m), env) == QrFound(rec);
    ReplyOf(m, env, QrFound(rec));
    RenderAnswer(QrFound(rec));
  }

  /** Without an image, a typed code decides the reply alone: coordinates
      make no difference. */
  lemma CodeTakesPrecedenceOverLocation(m1: Inbound, m2: Inbound, env: Collaborators)
    requires !Given(m1.mediaUrl) && !Given(m2.mediaUrl) && m1.body == m2.body
    requires IsStrictCode(Clean(m1.body))
    ensures HandleWhatsapp(m1, env) == HandleWhatsapp(m2, env)
  {
    assert Classify(m1) == Classify(m2);
  }

  /** A typed code is looked up and shown exactly as the cleaned body reads,
      not rebuilt: a body with one hyphen reaches the lookup with one hyphen. */
  lemma DirectCodeShownVerbatim(m: Inbound, env: Collaborators)
    requires !Given(m.mediaUrl) && IsStrictCode(Clean(m.body))
    requires FetchRecord(Clean(m.body), env.forward).Some?
    ensures var rec := FetchRecord(Clean(m.body), env.forward).value;
            rec.rawCode == Clean(m.body) && HandleWhatsapp(m, env) == AddressText(rec, true)
  {
    var code := Clean(m.body);
    var rec := FetchRecord(code, env.forward).value;
    assert Classify(m) == DirectLookup(code);
    assert Dispatch(Classify(m), env) == DirectFound(rec);
    ReplyOf(m, env, DirectFound(rec));
    RenderAnswer(DirectFound(rec));
  }

  /** A typed code the lookup does not resolve gets the "invalid code" reply,
      not the QR branch's "not found" reply. */
  lemma DirectCodeNotFoundReply(m: Inbound, env: Collaborators)
    requires !Given(m.mediaUrl) && IsStrictCode(Clean(m.body))
    requires FetchRecord(Clean(m.body), env.forward).None?
    ensures HandleWhatsapp(m, env) == InvalidText
  {
    var code := Clean(m.body);
    assert Classify(m) == DirectLookup(code);
    ReplyOf(m, env, DirectInvalid);
    RenderFixed(DirectInvalid);
  }

  /** A failed reverse lookup is not an error: the location reply is still
      sent, with the code "Not available". */
  lemma LocationWithoutCode(m: Inbound, env: Collaborators)
    requires Classify(m).LocationLookup?
    requires CoordinatesParse(env, m.latitude.value, m.longitude.value)
    requires ReverseGeocode(env.reverse).None?
    ensures var lat := env.parseCoordinate(m.latitude.value).value;
            var lng := env.parseCoordinate(m.longitude.value).value;
            && HandleWhatsapp(m, env) == LocationText(lat, lng, None)
            && LocationHead + lat.fixed6 + ", " + lng.fixed6 + "\n"
               + Arrow + " *GhanaPost Code*: " + NotAvailable + "\n\n" <= HandleWhatsapp(m, env)
  {
    var lat, lng := env.parseCoordinate(m.latitude.value).value, env.parseCoordinate(m.longitude.value).value;
    assert Dispatch(Classify(m), env) == Located(lat, lng, None);
    ReplyOf(m, env, Located(lat, lng, None));
    RenderAnswer(Located(lat, lng, None));
    assert CodeOrPlaceholder(None) == NotAvailable;
  }

  /** The server-error apology is sent exactly when a shared location's
      coordinates do not parse: the one failure the handler's catch-all
      receives from the modelled code. */
  lemma ServerErrorExactlyOnBadCoordinates(m: Inbound, env: Collaborators)
    ensures HandleWhatsapp(m, env) == ServerErrorText <==>
            Classify(m).LocationLookup?
            && !CoordinatesParse(env, Classify(m).latitude, Classify(m).longitude)
  {
    ServerErrorTextOnlyForServerError(Dispatch(Classify(m), env));
  }

  /** The help text is sent exactly when no image, no typed code and no
      complete location came in. */
  lemma HelpExactlyWhenNothingElse(m: Inbound, env: Collaborators)
    ensures HandleWhatsapp(m, env) == HelpText <==>
            && !Given(m.mediaUrl) && !IsStrictCode(Clean(m.body))
            && !(Given(m.latitude) && Given(m.longitude))
  {
    HelpTextOnlyForHelp(Dispatch(Classify(m), env));
  }
  /** The image and typed-code pipelines never depend on the reverse lookup
      or on the coordinates. */
  lemma LookupRepliesIgnoreLocation(m: Inbound, env1: Collaborators, env2: Collaborators)
    requires !Classify(m).LocationLookup?
    requires env1.qrText == env2.qrText && env1.forward == env2.forward
    ensures HandleWhatsapp(m, env1) == HandleWhatsapp(m, env2)
  {
    assert Dispatch(Classify(m), env1) == Dispatch(Classify(m), env2);
  }

  /** The location pipeline never depends on the QR text or on the forward
      lookup. With the previous lemma: at most one of the two lookups matters. */
  lemma LocationReplyIgnoresLookup(m: Inbound, env1: Collaborators, env2: Collaborators)
    requires Classify(m).LocationLookup?
    requires env1.reverse == env2.reverse
    requires env1.parseCoordinate(m.latitude.value) == env2.parseCoordinate(m.latitude.value)
    requires env1.parseCoordinate(m.longitude.value) == env2.parseCoordinate(m.longitude.value)
    ensures HandleWhatsapp(m, env1) == HandleWhatsapp(m, env2)
  {
    assert Dispatch(Classify(m), env1) == Dispatch(Classify(m), env2);
  }
}
