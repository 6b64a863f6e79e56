/**
 * The reply texts of the bot (app.py): the help text of `get_help_message`
 * and every reply `handle_whatsapp` can send, keyed by an `Outcome` that
 * names which one it is. The transport's XML wrapping is not modelled; this
 * is the message body.
 */
module Messages {
  import opened Wrappers
  import opened Gateway

  const Pin := "\U{1F4CD}"
  const Arrow := "\U{27A1}\U{FE0F}"
  const MapIcon := "\U{1F5FA}\U{FE0F}"
  const Cross := "\U{274C}"
  const Rocket := "\U{1F680}"
  const WarningSign := "\U{26A0}\U{FE0F}"

  /** A parsed coordinate, as the two ways the reply prints it:
      `f"{x:.6f}"` and `f"{x}"`. Float parsing and formatting are not modelled. */
  datatype Coordinate = Coordinate(fixed6: string, shown: string)

  /** Which reply the handler sends. */
  datatype Outcome =
    | QrUnreadable                   // no image, or no QR text in it
    | QrNoCode                       // QR text without a code
    | QrNotFound(code: string)       // code from the QR text unknown upstream
    | QrFound(record: AddressRecord)
    | DirectInvalid                  // typed code unknown upstream
    | DirectFound(record: AddressRecord)
    | Located(lat: Coordinate, lng: Coordinate, found: Option<string>)
    | Help
    | ServerError                    // anything raised inside the handler

  /** The fixed text of `get_help_message`: a triple-quoted literal, so the
      line breaks and indentation of the source are part of it. */
  const HelpText :=
    Rocket + " *GhanaPost GPS Bot Help* " + Rocket + "\n\n\n"
    + "        \U{1F50D} *Lookup Address*:\n\n"
    + "        Send a GhanaPost code like:\n\n"
    + "        \U{2022} `GA1234567`\n\n"
    + "        \U{2022} `GA-123-4567`\n\n\n"
    + "        \U{1F4F7} *Scan QR Code*:\n\n"
    + "        Send a GhanaPost QR image\n\n\n"
    + "        " + Pin + " *Share Location*:\n\n"
    + "        Tap \U{1F4CE} \U{2192} Location \U{2192} Send"

  // Each crossed reply is written as mark, blank, first word and the rest,
  // the pieces `FailureInitial` tells the replies apart by.
  const UnreadableText := Cross + " " + "Could" + " not read QR code. Please send a clear image of a GhanaPost QR code"
  const NoCodeText := Cross + " " + "No" + " valid GhanaPost code found in QR image"
  const NotFoundPrefix := Cross + " " + "Address" + " not found for code: "
  const InvalidText := Cross + " " + "Invalid" + " GhanaPost code. Try GA1234567 or GA-123-4567"
  const ServerErrorText := WarningSign + " Server error. Please try again later."
  const NotAvailable := "Not available"

  /** How an f-string shows an optional value: `None` when absent. */
  function Show(v: Option<string>): (s: string)
    ensures v.Some? ==> s == v.value
    ensures v.None? ==> s == "None"
  {
    match v
    case Some(x) => x
    case None => "None"
  }

  /** `ghanapost_code or 'Not available'`: the placeholder for a missing or empty code. */
  function CodeOrPlaceholder(code: Option<string>): (s: string)
    ensures code.Some? && code.value != "" ==> s == code.value
    ensures code.None? || code == Some("") ==> s == NotAvailable
  {
    if code.Some? && code.value != "" then code.value else NotAvailable
  }

  /** A field label: the direct-lookup reply stars its labels, the QR reply does not. */
  function Label(name: string, starred: bool): string {
    if starred then "*" + name + "*: " else name + ": "
  }

  /** The last line of an answer: a map link for a pair of coordinates. */
  function MapLine(lat: string, lng: string): string {
    MapIcon + " View on map: https://maps.google.com?q=" + lat + "," + lng
  }

  /** The heading of the "Address Found" reply, up to the code's value. */
  function AddressHead(starred: bool): (r: string)
    ensures |r| > 2 && r[0] == '\U{1F4CD}'
  {
    var r := Pin + " *Address Found* " + Pin + "\n" + Arrow + " " + Label("Code", starred);
    assert r == Pin + r[1..];
    r
  }

  /** The "Address Found" reply for a record: it opens with a pin and its
      first field is the record's code as the service spelled it. */
  function AddressText(rec: AddressRecord, starred: bool): (r: string)
    ensures |r| > 2 && r[0] == '\U{1F4CD}'
    ensures AddressHead(starred) + rec.rawCode + "\n" <= r
  {
    var head := AddressHead(starred) + rec.rawCode + "\n";
    var fields := Arrow + " " + Label("Street", starred) + rec.street + "\n"
      + Arrow + " " + Label("District", starred) + rec.district + "\n"
      + Arrow + " " + Label("Region", starred) + rec.region + "\n\n"
      + MapLine(Show(rec.lat), Show(rec.lng));
    assert (head + fields)[0] == head[0] == AddressHead(starred)[0];
    head + fields
  }

  /** The heading of the "Location Received" reply, up to the coordinates. */
  const LocationHead := Pin + " *Location Received* " + Pin + "\n" + Arrow + " *Coordinates*: "

  /** The "Location Received" reply: it opens with a pin, then shows the
      coordinates to six decimals and the code found for them, or the
      placeholder. */
  function LocationText(lat: Coordinate, lng: Coordinate, code: Option<string>): (r: string)
    ensures |r| > 2 && r[0] == '\U{1F4CD}'
    ensures LocationHead + lat.fixed6 + ", " + lng.fixed6 + "\n"
            + Arrow + " *GhanaPost Code*: " + CodeOrPlaceholder(code) + "\n\n" <= r
  {
    var head := LocationHead + lat.fixed6 + ", " + lng.fixed6 + "\n"
      + Arrow + " *GhanaPost Code*: " + CodeOrPlaceholder(code) + "\n\n";
    assert head == Pin + head[1..];
    head + MapLine(lat.shown, lng.shown)
  }

  /** The reply text for an outcome. Each reply opens with its mark: a
      rocket for help, a warning sign for the server error, a cross for the
      other failures, a pin for answers. */
  function Render(o: Outcome): (r: string)
    ensures |r| > 2
    ensures r[0] == (if o.Help? then '\U{1F680}'
                     else if o.ServerError? then '\U{26A0}'
                     else if o.QrFound? || o.DirectFound? || o.Located? then '\U{1F4CD}'
                     else '\U{274C}')
  {
    match o
    case QrUnreadable => UnreadableText
    case QrNoCode => NoCodeText
    case QrNotFound(code) =>
      assert (NotFoundPrefix + code)[0] == NotFoundPrefix[0];
      NotFoundPrefix + code
    case QrFound(rec) => AddressText(rec, false)
    case DirectInvalid => InvalidText
    case DirectFound(rec) => AddressText(rec, true)
    case Located(lat, lng, code) => LocationText(lat, lng, code)
    case Help => HelpLead(); HelpText
    case ServerError => ServerErrorText
  }

  /** Replies that report a failure rather than an answer. */
  predicate IsFailure(o: Outcome) {
    o.QrUnreadable? || o.QrNoCode? || o.QrNotFound? || o.DirectInvalid? || o.ServerError?
  }

  lemma HelpLead()
    ensures |HelpText| > 2 && HelpText[0] == '\U{1F680}'
  {
  }

  /** The fixed replies. A proof aid: it unfolds `Render` for the
      replies that do not depend on the outcome's fields. */
  lemma RenderFixed(o: Outcome)
    ensures o.QrUnreadable? ==> Render(o) == UnreadableText
    ensures o.QrNoCode? ==> Render(o) == NoCodeText
    ensures o.DirectInvalid? ==> Render(o) == InvalidText
    ensures o.Help? ==> Render(o) == HelpText
    ensures o.ServerError? ==> Render(o) == ServerErrorText
  {
  }

  /** The answer replies. A proof aid: it unfolds `Render` for the
      replies built from the outcome's fields. */
  lemma RenderAnswer(o: Outcome)
    ensures o.QrNotFound? ==> Render(o) == NotFoundPrefix + o.code
    ensures o.QrFound? ==> Render(o) == AddressText(o.record, false)
    ensures o.DirectFound? ==> Render(o) == AddressText(o.record, true)
    ensures o.Located? ==> Render(o) == LocationText(o.lat, o.lng, o.found)
  {
  }

  /** The help text is sent for the help outcome and for nothing else. */
  lemma HelpTextOnlyForHelp(o: Outcome)
    ensures Render(o) == HelpText <==> o == Help
  {
    HelpLead();
    assert Render(o) == HelpText ==> Render(o)[0] == '\U{1F680}';
  }

  /** The server-error apology is sent for that outcome and for nothing else. */
  lemma ServerErrorTextOnlyForServerError(o: Outcome)
    ensures Render(o) == ServerErrorText <==> o == ServerError
  {
    assert Render(o) == ServerErrorText ==> Render(o)[0] == '\U{26A0}';
  }

  /** Different failures give different replies, so a user can tell an
      unreadable image, a QR text without a code, an unknown code (and
      which), an invalid typed code and a server error apart. */
  lemma FailureRepliesDistinct(o1: Outcome, o2: Outcome)
    requires IsFailure(o1) && IsFailure(o2) && o1 != o2
    ensures Render(o1) != Render(o2)
  {
    if o1.QrNotFound? && o2.QrNotFound? {
      assert Render(o1)[|NotFoundPrefix|..] == o1.code;
      assert Render(o2)[|NotFoundPrefix|..] == o2.code;
    } else if !o1.ServerError? && !o2.ServerError? {
      FailureInitial(o1);
      FailureInitial(o2);
    }
  }

  lemma InitialAfterMark(mark: string, word: string, rest: string)
    requires |mark| == 1 && word != []
    ensures (mark + " " + word + rest)[2] == word[0]
  {
  }

  /** The word after the cross tells the crossed failures apart. */
  lemma FailureInitial(o: Outcome)
    requires IsFailure(o) && !o.ServerError?
    ensures |Render(o)| > 2
    ensures Render(o)[2] == (if o.QrUnreadable? then 'C' else if o.QrNoCode? then 'N'
                             else if o.QrNotFound? then 'A' else 'I')
  {
    match o
    case QrNotFound(code) =>
      InitialAfterMark(Cross, "Address", " not found for code: ");
      assert Render(o) == NotFoundPrefix + code;
      assert (NotFoundPrefix + code)[2] == NotFoundPrefix[2];
    case QrUnreadable =>
      InitialAfterMark(Cross, "Could", " not read QR code. Please send a clear image of a GhanaPost QR code");
    case QrNoCode =>
      InitialAfterMark(Cross, "No", " valid GhanaPost code found in QR image");
    case DirectInvalid =>
      InitialAfterMark(Cross, "Invalid", " GhanaPost code. Try GA1234567 or GA-123-4567");
  }
}
