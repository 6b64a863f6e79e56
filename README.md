# GhanaPost GPS WhatsApp bot — a Dafny model of its core

The bot (`app.py`) answers WhatsApp messages that arrive through a Twilio
webhook. It handles three kinds of request:
- an image: it reads a GhanaPost GPS code from the QR code inside and looks
  up the address;
- a typed code: it looks up the address;
- a shared location: it asks the GhanaPost service which code covers it.

Anything else gets a fixed help text. Every request gets exactly one reply.
An unexpected failure inside the handler gets a fixed "server error" apology.

This project models that core as pure functions over values and proves what
it guarantees. The modules are:

- `Text`: the clean-up applied to every text, `strip()` then `upper()`.
- `CodePattern`: the two code grammars, written directly over characters.
  - The search grammar `\b([A-Z]{2})(-?)(\d{3})\2(\d{3,4})\b` is used by
    `extract_code_from_qr`. It takes the leftmost match and rebuilds it as
    `LL-DDD-DDD(D)`.
  - The anchored grammar `^[A-Za-z]{2}[-]?\d{3}[-]?\d{3,4}$` is used on
    typed messages. Its two optional hyphens are independent.
- `CodeProperties`: what the grammars guarantee.
  - The search is complete and leftmost.
  - Its output is always canonical and is found again unchanged.
  - The back-reference makes agreeing separators a condition of acceptance.
  - The strict check accepts exactly the strings its grammar spells.
- `CodeExamples`: worked examples: the two formats named in the comment of
  `extract_code_from_qr` (app.py line 120) and in the help text, and edge
  cases around them, worked through the general lemmas.
- `Gateway`: `fetch_ghanapost_data` and `reverse_geocode`, over an abstract
  description of the HTTP answer.
- `Messages`: every reply text, including the help text.
- `Webhook`: the priority ladder of `handle_whatsapp` as a classification
  (`Classify`), the pipeline for each class (`Dispatch`), and the reply
  (`HandleWhatsapp`).
- `Scenarios`: end-to-end scenarios, proved.

The outside world enters as parameters to the pipeline:
- the request fields;
- the text `decode_qr` produced, or none;
- the answers to the two GhanaPost requests;
- `float()`, as a parameter function from a coordinate field to its value,
  or none when it raises.

A pipeline uses only the parameters it needs, so a request depends on at
most one of the two lookups.

On these points the model follows `app.py` to the letter:

- A typed code is looked up and shown exactly as the cleaned body reads
  (`GA1234567` stays `GA1234567`). It is not rebuilt as `GA-123-4567`.
- A record without coordinates shows `None` in the map link, which is what
  an f-string prints for Python's `None`.
- An answer with status 200 but no `data` or no `Table` key still yields a
  record. The default `[{}]` supplies an empty row, so every field is `N/A`.
  An empty `Table` list raises `IndexError`, which is caught, so it gives no
  record.
- The anchored check lets through codes with one hyphen (`GA-1234567`),
  which the QR search rejects.
- An empty `gpscode` shows as "Not available", just like a missing one.

## Model

| member | source | states |
|---|---|---|
| Text.Trim | app.py:118 | `strip()` returns a contiguous piece of the text with no whitespace at either end, and everything it removes is whitespace |
| Text.Upper | app.py:118 | `upper()` keeps the length and maps each character to its capital: `a`–`z` become `A`–`Z` (32 code points lower), every other character is unchanged; so no lower-case letter is left, and letters and word characters stay in place |
| Text.TrimFixed | app.py:137 | a text that neither starts nor ends with whitespace is unchanged by `strip()` |
| Text.CleanShape | app.py:137 | `strip().upper()` gives the stripped length, no lower-case letter, and no whitespace at either end |
| CodePattern.TailLength | app.py:121 | `(\d{3,4})\b` takes four digits when they end at a word boundary, otherwise three when they do, otherwise fails |
| CodePattern.MatchAt | app.py:121 | whatever the pattern reports at a position is a match there: upper-case letters, one separator choice used twice, digit groups of the right lengths, word boundaries at both ends |
| CodePattern.SearchFrom | app.py:122 | what `re.search` reports from a position on is a match starting inside the text |
| CodePattern.ExtractCode | app.py:112-131 | no text or empty text gives no code; every code returned is two capitals, a hyphen, three digits, a hyphen, and three or four digits |
| CodePattern.ParseStrict | app.py:163 | a token accepted by the anchored check has the strict shape and spells the whole text |
| CodeProperties.MatchAtComplete | app.py:121 | every match of the pattern at a position is found there, and a position has at most one match |
| CodeProperties.SearchFromLeftmost | app.py:122 | the search reports the leftmost match, and reports none only when no match exists |
| CodeProperties.ExtractSound | app.py:118-131 | every code returned is the canonical form of the leftmost match in the cleaned text |
| CodeProperties.ExtractComplete | app.py:118-131 | the leftmost match in the cleaned text is returned, in canonical form |
| CodeProperties.ExtractNone | app.py:122-126 | no code is returned exactly when the pattern occurs nowhere in the cleaned text |
| CodeProperties.ExtractOccurs | app.py:118-129 | the letters and digits of a returned code stand together in the cleaned text, either with both hyphens or with neither |
| CodeProperties.CanonicalFixed | app.py:118-129 | a canonical code is extracted from itself unchanged |
| CodeProperties.ExtractIdempotent | app.py:112-131 | extracting from the extracted code returns it again |
| CodeProperties.CleanSpell | app.py:118 | cleaning a spelled code capitalises its letters and changes nothing else |
| CodeProperties.ExtractSpelledAgreeing | app.py:118-129 | a text that is one code with agreeing separators, in either case, is returned with capitals and two hyphens |
| CodeProperties.NoMatchInMixed | app.py:121 | the back-reference finds no match anywhere in a code whose two separators disagree |
| CodeProperties.ExtractSpelledMixed | app.py:121-126 | a text that is one code with a single hyphen gives no code |
| CodeProperties.StrictRoundTrip | app.py:163 | the anchored check parses every string its grammar spells back into the same pieces |
| CodeProperties.StrictGrammar | app.py:163 | the anchored check accepts a text exactly when some strict-shaped token spells it |
| CodeProperties.StrictAcceptsMixedSeparators | app.py:163 | a code with one hyphen passes the anchored check but gives no code in the QR search |
| CodeExamples.CompactNormalised | app.py:118-129 | `GA1234567` gives `GA-123-4567` |
| CodeExamples.HyphenatedNormalised | app.py:118-129 | `GA-123-4567` gives `GA-123-4567` |
| CodeExamples.LowerCaseNormalised | app.py:118-129 | `ga-123-4567` gives `GA-123-4567` |
| CodeExamples.FirstHyphenOnly | app.py:121-126 | `GA-1234567` gives no code in the QR search but passes the anchored check |
| CodeExamples.SecondHyphenOnly | app.py:121-126 | `GA123-4567` gives no code in the QR search but passes the anchored check |
| CodeExamples.NoDigitNoMatch | app.py:121 | no match starts within the digit-free prefix of a text, up to three places before its end |
| CodeExamples.CodeBetween | app.py:121 | a code with a non-word character or a text end on each side matches where it stands |
| CodeExamples.NoisyLeftmost | app.py:122 | in the cleaned noisy text, `AK-325-9995` is the leftmost match, at position 13 |
| CodeExamples.CodeInNoise | app.py:118-131 | `random noise AK-325-9995 more noise` gives `AK-325-9995` |
| CodeExamples.LetterGluedInFront | app.py:121-126 | `XGA1234567` gives no code: no word boundary before the letters |
| CodeExamples.DigitGluedBehind | app.py:121-126 | `GA12345678` gives no code: no word boundary after the last digit group |
| Gateway.FirstRow | app.py:44 | the first row exists when the answer decodes to a non-empty `Table`, is empty (`{}`) when `data` or `Table` is missing, and is absent otherwise |
| Gateway.FetchRecord | app.py:37-55 | a record exactly when the answer has status 200 and a usable first row; the record carries the code it was asked for |
| Gateway.FetchRecordFields | app.py:44-52 | a found record's address fields come from the first row, with `N/A` for missing ones; its coordinates are present exactly when the row has them |
| Gateway.FetchRecordWithoutTable | app.py:44 | an answer without `data` or `Table` gives a record of placeholders with no coordinates |
| Gateway.ReverseGeocode | app.py:57-67 | a code exactly when the answer is ok (not 4xx or 5xx), decodes, and carries one; failures give none |
| Messages.HelpLead | app.py:22-33 | the help text opens with the rocket, which no other reply opens with |
| Messages.CodeOrPlaceholder | app.py:182 | a non-empty code is shown as it is; a missing or empty one as `Not available` |
| Messages.AddressText | app.py:152-159 | the address reply opens with a pin and its first field, after the Code label (starred or not), is the record's `raw_code` |
| Messages.LocationText | app.py:179-184 | the location reply opens with a pin, then shows both coordinates to six decimals and the code, or `Not available` |
| Messages.Render | app.py:146-193 | each reply opens with its mark: a rocket for help, a warning sign for the server error, a cross for the other failures, a pin for answers |
| Messages.HelpTextOnlyForHelp | app.py:22-33 | the help text is the reply for help and for nothing else |
| Messages.ServerErrorTextOnlyForServerError | app.py:191-193 | the apology is the reply for the server error and for nothing else |
| Messages.FailureInitial | app.py:146-173 | the word after the cross tells the four crossed failures apart |
| Messages.FailureRepliesDistinct | app.py:146-193 | different failures give different replies, and unknown codes differ by the code they name |
| Webhook.Classify | app.py:137-189 | an image wins; otherwise a body that passes the anchored check, passed on as cleaned; otherwise a location when both coordinates are non-empty; otherwise help |
| Webhook.Dispatch | app.py:141-189 | each intent reaches only its own replies; help exactly for the help intent; "could not read" exactly for an image without QR text; QR replies name the extracted code; a typed code's record carries that code; the apology exactly when `float()` fails on a coordinate; the location reply carries the parsed coordinates and the reverse lookup's code |
| Webhook.HandleWhatsapp | app.py:134-193 | the reply opens with a rocket exactly for help, and with a warning sign exactly when a shared location's coordinates do not parse |
| Webhook.DirectLookupExactlyForSpelledCodes | app.py:163 | without an image, a message is a typed-code lookup exactly when its cleaned body is spelled by the strict grammar |
| Webhook.MediaTakesPrecedence | app.py:141-160 | with an image attached, the body and the coordinates make no difference to the reply |
| Webhook.QrUnreadableReply | app.py:142-160 | an image without QR text gets the "could not read" reply |
| Webhook.QrWithoutCodeReply | app.py:144-146 | QR text in which the pattern occurs nowhere gets the "no valid code" reply |
| Webhook.QrCodeNotFoundReply | app.py:148-150 | when the lookup of the leftmost QR code fails, the reply names that code in canonical form |
| Webhook.QrCodeFoundReply | app.py:152-159 | when it succeeds, the reply is the unstarred address text, and its Code is the canonical code |
| Webhook.CodeTakesPrecedenceOverLocation | app.py:163-176 | without an image, a typed code makes the coordinates irrelevant |
| Webhook.DirectCodeShownVerbatim | app.py:163-172 | a typed code that resolves gets the starred address text, whose Code is the cleaned body as typed |
| Webhook.DirectCodeNotFoundReply | app.py:164-173 | a typed code that does not resolve gets the "invalid code" reply, including when the request raised |
| Webhook.LocationWithoutCode | app.py:176-186 | a failed reverse lookup still gets the location reply for the parsed coordinates, with `Not available` as the code |
| Webhook.ServerErrorExactlyOnBadCoordinates | app.py:176-193 | the apology is sent exactly when `float()` fails on one of a location's coordinates |
| Webhook.HelpExactlyWhenNothingElse | app.py:188-189 | the help text is sent exactly when there is no image, no typed code and no complete location |
| Webhook.LookupRepliesIgnoreLocation | app.py:141-173 | the image and typed-code replies do not depend on the reverse lookup or on the coordinates |
| Webhook.LocationReplyIgnoresLookup | app.py:176-186 | the location reply does not depend on the QR text or on the forward lookup |
| Scenarios.CompactCodeIsTyped | app.py:27 | `GA1234567` is its own cleaned form and passes the anchored check |
| Scenarios.HyphenatedCodeIsTyped | app.py:28 | `GA-123-4567`, the help text's second example, is its own cleaned form and passes the anchored check |
| Scenarios.TypedCodeFound | app.py:163-172 | typed `GA1234567` with a full Ridge Road row gets the address reply with Code `GA1234567` and map link `5.6,-0.2` |
| Scenarios.GreetingGetsHelp | app.py:189 | `hello` with no image and no location gets exactly the help text |
| Scenarios.QrCodeInNoiseNotFound | app.py:141-150 | QR text `random noise AK-325-9995 more noise` with a failed lookup gets "Address not found for code: AK-325-9995" |
| Scenarios.LocationReverseLookupFails | app.py:176-186 | location 5.55, -0.2167 with a failed reverse lookup gets `5.550000, -0.216700` and `Not available` |

## Left out

- Flask routing, the Twilio `MessagingResponse` XML wrapping and the HTTP response object (app.py:11-19). The model produces the message body only.
- The HTTP requests, their timeouts and JSON decoding (app.py:42, app.py:63). Each request's outcome is a parameter: it raised, or it answered with a status and a body described only as far as the code looks into it.
- Image download, the credentials from the environment, PIL and pyzbar (`decode_qr`, app.py:69-110). Their net effect is a parameter: the decoded text, or none.
- Float parsing and formatting of coordinates (app.py:177-178, app.py:183-185). `float()` is a parameter function, `parseCoordinate`, applied to each coordinate field's text; it gives a pair of opaque strings, the `:.6f` form and the plain form, or none where `float()` raises.
- JSON values that are not strings (numbers for the coordinates, say) are given as the text an f-string would print for them.
- `print` logging throughout: it never reaches the reply.
- Text.Upper: `upper()` is modelled on ASCII letters only, not on the full Unicode case mapping.
- Text.Trim: the whitespace `strip()` removes is modelled as the ASCII whitespace characters only.
- CodePattern.MatchAt: `\d` is modelled as the ASCII digits and `\b` looks at ASCII word characters only (letters, digits, `_`), not at Unicode ones.
- CodePattern.ParseStrict: `$` would also accept a final line feed. The body is always stripped first, so that case never arises and is not modelled.
- The catch-all of `handle_whatsapp` (app.py:191-193) is modelled for the one exception the modelled code can raise: `float()` on a coordinate. Failures inside the left-out helpers are already caught there, and come back as a missing value.
