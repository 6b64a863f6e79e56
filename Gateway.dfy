/**
 * The two calls to the GhanaPost GPS service (app.py, `fetch_ghanapost_data`
 * and `reverse_geocode`), over abstract responses. What the HTTP round trip
 * produced is an input: either the request raised (connection error,
 * timeout), or an answer with a status code and a decoded body. The decoded
 * body is described only as far as the code looks into it. JSON values are
 * given as the text Python's f-strings would show for them.
 */
module Gateway {
  import opened Wrappers

  /** A row of the `Table` list: column name to value. */
  type Row = map<string, string>

  /** The body of a forward-lookup answer, as far as
      `response.json().get('data', {}).get('Table', [{}])[0]` sees it. */
  datatype ForwardBody =
    | NotJson              // `response.json()` raises
    | Malformed            // `data` or `Table` of the wrong type, or a row that is not an object: raises
    | NoTable              // `data` or `Table` absent: the default `[{}]` supplies one empty row
    | Table(rows: seq<Row>)

  datatype ForwardResponse =
    | PostFailed           // `requests.post` raised
    | Answered(status: int, body: ForwardBody)

  /** The dictionary `fetch_ghanapost_data` builds. */
  datatype AddressRecord = AddressRecord(
    street: string, district: string, region: string,
    lat: Option<string>, lng: Option<string>,
    rawCode: string)

  const Placeholder := "N/A"

  /** `row.get(key, 'N/A')`. */
  function FieldOr(row: Row, key: string): (v: string)
    ensures key in row ==> v == row[key]
    ensures key !in row ==> v == Placeholder
  {
    if key in row then row[key] else Placeholder
  }

  /** `row.get(key)`. */
  function FieldOpt(row: Row, key: string): (v: Option<string>)
    ensures v.Some? <==> key in row
    ensures v.Some? ==> v.value == row[key]
  {
    if key in row then Some(row[key]) else None
  }

  /** The row the record is built from: `[{}][0]` when the keys are absent,
      the first row of a non-empty table, nothing when indexing or parsing raises. */
  function FirstRow(body: ForwardBody): (r: Option<Row>)
    ensures r.Some? <==> body.NoTable? || (body.Table? && |body.rows| > 0)
    ensures body.NoTable? ==> r == Some(map[])
    ensures body.Table? && |body.rows| > 0 ==> r == Some(body.rows[0])
  {
    match body
    case NotJson => None
    case Malformed => None
    case NoTable => Some(map[])
    case Table(rows) => if |rows| > 0 then Some(rows[0]) else None
  }

  function RecordOf(code: string, row: Row): AddressRecord {
    AddressRecord(
      FieldOr(row, "Street"), FieldOr(row, "District"), FieldOr(row, "Region"),
      FieldOpt(row, "CenterLatitude"), FieldOpt(row, "CenterLongitude"),
      code)
  }

  /** `fetch_ghanapost_data(code)`: a record exactly when the answer has
      status 200 and a usable first row; every failure is `None`. */
  function FetchRecord(code: string, resp: ForwardResponse): (r: Option<AddressRecord>)
    ensures r.Some? <==> resp.Answered? && resp.status == 200 && FirstRow(resp.body).Some?
    ensures r.Some? ==> r.value.rawCode == code
  {
    if resp.Answered? && resp.status == 200 then
      match FirstRow(resp.body)
      case None => None
      case Some(row) => Some(RecordOf(code, row))
    else None
  }

  /** The address fields of a found record come from the first row, with
      `N/A` for each one the row lacks; the coordinates are present exactly
      when the row has them and are never made up. */
  lemma FetchRecordFields(code: string, resp: ForwardResponse)
    requires FetchRecord(code, resp).Some?
    ensures var rec, row := FetchRecord(code, resp).value, FirstRow(resp.body).value;
      && (rec.street == if "Street" in row then row["Street"] else Placeholder)
      && (rec.district == if "District" in row then row["District"] else Placeholder)
      && (rec.region == if "Region" in row then row["Region"] else Placeholder)
      && (rec.lat.Some? <==> "CenterLatitude" in row)
      && (rec.lng.Some? <==> "CenterLongitude" in row)
      && (rec.lat.Some? ==> rec.lat.value == row["CenterLatitude"])
      && (rec.lng.Some? ==> rec.lng.value == row["CenterLongitude"])
  {
  }

  /** An answer without `data` or `Table` still yields a record, of
      placeholders only and without coordinates. */
  lemma FetchRecordWithoutTable(code: string)
    ensures FetchRecord(code, Answered(200, NoTable))
         == Some(AddressRecord(Placeholder, Placeholder, Placeholder, None, None, code))
  {
  }

  /** The body of a reverse-lookup answer, as far as
      `response.json().get('data', {}).get('gpscode')` sees it. */
  datatype ReverseBody =
    | RevNotJson                       // `response.json()` raises
    | RevMalformed                     // `data` not an object: raises
    | RevData(gpscode: Option<string>) // `gpscode` (or `data`) absent or null: `None`

  datatype ReverseResponse =
    | RevPostFailed                    // `requests.post` raised
    | RevAnswered(status: int, body: ReverseBody)

  /** `response.ok` of the requests library: no client error (4xx) and no
      server error (5xx). */
  predicate IsOk(status: int) {
    !(400 <= status < 600)
  }

  /** `reverse_geocode(lat, lng)`: the code when the answer is ok and carries
      one, otherwise `None`; every failure is `None`. */
  function ReverseGeocode(resp: ReverseResponse): (r: Option<string>)
    ensures r.Some? <==> && resp.RevAnswered? && IsOk(resp.status)
                         && resp.body.RevData? && resp.body.gpscode.Some?
    ensures r.Some? ==> r == resp.body.gpscode
  {
    match resp
    case RevPostFailed => None
    case RevAnswered(status, body) =>
      if !IsOk(status) then None
      else
        match body
        case RevNotJson => None
        case RevMalformed => None
        case RevData(code) => code
  }
}
