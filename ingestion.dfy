/** What the Apps Script web app (google-apps-script.js) does to its lead
    sheet, stated on values: the sheet as a table of rows plus the rows that
    carry the alternate background, the header row, the row built from one
    submission, and the outcome of one POST request. The methods of module
    AppsScript perform these same steps in place and are proved against the
    functions here. */
module Ingestion {
  import opened Text

  /** The fixed header row `setupHeaders` writes. */
  const Header: seq<string> := [
    "Timestamp", "Nombres", "Email", "Celular", "Empresa", "RUC", "Cargo",
    "Mensaje", "Tipo Formulario", "URL Página", "Referrer", "User Agent", "IP Address"
  ]

  /** The two row backgrounds the script sets: `#4285f4` on the header row
      (`setupHeaders`) and `#f8f9fa` on even lead rows (`addDataToSheet`). */
  datatype Background = HeaderBlue | AlternateGrey

  const MissingFieldsMessage := "Faltan datos requeridos: nombres y email"
  const SavedMessage := "Datos guardados exitosamente"
  const SaveFailedMessage := "Error al guardar los datos"
  const InternalErrorPrefix := "Error interno del servidor: "
  const GetMessage := "Google Apps Script funcionando correctamente. Usa POST para enviar datos."
  const OptionsMessage := "CORS preflight response"

  /** A sheet: `rows[0]` is row 1 and `|rows|` is what `getLastRow()` reports
      (the last row holding anything); `shaded` holds the 1-based numbers of
      the rows whose background is `AlternateGrey`. */
  datatype Table = Table(rows: seq<seq<string>>, shaded: set<int>)

  /** A cell past the end of a stored row reads as blank, as in a sheet. */
  function Cell(row: seq<string>, col: nat): string {
    if col < |row| then row[col] else ""
  }

  predicate BlankRow(row: seq<string>) {
    forall i :: 0 <= i < |row| ==> row[i] == ""
  }

  /** What a sheet always satisfies: no blank rows past the last row that
      holds something, and backgrounds only on real (1-based) rows. A row
      below the last one may keep a background: clearing a row's values
      leaves its background in place. */
  predicate WellFormed(t: Table) {
    && (t.rows == [] || !BlankRow(t.rows[|t.rows| - 1]))
    && forall r :: r in t.shaded ==> 1 <= r
  }

  function FirstRow(t: Table): seq<string> {
    if t.rows == [] then [] else t.rows[0]
  }

  /** The header test of `doPost`: row 1 counts as a header row when at least
      one of its first 13 cells is non-empty once trimmed. */
  predicate HasHeaders(firstRow: seq<string>)
    ensures HasHeaders(firstRow) <==>
            exists i | 0 <= i < |Header| :: !AllWhitespace(Cell(firstRow, i))
  {
    exists i | 0 <= i < |Header| :: Trim(Cell(firstRow, i)) != ""
  }

  /** The header test reads only the first 13 cells of row 1. */
  lemma HasHeadersReadsFirstCells(row: seq<string>, cells: seq<string>)
    requires |cells| == |Header|
    requires forall i :: 0 <= i < |Header| ==> cells[i] == Cell(row, i)
    ensures HasHeaders(cells) == HasHeaders(row)
  {
    assert forall i :: 0 <= i < |Header| ==> Cell(cells, i) == Cell(row, i);
  }

  /** `getRange(1, 1, 1, |values|).setValues([values])`: the first cells of
      row 1 are overwritten; the cells of row 1 past them, every other row
      and every background are kept. */
  function WriteFirstRow(t: Table, values: seq<string>): (u: Table)
    ensures |u.rows| == if t.rows == [] then 1 else |t.rows|
    ensures |u.rows[0]| == if |FirstRow(t)| > |values| then |FirstRow(t)| else |values|
    ensures u.rows[0][..|values|] == values
    ensures forall j :: |values| <= j < |FirstRow(t)| ==> u.rows[0][j] == FirstRow(t)[j]
    ensures forall i :: 1 <= i < |u.rows| ==> u.rows[i] == t.rows[i]
    ensures u.shaded == t.shaded
  {
    var first := FirstRow(t);
    var tail := if |first| > |values| then first[|values|..] else [];
    assert (values + tail)[..|values|] == values;
    Table([values + tail] + (if t.rows == [] then [] else t.rows[1..]), t.shaded)
  }

  /** `getRange(row, 1, 1, 13).setBackground(color)`: only that row's
      background changes, and it carries the alternate background exactly
      when that is the colour set. */
  function SetBackground(t: Table, row: int, color: Background): (u: Table)
    ensures u.rows == t.rows
    ensures row in u.shaded <==> color == AlternateGrey
    ensures forall r :: r != row ==> (r in u.shaded <==> r in t.shaded)
  {
    Table(t.rows, if color == AlternateGrey then t.shaded + {row} else t.shaded - {row})
  }

  /** `setupHeaders`: the header goes into the first 13 cells of row 1 with
      its own background; nothing below row 1 changes. */
  function WithHeaderRow(t: Table): (u: Table)
    ensures |u.rows| == if t.rows == [] then 1 else |t.rows|
    ensures |u.rows[0]| >= |Header| && u.rows[0][..|Header|] == Header
    ensures forall i :: 1 <= i < |u.rows| ==> u.rows[i] == t.rows[i]
    ensures u.shaded == t.shaded - {1}
  {
    SetBackground(WriteFirstRow(t, Header), 1, HeaderBlue)
  }

  /** `insertRowBefore(1)`: every row and its background moves down one row,
      leaving row 1 empty; on a sheet with nothing in it there is no row to
      move. */
  function WithRowInsertedAtTop(t: Table): (u: Table)
    ensures |u.rows| == if t.rows == [] then 0 else |t.rows| + 1
    ensures t.rows != [] ==> u.rows[0] == []
    ensures forall i :: 0 <= i < |t.rows| ==> u.rows[i + 1] == t.rows[i]
    ensures forall r :: r in t.shaded <==> r + 1 in u.shaded
  {
    var shaded := set r | r in t.shaded :: r + 1;
    Table(if t.rows == [] then [] else [[]] + t.rows, shaded)
  }

  /** The sheet `setupHeaders` is given: the existing lead sheet, or the one
      `insertSheet` has just created, which holds nothing. */
  function Existing(sheet: Option<Table>): Table {
    match sheet
    case None => Table([], {})
    case Some(t) => t
  }

  /** Whether `doPost` calls `setupHeaders`: the sheet is missing, or row 1
      is not a header row. */
  predicate NeedsHeaders(sheet: Option<Table>) {
    sheet.None? || !HasHeaders(FirstRow(sheet.value))
  }

  /** The sheet `doPost` writes into: a missing sheet is created holding just
      the header row; in an existing sheet the header is written into row 1
      when it is missing, so no row is added or removed. */
  function Provisioned(sheet: Option<Table>): (p: Table)
    ensures sheet.None? ==> p == Table([Header], {})
    ensures sheet.Some? ==> |p.rows| == if sheet.value.rows == [] then 1 else |sheet.value.rows|
  {
    EmptySheetGetsHeaderOnly();
    if NeedsHeaders(sheet) then WithHeaderRow(Existing(sheet)) else sheet.value
  }

  /** JavaScript truthiness of a string-valued field of the parsed body:
      present and not empty. */
  predicate Truthy(data: map<string, string>, key: string) {
    key in data && data[key] != ""
  }

  /** `data[key] || fallback`. */
  function Or(data: map<string, string>, key: string, fallback: string): (v: string)
    ensures v == fallback || (key in data && v == data[key])
    ensures Truthy(data, key) ==> v == data[key]
    ensures !Truthy(data, key) ==> v == fallback
    ensures fallback != "" ==> v != ""
  {
    if Truthy(data, key) then data[key] else fallback
  }

  /** `getClientIP`: the temporary user key when the platform gives a
      non-empty one, `'Unknown'` when it gives an empty one or throws
      (`None`). */
  function ClientIp(userKey: Option<string>): (ip: string)
    ensures ip != ""
    ensures userKey.Some? && userKey.value != "" ==> ip == userKey.value
    ensures ip == "Unknown" || (userKey.Some? && ip == userKey.value)
  {
    match userKey
    case Some(k) => if k != "" then k else "Unknown"
    case None => "Unknown"
  }

  /** The body key each column of a lead row is read from, in header order;
      column 0, the timestamp, reads none. */
  const ColumnKeys: seq<string> := [
    "", "nombres", "email", "celular", "empresa", "ruc", "cargo",
    "mensaje", "form_type", "page_url", "referrer", "user_agent", "ip_address"
  ]

  /** The 13 cells `addDataToSheet` appends, in header order. The row is
      never blank, because the form type falls back to `'unknown'`. */
  function LeadRow(data: map<string, string>, timestamp: string, userKey: Option<string>): (row: seq<string>)
    ensures |row| == |Header|
    ensures row[0] == timestamp
    ensures !BlankRow(row)
  {
    var row := [
      timestamp,
      Or(data, "nombres", ""),
      Or(data, "email", ""),
      Or(data, "celular", ""),
      Or(data, "empresa", ""),
      Or(data, "ruc", ""),
      Or(data, "cargo", ""),
      Or(data, "mensaje", ""),
      Or(data, "form_type", "unknown"),
      Or(data, "page_url", ""),
      Or(data, "referrer", ""),
      Or(data, "user_agent", ""),
      if Truthy(data, "ip_address") then data["ip_address"] else ClientIp(userKey) ];
    assert row[8] != "";
    row
  }

  /** `appendRow`, then the alternate background on the new row when its row
      number is even: the row lands at the bottom, and no background is
      removed or set on any other row. */
  function AppendedLead(t: Table, row: seq<string>): (u: Table)
    ensures u.rows == t.rows + [row]
    ensures t.shaded <= u.shaded
    ensures u.shaded <= t.shaded + {|u.rows|}
  {
    var rows := t.rows + [row];
    var lastRow := |rows|;
    if lastRow % 2 == 0 then SetBackground(Table(rows, t.shaded), lastRow, AlternateGrey)
    else Table(rows, t.shaded)
  }

  /** The POST body: JSON that failed to parse (with the parser's message),
      or an object whose string-valued fields are given. */
  datatype Body = Unparsable(error: string) | Json(data: map<string, string>)

  /** Where `setupHeaders` throws: at `setValues`, so nothing is written; at
      the bold font or the background, so only the header names are written;
      or at the font colour or the column widths, so the header row is
      complete. */
  datatype SetupStep = AtValues | AtFormat | AtResize

  /** The sheet as `setupHeaders` leaves it when it throws at `step`: it adds
      no row a completed call would not add, removes none, and never touches
      a row below row 1. */
  function HeaderUpTo(t: Table, step: SetupStep): (u: Table)
    ensures |t.rows| <= |u.rows| <= |WithHeaderRow(t).rows|
    ensures forall i :: 1 <= i < |u.rows| ==> u.rows[i] == t.rows[i]
  {
    match step
    case AtValues => t
    case AtFormat => WriteFirstRow(t, Header)
    case AtResize => WithHeaderRow(t)
  }

  /** What the spreadsheet service does on this request: works; throws while
      opening the spreadsheet, finding or creating the lead sheet, or reading
      row 1; throws inside `setupHeaders` at the given step (which matters
      only when `doPost` calls it); or throws from `appendRow`. */
  datatype Fault =
    | NoFault
    | OpenFault(error: string)
    | SetupFault(error: string, step: SetupStep)
    | AppendFault

  /** Whether the service throws on this request. */
  predicate Fails(sheet: Option<Table>, fault: Fault) {
    fault.OpenFault? || fault.AppendFault? || (fault.SetupFault? && NeedsHeaders(sheet))
  }

  /** `createResponse(status, message)`; its timestamp and CORS headers are
      not modelled. */
  datatype Response = Response(status: int, message: string)

  /** The response and the lead sheet after a request (`None`: no sheet). */
  datatype Outcome = Outcome(response: Response, sheet: Option<Table>)

  /** `doPost`: the status is 200, 400 or 500; no request removes the lead
      sheet; and a saved lead leaves one row more than the provisioned sheet
      holds. */
  function Ingest(sheet: Option<Table>, body: Body, timestamp: string,
                  userKey: Option<string>, fault: Fault): (o: Outcome)
    ensures o.response.status == 200 || o.response.status == 400 || o.response.status == 500
    ensures sheet.Some? ==> o.sheet.Some?
    ensures o.response.status == 200 ==>
              o.sheet.Some? && |o.sheet.value.rows| == |Provisioned(sheet).rows| + 1
  {
    match body
    case Unparsable(error) => Outcome(Response(500, InternalErrorPrefix + error), sheet)
    case Json(data) =>
      if !Truthy(data, "nombres") || !Truthy(data, "email") then
        Outcome(Response(400, MissingFieldsMessage), sheet)
      else if fault.OpenFault? then
        Outcome(Response(500, InternalErrorPrefix + fault.error), sheet)
      else if fault.SetupFault? && NeedsHeaders(sheet) then
        Outcome(Response(500, InternalErrorPrefix + fault.error),
                Some(HeaderUpTo(Existing(sheet), fault.step)))
      else if fault.AppendFault? then
        Outcome(Response(500, SaveFailedMessage), Some(Provisioned(sheet)))
      else
        Outcome(Response(200, SavedMessage),
                Some(AppendedLead(Provisioned(sheet), LeadRow(data, timestamp, userKey))))
  }

  /** `getStats().totalLeads`: `getLastRow() - 1` when the sheet exists, and
      0 when it does not. It is never below -1, and a sheet whose row 1 is a
      header row never reports a negative count. */
  function Stats(sheet: Option<Table>): (n: int)
    ensures n >= -1
    ensures sheet.Some? && HasHeaders(FirstRow(sheet.value)) ==> n >= 0
  {
    match sheet
    case None => 0
    case Some(t) => |t.rows| - 1
  }

  /** `clearSheet`: an existing sheet is emptied and gets the header row, so
      it counts as having headers and holds no lead; a missing sheet stays
      missing. */
  function ClearedSheet(sheet: Option<Table>): (c: Option<Table>)
    ensures c.Some? <==> sheet.Some?
    ensures c.Some? ==> HasHeaders(FirstRow(c.value)) && Stats(c) == 0
  {
    match sheet
    case None => None
    case Some(t) =>
      WithHeaderRowHasHeaders(Table([], {}));
      Some(WithHeaderRow(Table([], {})))
  }

  /** `doGet` and `doOptions`: fixed informational responses. */
  function DoGet(): (r: Response)
    ensures r.status == 200
  {
    Response(200, GetMessage)
  }

  function DoOptions(): (r: Response)
    ensures r.status == 200
  {
    Response(200, OptionsMessage)
  }

  // ---------------------------------------------------------------------
  // Properties

  /** The header row holds something in its first cell, so it counts as a
      header row. */
  lemma HeaderIsHeader(tail: seq<string>)
    ensures HasHeaders(Header + tail)
  {
    var first := Cell(Header + tail, 0);
    assert first == Header[0];
    assert first[0] == 'T' && !IsWhitespace('T');
    assert !AllWhitespace(first);
  }

  /** A row starting with the header is not blank. */
  lemma HeaderNotBlank(tail: seq<string>)
    ensures !BlankRow(Header + tail)
  {
    assert (Header + tail)[0] == Header[0];
    assert |Header[0]| == 9;
  }

  /** After `setupHeaders`, row 1 counts as a header row and is not blank. */
  lemma WithHeaderRowHasHeaders(t: Table)
    ensures HasHeaders(FirstRow(WithHeaderRow(t)))
    ensures !BlankRow(FirstRow(WithHeaderRow(t)))
  {
    var first := FirstRow(t);
    var tail := if |first| > |Header| then first[|Header|..] else [];
    assert FirstRow(WithHeaderRow(t)) == Header + tail;
    HeaderIsHeader(tail);
    HeaderNotBlank(tail);
  }

  /** A sheet with nothing in it becomes the header row alone. */
  lemma EmptySheetGetsHeaderOnly()
    ensures WithHeaderRow(Table([], {})) == Table([Header], {})
  {
    assert Header + [] == Header;
    assert WriteFirstRow(Table([], {}), Header) == Table([Header], {});
  }

  /** Keeping a sheet well formed: writing the header names into row 1. */
  lemma WriteHeaderWellFormed(t: Table)
    requires WellFormed(t)
    ensures WellFormed(WriteFirstRow(t, Header))
  {
    var u := WriteFirstRow(t, Header);
    if |t.rows| <= 1 {
      assert u.rows[0][..|Header|][0] == Header[0] && |Header[0]| == 9;
      assert u.rows[|u.rows| - 1] == u.rows[0];
    } else {
      assert u.rows[|u.rows| - 1] == t.rows[|t.rows| - 1];
    }
  }

  /** Keeping a sheet well formed: `setupHeaders` as a whole. */
  lemma WithHeaderRowWellFormed(t: Table)
    requires WellFormed(t)
    ensures WellFormed(WithHeaderRow(t))
  {
    WriteHeaderWellFormed(t);
  }

  /** Keeping a sheet well formed: `setupHeaders` stopped by an exception. */
  lemma HeaderUpToWellFormed(t: Table, step: SetupStep)
    requires WellFormed(t)
    ensures WellFormed(HeaderUpTo(t, step))
  {
    WriteHeaderWellFormed(t);
    WithHeaderRowWellFormed(t);
  }

  /** Headers are written exactly when they are missing: an existing sheet is
      left as it is if and only if row 1 already counts as a header row. */
  lemma ProvisionedKeepsExactlyHeaderedSheets(t: Table)
    ensures Provisioned(Some(t)) == t <==> HasHeaders(FirstRow(t))
  {
    if !HasHeaders(FirstRow(t)) {
      WithHeaderRowHasHeaders(t);
    }
  }

  /** After provisioning, row 1 is a header row. */
  lemma ProvisionedHasHeaders(sheet: Option<Table>)
    ensures HasHeaders(FirstRow(Provisioned(sheet)))
  {
    if NeedsHeaders(sheet) {
      WithHeaderRowHasHeaders(Existing(sheet));
    }
  }

  /** Provisioning again changes nothing, so repeated requests write the
      header at most once. */
  lemma ProvisionedIdempotent(sheet: Option<Table>)
    ensures Provisioned(Some(Provisioned(sheet))) == Provisioned(sheet)
  {
    ProvisionedHasHeaders(sheet);
  }

  /** Provisioning keeps a sheet well formed, and a new sheet is well formed. */
  lemma ProvisionedWellFormed(sheet: Option<Table>)
    requires sheet.Some? ==> WellFormed(sheet.value)
    ensures WellFormed(Provisioned(sheet))
  {
    WithHeaderRowWellFormed(Existing(sheet));
  }

  /** Column by column, the appended row is the timestamp, then each body
      field in header order or blank when it is missing or empty, with
      `'unknown'` for a missing form type and the client key for a missing IP
      address. */
  lemma LeadRowShape(data: map<string, string>, timestamp: string, userKey: Option<string>)
    ensures var row := LeadRow(data, timestamp, userKey);
            && (forall k :: 1 <= k < |Header| && k != 8 && k != 12 ==> row[k] == Or(data, ColumnKeys[k], ""))
            && row[8] == Or(data, ColumnKeys[8], "unknown")
            && row[12] == (if Truthy(data, ColumnKeys[12]) then data[ColumnKeys[12]] else ClientIp(userKey))
  {
    var row := LeadRow(data, timestamp, userKey);
    forall k | 1 <= k < |Header| && k != 8 && k != 12
      ensures row[k] == Or(data, ColumnKeys[k], "")
    {
      assert k == 1 || k == 2 || k == 3 || k == 4 || k == 5 || k == 6 || k == 7
          || k == 9 || k == 10 || k == 11;
    }
  }

  /** Appending a row adds exactly that row at the bottom. The new row
      carries the alternate background when its row number is even, and
      keeps one it already had (clearing a row's values keeps its
      background); every other row keeps its background. */
  lemma AppendedLeadShape(t: Table, row: seq<string>)
    ensures var u := AppendedLead(t, row);
            && u.rows == t.rows + [row]
            && (|u.rows| in u.shaded <==> |u.rows| % 2 == 0 || |u.rows| in t.shaded)
            && forall r :: r != |u.rows| ==> (r in u.shaded <==> r in t.shaded)
  {
  }

  lemma AppendedLeadWellFormed(t: Table, row: seq<string>)
    requires WellFormed(t) && !BlankRow(row)
    ensures WellFormed(AppendedLead(t, row))
  {
  }

  /** Status 400, and nothing written, exactly when the body parsed but the
      name or the email is missing or empty. */
  lemma IngestRejectsIncomplete(sheet: Option<Table>, body: Body, timestamp: string,
                                userKey: Option<string>, fault: Fault)
    ensures var o := Ingest(sheet, body, timestamp, userKey, fault);
            (o.response.status == 400 <==>
               body.Json? && (!Truthy(body.data, "nombres") || !Truthy(body.data, "email")))
            && (o.response.status == 400 ==> o.sheet == sheet)
  {
  }

  /** The status is always 200, 400 or 500, and it is 200 exactly when the
      body parsed, has a name and an email, and the service did not throw. */
  lemma IngestStatus(sheet: Option<Table>, body: Body, timestamp: string,
                     userKey: Option<string>, fault: Fault)
    ensures var s := Ingest(sheet, body, timestamp, userKey, fault).response.status;
            && (s == 200 || s == 400 || s == 500)
            && (s == 200 <==> body.Json? && Truthy(body.data, "nombres")
                              && Truthy(body.data, "email") && !Fails(sheet, fault))
  {
  }

  /** Appending below the provisioned sheet adds the row at the bottom; every
      row but row 1 is as it was, and row 1 too when it already was a header
      row. */
  lemma AppendBelowProvisioned(sheet: Option<Table>, row: seq<string>)
    ensures var u := AppendedLead(Provisioned(sheet), row);
            && u.rows == Provisioned(sheet).rows + [row]
            && (sheet.Some? ==> forall i :: 1 <= i < |sheet.value.rows| ==> u.rows[i] == sheet.value.rows[i])
            && (sheet.Some? && HasHeaders(FirstRow(sheet.value)) ==> u.rows[..|sheet.value.rows|] == sheet.value.rows)
  {
    var p := Provisioned(sheet);
    assert AppendedLead(p, row).rows == p.rows + [row];
    if sheet.Some? && !HasHeaders(FirstRow(sheet.value)) {
      var t := sheet.value;
      assert forall i :: 1 <= i < |t.rows| ==> p.rows[i] == t.rows[i];
    }
  }

  /** A successful request appends exactly one 13-cell row below the
      provisioned sheet; every row but row 1 is as it was, and row 1 too when
      it already was a header row. */
  lemma IngestAppendsOneRow(sheet: Option<Table>, body: Body, timestamp: string,
                            userKey: Option<string>, fault: Fault)
    requires Ingest(sheet, body, timestamp, userKey, fault).response.status == 200
    ensures var o := Ingest(sheet, body, timestamp, userKey, fault);
            && o.sheet.Some?
            && o.sheet.value.rows == Provisioned(sheet).rows + [LeadRow(body.data, timestamp, userKey)]
            && |LeadRow(body.data, timestamp, userKey)| == |Header|
            && (sheet.Some? ==> forall i :: 1 <= i < |sheet.value.rows| ==> o.sheet.value.rows[i] == sheet.value.rows[i])
            && (sheet.Some? && HasHeaders(FirstRow(sheet.value)) ==> o.sheet.value.rows[..|sheet.value.rows|] == sheet.value.rows)
  {
    var row := LeadRow(body.data, timestamp, userKey);
    assert Ingest(sheet, body, timestamp, userKey, fault).sheet == Some(AppendedLead(Provisioned(sheet), row));
    AppendBelowProvisioned(sheet, row);
  }

  /** A request that fails after the body was accepted may have created the
      sheet and written some or all of the header, but never appends a row:
      the sheet holds no more rows than the provisioned one, and every row
      below row 1 is as it was. */
  lemma FailedIngestAppendsNothing(sheet: Option<Table>, body: Body, timestamp: string,
                                   userKey: Option<string>, fault: Fault)
    requires Ingest(sheet, body, timestamp, userKey, fault).response.status == 500
    ensures var o := Ingest(sheet, body, timestamp, userKey, fault);
            || o.sheet == sheet
            || o.sheet == Some(Provisioned(sheet))
            || (fault.SetupFault? && o.sheet == Some(HeaderUpTo(Existing(sheet), fault.step)))
    ensures var o := Ingest(sheet, body, timestamp, userKey, fault);
            && (o.sheet.Some? ==> |o.sheet.value.rows| <= |Provisioned(sheet).rows|)
            && (sheet.Some? ==> forall i :: 1 <= i < |sheet.value.rows| ==> o.sheet.value.rows[i] == sheet.value.rows[i])
  {
  }

  /** Requests keep the sheet well formed. */
  lemma IngestWellFormed(sheet: Option<Table>, body: Body, timestamp: string,
                         userKey: Option<string>, fault: Fault)
    requires sheet.Some? ==> WellFormed(sheet.value)
    ensures var o := Ingest(sheet, body, timestamp, userKey, fault);
            o.sheet.Some? ==> WellFormed(o.sheet.value)
  {
    ProvisionedWellFormed(sheet);
    if fault.SetupFault? {
      HeaderUpToWellFormed(Existing(sheet), fault.step);
    }
    if body.Json? {
      AppendedLeadWellFormed(Provisioned(sheet), LeadRow(body.data, timestamp, userKey));
    }
  }

  /** The first lead into a missing sheet: the sheet becomes the header row
      and that lead, the lead sits in row 2 and is shaded, and one lead is
      counted. */
  lemma FirstLeadIntoMissingSheet(data: map<string, string>, timestamp: string, userKey: Option<string>)
    requires Truthy(data, "nombres") && Truthy(data, "email")
    ensures var o := Ingest(None, Json(data), timestamp, userKey, NoFault);
            && o.response.status == 200
            && o.sheet == Some(Table([Header, LeadRow(data, timestamp, userKey)], {2}))
            && Stats(o.sheet) == 1
  {
    EmptySheetGetsHeaderOnly();
    var row := LeadRow(data, timestamp, userKey);
    assert Provisioned(None) == Table([Header], {});
    assert AppendedLead(Table([Header], {}), row) == Table([Header, row], {2});
  }

  /** Two appends put both rows at the bottom, in order. */
  lemma AppendTwice(t: Table, row1: seq<string>, row2: seq<string>)
    ensures AppendedLead(AppendedLead(t, row1), row2).rows == t.rows + [row1, row2]
  {
    var u := AppendedLead(t, row1);
    assert u.rows == t.rows + [row1];
    assert AppendedLead(u, row2).rows == u.rows + [row2];
    assert (t.rows + [row1]) + [row2] == t.rows + [row1, row2];
  }

  /** Two successful requests in a row: the second finds the header in place
      and appends below the first lead, so the header is written at most
      once and the leads stay in arrival order. */
  lemma SecondLeadKeepsHeader(sheet: Option<Table>, d1: map<string, string>, d2: map<string, string>,
                              t1: string, t2: string, k1: Option<string>, k2: Option<string>)
    requires Truthy(d1, "nombres") && Truthy(d1, "email")
    requires Truthy(d2, "nombres") && Truthy(d2, "email")
    ensures var o1 := Ingest(sheet, Json(d1), t1, k1, NoFault);
            var o2 := Ingest(o1.sheet, Json(d2), t2, k2, NoFault);
            && o2.response.status == 200
            && o2.sheet.value.rows == Provisioned(sheet).rows + [LeadRow(d1, t1, k1), LeadRow(d2, t2, k2)]
            && Stats(o2.sheet) == Stats(o1.sheet) + 1
  {
    var row1, row2 := LeadRow(d1, t1, k1), LeadRow(d2, t2, k2);
    var u := AppendedLead(Provisioned(sheet), row1);
    IngestAfterHeaders(sheet, d1, t1, k1, NoFault);
    IngestAfterHeaders(Some(u), d2, t2, k2, NoFault);
    ProvisionedHasHeaders(sheet);
    AppendKeepsHeader(Provisioned(sheet), row1);
    AppendTwice(Provisioned(sheet), row1, row2);
  }

  /** A complete lead whose sheet was opened and given its header: the
      request ends as `appendRow` decides. */
  lemma IngestAfterHeaders(sheet: Option<Table>, data: map<string, string>, timestamp: string,
                           userKey: Option<string>, fault: Fault)
    requires Truthy(data, "nombres") && Truthy(data, "email")
    requires !fault.OpenFault? && !(fault.SetupFault? && NeedsHeaders(sheet))
    ensures Ingest(sheet, Json(data), timestamp, userKey, fault)
            == if fault.AppendFault? then Outcome(Response(500, SaveFailedMessage), Some(Provisioned(sheet)))
               else Outcome(Response(200, SavedMessage),
                            Some(AppendedLead(Provisioned(sheet), LeadRow(data, timestamp, userKey))))
  {
  }

  /** A complete lead whose `setupHeaders` call throws: the request answers
      500 with the sheet as far as `setupHeaders` got. */
  lemma IngestHeaderFault(sheet: Option<Table>, data: map<string, string>, timestamp: string,
                          userKey: Option<string>, fault: Fault)
    requires Truthy(data, "nombres") && Truthy(data, "email")
    requires fault.SetupFault? && NeedsHeaders(sheet)
    ensures Ingest(sheet, Json(data), timestamp, userKey, fault)
            == Outcome(Response(500, InternalErrorPrefix + fault.error),
                       Some(HeaderUpTo(Existing(sheet), fault.step)))
  {
  }

  /** Appending below a header row leaves the header in place. */
  lemma AppendKeepsHeader(t: Table, row: seq<string>)
    requires HasHeaders(FirstRow(t))
    ensures Provisioned(Some(AppendedLead(t, row))) == AppendedLead(t, row)
  {
    var u := AppendedLead(t, row);
    assert FirstRow(u) == FirstRow(t);
    ProvisionedKeepsExactlyHeaderedSheets(u);
  }

  /** Each successful request adds one to the lead count of the provisioned
      sheet. */
  lemma IngestCountsOneLead(sheet: Option<Table>, body: Body, timestamp: string,
                            userKey: Option<string>, fault: Fault)
    requires Ingest(sheet, body, timestamp, userKey, fault).response.status == 200
    ensures Stats(Ingest(sheet, body, timestamp, userKey, fault).sheet) == Stats(Some(Provisioned(sheet))) + 1
  {
  }

  /** The lead count is the number of rows below the header, and is `-1` for
      a sheet that exists but holds nothing. */
  lemma StatsCountsRowsBelowHeader(t: Table)
    ensures t.rows != [] ==> Stats(Some(t)) == |t.rows[1..]|
    ensures t.rows == [] ==> Stats(Some(t)) == -1
  {
  }

  /** `clearSheet` leaves exactly the header row, without shading, and leaves
      a missing sheet missing. */
  lemma ClearedSheetIsHeaderOnly(sheet: Option<Table>)
    ensures ClearedSheet(sheet) == if sheet.None? then None else Some(Table([Header], {}))
    ensures sheet.Some? ==> Stats(ClearedSheet(sheet)) == 0
  {
    EmptySheetGetsHeaderOnly();
  }

  /** Keeping a sheet well formed: inserting an empty row 1. */
  lemma RowInsertedAtTopWellFormed(t: Table)
    requires WellFormed(t)
    ensures WellFormed(WithRowInsertedAtTop(t))
  {
    var u := WithRowInsertedAtTop(t);
    if t.rows != [] {
      assert u.rows[|u.rows| - 1] == t.rows[|t.rows| - 1];
    }
    forall r | r in u.shaded ensures 1 <= r {
      var x :| x in t.shaded && x + 1 == r;
    }
  }

  /** `addHeadersToCurrentSheet`: every row moves down one and the header
      becomes row 1; every alternate background moves down with its row. */
  lemma HeaderInsertedAtTop(t: Table)
    requires WellFormed(t)
    ensures var u := WithHeaderRow(WithRowInsertedAtTop(t));
            && u.rows == [Header] + t.rows
            && (forall r :: r in u.shaded <==> r - 1 in t.shaded)
            && WellFormed(u)
  {
    var s := WithRowInsertedAtTop(t);
    var u := WithHeaderRow(s);
    if t.rows == [] {
      assert s.rows == [];
      assert WriteFirstRow(s, Header).rows == [Header + []];
      assert Header + [] == Header;
    } else {
      assert s.rows == [[]] + t.rows;
      assert s.rows[1..] == t.rows;
      assert WriteFirstRow(s, Header).rows == [Header + []] + t.rows;
      assert Header + [] == Header;
      assert u.rows[|u.rows| - 1] == t.rows[|t.rows| - 1];
    }
    assert u.rows == [Header] + t.rows;
    assert u.shaded == s.shaded - {1};
    forall r ensures r in u.shaded <==> r - 1 in t.shaded {
      if r - 1 in t.shaded {
        assert (r - 1) + 1 in s.shaded;
      }
      if r in s.shaded {
        var x :| x in t.shaded && x + 1 == r;
      }
    }
    HeaderNotBlank([]);
  }
}
