/** The Apps Script web app (google-apps-script.js) as it runs: the lead
    sheet is an object changed in place through the spreadsheet service's
    calls (`setValues`, `setBackground`, `appendRow`, `insertRowBefore`,
    `clear`), and each script function is a method proved to have the effect
    module Ingestion states on values. */
module AppsScript {
  import opened Text
  import opened Ingestion

  /** One sheet of the spreadsheet, as the service's calls see it. */
  class Sheet {
    var rows: seq<seq<string>>
    var shaded: set<int>

    function Contents(): Table
      reads this
    {
      Table(rows, shaded)
    }

    ghost predicate Valid()
      reads this
    {
      WellFormed(Contents())
    }

    /** `insertSheet`: a new sheet holds nothing. */
    constructor ()
      ensures Contents() == Table([], {}) && Valid()
    {
      rows := [];
      shaded := {};
    }

    /** `getLastRow()`: the number of the last row holding anything, which on
        a well-formed sheet is a row that is not blank. */
    function GetLastRow(): (n: nat)
      reads this
      ensures n == |Contents().rows|
      ensures Valid() && n > 0 ==> !BlankRow(Contents().rows[n - 1])
    {
      |rows|
    }

    /** `getRange(1, 1, 1, 13).getValues()[0]`. */
    function FirstRowValues(): (values: seq<string>)
      reads this
      ensures |values| == |Header|
      ensures forall i :: 0 <= i < |Header| ==> values[i] == Cell(FirstRow(Contents()), i)
    {
      seq(|Header|, i requires 0 <= i < |Header| reads this => Cell(FirstRow(Contents()), i))
    }

    /** `getRange(1, 1, 1, |values|).setValues([values])`. */
    method SetFirstRowValues(values: seq<string>)
      modifies this
      ensures Contents() == WriteFirstRow(old(Contents()), values)
    {
      var first := if rows == [] then [] else rows[0];
      var tail := if |first| > |values| then first[|values|..] else [];
      rows := [values + tail] + (if rows == [] then [] else rows[1..]);
    }

    /** `getRange(row, 1, 1, 13).setBackground(color)`. */
    method SetRowBackground(row: int, color: Background)
      modifies this
      ensures Contents() == SetBackground(old(Contents()), row, color)
    {
      if color == AlternateGrey {
        shaded := shaded + {row};
      } else {
        shaded := shaded - {row};
      }
    }

    /** `appendRow(row)`: the row goes below the last row holding anything.
        Only rows with some content are appended here. */
    method AppendRow(row: seq<string>)
      requires !BlankRow(row)
      modifies this
      ensures Contents() == Table(old(rows) + [row], old(shaded))
    {
      rows := rows + [row];
    }

    /** `insertRowBefore(1)`. */
    method InsertRowBeforeFirst()
      modifies this
      ensures Contents() == WithRowInsertedAtTop(old(Contents()))
    {
      if rows != [] {
        rows := [[]] + rows;
      }
      shaded := set r | r in shaded :: r + 1;
    }

    /** `clear()`: contents and formats go. */
    method Clear()
      modifies this
      ensures Contents() == Table([], {})
    {
      rows := [];
      shaded := {};
    }
  }

  /** The spreadsheet opened by `SpreadsheetApp.openById(SPREADSHEET_ID)`;
      `leads` is what `getSheetByName(SHEET_NAME)` returns. */
  class Spreadsheet {
    var leads: Sheet?

    function LeadsTable(): Option<Table>
      reads this, leads
    {
      if leads == null then None else Some(leads.Contents())
    }

    ghost predicate Valid()
      reads this, leads
    {
      leads != null ==> leads.Valid()
    }

    constructor (leads: Sheet?)
      ensures this.leads == leads
    {
      this.leads := leads;
    }

    /** `insertSheet(SHEET_NAME)`. */
    method InsertLeadsSheet() returns (sheet: Sheet)
      modifies this
      ensures fresh(sheet) && leads == sheet
      ensures sheet.Contents() == Table([], {}) && sheet.Valid()
    {
      sheet := new Sheet();
      leads := sheet;
    }
  }

  /** `setupHeaders(sheet)`; `throwsAt` says where the spreadsheet service
      throws, if it does. The exception comes back as `thrown`, with the
      sheet as the calls before it left it. */
  method SetupHeaders(sheet: Sheet, throwsAt: Option<SetupStep>) returns (thrown: bool)
    requires sheet.Valid()
    modifies sheet
    ensures thrown <==> throwsAt.Some?
    ensures sheet.Contents() == if thrown then HeaderUpTo(old(sheet.Contents()), throwsAt.value)
                                else WithHeaderRow(old(sheet.Contents()))
    ensures sheet.Valid()
  {
    WriteHeaderWellFormed(sheet.Contents());
    WithHeaderRowWellFormed(sheet.Contents());
    if throwsAt == Some(AtValues) {
      return true;
    }
    sheet.SetFirstRowValues(Header);
    if throwsAt == Some(AtFormat) {
      return true;
    }
    sheet.SetRowBackground(1, HeaderBlue);
    thrown := throwsAt.Some?;
  }

  /** `addDataToSheet(sheet, data)`; `appendFails` says whether `appendRow`
      throws, in which case the error is caught and `false` returned. */
  method AddDataToSheet(sheet: Sheet, data: map<string, string>, timestamp: string,
                        userKey: Option<string>, appendFails: bool) returns (success: bool)
    requires sheet.Valid()
    modifies sheet
    ensures success == !appendFails
    ensures sheet.Contents() == if success then AppendedLead(old(sheet.Contents()), LeadRow(data, timestamp, userKey))
                                else old(sheet.Contents())
    ensures sheet.Valid()
  {
    var rowData := LeadRow(data, timestamp, userKey);
    if appendFails {
      return false;
    }
    AppendedLeadWellFormed(sheet.Contents(), rowData);
    sheet.AppendRow(rowData);
    var lastRow := sheet.GetLastRow();
    if lastRow % 2 == 0 {
      sheet.SetRowBackground(lastRow, AlternateGrey);
    }
    return true;
  }

  /** The steps of `doPost` that find the lead sheet: a missing sheet is
      created and given the header; an existing one is given the header when
      none of the first 13 cells of row 1 holds anything. `setupFault` says
      where `setupHeaders` throws, if it does; `thrown` reports that it did. */
  method OpenLeadSheet(book: Spreadsheet, setupFault: Option<SetupStep>) returns (sheet: Sheet, thrown: bool)
    requires book.Valid()
    modifies book, book.leads
    ensures book.leads == sheet && book.Valid()
    ensures old(book.leads) != null ==> sheet == old(book.leads)
    ensures old(book.leads) == null ==> fresh(sheet)
    ensures thrown <==> NeedsHeaders(old(book.LeadsTable())) && setupFault.Some?
    ensures sheet.Contents() == if thrown then HeaderUpTo(Existing(old(book.LeadsTable())), setupFault.value)
                                else Provisioned(old(book.LeadsTable()))
  {
    thrown := false;
    var existing := book.leads;
    if existing == null {
      sheet := book.InsertLeadsSheet();
      thrown := SetupHeaders(sheet, setupFault);
    } else {
      sheet := existing;
      var firstRow := sheet.FirstRowValues();
      HasHeadersReadsFirstCells(FirstRow(sheet.Contents()), firstRow);
      if !HasHeaders(firstRow) {
        thrown := SetupHeaders(sheet, setupFault);
      }
    }
  }

  /** `doPost(e)`: the exceptions the script catches are the `Unparsable` body
      and the faults of the spreadsheet service. */
  method DoPost(book: Spreadsheet, body: Body, timestamp: string,
                userKey: Option<string>, fault: Fault) returns (response: Response)
    requires book.Valid()
    modifies book, book.leads
    ensures book.Valid()
    ensures response == Ingest(old(book.LeadsTable()), body, timestamp, userKey, fault).response
    ensures book.LeadsTable() == Ingest(old(book.LeadsTable()), body, timestamp, userKey, fault).sheet
    ensures old(book.leads) != null ==> book.leads == old(book.leads)
    ensures old(book.leads) == null && book.leads != null ==> fresh(book.leads)
  {
    ghost var before := book.LeadsTable();
    if body.Unparsable? {
      return Response(500, InternalErrorPrefix + body.error);
    }
    var data := body.data;

    if !Truthy(data, "nombres") || !Truthy(data, "email") {
      return Response(400, MissingFieldsMessage);
    }

    if fault.OpenFault? {
      return Response(500, InternalErrorPrefix + fault.error);
    }

    var setupFault := if fault.SetupFault? then Some(fault.step) else None;
    var sheet, thrown := OpenLeadSheet(book, setupFault);
    if thrown {
      IngestHeaderFault(before, data, timestamp, userKey, fault);
      return Response(500, InternalErrorPrefix + fault.error);
    }

    IngestAfterHeaders(before, data, timestamp, userKey, fault);
    var success := AddDataToSheet(sheet, data, timestamp, userKey, fault == AppendFault);

    if success {
      response := Response(200, SavedMessage);
    } else {
      response := Response(500, SaveFailedMessage);
    }
  }

  /** `doGet(e)`: answers without touching the spreadsheet. */
  method DoGetRequest(book: Spreadsheet) returns (response: Response)
    ensures response.status == 200 && response == DoGet()
  {
    response := DoGet();
  }

  /** `doOptions(e)`: answers the CORS preflight without touching the
      spreadsheet. */
  method DoOptionsRequest(book: Spreadsheet) returns (response: Response)
    ensures response.status == 200 && response == DoOptions()
  {
    response := DoOptions();
  }

  /** `addHeadersToCurrentSheet()`, on the sheet the user has open. */
  method AddHeadersToCurrentSheet(active: Sheet)
    requires active.Valid()
    modifies active
    ensures active.Contents() == WithHeaderRow(WithRowInsertedAtTop(old(active.Contents())))
    ensures active.rows == [Header] + old(active.rows)
    ensures active.Valid()
  {
    ghost var t := active.Contents();
    HeaderInsertedAtTop(t);
    RowInsertedAtTopWellFormed(t);
    active.InsertRowBeforeFirst();
    var thrown := SetupHeaders(active, None);
  }

  /** `clearSheet()`. */
  method ClearSheet(book: Spreadsheet)
    requires book.Valid()
    modifies book.leads
    ensures book.leads == old(book.leads)
    ensures book.LeadsTable() == ClearedSheet(old(book.LeadsTable()))
    ensures book.leads != null ==> book.leads.rows == [Header]
    ensures book.Valid()
  {
    var sheet := book.leads;
    if sheet != null {
      sheet.Clear();
      var thrown := SetupHeaders(sheet, None);
      EmptySheetGetsHeaderOnly();
    }
  }

  /** `getStats().totalLeads`. */
  method GetStats(book: Spreadsheet) returns (totalLeads: int)
    ensures totalLeads == Stats(book.LeadsTable())
    ensures book.leads == null ==> totalLeads == 0
    ensures book.leads != null ==> totalLeads == |book.leads.rows| - 1
  {
    var sheet := book.leads;
    if sheet != null {
      var lastRow: int := sheet.GetLastRow();
      totalLeads := lastRow - 1;
    } else {
      totalLeads := 0;
    }
  }
}
