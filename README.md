# Anicama landing page: form validation and lead ingestion

This project models the two parts of the Anicama landing page that hold real
logic, and proves properties of the models.

- The browser-side validation of the contact forms (`script.js`):
  - the `utils` string checks for email, mobile phone, RUC (the Peruvian
    taxpayer number) and the WhatsApp digit filter;
  - `formHandler.validateField`, which trims a value, applies the required
    check and then a rule chosen by the field's name, and shows or clears
    that field's error;
  - `formHandler.validateForm`, which validates every required control
    without stopping at the first failure.
- The Google Apps Script web app (`google-apps-script.js`), which receives a
  lead as JSON and appends it to the `Leads` sheet:
  - `doPost` rejects incomplete leads, writes the 13-column header when the
    sheet is missing or its first row is blank, appends one 13-cell row and
    shades it on even row numbers, and maps the outcome to 200/400/500;
  - the helpers `setupHeaders`, `addDataToSheet`, `getClientIP`,
    `clearSheet`, `addHeadersToCurrentSheet`, `getStats`, `doGet` and
    `doOptions`.

Layout:

| file | module | contents |
|---|---|---|
| `text.dfy` | `Text` | JavaScript white space (shared by `trim()` and `\s`), `Trim`, and `Retain`, the "delete every character outside a class" rewrite |
| `validators.dfy` | `Validators` | the `utils` checks as predicates, with each regular expression restated in plain terms and proved equivalent |
| `form_handler.dfy` | `FormHandler` | each field's verdict as a function (`FieldError`), the error state as a value (`ErrorView`), and the class `Validator` whose methods follow `validateField`/`validateForm` step by step and are proved against those functions |
| `ingestion.dfy` | `Ingestion` | the sheet as a value (`Table`), the header, the lead row, and `Ingest`, the outcome of one POST, with the properties of each |
| `apps_script.dfy` | `AppsScript` | the classes `Sheet` and `Spreadsheet`, which are changed in place through the spreadsheet calls the script makes, and one method per script function proved to have the effect `Ingestion` states |

The model follows the code where it is stricter or simpler than the page's
wording suggests:
- A phone number is valid when, with white space removed, it is exactly
  nine digits and the first is a 9. Shorter numbers are rejected.
- A RUC is valid when, with white space removed, it is exactly eleven digits.
  Dashes are not removed, so a RUC written with a dash is rejected.
- `doPost` answers 400 when either the name or the email is missing or
  empty, not only when both are.
- Submitting a lead from the page always succeeds, because `submitLead` is a
  placeholder that resolves `true`. It has no endpoint check and no timeout
  handling, so the model has neither.

Inputs the code gets from its environment become parameters:
- the parsed request body (`Body`: unparsable, or an object of string fields);
- the timestamp;
- the temporary user key behind `getClientIP` (`None` when the call throws);
- whether the spreadsheet service throws (`Fault`): while opening the
  spreadsheet, finding or creating the sheet, or reading row 1; inside
  `setupHeaders`, at `setValues`, at the formatting before the background is
  set, or at a later formatting call; or from `appendRow`.

## Model

| member | source | states |
|---|---|---|
| Text.SkipWhitespace | script.js:327 | the scan forward stops at the first character that is not white space, having passed only white space |
| Text.SkipWhitespaceBack | script.js:327 | the scan backward stops just past the last character that is not white space, having passed only white space |
| Text.Trim | script.js:327 | `trim()` returns the empty string exactly when the input is all white space, and otherwise a string that starts and ends with a character that is not white space |
| Text.TrimIsSlice | script.js:327 | `trim()` returns a contiguous slice of the input, and everything it drops before and after the slice is white space |
| Text.TrimUnpadded | script.js:327 | a string with no white space at either end is its own trim |
| Text.TrimIdempotent | script.js:327 | trimming a trimmed value changes nothing |
| Text.Retain | script.js:68 | `replace(/[^k]/g, '')` keeps only characters in the class, each exactly as often as it occurs in the input |
| Text.DigitsAreNotWhitespace | script.js:80 | no character of `\d` is in `\s`, so removing white space keeps every digit |
| Text.RetainConcat | script.js:68 | deleting characters commutes with concatenation, so the kept characters stay in order |
| Validators.RemoveWhitespace | script.js:80 | `replace(/\s/g, '')` leaves no white space and keeps every other character as often as it occurs |
| Validators.IsValidEmail | script.js:72-75 | an accepted address neither starts nor ends with `@` |
| Validators.IsValidPhone | script.js:78-81 | an accepted phone number has at least nine characters |
| Validators.IsValidRUC | script.js:84-87 | an accepted RUC has at least eleven characters |
| Validators.FormatWhatsAppNumber | script.js:67-69 | the result is all ASCII digits, and each digit occurs in it as often as in the input |
| Validators.FormatWhatsAppNumberConcat | script.js:67-69 | the digits are kept in their original order: filtering `a + b` gives filtered `a` followed by filtered `b` |
| Validators.FormatWhatsAppNumberIdempotent | script.js:67-69 | filtering twice gives the same as filtering once |
| Validators.EmailMatchHasShape | script.js:72-75 | a string the email pattern matches has no white space, exactly one `@` with something before it, and after it a `.` with something on each side |
| Validators.EmailShapeMatches | script.js:72-75 | every string of that shape is matched by the email pattern |
| Validators.EmailAcceptsExactly | script.js:72-75 | `isValidEmail` holds if and only if the string has that shape |
| Validators.EmailMinimumLength | script.js:72-75 | every accepted address has at least five characters, as in `a@b.c` |
| Validators.EmailNeedsAt | script.js:72-75 | a string without `@` is rejected |
| Validators.EmailExamples | script.js:72-75 | `a@b.co` is accepted; `a@b` and `a.b.com` are rejected |
| Validators.WhitespaceAndDigits | script.js:80 | with white space removed a string is all digits exactly when it holds only white space and digits, and the rest is then the digit filter's result |
| Validators.LeadingNine | script.js:80 | `^[9]\d{8}$` holds of a string exactly when it is nine digits and the first is a 9 |
| Validators.PhoneAcceptsExactly | script.js:78-81 | a phone is valid if and only if it holds only white space and digits, nine digits in all, the first a 9 |
| Validators.BarePhoneAccepted | script.js:78-81 | nine bare digits starting with 9 are accepted |
| Validators.PhoneExamples | script.js:78-81 | `987654321` is accepted and `887654321` is rejected |
| Validators.RucAcceptsExactly | script.js:84-87 | a RUC is valid if and only if it holds only white space and digits, eleven digits in all |
| Validators.RucRejectsDash | script.js:84-87 | any string containing a dash is rejected as a RUC |
| Validators.BareRucAccepted | script.js:84-87 | eleven bare digits are accepted |
| Validators.RucExamples | script.js:84-87 | `20123456789` is accepted and `20-12345678-9` is rejected |
| FormHandler.RuleError | script.js:342-387 | every failure message a field-name rule produces is non-empty |
| FormHandler.FieldError | script.js:326-393 | every message `validateField` shows is non-empty |
| FormHandler.BlankValueFailsIffRequired | script.js:327-342 | a value that is blank after trimming fails if and only if the field is required, with the "required" message |
| FormHandler.LengthRule | script.js:366-385 | a `nombres`, `empresa` or `cargo` field with a non-blank value fails if and only if its trimmed length is below 2 |
| FormHandler.FormatRules | script.js:343-364 | a non-blank `email`, `telefono`/`celular` or `ruc` field fails if and only if its check fails on the trimmed value |
| FormHandler.UnruledNamePasses | script.js:342-387 | a non-blank field whose name has no rule (such as `mensaje`) passes |
| FormHandler.VerdictIgnoresPadding | script.js:327 | the verdict depends only on the trimmed value |
| FormHandler.Cleared | script.js:405-412 | clearing a field's error unflags it and empties its error text, and leaves every other field as it was |
| FormHandler.Shown | script.js:396-403 | showing a field's error flags it and puts the message in its error text, and leaves every other field as it was |
| FormHandler.AfterValidation | script.js:326-394 | after `validateField` the field is flagged exactly when it fails |
| FormHandler.AfterValidations | script.js:414-425 | after validating a list of fields, every one of them has had its error text written, and no error text is removed |
| FormHandler.AfterValidationReports | script.js:389-412 | after validating a field it is flagged exactly when it fails, its error text is the failure message or empty, and every other field is untouched |
| FormHandler.AfterValidationsFrame | script.js:414-425 | validating a list of fields leaves the error state of every field not in the list unchanged |
| FormHandler.AfterValidationsReportsAll | script.js:414-425 | validating a list of fields reports every field's verdict, the last validation of a name being the one shown |
| FormHandler.RequiredInputs | script.js:415 | the controls selected are exactly the form's required controls |
| FormHandler.RequiredInputsConcat | script.js:415 | the selection keeps document order: selecting from two parts of a form gives the first part's required controls, then the second's |
| FormHandler.Validator.ShowFieldError | script.js:396-403 | the field gets the `error` flag and its error text becomes the message; nothing else changes |
| FormHandler.Validator.ClearFieldError | script.js:405-412 | the field loses the `error` flag and its error text becomes empty; nothing else changes |
| FormHandler.Validator.ValidateField | script.js:326-394 | returns true if and only if the field has no error, leaves the error state `AfterValidation` describes, and that state reports the field's verdict |
| FormHandler.Validator.ValidateForm | script.js:414-425 | returns true if and only if every required control passes, after validating every one of them in order |
| FormHandler.WellFormedEmailPasses | script.js:344-349 | a required `email` field holding `x@y.com` passes |
| FormHandler.FailureDoesNotStopValidation | script.js:418-422 | after a failing field, the next field is still validated: the failing one stays flagged and a passing one is not flagged |
| FormHandler.FormValidationExample | script.js:414-425 | a blank required name next to a well-formed email: the name is flagged and the email is not |
| Ingestion.HasHeaders | google-apps-script.js:40-41 | row 1 counts as a header row exactly when one of its first 13 cells is not all white space |
| Ingestion.WriteFirstRow | google-apps-script.js:92 | `setValues` on row 1 puts the values in its first cells, keeps the cells past them and every other row, adds a row only to an empty sheet, and changes no background |
| Ingestion.SetBackground | google-apps-script.js:97 | setting a row's colour changes no value and no other row's background; the row is shaded exactly when the colour is the alternate grey |
| Ingestion.WithHeaderRow | google-apps-script.js:74-104 | `setupHeaders` puts the 13 header names in row 1, adds a row only to an empty sheet, keeps every row below row 1, and clears row 1's alternate background |
| Ingestion.WithRowInsertedAtTop | google-apps-script.js:221 | `insertRowBefore(1)` leaves an empty row 1, moves every row down one, and moves every background down with its row |
| Ingestion.Provisioned | google-apps-script.js:35-46 | a missing sheet is created holding exactly the header row; an existing sheet keeps its number of rows, because the header is written into row 1, except that an empty one gains the header row |
| Ingestion.Or | google-apps-script.js:113-125 | JavaScript's short-circuit or of a field and a fallback: a present, non-empty field is returned as it is, and the fallback otherwise; the result is non-empty when the fallback is |
| Ingestion.LeadRow | google-apps-script.js:112-126 | the lead row has 13 cells, starts with the timestamp, and is never blank |
| Ingestion.AppendedLead | google-apps-script.js:129-138 | appending puts the row at the bottom, removes no background, and sets one on no row but the new one |
| Ingestion.HeaderUpTo | google-apps-script.js:74-104 | when `setupHeaders` throws part way, the sheet has no row it would not have had after the whole call, loses none, and keeps every row below row 1 |
| Ingestion.Ingest | google-apps-script.js:19-61 | `doPost` answers 200, 400 or 500; no request removes the lead sheet; a saved lead leaves one row more than the provisioned sheet |
| Ingestion.Stats | google-apps-script.js:246-264 | the lead count is never below -1, and is never negative for a sheet whose row 1 is a header row |
| Ingestion.ClearedSheet | google-apps-script.js:232-241 | an existing sheet stays present, counts as having headers and holds no lead; a missing sheet stays missing |
| Ingestion.ClientIp | google-apps-script.js:172-180 | the client IP cell is never empty: a non-empty user key is returned as it is, and anything else is `Unknown` |
| Ingestion.DoGet | google-apps-script.js:64-66 | a GET is answered with status 200 |
| Ingestion.DoOptions | google-apps-script.js:69-71 | a preflight OPTIONS is answered with status 200 |
| Ingestion.HasHeadersReadsFirstCells | google-apps-script.js:40-41 | the header test reads only the first 13 cells of row 1 |
| Ingestion.HeaderIsHeader | google-apps-script.js:40-41 | a row starting with the header counts as a header row |
| Ingestion.HeaderNotBlank | google-apps-script.js:75-92 | a row starting with the header is not blank |
| Ingestion.WithHeaderRowHasHeaders | google-apps-script.js:74-92 | after `setupHeaders`, row 1 counts as a header row and is not blank |
| Ingestion.EmptySheetGetsHeaderOnly | google-apps-script.js:74-92 | an empty sheet becomes the header row alone |
| Ingestion.WriteHeaderWellFormed | google-apps-script.js:92 | writing the header names into row 1 keeps a sheet well formed |
| Ingestion.WithHeaderRowWellFormed | google-apps-script.js:74-104 | `setupHeaders` keeps a sheet well formed |
| Ingestion.HeaderUpToWellFormed | google-apps-script.js:74-104 | `setupHeaders` stopped by an exception keeps a sheet well formed |
| Ingestion.RowInsertedAtTopWellFormed | google-apps-script.js:221 | inserting an empty row 1 keeps a sheet well formed |
| Ingestion.ProvisionedKeepsExactlyHeaderedSheets | google-apps-script.js:35-46 | an existing sheet is left as it is if and only if one of the first 13 cells of row 1 is non-blank after trimming |
| Ingestion.ProvisionedHasHeaders | google-apps-script.js:35-46 | after the header check of `doPost`, row 1 is a header row |
| Ingestion.ProvisionedIdempotent | google-apps-script.js:35-46 | running the header check again changes nothing, so the header is written at most once |
| Ingestion.ProvisionedWellFormed | google-apps-script.js:35-46 | provisioning keeps a sheet well formed |
| Ingestion.LeadRowShape | google-apps-script.js:112-126 | every column of the lead row after the timestamp is the body field of that column, or blank when it is missing or empty; the form type falls back to `unknown` and the IP address to the client key |
| Ingestion.AppendedLeadShape | google-apps-script.js:129-138 | appending adds exactly that row at the bottom; the new row is shaded if and only if its row number is even or it was already shaded; every other row keeps its background |
| Ingestion.AppendedLeadWellFormed | google-apps-script.js:129-138 | appending a non-blank row keeps a sheet well formed |
| Ingestion.AppendBelowProvisioned | google-apps-script.js:35-49 | appending below the provisioned sheet adds the row at the bottom and keeps every row but row 1, and row 1 too when it was already a header row |
| Ingestion.AppendTwice | google-apps-script.js:129 | two appends put both rows at the bottom, in order |
| Ingestion.IngestRejectsIncomplete | google-apps-script.js:26-28 | status 400 if and only if the body parsed but the name or the email is missing or empty; a 400 leaves the sheet unchanged |
| Ingestion.IngestStatus | google-apps-script.js:19-61 | the status is always 200, 400 or 500, and 200 exactly when the lead is complete and the service did not throw; a fault inside `setupHeaders` counts only when `doPost` calls it |
| Ingestion.IngestAfterHeaders | google-apps-script.js:48-54 | once the sheet is open and has its header, a complete lead ends with 200 and the row appended, or with 500 and nothing appended when `appendRow` throws |
| Ingestion.IngestHeaderFault | google-apps-script.js:35-46 | when `setupHeaders` throws, the answer is 500 with the error's message and the sheet is left as far as `setupHeaders` got |
| Ingestion.IngestAppendsOneRow | google-apps-script.js:35-49 | a saved lead appends exactly one 13-cell row; every row but row 1 keeps its contents, and row 1 does too when it already was a header row |
| Ingestion.FailedIngestAppendsNothing | google-apps-script.js:51-60 | a 500 never appends a row: the sheet is unchanged, provisioned, or as far as a throwing `setupHeaders` got; it holds no more rows than the provisioned sheet, and every row below row 1 is as it was |
| Ingestion.IngestWellFormed | google-apps-script.js:19-61 | every request keeps the sheet well formed |
| Ingestion.FirstLeadIntoMissingSheet | google-apps-script.js:35-49 | the first lead into a missing sheet leaves the header and the lead, the lead in row 2 and shaded, and one lead counted |
| Ingestion.SecondLeadKeepsHeader | google-apps-script.js:38-49 | a second saved lead finds the header in place and lands below the first, so the header is written at most once and leads stay in arrival order |
| Ingestion.AppendKeepsHeader | google-apps-script.js:38-46 | appending below a header row does not make the next request rewrite the header |
| Ingestion.IngestCountsOneLead | google-apps-script.js:49-52 | each saved lead adds one to the lead count |
| Ingestion.StatsCountsRowsBelowHeader | google-apps-script.js:250-252 | the lead count is the number of rows below row 1, and -1 for an existing sheet that holds nothing |
| Ingestion.ClearedSheetIsHeaderOnly | google-apps-script.js:232-241 | clearing an existing sheet leaves exactly the header row, with a lead count of 0; a missing sheet stays missing |
| Ingestion.HeaderInsertedAtTop | google-apps-script.js:216-227 | adding headers to a sheet moves every row and its background down one and puts the header in row 1 |
| AppsScript.Sheet.FirstRowValues | google-apps-script.js:40 | reads the first 13 cells of row 1, blanks past the end of the stored row |
| AppsScript.Sheet.SetFirstRowValues | google-apps-script.js:92 | writes the values into the first cells of row 1 and changes nothing else |
| AppsScript.Sheet.SetRowBackground | google-apps-script.js:137 | marks the row as shaded exactly when the colour is the alternate one |
| AppsScript.Sheet.GetLastRow | google-apps-script.js:132 | `getLastRow()` is the number of stored rows, and on a well-formed sheet that row is not blank |
| AppsScript.Sheet.AppendRow | google-apps-script.js:129 | the row goes below the last stored row and no background changes |
| AppsScript.Spreadsheet.InsertLeadsSheet | google-apps-script.js:36 | `insertSheet` creates a new, empty sheet, which becomes the lead sheet |
| AppsScript.Sheet.InsertRowBeforeFirst | google-apps-script.js:221 | moves every row and its background down one |
| AppsScript.Sheet.Clear | google-apps-script.js:237 | empties the sheet and its backgrounds |
| AppsScript.SetupHeaders | google-apps-script.js:74-104 | leaves the sheet `WithHeaderRow` describes, or, when a call throws, the sheet as far as the calls before it got, and reports the exception; the sheet stays well formed |
| AppsScript.AddDataToSheet | google-apps-script.js:107-150 | returns false exactly when `appendRow` throws, leaving the sheet as it was; otherwise appends the lead row with its shading |
| AppsScript.OpenLeadSheet | google-apps-script.js:30-46 | the lead sheet is the existing one or a new one; it is provisioned, or, when `setupHeaders` throws (only if it is called), left as far as `setupHeaders` got |
| AppsScript.DoPost | google-apps-script.js:19-61 | the response and the resulting sheet are exactly those of `Ingest`; an existing sheet object is kept and a created one is new |
| AppsScript.DoGetRequest | google-apps-script.js:64-66 | answers 200 without touching the spreadsheet |
| AppsScript.DoOptionsRequest | google-apps-script.js:69-71 | answers 200 without touching the spreadsheet |
| AppsScript.AddHeadersToCurrentSheet | google-apps-script.js:216-227 | the active sheet's rows become the header followed by its old rows |
| AppsScript.ClearSheet | google-apps-script.js:232-241 | an existing lead sheet holds exactly the header row; a missing one stays missing |
| AppsScript.GetStats | google-apps-script.js:246-264 | `getLastRow() - 1` when the lead sheet exists, 0 otherwise |

## Left out

- DOM wiring: event listeners, the `error` CSS class as a style, `aria-live`
  attributes, focus handling, scrolling. The error state is modelled as the
  set of flagged field names and the text of each field's error region.
- `showFieldError`/`clearFieldError` when the page has no `<name>-error`
  element: the model assumes every field has one, so the message map always
  holds an entry for a validated field.
- Field lengths are counted in Unicode code points. JavaScript counts UTF-16
  code units, which differs only for characters outside the Basic
  Multilingual Plane.
- `debounce`, `throttle`, toasts, timers and the `async` submit handlers:
  their point is timing and event order.
- `submitLead`: a placeholder that always resolves `true` after a timer; its
  network code is commented out.
- The counter animation, `isInViewport`, lazy loading and analytics: floating
  point layout and foreign browser APIs.
- `JSON.parse`: the body is given already parsed, as a map from field name to
  string. Non-string JSON values and a body that parses to something other
  than an object are not modelled.
- `createResponse`: its timestamp, MIME type and CORS headers are left out;
  a response is its status and message.
- Sheet formatting: bold text, font colour, `autoResizeColumns` and the date
  number format. The model keeps only which rows carry the alternate
  background. The two colours the script sets are the two values of
  `Background` (`#4285f4` and `#f8f9fa`); other colours are not modelled.
- AppsScript.AddDataToSheet: a failure of `getLastRow`, `setBackground` or
  `setNumberFormat` after the row was appended is not modelled. The source
  would then answer 500 with the row already in place; the model lets only
  `appendRow` fail.
- AppsScript.Sheet.AppendRow: requires a non-blank row, which is all the
  script appends (every lead row carries a timestamp and a form type). This
  keeps `getLastRow` equal to the number of stored rows.
- Concurrent requests: each `doPost` is modelled as one atomic step on the
  sheet, and requests arrive one at a time. The script takes no lock, so two
  first requests can both find no sheet, and the second `insertSheet` then
  throws and answers 500. `getLastRow` can also return a row another request
  has just appended, and then the wrong row is shaded. `Ingest`,
  `SecondLeadKeepsHeader` and the shading lemmas do not cover interleaving.
- AppsScript.ClearSheet and AppsScript.AddHeadersToCurrentSheet: a throw
  inside `setupHeaders` is not modelled for these two, which are run from the
  editor with no catch. Such a throw ends the script and leaves the sheet
  empty after `clear()`, or with a bare row 1 after `insertRowBefore(1)`, or
  with the header partly written. The model always finishes the header.
- Typed cell values: `getValues` returns numbers, booleans and dates, but the
  model's cells are strings, and the timestamp is a string. The header test
  first asks whether a cell is truthy, so in the script a row 1 holding only
  the number 0 or the boolean `FALSE` counts as empty and gets the header
  written over it. The model counts the text `"0"` as a header.
- Controls that share a name share one error flag and one error text in the
  model, because the error state is keyed by field name. The page keeps the
  `error` class on each control separately, so two controls named alike (the
  same field in the two contact forms, say) can be flagged differently there.
  The error text itself is per name on the page too, since it is looked up by
  the id `<name>-error`.
- `console.log` and `console.error` output.
- `testScript`: a manual driver that posts one fixed lead; it is covered by
  `FirstLeadIntoMissingSheet` and `SecondLeadKeepsHeader`.
- The spreadsheet ID and the sheet name are fixed: the model has one
  spreadsheet whose lead sheet is present or absent.
