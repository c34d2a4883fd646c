# Academy attendance web app — a Dafny model

The web app keeps a class roster in a spreadsheet: one row per student with a
name, a phone number, a presence status (1 = checked in, 0 = checked out) and a
payment date. Staff check students in and out, send messages by hand, and add,
edit or delete students. Each check-in or check-out notifies the student's
phone. This project models the request handlers of `web_app.py` over an
abstract worksheet and proves what they do to the sheet and which messages
they send.

- `wrappers.dfy` (`Wrappers`): `Option`.
- `cells.dfy` (`Cells`): a cell value is `Empty`, `Int`, `Str` or `Other`.
  It defines the Python built-ins the app applies to cells: truthiness,
  `str()` and `int()`. It also defines `str.strip()` and the decimal
  spelling of integers.
- `sheet.dfy` (`Sheet`): the worksheet as a map from row number to the four
  role cells. It has the scan specification (`Scan`, `Roster`), the
  derivation of a student record, and row lookup. It defines the four cell
  writes, with lemmas about what a rescan returns after each one. The
  `Worksheet` class holds the rows and has the `read_students` loop, the
  free-row search loop of `add_student`, and the in-place writes.
- `messages.dfy` (`Messages`): the notification templates and the
  manual-send kind selection.
- `webapp.dfy` (`WebApp`): the `App` class with the configuration, the
  worksheet and a ghost outbox. Its methods are the handlers `checkin`,
  `checkout`, `send_message`, `edit_phone`, `add_student` and
  `delete_student`. A closing scenario checks in one student twice: the
  first call sends one message and the second is refused.

The status is stored as a plain integer. The handlers refuse only the one
redundant transition: check-in refuses status 1 and check-out refuses
status 0. Any other value, such as a 2 typed into the sheet, is allowed in
both directions. The model follows the code here, not a two-valued status
type.

Inputs: the workbook save is the `saved` flag. The clock is the `now`
string. The configuration is an immutable `Config` value. The request JSON
fields are `Option<string>` values.

## Model

| member | source | states |
|---|---|---|
| Cells.Truthy | web_app.py:91-112 | definition of Python truthiness of a cell (`None`, `0` and `''` are false), used by the scan's stop test and the phone and payment rows |
| Cells.Text | web_app.py:108-109 | definition of `str()` of a cell, used for the name and phone of a record |
| Cells.IntOf | web_app.py:101-102 | definition of `int()` of a cell, used by `NormalizeStatus` |
| Cells.Strip | web_app.py:366-370 | definition of `str.strip()`, whose properties `StripTrims`, `StripSlice` and `StripIdempotent` state |
| Cells.IntStrip | web_app.py:101-102 | definition of the padding `int()` skips at both ends of a text: the `isspace()` characters except the separators U+001C to U+001F |
| Cells.ParseDecimal | web_app.py:101-102 | definition of `int()` of a text cell: the `IntStrip` padding, one optional sign, decimal digits; used by `ParseDecimalRoundTrip`, `ParseDecimalIgnoresPadding` and `ParseDecimalRejectsSeparator` |
| Cells.DecimalText | web_app.py:108-109 | definition of `str()` of an integer cell, used by `ParseDecimalRoundTrip` and `NatTextSpells` |
| Cells.StripTrims | web_app.py:366-370 | `strip()` leaves no white space at either end, and is empty exactly when the input is blank |
| Cells.StripSlice | web_app.py:332-341 | what `strip()` removes is a blank prefix and a blank suffix; the result is the slice between them |
| Cells.StripIdempotent | web_app.py:341 | stripping an already stripped value changes nothing |
| Cells.NatTextSpells | web_app.py:109 | `str(n)` of a natural number is a non-empty digit string whose value is `n` |
| Cells.ParseDecimalRoundTrip | web_app.py:98-104 | `int(str(n)) == n` for every integer `n` |
| Cells.ParseDecimalIgnoresPadding | web_app.py:101-102 | `int()` of a text cell ignores the padding it skips around the number |
| Cells.ParseDecimalRejectsSeparator | web_app.py:101-104 | a text that starts or ends with one of U+001C to U+001F is not a number, so such a status cell reads as 0 |
| Cells.TruthyTextNonEmpty | web_app.py:109 | `str()` of a truthy cell value is never `''` |
| Sheet.StudentOf | web_app.py:106-113 | definition of the record built from one row's cells, used by `ScanShape`, `RosterShape` and the rescan lemmas |
| Sheet.Scan | web_app.py:83-115 | definition of the scan loop from a row until the first falsy name, which `ScanShape` characterises and `ReadStudents` computes |
| Sheet.Roster | web_app.py:80-118 | definition of `read_students()` from the configured row (empty below row 1), used by `RosterShape`, `FindInRoster` and the handlers' contracts |
| Sheet.NormalizeStatus | web_app.py:98-104 | the status is `int(cell)` when that succeeds; it is 0 for an empty cell or one `int()` rejects; it never fails |
| Sheet.StatusTextReadsBack | web_app.py:98-104 | a status cell holding the integer `n`, or the text of `n`, reads as `n` |
| Sheet.PhoneText | web_app.py:109 | the phone string is `''` exactly when the phone cell is falsy, else `str()` of the cell |
| Sheet.PaymentStatus | web_app.py:112 | '납입완료' exactly when a payment date is present, '미납' exactly when it is not |
| Sheet.Find | web_app.py:168 | returns none exactly when no student has that row; otherwise a student of the list with that row |
| Sheet.FindFirst | web_app.py:168 | when the i-th student is the first with that row, the lookup returns that student |
| Sheet.ScanShape | web_app.py:83-115 | the scan from row `b` yields the records of rows `b, b+1, …` in order, each with a truthy name, and stops at the first falsy name |
| Sheet.RosterShape | web_app.py:80-118 | the i-th student is row `start_row + i`; every name is non-empty; the row after the last student has no name |
| Sheet.FindInRoster | web_app.py:165-171 | lookup succeeds exactly for rows `start_row ≤ row < start_row + k`, and returns that row's record |
| Sheet.WithStatus | web_app.py:132-133 | writing a status changes that row's status cell and no other cell |
| Sheet.WithPhone | web_app.py:340-341 | writing a phone changes that row's phone cell and no other cell |
| Sheet.WithNewStudent | web_app.py:383-387 | writes name, phone and status 0 at the row; writes the payment cell only when a date is given, else keeps the old cell; other rows unchanged |
| Sheet.WithoutRow | web_app.py:423 | definition of the worksheet after `delete_rows(row, 1)`, which `WithoutRowAt` characterises and `RosterAfterDelete` uses |
| Sheet.WithoutRowAt | web_app.py:423 | after `delete_rows(row, 1)` the rows above are unchanged and each row below moves up by one |
| Sheet.ScanAfterRowWrite | web_app.py:83-115 | rewriting one row without touching its name changes that row's record in a rescan and nothing else |
| Sheet.RosterAfterStatusWrite | web_app.py:124-137 | after a status write the roster is the same, except that row's student has the normalised new status |
| Sheet.RosterAfterPhoneWrite | web_app.py:336-341 | after a phone write the roster is the same, except that row's student has the new phone string |
| Sheet.StatusWriteReadsBack | web_app.py:174-178 | after writing status `n` for a listed student, the lookup finds that student with status `n`; so a repeated check-in sees 1 and is refused |
| Sheet.PhoneWriteReadsBack | web_app.py:341 | after an edit, the lookup finds the student with the new phone, so later notifications go to it |
| Sheet.ScanAfterFill | web_app.py:378-387 | filling the row where a scan stops adds that row, and then any filled rows after the gap, to the scan |
| Sheet.RosterAfterAdd | web_app.py:378-387 | after `add_student` the roster is: the old roster, then the new student at row `start_row + k`, then the rows after that gap |
| Sheet.AddedStudentIsListed | web_app.py:383-385 | the added student is found at its row, with the stripped name and phone and status 0 |
| Sheet.ScanAfterDeleteBelow | web_app.py:423 | after a deletion, a scan from at or below the deleted row is the old scan one row lower, renumbered up by one |
| Sheet.ScanAfterDelete | web_app.py:423 | a scan that reached the deleted row loses that record; the records after it move up one row |
| Sheet.RosterAfterDelete | web_app.py:412-423 | deleting the i-th student's row removes exactly that record; later students keep their data and move up one row |
| Sheet.Worksheet.ReadStudents | web_app.py:72-122 | the loop returns exactly the roster specification, and an empty list for a start row below 1 |
| Sheet.Worksheet.FirstEmptyRow | web_app.py:378-380 | returns the first row at or after `start_row` whose name is falsy, which is `start_row + k` for a roster of length `k` |
| Sheet.Worksheet.SetStatus | web_app.py:133 | the rows become the old rows with the status cell written |
| Sheet.Worksheet.SetPhone | web_app.py:341 | the rows become the old rows with the phone cell written |
| Sheet.Worksheet.PutStudent | web_app.py:383-387 | the rows become the old rows with the new student's cells written |
| Sheet.Worksheet.AppendStudent | web_app.py:378-387 | the new student is written at row `start_row + k` for a roster of `k` students, and the rows become the old rows with that student's cells written |
| Sheet.Worksheet.DeleteRow | web_app.py:423 | the rows become the old rows with the row deleted and later rows moved up |
| Messages.CheckinMessage | web_app.py:180 | definition of the check-in notification template, used by `NotificationsNameStudent`, `ManualText` and `App.Checkin` |
| Messages.CheckoutMessage | web_app.py:214 | definition of the check-out notification template, used by `NotificationsNameStudent`, `ManualText` and `App.Checkout` |
| Messages.PaymentRequestMessage | web_app.py:302 | definition of the default payment reminder, used by `ManualText` |
| Messages.NotificationsNameStudent | web_app.py:180-214 | both notifications quote the student's name, then the academy's name; for the same student, check-in and check-out texts differ |
| Messages.ParseKind | web_app.py:288-304 | a kind is selected exactly when `type` is "checkin", "checkout" or "payment_request"; anything else, missing included, is invalid |
| Messages.ManualText | web_app.py:294-302 | manual check-in and check-out texts equal the automatic ones; a payment request uses a non-empty custom text verbatim, else the default reminder |
| WebApp.Academy | web_app.py:291 | definition of the academy name the messages quote: the configured one, else the default 'OO학원'; used by the handlers' contracts |
| WebApp.App.Lookup | web_app.py:165-168 | definition of a handler's lookup: `Find` on a fresh roster read, whose meaning `FindInRoster` states |
| WebApp.Notify | web_app.py:183-184 | a notification is one gateway call when the phone is non-empty, none otherwise |
| WebApp.Filled | web_app.py:332 | a field passes `not x or not x.strip()` exactly when it is present and not blank, and then yields the non-empty stripped value |
| WebApp.EchoedDate | web_app.py:398 | the echoed payment date is stripped when the field is a non-empty string, else none |
| WebApp.App.UpdateStatus | web_app.py:124-141 | the result is whether the workbook was written; only then does the status cell change |
| WebApp.App.Checkin | web_app.py:161-193 | unknown row, status already 1, or failed save: rejection, nothing written or sent. Otherwise status becomes 1, the exact check-in text is returned, and it is sent once iff the phone is non-empty |
| WebApp.App.Checkout | web_app.py:195-227 | unknown row, status already 0, or failed save: rejection, nothing written or sent. Otherwise status becomes 0, and the exact check-out text is sent once iff the phone is non-empty |
| WebApp.App.SendMessage | web_app.py:271-314 | unknown row, no phone, or invalid type: refused with nothing sent. Otherwise exactly one message of the chosen text is sent; the sheet is never written |
| WebApp.App.EditPhone | web_app.py:316-353 | unknown row, or phone missing or blank: refused with nothing written. Otherwise only that phone cell changes, to the stripped value, which the reply echoes |
| WebApp.App.AddStudent | web_app.py:355-403 | a blank name or phone is refused with nothing written. Otherwise the stripped name and phone and status 0 go to the first nameless row, with the date only if not blank |
| WebApp.App.DeleteStudent | web_app.py:405-434 | an unknown row is refused with nothing written; otherwise that row is deleted and later rows move up |

## Left out

- Flask routing, `jsonify` and HTTP status codes: a handler's answer is the `Reply` datatype; whether a refusal was 200, 400 or 500 is not kept.
- Opening and saving the workbook, `init_excel_file`, and the exception handlers. A failed save is the `saved` input. A workbook that cannot be opened is not modelled.
- `read_students` returns an empty roster when the workbook cannot be read. The model keeps only one such case: a start row below 1, which is not a cell address.
- `load_config` (environment variables or `config.json`): the configuration is an immutable `Config` value. It holds the academy name, which may be missing, and the start row. The four column letters are the fields of `Row`, so two roles sharing one configured column are not modelled.
- `datetime.now()` timestamps are the opaque `now` input.
- `send_sms` and the gateways behind it: `sms_sender.py` is not part of this model. A send is an append to the ghost outbox. The app ignores what `send_sms` returns, so a failed delivery is not modelled.
- `int()` and `str()` of float, boolean and date cells are not computed. An `Other` cell carries their results.
- ParseDecimal: `int()` of a text cell also accepts `_` between digits and non-ASCII decimal digits. The model rejects both, so such a status reads as 0 here.
- ParseDecimal: Python 3.11 and later refuse `int()` of a numeral with more than 4300 digits, so the source reads such a status cell as 0 (the bare `except` at web_app.py:103). The model parses numerals of any length, and `ParseDecimalRoundTrip` holds for every integer. Likewise `str()` of an integer cell with more than 4300 digits raises, and the read then returns an empty roster; the model spells such an integer.
- Request fields that are JSON values other than strings. The model takes every field as an optional string, so it does not capture what the source does with them:
  - a non-string `type` such as `5` gets the usual invalid-type refusal (web_app.py:303-304);
  - a truthy non-string `message` with `type` "payment_request" is handed to `send_sms` as the message (web_app.py:299-300, 308-314);
  - a falsy non-string `name` or `phone` (`0`, `[]`, `false`) gets the usual "please enter" refusal (web_app.py:332-333, 366-370);
  - a truthy non-string `payment_date` raises at web_app.py:386, inside the `try`, and gets the 500 error reply (web_app.py:402-403); a falsy one (`0`, `false`, `[]`, `{}`) is treated as no date: no payment cell is written and the echo is none (web_app.py:386, 398);
  - only a truthy non-string `name` or `phone` reaches an unguarded `.strip()` (web_app.py:332, 366, 369) and raises with no JSON reply.
- Request bodies that are not a JSON object are not modelled.
- `register_payment` and the page routes `index`, `get_students` and `mobile` are not part of this model.
- The spreadsheet's limit of 1,048,576 rows: row numbers are unbounded.
- Two requests at once: each handler reads and rewrites the whole workbook, so concurrent requests race. The model runs one handler at a time.
