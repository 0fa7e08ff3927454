# Fivetran connector and Google Sheets exporter, modelled in Dafny

This project models two Google Apps Script components.

- **The Fivetran connector** (`FivetranConnector`):
  - a class holding API credentials and a shared header object;
  - a status classifier for HTTP responses;
  - a filter compiler turning key/value specs into a predicate;
  - a cursor pager over listing endpoints;
  - the listing queries (`getGroups`, `getTeams`, `getUsers`, `getConnectorsInGroup`, `getConnectors`) and `pauseConnector`.
- **The sheet exporter**:
  - a quote-all delimited-text serializer over a grid of display strings;
  - the CSV and TSV helpers built on it;
  - the blob and MIME-type mapping of `googleSheetExporter_`;
  - the argument checks and format dispatch of `exportGoogleSheetsFile`.

The Google services are replaced by values. `UrlFetchApp.fetch` becomes a fetch oracle: for each URL, the outcome of the first request, then the outcomes of the continuation requests in order. Drive folders and spreadsheets are maps, and file creation is a function from folder and blob to a URL.

Modules:

| file | module | what it holds |
|---|---|---|
| `wrappers.dfy` | `Wrappers` | `Option`, `Result` |
| `fivetran_filters.dfy` | `FivetranFilters` | `buildFilterConditions_`: the filter as a typed disjunction of conjunctions, the in-place `pop` loop over a shared list |
| `fivetran_http.dfy` | `FivetranHttp` | `makeCallToApi_`'s classifier, `authenticator_`, the `Accept` value, the URLs |
| `fivetran_pager.dfy` | `FivetranPager` | the loop of `queryApiCursors_`, written generically over the classifier, and its specification `PagesVisited`/`Selected` |
| `fivetran_connector.dfy` | `FivetranConnector` | the `Connector` class: constructor, `buildHttpParams_`, the queries, `getConnectors`, `pauseConnector` |
| `sheet_contents.dfy` | `SheetContents` | `generateSheetContents_` as nested loops, its specification `SheetText`, length and a reader proving the round trip |
| `sheet_export.dfy` | `SheetExport` | `googleSheetExporter_`, `exportToCSV_`, `exportTempToTSV_`, `exportGoogleSheetsFile` |

The model follows the code as written, and the proofs show what that code actually does:

- The cursor loop's guard (`!== null || !== undefined`) is always true.
- Every continuation call is muted, so it always throws. With the real classifier, a query therefore returns what it selects from the first page only.
- `buildFilterConditions_` empties the caller's filter list. In `getConnectors`, only the first group popped is filtered.
- The `tsv` branch of `exportGoogleSheetsFile` calls `exportToTSV_`, which is not defined. That branch always ends in the caught error, and the function never produces a TSV file.

## Model

| member | source | states |
|---|---|---|
| `FivetranFilters.CompiledClausesMembers` | FivetranConnector/FivetranConnector.js:94-106 | a spec becomes a clause iff it is in the input and has at least one key; empty specs are skipped |
| `FivetranFilters.CompiledClauses` | FivetranConnector/FivetranConnector.js:94-106 | never more clauses than specs, and every clause has at least one key |
| `FivetranFilters.Compile` | FivetranConnector/FivetranConnector.js:96-97 | the "filter required" flag is true iff some spec of the input has a key |
| `FivetranFilters.CompiledClausesNonEmpty` | FivetranConnector/FivetranConnector.js:96-97 | some clause is compiled iff some spec of the input has a key |
| `FivetranFilters.CompileSound` | FivetranConnector/FivetranConnector.js:99-102 | an item the compiled predicate accepts satisfies every key/value equality of some non-empty input spec |
| `FivetranFilters.CompileComplete` | FivetranConnector/FivetranConnector.js:99-107 | an item satisfying every equality of some non-empty input spec is accepted |
| `FivetranFilters.CompileSemantics` | FivetranConnector/FivetranConnector.js:99-107 | both directions: accepted iff some non-empty spec holds field by field, and a missing field never matches |
| `FivetranFilters.CompiledClausesReversed` | FivetranConnector/FivetranConnector.js:94-95 | the clauses are the non-empty specs in reverse input order, because the list is consumed with `pop` |
| `FivetranFilters.NonEmptySpecsAppend` | FivetranConnector/FivetranConnector.js:96-105 | the non-empty specs of a list with one more spec gain that spec exactly when it is non-empty |
| `FivetranFilters.HoldsOrderIrrelevant` | FivetranConnector/FivetranConnector.js:107 | the truth of the joined disjunction does not depend on the order or repetition of its clauses |
| `FivetranFilters.FilterList.constructor` | FivetranConnector/FivetranConnector.js:124 | a shared filter array holding the given specs |
| `FivetranFilters.FilterList.Pop` | FivetranConnector/FivetranConnector.js:95 | `pop` removes and returns the last spec |
| `FivetranFilters.BuildFilterConditions` | FivetranConnector/FivetranConnector.js:89-109 | the loop leaves the caller's list empty and returns the flag and the condition of `Compile` on the list it started with |
| `FivetranHttp.DecimalHasTwoIff` | FivetranConnector/FivetranConnector.js:45 | the decimal text of a code contains `2` iff some decimal digit of the number is 2 |
| `FivetranHttp.Accepted` | FivetranConnector/FivetranConnector.js:45 | the classifier accepts iff some decimal digit of the code is 2 and the response is not muted |
| `FivetranHttp.SuccessCodesAccepted` | FivetranConnector/FivetranConnector.js:45 | every code from 200 to 299 is accepted when not muted |
| `FivetranHttp.ClassifierExamples` | FivetranConnector/FivetranConnector.js:45 | 502 is accepted; 404 and 301 are rejected; a muted 200 is rejected |
| `FivetranHttp.MakeCallToApi` | FivetranConnector/FivetranConnector.js:41-56 | returns the response iff the fetch succeeded, the classifier accepts, and the body parses to a JSON value other than `null`; a rejected code throws with that code and the content text; once accepted, a body that is not JSON throws at line 46 and a `null` body throws at line 47 |
| `FivetranHttp.MutedCallAlwaysThrows` | FivetranConnector/FivetranConnector.js:45-54 | with the real classifier, a muted call throws whatever the response |
| `FivetranHttp.NullBodyThrows` | FivetranConnector/FivetranConnector.js:45-47 | a 2xx response whose body is `null` throws at line 47 |
| `FivetranHttp.UnmutedCallIff` | FivetranConnector/FivetranConnector.js:45-54 | an unmuted call succeeds iff the code has a digit 2 and the body parses to a JSON value other than `null` |
| `FivetranHttp.SplitUserPass` | FivetranConnector/FivetranConnector.js:28 | splitting at the first colon gives a user with no colon, and the string is user, colon, password |
| `FivetranHttp.UserPassRoundTrip` | FivetranConnector/FivetranConnector.js:28 | the key (when it has no colon) and the secret are recovered from the `key:secret` string |
| `FivetranHttp.Authenticator` | FivetranConnector/FivetranConnector.js:27-30 | the header object has only `Authorization`: `Basic ` followed by the base64 of `key:secret` |
| `FivetranHttp.AcceptValue` | FivetranConnector/FivetranConnector.js:73 | `application/json;version=` followed by the version's decimal text |
| `FivetranHttp.DefaultVersion` | FivetranConnector/FivetranConnector.js:16 | a falsy version (absent or 0) becomes 1, any other number is kept; the result is never 0 |
| `FivetranHttp.CursorUrl` | FivetranConnector/FivetranConnector.js:156 | the URL, `?cursor=`, the cursor's text (`null`/`undefined` for those values), then `&limit=1000` |
| `FivetranPager.LoopGuardAlwaysTrue` | FivetranConnector/FivetranConnector.js:137 | the loop condition holds for every cursor, so it never ends the loop |
| `FivetranPager.ContinuationPage` | FivetranConnector/FivetranConnector.js:155-160 | a continuation yields a page iff the muted call is accepted, the body parses to a JSON value other than `null` and it holds a listing, and then it is that listing |
| `FivetranPager.PagesVisited` | FivetranConnector/FivetranConnector.js:137-164 | the pages walked start with the first page and number at most one more than the continuation outcomes |
| `FivetranPager.NextCursors` | FivetranConnector/FivetranConnector.js:129 | one cursor per page, each page's `next_cursor` |
| `FivetranPager.Matching` | FivetranConnector/FivetranConnector.js:143-151 | the filtered items are never more than the input |
| `FivetranPager.MatchingAppend` | FivetranConnector/FivetranConnector.js:143-151 | filtering distributes over concatenation, so page order and item order are kept |
| `FivetranPager.MatchingMembers` | FivetranConnector/FivetranConnector.js:145-146 | an item is kept iff it is in the input and the predicate accepts it |
| `FivetranPager.FirstMatchIsFirst` | FivetranConnector/FivetranConnector.js:145-148 | at most one item; none iff no item matches; otherwise it is the earliest matching item |
| `FivetranPager.ScanPage` | FivetranConnector/FivetranConnector.js:138-154 | the item loop of one page picks what `Selected` picks, and requests an exit iff a filter is required, `exitOnTrue` is set and some item matches |
| `FivetranPager.SelectedCons` | FivetranConnector/FivetranConnector.js:138-154 | selecting from one page then the rest equals selecting from all, and stops at a page where an exit happens |
| `FivetranPager.WalkFromItems` | FivetranConnector/FivetranConnector.js:137-164 | the items the loop collects are what `Selected` takes from the items of the visited pages |
| `FivetranPager.WalkFromTurns` | FivetranConnector/FivetranConnector.js:135-160 | `pageTurns` counts the visited pages, and one request follows every page unless the loop exits on a match |
| `FivetranPager.WalkFromRequests` | FivetranConnector/FivetranConnector.js:156-157 | each continuation request carries the cursor of the page just left, in page order |
| `FivetranPager.WalkFromMeaning` | FivetranConnector/FivetranConnector.js:133-166 | the loop's items, turns and requests in terms of the visited pages |
| `FivetranPager.WalkFromExit` | FivetranConnector/FivetranConnector.js:147-148 | a match under `exitOnTrue` ends the loop on that page, with no further request |
| `FivetranPager.WalkFromLast` | FivetranConnector/FivetranConnector.js:161-162 | a failed continuation ends the loop after one request |
| `FivetranPager.WalkFromNext` | FivetranConnector/FivetranConnector.js:155-160 | a decoded continuation goes on with the next page |
| `FivetranPager.CursorLoop` | FivetranConnector/FivetranConnector.js:133-166 | the loop returns the items `Selected` picks from the visited pages, with between 1 and that many page turns and one request per page left, with that page's cursor |
| `FivetranPager.FirstPage` | FivetranConnector/FivetranConnector.js:126-138 | three outcomes of a successful unmuted call: no `data` fails as "not a listing" (line 129), `data` without `items` fails at line 138, and a listing gives its page; a failed call propagates its error |
| `FivetranPager.FiltersConsumedIff` | FivetranConnector/FivetranConnector.js:126-131 | the filter list is consumed iff the first page is read or fails only at its missing `items`, that is iff the query gets past line 129 |
| `FivetranPager.FirstMatch` | FivetranConnector/FivetranConnector.js:145-148 | at most one item, and never more than the page has |
| `FivetranPager.Selected` | FivetranConnector/FivetranConnector.js:139-153 | never more items than the input, and at most one when a filter is required under `exitOnTrue` |
| `FivetranPager.Query` | FivetranConnector/FivetranConnector.js:124-167 | succeeds iff the first page is read, with the first page's error otherwise; never more items than the visited pages hold, and at most one under `exitOnTrue` with a filter |
| `FivetranPager.RealClassifierOnePage` | FivetranConnector/FivetranConnector.js:157 | with the real classifier, the loop visits only the first page |
| `FivetranPager.RealQueryFirstPageOnly` | FivetranConnector/FivetranConnector.js:124-167 | with the real classifier, a query propagates the first fetch's error, or returns what it selects from the first page |
| `FivetranPager.SelectedSpec` | FivetranConnector/FivetranConnector.js:139-153 | with no filter, all items in order and `exitOnTrue` has no effect; with a filter, exactly the matching items, and at most one under `exitOnTrue` |
| `FivetranConnector.PauseFailedMessage` | FivetranConnector/FivetranConnector.js:287 | the failure message is the fixed prefix, the connector id, and a closing quote |
| `FivetranConnector.PauseFailedMessageInjective` | FivetranConnector/FivetranConnector.js:287 | different connector ids give different failure messages |
| `FivetranConnector.ConnectorsFrom` | FivetranConnector/FivetranConnector.js:204-213 | the specs left in the caller's list are either all of them or none |
| `FivetranConnector.UnfilteredQuery` | FivetranConnector/FivetranConnector.js:139-140 | with an empty filter list, a query returns all first-page items whatever `exitOnTrue` is, and fails iff the first fetch does |
| `FivetranConnector.DefaultFiltersKeepAll` | FivetranConnector/FivetranConnector.js:229-231 | the default `[{}]` filters nothing: the groups query returns every first-page group |
| `FivetranConnector.ConnectorsFromUnfiltered` | FivetranConnector/FivetranConnector.js:204-213 | once the shared list is empty, every group contributes its whole first page, in pop order, until a group's query throws |
| `FivetranConnector.OnlyFirstGroupFiltered` | FivetranConnector/FivetranConnector.js:199-213 | for either `exitOnTrue`, with a filter required, the first group popped returns what `Selected` picks from its first page and every later group returns its whole first page |
| `FivetranConnector.ConnectorsFromStep` | FivetranConnector/FivetranConnector.js:205-211 | one group: a throwing query ends the walk with the specs untouched; otherwise its items come first and the rest are unfiltered |
| `FivetranConnector.GetConnectorsOutcome` | FivetranConnector/FivetranConnector.js:199-215 | the caller's list is left either as it was or empty |
| `FivetranConnector.Connector.AcceptKeepsValid` | FivetranConnector/FivetranConnector.js:73 | writing the `Accept` header keeps the header object to `Authorization` and the version's `Accept` |
| `FivetranConnector.Connector.AcceptTwice` | FivetranConnector/FivetranConnector.js:73 | a second write of the `Accept` header changes nothing |
| `FivetranConnector.Connector.constructor` | FivetranConnector/FivetranConnector.js:13-20 | stores the credentials, the version (1 when falsy) and the base URL, and creates a fresh header object holding the `authenticator_` value |
| `FivetranConnector.Connector.BuildHttpParams` | FivetranConnector/FivetranConnector.js:66-78 | the parameters share the connector's header object, into which `Accept` is written; mute on, JSON content type, payload only for patch and post |
| `FivetranConnector.Connector.QueryApiCursors` | FivetranConnector/FivetranConnector.js:124-167 | the result is `Query` of the specs the list held; the list is emptied iff the query gets past the `next_cursor` read of line 129 |
| `FivetranConnector.Connector.GetConnectorsInGroup` | FivetranConnector/FivetranConnector.js:181-185 | the query of the group's connectors URL; the shared list is emptied iff that query gets past line 129 |
| `FivetranConnector.Connector.GetGroups` | FivetranConnector/FivetranConnector.js:229-233 | the query of the groups URL; the shared list is emptied iff that query gets past line 129 |
| `FivetranConnector.Connector.GetTeams` | FivetranConnector/FivetranConnector.js:247-251 | the query of the teams URL; the shared list is emptied iff that query gets past line 129 |
| `FivetranConnector.Connector.GetUsers` | FivetranConnector/FivetranConnector.js:265-269 | the query of the users URL; the shared list is emptied iff that query gets past line 129 |
| `FivetranConnector.Connector.GetConnectors` | FivetranConnector/FivetranConnector.js:199-215 | a failing groups query propagates; otherwise groups are popped from the end, and the first throwing group ends the walk while keeping earlier connectors; the shared list ends as `ConnectorsFrom` says |
| `FivetranConnector.Connector.PauseConnector` | FivetranConnector/FivetranConnector.js:276-289 | a `patch` call with payload `{"paused": true}`, the connector's header object, mute on and JSON content type; succeeds iff the unmuted call does (so a 2xx `null` body fails), and otherwise fails with the failure message for that id |
| `SheetContents.Escape` | exportGoogleSheetsFile/generateSheetContents_.js:26-28 | the escaped cell is longer by exactly its number of double quotes |
| `SheetContents.EscapeWithoutQuote` | exportGoogleSheetsFile/generateSheetContents_.js:26 | a cell without a double quote is left unchanged, so the guard around the replacement changes nothing |
| `SheetContents.RowTextSnoc` | exportGoogleSheetsFile/generateSheetContents_.js:21-29 | appending a cell appends one delimiter (none before the first cell) and the quoted cell |
| `SheetContents.SheetTextSnoc` | exportGoogleSheetsFile/generateSheetContents_.js:20-31 | appending a row appends its text and one line feed |
| `SheetContents.SheetText` | exportGoogleSheetsFile/generateSheetContents_.js:20-34 | the text is empty iff the grid is, and has at least one character per row |
| `SheetContents.SheetTextEnds` | exportGoogleSheetsFile/generateSheetContents_.js:20-34 | an empty grid gives the empty string; otherwise the text ends with the last row and its line feed |
| `SheetContents.GenerateSheetContents` | exportGoogleSheetsFile/generateSheetContents_.js:18-34 | the nested loops produce exactly `SheetText` of the grid and the delimiter |
| `SheetContents.RowTextLength` | exportGoogleSheetsFile/generateSheetContents_.js:21-30 | a row's length is the sum over its cells of length plus quote count plus 2, plus (cells − 1) delimiters |
| `SheetContents.SheetTextLength` | exportGoogleSheetsFile/generateSheetContents_.js:20-32 | the text's length is the sum of the row lengths plus one line feed per row |
| `SheetContents.ReadQuotedEscape` | exportGoogleSheetsFile/generateSheetContents_.js:26-29 | un-doubling reads an escaped cell back, up to its closing quote |
| `SheetContents.ReadField` | exportGoogleSheetsFile/generateSheetContents_.js:29 | a quoted field is read back and what follows it is left unread |
| `SheetContents.ReadCellsRowText` | exportGoogleSheetsFile/generateSheetContents_.js:21-31 | the cells of a non-empty row and its line feed are read back for a separable delimiter |
| `SheetContents.ReadRowText` | exportGoogleSheetsFile/generateSheetContents_.js:21-31 | any row, empty or not, is read back from its text |
| `SheetContents.SheetTextRoundTrip` | exportGoogleSheetsFile/generateSheetContents_.js:20-34 | for a non-empty delimiter with no `"` and no line feed, a quote-all reader recovers the exact grid, including cells with delimiters, tabs and line breaks |
| `SheetContents.SheetTextInjective` | exportGoogleSheetsFile/generateSheetContents_.js:20-34 | for such a delimiter, different grids give different texts |
| `SheetExport.OrDefault` | exportGoogleSheetsFile/exportToCSV_.js:10 | a falsy value (undefined, null, empty) gives the fallback; any other string is kept unchanged |
| `SheetExport.ContentType` | exportGoogleSheetsFile/googleSheetExporter_.js:12-19 | `tsv` maps to `tab-separated-values`; every other extension maps to itself |
| `SheetExport.GoogleSheetExporter` | exportGoogleSheetsFile/googleSheetExporter_.js:9-31 | the blob holds the contents unchanged with type `text/` plus the content type; the name is file name, dot, extension; the URL is that of the file created in the target folder |
| `SheetExport.CsvMimeType` | exportGoogleSheetsFile/googleSheetExporter_.js:12-23 | `csv` gives `text/csv` |
| `SheetExport.TsvMimeType` | exportGoogleSheetsFile/googleSheetExporter_.js:12-23 | `tsv` gives `text/tab-separated-values` |
| `SheetExport.MimeTypeCollision` | exportGoogleSheetsFile/googleSheetExporter_.js:12-23 | two different extensions share a MIME type only when they are `tsv` and `tab-separated-values` |
| `SheetExport.SplitExtension` | exportGoogleSheetsFile/googleSheetExporter_.js:24 | a split at the last dot gives a base name and an extension with no dot that rebuild the name |
| `SheetExport.SplitBlobName` | exportGoogleSheetsFile/googleSheetExporter_.js:24 | the blob name gives back the file name and an extension that has no dot |
| `SheetExport.ExportSheet` | exportGoogleSheetsFile/exportToCSV_.js:12-23 | a missing sheet fails (the null sheet's `getRange` throws); otherwise the uploaded contents are the serializer on that sheet with that delimiter |
| `SheetExport.ExportSheetFile` | exportGoogleSheetsFile/exportToCSV_.js:12-23 | the file lands in the target folder with the extension's MIME type, named `<file> - <sheet>.<ext>`; the URL returned is that file's, and its contents read back to the sheet |
| `SheetExport.ExportToCsv` | exportGoogleSheetsFile/exportToCSV_.js:8-25 | succeeds iff the sheet exists; then a `text/csv` file in the target folder holding the sheet serialized with the delimiter, or a comma when it is falsy |
| `SheetExport.ExportTempToTsv` | exportGoogleSheetsFile/exportTemptToTSV_.js:8-25 | succeeds iff the sheet exists; then a `text/tab-separated-values` file in the target folder holding the sheet serialized with the delimiter, or a tab when it is falsy |
| `SheetExport.CsvExport` | exportGoogleSheetsFile/exportToCSV_.js:8-25 | comma unless a delimiter is given; `text/csv`, named `<file> - <sheet>.csv`; the contents are the serialized sheet and read back to it |
| `SheetExport.TsvExport` | exportGoogleSheetsFile/exportTemptToTSV_.js:8-25 | tab unless a delimiter is given; `text/tab-separated-values`, named `<file> - <sheet>.tsv`; the contents are the serialized sheet and read back to it |
| `SheetExport.DefaultDelimitersSeparable` | exportGoogleSheetsFile/exportToCSV_.js:10 | the default comma and tab are separable, so a default export always reads back |
| `SheetExport.Lower` | exportGoogleSheetsFile/exportGoogleSheetsFile.js:31 | lowercasing keeps the length and maps each character independently |
| `SheetExport.EmptyParameterMessage` | exportGoogleSheetsFile/exportGoogleSheetsFile.js:15 | `ERROR: Parameter '`, the parameter name, then `' cannot be empty.` |
| `SheetExport.UnsupportedFormatMessage` | exportGoogleSheetsFile/exportGoogleSheetsFile.js:39 | the message quotes the format as given, not lower-cased |
| `SheetExport.ValidationFirst` | exportGoogleSheetsFile/exportGoogleSheetsFile.js:13-27 | with an empty argument, the outcome is the same whatever Drive, the format and the delimiter are, and it names the first empty argument in the order sheetId, sheetName, targetFolderId |
| `SheetExport.EmptyParameterMessagesDistinct` | exportGoogleSheetsFile/exportGoogleSheetsFile.js:13-24 | the three messages differ |
| `SheetExport.ExportGoogleSheetsFile` | exportGoogleSheetsFile/exportGoogleSheetsFile.js:11-45 | throws iff an argument is empty or the folder or spreadsheet lookup fails, and throws the empty-parameter error iff an argument is empty; every error inside the `try` is caught |
| `SheetExport.Dispatch` | exportGoogleSheetsFile/exportGoogleSheetsFile.js:11-41 | a null format fails; an export happens only for a missing format or one that lowercases to `csv`, and is then a `text/csv` file; the undefined `exportToTSV_` is hit iff the format lowercases to `tsv` |
| `SheetExport.FormatCaseInsensitive` | exportGoogleSheetsFile/exportGoogleSheetsFile.js:31-36 | `csv`/`tsv` spellings with the same lower case give the same outcome |
| `SheetExport.DefaultFormatIsCsv` | exportGoogleSheetsFile/exportGoogleSheetsFile.js:11 | a missing format acts as `csv` |
| `SheetExport.CsvBranch` | exportGoogleSheetsFile/exportGoogleSheetsFile.js:32-33 | once the checks pass, the CSV branch runs the CSV helper on the looked-up sheet and folder, with the delimiter argument unchanged |
| `SheetExport.TsvAlwaysCaught` | exportGoogleSheetsFile/exportGoogleSheetsFile.js:35-36 | the TSV branch always ends in the caught error of the undefined `exportToTSV_` |
| `SheetExport.OtherFormatsCaught` | exportGoogleSheetsFile/exportGoogleSheetsFile.js:38-44 | any other format, or a null one, is caught and logged, and the function returns normally |
| `SheetExport.NeverExportsTsv` | exportGoogleSheetsFile/exportGoogleSheetsFile.js:29-45 | every file the function does export is a `text/csv` file |

## Left out

- `UrlFetchApp.fetch` is not called. Its outcome is an input: a status code, the content text, whether the text parses as JSON, and the decoded listing page.
- The `JSON.parse(httpResponse)` of line 46 of `FivetranConnector.js` becomes the response's `Parsed` outcome: not JSON, the value `null`, or another value. Line 47 reads `message` of that value: it throws for `null` (the `NullResponse` error) and is otherwise used only for logging.
- `Logger.log` output is not modelled. Only what is logged (success or the caught error) is kept, in `SheetExport.Outcome`.
- `Utilities.base64Encode` is a function parameter of the connector's constructor. The encoding of section 4 of RFC 4648 is not modelled.
- The `eval` of the generated filter string is replaced by the typed `Condition` it was meant to express, compared with plain string equality. Each clause is the text `item.<key> == "<value>"` (lines 100 and 145 of `FivetranConnector.js`). The model therefore does not capture:
  - injection or syntax errors caused by values that contain `"`;
  - values with backslashes, which JavaScript reads as escapes, or with line breaks, which end the string literal with a syntax error;
  - keys that are not JavaScript identifiers (with `-`, spaces or a leading digit), which change the expression or make it a syntax error;
  - dotted keys such as `a.b`, which become a nested property access instead of a lookup of the key `a.b`;
  - JavaScript's loose `==` coercions;
  - non-string or nested field values.
- A continuation whose body has no `data` field is treated like a failed fetch: `data.next_cursor` throws inside the `try`, and the `catch` ends the loop.
- FivetranPager.ContinuationPage: a continuation whose `data` has no `items` also ends the loop as a failed fetch, whereas the source reads `data.items` at line 138 of `FivetranConnector.js`, outside the `try`, and the whole query throws. A continuation is only read when the classifier accepts a muted call, and `FivetranHttp.MutedCallAlwaysThrows` shows the real classifier never does.
- SheetContents.RowTextLength and SheetContents.SheetTextLength count characters as Unicode scalar values, whereas JavaScript's `.length` counts UTF-16 code units. The two differ for characters outside the Basic Multilingual Plane.
- When the oracle runs out of continuation outcomes, the next fetch counts as failed. This bounds the loop, which the source's always-true guard does not.
- The pager records the cursors it requests, not the full URLs. `FivetranHttp.CursorUrl` builds each URL from its cursor.
- `apiVersion` is modelled only as an integer or absent; other JavaScript values are left out.
- `exportGoogleSheetsFile/openInputSheetId_.js` is not part of this model. The spreadsheet is looked up by its `sheetId` argument in a map, whether that is a URL or an id.
- `DriveApp.getFolderById` becomes a map lookup. A missing entry is the exception it throws.
- `SpreadsheetApp`: the sheet is given as its grid of display values. `getRange` over the sheet's data range and `getDisplayValues` are not modelled, including `getRange` on a sheet with no data.
- `SheetExport.Lower`: only ASCII letters are lowercased, unlike `String.prototype.toLowerCase`. The only formats that matter are `csv` and `tsv`, and no non-ASCII character lowercases to an ASCII letter of either of them.
- Arguments of `exportGoogleSheetsFile` that are neither strings, `undefined` nor `null` are left out, as are a non-string `toFormat` and non-string delimiters.
- Logging text, the order of `Logger` calls and the success message with the URL are not modelled. The URL is carried in the outcome.
