# QR Foundry core, modelled in Dafny

QR Foundry is a desktop QR-code studio: a Tauri back end written in Rust and
a React front end written in TypeScript. This project models its core and
proves properties of that model.

- **Batch commands** (`batch.rs`):
  - reading a CSV table into batch items;
  - validating rendered images one by one;
  - writing them into a ZIP archive under sanitised, zero-padded names.
- **Validation commands** (`validate.rs`):
  - the pass/warn/fail verdict for a rendered image against its expected content;
  - the scanner's decode result;
  - sniffing the content type.
- **Content formatters** (`formatters.ts`):
  - the WiFi, vCard, mailto, SMS, tel, geo and URL payloads;
  - the client-side content-type detector.
- **Batch screen and its hook** (`BatchView.tsx`, `useBatch.ts`):
  - the generate-all pass, its validation phase and the progress bar;
  - single-flight preview rendering and preview navigation;
  - format changes, download names;
  - the hook's results map.
- **Mockup generator** (`qr-forge-mockup.jsx`):
  - the pseudo-QR matrix, with its 32-bit string hash;
  - its finder patterns and logo anchors;
  - the simulated validation timer.
- **Validation hook** (`useValidation.ts`).
- **Templates and history** (`useTemplates.ts`, `useHistory.ts`, `TemplatesView.tsx`, `HistoryView.tsx`):
  - the hooks' local lists;
  - applying a saved style to the shared store;
  - the style swatch, search and paging, relative times.

One Dafny module models each source file. The shared modules are:

| Module | Holds |
|---|---|
| `Wrappers` | `Option`, `Result`, and `Invoke`: how an awaited back-end call ended |
| `Text` | trim, lower-case, split/join, decimal digits |
| `Lists` | filter-by-id |
| `ContentType` | the back end's `detect_qr_type`, shared by the two Rust files |
| `Decoding` | the base64 / image / QR-grid stack, as a parameter |
| `StyleStore` | the style fields of the shared store |

The program's own structure decides the form of each module:
- Pure computations are functions with lemmas.
- State that React hooks and screens update is a class with `modifies` frames.
- Loops in the source are methods with invariants, proved against a specification function.

Every effect the model cannot see is given to it as its outcome. These are:
- an `invoke` into the back end;
- a QR render;
- the save dialog;
- the ZIP writer;
- the CSV tokenizer;
- the decoders;
- the clock.

## Model

| member | source | states |
|---|---|---|
| Wrappers.OrElse | src/hooks/useBatch.ts:59 | `a \|\| b` on an optional string: the first operand exactly when it is present and non-empty, otherwise the fallback |
| Text.Trim | src-tauri/src/commands/batch.rs:97 | definition of `trim`: white space removed at both ends; its properties are TrimStartSpec, TrimEndSpec, TrimEmpty and TrimIdempotent |
| Text.TrimStartSpec | src-tauri/src/commands/batch.rs:97 | trimming the front removes only white space, keeps a suffix of the input, and leaves no white space at the front |
| Text.TrimEndSpec | src-tauri/src/commands/batch.rs:97 | trimming the back removes only white space, keeps a prefix of the input, and leaves no white space at the back |
| Text.TrimEmpty | src-tauri/src/commands/batch.rs:97-101 | a trimmed cell is empty exactly when every character is white space; a non-empty trimmed cell starts and ends with non-space |
| Text.TrimIdempotent | src/components/templates/TemplatesView.tsx:47 | trimming twice equals trimming once |
| Text.Lower | src-tauri/src/commands/batch.rs:86 | ASCII lower-casing keeps the length of the text (Rust's full `to_lowercase` can change it) |
| Text.LowerAt | src-tauri/src/commands/batch.rs:86 | lower-casing maps each character on its own and keeps the length |
| Text.LowerAppend | src-tauri/src/commands/batch.rs:329 | lower-casing distributes over concatenation |
| Text.SplitJoin | src/lib/formatters.ts:80 | splitting lines joined with a separator that occurs in none of them gives back the lines |
| Text.JoinSplit | src/lib/formatters.ts:80 | joining the pieces of a split restores the text |
| Text.Split | src/lib/formatters.ts:80 | a split has at least one piece, has two or more exactly when the separator occurs, and no piece contains the separator |
| Text.Decimal | src-tauri/src/commands/batch.rs:124 | the decimal rendering of a number is a non-empty digit string without a leading zero (except for 0) |
| Text.DecimalRoundTrip | src-tauri/src/commands/batch.rs:124 | reading back the decimal digits of a number gives the number |
| Text.ZeroPad | src-tauri/src/commands/batch.rs:290-292 | definition of `{:03}` padding: zeros put in front up to the width; its properties are ZeroPadSpec and ZeroPadValue |
| Text.ZeroPadSpec | src-tauri/src/commands/batch.rs:290-292 | `{:03}` padding reaches the width, keeps the digits as its tail and puts only zeros in front |
| Text.ZeroPadValue | src-tauri/src/commands/batch.rs:290-292 | zero padding keeps a digit string a digit string with the same value |
| Lists.Without | src/hooks/useHistory.ts:81 | definition of `filter((x) => x.id !== id)` over any keyed list; its properties are the four Lists lemmas |
| Lists.WithoutMembers | src/hooks/useTemplates.ts:81 | after filtering an id out, an element remains exactly when it was there and has another id |
| Lists.WithoutAppend | src/hooks/useHistory.ts:81 | the filter distributes over concatenation, so order is kept |
| Lists.WithoutAbsent | src/hooks/useHistory.ts:81 | filtering an id nobody has changes nothing |
| Lists.WithoutShorter | src/hooks/useHistory.ts:81-82 | the filter never lengthens the list and shortens it when the id is present |
| ContentType.DetectQrType | src-tauri/src/commands/batch.rs:328-350 | definition of `detect_qr_type`: the first of the eight prefix rules, in source order, on the lower-cased content; stated by DetectIsFirstMatch and PlainTextIffNoRule |
| ContentType.FirstMatch | src-tauri/src/commands/batch.rs:329-349 | the chain of `if starts_with … return` tests: the first matching rule's type, `text` when none matches; stated by DetectIsFirstMatch and NoMatchIsPlain |
| ContentType.ParseTag | src-tauri/src/commands/batch.rs:328-350 | a recognised tag names the type whose tag it is |
| ContentType.TagRoundTrip | src-tauri/src/commands/batch.rs:328-350 | every type's tag reads back as that type, so the nine tags are distinct |
| ContentType.DetectIsFirstMatch | src-tauri/src/commands/batch.rs:328-350 | the detector returns the type of the first rule whose prefixes the lower-cased content starts with, and `text` when none does |
| ContentType.PlainTextIffNoRule | src-tauri/src/commands/validate.rs:186-208 | content is `text` exactly when it starts with none of the rule prefixes |
| ContentType.NoMatchIsPlain | src-tauri/src/commands/validate.rs:186-208 | a rule list that never yields `text` yields it exactly when no rule matches |
| ContentType.OnePrefix | src-tauri/src/commands/batch.rs:331 | a one-prefix rule matches exactly the content starting with that prefix |
| ContentType.TwoPrefixes | src-tauri/src/commands/batch.rs:337 | the two-prefix SMS rule matches content starting with either prefix |
| Decoding.StripDataUrl | src-tauri/src/commands/validate.rs:25-29 | a text without a comma is its own payload; otherwise the payload holds no comma |
| Decoding.StripDataUrlIsSecondField | src-tauri/src/commands/batch.rs:154-158 | the payload of a text with a comma is its second comma-separated field |
| Decoding.DataUrlPayload | src-tauri/src/commands/validate.rs:25-29 | a data URL `header,payload` yields exactly its payload |
| ScanValidate.SameContent | src-tauri/src/commands/validate.rs:69-70 | the comparison `decoded.trim() == expected.trim()`; VerdictIgnoresPadding states that padding never changes it |
| ScanValidate.LoadGrid | src-tauri/src/commands/validate.rs:24-41 | bad base64 fails with "Failed to decode base64: …"; loading succeeds exactly when the payload decodes and the image loads |
| ScanValidate.Classify | src-tauri/src/commands/validate.rs:52-107 | the verdict is pass exactly when the first grid decodes to the expected content up to surrounding white space, and fail exactly when there is no grid; content match agrees with pass; decoded content is reported exactly when the grid decoded |
| ScanValidate.ValidateQr | src-tauri/src/commands/validate.rs:20-108 | `validate_qr` errors exactly when the image cannot be loaded, and otherwise returns the classification of its grid |
| ScanValidate.LoadFailureIsError | src-tauri/src/commands/validate.rs:37-41 | an unknown image format and an undecodable image are errors with their own messages, not verdicts |
| ScanValidate.NoGridFails | src-tauri/src/commands/validate.rs:52-64 | no grid gives fail, no content, no match, "No QR code detected in image" and exactly the three fixed suggestions in source order, whatever was expected |
| ScanValidate.DecodedVerdicts | src-tauri/src/commands/validate.rs:66-107 | a match passes with no suggestions; a mismatch warns with one suggestion; an undecodable grid warns with no content and three suggestions |
| ScanValidate.StateNames | src-tauri/src/commands/validate.rs:10 | a verdict's name is one of "pass", "warn" and "fail" |
| ScanValidate.VerdictIgnoresPadding | src-tauri/src/commands/validate.rs:69-70 | surrounding white space on either side changes no verdict; only the reported decoded text keeps it |
| ScanValidate.DecodeQrFromImage | src-tauri/src/commands/validate.rs:151-184 | a scan succeeds exactly when the first grid decodes; then, and only then, it carries the content and its detected type, and no error |
| ScanValidate.ScanQrFromData | src-tauri/src/commands/validate.rs:119-140 | scanning image data fails exactly when the image cannot be loaded, and otherwise decodes its grid |
| ScanValidate.ScanQrFromFile | src-tauri/src/commands/validate.rs:110-117 | an unopenable file fails with "Failed to open image: …"; an opened one is decoded |
| ScanValidate.ScanAgreesWithValidate | src-tauri/src/commands/validate.rs:119-140 | content the scanner reads from an image makes `validate_qr` pass on that image |
| BatchBackend.ParseCsv | src-tauri/src/commands/batch.rs:72-137 | definition of `parse_csv_content`: header error, missing content column, otherwise the record fold; stated by ParseOutcome, MissingContentColumn and ParseUpToReference, and computed by ParseCsvContent |
| BatchBackend.RowError | src-tauri/src/commands/batch.rs:124 | the text `Error at row <index + 2>: <error>`; stated by RowErrorNamesRow |
| BatchBackend.FindColumn | src-tauri/src/commands/batch.rs:84-90 | the column found is the first header that lower-cases to the name; none is found exactly when no header does |
| BatchBackend.TypeOf | src-tauri/src/commands/batch.rs:103-106 | a present type cell, trimmed and lower-cased, is the type; without one the content's detected type is used |
| BatchBackend.LabelOf | src-tauri/src/commands/batch.rs:108-111 | the label is the trimmed label cell when that is non-empty, and absent otherwise |
| BatchBackend.ItemOf | src-tauri/src/commands/batch.rs:97-118 | a record yields an item exactly when its trimmed content is non-empty; the item carries that content and the one-based row |
| BatchBackend.DetectedType | src-tauri/src/commands/batch.rs:103-106 | without a type cell the item's type is a valid tag naming the detected type |
| BatchBackend.BlankTypeCell | src-tauri/src/commands/batch.rs:103-106 | a present but blank type cell gives the empty type, not a detected one |
| BatchBackend.FirstMalformed | src-tauri/src/commands/batch.rs:94-129 | the index of the first malformed record, with every record before it well-formed; none exactly when all are well-formed |
| BatchBackend.FirstMalformedIs | src-tauri/src/commands/batch.rs:120-127 | a malformed record preceded only by good ones is the first malformed one |
| BatchBackend.FirstMalformedAppend | src-tauri/src/commands/batch.rs:94-129 | appending a record keeps an earlier error, or makes the new record the first error when it is malformed |
| BatchBackend.ParseRecords | src-tauri/src/commands/batch.rs:94-129 | the record loop ends in the state the parse fold reaches over all records |
| BatchBackend.ParseCsvContent | src-tauri/src/commands/batch.rs:66-137 | `batch_parse_csv_content` computes the parse function of the table |
| BatchBackend.StoppedStays | src-tauri/src/commands/batch.rs:120-127 | once a malformed record stops the loop, later records change nothing |
| BatchBackend.ParseUpToReference | src-tauri/src/commands/batch.rs:94-136 | the loop keeps collecting exactly while no record so far is malformed; then its items are those the records yield, and otherwise its result is the error for the first malformed record |
| BatchBackend.BatchParseCsv | src-tauri/src/commands/batch.rs:59-64 | an unreadable file fails with "Failed to read file: …"; a read file is parsed |
| BatchBackend.MissingContentColumn | src-tauri/src/commands/batch.rs:84-87 | the parse fails with "CSV must have a 'content' column" exactly when no header lower-cases to "content" |
| BatchBackend.ParseOutcome | src-tauri/src/commands/batch.rs:94-136 | with a content column, parsing succeeds exactly when every record is well-formed; on success it returns the items and their count as total; on failure no items, a zero total and the error naming the first malformed record |
| BatchBackend.ItemsFromRecords | src-tauri/src/commands/batch.rs:113-118 | every item comes from a record at its row with a non-empty content cell |
| BatchBackend.LastRecordItem | src-tauri/src/commands/batch.rs:113-118 | an item contributed by the last record is that record's item, numbered by its position |
| BatchBackend.HasRowAppend | src-tauri/src/commands/batch.rs:113 | an item row present in either part is present in the whole list |
| BatchBackend.ItemsComplete | src-tauri/src/commands/batch.rs:97-118 | every record with non-empty content yields an item at its row; none is dropped |
| BatchBackend.RowsIncrease | src-tauri/src/commands/batch.rs:114 | item rows strictly increase, start at 1 and never exceed the number of records read |
| BatchBackend.RowErrorNamesRow | src-tauri/src/commands/batch.rs:124 | the row error message carries, right after "Error at row ", the digits of the record index plus 2 |
| BatchBackend.ItemVerdict | src-tauri/src/commands/batch.rs:175-230 | a row's validation succeeds exactly when the image loads and its grid decodes to the content up to white space; content match equals success; an error is given exactly on failure |
| BatchBackend.ValidateSingleItem | src-tauri/src/commands/batch.rs:152-231 | the same per-row verdict, stated through the decoded text of the image data |
| BatchBackend.AgreesWithValidateQr | src-tauri/src/commands/batch.rs:152-231 | a row validates exactly when `validate_qr` on the same image and content returns pass |
| BatchBackend.BatchValidate | src-tauri/src/commands/batch.rs:139-150 | one result per item, in order, each the item's own validation and carrying its row |
| BatchBackend.SafeChar | src-tauri/src/commands/batch.rs:354-358 | every character maps to a file-safe one; safe characters are kept and all others become '_' |
| BatchBackend.MapSafe | src-tauri/src/commands/batch.rs:353-358 | sanitising maps the label character by character |
| BatchBackend.SanitizeFilename | src-tauri/src/commands/batch.rs:352-361 | the name is the first 50 characters, each made safe, and only safe characters remain |
| BatchBackend.SanitizeKeepsSafe | src-tauri/src/commands/batch.rs:352-361 | a short label of safe characters is kept as it is |
| BatchBackend.SanitizeIdempotent | src-tauri/src/commands/batch.rs:352-361 | sanitising twice equals sanitising once |
| BatchBackend.Stem | src-tauri/src/commands/batch.rs:289-293 | the part of an entry name after the row: the sanitised label, or `qr` without one |
| BatchBackend.ZipEntryName | src-tauri/src/commands/batch.rs:288-293 | definition of the entry name `{:03}_<stem>.png`; stated by ZipEntryNameParses, ZipEntryNameInjective and PngSuffix |
| BatchBackend.ZipEntryNameParses | src-tauri/src/commands/batch.rs:288-293 | an entry name is at least three digits that read back as the row, an underscore, the sanitised label (or "qr") and ".png" |
| BatchBackend.NameFields | src-tauri/src/commands/batch.rs:290 | the first underscore of an entry name ends its digit prefix |
| BatchBackend.ZipEntryNameInjective | src-tauri/src/commands/batch.rs:288-293 | two items with the same entry name have the same row and the same stem |
| BatchBackend.PngSuffix | src-tauri/src/commands/batch.rs:290-292 | every entry name ends in ".png" |
| BatchBackend.PrepareAll | src-tauri/src/commands/batch.rs:269-293 | the per-item checks, decoded images and names, one per item and in order |
| BatchBackend.PrepareItem | src-tauri/src/commands/batch.rs:271-293 | computes an item's validation result, decoded image bytes and entry name |
| BatchBackend.PrepareItems | src-tauri/src/commands/batch.rs:269-293 | the loop computes the per-item work for all items |
| BatchBackend.PrepareAllSnoc | src-tauri/src/commands/batch.rs:269 | the per-item work for one more item appends that item's work |
| BatchBackend.AddEntry | src-tauri/src/commands/batch.rs:271-299 | one turn of the export loop: collect the validation when asked, stop on bad base64 or a writer error, otherwise append the entry |
| BatchBackend.WriteArchive | src-tauri/src/commands/batch.rs:269-300 | the export loop ends in the state the fold reaches over all items, stopping at the first error |
| BatchBackend.WriteEntries | src-tauri/src/commands/batch.rs:267-300 | the export pass as a whole ends in the fold's state over the items |
| BatchBackend.AbortedStays | src-tauri/src/commands/batch.rs:286-299 | an error ends the loop: later items change nothing |
| BatchBackend.GenerateZip | src-tauri/src/commands/batch.rs:235-311 | definition of `batch_generate_zip` on the dialog's answer: cancel, create, the item loop and finish, each failure with the source's message; stated by CancelledExport, CompletedExport and ExportContents |
| BatchBackend.BatchGenerateZip | src-tauri/src/commands/batch.rs:235-311 | the command returns the export result, and a completed export wrote exactly the archive of the items |
| BatchBackend.WritingShape | src-tauri/src/commands/batch.rs:269-300 | while the loop runs, entry i holds item i's name and decoded bytes, and the validation results are exactly item i's checks when validating, none otherwise |
| BatchBackend.CompletedExport | src-tauri/src/commands/batch.rs:302-310 | a successful export came from a loop that never stopped, and reports that loop's validation results |
| BatchBackend.AllWritten | src-tauri/src/commands/batch.rs:269-300 | a finished loop wrote one entry per item under the item's entry name, and collected each item's validation when asked |
| BatchBackend.ExportContents | src-tauri/src/commands/batch.rs:235-311 | a successful export holds one ".png" entry per item, named from the item's row and label, and returns each item's validation when asked and none otherwise |
| BatchBackend.CancelledExport | src-tauri/src/commands/batch.rs:248-257 | a cancelled save dialog returns unsuccessfully with no path, no results and "Save cancelled by user" |
| BatchHook.Await | src/hooks/useBatch.ts:54 | a command's error becomes the call's rejection and its value the resolved value |
| BatchHook.ResultsMap | src/hooks/useBatch.ts:108-110 | definition of the map built by `results.forEach((r) => map.set(r.row, r))`; stated by ResultsMapKeys, ResultsMapLastWins and ResultsMapSize |
| BatchHook.ResultsMapKeys | src/hooks/useBatch.ts:108-110 | the results map is keyed by exactly the rows of the results |
| BatchHook.ResultsMapLastWins | src/hooks/useBatch.ts:109 | each row maps to the last result for that row |
| BatchHook.ResultsMapSize | src/hooks/useBatch.ts:108-110 | with distinct rows the map has one entry per result |
| BatchHook.BuildResultsMap | src/hooks/useBatch.ts:108-109 | the `forEach` loop builds the results map |
| BatchHook.ItemsAfterParse | src/hooks/useBatch.ts:55-57 | the items are replaced only by a successful parse |
| BatchHook.ParseErrorAfter | src/hooks/useBatch.ts:52-64 | no error exactly after a successful parse; a rejection gives "Failed to parse CSV: …"; an unsuccessful parse gives its error or "Failed to parse CSV" |
| BatchHook.MapAfterValidate | src/hooks/useBatch.ts:104-115 | a rejected validation keeps the map; a returned one keys it by the results' rows |
| BatchHook.MapAfterZip | src/hooks/useBatch.ts:135-139 | the map changes only when the export returned validation results, and then is keyed by their rows |
| BatchHook.Batch.constructor | src/hooks/useBatch.ts:41-48 | no items, no error, an empty map, and nothing in progress |
| BatchHook.Batch.ParseCsv | src/hooks/useBatch.ts:50-88 | `parseCsvFile` and `parseCsvContent`: true exactly on a successful parse; items and error as above; parsing ends; nothing else changes |
| BatchHook.Batch.ValidateBatch | src/hooks/useBatch.ts:100-121 | the returned results, or none when the call rejects; the map updated as above; loading ends |
| BatchHook.Batch.GenerateZip | src/hooks/useBatch.ts:123-150 | the export result, or null on a rejection; the map updated as above; generating ends |
| BatchHook.Batch.ClearBatch | src/hooks/useBatch.ts:152-156 | items, error and map are cleared and the busy flags kept |
| BatchHook.MissingColumnShown | src/hooks/useBatch.ts:50-68 | a table without a content column leaves the items and shows the back end's message after "Failed to parse CSV: " |
| BatchHook.ParseShown | src/hooks/useBatch.ts:50-68 | through the hook, a well-formed table shows its items and no error, and a malformed one keeps the old items and shows the row error |
| BatchHook.ValidatedRowsKeyed | src/hooks/useBatch.ts:108-110 | after validating a batch, the map is keyed by exactly the submitted rows |
| BatchHook.CancelKeepsResults | src/hooks/useBatch.ts:135-139 | a cancelled export leaves the results map as it was |
| BatchHook.UnvalidatedExportKeepsResults | src/hooks/useBatch.ts:135-139 | an export without validation leaves the results map as it was |
| BatchView.RowAfter | src/components/batch/BatchView.tsx:264-296 | a row ends its turn done exactly when its render produced an image and its validation render did not crash, else errored with "Failed to generate"; a done row holds the image |
| BatchView.RenderRow | src/components/batch/BatchView.tsx:265-296 | one turn of the loop gives that row, the generated item when an image was produced, and the validation item when its PNG was produced too |
| BatchView.GeneratedExactly | src/components/batch/BatchView.tsx:272-279 | the generated list holds, in row order, exactly the rows whose render produced an image, each with that image |
| BatchView.AllProducedIff | src/components/batch/BatchView.tsx:389 | at most one generated item per row, and one for every row exactly when every render produced an image |
| BatchView.LoopRows | src/components/batch/BatchView.tsx:264-300 | after the loop each row is its own turn's result |
| BatchView.LoopSettles | src/components/batch/BatchView.tsx:264-300 | after the loop no row is left pending or generating, and a row is done exactly when its renders succeeded |
| BatchView.MarkValidating | src/components/batch/BatchView.tsx:304-306 | done rows become validating, the rest are kept |
| BatchView.FindResult | src/components/batch/BatchView.tsx:314 | `find` returns the first result for the row, or none when no result names it |
| BatchView.ApplyResult | src/components/batch/BatchView.tsx:313-325 | one row through the results: unchanged when no result names it, else error with the back end's error or "Validation failed", error with "Content mismatch", or validated; stated by UnnamedRowStays and ValidatedMeansDecoded |
| BatchView.ApplyResults | src/components/batch/BatchView.tsx:312-326 | every row is mapped through the results on its own, keeping the list's length |
| BatchView.AfterValidation | src/components/batch/BatchView.tsx:309-333 | the rows after the validation call: results applied when it returned, validating rows reverted to done when it rejected; stated by ValidatedMeansDecoded |
| BatchView.RevertValidating | src/components/batch/BatchView.tsx:329-333 | on a rejected validation, validating rows go back to done and the rest are kept |
| BatchView.UnnamedRowStays | src/components/batch/BatchView.tsx:324 | a row no result names is left unchanged |
| BatchView.ValidatedMeansDecoded | src/components/batch/BatchView.tsx:312-326 | with the back end's results, a row ends validated exactly when its submitted image decodes to its content up to white space; its item and image are kept |
| BatchView.Percent | src/components/batch/BatchView.tsx:299 | the progress value `(done / total) * 100` over the reals; stated by PercentBounds |
| BatchView.PercentBounds | src/components/batch/BatchView.tsx:299 | progress stays within 0..100, grows with every row and is 100 after the last |
| BatchView.DownloadName | src/components/batch/BatchView.tsx:359-361 | a download is named after its non-empty label, else `qr-code-<row>`, with the export format's extension |
| BatchView.UnlabelledNamesDiffer | src/components/batch/BatchView.tsx:361 | unlabelled downloads of different rows get different names |
| BatchView.SettleRows | src/components/batch/BatchView.tsx:223-247 | a settled preview render changes only its own row: done with the image and no error, or errored with "Failed to generate" |
| BatchView.ResetRows | src/components/batch/BatchView.tsx:379-385 | every row goes back to pending with no error |
| BatchView.Screen.constructor | src/components/batch/BatchView.tsx:29-47 | every item starts pending, with nothing generated, no progress, the first preview and PNG format |
| BatchView.Screen.ExportEnabled | src/components/batch/BatchView.tsx:389-390 | `allGenerated && !isProcessing`: the ZIP button is enabled exactly when there are generated items, as many as rows, and nothing is processing; FormatChange states that a discarding change disables it |
| BatchView.Screen.CanGoPrev | src/components/batch/BatchView.tsx:67 | the preview can move back when it is past the first row; used by GoPrev |
| BatchView.Screen.CanGoNext | src/components/batch/BatchView.tsx:68 | the preview can move on when it is before the last row; used by GoNext |
| BatchView.Screen.GoPrev | src/components/batch/BatchView.tsx:67-72 | the preview moves back only when it can, stays in range if it was, and nothing else changes |
| BatchView.Screen.GoNext | src/components/batch/BatchView.tsx:68-76 | the preview moves forward only when it can, stays in range if it was, and nothing else changes |
| BatchView.Screen.SelectPreview | src/components/batch/BatchView.tsx:78-80 | the chosen row becomes the preview |
| BatchView.Screen.ShouldDispatch | src/components/batch/BatchView.tsx:209-213 | the effect's guards: a preview row exists, has no image, is not generating and has no render in flight; PreviewDispatch starts a render exactly when it holds |
| BatchView.Screen.PreviewDispatch | src/components/batch/BatchView.tsx:208-221 | a render starts exactly when the preview row has no image, is not generating and has none in flight; it is then marked generating and in flight, so a second dispatch does nothing |
| BatchView.Screen.PreviewSettle | src/components/batch/BatchView.tsx:223-250 | a settled render updates its row and always leaves the in-flight set |
| BatchView.Screen.FormatChange | src/components/batch/BatchView.tsx:373-387 | the same format changes nothing; a new one is taken, and if anything was generated it is discarded, progress reset, rows made pending and the export disabled |
| BatchView.Screen.GenerateAll | src/components/batch/BatchView.tsx:254-343 | with rows, every row is processed, generated holds exactly the produced images, progress is complete, and the rows are the loop's result after the validation phase when anything was sent for validation |
| BatchView.Screen.ValidatePhase | src/components/batch/BatchView.tsx:302-337 | the rows after marking done rows validating and applying the results (or reverting on a rejection); validating ends |
| BatchView.Screen.RenderAll | src/components/batch/BatchView.tsx:264-300 | the loop leaves each row's turn result, the generated and validation items in row order, and full progress |
| Mockup.ToInt32 | qr-forge-mockup.jsx:49 | `hash \|= 0` gives a value in the signed 32-bit range that is congruent to its input modulo 2^32 |
| Mockup.Int32Congruent | qr-forge-mockup.jsx:48-49 | congruent values modulo 2^32 truncate to the same 32-bit value |
| Mockup.ShiftStep | qr-forge-mockup.jsx:48-49 | `(hash << 5) - hash + c`, truncated, equals 31·hash + c truncated |
| Mockup.Hash | qr-forge-mockup.jsx:46-50 | the string hash is a signed 32-bit value |
| Mockup.HashText | qr-forge-mockup.jsx:46-50 | the hashing loop computes the hash of the text |
| Mockup.Seed | qr-forge-mockup.jsx:52 | the seed is the absolute value of the hash, at most 2^31 |
| Mockup.Cell | qr-forge-mockup.jsx:56-66 | every cell is 0 or 1 |
| Mockup.Matrix | qr-forge-mockup.jsx:45-71 | the matrix is size × size, and each cell is given by its position and the text's seed |
| Mockup.GenerateQrMatrix | qr-forge-mockup.jsx:45-71 | the nested loops build that matrix |
| Mockup.GenerateRow | qr-forge-mockup.jsx:54-68 | the inner loop builds one row of it |
| Mockup.FinderRing | qr-forge-mockup.jsx:61 | a finder pattern cell is 0 or 1 |
| Mockup.FinderBlocks | qr-forge-mockup.jsx:56-61 | each of the three 7×7 corner blocks is the finder pattern, whatever the text |
| Mockup.Separators | qr-forge-mockup.jsx:57-63 | the one-cell band around each finder pattern is light |
| Mockup.DataCells | qr-forge-mockup.jsx:65 | outside the finder boxes a cell is dark exactly when its seeded value modulo 100 is below 45 |
| Mockup.CellShape | qr-forge-mockup.jsx:102-132 | how the previewer draws a cell: nothing when light, an eye inside a corner block, a dot elsewhere; stated by EyesAreFinderCells and DotsAreDataCells |
| Mockup.EyesAreFinderCells | qr-forge-mockup.jsx:113 | the cells drawn as eyes are exactly the dark cells of the finder patterns |
| Mockup.DotsAreDataCells | qr-forge-mockup.jsx:113 | the cells drawn as dots are exactly the dark data cells |
| Mockup.PreviewMatrix | qr-forge-mockup.jsx:75-77 | the preview draws the 33-cell matrix of the content, or of "https://example.com" when the content is empty |
| Mockup.LogoAnchors | qr-forge-mockup.jsx:151-172 | the logos drawn: none unless enabled, the canvas centre by default, one finder centre per corner position and three for all corners; stated by LogoCount and LogosOnEyeCentres |
| Mockup.LogoCount | qr-forge-mockup.jsx:151-172 | no logo unless enabled; three for all corners, one otherwise, at the centre when unset |
| Mockup.LogosOnEyeCentres | qr-forge-mockup.jsx:156-158 | every corner logo sits on the dark centre cell of a finder pattern |
| Mockup.Heuristic | qr-forge-mockup.jsx:414-432 | definition of the simulated verdict from the captured inputs; stated by HeuristicTable and HighEcPasses, and what Generator.Fire shows |
| Mockup.HeuristicTable | qr-forge-mockup.jsx:414-432 | fail exactly for content under two characters or an all-corners logo at low error correction; warn and pass as the remaining branches say |
| Mockup.HighEcPasses | qr-forge-mockup.jsx:414-432 | with error correction Q or H, or no logo, only the content length decides |
| Mockup.Generator.constructor | qr-forge-mockup.jsx:384-408 | the settings as given, idle, nothing scheduled |
| Mockup.Generator.Edit | qr-forge-mockup.jsx:410 | changing any of the fourteen dependencies resets the verdict to idle; scheduled checks are kept |
| Mockup.Generator.Validate | qr-forge-mockup.jsx:412-414 | shows validating and schedules a check holding the current settings |
| Mockup.Generator.Fire | qr-forge-mockup.jsx:414-432 | the oldest check fires and shows the verdict for the settings it captured |
| Mockup.Generator.EditCancelling | qr-forge-mockup.jsx:410-433 | a reset that also cancels the scheduled checks, which keeps every shown verdict the verdict of the current settings |
| Mockup.StaleVerdict | qr-forge-mockup.jsx:410-433 | validating "ab" and clearing the content before the timer fires shows pass for content whose verdict is fail |
| Mockup.CancelledVerdict | qr-forge-mockup.jsx:410-433 | the same sequence with cancellation shows idle with nothing scheduled |
| Formatters.EscapeWifiField | src/lib/formatters.ts:25-31 | definition of `escapeWifiField` as the four chained replacements, backslash first; EscapeIsPerCharacter shows it equals per-character escaping of `\ ; : "` |
| Formatters.EscapeIsPerCharacter | src/lib/formatters.ts:25-31 | the four chained replacements escape each reserved character with a backslash and keep the rest |
| Formatters.EscapeAppend | src/lib/formatters.ts:25-31 | escaping distributes over concatenation |
| Formatters.UnescapeEscape | src/lib/formatters.ts:25-31 | unescaping an escaped field gives back the field |
| Formatters.EscapeInjective | src/lib/formatters.ts:25-31 | different fields escape differently |
| Formatters.FormatWifi | src/lib/formatters.ts:7-20 | the payload starts with the type and the escaped SSID and ends with ";;" |
| Formatters.ParseWifi | src/lib/formatters.ts:7-20 | a reader of the `WIFI:T:…;S:…;P:…;H:true;;` payload, the inverse that WifiRoundTrip proves `formatWifi` against |
| Formatters.WifiRoundTrip | src/lib/formatters.ts:7-20 | parsing the payload gives back the type, the SSID, the password when one is sent, and the hidden flag |
| Formatters.PasswordRoundTrip | src/lib/formatters.ts:11-19 | the password is present exactly for a non-empty password on a network that is not open |
| Formatters.HiddenRoundTrip | src/lib/formatters.ts:15-19 | the hidden segment reads back as the hidden flag |
| Formatters.NonEmpty | src/lib/formatters.ts:45 | `filter(Boolean)` keeps only non-empty names |
| Formatters.FullNameCases | src/lib/formatters.ts:45 | the full name is "first last", or whichever of the two is non-empty, or empty |
| Formatters.FormatVCard | src/lib/formatters.ts:37-81 | definition of `formatVCard` as its lines joined with newlines; stated by VCardFrame, VCardLinesRoundTrip and VCardPropertyOrder |
| Formatters.VCardFrame | src/lib/formatters.ts:38-45 | the card opens with BEGIN, VERSION, N and FN and closes with END |
| Formatters.VCardLinesRoundTrip | src/lib/formatters.ts:37-81 | with single-line fields, splitting the card at newlines gives back its lines |
| Formatters.VCardPropertyOrder | src/lib/formatters.ts:37-81 | the properties appear in the fixed order, each optional one exactly when its field is non-empty and ADR exactly when an address is given |
| Formatters.NamesOfHead | src/lib/formatters.ts:38-45 | the head lines are BEGIN, VERSION, N, FN |
| Formatters.NamesOfOptional | src/lib/formatters.ts:47-70 | ORG, TITLE, TEL, EMAIL and URL appear in that order, each exactly when its field is non-empty |
| Formatters.NamesOfAdr | src/lib/formatters.ts:72-76 | ADR appears exactly when an address is given |
| Formatters.NComponents | src/lib/formatters.ts:44 | the N value splits into last name, first name and three empty parts |
| Formatters.AdrComponents | src/lib/formatters.ts:73-76 | the ADR value splits into two empty parts and the five address fields in order |
| Formatters.FormatEmail | src/lib/formatters.ts:87-104 | without subject or body the link is just "mailto:" and the recipient |
| Formatters.EmailRoundTrip | src/lib/formatters.ts:87-104 | parsing the link gives back the recipient and the encoded subject and body, each exactly when non-empty |
| Formatters.ParamsRoundTrip | src/lib/formatters.ts:88-100 | the query parameters read back as the subject and the body that were sent |
| Formatters.QueryRoundTrip | src/lib/formatters.ts:98-101 | a link with a query parses into its recipient and parameters |
| Formatters.ParseMailtoPlain | src/lib/formatters.ts:98 | a link without a query parses into its recipient alone |
| Formatters.FormatSms | src/lib/formatters.ts:110-118 | definition of `formatSms`; stated by SmsRoundTrip |
| Formatters.SmsRoundTrip | src/lib/formatters.ts:110-118 | parsing the SMS link gives back the phone and the encoded message exactly when one was given |
| Formatters.RemoveSpaces | src/lib/formatters.ts:125 | removing white space leaves no white space and never lengthens the number |
| Formatters.RemoveSpacesAppend | src/lib/formatters.ts:125 | removal distributes over concatenation |
| Formatters.RemoveSpacesKeepsClean | src/lib/formatters.ts:125 | a number without white space is kept |
| Formatters.FormatPhone | src/lib/formatters.ts:124-126 | the link starts with "tel:" and holds no white space after it |
| Formatters.FormatPhoneIdempotent | src/lib/formatters.ts:124-126 | formatting a formatted number again changes nothing |
| Formatters.RemoveSpacesChar | src/lib/formatters.ts:125 | a white-space character is dropped and any other character kept; with RemoveSpacesAppend this fixes the result on every input |
| Formatters.FormatPhoneIgnoresSpace | src/lib/formatters.ts:124-126 | inserting a white-space character anywhere in the number leaves the link unchanged |
| Formatters.FormatPhoneClean | src/lib/formatters.ts:124-126 | a number without white space is carried after "tel:" unchanged |
| Formatters.FormatGeo | src/lib/formatters.ts:132-134 | definition of `formatGeo`; stated by GeoRoundTrip |
| Formatters.GeoRoundTrip | src/lib/formatters.ts:132-134 | splitting the geo payload at its first comma gives back latitude and longitude |
| Formatters.FormatUrl | src/lib/formatters.ts:139-148 | empty stays empty; a link with an http(s) scheme, in any case, is kept; any other gets "https://" in front |
| Formatters.FormatUrlIdempotent | src/lib/formatters.ts:139-148 | a formatted URL has a scheme, and formatting it again changes nothing |
| Formatters.DetectQrTypeClient | src/lib/formatters.ts:153-169 | definition of the client `detectQrType`: empty content is text, the seven prefix tests, then the two URL patterns; stated by ClientAgreesWithServer and BareDomainScenario |
| Formatters.ClientAgreesWithServer | src/lib/formatters.ts:153-169 | the client detector agrees with the back end's, except that it also calls a bare domain a URL |
| Formatters.BareDomainScenario | src/lib/formatters.ts:166 | "example.com" is a URL for the client and text for the back end |
| Formatters.NoColonIsText | src-tauri/src/commands/batch.rs:328-350 | content without a colon is always text for the back end |
| ValidationHook.InvokeValidate | src/hooks/useValidation.ts:30-33 | the call rejects exactly when `validate_qr` errors, with its error, and otherwise resolves with its verdict |
| ValidationHook.ErrorResult | src/hooks/useValidation.ts:41-47 | a rejected call is recorded as fail, with no content, no match, "Validation error: …" and one suggestion |
| ValidationHook.StateAfter | src/hooks/useValidation.ts:36-40 | the store shows the returned verdict, or fail on a rejection |
| ValidationHook.ResultAfter | src/hooks/useValidation.ts:35-47 | the returned result is kept, or the error result on a rejection |
| ValidationHook.Validation.constructor | src/hooks/useValidation.ts:15-17 | idle, not validating, no result |
| ValidationHook.Validation.Validate | src/hooks/useValidation.ts:19-54 | empty content fails at once without a call; otherwise the state and result follow the call, validating ends, and only a returned verdict is handed back |
| ValidationHook.Validation.ResetValidation | src/hooks/useValidation.ts:56-59 | no result and the idle state |
| ValidationHook.ShownVerdict | src/hooks/useValidation.ts:30-36 | the store shows pass exactly when the image decodes to the content up to white space, and fail exactly when it cannot be loaded or holds no grid |
| ValidationHook.ResultMatchesState | src/hooks/useValidation.ts:35-47 | the recorded result agrees with the shown state and claims a match only for pass |
| ValidationHook.CommandResultsAgree | src-tauri/src/commands/validate.rs:72-106 | every verdict the command returns claims a match exactly when it is pass |
| StyleStore.QrStore.constructor | src/components/templates/TemplatesView.tsx:13 | the store holds the given content and style |
| StyleStore.Serialize | src/components/templates/TemplatesView.tsx:49-60 | every style field is recorded, except an unset gradient or logo |
| StyleStore.IfTruthy | src/components/templates/TemplatesView.tsx:28 | a string field is set only from a truthy value |
| StyleStore.IfPresent | src/components/templates/TemplatesView.tsx:35-36 | an object field is set only from a present value |
| StyleStore.IfDefined | src/components/templates/TemplatesView.tsx:33-34 | a boolean field is set whenever the key is defined |
| Templates.WithoutId | src/hooks/useTemplates.ts:81 | the template list with one id filtered out; stated by DeleteRemovesId |
| Templates.DeleteRemovesId | src/hooks/useTemplates.ts:81 | after a delete no template has the id, all others remain, and order is kept |
| Templates.MarkDefault | src/hooks/useTemplates.ts:97-102 | marking keeps the list's length |
| Templates.MarkDefaultSpec | src/hooks/useTemplates.ts:97-102 | every template keeps all fields but the flag, which is set exactly for the chosen id; with distinct ids at most one is the default |
| Templates.TemplateList.constructor | src/hooks/useTemplates.ts:21-22 | no templates, not loading |
| Templates.TemplateList.FetchTemplates | src/hooks/useTemplates.ts:24-34 | the list becomes the returned one, or is kept on a rejection; loading ends |
| Templates.TemplateList.SaveTemplate | src/hooks/useTemplates.ts:46-58 | a saved template's id once the list is fetched again; nothing, with the list untouched, when the save fails |
| Templates.TemplateList.UpdateTemplate | src/hooks/useTemplates.ts:60-74 | true exactly when the back end reports success, and only then is the list fetched again |
| Templates.TemplateList.DeleteTemplate | src/hooks/useTemplates.ts:76-90 | true exactly on success, and then the id is filtered out |
| Templates.TemplateList.SetDefaultTemplate | src/hooks/useTemplates.ts:92-111 | true exactly on success, and then the chosen template is marked the only default |
| Templates.GetTemplate | src/hooks/useTemplates.ts:36-44 | the template the back end found, or nothing when it found none or the call rejected |
| TemplatesView.TemplateApplied | src/components/templates/TemplatesView.tsx:24-37 | the store's style after `handleApplyTemplate`: unchanged for unparsable JSON, else each field replaced under its guard; stated by AppliedRestoresSaved, AppliedRoundTrip and AppliedIdempotent, and computed by Screen.ApplyTemplate |
| TemplatesView.AppliedRestoresSaved | src/components/templates/TemplatesView.tsx:24-37 | applying a saved style restores its booleans, its non-empty strings and its set objects, keeping the store's values elsewhere |
| TemplatesView.AppliedRoundTrip | src/components/templates/TemplatesView.tsx:24-60 | a style with no empty strings and both objects set is restored exactly |
| TemplatesView.AppliedIdempotent | src/components/templates/TemplatesView.tsx:24-44 | applying a template twice equals applying it once |
| TemplatesView.StylePreview | src/components/templates/TemplatesView.tsx:105-116 | the swatch takes the truthy colours and dot style, with defaults when unset and all defaults for unparsable JSON |
| TemplatesView.PreviewOfSaved | src/components/templates/TemplatesView.tsx:105-116 | a template's swatch shows the colours and dot style the store had when it was saved |
| TemplatesView.PreviewNonEmpty | src/components/templates/TemplatesView.tsx:108-114 | every swatch value is non-empty |
| TemplatesView.Screen.constructor | src/components/templates/TemplatesView.tsx:9-11 | nothing selected, not creating, an empty name |
| TemplatesView.Screen.SelectTemplate | src/components/templates/TemplatesView.tsx:19-22 | the template is selected and creation ends |
| TemplatesView.Screen.ApplyTemplate | src/components/templates/TemplatesView.tsx:24-44 | the store's style becomes the template applied to it |
| TemplatesView.Screen.SaveCurrentAsTemplate | src/components/templates/TemplatesView.tsx:46-74 | a blank name does nothing; otherwise the trimmed name and the current style are sent, and the form resets only for a truthy id |
| TemplatesView.Screen.Delete | src/components/templates/TemplatesView.tsx:76-91 | only a confirmed delete calls the back end; the selection clears only when the selected template was deleted |
| TemplatesView.Screen.SetDefault | src/components/templates/TemplatesView.tsx:93-103 | the hook's default marking |
| History.SearchArg | src/hooks/useHistory.ts:42 | an empty search is sent as no search |
| History.HasMoreMeansUnloaded | src-tauri/src/commands/history.rs:30 | fetching from the start or the end of the list, "has more" means fewer items are loaded than exist |
| History.ItemsAfter | src/hooks/useHistory.ts:45-49 | the list after a fetched page: replaced at offset 0, extended otherwise; stated by LoadMoreExtends |
| History.LoadMoreExtends | src/hooks/useHistory.ts:45-49 | a later page keeps the loaded items in front and appends the page |
| History.HistoryList.constructor | src/hooks/useHistory.ts:30-33 | no items, not loading, zero total, no more pages |
| History.HistoryList.FetchHistory | src/hooks/useHistory.ts:35-59 | sends the query; a returned page replaces or extends the list and sets total and "has more"; a rejection keeps all three; loading ends |
| History.HistoryList.SaveToHistory | src/hooks/useHistory.ts:36-74 | the saved item's id, with the refetch asking for the first page (50 items, offset 0, no search); a returned page sets the list, total and "has more", a failed refetch leaves all three; nothing, and no change, when the save fails |
| History.HistoryList.DeleteFromHistory | src/hooks/useHistory.ts:76-91 | true exactly on success, and then the id is filtered out and the total drops by one |
| History.HistoryList.ClearHistory | src/hooks/useHistory.ts:93-104 | true exactly when the call returned, and then the list is empty with zero total and no more pages |
| HistoryView.HistoryApplied | src/components/history/HistoryView.tsx:37-46 | the store's style after `handleLoadItem`: the template guards for every field but the two gradient ones; stated by HistoryIsTemplateWithoutGradient |
| HistoryView.HistoryIsTemplateWithoutGradient | src/components/history/HistoryView.tsx:37-46 | loading a history style is applying a template except that the gradient settings are never taken |
| HistoryView.Bucket | src/components/history/HistoryView.tsx:81-90 | the relative-time bucket of a time difference, by floor division into minutes, hours and days; stated by BucketRanges |
| HistoryView.FormatTime | src/components/history/HistoryView.tsx:78-91 | definition of `formatTime` from its bucket; stated by BucketRanges and FormatTimeCount |
| HistoryView.BucketRanges | src/components/history/HistoryView.tsx:78-91 | under a minute is "just now", then 1–59 minutes, 1–23 hours and 1–6 days; older or unreadable dates show the date |
| HistoryView.FormatTimeCount | src/components/history/HistoryView.tsx:87-89 | a relative time is its count in decimal and then the unit |
| HistoryView.Screen.constructor | src/components/history/HistoryView.tsx:9-10 | an empty search, nothing selected |
| HistoryView.Screen.Search | src/components/history/HistoryView.tsx:16-22 | the term is kept and the first page fetched for it, an empty term as no search |
| HistoryView.Screen.LoadMore | src/components/history/HistoryView.tsx:24-26 | the next page is fetched from the end of the list and appended |
| HistoryView.Screen.SelectItem | src/components/history/HistoryView.tsx:28-30 | the item is selected |
| HistoryView.Screen.LoadItem | src/components/history/HistoryView.tsx:32-53 | the store gets the item's content and its style applied |
| HistoryView.Screen.Delete | src/components/history/HistoryView.tsx:55-66 | the hook's delete; the selection clears only when the selected item was deleted |
| HistoryView.Screen.ClearAll | src/components/history/HistoryView.tsx:68-76 | only a confirmed clear acts; a successful one empties the list and the selection |

## Left out

- The CSV tokenizer (the `csv` crate) is a parameter. Its output is given as header fields and records, each either fields or an error.
- Base64 decoding, image loading and QR grid detection (`base64`, `image`, `rqrr`) are parameters of a `Decoder`.
- The file system, the ZIP writer and the save dialog are parameters. Each ZIP operation's failure is a function of the entries already written.
- `pick_csv_file` (src-tauri/src/commands/batch.rs:313-326) and the hook's `pickCsvFile` (src/hooks/useBatch.ts:90-98) only forward a native dialog's answer. They are not modelled.
- The debug text of a grid decode error (`{:?}`) is a string the decoder supplies.
- Case folding, trimming and `\s` are ASCII-only. Rust and JavaScript also fold and trim non-ASCII characters.
- Strings are sequences of characters. The mockup's hash reads UTF-16 code units, given as numbers.
- `encodeURIComponent` is a parameter. The email round trip assumes only that its output contains no `&`.
- A JSON style text is represented by what `JSON.parse` makes of it. Gradient and logo objects are opaque.
- The shared store (src/stores/qrStore) is not part of this model beyond the content and style fields these screens read and write.
- Toasts, `console.error`, `window.confirm` and the rendering of every screen are left out. The user's confirmation is a parameter.
- QR rendering (`QRCodeStyling`, the canvas, `FileReader`) is given as each render's outcome.
- The mockup's canvas drawing and colour interpolation are left out. Only the matrix and logo placement are modelled.
- The current time and `toLocaleDateString` are parameters of `formatTime`.
- BatchView.Screen.PreviewSettle: the preview effect writes into the row list it captured when it started. A list changed meanwhile is therefore overwritten in the source. The model applies the outcome to the current list and does not capture that lost update.
- BatchView.Percent: the progress value is a real number. The model does not capture JavaScript floating-point rounding.
- BatchView.Screen.GenerateAll: the steps inside one pass (the per-row `generating` mark, the intermediate validation set) are not observable afterwards. Only the settled state is stated.
- BatchBackend.GenerateZip: the save dialog is assumed to answer with a file-system path, given as a string. In the source, `path.as_path().unwrap()` (src-tauri/src/commands/batch.rs:249) panics on a chosen path that is not a file-system path; that panic is not modelled. The returned `zip_path` is `to_string_lossy()` of the path (src-tauri/src/commands/batch.rs:307); the model takes the path as already converted and free of loss.
- BatchView.Screen.RenderAll: every render is assumed to settle, since a render's outcome is produced, absent or a crash. In the source, `qr.getRawData(...).then(...)` (src/components/batch/BatchView.tsx:190-201) has no rejection handler. A rejected `getRawData` never calls `resolve`, so the awaiting loop (src/components/batch/BatchView.tsx:264-300) never finishes and `isProcessing` stays true. That hang is not modelled, in this method nor in BatchView.Screen.GenerateAll and BatchView.Screen.PreviewSettle.
- `handleExportZip` (src/components/batch/BatchView.tsx:345-353) is not modelled. It passes the export format where the hook expects the `validate` flag (src/hooks/useBatch.ts:124-127), so what the back end receives depends on the bridge's argument decoding, which is outside the model. Its toast messages are left out too.
- `handleClear` (src/components/batch/BatchView.tsx:368-371) is not modelled: it is BatchHook.Batch.ClearBatch followed by resetting the progress to 0.
- BatchBackend.WriteEntries: the per-item work runs in a first pass over all items (PrepareItems) and the archive writes in a second (WriteArchive). The per-item work is validation, base64 decoding and naming. It has no effects, so the result and the archive equal those of the source's single loop.
- The mockup's hash relies on JavaScript doubles being exact for `seed * (x + 1) * (y + 1)`. That holds while the product stays below 2^53, which covers the 33-cell preview but not every size.

## Findings

| source | as written | input that shows it | evidently intended | confidence | as-written member | corrected member |
|---|---|---|---|---|---|---|
| qr-forge-mockup.jsx:410-433 | the reset effect sets the verdict back to idle when a setting changes, but the `setTimeout` check already scheduled is not cancelled and later shows the verdict for the settings it captured | validate with content "ab", clear the content before 1200 ms pass; the timer fires and shows pass, while empty content's verdict is fail | a shown verdict is always the verdict of the current settings | not executed | Mockup.StaleVerdict | Mockup.Generator.EditCancelling |
