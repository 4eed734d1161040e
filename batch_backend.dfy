/** The batch commands of src-tauri/src/commands/batch.rs: reading a tokenised
    CSV table into batch items, validating generated images one by one, and
    writing them into a ZIP archive under sanitised names. The CSV tokenizer,
    the decoders, the save dialog and the ZIP writer are parameters. */
module BatchBackend {
  import opened Wrappers
  import opened Text
  import opened ContentType
  import opened Decoding
  import ScanValidate

  // ---------------------------------------------------------------------
  // CSV parsing
  // ---------------------------------------------------------------------

  datatype BatchItem = BatchItem(row: nat, content: string, qrType: string, labelText: Option<string>)

  datatype BatchParseResult = BatchParseResult(success: bool, items: seq<BatchItem>, error: Option<string>, totalRows: nat)

  /** One record from the tokenizer: its fields, or the tokenizer's error. */
  datatype CsvRecord = Record(fields: seq<string>) | Malformed(error: string)

  /** What the tokenizer yields: an error reading the header row, or the
      header fields and the records after them. */
  datatype CsvSource = HeaderError(error: string) | Table(headers: seq<string>, records: seq<CsvRecord>)

  /** The positions of the content column and of the optional type and label
      columns. */
  datatype Columns = Columns(content: nat, typeCol: Option<nat>, labelCol: Option<nat>)

  /** The first header that lower-cases to `name`. */
  function FindColumn(headers: seq<string>, name: string): (r: Option<nat>)
    ensures r.Some? ==> r.value < |headers| && Lower(headers[r.value]) == name
    ensures r.Some? ==> forall j :: 0 <= j < r.value ==> Lower(headers[j]) != name
    ensures r.None? <==> forall j :: 0 <= j < |headers| ==> Lower(headers[j]) != name
  {
    if headers == [] then None
    else if Lower(headers[0]) == name then Some(0)
    else match FindColumn(headers[1..], name)
      case None => None
      case Some(i) => Some(i + 1)
  }

  /** `record.get(i)` for an optional column: absent when there is no such
      column or the record is too short. */
  function Field(fields: seq<string>, col: Option<nat>): Option<string> {
    if col.Some? && col.value < |fields| then Some(fields[col.value]) else None
  }

  /** The trimmed content cell of a record (empty when the record is short). */
  function ContentCell(fields: seq<string>, cols: Columns): string {
    Trim(if cols.content < |fields| then fields[cols.content] else "")
  }

  /** The item's type: the trimmed, lower-cased type cell when the record
      has one, otherwise the detected kind's tag. */
  function TypeOf(fields: seq<string>, cols: Columns, content: string): (r: string)
    ensures Field(fields, cols.typeCol).Some? ==> r == Lower(Trim(Field(fields, cols.typeCol).value))
    ensures Field(fields, cols.typeCol).None? ==> r == DetectQrType(content).Tag()
  {
    match Field(fields, cols.typeCol)
    case Some(t) => Lower(Trim(t))
    case None => DetectQrType(content).Tag()
  }

  /** The item's label: the trimmed label cell, absent when it is empty or
      the record has none. */
  function LabelOf(fields: seq<string>, cols: Columns): (r: Option<string>)
    ensures r.Some? <==> Field(fields, cols.labelCol).Some? && Trim(Field(fields, cols.labelCol).value) != ""
    ensures r.Some? ==> r.value == Trim(Field(fields, cols.labelCol).value) && r.value != ""
  {
    match Field(fields, cols.labelCol)
    case Some(l) => if Trim(l) == "" then None else Some(Trim(l))
    case None => None
  }

  /** The item a well-formed record at `index` yields, or nothing when its
      trimmed content is empty. */
  function ItemOf(fields: seq<string>, index: nat, cols: Columns): (r: Option<BatchItem>)
    ensures r.Some? <==> ContentCell(fields, cols) != ""
    ensures r.Some? ==> r.value.row == index + 1 && r.value.content == ContentCell(fields, cols)
  {
    var content := ContentCell(fields, cols);
    if content == "" then None
    else Some(BatchItem(index + 1, content, TypeOf(fields, cols, content), LabelOf(fields, cols)))
  }

  /** Without a type cell the type is the tag of the detected kind, so it is
      always one of the nine tags. */
  lemma DetectedType(fields: seq<string>, index: nat, cols: Columns)
    requires ContentCell(fields, cols) != "" && Field(fields, cols.typeCol).None?
    ensures ParseTag(ItemOf(fields, index, cols).value.qrType) == Some(DetectQrType(ContentCell(fields, cols)))
  {
    TagRoundTrip(DetectQrType(ContentCell(fields, cols)));
  }

  function Items(o: Option<BatchItem>): seq<BatchItem> {
    if o.Some? then [o.value] else []
  }

  /** The items of the well-formed records among the first `n`. */
  function ItemsUpTo(records: seq<CsvRecord>, n: nat, cols: Columns): seq<BatchItem>
    requires n <= |records|
  {
    if n == 0 then []
    else ItemsUpTo(records, n - 1, cols) + RecordItems(records[n - 1], n - 1, cols)
  }

  function RecordItems(record: CsvRecord, index: nat, cols: Columns): seq<BatchItem> {
    if record.Record? then Items(ItemOf(record.fields, index, cols)) else []
  }

  /** The index of the first malformed record at or after `from`. */
  function FirstMalformedFrom(records: seq<CsvRecord>, from: nat): (r: Option<nat>)
    requires from <= |records|
    ensures r.Some? ==> from <= r.value < |records| && records[r.value].Malformed?
    ensures r.Some? ==> forall j :: from <= j < r.value ==> records[j].Record?
    ensures r.None? <==> forall j :: from <= j < |records| ==> records[j].Record?
    decreases |records| - from
  {
    if from == |records| then None
    else if records[from].Malformed? then Some(from)
    else FirstMalformedFrom(records, from + 1)
  }

  /** The index of the first malformed record. */
  function FirstMalformed(records: seq<CsvRecord>): (r: Option<nat>)
    ensures r.Some? ==> r.value < |records| && records[r.value].Malformed?
    ensures r.Some? ==> forall j :: 0 <= j < r.value ==> records[j].Record?
    ensures r.None? <==> forall j :: 0 <= j < |records| ==> records[j].Record?
  {
    FirstMalformedFrom(records, 0)
  }

  lemma FirstMalformedIs(records: seq<CsvRecord>, k: nat)
    requires k < |records| && records[k].Malformed?
    requires forall j :: 0 <= j < k ==> records[j].Record?
    ensures FirstMalformed(records) == Some(k)
  {
  }

  function ColumnsOf(headers: seq<string>, content: nat): Columns {
    Columns(content, FindColumn(headers, "type"), FindColumn(headers, "label"))
  }

  /** The message reporting a malformed record; the row it names counts the
      header row and is 1-based. */
  function RowError(index: nat, error: string): string {
    "Error at row " + Decimal(index + 2) + ": " + error
  }

  /** The state of the record loop: still collecting items, or stopped at a
      malformed record with the result to return. */
  datatype ParseState = Collecting(items: seq<BatchItem>) | Stopped(result: BatchParseResult)

  /** One record of the loop. */
  function ParseStep(s: ParseState, record: CsvRecord, index: nat, cols: Columns): ParseState {
    match s
    case Stopped(_) => s
    case Collecting(items) =>
      match record
      case Malformed(e) => Stopped(BatchParseResult(false, [], Some(RowError(index, e)), 0))
      case Record(fields) => Collecting(items + Items(ItemOf(fields, index, cols)))
  }

  /** The loop's state after the first `n` records. */
  function ParseUpTo(records: seq<CsvRecord>, n: nat, cols: Columns): ParseState
    requires n <= |records|
  {
    if n == 0 then Collecting([]) else ParseStep(ParseUpTo(records, n - 1, cols), records[n - 1], n - 1, cols)
  }

  /** `parse_csv_content` after tokenising, as a function. */
  function ParseCsv(src: CsvSource): Result<BatchParseResult, string> {
    match src
    case HeaderError(e) => Failure("Failed to read CSV headers: " + e)
    case Table(headers, records) =>
      match FindColumn(headers, "content")
      case None => Failure("CSV must have a 'content' column")
      case Some(ci) =>
        match ParseUpTo(records, |records|, ColumnsOf(headers, ci))
        case Stopped(result) => Success(result)
        case Collecting(items) => Success(BatchParseResult(true, items, None, |items|))
  }

  /** `parse_csv_content`: the header checks, then one pass over the
      records. */
  method ParseCsvContent(src: CsvSource) returns (r: Result<BatchParseResult, string>)
    ensures r == ParseCsv(src)
  {
    if src.HeaderError? {
      return Failure("Failed to read CSV headers: " + src.error);
    }
    var ci := FindColumn(src.headers, "content");
    if ci.None? {
      return Failure("CSV must have a 'content' column");
    }
    var s := ParseRecords(src.records, ColumnsOf(src.headers, ci.value));
    if s.Stopped? {
      return Success(s.result);
    }
    return Success(BatchParseResult(true, s.items, None, |s.items|));
  }

  /** The record loop of `parse_csv_content`: each record with content is
      pushed as an item, and the first malformed record stops the parse. */
  method ParseRecords(records: seq<CsvRecord>, cols: Columns) returns (s: ParseState)
    ensures s == ParseUpTo(records, |records|, cols)
  {
    var items: seq<BatchItem> := [];
    var k := 0;
    while k < |records|
      invariant 0 <= k <= |records|
      invariant ParseUpTo(records, k, cols) == Collecting(items)
    {
      match records[k] {
        case Malformed(e) =>
          StoppedStays(records, k + 1, |records|, cols);
          return Stopped(BatchParseResult(false, [], Some(RowError(k, e)), 0));
        case Record(fields) =>
          var item := ItemOf(fields, k, cols);
          if item.Some? {
            items := items + [item.value];
          }
      }
      k := k + 1;
    }
    s := Collecting(items);
  }

  lemma {:induction false} StoppedStays(records: seq<CsvRecord>, k: nat, n: nat, cols: Columns)
    requires k <= n <= |records|
    requires ParseUpTo(records, k, cols).Stopped?
    ensures ParseUpTo(records, n, cols) == ParseUpTo(records, k, cols)
    decreases n
  {
    if n > k {
      StoppedStays(records, k, n - 1, cols);
    }
  }

  /** The loop reads as its reference: it goes on collecting exactly while
      the records are well formed, the items collected are those of
      `ItemsUpTo`, and it stops at the first malformed record. */
  lemma {:induction false} ParseUpToReference(records: seq<CsvRecord>, n: nat, cols: Columns)
    requires n <= |records|
    ensures ParseUpTo(records, n, cols).Collecting? <==> FirstMalformed(records[..n]).None?
    ensures ParseUpTo(records, n, cols).Collecting? ==> ParseUpTo(records, n, cols).items == ItemsUpTo(records, n, cols)
    ensures ParseUpTo(records, n, cols).Stopped? ==>
      var k := FirstMalformed(records[..n]).value;
      ParseUpTo(records, n, cols).result == BatchParseResult(false, [], Some(RowError(k, records[k].error)), 0)
  {
    if n > 0 {
      ParseUpToReference(records, n - 1, cols);
      var before := records[..n - 1];
      assert records[..n] == before + [records[n - 1]];
      FirstMalformedAppend(before, records[n - 1]);
    }
  }

  lemma FirstMalformedAppend(records: seq<CsvRecord>, last: CsvRecord)
    ensures FirstMalformed(records).Some? ==> FirstMalformed(records + [last]) == FirstMalformed(records)
    ensures FirstMalformed(records).None? ==>
      FirstMalformed(records + [last]) == if last.Malformed? then Some(|records|) else None
  {
    var all := records + [last];
    assert forall j :: 0 <= j < |records| ==> all[j] == records[j];
    if FirstMalformed(records).Some? {
      FirstMalformedIs(all, FirstMalformed(records).value);
    } else if last.Malformed? {
      FirstMalformedIs(all, |records|);
    } else {
      assert forall j :: 0 <= j < |all| ==> all[j].Record?;
    }
  }

  /** `batch_parse_csv`: `file` is what reading and tokenising the file gave. */
  function BatchParseCsv(file: Result<CsvSource, string>): (r: Result<BatchParseResult, string>)
    ensures file.Failure? ==> r == Failure("Failed to read file: " + file.error)
    ensures file.Success? ==> r == ParseCsv(file.value)
  {
    match file
    case Failure(e) => Failure("Failed to read file: " + e)
    case Success(src) => ParseCsv(src)
  }

  /** The content column is required: the parse is refused exactly when no
      header lower-cases to "content". */
  lemma MissingContentColumn(headers: seq<string>, records: seq<CsvRecord>)
    ensures ParseCsv(Table(headers, records)) == Failure("CSV must have a 'content' column") <==>
      forall j :: 0 <= j < |headers| ==> Lower(headers[j]) != "content"
  {
  }

  /** `item` is what the well-formed record its row names yields. */
  predicate FromRecord(records: seq<CsvRecord>, item: BatchItem, cols: Columns) {
    1 <= item.row <= |records| && records[item.row - 1].Record? &&
    ItemOf(records[item.row - 1].fields, item.row - 1, cols) == Some(item)
  }

  /** The record at `k` is well formed and has non-empty content. */
  predicate Emits(records: seq<CsvRecord>, k: nat, cols: Columns)
    requires k < |records|
  {
    records[k].Record? && ContentCell(records[k].fields, cols) != ""
  }

  /** Each emitted item comes from the well-formed record its row names,
      among the first `n`. */
  lemma {:induction false} ItemsFromRecords(records: seq<CsvRecord>, n: nat, cols: Columns)
    requires n <= |records|
    ensures forall i :: 0 <= i < |ItemsUpTo(records, n, cols)| ==>
      ItemsUpTo(records, n, cols)[i].row <= n && FromRecord(records, ItemsUpTo(records, n, cols)[i], cols)
  {
    if n > 0 {
      ItemsFromRecords(records, n - 1, cols);
      var prev := ItemsUpTo(records, n - 1, cols);
      var items := ItemsUpTo(records, n, cols);
      assert items == prev + RecordItems(records[n - 1], n - 1, cols);
      forall i | 0 <= i < |items| ensures items[i].row <= n && FromRecord(records, items[i], cols) {
        if i < |prev| {
          assert items[i] == prev[i];
        } else {
          LastRecordItem(records, n, cols);
          assert items[i] == ItemOf(records[n - 1].fields, n - 1, cols).value;
        }
      }
    }
  }

  lemma LastRecordItem(records: seq<CsvRecord>, n: nat, cols: Columns)
    requires 0 < n <= |records|
    requires RecordItems(records[n - 1], n - 1, cols) != []
    ensures records[n - 1].Record? && ItemOf(records[n - 1].fields, n - 1, cols).Some?
    ensures RecordItems(records[n - 1], n - 1, cols) == [ItemOf(records[n - 1].fields, n - 1, cols).value]
    ensures ItemOf(records[n - 1].fields, n - 1, cols).value.row == n
  {
  }

  /** Some item carries row `row`. */
  predicate HasRow(items: seq<BatchItem>, row: nat) {
    exists i :: 0 <= i < |items| && items[i].row == row
  }

  lemma HasRowAppend(a: seq<BatchItem>, b: seq<BatchItem>, row: nat)
    requires HasRow(a, row) || HasRow(b, row)
    ensures HasRow(a + b, row)
  {
    if HasRow(a, row) {
      var i :| 0 <= i < |a| && a[i].row == row;
      assert (a + b)[i] == a[i];
    } else {
      var i :| 0 <= i < |b| && b[i].row == row;
      assert (a + b)[|a| + i] == b[i];
    }
  }

  /** Every well-formed record with non-empty content among the first `n`
      emits an item carrying its row. */
  lemma {:induction false} ItemsComplete(records: seq<CsvRecord>, n: nat, cols: Columns)
    requires n <= |records|
    ensures forall k :: 0 <= k < n && Emits(records, k, cols) ==> HasRow(ItemsUpTo(records, n, cols), k + 1)
  {
    if n > 0 {
      ItemsComplete(records, n - 1, cols);
      var prev := ItemsUpTo(records, n - 1, cols);
      var last := RecordItems(records[n - 1], n - 1, cols);
      assert ItemsUpTo(records, n, cols) == prev + last;
      forall k | 0 <= k < n && Emits(records, k, cols)
        ensures HasRow(prev + last, k + 1)
      {
        if k == n - 1 {
          assert last[0].row == k + 1;
        }
        HasRowAppend(prev, last, k + 1);
      }
    }
  }

  /** Emitted rows are 1-based and strictly increasing (with gaps where
      records were skipped). */
  lemma {:induction false} RowsIncrease(records: seq<CsvRecord>, n: nat, cols: Columns)
    requires n <= |records|
    ensures forall i, j :: 0 <= i < j < |ItemsUpTo(records, n, cols)| ==>
      1 <= ItemsUpTo(records, n, cols)[i].row < ItemsUpTo(records, n, cols)[j].row <= n
  {
    if n > 0 {
      RowsIncrease(records, n - 1, cols);
      ItemsFromRecords(records, n - 1, cols);
      var prev := ItemsUpTo(records, n - 1, cols);
      var items := ItemsUpTo(records, n, cols);
      assert items == prev + RecordItems(records[n - 1], n - 1, cols);
      var last := RecordItems(records[n - 1], n - 1, cols);
      forall i, j | 0 <= i < j < |items| ensures 1 <= items[i].row < items[j].row <= n {
        if j < |prev| {
          assert items[i] == prev[i] && items[j] == prev[j];
        } else {
          assert i < |prev| && items[i] == prev[i];
          assert prev[i].row <= n - 1 && FromRecord(records, prev[i], cols);
          LastRecordItem(records, n, cols);
          assert items[j] == last[j - |prev|] == last[0];
        }
      }
    } else {
      assert ItemsUpTo(records, n, cols) == [];
    }
  }

  /** The outcome of a parse of a table with a content column: it succeeds
      exactly when every record is well formed, with `totalRows` counting the
      items; otherwise no items are kept and the error names the first
      malformed record. */
  lemma ParseOutcome(headers: seq<string>, records: seq<CsvRecord>)
    requires FindColumn(headers, "content").Some?
    ensures var r := ParseCsv(Table(headers, records));
      r.Success? &&
      (r.value.success <==> forall j :: 0 <= j < |records| ==> records[j].Record?)
    ensures var r := ParseCsv(Table(headers, records));
      r.value.success ==>
        r.value.items == ItemsUpTo(records, |records|, ColumnsOf(headers, FindColumn(headers, "content").value)) &&
        r.value.totalRows == |r.value.items| && r.value.error.None?
    ensures var r := ParseCsv(Table(headers, records));
      !r.value.success ==>
        (r.value.items == [] && r.value.totalRows == 0 &&
         r.value.error == Some(RowError(FirstMalformed(records).value, records[FirstMalformed(records).value].error)))
  {
    ParseUpToReference(records, |records|, ColumnsOf(headers, FindColumn(headers, "content").value));
    assert records[..|records|] == records;
  }

  /** The row a malformed-record error names reads back as the record's
      position counted from the header row. */
  lemma RowErrorNamesRow(index: nat, error: string)
    ensures var m := RowError(index, error);
      var digits := m[|"Error at row "|..|"Error at row "| + |Decimal(index + 2)|];
      IsDigits(digits) && DigitsValue(digits) == index + 2
  {
    var m := RowError(index, error);
    var p := "Error at row ";
    assert m == p + Decimal(index + 2) + (": " + error);
    assert m[|p|..|p| + |Decimal(index + 2)|] == Decimal(index + 2);
    DecimalRoundTrip(index + 2);
  }

  /** A type column cell that is empty or white space gives the empty type. */
  lemma BlankTypeCell(fields: seq<string>, index: nat, cols: Columns)
    requires ContentCell(fields, cols) != ""
    requires Field(fields, cols.typeCol).Some? && Trim(Field(fields, cols.typeCol).value) == ""
    ensures ItemOf(fields, index, cols).value.qrType == ""
  {
  }

  // ---------------------------------------------------------------------
  // Validation of generated images
  // ---------------------------------------------------------------------

  datatype BatchGenerateItem = BatchGenerateItem(row: nat, content: string, labelText: Option<string>, imageData: string)

  datatype BatchValidationResult = BatchValidationResult(
    row: nat, success: bool, decodedContent: Option<string>, contentMatch: bool, error: Option<string>)

  /** The text of the first grid, when base64 decoding, image loading and
      grid decoding all succeed. */
  function DecodedText(d: Decoder, imageData: string): Option<string> {
    var b := d.base64(StripDataUrl(imageData));
    if b.Success? && d.image(b.value).Loaded? && d.image(b.value).grid.GridDecoded? then
      Some(d.image(b.value).grid.text)
    else None
  }

  /** The result for an item whose base64 payload decoded, given what
      loading the image gave. */
  function ItemVerdict(row: nat, content: string, load: ImageLoad): (r: BatchValidationResult)
    ensures r.row == row
    ensures r.success == r.contentMatch
    ensures r.success <==> load.Loaded? && load.grid.GridDecoded? && ScanValidate.SameContent(load.grid.text, content)
    ensures r.error.None? <==> r.success
    ensures r.decodedContent == if load.Loaded? && load.grid.GridDecoded? then Some(load.grid.text) else None
  {
    match load
    case FormatUnknown(e) => BatchValidationResult(row, false, None, false, Some("Failed to decode image: " + e))
    case DecodeFailed(e) => BatchValidationResult(row, false, None, false, Some("Failed to decode image: " + e))
    case Loaded(g) =>
      match g
      case NoGrid => BatchValidationResult(row, false, None, false, Some("No QR code detected"))
      case GridUndecodable(e) => BatchValidationResult(row, false, None, false, Some("Decode error: " + e))
      case GridDecoded(text) =>
        var m := ScanValidate.SameContent(text, content);
        BatchValidationResult(row, m, Some(text), m, if m then None else Some("Content mismatch"))
  }

  /** `validate_single_item`. */
  function ValidateSingleItem(d: Decoder, item: BatchGenerateItem): (r: BatchValidationResult)
    ensures r.row == item.row
    ensures r.success == r.contentMatch
    ensures r.success <==>
      DecodedText(d, item.imageData).Some? && ScanValidate.SameContent(DecodedText(d, item.imageData).value, item.content)
    ensures r.error.None? <==> r.success
    ensures r.decodedContent == DecodedText(d, item.imageData)
  {
    match d.base64(StripDataUrl(item.imageData))
    case Failure(e) =>
      BatchValidationResult(item.row, false, None, false, Some("Failed to decode base64: " + e))
    case Success(bytes) => ItemVerdict(item.row, item.content, d.image(bytes))
  }

  /** The batch check and the single-image check agree: an item succeeds
      exactly when `validate_qr` on its image and content gives a pass. */
  lemma AgreesWithValidateQr(d: Decoder, item: BatchGenerateItem)
    ensures ValidateSingleItem(d, item).success <==>
      ScanValidate.ValidateQr(d, item.imageData, item.content).Success? &&
      ScanValidate.ValidateQr(d, item.imageData, item.content).value.state == ScanValidate.Pass
  {
  }

  /** `batch_validate`: one result per item, in order. */
  method BatchValidate(d: Decoder, items: seq<BatchGenerateItem>) returns (results: seq<BatchValidationResult>)
    ensures |results| == |items|
    ensures forall i :: 0 <= i < |items| ==> results[i] == ValidateSingleItem(d, items[i])
    ensures forall i :: 0 <= i < |items| ==> results[i].row == items[i].row
  {
    results := [];
    var i := 0;
    while i < |items|
      invariant 0 <= i <= |items|
      invariant |results| == i
      invariant forall j :: 0 <= j < i ==> results[j] == ValidateSingleItem(d, items[j])
    {
      results := results + [ValidateSingleItem(d, items[i])];
      i := i + 1;
    }
  }

  // ---------------------------------------------------------------------
  // File names
  // ---------------------------------------------------------------------

  /** The characters a sanitised name keeps. */
  predicate FileSafe(c: char) {
    ('a' <= c <= 'z') || ('A' <= c <= 'Z') || ('0' <= c <= '9') || c == '-' || c == '_' || c == '.'
  }

  /** The path and shell characters that are replaced explicitly. */
  predicate Reserved(c: char) {
    c == '/' || c == '\\' || c == ':' || c == '*' || c == '?' || c == '"' || c == '<' || c == '>' || c == '|'
  }

  function SafeChar(c: char): (d: char)
    ensures FileSafe(d)
    ensures FileSafe(c) ==> d == c
    ensures !FileSafe(c) ==> d == '_'
  {
    if Reserved(c) then '_'
    else if FileSafe(c) then c
    else '_'
  }

  function MapSafe(s: string): (r: string)
    ensures |r| == |s|
    ensures forall i :: 0 <= i < |s| ==> r[i] == SafeChar(s[i])
  {
    if s == [] then [] else [SafeChar(s[0])] + MapSafe(s[1..])
  }

  const MaxNameLength: nat := 50

  /** `sanitize_filename`: every character mapped to a safe one, then the
      first fifty kept. */
  function SanitizeFilename(s: string): (r: string)
    ensures |r| == if |s| < MaxNameLength then |s| else MaxNameLength
    ensures forall i :: 0 <= i < |r| ==> r[i] == SafeChar(s[i])
    ensures forall i :: 0 <= i < |r| ==> FileSafe(r[i])
  {
    var m := MapSafe(s);
    if |m| < MaxNameLength then m else m[..MaxNameLength]
  }

  /** A name that is already short and safe is left as it is; in particular
      sanitising twice changes nothing. */
  lemma SanitizeKeepsSafe(s: string)
    requires |s| <= MaxNameLength
    requires forall i :: 0 <= i < |s| ==> FileSafe(s[i])
    ensures SanitizeFilename(s) == s
  {
  }

  lemma SanitizeIdempotent(s: string)
    ensures SanitizeFilename(SanitizeFilename(s)) == SanitizeFilename(s)
  {
    SanitizeKeepsSafe(SanitizeFilename(s));
  }

  /** The name part of a ZIP entry: the sanitised label, or "qr". */
  function Stem(labelText: Option<string>): string {
    if labelText.Some? then SanitizeFilename(labelText.value) else "qr"
  }

  /** `{:03}_{stem}.png`. */
  function ZipEntryName(row: nat, labelText: Option<string>): string {
    ZeroPad(Decimal(row), 3) + "_" + Stem(labelText) + ".png"
  }

  /** An entry name reads back: the digits before the first '_' give the row
      (padded to at least three), what lies between that and ".png" is the
      stem, and the name always ends in ".png". */
  lemma ZipEntryNameParses(row: nat, labelText: Option<string>)
    ensures var name := ZipEntryName(row, labelText);
      var i := IndexOf(name, '_');
      i >= 3 && IsDigits(name[..i]) && DigitsValue(name[..i]) == row &&
      name[i + 1..|name| - 4] == Stem(labelText) && name[|name| - 4..] == ".png"
  {
    ZeroPadSpec(Decimal(row), 3);
    ZeroPadValue(Decimal(row), 3);
    DecimalRoundTrip(row);
    NameFields(ZeroPad(Decimal(row), 3), Stem(labelText));
  }

  /** The fields of `digits + "_" + stem + ".png"` when `digits` holds no
      underscore. */
  lemma NameFields(digits: string, stem: string)
    requires IsDigits(digits)
    ensures var name := digits + "_" + stem + ".png";
      var i := IndexOf(name, '_');
      i == |digits| && name[..i] == digits && name[i + 1..|name| - 4] == stem && name[|name| - 4..] == ".png"
  {
    var name := digits + "_" + stem + ".png";
    var tail := stem + ".png";
    assert '_' !in digits by {
      forall k | 0 <= k < |digits| ensures digits[k] != '_' {
        assert IsDigit(digits[k]);
      }
    }
    assert name == digits + "_" + tail;
    IndexOfAfter(digits, '_', tail);
    assert name[..|digits|] == digits;
    assert name[|digits| + 1..] == tail;
  }

  /** Two entries with the same name belong to the same row. */
  lemma ZipEntryNameInjective(row1: nat, labelText1: Option<string>, row2: nat, labelText2: Option<string>)
    requires ZipEntryName(row1, labelText1) == ZipEntryName(row2, labelText2)
    ensures row1 == row2 && Stem(labelText1) == Stem(labelText2)
  {
    ZipEntryNameParses(row1, labelText1);
    ZipEntryNameParses(row2, labelText2);
  }

  // ---------------------------------------------------------------------
  // ZIP export
  // ---------------------------------------------------------------------

  datatype ZipEntry = ZipEntry(name: string, data: Bytes)

  /** The file system and the ZIP writer: each operation's error, if any,
      given the entries already written. */
  datatype ZipLib = ZipLib(
    create: string -> Option<string>,
    start: (seq<ZipEntry>, string) -> Option<string>,
    write: (seq<ZipEntry>, string, Bytes) -> Option<string>,
    finish: seq<ZipEntry> -> Option<string>)

  datatype BatchGenerateResult = BatchGenerateResult(
    success: bool, zipPath: Option<string>, validationResults: seq<BatchValidationResult>, error: Option<string>)

  /** Why the export loop stopped: an image that is not base64, or the ZIP
      writer refusing to start an entry or to write its bytes. */
  datatype ZipError = ImageUndecodable(row: nat, cause: string) | StartFailed(cause: string) | WriteFailed(cause: string)
  {
    /** The error text the command reports. */
    function Message(): string {
      match this
      case ImageUndecodable(row, cause) => "Failed to decode image for row " + Decimal(row) + ": " + cause
      case StartFailed(cause) => "Failed to add file to ZIP: " + cause
      case WriteFailed(cause) => "Failed to write to ZIP: " + cause
    }
  }

  /** What the export loop works out for one item before touching the
      archive: its validation result, its decoded image and its entry name. */
  datatype Prepared = Prepared(row: nat, check: BatchValidationResult, bytes: Result<Bytes, string>, name: string)

  function Prepare(d: Decoder, item: BatchGenerateItem): Prepared {
    Prepared(item.row, ValidateSingleItem(d, item), d.base64(StripDataUrl(item.imageData)),
             ZipEntryName(item.row, item.labelText))
  }

  function PrepareAll(d: Decoder, items: seq<BatchGenerateItem>): (ps: seq<Prepared>)
    ensures |ps| == |items|
    ensures forall i :: 0 <= i < |items| ==> ps[i] == Prepare(d, items[i])
  {
    seq(|items|, i requires 0 <= i < |items| => Prepare(d, items[i]))
  }

  /** The export loop's state: still writing, with the validation results
      and entries so far, or stopped by an error. */
  datatype ZipState = Writing(results: seq<BatchValidationResult>, entries: seq<ZipEntry>) | Aborted(error: ZipError)

  /** Writing one item's image under its entry name, after its validation
      result (if any) was collected into `results`. */
  function WriteItem(lib: ZipLib, p: Prepared, results: seq<BatchValidationResult>, entries: seq<ZipEntry>): ZipState {
    if p.bytes.Failure? then Aborted(ImageUndecodable(p.row, p.bytes.error))
    else if lib.start(entries, p.name).Some? then Aborted(StartFailed(lib.start(entries, p.name).value))
    else if lib.write(entries, p.name, p.bytes.value).Some? then Aborted(WriteFailed(lib.write(entries, p.name, p.bytes.value).value))
    else Writing(results, entries + [ZipEntry(p.name, p.bytes.value)])
  }

  /** One item of the export loop. */
  function ZipStep(lib: ZipLib, validate: bool, s: ZipState, p: Prepared): ZipState {
    match s
    case Aborted(e) => Aborted(e)
    case Writing(results, entries) =>
      WriteItem(lib, p, if validate then results + [p.check] else results, entries)
  }

  /** The loop's state after the first `n` items. */
  function ZipUpTo(lib: ZipLib, validate: bool, ps: seq<Prepared>, n: nat): ZipState
    requires n <= |ps|
  {
    if n == 0 then Writing([], []) else ZipStep(lib, validate, ZipUpTo(lib, validate, ps, n - 1), ps[n - 1])
  }

  /** The loop's state once every item was handled. */
  function ZipAll(d: Decoder, lib: ZipLib, validate: bool, items: seq<BatchGenerateItem>): ZipState {
    var ps := PrepareAll(d, items);
    ZipUpTo(lib, validate, ps, |ps|)
  }

  /** `batch_generate_zip`, as a function; `dialog` is the path chosen in the
      save dialog, if any. */
  function GenerateZip(d: Decoder, lib: ZipLib, dialog: Option<string>, items: seq<BatchGenerateItem>, validate: bool): Result<BatchGenerateResult, string> {
    match dialog
    case None => Success(BatchGenerateResult(false, None, [], Some("Save cancelled by user")))
    case Some(path) =>
      if lib.create(path).Some? then Failure("Failed to create ZIP: " + lib.create(path).value)
      else match ZipAll(d, lib, validate, items)
        case Aborted(e) => Failure(e.Message())
        case Writing(results, entries) =>
          if lib.finish(entries).Some? then Failure("Failed to finalize ZIP: " + lib.finish(entries).value)
          else Success(BatchGenerateResult(true, Some(path), results, None))
  }

  /** The entries of the archive a completed export wrote. */
  function ArchiveOf(d: Decoder, lib: ZipLib, items: seq<BatchGenerateItem>, validate: bool): seq<ZipEntry> {
    var s := ZipAll(d, lib, validate, items);
    if s.Writing? then s.entries else []
  }

  /** Once stopped, the loop stays stopped with the same error. */
  lemma {:induction false} AbortedStays(lib: ZipLib, validate: bool, ps: seq<Prepared>, k: nat, n: nat)
    requires k <= n <= |ps|
    requires ZipUpTo(lib, validate, ps, k).Aborted?
    ensures ZipUpTo(lib, validate, ps, n) == ZipUpTo(lib, validate, ps, k)
    decreases n
  {
    if n > k {
      AbortedStays(lib, validate, ps, k, n - 1);
      assert ZipUpTo(lib, validate, ps, n) == ZipStep(lib, validate, ZipUpTo(lib, validate, ps, n - 1), ps[n - 1]);
    }
  }

  /** The per-item work of the export loop that does not touch the archive:
      the validation result, the base64 decoding of the image and the entry
      name. */
  method PrepareItem(d: Decoder, item: BatchGenerateItem) returns (p: Prepared)
    ensures p == Prepare(d, item)
  {
    var check := ValidateSingleItem(d, item);
    var bytes := d.base64(StripDataUrl(item.imageData));
    var name := ZipEntryName(item.row, item.labelText);
    p := Prepared(item.row, check, bytes, name);
  }

  /** The first pass of the export: every item prepared, in order. */
  method PrepareItems(d: Decoder, items: seq<BatchGenerateItem>) returns (ps: seq<Prepared>)
    ensures ps == PrepareAll(d, items)
  {
    ps := [];
    for k := 0 to |items|
      invariant ps == PrepareAll(d, items[..k])
    {
      var p := PrepareItem(d, items[k]);
      PrepareAllSnoc(d, items, k);
      ps := ps + [p];
    }
    assert items[..|items|] == items;
  }

  lemma PrepareAllSnoc(d: Decoder, items: seq<BatchGenerateItem>, k: nat)
    requires k < |items|
    ensures PrepareAll(d, items[..k + 1]) == PrepareAll(d, items[..k]) + [Prepare(d, items[k])]
  {
    var a, b := PrepareAll(d, items[..k + 1]), PrepareAll(d, items[..k]) + [Prepare(d, items[k])];
    assert |a| == |b|;
    forall i | 0 <= i < |a| ensures a[i] == b[i] {
      if i < k {
        assert items[..k + 1][i] == items[..k][i];
      }
    }
  }

  /** The archive side of one item: its validation result is collected when
      asked for, then its entry is started and its bytes written, and the
      first error stops the export. */
  method AddEntry(lib: ZipLib, validate: bool, s: ZipState, p: Prepared) returns (next: ZipState)
    requires s.Writing?
    ensures next == ZipStep(lib, validate, s, p)
  {
    var results := s.results;
    if validate {
      results := results + [p.check];
    }
    if p.bytes.Failure? {
      return Aborted(ImageUndecodable(p.row, p.bytes.error));
    }
    if lib.start(s.entries, p.name).Some? {
      return Aborted(StartFailed(lib.start(s.entries, p.name).value));
    }
    if lib.write(s.entries, p.name, p.bytes.value).Some? {
      return Aborted(WriteFailed(lib.write(s.entries, p.name, p.bytes.value).value));
    }
    next := Writing(results, s.entries + [ZipEntry(p.name, p.bytes.value)]);
  }

  /** `batch_generate_zip`: after the save dialog and the file creation, the
      loop writes one entry per item and stops at the first error; the
      archive is then finalised. */
  method BatchGenerateZip(d: Decoder, lib: ZipLib, dialog: Option<string>, items: seq<BatchGenerateItem>, validate: bool)
    returns (r: Result<BatchGenerateResult, string>, archive: seq<ZipEntry>)
    ensures r == GenerateZip(d, lib, dialog, items, validate)
    ensures r.Success? && r.value.success ==> archive == ArchiveOf(d, lib, items, validate)
  {
    archive := [];
    if dialog.None? {
      return Success(BatchGenerateResult(false, None, [], Some("Save cancelled by user"))), archive;
    }
    var path := dialog.value;
    if lib.create(path).Some? {
      return Failure("Failed to create ZIP: " + lib.create(path).value), archive;
    }
    var s := WriteEntries(d, lib, items, validate);
    if s.Aborted? {
      return Failure(s.error.Message()), archive;
    }
    archive := s.entries;
    if lib.finish(archive).Some? {
      return Failure("Failed to finalize ZIP: " + lib.finish(archive).value), archive;
    }
    return Success(BatchGenerateResult(true, Some(path), s.results, None)), archive;
  }

  /** The loop of `batch_generate_zip` over the items. */
  method WriteEntries(d: Decoder, lib: ZipLib, items: seq<BatchGenerateItem>, validate: bool) returns (s: ZipState)
    ensures s == ZipAll(d, lib, validate, items)
  {
    var ps := PrepareItems(d, items);
    s := WriteArchive(lib, validate, ps);
  }

  /** The archive pass: one entry per prepared item, stopping at the first
      error. */
  method WriteArchive(lib: ZipLib, validate: bool, ps: seq<Prepared>) returns (s: ZipState)
    ensures s == ZipUpTo(lib, validate, ps, |ps|)
  {
    s := Writing([], []);
    var k := 0;
    while k < |ps| && s.Writing?
      invariant 0 <= k <= |ps|
      invariant s == ZipUpTo(lib, validate, ps, k)
    {
      s := AddEntry(lib, validate, s, ps[k]);
      k := k + 1;
    }
    if k < |ps| {
      AbortedStays(lib, validate, ps, k, |ps|);
    }
  }

  /** While the loop is still writing, it has written one entry per item,
      named by the entry rule and holding the item's decoded image, and
      collected one validation result per item when asked to. */
  lemma {:induction false} WritingShape(lib: ZipLib, validate: bool, ps: seq<Prepared>, n: nat)
    requires n <= |ps|
    requires ZipUpTo(lib, validate, ps, n).Writing?
    ensures var s := ZipUpTo(lib, validate, ps, n);
      |s.entries| == n &&
      (forall i :: 0 <= i < n ==> s.entries[i].name == ps[i].name && ps[i].bytes == Success(s.entries[i].data)) &&
      |s.results| == (if validate then n else 0) &&
      (validate ==> forall i :: 0 <= i < n ==> s.results[i] == ps[i].check)
  {
    if n > 0 {
      var prev := ZipUpTo(lib, validate, ps, n - 1);
      assert prev.Writing?;
      WritingShape(lib, validate, ps, n - 1);
      var rs := if validate then prev.results + [ps[n - 1].check] else prev.results;
      var s := WriteItem(lib, ps[n - 1], rs, prev.entries);
      assert ZipUpTo(lib, validate, ps, n) == s;
      assert s.entries == prev.entries + [ZipEntry(ps[n - 1].name, ps[n - 1].bytes.value)];
      assert s.results == rs;
    }
  }

  /** A completed export holds one ".png" entry per item, in item order, and
      reports the validation results exactly when validation was requested. */
  lemma ExportContents(d: Decoder, lib: ZipLib, dialog: Option<string>, items: seq<BatchGenerateItem>, validate: bool)
    requires GenerateZip(d, lib, dialog, items, validate).Success?
    requires GenerateZip(d, lib, dialog, items, validate).value.success
    ensures var archive := ArchiveOf(d, lib, items, validate);
      |archive| == |items| &&
      forall i :: 0 <= i < |items| ==>
        archive[i].name == ZipEntryName(items[i].row, items[i].labelText) &&
        archive[i].name[|archive[i].name| - 4..] == ".png"
    ensures var results := GenerateZip(d, lib, dialog, items, validate).value.validationResults;
      |results| == (if validate then |items| else 0) &&
      (validate ==> forall i :: 0 <= i < |items| ==> results[i] == ValidateSingleItem(d, items[i]))
  {
    var s := ZipAll(d, lib, validate, items);
    CompletedExport(d, lib, dialog, items, validate);
    AllWritten(d, lib, validate, items);
    forall i | 0 <= i < |items| ensures s.entries[i].name[|s.entries[i].name| - 4..] == ".png" {
      PngSuffix(items[i].row, items[i].labelText);
    }
  }

  /** A completed export reports what the loop collected and keeps what it
      wrote. */
  lemma CompletedExport(d: Decoder, lib: ZipLib, dialog: Option<string>, items: seq<BatchGenerateItem>, validate: bool)
    requires GenerateZip(d, lib, dialog, items, validate).Success?
    requires GenerateZip(d, lib, dialog, items, validate).value.success
    ensures ZipAll(d, lib, validate, items).Writing?
    ensures ArchiveOf(d, lib, items, validate) == ZipAll(d, lib, validate, items).entries
    ensures GenerateZip(d, lib, dialog, items, validate).value.validationResults == ZipAll(d, lib, validate, items).results
  {
  }

  /** Every entry name ends in ".png". */
  lemma PngSuffix(row: nat, labelText: Option<string>)
    ensures var name := ZipEntryName(row, labelText);
      |name| >= 4 && name[|name| - 4..] == ".png"
  {
    var name := ZipEntryName(row, labelText);
    assert name == (ZeroPad(Decimal(row), 3) + "_" + Stem(labelText)) + ".png";
  }

  /** A loop that ran to the end wrote one entry per item under the item's
      entry name and collected the items' validation results in order. */
  lemma AllWritten(d: Decoder, lib: ZipLib, validate: bool, items: seq<BatchGenerateItem>)
    requires ZipAll(d, lib, validate, items).Writing?
    ensures var s := ZipAll(d, lib, validate, items);
      |s.entries| == |items| &&
      (forall i :: 0 <= i < |items| ==> s.entries[i].name == ZipEntryName(items[i].row, items[i].labelText)) &&
      |s.results| == (if validate then |items| else 0) &&
      (validate ==> forall i :: 0 <= i < |items| ==> s.results[i] == ValidateSingleItem(d, items[i]))
  {
    var ps := PrepareAll(d, items);
    WritingShape(lib, validate, ps, |ps|);
  }

  /** The save dialog was dismissed: nothing is written and the result says so. */
  lemma CancelledExport(d: Decoder, lib: ZipLib, items: seq<BatchGenerateItem>, validate: bool)
    ensures var r := GenerateZip(d, lib, None, items, validate);
      r.Success? && !r.value.success && r.value.zipPath.None? && r.value.validationResults == [] &&
      r.value.error == Some("Save cancelled by user")
  {
  }
}
