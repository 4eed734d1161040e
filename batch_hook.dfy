/** The batch hook of the front end (src/hooks/useBatch.ts): the parsed
    items, the parse error, the busy flags and the map from row to
    validation result, updated around the awaited back-end commands. */
module BatchHook {
  import opened Wrappers
  import opened BatchBackend
  import Decoding
  import Text

  /** What a Tauri command returning `Result<T, String>` does to the awaiting
      caller: `Ok` resolves the call, `Err(e)` rejects it with `e`, which a
      template literal renders as `e` itself. */
  function Await<T>(r: Result<T, string>): (o: Invoke<T>)
    ensures r.Success? <==> o.Returned?
    ensures r.Success? ==> o.value == r.value
    ensures r.Failure? ==> o.error == r.error
  {
    match r
    case Success(v) => Returned(v)
    case Failure(e) => Threw(e)
  }

  // ---------------------------------------------------------------------
  // The results map
  // ---------------------------------------------------------------------

  /** `results.forEach((r) => resultsMap.set(r.row, r))` on a fresh map. */
  function ResultsMap(rs: seq<BatchValidationResult>): map<nat, BatchValidationResult> {
    if rs == [] then map[] else ResultsMap(rs[..|rs| - 1])[rs[|rs| - 1].row := rs[|rs| - 1]]
  }

  /** The rows the results name. */
  function Rows(rs: seq<BatchValidationResult>): set<nat> {
    set i | 0 <= i < |rs| :: rs[i].row
  }

  /** The map has one key per distinct row among the results. */
  lemma {:induction false} ResultsMapKeys(rs: seq<BatchValidationResult>)
    ensures ResultsMap(rs).Keys == Rows(rs)
  {
    if rs != [] {
      var p := rs[..|rs| - 1];
      ResultsMapKeys(p);
      assert Rows(rs) == Rows(p) + {rs[|rs| - 1].row} by {
        forall k | k in Rows(rs) ensures k in Rows(p) + {rs[|rs| - 1].row} {
          var i :| 0 <= i < |rs| && rs[i].row == k;
          if i < |rs| - 1 { assert p[i] == rs[i]; }
        }
        forall k | k in Rows(p) ensures k in Rows(rs) {
          var i :| 0 <= i < |p| && p[i].row == k;
          assert rs[i] == p[i];
        }
      }
    }
  }

  /** For every row the map keeps the last result carrying it: a result
      that no later result shares its row with is the one stored. */
  lemma {:induction false} ResultsMapLastWins(rs: seq<BatchValidationResult>, i: nat)
    requires i < |rs|
    requires forall j :: i < j < |rs| ==> rs[j].row != rs[i].row
    ensures rs[i].row in ResultsMap(rs) && ResultsMap(rs)[rs[i].row] == rs[i]
  {
    if i < |rs| - 1 {
      var p := rs[..|rs| - 1];
      assert forall j :: i < j < |p| ==> p[j] == rs[j];
      ResultsMapLastWins(p, i);
      assert p[i] == rs[i];
    }
  }

  /** When no two results share a row the map has exactly one entry per
      result. */
  lemma {:induction false} ResultsMapSize(rs: seq<BatchValidationResult>)
    requires forall i, j :: 0 <= i < j < |rs| ==> rs[i].row != rs[j].row
    ensures |ResultsMap(rs)| == |rs|
  {
    if rs != [] {
      var p := rs[..|rs| - 1];
      assert forall i, j :: 0 <= i < j < |p| ==> p[i].row != p[j].row by {
        forall i, j | 0 <= i < j < |p| ensures p[i].row != p[j].row {
          assert p[i] == rs[i] && p[j] == rs[j];
        }
      }
      ResultsMapSize(p);
      ResultsMapKeys(p);
      assert forall i :: 0 <= i < |p| ==> p[i].row != rs[|rs| - 1].row by {
        forall i | 0 <= i < |p| ensures p[i].row != rs[|rs| - 1].row {
          assert p[i] == rs[i];
        }
      }
      assert rs[|rs| - 1].row !in Rows(p);
    }
  }

  /** Builds the map the way the hook's `forEach` does, one `set` at a time. */
  method BuildResultsMap(rs: seq<BatchValidationResult>) returns (m: map<nat, BatchValidationResult>)
    ensures m == ResultsMap(rs)
  {
    m := map[];
    var i := 0;
    while i < |rs|
      invariant 0 <= i <= |rs|
      invariant m == ResultsMap(rs[..i])
    {
      assert rs[..i + 1][..i] == rs[..i];
      m := m[rs[i].row := rs[i]];
      i := i + 1;
    }
    assert rs[..|rs|] == rs;
  }

  // ---------------------------------------------------------------------
  // What each call leaves behind, as functions of the awaited outcome
  // ---------------------------------------------------------------------

  /** The items after a parse: replaced by a successful result, kept
      otherwise. */
  function ItemsAfterParse(items: seq<BatchItem>, outcome: Invoke<BatchParseResult>): (r: seq<BatchItem>)
    ensures outcome.Returned? && outcome.value.success ==> r == outcome.value.items
    ensures !(outcome.Returned? && outcome.value.success) ==> r == items
  {
    if outcome.Returned? && outcome.value.success then outcome.value.items else items
  }

  /** The parse error after a parse: none after a success, the back end's
      message (or a fixed fallback) after a refused parse, and the rejection
      text after a failed call. */
  function ParseErrorAfter(outcome: Invoke<BatchParseResult>): (r: Option<string>)
    ensures r.None? <==> outcome.Returned? && outcome.value.success
    ensures outcome.Threw? ==> r == Some("Failed to parse CSV: " + outcome.error)
    ensures outcome.Returned? && !outcome.value.success ==>
      r == Some(OrElse(outcome.value.error, "Failed to parse CSV"))
  {
    match outcome
    case Threw(e) => Some("Failed to parse CSV: " + e)
    case Returned(result) =>
      if result.success then None else Some(OrElse(result.error, "Failed to parse CSV"))
  }

  /** The results map after `validateBatch`: rebuilt from the results when
      the call resolves, untouched when it rejects. */
  function MapAfterValidate(m: map<nat, BatchValidationResult>, outcome: Invoke<seq<BatchValidationResult>>): (r: map<nat, BatchValidationResult>)
    ensures outcome.Threw? ==> r == m
    ensures outcome.Returned? ==> r.Keys == Rows(outcome.value)
  {
    if outcome.Returned? then
      ResultsMapKeys(outcome.value);
      ResultsMap(outcome.value)
    else m
  }

  /** The results map after `generateZip`: rebuilt only from a non-empty
      list of validation results. */
  function MapAfterZip(m: map<nat, BatchValidationResult>, outcome: Invoke<BatchGenerateResult>): (r: map<nat, BatchValidationResult>)
    ensures outcome.Threw? || outcome.value.validationResults == [] ==> r == m
    ensures outcome.Returned? && outcome.value.validationResults != [] ==>
      r.Keys == Rows(outcome.value.validationResults)
  {
    if outcome.Returned? && |outcome.value.validationResults| > 0 then
      ResultsMapKeys(outcome.value.validationResults);
      ResultsMap(outcome.value.validationResults)
    else m
  }

  // ---------------------------------------------------------------------
  // The hook's state
  // ---------------------------------------------------------------------

  class Batch {
    var items: seq<BatchItem>
    var isLoading: bool
    var isParsing: bool
    var isGenerating: bool
    var parseError: Option<string>
    var validationResults: map<nat, BatchValidationResult>

    constructor()
      ensures items == [] && parseError.None? && validationResults == map[]
      ensures !isLoading && !isParsing && !isGenerating
    {
      items := [];
      isLoading := false;
      isParsing := false;
      isGenerating := false;
      parseError := None;
      validationResults := map[];
    }

    /** `parseCsvFile` and `parseCsvContent`, which differ only in the
        command they await: the error is cleared, the outcome applied, and
        the parsing flag lowered again. */
    method ParseCsv(outcome: Invoke<BatchParseResult>) returns (ok: bool)
      modifies this
      ensures ok <==> outcome.Returned? && outcome.value.success
      ensures items == ItemsAfterParse(old(items), outcome)
      ensures parseError == ParseErrorAfter(outcome)
      ensures !isParsing
      ensures isLoading == old(isLoading) && isGenerating == old(isGenerating)
      ensures validationResults == old(validationResults)
    {
      isParsing := true;
      parseError := None;
      match outcome {
        case Threw(e) =>
          parseError := Some("Failed to parse CSV: " + e);
          ok := false;
        case Returned(result) =>
          if result.success {
            items := result.items;
            ok := true;
          } else {
            parseError := Some(OrElse(result.error, "Failed to parse CSV"));
            ok := false;
          }
      }
      isParsing := false;
    }

    /** `validateBatch`: the results are returned and keyed by row; a
        rejected call returns nothing and keeps the map. */
    method ValidateBatch(outcome: Invoke<seq<BatchValidationResult>>) returns (results: seq<BatchValidationResult>)
      modifies this
      ensures results == if outcome.Returned? then outcome.value else []
      ensures validationResults == MapAfterValidate(old(validationResults), outcome)
      ensures !isLoading
      ensures items == old(items) && parseError == old(parseError)
      ensures isParsing == old(isParsing) && isGenerating == old(isGenerating)
    {
      isLoading := true;
      match outcome {
        case Threw(_) =>
          results := [];
        case Returned(rs) =>
          var m := BuildResultsMap(rs);
          validationResults := m;
          results := rs;
      }
      isLoading := false;
    }

    /** `generateZip`: the back end's result is returned, and its validation
        results replace the map when there are any; a rejected call gives
        `null`. */
    method GenerateZip(outcome: Invoke<BatchGenerateResult>) returns (r: Option<BatchGenerateResult>)
      modifies this
      ensures r == if outcome.Returned? then Some(outcome.value) else None
      ensures validationResults == MapAfterZip(old(validationResults), outcome)
      ensures !isGenerating
      ensures items == old(items) && parseError == old(parseError)
      ensures isParsing == old(isParsing) && isLoading == old(isLoading)
    {
      isGenerating := true;
      match outcome {
        case Threw(_) =>
          r := None;
        case Returned(result) =>
          if |result.validationResults| > 0 {
            var m := BuildResultsMap(result.validationResults);
            validationResults := m;
          }
          r := Some(result);
      }
      isGenerating := false;
    }

    /** `clearBatch`. */
    method ClearBatch()
      modifies this
      ensures items == [] && parseError.None? && validationResults == map[]
      ensures isLoading == old(isLoading) && isParsing == old(isParsing) && isGenerating == old(isGenerating)
    {
      items := [];
      parseError := None;
      validationResults := map[];
    }
  }

  // ---------------------------------------------------------------------
  // The hook over the back end
  // ---------------------------------------------------------------------

  /** A table without a content column leaves the items as they were and
      shows the back end's refusal behind the hook's prefix. */
  lemma MissingColumnShown(items: seq<BatchItem>, headers: seq<string>, records: seq<CsvRecord>)
    requires forall j :: 0 <= j < |headers| ==> Text.Lower(headers[j]) != "content"
    ensures var outcome := Await(BatchParseCsv(Success(Table(headers, records))));
      ItemsAfterParse(items, outcome) == items &&
      ParseErrorAfter(outcome) == Some("Failed to parse CSV: " + "CSV must have a 'content' column")
  {
    MissingContentColumn(headers, records);
    var r := BatchParseCsv(Success(Table(headers, records)));
    assert r == Failure("CSV must have a 'content' column");
    assert Await(r) == Threw("CSV must have a 'content' column");
  }

  /** A parse of a well-formed table shows its items and no error; a table
      with a malformed record keeps the old items and shows the message
      naming that record's row. */
  lemma ParseShown(items: seq<BatchItem>, headers: seq<string>, records: seq<CsvRecord>)
    requires FindColumn(headers, "content").Some?
    ensures var outcome := Await(BatchParseCsv(Success(Table(headers, records))));
      var cols := ColumnsOf(headers, FindColumn(headers, "content").value);
      (FirstMalformed(records).None? ==>
        ItemsAfterParse(items, outcome) == ItemsUpTo(records, |records|, cols) &&
        ParseErrorAfter(outcome).None?) &&
      (FirstMalformed(records).Some? ==>
        ItemsAfterParse(items, outcome) == items &&
        ParseErrorAfter(outcome) == Some(RowError(FirstMalformed(records).value, records[FirstMalformed(records).value].error)))
  {
    ParseOutcome(headers, records);
  }

  /** After a batch validation every item's row is a key of the results
      map, and no other row is. */
  lemma ValidatedRowsKeyed(m: map<nat, BatchValidationResult>, items: seq<BatchGenerateItem>, results: seq<BatchValidationResult>)
    requires |results| == |items|
    requires forall i :: 0 <= i < |items| ==> results[i].row == items[i].row
    ensures MapAfterValidate(m, Returned(results)).Keys == set i | 0 <= i < |items| :: items[i].row
  {
    assert Rows(results) == set i | 0 <= i < |items| :: items[i].row by {
      forall k | k in Rows(results) ensures k in set i | 0 <= i < |items| :: items[i].row {
        var i :| 0 <= i < |results| && results[i].row == k;
        assert items[i].row == k;
      }
      forall k | k in set i | 0 <= i < |items| :: items[i].row ensures k in Rows(results) {
        var i :| 0 <= i < |items| && items[i].row == k;
        assert results[i].row == k;
      }
    }
  }

  /** A cancelled save dialog leaves the results map alone. */
  lemma CancelKeepsResults(m: map<nat, BatchValidationResult>, d: Decoding.Decoder, lib: ZipLib,
                           items: seq<BatchGenerateItem>, validate: bool)
    ensures MapAfterZip(m, Await(BatchBackend.GenerateZip(d, lib, None, items, validate))) == m
  {
  }

  /** An export without validation also leaves the results map alone. */
  lemma UnvalidatedExportKeepsResults(m: map<nat, BatchValidationResult>, d: Decoding.Decoder, lib: ZipLib,
                                      dialog: Option<string>, items: seq<BatchGenerateItem>)
    requires BatchBackend.GenerateZip(d, lib, dialog, items, false).Success?
    ensures MapAfterZip(m, Await(BatchBackend.GenerateZip(d, lib, dialog, items, false))) == m
  {
    if BatchBackend.GenerateZip(d, lib, dialog, items, false).value.success {
      ExportContents(d, lib, dialog, items, false);
    }
  }
}
