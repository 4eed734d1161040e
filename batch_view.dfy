/** The batch screen (src/components/batch/BatchView.tsx): the list of rows
    with their statuses, the generate-all pass with its validation phase, the
    single-flight preview generation, the export format, preview navigation
    and the names of downloads. Rendering a QR code is outside the model:
    each call's outcome is given as data. */
module BatchView {
  import opened Wrappers
  import opened Text
  import opened BatchBackend
  import Decoding
  import ScanValidate

  /** `ItemStatus`. */
  datatype Status = Pending | Generating | Done | Error | Validating | Validated

  /** `ExportFormat`. */
  datatype Format = Png | Svg | Pdf | Eps {
    function Ext(): string {
      match this
      case Png => "png"
      case Svg => "svg"
      case Pdf => "pdf"
      case Eps => "eps"
    }
  }

  /** `BatchItemWithStatus`: a parsed item with its status, its image once
      rendered, and its error text. */
  datatype Row = Row(item: BatchItem, status: Status, imageData: Option<string>, error: Option<string>)

  /** How one awaited `generateQrForItem` call ended: a data URL, `null`, or
      a rejection. Every call is taken to end; a `getRawData` that rejects,
      which the source never resolves, is not represented. */
  datatype Render = Rendered(data: string) | NoImage | Crashed

  /** The call produced an image (a truthy data URL). */
  predicate Produced(r: Render) {
    r.Rendered? && r.data != ""
  }

  function GenerateItem(item: BatchItem, imageData: string): BatchGenerateItem {
    BatchGenerateItem(item.row, item.content, item.labelText, imageData)
  }

  // ---------------------------------------------------------------------
  // One row of the generate-all loop
  // ---------------------------------------------------------------------

  /** The row after its turn in the loop, given the export-format render
      `shot` and the validation render `png` (awaited only after a produced
      shot). The row is rebuilt from its state before the turn, so an
      earlier error text survives a later success. */
  function RowAfter(row: Row, shot: Render, png: Render): (r: Row)
    ensures r.item == row.item
    ensures r.status == Done <==> Produced(shot) && !png.Crashed?
    ensures r.status == Done || r.status == Error
    ensures r.status == Done ==> r.imageData == Some(shot.data) && r.error == row.error
    ensures r.status == Error ==> r.error == Some("Failed to generate")
  {
    if Produced(shot) && !png.Crashed? then row.(status := Done, imageData := Some(shot.data))
    else row.(status := Error, error := Some("Failed to generate"))
  }

  /** What the turn pushes onto `generated`: the export image, as soon as it
      is produced. */
  function GeneratedBy(row: Row, shot: Render): seq<BatchGenerateItem> {
    if Produced(shot) then [GenerateItem(row.item, shot.data)] else []
  }

  /** What the turn pushes onto `forValidation`. */
  function ValidationBy(row: Row, shot: Render, png: Render): seq<BatchGenerateItem> {
    if Produced(shot) && Produced(png) then [GenerateItem(row.item, png.data)] else []
  }

  /** One turn of the loop body: the export render is awaited, and only
      when it produced an image is the validation render awaited; a
      rejection of either marks the row failed. */
  method RenderRow(item: Row, shot: Render, png: Render)
    returns (after: Row, pushed: seq<BatchGenerateItem>, toValidate: seq<BatchGenerateItem>)
    ensures after == RowAfter(item, shot, png)
    ensures pushed == GeneratedBy(item, shot)
    ensures toValidate == ValidationBy(item, shot, png)
  {
    pushed, toValidate := [], [];
    if Produced(shot) {
      pushed := [GenerateItem(item.item, shot.data)];
      if png.Crashed? {
        after := item.(status := Error, error := Some("Failed to generate"));
      } else {
        after := item.(status := Done, imageData := Some(shot.data));
        if Produced(png) {
          toValidate := [GenerateItem(item.item, png.data)];
        }
      }
    } else {
      after := item.(status := Error, error := Some("Failed to generate"));
    }
  }

  /** `generated` after the first `n` turns. */
  function GeneratedUpTo(rows: seq<Row>, shots: seq<Render>, n: nat): seq<BatchGenerateItem>
    requires n <= |rows| && n <= |shots|
  {
    if n == 0 then [] else GeneratedUpTo(rows, shots, n - 1) + GeneratedBy(rows[n - 1], shots[n - 1])
  }

  /** `forValidation` after the first `n` turns. */
  function ValidationUpTo(rows: seq<Row>, shots: seq<Render>, pngs: seq<Render>, n: nat): seq<BatchGenerateItem>
    requires n <= |rows| && n <= |shots| && n <= |pngs|
  {
    if n == 0 then [] else ValidationUpTo(rows, shots, pngs, n - 1) + ValidationBy(rows[n - 1], shots[n - 1], pngs[n - 1])
  }

  /** The indices among the first `n` whose export image was produced, in
      order. */
  function ProducedUpTo(shots: seq<Render>, n: nat): seq<nat>
    requires n <= |shots|
  {
    if n == 0 then [] else ProducedUpTo(shots, n - 1) + (if Produced(shots[n - 1]) then [n - 1] else [])
  }

  /** `generated` holds, in list order, one item per row whose export image
      was produced, carrying that row's item and image. */
  lemma {:induction false} GeneratedExactly(rows: seq<Row>, shots: seq<Render>, n: nat)
    requires n <= |rows| && n <= |shots|
    ensures var g := GeneratedUpTo(rows, shots, n);
      var ix := ProducedUpTo(shots, n);
      |g| == |ix| &&
      (forall k :: 0 <= k < |ix| ==>
        (ix[k] < n && Produced(shots[ix[k]]) && g[k] == GenerateItem(rows[ix[k]].item, shots[ix[k]].data))) &&
      (forall k, l :: 0 <= k < l < |ix| ==> ix[k] < ix[l]) &&
      (forall i :: 0 <= i < n && Produced(shots[i]) ==> i in ix)
  {
    if n > 0 {
      GeneratedExactly(rows, shots, n - 1);
      var g0 := GeneratedUpTo(rows, shots, n - 1);
      var ix0 := ProducedUpTo(shots, n - 1);
      var g := GeneratedUpTo(rows, shots, n);
      var ix := ProducedUpTo(shots, n);
      assert g == g0 + GeneratedBy(rows[n - 1], shots[n - 1]);
      assert ix == ix0 + (if Produced(shots[n - 1]) then [n - 1] else []);
      forall k | 0 <= k < |ix|
        ensures ix[k] < n && Produced(shots[ix[k]]) && g[k] == GenerateItem(rows[ix[k]].item, shots[ix[k]].data)
      {
        if k < |ix0| {
          assert ix[k] == ix0[k] && g[k] == g0[k];
        }
      }
      forall i | 0 <= i < n && Produced(shots[i]) ensures i in ix {
        if i < n - 1 {
          assert i in ix0;
        } else {
          assert ix[|ix| - 1] == i;
        }
      }
    }
  }

  /** Every row's export image was produced exactly when `generated` is as
      long as the list. */
  lemma {:induction false} AllProducedIff(rows: seq<Row>, shots: seq<Render>, n: nat)
    requires n <= |rows| && n <= |shots|
    ensures |GeneratedUpTo(rows, shots, n)| <= n
    ensures |GeneratedUpTo(rows, shots, n)| == n <==> forall i :: 0 <= i < n ==> Produced(shots[i])
  {
    if n > 0 {
      AllProducedIff(rows, shots, n - 1);
    }
  }

  /** The rows after the loop. */
  function LoopRows(rows: seq<Row>, shots: seq<Render>, pngs: seq<Render>): (r: seq<Row>)
    requires |shots| == |rows| && |pngs| == |rows|
    ensures |r| == |rows|
    ensures forall i :: 0 <= i < |r| ==> r[i] == RowAfter(rows[i], shots[i], pngs[i])
  {
    seq(|rows|, i requires 0 <= i < |rows| => RowAfter(rows[i], shots[i], pngs[i]))
  }

  /** After the loop every row is done or in error, and it is done exactly
      when its export image was produced and its validation render did not
      fail. */
  lemma LoopSettles(rows: seq<Row>, shots: seq<Render>, pngs: seq<Render>)
    requires |shots| == |rows| && |pngs| == |rows|
    ensures forall i :: 0 <= i < |rows| ==>
      (LoopRows(rows, shots, pngs)[i].status == Done || LoopRows(rows, shots, pngs)[i].status == Error) &&
      (LoopRows(rows, shots, pngs)[i].status == Done <==> Produced(shots[i]) && !pngs[i].Crashed?)
  {
  }

  // ---------------------------------------------------------------------
  // The validation phase
  // ---------------------------------------------------------------------

  /** Done rows become validating; the others are kept. */
  function MarkValidating(rows: seq<Row>): (r: seq<Row>)
    ensures |r| == |rows|
    ensures forall i :: 0 <= i < |r| ==>
      r[i] == if rows[i].status == Done then rows[i].(status := Validating) else rows[i]
  {
    seq(|rows|, i requires 0 <= i < |rows| => if rows[i].status == Done then rows[i].(status := Validating) else rows[i])
  }

  /** `Array.prototype.find` by row: the first result carrying `row`. */
  function FindResult(results: seq<BatchValidationResult>, row: nat): (r: Option<nat>)
    ensures r.Some? ==> r.value < |results| && results[r.value].row == row
    ensures r.Some? ==> forall j :: 0 <= j < r.value ==> results[j].row != row
    ensures r.None? ==> forall j :: 0 <= j < |results| ==> results[j].row != row
  {
    if results == [] then None
    else if results[0].row == row then Some(0)
    else
      var r := FindResult(results[1..], row);
      if r.Some? then Some(r.value + 1) else None
  }

  /** One row under the validation results. */
  function ApplyResult(row: Row, results: seq<BatchValidationResult>): Row {
    var k := FindResult(results, row.item.row);
    if k.None? then row
    else
      var v := results[k.value];
      if !v.success then row.(status := Error, error := Some(OrElse(v.error, "Validation failed")))
      else if !v.contentMatch then row.(status := Error, error := Some("Content mismatch"))
      else row.(status := Validated)
  }

  function ApplyResults(rows: seq<Row>, results: seq<BatchValidationResult>): (r: seq<Row>)
    ensures |r| == |rows|
    ensures forall i :: 0 <= i < |r| ==> r[i] == ApplyResult(rows[i], results)
  {
    seq(|rows|, i requires 0 <= i < |rows| => ApplyResult(rows[i], results))
  }

  /** A rejected `validateBatch`: validating rows go back to done. */
  function RevertValidating(rows: seq<Row>): (r: seq<Row>)
    ensures |r| == |rows|
    ensures forall i :: 0 <= i < |r| ==>
      r[i] == if rows[i].status == Validating then rows[i].(status := Done) else rows[i]
  {
    seq(|rows|, i requires 0 <= i < |rows| => if rows[i].status == Validating then rows[i].(status := Done) else rows[i])
  }

  /** The rows after the validation phase, given the awaited results. */
  function AfterValidation(rows: seq<Row>, validation: Invoke<seq<BatchValidationResult>>): seq<Row> {
    match validation
    case Returned(results) => ApplyResults(MarkValidating(rows), results)
    case Threw(_) => RevertValidating(MarkValidating(rows))
  }

  /** A row no result names is left as it was: a done row stays
      validating, which is what happens to every row when the results are
      empty. */
  lemma UnnamedRowStays(row: Row, results: seq<BatchValidationResult>)
    requires forall j :: 0 <= j < |results| ==> results[j].row != row.item.row
    ensures ApplyResult(row, results) == row
  {
  }

  /** With results computed by the back end's batch check, a row ends up
      validated exactly when the first image submitted for its row decoded
      to text equal to its content up to surrounding white space; the item
      and image are kept either way. */
  lemma ValidatedMeansDecoded(d: Decoding.Decoder, submitted: seq<BatchGenerateItem>,
                              results: seq<BatchValidationResult>, row: Row, k: nat)
    requires |results| == |submitted|
    requires forall j :: 0 <= j < |submitted| ==> results[j] == ValidateSingleItem(d, submitted[j])
    requires k < |submitted| && submitted[k].row == row.item.row
    requires forall j :: 0 <= j < k ==> submitted[j].row != row.item.row
    ensures ApplyResult(row, results).status == Validated <==>
      DecodedText(d, submitted[k].imageData).Some? &&
      ScanValidate.SameContent(DecodedText(d, submitted[k].imageData).value, submitted[k].content)
    ensures ApplyResult(row, results).item == row.item && ApplyResult(row, results).imageData == row.imageData
  {
    assert FindResult(results, row.item.row) == Some(k);
  }

  // ---------------------------------------------------------------------
  // Progress
  // ---------------------------------------------------------------------

  /** `((i + 1) / length) * 100` after `done` of `total` rows. */
  function Percent(done: nat, total: nat): real
    requires 0 < total
  {
    (done as real / total as real) * 100.0
  }

  /** Progress grows with every row and reaches 100 at the last. */
  lemma PercentBounds(done: nat, total: nat)
    requires 0 < total && done <= total
    ensures 0.0 <= Percent(done, total) <= 100.0
    ensures done < total ==> Percent(done, total) < Percent(done + 1, total)
    ensures Percent(total, total) == 100.0
  {
  }

  // ---------------------------------------------------------------------
  // Download names
  // ---------------------------------------------------------------------

  /** `${label}.${fmt}`, or `qr-code-${row}.${fmt}` without a (non-empty)
      label. */
  function DownloadName(row: Row, format: Format): (name: string)
    ensures row.item.labelText.Some? && row.item.labelText.value != "" ==>
      name == row.item.labelText.value + "." + format.Ext()
    ensures row.item.labelText.None? || row.item.labelText.value == "" ==>
      name == "qr-code-" + Decimal(row.item.row) + "." + format.Ext()
  {
    OrElse(row.item.labelText, "qr-code-" + Decimal(row.item.row)) + "." + format.Ext()
  }

  /** Unlabelled downloads of different rows get different names. */
  lemma UnlabelledNamesDiffer(a: Row, b: Row, format: Format)
    requires a.item.labelText.None? && b.item.labelText.None?
    requires DownloadName(a, format) == DownloadName(b, format)
    ensures a.item.row == b.item.row
  {
    var da := Decimal(a.item.row);
    var db := Decimal(b.item.row);
    var na := "qr-code-" + da + "." + format.Ext();
    var nb := "qr-code-" + db + "." + format.Ext();
    assert na == nb;
    assert |da| == |db|;
    assert da == na[8..8 + |da|];
    assert db == nb[8..8 + |db|];
    DecimalRoundTrip(a.item.row);
    DecimalRoundTrip(b.item.row);
  }

  // ---------------------------------------------------------------------
  // The screen
  // ---------------------------------------------------------------------

  class Screen {
    var rows: seq<Row>
    var generated: seq<BatchGenerateItem>
    /** Rows processed by the last generate-all pass; the bar shows
        `Percent(progress, |rows|)`. */
    var progress: nat
    var previewIndex: nat
    var format: Format
    var isValidating: bool
    var isLocalGenerating: bool
    /** The batch hook's `isGenerating`, raised while a ZIP is written. */
    var isZipping: bool
    /** `generatingRef`: the preview indices with a render in flight. */
    var inFlight: set<nat>

    constructor(items: seq<BatchItem>)
      ensures |rows| == |items| && forall i :: 0 <= i < |items| ==> rows[i] == Row(items[i], Pending, None, None)
      ensures generated == [] && progress == 0 && previewIndex == 0 && format == Png
      ensures !isValidating && !isLocalGenerating && !isZipping && inFlight == {}
    {
      rows := seq(|items|, i requires 0 <= i < |items| => Row(items[i], Pending, None, None));
      generated := [];
      progress := 0;
      previewIndex := 0;
      format := Png;
      isValidating := false;
      isLocalGenerating := false;
      isZipping := false;
      inFlight := {};
    }

    predicate IsProcessing()
      reads this
    {
      isLocalGenerating || isZipping || isValidating
    }

    /** `allGenerated && !isProcessing`: the ZIP export button is enabled. */
    predicate ExportEnabled()
      reads this
    {
      |generated| > 0 && |generated| == |rows| && !IsProcessing()
    }

    predicate CanGoPrev()
      reads this
    {
      previewIndex > 0
    }

    predicate CanGoNext()
      reads this
    {
      previewIndex < |rows| - 1
    }

    /** The preview index points into the list (or is 0 for an empty one). */
    predicate PreviewInRange()
      reads this
    {
      previewIndex == 0 || previewIndex < |rows|
    }

    method GoPrev()
      modifies this
      ensures previewIndex == if old(CanGoPrev()) then old(previewIndex) - 1 else old(previewIndex)
      ensures old(PreviewInRange()) ==> PreviewInRange()
      ensures rows == old(rows) && generated == old(generated) && inFlight == old(inFlight)
      ensures progress == old(progress) && format == old(format)
      ensures isValidating == old(isValidating) && isLocalGenerating == old(isLocalGenerating) && isZipping == old(isZipping)
    {
      if CanGoPrev() {
        previewIndex := previewIndex - 1;
      }
    }

    method GoNext()
      modifies this
      ensures previewIndex == if old(CanGoNext()) then old(previewIndex) + 1 else old(previewIndex)
      ensures old(PreviewInRange()) ==> PreviewInRange()
      ensures rows == old(rows) && generated == old(generated) && inFlight == old(inFlight)
      ensures progress == old(progress) && format == old(format)
      ensures isValidating == old(isValidating) && isLocalGenerating == old(isLocalGenerating) && isZipping == old(isZipping)
    {
      if CanGoNext() {
        previewIndex := previewIndex + 1;
      }
    }

    /** A click on a row of the table. */
    method SelectPreview(index: nat)
      requires index < |rows|
      modifies this
      ensures previewIndex == index && PreviewInRange()
      ensures rows == old(rows) && generated == old(generated) && inFlight == old(inFlight)
      ensures progress == old(progress) && format == old(format)
      ensures isValidating == old(isValidating) && isLocalGenerating == old(isLocalGenerating) && isZipping == old(isZipping)
    {
      previewIndex := index;
    }

    /** The preview effect would start a render: the current row exists,
        has no image, is not generating and has no render in flight. */
    predicate ShouldDispatch()
      reads this
    {
      previewIndex < |rows| && (rows[previewIndex].imageData.None? || rows[previewIndex].imageData == Some("")) &&
      rows[previewIndex].status != Generating && previewIndex !in inFlight
    }

    /** The preview effect up to the awaited render: the index is recorded
        as in flight and the row marked generating. */
    method PreviewDispatch() returns (dispatched: bool)
      modifies this
      ensures dispatched == old(ShouldDispatch())
      ensures dispatched ==> old(previewIndex) < |old(rows)|
      ensures dispatched ==> inFlight == old(inFlight) + {previewIndex}
      ensures dispatched ==> rows == old(rows)[old(previewIndex) := old(rows)[old(previewIndex)].(status := Generating)]
      ensures !dispatched ==> inFlight == old(inFlight) && rows == old(rows)
      ensures dispatched ==> !ShouldDispatch()
      ensures previewIndex == old(previewIndex) && generated == old(generated) && progress == old(progress)
      ensures format == old(format)
      ensures isValidating == old(isValidating) && isLocalGenerating == old(isLocalGenerating) && isZipping == old(isZipping)
    {
      dispatched := ShouldDispatch();
      if dispatched {
        inFlight := inFlight + {previewIndex};
        rows := rows[previewIndex := rows[previewIndex].(status := Generating)];
      }
    }

    /** The preview render for `index` ended: the row gets the image or the
        error, and in either case (`finally`) the index leaves the in-flight
        set. */
    method PreviewSettle(index: nat, outcome: Render)
      modifies this
      ensures inFlight == old(inFlight) - {index}
      ensures rows == SettleRows(old(rows), index, outcome)
      ensures previewIndex == old(previewIndex) && generated == old(generated) && progress == old(progress)
      ensures format == old(format)
      ensures isValidating == old(isValidating) && isLocalGenerating == old(isLocalGenerating) && isZipping == old(isZipping)
    {
      rows := SettleRows(rows, index, outcome);
      inFlight := inFlight - {index};
    }

    /** `handleFormatChange`. */
    method FormatChange(newFormat: Format)
      modifies this
      ensures newFormat == old(format) ==>
        rows == old(rows) && generated == old(generated) && progress == old(progress) && format == old(format)
      ensures newFormat != old(format) ==> format == newFormat
      ensures newFormat != old(format) && old(generated) != [] ==>
        generated == [] && progress == 0 && rows == ResetRows(old(rows)) && !ExportEnabled()
      ensures newFormat != old(format) && old(generated) == [] ==>
        generated == [] && progress == old(progress) && rows == old(rows)
      ensures previewIndex == old(previewIndex) && inFlight == old(inFlight)
      ensures isValidating == old(isValidating) && isLocalGenerating == old(isLocalGenerating) && isZipping == old(isZipping)
    {
      if newFormat == format {
        return;
      }
      format := newFormat;
      if |generated| > 0 {
        generated := [];
        progress := 0;
        rows := ResetRows(rows);
      }
    }

    /** `handleGenerateAll`, with the outcome of each row's export render in
        `shots`, of its validation render in `pngs`, and of `validateBatch`
        in `validation`. */
    method GenerateAll(shots: seq<Render>, pngs: seq<Render>, validation: Invoke<seq<BatchValidationResult>>)
      requires |shots| == |rows| && |pngs| == |rows|
      modifies this
      ensures old(rows) == [] ==>
        rows == old(rows) && generated == old(generated) && progress == old(progress) &&
        isValidating == old(isValidating) && isLocalGenerating == old(isLocalGenerating)
      ensures old(rows) != [] ==>
        generated == GeneratedUpTo(old(rows), shots, |old(rows)|) &&
        progress == |old(rows)| && !isLocalGenerating &&
        isValidating == (old(isValidating) && ValidationUpTo(old(rows), shots, pngs, |old(rows)|) == []) &&
        rows == (if ValidationUpTo(old(rows), shots, pngs, |old(rows)|) == [] then LoopRows(old(rows), shots, pngs)
                 else AfterValidation(LoopRows(old(rows), shots, pngs), validation))
      ensures previewIndex == old(previewIndex) && format == old(format) && inFlight == old(inFlight)
      ensures isZipping == old(isZipping)
    {
      if |rows| == 0 {
        return;
      }
      isLocalGenerating := true;
      var forValidation := RenderAll(shots, pngs);
      if |forValidation| > 0 {
        ValidatePhase(validation);
      }
      isLocalGenerating := false;
    }

    /** The validation phase of `handleGenerateAll`: done rows are marked
        validating, then mapped through the awaited results (or reverted to
        done when the call rejects). */
    method ValidatePhase(validation: Invoke<seq<BatchValidationResult>>)
      modifies this
      ensures rows == AfterValidation(old(rows), validation)
      ensures !isValidating
      ensures generated == old(generated) && progress == old(progress) && isLocalGenerating == old(isLocalGenerating)
      ensures previewIndex == old(previewIndex) && format == old(format) && inFlight == old(inFlight)
      ensures isZipping == old(isZipping)
    {
      isValidating := true;
      var validatingRows := MarkValidating(rows);
      rows := validatingRows;
      match validation {
        case Returned(results) =>
          rows := ApplyResults(validatingRows, results);
        case Threw(_) =>
          rows := RevertValidating(validatingRows);
      }
      isValidating := false;
    }

    /** The loop of `handleGenerateAll`: each row is marked generating, then
        rebuilt from the outcome of its renders, and the progress advances;
        the export images are collected into `generated` (stored when the
        pass ends) and the validation images returned. */
    method RenderAll(shots: seq<Render>, pngs: seq<Render>) returns (forValidation: seq<BatchGenerateItem>)
      requires |shots| == |rows| && |pngs| == |rows|
      modifies this`rows, this`progress, this`generated
      ensures rows == LoopRows(old(rows), shots, pngs)
      ensures generated == GeneratedUpTo(old(rows), shots, |old(rows)|)
      ensures forValidation == ValidationUpTo(old(rows), shots, pngs, |old(rows)|)
      ensures progress == |old(rows)|
    {
      progress := 0;
      var start := rows;
      var updated := rows;
      var gen: seq<BatchGenerateItem> := [];
      forValidation := [];
      var i := 0;
      while i < |updated|
        invariant 0 <= i <= |updated| == |start|
        invariant forall j :: 0 <= j < i ==> updated[j] == RowAfter(start[j], shots[j], pngs[j])
        invariant forall j :: i <= j < |updated| ==> updated[j] == start[j]
        invariant rows == updated
        invariant gen == GeneratedUpTo(start, shots, i)
        invariant forValidation == ValidationUpTo(start, shots, pngs, i)
        invariant progress == i
      {
        var item := updated[i];
        updated := updated[i := item.(status := Generating)];
        rows := updated;
        var after, pushed, toValidate := RenderRow(item, shots[i], pngs[i]);
        updated := updated[i := after];
        gen := gen + pushed;
        forValidation := forValidation + toValidate;
        rows := updated;
        progress := i + 1;
        i := i + 1;
      }
      generated := gen;
    }
  }

  /** The rows after a preview render settles. */
  function SettleRows(rows: seq<Row>, index: nat, outcome: Render): (r: seq<Row>)
    ensures |r| == |rows|
    ensures forall i :: 0 <= i < |rows| && i != index ==> r[i] == rows[i]
    ensures index < |rows| && Produced(outcome) ==>
      r[index] == rows[index].(status := Done, imageData := Some(outcome.data), error := None)
    ensures index < |rows| && !Produced(outcome) ==>
      r[index].status == Error && r[index].error == Some("Failed to generate") && r[index].item == rows[index].item
  {
    if index >= |rows| then rows
    else
      var it := rows[index];
      if outcome.Crashed? then rows[index := it.(status := Error, error := Some("Failed to generate"))]
      else if Produced(outcome) then rows[index := it.(status := Done, imageData := Some(outcome.data), error := None)]
      else rows[index := it.(status := Error, imageData := None, error := Some("Failed to generate"))]
  }

  /** Every row back to pending with its error cleared; item and image are
      kept. */
  function ResetRows(rows: seq<Row>): (r: seq<Row>)
    ensures |r| == |rows|
    ensures forall i :: 0 <= i < |r| ==> r[i] == rows[i].(status := Pending, error := None)
  {
    seq(|rows|, i requires 0 <= i < |rows| => rows[i].(status := Pending, error := None))
  }
}
