/**
 * The single-image script: the original is saved first, then every detection's crop is
 * saved, read and appended to `plates.csv` without any filtering, and finally the image
 * with every box drawn on it is saved as the result. An empty crop makes `cv2.imwrite`
 * raise, which ends the script where it stands.
 */
module BatchIngest {
  import opened Wrappers
  import opened PyText
  import opened Clock
  import opened Archive
  import opened Frames
  import opened PlatesCsv

  /** The image a single run reads is frame 0. */
  const ImageFrame: nat := 0

  /** A detection, the OCR fragments of its crop, and the two clock readings the loop takes for it. */
  datatype Detection = Detection(box: Box, texts: seq<string>, stampAt: DateTime, rowAt: DateTime)

  /** `' '.join(all_text) if all_text else 'N/A'`: unreadable plates are still recorded. */
  function BatchText(texts: seq<string>): (t: string)
    ensures t != "" && Trimmed(t)
    ensures AllBlank(texts) ==> t == "N/A"
    ensures !AllBlank(texts) ==> t == PlateText(texts)
  {
    var text := PlateText(texts);
    if text == "" then "N/A" else text
  }

  /** `last_id` before the loop: the scan runs only when the file exists. */
  function InitialLastId(present: bool, lines: seq<Row>): (id: int)
    ensures id >= -1
    ensures present ==> id == LastIdOf(lines)
    ensures !present ==> id == -1
  {
    if present then LastIdOf(lines) else -1
  }

  /** The script's state as the loop goes: the CSV file, the counters, the plate folder, the boxes drawn. */
  datatype Batch = Batch(
    present: bool,
    lines: seq<Row>,
    lastId: int,
    plateCounter: nat,
    plates: map<string, Image>,
    drawn: seq<Box>,
    crashed: bool)

  /** The row written for a detection when `last_id` and `plate_counter` stood at the two numbers given. */
  type RowMaker = (int, nat, Detection) -> Row

  /**
   * How a run names each plate image (from its detection and new `plate_counter`) and
   * lays out each row. The loop's bookkeeping does not depend on either, so the loop is
   * stated for any layout; the script's own is `ScriptLayout`.
   */
  datatype Layout = Layout(plateName: (Detection, nat) -> string, row: RowMaker)

  /** One pass of `for det in detections`; after a crash nothing more happens. */
  function BatchStep(b: Batch, layout: Layout, width: nat, height: nat, d: Detection): Batch
  {
    if b.crashed then b
    else if CropIsEmpty(d.box, width, height) then b.(plateCounter := b.plateCounter + 1, crashed := true)
    else
      var counter := b.plateCounter + 1;
      b.(present := true,
         lines := b.lines + [layout.row(b.lastId, b.plateCounter, d)],
         lastId := b.lastId + 1,
         plateCounter := counter,
         plates := b.plates[layout.plateName(d, counter) := Crop(ImageFrame, b.drawn, d.box)],
         drawn := b.drawn + [d.box])
  }

  /** The row a detection appends when `last_id` and `plate_counter` stood at `lastId` and `counter`. */
  function StepRow(lastId: int, counter: nat, originalName: string, d: Detection): (r: Row)
    ensures |r| == |FieldNames|
  {
    RecordRow(lastId + 1, DateText(d.rowAt), TimeText(d.rowAt), BatchText(d.texts), PlateFilename(d.stampAt, counter + 1), originalName)
  }

  /** The script's layout, for the run whose original image is `originalName`. */
  function ScriptLayout(originalName: string): Layout
  {
    Layout((d: Detection, counter: nat) => PlateFilename(d.stampAt, counter),
           (lastId: int, counter: nat, d: Detection) => StepRow(lastId, counter, originalName, d))
  }

  function BatchRun(b: Batch, layout: Layout, width: nat, height: nat, dets: seq<Detection>): Batch
    decreases |dets|
  {
    if dets == [] then b
    else BatchStep(BatchRun(b, layout, width, height, dets[..|dets| - 1]), layout, width, height, dets[|dets| - 1])
  }

  /** The state before the loop. */
  function StartBatch(present: bool, lines: seq<Row>, plates: map<string, Image>): Batch
  {
    Batch(present, lines, InitialLastId(present, lines), 0, plates, [], false)
  }

  /** The whole loop, for an image `width` by `height` whose original was saved at `startAt`. */
  function Script(present: bool, lines: seq<Row>, plates: map<string, Image>, width: nat, height: nat,
                  startAt: DateTime, dets: seq<Detection>): Batch
  {
    BatchRun(StartBatch(present, lines, plates), ScriptLayout(OriginalFilename(startAt)), width, height, dets)
  }

  /** How many detections are recorded: those before the first empty crop. */
  function Reached(dets: seq<Detection>, width: nat, height: nat): (n: nat)
    ensures n <= |dets|
    ensures forall i :: 0 <= i < n ==> !CropIsEmpty(dets[i].box, width, height)
    ensures n < |dets| ==> CropIsEmpty(dets[n].box, width, height)
    decreases |dets|
  {
    if dets == [] then 0
    else
      var k := |dets| - 1;
      var m := Reached(dets[..k], width, height);
      if m < k then m
      else if CropIsEmpty(dets[k].box, width, height) then k
      else |dets|
  }

  lemma StepRowId(lastId: int, counter: nat, originalName: string, d: Detection)
    ensures FirstFieldId(StepRow(lastId, counter, originalName, d)) == Some(lastId + 1)
  {
    RecordRowId(lastId + 1, DateText(d.rowAt), TimeText(d.rowAt), BatchText(d.texts), PlateFilename(d.stampAt, counter + 1), originalName);
  }

  /**
   * The rows a run appends while no crop is empty: one per detection, in order, the ids
   * and plate counters running on from `lastId` and `counter`.
   */
  function BatchRows(rowOf: RowMaker, lastId: int, counter: nat, dets: seq<Detection>): (rows: seq<Row>)
    ensures |rows| == |dets|
    decreases |dets|
  {
    if dets == [] then []
    else
      var k := |dets| - 1;
      BatchRows(rowOf, lastId, counter, dets[..k]) + [rowOf(lastId + k, counter + k, dets[k])]
  }

  lemma BatchRowsSnoc(rowOf: RowMaker, lastId: int, counter: nat, dets: seq<Detection>, k: nat)
    requires k < |dets|
    ensures BatchRows(rowOf, lastId, counter, dets[..k + 1])
      == BatchRows(rowOf, lastId, counter, dets[..k]) + [rowOf(lastId + k, counter + k, dets[k])]
  {
    var s := dets[..k + 1];
    assert s[..k] == dets[..k];
    assert s[k] == dets[k];
  }

  lemma {:induction false} BatchRowsAt(rowOf: RowMaker, lastId: int, counter: nat, dets: seq<Detection>, j: nat)
    requires j < |dets|
    ensures BatchRows(rowOf, lastId, counter, dets)[j] == rowOf(lastId + j, counter + j, dets[j])
    decreases |dets|
  {
    var k := |dets| - 1;
    if j < k {
      BatchRowsAt(rowOf, lastId, counter, dets[..k], j);
      assert dets[..k][j] == dets[j];
    }
  }

  /**
   * The `j`-th row the script appends: id `last_id + 1 + j`, the plate image numbered
   * `plate_counter + 1 + j`, and the one original image of the run.
   */
  lemma BatchRowFields(originalName: string, lastId: int, counter: nat, dets: seq<Detection>, j: nat)
    requires j < |dets|
    ensures var r := BatchRows(ScriptLayout(originalName).row, lastId, counter, dets)[j];
      && |r| == |FieldNames|
      && r[4] == PlateFilename(dets[j].stampAt, counter + j + 1)
      && r[5] == originalName
  {
    BatchRowsAt(ScriptLayout(originalName).row, lastId, counter, dets, j);
    StepRowNames(lastId + j, counter + j, originalName, dets[j]);
  }

  /** The `j`-th row the script appends reads back as id `last_id + 1 + j`. */
  lemma BatchRowId(originalName: string, lastId: int, counter: nat, dets: seq<Detection>, j: nat)
    requires j < |dets|
    ensures FirstFieldId(BatchRows(ScriptLayout(originalName).row, lastId, counter, dets)[j]) == Some(lastId + j + 1)
  {
    BatchRowsAt(ScriptLayout(originalName).row, lastId, counter, dets, j);
    StepRowId(lastId + j, counter + j, originalName, dets[j]);
  }

  /**
   * The `j`-th row the script appends also holds the date and time of that detection's
   * own clock reading and its plate text, `N/A` when OCR read nothing.
   */
  lemma BatchRowText(originalName: string, lastId: int, counter: nat, dets: seq<Detection>, j: nat)
    requires j < |dets|
    ensures var r := BatchRows(ScriptLayout(originalName).row, lastId, counter, dets)[j];
      && |r| == |FieldNames|
      && r[1] == DateText(dets[j].rowAt) && r[2] == TimeText(dets[j].rowAt)
      && r[3] == BatchText(dets[j].texts) && r[3] != ""
  {
    BatchRowsAt(ScriptLayout(originalName).row, lastId, counter, dets, j);
    StepRowFields(lastId + j, counter + j, originalName, dets[j]);
  }

  lemma StepRowFields(lastId: int, counter: nat, originalName: string, d: Detection)
    ensures var r := StepRow(lastId, counter, originalName, d);
      && r[1] == DateText(d.rowAt) && r[2] == TimeText(d.rowAt)
      && r[3] == BatchText(d.texts) && r[4] == PlateFilename(d.stampAt, counter + 1)
      && r[5] == originalName
  {
  }

  lemma StepRowNames(lastId: int, counter: nat, originalName: string, d: Detection)
    ensures var r := StepRow(lastId, counter, originalName, d);
      r[4] == PlateFilename(d.stampAt, counter + 1) && r[5] == originalName
  {
  }

  /** The state after the first `n` detections were recorded and none crashed. */
  ghost predicate RecordedUpTo(b: Batch, layout: Layout, dets: seq<Detection>, n: nat, t: Batch)
    requires n <= |dets|
  {
    && t.lines == b.lines + BatchRows(layout.row, b.lastId, b.plateCounter, dets[..n])
    && t.lastId == b.lastId + n
    && t.drawn == b.drawn + Boxes(dets[..n])
  }

  function Boxes(dets: seq<Detection>): (boxes: seq<Box>)
    ensures |boxes| == |dets|
    ensures forall i :: 0 <= i < |dets| ==> boxes[i] == dets[i].box
  {
    seq(|dets|, i requires 0 <= i < |dets| => dets[i].box)
  }

  /** What a detection that is recorded does to the state. */
  lemma StepRecords(b: Batch, layout: Layout, width: nat, height: nat, d: Detection)
    requires !b.crashed && !CropIsEmpty(d.box, width, height)
    ensures var u := BatchStep(b, layout, width, height, d);
      && u.lines == b.lines + [layout.row(b.lastId, b.plateCounter, d)]
      && u.lastId == b.lastId + 1 && u.plateCounter == b.plateCounter + 1
      && u.drawn == b.drawn + [d.box] && !u.crashed && u.present
      && u.plates == b.plates[layout.plateName(d, b.plateCounter + 1) := Crop(ImageFrame, b.drawn, d.box)]
  {
  }

  lemma BoxesSnoc(dets: seq<Detection>, k: nat)
    requires k < |dets|
    ensures Boxes(dets[..k + 1]) == Boxes(dets[..k]) + [dets[k].box]
  {
    assert dets[..k + 1] == dets[..k] + [dets[k]];
  }

  lemma RecordOneMore(b: Batch, layout: Layout, width: nat, height: nat, dets: seq<Detection>, k: nat, t: Batch)
    requires k < |dets| && !t.crashed && !CropIsEmpty(dets[k].box, width, height)
    requires RecordedUpTo(b, layout, dets, k, t) && t.plateCounter == b.plateCounter + k
    ensures var u := BatchStep(t, layout, width, height, dets[k]);
      RecordedUpTo(b, layout, dets, k + 1, u) && u.plateCounter == b.plateCounter + k + 1 && !u.crashed
  {
    var u := BatchStep(t, layout, width, height, dets[k]);
    StepRecords(t, layout, width, height, dets[k]);
    var rows := BatchRows(layout.row, b.lastId, b.plateCounter, dets[..k]);
    var row := layout.row(b.lastId + k, b.plateCounter + k, dets[k]);
    assert u.lines == t.lines + [row];
    BatchRowsSnoc(layout.row, b.lastId, b.plateCounter, dets, k);
    assert (b.lines + rows) + [row] == b.lines + (rows + [row]);
    BoxesSnoc(dets, k);
    assert (b.drawn + Boxes(dets[..k])) + [dets[k].box] == b.drawn + (Boxes(dets[..k]) + [dets[k].box]);
  }

  /**
   * The run in closed form: the detections before the first empty crop are recorded, in
   * order, as the rows `BatchRows` after the existing lines; the run crashed exactly when
   * some crop was empty, and then nothing after it was recorded.
   */
  ghost predicate ClosedForm(b: Batch, layout: Layout, width: nat, height: nat, dets: seq<Detection>, t: Batch)
  {
    var n := Reached(dets, width, height);
    && (t.crashed <==> n < |dets|)
    && RecordedUpTo(b, layout, dets, n, t)
    && t.plateCounter == b.plateCounter + n + (if t.crashed then 1 else 0)
  }

  /** The run only ever adds lines, and once it has added one the file exists. */
  lemma {:induction false} WrittenFileExists(b: Batch, layout: Layout, width: nat, height: nat, dets: seq<Detection>)
    ensures var t := BatchRun(b, layout, width, height, dets);
      |t.lines| >= |b.lines| && (|t.lines| > |b.lines| ==> t.present)
    decreases |dets|
  {
    if dets != [] {
      WrittenFileExists(b, layout, width, height, dets[..|dets| - 1]);
    }
  }

  /** The closed form carries over from all detections but the last to all of them. */
  lemma ClosedFormStep(b: Batch, layout: Layout, width: nat, height: nat, dets: seq<Detection>)
    requires !b.crashed && dets != []
    requires ClosedForm(b, layout, width, height, dets[..|dets| - 1], BatchRun(b, layout, width, height, dets[..|dets| - 1]))
    ensures ClosedForm(b, layout, width, height, dets, BatchRun(b, layout, width, height, dets))
  {
    var k := |dets| - 1;
    var prefix := dets[..k];
    var before := BatchRun(b, layout, width, height, prefix);
    BatchRunSnoc(b, layout, width, height, dets);
    var m := Reached(prefix, width, height);
    assert prefix[..m] == dets[..m];
    if !before.crashed && !CropIsEmpty(dets[k].box, width, height) {
      RecordOneMore(b, layout, width, height, dets, k, before);
    }
  }

  lemma {:induction false} BatchRunClosedForm(b: Batch, layout: Layout, width: nat, height: nat, dets: seq<Detection>)
    requires !b.crashed
    ensures ClosedForm(b, layout, width, height, dets, BatchRun(b, layout, width, height, dets))
    decreases |dets|
  {
    if dets == [] {
      assert b.lines + [] == b.lines;
      assert b.drawn + [] == b.drawn;
    } else {
      BatchRunClosedForm(b, layout, width, height, dets[..|dets| - 1]);
      ClosedFormStep(b, layout, width, height, dets);
    }
  }

  /** Every row `rowOf` lays out is six fields wide and names the plate image numbered by its new counter. */
  ghost predicate NamesPlateByCounter(rowOf: RowMaker)
  {
    forall lastId: int, counter: nat, d: Detection ::
      |rowOf(lastId, counter, d)| == |FieldNames| && PlateCounterText(rowOf(lastId, counter, d)[4]) == NatToString(counter + 1)
  }

  lemma ScriptNamesPlateByCounter(originalName: string)
    ensures NamesPlateByCounter(ScriptLayout(originalName).row)
  {
    forall lastId: int, counter: nat, d: Detection
      ensures PlateCounterText(StepRow(lastId, counter, originalName, d)[4]) == NatToString(counter + 1)
    {
      PlateCounterTextOf(d.stampAt, counter + 1);
    }
  }

  /** Every row `rowOf` lays out is six fields wide and reads back as the next id. */
  ghost predicate NumbersRowsById(rowOf: RowMaker)
  {
    forall lastId: int, counter: nat, d: Detection ::
      |rowOf(lastId, counter, d)| == |FieldNames| && FirstFieldId(rowOf(lastId, counter, d)) == Some(lastId + 1)
  }

  lemma ScriptNumbersRowsById(originalName: string)
    ensures NumbersRowsById(ScriptLayout(originalName).row)
  {
    forall lastId: int, counter: nat, d: Detection
      ensures FirstFieldId(StepRow(lastId, counter, originalName, d)) == Some(lastId + 1)
    {
      StepRowId(lastId, counter, originalName, d);
    }
  }

  /** With such a layout, no two rows of a run name the same plate image. */
  lemma RowsNamePlatesApart(rowOf: RowMaker, lastId: int, counter: nat, dets: seq<Detection>, i: nat, j: nat)
    requires NamesPlateByCounter(rowOf) && i < j < |dets|
    ensures var rows := BatchRows(rowOf, lastId, counter, dets);
      |rows[i]| == |rows[j]| == |FieldNames| && rows[i][4] != rows[j][4]
  {
    BatchRowsAt(rowOf, lastId, counter, dets, i);
    BatchRowsAt(rowOf, lastId, counter, dets, j);
    var rows := BatchRows(rowOf, lastId, counter, dets);
    if rows[i][4] == rows[j][4] {
      NatToStringInjective(counter + i + 1, counter + j + 1);
    }
  }

  /** Every row the script records names a different plate image. */
  lemma BatchPlateNamesDistinct(originalName: string, lastId: int, counter: nat, dets: seq<Detection>, i: nat, j: nat)
    requires i < j < |dets|
    ensures var rows := BatchRows(ScriptLayout(originalName).row, lastId, counter, dets);
      |rows[i]| == |rows[j]| == |FieldNames| && rows[i][4] != rows[j][4]
  {
    ScriptNamesPlateByCounter(originalName);
    RowsNamePlatesApart(ScriptLayout(originalName).row, lastId, counter, dets, i, j);
  }

  /** After a step of the script, the counter agrees with a fresh scan of the file, as it did before. */
  lemma BatchStepKeepsSync(b: Batch, originalName: string, width: nat, height: nat, d: Detection)
    requires |b.lines| >= 1 && b.lastId == LastIdOf(b.lines)
    ensures var t := BatchStep(b, ScriptLayout(originalName), width, height, d);
      |t.lines| >= 1 && t.lastId == LastIdOf(t.lines)
  {
    if !b.crashed && !CropIsEmpty(d.box, width, height) {
      StepRowId(b.lastId, b.plateCounter, originalName, d);
      LastIdAfterAppend(b.lines, StepRow(b.lastId, b.plateCounter, originalName, d), b.lastId + 1);
    }
  }

  lemma {:induction false} BatchRunKeepsSync(b: Batch, originalName: string, width: nat, height: nat, dets: seq<Detection>)
    requires |b.lines| >= 1 && b.lastId == LastIdOf(b.lines)
    ensures var t := BatchRun(b, ScriptLayout(originalName), width, height, dets);
      |t.lines| >= 1 && t.lastId == LastIdOf(t.lines)
    decreases |dets|
  {
    if dets != [] {
      var k := |dets| - 1;
      BatchRunKeepsSync(b, originalName, width, height, dets[..k]);
      BatchStepKeepsSync(BatchRun(b, ScriptLayout(originalName), width, height, dets[..k]), originalName, width, height, dets[k]);
    }
  }

  lemma BatchRunSnoc(b: Batch, layout: Layout, width: nat, height: nat, dets: seq<Detection>)
    requires dets != []
    ensures var n := |dets| - 1;
      BatchRun(b, layout, width, height, dets) == BatchStep(BatchRun(b, layout, width, height, dets[..n]), layout, width, height, dets[n])
  {
  }

  /** A crashed run stays as it was whatever detections follow. */
  lemma {:induction false} CrashedStays(b: Batch, layout: Layout, width: nat, height: nat, dets: seq<Detection>, k: nat)
    requires k <= |dets|
    requires BatchRun(b, layout, width, height, dets[..k]).crashed
    ensures BatchRun(b, layout, width, height, dets) == BatchRun(b, layout, width, height, dets[..k])
    decreases |dets|
  {
    if k < |dets| {
      var n := |dets| - 1;
      assert dets[..n][..k] == dets[..k];
      CrashedStays(b, layout, width, height, dets[..n], k);
      BatchRunSnoc(b, layout, width, height, dets);
    } else {
      assert dets[..k] == dets;
    }
  }

  /** The body of `for det in detections`, for a run that has not crashed yet. */
  method ProcessDetection(csv: PlatesFile, plates: ImageFolder, originalName: string, width: nat, height: nat,
                          lastId: int, plateCounter: nat, drawn: seq<Box>, d: Detection)
    returns (lastId': int, plateCounter': nat, drawn': seq<Box>, crashed: bool)
    requires csv.Valid()
    modifies csv, plates
    ensures csv.Valid()
    ensures Batch(csv.present, csv.lines, lastId', plateCounter', plates.files, drawn', crashed)
      == BatchStep(Batch(old(csv.present), old(csv.lines), lastId, plateCounter, old(plates.files), drawn, false),
                   ScriptLayout(originalName), width, height, d)
  {
    ghost var before := Batch(csv.present, csv.lines, lastId, plateCounter, plates.files, drawn, false);
    plateCounter' := plateCounter + 1;
    if CropIsEmpty(d.box, width, height) {
      return lastId, plateCounter', drawn, true;
    }
    StepRecords(before, ScriptLayout(originalName), width, height, d);
    var plateName := PlateFilename(d.stampAt, plateCounter');
    plates.Save(plateName, Crop(ImageFrame, drawn, d.box));
    var text := BatchText(d.texts);
    var dt := DateAndTime(d.rowAt);
    lastId' := lastId + 1;
    csv.AppendRow(RecordRow(lastId', dt.0, dt.1, text, plateName, originalName));
    assert csv.lines == before.lines + [StepRow(before.lastId, before.plateCounter, originalName, d)];
    drawn' := drawn + [d.box];
    crashed := false;
  }

  /** `for det in detections`, from `last_id` = `lastId`; stops at the first crash. */
  method ProcessDetections(csv: PlatesFile, plates: ImageFolder, originalName: string, width: nat, height: nat,
                           lastId: int, dets: seq<Detection>)
    returns (crashed: bool, drawn: seq<Box>)
    requires csv.Valid()
    modifies csv, plates
    ensures csv.Valid()
    ensures var t := BatchRun(Batch(old(csv.present), old(csv.lines), lastId, 0, old(plates.files), [], false),
                              ScriptLayout(originalName), width, height, dets);
      && crashed == t.crashed && drawn == t.drawn
      && csv.present == t.present && csv.lines == t.lines && plates.files == t.plates
  {
    ghost var start := Batch(csv.present, csv.lines, lastId, 0, plates.files, [], false);
    var id := lastId;
    var plateCounter: nat := 0;
    drawn := [];
    crashed := false;
    var i := 0;
    while i < |dets| && !crashed
      invariant 0 <= i <= |dets| && csv.Valid()
      invariant BatchRun(start, ScriptLayout(originalName), width, height, dets[..i])
        == Batch(csv.present, csv.lines, id, plateCounter, plates.files, drawn, crashed)
    {
      assert dets[..i + 1][..i] == dets[..i];
      BatchRunSnoc(start, ScriptLayout(originalName), width, height, dets[..i + 1]);
      assert dets[..i + 1][i] == dets[i];
      id, plateCounter, drawn, crashed := ProcessDetection(csv, plates, originalName, width, height, id, plateCounter, drawn, dets[i]);
      i := i + 1;
    }
    if crashed {
      CrashedStays(start, ScriptLayout(originalName), width, height, dets, i);
    } else {
      assert dets[..i] == dets;
    }
  }

  /**
   * The script for one image `width` by `height`. `startAt` is when the original is saved,
   * each detection carries its own two clock readings, and `endAt` is when the result is
   * saved. Returns whether `cv2.imwrite` raised on an empty crop.
   */
  method RunBatch(csv: PlatesFile, plates: ImageFolder, originals: ImageFolder, results: ImageFolder,
                  width: nat, height: nat, startAt: DateTime, dets: seq<Detection>, endAt: DateTime)
    returns (crashed: bool)
    requires csv.Valid()
    requires plates != originals && plates != results && originals != results
    modifies csv, plates, originals, results
    ensures csv.Valid()
    ensures originals.files == old(originals.files)[OriginalFilename(startAt) := Whole(ImageFrame, [])]
    ensures var t := Script(old(csv.present), old(csv.lines), old(plates.files), width, height, startAt, dets);
      && crashed == t.crashed
      && csv.present == t.present && csv.lines == t.lines && plates.files == t.plates
      && results.files == if crashed then old(results.files)
                          else old(results.files)[ResultFilename(endAt) := Whole(ImageFrame, t.drawn)]
  {
    var originalName := OriginalFilename(startAt);
    originals.Save(originalName, Whole(ImageFrame, []));
    var lastId := -1;
    if csv.present {
      lastId := ScanLastId(csv.lines);
    }
    assert lastId == InitialLastId(old(csv.present), old(csv.lines));
    var drawn;
    crashed, drawn := ProcessDetections(csv, plates, originalName, width, height, lastId, dets);
    if !crashed {
      results.Save(ResultFilename(endAt), Whole(ImageFrame, drawn));
    }
  }
}
