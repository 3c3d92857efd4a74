/**
 * How the record store reads what the ingestion scripts write. Neither script writes a
 * header into a file it creates by appending, while the listing always consumes the
 * first line as one.
 */
module CrossProcess {
  import opened Wrappers
  import opened PyText
  import opened Clock
  import opened Archive
  import opened PlatesCsv
  import opened PlateApi
  import opened ApiProperties
  import opened BatchIngest

  /** Rows listed one record each, in order, stay so when a six-field line with the next id follows them. */
  lemma ListingReadableStep(rows: seq<Row>, first: int)
    requires rows != []
    requires var init := rows[..|rows| - 1];
      && Listing(init).Ok? && |Listing(init).value| == |init|
      && (forall k :: 0 <= k < |init| ==> |init[k]| == 6 && Listing(init).value[k] == ToRecord(first + k, init[k]))
    requires |rows[|rows| - 1]| == 6 && FirstFieldId(rows[|rows| - 1]) == Some(first + |rows| - 1)
    ensures Listing(rows).Ok? && |Listing(rows).value| == |rows|
    ensures forall k :: 0 <= k < |rows| ==> |rows[k]| == 6 && Listing(rows).value[k] == ToRecord(first + k, rows[k])
  {
    var n := |rows| - 1;
    var init, r := rows[..n], rows[n];
    ListingLast(rows, first + n);
    var recs := Listing(init).value;
    var all := recs + [ToRecord(first + n, r)];
    forall k | 0 <= k < |rows|
      ensures |rows[k]| == 6 && all[k] == ToRecord(first + k, rows[k])
    {
      if k < n {
        assert init[k] == rows[k];
        assert all[k] == recs[k];
      }
    }
  }

  /** Six-field rows whose ids read `first`, `first + 1`, … are all listed, one record each, in order. */
  lemma {:induction false} ListingReadable(rows: seq<Row>, first: int)
    requires forall i :: 0 <= i < |rows| ==> |rows[i]| == 6 && FirstFieldId(rows[i]) == Some(first + i)
    ensures Listing(rows).Ok? && |Listing(rows).value| == |rows|
    ensures forall k :: 0 <= k < |rows| ==> Listing(rows).value[k] == ToRecord(first + k, rows[k])
    decreases |rows|
  {
    if rows != [] {
      var init := rows[..|rows| - 1];
      forall i | 0 <= i < |init|
        ensures |init[i]| == 6 && FirstFieldId(init[i]) == Some(first + i)
      {
        assert init[i] == rows[i];
      }
      ListingReadable(init, first);
      ListingReadableStep(rows, first);
    }
  }

  /** The `j`-th row of a layout that numbers rows by id is six fields wide and carries id `lastId + j + 1`. */
  lemma NumberedRow(rowOf: RowMaker, lastId: int, counter: nat, dets: seq<Detection>, j: nat)
    requires NumbersRowsById(rowOf) && j < |dets|
    ensures var r := BatchRows(rowOf, lastId, counter, dets)[j];
      |r| == 6 && FirstFieldId(r) == Some(lastId + j + 1)
  {
    BatchRowsAt(rowOf, lastId, counter, dets, j);
  }

  /**
   * Rows numbered from id 0, read as a whole file: the first is taken for the header
   * and the others are listed, in order.
   */
  lemma ListingAfterFirstRow(rowOf: RowMaker, counter: nat, dets: seq<Detection>)
    requires NumbersRowsById(rowOf) && |dets| >= 1
    ensures var rows := BatchRows(rowOf, -1, counter, dets);
      && FirstFieldId(rows[0]) == Some(0)
      && (forall i :: 0 <= i < |rows| ==> |rows[i]| == 6)
      && ListPlates(true, rows).Plates?
      && |ListPlates(true, rows).records| == |rows| - 1
      && (forall k :: 0 <= k < |rows| - 1 ==> ListPlates(true, rows).records[k] == ToRecord(k + 1, rows[k + 1]))
  {
    var rows := BatchRows(rowOf, -1, counter, dets);
    forall i | 0 <= i < |rows|
      ensures |rows[i]| == 6
    {
      NumberedRow(rowOf, -1, counter, dets, i);
    }
    NumberedRow(rowOf, -1, counter, dets, 0);
    var tail := rows[1..];
    forall k | 0 <= k < |tail|
      ensures |tail[k]| == 6 && FirstFieldId(tail[k]) == Some(1 + k)
    {
      assert tail[k] == rows[k + 1];
      NumberedRow(rowOf, -1, counter, dets, k + 1);
    }
    assert AfterHeader(rows) == tail;
    ListingReadable(tail, 1);
  }

  /**
   * A run of any layout that numbers its rows by id, on a file that does not exist,
   * creates the file holding exactly the rows it records, with no header line.
   */
  lemma HeaderlessRun(b: Batch, layout: Layout, width: nat, height: nat, dets: seq<Detection>)
    requires !b.present && b.lines == [] && b.lastId == -1 && !b.crashed
    requires Reached(dets, width, height) >= 1
    ensures var t := BatchRun(b, layout, width, height, dets);
      var n := Reached(dets, width, height);
      t.present && t.lines == BatchRows(layout.row, -1, b.plateCounter, dets[..n])
  {
    var n := Reached(dets, width, height);
    BatchRunClosedForm(b, layout, width, height, dets);
    WrittenFileExists(b, layout, width, height, dets);
    assert [] + BatchRows(layout.row, -1, b.plateCounter, dets[..n]) == BatchRows(layout.row, -1, b.plateCounter, dets[..n]);
  }

  /**
   * The single-image script run where `plates.csv` does not exist: the file it creates
   * starts with the first detection's row, so the listing takes that row for the header
   * and lists only the detections after it, ids 1, 2, …; the record with id 0 is never listed.
   */
  lemma HeaderlessRunListing(plates: map<string, Image>, width: nat, height: nat, startAt: DateTime, dets: seq<Detection>)
    requires Reached(dets, width, height) >= 1
    ensures var t := Script(false, [], plates, width, height, startAt, dets);
      var n := Reached(dets, width, height);
      && t.present && |t.lines| == n
      && FirstFieldId(t.lines[0]) == Some(0)
      && (forall i :: 0 <= i < n ==> |t.lines[i]| == 6)
      && ListPlates(t.present, t.lines).Plates?
      && |ListPlates(t.present, t.lines).records| == n - 1
      && (forall k :: 0 <= k < n - 1 ==> ListPlates(t.present, t.lines).records[k] == ToRecord(k + 1, t.lines[k + 1]))
  {
    var o := OriginalFilename(startAt);
    var n := Reached(dets, width, height);
    ScriptNumbersRowsById(o);
    HeaderlessRun(StartBatch(false, [], plates), ScriptLayout(o), width, height, dets);
    ListingAfterFirstRow(ScriptLayout(o).row, 0, dets[..n]);
  }
}
