/**
 * `plates.csv`, the record store both pipelines append to and the web service rewrites.
 * A file is a sequence of parsed CSV lines (a blank line is the empty row); the first
 * line is the header. Reading and writing follow Python's `csv.DictReader`,
 * `csv.DictWriter` and `csv.reader` as the three source files use them.
 */
module PlatesCsv {
  import opened Wrappers
  import opened Seqs
  import opened PyText

  type Row = seq<string>

  /** The header the ingestion scripts write, and the field order of every row they append. */
  const FieldNames: Row := ["id", "date", "time", "plate", "plate_image", "original_image"]

  /** The file on disk: whether it exists, and its lines. */
  class PlatesFile {
    var present: bool
    var lines: seq<Row>

    ghost predicate Valid()
      reads this
    {
      present || lines == []
    }

    constructor (present: bool, lines: seq<Row>)
      requires present || lines == []
      ensures Valid() && this.present == present && this.lines == lines
    {
      this.present := present;
      this.lines := lines;
    }

    /** `open(csv_file, 'a')` and one `writerow`: the file is created if it is missing. */
    method AppendRow(row: Row)
      requires Valid()
      modifies this
      ensures Valid() && present && lines == old(lines) + [row]
    {
      present := true;
      lines := lines + [row];
    }

    /** `open(csv_file, 'w')` and `writeheader()`: the old content is gone. */
    method Truncate(header: Row)
      modifies this
      ensures Valid() && present && lines == [header]
    {
      present := true;
      lines := [header];
    }
  }

  predicate NonBlank(r: Row) { r != [] }

  /** The rows a `csv.DictReader` yields: every line after the header, blank lines skipped. */
  function DictRows(lines: seq<Row>): (rows: seq<Row>)
    ensures forall i :: 0 <= i < |rows| ==> rows[i] != []
  {
    if lines == [] then [] else FilterMembers(NonBlank, lines[1..]); Filter(NonBlank, lines[1..])
  }

  /** What `row[name]` gives: a `KeyError`, the `None` a too-short row is padded with, or a field. */
  datatype Cell = NoSuchKey | NoneValue | Text(text: string)

  /** The last column named `name`: `dict(zip(header, row))` keeps the last of equal keys. */
  function LastIndex(h: Row, name: string): (k: Option<nat>)
    ensures k.Some? ==> k.value < |h| && h[k.value] == name
    ensures k.Some? ==> forall j :: k.value < j < |h| ==> h[j] != name
    ensures k.None? <==> name !in h
  {
    if h == [] then None
    else if h[|h| - 1] == name then Some(|h| - 1)
    else LastIndex(h[..|h| - 1], name)
  }

  function Lookup(h: Row, r: Row, name: string): Cell
  {
    match LastIndex(h, name)
    case None => NoSuchKey
    case Some(k) => if k < |r| then Text(r[k]) else NoneValue
  }

  /** Why `int(row['id'])` raised: `KeyError`, `TypeError` on `None`, or `ValueError`. */
  datatype IdError = MissingIdColumn | MissingIdValue | InvalidId(text: string)

  /** `int(row['id'])` for a row read under header `h`. */
  function ReadId(h: Row, r: Row): Result<int, IdError>
  {
    match Lookup(h, r, "id")
    case NoSuchKey => Err(MissingIdColumn)
    case NoneValue => Err(MissingIdValue)
    case Text(s) =>
      match ParseInt(s)
      case None => Err(InvalidId(s))
      case Some(n) => Ok(n)
  }

  /** The exception the read loop of a handler stops at: the first row whose id cannot be read. */
  function FirstIdError(h: Row, rows: seq<Row>): Option<IdError>
    decreases |rows|
  {
    if rows == [] then None
    else
      match FirstIdError(h, rows[..|rows| - 1])
      case Some(e) => Some(e)
      case None =>
        var last := ReadId(h, rows[|rows| - 1]);
        if last.Err? then Some(last.error) else None
  }

  /** Reading one more row: an earlier exception stands, otherwise the new row decides. */
  lemma FirstIdErrorSnoc(h: Row, rows: seq<Row>, i: nat)
    requires i < |rows|
    ensures FirstIdError(h, rows[..i + 1])
      == if FirstIdError(h, rows[..i]).Some? then FirstIdError(h, rows[..i])
         else if ReadId(h, rows[i]).Err? then Some(ReadId(h, rows[i]).error)
         else None
  {
    assert rows[..i + 1][..i] == rows[..i];
  }

  /** Once a prefix has raised, the rest of the rows are never read. */
  lemma {:induction false} FirstIdErrorPrefix(h: Row, rows: seq<Row>, k: nat)
    requires k <= |rows| && FirstIdError(h, rows[..k]).Some?
    ensures FirstIdError(h, rows) == FirstIdError(h, rows[..k])
    decreases |rows|
  {
    if k < |rows| {
      var init := rows[..|rows| - 1];
      assert init[..k] == rows[..k];
      FirstIdErrorPrefix(h, init, k);
    } else {
      assert rows[..k] == rows;
    }
  }

  /** The read loop stops at row `i` when every earlier id was read and row `i`'s was not. */
  lemma FirstIdErrorAt(h: Row, rows: seq<Row>, i: nat)
    requires i < |rows| && ReadId(h, rows[i]).Err?
    requires FirstIdError(h, rows[..i]).None?
    ensures FirstIdError(h, rows) == Some(ReadId(h, rows[i]).error)
  {
    FirstIdErrorSnoc(h, rows, i);
    FirstIdErrorPrefix(h, rows, i + 1);
  }

  /** The read loop gets through all rows exactly when every id is readable. */
  lemma {:induction false} FirstIdErrorNone(h: Row, rows: seq<Row>)
    ensures FirstIdError(h, rows).None? <==> forall i :: 0 <= i < |rows| ==> ReadId(h, rows[i]).Ok?
    decreases |rows|
  {
    if rows != [] {
      var init := rows[..|rows| - 1];
      FirstIdErrorNone(h, init);
      assert forall i :: 0 <= i < |init| ==> init[i] == rows[i];
    }
  }

  /** A row as the handlers hand it to `DictWriter`: the row read, and possibly a new `'plate'` entry. */
  datatype RowDict = RowDict(fields: Row, plate: Option<string>)

  function AsRead(rows: seq<Row>): (ds: seq<RowDict>)
    ensures |ds| == |rows|
    ensures forall i :: 0 <= i < |rows| ==> ds[i] == RowDict(rows[i], None)
  {
    seq(|rows|, i requires 0 <= i < |rows| => RowDict(rows[i], None))
  }

  function CellText(c: Cell): string
  {
    match c
    case Text(s) => s
    case _ => ""
  }

  /**
   * `DictWriter.writerow`: `None` when the dict holds a key outside the header (the
   * surplus fields of a long row, or a `'plate'` the header lacks), which raises
   * `ValueError`; otherwise one field per header column, `None` written as empty.
   */
  function DictToRow(h: Row, d: RowDict): (r: Option<Row>)
    ensures r.Some? ==> |r.value| == |h|
  {
    if |d.fields| > |h| || (d.plate.Some? && "plate" !in h) then None
    else Some(seq(|h|, i requires 0 <= i < |h| =>
      if d.plate.Some? && h[i] == "plate" then d.plate.value else CellText(Lookup(h, d.fields, h[i]))))
  }

  /** The data lines `writerows` leaves in the file, and whether it finished without raising. */
  datatype Written = Written(rows: seq<Row>, complete: bool)

  function WriteRows(h: Row, ds: seq<RowDict>): (w: Written)
    ensures |w.rows| <= |ds|
    ensures w.complete ==> |w.rows| == |ds|
  {
    if ds == [] then Written([], true)
    else
      var w := WriteRows(h, ds[..|ds| - 1]);
      if !w.complete then w
      else match DictToRow(h, ds[|ds| - 1])
        case None => Written(w.rows, false)
        case Some(r) => Written(w.rows + [r], true)
  }

  lemma {:induction false} WriteRowsStopsAtFailure(h: Row, ds: seq<RowDict>, i: nat)
    requires i <= |ds| && !WriteRows(h, ds[..i]).complete
    ensures WriteRows(h, ds) == WriteRows(h, ds[..i])
    decreases |ds| - i
  {
    if i < |ds| {
      assert ds[..i + 1][..i] == ds[..i];
      WriteRowsStopsAtFailure(h, ds, i + 1);
    } else {
      assert ds[..i] == ds;
    }
  }

  /**
   * `with open(csv_file, 'w') ...: writer.writeheader(); writer.writerows(rows)`. A row
   * that raises stops the write; the header and the rows before it stay in the file.
   */
  method Rewrite(f: PlatesFile, h: Row, ds: seq<RowDict>) returns (complete: bool)
    modifies f
    ensures f.Valid() && f.present
    ensures f.lines == [h] + WriteRows(h, ds).rows
    ensures complete == WriteRows(h, ds).complete
  {
    f.Truncate(h);
    var i := 0;
    while i < |ds|
      invariant 0 <= i <= |ds|
      invariant f.Valid() && f.present
      invariant WriteRows(h, ds[..i]).complete
      invariant f.lines == [h] + WriteRows(h, ds[..i]).rows
    {
      assert ds[..i + 1][..i] == ds[..i];
      match DictToRow(h, ds[i]) {
        case None =>
          WriteRowsStopsAtFailure(h, ds, i + 1);
          return false;
        case Some(r) =>
          f.AppendRow(r);
      }
      i := i + 1;
    }
    assert ds[..i] == ds;
    return true;
  }

  /** No two header columns share a name. */
  predicate DistinctNames(h: Row)
  {
    forall i, j :: 0 <= i < j < |h| ==> h[i] != h[j]
  }

  /** Every row has exactly one field per header column, and the column names are distinct. */
  predicate Rectangular(h: Row, rows: seq<Row>)
  {
    DistinctNames(h) && forall i :: 0 <= i < |rows| ==> |rows[i]| == |h|
  }

  lemma LastIndexOfDistinct(h: Row, i: nat)
    requires DistinctNames(h) && i < |h|
    ensures LastIndex(h, h[i]) == Some(i)
  {
  }

  /** On a well-shaped file `DictWriter` writes back exactly the row `DictReader` read. */
  lemma WriteBackUnchanged(h: Row, r: Row)
    requires DistinctNames(h) && |r| == |h|
    ensures DictToRow(h, RowDict(r, None)) == Some(r)
  {
    var w := DictToRow(h, RowDict(r, None)).value;
    forall i | 0 <= i < |h|
      ensures w[i] == r[i]
    {
      LastIndexOfDistinct(h, i);
    }
    assert w == r;
  }

  /** With a `plate` column, a reassigned `'plate'` entry replaces exactly that field. */
  lemma WriteBackWithPlate(h: Row, r: Row, v: string, k: nat)
    requires DistinctNames(h) && |r| == |h|
    requires k < |h| && h[k] == "plate"
    ensures DictToRow(h, RowDict(r, Some(v))) == Some(r[k := v])
  {
    var w := DictToRow(h, RowDict(r, Some(v))).value;
    forall i | 0 <= i < |h|
      ensures w[i] == r[k := v][i]
    {
      LastIndexOfDistinct(h, i);
    }
    assert w == r[k := v];
  }

  lemma {:induction false} WriteRowsUnchanged(h: Row, rows: seq<Row>)
    requires Rectangular(h, rows)
    ensures WriteRows(h, AsRead(rows)) == Written(rows, true)
  {
    if rows != [] {
      var n := |rows| - 1;
      assert AsRead(rows)[..n] == AsRead(rows[..n]);
      WriteRowsUnchanged(h, rows[..n]);
      WriteBackUnchanged(h, rows[n]);
      assert rows[..n] + [rows[n]] == rows;
    }
  }

  /** `int(row[0])` in the last-id scans: `None` for a blank row or a non-integer first field. */
  function FirstFieldId(r: Row): Option<int>
  {
    if r == [] then None else ParseInt(r[0])
  }

  /** The largest integer first field of `rows`, or -1 when there is none. */
  function MaxFirstFieldId(rows: seq<Row>): (m: int)
    ensures m >= -1
    decreases |rows|
  {
    if rows == [] then -1
    else
      var m := MaxFirstFieldId(rows[..|rows| - 1]);
      match FirstFieldId(rows[|rows| - 1])
      case None => m
      case Some(v) => if v > m then v else m
  }

  /** Appending a row whose id exceeds the file's largest makes it the new largest. */
  lemma LastIdAfterAppend(lines: seq<Row>, row: Row, id: int)
    requires |lines| >= 1 && FirstFieldId(row) == Some(id) && id > LastIdOf(lines)
    ensures LastIdOf(lines + [row]) == id
  {
    var rows := lines[1..];
    assert (lines + [row])[1..] == rows + [row];
    assert (rows + [row])[..|rows|] == rows;
  }

  /** The scan's result bounds every integer first field and is -1 or one of them. */
  lemma {:induction false} MaxFirstFieldIdIsMaximum(rows: seq<Row>)
    ensures var m := MaxFirstFieldId(rows);
      && (forall i :: 0 <= i < |rows| && FirstFieldId(rows[i]).Some? ==> FirstFieldId(rows[i]).value <= m)
      && (m == -1 || exists i :: 0 <= i < |rows| && FirstFieldId(rows[i]) == Some(m))
  {
    if rows != [] {
      var n := |rows| - 1;
      var front := rows[..n];
      MaxFirstFieldIdIsMaximum(front);
      var m := MaxFirstFieldId(rows);
      var m0 := MaxFirstFieldId(front);
      var last := FirstFieldId(rows[n]);
      assert m == (if last.Some? && last.value > m0 then last.value else m0);
      forall i | 0 <= i < |rows| && FirstFieldId(rows[i]).Some?
        ensures FirstFieldId(rows[i]).value <= m
      {
        if i < n {
          assert rows[i] == front[i];
        }
      }
      if m != m0 {
        assert FirstFieldId(rows[n]) == Some(m);
      } else if m != -1 {
        var i :| 0 <= i < n && FirstFieldId(front[i]) == Some(m);
        assert rows[i] == front[i];
      }
    }
  }

  /** The start-up `last_id`: the header line is skipped, then the maximum is taken. */
  function LastIdOf(lines: seq<Row>): int
  {
    if lines == [] then -1 else MaxFirstFieldId(lines[1..])
  }

  /**
   * The start-up scan: `next(reader, None)` skips the header, then every row whose first
   * field `int()` accepts may raise `last_id`; blank and non-integer rows are skipped.
   */
  method ScanLastId(lines: seq<Row>) returns (lastId: int)
    ensures lastId == LastIdOf(lines)
    ensures lastId >= -1
    ensures forall i :: 1 <= i < |lines| && FirstFieldId(lines[i]).Some? ==> FirstFieldId(lines[i]).value <= lastId
    ensures lastId == -1 || exists i :: 1 <= i < |lines| && FirstFieldId(lines[i]) == Some(lastId)
  {
    lastId := -1;
    if lines == [] {
      return;
    }
    var i := 1;
    while i < |lines|
      invariant 1 <= i <= |lines|
      invariant lastId == MaxFirstFieldId(lines[1..i])
    {
      assert lines[1..i + 1][..i - 1] == lines[1..i];
      var rowId := FirstFieldId(lines[i]);
      if rowId.Some? && rowId.value > lastId {
        lastId := rowId.value;
      }
      i := i + 1;
    }
    assert lines[1..i] == lines[1..];
    ghost var rows := lines[1..];
    MaxFirstFieldIdIsMaximum(rows);
    assert forall k :: 1 <= k < |lines| ==> lines[k] == rows[k - 1];
    if lastId != -1 {
      ghost var k :| 0 <= k < |rows| && FirstFieldId(rows[k]) == Some(lastId);
      assert FirstFieldId(lines[k + 1]) == Some(lastId);
    }
  }

  /** The row the ingestion scripts append: `DictWriter(fieldnames=FieldNames).writerow({...})`. */
  function RecordRow(id: int, date: string, time: string, plate: string, plateImage: string, originalImage: string): (r: Row)
    ensures |r| == |FieldNames| && r[3] == plate && r[4] == plateImage && r[5] == originalImage
  {
    [IntToString(id), date, time, plate, plateImage, originalImage]
  }

  /** The id a row is written with is the id every reader of the file parses back. */
  lemma RecordRowId(id: int, date: string, time: string, plate: string, plateImage: string, originalImage: string)
    ensures FirstFieldId(RecordRow(id, date, time, plate, plateImage, originalImage)) == Some(id)
  {
    IntRoundTrip(id);
  }
}
