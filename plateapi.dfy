/**
 * The web service's record-store handlers: bulk delete, update of the plate text,
 * single delete, and listing. Each mutating handler reads `plates.csv` through a
 * `DictReader`, builds the rows to keep in a loop, and rewrites the whole file;
 * every early exit leaves the file as it was.
 */
module PlateApi {
  import opened Wrappers
  import opened Seqs
  import opened PyText
  import opened PlatesCsv

  /**
   * The body of a bulk-delete request: an object whose `ids` entry (`[]` when absent)
   * is a list of integers, an object whose `ids` entry is something else, or a body
   * that is not a JSON object at all (`request.json.get` then raises).
   */
  datatype IdsPayload = IdList(ids: seq<int>) | NotAList | NotAnObject

  /** What went wrong behind a 500 (or behind the error body of a listing). */
  datatype Failure = BodyUnreadable | FileMissing | UnreadableId(cause: IdError) | WriteFailed

  /** One listed sighting, the JSON object `get_plates` builds. */
  datatype PlateRecord = PlateRecord(id: int, date: string, time: string, plate: string, plateImage: string, originalImage: string)

  datatype Reply =
    | PlatesDeleted(deleted: set<int>)
    | PlateUpdated(updatedId: int)
    | PlateDeleted(deletedId: int)
    | Plates(records: seq<PlateRecord>)
    | ListingFailed(why: Failure)
    | InvalidInput
    | NoPlateValue
    | PlateNotFound
    | HeaderMissing
    | ServerError(reason: Failure)

  /** The HTTP status of a reply; a failed listing is still sent with the default 200. */
  function Status(r: Reply): int
  {
    match r
    case PlatesDeleted(_) => 200
    case PlateUpdated(_) => 200
    case PlateDeleted(_) => 200
    case Plates(_) => 200
    case ListingFailed(_) => 200
    case InvalidInput => 400
    case NoPlateValue => 400
    case PlateNotFound => 404
    case HeaderMissing => 500
    case ServerError(_) => 500
  }

  /** A handler's reply and the lines of `plates.csv` afterwards. */
  datatype Outcome = Outcome(reply: Reply, lines: seq<Row>)

  /** The ids the rows carry, as `int(row['id'])` reads them. */
  function StoredIds(h: Row, rows: seq<Row>): set<int>
  {
    if rows == [] then {}
    else StoredIds(h, rows[..|rows| - 1]) + IdOf(h, rows[|rows| - 1])
  }

  /** The id a row carries, as a set: empty when `int()` cannot read it. */
  function IdOf(h: Row, r: Row): set<int>
  {
    if ReadId(h, r).Ok? then {ReadId(h, r).value} else {}
  }

  function SetOf(ids: seq<int>): set<int>
  {
    set i | i in ids
  }

  /** A row whose id is one of the requested ones. */
  predicate Requested(h: Row, ids: seq<int>, r: Row)
  {
    ReadId(h, r).Ok? && ReadId(h, r).value in ids
  }

  function Survives(h: Row, ids: seq<int>): Row -> bool
  {
    r => !Requested(h, ids, r)
  }

  /** A row carrying id `plateId`. */
  function Carries(h: Row, plateId: int): Row -> bool
  {
    r => ReadId(h, r) == Ok(plateId)
  }

  function Unmatched(h: Row, plateId: int): Row -> bool
  {
    r => ReadId(h, r) != Ok(plateId)
  }

  /** The rows handed to `DictWriter` by the update: a `'plate'` entry set on every matching row. */
  function Retagged(h: Row, rows: seq<Row>, plateId: int, v: string): (ds: seq<RowDict>)
    ensures |ds| == |rows|
  {
    seq(|rows|, i requires 0 <= i < |rows| =>
      RowDict(rows[i], if ReadId(h, rows[i]) == Ok(plateId) then Some(v) else None))
  }

  /** Writes `ds` after header `h`, answering `success` unless a row raises. */
  function RewriteOutcome(h: Row, ds: seq<RowDict>, success: Reply): Outcome
  {
    var w := WriteRows(h, ds);
    Outcome(if w.complete then success else ServerError(WriteFailed), [h] + w.rows)
  }

  /** `POST /api/delete-multiple`. */
  function DeleteMultiple(present: bool, lines: seq<Row>, payload: IdsPayload): (o: Outcome)
    ensures payload.NotAList? ==> o == Outcome(InvalidInput, lines)
    ensures o.reply.PlatesDeleted? ==> payload.IdList? && o.reply.deleted <= SetOf(payload.ids)
    ensures Status(o.reply) != 200 && o.reply != ServerError(WriteFailed) ==> o.lines == lines
  {
    if payload.NotAnObject? then Outcome(ServerError(BodyUnreadable), lines)
    else if payload.NotAList? then Outcome(InvalidInput, lines)
    else if !present then Outcome(ServerError(FileMissing), lines)
    else if lines == [] then Outcome(HeaderMissing, lines)
    else
      var h, rows := lines[0], DictRows(lines);
      match FirstIdError(h, rows)
      case Some(e) => Outcome(ServerError(UnreadableId(e)), lines)
      case None =>
        RewriteOutcome(h, AsRead(Filter(Survives(h, payload.ids), rows)),
          PlatesDeleted(StoredIds(h, rows) * SetOf(payload.ids)))
  }

  /** `PUT /api/plates/<plate_id>` with JSON field `plate` (`None` when it is absent or null). */
  function UpdatePlate(present: bool, lines: seq<Row>, plateId: int, newPlate: Option<string>): (o: Outcome)
    ensures (newPlate.None? || newPlate.value == "") ==> o == Outcome(NoPlateValue, lines)
    ensures o.reply.PlateUpdated? ==> o.reply.updatedId == plateId
    ensures Status(o.reply) != 200 && o.reply != ServerError(WriteFailed) ==> o.lines == lines
  {
    if newPlate.None? || newPlate.value == "" then Outcome(NoPlateValue, lines)
    else if !present then Outcome(ServerError(FileMissing), lines)
    else if lines == [] || lines[0] == [] then Outcome(HeaderMissing, lines)
    else
      var h, rows := lines[0], DictRows(lines);
      match FirstIdError(h, rows)
      case Some(e) => Outcome(ServerError(UnreadableId(e)), lines)
      case None =>
        if plateId !in StoredIds(h, rows) then Outcome(PlateNotFound, lines)
        else RewriteOutcome(h, Retagged(h, rows, plateId, newPlate.value), PlateUpdated(plateId))
  }

  /** `DELETE /api/plates/<plate_id>`. */
  function DeletePlate(present: bool, lines: seq<Row>, plateId: int): (o: Outcome)
    ensures o.reply.PlateDeleted? ==> o.reply.deletedId == plateId
    ensures Status(o.reply) != 200 && o.reply != ServerError(WriteFailed) ==> o.lines == lines
  {
    if !present then Outcome(ServerError(FileMissing), lines)
    else if lines == [] then Outcome(HeaderMissing, lines)
    else
      var h, rows := lines[0], DictRows(lines);
      match FirstIdError(h, rows)
      case Some(e) => Outcome(ServerError(UnreadableId(e)), lines)
      case None =>
        if plateId !in StoredIds(h, rows) then Outcome(PlateNotFound, lines)
        else RewriteOutcome(h, AsRead(Filter(Unmatched(h, plateId), rows)), PlateDeleted(plateId))
  }

  /** The six fields of a row, positionally: `id_, date, time, plate, plate_image, original_image = row`. */
  function ToRecord(id: int, r: Row): PlateRecord
    requires |r| == 6
  {
    PlateRecord(id, r[1], r[2], r[3], r[4], r[5])
  }

  /**
   * The records listed from `rows` in file order, rows without exactly six fields
   * skipped, or the first id text `int()` rejects.
   */
  function Listing(rows: seq<Row>): Result<seq<PlateRecord>, string>
    decreases |rows|
  {
    if rows == [] then Ok([])
    else
      match Listing(rows[..|rows| - 1])
      case Err(t) => Err(t)
      case Ok(recs) =>
        var r := rows[|rows| - 1];
        if |r| != 6 then Ok(recs)
        else
          match ParseInt(r[0])
          case None => Err(r[0])
          case Some(id) => Ok(recs + [ToRecord(id, r)])
  }

  /** The lines after the one `next(reader, None)` consumes as the header. */
  function AfterHeader(lines: seq<Row>): seq<Row>
  {
    if lines == [] then [] else lines[1..]
  }

  /** `GET /api/plates`. */
  function ListPlates(present: bool, lines: seq<Row>): (r: Reply)
    ensures Status(r) == 200
  {
    if !present then ListingFailed(FileMissing)
    else
      match Listing(AfterHeader(lines))
      case Err(t) => ListingFailed(UnreadableId(InvalidId(t)))
      case Ok(recs) => Plates(recs)
  }

  lemma StoredIdsSnoc(h: Row, rows: seq<Row>, i: nat)
    requires i < |rows|
    ensures StoredIds(h, rows[..i + 1]) == StoredIds(h, rows[..i]) + IdOf(h, rows[i])
  {
    assert rows[..i + 1][..i] == rows[..i];
  }

  lemma RetaggedSnoc(h: Row, rows: seq<Row>, plateId: int, v: string, i: nat)
    requires i < |rows|
    ensures Retagged(h, rows[..i + 1], plateId, v)
      == Retagged(h, rows[..i], plateId, v) + [RowDict(rows[i], if ReadId(h, rows[i]) == Ok(plateId) then Some(v) else None)]
  {
    var a, b := Retagged(h, rows[..i + 1], plateId, v), Retagged(h, rows[..i], plateId, v);
    assert forall k :: 0 <= k < i ==> a[k] == b[k];
  }

  /** The bulk-delete loop: rows whose id is not requested are kept, the requested ids met are collected. */
  method ScanBulkDelete(h: Row, rows: seq<Row>, ids: seq<int>) returns (err: Option<IdError>, kept: seq<Row>, deleted: set<int>)
    ensures err == FirstIdError(h, rows)
    ensures err.None? ==> kept == Filter(Survives(h, ids), rows)
    ensures err.None? ==> deleted == StoredIds(h, rows) * SetOf(ids)
  {
    kept, deleted := [], {};
    var i := 0;
    while i < |rows|
      invariant 0 <= i <= |rows|
      invariant FirstIdError(h, rows[..i]).None?
      invariant kept == Filter(Survives(h, ids), rows[..i])
      invariant deleted == StoredIds(h, rows[..i]) * SetOf(ids)
    {
      var row := rows[i];
      FilterSnocAt(Survives(h, ids), rows, i);
      StoredIdsSnoc(h, rows, i);
      FirstIdErrorSnoc(h, rows, i);
      var read := ReadId(h, row);
      if read.Err? {
        FirstIdErrorAt(h, rows, i);
        return Some(read.error), kept, deleted;
      }
      var id := read.value;
      if id !in ids {
        kept := kept + [row];
      } else {
        deleted := deleted + {id};
      }
      i := i + 1;
    }
    assert rows[..i] == rows;
    err := None;
  }

  /** The handler of `POST /api/delete-multiple`. */
  method HandleDeleteMultiple(f: PlatesFile, payload: IdsPayload) returns (reply: Reply)
    requires f.Valid()
    modifies f
    ensures f.Valid() && (f.present <==> old(f.present))
    ensures Outcome(reply, f.lines) == DeleteMultiple(old(f.present), old(f.lines), payload)
  {
    if payload.NotAnObject? {
      return ServerError(BodyUnreadable);
    }
    if payload.NotAList? {
      return InvalidInput;
    }
    if !f.present {
      return ServerError(FileMissing);
    }
    if f.lines == [] {
      return HeaderMissing;
    }
    var h, rows := f.lines[0], DictRows(f.lines);
    var err, kept, deleted := ScanBulkDelete(h, rows, payload.ids);
    if err.Some? {
      return ServerError(UnreadableId(err.value));
    }
    var complete := Rewrite(f, h, AsRead(kept));
    reply := if complete then PlatesDeleted(deleted) else ServerError(WriteFailed);
  }

  /** The update loop: every row is passed on, the matching ones with the new plate text. */
  method ScanUpdate(h: Row, rows: seq<Row>, plateId: int, v: string) returns (err: Option<IdError>, out: seq<RowDict>, updated: bool)
    ensures err == FirstIdError(h, rows)
    ensures err.None? ==> out == Retagged(h, rows, plateId, v)
    ensures err.None? ==> (updated <==> plateId in StoredIds(h, rows))
  {
    out, updated := [], false;
    var i := 0;
    while i < |rows|
      invariant 0 <= i <= |rows|
      invariant FirstIdError(h, rows[..i]).None?
      invariant out == Retagged(h, rows[..i], plateId, v)
      invariant updated <==> plateId in StoredIds(h, rows[..i])
    {
      var row := rows[i];
      StoredIdsSnoc(h, rows, i);
      FirstIdErrorSnoc(h, rows, i);
      RetaggedSnoc(h, rows, plateId, v, i);
      var read := ReadId(h, row);
      if read.Err? {
        FirstIdErrorAt(h, rows, i);
        return Some(read.error), out, updated;
      }
      var id := read.value;
      if id == plateId {
        out := out + [RowDict(row, Some(v))];
        updated := true;
      } else {
        out := out + [RowDict(row, None)];
      }
      i := i + 1;
    }
    assert rows[..i] == rows;
    err := None;
  }

  /** The handler of `PUT /api/plates/<plate_id>`. */
  method HandleUpdatePlate(f: PlatesFile, plateId: int, newPlate: Option<string>) returns (reply: Reply)
    requires f.Valid()
    modifies f
    ensures f.Valid() && (f.present <==> old(f.present))
    ensures Outcome(reply, f.lines) == UpdatePlate(old(f.present), old(f.lines), plateId, newPlate)
  {
    if newPlate.None? || newPlate.value == "" {
      return NoPlateValue;
    }
    if !f.present {
      return ServerError(FileMissing);
    }
    if f.lines == [] || f.lines[0] == [] {
      return HeaderMissing;
    }
    var h, rows := f.lines[0], DictRows(f.lines);
    var err, out, updated := ScanUpdate(h, rows, plateId, newPlate.value);
    if err.Some? {
      return ServerError(UnreadableId(err.value));
    }
    if !updated {
      return PlateNotFound;
    }
    var complete := Rewrite(f, h, out);
    reply := if complete then PlateUpdated(plateId) else ServerError(WriteFailed);
  }

  /** The single-delete loop: rows carrying another id are kept. */
  method ScanDelete(h: Row, rows: seq<Row>, plateId: int) returns (err: Option<IdError>, kept: seq<Row>, found: bool)
    ensures err == FirstIdError(h, rows)
    ensures err.None? ==> kept == Filter(Unmatched(h, plateId), rows)
    ensures err.None? ==> (found <==> plateId in StoredIds(h, rows))
  {
    kept, found := [], false;
    var i := 0;
    while i < |rows|
      invariant 0 <= i <= |rows|
      invariant FirstIdError(h, rows[..i]).None?
      invariant kept == Filter(Unmatched(h, plateId), rows[..i])
      invariant found <==> plateId in StoredIds(h, rows[..i])
    {
      var row := rows[i];
      FilterSnocAt(Unmatched(h, plateId), rows, i);
      StoredIdsSnoc(h, rows, i);
      FirstIdErrorSnoc(h, rows, i);
      var read := ReadId(h, row);
      if read.Err? {
        FirstIdErrorAt(h, rows, i);
        return Some(read.error), kept, found;
      }
      var id := read.value;
      if id == plateId {
        found := true;
      } else {
        kept := kept + [row];
      }
      i := i + 1;
    }
    assert rows[..i] == rows;
    err := None;
  }

  /** The handler of `DELETE /api/plates/<plate_id>`. */
  method HandleDeletePlate(f: PlatesFile, plateId: int) returns (reply: Reply)
    requires f.Valid()
    modifies f
    ensures f.Valid() && (f.present <==> old(f.present))
    ensures Outcome(reply, f.lines) == DeletePlate(old(f.present), old(f.lines), plateId)
  {
    if !f.present {
      return ServerError(FileMissing);
    }
    if f.lines == [] {
      return HeaderMissing;
    }
    var h, rows := f.lines[0], DictRows(f.lines);
    var err, kept, found := ScanDelete(h, rows, plateId);
    if err.Some? {
      return ServerError(UnreadableId(err.value));
    }
    if !found {
      return PlateNotFound;
    }
    var complete := Rewrite(f, h, AsRead(kept));
    reply := if complete then PlateDeleted(plateId) else ServerError(WriteFailed);
  }

  /** Once a prefix of the rows has failed, the listing fails with that text. */
  lemma {:induction false} ListingPrefix(rows: seq<Row>, k: nat)
    requires k <= |rows| && Listing(rows[..k]).Err?
    ensures Listing(rows) == Listing(rows[..k])
    decreases |rows|
  {
    if k < |rows| {
      var init := rows[..|rows| - 1];
      assert init[..k] == rows[..k];
      ListingPrefix(init, k);
    } else {
      assert rows[..k] == rows;
    }
  }

  /**
   * The handler of `GET /api/plates`: the first line is taken as the header, rows
   * without exactly six fields are skipped, and the rest are listed in file order.
   */
  method GetPlates(f: PlatesFile) returns (reply: Reply)
    ensures reply == ListPlates(f.present, f.lines)
  {
    if !f.present {
      return ListingFailed(FileMissing);
    }
    var rows := AfterHeader(f.lines);
    var data: seq<PlateRecord> := [];
    var i := 0;
    while i < |rows|
      invariant 0 <= i <= |rows|
      invariant Listing(rows[..i]) == Ok(data)
    {
      var row := rows[i];
      assert rows[..i + 1][..i] == rows[..i];
      if |row| == 6 {
        var id := ParseInt(row[0]);
        if id.None? {
          ListingPrefix(rows, i + 1);
          return ListingFailed(UnreadableId(InvalidId(row[0])));
        }
        data := data + [ToRecord(id.value, row)];
      }
      i := i + 1;
    }
    assert rows[..i] == rows;
    reply := Plates(data);
  }
}
