/**
 * What the record-store handlers guarantee, stated over whole stores: which rows a
 * delete keeps, what an update changes, that repeating a delete changes nothing
 * more, when a rewrite is torn, and how the listing reads what the pipelines wrote.
 */
module ApiProperties {
  import opened Wrappers
  import opened Seqs
  import opened PyText
  import opened PlatesCsv
  import opened PlateApi

  /** A store every handler reads through: a header, data rows of the header's width, every id readable. */
  predicate WellFormed(lines: seq<Row>)
  {
    lines != [] && Rectangular(lines[0], DictRows(lines)) && FirstIdError(lines[0], DictRows(lines)).None?
  }

  /** `StoredIds` holds exactly the ids some row carries. */
  lemma {:induction false} StoredIdsMembers(h: Row, rows: seq<Row>, x: int)
    ensures x in StoredIds(h, rows) <==> exists i :: 0 <= i < |rows| && ReadId(h, rows[i]) == Ok(x)
    decreases |rows|
  {
    if rows != [] {
      var init := rows[..|rows| - 1];
      StoredIdsMembers(h, init, x);
      if x in StoredIds(h, init) {
        var i :| 0 <= i < |init| && ReadId(h, init[i]) == Ok(x);
        assert rows[i] == init[i];
      }
      if exists i :: 0 <= i < |rows| && ReadId(h, rows[i]) == Ok(x) {
        var i :| 0 <= i < |rows| && ReadId(h, rows[i]) == Ok(x);
        if i < |init| {
          assert init[i] == rows[i];
        }
      }
    }
  }

  /**
   * Writing back any selection of a well-formed store's rows, each as it was read,
   * gives a well-formed store whose data rows are exactly that selection.
   */
  lemma KeptRowsWellFormed(lines: seq<Row>, p: Row -> bool)
    requires WellFormed(lines)
    ensures var h, kept := lines[0], Filter(p, DictRows(lines));
      && WriteRows(h, AsRead(kept)) == Written(kept, true)
      && DictRows([h] + kept) == kept
      && WellFormed([h] + kept)
  {
    var h, rows := lines[0], DictRows(lines);
    var kept := Filter(p, rows);
    FilterMembers(p, rows);
    forall i | 0 <= i < |kept|
      ensures |kept[i]| == |h| && kept[i] != [] && ReadId(h, kept[i]).Ok?
    {
      assert kept[i] in kept;
      var k :| 0 <= k < |rows| && rows[k] == kept[i];
      FirstIdErrorNone(h, rows);
    }
    WriteRowsUnchanged(h, kept);
    var after := [h] + kept;
    assert after[1..] == kept;
    FilterAll(NonBlank, kept);
    FirstIdErrorNone(h, kept);
  }

  /** On a well-formed store a bulk delete keeps the unrequested rows in order and reports the requested ids it met. */
  lemma BulkDeleteOnWellFormed(lines: seq<Row>, ids: seq<int>)
    requires WellFormed(lines)
    ensures var h, rows := lines[0], DictRows(lines);
      DeleteMultiple(true, lines, IdList(ids))
        == Outcome(PlatesDeleted(StoredIds(h, rows) * SetOf(ids)), [h] + Filter(Survives(h, ids), rows))
  {
    KeptRowsWellFormed(lines, Survives(lines[0], ids));
  }

  /**
   * The rows a bulk delete keeps are the rows of the store whose id was not requested,
   * no more and no fewer; an id is reported deleted exactly when it was requested and
   * some row carried it.
   */
  lemma BulkDeleteSelection(h: Row, rows: seq<Row>, ids: seq<int>)
    ensures forall r :: r in Filter(Survives(h, ids), rows) ==> r in rows && !Requested(h, ids, r)
    ensures forall i :: 0 <= i < |rows| && !Requested(h, ids, rows[i]) ==> rows[i] in Filter(Survives(h, ids), rows)
    ensures forall x :: x in StoredIds(h, rows) * SetOf(ids) <==>
      x in ids && exists i :: 0 <= i < |rows| && ReadId(h, rows[i]) == Ok(x)
  {
    var kept := Filter(Survives(h, ids), rows);
    FilterMembers(Survives(h, ids), rows);
    forall r | r in kept
      ensures !Requested(h, ids, r)
    {
      var i :| 0 <= i < |kept| && kept[i] == r;
      assert Survives(h, ids)(kept[i]);
    }
    forall x
      ensures x in StoredIds(h, rows) * SetOf(ids) <==>
        x in ids && exists i :: 0 <= i < |rows| && ReadId(h, rows[i]) == Ok(x)
    {
      StoredIdsMembers(h, rows, x);
    }
  }

  /** The rows a bulk delete keeps survive it again, and none of them carries a requested id. */
  lemma SurvivorsSurvive(h: Row, rows: seq<Row>, ids: seq<int>)
    ensures var kept := Filter(Survives(h, ids), rows);
      Filter(Survives(h, ids), kept) == kept && StoredIds(h, kept) * SetOf(ids) == {}
  {
    var kept := Filter(Survives(h, ids), rows);
    FilterMembers(Survives(h, ids), rows);
    assert forall i :: 0 <= i < |kept| ==> Survives(h, ids)(kept[i]);
    FilterAll(Survives(h, ids), kept);
    forall x | x in StoredIds(h, kept)
      ensures x !in SetOf(ids)
    {
      StoredIdsMembers(h, kept, x);
      var i :| 0 <= i < |kept| && ReadId(h, kept[i]) == Ok(x);
      assert Survives(h, ids)(kept[i]);
    }
  }

  /** Repeating a bulk delete on the store it produced deletes nothing and changes nothing. */
  lemma BulkDeleteIdempotent(lines: seq<Row>, ids: seq<int>)
    requires WellFormed(lines)
    ensures var o := DeleteMultiple(true, lines, IdList(ids));
      && WellFormed(o.lines)
      && DeleteMultiple(true, o.lines, IdList(ids)) == Outcome(PlatesDeleted({}), o.lines)
  {
    var h, rows := lines[0], DictRows(lines);
    var kept := Filter(Survives(h, ids), rows);
    BulkDeleteOnWellFormed(lines, ids);
    KeptRowsWellFormed(lines, Survives(h, ids));
    var after := [h] + kept;
    assert after[0] == h;
    BulkDeleteOnWellFormed(after, ids);
    SurvivorsSurvive(h, rows, ids);
  }

  /** A single delete on a well-formed store removes every row carrying the id; deleting it again answers 404 and writes nothing. */
  lemma DeletePlateTwice(lines: seq<Row>, plateId: int)
    requires WellFormed(lines) && plateId in StoredIds(lines[0], DictRows(lines))
    ensures var h, rows := lines[0], DictRows(lines);
      var o := DeletePlate(true, lines, plateId);
      && o == Outcome(PlateDeleted(plateId), [h] + Filter(Unmatched(h, plateId), rows))
      && (forall i :: 1 <= i < |o.lines| ==> ReadId(h, o.lines[i]) != Ok(plateId))
      && DeletePlate(true, o.lines, plateId) == Outcome(PlateNotFound, o.lines)
  {
    var h, rows := lines[0], DictRows(lines);
    var kept := Filter(Unmatched(h, plateId), rows);
    KeptRowsWellFormed(lines, Unmatched(h, plateId));
    FilterMembers(Unmatched(h, plateId), rows);
    assert forall i :: 0 <= i < |kept| ==> Unmatched(h, plateId)(kept[i]);
    StoredIdsMembers(h, kept, plateId);
  }

  /** `r` with field `k` replaced by `v`, when it has one. */
  function SetField(r: Row, k: nat, v: string): (s: Row)
    ensures |s| == |r|
    ensures forall j :: 0 <= j < |r| && j != k ==> s[j] == r[j]
    ensures k < |r| ==> s[k] == v
  {
    if k < |r| then r[k := v] else r
  }

  /** The rows an update should leave: the plate field of every row carrying `plateId` set to `v`, nothing else touched. */
  function WithPlate(h: Row, rows: seq<Row>, plateId: int, v: string, k: nat): (out: seq<Row>)
    ensures |out| == |rows|
    ensures forall i :: 0 <= i < |rows| ==> |out[i]| == |rows[i]|
    ensures forall i, j :: 0 <= i < |rows| && 0 <= j < |rows[i]| && j != k ==> out[i][j] == rows[i][j]
    ensures forall i :: 0 <= i < |rows| && ReadId(h, rows[i]) != Ok(plateId) ==> out[i] == rows[i]
    ensures forall i :: 0 <= i < |rows| && ReadId(h, rows[i]) == Ok(plateId) && k < |rows[i]| ==> out[i][k] == v
  {
    seq(|rows|, i requires 0 <= i < |rows| => if ReadId(h, rows[i]) == Ok(plateId) then SetField(rows[i], k, v) else rows[i])
  }

  lemma RetaggedSnoc(h: Row, rows: seq<Row>, plateId: int, v: string)
    requires rows != []
    ensures var n := |rows|;
      Retagged(h, rows, plateId, v)[..n - 1] == Retagged(h, rows[..n - 1], plateId, v)
  {
  }

  lemma WithPlateSnoc(h: Row, rows: seq<Row>, plateId: int, v: string, k: nat)
    requires rows != []
    ensures var n := |rows|;
      WithPlate(h, rows, plateId, v, k) == WithPlate(h, rows[..n - 1], plateId, v, k) + [WithPlate(h, rows, plateId, v, k)[n - 1]]
  {
    var n := |rows|;
    var out := WithPlate(h, rows, plateId, v, k);
    assert out[..n - 1] == WithPlate(h, rows[..n - 1], plateId, v, k);
    assert out == out[..n - 1] + [out[n - 1]];
  }

  /** The row `DictWriter` writes for one retagged row is the row with its plate field set, or the row itself. */
  lemma WriteOneRetagged(h: Row, r: Row, plateId: int, v: string, k: nat)
    requires DistinctNames(h) && |r| == |h| && k < |h| && h[k] == "plate"
    ensures DictToRow(h, RowDict(r, if ReadId(h, r) == Ok(plateId) then Some(v) else None))
      == Some(if ReadId(h, r) == Ok(plateId) then SetField(r, k, v) else r)
  {
    if ReadId(h, r) == Ok(plateId) {
      WriteBackWithPlate(h, r, v, k);
    } else {
      WriteBackUnchanged(h, r);
    }
  }

  lemma {:induction false} WriteRetagged(h: Row, rows: seq<Row>, plateId: int, v: string, k: nat)
    requires Rectangular(h, rows) && k < |h| && h[k] == "plate"
    ensures WriteRows(h, Retagged(h, rows, plateId, v)) == Written(WithPlate(h, rows, plateId, v, k), true)
    decreases |rows|
  {
    if rows != [] {
      var n := |rows|;
      var init := rows[..n - 1];
      RetaggedSnoc(h, rows, plateId, v);
      WithPlateSnoc(h, rows, plateId, v, k);
      assert Rectangular(h, init);
      WriteRetagged(h, init, plateId, v, k);
      WriteOneRetagged(h, rows[n - 1], plateId, v, k);
    }
  }

  /**
   * On a well-formed store whose header has a `plate` column `k`, an update either sets
   * that field on every row carrying the id and leaves everything else as it was, or,
   * when no row carries the id, answers 404 and writes nothing.
   */
  lemma UpdateOnWellFormed(lines: seq<Row>, plateId: int, v: string, k: nat)
    requires WellFormed(lines) && v != ""
    requires k < |lines[0]| && lines[0][k] == "plate"
    ensures var h, rows := lines[0], DictRows(lines);
      UpdatePlate(true, lines, plateId, Some(v))
        == if plateId in StoredIds(h, rows) then Outcome(PlateUpdated(plateId), [h] + WithPlate(h, rows, plateId, v, k))
           else Outcome(PlateNotFound, lines)
  {
    WriteRetagged(lines[0], DictRows(lines), plateId, v, k);
  }

  /**
   * When the header has no `plate` column, an update of an existing id raises inside
   * `writerows` at the first row carrying it: the file keeps its header and only the
   * rows before that one, and the reply is a 500.
   */
  lemma UpdateWithoutPlateColumnTruncates(lines: seq<Row>, plateId: int, v: string, j: nat)
    requires WellFormed(lines) && lines[0] != [] && "plate" !in lines[0] && v != ""
    requires j < |DictRows(lines)| && ReadId(lines[0], DictRows(lines)[j]) == Ok(plateId)
    requires forall i :: 0 <= i < j ==> ReadId(lines[0], DictRows(lines)[i]) != Ok(plateId)
    ensures UpdatePlate(true, lines, plateId, Some(v))
      == Outcome(ServerError(WriteFailed), [lines[0]] + DictRows(lines)[..j])
  {
    var h, rows := lines[0], DictRows(lines);
    StoredIdsMembers(h, rows, plateId);
    var ds := Retagged(h, rows, plateId, v);
    assert ds[..j] == AsRead(rows[..j]);
    assert Rectangular(h, rows[..j]);
    WriteRowsUnchanged(h, rows[..j]);
    assert ds[..j + 1][..j] == ds[..j];
    assert DictToRow(h, ds[j]).None?;
    assert WriteRows(h, ds[..j + 1]) == Written(rows[..j], false);
    WriteRowsStopsAtFailure(h, ds, j + 1);
  }

  /** Listing two runs of lines one after the other lists the first run's records, then the second's. */
  lemma {:induction false} ListingConcat(a: seq<Row>, b: seq<Row>)
    ensures Listing(a + b)
      == match Listing(a)
         case Err(t) => Err(t)
         case Ok(x) =>
           match Listing(b)
           case Err(t) => Err(t)
           case Ok(y) => Ok(x + y)
    decreases |b|
  {
    if b == [] {
      assert a + b == a;
      if Listing(a).Ok? {
        assert Listing(a).value + [] == Listing(a).value;
      }
    } else {
      var n := |b|;
      assert (a + b)[..|a + b| - 1] == a + b[..n - 1];
      assert (a + b)[|a + b| - 1] == b[n - 1];
      ListingConcat(a, b[..n - 1]);
      var r := b[n - 1];
      if Listing(a).Ok? && Listing(b[..n - 1]).Ok? && |r| == 6 && ParseInt(r[0]).Some? {
        var x, y := Listing(a).value, Listing(b[..n - 1]).value;
        var rec := ToRecord(ParseInt(r[0]).value, r);
        assert (x + y) + [rec] == x + (y + [rec]);
      }
    }
  }

  /** A six-field line with a readable id adds its record after those listed before it. */
  lemma ListingLast(rows: seq<Row>, id: int)
    requires rows != [] && Listing(rows[..|rows| - 1]).Ok?
    requires |rows[|rows| - 1]| == 6 && FirstFieldId(rows[|rows| - 1]) == Some(id)
    ensures Listing(rows) == Ok(Listing(rows[..|rows| - 1]).value + [ToRecord(id, rows[|rows| - 1])])
  {
  }

  /** A line without exactly six fields, blank lines included, changes nothing in the listing. */
  lemma ListingSkipsMalformed(a: seq<Row>, r: Row, b: seq<Row>)
    requires |r| != 6
    ensures Listing(a + [r] + b) == Listing(a + b)
  {
    assert [r][..0] == [];
    assert Listing([r]) == Ok([]);
    ListingConcat(a, [r]);
    assert Listing(a + [r]) == Listing(a);
    ListingConcat(a + [r], b);
    ListingConcat(a, b);
  }

  /** The line a pipeline appends for a record. */
  function EncodeRecord(rec: PlateRecord): Row
  {
    RecordRow(rec.id, rec.date, rec.time, rec.plate, rec.plateImage, rec.originalImage)
  }

  function Encoded(recs: seq<PlateRecord>): (rows: seq<Row>)
    ensures |rows| == |recs|
  {
    seq(|recs|, i requires 0 <= i < |recs| => EncodeRecord(recs[i]))
  }

  /** An encoded record is six fields wide, reads back its id, and maps back to itself. */
  lemma EncodeRecordReadsBack(r: PlateRecord)
    ensures |EncodeRecord(r)| == 6 && FirstFieldId(EncodeRecord(r)) == Some(r.id)
    ensures ToRecord(r.id, EncodeRecord(r)) == r
  {
    RecordRowId(r.id, r.date, r.time, r.plate, r.plateImage, r.originalImage);
  }

  lemma EncodedLast(recs: seq<PlateRecord>)
    requires recs != []
    ensures Encoded(recs)[..|recs| - 1] == Encoded(recs[..|recs| - 1])
    ensures Encoded(recs)[|recs| - 1] == EncodeRecord(recs[|recs| - 1])
  {
  }

  /** Every record written as a pipeline writes it is listed back exactly, in order. */
  lemma {:induction false} ListingRoundTrip(recs: seq<PlateRecord>)
    ensures Listing(Encoded(recs)) == Ok(recs)
    decreases |recs|
  {
    if recs != [] {
      var n := |recs|;
      var init, r := recs[..n - 1], recs[n - 1];
      ListingRoundTrip(init);
      EncodedLast(recs);
      EncodeRecordReadsBack(r);
      ListingLast(Encoded(recs), r.id);
      assert recs == init + [r];
    }
  }

  /** Whatever the first line holds, the listing of it followed by encoded records is those records. */
  lemma ListRoundTrip(header: Row, recs: seq<PlateRecord>)
    ensures ListPlates(true, [header] + Encoded(recs)) == Plates(recs)
  {
    assert AfterHeader([header] + Encoded(recs)) == Encoded(recs);
    ListingRoundTrip(recs);
  }
}
