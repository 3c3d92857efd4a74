/**
 * The live camera pipeline. Every detection on every frame passes a chain of checks:
 * confidence, a non-empty crop, readable text, the cooldown, and the fuzzy duplicate
 * test against every tracked plate. A detection that passes is tracked, numbered,
 * saved as two images and appended to `plates.csv`.
 */
module LiveIngest {
  import opened Wrappers
  import opened PyText
  import opened Clock
  import opened Archive
  import opened Frames
  import opened PlatesCsv

  /** `conf < 0.4` rejects; confidences are counted in millionths. */
  const MinConfidence: int := 400_000
  /** `cooldown_seconds = 5`, in microseconds. */
  const CooldownMicros: int := 5_000_000
  /** `cv2.resize(frame, (1280, 720))`: every frame is 720 rows of 1280 columns. */
  const FrameWidth: nat := 1280
  const FrameHeight: nat := 720
  /** Strings this long switch on `SequenceMatcher`'s popular-element heuristic. */
  const AutojunkLength: nat := 200

  /** `SequenceMatcher(None, a, b).ratio() > 0.8`. */
  type Similarity = (string, string) -> bool

  /**
   * What the model assumes of the similarity test: a string shorter than
   * `AutojunkLength` is similar to itself (its ratio against itself is 1.0).
   */
  ghost predicate ReflexiveBelowAutojunk(sim: Similarity)
  {
    forall s: string {:trigger sim(s, s)} :: |s| < AutojunkLength ==> sim(s, s)
  }

  /** `''.join(c for c in text if c.isalnum()).upper()`: the key a plate is tracked under. */
  function NormalizeText(text: string): (key: string)
    ensures |key| <= |text|
    ensures forall i :: 0 <= i < |key| ==> IsAlnum(key[i]) && !IsLowerLetter(key[i])
  {
    if text == [] then []
    else (if IsAlnum(text[0]) then [ToUpper(text[0])] else []) + NormalizeText(text[1..])
  }

  lemma {:induction false} NormalizeConcat(a: string, b: string)
    ensures NormalizeText(a + b) == NormalizeText(a) + NormalizeText(b)
  {
    if a == [] {
      assert a + b == b;
    } else {
      assert (a + b)[0] == a[0];
      assert (a + b)[1..] == a[1..] + b;
      NormalizeConcat(a[1..], b);
    }
  }

  /** A key is its own normal form: normalizing twice is normalizing once. */
  lemma {:induction false} NormalizeIdempotent(text: string)
    ensures NormalizeText(NormalizeText(text)) == NormalizeText(text)
  {
    NormalizedIsFixed(NormalizeText(text));
  }

  lemma {:induction false} NormalizedIsFixed(key: string)
    requires forall i :: 0 <= i < |key| ==> IsAlnum(key[i]) && !IsLowerLetter(key[i])
    ensures NormalizeText(key) == key
  {
    if key != [] {
      NormalizedIsFixed(key[1..]);
    }
  }

  /** White space never reaches a key, so stripping the text first changes nothing. */
  lemma {:induction false} NormalizeStrip(s: string)
    ensures NormalizeText(Strip(s)) == NormalizeText(s)
    decreases |s|
  {
    if s != [] && IsSpace(s[0]) {
      assert s == [s[0]] + s[1..];
      NormalizeConcat([s[0]], s[1..]);
      NormalizeStrip(s[1..]);
    } else if s != [] && IsSpace(s[|s| - 1]) {
      assert s == s[..|s| - 1] + [s[|s| - 1]];
      NormalizeConcat(s[..|s| - 1], [s[|s| - 1]]);
      NormalizeStrip(s[..|s| - 1]);
    }
  }

  /** All the fragments' characters, in order, with nothing between them. */
  function Flatten(texts: seq<string>): string
  {
    if texts == [] then "" else texts[0] + Flatten(texts[1..])
  }

  lemma {:induction false} NormalizeJoin(parts: seq<string>)
    ensures NormalizeText(JoinWithSpace(parts)) == NormalizeText(Flatten(parts))
  {
    if |parts| == 1 {
      assert parts[1..] == [];
      assert Flatten(parts) == parts[0] + "";
      assert parts[0] + "" == parts[0];
    } else if |parts| > 1 {
      NormalizeJoin(parts[1..]);
      NormalizeConcat(parts[0] + " ", JoinWithSpace(parts[1..]));
      NormalizeConcat(parts[0], " ");
      NormalizeConcat(parts[0], Flatten(parts[1..]));
    }
  }

  lemma {:induction false} NormalizeFragments(texts: seq<string>)
    ensures NormalizeText(Flatten(Fragments(texts))) == NormalizeText(Flatten(texts))
  {
    if texts != [] {
      NormalizeFragments(texts[1..]);
      var head := if Strip(texts[0]) == "" then [] else [Strip(texts[0])];
      assert Fragments(texts) == head + Fragments(texts[1..]);
      FlattenConcat(head, Fragments(texts[1..]));
      NormalizeConcat(Flatten(head), Flatten(Fragments(texts[1..])));
      NormalizeConcat(texts[0], Flatten(texts[1..]));
      NormalizeStrip(texts[0]);
      if head == [] {
        assert NormalizeText(Strip(texts[0])) == "";
      } else {
        assert head[1..] == [];
        assert Flatten(head) == Strip(texts[0]) + "";
        assert Strip(texts[0]) + "" == Strip(texts[0]);
      }
    }
  }

  lemma {:induction false} FlattenConcat(a: seq<string>, b: seq<string>)
    ensures Flatten(a + b) == Flatten(a) + Flatten(b)
  {
    if a == [] {
      assert a + b == b;
    } else {
      assert (a + b)[1..] == a[1..] + b;
      FlattenConcat(a[1..], b);
    }
  }

  /**
   * The key of a sighting depends only on the characters OCR read, not on how it split
   * them into fragments or on the white space around and between them.
   */
  lemma KeyIgnoresFragmentation(texts: seq<string>)
    ensures NormalizeText(PlateText(texts)) == NormalizeText(Flatten(texts))
  {
    NormalizeJoin(Fragments(texts));
    NormalizeFragments(texts);
  }

  /** One row of `results.xyxy[0]` with what OCR and the clock give for it. */
  datatype Detection = Detection(confidence: int, box: Box, texts: seq<string>, seenAt: DateTime)

  /** The `continue` a detection was dropped at. */
  datatype Skip = LowConfidence | EmptyCrop | NoText | CoolingDown | TooSimilar

  datatype Verdict = Rejected(why: Skip) | Accepted(text: string, key: string)

  /** `not is_new_plate(key)`: some tracked plate is similar to the key. */
  predicate SimilarToTracked(active: map<string, DateTime>, key: string, sim: Similarity)
  {
    exists k :: k in active && sim(key, k)
  }

  /** The checks of one detection, in the order the loop makes them. */
  function Judge(active: map<string, DateTime>, d: Detection, sim: Similarity): (v: Verdict)
    ensures v.Accepted? ==> v.text == PlateText(d.texts) && v.text != "" && Trimmed(v.text)
    ensures v.Accepted? ==> v.key == NormalizeText(v.text) && !SimilarToTracked(active, v.key, sim)
  {
    if d.confidence < MinConfidence then Rejected(LowConfidence)
    else if CropIsEmpty(d.box, FrameWidth, FrameHeight) then Rejected(EmptyCrop)
    else
      var text := PlateText(d.texts);
      if text == "" then Rejected(NoText)
      else
        var key := NormalizeText(text);
        if key in active && ElapsedMicros(active[key], d.seenAt) < CooldownMicros then Rejected(CoolingDown)
        else if SimilarToTracked(active, key, sim) then Rejected(TooSimilar)
        else Accepted(text, key)
  }

  /**
   * For keys shorter than `AutojunkLength`, a detection is accepted exactly when it is
   * confident, its crop is not empty, OCR read some text, and its key is similar to no
   * tracked key. The cooldown never decides anything: a tracked key is always similar
   * to itself.
   */
  lemma JudgeAcceptsExactly(active: map<string, DateTime>, d: Detection, sim: Similarity)
    requires ReflexiveBelowAutojunk(sim)
    requires |NormalizeText(PlateText(d.texts))| < AutojunkLength
    ensures Judge(active, d, sim).Accepted? <==>
      && d.confidence >= MinConfidence
      && !CropIsEmpty(d.box, FrameWidth, FrameHeight)
      && !AllBlank(d.texts)
      && !SimilarToTracked(active, NormalizeText(PlateText(d.texts)), sim)
  {
    var key := NormalizeText(PlateText(d.texts));
    if key in active {
      assert sim(key, key);
    }
  }

  /** A plate whose key is already tracked is never recorded again, however long ago it was seen. */
  lemma TrackedKeyRejected(active: map<string, DateTime>, d: Detection, sim: Similarity)
    requires ReflexiveBelowAutojunk(sim)
    requires NormalizeText(PlateText(d.texts)) in active
    requires |NormalizeText(PlateText(d.texts))| < AutojunkLength
    ensures Judge(active, d, sim).Rejected?
  {
    JudgeAcceptsExactly(active, d, sim);
  }

  /** The pipeline's state: tracker, counters, the lines of `plates.csv`, and both image folders. */
  datatype Live = Live(
    active: map<string, DateTime>,
    plateCounter: nat,
    lastId: int,
    lines: seq<Row>,
    plates: map<string, Image>,
    originals: map<string, Image>)

  /** The effects of an accepted detection, in the loop's order; `drawn` are the boxes already on the frame. */
  function Accept(s: Live, frame: nat, drawn: seq<Box>, d: Detection, text: string, key: string): (t: Live)
    ensures t.active.Keys == s.active.Keys + {key} && t.active[key] == d.seenAt
    ensures |t.lines| == |s.lines| + 1 && t.lines[..|s.lines|] == s.lines
    ensures t.lastId == s.lastId + 1 && t.plateCounter == s.plateCounter + 1
    ensures AppendedRow(t.lines[|s.lines|], s.lastId + 1, s.plateCounter + 1)
    ensures t.lines[|s.lines|][3] == text
  {
    var counter := s.plateCounter + 1;
    var plateName := PlateFilename(d.seenAt, counter);
    var originalName := OriginalFilename(d.seenAt);
    var id := s.lastId + 1;
    var row := RecordRow(id, DateText(d.seenAt), TimeText(d.seenAt), text, plateName, originalName);
    RecordRowId(id, DateText(d.seenAt), TimeText(d.seenAt), text, plateName, originalName);
    PlateCounterTextOf(d.seenAt, counter);
    Live(
      s.active[key := d.seenAt],
      counter,
      id,
      s.lines + [row],
      s.plates[plateName := Crop(frame, drawn, d.box)],
      s.originals[originalName := Whole(frame, drawn)])
  }

  /**
   * Two plates accepted one after the other within the same second share one original
   * image name: both rows name it, and the second frame overwrites the first.
   */
  lemma SameSecondSharesOriginal(s: Live, frame1: nat, drawn1: seq<Box>, d1: Detection, text1: string, key1: string,
                                 frame2: nat, drawn2: seq<Box>, d2: Detection, text2: string, key2: string)
    requires SameSecond(d1.seenAt, d2.seenAt)
    ensures var t1 := Accept(s, frame1, drawn1, d1, text1, key1);
      var t2 := Accept(t1, frame2, drawn2, d2, text2, key2);
      && |t2.lines| == |s.lines| + 2
      && t2.lines[|s.lines|][5] == t2.lines[|s.lines| + 1][5] == OriginalFilename(d1.seenAt)
      && t2.originals == s.originals[OriginalFilename(d1.seenAt) := Whole(frame2, drawn2)]
  {
    var t1 := Accept(s, frame1, drawn1, d1, text1, key1);
    var t2 := Accept(t1, frame2, drawn2, d2, text2, key2);
    AcceptSavesOriginal(s, frame1, drawn1, d1, text1, key1);
    AcceptSavesOriginal(t1, frame2, drawn2, d2, text2, key2);
    StrftimeSameSecond(d1.seenAt, d2.seenAt, "%Y%m%d_%H%M%S");
    assert t2.lines[|s.lines|] == t1.lines[|s.lines|];
  }

  /** An accepted plate's row names the original image it saved, which replaces any of that name. */
  lemma AcceptSavesOriginal(s: Live, frame: nat, drawn: seq<Box>, d: Detection, text: string, key: string)
    ensures var t := Accept(s, frame, drawn, d, text, key);
      && |t.lines| == |s.lines| + 1 && t.lines[|s.lines|][5] == OriginalFilename(d.seenAt)
      && t.originals == s.originals[OriginalFilename(d.seenAt) := Whole(frame, drawn)]
  {
  }

  /**
   * Everything an accepted plate records: the row, whose date and time are the two halves
   * of one reading split at the space, the crop saved under the counted plate name, and
   * the tracker entry for its key; every other tracked key keeps its time.
   */
  lemma AcceptRecords(s: Live, frame: nat, drawn: seq<Box>, d: Detection, text: string, key: string)
    ensures var t := Accept(s, frame, drawn, d, text, key);
      var plateName := PlateFilename(d.seenAt, s.plateCounter + 1);
      && t.lines == s.lines + [RecordRow(s.lastId + 1, DateAndTime(d.seenAt).0, DateAndTime(d.seenAt).1, text,
                                         plateName, OriginalFilename(d.seenAt))]
      && t.plates == s.plates[plateName := Crop(frame, drawn, d.box)]
      && t.active.Keys == s.active.Keys + {key} && t.active[key] == d.seenAt
      && (forall k :: k in s.active && k != key ==> t.active[k] == s.active[k])
  {
  }

  /**
   * On a `plates.csv` that exists but is empty (the service creates it so at start-up),
   * the pipeline writes no header: its first row becomes the header, so the listing
   * shows nothing and a restart's scan finds no id, re-issuing id 0.
   */
  lemma HeaderlessFirstRecord(s: Live, frame: nat, drawn: seq<Box>, d: Detection, text: string, key: string)
    requires s.lines == [] && s.lastId == -1
    ensures var t := Accept(s, frame, drawn, d, text, key);
      && |t.lines| == 1 && FirstFieldId(t.lines[0]) == Some(0)
      && DictRows(t.lines) == []
      && LastIdOf(t.lines) == -1
  {
    var t := Accept(s, frame, drawn, d, text, key);
    assert t.lines[1..] == [];
  }

  /** One detection: the new state, and the boxes on the frame afterwards. */
  function Step(s: Live, frame: nat, drawn: seq<Box>, d: Detection, sim: Similarity): (Live, seq<Box>)
  {
    match Judge(s.active, d, sim)
    case Rejected(_) => (s, drawn)
    case Accepted(text, key) => (Accept(s, frame, drawn, d, text, key), drawn + [d.box])
  }

  /** The detections of one frame, in order; the frame starts with no boxes drawn. */
  function FrameRun(s: Live, frame: nat, dets: seq<Detection>, sim: Similarity): (Live, seq<Box>)
    decreases |dets|
  {
    if dets == [] then (s, [])
    else
      var before := FrameRun(s, frame, dets[..|dets| - 1], sim);
      Step(before.0, frame, before.1, dets[|dets| - 1], sim)
  }

  /** Every frame read, numbered in capture order. */
  function SessionRun(s: Live, frames: seq<seq<Detection>>, sim: Similarity): Live
    decreases |frames|
  {
    if frames == [] then s
    else FrameRun(SessionRun(s, frames[..|frames| - 1], sim), |frames| - 1, frames[|frames| - 1], sim).0
  }

  /**
   * `t` grew from `s` by appending rows only: one row per plate counted, the ids and the
   * plate counters running on consecutively from `s`'s, every row six fields wide.
   */
  ghost predicate AppendedFrom(s: Live, t: Live)
  {
    && |s.lines| <= |t.lines|
    && t.lines[..|s.lines|] == s.lines
    && t.plateCounter - s.plateCounter == |t.lines| - |s.lines|
    && t.lastId - s.lastId == |t.lines| - |s.lines|
    && s.active.Keys <= t.active.Keys
    && forall j :: |s.lines| <= j < |t.lines| ==> AppendedRow(t.lines[j], s.lastId + 1 + (j - |s.lines|), s.plateCounter + 1 + (j - |s.lines|))
  }

  /** A row as the pipeline writes it: six fields, id `id`, plate image numbered `counter`. */
  ghost predicate AppendedRow(r: Row, id: int, counter: nat)
  {
    |r| == 6 && FirstFieldId(r) == Some(id) && PlateCounterText(r[4]) == NatToString(counter)
  }

  lemma StepAppends(s: Live, u: Live, frame: nat, drawn: seq<Box>, d: Detection, sim: Similarity)
    requires AppendedFrom(s, u)
    ensures AppendedFrom(s, Step(u, frame, drawn, d, sim).0)
  {
    match Judge(u.active, d, sim)
    case Rejected(_) =>
    case Accepted(text, key) =>
      AcceptAppends(u, frame, drawn, d, text, key);
      AppendedTransitive(s, u, Accept(u, frame, drawn, d, text, key));
  }

  lemma AcceptAppends(s: Live, frame: nat, drawn: seq<Box>, d: Detection, text: string, key: string)
    ensures AppendedFrom(s, Accept(s, frame, drawn, d, text, key))
  {
    OneRowAppended(s, Accept(s, frame, drawn, d, text, key));
  }

  lemma OneRowAppended(s: Live, t: Live)
    requires |t.lines| == |s.lines| + 1 && t.lines[..|s.lines|] == s.lines
    requires t.lastId == s.lastId + 1 && t.plateCounter == s.plateCounter + 1
    requires s.active.Keys <= t.active.Keys
    requires AppendedRow(t.lines[|s.lines|], s.lastId + 1, s.plateCounter + 1)
    ensures AppendedFrom(s, t)
  {
    forall j | |s.lines| <= j < |t.lines|
      ensures AppendedRow(t.lines[j], s.lastId + 1 + (j - |s.lines|), s.plateCounter + 1 + (j - |s.lines|))
    {
      assert j == |s.lines|;
    }
  }

  lemma {:induction false} FrameRunAppends(s: Live, frame: nat, dets: seq<Detection>, sim: Similarity)
    ensures AppendedFrom(s, FrameRun(s, frame, dets, sim).0)
    decreases |dets|
  {
    if dets == [] {
      assert s.lines[..|s.lines|] == s.lines;
    } else {
      var before := FrameRun(s, frame, dets[..|dets| - 1], sim);
      FrameRunAppends(s, frame, dets[..|dets| - 1], sim);
      StepAppends(s, before.0, frame, before.1, dets[|dets| - 1], sim);
    }
  }

  lemma AppendedTransitive(s: Live, u: Live, t: Live)
    requires AppendedFrom(s, u) && AppendedFrom(u, t)
    ensures AppendedFrom(s, t)
  {
    assert t.lines[..|s.lines|] == t.lines[..|u.lines|][..|s.lines|];
    forall j | |s.lines| <= j < |t.lines|
      ensures AppendedRow(t.lines[j], s.lastId + 1 + (j - |s.lines|), s.plateCounter + 1 + (j - |s.lines|))
    {
      if j < |u.lines| {
        assert t.lines[j] == u.lines[j];
      }
    }
  }

  /**
   * Over a whole session, the file only grows at its end, one row per plate counted,
   * with consecutive ids and consecutive plate numbers, and no tracked key is dropped.
   */
  lemma {:induction false} SessionAppends(s: Live, frames: seq<seq<Detection>>, sim: Similarity)
    ensures AppendedFrom(s, SessionRun(s, frames, sim))
    decreases |frames|
  {
    if frames == [] {
      assert s.lines[..|s.lines|] == s.lines;
    } else {
      var n := |frames|;
      var u := SessionRun(s, frames[..n - 1], sim);
      SessionAppends(s, frames[..n - 1], sim);
      FrameRunAppends(u, n - 1, frames[n - 1], sim);
      AppendedTransitive(s, u, SessionRun(s, frames, sim));
    }
  }

  /** Two rows one session appended never name the same plate image. */
  lemma AppendedPlateNamesDistinct(s: Live, t: Live, i: nat, j: nat)
    requires AppendedFrom(s, t)
    requires |s.lines| <= i < j < |t.lines|
    ensures t.lines[i][4] != t.lines[j][4]
  {
    var ci, cj := s.plateCounter + 1 + (i - |s.lines|), s.plateCounter + 1 + (j - |s.lines|);
    assert AppendedRow(t.lines[i], s.lastId + 1 + (i - |s.lines|), ci);
    assert AppendedRow(t.lines[j], s.lastId + 1 + (j - |s.lines|), cj);
    if t.lines[i][4] == t.lines[j][4] {
      NatToStringInjective(ci, cj);
    }
  }

  /**
   * The counter `last_id` agrees with the file when the file has a first line: the
   * next startup scan finds exactly the id the session last wrote.
   */
  ghost predicate InSync(s: Live)
  {
    |s.lines| >= 1 && s.lastId == LastIdOf(s.lines)
  }

  lemma StepKeepsSync(s: Live, frame: nat, drawn: seq<Box>, d: Detection, sim: Similarity)
    requires InSync(s)
    ensures InSync(Step(s, frame, drawn, d, sim).0)
  {
    match Judge(s.active, d, sim)
    case Rejected(_) =>
    case Accepted(text, key) =>
      var t := Accept(s, frame, drawn, d, text, key);
      var row := t.lines[|s.lines|];
      assert t.lines == s.lines + [row];
      LastIdAfterAppend(s.lines, row, s.lastId + 1);
  }

  lemma {:induction false} FrameRunKeepsSync(s: Live, frame: nat, dets: seq<Detection>, sim: Similarity)
    requires InSync(s)
    ensures InSync(FrameRun(s, frame, dets, sim).0)
    decreases |dets|
  {
    if dets != [] {
      var before := FrameRun(s, frame, dets[..|dets| - 1], sim);
      FrameRunKeepsSync(s, frame, dets[..|dets| - 1], sim);
      StepKeepsSync(before.0, frame, before.1, dets[|dets| - 1], sim);
    }
  }

  /** Over a whole session, `last_id` stays equal to what a fresh startup scan would find. */
  lemma {:induction false} SessionKeepsSync(s: Live, frames: seq<seq<Detection>>, sim: Similarity)
    requires InSync(s)
    ensures InSync(SessionRun(s, frames, sim))
    decreases |frames|
  {
    if frames != [] {
      var n := |frames|;
      SessionKeepsSync(s, frames[..n - 1], sim);
      FrameRunKeepsSync(SessionRun(s, frames[..n - 1], sim), n - 1, frames[n - 1], sim);
    }
  }

  /** The camera session: its tracker and counters, the CSV file and both image folders. */
  class LiveSession {
    var active: map<string, DateTime>
    var plateCounter: nat
    var lastId: int
    const csv: PlatesFile
    const plates: ImageFolder
    const originals: ImageFolder
    const sim: Similarity

    ghost predicate Valid()
      reads this, csv
    {
      csv.Valid() && plates != originals
    }

    function State(): Live
      reads this, csv, plates, originals
    {
      Live(active, plateCounter, lastId, csv.lines, plates.files, originals.files)
    }

    /**
     * Startup: a missing `plates.csv` is created holding the header only, then the
     * highest id already in the file is found; tracker and counter start empty.
     */
    constructor (csv: PlatesFile, plates: ImageFolder, originals: ImageFolder, sim: Similarity)
      requires csv.Valid() && plates != originals
      modifies csv
      ensures Valid() && this.csv == csv && this.plates == plates && this.originals == originals && this.sim == sim
      ensures csv.present && csv.lines == if old(csv.present) then old(csv.lines) else [FieldNames]
      ensures active == map[] && plateCounter == 0 && lastId == LastIdOf(csv.lines)
    {
      if !csv.present {
        csv.Truncate(FieldNames);
      }
      this.csv := csv;
      this.plates := plates;
      this.originals := originals;
      this.sim := sim;
      active := map[];
      plateCounter := 0;
      new;
      lastId := ScanLastId(csv.lines);
    }

    /** `is_new_plate`: a scan of every tracked key, stopping at the first similar one. */
    method IsNewPlate(key: string) returns (isNew: bool)
      ensures isNew <==> !SimilarToTracked(active, key, sim)
    {
      var keys := active.Keys;
      while keys != {}
        invariant keys <= active.Keys
        invariant forall k :: k in active.Keys - keys ==> !sim(key, k)
        decreases |keys|
      {
        var k :| k in keys;
        if sim(key, k) {
          return false;
        }
        keys := keys - {k};
      }
      return true;
    }

    /** The body of `for det in detections`. */
    method Consider(frame: nat, drawn: seq<Box>, d: Detection) returns (drawnAfter: seq<Box>)
      requires Valid()
      modifies this, csv, plates, originals
      ensures Valid()
      ensures (State(), drawnAfter) == Step(old(State()), frame, drawn, d, sim)
    {
      ghost var before := State();
      drawnAfter := drawn;
      if d.confidence < MinConfidence {
        return;
      }
      if CropIsEmpty(d.box, FrameWidth, FrameHeight) {
        return;
      }
      var text := PlateText(d.texts);
      if text == "" {
        return;
      }
      var key := NormalizeText(text);
      if key in active && ElapsedMicros(active[key], d.seenAt) < CooldownMicros {
        return;
      }
      var isNew := IsNewPlate(key);
      if !isNew {
        return;
      }
      assert Judge(before.active, d, sim) == Accepted(text, key);
      Record(frame, drawn, d, text, key);
      drawnAfter := drawn + [d.box];
    }

    /** An accepted plate: tracked, counted, both images saved, the row appended. */
    method Record(frame: nat, drawn: seq<Box>, d: Detection, text: string, key: string)
      requires Valid()
      modifies this, csv, plates, originals
      ensures Valid()
      ensures State() == Accept(old(State()), frame, drawn, d, text, key)
    {
      ghost var before := State();
      active := active[key := d.seenAt];
        plateCounter := plateCounter + 1;
      var plateName := PlateFilename(d.seenAt, plateCounter);
      plates.Save(plateName, Crop(frame, drawn, d.box));
      var originalName := OriginalFilename(d.seenAt);
      originals.Save(originalName, Whole(frame, drawn));
      var dt := DateAndTime(d.seenAt);
      lastId := lastId + 1;
      csv.AppendRow(RecordRow(lastId, dt.0, dt.1, text, plateName, originalName));
      ghost var after := Accept(before, frame, drawn, d, text, key);
      assert active == after.active;
      assert plateCounter == after.plateCounter;
      assert lastId == after.lastId;
      assert csv.lines == after.lines;
      assert plates.files == after.plates;
      assert originals.files == after.originals;
    }

    /** One frame: its detections in order, the frame starting with no boxes drawn. */
    method ProcessFrame(frame: nat, dets: seq<Detection>)
      requires Valid()
      modifies this, csv, plates, originals
      ensures Valid()
      ensures State() == FrameRun(old(State()), frame, dets, sim).0
    {
      var drawn: seq<Box> := [];
      var i := 0;
      while i < |dets|
        invariant 0 <= i <= |dets| && Valid()
        invariant (State(), drawn) == FrameRun(old(State()), frame, dets[..i], sim)
      {
        assert dets[..i + 1][..i] == dets[..i];
        drawn := Consider(frame, drawn, dets[i]);
        i := i + 1;
      }
      assert dets[..i] == dets;
    }

    /** `while True`: every frame until the capture ends or `q` is pressed. */
    method Run(frames: seq<seq<Detection>>)
      requires Valid()
      modifies this, csv, plates, originals
      ensures Valid()
      ensures State() == SessionRun(old(State()), frames, sim)
    {
      var i := 0;
      while i < |frames|
        invariant 0 <= i <= |frames| && Valid()
        invariant State() == SessionRun(old(State()), frames[..i], sim)
      {
        assert frames[..i + 1][..i] == frames[..i];
        ProcessFrame(i, frames[i]);
        i := i + 1;
      }
      assert frames[..i] == frames;
    }
  }
}
