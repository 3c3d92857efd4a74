# Licence-plate sighting log, modelled in Dafny

The system records licence-plate sightings in one CSV file, `plates.csv`, with the
header `id,date,time,plate,plate_image,original_image`.

Two ingestion scripts write the file by appending:

- `detect1.py` is the live camera pipeline. Each detection on each frame goes through five checks in order:
  - a confidence threshold;
  - a non-empty crop;
  - readable OCR text;
  - a five-second cooldown;
  - a fuzzy duplicate test against every plate tracked so far.

  A detection that passes is tracked under its normalised key and numbered. Its crop and the whole frame are saved under names built from the time stamp and a counter, and one row is appended.
- `detect2.py` is the single-image script. It records every detection without any filtering, with `N/A` when OCR read nothing. All rows of a run name one original image.

A Flask service, `app.py`, reads the file and rewrites it:

- listing;
- updating a plate's text by id;
- deleting by id;
- bulk deleting by a list of ids.

## Module layout

- `wrappers.dfy`: `Option` and `Result`.
- `seqs.dfy`: order-preserving `Filter` and its lemmas.
- `pytext.dfy`: the Python string and integer operations the code relies on.
  - `str.strip`, `str.isalnum`, `str.upper`.
  - `int(str)`, `str(int)` and their round trip.
  - `' '.join`, `str.split(' ')`.
- `clock.dfy`: the `datetime` readings.
  - Microseconds since the epoch, for the cooldown.
  - `strftime` with the `%Y %m %d %H %M %S` directives.
  - The `date, time = ....split(' ')` unpacking.
- `archive.dfy`: the image folders and the `plate_…`, `original_…` and `result_…` file names.
- `frames.dfy`: numpy crop emptiness and the OCR text join.
- `platescsv.dfy`: `plates.csv` as a class.
  - `csv.DictReader` lookups by column name.
  - `csv.DictWriter` rewrites, including the `ValueError` that tears a rewrite.
  - The start-up last-id scan and the row the scripts append.
- `plateapi.dfy`: the four HTTP handlers, each both as a specification function and as an imperative handler.
- `apiproperties.dfy`: what the handlers guarantee over whole stores.
- `liveingest.dfy`: `detect1.py`, as the per-detection state machine and as the class `LiveSession`.
- `batchingest.dfy`: `detect2.py`, as a step function and as the loop that performs it.
- `crossprocess.dfy`: how the listing reads a file the single-image script created.

## What the model takes as given

- The detector, OCR, the camera and the clock are inputs:
  - a detection carries its box, its confidence in millionths, its OCR fragments and the clock readings taken for it;
  - a session is a sequence of frames of detections.
- `SequenceMatcher(None, a, b).ratio() > 0.8` is a function parameter `sim`. The live lemmas assume only that a string shorter than 200 characters is similar to itself. From 200 characters on, `difflib`'s popular-element heuristic can drop that ratio below 1.
- Image pixels are not modelled. A saved image records which frame or crop it shows and which boxes were already drawn on it.

## Behaviour of the code that departs from its evident intent

- A plate key that is already tracked is rejected forever, because its similarity to itself is 1.0. The 5-second cooldown therefore never decides anything, and the same plate is never logged again in one session (`LiveIngest.JudgeAcceptsExactly`).
- A six-field row whose id `int()` rejects does not get skipped. It turns the whole listing into an error body, still sent with status 200. In the three rewriting handlers, any unreadable id is a 500 that writes nothing.
- `DELETE /api/plates/<id>` removes every row carrying the id, not exactly one.
- A rewrite truncates the file first. A row that `DictWriter` refuses, such as a `plate` key the header lacks, leaves a torn file holding the header and the rows before it.
- The single-image script has no confidence check and no empty-text skip. An empty crop makes `cv2.imwrite` raise, which ends the run; it is not skipped.
- The single-image script never writes a header. When it creates the file, its first row is read back as the header and never listed (`CrossProcess.HeaderlessRunListing`).
- The service's start-up creates an empty `plates.csv` when none exists. The live pipeline then finds the file present and writes no header, so its first accepted row becomes the header (`LiveIngest.HeaderlessFirstRecord`).
  - The listing shows nothing.
  - A restart's scan finds no id, so id 0 is issued again.
  - The invariant `InSync` (at least one line, `last_id` equal to the scan) does not hold in this state, so the sync lemmas do not cover it.

## Model

| member | source | states |
|---|---|---|
| PyText.Strip | detect1.py:99 | the result has no white space at either end, is no longer than the input, and is empty exactly when the input is all white space |
| PyText.ToUpper | detect1.py:61 | upper-casing keeps a character alphanumeric exactly when it was, turns lower-case letters upper-case and leaves everything else alone |
| PyText.IntRoundTrip | app.py:134 | `int(str(n)) == n`: every id a script writes is read back as that id |
| PyText.NatToStringInjective | detect1.py:119 | different counters are spelled differently in decimal |
| PyText.JoinTrimmedParts | detect1.py:99 | joining non-empty stripped fragments with spaces gives a stripped text, empty exactly when there are no fragments |
| PyText.SplitOnce | detect1.py:127 | splitting `a + ' ' + b` at spaces, with neither side holding a space, gives exactly `[a, b]` |
| Seqs.FilterMembers | app.py:32-34 | the rows a pass keeps all satisfy its test, all come from the input, and every input row that satisfies the test is kept |
| Seqs.FilterSplitsLength | app.py:104-108 | the kept and the dropped rows together are as many as the input, so the new length is the old one minus the matches |
| Clock.ZeroPad | detect1.py:117 | a padded field is all digits and at least as wide as asked |
| Clock.ZeroPadValue | detect1.py:117 | padding never truncates: the padded digits denote the number itself, whatever the width |
| Clock.Directive | detect1.py:117 | each of `%Y %m %d %H %M %S` renders as a non-empty run of digits |
| Clock.StrftimeAppend | detect1.py:127 | rendering a format that is two formats joined renders each and joins the results |
| Clock.StrftimeAround | detect1.py:127 | a plain character between two formats renders as itself between their renderings |
| Clock.StrftimeKeepsOut | detect1.py:127 | a non-digit character that is not in the format never appears in its rendering |
| Clock.StrftimeSameSecond | detect1.py:117 | two readings within one second render every format of the code identically |
| Clock.DateAndTime | detect1.py:127 | the space split of `%Y-%m-%d %H:%M:%S` always yields exactly two parts, the `%Y-%m-%d` and the `%H:%M:%S` renderings of that reading |
| Clock.NextDay | detect1.py:108 | the day after a valid date is a valid date, in the same year or on 1 January of the next |
| Clock.MarchYearLength | detect1.py:108 | a year counted from March has 366 days exactly when the February that ends it is a Gregorian leap February, 365 otherwise |
| Clock.DaysFromCivilNextDay | detect1.py:108 | consecutive valid dates get consecutive day numbers, across month ends, year ends and leap days, so `now - last_seen` counts the days between two readings |
| Clock.ElapsedAcrossMidnight | detect1.py:108 | the last microsecond of any valid day and the first of the next are one microsecond apart |
| Clock.KnownInstant | detect1.py:108 | the epoch arithmetic agrees with a known instant, 2023-11-14 22:13:20 = 1 700 000 000 s |
| Clock.EpochIsDayZero | detect1.py:108 | 1970-01-01 is day 0 of the count |
| Clock.LeapDayPrecedesMarch | detect1.py:108 | in a leap year, 1 March is one day after 29 February |
| Clock.KnownPadding | detect1.py:117 | `%02d` of 7 is `07`, `%04d` of 2023 is `2023` |
| Clock.KnownDateRendering | detect1.py:127 | the date part of 2023-11-14 22:13:20 is `2023-11-14` |
| Clock.KnownTimeRendering | detect1.py:127 | the time part of 2023-11-14 22:13:20 is `22:13:20` |
| Archive.ImageFolder.Save | detect1.py:120 | saving under a name replaces that name's image and nothing else |
| Archive.AfterLastOf | detect1.py:119 | the text after the last underscore of `x + '_' + d`, with no underscore in `d`, is `d` |
| Archive.PlateCounterTextOf | detect1.py:119 | a plate image name gives back the decimal counter it was made with, whatever the stamp |
| Archive.PlateFilenamesDiffer | detect1.py:117-119 | plate images with different counters have different names, even with equal stamps |
| Archive.PlateAndOriginalNamesDiffer | detect1.py:119-123 | a plate image name never equals an original image name |
| Frames.SliceBound | detect1.py:89 | a numpy slice bound is clamped into the axis, negative bounds counting from the end |
| Frames.SliceLength | detect1.py:89-90 | a slice selects nothing exactly when its clamped stop is not after its clamped start |
| Frames.Fragments | detect1.py:99 | the kept OCR fragments are non-empty and stripped, and no more numerous than the raw ones |
| Frames.FragmentsEmpty | detect1.py:99 | no fragment is kept exactly when every raw fragment is blank |
| Frames.PlateText | detect1.py:99-101 | the plate text is stripped, and empty exactly when every OCR fragment is blank |
| PlatesCsv.PlatesFile.AppendRow | detect1.py:129-138 | appending creates the file if needed and adds exactly one line at its end |
| PlatesCsv.PlatesFile.Truncate | app.py:38-40 | opening for writing and writing the header leaves the header alone in the file |
| PlatesCsv.DictRows | app.py:27-32 | a `DictReader` never yields a blank line as a row |
| PlatesCsv.LastIndex | app.py:33 | `row['id']` reads the last column named `id`, and a missing column is a `KeyError` |
| PlatesCsv.FirstIdErrorSnoc | app.py:32-33 | reading one more row keeps an earlier exception, otherwise that row's id decides |
| PlatesCsv.FirstIdErrorPrefix | app.py:32-33 | once a prefix of the rows has raised, the rest are never read |
| PlatesCsv.FirstIdErrorAt | app.py:32-33 | the read loop stops at the first row whose `int(row['id'])` raises |
| PlatesCsv.FirstIdErrorNone | app.py:32-33 | the loop gets through all rows exactly when every id is readable |
| PlatesCsv.DictToRow | app.py:41 | a row `DictWriter` writes has one field per header column |
| PlatesCsv.WriteRows | app.py:41 | `writerows` writes at most one line per row, exactly one per row when it does not raise |
| PlatesCsv.WriteRowsStopsAtFailure | app.py:41 | after a row raises, nothing more is written |
| PlatesCsv.Rewrite | app.py:38-41 | the file afterwards is the header plus the lines `writerows` got through, and the result says whether it finished |
| PlatesCsv.LastIndexOfDistinct | app.py:33 | with distinct column names, each name is found at its own column |
| PlatesCsv.WriteBackUnchanged | app.py:41 | a well-shaped row read and written back is unchanged |
| PlatesCsv.WriteBackWithPlate | app.py:71 | a reassigned `'plate'` entry replaces exactly the plate field |
| PlatesCsv.WriteRowsUnchanged | app.py:38-41 | writing back rows as read, on a well-shaped file, writes exactly those rows and finishes |
| PlatesCsv.MaxFirstFieldId | detect1.py:44-50 | the scan's result is never below -1 |
| PlatesCsv.MaxFirstFieldIdIsMaximum | detect1.py:44-50 | the scan's result bounds every integer first field, and is -1 or one of them |
| PlatesCsv.LastIdAfterAppend | detect1.py:128-138 | appending a row whose id exceeds the file's largest makes it the largest, so a fresh scan finds it |
| PlatesCsv.ScanLastId | detect1.py:39-50 | the start-up `last_id` skips the header, blank rows and non-integer rows and is the largest id found, or -1 |
| PlatesCsv.RecordRow | detect1.py:131-138 | the appended row has the six header fields, with plate text and both image names in place |
| PlatesCsv.RecordRowId | detect1.py:132 | every later scan reads the appended row back as the id it was written with |
| PlateApi.DeleteMultiple | app.py:17-46 | a non-list `ids` is a 400 that leaves the store as it was; the reported ids are among those requested; no failure other than a refused write changes the file |
| PlateApi.UpdatePlate | app.py:52-86 | a missing or empty plate is a 400 that touches nothing; success names the requested id; no failure other than a refused write changes the file |
| PlateApi.DeletePlate | app.py:92-120 | success names the requested id; no failure other than a refused write changes the file |
| PlateApi.ListPlates | app.py:123-143 | the listing is answered with status 200, even when it fails |
| PlateApi.ScanBulkDelete | app.py:32-36 | the loop stops at the first unreadable id; otherwise it keeps exactly the unrequested rows in order and collects exactly the requested ids present |
| PlateApi.HandleDeleteMultiple | app.py:17-46 | the handler's reply and the file afterwards are those of `DeleteMultiple` |
| PlateApi.ScanUpdate | app.py:69-73 | every row is passed on, in order, the ones carrying the id with the new plate; `updated` holds exactly when some row carries the id |
| PlateApi.HandleUpdatePlate | app.py:52-86 | the handler's reply and the file afterwards are those of `UpdatePlate` |
| PlateApi.ScanDelete | app.py:104-108 | every row carrying the id is dropped, the rest kept in order; `found` holds exactly when some row carried it |
| PlateApi.HandleDeletePlate | app.py:92-120 | the handler's reply and the file afterwards are those of `DeletePlate` |
| PlateApi.ListingPrefix | app.py:129-134 | once a row's id cannot be read, the listing's answer is fixed |
| PlateApi.GetPlates | app.py:123-143 | the handler's reply is `ListPlates` of the file |
| ApiProperties.StoredIdsMembers | app.py:33-36 | an id is stored exactly when some row carries it |
| ApiProperties.KeptRowsWellFormed | app.py:38-41 | writing back any selection of a well-formed store's rows gives a well-formed store holding exactly that selection |
| ApiProperties.BulkDeleteOnWellFormed | app.py:32-43 | a bulk delete writes the header plus the unrequested rows in order, and reports the requested ids present |
| ApiProperties.BulkDeleteSelection | app.py:32-36 | the kept rows are exactly the unrequested ones; an id is reported exactly when it was requested and some row carried it |
| ApiProperties.SurvivorsSurvive | app.py:32-34 | the rows a bulk delete keeps pass it again, and carry no requested id |
| ApiProperties.BulkDeleteIdempotent | app.py:17-46 | repeating a bulk delete on its own result deletes nothing and writes the same store |
| ApiProperties.DeletePlateTwice | app.py:104-116 | a delete drops every row carrying the id and keeps the rest in order; deleting it again is a 404 that writes nothing |
| ApiProperties.SetField | app.py:71 | only the field set changes, and the row's width is kept |
| ApiProperties.WithPlate | app.py:69-73 | the reference update: same rows and widths, only the plate field of rows carrying the id changed |
| ApiProperties.WriteRetagged | app.py:78-81 | writing the update's rows writes exactly the reference update |
| ApiProperties.UpdateOnWellFormed | app.py:69-81 | an update sets the plate on every row carrying the id and changes nothing else, or answers 404 and writes nothing |
| ApiProperties.UpdateWithoutPlateColumnTruncates | app.py:71-81 | without a `plate` column, updating a stored id leaves the header and only the rows before its first row, answering 500 |
| ApiProperties.ListingConcat | app.py:129-140 | the listing of two runs of lines is the listing of the first followed by that of the second |
| ApiProperties.ListingSkipsMalformed | app.py:130-131 | a line without six fields changes nothing in the listing |
| ApiProperties.EncodeRecordReadsBack | app.py:132-140 | an appended record is six fields wide and lists back as itself |
| ApiProperties.ListingRoundTrip | app.py:129-140 | records written as the scripts write them list back exactly, in order |
| ApiProperties.ListRoundTrip | app.py:126-141 | whatever the first line holds, `GET /api/plates` returns exactly the records written after it |
| LiveIngest.NormalizeText | detect1.py:60-61 | the key holds only alphanumeric characters, none lower-case, and is no longer than the text |
| LiveIngest.NormalizeConcat | detect1.py:61 | normalising distributes over concatenation |
| LiveIngest.NormalizeIdempotent | detect1.py:60-61 | normalising twice is normalising once |
| LiveIngest.NormalizedIsFixed | detect1.py:60-61 | a string of upper-case letters and digits is its own key |
| LiveIngest.NormalizeStrip | detect1.py:60-61 | stripping white space before normalising changes nothing |
| LiveIngest.KeyIgnoresFragmentation | detect1.py:99-103 | a plate's key depends only on the characters OCR read, not on how they were split into fragments |
| LiveIngest.Judge | detect1.py:84-111 | an accepted detection carries the joined non-empty stripped text and its key, and no tracked key is similar to it |
| LiveIngest.JudgeAcceptsExactly | detect1.py:85-111 | a detection is accepted exactly when it is confident, its crop is non-empty, OCR read text and no tracked key is similar; the cooldown never decides |
| LiveIngest.TrackedKeyRejected | detect1.py:107-111 | a key already tracked is rejected, however long ago it was seen |
| LiveIngest.Accept | detect1.py:113-138 | acceptance tracks the key at this time, adds one row after the file's lines with the next id and counter, and raises both counters by one |
| LiveIngest.AcceptRecords | detect1.py:114-138 | an accepted plate appends exactly one row: the next id, the date and time from splitting one reading at the space, the text, the counted plate image name and the original image name. The crop is saved under that plate name, and the key is tracked at this reading while every other tracked key keeps its time |
| LiveIngest.HeaderlessFirstRecord | detect1.py:34-50 | on an existing but empty file, the first accepted row (id 0) is the whole file: the listing reads it as the header, and a restart's scan finds no id |
| LiveIngest.AcceptSavesOriginal | detect1.py:123-138 | the row names the original image just saved, which replaces any image of that name |
| LiveIngest.SameSecondSharesOriginal | detect1.py:117-124 | two plates accepted within one second name the same original image, and the second frame overwrites the first |
| LiveIngest.AcceptAppends | detect1.py:113-138 | an acceptance only appends, one row numbered from the counters |
| LiveIngest.StepAppends | detect1.py:83-111 | one more detection, accepted or not, keeps the file an append-only extension of the earlier state, with consecutive ids and counters |
| LiveIngest.FrameRunAppends | detect1.py:83-144 | a frame only appends, with consecutive ids and counters |
| LiveIngest.SessionAppends | detect1.py:70-148 | over a session the file only grows at its end, with consecutive ids and plate numbers, and no tracked key is dropped |
| LiveIngest.AppendedPlateNamesDistinct | detect1.py:118-119 | no two rows of a session name the same plate image |
| LiveIngest.StepKeepsSync | detect1.py:128-138 | after a detection, `last_id` still equals what a fresh start-up scan of the file finds |
| LiveIngest.FrameRunKeepsSync | detect1.py:83-138 | after a frame, `last_id` still equals what a fresh scan finds |
| LiveIngest.SessionKeepsSync | detect1.py:70-138 | over a session, `last_id` stays equal to what a fresh scan finds |
| LiveIngest.LiveSession.constructor | detect1.py:32-57 | start-up creates a missing file with the header only, starts the tracker and counter empty, and takes `last_id` from the scan |
| LiveIngest.LiveSession.IsNewPlate | detect1.py:63-68 | the scan answers new exactly when no tracked key is similar |
| LiveIngest.LiveSession.Consider | detect1.py:84-111 | one detection changes the session exactly as `Step` does |
| LiveIngest.LiveSession.Record | detect1.py:113-138 | an accepted plate changes the session exactly as `Accept` does |
| LiveIngest.LiveSession.ProcessFrame | detect1.py:83-144 | a frame changes the session exactly as `FrameRun` does |
| LiveIngest.LiveSession.Run | detect1.py:70-148 | the capture loop changes the session exactly as `SessionRun` does |
| BatchIngest.BatchText | detect2.py:71-76 | the stored text is never empty and is stripped: `N/A` when every fragment is blank, the joined fragments otherwise |
| BatchIngest.InitialLastId | detect2.py:45-56 | `last_id` is -1 when the file is absent, otherwise the scan's result |
| BatchIngest.Reached | detect2.py:59-68 | the run records exactly the detections before the first empty crop |
| BatchIngest.StepRowId | detect2.py:83-90 | each row is read back with the id after `last_id` |
| BatchIngest.BatchRowFields | detect2.py:64-95 | the `j`-th row names the plate image numbered `counter + j + 1` and the run's one original image |
| BatchIngest.BatchRowId | detect2.py:83-84 | the `j`-th row reads back as id `last_id + 1 + j` |
| BatchIngest.BatchRowText | detect2.py:71-80 | the `j`-th row holds its own clock reading's date and time and a non-empty text, `N/A` when OCR read nothing |
| BatchIngest.StepRecords | detect2.py:59-101 | a recorded detection adds one row, one box and one plate image, and raises both counters by one |
| BatchIngest.WrittenFileExists | detect2.py:87 | a run only adds lines, and once it has added one the file exists |
| BatchIngest.BatchRunClosedForm | detect2.py:59-101 | a run records the detections before the first empty crop, in order, one row each; it crashed exactly when some crop was empty |
| BatchIngest.CrashedStays | detect2.py:68 | nothing happens after the crash |
| BatchIngest.BatchPlateNamesDistinct | detect2.py:64-66 | no two rows of a run name the same plate image |
| BatchIngest.BatchStepKeepsSync | detect2.py:83-96 | after a detection, `last_id` equals what a fresh scan finds |
| BatchIngest.BatchRunKeepsSync | detect2.py:58-96 | after the whole loop, `last_id` equals what a fresh scan finds |
| BatchIngest.ProcessDetection | detect2.py:59-101 | one pass of the loop changes the file, counters and plate folder exactly as `BatchStep` does |
| BatchIngest.ProcessDetections | detect2.py:58-101 | the loop changes the file and plate folder exactly as `BatchRun` does, and reports whether it crashed |
| BatchIngest.RunBatch | detect2.py:18-109 | the original is saved first, then the loop runs, and the result image is saved only if nothing crashed |
| CrossProcess.ListingReadable | app.py:129-140 | six-field rows with ids `first`, `first + 1`, … list back one record each, in order |
| CrossProcess.ListingAfterFirstRow | app.py:128-140 | for rows numbered from id 0, the listing takes the first for the header and lists the others with ids 1, 2, … |
| CrossProcess.HeaderlessRun | detect2.py:46-96 | a run on a missing file creates it holding exactly the rows it records, with no header |
| CrossProcess.HeaderlessRunListing | app.py:126-141 | after a single-image run that created the file, the listing lists every recorded detection but the first, whose row became the header |

## Left out

- The YOLOv5 detector, EasyOCR and the camera: detections, confidences, OCR fragments and frames are inputs.
- All pixel work: resizing, sharpening, grayscale, Otsu thresholding, drawing boxes and labels, `imshow`, `waitKey`.
  - A saved image is modelled only by what it shows.
  - A crop one pixel wide or high makes the half-size resize in `detect1.py` fail. That crash is not modelled.
- `SequenceMatcher.ratio()` itself is a parameter. Only its reflexivity below 200 characters is assumed.
- Floating point:
  - the confidence is an integer count of millionths;
  - the box coordinates are already truncated to `int`;
  - the label's `conf:.2f` is not modelled.
- `datetime.now()` gives each reading as an input.
  - `strftime` directives other than `%Y %m %d %H %M %S` render as written. The code uses no others.
  - The naive local time has no time-zone or DST shift.
- Non-ASCII characters:
  - `str.isalnum` and `str.upper` are ASCII only;
  - `str.isspace` covers the Latin-1 range.
- The Flask layer:
  - routing, CORS and image routes (`send_from_directory`);
  - the home route, `app.run` and the directory creation at start-up.
  - An unreadable JSON body is one failure value. An `update_plate` request without a JSON body is not modelled.
  - The `ids` payload is a list of integers or not a list. A list holding non-integers is not modelled.
  - `pandas` is imported but unused.
- `update_plate` stores `str()` of any truthy JSON `plate` value, such as a number, a list or `true`; a falsy non-string such as `0` or `false` gets a 400. `PlateApi.UpdatePlate` takes the value as an optional string, so non-string plate values are not modelled.
- PyText.ParseInt: accepts ASCII digits only. Python's `int()` also accepts every other Unicode decimal digit, for the ids read in `app.py` and in both scripts' scans, so ids written in non-ASCII digits are not modelled.
- CSV quoting and escaping: a line is its parsed fields.
- `detect2.py` reading `2.jpg` is not modelled. An unreadable image (`img` is `None`) is outside the model.
- `pathlib` changes on Windows: there is no path arithmetic in the model.
- Concurrency between the ingestion scripts and the service: each operation is atomic here. Races, torn reads and lost appends across processes are not modelled.
- `front-end/` is not part of this model.
- PlateApi.ListPlates: its contract states only the status code. What it lists is stated by `CrossProcess.ListingReadable`, `ApiProperties.ListingRoundTrip` and `ApiProperties.ListingSkipsMalformed`.
- BatchIngest.StepRowId: it states only the id of a row. The row's other fields are stated by `BatchIngest.BatchRowFields` and `BatchIngest.BatchRowText`.
