/**
 * The image archive: the `plates` and `original_images` folders, and the file names
 * the pipelines give the images they save there.
 */
module Archive {
  import opened PyText
  import opened Clock

  /** A detector bounding box, in whole pixels (`x1, y1, x2, y2`). */
  datatype Box = Box(x1: int, y1: int, x2: int, y2: int)

  /**
   * What a saved image shows: a crop of a frame, or a whole frame, each with the boxes
   * already drawn on that frame when it was saved. Pixels are not modelled.
   */
  datatype Image = Crop(frame: nat, drawn: seq<Box>, box: Box) | Whole(frame: nat, drawn: seq<Box>)

  /** One image folder; `cv2.imwrite` to an existing name replaces that file. */
  class ImageFolder {
    var files: map<string, Image>

    constructor (files: map<string, Image>)
      ensures this.files == files
    {
      this.files := files;
    }

    method Save(name: string, image: Image)
      modifies this
      ensures files == old(files)[name := image]
    {
      files := files[name := image];
    }
  }

  /** `f'plate_{timestamp}_{plate_counter}.jpg'` with `timestamp` the `%Y%m%d_%H%M%S` stamp. */
  function PlateFilename(t: DateTime, counter: nat): string
  {
    "plate_" + StampText(t) + "_" + NatToString(counter) + ".jpg"
  }

  /** `f'original_{timestamp}.jpg'`. */
  function OriginalFilename(t: DateTime): string
  {
    "original_" + StampText(t) + ".jpg"
  }

  /** `f'result_{result_timestamp}.jpg'`, the annotated image of a batch run. */
  function ResultFilename(t: DateTime): string
  {
    "result_" + StampText(t) + ".jpg"
  }

  /** The text after the last `c` in `s`; all of `s` when it holds no `c`. */
  function AfterLast(s: string, c: char): (tail: string)
    ensures c !in tail && |tail| <= |s|
    decreases |s|
  {
    if s == [] then []
    else if s[|s| - 1] == c then []
    else AfterLast(s[..|s| - 1], c) + [s[|s| - 1]]
  }

  /** Whatever precedes it, the last `c` of `x + c + d` is the one before `d` when `d` holds none. */
  lemma {:induction false} AfterLastOf(x: string, c: char, d: string)
    requires c !in d
    ensures AfterLast(x + [c] + d, c) == d
    decreases |d|
  {
    var s := x + [c] + d;
    if d == [] {
      assert s[|s| - 1] == c;
    } else {
      var k := |d| - 1;
      assert s[..|s| - 1] == x + [c] + d[..k];
      AfterLastOf(x, c, d[..k]);
      assert d[..k] + [d[k]] == d;
    }
  }

  lemma NoUnderscoreInDigits(s: string)
    requires AllDigits(s)
    ensures '_' !in s
  {
  }

  /** The counter as a plate image name spells it: the text between the last underscore and `.jpg`. */
  function PlateCounterText(name: string): string
  {
    if |name| < 4 then "" else AfterLast(name[..|name| - 4], '_')
  }

  /** A plate image name gives back the decimal counter it was made with, whatever the stamp. */
  lemma PlateCounterTextOf(t: DateTime, counter: nat)
    ensures PlateCounterText(PlateFilename(t, counter)) == NatToString(counter)
  {
    var x, d := "plate_" + StampText(t), NatToString(counter);
    var n := x + "_" + d;
    assert PlateFilename(t, counter) == n + ".jpg";
    assert (n + ".jpg")[..|n + ".jpg"| - 4] == n;
    NoUnderscoreInDigits(d);
    AfterLastOf(x, '_', d);
  }

  /** Plate images with different counters have different names, whatever their stamps. */
  lemma PlateFilenamesDiffer(t1: DateTime, c1: nat, t2: DateTime, c2: nat)
    requires c1 != c2
    ensures PlateFilename(t1, c1) != PlateFilename(t2, c2)
  {
    PlateCounterTextOf(t1, c1);
    PlateCounterTextOf(t2, c2);
    if NatToString(c1) == NatToString(c2) {
      NatToStringInjective(c1, c2);
    }
  }

  /** A plate image never shares its name with an original image. */
  lemma PlateAndOriginalNamesDiffer(t1: DateTime, c: nat, t2: DateTime)
    ensures PlateFilename(t1, c) != OriginalFilename(t2)
  {
    PrefixesKeepApart(StampText(t1), NatToString(c), StampText(t2));
  }

  lemma PrefixesKeepApart(stamp1: string, counter: string, stamp2: string)
    ensures "plate_" + stamp1 + "_" + counter + ".jpg" != "original_" + stamp2 + ".jpg"
  {
    assert ("plate_" + stamp1 + "_" + counter + ".jpg")[1] != ("original_" + stamp2 + ".jpg")[1];
  }
}
