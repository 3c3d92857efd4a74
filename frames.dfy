/**
 * What both pipelines make of a detector box and of the OCR output before any
 * decision: whether the crop is empty, and the plate text the fragments join into.
 */
module Frames {
  import opened PyText
  import opened Archive

  /**
   * A slice bound as numpy reads it against an axis of length `len`: a negative bound
   * counts from the end, and the result is clamped into the axis.
   */
  function SliceBound(i: int, len: nat): (b: nat)
    ensures b <= len
    ensures 0 <= i <= len ==> b == i
    ensures -(len as int) <= i < 0 ==> b == i + len
    ensures i < -(len as int) ==> b == 0
    ensures i > len ==> b == len
  {
    if i < 0 then (if i + len < 0 then 0 else i + len)
    else if i > len then len
    else i
  }

  /** The number of positions `a[start:stop]` selects on an axis of length `len`. */
  function SliceLength(start: int, stop: int, len: nat): (n: nat)
    ensures n <= len
    ensures n == 0 <==> SliceBound(stop, len) <= SliceBound(start, len)
  {
    var a, b := SliceBound(start, len), SliceBound(stop, len);
    if b > a then b - a else 0
  }

  /** `img[y1:y2, x1:x2].size == 0` for an image `height` rows high and `width` columns wide. */
  predicate CropIsEmpty(b: Box, width: nat, height: nat)
  {
    SliceLength(b.y1, b.y2, height) == 0 || SliceLength(b.x1, b.x2, width) == 0
  }

  /** `[d[1].strip() for d in result if d[1].strip()]`: the OCR fragments that are not blank, stripped. */
  function Fragments(texts: seq<string>): (parts: seq<string>)
    ensures |parts| <= |texts|
    ensures forall i :: 0 <= i < |parts| ==> parts[i] != "" && Trimmed(parts[i])
  {
    if texts == [] then []
    else (if Strip(texts[0]) == "" then [] else [Strip(texts[0])]) + Fragments(texts[1..])
  }

  predicate AllBlank(texts: seq<string>)
  {
    forall i :: 0 <= i < |texts| ==> AllSpace(texts[i])
  }

  lemma {:induction false} FragmentsEmpty(texts: seq<string>)
    ensures Fragments(texts) == [] <==> AllBlank(texts)
  {
    if texts != [] {
      FragmentsEmpty(texts[1..]);
      assert forall i :: 1 <= i < |texts| ==> texts[1..][i - 1] == texts[i];
    }
  }

  /**
   * `' '.join(...)` of the fragments: the plate text. It has no white space at either
   * end, and it is empty exactly when every fragment is blank.
   */
  function PlateText(texts: seq<string>): (t: string)
    ensures Trimmed(t)
    ensures t == "" <==> AllBlank(texts)
  {
    JoinTrimmedParts(Fragments(texts));
    FragmentsEmpty(texts);
    JoinWithSpace(Fragments(texts))
  }
}
