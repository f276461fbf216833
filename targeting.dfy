/**
 * Target selection: from the candidate regions found in the combined mask,
 * pick the largest (the first one on ties, as Python's `max` does), reject it
 * unless its area is strictly above the gate, and turn the top-centre of its
 * bounding box into an offset from the ROI centre.
 */
module Targeting {
  import opened Options

  /** An axis-aligned bounding box in ROI-local pixels (`cv2.boundingRect`). */
  datatype Box = Box(x: int, y: int, w: nat, h: nat)

  /** A contour, seen through `cv2.contourArea` and `cv2.boundingRect`. */
  datatype Candidate = Candidate(area: real, box: Box)

  /** The area gate; a candidate passes only when its area is strictly above it. */
  const MinArea: real := 5.0

  /** Index of the first candidate of maximal area. */
  function LargestIndex(cs: seq<Candidate>): (k: nat)
    requires |cs| > 0
    ensures k < |cs|
    ensures forall j :: 0 <= j < |cs| ==> cs[j].area <= cs[k].area
    ensures forall j :: 0 <= j < k ==> cs[j].area < cs[k].area
  {
    if |cs| == 1 then 0
    else
      var best := LargestIndex(cs[..|cs| - 1]);
      if cs[|cs| - 1].area > cs[best].area then |cs| - 1 else best
  }

  /** Top-centre of the box, relative to the centre of a size-by-size ROI. */
  function TopCenterOffset(b: Box, size: nat): (int, int) {
    (b.x + b.w / 2 - size / 2, b.y - size / 2)
  }

  /** The box lies inside a width-by-height grid and is not empty. */
  predicate BoxInside(b: Box, width: nat, height: nat) {
    0 <= b.x && 1 <= b.w && b.x + b.w <= width && 0 <= b.y && 1 <= b.h && b.y + b.h <= height
  }

  /** The offset to aim at, or None when no candidate passes. */
  function SelectTarget(cs: seq<Candidate>, size: nat): (r: Option<(int, int)>)
    ensures |cs| == 0 ==> r.None?
    ensures r.Some? <==> exists j :: 0 <= j < |cs| && cs[j].area > MinArea
    ensures r.Some? ==> var k := LargestIndex(cs);
                        cs[k].area > MinArea && r.value == TopCenterOffset(cs[k].box, size)
  {
    if |cs| == 0 then None
    else
      var k := LargestIndex(cs);
      if cs[k].area > MinArea then Some(TopCenterOffset(cs[k].box, size)) else None
  }

  /** A box inside the ROI gives an offset within [-(size // 2), size - 1 - size // 2]
      on both axes. */
  lemma OffsetWithinRoi(b: Box, size: nat)
    requires BoxInside(b, size, size)
    ensures var (dx, dy) := TopCenterOffset(b, size);
            && -(size / 2) <= dx <= size - 1 - size / 2
            && -(size / 2) <= dy <= size - 1 - size / 2
  {
    assert b.w / 2 <= b.w - 1;
  }

  /** The largest candidate wins whatever its position in the list. */
  lemma LargerCandidateWins(small: Candidate, large: Candidate, size: nat)
    requires MinArea < large.area && small.area < large.area
    ensures SelectTarget([small, large], size) == Some(TopCenterOffset(large.box, size))
    ensures SelectTarget([large, small], size) == Some(TopCenterOffset(large.box, size))
  {
    assert LargestIndex([small, large]) == 1;
    assert LargestIndex([large, small]) == 0;
  }

  /** Among equally large candidates the first one listed wins. */
  lemma FirstWinsOnTies(a: Candidate, b: Candidate, size: nat)
    requires a.area == b.area && a.area > MinArea
    ensures SelectTarget([a, b], size) == Some(TopCenterOffset(a.box, size))
  {
    assert LargestIndex([a, b]) == 0;
  }

  /** An area of exactly 5 is rejected; anything above it passes. */
  lemma GateIsStrict(b: Box, size: nat)
    ensures SelectTarget([Candidate(4.0, b), Candidate(5.0, b)], size).None?
    ensures SelectTarget([Candidate(5.5, b)], size).Some?
  {
    assert [Candidate(5.5, b)][0].area > MinArea;
  }

  /** A 10-by-10 square at (45, 45) in the 100-pixel ROI gives the offset (0, -5). */
  lemma CentredSquareExample()
    ensures SelectTarget([Candidate(100.0, Box(45, 45, 10, 10))], 100) == Some((0, -5))
  {
  }
}
