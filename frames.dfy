/**
 * Frames as numpy-style two-dimensional grids, Python slicing on them, and the
 * square region of interest (ROI) that `process_frame` cuts out of the middle of
 * each captured frame.
 */
module Frames {

  /** A grid of pixels, row-major: `rows[i][j]` is the pixel in row `i` (y) and
      column `j` (x). The width is kept on its own so that a grid without rows
      still has one, as a numpy shape does. */
  datatype Grid<P> = Grid(rows: seq<seq<P>>, width: nat)
  {
    /** Every row has exactly `width` pixels. */
    predicate Wf() {
      forall i :: 0 <= i < |rows| ==> |rows[i]| == width
    }

    function Height(): nat {
      |rows|
    }

    predicate SameShape<Q>(other: Grid<Q>) {
      Height() == other.Height() && width == other.width
    }
  }

  /** A rectangular image: what a numpy array of shape (height, width, ...) is. */
  type Image<P> = g: Grid<P> | g.Wf() witness Grid([], 0)

  /** Where a Python slice bound `i` lands in a sequence of length `n`: a
      negative bound counts from the end, and the result is clamped to [0, n]. */
  function SliceIndex(i: int, n: nat): (r: nat)
    ensures r <= n
    ensures 0 <= i <= n ==> r == i
  {
    if i < 0 then (if i + n < 0 then 0 else i + n)
    else if i > n then n
    else i
  }

  /** Number of elements that `s[start:stop]` has in Python when `|s| == n`. */
  function SliceLength(n: nat, start: int, stop: int): (len: nat)
    ensures len <= n
  {
    var lo, hi := SliceIndex(start, n), SliceIndex(stop, n);
    if lo <= hi then hi - lo else 0
  }

  /** Python's `s[start:stop]` (step 1). */
  function Slice<T>(s: seq<T>, start: int, stop: int): (r: seq<T>)
    ensures |r| == SliceLength(|s|, start, stop)
    ensures forall k :: 0 <= k < |r| ==> SliceIndex(start, |s|) + k < |s| && r[k] == s[SliceIndex(start, |s|) + k]
    ensures 0 <= start <= stop <= |s| ==> r == s[start..stop]
  {
    var lo, hi := SliceIndex(start, |s|), SliceIndex(stop, |s|);
    if lo <= hi then s[lo..hi] else []
  }

  /** Top-left corner (left, top) of the size-by-size region centred on a
      width-by-height frame: `width // 2 - size // 2`, `height // 2 - size // 2`.
      (Dafny's `/` on a positive divisor is Python's floor division.) */
  function RoiCorner(width: nat, height: nat, size: nat): (corner: (int, int))
    ensures size <= width ==> 0 <= corner.0 && corner.0 + size <= width
    ensures size <= height ==> 0 <= corner.1 && corner.1 + size <= height
  {
    (width / 2 - size / 2, height / 2 - size / 2)
  }

  /** `frame[top:top+size, left:left+size]` with (left, top) from RoiCorner. */
  function CropRoi<P>(frame: Image<P>, size: nat): (roi: Image<P>)
    ensures roi.Height() <= frame.Height() && roi.width <= frame.width
    ensures roi.Height() <= size && roi.width <= size
    ensures 0 < size && 0 < frame.width && 0 < frame.Height() ==> 0 < roi.width && 0 < roi.Height()
  {
    var (left, top) := RoiCorner(frame.width, frame.Height(), size);
    var band := Slice(frame.rows, top, top + size);
    var rows := CropColumns(band, left, size, frame.width);
    var width := SliceLength(frame.width, left, left + size);
    CenteredSliceLength(frame.width, size);
    CenteredSliceLength(frame.Height(), size);
    Grid(rows, width)
  }

  /** `rows[:, left:left+size]` for rows that all have `width` pixels. */
  function CropColumns<P>(band: seq<seq<P>>, left: int, size: nat, width: nat): (rows: seq<seq<P>>)
    requires forall i :: 0 <= i < |band| ==> |band[i]| == width
    ensures |rows| == |band|
    ensures forall i :: 0 <= i < |rows| ==>
              |rows[i]| == SliceLength(width, left, left + size) && rows[i] == Slice(band[i], left, left + size)
  {
    seq(|band|, i requires 0 <= i < |band| => Slice(band[i], left, left + size))
  }

  /** Slicing `size` elements from `n // 2 - size // 2` never gives more than
      `size` elements, whatever Python does with a negative start, and gives
      at least one when there is one to give. */
  lemma CenteredSliceLength(n: nat, size: nat)
    ensures var start := n / 2 - size / 2;
            && SliceLength(n, start, start + size) <= size
            && (0 < size && 0 < n ==> 0 < SliceLength(n, start, start + size))
  {
    var start := n / 2 - size / 2;
    if start < 0 {
      assert n < size;
    }
  }

  /** When the ROI fits the frame, the crop is exactly size-by-size and holds
      the frame's pixels shifted by the ROI corner. */
  lemma RoiIsExact<P>(frame: Image<P>, size: nat)
    requires size <= frame.width && size <= frame.Height()
    ensures var roi := CropRoi(frame, size);
            var (left, top) := RoiCorner(frame.width, frame.Height(), size);
            && roi.Height() == size && roi.width == size
            && forall i, j :: 0 <= i < size && 0 <= j < size ==>
                 roi.rows[i][j] == frame.rows[top + i][left + j]
  {
    var roi := CropRoi(frame, size);
    var (left, top) := RoiCorner(frame.width, frame.Height(), size);
    var band := Slice(frame.rows, top, top + size);
    assert band == frame.rows[top..top + size];
    forall i, j | 0 <= i < size && 0 <= j < size
      ensures roi.rows[i][j] == frame.rows[top + i][left + j]
    {
      assert band[i] == frame.rows[top + i];
      assert Slice(band[i], left, left + size) == band[i][left..left + size];
    }
  }

  /** For an even ROI size the corner is also ((width - size) // 2, (height - size) // 2):
      the ROI is centred. */
  lemma EvenRoiIsCentred(width: nat, height: nat, size: nat)
    requires size % 2 == 0
    ensures RoiCorner(width, height, size) == ((width - size) / 2, (height - size) / 2)
  {
  }

  /** For an odd size the two formulas part when the frame side is even: the
      corner is then one pixel right of (or below) (W - S) // 2; for an odd
      side they agree. A 100-wide frame with a 3-wide ROI gets left edge 49,
      where (100 - 3) // 2 is 48. */
  lemma OddRoiIsOffCentre(width: nat, height: nat, size: nat)
    requires size % 2 == 1
    ensures RoiCorner(width, height, size).0 == (width - size) / 2 + (if width % 2 == 0 then 1 else 0)
    ensures RoiCorner(width, height, size).1 == (height - size) / 2 + (if height % 2 == 0 then 1 else 0)
  {
  }

}
