/**
 * `process_frame`: crop the ROI, convert it to HSV, build the combined mask,
 * find candidate regions and select the target offset. The OpenCV steps whose
 * numerics are not modelled (colour conversion, dilation, contour extraction
 * with area and bounding box) are supplied as functions in a `Vision` value.
 */
module Pipeline {
  import opened Options
  import opened Frames
  import opened Segmentation
  import opened Targeting

  /** Side length of the square ROI, in pixels (`fov_size`). */
  const FovSize: nat := 100

  /** The library operations the pipeline relies on:
      `toHsv` is `cv2.cvtColor(..., COLOR_BGR2HSV)` on one pixel,
      `dilate` is `cv2.dilate` with the 2x2 kernel and two iterations,
      `contours` is `cv2.findContours(..., RETR_EXTERNAL, ...)` with each
      contour's area and bounding box. */
  datatype Vision = Vision(toHsv: Bgr -> Hsv, dilate: Mask -> Mask, contours: Mask -> seq<Candidate>)

  ghost predicate ValidVision(ops: Vision) {
    ShapePreserving(ops.dilate)
  }

  /** Every bounding box reported for a mask lies inside that mask. */
  ghost predicate BoxesInsideMask(ops: Vision) {
    forall m: Mask, c :: c in ops.contours(m) ==> BoxInside(c.box, m.width, m.Height())
  }

  /** The combined mask of a frame's ROI. */
  function FrameMask(frame: Image<Bgr>, ops: Vision): (m: Mask)
    requires ValidVision(ops)
    ensures m.width <= FovSize && m.Height() <= FovSize
    ensures FovSize <= frame.width && FovSize <= frame.Height() ==>
              m.width == FovSize && m.Height() == FovSize
  {
    var roi := CropRoi(frame, FovSize);
    RoiIsExactWhenFits(frame);
    CombinedMask(MapImage(roi, ops.toHsv), ops.dilate)
  }

  lemma RoiIsExactWhenFits(frame: Image<Bgr>)
    ensures FovSize <= frame.width && FovSize <= frame.Height() ==>
              CropRoi(frame, FovSize).width == FovSize && CropRoi(frame, FovSize).Height() == FovSize
  {
    if FovSize <= frame.width && FovSize <= frame.Height() {
      RoiIsExact(frame, FovSize);
    }
  }

  /** The candidates `findContours` reports for the frame. */
  function FrameCandidates(frame: Image<Bgr>, ops: Vision): seq<Candidate>
    requires ValidVision(ops)
  {
    ops.contours(FrameMask(frame, ops))
  }

  /** `process_frame(frame)`: the pair (target_x, target_y), each None when no target. */
  function ProcessFrame(frame: Option<Image<Bgr>>, ops: Vision): (r: (Option<int>, Option<int>))
    requires ValidVision(ops)
    ensures frame.None? ==> r == (None, None)
    ensures r.0.Some? <==> r.1.Some?
    ensures r.0.Some? <==> frame.Some? && exists c :: c in FrameCandidates(frame.value, ops) && c.area > MinArea
    ensures r.0.Some? ==>
              var cs := FrameCandidates(frame.value, ops);
              var best := cs[LargestIndex(cs)];
              best.area > MinArea && (r.0.value, r.1.value) == TopCenterOffset(best.box, FovSize)
  {
    match frame
    case None => (None, None)
    case Some(f) =>
      var cs := FrameCandidates(f, ops);
      match SelectTarget(cs, FovSize)
      case None => (None, None)
      case Some((x, y)) => (Some(x), Some(y))
  }

  /** A reported target lies within [-50, 49] on both axes, whatever the
      frame's size: the mask is never larger than the ROI. */
  lemma TargetWithinRoi(frame: Image<Bgr>, ops: Vision)
    requires ValidVision(ops) && BoxesInsideMask(ops)
    ensures var (tx, ty) := ProcessFrame(Some(frame), ops);
            tx.Some? ==> -50 <= tx.value <= 49 && -50 <= ty.value <= 49
  {
    var (tx, ty) := ProcessFrame(Some(frame), ops);
    if tx.Some? {
      var m := FrameMask(frame, ops);
      var cs := ops.contours(m);
      var best := cs[LargestIndex(cs)];
      assert best in cs;
      OffsetWithinRoi(best.box, FovSize);
    }
  }
}
