/**
 * Colour segmentation of the ROI: per-pixel HSV thresholding against the two
 * configured colour bands (`cv2.inRange`), and the combined mask, which is the
 * pointwise OR of the two band masks after each has been dilated on its own.
 */
module Segmentation {
  import opened Frames

  /** One 8-bit colour channel. */
  type Channel = c: int | 0 <= c < 256

  /** A captured pixel, in the blue-green-red channel order `COLOR_BGR2HSV` assumes. */
  datatype Bgr = Bgr(b: Channel, g: Channel, r: Channel)

  /** A pixel in hue/saturation/value form. */
  datatype Hsv = Hsv(h: Channel, s: Channel, v: Channel)

  /** An inclusive HSV range. */
  datatype Band = Band(lower: Hsv, upper: Hsv)

  const Band1 := Band(Hsv(145, 115, 125), Hsv(150, 200, 255))
  const Band2 := Band(Hsv(30, 165, 159), Hsv(31, 255, 255))

  /** A binary mask; `true` stands for OpenCV's 255 and `false` for 0. */
  type Mask = Image<bool>

  /** `cv2.inRange` on one pixel: every channel within [lower, upper]. */
  predicate InBand(p: Hsv, band: Band) {
    && band.lower.h <= p.h <= band.upper.h
    && band.lower.s <= p.s <= band.upper.s
    && band.lower.v <= p.v <= band.upper.v
  }

  /** Applies `f` to every pixel, keeping the shape. */
  function MapImage<P, Q>(img: Image<P>, f: P -> Q): (r: Image<Q>)
    ensures r.SameShape(img)
    ensures forall i, j :: 0 <= i < r.Height() && 0 <= j < r.width ==> r.rows[i][j] == f(img.rows[i][j])
  {
    Grid(seq(img.Height(), i requires 0 <= i < img.Height() =>
           seq(img.width, j requires 0 <= j < img.width => f(img.rows[i][j]))),
         img.width)
  }

  /** `cv2.inRange(hsv, lower, upper)`. */
  function InRange(hsv: Image<Hsv>, band: Band): (m: Mask)
    ensures m.SameShape(hsv)
    ensures forall i, j :: 0 <= i < m.Height() && 0 <= j < m.width ==>
              (m.rows[i][j] <==> InBand(hsv.rows[i][j], band))
  {
    MapImage(hsv, p => InBand(p, band))
  }

  /** `cv2.bitwise_or` of two masks of the same shape. */
  function BitwiseOr(a: Mask, b: Mask): (m: Mask)
    requires a.SameShape(b)
    ensures m.SameShape(a)
    ensures forall i, j :: 0 <= i < m.Height() && 0 <= j < m.width ==>
              (m.rows[i][j] <==> a.rows[i][j] || b.rows[i][j])
  {
    Grid(seq(a.Height(), i requires 0 <= i < a.Height() =>
           seq(a.width, j requires 0 <= j < a.width => a.rows[i][j] || b.rows[i][j])),
         a.width)
  }

  /** A dilation keeps the mask's shape (what `cv2.dilate` does). */
  ghost predicate ShapePreserving(dilate: Mask -> Mask) {
    forall m: Mask :: dilate(m).SameShape(m)
  }

  /** Every pixel set in `m` is still set in `d`. */
  predicate Covers(d: Mask, m: Mask)
    requires d.SameShape(m)
  {
    forall i, j :: 0 <= i < m.Height() && 0 <= j < m.width && m.rows[i][j] ==> d.rows[i][j]
  }

  /** The combined mask: each band mask is dilated on its own, then the two are OR-ed. */
  function CombinedMask(hsv: Image<Hsv>, dilate: Mask -> Mask): (m: Mask)
    requires ShapePreserving(dilate)
    ensures m.SameShape(hsv)
    ensures forall i, j :: 0 <= i < m.Height() && 0 <= j < m.width ==>
              (m.rows[i][j] <==> dilate(InRange(hsv, Band1)).rows[i][j] || dilate(InRange(hsv, Band2)).rows[i][j])
  {
    var mask1 := dilate(InRange(hsv, Band1));
    var mask2 := dilate(InRange(hsv, Band2));
    BitwiseOr(mask1, mask2)
  }

  /** Without dilation, the combined mask is exactly the union of the two bands. */
  lemma UndilatedMaskIsBandUnion(hsv: Image<Hsv>, i: nat, j: nat)
    requires i < hsv.Height() && j < hsv.width
    ensures var m := CombinedMask(hsv, (m: Mask) => m);
            m.rows[i][j] <==> InBand(hsv.rows[i][j], Band1) || InBand(hsv.rows[i][j], Band2)
  {
    var m := CombinedMask(hsv, (m: Mask) => m);
    assert InRange(hsv, Band1).rows[i][j] <==> InBand(hsv.rows[i][j], Band1);
  }

  /** A dilation that only grows masks never loses a pixel of either band. */
  lemma BandPixelsSurviveDilation(hsv: Image<Hsv>, dilate: Mask -> Mask, i: nat, j: nat)
    requires ShapePreserving(dilate)
    requires Covers(dilate(InRange(hsv, Band1)), InRange(hsv, Band1))
    requires Covers(dilate(InRange(hsv, Band2)), InRange(hsv, Band2))
    requires i < hsv.Height() && j < hsv.width
    requires InBand(hsv.rows[i][j], Band1) || InBand(hsv.rows[i][j], Band2)
    ensures CombinedMask(hsv, dilate).rows[i][j]
  {
    var m1, m2 := InRange(hsv, Band1), InRange(hsv, Band2);
    assert m1.rows[i][j] || m2.rows[i][j];
  }

  /** The two configured bands share no pixel value (their hue ranges are apart). */
  lemma BandsAreDisjoint(p: Hsv)
    ensures !(InBand(p, Band1) && InBand(p, Band2))
  {
  }
}
