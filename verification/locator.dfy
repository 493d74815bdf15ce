/** `find_license_plate_contour` (vlp/vlp/main2.py:79-87): the first
    contour, in the order the contour finder produced them, whose bounding
    rectangle has an aspect ratio strictly between 1.5 and 5 and whose
    enclosed area exceeds 1000 square pixels. Edge detection, contour
    extraction, `boundingRect` and `contourArea` are outside the model;
    each contour is given by their results. */
module PlateLocator {
  import opened Wrappers

  /** A bounding-rectangle side: `boundingRect` of a non-empty contour is at
      least one pixel wide and high. */
  type Extent = n: int | n > 0 witness 1

  /** A contour as the selection rule sees it: bounding width and height,
      and the area `contourArea` reports. */
  datatype Contour = Contour(w: Extent, h: Extent, area: real)

  /** `w / float(h)`. */
  function AspectRatio(c: Contour): real {
    (c.w as real) / (c.h as real)
  }

  /** The acceptance test `1.5 < aspect_ratio < 5 and area > 1000`: in
      whole pixels, wider than one and a half times the height, narrower
      than five times it, and enclosing more than 1000 square pixels. */
  function IsPlateShaped(c: Contour): (b: bool)
    ensures b <==> 2 * c.w > 3 * c.h && c.w < 5 * c.h && c.area > 1000.0
  {
    AspectTestIntegerForm(c);
    1.5 < AspectRatio(c) < 5.0 && c.area > 1000.0
  }

  /** The aspect test needs no division: over positive heights it is
      `2 * w > 3 * h && w < 5 * h`. */
  lemma AspectTestIntegerForm(c: Contour)
    ensures 1.5 < AspectRatio(c) < 5.0 <==> 2 * c.w > 3 * c.h && c.w < 5 * c.h
  {
    var w, h := c.w as real, c.h as real;
    QuotientBound(w, h, 1.5);
    QuotientBound(w, h, 5.0);
  }

  /** For a positive divisor, `w / h > k` exactly when `w > k * h`, and
      `w / h < k` exactly when `w < k * h`. */
  lemma QuotientBound(w: real, h: real, k: real)
    requires h > 0.0
    ensures w / h > k <==> w > k * h
    ensures w / h < k <==> w < k * h
  {
    var q := w / h;
    assert q * h == w;
    assert w - k * h == (q - k) * h;
    if q > k {
      assert (q - k) * h > 0.0;
    } else if q < k {
      assert (k - q) * h > 0.0;
    }
  }

  /** The loop over `contours`: the position of the first plate-shaped
      contour, or `None` when no contour qualifies. */
  function FindPlateContour(contours: seq<Contour>): (r: Option<nat>)
    ensures r.None? <==> forall i :: 0 <= i < |contours| ==> !IsPlateShaped(contours[i])
    ensures r.Some? ==> r.value < |contours| && IsPlateShaped(contours[r.value])
    ensures r.Some? ==> forall j :: 0 <= j < r.value ==> !IsPlateShaped(contours[j])
  {
    if |contours| == 0 then None
    else if IsPlateShaped(contours[0]) then Some(0)
    else
      match FindPlateContour(contours[1..])
      case None => None
      case Some(i) => Some(i + 1)
  }

  /** Only the first qualifying contour matters: anything after it can be
      changed or dropped without changing the choice. */
  lemma {:induction false} FindPlateContourIgnoresLater(contours: seq<Contour>, later: seq<Contour>)
    requires FindPlateContour(contours).Some?
    ensures FindPlateContour(contours + later) == FindPlateContour(contours)
  {
    var all := contours + later;
    assert all[0] == contours[0];
    if !IsPlateShaped(contours[0]) {
      assert all[1..] == contours[1..] + later;
      FindPlateContourIgnoresLater(contours[1..], later);
    }
  }

  /** A lone rectangle three times as wide as it is high and of area 5000
      is chosen. */
  lemma SingleWideRectangleChosen(c: Contour)
    requires c.w == 3 * c.h && c.area == 5000.0
    ensures FindPlateContour([c]) == Some(0)
  {
    AspectTestIntegerForm(c);
  }
}
