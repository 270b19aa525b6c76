/**
 * Values shared by the tracker adapters: boxes, detections as the detector
 * hands them over, the tracked objects handed to the renderer, and the
 * float-to-int conversion the adapters apply on the way out.
 */
module Types {

  datatype Option<+T> = None | Some(value: T)

  /** cv::Rect: an integer box given by its top-left corner and its size. */
  datatype Rect = Rect(x: int, y: int, width: int, height: int)

  /** cv::Rect_<float>; single-precision rounding is not modelled. */
  datatype RectF = RectF(x: real, y: real, width: real, height: real)

  /** A (left, top, width, height) vector of four floats, as the engines use. */
  type Tlwh = s: seq<real> | |s| == 4 witness [0.0, 0.0, 0.0, 0.0]

  /** A detection of the current adapters: box, confidence and class label (`label`
      in the source, a reserved word in Dafny). */
  datatype Detection = Detection(bbox: Rect, score: real, classLabel: int)

  /** A detection of the older header-only adapters, keyed on its class index. */
  datatype LegacyDetection =
    LegacyDetection(x: int, y: int, width: int, height: int, classIndex: int, confidence: real)

  /** What every adapter reports per frame: one identity and one integer box per track. */
  datatype TrackedObject = TrackedObject(trackId: int, x: int, y: int, width: int, height: int)

  /** An image; the adapters only forward it to an engine. */
  type Frame = seq<seq<int>>

  /** static_cast<int> (and implicit conversion) from a float: truncation toward zero. */
  function Trunc(r: real): (n: int)
    ensures 0.0 <= r ==> 0 <= n && n as real <= r < n as real + 1.0
    ensures r < 0.0 ==> n <= 0 && n as real - 1.0 < r <= n as real
  {
    if r >= 0.0 then r.Floor else -((-r).Floor)
  }

  /** An integer box widened to floats, field by field. */
  function ToRectF(r: Rect): RectF
  {
    RectF(r.x as real, r.y as real, r.width as real, r.height as real)
  }

  /**
   * cv::Rect_<float>(Point(x1, y1), Point(x2, y2)): the box spanned by two
   * opposite corners, whichever order they come in.
   */
  function RectFromCorners(x1: real, y1: real, x2: real, y2: real): RectF
  {
    RectF(Min(x1, x2), Min(y1, y2), Max(x1, x2) - Min(x1, x2), Max(y1, y2) - Min(y1, y2))
  }

  function Min(a: real, b: real): real { if a <= b then a else b }
  function Max(a: real, b: real): real { if a <= b then b else a }

  /**
   * Building a box from the corners (x, y) and (x + width, y + height) gives
   * back (x, y, width, height) when the size is not negative, and the same
   * area mirrored onto its far corner when it is.
   */
  lemma CornersRoundTrip(x: real, y: real, width: real, height: real)
    ensures var r := RectFromCorners(x, y, x + width, y + height);
      && r.width == (if width < 0.0 then -width else width)
      && r.height == (if height < 0.0 then -height else height)
      && r.x == (if width < 0.0 then x + width else x)
      && r.y == (if height < 0.0 then y + height else y)
    ensures 0.0 <= width && 0.0 <= height ==>
      RectFromCorners(x, y, x + width, y + height) == RectF(x, y, width, height)
  {
  }

  /** The class filter of the current adapters: the detection's label is in the set. */
  function LabelTracked(classes: set<int>): Detection -> bool
  {
    (d: Detection) => d.classLabel in classes
  }

  /** The class filter of the older adapters: the detection's class index is in the set. */
  function ClassIndexTracked(classes: set<int>): LegacyDetection -> bool
  {
    (d: LegacyDetection) => d.classIndex in classes
  }
}
