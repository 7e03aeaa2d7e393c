/**
 * Geometric primitives over one hand's 21 landmarks and the fixed-priority
 * static pose classifier.
 */
module GesturePrimitives {
  import opened Wrappers
  import opened Geometry

  /** A hand's landmark array: always exactly 21 image-space points. */
  type Landmarks = lm: seq<Vec> | |lm| == 21 witness seq(21, _ => Origin)

  // Landmark indices of fingertips, PIP joints and MCP joints.
  const ThumbTip := 4
  const IndexTip := 8
  const MiddleTip := 12
  const RingTip := 16
  const PinkyTip := 20
  const IndexPip := 6
  const MiddlePip := 10
  const RingPip := 14
  const PinkyPip := 18
  const ThumbMcp := 2
  const IndexMcp := 5
  const PinkyMcp := 17

  const PalmEpsilon: real := 0.000001
  const ThumbExtendedRatio: real := 0.55

  // Static pose labels.
  const OpenPalm := "OPEN_PALM"
  const Fist := "FIST"
  const ThumbsUp := "THUMBS_UP"
  const VSign := "V_SIGN"
  const IndexOnly := "INDEX_ONLY"
  const ThumbPinky := "THUMB_PINKY"
  const OkSign := "OK_SIGN"

  const StaticLabels: set<string> :=
    {OpenPalm, Fist, ThumbsUp, VSign, IndexOnly, ThumbPinky, OkSign}

  /** Distance between the index and pinky MCP joints plus a small epsilon. */
  function PalmWidth(norm: Norm, lm: Landmarks): (w: real)
    ensures w >= PalmEpsilon
    ensures w - PalmEpsilon == Dist(norm, lm[PinkyMcp], lm[IndexMcp])
  {
    DistSymmetric(norm, lm[IndexMcp], lm[PinkyMcp]);
    Dist(norm, lm[IndexMcp], lm[PinkyMcp]) + PalmEpsilon
  }

  /** Vertical heuristic: the tip is strictly above (smaller y) its PIP joint. */
  predicate IsExtendedY(lm: Landmarks, tip: nat, pip: nat)
    requires tip < 21 && pip < 21
  {
    lm[tip].y < lm[pip].y
  }

  /** Extension flags of thumb, index, middle, ring and pinky. */
  datatype Fingers = Fingers(thumb: bool, index: bool, middle: bool, ring: bool, pinky: bool)

  function Count(b: bool): nat { if b then 1 else 0 }

  /** How many of index, middle, ring and pinky are extended. */
  function OtherCount(f: Fingers): (n: nat)
    ensures n <= 4
  {
    Count(f.index) + Count(f.middle) + Count(f.ring) + Count(f.pinky)
  }

  function FingerStates(norm: Norm, lm: Landmarks): (f: Fingers)
    ensures f.index <==> lm[IndexTip].y < lm[IndexPip].y
    ensures f.middle <==> lm[MiddleTip].y < lm[MiddlePip].y
    ensures f.ring <==> lm[RingTip].y < lm[RingPip].y
    ensures f.pinky <==> lm[PinkyTip].y < lm[PinkyPip].y
    ensures f.thumb <==> Dist(norm, lm[ThumbTip], lm[ThumbMcp]) > ThumbExtendedRatio * PalmWidth(norm, lm)
  {
    var pw := PalmWidth(norm, lm);
    var d := Dist(norm, lm[ThumbTip], lm[ThumbMcp]);
    DivAbove(d, pw, ThumbExtendedRatio);
    Fingers(d / pw > ThumbExtendedRatio,
            IsExtendedY(lm, IndexTip, IndexPip), IsExtendedY(lm, MiddleTip, MiddlePip),
            IsExtendedY(lm, RingTip, RingPip), IsExtendedY(lm, PinkyTip, PinkyPip))
  }

  /** For a positive divisor, comparing a quotient is comparing a product. */
  lemma DivAbove(d: real, w: real, k: real)
    requires w > 0.0
    ensures d / w > k <==> d > k * w
    ensures d / w < k <==> d < k * w
  {
    assert d == (d / w) * w;
  }

  /**
   * The priority chain of the classifier once the finger flags and the
   * thumb-index pinch ratio are known. First match wins.
   */
  function ClassifyFingers(f: Fingers, pinch: real, pinchThr: real): (r: Option<string>)
    ensures r.Some? ==> r.value in StaticLabels
    ensures OtherCount(f) >= 3 ==> r == Some(OpenPalm)
    ensures OtherCount(f) == 0 ==> r == Some(if f.thumb then ThumbsUp else Fist)
    ensures r == Some(OkSign) ==>
      pinch < pinchThr && Count(f.middle) + Count(f.ring) + Count(f.pinky) >= 2
    ensures r.None? <==>
      && 1 <= OtherCount(f) <= 2
      && !(f.index && f.middle)
      && !(f.index && OtherCount(f) == 1)
      && !(f.thumb && f.pinky && OtherCount(f) == 1)
      && !(pinch < pinchThr && Count(f.middle) + Count(f.ring) + Count(f.pinky) >= 2)
  {
    var nOther := OtherCount(f);
    if nOther >= 3 then Some(OpenPalm)
    else if nOther == 0 && !f.thumb then Some(Fist)
    else if f.thumb && nOther == 0 then Some(ThumbsUp)
    else if f.index && f.middle && !f.ring && !f.pinky then Some(VSign)
    else if f.index && !f.middle && !f.ring && !f.pinky then Some(IndexOnly)
    else if f.thumb && f.pinky && !f.index && !f.middle && !f.ring then Some(ThumbPinky)
    else if pinch < pinchThr && Count(f.middle) + Count(f.ring) + Count(f.pinky) >= 2 then Some(OkSign)
    else None
  }

  /** `pinch_ratio`: fingertip distance in palm widths. */
  function PinchRatio(norm: Norm, lm: Landmarks, a: nat, b: nat): (r: real)
    requires a < 21 && b < 21
    ensures r >= 0.0
    ensures r < 1.0 ==> Dist(norm, lm[a], lm[b]) < PalmWidth(norm, lm)
  {
    var pw := PalmWidth(norm, lm);
    DivAbove(Dist(norm, lm[a], lm[b]), pw, 1.0);
    Dist(norm, lm[a], lm[b]) / pw
  }

  /** `close_ratio`: the same measure, under a second name for adjacent fingers. */
  function CloseRatio(norm: Norm, lm: Landmarks, a: nat, b: nat): (r: real)
    requires a < 21 && b < 21
    ensures r == PinchRatio(norm, lm, a, b)
  {
    Dist(norm, lm[a], lm[b]) / PalmWidth(norm, lm)
  }

  lemma PinchRatioSymmetric(norm: Norm, lm: Landmarks, a: nat, b: nat)
    requires a < 21 && b < 21
    ensures PinchRatio(norm, lm, a, b) == PinchRatio(norm, lm, b, a)
  {
    DistSymmetric(norm, lm[a], lm[b]);
  }

  /**
   * `classify_static`: no hand gives no label; otherwise the priority chain
   * over the finger flags and the thumb-index pinch ratio. The second
   * threshold is accepted and unused, as in the source.
   */
  function ClassifyStatic(norm: Norm, lm: Option<Landmarks>, pinchThr: real, closeThr: real)
    : (r: Option<string>)
    ensures lm.None? ==> r.None?
    ensures lm.Some? ==>
      r == ClassifyFingers(FingerStates(norm, lm.value),
                           PinchRatio(norm, lm.value, ThumbTip, IndexTip), pinchThr)
  {
    match lm
    case None => None
    case Some(l) =>
      var f := FingerStates(norm, l);
      ClassifyFingers(f, Dist(norm, l[ThumbTip], l[IndexTip]) / PalmWidth(norm, l), pinchThr)
  }
}
