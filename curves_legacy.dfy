/// The older `Curve<T>` enum, whose only variant wraps a `CurveFixed<T>`;
/// every accessor matches on the variant and delegates to the fixed curve.
///
/// The source block declares these methods on `CurveFixed` while matching
/// on `Curve` variants, and its `sample_with_cursor` takes the cursor by
/// `&mut` while its resampling loop expects a `(cursor, value)` pair back.
/// The model reads it as the delegation the bodies spell out, with the
/// pair-returning cursor call of the current `Curve` trait.
module Curves {
  import opened Numeric
  import opened Fixed
  import Curve

  datatype CurveEnum<T> = Fixed(curve: CurveFixed<T>)

  /// `duration`, delegated to the fixed curve.
  function Duration<T>(e: CurveEnum<T>): (r: real)
    requires e.curve.frameRate != 0.0
    ensures r == Fixed.Duration(e.curve)
  {
    match e
    case Fixed(c) => Fixed.Duration(c)
  }

  /// `time_offset`, delegated to the fixed curve. Like `Duration`, it is a
  /// one-arm match: the enum has only the `Fixed` variant.
  function TimeOffset<T>(e: CurveEnum<T>): (r: real)
    requires e.curve.frameRate != 0.0
    ensures r == Fixed.TimeOffset(e.curve)
  {
    match e
    case Fixed(c) => Fixed.TimeOffset(c)
  }

  /// `keyframe_count`, delegated to the fixed curve.
  function KeyframeCount<T>(e: CurveEnum<T>): (r: nat)
    ensures r == |e.curve.keyframes|
  {
    match e
    case Fixed(c) => Fixed.KeyframeCount(c)
  }

  /// `sample`, delegated to the fixed curve.
  function Sample<T>(e: CurveEnum<T>, time: real, lerp: (T, T, real) -> T): (r: T)
    requires |e.curve.keyframes| >= 1
    ensures r == Fixed.Sample(e.curve, time, lerp)
  {
    match e
    case Fixed(c) => Fixed.Sample(c, time, lerp)
  }

  /// `sample_with_cursor`, delegated to the fixed curve.
  function SampleWithCursor<T>(e: CurveEnum<T>, cursor: U16, time: real, lerp: (T, T, real) -> T): (r: (U16, T))
    requires |e.curve.keyframes| >= 1
    ensures r == (0, Fixed.Sample(e.curve, time, lerp))
  {
    match e
    case Fixed(c) => Fixed.SampleWithCursor(c, cursor, time, lerp)
  }

  /// `resample_preserving_loop` of the enum: the same algorithm as the
  /// trait-level function, run on the wrapped curve. Each resampled frame
  /// is the wrapped curve sampled at its evenly spaced time.
  method Resample<T>(e: CurveEnum<T>, frameRate: real, lerp: (T, T, real) -> T) returns (r: CurveFixed<T>)
    requires e.curve.frameRate != 0.0 && |e.curve.keyframes| >= 1
    requires Curve.FrameCount(Duration(e), frameRate) >= 2
    ensures r.frameRate == frameRate
    ensures FrameOffset(r) == Curve.FrameOffsetFor(TimeOffset(e), frameRate)
    ensures |r.keyframes| == Curve.FrameCount(Duration(e), frameRate)
    ensures var times := Curve.SampleTimes(Duration(e), TimeOffset(e), |r.keyframes|);
      forall f :: 0 <= f < |r.keyframes| ==> r.keyframes[f] == Sample(e, times[f], lerp)
  {
    var view := Curve.AsCurve(e.curve, lerp);
    assert view.timeOffset == TimeOffset(e) && view.duration == Duration(e);
    r := Curve.ResamplePreservingLoop(view, frameRate);
    ghost var times := Curve.SampleTimes(Duration(e), TimeOffset(e), |r.keyframes|);
    ghost var ks := Curve.Resampled(view, times);
    assert r.keyframes == ks;
    Curve.ResampledFixed(e.curve, lerp, times);
    forall f | 0 <= f < |r.keyframes|
      ensures r.keyframes[f] == Sample(e, times[f], lerp)
    {
      assert ks[f] == Fixed.Sample(e.curve, times[f], lerp);
    }
  }
}
