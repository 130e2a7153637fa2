/// The `Curve<T>` trait and `resample_preserving_loop`, which turns any
/// curve into a `CurveFixed` at a chosen frame rate.
module Curve {
  import opened Numeric
  import opened Fixed

  /// `KeyframeIndex`: the resumable cursor of `sample_with_cursor`, a `u16`.
  type KeyframeIndex = U16

  /// A curve as the `Curve<T>` trait presents it: its duration, its time
  /// offset, its keyframe count and its cursor-based sampling. The sampling
  /// function is partial: sampling an empty curve panics.
  datatype CurveView<T> = CurveView(
    duration: real,
    timeOffset: real,
    keyframeCount: nat,
    sampleWithCursor: (KeyframeIndex, real) --> (KeyframeIndex, T))

  /// The curve can be sampled from any cursor at any time.
  ghost predicate Samplable<T>(curve: CurveView<T>) {
    forall cursor: KeyframeIndex, time: real :: curve.sampleWithCursor.requires(cursor, time)
  }

  /// One call of `sample_with_cursor` on a samplable curve.
  function SampleStep<T>(curve: CurveView<T>, cursor: KeyframeIndex, time: real): (KeyframeIndex, T)
    requires Samplable(curve)
  {
    curve.sampleWithCursor(cursor, time)
  }

  /// `CurveFixed` seen through the `Curve<T>` trait; `lerp` is the
  /// element's `lerp_unclamped`.
  function AsCurve<T>(c: CurveFixed<T>, lerp: (T, T, real) -> T): (r: CurveView<T>)
    requires c.frameRate != 0.0
    ensures r.duration == Duration(c) && r.timeOffset == TimeOffset(c)
    ensures r.keyframeCount == |c.keyframes|
    ensures |c.keyframes| >= 1 ==> Samplable(r)
    ensures |c.keyframes| >= 1 ==> forall cursor: KeyframeIndex, time: real ::
      SampleStep(r, cursor, time) == (0, Sample(c, time, lerp))
  {
    CurveView(Duration(c), TimeOffset(c), |c.keyframes|,
      (cursor: KeyframeIndex, time: real) requires |c.keyframes| >= 1 => SampleWithCursor(c, cursor, time, lerp))
  }

  /// `(duration * frame_rate).round() as usize`.
  function FrameCount(duration: real, frameRate: real): nat {
    SatUsize(Round(duration * frameRate))
  }

  /// `(offset * frame_rate).round() as i32`.
  function FrameOffsetFor(offset: real, frameRate: real): I32 {
    SatI32(Round(offset * frameRate))
  }

  /// The time of resampled frame `f` of `frameCount`:
  /// `duration * (f * normalize) + offset`, `normalize = 1 / (frame_count - 1)`.
  function SampleTime(duration: real, offset: real, frameCount: nat, f: nat): real
    requires frameCount >= 2
  {
    duration * (f as real * (1.0 / (frameCount - 1) as real)) + offset
  }

  /// The sample times of all `frameCount` resampled frames.
  function SampleTimes(duration: real, offset: real, frameCount: nat): (r: seq<real>)
    requires frameCount >= 2
    ensures |r| == frameCount
  {
    seq(frameCount, f requires 0 <= f < frameCount => SampleTime(duration, offset, frameCount, f))
  }

  /// The frames span the curve evenly: frame 0 is at the time offset, the
  /// last frame at the time offset plus the duration, and consecutive frames
  /// are `duration / (frame_count - 1)` apart.
  lemma SampleTimesSpan(duration: real, offset: real, frameCount: nat)
    requires frameCount >= 2
    ensures SampleTimes(duration, offset, frameCount)[0] == offset
    ensures SampleTimes(duration, offset, frameCount)[frameCount - 1] == offset + duration
    ensures forall f :: 0 <= f < frameCount - 1 ==>
      SampleTimes(duration, offset, frameCount)[f + 1] - SampleTimes(duration, offset, frameCount)[f]
        == duration / (frameCount - 1) as real
  {
    var m := (frameCount - 1) as real;
    assert (frameCount - 1) as real * (1.0 / m) == 1.0;
    forall f | 0 <= f < frameCount - 1
      ensures SampleTime(duration, offset, frameCount, f + 1) - SampleTime(duration, offset, frameCount, f)
        == duration / m
    {
      calc {
        SampleTime(duration, offset, frameCount, f + 1) - SampleTime(duration, offset, frameCount, f);
        duration * ((f + 1) as real * (1.0 / m)) - duration * (f as real * (1.0 / m));
        duration * (1.0 / m);
      }
    }
  }

  /// The cursors the sampling calls receive: the first call gets cursor 0
  /// and every later call the cursor returned by the call before it.
  function CursorTrace<T>(curve: CurveView<T>, times: seq<real>): (cs: seq<KeyframeIndex>)
    requires Samplable(curve)
    ensures |cs| == |times| + 1 && cs[0] == 0
    ensures forall f :: 0 <= f < |times| ==> cs[f + 1] == SampleStep(curve, cs[f], times[f]).0
    decreases |times|
  {
    if times == [] then [0]
    else
      var n := |times| - 1;
      var prefix := CursorTrace(curve, times[..n]);
      prefix + [SampleStep(curve, prefix[n], times[n]).0]
  }

  /// The values sampled at `times` with the threaded cursor.
  function Resampled<T>(curve: CurveView<T>, times: seq<real>): (r: seq<T>)
    requires Samplable(curve)
    ensures |r| == |times|
    ensures forall f :: 0 <= f < |times| ==> r[f] == SampleStep(curve, CursorTrace(curve, times)[f], times[f]).1
  {
    var cs := CursorTrace(curve, times);
    seq(|times|, f requires 0 <= f < |times| => SampleStep(curve, cs[f], times[f]).1)
  }

  /// `resample_preserving_loop`: `round(duration * frame_rate)` frames are
  /// sampled at evenly spaced times from the time offset to the time
  /// offset plus the duration, the cursor threaded from each call to the
  /// next; the result has the requested frame rate and the time offset
  /// rounded to whole frames. At least two frames are required: with none
  /// `frame_count - 1` underflows, with one the normalisation divides by 0.
  method ResamplePreservingLoop<T>(curve: CurveView<T>, frameRate: real) returns (r: CurveFixed<T>)
    requires Samplable(curve)
    requires FrameCount(curve.duration, frameRate) >= 2
    ensures r.frameRate == frameRate
    ensures FrameOffset(r) == FrameOffsetFor(curve.timeOffset, frameRate)
    ensures |r.keyframes| == FrameCount(curve.duration, frameRate)
    ensures r.keyframes == Resampled(curve, SampleTimes(curve.duration, curve.timeOffset, |r.keyframes|))
  {
    var offset := curve.timeOffset;
    var duration := curve.duration;
    var frameCount := FrameCount(duration, frameRate);
    var frameOffset := FrameOffsetFor(offset, frameRate);
    ghost var times := SampleTimes(duration, offset, frameCount);
    ghost var cs := CursorTrace(curve, times);
    var cursor0: KeyframeIndex := 0;
    var keyframes: seq<T> := [];
    var f := 0;
    while f < frameCount
      invariant 0 <= f <= frameCount
      invariant cursor0 == cs[f]
      invariant |keyframes| == f
      invariant forall g :: 0 <= g < f ==> keyframes[g] == SampleStep(curve, cs[g], times[g]).1
    {
      var time := SampleTime(duration, offset, frameCount, f);
      var (cursor1, value) := SampleStep(curve, cursor0, time);
      cursor0 := cursor1;
      keyframes := keyframes + [value];
      f := f + 1;
    }
    assert keyframes == Resampled(curve, times);
    r := FromKeyframesWithOffset(frameRate, frameOffset, keyframes);
  }

  /// Resampling a `CurveFixed` samples it at the evenly spaced times: its
  /// cursor plays no part.
  lemma ResampledFixed<T>(c: CurveFixed<T>, lerp: (T, T, real) -> T, times: seq<real>)
    requires c.frameRate != 0.0 && |c.keyframes| >= 1
    ensures Samplable(AsCurve(c, lerp))
    ensures forall f :: 0 <= f < |times| ==> Resampled(AsCurve(c, lerp), times)[f] == Sample(c, times[f], lerp)
  {
  }

  /// For a `CurveFixed` with a non-negative frame offset, the resampled
  /// curve starts with the source's first keyframe and ends with its last
  /// one, as the loop-preserving name promises (in exact arithmetic).
  lemma ResampleFixedPreservesLoop<T(!new)>(c: CurveFixed<T>, lerp: (T, T, real) -> T, frameRate: real)
    requires 0.0 < c.frameRate && |c.keyframes| >= 1 && StartsAtFirst(lerp)
    requires c.negativeFrameOffset <= 0.0
    requires FrameCount(Duration(c), frameRate) >= 2
    ensures var times := SampleTimes(Duration(c), TimeOffset(c), FrameCount(Duration(c), frameRate));
      var ks := Resampled(AsCurve(c, lerp), times);
      ks[0] == c.keyframes[0] && ks[|ks| - 1] == c.keyframes[|c.keyframes| - 1]
  {
    var d, to := Duration(c), TimeOffset(c);
    var fc := FrameCount(d, frameRate);
    var times := SampleTimes(d, to, fc);
    SampleTimesSpan(d, to, fc);
    ResampledFixed(c, lerp, times);
    EndPosition(c);
    SampleClampsToEnds(c, times[0], lerp);
  }

  /// The frame position at the time offset plus the duration is the last
  /// frame, pushed further out by any frame delay.
  lemma EndPosition<T>(c: CurveFixed<T>)
    requires 0.0 < c.frameRate && 0.0 < Duration(c)
    ensures FramePosition(c, TimeOffset(c) + Duration(c)) == (|c.keyframes| - 1) as real - c.negativeFrameOffset
  {
    var d, to := Duration(c), TimeOffset(c);
    assert (to + d) * c.frameRate == to * c.frameRate + d * c.frameRate;
  }

  /// With a negative frame offset the last sample time falls short of the
  /// last keyframe: keyframes `[0, 1, 2, 3]` at one frame per second,
  /// starting one frame early, resample at the same rate to `[0, 2]`.
  lemma ResampleNegativeOffsetMissesLast()
    ensures var c := FromKeyframesWithOffset(1.0, -1, [0.0, 1.0, 2.0, 3.0]);
      FrameCount(Duration(c), 1.0) == 2 &&
      Resampled(AsCurve(c, Lerp.LerpUnclamped), SampleTimes(Duration(c), TimeOffset(c), 2)) == [0.0, 2.0]
  {
    var c := FromKeyframesWithOffset(1.0, -1, [0.0, 1.0, 2.0, 3.0]);
    assert Duration(c) == 2.0;
    assert TimeOffset(c) == -1.0;
    assert Round(2.0) == 2;
    var times := SampleTimes(2.0, -1.0, 2);
    assert times == [-1.0, 1.0];
    ResampledFixed(c, Lerp.LerpUnclamped, times);
    assert Trunc(2.0) == 2;
    assert Sample(c, 1.0, Lerp.LerpUnclamped) == Lerp.LerpUnclamped(2.0, 3.0, 0.0);
  }
}
