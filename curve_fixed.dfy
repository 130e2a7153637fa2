/// `CurveFixed<T>`: a curve with evenly spaced keyframes at a fixed frame
/// rate, delayed by a whole number of frames.
///
/// The struct is owned and cloned by value wherever the core uses it, so it
/// is a datatype here; its setters return the updated curve.
module Fixed {
  import opened Numeric
  import opened Lerp

  /// `frame_rate` in frames per second; `negative_frame_offset` is the
  /// negated frame offset, stored as a float; `keyframes` in frame order.
  datatype CurveFixed<T> = CurveFixed(frameRate: real, negativeFrameOffset: real, keyframes: seq<T>)

  /// `CurveFixed::frame_offset`: the negated stored offset, truncated and
  /// saturated into `i32`.
  function FrameOffset<T>(c: CurveFixed<T>): (r: I32) {
    SatI32(Trunc(-c.negativeFrameOffset))
  }

  /// `CurveFixed::from_keyframes_with_offset`.
  function FromKeyframesWithOffset<T>(frameRate: real, frameOffset: I32, keyframes: seq<T>): (r: CurveFixed<T>)
    ensures r.frameRate == frameRate && r.keyframes == keyframes
    ensures FrameOffset(r) == frameOffset
  {
    CurveFixed(frameRate, -(frameOffset as real), keyframes)
  }

  /// `CurveFixed::from_keyframes`: no delay.
  function FromKeyframes<T>(frameRate: real, keyframes: seq<T>): (r: CurveFixed<T>)
    ensures r.frameRate == frameRate && r.keyframes == keyframes
    ensures FrameOffset(r) == 0
  {
    FromKeyframesWithOffset(frameRate, 0, keyframes)
  }

  /// `CurveFixed::from_constant`: one keyframe at 30 frames per second.
  function FromConstant<T>(v: T): (r: CurveFixed<T>)
    ensures r.keyframes == [v] && r.frameRate == 30.0
    ensures FrameOffset(r) == 0
  {
    CurveFixed(30.0, 0.0, [v])
  }

  /// `CurveFixed::set_frame_rate`: only the rate changes.
  function SetFrameRate<T>(c: CurveFixed<T>, frameRate: real): (r: CurveFixed<T>)
    ensures r.frameRate == frameRate
    ensures r.keyframes == c.keyframes && FrameOffset(r) == FrameOffset(c)
  {
    c.(frameRate := frameRate)
  }

  /// `CurveFixed::set_frame_offset`. The source negates the `i32` before
  /// converting it, which overflows for `i32::MIN`.
  function SetFrameOffset<T>(c: CurveFixed<T>, offset: I32): (r: CurveFixed<T>)
    requires offset != I32_MIN
    ensures FrameOffset(r) == offset
    ensures r.frameRate == c.frameRate && r.keyframes == c.keyframes
  {
    c.(negativeFrameOffset := (-offset) as real)
  }

  /// `CurveFixed::is_empty`.
  function IsEmpty<T>(c: CurveFixed<T>): (r: bool)
    ensures r <==> KeyframeCount(c) == 0
  {
    c.keyframes == []
  }

  /// `CurveFixed::keyframe_count`.
  function KeyframeCount<T>(c: CurveFixed<T>): nat {
    |c.keyframes|
  }

  /// `CurveFixed::iter_mut` with every keyframe updated by `f`.
  function MapKeyframes<T>(c: CurveFixed<T>, f: T -> T): (r: CurveFixed<T>)
    ensures |r.keyframes| == |c.keyframes|
    ensures forall i :: 0 <= i < |c.keyframes| ==> r.keyframes[i] == f(c.keyframes[i])
    ensures r.frameRate == c.frameRate && FrameOffset(r) == FrameOffset(c)
  {
    c.(keyframes := seq(|c.keyframes|, i requires 0 <= i < |c.keyframes| => f(c.keyframes[i])))
  }

  /// The fractional frame index `time * frame_rate + negative_frame_offset`
  /// that `sample` starts from.
  function FramePosition<T>(c: CurveFixed<T>, time: real): real {
    time * c.frameRate + c.negativeFrameOffset
  }

  /// `Sample::sample` for `CurveFixed`: the frame position is clamped to
  /// `[0, n - 1]`, split into a whole frame and a fraction, and the two
  /// neighbouring keyframes are interpolated with the element's
  /// `lerp_unclamped` (`lerp`). At or past the last frame the last keyframe
  /// is returned as it is. An empty curve fails the source's assertion.
  function Sample<T>(c: CurveFixed<T>, time: real, lerp: (T, T, real) -> T): (r: T)
    requires |c.keyframes| >= 1
    ensures var n, pos := |c.keyframes|, FramePosition(c, time);
      (n - 1) as real <= pos ==> r == c.keyframes[n - 1]
    ensures var n, pos := |c.keyframes|, FramePosition(c, time);
      n == 1 ==> r == c.keyframes[0]
    ensures var n, pos := |c.keyframes|, FramePosition(c, time);
      2 <= n && pos <= 0.0 ==> r == lerp(c.keyframes[0], c.keyframes[1], 0.0)
    ensures var n, pos := |c.keyframes|, FramePosition(c, time);
      0.0 <= pos < (n - 1) as real ==>
        exists i: nat {:trigger c.keyframes[i]} :: i as real <= pos < i as real + 1.0 && i + 1 < n &&
          r == lerp(c.keyframes[i], c.keyframes[i + 1], pos - i as real)
  {
    var n := |c.keyframes|;
    var frameTime := Clamp(FramePosition(c, time), 0.0, (n - 1) as real);
    var frame := Trunc(frameTime);
    var frac := frameTime - frame as real;
    if frame >= n - 1 then c.keyframes[n - 1]
    else lerp(c.keyframes[frame], c.keyframes[frame + 1], frac)
  }

  /// `Curve::duration` for `CurveFixed`: the time at which the last frame
  /// is reached, never negative.
  function Duration<T>(c: CurveFixed<T>): (r: real)
    requires c.frameRate != 0.0
    ensures 0.0 <= r
    ensures 0.0 < r ==> r * c.frameRate + c.negativeFrameOffset == (|c.keyframes| - 1) as real
    ensures 0.0 < c.frameRate ==> (0.0 < r <==> c.negativeFrameOffset < (|c.keyframes| - 1) as real)
    ensures c.frameRate < 0.0 ==> (0.0 < r <==> (|c.keyframes| - 1) as real < c.negativeFrameOffset)
  {
    Max((|c.keyframes| as real - 1.0 - c.negativeFrameOffset) / c.frameRate, 0.0)
  }

  /// `Curve::time_offset` for `CurveFixed`: the time at which the first
  /// frame is reached, the frame offset divided by the frame rate.
  function TimeOffset<T>(c: CurveFixed<T>): (r: real)
    requires c.frameRate != 0.0
    ensures FramePosition(c, r) == 0.0
    ensures r * c.frameRate == -c.negativeFrameOffset
  {
    -c.negativeFrameOffset / c.frameRate
  }

  /// `Curve::sample_with_cursor` for `CurveFixed`: the cursor is ignored,
  /// and the returned cursor is always 0.
  function SampleWithCursor<T>(c: CurveFixed<T>, cursor: U16, time: real, lerp: (T, T, real) -> T): (r: (U16, T))
    requires |c.keyframes| >= 1
    ensures r.0 == 0
    ensures r.1 == Sample(c, time, lerp)
  {
    (0, Sample(c, time, lerp))
  }

  /// A keyframe interpolation that starts at its first operand.
  ghost predicate StartsAtFirst<T(!new)>(lerp: (T, T, real) -> T) {
    forall a, b :: lerp(a, b, 0.0) == a
  }

  /// Sampling exactly at frame `i` (time `(i + frame_offset) / frame_rate`)
  /// yields keyframe `i` itself.
  lemma SampleAtFrame<T(!new)>(c: CurveFixed<T>, i: nat, lerp: (T, T, real) -> T)
    requires i < |c.keyframes| && c.frameRate != 0.0 && StartsAtFirst(lerp)
    ensures Sample(c, (i as real - c.negativeFrameOffset) / c.frameRate, lerp) == c.keyframes[i]
  {
    var time := (i as real - c.negativeFrameOffset) / c.frameRate;
    assert FramePosition(c, time) == i as real;
    assert Trunc(i as real) == i;
  }

  /// Every time before the curve's start yields the first keyframe, and
  /// every time from the end of its duration on yields the last one.
  lemma SampleClampsToEnds<T(!new)>(c: CurveFixed<T>, time: real, lerp: (T, T, real) -> T)
    requires |c.keyframes| >= 1 && 0.0 < c.frameRate && StartsAtFirst(lerp)
    ensures time <= TimeOffset(c) ==> Sample(c, time, lerp) == c.keyframes[0]
    ensures 0.0 < Duration(c) <= time ==> Sample(c, time, lerp) == c.keyframes[|c.keyframes| - 1]
  {
    var k, off := c.frameRate, c.negativeFrameOffset;
    if time <= TimeOffset(c) {
      ScaledBelow(time, TimeOffset(c), k, off);
      SampleAtOrBeforeFirst(c, time, lerp);
    }
    if 0.0 < Duration(c) <= time {
      ScaledAbove(Duration(c), time, k, off, (|c.keyframes| - 1) as real);
      SampleAtOrAfterLast(c, time, lerp);
    }
  }

  /// A time before the start scales to a frame position at or before 0.
  lemma ScaledBelow(t: real, start: real, k: real, off: real)
    requires t <= start && 0.0 < k && start * k == -off
    ensures t * k + off <= 0.0
  {
    ScaleMonotone(t, start, k);
  }

  /// A time after the end scales to a frame position at or after the last.
  lemma ScaledAbove(end: real, t: real, k: real, off: real, last: real)
    requires end <= t && 0.0 < k && end * k + off == last
    ensures last <= t * k + off
  {
    ScaleMonotone(end, t, k);
  }

  lemma SampleAtOrBeforeFirst<T(!new)>(c: CurveFixed<T>, time: real, lerp: (T, T, real) -> T)
    requires |c.keyframes| >= 1 && StartsAtFirst(lerp) && FramePosition(c, time) <= 0.0
    ensures Sample(c, time, lerp) == c.keyframes[0]
  {
  }

  lemma SampleAtOrAfterLast<T>(c: CurveFixed<T>, time: real, lerp: (T, T, real) -> T)
    requires |c.keyframes| >= 1 && (|c.keyframes| - 1) as real <= FramePosition(c, time)
    ensures Sample(c, time, lerp) == c.keyframes[|c.keyframes| - 1]
  {
  }

  lemma ScaleMonotone(a: real, b: real, k: real)
    requires a <= b && 0.0 < k
    ensures a * k <= b * k
  {
  }

  /// `from_constant(v)` samples to `v` at every time.
  lemma FromConstantSample<T>(v: T, time: real, lerp: (T, T, real) -> T)
    ensures Sample(FromConstant(v), time, lerp) == v
  {
  }

  /// Sampling a curve of scalars never extrapolates: the result stays
  /// within any bounds that hold every keyframe.
  lemma SampleWithinKeyframeBounds(c: CurveFixed<real>, time: real, lo: real, hi: real)
    requires |c.keyframes| >= 1
    requires forall k :: 0 <= k < |c.keyframes| ==> lo <= c.keyframes[k] <= hi
    ensures lo <= Sample(c, time, LerpUnclamped) <= hi
  {
    var n := |c.keyframes|;
    var frameTime := Clamp(FramePosition(c, time), 0.0, (n - 1) as real);
    var frame := Trunc(frameTime);
    if frame < n - 1 {
      var a, b := c.keyframes[frame], c.keyframes[frame + 1];
      var frac := frameTime - frame as real;
      assert 0.0 <= frac <= 1.0;
      assert Sample(c, time, LerpUnclamped) == LerpUnclamped(a, b, frac);
      LerpWithin(a, b, frac);
    }
  }
}
