/// Linear interpolation (`Lerp`) for the value families a curve can hold.
///
/// Rust's `Lerp` trait becomes one function per implementation. Where an
/// implementation is generic over an element type (`Option<T>`, `Range<T>`,
/// `RangeInclusive<T>`), the element's own `lerp_unclamped` is passed in as
/// a function argument, as the trait bound `T: Lerp` supplies it in Rust.
/// `util::step_unclamped` and `util::approx_rsqrt` are not part of this
/// model; they are passed in as uninterpreted function arguments.
module Lerp {
  import opened Wrappers
  import opened Numeric

  /// `Lerp::lerp`: the trait's provided method clamps `t` into `[0, 1]` and
  /// defers to the implementation's `lerp_unclamped`.
  function LerpClamped<T>(a: T, b: T, t: real, unclamped: (T, T, real) -> T): (r: T)
    ensures t <= 0.0 ==> r == unclamped(a, b, 0.0)
    ensures 1.0 <= t ==> r == unclamped(a, b, 1.0)
    ensures 0.0 <= t <= 1.0 ==> r == unclamped(a, b, t)
  {
    unclamped(a, b, Clamp(t, 0.0, 1.0))
  }

  /// `lerp_unclamped` for `f32`: the affine combination `a * (1 - t) + b * t`.
  function LerpUnclamped(a: real, b: real, t: real): (r: real)
    ensures r == a + (b - a) * t
    ensures t == 0.0 ==> r == a
    ensures t == 1.0 ==> r == b
  {
    AffineForm(a, b, t);
    ScaledEnds(b - a, t);
    a * (1.0 - t) + b * t
  }

  /// For `t` in `[0, 1]` the interpolation stays between `a` and `b`.
  lemma LerpWithin(a: real, b: real, t: real)
    ensures 0.0 <= t <= 1.0 && a <= b ==> a <= LerpUnclamped(a, b, t) <= b
    ensures 0.0 <= t <= 1.0 && b <= a ==> b <= LerpUnclamped(a, b, t) <= a
  {
    var r := LerpUnclamped(a, b, t);
    ScaledWithin(b - a, t);
  }

  /// `d * t` is 0 at `t = 0` and `d` at `t = 1`.
  lemma ScaledEnds(d: real, t: real)
    ensures t == 0.0 ==> d * t == 0.0
    ensures t == 1.0 ==> d * t == d
  {
  }

  /// The affine combination is the start plus the scaled difference.
  lemma AffineForm(a: real, b: real, t: real)
    ensures a * (1.0 - t) + b * t == a + (b - a) * t
  {
  }

  /// For `t` in `[0, 1]`, `d * t` lies between 0 and `d`.
  lemma ScaledWithin(d: real, t: real)
    ensures 0.0 <= t <= 1.0 && 0.0 <= d ==> 0.0 <= d * t <= d
    ensures 0.0 <= t <= 1.0 && d <= 0.0 ==> d <= d * t <= 0.0
  {
    if 0.0 <= t <= 1.0 {
      assert d - d * t == d * (1.0 - t);
    }
  }

  /// `lerp_unclamped` for `f64`: the same formula after widening `t` from
  /// `f32` to `f64`, a conversion that is exact.
  function LerpUnclampedWide(a: real, b: real, t32: real): (r: real)
    ensures r == LerpUnclamped(a, b, t32)
    ensures t32 == 0.0 ==> r == a
    ensures t32 == 1.0 ==> r == b
  {
    var t := t32;
    a * (1.0 - t) + b * t
  }

  /// `lerp_unclamped` for the vector types (`Vec2`, `Vec3`, `Vec3A`, `Vec4`
  /// and their `f64` counterparts): glam's operators act componentwise.
  function LerpUnclampedVec(a: seq<real>, b: seq<real>, t: real): (r: seq<real>)
    requires |a| == |b|
    ensures |r| == |a|
    ensures forall i :: 0 <= i < |r| ==> r[i] == LerpUnclamped(a[i], b[i], t)
    ensures t == 0.0 ==> r == a
    ensures t == 1.0 ==> r == b
  {
    seq(|a|, i requires 0 <= i < |a| => a[i] * (1.0 - t) + b[i] * t)
  }

  /// `util::step_unclamped`, kept abstract: it yields one of its two
  /// operands, chosen by an unspecified test `takeB` on `t`.
  function StepUnclamped<T>(a: T, b: T, t: real, takeB: real -> bool): (r: T)
    ensures r == a || r == b
    ensures takeB(t) ==> r == b
    ensures !takeB(t) ==> r == a
  {
    if takeB(t) then b else a
  }

  /// `lerp_unclamped` for `bool` delegates to `util::step_unclamped`.
  function LerpUnclampedBool(a: bool, b: bool, t: real, takeB: real -> bool): (r: bool)
    ensures r == a || r == b
    ensures a == b ==> r == a
  {
    StepUnclamped(a, b, t, takeB)
  }

  /// A rotation quaternion, stored as glam stores it.
  datatype Quat = Quat(x: real, y: real, z: real, w: real)

  function Dot(a: Quat, b: Quat): real {
    a.x * b.x + a.y * b.y + a.z * b.z + a.w * b.w
  }

  /// `-q`, the same rotation on the other hemisphere.
  function Neg(q: Quat): Quat {
    Quat(-q.x, -q.y, -q.z, -q.w)
  }

  /// `Vec4::from(q)`.
  function ToVec4(q: Quat): (v: seq<real>)
    ensures |v| == 4
  {
    [q.x, q.y, q.z, q.w]
  }

  /// `Quat::from_vec4(v)`.
  function FromVec4(v: seq<real>): Quat
    requires |v| == 4
  {
    Quat(v[0], v[1], v[2], v[3])
  }

  /// The operand the quaternion `lerp_unclamped` interpolates toward: `b`,
  /// negated when `dot(a, b) < 0`, so that the result takes the short path.
  function ShortPath(a: Quat, b: Quat): (r: Quat)
    ensures r == b || r == Neg(b)
    ensures 0.0 <= Dot(a, r)
    ensures 0.0 <= Dot(a, b) ==> r == b
    ensures Dot(a, b) < 0.0 ==> r == Neg(b)
  {
    if Dot(a, b) < 0.0 then Neg(b) else b
  }

  /// `q` scaled by `k` in every component.
  function Scale(q: Quat, k: real): Quat {
    Quat(q.x * k, q.y * k, q.z * k, q.w * k)
  }

  /// The affine combination `a * (1 - t) + b * t` of two quaternions,
  /// component by component.
  function Mix(a: Quat, b: Quat, t: real): Quat {
    Quat(LerpUnclamped(a.x, b.x, t), LerpUnclamped(a.y, b.y, t),
         LerpUnclamped(a.z, b.z, t), LerpUnclamped(a.w, b.w, t))
  }

  /// `lerp_unclamped` for `Quat`: an nlerp. The sign of `b` is corrected,
  /// the two are interpolated as `Vec4`s and the result is scaled by
  /// `util::approx_rsqrt` of its squared length (`rsqrt` here).
  function LerpUnclampedQuat(a: Quat, b: Quat, t: real, rsqrt: real -> real): (r: Quat)
    ensures var m := Mix(a, ShortPath(a, b), t); r == Scale(m, rsqrt(Dot(m, m)))
    ensures t == 0.0 ==> r == Scale(a, rsqrt(Dot(a, a)))
    ensures t == 1.0 ==> r == Scale(ShortPath(a, b), rsqrt(Dot(b, b)))
    ensures Dot(a, b) < 0.0 ==> r == Nlerp(a, Neg(b), t, rsqrt)
    ensures 0.0 <= Dot(a, b) ==> r == Nlerp(a, b, t, rsqrt)
  {
    var s := ShortPath(a, b);
    assert Dot(s, s) == Dot(b, b);
    Nlerp(a, s, t, rsqrt)
  }

  /// The normalised `Vec4` interpolation from `a` toward `b`: the
  /// quaternion mix of the two, scaled by `rsqrt` of its squared length.
  function Nlerp(a: Quat, b: Quat, t: real, rsqrt: real -> real): (r: Quat)
    ensures var m := Mix(a, b, t); r == Scale(m, rsqrt(Dot(m, m)))
  {
    var rot := LerpUnclampedVec(ToVec4(a), ToVec4(b), t);
    var m := Mix(a, b, t);
    assert rot[0] == m.x && rot[1] == m.y && rot[2] == m.z && rot[3] == m.w;
    assert rot[0] * rot[0] + rot[1] * rot[1] + rot[2] * rot[2] + rot[3] * rot[3] == Dot(m, m);
    var invMag := rsqrt(rot[0] * rot[0] + rot[1] * rot[1] + rot[2] * rot[2] + rot[3] * rot[3]);
    FromVec4([rot[0] * invMag, rot[1] * invMag, rot[2] * invMag, rot[3] * invMag])
  }

  /// With an exact reciprocal square root, the nlerp of two rotations is
  /// a unit quaternion whenever the mix does not pass through zero.
  lemma NlerpUnit(a: Quat, b: Quat, t: real, rsqrt: real -> real)
    requires forall x {:trigger rsqrt(x)} :: 0.0 < x ==> rsqrt(x) * rsqrt(x) * x == 1.0
    requires var m := Mix(a, b, t); 0.0 < Dot(m, m)
    ensures var r := Nlerp(a, b, t, rsqrt); Dot(r, r) == 1.0
  {
    var m := Mix(a, b, t);
    var k := rsqrt(Dot(m, m));
    ScaledDot(m, k);
  }

  /// Scaling a quaternion by `k` scales its squared length by `k * k`.
  lemma ScaledDot(q: Quat, k: real)
    ensures Dot(Scale(q, k), Scale(q, k)) == k * k * Dot(q, q)
  {
    calc {
      Dot(Scale(q, k), Scale(q, k));
      (q.x * k) * (q.x * k) + (q.y * k) * (q.y * k) + (q.z * k) * (q.z * k) + (q.w * k) * (q.w * k);
      k * k * (q.x * q.x) + k * k * (q.y * q.y) + k * k * (q.z * q.z) + k * k * (q.w * q.w);
      k * k * Dot(q, q);
    }
  }

  /// Sign-flip invariance: `b` and `-b` are the same rotation, and whenever
  /// `dot(a, b) != 0` the short-path correction maps both to the same
  /// operand, so the interpolation cannot tell them apart.
  lemma {:induction false} QuatLerpSignInvariant(a: Quat, b: Quat, t: real, rsqrt: real -> real)
    requires Dot(a, b) != 0.0
    ensures LerpUnclampedQuat(a, b, t, rsqrt) == LerpUnclampedQuat(a, Neg(b), t, rsqrt)
  {
    assert Dot(a, Neg(b)) == -Dot(a, b);
    assert Neg(Neg(b)) == b;
    assert ShortPath(a, b) == ShortPath(a, Neg(b));
  }

  /// `lerp_unclamped` for `Option<T>`: two `Some`s interpolate their
  /// contents; any pair with a `None` steps between the two operands.
  function LerpUnclampedOption<T>(a: Option<T>, b: Option<T>, t: real,
                                  lerp: (T, T, real) -> T, takeB: real -> bool): (r: Option<T>)
    ensures a.Some? && b.Some? ==> r == Some(lerp(a.value, b.value, t))
    ensures a.None? || b.None? ==> r == a || r == b
    ensures a.None? && b.None? ==> r == None
  {
    match (a, b)
    case (Some(x), Some(y)) => Some(lerp(x, y, t))
    case _ => StepUnclamped(a, b, t, takeB)
  }

  /// `std::ops::Range<T>`.
  datatype Range<+T> = Range(start: T, end: T)

  /// `std::ops::RangeInclusive<T>`.
  datatype RangeInclusive<+T> = RangeInclusive(start: T, end: T)

  /// `lerp_unclamped` for `Range<T>`: `start` and `end` are interpolated
  /// independently with the same `t`.
  function LerpUnclampedRange<T>(a: Range<T>, b: Range<T>, t: real, lerp: (T, T, real) -> T): (r: Range<T>)
    ensures r.start == lerp(a.start, b.start, t)
    ensures r.end == lerp(a.end, b.end, t)
  {
    Range(lerp(a.start, b.start, t), lerp(a.end, b.end, t))
  }

  /// `lerp_unclamped` for `RangeInclusive<T>`, with the same rule.
  function LerpUnclampedRangeInclusive<T>(a: RangeInclusive<T>, b: RangeInclusive<T>, t: real,
                                          lerp: (T, T, real) -> T): (r: RangeInclusive<T>)
    ensures r.start == lerp(a.start, b.start, t)
    ensures r.end == lerp(a.end, b.end, t)
  {
    RangeInclusive(lerp(a.start, b.start, t), lerp(a.end, b.end, t))
  }

  /// For ranges of scalars the interpolation runs from `a` at `t = 0` to
  /// `b` at `t = 1`, and the clamped form never leaves that segment.
  lemma {:induction false} RangeLerpEndpoints(a: Range<real>, b: Range<real>, t: real)
    ensures LerpUnclampedRange(a, b, 0.0, LerpUnclamped) == a
    ensures LerpUnclampedRange(a, b, 1.0, LerpUnclamped) == b
    ensures var r := LerpClamped(a, b, t, (x, y, s) => LerpUnclampedRange(x, y, s, LerpUnclamped));
            (a.start <= b.start ==> a.start <= r.start <= b.start) &&
            (b.start <= a.start ==> b.start <= r.start <= a.start)
  {
    var u := (x, y, s) => LerpUnclampedRange(x, y, s, LerpUnclamped);
    var c := Clamp(t, 0.0, 1.0);
    assert LerpClamped(a, b, t, u) == u(a, b, c);
    LerpWithin(a.start, b.start, c);
  }
}
