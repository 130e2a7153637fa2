/// Fixed-width integers and the float operations the core relies on.
/// Floating-point values are modelled as `real`; what Rust does when it
/// turns a float into an integer (truncation toward zero, rounding half
/// away from zero, saturation at the target type's bounds) is spelled out
/// here explicitly. NaN and infinities have no counterpart in `real`.
module Numeric {

  const U16_LIMIT: nat := 0x1_0000
  /// `u16`, the width of `NodeId`, `ClipId` and `KeyframeIndex`.
  type U16 = x: nat | x < U16_LIMIT

  const I32_MIN: int := -0x8000_0000
  const I32_MAX: int := 0x7fff_ffff
  /// `i32`, the width of a curve's frame offset.
  type I32 = x: int | I32_MIN <= x <= I32_MAX

  /// `usize` on a 64-bit target.
  const USIZE_MAX: nat := 0xffff_ffff_ffff_ffff
  type Usize = x: nat | x <= USIZE_MAX

  /// `f32::clamp(x, lo, hi)`; Rust asserts `lo <= hi`.
  function Clamp(x: real, lo: real, hi: real): (r: real)
    requires lo <= hi
    ensures lo <= r <= hi
    ensures lo <= x <= hi ==> r == x
    ensures x < lo ==> r == lo
    ensures hi < x ==> r == hi
  {
    if x < lo then lo else if hi < x then hi else x
  }

  /// `f32::max`.
  function Max(a: real, b: real): (r: real)
    ensures a <= r && b <= r
    ensures r == a || r == b
  {
    if a < b then b else a
  }

  /// `f32::trunc`: the integer part, rounding toward zero.
  function Trunc(x: real): (r: int)
    ensures 0.0 <= x ==> 0 <= r && r as real <= x < r as real + 1.0
    ensures x < 0.0 ==> r <= 0 && r as real - 1.0 < x <= r as real
  {
    if 0.0 <= x then x.Floor else -((-x).Floor)
  }

  /// `f32::round`: the nearest integer, halves rounded away from zero.
  function Round(x: real): (r: int)
    ensures 0.0 <= x ==> x - 0.5 < r as real <= x + 0.5
    ensures x < 0.0 ==> x - 0.5 <= r as real < x + 0.5
  {
    if 0.0 <= x then (x + 0.5).Floor else -((-x + 0.5).Floor)
  }

  /// The saturating cast `n as i32` (Rust float-to-int casts saturate).
  function SatI32(n: int): (r: I32)
    ensures I32_MIN <= n <= I32_MAX ==> r == n
    ensures n < I32_MIN ==> r == I32_MIN
    ensures I32_MAX < n ==> r == I32_MAX
  {
    if n < I32_MIN then I32_MIN else if I32_MAX < n then I32_MAX else n
  }

  /// The saturating cast `n as usize`: negatives become 0.
  function SatUsize(n: int): (r: nat)
    ensures 0 <= n <= USIZE_MAX ==> r == n
    ensures n < 0 ==> r == 0
    ensures USIZE_MAX < n ==> r == USIZE_MAX
  {
    if n < 0 then 0 else if USIZE_MAX < n then USIZE_MAX else n
  }
}
