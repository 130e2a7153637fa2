/// `AnimationClip` and its builder: a map from property key to a curve
/// tagged with the type of its values.
module Clip {
  import opened Wrappers
  import opened Values
  import opened Fixed

  /// `CurveWrapper<T>` seen as a `ClipCurve`: the curve together with
  /// `value_type_id`, the type `T` of its values.
  datatype CurveWrapper = CurveWrapper(valueType: ValueType, curve: CurveFixed<Value>)

  /// `AnimationClip`: immutable once built.
  datatype AnimationClip = AnimationClip(curves: map<string, CurveWrapper>)

  datatype GetCurveError = MissingKey | WrongType

  /// `AnimationClip::get_curve::<T>(key)`, with `ty` standing for `T`: a
  /// missing key and a curve of another type are told apart.
  function GetCurve(clip: AnimationClip, key: string, ty: ValueType): (r: Result<CurveFixed<Value>, GetCurveError>)
    ensures r == Err(MissingKey) <==> key !in clip.curves
    ensures r == Err(WrongType) <==> key in clip.curves && clip.curves[key].valueType != ty
    ensures r.Ok? <==> key in clip.curves && clip.curves[key].valueType == ty
    ensures r.Ok? ==> r.value == clip.curves[key].curve
  {
    if key !in clip.curves then Err(MissingKey)
    else
      var w := clip.curves[key];
      if w.valueType == ty then Ok(w.curve) else Err(WrongType)
  }

  /// After a curve is stored under `key`, looking `key` up with the curve's
  /// type finds that curve, with another type reports `WrongType`, and
  /// every other key finds what it found before.
  lemma GetCurveAfterInsert(curves: map<string, CurveWrapper>, key: string, ty: ValueType,
                            curve: CurveFixed<Value>, other: string, otherTy: ValueType)
    ensures var clip := AnimationClip(curves[key := CurveWrapper(ty, curve)]);
      GetCurve(clip, key, ty) == Ok(curve) &&
      (otherTy != ty ==> GetCurve(clip, key, otherTy) == Err(WrongType)) &&
      (other != key ==> GetCurve(clip, other, otherTy) == GetCurve(AnimationClip(curves), other, otherTy))
  {
  }

  /// `AnimationClipBuilder`: collects curves by key.
  class AnimationClipBuilder {
    var curves: map<string, CurveWrapper>

    /// `AnimationClipBuilder::new`: no curves.
    constructor ()
      ensures curves == map[]
    {
      curves := map[];
    }

    /// `add_dynamic_curve::<T>(key, curve)`: stores the curve under `key`,
    /// replacing any curve stored there before.
    method AddDynamicCurve(key: string, ty: ValueType, curve: CurveFixed<Value>)
      modifies this
      ensures curves == old(curves)[key := CurveWrapper(ty, curve)]
    {
      curves := curves[key := CurveWrapper(ty, curve)];
    }

    /// `add_curve::<T>(key, curve)`: the curve is shared behind an `Arc`
    /// and handed to `add_dynamic_curve`.
    method AddCurve(key: string, ty: ValueType, curve: CurveFixed<Value>)
      modifies this
      ensures curves == old(curves)[key := CurveWrapper(ty, curve)]
    {
      AddDynamicCurve(key, ty, curve);
    }

    /// `build`: the clip holds exactly the builder's curves.
    method Build() returns (clip: AnimationClip)
      ensures clip.curves == curves
    {
      clip := AnimationClip(curves);
    }
  }
}
