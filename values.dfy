/// The closed set of value types the animation core stores in clips and
/// tracks. Rust identifies a curve's element type by `TypeId` and recovers
/// it by downcasting; here a `ValueType` tag names the type and a `Value`
/// holds any value of any of them.
module Values {
  import opened Lerp
  import opened Animatable

  /// The `Animatable` types: the float scalars, glam's float vectors, and
  /// `Range`/`RangeInclusive` of any of them.
  datatype ValueType =
    | F32 | F64 | Vec2 | Vec3 | Vec3A | Vec4 | DVec2 | DVec3 | DVec4
    | RangeOf(elem: ValueType)
    | RangeInclusiveOf(elem: ValueType)

  /// A scalar or vector is its list of components; a range holds its bounds.
  datatype Value =
    | Num(components: seq<real>)
    | RangeV(range: Range<Value>)
    | RangeInclusiveV(rangeInclusive: RangeInclusive<Value>)

  /// The number of components of a scalar or vector type.
  function Dim(ty: ValueType): nat {
    match ty
    case F32 => 1
    case F64 => 1
    case Vec2 => 2
    case DVec2 => 2
    case Vec3 => 3
    case Vec3A => 3
    case DVec3 => 3
    case Vec4 => 4
    case DVec4 => 4
    case RangeOf(_) => 0
    case RangeInclusiveOf(_) => 0
  }

  /// `v` is a value of type `ty`.
  predicate HasType(v: Value, ty: ValueType)
    decreases ty
  {
    match ty
    case RangeOf(e) => v.RangeV? && HasType(v.range.start, e) && HasType(v.range.end, e)
    case RangeInclusiveOf(e) =>
      v.RangeInclusiveV? && HasType(v.rangeInclusive.start, e) && HasType(v.rangeInclusive.end, e)
    case _ => v.Num? && |v.components| == Dim(ty)
  }

  /// `lerp_unclamped` on values: componentwise for scalars and vectors,
  /// bound by bound for ranges. Two values of one type never reach the
  /// last case, which keeps the function total.
  function LerpValue(a: Value, b: Value, t: real): Value
    decreases a
  {
    match (a, b)
    case (Num(x), Num(y)) => if |x| == |y| then Num(LerpUnclampedVec(x, y, t)) else a
    case (RangeV(x), RangeV(y)) =>
      RangeV(Range(LerpValue(x.start, y.start, t), LerpValue(x.end, y.end, t)))
    case (RangeInclusiveV(x), RangeInclusiveV(y)) =>
      RangeInclusiveV(RangeInclusive(LerpValue(x.start, y.start, t), LerpValue(x.end, y.end, t)))
    case _ => a
  }

  /// Interpolating two values of one type gives a value of that type, which
  /// is the type's own `lerp_unclamped`: the vector formula for scalars and
  /// vectors, the `Range` rule for ranges; it starts at `a` and ends at `b`.
  lemma {:induction false} LerpValueTyped(a: Value, b: Value, t: real, ty: ValueType)
    requires HasType(a, ty) && HasType(b, ty)
    ensures HasType(LerpValue(a, b, t), ty)
    ensures a.Num? ==> LerpValue(a, b, t) == Num(LerpUnclampedVec(a.components, b.components, t))
    ensures a.RangeV? ==> LerpValue(a, b, t) == RangeV(LerpUnclampedRange(a.range, b.range, t, LerpValue))
    ensures LerpValue(a, b, 0.0) == a && LerpValue(a, b, 1.0) == b
    decreases ty
  {
    match ty
    case RangeOf(e) =>
      LerpValueTyped(a.range.start, b.range.start, t, e);
      LerpValueTyped(a.range.end, b.range.end, t, e);
    case RangeInclusiveOf(e) =>
      LerpValueTyped(a.rangeInclusive.start, b.rangeInclusive.start, t, e);
      LerpValueTyped(a.rangeInclusive.end, b.rangeInclusive.end, t, e);
    case _ =>
  }

  /// The components of a scalar or vector value; none for a range.
  function Components(v: Value): seq<real> {
    if v.Num? then v.components else []
  }

  /// The bounds of a `Range` value; any other value stands for both bounds.
  function AsRange(v: Value): Range<Value> {
    if v.RangeV? then v.range else Range(v, v)
  }

  /// Component `i` of a scalar or vector value; 0 where there is none.
  function Comp(v: Value, i: nat): real {
    if v.Num? && i < |v.components| then v.components[i] else 0.0
  }

  /// The bounds of a range value; a non-range value stands for itself.
  function StartValue(v: Value): Value {
    match v
    case RangeV(r) => r.start
    case RangeInclusiveV(r) => r.start
    case _ => v
  }

  function EndValue(v: Value): Value {
    match v
    case RangeV(r) => r.end
    case RangeInclusiveV(r) => r.end
    case _ => v
  }

  /// `Animatable::blend` on values of type `ty`: each component is the
  /// weighted sum of that component of the inputs; a range blends its
  /// starts and its ends separately.
  function BlendValue(ty: ValueType, inputs: seq<BlendInput<Value>>): Value
    decreases ty
  {
    match ty
    case RangeOf(e) =>
      RangeV(Range(BlendValue(e, Project(inputs, StartValue)), BlendValue(e, Project(inputs, EndValue))))
    case RangeInclusiveOf(e) =>
      RangeInclusiveV(RangeInclusive(BlendValue(e, Project(inputs, StartValue)),
                                     BlendValue(e, Project(inputs, EndValue))))
    case _ =>
      Num(seq(Dim(ty), i requires 0 <= i < Dim(ty) => BlendScalar(Project(inputs, v => Comp(v, i)))))
  }

  /// Every input has type `ty`.
  predicate AllHaveType(inputs: seq<BlendInput<Value>>, ty: ValueType) {
    forall k :: 0 <= k < |inputs| ==> HasType(inputs[k].value, ty)
  }

  /// The blend of any inputs has the blended type.
  lemma {:induction false} BlendValueTyped(ty: ValueType, inputs: seq<BlendInput<Value>>)
    ensures HasType(BlendValue(ty, inputs), ty)
    decreases ty
  {
    match ty
    case RangeOf(e) =>
      BlendValueTyped(e, Project(inputs, StartValue));
      BlendValueTyped(e, Project(inputs, EndValue));
    case RangeInclusiveOf(e) =>
      BlendValueTyped(e, Project(inputs, StartValue));
      BlendValueTyped(e, Project(inputs, EndValue));
    case _ =>
  }

  /// On scalars and vectors of one type, the value blend is the vector
  /// family's `blend`: the weighted sum of the input vectors.
  lemma BlendValueNumeric(ty: ValueType, inputs: seq<BlendInput<Value>>)
    requires !ty.RangeOf? && !ty.RangeInclusiveOf? && AllHaveType(inputs, ty)
    ensures AllDim(Project(inputs, Components), Dim(ty))
    ensures BlendValue(ty, inputs) == Num(BlendVec(Project(inputs, Components), Dim(ty)))
  {
    var vecs := Project(inputs, Components);
    var r := BlendVec(vecs, Dim(ty));
    BlendVecComponents(vecs, Dim(ty));
    forall i | 0 <= i < Dim(ty)
      ensures BlendValue(ty, inputs).components[i] == r[i]
    {
      assert Project(inputs, v => Comp(v, i)) == Component(vecs, i);
    }
  }

  /// On ranges, the value blend is the `Range` family's `blend`: the starts
  /// and the ends, split with their weights, each blended by the element type.
  lemma BlendValueRange(e: ValueType, inputs: seq<BlendInput<Value>>)
    requires AllHaveType(inputs, RangeOf(e))
    ensures BlendValue(RangeOf(e), inputs) ==
      RangeV(RangeBlend(Project(inputs, AsRange), ins => BlendValue(e, ins)))
  {
    var ranges := Project(inputs, AsRange);
    assert Project(ranges, StartOf) == Project(inputs, StartValue);
    assert Project(ranges, EndOf) == Project(inputs, EndValue);
  }
}
