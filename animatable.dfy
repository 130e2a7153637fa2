/// `Animatable`: pairwise interpolation and the weighted blend for the value
/// families a track can hold (`f32`, `f64`, glam's float vectors, `Range`
/// and `RangeInclusive` of those).
///
/// A vector value is a `seq<real>` of its components; the blend of a vector
/// family is stated for any dimension `dim`.
module Animatable {
  import opened Lerp

  /// `BlendInput<T>`: one weighted contribution to a blend.
  datatype BlendInput<+T> = BlendInput(weight: real, value: T)

  /// `interpolate` for `f32` and `f64`: the affine combination, the same
  /// function as `Lerp::lerp_unclamped` of the scalar families.
  function InterpolateScalar(a: real, b: real, t: real): (r: real)
    ensures r == LerpUnclamped(a, b, t)
    ensures t == 0.0 ==> r == a
    ensures t == 1.0 ==> r == b
  {
    a * (1.0 - t) + b * t
  }

  /// `interpolate` for the vector families, `Vec3` included: componentwise
  /// the scalar interpolation.
  function InterpolateVec(a: seq<real>, b: seq<real>, t: real): (r: seq<real>)
    requires |a| == |b|
    ensures |r| == |a|
    ensures forall i :: 0 <= i < |r| ==> r[i] == InterpolateScalar(a[i], b[i], t)
    ensures r == LerpUnclampedVec(a, b, t)
  {
    seq(|a|, i requires 0 <= i < |a| => a[i] * (1.0 - t) + b[i] * t)
  }

  /// The sum of `f` over `s`, in order; the empty sum is 0.
  function Sum<T>(f: T -> real, s: seq<T>): real
    decreases |s|
  {
    if s == [] then 0.0 else Sum(f, s[..|s| - 1]) + f(s[|s| - 1])
  }

  /// One input's contribution to a scalar blend.
  function Weighted(x: BlendInput<real>): real {
    x.weight * x.value
  }

  /// The products `weight * value`, summed in input order; the empty sum is 0.
  function BlendScalar(inputs: seq<BlendInput<real>>): real {
    Sum(Weighted, inputs)
  }

  /// One input's weight.
  function WeightOf<T>(x: BlendInput<T>): real {
    x.weight
  }

  /// The sum of the weights of `inputs`.
  function TotalWeight<T>(inputs: seq<BlendInput<T>>): real {
    Sum(WeightOf, inputs)
  }

  /// `blend` is not normalised: no input gives 0 and a single input gives
  /// `weight * value`, whatever the weight.
  lemma BlendNotNormalised(w: real, v: real)
    ensures BlendScalar([]) == 0.0
    ensures BlendScalar([BlendInput(w, v)]) == w * v
  {
    assert [BlendInput(w, v)][..0] == [];
  }

  /// Summing the concatenation of two sequences adds their sums.
  lemma {:induction false} SumAppend<T>(f: T -> real, a: seq<T>, b: seq<T>)
    ensures Sum(f, a + b) == Sum(f, a) + Sum(f, b)
    decreases |b|
  {
    if b == [] {
      assert a + b == a;
    } else {
      var b' := b[..|b| - 1];
      assert (a + b)[..|a + b| - 1] == a + b';
      SumAppend(f, a, b');
    }
  }

  /// Blending the concatenation of two input streams adds their blends.
  lemma BlendAppend(a: seq<BlendInput<real>>, b: seq<BlendInput<real>>)
    ensures BlendScalar(a + b) == BlendScalar(a) + BlendScalar(b)
  {
    SumAppend(Weighted, a, b);
  }

  /// The sum does not depend on the order of the sequence.
  lemma {:induction false} SumPermutation<T>(f: T -> real, a: seq<T>, b: seq<T>)
    requires multiset(a) == multiset(b)
    ensures Sum(f, a) == Sum(f, b)
    decreases |a|
  {
    if a == [] {
      assert |b| == |multiset(b)| == 0;
    } else {
      var j := MatchLast(a, b);
      var l, r := b[..j], b[j + 1..];
      SumPermutation(f, a[..|a| - 1], l + r);
      SpliceAround(b, j);
      SumAround(f, b, l, b[j], r);
    }
  }

  /// `b` is its prefix before `j`, the element at `j` and its suffix after `j`.
  lemma SpliceAround<T>(b: seq<T>, j: nat)
    requires j < |b|
    ensures b == b[..j] + [b[j]] + b[j + 1..]
  {
  }

  /// The sum over `l + [x] + r` is the sum over `l + r` plus the term of `x`.
  lemma SumAround<T>(f: T -> real, b: seq<T>, l: seq<T>, x: T, r: seq<T>)
    requires b == l + [x] + r
    ensures Sum(f, b) == Sum(f, l + r) + f(x)
  {
    SumAppend(f, l + [x], r);
    SumAppend(f, l, [x]);
    assert [x][..0] == [];
    SumAppend(f, l, r);
  }

  /// The blend is a sum, so the order of the inputs does not matter: any
  /// permutation of the inputs blends to the same value.
  lemma BlendPermutation(a: seq<BlendInput<real>>, b: seq<BlendInput<real>>)
    requires multiset(a) == multiset(b)
    ensures BlendScalar(a) == BlendScalar(b)
  {
    SumPermutation(Weighted, a, b);
  }

  /// In a permutation `b` of a non-empty `a`, some position `j` holds the
  /// last element of `a`, and removing it leaves a permutation of the rest.
  lemma MatchLast<T>(a: seq<T>, b: seq<T>) returns (j: nat)
    requires a != [] && multiset(a) == multiset(b)
    ensures j < |b| && b[j] == a[|a| - 1]
    ensures multiset(a[..|a| - 1]) == multiset(b[..j] + b[j + 1..])
  {
    var x := a[|a| - 1];
    MultisetAround(a, |a| - 1);
    assert a[..|a| - 1] + a[|a|..] == a[..|a| - 1];
    assert x in multiset(b);
    j :| 0 <= j < |b| && b[j] == x;
    MultisetAround(b, j);
    CancelOne(multiset(a[..|a| - 1]), multiset(b[..j] + b[j + 1..]), x);
  }

  /// A sequence holds its element at `j` and the elements around it.
  lemma MultisetAround<T>(b: seq<T>, j: nat)
    requires j < |b|
    ensures multiset(b) == multiset(b[..j] + b[j + 1..]) + multiset{b[j]}
  {
    assert b == b[..j] + [b[j]] + b[j + 1..];
  }

  lemma CancelOne<T>(ma: multiset<T>, mb: multiset<T>, x: T)
    requires ma + multiset{x} == mb + multiset{x}
    ensures ma == mb
  {
    assert ma == ma + multiset{x} - multiset{x};
    assert mb == mb + multiset{x} - multiset{x};
  }

  /// When every input carries the same value `v`, the blend is
  /// `(Σ weight) * v`: it equals `v` exactly when the weights sum to 1.
  lemma {:induction false} BlendConstant(inputs: seq<BlendInput<real>>, v: real)
    requires forall k :: 0 <= k < |inputs| ==> inputs[k].value == v
    ensures BlendScalar(inputs) == TotalWeight(inputs) * v
    decreases |inputs|
  {
    if inputs != [] {
      BlendConstant(inputs[..|inputs| - 1], v);
    }
  }

  /// The inputs with every value replaced by its image under `f`, weights
  /// and order kept.
  function Project<T, U>(inputs: seq<BlendInput<T>>, f: T -> U): (r: seq<BlendInput<U>>)
    ensures |r| == |inputs|
    ensures forall k :: 0 <= k < |r| ==> r[k].weight == inputs[k].weight && r[k].value == f(inputs[k].value)
  {
    seq(|inputs|, k requires 0 <= k < |inputs| => BlendInput(inputs[k].weight, f(inputs[k].value)))
  }

  /// Every input vector has `dim` components.
  predicate AllDim(inputs: seq<BlendInput<seq<real>>>, dim: nat) {
    forall k :: 0 <= k < |inputs| ==> |inputs[k].value| == dim
  }

  /// Component `i` of each input vector, with the input's weight.
  function Component(inputs: seq<BlendInput<seq<real>>>, i: nat): (r: seq<BlendInput<real>>)
    requires forall k :: 0 <= k < |inputs| ==> i < |inputs[k].value|
    ensures |r| == |inputs|
  {
    seq(|inputs|, k requires 0 <= k < |inputs| => BlendInput(inputs[k].weight, inputs[k].value[i]))
  }

  /// `blend` for the vector families: the running sum of `weight * value`
  /// starting from the zero vector.
  function BlendVec(inputs: seq<BlendInput<seq<real>>>, dim: nat): (r: seq<real>)
    requires AllDim(inputs, dim)
    ensures |r| == dim
    decreases |inputs|
  {
    if inputs == [] then seq(dim, _ => 0.0)
    else
      var n := |inputs| - 1;
      var acc := BlendVec(inputs[..n], dim);
      var x := inputs[n];
      seq(dim, i requires 0 <= i < dim => acc[i] + x.weight * x.value[i])
  }

  /// Each component of the vector blend is the scalar blend of that
  /// component of the inputs.
  lemma {:induction false} BlendVecComponents(inputs: seq<BlendInput<seq<real>>>, dim: nat)
    requires AllDim(inputs, dim)
    ensures forall i :: 0 <= i < dim ==> BlendVec(inputs, dim)[i] == BlendScalar(Component(inputs, i))
    decreases |inputs|
  {
    if inputs != [] {
      var n := |inputs| - 1;
      BlendVecComponents(inputs[..n], dim);
      forall i | 0 <= i < dim
        ensures BlendVec(inputs, dim)[i] == BlendScalar(Component(inputs, i))
      {
        BlendVecStep(inputs, dim, i);
      }
    }
  }

  lemma BlendVecStep(inputs: seq<BlendInput<seq<real>>>, dim: nat, i: nat)
    requires inputs != [] && AllDim(inputs, dim) && i < dim
    requires BlendVec(inputs[..|inputs| - 1], dim)[i] == BlendScalar(Component(inputs[..|inputs| - 1], i))
    ensures BlendVec(inputs, dim)[i] == BlendScalar(Component(inputs, i))
  {
    BlendVecLast(inputs, dim, i);
    ComponentStep(inputs, i);
  }

  lemma BlendVecLast(inputs: seq<BlendInput<seq<real>>>, dim: nat, i: nat)
    requires inputs != [] && AllDim(inputs, dim) && i < dim
    ensures var n := |inputs| - 1;
      BlendVec(inputs, dim)[i] == BlendVec(inputs[..n], dim)[i] + inputs[n].weight * inputs[n].value[i]
  {
  }

  /// Blending one more vector adds its weighted component to each
  /// component's blend.
  lemma ComponentStep(inputs: seq<BlendInput<seq<real>>>, i: nat)
    requires inputs != [] && forall k :: 0 <= k < |inputs| ==> i < |inputs[k].value|
    ensures var n := |inputs| - 1;
      BlendScalar(Component(inputs, i)) ==
      BlendScalar(Component(inputs[..n], i)) + inputs[n].weight * inputs[n].value[i]
  {
    var n := |inputs| - 1;
    var c := Component(inputs, i);
    ComponentPrefix(inputs, i, n);
    assert c[n] == BlendInput(inputs[n].weight, inputs[n].value[i]);
  }

  /// The components of a prefix are the prefix of the components.
  lemma ComponentPrefix(inputs: seq<BlendInput<seq<real>>>, i: nat, n: nat)
    requires n <= |inputs| && forall k :: 0 <= k < |inputs| ==> i < |inputs[k].value|
    ensures Component(inputs, i)[..n] == Component(inputs[..n], i)
  {
  }

  /// `Vec3A::from(v)`: the three components of `v` and a padding lane whose
  /// content is not specified.
  function ToVec3A(v: seq<real>, pad: real): (r: seq<real>)
    requires |v| == 3
    ensures |r| == 4 && r[..3] == v
  {
    v + [pad]
  }

  /// `blend` for `Vec3`: each input is widened to `Vec3A`, the widened
  /// vectors are blended, and the result is narrowed back to `Vec3`.
  function BlendVec3(inputs: seq<BlendInput<seq<real>>>, pad: real): (r: seq<real>)
    requires AllDim(inputs, 3)
  {
    var wide := seq(|inputs|, k requires 0 <= k < |inputs| => BlendInput(inputs[k].weight, ToVec3A(inputs[k].value, pad)));
    BlendVec(wide, 4)[..3]
  }

  /// Blending `Vec3` through `Vec3A` gives the same componentwise weighted
  /// sum as blending three-component vectors directly; the padding lane
  /// never reaches the result.
  lemma Vec3BlendViaVec3A(inputs: seq<BlendInput<seq<real>>>, pad: real)
    requires AllDim(inputs, 3)
    ensures BlendVec3(inputs, pad) == BlendVec(inputs, 3)
  {
    var wide := seq(|inputs|, k requires 0 <= k < |inputs| => BlendInput(inputs[k].weight, ToVec3A(inputs[k].value, pad)));
    BlendVecComponents(wide, 4);
    BlendVecComponents(inputs, 3);
    forall i | 0 <= i < 3
      ensures Component(wide, i) == Component(inputs, i)
    {
      assert forall k :: 0 <= k < |inputs| ==> ToVec3A(inputs[k].value, pad)[i] == inputs[k].value[i];
    }
  }

  /// `Range::start` and `Range::end` as functions.
  function StartOf<T>(r: Range<T>): T { r.start }
  function EndOf<T>(r: Range<T>): T { r.end }
  function StartOfInclusive<T>(r: RangeInclusive<T>): T { r.start }
  function EndOfInclusive<T>(r: RangeInclusive<T>): T { r.end }

  /// `interpolate` for `Range<T>`: start and end independently, with the
  /// element type's `interpolate` passed as `interp`.
  function InterpolateRange<T>(a: Range<T>, b: Range<T>, t: real, interp: (T, T, real) -> T): (r: Range<T>)
    ensures r.start == interp(a.start, b.start, t)
    ensures r.end == interp(a.end, b.end, t)
    ensures r == LerpUnclampedRange(a, b, t, interp)
  {
    Range(interp(a.start, b.start, t), interp(a.end, b.end, t))
  }

  /// `interpolate` for `RangeInclusive<T>`, with the same rule.
  function InterpolateRangeInclusive<T>(a: RangeInclusive<T>, b: RangeInclusive<T>, t: real,
                                        interp: (T, T, real) -> T): (r: RangeInclusive<T>)
    ensures r.start == interp(a.start, b.start, t)
    ensures r.end == interp(a.end, b.end, t)
    ensures r == LerpUnclampedRangeInclusive(a, b, t, interp)
  {
    RangeInclusive(interp(a.start, b.start, t), interp(a.end, b.end, t))
  }

  /// What `blend` for `Range<T>` returns: the element blend of the starts
  /// and of the ends, each stream keeping the inputs' weights and order.
  function RangeBlend<T>(inputs: seq<BlendInput<Range<T>>>, blend: seq<BlendInput<T>> -> T): Range<T> {
    Range(blend(Project(inputs, StartOf)), blend(Project(inputs, EndOf)))
  }

  /// What `blend` for `RangeInclusive<T>` returns, by the same split.
  function RangeInclusiveBlend<T>(inputs: seq<BlendInput<RangeInclusive<T>>>,
                                  blend: seq<BlendInput<T>> -> T): RangeInclusive<T> {
    RangeInclusive(blend(Project(inputs, StartOfInclusive)), blend(Project(inputs, EndOfInclusive)))
  }

  /// `blend` for `Range<T>`: one pass over the inputs pushes each input's
  /// start and end, with its weight, onto two streams, which are then
  /// blended by the element type's `blend`.
  method BlendRange<T>(inputs: seq<BlendInput<Range<T>>>, blend: seq<BlendInput<T>> -> T)
    returns (r: Range<T>)
    ensures r == RangeBlend(inputs, blend)
  {
    var starts: seq<BlendInput<T>> := [];
    var ends: seq<BlendInput<T>> := [];
    var k := 0;
    while k < |inputs|
      invariant 0 <= k <= |inputs|
      invariant starts == Project(inputs[..k], StartOf)
      invariant ends == Project(inputs[..k], EndOf)
    {
      starts := starts + [BlendInput(inputs[k].weight, inputs[k].value.start)];
      ends := ends + [BlendInput(inputs[k].weight, inputs[k].value.end)];
      k := k + 1;
    }
    assert inputs[..k] == inputs;
    r := Range(blend(starts), blend(ends));
  }

  /// `blend` for `RangeInclusive<T>`, the same loop over cloned bounds.
  method BlendRangeInclusive<T>(inputs: seq<BlendInput<RangeInclusive<T>>>, blend: seq<BlendInput<T>> -> T)
    returns (r: RangeInclusive<T>)
    ensures r == RangeInclusiveBlend(inputs, blend)
  {
    var starts: seq<BlendInput<T>> := [];
    var ends: seq<BlendInput<T>> := [];
    var k := 0;
    while k < |inputs|
      invariant 0 <= k <= |inputs|
      invariant starts == Project(inputs[..k], StartOfInclusive)
      invariant ends == Project(inputs[..k], EndOfInclusive)
    {
      starts := starts + [BlendInput(inputs[k].weight, inputs[k].value.start)];
      ends := ends + [BlendInput(inputs[k].weight, inputs[k].value.end)];
      k := k + 1;
    }
    assert inputs[..k] == inputs;
    r := RangeInclusive(blend(starts), blend(ends));
  }

  /// For ranges of scalars the split blend is the weighted sum of the
  /// starts and the weighted sum of the ends; in particular a reordering
  /// of the inputs leaves the blended range unchanged.
  lemma RangeBlendPermutation(a: seq<BlendInput<Range<real>>>, b: seq<BlendInput<Range<real>>>)
    requires multiset(a) == multiset(b)
    ensures RangeBlend(a, BlendScalar) == RangeBlend(b, BlendScalar)
  {
    ProjectPermutation(a, b, StartOf);
    ProjectPermutation(a, b, EndOf);
    BlendPermutation(Project(a, StartOf), Project(b, StartOf));
    BlendPermutation(Project(a, EndOf), Project(b, EndOf));
  }

  /// Projecting two permutations of each other gives two permutations.
  lemma {:induction false} ProjectPermutation<T, U>(a: seq<BlendInput<T>>, b: seq<BlendInput<T>>, f: T -> U)
    requires multiset(a) == multiset(b)
    ensures multiset(Project(a, f)) == multiset(Project(b, f))
    decreases |a|
  {
    if a == [] {
      assert |b| == |multiset(b)| == 0;
      assert Project(b, f) == [];
    } else {
      var j := MatchLast(a, b);
      ProjectPermutation(a[..|a| - 1], b[..j] + b[j + 1..], f);
      ProjectAround(a, |a| - 1, f);
      assert a[..|a| - 1] + a[|a|..] == a[..|a| - 1];
      ProjectAround(b, j, f);
    }
  }

  /// The projection holds the image of the input at `j` and the projection
  /// of the inputs around it.
  lemma ProjectAround<T, U>(b: seq<BlendInput<T>>, j: nat, f: T -> U)
    requires j < |b|
    ensures multiset(Project(b, f)) ==
      multiset(Project(b[..j] + b[j + 1..], f)) + multiset{BlendInput(b[j].weight, f(b[j].value))}
  {
    var p := Project(b, f);
    MultisetAround(p, j);
    assert p[..j] + p[j + 1..] == Project(b[..j] + b[j + 1..], f);
  }
}
