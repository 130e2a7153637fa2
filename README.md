# bevy_prototype_animation, modelled in Dafny

This project models the animation core of `bevy_prototype_animation`, a
prototype animation system for the Bevy engine, and proves properties of
that model. The core it covers:

- **interpolation**: `Lerp` and `Animatable` for scalars, vectors,
  quaternions (nlerp), options and ranges, and weighted blending of
  `BlendInput`s;
- **curves**: the fixed-frame-rate keyframe curve `CurveFixed`
  (sampling, clamping to the end keyframes, duration and offsets), the
  curve traits and resampling that preserves a loop, and the older
  `Curve` enum;
- **clips and tracks**: `AnimationClip` as a map from property path to
  curve, the per-property `Track` store, and sampling and blending over
  clip weights;
- **the animation graph**: node inputs, `add_input`/`add_clip`,
  `set_time` propagation and `evaluate`'s weight accumulation, both for
  the newer stack-based graph and for the older recursive one;
- **property paths**: entity paths split on `/`, the reflection field-path
  tokenizer and parser of `path/field.rs`, access and property paths
  split on `.` and `@`, and the older range-based paths of `path.rs`;
- **bone lookup**: `find_bone`, the first-match walk down the `Children`
  hierarchy by `Name`.

Floats are reals. `TypeId`/`Any` downcasts become a closed union of the
value types (`Values.ValueType`). The ECS queries and the `TypeRegistry`
become maps. The helpers `util::step_unclamped` and `util::approx_rsqrt`,
whose source is not part of this model, are passed in as function
parameters. Graph traversal takes a ghost ranking of the nodes as its
witness of acyclicity.

Every stateful piece of the source is a class with `modifies` clauses:
the graph's node store, the graph state, the clip builder, the track
store, and the older entity and field paths. Each mutating method states
its new state through a specification function. The properties are
proved about those functions.

## Model

| member | source | states |
|---|---|---|
| Lerp.LerpClamped | src/math/interpolation/lerp.rs:25-27 | `lerp` clamps `t` into [0, 1]: below 0 it is the unclamped result at 0, above 1 the result at 1, and inside it is the unclamped result at `t` |
| Lerp.LerpUnclamped | src/math/interpolation/lerp.rs:43-52 | the `f32` formula `a*(1-t) + b*t` equals `a + (b-a)*t`; it gives `a` at 0 and `b` at 1 |
| Lerp.LerpWithin | src/math/interpolation/lerp.rs:43-52 | for `t` in [0, 1] the interpolation stays between `a` and `b`, whichever is larger |
| Lerp.ScaledWithin | src/math/interpolation/lerp.rs:48 | for `t` in [0, 1], `d*t` lies between 0 and `d`, whichever sign `d` has (the bound behind `LerpWithin`) |
| Lerp.LerpUnclampedWide | src/math/interpolation/lerp.rs:54-64 | the `f64` version widens `t` exactly, so it agrees with the `f32` formula, including both endpoints |
| Lerp.LerpUnclampedVec | src/math/interpolation/lerp.rs:66-75 | on vectors every component is the scalar lerp of the matching components; `t = 0` gives `a` and `t = 1` gives `b` |
| Lerp.StepUnclamped | src/math/interpolation/lerp.rs:80 | `step_unclamped` returns one of its two operands: `b` exactly when the step test on `t` holds |
| Lerp.LerpUnclampedBool | src/math/interpolation/lerp.rs:77-82 | the `bool` lerp is one of the operands, and equal operands give that value |
| Lerp.ShortPath | src/math/interpolation/lerp.rs:89-94 | the quaternion operand is `b` or `-b`; it is `-b` exactly when `dot(a, b) < 0`, so the dot product with `a` is never negative afterwards |
| Lerp.LerpUnclampedQuat | src/math/interpolation/lerp.rs:88-102 | the quaternion `lerp_unclamped` is the component mix of `a` and the short-path operand, scaled by `rsqrt` of its squared length; at `t = 0` it is `a` scaled, at `t = 1` the corrected `b` scaled; when `dot(a, b) < 0` it is the nlerp toward `-b`, otherwise toward `b` |
| Lerp.Nlerp | src/math/interpolation/lerp.rs:97-101 | the `Vec4` interpolation scaled by `approx_rsqrt` of its dot with itself equals the quaternion mix of the operands scaled the same way |
| Lerp.NlerpUnit | src/math/interpolation/lerp.rs:99-101 | with an exact reciprocal square root, the nlerp result is a unit quaternion whenever the mix is not zero |
| Lerp.QuatLerpSignInvariant | src/math/interpolation/lerp.rs:88-102 | when `dot(a, b) != 0`, the nlerp toward `b` equals the nlerp toward `-b`, since both name the same rotation |
| Lerp.LerpUnclampedOption | src/math/interpolation/lerp.rs:105-112 | two `Some`s interpolate their contents; a pair with a `None` steps to one of the operands, and two `None`s give `None` |
| Lerp.LerpUnclampedRange | src/math/interpolation/lerp.rs:114-121 | a `Range` lerp interpolates `start` and `end` independently with the same `t` |
| Lerp.LerpUnclampedRangeInclusive | src/math/interpolation/lerp.rs:123-130 | the same for `RangeInclusive` |
| Lerp.RangeLerpEndpoints | src/math/interpolation/lerp.rs:21-27 | a scalar range lerp gives `a` at 0 and `b` at 1, and the clamped form keeps `start` between the two starts |
| Numeric.Clamp | src/curves/fixed.rs:104 | `f32::clamp`: the result lies in `[lo, hi]`; it is `x` when `x` is inside, and otherwise the bound that `x` crossed |
| Numeric.Max | src/curves/fixed.rs:129-130 | `f32::max` returns one of its operands and is at least both |
| Numeric.Trunc | src/curves/fixed.rs:105 | `trunc` rounds toward zero: the result is within one of `x`, on the side of `x` toward zero |
| Numeric.Round | src/curve/mod.rs:76-77 | `round` rounds to the nearest integer, with halves going away from zero |
| Numeric.SatI32 | src/curve/mod.rs:77 | the float-to-`i32` cast saturates at `i32::MIN` and `i32::MAX` |
| Numeric.SatUsize | src/curves/fixed.rs:107 | the float-to-`usize` cast maps negatives to 0 and saturates at `usize::MAX` |
| Animatable.InterpolateScalar | src/animatable.rs:16-22 | `interpolate` on scalars is the unclamped lerp: `a` at 0, `b` at 1 |
| Animatable.InterpolateVec | src/animatable.rs:53-61 | on vectors it works componentwise and agrees with `Lerp.LerpUnclampedVec` |
| Animatable.BlendNotNormalised | src/animatable.rs:24-29 | `blend` is a plain weighted sum with no normalisation: no inputs give 0, and one input gives `weight * value` |
| Animatable.BlendAppend | src/animatable.rs:24-29 | blending a concatenation is the sum of the two blends |
| Animatable.BlendPermutation | src/animatable.rs:24-29 | the blend does not depend on the order of its inputs: any permutation gives the same sum |
| Animatable.BlendConstant | src/animatable.rs:24-29 | inputs that all carry the value `v` blend to `total weight * v`, which is `v` only when the weights sum to 1 |
| Animatable.Project | src/animatable.rs:120-129 | projecting the inputs keeps each weight and maps each value |
| Animatable.BlendVec | src/animatable.rs:54-61 | the vector blend has the inputs' dimension (its components are stated by `Animatable.BlendVecComponents`) |
| Animatable.BlendVecComponents | src/animatable.rs:54-61 | each component of the vector blend is the scalar weighted sum of that component of the inputs |
| Animatable.ComponentStep | src/animatable.rs:24-29 | each component's blend is the blend of the earlier inputs plus the last input's weighted component |
| Animatable.ToVec3A | src/animatable.rs:75 | `Vec3A::from` keeps the three components and adds a padding lane |
| Animatable.Vec3BlendViaVec3A | src/animatable.rs:63-78 | blending `Vec3` through `Vec3A` and back gives the componentwise `Vec3` blend, whatever the padding lane holds |
| Animatable.InterpolateRange | src/animatable.rs:108-114 | a `Range` interpolates `start` and `end` separately and agrees with its `Lerp` |
| Animatable.InterpolateRangeInclusive | src/animatable.rs:138-144 | the same for `RangeInclusive` |
| Animatable.BlendRange | src/animatable.rs:116-135 | the loop that collects `starts` and `ends` produces the range whose `start` blends the starts and whose `end` blends the ends |
| Animatable.BlendRangeInclusive | src/animatable.rs:146-165 | the same for `RangeInclusive` |
| Animatable.RangeBlendPermutation | src/animatable.rs:116-135 | a scalar range blend does not depend on the order of its inputs |
| Animatable.ProjectPermutation | src/animatable.rs:117-129 | projecting permuted inputs gives permuted projections |
| Values.LerpValueTyped | src/animatable.rs:108-114 | interpolating two values of one type keeps the type, works componentwise on numbers and per endpoint on ranges, and gives `a` at 0 and `b` at 1 |
| Values.BlendValueTyped | src/animatable.rs:13 | blending at a type produces a value of that type |
| Values.BlendValueNumeric | src/animatable.rs:24-29 | on numeric types, the blend of same-typed inputs is the componentwise weighted sum |
| Values.BlendValueRange | src/animatable.rs:116-135 | on range types, the blend is the range of the blended starts and the blended ends |
| Fixed.FromKeyframesWithOffset | src/curves/fixed.rs:34-44 | the curve keeps the frame rate and keyframes it was given, and `frame_offset()` reads back the offset passed in |
| Fixed.FromKeyframes | src/curves/fixed.rs:30-32 | `from_keyframes` keeps the frame rate and keyframes, with frame offset 0 |
| Fixed.FromConstant | src/curves/fixed.rs:46-52 | `from_constant(v)` has the one keyframe `v`, frame rate 30 and frame offset 0 |
| Fixed.SetFrameRate | src/curves/fixed.rs:59-62 | `set_frame_rate` changes the frame rate and nothing else |
| Fixed.SetFrameOffset | src/curves/fixed.rs:64-76 | after `set_frame_offset(o)`, `frame_offset()` returns `o`, and the frame rate and keyframes are unchanged |
| Fixed.IsEmpty | src/curves/fixed.rs:78-82 | `is_empty` holds exactly when the keyframe count is 0 |
| Fixed.MapKeyframes | src/curves/fixed.rs:89-92 | updating every keyframe through `iter_mut` changes each keyframe as given and keeps the count, the frame rate and the offset |
| Fixed.Sample | src/curves/fixed.rs:99-121 | with at least one keyframe, a frame position at or past the last frame gives the last keyframe. One keyframe gives that keyframe at every time. A position at or before 0 gives the lerp of the first two keyframes at 0. An interior position gives `lerp(k[i], k[i+1], pos - i)` with `i <= pos < i+1` and `i+1` in bounds |
| Fixed.Duration | src/curves/fixed.rs:128-131 | the duration is never negative; it is positive exactly when the last keyframe's frame lies after time 0 (for either sign of the frame rate), and then duration times frame rate reaches that frame, so it is `max(0, (n - 1 + frame_offset) / frame_rate)` |
| Fixed.TimeOffset | src/curves/fixed.rs:133-136 | at `time_offset` the frame position is 0, and `time_offset * frame_rate` is the frame offset |
| Fixed.SampleWithCursor | src/curves/fixed.rs:143-146 | the cursor argument is ignored: the result is cursor 0 with `sample(time)` |
| Fixed.SampleAtFrame | src/curves/fixed.rs:99-121 | sampling at the time of keyframe `i` returns keyframe `i`, for a lerp that returns `a` at 0 |
| Fixed.SampleClampsToEnds | src/curves/fixed.rs:103-110 | any time before `time_offset` gives the first keyframe, and any time past the duration gives the last one: there is no extrapolation |
| Fixed.FromConstantSample | src/curves/fixed.rs:46-52 | a curve from `from_constant(v)` samples to `v` at every time |
| Fixed.SampleWithinKeyframeBounds | src/curves/fixed.rs:99-121 | with the scalar lerp, a sample never leaves the range spanned by the keyframes |
| Curve.AsCurve | src/curve/mod.rs:29-60 | a fixed curve seen through the `Curve` trait reports its own duration, time offset and keyframe count, and its `sample_with_cursor` returns cursor 0 with `sample(time)` |
| Curve.SampleTimes | src/curve/mod.rs:79-84 | resampling uses exactly `frame_count` sample times |
| Curve.SampleTimesSpan | src/curve/mod.rs:79-84 | the sample times start at the offset, end at offset plus duration, and are evenly spaced `duration / (frame_count - 1)` apart |
| Curve.CursorTrace | src/curve/mod.rs:80-88 | the cursor starts at 0, and each sample is taken with the cursor the previous sample returned |
| Curve.Resampled | src/curve/mod.rs:81-89 | each resampled keyframe is the value `sample_with_cursor` returns at its time, given the cursor threaded through the earlier samples |
| Curve.ResamplePreservingLoop | src/curve/mod.rs:68-96 | the loop builds a curve at the new frame rate, with the rounded frame offset, `round(duration * frame_rate)` keyframes, and the samples at the evenly spaced times |
| Curve.ResampledFixed | src/curve/mod.rs:81-89 | resampling a fixed curve gives its plain samples at the given times, since its cursor plays no part |
| Curve.ResampleFixedPreservesLoop | src/curve/mod.rs:62-67 | for a fixed curve without a negative frame offset, the resampled first and last keyframes are the original first and last keyframes |
| Curve.EndPosition | src/curve/mod.rs:84 | at offset plus duration the frame position is `keyframe_count - 1 - negative_frame_offset`: on or past the last frame whenever the frame offset is not negative |
| Curve.ResampleNegativeOffsetMissesLast | src/curve/mod.rs:62-67 | with a frame offset of -1, keyframes 0, 1, 2, 3 and frame rate 1, resampling gives [0, 2]: the last keyframe 3 is lost, so the loop promise needs a non-negative offset |
| Curves.Duration | src/curves/mod.rs:45-49 | the enum's `duration` is the wrapped fixed curve's |
| Curves.TimeOffset | src/curves/mod.rs:52-56 | the enum's `time_offset` is the wrapped fixed curve's |
| Curves.KeyframeCount | src/curves/mod.rs:59-63 | the enum's `keyframe_count` is the wrapped fixed curve's keyframe count |
| Curves.Sample | src/curves/mod.rs:65-69 | the enum's `sample` is the wrapped fixed curve's |
| Curves.SampleWithCursor | src/curves/mod.rs:89-93 | the enum's `sample_with_cursor` gives cursor 0 and the fixed curve's sample |
| Curves.Resample | src/curves/mod.rs:101-126 | the enum's resampling builds the new frame rate, the rounded offset, `round(duration * frame_rate)` keyframes, and the enum's sample at each evenly spaced time |
| Clip.GetCurve | src/clip.rs:48-62 | `get_curve` fails with `MissingKey` exactly when the key is absent, and with `WrongType` exactly when the stored curve has another value type. Otherwise it returns the stored curve |
| Clip.GetCurveAfterInsert | src/clip.rs:84-92 | after a curve is inserted under a key, `get_curve` at its own type returns it, at another type fails with `WrongType`, and at any other key answers as before |
| Clip.AnimationClipBuilder.constructor | src/clip.rs:70-74 | a new builder holds no curves |
| Clip.AnimationClipBuilder.AddDynamicCurve | src/clip.rs:84-92 | the curve, tagged with its value type, is inserted under the key and replaces any earlier curve there |
| Clip.AnimationClipBuilder.AddCurve | src/clip.rs:76-82 | `add_curve` is `add_dynamic_curve` on the shared curve |
| Clip.AnimationClipBuilder.Build | src/clip.rs:94-98 | the clip holds exactly the builder's curves |
| Track.New | src/graph/track.rs:112-118 | a new track for clip `id` has `id + 1` slots: the curve in slot `id` and empty slots before it |
| Track.AddCurve | src/graph/track.rs:120-126 | `add_curve` grows the slots to `id + 1` only when too short, puts the curve in slot `id`, and leaves every other slot as it was (new ones empty) |
| Track.IntoTrack | src/clip.rs:30-32 | `into_track` is a new track of the wrapper's value type holding its curve at the clip's slot |
| Track.AddGenericCurve | src/graph/track.rs:156-165 | adding a type-erased curve fails with `IncorrectType` exactly when its value type differs from the track's; otherwise it is `add_curve` |
| Track.ActiveIndices | src/graph/track.rs:129-133 | the active clips are listed in increasing order, each with a non-zero weight and a curve, and none of them is missed |
| Track.BlendInputsExactly | src/graph/track.rs:128-139 | `sample_and_blend` feeds `blend` exactly one input per active clip, in clip order. Each input carries the clip's non-zero weight and the curve's sample at the clip's time |
| Track.SampleAndBlend | src/graph/track.rs:128-142 | the blended value has the track's value type |
| Track.Blend | src/graph/track.rs:96-101 | the typed `blend` fails with `IncorrectType` exactly when the requested type is not the track's; otherwise it is `sample_and_blend`, of the requested type |
| Track.BlendViaReflect | src/graph/track.rs:167-178 | `blend_via_reflect` fails with `IncorrectType` exactly when the output's type differs from the track's; otherwise it yields `sample_and_blend` |
| Track.WithClip | src/graph/track.rs:39-46 | after the second loop, every property of the clip has a track (the existing one extended, or a new one) and every other track is unchanged |
| Track.WithClipStoresCurves | src/graph/track.rs:39-46 | when no types conflict, every curve of the clip sits in its property's track at the clip's slot, under the curve's value type |
| Track.FindTypeConflict | src/graph/track.rs:30-37 | the first loop reports a conflict exactly when some property of the clip already has a track of a different value type |
| Track.InsertClipCurves | src/graph/track.rs:39-46 | the insertion loop produces `WithClip` over all the clip's properties |
| Track.GraphClips.constructor | src/graph/track.rs:16-18 | a new store holds no tracks |
| Track.GraphClips.AddClip | src/graph/track.rs:25-48 | `add_clip` checks every type before changing anything: on a conflict it fails with `IncorrectType` and the tracks are unchanged; otherwise every curve is added, empty curves included |
| Track.GraphClips.Sample | src/graph/track.rs:50-57 | `sample` fails with `MissingTrack` exactly when the property has no track, and with `IncorrectType` when the track has another type; otherwise it returns the blend, of the requested type |
| Track.GraphClips.SampleProperty | src/graph/track.rs:59-68 | the same lookup and type check, for the reflected output |
| Node.NewInput | src/graph/node.rs:67-73 | a new input edge points at the given node, is connected, and has weight 1 |
| Node.SetWeight | src/graph/node.rs:95-97 | `set_weight` changes the weight only |
| Node.Disconnect | src/graph/node.rs:83-85 | as written, `disconnect` leaves the edge connected and changes nothing else |
| Node.Reconnect | src/graph/node.rs:87-89 | as written, `reconnect` marks the edge disconnected and changes nothing else |
| Node.DisconnectIntended | src/graph/node.rs:83-85 | the intended `disconnect` clears the flag and keeps target and weight |
| Node.ReconnectIntended | src/graph/node.rs:87-89 | the intended `reconnect` sets the flag and keeps target and weight |
| Node.Connected | src/graph/mod.rs:99 | the connected inputs are the inputs whose flag is set, no others and none missed |
| Node.DisconnectedEdgeStillFollowed | src/graph/node.rs:83-85 | an edge passed through the written `disconnect` is still among the connected inputs, while one passed through the intended version is not |
| Node.FindInput | src/graph/node.rs:53 | `iter().find` returns the first input edge to the given node, and `None` exactly when there is none |
| Node.GetInputMut | src/graph/node.rs:51-57 | a clip node has no inputs to find; a blend node finds its first edge to the node |
| Node.GraphNodes.constructor | src/graph/node.rs:14-16 | a new node store is empty |
| Node.GraphNodes.Add | src/graph/node.rs:19-28 | `add` appends the node and returns its index as the new id |
| Node.GraphNodes.Get | src/graph/node.rs:30-32 | `get` finds a node exactly when the id is in range, and then returns the node at that index |
| GraphState.AddInfluenceTo | src/graph/mod.rs:19-25 | `add_influence` adds the delta to an existing entry or inserts it as a new one, and leaves every other clip unchanged |
| GraphState.AccumulateSums | src/graph/mod.rs:19-25 | after a series of `add_influence` calls, a clip has an entry exactly when it had one or was mentioned, and its value is the old value plus the sum of its deltas |
| GraphState.AccumulateAppend | src/graph/mod.rs:19-25 | accumulating two series one after the other is accumulating their concatenation |
| GraphState.SumForAppend | src/graph/mod.rs:19-25 | a clip's total over a concatenation is the sum of its totals |
| GraphState.MentionsAppend | src/graph/mod.rs:19-25 | a clip is mentioned in a concatenation exactly when it is mentioned in one of the parts |
| GraphState.GraphState.constructor | src/graph/mod.rs:9-12 | a new state holds no influences |
| GraphState.GraphState.Reset | src/graph/mod.rs:15-17 | `reset` clears all influences |
| GraphState.GraphState.AddInfluence | src/graph/mod.rs:19-25 | the influences become `AddInfluenceTo` of the old ones |
| GraphWalk.InputBelow | src/graph/mod.rs:44-49 | in a ranked graph every input lies strictly lower than the node it feeds, so traversals terminate |
| GraphWalk.ForwardedBelow | src/graph/mod.rs:98-100 | every node that `set_time` forwards to lies below the node forwarding |
| GraphWalk.DequeueStep | src/graph/mod.rs:88-102 | popping the front of the queue and appending its forwarded inputs reaches the front node plus what the new queue reaches, with one visit fewer to go |
| GraphWalk.QueueStep | src/graph/mod.rs:88-102 | each turn of the `set_time` loop keeps "reached = stamped so far + reachable from the queue", and the remaining visits decrease |
| GraphWalk.QueueAppend | src/graph/mod.rs:99 | the nodes and visits reached from a concatenated queue are those of its two parts |
| GraphWalk.ReachedQMember | src/graph/mod.rs:88-102 | a node is reached from a queue exactly when it is reached from one of its entries |
| GraphWalk.ReachedTransitive | src/graph/mod.rs:88-102 | whatever is reached from a reached node is reached from the start |
| GraphWalk.ReachedClosed | src/graph/mod.rs:98-100 | the nodes `set_time` stamps are closed under following connected inputs of propagating nodes |
| GraphWalk.ReachedSupported | src/graph/mod.rs:88-102 | every stamped node other than the start was forwarded to by some stamped node: nothing is stamped without cause |
| GraphWalk.PushedFrom | src/graph/mod.rs:130-138 | every entry `evaluate` pushes names an input of the node, with a non-zero cumulative weight |
| GraphWalk.PushedBelow | src/graph/mod.rs:130-138 | every pushed entry lies below the node that pushed it |
| GraphWalk.ContribsAppend | src/graph/mod.rs:126-128 | the clip contributions of a concatenation of visits are the two contribution lists joined |
| GraphWalk.PendingAppend | src/graph/mod.rs:119 | a stack's pending visits are those of its upper part followed by those of its lower part, because the stack pops from the top |
| GraphWalk.PopStep | src/graph/mod.rs:119-139 | popping the top and pushing its inputs leaves the top as the first visit and the new stack's visits as the rest |
| GraphWalk.PendingLast | src/graph/mod.rs:119-139 | the visits of a stack are the full walk under its top entry, then the visits of the rest |
| GraphWalk.WalkWithin | src/graph/mod.rs:119-139 | a walk from a node visits the node first, then the pending visits of the entries it pushes |
| GraphWalk.PopAccumulates | src/graph/mod.rs:119-139 | each turn of the `evaluate` loop adds the top entry's influence and leaves the rest of the accumulation to the new, strictly shorter, pending list |
| GraphWalk.WalkSums | src/graph/mod.rs:107-140 | a clip gets an influence from the walk under a node exactly when some path of non-zero weights reaches it; its total is the sum over those paths of the products of the edge weights |
| GraphWalk.OwnContrib | src/graph/mod.rs:126-128 | a single visit contributes its weight to its node's clip and nothing to any other clip |
| GraphWalk.PendingSums | src/graph/mod.rs:119-139 | the same path-sum meaning for the pending visits of a whole stack |
| GraphWalk.RootInfluence | src/graph/mod.rs:107-140 | after `evaluate`, a clip has an influence exactly when it is reachable from the root along non-zero weights, and its influence is the sum of the path-weight products |
| Graph.Links | src/graph/mod.rs:38-41 | the link view of the nodes keeps one entry per node |
| Graph.AddInputTo | src/graph/mod.rs:44-66 | the input node's existence is checked before the target's. A duplicate edge gives `InputAlreadyExists(input)` exactly when the target already has one, and a clip target gives `NotBlendNode(target)`. On success only the target changes, by one new edge that is found at its end |
| Graph.AddInputKeepsRanked | src/graph/mod.rs:44-49 | an edge from a lower-ranked input keeps the graph ranked, so acyclic |
| Graph.RankWithLeaf | src/graph/mod.rs:68-71 | the ranking that lifts every node by one puts the new leaf at 0 |
| Graph.AddClipKeepsRanked | src/graph/mod.rs:68-71 | adding a clip leaf keeps the graph ranked |
| Graph.ReachedNonPropagating | src/graph/mod.rs:77-81 | a node that does not propagate time, or a missing node, reaches only itself |
| Graph.Stamped | src/graph/mod.rs:93 | stamping sets the local time of exactly the given nodes |
| Graph.StampedLinks | src/graph/mod.rs:93 | stamping times does not change any edge |
| Graph.StampedAdd | src/graph/mod.rs:92-94 | stamping one more node extends the stamped set by that node |
| Graph.StampedMissing | src/graph/mod.rs:91-97 | an id without a node adds nothing to the stamping |
| Graph.AnimationGraph.constructor | src/graph/mod.rs:38-41 | a new graph has no nodes and no influences |
| Graph.AnimationGraph.AddInput | src/graph/mod.rs:44-66 | `add_input` changes the nodes exactly as `AddInputTo` says, returning the new edge's index; on an error nothing changes |
| Graph.AnimationGraph.AddClip | src/graph/mod.rs:68-71 | `add_clip` appends a clip leaf with local time 0 and returns its index |
| Graph.AnimationGraph.SetTime | src/graph/mod.rs:76-105 | a missing node gives `NodeNotFound` and no change. Otherwise exactly the nodes reachable from the start node along connected inputs of propagating nodes get the new time |
| Graph.AnimationGraph.Spread | src/graph/mod.rs:88-102 | the queue loop stamps exactly the reached nodes |
| Graph.AnimationGraph.VisitQueued | src/graph/mod.rs:91-101 | one queue entry stamps its node, when present, and forwards its connected inputs if it propagates |
| Graph.AnimationGraph.Evaluate | src/graph/mod.rs:107-140 | after `evaluate`, the influences are the contributions of the depth-first walk from the root, accumulated from empty |
| Graph.AnimationGraph.VisitTop | src/graph/mod.rs:119-139 | one popped entry adds its clip's influence and pushes its weighted inputs |
| Graph.PushInputs | src/graph/mod.rs:130-138 | the inner loop pushes one entry per connected input with a non-zero product weight, in order |
| GraphLegacy.Links | src/graph/graph.rs:129-136 | the link view of the older nodes keeps each node's propagation flag, inputs and clip |
| GraphLegacy.AddInputTo | src/graph/graph.rs:60-82 | the input node's existence is checked before the target's, and `InputAlreadyExists(input)` is returned exactly when the target already has an edge to it. On success only the target's inputs change, by one new edge found at their end |
| GraphLegacy.Stamped | src/graph/graph.rs:106 | stamping sets the local time of exactly the given nodes |
| GraphLegacy.StampedLinks | src/graph/graph.rs:106 | stamping times does not change any edge |
| GraphLegacy.StampedAdd | src/graph/graph.rs:105-107 | stamping one more node extends the stamped set by that node |
| GraphLegacy.StampedMissing | src/graph/graph.rs:104-110 | an id without a node adds nothing to the stamping |
| GraphLegacy.BranchLive | src/graph/graph.rs:157-164 | an input with a non-zero weight whose node exists recurses with the product of the weights |
| GraphLegacy.OwnCall | src/graph/graph.rs:154-156 | a node's own contribution is its clip at the incoming weight, if it has a clip |
| GraphLegacy.TraceInputsStep | src/graph/graph.rs:157-164 | the loop over the connected inputs appends one branch per input, in order |
| GraphLegacy.PushedFromBelow | src/graph/graph.rs:157-164 | every input followed lies below the node following it |
| GraphLegacy.TraceAgrees | src/graph/graph.rs:153-165 | the recursive `compute_influences` gives each clip the same total as the sum over its weighted paths, and mentions exactly the reachable clips |
| GraphLegacy.TraceInputsAgree | src/graph/graph.rs:157-164 | the same path-sum meaning for the loop over a node's inputs |
| GraphLegacy.BranchAgrees | src/graph/graph.rs:158-163 | the same for one input: a zero-weight input contributes nothing |
| GraphLegacy.SnocSums | src/graph/graph.rs:157-164 | path sums over a list with one more entry add that entry's sum |
| GraphLegacy.LegacyAgreesWithStack | src/graph/graph.rs:120-126 | the older recursive evaluation produces exactly the influences of the newer stack-based one |
| GraphLegacy.AnimationGraph.constructor | src/graph/graph.rs:54-57 | a new graph has no nodes and no influences |
| GraphLegacy.AnimationGraph.AddInput | src/graph/graph.rs:60-82 | `add_input` changes the nodes exactly as `AddInputTo` says, returning the new edge's index; on an error nothing changes |
| GraphLegacy.AnimationGraph.SetTime | src/graph/graph.rs:89-118 | a missing node gives `NodeNotFound` and no change. Otherwise exactly the nodes reachable along connected inputs of propagating nodes get the new time |
| GraphLegacy.AnimationGraph.Spread | src/graph/graph.rs:101-115 | the queue loop stamps exactly the reached nodes |
| GraphLegacy.AnimationGraph.VisitQueued | src/graph/graph.rs:104-114 | one queue entry stamps its node, when present, and forwards its connected inputs if it propagates |
| GraphLegacy.AnimationGraph.Evaluate | src/graph/graph.rs:121-126 | after `evaluate`, the influences are the recursive trace from the root, accumulated from empty |
| GraphLegacy.AnimationGraph.ComputeInfluences | src/graph/graph.rs:153-165 | `compute_influences` adds the node's trace at the given weight to the influences |
| GraphLegacy.AnimationGraph.VisitInput | src/graph/graph.rs:157-164 | one input adds its branch: nothing for a zero weight or a missing node, otherwise the input node's trace at the product weight |
| PathField.AccumulateValue | src/path/field.rs:261 | the digit loop of `usize::from_str` succeeds exactly when every character is a digit and the value fits in `usize`, and then it yields that value |
| PathField.ParseUsizeShape | src/path/field.rs:261 | `parse::<usize>` accepts an optional leading `+` followed by at least one digit, within `usize`, and returns the decimal value |
| PathField.NotNumber | src/path/field.rs:261-263 | text starting with anything but a digit or `+` is not a number, so the parser falls back to a field name |
| PathField.DigitsRoundTrip | src/path/field.rs:91 | the decimal rendering of `n` is all digits and reads back as `n` |
| PathField.ParseDigits | src/path/field.rs:91 | `parse::<usize>` of the rendering of an index gives the index back |
| PathField.IdentEnd | src/path/field.rs:240-252 | an identifier runs up to the first `.`, `[` or `]`, or to the end, and contains none of them |
| PathField.NextTokenAt | src/path/field.rs:218-253 | `next_token` gives `None` exactly at the end of the input; otherwise it consumes at least one character |
| PathField.NextTokenShape | src/path/field.rs:218-253 | `.`, `[` and `]` are single-character tokens; anything else starts a non-empty identifier that runs exactly up to the next delimiter or the end |
| PathField.TokenToAccessAt | src/path/field.rs:255-297 | `token_to_access` never moves backwards, and every error except a number-parse error carries the index where the token ended |
| PathField.DotAccess | src/path/field.rs:258-269 | after a `.`, a missing identifier is `ExpectedIdent` at the position after the dot |
| PathField.BracketAccess | src/path/field.rs:270-287 | after a `[`, success is always a list index. The only errors are `ExpectedIdent`, a number-parse error, or `ExpectedToken "]"` |
| PathField.BracketAccessShape | src/path/field.rs:270-287 | a bracket succeeds exactly when an identifier that parses as `usize` is followed by `]`, and then the parser has moved past the `]` |
| PathField.NextAt | src/path/field.rs:303-307 | the iterator's `next` ends exactly at the end of the input, and otherwise reports the index after the token and then moves on |
| PathField.Accesses | src/path/field.rs:40 | the accesses of a parsed path, without their indices |
| PathField.WrittenIsRendered | src/path/field.rs:80-101 | the written `Display` and the intended rendering agree on every path with no list index after the first segment |
| PathField.IdentAt | src/path/field.rs:240-252 | a non-empty run without delimiters, ending at a delimiter or the end, is read as exactly that identifier |
| PathField.SegmentPlaced | src/path/field.rs:255-307 | every rendered segment (a field, a tuple index, or a bracketed list index, with its dot when needed) is read back as its own access |
| PathField.RenderedReads | src/path/field.rs:303-307 | a rendered path is read segment by segment, each access ending where the next segment begins |
| PathField.ReadsAll | src/path/field.rs:45-51 | reading every segment in turn is what `parse`'s loop over the iterator does |
| PathField.RenderedRoundTrip | src/path/field.rs:45-51 | a path of valid accesses, rendered as intended, parses back to the same accesses |
| PathField.DottedRoundTrip | src/path/field.rs:80-101 | when no list index follows another segment, the written `Display` parses back to the same accesses |
| PathField.ListIndexWritten | src/path/field.rs:83-96 | as written, `Display` puts a dot before every later segment, list indices included: `a` then `[3]` is written `a.[3]` |
| PathField.ListIndexParsed | src/path/field.rs:45-51 | `a[3]` parses to the field `a` and the list index 3 |
| PathField.DotWithoutIdent | src/path/field.rs:258-268 | a dot followed by a delimiter is `ExpectedIdent` at the position after the dot |
| PathField.EmptyFieldRejected | src/path/field.rs:258-268 | a valid path followed by a dot and a delimiter fails with `ExpectedIdent` just after that dot |
| PathField.DottedListIndexRejected | src/path/field.rs:80-101 | the written form `a.[3]` does not parse: `ExpectedIdent` at 2, so `Display` does not round-trip |
| PathField.RenderedAppend | src/path/field.rs:82-85 | rendering one more access appends its segment, dotted unless it is the first or a list index |
| PathField.DoubledDotAfter | src/path/field.rs:258-268 | a valid path followed by `..` fails with `ExpectedIdent` at the second dot |
| PathField.DoubledDotRejected | src/path/field.rs:258-268 | `b.c.d.e.f..g` fails with `ExpectedIdent` at 10 |
| PathField.PathParser.constructor | src/path/field.rs:214-216 | a new parser starts at index 0 of the path |
| PathField.PathParser.NextToken | src/path/field.rs:218-253 | the method's character loop returns the token `NextTokenAt` names and moves the index past it; at the end it returns `None` and stays put |
| PathField.PathParser.TokenToAccess | src/path/field.rs:255-297 | the method returns the access and new index that `TokenToAccessAt` names |
| PathField.PathParser.Next | src/path/field.rs:303-307 | the method returns the item and new index that `NextAt` names |
| PathField.Parse | src/path/field.rs:45-51 | `FieldPath::parse` collects the accesses and stops at the first error, which is exactly `Parsed` |
| PathField.JoinedStep | src/path/field.rs:46-49 | collecting one more part before the rest is prepending it to the rest's result |
| Text.Split | src/path/mod.rs:52 | `str::split` always yields at least one piece, and no piece contains the separator |
| Text.JoinSplit | src/path/mod.rs:52 | joining the pieces of a split with the separator gives back the original string |
| Text.JoinAppend | src/path.rs:119-122 | appending a separator and one more piece extends the joined text by exactly that |
| Text.SplitWhole | src/path/mod.rs:52 | a string without the separator splits into itself alone |
| Text.SplitAfter | src/path/mod.rs:52 | a separator after a piece that has none ends that piece, and the rest splits on its own |
| Text.SplitJoin | src/path/mod.rs:61-70 | pieces that hold no separator, once joined, split back into the same pieces |
| Text.SkipEmpty | src/path/mod.rs:54 | `skip_while(is_empty)` keeps a suffix of the pieces: the part before it is all empty, and the suffix is empty or starts with a non-empty piece |
| Text.TrimStart | src/path/mod.rs:14-16 | removing the leading separators leaves a suffix that does not start with one, after a prefix made only of separators |
| Text.JoinSkipSplit | src/path/mod.rs:52-54 | splitting, skipping the leading empty pieces and joining again removes exactly the leading separators |
| Text.SkipSplitJoin | src/path/mod.rs:52-54 | pieces without separators, the first of them not empty, come back from join, split and skip |
| Text.SplitOnce | src/path/mod.rs:92-94 | `split_once` is `None` exactly when the separator is absent; otherwise the text before the first separator, the separator and the rest make up the input |
| Text.SplitOnceAt | src/path/mod.rs:163-165 | the split is at the first separator |
| Order.Then | src/path/mod.rs:131-133 | `Ordering::then` is `Equal` only when both comparisons are, and otherwise the first non-tie decides |
| Order.ThenFlip | src/path/mod.rs:131-133 | chaining commutes with swapping the arguments |
| Order.CmpNat | src/path/mod.rs:131-132 | integer comparison is `Less`, `Equal` or `Greater` exactly as `<`, `==` and `>` |
| Order.CmpChar | src/path.rs:183-185 | characters compare by code point |
| Order.CmpSeqFlip | src/path/mod.rs:19 | the lexicographic order of a derived `Ord` is antisymmetric when the element order is |
| Order.CmpSeqEqual | src/path/mod.rs:19 | the lexicographic order answers `Equal` exactly on equal sequences when the element order does |
| Order.CmpSeqPrefix | src/path/mod.rs:19 | a proper prefix comes before every sequence that extends it |
| Order.CmpStringFlip | src/path.rs:183-185 | `str::cmp` is antisymmetric |
| Order.CmpStringEqual | src/path.rs:183-185 | `str::cmp` is `Equal` exactly on equal strings |
| Path.EntityFromStr | src/path/mod.rs:48-58 | a parsed entity path has no `/` in any name, and its first name is never empty |
| Path.EntityParts | src/path/mod.rs:50-57 | the parts are the pieces of the split on `/` after dropping only the leading empty ones |
| Path.EntityDisplayFromStr | src/path/mod.rs:61-71 | displaying a parsed entity path gives the input without its leading slashes |
| Path.EntityFromStrDisplay | src/path/mod.rs:61-71 | a path with no `/` in its names and a non-empty first name parses back from its display |
| Path.EntitySkipsSlash | src/path/mod.rs:14-16 | a leading slash does not change the parsed path |
| Path.EntityKeepsEmpty | src/path/mod.rs:221-226 | an empty name between two slashes after the first name is kept |
| Path.EntityEmpty | src/path/mod.rs:287-294 | the empty string parses to an entity path with no parts |
| Path.AccessParse | src/path/mod.rs:88-103 | `NoComponentName` exactly when there is no `.`; on success the component name has no dot, is registered, and its type id is the registered one |
| Path.AccessParseAt | src/path/mod.rs:92-102 | the name is the text before the first dot: an unregistered name gives `InvalidComponentType`, and otherwise the field path's parse error or value is passed through |
| Path.AccessRoundTrip | src/path/mod.rs:236-247 | a registered name followed by a rendered dotted field path parses, and displays back to the same string |
| Path.AccessFieldError | src/path/mod.rs:101 | a field path error is wrapped in `InvalidFieldPath` |
| Path.AccessEmptyField | src/path/mod.rs:249-261 | `Test.b.c.d.e.f..g` fails with `InvalidFieldPath(ExpectedIdent 10)` |
| Path.AccessUnregistered | src/path/mod.rs:263-269 | with an empty registry, every dotted path fails with `InvalidComponentType` |
| Path.CmpAccessFlip | src/path/field.rs:104-109 | the derived order on accesses is antisymmetric |
| Path.CmpAccessEqual | src/path/field.rs:104-109 | the derived order on accesses is `Equal` exactly on equal accesses |
| Path.CmpItemLaws | src/path/field.rs:38-40 | the order on an access with its index is antisymmetric and equal only on equal pairs, so the field-path order inherits both |
| Path.CmpAccessPathFlip | src/path/mod.rs:126-142 | the access-path order is antisymmetric |
| Path.CmpAccessPathEqual | src/path/mod.rs:126-142 | the access-path order is `Equal` exactly when the type ids and the field paths agree, whatever the names |
| Path.CmpAccessPathTypeFirst | src/path/mod.rs:128-132 | the type id decides before the field path |
| Path.PropertyParse | src/path/mod.rs:159-170 | `MissingDelimiter` exactly when the input has no `@` |
| Path.PropertyParseAt | src/path/mod.rs:163-169 | the entity part is the text before the first `@`, parsed infallibly; the access part's error or value is passed through |
| Path.PropertyEmptyEntity | src/path/mod.rs:286-299 | an input starting with `@` has an empty entity path |
| Path.PropertyEmptyField | src/path/mod.rs:301-313 | an empty field in the access part gives `InvalidFieldPath(ExpectedIdent 10)` |
| PathLegacy.EntityPath.FromStr | src/path.rs:57-69 | the legacy entity path parses exactly as the current one |
| PathLegacy.EntityPath.Push | src/path.rs:38-40 | a name is appended at the end |
| PathLegacy.EntityPath.Pop | src/path.rs:42-44 | the last name is removed and returned, or `None` on an empty path |
| PathLegacy.FirstErrorSpec | src/path.rs:105-117 | parsing fails exactly when some segment is empty, has whitespace, or is an unregistered first segment, and the error is that of the first such segment |
| PathLegacy.UnregisteredFirst | src/path.rs:111-117 | a non-empty first segment without whitespace that is not registered gives `InvalidComponentType` |
| PathLegacy.FirstErrorKinds | src/path.rs:126-135 | the segment checks never produce `MissingDelimiter` or `NoComponentName` |
| PathLegacy.PushedSlices | src/path.rs:157-162 | after `push` the slices are the old ones plus the new part |
| PathLegacy.PushedWellFormed | src/path.rs:157-162 | `push` keeps the ranges ordered, in bounds and separated by one dot |
| PathLegacy.PopPushed | src/path.rs:164-169 | `pop` undoes `push` when the last range ends at the end of the text |
| PathLegacy.LayoutOf | src/path.rs:119-124 | the text and ranges `parse` builds have one range per segment, and the last range ends at the end of the text |
| PathLegacy.LayoutOfSlices | src/path.rs:150-155 | the ranges `parse` builds slice out exactly the segments |
| PathLegacy.LayoutOfWellFormed | src/path.rs:119-124 | the ranges `parse` builds are ordered, in bounds and separated by single dots |
| PathLegacy.LayoutOfText | src/path.rs:119-122 | the text `parse` builds is the segments joined with dots |
| PathLegacy.LayoutOfAppend | src/path.rs:119-124 | one more segment in `parse` is the same as one `push` |
| PathLegacy.LayoutOfPopped | src/path.rs:164-169 | `pop` gives the layout of all segments but the last |
| PathLegacy.FieldPath.Iter | src/path.rs:150-155 | `iter` yields the segments the path was parsed from or pushed to |
| PathLegacy.FieldPath.constructor | src/path.rs:127-132 | the fields are stored as given |
| PathLegacy.FieldPath.Parse | src/path.rs:99-136 | the loop fails exactly when a segment check fails, with the first such error; on success the component is registered with its type id, the stored text is the field part, and the segments are the split of the path on dots |
| PathLegacy.FieldPath.Push | src/path.rs:157-162 | the part is appended after a dot with its range, and the component is unchanged |
| PathLegacy.FieldPath.Pop | src/path.rs:164-169 | the last segment is dropped when there is more than one, and the path is unchanged otherwise |
| PathLegacy.ValidWellFormed | src/path.rs:89-94 | a field path built by `parse`, `push` and `pop` keeps well-formed ranges |
| PathLegacy.PushThenPop | src/path.rs:157-169 | `pop` after `push` restores the path |
| PathLegacy.DisplayRepeatsName | src/path.rs:172-178 | as written, `Display` writes the component name in front of a field path that already begins with it, so the name appears twice |
| PathLegacy.DisplayIntendedRoundTrip | src/path.rs:172-178 | writing out the stored text alone splits back into the segments and rebuilds the same text and ranges |
| PathLegacy.CmpFlip | src/path.rs:180-194 | the field-path order is antisymmetric |
| PathLegacy.CmpEqual | src/path.rs:180-194 | the order is `Equal` exactly when the component names and the texts agree |
| PathLegacy.PropertyPath.constructor | src/path.rs:223-225 | `from_parts` stores both parts |
| PathLegacy.PropertyPath.Parse | src/path.rs:211-220 | `MissingDelimiter` exactly when there is no `@`; otherwise the entity part before the first `@` is parsed as an entity path, and the field part fails or succeeds as `FieldPath::parse` does |
| Hierarchy.FirstNamed | src/graph/hierarchy.rs:37-44 | the first child, in `Children` order, whose `Name` is the fragment: `None` exactly when there is none, and no earlier child matches |
| Hierarchy.FindBone | src/graph/hierarchy.rs:28-51 | the nested loops compute `Lookup`: the empty path is the root, and a root without `Children` loses a non-empty path |
| Hierarchy.LookupSpells | src/graph/hierarchy.rs:28-51 | a found bone is reached from the root through a chain of children whose names spell the path |
| Hierarchy.SpellsLookup | src/graph/hierarchy.rs:28-51 | when sibling names are distinct, every chain that spells the path is the one found, so every existing bone is found |
| Hierarchy.FirstMatchNoBacktracking | src/graph/hierarchy.rs:39-43 | with two siblings of the same name, a bone under the second is not found |
| Hierarchy.LookupAppend | src/graph/hierarchy.rs:35-49 | walking `p` then `q` is walking `p`, then `q` from where `p` ended |
| Hierarchy.LostStaysLost | src/graph/hierarchy.rs:46-48 | once the walk is lost, every longer path is lost too |

## Left out

- Floating point: `f32`/`f64` are reals, so rounding error, NaN and infinities are not modelled. A division by a zero frame rate is excluded by `frameRate != 0.0` requirements on `Fixed.Duration`, `Fixed.TimeOffset`, `Curve.AsCurve`, `Curves.Duration` and `Curves.TimeOffset`, where the source would produce an infinity or NaN.
- Fixed.Sample, Curves.Sample and Curves.SampleWithCursor require non-empty keyframes; the source documents a panic on an empty curve. Track.SampleAndBlend, Track.Blend, Track.BlendViaReflect, Track.GraphClips.Sample and Track.GraphClips.SampleProperty require non-empty keyframes only for the curves of clips with a non-zero weight, the ones the source samples. Track.GraphClips.AddClip accepts empty curves, as the source does.
- Curve.ResamplePreservingLoop and Curves.Resample: require at least two output frames. With fewer, `frame_count - 1` underflows in `usize` or the normalisation divides by zero.
- Curve.ResampleFixedPreservesLoop: proved only for a non-negative frame offset. `duration` subtracts a negative frame offset, so a curve that starts early is resampled short of its last keyframe (`Curve.ResampleNegativeOffsetMissesLast`). Whether `duration` is meant to count from time 0 is not settled by the source, so this is not listed as a finding.
- Fixed.SetFrameOffset: requires an offset other than `i32::MIN`, whose negation overflows in the source.
- Node.GraphNodes.Add and Graph.AnimationGraph.AddClip require at most `u16::MAX` nodes before the new one; the source panics when the node index does not fit in `u16`.
- Graph evaluation and `set_time` take a ghost ranking of the nodes as a witness that the graph is acyclic. The source does not check for cycles, and on a cycle it would loop forever.
- The copy of the first and last keyframes against float drift is commented out in the source and is not modelled.
- `sample_and_blend` (`src/graph/track.rs:138`) sets an `additive` field that `BlendInput` (`src/animatable.rs:6-9`) does not declare. The model's `BlendInput` has a weight and a value only, and additive blending is not modelled.
- Reflection walks are left out: `FieldPath::field`/`field_mut` in `src/path/field.rs`, `read_field`, and the application of sampled values to components (`src/graph/application.rs`). They need Bevy's `Reflect` trait objects.
- The ECS system around `find_bone` (`src/graph/hierarchy.rs:6-26`) is left out. The `Children` and `Name` queries are maps.
- `TypeRegistry` is a map from type name to type id. The value types of curves, tracks and blends are the closed union `Values.ValueType`; the registry's component type ids (`Path.AccessPath.componentTypeId`, `PathLegacy.FieldPath.componentTypeId`) are plain `nat`s, since components are never downcast here.
- Paths are sequences of characters. The source's byte offsets (`ReflectPathError` indices, the legacy ranges) agree with these positions only for ASCII text.
- PathField.RenderedRoundTrip compares the parsed accesses, not the positions stored beside them.
- The derived `Ord` of `EntityPath` and `PropertyPath` is the lexicographic order of `Order.CmpSeq`. It is not stated as a separate member.
- `EntityPath::iter_mut`, `len` and `is_empty` are plain accessors of `parts`. `PropertyPath::into_parts`, `entity` and `field` are too.
- `NoComponentName` cannot be returned by the legacy `FieldPath::parse`: `Split` always yields a first segment, and it is checked and registered before the loop moves on. `PathLegacy.FirstErrorKinds` states this.
- CurveFixed setters (`set_frame_rate`, `set_frame_offset`) are functional updates of a datatype. The curve is shared immutably behind `Arc` in the core, so no aliasing is lost.
- The `Track` enum of `src/curves/mod.rs`, which does not compile as written, and the `Send`/`Sync` assertions are left out. The curve enum is modelled from its match arms.
- `add_input` on a clip leaf in `src/graph/mod.rs` does not compile as written (it matches on a node that has no inputs). The model returns `NotBlendNode`.
- `evaluate` in `src/graph/mod.rs` is read as pushing `input.weight * cumulative_weight`, the only reading under which it compiles.
- The keys of `Track.GraphClips` are the property-path strings of the clip, not parsed `PropertyPath` values.
- Hierarchy.FindBone: the walk keeps the first child with a matching name and never backtracks (`Hierarchy.FirstMatchNoBacktracking`). This is the source's behaviour, so it is stated as a property rather than a finding.
- `src/lib.rs` (plugin registration), `src/graph/application.rs`, the compressed curve formats and `util::step_unclamped`/`util::approx_rsqrt` are not part of this model. The two helpers are passed in as function parameters.

## Findings

| source | as written | input that shows it | evidently intended | confidence | as-written member | corrected member |
|---|---|---|---|---|---|---|
| src/graph/node.rs:83-85 | `disconnect` sets `connected = true` and `reconnect` sets it to false | any connected input passed to `disconnect` stays among the connected inputs that `evaluate` follows | `disconnect` clears the flag and `reconnect` sets it | high, not executed | Node.Disconnect, Node.DisconnectedEdgeStillFollowed | Node.DisconnectIntended, Node.ReconnectIntended |
| src/path/field.rs:80-101 | `Display` writes `.` before every segment after the first, list indices included | the path `a` then `[3]` is written `a.[3]`, which parses to `ExpectedIdent` at 2 | no dot before a list index, so that `parse` reads the display back | high, not executed | PathField.Display, PathField.ListIndexWritten, PathField.DottedListIndexRejected | PathField.DisplayIntended, PathField.RenderedRoundTrip |
| src/path.rs:172-178 | `Display` writes the component name and a dot before `field_path`, which already starts with the component name | a path parsed from `T.a` displays as `T.T.a` | the display is `field_path` alone, which parses back to the same path | medium, not executed | PathLegacy.FieldPath.Display, PathLegacy.DisplayRepeatsName | PathLegacy.FieldPath.DisplayIntended, PathLegacy.DisplayIntendedRoundTrip |
