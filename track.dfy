/// The track store: for each animated property, one `CurveTrack` holding
/// a sparse vector of curves indexed by clip id; sampling blends the curves
/// of the clips that currently carry weight.
module Track {
  import opened Wrappers
  import opened Numeric
  import opened Values
  import opened Animatable
  import opened Fixed
  import opened Clip

  /// `ClipId(u16)`.
  type ClipId = U16

  datatype TrackError = IncorrectType | MissingTrack

  /// `CurveTrack<T>`: `valueType` is `T`, and `curves[i]` is the curve of
  /// clip `i`, if that clip animates the property.
  datatype CurveTrack = CurveTrack(valueType: ValueType, curves: seq<Option<CurveFixed<Value>>>)


  /// `CurveTrack::new(curve, clip_id)`: `clip_id + 1` slots, only the
  /// last one filled.
  function New(ty: ValueType, curve: CurveFixed<Value>, clipId: ClipId): (r: CurveTrack)
    ensures r.valueType == ty
    ensures |r.curves| == clipId + 1 && r.curves[clipId] == Some(curve)
    ensures forall i :: 0 <= i < clipId ==> r.curves[i] == None
  {
    CurveTrack(ty, seq(clipId, _ => None) + [Some(curve)])
  }

  /// `CurveTrack::add_curve(clip_id, curve)`: grows the vector to
  /// `clip_id + 1` slots only when it is shorter, then fills slot
  /// `clip_id`. Every other slot keeps its curve, new ones are empty.
  function AddCurve(t: CurveTrack, clipId: ClipId, curve: CurveFixed<Value>): (r: CurveTrack)
    ensures r.valueType == t.valueType
    ensures |r.curves| == if clipId < |t.curves| then |t.curves| else clipId + 1
    ensures r.curves[clipId] == Some(curve)
    ensures forall i :: 0 <= i < |r.curves| && i != clipId ==>
      r.curves[i] == if i < |t.curves| then t.curves[i] else None
  {
    var grown := if clipId >= |t.curves| then t.curves + seq(clipId + 1 - |t.curves|, _ => None) else t.curves;
    t.(curves := grown[clipId := Some(curve)])
  }

  /// `ClipCurve::into_track(clip_id)` of `clip.rs`: a new track of the
  /// curve's type holding just this curve at `clip_id`.
  function IntoTrack(w: CurveWrapper, clipId: ClipId): (r: CurveTrack)
    ensures r == New(w.valueType, w.curve, clipId)
  {
    New(w.valueType, w.curve, clipId)
  }

  /// `Track::add_generic_curve`: the downcast to this track's curve type
  /// fails when the curve's value type differs.
  function AddGenericCurve(t: CurveTrack, clipId: ClipId, w: CurveWrapper): (r: Result<CurveTrack, TrackError>)
    ensures r.Err? <==> w.valueType != t.valueType
    ensures r.Err? ==> r.error == IncorrectType
    ensures r.Ok? ==> r.value == AddCurve(t, clipId, w.curve)
  {
    if w.valueType == t.valueType then Ok(AddCurve(t, clipId, w.curve)) else Err(IncorrectType)
  }

  /// The per-clip playback state read by sampling: the clip's local time
  /// and its blend weight (`state.clips[i]` for clip `i`).
  datatype ClipState = ClipState(time: real, weight: real)

  /// Clip `i` contributes to the track: it has state and a curve here, and
  /// a nonzero weight.
  predicate Active(t: CurveTrack, clips: seq<ClipState>, i: nat) {
    i < |clips| && i < |t.curves| && clips[i].weight != 0.0 && t.curves[i].Some?
  }

  /// The contributing clips among the first `n` slots, in ascending order.
  function ActiveIndices(t: CurveTrack, clips: seq<ClipState>, n: nat): (idx: seq<nat>)
    ensures forall j :: 0 <= j < |idx| ==> idx[j] < n && Active(t, clips, idx[j])
    ensures forall j, k :: 0 <= j < k < |idx| ==> idx[j] < idx[k]
    ensures forall i :: 0 <= i < n && Active(t, clips, i) ==> i in idx
  {
    if n == 0 then []
    else
      var prefix := ActiveIndices(t, clips, n - 1);
      if Active(t, clips, n - 1) then prefix + [n - 1] else prefix
  }

  /// Every curve that sampling reaches, that is the curve of every
  /// contributing clip, has a keyframe: sampling an empty curve panics.
  /// Empty curves of clips without weight are never sampled.
  predicate TrackSamplable(t: CurveTrack, clips: seq<ClipState>) {
    forall i :: 0 <= i < |clips| && Active(t, clips, i) ==> |t.curves[i].value.keyframes| >= 1
  }

  /// The blend inputs of `sample_and_blend`: the zip of clip states and
  /// curves, filtered to the contributing clips, each clip's curve sampled
  /// at the clip's time and weighted by the clip's weight.
  function BlendInputs(t: CurveTrack, clips: seq<ClipState>): (r: seq<BlendInput<Value>>)
    requires TrackSamplable(t, clips)
  {
    var idx := ActiveIndices(t, clips, |clips|);
    seq(|idx|, j requires 0 <= j < |idx| =>
      BlendInput(clips[idx[j]].weight, Fixed.Sample(t.curves[idx[j]].value, clips[idx[j]].time, LerpValue)))
  }

  /// The blend inputs are exactly the contributing clips, each once, in
  /// ascending clip order, with the clip's weight and the clip's curve
  /// sampled at the clip's time.
  lemma BlendInputsExactly(t: CurveTrack, clips: seq<ClipState>)
    requires TrackSamplable(t, clips)
    ensures var idx := ActiveIndices(t, clips, |clips|);
      var r := BlendInputs(t, clips);
      |r| == |idx| &&
      (forall i :: Active(t, clips, i) <==> i in idx) &&
      (forall j, k :: 0 <= j < k < |idx| ==> idx[j] < idx[k]) &&
      (forall j :: 0 <= j < |idx| ==>
        r[j].weight == clips[idx[j]].weight && r[j].weight != 0.0 &&
        r[j].value == Fixed.Sample(t.curves[idx[j]].value, clips[idx[j]].time, LerpValue))
  {
  }

  /// `CurveTrack::sample_and_blend`: the track type's `blend` of the inputs.
  function SampleAndBlend(t: CurveTrack, clips: seq<ClipState>): (r: Value)
    requires TrackSamplable(t, clips)
    ensures HasType(r, t.valueType)
  {
    BlendValueTyped(t.valueType, BlendInputs(t, clips));
    BlendValue(t.valueType, BlendInputs(t, clips))
  }

  /// `<dyn Track>::blend::<T>`: the downcast to `CurveTrack<T>` fails when
  /// the track holds another type.
  function Blend(t: CurveTrack, clips: seq<ClipState>, ty: ValueType): (r: Result<Value, TrackError>)
    requires TrackSamplable(t, clips)
    ensures r.Err? <==> t.valueType != ty
    ensures r.Err? ==> r.error == IncorrectType
    ensures r.Ok? ==> r.value == SampleAndBlend(t, clips) && HasType(r.value, ty)
  {
    if t.valueType == ty then Ok(SampleAndBlend(t, clips)) else Err(IncorrectType)
  }

  /// `Track::blend_via_reflect`: only the type check is modelled; on a
  /// match the blended value is what would be applied to the output.
  function BlendViaReflect(t: CurveTrack, clips: seq<ClipState>, outputType: ValueType): (r: Result<Value, TrackError>)
    requires TrackSamplable(t, clips)
    ensures r.Err? <==> outputType != t.valueType
    ensures r.Err? ==> r.error == IncorrectType
    ensures r.Ok? ==> r.value == SampleAndBlend(t, clips)
  {
    if outputType == t.valueType then Ok(SampleAndBlend(t, clips)) else Err(IncorrectType)
  }

  /// Some property of the clip already has a track of a different type.
  predicate TypeConflict(tracks: map<string, CurveTrack>, clip: AnimationClip) {
    exists p :: p in clip.curves && p in tracks && clip.curves[p].valueType != tracks[p].valueType
  }

  /// The track of property `p` once the clip's curve for `p` is added:
  /// the existing track gets the curve in slot `clipId`, a property
  /// without a track gets a new one.
  function ClipTrack(tracks: map<string, CurveTrack>, clipId: ClipId, clip: AnimationClip, p: string): CurveTrack
    requires p in clip.curves
  {
    if p in tracks then AddCurve(tracks[p], clipId, clip.curves[p].curve) else IntoTrack(clip.curves[p], clipId)
  }

  /// The tracks after the curves of `clip` under the keys `done` have been
  /// added for `clipId`; every other track is unchanged.
  function WithClip(tracks: map<string, CurveTrack>, clipId: ClipId, clip: AnimationClip, done: set<string>)
    : (r: map<string, CurveTrack>)
    requires done <= clip.curves.Keys
    ensures r.Keys == tracks.Keys + done
    ensures forall p :: p in done ==> r[p] == ClipTrack(tracks, clipId, clip, p)
    ensures forall p :: p in tracks && p !in done ==> r[p] == tracks[p]
  {
    map p | p in tracks.Keys + done :: if p in done then ClipTrack(tracks, clipId, clip, p) else tracks[p]
  }

  /// After a clip is added, each of its properties has a track whose slot
  /// `clipId` holds that property's curve, of the curve's type.
  lemma WithClipStoresCurves(tracks: map<string, CurveTrack>, clipId: ClipId, clip: AnimationClip)
    requires !TypeConflict(tracks, clip)
    ensures var r := WithClip(tracks, clipId, clip, clip.curves.Keys);
      forall p :: p in clip.curves ==>
        p in r && clipId < |r[p].curves| && r[p].curves[clipId] == Some(clip.curves[p].curve) &&
        r[p].valueType == clip.curves[p].valueType
  {
  }

  /// The pre-check of `add_clip`: some property of the clip already has a
  /// track of another type.
  method FindTypeConflict(tracks: map<string, CurveTrack>, clip: AnimationClip) returns (conflict: bool)
    ensures conflict <==> TypeConflict(tracks, clip)
  {
    var rest := clip.curves.Keys;
    while rest != {}
      invariant rest <= clip.curves.Keys
      invariant forall p :: p in clip.curves && p !in rest && p in tracks ==> clip.curves[p].valueType == tracks[p].valueType
      decreases rest
    {
      var p :| p in rest;
      if p in tracks && clip.curves[p].valueType != tracks[p].valueType {
        return true;
      }
      rest := rest - {p};
    }
    return false;
  }

  /// The insertion loop of `add_clip`, once the pre-check has passed: each
  /// curve goes into slot `clipId` of its property's track, or into a new
  /// track. The `unwrap` on the typed insertion never fails.
  method InsertClipCurves(tracks: map<string, CurveTrack>, clipId: ClipId, clip: AnimationClip)
    returns (ts: map<string, CurveTrack>)
    requires !TypeConflict(tracks, clip)
    ensures ts == WithClip(tracks, clipId, clip, clip.curves.Keys)
  {
    ts := tracks;
    var rest := clip.curves.Keys;
    WithClipNone(tracks, clipId, clip);
    while rest != {}
      invariant rest <= clip.curves.Keys
      invariant ts == WithClip(tracks, clipId, clip, clip.curves.Keys - rest)
      decreases rest
    {
      var p :| p in rest;
      var track: CurveTrack;
      if p in ts {
        var added := AddGenericCurve(ts[p], clipId, clip.curves[p]);
        assert added.Ok?;
        track := added.value;
      } else {
        track := IntoTrack(clip.curves[p], clipId);
      }
      InsertStep(tracks, clipId, clip, rest, p);
      ts := ts[p := track];
      rest := rest - {p};
    }
    assert clip.curves.Keys - rest == clip.curves.Keys;
  }

  /// One round of the insertion loop, on the maps: `p` leaves the keys
  /// still to add and gets its track.
  lemma InsertStep(tracks: map<string, CurveTrack>, clipId: ClipId, clip: AnimationClip, rest: set<string>, p: string)
    requires rest <= clip.curves.Keys && p in rest
    ensures var keys := clip.curves.Keys;
      WithClip(tracks, clipId, clip, keys - rest)[p := ClipTrack(tracks, clipId, clip, p)] ==
      WithClip(tracks, clipId, clip, keys - (rest - {p}))
  {
    var done := clip.curves.Keys - rest;
    WithClipStep(tracks, clipId, clip, done, p);
    assert clip.curves.Keys - (rest - {p}) == done + {p};
  }

  /// With no curve added yet the tracks are unchanged.
  lemma WithClipNone(tracks: map<string, CurveTrack>, clipId: ClipId, clip: AnimationClip)
    ensures WithClip(tracks, clipId, clip, {}) == tracks
  {
  }

  /// Adding the curve of one more property `p` updates exactly `p`.
  lemma WithClipStep(tracks: map<string, CurveTrack>, clipId: ClipId, clip: AnimationClip, done: set<string>, p: string)
    requires done <= clip.curves.Keys && p in clip.curves && p !in done
    ensures WithClip(tracks, clipId, clip, done)[p := ClipTrack(tracks, clipId, clip, p)] == WithClip(tracks, clipId, clip, done + {p})
  {
  }

  /// `GraphClips`: the tracks of every animated property.
  class GraphClips {
    var tracks: map<string, CurveTrack>

    constructor ()
      ensures tracks == map[]
    {
      tracks := map[];
    }

    /// `GraphClips::add_clip`: first every property of the clip that
    /// already has a track is checked against the track's type, and any
    /// mismatch fails before anything changes; then each curve is added to
    /// its property's track, or a new track is made for it.
    method AddClip(clipId: ClipId, clip: AnimationClip) returns (r: Result<(), TrackError>)
      modifies this
      ensures r.Err? <==> TypeConflict(old(tracks), clip)
      ensures r.Err? ==> r.error == IncorrectType && tracks == old(tracks)
      ensures r.Ok? ==> tracks == WithClip(old(tracks), clipId, clip, clip.curves.Keys)
    {
      var conflict := FindTypeConflict(tracks, clip);
      if conflict {
        return Err(IncorrectType);
      }
      tracks := InsertClipCurves(tracks, clipId, clip);
      r := Ok(());
    }

    /// `GraphClips::sample::<T>(key, state)`: a property without a track is
    /// `MissingTrack`, a track of another type `IncorrectType`.
    function Sample(key: string, clips: seq<ClipState>, ty: ValueType): (r: Result<Value, TrackError>)
      reads this
      requires key in tracks ==> TrackSamplable(tracks[key], clips)
      ensures r.Err? <==> key !in tracks || tracks[key].valueType != ty
      ensures r == Err(MissingTrack) <==> key !in tracks
      ensures r.Ok? ==> r.value == SampleAndBlend(tracks[key], clips) && HasType(r.value, ty)
    {
      if key !in tracks then Err(MissingTrack) else Blend(tracks[key], clips, ty)
    }

    /// `GraphClips::sample_property(key, state, output)`, with the output's
    /// type as `outputType`.
    function SampleProperty(key: string, clips: seq<ClipState>, outputType: ValueType): (r: Result<Value, TrackError>)
      reads this
      requires key in tracks ==> TrackSamplable(tracks[key], clips)
      ensures r.Err? <==> key !in tracks || tracks[key].valueType != outputType
      ensures r == Err(MissingTrack) <==> key !in tracks
      ensures r.Ok? ==> r.value == SampleAndBlend(tracks[key], clips)
    {
      if key !in tracks then Err(MissingTrack) else BlendViaReflect(tracks[key], clips, outputType)
    }
  }
}
