/// `GraphState`: the per-clip influences an evaluation of the blend graph
/// accumulates. Both graph versions declare the same state; `K` is the
/// key naming a clip (a clip handle, or a `ClipId`).
module GraphState {

  /// The map after `add_influence(clip, delta)`: an existing entry grows by
  /// `delta`, a missing one is inserted with `delta`.
  function AddInfluenceTo<K>(m: map<K, real>, clip: K, delta: real): (r: map<K, real>)
    ensures r.Keys == m.Keys + {clip}
    ensures r[clip] == (if clip in m then m[clip] else 0.0) + delta
    ensures forall k :: k in m && k != clip ==> r[k] == m[k]
  {
    if clip in m then m[clip := m[clip] + delta] else m[clip := delta]
  }

  /// The influences after a series of `add_influence` calls, in order.
  function Accumulate<K>(m: map<K, real>, deltas: seq<(K, real)>): map<K, real>
    decreases |deltas|
  {
    if deltas == [] then m else Accumulate(AddInfluenceTo(m, deltas[0].0, deltas[0].1), deltas[1..])
  }

  /// The total of the deltas for `clip`.
  function SumFor<K(==)>(clip: K, deltas: seq<(K, real)>): real
    decreases |deltas|
  {
    if deltas == [] then 0.0
    else (if deltas[0].0 == clip then deltas[0].1 else 0.0) + SumFor(clip, deltas[1..])
  }

  /// Some delta is for `clip`.
  predicate Mentions<K(==)>(clip: K, deltas: seq<(K, real)>) {
    exists k :: 0 <= k < |deltas| && deltas[k].0 == clip
  }

  /// Accumulating is summing: a clip has an entry exactly when it had one
  /// or some delta names it, and the entry is the old value (0 if none)
  /// plus the total of its deltas. Hence the order of the calls does not
  /// matter.
  lemma {:induction false} AccumulateSums<K>(m: map<K, real>, deltas: seq<(K, real)>, clip: K)
    ensures clip in Accumulate(m, deltas) <==> clip in m || Mentions(clip, deltas)
    ensures clip in Accumulate(m, deltas) ==>
      Accumulate(m, deltas)[clip] == (if clip in m then m[clip] else 0.0) + SumFor(clip, deltas)
    decreases |deltas|
  {
    if deltas != [] {
      var m' := AddInfluenceTo(m, deltas[0].0, deltas[0].1);
      AccumulateSums(m', deltas[1..], clip);
      if Mentions(clip, deltas[1..]) {
        var k :| 0 <= k < |deltas[1..]| && deltas[1..][k].0 == clip;
        assert deltas[k + 1].0 == clip;
      }
      if Mentions(clip, deltas) && deltas[0].0 != clip {
        var k :| 0 <= k < |deltas| && deltas[k].0 == clip;
        assert deltas[1..][k - 1].0 == clip;
      }
    }
  }

  /// Accumulating two series one after the other.
  lemma {:induction false} AccumulateAppend<K>(m: map<K, real>, a: seq<(K, real)>, b: seq<(K, real)>)
    ensures Accumulate(m, a + b) == Accumulate(Accumulate(m, a), b)
    decreases |a|
  {
    if a != [] {
      assert (a + b)[1..] == a[1..] + b;
      AccumulateAppend(AddInfluenceTo(m, a[0].0, a[0].1), a[1..], b);
    } else {
      assert a + b == b;
    }
  }

  /// The deltas of two series for one clip add up.
  lemma {:induction false} SumForAppend<K>(clip: K, a: seq<(K, real)>, b: seq<(K, real)>)
    ensures SumFor(clip, a + b) == SumFor(clip, a) + SumFor(clip, b)
    decreases |a|
  {
    if a == [] {
      assert a + b == b;
    } else {
      assert (a + b)[1..] == a[1..] + b;
      SumForAppend(clip, a[1..], b);
    }
  }

  lemma MentionsAppend<K>(clip: K, a: seq<(K, real)>, b: seq<(K, real)>)
    ensures Mentions(clip, a + b) <==> Mentions(clip, a) || Mentions(clip, b)
  {
    if Mentions(clip, a + b) {
      var k :| 0 <= k < |a + b| && (a + b)[k].0 == clip;
      if k >= |a| {
        assert b[k - |a|].0 == clip;
      }
    }
    if Mentions(clip, a) {
      var k :| 0 <= k < |a| && a[k].0 == clip;
      assert (a + b)[k].0 == clip;
    }
    if Mentions(clip, b) {
      var k :| 0 <= k < |b| && b[k].0 == clip;
      assert (a + b)[k + |a|].0 == clip;
    }
  }

  /// The influence store of the graph.
  class GraphState<K(==)> {
    var influences: map<K, real>

    constructor ()
      ensures influences == map[]
    {
      influences := map[];
    }

    /// `reset`: clears every influence.
    method Reset()
      modifies this
      ensures influences == map[]
    {
      influences := map[];
    }

    /// `add_influence(clip, delta_weight)`.
    method AddInfluence(clip: K, delta: real)
      modifies this
      ensures influences == AddInfluenceTo(old(influences), clip, delta)
    {
      if clip in influences {
        influences := influences[clip := influences[clip] + delta];
      } else {
        influences := influences[clip := delta];
      }
    }
  }
}
