/// The older `AnimationGraph` of `graph.rs`: one node struct with an
/// optional clip, the same breadth-first `set_time`, and a recursive
/// `compute_influences` in place of the explicit stack.
module GraphLegacy {
  import opened Wrappers
  import opened Numeric
  import opened Node
  import opened GraphState
  import opened GraphWalk

  /// `ClipId(u16)`.
  type ClipId = U16

  /// `Node`: every node has inputs and may also play a clip.
  datatype GraphNode = GraphNode(localTime: real, duration: real, inputs: seq<NodeInput>,
                                 propagateTime: bool, clip: Option<ClipId>)

  /// `AnimationGraphError`.
  datatype GraphError = NodeNotFound(id: NodeId) | InputAlreadyExists(id: NodeId)

  function LinkOf(n: GraphNode): Link<ClipId> {
    Link(n.propagateTime, n.inputs, n.clip)
  }

  function Links(ns: seq<GraphNode>): (g: seq<Link<ClipId>>)
    ensures |g| == |ns| && forall i :: 0 <= i < |ns| ==> g[i] == LinkOf(ns[i])
  {
    seq(|ns|, i requires 0 <= i < |ns| => LinkOf(ns[i]))
  }

  /// `add_input(target, input)` on the node list `ns`: the input is looked
  /// up first, then the target; an existing edge from `input` is refused;
  /// otherwise one new connected edge of weight 1 ends the target's inputs.
  function AddInputTo(ns: seq<GraphNode>, target: NodeId, input: NodeId): (r: Result<seq<GraphNode>, GraphError>)
    ensures input >= |ns| ==> r == Err(NodeNotFound(input))
    ensures input < |ns| && target >= |ns| ==> r == Err(NodeNotFound(target))
    ensures r.Err? && r.error.InputAlreadyExists? <==>
      input < |ns| && target < |ns| && FindInput(ns[target].inputs, input).Some?
    ensures r.Err? && r.error.InputAlreadyExists? ==> r.error.id == input
    ensures r.Ok? ==> |r.value| == |ns| && forall i :: 0 <= i < |ns| && i != target ==> r.value[i] == ns[i]
    ensures r.Ok? ==> target < |ns| && r.value[target] == ns[target].(inputs := r.value[target].inputs)
    ensures r.Ok? ==> r.value[target].inputs == ns[target].inputs + [NewInput(input)]
    ensures r.Ok? ==> FindInput(r.value[target].inputs, input) == Some(|ns[target].inputs|)
  {
    if input >= |ns| then Err(NodeNotFound(input))
    else if target >= |ns| then Err(NodeNotFound(target))
    else if FindInput(ns[target].inputs, input).Some? then Err(InputAlreadyExists(input))
    else
      var n := ns[target];
      var added := n.inputs + [NewInput(input)];
      assert added[|n.inputs|] == NewInput(input);
      Ok(ns[target := n.(inputs := added)])
  }

  /// The nodes `ns` with the nodes in `done` set to `time`.
  function Stamped(ns: seq<GraphNode>, done: set<NodeId>, time: real): (r: seq<GraphNode>)
    ensures |r| == |ns|
    ensures forall i :: 0 <= i < |ns| ==> r[i] == if i in done then ns[i].(localTime := time) else ns[i]
  {
    seq(|ns|, i requires 0 <= i < |ns| => if i in done then ns[i].(localTime := time) else ns[i])
  }

  lemma StampedLinks(ns: seq<GraphNode>, done: set<NodeId>, time: real)
    ensures Links(Stamped(ns, done, time)) == Links(ns)
  {
    assert forall i :: 0 <= i < |ns| ==> LinkOf(Stamped(ns, done, time)[i]) == LinkOf(ns[i]);
  }

  lemma StampedAdd(ns: seq<GraphNode>, done: set<NodeId>, time: real, q: NodeId)
    requires q < |ns|
    ensures var cur := Stamped(ns, done, time);
      cur[q := cur[q].(localTime := time)] == Stamped(ns, done + {q}, time)
  {
  }

  lemma StampedMissing(ns: seq<GraphNode>, done: set<NodeId>, time: real, q: NodeId)
    requires q >= |ns|
    ensures Stamped(ns, done, time) == Stamped(ns, done + {q}, time)
  {
  }

  /// Writing the time into `q`, if it exists, stamps one more node and
  /// leaves the links alone.
  lemma StampedStep(ns: seq<GraphNode>, done: set<NodeId>, time: real, q: NodeId)
    ensures Links(Stamped(ns, done, time)) == Links(ns)
    ensures var cur := Stamped(ns, done, time);
      (if q < |ns| then cur[q := cur[q].(localTime := time)] else cur) == Stamped(ns, done + {q}, time)
  {
    StampedLinks(ns, done, time);
    if q < |ns| {
      StampedAdd(ns, done, time, q);
    } else {
      StampedMissing(ns, done, time, q);
    }
  }

  // ---------------------------------------------------------------------
  // `compute_influences`

  /// The `add_influence` calls of `compute_influences` on node `id` with
  /// weight `w`: the node's own clip first, then, input by input, the calls
  /// of every connected input of nonzero weight that names a node.
  function Trace<K>(g: seq<Link<K>>, rank: seq<nat>, id: NodeId, w: real): seq<(K, real)>
    requires Ranked(g, rank)
    decreases Height(g, rank, id), 1, 0
  {
    if id < |g| then
      var es := Connected(g[id].inputs);
      assert forall k :: 0 <= k < |es| ==> Height(g, rank, es[k].nodeId) < Height(g, rank, id) by {
        forall k | 0 <= k < |es|
          ensures Height(g, rank, es[k].nodeId) < Height(g, rank, id)
        {
          InputBelow(g, rank, id, es[k]);
        }
      }
      Contribs(g, [(id, w)]) + TraceInputs(g, rank, es, w, Height(g, rank, id))
    else []
  }

  function TraceInputs<K>(g: seq<Link<K>>, rank: seq<nat>, es: seq<NodeInput>, w: real, h: nat): seq<(K, real)>
    requires Ranked(g, rank) && forall k :: 0 <= k < |es| ==> Height(g, rank, es[k].nodeId) < h
    decreases h, 0, |es|
  {
    if es == [] then []
    else TraceInputs(g, rank, es[..|es| - 1], w, h) + Branch(g, rank, es[|es| - 1], w, h)
  }

  /// The calls one edge leads to: none for a zero weight or a missing
  /// node, else those of its node with the edge weight multiplied in. (`h`
  /// bounds the node's height.)
  function Branch<K>(g: seq<Link<K>>, rank: seq<nat>, e: NodeInput, w: real, h: nat): seq<(K, real)>
    requires Ranked(g, rank) && Height(g, rank, e.nodeId) < h
    decreases h, 0, 0
  {
    if e.weight != 0.0 && e.nodeId < |g| then Trace(g, rank, e.nodeId, Passed(e, w)) else []
  }

  /// The weight handed down edge `e` from a node reached with weight `w`.
  function Passed(e: NodeInput, w: real): real {
    e.weight * w
  }

  lemma BranchLive<K>(g: seq<Link<K>>, rank: seq<nat>, e: NodeInput, w: real, h: nat)
    requires Ranked(g, rank) && Height(g, rank, e.nodeId) < h
    requires e.weight != 0.0 && e.nodeId < |g|
    ensures Branch(g, rank, e, w, h) == Trace(g, rank, e.nodeId, Passed(e, w))
  {
    var t := Trace(g, rank, e.nodeId, Passed(e, w));
    assert Branch(g, rank, e, w, h) == t;
  }

  /// The own call of node `id`: its clip, if it plays one.
  lemma OwnCall<K>(g: seq<Link<K>>, id: NodeId, w: real)
    ensures Contribs(g, [(id, w)]) == if id < |g| && g[id].clip.Some? then [(g[id].clip.value, w)] else []
  {
    var one := [(id, w)];
    assert one[0] == (id, w) && one[1..] == [];
    var mine := if id < |g| && g[id].clip.Some? then [(g[id].clip.value, w)] else [];
    assert Contribs(g, one) == mine + Contribs(g, []);
    assert mine + [] == mine;
  }

  /// Following the edges one more step of the loop.
  lemma TraceInputsStep<K>(g: seq<Link<K>>, rank: seq<nat>, es: seq<NodeInput>, k: nat, w: real, h: nat)
    requires Ranked(g, rank) && forall j :: 0 <= j < |es| ==> Height(g, rank, es[j].nodeId) < h
    requires k < |es|
    ensures TraceInputs(g, rank, es[..k + 1], w, h) == TraceInputs(g, rank, es[..k], w, h) + Branch(g, rank, es[k], w, h)
  {
    assert es[..k + 1][..k] == es[..k];
  }

  /// The entries the stack version pushes for one edge.
  function Step(e: NodeInput, w: real): (r: seq<(NodeId, real)>)
    ensures |r| <= 1
  {
    if e.weight * w != 0.0 then [(e.nodeId, e.weight * w)] else []
  }

  /// The pushed entries of some edges stay below any bound their targets
  /// stay below.
  lemma PushedFromBelow<K>(g: seq<Link<K>>, rank: seq<nat>, es: seq<NodeInput>, w: real, h: nat)
    requires Ranked(g, rank) && forall k :: 0 <= k < |es| ==> Height(g, rank, es[k].nodeId) < h
    ensures forall k :: 0 <= k < |PushedFrom(es, w)| ==> Height(g, rank, PushedFrom(es, w)[k].0) < h
  {
    var p := PushedFrom(es, w);
    forall k | 0 <= k < |p|
      ensures Height(g, rank, p[k].0) < h
    {
      var j :| 0 <= j < |es| && es[j].nodeId == p[k].0;
    }
  }

  /// For a nonzero weight the recursion adds, clip by clip, what the
  /// explicit stack adds: the path sums, naming the same clips. (A zero
  /// product of nonzero weights cannot occur over the reals.)
  lemma {:induction false} TraceAgrees<K>(g: seq<Link<K>>, rank: seq<nat>, c: K, id: NodeId, w: real)
    requires Ranked(g, rank) && w != 0.0
    ensures SumFor(c, Trace(g, rank, id, w)) == PathSum(g, rank, c, id, w)
    ensures Mentions(c, Trace(g, rank, id, w)) <==> Reaches(g, rank, c, id, w)
    decreases Height(g, rank, id), 1, 0
  {
    PushedBelow(g, rank, id, w);
    if id < |g| {
      var es := Connected(g[id].inputs);
      var h := Height(g, rank, id);
      forall k | 0 <= k < |es|
        ensures Height(g, rank, es[k].nodeId) < h
      {
        InputBelow(g, rank, id, es[k]);
      }
      var own := Contribs(g, [(id, w)]);
      var rest := TraceInputs(g, rank, es, w, h);
      OwnContrib(g, c, id, w);
      SumForAppend(c, own, rest);
      MentionsAppend(c, own, rest);
      TraceInputsAgree(g, rank, c, es, w, h);
    }
  }

  lemma {:induction false} TraceInputsAgree<K>(g: seq<Link<K>>, rank: seq<nat>, c: K, es: seq<NodeInput>, w: real, h: nat)
    requires Ranked(g, rank) && w != 0.0
    requires forall k :: 0 <= k < |es| ==> Height(g, rank, es[k].nodeId) < h
    ensures forall k :: 0 <= k < |PushedFrom(es, w)| ==> Height(g, rank, PushedFrom(es, w)[k].0) < h
    ensures SumFor(c, TraceInputs(g, rank, es, w, h)) == PathSumQ(g, rank, c, PushedFrom(es, w), h)
    ensures Mentions(c, TraceInputs(g, rank, es, w, h)) <==> ReachesQ(g, rank, c, PushedFrom(es, w), h)
    decreases h, 0, |es|
  {
    PushedFromBelow(g, rank, es, w, h);
    if es != [] {
      var e := es[|es| - 1];
      var init := es[..|es| - 1];
      var before := TraceInputs(g, rank, init, w, h);
      var piece := Branch(g, rank, e, w, h);
      assert TraceInputs(g, rank, es, w, h) == before + piece;
      assert PushedFrom(es, w) == PushedFrom(init, w) + Step(e, w);
      PushedFromBelow(g, rank, init, w, h);
      TraceInputsAgree(g, rank, c, init, w, h);
      BranchAgrees(g, rank, c, e, w, h);
      SumForAppend(c, before, piece);
      MentionsAppend(c, before, piece);
      SnocSums(g, rank, c, PushedFrom(init, w), Step(e, w), h);
    }
  }

  lemma {:induction false} BranchAgrees<K>(g: seq<Link<K>>, rank: seq<nat>, c: K, e: NodeInput, w: real, h: nat)
    requires Ranked(g, rank) && w != 0.0 && Height(g, rank, e.nodeId) < h
    ensures SumFor(c, Branch(g, rank, e, w, h)) == PathSumQ(g, rank, c, Step(e, w), h)
    ensures Mentions(c, Branch(g, rank, e, w, h)) <==> ReachesQ(g, rank, c, Step(e, w), h)
    decreases h, 0, 0
  {
    if e.weight != 0.0 {
      var p := Passed(e, w);
      assert p != 0.0;
      assert Step(e, w) == [(e.nodeId, p)];
      assert Step(e, w)[..0] == [];
      TraceAgrees(g, rank, c, e.nodeId, p);
      if e.nodeId < |g| {
        BranchLive(g, rank, e, w, h);
      } else {
        assert Trace(g, rank, e.nodeId, p) == [];
      }
    } else {
      assert e.weight * w == 0.0;
      assert Branch(g, rank, e, w, h) == [];
    }
  }

  /// Unfolding the queue sums at a tail of at most one entry.
  lemma SnocSums<K>(g: seq<Link<K>>, rank: seq<nat>, c: K, p: seq<(NodeId, real)>, t: seq<(NodeId, real)>, h: nat)
    requires Ranked(g, rank) && |t| <= 1
    requires forall k :: 0 <= k < |p| ==> Height(g, rank, p[k].0) < h
    requires forall k :: 0 <= k < |t| ==> Height(g, rank, t[k].0) < h
    ensures forall k :: 0 <= k < |p + t| ==> Height(g, rank, (p + t)[k].0) < h
    ensures PathSumQ(g, rank, c, p + t, h) == PathSumQ(g, rank, c, p, h) + PathSumQ(g, rank, c, t, h)
    ensures ReachesQ(g, rank, c, p + t, h) <==> ReachesQ(g, rank, c, p, h) || ReachesQ(g, rank, c, t, h)
  {
    if t == [] {
      assert p + t == p;
    } else {
      assert (p + t)[..|p|] == p;
      assert t[..0] == [];
    }
  }

  /// `evaluate` on the legacy graph leaves the same influences as the
  /// explicit stack: both are the path sums of the clips the root reaches.
  lemma LegacyAgreesWithStack(g: seq<Link<ClipId>>, rank: seq<nat>)
    requires Ranked(g, rank)
    ensures Accumulate(map[], Trace(g, rank, ROOT, 1.0)) == Accumulate(map[], Contribs(g, Walk(g, rank, ROOT, 1.0)))
  {
    var legacy := Accumulate(map[], Trace(g, rank, ROOT, 1.0));
    var stack := Accumulate(map[], Contribs(g, Walk(g, rank, ROOT, 1.0)));
    forall c: ClipId
      ensures (c in legacy <==> c in stack) && (c in legacy ==> legacy[c] == stack[c])
    {
      ClipAgrees(g, rank, c);
    }
    MapsAgree(legacy, stack);
  }

  /// One clip's entry in the two influence maps.
  lemma ClipAgrees(g: seq<Link<ClipId>>, rank: seq<nat>, c: ClipId)
    requires Ranked(g, rank)
    ensures var legacy := Accumulate(map[], Trace(g, rank, ROOT, 1.0));
      var stack := Accumulate(map[], Contribs(g, Walk(g, rank, ROOT, 1.0)));
      (c in legacy <==> c in stack) && (c in legacy ==> legacy[c] == stack[c])
  {
    AccumulateSums(map[], Trace(g, rank, ROOT, 1.0), c);
    TraceAgrees(g, rank, c, ROOT, 1.0);
    RootInfluence(g, rank, c);
  }

  /// Two maps with the same keys and the same value at each key are equal.
  lemma MapsAgree<K, V>(a: map<K, V>, b: map<K, V>)
    requires forall k :: (k in a <==> k in b) && (k in a ==> a[k] == b[k])
    ensures a == b
  {
    assert a.Keys == b.Keys;
  }

  /// One `add_influence` call.
  lemma AccumulateOne<K>(m: map<K, real>, clip: K, delta: real)
    ensures Accumulate(m, [(clip, delta)]) == AddInfluenceTo(m, clip, delta)
  {
    assert [(clip, delta)][1..] == [];
  }

  /// `AnimationGraph`.
  class AnimationGraph {
    const nodes: GraphNodes<GraphNode>
    const state: GraphState<ClipId>

    /// An empty graph.
    constructor ()
      ensures fresh(nodes) && fresh(state)
      ensures nodes.nodes == [] && state.influences == map[]
    {
      nodes := new GraphNodes();
      state := new GraphState();
    }

    /// The graph as the traversals see it.
    function View(): seq<Link<ClipId>>
      reads nodes
    {
      Links(nodes.nodes)
    }

    /// `add_input(target, input)`: on success, the index of the new edge
    /// among the target's inputs.
    method AddInput(target: NodeId, input: NodeId) returns (r: Result<nat, GraphError>)
      modifies nodes
      ensures var expected := AddInputTo(old(nodes.nodes), target, input);
        (expected.Err? ==> r == Err(expected.error) && nodes.nodes == old(nodes.nodes)) &&
        (expected.Ok? ==> r == Ok(|old(nodes.nodes)[target].inputs|) && nodes.nodes == expected.value)
    {
      if nodes.Get(input).None? {
        return Err(NodeNotFound(input));
      }
      var t := nodes.Get(target);
      if t.None? {
        return Err(NodeNotFound(target));
      }
      var n := t.value;
      if FindInput(n.inputs, input).Some? {
        return Err(InputAlreadyExists(input));
      }
      nodes.nodes := nodes.nodes[target := n.(inputs := n.inputs + [NewInput(input)])];
      r := Ok(|n.inputs|);
    }

    /// `set_time(node_id, time)`: a missing node is reported and nothing
    /// changes; otherwise exactly the nodes the breadth-first walk reaches
    /// get the time, and nothing else about any node changes.
    method SetTime(id: NodeId, time: real, ghost rank: seq<nat>) returns (r: Result<(), GraphError>)
      requires Ranked(View(), rank)
      modifies nodes
      ensures r.Err? <==> id >= old(|nodes.nodes|)
      ensures r.Err? ==> r.error == NodeNotFound(id) && nodes.nodes == old(nodes.nodes)
      ensures r.Ok? ==> nodes.nodes == Stamped(old(nodes.nodes), Reached(old(View()), rank, id), time)
    {
      ghost var before := nodes.nodes;
      ghost var g := View();
      var t := nodes.Get(id);
      if t.None? {
        return Err(NodeNotFound(id));
      }
      StampedAdd(before, {}, time, id);
      assert before == Stamped(before, {}, time);
      nodes.nodes := nodes.nodes[id := t.value.(localTime := time)];
      r := Ok(());
      if !t.value.propagateTime {
        assert {} + {id} == {id};
        assert Forwarded(g, id) == [];
        return;
      }
      Spread(id, time, rank, before);
    }

    /// The `pending` queue loop of `set_time`, started on `id` after its
    /// own write.
    method Spread(id: NodeId, time: real, ghost rank: seq<nat>, ghost before: seq<GraphNode>)
      requires Ranked(Links(before), rank) && id < |before|
      requires nodes.nodes == Stamped(before, {id}, time)
      modifies nodes
      ensures nodes.nodes == Stamped(before, Reached(Links(before), rank, id), time)
    {
      ghost var g := Links(before);
      ghost var top := Top(rank);
      ghost var done: set<NodeId> := {id};
      var pending: seq<NodeId> := [id];
      assert Height(g, rank, id) < top;
      assert ReachedQ(g, rank, pending, top) == Reached(g, rank, id) + ReachedQ(g, rank, [], top);
      while pending != []
        invariant nodes.nodes == Stamped(before, done, time)
        invariant forall k :: 0 <= k < |pending| ==> Height(g, rank, pending[k]) < top
        invariant Reached(g, rank, id) == done + ReachedQ(g, rank, pending, top)
        decreases VisitsQ(g, rank, pending, top)
      {
        var q := pending[0];
        var rest := pending[1..];
        QueueStep(g, rank, id, done, pending, top);
        StampedStep(before, done, time, q);
        var forwarded := VisitQueued(q, time);
        pending := rest + forwarded;
        done := done + {q};
      }
    }

    /// One round of the queue loop: `q`, if it exists, gets the time, and
    /// the ids to queue next are handed back.
    method VisitQueued(q: NodeId, time: real) returns (forwarded: seq<NodeId>)
      modifies nodes
      ensures nodes.nodes == if q < old(|nodes.nodes|) then old(nodes.nodes)[q := old(nodes.nodes)[q].(localTime := time)] else old(nodes.nodes)
      ensures forwarded == Forwarded(old(View()), q)
    {
      forwarded := [];
      var found := nodes.Get(q);
      if found.Some? {
        var n := found.value;
        assert LinkOf(n) == View()[q];
        nodes.nodes := nodes.nodes[q := n.(localTime := time)];
        if n.propagateTime {
          forwarded := Ids(Connected(n.inputs));
        }
      }
    }

    /// `evaluate`: clears the influences, then runs `compute_influences`
    /// on the root with weight 1 if the root exists.
    method Evaluate(ghost rank: seq<nat>)
      requires Ranked(View(), rank)
      modifies state
      ensures state.influences == Accumulate(map[], Trace(View(), rank, ROOT, 1.0))
    {
      state.Reset();
      var root := nodes.Get(ROOT);
      if root.Some? {
        ComputeInfluences(ROOT, root.value, 1.0, rank);
      }
    }

    /// `compute_influences(weight)` on `node`, the node stored under `id`.
    method ComputeInfluences(ghost id: NodeId, node: GraphNode, weight: real, ghost rank: seq<nat>)
      requires Ranked(View(), rank) && id < |nodes.nodes| && nodes.nodes[id] == node
      modifies state
      ensures state.influences == Accumulate(old(state.influences), Trace(View(), rank, id, weight))
      decreases Height(View(), rank, id), 2
    {
      ghost var g := View();
      ghost var start := state.influences;
      ghost var h := Height(g, rank, id);
      ghost var own := Contribs(g, [(id, weight)]);
      OwnCall(g, id, weight);
      if node.clip.Some? {
        state.AddInfluence(node.clip.value, weight);
        AccumulateOne(start, node.clip.value, weight);
      }
      var es := Connected(node.inputs);
      forall k | 0 <= k < |es|
        ensures Height(g, rank, es[k].nodeId) < h
      {
        InputBelow(g, rank, id, es[k]);
      }
      VisitInputs(es, weight, rank, h);
      AccumulateAppend(start, own, TraceInputs(g, rank, es, weight, h));
    }

    /// The input loop of `compute_influences`: the connected inputs `es`
    /// of a node of height `h`, visited in order.
    method VisitInputs(es: seq<NodeInput>, weight: real, ghost rank: seq<nat>, ghost h: nat)
      requires Ranked(View(), rank)
      requires forall k :: 0 <= k < |es| ==> Height(View(), rank, es[k].nodeId) < h
      modifies state
      ensures state.influences == Accumulate(old(state.influences), TraceInputs(View(), rank, es, weight, h))
      decreases h, 1
    {
      ghost var g := View();
      ghost var start := state.influences;
      assert es[..0] == [];
      var k := 0;
      while k < |es|
        invariant k <= |es|
        invariant state.influences == Accumulate(start, TraceInputs(g, rank, es[..k], weight, h))
      {
        ghost var done := TraceInputs(g, rank, es[..k], weight, h);
        VisitInput(es[k], weight, rank, h);
        TraceInputsStep(g, rank, es, k, weight, h);
        AccumulateAppend(start, done, Branch(g, rank, es[k], weight, h));
        k := k + 1;
      }
      assert es[..k] == es;
    }

    /// One round of the input loop of `compute_influences`: an edge of
    /// zero weight is skipped, and so is one naming a missing node.
    method VisitInput(input: NodeInput, weight: real, ghost rank: seq<nat>, ghost h: nat)
      requires Ranked(View(), rank) && Height(View(), rank, input.nodeId) < h
      modifies state
      ensures state.influences == Accumulate(old(state.influences), Branch(View(), rank, input, weight, h))
      decreases h, 0
    {
      if input.weight != 0.0 {
        var child := nodes.Get(input.nodeId);
        if child.Some? {
          BranchLive(View(), rank, input, weight, h);
          ComputeInfluences(input.nodeId, child.value, Passed(input, weight), rank);
          return;
        }
      }
      assert Branch(View(), rank, input, weight, h) == [];
    }
  }
}
