/// `AnimationGraph` (the enum-node version): an arena of blend nodes and
/// clip leaves with weighted edges, the breadth-first `set_time` and the
/// explicit-stack `evaluate`.
///
/// This version does not compile as written; the model follows its evident
/// intent, as noted at each place:
/// - the node enum carries no local time, yet `set_time` writes one: both
///   variants carry `localTime` here, and a clip leaf forwards nothing;
/// - `add_input` pushes onto `target.inputs`, which only a blend node has:
///   a clip target is refused with `NotBlendNode`;
/// - `evaluate` reads fields that do not exist: a clip leaf adds the
///   entry's cumulative weight, and each connected input of the popped
///   node is pushed with `input.weight * cumulative_weight`.
module Graph {
  import opened Wrappers
  import opened Numeric
  import opened Node
  import opened GraphState
  import opened GraphWalk

  /// `AnimationGraphError`, with `NotBlendNode` for an edge into a leaf.
  datatype GraphError = NodeNotFound(id: NodeId) | InputAlreadyExists(id: NodeId) | NotBlendNode(id: NodeId)

  /// What the traversals see of a node. A leaf has no inputs, so it
  /// forwards nothing.
  function LinkOf<K>(n: Node<K>): Link<K> {
    match n
    case Blend(_, inputs, propagate) => Link(propagate, inputs, None)
    case Clip(_, clip) => Link(false, [], Some(clip))
  }

  function Links<K>(ns: seq<Node<K>>): (g: seq<Link<K>>)
    ensures |g| == |ns| && forall i :: 0 <= i < |ns| ==> g[i] == LinkOf(ns[i])
  {
    seq(|ns|, i requires 0 <= i < |ns| => LinkOf(ns[i]))
  }

  /// `add_input(target, input)` on the node list `ns`: the input is looked
  /// up first, then the target; an existing edge from `input` is refused;
  /// otherwise one new connected edge of weight 1 ends the target's inputs.
  function AddInputTo<K>(ns: seq<Node<K>>, target: NodeId, input: NodeId): (r: Result<seq<Node<K>>, GraphError>)
    ensures input >= |ns| ==> r == Err(NodeNotFound(input))
    ensures input < |ns| && target >= |ns| ==> r == Err(NodeNotFound(target))
    ensures r.Err? && r.error.InputAlreadyExists? <==>
      input < |ns| && target < |ns| && GetInputMut(ns[target], input).Some?
    ensures r.Err? && r.error.InputAlreadyExists? ==> r.error.id == input
    ensures r.Err? && r.error.NotBlendNode? <==> input < |ns| && target < |ns| && ns[target].Clip?
    ensures r.Err? && r.error.NotBlendNode? ==> r.error.id == target
    ensures r.Ok? ==> |r.value| == |ns| && forall i :: 0 <= i < |ns| && i != target ==> r.value[i] == ns[i]
    ensures r.Ok? ==> target < |ns| && ns[target].Blend? && r.value[target].Blend?
    ensures r.Ok? ==> r.value[target].localTime == ns[target].localTime
    ensures r.Ok? ==> r.value[target].propagateTime == ns[target].propagateTime
    ensures r.Ok? ==> r.value[target].inputs == ns[target].inputs + [NewInput(input)]
    ensures r.Ok? ==> FindInput(r.value[target].inputs, input) == Some(|ns[target].inputs|)
  {
    if input >= |ns| then Err(NodeNotFound(input))
    else if target >= |ns| then Err(NodeNotFound(target))
    else if GetInputMut(ns[target], input).Some? then Err(InputAlreadyExists(input))
    else if ns[target].Clip? then Err(NotBlendNode(target))
    else
      var n := ns[target];
      var added := n.inputs + [NewInput(input)];
      assert added[|n.inputs|] == NewInput(input);
      Ok(ns[target := n.(inputs := added)])
  }

  /// Adding an edge that goes down the ranking keeps the graph ranked, so
  /// the traversals still terminate.
  lemma AddInputKeepsRanked<K>(ns: seq<Node<K>>, target: NodeId, input: NodeId, rank: seq<nat>)
    requires Ranked(Links(ns), rank) && AddInputTo(ns, target, input).Ok?
    requires rank[input] < rank[target]
    ensures Ranked(Links(AddInputTo(ns, target, input).value), rank)
  {
    var g := Links(AddInputTo(ns, target, input).value);
    forall i, j | 0 <= i < |g| && 0 <= j < |g[i].inputs| && g[i].inputs[j].nodeId < |g|
      ensures rank[g[i].inputs[j].nodeId] < rank[i]
    {
      if i == target && j == |ns[target].inputs| {
        assert g[i].inputs[j] == NewInput(input);
      } else {
        assert g[i].inputs[j] == Links(ns)[i].inputs[j];
      }
    }
  }

  /// The ranking lifted by one, with a new lowest entry at the end.
  function RankWithLeaf(rank: seq<nat>): (r: seq<nat>)
    ensures |r| == |rank| + 1 && r[|rank|] == 0
    ensures forall i :: 0 <= i < |rank| ==> r[i] == rank[i] + 1
  {
    seq(|rank|, i requires 0 <= i < |rank| => rank[i] + 1) + [0]
  }

  /// A new leaf keeps the graph ranked: it has no inputs, and ranked
  /// lowest it sits below any edge already naming its id.
  lemma AddClipKeepsRanked<K>(ns: seq<Node<K>>, clip: K, rank: seq<nat>)
    requires Ranked(Links(ns), rank)
    ensures Ranked(Links(ns + [Clip(0.0, clip)]), RankWithLeaf(rank))
  {
    var g := Links(ns + [Clip(0.0, clip)]);
    var r := RankWithLeaf(rank);
    forall i, j | 0 <= i < |g| && 0 <= j < |g[i].inputs| && g[i].inputs[j].nodeId < |g|
      ensures r[g[i].inputs[j].nodeId] < r[i]
    {
      assert i < |ns|;
      assert g[i] == Links(ns)[i];
    }
  }

  /// Visiting `id` is the only write when `id` does not forward: the early
  /// return of `set_time`.
  lemma ReachedNonPropagating<K>(g: seq<Link<K>>, rank: seq<nat>, id: NodeId)
    requires Ranked(g, rank) && !(id < |g| && g[id].propagates)
    ensures Reached(g, rank, id) == {id}
  {
    assert Forwarded(g, id) == [];
  }

  /// The nodes `ns` with the nodes in `done` set to `time`.
  function Stamped<K>(ns: seq<Node<K>>, done: set<NodeId>, time: real): (r: seq<Node<K>>)
    ensures |r| == |ns|
    ensures forall i :: 0 <= i < |ns| ==> r[i] == if i in done then ns[i].(localTime := time) else ns[i]
  {
    seq(|ns|, i requires 0 <= i < |ns| => if i in done then ns[i].(localTime := time) else ns[i])
  }

  /// Writing times leaves the graph the traversals see as it was.
  lemma StampedLinks<K>(ns: seq<Node<K>>, done: set<NodeId>, time: real)
    ensures Links(Stamped(ns, done, time)) == Links(ns)
  {
    assert forall i :: 0 <= i < |ns| ==> LinkOf(Stamped(ns, done, time)[i]) == LinkOf(ns[i]);
  }

  /// Stamping one more node.
  lemma StampedAdd<K>(ns: seq<Node<K>>, done: set<NodeId>, time: real, q: NodeId)
    requires q < |ns|
    ensures var cur := Stamped(ns, done, time);
      cur[q := cur[q].(localTime := time)] == Stamped(ns, done + {q}, time)
  {
  }

  lemma StampedMissing<K>(ns: seq<Node<K>>, done: set<NodeId>, time: real, q: NodeId)
    requires q >= |ns|
    ensures Stamped(ns, done, time) == Stamped(ns, done + {q}, time)
  {
  }

  /// `AnimationGraph`: the node arena and the clip influences.
  class AnimationGraph<K(==)> {
    const nodes: GraphNodes<Node<K>>
    const state: GraphState<K>

    /// An empty graph.
    constructor ()
      ensures fresh(nodes) && fresh(state)
      ensures nodes.nodes == [] && state.influences == map[]
    {
      nodes := new GraphNodes();
      state := new GraphState();
    }

    /// The graph as the traversals see it.
    function View(): seq<Link<K>>
      reads nodes
    {
      Links(nodes.nodes)
    }

    /// `add_input(target, input)`: on success, the index of the new edge
    /// among the target's inputs.
    method AddInput(target: NodeId, input: NodeId) returns (r: Result<nat, GraphError>)
      modifies nodes
      ensures var expected := AddInputTo(old(nodes.nodes), target, input);
        (expected.Err? ==> r == Err(expected.error) && nodes.nodes == old(nodes.nodes)) &&
        (expected.Ok? ==> r == Ok(|old(nodes.nodes)[target].inputs|) && nodes.nodes == expected.value)
    {
      var found := nodes.Get(input);
      if found.None? {
        return Err(NodeNotFound(input));
      }
      var t := nodes.Get(target);
      if t.None? {
        return Err(NodeNotFound(target));
      }
      var n := t.value;
      if GetInputMut(n, input).Some? {
        return Err(InputAlreadyExists(input));
      }
      if n.Clip? {
        return Err(NotBlendNode(target));
      }
      nodes.nodes := nodes.nodes[target := n.(inputs := n.inputs + [NewInput(input)])];
      r := Ok(|n.inputs|);
    }

    /// `add_clip(clip)`: a new leaf, at local time 0, under a fresh id.
    method AddClip(clip: K) returns (id: NodeId)
      requires |nodes.nodes| < U16_LIMIT
      modifies nodes
      ensures id as int == old(|nodes.nodes|)
      ensures nodes.nodes == old(nodes.nodes) + [Clip(0.0, clip)]
    {
      id := nodes.Add(Clip(0.0, clip));
    }

    /// `set_time(node_id, time)`: a missing node is reported and nothing
    /// changes; otherwise exactly the nodes the breadth-first walk reaches
    /// get the time, and nothing else about any node changes.
    method SetTime(id: NodeId, time: real, ghost rank: seq<nat>) returns (r: Result<(), GraphError>)
      requires Ranked(View(), rank)
      modifies nodes
      ensures r.Err? <==> id >= old(|nodes.nodes|)
      ensures r.Err? ==> r.error == NodeNotFound(id) && nodes.nodes == old(nodes.nodes)
      ensures r.Ok? ==> nodes.nodes == Stamped(old(nodes.nodes), Reached(old(View()), rank, id), time)
    {
      ghost var before := nodes.nodes;
      ghost var g := View();
      var t := nodes.Get(id);
      if t.None? {
        return Err(NodeNotFound(id));
      }
      StampedAdd(before, {}, time, id);
      assert before == Stamped(before, {}, time);
      nodes.nodes := nodes.nodes[id := t.value.(localTime := time)];
      r := Ok(());
      if !(t.value.Blend? && t.value.propagateTime) {
        assert {} + {id} == {id};
        ReachedNonPropagating(g, rank, id);
        return;
      }
      Spread(id, time, rank, before);
    }

    /// The `pending` queue loop of `set_time`, started on `id` after its
    /// own write.
    method Spread(id: NodeId, time: real, ghost rank: seq<nat>, ghost before: seq<Node<K>>)
      requires Ranked(Links(before), rank) && id < |before|
      requires nodes.nodes == Stamped(before, {id}, time)
      modifies nodes
      ensures nodes.nodes == Stamped(before, Reached(Links(before), rank, id), time)
    {
      ghost var g := Links(before);
      ghost var top := Top(rank);
      ghost var done: set<NodeId> := {id};
      var pending: seq<NodeId> := [id];
      assert Height(g, rank, id) < top;
      assert ReachedQ(g, rank, pending, top) == Reached(g, rank, id) + ReachedQ(g, rank, [], top);
      while pending != []
        invariant nodes.nodes == Stamped(before, done, time)
        invariant forall k :: 0 <= k < |pending| ==> Height(g, rank, pending[k]) < top
        invariant Reached(g, rank, id) == done + ReachedQ(g, rank, pending, top)
        decreases VisitsQ(g, rank, pending, top)
      {
        var q := pending[0];
        var rest := pending[1..];
        QueueStep(g, rank, id, done, pending, top);
        StampedLinks(before, done, time);
        if q < |before| {
          StampedAdd(before, done, time, q);
        } else {
          StampedMissing(before, done, time, q);
        }
        var forwarded := VisitQueued(q, time);
        pending := rest + forwarded;
        done := done + {q};
      }
    }

    /// One round of the queue loop: `q`, if it exists, gets the time, and
    /// the ids to queue next are handed back.
    method VisitQueued(q: NodeId, time: real) returns (forwarded: seq<NodeId>)
      modifies nodes
      ensures nodes.nodes == if q < old(|nodes.nodes|) then old(nodes.nodes)[q := old(nodes.nodes)[q].(localTime := time)] else old(nodes.nodes)
      ensures forwarded == Forwarded(old(View()), q)
    {
      forwarded := [];
      var found := nodes.Get(q);
      if found.Some? {
        var n := found.value;
        assert LinkOf(n) == View()[q];
        nodes.nodes := nodes.nodes[q := n.(localTime := time)];
        if n.Blend? && n.propagateTime {
          forwarded := Ids(Connected(n.inputs));
        }
      }
    }

    /// `evaluate`: clears the influences, then pops the explicit stack from
    /// the root with weight 1. The influences are exactly the
    /// `add_influence` calls of the depth-first walk.
    method Evaluate(ghost rank: seq<nat>)
      requires Ranked(View(), rank)
      modifies state
      ensures state.influences == Accumulate(map[], Contribs(View(), Walk(View(), rank, ROOT, 1.0)))
    {
      ghost var g := View();
      ghost var top := Top(rank);
      ghost var target := Accumulate(map[], Contribs(g, Walk(g, rank, ROOT, 1.0)));
      state.Reset();
      var stack: seq<(NodeId, real)> := [(ROOT, 1.0)];
      assert Height(g, rank, ROOT) < top;
      assert stack[..0] == [];
      assert Pending(g, rank, stack, top) == Walk(g, rank, ROOT, 1.0) + [];
      assert Walk(g, rank, ROOT, 1.0) + [] == Walk(g, rank, ROOT, 1.0);
      while stack != []
        invariant forall k :: 0 <= k < |stack| ==> Height(g, rank, stack[k].0) < top
        invariant Accumulate(state.influences, Contribs(g, Pending(g, rank, stack, top))) == target
        decreases |Pending(g, rank, stack, top)|
      {
        var current := stack[|stack| - 1];
        PopAccumulates(g, rank, stack, top, state.influences);
        stack := VisitTop(current, stack[..|stack| - 1]);
      }
    }

    /// The body of the `evaluate` loop for the popped entry `current`: a
    /// clip leaf adds its influence, a blend node pushes its inputs onto
    /// `stack`, a missing node does neither.
    method VisitTop(current: (NodeId, real), stack: seq<(NodeId, real)>) returns (r: seq<(NodeId, real)>)
      modifies state
      ensures state.influences == Visit(View(), old(state.influences), current)
      ensures r == stack + Pushed(View(), current.0, current.1)
    {
      r := stack;
      var found := nodes.Get(current.0);
      if found.Some? {
        assert View()[current.0] == LinkOf(found.value);
        match found.value
        case Clip(_, clip) =>
          state.AddInfluence(clip, current.1);
          assert Pushed(View(), current.0, current.1) == [];
        case Blend(_, inputs, _) =>
          r := PushInputs(stack, Connected(inputs), current.1);
      }
    }
  }

  /// The loop over the connected inputs of a popped node: each one whose
  /// cumulative weight is nonzero is pushed, in edge order.
  method PushInputs(stack: seq<(NodeId, real)>, es: seq<NodeInput>, w: real) returns (r: seq<(NodeId, real)>)
    ensures r == stack + PushedFrom(es, w)
  {
    r := stack;
    var k := 0;
    while k < |es|
      invariant k <= |es| && r == stack + PushedFrom(es[..k], w)
    {
      var input := es[k];
      var cumulative := input.weight * w;
      assert es[..k + 1][..k] == es[..k];
      if cumulative != 0.0 {
        r := r + [(input.nodeId, cumulative)];
      }
      k := k + 1;
    }
    assert es[..k] == es;
  }
}
