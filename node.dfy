/// The node arena of the blend graph: nodes addressed by dense `u16` ids,
/// blend nodes holding weighted input edges, clip leaves naming a clip.
module Node {
  import opened Wrappers
  import opened Numeric

  /// `NodeId(u16)`.
  type NodeId = U16

  /// `NodeId::ROOT`.
  const ROOT: NodeId := 0

  /// `NodeInput`: an edge from a blend node to one of its inputs.
  datatype NodeInput = NodeInput(nodeId: NodeId, connected: bool, weight: real)

  /// `NodeInput::new(node_id)`: a new edge is connected, with weight 1.
  function NewInput(id: NodeId): (e: NodeInput)
    ensures e.nodeId == id && e.connected && e.weight == 1.0
  {
    NodeInput(id, true, 1.0)
  }

  /// `set_weight`: only the weight changes.
  function SetWeight(e: NodeInput, weight: real): (r: NodeInput)
    ensures r.weight == weight
    ensures r.nodeId == e.nodeId && r.connected == e.connected
  {
    e.(weight := weight)
  }

  /// `disconnect` as written: it stores `connected = true`, so the edge
  /// stays connected whatever its state before.
  function Disconnect(e: NodeInput): (r: NodeInput)
    ensures r.connected
    ensures r.nodeId == e.nodeId && r.weight == e.weight
  {
    e.(connected := true)
  }

  /// `reconnect` as written: it stores `connected = false`.
  function Reconnect(e: NodeInput): (r: NodeInput)
    ensures !r.connected
    ensures r.nodeId == e.nodeId && r.weight == e.weight
  {
    e.(connected := false)
  }

  /// `disconnect` as its name intends: the edge stops being connected.
  /// Because the source swaps the two flags, this is the same update as
  /// `Reconnect` as written, and `ReconnectIntended` is `Disconnect`.
  function DisconnectIntended(e: NodeInput): (r: NodeInput)
    ensures !r.connected
    ensures r.nodeId == e.nodeId && r.weight == e.weight
  {
    e.(connected := false)
  }

  /// `reconnect` as its name intends.
  function ReconnectIntended(e: NodeInput): (r: NodeInput)
    ensures r.connected
    ensures r.nodeId == e.nodeId && r.weight == e.weight
  {
    e.(connected := true)
  }

  /// The edges a traversal follows: the connected ones, in order.
  function Connected(inputs: seq<NodeInput>): (r: seq<NodeInput>)
    ensures |r| <= |inputs|
    ensures forall k :: 0 <= k < |r| ==> r[k].connected && r[k] in inputs
    ensures forall e :: e in inputs && e.connected ==> e in r
  {
    if inputs == [] then []
    else (if inputs[0].connected then [inputs[0]] else []) + Connected(inputs[1..])
  }

  /// A fresh edge is followed by a traversal; an edge disconnected as the
  /// source does it is still followed, an edge disconnected as intended is not.
  lemma DisconnectedEdgeStillFollowed(inputs: seq<NodeInput>, k: nat)
    requires k < |inputs|
    ensures Disconnect(inputs[k]) in Connected(inputs[k := Disconnect(inputs[k])])
    ensures DisconnectIntended(inputs[k]) !in Connected(inputs[k := DisconnectIntended(inputs[k])])
    ensures NewInput(inputs[k].nodeId) in Connected(inputs + [NewInput(inputs[k].nodeId)])
  {
    assert inputs[k := Disconnect(inputs[k])][k] == Disconnect(inputs[k]);
    var added := inputs + [NewInput(inputs[k].nodeId)];
    assert added[|inputs|] == NewInput(inputs[k].nodeId);
  }

  /// The index of the first edge coming from `id`, if any (`iter().find`).
  function FindInput(inputs: seq<NodeInput>, id: NodeId): (r: Option<nat>)
    ensures r.None? <==> forall k :: 0 <= k < |inputs| ==> inputs[k].nodeId != id
    ensures r.Some? ==> r.value < |inputs| && inputs[r.value].nodeId == id
    ensures r.Some? ==> forall k :: 0 <= k < r.value ==> inputs[k].nodeId != id
  {
    if inputs == [] then None
    else if inputs[0].nodeId == id then Some(0)
    else
      match FindInput(inputs[1..], id)
      case None => None
      case Some(k) => Some(k + 1)
  }

  /// `Node`: a blend node with its inputs and its time-propagation flag, or
  /// a clip leaf. Both carry the local playback time `set_time` writes.
  datatype Node<K> =
    | Blend(localTime: real, inputs: seq<NodeInput>, propagateTime: bool)
    | Clip(localTime: real, clip: K)

  /// `Node::get_input_mut(input_id)`: a clip leaf has no inputs; a blend
  /// node gives its first edge from `input_id`.
  function GetInputMut<K>(node: Node<K>, id: NodeId): (r: Option<nat>)
    ensures node.Clip? ==> r.None?
    ensures node.Blend? ==> r == FindInput(node.inputs, id)
  {
    if node.Blend? then FindInput(node.inputs, id) else None
  }

  /// `GraphNodes`: the node arena.
  class GraphNodes<N> {
    var nodes: seq<N>

    /// An empty arena.
    constructor ()
      ensures nodes == []
    {
      nodes := [];
    }

    /// `GraphNodes::add`: the new node's id is the old node count, so ids
    /// are dense and never reused. The count must still fit in a `u16`.
    method Add(node: N) returns (id: NodeId)
      requires |nodes| < U16_LIMIT
      modifies this
      ensures id as int == old(|nodes|)
      ensures nodes == old(nodes) + [node]
    {
      id := |nodes|;
      nodes := nodes + [node];
    }

    /// `GraphNodes::get` (and the lookup of `get_mut`): a node exactly when
    /// the id is below the node count.
    function Get(id: NodeId): (r: Option<N>)
      reads this
      ensures r.Some? <==> id < |nodes|
      ensures r.Some? ==> r.value == nodes[id]
    {
      if id < |nodes| then Some(nodes[id]) else None
    }
  }
}
