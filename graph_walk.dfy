/// What the traversals of the blend graph see of a node: whether it
/// forwards `set_time`, its input edges and the clip it plays, if any. Both
/// graph versions are read through this view, and the walks of `set_time`
/// and `evaluate` are defined on it once.
///
/// `add_input` does not check for cycles, and both traversals run forever
/// on a cyclic graph. The model requires the graph to be acyclic, witnessed
/// by a ranking in which every edge goes from a node to a lower one.
module GraphWalk {
  import opened Wrappers
  import opened Numeric
  import opened Node
  import opened GraphState

  datatype Link<K> = Link(propagates: bool, inputs: seq<NodeInput>, clip: Option<K>)

  /// `rank` ranks the nodes so that every edge leads to a lower rank.
  predicate Ranked<K>(g: seq<Link<K>>, rank: seq<nat>) {
    |rank| == |g| &&
    forall i, j :: 0 <= i < |g| && 0 <= j < |g[i].inputs| && g[i].inputs[j].nodeId < |g| ==>
      rank[g[i].inputs[j].nodeId] < rank[i]
  }

  /// The termination measure of the walks: a missing node is lowest.
  function Height<K>(g: seq<Link<K>>, rank: seq<nat>, id: NodeId): nat
    requires |rank| == |g|
  {
    if id < |g| then rank[id] + 1 else 0
  }

  /// A height above every node.
  function Top(rank: seq<nat>): (r: nat)
    ensures forall k :: 0 <= k < |rank| ==> rank[k] + 1 < r
  {
    if rank == [] then 1
    else
      var rest := Top(rank[1..]);
      if rank[0] + 2 > rest then rank[0] + 2 else rest
  }

  lemma InputBelow<K>(g: seq<Link<K>>, rank: seq<nat>, id: NodeId, e: NodeInput)
    requires Ranked(g, rank) && id < |g| && e in g[id].inputs
    ensures Height(g, rank, e.nodeId) < Height(g, rank, id)
  {
    var j :| 0 <= j < |g[id].inputs| && g[id].inputs[j] == e;
  }

  // ---------------------------------------------------------------------
  // `set_time`: the breadth-first walk

  /// The ids of some edges, in order.
  function Ids(es: seq<NodeInput>): (r: seq<NodeId>)
    ensures |r| == |es| && forall k :: 0 <= k < |es| ==> r[k] == es[k].nodeId
  {
    seq(|es|, k requires 0 <= k < |es| => es[k].nodeId)
  }

  /// The nodes a visit of `id` queues: the connected inputs of a
  /// propagating node, nothing for any other node.
  function Forwarded<K>(g: seq<Link<K>>, id: NodeId): seq<NodeId> {
    if id < |g| && g[id].propagates then Ids(Connected(g[id].inputs)) else []
  }

  lemma ForwardedBelow<K>(g: seq<Link<K>>, rank: seq<nat>, id: NodeId)
    requires Ranked(g, rank)
    ensures forall k :: 0 <= k < |Forwarded(g, id)| ==> Height(g, rank, Forwarded(g, id)[k]) < Height(g, rank, id)
  {
    if id < |g| && g[id].propagates {
      var es := Connected(g[id].inputs);
      forall k | 0 <= k < |es|
        ensures Height(g, rank, es[k].nodeId) < Height(g, rank, id)
      {
        InputBelow(g, rank, id, es[k]);
      }
    }
  }

  /// The nodes `set_time` on `id` writes: `id` itself and, when it
  /// propagates, everything its connected inputs reach in turn.
  function Reached<K>(g: seq<Link<K>>, rank: seq<nat>, id: NodeId): set<NodeId>
    requires Ranked(g, rank)
    decreases Height(g, rank, id), 1, 0
  {
    ForwardedBelow(g, rank, id);
    {id} + ReachedQ(g, rank, Forwarded(g, id), Height(g, rank, id))
  }

  /// Everything the queued nodes reach.
  function ReachedQ<K>(g: seq<Link<K>>, rank: seq<nat>, q: seq<NodeId>, h: nat): set<NodeId>
    requires Ranked(g, rank) && forall k :: 0 <= k < |q| ==> Height(g, rank, q[k]) < h
    decreases h, 0, |q|
  {
    if q == [] then {} else Reached(g, rank, q[0]) + ReachedQ(g, rank, q[1..], h)
  }

  /// The number of visits the walk from `id` makes, revisits included.
  function Visits<K>(g: seq<Link<K>>, rank: seq<nat>, id: NodeId): nat
    requires Ranked(g, rank)
    decreases Height(g, rank, id), 1, 0
  {
    ForwardedBelow(g, rank, id);
    1 + VisitsQ(g, rank, Forwarded(g, id), Height(g, rank, id))
  }

  function VisitsQ<K>(g: seq<Link<K>>, rank: seq<nat>, q: seq<NodeId>, h: nat): nat
    requires Ranked(g, rank) && forall k :: 0 <= k < |q| ==> Height(g, rank, q[k]) < h
    decreases h, 0, |q|
  {
    if q == [] then 0 else Visits(g, rank, q[0]) + VisitsQ(g, rank, q[1..], h)
  }

  /// The bound carried by a queue does not change what it reaches.
  lemma {:induction false} QueueBoundIrrelevant<K>(g: seq<Link<K>>, rank: seq<nat>, q: seq<NodeId>, h1: nat, h2: nat)
    requires Ranked(g, rank)
    requires forall k :: 0 <= k < |q| ==> Height(g, rank, q[k]) < h1 && Height(g, rank, q[k]) < h2
    ensures ReachedQ(g, rank, q, h1) == ReachedQ(g, rank, q, h2)
    ensures VisitsQ(g, rank, q, h1) == VisitsQ(g, rank, q, h2)
    decreases |q|
  {
    if q != [] {
      QueueBoundIrrelevant(g, rank, q[1..], h1, h2);
    }
  }

  /// Extending a queue adds what the new entries reach and their visits.
  lemma {:induction false} QueueAppend<K>(g: seq<Link<K>>, rank: seq<nat>, a: seq<NodeId>, b: seq<NodeId>, h: nat)
    requires Ranked(g, rank)
    requires forall k :: 0 <= k < |a| ==> Height(g, rank, a[k]) < h
    requires forall k :: 0 <= k < |b| ==> Height(g, rank, b[k]) < h
    ensures ReachedQ(g, rank, a + b, h) == ReachedQ(g, rank, a, h) + ReachedQ(g, rank, b, h)
    ensures VisitsQ(g, rank, a + b, h) == VisitsQ(g, rank, a, h) + VisitsQ(g, rank, b, h)
    decreases |a|
  {
    if a == [] {
      assert a + b == b;
    } else {
      assert (a + b)[1..] == a[1..] + b;
      QueueAppend(g, rank, a[1..], b, h);
    }
  }

  /// Dequeuing `q` and queueing what it forwards keeps the queue's reach,
  /// apart from `q` itself, and takes one visit off the count.
  lemma DequeueStep<K>(g: seq<Link<K>>, rank: seq<nat>, q: NodeId, rest: seq<NodeId>, h: nat)
    requires Ranked(g, rank) && Height(g, rank, q) < h
    requires forall k :: 0 <= k < |rest| ==> Height(g, rank, rest[k]) < h
    ensures forall k :: 0 <= k < |Forwarded(g, q)| ==> Height(g, rank, Forwarded(g, q)[k]) < h
    ensures ReachedQ(g, rank, [q] + rest, h) == {q} + ReachedQ(g, rank, rest + Forwarded(g, q), h)
    ensures VisitsQ(g, rank, [q] + rest, h) == 1 + VisitsQ(g, rank, rest + Forwarded(g, q), h)
  {
    var kids := Forwarded(g, q);
    ForwardedBelow(g, rank, q);
    assert ([q] + rest)[1..] == rest;
    QueueAppend(g, rank, rest, kids, h);
    QueueBoundIrrelevant(g, rank, kids, h, Height(g, rank, q));
  }

  /// One round of the queue loop, on the sets: the dequeued node joins
  /// the written ones, the queue's reach shrinks by it, and one visit fewer
  /// is left.
  lemma QueueStep<K>(g: seq<Link<K>>, rank: seq<nat>, id: NodeId, done: set<NodeId>, pending: seq<NodeId>, h: nat)
    requires Ranked(g, rank) && pending != []
    requires forall k :: 0 <= k < |pending| ==> Height(g, rank, pending[k]) < h
    requires Reached(g, rank, id) == done + ReachedQ(g, rank, pending, h)
    ensures var next := pending[1..] + Forwarded(g, pending[0]);
      (forall k :: 0 <= k < |next| ==> Height(g, rank, next[k]) < h) &&
      Reached(g, rank, id) == (done + {pending[0]}) + ReachedQ(g, rank, next, h) &&
      VisitsQ(g, rank, next, h) < VisitsQ(g, rank, pending, h)
  {
    var q := pending[0];
    var rest := pending[1..];
    HeadTail(pending);
    DequeueStep(g, rank, q, rest, h);
    UnionRegroup(done, {q}, ReachedQ(g, rank, rest + Forwarded(g, q), h));
  }

  lemma HeadTail<T>(s: seq<T>)
    requires s != []
    ensures s == [s[0]] + s[1..]
  {
  }

  lemma UnionRegroup<T>(a: set<T>, b: set<T>, c: set<T>)
    ensures a + (b + c) == (a + b) + c
  {
  }

  /// A queue reaches what one of its entries reaches.
  lemma {:induction false} ReachedQMember<K>(g: seq<Link<K>>, rank: seq<nat>, q: seq<NodeId>, h: nat, x: NodeId)
    requires Ranked(g, rank) && forall k :: 0 <= k < |q| ==> Height(g, rank, q[k]) < h
    ensures x in ReachedQ(g, rank, q, h) <==> exists k :: 0 <= k < |q| && x in Reached(g, rank, q[k])
    decreases |q|
  {
    if q != [] {
      ReachedQMember(g, rank, q[1..], h, x);
      if x in ReachedQ(g, rank, q[1..], h) {
        var k :| 0 <= k < |q[1..]| && x in Reached(g, rank, q[1..][k]);
        assert q[k + 1] == q[1..][k];
      }
      if exists k :: 0 <= k < |q| && x in Reached(g, rank, q[k]) {
        var k :| 0 <= k < |q| && x in Reached(g, rank, q[k]);
        if k > 0 {
          assert q[1..][k - 1] == q[k];
        }
      }
    }
  }

  /// What a reached node reaches is reached too.
  lemma {:induction false} ReachedTransitive<K>(g: seq<Link<K>>, rank: seq<nat>, id: NodeId, m: NodeId)
    requires Ranked(g, rank) && m in Reached(g, rank, id)
    ensures Reached(g, rank, m) <= Reached(g, rank, id)
    decreases Height(g, rank, id)
  {
    if m != id {
      ForwardedBelow(g, rank, id);
      var fw := Forwarded(g, id);
      var h := Height(g, rank, id);
      ReachedQMember(g, rank, fw, h, m);
      var k :| 0 <= k < |fw| && m in Reached(g, rank, fw[k]);
      ReachedTransitive(g, rank, fw[k], m);
      forall x | x in Reached(g, rank, fw[k])
        ensures x in Reached(g, rank, id)
      {
        ReachedQMember(g, rank, fw, h, x);
      }
    }
  }

  /// The nodes `set_time` writes are closed under forwarding: a connected
  /// input of a reached propagating node is reached.
  lemma ReachedClosed<K>(g: seq<Link<K>>, rank: seq<nat>, id: NodeId, n: NodeId, e: NodeInput)
    requires Ranked(g, rank) && n in Reached(g, rank, id)
    requires n < |g| && g[n].propagates && e in g[n].inputs && e.connected
    ensures e.nodeId in Reached(g, rank, id)
  {
    ReachedTransitive(g, rank, id, n);
    ForwardedBelow(g, rank, n);
    var es := Connected(g[n].inputs);
    var fw := Forwarded(g, n);
    var j :| 0 <= j < |es| && es[j] == e;
    assert fw[j] == e.nodeId;
    ReachedQMember(g, rank, fw, Height(g, rank, n), e.nodeId);
  }

  /// Every node `set_time` writes, apart from `id`, is forwarded by a
  /// written node: nothing else is touched.
  lemma {:induction false} ReachedSupported<K>(g: seq<Link<K>>, rank: seq<nat>, id: NodeId, x: NodeId)
    requires Ranked(g, rank) && x in Reached(g, rank, id) && x != id
    ensures exists n :: n in Reached(g, rank, id) && x in Forwarded(g, n)
    decreases Height(g, rank, id)
  {
    ForwardedBelow(g, rank, id);
    var fw := Forwarded(g, id);
    var h := Height(g, rank, id);
    ReachedQMember(g, rank, fw, h, x);
    var k :| 0 <= k < |fw| && x in Reached(g, rank, fw[k]);
    if x == fw[k] {
      assert x in Forwarded(g, id);
    } else {
      ReachedSupported(g, rank, fw[k], x);
      var n :| n in Reached(g, rank, fw[k]) && x in Forwarded(g, n);
      ReachedQMember(g, rank, fw, h, n);
    }
  }

  // ---------------------------------------------------------------------
  // `evaluate`: the depth-first walk

  /// The traversal entries `evaluate` pushes for the edges `es` of a node
  /// reached with cumulative weight `w`: each edge with a nonzero product
  /// of weights, in edge order.
  function PushedFrom(es: seq<NodeInput>, w: real): (r: seq<(NodeId, real)>)
    ensures forall k :: 0 <= k < |r| ==> exists j :: 0 <= j < |es| && es[j].nodeId == r[k].0
    ensures forall k :: 0 <= k < |r| ==> r[k].1 != 0.0
  {
    if es == [] then []
    else
      var e := es[|es| - 1];
      var prefix := PushedFrom(es[..|es| - 1], w);
      assert forall k :: 0 <= k < |prefix| ==> exists j :: 0 <= j < |es| && es[j].nodeId == prefix[k].0 by {
        forall k | 0 <= k < |prefix|
          ensures exists j :: 0 <= j < |es| && es[j].nodeId == prefix[k].0
        {
          var j :| 0 <= j < |es| - 1 && es[..|es| - 1][j].nodeId == prefix[k].0;
          assert es[j].nodeId == prefix[k].0;
        }
      }
      prefix + (if e.weight * w != 0.0 then [(e.nodeId, e.weight * w)] else [])
  }

  /// The entries pushed when node `id` is visited with weight `w`; a
  /// missing node pushes nothing.
  function Pushed<K>(g: seq<Link<K>>, id: NodeId, w: real): seq<(NodeId, real)> {
    if id < |g| then PushedFrom(Connected(g[id].inputs), w) else []
  }

  lemma PushedBelow<K>(g: seq<Link<K>>, rank: seq<nat>, id: NodeId, w: real)
    requires Ranked(g, rank)
    ensures forall k :: 0 <= k < |Pushed(g, id, w)| ==> Height(g, rank, Pushed(g, id, w)[k].0) < Height(g, rank, id)
  {
    if id < |g| {
      var es := Connected(g[id].inputs);
      var p := Pushed(g, id, w);
      forall k | 0 <= k < |p|
        ensures Height(g, rank, p[k].0) < Height(g, rank, id)
      {
        var j :| 0 <= j < |es| && es[j].nodeId == p[k].0;
        InputBelow(g, rank, id, es[j]);
      }
    }
  }

  /// The entries the explicit stack pops, in order, starting from `id`
  /// with weight `w`: the entry itself, then what its pushed entries walk,
  /// the last pushed first.
  function Walk<K>(g: seq<Link<K>>, rank: seq<nat>, id: NodeId, w: real): seq<(NodeId, real)>
    requires Ranked(g, rank)
    decreases Height(g, rank, id), 1, 0
  {
    PushedBelow(g, rank, id, w);
    [(id, w)] + Pending(g, rank, Pushed(g, id, w), Height(g, rank, id))
  }

  /// The entries a stack still pops: the top entry's walk first.
  function Pending<K>(g: seq<Link<K>>, rank: seq<nat>, stack: seq<(NodeId, real)>, h: nat): seq<(NodeId, real)>
    requires Ranked(g, rank) && forall k :: 0 <= k < |stack| ==> Height(g, rank, stack[k].0) < h
    decreases h, 0, |stack|
  {
    if stack == [] then []
    else Walk(g, rank, stack[|stack| - 1].0, stack[|stack| - 1].1) + Pending(g, rank, stack[..|stack| - 1], h)
  }

  /// The `add_influence` calls a sequence of popped entries makes: one
  /// for each entry at a clip leaf, with the entry's cumulative weight.
  function Contribs<K>(g: seq<Link<K>>, entries: seq<(NodeId, real)>): seq<(K, real)> {
    if entries == [] then []
    else
      var (id, w) := entries[0];
      (if id < |g| && g[id].clip.Some? then [(g[id].clip.value, w)] else []) + Contribs(g, entries[1..])
  }

  lemma {:induction false} ContribsAppend<K>(g: seq<Link<K>>, a: seq<(NodeId, real)>, b: seq<(NodeId, real)>)
    ensures Contribs(g, a + b) == Contribs(g, a) + Contribs(g, b)
    decreases |a|
  {
    if a == [] {
      assert a + b == b;
    } else {
      assert (a + b)[1..] == a[1..] + b;
      ContribsAppend(g, a[1..], b);
    }
  }

  lemma {:induction false} PendingBoundIrrelevant<K>(g: seq<Link<K>>, rank: seq<nat>, s: seq<(NodeId, real)>, h1: nat, h2: nat)
    requires Ranked(g, rank)
    requires forall k :: 0 <= k < |s| ==> Height(g, rank, s[k].0) < h1 && Height(g, rank, s[k].0) < h2
    ensures Pending(g, rank, s, h1) == Pending(g, rank, s, h2)
    decreases |s|
  {
    if s != [] {
      PendingBoundIrrelevant(g, rank, s[..|s| - 1], h1, h2);
    }
  }

  /// Pushing entries onto a stack: they are popped, and walked, before
  /// what was below them.
  lemma {:induction false} PendingAppend<K>(g: seq<Link<K>>, rank: seq<nat>, a: seq<(NodeId, real)>, b: seq<(NodeId, real)>, h: nat)
    requires Ranked(g, rank)
    requires forall k :: 0 <= k < |a| ==> Height(g, rank, a[k].0) < h
    requires forall k :: 0 <= k < |b| ==> Height(g, rank, b[k].0) < h
    ensures Pending(g, rank, a + b, h) == Pending(g, rank, b, h) + Pending(g, rank, a, h)
    decreases |b|
  {
    if b == [] {
      assert a + b == a;
    } else {
      var n := |b| - 1;
      assert (a + b)[..|a + b| - 1] == a + b[..n];
      assert (a + b)[|a + b| - 1] == b[n];
      PendingAppend(g, rank, a, b[..n], h);
    }
  }

  /// Popping the top entry and pushing what it pushes keeps every entry
  /// below the bound.
  lemma PopBelow<K>(g: seq<Link<K>>, rank: seq<nat>, stack: seq<(NodeId, real)>, h: nat)
    requires Ranked(g, rank) && stack != []
    requires forall k :: 0 <= k < |stack| ==> Height(g, rank, stack[k].0) < h
    ensures var top := stack[|stack| - 1];
      var next := stack[..|stack| - 1] + Pushed(g, top.0, top.1);
      forall k :: 0 <= k < |next| ==> Height(g, rank, next[k].0) < h
  {
    var top := stack[|stack| - 1];
    var rest := stack[..|stack| - 1];
    var kids := Pushed(g, top.0, top.1);
    var next := rest + kids;
    PushedBelow(g, rank, top.0, top.1);
    forall k | 0 <= k < |next|
      ensures Height(g, rank, next[k].0) < h
    {
      if k < |rest| {
        assert next[k] == stack[k];
      } else {
        assert next[k] == kids[k - |rest|];
      }
    }
  }

  /// Popping the top entry and pushing what it pushes leaves the same
  /// walk ahead, minus the popped entry.
  lemma PopStep<K>(g: seq<Link<K>>, rank: seq<nat>, stack: seq<(NodeId, real)>, h: nat)
    requires Ranked(g, rank) && stack != []
    requires forall k :: 0 <= k < |stack| ==> Height(g, rank, stack[k].0) < h
    requires var top := stack[|stack| - 1];
      var next := stack[..|stack| - 1] + Pushed(g, top.0, top.1);
      forall k :: 0 <= k < |next| ==> Height(g, rank, next[k].0) < h
    ensures var top := stack[|stack| - 1];
      var next := stack[..|stack| - 1] + Pushed(g, top.0, top.1);
      Pending(g, rank, stack, h) == [top] + Pending(g, rank, next, h)
  {
    var top := stack[|stack| - 1];
    var rest := stack[..|stack| - 1];
    var kids := Pushed(g, top.0, top.1);
    PendingLast(g, rank, stack, h);
    WalkWithin(g, rank, top.0, top.1, h);
    PendingAppend(g, rank, rest, kids, h);
    ConsAssoc(Pending(g, rank, stack, h), Walk(g, rank, top.0, top.1), top,
              Pending(g, rank, kids, h), Pending(g, rank, rest, h), Pending(g, rank, rest + kids, h));
  }

  lemma PendingLast<K>(g: seq<Link<K>>, rank: seq<nat>, stack: seq<(NodeId, real)>, h: nat)
    requires Ranked(g, rank) && stack != []
    requires forall k :: 0 <= k < |stack| ==> Height(g, rank, stack[k].0) < h
    ensures var top := stack[|stack| - 1];
      Pending(g, rank, stack, h) == Walk(g, rank, top.0, top.1) + Pending(g, rank, stack[..|stack| - 1], h)
  {
  }

  /// The walk from `id` under any bound above it.
  lemma WalkWithin<K>(g: seq<Link<K>>, rank: seq<nat>, id: NodeId, w: real, h: nat)
    requires Ranked(g, rank) && Height(g, rank, id) < h
    ensures forall k :: 0 <= k < |Pushed(g, id, w)| ==> Height(g, rank, Pushed(g, id, w)[k].0) < h
    ensures Walk(g, rank, id, w) == [(id, w)] + Pending(g, rank, Pushed(g, id, w), h)
  {
    PushedBelow(g, rank, id, w);
    PendingBoundIrrelevant(g, rank, Pushed(g, id, w), h, Height(g, rank, id));
  }

  /// Regrouping `([top] + above) + below`, on plain sequences.
  lemma ConsAssoc<T>(p: seq<T>, w: seq<T>, top: T, above: seq<T>, below: seq<T>, n: seq<T>)
    requires p == w + below && w == [top] + above && n == above + below
    ensures p == [top] + n
  {
    assert ([top] + above) + below == [top] + (above + below);
  }

  /// The influence a popped entry adds: its weight, to the clip its node
  /// plays, if any.
  function Visit<K>(g: seq<Link<K>>, m: map<K, real>, entry: (NodeId, real)): map<K, real> {
    if entry.0 < |g| && g[entry.0].clip.Some? then AddInfluenceTo(m, g[entry.0].clip.value, entry.1) else m
  }

  /// One round of the `evaluate` loop: popping the top entry, adding its
  /// influence and pushing its inputs leaves the same influences to come.
  lemma PopAccumulates<K>(g: seq<Link<K>>, rank: seq<nat>, stack: seq<(NodeId, real)>, h: nat, m: map<K, real>)
    requires Ranked(g, rank) && stack != []
    requires forall k :: 0 <= k < |stack| ==> Height(g, rank, stack[k].0) < h
    ensures var top := stack[|stack| - 1];
      var next := stack[..|stack| - 1] + Pushed(g, top.0, top.1);
      (forall k :: 0 <= k < |next| ==> Height(g, rank, next[k].0) < h) &&
      |Pending(g, rank, next, h)| < |Pending(g, rank, stack, h)| &&
      Accumulate(m, Contribs(g, Pending(g, rank, stack, h))) ==
        Accumulate(Visit(g, m, top), Contribs(g, Pending(g, rank, next, h)))
  {
    var top := stack[|stack| - 1];
    var next := stack[..|stack| - 1] + Pushed(g, top.0, top.1);
    PopBelow(g, rank, stack, h);
    PopStep(g, rank, stack, h);
    var rest := Contribs(g, Pending(g, rank, next, h));
    ContribsAppend(g, [top], Pending(g, rank, next, h));
    if top.0 < |g| && g[top.0].clip.Some? {
      var own := (g[top.0].clip.value, top.1);
      assert Contribs(g, [top]) == [own];
      assert ([own] + rest)[1..] == rest;
    } else {
      assert Contribs(g, [top]) == [];
      assert [] + rest == rest;
    }
  }

  // ---------------------------------------------------------------------
  // The influence of a clip, defined over the paths from a node

  /// The influence `c` receives from node `id` reached with weight `w`:
  /// `w` if the node plays `c`, plus what every followed edge passes on
  /// with its weight multiplied in. Summed out, it is the sum over the
  /// followed paths to leaves playing `c` of the products of their edge
  /// weights, times `w`.
  function PathSum<K(==)>(g: seq<Link<K>>, rank: seq<nat>, c: K, id: NodeId, w: real): real
    requires Ranked(g, rank)
    decreases Height(g, rank, id), 1, 0
  {
    PushedBelow(g, rank, id, w);
    (if id < |g| && g[id].clip == Some(c) then w else 0.0)
      + PathSumQ(g, rank, c, Pushed(g, id, w), Height(g, rank, id))
  }

  function PathSumQ<K(==)>(g: seq<Link<K>>, rank: seq<nat>, c: K, es: seq<(NodeId, real)>, h: nat): real
    requires Ranked(g, rank) && forall k :: 0 <= k < |es| ==> Height(g, rank, es[k].0) < h
    decreases h, 0, |es|
  {
    if es == [] then 0.0
    else PathSumQ(g, rank, c, es[..|es| - 1], h) + PathSum(g, rank, c, es[|es| - 1].0, es[|es| - 1].1)
  }

  /// Node `id` reached with weight `w` leads to a leaf playing `c` along
  /// followed edges.
  predicate Reaches<K(==)>(g: seq<Link<K>>, rank: seq<nat>, c: K, id: NodeId, w: real)
    requires Ranked(g, rank)
    decreases Height(g, rank, id), 1, 0
  {
    PushedBelow(g, rank, id, w);
    (id < |g| && g[id].clip == Some(c)) || ReachesQ(g, rank, c, Pushed(g, id, w), Height(g, rank, id))
  }

  predicate ReachesQ<K(==)>(g: seq<Link<K>>, rank: seq<nat>, c: K, es: seq<(NodeId, real)>, h: nat)
    requires Ranked(g, rank) && forall k :: 0 <= k < |es| ==> Height(g, rank, es[k].0) < h
    decreases h, 0, |es|
  {
    es != [] && (ReachesQ(g, rank, c, es[..|es| - 1], h) || Reaches(g, rank, c, es[|es| - 1].0, es[|es| - 1].1))
  }

  /// The `add_influence` calls of the walk from `id` name `c` exactly when
  /// `id` reaches a leaf playing `c`, and they add up to the path sum.
  lemma {:induction false} WalkSums<K>(g: seq<Link<K>>, rank: seq<nat>, c: K, id: NodeId, w: real)
    requires Ranked(g, rank)
    ensures Mentions(c, Contribs(g, Walk(g, rank, id, w))) <==> Reaches(g, rank, c, id, w)
    ensures SumFor(c, Contribs(g, Walk(g, rank, id, w))) == PathSum(g, rank, c, id, w)
    decreases Height(g, rank, id), 1, 0
  {
    PushedBelow(g, rank, id, w);
    var h := Height(g, rank, id);
    var kids := Pushed(g, id, w);
    var rest := Pending(g, rank, kids, h);
    var own := Contribs(g, [(id, w)]);
    WalkUnfold(g, rank, c, id, w);
    ContribsAppend(g, [(id, w)], rest);
    OwnContrib(g, c, id, w);
    MentionsAppend(c, own, Contribs(g, rest));
    SumForAppend(c, own, Contribs(g, rest));
    PendingSums(g, rank, c, kids, h);
  }

  /// One step of each of `Walk`, `Reaches` and `PathSum` from `id`.
  lemma WalkUnfold<K>(g: seq<Link<K>>, rank: seq<nat>, c: K, id: NodeId, w: real)
    requires Ranked(g, rank)
    ensures forall k :: 0 <= k < |Pushed(g, id, w)| ==> Height(g, rank, Pushed(g, id, w)[k].0) < Height(g, rank, id)
    ensures Walk(g, rank, id, w) == [(id, w)] + Pending(g, rank, Pushed(g, id, w), Height(g, rank, id))
    ensures Reaches(g, rank, c, id, w) <==>
      (id < |g| && g[id].clip == Some(c)) || ReachesQ(g, rank, c, Pushed(g, id, w), Height(g, rank, id))
    ensures PathSum(g, rank, c, id, w) ==
      (if id < |g| && g[id].clip == Some(c) then w else 0.0) + PathSumQ(g, rank, c, Pushed(g, id, w), Height(g, rank, id))
  {
    PushedBelow(g, rank, id, w);
  }

  /// What the popped entry itself contributes to `c`.
  lemma OwnContrib<K>(g: seq<Link<K>>, c: K, id: NodeId, w: real)
    ensures Mentions(c, Contribs(g, [(id, w)])) <==> id < |g| && g[id].clip == Some(c)
    ensures SumFor(c, Contribs(g, [(id, w)])) == if id < |g| && g[id].clip == Some(c) then w else 0.0
  {
    var one := [(id, w)];
    assert one[0] == (id, w) && one[1..] == [];
    var mine := if id < |g| && g[id].clip.Some? then [(g[id].clip.value, w)] else [];
    assert Contribs(g, one) == mine + Contribs(g, []);
    assert mine + [] == mine;
    if mine != [] {
      assert mine[1..] == [] && mine[0].0 == g[id].clip.value;
    }
  }

  lemma {:induction false} PendingSums<K>(g: seq<Link<K>>, rank: seq<nat>, c: K, s: seq<(NodeId, real)>, h: nat)
    requires Ranked(g, rank) && forall k :: 0 <= k < |s| ==> Height(g, rank, s[k].0) < h
    ensures Mentions(c, Contribs(g, Pending(g, rank, s, h))) <==> ReachesQ(g, rank, c, s, h)
    ensures SumFor(c, Contribs(g, Pending(g, rank, s, h))) == PathSumQ(g, rank, c, s, h)
    decreases h, 0, |s|
  {
    if s != [] {
      var top := s[|s| - 1];
      var a := Walk(g, rank, top.0, top.1);
      var b := Pending(g, rank, s[..|s| - 1], h);
      ContribsAppend(g, a, b);
      MentionsAppend(c, Contribs(g, a), Contribs(g, b));
      SumForAppend(c, Contribs(g, a), Contribs(g, b));
      WalkSums(g, rank, c, top.0, top.1);
      PendingSums(g, rank, c, s[..|s| - 1], h);
    }
  }

  /// The influences the walk from the root leaves: a clip has an entry
  /// exactly when a followed path leads from the root to a leaf playing it,
  /// and the entry is the sum over those paths of the products of their
  /// edge weights.
  lemma RootInfluence<K>(g: seq<Link<K>>, rank: seq<nat>, c: K)
    requires Ranked(g, rank)
    ensures var m := Accumulate(map[], Contribs(g, Walk(g, rank, ROOT, 1.0)));
      (c in m <==> Reaches(g, rank, c, ROOT, 1.0)) &&
      (c in m ==> m[c] == PathSum(g, rank, c, ROOT, 1.0))
  {
    AccumulateSums(map[], Contribs(g, Walk(g, rank, ROOT, 1.0)), c);
    WalkSums(g, rank, c, ROOT, 1.0);
  }
}
