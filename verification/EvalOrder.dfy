/** The order in which nodes are evaluated: depth-first from the targets,
    upstream nodes first. Works on any graph, and reports a cycle if there is
    one upstream of a target. */
module EvalOrder {
  import opened Prelude
  import opened GraphModel

  // ----- Edges into a node, by port -----

  function PlacedByPort(sorted: seq<Edge>, e: Edge): (r: seq<Edge>)
    ensures forall x :: x in r <==> x in sorted || x == e
  {
    if sorted == [] then [e]
    else
      var n := |sorted| - 1;
      assert forall x :: x in sorted <==> x in sorted[..n] || x == sorted[n];
      if sorted[n].toPort <= e.toPort then sorted + [e] else PlacedByPort(sorted[..n], e) + [sorted[n]]
  }

  /** The edges into `id`, in a stable order of their ports. */
  function IncomingByPort(edges: seq<Edge>, id: NodeId): (r: seq<Edge>)
    ensures forall e :: e in r <==> e in edges && e.to == id
  {
    if edges == [] then []
    else
      var n := |edges| - 1;
      assert forall x :: x in edges <==> x in edges[..n] || x == edges[n];
      var before := IncomingByPort(edges[..n], id);
      if edges[n].to == id then PlacedByPort(before, edges[n]) else before
  }

  predicate ByPort(edges: seq<Edge>) {
    forall i, j :: 0 <= i < j < |edges| ==> edges[i].toPort <= edges[j].toPort
  }

  lemma {:induction false} PlacingKeepsPorts(sorted: seq<Edge>, e: Edge)
    requires ByPort(sorted)
    ensures ByPort(PlacedByPort(sorted, e))
  {
    if sorted != [] && sorted[|sorted| - 1].toPort > e.toPort {
      var n := |sorted| - 1;
      PlacingKeepsPorts(sorted[..n], e);
      var r := PlacedByPort(sorted[..n], e);
      forall i | 0 <= i < |r|
        ensures r[i].toPort <= sorted[n].toPort
      {
        assert r[i] in r;
      }
      hide PlacedByPort;
    }
  }

  lemma {:induction false} PlacingKeepsAll(sorted: seq<Edge>, e: Edge)
    ensures multiset(PlacedByPort(sorted, e)) == multiset(sorted) + multiset{e}
  {
    if sorted != [] {
      var n := |sorted| - 1;
      PlacingKeepsAll(sorted[..n], e);
      assert sorted == sorted[..n] + [sorted[n]];
    }
  }

  /** A node's inputs are visited in the order of its ports, each edge into it once. */
  lemma {:induction false} InputsByPort(edges: seq<Edge>, id: NodeId)
    ensures ByPort(IncomingByPort(edges, id))
    ensures forall e :: multiset(IncomingByPort(edges, id))[e] == if e.to == id then multiset(edges)[e] else 0
  {
    if edges != [] {
      var n := |edges| - 1;
      InputsByPort(edges[..n], id);
      assert edges == edges[..n] + [edges[n]];
      PlacingKeepsPorts(IncomingByPort(edges[..n], id), edges[n]);
      PlacingKeepsAll(IncomingByPort(edges[..n], id), edges[n]);
    }
  }

  // ----- The walk -----

  /** What the walk has completed so far, and in which order. */
  datatype Walk = Walk(visited: set<NodeId>, order: seq<NodeId>)

  function Ids(nodes: seq<Node>): (r: set<NodeId>)
    ensures forall id :: id in r <==> FindNode(nodes, id).Some?
  {
    if nodes == [] then {} else {nodes[0].id} + Ids(nodes[1..])
  }

  function Visit(g: GraphState, id: NodeId, visiting: set<NodeId>, w: Walk): Result<Walk, NodeId>
    decreases |Ids(g.nodes) - visiting|, 0, 0
  {
    if id in w.visited || FindNode(g.nodes, id).None? then Ok(w)
    else if id in visiting then Err(id)
    else
      FewerLeft(Ids(g.nodes), visiting, id);
      match VisitAll(g, IncomingByPort(g.edges, id), visiting + {id}, w)
      case Err(n) => Err(n)
      case Ok(after) => Ok(Walk(after.visited + {id}, after.order + [id]))
  }

  function VisitAll(g: GraphState, edges: seq<Edge>, visiting: set<NodeId>, w: Walk): Result<Walk, NodeId>
    decreases |Ids(g.nodes) - visiting|, 1, |edges|
  {
    if edges == [] then Ok(w)
    else
      match VisitAll(g, edges[..|edges| - 1], visiting, w)
      case Err(n) => Err(n)
      case Ok(after) => Visit(g, edges[|edges| - 1].from, visiting, after)
  }

  lemma FewerLeft(all: set<NodeId>, visiting: set<NodeId>, id: NodeId)
    requires id in all && id !in visiting
    ensures |all - (visiting + {id})| < |all - visiting|
  {
    SubsetIsSmaller(all - (visiting + {id}), all - visiting);
  }

  function Order(g: GraphState, targets: seq<NodeId>): Result<Walk, NodeId> {
    if targets == [] then Ok(Walk({}, []))
    else
      match Order(g, targets[..|targets| - 1])
      case Err(n) => Err(n)
      case Ok(w) => Visit(g, targets[|targets| - 1], {}, w)
  }

  // ----- Correctness -----

  /** Edges whose source exists; the walk ignores the others. */
  ghost function LiveEdges(nodes: seq<Node>, edges: seq<Edge>): (r: seq<Edge>)
    ensures forall e :: e in r <==> e in edges && FindNode(nodes, e.from).Some?
  {
    if edges == [] then []
    else
      var n := |edges| - 1;
      assert forall x :: x in edges <==> x in edges[..n] || x == edges[n];
      var before := LiveEdges(nodes, edges[..n]);
      if FindNode(nodes, edges[n].from).Some? then before + [edges[n]] else before
  }

  ghost function Live(g: GraphState): seq<Edge> {
    LiveEdges(g.nodes, g.edges)
  }

  ghost predicate OnCycle(g: GraphState, id: NodeId) {
    exists next :: HasEdge(Live(g), id, next) && Reach(Live(g), next, id)
  }

  /** `v` is strictly downstream of `id`. */
  ghost predicate Below(g: GraphState, id: NodeId, v: NodeId) {
    exists next :: HasEdge(Live(g), id, next) && Reach(Live(g), next, v)
  }

  /** Nodes being visited are not completed. */
  ghost predicate Apart(visiting: set<NodeId>, w: Walk) {
    forall v :: v in visiting ==> v !in w.visited
  }

  /** `id` is the existing node `t`, or feeds into it. */
  ghost predicate Upstream(g: GraphState, id: NodeId, t: NodeId) {
    FindNode(g.nodes, t).Some? && Reach(Live(g), id, t)
  }

  /** Every node is listed once, after everything it reads. */
  ghost predicate UpstreamFirst(g: GraphState, order: seq<NodeId>) {
    order != [] ==>
      var n := |order| - 1;
      && UpstreamFirst(g, order[..n])
      && order[n] !in order[..n]
      && forall e :: e in Live(g) && e.to == order[n] ==> e.from in order[..n]
  }

  ghost predicate Good(g: GraphState, w: Walk) {
    && (forall id :: id in w.visited <==> id in w.order)
    && (forall id :: id in w.order ==> FindNode(g.nodes, id).Some?)
    && UpstreamFirst(g, w.order)
  }

  lemma LiveEdge(g: GraphState, e: Edge)
    ensures e in Live(g) <==> e in g.edges && FindNode(g.nodes, e.from).Some?
  {
  }

  lemma AppendedIsGood(g: GraphState, w: Walk, id: NodeId)
    requires Good(g, w) && id !in w.visited && FindNode(g.nodes, id).Some?
    requires forall e :: e in Live(g) && e.to == id ==> e.from in w.visited
    ensures Good(g, Walk(w.visited + {id}, w.order + [id]))
  {
    assert (w.order + [id])[..|w.order|] == w.order;
  }

  /** Position by position. */
  lemma {:induction false} ListedOnceAfterInputs(g: GraphState, order: seq<NodeId>, j: nat)
    requires UpstreamFirst(g, order) && j < |order|
    ensures forall i :: 0 <= i < j ==> order[i] != order[j]
    ensures forall e :: e in Live(g) && e.to == order[j] ==> e.from in order[..j]
  {
    var n := |order| - 1;
    if j < n {
      ListedOnceAfterInputs(g, order[..n], j);
      assert order[..n][..j] == order[..j];
      assert forall i :: 0 <= i < j ==> order[..n][i] == order[i];
    } else {
      assert forall i :: 0 <= i < j ==> order[i] in order[..n];
    }
  }

  /** What a visit promises about the walk before and after it. */
  ghost predicate Visited(g: GraphState, roots: set<NodeId>, w: Walk, r: Result<Walk, NodeId>) {
    match r
    case Ok(after) =>
      && Good(g, after)
      && w.visited <= after.visited
      && (forall id :: id in roots && FindNode(g.nodes, id).Some? ==> id in after.visited)
      && (forall id :: id in after.visited && id !in w.visited ==>
           exists root :: root in roots && Upstream(g, id, root))
    case Err(n) =>
      OnCycle(g, n) && exists root :: root in roots && Upstream(g, n, root)
  }

  /** The same for the inputs of `to`. */
  ghost predicate VisitedInputs(g: GraphState, edges: seq<Edge>, to: NodeId, w: Walk, r: Result<Walk, NodeId>) {
    match r
    case Ok(after) =>
      && Good(g, after)
      && w.visited <= after.visited
      && (forall e :: e in edges && FindNode(g.nodes, e.from).Some? ==> e.from in after.visited)
      && (forall id :: id in after.visited && id !in w.visited ==> Reach(Live(g), id, to))
    case Err(n) =>
      OnCycle(g, n) && Reach(Live(g), n, to)
  }

  lemma CompletedVisit(g: GraphState, id: NodeId, w: Walk, after: Walk)
    requires FindNode(g.nodes, id).Some? && id !in after.visited
    requires VisitedInputs(g, IncomingByPort(g.edges, id), id, w, Ok(after))
    ensures Visited(g, {id}, w, Ok(Walk(after.visited + {id}, after.order + [id])))
  {
    ReachSelf(Live(g), id);
    forall e | e in Live(g) && e.to == id
      ensures e.from in after.visited
    {
      LiveEdge(g, e);
    }
    AppendedIsGood(g, after, id);
  }

  lemma {:induction false} VisitIsCorrect(g: GraphState, id: NodeId, visiting: set<NodeId>, w: Walk)
    requires Good(g, w) && Apart(visiting, w)
    requires FindNode(g.nodes, id).Some? ==> forall v :: v in visiting ==> Below(g, id, v)
    ensures Visited(g, {id}, w, Visit(g, id, visiting, w))
    ensures Visit(g, id, visiting, w).Ok? ==> Apart(visiting, Visit(g, id, visiting, w).value)
    decreases |Ids(g.nodes) - visiting|, 0, 0
  {
    if id in w.visited || FindNode(g.nodes, id).None? {
      assert Visit(g, id, visiting, w) == Ok(w);
    } else if id in visiting {
      CycleFound(g, id, w);
    } else {
      FewerLeft(Ids(g.nodes), visiting, id);
      VisitAllIsCorrect(g, IncomingByPort(g.edges, id), id, visiting + {id}, w);
      VisitUnfolds(g, id, visiting, w);
      var r := VisitAll(g, IncomingByPort(g.edges, id), visiting + {id}, w);
      if r.Ok? {
        CompletedStaysApart(id, visiting, r.value);
      }
      CompletedIsVisited(g, id, w, r);
    }
  }

  /** The walk once the inputs of `id` are completed. */
  function Completed(id: NodeId, r: Result<Walk, NodeId>): Result<Walk, NodeId> {
    if r.Err? then r else Ok(Walk(r.value.visited + {id}, r.value.order + [id]))
  }

  lemma FailedInputs(g: GraphState, id: NodeId, w: Walk, r: Result<Walk, NodeId>)
    requires FindNode(g.nodes, id).Some? && r.Err?
    requires VisitedInputs(g, IncomingByPort(g.edges, id), id, w, r)
    ensures Visited(g, {id}, w, r)
  {
    assert Upstream(g, r.error, id);
  }

  lemma CompletedIsVisited(g: GraphState, id: NodeId, w: Walk, r: Result<Walk, NodeId>)
    requires FindNode(g.nodes, id).Some?
    requires VisitedInputs(g, IncomingByPort(g.edges, id), id, w, r)
    requires r.Ok? ==> id !in r.value.visited
    ensures Visited(g, {id}, w, Completed(id, r))
  {
    if r.Ok? {
      CompletedVisit(g, id, w, r.value);
    } else {
      FailedInputs(g, id, w, r);
    }
  }

  lemma CompletedStaysApart(id: NodeId, visiting: set<NodeId>, r: Walk)
    requires id !in visiting && Apart(visiting + {id}, r)
    ensures Apart(visiting, Completed(id, Ok(r)).value) && id !in r.visited
  {
    assert id in visiting + {id};
    assert forall v :: v in visiting ==> v in visiting + {id};
  }

  lemma VisitUnfolds(g: GraphState, id: NodeId, visiting: set<NodeId>, w: Walk)
    requires id !in w.visited && FindNode(g.nodes, id).Some? && id !in visiting
    ensures Visit(g, id, visiting, w)
         == Completed(id, VisitAll(g, IncomingByPort(g.edges, id), visiting + {id}, w))
  {
  }

  lemma CycleFound(g: GraphState, id: NodeId, w: Walk)
    requires FindNode(g.nodes, id).Some? && Below(g, id, id)
    ensures Visited(g, {id}, w, Err(id))
  {
    ReachSelf(Live(g), id);
    assert Upstream(g, id, id);
  }

  lemma {:induction false} VisitAllIsCorrect(g: GraphState, edges: seq<Edge>, to: NodeId, visiting: set<NodeId>,
                                             w: Walk)
    requires Good(g, w) && Apart(visiting, w)
    requires forall v :: v in visiting ==> v == to || Below(g, to, v)
    requires forall e :: e in edges ==> e in g.edges && e.to == to
    ensures VisitedInputs(g, edges, to, w, VisitAll(g, edges, visiting, w))
    ensures VisitAll(g, edges, visiting, w).Ok? ==> Apart(visiting, VisitAll(g, edges, visiting, w).value)
    decreases |Ids(g.nodes) - visiting|, 1, |edges|
  {
    if edges != [] {
      var n := |edges| - 1;
      var e := edges[n];
      VisitAllIsCorrect(g, edges[..n], to, visiting, w);
      var before := VisitAll(g, edges[..n], visiting, w);
      if before.Ok? {
        if FindNode(g.nodes, e.from).Some? {
          LiveEdge(g, e);
          assert HasEdge(Live(g), e.from, to);
          forall v | v in visiting
            ensures Below(g, e.from, v)
          {
            BelowStep(g, e.from, to, v);
          }
        }
        VisitIsCorrect(g, e.from, visiting, before.value);
        OneMoreInput(g, edges, w, before.value, Visit(g, e.from, visiting, before.value));
      }
    }
  }

  lemma OneMoreInput(g: GraphState, edges: seq<Edge>, w: Walk, before: Walk, r: Result<Walk, NodeId>)
    requires edges != []
    requires var e := edges[|edges| - 1];
             && VisitedInputs(g, edges[..|edges| - 1], e.to, w, Ok(before))
             && Visited(g, {e.from}, before, r)
             && (if FindNode(g.nodes, e.from).Some? then HasEdge(Live(g), e.from, e.to) else r == Ok(before))
    ensures VisitedInputs(g, edges, edges[|edges| - 1].to, w, r)
  {
    var e := edges[|edges| - 1];
    UpstreamReaches(g, e, before, r);
    assert forall d :: d in edges <==> d in edges[..|edges| - 1] || d == e;
  }

  lemma BelowStep(g: GraphState, a: NodeId, b: NodeId, v: NodeId)
    requires HasEdge(Live(g), a, b) && (v == b || Below(g, b, v))
    ensures Below(g, a, v)
  {
    ReachSelf(Live(g), b);
    if v != b {
      var next :| HasEdge(Live(g), b, next) && Reach(Live(g), next, v);
      EdgeThenReach(Live(g), b, next, v);
    }
  }

  lemma UpstreamReaches(g: GraphState, e: Edge, w: Walk, r: Result<Walk, NodeId>)
    requires Visited(g, {e.from}, w, r)
    requires FindNode(g.nodes, e.from).Some? ==> HasEdge(Live(g), e.from, e.to)
    requires FindNode(g.nodes, e.from).None? ==> r == Ok(w)
    ensures r.Ok? ==> forall id :: id in r.value.visited && id !in w.visited ==> Reach(Live(g), id, e.to)
    ensures r.Err? ==> Reach(Live(g), r.error, e.to)
  {
    if r.Ok? {
      forall id | id in r.value.visited && id !in w.visited
        ensures Reach(Live(g), id, e.to)
      {
        ReachThenEdge(Live(g), id, e.from, e.to);
      }
    } else {
      ReachThenEdge(Live(g), r.error, e.from, e.to);
    }
  }

  lemma NothingVisited(g: GraphState)
    ensures Good(g, Walk({}, []))
  {
  }

  lemma {:induction false} OrderIsGood(g: GraphState, targets: seq<NodeId>)
    ensures Order(g, targets).Ok? ==>
      var w := Order(g, targets).value;
      && Good(g, w)
      && (forall t :: t in targets && FindNode(g.nodes, t).Some? ==> t in w.visited)
      && (forall id :: id in w.visited ==> exists t :: t in targets && Upstream(g, id, t))
    ensures Order(g, targets).Err? ==>
      var n := Order(g, targets).error;
      OnCycle(g, n) && exists t :: t in targets && Upstream(g, n, t)
  {
    hide Good, OnCycle, Upstream, Visit;
    if targets == [] {
      NothingVisited(g);
    } else {
      var k := |targets| - 1;
      OrderIsGood(g, targets[..k]);
      assert forall t :: t in targets <==> t in targets[..k] || t == targets[k];
      if Order(g, targets[..k]).Ok? {
        VisitIsCorrect(g, targets[k], {}, Order(g, targets[..k]).value);
      }
    }
  }

  /** Along a path that ends in the order, positions grow. */
  lemma {:induction false} PathInOrder(g: GraphState, order: seq<NodeId>, p: seq<NodeId>, j: nat) returns (i: nat)
    requires UpstreamFirst(g, order)
    requires IsPath(Live(g), p) && j < |order| && p[|p| - 1] == order[j]
    ensures i < |order| && order[i] == p[0] && i + |p| - 1 <= j
  {
    if |p| == 1 {
      i := j;
    } else {
      var n := |p| - 1;
      assert HasEdge(Live(g), p[n - 1], p[n - 1 + 1]);
      var e :| e in Live(g) && e.from == p[n - 1] && e.to == p[n];
      ListedOnceAfterInputs(g, order, j);
      var k :| 0 <= k < j && order[k] == e.from;
      forall m | 0 <= m < n - 1
        ensures HasEdge(Live(g), p[..n][m], p[..n][m + 1])
      {
        assert HasEdge(Live(g), p[m], p[m + 1]);
      }
      i := PathInOrder(g, order, p[..n], k);
    }
  }

  lemma NoCycleUpstream(g: GraphState, order: seq<NodeId>, id: NodeId, t: NodeId)
    requires UpstreamFirst(g, order) && t in order && Reach(Live(g), id, t)
    ensures id in order && !OnCycle(g, id)
  {
    var p :| IsPath(Live(g), p) && p[0] == id && p[|p| - 1] == t;
    var j :| 0 <= j < |order| && order[j] == t;
    var i := PathInOrder(g, order, p, j);
    if OnCycle(g, id) {
      var next :| HasEdge(Live(g), id, next) && Reach(Live(g), next, id);
      var q :| IsPath(Live(g), q) && q[0] == next && q[|q| - 1] == id;
      var cycle := [id] + q;
      forall m | 0 <= m < |cycle| - 1
        ensures HasEdge(Live(g), cycle[m], cycle[m + 1])
      {
        if m > 0 {
          assert HasEdge(Live(g), q[m - 1], q[m - 1 + 1]);
        }
      }
      var k := PathInOrder(g, order, cycle, i);
      ListedOnceAfterInputs(g, order, i);
    }
  }

  /** The walk fails exactly when a cycle lies upstream of an existing target.
      Otherwise it lists exactly the existing nodes upstream of the targets
      and the targets themselves, once each, every node after its inputs. */
  lemma TopologicalOrder(g: GraphState, targets: seq<NodeId>)
    ensures Order(g, targets).Err? <==> exists t, id :: t in targets && Upstream(g, id, t) && OnCycle(g, id)
    ensures Order(g, targets).Ok? ==>
      var order := Order(g, targets).value.order;
      && UpstreamFirst(g, order)
      && forall id :: id in order <==> exists t :: t in targets && Upstream(g, id, t)
  {
    OrderIsGood(g, targets);
    var r := Order(g, targets);
    if r.Ok? {
      forall t, id | t in targets && Upstream(g, id, t)
        ensures id in r.value.order && !OnCycle(g, id)
      {
        NoCycleUpstream(g, r.value.order, id, t);
      }
    }
  }

  // ----- The walk in place -----

  lemma {:induction false} FailedVisitStays(g: GraphState, edges: seq<Edge>, visiting: set<NodeId>, w: Walk, k: nat)
    requires k <= |edges| && VisitAll(g, edges[..k], visiting, w).Err?
    ensures VisitAll(g, edges, visiting, w) == VisitAll(g, edges[..k], visiting, w)
  {
    if k == |edges| {
      assert edges[..k] == edges;
    } else {
      assert edges[..|edges| - 1][..k] == edges[..k];
      FailedVisitStays(g, edges[..|edges| - 1], visiting, w, k);
    }
  }

  lemma OneMoreVisit(g: GraphState, edges: seq<Edge>, k: nat, visiting: set<NodeId>, w: Walk)
    requires k < |edges| && VisitAll(g, edges[..k], visiting, w).Ok?
    ensures VisitAll(g, edges[..k + 1], visiting, w)
         == Visit(g, edges[k].from, visiting, VisitAll(g, edges[..k], visiting, w).value)
  {
    assert edges[..k + 1][..k] == edges[..k];
  }

  /** Where a visit ends at once, and a walk without edges. */
  lemma VisitEnds(g: GraphState, id: NodeId, visiting: set<NodeId>, w: Walk)
    ensures id in w.visited || FindNode(g.nodes, id).None? ==> Visit(g, id, visiting, w) == Ok(w)
    ensures id !in w.visited && FindNode(g.nodes, id).Some? && id in visiting ==> Visit(g, id, visiting, w) == Err(id)
    ensures VisitAll(g, [], visiting + {id}, w) == Ok(w)
  {
  }

  class Walker {
    var visiting: set<NodeId>
    var visited: set<NodeId>
    var order: seq<NodeId>

    constructor ()
      ensures visiting == {} && visited == {} && order == []
    {
      visiting, visited, order := {}, {}, [];
    }

    /** `None` when done, else the node at which a cycle closes. */
    method VisitNode(g: GraphState, id: NodeId) returns (cycle: Option<NodeId>)
      modifies this
      ensures cycle.Some? ==> Visit(g, id, old(visiting), Walk(old(visited), old(order))) == Err(cycle.value)
      ensures cycle.None? ==> Visit(g, id, old(visiting), Walk(old(visited), old(order))) == Ok(Walk(visited, order))
      ensures cycle.None? ==> visiting == old(visiting)
      decreases |Ids(g.nodes) - visiting|
    {
      hide Visit, VisitAll;
      VisitEnds(g, id, visiting, Walk(visited, order));
      if id in visited || FindNode(g.nodes, id).None? {
        return None;
      }
      if id in visiting {
        return Some(id);
      }
      FewerLeft(Ids(g.nodes), visiting, id);
      ghost var before, start := visiting, Walk(visited, order);
      VisitUnfolds(g, id, before, start);
      visiting := visiting + {id};
      var incoming := IncomingByPort(g.edges, id);
      assert incoming[..0] == [];
      for k := 0 to |incoming|
        invariant visiting == before + {id}
        invariant VisitAll(g, incoming[..k], before + {id}, start) == Ok(Walk(visited, order))
      {
        OneMoreVisit(g, incoming, k, before + {id}, start);
        var failed := VisitNode(g, incoming[k].from);
        if failed.Some? {
          FailedVisitStays(g, incoming, before + {id}, start, k + 1);
          return failed;
        }
      }
      assert incoming[..|incoming|] == incoming;
      assert visiting - {id} == before;
      visiting := visiting - {id};
      visited := visited + {id};
      order := order + [id];
      return None;
    }
  }

  lemma {:induction false} FailedOrderStays(g: GraphState, targets: seq<NodeId>, k: nat)
    requires k <= |targets| && Order(g, targets[..k]).Err?
    ensures Order(g, targets) == Order(g, targets[..k])
  {
    if k == |targets| {
      assert targets[..k] == targets;
    } else {
      assert targets[..|targets| - 1][..k] == targets[..k];
      FailedOrderStays(g, targets[..|targets| - 1], k);
    }
  }

  method ComputeOrder(g: GraphState, targets: seq<NodeId>) returns (r: Result<seq<NodeId>, NodeId>)
    ensures match Order(g, targets)
            case Ok(w) => r == Ok(w.order)
            case Err(n) => r == Err(n)
  {
    var walker := new Walker();
    for k := 0 to |targets|
      invariant walker.visiting == {} && Order(g, targets[..k]) == Ok(Walk(walker.visited, walker.order))
    {
      assert targets[..k + 1][..k] == targets[..k];
      var failed := walker.VisitNode(g, targets[k]);
      if failed.Some? {
        FailedOrderStays(g, targets, k + 1);
        return Err(failed.value);
      }
    }
    assert targets[..|targets|] == targets;
    return Ok(walker.order);
  }
}
