/** The typed port graph: node kinds and their ports, reachability, the checks
    made before an edge is added, and the mutable `Graph` object. */
module GraphModel {
  import opened Prelude
  import opened Json

  // ----- Node kinds and their ports -----

  type NodeId = n: nat | n <= U64_MAX

  datatype AlignMode = Prev | Nearest | Linear

  datatype ConversionKind =
    RadToDeg | DegToRad | Heading0To360 | HeadingPm180 | MsToKmh | KmhToMs | MToFt | FtToM

  datatype FilterKind = Equal | NotEqual | LessThan | GreaterThan | Between | OutsideRange

  datatype FilterSpec = FilterSpec(filter: FilterKind, threshold: Num, upper: Num, inclusive: bool)

  datatype FieldSelector =
    FieldSelector(source: Option<string>, topic: string, instance: Option<nat>, field: string)

  datatype PortField = PortField(name: string, units: Option<string>)

  datatype ScriptSpec =
    ScriptSpec(name: string, inputs: seq<string>, outputs: seq<PortField>, code: string)

  datatype NodeKind =
    | DataField(selector: FieldSelector)
    | Constant(constant: Num)
    | Add
    | Subtract
    | Multiply
    | Divide
    | ScaleOffset(multiplier: Num, offset: Num)
    | Convert(conversion: ConversionKind)
    | Filter(spec: FilterSpec)
    | Align(mode: AlignMode)
    | Output(topic: string, fields: seq<PortField>)
    | Script(script: ScriptSpec)
    | Unknown(raw: Json)

  datatype PortType = SignalPort | ScalarPort

  /** What each input port accepts. Port names are not part of the model. */
  function Inputs(k: NodeKind): seq<seq<PortType>> {
    match k
    case Add | Subtract => [[SignalPort], [SignalPort]]
    case Multiply | Divide => [[SignalPort], [SignalPort, ScalarPort]]
    case ScaleOffset(_, _) | Convert(_) | Filter(_) => [[SignalPort]]
    case Align(_) => [[SignalPort], [SignalPort]]
    case Output(_, fields) => seq(|fields|, _ => [SignalPort])
    case Script(script) => seq(|script.inputs|, _ => [SignalPort, ScalarPort])
    case DataField(_) | Constant(_) | Unknown(_) => []
  }

  function Outputs(k: NodeKind): seq<seq<PortType>> {
    match k
    case Constant(_) => [[ScalarPort]]
    case Script(script) => seq(|script.outputs|, _ => [SignalPort])
    case Output(_, _) | Unknown(_) => []
    case _ => [[SignalPort]]
  }

  datatype Pos = Pos(x: real, y: real)

  datatype Node = Node(id: NodeId, pos: Pos, kind: NodeKind)

  datatype Edge = Edge(from: NodeId, fromPort: nat, to: NodeId, toPort: nat)

  datatype ConnectError =
    UnknownNode | SelfLoop | NoOutput | BadPort | TypeMismatch | InputOccupied | Cycle

  /** The value of a graph. */
  datatype GraphState = GraphState(nodes: seq<Node>, edges: seq<Edge>, nextId: nat)

  function FindNode(nodes: seq<Node>, id: NodeId): (r: Option<Node>)
    ensures r.Some? ==> r.value in nodes && r.value.id == id
  {
    if nodes == [] then None
    else if nodes[0].id == id then Some(nodes[0])
    else FindNode(nodes[1..], id)
  }

  /** Position of the edge into (to, port), or the number of edges. */
  function EdgeIndex(edges: seq<Edge>, to: NodeId, port: nat): (i: nat)
    ensures i <= |edges|
    ensures i < |edges| ==> edges[i].to == to && edges[i].toPort == port
    ensures forall j :: 0 <= j < i ==> edges[j].to != to || edges[j].toPort != port
  {
    if edges == [] then 0
    else if edges[0].to == to && edges[0].toPort == port then 0
    else 1 + EdgeIndex(edges[1..], to, port)
  }

  function NodeIndex(nodes: seq<Node>, id: NodeId): (i: nat)
    ensures i <= |nodes|
    ensures i < |nodes| ==> nodes[i].id == id && FindNode(nodes, id) == Some(nodes[i])
    ensures i == |nodes| ==> FindNode(nodes, id) == None
    ensures forall j :: 0 <= j < i ==> nodes[j].id != id
  {
    if nodes == [] then 0
    else if nodes[0].id == id then 0
    else 1 + NodeIndex(nodes[1..], id)
  }

  function Incoming(edges: seq<Edge>, to: NodeId, port: nat): Option<(NodeId, nat)> {
    var i := EdgeIndex(edges, to, port);
    if i < |edges| then Some((edges[i].from, edges[i].fromPort)) else None
  }

  predicate Compatible(output: seq<PortType>, input: seq<PortType>) {
    exists t :: t in output && t in input
  }

  // ----- Reachability along edges -----

  ghost predicate HasEdge(edges: seq<Edge>, a: NodeId, b: NodeId) {
    exists e :: e in edges && e.from == a && e.to == b
  }

  ghost predicate IsPath(edges: seq<Edge>, p: seq<NodeId>) {
    |p| >= 1 && forall i :: 0 <= i < |p| - 1 ==> HasEdge(edges, p[i], p[i + 1])
  }

  /** `b` can be reached from `a` by following zero or more edges. */
  ghost predicate Reach(edges: seq<Edge>, a: NodeId, b: NodeId) {
    exists p :: IsPath(edges, p) && p[0] == a && p[|p| - 1] == b
  }

  ghost predicate Acyclic(edges: seq<Edge>) {
    !exists p :: IsPath(edges, p) && |p| >= 2 && p[0] == p[|p| - 1]
  }

  ghost predicate IsRank(rank: NodeId -> nat, edges: seq<Edge>) {
    forall e :: e in edges ==> rank(e.from) < rank(e.to)
  }

  /** A topological numbering exists. */
  ghost predicate Ranked(edges: seq<Edge>) {
    exists rank :: IsRank(rank, edges)
  }

  lemma ReachSelf(edges: seq<Edge>, a: NodeId)
    ensures Reach(edges, a, a)
  {
    assert IsPath(edges, [a]);
  }

  lemma ReachThenEdge(edges: seq<Edge>, a: NodeId, b: NodeId, c: NodeId)
    requires Reach(edges, a, b) && HasEdge(edges, b, c)
    ensures Reach(edges, a, c)
  {
    var p :| IsPath(edges, p) && p[0] == a && p[|p| - 1] == b;
    assert IsPath(edges, p + [c]);
  }

  lemma EdgeThenReach(edges: seq<Edge>, a: NodeId, b: NodeId, c: NodeId)
    requires HasEdge(edges, a, b) && Reach(edges, b, c)
    ensures Reach(edges, a, c)
  {
    var p :| IsPath(edges, p) && p[0] == b && p[|p| - 1] == c;
    var q := [a] + p;
    forall i | 0 <= i < |q| - 1
      ensures HasEdge(edges, q[i], q[i + 1])
    {
      if i > 0 {
        assert HasEdge(edges, p[i - 1], p[i]);
      }
    }
    assert IsPath(edges, q);
  }

  /** A set closed under the edges holds everything reachable from it. */
  lemma {:induction false} ClosedHoldsReachable(edges: seq<Edge>, s: set<NodeId>, p: seq<NodeId>)
    requires forall e :: e in edges && e.from in s ==> e.to in s
    requires IsPath(edges, p) && p[0] in s
    ensures p[|p| - 1] in s
  {
    if |p| > 1 {
      var q := p[1..];
      assert HasEdge(edges, p[0], p[1]);
      forall i | 0 <= i < |q| - 1
        ensures HasEdge(edges, q[i], q[i + 1])
      {
        assert HasEdge(edges, p[i + 1], p[i + 2]);
      }
      ClosedHoldsReachable(edges, s, q);
    }
  }

  lemma {:induction false} RankGrowsAlongPath(edges: seq<Edge>, rank: NodeId -> nat, p: seq<NodeId>)
    requires IsRank(rank, edges) && IsPath(edges, p)
    ensures rank(p[0]) + |p| - 1 <= rank(p[|p| - 1])
  {
    if |p| > 1 {
      var q := p[..|p| - 1];
      forall i | 0 <= i < |q| - 1
        ensures HasEdge(edges, q[i], q[i + 1])
      {
        assert HasEdge(edges, p[i], p[i + 1]);
      }
      RankGrowsAlongPath(edges, rank, q);
      assert HasEdge(edges, p[|p| - 2], p[|p| - 2 + 1]);
    }
  }

  lemma RankedIsAcyclic(edges: seq<Edge>)
    requires Ranked(edges)
    ensures Acyclic(edges)
  {
    var rank :| IsRank(rank, edges);
    forall p | IsPath(edges, p) && |p| >= 2
      ensures p[0] != p[|p| - 1]
    {
      RankGrowsAlongPath(edges, rank, p);
    }
  }

  /** Adding an edge keeps a topological numbering exactly when its source
      cannot be reached from its target. */
  lemma AddedEdgeKeepsRank(edges: seq<Edge>, e: Edge, edges': seq<Edge>)
    requires Ranked(edges)
    requires forall x :: x in edges' <==> x in edges || x == e
    ensures Ranked(edges') <==> !Reach(edges, e.to, e.from)
  {
    if Reach(edges, e.to, e.from) {
      var p :| IsPath(edges, p) && p[0] == e.to && p[|p| - 1] == e.from;
      forall i | 0 <= i < |p| - 1
        ensures HasEdge(edges', p[i], p[i + 1])
      {
        assert HasEdge(edges, p[i], p[i + 1]);
      }
      assert IsPath(edges', p);
      if Ranked(edges') {
        var rank :| IsRank(rank, edges');
        assert e in edges' && rank(e.from) < rank(e.to);
        RankGrowsAlongPath(edges', rank, p);
      }
    } else {
      var rank: NodeId -> nat :| IsRank(rank, edges);
      var rank': NodeId -> nat :=
        (x: NodeId) => if Reach(edges, e.to, x) then rank(x) + rank(e.from) + 1 else rank(x);
      forall x | x in edges'
        ensures rank'(x.from) < rank'(x.to)
      {
        if x in edges {
          assert HasEdge(edges, x.from, x.to);
          if Reach(edges, e.to, x.from) {
            ReachThenEdge(edges, e.to, x.from, x.to);
          }
        } else {
          ReachSelf(edges, e.to);
        }
      }
      assert IsRank(rank', edges');
    }
  }

  lemma SameEdgesSameReach(es: seq<Edge>, fs: seq<Edge>, a: NodeId, b: NodeId)
    requires forall e :: e in es ==> e in fs
    requires Reach(es, a, b)
    ensures Reach(fs, a, b)
  {
    var p :| IsPath(es, p) && p[0] == a && p[|p| - 1] == b;
    forall i | 0 <= i < |p| - 1
      ensures HasEdge(fs, p[i], p[i + 1])
    {
      assert HasEdge(es, p[i], p[i + 1]);
    }
    assert IsPath(fs, p);
  }

  // ----- What a graph must satisfy -----

  ghost predicate UniqueIds(nodes: seq<Node>) {
    forall i, j :: 0 <= i < j < |nodes| ==> nodes[i].id != nodes[j].id
  }

  ghost predicate SingleOccupancy(edges: seq<Edge>) {
    forall i, j :: 0 <= i < j < |edges| ==> edges[i].to != edges[j].to || edges[i].toPort != edges[j].toPort
  }

  ghost predicate EndpointsExist(g: GraphState) {
    forall e :: e in g.edges ==> FindNode(g.nodes, e.from).Some? && FindNode(g.nodes, e.to).Some?
  }

  function NextAfter(id: NodeId): nat {
    if id == U64_MAX then U64_MAX else id + 1
  }

  ghost predicate IdsCovered(g: GraphState) {
    forall n :: n in g.nodes ==> NextAfter(n.id) <= g.nextId
  }

  /** What every graph keeps, whatever its unknown nodes are wired to. */
  ghost predicate Sound(g: GraphState) {
    && UniqueIds(g.nodes)
    && IdsCovered(g)
    && EndpointsExist(g)
    && SingleOccupancy(g.edges)
    && Ranked(g.edges)
  }

  /** An edge between two existing ports of compatible types. */
  ghost predicate WellTyped(nodes: seq<Node>, e: Edge) {
    && FindNode(nodes, e.from).Some?
    && FindNode(nodes, e.to).Some?
    && var outputs := Outputs(FindNode(nodes, e.from).value.kind);
    var inputs := Inputs(FindNode(nodes, e.to).value.kind);
    && e.fromPort < |outputs|
    && e.toPort < |inputs|
    && Compatible(outputs[e.fromPort], inputs[e.toPort])
  }

  ghost predicate Typed(g: GraphState) {
    forall e :: e in g.edges ==> WellTyped(g.nodes, e)
  }

  // ----- Adding and removing edges and nodes -----

  /** Why an edge between two nodes is refused, if it is. */
  function Verdict(from: Option<Node>, to: Option<Node>, e: Edge, occupied: bool, cyclic: bool)
    : Result<(), ConnectError>
  {
    if from.None? || to.None? then Err(UnknownNode)
    else if e.from == e.to then Err(SelfLoop)
    else
      var outputs := Outputs(from.value.kind);
      if e.fromPort >= |outputs| then Err(if outputs == [] then NoOutput else BadPort)
      else
        var inputs := Inputs(to.value.kind);
        if e.toPort >= |inputs| then Err(BadPort)
        else if !Compatible(outputs[e.fromPort], inputs[e.toPort]) then Err(TypeMismatch)
        else if occupied then Err(InputOccupied)
        else if cyclic then Err(Cycle)
        else Ok(())
  }

  ghost function ConnectVerdict(g: GraphState, e: Edge): Result<(), ConnectError> {
    Verdict(FindNode(g.nodes, e.from), FindNode(g.nodes, e.to), e,
            Incoming(g.edges, e.to, e.toPort).Some?, Reach(g.edges, e.to, e.from))
  }

  lemma AppendedOccupancy(edges: seq<Edge>, e: Edge)
    requires SingleOccupancy(edges)
    ensures SingleOccupancy(edges + [e]) <==> Incoming(edges, e.to, e.toPort).None?
  {
    var i := EdgeIndex(edges, e.to, e.toPort);
    if i < |edges| {
      assert (edges + [e])[i] == edges[i] && (edges + [e])[|edges|] == e;
    }
  }

  /** On a sound graph an edge passes the checks exactly when it is well typed
      and the graph that holds it as well is sound. */
  lemma VerdictIsExact(g: GraphState, e: Edge)
    requires Sound(g)
    ensures ConnectVerdict(g, e).Ok? <==> WellTyped(g.nodes, e) && Sound(g.(edges := g.edges + [e]))
  {
    AppendedOccupancy(g.edges, e);
    AddedEdgeKeepsRank(g.edges, e, g.edges + [e]);
    ReachSelf(g.edges, e.to);
    if WellTyped(g.nodes, e) {
      assert EndpointsExist(g.(edges := g.edges + [e]));
    }
  }

  /** `Vec::retain` on the edges. */
  function Filtered(edges: seq<Edge>, keep: Edge -> bool): (r: seq<Edge>)
    ensures forall e :: e in r <==> e in edges && keep(e)
  {
    if edges == [] then []
    else
      var last := edges[|edges| - 1];
      assert forall e :: e in edges <==> e in edges[..|edges| - 1] || e == last;
      var before := Filtered(edges[..|edges| - 1], keep);
      if keep(last) then before + [last] else before
  }

  function Kept(edges: seq<Edge>, drop: Edge -> bool): (r: seq<Edge>)
    ensures forall e :: e in r <==> e in edges && !drop(e)
  {
    if edges == [] then []
    else
      var last := edges[|edges| - 1];
      assert forall e :: e in edges <==> e in edges[..|edges| - 1] || e == last;
      var before := Kept(edges[..|edges| - 1], drop);
      if drop(last) then before else before + [last]
  }

  function Touching(id: NodeId): Edge -> bool {
    (e: Edge) => e.from == id || e.to == id
  }

  function WithNode(g: GraphState, node: Node): GraphState {
    GraphState(g.nodes + [node], g.edges, if NextAfter(node.id) > g.nextId then NextAfter(node.id) else g.nextId)
  }

  /** The graph without node `id` and its edges, with what was taken out. */
  function WithoutNode(g: GraphState, id: NodeId): Option<(GraphState, Node, seq<Edge>)> {
    var i := NodeIndex(g.nodes, id);
    if i == |g.nodes| then None
    else Some((GraphState(RemoveAt(g.nodes, i), Kept(g.edges, Touching(id)), g.nextId),
               g.nodes[i],
               Filtered(g.edges, Touching(id))))
  }

  // ----- The mutable object -----

  function Successors(edges: seq<Edge>, a: NodeId): (r: seq<NodeId>)
    ensures forall b :: b in r <==> exists e :: e in edges && e.from == a && e.to == b
  {
    if edges == [] then []
    else if edges[0].from == a then
      assert forall e :: e in edges <==> e == edges[0] || e in edges[1..];
      [edges[0].to] + Successors(edges[1..], a)
    else
      assert forall e :: e in edges <==> e == edges[0] || e in edges[1..];
      Successors(edges[1..], a)
  }

  class Graph {
    var nodes: seq<Node>
    var edges: seq<Edge>
    var nextId: nat

    ghost function View(): GraphState
      reads this
    {
      GraphState(nodes, edges, nextId)
    }

    constructor ()
      ensures View() == GraphState([], [], 1)
      ensures Sound(View()) && Typed(View())
    {
      nodes, edges, nextId := [], [], 1;
      new;
      assert IsRank((n: NodeId) => 0, edges);
    }

    /** The id handed out is new. `next_id += 1` overflows at the last id. */
    method AllocId() returns (id: NodeId)
      requires nextId < U64_MAX
      requires Sound(View())
      modifies this`nextId
      ensures View() == old(View()).(nextId := id + 1) && id == old(nextId)
      ensures FindNode(nodes, id) == None
      ensures Sound(View())
    {
      assert FindNode(nodes, nextId).Some? ==> NextAfter(nextId) <= nextId;
      id := nextId;
      nextId := nextId + 1;
    }

    method InsertNode(node: Node)
      modifies this`nodes, this`nextId
      ensures View() == WithNode(old(View()), node)
    {
      if NextAfter(node.id) > nextId {
        nextId := NextAfter(node.id);
      }
      nodes := nodes + [node];
    }

    method RemoveNode(id: NodeId) returns (r: Option<(Node, seq<Edge>)>)
      modifies this`nodes, this`edges
      ensures match WithoutNode(old(View()), id)
              case None => r == None && View() == old(View())
              case Some((g, node, removed)) => r == Some((node, removed)) && View() == g
    {
      var index := NodeIndex(nodes, id);
      if index == |nodes| {
        return None;
      }
      var node := nodes[index];
      nodes := RemoveAt(nodes, index);
      var removed, kept := [], [];
      for i := 0 to |edges|
        invariant edges == old(edges) && nodes == RemoveAt(old(nodes), index)
        invariant removed == Filtered(edges[..i], Touching(id))
        invariant kept == Kept(edges[..i], Touching(id))
      {
        assert edges[..i + 1][..i] == edges[..i];
        if edges[i].from == id || edges[i].to == id {
          removed := removed + [edges[i]];
        } else {
          kept := kept + [edges[i]];
        }
      }
      assert edges[..|edges|] == edges;
      edges := kept;
      return Some((node, removed));
    }

    /** Depth-first search from `to`: true exactly when `from` is found. */
    method WouldCycle(from: NodeId, to: NodeId) returns (found: bool)
      ensures found <==> Reach(edges, to, from)
    {
      var stack: seq<NodeId>, visited: set<NodeId> := [to], {};
      ghost var all := {to} + set e | e in edges :: e.to;
      ReachSelf(edges, to);
      while stack != []
        invariant visited <= all && forall s :: s in stack ==> s in all && Reach(edges, to, s)
        invariant to in visited || to in stack
        invariant from !in visited
        invariant forall e :: e in edges && e.from in visited ==> e.to in visited || e.to in stack
        decreases |all - visited|, |stack|
      {
        ghost var before := stack;
        var current := stack[|stack| - 1];
        stack := stack[..|stack| - 1];
        assert before == stack + [current];
        if current == from {
          return true;
        }
        if current in visited {
          continue;
        }
        ghost var rest := all - visited;
        visited := visited + {current};
        assert all - visited < rest by {
          assert current in rest;
        }
        SubsetIsSmaller(all - visited, rest);
        var next := Successors(edges, current);
        forall s | s in next
          ensures s in all && Reach(edges, to, s)
        {
          var e :| e in edges && e.from == current && e.to == s;
          assert HasEdge(edges, current, s);
          ReachThenEdge(edges, to, current, s);
        }
        stack := stack + next;
      }
      if Reach(edges, to, from) {
        var p :| IsPath(edges, p) && p[0] == to && p[|p| - 1] == from;
        ClosedHoldsReachable(edges, visited, p);
      }
      return false;
    }

    method CheckConnect(from: NodeId, fromPort: nat, to: NodeId, toPort: nat)
      returns (r: Result<(), ConnectError>)
      ensures r == ConnectVerdict(View(), Edge(from, fromPort, to, toPort))
    {
      var fromNode, toNode := FindNode(nodes, from), FindNode(nodes, to);
      if fromNode.None? || toNode.None? {
        return Err(UnknownNode);
      }
      if from == to {
        return Err(SelfLoop);
      }
      var outputs := Outputs(fromNode.value.kind);
      if fromPort >= |outputs| {
        return Err(if outputs == [] then NoOutput else BadPort);
      }
      var inputs := Inputs(toNode.value.kind);
      if toPort >= |inputs| {
        return Err(BadPort);
      }
      if !Compatible(outputs[fromPort], inputs[toPort]) {
        return Err(TypeMismatch);
      }
      if Incoming(edges, to, toPort).Some? {
        return Err(InputOccupied);
      }
      var cyclic := WouldCycle(from, to);
      return if cyclic then Err(Cycle) else Ok(());
    }

    method Connect(from: NodeId, fromPort: nat, to: NodeId, toPort: nat)
      returns (r: Result<(), ConnectError>)
      modifies this`edges
      ensures r == ConnectVerdict(old(View()), Edge(from, fromPort, to, toPort))
      ensures edges == if r.Ok? then old(edges) + [Edge(from, fromPort, to, toPort)] else old(edges)
      ensures old(Sound(View())) ==> Sound(View())
      ensures old(Sound(View()) && Typed(View())) ==> Typed(View())
    {
      r := CheckConnect(from, fromPort, to, toPort);
      if r.Ok? {
        var e := Edge(from, fromPort, to, toPort);
        ghost var g := View();
        edges := edges + [e];
        if Sound(g) {
          VerdictIsExact(g, e);
          assert View() == g.(edges := g.edges + [e]);
        }
      }
    }

    method Disconnect(to: NodeId, toPort: nat) returns (r: Option<Edge>)
      modifies this`edges
      ensures var i := EdgeIndex(old(edges), to, toPort);
              if i < |old(edges)| then r == Some(old(edges)[i]) && edges == RemoveAt(old(edges), i)
              else r == None && edges == old(edges)
    {
      var i := EdgeIndex(edges, to, toPort);
      if i == |edges| {
        return None;
      }
      r := Some(edges[i]);
      edges := RemoveAt(edges, i);
    }
  }

  lemma SubsetIsSmaller(a: set<NodeId>, b: set<NodeId>)
    requires a < b
    ensures |a| < |b|
  {
    var x :| x in b && x !in a;
    assert a <= b - {x};
    SubsetCardinality(a, b - {x});
  }

  lemma {:induction false} SubsetCardinality(a: set<NodeId>, b: set<NodeId>)
    requires a <= b
    ensures |a| <= |b|
  {
    if a != {} {
      var x :| x in a;
      SubsetCardinality(a - {x}, b - {x});
    }
  }
}
