/** Every accepted command keeps the graph sound, and typed if it was typed. */
module GraphSafety {
  import opened Prelude
  import opened GraphModel
  import opened Commands
  import opened GraphFacts

  // ----- Ports after a port command -----

  function Accepts(c: Command): seq<PortType> {
    if c.InsertOutputField? || c.RemoveOutputField? then [SignalPort] else [SignalPort, ScalarPort]
  }

  lemma EditedPorts(k: NodeKind, c: Command)
    requires IsPortCommand(c) && EditedKind(k, c).Some?
    ensures var k' := EditedKind(k, c).value;
            && (IsOpenInput(c) ==>
                  && c.index <= |Inputs(k)|
                  && Inputs(k') == InsertAt(Inputs(k), c.index, Accepts(c)) && Outputs(k') == Outputs(k))
            && (IsCloseInput(c) ==>
                  && c.index < |Inputs(k)| && Inputs(k)[c.index] == Accepts(c)
                  && Inputs(k') == RemoveAt(Inputs(k), c.index) && Outputs(k') == Outputs(k))
            && (c.InsertScriptOutput? ==>
                  && c.index <= |Outputs(k)|
                  && Outputs(k') == InsertAt(Outputs(k), c.index, [SignalPort]) && Inputs(k') == Inputs(k))
            && (c.RemoveScriptOutput? ==>
                  && c.index < |Outputs(k)|
                  && Outputs(k') == RemoveAt(Outputs(k), c.index) && Inputs(k') == Inputs(k))
  {
    var k' := EditedKind(k, c).value;
    if k.Output? {
      OutputEdited(k, c, k');
    } else {
      ScriptEdited(k, c, k');
    }
    hide EditedKind, Inputs, Outputs;
  }

  lemma OutputEdited(k: NodeKind, c: Command, k': NodeKind)
    requires k.Output? && IsPortCommand(c) && EditedKind(k, c) == Some(k')
    ensures c.InsertOutputField? || c.RemoveOutputField?
    ensures Outputs(k') == Outputs(k)
    ensures c.InsertOutputField? ==>
              c.index <= |Inputs(k)| && Inputs(k') == InsertAt(Inputs(k), c.index, [SignalPort])
    ensures c.RemoveOutputField? ==>
              && c.index < |Inputs(k)| && Inputs(k)[c.index] == [SignalPort]
              && Inputs(k') == RemoveAt(Inputs(k), c.index)
  {
  }

  lemma ScriptEdited(k: NodeKind, c: Command, k': NodeKind)
    requires !k.Output? && IsPortCommand(c) && EditedKind(k, c) == Some(k')
    ensures k.Script? && !c.InsertOutputField? && !c.RemoveOutputField?
    ensures c.InsertScriptInput? ==>
              && c.index <= |Inputs(k)| && Outputs(k') == Outputs(k)
              && Inputs(k') == InsertAt(Inputs(k), c.index, [SignalPort, ScalarPort])
    ensures c.RemoveScriptInput? ==>
              && c.index < |Inputs(k)| && Inputs(k)[c.index] == [SignalPort, ScalarPort]
              && Outputs(k') == Outputs(k) && Inputs(k') == RemoveAt(Inputs(k), c.index)
    ensures c.InsertScriptOutput? ==>
              && c.index <= |Outputs(k)| && Inputs(k') == Inputs(k)
              && Outputs(k') == InsertAt(Outputs(k), c.index, [SignalPort])
    ensures c.RemoveScriptOutput? ==>
              && c.index < |Outputs(k)| && Inputs(k') == Inputs(k)
              && Outputs(k') == RemoveAt(Outputs(k), c.index)
  {
  }

  // ----- Nodes replaced in place -----

  lemma ReplacedNodeSound(g: GraphState, i: nat, n: Node, edges: seq<Edge>)
    requires Sound(g) && i == NodeIndex(g.nodes, n.id) && i < |g.nodes|
    requires SingleOccupancy(edges) && Ranked(edges)
    requires forall e :: e in edges ==> FindNode(g.nodes, e.from).Some? && FindNode(g.nodes, e.to).Some?
    ensures Sound(GraphState(g.nodes[i := n], edges, g.nextId))
  {
    var h := GraphState(g.nodes[i := n], edges, g.nextId);
    assert UniqueIds(h.nodes);
    assert IdsCovered(h) by {
      assert g.nodes[i] in g.nodes;
      assert forall x :: x in h.nodes ==> x == n || x in g.nodes;
    }
    forall e | e in edges
      ensures FindNode(h.nodes, e.from).Some? && FindNode(h.nodes, e.to).Some?
    {
      FindUpdated(g.nodes, i, n, e.from);
      FindUpdated(g.nodes, i, n, e.to);
    }
  }

  /** Typing of one edge after the node at `i` is replaced. */
  lemma ReplacedNodeTyped(nodes: seq<Node>, i: nat, n: Node, e: Edge)
    requires i == NodeIndex(nodes, n.id) && i < |nodes|
    requires FindNode(nodes, e.from).Some? && FindNode(nodes, e.to).Some?
    ensures FindNode(nodes[i := n], e.from) == if e.from == n.id then Some(n) else FindNode(nodes, e.from)
    ensures FindNode(nodes[i := n], e.to) == if e.to == n.id then Some(n) else FindNode(nodes, e.to)
    ensures WellTyped(nodes, e)
         && (e.from == n.id ==> Outputs(n.kind) == Outputs(nodes[i].kind))
         && (e.to == n.id ==> Inputs(n.kind) == Inputs(nodes[i].kind))
         ==> WellTyped(nodes[i := n], e)
  {
    FindUpdated(nodes, i, n, e.from);
    FindUpdated(nodes, i, n, e.to);
  }

  lemma MoveNodeSound(g: GraphState, id: NodeId, pos: Pos)
    requires Sound(g) && NodeIndex(g.nodes, id) < |g.nodes|
    ensures var i := NodeIndex(g.nodes, id);
            var h := g.(nodes := g.nodes[i := g.nodes[i].(pos := pos)]);
            Sound(h) && (Typed(g) ==> Typed(h))
  {
    var i := NodeIndex(g.nodes, id);
    var n := g.nodes[i].(pos := pos);
    ReplacedNodeSound(g, i, n, g.edges);
    forall e | e in g.edges && Typed(g)
      ensures WellTyped(g.nodes[i := n], e)
    {
      ReplacedNodeTyped(g.nodes, i, n, e);
    }
  }

  lemma SetKindSound(g: GraphState, id: NodeId, kind: NodeKind)
    requires Sound(g) && NodeIndex(g.nodes, id) < |g.nodes|
    ensures var h := AfterSetKind(g, id, NodeIndex(g.nodes, id), kind).0;
            Sound(h) && (Typed(g) ==> Typed(h))
  {
    var i := NodeIndex(g.nodes, id);
    var n := g.nodes[i].(kind := kind);
    var h := AfterSetKind(g, id, i, kind).0;
    var changed :=
      OnSide(id, Inputs(g.nodes[i].kind) != Inputs(kind), Outputs(g.nodes[i].kind) != Outputs(kind));
    KeptOccupancy(g.edges, changed);
    RankedPart(g.edges, h.edges);
    ReplacedNodeSound(g, i, n, h.edges);
    forall e | e in h.edges && Typed(g)
      ensures WellTyped(h.nodes, e)
    {
      assert !changed(e);
      ReplacedNodeTyped(g.nodes, i, n, e);
    }
  }

  // ----- Nodes added and removed -----

  lemma AddNodeSound(g: GraphState, node: Node)
    requires Sound(g) && FindNode(g.nodes, node.id).None?
    ensures Sound(WithNode(g, node)) && (Typed(g) ==> Typed(WithNode(g, node)))
  {
    var h := WithNode(g, node);
    forall i | 0 <= i < |g.nodes|
      ensures g.nodes[i].id != node.id
    {
      FindUnique(g.nodes, g.nodes[i]);
    }
    forall e | e in g.edges
      ensures FindNode(h.nodes, e.from) == FindNode(g.nodes, e.from)
      ensures FindNode(h.nodes, e.to) == FindNode(g.nodes, e.to)
    {
      FindAppended(g.nodes, node, e.from);
      FindAppended(g.nodes, node, e.to);
    }
    assert forall x :: x in h.nodes ==> x == node || x in g.nodes;
  }

  /** The ends of the edges that remain are the nodes they were. */
  lemma RemovedEnds(g: GraphState, id: NodeId)
    requires UniqueIds(g.nodes) && WithoutNode(g, id).Some?
    ensures var h := WithoutNode(g, id).value.0;
            && FindNode(h.nodes, id).None?
            && forall e :: e in h.edges ==>
                 && e in g.edges
                 && FindNode(h.nodes, e.from) == FindNode(g.nodes, e.from)
                 && FindNode(h.nodes, e.to) == FindNode(g.nodes, e.to)
  {
    var i := NodeIndex(g.nodes, id);
    FindRemoved(g.nodes, i, id);
    forall e | e in WithoutNode(g, id).value.0.edges
      ensures FindNode(RemoveAt(g.nodes, i), e.from) == FindNode(g.nodes, e.from)
      ensures FindNode(RemoveAt(g.nodes, i), e.to) == FindNode(g.nodes, e.to)
    {
      FindRemoved(g.nodes, i, e.from);
      FindRemoved(g.nodes, i, e.to);
    }
  }

  lemma RemovedIds(g: GraphState, id: NodeId)
    requires UniqueIds(g.nodes) && IdsCovered(g) && WithoutNode(g, id).Some?
    ensures UniqueIds(WithoutNode(g, id).value.0.nodes) && IdsCovered(WithoutNode(g, id).value.0)
  {
    assert forall x :: x in WithoutNode(g, id).value.0.nodes ==> x in g.nodes;
    hide Filtered, Kept;
  }

  lemma RemoveNodeSound(g: GraphState, id: NodeId)
    requires Sound(g) && WithoutNode(g, id).Some?
    ensures var h := WithoutNode(g, id).value.0;
            Sound(h) && (Typed(g) ==> Typed(h)) && FindNode(h.nodes, id).None?
  {
    var h := WithoutNode(g, id).value.0;
    KeptOccupancy(g.edges, Touching(id));
    RankedPart(g.edges, h.edges);
    RemovedEnds(g, id);
    RemovedIds(g, id);
    hide UniqueIds, IdsCovered, SingleOccupancy, Ranked, Kept, Filtered, FindNode, Compatible;
  }

  // ----- Port commands -----

  ghost predicate LegalEdges(g: GraphState, edges: seq<Edge>) {
    && SingleOccupancy(edges) && Ranked(edges)
    && (forall e :: e in edges ==> FindNode(g.nodes, e.from).Some? && FindNode(g.nodes, e.to).Some?)
  }

  predicate KeepsEnds(f: Edge -> Edge, e: Edge) {
    f(e).from == e.from && f(e).to == e.to
  }

  /** Moving edges to other ports of the same nodes, no two to one input. */
  lemma MovedEdges(g: GraphState, part: seq<Edge>, f: Edge -> Edge)
    requires Sound(g) && SingleOccupancy(part) && forall e :: e in part ==> e in g.edges
    requires forall e :: e in part ==> KeepsEnds(f, e)
    requires forall d, e :: d in part && e in part && SamePort(f(d), f(e)) ==> SamePort(d, e)
    ensures LegalEdges(g, Mapped(part, f))
    ensures forall a, b :: Reach(Mapped(part, f), a, b) ==> Reach(g.edges, a, b)
  {
    MappedOccupancy(part, f);
    MappedMembers(part, f);
    var edges := Mapped(part, f);
    forall e | e in edges
      ensures HasEdge(g.edges, e.from, e.to)
      ensures FindNode(g.nodes, e.from).Some? && FindNode(g.nodes, e.to).Some?
    {
      var d :| d in part && e == f(d);
      assert KeepsEnds(f, d);
    }
    RankedByPairs(g.edges, edges);
    forall a, b | Reach(edges, a, b)
      ensures Reach(g.edges, a, b)
    {
      ReachByPairs(edges, g.edges, a, b);
    }
  }

  lemma ShiftedInputs(g: GraphState, id: NodeId, index: nat)
    requires Sound(g)
    ensures var shifted := Mapped(g.edges, InputsUp(id, index));
            && LegalEdges(g, shifted)
            && (forall a, b :: Reach(shifted, a, b) ==> Reach(g.edges, a, b))
            && (forall e :: e in shifted ==> !(e.to == id && e.toPort == index))
  {
    MovedEdges(g, g.edges, InputsUp(id, index));
    MappedMembers(g.edges, InputsUp(id, index));
  }

  lemma OpenInputEdges(g: GraphState, id: NodeId, index: nat, connection: Option<Connection>)
    requires Sound(g) && FindNode(g.nodes, id).Some?
    requires connection.Some? ==>
      connection.value.from != id && FindNode(g.nodes, connection.value.from).Some?
      && !Reach(g.edges, id, connection.value.from)
    ensures LegalEdges(g, OpenedInput(g.edges, id, index, connection))
  {
    ShiftedInputs(g, id, index);
    if connection.Some? {
      var c := connection.value;
      var shifted := Mapped(g.edges, InputsUp(id, index));
      ConnectionAdded(g, shifted, Least(c.at, |shifted|), Edge(c.from, c.fromPort, id, index));
    }
  }

  lemma ConnectionAdded(g: GraphState, edges: seq<Edge>, at: nat, x: Edge)
    requires LegalEdges(g, edges) && at <= |edges|
    requires FindNode(g.nodes, x.from).Some? && FindNode(g.nodes, x.to).Some?
    requires !Reach(edges, x.to, x.from) && forall e :: e in edges ==> !SamePort(e, x)
    ensures LegalEdges(g, InsertAt(edges, at, x))
  {
    InsertedMembers(edges, at, x);
    InsertedOccupancy(edges, at, x);
    AddedEdgeKeepsRank(edges, x, InsertAt(edges, at, x));
  }

  lemma ShiftedDown(g: GraphState, part: seq<Edge>, id: NodeId, index: nat)
    requires Sound(g) && SingleOccupancy(part)
    requires forall e :: e in part ==> e in g.edges && !(e.to == id && e.toPort == index)
    ensures LegalEdges(g, Mapped(part, InputsDown(id, index)))
    ensures forall a, b :: Reach(Mapped(part, InputsDown(id, index)), a, b) ==> Reach(g.edges, a, b)
  {
    MovedEdges(g, part, InputsDown(id, index));
  }

  lemma CloseInputEdges(g: GraphState, id: NodeId, index: nat)
    requires Sound(g)
    ensures LegalEdges(g, ClosedInput(g.edges, id, index).0)
    ensures forall a, b :: Reach(ClosedInput(g.edges, id, index).0, a, b) ==> Reach(g.edges, a, b)
  {
    var i := EdgeIndex(g.edges, id, index);
    ClosedRest(g.edges, id, index);
    ShiftedDown(g, if i < |g.edges| then RemoveAt(g.edges, i) else g.edges, id, index);
  }

  /** What is left when the edge into a closing port is gone. */
  lemma ClosedRest(edges: seq<Edge>, id: NodeId, index: nat)
    requires SingleOccupancy(edges)
    ensures var i := EdgeIndex(edges, id, index);
            var rest := if i < |edges| then RemoveAt(edges, i) else edges;
            && SingleOccupancy(rest)
            && (forall e :: e in rest <==> e in edges && !(e.to == id && e.toPort == index))
            && ClosedInput(edges, id, index).0 == Mapped(rest, InputsDown(id, index))
  {
    var i := EdgeIndex(edges, id, index);
    if i < |edges| {
      RemovedMembers(edges, i);
      OccupantIsUnique(edges, edges[i]);
    } else {
      IncomingByMembership(edges, id, index);
    }
  }

  lemma PortCommandSound(g: GraphState, c: Command, i: nat)
    requires Sound(g) && IsPortCommand(c) && Admissible(g, c)
    requires i == NodeIndex(g.nodes, c.id) && i < |g.nodes| && EditedKind(g.nodes[i].kind, c).Some?
    ensures Sound(AfterPortCommand(g, c, i, EditedKind(g.nodes[i].kind, c).value).0)
  {
    var kind := EditedKind(g.nodes[i].kind, c).value;
    var h := AfterPortCommand(g, c, i, kind).0;
    if IsOpenInput(c) {
      OpenInputEdges(g, c.id, c.index, c.connection);
    } else if IsCloseInput(c) {
      CloseInputEdges(g, c.id, c.index);
    } else if c.InsertScriptOutput? {
      MovedEdges(g, g.edges, OutputsUp(c.id, c.index));
    } else {
      var drop := FromPort(c.id, c.index);
      KeptOccupancy(g.edges, drop);
      MovedEdges(g, Kept(g.edges, drop), OutputsDown(c.id, c.index));
    }
    assert h == g.(nodes := g.nodes[i := g.nodes[i].(kind := kind)], edges := h.edges);
    hide AfterPortCommand, EditedKind, Sound, LegalEdges, Admissible;
    ReplacedNodeSound(g, i, g.nodes[i].(kind := kind), h.edges);
  }

  /** Where a port command moves an edge it keeps. */
  function Moved(c: Command): Edge -> Edge
    requires IsPortCommand(c)
  {
    if IsOpenInput(c) then InputsUp(c.id, c.index)
    else if IsCloseInput(c) then InputsDown(c.id, c.index)
    else if c.InsertScriptOutput? then OutputsUp(c.id, c.index)
    else OutputsDown(c.id, c.index)
  }

  /** An edge of the new graph is well typed when the edge it comes from was. */
  lemma PortCommandEdgeTyped(g: GraphState, c: Command, i: nat, d: Edge)
    requires IsPortCommand(c) && WellTyped(g.nodes, d)
    requires i == NodeIndex(g.nodes, c.id) && i < |g.nodes| && EditedKind(g.nodes[i].kind, c).Some?
    requires IsCloseInput(c) ==> !(d.to == c.id && d.toPort == c.index)
    requires c.RemoveScriptOutput? ==> !(d.from == c.id && d.fromPort == c.index)
    ensures WellTyped(WithKind(g, i, EditedKind(g.nodes[i].kind, c).value).nodes, Moved(c)(d))
  {
    var was, kind := g.nodes[i].kind, EditedKind(g.nodes[i].kind, c).value;
    MovedPorts(was, c, d);
    FindUpdated(g.nodes, i, g.nodes[i].(kind := kind), d.from);
    FindUpdated(g.nodes, i, g.nodes[i].(kind := kind), d.to);
  }

  /** The moved edge ends at ports of the same types as before. */
  lemma MovedPorts(was: NodeKind, c: Command, d: Edge)
    requires IsPortCommand(c) && EditedKind(was, c).Some?
    requires IsCloseInput(c) ==> !(d.to == c.id && d.toPort == c.index)
    requires c.RemoveScriptOutput? ==> !(d.from == c.id && d.fromPort == c.index)
    ensures var kind, e := EditedKind(was, c).value, Moved(c)(d);
            && e.from == d.from && e.to == d.to
            && (if d.to == c.id then d.toPort < |Inputs(was)| ==>
                    e.toPort < |Inputs(kind)| && Inputs(kind)[e.toPort] == Inputs(was)[d.toPort]
                else e.toPort == d.toPort)
            && (if d.from == c.id then d.fromPort < |Outputs(was)| ==>
                    e.fromPort < |Outputs(kind)| && Outputs(kind)[e.fromPort] == Outputs(was)[d.fromPort]
                else e.fromPort == d.fromPort)
  {
    hide EditedKind, Inputs, Outputs;
    EditedPorts(was, c);
  }

  /** The edges a port command keeps, before it moves them. */
  function Staying(edges: seq<Edge>, c: Command): seq<Edge>
    requires IsPortCommand(c)
  {
    if IsCloseInput(c) then
      var i := EdgeIndex(edges, c.id, c.index);
      if i < |edges| then RemoveAt(edges, i) else edges
    else if c.RemoveScriptOutput? then Kept(edges, FromPort(c.id, c.index))
    else edges
  }

  lemma StayingEdge(g: GraphState, c: Command, d: Edge)
    requires Sound(g) && IsPortCommand(c) && d in Staying(g.edges, c)
    ensures d in g.edges
    ensures IsCloseInput(c) ==> !(d.to == c.id && d.toPort == c.index)
    ensures c.RemoveScriptOutput? ==> !(d.from == c.id && d.fromPort == c.index)
  {
    if IsCloseInput(c) {
      ClosedRest(g.edges, c.id, c.index);
    }
  }

  lemma PortCommandTyped(g: GraphState, c: Command, i: nat)
    requires Sound(g) && Typed(g) && IsPortCommand(c) && Fitting(g, c)
    requires i == NodeIndex(g.nodes, c.id) && i < |g.nodes| && EditedKind(g.nodes[i].kind, c).Some?
    ensures Typed(AfterPortCommand(g, c, i, EditedKind(g.nodes[i].kind, c).value).0)
  {
    var kind := EditedKind(g.nodes[i].kind, c).value;
    var h := AfterPortCommand(g, c, i, kind).0;
    var moved := Mapped(Staying(g.edges, c), Moved(c));
    MappedMembers(Staying(g.edges, c), Moved(c));
    forall e | e in moved
      ensures WellTyped(h.nodes, e)
    {
      var d :| d in Staying(g.edges, c) && e == Moved(c)(d);
      StayingEdge(g, c, d);
      PortCommandEdgeTyped(g, c, i, d);
    }
    if IsOpenInput(c) && c.connection.Some? {
      var k := c.connection.value;
      var x := Edge(k.from, k.fromPort, c.id, c.index);
      InsertedMembers(moved, Least(k.at, |moved|), x);
      ConnectionTyped(g, c, i);
    }
  }

  lemma ConnectionTyped(g: GraphState, c: Command, i: nat)
    requires IsOpenInput(c) && c.connection.Some? && Fitting(g, c)
    requires i == NodeIndex(g.nodes, c.id) && i < |g.nodes| && EditedKind(g.nodes[i].kind, c).Some?
    ensures var k := c.connection.value;
            WellTyped(WithKind(g, i, EditedKind(g.nodes[i].kind, c).value).nodes,
                      Edge(k.from, k.fromPort, c.id, c.index))
  {
    var kind := EditedKind(g.nodes[i].kind, c).value;
    EditedPorts(g.nodes[i].kind, c);
    FindUpdated(g.nodes, i, g.nodes[i].(kind := kind), c.connection.value.from);
    FindUpdated(g.nodes, i, g.nodes[i].(kind := kind), c.id);
  }

  // ----- Edge commands -----

  lemma DisconnectSound(g: GraphState, i: nat)
    requires Sound(g) && i < |g.edges|
    ensures var h := g.(edges := RemoveAt(g.edges, i)); Sound(h) && (Typed(g) ==> Typed(h))
  {
    RemovedMembers(g.edges, i);
    RankedPart(g.edges, RemoveAt(g.edges, i));
  }

  lemma RestoreEdgesSound(g: GraphState, entries: seq<(nat, Edge)>)
    requires Sound(g) && ConnectedAll(g, entries).Ok?
    ensures var h := g.(edges := InsertedAll(g.edges, entries)); Sound(h) && (Typed(g) ==> Typed(h))
  {
    ConnectedAllSound(g, entries);
    InsertedAllMembers(g.edges, entries);
    InsertedAllOccupancy(g.edges, entries);
    RankedPart(ConnectedAll(g, entries).value.edges, InsertedAll(g.edges, entries));
  }

  // ----- Every command -----

  /** What a step keeps. */
  ghost predicate Keeps(g: GraphState, h: GraphState) {
    Sound(h) && g.nextId <= h.nextId
  }

  lemma NodeCommandKeeps(g: GraphState, c: Command)
    requires c.AddNode? || c.RemoveNode? || c.MoveNode? || c.SetKind?
    requires Sound(g) && Admissible(g, c) && RunOne(g, c).Ok?
    ensures Keeps(g, RunOne(g, c).value.0) && (Typed(g) ==> Typed(RunOne(g, c).value.0))
  {
    match c
    case AddNode(node) => AddNodeSound(g, node);
    case RemoveNode(id) => RemoveNodeSound(g, id);
    case MoveNode(id, pos) => MoveNodeSound(g, id, pos);
    case SetKind(id, kind) => SetKindSound(g, id, kind);
  }

  ghost predicate KeptBy(g: GraphState, r: Outcome) {
    r.Ok? ==> Keeps(g, r.value.0) && (Typed(g) ==> Typed(r.value.0))
  }

  lemma ConnectKeeps(g: GraphState, c: Command)
    requires c.Connect? && Sound(g)
    ensures KeptBy(g, RunConnect(g, c))
  {
    if RunConnect(g, c).Ok? {
      AcceptedEdge(g, c.edge);
    }
  }

  lemma DisconnectKeeps(g: GraphState, c: Command)
    requires c.Disconnect? && Sound(g)
    ensures KeptBy(g, RunDisconnect(g, c))
  {
    if RunDisconnect(g, c).Ok? {
      DisconnectSound(g, EdgeIndex(g.edges, c.to, c.toPort));
    }
  }

  lemma RestoreKeeps(g: GraphState, c: Command)
    requires c.RestoreEdges? && Sound(g)
    ensures KeptBy(g, RunRestoreEdges(g, c))
  {
    if RunRestoreEdges(g, c).Ok? {
      RestoreEdgesSound(g, SortedByPlace(c.restored));
    }
  }

  lemma EdgeCommandKeeps(g: GraphState, c: Command)
    requires c.Connect? || c.Disconnect? || c.RestoreEdges?
    requires Sound(g)
    ensures KeptBy(g, RunOne(g, c))
  {
    hide Sound, KeptBy, RunConnect, RunDisconnect, RunRestoreEdges;
    if c.Connect? {
      ConnectKeeps(g, c);
    } else if c.Disconnect? {
      DisconnectKeeps(g, c);
    } else {
      RestoreKeeps(g, c);
    }
  }

  lemma PortCommandKeeps(g: GraphState, c: Command)
    requires Sound(g) && Admissible(g, c) && IsPortCommand(c) && RunPortCommand(g, c).Ok?
    ensures Keeps(g, RunPortCommand(g, c).value.0)
    ensures Typed(g) && Fitting(g, c) ==> Typed(RunPortCommand(g, c).value.0)
  {
    PortCommandSound(g, c, NodeIndex(g.nodes, c.id));
    if Typed(g) && Fitting(g, c) {
      PortCommandTyped(g, c, NodeIndex(g.nodes, c.id));
    }
  }

  lemma RunOneKeeps(g: GraphState, c: Command)
    requires !c.Batch?
    requires Sound(g) && Admissible(g, c) && RunOne(g, c).Ok?
    ensures Keeps(g, RunOne(g, c).value.0)
    ensures Typed(g) && Fitting(g, c) ==> Typed(RunOne(g, c).value.0)
  {
    if IsPortCommand(c) {
      PortCommandKeeps(g, c);
    } else if c.Connect? || c.Disconnect? || c.RestoreEdges? {
      EdgeCommandKeeps(g, c);
    } else {
      NodeCommandKeeps(g, c);
    }
  }

  /** Safety: an accepted command keeps the ids unique and covered by the next
      id, every edge between existing nodes, one edge per input port and no
      cycle. */
  lemma {:induction false} RunKeepsSound(g: GraphState, c: Command)
    requires Sound(g) && Admissible(g, c) && Run(g, c).Ok?
    ensures Keeps(g, Run(g, c).value.0)
    decreases c
  {
    if c.Batch? {
      RunAllKeepsSound(g, c.commands);
    } else {
      RunOneKeeps(g, c);
    }
  }

  lemma {:induction false} RunAllKeepsSound(g: GraphState, commands: seq<Command>)
    requires Sound(g) && AdmissibleAll(g, commands) && RunAll(g, commands).Ok?
    ensures Keeps(g, RunAll(g, commands).value.0)
    decreases commands
  {
    if commands != [] {
      var n := |commands| - 1;
      RunAllKeepsSound(g, commands[..n]);
      RunKeepsSound(RunAll(g, commands[..n]).value.0, commands[n]);
    }
  }

  /** Types: if the connections that a command brings fit, it also keeps every
      edge well typed. */
  lemma {:induction false} RunKeepsTyped(g: GraphState, c: Command)
    requires Sound(g) && Typed(g) && Fitting(g, c)
    ensures Admissible(g, c) && (Run(g, c).Ok? ==> Sound(Run(g, c).value.0) && Typed(Run(g, c).value.0))
    decreases c
  {
    if c.Batch? {
      RunAllKeepsTyped(g, c.commands);
    } else if Run(g, c).Ok? {
      RunOneKeeps(g, c);
    }
  }

  lemma {:induction false} RunAllKeepsTyped(g: GraphState, commands: seq<Command>)
    requires Sound(g) && Typed(g) && FittingAll(g, commands)
    ensures AdmissibleAll(g, commands)
    ensures RunAll(g, commands).Ok? ==> Sound(RunAll(g, commands).value.0) && Typed(RunAll(g, commands).value.0)
    decreases commands
  {
    if commands != [] {
      var n := |commands| - 1;
      RunAllKeepsTyped(g, commands[..n]);
      if RunAll(g, commands[..n]).Ok? {
        RunKeepsTyped(RunAll(g, commands[..n]).value.0, commands[n]);
      }
    }
  }
}
