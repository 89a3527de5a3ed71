/** Undo: the inverse that an accepted command returns restores the graph. */
module GraphUndo {
  import opened Prelude
  import opened GraphModel
  import opened Commands
  import opened GraphFacts
  import opened GraphSafety

  // ----- Sequences -----

  lemma InsertedBack<T>(s: seq<T>, i: nat)
    requires i < |s|
    ensures InsertAt(RemoveAt(s, i), i, s[i]) == s
  {
  }

  lemma RemovedBack<T>(s: seq<T>, i: nat, x: T)
    requires i <= |s|
    ensures RemoveAt(InsertAt(s, i, x), i) == s
  {
  }

  lemma RemovedLast<T>(s: seq<T>, x: T)
    ensures RemoveAt(s + [x], |s|) == s && (s + [x])[|s|] == x
  {
  }

  // ----- Graphs that differ only in the order of nodes and edges -----

  ghost predicate SameGraph(g: GraphState, h: GraphState) {
    && (forall n :: n in g.nodes <==> n in h.nodes)
    && (forall e :: e in g.edges <==> e in h.edges)
  }

  lemma {:induction false} OccurrencesOfNode(nodes: seq<Node>, n: Node)
    requires UniqueIds(nodes)
    ensures multiset(nodes)[n] == if n in nodes then 1 else 0
  {
    if nodes != [] {
      assert nodes == [nodes[0]] + nodes[1..];
      OccurrencesOfNode(nodes[1..], n);
    }
  }

  lemma {:induction false} OccurrencesOfEdge(edges: seq<Edge>, e: Edge)
    requires SingleOccupancy(edges)
    ensures multiset(edges)[e] == if e in edges then 1 else 0
  {
    if edges != [] {
      assert edges == [edges[0]] + edges[1..];
      OccurrencesOfEdge(edges[1..], e);
    }
  }

  lemma NodesPermuted(ns: seq<Node>, ms: seq<Node>)
    requires UniqueIds(ns) && UniqueIds(ms)
    ensures (forall n :: n in ns <==> n in ms) <==> multiset(ns) == multiset(ms)
  {
    if forall n :: n in ns <==> n in ms {
      forall n
        ensures multiset(ns)[n] == multiset(ms)[n]
      {
        OccurrencesOfNode(ns, n);
        OccurrencesOfNode(ms, n);
      }
    } else {
      var n :| (n in ns) != (n in ms);
      OccurrencesOfNode(ns, n);
      OccurrencesOfNode(ms, n);
    }
  }

  lemma EdgesPermuted(es: seq<Edge>, fs: seq<Edge>)
    requires SingleOccupancy(es) && SingleOccupancy(fs)
    ensures (forall e :: e in es <==> e in fs) <==> multiset(es) == multiset(fs)
  {
    if forall e :: e in es <==> e in fs {
      forall e
        ensures multiset(es)[e] == multiset(fs)[e]
      {
        OccurrencesOfEdge(es, e);
        OccurrencesOfEdge(fs, e);
      }
    } else {
      var e :| (e in es) != (e in fs);
      OccurrencesOfEdge(es, e);
      OccurrencesOfEdge(fs, e);
    }
  }

  /** On sound graphs `SameGraph` is equality up to a permutation. */
  lemma SameGraphIsPermutation(g: GraphState, h: GraphState)
    requires Sound(g) && Sound(h)
    ensures SameGraph(g, h) <==> multiset(g.nodes) == multiset(h.nodes) && multiset(g.edges) == multiset(h.edges)
  {
    NodesPermuted(g.nodes, h.nodes);
    EdgesPermuted(g.edges, h.edges);
  }

  lemma SameLookup(g: GraphState, h: GraphState, id: NodeId)
    requires Sound(g) && Sound(h) && SameGraph(g, h)
    ensures FindNode(g.nodes, id) == FindNode(h.nodes, id)
  {
    if FindNode(g.nodes, id).Some? {
      FindUnique(h.nodes, FindNode(g.nodes, id).value);
    } else if FindNode(h.nodes, id).Some? {
      FindUnique(g.nodes, FindNode(h.nodes, id).value);
    }
  }

  lemma SameReach(g: GraphState, h: GraphState, a: NodeId, b: NodeId)
    requires SameGraph(g, h)
    ensures Reach(g.edges, a, b) <==> Reach(h.edges, a, b)
  {
    if Reach(g.edges, a, b) {
      SameEdgesSameReach(g.edges, h.edges, a, b);
    }
    if Reach(h.edges, a, b) {
      SameEdgesSameReach(h.edges, g.edges, a, b);
    }
  }

  lemma SameVerdict(g: GraphState, h: GraphState, e: Edge)
    requires Sound(g) && Sound(h) && SameGraph(g, h)
    ensures ConnectVerdict(g, e) == ConnectVerdict(h, e)
  {
    SameLookup(g, h, e.from);
    SameLookup(g, h, e.to);
    SameReach(g, h, e.to, e.from);
    SameIncoming(g.edges, h.edges, e.to, e.toPort);
  }

  lemma SameIncoming(es: seq<Edge>, fs: seq<Edge>, to: NodeId, port: nat)
    requires forall e :: e in es <==> e in fs
    ensures Incoming(es, to, port).Some? <==> Incoming(fs, to, port).Some?
  {
    IncomingByMembership(es, to, port);
    IncomingByMembership(fs, to, port);
  }

  // ----- Dispatch -----

  lemma RunIsPort(g: GraphState, c: Command)
    requires IsPortCommand(c)
    ensures Run(g, c) == RunPortCommand(g, c)
  {
  }

  lemma RunIsOne(g: GraphState, c: Command)
    requires !c.Batch?
    ensures Run(g, c) == RunOne(g, c)
  {
    hide RunOne;
  }

  lemma RunIsEdge(g: GraphState, c: Command)
    ensures c.Connect? ==> Run(g, c) == RunConnect(g, c)
    ensures c.Disconnect? ==> Run(g, c) == RunDisconnect(g, c)
    ensures c.RestoreEdges? ==> Run(g, c) == RunRestoreEdges(g, c)
  {
    hide Run, RunConnect, RunDisconnect, RunRestoreEdges;
    if c.Connect? {
      RunIsOne(g, c);
    } else if c.Disconnect? {
      RunIsOne(g, c);
    } else if c.RestoreEdges? {
      RunIsOne(g, c);
    }
  }

  lemma RunIsNode(g: GraphState, c: Command)
    ensures c.AddNode? ==> Run(g, c) == RunAddNode(g, c)
    ensures c.RemoveNode? ==> Run(g, c) == RunRemoveNode(g, c)
    ensures c.MoveNode? ==> Run(g, c) == RunMoveNode(g, c)
    ensures c.SetKind? ==> Run(g, c) == RunSetKind(g, c)
  {
  }

  // ----- A command does the same to both -----

  lemma SameAfterReplacedNode(g: GraphState, h: GraphState, id: NodeId, n: Node)
    requires Sound(g) && Sound(h) && SameGraph(g, h) && n.id == id
    requires NodeIndex(g.nodes, id) < |g.nodes|
    ensures var i, j := NodeIndex(g.nodes, id), NodeIndex(h.nodes, id);
            && j < |h.nodes| && g.nodes[i] == h.nodes[j]
            && var ns, ms := g.nodes[i := n], h.nodes[j := n];
            forall x :: x in ns <==> x in ms
  {
    SameLookup(g, h, id);
    var i, j := NodeIndex(g.nodes, id), NodeIndex(h.nodes, id);
    ReplacedMembers(g.nodes, i, n);
    ReplacedMembers(h.nodes, j, n);
  }

  lemma ReplacedMembers(nodes: seq<Node>, i: nat, n: Node)
    requires UniqueIds(nodes) && i < |nodes|
    ensures var r := nodes[i := n];
            forall x :: x in r <==> x == n || (x in nodes && x != nodes[i])
  {
    var r := nodes[i := n];
    assert r[i] == n;
    forall x | x in nodes && x != nodes[i]
      ensures x in r
    {
      var j :| 0 <= j < |nodes| && nodes[j] == x;
      assert r[j] == x;
    }
    forall x | x in r && x != n
      ensures x in nodes && x != nodes[i]
    {
      var j :| 0 <= j < |r| && r[j] == x;
      assert nodes[j] == x && j != i;
    }
  }

  lemma RemovedNodeMembers(nodes: seq<Node>, i: nat)
    requires UniqueIds(nodes) && i < |nodes|
    ensures forall x :: x in RemoveAt(nodes, i) <==> x in nodes && x != nodes[i]
  {
    var r := RemoveAt(nodes, i);
    forall x | x in nodes && x != nodes[i]
      ensures x in r
    {
      var j :| 0 <= j < |nodes| && nodes[j] == x;
      assert r[if j < i then j else j - 1] == x;
    }
    forall x | x in r
      ensures x in nodes && x != nodes[i]
    {
      var j :| 0 <= j < |r| && r[j] == x;
      assert nodes[if j < i then j else j + 1] == x;
    }
  }

  lemma SameMapped(es: seq<Edge>, fs: seq<Edge>, f: Edge -> Edge)
    requires forall e :: e in es <==> e in fs
    ensures forall e :: e in Mapped(es, f) <==> e in Mapped(fs, f)
  {
    MappedMembers(es, f);
    MappedMembers(fs, f);
  }

  lemma SameStaying(g: GraphState, h: GraphState, c: Command)
    requires Sound(g) && Sound(h) && SameGraph(g, h) && IsPortCommand(c)
    ensures forall e :: e in Staying(g.edges, c) <==> e in Staying(h.edges, c)
  {
    if IsCloseInput(c) {
      ClosedRest(g.edges, c.id, c.index);
      ClosedRest(h.edges, c.id, c.index);
    }
  }

  function WithConnection(moved: seq<Edge>, c: Command): seq<Edge> {
    if IsOpenInput(c) && c.connection.Some? then
      var k := c.connection.value;
      InsertAt(moved, Least(k.at, |moved|), Edge(k.from, k.fromPort, c.id, c.index))
    else moved
  }

  lemma PortCommandEdges(g: GraphState, c: Command, i: nat)
    requires i < |g.nodes| && IsPortCommand(c) && EditedKind(g.nodes[i].kind, c).Some?
    ensures AfterPortCommand(g, c, i, EditedKind(g.nodes[i].kind, c).value).0.edges
         == WithConnection(Mapped(Staying(g.edges, c), Moved(c)), c)
  {
  }

  lemma SamePortEdges(g: GraphState, h: GraphState, c: Command)
    requires Sound(g) && Sound(h) && SameGraph(g, h) && IsPortCommand(c)
    ensures var es := WithConnection(Mapped(Staying(g.edges, c), Moved(c)), c);
            var fs := WithConnection(Mapped(Staying(h.edges, c), Moved(c)), c);
            forall e :: e in es <==> e in fs
  {
    SameStaying(g, h, c);
    SameMapped(Staying(g.edges, c), Staying(h.edges, c), Moved(c));
    if IsOpenInput(c) && c.connection.Some? {
      var k := c.connection.value;
      var x := Edge(k.from, k.fromPort, c.id, c.index);
      var ms, ns := Mapped(Staying(g.edges, c), Moved(c)), Mapped(Staying(h.edges, c), Moved(c));
      InsertedMembers(ms, Least(k.at, |ms|), x);
      InsertedMembers(ns, Least(k.at, |ns|), x);
    }
  }

  lemma SamePortCommand(g: GraphState, h: GraphState, c: Command)
    requires Sound(g) && Sound(h) && SameGraph(g, h) && IsPortCommand(c) && RunPortCommand(g, c).Ok?
    ensures RunPortCommand(h, c).Ok? && SameGraph(RunPortCommand(g, c).value.0, RunPortCommand(h, c).value.0)
  {
    var i, j := NodeIndex(g.nodes, c.id), NodeIndex(h.nodes, c.id);
    var kind := EditedKind(g.nodes[i].kind, c).value;
    SameAfterReplacedNode(g, h, c.id, g.nodes[i].(kind := kind));
    SamePortEdges(g, h, c);
    PortCommandEdges(g, c, i);
    PortCommandEdges(h, c, j);
  }

  lemma SameSetKind(g: GraphState, h: GraphState, c: Command)
    requires Sound(g) && Sound(h) && SameGraph(g, h) && c.SetKind? && RunSetKind(g, c).Ok?
    ensures RunSetKind(h, c).Ok? && SameGraph(RunSetKind(g, c).value.0, RunSetKind(h, c).value.0)
  {
    var i := NodeIndex(g.nodes, c.id);
    SameAfterReplacedNode(g, h, c.id, g.nodes[i].(kind := c.kind));
  }

  lemma SameMoveNode(g: GraphState, h: GraphState, c: Command)
    requires Sound(g) && Sound(h) && SameGraph(g, h) && c.MoveNode? && RunMoveNode(g, c).Ok?
    ensures RunMoveNode(h, c).Ok? && SameGraph(RunMoveNode(g, c).value.0, RunMoveNode(h, c).value.0)
  {
    var i := NodeIndex(g.nodes, c.id);
    SameAfterReplacedNode(g, h, c.id, g.nodes[i].(pos := c.position));
  }

  lemma SameRemoveNode(g: GraphState, h: GraphState, id: NodeId)
    requires Sound(g) && Sound(h) && SameGraph(g, h) && WithoutNode(g, id).Some?
    ensures WithoutNode(h, id).Some? && SameGraph(WithoutNode(g, id).value.0, WithoutNode(h, id).value.0)
  {
    SameLookup(g, h, id);
    var i, j := NodeIndex(g.nodes, id), NodeIndex(h.nodes, id);
    RemovedNodeMembers(g.nodes, i);
    RemovedNodeMembers(h.nodes, j);
  }

  lemma SameDisconnect(g: GraphState, h: GraphState, to: NodeId, port: nat)
    requires Sound(g) && Sound(h) && SameGraph(g, h) && EdgeIndex(g.edges, to, port) < |g.edges|
    ensures var i, j := EdgeIndex(g.edges, to, port), EdgeIndex(h.edges, to, port);
            && j < |h.edges| && g.edges[i] == h.edges[j]
            && forall e :: e in RemoveAt(g.edges, i) <==> e in RemoveAt(h.edges, j)
  {
    var i := EdgeIndex(g.edges, to, port);
    OccupantIsUnique(h.edges, g.edges[i]);
    RemovedMembers(g.edges, i);
    RemovedMembers(h.edges, EdgeIndex(h.edges, to, port));
  }

  lemma {:induction false} SameConnectedAll(g: GraphState, h: GraphState, entries: seq<(nat, Edge)>)
    requires Sound(g) && Sound(h) && SameGraph(g, h) && ConnectedAll(g, entries).Ok?
    ensures ConnectedAll(h, entries).Ok? && SameGraph(ConnectedAll(g, entries).value, ConnectedAll(h, entries).value)
  {
    if entries != [] {
      var n := |entries| - 1;
      SameConnectedAll(g, h, entries[..n]);
      ConnectedAllSound(g, entries[..n]);
      ConnectedAllSound(h, entries[..n]);
      SameVerdict(ConnectedAll(g, entries[..n]).value, ConnectedAll(h, entries[..n]).value, entries[n].1);
    }
  }

  lemma SameRestoreEdges(g: GraphState, h: GraphState, entries: seq<(nat, Edge)>)
    requires Sound(g) && Sound(h) && SameGraph(g, h) && ConnectedAll(g, entries).Ok?
    ensures ConnectedAll(h, entries).Ok?
    ensures forall e :: e in InsertedAll(g.edges, entries) <==> e in InsertedAll(h.edges, entries)
  {
    SameConnectedAll(g, h, entries);
    InsertedAllMembers(g.edges, entries);
    InsertedAllMembers(h.edges, entries);
  }

  lemma SameJoins(g: GraphState, h: GraphState, id: NodeId, c: Connection)
    requires Sound(g) && Sound(h) && SameGraph(g, h)
    ensures ConnectionJoins(g, id, c) <==> ConnectionJoins(h, id, c)
  {
    SameLookup(g, h, c.from);
    SameReach(g, h, id, c.from);
  }

  lemma SameNodeCommand(g: GraphState, h: GraphState, c: Command)
    requires Sound(g) && Sound(h) && SameGraph(g, h)
    requires (c.AddNode? || c.RemoveNode? || c.MoveNode? || c.SetKind?) && RunOne(g, c).Ok?
    ensures RunOne(h, c).Ok? && SameGraph(RunOne(g, c).value.0, RunOne(h, c).value.0)
  {
    match c
    case AddNode(node) =>
    case RemoveNode(id) => SameRemoveNode(g, h, id);
    case MoveNode(_, _) => SameMoveNode(g, h, c);
    case SetKind(_, _) => SameSetKind(g, h, c);
  }

  lemma SameConnectCommand(g: GraphState, h: GraphState, c: Command)
    requires Sound(g) && Sound(h) && SameGraph(g, h) && c.Connect? && RunConnect(g, c).Ok?
    ensures RunConnect(h, c).Ok? && SameGraph(RunConnect(g, c).value.0, RunConnect(h, c).value.0)
  {
    SameVerdict(g, h, c.edge);
  }

  lemma SameDisconnectCommand(g: GraphState, h: GraphState, c: Command)
    requires Sound(g) && Sound(h) && SameGraph(g, h) && c.Disconnect? && RunDisconnect(g, c).Ok?
    ensures RunDisconnect(h, c).Ok? && SameGraph(RunDisconnect(g, c).value.0, RunDisconnect(h, c).value.0)
  {
    SameDisconnect(g, h, c.to, c.toPort);
  }

  lemma SameRestoreCommand(g: GraphState, h: GraphState, c: Command)
    requires Sound(g) && Sound(h) && SameGraph(g, h) && c.RestoreEdges? && RunRestoreEdges(g, c).Ok?
    ensures RunRestoreEdges(h, c).Ok?
    ensures SameGraph(RunRestoreEdges(g, c).value.0, RunRestoreEdges(h, c).value.0)
  {
    SameRestoreEdges(g, h, SortedByPlace(c.restored));
  }

  lemma SameRunOne(g: GraphState, h: GraphState, c: Command)
    requires Sound(g) && Sound(h) && SameGraph(g, h) && !c.Batch? && RunOne(g, c).Ok?
    ensures RunOne(h, c).Ok? && SameGraph(RunOne(g, c).value.0, RunOne(h, c).value.0)
  {
    hide Sound, SameGraph, RunPortCommand, RunRestoreEdges, RunConnect, RunDisconnect, RunAddNode, RunRemoveNode,
         RunMoveNode, RunSetKind;
    if IsPortCommand(c) {
      SamePortCommand(g, h, c);
    } else if c.RestoreEdges? {
      SameRestoreCommand(g, h, c);
    } else if c.Connect? {
      SameConnectCommand(g, h, c);
    } else if c.Disconnect? {
      SameDisconnectCommand(g, h, c);
    } else {
      SameNodeCommand(g, h, c);
    }
  }

  lemma SameAdmissible(g: GraphState, h: GraphState, c: Command)
    requires Sound(g) && Sound(h) && SameGraph(g, h) && !c.Batch? && Admissible(g, c)
    ensures Admissible(h, c)
  {
    if c.AddNode? {
      SameLookup(g, h, c.node.id);
    } else if IsOpenInput(c) && c.connection.Some? {
      SameJoins(g, h, c.id, c.connection.value);
    }
  }

  /** A command is accepted by a graph and by its permutations alike, and takes
      them to permutations of its result. */
  lemma {:induction false} SameRun(g: GraphState, h: GraphState, c: Command)
    requires Sound(g) && Sound(h) && SameGraph(g, h) && Admissible(g, c)
    ensures Admissible(h, c) && (Run(g, c).Ok? <==> Run(h, c).Ok?)
    ensures Run(g, c).Ok? ==> SameGraph(Run(g, c).value.0, Run(h, c).value.0)
    decreases c
  {
    assert SameGraph(h, g);
    hide Sound, SameGraph, RunOne, RunAll, AdmissibleAll;
    if c.Batch? {
      SameRunAll(g, h, c.commands);
    } else {
      SameAdmissible(g, h, c);
      if RunOne(g, c).Ok? {
        SameRunOne(g, h, c);
      } else if RunOne(h, c).Ok? {
        SameRunOne(h, g, c);
      }
    }
  }

  lemma {:induction false} SameRunAll(g: GraphState, h: GraphState, commands: seq<Command>)
    requires Sound(g) && Sound(h) && SameGraph(g, h) && AdmissibleAll(g, commands)
    ensures AdmissibleAll(h, commands) && (RunAll(g, commands).Ok? <==> RunAll(h, commands).Ok?)
    ensures RunAll(g, commands).Ok? ==> SameGraph(RunAll(g, commands).value.0, RunAll(h, commands).value.0)
    decreases commands
  {
    if commands != [] {
      var n := |commands| - 1;
      SameRunAll(g, h, commands[..n]);
      if RunAll(g, commands[..n]).Ok? {
        RunAllKeepsSound(g, commands[..n]);
        RunAllKeepsSound(h, commands[..n]);
        SameRun(RunAll(g, commands[..n]).value.0, RunAll(h, commands[..n]).value.0, commands[n]);
      }
    }
  }

  // ----- Running lists of commands -----

  ghost function ThenRun(r: Result<(GraphState, seq<Command>), ApplyError>, c: Command)
    : Result<(GraphState, seq<Command>), ApplyError>
  {
    if r.Err? then r
    else if Run(r.value.0, c).Err? then Err(Run(r.value.0, c).error)
    else Ok((Run(r.value.0, c).value.0, [Run(r.value.0, c).value.1] + r.value.1))
  }

  lemma RunAllAppended(g: GraphState, commands: seq<Command>, c: Command)
    ensures RunAll(g, commands + [c]) == ThenRun(RunAll(g, commands), c)
    ensures AdmissibleAll(g, commands + [c])
        <==> AdmissibleAll(g, commands) && (RunAll(g, commands).Ok? ==> Admissible(RunAll(g, commands).value.0, c))
  {
    assert (commands + [c])[..|commands|] == commands;
  }

  /** The commands are admissible and accepted in turn, and lead to `h`. */
  ghost predicate Leads(g: GraphState, commands: seq<Command>, h: GraphState) {
    AdmissibleAll(g, commands) && RunAll(g, commands).Ok? && RunAll(g, commands).value.0 == h
  }

  lemma LeadsAppended(g: GraphState, commands: seq<Command>, c: Command, h: GraphState)
    requires Leads(g, commands, h) && Admissible(h, c) && Run(h, c).Ok?
    ensures Leads(g, commands + [c], Run(h, c).value.0)
  {
    RunAllAppended(g, commands, c);
  }

  // ----- Undo -----

  /** `inverse` brings `h` back to `g` exactly when `when` holds, and is refused
      otherwise. */
  ghost predicate Undoes(h: GraphState, inverse: Command, g: GraphState, when: bool) {
    && Admissible(h, inverse)
    && (Run(h, inverse).Ok? <==> when)
    && (when ==> SameGraph(Run(h, inverse).value.0, g))
  }

  ghost predicate UndoesExactly(h: GraphState, inverse: Command, g: GraphState, when: bool) {
    && Admissible(h, inverse)
    && (Run(h, inverse).Ok? <==> when)
    && (when ==> Run(h, inverse).value.0 == g)
  }

  // ----- What a command drops -----

  function NoEdge(): Edge -> bool {
    (e: Edge) => false
  }

  function IntoPort(to: NodeId, port: nat): Edge -> bool {
    (e: Edge) => e.to == to && e.toPort == port
  }

  function ChangedSide(g: GraphState, id: NodeId, i: nat, kind: NodeKind): Edge -> bool
    requires i < |g.nodes|
  {
    var was := g.nodes[i].kind;
    OnSide(id, Inputs(was) != Inputs(kind), Outputs(was) != Outputs(kind))
  }

  /** The edges that a command drops and its inverse has to connect again.
      (Closing an input drops one too, which its inverse inserts unchecked.) */
  function Drops(g: GraphState, c: Command): Edge -> bool {
    match c
    case RemoveNode(id) => Touching(id)
    case Disconnect(to, port) => IntoPort(to, port)
    case SetKind(id, kind) =>
      var i := NodeIndex(g.nodes, id);
      if i < |g.nodes| then ChangedSide(g, id, i, kind) else NoEdge()
    case RemoveScriptOutput(id, index) => if RunPortCommand(g, c).Ok? then FromPort(id, index) else NoEdge()
    case _ => NoEdge()
  }

  ghost predicate AllTyped(g: GraphState, drop: Edge -> bool) {
    forall e :: e in g.edges && drop(e) ==> WellTyped(g.nodes, e)
  }

  /** Every edge that the command drops is well typed when it is dropped. */
  ghost predicate DropsTyped(g: GraphState, c: Command)
    decreases c
  {
    if c.Batch? then DropsTypedAll(g, c.commands) else AllTyped(g, Drops(g, c))
  }

  ghost predicate DropsTypedAll(g: GraphState, commands: seq<Command>)
    decreases commands
  {
    commands != [] ==>
      var n := |commands| - 1;
      && DropsTypedAll(g, commands[..n])
      && (RunAll(g, commands[..n]).Ok? ==> DropsTyped(RunAll(g, commands[..n]).value.0, commands[n]))
  }

  // ----- Undo, command by command -----

  lemma UndoAddNode(g: GraphState, node: Node)
    requires Sound(g) && FindNode(g.nodes, node.id).None?
    ensures var h := WithNode(g, node);
            UndoesExactly(h, RemoveNode(node.id), g.(nextId := h.nextId), true)
  {
    var h := WithNode(g, node);
    NewNodeIsLast(g.nodes, node);
    assert RemoveAt(h.nodes, |g.nodes|) == g.nodes;
    forall e | e in g.edges
      ensures !Touching(node.id)(e)
    {
      assert FindNode(g.nodes, e.from).Some? && FindNode(g.nodes, e.to).Some?;
    }
    KeptAll(g.edges, Touching(node.id));
  }

  lemma {:induction false} NewNodeIsLast(nodes: seq<Node>, node: Node)
    requires FindNode(nodes, node.id).None?
    ensures NodeIndex(nodes + [node], node.id) == |nodes|
  {
    if nodes != [] {
      assert (nodes + [node])[1..] == nodes[1..] + [node];
      NewNodeIsLast(nodes[1..], node);
    }
  }

  lemma UndoMoveNode(g: GraphState, id: NodeId, pos: Pos)
    requires NodeIndex(g.nodes, id) < |g.nodes|
    ensures var (h, inverse) := Run(g, MoveNode(id, pos)).value;
            UndoesExactly(h, inverse, g, true)
  {
    var i := NodeIndex(g.nodes, id);
    FindUpdated(g.nodes, i, g.nodes[i].(pos := pos), id);
    assert g.nodes[i := g.nodes[i].(pos := pos)][i := g.nodes[i]] == g.nodes;
  }

  lemma NewEdgeIsLast(edges: seq<Edge>, e: Edge)
    requires forall f :: f in edges ==> !SamePort(f, e)
    ensures EdgeIndex(edges + [e], e.to, e.toPort) == |edges|
  {
    var i := EdgeIndex(edges + [e], e.to, e.toPort);
    assert (edges + [e])[|edges|] == e;
    assert forall k :: 0 <= k < |edges| ==> edges[k] in edges && (edges + [e])[k] == edges[k];
  }

  lemma ConnectUndone(g: GraphState, e: Edge)
    requires Sound(g) && ConnectVerdict(g, e).Ok?
    ensures RunDisconnect(g.(edges := g.edges + [e]), Disconnect(e.to, e.toPort)) == Ok((g, Connect(e)))
  {
    AcceptedEdge(g, e);
    NewEdgeIsLast(g.edges, e);
    RemovedLast(g.edges, e);
  }

  lemma UndoConnect(g: GraphState, e: Edge)
    requires Sound(g) && ConnectVerdict(g, e).Ok?
    ensures UndoesExactly(g.(edges := g.edges + [e]), Disconnect(e.to, e.toPort), g, true)
  {
    ConnectUndone(g, e);
    RunIsEdge(g.(edges := g.edges + [e]), Disconnect(e.to, e.toPort));
  }

  lemma ReconnectedMembers(edges: seq<Edge>, i: nat)
    requires SingleOccupancy(edges) && i < |edges|
    ensures forall e :: e in RemoveAt(edges, i) + [edges[i]] <==> e in edges
    ensures forall e :: e in RemoveAt(edges, i) ==> !SamePort(e, edges[i])
  {
    RemovedMembers(edges, i);
    OccupantIsUnique(edges, edges[i]);
  }

  lemma ReconnectAccepted(g: GraphState, i: nat)
    requires Sound(g) && i < |g.edges|
    ensures ConnectVerdict(g.(edges := RemoveAt(g.edges, i)), g.edges[i]).Ok? <==> WellTyped(g.nodes, g.edges[i])
  {
    var h, e := g.(edges := RemoveAt(g.edges, i)), g.edges[i];
    DisconnectSound(g, i);
    ReconnectedMembers(g.edges, i);
    RankedPart(g.edges, h.edges + [e]);
    if WellTyped(g.nodes, e) {
      EdgeIsAccepted(h, e);
    } else if ConnectVerdict(h, e).Ok? {
      AcceptedEdge(h, e);
    }
  }

  /** A disconnected edge can be connected again exactly when it is well
      typed; edges at unknown nodes are not. */
  lemma UndoDisconnect(g: GraphState, i: nat)
    requires Sound(g) && i < |g.edges|
    ensures Undoes(g.(edges := RemoveAt(g.edges, i)), Connect(g.edges[i]), g, WellTyped(g.nodes, g.edges[i]))
  {
    ReconnectAccepted(g, i);
    ReconnectedMembers(g.edges, i);
    RunIsEdge(g.(edges := RemoveAt(g.edges, i)), Connect(g.edges[i]));
  }

  // Port commands

  /** The inverse edit of a node's kind. */
  predicate EditsBack(k: NodeKind, c: Command, inverse: Command)
    requires IsPortCommand(c) && EditedKind(k, c).Some?
  {
    match c
    case InsertOutputField(id, index, _, _) => inverse == RemoveOutputField(id, index)
    case InsertScriptInput(id, index, _, _) => inverse == RemoveScriptInput(id, index)
    case InsertScriptOutput(id, index, _) => inverse == RemoveScriptOutput(id, index)
    case RemoveOutputField(id, index) =>
      inverse.InsertOutputField? && inverse.id == id && inverse.index == index && inverse.field == k.fields[index]
    case RemoveScriptInput(id, index) =>
      && inverse.InsertScriptInput? && inverse.id == id && inverse.index == index
      && inverse.input == k.script.inputs[index]
    case RemoveScriptOutput(id, index) => inverse == InsertScriptOutput(id, index, k.script.outputs[index])
  }

  lemma FieldsEditedBack(k: NodeKind, c: Command, inverse: Command)
    requires c.InsertOutputField? || c.RemoveOutputField?
    requires EditedKind(k, c).Some? && EditsBack(k, c, inverse)
    ensures IsPortCommand(inverse) && EditedKind(EditedKind(k, c).value, inverse) == Some(k)
  {
    if c.InsertOutputField? {
      RemovedBack(k.fields, c.index, c.field);
    } else {
      InsertedBack(k.fields, c.index);
    }
  }

  lemma InputsEditedBack(k: NodeKind, c: Command, inverse: Command)
    requires c.InsertScriptInput? || c.RemoveScriptInput?
    requires EditedKind(k, c).Some? && EditsBack(k, c, inverse)
    ensures IsPortCommand(inverse) && EditedKind(EditedKind(k, c).value, inverse) == Some(k)
  {
    if c.InsertScriptInput? {
      RemovedBack(k.script.inputs, c.index, c.input);
    } else {
      InsertedBack(k.script.inputs, c.index);
    }
  }

  lemma OutputsEditedBack(k: NodeKind, c: Command, inverse: Command)
    requires c.InsertScriptOutput? || c.RemoveScriptOutput?
    requires EditedKind(k, c).Some? && EditsBack(k, c, inverse)
    ensures IsPortCommand(inverse) && EditedKind(EditedKind(k, c).value, inverse) == Some(k)
  {
    if c.InsertScriptOutput? {
      RemovedBack(k.script.outputs, c.index, c.output);
    } else {
      InsertedBack(k.script.outputs, c.index);
    }
  }

  lemma EditedBack(k: NodeKind, c: Command, inverse: Command)
    requires IsPortCommand(c) && EditedKind(k, c).Some? && EditsBack(k, c, inverse)
    ensures IsPortCommand(inverse) && EditedKind(EditedKind(k, c).value, inverse) == Some(k)
  {
    hide EditedKind, EditsBack;
    if c.InsertOutputField? || c.RemoveOutputField? {
      FieldsEditedBack(k, c, inverse);
    } else if c.InsertScriptInput? || c.RemoveScriptInput? {
      InputsEditedBack(k, c, inverse);
    } else {
      OutputsEditedBack(k, c, inverse);
    }
  }

  lemma MappedBack(edges: seq<Edge>, f: Edge -> Edge, back: Edge -> Edge)
    requires forall e :: e in edges ==> back(f(e)) == e
    ensures Mapped(Mapped(edges, f), back) == edges
  {
    forall i | 0 <= i < |edges|
      ensures Mapped(Mapped(edges, f), back)[i] == edges[i]
    {
      assert edges[i] in edges;
    }
  }

  lemma ClosedAfterOpened(edges: seq<Edge>, id: NodeId, index: nat, connection: Option<Connection>)
    ensures ClosedInput(OpenedInput(edges, id, index, connection), id, index).0 == edges
  {
    var shifted := Mapped(edges, InputsUp(id, index));
    var reopened := OpenedInput(edges, id, index, connection);
    forall i | 0 <= i < |shifted|
      ensures !(shifted[i].to == id && shifted[i].toPort == index)
    {
    }
    MappedBack(edges, InputsUp(id, index), InputsDown(id, index));
    var j := EdgeIndex(reopened, id, index);
    match connection
    case None =>
      assert reopened == shifted;
    case Some(c) =>
      var at := Least(c.at, |shifted|);
      assert reopened[at] == Edge(c.from, c.fromPort, id, index);
      assert forall k :: 0 <= k < at ==> reopened[k] == shifted[k];
      assert RemoveAt(reopened, at) == shifted;
  }

  lemma ShiftedBack(edges: seq<Edge>, id: NodeId, index: nat)
    requires forall e :: e in edges ==> !(e.to == id && e.toPort == index)
    ensures Mapped(Mapped(edges, InputsDown(id, index)), InputsUp(id, index)) == edges
  {
    MappedBack(edges, InputsDown(id, index), InputsUp(id, index));
  }

  lemma OpenedAfterClosed(edges: seq<Edge>, id: NodeId, index: nat)
    requires SingleOccupancy(edges)
    ensures OpenedInput(ClosedInput(edges, id, index).0, id, index, ClosedInput(edges, id, index).1) == edges
  {
    var i := EdgeIndex(edges, id, index);
    ClosedRest(edges, id, index);
    if i < |edges| {
      ShiftedBack(RemoveAt(edges, i), id, index);
      InsertedBack(edges, i);
    } else {
      ShiftedBack(edges, id, index);
    }
  }

  lemma KindRestored(g: GraphState, i: nat, kind: NodeKind, id: NodeId)
    requires i == NodeIndex(g.nodes, id) && i < |g.nodes|
    ensures NodeIndex(WithKind(g, i, kind).nodes, id) == i
    ensures WithKind(WithKind(g, i, kind), i, g.nodes[i].kind) == g
  {
    FindUpdated(g.nodes, i, g.nodes[i].(kind := kind), id);
    assert g.nodes[i := g.nodes[i].(kind := kind)][i := g.nodes[i]] == g.nodes;
  }

  /** The inverse of a port command, run on the new graph alone. */
  ghost predicate PortUndone(g: GraphState, c: Command)
    requires IsPortCommand(c) && RunPortCommand(g, c).Ok?
  {
    var (h, inverse) := RunPortCommand(g, c).value;
    && IsPortCommand(inverse)
    && RunPortCommand(h, inverse).Ok?
    && RunPortCommand(h, inverse).value.0 == g
  }

  lemma PortUndoneRestores(g: GraphState, c: Command)
    requires IsPortCommand(c) && RunPortCommand(g, c).Ok? && PortUndone(g, c)
    requires var (h, inverse) := RunPortCommand(g, c).value; Admissible(h, inverse)
    ensures Run(g, c).Ok?
    ensures var (h, inverse) := Run(g, c).value; UndoesExactly(h, inverse, g, true)
  {
    var (h, inverse) := RunPortCommand(g, c).value;
    RunIsPort(g, c);
    RunIsPort(h, inverse);
  }

  lemma OpenInputUndone(g: GraphState, c: Command)
    requires IsOpenInput(c) && RunPortCommand(g, c).Ok?
    ensures PortUndone(g, c)
  {
    var i := NodeIndex(g.nodes, c.id);
    var (h, inverse) := RunPortCommand(g, c).value;
    EditedBack(g.nodes[i].kind, c, inverse);
    KindRestored(g, i, EditedKind(g.nodes[i].kind, c).value, c.id);
    ClosedAfterOpened(g.edges, c.id, c.index, c.connection);
  }

  lemma ClosingInverse(g: GraphState, c: Command)
    requires IsCloseInput(c) && RunPortCommand(g, c).Ok?
    ensures var i := NodeIndex(g.nodes, c.id);
            var (h, inverse) := RunPortCommand(g, c).value;
            var (edges, connection) := ClosedInput(g.edges, c.id, c.index);
            && i < |g.nodes| && EditedKind(g.nodes[i].kind, c).Some? && EditsBack(g.nodes[i].kind, c, inverse)
            && h == WithKind(g, i, EditedKind(g.nodes[i].kind, c).value).(edges := edges)
            && IsOpenInput(inverse) && inverse.id == c.id && inverse.index == c.index
            && inverse.connection == connection
  {
    hide ClosedInput, Mapped;
  }

  lemma Opening(g: GraphState, c: Command)
    requires IsOpenInput(c)
    requires var i := NodeIndex(g.nodes, c.id); i < |g.nodes| && EditedKind(g.nodes[i].kind, c).Some?
    ensures var i := NodeIndex(g.nodes, c.id);
            && RunPortCommand(g, c).Ok?
            && RunPortCommand(g, c).value.0
               == WithKind(g, i, EditedKind(g.nodes[i].kind, c).value)
                    .(edges := OpenedInput(g.edges, c.id, c.index, c.connection))
  {
    hide EditedKind, OpenedInput;
  }

  lemma CloseInputUndone(g: GraphState, c: Command)
    requires Sound(g) && IsCloseInput(c) && RunPortCommand(g, c).Ok?
    ensures PortUndone(g, c)
  {
    var i := NodeIndex(g.nodes, c.id);
    var (h, inverse) := RunPortCommand(g, c).value;
    ClosingInverse(g, c);
    hide EditedKind, EditsBack, ClosedInput, OpenedInput, Mapped, RunPortCommand;
    EditedBack(g.nodes[i].kind, c, inverse);
    KindRestored(g, i, EditedKind(g.nodes[i].kind, c).value, c.id);
    OpenedAfterClosed(g.edges, c.id, c.index);
    Opening(h, inverse);
  }

  lemma NoneFromNewOutput(edges: seq<Edge>, id: NodeId, index: nat)
    ensures var shifted := Mapped(edges, OutputsUp(id, index));
            && Taken(shifted, FromPort(id, index)) == []
            && Mapped(Kept(shifted, FromPort(id, index)), OutputsDown(id, index)) == edges
  {
    var shifted := Mapped(edges, OutputsUp(id, index));
    MappedMembers(edges, OutputsUp(id, index));
    forall e | e in shifted
      ensures !FromPort(id, index)(e)
    {
      var d :| d in edges && e == OutputsUp(id, index)(d);
    }
    TakenNone(shifted, FromPort(id, index));
    KeptAll(shifted, FromPort(id, index));
    MappedBack(edges, OutputsUp(id, index), OutputsDown(id, index));
  }

  lemma InsertScriptOutputUndone(g: GraphState, c: Command)
    requires c.InsertScriptOutput? && RunPortCommand(g, c).Ok?
    ensures PortUndone(g, c)
  {
    hide EditedKind, Mapped, Kept, Taken, FromPort, OutputsUp, OutputsDown;
    var i := NodeIndex(g.nodes, c.id);
    var (h, inverse) := RunPortCommand(g, c).value;
    EditedBack(g.nodes[i].kind, c, inverse);
    KindRestored(g, i, EditedKind(g.nodes[i].kind, c).value, c.id);
    NoneFromNewOutput(g.edges, c.id, c.index);
  }

  lemma NoWayBackWhenClosed(g: GraphState, c: Command, e: Edge)
    requires Sound(g) && IsCloseInput(c) && e in g.edges && e.to == c.id
    ensures !Reach(ClosedInput(g.edges, c.id, c.index).0, c.id, e.from)
  {
    NoWayBack(g.edges, e);
    CloseInputEdges(g, c.id, c.index);
  }

  lemma ReopenedConnectionJoins(g: GraphState, c: Command, i: nat)
    requires Sound(g) && IsCloseInput(c)
    requires i == NodeIndex(g.nodes, c.id) && i < |g.nodes| && EditedKind(g.nodes[i].kind, c).Some?
    requires EdgeIndex(g.edges, c.id, c.index) < |g.edges|
    ensures var kind := EditedKind(g.nodes[i].kind, c).value;
            var (edges, connection) := ClosedInput(g.edges, c.id, c.index);
            ConnectionJoins(WithKind(g, i, kind).(edges := edges), c.id, connection.value)
  {
    var kind := EditedKind(g.nodes[i].kind, c).value;
    var e := g.edges[EdgeIndex(g.edges, c.id, c.index)];
    NoWayBack(g.edges, e);
    NoWayBackWhenClosed(g, c, e);
    FindUpdated(g.nodes, i, g.nodes[i].(kind := kind), e.from);
  }

  lemma CloseInputAdmissible(g: GraphState, c: Command)
    requires Sound(g) && IsCloseInput(c) && RunPortCommand(g, c).Ok?
    ensures var (h, inverse) := RunPortCommand(g, c).value; Admissible(h, inverse)
  {
    if EdgeIndex(g.edges, c.id, c.index) < |g.edges| {
      ReopenedConnectionJoins(g, c, NodeIndex(g.nodes, c.id));
    }
  }

  lemma {:induction false} TakenNone(edges: seq<Edge>, drop: Edge -> bool)
    requires forall e :: e in edges ==> !drop(e)
    ensures Taken(edges, drop) == []
  {
    if edges != [] {
      TakenNone(edges[..|edges| - 1], drop);
    }
  }

  // Commands that drop edges and put them back

  lemma SeparateAppended(kept: seq<Edge>, entries: seq<(nat, Edge)>, x: (nat, Edge))
    requires Separate(kept, entries)
    requires forall e :: e in kept || e in EdgesOf(entries) ==> !SamePort(e, x.1)
    ensures Separate(kept, entries + [x])
  {
    assert (entries + [x])[..|entries|] == entries;
  }

  lemma LastPortIsNew(before: seq<Edge>, x: Edge)
    requires SingleOccupancy(before + [x])
    ensures SingleOccupancy(before) && forall e :: e in before ==> !SamePort(e, x)
  {
    var edges := before + [x];
    assert edges[|before|] == x;
    forall i | 0 <= i < |before|
      ensures edges[i] == before[i] && !SamePort(before[i], x)
    {
    }
  }

  lemma {:induction false} TakenSeparate(kept: seq<Edge>, edges: seq<Edge>, drop: Edge -> bool)
    requires SingleOccupancy(edges)
    requires forall e, f :: e in kept && f in edges && drop(f) ==> !SamePort(e, f)
    ensures Separate(kept, Taken(edges, drop))
  {
    if edges != [] {
      var before, x := edges[..|edges| - 1], edges[|edges| - 1];
      assert edges == before + [x];
      LastPortIsNew(before, x);
      TakenSeparate(kept, before, drop);
      Split(before, x, drop);
      TakenEdges(before, drop);
      if drop(x) {
        SeparateAppended(kept, Taken(before, drop), (|before|, x));
      }
    }
  }

  lemma DroppedSeparate(edges: seq<Edge>, drop: Edge -> bool)
    requires SingleOccupancy(edges)
    ensures Separate(Kept(edges, drop), Taken(edges, drop))
  {
    forall e, f | e in Kept(edges, drop) && f in edges && drop(f)
      ensures !SamePort(e, f)
    {
      OccupantIsUnique(edges, f);
    }
    TakenSeparate(Kept(edges, drop), edges, drop);
  }

  /** Dropped edges can all be connected again exactly when they are well typed. */
  lemma DroppedEdgesConnect(g: GraphState, h: GraphState, drop: Edge -> bool)
    requires Sound(g) && Sound(h)
    requires h.nodes == g.nodes && h.edges == Kept(g.edges, drop)
    ensures ConnectedAll(h, Taken(g.edges, drop)).Ok? <==> AllTyped(g, drop)
  {
    TakenEdges(g.edges, drop);
    DroppedSeparate(g.edges, drop);
    if AllTyped(g, drop) {
      ConnectedAllSucceeds(h, g.edges, Taken(g.edges, drop));
    } else if ConnectedAll(h, Taken(g.edges, drop)).Ok? {
      ConnectedAllSound(h, Taken(g.edges, drop));
    }
  }

  lemma RestoreEdgesRuns(h: GraphState, entries: seq<(nat, Edge)>)
    requires ByPlace(entries)
    ensures UndoesExactly(h, RestoreEdges(entries), h.(edges := InsertedAll(h.edges, entries)),
              ConnectedAll(h, entries).Ok?)
  {
    RunIsEdge(h, RestoreEdges(entries));
  }

  /** Restoring the dropped edges brings the edge list back exactly when they
      are well typed, and is refused otherwise. */
  lemma DroppedEdgesRestored(g: GraphState, h: GraphState, drop: Edge -> bool)
    requires Sound(g) && Sound(h)
    requires h.nodes == g.nodes && h.edges == Kept(g.edges, drop)
    ensures UndoesExactly(h, RestoreEdges(Taken(g.edges, drop)), h.(edges := g.edges), AllTyped(g, drop))
  {
    TakenByPlace(g.edges, drop);
    DroppedEdgesConnect(g, h, drop);
    RestoreEdgesRuns(h, Taken(g.edges, drop));
    TakenThenInserted(g.edges, drop);
  }

  lemma RunTwo(g: GraphState, first: Command, second: Command)
    requires Admissible(g, first) && Run(g, first).Ok? && Admissible(Run(g, first).value.0, second)
    ensures var last := Run(Run(g, first).value.0, second);
            && AdmissibleAll(g, [first, second])
            && (RunAll(g, [first, second]).Ok? <==> last.Ok?)
            && (last.Ok? ==> RunAll(g, [first, second]).value.0 == last.value.0)
  {
    RunAllAppended(g, [], first);
    RunAllAppended(g, [first], second);
    assert [] + [first] == [first] && [first] + [second] == [first, second];
  }

  lemma ThenRestoreRestores(h: GraphState, c: Command, removed: seq<(nat, Edge)>, g: GraphState, when: bool)
    requires Admissible(h, c) && Run(h, c).Ok?
    requires UndoesExactly(Run(h, c).value.0, RestoreEdges(removed), g, when)
    requires removed == [] ==> when && Run(h, c).value.0 == g
    ensures UndoesExactly(h, ThenRestore(c, removed), g, when)
  {
    hide RunOne;
    if removed != [] {
      RunTwo(h, c, RestoreEdges(removed));
    }
  }

  lemma {:induction false} KeptLength(edges: seq<Edge>, drop: Edge -> bool)
    requires Taken(edges, drop) == []
    ensures Kept(edges, drop) == edges
  {
    if edges != [] {
      KeptLength(edges[..|edges| - 1], drop);
    }
  }

  /** A command that dropped edges is undone by `c`, then restoring them,
      exactly when they are well typed. */
  lemma DroppedThenRestored(g: GraphState, h: GraphState, c: Command, drop: Edge -> bool)
    requires Sound(g)
    requires Admissible(h, c) && Run(h, c).Ok? && Run(h, c).value.0 == g.(edges := Kept(g.edges, drop))
    requires Sound(Run(h, c).value.0)
    ensures UndoesExactly(h, ThenRestore(c, Taken(g.edges, drop)), g, AllTyped(g, drop))
  {
    var back := Run(h, c).value.0;
    DroppedEdgesRestored(g, back, drop);
    if Taken(g.edges, drop) == [] {
      KeptLength(g.edges, drop);
      assert forall e :: e in g.edges ==> !drop(e);
    }
    ThenRestoreRestores(h, c, Taken(g.edges, drop), g, AllTyped(g, drop));
  }

  /** Setting the kind back drops no further edge. */
  lemma KindSetBack(g: GraphState, id: NodeId, kind: NodeKind)
    requires NodeIndex(g.nodes, id) < |g.nodes|
    ensures var i := NodeIndex(g.nodes, id);
            var back := RunSetKind(RunSetKind(g, SetKind(id, kind)).value.0, SetKind(id, g.nodes[i].kind));
            back.Ok? && back.value.0 == g.(edges := Kept(g.edges, ChangedSide(g, id, i, kind)))
  {
    var i := NodeIndex(g.nodes, id);
    var changed := ChangedSide(g, id, i, kind);
    var h := RunSetKind(g, SetKind(id, kind)).value.0;
    KindRestored(g, i, kind, id);
    assert ChangedSide(h, id, i, g.nodes[i].kind) == changed;
    KeptAll(h.edges, changed);
  }

  /** A change of kind can be undone exactly when every edge that it drops is
      well typed. */
  lemma UndoSetKind(g: GraphState, id: NodeId, kind: NodeKind)
    requires Sound(g) && NodeIndex(g.nodes, id) < |g.nodes|
    ensures var (h, inverse) := RunSetKind(g, SetKind(id, kind)).value;
            UndoesExactly(h, inverse, g, AllTyped(g, ChangedSide(g, id, NodeIndex(g.nodes, id), kind)))
  {
    var i := NodeIndex(g.nodes, id);
    var h := RunSetKind(g, SetKind(id, kind)).value.0;
    KindSetBack(g, id, kind);
    SetKindSound(g, id, kind);
    FindUpdated(g.nodes, i, g.nodes[i].(kind := kind), id);
    SetKindSound(h, id, g.nodes[i].kind);
    RunIsNode(h, SetKind(id, g.nodes[i].kind));
    DroppedThenRestored(g, h, SetKind(id, g.nodes[i].kind), ChangedSide(g, id, i, kind));
  }

  /** Inserting the script output again moves the kept edges back. */
  lemma ScriptOutputInsertedBack(g: GraphState, c: Command)
    requires c.RemoveScriptOutput? && RunPortCommand(g, c).Ok?
    ensures var was := g.nodes[NodeIndex(g.nodes, c.id)].kind;
            var back := RunPortCommand(RunPortCommand(g, c).value.0,
                                       InsertScriptOutput(c.id, c.index, was.script.outputs[c.index]));
            back.Ok? && back.value.0 == g.(edges := Kept(g.edges, FromPort(c.id, c.index)))
  {
    hide Mapped, Taken;
    var i := NodeIndex(g.nodes, c.id);
    var was := g.nodes[i].kind;
    EditedBack(was, c, InsertScriptOutput(c.id, c.index, was.script.outputs[c.index]));
    KindRestored(g, i, EditedKind(was, c).value, c.id);
    MappedBack(Kept(g.edges, FromPort(c.id, c.index)), OutputsDown(c.id, c.index), OutputsUp(c.id, c.index));
  }

  /** A removed script output can be put back exactly when every edge from it
      is well typed. */
  lemma UndoRemoveScriptOutput(g: GraphState, c: Command)
    requires Sound(g) && c.RemoveScriptOutput? && RunPortCommand(g, c).Ok?
    ensures var (h, inverse) := RunPortCommand(g, c).value;
            UndoesExactly(h, inverse, g, AllTyped(g, FromPort(c.id, c.index)))
  {
    var i := NodeIndex(g.nodes, c.id);
    var h := RunPortCommand(g, c).value.0;
    var insert := InsertScriptOutput(c.id, c.index, g.nodes[i].kind.script.outputs[c.index]);
    ScriptOutputInsertedBack(g, c);
    RunIsPort(h, insert);
    KeptOccupancy(g.edges, FromPort(c.id, c.index));
    RankedPart(g.edges, Kept(g.edges, FromPort(c.id, c.index)));
    DroppedThenRestored(g, h, insert, FromPort(c.id, c.index));
  }
}
