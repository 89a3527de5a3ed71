/** Undo of whole commands, batches and their rollback, and where the checks
    that `apply` leaves out matter. */
module GraphHistory {
  import opened Prelude
  import opened GraphModel
  import opened Commands
  import opened GraphFacts
  import opened GraphSafety
  import opened GraphUndo

  // ----- Removing a node -----

  /** Connecting edges by commands is `ConnectedAll`. */
  lemma {:induction false} ConnectsLead(g: GraphState, entries: seq<(nat, Edge)>, commands: seq<Command>)
    requires |commands| == |entries| && forall k :: 0 <= k < |entries| ==> commands[k] == Connect(entries[k].1)
    ensures AdmissibleAll(g, commands)
    ensures RunAll(g, commands).Ok? <==> ConnectedAll(g, entries).Ok?
    ensures RunAll(g, commands).Ok? ==> RunAll(g, commands).value.0 == ConnectedAll(g, entries).value
  {
    hide Run, RunOne, Verdict;
    if entries != [] {
      var n := |entries| - 1;
      ConnectsLead(g, entries[..n], commands[..n]);
      assert commands == commands[..n] + [commands[n]];
      RunAllAppended(g, commands[..n], commands[n]);
      if RunAll(g, commands[..n]).Ok? {
        RunIsEdge(RunAll(g, commands[..n]).value.0, commands[n]);
      }
    }
  }

  lemma {:induction false} FilteredIsTaken(edges: seq<Edge>, p: Edge -> bool)
    ensures |Filtered(edges, p)| == |Taken(edges, p)|
    ensures forall k :: 0 <= k < |Taken(edges, p)| ==> Filtered(edges, p)[k] == Taken(edges, p)[k].1
  {
    if edges != [] {
      FilteredIsTaken(edges[..|edges| - 1], p);
    }
  }

  lemma NodePutBack(g: GraphState, id: NodeId)
    requires Sound(g) && WithoutNode(g, id).Some?
    ensures var (h, node, _) := WithoutNode(g, id).value;
            var back := WithNode(h, node);
            && node.id == id && FindNode(h.nodes, id).None?
            && Sound(back) && back.edges == Kept(g.edges, Touching(id))
            && (forall n :: n in back.nodes <==> n in g.nodes)
            && (forall e :: WellTyped(back.nodes, e) <==> WellTyped(g.nodes, e))
  {
    var i := NodeIndex(g.nodes, id);
    var (h, node, _) := WithoutNode(g, id).value;
    var back := WithNode(h, node);
    RemoveNodeSound(g, id);
    AddNodeSound(h, node);
    RemovedNodeMembers(g.nodes, i);
    forall n
      ensures n in back.nodes <==> n in g.nodes
    {
    }
    forall e
      ensures WellTyped(back.nodes, e) <==> WellTyped(g.nodes, e)
    {
      SameNodesLookup(back.nodes, g.nodes, e.from);
      SameNodesLookup(back.nodes, g.nodes, e.to);
    }
  }

  lemma SameNodesLookup(ns: seq<Node>, ms: seq<Node>, id: NodeId)
    requires UniqueIds(ns) && UniqueIds(ms) && forall n :: n in ns <==> n in ms
    ensures FindNode(ns, id) == FindNode(ms, id)
  {
    if FindNode(ns, id).Some? {
      FindUnique(ms, FindNode(ns, id).value);
    } else if FindNode(ms, id).Some? {
      FindUnique(ns, FindNode(ms, id).value);
    }
  }

  /** The removed edges can be connected again exactly when they are well typed. */
  lemma EdgesPutBack(g: GraphState, id: NodeId)
    requires Sound(g) && WithoutNode(g, id).Some?
    ensures var (h, node, _) := WithoutNode(g, id).value;
            var back := ConnectedAll(WithNode(h, node), Taken(g.edges, Touching(id)));
            && (back.Ok? <==> forall e :: e in g.edges && Touching(id)(e) ==> WellTyped(g.nodes, e))
            && (back.Ok? ==> SameGraph(back.value, g))
  {
    var (h, node, _) := WithoutNode(g, id).value;
    var entries := Taken(g.edges, Touching(id));
    var back := WithNode(h, node);
    NodePutBack(g, id);
    TakenEdges(g.edges, Touching(id));
    DroppedSeparate(g.edges, Touching(id));
    if ConnectedAll(back, entries).Ok? {
      ConnectedAllSound(back, entries);
    } else if forall e :: e in g.edges && Touching(id)(e) ==> WellTyped(g.nodes, e) {
      ConnectedAllSucceeds(back, g.edges, entries);
    }
  }

  /** Removing a node can be undone exactly when every edge at it is well
      typed; on edges at unknown nodes the inverse is refused. */
  lemma UndoRemoveNode(g: GraphState, id: NodeId)
    requires Sound(g) && WithoutNode(g, id).Some?
    ensures var (h, inverse) := RunRemoveNode(g, RemoveNode(id)).value;
            Undoes(h, inverse, g, AllTyped(g, Touching(id)))
  {
    hide RunAll, AdmissibleAll, ConnectedAll, Sound, Kept, Taken, WellTyped, WithNode;
    var (h, node, removed) := WithoutNode(g, id).value;
    var entries := Taken(g.edges, Touching(id));
    var back := WithNode(h, node);
    FilteredIsTaken(g.edges, Touching(id));
    ConnectsLead(back, entries, Connects(removed));
    EdgesPutBack(g, id);
    NodePutBack(g, id);
    RunIsNode(h, AddNode(node));
    RunAllFirst(h, AddNode(node), Connects(removed));
  }

  /** A list is run by running its first command, then the others. */
  lemma {:induction false} RunAllFirst(g: GraphState, first: Command, rest: seq<Command>)
    requires Admissible(g, first) && (Run(g, first).Ok? ==> AdmissibleAll(Run(g, first).value.0, rest))
    ensures AdmissibleAll(g, [first] + rest)
    ensures RunAll(g, [first] + rest).Ok? <==> Run(g, first).Ok? && RunAll(Run(g, first).value.0, rest).Ok?
    ensures RunAll(g, [first] + rest).Ok? ==>
              RunAll(g, [first] + rest).value.0 == RunAll(Run(g, first).value.0, rest).value.0
  {
    hide Run, Admissible, RunAll, AdmissibleAll;
    RunOnly(g, first);
    if rest == [] {
      assert [first] + rest == [first];
    } else {
      var n := |rest| - 1;
      assert rest == rest[..n] + [rest[n]];
      if Run(g, first).Ok? {
        RunAllAppended(Run(g, first).value.0, rest[..n], rest[n]);
      }
      RunAllFirst(g, first, rest[..n]);
      RunAllAppended(g, [first] + rest[..n], rest[n]);
      assert [first] + rest == ([first] + rest[..n]) + [rest[n]];
    }
  }

  lemma RunOnly(g: GraphState, c: Command)
    ensures AdmissibleAll(g, [c]) <==> Admissible(g, c)
    ensures RunAll(g, [c]).Ok? <==> Run(g, c).Ok?
    ensures RunAll(g, [c]).Ok? ==> RunAll(g, [c]).value.0 == Run(g, c).value.0
    ensures forall h :: AdmissibleAll(h, []) && RunAll(h, []) == Ok((h, []))
  {
    hide Run, Admissible;
    RunAllAppended(g, [], c);
    assert [] + [c] == [c];
  }

  // ----- Restoring edges -----

  lemma {:induction false} DisconnectsLead(g: GraphState, entries: seq<(nat, Edge)>)
    requires SingleOccupancy(g.edges) && Separate([], entries)
    requires forall e :: e in EdgesOf(entries) ==> e in g.edges
    ensures RunAll(g, Disconnects(entries)).Ok?
    ensures Leads(g, Disconnects(entries), RunAll(g, Disconnects(entries)).value.0)
    ensures var h := RunAll(g, Disconnects(entries)).value.0;
            && SingleOccupancy(h.edges) && h.nodes == g.nodes
            && forall e :: e in h.edges <==> e in g.edges && e !in EdgesOf(entries)
  {
    if entries == [] {
      assert Disconnects(entries) == [];
    } else {
      var n := |entries| - 1;
      var before, x := entries[..n], entries[n].1;
      DisconnectsLead(g, before);
      var h := RunAll(g, Disconnects(before)).value.0;
      OccupantIsUnique(h.edges, x);
      RemovedMembers(h.edges, EdgeIndex(h.edges, x.to, x.toPort));
      RunIsEdge(h, Disconnect(x.to, x.toPort));
      assert Disconnects(entries) == Disconnects(before) + [Disconnect(x.to, x.toPort)];
      LeadsAppended(g, Disconnects(before), Disconnect(x.to, x.toPort), h);
    }
  }

  lemma {:induction false} SeparateAlone(edges: seq<Edge>, entries: seq<(nat, Edge)>)
    requires Separate(edges, entries)
    ensures Separate([], entries)
    ensures forall e :: e in edges ==> e !in EdgesOf(entries)
  {
    if entries != [] {
      SeparateAlone(edges, entries[..|entries| - 1]);
    }
  }

  lemma UndoRestoreEdges(g: GraphState, c: Command)
    requires Sound(g) && c.RestoreEdges? && RunRestoreEdges(g, c).Ok?
    ensures var (h, inverse) := RunRestoreEdges(g, c).value; Undoes(h, inverse, g, true)
  {
    hide SortedByPlace, Separate, ConnectedAll, InsertedAll, Ranked, Disconnects;
    var entries := SortedByPlace(c.restored);
    var h := RunRestoreEdges(g, c).value.0;
    ConnectedAllSound(g, entries);
    InsertedAllMembers(g.edges, entries);
    InsertedAllOccupancy(g.edges, entries);
    SeparateAlone(g.edges, entries);
    DisconnectsLead(h, entries);
  }

  // ----- Every command -----

  lemma DropsOf(g: GraphState, c: Command)
    requires Run(g, c).Ok?
    ensures IsPortCommand(c) ==> (DropsTyped(g, c) <==>
              (c.RemoveScriptOutput? ==> AllTyped(g, FromPort(c.id, c.index))))
    ensures c.SetKind? ==> NodeIndex(g.nodes, c.id) < |g.nodes|
    ensures c.SetKind? ==> (DropsTyped(g, c) <==> AllTyped(g, ChangedSide(g, c.id, NodeIndex(g.nodes, c.id), c.kind)))
  {
    hide AfterPortCommand, AfterSetKind, EditedKind, WellTyped;
  }

  lemma UndoPortCommand(g: GraphState, c: Command)
    requires Sound(g) && IsPortCommand(c) && RunPortCommand(g, c).Ok?
    ensures var (h, inverse) := Run(g, c).value; UndoesExactly(h, inverse, g, DropsTyped(g, c))
  {
    hide RunPortCommand, PortUndone, DropsTyped, AllTyped, UndoesExactly;
    RunIsPort(g, c);
    DropsOf(g, c);
    if IsOpenInput(c) {
      OpenInputUndone(g, c);
      InverseOfOpening(g, c);
      PortUndoneRestores(g, c);
    } else if IsCloseInput(c) {
      CloseInputUndone(g, c);
      CloseInputAdmissible(g, c);
      PortUndoneRestores(g, c);
    } else if c.InsertScriptOutput? {
      InsertScriptOutputUndone(g, c);
      InverseOfOpening(g, c);
      PortUndoneRestores(g, c);
    } else {
      UndoRemoveScriptOutput(g, c);
    }
  }

  lemma InverseOfOpening(g: GraphState, c: Command)
    requires (IsOpenInput(c) || c.InsertScriptOutput?) && RunPortCommand(g, c).Ok?
    ensures var (h, inverse) := RunPortCommand(g, c).value; Admissible(h, inverse)
  {
  }

  /** The commands whose undo brings back even the order of nodes and edges. */
  predicate UndoneExactly(c: Command) {
    IsPortCommand(c) || c.SetKind? || c.Connect? || c.MoveNode?
  }

  /** Undo is exact for port commands, kinds, connections and moves. */
  lemma UndoExactly(g: GraphState, c: Command)
    requires Sound(g) && UndoneExactly(c) && Run(g, c).Ok?
    ensures var (h, inverse) := Run(g, c).value; UndoesExactly(h, inverse, g, DropsTyped(g, c))
  {
    hide UndoesExactly, RunPortCommand, RunSetKind, RunConnect, RunMoveNode;
    if IsPortCommand(c) {
      RunIsPort(g, c);
      UndoPortCommand(g, c);
    } else if c.Connect? {
      RunIsEdge(g, c);
      ConnectIsUndone(g, c);
    } else if c.MoveNode? {
      RunIsNode(g, c);
      MoveIsUndone(g, c);
    } else {
      RunIsNode(g, c);
      SetKindIsUndone(g, c);
    }
  }

  lemma ConnectIsUndone(g: GraphState, c: Command)
    requires Sound(g) && c.Connect? && RunConnect(g, c).Ok?
    ensures var (h, inverse) := RunConnect(g, c).value; UndoesExactly(h, inverse, g, DropsTyped(g, c))
  {
    UndoConnect(g, c.edge);
  }

  lemma MoveIsUndone(g: GraphState, c: Command)
    requires Sound(g) && c.MoveNode? && RunMoveNode(g, c).Ok?
    ensures var (h, inverse) := RunMoveNode(g, c).value; UndoesExactly(h, inverse, g, DropsTyped(g, c))
  {
    UndoMoveNode(g, c.id, c.position);
  }

  lemma SetKindIsUndone(g: GraphState, c: Command)
    requires Sound(g) && c.SetKind? && RunSetKind(g, c).Ok?
    ensures var (h, inverse) := RunSetKind(g, c).value; UndoesExactly(h, inverse, g, DropsTyped(g, c))
  {
    hide UndoesExactly, DropsTyped, AllTyped;
    RunIsNode(g, c);
    DropsOf(g, c);
    UndoSetKind(g, c.id, c.kind);
  }

  lemma UndoOne(g: GraphState, c: Command)
    requires Sound(g) && !c.Batch? && Admissible(g, c) && Run(g, c).Ok?
    ensures var (h, inverse) := Run(g, c).value; Undoes(h, inverse, g, DropsTyped(g, c))
  {
    hide RunOne;
    if UndoneExactly(c) {
      UndoExactly(g, c);
    } else if c.AddNode? {
      RunIsNode(g, c);
      UndoAddNode(g, c.node);
    } else if c.RemoveNode? {
      RunIsNode(g, c);
      UndoRemoveNode(g, c.id);
    } else if c.Disconnect? {
      RunIsEdge(g, c);
      DisconnectIsUndone(g, c);
    } else {
      RunIsEdge(g, c);
      UndoRestoreEdges(g, c);
    }
  }

  lemma DisconnectIsUndone(g: GraphState, c: Command)
    requires Sound(g) && c.Disconnect? && RunDisconnect(g, c).Ok?
    ensures var (h, inverse) := RunDisconnect(g, c).value; Undoes(h, inverse, g, DropsTyped(g, c))
  {
    var i := EdgeIndex(g.edges, c.to, c.toPort);
    UndoDisconnect(g, i);
    OccupantIsUnique(g.edges, g.edges[i]);
  }

  /** Undo: the inverse of an accepted command brings the graph back, up to the
      order of nodes and edges and the next id, exactly when every edge that the
      command dropped was well typed when it was dropped; else it is refused. */
  lemma {:induction false} Undo(g: GraphState, c: Command)
    requires Sound(g) && Admissible(g, c) && Run(g, c).Ok?
    ensures var (h, inverse) := Run(g, c).value; Undoes(h, inverse, g, DropsTyped(g, c))
    decreases c
  {
    if c.Batch? {
      UndoAll(g, c.commands);
    } else {
      UndoOne(g, c);
    }
  }

  lemma {:induction false} UndoAll(g: GraphState, commands: seq<Command>)
    requires Sound(g) && AdmissibleAll(g, commands) && RunAll(g, commands).Ok?
    ensures var (h, inverses) := RunAll(g, commands).value;
            && AdmissibleAll(h, inverses)
            && (RunAll(h, inverses).Ok? <==> DropsTypedAll(g, commands))
            && (RunAll(h, inverses).Ok? ==> SameGraph(RunAll(h, inverses).value.0, g))
    decreases commands
  {
    hide Sound, SameGraph, DropsTyped, Admissible, Run;
    if commands == [] {
      SameGraphAsItself(g);
    } else {
      var n := |commands| - 1;
      var (g1, inverses) := RunAll(g, commands[..n]).value;
      var (h, inverse) := Run(g1, commands[n]).value;
      RunAllKeepsSound(g, commands[..n]);
      RunKeepsSound(g1, commands[n]);
      Undo(g1, commands[n]);
      UndoAll(g, commands[..n]);
      if Run(h, inverse).Ok? {
        var h1 := Run(h, inverse).value.0;
        RunKeepsSound(h, inverse);
        SameGraphBack(g1, h1);
        SameRunAll(g1, h1, inverses);
        if RunAll(h1, inverses).Ok? {
          SameGraphTwice(RunAll(h1, inverses).value.0, RunAll(g1, inverses).value.0, g);
        }
      }
      RunAllFirst(h, inverse, inverses);
    }
  }

  lemma SameGraphAsItself(g: GraphState)
    ensures SameGraph(g, g)
  {
  }

  lemma SameGraphBack(g: GraphState, h: GraphState)
    requires SameGraph(h, g)
    ensures SameGraph(g, h)
  {
  }

  lemma SameGraphTwice(a: GraphState, b: GraphState, c: GraphState)
    requires SameGraph(b, a) && SameGraph(b, c)
    ensures SameGraph(a, c)
  {
  }

  // ----- What a refused command leaves -----

  /** The inverses applied in turn, whatever they return. */
  ghost function RolledBack(g: GraphState, inverses: seq<Command>, depth: nat): GraphState
    decreases depth, 1, inverses
  {
    if inverses == [] then g
    else
      var n := |inverses| - 1;
      var before := RolledBack(g, inverses[..n], depth);
      match Run(before, inverses[n])
      case Err(_) => AfterFailure(before, inverses[n], depth)
      case Ok((after, _)) => after
  }

  /** The graph left behind by a command that is refused. A rollback applies
      inverses, which may be refused in turn; `depth` is how many rollbacks
      within one another are followed. */
  ghost function AfterFailure(g: GraphState, c: Command, depth: nat): GraphState
    decreases depth, 0, c
  {
    if c.Batch? then AfterFailureAll(g, c.commands, depth) else g
  }

  ghost function AfterFailureAll(g: GraphState, commands: seq<Command>, depth: nat): GraphState
    decreases depth, 0, commands
  {
    if commands == [] then g
    else
      var n := |commands| - 1;
      match RunAll(g, commands[..n])
      case Err(_) => AfterFailureAll(g, commands[..n], depth)
      case Ok((before, inverses)) =>
        var left := AfterFailure(before, commands[n], depth);
        if depth == 0 then left else RolledBack(left, inverses, depth - 1)
  }

  lemma {:induction false} RolledBackIsRunAll(g: GraphState, inverses: seq<Command>, depth: nat)
    requires RunAll(g, inverses).Ok?
    ensures RolledBack(g, inverses, depth) == RunAll(g, inverses).value.0
  {
    if inverses != [] {
      RolledBackIsRunAll(g, inverses[..|inverses| - 1], depth);
    }
  }

  /** Every inverse of the rollback is accepted if every dropped edge was well
      typed. */
  lemma RollbackSucceeds(g: GraphState, commands: seq<Command>, f: GraphState, depth: nat)
    requires Sound(g) && AdmissibleAll(g, commands) && RunAll(g, commands).Ok? && DropsTypedAll(g, commands)
    requires Sound(f) && SameGraph(f, RunAll(g, commands).value.0)
    ensures var inverses := RunAll(g, commands).value.1;
            && AdmissibleAll(f, inverses) && RunAll(f, inverses).Ok?
            && RolledBack(f, inverses, depth) == RunAll(f, inverses).value.0
            && SameGraph(RolledBack(f, inverses, depth), g) && Sound(RolledBack(f, inverses, depth))
  {
    hide Sound, DropsTypedAll;
    var (h, inverses) := RunAll(g, commands).value;
    UndoAll(g, commands);
    RunAllKeepsSound(g, commands);
    SameRunAll(h, f, inverses);
    RolledBackIsRunAll(f, inverses, depth);
    RunAllKeepsSound(f, inverses);
  }

  /** A refused command leaves the graph as it was if every edge that it had
      dropped was well typed; one level of rollbacks is enough then. */
  lemma {:induction false} FailureRestores(g: GraphState, c: Command, depth: nat)
    requires Sound(g) && Admissible(g, c) && DropsTyped(g, c) && Run(g, c).Err? && depth > 0
    ensures SameGraph(AfterFailure(g, c, depth), g) && Sound(AfterFailure(g, c, depth))
    decreases c
  {
    if c.Batch? {
      FailureRestoresAll(g, c.commands, depth);
    }
  }

  lemma {:induction false} FailureRestoresAll(g: GraphState, commands: seq<Command>, depth: nat)
    requires Sound(g) && AdmissibleAll(g, commands) && DropsTypedAll(g, commands) && RunAll(g, commands).Err?
    requires depth > 0
    ensures SameGraph(AfterFailureAll(g, commands, depth), g) && Sound(AfterFailureAll(g, commands, depth))
    decreases commands
  {
    hide Sound, SameGraph, RolledBack;
    var n := |commands| - 1;
    match RunAll(g, commands[..n]) {
      case Err(_) =>
        FailureRestoresAll(g, commands[..n], depth);
      case Ok((before, inverses)) =>
        RunAllKeepsSound(g, commands[..n]);
        FailureRestores(before, commands[n], depth);
        RollbackSucceeds(g, commands[..n], AfterFailure(before, commands[n], depth), depth - 1);
    }
  }

  // ----- Typed graphs -----

  /** On a typed graph every dropped edge is well typed. */
  lemma {:induction false} TypedGraphsDropTyped(g: GraphState, c: Command)
    requires Sound(g) && Typed(g) && Fitting(g, c)
    ensures DropsTyped(g, c)
    decreases c
  {
    if c.Batch? {
      TypedGraphsDropTypedAll(g, c.commands);
    }
  }

  lemma {:induction false} TypedGraphsDropTypedAll(g: GraphState, commands: seq<Command>)
    requires Sound(g) && Typed(g) && FittingAll(g, commands)
    ensures DropsTypedAll(g, commands)
    decreases commands
  {
    if commands != [] {
      var n := |commands| - 1;
      TypedGraphsDropTypedAll(g, commands[..n]);
      RunAllKeepsTyped(g, commands[..n]);
      if RunAll(g, commands[..n]).Ok? {
        TypedGraphsDropTyped(RunAll(g, commands[..n]).value.0, commands[n]);
      }
    }
  }

  // ----- Where the checks that `apply` leaves out matter -----

  /** An added node keeps the graph sound exactly when its id is new. */
  lemma AddNodeNeedsFreshId(g: GraphState, node: Node)
    requires Sound(g)
    ensures Sound(WithNode(g, node)) <==> FindNode(g.nodes, node.id).None?
  {
    if FindNode(g.nodes, node.id).None? {
      AddNodeSound(g, node);
    } else {
      var i := NodeIndex(g.nodes, node.id);
      var nodes := WithNode(g, node).nodes;
      assert nodes[i].id == nodes[|g.nodes|].id;
    }
  }

  /** A supplied connection keeps the graph sound exactly when it joins it, and
      typed too exactly when it fits the port it is wired into. */
  lemma OpenInputNeedsFittingConnection(g: GraphState, c: Command)
    requires Sound(g) && IsOpenInput(c) && c.connection.Some? && RunPortCommand(g, c).Ok?
    ensures var h := RunPortCommand(g, c).value.0;
            && (Sound(h) <==> ConnectionJoins(g, c.id, c.connection.value))
            && (Typed(g) ==> (Sound(h) && Typed(h) <==> ConnectionFits(g, c.id, Accepts(c), c.connection.value)))
  {
    var i := NodeIndex(g.nodes, c.id);
    var h := RunPortCommand(g, c).value.0;
    if ConnectionJoins(g, c.id, c.connection.value) {
      PortCommandSound(g, c, i);
      if Typed(g) && ConnectionFits(g, c.id, Accepts(c), c.connection.value) {
        PortCommandTyped(g, c, i);
      }
    }
    if Sound(h) {
      FittingConnection(g, c, i);
    }
  }

  lemma FittingConnection(g: GraphState, c: Command, i: nat)
    requires Sound(g) && IsOpenInput(c) && c.connection.Some?
    requires i == NodeIndex(g.nodes, c.id) && i < |g.nodes| && EditedKind(g.nodes[i].kind, c).Some?
    requires Sound(AfterPortCommand(g, c, i, EditedKind(g.nodes[i].kind, c).value).0)
    ensures ConnectionJoins(g, c.id, c.connection.value)
    ensures Typed(AfterPortCommand(g, c, i, EditedKind(g.nodes[i].kind, c).value).0) ==>
              ConnectionFits(g, c.id, Accepts(c), c.connection.value)
  {
    var kind := EditedKind(g.nodes[i].kind, c).value;
    var h := AfterPortCommand(g, c, i, kind).0;
    var k := c.connection.value;
    var x := Edge(k.from, k.fromPort, c.id, c.index);
    var shifted := Mapped(g.edges, InputsUp(c.id, c.index));
    InsertedMembers(shifted, Least(k.at, |shifted|), x);
    assert x in h.edges;
    NoWayBack(h.edges, x);
    EditedPorts(g.nodes[i].kind, c);
    FindUpdated(g.nodes, i, g.nodes[i].(kind := kind), k.from);
    OpenedReach(g.edges, h.edges, c.id, c.index, k.from);
  }

  lemma OpenedReach(edges: seq<Edge>, after: seq<Edge>, id: NodeId, index: nat, a: NodeId)
    requires forall e :: e in Mapped(edges, InputsUp(id, index)) ==> e in after
    ensures Reach(edges, id, a) ==> Reach(after, id, a)
  {
    if Reach(edges, id, a) {
      MappedMembers(edges, InputsUp(id, index));
      forall e | e in edges
        ensures HasEdge(after, e.from, e.to)
      {
        assert InputsUp(id, index)(e) in after;
      }
      ReachByPairs(edges, after, id, a);
    }
  }
}
