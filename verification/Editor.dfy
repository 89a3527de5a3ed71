/** Applying commands to a graph in place. */
module Editor {
  import opened Prelude
  import opened GraphModel
  import opened Commands
  import opened GraphFacts
  import opened GraphSafety
  import opened GraphUndo
  import opened GraphHistory
  import opened EdgeBalance
  import opened GraphSettles

  /** Moves every edge in place. */
  method MoveEdges(graph: Graph, f: Edge -> Edge)
    modifies graph`edges
    ensures graph.edges == Mapped(old(graph.edges), f)
  {
    ghost var was := graph.edges;
    for i := 0 to |graph.edges|
      invariant |graph.edges| == |was|
      invariant forall k :: 0 <= k < i ==> graph.edges[k] == f(was[k])
      invariant forall k :: i <= k < |was| ==> graph.edges[k] == was[k]
    {
      graph.edges := graph.edges[i := f(graph.edges[i])];
    }
  }

  /** Takes the edges that `drop` selects out, with their places. */
  method TakeEdges(graph: Graph, drop: Edge -> bool) returns (removed: seq<(nat, Edge)>)
    modifies graph`edges
    ensures graph.edges == Kept(old(graph.edges), drop)
    ensures removed == Taken(old(graph.edges), drop)
  {
    var edges := graph.edges;
    graph.edges := [];
    removed := [];
    for index := 0 to |edges|
      invariant graph.edges == Kept(edges[..index], drop)
      invariant removed == Taken(edges[..index], drop)
    {
      assert edges[..index + 1][..index] == edges[..index];
      if drop(edges[index]) {
        removed := removed + [(index, edges[index])];
      } else {
        graph.edges := graph.edges + [edges[index]];
      }
    }
    assert edges[..|edges|] == edges;
  }

  method Clone(graph: Graph) returns (copy: Graph)
    ensures fresh(copy) && copy.View() == graph.View()
  {
    copy := new Graph();
    copy.nodes, copy.edges, copy.nextId := graph.nodes, graph.edges, graph.nextId;
  }

  /** Connects the entries on a copy, to find out whether they all fit. */
  method Validate(graph: Graph, entries: seq<(nat, Edge)>) returns (r: Result<(), ConnectError>)
    ensures graph.View() == old(graph.View())
    ensures match ConnectedAll(graph.View(), entries)
            case Ok(_) => r.Ok?
            case Err(error) => r == Err(error)
  {
    var validation := Clone(graph);
    for k := 0 to |entries|
      invariant graph.View() == old(graph.View())
      invariant ConnectedAll(graph.View(), entries[..k]) == Ok(validation.View())
    {
      assert entries[..k + 1][..k] == entries[..k];
      var e := entries[k].1;
      var verdict := validation.Connect(e.from, e.fromPort, e.to, e.toPort);
      if verdict.Err? {
        RefusedStays(graph.View(), entries, k + 1);
        return verdict;
      }
    }
    assert entries[..|entries|] == entries;
    return Ok(());
  }

  method InsertEdges(graph: Graph, entries: seq<(nat, Edge)>) returns (disconnects: seq<Command>)
    modifies graph`edges
    ensures disconnects == Disconnects(entries)
    ensures graph.edges == InsertedAll(old(graph.edges), entries)
  {
    disconnects := [];
    for k := 0 to |entries|
      invariant disconnects == Disconnects(entries[..k])
      invariant graph.edges == InsertedAll(old(graph.edges), entries[..k])
    {
      assert entries[..k + 1][..k] == entries[..k];
      var (index, edge) := entries[k];
      disconnects := disconnects + [Disconnect(edge.to, edge.toPort)];
      graph.edges := InsertAt(graph.edges, Least(index, |graph.edges|), edge);
    }
    assert entries[..|entries|] == entries;
  }

  method ApplyRestoreEdges(graph: Graph, restored: seq<(nat, Edge)>) returns (r: Result<Command, ApplyError>)
    modifies graph`edges
    ensures match RunRestoreEdges(old(graph.View()), RestoreEdges(restored))
            case Ok((g, inverse)) => r == Ok(inverse) && graph.View() == g
            case Err(error) => r == Err(error) && graph.View() == old(graph.View())
  {
    var entries := SortedByPlace(restored);
    var verdict := Validate(graph, entries);
    if verdict.Err? {
      return Err(Rejected(verdict.error));
    }
    var disconnects := InsertEdges(graph, entries);
    return Ok(Batch(disconnects));
  }

  lemma {:induction false} RefusedStays(g: GraphState, entries: seq<(nat, Edge)>, k: nat)
    requires k <= |entries| && ConnectedAll(g, entries[..k]).Err?
    ensures ConnectedAll(g, entries) == ConnectedAll(g, entries[..k])
  {
    if k == |entries| {
      assert entries[..k] == entries;
    } else {
      assert entries[..|entries| - 1][..k] == entries[..k];
      RefusedStays(g, entries[..|entries| - 1], k);
    }
  }

  method ApplySetKind(graph: Graph, id: NodeId, kind: NodeKind) returns (r: Result<Command, ApplyError>)
    modifies graph`nodes, graph`edges
    ensures match RunSetKind(old(graph.View()), SetKind(id, kind))
            case Ok((g, inverse)) => r == Ok(inverse) && graph.View() == g
            case Err(error) => r == Err(error) && graph.View() == old(graph.View())
  {
    hide Taken, Kept;
    var i := NodeIndex(graph.nodes, id);
    if i == |graph.nodes| {
      return Err(NoSuchNode);
    }
    var was := graph.nodes[i].kind;
    graph.nodes := graph.nodes[i := graph.nodes[i].(kind := kind)];
    var inputsChanged, outputsChanged := Inputs(was) != Inputs(kind), Outputs(was) != Outputs(kind);
    if !inputsChanged && !outputsChanged {
      KeptAll(graph.edges, OnSide(id, false, false));
      TakenNone(graph.edges, OnSide(id, false, false));
      return Ok(SetKind(id, was));
    }
    var removed := TakeEdges(graph, OnSide(id, inputsChanged, outputsChanged));
    if removed == [] {
      return Ok(SetKind(id, was));
    }
    return Ok(Batch([SetKind(id, was), RestoreEdges(removed)]));
  }

  method ApplyPortCommand(graph: Graph, c: Command) returns (r: Result<Command, ApplyError>)
    requires IsPortCommand(c)
    modifies graph`nodes, graph`edges
    ensures match RunPortCommand(old(graph.View()), c)
            case Ok((g, inverse)) => r == Ok(inverse) && graph.View() == g
            case Err(error) => r == Err(error) && graph.View() == old(graph.View())
  {
    var i := NodeIndex(graph.nodes, c.id);
    if i == |graph.nodes| {
      return Err(NoSuchNode);
    }
    var was := graph.nodes[i].kind;
    var edited := EditedKind(was, c);
    if edited.None? {
      return Err(PortError(c));
    }
    graph.nodes := graph.nodes[i := graph.nodes[i].(kind := edited.value)];
    if IsOpenInput(c) {
      r := OpenInput(graph, c);
    } else if IsCloseInput(c) {
      r := CloseInput(graph, c, was);
    } else if c.InsertScriptOutput? {
      MoveEdges(graph, OutputsUp(c.id, c.index));
      r := Ok(RemoveScriptOutput(c.id, c.index));
    } else {
      var removed := TakeEdges(graph, FromPort(c.id, c.index));
      MoveEdges(graph, OutputsDown(c.id, c.index));
      var insert := InsertScriptOutput(c.id, c.index, was.script.outputs[c.index]);
      r := Ok(if removed == [] then insert else Batch([insert, RestoreEdges(removed)]));
    }
  }

  method OpenInput(graph: Graph, c: Command) returns (r: Result<Command, ApplyError>)
    requires IsOpenInput(c)
    modifies graph`edges
    ensures graph.edges == OpenedInput(old(graph.edges), c.id, c.index, c.connection)
    ensures r == Ok(if c.InsertOutputField? then RemoveOutputField(c.id, c.index)
                    else RemoveScriptInput(c.id, c.index))
  {
    MoveEdges(graph, InputsUp(c.id, c.index));
    if c.connection.Some? {
      var k := c.connection.value;
      graph.edges := InsertAt(graph.edges, Least(k.at, |graph.edges|), Edge(k.from, k.fromPort, c.id, c.index));
    }
    return Ok(if c.InsertOutputField? then RemoveOutputField(c.id, c.index) else RemoveScriptInput(c.id, c.index));
  }

  method CloseInput(graph: Graph, c: Command, was: NodeKind) returns (r: Result<Command, ApplyError>)
    requires IsCloseInput(c) && EditedKind(was, c).Some?
    modifies graph`edges
    ensures var (edges, connection) := ClosedInput(old(graph.edges), c.id, c.index);
            && graph.edges == edges
            && r == Ok(if c.RemoveOutputField?
                       then InsertOutputField(c.id, c.index, was.fields[c.index], connection)
                       else InsertScriptInput(c.id, c.index, was.script.inputs[c.index], connection))
  {
    var i := EdgeIndex(graph.edges, c.id, c.index);
    var connection := None;
    if i < |graph.edges| {
      connection := Some(Connection(i, graph.edges[i].from, graph.edges[i].fromPort));
      graph.edges := RemoveAt(graph.edges, i);
    }
    MoveEdges(graph, InputsDown(c.id, c.index));
    return Ok(if c.RemoveOutputField?
              then InsertOutputField(c.id, c.index, was.fields[c.index], connection)
              else InsertScriptInput(c.id, c.index, was.script.inputs[c.index], connection));
  }

  method ApplyNodeCommand(graph: Graph, c: Command) returns (r: Result<Command, ApplyError>)
    requires c.AddNode? || c.RemoveNode? || c.MoveNode? || c.SetKind?
    modifies graph
    ensures match RunOne(old(graph.View()), c)
            case Ok((g, inverse)) => r == Ok(inverse) && graph.View() == g
            case Err(error) => r == Err(error) && graph.View() == old(graph.View())
  {
    match c
    case AddNode(node) =>
      graph.InsertNode(node);
      r := Ok(RemoveNode(node.id));
    case RemoveNode(id) =>
      var removed := graph.RemoveNode(id);
      if removed.None? {
        return Err(NoSuchNode);
      }
      r := Ok(Batch([AddNode(removed.value.0)] + Connects(removed.value.1)));
    case MoveNode(id, pos) =>
      var i := NodeIndex(graph.nodes, id);
      if i == |graph.nodes| {
        return Err(NoSuchNode);
      }
      r := Ok(MoveNode(id, graph.nodes[i].pos));
      graph.nodes := graph.nodes[i := graph.nodes[i].(pos := pos)];
    case SetKind(id, kind) =>
      r := ApplySetKind(graph, id, kind);
  }

  method ApplyConnect(graph: Graph, e: Edge) returns (r: Result<Command, ApplyError>)
    modifies graph`edges
    ensures match RunConnect(old(graph.View()), Connect(e))
            case Ok((g, inverse)) => r == Ok(inverse) && graph.View() == g
            case Err(error) => r == Err(error) && graph.View() == old(graph.View())
  {
    var verdict := graph.Connect(e.from, e.fromPort, e.to, e.toPort);
    return if verdict.Ok? then Ok(Disconnect(e.to, e.toPort)) else Err(Rejected(verdict.error));
  }

  method ApplyDisconnect(graph: Graph, to: NodeId, toPort: nat) returns (r: Result<Command, ApplyError>)
    modifies graph`edges
    ensures match RunDisconnect(old(graph.View()), Disconnect(to, toPort))
            case Ok((g, inverse)) => r == Ok(inverse) && graph.View() == g
            case Err(error) => r == Err(error) && graph.View() == old(graph.View())
  {
    var removed := graph.Disconnect(to, toPort);
    return if removed.Some? then Ok(Connect(removed.value)) else Err(NothingToDo);
  }

  method ApplyNodeOrEdgeCommand(graph: Graph, c: Command) returns (r: Result<Command, ApplyError>)
    requires !c.Batch? && !IsPortCommand(c) && !c.RestoreEdges?
    modifies graph
    ensures match RunOne(old(graph.View()), c)
            case Ok((g, inverse)) => r == Ok(inverse) && graph.View() == g
            case Err(error) => r == Err(error) && graph.View() == old(graph.View())
  {
    if c.Connect? {
      r := ApplyConnect(graph, c.edge);
    } else if c.Disconnect? {
      r := ApplyDisconnect(graph, c.to, c.toPort);
    } else {
      r := ApplyNodeCommand(graph, c);
    }
  }

  /** Every command but a batch, on any graph. */
  method ApplyOne(graph: Graph, c: Command) returns (r: Result<Command, ApplyError>)
    requires !c.Batch?
    modifies graph
    ensures match RunOne(old(graph.View()), c)
            case Ok((g, inverse)) => r == Ok(inverse) && graph.View() == g
            case Err(error) => r == Err(error) && graph.View() == old(graph.View())
  {
    hide RunAddNode, RunRemoveNode, RunMoveNode, RunSetKind, RunConnect, RunDisconnect, RunRestoreEdges, RunPortCommand;
    if IsPortCommand(c) {
      r := ApplyPortCommand(graph, c);
    } else if c.RestoreEdges? {
      r := ApplyRestoreEdges(graph, c.restored);
    } else {
      r := ApplyNodeOrEdgeCommand(graph, c);
    }
  }

  lemma {:induction false} RefusedBatchStays(g: GraphState, commands: seq<Command>, k: nat)
    requires k <= |commands| && RunAll(g, commands[..k]).Err?
    ensures RunAll(g, commands) == RunAll(g, commands[..k])
  {
    if k == |commands| {
      assert commands[..k] == commands;
    } else {
      assert commands[..|commands| - 1][..k] == commands[..k];
      RefusedBatchStays(g, commands[..|commands| - 1], k);
    }
  }

  lemma {:induction false} EnoughBackBefore(g: GraphState, inverses: seq<Command>, k: nat, depth: nat)
    requires k <= |inverses| && EnoughBack(g, inverses, depth)
    ensures EnoughBack(g, inverses[..k], depth)
  {
    hide Run, Enough;
    if k == |inverses| {
      assert inverses[..k] == inverses;
    } else {
      assert inverses[..|inverses| - 1][..k] == inverses[..k];
      EnoughBackBefore(g, inverses[..|inverses| - 1], k, depth);
    }
  }

  /** Applies `c` in place, on any graph. A batch that is refused half-way is
      rolled back by applying inverses, which may be refused in turn, and so on:
      that ends. */
  method Apply(graph: Graph, c: Command) returns (r: Result<Command, ApplyError>)
    modifies graph
    ensures match Run(old(graph.View()), c)
            case Ok((g, inverse)) => r == Ok(inverse) && graph.View() == g
            case Err(error) => r == Err(error) && graph.View() == Left(old(graph.View()), c)
    ensures old(Sound(graph.View()) && Admissible(graph.View(), c)) && r.Ok? ==> Sound(graph.View())
    ensures old(Sound(graph.View()) && Admissible(graph.View(), c) && DropsTyped(graph.View(), c)) && r.Err? ==>
              Sound(graph.View()) && SameGraph(graph.View(), old(graph.View()))
  {
    hide Left, Enough, AfterFailure;
    ghost var g := graph.View();
    ghost var depth: nat := 0;
    if Run(g, c).Err? {
      depth := DeepEnough(g, c, 0);
    }
    r := ApplyCommand(graph, c, depth);
    if Sound(g) && Admissible(g, c) {
      if r.Ok? {
        RunKeepsSound(g, c);
      } else if DropsTyped(g, c) {
        RefusedIsRolledBack(g, c);
      }
    }
  }

  /** `depth` bounds the rollbacks within one another. */
  method ApplyCommand(graph: Graph, c: Command, ghost depth: nat) returns (r: Result<Command, ApplyError>)
    requires Run(graph.View(), c).Err? ==> Enough(graph.View(), c, depth)
    modifies graph
    ensures match Run(old(graph.View()), c)
            case Ok((g, inverse)) => r == Ok(inverse) && graph.View() == g
            case Err(error) => r == Err(error) && graph.View() == AfterFailure(old(graph.View()), c, depth)
    decreases depth, 0, c
  {
    if c.Batch? {
      r := ApplyBatch(graph, c.commands, depth);
    } else {
      r := ApplyOne(graph, c);
    }
  }

  method ApplyBatch(graph: Graph, commands: seq<Command>, ghost depth: nat) returns (r: Result<Command, ApplyError>)
    requires RunAll(graph.View(), commands).Err? ==> EnoughAll(graph.View(), commands, depth)
    modifies graph
    ensures match RunAll(old(graph.View()), commands)
            case Ok((g, inverses)) => r == Ok(Batch(inverses)) && graph.View() == g
            case Err(error) => r == Err(error) && graph.View() == AfterFailureAll(old(graph.View()), commands, depth)
    decreases depth, 0, commands
  {
    hide Run, AfterFailure, Enough, EnoughBack;
    ghost var g := graph.View();
    var inverses := [];
    for k := 0 to |commands|
      invariant RunAll(g, commands[..k]) == Ok((graph.View(), inverses))
    {
      assert commands[..k + 1][..k] == commands[..k];
      if Run(graph.View(), commands[k]).Err? {
        RefusedBatchStays(g, commands, k + 1);
        EnoughAtRefused(g, commands, k, depth);
        RefusedPrefix(g, commands, k, depth);
      }
      var one := ApplyCommand(graph, commands[k], depth);
      if one.Err? {
        RollBack(graph, inverses, depth - 1);
        return Err(one.error);
      }
      inverses := [one.value] + inverses;
    }
    assert commands[..|commands|] == commands;
    return Ok(Batch(inverses));
  }

  /** Applies the inverses, whatever they return. */
  method RollBack(graph: Graph, inverses: seq<Command>, ghost depth: nat)
    requires EnoughBack(graph.View(), inverses, depth)
    modifies graph
    ensures graph.View() == RolledBack(old(graph.View()), inverses, depth)
    decreases depth, 1, inverses
  {
    hide Run, AfterFailure, Enough;
    ghost var g := graph.View();
    for k := 0 to |inverses|
      invariant graph.View() == RolledBack(g, inverses[..k], depth)
    {
      assert inverses[..k + 1][..k] == inverses[..k];
      EnoughBackBefore(g, inverses, k + 1, depth);
      var _ := ApplyCommand(graph, inverses[k], depth);
    }
    assert inverses[..|inverses|] == inverses;
  }
}
