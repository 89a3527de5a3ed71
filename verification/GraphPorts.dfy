/** A port command renumbers ports, and every edge follows the port it was
    drawn to. */
module GraphPorts {
  import opened Prelude
  import opened GraphModel
  import opened Commands
  import opened GraphFacts
  import opened GraphSafety
  import opened GraphUndo

  // ----- What ports are called -----

  /** The fields of an output node, or the input names of a script. */
  function InputLabels(k: NodeKind): seq<PortField> {
    match k
    case Output(_, fields) => fields
    case Script(s) => Named(s.inputs)
    case _ => []
  }

  function Named(names: seq<string>): (r: seq<PortField>)
    ensures |r| == |names|
  {
    seq(|names|, i requires 0 <= i < |names| => PortField(names[i], None))
  }

  lemma NamedEdited(names: seq<string>, i: nat)
    ensures i <= |names| ==>
              forall x :: Named(InsertAt(names, i, x)) == InsertAt(Named(names), i, PortField(x, None))
    ensures i < |names| ==> Named(RemoveAt(names, i)) == RemoveAt(Named(names), i)
  {
  }

  function OutputLabels(k: NodeKind): seq<PortField> {
    if k.Script? then k.script.outputs else []
  }

  predicate EditsInputs(c: Command) {
    IsOpenInput(c) || IsCloseInput(c)
  }

  /** The label that an inserting command brings. */
  function NewLabel(c: Command): PortField
    requires IsOpenInput(c) || c.InsertScriptOutput?
  {
    match c
    case InsertOutputField(_, _, field, _) => field
    case InsertScriptInput(_, _, input, _) => PortField(input, None)
    case InsertScriptOutput(_, _, output) => output
  }

  lemma LabelsEdited(k: NodeKind, c: Command)
    requires IsPortCommand(c) && EditedKind(k, c).Some?
    ensures var k' := EditedKind(k, c).value;
            var (was, now) := if EditsInputs(c) then (InputLabels(k), InputLabels(k'))
              else (OutputLabels(k), OutputLabels(k'));
            && (if EditsInputs(c) then OutputLabels(k') == OutputLabels(k) else InputLabels(k') == InputLabels(k))
            && (if IsOpenInput(c) || c.InsertScriptOutput?
                then c.index <= |was| && now == InsertAt(was, c.index, NewLabel(c))
                else c.index < |was| && now == RemoveAt(was, c.index))
  {
    hide Named;
    if k.Script? {
      NamedEdited(k.script.inputs, c.index);
    }
  }

  // ----- Edges -----

  /** The command takes away the port that the edge ends at. */
  predicate Cuts(c: Command, d: Edge)
    requires IsPortCommand(c)
  {
    (IsCloseInput(c) && d.to == c.id && d.toPort == c.index)
    || (c.RemoveScriptOutput? && d.from == c.id && d.fromPort == c.index)
  }

  predicate SamePort(was: seq<PortField>, before: nat, now: seq<PortField>, after: nat) {
    before < |was| ==> after < |now| && now[after] == was[before]
  }

  /** The edge `e` joins the ports that `d` did. */
  predicate Follows(was: NodeKind, kind: NodeKind, id: NodeId, d: Edge, e: Edge) {
    && e.from == d.from && e.to == d.to
    && (if d.to == id then SamePort(InputLabels(was), d.toPort, InputLabels(kind), e.toPort) else e.toPort == d.toPort)
    && (if d.from == id then SamePort(OutputLabels(was), d.fromPort, OutputLabels(kind), e.fromPort)
        else e.fromPort == d.fromPort)
  }

  lemma EdgeFollows(was: NodeKind, c: Command, d: Edge)
    requires IsPortCommand(c) && EditedKind(was, c).Some? && !Cuts(c, d)
    ensures Follows(was, EditedKind(was, c).value, c.id, d, Moved(c)(d))
  {
    hide EditedKind, InputLabels, OutputLabels, NewLabel;
    LabelsEdited(was, c);
  }

  lemma StayingExactly(g: GraphState, c: Command, d: Edge)
    requires Sound(g) && IsPortCommand(c)
    ensures d in Staying(g.edges, c) <==> d in g.edges && !Cuts(c, d)
  {
    if IsCloseInput(c) {
      ClosedRest(g.edges, c.id, c.index);
    }
  }

  /** The supplied connection of a new input. */
  predicate IsNewEdge(c: Command, e: Edge) {
    IsOpenInput(c) && c.connection.Some? &&
    e == Edge(c.connection.value.from, c.connection.value.fromPort, c.id, c.index)
  }

  lemma ConnectionIsNew(edges: seq<Edge>, c: Command, e: Edge)
    requires IsPortCommand(c)
    ensures e in WithConnection(edges, c) <==> e in edges || IsNewEdge(c, e)
  {
    if IsOpenInput(c) && c.connection.Some? {
      var k := c.connection.value;
      InsertedMembers(edges, Least(k.at, |edges|), Edge(k.from, k.fromPort, c.id, c.index));
    }
  }

  /** After a port command the edges are those before, but for the ones whose
      port is gone and the connection supplied for a new port; and each still
      ends at the field, input or output that it ended at. */
  lemma PortCommandKeepsWiring(g: GraphState, c: Command, i: nat)
    requires Sound(g) && IsPortCommand(c)
    requires i == NodeIndex(g.nodes, c.id) && i < |g.nodes| && EditedKind(g.nodes[i].kind, c).Some?
    ensures var was, kind := g.nodes[i].kind, EditedKind(g.nodes[i].kind, c).value;
            var h := AfterPortCommand(g, c, i, kind).0;
            && (forall d :: d in g.edges && !Cuts(c, d) ==>
                 Moved(c)(d) in h.edges && Follows(was, kind, c.id, d, Moved(c)(d)))
            && (forall e :: e in h.edges ==>
                 IsNewEdge(c, e) || exists d :: d in g.edges && !Cuts(c, d) && e == Moved(c)(d))
            && (forall e :: IsNewEdge(c, e) ==> e in h.edges)
  {
    hide Follows, EditedKind, Staying, WithConnection, AfterPortCommand, Cuts, IsNewEdge;
    var was, kind := g.nodes[i].kind, EditedKind(g.nodes[i].kind, c).value;
    var h := AfterPortCommand(g, c, i, kind).0;
    var stay := Staying(g.edges, c);
    PortCommandEdges(g, c, i);
    MappedMembers(stay, Moved(c));
    forall e
      ensures e in h.edges <==> e in Mapped(stay, Moved(c)) || IsNewEdge(c, e)
      ensures e in stay <==> e in g.edges && !Cuts(c, e)
    {
      ConnectionIsNew(Mapped(stay, Moved(c)), c, e);
      StayingExactly(g, c, e);
    }
    forall d | d in g.edges && !Cuts(c, d)
      ensures Moved(c)(d) in h.edges && Follows(was, kind, c.id, d, Moved(c)(d))
    {
      EdgeFollows(was, c, d);
    }
  }
}
