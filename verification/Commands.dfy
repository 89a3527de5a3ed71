/** Editing commands. `Run` says what a command that is accepted does to a
    graph and which command undoes it; `Editor.Apply` does it in place. */
module Commands {
  import opened Prelude
  import opened GraphModel

  datatype Command =
    | AddNode(node: Node)
    | RemoveNode(id: NodeId)
    | MoveNode(id: NodeId, position: Pos)
    | Connect(edge: Edge)
    | Disconnect(to: NodeId, toPort: nat)
    | SetKind(id: NodeId, kind: NodeKind)
    | InsertOutputField(id: NodeId, index: nat, field: PortField, connection: Option<Connection>)
    | RemoveOutputField(id: NodeId, index: nat)
    | InsertScriptInput(id: NodeId, index: nat, input: string, connection: Option<Connection>)
    | RemoveScriptInput(id: NodeId, index: nat)
    | InsertScriptOutput(id: NodeId, index: nat, output: PortField)
    | RemoveScriptOutput(id: NodeId, index: nat)
    | RestoreEdges(restored: seq<(nat, Edge)>)
    | Batch(commands: seq<Command>)

  /** An edge to put back at `at` in the edge list, into a reopened port. */
  datatype Connection = Connection(at: nat, from: NodeId, fromPort: nat)

  datatype ApplyError =
    NoSuchNode | Rejected(error: ConnectError) | NothingToDo | InvalidOutputField | InvalidScriptPort

  // ----- Edge lists -----

  function Mapped(edges: seq<Edge>, f: Edge -> Edge): (r: seq<Edge>)
    ensures |r| == |edges| && forall i :: 0 <= i < |edges| ==> r[i] == f(edges[i])
  {
    seq(|edges|, i requires 0 <= i < |edges| => f(edges[i]))
  }

  function InputsUp(id: NodeId, index: nat): Edge -> Edge {
    (e: Edge) => if e.to == id && e.toPort >= index then e.(toPort := e.toPort + 1) else e
  }

  function InputsDown(id: NodeId, index: nat): Edge -> Edge {
    (e: Edge) => if e.to == id && e.toPort > index then e.(toPort := e.toPort - 1) else e
  }

  function OutputsUp(id: NodeId, index: nat): Edge -> Edge {
    (e: Edge) => if e.from == id && e.fromPort >= index then e.(fromPort := e.fromPort + 1) else e
  }

  function OutputsDown(id: NodeId, index: nat): Edge -> Edge {
    (e: Edge) => if e.from == id && e.fromPort > index then e.(fromPort := e.fromPort - 1) else e
  }

  /** Edges on a changed side of node `id`. */
  function OnSide(id: NodeId, inputs: bool, outputs: bool): Edge -> bool {
    (e: Edge) => (inputs && e.to == id) || (outputs && e.from == id)
  }

  function FromPort(id: NodeId, index: nat): Edge -> bool {
    (e: Edge) => e.from == id && e.fromPort == index
  }

  /** The dropped edges, each with its place in the list. */
  function Taken(edges: seq<Edge>, drop: Edge -> bool): (r: seq<(nat, Edge)>)
    ensures forall k :: 0 <= k < |r| ==> r[k].0 < |edges| && edges[r[k].0] == r[k].1 && drop(r[k].1)
    ensures |r| + |Kept(edges, drop)| == |edges|
  {
    if edges == [] then []
    else
      var n := |edges| - 1;
      var before := Taken(edges[..n], drop);
      if drop(edges[n]) then before + [(n, edges[n])] else before
  }

  /** `Vec::insert` at `min(at, len)` for each entry in turn. */
  function InsertedAll(edges: seq<Edge>, entries: seq<(nat, Edge)>): (r: seq<Edge>)
    ensures |r| == |edges| + |entries|
  {
    if entries == [] then edges
    else
      var n := |entries| - 1;
      var before := InsertedAll(edges, entries[..n]);
      InsertAt(before, Least(entries[n].0, |before|), entries[n].1)
  }

  function Least(a: nat, b: nat): nat {
    if a < b then a else b
  }

  predicate ByPlace(entries: seq<(nat, Edge)>) {
    forall j, k :: 0 <= j < k < |entries| ==> entries[j].0 <= entries[k].0
  }

  /** Stable sort by place, `sort_by_key(|(index, _)| *index)`. */
  function SortedByPlace(entries: seq<(nat, Edge)>): (r: seq<(nat, Edge)>)
    ensures multiset(r) == multiset(entries)
    ensures ByPlace(r)
    ensures ByPlace(entries) ==> r == entries
  {
    if entries == [] then []
    else
      var n := |entries| - 1;
      assert entries == entries[..n] + [entries[n]];
      PlacedIn(SortedByPlace(entries[..n]), entries[n])
  }

  function PlacedIn(sorted: seq<(nat, Edge)>, x: (nat, Edge)): (r: seq<(nat, Edge)>)
    requires ByPlace(sorted)
    ensures multiset(r) == multiset(sorted) + multiset{x}
    ensures ByPlace(r)
    ensures r != [] && r[|r| - 1].0 == if Last(sorted, x).0 <= x.0 then x.0 else Last(sorted, x).0
    ensures Last(sorted, x).0 <= x.0 ==> r == sorted + [x]
  {
    if Last(sorted, x).0 <= x.0 then
      ByPlaceAppended(sorted, x);
      sorted + [x]
    else
      var n := |sorted| - 1;
      assert sorted == sorted[..n] + [sorted[n]];
      var r := PlacedIn(sorted[..n], x);
      ByPlaceAppended(r, sorted[n]);
      r + [sorted[n]]
  }

  function Last<T>(s: seq<T>, default: T): T {
    if s == [] then default else s[|s| - 1]
  }

  lemma ByPlaceAppended(sorted: seq<(nat, Edge)>, x: (nat, Edge))
    requires ByPlace(sorted) && Last(sorted, x).0 <= x.0
    ensures ByPlace(sorted + [x])
  {
  }

  ghost function ConnectedAll(g: GraphState, entries: seq<(nat, Edge)>): Result<GraphState, ConnectError> {
    if entries == [] then Ok(g)
    else
      var n := |entries| - 1;
      match ConnectedAll(g, entries[..n])
      case Err(error) => Err(error)
      case Ok(before) =>
        match ConnectVerdict(before, entries[n].1)
        case Err(error) => Err(error)
        case Ok(_) => Ok(before.(edges := before.edges + [entries[n].1]))
  }

  // ----- Node kinds -----

  /** The node kind after a port command, when the command fits the node. */
  function EditedKind(k: NodeKind, c: Command): Option<NodeKind> {
    match c
    case InsertOutputField(_, index, field, _) =>
      if k.Output? && index <= |k.fields| then Some(k.(fields := InsertAt(k.fields, index, field))) else None
    case RemoveOutputField(_, index) =>
      if k.Output? && index < |k.fields| then Some(k.(fields := RemoveAt(k.fields, index))) else None
    case InsertScriptInput(_, index, input, _) =>
      if k.Script? && index <= |k.script.inputs|
      then Some(Script(k.script.(inputs := InsertAt(k.script.inputs, index, input)))) else None
    case RemoveScriptInput(_, index) =>
      if k.Script? && index < |k.script.inputs|
      then Some(Script(k.script.(inputs := RemoveAt(k.script.inputs, index)))) else None
    case InsertScriptOutput(_, index, output) =>
      if k.Script? && index <= |k.script.outputs|
      then Some(Script(k.script.(outputs := InsertAt(k.script.outputs, index, output)))) else None
    case RemoveScriptOutput(_, index) =>
      if k.Script? && index < |k.script.outputs|
      then Some(Script(k.script.(outputs := RemoveAt(k.script.outputs, index)))) else None
    case _ => None
  }

  predicate IsOpenInput(c: Command) {
    c.InsertOutputField? || c.InsertScriptInput?
  }

  predicate IsCloseInput(c: Command) {
    c.RemoveOutputField? || c.RemoveScriptInput?
  }

  predicate IsPortCommand(c: Command) {
    IsOpenInput(c) || IsCloseInput(c) || c.InsertScriptOutput? || c.RemoveScriptOutput?
  }

  function PortError(c: Command): ApplyError {
    if c.InsertOutputField? || c.RemoveOutputField? then InvalidOutputField else InvalidScriptPort
  }

  function WithKind(g: GraphState, i: nat, kind: NodeKind): GraphState
    requires i < |g.nodes|
  {
    g.(nodes := g.nodes[i := g.nodes[i].(kind := kind)])
  }

  function OpenedInput(edges: seq<Edge>, id: NodeId, index: nat, connection: Option<Connection>): seq<Edge> {
    var shifted := Mapped(edges, InputsUp(id, index));
    match connection
    case None => shifted
    case Some(c) => InsertAt(shifted, Least(c.at, |shifted|), Edge(c.from, c.fromPort, id, index))
  }

  function ClosedInput(edges: seq<Edge>, id: NodeId, index: nat): (seq<Edge>, Option<Connection>) {
    var i := EdgeIndex(edges, id, index);
    if i < |edges| then
      (Mapped(RemoveAt(edges, i), InputsDown(id, index)), Some(Connection(i, edges[i].from, edges[i].fromPort)))
    else
      (Mapped(edges, InputsDown(id, index)), None)
  }

  function AfterPortCommand(g: GraphState, c: Command, i: nat, kind: NodeKind): (GraphState, Command)
    requires i < |g.nodes| && IsPortCommand(c) && EditedKind(g.nodes[i].kind, c) == Some(kind)
  {
    var g' := WithKind(g, i, kind);
    var was := g.nodes[i].kind;
    match c
    case InsertOutputField(id, index, _, connection) =>
      (g'.(edges := OpenedInput(g.edges, id, index, connection)), RemoveOutputField(id, index))
    case InsertScriptInput(id, index, _, connection) =>
      (g'.(edges := OpenedInput(g.edges, id, index, connection)), RemoveScriptInput(id, index))
    case RemoveOutputField(id, index) =>
      var (edges, connection) := ClosedInput(g.edges, id, index);
      (g'.(edges := edges), InsertOutputField(id, index, was.fields[index], connection))
    case RemoveScriptInput(id, index) =>
      var (edges, connection) := ClosedInput(g.edges, id, index);
      (g'.(edges := edges), InsertScriptInput(id, index, was.script.inputs[index], connection))
    case InsertScriptOutput(id, index, _) =>
      (g'.(edges := Mapped(g.edges, OutputsUp(id, index))), RemoveScriptOutput(id, index))
    case RemoveScriptOutput(id, index) =>
      var kept := Mapped(Kept(g.edges, FromPort(id, index)), OutputsDown(id, index));
      (g'.(edges := kept),
       ThenRestore(InsertScriptOutput(id, index, was.script.outputs[index]), Taken(g.edges, FromPort(id, index))))
  }

  function ThenRestore(c: Command, removed: seq<(nat, Edge)>): Command {
    if removed == [] then c else Batch([c, RestoreEdges(removed)])
  }

  function Connects(edges: seq<Edge>): seq<Command> {
    seq(|edges|, i requires 0 <= i < |edges| => Connect(edges[i]))
  }

  function Disconnects(entries: seq<(nat, Edge)>): seq<Command> {
    seq(|entries|, i requires 0 <= i < |entries| => Disconnect(entries[i].1.to, entries[i].1.toPort))
  }

  function AfterSetKind(g: GraphState, id: NodeId, i: nat, kind: NodeKind): (GraphState, Command)
    requires i < |g.nodes|
  {
    var was := g.nodes[i].kind;
    var changed := OnSide(id, Inputs(was) != Inputs(kind), Outputs(was) != Outputs(kind));
    (WithKind(g, i, kind).(edges := Kept(g.edges, changed)),
     ThenRestore(SetKind(id, was), Taken(g.edges, changed)))
  }

  // ----- What an accepted command does -----

  type Outcome = Result<(GraphState, Command), ApplyError>

  function RunAddNode(g: GraphState, c: Command): Outcome
    requires c.AddNode?
  {
    Ok((WithNode(g, c.node), RemoveNode(c.node.id)))
  }

  function RunRemoveNode(g: GraphState, c: Command): Outcome
    requires c.RemoveNode?
  {
    match WithoutNode(g, c.id)
    case None => Err(NoSuchNode)
    case Some((g', node, removed)) => Ok((g', Batch([AddNode(node)] + Connects(removed))))
  }

  function RunMoveNode(g: GraphState, c: Command): Outcome
    requires c.MoveNode?
  {
    var i := NodeIndex(g.nodes, c.id);
    if i == |g.nodes| then Err(NoSuchNode)
    else Ok((g.(nodes := g.nodes[i := g.nodes[i].(pos := c.position)]), MoveNode(c.id, g.nodes[i].pos)))
  }

  function RunSetKind(g: GraphState, c: Command): Outcome
    requires c.SetKind?
  {
    var i := NodeIndex(g.nodes, c.id);
    if i == |g.nodes| then Err(NoSuchNode) else Ok(AfterSetKind(g, c.id, i, c.kind))
  }

  ghost function RunConnect(g: GraphState, c: Command): Outcome
    requires c.Connect?
  {
    match ConnectVerdict(g, c.edge)
    case Err(error) => Err(Rejected(error))
    case Ok(_) => Ok((g.(edges := g.edges + [c.edge]), Disconnect(c.edge.to, c.edge.toPort)))
  }

  function RunDisconnect(g: GraphState, c: Command): Outcome
    requires c.Disconnect?
  {
    var i := EdgeIndex(g.edges, c.to, c.toPort);
    if i == |g.edges| then Err(NothingToDo)
    else Ok((g.(edges := RemoveAt(g.edges, i)), Connect(g.edges[i])))
  }

  ghost function RunRestoreEdges(g: GraphState, c: Command): Outcome
    requires c.RestoreEdges?
  {
    var sorted := SortedByPlace(c.restored);
    match ConnectedAll(g, sorted)
    case Err(error) => Err(Rejected(error))
    case Ok(_) => Ok((g.(edges := InsertedAll(g.edges, sorted)), Batch(Disconnects(sorted))))
  }

  function RunPortCommand(g: GraphState, c: Command): Outcome
    requires IsPortCommand(c)
  {
    var i := NodeIndex(g.nodes, c.id);
    if i == |g.nodes| then Err(NoSuchNode)
    else
      match EditedKind(g.nodes[i].kind, c)
      case None => Err(PortError(c))
      case Some(kind) => Ok(AfterPortCommand(g, c, i, kind))
  }

  ghost function RunOne(g: GraphState, c: Command): Outcome
    requires !c.Batch?
  {
    if c.AddNode? then RunAddNode(g, c)
    else if c.RemoveNode? then RunRemoveNode(g, c)
    else if c.MoveNode? then RunMoveNode(g, c)
    else if c.SetKind? then RunSetKind(g, c)
    else if c.Connect? then RunConnect(g, c)
    else if c.Disconnect? then RunDisconnect(g, c)
    else if c.RestoreEdges? then RunRestoreEdges(g, c)
    else RunPortCommand(g, c)
  }

  /** The graph and the inverse command after `c`, or the error it is refused with. */
  ghost function Run(g: GraphState, c: Command): Outcome
    decreases c
  {
    if c.Batch? then
      match RunAll(g, c.commands)
      case Err(error) => Err(error)
      case Ok((g', inverses)) => Ok((g', Batch(inverses)))
    else
      RunOne(g, c)
  }

  /** Commands in turn; the inverses come last command first. */
  ghost function RunAll(g: GraphState, commands: seq<Command>): Result<(GraphState, seq<Command>), ApplyError>
    decreases commands
  {
    if commands == [] then Ok((g, []))
    else
      var n := |commands| - 1;
      match RunAll(g, commands[..n])
      case Err(error) => Err(error)
      case Ok((before, inverses)) =>
        match Run(before, commands[n])
        case Err(error) => Err(error)
        case Ok((after, inverse)) => Ok((after, [inverse] + inverses))
  }

  // ----- What a caller has to see to -----

  /** A connection from another node that a new input of `id` does not lead to. */
  ghost predicate ConnectionJoins(g: GraphState, id: NodeId, c: Connection) {
    c.from != id && FindNode(g.nodes, c.from).Some? && !Reach(g.edges, id, c.from)
  }

  /** Such a connection between ports of compatible types. */
  ghost predicate ConnectionFits(g: GraphState, id: NodeId, accepts: seq<PortType>, c: Connection) {
    && ConnectionJoins(g, id, c)
    && var outputs := Outputs(FindNode(g.nodes, c.from).value.kind);
    && c.fromPort < |outputs|
    && Compatible(outputs[c.fromPort], accepts)
  }

  /** `apply` checks neither that an added node's id is new nor that a supplied
      connection joins the graph without a cycle; its callers do. */
  ghost predicate Admissible(g: GraphState, c: Command)
    decreases c
  {
    match c
    case AddNode(node) => FindNode(g.nodes, node.id).None?
    case InsertOutputField(id, _, _, Some(connection)) => ConnectionJoins(g, id, connection)
    case InsertScriptInput(id, _, _, Some(connection)) => ConnectionJoins(g, id, connection)
    case Batch(commands) => AdmissibleAll(g, commands)
    case _ => true
  }

  ghost predicate AdmissibleAll(g: GraphState, commands: seq<Command>)
    decreases commands
  {
    commands != [] ==>
      var n := |commands| - 1;
      && AdmissibleAll(g, commands[..n])
      && match RunAll(g, commands[..n])
         case Err(_) => true
         case Ok((before, _)) => Admissible(before, commands[n])
  }

  /** Admissible, and every supplied connection joins compatible ports. */
  ghost predicate Fitting(g: GraphState, c: Command)
    decreases c
  {
    match c
    case AddNode(node) => FindNode(g.nodes, node.id).None?
    case InsertOutputField(id, _, _, Some(connection)) => ConnectionFits(g, id, [SignalPort], connection)
    case InsertScriptInput(id, _, _, Some(connection)) => ConnectionFits(g, id, [SignalPort, ScalarPort], connection)
    case Batch(commands) => FittingAll(g, commands)
    case _ => true
  }

  ghost predicate FittingAll(g: GraphState, commands: seq<Command>)
    decreases commands
  {
    commands != [] ==>
      var n := |commands| - 1;
      && FittingAll(g, commands[..n])
      && match RunAll(g, commands[..n])
         case Err(_) => true
         case Ok((before, _)) => Fitting(before, commands[n])
  }
}
