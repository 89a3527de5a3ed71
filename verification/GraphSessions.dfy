/** Whole sessions of commands: they keep every graph sound exactly from a graph
    all of whose edges are well typed. */
module GraphSessions {
  import opened Prelude
  import opened GraphModel
  import opened Commands
  import opened GraphFacts
  import opened GraphSafety
  import opened GraphUndo
  import opened GraphHistory
  import opened GraphSettles
  import opened GraphLimits
  import GraphPorts

  // ----- Whole sessions -----

  /** Every command of the session is admissible, and those that are refused
      had dropped well-typed edges only. */
  ghost predicate CarefulSession(g: GraphState, commands: seq<Command>) {
    forall k :: 0 <= k < |commands| ==>
      var before := Session(g, commands[..k]);
      Admissible(before, commands[k]) && (Run(before, commands[k]).Err? ==> DropsTyped(before, commands[k]))
  }

  ghost predicate FittingSession(g: GraphState, commands: seq<Command>) {
    forall k :: 0 <= k < |commands| ==> Fitting(Session(g, commands[..k]), commands[k])
  }

  /** Every graph so reached, whether commands are accepted or refused, is
      sound; in particular it has no cycle. */
  lemma {:induction false} ReachableGraphsAreSound(g: GraphState, commands: seq<Command>)
    requires Sound(g) && CarefulSession(g, commands)
    ensures var h := Session(g, commands); Sound(h) && Acyclic(h.edges)
  {
    hide Admissible, DropsTyped, Next;
    if commands == [] {
      RankedIsAcyclic(g.edges);
    } else {
      var n := |commands| - 1;
      assert CarefulSession(g, commands[..n]) by {
        assert forall k :: 0 <= k < n ==> commands[..n][..k] == commands[..k];
      }
      ReachableGraphsAreSound(g, commands[..n]);
      NextIsSound(Session(g, commands[..n]), commands[n]);
      RankedIsAcyclic(Session(g, commands).edges);
    }
  }

  lemma NextIsSound(g: GraphState, c: Command)
    requires Sound(g) && Admissible(g, c) && (Run(g, c).Err? ==> DropsTyped(g, c))
    ensures Sound(Next(g, c))
  {
    if Run(g, c).Ok? {
      RunKeepsSound(g, c);
    } else {
      RefusedIsRolledBack(g, c);
    }
  }

  /** From a typed graph, by commands that bring fitting connections, every
      graph is sound and typed, with no condition on what is dropped. */
  lemma {:induction false} ReachableGraphsAreTyped(g: GraphState, commands: seq<Command>)
    requires Sound(g) && Typed(g) && FittingSession(g, commands)
    ensures CarefulSession(g, commands)
    ensures var h := Session(g, commands); Sound(h) && Typed(h)
  {
    hide Fitting, Next, Sound, Typed;
    forall k | 0 <= k <= |commands|
      ensures var h := Session(g, commands[..k]); Sound(h) && Typed(h)
      ensures k < |commands| ==>
                var before := Session(g, commands[..k]);
                Admissible(before, commands[k]) && (Run(before, commands[k]).Err? ==> DropsTyped(before, commands[k]))
    {
      PrefixIsTyped(g, commands, k);
      if k < |commands| {
        RunKeepsTyped(Session(g, commands[..k]), commands[k]);
        TypedGraphsDropTyped(Session(g, commands[..k]), commands[k]);
      }
    }
    assert commands[..|commands|] == commands;
  }

  lemma {:induction false} PrefixIsTyped(g: GraphState, commands: seq<Command>, k: nat)
    requires Sound(g) && Typed(g) && FittingSession(g, commands) && k <= |commands|
    ensures var h := Session(g, commands[..k]); Sound(h) && Typed(h)
  {
    hide Fitting, Sound, Typed;
    if k > 0 {
      PrefixIsTyped(g, commands, k - 1);
      assert commands[..k][..k - 1] == commands[..k - 1];
      var before := Session(g, commands[..k - 1]);
      RunKeepsTyped(before, commands[k - 1]);
      if Run(before, commands[k - 1]).Err? {
        TypedGraphsDropTyped(before, commands[k - 1]);
        RefusedIsRolledBack(before, commands[k - 1]);
        SameGraphTyped(before, Left(before, commands[k - 1]));
      }
    }
  }

  lemma SameGraphTyped(g: GraphState, h: GraphState)
    requires Sound(g) && Sound(h) && SameGraph(h, g) && Typed(g)
    ensures Typed(h)
  {
    forall e | e in h.edges
      ensures WellTyped(h.nodes, e)
    {
      SameLookup(g, h, e.from);
      SameLookup(g, h, e.to);
    }
  }

  // ----- One more command -----

  /** A session of fitting commands leads from `g` to `h`. */
  ghost predicate Leads(g: GraphState, commands: seq<Command>, h: GraphState) {
    FittingSession(g, commands) && Session(g, commands) == h
  }

  lemma OneMore(g: GraphState, commands: seq<Command>, h: GraphState, c: Command)
    requires Leads(g, commands, h) && Fitting(h, c)
    ensures Leads(g, commands + [c], Next(h, c))
  {
    hide Fitting, Next;
    var n, all := |commands|, commands + [c];
    assert all[..n] == commands;
    forall k | 0 <= k < |all|
      ensures Fitting(Session(g, all[..k]), all[k])
    {
      if k < n {
        assert all[..k] == commands[..k];
      }
    }
  }

  // ----- A node with an output -----

  const NO_PORTS: ScriptSpec := ScriptSpec("", [], [], "")

  const NEW_OUTPUT: PortField := PortField("", None)

  /** `e` is an edge of the sound graph that is not well typed. */
  ghost predicate HasIllTyped(g: GraphState, e: Edge) {
    Sound(g) && e in g.edges && !WellTyped(g.nodes, e)
  }

  /** A change of kind keeps the edges from a node that had no output and still
      has none. */
  lemma KindWithoutOutputs(g: GraphState, e: Edge)
    requires Sound(g) && e in g.edges && FindNode(g.nodes, e.from).Some?
    requires Outputs(FindNode(g.nodes, e.from).value.kind) == []
    ensures Run(g, SetKind(e.from, Script(NO_PORTS))).Ok?
    ensures var h := Run(g, SetKind(e.from, Script(NO_PORTS))).value.0;
            && Sound(h) && e in h.edges && (forall s :: FindNode(g.nodes, s).None? ==> FindNode(h.nodes, s).None?)
            && FindNode(h.nodes, e.from).Some? && FindNode(h.nodes, e.from).value.kind == Script(NO_PORTS)
  {
    hide Ranked;
    var c := SetKind(e.from, Script(NO_PORTS));
    var i := NodeIndex(g.nodes, e.from);
    assert i < |g.nodes| && FindNode(g.nodes, e.from) == Some(g.nodes[i]);
    RunIsNode(g, c);
    SetKindSound(g, e.from, c.kind);
    NotToItself(g, e);
    assert !ChangedSide(g, e.from, i, c.kind)(e);
    var n := g.nodes[i].(kind := c.kind);
    FindUpdated(g.nodes, i, n, e.from);
    forall s | FindNode(g.nodes, s).None?
      ensures FindNode(Run(g, c).value.0.nodes, s).None?
    {
      FindUpdated(g.nodes, i, n, s);
    }
  }

  lemma NotToItself(g: GraphState, e: Edge)
    requires Sound(g) && e in g.edges
    ensures e.to != e.from
  {
    NoWayBack(g.edges, e);
    ReachSelf(g.edges, e.from);
  }

  /** Its first output shifts the edge to a port that the node does not have. */
  lemma FirstOutput(g: GraphState, e: Edge)
    requires Sound(g) && e in g.edges && FindNode(g.nodes, e.from) != None
    requires FindNode(g.nodes, e.from).value.kind == Script(NO_PORTS)
    ensures Run(g, InsertScriptOutput(e.from, 0, NEW_OUTPUT)).Ok?
    ensures var h := Run(g, InsertScriptOutput(e.from, 0, NEW_OUTPUT)).value.0;
            && HasIllTyped(h, e.(fromPort := e.fromPort + 1))
            && (forall s :: FindNode(g.nodes, s).None? ==> FindNode(h.nodes, s).None?)
            && FindNode(h.nodes, e.from).Some? && Outputs(FindNode(h.nodes, e.from).value.kind) == [[SignalPort]]
  {
    var c := InsertScriptOutput(e.from, 0, NEW_OUTPUT);
    var i := NodeIndex(g.nodes, e.from);
    assert i < |g.nodes| && FindNode(g.nodes, e.from) == Some(g.nodes[i]);
    assert EditedKind(g.nodes[i].kind, c).Some?;
    var kind := EditedKind(g.nodes[i].kind, c).value;
    assert [] + [NEW_OUTPUT] + [] == [NEW_OUTPUT];
    assert Outputs(kind) == [[SignalPort]];
    assert !GraphPorts.Cuts(c, e) && Moved(c)(e) == e.(fromPort := e.fromPort + 1);
    hide Sound, AfterPortCommand, Moved, GraphPorts.Cuts, GraphPorts.Follows, WellTyped, EditedKind, Outputs;
    RunIsPort(g, c);
    PortCommandSound(g, c, i);
    GraphPorts.PortCommandKeepsWiring(g, c, i);
    NodesOfPort(g, c, i);
    OnlyKindChanged(g, i, kind, e);
  }

  lemma OnlyKindChanged(g: GraphState, i: nat, kind: NodeKind, e: Edge)
    requires i == NodeIndex(g.nodes, e.from) < |g.nodes| && Outputs(kind) == [[SignalPort]]
    ensures var nodes := g.nodes[i := g.nodes[i].(kind := kind)];
            && (forall s :: FindNode(g.nodes, s).None? ==> FindNode(nodes, s).None?)
            && FindNode(nodes, e.from).Some? && FindNode(nodes, e.from).value.kind == kind
            && !WellTyped(nodes, e.(fromPort := e.fromPort + 1))
  {
    hide Outputs, Inputs, Compatible;
    var n := g.nodes[i].(kind := kind);
    FindUpdated(g.nodes, i, n, e.from);
    forall s | FindNode(g.nodes, s).None?
      ensures FindNode(g.nodes[i := n], s).None?
    {
      FindUpdated(g.nodes, i, n, s);
    }
  }

  lemma NodesOfPort(g: GraphState, c: Command, i: nat)
    requires IsPortCommand(c) && i < |g.nodes| && EditedKind(g.nodes[i].kind, c).Some?
    ensures AfterPortCommand(g, c, i, EditedKind(g.nodes[i].kind, c).value).0.nodes
         == g.nodes[i := g.nodes[i].(kind := EditedKind(g.nodes[i].kind, c).value)]
  {
    hide EditedKind;
  }

  /** Some session gives the source of an ill-typed edge an output. */
  lemma WithOutput(g: GraphState, e: Edge, s: NodeId) returns (commands: seq<Command>, h: GraphState, f: Edge)
    requires HasIllTyped(g, e) && FindNode(g.nodes, s).None?
    ensures Leads(g, commands, h) && HasIllTyped(h, f) && FindNode(h.nodes, s).None?
    ensures FindNode(h.nodes, f.from).Some? && Outputs(FindNode(h.nodes, f.from).value.kind) != []
  {
    hide Run, WellTyped, Ranked;
    commands, h, f := [], g, e;
    assert Leads(g, [], g);
    if Outputs(FindNode(g.nodes, e.from).value.kind) == [] {
      var c1, c2 := SetKind(e.from, Script(NO_PORTS)), InsertScriptOutput(e.from, 0, NEW_OUTPUT);
      KindWithoutOutputs(g, e);
      var g1 := Run(g, c1).value.0;
      OneMore(g, [], g, c1);
      FirstOutput(g1, e);
      OneMore(g, [] + [c1], g1, c2);
      commands, h, f := [] + [c1] + [c2], Run(g1, c2).value.0, e.(fromPort := e.fromPort + 1);
    }
  }

  // ----- A reader -----

  const READER: ScriptSpec := ScriptSpec("", ["x"], [], "")

  function ReaderNode(s: NodeId): Node {
    Node(s, Pos(0.0, 0.0), Script(READER))
  }

  lemma ReaderAdded(g: GraphState, e: Edge, s: NodeId)
    requires HasIllTyped(g, e) && FindNode(g.nodes, s).None?
    ensures Run(g, AddNode(ReaderNode(s))) == Ok((WithNode(g, ReaderNode(s)), RemoveNode(s)))
    ensures var h := WithNode(g, ReaderNode(s));
            && HasIllTyped(h, e) && e.from != s && e.to != s && (forall d :: d in h.edges ==> d.from != s && d.to != s)
            && FindNode(h.nodes, s) == Some(ReaderNode(s)) && FindNode(h.nodes, e.from) == FindNode(g.nodes, e.from)
  {
    hide Ranked, Compatible;
    RunIsNode(g, AddNode(ReaderNode(s)));
    AddNodeSound(g, ReaderNode(s));
    FindAppended(g.nodes, ReaderNode(s), e.from);
    FindAppended(g.nodes, ReaderNode(s), e.to);
    FindAppended(g.nodes, ReaderNode(s), s);
  }

  lemma ReaderConnected(g: GraphState, e: Edge, s: NodeId)
    requires HasIllTyped(g, e) && e.from != s && e.to != s && (forall d :: d in g.edges ==> d.from != s && d.to != s)
    requires FindNode(g.nodes, s) == Some(ReaderNode(s))
    requires FindNode(g.nodes, e.from).Some? && Outputs(FindNode(g.nodes, e.from).value.kind) != []
    ensures Run(g, Connect(Edge(e.from, 0, s, 0))).Ok?
    ensures FeedsBoth(Run(g, Connect(Edge(e.from, 0, s, 0))).value.0, e.from, 0, RemoveScriptInput(s, 0), e)
  {
    hide Sound, ConnectVerdict, WellTyped, Run, Outputs;
    var x := Edge(e.from, 0, s, 0);
    ReaderIsAccepted(g, x);
    RunIsEdge(g, Connect(x));
    VerdictIsExact(g, x);
    assert x in g.edges + [x] && e in g.edges + [x];
  }

  /** A new script node reads the source of the edge. */
  lemma WithReader(g: GraphState, e: Edge, s: NodeId)
    requires HasIllTyped(g, e) && FindNode(g.nodes, s).None?
    requires FindNode(g.nodes, e.from).Some? && Outputs(FindNode(g.nodes, e.from).value.kind) != []
    ensures Run(g, AddNode(ReaderNode(s))).Ok?
    ensures var h1 := Run(g, AddNode(ReaderNode(s))).value.0;
            && Run(h1, Connect(Edge(e.from, 0, s, 0))).Ok?
            && FeedsBoth(Run(h1, Connect(Edge(e.from, 0, s, 0))).value.0, e.from, 0, RemoveScriptInput(s, 0), e)
  {
    hide Run, HasIllTyped, FeedsBoth;
    ReaderAdded(g, e, s);
    ReaderConnected(WithNode(g, ReaderNode(s)), e, s);
  }

  lemma ReaderIsAccepted(g: GraphState, x: Edge)
    requires Sound(g) && (forall e :: e in g.edges ==> e.from != x.to && e.to != x.to)
    requires x.from != x.to && x.fromPort == 0 && x.toPort == 0
    requires FindNode(g.nodes, x.to).Some? && FindNode(g.nodes, x.to).value.kind == Script(READER)
    requires FindNode(g.nodes, x.from).Some? && Outputs(FindNode(g.nodes, x.from).value.kind) != []
    ensures ConnectVerdict(g, x).Ok?
  {
    hide Inputs, Outputs, Compatible, Reach;
    IncomingByMembership(g.edges, x.to, x.toPort);
    ReachLeaves(g.edges, x.to, x.from);
    AnyOutputFits(FindNode(g.nodes, x.from).value.kind);
  }

  lemma ReachLeaves(edges: seq<Edge>, a: NodeId, b: NodeId)
    ensures Reach(edges, a, b) ==> a == b || exists d :: d in edges && d.from == a
  {
    if Reach(edges, a, b) && a != b {
      var p :| IsPath(edges, p) && p[0] == a && p[|p| - 1] == b;
      assert HasEdge(edges, p[0], p[1]);
    }
  }

  lemma AnyOutputFits(k: NodeKind)
    requires Outputs(k) != []
    ensures |Inputs(Script(READER))| == 1 && Compatible(Outputs(k)[0], Inputs(Script(READER))[0])
  {
    var accepts := Inputs(Script(READER))[0];
    assert accepts == [SignalPort, ScalarPort];
    assert accepts[0] == SignalPort && accepts[1] == ScalarPort;
    assert Outputs(k)[0][0] in accepts && Outputs(k)[0][0] in Outputs(k)[0];
  }

  // ----- The condition -----

  /** From a graph with an ill-typed edge some session breaks soundness. */
  lemma SomeSessionBreaks(g: GraphState, e: Edge, s: NodeId) returns (commands: seq<Command>)
    requires HasIllTyped(g, e) && FindNode(g.nodes, s).None?
    ensures FittingSession(g, commands) && !Sound(Session(g, commands))
  {
    hide Run, WellTyped, Ranked, Left, FeedsBoth;
    var before, h, f := WithOutput(g, e, s);
    WithReader(h, f, s);
    var add, connect := AddNode(ReaderNode(s)), Connect(Edge(f.from, 0, s, 0));
    var h1 := Run(h, add).value.0;
    var h2 := Run(h1, connect).value.0;
    var close := RemoveScriptInput(s, 0);
    var batch := Batch([close, RemoveNode(f.from), RemoveNode(f.from)]);
    OneMore(g, before, h, add);
    OneMore(g, before + [add], h1, connect);
    DanglingEdge(h2, f.from, 0, close, f);
    OneMore(g, before + [add] + [connect], h2, batch);
    commands := before + [add] + [connect] + [batch];
  }

  /** As long as an id is left, all sessions of fitting commands, whatever is
      accepted and whatever refused in them, keep the graph sound exactly when
      every edge that it starts with is well typed. */
  lemma SessionsAreSafeExactlyIfTyped(g: GraphState)
    requires Sound(g) && exists s: NodeId :: FindNode(g.nodes, s).None?
    ensures Typed(g) <==>
              forall commands :: FittingSession(g, commands) ==> Sound(Session(g, commands))
  {
    hide FittingSession, Session, Sound, WellTyped;
    if Typed(g) {
      forall commands | FittingSession(g, commands)
        ensures Sound(Session(g, commands))
      {
        ReachableGraphsAreTyped(g, commands);
      }
    } else {
      var e :| e in g.edges && !WellTyped(g.nodes, e);
      var s: NodeId :| FindNode(g.nodes, s).None?;
      var commands := SomeSessionBreaks(g, e, s);
    }
  }
}
