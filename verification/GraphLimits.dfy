/** Graphs with edges at nodes of unknown kind: loading makes them, and undo and
    rollback do not always bring them back. */
module GraphLimits {
  import opened Prelude
  import opened Json
  import opened GraphModel
  import opened Commands
  import opened GraphFacts
  import opened GraphSafety
  import opened GraphUndo
  import opened GraphHistory
  import opened EdgeBalance
  import opened GraphSettles
  import GraphPorts
  import Documents
  import DocumentProofs

  // ----- A refused inverse puts no edge back -----

  lemma LeftBy(g: GraphState, commands: seq<Command>, c: Command, depth: nat)
    ensures RunAll(g, commands).Err? ==>
              AfterFailureAll(g, commands + [c], depth) == AfterFailureAll(g, commands, depth)
    ensures RunAll(g, commands).Ok? ==>
              var (before, inverses) := RunAll(g, commands).value;
              var left := AfterFailure(before, c, depth);
              AfterFailureAll(g, commands + [c], depth)
              == if depth == 0 then left else RolledBack(left, inverses, depth - 1)
  {
    assert (commands + [c])[..|commands|] == commands;
  }

  lemma RunOnlyInverse(g: GraphState, c: Command)
    requires Run(g, c).Ok?
    ensures RunAll(g, [c]) == Ok((Run(g, c).value.0, [Run(g, c).value.1]))
  {
    RunAllAppended(g, [], c);
    assert [] + [c] == [c] && [Run(g, c).value.1] + [] == [Run(g, c).value.1];
  }

  lemma SomethingDropped(g: GraphState, drop: Edge -> bool)
    requires !AllTyped(g, drop)
    ensures |Kept(g.edges, drop)| < |g.edges|
  {
    if Taken(g.edges, drop) == [] {
      KeptLength(g.edges, drop);
    }
  }

  lemma FewerAfterDrops(g: GraphState, c: Command)
    requires Sound(g) && !c.Batch? && Run(g, c).Ok? && !DropsTyped(g, c)
    ensures |Run(g, c).value.0.edges| < |g.edges| && Carried(c) == 0
  {
    hide Sound, RunOne, AllTyped, EditedKind;
    if c.Disconnect? {
      RunIsEdge(g, c);
    } else if c.RemoveScriptOutput? {
      RunIsPort(g, c);
      DropsOf(g, c);
      SomethingDropped(g, FromPort(c.id, c.index));
    } else if c.SetKind? {
      RunIsNode(g, c);
      DropsOf(g, c);
      SomethingDropped(g, ChangedSide(g, c.id, NodeIndex(g.nodes, c.id), c.kind));
    } else if c.RemoveNode? {
      RunIsNode(g, c);
      SomethingDropped(g, Touching(c.id));
    } else {
      DropsNothing(g, c);
    }
  }

  /** One command and then edges only. */
  predicate ThenPuts(c: Command) {
    c.Batch? ==>
      var n := |c.commands|;
      n > 0 && !c.commands[0].Batch? && forall k :: 0 < k < n ==> Puts(c.commands[k])
  }

  lemma InverseThenPuts(g: GraphState, c: Command)
    requires c.SetKind? || c.RemoveScriptOutput? || c.RemoveNode? || c.Disconnect?
    requires Run(g, c).Ok?
    ensures ThenPuts(Run(g, c).value.1)
  {
    hide Kept, Taken, Filtered, OnSide, Inputs, Outputs;
    if c.Disconnect? {
      RunIsEdge(g, c);
    } else if c.RemoveScriptOutput? {
      RunIsPort(g, c);
    } else {
      RunIsNode(g, c);
    }
  }

  lemma RefusedThenPuts(h: GraphState, c: Command, depth: nat)
    requires ThenPuts(c) && Run(h, c).Err? && Carried(c) > 0
    ensures Loses(h, c, depth)
  {
    hide Carried, RunOne, Puts;
    if c.Batch? {
      var k := FirstRefused(h, c.commands);
      if k > 0 {
        RefusedEdgesAreLost(RunAll(h, c.commands[..k]).value.0, c.commands[k], depth);
        BatchLoses(h, c.commands, k, depth);
      } else {
        RefusedPrefix(h, c.commands, k, depth);
      }
    }
  }

  /** If a dropped edge was not well typed, the refused inverse does not put all
      edges back, however deep its own rollback is followed. */
  lemma NotPutBack(g: GraphState, c: Command, depth: nat)
    requires Sound(g) && !c.Batch? && Admissible(g, c) && Run(g, c).Ok? && !DropsTyped(g, c)
    ensures var (h, inverse) := Run(g, c).value; |AfterFailure(h, inverse, depth).edges| < |g.edges|
  {
    hide Sound, Run, DropsTyped, AfterFailure, Carried, ThenPuts;
    var (h, inverse) := Run(g, c).value;
    FewerAfterDrops(g, c);
    RunBalances(g, c);
    UndoOne(g, c);
    if !c.SetKind? && !c.RemoveScriptOutput? && !c.RemoveNode? && !c.Disconnect? {
      DropsNothing(g, c);
    }
    InverseThenPuts(g, c);
    RefusedThenPuts(h, inverse, depth);
  }

  lemma DropsNothing(g: GraphState, c: Command)
    requires !c.Batch? && !c.SetKind? && !c.RemoveScriptOutput? && !c.RemoveNode? && !c.Disconnect?
    ensures DropsTyped(g, c)
  {
    hide WellTyped;
    assert Drops(g, c) == NoEdge();
    DropsTypedOne(g, c);
  }

  lemma {:induction false} DropsTypedOne(g: GraphState, c: Command)
    requires !c.Batch?
    ensures DropsTyped(g, c) <==> AllTyped(g, Drops(g, c))
  {
    hide AllTyped, Drops;
  }

  lemma {:induction false} SameGraphKeepsEdges(g: GraphState, h: GraphState)
    requires Sound(g) && SameGraph(h, g)
    ensures |g.edges| <= |h.edges|
  {
    forall e
      ensures multiset(g.edges)[e] <= multiset(h.edges)[e]
    {
      OccurrencesOfEdge(g.edges, e);
    }
    var a, b := multiset(g.edges), multiset(h.edges);
    assert a <= b && b == a + (b - a);
    assert |a| == |g.edges| && |b| == |h.edges|;
  }

  // ----- Atomicity -----

  /** A command followed by one that is refused: the batch leaves the graph as
      it was exactly when every edge that the command dropped was well typed. */
  lemma RefusedBatch(g: GraphState, c: Command, bad: Command)
    requires Sound(g) && !c.Batch? && !bad.Batch? && Admissible(g, c) && Run(g, c).Ok?
    requires var h := Run(g, c).value.0; Admissible(h, bad) && Run(h, bad).Err? && DropsTyped(h, bad)
    ensures Admissible(g, Batch([c, bad])) && Run(g, Batch([c, bad])).Err?
    ensures SameGraph(Left(g, Batch([c, bad])), g) <==> DropsTyped(g, c)
  {
    hide RunOne, DropsTyped, Sound, AfterFailureAll, RolledBack, Enough, Left;
    var (h, inverse) := Run(g, c).value;
    RunTwo(g, c, bad);
    var depth := DeepEnough(g, Batch([c, bad]), 1);
    RunOnlyInverse(g, c);
    LeftBy(g, [c], bad, depth);
    assert [c] + [bad] == [c, bad];
    if DropsTyped(g, c) {
      BatchDropsTyped(g, c, bad);
      FailureRestores(g, Batch([c, bad]), depth);
    } else {
      UndoOne(g, c);
      NotPutBack(g, c, depth - 1);
      RolledBackOne(h, inverse, depth - 1);
      if SameGraph(AfterFailure(g, Batch([c, bad]), depth), g) {
        SameGraphKeepsEdges(g, AfterFailure(g, Batch([c, bad]), depth));
      }
    }
  }

  lemma RolledBackOne(g: GraphState, c: Command, depth: nat)
    requires Run(g, c).Err?
    ensures RolledBack(g, [c], depth) == AfterFailure(g, c, depth)
  {
    assert [c][..0] == [];
  }

  lemma BatchDropsTyped(g: GraphState, c: Command, bad: Command)
    requires DropsTyped(g, c) && Run(g, c).Ok? && DropsTyped(Run(g, c).value.0, bad)
    ensures DropsTyped(g, Batch([c, bad]))
  {
    hide Run, Drops, AllTyped;
    RunOnlyInverse(g, c);
    assert [c, bad][..1] == [c] && [c][..0] == [];
    assert RunAll(g, []) == Ok((g, [])) && DropsTypedAll(g, []);
    assert DropsTypedAll(g, [c]);
    assert DropsTypedAll(g, [c, bad]);
  }

  /** Refused commands leave the graph as it was, whatever they are, exactly on
      graphs all of whose edges are well typed. */
  lemma AtomicExactlyIfTyped(g: GraphState)
    requires Sound(g)
    ensures Typed(g) <==> forall c :: Fitting(g, c) && Run(g, c).Err? ==> SameGraph(Left(g, c), g)
  {
    if Typed(g) {
      forall c | Fitting(g, c) && Run(g, c).Err?
        ensures SameGraph(Left(g, c), g)
      {
        RunKeepsTyped(g, c);
        TypedGraphsDropTyped(g, c);
        RefusedIsRolledBack(g, c);
      }
    } else {
      var e :| e in g.edges && !WellTyped(g.nodes, e);
      LostEdge(g, e);
    }
  }

  /** Disconnecting an edge that is not well typed, then trying to once more,
      loses it. */
  lemma LostEdge(g: GraphState, e: Edge)
    requires Sound(g) && e in g.edges && !WellTyped(g.nodes, e)
    ensures var c := Disconnect(e.to, e.toPort);
            && Fitting(g, Batch([c, c])) && Run(g, Batch([c, c])).Err?
            && !SameGraph(Left(g, Batch([c, c])), g)
  {
    hide WellTyped, Left, Sound, RunAll, SameGraph;
    var c := Disconnect(e.to, e.toPort);
    DisconnectedTwice(g, e);
    RefusedBatch(g, c, c);
    assert [c, c][..1] == [c] && [c][..0] == [] && Fitting(g, c) && Fitting(Run(g, c).value.0, c);
    RunOnlyInverse(g, c);
    assert FittingAll(g, [c]);
  }

  lemma DisconnectedTwice(g: GraphState, e: Edge)
    requires Sound(g) && e in g.edges && !WellTyped(g.nodes, e)
    ensures var c := Disconnect(e.to, e.toPort);
            && Run(g, c).Ok? && Run(Run(g, c).value.0, c).Err?
            && !DropsTyped(g, c) && DropsTyped(Run(g, c).value.0, c)
  {
    hide WellTyped, Ranked;
    var c := Disconnect(e.to, e.toPort);
    var i := EdgeIndex(g.edges, e.to, e.toPort);
    OccupantIsUnique(g.edges, e);
    RunIsEdge(g, c);
    var h := Run(g, c).value.0;
    RemovedMembers(g.edges, i);
    RunIsEdge(h, c);
    assert forall d :: d in h.edges ==> !SamePort(d, e);
    IncomingByMembership(h.edges, e.to, e.toPort);
    assert IntoPort(e.to, e.toPort)(e);
  }

  // ----- A rollback that leaves an edge without its node -----

  predicate OnlyPuts(commands: seq<Command>) {
    forall k :: 0 <= k < |commands| ==> commands[k].AddNode? || commands[k].Connect?
  }

  lemma {:induction false} PuttingDropsNothing(g: GraphState, commands: seq<Command>)
    requires OnlyPuts(commands)
    ensures DropsTypedAll(g, commands)
  {
    if commands != [] {
      var n := |commands| - 1;
      PuttingDropsNothing(g, commands[..n]);
      if RunAll(g, commands[..n]).Ok? {
        DropsNothing(RunAll(g, commands[..n]).value.0, commands[n]);
      }
    }
  }

  /** Node `a` feeds the input that `c` is to close, and another edge from it
      is not well typed. */
  ghost predicate FeedsBoth(g: GraphState, a: NodeId, p: nat, c: Command, e: Edge) {
    && Sound(g) && IsCloseInput(c) && Edge(a, p, c.id, c.index) in g.edges
    && FindNode(g.nodes, c.id).Some? && EditedKind(FindNode(g.nodes, c.id).value.kind, c).Some?
    && e in g.edges && e.from == a && e.to != c.id && !WellTyped(g.nodes, e)
  }

  lemma NotItsOwnInput(g: GraphState, a: NodeId, p: nat, c: Command, e: Edge)
    requires FeedsBoth(g, a, p, c, e)
    ensures c.id != a
  {
    NoWayBack(g.edges, Edge(a, p, c.id, c.index));
    ReachSelf(g.edges, a);
  }

  /** The closed input can be opened again, and the edge is still not well typed. */
  lemma InputLess(g: GraphState, c: Command, inverse: Command, e: Edge)
    requires IsCloseInput(c) && FindNode(g.nodes, c.id).Some?
    requires var k := FindNode(g.nodes, c.id).value.kind; EditedKind(k, c).Some? && EditsBack(k, c, inverse)
    requires IsOpenInput(inverse) && !WellTyped(g.nodes, e) && e.from != c.id && e.to != c.id
    ensures var i := NodeIndex(g.nodes, c.id);
            i < |g.nodes| && EditedKind(g.nodes[i].kind, c).Some? &&
            var h := WithKind(g, i, EditedKind(g.nodes[i].kind, c).value);
            && !WellTyped(h.nodes, e)
            && FindNode(h.nodes, c.id).Some? && EditedKind(FindNode(h.nodes, c.id).value.kind, inverse).Some?
  {
    hide EditedKind, EditsBack, Compatible;
    var i := NodeIndex(g.nodes, c.id);
    assert FindNode(g.nodes, c.id) == Some(g.nodes[i]);
    var n := g.nodes[i].(kind := EditedKind(g.nodes[i].kind, c).value);
    EditedBack(g.nodes[i].kind, c, inverse);
    FindUpdated(g.nodes, i, n, c.id);
    FindUpdated(g.nodes, i, n, e.from);
    FindUpdated(g.nodes, i, n, e.to);
  }

  /** Closing the input gives an inverse that connects `a` again, unchecked. */
  lemma InputClosed(g: GraphState, a: NodeId, p: nat, c: Command, e: Edge)
    requires FeedsBoth(g, a, p, c, e)
    ensures Run(g, c).Ok?
    ensures var (h, inverse) := Run(g, c).value;
            && Sound(h) && e in h.edges && !WellTyped(h.nodes, e)
            && IsOpenInput(inverse) && inverse.id == c.id
            && FindNode(h.nodes, c.id).Some? && EditedKind(FindNode(h.nodes, c.id).value.kind, inverse).Some?
            && inverse.connection.Some? && inverse.connection.value.from == a
  {
    var i := NodeIndex(g.nodes, c.id);
    assert i < |g.nodes| && FindNode(g.nodes, c.id) == Some(g.nodes[i]);
    assert !GraphPorts.Cuts(c, e) && Moved(c)(e) == e;
    NotItsOwnInput(g, a, p, c, e);
    hide Sound, AfterPortCommand, WellTyped, EditedKind, Moved, GraphPorts.Cuts, GraphPorts.Follows, EditsBack;
    RunIsPort(g, c);
    PortCommandSound(g, c, i);
    GraphPorts.PortCommandKeepsWiring(g, c, i);
    ClosingInverse(g, c);
    ClosedConnection(g, c, Edge(a, p, c.id, c.index));
    InputLess(g, c, RunPortCommand(g, c).value.1, e);
  }

  lemma ClosedConnection(g: GraphState, c: Command, x: Edge)
    requires Sound(g) && IsCloseInput(c) && x in g.edges && x.to == c.id && x.toPort == c.index
    ensures var connection := ClosedInput(g.edges, c.id, c.index).1;
            connection.Some? && connection.value.from == x.from
  {
    OccupantIsUnique(g.edges, x);
  }

  /** Reopening the input connects it to a node that is not there. */
  lemma ReopenedWithoutNode(f: GraphState, c: Command)
    requires IsOpenInput(c) && c.connection.Some? && FindNode(f.nodes, c.connection.value.from).None?
    requires FindNode(f.nodes, c.id).Some? && EditedKind(FindNode(f.nodes, c.id).value.kind, c).Some?
    ensures Run(f, c).Ok? && !Sound(Run(f, c).value.0)
  {
    hide Ranked, EditedKind;
    RunIsPort(f, c);
    var i, k := NodeIndex(f.nodes, c.id), c.connection.value;
    assert i < |f.nodes| && FindNode(f.nodes, c.id) == Some(f.nodes[i]);
    Opening(f, c);
    var h := RunPortCommand(f, c).value.0;
    var shifted := Mapped(f.edges, InputsUp(c.id, c.index));
    var x := Edge(k.from, k.fromPort, c.id, c.index);
    InsertedMembers(shifted, Least(k.at, |shifted|), x);
    assert x in h.edges;
    FindUpdated(f.nodes, i, f.nodes[i].(kind := EditedKind(f.nodes[i].kind, c).value), k.from);
  }

  lemma NodeAway(g: GraphState, a: NodeId, o: NodeId)
    requires Sound(g) && FindNode(g.nodes, a).Some? && o != a
    ensures WithoutNode(g, a).Some?
    ensures var h := WithoutNode(g, a).value.0;
            Sound(h) && FindNode(h.nodes, a).None? && FindNode(h.nodes, o) == FindNode(g.nodes, o)
  {
    hide Ranked;
    RemoveNodeSound(g, a);
    FindRemoved(g.nodes, NodeIndex(g.nodes, a), o);
  }

  lemma NodeTaken(g: GraphState, a: NodeId, o: NodeId)
    requires Sound(g) && FindNode(g.nodes, a).Some? && o != a
    ensures Run(g, RemoveNode(a)).Ok?
    ensures var (h, inverse) := Run(g, RemoveNode(a)).value;
            && Sound(h) && Run(h, RemoveNode(a)).Err?
            && FindNode(h.nodes, a).None? && FindNode(h.nodes, o) == FindNode(g.nodes, o)
            && inverse.Batch? && OnlyPuts(inverse.commands)
            && Undoes(h, inverse, g, AllTyped(g, Touching(a)))
  {
    hide Undoes, AllTyped, Sound;
    NodeAway(g, a, o);
    RunIsNode(g, RemoveNode(a));
    RunIsNode(Run(g, RemoveNode(a)).value.0, RemoveNode(a));
    UndoRemoveNode(g, a);
  }

  lemma NodeGone(g: GraphState, a: NodeId, e: Edge, o: NodeId, depth: nat)
    requires Sound(g) && e in g.edges && e.from == a && !WellTyped(g.nodes, e) && o != a && depth > 0
    ensures Run(g, RemoveNode(a)).Ok?
    ensures var (h, inverse) := Run(g, RemoveNode(a)).value;
            var left := AfterFailure(h, inverse, depth);
            && Run(h, RemoveNode(a)).Err? && Run(h, inverse).Err?
            && Sound(left) && FindNode(left.nodes, a).None? && FindNode(left.nodes, o) == FindNode(g.nodes, o)
  {
    hide RunOne, Ranked, AfterFailureAll, WellTyped, OnlyPuts;
    NodeTaken(g, a, o);
    assert Touching(a)(e);
    var (h, inverse) := Run(g, RemoveNode(a)).value;
    PuttingDropsNothing(h, inverse.commands);
    FailureRestores(h, inverse, depth);
    var left := AfterFailure(h, inverse, depth);
    SameLookup(left, h, a);
    SameLookup(left, h, o);
  }

  lemma RolledBackTwo(g: GraphState, first: Command, second: Command, depth: nat)
    requires Run(g, first).Err?
    ensures var left := AfterFailure(g, first, depth);
            Run(left, second).Ok? ==> RolledBack(g, [first, second], depth) == Run(left, second).value.0
  {
    RolledBackOne(g, first, depth);
    assert [first, second][..1] == [first];
  }

  /** A rollback can leave an edge whose source is gone: the removed node is not
      put back, yet the closed input is connected to it again. */
  lemma DanglingEdge(g: GraphState, a: NodeId, p: nat, c: Command, e: Edge)
    requires FeedsBoth(g, a, p, c, e)
    ensures var batch := Batch([c, RemoveNode(a), RemoveNode(a)]);
            Fitting(g, batch) && Run(g, batch).Err? && !Sound(Left(g, batch))
  {
    hide RunOne, WellTyped, Sound, AfterFailureAll, RolledBack, EditedKind, Left, Enough;
    var c2 := RemoveNode(a);
    InputClosed(g, a, p, c, e);
    var (h1, inverse1) := Run(g, c).value;
    NotItsOwnInput(g, a, p, c, e);
    NodeGone(h1, a, e, c.id, 1);
    var (h2, inverse2) := Run(h1, c2).value;
    RunOnlyInverse(g, c);
    RunAllAppended(g, [c], c2);
    RunAllAppended(g, [c, c2], c2);
    assert [c] + [c2] == [c, c2] && [c, c2] + [c2] == [c, c2, c2]
             && [inverse2] + [inverse1] == [inverse2, inverse1];
    FittingThree(g, c, c2);
    var depth := DeepEnough(g, Batch([c, c2, c2]), 2);
    NodeGone(h1, a, e, c.id, depth - 1);
    LeftBy(g, [c, c2], c2, depth);
    RolledBackTwo(h2, inverse2, inverse1, depth - 1);
    ReopenedWithoutNode(AfterFailure(h2, inverse2, depth - 1), inverse1);
  }

  lemma FittingThree(g: GraphState, c1: Command, c2: Command)
    requires IsCloseInput(c1) && c2.RemoveNode?
    ensures Fitting(g, Batch([c1, c2, c2]))
  {
    hide RunAll;
    assert [c1, c2, c2][..2] == [c1, c2] && [c1, c2][..1] == [c1] && [c1][..0] == [];
    assert FittingAll(g, [c1]);
    assert FittingAll(g, [c1, c2]);
    assert FittingAll(g, [c1, c2, c2]);
  }

  // ----- A document -----

  const SELECTOR: FieldSelector := FieldSelector(None, "imu", None, "gyro")

  const LATER: map<Key, Json> :=
    map[KId := JInt(3), KPos := Documents.PosJson(Pos(0.0, 0.0)), KType := JStr("later")]

  /** A data field feeds an output and a node that only a later version knows. */
  const SAMPLE: GraphState :=
    GraphState([Node(1, Pos(0.0, 0.0), DataField(SELECTOR)),
                Node(2, Pos(0.0, 0.0), Output("derived", [PortField("rate", None)])),
                Node(3, Pos(0.0, 0.0), Unknown(JObj(LATER)))],
               [Edge(1, 0, 2, 0), Edge(1, 0, 3, 0)], 4)

  lemma SampleNodes()
    ensures FindNode(SAMPLE.nodes, 1) == Some(SAMPLE.nodes[0]) && NodeIndex(SAMPLE.nodes, 1) == 0
    ensures FindNode(SAMPLE.nodes, 2) == Some(SAMPLE.nodes[1])
    ensures FindNode(SAMPLE.nodes, 3) == Some(SAMPLE.nodes[2])
  {
    var ns := SAMPLE.nodes;
    assert ns[1..] == [ns[1], ns[2]] && [ns[1], ns[2]][1..] == [ns[2]];
    assert FindNode([ns[2]], 3) == Some(ns[2]);
    assert FindNode([ns[1], ns[2]], 3) == Some(ns[2]);
  }

  lemma SampleIsSound()
    ensures Sound(SAMPLE)
  {
    SampleNodes();
    assert IsRank((n: NodeId) => n, SAMPLE.edges);
  }

  /** The graph is saved and loads again as it is. */
  lemma SampleLoads()
    ensures var d := Documents.Document("sample", Documents.Viewport(0.0, 0.0, 1.0), SAMPLE);
            Documents.FromJson(Documents.ToJson(d)) == Ok(d)
  {
    var d := Documents.Document("sample", Documents.Viewport(0.0, 0.0, 1.0), SAMPLE);
    SampleIsSound();
    SampleNodes();
    assert DocumentProofs.LoadedForm(SAMPLE.nodes[2]);
    assert DocumentProofs.Writable(d);
    DocumentProofs.DocumentRoundTrip(d);
    assert DocumentProofs.ErasedNodes(SAMPLE.nodes) == SAMPLE.nodes;
    assert SAMPLE.(nodes := SAMPLE.nodes) == SAMPLE;
    SampleFits();
  }

  lemma SampleFits()
    ensures forall e :: e in SAMPLE.edges ==> DocumentProofs.FitsPorts(SAMPLE.nodes, e)
  {
    SampleNodes();
    assert SignalPort in [SignalPort];
    assert DocumentProofs.FitsPorts(SAMPLE.nodes, Edge(1, 0, 2, 0));
  }

  /** There a change of kind cannot be undone, a refused batch loses an edge, and
      another leaves an edge without its node. */
  lemma SampleBreaks()
    ensures var (h, inverse) := RunSetKind(SAMPLE, SetKind(1, Constant(Val(0.0)))).value;
            Sound(h) && Run(h, inverse).Err?
    ensures var c := Disconnect(3, 0);
            Fitting(SAMPLE, Batch([c, c])) && !SameGraph(Left(SAMPLE, Batch([c, c])), SAMPLE)
    ensures var c := Batch([RemoveOutputField(2, 0), RemoveNode(1), RemoveNode(1)]);
            Fitting(SAMPLE, c) && Run(SAMPLE, c).Err? && !Sound(Left(SAMPLE, c))
  {
    hide Left, RunOne, Ranked;
    var e := Edge(1, 0, 3, 0);
    SampleIsSound();
    SampleNodes();
    assert e == SAMPLE.edges[1] && Edge(1, 0, 2, 0) == SAMPLE.edges[0];
    assert !WellTyped(SAMPLE.nodes, e);
    LostEdge(SAMPLE, e);
    DanglingEdge(SAMPLE, 1, 0, RemoveOutputField(2, 0), e);
    SetKindSound(SAMPLE, 1, Constant(Val(0.0)));
    UndoSetKind(SAMPLE, 1, Constant(Val(0.0)));
    SampleChanges();
  }

  lemma SampleChanges()
    ensures NodeIndex(SAMPLE.nodes, 1) == 0
    ensures ChangedSide(SAMPLE, 1, 0, Constant(Val(0.0)))(Edge(1, 0, 3, 0))
  {
    SampleNodes();
    assert [[SignalPort]][0] != [[ScalarPort]][0] by {
      assert [SignalPort][0] != [ScalarPort][0];
    }
  }
}
