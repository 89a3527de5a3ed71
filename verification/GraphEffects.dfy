/** What commands do to the graph: which are accepted, what is there afterwards,
    and what stays as it was. */
module GraphEffects {
  import opened Prelude
  import opened GraphModel
  import opened Commands
  import opened GraphFacts
  import opened GraphUndo

  /** Every node but one is as it was. */
  ghost predicate OthersStay(g: GraphState, h: GraphState, id: NodeId) {
    forall other: NodeId :: other != id ==> FindNode(h.nodes, other) == FindNode(g.nodes, other)
  }

  /** The nodes are listed as before. */
  ghost predicate InPlace(g: GraphState, h: GraphState) {
    |h.nodes| == |g.nodes| && forall i :: 0 <= i < |g.nodes| ==> h.nodes[i].id == g.nodes[i].id
  }

  ghost predicate Refused(r: Outcome, error: ApplyError) {
    r == Err(error)
  }

  // ----- Nodes -----

  lemma AddTakesEffect(g: GraphState, node: Node)
    requires FindNode(g.nodes, node.id).None?
    ensures Run(g, AddNode(node)).Ok?
    ensures var h := Run(g, AddNode(node)).value.0;
            && FindNode(h.nodes, node.id) == Some(node) && OthersStay(g, h, node.id)
            && h.nodes[..|g.nodes|] == g.nodes && |h.nodes| == |g.nodes| + 1 && h.edges == g.edges
            && (var next := if node.id == U64_MAX then U64_MAX else node.id + 1;
                h.nextId >= g.nextId && h.nextId >= next && h.nextId in {g.nextId, next})
  {
    RunIsNode(g, AddNode(node));
    forall id: NodeId
      ensures FindNode(WithNode(g, node).nodes, id) == if id == node.id then Some(node) else FindNode(g.nodes, id)
    {
      FindAppended(g.nodes, node, id);
    }
  }

  /** Removing a node takes it and the edges at it away, and nothing else. */
  lemma RemoveTakesEffect(g: GraphState, id: NodeId)
    requires Sound(g)
    ensures FindNode(g.nodes, id).None? ==> Refused(Run(g, RemoveNode(id)), NoSuchNode)
    ensures FindNode(g.nodes, id).Some? ==>
              && Run(g, RemoveNode(id)).Ok?
              && var h := Run(g, RemoveNode(id)).value.0;
                 && FindNode(h.nodes, id).None? && OthersStay(g, h, id) && h.nextId == g.nextId
                 && (exists i :: TakenOut(g.nodes, i, h.nodes))
                 && forall e :: e in h.edges <==> e in g.edges && e.from != id && e.to != id
  {
    hide Ranked;
    RunIsNode(g, RemoveNode(id));
    var i := NodeIndex(g.nodes, id);
    if i < |g.nodes| {
      Rearranged(g.nodes, i, g.nodes[i]);
      forall other: NodeId
        ensures FindNode(RemoveAt(g.nodes, i), other) == if other == id then None else FindNode(g.nodes, other)
      {
        FindRemoved(g.nodes, i, other);
      }
    }
  }

  lemma NodeReplaced(g: GraphState, i: nat, n: Node)
    requires i == NodeIndex(g.nodes, n.id) && i < |g.nodes|
    ensures forall other: NodeId ::
              FindNode(g.nodes[i := n], other) == if other == n.id then Some(n) else FindNode(g.nodes, other)
  {
    forall other: NodeId
      ensures FindNode(g.nodes[i := n], other) == if other == n.id then Some(n) else FindNode(g.nodes, other)
    {
      FindUpdated(g.nodes, i, n, other);
    }
  }

  lemma MoveTakesEffect(g: GraphState, id: NodeId, position: Pos)
    ensures FindNode(g.nodes, id).None? ==> Refused(Run(g, MoveNode(id, position)), NoSuchNode)
    ensures FindNode(g.nodes, id).Some? ==>
              && Run(g, MoveNode(id, position)).Ok?
              && var h := Run(g, MoveNode(id, position)).value.0;
                 && FindNode(h.nodes, id) == Some(Node(id, position, FindNode(g.nodes, id).value.kind))
                 && OthersStay(g, h, id) && InPlace(g, h) && h.edges == g.edges && h.nextId == g.nextId
  {
    RunIsNode(g, MoveNode(id, position));
    var i := NodeIndex(g.nodes, id);
    if i < |g.nodes| {
      NodeReplaced(g, i, g.nodes[i].(pos := position));
    }
  }

  /** After a change of kind the node has that kind, and has lost exactly the
      edges at its sides whose ports are other ones now. */
  lemma SetKindTakesEffect(g: GraphState, id: NodeId, kind: NodeKind)
    ensures FindNode(g.nodes, id).None? ==> Refused(Run(g, SetKind(id, kind)), NoSuchNode)
    ensures FindNode(g.nodes, id).Some? ==>
              && Run(g, SetKind(id, kind)).Ok?
              && var h, was := Run(g, SetKind(id, kind)).value.0, FindNode(g.nodes, id).value;
                 && FindNode(h.nodes, id) == Some(Node(id, was.pos, kind)) && OthersStay(g, h, id)
                 && InPlace(g, h) && h.nextId == g.nextId
                 && forall e :: e in h.edges <==>
                      && e in g.edges
                      && (e.to == id ==> Inputs(kind) == Inputs(was.kind))
                      && (e.from == id ==> Outputs(kind) == Outputs(was.kind))
  {
    hide Inputs, Outputs;
    RunIsNode(g, SetKind(id, kind));
    var i := NodeIndex(g.nodes, id);
    if i < |g.nodes| {
      NodeReplaced(g, i, g.nodes[i].(kind := kind));
    }
  }

  // ----- Ports -----

  /** `now` is `was` with `x` put in at `index`. */
  predicate PutIn<T(==)>(was: seq<T>, index: nat, x: T, now: seq<T>) {
    && index <= |was| && |now| == |was| + 1
    && now[..index] == was[..index] && now[index] == x && now[index + 1..] == was[index..]
  }

  /** `now` is `was` without what stood at `index`. */
  predicate TakenOut<T(==)>(was: seq<T>, index: nat, now: seq<T>) {
    index < |was| && PutIn(now, index, was[index], was)
  }

  /** Whether the node kind has such a port to change. */
  predicate HasPlace(k: NodeKind, c: Command)
    requires IsPortCommand(c)
  {
    match c
    case InsertOutputField(_, index, _, _) => k.Output? && index <= |k.fields|
    case RemoveOutputField(_, index) => k.Output? && index < |k.fields|
    case InsertScriptInput(_, index, _, _) => k.Script? && index <= |k.script.inputs|
    case RemoveScriptInput(_, index) => k.Script? && index < |k.script.inputs|
    case InsertScriptOutput(_, index, _) => k.Script? && index <= |k.script.outputs|
    case RemoveScriptOutput(_, index) => k.Script? && index < |k.script.outputs|
  }

  /** One port more or less, and everything else of the kind as it was. */
  predicate PortChanged(k: NodeKind, c: Command, now: NodeKind)
    requires IsPortCommand(c)
  {
    match c
    case InsertOutputField(_, index, field, _) =>
      k.Output? && now.Output? && now.topic == k.topic && PutIn(k.fields, index, field, now.fields)
    case RemoveOutputField(_, index) =>
      k.Output? && now.Output? && now.topic == k.topic && TakenOut(k.fields, index, now.fields)
    case InsertScriptInput(_, index, input, _) =>
      && k.Script? && now.Script? && now.script == k.script.(inputs := now.script.inputs)
      && PutIn(k.script.inputs, index, input, now.script.inputs)
    case RemoveScriptInput(_, index) =>
      && k.Script? && now.Script? && now.script == k.script.(inputs := now.script.inputs)
      && TakenOut(k.script.inputs, index, now.script.inputs)
    case InsertScriptOutput(_, index, output) =>
      && k.Script? && now.Script? && now.script == k.script.(outputs := now.script.outputs)
      && PutIn(k.script.outputs, index, output, now.script.outputs)
    case RemoveScriptOutput(_, index) =>
      && k.Script? && now.Script? && now.script == k.script.(outputs := now.script.outputs)
      && TakenOut(k.script.outputs, index, now.script.outputs)
  }

  lemma Rearranged<T>(s: seq<T>, index: nat, x: T)
    ensures index <= |s| ==> PutIn(s, index, x, InsertAt(s, index, x))
    ensures index < |s| ==> TakenOut(s, index, RemoveAt(s, index))
  {
  }

  lemma KindChanged(k: NodeKind, c: Command)
    requires IsPortCommand(c)
    ensures EditedKind(k, c).Some? <==> HasPlace(k, c)
    ensures EditedKind(k, c).Some? ==> PortChanged(k, c, EditedKind(k, c).value)
  {
    hide PutIn, TakenOut;
    match c
    case InsertOutputField(_, index, field, _) => if k.Output? { Rearranged(k.fields, index, field); }
    case RemoveOutputField(_, index) => if k.Output? { Rearranged(k.fields, index, PortField("", None)); }
    case InsertScriptInput(_, index, input, _) => if k.Script? { Rearranged(k.script.inputs, index, input); }
    case RemoveScriptInput(_, index) => if k.Script? { Rearranged(k.script.inputs, index, ""); }
    case InsertScriptOutput(_, index, output) => if k.Script? { Rearranged(k.script.outputs, index, output); }
    case RemoveScriptOutput(_, index) => if k.Script? { Rearranged(k.script.outputs, index, PortField("", None)); }
  }

  /** A port command is accepted exactly if the node has such a port to change,
      and then changes that list of ports and no other node. */
  lemma PortTakesEffect(g: GraphState, c: Command)
    requires IsPortCommand(c)
    ensures FindNode(g.nodes, c.id).None? ==> Refused(Run(g, c), NoSuchNode)
    ensures FindNode(g.nodes, c.id).Some? ==>
              var was := FindNode(g.nodes, c.id).value;
              if !HasPlace(was.kind, c) then
                Refused(Run(g, c), if c.InsertOutputField? || c.RemoveOutputField? then InvalidOutputField
                                   else InvalidScriptPort)
              else
                && Run(g, c).Ok?
                && var h := Run(g, c).value.0;
                   && FindNode(h.nodes, c.id).Some? && FindNode(h.nodes, c.id).value.pos == was.pos
                   && PortChanged(was.kind, c, FindNode(h.nodes, c.id).value.kind)
                   && OthersStay(g, h, c.id) && h.nextId == g.nextId
  {
    RunIsPort(g, c);
    var i := NodeIndex(g.nodes, c.id);
    if i < |g.nodes| {
      KindChanged(g.nodes[i].kind, c);
      hide HasPlace, PortChanged, EditedKind;
      if HasPlace(g.nodes[i].kind, c) {
        NodeReplaced(g, i, g.nodes[i].(kind := EditedKind(g.nodes[i].kind, c).value));
      }
    }
  }

  // ----- Edges -----

  predicate HasOutput(k: NodeKind, port: nat) {
    match k
    case Output(_, _) | Unknown(_) => false
    case Script(s) => port < |s.outputs|
    case _ => port == 0
  }

  predicate HasInput(k: NodeKind, port: nat) {
    match k
    case DataField(_) | Constant(_) | Unknown(_) => false
    case Add | Subtract | Multiply | Divide | Align(_) => port < 2
    case ScaleOffset(_, _) | Convert(_) | Filter(_) => port == 0
    case Output(_, fields) => port < |fields|
    case Script(s) => port < |s.inputs|
  }

  /** Constants feed the second operand of a product and scripts, nothing else. */
  predicate TakesConstant(k: NodeKind, port: nat) {
    k.Script? || ((k.Multiply? || k.Divide?) && port == 1)
  }

  /** Which edges can be connected, and what the others are refused with: the
      first of these that applies. */
  lemma ConnectsExactly(g: GraphState, e: Edge)
    ensures var r := ConnectVerdict(g, e);
            if FindNode(g.nodes, e.from).None? || FindNode(g.nodes, e.to).None? then r == Err(UnknownNode)
            else
              var a, b := FindNode(g.nodes, e.from).value.kind, FindNode(g.nodes, e.to).value.kind;
              if e.from == e.to then r == Err(SelfLoop)
              else if !HasOutput(a, e.fromPort) then
                r == Err(if forall port :: !HasOutput(a, port) then NoOutput else BadPort)
              else if !HasInput(b, e.toPort) then r == Err(BadPort)
              else if a.Constant? && !TakesConstant(b, e.toPort) then r == Err(TypeMismatch)
              else if exists d :: d in g.edges && d.to == e.to && d.toPort == e.toPort then r == Err(InputOccupied)
              else if Reach(g.edges, e.to, e.from) then r == Err(Cycle)
              else r == Ok(())
  {
    hide Reach, Compatible;
    IncomingByMembership(g.edges, e.to, e.toPort);
    if FindNode(g.nodes, e.from).Some? && FindNode(g.nodes, e.to).Some? {
      var a, b := FindNode(g.nodes, e.from).value.kind, FindNode(g.nodes, e.to).value.kind;
      PortsOfKind(a, e.fromPort);
      PortsOfKind(b, e.toPort);
      if HasOutput(a, e.fromPort) && HasInput(b, e.toPort) {
        TypesFit(a, e.fromPort, b, e.toPort);
      }
    }
  }

  lemma PortsOfKind(k: NodeKind, port: nat)
    ensures port < |Outputs(k)| <==> HasOutput(k, port)
    ensures port < |Inputs(k)| <==> HasInput(k, port)
    ensures Outputs(k) == [] <==> forall p :: !HasOutput(k, p)
  {
    if Outputs(k) != [] {
      assert HasOutput(k, 0);
    }
  }

  lemma TypesFit(a: NodeKind, p: nat, b: NodeKind, q: nat)
    requires HasOutput(a, p) && HasInput(b, q)
    ensures p < |Outputs(a)| && q < |Inputs(b)|
    ensures Compatible(Outputs(a)[p], Inputs(b)[q]) <==> (a.Constant? ==> TakesConstant(b, q))
  {
    assert Outputs(a)[p] == if a.Constant? then [ScalarPort] else [SignalPort];
    assert Inputs(b)[q] == if TakesConstant(b, q) then [SignalPort, ScalarPort] else [SignalPort];
    assert Outputs(a)[p][0] in Outputs(a)[p] && [SignalPort][0] == SignalPort
           && [SignalPort, ScalarPort][0] == SignalPort && [SignalPort, ScalarPort][1] == ScalarPort;
  }

  lemma ConnectTakesEffect(g: GraphState, e: Edge)
    ensures Run(g, Connect(e)).Ok? <==> ConnectVerdict(g, e).Ok?
    ensures ConnectVerdict(g, e).Err? ==> Refused(Run(g, Connect(e)), Rejected(ConnectVerdict(g, e).error))
    ensures Run(g, Connect(e)).Ok? ==>
              var h := Run(g, Connect(e)).value.0;
              && h.nodes == g.nodes && h.nextId == g.nextId
              && |h.edges| == |g.edges| + 1 && h.edges[..|g.edges|] == g.edges && h.edges[|g.edges|] == e
  {
    hide ConnectVerdict;
    RunIsEdge(g, Connect(e));
  }

  /** Disconnecting a port takes away the edge into it, if there is one. */
  lemma DisconnectTakesEffect(g: GraphState, to: NodeId, toPort: nat)
    requires Sound(g)
    ensures if exists e :: e in g.edges && e.to == to && e.toPort == toPort then
              && Run(g, Disconnect(to, toPort)).Ok?
              && var h := Run(g, Disconnect(to, toPort)).value.0;
                 && h.nodes == g.nodes && h.nextId == g.nextId
                 && forall d :: d in h.edges <==> d in g.edges && !(d.to == to && d.toPort == toPort)
            else
              Refused(Run(g, Disconnect(to, toPort)), NothingToDo)
  {
    hide Ranked;
    RunIsEdge(g, Disconnect(to, toPort));
    IncomingByMembership(g.edges, to, toPort);
    var i := EdgeIndex(g.edges, to, toPort);
    if i < |g.edges| {
      RemovedMembers(g.edges, i);
      OccupantIsUnique(g.edges, g.edges[i]);
    }
  }

  // ----- Restored edges -----

  lemma {:induction false} PlacesTaken(edges: seq<Edge>, entries: seq<(nat, Edge)>)
    requires ByPlace(entries) && forall j, k :: 0 <= j < k < |entries| ==> entries[j].0 != entries[k].0
    requires forall k :: 0 <= k < |entries| ==> entries[k].0 <= |edges| + k
    ensures var r := InsertedAll(edges, entries);
            forall k :: 0 <= k < |entries| ==> entries[k].0 < |r| && r[entries[k].0] == entries[k].1
  {
    if entries != [] {
      var n := |entries| - 1;
      PlacesTaken(edges, entries[..n]);
      var before := InsertedAll(edges, entries[..n]);
      assert |before| == |edges| + n;
      forall k | 0 <= k < n
        ensures entries[k].0 < |before| && InsertedAll(edges, entries)[entries[k].0] == entries[k].1
      {
        assert entries[k].0 < entries[n].0 && entries[..n][k] == entries[k];
        InsertedAfter(before, entries[n].0, entries[n].1, entries[k].0);
      }
    }
  }

  lemma InsertedAfter(edges: seq<Edge>, at: nat, e: Edge, j: nat)
    requires j < at <= |edges|
    ensures InsertAt(edges, at, e)[j] == edges[j]
  {
  }

  /** Different places below the final length leave room for each other. */
  lemma {:induction false} PlacesFit(entries: seq<(nat, Edge)>, limit: nat, k: nat)
    requires ByPlace(entries) && forall i, j :: 0 <= i < j < |entries| ==> entries[i].0 != entries[j].0
    requires forall j :: 0 <= j < |entries| ==> entries[j].0 < limit + |entries|
    requires k < |entries|
    ensures entries[k].0 <= limit + k
    decreases |entries| - k
  {
    if k + 1 < |entries| {
      PlacesFit(entries, limit, k + 1);
      assert entries[k].0 <= entries[k + 1].0 && entries[k].0 != entries[k + 1].0;
    }
  }

  lemma SameEntries(a: seq<(nat, Edge)>, b: seq<(nat, Edge)>)
    requires multiset(a) == multiset(b)
    ensures |a| == |b| && forall x :: x in a <==> x in b
  {
    assert |multiset(a)| == |multiset(b)|;
    forall x
      ensures x in a <==> x in b
    {
      assert x in multiset(a) <==> x in multiset(b);
    }
  }

  ghost predicate Brings(entries: seq<(nat, Edge)>, e: Edge) {
    exists k :: 0 <= k < |entries| && entries[k].1 == e
  }

  predicate DistinctPlaces(entries: seq<(nat, Edge)>, limit: nat) {
    && (forall j, k :: 0 <= j < k < |entries| ==> entries[j].0 != entries[k].0)
    && (forall k :: 0 <= k < |entries| ==> entries[k].0 < limit)
  }

  /** Restored edges join those there are, each at its own place if the places
      are different and within the new list, in whatever order they are given. */
  lemma RestoreTakesEffect(g: GraphState, entries: seq<(nat, Edge)>)
    requires Run(g, RestoreEdges(entries)).Ok?
    ensures var h := Run(g, RestoreEdges(entries)).value.0;
            && h.nodes == g.nodes && h.nextId == g.nextId && |h.edges| == |g.edges| + |entries|
            && (forall e :: e in h.edges <==> e in g.edges || Brings(entries, e))
            && (DistinctPlaces(entries, |h.edges|) ==>
                  forall k :: 0 <= k < |entries| ==> h.edges[entries[k].0] == entries[k].1)
  {
    hide ConnectedAll, SortedByPlace, InsertedAll;
    RunIsEdge(g, RestoreEdges(entries));
    var sorted := SortedByPlace(entries);
    var h := Run(g, RestoreEdges(entries)).value.0;
    SameEntries(sorted, entries);
    InsertedAllMembers(g.edges, sorted);
    EntriesAreEdges(sorted);
    SameEdges(sorted, entries);
    if DistinctPlaces(entries, |h.edges|) {
      SortedPlaces(sorted, entries, |g.edges|);
      PlacesTaken(g.edges, sorted);
      forall k | 0 <= k < |entries|
        ensures h.edges[entries[k].0] == entries[k].1
      {
        assert entries[k] in sorted;
        var j :| 0 <= j < |sorted| && sorted[j] == entries[k];
      }
    }
  }

  function EdgesOnly(entries: seq<(nat, Edge)>): (r: seq<Edge>)
    ensures |r| == |entries| && forall i :: 0 <= i < |r| ==> r[i] == entries[i].1
  {
    seq(|entries|, i requires 0 <= i < |entries| => entries[i].1)
  }

  lemma {:induction false} ConnectingAll(g: GraphState, entries: seq<(nat, Edge)>)
    ensures match ConnectedAll(g, entries)
            case Err(error) => RunAll(g, Connects(EdgesOnly(entries))) == Err(Rejected(error))
            case Ok(h) => RunAll(g, Connects(EdgesOnly(entries))).Ok?
                          && RunAll(g, Connects(EdgesOnly(entries))).value.0 == h
  {
    hide Run, ConnectVerdict;
    if entries != [] {
      var n := |entries| - 1;
      var commands := Connects(EdgesOnly(entries));
      ConnectingAll(g, entries[..n]);
      assert commands[..n] == Connects(EdgesOnly(entries[..n]));
      assert commands[n] == Connect(entries[n].1);
      if ConnectedAll(g, entries[..n]).Ok? {
        RunIsEdge(ConnectedAll(g, entries[..n]).value, Connect(entries[n].1));
      }
    }
  }

  /** A restoration is refused exactly when connecting its edges one by one, in the
      order of their places, is, and with the same error. */
  lemma RestoreIsConnecting(g: GraphState, entries: seq<(nat, Edge)>)
    ensures var turns := RunAll(g, Connects(EdgesOnly(SortedByPlace(entries))));
            && (Run(g, RestoreEdges(entries)).Ok? <==> turns.Ok?)
            && (turns.Err? ==> Refused(Run(g, RestoreEdges(entries)), turns.error))
  {
    hide ConnectedAll, RunAll, InsertedAll;
    RunIsEdge(g, RestoreEdges(entries));
    ConnectingAll(g, SortedByPlace(entries));
  }

  lemma SameEdges(a: seq<(nat, Edge)>, b: seq<(nat, Edge)>)
    requires forall x :: x in a <==> x in b
    ensures forall e :: Brings(a, e) <==> Brings(b, e)
  {
    forall e
      ensures Brings(a, e) <==> Brings(b, e)
    {
      if k :| 0 <= k < |a| && a[k].1 == e {
        assert a[k] in b;
      }
      if k :| 0 <= k < |b| && b[k].1 == e {
        assert b[k] in a;
      }
    }
  }

  lemma {:induction false} EntriesAreEdges(entries: seq<(nat, Edge)>)
    ensures forall e :: e in EdgesOf(entries) <==> Brings(entries, e)
  {
    if entries != [] {
      EntriesAreEdges(entries[..|entries| - 1]);
    }
  }

  lemma SortedPlaces(sorted: seq<(nat, Edge)>, entries: seq<(nat, Edge)>, limit: nat)
    requires multiset(sorted) == multiset(entries) && ByPlace(sorted) && DistinctPlaces(entries, limit + |entries|)
    ensures DistinctPlaces(sorted, limit + |entries|)
    ensures forall k :: 0 <= k < |sorted| ==> sorted[k].0 <= limit + k
  {
    SameEntries(sorted, entries);
    forall j, k | 0 <= j < k < |sorted|
      ensures sorted[j].0 != sorted[k].0
    {
      if sorted[j].0 == sorted[k].0 {
        TwiceInBoth(sorted, entries, j, k);
      }
    }
    forall k | 0 <= k < |sorted|
      ensures sorted[k].0 < limit + |entries|
    {
      assert sorted[k] in entries;
    }
    forall k | 0 <= k < |sorted|
      ensures sorted[k].0 <= limit + k
    {
      PlacesFit(sorted, limit, k);
    }
  }

  lemma TwiceInBoth(sorted: seq<(nat, Edge)>, entries: seq<(nat, Edge)>, j: nat, k: nat)
    requires multiset(sorted) == multiset(entries) && j < k < |sorted| && sorted[j].0 == sorted[k].0
    ensures exists a, b :: 0 <= a < b < |entries| && entries[a].0 == entries[b].0
  {
    var x, y := sorted[j], sorted[k];
    SameEntries(sorted, entries);
    if x == y {
      var a, b := CountedTwice(sorted, entries, j, k);
    } else {
      assert x in entries && y in entries;
      var a :| 0 <= a < |entries| && entries[a] == x;
      var b :| 0 <= b < |entries| && entries[b] == y;
      assert a < b || b < a;
    }
  }

  lemma CountedTwice(s: seq<(nat, Edge)>, t: seq<(nat, Edge)>, j: nat, k: nat) returns (a: nat, b: nat)
    requires multiset(s) == multiset(t) && j < k < |s| && s[j] == s[k]
    ensures a < b < |t| && t[a] == t[b] == s[j]
  {
    assert s == s[..j] + [s[j]] + s[j + 1..k] + [s[j]] + s[k + 1..];
    a, b := TwoPlaces(t, s[j]);
  }

  lemma {:induction false} TwoPlaces(t: seq<(nat, Edge)>, x: (nat, Edge)) returns (a: nat, b: nat)
    requires multiset(t)[x] >= 2
    ensures a < b < |t| && t[a] == t[b] == x
  {
    var n := |t| - 1;
    assert t == t[..n] + [t[n]];
    if t[n] == x {
      assert x in multiset(t[..n]);
      a :| a < n && t[..n][a] == x;
      b := n;
    } else {
      a, b := TwoPlaces(t[..n], x);
    }
  }

  // ----- Batches -----

  /** A batch is its commands in turn: a first part, then on the graph that this
      leaves the others. */
  lemma {:induction false} BatchInTurn(g: GraphState, first: seq<Command>, rest: seq<Command>)
    ensures Run(g, Batch([])) == Ok((g, Batch([])))
    ensures Run(g, Batch(first)).Err? ==> Run(g, Batch(first + rest)) == Run(g, Batch(first))
    ensures Run(g, Batch(first)).Ok? ==>
              var (mid, back) := Run(g, Batch(first)).value;
              match Run(mid, Batch(rest))
              case Err(error) => Run(g, Batch(first + rest)) == Err(error)
              case Ok((h, inverse)) =>
                && back.Batch? && inverse.Batch?
                && Run(g, Batch(first + rest)) == Ok((h, Batch(inverse.commands + back.commands)))
  {
    BatchIsRunAll(g, []);
    BatchIsRunAll(g, first);
    BatchIsRunAll(g, first + rest);
    if RunAll(g, first).Ok? {
      BatchIsRunAll(RunAll(g, first).value.0, rest);
    }
    RunAllInTurn(g, first, rest);
  }

  lemma BatchIsRunAll(g: GraphState, commands: seq<Command>)
    ensures Run(g, Batch(commands)) ==
              match RunAll(g, commands)
              case Err(error) => Err(error)
              case Ok((h, inverses)) => Ok((h, Batch(inverses)))
    ensures commands == [] ==> RunAll(g, commands) == Ok((g, []))
  {
  }

  lemma {:induction false} RunAllInTurn(g: GraphState, first: seq<Command>, rest: seq<Command>)
    ensures RunAll(g, first).Err? ==> RunAll(g, first + rest) == RunAll(g, first)
    ensures RunAll(g, first).Ok? ==>
              var (mid, back) := RunAll(g, first).value;
              match RunAll(mid, rest)
              case Err(error) => RunAll(g, first + rest) == Err(error)
              case Ok((h, inverses)) => RunAll(g, first + rest) == Ok((h, inverses + back))
    decreases rest
  {
    hide Run;
    if rest == [] {
      assert first + rest == first;
      if RunAll(g, first).Ok? {
        var (mid, back) := RunAll(g, first).value;
        assert RunAll(mid, rest) == Ok((mid, [])) && [] + back == back;
      }
    } else {
      var n := |rest| - 1;
      RunAllInTurn(g, first, rest[..n]);
      assert (first + rest)[..|first| + n] == first + rest[..n] && (first + rest)[|first| + n] == rest[n];
      if RunAll(g, first).Ok? {
        var (mid, back) := RunAll(g, first).value;
        if RunAll(mid, rest[..n]).Ok? {
          var (before, inverses) := RunAll(mid, rest[..n]).value;
          if Run(before, rest[n]).Ok? {
            var inverse := Run(before, rest[n]).value.1;
            assert [inverse] + (inverses + back) == ([inverse] + inverses) + back;
          }
        }
      }
    }
  }

  lemma BatchOfOne(g: GraphState, c: Command)
    ensures Run(g, c).Err? ==> Run(g, Batch([c])) == Err(Run(g, c).error)
    ensures Run(g, c).Ok? ==> Run(g, Batch([c])) == Ok((Run(g, c).value.0, Batch([Run(g, c).value.1])))
  {
    hide RunOne;
    BatchIsRunAll(g, [c]);
    assert [c][..0] == [] && RunAll(g, []) == Ok((g, []));
    if Run(g, c).Ok? {
      assert [Run(g, c).value.1] + [] == [Run(g, c).value.1];
    }
  }
}
