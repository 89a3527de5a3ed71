/** Edges are balanced: what an accepted command brings or takes, its inverse
    takes or brings, and a refused command leaves no more edges than there were. */
module EdgeBalance {
  import opened Prelude
  import opened GraphModel
  import opened Commands
  import opened GraphUndo
  import opened GraphHistory

  /** How many edges a command brings with it. */
  function Carried(c: Command): nat
    decreases c
  {
    match c
    case Connect(_) => 1
    case RestoreEdges(restored) => |restored|
    case InsertOutputField(_, _, _, connection) => if connection.Some? then 1 else 0
    case InsertScriptInput(_, _, _, connection) => if connection.Some? then 1 else 0
    case Batch(commands) => CarriedAll(commands)
    case _ => 0
  }

  function CarriedAll(commands: seq<Command>): nat
    decreases commands
  {
    if commands == [] then 0
    else CarriedAll(commands[..|commands| - 1]) + Carried(commands[|commands| - 1])
  }

  lemma {:induction false} CarriedFirst(first: Command, rest: seq<Command>)
    ensures CarriedAll([first] + rest) == Carried(first) + CarriedAll(rest)
  {
    hide Carried;
    if rest == [] {
      assert [first] + rest == [first] && [first][..0] == [];
    } else {
      var n := |rest| - 1;
      CarriedFirst(first, rest[..n]);
      assert ([first] + rest)[..n + 1] == [first] + rest[..n];
    }
  }

  lemma {:induction false} CarriedByPrefix(commands: seq<Command>, k: nat)
    requires k < |commands|
    ensures CarriedAll(commands[..k]) + Carried(commands[k]) == CarriedAll(commands[..k + 1]) <= CarriedAll(commands)
  {
    hide Carried;
    assert commands[..k + 1][..k] == commands[..k];
    if k + 1 == |commands| {
      assert commands[..k + 1] == commands;
    } else {
      var n := |commands| - 1;
      CarriedByPrefix(commands[..n], k);
      assert commands[..n][..k] == commands[..k] && commands[..n][..k + 1] == commands[..k + 1];
    }
  }

  lemma {:induction false} CarriedEach(commands: seq<Command>, each: nat)
    requires forall k :: 0 <= k < |commands| ==> Carried(commands[k]) == each
    ensures CarriedAll(commands) == each * |commands|
  {
    hide Carried;
    if commands != [] {
      CarriedEach(commands[..|commands| - 1], each);
    }
  }

  // ----- Accepted commands -----

  ghost predicate Balances(g: GraphState, c: Command, h: GraphState, inverse: Command) {
    |h.edges| + Carried(inverse) == |g.edges| + Carried(c)
  }

  lemma RestoringCarries(c: Command, removed: seq<(nat, Edge)>)
    ensures Carried(ThenRestore(c, removed)) == Carried(c) + |removed|
  {
    if removed != [] {
      CarriedFirst(c, [RestoreEdges(removed)]);
      CarriedFirst(RestoreEdges(removed), []);
      assert [c] + [RestoreEdges(removed)] == [c, RestoreEdges(removed)];
      assert [RestoreEdges(removed)] + [] == [RestoreEdges(removed)];
    }
  }

  lemma PuttingNodeBackCarries(node: Node, removed: seq<Edge>)
    ensures Carried(Batch([AddNode(node)] + Connects(removed))) == |removed|
  {
    CarriedEach(Connects(removed), 1);
    CarriedFirst(AddNode(node), Connects(removed));
    assert Carried(AddNode(node)) == 0;
  }

  lemma RemovingNodeBalances(g: GraphState, c: Command)
    requires c.RemoveNode? && RunRemoveNode(g, c).Ok?
    ensures Balances(g, c, RunRemoveNode(g, c).value.0, RunRemoveNode(g, c).value.1)
  {
    hide Kept, Taken, Filtered, Touching, Connects;
    var (h, node, removed) := WithoutNode(g, c.id).value;
    FilteredIsTaken(g.edges, Touching(c.id));
    assert |Taken(g.edges, Touching(c.id))| + |Kept(g.edges, Touching(c.id))| == |g.edges|;
    PuttingNodeBackCarries(node, removed);
  }

  lemma SettingKindBalances(g: GraphState, c: Command)
    requires c.SetKind? && RunSetKind(g, c).Ok?
    ensures Balances(g, c, RunSetKind(g, c).value.0, RunSetKind(g, c).value.1)
  {
    hide Inputs, Outputs, OnSide;
    var i := NodeIndex(g.nodes, c.id);
    RestoringCarries(SetKind(c.id, g.nodes[i].kind), Taken(g.edges, ChangedSide(g, c.id, i, c.kind)));
  }

  lemma NodeBalances(g: GraphState, c: Command)
    requires c.AddNode? || c.RemoveNode? || c.MoveNode? || c.SetKind?
    requires Run(g, c).Ok?
    ensures Balances(g, c, Run(g, c).value.0, Run(g, c).value.1)
  {
    hide RunSetKind, RunRemoveNode;
    RunIsNode(g, c);
    if c.RemoveNode? {
      RemovingNodeBalances(g, c);
    } else if c.SetKind? {
      SettingKindBalances(g, c);
    }
  }

  lemma AsManyEntries(a: seq<(nat, Edge)>, b: seq<(nat, Edge)>)
    requires multiset(a) == multiset(b)
    ensures |a| == |b|
  {
    assert |multiset(a)| == |multiset(b)|;
  }

  lemma DisconnectsCarryNothing(entries: seq<(nat, Edge)>)
    ensures Carried(Batch(Disconnects(entries))) == 0
  {
    CarriedEach(Disconnects(entries), 0);
  }

  lemma RestoringBalances(g: GraphState, c: Command)
    requires c.RestoreEdges? && RunRestoreEdges(g, c).Ok?
    ensures Balances(g, c, RunRestoreEdges(g, c).value.0, RunRestoreEdges(g, c).value.1)
  {
    hide ConnectedAll, SortedByPlace, Disconnects, ByPlace;
    var sorted := SortedByPlace(c.restored);
    AsManyEntries(sorted, c.restored);
    DisconnectsCarryNothing(sorted);
  }

  lemma EdgeBalances(g: GraphState, c: Command)
    requires c.Connect? || c.Disconnect? || c.RestoreEdges?
    requires Run(g, c).Ok?
    ensures Balances(g, c, Run(g, c).value.0, Run(g, c).value.1)
  {
    hide RunRestoreEdges, ConnectVerdict;
    RunIsEdge(g, c);
    if c.RestoreEdges? {
      RestoringBalances(g, c);
    }
  }

  lemma PortBalances(g: GraphState, c: Command)
    requires IsPortCommand(c) && Run(g, c).Ok?
    ensures Balances(g, c, Run(g, c).value.0, Run(g, c).value.1)
  {
    hide EditedKind;
    RunIsPort(g, c);
    if c.RemoveScriptOutput? {
      RemovingOutputBalances(g, c);
    }
  }

  lemma RemovingOutputBalances(g: GraphState, c: Command)
    requires c.RemoveScriptOutput? && RunPortCommand(g, c).Ok?
    ensures Balances(g, c, RunPortCommand(g, c).value.0, RunPortCommand(g, c).value.1)
  {
    var was := g.nodes[NodeIndex(g.nodes, c.id)].kind;
    RestoringCarries(InsertScriptOutput(c.id, c.index, was.script.outputs[c.index]),
                     Taken(g.edges, FromPort(c.id, c.index)));
  }

  /** The edges after an accepted command and those that its inverse brings are
      as many as the edges before and those that the command brought. */
  lemma {:induction false} RunBalances(g: GraphState, c: Command)
    requires Run(g, c).Ok?
    ensures Balances(g, c, Run(g, c).value.0, Run(g, c).value.1)
    decreases c
  {
    hide RunOne;
    if c.Batch? {
      RunAllBalances(g, c.commands);
    } else if IsPortCommand(c) {
      PortBalances(g, c);
    } else if c.Connect? || c.Disconnect? || c.RestoreEdges? {
      EdgeBalances(g, c);
    } else {
      NodeBalances(g, c);
    }
  }

  lemma {:induction false} RunAllBalances(g: GraphState, commands: seq<Command>)
    requires RunAll(g, commands).Ok?
    ensures var (h, inverses) := RunAll(g, commands).value;
            |h.edges| + CarriedAll(inverses) == |g.edges| + CarriedAll(commands)
    decreases commands
  {
    hide Run, Carried;
    if commands != [] {
      var n := |commands| - 1;
      RunAllBalances(g, commands[..n]);
      var (before, inverses) := RunAll(g, commands[..n]).value;
      RunBalances(before, commands[n]);
      CarriedFirst(Run(before, commands[n]).value.1, inverses);
    }
  }

  // ----- Refused commands -----

  /** A refused command leaves no more edges than there were, and those that it
      was to bring. */
  lemma {:induction false} RefusedBalances(g: GraphState, c: Command, depth: nat)
    requires Run(g, c).Err?
    ensures |AfterFailure(g, c, depth).edges| <= |g.edges| + Carried(c)
    decreases depth, 0, c
  {
    hide RunOne;
    if c.Batch? {
      RefusedAllBalances(g, c.commands, depth);
    }
  }

  lemma {:induction false} RefusedAllBalances(g: GraphState, commands: seq<Command>, depth: nat)
    requires RunAll(g, commands).Err?
    ensures |AfterFailureAll(g, commands, depth).edges| <= |g.edges| + CarriedAll(commands)
    decreases depth, 0, commands
  {
    hide Run, Carried, AfterFailure;
    var n := |commands| - 1;
    match RunAll(g, commands[..n])
    case Err(_) => RefusedAllBalances(g, commands[..n], depth);
    case Ok((before, inverses)) =>
      RefusedBalances(before, commands[n], depth);
      RunAllBalances(g, commands[..n]);
      if depth > 0 {
        RollbackBalances(AfterFailure(before, commands[n], depth), inverses, depth - 1);
      }
  }

  lemma {:induction false} RollbackBalances(g: GraphState, inverses: seq<Command>, depth: nat)
    ensures |RolledBack(g, inverses, depth).edges| <= |g.edges| + CarriedAll(inverses)
    decreases depth, 1, inverses
  {
    hide Run, Carried, AfterFailure;
    if inverses != [] {
      var n := |inverses| - 1;
      RollbackBalances(g, inverses[..n], depth);
      var before := RolledBack(g, inverses[..n], depth);
      if Run(before, inverses[n]).Ok? {
        RunBalances(before, inverses[n]);
      } else {
        RefusedBalances(before, inverses[n], depth);
      }
    }
  }

  // ----- Losses -----

  /** Commands that only bring edges. */
  predicate Puts(c: Command) {
    c.Connect? || c.RestoreEdges? || (c.Batch? && forall k :: 0 <= k < |c.commands| ==> c.commands[k].Connect?)
  }

  /** Fewer edges are left than there were and the command was to bring. */
  ghost predicate Loses(g: GraphState, c: Command, depth: nat) {
    |AfterFailure(g, c, depth).edges| < |g.edges| + Carried(c)
  }

  /** Command `k` is the first of the batch that is refused. */
  ghost predicate RefusedAt(g: GraphState, commands: seq<Command>, k: nat) {
    && k < |commands| && RunAll(g, commands[..k]).Ok?
    && Run(RunAll(g, commands[..k]).value.0, commands[k]).Err?
  }

  /** A batch loses edges where the member that is refused does. */
  lemma {:induction false} BatchLoses(g: GraphState, commands: seq<Command>, k: nat, depth: nat)
    requires RefusedAt(g, commands, k) && Loses(RunAll(g, commands[..k]).value.0, commands[k], depth)
    ensures Loses(g, Batch(commands), depth)
  {
    hide Run, Carried, AfterFailure;
    var (before, inverses) := RunAll(g, commands[..k]).value;
    RunAllBalances(g, commands[..k]);
    if depth > 0 {
      RollbackBalances(AfterFailure(before, commands[k], depth), inverses, depth - 1);
    }
    CarriedByPrefix(commands, k);
    RefusedPrefix(g, commands, k, depth);
    BatchIsItsCommands(g, commands, depth);
  }

  lemma BatchIsItsCommands(g: GraphState, commands: seq<Command>, depth: nat)
    ensures Carried(Batch(commands)) == CarriedAll(commands)
    ensures AfterFailure(g, Batch(commands), depth) == AfterFailureAll(g, commands, depth)
  {
  }

  /** What a list leaves is decided by the first command that is refused. */
  lemma {:induction false} RefusedPrefix(g: GraphState, commands: seq<Command>, k: nat, depth: nat)
    requires RefusedAt(g, commands, k)
    ensures RunAll(g, commands).Err?
    ensures var (before, inverses) := RunAll(g, commands[..k]).value;
            var left := AfterFailure(before, commands[k], depth);
            AfterFailureAll(g, commands, depth) == if depth == 0 then left else RolledBack(left, inverses, depth - 1)
  {
    hide Run, AfterFailure, RolledBack;
    if k + 1 < |commands| {
      assert commands[..|commands| - 1][..k] == commands[..k];
      RefusedPrefix(g, commands[..|commands| - 1], k, depth);
    }
  }

  /** The first command of a refused list that is refused. */
  lemma {:induction false} FirstRefused(g: GraphState, commands: seq<Command>) returns (k: nat)
    requires RunAll(g, commands).Err?
    ensures RefusedAt(g, commands, k)
  {
    hide Run;
    var n := |commands| - 1;
    if RunAll(g, commands[..n]).Ok? {
      k := n;
    } else {
      k := FirstRefused(g, commands[..n]);
      assert commands[..n][..k] == commands[..k];
    }
  }

  lemma NothingToRestore(g: GraphState)
    ensures Run(g, RestoreEdges([])).Ok?
  {
    RunIsEdge(g, RestoreEdges([]));
  }

  /** Edges that are refused are lost. */
  lemma RefusedEdgesAreLost(g: GraphState, c: Command, depth: nat)
    requires Puts(c) && Run(g, c).Err?
    ensures Loses(g, c, depth)
  {
    hide RunOne;
    NothingToRestore(g);
    if c.Batch? {
      var k := FirstRefused(g, c.commands);
      BatchLoses(g, c.commands, k, depth);
    }
  }
}
