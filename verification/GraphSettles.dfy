/** Rolling back ends: what a refused batch leaves is settled after finitely many
    rollbacks within one another, on any graph. */
module GraphSettles {
  import opened Prelude
  import opened GraphModel
  import opened Commands
  import opened GraphUndo
  import opened GraphHistory
  import opened EdgeBalance

  // ----- How many rollbacks within one another are enough -----

  /** No rollback that the refused command leads to is cut off at `depth`. */
  ghost predicate Enough(g: GraphState, c: Command, depth: nat)
    decreases depth, 0, c
  {
    c.Batch? ==> EnoughAll(g, c.commands, depth)
  }

  ghost predicate EnoughAll(g: GraphState, commands: seq<Command>, depth: nat)
    decreases depth, 0, commands
  {
    commands != [] ==>
      var n := |commands| - 1;
      match RunAll(g, commands[..n])
      case Err(_) => EnoughAll(g, commands[..n], depth)
      case Ok((before, inverses)) =>
        Run(before, commands[n]).Err? ==>
          && Enough(before, commands[n], depth)
          && depth > 0 && EnoughBack(AfterFailure(before, commands[n], depth), inverses, depth - 1)
  }

  ghost predicate EnoughBack(g: GraphState, inverses: seq<Command>, depth: nat)
    decreases depth, 1, inverses
  {
    inverses != [] ==>
      var n := |inverses| - 1;
      var before := RolledBack(g, inverses[..n], depth);
      && EnoughBack(g, inverses[..n], depth)
      && (Run(before, inverses[n]).Err? ==> Enough(before, inverses[n], depth))
  }

  lemma {:induction false} MoreIsEnough(g: GraphState, c: Command, d: nat, e: nat)
    requires Enough(g, c, d) && d <= e && Run(g, c).Err?
    ensures Enough(g, c, e) && AfterFailure(g, c, e) == AfterFailure(g, c, d)
    decreases d, 0, c
  {
    if c.Batch? {
      MoreIsEnoughAll(g, c.commands, d, e);
    }
  }

  lemma {:induction false} MoreIsEnoughAll(g: GraphState, commands: seq<Command>, d: nat, e: nat)
    requires EnoughAll(g, commands, d) && d <= e && RunAll(g, commands).Err?
    ensures EnoughAll(g, commands, e) && AfterFailureAll(g, commands, e) == AfterFailureAll(g, commands, d)
    decreases d, 0, commands
  {
    hide Run;
    if commands != [] {
      var n := |commands| - 1;
      match RunAll(g, commands[..n])
      case Err(_) => MoreIsEnoughAll(g, commands[..n], d, e);
      case Ok((before, inverses)) =>
        MoreIsEnough(before, commands[n], d, e);
        MoreIsEnoughBack(AfterFailure(before, commands[n], d), inverses, d - 1, e - 1);
    }
  }

  lemma {:induction false} MoreIsEnoughBack(g: GraphState, inverses: seq<Command>, d: nat, e: nat)
    requires EnoughBack(g, inverses, d) && d <= e
    ensures EnoughBack(g, inverses, e) && RolledBack(g, inverses, e) == RolledBack(g, inverses, d)
    decreases d, 1, inverses
  {
    hide Run, AfterFailure;
    if inverses != [] {
      var n := |inverses| - 1;
      MoreIsEnoughBack(g, inverses[..n], d, e);
      var before := RolledBack(g, inverses[..n], d);
      if Run(before, inverses[n]).Err? {
        MoreIsEnough(before, inverses[n], d, e);
      }
    }
  }

  // ----- Settling -----

  ghost predicate Settles(g: GraphState, c: Command) {
    Run(g, c).Err? ==> exists d: nat :: Enough(g, c, d)
  }

  /** The command settles on every graph. */
  ghost predicate Calm(c: Command) {
    forall g :: Settles(g, c)
  }

  ghost predicate AllCalm(commands: seq<Command>) {
    forall k :: 0 <= k < |commands| ==> Calm(commands[k])
  }

  lemma OneIsCalm(c: Command)
    requires !c.Batch?
    ensures Calm(c)
  {
    forall g
      ensures Settles(g, c)
    {
      assert Enough(g, c, 0);
    }
  }

  ghost predicate SettlesBack(g: GraphState, inverses: seq<Command>) {
    exists d: nat :: EnoughBack(g, inverses, d)
  }

  /** Where the inverses before the last one end up. */
  ghost predicate EndsBack(g: GraphState, inverses: seq<Command>, v: GraphState) {
    exists d: nat :: EnoughBack(g, inverses, d) && RolledBack(g, inverses, d) == v
  }

  lemma OneMoreBack(g: GraphState, inverses: seq<Command>, c: Command, v: GraphState)
    requires EndsBack(g, inverses, v) && Settles(v, c)
    ensures SettlesBack(g, inverses + [c])
  {
    hide Run, Enough;
    var d: nat :| EnoughBack(g, inverses, d) && RolledBack(g, inverses, d) == v;
    var all := inverses + [c];
    assert all[..|inverses|] == inverses;
    if Run(v, c).Err? {
      var e: nat :| Enough(v, c, e);
      var most := if d < e then e else d;
      MoreIsEnoughBack(g, inverses, d, most);
      MoreIsEnough(v, c, e, most);
      assert EnoughBack(g, all, most);
    } else {
      assert EnoughBack(g, all, d);
    }
  }

  lemma {:induction false} CalmBack(g: GraphState, inverses: seq<Command>)
    requires AllCalm(inverses)
    ensures SettlesBack(g, inverses)
  {
    hide Run, Enough, Settles;
    if inverses == [] {
      assert EnoughBack(g, inverses, 0);
    } else {
      var n := |inverses| - 1;
      CalmBack(g, inverses[..n]);
      var d: nat :| EnoughBack(g, inverses[..n], d);
      var v := RolledBack(g, inverses[..n], d);
      assert EndsBack(g, inverses[..n], v) && Calm(inverses[n]);
      OneMoreBack(g, inverses[..n], inverses[n], v);
      assert inverses[..n] + [inverses[n]] == inverses;
    }
  }

  /** What a refused command leaves, in the end. */
  ghost predicate EndsAt(g: GraphState, c: Command, left: GraphState) {
    exists d: nat :: Enough(g, c, d) && AfterFailure(g, c, d) == left
  }

  /** A batch settles if the command that is refused settles and then the
      rollback does. */
  lemma RefusedSettles(g: GraphState, commands: seq<Command>, k: nat, left: GraphState)
    requires RefusedAt(g, commands, k) && EndsAt(RunAll(g, commands[..k]).value.0, commands[k], left)
    requires SettlesBack(left, RunAll(g, commands[..k]).value.1)
    ensures Settles(g, Batch(commands))
  {
    hide Run, Enough, AfterFailure;
    var (before, inverses) := RunAll(g, commands[..k]).value;
    var d: nat :| Enough(before, commands[k], d) && AfterFailure(before, commands[k], d) == left;
    var e: nat :| EnoughBack(left, inverses, e);
    var most := if d < e + 1 then e + 1 else d;
    MoreIsEnough(before, commands[k], d, most);
    MoreIsEnoughBack(left, inverses, e, most - 1);
    assert commands[..k + 1][..k] == commands[..k];
    assert EnoughAll(g, commands[..k + 1], most);
    EnoughByPrefix(g, commands, k + 1, most);
    BatchEnough(g, commands, most);
  }

  lemma BatchEnough(g: GraphState, commands: seq<Command>, d: nat)
    requires EnoughAll(g, commands, d)
    ensures Settles(g, Batch(commands))
  {
    assert Enough(g, Batch(commands), d);
  }

  lemma {:induction false} EnoughByPrefix(g: GraphState, commands: seq<Command>, k: nat, d: nat)
    requires k <= |commands| && RunAll(g, commands[..k]).Err? && EnoughAll(g, commands[..k], d)
    ensures RunAll(g, commands).Err? && EnoughAll(g, commands, d)
  {
    hide Run, Enough;
    if k == |commands| {
      assert commands[..k] == commands;
    } else {
      assert commands[..|commands| - 1][..k] == commands[..k];
      EnoughByPrefix(g, commands[..|commands| - 1], k, d);
    }
  }

  // ----- Inverses -----

  /** `inverse` undoes `c` where `c` has been accepted. */
  ghost predicate Inverts(c: Command, inverse: Command) {
    exists g :: Run(g, c).Ok? && Run(g, c).value.1 == inverse
  }

  lemma {:induction false} InvertsEach(g: GraphState, commands: seq<Command>)
    requires RunAll(g, commands).Ok?
    ensures var inverses := RunAll(g, commands).value.1;
            && |inverses| == |commands|
            && forall k :: 0 <= k < |commands| ==> Inverts(commands[|commands| - 1 - k], inverses[k])
    decreases commands
  {
    hide Run;
    if commands != [] {
      InvertsEach(g, commands[..|commands| - 1]);
    }
  }

  lemma {:induction false} InvertedBatch(c: Command, inverse: Command)
    requires c.Batch? && Inverts(c, inverse)
    ensures inverse.Batch? && |inverse.commands| == |c.commands|
    ensures var n := |c.commands|;
            forall k :: 0 <= k < n ==> Inverts(c.commands[n - 1 - k], inverse.commands[k])
  {
    hide RunOne;
    var g :| Run(g, c).Ok? && Run(g, c).value.1 == inverse;
    InvertsEach(g, c.commands);
  }

  /** A batch of calm commands that are calm to undo is calm. */
  lemma BatchIsCalm(commands: seq<Command>)
    requires AllCalm(commands)
    requires forall k, inverse :: 0 <= k < |commands| && Inverts(commands[k], inverse) ==> Calm(inverse)
    ensures Calm(Batch(commands))
  {
    hide Inverts, Enough, SettlesBack, RunAll;
    forall g | Run(g, Batch(commands)).Err?
      ensures Settles(g, Batch(commands))
    {
      var k := FirstRefused(g, commands);
      var (before, inverses) := RunAll(g, commands[..k]).value;
      assert Calm(commands[k]) && Settles(before, commands[k]);
      var d: nat :| Enough(before, commands[k], d);
      var left := AfterFailure(before, commands[k], d);
      assert EndsAt(before, commands[k], left);
      InvertsEach(g, commands[..k]);
      CalmBack(left, inverses);
      RefusedSettles(g, commands, k, left);
    }
  }

  // ----- Commands that only bring or only take edges -----

  /** Commands that only take edges away. */
  predicate Takes(c: Command) {
    c.Disconnect? || (c.Batch? && forall k :: 0 <= k < |c.commands| ==> c.commands[k].Disconnect?)
  }

  lemma InverseOfPuts(c: Command, inverse: Command)
    requires Puts(c) && Inverts(c, inverse)
    ensures Takes(inverse)
  {
    if c.Batch? {
      InvertedBatch(c, inverse);
      forall k | 0 <= k < |inverse.commands|
        ensures inverse.commands[k].Disconnect?
      {
        assert Inverts(c.commands[|c.commands| - 1 - k], inverse.commands[k]);
      }
    }
  }

  lemma InverseOfTakes(c: Command, inverse: Command)
    requires Takes(c) && Inverts(c, inverse)
    ensures Puts(inverse)
  {
    if c.Batch? {
      InvertedBatch(c, inverse);
      forall k | 0 <= k < |inverse.commands|
        ensures inverse.commands[k].Connect?
      {
        assert Inverts(c.commands[|c.commands| - 1 - k], inverse.commands[k]);
      }
    }
  }

  lemma PutsAndTakesAreCalm(c: Command)
    requires Puts(c) || Takes(c)
    ensures Calm(c)
  {
    hide Calm, Inverts;
    if c.Batch? {
      forall k | 0 <= k < |c.commands|
        ensures Calm(c.commands[k])
        ensures forall inverse :: Inverts(c.commands[k], inverse) ==> Calm(inverse)
      {
        OneIsCalm(c.commands[k]);
        forall inverse | Inverts(c.commands[k], inverse)
          ensures Calm(inverse)
        {
          OneInverted(c.commands[k], inverse);
          OneIsCalm(inverse);
        }
      }
      BatchIsCalm(c.commands);
    } else {
      OneIsCalm(c);
    }
  }

  lemma OneInverted(c: Command, inverse: Command)
    requires (c.Connect? || c.Disconnect?) && Inverts(c, inverse)
    ensures if c.Connect? then inverse.Disconnect? else inverse.Connect?
  {
  }

  // ----- Commands that move edges between the graph and their inverse -----

  /** Commands on nodes and on outputs, their inverses, the inverses of those,
      and so on. */
  predicate Moves(c: Command)
    decreases c
  {
    if c.Batch? then
      var n := |c.commands|;
      && n > 0
      && (|| (Moves(c.commands[0]) && forall k :: 0 < k < n ==> Puts(c.commands[k]))
          || (Moves(c.commands[n - 1]) && forall k :: 0 <= k < n - 1 ==> Takes(c.commands[k])))
    else
      c.AddNode? || c.RemoveNode? || c.SetKind? || c.InsertScriptOutput? || c.RemoveScriptOutput?
  }

  lemma RestoringMoves(c: Command, removed: seq<(nat, Edge)>)
    requires !c.Batch? && Moves(c)
    ensures Moves(ThenRestore(c, removed))
  {
    if removed != [] {
      assert Moves(Batch([c, RestoreEdges(removed)]));
    }
  }

  lemma InverseOfOutput(g: GraphState, c: Command)
    requires c.RemoveScriptOutput? && Run(g, c).Ok?
    ensures Moves(Run(g, c).value.1)
  {
    RunIsPort(g, c);
    var was := g.nodes[NodeIndex(g.nodes, c.id)].kind;
    RestoringMoves(InsertScriptOutput(c.id, c.index, was.script.outputs[c.index]),
                   Taken(g.edges, FromPort(c.id, c.index)));
  }

  lemma InverseOfPort(g: GraphState, c: Command)
    requires IsPortCommand(c) && !c.RemoveScriptOutput? && Run(g, c).Ok?
    ensures !Run(g, c).value.1.Batch? && (Moves(c) ==> Moves(Run(g, c).value.1))
  {
    RunIsPort(g, c);
  }

  lemma InverseOfEdge(g: GraphState, c: Command)
    requires (c.Connect? || c.Disconnect? || c.RestoreEdges?) && Run(g, c).Ok?
    ensures Puts(Run(g, c).value.1) || Takes(Run(g, c).value.1)
  {
    hide SortedByPlace, InsertedAll, ConnectedAll, ConnectVerdict;
    RunIsEdge(g, c);
  }

  lemma InverseOfNode(g: GraphState, c: Command)
    requires (c.AddNode? || c.RemoveNode? || c.MoveNode?) && Run(g, c).Ok?
    ensures c.MoveNode? ==> Run(g, c).value.1.MoveNode?
    ensures !c.MoveNode? ==> Moves(Run(g, c).value.1)
  {
    hide Kept, Filtered, Connects;
    RunIsNode(g, c);
    if c.RemoveNode? {
      PuttingNodeBackMoves(WithoutNode(g, c.id).value.1, WithoutNode(g, c.id).value.2);
    }
  }

  lemma PuttingNodeBackMoves(node: Node, removed: seq<Edge>)
    ensures Moves(Batch([AddNode(node)] + Connects(removed)))
  {
    assert Moves(AddNode(node));
  }

  lemma InverseOfKind(g: GraphState, c: Command)
    requires c.SetKind? && Run(g, c).Ok?
    ensures Moves(Run(g, c).value.1)
  {
    hide Inputs, Outputs, OnSide, Taken, Moves;
    RunIsNode(g, c);
    var i := NodeIndex(g.nodes, c.id);
    assert Moves(SetKind(c.id, g.nodes[i].kind)) by {
      KindMoves(c.id, g.nodes[i].kind);
    }
    RestoringMoves(SetKind(c.id, g.nodes[i].kind), Taken(g.edges, ChangedSide(g, c.id, i, c.kind)));
  }

  lemma KindMoves(id: NodeId, kind: NodeKind)
    ensures Moves(SetKind(id, kind))
  {
  }

  /** Commands whose inverses are of the same few forms. */
  predicate Plain(c: Command) {
    !c.Batch? || Puts(c) || Takes(c) || Moves(c)
  }

  lemma InverseOfOne(c: Command, inverse: Command)
    requires !c.Batch? && Inverts(c, inverse)
    ensures Plain(inverse) && (Moves(c) ==> Moves(inverse))
  {
    var g :| Run(g, c).Ok? && Run(g, c).value.1 == inverse;
    hide Run, RunSetKind, RunPortCommand, Kept, Filtered, SortedByPlace, InsertedAll, ConnectVerdict;
    if c.SetKind? {
      InverseOfKind(g, c);
    } else if c.RemoveScriptOutput? {
      InverseOfOutput(g, c);
    } else if IsPortCommand(c) {
      InverseOfPort(g, c);
    } else if c.AddNode? || c.RemoveNode? || c.MoveNode? {
      InverseOfNode(g, c);
    } else {
      InverseOfEdge(g, c);
    }
  }

  lemma {:induction false} InverseOfMoves(c: Command, inverse: Command)
    requires Moves(c) && Inverts(c, inverse)
    ensures Moves(inverse)
    decreases c
  {
    hide Inverts, Puts, Takes;
    if c.Batch? {
      InvertedBatch(c, inverse);
      var n := |c.commands|;
      if Moves(c.commands[0]) && forall k :: 0 < k < n ==> Puts(c.commands[k]) {
        InverseOfMoves(c.commands[0], inverse.commands[n - 1]);
        forall k | 0 <= k < n - 1
          ensures Takes(inverse.commands[k])
        {
          InverseOfPuts(c.commands[n - 1 - k], inverse.commands[k]);
        }
      } else {
        InverseOfMoves(c.commands[n - 1], inverse.commands[0]);
        forall k | 0 < k < n
          ensures Puts(inverse.commands[k])
        {
          InverseOfTakes(c.commands[n - 1 - k], inverse.commands[k]);
        }
      }
    } else {
      InverseOfOne(c, inverse);
    }
  }

  /** The edges and those that the commands still bring, when one is refused. */
  lemma BeforeRefused(g: GraphState, commands: seq<Command>, k: nat)
    requires RefusedAt(g, commands, k)
    ensures var (before, inverses) := RunAll(g, commands[..k]).value;
            |before.edges| + CarriedAll(inverses) + Carried(commands[k]) <= |g.edges| + CarriedAll(commands)
    ensures var (before, _) := RunAll(g, commands[..k]).value;
            |before.edges| + Carried(commands[k]) <= |g.edges| + CarriedAll(commands)
  {
    hide Run, Carried;
    RunAllBalances(g, commands[..k]);
    CarriedByPrefix(commands, k);
  }

  /** The last inverse of a rollback starts on fewer edges if one was refused. */
  lemma FewerAtLast(g: GraphState, commands: seq<Command>, k: nat, d: nat, e: nat)
    requires RefusedAt(g, commands, k) && k > 0 && Puts(commands[k])
    ensures var (before, inverses) := RunAll(g, commands[..k]).value;
            && |inverses| == k
            && var v := RolledBack(AfterFailure(before, commands[k], d), inverses[..k - 1], e);
               |v.edges| + Carried(inverses[k - 1]) < |g.edges| + CarriedAll(commands)
  {
    hide Run, Carried, AfterFailure, RolledBack, Puts;
    var (before, inverses) := RunAll(g, commands[..k]).value;
    InvertsEach(g, commands[..k]);
    BeforeRefused(g, commands, k);
    RefusedEdgesAreLost(before, commands[k], d);
    RollbackBalances(AfterFailure(before, commands[k], d), inverses[..k - 1], e);
    assert CarriedAll(inverses) == CarriedAll(inverses[..k - 1]) + Carried(inverses[k - 1]);
  }

  lemma {:induction false} FirstMovesSettles(g: GraphState, commands: seq<Command>, k: nat)
    requires RefusedAt(g, commands, k)
    requires Moves(commands[0]) && forall j :: 0 < j < |commands| ==> Puts(commands[j])
    ensures Settles(g, Batch(commands))
    decreases |g.edges| + CarriedAll(commands), Batch(commands), 0
  {
    hide Enough, AfterFailure, RolledBack, Run, Carried, Puts, Moves, Inverts, EnoughBack;
    BeforeRefused(g, commands, k);
    var (before, inverses) := RunAll(g, commands[..k]).value;
    InvertsEach(g, commands[..k]);
    if k == 0 {
      MovesSettle(before, commands[0]);
    } else {
      PutsAndTakesAreCalm(commands[k]);
    }
    assert Settles(before, commands[k]);
    var d: nat :| Enough(before, commands[k], d);
    var left := AfterFailure(before, commands[k], d);
    if k == 0 {
      CalmBack(left, inverses);
    } else {
      InversesOfPutsAreCalm(commands[..k], inverses);
      CalmBack(left, inverses[..k - 1]);
      var e: nat :| EnoughBack(left, inverses[..k - 1], e);
      var v := RolledBack(left, inverses[..k - 1], e);
      FewerAtLast(g, commands, k, d, e);
      assert Inverts(commands[..k][0], inverses[k - 1]);
      InverseOfMoves(commands[0], inverses[k - 1]);
      MovesSettle(v, inverses[k - 1]);
      OneMoreBack(left, inverses[..k - 1], inverses[k - 1], v);
      assert inverses[..k - 1] + [inverses[k - 1]] == inverses;
    }
    RefusedSettles(g, commands, k, left);
  }

  lemma InversesOfPutsAreCalm(commands: seq<Command>, inverses: seq<Command>)
    requires |inverses| == |commands| > 0 && forall j :: 0 < j < |commands| ==> Puts(commands[j])
    requires forall j :: 0 <= j < |commands| ==> Inverts(commands[|commands| - 1 - j], inverses[j])
    ensures AllCalm(inverses[..|commands| - 1])
  {
    hide Puts, Inverts, Calm, Takes;
    var n := |commands| - 1;
    forall j | 0 <= j < n
      ensures Calm(inverses[..n][j])
    {
      InverseOfPuts(commands[n - j], inverses[j]);
      PutsAndTakesAreCalm(inverses[j]);
    }
  }

  lemma InversesOfTakesAreCalm(commands: seq<Command>, inverses: seq<Command>)
    requires |inverses| == |commands| && forall j :: 0 <= j < |commands| ==> Takes(commands[j])
    requires forall j :: 0 <= j < |commands| ==> Inverts(commands[|commands| - 1 - j], inverses[j])
    ensures AllCalm(inverses)
  {
    hide Puts, Inverts, Calm, Takes;
    forall j | 0 <= j < |commands|
      ensures Calm(inverses[j])
    {
      InverseOfTakes(commands[|commands| - 1 - j], inverses[j]);
      PutsAndTakesAreCalm(inverses[j]);
    }
  }

  lemma {:induction false} LastMovesSettles(g: GraphState, commands: seq<Command>, k: nat)
    requires RefusedAt(g, commands, k)
    requires Moves(commands[|commands| - 1]) && forall j :: 0 <= j < |commands| - 1 ==> Takes(commands[j])
    ensures Settles(g, Batch(commands))
    decreases |g.edges| + CarriedAll(commands), Batch(commands), 0
  {
    hide Enough, AfterFailure, RolledBack, Run, Carried, Takes, Moves, Inverts, EnoughBack;
    BeforeRefused(g, commands, k);
    var (before, inverses) := RunAll(g, commands[..k]).value;
    InvertsEach(g, commands[..k]);
    if k < |commands| - 1 {
      PutsAndTakesAreCalm(commands[k]);
    } else {
      MovesSettle(before, commands[k]);
    }
    assert Settles(before, commands[k]);
    var d: nat :| Enough(before, commands[k], d);
    var left := AfterFailure(before, commands[k], d);
    InversesOfTakesAreCalm(commands[..k], inverses);
    CalmBack(left, inverses);
    RefusedSettles(g, commands, k, left);
  }

  /** An edge that is refused is lost for good, so rollbacks within one another
      do not go on for ever. */
  lemma {:induction false} MovesSettle(g: GraphState, c: Command)
    requires Moves(c)
    ensures Settles(g, c)
    decreases |g.edges| + Carried(c), c, 1
  {
    hide Enough, AfterFailure, RunOne, Puts, Takes;
    if !c.Batch? {
      OneIsCalm(c);
    } else if Run(g, c).Err? {
      var k := FirstRefused(g, c.commands);
      if Moves(c.commands[0]) && forall j :: 0 < j < |c.commands| ==> Puts(c.commands[j]) {
        FirstMovesSettles(g, c.commands, k);
      } else {
        LastMovesSettles(g, c.commands, k);
      }
    }
  }

  // ----- Every command -----

  /** Batches within batches, up to `n` of them, around plain commands. */
  predicate Within(c: Command, n: nat)
    decreases n
  {
    Plain(c) || (n > 0 && c.Batch? && forall k :: 0 <= k < |c.commands| ==> Within(c.commands[k], n - 1))
  }

  lemma {:induction false} MoreWithin(c: Command, n: nat, m: nat)
    requires Within(c, n) && n <= m
    ensures Within(c, m)
  {
    hide Plain;
    if !Plain(c) {
      forall k | 0 <= k < |c.commands|
        ensures Within(c.commands[k], m - 1)
      {
        MoreWithin(c.commands[k], n - 1, m - 1);
      }
    }
  }

  lemma {:induction false} SomewhereWithin(c: Command) returns (n: nat)
    ensures Within(c, n)
    decreases c
  {
    if c.Batch? {
      var m := AllSomewhereWithin(c.commands);
      n := m + 1;
    } else {
      n := 0;
    }
  }

  lemma {:induction false} AllSomewhereWithin(commands: seq<Command>) returns (n: nat)
    ensures forall k :: 0 <= k < |commands| ==> Within(commands[k], n)
    decreases commands
  {
    hide Within;
    if commands == [] {
      n := 0;
    } else {
      var i := |commands| - 1;
      var m := AllSomewhereWithin(commands[..i]);
      var l := SomewhereWithin(commands[i]);
      n := if m < l then l else m;
      MoreWithin(commands[i], l, n);
      forall k | 0 <= k < i
        ensures Within(commands[k], n)
      {
        assert commands[..i][k] == commands[k];
        MoreWithin(commands[k], m, n);
      }
    }
  }

  lemma InverseOfPlain(c: Command, inverse: Command)
    requires Plain(c) && Inverts(c, inverse)
    ensures Plain(inverse)
  {
    hide Inverts, Puts, Takes, Moves;
    if !c.Batch? {
      InverseOfOne(c, inverse);
    } else if Puts(c) {
      InverseOfPuts(c, inverse);
    } else if Takes(c) {
      InverseOfTakes(c, inverse);
    } else {
      InverseOfMoves(c, inverse);
    }
  }

  lemma {:induction false} InverseWithin(c: Command, inverse: Command, n: nat)
    requires Within(c, n) && Inverts(c, inverse)
    ensures Within(inverse, n)
    decreases n
  {
    hide Inverts, Plain;
    if Plain(c) {
      InverseOfPlain(c, inverse);
    } else {
      InvertedBatch(c, inverse);
      forall k | 0 <= k < |inverse.commands|
        ensures Within(inverse.commands[k], n - 1)
      {
        InverseWithin(c.commands[|c.commands| - 1 - k], inverse.commands[k], n - 1);
      }
    }
  }

  lemma PlainIsCalm(c: Command)
    requires Plain(c)
    ensures Calm(c)
  {
    hide Settles, Puts, Takes, Moves;
    if !c.Batch? {
      OneIsCalm(c);
    } else if Puts(c) || Takes(c) {
      PutsAndTakesAreCalm(c);
    } else {
      forall g
        ensures Settles(g, c)
      {
        MovesSettle(g, c);
      }
    }
  }

  lemma {:induction false} WithinIsCalm(c: Command, n: nat)
    requires Within(c, n)
    ensures Calm(c)
    decreases n
  {
    hide Inverts, Plain, Calm;
    if Plain(c) {
      PlainIsCalm(c);
    } else {
      forall k | 0 <= k < |c.commands|
        ensures Calm(c.commands[k])
        ensures forall inverse :: Inverts(c.commands[k], inverse) ==> Calm(inverse)
      {
        WithinIsCalm(c.commands[k], n - 1);
        forall inverse | Inverts(c.commands[k], inverse)
          ensures Calm(inverse)
        {
          InverseWithin(c.commands[k], inverse, n - 1);
          WithinIsCalm(inverse, n - 1);
        }
      }
      BatchIsCalm(c.commands);
    }
  }

  // ----- What a refused command leaves, in the end -----

  /** The graph that a refused command leaves, with every rollback carried out. */
  ghost function Left(g: GraphState, c: Command): GraphState
    requires Run(g, c).Err?
  {
    if exists d: nat :: Enough(g, c, d) then
      var d: nat :| Enough(g, c, d);
      AfterFailure(g, c, d)
    else g
  }

  ghost predicate StaysFrom(g: GraphState, c: Command, d: nat, left: GraphState) {
    forall e: nat :: e >= d ==> AfterFailure(g, c, e) == left
  }

  /** Rolling back ends, on any graph: from some number of rollbacks within one
      another on, what is left stays the same. */
  lemma RollbackEnds(g: GraphState, c: Command)
    requires Run(g, c).Err?
    ensures exists d: nat :: Enough(g, c, d)
    ensures exists d: nat :: StaysFrom(g, c, d, Left(g, c))
  {
    hide Run, AfterFailure, Enough, Within;
    var n := SomewhereWithin(c);
    WithinIsCalm(c, n);
    assert Settles(g, c);
    var d: nat :| Enough(g, c, d) && Left(g, c) == AfterFailure(g, c, d);
    forall e: nat | e >= d
      ensures AfterFailure(g, c, e) == Left(g, c)
    {
      MoreIsEnough(g, c, d, e);
    }
    assert StaysFrom(g, c, d, Left(g, c));
  }

  /** A number of rollbacks, at least `least`, that is enough. */
  lemma DeepEnough(g: GraphState, c: Command, least: nat) returns (d: nat)
    requires Run(g, c).Err?
    ensures d >= least && Enough(g, c, d) && AfterFailure(g, c, d) == Left(g, c)
  {
    hide Run, AfterFailure, Enough;
    RollbackEnds(g, c);
    var e: nat :| StaysFrom(g, c, e, Left(g, c));
    var f: nat :| Enough(g, c, f);
    d := e + f + least;
    MoreIsEnough(g, c, f, d);
  }

  /** The graph after a command, accepted or refused. */
  ghost function Next(g: GraphState, c: Command): GraphState {
    match Run(g, c)
    case Ok((h, _)) => h
    case Err(_) => Left(g, c)
  }

  ghost function Session(g: GraphState, commands: seq<Command>): GraphState {
    if commands == [] then g else Next(Session(g, commands[..|commands| - 1]), commands[|commands| - 1])
  }

  lemma EnoughIsLeft(g: GraphState, c: Command, d: nat)
    requires Run(g, c).Err? && Enough(g, c, d)
    ensures AfterFailure(g, c, d) == Left(g, c)
  {
    hide Run, AfterFailure, Enough, Left;
    var e := DeepEnough(g, c, d);
    MoreIsEnough(g, c, d, e);
  }

  lemma {:induction false} EnoughIsSession(g: GraphState, inverses: seq<Command>, d: nat)
    requires EnoughBack(g, inverses, d)
    ensures RolledBack(g, inverses, d) == Session(g, inverses)
  {
    hide Run, AfterFailure, Enough, Left;
    if inverses != [] {
      var n := |inverses| - 1;
      EnoughIsSession(g, inverses[..n], d);
      var before := RolledBack(g, inverses[..n], d);
      if Run(before, inverses[n]).Err? {
        EnoughIsLeft(before, inverses[n], d);
      }
    }
  }

  lemma {:induction false} EnoughAtRefused(g: GraphState, commands: seq<Command>, k: nat, d: nat)
    requires RefusedAt(g, commands, k) && EnoughAll(g, commands, d)
    ensures var (before, inverses) := RunAll(g, commands[..k]).value;
            && Enough(before, commands[k], d)
            && d > 0 && EnoughBack(AfterFailure(before, commands[k], d), inverses, d - 1)
  {
    hide Run, AfterFailure, Enough, EnoughBack;
    if k + 1 < |commands| {
      var n := |commands| - 1;
      assert commands[..n][..k] == commands[..k];
      RefusedPrefix(g, commands[..n], k, d);
      EnoughAtRefused(g, commands[..n], k, d);
    }
  }

  /** A refused batch leaves what its refused command left, and the inverses of
      the commands before it applied to that, accepted or refused; any other
      refused command leaves the graph alone. */
  lemma LeftByBatch(g: GraphState, c: Command, k: nat)
    requires Run(g, c).Err?
    requires c.Batch? ==> RefusedAt(g, c.commands, k)
    ensures !c.Batch? ==> Left(g, c) == g
    ensures c.Batch? ==>
              var (before, inverses) := RunAll(g, c.commands[..k]).value;
              Left(g, c) == Session(Left(before, c.commands[k]), inverses)
  {
    hide Run, Left, RolledBack;
    var d := DeepEnough(g, c, 0);
    if c.Batch? {
      var (before, inverses) := RunAll(g, c.commands[..k]).value;
      EnoughAtRefused(g, c.commands, k, d);
      RefusedPrefix(g, c.commands, k, d);
      EnoughIsLeft(before, c.commands[k], d);
      EnoughIsSession(Left(before, c.commands[k]), inverses, d - 1);
    }
  }

  /** Atomicity: a command that is refused leaves the graph as it was, up to the
      order of nodes and edges, if every edge that it had dropped was well typed. */
  lemma RefusedIsRolledBack(g: GraphState, c: Command)
    requires Sound(g) && Admissible(g, c) && DropsTyped(g, c) && Run(g, c).Err?
    ensures SameGraph(Left(g, c), g) && Sound(Left(g, c))
  {
    hide Run, AfterFailure, Enough, Sound, SameGraph;
    var d := DeepEnough(g, c, 1);
    FailureRestores(g, c, d);
  }
}
