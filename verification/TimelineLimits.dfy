/** A script with one output too many: two of its outputs end up on one
    timeline with different times. */
module TimelineLimits {
  import opened Prelude
  import opened GraphModel
  import opened Storage
  import opened Evaluator
  import opened CacheAgreement
  import opened Timelines
  import opened TimelineReports
  import EvalOrder

  const OUTPUTS: nat := U16_RANGE + 1

  function Underscores(n: nat): (s: string)
    ensures |s| == n && forall i :: 0 <= i < n ==> s[i] == '_'
  {
    seq(n, _ => '_')
  }

  /** Outputs `o`, `o_`, `o__`, and so on. */
  function Ports(): (outputs: seq<PortField>)
    ensures |outputs| == OUTPUTS
  {
    seq(OUTPUTS, i requires 0 <= i < OUTPUTS => PortField("o" + Underscores(i), None))
  }

  /** Output `i` has one sample, at time `i`. */
  function Ticks(): (raw: seq<ScriptOutput>)
    ensures |raw| == OUTPUTS
  {
    seq(OUTPUTS, i requires 0 <= i < OUTPUTS => ScriptOutput(Some([i]), [Gap], None))
  }

  function TickScript(): ScriptSpec {
    ScriptSpec("Ticks", [], Ports(), "ticks()")
  }

  function TickBinding(id: NodeId): (b: Binding)
    ensures b.Valid()
  {
    Binding(id, Ports(), [], Ticks())
  }

  lemma TickScriptIsValid()
    ensures ValidScript(TickScript())
  {
    var names := FieldNames(Ports());
    forall i | 0 <= i < |names|
      ensures IsIdentifier(names[i])
    {
      assert names[i] == "o" + Underscores(i);
    }
    forall i, j | 0 <= i < j < |names|
      ensures names[i] != names[j]
    {
      assert |names[i]| == 1 + i && |names[j]| == 1 + j;
    }
    assert TickScript().code[0] == 't';
  }

  lemma {:induction false} NoneHasTimes(values: seq<Value>, times: seq<int>)
    requires forall i :: 0 <= i < |values| ==> !values[i].SignalValue? || values[i].signal.t != times
    ensures WithTimes(values, times).None?
  {
    if values != [] {
      NoneHasTimes(values[1..], times);
    }
  }

  lemma {:induction false} TicksBound(id: NodeId, n: nat)
    requires n <= OUTPUTS
    ensures var bound := TickBinding(id).Bound(n);
            bound.Some? && forall i :: 0 <= i < n ==> bound.value[i].SignalValue? && bound.value[i].signal.t == [i]
  {
    hide Ports, Ticks;
    if n > 0 {
      TicksBound(id, n - 1);
      assert Ticks()[n - 1] == ScriptOutput(Some([n - 1]), [Gap], None) by {
        TickAt(n - 1);
      }
      TickIsNew(id, n - 1);
    }
  }

  lemma TickAt(i: nat)
    requires i < OUTPUTS
    ensures Ticks()[i] == ScriptOutput(Some([i]), [Gap], None)
  {
  }

  lemma TickIsNew(id: NodeId, n: nat)
    requires n < OUTPUTS && TickBinding(id).Bound(n).Some?
    requires var bound := TickBinding(id).Bound(n).value;
             forall i :: 0 <= i < n ==> bound[i].SignalValue? && bound[i].signal.t == [i]
    ensures WithTimes(TickBinding(id).Bound(n).value, [n]).None?
  {
    var bound := TickBinding(id).Bound(n).value;
    forall i | 0 <= i < n
      ensures bound[i].signal.t != [n]
    {
      assert bound[i].signal.t[0] == i;
    }
    NoneHasTimes(bound, [n]);
  }

  lemma TicksCollide(id: NodeId)
    ensures TickBinding(id).Bound(OUTPUTS).Some? && !TickBinding(id).KeepsApart(OUTPUTS)
  {
    hide Ports, Ticks;
    var b := TickBinding(id);
    TicksBound(id, OUTPUTS);
    forall n | n == 0 || n == U16_RANGE
      ensures b.Brings(n)
    {
      TicksBound(id, n);
      TickIsNew(id, n);
      TickAt(n);
    }
    var i, j := 0, U16_RANGE;
    assert b.Brings(i) && b.Brings(j) && i % U16_RANGE == j % U16_RANGE;
  }

  /** A graph of that script alone. */
  function TickGraph(): GraphState {
    GraphState([Node(1, Pos(0.0, 0.0), Script(TickScript()))], [], 2)
  }

  function TickRequest(arith: Arithmetic): Request {
    var host: ScriptRequest -> Result<seq<ScriptOutput>, string> := _ => Ok(Ticks());
    Request(Env(Snapshot([], [], [], 0, None), None, Some(host), arith), TickGraph(), [1], 1)
  }

  lemma TickVisits(arith: Arithmetic)
    ensures Visits(TickRequest(arith)) == [1]
  {
    var g := TickGraph();
    var start := EvalOrder.Walk({}, []);
    assert EvalOrder.VisitAll(g, [], {} + {1}, start) == Ok(start);
    EvalOrder.VisitUnfolds(g, 1, {}, start);
    assert [1][..0] == [] && [1][..1] == [1];
  }

  lemma TickPlan(arith: Arithmetic)
    ensures Visits(TickRequest(arith)) == [1]
    ensures var p := FreshPlan(TickRequest(arith), 0); p.Go? && p.task == ScriptTask(1, TickScript(), [])
  {
    hide TickScript, ValidScript;
    TickVisits(arith);
    TickScriptIsValid();
    var g := TickGraph();
    assert [1][..0] == [];
    assert TickScript().inputs == [] by {
      NoInputs();
    }
    assert Gather(g.edges, 1, 0, map[], map[]) == Gathered([], false, [], []);
    assert FindNode(g.nodes, 1) == Some(g.nodes[0]);
  }

  lemma NoInputs()
    ensures TickScript().inputs == [] && TickScript().outputs == Ports()
  {
  }

  /** Its outputs 0 and 65536 share a timeline in the report, and not their times. */
  lemma OneOutputTooMany(arith: Arithmetic)
    ensures var r := TickRequest(arith);
            !SoundReport(Evaluate(r.env, r.graph, r.targets, r.cancelAfter, map[]).0)
  {
    hide TickScript, Ports, Ticks, Visits, SoundReport;
    var r := TickRequest(arith);
    TickPlan(arith);
    TicksCollide(1);
    NoInputs();
    assert !VisitKeepsApart(r, 0);
    ReportIsSound(r);
  }
}
