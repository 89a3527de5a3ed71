/** In which reports one timeline means one sequence of times: exactly in those
    where no script brings times for two outputs a multiple of 2^16 apart. */
module TimelineReports {
  import opened Prelude
  import opened GraphModel
  import opened Storage
  import opened Evaluator
  import opened CacheAgreement
  import opened CacheExactness
  import opened CacheWiring
  import opened Timelines
  import EvalOrder

  ghost predicate Shows(r: Report, s: Signal) {
    exists id, i :: id in r.values && 0 <= i < |r.values[id]| && r.values[id][i] == SignalValue(s)
  }

  /** Signals are sorted by time, and those of one timeline share their times. */
  ghost predicate SoundReport(r: Report) {
    && (forall s :: Shows(r, s) ==> WellFormed(s))
    && (forall s, u :: Shows(r, s) && Shows(r, u) && s.timeline == u.timeline ==> s.t == u.t)
  }

  // ----- One node -----

  ghost predicate AllValuesDated(values: map<NodeId, seq<Value>>, c: Clock) {
    forall id :: id in values ==> AllDated(values[id], c)
  }

  lemma {:induction false} GatheredAreDated(edges: seq<Edge>, id: NodeId, n: nat, values: map<NodeId, seq<Value>>,
                                            fps: map<NodeId, Fingerprint>, c: Clock)
    requires AllValuesDated(values, c)
    ensures AllDated(Gather(edges, id, n, values, fps).inputs, c)
  {
    if n > 0 {
      GatheredAreDated(edges, id, n - 1, values, fps, c);
      var from := Incoming(edges, id, n - 1);
      if from.Some? && from.value.0 in values && from.value.1 < |values[from.value.0]| && from.value.0 in fps {
        assert AllDated(values[from.value.0], c);
        assert Dated(values[from.value.0][from.value.1], c);
      }
    }
  }

  /** What a node is about to read or compute on. */
  ghost predicate TaskIsDated(env: Env, id: NodeId, task: Task, c: Clock) {
    match task
    case ReadTask(r) => FieldOf(env.snapshot, r.field).Some? && FieldOf(env.snapshot, r.field).value.topic == r.topic
    case ConstantTask(_) => true
    case ScriptTask(i, s, inputs) => i == id && AllDated(inputs, c)
    case KernelTask(_, inputs) => AllDated(inputs, c)
  }

  lemma PlannedIsDated(env: Env, g: GraphState, id: NodeId, st: State, c: Clock)
    requires DenseFields(env.snapshot) && AllValuesDated(st.report.values, c) && PlanOf(env, g, id, st).Go?
    ensures TaskIsDated(env, id, PlanOf(env, g, id, st).task, c)
  {
    var node := FindNode(g.nodes, id).value;
    if node.kind.DataField? {
      ResolvedTopic(env.snapshot, node.kind.selector);
    } else if !node.kind.Constant? {
      GatheredAreDated(g.edges, node.id, |Inputs(node.kind)|, st.report.values, st.fps, c);
    }
  }

  /** The outputs that a script task is about to put on timelines. */
  function BindingOf(env: Env, task: Task): (b: Binding)
    requires task.ScriptTask? && Compute(env, task).Ok?
    ensures b.Valid() && b.Bound(|b.raw|).Some? && Compute(env, task) == Ok((b.Bound(|b.raw|).value, []))
  {
    Binding(task.id, task.script.outputs, task.inputs, env.host.value(RequestFor(task.script, task.inputs)).value)
  }

  predicate TaskKeepsApart(env: Env, task: Task) {
    task.ScriptTask? && Compute(env, task).Ok? ==>
      BindingOf(env, task).KeepsApart(|BindingOf(env, task).raw|)
  }

  lemma ReadIsDated(env: Env, r: Resolved, done: set<NodeId>, c: Clock) returns (later: Clock)
    requires FieldOf(env.snapshot, r.field).Some? && FieldOf(env.snapshot, r.field).value.topic == r.topic
    requires Keeps(env, done, c) && ComputeRead(env, r).Ok?
    ensures Keeps(env, done, later) && Continues(c, later) && AllDated(ComputeRead(env, r).value.0, later)
  {
    FieldTimes(env, r);
    later := c[TopicTimeline(r.topic) := TopicTimes(env, r.topic).value];
  }

  lemma ComputedIsDated(env: Env, id: NodeId, task: Task, done: set<NodeId>, c: Clock) returns (later: Clock)
    requires Keeps(env, done, c) && id !in done && TaskIsDated(env, id, task, c)
    requires TaskKeepsApart(env, task) && Compute(env, task).Ok?
    ensures Keeps(env, done + {id}, later) && Continues(c, later) && AllDated(Compute(env, task).value.0, later)
  {
    later := c;
    match task
    case ReadTask(r) => later := ReadIsDated(env, r, done, c);
    case ConstantTask(_) =>
    case ScriptTask(_, _, _) =>
      var b := BindingOf(env, task);
      later := ScriptIsDated(b, |b.raw|, c);
    case KernelTask(k, inputs) => KernelIsDated(k, inputs, env.arith, c);
  }

  // ----- Evaluations that keep timelines apart -----

  /** The state of an evaluation that began with an empty cache. */
  ghost predicate DatedState(env: Env, done: set<NodeId>, st: State, c: Clock) {
    && Keeps(env, done, c) && AllValuesDated(st.report.values, c)
    && st.cache.Keys <= done
  }

  lemma PerformIsDated(env: Env, id: NodeId, fp: Fingerprint, task: Task, done: set<NodeId>, st: State, c: Clock)
    returns (later: Clock)
    requires DatedState(env, done, st, c) && id !in done && TaskIsDated(env, id, task, c) && TaskKeepsApart(env, task)
    ensures DatedState(env, done + {id}, Perform(env, id, fp, task, st), later)
  {
    hide Compute, TaskIsDated, TaskKeepsApart;
    later := c;
    assert id !in st.cache;
    if Compute(env, task).Ok? {
      later := ComputedIsDated(env, id, task, done, c);
      forall other | other in st.report.values
        ensures AllDated(st.report.values[other], later)
      {
        AllContinue(st.report.values[other], c, later);
      }
    }
  }

  lemma StepIsDated(env: Env, g: GraphState, id: NodeId, done: set<NodeId>, st: State, c: Clock) returns (later: Clock)
    requires DenseFields(env.snapshot) && DatedState(env, done, st, c) && id !in done
    requires PlanOf(env, g, id, st).Go? ==> TaskKeepsApart(env, PlanOf(env, g, id, st).task)
    ensures DatedState(env, done + {id}, Step(env, g, id, st), later)
  {
    hide PlanNode, Compute, Perform;
    later := c;
    var p := PlanOf(env, g, id, st);
    if p.Go? {
      PlannedIsDated(env, g, id, st, c);
      later := PerformIsDated(env, id, p.fp, p.task, done, st, c);
    }
  }

  ghost function Done(order: seq<NodeId>): set<NodeId> {
    set id | id in order
  }

  /** If node `k` of an evaluation from an empty cache is a script, no two of
      its outputs that bring times are a multiple of 2^16 apart. */
  predicate VisitKeepsApart(r: Request, k: nat)
    requires k < |Visits(r)|
  {
    FreshPlan(r, k).Go? ==> TaskKeepsApart(r.env, FreshPlan(r, k).task)
  }

  predicate KeepsApart(r: Request, n: nat)
    requires n <= |Visits(r)|
  {
    forall k :: 0 <= k < n ==> VisitKeepsApart(r, k)
  }

  lemma {:induction false} VisitsAreDated(r: Request, n: nat) returns (c: Clock)
    requires DenseFields(r.env.snapshot) && n <= |Visits(r)| && KeepsApart(r, n)
    ensures var order := Visits(r)[..n];
            DatedState(r.env, Done(order), Steps(r.env, r.graph, order, map[]), c)
  {
    hide Visits, Step, PlanOf, TaskKeepsApart;
    c := map[];
    if n == 0 {
      assert Visits(r)[..0] == [];
    } else {
      var order, id := Visits(r)[..n], Visits(r)[n - 1];
      var before := VisitsAreDated(r, n - 1);
      assert order[..n - 1] == Visits(r)[..n - 1];
      NotYetVisited(r, n - 1);
      assert VisitKeepsApart(r, n - 1);
      c := StepIsDated(r.env, r.graph, id, Done(order[..n - 1]), Steps(r.env, r.graph, order[..n - 1], map[]), before);
      assert order == order[..n - 1] + [id];
      assert Done(order) == Done(order[..n - 1]) + {id};
    }
  }

  lemma DatedIsSound(r: Report, c: Clock)
    requires AllValuesDated(r.values, c)
    ensures SoundReport(r)
  {
    forall s | Shows(r, s)
      ensures Dated(SignalValue(s), c)
    {
      var id, i :| id in r.values && 0 <= i < |r.values[id]| && r.values[id][i] == SignalValue(s);
      assert AllDated(r.values[id], c);
    }
  }

  // ----- Evaluations that do not -----

  lemma VisitShows(r: Request, k: nat)
    requires k < |Visits(r)| && FreshPlan(r, k).Go? && Compute(r.env, FreshPlan(r, k).task).Ok?
    ensures var st := Steps(r.env, r.graph, Visits(r), map[]);
            && Visits(r)[k] in st.report.values
            && st.report.values[Visits(r)[k]] == Compute(r.env, FreshPlan(r, k).task).value.0
  {
    hide Visits, Compute, PlanNode;
    var visits, id := Visits(r), Visits(r)[k];
    var before := Steps(r.env, r.graph, visits[..k], map[]);
    NotYetVisited(r, k);
    UnseenSaysNothing(r.env, r.graph, visits[..k], map[], id);
    assert visits[..k + 1][..k] == visits[..k];
    var (value, issues) := Compute(r.env, FreshPlan(r, k).task).value;
    SaidWithValue(before, id, FreshPlan(r, k).fp, value, issues);
    forall l | k + 1 <= l < |visits|
      ensures visits[l] != id
    {
      VisitedOnce(r, k, l);
    }
    OthersUnsaidLater(r.env, r.graph, visits, k + 1, map[], id);
  }

  lemma WrappedVisitShows(r: Request, k: nat)
    requires k < |Visits(r)| && !VisitKeepsApart(r, k)
    ensures !SoundReport(Evaluate(r.env, r.graph, r.targets, r.cancelAfter, map[]).0)
  {
    hide PlanOf, Compute, TaskKeepsApart;
    var task := FreshPlan(r, k).task;
    var i, j := WrappedOutputs(r.env, task);
    VisitShows(r, k);
    var report := Evaluate(r.env, r.graph, r.targets, r.cancelAfter, map[]).0;
    var visits := Visits(r);
    assert visits[..|visits|] == visits;
    var values := report.values[Visits(r)[k]];
    assert Shows(report, values[i].signal) && Shows(report, values[j].signal);
  }

  lemma WrappedOutputs(env: Env, task: Task) returns (i: nat, j: nat)
    requires !TaskKeepsApart(env, task)
    ensures Compute(env, task).Ok?
    ensures var values := Compute(env, task).value.0;
            && i < |values| && j < |values| && values[i].SignalValue? && values[j].SignalValue?
            && values[i].signal.timeline == values[j].signal.timeline && values[i].signal.t != values[j].signal.t
  {
    var b := BindingOf(env, task);
    i, j :| 0 <= i < j < |b.raw| && b.Brings(i) && b.Brings(j) && i % U16_RANGE == j % U16_RANGE;
    WrappedTimelines(b, i, j);
  }

  // ----- All reports -----

  /** In the report of an empty cache each timeline means one sequence of times
      exactly when every script keeps its outputs apart. */
  lemma ReportIsSound(r: Request)
    requires DenseFields(r.env.snapshot)
    ensures SoundReport(Evaluate(r.env, r.graph, r.targets, r.cancelAfter, map[]).0) <==> KeepsApart(r, |Visits(r)|)
  {
    hide SoundReport, VisitKeepsApart, Steps;
    var report := Evaluate(r.env, r.graph, r.targets, r.cancelAfter, map[]).0;
    var visits := Visits(r);
    assert visits[..|visits|] == visits;
    if KeepsApart(r, |visits|) {
      var c := VisitsAreDated(r, |visits|);
      DatedIsSound(report, if EvalOrder.Order(r.graph, r.targets).Ok? then c else map[]);
    } else {
      var k :| 0 <= k < |visits| && !VisitKeepsApart(r, k);
      WrappedVisitShows(r, k);
    }
  }

  /** So it is in every report of a run that shares a cache. */
  lemma RunIsSound(requests: seq<Request>)
    requires Consistent(requests) && forall r :: r in requests ==> DenseFields(r.env.snapshot)
    ensures |Run(requests, map[]).0| == |requests|
    ensures forall i :: 0 <= i < |requests| ==>
              (SoundReport(Run(requests, map[]).0[i]) <==> KeepsApart(requests[i], |Visits(requests[i])|))
  {
    hide Consistent, Run, SoundReport, KeepsApart, Visits, Evaluate;
    SharedCacheAgrees(requests);
    forall i | 0 <= i < |requests|
      ensures SoundReport(Run(requests, map[]).0[i]) <==> KeepsApart(requests[i], |Visits(requests[i])|)
    {
      ReportIsSound(requests[i]);
    }
  }

  predicate SmallScripts(g: GraphState) {
    forall n :: n in g.nodes && n.kind.Script? ==> |n.kind.script.outputs| <= U16_RANGE
  }

  lemma FewOutputsKeepApart(env: Env, task: Task)
    requires task.ScriptTask? ==> |task.script.outputs| <= U16_RANGE
    ensures TaskKeepsApart(env, task)
  {
    hide Compute;
    if task.ScriptTask? && Compute(env, task).Ok? {
      var b := BindingOf(env, task);
      assert |b.raw| == |task.script.outputs|;
      assert forall i, j :: 0 <= i < j < |b.raw| ==> i % U16_RANGE == i && j % U16_RANGE == j;
    }
  }

  lemma SmallTaskKeepsApart(env: Env, g: GraphState, id: NodeId, st: State)
    requires SmallScripts(g) && PlanOf(env, g, id, st).Go?
    ensures TaskKeepsApart(env, PlanOf(env, g, id, st).task)
  {
    hide Gather, Resolve, ValidScript, TaskKeepsApart, Inputs;
    var task := PlanOf(env, g, id, st).task;
    assert task.ScriptTask? ==> FindNode(g.nodes, id).value.kind == Script(task.script);
    FewOutputsKeepApart(env, task);
  }

  /** Scripts with at most 2^16 outputs always do. */
  lemma SmallScriptsKeepApart(r: Request)
    requires SmallScripts(r.graph)
    ensures KeepsApart(r, |Visits(r)|)
  {
    hide Visits, Steps, PlanOf, TaskKeepsApart;
    forall k | 0 <= k < |Visits(r)| && FreshPlan(r, k).Go?
      ensures TaskKeepsApart(r.env, FreshPlan(r, k).task)
    {
      SmallTaskKeepsApart(r.env, r.graph, Visits(r)[k], Steps(r.env, r.graph, Visits(r)[..k], map[]));
    }
  }

  // ----- What it is for -----

  /** Sorted signals as long as their times, and those that may be combined
      sample by sample are of the same instants. */
  ghost predicate SoundInputs(inputs: seq<Value>) {
    && (forall i :: 0 <= i < |inputs| && inputs[i].SignalValue? ==> WellFormed(inputs[i].signal))
    && (forall i, j :: 0 <= i < |inputs| && 0 <= j < |inputs| && inputs[i].SignalValue? && inputs[j].SignalValue? ==>
          SameTimeline(inputs[i].signal, inputs[j].signal) == None ==> inputs[i].signal.t == inputs[j].signal.t)
  }

  /** Every kernel that a run with a shared cache gets to is given such inputs. */
  lemma KernelsGetSoundInputs(requests: seq<Request>, i: nat, k: nat)
    requires Consistent(requests) && i < |requests| && k < |Visits(requests[i])|
    requires DenseFields(requests[i].env.snapshot) && KeepsApart(requests[i], k)
    ensures var r := requests[i];
            var cache := Run(requests[..i], map[]).1;
            var p := PlanOf(r.env, r.graph, Visits(r)[k], Steps(r.env, r.graph, Visits(r)[..k], cache));
            p.Go? && p.task.KernelTask? ==> SoundInputs(p.task.inputs)
  {
    hide Consistent, Run, KeepsApart, Visits, PlanNode, Steps;
    var r := requests[i];
    PlansAgree(requests, i, k);
    var p := FreshPlan(r, k);
    if p.Go? && p.task.KernelTask? {
      var c := VisitsAreDated(r, k);
      PlannedIsDated(r.env, r.graph, Visits(r)[k], Steps(r.env, r.graph, Visits(r)[..k], map[]), c);
      assert forall j :: 0 <= j < |p.task.inputs| ==> Dated(p.task.inputs[j], c);
    }
  }

  // ----- Without scripts -----

  lemma SilentKeepsApart(r: Request)
    requires ScriptsSilent(r)
    ensures KeepsApart(r, |Visits(r)|)
  {
    hide Visits, Steps, PlanOf;
    forall k | 0 <= k < |Visits(r)| && FreshPlan(r, k).Go?
      ensures TaskKeepsApart(r.env, FreshPlan(r, k).task)
    {
      KindOfPlan(r.env, r.graph, Visits(r)[k], Steps(r.env, r.graph, Visits(r)[..k], map[]));
    }
  }

  /** Without scripts, or without a host to run them, all this holds of every run,
      however nodes are rewired: reports are sound and so are the inputs of every
      kernel. */
  lemma SilentRunIsSound(requests: seq<Request>)
    requires OneWorld(requests)
    requires forall r :: r in requests ==> DenseFields(r.env.snapshot) && ScriptsSilent(r)
    ensures |Run(requests, map[]).0| == |requests|
    ensures forall i :: 0 <= i < |requests| ==> SoundReport(Run(requests, map[]).0[i])
    ensures forall i, k: nat :: 0 <= i < |requests| && k < |Visits(requests[i])| ==>
              var r, cache := requests[i], Run(requests[..i], map[]).1;
              var p := PlanOf(r.env, r.graph, Visits(r)[k], Steps(r.env, r.graph, Visits(r)[..k], cache));
              p.Go? && p.task.KernelTask? ==> SoundInputs(p.task.inputs)
  {
    hide Consistent, OneWorld, Run, SoundReport, SoundInputs, VisitKeepsApart, Visits, Steps, PlanOf, ScriptsSilent;
    SilentIsConsistent(requests);
    RunIsSound(requests);
    forall i | 0 <= i < |requests|
      ensures KeepsApart(requests[i], |Visits(requests[i])|)
    {
      SilentKeepsApart(requests[i]);
    }
    forall i, k: nat | 0 <= i < |requests| && k < |Visits(requests[i])|
      ensures var r, cache := requests[i], Run(requests[..i], map[]).1;
              var p := PlanOf(r.env, r.graph, Visits(r)[k], Steps(r.env, r.graph, Visits(r)[..k], cache));
              p.Go? && p.task.KernelTask? ==> SoundInputs(p.task.inputs)
    {
      KernelsGetSoundInputs(requests, i, k);
    }
  }
}
