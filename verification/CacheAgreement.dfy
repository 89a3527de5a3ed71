/** Evaluations that share one cache give the reports that an empty cache would,
    as long as a fingerprint does not hide where a node's value comes from. */
module CacheAgreement {
  import opened Prelude
  import opened Json
  import opened GraphModel
  import opened Storage
  import opened Evaluator
  import EvalOrder
  import Documents
  import DocumentProofs

  // ----- Wires -----

  /** Where the first `n` inputs of a node come from, all of them being wired. */
  function WiresOf(edges: seq<Edge>, id: NodeId, n: nat): (wires: seq<(NodeId, nat)>)
    ensures |wires| == n
  {
    seq(n, i requires 0 <= i < n => if Incoming(edges, id, i).Some? then Incoming(edges, id, i).value else (0, 0))
  }

  // ----- Where a value comes from -----

  /** All that a node's value depends on besides the snapshot and the host: what
      its fingerprint holds, and what it does not hold, which are the node
      itself if it is a script and the ports its inputs are read from. */
  datatype Provenance =
    Provenance(kind: Json, script: Option<NodeId>, inputs: seq<Provenance>, ports: seq<nat>,
               data: Option<DataKey>, window: Option<TimeRange>)

  const NOWHERE: Provenance := Provenance(JNull, None, [], [], None, None)

  function SourcesOf(wires: seq<(NodeId, nat)>, known: map<NodeId, Provenance>): (r: seq<Provenance>)
    ensures |r| == |wires|
  {
    seq(|wires|, i requires 0 <= i < |wires| => if wires[i].0 in known then known[wires[i].0] else NOWHERE)
  }

  function PortsOf(wires: seq<(NodeId, nat)>): (r: seq<nat>)
    ensures |r| == |wires|
  {
    seq(|wires|, i requires 0 <= i < |wires| => wires[i].1)
  }

  /** The provenance of a node as it is planned. */
  function ProvenanceOf(edges: seq<Edge>, id: NodeId, p: Plan, known: map<NodeId, Provenance>): Provenance
    requires p.Go?
  {
    var wires := WiresOf(edges, id, |p.fp.inputs|);
    Provenance(p.fp.kind, if p.task.ScriptTask? then Some(id) else None, SourcesOf(wires, known), PortsOf(wires),
               p.fp.data, p.fp.window)
  }

  // ----- What a provenance stands for -----

  /** What stays the same while a cache is in use: the snapshot of each epoch,
      the script host, and what a fingerprint at a node stands for. */
  datatype World =
    World(snapshots: nat -> Snapshot, host: Host, arith: Arithmetic, origin: (NodeId, Fingerprint) -> Provenance)

  ghost predicate IsKind(k: NodeKind, json: Json) {
    !k.Unknown? && Documents.KindJson(k) == json
  }

  /** A node kind with the given JSON. Kinds with the same JSON differ in their
      source binding alone. */
  ghost function KindOf(json: Json): (k: NodeKind)
    requires exists k :: IsKind(k, json)
    ensures IsKind(k, json)
  {
    var k :| IsKind(k, json);
    k
  }

  ghost function EnvOf(w: World, p: Provenance): Env {
    Env(w.snapshots(if p.data.Some? then p.data.value.epoch else 0), p.window, w.host, w.arith)
  }

  function ValueAt(r: Outcome, port: nat): Value {
    if r.Ok? && port < |r.value.0| then r.value.0[port] else ScalarValue(Gap)
  }

  ghost function TaskOf(w: World, p: Provenance, k: NodeKind, inputs: seq<Value>): Option<Task> {
    if k.DataField? then
      if p.data.None? then None
      else
        var d := p.data.value;
        var r := SchemaOf(w.snapshots(d.epoch), d.source, d.topic, d.field, k.selector.field);
        if r.Some? then Some(ReadTask(r.value)) else None
    else if k.Constant? then Some(ConstantTask(k.constant))
    else if k.Script? then Some(ScriptTask(if p.script.Some? then p.script.value else 0, k.script, inputs))
    else Some(KernelTask(k, inputs))
  }

  /** The outcome of the node that has this provenance. */
  ghost function Meaning(w: World, p: Provenance): Outcome
    decreases p
  {
    if !exists k :: IsKind(k, p.kind) then Err(UnknownKind)
    else
      var inputs :=
        seq(|p.inputs|, i requires 0 <= i < |p.inputs| =>
          ValueAt(Meaning(w, p.inputs[i]), if i < |p.ports| then p.ports[i] else 0));
      var task := TaskOf(w, p, KindOf(p.kind), inputs);
      if task.None? then Err(Unresolved) else Compute(EnvOf(w, p), task.value)
  }

  /** What is read at the ports of nodes of these provenances. */
  ghost function InputMeanings(w: World, inputs: seq<Provenance>, ports: seq<nat>): (r: seq<Value>)
    requires |inputs| == |ports|
    ensures |r| == |inputs|
  {
    seq(|inputs|, i requires 0 <= i < |inputs| => ValueAt(Meaning(w, inputs[i]), ports[i]))
  }

  lemma MeaningUnfolds(w: World, p: Provenance, k: NodeKind)
    requires IsKind(k, p.kind) && |p.ports| == |p.inputs|
    ensures var task := TaskOf(w, p, k, InputMeanings(w, p.inputs, p.ports));
            Meaning(w, p) == if task.None? then Err(Unresolved) else Compute(EnvOf(w, p), task.value)
  {
    var l := KindOf(p.kind);
    DocumentProofs.KindJsonTellsApart(k, l);
    var inputs :=
      seq(|p.inputs|, i requires 0 <= i < |p.inputs| =>
        ValueAt(Meaning(w, p.inputs[i]), if i < |p.ports| then p.ports[i] else 0));
    assert inputs == InputMeanings(w, p.inputs, p.ports);
    assert TaskOf(w, p, k, inputs) == TaskOf(w, p, l, inputs);
  }

  // ----- Invariants -----

  ghost predicate Fits(w: World, env: Env) {
    env.snapshot == w.snapshots(env.snapshot.epoch) && env.host == w.host && env.arith == w.arith
  }

  ghost predicate TrueEntry(w: World, id: NodeId, e: Entry) {
    Meaning(w, w.origin(id, e.fp)) == Ok((e.value, e.issues))
  }

  ghost predicate TrueCache(w: World, cache: Cache) {
    forall id :: id in cache ==> TrueEntry(w, id, cache[id])
  }

  /** A reported value is what its fingerprint stands for. */
  ghost predicate TrueValue(w: World, id: NodeId, value: seq<Value>, fp: Fingerprint) {
    Meaning(w, w.origin(id, fp)).Ok? && Meaning(w, w.origin(id, fp)).value.0 == value
  }

  ghost predicate TrueReport(w: World, values: map<NodeId, seq<Value>>, fps: map<NodeId, Fingerprint>) {
    && values.Keys == fps.Keys
    && forall id :: id in values ==> TrueValue(w, id, values[id], fps[id])
  }

  /** Fingerprints found so far stand for what is known of their nodes. */
  ghost predicate Knows(w: World, fps: map<NodeId, Fingerprint>, known: map<NodeId, Provenance>) {
    forall id :: id in fps ==> id in known && known[id] == w.origin(id, fps[id])
  }

  // ----- One node -----

  lemma {:induction false} GatheredMeanings(w: World, edges: seq<Edge>, id: NodeId, n: nat,
                                            values: map<NodeId, seq<Value>>,
                                            fps: map<NodeId, Fingerprint>, known: map<NodeId, Provenance>)
    requires TrueReport(w, values, fps) && Knows(w, fps, known) && !Gather(edges, id, n, values, fps).blocked
    ensures var r, wires := Gather(edges, id, n, values, fps), WiresOf(edges, id, n);
            |r.fps| == n && r.inputs == InputMeanings(w, SourcesOf(wires, known), PortsOf(wires))
  {
    hide Meaning, Incoming;
    if n > 0 {
      GatheredMeanings(w, edges, id, n - 1, values, fps, known);
      var wires := WiresOf(edges, id, n);
      assert wires == WiresOf(edges, id, n - 1) + [wires[n - 1]];
      var (from, port) := wires[n - 1];
      assert TrueValue(w, from, values[from], fps[from]);
    }
  }

  lemma PlannedRead(w: World, env: Env, id: NodeId, k: NodeKind)
    requires Fits(w, env) && k.DataField? && PlanRead(env, k).Go?
    ensures var p := PlanRead(env, k);
            forall o: Provenance :: (o.kind == p.fp.kind && o.inputs == [] && o.ports == [] && o.data == p.fp.data
                                     && o.window == p.fp.window) ==>
              Meaning(w, o) == Compute(env, p.task)
  {
    var p := PlanRead(env, k);
    forall o: Provenance | o.kind == p.fp.kind && o.inputs == [] && o.ports == [] && o.data == p.fp.data
                           && o.window == p.fp.window
      ensures Meaning(w, o) == Compute(env, p.task)
    {
      MeaningUnfolds(w, o, k);
      assert EnvOf(w, o) == env;
    }
  }

  lemma PlannedInputs(w: World, env: Env, id: NodeId, k: NodeKind, r: Gathered, o: Provenance)
    requires Fits(w, env) && !k.DataField? && !k.Constant? && !k.Unknown? && PlanInputs(id, k, r).Go?
    requires |o.ports| == |o.inputs| && r.inputs == InputMeanings(w, o.inputs, o.ports)
    requires o.kind == PlanInputs(id, k, r).fp.kind && o.script == if k.Script? then Some(id) else None
    ensures Meaning(w, o) == Compute(env, PlanInputs(id, k, r).task)
  {
    MeaningUnfolds(w, o, k);
    SameOutcome(env, EnvOf(w, o), PlanInputs(id, k, r).task);
  }

  /** Only reading a field depends on the snapshot and the window. */
  lemma SameOutcome(a: Env, b: Env, task: Task)
    requires a.host == b.host && a.arith == b.arith && !task.ReadTask?
    ensures Compute(a, task) == Compute(b, task)
  {
  }

  /** A node's provenance determines what computing it gives. */
  lemma PlannedMeaning(w: World, env: Env, edges: seq<Edge>, node: Node, values: map<NodeId, seq<Value>>,
                       fps: map<NodeId, Fingerprint>, known: map<NodeId, Provenance>)
    requires Fits(w, env) && TrueReport(w, values, fps) && Knows(w, fps, known)
    requires PlanNode(env, edges, node, values, fps).Go?
    ensures var p := PlanNode(env, edges, node, values, fps);
            Meaning(w, ProvenanceOf(edges, node.id, p, known)) == Compute(env, p.task)
  {
    hide Meaning, InputMeanings, SourcesOf, PortsOf, WiresOf;
    var p := PlanNode(env, edges, node, values, fps);
    var o := ProvenanceOf(edges, node.id, p, known);
    if node.kind.DataField? {
      PlannedRead(w, env, node.id, node.kind);
    } else if node.kind.Constant? {
      MeaningUnfolds(w, o, node.kind);
    } else {
      GatheredMeanings(w, edges, node.id, |Inputs(node.kind)|, values, fps, known);
      PlannedInputs(w, env, node.id, node.kind, Gather(edges, node.id, |Inputs(node.kind)|, values, fps), o);
    }
  }

  // ----- Whole evaluations -----

  ghost predicate Agree(a: State, b: State) {
    a.report == b.report && a.fps == b.fps
  }

  ghost predicate TrueState(w: World, st: State) {
    TrueReport(w, st.report.values, st.fps) && TrueCache(w, st.cache)
  }

  function Performed(id: NodeId, fp: Fingerprint, r: Outcome, st: State): State {
    match r
    case Err(issue) => Reported(st, id, [issue])
    case Ok((value, issues)) => WithValue(st, id, fp, value, issues)
  }

  lemma PerformIsTrue(w: World, env: Env, id: NodeId, fp: Fingerprint, task: Task, st: State)
    requires TrueState(w, st) && Meaning(w, w.origin(id, fp)) == Compute(env, task)
    ensures TrueState(w, Perform(env, id, fp, task, st))
    ensures Agree(Perform(env, id, fp, task, st), Performed(id, fp, Compute(env, task), st))
  {
    hide Meaning, Compute, At;
    if id in st.cache && st.cache[id].fp == fp {
      assert TrueEntry(w, id, st.cache[id]);
    }
  }

  function PlanOf(env: Env, g: GraphState, id: NodeId, st: State): Plan {
    var node := FindNode(g.nodes, id);
    if node.None? then Skip([]) else PlanNode(env, g.edges, node.value, st.report.values, st.fps)
  }

  /** What is known once the node has been planned. */
  function KnownThen(g: GraphState, id: NodeId, p: Plan, known: map<NodeId, Provenance>): map<NodeId, Provenance> {
    if p.Go? then known[id := ProvenanceOf(g.edges, id, p, known)] else known
  }

  /** The node's fingerprint stands for what it is planned as. */
  ghost predicate Suits(w: World, g: GraphState, id: NodeId, p: Plan, known: map<NodeId, Provenance>) {
    p.Go? ==> w.origin(id, p.fp) == ProvenanceOf(g.edges, id, p, known)
  }

  lemma StepAgrees(w: World, g: GraphState, env: Env, id: NodeId, a: State, b: State, known: map<NodeId, Provenance>)
    requires Fits(w, env) && Suits(w, g, id, PlanOf(env, g, id, b), known) && Knows(w, b.fps, known)
    requires TrueState(w, a) && TrueState(w, b) && Agree(a, b) && id !in b.fps
    ensures var a', b' := Step(env, g, id, a), Step(env, g, id, b);
            && Agree(a', b') && TrueState(w, a') && TrueState(w, b')
            && Knows(w, b'.fps, KnownThen(g, id, PlanOf(env, g, id, b), known))
  {
    hide Meaning, Fits, PlanNode, Perform, TrueReport, TrueCache, IsKind, WiresOf, ProvenanceOf;
    var node := FindNode(g.nodes, id);
    if node.Some? {
      var p := PlanNode(env, g.edges, node.value, b.report.values, b.fps);
      if p.Go? {
        PlannedMeaning(w, env, g.edges, node.value, b.report.values, b.fps, known);
        PerformIsTrue(w, env, id, p.fp, p.task, a);
        PerformIsTrue(w, env, id, p.fp, p.task, b);
        PerformedFps(id, p.fp, Compute(env, p.task), b);
      }
    }
  }

  lemma PerformedFps(id: NodeId, fp: Fingerprint, r: Outcome, st: State)
    ensures Performed(id, fp, r, st).fps == if r.Ok? then st.fps[id := fp] else st.fps
  {
  }

  // ----- Requests -----

  /** One evaluation: any graph, snapshot, window, targets and cancellation. */
  datatype Request = Request(env: Env, graph: GraphState, targets: seq<NodeId>, cancelAfter: nat)

  /** The nodes that an evaluation gets to, in order. */
  function Visits(r: Request): seq<NodeId> {
    match EvalOrder.Order(r.graph, r.targets)
    case Err(_) => []
    case Ok(w) => w.order[..Shorter(r.cancelAfter, |w.order|)]
  }

  lemma VisitedOnce(r: Request, k: nat, l: nat)
    requires k < l < |Visits(r)|
    ensures Visits(r)[k] != Visits(r)[l]
  {
    EvalOrder.TopologicalOrder(r.graph, r.targets);
    var order := EvalOrder.Order(r.graph, r.targets).value.order;
    EvalOrder.ListedOnceAfterInputs(r.graph, order, l);
  }

  lemma NotYetVisited(r: Request, k: nat)
    requires k < |Visits(r)|
    ensures Visits(r)[k] !in Visits(r)[..k]
  {
    if Visits(r)[k] in Visits(r)[..k] {
      var j :| 0 <= j < k && Visits(r)[j] == Visits(r)[k];
      VisitedOnce(r, j, k);
    }
  }

  /** The plan for node `k` of an evaluation from an empty cache. */
  function FreshPlan(r: Request, k: nat): Plan
    requires k < |Visits(r)|
  {
    PlanOf(r.env, r.graph, Visits(r)[k], Steps(r.env, r.graph, Visits(r)[..k], map[]))
  }

  /** What is known of the nodes once the first `n` have been planned. */
  function Known(r: Request, n: nat): map<NodeId, Provenance>
    requires n <= |Visits(r)|
  {
    if n == 0 then map[] else KnownThen(r.graph, Visits(r)[n - 1], FreshPlan(r, n - 1), Known(r, n - 1))
  }

  function FreshProvenance(r: Request, k: nat): Provenance
    requires k < |Visits(r)| && FreshPlan(r, k).Go?
  {
    ProvenanceOf(r.graph.edges, Visits(r)[k], FreshPlan(r, k), Known(r, k))
  }

  /** Every fingerprint stands for what its node is planned as, in an evaluation
      from an empty cache. */
  ghost predicate AllSuit(w: World, r: Request) {
    forall k :: 0 <= k < |Visits(r)| ==> Suits(w, r.graph, Visits(r)[k], FreshPlan(r, k), Known(r, k))
  }

  lemma {:induction false} FpsAreVisited(env: Env, g: GraphState, order: seq<NodeId>, cache: Cache, id: NodeId)
    requires id !in order
    ensures id !in Steps(env, g, order, cache).fps
  {
    hide PlanNode, Compute;
    if order != [] {
      var n := |order| - 1;
      assert order[n] != id;
      FpsAreVisited(env, g, order[..n], cache, id);
    }
  }

  lemma OneMoreStep(env: Env, g: GraphState, order: seq<NodeId>, n: nat, cache: Cache)
    requires n < |order|
    ensures Steps(env, g, order[..n + 1], cache) == Step(env, g, order[n], Steps(env, g, order[..n], cache))
  {
    hide Step;
    assert order[..n + 1][..n] == order[..n];
  }

  lemma NextAgrees(w: World, r: Request, n: nat, cache: Cache)
    requires Fits(w, r.env) && AllSuit(w, r) && n < |Visits(r)|
    requires var order := Visits(r)[..n];
             var a, b := Steps(r.env, r.graph, order, cache), Steps(r.env, r.graph, order, map[]);
             Agree(a, b) && TrueState(w, a) && TrueState(w, b) && Knows(w, b.fps, Known(r, n))
    ensures var order := Visits(r)[..n + 1];
            var a, b := Steps(r.env, r.graph, order, cache), Steps(r.env, r.graph, order, map[]);
            Agree(a, b) && TrueState(w, a) && TrueState(w, b) && Knows(w, b.fps, Known(r, n + 1))
  {
    hide Fits, Suits, TrueState, Knows, Visits, KnownThen, PlanOf, Step, Steps, Agree;
    var visits := Visits(r);
    NotYetVisited(r, n);
    FpsAreVisited(r.env, r.graph, visits[..n], map[], visits[n]);
    OneMoreStep(r.env, r.graph, visits, n, cache);
    OneMoreStep(r.env, r.graph, visits, n, map[]);
    StepAgrees(w, r.graph, r.env, visits[n], Steps(r.env, r.graph, visits[..n], cache),
               Steps(r.env, r.graph, visits[..n], map[]), Known(r, n));
  }

  lemma {:induction false} StepsAgree(w: World, r: Request, n: nat, cache: Cache)
    requires Fits(w, r.env) && AllSuit(w, r) && TrueCache(w, cache) && n <= |Visits(r)|
    ensures var order := Visits(r)[..n];
            var a, b := Steps(r.env, r.graph, order, cache), Steps(r.env, r.graph, order, map[]);
            Agree(a, b) && TrueState(w, a) && TrueState(w, b) && Knows(w, b.fps, Known(r, n))
  {
    hide Fits, AllSuit, TrueState, TrueCache, Knows, Visits, KnownThen, Step, Agree, FreshPlan;
    if n == 0 {
      assert Visits(r)[..0] == [];
      NothingDone(w, cache);
      NothingDone(w, map[]);
    } else {
      StepsAgree(w, r, n - 1, cache);
      NextAgrees(w, r, n - 1, cache);
    }
  }

  lemma NothingCached(w: World)
    ensures TrueCache(w, map[])
  {
  }

  lemma NothingDone(w: World, cache: Cache)
    ensures TrueCache(w, cache) ==> TrueState(w, State(Report(map[], []), map[], cache))
    ensures TrueCache(w, map[]) && Knows(w, map[], map[])
    ensures Agree(State(Report(map[], []), map[], cache), State(Report(map[], []), map[], map[]))
  {
  }

  /** With a true cache an evaluation reports what it would with an empty one,
      and leaves the cache true. */
  lemma EvaluationAgrees(w: World, r: Request, cache: Cache)
    requires Fits(w, r.env) && AllSuit(w, r) && TrueCache(w, cache)
    ensures var (report, after) := Evaluate(r.env, r.graph, r.targets, r.cancelAfter, cache);
            report == Evaluate(r.env, r.graph, r.targets, r.cancelAfter, map[]).0 && TrueCache(w, after)
  {
    hide Meaning, Fits, AllSuit;
    var visits := Visits(r);
    assert visits[..|visits|] == visits;
    StepsAgree(w, r, |visits|, cache);
  }

  // ----- Runs -----

  /** The reports of a run of evaluations that share a cache, and the cache. */
  function Run(requests: seq<Request>, cache: Cache): (seq<Report>, Cache) {
    if requests == [] then ([], cache)
    else
      var n := |requests| - 1;
      var (reports, shared) := Run(requests[..n], cache);
      var r := requests[n];
      var (report, after) := Evaluate(r.env, r.graph, r.targets, r.cancelAfter, shared);
      (reports + [report], after)
  }

  /** Node `id` is planned with fingerprint `fp` at its turn, and its value comes
      from `origin`. */
  predicate PlannedAt(r: Request, k: nat, id: NodeId, fp: Fingerprint, origin: Provenance) {
    && k < |Visits(r)| && Visits(r)[k] == id
    && FreshPlan(r, k).Go? && FreshPlan(r, k).fp == fp && FreshProvenance(r, k) == origin
  }

  ghost predicate Planned(requests: seq<Request>, id: NodeId, fp: Fingerprint, origin: Provenance) {
    exists r, k :: r in requests && PlannedAt(r, k, id, fp, origin)
  }

  /** An epoch names one snapshot, and the host stays the same. */
  ghost predicate OneWorld(requests: seq<Request>) {
    forall r, q :: r in requests && q in requests ==>
      && (r.env.snapshot.epoch == q.env.snapshot.epoch ==> r.env.snapshot == q.env.snapshot)
      && r.env.host == q.env.host && r.env.arith == q.env.arith
  }

  /** A node that has the same fingerprint twice has the same provenance. */
  ghost predicate Consistent(requests: seq<Request>) {
    && OneWorld(requests)
    && (forall id, fp, o, p :: Planned(requests, id, fp, o) && Planned(requests, id, fp, p) ==> o == p)
  }

  ghost function SnapshotAt(requests: seq<Request>, epoch: nat): (s: Snapshot)
    ensures forall r :: r in requests && r.env.snapshot.epoch == epoch ==>
              exists q :: q in requests && q.env.snapshot == s && s.epoch == epoch
  {
    if exists r :: r in requests && r.env.snapshot.epoch == epoch
    then var r :| r in requests && r.env.snapshot.epoch == epoch; r.env.snapshot
    else Snapshot([], [], [], epoch, None)
  }

  ghost function OriginIn(requests: seq<Request>, id: NodeId, fp: Fingerprint): (origin: Provenance)
    ensures (exists o :: Planned(requests, id, fp, o)) ==> Planned(requests, id, fp, origin)
  {
    if exists o :: Planned(requests, id, fp, o) then var o :| Planned(requests, id, fp, o); o else NOWHERE
  }

  ghost function WorldOf(requests: seq<Request>): World
    requires requests != []
  {
    World((epoch: nat) => SnapshotAt(requests, epoch), requests[0].env.host, requests[0].env.arith,
          (id: NodeId, fp: Fingerprint) => OriginIn(requests, id, fp))
  }

  lemma WorldFits(requests: seq<Request>, r: Request)
    requires Consistent(requests) && r in requests
    ensures Fits(WorldOf(requests), r.env) && AllSuit(WorldOf(requests), r)
  {
    hide PlanOf, Steps, Visits, Known, ProvenanceOf;
    var w := WorldOf(requests);
    forall k | 0 <= k < |Visits(r)| && FreshPlan(r, k).Go?
      ensures w.origin(Visits(r)[k], FreshPlan(r, k).fp) == FreshProvenance(r, k)
    {
      var id, fp := Visits(r)[k], FreshPlan(r, k).fp;
      assert PlannedAt(r, k, id, fp, FreshProvenance(r, k));
      assert Planned(requests, id, fp, FreshProvenance(r, k));
    }
  }

  /** Each report of a run that shares a cache is the one of an empty cache. */
  ghost predicate AsIfEmpty(requests: seq<Request>) {
    var reports := Run(requests, map[]).0;
    && |reports| == |requests|
    && forall i :: 0 <= i < |requests| ==>
         var r := requests[i];
         reports[i] == Evaluate(r.env, r.graph, r.targets, r.cancelAfter, map[]).0
  }

  lemma {:induction false} RunAgrees(w: World, requests: seq<Request>)
    requires forall r :: r in requests ==> Fits(w, r.env) && AllSuit(w, r)
    ensures AsIfEmpty(requests) && TrueCache(w, Run(requests, map[]).1)
  {
    hide Meaning, Fits, AllSuit, Evaluate;
    if requests == [] {
      NothingCached(w);
    } else {
      var n := |requests| - 1;
      RunAgrees(w, requests[..n]);
      EvaluationAgrees(w, requests[n], Run(requests[..n], map[]).1);
    }
  }

  /** Over every consistent run of evaluations, with any edits, epochs, windows
      and cancellations between them, each report is the one of an empty cache. */
  lemma SharedCacheAgrees(requests: seq<Request>)
    requires Consistent(requests)
    ensures AsIfEmpty(requests)
  {
    hide Consistent, Fits, AllSuit, Evaluate;
    if requests != [] {
      forall r | r in requests
        ensures Fits(WorldOf(requests), r.env) && AllSuit(WorldOf(requests), r)
      {
        WorldFits(requests, r);
      }
      RunAgrees(WorldOf(requests), requests);
    }
  }

  /** At every node's turn the plan is that of an evaluation from an empty cache. */
  lemma PlansAgree(requests: seq<Request>, i: nat, k: nat)
    requires Consistent(requests) && i < |requests| && k < |Visits(requests[i])|
    ensures var r, cache := requests[i], Run(requests[..i], map[]).1;
            PlanOf(r.env, r.graph, Visits(r)[k], Steps(r.env, r.graph, Visits(r)[..k], cache)) == FreshPlan(r, k)
  {
    hide Consistent, Fits, AllSuit, PlanNode, Run, AsIfEmpty, Knows, Known;
    var r, w := requests[i], WorldOf(requests);
    forall q | q in requests
      ensures Fits(w, q.env) && AllSuit(w, q)
    {
      WorldFits(requests, q);
    }
    RunAgrees(w, requests[..i]);
    StepsAgree(w, r, k, Run(requests[..i], map[]).1);
  }
}
