/** Which edits keep a run consistent: all of them in graphs without scripts, and
    otherwise those that leave the inputs alone that scripts feed. */
module CacheWiring {
  import opened Prelude
  import opened GraphModel
  import opened Evaluator
  import opened CacheAgreement
  import opened CacheExactness
  import DocumentProofs

  /** A script takes part in what the fingerprint is of. */
  ghost predicate HasScript(fp: Fingerprint)
    decreases fp
  {
    (exists k :: IsKind(k, fp.kind) && k.Script?) || exists i :: 0 <= i < |fp.inputs| && HasScript(fp.inputs[i])
  }

  // ----- Where a planned node's inputs are known from -----

  lemma {:induction false} GatheredFrom(edges: seq<Edge>, id: NodeId, n: nat, values: map<NodeId, seq<Value>>,
                                        fps: map<NodeId, Fingerprint>, i: nat)
    requires !Gather(edges, id, n, values, fps).blocked && i < n
    ensures var r, (from, port) := Gather(edges, id, n, values, fps), WiresOf(edges, id, n)[i];
            && |r.fps| == n && from in values && port < |values[from]| && from in fps && r.fps[i] == fps[from]
  {
    hide Incoming;
    if i < n - 1 {
      GatheredFrom(edges, id, n - 1, values, fps, i);
    }
    GatheredCount(edges, id, n - 1, values, fps);
  }

  lemma {:induction false} GatheredCount(edges: seq<Edge>, id: NodeId, n: nat, values: map<NodeId, seq<Value>>,
                                         fps: map<NodeId, Fingerprint>)
    requires !Gather(edges, id, n, values, fps).blocked
    ensures |Gather(edges, id, n, values, fps).fps| == n
  {
    hide Incoming;
    if n > 0 {
      GatheredCount(edges, id, n - 1, values, fps);
    }
  }

  /** Input `i` of a planned node comes from a value with that fingerprint. */
  lemma InputOfPlan(env: Env, g: GraphState, id: NodeId, st: State, i: nat)
    requires PlanOf(env, g, id, st).Go? && i < |PlanOf(env, g, id, st).fp.inputs|
    ensures var fp := PlanOf(env, g, id, st).fp;
            var (from, port) := WiresOf(g.edges, id, |fp.inputs|)[i];
            && from in st.report.values && port < |st.report.values[from]|
            && from in st.fps && st.fps[from] == fp.inputs[i]
  {
    hide Gather, WiresOf;
    var k := FindNode(g.nodes, id).value.kind;
    GatheredCount(g.edges, id, |Inputs(k)|, st.report.values, st.fps);
    GatheredFrom(g.edges, id, |Inputs(k)|, st.report.values, st.fps, i);
  }

  /** The plan is for the kind in the fingerprint. */
  lemma KindOfPlan(env: Env, g: GraphState, id: NodeId, st: State)
    requires PlanOf(env, g, id, st).Go?
    ensures FindNode(g.nodes, id).Some?
    ensures var p, k := PlanOf(env, g, id, st), FindNode(g.nodes, id).value.kind;
            IsKind(k, p.fp.kind) && (p.task.ScriptTask? <==> k.Script?)
  {
    hide Gather, Resolve;
  }

  /** A step that begins without an entry for its node. */
  lemma FreshStep(env: Env, g: GraphState, id: NodeId, st: State)
    requires id !in st.cache
    ensures var p, after := PlanOf(env, g, id, st), Step(env, g, id, st);
            if p.Go? && Compute(env, p.task).Ok? then
              && after.fps == st.fps[id := p.fp]
              && after.report.values == st.report.values[id := Compute(env, p.task).value.0]
            else after.fps == st.fps && after.report.values == st.report.values
  {
    hide PlanNode, Compute;
  }

  /** The visit that gave a node its fingerprint and value. */
  ghost predicate GaveFp(r: Request, n: nat, id: NodeId, j: nat)
    requires n <= |Visits(r)| && id in Steps(r.env, r.graph, Visits(r)[..n], map[]).fps
  {
    var st := Steps(r.env, r.graph, Visits(r)[..n], map[]);
    && j < n && Visits(r)[j] == id && FreshPlan(r, j).Go? && FreshPlan(r, j).fp == st.fps[id]
    && id in Known(r, n) && Known(r, n)[id] == FreshProvenance(r, j)
    && Compute(r.env, FreshPlan(r, j).task).Ok?
    && id in st.report.values && st.report.values[id] == Compute(r.env, FreshPlan(r, j).task).value.0
  }

  lemma {:induction false} VisitOf(r: Request, n: nat, id: NodeId) returns (j: nat)
    requires n <= |Visits(r)| && id in Steps(r.env, r.graph, Visits(r)[..n], map[]).fps
    ensures GaveFp(r, n, id, j)
  {
    hide Visits, Step, PlanOf, Compute, ProvenanceOf;
    var visits := Visits(r);
    assert visits[..0] == [];
    if n == 0 {
      assert false;
    } else {
      assert visits[..n][..n - 1] == visits[..n - 1];
      var before, last := Steps(r.env, r.graph, visits[..n - 1], map[]), visits[n - 1];
      NotYetVisited(r, n - 1);
      UnseenSaysNothing(r.env, r.graph, visits[..n - 1], map[], last);
      FpsAreVisited(r.env, r.graph, visits[..n - 1], map[], last);
      FreshStep(r.env, r.graph, last, before);
      if id == last {
        j := n - 1;
      } else {
        j := VisitOf(r, n - 1, id);
      }
    }
  }

  /** Where input `i` of the plan for node `k` was planned itself. */
  ghost predicate FeedsInput(r: Request, k: nat, i: nat, j: nat)
    requires k < |Visits(r)| && FreshPlan(r, k).Go? && i < |FreshPlan(r, k).fp.inputs|
  {
    var p := FreshPlan(r, k);
    var (from, port) := WiresOf(r.graph.edges, Visits(r)[k], |p.fp.inputs|)[i];
    && j < k && Visits(r)[j] == from && FreshPlan(r, j).Go? && FreshPlan(r, j).fp == p.fp.inputs[i]
    && FreshProvenance(r, k).inputs[i] == FreshProvenance(r, j)
    && Compute(r.env, FreshPlan(r, j).task).Ok? && port < |Compute(r.env, FreshPlan(r, j).task).value.0|
  }

  lemma VisitOfInput(r: Request, k: nat, i: nat) returns (j: nat)
    requires k < |Visits(r)| && FreshPlan(r, k).Go? && i < |FreshPlan(r, k).fp.inputs|
    ensures FeedsInput(r, k, i, j)
  {
    hide Visits, Steps, PlanOf, Compute, Known, WiresOf;
    var st := Steps(r.env, r.graph, Visits(r)[..k], map[]);
    InputOfPlan(r.env, r.graph, Visits(r)[k], st, i);
    var (from, port) := WiresOf(r.graph.edges, Visits(r)[k], |FreshPlan(r, k).fp.inputs|)[i];
    j := VisitOf(r, k, from);
  }

  // ----- Without scripts a fingerprint says it all -----

  function PureProvenance(fp: Fingerprint): Provenance
    decreases fp
  {
    Provenance(fp.kind, None, seq(|fp.inputs|, i requires 0 <= i < |fp.inputs| => PureProvenance(fp.inputs[i])),
               seq(|fp.inputs|, i requires 0 <= i < |fp.inputs| => 0), fp.data, fp.window)
  }

  /** Every node but a script has one output. */
  lemma OneOutput(env: Env, task: Task)
    requires !task.ScriptTask? && Compute(env, task).Ok?
    ensures |Compute(env, task).value.0| == 1
  {
  }

  lemma PlanWithoutScript(r: Request, k: nat)
    requires k < |Visits(r)| && FreshPlan(r, k).Go? && !HasScript(FreshPlan(r, k).fp)
    ensures !FreshPlan(r, k).task.ScriptTask?
  {
    KindOfPlan(r.env, r.graph, Visits(r)[k], Steps(r.env, r.graph, Visits(r)[..k], map[]));
  }

  lemma {:induction false} PureOrigin(r: Request, k: nat)
    requires k < |Visits(r)| && FreshPlan(r, k).Go? && !HasScript(FreshPlan(r, k).fp)
    ensures FreshProvenance(r, k) == PureProvenance(FreshPlan(r, k).fp)
    decreases k
  {
    hide Visits, Steps, PlanOf, Known, WiresOf, Compute;
    var fp, o := FreshPlan(r, k).fp, FreshProvenance(r, k);
    PlanWithoutScript(r, k);
    forall i | 0 <= i < |fp.inputs|
      ensures o.inputs[i] == PureProvenance(fp.inputs[i]) && o.ports[i] == 0
    {
      var j := VisitOfInput(r, k, i);
      assert !HasScript(fp.inputs[i]);
      PureOrigin(r, j);
      PlanWithoutScript(r, j);
      OneOutput(r.env, FreshPlan(r, j).task);
    }
    assert o.inputs == PureProvenance(fp).inputs && o.ports == PureProvenance(fp).ports;
  }

  // ----- Wired alike -----

  /** The same node is planned twice with the same fingerprint. */
  predicate SameFp(r: Request, k: nat, q: Request, l: nat) {
    && k < |Visits(r)| && l < |Visits(q)| && Visits(r)[k] == Visits(q)[l]
    && FreshPlan(r, k).Go? && FreshPlan(q, l).Go? && FreshPlan(r, k).fp == FreshPlan(q, l).fp
  }

  /** Such a node reads the inputs in which scripts take part from the same ports
      of the same nodes. Where it reads the others from does not matter. */
  ghost predicate WiredAlike(requests: seq<Request>) {
    forall r, k: nat, q, l: nat :: r in requests && q in requests && SameFp(r, k, q, l) ==>
      var id, inputs := Visits(r)[k], FreshPlan(r, k).fp.inputs;
      forall i :: 0 <= i < |inputs| && HasScript(inputs[i]) ==>
        WiresOf(r.graph.edges, id, |inputs|)[i] == WiresOf(q.graph.edges, id, |inputs|)[i]
  }

  lemma ScriptOrNot(r: Request, k: nat, q: Request, l: nat)
    requires SameFp(r, k, q, l)
    ensures FreshPlan(r, k).task.ScriptTask? == FreshPlan(q, l).task.ScriptTask?
  {
    hide Visits, Steps, PlanOf;
    KindOfPlan(r.env, r.graph, Visits(r)[k], Steps(r.env, r.graph, Visits(r)[..k], map[]));
    KindOfPlan(q.env, q.graph, Visits(q)[l], Steps(q.env, q.graph, Visits(q)[..l], map[]));
    DocumentProofs.KindJsonTellsApart(FindNode(r.graph.nodes, Visits(r)[k]).value.kind,
                                      FindNode(q.graph.nodes, Visits(q)[l]).value.kind);
  }

  lemma {:induction false} SameOrigin(requests: seq<Request>, r: Request, k: nat, q: Request, l: nat)
    requires WiredAlike(requests) && r in requests && q in requests && SameFp(r, k, q, l)
    ensures FreshProvenance(r, k) == FreshProvenance(q, l)
    decreases k, 1
  {
    hide Visits, Steps, PlanOf, Known, WiresOf, Compute, HasScript;
    var fp, o, p := FreshPlan(r, k).fp, FreshProvenance(r, k), FreshProvenance(q, l);
    ScriptOrNot(r, k, q, l);
    forall i | 0 <= i < |fp.inputs|
      ensures o.inputs[i] == p.inputs[i] && o.ports[i] == p.ports[i]
    {
      SameInput(requests, r, k, q, l, i);
    }
    assert o.inputs == p.inputs && o.ports == p.ports;
  }

  lemma {:induction false} SameInput(requests: seq<Request>, r: Request, k: nat, q: Request, l: nat, i: nat)
    requires WiredAlike(requests) && r in requests && q in requests && SameFp(r, k, q, l)
    requires i < |FreshPlan(r, k).fp.inputs|
    ensures FreshProvenance(r, k).inputs[i] == FreshProvenance(q, l).inputs[i]
    ensures FreshProvenance(r, k).ports[i] == FreshProvenance(q, l).ports[i]
    decreases k, 0
  {
    hide Visits, Steps, PlanOf, Known, WiresOf, Compute, HasScript;
    var fp := FreshPlan(r, k).fp;
    var a := VisitOfInput(r, k, i);
    var b := VisitOfInput(q, l, i);
    if HasScript(fp.inputs[i]) {
      SameOrigin(requests, r, a, q, b);
    } else {
      PureOrigin(r, a);
      PureOrigin(q, b);
      PlanWithoutScript(r, a);
      PlanWithoutScript(q, b);
      OneOutput(r.env, FreshPlan(r, a).task);
      OneOutput(q.env, FreshPlan(q, b).task);
    }
  }

  /** Runs that are wired alike are consistent. */
  lemma WiredAlikeIsConsistent(requests: seq<Request>)
    requires OneWorld(requests) && WiredAlike(requests)
    ensures Consistent(requests)
  {
    hide Visits, PlanOf, Known, WiredAlike, ProvenanceOf;
    forall id, fp, o, p | Planned(requests, id, fp, o) && Planned(requests, id, fp, p)
      ensures o == p
    {
      var r, k :| r in requests && PlannedAt(r, k, id, fp, o);
      var q, l :| q in requests && PlannedAt(q, l, id, fp, p);
      SameOrigin(requests, r, k, q, l);
    }
  }

  /** Nodes that both graphs have are wired the same. */
  ghost predicate SameWires(g: GraphState, h: GraphState) {
    forall id, port: nat :: FindNode(g.nodes, id).Some? && FindNode(h.nodes, id).Some? ==>
      Incoming(g.edges, id, port) == Incoming(h.edges, id, port)
  }

  /** Nodes may be added, removed, moved and changed, and windows, epochs and
      targets too: as long as no node is wired to another port, the run is
      consistent. */
  lemma SameWiresAreConsistent(requests: seq<Request>)
    requires OneWorld(requests) && forall r, q :: r in requests && q in requests ==> SameWires(r.graph, q.graph)
    ensures Consistent(requests)
  {
    hide Steps, Visits, Incoming, HasScript;
    forall r, k: nat, q, l: nat, i: nat |
        r in requests && q in requests && SameFp(r, k, q, l) && i < |FreshPlan(r, k).fp.inputs|
      ensures var id, n := Visits(r)[k], |FreshPlan(r, k).fp.inputs|;
              WiresOf(r.graph.edges, id, n)[i] == WiresOf(q.graph.edges, id, n)[i]
    {
      assert SameWires(r.graph, q.graph);
    }
    WiredAlikeIsConsistent(requests);
  }

  // ----- No scripts -----

  predicate NoScripts(g: GraphState) {
    forall n :: n in g.nodes ==> !n.kind.Script?
  }

  /** No script node gets a value: there is none, or no host to run it. */
  predicate ScriptsSilent(r: Request) {
    r.env.host.None? || NoScripts(r.graph)
  }

  lemma {:induction false} SilentFps(r: Request, k: nat)
    requires ScriptsSilent(r) && k < |Visits(r)| && FreshPlan(r, k).Go?
    ensures forall i :: 0 <= i < |FreshPlan(r, k).fp.inputs| ==> !HasScript(FreshPlan(r, k).fp.inputs[i])
    ensures Compute(r.env, FreshPlan(r, k).task).Ok? ==> !HasScript(FreshPlan(r, k).fp)
    decreases k
  {
    hide Visits, Steps, PlanOf, Known, WiresOf;
    var fp := FreshPlan(r, k).fp;
    forall i | 0 <= i < |fp.inputs|
      ensures !HasScript(fp.inputs[i])
    {
      var j := VisitOfInput(r, k, i);
      SilentFps(r, j);
    }
    KindOfPlan(r.env, r.graph, Visits(r)[k], Steps(r.env, r.graph, Visits(r)[..k], map[]));
    var kind := FindNode(r.graph.nodes, Visits(r)[k]).value.kind;
    if Compute(r.env, FreshPlan(r, k).task).Ok? {
      forall l | IsKind(l, fp.kind)
        ensures !l.Script?
      {
        DocumentProofs.KindJsonTellsApart(kind, l);
      }
    }
  }

  lemma SilentIsConsistent(requests: seq<Request>)
    requires OneWorld(requests) && forall r :: r in requests ==> ScriptsSilent(r)
    ensures Consistent(requests)
  {
    hide Visits, Steps, PlanOf, WiresOf, HasScript, ScriptsSilent;
    forall r, k: nat | r in requests && k < |Visits(r)| && FreshPlan(r, k).Go?
      ensures forall i :: 0 <= i < |FreshPlan(r, k).fp.inputs| ==> !HasScript(FreshPlan(r, k).fp.inputs[i])
    {
      SilentFps(r, k);
    }
    WiredAlikeIsConsistent(requests);
  }

  /** Without scripts, or without a host to run them, a shared cache is right over
      every run, however nodes are rewired. */
  lemma SilentCacheAgrees(requests: seq<Request>)
    requires OneWorld(requests) && forall r :: r in requests ==> ScriptsSilent(r)
    ensures AsIfEmpty(requests)
  {
    SilentIsConsistent(requests);
    SharedCacheAgrees(requests);
  }
}
