/** Where a shared cache gives a stale report: a fingerprint holds neither the
    output port that an input is read from nor the node it comes from. */
module CacheLimits {
  import opened Prelude
  import opened GraphModel
  import opened Storage
  import opened Evaluator
  import CacheAgreement
  import DocumentProofs
  import Documents
  import EvalOrder
  import TimelineReports
  import Timelines

  /** Two nodes hold one script without inputs, and a third reads port `port`
      of one of them. */
  datatype Wiring = Wiring(script: ScriptSpec, a: NodeId, b: NodeId, reader: NodeId)

  predicate ValidWiring(w: Wiring) {
    && ValidScript(w.script) && w.script.inputs == []
    && w.a != w.b && w.a != w.reader && w.b != w.reader
  }

  const IDENTITY: NodeKind := ScaleOffset(Val(1.0), Val(0.0))

  function Wired(w: Wiring, from: NodeId, port: nat, nextId: nat): GraphState {
    var at := Pos(0.0, 0.0);
    GraphState([Node(w.a, at, Script(w.script)), Node(w.b, at, Script(w.script)), Node(w.reader, at, IDENTITY)],
               [Edge(from, port, w.reader, 0)], nextId)
  }

  function ScriptFp(w: Wiring): Fingerprint {
    Fingerprint(Documents.KindJson(Script(w.script)), [], None, None)
  }

  function ReaderFp(w: Wiring): Fingerprint {
    Fingerprint(Documents.KindJson(IDENTITY), [ScriptFp(w)], None, None)
  }

  function Answer(env: Env, w: Wiring): Result<seq<ScriptOutput>, string>
    requires env.host.Some?
  {
    env.host.value(RequestFor(w.script, []))
  }

  /** The values the script gives at node `id`, when it runs well. */
  function ScriptValues(env: Env, w: Wiring, id: NodeId): Option<seq<Value>> {
    if env.host.None? || Answer(env, w).Err? || |Answer(env, w).value| != |w.script.outputs| then None
    else BoundOutputs(id, w.script.outputs, [], Answer(env, w).value, |w.script.outputs|)
  }

  /** What the reader makes of its input. */
  function Read(env: Env, v: Value): Value {
    if v.ScalarValue? then v
    else SignalValue(v.signal.(v := MapNums(v.signal.v, (x: Num) => env.arith.scale(x, Val(1.0), Val(0.0)))))
  }

  lemma FoundWired(w: Wiring, from: NodeId, port: nat, nextId: nat)
    requires ValidWiring(w) && from in {w.a, w.b}
    ensures var g := Wired(w, from, port, nextId);
            && FindNode(g.nodes, from) == Some(Node(from, Pos(0.0, 0.0), Script(w.script)))
            && FindNode(g.nodes, w.reader) == Some(Node(w.reader, Pos(0.0, 0.0), IDENTITY))
            && Incoming(g.edges, w.reader, 0) == Some((from, port))
  {
    var nodes := Wired(w, from, port, nextId).nodes;
    assert nodes[1..] == [nodes[1], nodes[2]] && [nodes[1], nodes[2]][1..] == [nodes[2]];
    assert FindNode([nodes[2]], w.reader) == Some(nodes[2]);
    assert FindNode([nodes[1], nodes[2]], w.reader) == Some(nodes[2]);
  }

  lemma EdgesOfWired(w: Wiring, from: NodeId, port: nat)
    requires ValidWiring(w) && from in {w.a, w.b}
    ensures EvalOrder.IncomingByPort([Edge(from, port, w.reader, 0)], w.reader) == [Edge(from, port, w.reader, 0)]
    ensures EvalOrder.IncomingByPort([Edge(from, port, w.reader, 0)], from) == []
  {
    assert [Edge(from, port, w.reader, 0)][..0] == [];
  }

  lemma OrderOfWired(w: Wiring, from: NodeId, port: nat, nextId: nat)
    requires ValidWiring(w) && from in {w.a, w.b}
    ensures EvalOrder.Order(Wired(w, from, port, nextId), [w.reader]).Ok?
    ensures EvalOrder.Order(Wired(w, from, port, nextId), [w.reader]).value.order == [from, w.reader]
  {
    var g := Wired(w, from, port, nextId);
    var e := Edge(from, port, w.reader, 0);
    FoundWired(w, from, port, nextId);
    EdgesOfWired(w, from, port);
    var start := EvalOrder.Walk({}, []);
    assert EvalOrder.VisitAll(g, [], {w.reader} + {from}, start) == Ok(start);
    assert EvalOrder.Visit(g, from, {w.reader}, start) == Ok(EvalOrder.Walk({} + {from}, [] + [from]));
    assert [e][..0] == [];
    assert EvalOrder.VisitAll(g, [e], {w.reader}, start) == Ok(EvalOrder.Walk({} + {from}, [] + [from]));
    EvalOrder.VisitUnfolds(g, w.reader, {}, start);
    assert {} + {w.reader} == {w.reader} && g.edges == [e];
    assert EvalOrder.Visit(g, w.reader, {}, start).value.order == [from] + [w.reader];
    assert [w.reader][..0] == [];
  }

  /** The state after the script node. */
  function ScriptState(env: Env, w: Wiring, from: NodeId, cache: Cache): State
    requires ScriptValues(env, w, from).Some?
  {
    var v := ScriptValues(env, w, from).value;
    State(Report(map[from := v], []), map[from := ScriptFp(w)],
          if from in cache && cache[from].fp == ScriptFp(w) then cache else cache[from := Entry(ScriptFp(w), v, [])])
  }

  lemma ScriptPlan(env: Env, w: Wiring, from: NodeId, edges: seq<Edge>, values: map<NodeId, seq<Value>>,
                   fps: map<NodeId, Fingerprint>)
    requires ValidWiring(w)
    ensures PlanNode(env, edges, Node(from, Pos(0.0, 0.0), Script(w.script)), values, fps)
         == Go(ScriptFp(w), ScriptTask(from, w.script, []))
  {
    assert Gather(edges, from, 0, values, fps) == Gathered([], false, [], []);
    assert |Inputs(Script(w.script))| == 0;
  }

  lemma ScriptStep(env: Env, w: Wiring, from: NodeId, port: nat, nextId: nat, cache: Cache)
    requires ValidWiring(w) && from in {w.a, w.b} && ScriptValues(env, w, from).Some?
    requires KnowsScript(env, w, from, cache)
    ensures Step(env, Wired(w, from, port, nextId), from, State(Report(map[], []), map[], cache))
         == ScriptState(env, w, from, cache)
  {
    hide ValidScript, PlanNode;
    FoundWired(w, from, port, nextId);
    ScriptPlan(env, w, from, Wired(w, from, port, nextId).edges, map[], map[]);
    assert At(from, []) == [];
    assert Compute(env, ScriptTask(from, w.script, [])) == Ok((ScriptValues(env, w, from).value, []));
  }

  lemma ReaderPlan(env: Env, w: Wiring, from: NodeId, port: nat, nextId: nat, cache: Cache)
    requires ValidWiring(w) && from in {w.a, w.b} && ScriptValues(env, w, from).Some?
    requires port < |w.script.outputs|
    ensures FindNode(Wired(w, from, port, nextId).nodes, w.reader).Some?
    ensures var g, st := Wired(w, from, port, nextId), ScriptState(env, w, from, cache);
            PlanNode(env, g.edges, FindNode(g.nodes, w.reader).value, st.report.values, st.fps)
            == Go(ReaderFp(w), KernelTask(IDENTITY, [ScriptValues(env, w, from).value[port]]))
  {
    var g, st := Wired(w, from, port, nextId), ScriptState(env, w, from, cache);
    FoundWired(w, from, port, nextId);
    var r := Gather(g.edges, w.reader, 1, st.report.values, st.fps);
    assert Gather(g.edges, w.reader, 0, st.report.values, st.fps) == Gathered([], false, [], []);
    assert r.inputs == [ScriptValues(env, w, from).value[port]] && r.fps == [ScriptFp(w)];
  }

  lemma OutputsAreSignals(id: NodeId, outputs: seq<PortField>, raw: seq<ScriptOutput>, n: nat)
    requires |raw| == |outputs| && n <= |outputs| && BoundOutputs(id, outputs, [], raw, n).Some?
    ensures forall i :: 0 <= i < n ==> BoundOutputs(id, outputs, [], raw, n).value[i].SignalValue?
  {
  }

  /** A cache that holds nothing else under the script's fingerprint at `from`. */
  predicate KnowsScript(env: Env, w: Wiring, from: NodeId, cache: Cache)
    requires ScriptValues(env, w, from).Some?
  {
    from in cache && cache[from].fp == ScriptFp(w) ==>
      cache[from] == Entry(ScriptFp(w), ScriptValues(env, w, from).value, [])
  }

  lemma WiredSteps(env: Env, w: Wiring, from: NodeId, port: nat, nextId: nat, cache: Cache)
    requires ValidWiring(w) && from in {w.a, w.b} && ScriptValues(env, w, from).Some?
    requires KnowsScript(env, w, from, cache)
    requires port < |w.script.outputs|
    ensures Steps(env, Wired(w, from, port, nextId), [from, w.reader], cache)
         == Perform(env, w.reader, ReaderFp(w), KernelTask(IDENTITY, [ScriptValues(env, w, from).value[port]]),
                    ScriptState(env, w, from, cache))
  {
    hide Wired, ScriptState, ReaderFp, ScriptFp, PlanNode, Perform, KnowsScript;
    var g := Wired(w, from, port, nextId);
    assert [from, w.reader][..1] == [from] && [from][..0] == [];
    ScriptStep(env, w, from, port, nextId, cache);
    assert Steps(env, g, [from], cache) == ScriptState(env, w, from, cache);
    ReaderPlan(env, w, from, port, nextId, cache);
    FoundWired(w, from, port, nextId);
  }

  lemma ReaderComputes(env: Env, w: Wiring, from: NodeId, port: nat)
    requires ScriptValues(env, w, from).Some? && port < |w.script.outputs|
    ensures var v := ScriptValues(env, w, from).value[port];
            Compute(env, KernelTask(IDENTITY, [v])) == Ok(([Read(env, v)], []))
  {
    OutputsAreSignals(from, w.script.outputs, Answer(env, w).value, |w.script.outputs|);
  }

  /** The reader's cache entry after it has read `port` of `from`. */
  function ReaderEntry(env: Env, w: Wiring, from: NodeId, port: nat, cache: Cache): Entry
    requires ScriptValues(env, w, from).Some? && port < |w.script.outputs|
  {
    if w.reader in cache && cache[w.reader].fp == ReaderFp(w) then cache[w.reader]
    else Entry(ReaderFp(w), [Read(env, ScriptValues(env, w, from).value[port])], [])
  }

  /** The cache once the script and the reader are done. */
  function FinalCache(env: Env, w: Wiring, from: NodeId, port: nat, cache: Cache): Cache
    requires ScriptValues(env, w, from).Some? && port < |w.script.outputs|
  {
    ScriptState(env, w, from, cache).cache[w.reader := ReaderEntry(env, w, from, port, cache)]
  }

  lemma ReaderPerforms(env: Env, w: Wiring, from: NodeId, port: nat, cache: Cache)
    requires ValidWiring(w) && from in {w.a, w.b} && ScriptValues(env, w, from).Some?
    requires port < |w.script.outputs|
    ensures var st := Perform(env, w.reader, ReaderFp(w),
                              KernelTask(IDENTITY, [ScriptValues(env, w, from).value[port]]),
                              ScriptState(env, w, from, cache));
            var entry := ReaderEntry(env, w, from, port, cache);
            && st.report.values == map[from := ScriptValues(env, w, from).value][w.reader := entry.value]
            && st.report.issues == At(w.reader, entry.issues)
            && st.cache == FinalCache(env, w, from, port, cache)
  {
    ReaderComputes(env, w, from, port);
    var entry := ReaderEntry(env, w, from, port, cache);
    assert [] + At(w.reader, entry.issues) == At(w.reader, entry.issues);
  }

  lemma ReaderShows(env: Env, w: Wiring, from: NodeId, port: nat, nextId: nat, cache: Cache, cancelAfter: nat)
    requires ValidWiring(w) && from in {w.a, w.b} && ScriptValues(env, w, from).Some?
    requires KnowsScript(env, w, from, cache)
    requires port < |w.script.outputs| && cancelAfter >= 2
    ensures var (report, after) := Evaluate(env, Wired(w, from, port, nextId), [w.reader], cancelAfter, cache);
            var entry := ReaderEntry(env, w, from, port, cache);
            && report.values == map[from := ScriptValues(env, w, from).value][w.reader := entry.value]
            && report.issues == At(w.reader, entry.issues)
            && after == FinalCache(env, w, from, port, cache)
  {
    OrderOfWired(w, from, port, nextId);
    var order := [from, w.reader];
    assert order[..Shorter(cancelAfter, 2)] == order;
    WiredSteps(env, w, from, port, nextId, cache);
    ReaderPerforms(env, w, from, port, cache);
  }

  /** After moving the reader's edge, the shared cache still shows what the
      first place gave: the report is right exactly when both places give the
      same. */
  lemma RewiredReader(env: Env, w: Wiring, from: NodeId, port: nat, to: NodeId, toPort: nat, nextId: nat,
                      cancelAfter: nat)
    requires ValidWiring(w) && {from, to} <= {w.a, w.b} && cancelAfter >= 2
    requires ScriptValues(env, w, from).Some? && ScriptValues(env, w, to).Some?
    requires port < |w.script.outputs| && toPort < |w.script.outputs|
    ensures var shared := Evaluate(env, Wired(w, from, port, nextId), [w.reader], cancelAfter, map[]).1;
            var g := Wired(w, to, toPort, nextId);
            Evaluate(env, g, [w.reader], cancelAfter, shared).0 == Evaluate(env, g, [w.reader], cancelAfter, map[]).0
            <==> Read(env, ScriptValues(env, w, from).value[port]) == Read(env, ScriptValues(env, w, to).value[toPort])
  {
    ReaderShows(env, w, from, port, nextId, map[], cancelAfter);
    var shared := Evaluate(env, Wired(w, from, port, nextId), [w.reader], cancelAfter, map[]).1;
    ReaderShows(env, w, to, toPort, nextId, shared, cancelAfter);
    ReaderShows(env, w, to, toPort, nextId, map[], cancelAfter);
    SameReports(map[to := ScriptValues(env, w, to).value], w.reader,
                Read(env, ScriptValues(env, w, from).value[port]), Read(env, ScriptValues(env, w, to).value[toPort]));
  }

  lemma SameReports(values: map<NodeId, seq<Value>>, id: NodeId, a: Value, b: Value)
    ensures Report(values[id := [a]], At(id, [])) == Report(values[id := [b]], At(id, [])) <==> a == b
  {
    assert values[id := [a]][id] == [a] && values[id := [b]][id] == [b];
  }

  lemma {:induction false} BoundOutput(id: NodeId, outputs: seq<PortField>, raw: seq<ScriptOutput>, n: nat, i: nat)
    requires |raw| == |outputs| && i < n <= |outputs| && BoundOutputs(id, outputs, [], raw, n).Some?
    ensures BoundOutputs(id, outputs, [], raw, i).Some?
    ensures var v := BoundOutputs(id, outputs, [], raw, n).value[i];
            && v.SignalValue? && v.signal.v == raw[i].values
            && OutputTimes(id, [], BoundOutputs(id, outputs, [], raw, i).value, raw[i])
                 == Some((v.signal.timeline, v.signal.t))
  {
    if i < n - 1 {
      BoundOutput(id, outputs, raw, n - 1, i);
    }
  }

  /** Reading another output of the same script: stale whenever the two outputs
      have different times. */
  lemma StaleAfterPortChange(env: Env, w: Wiring, p: nat, q: nat, nextId: nat, cancelAfter: nat)
    requires ValidWiring(w) && cancelAfter >= 2 && p < |w.script.outputs| && q < |w.script.outputs|
    requires ScriptValues(env, w, w.a).Some? && Answer(env, w).value[p].times != Answer(env, w).value[q].times
    ensures var shared := Evaluate(env, Wired(w, w.a, p, nextId), [w.reader], cancelAfter, map[]).1;
            var g := Wired(w, w.a, q, nextId);
            Evaluate(env, g, [w.reader], cancelAfter, shared).0 != Evaluate(env, g, [w.reader], cancelAfter, map[]).0
  {
    hide Evaluate, Wired, ValidScript;
    RewiredReader(env, w, w.a, p, w.a, q, nextId, cancelAfter);
    var raw := Answer(env, w).value;
    BoundOutput(w.a, w.script.outputs, raw, |raw|, p);
    BoundOutput(w.a, w.script.outputs, raw, |raw|, q);
    var v := ScriptValues(env, w, w.a).value;
    assert Read(env, v[p]).signal.t == v[p].signal.t && Read(env, v[q]).signal.t == v[q].signal.t;
  }

  /** Reading the same output of another node with the same script: always stale. */
  lemma StaleAfterNodeChange(env: Env, w: Wiring, nextId: nat, cancelAfter: nat)
    requires ValidWiring(w) && cancelAfter >= 2
    requires ScriptValues(env, w, w.a).Some? && ScriptValues(env, w, w.b).Some?
    ensures var shared := Evaluate(env, Wired(w, w.a, 0, nextId), [w.reader], cancelAfter, map[]).1;
            var g := Wired(w, w.b, 0, nextId);
            Evaluate(env, g, [w.reader], cancelAfter, shared).0 != Evaluate(env, g, [w.reader], cancelAfter, map[]).0
  {
    hide Evaluate, Wired;
    RewiredReader(env, w, w.a, 0, w.b, 0, nextId, cancelAfter);
    var raw := Answer(env, w).value;
    BoundOutput(w.a, w.script.outputs, raw, |raw|, 0);
    BoundOutput(w.b, w.script.outputs, raw, |raw|, 0);
    var a, b := ScriptValues(env, w, w.a).value, ScriptValues(env, w, w.b).value;
    assert Read(env, a[0]).signal.timeline == OutputTimeline(w.a, 0);
    assert Read(env, b[0]).signal.timeline == OutputTimeline(w.b, 0);
  }

  // ----- A stale timeline -----

  /** The reader has moved to `b`, and `a` has been given another script. */
  function Swapped(w: Wiring, other: ScriptSpec, nextId: nat): GraphState {
    var at := Pos(0.0, 0.0);
    GraphState([Node(w.a, at, Script(other)), Node(w.b, at, Script(w.script)), Node(w.reader, at, IDENTITY)],
               [Edge(w.b, 0, w.reader, 0)], nextId)
  }

  function WithScript(w: Wiring, other: ScriptSpec): Wiring {
    w.(script := other)
  }

  lemma FoundSwapped(w: Wiring, other: ScriptSpec, nextId: nat)
    requires ValidWiring(w)
    ensures var nodes := Swapped(w, other, nextId).nodes;
            && FindNode(nodes, w.a) == Some(nodes[0]) && FindNode(nodes, w.b) == Some(nodes[1])
            && FindNode(nodes, w.reader) == Some(nodes[2])
    ensures Incoming(Swapped(w, other, nextId).edges, w.reader, 0) == Some((w.b, 0))
  {
    var nodes := Swapped(w, other, nextId).nodes;
    assert nodes[1..] == [nodes[1], nodes[2]] && [nodes[1], nodes[2]][1..] == [nodes[2]];
    assert FindNode([nodes[2]], w.reader) == Some(nodes[2]);
    assert FindNode([nodes[1], nodes[2]], w.reader) == Some(nodes[2]);
  }

  lemma OrderOfSwapped(w: Wiring, other: ScriptSpec, nextId: nat)
    requires ValidWiring(w)
    ensures EvalOrder.Order(Swapped(w, other, nextId), [w.reader, w.a]).Ok?
    ensures EvalOrder.Order(Swapped(w, other, nextId), [w.reader, w.a]).value.order == [w.b, w.reader, w.a]
  {
    var g, e := Swapped(w, other, nextId), Edge(w.b, 0, w.reader, 0);
    FoundSwapped(w, other, nextId);
    EdgesOfWired(w, w.b, 0);
    assert [e][..0] == [] && EvalOrder.IncomingByPort([e], w.a) == [];
    var start := EvalOrder.Walk({}, []);
    EvalOrder.VisitUnfolds(g, w.b, {w.reader}, start);
    assert EvalOrder.VisitAll(g, [], {w.reader} + {w.b}, start) == Ok(start);
    var one := EvalOrder.Walk({} + {w.b}, [] + [w.b]);
    assert EvalOrder.VisitAll(g, [e], {w.reader}, start) == Ok(one);
    EvalOrder.VisitUnfolds(g, w.reader, {}, start);
    assert {} + {w.reader} == {w.reader} && g.edges == [e];
    var two := EvalOrder.Walk(one.visited + {w.reader}, one.order + [w.reader]);
    assert EvalOrder.Visit(g, w.reader, {}, start) == Ok(two);
    assert [w.reader][..0] == [] && [w.reader, w.a][..1] == [w.reader];
    assert EvalOrder.Order(g, [w.reader]) == Ok(two);
    EvalOrder.VisitUnfolds(g, w.a, {}, two);
    assert EvalOrder.VisitAll(g, [], {} + {w.a}, two) == Ok(two);
    assert two.order + [w.a] == [w.b, w.reader, w.a];
  }

  /** A script node that the cache has nothing for is computed. */
  lemma ComputedScript(env: Env, g: GraphState, w: Wiring, id: NodeId, st: State)
    requires ValidWiring(w) && FindNode(g.nodes, id) == Some(Node(id, Pos(0.0, 0.0), Script(w.script)))
    requires ScriptValues(env, w, id).Some? && (id in st.cache ==> st.cache[id].fp != ScriptFp(w))
    ensures var after, v := Step(env, g, id, st), ScriptValues(env, w, id).value;
            && after.report.values == st.report.values[id := v] && after.fps == st.fps[id := ScriptFp(w)]
            && after.cache == st.cache[id := Entry(ScriptFp(w), v, [])]
  {
    hide ValidScript, PlanNode;
    ScriptPlan(env, w, id, g.edges, st.report.values, st.fps);
    assert Compute(env, ScriptTask(id, w.script, [])) == Ok((ScriptValues(env, w, id).value, []));
  }

  /** A reader with an entry for its fingerprint is restored. */
  lemma RestoredReader(env: Env, g: GraphState, w: Wiring, from: NodeId, st: State)
    requires FindNode(g.nodes, w.reader) == Some(Node(w.reader, Pos(0.0, 0.0), IDENTITY))
    requires Incoming(g.edges, w.reader, 0) == Some((from, 0))
    requires from in st.report.values && st.report.values[from] != [] && from in st.fps && st.fps[from] == ScriptFp(w)
    requires w.reader in st.cache && st.cache[w.reader].fp == ReaderFp(w)
    ensures var after := Step(env, g, w.reader, st);
            && after.report.values == st.report.values[w.reader := st.cache[w.reader].value]
            && after.cache == st.cache
  {
    var r := Gather(g.edges, w.reader, 1, st.report.values, st.fps);
    assert Gather(g.edges, w.reader, 0, st.report.values, st.fps) == Gathered([], false, [], []);
    assert r.inputs == [st.report.values[from][0]] && r.fps == [ScriptFp(w)];
  }

  lemma OtherFp(w: Wiring, other: ScriptSpec)
    requires other != w.script
    ensures ScriptFp(WithScript(w, other)) != ScriptFp(w)
  {
    if ScriptFp(WithScript(w, other)) == ScriptFp(w) {
      DocumentProofs.KindJsonTellsApart(Script(other), Script(w.script));
    }
  }

  /** Evaluated over the cache of the first wiring, `a` shows what its new script
      gives, and the reader what the old one gave there. */
  lemma SwappedShows(env: Env, w: Wiring, other: ScriptSpec, nextId: nat, cancelAfter: nat, cache: Cache)
    requires ValidWiring(w) && ValidWiring(WithScript(w, other)) && other != w.script && cancelAfter >= 3
    requires ScriptValues(env, w, w.a).Some? && ScriptValues(env, w, w.b).Some?
    requires ScriptValues(env, WithScript(w, other), w.a).Some?
    requires cache == FinalCache(env, w, w.a, 0, map[])
    ensures var values := Evaluate(env, Swapped(w, other, nextId), [w.reader, w.a], cancelAfter, cache).0.values;
            && w.reader in values && values[w.reader] == [Read(env, ScriptValues(env, w, w.a).value[0])]
            && w.a in values && values[w.a] == ScriptValues(env, WithScript(w, other), w.a).value
  {
    hide ScriptValues, Step, ReaderFp, ScriptFp, ValidScript, Incoming, FindNode;
    var g := Swapped(w, other, nextId);
    OrderOfSwapped(w, other, nextId);
    FoundSwapped(w, other, nextId);
    OtherFp(w, other);
    FirstTimeline(env, w, w.b);
    var order := [w.b, w.reader, w.a];
    assert order[..Shorter(cancelAfter, 3)] == order;
    assert order[..2] == [w.b, w.reader] && [w.b, w.reader][..1] == [w.b] && [w.b][..0] == [];
    var start := State(Report(map[], []), map[], cache);
    ComputedScript(env, g, w, w.b, start);
    var one := Step(env, g, w.b, start);
    RestoredReader(env, g, w, w.b, one);
    var two := Step(env, g, w.reader, one);
    ComputedScript(env, g, WithScript(w, other), w.a, two);
    assert Steps(env, g, [w.b], cache) == one && Steps(env, g, [w.b, w.reader], cache) == two;
  }

  lemma FirstTimeline(env: Env, w: Wiring, id: NodeId)
    requires ValidWiring(w) && ScriptValues(env, w, id).Some?
    ensures var v := ScriptValues(env, w, id).value;
            && v != [] && v[0].SignalValue? && v[0].signal.timeline == OutputTimeline(id, 0)
            && Answer(env, w).value[0].times == Some(v[0].signal.t)
  {
    var raw := Answer(env, w).value;
    BoundOutput(id, w.script.outputs, raw, |raw|, 0);
  }

  /** The cached report is not only another one. Move the reader to a second node
      with the same script and give the first a script with other times: then
      one timeline of the report has two sequences of times. */
  lemma StaleTimeline(env: Env, w: Wiring, other: ScriptSpec, nextId: nat, cancelAfter: nat)
    requires ValidWiring(w) && ValidWiring(WithScript(w, other)) && cancelAfter >= 3
    requires ScriptValues(env, w, w.a).Some? && ScriptValues(env, w, w.b).Some?
    requires ScriptValues(env, WithScript(w, other), w.a).Some?
    requires Answer(env, w).value[0].times != Answer(env, WithScript(w, other)).value[0].times
    ensures var shared := Evaluate(env, Wired(w, w.a, 0, nextId), [w.reader], cancelAfter, map[]).1;
            !TimelineReports.SoundReport(
              Evaluate(env, Swapped(w, other, nextId), [w.reader, w.a], cancelAfter, shared).0)
  {
    hide Evaluate, Swapped, ScriptValues, Answer, FinalCache;
    ReaderShows(env, w, w.a, 0, nextId, map[], cancelAfter);
    var shared := Evaluate(env, Wired(w, w.a, 0, nextId), [w.reader], cancelAfter, map[]).1;
    SwappedShows(env, w, other, nextId, cancelAfter, shared);
    FirstTimeline(env, w, w.a);
    FirstTimeline(env, WithScript(w, other), w.a);
    var report := Evaluate(env, Swapped(w, other, nextId), [w.reader, w.a], cancelAfter, shared).0;
    var was := Read(env, ScriptValues(env, w, w.a).value[0]);
    assert TimelineReports.Shows(report, was.signal) by {
      assert report.values[w.reader][0] == SignalValue(was.signal);
    }
    assert TimelineReports.Shows(report, report.values[w.a][0].signal);
  }

  // ----- One such run -----

  function OneOutput(code: string): ScriptSpec {
    ScriptSpec("", [], [PortField("o", None)], code)
  }

  /** The old script has a sample at time 0, any other one at time 1. */
  function TwoClocks(arith: Arithmetic): Env {
    var host: ScriptRequest -> Result<seq<ScriptOutput>, string> :=
      (q: ScriptRequest) => Ok([ScriptOutput(Some(if q.code == "old()" then [0] else [1]), [Gap], None)]);
    Env(Snapshot([], [], [], 0, None), None, Some(host), arith)
  }

  lemma OneOutputIsValid(code: string)
    requires code in {"old()", "new()"}
    ensures ValidScript(OneOutput(code))
  {
    assert code[0] != ' ' && code[0] != '\n' && code[0] != '\t' && code[0] != '\r';
    assert FieldNames([PortField("o", None)]) == ["o"];
  }

  lemma OneOutputValues(arith: Arithmetic, w: Wiring, id: NodeId)
    requires w.script in {OneOutput("old()"), OneOutput("new()")}
    ensures ScriptValues(TwoClocks(arith), w, id).Some?
    ensures Answer(TwoClocks(arith), w).value[0].times == Some(if w.script.code == "old()" then [0] else [1])
  {
    var raw := Answer(TwoClocks(arith), w).value;
    assert BoundOutputs(id, w.script.outputs, [], raw, 0) == Some([]);
  }

  /** Over the shared cache timeline (1, 0) means two sequences of times, while
      the report of an empty cache is sound. */
  lemma StaleTimelineExample(arith: Arithmetic)
    ensures var env, w := TwoClocks(arith), Wiring(OneOutput("old()"), 1, 2, 3);
            var g := Swapped(w, OneOutput("new()"), 4);
            var shared := Evaluate(env, Wired(w, 1, 0, 4), [3], 3, map[]).1;
            && !TimelineReports.SoundReport(Evaluate(env, g, [3, 1], 3, shared).0)
            && TimelineReports.SoundReport(Evaluate(env, g, [3, 1], 3, map[]).0)
  {
    hide Evaluate, ScriptValues, Answer, TwoClocks, ValidScript, Wired;
    var env, w, other := TwoClocks(arith), Wiring(OneOutput("old()"), 1, 2, 3), OneOutput("new()");
    OneOutputIsValid("old()");
    OneOutputIsValid("new()");
    OneOutputValues(arith, w, 1);
    OneOutputValues(arith, w, 2);
    OneOutputValues(arith, WithScript(w, other), 1);
    StaleTimeline(env, w, other, 4, 3);
    var r := CacheAgreement.Request(env, Swapped(w, other, 4), [3, 1], 3);
    NoFields(arith);
    TimelineReports.SmallScriptsKeepApart(r);
    TimelineReports.ReportIsSound(r);
  }

  lemma NoFields(arith: Arithmetic)
    ensures Timelines.DenseFields(TwoClocks(arith).snapshot)
  {
  }
}
