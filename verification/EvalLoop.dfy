/** The evaluation as it runs: loops over rows, ports, outputs and nodes, and a
    cache object that they update. */
module EvalLoop {
  import opened Prelude
  import opened GraphModel
  import opened Storage
  import opened Evaluator
  import Al = Align
  import EvalOrder

  // ----- Reading a field -----

  lemma {:induction false} FailedRows(c: Chunk, k: nat, n: nat, column: nat, offset: int, window: Option<TimeRange>,
                                      scaled: Num -> Num)
    requires k <= n <= |c.t| && ChunkRows(c, k, column, offset, window, scaled).None?
    ensures ChunkRows(c, n, column, offset, window, scaled).None?
  {
    if k < n {
      FailedRows(c, k, n - 1, column, offset, window, scaled);
    }
  }

  method ReadRows(c: Chunk, column: nat, offset: int, window: Option<TimeRange>, scaled: Num -> Num)
    returns (rows: Option<seq<Row>>)
    ensures rows == ChunkRows(c, |c.t|, column, offset, window, scaled)
  {
    var read: seq<Row> := [];
    for row := 0 to |c.t|
      invariant ChunkRows(c, row, column, offset, window, scaled) == Some(read)
    {
      var time := CheckedAdd(c.t[row], offset);
      if time.None? {
        FailedRows(c, row + 1, |c.t|, column, offset, window, scaled);
        return None;
      }
      if window.Some? && (time.value < window.value.minUs || time.value > window.value.maxUs) {
        continue;
      }
      var cell := if column < |c.cols| && row < |c.cols[column]| then c.cols[column][row] else Null;
      read := read + [(time.value, scaled(Sample(cell)))];
    }
    rows := Some(read);
  }

  lemma {:induction false} FailedChunks(chunks: seq<Chunk>, k: nat, range: TimeRange, column: nat, offset: int,
                                        window: Option<TimeRange>, scaled: Num -> Num)
    requires k <= |chunks| && StoreRows(chunks[..k], range, column, offset, window, scaled).None?
    ensures StoreRows(chunks, range, column, offset, window, scaled).None?
  {
    if k == |chunks| {
      assert chunks[..k] == chunks;
    } else {
      assert chunks[..|chunks| - 1][..k] == chunks[..k];
      FailedChunks(chunks[..|chunks| - 1], k, range, column, offset, window, scaled);
    }
  }

  method ReadChunks(chunks: seq<Chunk>, range: TimeRange, column: nat, offset: int, window: Option<TimeRange>,
                    scaled: Num -> Num) returns (rows: Option<seq<Row>>)
    ensures rows == StoreRows(chunks, range, column, offset, window, scaled)
  {
    var read: seq<Row> := [];
    for k := 0 to |chunks|
      invariant StoreRows(chunks[..k], range, column, offset, window, scaled) == Some(read)
    {
      assert chunks[..k + 1][..k] == chunks[..k];
      var c := chunks[k];
      var lo, hi := CheckedSub(range.minUs, offset), CheckedSub(range.maxUs, offset);
      if lo.Some? && hi.Some? && Overlap(TimeRange(lo.value, hi.value), TimeRange(c.tMin, c.tMax)) {
        var more := ReadRows(c, column, offset, window, scaled);
        if more.None? {
          FailedChunks(chunks, k + 1, range, column, offset, window, scaled);
          return None;
        }
        read := read + more.value;
      }
    }
    assert chunks[..|chunks|] == chunks;
    rows := Some(read);
  }

  method ReadFieldRows(snap: Snapshot, field: nat, multiplier: Num, window: Option<TimeRange>, arith: Arithmetic)
    returns (rows: Option<seq<Row>>)
    ensures rows == ReadField(snap, field, multiplier, window, arith)
  {
    var view := ViewOf(snap, field);
    if view.None? {
      return None;
    }
    var range := if window.Some? then window else snap.globalRange;
    if range.None? {
      return Some([]);
    }
    var v := view.value;
    rows := ReadChunks(v.store.chunks, range.value, v.column, v.offsetUs, window, Scaled(arith, multiplier));
    if rows.Some? && !SortedTimes(Times(rows.value)) {
      rows := Some(SortedRows(rows.value));
    }
  }

  // ----- One node -----

  method GatherInputs(edges: seq<Edge>, id: NodeId, ports: nat, values: map<NodeId, seq<Value>>,
                      fps: map<NodeId, Fingerprint>)
    returns (r: Gathered)
    ensures r == Gather(edges, id, ports, values, fps)
  {
    r := Gathered([], false, [], []);
    for port := 0 to ports
      invariant r == Gather(edges, id, port, values, fps)
    {
      match Incoming(edges, id, port)
      case None => r := r.(issues := r.issues + [NoConnection(port)], blocked := true);
      case Some((upstream, from)) =>
        if upstream in values && from < |values[upstream]| && upstream in fps {
          r := r.(inputs := r.inputs + [values[upstream][from]], fps := r.fps + [fps[upstream]]);
        } else {
          r := r.(blocked := true);
        }
    }
  }

  lemma {:induction false} FailedOutputs(id: NodeId, outputs: seq<PortField>, inputs: seq<Value>,
                                         raw: seq<ScriptOutput>,
                                         k: nat, n: nat)
    requires |raw| == |outputs| && k <= n <= |outputs| && BoundOutputs(id, outputs, inputs, raw, k).None?
    ensures BoundOutputs(id, outputs, inputs, raw, n).None?
  {
    if k < n {
      FailedOutputs(id, outputs, inputs, raw, k, n - 1);
    }
  }

  method BindOutputs(id: NodeId, outputs: seq<PortField>, inputs: seq<Value>, raw: seq<ScriptOutput>)
    returns (r: Option<seq<Value>>)
    requires |raw| == |outputs|
    ensures r == BoundOutputs(id, outputs, inputs, raw, |raw|)
  {
    var bound: seq<Value> := [];
    for k := 0 to |raw|
      invariant BoundOutputs(id, outputs, inputs, raw, k) == Some(bound)
    {
      var times := OutputTimes(id, inputs, bound, raw[k]);
      if times.None? {
        FailedOutputs(id, outputs, inputs, raw, k + 1, |raw|);
        return None;
      }
      var units := if outputs[k].units.Some? then outputs[k].units else raw[k].units;
      bound := bound + [SignalValue(Signal(times.value.1, raw[k].values, times.value.0, units))];
    }
    r := Some(bound);
  }

  method RunScript(env: Env, id: NodeId, s: ScriptSpec, inputs: seq<Value>) returns (r: Outcome)
    ensures r == ComputeScript(env, id, s, inputs)
  {
    if env.host.None? {
      return Err(NoHost);
    }
    var answer := env.host.value(RequestFor(s, inputs));
    if answer.Err? {
      return Err(ScriptFailed(answer.error));
    }
    if |answer.value| != |s.outputs| {
      return Err(BadOutputs);
    }
    var bound := BindOutputs(id, s.outputs, inputs, answer.value);
    r := if bound.None? then Err(BadOutputs) else Ok((bound.value, []));
  }

  method RunKernel(k: NodeKind, inputs: seq<Value>, arith: Arithmetic) returns (r: Kernel)
    ensures r == EvaluateKernel(k, inputs, arith)
  {
    if !k.Align? || SignalAt(inputs, 0).None? || SignalAt(inputs, 1).None? {
      return EvaluateKernel(k, inputs, arith);
    }
    var a, b := inputs[0].signal, inputs[1].signal;
    var n := Shorter(|a.t|, |a.v|);
    var values := Al.AlignValues(a.t[..n], a.v[..n], b.t, k.mode, arith.mix);
    r := Ok((SignalValue(Signal(b.t, values, b.timeline, a.units)), []));
  }

  method Execute(env: Env, task: Task) returns (r: Outcome)
    ensures r == Compute(env, task)
  {
    match task
    case ReadTask(f) =>
      var rows := ReadFieldRows(env.snapshot, f.field, f.multiplier, env.window, env.arith);
      r := if rows.None? then Err(ReadFailed)
           else Ok(([SignalValue(Signal(Times(rows.value), Values(rows.value), TopicTimeline(f.topic), f.units))], []));
    case ConstantTask(value) => r := Ok(([ScalarValue(value)], []));
    case ScriptTask(id, s, inputs) => r := RunScript(env, id, s, inputs);
    case KernelTask(k, inputs) =>
      var result := RunKernel(k, inputs, env.arith);
      r := if result.Err? then Err(result.error) else Ok(([result.value.0], result.value.1));
  }

  // ----- The evaluation -----

  class EvalCache {
    var entries: Cache

    constructor ()
      ensures entries == map[]
    {
      entries := map[];
    }

    /** One run's report in the making, with the fingerprints found so far. */
    method EvaluateNode(env: Env, edges: seq<Edge>, node: Node, report: Report, fps: map<NodeId, Fingerprint>)
      returns (report': Report, fps': map<NodeId, Fingerprint>)
      modifies this
      ensures State(report', fps', entries) == Planned(env, node.id, PlanNode(env, edges, node, report.values, fps),
                                                       State(report, fps, old(entries)))
    {
      report', fps' := report, fps;
      var plan;
      if node.kind.DataField? || node.kind.Constant? || node.kind.Unknown? {
        plan := PlanNode(env, edges, node, report.values, fps);
      } else {
        var gathered := GatherInputs(edges, node.id, |Inputs(node.kind)|, report.values, fps);
        plan := PlanInputs(node.id, node.kind, gathered);
      }
      match plan
      case Skip(issues) => report' := report.(issues := report.issues + At(node.id, issues));
      case Go(fp, task) =>
        if node.id in entries && entries[node.id].fp == fp {
          report' := Report(report.values[node.id := entries[node.id].value],
                            report.issues + At(node.id, entries[node.id].issues));
          fps' := fps[node.id := fp];
          return;
        }
        var r := Execute(env, task);
        match r
        case Err(issue) => report' := report.(issues := report.issues + At(node.id, [issue]));
        case Ok((value, issues)) =>
          report' := Report(report.values[node.id := value], report.issues + At(node.id, issues));
          entries := entries[node.id := Entry(fp, value, issues)];
          fps' := fps[node.id := fp];
    }

    /** `cancelAfter` is the number of nodes after which the flag is seen set. */
    method EvaluateTargets(env: Env, g: GraphState, targets: seq<NodeId>, cancelAfter: nat) returns (report: Report)
      modifies this
      ensures (report, entries) == Evaluate(env, g, targets, cancelAfter, old(entries))
    {
      var order := EvalOrder.ComputeOrder(g, targets);
      if order.Err? {
        return Report(map[], [(order.error, HasCycle)]);
      }
      report := Report(map[], []);
      var fps: map<NodeId, Fingerprint> := map[];
      ghost var start := entries;
      for k := 0 to Shorter(cancelAfter, |order.value|)
        invariant Steps(env, g, order.value[..k], start) == State(report, fps, entries)
      {
        assert order.value[..k + 1][..k] == order.value[..k];
        var node := FindNode(g.nodes, order.value[k]);
        if node.Some? {
          report, fps := EvaluateNode(env, g.edges, node.value, report, fps);
        }
      }
    }
  }

  function Planned(env: Env, id: NodeId, plan: Plan, st: State): State {
    match plan
    case Skip(issues) => Reported(st, id, issues)
    case Go(fp, task) => Perform(env, id, fp, task, st)
  }
}
