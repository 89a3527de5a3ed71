/** Evaluating a data-flow graph over a snapshot, with a cache of node results. */
module Evaluator {
  import opened Prelude
  import opened Json
  import opened GraphModel
  import opened Storage
  import EvalOrder
  import Al = Align
  import Names
  import Documents

  // ----- Values -----

  datatype TimelineId = TopicTimeline(topic: nat) | OutputTimeline(node: NodeId, port: nat)

  datatype Signal = Signal(t: seq<int>, v: seq<Num>, timeline: TimelineId, units: Option<string>)

  datatype Value = SignalValue(signal: Signal) | ScalarValue(scalar: Num)

  datatype ScriptRequest =
    ScriptRequest(title: string, code: string, inputs: seq<(string, Value)>, outputs: seq<string>)

  datatype ScriptOutput = ScriptOutput(times: Option<seq<int>>, values: seq<Num>, units: Option<string>)

  type Host = Option<ScriptRequest -> Result<seq<ScriptOutput>, string>>

  /** Float arithmetic, whatever its rounding. */
  datatype Arithmetic = Arithmetic(
    add: (Num, Num) -> Num, subtract: (Num, Num) -> Num, multiply: (Num, Num) -> Num, divide: (Num, Num) -> Num,
    scale: (Num, Num, Num) -> Num, convert: (ConversionKind, Num) -> Num, mix: Al.Mix)

  datatype Issue =
    | HasCycle | Unresolved | TextField | ReadFailed | NotFinite | UnknownKind
    | NoConnection(port: nat) | BadFilter | BadScript | NoHost | ScriptFailed(message: string) | BadOutputs
    | NumericInputRequired | TimelineMismatch | DifferentLengths | UnitsDiffer

  /** What an evaluation reads besides the graph. */
  datatype Env = Env(snapshot: Snapshot, window: Option<TimeRange>, host: Host, arith: Arithmetic)

  // ----- Data fields -----

  datatype Resolved =
    Resolved(source: nat, topic: nat, field: nat, units: Option<string>, multiplier: Num, isString: bool)

  predicate TopicMatches(name: string, s: FieldSelector) {
    var (base, instance) := Names.ParseInstance(name);
    (base == s.topic && instance == s.instance) || (s.instance.None? && name == s.topic)
  }

  predicate IsCandidate(snap: Snapshot, source: SourceSnapshot, topic: nat, s: FieldSelector) {
    && !source.entry.removed
    && (s.source.Some? ==> source.entry.sourceLabel == s.source.value)
    && TopicOf(snap, topic).Some?
    && !TopicOf(snap, topic).value.entry.removed && TopicOf(snap, topic).value.store.Some?
    && TopicMatches(TopicOf(snap, topic).value.entry.name, s)
  }

  /** Candidate (source, topic) pairs, in order. */
  function TopicCandidates(snap: Snapshot, source: SourceSnapshot, topics: seq<nat>, s: FieldSelector)
    : seq<(nat, nat)>
  {
    if topics == [] then []
    else
      var n := |topics| - 1;
      var before := TopicCandidates(snap, source, topics[..n], s);
      if IsCandidate(snap, source, topics[n], s) then before + [(source.entry.id, topics[n])] else before
  }

  function Candidates(snap: Snapshot, sources: seq<SourceSnapshot>, s: FieldSelector): seq<(nat, nat)> {
    if sources == [] then []
    else
      var n := |sources| - 1;
      Candidates(snap, sources[..n], s) + TopicCandidates(snap, sources[n], sources[n].topics, s)
  }

  function FieldNamed(fields: seq<FieldEntry>, topic: nat, name: string): (i: nat)
    ensures i <= |fields|
    ensures i < |fields| ==> !fields[i].removed && fields[i].topic == topic && fields[i].name == name
  {
    if fields == [] then 0
    else if !fields[0].removed && fields[0].topic == topic && fields[0].name == name then 0
    else 1 + FieldNamed(fields[1..], topic, name)
  }

  function SchemaOf(snap: Snapshot, source: nat, topic: nat, field: nat, name: string): Option<Resolved> {
    if TopicOf(snap, topic).None? || TopicOf(snap, topic).value.store.None? then None
    else
      var fields := TopicOf(snap, topic).value.store.value.schema.fields;
      var i := FieldIndex(fields, name);
      if i == |fields| then None
      else Some(Resolved(source, topic, field, fields[i].units, fields[i].multiplier, fields[i].isString))
  }

  /** Finds the one topic and field that a selector means. */
  function Resolve(snap: Snapshot, s: FieldSelector): Option<Resolved> {
    var candidates := Candidates(snap, snap.sources, s);
    if |candidates| != 1 then None
    else
      var (source, topic) := candidates[0];
      var i := FieldNamed(snap.fields, topic, s.field);
      if i == |snap.fields| then None
      else SchemaOf(snap, source, topic, snap.fields[i].id, s.field)
  }

  type Row = (int, Num)

  /** The rows of a chunk at effective times, those outside the window left
      out; `None` if a time overflows. */
  function ChunkRows(c: Chunk, n: nat, column: nat, offset: int, window: Option<TimeRange>, scaled: Num -> Num)
    : Option<seq<Row>>
    requires n <= |c.t|
  {
    if n == 0 then Some([])
    else
      var before := ChunkRows(c, n - 1, column, offset, window, scaled);
      var time := CheckedAdd(c.t[n - 1], offset);
      if before.None? || time.None? then None
      else if window.Some? && (time.value < window.value.minUs || time.value > window.value.maxUs) then before
      else
        var cell := if column < |c.cols| && n - 1 < |c.cols[column]| then c.cols[column][n - 1] else Null;
        Some(before.value + [(time.value, scaled(Sample(cell)))])
  }

  function StoreRows(chunks: seq<Chunk>, range: TimeRange, column: nat, offset: int, window: Option<TimeRange>,
                     scaled: Num -> Num): Option<seq<Row>>
  {
    if chunks == [] then Some([])
    else
      var n := |chunks| - 1;
      var c := chunks[n];
      var before := StoreRows(chunks[..n], range, column, offset, window, scaled);
      var lo, hi := CheckedSub(range.minUs, offset), CheckedSub(range.maxUs, offset);
      if before.None? then None
      else if lo.None? || hi.None? || !Overlap(TimeRange(lo.value, hi.value), TimeRange(c.tMin, c.tMax)) then before
      else
        var rows := ChunkRows(c, |c.t|, column, offset, window, scaled);
        if rows.None? then None else Some(before.value + rows.value)
  }

  function Times(rows: seq<Row>): (t: seq<int>)
    ensures |t| == |rows| && forall i :: 0 <= i < |rows| ==> t[i] == rows[i].0
  {
    seq(|rows|, i requires 0 <= i < |rows| => rows[i].0)
  }

  function Values(rows: seq<Row>): (v: seq<Num>)
    ensures |v| == |rows| && forall i :: 0 <= i < |rows| ==> v[i] == rows[i].1
  {
    seq(|rows|, i requires 0 <= i < |rows| => rows[i].1)
  }

  function PlacedRow(sorted: seq<Row>, row: Row): (r: seq<Row>)
    ensures |r| == |sorted| + 1
  {
    if sorted == [] then [row]
    else
      var n := |sorted| - 1;
      if sorted[n].0 <= row.0 then sorted + [row] else PlacedRow(sorted[..n], row) + [sorted[n]]
  }

  /** Stable sort by time. */
  function SortedRows(rows: seq<Row>): (r: seq<Row>)
    ensures |r| == |rows|
  {
    if rows == [] then [] else PlacedRow(SortedRows(rows[..|rows| - 1]), rows[|rows| - 1])
  }

  function Scaled(arith: Arithmetic, multiplier: Num): Num -> Num {
    (x: Num) => arith.multiply(x, multiplier)
  }

  function ReadField(snap: Snapshot, field: nat, multiplier: Num, window: Option<TimeRange>, arith: Arithmetic)
    : Option<seq<Row>>
  {
    var view := ViewOf(snap, field);
    var range := if window.Some? then window else snap.globalRange;
    if view.None? then None
    else if range.None? then Some([])
    else
      var v := view.value;
      var rows := StoreRows(v.store.chunks, range.value, v.column, v.offsetUs, window, Scaled(arith, multiplier));
      if rows.None? then None
      else if SortedTimes(Times(rows.value)) then rows
      else Some(SortedRows(rows.value))
  }

  // ----- Kernels -----

  predicate ValidFilter(f: FilterSpec) {
    && f.threshold.Val?
    && (f.filter.Between? || f.filter.OutsideRange? ==> f.upper.Val? && f.threshold.r <= f.upper.r)
  }

  predicate Matches(f: FilterSpec, x: Num) {
    x.Val? && f.threshold.Val? &&
    match f.filter
    case Equal => x.r == f.threshold.r
    case NotEqual => x.r != f.threshold.r
    case LessThan => x.r < f.threshold.r || (f.inclusive && x.r == f.threshold.r)
    case GreaterThan => x.r > f.threshold.r || (f.inclusive && x.r == f.threshold.r)
    case Between => f.upper.Val? && x.r >= f.threshold.r && x.r <= f.upper.r
    case OutsideRange => x.r < f.threshold.r || (f.upper.Val? && x.r > f.upper.r)
  }

  function MapNums(v: seq<Num>, f: Num -> Num): (r: seq<Num>)
    ensures |r| == |v|
  {
    seq(|v|, i requires 0 <= i < |v| => f(v[i]))
  }

  function ZipNums(a: seq<Num>, b: seq<Num>, f: (Num, Num) -> Num): (r: seq<Num>)
    requires |a| == |b|
    ensures |r| == |a|
  {
    seq(|a|, i requires 0 <= i < |a| => f(a[i], b[i]))
  }

  function Shorter(a: nat, b: nat): nat {
    if a < b then a else b
  }

  /** Two signals may be combined sample by sample. */
  function SameTimeline(a: Signal, b: Signal): Option<Issue> {
    if a.timeline != b.timeline && a.t != b.t then Some(TimelineMismatch)
    else if |a.t| != |b.t| || |a.v| != |b.v| then Some(DifferentLengths)
    else None
  }

  type Kernel = Result<(Value, seq<Issue>), Issue>

  function SumKernel(a: Signal, b: Signal, f: (Num, Num) -> Num): Kernel {
    if SameTimeline(a, b).Some? then Err(SameTimeline(a, b).value)
    else
      var units := if a.units == b.units then a.units else None;
      var issues := if a.units.Some? && b.units.Some? && a.units != b.units then [UnitsDiffer] else [];
      Ok((SignalValue(Signal(a.t, ZipNums(a.v, b.v, f), a.timeline, units)), issues))
  }

  function ProductKernel(a: Signal, b: Value, f: (Num, Num) -> Num): Kernel {
    match b
    case ScalarValue(s) =>
      Ok((SignalValue(Signal(a.t, MapNums(a.v, (x: Num) => f(x, s)), a.timeline, a.units)), []))
    case SignalValue(b) =>
      if SameTimeline(a, b).Some? then Err(SameTimeline(a, b).value)
      else Ok((SignalValue(Signal(a.t, ZipNums(a.v, b.v, f), a.timeline, None)), []))
  }

  function ConversionUnit(c: ConversionKind): string {
    match c
    case RadToDeg | Heading0To360 | HeadingPm180 => "deg"
    case DegToRad => "rad"
    case MsToKmh => "km/h"
    case KmhToMs => "m/s"
    case MToFt => "ft"
    case FtToM => "m"
  }

  function OneSignal(k: NodeKind, a: Signal, arith: Arithmetic): Kernel {
    match k
    case ScaleOffset(m, b) =>
      Ok((SignalValue(a.(v := MapNums(a.v, (x: Num) => arith.scale(x, m, b)))), []))
    case Filter(f) =>
      Ok((SignalValue(a.(v := MapNums(a.v, (x: Num) => if Matches(f, x) then x else Gap))), []))
    case Convert(c) =>
      Ok((SignalValue(a.(v := MapNums(a.v, (x: Num) => arith.convert(c, x)), units := Some(ConversionUnit(c)))), []))
    case _ => Err(NumericInputRequired)
  }

  function AlignKernel(a: Signal, b: Signal, mode: AlignMode, mix: Al.Mix): Kernel {
    var n := Shorter(|a.t|, |a.v|);
    Ok((SignalValue(Signal(b.t, Al.FastAligned(a.t[..n], a.v[..n], b.t, mode, mix), b.timeline, a.units)), []))
  }

  function SignalAt(inputs: seq<Value>, i: nat): Option<Signal> {
    if i < |inputs| && inputs[i].SignalValue? then Some(inputs[i].signal) else None
  }

  function EvaluateKernel(k: NodeKind, inputs: seq<Value>, arith: Arithmetic): Kernel {
    var a, b := SignalAt(inputs, 0), SignalAt(inputs, 1);
    if k.Filter? && !ValidFilter(k.spec) then Err(BadFilter)
    else if a.None? then Err(NumericInputRequired)
    else
      match k
      case Add => if b.None? then Err(NumericInputRequired) else SumKernel(a.value, b.value, arith.add)
      case Subtract => if b.None? then Err(NumericInputRequired) else SumKernel(a.value, b.value, arith.subtract)
      case Multiply =>
        if |inputs| < 2 then Err(NumericInputRequired) else ProductKernel(a.value, inputs[1], arith.multiply)
      case Divide => if |inputs| < 2 then Err(NumericInputRequired) else ProductKernel(a.value, inputs[1], arith.divide)
      case Align(mode) => if b.None? then Err(NumericInputRequired) else AlignKernel(a.value, b.value, mode, arith.mix)
      case _ => OneSignal(k, a.value, arith)
  }

  // ----- Scripts -----

  predicate IsIdentifier(s: string) {
    && s != [] && ('a' <= s[0] <= 'z' || 'A' <= s[0] <= 'Z' || s[0] == '_')
    && forall i :: 0 <= i < |s| ==> 'a' <= s[i] <= 'z' || 'A' <= s[i] <= 'Z' || '0' <= s[i] <= '9' || s[i] == '_'
  }

  predicate ValidNames(names: seq<string>) {
    && (forall i :: 0 <= i < |names| ==> IsIdentifier(names[i]))
    && (forall i, j :: 0 <= i < j < |names| ==> names[i] != names[j])
  }

  function FieldNames(fields: seq<PortField>): seq<string> {
    seq(|fields|, i requires 0 <= i < |fields| => fields[i].name)
  }

  /** White space, as `trim` has it. */
  predicate IsBlank(c: char) {
    var n := c as int;
    || 9 <= n <= 13 || n == 32 || n == 0x85 || n == 0xA0 || n == 0x1680 || 0x2000 <= n <= 0x200A
    || n == 0x2028 || n == 0x2029 || n == 0x202F || n == 0x205F || n == 0x3000
  }

  predicate ValidScript(s: ScriptSpec) {
    && s.outputs != []
    && (exists i :: 0 <= i < |s.code| && !IsBlank(s.code[i]))
    && ValidNames(s.inputs) && ValidNames(FieldNames(s.outputs))
  }

  function RequestFor(s: ScriptSpec, inputs: seq<Value>): ScriptRequest {
    var n := Shorter(|s.inputs|, |inputs|);
    ScriptRequest(if s.name == "" then "Script" else s.name, s.code,
                  seq(n, i requires 0 <= i < n => (s.inputs[i], inputs[i])), FieldNames(s.outputs))
  }

  /** The first signal among the values whose times are `times`. */
  function WithTimes(values: seq<Value>, times: seq<int>): Option<Signal> {
    if values == [] then None
    else if values[0].SignalValue? && values[0].signal.t == times then Some(values[0].signal)
    else WithTimes(values[1..], times)
  }

  function FirstSignal(values: seq<Value>): Option<Signal> {
    if values == [] then None
    else if values[0].SignalValue? then Some(values[0].signal)
    else FirstSignal(values[1..])
  }

  /** The signal inputs, if any, when they all share one timeline: the first. */
  function SharedTimeline(inputs: seq<Value>): Option<Signal> {
    var first := FirstSignal(inputs);
    if first.Some? && forall i :: 0 <= i < |inputs| && inputs[i].SignalValue? ==>
         inputs[i].signal.timeline == first.value.timeline
    then first else None
  }

  const U16_RANGE: nat := 0x1_0000

  /** Where an output's times come from, by the first rule that applies: bare
      values take the shared input timeline; explicit times that equal an
      input's or an earlier output's take its timeline; else they get a new
      one, numbered by output modulo 2^16. */
  function OutputTimes(id: NodeId, inputs: seq<Value>, bound: seq<Value>, out: ScriptOutput)
    : Option<(TimelineId, seq<int>)>
  {
    match out.times
    case None =>
      var shared := SharedTimeline(inputs);
      if shared.None? || |shared.value.v| != |out.values| then None
      else Some((shared.value.timeline, shared.value.t))
    case Some(times) =>
      if |times| != |out.values| || !SortedTimes(times) then None
      else if WithTimes(inputs, times).Some? then Some((WithTimes(inputs, times).value.timeline, times))
      else if WithTimes(bound, times).Some? then Some((WithTimes(bound, times).value.timeline, times))
      else Some((OutputTimeline(id, |bound| % U16_RANGE), times))
  }

  /** The first `n` outputs of a script, bound to timelines. */
  function BoundOutputs(id: NodeId, outputs: seq<PortField>, inputs: seq<Value>, raw: seq<ScriptOutput>, n: nat)
    : (r: Option<seq<Value>>)
    requires |raw| == |outputs| && n <= |outputs|
    ensures r.Some? ==> |r.value| == n
  {
    if n == 0 then Some([])
    else
      var bound := BoundOutputs(id, outputs, inputs, raw, n - 1);
      if bound.None? then None
      else
        var out := raw[n - 1];
        var times := OutputTimes(id, inputs, bound.value, out);
        if times.None? then None
        else
          var units := if outputs[n - 1].units.Some? then outputs[n - 1].units else out.units;
          Some(bound.value + [SignalValue(Signal(times.value.1, out.values, times.value.0, units))])
  }

  // ----- One node -----

  /** Which data a field node reads. */
  datatype DataKey = DataKey(epoch: nat, source: nat, topic: nat, field: nat)

  /** A node's fingerprint. The hash of the code is replaced by what it hashes,
      that is, taken to be injective. */
  datatype Fingerprint =
    Fingerprint(kind: Json, inputs: seq<Fingerprint>, data: Option<DataKey>, window: Option<TimeRange>)

  /** What is left to compute when a node is not in the cache. */
  datatype Task =
    | ReadTask(resolved: Resolved)
    | ConstantTask(value: Num)
    | ScriptTask(id: NodeId, script: ScriptSpec, inputs: seq<Value>)
    | KernelTask(kind: NodeKind, inputs: seq<Value>)

  datatype Plan = Skip(issues: seq<Issue>) | Go(fp: Fingerprint, task: Task)

  type Outcome = Result<(seq<Value>, seq<Issue>), Issue>

  function ComputeScript(env: Env, id: NodeId, s: ScriptSpec, inputs: seq<Value>): Outcome {
    if env.host.None? then Err(NoHost)
    else
      match env.host.value(RequestFor(s, inputs))
      case Err(message) => Err(ScriptFailed(message))
      case Ok(raw) =>
        if |raw| != |s.outputs| then Err(BadOutputs)
        else
          var bound := BoundOutputs(id, s.outputs, inputs, raw, |raw|);
          if bound.None? then Err(BadOutputs) else Ok((bound.value, []))
  }

  function ComputeRead(env: Env, r: Resolved): Outcome {
    var rows := ReadField(env.snapshot, r.field, r.multiplier, env.window, env.arith);
    if rows.None? then Err(ReadFailed)
    else Ok(([SignalValue(Signal(Times(rows.value), Values(rows.value), TopicTimeline(r.topic), r.units))], []))
  }

  function Compute(env: Env, task: Task): Outcome {
    match task
    case ReadTask(r) => ComputeRead(env, r)
    case ConstantTask(value) => Ok(([ScalarValue(value)], []))
    case ScriptTask(id, s, inputs) => ComputeScript(env, id, s, inputs)
    case KernelTask(k, inputs) =>
      (match EvaluateKernel(k, inputs, env.arith)
       case Err(issue) => Err(issue)
       case Ok((value, issues)) => Ok(([value], issues)))
  }

  datatype Gathered = Gathered(issues: seq<Issue>, blocked: bool, inputs: seq<Value>, fps: seq<Fingerprint>)

  /** The values and fingerprints at the first `n` input ports. */
  function Gather(edges: seq<Edge>, id: NodeId, n: nat, values: map<NodeId, seq<Value>>, fps: map<NodeId, Fingerprint>)
    : Gathered
  {
    if n == 0 then Gathered([], false, [], [])
    else
      var before := Gather(edges, id, n - 1, values, fps);
      match Incoming(edges, id, n - 1)
      case None => before.(issues := before.issues + [NoConnection(n - 1)], blocked := true)
      case Some((upstream, port)) =>
        if upstream in values && port < |values[upstream]| && upstream in fps
        then before.(inputs := before.inputs + [values[upstream][port]], fps := before.fps + [fps[upstream]])
        else before.(blocked := true)
  }

  function PlanRead(env: Env, k: NodeKind): Plan
    requires k.DataField?
  {
    var r := Resolve(env.snapshot, k.selector);
    if r.None? then Skip([Unresolved])
    else if r.value.isString then Skip([TextField])
    else
      var key := DataKey(env.snapshot.epoch, r.value.source, r.value.topic, r.value.field);
      Go(Fingerprint(Documents.KindJson(k), [], Some(key), env.window), ReadTask(r.value))
  }

  function PlanInputs(id: NodeId, k: NodeKind, g: Gathered): Plan {
    if g.blocked then Skip(g.issues)
    else if k.Output? then Skip([])
    else if k.Script? && !ValidScript(k.script) then Skip([BadScript])
    else if k.ScaleOffset? && (k.multiplier.Gap? || k.offset.Gap?) then Skip([NotFinite])
    else if k.Filter? && !ValidFilter(k.spec) then Skip([BadFilter])
    else
      Go(Fingerprint(Documents.KindJson(k), g.fps, None, None),
         if k.Script? then ScriptTask(id, k.script, g.inputs) else KernelTask(k, g.inputs))
  }

  function PlanNode(env: Env, edges: seq<Edge>, node: Node, values: map<NodeId, seq<Value>>,
                    fps: map<NodeId, Fingerprint>)
    : Plan
  {
    match node.kind
    case DataField(_) => PlanRead(env, node.kind)
    case Constant(v) =>
      if v.Gap? then Skip([NotFinite])
      else Go(Fingerprint(Documents.KindJson(node.kind), [], None, None), ConstantTask(v))
    case Unknown(_) => Skip([UnknownKind])
    case k => PlanInputs(node.id, k, Gather(edges, node.id, |Inputs(k)|, values, fps))
  }

  // ----- The evaluation -----

  datatype Entry = Entry(fp: Fingerprint, value: seq<Value>, issues: seq<Issue>)

  type Cache = map<NodeId, Entry>

  datatype Report = Report(values: map<NodeId, seq<Value>>, issues: seq<(NodeId, Issue)>)

  datatype State = State(report: Report, fps: map<NodeId, Fingerprint>, cache: Cache)

  function At(id: NodeId, issues: seq<Issue>): seq<(NodeId, Issue)> {
    seq(|issues|, i requires 0 <= i < |issues| => (id, issues[i]))
  }

  function Reported(st: State, id: NodeId, issues: seq<Issue>): State {
    st.(report := st.report.(issues := st.report.issues + At(id, issues)))
  }

  function WithValue(st: State, id: NodeId, fp: Fingerprint, value: seq<Value>, issues: seq<Issue>): State {
    st.(report := Report(st.report.values[id := value], st.report.issues + At(id, issues)), fps := st.fps[id := fp])
  }

  /** Restores a node from the cache, or computes it and stores it there. */
  function Perform(env: Env, id: NodeId, fp: Fingerprint, task: Task, st: State): State {
    if id in st.cache && st.cache[id].fp == fp then WithValue(st, id, fp, st.cache[id].value, st.cache[id].issues)
    else
      match Compute(env, task)
      case Err(issue) => Reported(st, id, [issue])
      case Ok((value, issues)) =>
        WithValue(st, id, fp, value, issues).(cache := st.cache[id := Entry(fp, value, issues)])
  }

  function Step(env: Env, g: GraphState, id: NodeId, st: State): State {
    var node := FindNode(g.nodes, id);
    if node.None? then st
    else
      match PlanNode(env, g.edges, node.value, st.report.values, st.fps)
      case Skip(issues) => Reported(st, id, issues)
      case Go(fp, task) => Perform(env, id, fp, task, st)
  }

  function Steps(env: Env, g: GraphState, order: seq<NodeId>, cache: Cache): State {
    if order == [] then State(Report(map[], []), map[], cache)
    else Step(env, g, order[|order| - 1], Steps(env, g, order[..|order| - 1], cache))
  }

  /** Evaluates the targets. `cancelAfter` is the number of nodes after which
      the evaluation is seen to be cancelled. */
  function Evaluate(env: Env, g: GraphState, targets: seq<NodeId>, cancelAfter: nat, cache: Cache): (Report, Cache) {
    match EvalOrder.Order(g, targets)
    case Err(n) => (Report(map[], [(n, HasCycle)]), cache)
    case Ok(w) =>
      var st := Steps(env, g, w.order[..Shorter(cancelAfter, |w.order|)], cache);
      (st.report, st.cache)
  }
}
