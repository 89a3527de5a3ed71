/** What a report holds: at every node that is reached, its kind computed on the
    values that the same report holds for the nodes upstream. */
module ReportMeaning {
  import opened Prelude
  import opened GraphModel
  import opened Storage
  import opened Evaluator
  import opened CacheAgreement
  import opened CacheExactness
  import EvalOrder
  import Names

  // ----- What is due to a node -----

  /** The value at an input port, if an edge brings one. */
  function Fed(values: map<NodeId, seq<Value>>, edges: seq<Edge>, id: NodeId, port: nat): Option<Value> {
    match Incoming(edges, id, port)
    case None => None
    case Some((from, output)) =>
      if from in values && output < |values[from]| then Some(values[from][output]) else None
  }

  /** The values at the first `n` input ports, if there is one at each. */
  function FedInputs(values: map<NodeId, seq<Value>>, edges: seq<Edge>, id: NodeId, n: nat): (r: Option<seq<Value>>)
    ensures r.Some? ==> |r.value| == n
    ensures r.Some? ==> forall port :: 0 <= port < n ==> Fed(values, edges, id, port) == Some(r.value[port])
    ensures r.None? ==> exists port :: 0 <= port < n && Fed(values, edges, id, port).None?
  {
    if n == 0 then Some([])
    else
      var before, last := FedInputs(values, edges, id, n - 1), Fed(values, edges, id, n - 1);
      if before.None? || last.None? then None else Some(before.value + [last.value])
  }

  /** The first `n` input ports without an edge, in order. */
  function Unconnected(edges: seq<Edge>, id: NodeId, n: nat): seq<Issue> {
    if n == 0 then []
    else Unconnected(edges, id, n - 1) + (if Incoming(edges, id, n - 1).None? then [NoConnection(n - 1)] else [])
  }

  type Shown = (Option<seq<Value>>, seq<Issue>)

  function OnlyIssue(issue: Issue): Shown {
    (None, [issue])
  }

  function DueToField(env: Env, selector: FieldSelector): Shown {
    match Resolve(env.snapshot, selector)
    case None => OnlyIssue(Unresolved)
    case Some(r) =>
      if r.isString then OnlyIssue(TextField)
      else
        match ReadField(env.snapshot, r.field, r.multiplier, env.window, env.arith)
        case None => OnlyIssue(ReadFailed)
        case Some(rows) =>
          (Some([SignalValue(Signal(Times(rows), Values(rows), TopicTimeline(r.topic), r.units))]), [])
  }

  predicate IsLetter(c: char) {
    var n := c as int;
    65 <= n <= 90 || 97 <= n <= 122
  }

  /** An ASCII name of Python. */
  predicate IsName(s: string) {
    && s != "" && !Names.IsDigit(s[0])
    && forall c :: c in s ==> IsLetter(c) || Names.IsDigit(c) || c == '_'
  }

  /** The white space of Unicode. */
  predicate IsSpace(c: char) {
    c as int in {0x09, 0x0A, 0x0B, 0x0C, 0x0D, 0x20, 0x85, 0xA0, 0x1680, 0x2000, 0x2001, 0x2002, 0x2003, 0x2004, 0x2005,
                 0x2006, 0x2007, 0x2008, 0x2009, 0x200A, 0x2028, 0x2029, 0x202F, 0x205F, 0x3000}
  }

  lemma BlanksAreSpaces(c: char)
    ensures IsBlank(c) <==> IsSpace(c)
  {
  }

  /** A script that can be run has an output, some code, and different names for
      its inputs and for its outputs. */
  predicate Runs(s: ScriptSpec) {
    && |s.outputs| > 0 && !(forall c :: c in s.code ==> IsSpace(c))
    && (forall i :: 0 <= i < |s.inputs| ==> IsName(s.inputs[i]))
    && (forall i :: 0 <= i < |s.outputs| ==> IsName(s.outputs[i].name))
    && (forall i, j :: 0 <= i < j < |s.inputs| ==> s.inputs[i] != s.inputs[j])
    && (forall i, j :: 0 <= i < j < |s.outputs| ==> s.outputs[i].name != s.outputs[j].name)
  }

  lemma NamesAreIdentifiers(s: string)
    ensures IsIdentifier(s) <==> IsName(s)
  {
    if IsIdentifier(s) {
      forall c | c in s
        ensures IsLetter(c) || Names.IsDigit(c) || c == '_'
      {
        var i :| 0 <= i < |s| && s[i] == c;
      }
    } else if IsName(s) {
      assert s[0] in s;
      forall i | 0 <= i < |s|
        ensures 'a' <= s[i] <= 'z' || 'A' <= s[i] <= 'Z' || '0' <= s[i] <= '9' || s[i] == '_'
      {
        assert s[i] in s;
      }
    }
  }

  lemma SomeCode(s: string)
    ensures (exists i :: 0 <= i < |s| && !IsBlank(s[i])) <==> !(forall c :: c in s ==> IsSpace(c))
  {
    forall c
      ensures IsBlank(c) <==> IsSpace(c)
    {
      BlanksAreSpaces(c);
    }
    hide IsBlank, IsSpace;
    if i :| 0 <= i < |s| && !IsBlank(s[i]) {
      assert s[i] in s;
    }
  }

  lemma ValidScriptRuns(s: ScriptSpec)
    ensures ValidScript(s) <==> Runs(s)
  {
    hide IsIdentifier, IsName, IsBlank, IsSpace;
    SomeCode(s.code);
    forall i | 0 <= i < |s.inputs|
      ensures IsIdentifier(s.inputs[i]) <==> IsName(s.inputs[i])
    {
      NamesAreIdentifiers(s.inputs[i]);
    }
    forall i | 0 <= i < |s.outputs|
      ensures IsIdentifier(FieldNames(s.outputs)[i]) <==> IsName(s.outputs[i].name)
    {
      NamesAreIdentifiers(s.outputs[i].name);
    }
    assert |FieldNames(s.outputs)| == |s.outputs|;
    assert forall i :: 0 <= i < |s.outputs| ==> FieldNames(s.outputs)[i] == s.outputs[i].name;
  }

  /** The host is given the script's code and its inputs by name, and its answer
      is bound to timelines. */
  function DueToScript(env: Env, id: NodeId, s: ScriptSpec, inputs: seq<Value>): Shown
    requires |inputs| == |s.inputs|
  {
    if !Runs(s) then OnlyIssue(BadScript)
    else if env.host.None? then OnlyIssue(NoHost)
    else
      var request := ScriptRequest(
                       if s.name == "" then "Script" else s.name, s.code,
                       seq(|inputs|, i requires 0 <= i < |inputs| => (s.inputs[i], inputs[i])),
                       seq(|s.outputs|, i requires 0 <= i < |s.outputs| => s.outputs[i].name));
      match env.host.value(request)
      case Err(message) => OnlyIssue(ScriptFailed(message))
      case Ok(raw) =>
        if |raw| != |s.outputs| || BoundOutputs(id, s.outputs, inputs, raw, |raw|).None? then OnlyIssue(BadOutputs)
        else (Some(BoundOutputs(id, s.outputs, inputs, raw, |raw|).value), [])
  }

  function DueToInputs(env: Env, node: Node, inputs: seq<Value>): Shown
    requires |inputs| == |Inputs(node.kind)|
  {
    match node.kind
    case Output(_, _) => (None, [])
    case Script(s) => DueToScript(env, node.id, s, inputs)
    case k =>
      if k.ScaleOffset? && (k.multiplier.Gap? || k.offset.Gap?) then OnlyIssue(NotFinite)
      else
        match EvaluateKernel(k, inputs, env.arith)
        case Err(issue) => OnlyIssue(issue)
        case Ok((value, issues)) => (Some([value]), issues)
  }

  function Due(env: Env, edges: seq<Edge>, node: Node, values: map<NodeId, seq<Value>>): Shown {
    match node.kind
    case Unknown(_) => OnlyIssue(UnknownKind)
    case Constant(v) => if v.Gap? then OnlyIssue(NotFinite) else (Some([ScalarValue(v)]), [])
    case DataField(selector) => DueToField(env, selector)
    case k =>
      var n := |Inputs(k)|;
      match FedInputs(values, edges, node.id, n)
      case None => (None, Unconnected(edges, node.id, n))
      case Some(inputs) => DueToInputs(env, node, inputs)
  }

  // ----- One step -----

  lemma {:induction false} GatheredIsFed(edges: seq<Edge>, id: NodeId, n: nat, values: map<NodeId, seq<Value>>,
                                         fps: map<NodeId, Fingerprint>)
    requires values.Keys == fps.Keys
    ensures var r := Gather(edges, id, n, values, fps);
            && r.issues == Unconnected(edges, id, n)
            && match FedInputs(values, edges, id, n)
               case None => r.blocked
               case Some(inputs) => !r.blocked && r.inputs == inputs
  {
    hide Incoming;
    if n > 0 {
      GatheredIsFed(edges, id, n - 1, values, fps);
    }
  }

  /** What a plan and its outcome are to show. */
  function Planned(env: Env, p: Plan): Shown {
    match p
    case Skip(issues) => (None, issues)
    case Go(_, task) =>
      match Compute(env, task)
      case Err(issue) => OnlyIssue(issue)
      case Ok((value, issues)) => (Some(value), issues)
  }

  lemma InputsPlanned(env: Env, node: Node, g: Gathered)
    requires !g.blocked && |g.inputs| == |Inputs(node.kind)|
    requires !node.kind.DataField? && !node.kind.Constant? && !node.kind.Unknown?
    ensures Planned(env, PlanInputs(node.id, node.kind, g)) == DueToInputs(env, node, g.inputs)
  {
    hide BoundOutputs, ValidScript, Runs;
    var k := node.kind;
    if k.Script? {
      var s := k.script;
      ValidScriptRuns(s);
      assert |g.inputs| == |s.inputs|;
      var request := RequestFor(s, g.inputs);
      assert request.inputs == seq(|g.inputs|, i requires 0 <= i < |g.inputs| => (s.inputs[i], g.inputs[i]));
      assert request.outputs == seq(|s.outputs|, i requires 0 <= i < |s.outputs| => s.outputs[i].name);
    }
  }

  lemma PlannedIsDue(env: Env, edges: seq<Edge>, node: Node, values: map<NodeId, seq<Value>>,
                     fps: map<NodeId, Fingerprint>)
    requires values.Keys == fps.Keys
    ensures Planned(env, PlanNode(env, edges, node, values, fps)) == Due(env, edges, node, values)
  {
    hide PlanInputs, DueToInputs, Gather, Resolve, ReadField;
    var k := node.kind;
    if !k.DataField? && !k.Constant? && !k.Unknown? {
      var g := Gather(edges, node.id, |Inputs(k)|, values, fps);
      GatheredIsFed(edges, node.id, |Inputs(k)|, values, fps);
      if g.blocked {
        BlockedPlan(node.id, k, g);
      } else {
        InputsPlanned(env, node, g);
      }
    }
  }

  lemma BlockedPlan(id: NodeId, k: NodeKind, g: Gathered)
    requires g.blocked
    ensures PlanInputs(id, k, g) == Skip(g.issues)
  {
  }

  /** A step shows of its node what is due. */
  lemma StepShowsDue(env: Env, g: GraphState, node: Node, st: State)
    requires FindNode(g.nodes, node.id) == Some(node) && st.report.values.Keys == st.fps.Keys
    requires Said(st, node.id) == (None, []) && node.id !in st.cache
    ensures Said(Step(env, g, node.id, st), node.id) == Due(env, g.edges, node, st.report.values)
  {
    hide PlanNode, Compute, Due;
    PlannedIsDue(env, g.edges, node, st.report.values, st.fps);
    var p := PlanNode(env, g.edges, node, st.report.values, st.fps);
    match p
    case Skip(issues) => ReportedSays(st, node.id, issues);
    case Go(fp, task) =>
      match Compute(env, task)
      case Err(issue) => ReportedSays(st, node.id, [issue]);
      case Ok((value, issues)) => SaidWithValue(st, node.id, fp, value, issues);
  }

  lemma ReportedSays(st: State, id: NodeId, issues: seq<Issue>)
    requires Said(st, id) == (None, [])
    ensures Said(Reported(st, id, issues), id) == (None, issues)
  {
    IssuesOfBoth(st.report.issues, At(id, issues), id);
    IssuesOfAt(id, issues, id);
    assert [] + issues == issues;
  }

  // ----- The whole report -----

  lemma {:induction false} ValuesHaveFps(env: Env, g: GraphState, order: seq<NodeId>)
    ensures var st := Steps(env, g, order, map[]); st.report.values.Keys == st.fps.Keys
  {
    hide PlanNode, Compute;
    if order != [] {
      ValuesHaveFps(env, g, order[..|order| - 1]);
    }
  }

  /** Two sets of values that agree at the nodes upstream make the same due. */
  lemma {:induction false} SameFed(a: map<NodeId, seq<Value>>, b: map<NodeId, seq<Value>>, edges: seq<Edge>, id: NodeId,
                                   n: nat)
    requires forall e :: e in edges && e.to == id ==>
               (e.from in a <==> e.from in b) && (e.from in a ==> a[e.from] == b[e.from])
    ensures FedInputs(a, edges, id, n) == FedInputs(b, edges, id, n)
  {
    if n > 0 {
      SameFed(a, b, edges, id, n - 1);
      var i := EdgeIndex(edges, id, n - 1);
      assert i < |edges| ==> edges[i] in edges;
    }
  }

  lemma SameDue(env: Env, edges: seq<Edge>, node: Node, a: map<NodeId, seq<Value>>, b: map<NodeId, seq<Value>>)
    requires forall e :: e in edges && e.to == node.id ==>
               (e.from in a <==> e.from in b) && (e.from in a ==> a[e.from] == b[e.from])
    ensures Due(env, edges, node, a) == Due(env, edges, node, b)
  {
    hide DueToInputs, DueToField, Inputs, FedInputs, Unconnected;
    SameFed(a, b, edges, node.id, |Inputs(node.kind)|);
  }

  /** What an evaluation from an empty cache reports, node by node: of each node
      that it gets to what is due to it, given the values in the report itself,
      and of any other node nothing. A cycle is all that it reports if there is
      one upstream of a target. */
  lemma ReportSolves(r: Request, id: NodeId)
    ensures var report := Evaluate(r.env, r.graph, r.targets, r.cancelAfter, map[]).0;
            match EvalOrder.Order(r.graph, r.targets)
            case Err(n) => report == Report(map[], [(n, HasCycle)])
            case Ok(w) =>
              && Visits(r) == w.order[..if r.cancelAfter < |w.order| then r.cancelAfter else |w.order|]
              && var value := if id in report.values then Some(report.values[id]) else None;
                 var shown := (value, IssuesOf(report.issues, id));
                 if id in Visits(r) then
                   && FindNode(r.graph.nodes, id).Some?
                   && shown == Due(r.env, r.graph.edges, FindNode(r.graph.nodes, id).value, report.values)
                 else shown == (None, [])
  {
    hide Steps, Due;
    if EvalOrder.Order(r.graph, r.targets).Ok? {
      var visits := Visits(r);
      assert visits[..|visits|] == visits;
      if id in visits {
        var k :| 0 <= k < |visits| && visits[k] == id;
        VisitShowsDue(r, k);
      } else {
        UnseenSaysNothing(r.env, r.graph, visits, map[], id);
      }
    }
  }

  lemma VisitShowsDue(r: Request, k: nat)
    requires k < |Visits(r)|
    ensures var id, st := Visits(r)[k], Steps(r.env, r.graph, Visits(r), map[]);
            && FindNode(r.graph.nodes, id).Some?
            && Said(st, id) == Due(r.env, r.graph.edges, FindNode(r.graph.nodes, id).value, st.report.values)
  {
    hide Visits, Steps, Due, Step;
    var visits, id := Visits(r), Visits(r)[k];
    var before, last := Steps(r.env, r.graph, visits[..k], map[]), Steps(r.env, r.graph, visits, map[]);
    NotYetVisited(r, k);
    UnseenSaysNothing(r.env, r.graph, visits[..k], map[], id);
    ValuesHaveFps(r.env, r.graph, visits[..k]);
    VisitExists(r, k);
    var node := FindNode(r.graph.nodes, id).value;
    StepShowsDue(r.env, r.graph, node, before);
    OneMoreStep(r.env, r.graph, visits, k, map[]);
    forall l | k + 1 <= l < |visits|
      ensures visits[l] != id
    {
      VisitedOnce(r, k, l);
    }
    OthersUnsaidLater(r.env, r.graph, visits, k + 1, map[], id);
    forall e | e in r.graph.edges && e.to == id
      ensures Said(before, e.from) == Said(last, e.from)
    {
      UpstreamSaidBefore(r, k, e);
    }
    SameDue(r.env, r.graph.edges, node, before.report.values, last.report.values);
  }

  lemma VisitExists(r: Request, k: nat)
    requires k < |Visits(r)|
    ensures FindNode(r.graph.nodes, Visits(r)[k]).Some?
  {
    EvalOrder.OrderIsGood(r.graph, r.targets);
    assert Visits(r)[k] in EvalOrder.Order(r.graph, r.targets).value.order;
  }

  /** What the report says of a node upstream is settled before. */
  lemma UpstreamSaidBefore(r: Request, k: nat, e: Edge)
    requires k < |Visits(r)| && e in r.graph.edges && e.to == Visits(r)[k]
    ensures Said(Steps(r.env, r.graph, Visits(r)[..k], map[]), e.from)
         == Said(Steps(r.env, r.graph, Visits(r), map[]), e.from)
  {
    hide Steps, Said;
    var visits, order := Visits(r), EvalOrder.Order(r.graph, r.targets).value.order;
    EvalOrder.TopologicalOrder(r.graph, r.targets);
    EvalOrder.ListedOnceAfterInputs(r.graph, order, k);
    if FindNode(r.graph.nodes, e.from).Some? {
      assert e.from in order[..k] && order[..k] == visits[..k];
      var j :| 0 <= j < k && visits[j] == e.from;
      forall l | k <= l < |visits|
        ensures visits[l] != e.from
      {
        VisitedOnce(r, j, l);
      }
      OthersUnsaidLater(r.env, r.graph, visits, k, map[], e.from);
    } else {
      forall l | 0 <= l < |visits|
        ensures visits[l] != e.from
      {
        VisitExists(r, l);
      }
      UnseenSaysNothing(r.env, r.graph, visits, map[], e.from);
      UnseenSaysNothing(r.env, r.graph, visits[..k], map[], e.from);
    }
  }

  // ----- The outputs of a script -----

  /** The first signal with these times is at `j`. */
  predicate FirstWithTimes(values: seq<Value>, times: seq<int>, j: nat) {
    && j < |values| && values[j].SignalValue? && values[j].signal.t == times
    && forall i :: 0 <= i < j && values[i].SignalValue? ==> values[i].signal.t != times
  }

  predicate NoneWithTimes(values: seq<Value>, times: seq<int>) {
    forall i :: 0 <= i < |values| && values[i].SignalValue? ==> values[i].signal.t != times
  }

  /** The first signal is at `j`, and all of them are on its timeline. */
  predicate OneTimeline(inputs: seq<Value>, j: nat) {
    && j < |inputs| && inputs[j].SignalValue?
    && (forall i :: 0 <= i < j ==> !inputs[i].SignalValue?)
    && (forall i :: 0 <= i < |inputs| && inputs[i].SignalValue? ==>
          inputs[i].signal.timeline == inputs[j].signal.timeline)
  }

  /** An output that can be bound: bare values need one timeline of that length,
      explicit times as many sorted ones. */
  ghost predicate Bindable(inputs: seq<Value>, out: ScriptOutput) {
    match out.times
    case None => exists j: nat :: OneTimeline(inputs, j) && |inputs[j].signal.v| == |out.values|
    case Some(times) => |times| == |out.values| && SortedTimes(times)
  }

  lemma {:induction false} WithTimesMeans(values: seq<Value>, times: seq<int>)
    ensures WithTimes(values, times).None? <==> NoneWithTimes(values, times)
    ensures forall j: nat :: FirstWithTimes(values, times, j) ==> WithTimes(values, times) == Some(values[j].signal)
    ensures WithTimes(values, times).Some? ==> exists j: nat :: FirstWithTimes(values, times, j)
  {
    if values != [] {
      var rest := values[1..];
      WithTimesMeans(rest, times);
      if values[0].SignalValue? && values[0].signal.t == times {
        assert FirstWithTimes(values, times, 0);
      } else {
        assert forall i :: 0 < i < |values| ==> values[i] == rest[i - 1];
        forall j: nat | FirstWithTimes(values, times, j)
          ensures WithTimes(values, times) == Some(values[j].signal)
        {
          assert FirstWithTimes(rest, times, j - 1);
        }
        if WithTimes(rest, times).Some? {
          var j: nat :| FirstWithTimes(rest, times, j);
          assert FirstWithTimes(values, times, j + 1);
        }
      }
    }
  }

  lemma {:induction false} FirstSignalMeans(values: seq<Value>, j: nat)
    requires j < |values| && values[j].SignalValue? && forall i :: 0 <= i < j ==> !values[i].SignalValue?
    ensures FirstSignal(values) == Some(values[j].signal)
  {
    if j > 0 {
      FirstSignalMeans(values[1..], j - 1);
    }
  }

  lemma {:induction false} NoSignalMeans(values: seq<Value>)
    ensures FirstSignal(values).Some? ==>
              exists j ::
                0 <= j < |values| && values[j].SignalValue? && forall i :: 0 <= i < j ==> !values[i].SignalValue?
  {
    if values != [] && !values[0].SignalValue? {
      NoSignalMeans(values[1..]);
      if FirstSignal(values).Some? {
        var j :| 0 <= j < |values[1..]| && values[1..][j].SignalValue?
                 && forall i :: 0 <= i < j ==> !values[1..][i].SignalValue?;
        assert values[j + 1].SignalValue? && forall i :: 0 <= i < j + 1 ==> !values[i].SignalValue? by {
          assert forall i :: 0 < i < j + 1 ==> values[i] == values[1..][i - 1];
        }
      }
    }
  }

  lemma SharedMeans(inputs: seq<Value>)
    ensures forall j: nat :: OneTimeline(inputs, j) ==> SharedTimeline(inputs) == Some(inputs[j].signal)
    ensures SharedTimeline(inputs).Some? ==> exists j: nat :: OneTimeline(inputs, j)
  {
    forall j: nat | OneTimeline(inputs, j)
      ensures SharedTimeline(inputs) == Some(inputs[j].signal)
    {
      FirstSignalMeans(inputs, j);
    }
    NoSignalMeans(inputs);
    if SharedTimeline(inputs).Some? {
      var j :| 0 <= j < |inputs| && inputs[j].SignalValue? && forall i :: 0 <= i < j ==> !inputs[i].SignalValue?;
      FirstSignalMeans(inputs, j);
      assert OneTimeline(inputs, j);
    }
  }

  /** The four rules: bare values take the timeline that all inputs share;
      explicit times that equal an input's or else an earlier output's take its
      timeline; others get one of their own. */
  ghost predicate TakesTimes(id: NodeId, inputs: seq<Value>, earlier: seq<Value>, out: ScriptOutput,
                             timeline: TimelineId, t: seq<int>) {
    match out.times
    case None => forall j: nat :: OneTimeline(inputs, j) ==>
      timeline == inputs[j].signal.timeline && t == inputs[j].signal.t
    case Some(times) =>
      && t == times
      && (forall j: nat :: FirstWithTimes(inputs, times, j) ==> timeline == inputs[j].signal.timeline)
      && (NoneWithTimes(inputs, times) ==>
            && (forall j: nat :: FirstWithTimes(earlier, times, j) ==> timeline == earlier[j].signal.timeline)
            && (NoneWithTimes(earlier, times) ==> timeline == OutputTimeline(id, |earlier| % 65536)))
  }

  lemma TimesMean(id: NodeId, inputs: seq<Value>, bound: seq<Value>, out: ScriptOutput)
    ensures OutputTimes(id, inputs, bound, out).Some? <==> Bindable(inputs, out)
    ensures OutputTimes(id, inputs, bound, out).Some? ==>
              var (timeline, t) := OutputTimes(id, inputs, bound, out).value;
              TakesTimes(id, inputs, bound, out, timeline, t)
  {
    hide WithTimes, FirstSignal;
    SharedMeans(inputs);
    if out.times.Some? {
      WithTimesMeans(inputs, out.times.value);
      WithTimesMeans(bound, out.times.value);
    }
  }

  /** Output `i` has the values that the script returned, the declared unit or else
      the returned one, and times and timeline by the four rules. */
  ghost predicate BoundSo(id: NodeId, outputs: seq<PortField>, inputs: seq<Value>, raw: seq<ScriptOutput>,
                          bound: seq<Value>, i: nat)
    requires |raw| == |outputs| && i < |bound| <= |outputs|
  {
    && bound[i].SignalValue?
    && var s := bound[i].signal;
    && s.v == raw[i].values
    && s.units == (if outputs[i].units.Some? then outputs[i].units else raw[i].units)
    && TakesTimes(id, inputs, bound[..i], raw[i], s.timeline, s.t)
  }

  lemma StaysBound(id: NodeId, outputs: seq<PortField>, inputs: seq<Value>, raw: seq<ScriptOutput>,
                   before: seq<Value>, last: Value, i: nat)
    requires |raw| == |outputs| && i < |before| < |outputs| && BoundSo(id, outputs, inputs, raw, before, i)
    ensures BoundSo(id, outputs, inputs, raw, before + [last], i)
  {
    assert (before + [last])[..i] == before[..i];
    hide TakesTimes;
  }

  /** How a script's outputs are bound: all of them if each can be, and each by the
      rules. */
  lemma {:induction false} OutputsAreBound(id: NodeId, outputs: seq<PortField>, inputs: seq<Value>,
                                           raw: seq<ScriptOutput>, n: nat)
    requires |raw| == |outputs| && n <= |outputs|
    ensures BoundOutputs(id, outputs, inputs, raw, n).Some? <==> forall i :: 0 <= i < n ==> Bindable(inputs, raw[i])
    ensures BoundOutputs(id, outputs, inputs, raw, n).Some? ==>
              forall i :: 0 <= i < n ==>
                BoundSo(id, outputs, inputs, raw, BoundOutputs(id, outputs, inputs, raw, n).value, i)
  {
    hide OutputTimes, Bindable, TakesTimes, BoundSo;
    if n > 0 {
      OutputsAreBound(id, outputs, inputs, raw, n - 1);
      var before := BoundOutputs(id, outputs, inputs, raw, n - 1);
      if before.Some? {
        TimesMean(id, inputs, before.value, raw[n - 1]);
        var bound := BoundOutputs(id, outputs, inputs, raw, n);
        if bound.Some? {
          LastBound(id, outputs, inputs, raw, n);
          forall i | 0 <= i < n - 1
            ensures BoundSo(id, outputs, inputs, raw, bound.value, i)
          {
            StaysBound(id, outputs, inputs, raw, before.value, bound.value[n - 1], i);
          }
        }
      }
    }
  }

  lemma LastBound(id: NodeId, outputs: seq<PortField>, inputs: seq<Value>, raw: seq<ScriptOutput>, n: nat)
    requires |raw| == |outputs| && 0 < n <= |outputs| && BoundOutputs(id, outputs, inputs, raw, n).Some?
    ensures var before := BoundOutputs(id, outputs, inputs, raw, n - 1);
            var bound := BoundOutputs(id, outputs, inputs, raw, n).value;
            && before.Some? && bound == before.value + [bound[n - 1]]
            && BoundSo(id, outputs, inputs, raw, bound, n - 1)
  {
    hide OutputTimes, Bindable, TakesTimes;
    var before := BoundOutputs(id, outputs, inputs, raw, n - 1).value;
    TimesMean(id, inputs, before, raw[n - 1]);
    assert BoundOutputs(id, outputs, inputs, raw, n).value[..n - 1] == before;
  }
}
