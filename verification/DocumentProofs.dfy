/** A saved graph loads back unchanged, and whatever loads is sound. */
module DocumentProofs {
  import opened Prelude
  import opened Json
  import opened GraphModel
  import opened GraphFacts
  import opened Documents

  // ----- Node kinds -----

  /** What a document keeps of a kind: the session's source binding is dropped. */
  function Erased(k: NodeKind): NodeKind {
    if k.DataField? then DataField(k.selector.(source := None)) else k
  }

  predicate Finite(k: NodeKind) {
    match k
    case DataField(s) => s.instance.Some? ==> s.instance.value <= U32_MAX
    case Constant(v) => v.Val?
    case ScaleOffset(m, b) => m.Val? && b.Val?
    case Filter(f) => f.threshold.Val? && f.upper.Val?
    case _ => true
  }

  /** `o` holds the settings of `k`, and else only what every node holds. */
  predicate Describes(o: Object, k: NodeKind) {
    && (forall key :: key in Settings(k) ==> key in o && o[key] == Settings(k)[key])
    && (forall key :: key in o ==> key in Settings(k) || key in {KType, KId, KPos})
  }

  lemma PortFieldBack(f: PortField)
    ensures AsPortField(PortFieldJson(f)) == Some(f)
  {
  }

  lemma PortFieldsBack(fields: seq<PortField>)
    ensures AsPortFields(Some(PortFieldsJson(fields))) == Some(fields)
  {
    var items := PortFieldsJson(fields).items;
    forall i | 0 <= i < |fields|
      ensures AsPortField(items[i]) == Some(fields[i])
    {
      PortFieldBack(fields[i]);
    }
    assert AsPortFields(Some(PortFieldsJson(fields))).value == fields;
  }

  lemma InputsBack(names: seq<string>)
    ensures AsInputs(Some(InputsJson(names))) == Some(names)
  {
    var items := InputsJson(names).items;
    forall i | 0 <= i < |names|
      ensures AsInput(items[i]) == Some(names[i])
    {
    }
    assert AsInputs(Some(InputsJson(names))).value == names;
  }

  lemma DataFieldBack(o: Object, k: NodeKind)
    requires k.DataField? && Finite(k) && Describes(o, k)
    ensures ReadKind(o, Tag(k)) == Some(Erased(k))
  {
  }

  lemma NumbersBack(o: Object, k: NodeKind)
    requires (k.Constant? || k.ScaleOffset?) && Finite(k) && Describes(o, k)
    ensures ReadKind(o, Tag(k)) == Some(k)
  {
    if k.Constant? {
      assert o[KValue] == NumJson(k.constant);
    } else {
      assert o[KMultiplier] == NumJson(k.multiplier) && o[KOffset] == NumJson(k.offset);
    }
  }

  lemma OperatorsBack(o: Object, k: NodeKind)
    requires k.Add? || k.Subtract? || k.Multiply? || k.Divide?
    ensures ReadKind(o, Tag(k)) == Some(k)
  {
  }

  lemma ConvertBack(o: Object, k: NodeKind)
    requires k.Convert? && Describes(o, k)
    ensures ReadKind(o, Tag(k)) == Some(k)
  {
    ConversionNames(k.conversion);
    assert o[KConversion] == JStr(ConversionName(k.conversion));
    assert ReadKind(o, Tag(k)) == ReadConvert(o);
  }

  lemma AlignBack(o: Object, k: NodeKind)
    requires k.Align? && Describes(o, k)
    ensures ReadKind(o, Tag(k)) == Some(k)
  {
    AlignNames(k.mode);
    assert o[KMode] == JStr(AlignName(k.mode));
    assert ReadKind(o, Tag(k)) == ReadAlign(o);
  }

  lemma FilterBack(o: Object, k: NodeKind)
    requires k.Filter? && Finite(k) && Describes(o, k)
    ensures ReadKind(o, Tag(k)) == Some(k)
  {
    FilterNames(k.spec.filter);
    assert o[KFilter] == JStr(FilterName(k.spec.filter));
    assert o[KValue] == NumJson(k.spec.threshold) && o[KUpper] == NumJson(k.spec.upper);
    assert o[KInclusive] == JBool(k.spec.inclusive);
    assert ReadKind(o, Tag(k)) == ReadFilter(o);
  }

  lemma OutputBack(o: Object, k: NodeKind)
    requires k.Output? && Describes(o, k)
    ensures ReadKind(o, Tag(k)) == Some(k)
  {
    PortFieldsBack(k.fields);
    assert o[KTopic] == JStr(k.topic) && o[KFields] == PortFieldsJson(k.fields);
    assert ReadKind(o, Tag(k)) == ReadOutput(o);
  }

  lemma ScriptBack(o: Object, k: NodeKind)
    requires k.Script? && Describes(o, k)
    ensures ReadKind(o, Tag(k)) == Some(k)
  {
    PortFieldsBack(k.script.outputs);
    InputsBack(k.script.inputs);
    assert o[KName] == JStr(k.script.name) && o[KCode] == JStr(k.script.code);
    assert o[KInputs] == InputsJson(k.script.inputs) && o[KOutputs] == PortFieldsJson(k.script.outputs);
    assert ReadKind(o, Tag(k)) == ReadScript(o);
  }

  /** Reading a written kind gives it back. */
  lemma KindBack(o: Object, k: NodeKind)
    requires !k.Unknown? && Finite(k) && Describes(o, k)
    ensures ReadKind(o, Tag(k)) == Some(Erased(k))
  {
    match k
    case DataField(_) => DataFieldBack(o, k);
    case Constant(_) => NumbersBack(o, k);
    case ScaleOffset(_, _) => NumbersBack(o, k);
    case Convert(_) => ConvertBack(o, k);
    case Align(_) => AlignBack(o, k);
    case Filter(_) => FilterBack(o, k);
    case Output(_, _) => OutputBack(o, k);
    case Script(_) => ScriptBack(o, k);
    case _ => OperatorsBack(o, k);
  }

  // ----- Kinds are told apart by their JSON -----

  function TagNumber(s: string): nat {
    if s == "data_field" then 1
    else if s == "constant" then 2
    else if s == "add" then 3
    else if s == "subtract" then 4
    else if s == "multiply" then 5
    else if s == "divide" then 6
    else if s == "scale_offset" then 7
    else if s == "convert" then 8
    else if s == "align" then 9
    else if s == "filter" then 10
    else if s == "output" then 11
    else if s == "script" then 12
    else 0
  }

  function KindNumber(k: NodeKind): nat {
    match k
    case DataField(_) => 1
    case Constant(_) => 2
    case Add => 3
    case Subtract => 4
    case Multiply => 5
    case Divide => 6
    case ScaleOffset(_, _) => 7
    case Convert(_) => 8
    case Align(_) => 9
    case Filter(_) => 10
    case Output(_, _) => 11
    case Script(_) => 12
    case Unknown(_) => 0
  }

  lemma TagsAreDistinct(k: NodeKind)
    ensures TagNumber(Tag(k)) == KindNumber(k)
  {
  }

  lemma SettingsTellApart(k: NodeKind, l: NodeKind)
    requires KindNumber(k) == KindNumber(l) && !k.Unknown? && Settings(k) == Settings(l)
    ensures Erased(k) == Erased(l)
  {
    match k
    case DataField(s) =>
      assert KInstance in Settings(k) <==> s.instance.Some?;
      assert KInstance in Settings(l) <==> l.selector.instance.Some?;
      assert Settings(k)[KTopic] == Settings(l)[KTopic] && Settings(k)[KField] == Settings(l)[KField];
    case Constant(_) => assert Settings(k)[KValue] == Settings(l)[KValue];
    case ScaleOffset(_, _) =>
      assert Settings(k)[KMultiplier] == Settings(l)[KMultiplier] && Settings(k)[KOffset] == Settings(l)[KOffset];
    case Convert(c) =>
      assert Settings(k)[KConversion] == Settings(l)[KConversion];
      ConversionNames(c);
      ConversionNames(l.conversion);
    case Align(m) =>
      assert Settings(k)[KMode] == Settings(l)[KMode];
      AlignNames(m);
      AlignNames(l.mode);
    case Filter(f) =>
      assert Settings(k)[KFilter] == Settings(l)[KFilter] && Settings(k)[KValue] == Settings(l)[KValue];
      assert Settings(k)[KUpper] == Settings(l)[KUpper] && Settings(k)[KInclusive] == Settings(l)[KInclusive];
      FilterNames(f.filter);
      FilterNames(l.spec.filter);
    case Output(_, fields) =>
      assert Settings(k)[KTopic] == Settings(l)[KTopic] && Settings(k)[KFields] == Settings(l)[KFields];
      PortFieldsBack(fields);
      PortFieldsBack(l.fields);
    case Script(s) =>
      assert Settings(k)[KName] == Settings(l)[KName] && Settings(k)[KCode] == Settings(l)[KCode];
      assert Settings(k)[KInputs] == Settings(l)[KInputs] && Settings(k)[KOutputs] == Settings(l)[KOutputs];
      PortFieldsBack(s.outputs);
      PortFieldsBack(l.script.outputs);
      InputsBack(s.inputs);
      InputsBack(l.script.inputs);
    case _ =>
  }

  /** Two kinds with the same JSON differ at most in a source binding. */
  lemma KindJsonTellsApart(k: NodeKind, l: NodeKind)
    requires !k.Unknown? && !l.Unknown? && KindJson(k) == KindJson(l)
    ensures Erased(k) == Erased(l)
  {
    hide Erased, Settings, Tag, TagNumber, KindNumber;
    var o, p := KindJson(k).entries, KindJson(l).entries;
    assert o[KType] == JStr(Tag(k)) && p[KType] == JStr(Tag(l));
    TagsAreDistinct(k);
    TagsAreDistinct(l);
    SettingsStayApart(k);
    SettingsStayApart(l);
    assert Settings(k) == o - {KType} && Settings(l) == p - {KType};
    SettingsTellApart(k, l);
  }

  lemma SettingsStayApart(k: NodeKind)
    requires !k.Unknown?
    ensures {KType, KId, KPos} !! Settings(k).Keys
  {
    hide PortFieldsJson, InputsJson, NumJson;
  }

  // ----- Nodes and edges -----

  /** An unknown node as loading produces it: the whole object it came from. */
  predicate LoadedForm(n: Node) {
    && n.kind.Unknown? && n.kind.raw.JObj?
    && var o := n.kind.raw.entries;
    && Get(o, KId) == Some(JInt(n.id)) && Get(o, KPos) == Some(PosJson(n.pos))
    && AsStr(Get(o, KType)).Some? && TagNumber(AsStr(Get(o, KType)).value) == 0
  }

  function ErasedNode(n: Node): Node {
    n.(kind := Erased(n.kind))
  }

  lemma UnknownNodeBack(n: Node)
    requires n.kind.Unknown? && LoadedForm(n)
    ensures ReadNode(NodeJson(n)) == Some(ErasedNode(n))
  {
    var o := NodeJson(n).entries;
    assert o == n.kind.raw.entries;
    assert ReadPair(Get(o, KPos)) == Some((n.pos.x, n.pos.y));
  }

  lemma KnownNodeBack(n: Node)
    requires !n.kind.Unknown? && Finite(n.kind)
    ensures ReadNode(NodeJson(n)) == Some(ErasedNode(n))
  {
    hide ReadKind, Erased, Finite, Settings, Tag;
    var o := NodeJson(n).entries;
    SettingsStayApart(n.kind);
    assert Describes(o, n.kind);
    assert o[KId] == JInt(n.id) && o[KPos] == PosJson(n.pos);
    assert ReadPair(Get(o, KPos)) == Some((n.pos.x, n.pos.y));
    assert o[KType] == JStr(Tag(n.kind));
    KindBack(o, n.kind);
  }

  lemma NodeBack(n: Node)
    requires if n.kind.Unknown? then LoadedForm(n) else Finite(n.kind)
    ensures ReadNode(NodeJson(n)) == Some(ErasedNode(n))
  {
    if n.kind.Unknown? {
      UnknownNodeBack(n);
    } else {
      KnownNodeBack(n);
    }
  }

  predicate NarrowPorts(e: Edge) {
    e.fromPort <= U32_MAX && e.toPort <= U32_MAX
  }

  lemma EdgeBack(e: Edge)
    requires NarrowPorts(e)
    ensures ReadEdge(EdgeJson(e)) == Some(e)
  {
  }

  // ----- Adding the edges of a document -----

  /** An edge whose ports exist as far as its nodes are known. */
  ghost predicate FitsPorts(nodes: seq<Node>, e: Edge) {
    var from, to := FindNode(nodes, e.from), FindNode(nodes, e.to);
    && from.Some? && to.Some?
    && if !from.value.kind.Unknown? && !to.value.kind.Unknown? then WellTyped(nodes, e)
       else
         && (!from.value.kind.Unknown? ==> e.fromPort < |Outputs(from.value.kind)|)
         && (!to.value.kind.Unknown? ==> e.toPort < |Inputs(to.value.kind)|)
  }

  lemma LoadableIsExact(g: GraphState, e: Edge)
    requires Sound(g)
    ensures Loadable(g, e) <==> FitsPorts(g.nodes, e) && Sound(g.(edges := g.edges + [e]))
  {
    VerdictIsExact(g, e);
    AppendedOccupancy(g.edges, e);
    AddedEdgeKeepsRank(g.edges, e, g.edges + [e]);
    ReachSelf(g.edges, e.to);
    if FitsPorts(g.nodes, e) {
      assert EndpointsExist(g.(edges := g.edges + [e]));
    }
  }

  lemma {:induction false} LoadedEdgesSound(g: GraphState, edges: seq<Edge>)
    requires Sound(g) && LoadedEdges(g, edges).Some?
    ensures var h := LoadedEdges(g, edges).value;
            && Sound(h) && h.nodes == g.nodes && h.nextId == g.nextId && h.edges == g.edges + edges
            && forall e :: e in edges ==> FitsPorts(g.nodes, e)
  {
    if edges != [] {
      var n := |edges| - 1;
      LoadedEdgesSound(g, edges[..n]);
      LoadableIsExact(LoadedEdges(g, edges[..n]).value, edges[n]);
      LastAppended(g.edges, edges);
    }
  }

  lemma LastAppended(a: seq<Edge>, b: seq<Edge>)
    requires b != []
    ensures a + b == (a + b[..|b| - 1]) + [b[|b| - 1]]
    ensures forall e :: e in b ==> e in b[..|b| - 1] || e == b[|b| - 1]
  {
  }

  lemma PartIsSound(g: GraphState, part: seq<Edge>)
    requires Sound(g) && part <= g.edges
    ensures Sound(g.(edges := part))
  {
    RankedPart(g.edges, part);
  }

  /** The edges of a sound graph can be added again exactly when they fit. */
  lemma {:induction false} LoadedEdgesExact(g: GraphState, edges: seq<Edge>)
    requires Sound(g.(edges := edges)) && g.edges == []
    ensures LoadedEdges(g, edges).Some? <==> forall e :: e in edges ==> FitsPorts(g.nodes, e)
  {
    hide Sound, FitsPorts, Loadable;
    PartIsSound(g.(edges := edges), []);
    assert g.(edges := []) == g;
    if edges != [] {
      var n := |edges| - 1;
      PartIsSound(g.(edges := edges), edges[..n]);
      LoadedEdgesExact(g, edges[..n]);
      assert edges == edges[..n] + [edges[n]];
      if LoadedEdges(g, edges[..n]).Some? {
        LoadedEdgesSound(g, edges[..n]);
        var before := LoadedEdges(g, edges[..n]).value;
        assert before == g.(edges := edges[..n]);
        assert before.edges + [edges[n]] == edges;
        LoadableIsExact(before, edges[n]);
      }
    }
  }

  // ----- Documents -----

  function ErasedNodes(nodes: seq<Node>): (r: seq<Node>)
    ensures |r| == |nodes| && forall i :: 0 <= i < |nodes| ==> r[i] == ErasedNode(nodes[i])
  {
    seq(|nodes|, i requires 0 <= i < |nodes| => ErasedNode(nodes[i]))
  }

  lemma {:induction false} FindErased(nodes: seq<Node>, id: NodeId)
    ensures FindNode(ErasedNodes(nodes), id)
         == if FindNode(nodes, id).Some? then Some(ErasedNode(FindNode(nodes, id).value)) else None
  {
    if nodes != [] {
      assert ErasedNodes(nodes)[1..] == ErasedNodes(nodes[1..]);
      FindErased(nodes[1..], id);
    }
  }

  lemma ErasedFits(nodes: seq<Node>, e: Edge)
    ensures FitsPorts(ErasedNodes(nodes), e) <==> FitsPorts(nodes, e)
    ensures FindNode(ErasedNodes(nodes), e.from).Some? <==> FindNode(nodes, e.from).Some?
    ensures FindNode(ErasedNodes(nodes), e.to).Some? <==> FindNode(nodes, e.to).Some?
  {
    FindErased(nodes, e.from);
    FindErased(nodes, e.to);
  }

  lemma ErasedIdsCovered(g: GraphState)
    requires IdsCovered(g)
    ensures forall n :: n in ErasedNodes(g.nodes) ==> NextAfter(n.id) <= g.nextId
  {
    var nodes := ErasedNodes(g.nodes);
    forall n | n in nodes
      ensures NextAfter(n.id) <= g.nextId
    {
      var i :| 0 <= i < |nodes| && nodes[i] == n;
      assert g.nodes[i] in g.nodes;
    }
  }

  lemma ErasedGraphSound(g: GraphState)
    requires Sound(g)
    ensures Sound(g.(nodes := ErasedNodes(g.nodes)))
  {
    var h := g.(nodes := ErasedNodes(g.nodes));
    ErasedIdsCovered(g);
    forall e | e in h.edges
      ensures FindNode(h.nodes, e.from).Some? && FindNode(h.nodes, e.to).Some?
    {
      ErasedFits(g.nodes, e);
    }
  }

  lemma {:induction false} NextIdBack(nodes: seq<Node>, nextId: nat)
    requires 1 <= nextId && forall n :: n in nodes ==> NextAfter(n.id) <= nextId
    ensures LoadedNextId(nodes, nextId) == nextId
  {
    if nodes != [] {
      NextIdBack(nodes[..|nodes| - 1], nextId);
    }
  }

  lemma {:induction false} NextIdCovers(nodes: seq<Node>, serialized: nat)
    ensures forall n :: n in nodes ==> NextAfter(n.id) <= LoadedNextId(nodes, serialized)
    ensures serialized <= LoadedNextId(nodes, serialized)
  {
    if nodes != [] {
      var i := |nodes| - 1;
      NextIdCovers(nodes[..i], serialized);
      assert forall n :: n in nodes ==> n in nodes[..i] || n == nodes[i];
    }
  }

  /** What can be written down: finite numbers, unknown nodes as loaded, ids
      and ports that fit their integer types. */
  ghost predicate Writable(d: Document) {
    && d.viewport.zoom > 0.0
    && 1 <= d.graph.nextId <= U64_MAX
    && (forall n :: n in d.graph.nodes ==> if n.kind.Unknown? then LoadedForm(n) else Finite(n.kind))
    && (forall e :: e in d.graph.edges ==> NarrowPorts(e))
  }

  lemma NodesBack(nodes: seq<Node>, items: seq<Json>)
    requires |items| == |nodes| && forall i :: 0 <= i < |nodes| ==> items[i] == NodeJson(nodes[i])
    requires forall n :: n in nodes ==> if n.kind.Unknown? then LoadedForm(n) else Finite(n.kind)
    ensures ReadNodes(items) == Some(ErasedNodes(nodes))
  {
    forall i | 0 <= i < |nodes|
      ensures ReadNode(items[i]) == Some(ErasedNodes(nodes)[i])
    {
      assert nodes[i] in nodes;
      NodeBack(nodes[i]);
    }
    assert ReadNodes(items).value == ErasedNodes(nodes);
  }

  lemma EdgesBack(edges: seq<Edge>, items: seq<Json>)
    requires |items| == |edges| && forall i :: 0 <= i < |edges| ==> items[i] == EdgeJson(edges[i])
    requires forall e :: e in edges ==> NarrowPorts(e)
    ensures ReadEdges(items) == Some(edges)
  {
    forall i | 0 <= i < |edges|
      ensures ReadEdge(items[i]) == Some(edges[i])
    {
      assert edges[i] in edges;
      EdgeBack(edges[i]);
    }
    assert ReadEdges(items).value == edges;
  }

  lemma ViewportBack(v: Viewport, o: Object)
    requires v.zoom > 0.0
    requires o == map[KOffset := JArr([JFloat(v.x), JFloat(v.y)]), KZoom := JFloat(v.zoom)]
    ensures ReadViewport(Some(JObj(o))) == Some(v)
  {
    assert ReadPair(Get(o, KOffset)) == Some((v.x, v.y));
  }

  lemma FieldsBack(d: Document)
    requires Sound(d.graph) && Writable(d)
    ensures var o := ToJson(d).entries;
            && KNodes in o && o[KNodes].JArr? && ReadNodes(o[KNodes].items) == Some(ErasedNodes(d.graph.nodes))
            && KEdges in o && o[KEdges].JArr? && ReadEdges(o[KEdges].items) == Some(d.graph.edges)
            && ReadViewport(Get(o, KViewport)) == Some(d.viewport)
  {
    var o := ToJson(d).entries;
    NodesBack(d.graph.nodes, o[KNodes].items);
    EdgesBack(d.graph.edges, o[KEdges].items);
    ViewportBack(d.viewport, o[KViewport].entries);
  }

  lemma IdsBack(g: GraphState)
    requires Sound(g) && 1 <= g.nextId
    ensures LoadedNextId(ErasedNodes(g.nodes), g.nextId) == g.nextId
    ensures NoRepeatedId(ErasedNodes(g.nodes))
  {
    ErasedIdsCovered(g);
    NextIdBack(ErasedNodes(g.nodes), g.nextId);
  }

  lemma PartsBack(d: Document)
    requires Sound(d.graph) && Writable(d)
    ensures ReadParts(ToJson(d))
         == Ok(Parts(d.name, d.viewport, ErasedNodes(d.graph.nodes), d.graph.edges, d.graph.nextId))
  {
    hide ReadNode, NodeJson, ReadEdge, EdgeJson;
    FieldsBack(d);
    IdsBack(d.graph);
  }

  /** Round trip: the document of a sound graph loads exactly when every edge
      fits the ports of its known nodes, and then it loads as the same graph,
      in the same order, without the session's source bindings. */
  lemma DocumentRoundTrip(d: Document)
    requires Sound(d.graph) && Writable(d)
    ensures FromJson(ToJson(d)).Ok? <==> forall e :: e in d.graph.edges ==> FitsPorts(d.graph.nodes, e)
    ensures FromJson(ToJson(d)).Ok? ==>
      FromJson(ToJson(d)).value == d.(graph := d.graph.(nodes := ErasedNodes(d.graph.nodes)))
  {
    PartsBack(d);
    ErasedGraphSound(d.graph);
    forall e
      ensures FitsPorts(ErasedNodes(d.graph.nodes), e) <==> FitsPorts(d.graph.nodes, e)
    {
      ErasedFits(d.graph.nodes, e);
    }
    var g := GraphState(ErasedNodes(d.graph.nodes), [], d.graph.nextId);
    assert g.(edges := d.graph.edges) == d.graph.(nodes := ErasedNodes(d.graph.nodes));
    LoadedEdgesExact(g, d.graph.edges);
    if LoadedEdges(g, d.graph.edges).Some? {
      PartIsSound(g.(edges := d.graph.edges), []);
      LoadedEdgesSound(g, d.graph.edges);
    }
  }

  /** Whatever loads is sound, and its edges fit their ports. */
  lemma LoadedIsSound(j: Json)
    requires FromJson(j).Ok?
    ensures var g := FromJson(j).value.graph;
            Sound(g) && forall e :: e in g.edges ==> FitsPorts(g.nodes, e)
  {
    var p := ReadParts(j).value;
    var g := GraphState(p.nodes, [], p.nextId);
    NextIdCovers(p.nodes, AsNat(Get(j.entries, KNextId), U64_MAX).value);
    assert IsRank((n: NodeId) => 0, []);
    assert Sound(g);
    LoadedEdgesSound(g, p.edges);
  }
}
