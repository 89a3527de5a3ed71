/** Saving a data-flow graph as JSON and loading it again. */
module Documents {
  import opened Prelude
  import opened Json
  import opened GraphModel

  type Object = map<Key, Json>

  datatype Viewport = Viewport(x: real, y: real, zoom: real)

  datatype Document = Document(name: string, viewport: Viewport, graph: GraphState)

  datatype DocError = MissingVersion | UnsupportedVersion(version: nat) | Invalid

  const VERSION: nat := 2
  const U32_MAX: nat := 0xFFFF_FFFF

  // ----- Names of the enumerations -----

  function ConversionName(c: ConversionKind): string {
    match c
    case RadToDeg => "rad_to_deg"
    case DegToRad => "deg_to_rad"
    case Heading0To360 => "heading_0_360"
    case HeadingPm180 => "heading_pm_180"
    case MsToKmh => "ms_to_kmh"
    case KmhToMs => "kmh_to_ms"
    case MToFt => "m_to_ft"
    case FtToM => "ft_to_m"
  }

  function ConversionNamed(s: string): Option<ConversionKind> {
    if s == "rad_to_deg" then Some(RadToDeg)
    else if s == "deg_to_rad" then Some(DegToRad)
    else if s == "heading_0_360" then Some(Heading0To360)
    else if s == "heading_pm_180" then Some(HeadingPm180)
    else if s == "ms_to_kmh" then Some(MsToKmh)
    else if s == "kmh_to_ms" then Some(KmhToMs)
    else if s == "m_to_ft" then Some(MToFt)
    else if s == "ft_to_m" then Some(FtToM)
    else None
  }

  function AlignName(m: AlignMode): string {
    match m
    case Prev => "prev"
    case Nearest => "nearest"
    case Linear => "linear"
  }

  function AlignNamed(s: string): Option<AlignMode> {
    if s == "prev" then Some(Prev)
    else if s == "nearest" then Some(Nearest)
    else if s == "linear" then Some(Linear)
    else None
  }

  function FilterName(f: FilterKind): string {
    match f
    case Equal => "equal"
    case NotEqual => "not_equal"
    case LessThan => "less_than"
    case GreaterThan => "greater_than"
    case Between => "between"
    case OutsideRange => "outside_range"
  }

  function FilterNamed(s: string): Option<FilterKind> {
    if s == "equal" then Some(Equal)
    else if s == "not_equal" then Some(NotEqual)
    else if s == "less_than" then Some(LessThan)
    else if s == "greater_than" then Some(GreaterThan)
    else if s == "between" then Some(Between)
    else if s == "outside_range" then Some(OutsideRange)
    else None
  }

  lemma ConversionNames(c: ConversionKind)
    ensures ConversionNamed(ConversionName(c)) == Some(c)
  {
  }

  lemma AlignNames(m: AlignMode)
    ensures AlignNamed(AlignName(m)) == Some(m)
  {
  }

  lemma FilterNames(f: FilterKind)
    ensures FilterNamed(FilterName(f)) == Some(f)
  {
  }

  // ----- Node kinds -----

  /** A non-finite number is written as null. */
  function NumJson(n: Num): Json {
    match n
    case Gap => JNull
    case Val(r) => JFloat(r)
  }

  function OptionalUnit(o: Object, units: Option<string>): Object {
    if units.Some? then o[KUnit := JStr(units.value)] else o
  }

  function PortFieldJson(f: PortField): Json {
    JObj(OptionalUnit(map[KName := JStr(f.name)], f.units))
  }

  function PortFieldsJson(fields: seq<PortField>): Json {
    JArr(seq(|fields|, i requires 0 <= i < |fields| => PortFieldJson(fields[i])))
  }

  function InputsJson(names: seq<string>): Json {
    JArr(seq(|names|, i requires 0 <= i < |names| => JObj(map[KName := JStr(names[i])])))
  }

  function Tag(k: NodeKind): string {
    match k
    case DataField(_) => "data_field"
    case Constant(_) => "constant"
    case Add => "add"
    case Subtract => "subtract"
    case Multiply => "multiply"
    case Divide => "divide"
    case ScaleOffset(_, _) => "scale_offset"
    case Convert(_) => "convert"
    case Align(_) => "align"
    case Filter(_) => "filter"
    case Output(_, _) => "output"
    case Script(_) => "script"
    case Unknown(_) => ""
  }

  function Settings(k: NodeKind): Object {
    match k
    case DataField(s) =>
      var o := map[KTopic := JStr(s.topic), KField := JStr(s.field)];
      if s.instance.Some? then o[KInstance := JInt(s.instance.value)] else o
    case Constant(v) => map[KValue := NumJson(v)]
    case ScaleOffset(m, b) => map[KMultiplier := NumJson(m), KOffset := NumJson(b)]
    case Convert(c) => map[KConversion := JStr(ConversionName(c))]
    case Align(m) => map[KMode := JStr(AlignName(m))]
    case Filter(f) =>
      map[KFilter := JStr(FilterName(f.filter)), KValue := NumJson(f.threshold),
          KUpper := NumJson(f.upper), KInclusive := JBool(f.inclusive)]
    case Output(topic, fields) => map[KTopic := JStr(topic), KFields := PortFieldsJson(fields)]
    case Script(s) =>
      map[KName := JStr(s.name), KInputs := InputsJson(s.inputs),
          KOutputs := PortFieldsJson(s.outputs), KCode := JStr(s.code)]
    case _ => map[]
  }

  function KindJson(k: NodeKind): Json {
    if k.Unknown? then k.raw else JObj(Settings(k)[KType := JStr(Tag(k))])
  }

  // ----- Reading values -----

  function Get(o: Object, key: Key): Option<Json> {
    if key in o then Some(o[key]) else None
  }

  function AsStr(j: Option<Json>): Option<string> {
    if j.Some? && j.value.JStr? then Some(j.value.s) else None
  }

  function AsNat(j: Option<Json>, limit: nat): Option<nat> {
    if j.Some? && j.value.JInt? && 0 <= j.value.n <= limit then Some(j.value.n) else None
  }

  /** A number, whether written as an integer or as a float. */
  function AsNumber(j: Option<Json>): Option<Num> {
    if j.Some? && j.value.JFloat? then Some(Val(j.value.r))
    else if j.Some? && j.value.JInt? then Some(Val(j.value.n as real))
    else None
  }

  /** An optional field: absent and null both mean `None`. */
  function AsUnit(j: Option<Json>): Option<Option<string>> {
    if j.None? || j.value.JNull? then Some(None)
    else if j.value.JStr? then Some(Some(j.value.s))
    else None
  }

  function AsPortField(j: Json): Option<PortField> {
    if j.JObj? && AsStr(Get(j.entries, KName)).Some? && AsUnit(Get(j.entries, KUnit)).Some?
    then Some(PortField(AsStr(Get(j.entries, KName)).value, AsUnit(Get(j.entries, KUnit)).value))
    else None
  }

  function AsPortFields(j: Option<Json>): Option<seq<PortField>> {
    if j.Some? && j.value.JArr? && forall i :: 0 <= i < |j.value.items| ==> AsPortField(j.value.items[i]).Some?
    then Some(seq(|j.value.items|, i requires 0 <= i < |j.value.items| => AsPortField(j.value.items[i]).value))
    else None
  }

  function AsInput(j: Json): Option<string> {
    if j.JObj? then AsStr(Get(j.entries, KName)) else None
  }

  function AsInputs(j: Option<Json>): Option<seq<string>> {
    if j.Some? && j.value.JArr? && forall i :: 0 <= i < |j.value.items| ==> AsInput(j.value.items[i]).Some?
    then Some(seq(|j.value.items|, i requires 0 <= i < |j.value.items| => AsInput(j.value.items[i]).value))
    else None
  }

  // ----- Reading node kinds -----

  function ReadDataField(o: Object): Option<NodeKind> {
    var topic, field := AsStr(Get(o, KTopic)), AsStr(Get(o, KField));
    var none := Get(o, KInstance).None? || Get(o, KInstance) == Some(JNull);
    var instance := AsNat(Get(o, KInstance), U32_MAX);
    if topic.Some? && field.Some? && (none || instance.Some?)
    then Some(DataField(FieldSelector(None, topic.value, if none then None else instance, field.value)))
    else None
  }

  function ReadFilter(o: Object): Option<NodeKind> {
    var name, value, upper := AsStr(Get(o, KFilter)), AsNumber(Get(o, KValue)), AsNumber(Get(o, KUpper));
    var inclusive := Get(o, KInclusive);
    if name.Some? && FilterNamed(name.value).Some? && value.Some? && upper.Some?
       && (inclusive.Some? ==> inclusive.value.JBool?)
    then Some(Filter(FilterSpec(FilterNamed(name.value).value, value.value, upper.value,
                                inclusive.Some? && inclusive.value.b)))
    else None
  }

  function ReadOutput(o: Object): Option<NodeKind> {
    var topic, fields := AsStr(Get(o, KTopic)), AsPortFields(Get(o, KFields));
    if topic.Some? && fields.Some? then Some(Output(topic.value, fields.value)) else None
  }

  function ReadScript(o: Object): Option<NodeKind> {
    var name, code := AsStr(Get(o, KName)), AsStr(Get(o, KCode));
    var inputs, outputs := AsInputs(Get(o, KInputs)), AsPortFields(Get(o, KOutputs));
    if name.Some? && code.Some? && inputs.Some? && outputs.Some?
    then Some(Script(ScriptSpec(name.value, inputs.value, outputs.value, code.value)))
    else None
  }

  function ReadConvert(o: Object): Option<NodeKind> {
    var name := AsStr(Get(o, KConversion));
    if name.Some? && ConversionNamed(name.value).Some? then Some(Convert(ConversionNamed(name.value).value)) else None
  }

  function ReadAlign(o: Object): Option<NodeKind> {
    var name := AsStr(Get(o, KMode));
    if name.Some? && AlignNamed(name.value).Some? then Some(Align(AlignNamed(name.value).value)) else None
  }

  function ReadNumbers(o: Object, tag: string): Option<NodeKind> {
    if tag == "constant" then
      var v := AsNumber(Get(o, KValue));
      if v.Some? then Some(Constant(v.value)) else None
    else
      var m, b := AsNumber(Get(o, KMultiplier)), AsNumber(Get(o, KOffset));
      if m.Some? && b.Some? then Some(ScaleOffset(m.value, b.value)) else None
  }

  /** The node kind that an object with type `tag` describes. */
  function ReadKind(o: Object, tag: string): Option<NodeKind> {
    if tag == "data_field" then ReadDataField(o)
    else if tag == "constant" || tag == "scale_offset" then ReadNumbers(o, tag)
    else if tag == "add" then Some(Add)
    else if tag == "subtract" then Some(Subtract)
    else if tag == "multiply" then Some(Multiply)
    else if tag == "divide" then Some(Divide)
    else if tag == "convert" then ReadConvert(o)
    else if tag == "align" then ReadAlign(o)
    else if tag == "filter" then ReadFilter(o)
    else if tag == "output" then ReadOutput(o)
    else if tag == "script" then ReadScript(o)
    else Some(Unknown(JObj(o)))
  }

  // ----- Nodes and edges -----

  function PosJson(p: Pos): Json {
    JArr([JFloat(p.x), JFloat(p.y)])
  }

  function NodeJson(n: Node): Json {
    var kind := KindJson(n.kind);
    var o := if kind.JObj? then kind.entries else map[KType := JStr("unknown"), KRaw := kind];
    JObj(o[KId := JInt(n.id)][KPos := PosJson(n.pos)])
  }

  function ReadPair(j: Option<Json>): Option<(real, real)> {
    if j.Some? && j.value.JArr? && |j.value.items| == 2
       && AsNumber(Some(j.value.items[0])).Some? && AsNumber(Some(j.value.items[1])).Some?
       && AsNumber(Some(j.value.items[0])).value.Val? && AsNumber(Some(j.value.items[1])).value.Val?
    then Some((AsNumber(Some(j.value.items[0])).value.r, AsNumber(Some(j.value.items[1])).value.r))
    else None
  }

  function ReadNode(j: Json): Option<Node> {
    if !j.JObj? then None
    else
      var id, pos := AsNat(Get(j.entries, KId), U64_MAX), ReadPair(Get(j.entries, KPos));
      var tag := AsStr(Get(j.entries, KType));
      if id.None? || pos.None? || tag.None? then None
      else
        var kind := ReadKind(j.entries, tag.value);
        if kind.None? then None
        else Some(Node(id.value, Pos(pos.value.0, pos.value.1), kind.value))
  }

  /** Port 0 of the source is left out. */
  function EdgeJson(e: Edge): Json {
    var o := map[KFrom := JInt(e.from), KTo := JInt(e.to), KToPort := JInt(e.toPort)];
    JObj(if e.fromPort == 0 then o else o[KFromPort := JInt(e.fromPort)])
  }

  function ReadEdge(j: Json): Option<Edge> {
    if !j.JObj? then None
    else
      var from, to := AsNat(Get(j.entries, KFrom), U64_MAX), AsNat(Get(j.entries, KTo), U64_MAX);
      var toPort := AsNat(Get(j.entries, KToPort), U32_MAX);
      var fromPort := if Get(j.entries, KFromPort).None? then Some(0) else AsNat(Get(j.entries, KFromPort), U32_MAX);
      if from.None? || to.None? || toPort.None? || fromPort.None? then None
      else Some(Edge(from.value, fromPort.value, to.value, toPort.value))
  }

  function ReadNodes(items: seq<Json>): Option<seq<Node>> {
    if forall i :: 0 <= i < |items| ==> ReadNode(items[i]).Some?
    then Some(seq(|items|, i requires 0 <= i < |items| => ReadNode(items[i]).value))
    else None
  }

  function ReadEdges(items: seq<Json>): Option<seq<Edge>> {
    if forall i :: 0 <= i < |items| ==> ReadEdge(items[i]).Some?
    then Some(seq(|items|, i requires 0 <= i < |items| => ReadEdge(items[i]).value))
    else None
  }

  // ----- Documents -----

  function RequiredVersion(edges: seq<Edge>): nat {
    if exists e :: e in edges && e.fromPort != 0 then 2 else 1
  }

  function ToJson(d: Document): Json {
    var nodes, edges := d.graph.nodes, d.graph.edges;
    JObj(map[
      KVersion := JInt(RequiredVersion(edges)),
      KName := JStr(d.name),
      KNextId := JInt(d.graph.nextId),
      KViewport := JObj(map[KOffset := JArr([JFloat(d.viewport.x), JFloat(d.viewport.y)]),
                            KZoom := JFloat(d.viewport.zoom)]),
      KNodes := JArr(seq(|nodes|, i requires 0 <= i < |nodes| => NodeJson(nodes[i]))),
      KEdges := JArr(seq(|edges|, i requires 0 <= i < |edges| => EdgeJson(edges[i])))])
  }

  function ReadViewport(j: Option<Json>): Option<Viewport> {
    if j.None? || !j.value.JObj? then None
    else
      var offset, zoom := ReadPair(Get(j.value.entries, KOffset)), AsNumber(Get(j.value.entries, KZoom));
      if offset.None? || zoom.None? || !zoom.value.Val? || zoom.value.r <= 0.0 then None
      else Some(Viewport(offset.value.0, offset.value.1, zoom.value.r))
  }

  /** An edge that a loaded document may hold: one that passes the usual
      checks, or one at an unknown node, whose ports are not known. */
  ghost predicate Loadable(g: GraphState, e: Edge) {
    var from, to := FindNode(g.nodes, e.from), FindNode(g.nodes, e.to);
    && from.Some? && to.Some?
    && if !from.value.kind.Unknown? && !to.value.kind.Unknown? then ConnectVerdict(g, e).Ok?
       else
         && e.from != e.to
         && (!from.value.kind.Unknown? ==> e.fromPort < |Outputs(from.value.kind)|)
         && (!to.value.kind.Unknown? ==> e.toPort < |Inputs(to.value.kind)|)
         && Incoming(g.edges, e.to, e.toPort).None?
         && !Reach(g.edges, e.to, e.from)
  }

  ghost function LoadedEdges(g: GraphState, edges: seq<Edge>): Option<GraphState> {
    if edges == [] then Some(g)
    else
      var n := |edges| - 1;
      var before := LoadedEdges(g, edges[..n]);
      if before.None? || !Loadable(before.value, edges[n]) then None
      else Some(before.value.(edges := before.value.edges + [edges[n]]))
  }

  /** `max(ids).saturating_add(1).max(serialized)`. */
  function LoadedNextId(nodes: seq<Node>, serialized: nat): nat {
    if nodes == [] then if serialized < 1 then 1 else serialized
    else
      var rest := LoadedNextId(nodes[..|nodes| - 1], serialized);
      var after := NextAfter(nodes[|nodes| - 1].id);
      if rest < after then after else rest
  }

  predicate NoRepeatedId(nodes: seq<Node>) {
    forall i, j :: 0 <= i < j < |nodes| ==> nodes[i].id != nodes[j].id
  }

  /** The parts of a document that are read before any edge is added. */
  datatype Parts = Parts(name: string, viewport: Viewport, nodes: seq<Node>, edges: seq<Edge>, nextId: nat)

  function ReadParts(j: Json): Result<Parts, DocError> {
    if !j.JObj? then Err(Invalid)
    else if Get(j.entries, KVersion).None? then Err(MissingVersion)
    else
      var o := j.entries;
      var version := AsNat(Get(o, KVersion), U32_MAX);
      if version.None? then Err(Invalid)
      else if version.value < 1 || version.value > VERSION then Err(UnsupportedVersion(version.value))
      else
        var name, next := AsStr(Get(o, KName)), AsNat(Get(o, KNextId), U64_MAX);
        var viewport := ReadViewport(Get(o, KViewport));
        var nodes := if Get(o, KNodes).Some? && o[KNodes].JArr? then ReadNodes(o[KNodes].items) else None;
        var edges := if Get(o, KEdges).Some? && o[KEdges].JArr? then ReadEdges(o[KEdges].items) else None;
        if name.None? || next.None? || viewport.None? || nodes.None? || edges.None? then Err(Invalid)
        else if !NoRepeatedId(nodes.value) then Err(Invalid)
        else Ok(Parts(name.value, viewport.value, nodes.value, edges.value, LoadedNextId(nodes.value, next.value)))
  }

  ghost function FromJson(j: Json): Result<Document, DocError> {
    var parts := ReadParts(j);
    if parts.Err? then Err(parts.error)
    else
      var p := parts.value;
      var g := LoadedEdges(GraphState(p.nodes, [], p.nextId), p.edges);
      if g.None? then Err(Invalid) else Ok(Document(p.name, p.viewport, g.value))
  }

  // ----- Loading in place -----

  lemma {:induction false} RefusedDocumentStays(g: GraphState, edges: seq<Edge>, k: nat)
    requires k <= |edges| && LoadedEdges(g, edges[..k]).None?
    ensures LoadedEdges(g, edges).None?
  {
    if k < |edges| {
      assert edges[..|edges| - 1][..k] == edges[..k];
      RefusedDocumentStays(g, edges[..|edges| - 1], k);
    } else {
      assert edges[..k] == edges;
    }
  }

  /** Adds one edge of a document, if it may be added. */
  method LoadEdge(graph: Graph, e: Edge) returns (added: bool)
    modifies graph`edges
    ensures added <==> Loadable(old(graph.View()), e)
    ensures graph.edges == if added then old(graph.edges) + [e] else old(graph.edges)
  {
    var from, to := FindNode(graph.nodes, e.from), FindNode(graph.nodes, e.to);
    if from.None? || to.None? {
      return false;
    }
    if !from.value.kind.Unknown? && !to.value.kind.Unknown? {
      var verdict := graph.Connect(e.from, e.fromPort, e.to, e.toPort);
      return verdict.Ok?;
    }
    if e.from == e.to
       || (!from.value.kind.Unknown? && e.fromPort >= |Outputs(from.value.kind)|)
       || (!to.value.kind.Unknown? && e.toPort >= |Inputs(to.value.kind)|)
       || Incoming(graph.edges, e.to, e.toPort).Some? {
      return false;
    }
    var cyclic := graph.WouldCycle(e.from, e.to);
    if cyclic {
      return false;
    }
    graph.edges := graph.edges + [e];
    return true;
  }

  method LoadEdges(graph: Graph, edges: seq<Edge>) returns (added: bool)
    modifies graph`edges
    ensures match LoadedEdges(old(graph.View()), edges)
            case None => !added
            case Some(g) => added && graph.View() == g
  {
    for k := 0 to |edges|
      invariant LoadedEdges(old(graph.View()), edges[..k]) == Some(graph.View())
    {
      assert edges[..k + 1][..k] == edges[..k];
      added := LoadEdge(graph, edges[k]);
      if !added {
        RefusedDocumentStays(old(graph.View()), edges, k + 1);
        return;
      }
    }
    assert edges[..|edges|] == edges;
    return true;
  }

  /** Loads a document edge by edge into a new graph. */
  method Load(j: Json) returns (r: Result<(string, Viewport, Graph), DocError>)
    ensures match FromJson(j)
            case Err(error) => r == Err(error)
            case Ok(d) => r.Ok? && r.value.0 == d.name && r.value.1 == d.viewport && r.value.2.View() == d.graph
  {
    var parts := ReadParts(j);
    if parts.Err? {
      return Err(parts.error);
    }
    var p := parts.value;
    var graph := new Graph();
    graph.nodes, graph.nextId := p.nodes, p.nextId;
    var added := LoadEdges(graph, p.edges);
    return if added then Ok((p.name, p.viewport, graph)) else Err(Invalid);
  }
}
