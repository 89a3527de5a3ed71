/** The format of saved graphs: what is written for every kind, which version a
    document needs, and what is read where something is missing. */
module DocumentFormat {
  import opened Prelude
  import opened Json
  import opened GraphModel
  import opened Documents
  import opened DocumentProofs

  // ----- Versions -----

  /** The written edge tells its source port. */
  predicate TellsPort(j: Json) {
    j.JObj? && KFromPort in j.entries
  }

  /** A document is of version 2 exactly when one of the edges written in it tells
      its source port, that is, when the graph has an edge from another port than
      the first; otherwise it is of version 1. */
  lemma VersionIsNeeded(d: Document)
    ensures var o := ToJson(d).entries;
            && KVersion in o && KEdges in o && o[KEdges].JArr? && |o[KEdges].items| == |d.graph.edges|
            && o[KVersion] == JInt(if exists i :: 0 <= i < |o[KEdges].items| && TellsPort(o[KEdges].items[i]) then 2
                                   else 1)
            && (forall i :: 0 <= i < |d.graph.edges| ==>
                  (TellsPort(o[KEdges].items[i]) <==> d.graph.edges[i].fromPort > 0))
  {
    var o, edges := ToJson(d).entries, d.graph.edges;
    forall i | 0 <= i < |edges|
      ensures TellsPort(o[KEdges].items[i]) <==> edges[i].fromPort != 0
    {
      assert o[KEdges].items[i] == EdgeJson(edges[i]);
    }
    if e :| e in edges && e.fromPort != 0 {
      var i :| 0 <= i < |edges| && edges[i] == e;
      assert TellsPort(o[KEdges].items[i]);
    }
    hide EdgeJson;
  }

  /** Only documents of versions 1 and 2 load; what is told of the others depends
      on their version alone. */
  lemma VersionsThatLoad(j: Json)
    ensures FromJson(j).Ok? ==> j.JObj? && KVersion in j.entries && j.entries[KVersion] in {JInt(1), JInt(2)}
    ensures FromJson(j) == Err(MissingVersion) <==> j.JObj? && KVersion !in j.entries
    ensures forall n: nat :: FromJson(j) == Err(UnsupportedVersion(n)) <==>
              && j.JObj? && KVersion in j.entries && j.entries[KVersion] == JInt(n)
              && n <= 0xFFFF_FFFF && n != 1 && n != 2
  {
    PartsByVersion(j);
    hide ReadParts, LoadedEdges;
  }

  lemma PartsByVersion(j: Json)
    ensures ReadParts(j).Ok? ==> j.JObj? && KVersion in j.entries && j.entries[KVersion] in {JInt(1), JInt(2)}
    ensures ReadParts(j) == Err(MissingVersion) <==> j.JObj? && KVersion !in j.entries
    ensures forall n: nat :: ReadParts(j) == Err(UnsupportedVersion(n)) <==>
              && j.JObj? && KVersion in j.entries && j.entries[KVersion] == JInt(n)
              && n <= 0xFFFF_FFFF && n != 1 && n != 2
  {
    hide ReadViewport, ReadNodes, ReadEdges, AsStr, NoRepeatedId, LoadedNextId;
  }

  // ----- Edges -----

  /** An edge is read exactly when its ends are 64-bit and its ports 32-bit
      numbers; without a source port it leaves the first one. */
  lemma EdgesThatRead(o: Object, e: Edge)
    ensures ReadEdge(JObj(o)) == Some(e) <==>
              && KFrom in o && o[KFrom] == JInt(e.from) && e.from <= 0xFFFF_FFFF_FFFF_FFFF
              && KTo in o && o[KTo] == JInt(e.to) && e.to <= 0xFFFF_FFFF_FFFF_FFFF
              && KToPort in o && o[KToPort] == JInt(e.toPort) && e.toPort <= 0xFFFF_FFFF
              && (if KFromPort in o then o[KFromPort] == JInt(e.fromPort) && e.fromPort <= 0xFFFF_FFFF
                  else e.fromPort == 0)
  {
  }

  // ----- Identifiers -----

  /** The next id of a loaded graph is the least that is at least 1, at least the
      saved one, and past every id of a node. */
  lemma LoadedIdIsLeast(j: Json)
    requires FromJson(j).Ok?
    ensures KNextId in j.entries && j.entries[KNextId].JInt?
    ensures var g, saved := FromJson(j).value.graph, j.entries[KNextId].n;
            && 0 <= saved <= g.nextId && 1 <= g.nextId
            && (forall n :: n in g.nodes ==> NextAfter(n.id) <= g.nextId)
            && (g.nextId == 1 || g.nextId == saved || exists n :: n in g.nodes && g.nextId == NextAfter(n.id))
  {
    var p := ReadParts(j).value;
    var saved := AsNat(Get(j.entries, KNextId), U64_MAX).value;
    NextIdCovers(p.nodes, saved);
    NextIdIsReached(p.nodes, saved);
    var g := GraphState(p.nodes, [], p.nextId);
    LoadedKeeps(g, p.edges);
  }

  lemma {:induction false} NextIdIsReached(nodes: seq<Node>, saved: nat)
    ensures 1 <= LoadedNextId(nodes, saved)
    ensures LoadedNextId(nodes, saved) in {1, saved}
            || exists n :: n in nodes && LoadedNextId(nodes, saved) == NextAfter(n.id)
  {
    if nodes != [] {
      var k := |nodes| - 1;
      NextIdIsReached(nodes[..k], saved);
      assert nodes[k] in nodes;
      assert forall n :: n in nodes[..k] ==> n in nodes;
    }
  }

  lemma {:induction false} LoadedKeeps(g: GraphState, edges: seq<Edge>)
    requires LoadedEdges(g, edges).Some?
    ensures LoadedEdges(g, edges).value.nodes == g.nodes && LoadedEdges(g, edges).value.nextId == g.nextId
  {
    if edges != [] {
      hide Loadable;
      LoadedKeeps(g, edges[..|edges| - 1]);
    }
  }

  // ----- Nodes -----

  /** A node of a type that is not known is kept whole. */
  lemma UnknownIsKept(o: Object, id: nat, x: real, y: real, tag: string)
    requires KId in o && o[KId] == JInt(id) && id <= 0xFFFF_FFFF_FFFF_FFFF
    requires KPos in o && o[KPos] == JArr([JFloat(x), JFloat(y)]) && KType in o && o[KType] == JStr(tag)
    requires tag !in {"data_field", "constant", "add", "subtract", "multiply", "divide", "scale_offset", "convert",
                      "align", "filter", "output", "script"}
    ensures ReadNode(JObj(o)) == Some(Node(id, Pos(x, y), Unknown(JObj(o))))
    ensures NodeJson(Node(id, Pos(x, y), Unknown(JObj(o)))) == JObj(o)
  {
    assert ReadPair(Get(o, KPos)) == Some((x, y));
    var kind := Unknown(JObj(o));
    assert o[KId := JInt(id)][KPos := PosJson(Pos(x, y))] == o;
  }

  /** A number, written as an integer or as a float. */
  predicate IsNumber(j: Json, r: real) {
    j == JFloat(r) || (j.JInt? && j.n as real == r)
  }

  predicate Holds(o: Object, key: Key, s: string) {
    key in o && o[key] == JStr(s)
  }

  lemma NumbersThatRead(o: Object, a: real, b: real)
    ensures ReadKind(o, "constant") == Some(Constant(Val(a))) <==> KValue in o && IsNumber(o[KValue], a)
    ensures ReadKind(o, "scale_offset") == Some(ScaleOffset(Val(a), Val(b))) <==>
              KMultiplier in o && IsNumber(o[KMultiplier], a) && KOffset in o && IsNumber(o[KOffset], b)
  {
  }

  /** A field's instance may be missing or null. */
  lemma FieldsThatRead(o: Object, topic: string, instance: Option<nat>, field: string)
    ensures ReadKind(o, "data_field") == Some(DataField(FieldSelector(None, topic, instance, field))) <==>
              && Holds(o, KTopic, topic) && Holds(o, KField, field)
              && if instance.None? then KInstance !in o || o[KInstance] == JNull
                 else KInstance in o && o[KInstance] == JInt(instance.value) && instance.value <= 0xFFFF_FFFF
  {
  }

  /** A filter without a word on its limits excludes them. */
  lemma FiltersThatRead(o: Object, f: FilterKind, threshold: real, upper: real, inclusive: bool)
    ensures ReadKind(o, "filter") == Some(Filter(FilterSpec(f, Val(threshold), Val(upper), inclusive))) <==>
              && Holds(o, KFilter, FilterName(f))
              && KValue in o && IsNumber(o[KValue], threshold) && KUpper in o && IsNumber(o[KUpper], upper)
              && (if KInclusive in o then o[KInclusive] == JBool(inclusive) else !inclusive)
  {
    FilterNames(f);
    assert ReadKind(o, "filter") == ReadFilter(o);
    assert forall s: string :: FilterNamed(s) == Some(f) <==> s == FilterName(f);
  }

  lemma ChoicesThatRead(o: Object, c: ConversionKind, m: AlignMode)
    ensures ReadKind(o, "convert") == Some(Convert(c)) <==> Holds(o, KConversion, ConversionName(c))
    ensures ReadKind(o, "align") == Some(NodeKind.Align(m)) <==> Holds(o, KMode, AlignName(m))
  {
    ConversionNames(c);
    AlignNames(m);
    assert ReadKind(o, "convert") == ReadConvert(o) && ReadKind(o, "align") == ReadAlign(o);
    assert forall s: string :: ConversionNamed(s) == Some(c) <==> s == ConversionName(c);
    assert forall s: string :: AlignNamed(s) == Some(m) <==> s == AlignName(m);
  }

  /** A port's unit may be missing or null. */
  predicate PortThatReads(j: Json, f: PortField) {
    && j.JObj? && Holds(j.entries, KName, f.name)
    && if f.units.None? then KUnit !in j.entries || j.entries[KUnit] == JNull
       else Holds(j.entries, KUnit, f.units.value)
  }

  ghost predicate PortsThatRead(j: Json, fields: seq<PortField>) {
    j.JArr? && |j.items| == |fields| && forall i :: 0 <= i < |fields| ==> PortThatReads(j.items[i], fields[i])
  }

  ghost predicate InputsThatRead(j: Json, names: seq<string>) {
    && j.JArr? && |j.items| == |names|
    && forall i :: 0 <= i < |names| ==> j.items[i].JObj? && Holds(j.items[i].entries, KName, names[i])
  }

  lemma PortsAreRead(j: Json, fields: seq<PortField>)
    ensures AsPortFields(Some(j)) == Some(fields) <==> PortsThatRead(j, fields)
  {
    if j.JArr? && |j.items| == |fields| {
      forall i | 0 <= i < |fields|
        ensures AsPortField(j.items[i]) == Some(fields[i]) <==> PortThatReads(j.items[i], fields[i])
      {
      }
      hide AsPortField, PortThatReads;
      if AsPortFields(Some(j)) == Some(fields) {
        assert forall i :: 0 <= i < |fields| ==> AsPortField(j.items[i]).value == fields[i];
      }
      if PortsThatRead(j, fields) {
        assert AsPortFields(Some(j)).value == fields;
      }
    }
  }

  lemma InputsAreRead(j: Json, names: seq<string>)
    ensures AsInputs(Some(j)) == Some(names) <==> InputsThatRead(j, names)
  {
    if j.JArr? && |j.items| == |names| {
      forall i | 0 <= i < |names|
        ensures AsInput(j.items[i]) == Some(names[i]) <==>
                  j.items[i].JObj? && Holds(j.items[i].entries, KName, names[i])
      {
      }
      hide AsInput, Holds;
      if AsInputs(Some(j)) == Some(names) {
        assert forall i :: 0 <= i < |names| ==> AsInput(j.items[i]).value == names[i];
      }
      if InputsThatRead(j, names) {
        assert AsInputs(Some(j)).value == names;
      }
    }
  }

  lemma OutputsThatRead(o: Object, topic: string, fields: seq<PortField>)
    ensures ReadKind(o, "output") == Some(Output(topic, fields)) <==>
              Holds(o, KTopic, topic) && KFields in o && PortsThatRead(o[KFields], fields)
  {
    assert ReadKind(o, "output") == ReadOutput(o);
    if KFields in o {
      PortsAreRead(o[KFields], fields);
    }
    hide PortsThatRead, ReadKind;
  }

  lemma ScriptsThatRead(o: Object, s: ScriptSpec)
    ensures ReadKind(o, "script") == Some(Script(s)) <==>
              && Holds(o, KName, s.name) && Holds(o, KCode, s.code)
              && KInputs in o && InputsThatRead(o[KInputs], s.inputs)
              && KOutputs in o && PortsThatRead(o[KOutputs], s.outputs)
  {
    assert ReadKind(o, "script") == ReadScript(o);
    if KInputs in o && KOutputs in o {
      InputsAreRead(o[KInputs], s.inputs);
      PortsAreRead(o[KOutputs], s.outputs);
    }
    hide PortsThatRead, InputsThatRead, AsInputs, AsPortFields, ReadKind;
  }

  /** A node is read exactly when its id is a 64-bit number, its position two
      numbers, its type a string, and its kind can be read. */
  lemma NodesThatRead(o: Object, n: Node)
    ensures ReadNode(JObj(o)) == Some(n) <==>
              && KId in o && o[KId] == JInt(n.id) && KPos in o && PairThatReads(o[KPos], n.pos.x, n.pos.y)
              && KType in o && o[KType].JStr? && ReadKind(o, o[KType].s) == Some(n.kind)
  {
    if KPos in o {
      PairIsRead(o[KPos], n.pos.x, n.pos.y);
    }
    hide ReadKind, PairThatReads, ReadPair;
  }

  predicate PairThatReads(j: Json, x: real, y: real) {
    j.JArr? && |j.items| == 2 && IsNumber(j.items[0], x) && IsNumber(j.items[1], y)
  }

  lemma PairIsRead(j: Json, x: real, y: real)
    ensures ReadPair(Some(j)) == Some((x, y)) <==> PairThatReads(j, x, y)
  {
  }

  // ----- Documents that read -----

  /** A view's zoom is positive. */
  predicate ViewThatReads(j: Json, v: Viewport) {
    && j.JObj? && KOffset in j.entries && PairThatReads(j.entries[KOffset], v.x, v.y)
    && KZoom in j.entries && IsNumber(j.entries[KZoom], v.zoom) && v.zoom > 0.0
  }

  lemma ViewIsRead(j: Json, v: Viewport)
    ensures ReadViewport(Some(j)) == Some(v) <==> ViewThatReads(j, v)
  {
    if j.JObj? && KOffset in j.entries {
      PairIsRead(j.entries[KOffset], v.x, v.y);
    }
    hide PairThatReads, ReadPair;
  }

  /** The items of an array that are read one by one. */
  predicate NodesRead(j: Json, nodes: seq<Node>) {
    j.JArr? && |j.items| == |nodes| && forall i :: 0 <= i < |nodes| ==> ReadNode(j.items[i]) == Some(nodes[i])
  }

  predicate EdgesRead(j: Json, edges: seq<Edge>) {
    j.JArr? && |j.items| == |edges| && forall i :: 0 <= i < |edges| ==> ReadEdge(j.items[i]) == Some(edges[i])
  }

  lemma ItemsAreRead(j: Json, nodes: seq<Node>, edges: seq<Edge>)
    requires j.JArr?
    ensures ReadNodes(j.items) == Some(nodes) <==> NodesRead(j, nodes)
    ensures ReadEdges(j.items) == Some(edges) <==> EdgesRead(j, edges)
  {
    hide ReadNode, ReadEdge;
    if ReadNodes(j.items) == Some(nodes) {
      assert forall i :: 0 <= i < |nodes| ==> ReadNode(j.items[i]).value == nodes[i];
    }
    if NodesRead(j, nodes) {
      assert ReadNodes(j.items).value == nodes;
    }
    if ReadEdges(j.items) == Some(edges) {
      assert forall i :: 0 <= i < |edges| ==> ReadEdge(j.items[i]).value == edges[i];
    }
    if EdgesRead(j, edges) {
      assert ReadEdges(j.items).value == edges;
    }
  }

  /** The parts of a document are read exactly when all are there, each of its own
      form, and no two nodes have one id. */
  lemma DocumentsThatRead(o: Object, p: Parts, saved: nat)
    requires KNextId in o && o[KNextId] == JInt(saved)
    ensures ReadParts(JObj(o)) == Ok(p) <==>
              && KVersion in o && o[KVersion] in {JInt(1), JInt(2)} && Holds(o, KName, p.name)
              && saved <= 0xFFFF_FFFF_FFFF_FFFF && p.nextId == LoadedNextId(p.nodes, saved)
              && KViewport in o && ViewThatReads(o[KViewport], p.viewport)
              && KNodes in o && NodesRead(o[KNodes], p.nodes) && NoRepeatedId(p.nodes)
              && KEdges in o && EdgesRead(o[KEdges], p.edges)
  {
    PartsMean(o, p, saved);
    if KViewport in o {
      ViewIsRead(o[KViewport], p.viewport);
    }
    if KNodes in o && o[KNodes].JArr? {
      ItemsAreRead(o[KNodes], p.nodes, p.edges);
    }
    if KEdges in o && o[KEdges].JArr? {
      ItemsAreRead(o[KEdges], p.nodes, p.edges);
    }
    assert KNodes in o && NodesRead(o[KNodes], p.nodes) ==> o[KNodes].JArr?;
    assert KEdges in o && EdgesRead(o[KEdges], p.edges) ==> o[KEdges].JArr?;
    hide ReadParts, ReadNodes, ReadEdges, ReadViewport, ViewThatReads, LoadedNextId, NoRepeatedId, NodesRead, EdgesRead;
  }

  lemma PartsMean(o: Object, p: Parts, saved: nat)
    requires KNextId in o && o[KNextId] == JInt(saved)
    ensures ReadParts(JObj(o)) == Ok(p) <==>
              && KVersion in o && o[KVersion] in {JInt(1), JInt(2)} && Holds(o, KName, p.name)
              && saved <= 0xFFFF_FFFF_FFFF_FFFF && p.nextId == LoadedNextId(p.nodes, saved)
              && KViewport in o && ReadViewport(Some(o[KViewport])) == Some(p.viewport)
              && KNodes in o && o[KNodes].JArr? && ReadNodes(o[KNodes].items) == Some(p.nodes)
              && NoRepeatedId(p.nodes)
              && KEdges in o && o[KEdges].JArr? && ReadEdges(o[KEdges].items) == Some(p.edges)
  {
    assert ReadViewport(None) == None;
    hide ReadNodes, ReadEdges, ReadViewport, LoadedNextId, NoRepeatedId;
  }

  // ----- What is written -----

  lemma OperatorsWritten()
    ensures KindJson(Add) == JObj(map[KType := JStr("add")])
    ensures KindJson(Subtract) == JObj(map[KType := JStr("subtract")])
    ensures KindJson(Multiply) == JObj(map[KType := JStr("multiply")])
    ensures KindJson(Divide) == JObj(map[KType := JStr("divide")])
  {
  }

  lemma NumbersWritten(a: real, b: real)
    ensures KindJson(Constant(Val(a))) == JObj(map[KType := JStr("constant"), KValue := JFloat(a)])
    ensures KindJson(ScaleOffset(Val(a), Val(b))) ==
            JObj(map[KType := JStr("scale_offset"), KMultiplier := JFloat(a), KOffset := JFloat(b)])
  {
    assert KindJson(Constant(Val(a))).entries == map[KType := JStr("constant"), KValue := JFloat(a)];
    assert KindJson(ScaleOffset(Val(a), Val(b))).entries ==
           map[KType := JStr("scale_offset"), KMultiplier := JFloat(a), KOffset := JFloat(b)];
  }

  lemma FieldsWritten(s: FieldSelector)
    ensures var all := map[KType := JStr("data_field"), KTopic := JStr(s.topic), KField := JStr(s.field)];
            KindJson(DataField(s)) == JObj(if s.instance.Some? then all[KInstance := JInt(s.instance.value)] else all)
  {
    var all := map[KType := JStr("data_field"), KTopic := JStr(s.topic), KField := JStr(s.field)];
    assert KindJson(DataField(s)).entries == if s.instance.Some? then all[KInstance := JInt(s.instance.value)] else all;
  }

  lemma ConversionsWritten(c: ConversionKind)
    ensures var name := match c
                        case RadToDeg => "rad_to_deg"
                        case DegToRad => "deg_to_rad"
                        case Heading0To360 => "heading_0_360"
                        case HeadingPm180 => "heading_pm_180"
                        case MsToKmh => "ms_to_kmh"
                        case KmhToMs => "kmh_to_ms"
                        case MToFt => "m_to_ft"
                        case FtToM => "ft_to_m";
            KindJson(Convert(c)) == JObj(map[KType := JStr("convert"), KConversion := JStr(name)])
  {
    assert KindJson(Convert(c)).entries == map[KType := JStr("convert"), KConversion := JStr(ConversionName(c))];
  }

  lemma ModesWritten(m: AlignMode)
    ensures var name := match m
                        case Prev => "prev"
                        case Nearest => "nearest"
                        case Linear => "linear";
            KindJson(NodeKind.Align(m)) == JObj(map[KType := JStr("align"), KMode := JStr(name)])
  {
    assert KindJson(NodeKind.Align(m)).entries == map[KType := JStr("align"), KMode := JStr(AlignName(m))];
  }

  lemma FiltersWritten(f: FilterKind, threshold: real, upper: real, inclusive: bool)
    ensures var name := match f
                        case Equal => "equal"
                        case NotEqual => "not_equal"
                        case LessThan => "less_than"
                        case GreaterThan => "greater_than"
                        case Between => "between"
                        case OutsideRange => "outside_range";
            KindJson(Filter(FilterSpec(f, Val(threshold), Val(upper), inclusive))) ==
            JObj(map[KType := JStr("filter"), KFilter := JStr(name), KValue := JFloat(threshold),
                     KUpper := JFloat(upper), KInclusive := JBool(inclusive)])
  {
    assert KindJson(Filter(FilterSpec(f, Val(threshold), Val(upper), inclusive))).entries ==
           map[KType := JStr("filter"), KFilter := JStr(FilterName(f)), KValue := JFloat(threshold),
               KUpper := JFloat(upper), KInclusive := JBool(inclusive)];
  }

  /** A written port. */
  predicate PortWritten(j: Json, f: PortField) {
    j == JObj(if f.units.Some? then map[KName := JStr(f.name), KUnit := JStr(f.units.value)]
              else map[KName := JStr(f.name)])
  }

  ghost predicate PortsWritten(j: Json, fields: seq<PortField>) {
    j.JArr? && |j.items| == |fields| && forall i :: 0 <= i < |fields| ==> PortWritten(j.items[i], fields[i])
  }

  lemma PortsAreWritten(fields: seq<PortField>)
    ensures PortsWritten(PortFieldsJson(fields), fields)
  {
    forall i | 0 <= i < |fields|
      ensures PortWritten(PortFieldsJson(fields).items[i], fields[i])
    {
      assert PortFieldsJson(fields).items[i] == PortFieldJson(fields[i]);
    }
  }

  lemma OutputsWritten(topic: string, fields: seq<PortField>)
    ensures KindJson(Output(topic, fields)).JObj?
    ensures var o := KindJson(Output(topic, fields)).entries;
            && o.Keys == {KType, KTopic, KFields} && o[KType] == JStr("output") && o[KTopic] == JStr(topic)
            && PortsWritten(o[KFields], fields)
  {
    PortsAreWritten(fields);
    hide PortFieldsJson;
  }

  lemma ScriptsWritten(s: ScriptSpec)
    ensures KindJson(Script(s)).JObj?
    ensures var o := KindJson(Script(s)).entries;
            && o.Keys == {KType, KName, KCode, KInputs, KOutputs} && o[KType] == JStr("script")
            && o[KName] == JStr(s.name) && o[KCode] == JStr(s.code) && PortsWritten(o[KOutputs], s.outputs)
            && o[KInputs].JArr? && |o[KInputs].items| == |s.inputs|
            && forall i :: 0 <= i < |s.inputs| ==> o[KInputs].items[i] == JObj(map[KName := JStr(s.inputs[i])])
  {
    PortsAreWritten(s.outputs);
    hide PortFieldsJson;
  }

  /** The rest of a document. */
  lemma DocumentWritten(d: Document)
    ensures ToJson(d).JObj?
    ensures var o := ToJson(d).entries;
            && o.Keys == {KVersion, KName, KNextId, KViewport, KNodes, KEdges}
            && o[KName] == JStr(d.name) && o[KNextId] == JInt(d.graph.nextId)
            && o[KViewport] == JObj(map[KOffset := JArr([JFloat(d.viewport.x), JFloat(d.viewport.y)]),
                                        KZoom := JFloat(d.viewport.zoom)])
            && o[KNodes].JArr? && |o[KNodes].items| == |d.graph.nodes|
            && forall i :: 0 <= i < |d.graph.nodes| ==> NodeWritten(o[KNodes].items[i], d.graph.nodes[i])
  {
    var o := ToJson(d).entries;
    forall i | 0 <= i < |d.graph.nodes|
      ensures NodeWritten(o[KNodes].items[i], d.graph.nodes[i])
    {
      assert o[KNodes].items[i] == NodeJson(d.graph.nodes[i]);
      NodeIsWritten(d.graph.nodes[i]);
    }
  }

  /** A node is written as its kind, its id and its position. */
  predicate NodeWritten(j: Json, n: Node) {
    var kind := KindJson(n.kind);
    var o := if kind.JObj? then kind.entries else map[KType := JStr("unknown"), KRaw := kind];
    && j.JObj? && KId in j.entries && j.entries[KId] == JInt(n.id)
    && KPos in j.entries && j.entries[KPos] == JArr([JFloat(n.pos.x), JFloat(n.pos.y)])
    && j.entries.Keys == o.Keys + {KId, KPos}
    && forall key :: key in o && key != KId && key != KPos ==> j.entries[key] == o[key]
  }

  lemma NodeIsWritten(n: Node)
    ensures NodeWritten(NodeJson(n), n)
  {
    hide KindJson;
  }
}
