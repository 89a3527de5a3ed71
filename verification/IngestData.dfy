/** What a batch leaves behind: buffers of bounded size, a field for every column
    and reports of rows out of order; and which offsets the rows allow. */
module IngestData {
  import opened Prelude
  import opened Storage
  import opened Store
  import opened Identity
  import opened Snapshots
  import opened Ingest
  import opened IngestRows
  import opened IngestProofs
  import opened IngestRuns
  import opened IngestSafety
  import RegistryEffects
  import Effects = IngestEffects

  // ----- Buffers -----

  /** Fewer than 65536 rows of a file and fewer than 512 of a live stream wait in
      each buffer. */
  ghost predicate Small(st: Ingestor) {
    forall s :: s in st.sources ==>
      var state := st.sources[s];
      && state.sealRows == (if state.kind == File || state.kind == Derived then 65536 else 512)
      && forall t :: t in state.pending ==> state.pending[t].rows < state.sealRows
  }

  lemma SealedSources(st: Ingestor, source: nat, topic: nat)
    ensures SealTopic(st, source, topic).sources ==
            if HasPending(st, source, topic)
            then WithPending(st, source, st.sources[source].pending - {topic}).sources else st.sources
  {
    hide NewChunk, AppendChunk, Merged, FromRegistry;
  }

  lemma SealStaysSmall(st: Ingestor, source: nat, topic: nat)
    requires Small(st)
    ensures Small(SealTopic(st, source, topic))
  {
    hide SealTopic;
    SealedSources(st, source, topic);
  }

  lemma {:induction false} SealAllStaysSmall(st: Ingestor, seals: seq<(nat, nat)>)
    requires Small(st)
    ensures Small(SealAll(st, seals))
  {
    hide Small, SealTopic;
    if seals != [] {
      var n := |seals| - 1;
      SealAllStaysSmall(st, seals[..n]);
      SealStaysSmall(SealAll(st, seals[..n]), seals[n].0, seals[n].1);
    }
  }

  lemma BufferStaysSmall(st: Ingestor, source: nat, topic: nat, schema: TopicSchema, piece: Piece)
    requires Small(st) && piece.t != [] && source in st.sources
    ensures Small(SealIfFull(Buffered(st, source, topic, schema, piece), source, topic))
  {
    hide SealTopic, Grown;
    SealedSources(Buffered(st, source, topic, schema, piece), source, topic);
  }

  lemma BatchStaysSmall(st: Ingestor, b: Batch, order: Order)
    requires Small(st)
    ensures Small(AcceptBatch(st, b, order))
  {
    hide SealTopic, Buffered, SealIfFull, AddTopic, AddFields, PieceOf;
    if b.t != [] && b.source in st.sources {
      var (topic, st1) := EnsureTopic(st, b.source, b.schema);
      var piece := PieceOf(b, order);
      if topic.Some? && piece.t != [] {
        var st2 := if SortedTimes(b.t) then st1 else st1.(diags := st1.diags + [Unsorted(topic.value)]);
        var st3 := Timed(st2, topic.value, piece);
        SealingKeepsSources(st3, b.source, topic.value);
        SealStaysSmall(st3, b.source, topic.value);
        BufferStaysSmall(Cleared(st3, b.source, topic.value, piece), b.source, topic.value, b.schema, piece);
      }
    }
  }

  lemma PublishKeepsSources(st: Ingestor)
    ensures Publish(st).sources == st.sources
  {
    hide FromRegistry;
  }

  lemma OpenStaysSmall(st: Ingestor, key: string, kind: SourceKind)
    requires Small(st)
    ensures Small(OpenSource(st, key, kind).1)
  {
    hide AddSource;
  }

  /** Messages that concern the registry leave the buffers alone, but for those
      of a new or a removed source. */
  lemma OtherMessagesStaySmall(st: Ingestor, msg: Msg, order: Order)
    requires Small(st) && (msg.Open? || msg.Offset? || msg.Offsets? || msg.Name?)
    ensures Small(Processed(st, msg, order))
  {
    hide Publish, Relabel, SetOffset, OffsetsValid, OffsetsSet, AnyChange, OpenSource, Small;
    match msg
    case Open(key, kind) => OpenStaysSmall(st, key, kind);
    case Offset(source, offset) =>
      var r := SetOffset(st.registry, source, offset).1;
      PublishKeepsSources(st.(registry := r));
      SameSourcesStaySmall(st, SetOne(st, source, offset));
    case Offsets(offsets) =>
      PublishKeepsSources(st.(registry := OffsetsSet(st.registry, offsets)));
      SameSourcesStaySmall(st, SetMany(st, offsets));
    case Name(source, preferred) =>
      PublishKeepsSources(st.(registry := Relabel(st.registry, source, preferred).1));
      SameSourcesStaySmall(st, Rename(st, source, preferred));
    case _ => assert false;
  }

  lemma SameSourcesStaySmall(st: Ingestor, st2: Ingestor)
    requires Small(st) && st2.sources == st.sources
    ensures Small(st2)
  {
  }

  lemma RemovalStaysSmall(st: Ingestor, source: nat)
    requires Small(st)
    ensures Small(Publish(st)) && Small(Publish(Without(st, source)))
  {
    hide FromRegistry, RemoveSource;
  }

  lemma ProcessedStaysSmall(st: Ingestor, msg: Msg, order: Order)
    requires Small(st)
    ensures Small(Processed(st, msg, order))
  {
    hide Small, SealAll, AcceptBatch, Publish, Without, LiveSource;
    match msg
    case Barrier(seals) =>
      SealAllStaysSmall(st, seals);
      RemovalStaysSmall(SealAll(st, seals), 0);
    case Data(batch) => BatchStaysSmall(st, batch, order);
    case Close(source, topics, _) =>
      SealAllStaysSmall(st, Topics(source, topics));
      RemovalStaysSmall(SealAll(st, Topics(source, topics)), source);
    case Drop(source, topics) =>
      SealAllStaysSmall(st, Topics(source, topics));
      RemovalStaysSmall(SealAll(st, Topics(source, topics)), source);
    case Age(seals) => SealAllStaysSmall(st, seals);
    case _ => OtherMessagesStaySmall(st, msg, order);
  }

  /** In every run: rows wait until their buffer is full, and no longer. */
  lemma {:induction false} BuffersStaySmall(msgs: seq<Msg>, order: Order)
    ensures Small(AllProcessed(msgs, order))
  {
    hide Processed;
    if msgs != [] {
      BuffersStaySmall(msgs[..|msgs| - 1], order);
      ProcessedStaysSmall(AllProcessed(msgs[..|msgs| - 1], order), msgs[|msgs| - 1], order);
    }
  }

  // ----- Reports -----

  /** The batch has a row earlier than one that was accepted for the topic. */
  ghost predicate Regresses(st: Ingestor, topic: nat, b: Batch) {
    exists i, k :: 0 <= i < |b.t| && 0 <= k < |AcceptedRows(st.accepted, topic)|
                   && b.t[i] < AcceptedRows(st.accepted, topic)[k].t
  }

  lemma EnsuringReportsNothing(st: Ingestor, source: nat, schema: TopicSchema)
    requires source in st.sources
    ensures var st2 := EnsureTopic(st, source, schema).1;
            st2.diags == st.diags && st2.maxTs == st.maxTs && st2.accepted == st.accepted
  {
    hide AddTopic, AddFields;
  }

  lemma AcceptReports(st: Ingestor, source: nat, topic: nat, schema: TopicSchema, piece: Piece)
    requires Ready(st, source, topic, schema, piece) && piece.t != []
    ensures Accept(st, source, topic, schema, piece).diags ==
            st.diags + (if topic in st.maxTs && piece.t[0] < st.maxTs[topic] then [TimeRegression(topic)] else [])
  {
    hide GoodTopic, Linked, Recorded, SealTopic, GoodPiece;
    var st1 := ClearedFirst(st, source, topic, piece);
    SealIsGood(st, source, topic);
    ClearedCommutes(st, source, topic, piece);
    ClearedFollows(st, source, topic, schema, piece);
    TakenIsGood(st1, source, topic, schema, piece);
    SealIsGood(TakenIn(st1, source, topic, schema, piece), source, topic);
  }

  /** The first of the sorted times is the least. */
  lemma LeastTime(b: Batch, order: Order)
    requires Sorts(order) && b.t != [] && Rectangular(|b.t|, b.cols)
    ensures var piece := PieceOf(b, order);
            piece.t != [] && piece.t[0] in b.t && forall i :: 0 <= i < |b.t| ==> piece.t[0] <= b.t[i]
  {
    var p, piece := order(b.t), PieceOf(b, order);
    assert IsSorting(b.t, p);
    if SortedTimes(b.t) {
      assert b.t[0] in b.t;
    } else {
      assert piece.t == Picked(b.t, p) && b.t[p[0]] in b.t;
      forall i | 0 <= i < |b.t|
        ensures piece.t[0] <= b.t[i]
      {
        assert i in p;
        var k :| 0 <= k < |p| && p[k] == i;
        assert k > 0 ==> b.t[p[0]] <= b.t[p[k]];
      }
    }
  }

  lemma RegressionMeans(st: Ingestor, st2: Ingestor, topic: nat, b: Batch, order: Order)
    requires Good(st2) && topic in st2.stores && st2.accepted == st.accepted
    requires Sorts(order) && b.t != [] && Rectangular(|b.t|, b.cols)
    ensures PieceOf(b, order).t != []
    ensures topic in st2.maxTs && PieceOf(b, order).t[0] < st2.maxTs[topic] <==> Regresses(st, topic, b)
  {
    hide Linked, Recorded, PieceOf, AcceptedRows, Exact;
    LeastTime(b, order);
    var rows, least := AcceptedRows(st.accepted, topic), PieceOf(b, order).t[0];
    assert GoodTopic(TopicViewOf(st2, topic));
    assert IsMax(rows, MaxOf(st2, topic));
    if topic in st2.maxTs && least < st2.maxTs[topic] {
      var k :| 0 <= k < |rows| && rows[k].t == st2.maxTs[topic];
      var i :| 0 <= i < |b.t| && b.t[i] == least;
      assert b.t[i] < rows[k].t;
    }
  }

  /** What a batch is reported for: an unknown source, rows out of order, rows
      before others of its topic, and nothing else. */
  lemma DataIsReported(st: Ingestor, b: Batch, order: Order)
    requires Good(st) && Sorts(order) && (b.source in st.sources ==> Fitting(st, b))
    ensures var st2 := Processed(st, Data(b), order);
            if b.t == [] then st2 == st
            else if b.source !in st.sources then st2 == st.(diags := st.diags + [UnknownSource])
            else
              var topic := EnsureTopic(st, b.source, b.schema).0;
              && topic.Some?
              && st2.diags == st.diags + (if SortedTimes(b.t) then [] else [Unsorted(topic.value)])
                              + (if Regresses(st, topic.value, b) then [TimeRegression(topic.value)] else [])
  {
    hide GoodTopic, Linked, Recorded, SealTopic, EnsureTopic, PieceOf, Buffered, Sorts, GoodPiece;
    if b.t != [] && b.source in st.sources {
      EnsuredTopic(st, b);
      var (topic, st1) := EnsureTopic(st, b.source, b.schema);
      EnsuringReportsNothing(st, b.source, b.schema);
      PieceOfBatch(b, order);
      var piece := PieceOf(b, order);
      PieceNotEmpty(piece, |b.schema.fields|);
      var st2 := if SortedTimes(b.t) then st1 else st1.(diags := st1.diags + [Unsorted(topic.value)]);
      Noted(st1, Unsorted(topic.value));
      AcceptReports(st2, b.source, topic.value, b.schema, piece);
      RegressionMeans(st, st2, topic.value, b, order);
    }
  }

  // ----- Columns and fields -----

  /** Every column of every store has a live field of its name. */
  ghost predicate FieldsKnown(st: Ingestor) {
    forall t, c :: t in st.stores && 0 <= c < |st.stores[t].schema.fields| ==>
      (t, st.stores[t].schema.fields[c].name) in st.registry.fieldByName
  }

  /** Stores keep their schemas and fields keep their names. */
  ghost predicate KeepsFields(st: Ingestor, st2: Ingestor) {
    && (forall t :: t in st2.stores ==> t in st.stores && st2.stores[t].schema == st.stores[t].schema)
    && (forall t, name :: t in st2.stores && (t, name) in st.registry.fieldByName ==>
          (t, name) in st2.registry.fieldByName)
  }

  lemma KeptFieldsKnown(st: Ingestor, st2: Ingestor)
    requires FieldsKnown(st) && KeepsFields(st, st2)
    ensures FieldsKnown(st2)
  {
  }

  lemma AddedFieldKnown(r: Registry, topic: nat, name: string)
    requires LiveTopic(r, topic) && LiveSource(r, r.topics[topic].source)
    ensures (topic, name) in AddField(r, topic, name).1.fieldByName
    ensures forall k :: k in r.fieldByName ==> k in AddField(r, topic, name).1.fieldByName
  {
  }

  lemma {:induction false} AddedFieldsKnown(r: Registry, topic: nat, fields: seq<FieldSchema>)
    requires Valid(r) && LiveTopic(r, topic) && LiveSource(r, r.topics[topic].source)
    ensures var r2 := AddFields(r, topic, fields);
            && (forall k :: k in r.fieldByName ==> k in r2.fieldByName)
            && (forall c :: 0 <= c < |fields| ==> (topic, fields[c].name) in r2.fieldByName)
  {
    hide Valid, AddField;
    if fields != [] {
      var n := |fields| - 1;
      AddedFieldsKnown(r, topic, fields[..n]);
      FieldsKeepLive(r, topic, fields[..n]);
      AddedFieldKnown(AddFields(r, topic, fields[..n]), topic, fields[n].name);
      assert forall c :: 0 <= c < n ==> fields[..n][c] == fields[c];
    }
  }

  lemma EnsuringKnowsFields(st: Ingestor, b: Batch)
    requires Good(st) && FieldsKnown(st) && b.source in st.sources && Fitting(st, b)
    ensures FieldsKnown(EnsureTopic(st, b.source, b.schema).1)
  {
    hide GoodTopic, Recorded, Valid, AddFields, FitsTopic;
    var r, key := st.registry, (b.source, b.schema.name);
    assert LiveSource(r, b.source);
    if b.schema.name !in st.sources[b.source].topics {
      if key in r.topicByName {
        var id := r.topicByName[key];
        KnownTopic(st, b.source, b.schema.name);
        NamedIsLive(st, b.source, b.schema.name, id);
        GoodParts(st);
        AddedFieldsKnown(r, id, b.schema.fields);
      } else {
        var r1 := AddTopic(r, b.source, b.schema.name).1;
        AddedTopic(r, b.source, b.schema.name);
        LinkedIds(st, b.source);
        AddedFieldsKnown(r1, |r.topics|, b.schema.fields);
      }
    }
  }

  ghost predicate NamedField(s: Snapshot, f: nat, topic: nat, name: string) {
    f < |s.fields| && s.fields[f] == FieldEntry(f, topic, name, false)
  }

  predicate ShowsColumn(s: Snapshot, t: nat, c: nat) {
    t < |s.topics| && s.topics[t].store.Some? && c < |s.topics[t].store.value.schema.fields|
  }

  ghost predicate HasField(s: Snapshot, t: nat, c: nat)
    requires ShowsColumn(s, t, c)
  {
    exists f: nat :: NamedField(s, f, t, s.topics[t].store.value.schema.fields[c].name)
  }

  /** A snapshot has a live field for every column that it shows. */
  ghost predicate ColumnsKnown(s: Snapshot) {
    forall t: nat, c: nat :: ShowsColumn(s, t, c) ==> HasField(s, t, c)
  }

  ghost predicate Known(st: Ingestor) {
    FieldsKnown(st) && ColumnsKnown(st.current)
  }

  lemma PublishKnows(st: Ingestor)
    requires Linked(st) && FieldsKnown(st)
    ensures Known(Publish(st))
  {
    hide Labelled, TopicsIndexed, KeysIndexed, RemovedTogether, FitsTopic;
    Effects.PublishShows(st);
    KeptFieldsKnown(st, Publish(st));
    var s := Publish(st).current;
    forall t: nat, c: nat | ShowsColumn(s, t, c)
      ensures HasField(s, t, c)
    {
      var key := (t, st.stores[t].schema.fields[c].name);
      assert NamesField(st.registry, key, st.registry.fieldByName[key]);
      assert NamedField(s, st.registry.fieldByName[key], t, key.1);
    }
  }

  lemma SealKnows(st: Ingestor, source: nat, topic: nat)
    requires Good(st) && Known(st)
    ensures Known(SealTopic(st, source, topic))
  {
    hide GoodTopic, Linked, Recorded, SealTopic, Moved, ColumnsKnown;
    SealIsGood(st, source, topic);
    KeptFieldsKnown(st, SealTopic(st, source, topic));
    if HasPending(st, source, topic) {
      SealIsMove(st, source, topic);
      MoveIsLinked(st, source, topic);
      KeptFieldsKnown(st, Moved(st, source, topic));
      PublishKnows(Moved(st, source, topic));
    } else {
      NothingSealed(st, source, topic);
    }
  }

  lemma NothingSealed(st: Ingestor, source: nat, topic: nat)
    requires !HasPending(st, source, topic)
    ensures SealTopic(st, source, topic) == st
  {
  }

  lemma {:induction false} SealAllKnows(st: Ingestor, seals: seq<(nat, nat)>)
    requires Good(st) && Known(st)
    ensures Known(SealAll(st, seals)) && Good(SealAll(st, seals))
  {
    hide Good, Known, SealTopic;
    SealAllIsGood(st, seals);
    if seals != [] {
      var n := |seals| - 1;
      SealAllKnows(st, seals[..n]);
      SealKnows(SealAll(st, seals[..n]), seals[n].0, seals[n].1);
    }
  }

  lemma AcceptKnows(st: Ingestor, source: nat, topic: nat, schema: TopicSchema, piece: Piece)
    requires Ready(st, source, topic, schema, piece) && piece.t != [] && Known(st)
    ensures Known(Accept(st, source, topic, schema, piece))
  {
    hide GoodTopic, Linked, Recorded, SealTopic, GoodPiece, ColumnsKnown;
    var st1 := ClearedFirst(st, source, topic, piece);
    SealKnows(st, source, topic);
    SealIsGood(st, source, topic);
    ClearedCommutes(st, source, topic, piece);
    ClearedFollows(st, source, topic, schema, piece);
    TakenIsGood(st1, source, topic, schema, piece);
    var st2 := TakenIn(st1, source, topic, schema, piece);
    KeptFieldsKnown(st1, st2);
    SealKnows(st2, source, topic);
  }

  lemma BatchKnows(st: Ingestor, b: Batch, order: Order)
    requires Good(st) && Known(st) && Sorts(order) && (b.source in st.sources ==> Fitting(st, b))
    ensures Known(AcceptBatch(st, b, order))
  {
    hide GoodTopic, Linked, Recorded, Accept, EnsureTopic, PieceOf, Sorts, GoodPiece, ColumnsKnown;
    if b.t != [] {
      KeptFieldsKnown(st, st.(diags := st.diags + [UnknownSource]));
      if b.source in st.sources {
        EnsuredTopic(st, b);
        EnsuringKnowsFields(st, b);
        var (topic, st1) := EnsureTopic(st, b.source, b.schema);
        PieceOfBatch(b, order);
        PieceNotEmpty(PieceOf(b, order), |b.schema.fields|);
        Noted(st1, Unsorted(topic.value));
        var st2 := if SortedTimes(b.t) then st1 else st1.(diags := st1.diags + [Unsorted(topic.value)]);
        KeptFieldsKnown(st1, st2);
        AcceptKnows(st2, b.source, topic.value, b.schema, PieceOf(b, order));
      }
    }
  }

  /** A registry with the same fields by name. */
  lemma RegistryKnows(st: Ingestor, r: Registry)
    requires Good(st) && Known(st) && Good(st.(registry := r)) && r.fieldByName == st.registry.fieldByName
    ensures Known(st.(registry := r)) && Known(Publish(st.(registry := r)))
  {
    hide GoodTopic, Recorded, ColumnsKnown;
    KeptFieldsKnown(st, st.(registry := r));
    GoodParts(st.(registry := r));
    PublishKnows(st.(registry := r));
  }

  lemma {:induction false} OffsetsKeepNames(r: Registry, offsets: seq<(nat, int)>)
    ensures OffsetsSet(r, offsets).fieldByName == r.fieldByName
  {
    if offsets != [] {
      OffsetsKeepNames(r, offsets[..|offsets| - 1]);
    }
  }

  lemma SettingKnows(st: Ingestor, source: nat, offset: int, offsets: seq<(nat, int)>)
    requires Good(st) && Known(st)
    ensures Known(SetOne(st, source, offset)) && Known(SetMany(st, offsets))
  {
    hide GoodTopic, Linked, Recorded, Valid, LiveSource, Known;
    GoodParts(st);
    OffsetKeepsLive(st.registry, source, offset);
    OtherRegistry(st, SetOffset(st.registry, source, offset).1);
    RegistryKnows(st, SetOffset(st.registry, source, offset).1);
    OffsetsKeepLive(st.registry, offsets);
    OtherRegistry(st, OffsetsSet(st.registry, offsets));
    OffsetsKeepNames(st.registry, offsets);
    RegistryKnows(st, OffsetsSet(st.registry, offsets));
  }

  lemma RenamingKnows(st: Ingestor, source: nat, preferred: string)
    requires Good(st) && Known(st)
    ensures Known(Rename(st, source, preferred))
  {
    hide GoodTopic, Linked, Recorded, Valid, LiveSource, Known, LiveKeys, UniqueLabel;
    GoodParts(st);
    var r := Relabel(st.registry, source, preferred).1;
    assert r.fieldByName == st.registry.fieldByName;
    RelabelKeepsLive(st.registry, source, preferred);
    OtherRegistry(st, r);
    RegistryKnows(st, r);
  }

  lemma OpeningKnows(st: Ingestor, key: string, kind: SourceKind)
    requires Good(st) && Known(st)
    ensures Known(OpenSource(st, key, kind).1)
  {
    hide GoodTopic, Linked, Recorded, ColumnsKnown, UniqueLabel;
    KeptFieldsKnown(st, OpenSource(st, key, kind).1);
  }

  lemma WithoutKeepsFields(st: Ingestor, source: nat)
    requires Good(st) && LiveSource(st.registry, source)
    ensures KeepsFields(st, Without(st, source))
  {
    hide GoodTopic, Recorded, Labelled, TopicsIndexed, KeysIndexed, RemoveSource;
    GoodParts(st);
    RegistryEffects.RemoveTakesEffect(st.registry, source);
    RemoveSourceKeepsValid(st.registry, source);
    WithoutIsLinked(st, source);
    var st2 := Without(st, source);
    forall t, name | t in st2.stores && (t, name) in st.registry.fieldByName
      ensures (t, name) in st2.registry.fieldByName
    {
      var f := st.registry.fieldByName[(t, name)];
      assert NamesField(st.registry, (t, name), f);
      assert NamesField(st2.registry, (t, name), f);
    }
  }

  lemma RemovingKnows(st: Ingestor, source: nat, topics: seq<nat>)
    requires Good(st) && Known(st)
    ensures Known(Remove(st, source, topics))
  {
    hide GoodTopic, Linked, Recorded, Without, SealAll, ColumnsKnown;
    SealAllKnows(st, Topics(source, topics));
    var st1 := SealAll(st, Topics(source, topics));
    if LiveSource(st1.registry, source) {
      WithoutKeepsFields(st1, source);
      WithoutIsGood(st1, source);
      KeptFieldsKnown(st1, Without(st1, source));
      GoodParts(Without(st1, source));
      PublishKnows(Without(st1, source));
    }
  }

  lemma ProcessedKnows(st: Ingestor, msg: Msg, order: Order)
    requires Good(st) && Known(st) && Sorts(order) && Fed(st, msg)
    ensures Known(Processed(st, msg, order))
  {
    hide Good, Known, SealAll, AcceptBatch, Remove, Rename, OpenSource, SetOne, SetMany, Sorts, Fitting;
    match msg
    case Barrier(seals) =>
      SealAllKnows(st, seals);
      PublishedKnows(SealAll(st, seals));
    case Open(key, kind) => OpeningKnows(st, key, kind);
    case Data(batch) => BatchKnows(st, batch, order);
    case Close(source, topics, _) =>
      SealAllKnows(st, Topics(source, topics));
      PublishedKnows(SealAll(st, Topics(source, topics)));
    case Offset(source, offset) => SettingKnows(st, source, offset, []);
    case Offsets(offsets) => SettingKnows(st, 0, 0, offsets);
    case Drop(source, topics) => RemovingKnows(st, source, topics);
    case Name(source, preferred) => RenamingKnows(st, source, preferred);
    case Age(seals) => SealAllKnows(st, seals);
  }

  lemma PublishedKnows(st: Ingestor)
    requires Good(st) && Known(st)
    ensures Known(Publish(st))
  {
    hide GoodTopic, Linked, Recorded, ColumnsKnown;
    GoodParts(st);
    PublishKnows(st);
  }

  /** In every run the published snapshot has a live field for every column that
      it shows, so that readers can ask for it. */
  lemma {:induction false} EveryColumnHasAField(msgs: seq<Msg>, order: Order)
    requires Sorts(order) && WellFed(msgs, order)
    ensures Known(AllProcessed(msgs, order)) && ColumnsKnown(AllProcessed(msgs, order).current)
  {
    hide Good, Processed, Fed, Sorts;
    if msgs != [] {
      var before := msgs[..|msgs| - 1];
      EveryColumnHasAField(before, order);
      RunIsGood(before, order);
      ProcessedKnows(AllProcessed(before, order), msgs[|msgs| - 1], order);
    }
  }

  // ----- Which offsets the rows allow -----

  /** The offset leaves the time within 64 bits. */
  predicate Fits64(t: int, offset: int) {
    -0x8000_0000_0000_0000 <= t + offset <= 0x7FFF_FFFF_FFFF_FFFF
  }

  predicate AllFit64(rows: seq<Row>, offset: int) {
    forall i :: 0 <= i < |rows| ==> Fits64(rows[i].t, offset)
  }

  lemma AllFitBoth(a: seq<Row>, b: seq<Row>, offset: int)
    ensures AllFit64(a + b, offset) <==> AllFit64(a, offset) && AllFit64(b, offset)
  {
    if AllFit64(a + b, offset) {
      assert forall i :: 0 <= i < |a| ==> (a + b)[i] == a[i];
      assert forall i :: 0 <= i < |b| ==> (a + b)[|a| + i] == b[i];
    }
  }

  /** Sorted times fit if the first and the last do. */
  lemma TableFits(t: seq<int>, cols: seq<seq<Cell>>, offset: int)
    requires t != [] && SortedTimes(t) && Rectangular(|t|, cols)
    ensures AllFit64(TableRows(t, cols), offset) <==> Fits64(t[0], offset) && Fits64(t[|t| - 1], offset)
  {
    var rows := TableRows(t, cols);
    assert rows[0].t == t[0] && rows[|t| - 1].t == t[|t| - 1];
    forall i | 0 <= i < |t|
      ensures rows[i].t == t[i] && t[0] <= t[i] <= t[|t| - 1]
    {
    }
  }

  lemma PieceFits(p: Piece, columns: nat, offset: int)
    requires GoodPiece(p, columns)
    ensures AllFit64(PieceRows(p), offset) <==> PieceShifts(p, offset)
  {
    hide AllFit64;
    TableFits(p.t, p.cols, offset);
  }

  lemma {:induction false} PiecesFit(pieces: seq<Piece>, columns: nat, offset: int)
    requires forall i :: 0 <= i < |pieces| ==> GoodPiece(pieces[i], columns)
    ensures AllFit64(PiecesRows(pieces), offset) <==> forall i :: 0 <= i < |pieces| ==> PieceShifts(pieces[i], offset)
  {
    hide GoodPiece, PieceShifts, PieceRows;
    if pieces != [] {
      var n := |pieces| - 1;
      PiecesFit(pieces[..n], columns, offset);
      AllFitBoth(PiecesRows(pieces[..n]), PieceRows(pieces[n]), offset);
      PieceFits(pieces[n], columns, offset);
    }
  }

  predicate ChunkShifts(c: Chunk, offset: int) {
    Fits64(c.tMin, offset) && Fits64(c.tMax, offset)
  }

  lemma ChunkFits(c: Chunk, columns: nat, offset: int)
    requires ValidChunk(c, columns)
    ensures AllFit64(IngestRows.ChunkRows(c), offset) <==> ChunkShifts(c, offset)
  {
    hide AllFit64;
    TableFits(c.t, c.cols, offset);
  }

  lemma {:induction false} ChunksFit(chunks: seq<Chunk>, columns: nat, offset: int)
    requires forall k :: 0 <= k < |chunks| ==> ValidChunk(chunks[k], columns)
    ensures AllFit64(StoreRows(chunks), offset) <==> forall k :: 0 <= k < |chunks| ==> ChunkShifts(chunks[k], offset)
  {
    hide ValidChunk, ChunkShifts, IngestRows.ChunkRows;
    if chunks != [] {
      var n := |chunks| - 1;
      ChunksFit(chunks[..n], columns, offset);
      AllFitBoth(StoreRows(chunks[..n]), IngestRows.ChunkRows(chunks[n]), offset);
      ChunkFits(chunks[n], columns, offset);
    }
  }

  lemma StoreFits(s: TopicStore, offset: int)
    requires Exact(s)
    ensures StoreShifts(s, offset) <==> AllFit64(StoreRows(s.chunks), offset)
  {
    hide RowCount, InOrder, StoreRows, AllFit64;
    ChunksFit(s.chunks, |s.schema.fields|, offset);
    forall k | 0 <= k < |s.chunks|
      ensures s.chunks[k].tMin <= s.chunks[k].tMax
    {
      assert ValidChunk(s.chunks[k], |s.schema.fields|);
    }
  }

  /** Every row that readers see or that is buffered for the source allows the
      offset. */
  ghost predicate RowsAllow(st: Ingestor, source: nat, offset: int) {
    forall t :: t in st.stores && TopicOfSource(st.registry, t, source) ==>
      AllFit64(StoreRows(st.stores[t].chunks), offset) && AllFit64(PendingRows(PendingOf(st, t)), offset)
  }

  predicate BufferShifts(st: Ingestor, source: nat, t: nat, offset: int)
    requires source in st.sources
  {
    t in st.sources[source].pending ==>
      forall i :: 0 <= i < |st.sources[source].pending[t].pieces| ==>
        PieceShifts(st.sources[source].pending[t].pieces[i], offset)
  }

  lemma ShiftableMeans(st: Ingestor, source: nat, offset: int)
    requires Good(st)
    ensures Shiftable(st, source, offset) <==> LiveSource(st.registry, source) && RowsAllow(st, source, offset)
  {
    hide AllFit64, Valid, GoodTopic, Recorded, StoreRows, PiecesRows, PieceShifts, StoreShifts;
    if LiveSource(st.registry, source) {
      assert source in st.sources;
      Effects.StoresHaveTopics(st);
      forall t | t in st.stores && TopicOfSource(st.registry, t, source)
        ensures StoreShifts(st.stores[t], offset) <==> AllFit64(StoreRows(st.stores[t].chunks), offset)
        ensures AllFit64(PendingRows(PendingOf(st, t)), offset) <==> BufferShifts(st, source, t, offset)
      {
        TopicFits(st, source, t, offset);
      }
      hide PendingOf, PendingRows;
      BuffersOfSource(st, source, offset);
    }
  }

  /** Only topics of the source are buffered for it. */
  lemma BuffersOfSource(st: Ingestor, source: nat, offset: int)
    requires Linked(st) && source in st.sources
    ensures forall t :: t in st.sources[source].pending ==> t in st.stores && TopicOfSource(st.registry, t, source)
    ensures Shiftable(st, source, offset) <==>
              && LiveSource(st.registry, source)
              && forall t :: t in st.stores && TopicOfSource(st.registry, t, source) ==>
                   BufferShifts(st, source, t, offset) && StoreShifts(st.stores[t], offset)
  {
    hide Valid, PieceShifts, StoreShifts, LiveSource, NamesTopic;
    Effects.StoresHaveTopics(st);
    forall t | t in st.sources[source].pending
      ensures t in st.stores && TopicOfSource(st.registry, t, source)
    {
    }
    if forall t :: t in st.stores && TopicOfSource(st.registry, t, source) ==>
         BufferShifts(st, source, t, offset) && StoreShifts(st.stores[t], offset) {
      forall t | t in st.sources[source].pending
        ensures BufferShifts(st, source, t, offset)
      {
        assert TopicOfSource(st.registry, t, source);
      }
    }
  }

  lemma TopicFits(st: Ingestor, source: nat, t: nat, offset: int)
    requires Good(st) && t in st.stores && TopicOfSource(st.registry, t, source)
    ensures StoreShifts(st.stores[t], offset) <==> AllFit64(StoreRows(st.stores[t].chunks), offset)
    ensures source in st.sources ==>
              (AllFit64(PendingRows(PendingOf(st, t)), offset) <==> BufferShifts(st, source, t, offset))
  {
    hide Linked, Recorded, Exact, StoreRows, PieceShifts, IsMax, RowsSorted;
    assert GoodTopic(TopicViewOf(st, t));
    StoreFits(st.stores[t], offset);
    var p := PendingOf(st, t);
    if p.Some? {
      PiecesFit(p.value.pieces, |st.stores[t].schema.fields|, offset);
    }
  }

  /** A list of offsets is valid exactly if it names live sources, each once,
      and every row of theirs, stored or buffered, has a time of 64 bits under
      its source's offset. */
  lemma OffsetsValidExactly(st: Ingestor, offsets: seq<(nat, int)>)
    requires Good(st)
    ensures OffsetsValid(st, offsets) <==>
              && (forall i, j :: 0 <= i < j < |offsets| ==> offsets[i].0 != offsets[j].0)
              && forall i :: 0 <= i < |offsets| ==>
                   LiveSource(st.registry, offsets[i].0) && RowsAllow(st, offsets[i].0, offsets[i].1)
  {
    hide Good, Shiftable, RowsAllow, LiveSource;
    forall i | 0 <= i < |offsets|
      ensures Shiftable(st, offsets[i].0, offsets[i].1) <==>
                LiveSource(st.registry, offsets[i].0) && RowsAllow(st, offsets[i].0, offsets[i].1)
    {
      ShiftableMeans(st, offsets[i].0, offsets[i].1);
    }
  }
}
