/** From the messages to what readers see: every row that was sent for an open
    source is in the published snapshot or still buffered, and nothing else is. */
module IngestConservation {
  import opened Storage
  import opened Store
  import opened Identity
  import opened Snapshots
  import opened Ingest
  import opened IngestRows
  import opened IngestProofs
  import opened IngestRuns
  import opened IngestSafety
  import opened IngestHistory

  // ----- What the messages say by themselves -----

  /** How many sources were opened; their ids are the numbers below. */
  function OpenedBy(msgs: seq<Msg>): nat {
    if msgs == [] then 0
    else OpenedBy(msgs[..|msgs| - 1]) + if msgs[|msgs| - 1].Open? then 1 else 0
  }

  /** A source is open from when it was opened until it is dropped. */
  predicate OpenAfter(msgs: seq<Msg>, source: nat) {
    msgs != [] &&
    var before, msg := msgs[..|msgs| - 1], msgs[|msgs| - 1];
    (OpenAfter(before, source) && !(msg.Drop? && msg.source == source)) || (msg.Open? && source == OpenedBy(before))
  }

  /** The message is a batch for this source and topic. */
  predicate IsFor(msg: Msg, source: nat, name: string) {
    msg.Data? && msg.batch.t != [] && msg.batch.source == source && msg.batch.schema.name == name
  }

  /** The rows of all batches for a topic that came while its source was open,
      each batch in order of time. */
  function SentRows(msgs: seq<Msg>, order: Order, source: nat, name: string): seq<Row> {
    if msgs == [] then []
    else
      var before, msg := msgs[..|msgs| - 1], msgs[|msgs| - 1];
      var rows := SentRows(before, order, source, name);
      if IsFor(msg, source, name) && OpenAfter(before, source)
      then rows + PieceRows(PieceOf(msg.batch, order))
      else rows
  }

  lemma {:induction false} OpenIsBelow(msgs: seq<Msg>, source: nat)
    requires OpenAfter(msgs, source)
    ensures source < OpenedBy(msgs)
  {
    if OpenAfter(msgs[..|msgs| - 1], source) {
      OpenIsBelow(msgs[..|msgs| - 1], source);
    }
  }

  lemma {:induction false} NothingBeforeOpening(msgs: seq<Msg>, order: Order, source: nat, name: string)
    requires source >= OpenedBy(msgs)
    ensures SentRows(msgs, order, source, name) == []
  {
    if msgs != [] {
      var before := msgs[..|msgs| - 1];
      NothingBeforeOpening(before, order, source, name);
      if OpenAfter(before, source) {
        OpenIsBelow(before, source);
      }
    }
  }

  // ----- What a message does to the sources -----

  ghost predicate SourcesAfter(r: Registry, msg: Msg, r2: Registry) {
    && |r2.sources| == |r.sources| + (if msg.Open? then 1 else 0)
    && forall s: nat :: LiveSource(r2, s) <==>
         (LiveSource(r, s) && !(msg.Drop? && msg.source == s)) || (msg.Open? && s == |r.sources|)
  }

  lemma EnsuringKeepsSources(st: Ingestor, source: nat, schema: TopicSchema)
    requires Good(st) && source in st.sources
    ensures EnsureTopic(st, source, schema).1.registry.sources == st.registry.sources
  {
    hide GoodTopic, Recorded, Valid, LiveTopic;
    if schema.name !in st.sources[source].topics {
      var (id, r) := AddTopic(st.registry, source, schema.name);
      AddingTopicKeepsValid(st, source, schema.name);
      if id.Some? {
        FieldsKeepLive(r, id.value, schema.fields);
      }
    }
  }

  lemma AddingTopicKeepsValid(st: Ingestor, source: nat, name: string)
    requires Good(st)
    ensures Valid(AddTopic(st.registry, source, name).1)
    ensures AddTopic(st.registry, source, name).1.sources == st.registry.sources
  {
    hide GoodTopic, Recorded, NamesTopic;
    AddTopicKeepsValid(st.registry, source, name);
  }

  lemma BatchKeepsSources(st: Ingestor, b: Batch, order: Order)
    requires Good(st) && Sorts(order) && (b.source in st.sources ==> Fitting(st, b))
    ensures var r2 := AcceptBatch(st, b, order).registry;
            |r2.sources| == |st.registry.sources| && forall s: nat :: LiveSource(r2, s) <==> LiveSource(st.registry, s)
  {
    hide GoodTopic, Linked, Recorded, Accept, EnsureTopic, PieceOf, Sorts, GoodPiece;
    if b.t != [] && b.source in st.sources {
      EnsuringKeepsSources(st, b.source, b.schema);
      BatchTopic(st, b, order);
    }
  }

  /** The state of a batch's topic just before the batch is taken in. */
  lemma BatchTopic(st: Ingestor, b: Batch, order: Order)
    requires Good(st) && Sorts(order) && b.t != [] && b.source in st.sources && Fitting(st, b)
    ensures var (id, st1) := EnsureTopic(st, b.source, b.schema);
            && id.Some? && TopicReady(st, b, id.value, st1)
            && AcceptBatch(st, b, order).registry == st1.registry
            && AcceptBatch(st, b, order).accepted == st.accepted + [(id.value, PieceOf(b, order))]
  {
    hide GoodTopic, Linked, Accept, EnsureTopic, PieceOf, Sorts, GoodPiece, Recorded;
    EnsuredTopic(st, b);
    var (topic, st1) := EnsureTopic(st, b.source, b.schema);
    PieceOfBatch(b, order);
    Noted(st1, Unsorted(topic.value));
    var st2 := if SortedTimes(b.t) then st1 else st1.(diags := st1.diags + [Unsorted(topic.value)]);
    assert Ready(st2, b.source, topic.value, b.schema, PieceOf(b, order));
    PieceNotEmpty(PieceOf(b, order), |b.schema.fields|);
    AcceptIsGood(st2, b.source, topic.value, b.schema, PieceOf(b, order));
  }

  lemma RemovalOfSource(st: Ingestor, source: nat, topics: seq<nat>)
    requires Good(st)
    ensures var st2 := Remove(st, source, topics);
            && st2.accepted == st.accepted && |st2.registry.sources| == |st.registry.sources|
            && forall s: nat :: LiveSource(st2.registry, s) <==> LiveSource(st.registry, s) && s != source
  {
    hide GoodTopic, Linked, Recorded, Valid, SealAll, Without, LiveSource;
    SealAllIsGood(st, Topics(source, topics));
    var st1 := SealAll(st, Topics(source, topics));
    if LiveSource(st1.registry, source) {
      WithoutSource(st1, source);
    }
  }

  lemma WithoutSource(st: Ingestor, source: nat)
    requires Good(st) && LiveSource(st.registry, source)
    ensures var st2 := Without(st, source);
            && st2.accepted == st.accepted && |st2.registry.sources| == |st.registry.sources|
            && forall s: nat :: LiveSource(st2.registry, s) <==> LiveSource(st.registry, s) && s != source
  {
    hide GoodTopic, Linked, Recorded, Valid, RemoveSource;
    GoodParts(st);
    RemovedRegistry(st.registry, source);
    RemovedEntries(st.registry, source);
    assert Without(st, source).registry == RemoveSource(st.registry, source);
  }

  lemma {:induction false} OffsetsKeepCount(r: Registry, offsets: seq<(nat, int)>)
    ensures |OffsetsSet(r, offsets).sources| == |r.sources|
  {
    if offsets != [] {
      OffsetsKeepCount(r, offsets[..|offsets| - 1]);
    }
  }

  lemma OffsetKeepsCount(r: Registry, source: nat, offset: int)
    ensures |SetOffset(r, source, offset).1.sources| == |r.sources|
  {
  }

  lemma SealingKeepsRegistry(st: Ingestor, seals: seq<(nat, nat)>)
    requires Good(st)
    ensures var st1 := SealAll(st, seals);
            && st1.registry == Publish(st1).registry == st.registry
            && st1.accepted == Publish(st1).accepted == st.accepted
  {
    hide GoodTopic, Linked, Recorded, SealAll;
    SealAllIsGood(st, seals);
  }

  lemma OffsetSources(st: Ingestor, source: nat, offset: int)
    requires Valid(st.registry)
    ensures SourcesAfter(st.registry, Offset(source, offset), SetOne(st, source, offset).registry)
    ensures SetOne(st, source, offset).accepted == st.accepted
  {
    hide Valid, LiveSource, SetOffset;
    OffsetKeepsLive(st.registry, source, offset);
    OffsetKeepsCount(st.registry, source, offset);
  }

  lemma OffsetsSources(st: Ingestor, offsets: seq<(nat, int)>)
    requires Valid(st.registry)
    ensures SourcesAfter(st.registry, Offsets(offsets), SetMany(st, offsets).registry)
    ensures SetMany(st, offsets).accepted == st.accepted
  {
    hide Valid, LiveSource, OffsetsSet, OffsetsValid, AnyChange;
    OffsetsKeepLive(st.registry, offsets);
    OffsetsKeepCount(st.registry, offsets);
  }

  lemma RenameSources(st: Ingestor, source: nat, preferred: string)
    requires Valid(st.registry)
    ensures SourcesAfter(st.registry, Name(source, preferred), Rename(st, source, preferred).registry)
    ensures Rename(st, source, preferred).accepted == st.accepted
  {
    hide Valid, LiveSource, Relabel;
    RelabelKeepsLive(st.registry, source, preferred);
    RelabelKeepsCount(st.registry, source, preferred);
  }

  lemma ProcessedSources(st: Ingestor, msg: Msg, order: Order)
    requires Good(st) && Sorts(order) && Fed(st, msg)
    ensures SourcesAfter(st.registry, msg, Processed(st, msg, order).registry)
    ensures !msg.Data? ==> Processed(st, msg, order).accepted == st.accepted
  {
    hide GoodTopic, Linked, Recorded, Sorts, Fitting, SealAll, AcceptBatch, AddSource, Valid, LiveSource, Publish;
    hide SetOne, SetMany, Rename, Remove;
    GoodParts(st);
    match msg
    case Barrier(seals) => SealingKeepsRegistry(st, seals);
    case Open(key, kind) =>
      OpenedRegistry(st.registry, key);
      OneMoreSource(st.registry, key);
    case Data(batch) => BatchKeepsSources(st, batch, order);
    case Close(source, topics, _) => SealingKeepsRegistry(st, Topics(source, topics));
    case Offset(source, offset) => OffsetSources(st, source, offset);
    case Offsets(offsets) => OffsetsSources(st, offsets);
    case Drop(source, topics) => RemovalOfSource(st, source, topics);
    case Name(source, preferred) => RenameSources(st, source, preferred);
    case Age(seals) => SealingKeepsRegistry(st, seals);
  }

  lemma OneMoreSource(r: Registry, key: string)
    ensures |AddSource(r, key).1.sources| == |r.sources| + 1
  {
  }

  lemma RelabelKeepsCount(r: Registry, source: nat, preferred: string)
    ensures |Relabel(r, source, preferred).1.sources| == |r.sources|
    ensures Relabel(r, source, preferred).0.None? ==> Relabel(r, source, preferred).1 == r
  {
  }

  // ----- Topics by name -----

  ghost predicate IsTopic(st: Ingestor, t: nat, source: nat, name: string) {
    t in st.stores && t < |st.registry.topics| && st.registry.topics[t].source == source
      && st.registry.topics[t].name == name
  }

  lemma OneTopicEach(st: Ingestor, t: nat, u: nat, source: nat, name: string)
    requires Good(st) && IsTopic(st, t, source, name) && IsTopic(st, u, source, name)
    ensures t == u
  {
    hide GoodTopic, Recorded, Labelled, FieldsIndexed, KeysIndexed, RemovedTogether;
    assert NamesTopic(st.registry, (source, name), t) && NamesTopic(st.registry, (source, name), u);
  }

  /** A topic goes only with its source. */
  lemma TopicStays(st: Ingestor, st2: Ingestor, t: nat, source: nat, name: string)
    requires Good(st) && Good(st2) && Later(st, st2) && IsTopic(st, t, source, name) && source in st2.sources
    ensures IsTopic(st2, t, source, name)
  {
    hide GoodTopic, Recorded, Labelled, FieldsIndexed, KeysIndexed, TopicsIndexed;
    assert LiveSource(st2.registry, source);
    assert LiveTopic(st2.registry, t);
  }

  lemma KnownIds(st: Ingestor, t: nat)
    requires Good(st) && t in st.stores
    ensures t < |st.registry.topics| && st.registry.topics[t].source in st.sources
    ensures st.registry.topics[t].name == st.stores[t].schema.name
  {
    hide GoodTopic, Recorded, Labelled, FieldsIndexed, KeysIndexed, TopicsIndexed;
    GoodParts(st);
    LinkedTopic(st, t);
    assert FitsTopic(st.registry, t, st.stores[t]);
  }

  // ----- Runs -----

  ghost predicate AllSent(st: Ingestor, msgs: seq<Msg>, order: Order) {
    && |st.registry.sources| == OpenedBy(msgs)
    && (forall s: nat :: s in st.sources <==> OpenAfter(msgs, s))
    && (forall t, s, name :: IsTopic(st, t, s, name) ==> AcceptedRows(st.accepted, t) == SentRows(msgs, order, s, name))
    && (forall s, name :: s in st.sources && (forall t: nat :: !IsTopic(st, t, s, name)) ==>
          SentRows(msgs, order, s, name) == [])
  }

  /** What one more message adds to a topic. */
  lemma OneMoreMessage(msgs: seq<Msg>, order: Order, t: nat, source: nat, name: string)
    requires Sorts(order) && WellFed(msgs, order) && msgs != [] && Good(AllProcessed(msgs, order))
    requires var st := AllProcessed(msgs[..|msgs| - 1], order);
             Good(st) && Later(st, AllProcessed(msgs, order)) && AllSent(st, msgs[..|msgs| - 1], order)
    requires IsTopic(AllProcessed(msgs, order), t, source, name)
    ensures var added := if IsFor(msgs[|msgs| - 1], source, name) && OpenAfter(msgs[..|msgs| - 1], source)
                         then PieceRows(PieceOf(msgs[|msgs| - 1].batch, order)) else [];
            AcceptedRows(AllProcessed(msgs, order).accepted, t)
            == AcceptedRows(AllProcessed(msgs[..|msgs| - 1], order).accepted, t) + added
  {
    hide Good, Sorts, Processed, Later, Fitting, PieceOf;
    var before, msg := msgs[..|msgs| - 1], msgs[|msgs| - 1];
    var st, st2 := AllProcessed(before, order), AllProcessed(msgs, order);
    ProcessedSources(st, msg, order);
    if msg.Data? {
      DataRows(st, msg.batch, order, t, source, name);
    }
  }

  lemma DataRows(st: Ingestor, b: Batch, order: Order, t: nat, source: nat, name: string)
    requires Good(st) && Sorts(order) && Fed(st, Data(b)) && Good(Processed(st, Data(b), order))
    requires IsTopic(Processed(st, Data(b), order), t, source, name)
    ensures AcceptedRows(Processed(st, Data(b), order).accepted, t)
         == AcceptedRows(st.accepted, t)
            + if IsFor(Data(b), source, name) && source in st.sources then PieceRows(PieceOf(b, order)) else []
  {
    hide Good, Sorts, Fitting, PieceOf, EnsureTopic;
    if b.t != [] && b.source in st.sources {
      BatchTopic(st, b, order);
      var (id, st1) := EnsureTopic(st, b.source, b.schema);
      var st2 := AcceptBatch(st, b, order);
      assert st2.accepted[..|st.accepted|] == st.accepted;
      KnownIds(st1, id.value);
      SameStores(st1, st2);
      assert IsTopic(st2, id.value, b.source, b.schema.name);
      if (source, name) == (b.source, b.schema.name) {
        OneTopicEach(st2, t, id.value, source, name);
      }
    } else {
      NotTakenIn(st, b, order);
    }
  }

  lemma NotTakenIn(st: Ingestor, b: Batch, order: Order)
    requires b.t == [] || b.source !in st.sources
    ensures AcceptBatch(st, b, order).accepted == st.accepted
  {
  }

  lemma SameStores(st: Ingestor, st2: Ingestor)
    requires Good(st) && Good(st2) && st.registry == st2.registry
    ensures st.stores.Keys == st2.stores.Keys
  {
    hide GoodTopic, Recorded, Valid, LiveTopic;
  }

  /** A topic that is new was not sent anything before. */
  lemma NewTopicHasNoRows(st: Ingestor, st2: Ingestor, msgs: seq<Msg>, order: Order, t: nat, source: nat, name: string)
    requires Good(st) && Good(st2) && Later(st, st2) && AllSent(st, msgs, order)
    requires IsTopic(st2, t, source, name) && !IsTopic(st, t, source, name)
    requires source in st.sources || source >= OpenedBy(msgs)
    ensures AcceptedRows(st.accepted, t) == [] && SentRows(msgs, order, source, name) == []
  {
    hide Good;
    NewTopicId(st, st2, t);
    NothingAccepted(st.accepted, t);
    KnownIds(st2, t);
    if source in st.sources {
      forall u: nat
        ensures !IsTopic(st, u, source, name)
      {
        if IsTopic(st, u, source, name) {
          TopicStays(st, st2, u, source, name);
          OneTopicEach(st2, t, u, source, name);
        }
      }
    } else {
      NothingBeforeOpening(msgs, order, source, name);
    }
  }

  lemma NewTopicId(st: Ingestor, st2: Ingestor, t: nat)
    requires Good(st) && Later(st, st2) && t in st2.stores && t < |st2.registry.topics|
    requires !IsTopic(st, t, st2.registry.topics[t].source, st2.registry.topics[t].name)
    ensures t >= |st.registry.topics| && forall a :: a in st.accepted ==> a.0 < t
  {
    hide Valid, GoodTopic, LiveTopic, LiveSource, RowTotal;
  }

  lemma {:induction false} RunIsSent(msgs: seq<Msg>, order: Order)
    requires Sorts(order) && WellFed(msgs, order)
    ensures AllSent(AllProcessed(msgs, order), msgs, order)
  {
    hide Good, Sorts, Processed, Later, Reflects, IsTopic, PieceOf, Fed, SourcesAfter, AcceptedRows;
    if msgs == [] {
      NothingSent(order);
    } else {
      var before, msg := msgs[..|msgs| - 1], msgs[|msgs| - 1];
      var st, st2 := AllProcessed(before, order), AllProcessed(msgs, order);
      RunIsSent(before, order);
      RunReflects(before, order);
      RunIsGood(msgs, order);
      ProcessedFollows(st, msg, order);
      SourcesFollow(msgs, order);
      forall t, s, name | IsTopic(st2, t, s, name)
        ensures AcceptedRows(st2.accepted, t) == SentRows(msgs, order, s, name)
      {
        TopicIsSent(msgs, order, t, s, name);
      }
      forall s, name | s in st2.sources && forall t: nat :: !IsTopic(st2, t, s, name)
        ensures SentRows(msgs, order, s, name) == []
      {
        NoTopicNothingSent(msgs, order, s, name);
      }
    }
  }

  lemma NothingSent(order: Order)
    ensures AllSent(INITIAL, [], order)
  {
  }

  /** The hypotheses of the induction. */
  ghost predicate OneMore(msgs: seq<Msg>, order: Order) {
    msgs != [] && Sorts(order) && WellFed(msgs, order) && Good(AllProcessed(msgs, order)) &&
    var before := msgs[..|msgs| - 1];
    var st := AllProcessed(before, order);
    Good(st) && Later(st, AllProcessed(msgs, order)) && AllSent(st, before, order)
  }

  lemma SourcesFollow(msgs: seq<Msg>, order: Order)
    requires OneMore(msgs, order)
    ensures var st2 := AllProcessed(msgs, order);
            && |st2.registry.sources| == OpenedBy(msgs)
            && forall s: nat :: s in st2.sources <==> OpenAfter(msgs, s)
  {
    hide GoodTopic, Recorded, Valid, Sorts, Processed, Later, IsTopic, LiveSource, LiveTopic, NamesTopic, SentRows;
    var before, msg := msgs[..|msgs| - 1], msgs[|msgs| - 1];
    ProcessedSources(AllProcessed(before, order), msg, order);
  }

  lemma TopicIsSent(msgs: seq<Msg>, order: Order, t: nat, s: nat, name: string)
    requires OneMore(msgs, order) && IsTopic(AllProcessed(msgs, order), t, s, name)
    ensures AcceptedRows(AllProcessed(msgs, order).accepted, t) == SentRows(msgs, order, s, name)
  {
    hide Good, Sorts, Processed, Later, PieceOf, Fed, AcceptedRows, IsTopic, OpenAfter, OpenedBy;
    var before := msgs[..|msgs| - 1];
    var st, st2 := AllProcessed(before, order), AllProcessed(msgs, order);
    OneMoreMessage(msgs, order, t, s, name);
    if !IsTopic(st, t, s, name) {
      SourceOfNew(msgs, order, t, s, name);
      NewTopicHasNoRows(st, st2, before, order, t, s, name);
    }
    assert AcceptedRows(st.accepted, t) == SentRows(before, order, s, name);
    assert SentRows(before, order, s, name) + [] == SentRows(before, order, s, name);
  }

  lemma SourceOfNew(msgs: seq<Msg>, order: Order, t: nat, s: nat, name: string)
    requires OneMore(msgs, order) && IsTopic(AllProcessed(msgs, order), t, s, name)
    ensures s in AllProcessed(msgs[..|msgs| - 1], order).sources || s >= OpenedBy(msgs[..|msgs| - 1])
  {
    hide Good, Sorts, Processed, Later, PieceOf, Fed, AcceptedRows, SentRows;
    KnownIds(AllProcessed(msgs, order), t);
    SourcesFollow(msgs, order);
  }

  lemma NoTopicNothingSent(msgs: seq<Msg>, order: Order, s: nat, name: string)
    requires OneMore(msgs, order) && s in AllProcessed(msgs, order).sources
    requires forall t: nat :: !IsTopic(AllProcessed(msgs, order), t, s, name)
    ensures SentRows(msgs, order, s, name) == []
  {
    hide Good, Sorts, Processed, Later, PieceOf, AcceptedRows, IsTopic, Fitting, OpenedBy;
    var before, msg := msgs[..|msgs| - 1], msgs[|msgs| - 1];
    var st, st2 := AllProcessed(before, order), AllProcessed(msgs, order);
    SourcesFollow(msgs, order);
    if s in st.sources {
      forall t: nat
        ensures !IsTopic(st, t, s, name)
      {
        if IsTopic(st, t, s, name) {
          TopicStays(st, st2, t, s, name);
        }
      }
      if IsFor(msg, s, name) {
        assert Fed(st, msg) && msg == Data(msg.batch);
        BatchMakesTopic(st, msg.batch, order);
      }
    } else {
      NothingBeforeOpening(before, order, s, name);
    }
  }

  lemma BatchMakesTopic(st: Ingestor, b: Batch, order: Order)
    requires Good(st) && Sorts(order) && b.t != [] && b.source in st.sources && Fitting(st, b)
    requires Good(Processed(st, Data(b), order))
    ensures exists t: nat :: IsTopic(Processed(st, Data(b), order), t, b.source, b.schema.name)
  {
    hide Good, Sorts, Fitting, PieceOf, EnsureTopic, AcceptBatch;
    BatchTopic(st, b, order);
    var (id, st1) := EnsureTopic(st, b.source, b.schema);
    KnownIds(st1, id.value);
    SameStores(st1, AcceptBatch(st, b, order));
    assert IsTopic(AcceptBatch(st, b, order), id.value, b.source, b.schema.name);
  }

  // ----- The whole way -----

  /** The rows of a topic in the published snapshot. */
  function ShownRows(s: Snapshot, t: nat): seq<Row> {
    if t < |s.topics| && s.topics[t].store.Some? then StoreRows(s.topics[t].store.value.chunks) else []
  }

  lemma StoreIsShown(st: Ingestor, t: nat)
    requires Reflects(st) && t in st.stores
    ensures ShownRows(st.current, t) == StoreRows(st.stores[t].chunks)
  {
  }

  /** What was sent for the topic while its source was open is what the
      published snapshot shows, and then what is buffered. */
  ghost predicate ShownOrBuffered(st: Ingestor, msgs: seq<Msg>, order: Order, t: nat) {
    t < |st.registry.topics| &&
    var e := st.registry.topics[t];
    && OpenAfter(msgs, e.source)
    && SentRows(msgs, order, e.source, e.name) == ShownRows(st.current, t) + PendingRows(PendingOf(st, t))
  }

  /** In every run, after every message, this holds of every topic, and the
      published snapshot shows no other rows. */
  lemma SentIsShownOrBuffered(msgs: seq<Msg>, order: Order)
    requires Sorts(order) && WellFed(msgs, order)
    ensures var st := AllProcessed(msgs, order);
            && (forall t :: t in st.stores ==> ShownOrBuffered(st, msgs, order, t))
            && (forall t: nat :: t !in st.stores ==> ShownRows(st.current, t) == [])
  {
    hide Good, Sorts, Later, IsTopic, AcceptedRows, SentRows, OpenAfter, OpenedBy, PendingOf, LiveTopic, Exact;
    hide IngestRows.StoreRows, WellFed, AllProcessed;
    var st := AllProcessed(msgs, order);
    RunIsSent(msgs, order);
    RunReflects(msgs, order);
    RowsAreConserved(msgs, order);
    forall t | t in st.stores
      ensures ShownOrBuffered(st, msgs, order, t)
    {
      KnownIds(st, t);
      StoreIsShown(st, t);
      TopicByName(st, t);
    }
  }

  lemma TopicByName(st: Ingestor, t: nat)
    requires t in st.stores && t < |st.registry.topics|
    ensures IsTopic(st, t, st.registry.topics[t].source, st.registry.topics[t].name)
  {
  }
}
