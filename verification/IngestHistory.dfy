/** How the writer's states follow one another, and what readers see of them. */
module IngestHistory {
  import opened Storage
  import opened Identity
  import opened Snapshots
  import opened Ingest
  import opened IngestRows
  import opened IngestProofs
  import opened IngestRuns
  import opened IngestSafety

  // ----- Later states and published snapshots -----

  /** Topics and fields are only added or marked as removed. */
  ghost predicate SameEntries(topics: seq<TopicEntry>, fields: seq<FieldEntry>, r: Registry) {
    && |topics| <= |r.topics| && |fields| <= |r.fields|
    && (forall i :: 0 <= i < |topics| ==> r.topics[i] == topics[i].(removed := r.topics[i].removed))
    && (forall i :: 0 <= i < |fields| ==> r.fields[i] == fields[i].(removed := r.fields[i].removed))
  }

  /** A topic's store is new, or has the chunks it had and perhaps more. */
  ghost predicate StoresGrew(st: Ingestor, st2: Ingestor) {
    forall t :: t in st2.stores && t < |st.registry.topics| ==>
      && t in st.stores && st2.stores[t].schema == st.stores[t].schema
      && st.stores[t].chunks <= st2.stores[t].chunks
  }

  ghost predicate Later(st: Ingestor, st2: Ingestor) {
    SameEntries(st.registry.topics, st.registry.fields, st2.registry) && StoresGrew(st, st2)
  }

  lemma LaterStill(a: Ingestor, b: Ingestor, c: Ingestor)
    requires Later(a, b) && Later(b, c)
    ensures Later(a, c)
  {
  }

  function EntriesOf(s: Snapshot): (topics: seq<TopicEntry>)
    ensures |topics| == |s.topics| && forall i :: 0 <= i < |topics| ==> topics[i] == s.topics[i].entry
  {
    seq(|s.topics|, i requires 0 <= i < |s.topics| => s.topics[i].entry)
  }

  /** The snapshot shows no store but the writer's own, and of these all that
      have rows. */
  ghost predicate ShowsStores(s: Snapshot, st: Ingestor) {
    && (forall i :: 0 <= i < |s.topics| && s.topics[i].store.Some? ==>
          i in st.stores && st.stores[i] == s.topics[i].store.value)
    && (forall t :: t in st.stores && st.stores[t].chunks != [] ==> t < |s.topics| && s.topics[t].store.Some?)
  }

  /** The current snapshot shows the state it was published from, in which at
      most empty stores have been added since. */
  ghost predicate Reflects(st: Ingestor) {
    SameEntries(EntriesOf(st.current), st.current.fields, st.registry) && ShowsStores(st.current, st)
  }

  ghost predicate Follows(st: Ingestor, st2: Ingestor) {
    Later(st, st2) && Reflects(st2)
  }

  lemma FollowsOn(a: Ingestor, b: Ingestor, c: Ingestor)
    requires Follows(a, b) && Follows(b, c)
    ensures Follows(a, c)
  {
    LaterStill(a, b, c);
  }

  lemma PublishFollows(a: Ingestor, st: Ingestor)
    requires Later(a, st) && Linked(st)
    ensures Follows(a, Publish(st))
  {
    hide Valid, LiveTopic, LiveSource, NamesTopic;
    PublishSucceeds(st);
    assert forall t :: t in st.stores ==> FitsTopic(st.registry, t, st.stores[t]);
  }

  /** Neither stores nor the registry's topics and fields are touched. */
  lemma Untouched(st: Ingestor, st2: Ingestor)
    requires Reflects(st) && st2.stores == st.stores && st2.current == st.current
    requires st2.registry.topics == st.registry.topics && st2.registry.fields == st.registry.fields
    ensures Follows(st, st2)
  {
  }

  // ----- Sealing -----

  lemma SealFollows(st: Ingestor, source: nat, topic: nat)
    requires Good(st) && Reflects(st)
    ensures Follows(st, SealTopic(st, source, topic))
  {
    hide Linked, Recorded, GoodTopic, Reflects, Moved, SealTopic;
    if HasPending(st, source, topic) {
      SealIsMove(st, source, topic);
      MoveIsLinked(st, source, topic);
      SealedStoreGrew(TopicViewOf(st, topic));
      MovedIsLater(st, source, topic);
      PublishFollows(st, Moved(st, source, topic));
    } else {
      NothingToSeal(st, source, topic);
      Untouched(st, st);
    }
  }

  lemma NothingToSeal(st: Ingestor, source: nat, topic: nat)
    requires !HasPending(st, source, topic)
    ensures SealTopic(st, source, topic) == st
  {
  }

  lemma SealedStoreGrew(v: TopicView)
    ensures v.store.chunks <= Sealed(v).store.chunks
  {
  }

  lemma MovedIsLater(st: Ingestor, source: nat, topic: nat)
    requires HasPending(st, source, topic) && Extended(st, Moved(st, source, topic))
    requires topic in st.stores
    requires Moved(st, source, topic).stores == st.stores[topic := Sealed(TopicViewOf(st, topic)).store]
    requires st.stores[topic].chunks <= Sealed(TopicViewOf(st, topic)).store.chunks
    ensures Later(st, Moved(st, source, topic))
  {
    hide Moved, Sealed;
  }

  lemma {:induction false} SealAllFollows(st: Ingestor, seals: seq<(nat, nat)>)
    requires Good(st) && Reflects(st)
    ensures Follows(st, SealAll(st, seals))
  {
    hide Good, Reflects, SealTopic, Later;
    if seals == [] {
      Untouched(st, st);
    } else {
      var n := |seals| - 1;
      SealAllFollows(st, seals[..n]);
      SealAllIsGood(st, seals[..n]);
      SealFollows(SealAll(st, seals[..n]), seals[n].0, seals[n].1);
      FollowsOn(st, SealAll(st, seals[..n]), SealAll(st, seals));
    }
  }

  // ----- Batches -----

  lemma {:induction false} AddedFieldsKeepEntries(r: Registry, topic: nat, fields: seq<FieldSchema>)
    ensures SameEntries(r.topics, r.fields, AddFields(r, topic, fields))
  {
    if fields != [] {
      AddedFieldsKeepEntries(r, topic, fields[..|fields| - 1]);
    }
  }

  lemma MakingFollows(st: Ingestor, source: nat, schema: TopicSchema)
    requires Linked(st) && Reflects(st) && source in st.sources && (source, schema.name) !in st.registry.topicByName
    ensures Follows(st, WithTopic(st, source, schema))
  {
    hide Valid, NamesTopic, LiveTopic, FitsTopic, LiveSource, AddTopic;
    assert LiveSource(st.registry, source);
    MadeEntry(st.registry, source, schema.name);
    LinkedIds(st, source);
  }

  lemma MadeEntry(r: Registry, source: nat, name: string)
    requires LiveSource(r, source) && (source, name) !in r.topicByName
    ensures AddTopic(r, source, name).1.topics == r.topics + [TopicEntry(|r.topics|, source, name, false)]
    ensures AddTopic(r, source, name).1.fields == r.fields
  {
  }

  lemma AddingFieldsFollows(st: Ingestor, topic: nat, fields: seq<FieldSchema>)
    requires Reflects(st)
    ensures Follows(st, st.(registry := AddFields(st.registry, topic, fields)))
  {
    AddedFieldsKeepEntries(st.registry, topic, fields);
    AddedFieldsKeepTopics(st.registry, topic, fields);
  }

  lemma {:induction false} AddedFieldsKeepTopics(r: Registry, topic: nat, fields: seq<FieldSchema>)
    ensures AddFields(r, topic, fields).topics == r.topics
  {
    if fields != [] {
      AddedFieldsKeepTopics(r, topic, fields[..|fields| - 1]);
    }
  }

  lemma EnsuringFollows(st: Ingestor, b: Batch)
    requires Good(st) && Reflects(st) && b.source in st.sources
    ensures Follows(st, EnsureTopic(st, b.source, b.schema).1)
  {
    hide GoodTopic, Recorded, Valid, NamesTopic, LiveTopic, FitsTopic, LiveSource, Reflects, Later, AddFields;
    assert LiveSource(st.registry, b.source);
    Untouched(st, st);
    if b.schema.name !in st.sources[b.source].topics {
      var key := (b.source, b.schema.name);
      if key in st.registry.topicByName {
        var id := st.registry.topicByName[key];
        KnownTopic(st, b.source, b.schema.name);
        var st1 := WithName(st, b.source, b.schema.name, id);
        Untouched(st, st1);
        AddingFieldsFollows(st1, id, b.schema.fields);
        FollowsOn(st, st1, EnsureTopic(st, b.source, b.schema).1);
      } else {
        var st1, id := WithTopic(st, b.source, b.schema), |st.registry.topics|;
        MakingFollows(st, b.source, b.schema);
        LinkedIds(st, b.source);
        AddingFieldsFollows(st1, id, b.schema.fields);
        FollowsOn(st, st1, EnsureTopic(st, b.source, b.schema).1);
      }
    }
  }

  lemma TakingFollows(st: Ingestor, source: nat, topic: nat, schema: TopicSchema, piece: Piece)
    requires Reflects(st) && piece.t != [] && source in st.sources
    ensures Follows(st, TakenIn(st, source, topic, schema, piece))
  {
    hide Reflects;
    UntouchedByTaking(st, source, topic, schema, piece);
    Untouched(st, TakenIn(st, source, topic, schema, piece));
  }

  lemma AcceptFollows(st: Ingestor, source: nat, topic: nat, schema: TopicSchema, piece: Piece)
    requires Ready(st, source, topic, schema, piece) && Reflects(st)
    ensures piece.t != [] && Follows(st, Accept(st, source, topic, schema, piece))
  {
    hide GoodTopic, Linked, Recorded, SealTopic, Timed, Buffered, GoodPiece, Reflects, Later, IngestRuns.Follows;
    assert piece.t != [] by {
      assert GoodPiece(piece, |schema.fields|);
      PieceNotEmpty(piece, |schema.fields|);
    }
    var st1 := ClearedFirst(st, source, topic, piece);
    SealIsGood(st, source, topic);
    var st2 := TakenIn(st1, source, topic, schema, piece);
    Untouched(st, st);
    SealFollows(st, source, topic);
    ClearedCommutes(st, source, topic, piece);
    ClearedFollows(st, source, topic, schema, piece);
    TakingFollows(st1, source, topic, schema, piece);
    TakenIsGood(st1, source, topic, schema, piece);
    Untouched(st2, st2);
    SealFollows(st2, source, topic);
    FollowsOn(st, st1, st2);
    FollowsOn(st, st2, SealIfFull(st2, source, topic));
  }

  lemma BatchFollows(st: Ingestor, b: Batch, order: Order)
    requires Good(st) && Sorts(order) && Reflects(st) && (b.source in st.sources ==> Fitting(st, b))
    ensures Follows(st, AcceptBatch(st, b, order))
  {
    hide GoodTopic, Linked, Recorded, Accept, EnsureTopic, PieceOf, Sorts, GoodPiece, Reflects, Later;
    Untouched(st, st);
    if b.t != [] {
      Untouched(st, st.(diags := st.diags + [UnknownSource]));
      if b.source in st.sources {
        EnsuredTopic(st, b);
        EnsuringFollows(st, b);
        var (topic, st1) := EnsureTopic(st, b.source, b.schema);
        PieceOfBatch(b, order);
        Noted(st1, Unsorted(topic.value));
        var st2 := if SortedTimes(b.t) then st1 else st1.(diags := st1.diags + [Unsorted(topic.value)]);
        Untouched(st1, st2);
        FollowsOn(st, st1, st2);
        assert Ready(st2, b.source, topic.value, b.schema, PieceOf(b, order));
        AcceptFollows(st2, b.source, topic.value, b.schema, PieceOf(b, order));
        FollowsOn(st, st2, AcceptBatch(st, b, order));
      }
    }
  }

  // ----- The other messages -----

  lemma OpenFollows(st: Ingestor, key: string, kind: SourceKind)
    requires Reflects(st)
    ensures Follows(st, OpenSource(st, key, kind).1)
  {
    hide Reflects;
    Untouched(st, OpenSource(st, key, kind).1);
  }

  /** A registry with other sources, published or not. */
  lemma RegistryFollows(st: Ingestor, r: Registry)
    requires Good(st) && Reflects(st) && Good(st.(registry := r))
    requires r.topics == st.registry.topics && r.fields == st.registry.fields
    ensures Follows(st, st.(registry := r)) && Follows(st, Publish(st.(registry := r)))
  {
    hide GoodTopic, Recorded, Linked, Reflects;
    Untouched(st, st.(registry := r));
    PublishFollows(st, st.(registry := r));
  }

  lemma {:induction false} OffsetsKeepFields(r: Registry, offsets: seq<(nat, int)>)
    ensures OffsetsSet(r, offsets).topics == r.topics && OffsetsSet(r, offsets).fields == r.fields
  {
    if offsets != [] {
      OffsetsKeepFields(r, offsets[..|offsets| - 1]);
    }
  }

  lemma OffsetsFollow(st: Ingestor, offsets: seq<(nat, int)>)
    requires Good(st) && Reflects(st)
    ensures Follows(st, SetMany(st, offsets))
  {
    hide GoodTopic, Linked, Recorded, Reflects, Later;
    Untouched(st, st);
    GoodParts(st);
    OffsetsKeepLive(st.registry, offsets);
    OffsetsKeepFields(st.registry, offsets);
    OtherRegistry(st, OffsetsSet(st.registry, offsets));
    RegistryFollows(st, OffsetsSet(st.registry, offsets));
  }

  lemma OffsetFollows(st: Ingestor, source: nat, offset: int)
    requires Good(st) && Reflects(st)
    ensures Follows(st, SetOne(st, source, offset))
  {
    hide GoodTopic, Linked, Recorded, Reflects, Later, Valid, LiveSource;
    GoodParts(st);
    OffsetKeepsLive(st.registry, source, offset);
    OtherRegistry(st, SetOffset(st.registry, source, offset).1);
    RegistryFollows(st, SetOffset(st.registry, source, offset).1);
  }

  lemma RelabelKeepsFields(r: Registry, source: nat, preferred: string)
    ensures Relabel(r, source, preferred).1.topics == r.topics && Relabel(r, source, preferred).1.fields == r.fields
    ensures Relabel(r, source, preferred).0.None? ==> Relabel(r, source, preferred).1 == r
  {
  }

  lemma RenameFollows(st: Ingestor, source: nat, preferred: string)
    requires Good(st) && Reflects(st)
    ensures Follows(st, Rename(st, source, preferred))
  {
    hide GoodTopic, Linked, Recorded, Reflects, Later, Valid, LiveSource, Relabel;
    Untouched(st, st);
    GoodParts(st);
    RelabelKeepsLive(st.registry, source, preferred);
    RelabelKeepsFields(st.registry, source, preferred);
    OtherRegistry(st, Relabel(st.registry, source, preferred).1);
    RegistryFollows(st, Relabel(st.registry, source, preferred).1);
  }

  lemma WithoutIsLater(st: Ingestor, source: nat)
    requires Good(st) && LiveSource(st.registry, source)
    ensures Later(st, Without(st, source))
  {
    hide GoodTopic, Recorded, Linked, RemovedTogether, Labelled, FieldsIndexed, KeysIndexed, TopicsIndexed;
    GoodParts(st);
    RemovedEntries(st.registry, source);
  }

  lemma RemoveFollows(st: Ingestor, source: nat, topics: seq<nat>)
    requires Good(st) && Reflects(st)
    ensures Follows(st, Remove(st, source, topics))
  {
    hide GoodTopic, Linked, Recorded, Reflects, Later, Valid, SealAll, Without;
    SealAllIsGood(st, Topics(source, topics));
    SealAllFollows(st, Topics(source, topics));
    var st1 := SealAll(st, Topics(source, topics));
    if LiveSource(st1.registry, source) {
      WithoutIsLater(st1, source);
      WithoutIsGood(st1, source);
      PublishFollows(st1, Without(st1, source));
      FollowsOn(st, st1, Publish(Without(st1, source)));
    }
  }

  // ----- Runs -----

  /** Every message leaves a later state, and a snapshot that reflects it. */
  lemma ProcessedFollows(st: Ingestor, msg: Msg, order: Order)
    requires Good(st) && Sorts(order) && Fed(st, msg) && Reflects(st)
    ensures Follows(st, Processed(st, msg, order))
  {
    hide GoodTopic, Linked, Recorded, Sorts, Fitting, SealAll, AcceptBatch, OpenSource, SetOne, SetMany, Remove, Rename;
    hide Reflects, Later;
    match msg
    case Barrier(seals) => PublishedFollows(st, seals);
    case Open(key, kind) => OpenFollows(st, key, kind);
    case Data(batch) => BatchFollows(st, batch, order);
    case Close(source, topics, _) =>
      PublishedFollows(st, Topics(source, topics));
      SealAllFollows(st, Topics(source, topics));
    case Offset(source, offset) => OffsetFollows(st, source, offset);
    case Offsets(offsets) => OffsetsFollow(st, offsets);
    case Drop(source, topics) => RemoveFollows(st, source, topics);
    case Name(source, preferred) => RenameFollows(st, source, preferred);
    case Age(seals) => SealAllFollows(st, seals);
  }

  lemma PublishedFollows(st: Ingestor, seals: seq<(nat, nat)>)
    requires Good(st) && Reflects(st)
    ensures Follows(st, Publish(SealAll(st, seals)))
  {
    hide GoodTopic, Linked, Recorded, Reflects, Later, SealAll;
    SealAllFollows(st, seals);
    SealAllIsGood(st, seals);
    PublishFollows(st, SealAll(st, seals));
  }

  lemma InitialReflects()
    ensures Reflects(INITIAL)
  {
  }

  lemma {:induction false} RunReflects(msgs: seq<Msg>, order: Order)
    requires Sorts(order) && WellFed(msgs, order)
    ensures Good(AllProcessed(msgs, order)) && Reflects(AllProcessed(msgs, order))
  {
    hide Good, Sorts, Processed, Fed, Reflects, Later;
    RunIsGood(msgs, order);
    if msgs == [] {
      InitialReflects();
    } else {
      var n := |msgs| - 1;
      RunReflects(msgs[..n], order);
      ProcessedFollows(AllProcessed(msgs[..n], order), msgs[n], order);
    }
  }

  /** Each state of a run is later than those before it. */
  lemma {:induction false} RunIsLater(msgs: seq<Msg>, i: nat, order: Order)
    requires Sorts(order) && WellFed(msgs, order) && i <= |msgs|
    ensures Later(AllProcessed(msgs[..i], order), AllProcessed(msgs, order))
  {
    hide Good, Sorts, Processed, Fed, Reflects, Later;
    if i == |msgs| {
      assert msgs[..i] == msgs;
      RunReflects(msgs, order);
      Untouched(AllProcessed(msgs, order), AllProcessed(msgs, order));
    } else {
      var n := |msgs| - 1;
      RunIsLater(msgs[..n], i, order);
      assert msgs[..n][..i] == msgs[..i];
      RunReflects(msgs[..n], order);
      ProcessedFollows(AllProcessed(msgs[..n], order), msgs[n], order);
      LaterStill(AllProcessed(msgs[..i], order), AllProcessed(msgs[..n], order), AllProcessed(msgs, order));
    }
  }
}
