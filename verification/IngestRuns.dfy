/** Every message keeps the writer good, so every run does. */
module IngestRuns {
  import opened Prelude
  import opened Storage
  import opened Store
  import opened Identity
  import opened Snapshots
  import opened Ingest
  import opened IngestRows
  import opened IngestProofs

  // ----- Changes of the registry -----

  /** A registry that differs in labels, offsets and fields only. */
  lemma OtherRegistry(st: Ingestor, r: Registry)
    requires Good(st) && Valid(r) && r.topics == st.registry.topics
    requires forall s: nat :: LiveSource(r, s) <==> LiveSource(st.registry, s)
    ensures Good(st.(registry := r))
  {
    hide GoodTopic, Valid, LiveSource, RowTotal, Failure;
    var st2 := st.(registry := r);
    forall t: nat
      ensures LiveTopic(r, t) == LiveTopic(st.registry, t)
    {
    }
    forall k, t: nat
      ensures NamesTopic(r, k, t) == NamesTopic(st.registry, k, t)
    {
    }
    forall t | t in st2.stores
      ensures GoodTopic(TopicViewOf(st2, t))
    {
      assert TopicViewOf(st2, t) == TopicViewOf(st, t);
    }
  }

  lemma OffsetKeepsLive(r: Registry, source: nat, offset: int)
    requires Valid(r)
    ensures var r2 := SetOffset(r, source, offset).1;
            Valid(r2) && r2.topics == r.topics && forall s: nat :: LiveSource(r2, s) <==> LiveSource(r, s)
  {
    SetOffsetKeepsValid(r, source, offset);
  }

  lemma {:induction false} OffsetsKeepLive(r: Registry, offsets: seq<(nat, int)>)
    requires Valid(r)
    ensures var r2 := OffsetsSet(r, offsets);
            Valid(r2) && r2.topics == r.topics && forall s: nat :: LiveSource(r2, s) <==> LiveSource(r, s)
  {
    if offsets != [] {
      var n := |offsets| - 1;
      OffsetsKeepLive(r, offsets[..n]);
      OffsetKeepsLive(OffsetsSet(r, offsets[..n]), offsets[n].0, offsets[n].1);
    }
  }

  lemma RelabelKeepsLive(r: Registry, source: nat, preferred: string)
    requires Valid(r)
    ensures var r2 := Relabel(r, source, preferred).1;
            Valid(r2) && r2.topics == r.topics && forall s: nat :: LiveSource(r2, s) <==> LiveSource(r, s)
  {
    RelabelKeepsValid(r, source, preferred);
  }

  lemma {:induction false} FieldsKeepLive(r: Registry, topic: nat, fields: seq<FieldSchema>)
    requires Valid(r)
    ensures var r2 := AddFields(r, topic, fields);
            Valid(r2) && r2.topics == r.topics && r2.sources == r.sources
  {
    if fields != [] {
      var n := |fields| - 1;
      FieldsKeepLive(r, topic, fields[..n]);
      AddFieldKeepsValid(AddFields(r, topic, fields[..n]), topic, fields[n].name);
    }
  }

  // ----- Topics -----

  /** The batch is a table of its schema, and the topic's schema if it has one. */
  ghost predicate Fitting(st: Ingestor, b: Batch) {
    && |b.cols| == |b.schema.fields| && Rectangular(|b.t|, b.cols)
    && forall t ::
         t in st.stores && TopicOfSource(st.registry, t, b.source) && st.registry.topics[t].name == b.schema.name ==>
           st.stores[t].schema == b.schema
  }

  /** A new topic, with its store. */
  function WithTopic(st: Ingestor, source: nat, schema: TopicSchema): Ingestor
    requires source in st.sources
  {
    var id := |st.registry.topics|;
    var state := st.sources[source];
    st.(registry := AddTopic(st.registry, source, schema.name).1,
        stores := st.stores[id := NewStore(schema)],
        sources := st.sources[source := state.(topics := state.topics[schema.name := id])])
  }

  lemma AddedTopic(r: Registry, source: nat, name: string)
    requires Valid(r) && LiveSource(r, source) && (source, name) !in r.topicByName
    ensures var r2, n := AddTopic(r, source, name).1, |r.topics|;
            && Valid(r2) && r2.topics == r.topics + [TopicEntry(n, source, name, false)] && !LiveTopic(r, n)
            && (forall s: nat :: LiveSource(r2, s) <==> LiveSource(r, s))
            && (forall t: nat :: LiveTopic(r2, t) <==> LiveTopic(r, t) || t == n)
            && (forall t: nat :: LiveTopic(r, t) ==> t < n)
            && (forall k, t: nat :: NamesTopic(r, k, t) ==> NamesTopic(r2, k, t))
            && NamesTopic(r2, (source, name), n)
  {
    hide RemovedTogether, Labelled, FieldsIndexed, KeysIndexed, TopicsIndexed;
    AddTopicKeepsValid(r, source, name);
  }

  lemma NewTopicKeepsLinks(st: Ingestor, source: nat, schema: TopicSchema)
    requires Linked(st) && source in st.sources && (source, schema.name) !in st.registry.topicByName
    ensures Linked(WithTopic(st, source, schema)) && |st.registry.topics| !in st.stores
  {
    hide Valid, AddTopic, LiveTopic, LiveSource, NamesTopic, FitsTopic;
    AddedTopic(st.registry, source, schema.name);
    var st2, n := WithTopic(st, source, schema), |st.registry.topics|;
    assert forall t :: t in st.stores ==> t < n && st2.stores[t] == st.stores[t];
    FitsOneMore(st, source, schema);
    forall s, t | s in st2.sources && t in st2.sources[s].pending
      ensures t in st2.stores && st2.registry.topics[t].source == s
    {
      assert t in st.sources[s].pending;
    }
  }

  lemma FitsOneMore(st: Ingestor, source: nat, schema: TopicSchema)
    requires Linked(st) && source in st.sources && (source, schema.name) !in st.registry.topicByName
    ensures forall t :: t in WithTopic(st, source, schema).stores ==>
              FitsTopic(WithTopic(st, source, schema).registry, t, WithTopic(st, source, schema).stores[t])
  {
    hide Valid, LiveTopic, NamesTopic;
    assert LiveSource(st.registry, source);
    AddedTopic(st.registry, source, schema.name);
  }

  lemma NewTopicIsRecorded(st: Ingestor, source: nat, schema: TopicSchema)
    requires Linked(st) && Recorded(st) && source in st.sources && (source, schema.name) !in st.registry.topicByName
    ensures Recorded(WithTopic(st, source, schema))
  {
    hide Valid, AddTopic, LiveTopic, LiveSource, NamesTopic, RowTotal, Failure;
    AddedTopic(st.registry, source, schema.name);
  }

  lemma NewTopicIsLinked(st: Ingestor, source: nat, schema: TopicSchema)
    requires Good(st) && source in st.sources && (source, schema.name) !in st.registry.topicByName
    ensures Linked(WithTopic(st, source, schema)) && Recorded(WithTopic(st, source, schema))
    ensures |st.registry.topics| !in st.stores
  {
    hide GoodTopic, Linked, Recorded;
    NewTopicKeepsLinks(st, source, schema);
    NewTopicIsRecorded(st, source, schema);
  }

  lemma NewTopicView(st: Ingestor, source: nat, schema: TopicSchema)
    requires Good(st) && source in st.sources && |st.registry.topics| !in st.stores
    requires LiveSource(st.registry, source) && (source, schema.name) !in st.registry.topicByName
    ensures TopicViewOf(WithTopic(st, source, schema), |st.registry.topics|)
         == TopicView(NewStore(schema), None, [], None, false)
  {
    hide GoodTopic, Valid, RowTotal, Failure;
    NothingAccepted(st.accepted, |st.registry.topics|);
  }

  lemma OtherTopicView(st: Ingestor, source: nat, schema: TopicSchema, t: nat)
    requires Good(st) && source in st.sources && t in st.stores && t < |st.registry.topics|
    requires LiveSource(st.registry, source) && (source, schema.name) !in st.registry.topicByName
    ensures TopicViewOf(WithTopic(st, source, schema), t) == TopicViewOf(st, t)
  {
    hide GoodTopic, Valid, RowTotal, Failure;
  }

  lemma LinkedIds(st: Ingestor, source: nat)
    requires Linked(st) && source in st.sources
    ensures LiveSource(st.registry, source) && forall t :: t in st.stores ==> t < |st.registry.topics|
  {
    hide Valid;
  }

  lemma NewTopicIsGood(st: Ingestor, source: nat, schema: TopicSchema)
    requires Good(st) && source in st.sources && (source, schema.name) !in st.registry.topicByName
    ensures Good(WithTopic(st, source, schema))
  {
    hide GoodTopic, Linked, Recorded;
    NewTopicIsLinked(st, source, schema);
    NewViewIsGood(schema);
    var st2 := WithTopic(st, source, schema);
    forall t | t in st2.stores
      ensures GoodTopic(TopicViewOf(st2, t))
    {
      LinkedIds(st, source);
      if t == |st.registry.topics| {
        NewTopicView(st, source, schema);
      } else {
        OtherTopicView(st, source, schema, t);
      }
    }
  }

  lemma NewViewIsGood(schema: TopicSchema)
    ensures GoodTopic(TopicView(NewStore(schema), None, [], None, false))
  {
    NewStoreIsExact(schema);
  }

  lemma {:induction false} NothingAccepted(accepted: seq<(nat, Piece)>, topic: nat)
    requires forall a :: a in accepted ==> a.0 < topic
    ensures AcceptedRows(accepted, topic) == []
  {
    if accepted != [] {
      var n := |accepted| - 1;
      assert accepted[n] in accepted;
      NothingAccepted(accepted[..n], topic);
    }
  }

  /** The topic's name is in the source's table too. */
  function WithName(st: Ingestor, source: nat, name: string, id: nat): Ingestor
    requires source in st.sources
  {
    var state := st.sources[source];
    st.(sources := st.sources[source := state.(topics := state.topics[name := id])])
  }

  lemma KnownTopic(st: Ingestor, source: nat, name: string)
    requires Good(st) && (source, name) in st.registry.topicByName
    ensures var id := st.registry.topicByName[(source, name)];
            NamesTopic(st.registry, (source, name), id) && id in st.stores
  {
    hide GoodTopic, RowTotal, Failure, RemovedTogether, Labelled, FieldsIndexed, KeysIndexed;
    var id := st.registry.topicByName[(source, name)];
    assert NamesTopic(st.registry, (source, name), id);
    assert LiveTopic(st.registry, id);
  }

  lemma NamedIsLinked(st: Ingestor, source: nat, name: string, id: nat)
    requires Linked(st) && Recorded(st) && source in st.sources && NamesTopic(st.registry, (source, name), id)
    ensures Linked(WithName(st, source, name, id)) && Recorded(WithName(st, source, name, id))
  {
    hide Valid, NamesTopic, LiveTopic, LiveSource, RowTotal, Failure;
  }

  lemma KnownTopicIsGood(st: Ingestor, source: nat, name: string)
    requires Good(st) && source in st.sources && (source, name) in st.registry.topicByName
    ensures var id := st.registry.topicByName[(source, name)];
            NamesTopic(st.registry, (source, name), id) && id in st.stores && Good(WithName(st, source, name, id))
  {
    hide GoodTopic, Linked, Recorded;
    KnownTopic(st, source, name);
    var id := st.registry.topicByName[(source, name)];
    NamedIsLinked(st, source, name, id);
    var st2 := WithName(st, source, name, id);
    forall t | t in st2.stores
      ensures GoodTopic(TopicViewOf(st2, t))
    {
      assert TopicViewOf(st2, t) == TopicViewOf(st, t);
    }
  }

  /** What finding or making a batch's topic gives. */
  ghost predicate TopicReady(st: Ingestor, b: Batch, id: nat, st2: Ingestor) {
    && Good(st2) && id in st2.stores && b.source in st2.sources
    && st2.stores[id].schema == b.schema && st2.registry.topics[id].source == b.source
    && st2.accepted == st.accepted && st2.current == st.current && st2.rowsIngested == st.rowsIngested
  }

  lemma AddedFieldsAreReady(st: Ingestor, b: Batch, id: nat, st1: Ingestor)
    requires TopicReady(st, b, id, st1)
    ensures TopicReady(st, b, id, st1.(registry := AddFields(st1.registry, id, b.schema.fields)))
  {
    hide GoodTopic, RowTotal, Failure;
    FieldsKeepLive(st1.registry, id, b.schema.fields);
    OtherRegistry(st1, AddFields(st1.registry, id, b.schema.fields));
  }

  lemma ListedTopic(st: Ingestor, b: Batch)
    requires Good(st) && b.source in st.sources && Fitting(st, b) && b.schema.name in st.sources[b.source].topics
    ensures var id := st.sources[b.source].topics[b.schema.name]; TopicReady(st, b, id, st)
  {
    hide GoodTopic, RowTotal, Failure, Valid, Recorded;
    var id := st.sources[b.source].topics[b.schema.name];
    assert NamesTopic(st.registry, (b.source, b.schema.name), id);
    NamedIsLive(st, b.source, b.schema.name, id);
  }

  lemma RegisteredTopic(st: Ingestor, b: Batch)
    requires Good(st) && b.source in st.sources && Fitting(st, b)
    requires (b.source, b.schema.name) in st.registry.topicByName
    ensures var id := st.registry.topicByName[(b.source, b.schema.name)];
            TopicReady(st, b, id, WithName(st, b.source, b.schema.name, id))
  {
    hide GoodTopic, RowTotal, Failure, Valid, Recorded;
    KnownTopicIsGood(st, b.source, b.schema.name);
  }

  lemma MadeTopic(st: Ingestor, b: Batch)
    requires Good(st) && b.source in st.sources && (b.source, b.schema.name) !in st.registry.topicByName
    ensures TopicReady(st, b, |st.registry.topics|, WithTopic(st, b.source, b.schema))
    ensures |st.registry.topics| !in st.stores && LiveSource(st.registry, b.source)
  {
    hide GoodTopic, RowTotal, Failure, Valid, Recorded;
    NewTopicIsGood(st, b.source, b.schema);
    NewTopicIsLinked(st, b.source, b.schema);
  }

  /** A batch's topic is found or made, with the batch's schema. */
  lemma EnsuredTopic(st: Ingestor, b: Batch)
    requires Good(st) && b.source in st.sources && Fitting(st, b)
    ensures var (id, st2) := EnsureTopic(st, b.source, b.schema);
            id.Some? && TopicReady(st, b, id.value, st2)
  {
    hide GoodTopic, RowTotal, Failure, Valid, Recorded, TopicReady, Fitting;
    var r := st.registry;
    assert LiveSource(r, b.source);
    if b.schema.name in st.sources[b.source].topics {
      ListedTopic(st, b);
    } else if (b.source, b.schema.name) in r.topicByName {
      var id := r.topicByName[(b.source, b.schema.name)];
      RegisteredTopic(st, b);
      KnownTopic(st, b.source, b.schema.name);
      AddedFieldsAreReady(st, b, id, WithName(st, b.source, b.schema.name, id));
    } else {
      MadeTopic(st, b);
      AddedFieldsAreReady(st, b, |r.topics|, WithTopic(st, b.source, b.schema));
    }
  }

  lemma NamedIsLive(st: Ingestor, source: nat, name: string, id: nat)
    requires Linked(st) && NamesTopic(st.registry, (source, name), id)
    ensures id in st.stores
  {
    assert LiveTopic(st.registry, id);
  }

  // ----- Batches -----

  /** A topic that is ready for a piece. */
  ghost predicate Ready(st: Ingestor, source: nat, topic: nat, schema: TopicSchema, piece: Piece) {
    && Good(st) && source in st.sources && topic in st.stores && st.stores[topic].schema == schema
    && st.registry.topics[topic].source == source && GoodPiece(piece, |schema.fields|)
  }

  /** The buffer, if any, does not end after the piece begins. */
  ghost predicate Follows(st: Ingestor, source: nat, topic: nat, piece: Piece)
    requires piece.t != []
  {
    var p := PendingAt(st, source, topic);
    p.Some? && p.value.lastTs.Some? ==> p.value.lastTs.value <= piece.t[0]
  }

  function TakenIn(st: Ingestor, source: nat, topic: nat, schema: TopicSchema, piece: Piece): Ingestor
    requires piece.t != [] && source in st.sources
  {
    Buffered(Timed(st, topic, piece), source, topic, schema, piece)
  }

  lemma TakenViews(st: Ingestor, source: nat, topic: nat, schema: TopicSchema, piece: Piece, t: nat)
    requires Ready(st, source, topic, schema, piece) && t in st.stores
    ensures var st2 := TakenIn(st, source, topic, schema, piece);
            TopicViewOf(st2, t) == if t == topic then Taken(TopicViewOf(st, t), piece) else TopicViewOf(st, t)
  {
    hide GoodTopic, Valid, RowTotal, Failure, Linked, Recorded, GoodPiece;
    PieceNotEmpty(piece, |schema.fields|);
    TopicKnown(st, topic);
    var st2 := TakenIn(st, source, topic, schema, piece);
    assert st2.accepted[..|st.accepted|] == st.accepted;
    PendingUnlessTopic(st, source, topic, schema, piece, t);
  }

  lemma PendingUnlessTopic(st: Ingestor, source: nat, topic: nat, schema: TopicSchema, piece: Piece, t: nat)
    requires piece.t != [] && source in st.sources && topic < |st.registry.topics|
    requires st.registry.topics[topic].source == source
    ensures PendingOf(TakenIn(st, source, topic, schema, piece), t)
         == if t == topic then Some(Grown(PendingOf(st, topic), schema, piece)) else PendingOf(st, t)
  {
  }

  lemma TakenIsLinked(st: Ingestor, source: nat, topic: nat, schema: TopicSchema, piece: Piece)
    requires Ready(st, source, topic, schema, piece)
    ensures piece.t != []
    ensures Linked(TakenIn(st, source, topic, schema, piece)) && Recorded(TakenIn(st, source, topic, schema, piece))
  {
    hide GoodTopic, GoodPiece, Linked, Recorded;
    PieceNotEmpty(piece, |schema.fields|);
    TakenKeepsLinks(st, source, topic, schema, piece);
    TakenIsRecorded(st, source, topic, schema, piece);
  }

  lemma TakenKeepsLinks(st: Ingestor, source: nat, topic: nat, schema: TopicSchema, piece: Piece)
    requires Linked(st) && source in st.sources && topic in st.stores && piece.t != []
    requires st.registry.topics[topic].source == source
    ensures Linked(TakenIn(st, source, topic, schema, piece))
  {
    hide Valid, LiveTopic, LiveSource, NamesTopic;
    var st2 := TakenIn(st, source, topic, schema, piece);
    UntouchedByTaking(st, source, topic, schema, piece);
    forall s, t | s in st2.sources && t in st2.sources[s].pending
      ensures t in st2.stores && st2.registry.topics[t].source == s
    {
      assert s != source || t != topic ==> t in st.sources[s].pending;
    }
  }

  lemma TakenIsRecorded(st: Ingestor, source: nat, topic: nat, schema: TopicSchema, piece: Piece)
    requires Linked(st) && Recorded(st) && source in st.sources && topic in st.stores && piece.t != []
    ensures Recorded(TakenIn(st, source, topic, schema, piece))
  {
    hide Linked;
    TopicKnown(st, topic);
    var st2 := TakenIn(st, source, topic, schema, piece);
    assert st2.accepted[..|st.accepted|] == st.accepted;
  }

  lemma TopicKnown(st: Ingestor, topic: nat)
    requires Linked(st) && topic in st.stores
    ensures topic < |st.registry.topics|
  {
    hide Valid;
  }

  /** Taking in a piece that the buffer can take keeps the state good. */
  lemma TakenIsGood(st: Ingestor, source: nat, topic: nat, schema: TopicSchema, piece: Piece)
    requires Ready(st, source, topic, schema, piece) && Follows(st, source, topic, piece)
    ensures Good(TakenIn(st, source, topic, schema, piece))
  {
    hide GoodTopic, Linked, Recorded, Timed, Buffered;
    TakenIsLinked(st, source, topic, schema, piece);
    TopicKnown(st, topic);
    var st2 := TakenIn(st, source, topic, schema, piece);
    assert st2.stores == st.stores && st2.current == st.current by {
      UntouchedByTaking(st, source, topic, schema, piece);
    }
    TakingIsGood(TopicViewOf(st, topic), piece);
    forall t | t in st2.stores
      ensures GoodTopic(TopicViewOf(st2, t))
    {
      TakenViews(st, source, topic, schema, piece, t);
    }
  }

  lemma UntouchedByTaking(st: Ingestor, source: nat, topic: nat, schema: TopicSchema, piece: Piece)
    requires piece.t != [] && source in st.sources
    ensures var st2 := TakenIn(st, source, topic, schema, piece);
            && st2.stores == st.stores && st2.current == st.current && st2.registry == st.registry
            && st2.accepted == st.accepted + [(topic, piece)] && st2.sources.Keys == st.sources.Keys
  {
  }

  /** Sealing does not look at what has been reported or at greatest times. */
  lemma SealCommutes(st: Ingestor, source: nat, topic: nat, piece: Piece)
    requires Good(st) && piece.t != []
    ensures SealTopic(Timed(st, topic, piece), source, topic) == Timed(SealTopic(st, source, topic), topic, piece)
  {
    hide GoodTopic, Linked, Recorded, Sealed;
    SealIsGood(st, source, topic);
    if HasPending(st, source, topic) {
      SealIsMove(st, source, topic);
      assert GoodTopic(TopicViewOf(st, topic));
      SealingIsGood(TopicViewOf(st, topic));
      MoveIsLinked(st, source, topic);
      PublishSucceeds(Moved(st, source, topic));
    }
  }

  /** What accepting a piece leaves. */
  ghost predicate AcceptedInto(st: Ingestor, topic: nat, piece: Piece, st2: Ingestor) {
    Good(st2) && st2.accepted == st.accepted + [(topic, piece)] && st2.registry == st.registry
    && st2.current.epoch >= st.current.epoch
  }

  lemma AcceptIsGood(st: Ingestor, source: nat, topic: nat, schema: TopicSchema, piece: Piece)
    requires Ready(st, source, topic, schema, piece)
    ensures AcceptedInto(st, topic, piece, Accept(st, source, topic, schema, piece))
  {
    hide GoodTopic, Linked, Recorded, SealTopic, Timed, Buffered, GoodPiece;
    assert piece.t != [] by {
      assert GoodPiece(piece, |schema.fields|);
      PieceNotEmpty(piece, |schema.fields|);
    }
    var st1 := ClearedFirst(st, source, topic, piece);
    SealIsGood(st, source, topic);
    ClearedCommutes(st, source, topic, piece);
    ClearedFollows(st, source, topic, schema, piece);
    TakenIsGood(st1, source, topic, schema, piece);
    UntouchedByTaking(st1, source, topic, schema, piece);
    SealIsGood(TakenIn(st1, source, topic, schema, piece), source, topic);
  }

  lemma PieceNotEmpty(piece: Piece, columns: nat)
    requires GoodPiece(piece, columns)
    ensures piece.t != []
  {
  }

  /** Sealing first if need be, before anything is recorded. */
  function ClearedFirst(st: Ingestor, source: nat, topic: nat, piece: Piece): Ingestor
    requires piece.t != []
  {
    Cleared(st, source, topic, piece)
  }

  lemma ClearedCommutes(st: Ingestor, source: nat, topic: nat, piece: Piece)
    requires Good(st) && piece.t != []
    ensures Cleared(Timed(st, topic, piece), source, topic, piece)
              == Timed(ClearedFirst(st, source, topic, piece), topic, piece)
  {
    hide GoodTopic, Linked, Recorded, SealTopic;
    SealCommutes(st, source, topic, piece);
  }

  lemma ClearedFollows(st: Ingestor, source: nat, topic: nat, schema: TopicSchema, piece: Piece)
    requires Ready(st, source, topic, schema, piece) && piece.t != []
    ensures Ready(ClearedFirst(st, source, topic, piece), source, topic, schema, piece)
    ensures Follows(ClearedFirst(st, source, topic, piece), source, topic, piece)
    ensures ClearedFirst(st, source, topic, piece).accepted == st.accepted
  {
    hide GoodTopic, Linked, Recorded, SealTopic, GoodPiece;
    SealIsGood(st, source, topic);
  }

  /** A batch is taken in whole, sorted by time. */
  lemma BatchIsGood(st: Ingestor, b: Batch, order: Order)
    requires Good(st) && Sorts(order) && (b.source in st.sources ==> Fitting(st, b))
    ensures Good(AcceptBatch(st, b, order))
    ensures b.t == [] || b.source !in st.sources ==> AcceptBatch(st, b, order).accepted == st.accepted
    ensures b.t != [] && b.source in st.sources ==>
              AcceptBatch(st, b, order).accepted
              == st.accepted + [(EnsureTopic(st, b.source, b.schema).0.value, PieceOf(b, order))]
  {
    hide GoodTopic, Linked, Accept, EnsureTopic, PieceOf, Sorts, GoodPiece;
    if b.t == [] {
    } else if b.source !in st.sources {
      Noted(st, UnknownSource);
    } else {
      EnsuredTopic(st, b);
      var (topic, st1) := EnsureTopic(st, b.source, b.schema);
      PieceOfBatch(b, order);
      Noted(st1, Unsorted(topic.value));
      var st2 := if SortedTimes(b.t) then st1 else st1.(diags := st1.diags + [Unsorted(topic.value)]);
      assert Ready(st2, b.source, topic.value, b.schema, PieceOf(b, order));
      PieceNotEmpty(PieceOf(b, order), |b.schema.fields|);
      AcceptIsGood(st2, b.source, topic.value, b.schema, PieceOf(b, order));
    }
  }

  /** Reports other than failures and regressions change nothing else. */
  lemma Noted(st: Ingestor, d: Diag)
    requires Good(st) && (d.UnknownSource? || d.Unsorted?)
    ensures Good(st.(diags := st.diags + [d]))
  {
    hide GoodTopic, Linked, Valid;
    var st2 := st.(diags := st.diags + [d]);
    assert Linked(st2) by {
      LinkedWithout(st, st2);
    }
    forall t | t in st2.stores
      ensures GoodTopic(TopicViewOf(st2, t))
    {
      assert TopicViewOf(st2, t) == TopicViewOf(st, t);
    }
  }

  lemma LinkedWithout(st: Ingestor, st2: Ingestor)
    requires Linked(st) && st2 == st.(diags := st2.diags)
    ensures Linked(st2)
  {
  }
}
