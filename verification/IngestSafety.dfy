/** The promises of the writer over every run. */
module IngestSafety {
  import opened Store
  import opened Identity
  import opened Ingest
  import opened IngestRows
  import opened IngestProofs
  import opened IngestRuns

  // ----- Message by message -----

  lemma {:induction false} SealAllIsGood(st: Ingestor, seals: seq<(nat, nat)>)
    requires Good(st)
    ensures var st2 := SealAll(st, seals);
            && Good(st2) && st2.registry == st.registry && st2.accepted == st.accepted && st2.diags == st.diags
            && st2.current.epoch >= st.current.epoch
  {
    hide GoodTopic, Linked, Recorded, SealTopic;
    if seals != [] {
      var n := |seals| - 1;
      SealAllIsGood(st, seals[..n]);
      SealIsGood(SealAll(st, seals[..n]), seals[n].0, seals[n].1);
    }
  }

  lemma GoodParts(st: Ingestor)
    requires Good(st)
    ensures Linked(st) && Recorded(st) && Valid(st.registry)
    ensures forall t :: t in st.stores ==> GoodTopic(TopicViewOf(st, t))
  {
    hide GoodTopic;
  }

  lemma PublishStaysGood(st: Ingestor)
    requires Good(st)
    ensures Good(Publish(st)) && Publish(st).current.epoch == st.current.epoch + 1
  {
    hide GoodTopic, Linked, Recorded;
    GoodParts(st);
    PublishIsGood(st);
    PublishSucceeds(st);
  }

  lemma OpenedRegistry(r: Registry, key: string)
    requires Valid(r)
    ensures var r2 := AddSource(r, key).1;
            && Valid(r2) && r2.topics == r.topics
            && (forall s: nat :: LiveSource(r2, s) <==> LiveSource(r, s) || s == |r.sources|)
            && !LiveSource(r, |r.sources|)
            && (forall t: nat :: LiveTopic(r2, t) == LiveTopic(r, t))
            && (forall k, t: nat :: NamesTopic(r2, k, t) == NamesTopic(r, k, t))
  {
    AddSourceKeepsValid(r, key);
    var r2 := AddSource(r, key).1;
    assert forall s :: 0 <= s < |r.sources| ==> r2.sources[s] == r.sources[s];
  }

  lemma OpenIsRecorded(st: Ingestor, key: string, kind: SourceKind)
    requires Valid(st.registry) && Recorded(st)
    ensures Recorded(OpenSource(st, key, kind).1)
    ensures OpenSource(st, key, kind).1.registry.topics == st.registry.topics
  {
    hide Valid, AddSource, RowTotal, Failure;
    OpenedRegistry(st.registry, key);
  }

  lemma OpenIsLinked(st: Ingestor, key: string, kind: SourceKind)
    requires Linked(st)
    ensures Linked(OpenSource(st, key, kind).1) && |st.registry.sources| !in st.sources
  {
    hide Valid, AddSource, LiveTopic, NamesTopic, LiveSource;
    OpenedRegistry(st.registry, key);
    OpenedId(st.registry, key);
    var n := |st.registry.sources|;
    assert n !in st.sources;
    var st2 := OpenSource(st, key, kind).1;
    assert forall s :: s in st.sources ==> s != n && st2.sources[s] == st.sources[s];
  }

  lemma OpenedId(r: Registry, key: string)
    ensures AddSource(r, key).0 == |r.sources|
  {
  }

  lemma OpenIsGood(st: Ingestor, key: string, kind: SourceKind)
    requires Good(st)
    ensures Good(OpenSource(st, key, kind).1)
  {
    hide GoodTopic, Linked, Recorded, AddSource;
    OpenIsLinked(st, key, kind);
    GoodParts(st);
    OpenIsRecorded(st, key, kind);
    OpenedId(st.registry, key);
    var st2 := OpenSource(st, key, kind).1;
    forall t | t in st2.stores
      ensures GoodTopic(TopicViewOf(st2, t))
    {
      LinkedTopic(st, t);
      assert TopicViewOf(st2, t) == TopicViewOf(st, t);
    }
  }

  lemma LinkedTopic(st: Ingestor, t: nat)
    requires Linked(st) && t in st.stores
    ensures t < |st.registry.topics| && st.registry.topics[t].source in st.sources
  {
    hide Labelled, FieldsIndexed, KeysIndexed, TopicsIndexed;
    assert LiveTopic(st.registry, t);
    assert LiveSource(st.registry, st.registry.topics[t].source);
  }

  lemma SetOneIsGood(st: Ingestor, source: nat, offset: int)
    requires Good(st)
    ensures Good(SetOne(st, source, offset))
  {
    hide GoodTopic, Linked, Recorded, Valid, LiveSource, SetOffset;
    GoodParts(st);
    OffsetKeepsLive(st.registry, source, offset);
    OtherRegistry(st, SetOffset(st.registry, source, offset).1);
    PublishStaysGood(st.(registry := SetOffset(st.registry, source, offset).1));
  }

  lemma SetManyIsGood(st: Ingestor, offsets: seq<(nat, int)>)
    requires Good(st)
    ensures Good(SetMany(st, offsets))
  {
    hide GoodTopic, Linked, Recorded, Valid, LiveSource;
    GoodParts(st);
    OffsetsKeepLive(st.registry, offsets);
    OtherRegistry(st, OffsetsSet(st.registry, offsets));
    PublishStaysGood(st.(registry := OffsetsSet(st.registry, offsets)));
  }

  lemma RenameIsGood(st: Ingestor, source: nat, preferred: string)
    requires Good(st)
    ensures Good(Rename(st, source, preferred))
  {
    hide GoodTopic, Linked, Recorded, Valid, LiveSource, Relabel;
    GoodParts(st);
    RelabelKeepsLive(st.registry, source, preferred);
    OtherRegistry(st, Relabel(st.registry, source, preferred).1);
    PublishStaysGood(st.(registry := Relabel(st.registry, source, preferred).1));
  }

  lemma RemovedRegistry(r: Registry, source: nat)
    requires Valid(r) && LiveSource(r, source)
    ensures var r2 := RemoveSource(r, source);
            && Valid(r2) && |r2.topics| == |r.topics|
            && (forall t :: 0 <= t < |r.topics| ==>
                 r2.topics[t].source == r.topics[t].source && r2.topics[t].name == r.topics[t].name
                                                    && r2.topics[t].id == t)
            && (forall s: nat :: LiveSource(r2, s) <==> LiveSource(r, s) && s != source)
            && (forall t: nat :: LiveTopic(r2, t) <==> LiveTopic(r, t) && !TopicOfSource(r, t, source))
            && (forall k, t: nat :: NamesTopic(r2, k, t) <==> NamesTopic(r, k, t) && k.0 != source)
  {
    hide Labelled, FieldsIndexed, KeysIndexed, TopicsIndexed, RemovedTogether, RemoveSource;
    RemoveSourceKeepsValid(r, source);
    RemovedEntries(r, source);
  }

  lemma WithoutIsLinked(st: Ingestor, source: nat)
    requires Linked(st) && Recorded(st) && LiveSource(st.registry, source)
    ensures Linked(Without(st, source)) && Recorded(Without(st, source))
    ensures forall t: nat :: t in Without(st, source).stores
              <==> t in st.stores && !TopicOfSource(st.registry, t, source)
  {
    hide RowTotal, Failure, Valid, RemoveSource, LiveSource, LiveTopic, NamesTopic;
    RemovedRegistry(st.registry, source);
  }

  lemma WithoutIsGood(st: Ingestor, source: nat)
    requires Good(st) && LiveSource(st.registry, source)
    ensures Good(Without(st, source))
  {
    hide GoodTopic, Linked, Recorded, RemoveSource, Valid;
    GoodParts(st);
    WithoutIsLinked(st, source);
    var st2 := Without(st, source);
    forall t | t in st2.stores
      ensures GoodTopic(TopicViewOf(st2, t))
    {
      WithoutKeepsView(st, source, t);
    }
  }

  lemma WithoutKeepsView(st: Ingestor, source: nat, t: nat)
    requires Linked(st) && LiveSource(st.registry, source) && t in st.stores && !TopicOfSource(st.registry, t, source)
    ensures t in Without(st, source).stores && TopicViewOf(Without(st, source), t) == TopicViewOf(st, t)
  {
    hide Valid, RemoveSource, AcceptedRows;
    RemovedRegistry(st.registry, source);
    LinkedTopic(st, t);
  }

  lemma RemoveIsGood(st: Ingestor, source: nat, topics: seq<nat>)
    requires Good(st)
    ensures Good(Remove(st, source, topics))
    ensures !LiveSource(Remove(st, source, topics).registry, source)
  {
    hide GoodTopic, Linked, Recorded, Valid, SealAll;
    SealAllIsGood(st, Topics(source, topics));
    var st1 := SealAll(st, Topics(source, topics));
    if LiveSource(st1.registry, source) {
      WithoutIsGood(st1, source);
      PublishStaysGood(Without(st1, source));
      PublishSucceedsOn(Without(st1, source));
      GoodParts(st1);
      RemovedEntries(st1.registry, source);
    }
  }

  lemma PublishSucceedsOn(st: Ingestor)
    requires Good(st)
    ensures Publish(st).registry == st.registry
  {
  }

  // ----- Runs -----

  /** Batches for open sources are tables of their schemas, and a topic has one
      schema. */
  ghost predicate Fed(st: Ingestor, msg: Msg) {
    msg.Data? && msg.batch.source in st.sources ==> Fitting(st, msg.batch)
  }

  ghost predicate WellFed(msgs: seq<Msg>, order: Order) {
    msgs != [] ==>
      var before := msgs[..|msgs| - 1];
      WellFed(before, order) && Fed(AllProcessed(before, order), msgs[|msgs| - 1])
  }

  lemma ProcessedIsGood(st: Ingestor, msg: Msg, order: Order)
    requires Good(st) && Sorts(order) && Fed(st, msg)
    ensures Good(Processed(st, msg, order))
  {
    hide GoodTopic, Linked, Recorded, Sorts, Fitting, SealAll, AcceptBatch, OpenSource, SetOne, SetMany, Remove, Rename;
    match msg
    case Barrier(seals) =>
      SealAllIsGood(st, seals);
      PublishStaysGood(SealAll(st, seals));
    case Open(key, kind) => OpenIsGood(st, key, kind);
    case Data(batch) => BatchIsGood(st, batch, order);
    case Close(source, topics, _) =>
      SealAllIsGood(st, Topics(source, topics));
      PublishStaysGood(SealAll(st, Topics(source, topics)));
    case Offset(source, offset) => SetOneIsGood(st, source, offset);
    case Offsets(offsets) => SetManyIsGood(st, offsets);
    case Drop(source, topics) => RemoveIsGood(st, source, topics);
    case Name(source, preferred) => RenameIsGood(st, source, preferred);
    case Age(seals) => SealAllIsGood(st, seals);
  }

  lemma InitialIsGood()
    ensures Good(INITIAL)
  {
    EmptyIsValid();
  }

  lemma {:induction false} RunIsGood(msgs: seq<Msg>, order: Order)
    requires Sorts(order) && WellFed(msgs, order)
    ensures Good(AllProcessed(msgs, order))
  {
    hide GoodTopic, Linked, Recorded, Sorts, Processed, Fed;
    if msgs == [] {
      InitialIsGood();
    } else {
      RunIsGood(msgs[..|msgs| - 1], order);
      ProcessedIsGood(AllProcessed(msgs[..|msgs| - 1], order), msgs[|msgs| - 1], order);
    }
  }

  /** In every run: the chunks and then the buffer of a live topic hold exactly
      its accepted rows in order; every accepted row was counted; nothing failed
      to seal or to be published; and a topic's store is monotonic unless a
      regression was reported, and exactly then once its buffer is empty. */
  lemma RowsAreConserved(msgs: seq<Msg>, order: Order)
    requires Sorts(order) && WellFed(msgs, order)
    ensures var st := AllProcessed(msgs, order);
            && st.rowsIngested == RowTotal(st.accepted)
            && (forall d :: d in st.diags ==> !Failure(d))
            && (forall i :: 0 <= i < |st.current.topics| && st.current.topics[i].entry.removed ==>
                 st.current.topics[i].store.None?)
            && (forall t: nat :: t in st.stores <==> LiveTopic(st.registry, t))
            && (forall t :: t in st.stores ==>
                 && AcceptedRows(st.accepted, t) == StoreRows(st.stores[t].chunks) + PendingRows(PendingOf(st, t))
                 && Exact(st.stores[t])
                 && (TimeRegression(t) !in st.diags ==> st.stores[t].monotonic)
                 && (PendingOf(st, t).None? ==> (st.stores[t].monotonic <==> TimeRegression(t) !in st.diags)))
  {
    hide GoodTopic, Valid;
    RunIsGood(msgs, order);
    var st := AllProcessed(msgs, order);
    forall t | t in st.stores
      ensures AcceptedRows(st.accepted, t) == StoreRows(st.stores[t].chunks) + PendingRows(PendingOf(st, t))
      ensures Exact(st.stores[t]) && (TimeRegression(t) !in st.diags ==> st.stores[t].monotonic)
      ensures PendingOf(st, t).None? ==> (st.stores[t].monotonic <==> TimeRegression(t) !in st.diags)
    {
      GoodTopicSays(TopicViewOf(st, t));
      MonotonicUnlessRegressed(TopicViewOf(st, t));
    }
  }

  lemma GoodTopicSays(v: TopicView)
    requires GoodTopic(v)
    ensures v.rows == StoreRows(v.store.chunks) + PendingRows(v.pending) && Exact(v.store)
  {
  }

  // ----- Offsets: all or none -----

  ghost predicate OffsetsApplied(r: Registry, offsets: seq<(nat, int)>, r2: Registry) {
    && |r2.sources| == |r.sources|
    && (forall i :: 0 <= i < |offsets| ==>
         offsets[i].0 < |r2.sources| && r2.sources[offsets[i].0].offsetUs == offsets[i].1)
    && (forall s: nat :: s < |r.sources| && (forall i :: 0 <= i < |offsets| ==> offsets[i].0 != s) ==>
         r2.sources[s] == r.sources[s])
  }

  /** Offsets are all set, or nothing changes. */
  lemma AllOffsetsOrNone(st: Ingestor, offsets: seq<(nat, int)>)
    requires Good(st)
    ensures !OffsetsValid(st, offsets) ==> SetMany(st, offsets) == st
    ensures OffsetsValid(st, offsets) ==> OffsetsApplied(st.registry, offsets, SetMany(st, offsets).registry)
  {
    hide GoodTopic, Linked, Recorded;
    if OffsetsValid(st, offsets) {
      forall i | 0 <= i < |offsets|
        ensures offsets[i].0 < |st.registry.sources|
      {
        assert Shiftable(st, offsets[i].0, offsets[i].1);
      }
      GoodParts(st);
      OffsetsAreSet(st.registry, offsets);
    }
  }

  lemma {:induction false} OffsetsAreSet(r: Registry, offsets: seq<(nat, int)>)
    requires Positioned(r)
    requires forall i, j :: 0 <= i < j < |offsets| ==> offsets[i].0 != offsets[j].0
    requires forall i :: 0 <= i < |offsets| ==> offsets[i].0 < |r.sources|
    ensures Positioned(OffsetsSet(r, offsets)) && OffsetsApplied(r, offsets, OffsetsSet(r, offsets))
  {
    if offsets != [] {
      var n := |offsets| - 1;
      OffsetsAreSet(r, offsets[..n]);
      OneMoreOffset(r, offsets);
    }
  }

  lemma {:induction false} OneMoreOffset(r: Registry, offsets: seq<(nat, int)>)
    requires offsets != []
    requires forall i, j :: 0 <= i < j < |offsets| ==> offsets[i].0 != offsets[j].0
    requires offsets[|offsets| - 1].0 < |r.sources|
    requires var before := OffsetsSet(r, offsets[..|offsets| - 1]);
             Positioned(before) && OffsetsApplied(r, offsets[..|offsets| - 1], before)
    ensures Positioned(OffsetsSet(r, offsets)) && OffsetsApplied(r, offsets, OffsetsSet(r, offsets))
  {
    var n := |offsets| - 1;
    assert forall i :: 0 <= i < n ==> offsets[..n][i] == offsets[i];
  }
}
