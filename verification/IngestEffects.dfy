/** What each message does: to the writer and to the snapshot that readers see. */
module IngestEffects {
  import opened Prelude
  import opened Storage
  import opened Store
  import opened Identity
  import opened Snapshots
  import opened Ingest
  import opened IngestProofs
  import opened IngestRuns
  import opened IngestSafety
  import RegistryEffects

  // ----- What is published -----

  /** The snapshot shows every entry of the registry as it is, and every store. */
  ghost predicate Shows(s: Snapshot, st: Ingestor) {
    && |s.sources| == |st.registry.sources| && |s.topics| == |st.registry.topics| && s.fields == st.registry.fields
    && (forall i :: 0 <= i < |s.sources| ==> s.sources[i].entry == st.registry.sources[i])
    && (forall i :: 0 <= i < |s.topics| ==>
          && s.topics[i].entry == st.registry.topics[i]
          && s.topics[i].store == if i in st.stores then Some(st.stores[i]) else None)
  }

  /** One snapshot has been published, which shows the state that it comes from. */
  ghost predicate Published(st: Ingestor, st2: Ingestor) {
    Shows(st2.current, st2) && st2.current.epoch == st.current.epoch + 1
  }

  lemma PublishShows(st: Ingestor)
    requires Linked(st)
    ensures Published(st, Publish(st)) && Publish(st) == st.(current := Publish(st).current)
  {
    hide Valid, LiveTopic, LiveSource, NamesTopic, FitsTopic, GlobalRange;
    PublishSucceeds(st);
  }

  // ----- Offsets -----

  /** Only the offsets of sources are other ones. */
  ghost predicate OnlySources(st: Ingestor, st2: Ingestor) {
    st2 == st.(registry := st.registry.(sources := st2.registry.sources), current := st2.current)
    && |st2.registry.sources| == |st.registry.sources|
  }

  /** An offset is set on a known source, removed or not, and nothing else
      changes; it is published exactly if it is another one. */
  lemma OffsetTakesEffect(st: Ingestor, source: nat, offset: int, order: Order)
    requires Good(st)
    ensures var st2 := Processed(st, Offset(source, offset), order);
            if source >= |st.registry.sources| then st2 == st
            else
              && OnlySources(st, st2)
              && st2.registry.sources[source] == st.registry.sources[source].(offsetUs := offset)
              && (forall s :: 0 <= s < |st.registry.sources| && s != source ==>
                    st2.registry.sources[s] == st.registry.sources[s])
              && if st.registry.sources[source].offsetUs == offset then st2.current == st.current
                 else
                   && Published(st, st2)
                   && SourceOf(st2.current, source).Some?
                   && SourceOf(st2.current, source).value.entry.offsetUs == offset
  {
    hide GoodTopic, Linked, Recorded, Valid, LiveSource;
    GoodParts(st);
    RegistryEffects.SetOffsetTakesEffect(st.registry, source, offset);
    var r := SetOffset(st.registry, source, offset).1;
    OffsetKeepsLive(st.registry, source, offset);
    OtherRegistry(st, r);
    GoodParts(st.(registry := r));
    PublishShows(st.(registry := r));
    SourcesPositioned(r);
  }

  lemma SourcesPositioned(r: Registry)
    requires Valid(r)
    ensures forall i :: 0 <= i < |r.sources| ==> r.sources[i].id == i
  {
  }

  /** Some listed source had another offset. */
  predicate Differs(r: Registry, offsets: seq<(nat, int)>) {
    exists i :: 0 <= i < |offsets| && offsets[i].0 < |r.sources| && r.sources[offsets[i].0].offsetUs != offsets[i].1
  }

  lemma {:induction false} ChangeMeans(r: Registry, offsets: seq<(nat, int)>)
    requires Positioned(r)
    requires forall i, j :: 0 <= i < j < |offsets| ==> offsets[i].0 != offsets[j].0
    requires forall i :: 0 <= i < |offsets| ==> offsets[i].0 < |r.sources|
    ensures AnyChange(r, offsets) <==> Differs(r, offsets)
  {
    if offsets != [] {
      var n := |offsets| - 1;
      ChangeMeans(r, offsets[..n]);
      OffsetsAreSet(r, offsets[..n]);
      assert forall i :: 0 <= i < n ==> offsets[..n][i] == offsets[i];
      var before := OffsetsSet(r, offsets[..n]);
      assert before.sources[offsets[n].0] == r.sources[offsets[n].0];
      if Differs(r, offsets) && !Differs(r, offsets[..n]) {
        var i :| 0 <= i < |offsets| && r.sources[offsets[i].0].offsetUs != offsets[i].1;
        assert i == n;
      }
    }
  }

  /** A list of offsets that are all valid is set, and published exactly if it
      changes one; of any other list nothing is set. */
  lemma OffsetsTakeEffect(st: Ingestor, offsets: seq<(nat, int)>, order: Order)
    requires Good(st)
    ensures var st2 := Processed(st, Offsets(offsets), order);
            if !OffsetsValid(st, offsets) then st2 == st
            else
              && OffsetsApplied(st.registry, offsets, st2.registry)
              && st2 == st.(registry := st2.registry, current := st2.current)
              && if Differs(st.registry, offsets) then Published(st, st2) else st2.current == st.current
  {
    hide GoodTopic, Linked, Recorded;
    if OffsetsValid(st, offsets) {
      forall i | 0 <= i < |offsets|
        ensures offsets[i].0 < |st.registry.sources|
      {
        assert Shiftable(st, offsets[i].0, offsets[i].1);
      }
      GoodParts(st);
      ChangeMeans(st.registry, offsets);
      AllOffsetsOrNone(st, offsets);
      OffsetsKeepLive(st.registry, offsets);
      var st1 := st.(registry := OffsetsSet(st.registry, offsets));
      OtherRegistry(st, st1.registry);
      GoodParts(st1);
      PublishShows(st1);
    }
  }

  // ----- Sources -----

  /** Opening makes a live source without offset, with a label of its own, whose
      buffers are sealed at 65536 rows from files and at 512 from live streams.
      Readers see it with the next publication. */
  lemma OpenTakesEffect(st: Ingestor, key: string, kind: SourceKind, order: Order)
    requires Good(st)
    ensures var st2, id := Processed(st, Open(key, kind), order), |st.registry.sources|;
            && |st2.registry.sources| == id + 1 && st2.registry.sources[..id] == st.registry.sources
            && (var entry := st2.registry.sources[id];
                && entry.id == id && entry.offsetUs == 0 && !entry.removed
                && RegistryEffects.IsLabelFor(st.registry, key, entry.sourceLabel))
            && st2.registry.topics == st.registry.topics && st2.registry.fields == st.registry.fields
            && st2 == st.(registry := st2.registry, sources := st2.sources)
            && st2.sources ==
               st.sources[id := SourceState(kind, if kind == File || kind == Derived then 65536 else 512, map[], map[])]
  {
    hide GoodTopic, Linked, Recorded, RegistryEffects.IsLabelFor;
    RegistryEffects.AddSourceTakesEffect(st.registry, key);
  }

  /** Renaming a live source is published with its new label. */
  lemma NameTakesEffect(st: Ingestor, source: nat, preferred: string, order: Order)
    requires Good(st)
    ensures var st2 := Processed(st, Name(source, preferred), order);
            if source >= |st.registry.sources| || st.registry.sources[source].removed then st2 == st
            else
              var was := st.registry.sources[source].sourceLabel;
              && |st2.registry.sources| == |st.registry.sources|
              && RegistryEffects.IsLabelFor(st.registry.(labels := st.registry.labels - {was}), preferred,
                                            st2.registry.sources[source].sourceLabel)
              && (forall s :: 0 <= s < |st.registry.sources| && s != source ==>
                    st2.registry.sources[s] == st.registry.sources[s])
              && st2 == st.(registry := st2.registry, current := st2.current) && Published(st, st2)
  {
    hide GoodTopic, Linked, Recorded, Valid, Relabel, RegistryEffects.IsLabelFor;
    GoodParts(st);
    RegistryEffects.RelabelTakesEffect(st.registry, source, preferred);
    var r := Relabel(st.registry, source, preferred).1;
    RelabelKeepsLive(st.registry, source, preferred);
    OtherRegistry(st, r);
    GoodParts(st.(registry := r));
    PublishShows(st.(registry := r));
  }

  /** Dropping a live source marks it, its topics and fields as removed, forgets
      its stores and buffers, and publishes that. */
  lemma DropTakesEffect(st: Ingestor, source: nat, topics: seq<nat>, order: Order)
    requires Good(st)
    ensures var st2 := Processed(st, Drop(source, topics), order);
            source < |st.registry.sources| && !st.registry.sources[source].removed ==>
              && st2.registry == RemoveSource(st.registry, source)
              && source !in st2.sources && st2.sources.Keys == st.sources.Keys - {source}
              && (forall t :: t in st2.stores <==> t in st.stores && st.registry.topics[t].source != source)
              && Shows(st2.current, st2) && st2.current.epoch > st.current.epoch
    ensures source >= |st.registry.sources| || st.registry.sources[source].removed ==>
              Processed(st, Drop(source, topics), order) == SealAll(st, Topics(source, topics))
  {
    hide GoodTopic, Recorded, Valid, SealAll, RemoveSource, LiveTopic, NamesTopic, FitsTopic;
    SealAllIsGood(st, Topics(source, topics));
    SealAllKeeps(st, Topics(source, topics));
    var st1 := SealAll(st, Topics(source, topics));
    GoodParts(st);
    SourcesPositioned(st.registry);
    if LiveSource(st1.registry, source) {
      WithoutIsGood(st1, source);
      GoodParts(st1);
      WithoutIsLinked(st1, source);
      PublishShows(Without(st1, source));
      StoresHaveTopics(st1);
    }
  }

  lemma StoresHaveTopics(st: Ingestor)
    requires Linked(st)
    ensures forall t :: t in st.stores ==> t < |st.registry.topics|
  {
    hide Valid, LiveSource, NamesTopic;
  }

  lemma {:induction false} SealAllKeeps(st: Ingestor, seals: seq<(nat, nat)>)
    requires Good(st)
    ensures var st2 := SealAll(st, seals);
            && st2.stores.Keys == st.stores.Keys && st2.sources.Keys == st.sources.Keys
            && (forall s, t :: (s, t) in seals ==> !HasPending(st2, s, t))
  {
    hide GoodTopic, Linked, Recorded, SealTopic;
    if seals != [] {
      var n := |seals| - 1;
      SealAllKeeps(st, seals[..n]);
      SealAllIsGood(st, seals[..n]);
      var before := SealAll(st, seals[..n]);
      SealIsGood(before, seals[n].0, seals[n].1);
      forall s, t | (s, t) in seals
        ensures !HasPending(SealAll(st, seals), s, t)
      {
        if (s, t) != seals[n] {
          assert (s, t) in seals[..n];
          SealAddsNoBuffer(before, seals[n].0, seals[n].1, s, t);
        }
      }
    }
  }

  lemma SealAddsNoBuffer(st: Ingestor, source: nat, topic: nat, s: nat, t: nat)
    requires !HasPending(st, s, t)
    ensures !HasPending(SealTopic(st, source, topic), s, t)
  {
    hide NewChunk, AppendChunk, Merged, FromRegistry;
  }

  // ----- Seals -----

  /** After a barrier nothing is buffered for the topics that it lists, and what
      they hold is published, even if it was before. */
  lemma BarrierTakesEffect(st: Ingestor, seals: seq<(nat, nat)>, order: Order)
    requires Good(st)
    ensures var st2 := Processed(st, Barrier(seals), order);
            && (forall s, t :: (s, t) in seals ==> !HasPending(st2, s, t))
            && Shows(st2.current, st2) && st2.current.epoch > st.current.epoch && st2.registry == st.registry
  {
    hide GoodTopic, Linked, Recorded, SealAll;
    SealAllKeeps(st, seals);
    SealAllIsGood(st, seals);
    GoodParts(SealAll(st, seals));
    PublishShows(SealAll(st, seals));
  }

  /** Closing a source flushes it, and keeps it; so does a live buffer's age. */
  lemma CloseTakesEffect(st: Ingestor, source: nat, topics: seq<nat>, hasMeta: bool, seals: seq<(nat, nat)>,
                         order: Order)
    requires Good(st)
    ensures var st2 := Processed(st, Close(source, topics, hasMeta), order);
            && (forall t :: t in topics ==> !HasPending(st2, source, t))
            && st2.registry == st.registry && st2.sources.Keys == st.sources.Keys
            && (hasMeta ==> Shows(st2.current, st2) && st2.current.epoch > st.current.epoch)
    ensures forall s, t :: (s, t) in seals ==> !HasPending(Processed(st, Age(seals), order), s, t)
  {
    hide GoodTopic, Linked, Recorded, SealAll;
    var all := Topics(source, topics);
    SealAllKeeps(st, seals);
    SealAllKeeps(st, all);
    SealAllIsGood(st, all);
    GoodParts(SealAll(st, all));
    PublishShows(SealAll(st, all));
    forall t | t in topics
      ensures (source, t) in all
    {
      var i :| 0 <= i < |topics| && topics[i] == t;
      assert all[i] == (source, t);
    }
  }
}
