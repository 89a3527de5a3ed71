/** The writer as an object whose fields every message updates. */
module IngestObject {
  import opened Prelude
  import opened Storage
  import opened Store
  import opened Identity
  import opened IdentityObject
  import opened Snapshots
  import opened Ingest

  // ----- Merging -----

  method MergePieces(pieces: seq<Piece>) returns (m: Piece)
    requires pieces != []
    ensures m == Merged(pieces)
  {
    if |pieces| == 1 {
      return pieces[0];
    }
    var t: seq<int> := [];
    for i := 0 to |pieces|
      invariant t == JoinedTimes(pieces[..i])
    {
      assert pieces[..i + 1][..i] == pieces[..i];
      t := t + pieces[i].t;
    }
    assert pieces[..|pieces|] == pieces;
    var cols: seq<seq<Cell>> := [];
    for k := 0 to |pieces[0].cols|
      invariant |cols| == k && forall j :: 0 <= j < k ==> cols[j] == JoinedColumn(pieces, j)
    {
      var column := MergeColumn(pieces, k);
      cols := cols + [column];
    }
    m := Piece(t, cols);
  }

  method MergeColumn(pieces: seq<Piece>, k: nat) returns (column: seq<Cell>)
    ensures column == JoinedColumn(pieces, k)
  {
    column := [];
    for i := 0 to |pieces|
      invariant column == JoinedColumn(pieces[..i], k)
    {
      assert pieces[..i + 1][..i] == pieces[..i];
      column := column + ColumnOf(pieces[i], k);
    }
    assert pieces[..|pieces|] == pieces;
  }

  // ----- The object -----

  class Writer {
    const identity: IdentityRegistry
    var stores: Stores
    var sources: map<nat, SourceState>
    var maxTs: map<nat, int>
    var chunksSealed: nat
    var rowsIngested: nat
    var current: Snapshot
    var diags: seq<Diag>
    ghost var accepted: seq<(nat, Piece)>

    constructor ()
      ensures fresh(identity) && Value() == INITIAL
    {
      identity := new IdentityRegistry();
      stores, sources, maxTs := map[], map[], map[];
      chunksSealed, rowsIngested := 0, 0;
      current, diags, accepted := Assembled(EMPTY, map[], 0), [], [];
    }

    ghost function Value(): Ingestor
      reads this, identity
    {
      Ingestor(identity.Value(), stores, sources, maxTs, chunksSealed, rowsIngested, current, diags, accepted)
    }

    method TryPublish()
      modifies this`current, this`diags
      ensures Value() == Publish(old(Value()))
    {
      var snapshot := Assemble(identity.Value(), stores, 0);
      if snapshot.None? {
        diags := diags + [PublishFailed];
      } else {
        current := snapshot.value.(epoch := current.epoch + 1);
      }
    }

    method Seal(source: nat, topic: nat)
      modifies this
      ensures Value() == SealTopic(old(Value()), source, topic)
    {
      if !(source in sources && topic in sources[source].pending) {
        return;
      }
      var pending := sources[source].pending[topic];
      sources := sources[source := sources[source].(pending := sources[source].pending - {topic})];
      if pending.rows == 0 || pending.pieces == [] {
        return;
      }
      var merged := MergePieces(pending.pieces);
      var chunk := NewChunk(merged.t, merged.cols, pending.schema);
      if chunk.Err? {
        diags := diags + [SealFailed(topic)];
        return;
      }
      var store := if topic in stores then stores[topic] else NewStore(pending.schema);
      var next := AppendChunk(store, chunk.value);
      if next.None? {
        diags := diags + [AppendFailed(topic)];
        return;
      }
      stores := stores[topic := next.value];
      chunksSealed := chunksSealed + 1;
      TryPublish();
    }

    /** Seals some topics one after the other. */
    method Flush(seals: seq<(nat, nat)>)
      modifies this
      ensures Value() == SealAll(old(Value()), seals)
    {
      ghost var start := Value();
      for i := 0 to |seals|
        invariant Value() == SealAll(start, seals[..i])
      {
        assert seals[..i + 1][..i] == seals[..i];
        Seal(seals[i].0, seals[i].1);
      }
      assert seals[..|seals|] == seals;
    }

    method AddTopicFields(topic: nat, fields: seq<FieldSchema>)
      modifies identity
      ensures identity.Value() == AddFields(old(identity.Value()), topic, fields)
    {
      ghost var start := identity.Value();
      for i := 0 to |fields|
        invariant identity.Value() == AddFields(start, topic, fields[..i])
      {
        assert fields[..i + 1][..i] == fields[..i];
        var _ := identity.AddFieldNamed(topic, fields[i].name);
      }
      assert fields[..|fields|] == fields;
    }

    method FindOrAddTopic(source: nat, schema: TopicSchema) returns (topic: Option<nat>)
      requires source in sources
      modifies this`stores, this`sources, identity
      ensures (topic, Value()) == EnsureTopic(old(Value()), source, schema)
    {
      if schema.name in sources[source].topics {
        return Some(sources[source].topics[schema.name]);
      }
      topic := identity.AddTopicNamed(source, schema.name);
      if topic.None? {
        return;
      }
      AddTopicFields(topic.value, schema.fields);
      if topic.value !in stores {
        stores := stores[topic.value := NewStore(schema)];
      }
      sources := sources[source := sources[source].(topics := sources[source].topics[schema.name := topic.value])];
    }

    /** Reports a regression and raises the greatest time. */
    method NoteTimes(topic: nat, piece: Piece)
      requires piece.t != []
      modifies this`diags, this`maxTs
      ensures Value() == Timed(old(Value()), topic, piece)
    {
      var first, last := piece.t[0], piece.t[|piece.t| - 1];
      if topic in maxTs && first < maxTs[topic] {
        diags := diags + [TimeRegression(topic)];
      }
      maxTs := maxTs[topic := if topic in maxTs && maxTs[topic] > last then maxTs[topic] else last];
    }

    /** Seals the buffer if the piece starts before it ends. */
    method ClearFor(source: nat, topic: nat, piece: Piece)
      requires piece.t != [] && source in sources
      modifies this
      ensures Value() == Cleared(old(Value()), source, topic, piece)
    {
      if topic in sources[source].pending && sources[source].pending[topic].lastTs.Some? {
        if piece.t[0] < sources[source].pending[topic].lastTs.value {
          Seal(source, topic);
        }
      }
    }

    method BufferPiece(source: nat, topic: nat, schema: TopicSchema, piece: Piece) returns (full: bool)
      requires piece.t != [] && source in sources
      modifies this`sources, this`rowsIngested, this`accepted
      ensures Value() == Buffered(old(Value()), source, topic, schema, piece)
      ensures full == Full(Value(), source, topic)
    {
      var pending := if topic in sources[source].pending then sources[source].pending[topic]
        else Pending(schema, [], 0, None);
      pending := pending.(pieces := pending.pieces + [piece], rows := pending.rows + |piece.t|,
                          lastTs := Some(piece.t[|piece.t| - 1]));
      sources := sources[source := sources[source].(pending := sources[source].pending[topic := pending])];
      rowsIngested := rowsIngested + |piece.t|;
      accepted := accepted + [(topic, piece)];
      full := pending.rows >= sources[source].sealRows;
    }

    method AcceptPiece(source: nat, topic: nat, schema: TopicSchema, piece: Piece)
      requires piece.t != [] && source in sources
      modifies this
      ensures Value() == Accept(old(Value()), source, topic, schema, piece)
    {
      NoteTimes(topic, piece);
      SealingKeepsSources(Value(), source, topic);
      assert source in Value().sources;
      ClearFor(source, topic, piece);
      assert source in Value().sources;
      var full := BufferPiece(source, topic, schema, piece);
      if full {
        Seal(source, topic);
      }
    }

    method TakeBatch(b: Batch, order: Order)
      modifies this, identity
      ensures Value() == AcceptBatch(old(Value()), b, order)
    {
      if b.t == [] {
        return;
      }
      if b.source !in sources {
        diags := diags + [UnknownSource];
        return;
      }
      var topic := FindOrAddTopic(b.source, b.schema);
      if topic.None? {
        return;
      }
      var piece := PieceOf(b, order);
      if !SortedTimes(b.t) {
        diags := diags + [Unsorted(topic.value)];
      }
      if piece.t != [] {
        EnsuringKeepsSources(old(Value()), b);
        AcceptPiece(b.source, topic.value, b.schema, piece);
      }
    }

    /** Checks all offsets before any is set. */
    method SetOffsets(offsets: seq<(nat, int)>)
      modifies this`current, this`diags, identity
      ensures Value() == SetMany(old(Value()), offsets)
    {
      CheckedWithoutRecord(Value(), offsets);
      if !OffsetsHold(offsets) {
        return;
      }
      ghost var start := identity.Value();
      var changed := false;
      for i := 0 to |offsets|
        invariant identity.Value() == OffsetsSet(start, offsets[..i])
        invariant changed == AnyChange(start, offsets[..i])
        invariant current == old(current) && diags == old(diags)
      {
        assert offsets[..i + 1][..i] == offsets[..i];
        var before := identity.SetSourceOffset(offsets[i].0, offsets[i].1);
        changed := changed || (before.Some? && before.value != offsets[i].1);
      }
      assert offsets[..|offsets|] == offsets;
      if changed {
        TryPublish();
      }
    }

    predicate OffsetsHold(offsets: seq<(nat, int)>)
      reads this, identity
    {
      OffsetsValid(Ingestor(identity.Value(), stores, sources, maxTs, chunksSealed, rowsIngested, current, diags, []),
        offsets)
    }

    /** Drops a source with its topics' stores, after flushing it. */
    method DropSource(source: nat, topics: seq<nat>)
      requires Valid(identity.Value())
      modifies this, identity
      ensures Value() == Remove(old(Value()), source, topics)
    {
      Flush(Topics(source, topics));
      SealsKeepRegistry(old(Value()), Topics(source, topics));
      ghost var st := Value();
      var removed := identity.RemoveSourceAt(source);
      if removed.None? {
        return;
      }
      ForgetTopics(removed.value.0);
      sources := sources - {source};
      assert stores == Without(st, source).stores && maxTs == Without(st, source).maxTs;
      TryPublish();
    }

    method ForgetTopics(topics: seq<nat>)
      modifies this`stores, this`maxTs
      ensures stores == old(stores) - (set t | t in topics) && maxTs == old(maxTs) - (set t | t in topics)
    {
      for i := 0 to |topics|
        invariant stores == old(stores) - (set t | t in topics[..i])
        invariant maxTs == old(maxTs) - (set t | t in topics[..i])
      {
        assert topics[..i + 1] == topics[..i] + [topics[i]];
        stores := stores - {topics[i]};
        maxTs := maxTs - {topics[i]};
      }
      assert topics[..|topics|] == topics;
    }

    /** One message. */
    method Process(msg: Msg, order: Order)
      requires Valid(identity.Value())
      modifies this, identity
      ensures Value() == Processed(old(Value()), msg, order)
    {
      hide SealAll, AcceptBatch, Remove, Publish, SetMany, FromRegistry, OffsetsValid;
      match msg
      case Barrier(seals) =>
        Flush(seals);
        TryPublish();
      case Open(key, kind) =>
        var id := identity.AddSourceNamed(key);
        var sealRows := if kind.File? || kind.Derived? then FILE_CHUNK_ROWS else LIVE_CHUNK_ROWS;
        sources := sources[id := SourceState(kind, sealRows, map[], map[])];
      case Data(batch) => TakeBatch(batch, order);
      case Close(source, topics, hasMeta) =>
        Flush(Topics(source, topics));
        if hasMeta {
          TryPublish();
        }
      case Offset(source, offset) =>
        var before := identity.SetSourceOffset(source, offset);
        if before.Some? && before.value != offset {
          TryPublish();
        }
      case Offsets(offsets) => SetOffsets(offsets);
      case Drop(source, topics) => DropSource(source, topics);
      case Name(source, preferred) =>
        var text := identity.RelabelSource(source, preferred);
        if text.Some? {
          TryPublish();
        }
      case Age(seals) => Flush(seals);
    }
  }

  lemma CheckedWithoutRecord(st: Ingestor, offsets: seq<(nat, int)>)
    ensures OffsetsValid(st, offsets) <==> OffsetsValid(st.(accepted := []), offsets)
  {
    var st2 := st.(accepted := []);
    assert forall source: nat, offset: int :: Shiftable(st, source, offset) <==> Shiftable(st2, source, offset);
  }

  lemma EnsuringKeepsSources(st: Ingestor, b: Batch)
    requires b.source in st.sources
    ensures b.source in EnsureTopic(st, b.source, b.schema).1.sources
  {
  }

  lemma {:induction false} SealsKeepRegistry(st: Ingestor, seals: seq<(nat, nat)>)
    ensures SealAll(st, seals).registry == st.registry
  {
    if seals != [] {
      SealsKeepRegistry(st, seals[..|seals| - 1]);
      SealKeepsRegistry(SealAll(st, seals[..|seals| - 1]), seals[|seals| - 1].0, seals[|seals| - 1].1);
    }
  }

  lemma SealKeepsRegistry(st: Ingestor, source: nat, topic: nat)
    ensures SealTopic(st, source, topic).registry == st.registry
  {
  }
}
