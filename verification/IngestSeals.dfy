/** When buffers are emptied: what one seal does, which seals a message causes, and
    what a batch leaves in its buffer. */
module IngestSeals {
  import opened Prelude
  import opened Storage
  import opened Store
  import opened Identity
  import opened Snapshots
  import opened Ingest
  import opened IngestRows
  import opened IngestProofs
  import opened IngestRuns
  import opened IngestSafety
  import opened IngestEffects
  import opened IngestData

  // ----- One seal -----

  /** The store has one more chunk, of just these rows. */
  ghost predicate ChunkOf(store: TopicStore, store2: TopicStore, rows: seq<Row>) {
    && |store2.chunks| == |store.chunks| + 1 && store2.chunks[..|store.chunks|] == store.chunks
    && IngestRows.ChunkRows(store2.chunks[|store.chunks|]) == rows
  }

  /** The buffer is gone, and all other buffers are as they were. */
  ghost predicate BufferGone(st: Ingestor, st2: Ingestor, source: nat, topic: nat) {
    && source in st.sources
    && st2.sources ==
       st.sources[source := st.sources[source].(pending := st.sources[source].pending - {topic})]
  }

  /** The rows buffered for the topic have become the last chunk of its store, and
      that is published; nothing else is another. */
  ghost predicate SealedOne(st: Ingestor, st2: Ingestor, source: nat, topic: nat) {
    && BufferGone(st, st2, source, topic) && topic in st.sources[source].pending
    && topic in st.stores && topic in st2.stores && st2.stores == st.stores[topic := st2.stores[topic]]
    && ChunkOf(st.stores[topic], st2.stores[topic], PiecesRows(st.sources[source].pending[topic].pieces))
    && st2.chunksSealed == st.chunksSealed + 1 && Published(st, st2)
    && st2 == st.(sources := st2.sources, stores := st2.stores, chunksSealed := st2.chunksSealed,
                  current := st2.current)
  }

  /** The store has one more chunk exactly if its topic was sealed. */
  ghost predicate StoredOf(st: Ingestor, st2: Ingestor, t: nat, due: set<(nat, nat)>)
    requires t in st.stores
  {
    && t in st2.stores
    && if (exists s :: (s, t) in due) then |st2.stores[t].chunks| == |st.stores[t].chunks| + 1
       else st2.stores[t] == st.stores[t]
  }

  lemma OneMoreChunk(v: TopicView)
    requires GoodTopic(v) && v.pending.Some?
    ensures ChunkOf(v.store, Sealed(v).store, PiecesRows(v.pending.value.pieces))
  {
    hide IsMax, RowsSorted;
    SealingIsGood(v);
    var p, n := v.pending.value, |v.store.chunks|;
    var m := Merged(p.pieces);
    SealingSucceeds(p.pieces, p.schema);
    var c := NewChunk(m.t, m.cols, p.schema).value;
    assert Sealed(v).store.chunks == v.store.chunks + [c];
  }

  /** Sealing a topic that has rows buffered makes one chunk of them; of another
      it does nothing. */
  lemma SealTakesEffect(st: Ingestor, source: nat, topic: nat)
    requires Good(st)
    ensures if HasPending(st, source, topic) then SealedOne(st, SealTopic(st, source, topic), source, topic)
            else SealTopic(st, source, topic) == st
  {
    hide GoodTopic, Linked, Recorded, ChunkOf, Shows, StoreWith, SealTopic, Publish, Sealed;
    if HasPending(st, source, topic) {
      SealIsMove(st, source, topic);
      MoveIsLinked(st, source, topic);
      assert GoodTopic(TopicViewOf(st, topic));
      OneMoreChunk(TopicViewOf(st, topic));
      MovedMeans(st, source, topic);
      PublishShows(Moved(st, source, topic));
      hide Moved;
    } else {
      NothingToSeal(st, source, topic);
    }
  }

  lemma NothingToSeal(st: Ingestor, source: nat, topic: nat)
    requires !HasPending(st, source, topic)
    ensures SealTopic(st, source, topic) == st
  {
  }

  lemma MovedMeans(st: Ingestor, source: nat, topic: nat)
    requires Good(st) && HasPending(st, source, topic)
    ensures var st2 := Moved(st, source, topic);
            && BufferGone(st, st2, source, topic) && st2.chunksSealed == st.chunksSealed + 1
            && topic in st.stores
            && st2.stores == st.stores[topic := Sealed(TopicViewOf(st, topic)).store]
            && st2 == st.(sources := st2.sources, stores := st2.stores, chunksSealed := st2.chunksSealed)
  {
    hide GoodTopic, Linked, Recorded, StoreWith, SealTopic;
    SealIsMove(st, source, topic);
    assert GoodTopic(TopicViewOf(st, topic));
    SealingIsGood(TopicViewOf(st, topic));
  }

  // ----- Seals of a message -----

  /** The listed buffers that hold rows. */
  ghost function Due(st: Ingestor, seals: seq<(nat, nat)>): set<(nat, nat)> {
    set x | x in seals && HasPending(st, x.0, x.1)
  }

  /** Just these buffers are gone, each made one chunk; the others, and the stores
      of other topics, are as they were. */
  ghost predicate SealedThese(st: Ingestor, st2: Ingestor, due: set<(nat, nat)>) {
    && SealedTimes(st, st2, |due|)
    && (forall s :: s in st.sources ==> SealedOf(st, st2, s, due))
    && (forall t :: t in st.stores ==> StoredOf(st, st2, t, due))
  }

  /** Nothing but buffers, stores and publications have changed, with `n` new
      chunks and as many publications. */
  ghost predicate SealedTimes(st: Ingestor, st2: Ingestor, n: nat) {
    && st2.registry == st.registry && st2.diags == st.diags && st2.maxTs == st.maxTs && st2.accepted == st.accepted
    && st2.rowsIngested == st.rowsIngested && st2.sources.Keys == st.sources.Keys && st2.stores.Keys == st.stores.Keys
    && st2.chunksSealed == st.chunksSealed + n && st2.current.epoch == st.current.epoch + n
    && (n == 0 ==> st2 == st) && (n > 0 ==> Shows(st2.current, st2))
  }

  ghost predicate SealedOf(st: Ingestor, st2: Ingestor, s: nat, due: set<(nat, nat)>)
    requires s in st.sources
  {
    && s in st2.sources
    && st2.sources[s] == st.sources[s].(pending := st2.sources[s].pending)
    && (forall t :: t in st2.sources[s].pending <==> t in st.sources[s].pending && (s, t) !in due)
    && (forall t :: t in st2.sources[s].pending ==> st2.sources[s].pending[t] == st.sources[s].pending[t])
  }

  lemma NoneDue(st: Ingestor)
    ensures SealedThese(st, st, {})
  {
  }

  lemma OneMoreSource(st: Ingestor, st1: Ingestor, st2: Ingestor, due: set<(nat, nat)>, source: nat, topic: nat,
                      s: nat)
    requires s in st.sources && SealedOf(st, st1, s, due) && BufferGone(st1, st2, source, topic)
    ensures SealedOf(st, st2, s, due + {(source, topic)})
  {
  }

  lemma OneMoreStore(st: Ingestor, st1: Ingestor, st2: Ingestor, due: set<(nat, nat)>, source: nat, topic: nat,
                     t: nat)
    requires t in st.stores && StoredOf(st, st1, t, due) && SealedOne(st1, st2, source, topic)
    requires forall s, u :: (s, u) in due && u == topic ==> s == source
    requires (source, topic) !in due
    ensures StoredOf(st, st2, t, due + {(source, topic)})
  {
    hide Published, PiecesRows, IngestRows.ChunkRows;
    var due2 := due + {(source, topic)};
    if t == topic {
      assert (source, t) in due2;
      assert forall s :: (s, t) !in due;
    } else {
      assert forall s :: (s, t) in due2 <==> (s, t) in due;
    }
  }

  lemma OneMoreTime(st: Ingestor, st1: Ingestor, st2: Ingestor, n: nat, source: nat, topic: nat)
    requires SealedTimes(st, st1, n) && SealedOne(st1, st2, source, topic)
    ensures SealedTimes(st, st2, n + 1)
  {
    hide Shows, ChunkOf;
  }

  /** One more seal. */
  lemma OneMoreDue(st: Ingestor, st1: Ingestor, st2: Ingestor, due: set<(nat, nat)>, source: nat, topic: nat)
    requires SealedThese(st, st1, due) && SealedOne(st1, st2, source, topic) && (source, topic) !in due
    requires forall s, t :: (s, t) in due && t == topic ==> s == source
    ensures SealedThese(st, st2, due + {(source, topic)})
  {
    var due2 := due + {(source, topic)};
    assert BufferGone(st1, st2, source, topic);
    hide SealedOf, StoredOf, SealedOne, SealedTimes;
    OneMoreTime(st, st1, st2, |due|, source, topic);
    forall s | s in st.sources
      ensures SealedOf(st, st2, s, due2)
    {
      OneMoreSource(st, st1, st2, due, source, topic, s);
    }
    forall t | t in st.stores
      ensures StoredOf(st, st2, t, due2)
    {
      OneMoreStore(st, st1, st2, due, source, topic, t);
    }
  }

  lemma DueOneMore(st: Ingestor, seals: seq<(nat, nat)>)
    requires seals != []
    ensures forall x :: x in Due(st, seals[..|seals| - 1]) ==> HasPending(st, x.0, x.1)
    ensures var n := |seals| - 1;
            Due(st, seals) == Due(st, seals[..n]) + if HasPending(st, seals[n].0, seals[n].1) then {seals[n]} else {}
  {
    assert seals == seals[..|seals| - 1] + [seals[|seals| - 1]];
  }

  /** A list of seals makes chunks of just the listed buffers that hold rows, with
      one publication for each. */
  lemma {:induction false} SealsTakeEffect(st: Ingestor, seals: seq<(nat, nat)>)
    requires Good(st)
    ensures SealedThese(st, SealAll(st, seals), Due(st, seals))
  {
    hide Good, SealedThese, SealTopic, Due;
    if seals == [] {
      NoneDue(st);
      assert Due(st, seals) == {} by { NothingDue(st); }
    } else {
      var n := |seals| - 1;
      var (source, topic) := seals[n];
      SealsTakeEffect(st, seals[..n]);
      SealAllIsGood(st, seals[..n]);
      DueOneMore(st, seals);
      LastSeal(st, SealAll(st, seals[..n]), Due(st, seals[..n]), source, topic);
    }
  }

  lemma NothingDue(st: Ingestor)
    ensures Due(st, []) == {}
  {
  }

  lemma LastSeal(st: Ingestor, st1: Ingestor, due: set<(nat, nat)>, source: nat, topic: nat)
    requires Good(st) && Good(st1) && SealedThese(st, st1, due)
    requires forall x :: x in due ==> HasPending(st, x.0, x.1)
    ensures SealedThese(st, SealTopic(st1, source, topic),
                        due + if HasPending(st, source, topic) then {(source, topic)} else {})
  {
    hide Good, SealedOne, SealTopic, SealedThese;
    SealTakesEffect(st1, source, topic);
    StillPending(st, st1, due, source, topic);
    if HasPending(st1, source, topic) {
      assert Linked(st) by {
        GoodParts(st);
      }
      OneTopicOneSource(st, due, source, topic);
      OneMoreDue(st, st1, SealTopic(st1, source, topic), due, source, topic);
    } else if HasPending(st, source, topic) {
      assert due + {(source, topic)} == due;
    } else {
      assert due + {} == due;
    }
  }

  lemma StillPending(st: Ingestor, st1: Ingestor, due: set<(nat, nat)>, source: nat, topic: nat)
    requires SealedThese(st, st1, due)
    ensures HasPending(st1, source, topic) <==> HasPending(st, source, topic) && (source, topic) !in due
  {
    assert source in st.sources ==> SealedOf(st, st1, source, due);
    hide StoredOf, Shows;
  }

  lemma OneTopicOneSource(st: Ingestor, due: set<(nat, nat)>, source: nat, topic: nat)
    requires Linked(st) && (forall x :: x in due ==> HasPending(st, x.0, x.1)) && HasPending(st, source, topic)
    ensures forall s, t :: (s, t) in due && t == topic ==> s == source
  {
    hide Valid, LiveTopic, LiveSource, NamesTopic, FitsTopic;
    StoresHaveTopics(st);
    forall s, t | (s, t) in due && t == topic
      ensures s == source
    {
      assert HasPending(st, (s, t).0, (s, t).1);
      assert t in st.stores;
      assert st.registry.topics[t].source == s && st.registry.topics[topic].source == source;
    }
  }

  // ----- A batch -----

  function BufferOf(st: Ingestor, source: nat, topic: nat): seq<Row> {
    PendingRows(PendingAt(st, source, topic))
  }

  /** The batch has a row earlier than one buffered for the topic. */
  ghost predicate Overtakes(buffer: seq<Row>, b: Batch) {
    exists i, k :: 0 <= i < |b.t| && 0 <= k < |buffer| && b.t[i] < buffer[k].t
  }

  /** What taking in `piece` leaves: an overtaken buffer becomes a chunk first, and
      so does one that is full then; otherwise the rows wait. */
  ghost predicate TakenSo(st: Ingestor, st2: Ingestor, source: nat, topic: nat, early: bool, rows: seq<Row>)
    requires source in st.sources && topic in st.stores
  {
    var buffer := BufferOf(st, source, topic);
    var kept := (if early then [] else buffer) + rows;
    var full := |kept| >= st.sources[source].sealRows;
    var chunks := (if early then 1 else 0) + (if full then 1 else 0);
    && topic in st2.stores && st2.stores == st.stores[topic := st2.stores[topic]]
    && |st2.stores[topic].chunks| == |st.stores[topic].chunks| + chunks
    && st2.chunksSealed == st.chunksSealed + chunks && st2.current.epoch == st.current.epoch + chunks
    && st2.registry == st.registry
    && (chunks == 0 ==> st2.current == st.current && st2.stores == st.stores)
    && (chunks > 0 ==> Shows(st2.current, st2))
    && source in st2.sources && (HasPending(st2, source, topic) <==> !full)
    && BufferOf(st2, source, topic) == (if full then [] else kept)
    && st2.sources ==
       st.sources[source := st.sources[source].(pending := st2.sources[source].pending)]
    && forall t :: t != topic ==>
         && (t in st2.sources[source].pending <==> t in st.sources[source].pending)
         && (t in st.sources[source].pending ==>
              st2.sources[source].pending[t] == st.sources[source].pending[t])
  }

  lemma TakenInMeans(st: Ingestor, source: nat, topic: nat, schema: TopicSchema, piece: Piece)
    requires Ready(st, source, topic, schema, piece) && piece.t != [] && Follows(st, source, topic, piece)
    ensures var st2 := TakenIn(st, source, topic, schema, piece);
            && st2.stores == st.stores && st2.registry == st.registry && st2.chunksSealed == st.chunksSealed
            && st2.current == st.current
            && source in st2.sources && HasPending(st2, source, topic)
            && BufferOf(st2, source, topic) == BufferOf(st, source, topic) + PieceRows(piece)
            && st2.sources[source].pending[topic].rows == |BufferOf(st, source, topic)| + |PieceRows(piece)|
            && st2.sources ==
               st.sources[source := st.sources[source].(pending :=
                 st.sources[source].pending[topic := st2.sources[source].pending[topic]])]
  {
    hide Linked, Recorded, GoodPiece, Exact, RowsSorted, IsMax;
    TopicKnown(st, topic);
    assert GoodTopic(TopicViewOf(st, topic));
    assert PendingOf(st, topic) == PendingAt(st, source, topic);
    GrownIsGood(PendingAt(st, source, topic), schema, piece);
  }

  lemma FilledMeans(st: Ingestor, source: nat, topic: nat, schema: TopicSchema, piece: Piece)
    requires Ready(st, source, topic, schema, piece) && piece.t != [] && Follows(st, source, topic, piece)
    ensures TakenSo(st, SealIfFull(TakenIn(st, source, topic, schema, piece), source, topic), source, topic, false,
                    PieceRows(piece))
  {
    hide Linked, Recorded, GoodPiece, GoodTopic, SealTopic, TakenIn, Shows, PiecesRows, PieceRows;
    TakenInMeans(st, source, topic, schema, piece);
    TakenIsGood(st, source, topic, schema, piece);
    SealTakesEffect(TakenIn(st, source, topic, schema, piece), source, topic);
    assert [] + BufferOf(st, source, topic) == BufferOf(st, source, topic);
  }

  /** The rows of a buffer end with its greatest time. */
  lemma {:induction false} ChainedEnds(pieces: seq<Piece>, columns: nat)
    requires pieces != [] && Chained(pieces, columns)
    ensures var rows, last := PiecesRows(pieces), LastOf(pieces[|pieces| - 1]);
            && rows != [] && rows[|rows| - 1].t == last && forall k :: 0 <= k < |rows| ==> rows[k].t <= last
  {
    hide PieceRows, GoodPiece;
    var n := |pieces| - 1;
    PieceEnds(pieces[n], columns);
    if n > 0 {
      ChainedEnds(pieces[..n], columns);
      FollowingPiece(pieces, columns);
    }
  }

  lemma FollowingPiece(pieces: seq<Piece>, columns: nat)
    requires |pieces| > 1 && Chained(pieces, columns)
    ensures var n := |pieces| - 1;
            && GoodPiece(pieces[n - 1], columns) && GoodPiece(pieces[n], columns)
            && LastOf(pieces[n - 1]) <= pieces[n].t[0]
  {
  }

  lemma PieceEnds(p: Piece, columns: nat)
    requires GoodPiece(p, columns)
    ensures var rows := PieceRows(p);
            && rows != [] && rows[|rows| - 1].t == LastOf(p) && p.t[0] <= LastOf(p)
            && forall k :: 0 <= k < |rows| ==> rows[k].t <= LastOf(p)
  {
    var rows := PieceRows(p);
    assert forall k :: 0 <= k < |rows| ==> rows[k].t == p.t[k];
  }

  predicate EndsAfter(st: Ingestor, source: nat, topic: nat, t: int) {
    var p := PendingAt(st, source, topic);
    p.Some? && p.value.lastTs.Some? && t < p.value.lastTs.value
  }

  lemma PendingIsGood(st: Ingestor, source: nat, topic: nat)
    requires Good(st) && topic in st.stores && topic < |st.registry.topics|
    requires st.registry.topics[topic].source == source
    ensures PendingAt(st, source, topic).Some? ==>
              GoodPending(PendingAt(st, source, topic).value, st.stores[topic].schema)
  {
    hide Linked, Recorded, Exact, IsMax, RowsSorted, PiecesRows, Chained;
    assert GoodTopic(TopicViewOf(st, topic));
    assert PendingOf(st, topic) == PendingAt(st, source, topic);
  }

  lemma BufferEnds(st: Ingestor, source: nat, topic: nat, t: int)
    requires Good(st) && topic in st.stores && topic < |st.registry.topics|
    requires st.registry.topics[topic].source == source
    ensures var buffer := BufferOf(st, source, topic);
            && (EndsAfter(st, source, topic, t) ==> buffer != [] && t < buffer[|buffer| - 1].t)
            && (forall k :: 0 <= k < |buffer| && t < buffer[k].t ==> EndsAfter(st, source, topic, t))
  {
    hide Good, PiecesRows, Chained, HasPending;
    PendingIsGood(st, source, topic);
    var p := PendingAt(st, source, topic);
    if p.Some? {
      ChainedEnds(p.value.pieces, |st.stores[topic].schema.fields|);
    }
  }

  lemma OvertakingMeans(st: Ingestor, topic: nat, b: Batch, order: Order)
    requires Good(st) && topic in st.stores && topic < |st.registry.topics|
    requires st.registry.topics[topic].source == b.source
    requires Sorts(order) && b.t != [] && Rectangular(|b.t|, b.cols)
    ensures PieceOf(b, order).t != []
    ensures EndsAfter(st, b.source, topic, PieceOf(b, order).t[0]) <==>
              Overtakes(BufferOf(st, b.source, topic), b)
  {
    hide Good, PieceOf, BufferOf, EndsAfter;
    LeastTime(b, order);
    var buffer, least := BufferOf(st, b.source, topic), PieceOf(b, order).t[0];
    BufferEnds(st, b.source, topic, least);
    var i :| 0 <= i < |b.t| && b.t[i] == least;
    if EndsAfter(st, b.source, topic, least) {
      assert b.t[i] < buffer[|buffer| - 1].t;
    }
  }

  lemma AcceptMeans(st: Ingestor, source: nat, topic: nat, schema: TopicSchema, piece: Piece)
    requires Ready(st, source, topic, schema, piece) && piece.t != []
    ensures TakenSo(st, Accept(st, source, topic, schema, piece), source, topic,
                    EndsAfter(st, source, topic, piece.t[0]), PieceRows(piece))
  {
    hide GoodTopic, Linked, Recorded, SealTopic, GoodPiece, Timed, Shows, PiecesRows, PieceRows, ChunkOf;
    var st1 := ClearedFirst(st, source, topic, piece);
    SealIsGood(st, source, topic);
    ClearedCommutes(st, source, topic, piece);
    ClearedFollows(st, source, topic, schema, piece);
    FilledMeans(st1, source, topic, schema, piece);
    SealTakesEffect(st, source, topic);
    AfterClearing(st, st1, Accept(st, source, topic, schema, piece), source, topic,
                  EndsAfter(st, source, topic, piece.t[0]), PieceRows(piece));
  }

  lemma AfterClearing(st: Ingestor, st1: Ingestor, st2: Ingestor, source: nat, topic: nat, early: bool,
                      rows: seq<Row>)
    requires source in st.sources && topic in st.stores && source in st1.sources && topic in st1.stores
    requires if early then SealedOne(st, st1, source, topic) else st1 == st
    requires TakenSo(st1, st2, source, topic, false, rows)
    ensures TakenSo(st, st2, source, topic, early, rows)
  {
    hide PiecesRows, IngestRows.ChunkRows;
    if early {
      assert BufferOf(st1, source, topic) == [];
      assert [] + rows == rows;
      assert st2.stores == st.stores[topic := st2.stores[topic]];
      assert st2.sources == st.sources[source := st.sources[source].(pending := st2.sources[source].pending)];
    }
  }

  /** A batch of a known source: a buffer with a row that it overtakes becomes a
      chunk of its own first; then the rows of the batch follow in the buffer, and
      once that has reached the source's limit it becomes a chunk. Each chunk is
      published, and no other buffer or store is another. */
  lemma BatchSeals(st: Ingestor, b: Batch, order: Order)
    requires Good(st) && Sorts(order) && b.t != [] && b.source in st.sources && Fitting(st, b)
    ensures var (topic, st1) := EnsureTopic(st, b.source, b.schema);
            && topic.Some? && b.source in st1.sources && topic.value in st1.stores
            && st1.sources[b.source].pending == st.sources[b.source].pending
            && st1.chunksSealed == st.chunksSealed && st1.current == st.current
            && TakenSo(st1, Processed(st, Data(b), order), b.source, topic.value,
                       Overtakes(BufferOf(st, b.source, topic.value), b), PieceRows(PieceOf(b, order)))
  {
    hide GoodTopic, Linked, Recorded, PieceOf, Sorts, GoodPiece, Accept, TakenSo;
    EnsuredTopic(st, b);
    var (topic, st1) := EnsureTopic(st, b.source, b.schema);
    EnsuringSealsNothing(st, b.source, b.schema);
    PieceOfBatch(b, order);
    var piece := PieceOf(b, order);
    PieceNotEmpty(piece, |b.schema.fields|);
    var st2 := if SortedTimes(b.t) then st1 else st1.(diags := st1.diags + [Unsorted(topic.value)]);
    Noted(st1, Unsorted(topic.value));
    AcceptMeans(st2, b.source, topic.value, b.schema, piece);
    TopicKnown(st2, topic.value);
    OvertakingMeans(st2, topic.value, b, order);
    DiagsDoNotMatter(st1, st2, Accept(st2, b.source, topic.value, b.schema, piece), b.source, topic.value,
                     Overtakes(BufferOf(st, b.source, topic.value), b), PieceRows(piece));
  }

  lemma EnsuringSealsNothing(st: Ingestor, source: nat, schema: TopicSchema)
    requires source in st.sources
    ensures var st2 := EnsureTopic(st, source, schema).1;
            && source in st2.sources && st2.sources[source].pending == st.sources[source].pending
            && st2.chunksSealed == st.chunksSealed && st2.current == st.current
  {
    hide AddTopic, AddFields;
  }

  lemma DiagsDoNotMatter(st: Ingestor, st1: Ingestor, st2: Ingestor, source: nat, topic: nat, early: bool,
                         rows: seq<Row>)
    requires st1 == st.(diags := st1.diags) && source in st.sources && topic in st.stores
    requires TakenSo(st1, st2, source, topic, early, rows)
    ensures TakenSo(st, st2, source, topic, early, rows)
  {
    hide Shows, PiecesRows;
  }
}
