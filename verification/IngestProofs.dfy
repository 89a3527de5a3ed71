/** What every run of the writer keeps. */
module IngestProofs {
  import opened Prelude
  import opened Storage
  import opened Store
  import opened Identity
  import opened Snapshots
  import opened Ingest
  import opened IngestRows

  // ----- One topic -----

  /** All that concerns one topic. */
  datatype TopicView =
    TopicView(store: TopicStore, pending: Option<Pending>, rows: seq<Row>, max: Option<int>, regressed: bool)

  function PendingRows(p: Option<Pending>): seq<Row> {
    if p.None? then [] else PiecesRows(p.value.pieces)
  }

  ghost predicate GoodPending(p: Pending, schema: TopicSchema) {
    && p.schema == schema && p.pieces != [] && Chained(p.pieces, |schema.fields|)
    && p.rows == |PiecesRows(p.pieces)| && p.rows > 0
    && p.lastTs == Some(LastOf(p.pieces[|p.pieces| - 1]))
  }

  ghost predicate IsMax(rows: seq<Row>, max: Option<int>) {
    && (max.None? <==> rows == [])
    && (max.Some? ==> (forall i :: 0 <= i < |rows| ==> rows[i].t <= max.value)
                      && exists i :: 0 <= i < |rows| && rows[i].t == max.value)
  }

  /** The chunks and then the buffer hold exactly the accepted rows, in order.
      A regression has been reported exactly when these are out of order. */
  ghost predicate GoodTopic(v: TopicView) {
    && Exact(v.store)
    && (v.pending.Some? ==> GoodPending(v.pending.value, v.store.schema))
    && v.rows == StoreRows(v.store.chunks) + PendingRows(v.pending)
    && IsMax(v.rows, v.max)
    && (v.regressed <==> !RowsSorted(v.rows))
  }

  /** Rows of one store count as its `rows`. */
  lemma {:induction false} CountedRows(chunks: seq<Chunk>, columns: nat)
    requires forall k :: 0 <= k < |chunks| ==> ValidChunk(chunks[k], columns)
    ensures |StoreRows(chunks)| == RowCount(chunks)
  {
    if chunks != [] {
      CountedRows(chunks[..|chunks| - 1], columns);
    }
  }

  /** With nothing buffered, a topic's store is monotonic exactly when no
      regression was ever reported. */
  lemma MonotonicUnlessRegressed(v: TopicView)
    requires GoodTopic(v)
    ensures v.pending.None? ==> (v.store.monotonic <==> !v.regressed)
    ensures !v.regressed ==> v.store.monotonic
  {
    SortedStore(v.store.chunks, |v.store.schema.fields|);
    assert v.pending.None? ==> v.rows == StoreRows(v.store.chunks);
    if !v.regressed {
      forall i, j | 0 <= i < j < |StoreRows(v.store.chunks)|
        ensures StoreRows(v.store.chunks)[i].t <= StoreRows(v.store.chunks)[j].t
      {
        assert v.rows[i] == StoreRows(v.store.chunks)[i] && v.rows[j] == StoreRows(v.store.chunks)[j];
      }
    }
  }

  /** The store with the buffered rows as one more chunk. */
  function StoreWith(store: TopicStore, p: Pending): Option<TopicStore> {
    if p.pieces == [] then None
    else
      var m := Merged(p.pieces);
      match NewChunk(m.t, m.cols, p.schema)
      case Err(_) => None
      case Ok(c) => AppendChunk(store, c)
  }

  function Sealed(v: TopicView): TopicView {
    if v.pending.None? || StoreWith(v.store, v.pending.value).None? then v
    else v.(pending := None, store := StoreWith(v.store, v.pending.value).value)
  }

  /** Sealing cannot fail, and moves the buffered rows into the store. */
  lemma SealingIsGood(v: TopicView)
    requires GoodTopic(v) && v.pending.Some?
    ensures StoreWith(v.store, v.pending.value).Some? && v.pending.value.pieces != [] && v.pending.value.rows > 0
    ensures GoodTopic(Sealed(v)) && Sealed(v).store.schema == v.store.schema && Sealed(v).pending.None?
  {
    var p := v.pending.value;
    SealingSucceeds(p.pieces, p.schema);
    var m := Merged(p.pieces);
    var c := NewChunk(m.t, m.cols, p.schema).value;
    AppendKeepsExact(v.store, c);
    assert (v.store.chunks + [c])[..|v.store.chunks|] == v.store.chunks;
    assert Sealed(v).rows == StoreRows(Sealed(v).store.chunks) + [];
  }

  /** The topic after one more piece, which the buffer can take. */
  function Taken(v: TopicView, piece: Piece): TopicView
    requires piece.t != []
  {
    TopicView(v.store, Some(Grown(v.pending, v.store.schema, piece)), v.rows + PieceRows(piece),
              Some(Larger(v.max, LastOf(piece))), v.regressed || (v.max.Some? && piece.t[0] < v.max.value))
  }

  lemma TakingIsGood(v: TopicView, piece: Piece)
    requires GoodTopic(v) && GoodPiece(piece, |v.store.schema.fields|)
    requires v.pending.Some? && v.pending.value.lastTs.Some? ==> v.pending.value.lastTs.value <= piece.t[0]
    ensures GoodTopic(Taken(v, piece))
  {
    GrownIsGood(v.pending, v.store.schema, piece);
    MaxGrows(v.rows, v.max, piece);
    StillInOrder(v.rows, v.max, piece);
    RowsFollow(StoreRows(v.store.chunks), PendingRows(v.pending), PieceRows(piece));
  }

  lemma RowsFollow(a: seq<Row>, b: seq<Row>, c: seq<Row>)
    ensures (a + b) + c == a + (b + c)
  {
  }

  lemma GrownIsGood(p: Option<Pending>, schema: TopicSchema, piece: Piece)
    requires p.Some? ==> GoodPending(p.value, schema)
    requires GoodPiece(piece, |schema.fields|)
    requires p.Some? && p.value.lastTs.Some? ==> p.value.lastTs.value <= piece.t[0]
    ensures GoodPending(Grown(p, schema, piece), schema)
    ensures PendingRows(Some(Grown(p, schema, piece))) == PendingRows(p) + PieceRows(piece)
  {
    var before := if p.Some? then p.value.pieces else [];
    var after := before + [piece];
    assert after[..|before|] == before;
    assert Grown(p, schema, piece).pieces == after;
    forall i | 0 < i < |after|
      ensures LastOf(after[i - 1]) <= after[i].t[0]
    {
      if i < |before| {
        assert after[i - 1] == before[i - 1] && after[i] == before[i];
      }
    }
  }

  lemma MaxGrows(rows: seq<Row>, max: Option<int>, piece: Piece)
    requires IsMax(rows, max) && piece.t != [] && SortedTimes(piece.t) && Rectangular(|piece.t|, piece.cols)
    ensures IsMax(rows + PieceRows(piece), Some(Larger(max, LastOf(piece))))
  {
    var own := PieceRows(piece);
    var all, top := rows + own, Larger(max, LastOf(piece));
    assert forall i :: 0 <= i < |own| ==> own[i].t == piece.t[i] <= LastOf(piece);
    assert all[|all| - 1].t == LastOf(piece);
    if max.Some? {
      var i :| 0 <= i < |rows| && rows[i].t == max.value;
      assert all[i].t == max.value;
    }
  }

  lemma StillInOrder(rows: seq<Row>, max: Option<int>, piece: Piece)
    requires IsMax(rows, max) && piece.t != [] && SortedTimes(piece.t) && Rectangular(|piece.t|, piece.cols)
    ensures RowsSorted(rows + PieceRows(piece)) <==> RowsSorted(rows) && (max.None? || max.value <= piece.t[0])
  {
    var own := PieceRows(piece);
    assert forall i :: 0 <= i < |own| ==> own[i].t == piece.t[i];
    SortedJoin(rows, own);
    if rows != [] && RowsSorted(rows) {
      var i :| 0 <= i < |rows| && rows[i].t == max.value;
      assert rows[i].t <= rows[|rows| - 1].t <= max.value;
    }
  }

  // ----- The whole writer -----

  function AcceptedRows(accepted: seq<(nat, Piece)>, topic: nat): seq<Row> {
    if accepted == [] then []
    else
      var n := |accepted| - 1;
      var before := AcceptedRows(accepted[..n], topic);
      if accepted[n].0 == topic then before + PieceRows(accepted[n].1) else before
  }

  function RowTotal(accepted: seq<(nat, Piece)>): nat {
    if accepted == [] then 0 else RowTotal(accepted[..|accepted| - 1]) + |accepted[|accepted| - 1].1.t|
  }

  function PendingOf(st: Ingestor, topic: nat): Option<Pending> {
    if topic < |st.registry.topics| then PendingAt(st, st.registry.topics[topic].source, topic) else None
  }

  ghost function TopicViewOf(st: Ingestor, topic: nat): TopicView
    requires topic in st.stores
  {
    TopicView(st.stores[topic], PendingOf(st, topic), AcceptedRows(st.accepted, topic), MaxOf(st, topic),
              TimeRegression(topic) in st.diags)
  }

  predicate Failure(d: Diag) {
    d.SealFailed? || d.AppendFailed? || d.PublishFailed?
  }

  /** How the parts of the state refer to one another. */
  ghost predicate Linked(st: Ingestor) {
    && Valid(st.registry)
    && (forall t: nat :: t in st.stores <==> LiveTopic(st.registry, t))
    && (forall s: nat :: s in st.sources <==> LiveSource(st.registry, s))
    && (forall t :: t in st.stores ==> FitsTopic(st.registry, t, st.stores[t]))
    && (forall s, name :: s in st.sources && name in st.sources[s].topics ==>
         NamesTopic(st.registry, (s, name), st.sources[s].topics[name]))
    && (forall s, t :: s in st.sources && t in st.sources[s].pending ==>
         t in st.stores && st.registry.topics[t].source == s)
  }

  /** What is remembered concerns known topics only. */
  ghost predicate Recorded(st: Ingestor) {
    && (forall t :: t in st.maxTs ==> t in st.stores)
    && (forall a :: a in st.accepted ==> a.0 < |st.registry.topics|)
    && (forall t: nat :: TimeRegression(t) in st.diags ==> t < |st.registry.topics|)
    && (forall d :: d in st.diags ==> !Failure(d))
    && st.rowsIngested == RowTotal(st.accepted)
  }

  /** The published snapshot has no store for a removed topic. */
  ghost predicate NoStoreForRemoved(s: Snapshot) {
    forall i :: 0 <= i < |s.topics| && s.topics[i].entry.removed ==> s.topics[i].store.None?
  }

  ghost predicate Good(st: Ingestor) {
    && Linked(st) && Recorded(st) && NoStoreForRemoved(st.current)
    && forall t :: t in st.stores ==> GoodTopic(TopicViewOf(st, t))
  }

  /** Publication succeeds whenever the parts are linked. */
  lemma PublishSucceeds(st: Ingestor)
    requires Linked(st)
    ensures FromRegistry(st.registry, st.stores, 0).Some?
    ensures Publish(st) == st.(current := Assembled(st.registry, st.stores, 0).(epoch := st.current.epoch + 1))
    ensures NoStoreForRemoved(Publish(st).current)
  {
    var s := Publish(st).current;
    forall i | 0 <= i < |s.topics| && s.topics[i].entry.removed
      ensures s.topics[i].store.None?
    {
      assert !LiveTopic(st.registry, i);
    }
  }

  lemma PublishIsGood(st: Ingestor)
    requires Linked(st) && Recorded(st) && forall t :: t in st.stores ==> GoodTopic(TopicViewOf(st, t))
    ensures Good(Publish(st))
  {
    hide GoodTopic, Valid;
    PublishSucceeds(st);
    var st2 := Publish(st);
    forall t | t in st2.stores
      ensures GoodTopic(TopicViewOf(st2, t))
    {
      assert TopicViewOf(st2, t) == TopicViewOf(st, t);
    }
  }

  // ----- Sealing -----

  /** The state with a topic's buffer moved into its store, not yet published. */
  function Moved(st: Ingestor, source: nat, topic: nat): Ingestor
    requires HasPending(st, source, topic)
  {
    var st1 := WithPending(st, source, st.sources[source].pending - {topic});
    if topic !in st.stores then st1
    else
      var next := StoreWith(st.stores[topic], st.sources[source].pending[topic]);
      if next.None? then st1
      else st1.(stores := st1.stores[topic := next.value], chunksSealed := st1.chunksSealed + 1)
  }

  lemma SealIsMove(st: Ingestor, source: nat, topic: nat)
    requires Good(st) && HasPending(st, source, topic)
    ensures SealTopic(st, source, topic) == Publish(Moved(st, source, topic))
    ensures topic in st.stores && PendingOf(st, topic) == Some(st.sources[source].pending[topic])
    ensures Sealed(TopicViewOf(st, topic)).pending.None?
    ensures Sealed(TopicViewOf(st, topic)).store.schema == st.stores[topic].schema
    ensures Moved(st, source, topic).stores == st.stores[topic := Sealed(TopicViewOf(st, topic)).store]
  {
    hide Valid, RowsSorted, IsMax, NamesTopic, Exact, RowTotal, AcceptedRows;
    assert GoodTopic(TopicViewOf(st, topic));
    SealingIsGood(TopicViewOf(st, topic));
  }

  /** Nothing but buffers was emptied and stores extended. */
  ghost predicate Extended(st: Ingestor, st2: Ingestor) {
    && st2.registry == st.registry && st2.maxTs == st.maxTs && st2.accepted == st.accepted && st2.diags == st.diags
    && st2.rowsIngested == st.rowsIngested && st2.current == st.current
    && st2.stores.Keys == st.stores.Keys && (forall t :: t in st.stores ==> st2.stores[t].schema == st.stores[t].schema)
    && st2.sources.Keys == st.sources.Keys
    && (forall s :: s in st.sources ==>
         st2.sources[s].topics == st.sources[s].topics && st2.sources[s].pending.Keys <= st.sources[s].pending.Keys)
  }

  lemma ExtendedIsLinked(st: Ingestor, st2: Ingestor)
    requires Linked(st) && Recorded(st) && Extended(st, st2)
    ensures Linked(st2) && Recorded(st2)
  {
    hide Valid, NamesTopic, LiveTopic, LiveSource, RowTotal, Failure;
    forall s, t | s in st2.sources && t in st2.sources[s].pending
      ensures t in st2.stores && st2.registry.topics[t].source == s
    {
      assert t in st2.sources[s].pending.Keys;
    }
  }

  lemma MoveExtends(st: Ingestor, source: nat, topic: nat, store: TopicStore)
    requires HasPending(st, source, topic) && topic in st.stores && store.schema == st.stores[topic].schema
    requires Moved(st, source, topic).stores == st.stores[topic := store]
    ensures Extended(st, Moved(st, source, topic))
  {
    hide StoreWith;
  }

  lemma MoveIsLinked(st: Ingestor, source: nat, topic: nat)
    requires Good(st) && HasPending(st, source, topic)
    ensures Extended(st, Moved(st, source, topic))
    ensures Linked(Moved(st, source, topic)) && Recorded(Moved(st, source, topic))
  {
    hide GoodTopic, Sealed, StoreWith, Linked, Recorded, Moved, Extended;
    SealIsMove(st, source, topic);
    MoveExtends(st, source, topic, Sealed(TopicViewOf(st, topic)).store);
    ExtendedIsLinked(st, Moved(st, source, topic));
  }

  lemma MoveKeepsOthers(st: Ingestor, source: nat, topic: nat, t: nat)
    requires Good(st) && HasPending(st, source, topic) && t in st.stores
    ensures topic in st.stores && t in Moved(st, source, topic).stores
    ensures TopicViewOf(Moved(st, source, topic), t)
         == if t == topic then Sealed(TopicViewOf(st, topic)) else TopicViewOf(st, t)
  {
    hide GoodTopic, Valid, LiveSource, NamesTopic, FitsTopic, Recorded, NoStoreForRemoved;
    SealIsMove(st, source, topic);
  }

  /** Sealing a topic never fails; its rows go from the buffer to the store. */
  lemma SealIsGood(st: Ingestor, source: nat, topic: nat)
    requires Good(st)
    ensures Good(SealTopic(st, source, topic))
    ensures var st2 := SealTopic(st, source, topic);
            && st2.registry == st.registry && st2.accepted == st.accepted && st2.diags == st.diags
            && st2.maxTs == st.maxTs && st2.stores.Keys == st.stores.Keys && st2.sources.Keys == st.sources.Keys
            && st2.rowsIngested == st.rowsIngested
            && (forall t :: t in st.stores ==> st2.stores[t].schema == st.stores[t].schema)
            && !HasPending(st2, source, topic)
            && st2.current.epoch == st.current.epoch + (if HasPending(st, source, topic) then 1 else 0)
  {
    hide GoodTopic, Valid, NamesTopic, LiveTopic, LiveSource, Failure, RowTotal, AcceptedRows, StoreWith, FitsTopic;
    if HasPending(st, source, topic) {
      SealIsMove(st, source, topic);
      MoveIsLinked(st, source, topic);
      var st1 := Moved(st, source, topic);
      assert GoodTopic(TopicViewOf(st, topic));
      SealingIsGood(TopicViewOf(st, topic));
      forall t | t in st1.stores
        ensures GoodTopic(TopicViewOf(st1, t))
      {
        MoveKeepsOthers(st, source, topic, t);
      }
      PublishIsGood(st1);
      PublishSucceeds(st1);
    }
  }
}
