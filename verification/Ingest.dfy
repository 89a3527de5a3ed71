/** The single writer of the store, message by message: it buffers batches,
    sorts and seals them into chunks, and publishes snapshots. */
module Ingest {
  import opened Prelude
  import opened Storage
  import opened Store
  import opened Identity
  import opened Snapshots

  const FILE_CHUNK_ROWS: nat := 64 * 1024
  const LIVE_CHUNK_ROWS: nat := 512

  datatype SourceKind = File | Live | Derived | LiveDerived

  datatype Batch = Batch(source: nat, schema: TopicSchema, t: seq<int>, cols: seq<seq<Cell>>)

  /** The arrays of one buffered batch, sorted by time. */
  datatype Piece = Piece(t: seq<int>, cols: seq<seq<Cell>>)

  datatype Pending = Pending(schema: TopicSchema, pieces: seq<Piece>, rows: nat, lastTs: Option<int>)

  datatype SourceState =
    SourceState(kind: SourceKind, sealRows: nat, topics: map<string, nat>, pending: map<nat, Pending>)

  datatype Diag =
    | UnknownSource | Unsorted(topic: nat) | TimeRegression(topic: nat)
    | SealFailed(topic: nat) | AppendFailed(topic: nat) | PublishFailed

  /** The writer as a value. `accepted` records which rows it took in. */
  datatype Ingestor = Ingestor(
    registry: Registry, stores: Stores, sources: map<nat, SourceState>, maxTs: map<nat, int>,
    chunksSealed: nat, rowsIngested: nat, current: Snapshot, diags: seq<Diag>, accepted: seq<(nat, Piece)>)

  const INITIAL: Ingestor := Ingestor(EMPTY, map[], map[], map[], 0, 0, Assembled(EMPTY, map[], 0), [], [])

  /** Indices that put times in order; ties are left open. */
  type Order = seq<int> -> seq<nat>

  ghost predicate Sorts(order: Order) {
    forall t :: IsSorting(t, order(t))
  }

  /** Each index once. */
  ghost predicate IsPermutation(p: seq<nat>, n: nat) {
    && |p| == n && (forall i :: 0 <= i < |p| ==> p[i] < n)
    && (forall i, j :: 0 <= i < j < |p| ==> p[i] != p[j])
    && (forall k: nat :: k < n ==> k in p)
  }

  ghost predicate IsSorting(t: seq<int>, p: seq<nat>) {
    && IsPermutation(p, |t|)
    && (forall i, j :: 0 <= i < j < |p| ==> t[p[i]] <= t[p[j]])
  }

  function Picked<T>(s: seq<T>, p: seq<nat>): (r: seq<T>)
    requires forall i :: 0 <= i < |p| ==> p[i] < |s|
    ensures |r| == |p|
  {
    seq(|p|, i requires 0 <= i < |p| => s[p[i]])
  }

  /** A batch in order of time. */
  function SortedPiece(b: Batch, p: seq<nat>): Piece
    requires Rectangular(|b.t|, b.cols) && forall i :: 0 <= i < |p| ==> p[i] < |b.t|
  {
    Piece(Picked(b.t, p), seq(|b.cols|, k requires 0 <= k < |b.cols| => Picked(b.cols[k], p)))
  }

  predicate PieceOk(b: Batch, p: seq<nat>) {
    Rectangular(|b.t|, b.cols) && forall i :: 0 <= i < |p| ==> p[i] < |b.t|
  }

  function PieceOf(b: Batch, order: Order): Piece {
    if SortedTimes(b.t) || !PieceOk(b, order(b.t)) then Piece(b.t, b.cols) else SortedPiece(b, order(b.t))
  }

  // ----- Merging -----

  function JoinedTimes(pieces: seq<Piece>): seq<int> {
    if pieces == [] then [] else JoinedTimes(pieces[..|pieces| - 1]) + pieces[|pieces| - 1].t
  }

  function ColumnOf(p: Piece, k: nat): seq<Cell> {
    if k < |p.cols| then p.cols[k] else []
  }

  function JoinedColumn(pieces: seq<Piece>, k: nat): seq<Cell> {
    if pieces == [] then []
    else JoinedColumn(pieces[..|pieces| - 1], k) + ColumnOf(pieces[|pieces| - 1], k)
  }

  /** One piece is passed on as it is; several are joined column by column. */
  function Merged(pieces: seq<Piece>): Piece
    requires pieces != []
  {
    if |pieces| == 1 then pieces[0]
    else
      var n := |pieces[0].cols|;
      Piece(JoinedTimes(pieces), seq(n, k requires 0 <= k < n => JoinedColumn(pieces, k)))
  }

  // ----- Publishing and sealing -----

  function Publish(st: Ingestor): Ingestor {
    var s := FromRegistry(st.registry, st.stores, 0);
    if s.None? then st.(diags := st.diags + [PublishFailed])
    else st.(current := s.value.(epoch := st.current.epoch + 1))
  }

  function HasPending(st: Ingestor, source: nat, topic: nat): bool {
    source in st.sources && topic in st.sources[source].pending
  }

  function WithPending(st: Ingestor, source: nat, pending: map<nat, Pending>): Ingestor
    requires source in st.sources
  {
    st.(sources := st.sources[source := st.sources[source].(pending := pending)])
  }

  function StoreOrNew(st: Ingestor, topic: nat, schema: TopicSchema): TopicStore {
    if topic in st.stores then st.stores[topic] else NewStore(schema)
  }

  /** Appends a merged piece as a chunk. */
  function SealedInto(st: Ingestor, topic: nat, merged: Piece, schema: TopicSchema): Ingestor {
    match NewChunk(merged.t, merged.cols, schema)
    case Err(_) => st.(diags := st.diags + [SealFailed(topic)])
    case Ok(chunk) =>
      var next := AppendChunk(StoreOrNew(st, topic, schema), chunk);
      if next.None? then st.(diags := st.diags + [AppendFailed(topic)])
      else Publish(st.(stores := st.stores[topic := next.value], chunksSealed := st.chunksSealed + 1))
  }

  function SealTopic(st: Ingestor, source: nat, topic: nat): Ingestor {
    if !HasPending(st, source, topic) then st
    else
      var p := st.sources[source].pending[topic];
      var st1 := WithPending(st, source, st.sources[source].pending - {topic});
      if p.rows == 0 || p.pieces == [] then st1 else SealedInto(st1, topic, Merged(p.pieces), p.schema)
  }

  function SealAll(st: Ingestor, seals: seq<(nat, nat)>): Ingestor {
    if seals == [] then st
    else
      var (source, topic) := seals[|seals| - 1];
      SealTopic(SealAll(st, seals[..|seals| - 1]), source, topic)
  }

  // ----- Batches -----

  function AddFields(r: Registry, topic: nat, fields: seq<FieldSchema>): Registry {
    if fields == [] then r
    else AddField(AddFields(r, topic, fields[..|fields| - 1]), topic, fields[|fields| - 1].name).1
  }

  function EnsureTopic(st: Ingestor, source: nat, schema: TopicSchema): (Option<nat>, Ingestor)
    requires source in st.sources
  {
    var state := st.sources[source];
    if schema.name in state.topics then (Some(state.topics[schema.name]), st)
    else
      var (id, r) := AddTopic(st.registry, source, schema.name);
      if id.None? then (None, st)
      else
        (id, st.(registry := AddFields(r, id.value, schema.fields),
                 stores := if id.value in st.stores then st.stores else st.stores[id.value := NewStore(schema)],
                 sources := st.sources[source := state.(topics := state.topics[schema.name := id.value])]))
  }

  function Larger(a: Option<int>, b: int): int {
    if a.Some? && a.value > b then a.value else b
  }

  function MaxOf(st: Ingestor, topic: nat): Option<int> {
    if topic in st.maxTs then Some(st.maxTs[topic]) else None
  }

  function PendingAt(st: Ingestor, source: nat, topic: nat): Option<Pending> {
    if HasPending(st, source, topic) then Some(st.sources[source].pending[topic]) else None
  }

  /** The accumulator with one more piece. */
  function Grown(p: Option<Pending>, schema: TopicSchema, piece: Piece): Pending
    requires piece.t != []
  {
    var before := if p.Some? then p.value else Pending(schema, [], 0, None);
    before.(pieces := before.pieces + [piece], rows := before.rows + |piece.t|, lastTs := Some(piece.t[|piece.t| - 1]))
  }

  /** Reports a regression and raises the topic's greatest time. */
  function Timed(st: Ingestor, topic: nat, piece: Piece): Ingestor
    requires piece.t != []
  {
    var regressed := topic in st.maxTs && piece.t[0] < st.maxTs[topic];
    st.(diags := if regressed then st.diags + [TimeRegression(topic)] else st.diags,
        maxTs := st.maxTs[topic := Larger(MaxOf(st, topic), piece.t[|piece.t| - 1])])
  }

  /** Seals first when the piece starts before the accumulator ends. */
  function Cleared(st: Ingestor, source: nat, topic: nat, piece: Piece): Ingestor
    requires piece.t != []
  {
    var p := PendingAt(st, source, topic);
    if p.Some? && p.value.lastTs.Some? && piece.t[0] < p.value.lastTs.value then SealTopic(st, source, topic) else st
  }

  function Buffered(st: Ingestor, source: nat, topic: nat, schema: TopicSchema, piece: Piece): Ingestor
    requires piece.t != [] && source in st.sources
  {
    var p := Grown(PendingAt(st, source, topic), schema, piece);
    WithPending(st, source, st.sources[source].pending[topic := p])
      .(rowsIngested := st.rowsIngested + |piece.t|, accepted := st.accepted + [(topic, piece)])
  }

  function Full(st: Ingestor, source: nat, topic: nat): bool {
    HasPending(st, source, topic) && st.sources[source].pending[topic].rows >= st.sources[source].sealRows
  }

  function SealIfFull(st: Ingestor, source: nat, topic: nat): Ingestor {
    if Full(st, source, topic) then SealTopic(st, source, topic) else st
  }

  /** Buffers a piece for its topic. */
  function Accept(st: Ingestor, source: nat, topic: nat, schema: TopicSchema, piece: Piece): Ingestor
    requires piece.t != [] && source in st.sources
  {
    var st1 := Cleared(Timed(st, topic, piece), source, topic, piece);
    SealingKeepsSources(Timed(st, topic, piece), source, topic);
    SealIfFull(Buffered(st1, source, topic, schema, piece), source, topic)
  }

  lemma SealingKeepsSources(st: Ingestor, source: nat, topic: nat)
    ensures SealTopic(st, source, topic).sources.Keys == st.sources.Keys
  {
  }

  function AcceptBatch(st: Ingestor, b: Batch, order: Order): Ingestor {
    if b.t == [] then st
    else if b.source !in st.sources then st.(diags := st.diags + [UnknownSource])
    else
      var (topic, st1) := EnsureTopic(st, b.source, b.schema);
      if topic.None? then st1
      else
        var piece := PieceOf(b, order);
        var st2 := if SortedTimes(b.t) then st1 else st1.(diags := st1.diags + [Unsorted(topic.value)]);
        if piece.t == [] then st2 else Accept(st2, b.source, topic.value, b.schema, piece)
  }

  // ----- The other messages -----

  function OpenSource(st: Ingestor, key: string, kind: SourceKind): (nat, Ingestor) {
    var (id, r) := AddSource(st.registry, key);
    var sealRows := if kind.File? || kind.Derived? then FILE_CHUNK_ROWS else LIVE_CHUNK_ROWS;
    (id, st.(registry := r, sources := st.sources[id := SourceState(kind, sealRows, map[], map[])]))
  }

  function SetOne(st: Ingestor, source: nat, offset: int): Ingestor {
    var (before, r) := SetOffset(st.registry, source, offset);
    if before.Some? && before.value != offset then Publish(st.(registry := r)) else st.(registry := r)
  }

  predicate PieceShifts(p: Piece, offset: int) {
    p.t == [] || Shifted(TimeRange(p.t[0], p.t[|p.t| - 1]), offset).Some?
  }

  predicate StoreShifts(s: TopicStore, offset: int) {
    s.timeRange.None? || Shifted(s.timeRange.value, offset).Some?
  }

  /** All of a live source's times can take the offset. */
  predicate Shiftable(st: Ingestor, source: nat, offset: int) {
    && LiveSource(st.registry, source) && source in st.sources
    && (forall t :: t in st.sources[source].pending ==>
         forall i :: 0 <= i < |st.sources[source].pending[t].pieces| ==>
           PieceShifts(st.sources[source].pending[t].pieces[i], offset))
    && (forall t :: t in st.stores && TopicOfSource(st.registry, t, source) ==> StoreShifts(st.stores[t], offset))
  }

  predicate OffsetsValid(st: Ingestor, offsets: seq<(nat, int)>) {
    && (forall i, j :: 0 <= i < j < |offsets| ==> offsets[i].0 != offsets[j].0)
    && (forall i :: 0 <= i < |offsets| ==> Shiftable(st, offsets[i].0, offsets[i].1))
  }

  function OffsetsSet(r: Registry, offsets: seq<(nat, int)>): Registry {
    if offsets == [] then r
    else
      var n := |offsets| - 1;
      SetOffset(OffsetsSet(r, offsets[..n]), offsets[n].0, offsets[n].1).1
  }

  predicate AnyChange(r: Registry, offsets: seq<(nat, int)>) {
    offsets != [] &&
    var n := |offsets| - 1;
    AnyChange(r, offsets[..n]) ||
    (var before := SetOffset(OffsetsSet(r, offsets[..n]), offsets[n].0, offsets[n].1).0;
     before.Some? && before.value != offsets[n].1)
  }

  function SetMany(st: Ingestor, offsets: seq<(nat, int)>): Ingestor {
    if !OffsetsValid(st, offsets) then st
    else
      var st1 := st.(registry := OffsetsSet(st.registry, offsets));
      if AnyChange(st.registry, offsets) then Publish(st1) else st1
  }

  function Topics(source: nat, topics: seq<nat>): (r: seq<(nat, nat)>)
    ensures |r| == |topics| && forall i :: 0 <= i < |r| ==> r[i] == (source, topics[i])
  {
    seq(|topics|, i requires 0 <= i < |topics| => (source, topics[i]))
  }

  function Without(st: Ingestor, source: nat): Ingestor {
    var topics := set t | t in st.stores && TopicOfSource(st.registry, t, source);
    var maxima := set t | t in st.maxTs && TopicOfSource(st.registry, t, source);
    st.(registry := RemoveSource(st.registry, source), stores := st.stores - topics, maxTs := st.maxTs - maxima,
        sources := st.sources - {source})
  }

  function Remove(st: Ingestor, source: nat, seals: seq<nat>): Ingestor {
    var st1 := SealAll(st, Topics(source, seals));
    if !LiveSource(st1.registry, source) then st1 else Publish(Without(st1, source))
  }

  function Rename(st: Ingestor, source: nat, preferred: string): Ingestor {
    var (text, r) := Relabel(st.registry, source, preferred);
    if text.Some? then Publish(st.(registry := r)) else st
  }

  /** Messages. Whatever is flushed comes in the order of a hash map, or is what
      has aged: such lists are part of the message. */
  datatype Msg =
    | Barrier(seals: seq<(nat, nat)>)
    | Open(key: string, kind: SourceKind)
    | Data(batch: Batch)
    | Close(source: nat, topics: seq<nat>, hasMeta: bool)
    | Offset(source: nat, offsetUs: int)
    | Offsets(offsets: seq<(nat, int)>)
    | Drop(source: nat, topics: seq<nat>)
    | Name(source: nat, preferred: string)
    | Age(seals: seq<(nat, nat)>)

  function Processed(st: Ingestor, msg: Msg, order: Order): Ingestor {
    match msg
    case Barrier(seals) => Publish(SealAll(st, seals))
    case Open(key, kind) => OpenSource(st, key, kind).1
    case Data(batch) => AcceptBatch(st, batch, order)
    case Close(source, topics, hasMeta) =>
      var st1 := SealAll(st, Topics(source, topics));
      if hasMeta then Publish(st1) else st1
    case Offset(source, offset) => SetOne(st, source, offset)
    case Offsets(offsets) => SetMany(st, offsets)
    case Drop(source, topics) => Remove(st, source, topics)
    case Name(source, preferred) => Rename(st, source, preferred)
    case Age(seals) => SealAll(st, seals)
  }

  function AllProcessed(msgs: seq<Msg>, order: Order): Ingestor {
    if msgs == [] then INITIAL
    else Processed(AllProcessed(msgs[..|msgs| - 1], order), msgs[|msgs| - 1], order)
  }
}
