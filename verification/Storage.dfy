/** Immutable data of the store: chunks, topic stores and snapshots. */
module Storage {
  import opened Prelude

  datatype TimeRange = TimeRange(minUs: int, maxUs: int)

  function Union(a: TimeRange, b: TimeRange): TimeRange {
    TimeRange(if a.minUs < b.minUs then a.minUs else b.minUs, if a.maxUs > b.maxUs then a.maxUs else b.maxUs)
  }

  /** `i64::checked_add`. */
  function CheckedAdd(a: int, b: int): Option<int> {
    if I64_MIN <= a + b <= I64_MAX then Some(a + b) else None
  }

  function CheckedSub(a: int, b: int): Option<int> {
    if I64_MIN <= a - b <= I64_MAX then Some(a - b) else None
  }

  function Shifted(r: TimeRange, offset: int): Option<TimeRange> {
    var lo, hi := CheckedAdd(r.minUs, offset), CheckedAdd(r.maxUs, offset);
    if lo.Some? && hi.Some? then Some(TimeRange(lo.value, hi.value)) else None
  }

  datatype Cell = Null | NaN | Number(r: real) | Flag(b: bool) | Text(s: string)

  /** A cell as a float sample; flags count as 0 and 1. */
  function Sample(c: Cell): Num {
    match c
    case Number(r) => Val(r)
    case Flag(b) => Val(if b then 1.0 else 0.0)
    case _ => Gap
  }

  datatype Chunk = Chunk(t: seq<int>, cols: seq<seq<Cell>>, tMin: int, tMax: int)

  datatype FieldSchema = FieldSchema(name: string, isString: bool, units: Option<string>, multiplier: Num)

  datatype TopicSchema = TopicSchema(name: string, fields: seq<FieldSchema>)

  datatype TopicStore =
    TopicStore(schema: TopicSchema, chunks: seq<Chunk>, rows: nat, timeRange: Option<TimeRange>, monotonic: bool)

  datatype SourceEntry = SourceEntry(id: nat, sourceLabel: string, offsetUs: int, removed: bool)

  datatype TopicEntry = TopicEntry(id: nat, source: nat, name: string, removed: bool)

  datatype FieldEntry = FieldEntry(id: nat, topic: nat, name: string, removed: bool)

  datatype SourceSnapshot = SourceSnapshot(entry: SourceEntry, topics: seq<nat>)

  datatype TopicSnapshot = TopicSnapshot(entry: TopicEntry, store: Option<TopicStore>)

  datatype Snapshot =
    Snapshot(sources: seq<SourceSnapshot>, topics: seq<TopicSnapshot>, fields: seq<FieldEntry>,
             epoch: nat, globalRange: Option<TimeRange>)

  function SourceOf(s: Snapshot, id: nat): Option<SourceSnapshot> {
    if id < |s.sources| && s.sources[id].entry.id == id then Some(s.sources[id]) else None
  }

  function TopicOf(s: Snapshot, id: nat): Option<TopicSnapshot> {
    if id < |s.topics| && s.topics[id].entry.id == id then Some(s.topics[id]) else None
  }

  function FieldOf(s: Snapshot, id: nat): Option<FieldEntry> {
    if id < |s.fields| && s.fields[id].id == id then Some(s.fields[id]) else None
  }

  function FieldIndex(fields: seq<FieldSchema>, name: string): (i: nat)
    ensures i <= |fields|
    ensures i < |fields| ==> fields[i].name == name
  {
    if fields == [] then 0
    else if fields[0].name == name then 0
    else 1 + FieldIndex(fields[1..], name)
  }

  /** Where a field's samples are: the store, the column and the time offset. */
  datatype View = View(topic: nat, store: TopicStore, column: nat, offsetUs: int)

  function ViewOf(s: Snapshot, field: nat): (r: Option<View>)
    ensures r.Some? ==> r.value.column < |r.value.store.schema.fields|
  {
    var entry := FieldOf(s, field);
    if entry.None? then None
    else
      var topic := TopicOf(s, entry.value.topic);
      if topic.None? || topic.value.store.None? then None
      else
        var source := SourceOf(s, topic.value.entry.source);
        var store := topic.value.store.value;
        var column := FieldIndex(store.schema.fields, entry.value.name);
        if source.None? || column == |store.schema.fields| then None
        else Some(View(topic.value.entry.id, store, column, source.value.entry.offsetUs))
  }

  function Overlap(a: TimeRange, b: TimeRange): bool {
    a.minUs <= b.maxUs && b.minUs <= a.maxUs
  }

  predicate SortedTimes(t: seq<int>) {
    forall i, j :: 0 <= i < j < |t| ==> t[i] <= t[j]
  }

  /** What `Chunk::try_new` guarantees. */
  predicate ValidChunk(c: Chunk, columns: nat) {
    && c.t != [] && SortedTimes(c.t)
    && c.tMin == c.t[0] && c.tMax == c.t[|c.t| - 1]
    && |c.cols| == columns
    && forall k :: 0 <= k < |c.cols| ==> |c.cols[k]| == |c.t|
  }

  predicate ValidChunks(s: TopicStore) {
    forall k :: 0 <= k < |s.chunks| ==> ValidChunk(s.chunks[k], |s.schema.fields|)
  }
}
