/** Chunks and topic stores: what is checked when a chunk is made, and what a
    store keeps about its chunks. */
module Store {
  import opened Prelude
  import opened Storage

  // ----- Tables -----

  datatype Row = Row(t: int, cells: seq<Cell>)

  predicate Rectangular(n: nat, cols: seq<seq<Cell>>) {
    forall k :: 0 <= k < |cols| ==> |cols[k]| == n
  }

  function RowAt(t: seq<int>, cols: seq<seq<Cell>>, i: nat): (r: Row)
    requires Rectangular(|t|, cols) && i < |t|
  {
    Row(t[i], seq(|cols|, k requires 0 <= k < |cols| => cols[k][i]))
  }

  /** A table by rows. */
  function TableRows(t: seq<int>, cols: seq<seq<Cell>>): (r: seq<Row>)
    requires Rectangular(|t|, cols)
    ensures |r| == |t|
  {
    seq(|t|, i requires 0 <= i < |t| => RowAt(t, cols, i))
  }

  // ----- Chunks -----

  datatype ChunkError = EmptyChunk | Regression(index: nat) | ColumnCount | ColumnLength

  /** The first timestamp below the one before it, or the length. */
  function FirstRegression(t: seq<int>): (i: nat)
    ensures i <= |t|
    ensures i < |t| ==> i > 0 && t[i] < t[i - 1]
    ensures forall k :: 0 < k < i ==> t[k - 1] <= t[k]
  {
    if t == [] then 0
    else
      var n := |t| - 1;
      var before := FirstRegression(t[..n]);
      if before < n then before else if n > 0 && t[n] < t[n - 1] then n else n + 1
  }

  /** `Chunk::try_new`. */
  function NewChunk(t: seq<int>, cols: seq<seq<Cell>>, schema: TopicSchema): Result<Chunk, ChunkError> {
    if t == [] then Err(EmptyChunk)
    else if FirstRegression(t) < |t| then Err(Regression(FirstRegression(t)))
    else if |cols| != |schema.fields| then Err(ColumnCount)
    else if !Rectangular(|t|, cols) then Err(ColumnLength)
    else Ok(Chunk(t, cols, t[0], t[|t| - 1]))
  }

  lemma {:induction false} StepwiseSorted(t: seq<int>, i: nat, j: nat)
    requires i <= j < |t| && forall k :: 0 < k < |t| ==> t[k - 1] <= t[k]
    ensures t[i] <= t[j]
  {
    if i < j {
      StepwiseSorted(t, i, j - 1);
    }
  }

  /** A chunk is made exactly from a sorted table of the right shape. */
  lemma ChunksAreValid(t: seq<int>, cols: seq<seq<Cell>>, schema: TopicSchema)
    ensures NewChunk(t, cols, schema).Ok? <==>
              t != [] && SortedTimes(t) && |cols| == |schema.fields| && Rectangular(|t|, cols)
    ensures NewChunk(t, cols, schema).Ok? ==>
              var c := NewChunk(t, cols, schema).value;
              c.t == t && c.cols == cols && ValidChunk(c, |schema.fields|)
  {
    if FirstRegression(t) == |t| {
      forall i, j | 0 <= i < j < |t|
        ensures t[i] <= t[j]
      {
        StepwiseSorted(t, i, j);
      }
    } else {
      assert !SortedTimes(t);
    }
  }

  /** Of another table the first failing check is told, and for times out of order
      the first that is before its predecessor. */
  lemma RefusedChunks(t: seq<int>, cols: seq<seq<Cell>>, schema: TopicSchema)
    ensures NewChunk(t, cols, schema) == Err(EmptyChunk) <==> t == []
    ensures forall i: nat :: NewChunk(t, cols, schema) == Err(Regression(i)) <==>
              0 < i < |t| && t[i] < t[i - 1] && SortedTimes(t[..i])
    ensures NewChunk(t, cols, schema) == Err(ColumnCount) <==>
              t != [] && SortedTimes(t) && |cols| != |schema.fields|
  {
    ChunksAreValid(t, cols, schema);
    var k := FirstRegression(t);
    if k < |t| {
      forall i, j | 0 <= i < j < k
        ensures t[i] <= t[j]
      {
        assert forall l :: 0 < l < k ==> t[..k][l - 1] <= t[..k][l];
        StepwiseSorted(t[..k], i, j);
      }
    } else {
      assert SortedTimes(t) by {
        forall i, j | 0 <= i < j < |t|
          ensures t[i] <= t[j]
        {
          StepwiseSorted(t, i, j);
        }
      }
    }
    forall i | k < i < |t|
      ensures !SortedTimes(t[..i])
    {
      assert t[..i][k] < t[..i][k - 1];
    }
  }

  method ValidateTime(t: seq<int>) returns (error: Option<ChunkError>)
    ensures t == [] ==> error == Some(EmptyChunk)
    ensures t != [] ==> error == if FirstRegression(t) < |t| then Some(Regression(FirstRegression(t))) else None
  {
    if t == [] {
      return Some(EmptyChunk);
    }
    var previous: Option<int> := None;
    for i := 0 to |t|
      invariant FirstRegression(t[..i]) == i
      invariant previous == if i == 0 then None else Some(t[i - 1])
    {
      assert t[..i + 1][..i] == t[..i];
      if previous.Some? && t[i] < previous.value {
        FoundRegression(t, i);
        return Some(Regression(i));
      }
      previous := Some(t[i]);
    }
    assert t[..|t|] == t;
    error := None;
  }

  lemma {:induction false} FoundRegression(t: seq<int>, i: nat)
    requires 0 < i < |t| && FirstRegression(t[..i]) == i && t[i] < t[i - 1]
    ensures FirstRegression(t) == i
  {
    assert forall k :: 0 < k < i ==> t[..i][k - 1] <= t[..i][k];
    assert forall k :: 0 <= k < i ==> t[..i][k] == t[k];
  }

  // ----- Stores -----

  function NewStore(schema: TopicSchema): TopicStore {
    TopicStore(schema, [], 0, None, true)
  }

  function UnionWithChunk(range: Option<TimeRange>, c: Chunk): TimeRange {
    var own := TimeRange(c.tMin, c.tMax);
    if range.Some? then Union(range.value, own) else own
  }

  /** `None` when the chunk's columns do not fit the schema. */
  function AppendChunk(s: TopicStore, c: Chunk): Option<TopicStore> {
    if |c.cols| != |s.schema.fields| then None
    else
      Some(TopicStore(s.schema, s.chunks + [c], s.rows + |c.t|, Some(UnionWithChunk(s.timeRange, c)),
                      s.monotonic && (s.chunks == [] || s.chunks[|s.chunks| - 1].tMax <= c.tMin)))
  }

  function RowCount(chunks: seq<Chunk>): nat {
    if chunks == [] then 0 else RowCount(chunks[..|chunks| - 1]) + |chunks[|chunks| - 1].t|
  }

  /** Each chunk begins where the one before it ends, or later. */
  predicate InOrder(chunks: seq<Chunk>) {
    forall i :: 0 < i < |chunks| ==> chunks[i - 1].tMax <= chunks[i].tMin
  }

  /** The range is the hull of the chunks'. */
  ghost predicate IsHull(chunks: seq<Chunk>, range: Option<TimeRange>) {
    && (range.None? <==> chunks == [])
    && (range.Some? ==>
         && (forall i :: 0 <= i < |chunks| ==>
              range.value.minUs <= chunks[i].tMin && chunks[i].tMax <= range.value.maxUs)
         && (exists i :: 0 <= i < |chunks| && chunks[i].tMin == range.value.minUs)
         && (exists i :: 0 <= i < |chunks| && chunks[i].tMax == range.value.maxUs))
  }

  /** What a store says of its chunks is so. */
  ghost predicate Exact(s: TopicStore) {
    && s.rows == RowCount(s.chunks) && IsHull(s.chunks, s.timeRange)
    && (s.monotonic <==> InOrder(s.chunks)) && ValidChunks(s)
  }

  lemma NewStoreIsExact(schema: TopicSchema)
    ensures Exact(NewStore(schema))
  {
  }

  lemma {:induction false} AppendKeepsExact(s: TopicStore, c: Chunk)
    requires Exact(s) && ValidChunk(c, |s.schema.fields|)
    ensures AppendChunk(s, c).Some? && Exact(AppendChunk(s, c).value)
    ensures AppendChunk(s, c).value.chunks == s.chunks + [c] && AppendChunk(s, c).value.schema == s.schema
  {
    hide InOrder, IsHull, ValidChunk, UnionWithChunk, RowCount;
    CountGrows(s.chunks, c);
    OrderGrows(s.chunks, c);
    StartsFirst(c, |s.schema.fields|);
    HullGrows(s.chunks, s.timeRange, c);
  }

  lemma StartsFirst(c: Chunk, columns: nat)
    requires ValidChunk(c, columns)
    ensures c.tMin <= c.tMax && |c.cols| == columns
  {
  }

  lemma CountGrows(chunks: seq<Chunk>, c: Chunk)
    ensures RowCount(chunks + [c]) == RowCount(chunks) + |c.t|
  {
    assert (chunks + [c])[..|chunks|] == chunks;
  }

  lemma OrderGrows(chunks: seq<Chunk>, c: Chunk)
    ensures InOrder(chunks + [c]) <==> InOrder(chunks) && (chunks == [] || chunks[|chunks| - 1].tMax <= c.tMin)
  {
    var all := chunks + [c];
    if InOrder(all) {
      forall i | 0 < i < |chunks|
        ensures chunks[i - 1].tMax <= chunks[i].tMin
      {
        assert all[i - 1].tMax <= all[i].tMin;
      }
      if chunks != [] {
        assert all[|chunks| - 1].tMax <= all[|chunks|].tMin;
      }
    }
  }

  lemma HullGrows(chunks: seq<Chunk>, range: Option<TimeRange>, c: Chunk)
    requires IsHull(chunks, range) && c.tMin <= c.tMax
    ensures IsHull(chunks + [c], Some(UnionWithChunk(range, c)))
  {
    var all, hull := chunks + [c], UnionWithChunk(range, c);
    assert all[|chunks|] == c;
    if range.Some? {
      var i :| 0 <= i < |chunks| && chunks[i].tMin == range.value.minUs;
      var j :| 0 <= j < |chunks| && chunks[j].tMax == range.value.maxUs;
      assert all[i].tMin == range.value.minUs && all[j].tMax == range.value.maxUs;
    }
  }

  /** The chunks appended one by one. */
  function Appended(schema: TopicSchema, chunks: seq<Chunk>): Option<TopicStore> {
    if chunks == [] then Some(NewStore(schema))
    else
      var before := Appended(schema, chunks[..|chunks| - 1]);
      if before.None? then None else AppendChunk(before.value, chunks[|chunks| - 1])
  }

  lemma {:induction false} AppendedChunks(schema: TopicSchema, chunks: seq<Chunk>)
    requires Appended(schema, chunks).Some?
    ensures Appended(schema, chunks).value.chunks == chunks && Appended(schema, chunks).value.schema == schema
  {
    if chunks != [] {
      var n := |chunks| - 1;
      AppendedChunks(schema, chunks[..n]);
      assert chunks == chunks[..n] + [chunks[n]];
    }
  }

  lemma {:induction false} AppendedFails(schema: TopicSchema, chunks: seq<Chunk>, k: nat)
    requires k <= |chunks| && Appended(schema, chunks[..k]).None?
    ensures Appended(schema, chunks).None?
  {
    if k == |chunks| {
      assert chunks[..k] == chunks;
    } else {
      assert chunks[..|chunks| - 1][..k] == chunks[..k];
      AppendedFails(schema, chunks[..|chunks| - 1], k);
    }
  }

  lemma OneMoreChunk(schema: TopicSchema, chunks: seq<Chunk>, k: nat)
    requires k < |chunks| && Appended(schema, chunks[..k]).Some?
    ensures chunks[..k + 1] == chunks[..k] + [chunks[k]]
    ensures Appended(schema, chunks[..k + 1]) == AppendChunk(Appended(schema, chunks[..k]).value, chunks[k])
    ensures Appended(schema, chunks[..k]).value.chunks == chunks[..k]
  {
    assert chunks[..k + 1][..k] == chunks[..k];
    AppendedChunks(schema, chunks[..k]);
  }

  /** Building a store from chunks at once is appending them one by one. */
  method FromChunks(schema: TopicSchema, chunks: seq<Chunk>) returns (r: Option<TopicStore>)
    ensures r == Appended(schema, chunks)
  {
    var rows: nat := 0;
    var range: Option<TimeRange> := None;
    var monotonic := true;
    var lastMax: Option<int> := None;
    for k := 0 to |chunks|
      invariant Appended(schema, chunks[..k]) == Some(TopicStore(schema, chunks[..k], rows, range, monotonic))
      invariant lastMax == if k == 0 then None else Some(chunks[k - 1].tMax)
    {
      OneMoreChunk(schema, chunks, k);
      var c := chunks[k];
      if |c.cols| != |schema.fields| {
        AppendedFails(schema, chunks, k + 1);
        return None;
      }
      rows := rows + |c.t|;
      if lastMax.Some? && c.tMin < lastMax.value {
        monotonic := false;
      }
      lastMax := Some(c.tMax);
      range := Some(UnionWithChunk(range, c));
    }
    assert chunks[..|chunks|] == chunks;
    r := Some(TopicStore(schema, chunks, rows, range, monotonic));
  }

  /** However a store came to be from valid chunks, what it says is so. */
  lemma {:induction false} AppendedIsExact(schema: TopicSchema, chunks: seq<Chunk>)
    requires forall k :: 0 <= k < |chunks| ==> ValidChunk(chunks[k], |schema.fields|)
    ensures Appended(schema, chunks).Some? && Exact(Appended(schema, chunks).value)
  {
    if chunks == [] {
      NewStoreIsExact(schema);
    } else {
      AppendedIsExact(schema, chunks[..|chunks| - 1]);
      AppendedChunks(schema, chunks[..|chunks| - 1]);
      AppendKeepsExact(Appended(schema, chunks[..|chunks| - 1]).value, chunks[|chunks| - 1]);
    }
  }
}
