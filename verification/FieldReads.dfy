/** Reading a field for an evaluation: skipping chunks outside the window loses
    no sample, and sorting afterwards only puts the samples in order. */
module FieldReads {
  import opened Prelude
  import opened Storage
  import opened Evaluator
  import Store
  import Snapshots
  import Timelines

  // ----- What is to be read -----

  predicate Within(window: Option<TimeRange>, time: int) {
    window.Some? ==> window.value.minUs <= time <= window.value.maxUs
  }

  /** What values are multiplied by, and how. */
  datatype Scale = Scale(arith: Arithmetic, multiplier: Num)

  /** The number in a cell: flags count as 1 and 0; nulls, NaN, text and cells
      that are not there count as gaps. */
  function NumberAt(c: Chunk, i: nat, column: nat): Num {
    if column >= |c.cols| || i >= |c.cols[column]| then Gap
    else
      match c.cols[column][i]
      case Number(r) => Val(r)
      case Flag(true) => Val(1.0)
      case Flag(false) => Val(0.0)
      case _ => Gap
  }

  function SampleRow(c: Chunk, i: nat, column: nat, offset: int, scale: Scale): Row
    requires i < |c.t|
  {
    (c.t[i] + offset, scale.arith.multiply(NumberAt(c, i, column), scale.multiplier))
  }

  /** The samples of the first `n` rows of a chunk that lie in the window. */
  function WantedInChunk(c: Chunk, n: nat, column: nat, offset: int, window: Option<TimeRange>, scale: Scale)
    : seq<Row>
    requires n <= |c.t|
  {
    if n == 0 then []
    else
      var before := WantedInChunk(c, n - 1, column, offset, window, scale);
      if Within(window, c.t[n - 1] + offset) then before + [SampleRow(c, n - 1, column, offset, scale)] else before
  }

  /** The samples of all chunks that lie in the window. */
  function Wanted(chunks: seq<Chunk>, column: nat, offset: int, window: Option<TimeRange>, scale: Scale)
    : seq<Row>
  {
    if chunks == [] then []
    else
      var n := |chunks| - 1;
      Wanted(chunks[..n], column, offset, window, scale)
      + WantedInChunk(chunks[n], |chunks[n].t|, column, offset, window, scale)
  }

  // ----- What is read -----

  lemma {:induction false} ChunkIsRead(c: Chunk, n: nat, column: nat, offset: int, window: Option<TimeRange>,
                                       scale: Scale)
    requires n <= |c.t|
    ensures var rows := ChunkRows(c, n, column, offset, window, Scaled(scale.arith, scale.multiplier));
            && (rows.Some? <==> forall i :: 0 <= i < n ==> CheckedAdd(c.t[i], offset).Some?)
            && (rows.Some? ==> rows.value == WantedInChunk(c, n, column, offset, window, scale))
  {
    if n > 0 {
      ChunkIsRead(c, n - 1, column, offset, window, scale);
    }
  }

  /** The range can be taken back to the times of the store. */
  predicate TakesBack(range: TimeRange, offset: int) {
    CheckedSub(range.minUs, offset).Some? && CheckedSub(range.maxUs, offset).Some?
  }

  predicate IsRead(c: Chunk, range: TimeRange, offset: int) {
    Overlap(TimeRange(range.minUs - offset, range.maxUs - offset), TimeRange(c.tMin, c.tMax))
  }

  lemma {:induction false} SkippedChunk(c: Chunk, n: nat, columns: nat, window: TimeRange, column: nat, offset: int,
                                        scale: Scale)
    requires ValidChunk(c, columns) && !IsRead(c, window, offset) && n <= |c.t|
    ensures WantedInChunk(c, n, column, offset, Some(window), scale) == []
  {
    if n > 0 {
      SkippedChunk(c, n - 1, columns, window, column, offset, scale);
      assert c.t[0] <= c.t[n - 1] <= c.t[|c.t| - 1];
    }
  }

  predicate AllFit(chunks: seq<Chunk>, range: TimeRange, offset: int) {
    forall k, i :: 0 <= k < |chunks| && IsRead(chunks[k], range, offset) && 0 <= i < |chunks[k].t| ==>
      CheckedAdd(chunks[k].t[i], offset).Some?
  }

  lemma AllFitSplits(chunks: seq<Chunk>, range: TimeRange, offset: int)
    requires chunks != []
    ensures var n := |chunks| - 1;
            AllFit(chunks, range, offset) <==>
              AllFit(chunks[..n], range, offset)
              && (IsRead(chunks[n], range, offset) ==> forall i :: 0 <= i < |chunks[n].t| ==>
                   CheckedAdd(chunks[n].t[i], offset).Some?)
  {
    var n := |chunks| - 1;
    assert forall k :: 0 <= k < n ==> chunks[..n][k] == chunks[k];
  }

  /** Chunks are skipped without loss: in a window, because they have nothing
      in it; without one, if none is skipped. */
  lemma {:induction false} StoreIsRead(chunks: seq<Chunk>, columns: nat, range: TimeRange, window: Option<TimeRange>,
                                       column: nat, offset: int, scale: Scale)
    requires forall k :: 0 <= k < |chunks| ==> ValidChunk(chunks[k], columns)
    requires TakesBack(range, offset)
    requires window == Some(range) || forall k :: 0 <= k < |chunks| ==> IsRead(chunks[k], range, offset)
    ensures var rows := StoreRows(chunks, range, column, offset, window, Scaled(scale.arith, scale.multiplier));
            && (rows.Some? <==> AllFit(chunks, range, offset))
            && (rows.Some? ==> rows.value == Wanted(chunks, column, offset, window, scale))
  {
    hide ValidChunk, AllFit;
    if chunks == [] {
      NothingToFit(range, offset);
    } else {
      var n := |chunks| - 1;
      StoreIsRead(chunks[..n], columns, range, window, column, offset, scale);
      AllFitSplits(chunks, range, offset);
      ChunkIsRead(chunks[n], |chunks[n].t|, column, offset, window, scale);
      if !IsRead(chunks[n], range, offset) {
        SkippedChunk(chunks[n], |chunks[n].t|, columns, range, column, offset, scale);
      }
    }
  }

  lemma NothingToFit(range: TimeRange, offset: int)
    ensures AllFit([], range, offset)
  {
  }

  lemma {:induction false} NothingIsRead(chunks: seq<Chunk>, range: TimeRange, window: Option<TimeRange>, column: nat,
                                         offset: int, scale: Scale)
    requires !TakesBack(range, offset)
    ensures StoreRows(chunks, range, column, offset, window, Scaled(scale.arith, scale.multiplier)) == Some([])
  {
    if chunks != [] {
      NothingIsRead(chunks[..|chunks| - 1], range, window, column, offset, scale);
    }
  }

  // ----- Fields -----

  lemma SortedOrNot(rows: seq<Row>)
    ensures var r := if SortedTimes(Times(rows)) then rows else SortedRows(rows);
            SortedTimes(Times(r)) && multiset(r) == multiset(rows)
  {
    Timelines.SortingSorts(rows);
  }

  lemma SameSamples(a: seq<Row>, b: seq<Row>)
    requires multiset(a) == multiset(b)
    ensures a == [] <==> b == []
  {
    assert |a| == |multiset(a)| && |b| == |multiset(b)|;
  }

  /** In a window a read gives exactly the samples in it, in order of time, if
      and only if the window can be taken back to the times of the store or
      nothing lies in it. It fails only if a time of a chunk that overlaps the
      window overflows. */
  lemma WindowIsRead(snap: Snapshot, field: nat, multiplier: Num, window: TimeRange, arith: Arithmetic)
    requires ViewOf(snap, field).Some? && ValidChunks(ViewOf(snap, field).value.store)
    ensures var v := ViewOf(snap, field).value;
            var rows := ReadField(snap, field, multiplier, Some(window), arith);
            var wanted := Wanted(v.store.chunks, v.column, v.offsetUs, Some(window), Scale(arith, multiplier));
            && (rows.None? <==> TakesBack(window, v.offsetUs) && !AllFit(v.store.chunks, window, v.offsetUs))
            && (rows.Some? ==> SortedTimes(Times(rows.value)))
            && (rows.Some? ==> (multiset(rows.value) == multiset(wanted)
                 <==> TakesBack(window, v.offsetUs) || wanted == []))
  {
    hide Wanted, StoreRows, ValidChunk, AllFit, Scaled;
    var v := ViewOf(snap, field).value;
    var scale := Scale(arith, multiplier);
    var wanted := Wanted(v.store.chunks, v.column, v.offsetUs, Some(window), scale);
    if TakesBack(window, v.offsetUs) {
      StoreIsRead(v.store.chunks, |v.store.schema.fields|, window, Some(window), v.column, v.offsetUs, scale);
      SortedOrNot(wanted);
    } else {
      NothingIsRead(v.store.chunks, window, Some(window), v.column, v.offsetUs, scale);
      if multiset(wanted) == multiset([]) {
        SameSamples(wanted, []);
      }
    }
  }

  // ----- Without a window -----

  /** The field's topic, as readers find it. */
  ghost predicate Readable(snap: Snapshot, field: nat) {
    && snap.globalRange == Snapshots.GlobalRange(snap) && snap.globalRange.Some?
    && ViewOf(snap, field).Some? && Store.Exact(ViewOf(snap, field).value.store)
  }

  /** The global range reaches every chunk of every field. */
  lemma RangeReachesChunks(snap: Snapshot, field: nat)
    requires Readable(snap, field)
    ensures var v := ViewOf(snap, field).value;
            && (forall k :: 0 <= k < |v.store.chunks| ==> IsRead(v.store.chunks[k], snap.globalRange.value, v.offsetUs))
            && AllFit(v.store.chunks, snap.globalRange.value, v.offsetUs)
  {
    hide Snapshots.RangeUpTo, Store.InOrder, Store.RowCount;
    var v, range := ViewOf(snap, field).value, snap.globalRange.value;
    Snapshots.RangeIsHull(snap, |snap.topics|);
    var hull := Snapshots.EffectiveRange(snap, v.topic);
    forall k | 0 <= k < |v.store.chunks|
      ensures IsRead(v.store.chunks[k], range, v.offsetUs)
      ensures forall i :: 0 <= i < |v.store.chunks[k].t| ==> CheckedAdd(v.store.chunks[k].t[i], v.offsetUs).Some?
    {
      var c := v.store.chunks[k];
      assert v.store.timeRange.Some? && hull.Range? && hull.hull.Some?;
      assert hull.hull.value.minUs <= c.tMin + v.offsetUs && c.tMax + v.offsetUs <= hull.hull.value.maxUs;
      assert ValidChunk(c, |v.store.schema.fields|);
    }
  }

  /** Without a window a read gives every sample of the field, in order of time,
      if and only if the global range can be taken back to the times of the
      store or the field has no rows. */
  lemma EverythingIsRead(snap: Snapshot, field: nat, multiplier: Num, arith: Arithmetic)
    requires Readable(snap, field)
    ensures var v := ViewOf(snap, field).value;
            var rows := ReadField(snap, field, multiplier, None, arith);
            var all := Wanted(v.store.chunks, v.column, v.offsetUs, None, Scale(arith, multiplier));
            && rows.Some? && SortedTimes(Times(rows.value))
            && (multiset(rows.value) == multiset(all) <==> TakesBack(snap.globalRange.value, v.offsetUs) || all == [])
  {
    hide Wanted, StoreRows, ValidChunk, AllFit, Scaled, IsRead;
    var v, range := ViewOf(snap, field).value, snap.globalRange.value;
    var scale := Scale(arith, multiplier);
    var all := Wanted(v.store.chunks, v.column, v.offsetUs, None, scale);
    RangeReachesChunks(snap, field);
    if TakesBack(range, v.offsetUs) {
      StoreIsRead(v.store.chunks, |v.store.schema.fields|, range, None, v.column, v.offsetUs, scale);
      SortedOrNot(all);
    } else {
      NothingIsRead(v.store.chunks, range, None, v.column, v.offsetUs, scale);
      if multiset(all) == multiset([]) {
        SameSamples(all, []);
      }
    }
  }
}
