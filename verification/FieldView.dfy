/** Looking up the sample before or after a time: by binary search in a
    monotonic store, by a scan of all chunks otherwise. */
module FieldView {
  import opened Prelude
  import opened Storage
  import opened Store

  const VALUED_SCAN: nat := 65536

  /** A cell that is a sample of its field. */
  predicate Valued(c: Cell) {
    !c.Null? && !c.NaN?
  }

  type Timed = (int, Cell)

  datatype Sample = Sample(rawUs: int, effectiveUs: int, cell: Cell)

  // ----- All rows of a column -----

  function CellAt(c: Chunk, column: nat, row: nat): Cell {
    if column < |c.cols| && row < |c.cols[column]| then c.cols[column][row] else Null
  }

  function ColumnRows(c: Chunk, column: nat): (r: seq<Timed>)
    ensures |r| == |c.t|
  {
    seq(|c.t|, i requires 0 <= i < |c.t| => (c.t[i], CellAt(c, column, i)))
  }

  function Flat(chunks: seq<Chunk>, column: nat): seq<Timed> {
    if chunks == [] then [] else Flat(chunks[..|chunks| - 1], column) + ColumnRows(chunks[|chunks| - 1], column)
  }

  /** The position of chunk `idx`'s first row. */
  function Base(chunks: seq<Chunk>, idx: nat): nat
    requires idx <= |chunks|
  {
    if idx == 0 then 0 else Base(chunks, idx - 1) + |chunks[idx - 1].t|
  }

  lemma {:induction false} BaseIsLength(chunks: seq<Chunk>, column: nat, idx: nat)
    requires idx <= |chunks|
    ensures Base(chunks, idx) == |Flat(chunks[..idx], column)|
  {
    if idx > 0 {
      BaseIsLength(chunks, column, idx - 1);
      assert chunks[..idx][..idx - 1] == chunks[..idx - 1];
    }
  }

  lemma {:induction false} FlatAt(chunks: seq<Chunk>, column: nat, idx: nat, row: nat)
    requires idx < |chunks| && row < |chunks[idx].t|
    ensures Base(chunks, idx) + row < |Flat(chunks, column)|
    ensures Flat(chunks, column)[Base(chunks, idx) + row] == (chunks[idx].t[row], CellAt(chunks[idx], column, row))
  {
    var n := |chunks| - 1;
    BaseIsLength(chunks, column, idx);
    if idx == n {
      assert chunks[..idx] == chunks[..n];
    } else {
      FlatAt(chunks[..n], column, idx, row);
      SameBase(chunks, n, idx);
    }
  }

  /** The rows are those of the chunks in turn, each with the cell in its column. */
  lemma RowsAreCells(chunks: seq<Chunk>, column: nat, idx: nat, row: nat)
    requires idx < |chunks| && row < |chunks[idx].t|
    requires column < |chunks[idx].cols| && row < |chunks[idx].cols[column]|
    ensures var at := |Flat(chunks[..idx], column)| + row;
            && at < |Flat(chunks, column)|
            && Flat(chunks, column)[at] == (chunks[idx].t[row], chunks[idx].cols[column][row])
  {
    BaseIsLength(chunks, column, idx);
    FlatAt(chunks, column, idx, row);
  }

  lemma {:induction false} SameBase(chunks: seq<Chunk>, n: nat, idx: nat)
    requires idx <= n <= |chunks|
    ensures Base(chunks[..n], idx) == Base(chunks, idx)
  {
    if idx > 0 {
      SameBase(chunks, n, idx - 1);
    }
  }

  lemma {:induction false} BaseGrows(chunks: seq<Chunk>, a: nat, b: nat)
    requires a <= b <= |chunks|
    ensures Base(chunks, a) <= Base(chunks, b)
    ensures a < b ==> Base(chunks, a) + |chunks[a].t| <= Base(chunks, b)
  {
    if a < b {
      BaseGrows(chunks, a, b - 1);
    }
  }

  /** Every position is a row of some chunk. */
  lemma {:induction false} RowOf(chunks: seq<Chunk>, column: nat, n: nat, pos: nat) returns (idx: nat, row: nat)
    requires n <= |chunks| && pos < Base(chunks, n)
    ensures idx < n && row < |chunks[idx].t| && Base(chunks, idx) + row == pos
  {
    if pos >= Base(chunks, n - 1) {
      idx, row := n - 1, pos - Base(chunks, n - 1);
    } else {
      idx, row := RowOf(chunks, column, n - 1, pos);
    }
  }

  lemma TotalLength(chunks: seq<Chunk>, column: nat)
    ensures |Flat(chunks, column)| == Base(chunks, |chunks|)
  {
    BaseIsLength(chunks, column, |chunks|);
    assert chunks[..|chunks|] == chunks;
  }

  // ----- The reference -----

  /** The last position up to `k` with a value. */
  function LastWith(rows: seq<Timed>, k: nat): (r: Option<nat>)
    requires k < |rows|
    ensures r.Some? ==> r.value <= k && Valued(rows[r.value].1) && forall j :: r.value < j <= k ==> !Valued(rows[j].1)
    ensures r.None? ==> forall j :: 0 <= j <= k ==> !Valued(rows[j].1)
  {
    if Valued(rows[k].1) then Some(k) else if k == 0 then None else LastWith(rows, k - 1)
  }

  /** The first position from `k` on with a value. */
  function FirstWith(rows: seq<Timed>, k: nat): (r: Option<nat>)
    ensures r.Some? ==> k <= r.value < |rows| && Valued(rows[r.value].1)
                        && forall j :: k <= j < r.value ==> !Valued(rows[j].1)
    ensures r.None? ==> forall j :: k <= j < |rows| ==> !Valued(rows[j].1)
    decreases |rows| - k
  {
    if k >= |rows| then None else if Valued(rows[k].1) then Some(k) else FirstWith(rows, k + 1)
  }

  function SampleOf(row: Timed, offset: int): Option<Sample> {
    var effective := CheckedAdd(row.0, offset);
    if effective.None? then None else Some(Sample(row.0, effective.value, row.1))
  }

  /** A row with a value and an effective time. */
  predicate Usable(row: Timed, offset: int) {
    row.1 != Null && row.1 != NaN && I64_MIN <= row.0 + offset <= I64_MAX
  }

  /** The sample is that row's, with its time moved by the offset. */
  predicate IsRow(row: Timed, offset: int, s: Sample) {
    s == Sample(row.0, row.0 + offset, row.1)
  }

  /** The raw time of some effective time, as lookups are asked for. */
  predicate Asked(raw: int, offset: int) {
    I64_MIN <= raw + offset <= I64_MAX
  }

  /** The sample is one of the usable rows, and none of them is later, up to
      the time asked for. */
  ghost predicate IsLatest(rows: seq<Timed>, offset: int, raw: int, r: Option<Sample>) {
    && (r.None? ==> forall j :: 0 <= j < |rows| && Usable(rows[j], offset) ==> rows[j].0 > raw)
    && (r.Some? ==>
         && (exists j :: 0 <= j < |rows| && Usable(rows[j], offset) && IsRow(rows[j], offset, r.value))
         && r.value.rawUs <= raw
         && forall j :: 0 <= j < |rows| && Usable(rows[j], offset) && rows[j].0 <= raw ==> rows[j].0 <= r.value.rawUs)
  }

  ghost predicate IsEarliest(rows: seq<Timed>, offset: int, raw: int, r: Option<Sample>) {
    && (r.None? ==> forall j :: 0 <= j < |rows| && Usable(rows[j], offset) ==> rows[j].0 < raw)
    && (r.Some? ==>
         && (exists j :: 0 <= j < |rows| && Usable(rows[j], offset) && IsRow(rows[j], offset, r.value))
         && r.value.rawUs >= raw
         && forall j :: 0 <= j < |rows| && Usable(rows[j], offset) && rows[j].0 >= raw ==> rows[j].0 >= r.value.rawUs)
  }

  /** If the effective time of a row up to the time asked for overflows, so do
      those of all rows before it. */
  lemma OverflowBefore(rows: seq<Timed>, offset: int, raw: int, i: nat)
    requires TimesSorted(rows) && Asked(raw, offset) && i < |rows| && rows[i].0 <= raw
    requires SampleOf(rows[i], offset).None?
    ensures forall j :: 0 <= j <= i ==> !Usable(rows[j], offset)
  {
    assert forall j :: 0 <= j <= i ==> rows[j].0 <= rows[i].0;
  }

  /** And of a row from the time on, all rows after it. */
  lemma OverflowAfter(rows: seq<Timed>, offset: int, raw: int, i: nat)
    requires TimesSorted(rows) && Asked(raw, offset) && i < |rows| && rows[i].0 >= raw
    requires SampleOf(rows[i], offset).None?
    ensures forall j :: i <= j < |rows| ==> !Usable(rows[j], offset)
  {
    assert forall j :: i <= j < |rows| ==> rows[i].0 <= rows[j].0;
  }

  predicate TimesSorted(rows: seq<Timed>) {
    forall i, j :: 0 <= i < j < |rows| ==> rows[i].0 <= rows[j].0
  }

  lemma {:induction false} MonotonicIsSorted(chunks: seq<Chunk>, column: nat, columns: nat)
    requires InOrder(chunks) && forall k :: 0 <= k < |chunks| ==> ValidChunk(chunks[k], columns)
    ensures TimesSorted(Flat(chunks, column))
    ensures chunks != [] ==>
              var rows := Flat(chunks, column);
              rows != [] && rows[|rows| - 1].0 == chunks[|chunks| - 1].tMax
  {
    if chunks != [] {
      var n := |chunks| - 1;
      assert InOrder(chunks[..n]);
      MonotonicIsSorted(chunks[..n], column, columns);
      SortedAppend(Flat(chunks[..n], column), ColumnRows(chunks[n], column));
    }
  }

  lemma SortedAppend(a: seq<Timed>, b: seq<Timed>)
    requires TimesSorted(a) && TimesSorted(b) && (a != [] && b != [] ==> a[|a| - 1].0 <= b[0].0)
    ensures TimesSorted(a + b)
  {
    forall i, j | 0 <= i < j < |a + b|
      ensures (a + b)[i].0 <= (a + b)[j].0
    {
      if i < |a| <= j {
        assert a[i].0 <= a[|a| - 1].0 && b[0].0 <= b[j - |a|].0;
      }
    }
  }

  // ----- Samples of one time -----

  /** Row `i` of the chunk is its last usable one up to the time. */
  ghost predicate LastUpTo(rows: seq<Timed>, offset: int, raw: int, s: Sample, i: nat) {
    && i < |rows| && Usable(rows[i], offset) && IsRow(rows[i], offset, s) && rows[i].0 <= raw
    && forall j :: i < j < |rows| && Usable(rows[j], offset) ==> rows[j].0 > raw
  }

  ghost predicate FirstFrom(rows: seq<Timed>, offset: int, raw: int, s: Sample, i: nat) {
    && i < |rows| && Usable(rows[i], offset) && IsRow(rows[i], offset, s) && rows[i].0 >= raw
    && forall j :: 0 <= j < i && Usable(rows[j], offset) ==> rows[j].0 < raw
  }

  /** Of several latest samples a scan takes the last one of the first chunk that
      has one. */
  ghost predicate TakesLast(chunks: seq<Chunk>, column: nat, offset: int, raw: int, r: Option<Sample>) {
    r.Some? ==>
      exists k, i: nat ::
        && 0 <= k < |chunks| && LastUpTo(ColumnRows(chunks[k], column), offset, raw, r.value, i)
        && forall l :: 0 <= l < k ==> AllBefore(ColumnRows(chunks[l], column), offset, raw, r.value.rawUs)
  }

  ghost predicate AllBefore(rows: seq<Timed>, offset: int, raw: int, t: int) {
    forall j :: 0 <= j < |rows| && Usable(rows[j], offset) && rows[j].0 <= raw ==> rows[j].0 < t
  }

  /** And of several earliest ones the first of the first chunk that has one. */
  ghost predicate TakesFirst(chunks: seq<Chunk>, column: nat, offset: int, raw: int, r: Option<Sample>) {
    r.Some? ==>
      exists k, i: nat ::
        && 0 <= k < |chunks| && FirstFrom(ColumnRows(chunks[k], column), offset, raw, r.value, i)
        && forall l :: 0 <= l < k ==> AllAfter(ColumnRows(chunks[l], column), offset, raw, r.value.rawUs)
  }

  ghost predicate AllAfter(rows: seq<Timed>, offset: int, raw: int, t: int) {
    forall j :: 0 <= j < |rows| && Usable(rows[j], offset) && rows[j].0 >= raw ==> rows[j].0 > t
  }

  /** A row of a chunk is one of all rows. */
  lemma RowAmongAll(chunks: seq<Chunk>, column: nat, k: nat, j: nat)
    requires k < |chunks| && j < |chunks[k].t|
    ensures exists p: nat :: p < |Flat(chunks, column)| && Flat(chunks, column)[p] == ColumnRows(chunks[k], column)[j]
  {
    FlatAt(chunks, column, k, j);
  }

  lemma TakesLastOneMore(chunks: seq<Chunk>, column: nat, offset: int, raw: int, k: nat, best: Option<Sample>,
                         r: Option<Sample>)
    requires k < |chunks| && IsLatest(Flat(chunks[..k], column), offset, raw, best)
    requires TakesLast(chunks[..k], column, offset, raw, best)
    requires r == best ||
      (r.Some? && (best.Some? ==> best.value.rawUs < r.value.rawUs)
       && exists i: nat :: LastUpTo(ColumnRows(chunks[k], column), offset, raw, r.value, i))
    ensures TakesLast(chunks[..k + 1], column, offset, raw, r)
  {
    hide LastUpTo, Usable, IsRow;
    var next := chunks[..k + 1];
    if r == best {
      if r.Some? {
        var l, i: nat :|
          && 0 <= l < |chunks[..k]| && LastUpTo(ColumnRows(chunks[..k][l], column), offset, raw, r.value, i)
          && forall m :: 0 <= m < l ==> AllBefore(ColumnRows(chunks[..k][m], column), offset, raw, r.value.rawUs);
        assert next[l] == chunks[..k][l];
        forall m | 0 <= m < l
          ensures AllBefore(ColumnRows(next[m], column), offset, raw, r.value.rawUs)
        {
          assert next[m] == chunks[..k][m];
        }
      }
    } else {
      forall l | 0 <= l < k
        ensures AllBefore(ColumnRows(next[l], column), offset, raw, r.value.rawUs)
      {
        assert next[l] == chunks[..k][l];
        forall j | 0 <= j < |chunks[l].t| && Usable(ColumnRows(chunks[l], column)[j], offset)
                   && ColumnRows(chunks[l], column)[j].0 <= raw
          ensures ColumnRows(chunks[l], column)[j].0 < r.value.rawUs
        {
          RowAmongAll(chunks[..k], column, l, j);
        }
      }
      assert next[k] == chunks[k];
    }
  }

  lemma TakesFirstOneMore(chunks: seq<Chunk>, column: nat, offset: int, raw: int, k: nat, best: Option<Sample>,
                          r: Option<Sample>)
    requires k < |chunks| && IsEarliest(Flat(chunks[..k], column), offset, raw, best)
    requires TakesFirst(chunks[..k], column, offset, raw, best)
    requires r == best ||
      (r.Some? && (best.Some? ==> best.value.rawUs > r.value.rawUs)
       && exists i: nat :: FirstFrom(ColumnRows(chunks[k], column), offset, raw, r.value, i))
    ensures TakesFirst(chunks[..k + 1], column, offset, raw, r)
  {
    hide FirstFrom, Usable, IsRow;
    var next := chunks[..k + 1];
    if r == best {
      if r.Some? {
        var l, i: nat :|
          && 0 <= l < |chunks[..k]| && FirstFrom(ColumnRows(chunks[..k][l], column), offset, raw, r.value, i)
          && forall m :: 0 <= m < l ==> AllAfter(ColumnRows(chunks[..k][m], column), offset, raw, r.value.rawUs);
        assert next[l] == chunks[..k][l];
        forall m | 0 <= m < l
          ensures AllAfter(ColumnRows(next[m], column), offset, raw, r.value.rawUs)
        {
          assert next[m] == chunks[..k][m];
        }
      }
    } else {
      forall l | 0 <= l < k
        ensures AllAfter(ColumnRows(next[l], column), offset, raw, r.value.rawUs)
      {
        assert next[l] == chunks[..k][l];
        forall j | 0 <= j < |chunks[l].t| && Usable(ColumnRows(chunks[l], column)[j], offset)
                   && ColumnRows(chunks[l], column)[j].0 >= raw
          ensures ColumnRows(chunks[l], column)[j].0 > r.value.rawUs
        {
          RowAmongAll(chunks[..k], column, l, j);
        }
      }
      assert next[k] == chunks[k];
    }
  }

  // ----- Searches in a chunk -----

  /** The first row at or after `query`. */
  method LowerBound(t: seq<int>, query: int) returns (r: nat)
    requires SortedTimes(t)
    ensures r <= |t| && (forall i :: 0 <= i < r ==> t[i] < query) && forall i :: r <= i < |t| ==> t[i] >= query
  {
    var left, right := 0, |t|;
    while left < right
      invariant 0 <= left <= right <= |t|
      invariant forall i :: 0 <= i < left ==> t[i] < query
      invariant forall i :: right <= i < |t| ==> t[i] >= query
    {
      var mid := left + (right - left) / 2;
      if t[mid] < query {
        left := mid + 1;
      } else {
        right := mid;
      }
    }
    r := left;
  }

  /** The first row after `query`. */
  method UpperBound(t: seq<int>, query: int) returns (r: nat)
    requires SortedTimes(t)
    ensures r <= |t| && (forall i :: 0 <= i < r ==> t[i] <= query) && forall i :: r <= i < |t| ==> t[i] > query
  {
    var left, right := 0, |t|;
    while left < right
      invariant 0 <= left <= right <= |t|
      invariant forall i :: 0 <= i < left ==> t[i] <= query
      invariant forall i :: right <= i < |t| ==> t[i] > query
    {
      var mid := left + (right - left) / 2;
      if t[mid] <= query {
        left := mid + 1;
      } else {
        right := mid;
      }
    }
    r := left;
  }

  // ----- The walks -----

  /** What the bounded walk back from `k` finds. */
  function WalkedBack(rows: seq<Timed>, k: nat, offset: int): Option<Sample>
    requires k < |rows|
  {
    var j := LastWith(rows, k);
    if j.None? || k - j.value >= VALUED_SCAN then None else SampleOf(rows[j.value], offset)
  }

  lemma OneLast(rows: seq<Timed>, k: nat, r: Option<nat>)
    requires k < |rows|
    requires r.Some? ==> r.value <= k && Valued(rows[r.value].1) && forall j :: r.value < j <= k ==> !Valued(rows[j].1)
    requires r.None? ==> forall j :: 0 <= j <= k ==> !Valued(rows[j].1)
    ensures r == LastWith(rows, k)
  {
  }

  lemma OneFirst(rows: seq<Timed>, k: nat, r: Option<nat>)
    requires r.Some? ==> k <= r.value < |rows| && Valued(rows[r.value].1)
                         && forall j :: k <= j < r.value ==> !Valued(rows[j].1)
    requires r.None? ==> forall j :: k <= j < |rows| ==> !Valued(rows[j].1)
    ensures r == FirstWith(rows, k)
  {
  }

  predicate NoneEmpty(chunks: seq<Chunk>) {
    forall k :: 0 <= k < |chunks| ==> chunks[k].t != []
  }

  method PrevValuedFrom(v: View, idx: nat, row: nat) returns (r: Option<Sample>)
    requires NoneEmpty(v.store.chunks) && idx < |v.store.chunks| && row < |v.store.chunks[idx].t|
    ensures var k := Base(v.store.chunks, idx) + row;
            k < |Flat(v.store.chunks, v.column)| && r == WalkedBack(Flat(v.store.chunks, v.column), k, v.offsetUs)
  {
    var chunks := v.store.chunks;
    ghost var rows, k := Flat(chunks, v.column), Base(chunks, idx) + row;
    FlatAt(chunks, v.column, idx, row);
    var i: nat, j: nat := idx, row;
    for step := 0 to VALUED_SCAN
      invariant i < |chunks| && j < |chunks[i].t| && Base(chunks, i) + j == k - step
      invariant forall p :: k - step < p <= k ==> !Valued(rows[p].1)
    {
      FlatAt(chunks, v.column, i, j);
      if Valued(CellAt(chunks[i], v.column, j)) {
        OneLast(rows, k, Some(k - step));
        return SampleOf((chunks[i].t[j], CellAt(chunks[i], v.column, j)), v.offsetUs);
      }
      if j > 0 {
        j := j - 1;
      } else if i == 0 {
        OneLast(rows, k, None);
        return None;
      } else {
        i := i - 1;
        j := |chunks[i].t| - 1;
      }
    }
    r := None;
  }

  method PrevValuedInChunk(v: View, c: Chunk, row: nat) returns (r: Option<nat>)
    requires row < |c.t|
    ensures r == LastWith(ColumnRows(c, v.column), row)
  {
    var j: nat := row;
    while true
      invariant j <= row && LastWith(ColumnRows(c, v.column), row) == LastWith(ColumnRows(c, v.column), j)
      decreases j
    {
      if Valued(CellAt(c, v.column, j)) {
        return Some(j);
      }
      if j == 0 {
        return None;
      }
      j := j - 1;
    }
  }

  // ----- Before a time -----

  /** The number of rows up to a time. */
  function RowsBy(rows: seq<Timed>, raw: int): (k: nat)
    ensures k <= |rows|
  {
    if rows == [] then 0
    else
      var n := |rows| - 1;
      RowsBy(rows[..n], raw) + if rows[n].0 <= raw then 1 else 0
  }

  /** The first `k` rows are those up to a time. */
  ghost predicate Divides(rows: seq<Timed>, raw: int, k: nat) {
    k <= |rows| && (forall i :: 0 <= i < k ==> rows[i].0 <= raw) && forall i :: k <= i < |rows| ==> rows[i].0 > raw
  }

  lemma {:induction false} DividedByCount(rows: seq<Timed>, raw: int, k: nat)
    requires Divides(rows, raw, k)
    ensures RowsBy(rows, raw) == k
  {
    if rows != [] {
      var n := |rows| - 1;
      DividedByCount(rows[..n], raw, if k <= n then k else n);
    }
  }

  /** The last of the first `k` rows with a value, if it is usable, lies within
      the bound. */
  predicate Near(rows: seq<Timed>, offset: int, k: nat)
    requires k <= |rows|
  {
    k > 0 && LastWith(rows, k - 1).Some? ==>
      var j := LastWith(rows, k - 1).value;
      Usable(rows[j], offset) ==> k - 1 - j < 65536
  }

  /** The walk back finds the latest sample exactly when there is none or it
      lies within the bound. */
  lemma WalkIsLatest(rows: seq<Timed>, offset: int, raw: int, k: nat)
    requires TimesSorted(rows) && Asked(raw, offset) && Divides(rows, raw, k) && k > 0
    ensures IsLatest(rows, offset, raw, WalkedBack(rows, k - 1, offset)) <==> Near(rows, offset, k)
  {
    var j := LastWith(rows, k - 1);
    if j.Some? {
      assert rows[j.value].0 <= raw;
      if SampleOf(rows[j.value], offset).None? {
        OverflowBefore(rows, offset, raw, j.value);
      }
    }
  }

  /** Binary search finds the last row up to the time. */
  method PrevFast(v: View, raw: int) returns (r: Option<Sample>)
    requires ValidChunks(v.store) && InOrder(v.store.chunks)
    ensures var rows := Flat(v.store.chunks, v.column);
            var k := RowsBy(rows, raw);
            Divides(rows, raw, k) && r == if k == 0 then None else WalkedBack(rows, k - 1, v.offsetUs)
  {
    hide Divides, WalkedBack, TimesSorted, RowsBy, Base, Flat;
    var chunks := v.store.chunks;
    ghost var rows := Flat(chunks, v.column);
    MonotonicIsSorted(chunks, v.column, |v.store.schema.fields|);
    var n := ChunksStartingBy(chunks, raw);
    if n == 0 {
      NoneStarted(v, raw);
      DividedByCount(rows, raw, 0);
      return None;
    }
    var row := UpperBound(chunks[n - 1].t, raw);
    FlatAt(chunks, v.column, n - 1, row - 1);
    FollowsRaw(v, n, row, raw);
    DividedByCount(rows, raw, Base(chunks, n - 1) + row);
    r := PrevValuedFrom(v, n - 1, row - 1);
  }

  lemma NoneStarted(v: View, raw: int)
    requires ValidChunks(v.store) && InOrder(v.store.chunks)
    requires forall i :: 0 <= i < |v.store.chunks| ==> v.store.chunks[i].tMin > raw
    ensures Divides(Flat(v.store.chunks, v.column), raw, 0)
  {
    var chunks := v.store.chunks;
    MonotonicIsSorted(chunks, v.column, |v.store.schema.fields|);
    if |chunks| > 0 {
      FlatAt(chunks, v.column, 0, 0);
    }
    SortedDivides(Flat(chunks, v.column), raw, 0);
  }

  /** The number of chunks that start at or before `raw`. */
  method ChunksStartingBy(chunks: seq<Chunk>, raw: int) returns (n: nat)
    requires InOrder(chunks) && forall k :: 0 <= k < |chunks| ==> chunks[k].tMin <= chunks[k].tMax
    ensures n <= |chunks|
    ensures (forall i :: 0 <= i < n ==> chunks[i].tMin <= raw) && forall i :: n <= i < |chunks| ==> chunks[i].tMin > raw
  {
    var lo, hi := 0, |chunks|;
    while lo < hi
      invariant 0 <= lo <= hi <= |chunks|
      invariant forall i :: 0 <= i < lo ==> chunks[i].tMin <= raw
      invariant forall i :: hi <= i < |chunks| ==> chunks[i].tMin > raw
    {
      var mid := lo + (hi - lo) / 2;
      forall i | 0 <= i < |chunks|
        ensures i <= mid ==> chunks[i].tMin <= chunks[mid].tMin
        ensures i >= mid ==> chunks[i].tMin >= chunks[mid].tMin
      {
        if i <= mid {
          StartsGrow(chunks, i, mid);
        } else {
          StartsGrow(chunks, mid, i);
        }
      }
      if chunks[mid].tMin <= raw {
        lo := mid + 1;
      } else {
        hi := mid;
      }
    }
    n := lo;
  }

  lemma {:induction false} StartsGrow(chunks: seq<Chunk>, i: nat, j: nat)
    requires InOrder(chunks) && i <= j < |chunks| && forall k :: 0 <= k < |chunks| ==> chunks[k].tMin <= chunks[k].tMax
    ensures chunks[i].tMin <= chunks[j].tMin && chunks[i].tMax <= chunks[j].tMax
  {
    if i < j {
      StartsGrow(chunks, i, j - 1);
    }
  }

  /** Rows after `row` of chunk `n - 1` are later than `raw`. */
  lemma FollowsRaw(v: View, n: nat, row: nat, raw: int)
    requires ValidChunks(v.store) && InOrder(v.store.chunks) && 0 < n <= |v.store.chunks|
    requires var t := v.store.chunks[n - 1].t;
             0 < row <= |t| && t[row - 1] <= raw && forall i :: row <= i < |t| ==> t[i] > raw
    requires forall i :: n <= i < |v.store.chunks| ==> v.store.chunks[i].tMin > raw
    ensures Divides(Flat(v.store.chunks, v.column), raw, Base(v.store.chunks, n - 1) + row)
  {
    hide Flat, Base, Divides, TimesSorted, InOrder;
    var rows, k := Flat(v.store.chunks, v.column), Base(v.store.chunks, n - 1) + row;
    MonotonicIsSorted(v.store.chunks, v.column, |v.store.schema.fields|);
    FlatAt(v.store.chunks, v.column, n - 1, row - 1);
    if k < |rows| {
      LaterRow(v, n, row, raw, k);
    }
    SortedDivides(rows, raw, k);
  }

  lemma SortedDivides(rows: seq<Timed>, raw: int, k: nat)
    requires TimesSorted(rows) && k <= |rows| && (k > 0 ==> rows[k - 1].0 <= raw) && (k < |rows| ==> rows[k].0 > raw)
    ensures Divides(rows, raw, k)
  {
  }

  lemma LaterRow(v: View, n: nat, row: nat, raw: int, k: nat)
    requires ValidChunks(v.store) && 0 < n <= |v.store.chunks|
    requires var t := v.store.chunks[n - 1].t; row <= |t| && forall i :: row <= i < |t| ==> t[i] > raw
    requires forall i :: n <= i < |v.store.chunks| ==> v.store.chunks[i].tMin > raw
    requires k == Base(v.store.chunks, n - 1) + row && k < |Flat(v.store.chunks, v.column)|
    ensures Flat(v.store.chunks, v.column)[k].0 > raw
  {
    var chunks := v.store.chunks;
    TotalLength(chunks, v.column);
    var idx, at := RowOf(chunks, v.column, |chunks|, k);
    FlatAt(chunks, v.column, idx, at);
    if idx < n - 1 {
      BaseGrows(chunks, idx, n - 1);
    } else if idx > n - 1 {
      FirstIsLeast(v.store, idx, at);
    }
  }

  lemma FirstIsLeast(s: TopicStore, idx: nat, row: nat)
    requires ValidChunks(s) && idx < |s.chunks| && row < |s.chunks[idx].t|
    ensures s.chunks[idx].tMin <= s.chunks[idx].t[row] <= s.chunks[idx].tMax
  {
    assert ValidChunk(s.chunks[idx], |s.schema.fields|);
  }

  /** The scan of all chunks finds a latest sample. */
  method PrevScan(v: View, raw: int) returns (best: Option<Sample>)
    requires ValidChunks(v.store) && Asked(raw, v.offsetUs)
    ensures IsLatest(Flat(v.store.chunks, v.column), v.offsetUs, raw, best)
    ensures TakesLast(v.store.chunks, v.column, v.offsetUs, raw, best)
  {
    var chunks := v.store.chunks;
    best := None;
    for k := 0 to |chunks|
      invariant IsLatest(Flat(chunks[..k], v.column), v.offsetUs, raw, best)
      invariant TakesLast(chunks[..k], v.column, v.offsetUs, raw, best)
    {
      assert chunks[..k + 1][..k] == chunks[..k];
      ghost var before := Flat(chunks[..k], v.column);
      var r := ScanChunk(v, k, raw, best, before);
      TakesLastOneMore(chunks, v.column, v.offsetUs, raw, k, best, r);
      best := r;
    }
    assert chunks[..|chunks|] == chunks;
  }

  /** Takes one more chunk into account. */
  method ScanChunk(v: View, k: nat, raw: int, best: Option<Sample>, ghost before: seq<Timed>)
    returns (r: Option<Sample>)
    requires ValidChunks(v.store) && k < |v.store.chunks|
    requires Asked(raw, v.offsetUs) && IsLatest(before, v.offsetUs, raw, best)
    ensures IsLatest(before + ColumnRows(v.store.chunks[k], v.column), v.offsetUs, raw, r)
    ensures r == best ||
      (r.Some? && (best.Some? ==> r.value.rawUs > best.value.rawUs)
       && exists i: nat :: LastUpTo(ColumnRows(v.store.chunks[k], v.column), v.offsetUs, raw, r.value, i))
  {
    var c := v.store.chunks[k];
    ghost var own := ColumnRows(c, v.column);
    FirstIsLeastInRows(v.store, k, v.column);
    r := best;
    if c.tMin > raw {
      ScanNothing(before, own, v.offsetUs, raw, best);
      return;
    }
    var bound := UpperBound(c.t, raw);
    assert c.t[0] <= raw;
    var found := PrevValuedInChunk(v, c, bound - 1);
    if found.None? {
      ScanNothing(before, own, v.offsetUs, raw, best);
      return;
    }
    var sample := SampleOf((c.t[found.value], CellAt(c, v.column, found.value)), v.offsetUs);
    if sample.None? {
      OverflowBefore(own, v.offsetUs, raw, found.value);
      ScanNothing(before, own, v.offsetUs, raw, best);
      return;
    }
    ScanFound(before, own, v.offsetUs, raw, best, found.value);
    if best.None? || sample.value.rawUs > best.value.rawUs {
      assert LastUpTo(own, v.offsetUs, raw, sample.value, found.value);
      r := sample;
    }
  }

  lemma FirstIsLeastInRows(s: TopicStore, k: nat, column: nat)
    requires ValidChunks(s) && k < |s.chunks|
    ensures var rows := ColumnRows(s.chunks[k], column);
            TimesSorted(rows) && forall i :: 0 <= i < |rows| ==> s.chunks[k].tMin <= rows[i].0 <= s.chunks[k].tMax
  {
    assert ValidChunk(s.chunks[k], |s.schema.fields|);
  }

  lemma ScanNothing(a: seq<Timed>, b: seq<Timed>, offset: int, raw: int, best: Option<Sample>)
    requires IsLatest(a, offset, raw, best)
    requires forall i :: 0 <= i < |b| && Usable(b[i], offset) ==> b[i].0 > raw
    ensures IsLatest(a + b, offset, raw, best)
  {
    if best.Some? {
      var j :| 0 <= j < |a| && Usable(a[j], offset) && IsRow(a[j], offset, best.value);
      assert (a + b)[j] == a[j];
    }
  }

  lemma ScanFound(a: seq<Timed>, b: seq<Timed>, offset: int, raw: int, best: Option<Sample>, i: nat)
    requires IsLatest(a, offset, raw, best) && TimesSorted(b)
    requires i < |b| && Usable(b[i], offset) && b[i].0 <= raw
    requires forall j :: i < j < |b| && Valued(b[j].1) ==> b[j].0 > raw
    ensures var sample := SampleOf(b[i], offset);
            sample.Some? && IsLatest(a + b, offset, raw,
              if best.None? || sample.value.rawUs > best.value.rawUs then sample else best)
  {
    var sample := SampleOf(b[i], offset);
    assert sample.Some?;
    assert (a + b)[|a| + i] == b[i];
    if best.Some? {
      var j :| 0 <= j < |a| && Usable(a[j], offset) && IsRow(a[j], offset, best.value);
      assert (a + b)[j] == a[j];
    }
  }

  /** In a monotonic store the fast lookup gives a sample of the same time as
      the scan exactly when there is none or it lies within the bound. */
  method PrevSample(v: View, raw: int) returns (r: Option<Sample>)
    requires Exact(v.store) && Asked(raw, v.offsetUs)
    ensures var rows := Flat(v.store.chunks, v.column);
            IsLatest(rows, v.offsetUs, raw, r) <==> !v.store.monotonic || Near(rows, v.offsetUs, RowsBy(rows, raw))
    ensures !v.store.monotonic ==> TakesLast(v.store.chunks, v.column, v.offsetUs, raw, r)
  {
    if v.store.monotonic {
      r := PrevFast(v, raw);
      ghost var rows := Flat(v.store.chunks, v.column);
      ghost var k := RowsBy(rows, raw);
      if k > 0 {
        MonotonicIsSorted(v.store.chunks, v.column, |v.store.schema.fields|);
        WalkIsLatest(rows, v.offsetUs, raw, k);
      }
    } else {
      r := PrevScan(v, raw);
    }
  }

  // ----- After a time -----

  ghost predicate InChunk(chunks: seq<Chunk>, idx: nat, pos: nat) {
    idx < |chunks| && Base(chunks, idx) <= pos < Base(chunks, idx) + |chunks[idx].t|
  }

  /** Steps of the walk from position `k` in chunk `from` to `j` in chunk `to`:
      passing the end of a chunk takes a step of its own. */
  function Steps(k: nat, from: nat, j: nat, to: nat): int {
    j - k + to - from
  }

  /** A walk from `k` gets to `j` within the bound. */
  ghost predicate Reaches(chunks: seq<Chunk>, k: nat, j: nat) {
    forall a, b :: InChunk(chunks, a, k) && InChunk(chunks, b, j) ==> Steps(k, a, j, b) < 65536
  }

  lemma ReachesByChunks(chunks: seq<Chunk>, a: nat, k: nat, b: nat, j: nat)
    requires InChunk(chunks, a, k) && InChunk(chunks, b, j)
    ensures Reaches(chunks, k, j) <==> Steps(k, a, j, b) < VALUED_SCAN
  {
    forall c, d | InChunk(chunks, c, k) && InChunk(chunks, d, j)
      ensures c == a && d == b
    {
      ChunkIsOne(chunks, a, c, k);
      ChunkIsOne(chunks, b, d, j);
    }
  }

  /** What the bounded walk forward finds. */
  ghost predicate WalkedOn(chunks: seq<Chunk>, column: nat, k: nat, offset: int, r: Option<Sample>) {
    var rows := Flat(chunks, column);
    match FirstWith(rows, k)
    case None => r == None
    case Some(j) => r == if Reaches(chunks, k, j) then SampleOf(rows[j], offset) else None
  }

  lemma ChunkIsOne(chunks: seq<Chunk>, a: nat, b: nat, pos: nat)
    requires InChunk(chunks, a, pos) && InChunk(chunks, b, pos)
    ensures a == b
  {
    if a < b {
      BaseGrows(chunks, a, b);
    } else if b < a {
      BaseGrows(chunks, b, a);
    }
  }

  /** Chunks that hold later positions come later. */
  lemma LaterChunk(chunks: seq<Chunk>, a: nat, pos: nat, c: nat, j: nat)
    requires a <= |chunks| && Base(chunks, a) <= pos <= j && InChunk(chunks, c, j)
    ensures a <= c
  {
    if c < a {
      BaseGrows(chunks, c, a);
    }
  }

  method NextValuedFrom(v: View, idx: nat, row: nat) returns (r: Option<Sample>)
    requires idx < |v.store.chunks| && row < |v.store.chunks[idx].t|
    ensures WalkedOn(v.store.chunks, v.column, Base(v.store.chunks, idx) + row, v.offsetUs, r)
  {
    var chunks := v.store.chunks;
    ghost var rows, k := Flat(chunks, v.column), Base(chunks, idx) + row;
    TotalLength(chunks, v.column);
    BaseGrows(chunks, idx, |chunks|);
    var i: nat, j: nat := idx, row;
    for step := 0 to VALUED_SCAN
      invariant idx <= i <= |chunks| && (if i < |chunks| then j <= |chunks[i].t| else j == 0)
      invariant k <= Base(chunks, i) + j && step == Steps(k, idx, Base(chunks, i) + j, i)
      invariant forall p :: k <= p < Base(chunks, i) + j && p < |rows| ==> !Valued(rows[p].1)
    {
      if i == |chunks| {
        OneFirst(rows, k, None);
        return None;
      }
      if j >= |chunks[i].t| {
        i := i + 1;
        j := 0;
        continue;
      }
      FlatAt(chunks, v.column, i, j);
      if Valued(CellAt(chunks[i], v.column, j)) {
        FoundAt(chunks, v.column, k, idx, i, j, v.offsetUs);
        return SampleOf((chunks[i].t[j], CellAt(chunks[i], v.column, j)), v.offsetUs);
      }
      j := j + 1;
    }
    r := None;
    NotReached(chunks, v.column, k, idx, i, j, v.offsetUs);
  }

  lemma FoundAt(chunks: seq<Chunk>, column: nat, k: nat, idx: nat, i: nat, j: nat, offset: int)
    requires InChunk(chunks, idx, k)
    requires i < |chunks| && j < |chunks[i].t| && k <= Base(chunks, i) + j < |Flat(chunks, column)|
    requires forall p :: k <= p < Base(chunks, i) + j ==> !Valued(Flat(chunks, column)[p].1)
    requires Valued(CellAt(chunks[i], column, j)) && Steps(k, idx, Base(chunks, i) + j, i) < VALUED_SCAN
    ensures WalkedOn(chunks, column, k, offset, SampleOf((chunks[i].t[j], CellAt(chunks[i], column, j)), offset))
  {
    var rows, pos := Flat(chunks, column), Base(chunks, i) + j;
    FlatAt(chunks, column, i, j);
    OneFirst(rows, k, Some(pos));
    ReachesByChunks(chunks, idx, k, i, pos);
  }

  lemma NotReached(chunks: seq<Chunk>, column: nat, k: nat, idx: nat, i: nat, j: nat, offset: int)
    requires InChunk(chunks, idx, k)
    requires i <= |chunks| && k <= Base(chunks, i) + j && Steps(k, idx, Base(chunks, i) + j, i) >= VALUED_SCAN
    requires forall p :: k <= p < Base(chunks, i) + j && p < |Flat(chunks, column)| ==>
               !Valued(Flat(chunks, column)[p].1)
    ensures WalkedOn(chunks, column, k, offset, None)
  {
    var first := FirstWith(Flat(chunks, column), k);
    if first.Some? {
      TotalLength(chunks, column);
      var c, at := RowOf(chunks, column, |chunks|, first.value);
      LaterChunk(chunks, i, Base(chunks, i), c, first.value);
      ReachesByChunks(chunks, idx, k, c, first.value);
    }
  }

  /** The number of rows before a time. */
  function RowsBefore(rows: seq<Timed>, raw: int): (k: nat)
    ensures k <= |rows|
  {
    if rows == [] then 0
    else
      var n := |rows| - 1;
      RowsBefore(rows[..n], raw) + if rows[n].0 < raw then 1 else 0
  }

  /** The first `k` rows are those before a time. */
  ghost predicate DividesBefore(rows: seq<Timed>, raw: int, k: nat) {
    k <= |rows| && (forall i :: 0 <= i < k ==> rows[i].0 < raw) && forall i :: k <= i < |rows| ==> rows[i].0 >= raw
  }

  lemma {:induction false} DividedByCountBefore(rows: seq<Timed>, raw: int, k: nat)
    requires DividesBefore(rows, raw, k)
    ensures RowsBefore(rows, raw) == k
  {
    if rows != [] {
      var n := |rows| - 1;
      DividedByCountBefore(rows[..n], raw, if k <= n then k else n);
    }
  }

  /** The first row from position `k` on with a value, if it is usable, is
      reached within the bound. */
  ghost predicate NearAfter(chunks: seq<Chunk>, column: nat, offset: int, k: nat) {
    var rows := Flat(chunks, column);
    FirstWith(rows, k).Some? && Usable(rows[FirstWith(rows, k).value], offset) ==>
      Reaches(chunks, k, FirstWith(rows, k).value)
  }

  /** The walk on finds the earliest sample exactly when there is none or it is
      reached within the bound. */
  lemma WalkIsEarliest(chunks: seq<Chunk>, column: nat, offset: int, raw: int, k: nat, r: Option<Sample>)
    requires Asked(raw, offset) && TimesSorted(Flat(chunks, column))
    requires DividesBefore(Flat(chunks, column), raw, k) && WalkedOn(chunks, column, k, offset, r)
    ensures IsEarliest(Flat(chunks, column), offset, raw, r) <==> NearAfter(chunks, column, offset, k)
  {
    var rows := Flat(chunks, column);
    var first := FirstWith(rows, k);
    if first.Some? {
      assert rows[first.value].0 >= raw;
      if SampleOf(rows[first.value], offset).None? {
        OverflowAfter(rows, offset, raw, first.value);
      }
    }
  }

  /** Binary search finds the first row from the time on. */
  method NextFast(v: View, raw: int) returns (r: Option<Sample>)
    requires ValidChunks(v.store) && InOrder(v.store.chunks)
    ensures var rows := Flat(v.store.chunks, v.column);
            var k := RowsBefore(rows, raw);
            DividesBefore(rows, raw, k) && WalkedOn(v.store.chunks, v.column, k, v.offsetUs, r)
  {
    hide DividesBefore, TimesSorted, RowsBefore;
    var chunks := v.store.chunks;
    ghost var rows := Flat(chunks, v.column);
    MonotonicIsSorted(chunks, v.column, |v.store.schema.fields|);
    var n := ChunksEndingBefore(chunks, raw);
    if n == |chunks| {
      NoneLeft(v, raw);
      DividedByCountBefore(rows, raw, |rows|);
      OneFirst(rows, |rows|, None);
      return None;
    }
    var row := LowerBound(chunks[n].t, raw);
    FirstIsLeast(v.store, n, |chunks[n].t| - 1);
    assert chunks[n].t[|chunks[n].t| - 1] == chunks[n].tMax;
    ghost var k := Base(chunks, n) + row;
    FlatAt(chunks, v.column, n, row);
    if k > 0 {
      EarlierRow(v, n, row, raw, k - 1);
    }
    SortedDividesBefore(rows, raw, k);
    DividedByCountBefore(rows, raw, k);
    r := NextValuedFrom(v, n, row);
  }

  lemma NoneLeft(v: View, raw: int)
    requires ValidChunks(v.store) && InOrder(v.store.chunks)
    requires forall i :: 0 <= i < |v.store.chunks| ==> v.store.chunks[i].tMax < raw
    ensures DividesBefore(Flat(v.store.chunks, v.column), raw, |Flat(v.store.chunks, v.column)|)
  {
    var rows := Flat(v.store.chunks, v.column);
    MonotonicIsSorted(v.store.chunks, v.column, |v.store.schema.fields|);
    SortedDividesBefore(rows, raw, |rows|);
  }

  lemma SortedDividesBefore(rows: seq<Timed>, raw: int, k: nat)
    requires TimesSorted(rows) && k <= |rows| && (k > 0 ==> rows[k - 1].0 < raw) && (k < |rows| ==> rows[k].0 >= raw)
    ensures DividesBefore(rows, raw, k)
  {
  }

  lemma EarlierRow(v: View, n: nat, row: nat, raw: int, p: nat)
    requires ValidChunks(v.store) && n < |v.store.chunks| && row < |v.store.chunks[n].t|
    requires var t := v.store.chunks[n].t; forall i :: 0 <= i < row ==> t[i] < raw
    requires forall i :: 0 <= i < n ==> v.store.chunks[i].tMax < raw
    requires p + 1 == Base(v.store.chunks, n) + row && p < |Flat(v.store.chunks, v.column)|
    ensures Flat(v.store.chunks, v.column)[p].0 < raw
  {
    var chunks := v.store.chunks;
    TotalLength(chunks, v.column);
    var idx, at := RowOf(chunks, v.column, |chunks|, p);
    FlatAt(chunks, v.column, idx, at);
    if idx < n {
      FirstIsLeast(v.store, idx, at);
    } else if idx > n {
      BaseGrows(chunks, n, idx);
    } else {
      assert at < row;
    }
  }

  /** The number of chunks that end before `raw`. */
  method ChunksEndingBefore(chunks: seq<Chunk>, raw: int) returns (n: nat)
    requires InOrder(chunks) && forall k :: 0 <= k < |chunks| ==> chunks[k].tMin <= chunks[k].tMax
    ensures n <= |chunks|
    ensures (forall i :: 0 <= i < n ==> chunks[i].tMax < raw) && forall i :: n <= i < |chunks| ==> chunks[i].tMax >= raw
  {
    var lo, hi := 0, |chunks|;
    while lo < hi
      invariant 0 <= lo <= hi <= |chunks|
      invariant forall i :: 0 <= i < lo ==> chunks[i].tMax < raw
      invariant forall i :: hi <= i < |chunks| ==> chunks[i].tMax >= raw
    {
      var mid := lo + (hi - lo) / 2;
      forall i | 0 <= i < |chunks|
        ensures i <= mid ==> chunks[i].tMax <= chunks[mid].tMax
        ensures i >= mid ==> chunks[i].tMax >= chunks[mid].tMax
      {
        if i <= mid {
          StartsGrow(chunks, i, mid);
        } else {
          StartsGrow(chunks, mid, i);
        }
      }
      if chunks[mid].tMax < raw {
        lo := mid + 1;
      } else {
        hi := mid;
      }
    }
    n := lo;
  }

  method NextValuedInChunk(v: View, c: Chunk, row: nat) returns (r: Option<nat>)
    ensures r == FirstWith(ColumnRows(c, v.column), row)
  {
    var j: nat := row;
    while j < |c.t|
      invariant FirstWith(ColumnRows(c, v.column), row) == FirstWith(ColumnRows(c, v.column), j)
    {
      if Valued(CellAt(c, v.column, j)) {
        return Some(j);
      }
      j := j + 1;
    }
    r := None;
  }

  /** The scan of all chunks finds an earliest sample. */
  method NextScan(v: View, raw: int) returns (best: Option<Sample>)
    requires ValidChunks(v.store) && Asked(raw, v.offsetUs)
    ensures IsEarliest(Flat(v.store.chunks, v.column), v.offsetUs, raw, best)
    ensures TakesFirst(v.store.chunks, v.column, v.offsetUs, raw, best)
  {
    var chunks := v.store.chunks;
    best := None;
    for k := 0 to |chunks|
      invariant IsEarliest(Flat(chunks[..k], v.column), v.offsetUs, raw, best)
      invariant TakesFirst(chunks[..k], v.column, v.offsetUs, raw, best)
    {
      assert chunks[..k + 1][..k] == chunks[..k];
      ghost var before := Flat(chunks[..k], v.column);
      var r := ScanChunkAfter(v, k, raw, best, before);
      TakesFirstOneMore(chunks, v.column, v.offsetUs, raw, k, best, r);
      best := r;
    }
    assert chunks[..|chunks|] == chunks;
  }

  method ScanChunkAfter(v: View, k: nat, raw: int, best: Option<Sample>, ghost before: seq<Timed>)
    returns (r: Option<Sample>)
    requires ValidChunks(v.store) && k < |v.store.chunks|
    requires Asked(raw, v.offsetUs) && IsEarliest(before, v.offsetUs, raw, best)
    ensures IsEarliest(before + ColumnRows(v.store.chunks[k], v.column), v.offsetUs, raw, r)
    ensures r == best ||
      (r.Some? && (best.Some? ==> r.value.rawUs < best.value.rawUs)
       && exists i: nat :: FirstFrom(ColumnRows(v.store.chunks[k], v.column), v.offsetUs, raw, r.value, i))
  {
    var c := v.store.chunks[k];
    ghost var own := ColumnRows(c, v.column);
    FirstIsLeastInRows(v.store, k, v.column);
    r := best;
    if c.tMax < raw {
      ScanNothingAfter(before, own, v.offsetUs, raw, best);
      return;
    }
    var row := LowerBound(c.t, raw);
    if row == |c.t| {
      ScanNothingAfter(before, own, v.offsetUs, raw, best);
      return;
    }
    var found := NextValuedInChunk(v, c, row);
    if found.None? {
      ScanNothingAfter(before, own, v.offsetUs, raw, best);
      return;
    }
    var sample := SampleOf((c.t[found.value], CellAt(c, v.column, found.value)), v.offsetUs);
    if sample.None? {
      OverflowAfter(own, v.offsetUs, raw, found.value);
      ScanNothingAfter(before, own, v.offsetUs, raw, best);
      return;
    }
    ScanFoundAfter(before, own, v.offsetUs, raw, best, found.value);
    if best.None? || sample.value.rawUs < best.value.rawUs {
      assert FirstFrom(own, v.offsetUs, raw, sample.value, found.value);
      r := sample;
    }
  }

  lemma ScanNothingAfter(a: seq<Timed>, b: seq<Timed>, offset: int, raw: int, best: Option<Sample>)
    requires IsEarliest(a, offset, raw, best)
    requires forall i :: 0 <= i < |b| && Usable(b[i], offset) ==> b[i].0 < raw
    ensures IsEarliest(a + b, offset, raw, best)
  {
    if best.Some? {
      var j :| 0 <= j < |a| && Usable(a[j], offset) && IsRow(a[j], offset, best.value);
      assert (a + b)[j] == a[j];
    }
  }

  lemma ScanFoundAfter(a: seq<Timed>, b: seq<Timed>, offset: int, raw: int, best: Option<Sample>, i: nat)
    requires IsEarliest(a, offset, raw, best) && TimesSorted(b)
    requires i < |b| && Usable(b[i], offset) && b[i].0 >= raw
    requires forall j :: 0 <= j < i && Valued(b[j].1) ==> b[j].0 < raw
    ensures var sample := SampleOf(b[i], offset);
            sample.Some? && IsEarliest(a + b, offset, raw,
              if best.None? || sample.value.rawUs < best.value.rawUs then sample else best)
  {
    var sample := SampleOf(b[i], offset);
    assert sample.Some?;
    assert (a + b)[|a| + i] == b[i];
    if best.Some? {
      var j :| 0 <= j < |a| && Usable(a[j], offset) && IsRow(a[j], offset, best.value);
      assert (a + b)[j] == a[j];
    }
  }

  /** In a monotonic store the fast lookup gives a sample of the same time as
      the scan exactly when there is none or it is reached within the bound. */
  method NextSample(v: View, raw: int) returns (r: Option<Sample>)
    requires Exact(v.store) && Asked(raw, v.offsetUs)
    ensures var rows := Flat(v.store.chunks, v.column);
            IsEarliest(rows, v.offsetUs, raw, r) <==>
              !v.store.monotonic || NearAfter(v.store.chunks, v.column, v.offsetUs, RowsBefore(rows, raw))
    ensures !v.store.monotonic ==> TakesFirst(v.store.chunks, v.column, v.offsetUs, raw, r)
  {
    if v.store.monotonic {
      r := NextFast(v, raw);
      MonotonicIsSorted(v.store.chunks, v.column, |v.store.schema.fields|);
      WalkIsEarliest(v.store.chunks, v.column, v.offsetUs, raw, RowsBefore(Flat(v.store.chunks, v.column), raw), r);
    } else {
      r := NextScan(v, raw);
    }
  }

  // ----- Fast lookup and scan -----

  /** All latest samples are of one time. */
  lemma LatestTimeIsOne(rows: seq<Timed>, offset: int, raw: int, a: Option<Sample>, b: Option<Sample>)
    requires IsLatest(rows, offset, raw, a) && IsLatest(rows, offset, raw, b)
    ensures a.Some? <==> b.Some?
    ensures a.Some? ==> a.value.rawUs == b.value.rawUs
  {
    if a.Some? {
      var j :| 0 <= j < |rows| && Usable(rows[j], offset) && IsRow(rows[j], offset, a.value);
      assert rows[j].0 == a.value.rawUs;
    }
    if b.Some? {
      var j :| 0 <= j < |rows| && Usable(rows[j], offset) && IsRow(rows[j], offset, b.value);
      assert rows[j].0 == b.value.rawUs;
    }
  }

  lemma EarliestTimeIsOne(rows: seq<Timed>, offset: int, raw: int, a: Option<Sample>, b: Option<Sample>)
    requires IsEarliest(rows, offset, raw, a) && IsEarliest(rows, offset, raw, b)
    ensures a.Some? <==> b.Some?
    ensures a.Some? ==> a.value.rawUs == b.value.rawUs
  {
    if a.Some? {
      var j :| 0 <= j < |rows| && Usable(rows[j], offset) && IsRow(rows[j], offset, a.value);
      assert rows[j].0 == a.value.rawUs;
    }
    if b.Some? {
      var j :| 0 <= j < |rows| && Usable(rows[j], offset) && IsRow(rows[j], offset, b.value);
      assert rows[j].0 == b.value.rawUs;
    }
  }
}
