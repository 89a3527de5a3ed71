/** Searches in a trace: index ranges by time, and the nearest sample with a
    value, found by skipping blocks that hold none. */
module TraceSearch {
  import opened Prelude
  import opened Pyramid
  import opened PyramidObject
  import opened Trace

  function Count(xy: seq<Num>): nat {
    |xy| / 2
  }

  predicate Interleaved(xy: seq<Num>) {
    |xy| % 2 == 0 && forall i :: 0 <= i < Count(xy) ==> xy[2 * i].Val?
  }

  function XAt(xy: seq<Num>, i: nat): real
    requires Interleaved(xy) && i < Count(xy)
  {
    xy[2 * i].r
  }

  function YAt(xy: seq<Num>, i: nat): Num
    requires i < Count(xy)
  {
    xy[2 * i + 1]
  }

  predicate SortedX(xy: seq<Num>)
    requires Interleaved(xy)
  {
    forall i, j :: 0 <= i < j < Count(xy) ==> XAt(xy, i) <= XAt(xy, j)
  }

  function Ys(xy: seq<Num>): (r: seq<Num>)
    ensures |r| == Count(xy) && forall i :: 0 <= i < |r| ==> r[i] == YAt(xy, i)
  {
    seq(Count(xy), i requires 0 <= i < Count(xy) => YAt(xy, i))
  }

  lemma YsAreSamples(xy: seq<Num>)
    requires |xy| % 2 == 0
    ensures Samples(xy, 2, 1) == Ys(xy)
  {
  }

  /** A trace whose pyramid is that of its points. */
  ghost predicate Drawable(t: TraceCache)
    reads t, t.pyramid
  {
    && Interleaved(t.xy)
    && t.pyramid.stride == 2 && t.pyramid.offset == 1 && t.pyramid.Covers(t.xy)
  }

  lemma BuiltIsDrawable(t: TraceCache, rows: seq<Row>, multiplier: Num)
    requires t.Holds(rows, multiplier)
    ensures Drawable(t) && Count(t.xy) == |rows|
  {
    LengthOf(rows, Transform(t.offsetUs, t.originUs, multiplier));
    forall i | 0 <= i < Count(t.xy)
      ensures t.xy[2 * i].Val?
    {
      PointOf(rows, Transform(t.offsetUs, t.originUs, multiplier), i);
    }
  }

  /** Rows in order of time give points in order of `x`. */
  lemma OrderedRows(t: TraceCache, rows: seq<Row>, multiplier: Num)
    requires t.Holds(rows, multiplier)
    requires forall i, j :: 0 <= i < j < |rows| ==> rows[i].0 <= rows[j].0
    ensures Interleaved(t.xy) && SortedX(t.xy)
  {
    BuiltIsDrawable(t, rows, multiplier);
    forall i, j | 0 <= i < j < Count(t.xy)
      ensures XAt(t.xy, i) <= XAt(t.xy, j)
    {
      PointOf(rows, Transform(t.offsetUs, t.originUs, multiplier), i);
      PointOf(rows, Transform(t.offsetUs, t.originUs, multiplier), j);
    }
  }

  // ----- By time -----

  /** The first index from `lo` up to `hi` at which `pred` fails. */
  method PartitionPoint(xy: seq<Num>, lo: nat, hi: nat, pred: real -> bool) returns (r: nat)
    requires Interleaved(xy) && lo <= hi <= Count(xy)
    requires forall i, j :: lo <= i < j < hi && pred(XAt(xy, j)) ==> pred(XAt(xy, i))
    ensures lo <= r <= hi
    ensures forall i :: lo <= i < r ==> pred(XAt(xy, i))
    ensures forall i :: r <= i < hi ==> !pred(XAt(xy, i))
  {
    var low, high := lo, hi;
    while low < high
      invariant lo <= low <= high <= hi
      invariant forall i :: lo <= i < low ==> pred(XAt(xy, i))
      invariant forall i :: high <= i < hi ==> !pred(XAt(xy, i))
    {
      var mid := low + (high - low) / 2;
      if pred(XAt(xy, mid)) {
        low := mid + 1;
      } else {
        high := mid;
      }
    }
    r := low;
  }

  /** The samples from `a` up to `b` are those in view. */
  ghost predicate InView(xy: seq<Num>, x0: real, x1: real, a: nat, b: nat)
    requires Interleaved(xy)
  {
    && a <= b <= Count(xy)
    && (forall i :: 0 <= i < a ==> XAt(xy, i) < x0)
    && (forall i :: a <= i < Count(xy) ==> XAt(xy, i) >= x0)
    && (forall i :: a <= i < b ==> XAt(xy, i) <= x1)
    && (forall i :: b <= i < Count(xy) ==> XAt(xy, i) > x1)
  }

  method IndexRange(t: TraceCache, x0: real, x1: real) returns (a: nat, b: nat)
    requires Interleaved(t.xy) && SortedX(t.xy)
    ensures InView(t.xy, x0, x1, a, b)
    ensures forall i :: 0 <= i < Count(t.xy) ==> (a <= i < b <==> x0 <= XAt(t.xy, i) <= x1)
  {
    var n := Count(t.xy);
    a := PartitionPoint(t.xy, 0, n, (x: real) => x < x0);
    b := PartitionPoint(t.xy, a, n, (x: real) => x <= x1);
  }

  // ----- By value -----

  /** The largest index up to `i` with a value: a linear search. */
  function LastValued(ys: seq<Num>, i: nat): (r: Option<nat>)
    requires i < |ys|
    ensures r.Some? ==> r.value <= i && ys[r.value].Val? && forall j :: r.value < j <= i ==> ys[j].Gap?
    ensures r.None? ==> forall j :: 0 <= j <= i ==> ys[j].Gap?
  {
    if ys[i].Val? then Some(i) else if i == 0 then None else LastValued(ys, i - 1)
  }

  /** The smallest index from `i` on with a value. */
  function FirstValued(ys: seq<Num>, i: nat): (r: Option<nat>)
    ensures r.Some? ==> i <= r.value < |ys| && ys[r.value].Val? && forall j :: i <= j < r.value ==> ys[j].Gap?
    ensures r.None? ==> forall j :: i <= j < |ys| ==> ys[j].Gap?
    decreases |ys| - i
  {
    if i >= |ys| then None else if ys[i].Val? then Some(i) else FirstValued(ys, i + 1)
  }

  predicate HasValue(m: MinMax) {
    m.min.Val? || m.max.Val?
  }

  /** A node of the lowest level is finite exactly if one of its samples is. */
  lemma L0Node(levels: seq<seq<MinMax>>, ys: seq<Num>, k: nat)
    requires IsPyramid(levels, ys) && k * BRANCH < |ys|
    ensures levels != [] && k < |levels[0]| == BlockCount(|ys|)
    ensures levels[0][k] == Extent(ys, k * BRANCH, Smaller(k * BRANCH + BRANCH, |ys|))
    ensures IsExtent(ys, k * BRANCH, Smaller(k * BRANCH + BRANCH, |ys|), levels[0][k])
  {
    StackedBelow(levels, ys, 1, |levels|);
    NodeCovers(levels, ys, 1, k);
    assert Start(k, 1) == Start(k * BRANCH, 0) == k * BRANCH;
    assert Start(k + 1, 1) == Start((k + 1) * BRANCH, 0) == k * BRANCH + BRANCH;
    ExtentIsExact(ys, k * BRANCH, Smaller(k * BRANCH + BRANCH, |ys|));
  }

  lemma SkippedBlock(levels: seq<seq<MinMax>>, ys: seq<Num>, k: nat)
    requires IsPyramid(levels, ys) && k * BRANCH < |ys|
    ensures levels != [] && k < |levels[0]| == BlockCount(|ys|)
    ensures !HasValue(levels[0][k]) ==> forall j :: k * BRANCH <= j < k * BRANCH + BRANCH && j < |ys| ==> ys[j].Gap?
  {
    L0Node(levels, ys, k);
  }

  /** Scans down from `hi` to `lo`. */
  method ScanDown(xy: seq<Num>, lo: nat, hi: nat) returns (r: Option<nat>)
    requires hi < Count(xy)
    ensures r.Some? ==> lo <= r.value <= hi && YAt(xy, r.value).Val?
                        && forall j :: r.value < j <= hi ==> YAt(xy, j).Gap?
    ensures r.None? ==> forall j :: lo <= j <= hi ==> YAt(xy, j).Gap?
  {
    var j: nat := hi + 1;
    while j > lo
      invariant j <= hi + 1
      invariant forall k :: j <= k <= hi ==> YAt(xy, k).Gap?
    {
      j := j - 1;
      if YAt(xy, j).Val? {
        return Some(j);
      }
    }
    r := None;
  }

  method ScanUp(xy: seq<Num>, lo: nat, hi: nat) returns (r: Option<nat>)
    requires hi <= Count(xy)
    ensures r.Some? ==> lo <= r.value < hi && YAt(xy, r.value).Val? && forall j :: lo <= j < r.value ==> YAt(xy, j).Gap?
    ensures r.None? ==> forall j :: lo <= j < hi ==> YAt(xy, j).Gap?
  {
    var j: nat := lo;
    while j < hi
      invariant forall k :: lo <= k < j && k < hi ==> YAt(xy, k).Gap?
    {
      if YAt(xy, j).Val? {
        return Some(j);
      }
      j := j + 1;
    }
    r := None;
  }

  /** Skipping blocks without a value finds what a linear search would. */
  method FiniteAtOrBefore(t: TraceCache, i: nat) returns (r: Option<nat>)
    requires Drawable(t)
    ensures r == if Count(t.xy) == 0 then None else LastValued(Ys(t.xy), Smaller(i, Count(t.xy) - 1))
  {
    var n := Count(t.xy);
    if n == 0 {
      return None;
    }
    var start := Smaller(i, n - 1);
    ghost var ys := Ys(t.xy);
    YsAreSamples(t.xy);
    var block: nat := start / BRANCH;
    r := ScanDown(t.xy, block * BRANCH, start);
    if r.Some? {
      OneLast(ys, start, r);
      return;
    }
    while block > 0
      invariant block * BRANCH <= start
      invariant forall j :: block * BRANCH <= j <= start ==> ys[j].Gap?
    {
      block := block - 1;
      SkippedBlock(t.pyramid.levels, ys, block);
      if HasValue(t.pyramid.levels[0][block]) {
        r := ScanDown(t.xy, block * BRANCH, block * BRANCH + BRANCH - 1);
        if r.Some? {
          OneLast(ys, start, r);
          return;
        }
      }
    }
    r := None;
    OneLast(ys, start, r);
  }

  lemma OneLast(ys: seq<Num>, i: nat, r: Option<nat>)
    requires i < |ys|
    requires r.Some? ==> r.value <= i && ys[r.value].Val? && forall j :: r.value < j <= i ==> ys[j].Gap?
    requires r.None? ==> forall j :: 0 <= j <= i ==> ys[j].Gap?
    ensures r == LastValued(ys, i)
  {
  }

  lemma OneFirst(ys: seq<Num>, i: nat, r: Option<nat>)
    requires r.Some? ==> i <= r.value < |ys| && ys[r.value].Val? && forall j :: i <= j < r.value ==> ys[j].Gap?
    requires r.None? ==> forall j :: i <= j < |ys| ==> ys[j].Gap?
    ensures r == FirstValued(ys, i)
  {
  }

  method FiniteAtOrAfter(t: TraceCache, i: nat) returns (r: Option<nat>)
    requires Drawable(t)
    ensures r == FirstValued(Ys(t.xy), i)
  {
    var n := Count(t.xy);
    if i >= n {
      return None;
    }
    ghost var ys := Ys(t.xy);
    YsAreSamples(t.xy);
    var block := i / BRANCH;
    SkippedBlock(t.pyramid.levels, ys, block);
    r := ScanUp(t.xy, i, Smaller(block * BRANCH + BRANCH, n));
    if r.Some? {
      OneFirst(ys, i, r);
      return;
    }
    block := block + 1;
    while block < |t.pyramid.levels[0]|
      invariant i < block * BRANCH
      invariant forall j :: i <= j < block * BRANCH && j < n ==> ys[j].Gap?
    {
      SkippedBlock(t.pyramid.levels, ys, block);
      if HasValue(t.pyramid.levels[0][block]) {
        r := ScanUp(t.xy, block * BRANCH, Smaller(block * BRANCH + BRANCH, n));
        if r.Some? {
          OneFirst(ys, i, r);
          return;
        }
      }
      block := block + 1;
    }
    r := None;
    OneFirst(ys, i, r);
  }

  /** The extent of the samples in view, for a trace drawn as points. */
  method VisiblePoints(t: TraceCache, x0: real, x1: real) returns (e: MinMax)
    requires Drawable(t) && SortedX(t.xy)
    ensures x1 < x0 ==> e == EMPTY
    ensures x0 <= x1 ==> exists a, b :: InView(t.xy, x0, x1, a, b) && e == ExtentWithin(Ys(t.xy), a, b)
  {
    if x1 < x0 {
      return EMPTY;
    }
    var a, b := IndexRange(t, x0, x1);
    YsAreSamples(t.xy);
    e := t.pyramid.Query(t.xy, a, b);
  }
}
