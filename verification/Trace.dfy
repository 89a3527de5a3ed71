/** The render cache of one trace: interleaved x and y samples with a pyramid,
    built from a topic store and extended as the store grows. */
module Trace {
  import opened Prelude
  import opened Storage
  import opened PyramidObject

  // ----- Samples of a field -----

  /** Time and value of a row. */
  type Row = (int, Num)

  function CellAt(c: Chunk, column: nat, i: nat): Num {
    if column < |c.cols| && i < |c.cols[column]| then Sample(c.cols[column][i]) else Gap
  }

  function RowsOfChunk(c: Chunk, column: nat): (r: seq<Row>)
    ensures |r| == |c.t|
  {
    seq(|c.t|, i requires 0 <= i < |c.t| => (c.t[i], CellAt(c, column, i)))
  }

  function RowsOf(chunks: seq<Chunk>, column: nat): seq<Row> {
    if chunks == [] then []
    else RowsOf(chunks[..|chunks| - 1], column) + RowsOfChunk(chunks[|chunks| - 1], column)
  }

  function Clamped(x: int): int {
    if x < I64_MIN then I64_MIN else if x > I64_MAX then I64_MAX else x
  }

  /** How rows become points: `x` in seconds since the origin, `y` scaled and
      relative to the first finite value. */
  datatype Transform = Transform(offsetUs: int, originUs: int, multiplier: Num)

  datatype Points = Points(xy: seq<Num>, yOrigin: Option<real>)

  function XOf(t: int, tr: Transform): real {
    Clamped(Clamped(t + tr.offsetUs) - tr.originUs) as real / 1000000.0
  }

  function Times(a: Num, b: Num): Num {
    if a.Val? && b.Val? then Val(a.r * b.r) else Gap
  }

  function Minus(a: Num, base: Option<real>): Num {
    if a.Gap? then Gap else Val(a.r - (if base.Some? then base.value else 0.0))
  }

  function WithRow(p: Points, row: Row, tr: Transform): Points {
    var y := Times(row.1, tr.multiplier);
    var base := if p.yOrigin.None? && y.Val? then Some(y.r) else p.yOrigin;
    Points(p.xy + [Val(XOf(row.0, tr)), Minus(y, base)], base)
  }

  function WithRows(p: Points, rows: seq<Row>, tr: Transform): Points {
    if rows == [] then p else WithRow(WithRows(p, rows[..|rows| - 1], tr), rows[|rows| - 1], tr)
  }

  /** The points of a whole trace. */
  function Traced(rows: seq<Row>, tr: Transform): Points {
    WithRows(Points([], None), rows, tr)
  }

  lemma {:induction false} WithMoreRows(p: Points, rows: seq<Row>, more: seq<Row>, tr: Transform)
    ensures WithRows(p, rows + more, tr) == WithRows(WithRows(p, rows, tr), more, tr)
  {
    if more == [] {
      assert rows + more == rows;
    } else {
      var n := |more| - 1;
      assert (rows + more)[..|rows + more| - 1] == rows + more[..n];
      WithMoreRows(p, rows, more[..n], tr);
    }
  }

  /** The row of a store that a cell makes: flags count as 1 and 0, and nulls,
      NaN, text and missing cells have no value. */
  lemma RowOfCell(chunks: seq<Chunk>, column: nat, k: nat, i: nat)
    requires k < |chunks| && i < |chunks[k].t|
    ensures var at, all := |RowsOf(chunks[..k], column)| + i, RowsOf(chunks, column);
            && at < |all| && all[at].0 == chunks[k].t[i]
            && all[at].1 == (if column >= |chunks[k].cols| || i >= |chunks[k].cols[column]| then Gap
                             else match chunks[k].cols[column][i]
                                  case Number(r) => Val(r)
                                  case Flag(true) => Val(1.0)
                                  case Flag(false) => Val(0.0)
                                  case _ => Gap)
    decreases chunks
  {
    var n := |chunks| - 1;
    if k < n {
      assert chunks[..n][..k] == chunks[..k];
      RowOfCell(chunks[..n], column, k, i);
    }
  }

  /** How row `i` is drawn. Its x is in seconds: row time plus offset minus
      origin, each saturated. Its y, if it has a value, is the value times the
      multiplier, counted from that product of the first row with a value. */
  lemma PointAt(rows: seq<Row>, tr: Transform, i: nat)
    requires i < |rows|
    ensures var p := Traced(rows, tr);
            && |p.xy| == 2 * |rows| && p.xy[2 * i].Val?
            && (var low, high := -0x8000_0000_0000_0000, 0x7FFF_FFFF_FFFF_FFFF;
                var shifted := rows[i].0 + tr.offsetUs;
                var time := if shifted < low then low else if shifted > high then high else shifted;
                var since := time - tr.originUs;
                var x := if since < low then low else if since > high then high else since;
                p.xy[2 * i].r * 1000000.0 == x as real)
            && (rows[i].1.Val? && tr.multiplier.Val? ==>
                  && p.xy[2 * i + 1].Val? && p.yOrigin.Some?
                  && p.xy[2 * i + 1].r + p.yOrigin.value == rows[i].1.r * tr.multiplier.r
                  && ((forall j :: 0 <= j < i ==> rows[j].1.Gap?) ==>
                        p.yOrigin == Some(rows[i].1.r * tr.multiplier.r)))
            && (rows[i].1.Gap? || tr.multiplier.Gap? ==> p.xy[2 * i + 1].Gap?)
  {
    PointOf(rows, tr, i);
    if rows[i].1.Val? && tr.multiplier.Val? {
      OriginSet(rows, tr, i);
      if forall j :: 0 <= j < i ==> rows[j].1.Gap? {
        OriginIsFirst(rows, tr, i);
      }
    }
  }

  lemma {:induction false} OriginIsFirst(rows: seq<Row>, tr: Transform, i: nat)
    requires i < |rows| && Times(rows[i].1, tr.multiplier).Val? && forall j :: 0 <= j < i ==> rows[j].1.Gap?
    ensures Traced(rows, tr).yOrigin == Some(Times(rows[i].1, tr.multiplier).r)
  {
    var n := |rows| - 1;
    if i < n {
      OriginIsFirst(rows[..n], tr, i);
    } else {
      NoOriginYet(rows[..n], tr);
    }
  }

  lemma {:induction false} NoOriginYet(rows: seq<Row>, tr: Transform)
    requires forall j :: 0 <= j < |rows| ==> rows[j].1.Gap?
    ensures Traced(rows, tr).yOrigin == None
  {
    if rows != [] {
      NoOriginYet(rows[..|rows| - 1], tr);
    }
  }

  lemma {:induction false} PointOf(rows: seq<Row>, tr: Transform, i: nat)
    requires i < |rows|
    ensures var p := Traced(rows, tr);
            && |p.xy| == 2 * |rows|
            && p.xy[2 * i] == Val(XOf(rows[i].0, tr))
            && p.xy[2 * i + 1] == Minus(Times(rows[i].1, tr.multiplier), p.yOrigin)
  {
    LengthOf(rows, tr);
    var n := |rows| - 1;
    var before := Traced(rows[..n], tr);
    LengthOf(rows[..n], tr);
    if i < n {
      PointOf(rows[..n], tr, i);
      if Times(rows[i].1, tr.multiplier).Val? {
        OriginSet(rows[..n], tr, i);
      }
    }
  }

  lemma {:induction false} LengthOf(rows: seq<Row>, tr: Transform)
    ensures |Traced(rows, tr).xy| == 2 * |rows|
  {
    if rows != [] {
      LengthOf(rows[..|rows| - 1], tr);
    }
  }

  /** Once a row has a value the origin is known. */
  lemma {:induction false} OriginSet(rows: seq<Row>, tr: Transform, i: nat)
    requires i < |rows| && Times(rows[i].1, tr.multiplier).Val?
    ensures Traced(rows, tr).yOrigin.Some?
  {
    if i < |rows| - 1 {
      OriginSet(rows[..|rows| - 1], tr, i);
    }
  }

  // ----- The cache -----

  datatype TraceSource = TraceSource(store: TopicStore, column: nat, offsetUs: int, multiplier: Num)

  function ResolveTrace(s: Snapshot, field: nat): Option<TraceSource> {
    var entry := FieldOf(s, field);
    if entry.None? || entry.value.removed then None
    else
      var topic := TopicOf(s, entry.value.topic);
      if topic.None? || topic.value.entry.removed || topic.value.store.None? then None
      else
        var source := SourceOf(s, topic.value.entry.source);
        var store := topic.value.store.value;
        var column := FieldIndex(store.schema.fields, entry.value.name);
        if source.None? || column == |store.schema.fields| then None
        else Some(TraceSource(store, column, source.value.entry.offsetUs, store.schema.fields[column].multiplier))
  }

  /** `TopicStore::rows` counts the rows of the chunks. */
  predicate RowsExact(s: TopicStore) {
    s.rows == |RowsOf(s.chunks, 0)|
  }

  lemma {:induction false} SameLength(chunks: seq<Chunk>, k: nat, l: nat)
    ensures |RowsOf(chunks, k)| == |RowsOf(chunks, l)|
  {
    if chunks != [] {
      SameLength(chunks[..|chunks| - 1], k, l);
    }
  }

  lemma OneRowMore(rows: seq<Row>, start: nat, i: nat)
    requires start <= i < |rows|
    ensures var now := rows[start..i + 1]; |now| > 0 && now[..|now| - 1] == rows[start..i] && now[|now| - 1] == rows[i]
  {
  }

  method AppendChunk(p: Points, c: Chunk, column: nat, tr: Transform, start: nat) returns (r: Points)
    requires start <= |c.t|
    ensures r == WithRows(p, RowsOfChunk(c, column)[start..], tr)
  {
    r := p;
    ghost var rows := RowsOfChunk(c, column);
    for i := start to |c.t|
      invariant r == WithRows(p, rows[start..i], tr)
    {
      OneRowMore(rows, start, i);
      var x := XOf(c.t[i], tr);
      var y := Times(CellAt(c, column, i), tr.multiplier);
      var base := if r.yOrigin.None? && y.Val? then Some(y.r) else r.yOrigin;
      r := Points(r.xy + [Val(x), Minus(y, base)], base);
    }
    assert rows[start..|c.t|] == rows[start..];
  }

  class TraceCache {
    var xy: seq<Num>
    var yOrigin: Option<real>
    const originUs: int
    const offsetUs: int
    var builtRows: nat
    const pyramid: MinMaxPyramid

    /** This is the cache of the given rows. */
    ghost predicate Holds(rows: seq<Row>, multiplier: Num)
      reads this, pyramid
    {
      && Points(xy, yOrigin) == Traced(rows, Transform(offsetUs, originUs, multiplier))
      && builtRows == |rows|
      && pyramid.stride == 2 && pyramid.offset == 1
      && pyramid.Covers(xy)
    }

    /** Builds the cache of a resolved field. */
    constructor (r: TraceSource, originUs: int)
      requires RowsExact(r.store)
      ensures this.originUs == originUs && offsetUs == r.offsetUs
      ensures Holds(RowsOf(r.store.chunks, r.column), r.multiplier) && fresh(pyramid)
    {
      this.originUs, offsetUs := originUs, r.offsetUs;
      var chunks, tr := r.store.chunks, Transform(r.offsetUs, originUs, r.multiplier);
      var p := Points([], None);
      for k := 0 to |chunks|
        invariant p == Traced(RowsOf(chunks[..k], r.column), tr)
      {
        assert chunks[..k + 1][..k] == chunks[..k];
        WithMoreRows(Points([], None), RowsOf(chunks[..k], r.column), RowsOfChunk(chunks[k], r.column), tr);
        assert RowsOfChunk(chunks[k], r.column)[0..] == RowsOfChunk(chunks[k], r.column);
        p := AppendChunk(p, chunks[k], r.column, tr, 0);
      }
      assert chunks[..|chunks|] == chunks;
      SameLength(chunks, 0, r.column);
      xy, yOrigin := p.xy, p.yOrigin;
      builtRows := r.store.rows;
      pyramid := new MinMaxPyramid(2, 1);
      new;
      pyramid.Rebuild(xy);
    }

    /** Appends the rows after the first `builtRows`. When the store has grown
        by appended rows, the result is that of a new build. */
    method Append(r: TraceSource, ghost rows: seq<Row>) returns (added: bool)
      requires Holds(rows, r.multiplier) && RowsExact(r.store) && r.offsetUs == offsetUs
      requires rows <= RowsOf(r.store.chunks, r.column)
      modifies this, pyramid
      ensures added <==> rows != RowsOf(r.store.chunks, r.column)
      ensures Holds(RowsOf(r.store.chunks, r.column), r.multiplier)
    {
      ghost var all := RowsOf(r.store.chunks, r.column);
      SameLength(r.store.chunks, 0, r.column);
      if r.store.rows <= builtRows {
        assert rows == all;
        return false;
      }
      ghost var before := xy;
      var p := AppendNewRows(r.store.chunks, r.column, Transform(offsetUs, originUs, r.multiplier), Points(xy, yOrigin),
                             builtRows, rows);
      xy, yOrigin := p.xy, p.yOrigin;
      pyramid.Extend(xy, before);
      builtRows := r.store.rows;
      added := true;
    }
  }

  /** Skips the first `built` rows and appends the others. */
  method AppendNewRows(chunks: seq<Chunk>, column: nat, tr: Transform, p: Points, built: nat, ghost rows: seq<Row>)
    returns (r: Points)
    requires p == Traced(rows, tr) && built == |rows| && rows <= RowsOf(chunks, column)
    ensures r == Traced(RowsOf(chunks, column), tr) && p.xy <= r.xy
  {
    r := p;
    var consumed := 0;
    ghost var all := RowsOf(chunks, column);
    for k := 0 to |chunks|
      invariant consumed == |RowsOf(chunks[..k], column)|
      invariant r == Traced(Longer(rows, RowsOf(chunks[..k], column)), tr)
      invariant p.xy <= r.xy
    {
      assert chunks[..k + 1][..k] == chunks[..k];
      var c := chunks[k];
      ghost var done := RowsOf(chunks[..k], column);
      PrefixOfAll(chunks, k, column);
      PrefixOfAll(chunks, k + 1, column);
      assert RowsOf(chunks[..k + 1], column) == done + RowsOfChunk(c, column);
      if consumed + |c.t| > built {
        var start := if built > consumed then built - consumed else 0;
        Rest(rows, all, done, RowsOfChunk(c, column), start);
        WithMoreRows(Points([], None), Longer(rows, done), RowsOfChunk(c, column)[start..], tr);
        XyGrows(r, RowsOfChunk(c, column)[start..], tr);
        r := AppendChunk(r, c, column, tr, start);
      } else {
        Covered(rows, all, done, RowsOfChunk(c, column));
      }
      consumed := consumed + |c.t|;
    }
    assert chunks[..|chunks|] == chunks;
    assert Longer(rows, all) == all;
  }

  lemma Covered(rows: seq<Row>, all: seq<Row>, done: seq<Row>, next: seq<Row>)
    requires rows <= all && done <= all && done + next <= all && |done| + |next| <= |rows|
    ensures Longer(rows, done + next) == rows == Longer(rows, done)
  {
    if |done| == |rows| {
      assert done == all[..|rows|] == rows;
    }
  }

  ghost function Longer(a: seq<Row>, b: seq<Row>): seq<Row> {
    if |a| < |b| then b else a
  }

  lemma {:induction false} PrefixOfAll(chunks: seq<Chunk>, k: nat, column: nat)
    requires k <= |chunks|
    ensures RowsOf(chunks[..k], column) <= RowsOf(chunks, column)
  {
    if k < |chunks| {
      assert chunks[..|chunks| - 1][..k] == chunks[..k];
      PrefixOfAll(chunks[..|chunks| - 1], k, column);
    } else {
      assert chunks[..k] == chunks;
    }
  }

  /** The rows of the next chunk from `start` on are those still missing. */
  lemma Rest(rows: seq<Row>, all: seq<Row>, done: seq<Row>, next: seq<Row>, start: nat)
    requires rows <= all && done <= all && done + next <= all
    requires |done| + |next| > |rows|
    requires start == if |rows| > |done| then |rows| - |done| else 0
    ensures start <= |next|
    ensures Longer(rows, done) + next[start..] == done + next == Longer(rows, done + next)
  {
  }

  lemma {:induction false} XyGrows(p: Points, rows: seq<Row>, tr: Transform)
    ensures p.xy <= WithRows(p, rows, tr).xy
  {
    if rows != [] {
      XyGrows(p, rows[..|rows| - 1], tr);
    }
  }
}
