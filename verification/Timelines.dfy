/** On which timelines the nodes put their values: when one timeline means one
    sequence of times. */
module Timelines {
  import opened Prelude
  import opened GraphModel
  import opened Storage
  import opened Evaluator

  // ----- What is to be shown -----

  predicate WellFormed(s: Signal) {
    |s.t| == |s.v| && SortedTimes(s.t)
  }

  // ----- The times of each timeline -----

  type Clock = map<TimelineId, seq<int>>

  ghost predicate Dated(v: Value, c: Clock) {
    v.SignalValue? ==> WellFormed(v.signal) && v.signal.timeline in c && c[v.signal.timeline] == v.signal.t
  }

  ghost predicate AllDated(vs: seq<Value>, c: Clock) {
    forall i :: 0 <= i < |vs| ==> Dated(vs[i], c)
  }

  ghost predicate Continues(c: Clock, later: Clock) {
    forall k :: k in c ==> k in later && later[k] == c[k]
  }

  /** Topic timelines have the topic's times, and nodes that are not done have none. */
  ghost predicate Keeps(env: Env, done: set<NodeId>, c: Clock) {
    && (forall topic :: TopicTimeline(topic) in c ==> Some(c[TopicTimeline(topic)]) == TopicTimes(env, topic))
    && (forall id, port :: OutputTimeline(id, port) in c ==> id in done)
  }

  // ----- Reading a field -----

  function SameNum(x: Num): Num {
    x
  }

  /** The times of a topic's rows, whatever the column. */
  ghost function TopicTimes(env: Env, id: nat): Option<seq<int>> {
    var topic := TopicOf(env.snapshot, id);
    var range := if env.window.Some? then env.window else env.snapshot.globalRange;
    if topic.None? || topic.value.store.None? || SourceOf(env.snapshot, topic.value.entry.source).None? then None
    else if range.None? then Some([])
    else
      var offset := SourceOf(env.snapshot, topic.value.entry.source).value.entry.offsetUs;
      var rows := StoreRows(topic.value.store.value.chunks, range.value, 0, offset, env.window, SameNum);
      if rows.None? then None
      else if SortedTimes(Times(rows.value)) then Some(Times(rows.value))
      else Some(Times(SortedRows(rows.value)))
  }

  ghost predicate SameTimes(a: Option<seq<Row>>, b: Option<seq<Row>>) {
    a.Some? == b.Some? && (a.Some? ==> Times(a.value) == Times(b.value))
  }

  lemma TimesOfBoth(a: seq<Row>, b: seq<Row>, c: seq<Row>, d: seq<Row>)
    requires Times(a) == Times(c) && Times(b) == Times(d)
    ensures Times(a + b) == Times(c + d)
  {
    assert |a| == |Times(a)| == |c| && |b| == |Times(b)| == |d|;
    forall i | 0 <= i < |a + b|
      ensures (a + b)[i].0 == (c + d)[i].0
    {
      if i < |a| {
        assert Times(a)[i] == Times(c)[i];
      } else {
        assert Times(b)[i - |a|] == Times(d)[i - |a|];
      }
    }
  }

  lemma {:induction false} ChunkTimes(c: Chunk, n: nat, k: nat, l: nat, offset: int, window: Option<TimeRange>,
                                      f: Num -> Num, g: Num -> Num)
    requires n <= |c.t|
    ensures SameTimes(ChunkRows(c, n, k, offset, window, f), ChunkRows(c, n, l, offset, window, g))
  {
    if n > 0 {
      ChunkTimes(c, n - 1, k, l, offset, window, f, g);
      var a, b := ChunkRows(c, n - 1, k, offset, window, f), ChunkRows(c, n - 1, l, offset, window, g);
      if a.Some? {
        forall x: Row, y: Row | x.0 == y.0
          ensures Times(a.value + [x]) == Times(b.value + [y])
        {
          TimesOfBoth(a.value, [x], b.value, [y]);
        }
      }
    }
  }

  lemma {:induction false} StoreTimes(chunks: seq<Chunk>, range: TimeRange, k: nat, l: nat, offset: int,
                                      window: Option<TimeRange>, f: Num -> Num, g: Num -> Num)
    ensures SameTimes(StoreRows(chunks, range, k, offset, window, f), StoreRows(chunks, range, l, offset, window, g))
  {
    if chunks != [] {
      var n := |chunks| - 1;
      var c := chunks[n];
      StoreTimes(chunks[..n], range, k, l, offset, window, f, g);
      ChunkTimes(c, |c.t|, k, l, offset, window, f, g);
      var a, b := StoreRows(chunks[..n], range, k, offset, window, f),
        StoreRows(chunks[..n], range, l, offset, window, g);
      var x, y := ChunkRows(c, |c.t|, k, offset, window, f), ChunkRows(c, |c.t|, l, offset, window, g);
      if a.Some? && x.Some? {
        TimesOfBoth(a.value, x.value, b.value, y.value);
      }
    }
  }

  lemma {:induction false} PlacedTimes(a: seq<Row>, b: seq<Row>, x: Row, y: Row)
    requires Times(a) == Times(b) && x.0 == y.0
    ensures Times(PlacedRow(a, x)) == Times(PlacedRow(b, y))
  {
    assert |a| == |Times(a)| == |b|;
    if a != [] {
      var n := |a| - 1;
      assert Times(a)[n] == Times(b)[n];
      assert Times(a[..n]) == Times(a)[..n] && Times(b[..n]) == Times(b)[..n];
      PlacedTimes(a[..n], b[..n], x, y);
      TimesOfBoth(PlacedRow(a[..n], x), [a[n]], PlacedRow(b[..n], y), [b[n]]);
      TimesOfBoth(a, [x], b, [y]);
    }
  }

  lemma {:induction false} SortingTimes(a: seq<Row>, b: seq<Row>)
    requires Times(a) == Times(b)
    ensures Times(SortedRows(a)) == Times(SortedRows(b))
  {
    assert |a| == |Times(a)| == |b|;
    if a != [] {
      var n := |a| - 1;
      assert Times(a)[n] == Times(b)[n];
      assert Times(a[..n]) == Times(a)[..n] && Times(b[..n]) == Times(b)[..n];
      SortingTimes(a[..n], b[..n]);
      PlacedTimes(SortedRows(a[..n]), SortedRows(b[..n]), a[n], b[n]);
    }
  }

  lemma {:induction false} PlacedIsSorted(s: seq<Row>, x: Row)
    requires SortedTimes(Times(s))
    ensures SortedTimes(Times(PlacedRow(s, x)))
    ensures forall y: Row :: y in PlacedRow(s, x) <==> y in s || y == x
  {
    if s != [] {
      var n := |s| - 1;
      assert Times(s[..n]) == Times(s)[..n];
      assert s == s[..n] + [s[n]];
      if s[n].0 <= x.0 {
        assert forall i :: 0 <= i < n ==> Times(s)[i] <= Times(s)[n];
      } else {
        PlacedIsSorted(s[..n], x);
        var r := PlacedRow(s[..n], x);
        forall i | 0 <= i < |r|
          ensures r[i].0 <= s[n].0
        {
          if r[i] in s[..n] {
            var j :| 0 <= j < n && s[j] == r[i];
            assert Times(s)[j] <= Times(s)[n];
          }
        }
        LastIsLargest(r, s[n]);
      }
    }
  }

  lemma LastIsLargest(r: seq<Row>, x: Row)
    requires SortedTimes(Times(r)) && forall i :: 0 <= i < |r| ==> r[i].0 <= x.0
    ensures SortedTimes(Times(r + [x]))
  {
    assert forall i :: 0 <= i < |r| ==> Times(r + [x])[i] == Times(r)[i];
  }

  /** The sort sorts, and keeps every row. */
  lemma {:induction false} SortingSorts(rows: seq<Row>)
    ensures SortedTimes(Times(SortedRows(rows)))
    ensures multiset(SortedRows(rows)) == multiset(rows)
  {
    if rows != [] {
      var n := |rows| - 1;
      SortingSorts(rows[..n]);
      PlacedIsSorted(SortedRows(rows[..n]), rows[n]);
      PlacedKeeps(SortedRows(rows[..n]), rows[n]);
      assert rows == rows[..n] + [rows[n]];
    }
  }

  lemma {:induction false} PlacedKeeps(s: seq<Row>, x: Row)
    ensures multiset(PlacedRow(s, x)) == multiset(s) + multiset{x}
  {
    if s != [] {
      var n := |s| - 1;
      PlacedKeeps(s[..n], x);
      assert s == s[..n] + [s[n]];
    }
  }

  /** The rows of one time, in their order. */
  function OfTime(rows: seq<Row>, t: int): seq<Row> {
    if rows == [] then []
    else
      var n := |rows| - 1;
      OfTime(rows[..n], t) + if rows[n].0 == t then [rows[n]] else []
  }

  lemma {:induction false} PlacedIsStable(s: seq<Row>, x: Row, t: int)
    ensures OfTime(PlacedRow(s, x), t) == OfTime(s, t) + if x.0 == t then [x] else []
  {
    var r := PlacedRow(s, x);
    if s == [] || s[|s| - 1].0 <= x.0 {
      assert r == s + [x] && r[..|r| - 1] == s;
    } else {
      var n := |s| - 1;
      PlacedIsStable(s[..n], x, t);
      assert r[..|r| - 1] == PlacedRow(s[..n], x) && r[|r| - 1] == s[n];
    }
  }

  /** Rows of one time stay in their order. */
  lemma {:induction false} SortingIsStable(rows: seq<Row>, t: int)
    ensures OfTime(SortedRows(rows), t) == OfTime(rows, t)
  {
    if rows != [] {
      var n := |rows| - 1;
      SortingIsStable(rows[..n], t);
      PlacedIsStable(SortedRows(rows[..n]), rows[n], t);
    }
  }

  /** Field ids are positions, as the registry gives them out. */
  predicate DenseFields(snap: Snapshot) {
    forall i :: 0 <= i < |snap.fields| ==> snap.fields[i].id == i
  }

  lemma ResolvedTopic(snap: Snapshot, s: FieldSelector)
    requires DenseFields(snap) && Resolve(snap, s).Some?
    ensures var r := Resolve(snap, s).value;
            FieldOf(snap, r.field).Some? && FieldOf(snap, r.field).value.topic == r.topic
  {
  }

  lemma FieldTimes(env: Env, r: Resolved)
    requires FieldOf(env.snapshot, r.field).Some? && FieldOf(env.snapshot, r.field).value.topic == r.topic
    requires ReadField(env.snapshot, r.field, r.multiplier, env.window, env.arith).Some?
    ensures var rows := ReadField(env.snapshot, r.field, r.multiplier, env.window, env.arith).value;
            TopicTimes(env, r.topic) == Some(Times(rows)) && SortedTimes(Times(rows))
  {
    var view := ViewOf(env.snapshot, r.field).value;
    var range := if env.window.Some? then env.window else env.snapshot.globalRange;
    if range.Some? {
      var f := Scaled(env.arith, r.multiplier);
      var a := StoreRows(view.store.chunks, range.value, view.column, view.offsetUs, env.window, f);
      var b := StoreRows(view.store.chunks, range.value, 0, view.offsetUs, env.window, SameNum);
      StoreTimes(view.store.chunks, range.value, view.column, 0, view.offsetUs, env.window, f, SameNum);
      SortingTimes(a.value, b.value);
      SortingSorts(a.value);
    }
  }

  // ----- Kernels and scripts -----

  lemma KernelIsDated(k: NodeKind, inputs: seq<Value>, arith: Arithmetic, c: Clock)
    requires AllDated(inputs, c) && EvaluateKernel(k, inputs, arith).Ok?
    ensures Dated(EvaluateKernel(k, inputs, arith).value.0, c)
  {
    assert |inputs| > 0 ==> Dated(inputs[0], c);
    assert |inputs| > 1 ==> Dated(inputs[1], c);
  }

  lemma {:induction false} FirstIsDated(values: seq<Value>, c: Clock)
    requires AllDated(values, c) && FirstSignal(values).Some?
    ensures Dated(SignalValue(FirstSignal(values).value), c)
  {
    if !values[0].SignalValue? {
      FirstIsDated(values[1..], c);
    }
  }

  lemma {:induction false} FoundIsDated(values: seq<Value>, times: seq<int>, c: Clock)
    requires AllDated(values, c) && WithTimes(values, times).Some?
    ensures Dated(SignalValue(WithTimes(values, times).value), c) && WithTimes(values, times).value.t == times
  {
    if !(values[0].SignalValue? && values[0].signal.t == times) {
      FoundIsDated(values[1..], times, c);
    }
  }

  lemma AllContinue(vs: seq<Value>, c: Clock, later: Clock)
    requires AllDated(vs, c) && Continues(c, later)
    ensures AllDated(vs, later)
  {
    forall i | 0 <= i < |vs|
      ensures Dated(vs[i], later)
    {
      assert Dated(vs[i], c);
    }
  }

  /** Only timelines of node `id` are new. */
  ghost predicate OnlyOwn(id: NodeId, c: Clock, later: Clock) {
    Continues(c, later) && forall k :: k in later && k !in c ==> k.OutputTimeline? && k.node == id
  }

  // ----- The outputs of one script -----

  /** The outputs that a script gave node `id`, about to be put on timelines. */
  datatype Binding = Binding(id: NodeId, outputs: seq<PortField>, inputs: seq<Value>, raw: seq<ScriptOutput>) {
    predicate Valid() {
      |raw| == |outputs|
    }

    /** The first `n` outputs, on their timelines. */
    function Bound(n: nat): Option<seq<Value>>
      requires Valid() && n <= |raw|
    {
      BoundOutputs(id, outputs, inputs, raw, n)
    }

    /** Output `i` brings times that neither an input nor an earlier output has. */
    predicate Brings(i: nat)
      requires Valid() && i < |raw|
    {
      && raw[i].times.Some? && WithTimes(inputs, raw[i].times.value).None?
      && Bound(i).Some? && WithTimes(Bound(i).value, raw[i].times.value).None?
    }

    /** No two of the first `n` outputs that bring times are a multiple of 2^16
        apart. */
    predicate KeepsApart(n: nat)
      requires Valid() && n <= |raw|
    {
      forall i, j :: 0 <= i < j < n && Brings(i) && Brings(j) ==> i % U16_RANGE != j % U16_RANGE
    }

    /** The node's own timelines are those of outputs that bring times. */
    ghost predicate OwnFrom(n: nat, c: Clock)
      requires Valid() && n <= |raw|
    {
      forall port :: OutputTimeline(id, port) in c ==> exists i :: 0 <= i < n && Brings(i) && i % U16_RANGE == port
    }
  }

  lemma OutputIsDated(b: Binding, n: nat, units: Option<string>, c: Clock) returns (later: Clock)
    requires b.Valid() && n < |b.raw| && b.KeepsApart(n + 1) && b.Bound(n).Some?
    requires AllDated(b.inputs, c) && AllDated(b.Bound(n).value, c) && b.OwnFrom(n, c)
    requires OutputTimes(b.id, b.inputs, b.Bound(n).value, b.raw[n]).Some?
    ensures OnlyOwn(b.id, c, later) && b.OwnFrom(n + 1, later)
    ensures var (timeline, t) := OutputTimes(b.id, b.inputs, b.Bound(n).value, b.raw[n]).value;
            Dated(SignalValue(Signal(t, b.raw[n].values, timeline, units)), later)
  {
    later := c;
    var bound, out := b.Bound(n).value, b.raw[n];
    if out.times.None? {
      FirstIsDated(b.inputs, c);
    } else if WithTimes(b.inputs, out.times.value).Some? {
      FoundIsDated(b.inputs, out.times.value, c);
    } else if WithTimes(bound, out.times.value).Some? {
      FoundIsDated(bound, out.times.value, c);
    } else {
      assert b.Brings(n);
      assert OutputTimeline(b.id, n % U16_RANGE) !in c;
      later := c[OutputTimeline(b.id, n % U16_RANGE) := out.times.value];
    }
  }

  lemma {:induction false} ScriptIsDated(b: Binding, n: nat, c: Clock) returns (later: Clock)
    requires b.Valid() && n <= |b.raw| && b.KeepsApart(n) && b.Bound(n).Some?
    requires AllDated(b.inputs, c) && b.OwnFrom(0, c)
    ensures OnlyOwn(b.id, c, later) && b.OwnFrom(n, later)
    ensures AllDated(b.Bound(n).value, later)
  {
    later := c;
    if n > 0 {
      var before := ScriptIsDated(b, n - 1, c);
      var bound := b.Bound(n - 1).value;
      AllContinue(b.inputs, c, before);
      var units := if b.outputs[n - 1].units.Some? then b.outputs[n - 1].units else b.raw[n - 1].units;
      later := OutputIsDated(b, n - 1, units, before);
      AllContinue(bound, before, later);
    }
  }

  lemma {:induction false} OwnTimeline(b: Binding, n: nat, i: nat)
    requires b.Valid() && i < n <= |b.raw| && b.Bound(n).Some? && b.Brings(i)
    ensures var v := b.Bound(n).value[i];
            && v.SignalValue? && v.signal.timeline == OutputTimeline(b.id, i % U16_RANGE)
            && v.signal.t == b.raw[i].times.value
  {
    if i < n - 1 {
      OwnTimeline(b, n - 1, i);
    }
  }

  lemma {:induction false} NotAmong(values: seq<Value>, times: seq<int>, i: nat)
    requires WithTimes(values, times).None? && i < |values| && values[i].SignalValue?
    ensures values[i].signal.t != times
  {
    if i > 0 {
      NotAmong(values[1..], times, i - 1);
    }
  }

  /** Two outputs that both bring times, a multiple of 2^16 apart, end up on
      one timeline with different times. */
  lemma WrappedTimelines(b: Binding, i: nat, j: nat)
    requires b.Valid() && i < j < |b.raw| && i % U16_RANGE == j % U16_RANGE
    requires b.Bound(|b.raw|).Some? && b.Brings(i) && b.Brings(j)
    ensures var bound := b.Bound(|b.raw|).value;
            && bound[i].SignalValue? && bound[j].SignalValue?
            && bound[i].signal.timeline == bound[j].signal.timeline
            && bound[i].signal.t != bound[j].signal.t
  {
    OwnTimeline(b, |b.raw|, i);
    OwnTimeline(b, |b.raw|, j);
    OwnTimeline(b, j, i);
    NotAmong(b.Bound(j).value, b.raw[j].times.value, i);
  }

  /** Signals are sorted by time, and those of one timeline share their times. */
  ghost predicate OneTimeEach(vs: seq<Value>) {
    && (forall i :: 0 <= i < |vs| && vs[i].SignalValue? ==> WellFormed(vs[i].signal))
    && (forall i, j :: 0 <= i < |vs| && 0 <= j < |vs| && vs[i].SignalValue? && vs[j].SignalValue? ==>
          vs[i].signal.timeline == vs[j].signal.timeline ==> vs[i].signal.t == vs[j].signal.t)
  }

  lemma {:induction false} ClockOf(vs: seq<Value>) returns (c: Clock)
    requires OneTimeEach(vs)
    ensures AllDated(vs, c)
    ensures forall k :: k in c ==> exists i :: 0 <= i < |vs| && vs[i].SignalValue? && vs[i].signal.timeline == k
  {
    c := map[];
    if vs != [] {
      var n := |vs| - 1;
      var before := ClockOf(vs[..n]);
      c := if vs[n].SignalValue? then before[vs[n].signal.timeline := vs[n].signal.t] else before;
      forall i | 0 <= i < n
        ensures Dated(vs[i], c)
      {
        assert Dated(vs[..n][i], before);
      }
      forall k | k in c
        ensures exists i :: 0 <= i < |vs| && vs[i].SignalValue? && vs[i].signal.timeline == k
      {
        if k in before {
          var i :| 0 <= i < n && vs[..n][i].SignalValue? && vs[..n][i].signal.timeline == k;
          assert vs[i].signal.timeline == k;
        }
      }
    }
  }

  lemma DatedIsOneTimeEach(vs: seq<Value>, c: Clock)
    requires AllDated(vs, c)
    ensures OneTimeEach(vs)
  {
    assert forall i :: 0 <= i < |vs| ==> Dated(vs[i], c);
  }

  /** A script's outputs, next to its inputs, are on one sequence of times for
      each timeline exactly when no two outputs that bring times are a multiple
      of 2^16 apart. */
  lemma WrapsExactly(b: Binding)
    requires b.Valid() && b.Bound(|b.raw|).Some? && OneTimeEach(b.inputs)
    requires forall i :: 0 <= i < |b.inputs| && b.inputs[i].SignalValue? ==>
               var timeline := b.inputs[i].signal.timeline; timeline.OutputTimeline? ==> timeline.node != b.id
    ensures OneTimeEach(b.inputs + b.Bound(|b.raw|).value) <==> b.KeepsApart(|b.raw|)
  {
    var bound := b.Bound(|b.raw|).value;
    if b.KeepsApart(|b.raw|) {
      var c := ClockOf(b.inputs);
      var later := ScriptIsDated(b, |b.raw|, c);
      AllContinue(b.inputs, c, later);
      DatedIsOneTimeEach(b.inputs + bound, later);
    } else {
      var i, j :| 0 <= i < j < |b.raw| && b.Brings(i) && b.Brings(j) && i % U16_RANGE == j % U16_RANGE;
      WrappedTimelines(b, i, j);
      var k, l := |b.inputs| + i, |b.inputs| + j;
      assert (b.inputs + bound)[k] == bound[i] && (b.inputs + bound)[l] == bound[j];
    }
  }
}
