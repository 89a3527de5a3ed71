/** The filter between decoded ArduPilot records and the writer: each topic
    holds one row back, and commits it only when the next is not earlier. */
module CommitFilter {
  import opened Prelude
  import opened Storage

  const BATCH_ROWS: nat := 8192
  const START_SKEW_US: int := 1_000_000
  const MAX_LOG_SPAN_US: int := 24 * 60 * 60 * 1_000_000
  const MAX_PLAUSIBLE_TIME_US: int := 100_000_000_000_000

  datatype Row = Row(t: int, payload: seq<nat>)

  type Tagged = (string, Row)

  // ----- One topic -----

  /** Rows committed, rows dropped, and the one held back. */
  datatype Filter = Filter(committed: seq<Row>, dropped: seq<Row>, pending: Option<Row>)

  function LastTime(rows: seq<Row>): Option<int> {
    if rows == [] then None else Some(rows[|rows| - 1].t)
  }

  predicate NotBefore(t: int, last: Option<int>) {
    last.None? || t >= last.value
  }

  /** A topic's rows in the window, filtered one by one. */
  function Filtered(rows: seq<Row>): Filter {
    if rows == [] then Filter([], [], None)
    else
      var n := |rows| - 1;
      var f := Filtered(rows[..n]);
      if f.pending.None? then f.(pending := Some(rows[n]))
      else if NotBefore(f.pending.value.t, LastTime(f.committed)) && f.pending.value.t <= rows[n].t
      then Filter(f.committed + [f.pending.value], f.dropped, Some(rows[n]))
      else Filter(f.committed, f.dropped + [f.pending.value], Some(rows[n]))
  }

  predicate InOrder(rows: seq<Row>) {
    forall i, j :: 0 <= i < j < |rows| ==> rows[i].t <= rows[j].t
  }

  function AsSeq(p: Option<Row>): seq<Row> {
    if p.Some? then [p.value] else []
  }

  /** The held row is the newest; every other row is committed or dropped; and
      committed times never decrease. */
  lemma {:induction false} FilterAccounts(rows: seq<Row>)
    ensures Accounts(rows, Filtered(rows)) && InOrder(Filtered(rows).committed)
  {
    if rows != [] {
      var n := |rows| - 1;
      FilterAccounts(rows[..n]);
      OneMoreAccounted(rows[..n], rows[n], Filtered(rows[..n]));
      assert rows == rows[..n] + [rows[n]];
      StaysInOrder(Filtered(rows[..n]).committed, Filtered(rows[..n]).pending);
    }
  }

  ghost predicate Accounts(rows: seq<Row>, f: Filter) {
    && f.pending == (if rows == [] then None else Some(rows[|rows| - 1]))
    && multiset(rows) == multiset(f.committed) + multiset(f.dropped) + multiset(AsSeq(f.pending))
  }

  lemma OneMoreAccounted(rows: seq<Row>, row: Row, f: Filter)
    requires Accounts(rows, f)
    ensures f.pending.None? ==> Accounts(rows + [row], f.(pending := Some(row)))
    ensures f.pending.Some? ==> Accounts(rows + [row], Filter(f.committed + [f.pending.value], f.dropped, Some(row)))
    ensures f.pending.Some? ==> Accounts(rows + [row], Filter(f.committed, f.dropped + [f.pending.value], Some(row)))
  {
  }

  lemma StaysInOrder(rows: seq<Row>, p: Option<Row>)
    requires InOrder(rows)
    ensures p.Some? && NotBefore(p.value.t, LastTime(rows)) ==> InOrder(rows + [p.value])
  {
    if p.Some? && NotBefore(p.value.t, LastTime(rows)) {
      forall i, j | 0 <= i < j < |rows + [p.value]|
        ensures (rows + [p.value])[i].t <= (rows + [p.value])[j].t
      {
        if j == |rows| {
          assert rows[i].t <= rows[|rows| - 1].t;
        }
      }
    }
  }

  /** The fate of one row: before the end of the log row `i` is committed exactly
      when no row committed before is later and the next row is not earlier. */
  lemma CommittedExactly(rows: seq<Row>, i: nat)
    requires i + 1 < |rows|
    ensures var before, after := Filtered(rows[..i + 1]), Filtered(rows[..i + 2]);
            && before.pending == Some(rows[i])
            && (after.committed == before.committed + [rows[i]] <==>
                 NoneLater(before.committed, rows[i].t) && rows[i].t <= rows[i + 1].t)
            && (after.committed == before.committed + [rows[i]] || after.committed == before.committed)
  {
    FilterAccounts(rows[..i + 1]);
    NotBeforeExactly(Filtered(rows[..i + 1]).committed, rows[i].t);
    assert rows[..i + 2][..i + 1] == rows[..i + 1];
    assert Filtered(rows[..i + 1]).committed + [rows[i]] != Filtered(rows[..i + 1]).committed;
  }

  ghost predicate NoneLater(rows: seq<Row>, t: int) {
    forall i :: 0 <= i < |rows| ==> rows[i].t <= t
  }

  lemma NotBeforeExactly(rows: seq<Row>, t: int)
    requires InOrder(rows)
    ensures NotBefore(t, LastTime(rows)) <==> NoneLater(rows, t)
  {
    if rows != [] {
      assert forall i :: 0 <= i < |rows| ==> rows[i].t <= rows[|rows| - 1].t;
    }
  }

  // ----- The decoder -----

  datatype Accum = Accum(buffer: seq<Row>, pending: Option<Row>, lastCommitted: Option<int>)

  /** The decoder as a value. `seen` and `committed` record which rows passed the
      window and which were committed, in order. */
  datatype Decoder = Decoder(
    topics: map<string, Accum>, submitted: seq<Tagged>, rowCount: nat, implausible: nat,
    start: Option<int>, range: Option<TimeRange>, seen: seq<Tagged>, committed: seq<Tagged>)

  const INITIAL: Decoder := Decoder(map[], [], 0, 0, None, None, [], [])

  function SatAdd(a: int, b: int): int {
    if a + b > I64_MAX then I64_MAX else if a + b < I64_MIN then I64_MIN else a + b
  }

  predicate InWindow(start: Option<int>, t: int) {
    match start
    case None => 0 <= t <= MAX_PLAUSIBLE_TIME_US
    case Some(s) => SatAdd(t, START_SKEW_US) >= s && t <= SatAdd(s, MAX_LOG_SPAN_US)
  }

  function Included(range: Option<TimeRange>, t: int): TimeRange {
    if range.None? then TimeRange(t, t)
    else TimeRange(if range.value.minUs < t then range.value.minUs else t,
                   if range.value.maxUs > t then range.value.maxUs else t)
  }

  function AccumOf(d: Decoder, topic: string): Accum {
    if topic in d.topics then d.topics[topic] else Accum([], None, None)
  }

  /** Rows tagged with their topic. */
  function TaggedRows(topic: string, rows: seq<Row>): (r: seq<Tagged>)
    ensures |r| == |rows| && forall i :: 0 <= i < |r| ==> r[i] == (topic, rows[i])
  {
    seq(|rows|, i requires 0 <= i < |rows| => (topic, rows[i]))
  }

  /** Commits the held row. */
  function Committed(d: Decoder, topic: string, row: Row): Decoder {
    var a := AccumOf(d, topic);
    d.(topics := d.topics[topic := Accum(a.buffer + [row], None, Some(row.t))],
       rowCount := d.rowCount + 1, range := Some(Included(d.range, row.t)),
       committed := d.committed + [(topic, row)])
  }

  /** Hands the buffer over. */
  function Submitted(d: Decoder, topic: string): Decoder {
    var a := AccumOf(d, topic);
    d.(topics := d.topics[topic := a.(buffer := [])], submitted := d.submitted + TaggedRows(topic, a.buffer))
  }

  function Held(d: Decoder, topic: string, row: Row): Decoder {
    d.(topics := d.topics[topic := AccumOf(d, topic).(pending := Some(row))])
  }

  /** What becomes of the row held so far when `row` arrives. */
  function Settled(d: Decoder, topic: string, row: Row): Decoder {
    var a := AccumOf(d, topic);
    if a.pending.None? then d
    else if NotBefore(a.pending.value.t, a.lastCommitted) && a.pending.value.t <= row.t then
      var d1 := Committed(d, topic, a.pending.value);
      if |AccumOf(d1, topic).buffer| >= BATCH_ROWS then Submitted(d1, topic) else d1
    else d.(implausible := d.implausible + 1)
  }

  function Noticed(d: Decoder, topic: string, row: Row): Decoder {
    d.(start := if d.start.None? then Some(row.t) else d.start, seen := d.seen + [(topic, row)])
  }

  function Decoded(d: Decoder, topic: string, row: Row): Decoder {
    if !InWindow(d.start, row.t) then d.(implausible := d.implausible + 1)
    else Held(Settled(Noticed(d, topic, row), topic, row), topic, row)
  }

  function AllDecoded(records: seq<Tagged>): Decoder {
    if records == [] then INITIAL
    else
      var n := |records| - 1;
      Decoded(AllDecoded(records[..n]), records[n].0, records[n].1)
  }

  // ----- The end of the log -----

  predicate LastOk(a: Accum, limit: Option<int>) {
    a.pending.Some? && NotBefore(a.pending.value.t, a.lastCommitted)
    && (limit.None? || a.pending.value.t <= SatAdd(limit.value, START_SKEW_US))
  }

  function FlushedOne(d: Decoder, topic: string, limit: Option<int>): Decoder {
    if topic !in d.topics then d
    else
      var a := d.topics[topic];
      var d1 := if LastOk(a, limit) then Committed(d, topic, a.pending.value)
                else d.(topics := d.topics[topic := a.(pending := None)]);
      if AccumOf(d1, topic).buffer != [] then Submitted(d1, topic) else d1
  }

  /** The topics in the order of a hash map. */
  function FlushedAll(d: Decoder, names: seq<string>, limit: Option<int>): Decoder {
    if names == [] then d
    else FlushedOne(FlushedAll(d, names[..|names| - 1], limit), names[|names| - 1], limit)
  }

  function LimitOf(d: Decoder): Option<int> {
    if d.range.Some? then Some(d.range.value.maxUs) else None
  }

  // ----- What holds throughout -----

  function RowsOf(rows: seq<Tagged>, topic: string): seq<Row> {
    if rows == [] then []
    else
      var n := |rows| - 1;
      var before := RowsOf(rows[..n], topic);
      if rows[n].0 == topic then before + [rows[n].1] else before
  }

  lemma {:induction false} RowsOfBoth(a: seq<Tagged>, b: seq<Tagged>, topic: string)
    ensures RowsOf(a + b, topic) == RowsOf(a, topic) + RowsOf(b, topic)
  {
    if b == [] {
      assert a + b == a;
    } else {
      var n := |b| - 1;
      assert (a + b)[..|a + b| - 1] == a + b[..n];
      RowsOfBoth(a, b[..n], topic);
    }
  }

  lemma {:induction false} RowsOfTagged(topic: string, rows: seq<Row>, other: string)
    ensures RowsOf(TaggedRows(topic, rows), other) == if other == topic then rows else []
  {
    if rows != [] {
      var n := |rows| - 1;
      assert TaggedRows(topic, rows)[..n] == TaggedRows(topic, rows[..n]);
      RowsOfTagged(topic, rows[..n], other);
    }
  }

  ghost predicate IsHull(rows: seq<Tagged>, range: Option<TimeRange>) {
    && (range.None? <==> rows == [])
    && (range.Some? ==>
         && (forall i :: 0 <= i < |rows| ==> range.value.minUs <= rows[i].1.t <= range.value.maxUs)
         && (exists i :: 0 <= i < |rows| && rows[i].1.t == range.value.minUs)
         && (exists i :: 0 <= i < |rows| && rows[i].1.t == range.value.maxUs))
  }

  lemma HullIncludes(rows: seq<Tagged>, range: Option<TimeRange>, row: Tagged)
    requires IsHull(rows, range)
    ensures IsHull(rows + [row], Some(Included(range, row.1.t)))
  {
    var all := rows + [row];
    assert all[|rows|] == row;
    if range.Some? {
      var i :| 0 <= i < |rows| && rows[i].1.t == range.value.minUs;
      var j :| 0 <= j < |rows| && rows[j].1.t == range.value.maxUs;
      assert all[i] == rows[i] && all[j] == rows[j];
    }
  }

  /** Counters and buffers agree with what was committed. */
  ghost predicate Booked(d: Decoder) {
    && d.rowCount == |d.committed| && IsHull(d.committed, d.range)
    && forall t :: RowsOf(d.submitted, t) + AccumOf(d, t).buffer == RowsOf(d.committed, t)
  }

  /** Committed and held rows are what the filter makes of the rows seen. */
  ghost predicate Follows(d: Decoder) {
    forall t :: var f := Filtered(RowsOf(d.seen, t));
      && f.committed == RowsOf(d.committed, t)
      && AccumOf(d, t).pending == f.pending
      && AccumOf(d, t).lastCommitted == LastTime(f.committed)
  }

  /** All rows seen lie in the window around the first one. */
  ghost predicate Windowed(d: Decoder) {
    && (d.start.None? ==> d.seen == [])
    && (d.start.Some? ==> I64_MIN <= d.start.value <= I64_MAX
                          && forall i :: 0 <= i < |d.seen| ==>
                               InWindow(d.start, d.seen[i].1.t) && I64_MIN <= d.seen[i].1.t)
  }

  lemma CommitIsBooked(d: Decoder, topic: string, row: Row)
    requires Booked(d)
    ensures Booked(Committed(d, topic, row))
  {
    var d1 := Committed(d, topic, row);
    HullIncludes(d.committed, d.range, (topic, row));
    forall t
      ensures RowsOf(d1.submitted, t) + AccumOf(d1, t).buffer == RowsOf(d1.committed, t)
    {
      assert RowsOf(d.submitted, t) + AccumOf(d, t).buffer == RowsOf(d.committed, t);
      assert d1.committed[..|d.committed|] == d.committed;
    }
  }

  lemma SubmitIsBooked(d: Decoder, topic: string)
    requires Booked(d)
    ensures Booked(Submitted(d, topic))
  {
    var d1 := Submitted(d, topic);
    forall t
      ensures RowsOf(d1.submitted, t) + AccumOf(d1, t).buffer == RowsOf(d1.committed, t)
    {
      RowsOfBoth(d.submitted, TaggedRows(topic, AccumOf(d, topic).buffer), t);
      RowsOfTagged(topic, AccumOf(d, topic).buffer, t);
      assert RowsOf(d.submitted, t) + AccumOf(d, t).buffer == RowsOf(d.committed, t);
      assert RowsOf(d1.submitted, t) + [] == RowsOf(d1.submitted, t);
    }
  }

  lemma SettleIsBooked(d: Decoder, topic: string, row: Row)
    requires Booked(d)
    ensures Booked(Settled(d, topic, row))
  {
    var a := AccumOf(d, topic);
    if a.pending.Some? && NotBefore(a.pending.value.t, a.lastCommitted) && a.pending.value.t <= row.t {
      CommitIsBooked(d, topic, a.pending.value);
      SubmitIsBooked(Committed(d, topic, a.pending.value), topic);
    } else {
      SameBooks(d, Settled(d, topic, row));
    }
  }

  lemma SameBooks(d: Decoder, d1: Decoder)
    requires Booked(d) && d1.rowCount == d.rowCount && d1.committed == d.committed && d1.range == d.range
    requires d1.submitted == d.submitted && forall t :: AccumOf(d1, t).buffer == AccumOf(d, t).buffer
    ensures Booked(d1)
  {
    forall t
      ensures RowsOf(d1.submitted, t) + AccumOf(d1, t).buffer == RowsOf(d1.committed, t)
    {
      assert RowsOf(d.submitted, t) + AccumOf(d, t).buffer == RowsOf(d.committed, t);
    }
  }

  lemma DecodeIsBooked(d: Decoder, topic: string, row: Row)
    requires Booked(d)
    ensures Booked(Decoded(d, topic, row))
  {
    if InWindow(d.start, row.t) {
      var d1 := Noticed(d, topic, row);
      SameBooks(d, d1);
      SettleIsBooked(d1, topic, row);
      SameBooks(Settled(d1, topic, row), Decoded(d, topic, row));
    } else {
      SameBooks(d, Decoded(d, topic, row));
    }
  }

  lemma DecodeFollows(d: Decoder, topic: string, row: Row)
    requires Follows(d)
    ensures Follows(Decoded(d, topic, row))
  {
    if InWindow(d.start, row.t) {
      var d2 := Decoded(d, topic, row);
      forall t
        ensures var f := Filtered(RowsOf(d2.seen, t));
                && f.committed == RowsOf(d2.committed, t)
                && AccumOf(d2, t).pending == f.pending
                && AccumOf(d2, t).lastCommitted == LastTime(f.committed)
      {
        SettleFollows(d, topic, row, t);
      }
    } else {
      assert forall t :: AccumOf(Decoded(d, topic, row), t) == AccumOf(d, t);
    }
  }

  lemma SettleFollows(d: Decoder, topic: string, row: Row, t: string)
    requires Follows(d) && InWindow(d.start, row.t)
    ensures var d2 := Decoded(d, topic, row);
            var f := Filtered(RowsOf(d2.seen, t));
            && f.committed == RowsOf(d2.committed, t)
            && AccumOf(d2, t).pending == f.pending
            && AccumOf(d2, t).lastCommitted == LastTime(f.committed)
  {
    hide Decoded;
    var f := Filtered(RowsOf(d.seen, t));
    assert f.committed == RowsOf(d.committed, t) && AccumOf(d, t).pending == f.pending
           && AccumOf(d, t).lastCommitted == LastTime(f.committed);
    OneMoreSeen(d.seen, topic, row, t);
    if t == topic {
      SettledSelf(d, topic, row);
    } else {
      SettledOther(d, topic, row, t);
    }
  }

  lemma OneMoreSeen(rows: seq<Tagged>, topic: string, row: Row, t: string)
    ensures RowsOf(rows + [(topic, row)], t) == if t == topic then RowsOf(rows, t) + [row] else RowsOf(rows, t)
    ensures (RowsOf(rows, t) + [row])[..|RowsOf(rows, t)|] == RowsOf(rows, t)
  {
    assert (rows + [(topic, row)])[..|rows|] == rows;
  }

  lemma SettledSelf(d: Decoder, topic: string, row: Row)
    requires InWindow(d.start, row.t)
    ensures var d2 := Decoded(d, topic, row);
            var a := AccumOf(d, topic);
            && AccumOf(d2, topic).pending == Some(row) && d2.seen == d.seen + [(topic, row)]
            && (if a.pending.Some? && NotBefore(a.pending.value.t, a.lastCommitted) && a.pending.value.t <= row.t
                then RowsOf(d2.committed, topic) == RowsOf(d.committed, topic) + [a.pending.value]
                     && AccumOf(d2, topic).lastCommitted == Some(a.pending.value.t)
                else RowsOf(d2.committed, topic) == RowsOf(d.committed, topic)
                     && AccumOf(d2, topic).lastCommitted == a.lastCommitted)
  {
    var a := AccumOf(d, topic);
    if a.pending.Some? {
      OneMoreSeen(d.committed, topic, a.pending.value, topic);
    }
  }

  lemma SettledOther(d: Decoder, topic: string, row: Row, t: string)
    requires InWindow(d.start, row.t) && t != topic
    ensures var d2 := Decoded(d, topic, row);
            && RowsOf(d2.committed, t) == RowsOf(d.committed, t) && AccumOf(d2, t) == AccumOf(d, t)
            && d2.seen == d.seen + [(topic, row)]
  {
    var a := AccumOf(d, topic);
    if a.pending.Some? {
      OneMoreSeen(d.committed, topic, a.pending.value, t);
    }
  }

  lemma DecodeIsWindowed(d: Decoder, topic: string, row: Row)
    requires Windowed(d) && I64_MIN <= row.t <= I64_MAX
    ensures Windowed(Decoded(d, topic, row))
  {
    var d2 := Decoded(d, topic, row);
    if InWindow(d.start, row.t) {
      assert d2.seen == d.seen + [(topic, row)];
      assert InWindow(d2.start, row.t);
    }
  }

  predicate Times64(records: seq<Tagged>) {
    forall i :: 0 <= i < |records| ==> I64_MIN <= records[i].1.t <= I64_MAX
  }

  lemma {:induction false} RunIsKept(records: seq<Tagged>)
    requires Times64(records)
    ensures Booked(AllDecoded(records)) && Follows(AllDecoded(records)) && Windowed(AllDecoded(records))
  {
    if records != [] {
      var n := |records| - 1;
      RunIsKept(records[..n]);
      var d := AllDecoded(records[..n]);
      DecodeIsBooked(d, records[n].0, records[n].1);
      DecodeFollows(d, records[n].0, records[n].1);
      DecodeIsWindowed(d, records[n].0, records[n].1);
    }
  }

  // ----- The whole log -----

  /** Committed rows of a topic once it is flushed: those the filter committed,
      and the held one if it fits. */
  ghost predicate FlushOutcome(d: Decoder, d2: Decoder, t: string, limit: Option<int>) {
    && RowsOf(d2.committed, t) ==
       RowsOf(d.committed, t) + (if LastOk(AccumOf(d, t), limit) then [AccumOf(d, t).pending.value] else [])
    && AccumOf(d2, t).buffer == [] && AccumOf(d2, t).pending == None
  }

  ghost predicate FlushUntouched(d: Decoder, d2: Decoder, t: string) {
    RowsOf(d2.committed, t) == RowsOf(d.committed, t) && AccumOf(d2, t) == AccumOf(d, t)
  }

  lemma FlushOneIsKept(d: Decoder, topic: string, limit: Option<int>, t: string)
    requires Booked(d) && topic in d.topics
    ensures Booked(FlushedOne(d, topic, limit))
    ensures FlushedOne(d, topic, limit).topics.Keys == d.topics.Keys
    ensures if t == topic then FlushOutcome(d, FlushedOne(d, topic, limit), t, limit)
            else FlushUntouched(d, FlushedOne(d, topic, limit), t)
  {
    hide IsHull, Booked;
    var a := d.topics[topic];
    var d1 := if LastOk(a, limit) then Committed(d, topic, a.pending.value)
              else d.(topics := d.topics[topic := a.(pending := None)]);
    if LastOk(a, limit) {
      CommitIsBooked(d, topic, a.pending.value);
      assert (d.committed + [(topic, a.pending.value)])[..|d.committed|] == d.committed;
    } else {
      SameBooks(d, d1);
    }
    SubmitIsBooked(d1, topic);
  }

  lemma {:induction false} FlushAllIsKept(d: Decoder, names: seq<string>, limit: Option<int>, t: string)
    requires Booked(d) && (forall i :: 0 <= i < |names| ==> names[i] in d.topics)
    requires forall i, j :: 0 <= i < j < |names| ==> names[i] != names[j]
    ensures var d2 := FlushedAll(d, names, limit);
            && Booked(d2) && d2.topics.Keys == d.topics.Keys
            && if t in names then FlushOutcome(d, d2, t, limit) else FlushUntouched(d, d2, t)
  {
    if names != [] {
      var n := |names| - 1;
      FlushAllIsKept(d, names[..n], limit, t);
      FlushAllIsKept(d, names[..n], limit, names[n]);
      assert names == names[..n] + [names[n]];
      FlushOneIsKept(FlushedAll(d, names[..n], limit), names[n], limit, t);
    }
  }

  /** Equal rows topic by topic are equally many rows in all. */
  lemma SameTotals(a: seq<Tagged>, b: seq<Tagged>)
    requires forall t :: RowsOf(a, t) == RowsOf(b, t)
    ensures multiset(a) == multiset(b) && |a| == |b|
  {
    forall x
      ensures multiset(a)[x] == multiset(b)[x]
    {
      CountOf(a, x);
      CountOf(b, x);
      assert RowsOf(a, x.0) == RowsOf(b, x.0);
    }
    assert multiset(a) == multiset(b);
    assert |multiset(a)| == |a| && |multiset(b)| == |b|;
  }

  lemma {:induction false} CountOf(rows: seq<Tagged>, x: Tagged)
    ensures multiset(rows)[x] == multiset(RowsOf(rows, x.0))[x.1]
  {
    if rows != [] {
      var n := |rows| - 1;
      CountOf(rows[..n], x);
      assert rows == rows[..n] + [rows[n]];
    }
  }

  /** The last row of a topic fits: none of the topic's committed rows is later,
      and it is at most a second after some row committed in any topic, if there
      is one. */
  ghost predicate LastFits(rows: seq<Row>, committed: seq<Tagged>) {
    && rows != []
    && NoneLater(Filtered(rows).committed, rows[|rows| - 1].t)
    && (committed == [] ||
        exists i :: 0 <= i < |committed| && rows[|rows| - 1].t <= committed[i].1.t + 1_000_000)
  }

  /** What the topic `rows` has committed after the log. */
  ghost function AfterLog(rows: seq<Row>, committed: seq<Tagged>): seq<Row> {
    Filtered(rows).committed + if LastFits(rows, committed) then [rows[|rows| - 1]] else []
  }

  lemma LastOkExactly(d: Decoder, t: string)
    requires Follows(d) && Booked(d) && Windowed(d)
    ensures LastOk(AccumOf(d, t), LimitOf(d)) <==> LastFits(RowsOf(d.seen, t), d.committed)
    ensures RowsOf(d.seen, t) != [] ==>
              AccumOf(d, t).pending == Some(RowsOf(d.seen, t)[|RowsOf(d.seen, t)| - 1])
  {
    var rows := RowsOf(d.seen, t);
    FilterAccounts(rows);
    if rows != [] {
      var last := rows[|rows| - 1];
      assert AccumOf(d, t).pending == Some(last);
      NotBeforeExactly(Filtered(rows).committed, last.t);
      SeenRow(d.seen, t, last);
      var i :| 0 <= i < |d.seen| && d.seen[i] == (t, last);
      assert InWindow(d.start, d.seen[i].1.t);
      if d.committed != [] {
        CommittedWasSeen(d, 0);
        assert d.committed[0].1.t <= d.range.value.maxUs;
      }
      LimitExactly(d, last.t);
    } else {
      assert AccumOf(d, t).pending == None;
    }
  }

  lemma CommittedWasSeen(d: Decoder, i: nat)
    requires Follows(d) && Windowed(d) && i < |d.committed|
    ensures I64_MIN <= d.committed[i].1.t
  {
    var t, r := d.committed[i].0, d.committed[i].1;
    CountOf(d.committed, d.committed[i]);
    assert multiset(d.committed)[d.committed[i]] > 0;
    assert multiset(RowsOf(d.committed, t))[r] > 0;
    var rows := RowsOf(d.seen, t);
    FilterAccounts(rows);
    assert Filtered(rows).committed == RowsOf(d.committed, t);
    assert r in multiset(rows);
    SeenRow(d.seen, t, r);
    var j :| 0 <= j < |d.seen| && d.seen[j] == (t, r);
  }

  lemma LimitExactly(d: Decoder, t: int)
    requires IsHull(d.committed, d.range) && t <= I64_MAX
    requires d.range.Some? ==> I64_MIN <= d.range.value.maxUs
    ensures (LimitOf(d).None? || t <= SatAdd(LimitOf(d).value, START_SKEW_US)) <==>
            (d.committed == [] || exists i :: 0 <= i < |d.committed| && t <= d.committed[i].1.t + 1_000_000)
  {
    if d.range.Some? {
      var i :| 0 <= i < |d.committed| && d.committed[i].1.t == d.range.value.maxUs;
      assert t <= d.range.value.maxUs + 1_000_000 ==> t <= d.committed[i].1.t + 1_000_000;
    }
  }

  /** After the log: per topic the submitted times never decrease and are those
      of the filter, with the held row if it fits; `rowCount` counts them and
      `range` is their hull. */
  lemma WholeLog(records: seq<Tagged>, names: seq<string>)
    requires Times64(records)
    requires var d := AllDecoded(records);
             && (forall t :: t in names <==> t in d.topics)
             && forall i, j :: 0 <= i < j < |names| ==> names[i] != names[j]
    ensures var d := AllDecoded(records);
            var d2 := FlushedAll(d, names, LimitOf(d));
            && d2.rowCount == |d2.submitted| && IsHull(d2.submitted, d2.range)
            && multiset(d2.submitted) == multiset(d2.committed)
            && forall t ::
                 && RowsOf(d2.submitted, t) == RowsOf(d2.committed, t)
                 && InOrder(RowsOf(d2.submitted, t))
                 && RowsOf(d2.submitted, t) == AfterLog(RowsOf(d.seen, t), d.committed)
  {
    var d := AllDecoded(records);
    var limit := LimitOf(d);
    var d2 := FlushedAll(d, names, limit);
    hide IsHull, Follows, Windowed, Filtered, RowsOf, InOrder, AllDecoded, FlushedAll, LastOk, NoneLater;
    RunIsKept(records);
    forall i | 0 <= i < |names|
      ensures names[i] in d.topics
    {
      assert names[i] in names;
    }
    FlushAllIsKept(d, names, limit, "");
    forall t
      ensures RowsOf(d2.submitted, t) == RowsOf(d2.committed, t) && InOrder(RowsOf(d2.submitted, t))
      ensures RowsOf(d2.submitted, t) == AfterLog(RowsOf(d.seen, t), d.committed)
    {
      FlushAllIsKept(d, names, limit, t);
      TopicAfterLog(d, d2, t, t in names, limit);
      LastOkExactly(d, t);
    }
    SameTotals(d2.submitted, d2.committed);
    SameHull(d2.committed, d2.submitted, d2.range);
  }

  lemma SameHull(a: seq<Tagged>, b: seq<Tagged>, range: Option<TimeRange>)
    requires multiset(a) == multiset(b) && |a| == |b| && IsHull(a, range)
    ensures IsHull(b, range)
  {
    if range.Some? {
      forall i | 0 <= i < |b|
        ensures range.value.minUs <= b[i].1.t <= range.value.maxUs
      {
        assert b[i] in multiset(a);
      }
      var i :| 0 <= i < |a| && a[i].1.t == range.value.minUs;
      var j :| 0 <= j < |a| && a[j].1.t == range.value.maxUs;
      assert a[i] in multiset(b) && a[j] in multiset(b);
    }
  }

  lemma TopicAfterLog(d: Decoder, d2: Decoder, t: string, flushed: bool, limit: Option<int>)
    requires Follows(d) && Booked(d2) && (flushed <==> t in d.topics)
    requires if flushed then FlushOutcome(d, d2, t, limit) else FlushUntouched(d, d2, t)
    ensures RowsOf(d2.submitted, t) == RowsOf(d2.committed, t) && InOrder(RowsOf(d2.submitted, t))
    ensures RowsOf(d2.submitted, t) == Filtered(RowsOf(d.seen, t)).committed
              + (if LastOk(AccumOf(d, t), limit) then [AccumOf(d, t).pending.value] else [])
  {
    hide Filtered, InOrder, RowsOf, IsHull;
    var f := Filtered(RowsOf(d.seen, t));
    FilterAccounts(RowsOf(d.seen, t));
    assert f.committed == RowsOf(d.committed, t) && AccumOf(d, t).lastCommitted == LastTime(f.committed);
    assert RowsOf(d2.submitted, t) + AccumOf(d2, t).buffer == RowsOf(d2.committed, t);
    assert RowsOf(d2.submitted, t) + [] == RowsOf(d2.submitted, t);
    assert f.committed + [] == f.committed;
    StaysInOrder(f.committed, AccumOf(d, t).pending);
  }

  lemma {:induction false} SeenRow(rows: seq<Tagged>, t: string, r: Row)
    requires r in RowsOf(rows, t)
    ensures (t, r) in rows
  {
    var n := |rows| - 1;
    if rows[n] != (t, r) {
      SeenRow(rows[..n], t, r);
    }
  }

  // ----- The decoder as an object -----

  class LogDecoder {
    var topics: map<string, Accum>
    var submitted: seq<Tagged>
    var rowCount: nat
    var implausible: nat
    var start: Option<int>
    var range: Option<TimeRange>
    ghost var seen: seq<Tagged>
    ghost var committed: seq<Tagged>

    constructor ()
      ensures Value() == INITIAL
    {
      topics, submitted, rowCount, implausible, start, range := map[], [], 0, 0, None, None;
      seen, committed := [], [];
    }

    ghost function Value(): Decoder
      reads this
    {
      Decoder(topics, submitted, rowCount, implausible, start, range, seen, committed)
    }

    /** Appends the held row to the topic's buffer. */
    method Commit(topic: string, row: Row)
      modifies this
      ensures Value() == Committed(old(Value()), topic, row)
    {
      var a := if topic in topics then topics[topic] else Accum([], None, None);
      topics := topics[topic := Accum(a.buffer + [row], None, Some(row.t))];
      rowCount := rowCount + 1;
      range := Some(Included(range, row.t));
      committed := committed + [(topic, row)];
    }

    method Submit(topic: string)
      modifies this`topics, this`submitted
      ensures Value() == Submitted(old(Value()), topic)
    {
      var a := if topic in topics then topics[topic] else Accum([], None, None);
      submitted := submitted + TaggedRows(topic, a.buffer);
      topics := topics[topic := a.(buffer := [])];
    }

    method DecodeRow(topic: string, row: Row)
      modifies this
      ensures Value() == Decoded(old(Value()), topic, row)
    {
      if !InWindow(start, row.t) {
        implausible := implausible + 1;
        return;
      }
      if start.None? {
        start := Some(row.t);
      }
      seen := seen + [(topic, row)];
      assert Value() == Noticed(old(Value()), topic, row);
      Settle(topic, row);
      var a := if topic in topics then topics[topic] else Accum([], None, None);
      topics := topics[topic := a.(pending := Some(row))];
    }

    /** Commits or drops the row held so far. */
    method Settle(topic: string, row: Row)
      modifies this
      ensures Value() == Settled(old(Value()), topic, row)
    {
      if topic !in topics || topics[topic].pending.None? {
        return;
      }
      var held, last := topics[topic].pending.value, topics[topic].lastCommitted;
      if (last.None? || held.t >= last.value) && held.t <= row.t {
        Commit(topic, held);
        if |topics[topic].buffer| >= BATCH_ROWS {
          Submit(topic);
        }
      } else {
        implausible := implausible + 1;
      }
    }

    /** The end of the log: held rows are committed if they fit, and all buffers
        handed over. */
    method FlushAll(names: seq<string>)
      modifies this
      ensures Value() == FlushedAll(old(Value()), names, LimitOf(old(Value())))
    {
      ghost var before := Value();
      var limit := if range.Some? then Some(range.value.maxUs) else None;
      for i := 0 to |names|
        invariant Value() == FlushedAll(before, names[..i], limit)
      {
        assert names[..i + 1][..i] == names[..i];
        FlushTopic(names[i], limit);
      }
      assert names[..|names|] == names;
    }

    method FlushTopic(topic: string, limit: Option<int>)
      modifies this
      ensures Value() == FlushedOne(old(Value()), topic, limit)
    {
      if topic !in topics {
        return;
      }
      var a := topics[topic];
      if LastOk(a, limit) {
        Commit(topic, a.pending.value);
      } else {
        topics := topics[topic := a.(pending := None)];
      }
      if topics[topic].buffer != [] {
        Submit(topic);
      }
    }
  }
}
