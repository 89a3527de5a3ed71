/** Which records of a log pass the window, and where each record goes. */
module LogAccounts {
  import opened Prelude
  import opened CommitFilter

  // ----- The window -----

  predicate CanStart(t: int) {
    0 <= t <= 100_000_000_000_000
  }

  /** From a second before the start to a day after it. */
  predicate Near(start: int, t: int) {
    start - 1_000_000 <= t <= start + 86_400_000_000
  }

  /** The records near the start, in their order. */
  function NearOnes(start: int, records: seq<Tagged>): seq<Tagged> {
    if records == [] then []
    else
      var n := |records| - 1;
      NearOnes(start, records[..n]) + if Near(start, records[n].1.t) then [records[n]] else []
  }

  /** Record `k` starts the log: it is the first that can. */
  ghost predicate Starts(records: seq<Tagged>, k: nat) {
    && k < |records| && CanStart(records[k].1.t)
    && forall i :: 0 <= i < k ==> !CanStart(records[i].1.t)
  }

  ghost predicate NeverStarts(records: seq<Tagged>) {
    forall i :: 0 <= i < |records| ==> !CanStart(records[i].1.t)
  }

  lemma StartedOrNot(records: seq<Tagged>)
    ensures NeverStarts(records) || exists k: nat :: Starts(records, k)
  {
    if !NeverStarts(records) {
      var i :| 0 <= i < |records| && CanStart(records[i].1.t);
      FirstStart(records, i);
    }
  }

  lemma {:induction false} FirstStart(records: seq<Tagged>, i: nat)
    requires i < |records| && CanStart(records[i].1.t)
    ensures exists k: nat :: Starts(records, k)
  {
    if j: nat :| j < i && CanStart(records[j].1.t) {
      FirstStart(records, j);
    } else {
      assert Starts(records, i);
    }
  }

  /** One record moves the start and the rows seen, if it passes. */
  lemma OneRecord(d: Decoder, topic: string, row: Row)
    requires I64_MIN <= row.t <= I64_MAX && (d.start.Some? ==> CanStart(d.start.value))
    ensures var d2 := Decoded(d, topic, row);
            if d.start.None? then
              && d2.start == (if CanStart(row.t) then Some(row.t) else None)
              && d2.seen == (if CanStart(row.t) then d.seen + [(topic, row)] else d.seen)
            else
              && d2.start == d.start
              && d2.seen == (if Near(d.start.value, row.t) then d.seen + [(topic, row)] else d.seen)
  {
  }

  lemma StartsExtended(records: seq<Tagged>)
    requires records != []
    ensures var before := records[..|records| - 1];
            && (NeverStarts(records) <==> NeverStarts(before) && !CanStart(records[|records| - 1].1.t))
            && (forall k: nat :: Starts(records, k) <==>
                  Starts(before, k) || (k == |before| && NeverStarts(before) && CanStart(records[k].1.t)))
  {
    var before := records[..|records| - 1];
    assert forall i :: 0 <= i < |before| ==> records[i] == before[i];
  }

  /** What the decoder shows of a log: the first record that can starts it, and
      the rows seen are the ones near it from there on; before it there are none. */
  ghost predicate SeenSo(records: seq<Tagged>, start: Option<int>, seen: seq<Tagged>) {
    && (NeverStarts(records) ==> start == None && seen == [])
    && (forall k: nat :: Starts(records, k) ==>
          start == Some(records[k].1.t) && seen == NearOnes(records[k].1.t, records[k..]))
  }

  lemma SeenOneMore(records: seq<Tagged>, d: Decoder, d2: Decoder)
    requires records != [] && Times64(records)
    requires SeenSo(records[..|records| - 1], d.start, d.seen)
    requires d2 == Decoded(d, records[|records| - 1].0, records[|records| - 1].1)
    ensures SeenSo(records, d2.start, d2.seen)
  {
    hide Decoded;
    var n := |records| - 1;
    var before := records[..n];
    StartedOrNot(before);
    StartsExtended(records);
    if NeverStarts(before) {
      OneRecord(d, records[n].0, records[n].1);
      assert records[n..] == [records[n]] && [records[n]][..0] == [];
      assert NearOnes(records[n].1.t, [records[n]]) == [] + [records[n]];
      assert d.seen + [(records[n].0, records[n].1)] == [records[n]];
    } else {
      var k: nat :| Starts(before, k);
      OneRecord(d, records[n].0, records[n].1);
      StartsOnce(before, k);
      NearOneMore(records, k);
      assert before[k] == records[k] && (records[n].0, records[n].1) == records[n];
      assert d.seen + [] == d.seen;
      StartsOnce(records, k);
    }
  }

  lemma StartsOnce(records: seq<Tagged>, k: nat)
    requires Starts(records, k)
    ensures forall j: nat :: Starts(records, j) ==> j == k
    ensures !NeverStarts(records)
  {
  }

  lemma NearOneMore(records: seq<Tagged>, k: nat)
    requires k < |records| - 1
    ensures NearOnes(records[k].1.t, records[k..]) ==
            NearOnes(records[k].1.t, records[..|records| - 1][k..])
            + if Near(records[k].1.t, records[|records| - 1].1.t) then [records[|records| - 1]] else []
  {
    var after := records[k..];
    assert after[..|after| - 1] == records[..|records| - 1][k..];
  }

  lemma {:induction false} SeenExactly(records: seq<Tagged>)
    requires Times64(records)
    ensures SeenSo(records, AllDecoded(records).start, AllDecoded(records).seen)
  {
    if records != [] {
      hide SeenSo, Decoded;
      SeenExactly(records[..|records| - 1]);
      SeenOneMore(records, AllDecoded(records[..|records| - 1]), AllDecoded(records));
    } else {
      hide NearOnes;
    }
  }

  lemma {:induction false} NearOnesAre(start: int, records: seq<Tagged>, x: Tagged)
    ensures x in NearOnes(start, records) <==> x in records && Near(start, x.1.t)
  {
    if records != [] {
      var n := |records| - 1;
      NearOnesAre(start, records[..n], x);
      assert records == records[..n] + [records[n]];
    }
  }

  /** A record near the start of the log, from there on. */
  ghost predicate InTheLog(records: seq<Tagged>, x: Tagged) {
    exists k: nat :: Starts(records, k) && x in records[k..] && Near(records[k].1.t, x.1.t)
  }

  lemma SeenIsInTheLog(records: seq<Tagged>, x: Tagged)
    requires Times64(records) && x in AllDecoded(records).seen
    ensures InTheLog(records, x)
  {
    hide AllDecoded, NearOnes;
    SeenExactly(records);
    StartedOrNot(records);
    var k: nat :| Starts(records, k);
    NearOnesAre(records[k].1.t, records[k..], x);
  }

  /** Every row that a log submits is one of its records near its start. */
  lemma SubmittedIsInTheLog(records: seq<Tagged>, names: seq<string>, t: string, r: Row)
    requires Times64(records)
    requires var d := AllDecoded(records);
             && (forall t :: t in names <==> t in d.topics)
             && forall i, j :: 0 <= i < j < |names| ==> names[i] != names[j]
    requires var d := AllDecoded(records); r in RowsOf(FlushedAll(d, names, LimitOf(d)).submitted, t)
    ensures InTheLog(records, (t, r))
  {
    hide AllDecoded, FlushedAll, InTheLog, IsHull, LastFits;
    WholeLog(records, names);
    var d := AllDecoded(records);
    var rows := RowsOf(d.seen, t);
    assert r in AfterLog(rows, d.committed);
    KeptIsOne(rows, d.committed, r);
    SeenRow(d.seen, t, r);
    SeenIsInTheLog(records, (t, r));
  }

  lemma KeptIsOne(rows: seq<Row>, committed: seq<Tagged>, r: Row)
    requires r in AfterLog(rows, committed)
    ensures r in rows
  {
    FilterAccounts(rows);
    if r in Filtered(rows).committed {
      assert r in multiset(Filtered(rows).committed);
      assert r in multiset(rows);
    }
  }

  // ----- Where the records go -----

  /** Rows are handed over only in full batches while the log is read, so less
      than a batch is buffered; every topic holds one row back; and every record
      is committed, counted as implausible, or held. */
  ghost predicate Placed(d: Decoder, records: nat) {
    && d.rowCount + d.implausible + |d.topics| == records
    && (forall t :: t in d.topics ==> d.topics[t].pending.Some?)
    && BatchesFull(d)
  }

  ghost predicate BatchesFull(d: Decoder) {
    forall t :: |AccumOf(d, t).buffer| < 8192 && |RowsOf(d.submitted, t)| % 8192 == 0
  }

  lemma PlacedRecord(d: Decoder, topic: string, row: Row, records: nat)
    requires Placed(d, records)
    ensures Placed(Decoded(d, topic, row), records + 1)
  {
    if InWindow(d.start, row.t) {
      hide InWindow;
      var d1 := Noticed(d, topic, row);
      assert BatchesFull(d1) by {
        assert forall t :: AccumOf(d1, t) == AccumOf(d, t);
      }
      SettledPlaces(d1, topic, row);
      HeldPlaces(Settled(d1, topic, row), topic, row);
    } else {
      assert forall t :: AccumOf(Decoded(d, topic, row), t) == AccumOf(d, t);
    }
  }

  lemma HeldPlaces(d: Decoder, topic: string, row: Row)
    requires BatchesFull(d) && forall t :: t in d.topics ==> t == topic || d.topics[t].pending.Some?
    ensures var d2 := Held(d, topic, row);
            && d2.rowCount == d.rowCount && d2.implausible == d.implausible
            && |d2.topics| == |d.topics| + (if topic in d.topics then 0 else 1)
            && (forall t :: t in d2.topics ==> d2.topics[t].pending.Some?) && BatchesFull(d2)
  {
    var d2 := Held(d, topic, row);
    assert forall t :: AccumOf(d2, t).buffer == AccumOf(d, t).buffer && d2.submitted == d.submitted;
    assert d2.topics.Keys == d.topics.Keys + {topic};
    assert |d2.topics.Keys| == |d2.topics| && |d.topics.Keys| == |d.topics|;
  }

  lemma SettledPlaces(d: Decoder, topic: string, row: Row)
    requires BatchesFull(d) && forall t :: t in d.topics ==> d.topics[t].pending.Some?
    ensures var d2 := Settled(d, topic, row);
            && d2.topics.Keys == d.topics.Keys && |d2.topics| == |d.topics|
            && d2.rowCount + d2.implausible == d.rowCount + d.implausible + (if topic in d.topics then 1 else 0)
            && (forall t :: t in d2.topics ==> t == topic || d2.topics[t].pending.Some?)
            && BatchesFull(d2)
  {
    var a, d2 := AccumOf(d, topic), Settled(d, topic, row);
    assert d2.topics.Keys == d.topics.Keys;
    assert |d2.topics.Keys| == |d2.topics| && |d.topics.Keys| == |d.topics|;
    forall t
      ensures |AccumOf(d2, t).buffer| < 8192 && |RowsOf(d2.submitted, t)| % 8192 == 0
    {
      assert |AccumOf(d, t).buffer| < 8192 && |RowsOf(d.submitted, t)| % 8192 == 0;
      SettledBuffer(d, topic, row, t);
    }
  }

  /** Settling adds at most one row to a buffer, and a buffer then full is handed
      over. */
  lemma SettledBuffer(d: Decoder, topic: string, row: Row, t: string)
    requires |AccumOf(d, t).buffer| < 8192
    ensures var b, s := AccumOf(Settled(d, topic, row), t).buffer, Settled(d, topic, row).submitted;
            || (|b| < 8192 && s == d.submitted)
            || (b == [] && |RowsOf(s, t)| == |RowsOf(d.submitted, t)| + 8192)
            || (b == AccumOf(d, t).buffer && RowsOf(s, t) == RowsOf(d.submitted, t))
  {
    var a := AccumOf(d, topic);
    if a.pending.Some? {
      var batch := a.buffer + [a.pending.value];
      RowsOfBoth(d.submitted, TaggedRows(topic, batch), t);
      RowsOfTagged(topic, batch, t);
    }
  }

  lemma {:induction false} AllPlaced(records: seq<Tagged>)
    ensures Placed(AllDecoded(records), |records|)
  {
    if records != [] {
      hide Placed, Decoded;
      AllPlaced(records[..|records| - 1]);
      PlacedRecord(AllDecoded(records[..|records| - 1]), records[|records| - 1].0, records[|records| - 1].1,
                   |records| - 1);
    }
  }
}
