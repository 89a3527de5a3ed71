/** Snapshots made from a registry and its topic stores, and their publication. */
module Snapshots {
  import opened Prelude
  import opened Storage
  import opened Identity

  type Stores = map<nat, TopicStore>

  /** The store fits its topic. */
  predicate FitsTopic(r: Registry, id: nat, store: TopicStore) {
    FindTopic(r, id).Some? && store.schema.name == FindTopic(r, id).value.name
  }

  function TopicsOf(topics: seq<TopicEntry>, source: nat): seq<nat> {
    if topics == [] then []
    else
      var n := |topics| - 1;
      var before := TopicsOf(topics[..n], source);
      if topics[n].source == source then before + [topics[n].id] else before
  }

  function SourceSnapshots(r: Registry): (s: seq<SourceSnapshot>)
    ensures |s| == |r.sources|
  {
    seq(|r.sources|, i requires 0 <= i < |r.sources| =>
      SourceSnapshot(r.sources[i], TopicsOf(r.topics, r.sources[i].id)))
  }

  function SlotOf(stores: Stores, id: nat): Option<TopicStore> {
    if id in stores then Some(stores[id]) else None
  }

  function TopicSnapshots(r: Registry, stores: Stores): (s: seq<TopicSnapshot>)
    ensures |s| == |r.topics|
  {
    seq(|r.topics|, i requires 0 <= i < |r.topics| => TopicSnapshot(r.topics[i], SlotOf(stores, i)))
  }

  // ----- The range of all data -----

  datatype Range = Overflow | Range(hull: Option<TimeRange>)

  /** The time range of a topic's rows at effective times, if it has rows. */
  function EffectiveRange(s: Snapshot, i: nat): Range
    requires i < |s.topics|
  {
    var topic := s.topics[i];
    if topic.store.None? || topic.store.value.timeRange.None? || SourceOf(s, topic.entry.source).None? then Range(None)
    else
      var shifted := Shifted(topic.store.value.timeRange.value, SourceOf(s, topic.entry.source).value.entry.offsetUs);
      if shifted.None? then Overflow else Range(shifted)
  }

  /** The union over the first `n` topics. */
  function RangeUpTo(s: Snapshot, n: nat): Range
    requires n <= |s.topics|
  {
    if n == 0 then Range(None)
    else
      var before, own := RangeUpTo(s, n - 1), EffectiveRange(s, n - 1);
      if before.Overflow? || own.Overflow? then Overflow
      else if own.hull.None? then before
      else if before.hull.None? then own
      else Range(Some(Union(before.hull.value, own.hull.value)))
  }

  function GlobalRange(s: Snapshot): Option<TimeRange> {
    var r := RangeUpTo(s, |s.topics|);
    if r.Overflow? then None else r.hull
  }

  /** The range is the hull of the topics' effective ranges. */
  ghost predicate IsRangeHull(s: Snapshot, n: nat, range: Option<TimeRange>)
    requires n <= |s.topics|
  {
    && (range.None? ==> forall i :: 0 <= i < n ==> EffectiveRange(s, i) == Range(None))
    && (range.Some? ==>
         && (forall i :: 0 <= i < n && EffectiveRange(s, i).Range? && EffectiveRange(s, i).hull.Some? ==>
              range.value.minUs <= EffectiveRange(s, i).hull.value.minUs
              && EffectiveRange(s, i).hull.value.maxUs <= range.value.maxUs)
         && (exists i :: 0 <= i < n && EffectiveRange(s, i).Range? && EffectiveRange(s, i).hull.Some?
              && EffectiveRange(s, i).hull.value.minUs == range.value.minUs)
         && (exists i :: 0 <= i < n && EffectiveRange(s, i).Range? && EffectiveRange(s, i).hull.Some?
              && EffectiveRange(s, i).hull.value.maxUs == range.value.maxUs))
  }

  /** Short of overflow the range is the hull of all rows; a single topic whose
      effective times overflow leaves no range at all. */
  lemma {:induction false} RangeIsHull(s: Snapshot, n: nat)
    requires n <= |s.topics|
    ensures RangeUpTo(s, n).Overflow? <==> exists i :: 0 <= i < n && EffectiveRange(s, i).Overflow?
    ensures RangeUpTo(s, n).Range? ==> IsRangeHull(s, n, RangeUpTo(s, n).hull)
  {
    if n > 0 {
      RangeIsHull(s, n - 1);
    }
  }

  /** The topic has rows and its source is there. */
  predicate HasRows(s: Snapshot, i: nat)
    requires i < |s.topics|
  {
    var t := s.topics[i];
    && t.store.Some? && t.store.value.timeRange.Some?
    && t.entry.source < |s.sources| && s.sources[t.entry.source].entry.id == t.entry.source
  }

  /** When the rows of the topic begin and end, moved by the offset of its source. */
  function StartOf(s: Snapshot, i: nat): int
    requires i < |s.topics| && HasRows(s, i)
  {
    s.topics[i].store.value.timeRange.value.minUs + s.sources[s.topics[i].entry.source].entry.offsetUs
  }

  function EndOf(s: Snapshot, i: nat): int
    requires i < |s.topics| && HasRows(s, i)
  {
    s.topics[i].store.value.timeRange.value.maxUs + s.sources[s.topics[i].entry.source].entry.offsetUs
  }

  ghost predicate AllFit(s: Snapshot) {
    forall i :: 0 <= i < |s.topics| && HasRows(s, i) ==>
      && -0x8000_0000_0000_0000 <= StartOf(s, i) <= 0x7FFF_FFFF_FFFF_FFFF
      && -0x8000_0000_0000_0000 <= EndOf(s, i) <= 0x7FFF_FFFF_FFFF_FFFF
  }

  /** There is a global range exactly when some topic has rows and no topic's rows
      are moved out of 64 bits; and it then is the hull of all of them. */
  lemma GlobalRangeIsHull(s: Snapshot)
    ensures GlobalRange(s).Some? <==> AllFit(s) && exists i :: 0 <= i < |s.topics| && HasRows(s, i)
    ensures GlobalRange(s).Some? ==>
              var r := GlobalRange(s).value;
              && (forall i :: 0 <= i < |s.topics| && HasRows(s, i) ==>
                    r.minUs <= StartOf(s, i) && EndOf(s, i) <= r.maxUs)
              && (exists i :: 0 <= i < |s.topics| && HasRows(s, i) && StartOf(s, i) == r.minUs)
              && (exists i :: 0 <= i < |s.topics| && HasRows(s, i) && EndOf(s, i) == r.maxUs)
  {
    RangeIsHull(s, |s.topics|);
    forall i | 0 <= i < |s.topics|
      ensures !HasRows(s, i) ==> EffectiveRange(s, i) == Range(None)
      ensures HasRows(s, i) ==>
                var fits := && -0x8000_0000_0000_0000 <= StartOf(s, i) <= 0x7FFF_FFFF_FFFF_FFFF
                            && -0x8000_0000_0000_0000 <= EndOf(s, i) <= 0x7FFF_FFFF_FFFF_FFFF;
                EffectiveRange(s, i) == if fits then Range(Some(TimeRange(StartOf(s, i), EndOf(s, i)))) else Overflow
    {
    }
    hide EffectiveRange;
  }

  method ComputeGlobalRange(s: Snapshot) returns (range: Option<TimeRange>)
    ensures range == GlobalRange(s)
  {
    range := None;
    for i := 0 to |s.topics|
      invariant RangeUpTo(s, i) == Range(range)
    {
      var topic := s.topics[i];
      if topic.store.None? || topic.store.value.timeRange.None? {
        continue;
      }
      var source := SourceOf(s, topic.entry.source);
      if source.None? {
        continue;
      }
      var effective := Shifted(topic.store.value.timeRange.value, source.value.entry.offsetUs);
      if effective.None? {
        OverflowStays(s, i + 1, |s.topics|);
        return None;
      }
      range := Some(if range.Some? then Union(range.value, effective.value) else effective.value);
    }
  }

  lemma {:induction false} OverflowStays(s: Snapshot, i: nat, n: nat)
    requires i <= n <= |s.topics| && RangeUpTo(s, i).Overflow?
    ensures RangeUpTo(s, n).Overflow?
  {
    if i < n {
      OverflowStays(s, i, n - 1);
    }
  }

  // ----- Snapshots -----

  function Assembled(r: Registry, stores: Stores, epoch: nat): Snapshot {
    var s := Snapshot(SourceSnapshots(r), TopicSnapshots(r, stores), r.fields, epoch, None);
    s.(globalRange := GlobalRange(s))
  }

  /** `None` when a store has no topic or another name than its topic. */
  function FromRegistry(r: Registry, stores: Stores, epoch: nat): Option<Snapshot> {
    if exists id :: id in stores && !FitsTopic(r, id, stores[id]) then None
    else Some(Assembled(r, stores, epoch))
  }

  /** There is no snapshot exactly when some store belongs to no topic or has
      another name than its topic. */
  lemma RefusedExactly(r: Registry, stores: Stores, epoch: nat)
    requires Valid(r)
    ensures FromRegistry(r, stores, epoch).None? <==>
              exists t: nat :: t in stores && (t >= |r.topics| || stores[t].schema.name != r.topics[t].name)
  {
    assert forall t: nat :: t < |r.topics| ==> r.topics[t].id == t;
    hide Valid;
    if exists t: nat :: t in stores && (t >= |r.topics| || stores[t].schema.name != r.topics[t].name) {
      var t: nat :| t in stores && (t >= |r.topics| || stores[t].schema.name != r.topics[t].name);
      assert !FitsTopic(r, t, stores[t]);
    }
  }

  /** Puts the stores into the slots of their topics, in any order. */
  method Assemble(r: Registry, stores: Stores, epoch: nat) returns (snapshot: Option<Snapshot>)
    ensures snapshot == FromRegistry(r, stores, epoch)
  {
    var slots: seq<Option<TopicStore>> := seq(|r.topics|, _ => None);
    var rest := stores.Keys;
    while rest != {}
      invariant rest <= stores.Keys && |slots| == |r.topics|
      invariant forall id :: id in stores && id !in rest ==> FitsTopic(r, id, stores[id])
      invariant forall i :: 0 <= i < |slots| ==> slots[i] == if i in rest then None else SlotOf(stores, i)
      decreases |rest|
    {
      var id :| id in rest;
      var topic := FindTopic(r, id);
      if topic.None? || stores[id].schema.name != topic.value.name {
        assert !FitsTopic(r, id, stores[id]);
        return None;
      }
      slots := slots[id := Some(stores[id])];
      rest := rest - {id};
    }
    var topics := seq(|r.topics|, i requires 0 <= i < |r.topics| => TopicSnapshot(r.topics[i], slots[i]));
    assert topics == TopicSnapshots(r, stores);
    var s := Snapshot(SourceSnapshots(r), topics, r.fields, epoch, None);
    var range := ComputeGlobalRange(s);
    snapshot := Some(s.(globalRange := range));
  }

  lemma {:induction false} TopicsOfSourceAreThose(topics: seq<TopicEntry>, source: nat)
    requires forall i :: 0 <= i < |topics| ==> topics[i].id == i
    ensures forall t: nat :: t in TopicsOf(topics, source) <==> t < |topics| && topics[t].source == source
  {
    if topics != [] {
      var n := |topics| - 1;
      TopicsOfSourceAreThose(topics[..n], source);
      assert forall t: nat :: t < n ==> topics[..n][t] == topics[t];
    }
  }

  /** The source lists just its own topics. */
  ghost predicate ListsTopics(r: Registry, s: SourceSnapshot, source: nat) {
    forall t: nat :: t in s.topics <==> t < |r.topics| && r.topics[t].source == source
  }

  lemma TopicListsAreThose(r: Registry, i: nat)
    requires Valid(r) && i < |r.sources|
    ensures ListsTopics(r, SourceSnapshots(r)[i], i)
  {
    TopicsOfSourceAreThose(r.topics, i);
  }

  /** What readers rely on: every lookup by id finds its entry, and every topic
      is listed by its source. */
  lemma SnapshotIsComplete(r: Registry, stores: Stores, epoch: nat)
    requires Valid(r) && FromRegistry(r, stores, epoch).Some?
    ensures var s := FromRegistry(r, stores, epoch).value;
            && (forall i :: 0 <= i < |r.sources| ==> SourceOf(s, i).Some? && SourceOf(s, i).value.entry == r.sources[i])
            && (forall i :: 0 <= i < |r.topics| ==>
                 TopicOf(s, i).Some? && TopicOf(s, i).value.entry == r.topics[i]
                   && TopicOf(s, i).value.store == SlotOf(stores, i))
            && (forall i :: 0 <= i < |r.fields| ==> FieldOf(s, i) == Some(r.fields[i]))
            && (forall i :: 0 <= i < |r.sources| ==> ListsTopics(r, s.sources[i], i))
  {
    var s := FromRegistry(r, stores, epoch).value;
    assert s.sources == SourceSnapshots(r);
    forall i | 0 <= i < |r.sources|
      ensures ListsTopics(r, s.sources[i], i)
    {
      TopicListsAreThose(r, i);
    }
    assert Positioned(r);
    hide Valid, RemovedTogether, Labelled, TopicsOf, GlobalRange, FitsTopic, ListsTopics;
  }

  // ----- Publication -----

  /** The store of the current snapshot. */
  class DataStore {
    var current: Snapshot

    constructor ()
      ensures current == Assembled(EMPTY, map[], 0)
    {
      current := Assembled(EMPTY, map[], 0);
    }

    /** Publishes under the next epoch; fails only when there is none. */
    method Publish(snapshot: Snapshot) returns (ok: bool)
      modifies this
      ensures ok <==> old(current.epoch) < U64_MAX
      ensures current == if ok then snapshot.(epoch := old(current.epoch) + 1) else old(current)
    {
      if current.epoch + 1 > U64_MAX {
        return false;
      }
      current := snapshot.(epoch := current.epoch + 1);
      ok := true;
    }
  }
}
