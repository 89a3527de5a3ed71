/** The registry as an object whose vectors and lookup maps change in place. */
module IdentityObject {
  import opened Prelude
  import opened Storage
  import opened Identity
  import Names

  // ----- Steps of a removal -----

  /** What a removal relies on while it runs. */
  ghost predicate Indexed(r: Registry) {
    Positioned(r) && TopicsIndexed(r) && FieldsIndexed(r) && KeysIndexed(r)
  }

  lemma WithoutLabelIsIndexed(r: Registry, source: nat)
    requires Valid(r) && source < |r.sources|
    ensures Indexed(WithoutLabel(r, source))
  {
    var r1 := WithoutLabel(r, source);
    assert forall k, t: nat :: NamesTopic(r, k, t) <==> NamesTopic(r1, k, t);
    assert forall k, f: nat :: NamesField(r, k, f) <==> NamesField(r1, k, f);
    forall k: FieldKey, f: nat
      ensures ResolveKey(r1, k) == Some(f) <==> NamesKey(r1, k, f)
    {
      assert NamesKey(r, k, f) <==> NamesKey(r1, k, f);
    }
  }

  /** What a removal of `source` starts from, its label already freed. */
  ghost predicate Removing(r: Registry, source: nat) {
    && Indexed(r)
    && (forall t :: 0 <= t < |r.topics| && r.topics[t].source == source ==> !r.topics[t].removed)
    && (forall f :: 0 <= f < |r.fields| && TopicOfSource(r, r.fields[f].topic, source) ==> !r.fields[f].removed)
  }

  lemma RemovalStarts(r: Registry, source: nat)
    requires Valid(r) && LiveSource(r, source)
    ensures Removing(WithoutLabel(r, source), source)
    ensures forall t: nat :: TopicOfSource(WithoutLabel(r, source), t, source) <==> TopicOfSource(r, t, source)
    ensures forall f: nat, n: nat :: Gone(WithoutLabel(r, source), source, n, 0, f) <==> Gone(r, source, n, 0, f)
  {
    WithoutLabelIsIndexed(r, source);
  }

  /** Topic `i` is as it was until its turn. */
  lemma TopicStill(r: Registry, source: nat, i: nat)
    requires i < |r.topics|
    ensures |RemovedUpTo(r, source, i, i, 0).topics| == |r.topics|
    ensures RemovedUpTo(r, source, i, i, 0).topics[i] == r.topics[i]
  {
  }

  lemma NothingGone(r: Registry, source: nat)
    ensures forall f: nat :: !Gone(r, source, 0, 0, f)
  {
  }

  lemma GoneNext(r: Registry, source: nat, i: nat)
    requires i < |r.topics|
    ensures forall f: nat :: Gone(r, source, i + 1, 0, f) <==>
              Gone(r, source, i, 0, f) || (r.topics[i].source == source && f < |r.fields| && r.fields[f].topic == i)
  {
  }

  lemma NothingRemoved(r: Registry, source: nat)
    ensures RemovedUpTo(r, source, 0, 0, 0) == r
  {
    var q := RemovedUpTo(r, source, 0, 0, 0);
    assert q.topics == r.topics && q.fields == r.fields;
    assert q.topicByName == r.topicByName && q.fieldByName == r.fieldByName && q.fieldByKey == r.fieldByKey;
  }

  /** Topics of other sources are passed over. */
  lemma OtherTopic(r: Registry, source: nat, i: nat)
    requires i < |r.topics| && r.topics[i].source != source
    ensures RemovedUpTo(r, source, i + 1, i + 1, 0) == RemovedUpTo(r, source, i, i, 0)
  {
    var a, b := RemovedUpTo(r, source, i + 1, i + 1, 0), RemovedUpTo(r, source, i, i, 0);
    assert forall f :: 0 <= f < |r.fields| ==> (Gone(r, source, i + 1, 0, f) <==> Gone(r, source, i, 0, f));
    assert a.topics == b.topics && a.fields == b.fields;
    assert a.topicByName == b.topicByName && a.fieldByName == b.fieldByName && a.fieldByKey == b.fieldByKey;
  }

  /** Topic `i` is removed. */
  lemma TopicGone(r: Registry, source: nat, i: nat)
    requires Indexed(r) && i < |r.topics| && r.topics[i].source == source && !r.topics[i].removed
    ensures var a, b := RemovedUpTo(r, source, i, i, 0), RemovedUpTo(r, source, i + 1, i, 0);
            && b == a.(topics := a.topics[i := a.topics[i].(removed := true)],
                       topicByName := a.topicByName - {(source, a.topics[i].name)})
  {
    var a, b := RemovedUpTo(r, source, i, i, 0), RemovedUpTo(r, source, i + 1, i, 0);
    assert b.topics == a.topics[i := a.topics[i].(removed := true)];
    assert NamesTopic(r, (source, r.topics[i].name), i);
    forall k
      ensures k in r.topicByName ==> (r.topicByName[k] == i <==> k == (source, r.topics[i].name))
    {
      if k in r.topicByName && r.topicByName[k] == i {
        assert NamesTopic(r, k, i);
      }
    }
    assert b.topicByName == a.topicByName - {(source, a.topics[i].name)};
  }

  /** The fields of topic `i` are done. */
  lemma FieldsDone(r: Registry, source: nat, i: nat)
    requires i < |r.topics| && Positioned(r)
    ensures RemovedUpTo(r, source, i + 1, i, |r.fields|) == RemovedUpTo(r, source, i + 1, i + 1, 0)
  {
    var a, b := RemovedUpTo(r, source, i + 1, i, |r.fields|), RemovedUpTo(r, source, i + 1, i + 1, 0);
    assert forall f: nat :: f < |r.fields| ==> (Gone(r, source, i, |r.fields|, f) <==> Gone(r, source, i + 1, 0, f));
    SameGone(r, source, i + 1, i, |r.fields|, i + 1, 0);
  }

  lemma SameGone(r: Registry, source: nat, topics: nat, i: nat, j: nat, i2: nat, j2: nat)
    requires forall f: nat :: f < |r.fields| ==> (Gone(r, source, i, j, f) <==> Gone(r, source, i2, j2, f))
    ensures RemovedUpTo(r, source, topics, i, j) == RemovedUpTo(r, source, topics, i2, j2)
  {
    var a, b := RemovedUpTo(r, source, topics, i, j), RemovedUpTo(r, source, topics, i2, j2);
    assert forall f: nat :: Gone(r, source, i, j, f) <==> Gone(r, source, i2, j2, f);
    assert a.topics == b.topics && a.fields == b.fields;
    assert a.topicByName == b.topicByName && a.fieldByName == b.fieldByName && a.fieldByKey == b.fieldByKey;
  }

  /** Fields of other topics are passed over. */
  lemma OtherField(r: Registry, source: nat, i: nat, j: nat)
    requires j < |r.fields| && r.fields[j].topic != i
    ensures RemovedUpTo(r, source, i + 1, i, j + 1) == RemovedUpTo(r, source, i + 1, i, j)
  {
    SameGone(r, source, i + 1, i, j, i, j + 1);
  }

  /** Field `j` of topic `i` is removed. */
  lemma FieldGone(r: Registry, source: nat, i: nat, j: nat)
    requires Indexed(r) && i < |r.topics| && r.topics[i].source == source
    requires j < |r.fields| && r.fields[j].topic == i && !r.fields[j].removed
    ensures KeyOf(r, j).Some?
    ensures var a, b := RemovedUpTo(r, source, i + 1, i, j), RemovedUpTo(r, source, i + 1, i, j + 1);
            && b == a.(fields := a.fields[j := a.fields[j].(removed := true)],
                       fieldByName := a.fieldByName - {(i, a.fields[j].name)},
                       fieldByKey := a.fieldByKey - {KeyOf(r, j).value})
  {
    var a, b := RemovedUpTo(r, source, i + 1, i, j), RemovedUpTo(r, source, i + 1, i, j + 1);
    assert forall f: nat :: Gone(r, source, i, j + 1, f) <==> Gone(r, source, i, j, f) || f == j;
    assert b.fields == a.fields[j := a.fields[j].(removed := true)];
    assert b.topics == a.topics && b.topicByName == a.topicByName;
    assert r.topics[i].id == i && r.sources[source].id == source;
    var name, key := (i, r.fields[j].name), KeyOf(r, j).value;
    assert NamesField(r, name, j) && NamesKey(r, key, j);
    forall k
      ensures k in r.fieldByName ==> (r.fieldByName[k] == j <==> k == name)
    {
      if k in r.fieldByName && r.fieldByName[k] == j {
        assert NamesField(r, k, j);
      }
    }
    forall k
      ensures k in r.fieldByKey ==> (r.fieldByKey[k] == j <==> k == key)
    {
      if k in r.fieldByKey && r.fieldByKey[k] == j {
        assert ResolveKey(r, k) == Some(j);
        assert NamesKey(r, k, j);
      }
      assert ResolveKey(r, key) == Some(j);
    }
    assert b.fieldByName == a.fieldByName - {name};
    assert b.fieldByKey == a.fieldByKey - {key};
  }

  lemma NumbersDiffer(base: string, start: nat, count: nat)
    ensures forall k :: start < k < count ==> Numbered(base, k) != Numbered(base, count)
  {
    forall k | start < k < count
      ensures Numbered(base, k) != Numbered(base, count)
    {
      Names.SuffixesDiffer(base, k, count);
    }
  }

  // ----- The object -----

  class IdentityRegistry {
    var sources: seq<SourceEntry>
    var topics: seq<TopicEntry>
    var fields: seq<FieldEntry>
    var baseCounts: map<string, nat>
    var labels: set<string>
    var topicByName: map<(nat, string), nat>
    var fieldByName: map<(nat, string), nat>
    var fieldByKey: map<FieldKey, nat>

    constructor ()
      ensures Value() == EMPTY
    {
      sources, topics, fields := [], [], [];
      baseCounts, labels, topicByName, fieldByName, fieldByKey := map[], {}, map[], map[], map[];
    }

    function Value(): Registry
      reads this
    {
      Registry(sources, topics, fields, baseCounts, labels, topicByName, fieldByName, fieldByKey)
    }

    method UniqueSourceLabel(preferred: string) returns (text: string)
      modifies this`labels, this`baseCounts
      ensures (text, Value()) == UniqueLabel(old(Value()), preferred)
    {
      var base := BaseOf(preferred);
      if base !in labels {
        labels := labels + {base};
        return base;
      }
      var count := if base in baseCounts then baseCounts[base] else 1;
      ghost var start, rest := count, labels;
      while true
        invariant count >= start && rest <= labels && labels == old(labels) && baseCounts == old(baseCounts)
        invariant forall x :: x in labels && x !in rest ==> exists k :: start < k <= count && x == Numbered(base, k)
        invariant FreeNumber(rest, base, count) == FreeNumber(labels, base, start)
        decreases |rest|
      {
        count := count + 1;
        var candidate := Numbered(base, count);
        if candidate !in labels {
          assert candidate !in rest && FreeNumber(rest, base, count - 1) == count;
          labels := labels + {candidate};
          baseCounts := baseCounts[base := count];
          return candidate;
        }
        NumbersDiffer(base, start, count);
        assert candidate in rest;
        rest := rest - {candidate};
      }
    }

    method AddSourceNamed(preferred: string) returns (id: nat)
      modifies this`sources, this`labels, this`baseCounts
      ensures (id, Value()) == AddSource(old(Value()), preferred)
    {
      var text := UniqueSourceLabel(preferred);
      id := |sources|;
      sources := sources + [SourceEntry(id, text, 0, false)];
    }

    method AddTopicNamed(source: nat, name: string) returns (id: Option<nat>)
      modifies this`topics, this`topicByName
      ensures (id, Value()) == AddTopic(old(Value()), source, name)
    {
      if !LiveSource(Value(), source) {
        return None;
      }
      if (source, name) in topicByName {
        return Some(topicByName[(source, name)]);
      }
      var next := |topics|;
      topics := topics + [TopicEntry(next, source, name, false)];
      topicByName := topicByName[(source, name) := next];
      id := Some(next);
    }

    method AddFieldNamed(topic: nat, name: string) returns (id: Option<nat>)
      modifies this`fields, this`fieldByName, this`fieldByKey
      ensures (id, Value()) == AddField(old(Value()), topic, name)
    {
      if !LiveTopic(Value(), topic) || !LiveSource(Value(), topics[topic].source) {
        return None;
      }
      if (topic, name) in fieldByName {
        return Some(fieldByName[(topic, name)]);
      }
      var next := |fields|;
      var key := FieldKey(sources[topics[topic].source].sourceLabel, topics[topic].name, name);
      fields := fields + [FieldEntry(next, topic, name, false)];
      fieldByName := fieldByName[(topic, name) := next];
      fieldByKey := fieldByKey[key := next];
      id := Some(next);
    }

    method SetSourceOffset(source: nat, offset: int) returns (before: Option<int>)
      modifies this`sources
      ensures (before, Value()) == SetOffset(old(Value()), source, offset)
    {
      if FindSource(Value(), source).None? {
        return None;
      }
      before := Some(sources[source].offsetUs);
      sources := sources[source := sources[source].(offsetUs := offset)];
    }

    method RelabelSource(source: nat, preferred: string) returns (text: Option<string>)
      modifies this
      ensures (text, Value()) == Relabel(old(Value()), source, preferred)
    {
      if !LiveSource(Value(), source) {
        return None;
      }
      labels := labels - {sources[source].sourceLabel};
      var found := UniqueSourceLabel(preferred);
      sources := sources[source := sources[source].(sourceLabel := found)];
      ghost var renamed := Value();
      var keys: map<FieldKey, nat> := map[];
      for n := 0 to |fields|
        invariant keys == LiveKeys(renamed, n) && Value() == renamed
      {
        var f := fields[n];
        if !f.removed && f.topic < |topics| && topics[f.topic].source < |sources| {
          if !topics[f.topic].removed && !sources[topics[f.topic].source].removed {
            keys := keys[FieldKey(sources[topics[f.topic].source].sourceLabel, topics[f.topic].name, f.name) := f.id];
          }
        }
      }
      fieldByKey := keys;
      text := Some(found);
    }

    /** Removes the source with its topics and fields, and returns these. */
    method RemoveSourceAt(source: nat) returns (removed: Option<(seq<nat>, seq<nat>)>)
      requires Valid(Value())
      modifies this
      ensures Value() == RemoveSource(old(Value()), source)
      ensures removed.Some? <==> LiveSource(old(Value()), source)
      ensures removed.Some? ==>
                && (forall t: nat :: t in removed.value.0 <==> TopicOfSource(old(Value()), t, source))
                && (forall f: nat :: f in removed.value.1 <==> Gone(old(Value()), source, |old(topics)|, 0, f))
    {
      if !LiveSource(Value(), source) {
        return None;
      }
      RemovalStarts(Value(), source);
      var text := sources[source].sourceLabel;
      sources := sources[source := sources[source].(removed := true)];
      labels := labels - {text};
      ghost var r := Value();
      var goneTopics, goneFields := RemoveTopicsOf(r, source);
      removed := Some((goneTopics, goneFields));
    }

    /** Removes the source's topics one by one. */
    method RemoveTopicsOf(ghost r: Registry, source: nat) returns (goneTopics: seq<nat>, goneFields: seq<nat>)
      requires Removing(r, source) && Value() == r
      modifies this`topics, this`topicByName, this`fields, this`fieldByName, this`fieldByKey
      ensures Value() == RemovedUpTo(r, source, |r.topics|, |r.topics|, 0)
      ensures forall t: nat :: t in goneTopics <==> TopicOfSource(r, t, source)
      ensures forall f: nat :: f in goneFields <==> Gone(r, source, |r.topics|, 0, f)
    {
      hide Indexed, RemovedUpTo, Gone;
      goneTopics, goneFields := [], [];
      NothingRemoved(r, source);
      NothingGone(r, source);
      assert |topics| == |r.topics|;
      for i := 0 to |topics|
        invariant Value() == RemovedUpTo(r, source, i, i, 0)
        invariant forall t: nat :: t in goneTopics <==> t < i && TopicOfSource(r, t, source)
        invariant forall f: nat :: f in goneFields <==> Gone(r, source, i, 0, f)
      {
        GoneNext(r, source, i);
        TopicStill(r, source, i);
        assert topics == Value().topics && topics[i] == r.topics[i];
        if topics[i].source != source || topics[i].removed {
          OtherTopic(r, source, i);
          continue;
        }
        var more := RemoveTopicAt(r, source, i);
        goneTopics := goneTopics + [i];
        goneFields := goneFields + more;
      }
    }

    /** Removes topic `i` and its fields, which it returns. */
    method RemoveTopicAt(ghost r: Registry, source: nat, i: nat) returns (gone: seq<nat>)
      requires Removing(r, source) && i < |r.topics| && r.topics[i].source == source
      requires Value() == RemovedUpTo(r, source, i, i, 0)
      modifies this`topics, this`topicByName, this`fields, this`fieldByName, this`fieldByKey
      ensures Value() == RemovedUpTo(r, source, i + 1, i + 1, 0)
      ensures forall f: nat :: f in gone <==> f < |r.fields| && r.fields[f].topic == i
    {
      TopicGone(r, source, i);
      var name := topics[i].name;
      topics := topics[i := topics[i].(removed := true)];
      topicByName := topicByName - {(source, name)};
      gone := RemoveFieldsOf(r, source, i);
    }

    method RemoveFieldsOf(ghost r: Registry, source: nat, i: nat) returns (gone: seq<nat>)
      requires Indexed(r) && i < |r.topics| && r.topics[i].source == source && !r.topics[i].removed
      requires forall f :: 0 <= f < |r.fields| && r.fields[f].topic == i ==> !r.fields[f].removed
      requires Value() == RemovedUpTo(r, source, i + 1, i, 0)
      modifies this`fields, this`fieldByName, this`fieldByKey
      ensures Value() == RemovedUpTo(r, source, i + 1, i + 1, 0)
      ensures forall f: nat :: f in gone <==> f < |r.fields| && r.fields[f].topic == i
    {
      gone := [];
      for j := 0 to |fields|
        invariant Value() == RemovedUpTo(r, source, i + 1, i, j)
        invariant forall f: nat :: f in gone <==> f < j && r.fields[f].topic == i
      {
        if fields[j].topic != i || fields[j].removed {
          OtherField(r, source, i, j);
          continue;
        }
        FieldGone(r, source, i, j);
        var name := fields[j].name;
        fields := fields[j := fields[j].(removed := true)];
        fieldByName := fieldByName - {(i, name)};
        fieldByKey := fieldByKey - {FieldKey(sources[source].sourceLabel, topics[i].name, name)};
        gone := gone + [j];
      }
      FieldsDone(r, source, i);
    }
  }
}
