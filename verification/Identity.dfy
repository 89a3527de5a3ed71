/** Identities of sources, topics and fields, with lookups by name that forget
    what was removed. */
module Identity {
  import opened Prelude
  import opened Storage
  import Names

  datatype FieldKey = FieldKey(source: string, topic: string, field: string)

  /** A registry as a value. Ids are positions. */
  datatype Registry = Registry(
    sources: seq<SourceEntry>, topics: seq<TopicEntry>, fields: seq<FieldEntry>,
    baseCounts: map<string, nat>, labels: set<string>,
    topicByName: map<(nat, string), nat>, fieldByName: map<(nat, string), nat>, fieldByKey: map<FieldKey, nat>)

  const EMPTY: Registry := Registry([], [], [], map[], {}, map[], map[], map[])

  // ----- Lookups -----

  function FindSource(r: Registry, id: nat): Option<SourceEntry> {
    if id < |r.sources| && r.sources[id].id == id then Some(r.sources[id]) else None
  }

  function FindTopic(r: Registry, id: nat): Option<TopicEntry> {
    if id < |r.topics| && r.topics[id].id == id then Some(r.topics[id]) else None
  }

  function FindField(r: Registry, id: nat): Option<FieldEntry> {
    if id < |r.fields| && r.fields[id].id == id then Some(r.fields[id]) else None
  }

  predicate LiveSource(r: Registry, id: nat) {
    FindSource(r, id).Some? && !FindSource(r, id).value.removed
  }

  predicate LiveTopic(r: Registry, id: nat) {
    FindTopic(r, id).Some? && !FindTopic(r, id).value.removed
  }

  predicate LiveField(r: Registry, id: nat) {
    FindField(r, id).Some? && !FindField(r, id).value.removed
  }

  function KeyOf(r: Registry, id: nat): Option<FieldKey> {
    var field := FindField(r, id);
    if field.None? then None
    else
      var topic := FindTopic(r, field.value.topic);
      if topic.None? then None
      else
        var source := FindSource(r, topic.value.source);
        if source.None? then None
        else Some(FieldKey(source.value.sourceLabel, topic.value.name, field.value.name))
  }

  function ResolveKey(r: Registry, key: FieldKey): Option<nat> {
    if key in r.fieldByKey then Some(r.fieldByKey[key]) else None
  }

  // ----- Adding -----

  function Numbered(base: string, n: nat): string {
    base + "#" + Names.DigitsOf(n)
  }

  /** The first number above `count` whose label is free. */
  function FreeNumber(labels: set<string>, base: string, count: nat): (n: nat)
    ensures n > count && Numbered(base, n) !in labels
    decreases labels
  {
    var candidate := Numbered(base, count + 1);
    if candidate !in labels then count + 1
    else
      var n := FreeNumber(labels - {candidate}, base, count + 1);
      Names.SuffixesDiffer(base, n, count + 1);
      n
  }

  function BaseOf(preferred: string): string {
    if preferred == "" then "source" else preferred
  }

  /** A label that is not in use, and the registry that uses it. */
  function UniqueLabel(r: Registry, preferred: string): (result: (string, Registry))
    ensures result.0 !in r.labels && result.1.labels == r.labels + {result.0}
    ensures result.1 == r.(labels := r.labels + {result.0}, baseCounts := result.1.baseCounts)
  {
    var base := BaseOf(preferred);
    if base !in r.labels then (base, r.(labels := r.labels + {base}))
    else
      var n := FreeNumber(r.labels, base, if base in r.baseCounts then r.baseCounts[base] else 1);
      var candidate := Numbered(base, n);
      (candidate, r.(labels := r.labels + {candidate}, baseCounts := r.baseCounts[base := n]))
  }

  function AddSource(r: Registry, preferred: string): (nat, Registry) {
    var (text, r1) := UniqueLabel(r, preferred);
    (|r.sources|, r1.(sources := r.sources + [SourceEntry(|r.sources|, text, 0, false)]))
  }

  function AddTopic(r: Registry, source: nat, name: string): (Option<nat>, Registry) {
    if !LiveSource(r, source) then (None, r)
    else if (source, name) in r.topicByName then (Some(r.topicByName[(source, name)]), r)
    else
      var id := |r.topics|;
      (Some(id), r.(topics := r.topics + [TopicEntry(id, source, name, false)],
                    topicByName := r.topicByName[(source, name) := id]))
  }

  function AddField(r: Registry, topic: nat, name: string): (Option<nat>, Registry) {
    if !LiveTopic(r, topic) || !LiveSource(r, r.topics[topic].source) then (None, r)
    else if (topic, name) in r.fieldByName then (Some(r.fieldByName[(topic, name)]), r)
    else
      var id := |r.fields|;
      var key := FieldKey(r.sources[r.topics[topic].source].sourceLabel, r.topics[topic].name, name);
      (Some(id), r.(fields := r.fields + [FieldEntry(id, topic, name, false)],
                    fieldByName := r.fieldByName[(topic, name) := id],
                    fieldByKey := r.fieldByKey[key := id]))
  }

  function SetOffset(r: Registry, source: nat, offset: int): (Option<int>, Registry) {
    if FindSource(r, source).None? then (None, r)
    else (Some(r.sources[source].offsetUs), r.(sources := r.sources[source := r.sources[source].(offsetUs := offset)]))
  }

  // ----- Removing and relabelling -----

  /** The topic belongs to `source`. */
  predicate TopicOfSource(r: Registry, topic: nat, source: nat) {
    topic < |r.topics| && r.topics[topic].source == source
  }

  /** The field is among those of `source` whose topic comes before topic `i`,
      or is `i` and the field comes before field `j`. */
  predicate Gone(r: Registry, source: nat, i: nat, j: nat, field: nat) {
    && field < |r.fields| && TopicOfSource(r, r.fields[field].topic, source)
    && (r.fields[field].topic < i || (r.fields[field].topic == i && field < j))
  }

  /** Everything of `source` before topic `i` and field `j` removed. */
  function RemovedUpTo(r: Registry, source: nat, topics: nat, i: nat, j: nat): Registry
  {
    r.(topics := seq(|r.topics|, t requires 0 <= t < |r.topics| =>
                     if t < topics && r.topics[t].source == source then r.topics[t].(removed := true) else r.topics[t]),
       fields := seq(|r.fields|, f requires 0 <= f < |r.fields| =>
                     if Gone(r, source, i, j, f) then r.fields[f].(removed := true) else r.fields[f]),
       topicByName := map k | k in r.topicByName
         && !(r.topicByName[k] < topics && TopicOfSource(r, r.topicByName[k], source))
                        :: r.topicByName[k],
       fieldByName := map k | k in r.fieldByName && !Gone(r, source, i, j, r.fieldByName[k]) :: r.fieldByName[k],
       fieldByKey := map k | k in r.fieldByKey && !Gone(r, source, i, j, r.fieldByKey[k]) :: r.fieldByKey[k])
  }

  function WithoutLabel(r: Registry, source: nat): Registry
    requires source < |r.sources|
  {
    r.(sources := r.sources[source := r.sources[source].(removed := true)],
       labels := r.labels - {r.sources[source].sourceLabel})
  }

  function RemoveSource(r: Registry, source: nat): Registry {
    if !LiveSource(r, source) then r
    else RemovedUpTo(WithoutLabel(r, source), source, |r.topics|, |r.topics|, 0)
  }

  /** The keys of the first `n` fields, those of removed ones left out. */
  function LiveKeys(r: Registry, n: nat): map<FieldKey, nat>
    requires n <= |r.fields|
  {
    if n == 0 then map[]
    else
      var f := r.fields[n - 1];
      var before := LiveKeys(r, n - 1);
      if !f.removed && f.topic < |r.topics| && r.topics[f.topic].source < |r.sources|
         && !r.topics[f.topic].removed && !r.sources[r.topics[f.topic].source].removed
      then before[FieldKey(r.sources[r.topics[f.topic].source].sourceLabel, r.topics[f.topic].name, f.name) := f.id]
      else before
  }

  function Relabel(r: Registry, source: nat, preferred: string): (Option<string>, Registry) {
    if !LiveSource(r, source) then (None, r)
    else
      var (text, r1) := UniqueLabel(r.(labels := r.labels - {r.sources[source].sourceLabel}), preferred);
      var r2 := r1.(sources := r1.sources[source := r1.sources[source].(sourceLabel := text)]);
      (Some(text), r2.(fieldByKey := LiveKeys(r2, |r2.fields|)))
  }

  // ----- What always holds -----

  ghost predicate Positioned(r: Registry) {
    && (forall i :: 0 <= i < |r.sources| ==> r.sources[i].id == i)
    && (forall i :: 0 <= i < |r.topics| ==> r.topics[i].id == i && r.topics[i].source < |r.sources|)
    && (forall i :: 0 <= i < |r.fields| ==> r.fields[i].id == i && r.fields[i].topic < |r.topics|)
  }

  /** Topics and fields are removed with their source, and only then. */
  ghost predicate RemovedTogether(r: Registry)
    requires Positioned(r)
  {
    && (forall i :: 0 <= i < |r.topics| ==> r.topics[i].removed == r.sources[r.topics[i].source].removed)
    && (forall i :: 0 <= i < |r.fields| ==> r.fields[i].removed == r.topics[r.fields[i].topic].removed)
  }

  /** The labels in use are those of the live sources, no two the same. */
  ghost predicate Labelled(r: Registry) {
    && (forall i, j :: 0 <= i < j < |r.sources| && !r.sources[i].removed && !r.sources[j].removed ==>
         r.sources[i].sourceLabel != r.sources[j].sourceLabel)
    && (forall x :: x in r.labels <==>
          exists i :: 0 <= i < |r.sources| && !r.sources[i].removed && r.sources[i].sourceLabel == x)
  }

  ghost predicate NamesTopic(r: Registry, k: (nat, string), t: nat) {
    t < |r.topics| && !r.topics[t].removed && r.topics[t].source == k.0 && r.topics[t].name == k.1
  }

  ghost predicate NamesField(r: Registry, k: (nat, string), f: nat) {
    f < |r.fields| && !r.fields[f].removed && r.fields[f].topic == k.0 && r.fields[f].name == k.1
  }

  ghost predicate NamesKey(r: Registry, k: FieldKey, f: nat) {
    LiveField(r, f) && KeyOf(r, f) == Some(k)
  }

  ghost predicate TopicsIndexed(r: Registry) {
    forall k, t: nat :: k in r.topicByName && r.topicByName[k] == t <==> NamesTopic(r, k, t)
  }

  ghost predicate FieldsIndexed(r: Registry) {
    forall k, f: nat :: k in r.fieldByName && r.fieldByName[k] == f <==> NamesField(r, k, f)
  }

  /** Keys resolve to exactly the live fields they are the keys of. */
  ghost predicate KeysIndexed(r: Registry) {
    forall k: FieldKey, f: nat :: ResolveKey(r, k) == Some(f) <==> NamesKey(r, k, f)
  }

  ghost predicate Valid(r: Registry) {
    && Positioned(r) && RemovedTogether(r) && Labelled(r)
    && TopicsIndexed(r) && FieldsIndexed(r) && KeysIndexed(r)
  }

  lemma EmptyIsValid()
    ensures Valid(EMPTY)
  {
  }

  // ----- Every operation keeps it -----

  /** The key of a live field is that of no other. */
  lemma KeysDiffer(r: Registry, f: nat, g: nat)
    requires Valid(r) && LiveField(r, f) && LiveField(r, g) && KeyOf(r, f) == KeyOf(r, g)
    ensures f == g
  {
    assert NamesKey(r, KeyOf(r, f).value, f) && NamesKey(r, KeyOf(r, f).value, g);
    assert ResolveKey(r, KeyOf(r, f).value) == Some(f);
    assert ResolveKey(r, KeyOf(r, f).value) == Some(g);
  }

  lemma AddSourceKeepsValid(r: Registry, preferred: string)
    requires Valid(r)
    ensures Valid(AddSource(r, preferred).1)
  {
    var r2 := AddSource(r, preferred).1;
    var text := UniqueLabel(r, preferred).0;
    var n := |r.sources|;
    assert forall i :: 0 <= i < n ==> r2.sources[i] == r.sources[i];
    assert r2.sources[n] == SourceEntry(n, text, 0, false);
    forall x
      ensures x in r2.labels <==>
                exists i :: 0 <= i < |r2.sources| && !r2.sources[i].removed && r2.sources[i].sourceLabel == x
    {
      if x in r.labels {
        var i :| 0 <= i < n && !r.sources[i].removed && r.sources[i].sourceLabel == x;
        assert r2.sources[i].sourceLabel == x;
      }
    }
    forall k, t: nat
      ensures NamesTopic(r, k, t) <==> NamesTopic(r2, k, t)
    {
    }
    forall k, f: nat
      ensures NamesField(r, k, f) <==> NamesField(r2, k, f)
    {
    }
    forall k: FieldKey, f: nat
      ensures NamesKey(r, k, f) <==> NamesKey(r2, k, f)
    {
      SameKey(r, r2, f);
    }
    assert forall k: FieldKey :: ResolveKey(r2, k) == ResolveKey(r, k);
  }

  /** Added sources, topics and fields do not change the keys of others. */
  lemma SameKey(r: Registry, r2: Registry, f: nat)
    requires Positioned(r) && Positioned(r2)
    requires |r.sources| <= |r2.sources| && |r.topics| <= |r2.topics| && |r.fields| <= |r2.fields|
    requires r.sources == r2.sources[..|r.sources|] && r.topics == r2.topics[..|r.topics|]
    requires r.fields == r2.fields[..|r.fields|]
    ensures f < |r.fields| ==> KeyOf(r2, f) == KeyOf(r, f) && (LiveField(r, f) <==> LiveField(r2, f))
  {
    if f < |r.fields| {
      var t := r.fields[f].topic;
      assert r2.fields[f] == r2.fields[..|r.fields|][f];
      assert r2.topics[t] == r2.topics[..|r.topics|][t];
      var s := r.topics[t].source;
      assert r2.sources[s] == r2.sources[..|r.sources|][s];
    }
  }

  lemma AddTopicKeepsValid(r: Registry, source: nat, name: string)
    requires Valid(r)
    ensures Valid(AddTopic(r, source, name).1)
  {
    var r2 := AddTopic(r, source, name).1;
    if r2 != r {
      var n := |r.topics|;
      assert r2.topics[..n] == r.topics && r2.topics[n] == TopicEntry(n, source, name, false);
      assert forall i :: 0 <= i < n ==> r2.topics[i] == r.topics[i];
      forall k, t: nat
        ensures k in r2.topicByName && r2.topicByName[k] == t <==> NamesTopic(r2, k, t)
      {
        assert t < n ==> (NamesTopic(r, k, t) <==> NamesTopic(r2, k, t));
        assert t == n ==> (NamesTopic(r2, k, t) <==> k == (source, name));
        assert k in r.topicByName && r.topicByName[k] == t <==> NamesTopic(r, k, t);
      }
      assert forall k, f: nat :: NamesField(r, k, f) <==> NamesField(r2, k, f);
      forall k: FieldKey, f: nat
        ensures NamesKey(r, k, f) <==> NamesKey(r2, k, f)
      {
        SameKey(r, r2, f);
      }
      assert forall k: FieldKey :: ResolveKey(r2, k) == ResolveKey(r, k);
    }
  }

  lemma AddFieldKeepsValid(r: Registry, topic: nat, name: string)
    requires Valid(r)
    ensures Valid(AddField(r, topic, name).1)
  {
    var r2 := AddField(r, topic, name).1;
    if r2 != r {
      var n := |r.fields|;
      assert r2.fields[..n] == r.fields && r2.fields[n] == FieldEntry(n, topic, name, false);
      assert forall i :: 0 <= i < n ==> r2.fields[i] == r.fields[i];
      assert forall k, t: nat :: NamesTopic(r, k, t) <==> NamesTopic(r2, k, t);
      forall k, f: nat
        ensures k in r2.fieldByName && r2.fieldByName[k] == f <==> NamesField(r2, k, f)
      {
        assert f < n ==> (NamesField(r, k, f) <==> NamesField(r2, k, f));
        assert f == n ==> (NamesField(r2, k, f) <==> k == (topic, name));
        assert k in r.fieldByName && r.fieldByName[k] == f <==> NamesField(r, k, f);
      }
      NewKey(r, topic, name);
    }
  }

  lemma NewKey(r: Registry, topic: nat, name: string)
    requires Valid(r) && LiveTopic(r, topic) && (topic, name) !in r.fieldByName
    requires LiveSource(r, r.topics[topic].source)
    requires Positioned(AddField(r, topic, name).1)
    ensures KeysIndexed(AddField(r, topic, name).1)
  {
    var r2 := AddField(r, topic, name).1;
    var n := |r.fields|;
    var key := FieldKey(r.sources[r.topics[topic].source].sourceLabel, r.topics[topic].name, name);
    forall k: FieldKey, f: nat
      ensures ResolveKey(r2, k) == Some(f) <==> NamesKey(r2, k, f)
    {
      SameKey(r, r2, f);
      assert f < n ==> (NamesKey(r, k, f) <==> NamesKey(r2, k, f));
      if f == n {
        KeyOfNew(r, topic, name);
      }
      assert ResolveKey(r, k) == Some(f) <==> NamesKey(r, k, f);
      if k == key && f < n && NamesKey(r, k, f) {
        SameNameSameTopic(r, f, topic);
        assert NamesField(r, (topic, name), f);
      }
    }
  }

  lemma KeyOfNew(r: Registry, topic: nat, name: string)
    requires Valid(r) && LiveTopic(r, topic) && (topic, name) !in r.fieldByName
    requires LiveSource(r, r.topics[topic].source)
    ensures var r2 := AddField(r, topic, name).1;
            KeyOf(r2, |r.fields|) ==
            Some(FieldKey(r.sources[r.topics[topic].source].sourceLabel, r.topics[topic].name, name))
  {
    var r2 := AddField(r, topic, name).1;
    assert r2.fields[|r.fields|] == FieldEntry(|r.fields|, topic, name, false);
  }

  /** Live fields whose keys agree but for the field name are of one topic. */
  lemma SameNameSameTopic(r: Registry, f: nat, topic: nat)
    requires Valid(r) && LiveField(r, f) && LiveTopic(r, topic) && KeyOf(r, f).Some?
    requires KeyOf(r, f).value.source == r.sources[r.topics[topic].source].sourceLabel
    requires KeyOf(r, f).value.topic == r.topics[topic].name
    ensures r.fields[f].topic == topic
  {
    var t := r.fields[f].topic;
    var k := (r.topics[t].source, r.topics[t].name);
    assert NamesTopic(r, k, t) && NamesTopic(r, k, topic);
    assert r.topicByName[k] == t && r.topicByName[k] == topic;
  }

  /** Only an offset differs. */
  ghost predicate OnlyOffsets(r: Registry, r2: Registry) {
    && r2 == r.(sources := r2.sources) && |r2.sources| == |r.sources|
    && forall i :: 0 <= i < |r.sources| ==> r2.sources[i] == r.sources[i].(offsetUs := r2.sources[i].offsetUs)
  }

  lemma OffsetsKeepIndexes(r: Registry, r2: Registry)
    requires OnlyOffsets(r, r2) && Positioned(r) && TopicsIndexed(r) && FieldsIndexed(r) && KeysIndexed(r)
    ensures TopicsIndexed(r2) && FieldsIndexed(r2) && KeysIndexed(r2)
  {
    assert forall k, t: nat :: NamesTopic(r, k, t) <==> NamesTopic(r2, k, t);
    assert forall k, f: nat :: NamesField(r, k, f) <==> NamesField(r2, k, f);
    forall k: FieldKey, f: nat
      ensures ResolveKey(r2, k) == Some(f) <==> NamesKey(r2, k, f)
    {
      assert NamesKey(r, k, f) <==> NamesKey(r2, k, f);
      assert ResolveKey(r, k) == Some(f) <==> NamesKey(r, k, f);
    }
  }

  lemma OffsetsKeepLabels(r: Registry, r2: Registry)
    requires OnlyOffsets(r, r2) && Labelled(r)
    ensures Labelled(r2)
  {
    forall x
      ensures x in r2.labels <==>
                exists i :: 0 <= i < |r2.sources| && !r2.sources[i].removed && r2.sources[i].sourceLabel == x
    {
      if x in r.labels {
        var i :| 0 <= i < |r.sources| && !r.sources[i].removed && r.sources[i].sourceLabel == x;
        assert r2.sources[i].sourceLabel == x;
      }
    }
  }

  lemma SetOffsetKeepsValid(r: Registry, source: nat, offset: int)
    requires Valid(r)
    ensures Valid(SetOffset(r, source, offset).1)
  {
    hide Labelled, TopicsIndexed, FieldsIndexed, KeysIndexed;
    var r2 := SetOffset(r, source, offset).1;
    OffsetsKeepLabels(r, r2);
    OffsetsKeepIndexes(r, r2);
  }

  lemma RemoveSourceKeepsValid(r: Registry, source: nat)
    requires Valid(r)
    ensures Valid(RemoveSource(r, source))
  {
    if LiveSource(r, source) {
      var r2 := RemoveSource(r, source);
      RemovedEntries(r, source);
      RemovedLabels(r, source);
      RemovedIndexes(r, source);
    }
  }

  /** The entries after a removal. */
  ghost predicate Tombstoned(r: Registry, source: nat, r2: Registry)
    requires Positioned(r) && source < |r.sources|
  {
    && r2.sources == r.sources[source := r.sources[source].(removed := true)]
    && |r2.topics| == |r.topics| && |r2.fields| == |r.fields|
    && (forall t :: 0 <= t < |r.topics| ==>
         r2.topics[t] == r.topics[t].(removed := r.topics[t].removed || r.topics[t].source == source))
    && (forall f :: 0 <= f < |r.fields| ==>
         r2.fields[f] == r.fields[f].(removed := r.fields[f].removed || r.topics[r.fields[f].topic].source == source))
  }

  lemma RemovedEntries(r: Registry, source: nat)
    requires Valid(r) && LiveSource(r, source)
    ensures Tombstoned(r, source, RemoveSource(r, source))
    ensures Positioned(RemoveSource(r, source)) && RemovedTogether(RemoveSource(r, source))
  {
    var r1 := WithoutLabel(r, source);
    var r2 := RemoveSource(r, source);
    forall f | 0 <= f < |r.fields|
      ensures Gone(r1, source, |r.topics|, 0, f) <==> r.topics[r.fields[f].topic].source == source
    {
    }
  }

  lemma RemovedLabels(r: Registry, source: nat)
    requires Valid(r) && LiveSource(r, source) && Tombstoned(r, source, RemoveSource(r, source))
    ensures Labelled(RemoveSource(r, source))
  {
    var r2 := RemoveSource(r, source);
    forall x
      ensures x in r2.labels <==>
                exists i :: 0 <= i < |r2.sources| && !r2.sources[i].removed && r2.sources[i].sourceLabel == x
    {
      if x in r2.labels {
        var i :| 0 <= i < |r.sources| && !r.sources[i].removed && r.sources[i].sourceLabel == x;
        assert r2.sources[i].sourceLabel == x;
      }
    }
  }

  lemma RemovedIndexes(r: Registry, source: nat)
    requires Valid(r) && LiveSource(r, source) && Tombstoned(r, source, RemoveSource(r, source))
    requires Positioned(RemoveSource(r, source))
    ensures var r2 := RemoveSource(r, source); TopicsIndexed(r2) && FieldsIndexed(r2) && KeysIndexed(r2)
  {
    var r1 := WithoutLabel(r, source);
    var r2 := RemoveSource(r, source);
    forall k, t: nat
      ensures k in r2.topicByName && r2.topicByName[k] == t <==> NamesTopic(r2, k, t)
    {
      assert NamesTopic(r2, k, t) <==> NamesTopic(r, k, t) && r.topics[t].source != source;
    }
    forall k, f: nat
      ensures k in r2.fieldByName && r2.fieldByName[k] == f <==> NamesField(r2, k, f)
    {
      assert NamesField(r2, k, f) <==> NamesField(r, k, f) && !TopicOfSource(r, r.fields[f].topic, source);
      assert f < |r.fields| ==> (Gone(r1, source, |r.topics|, 0, f) <==> TopicOfSource(r, r.fields[f].topic, source));
    }
    forall k: FieldKey, f: nat
      ensures ResolveKey(r2, k) == Some(f) <==> NamesKey(r2, k, f)
    {
      assert NamesKey(r2, k, f) <==> NamesKey(r, k, f) && !TopicOfSource(r, r.fields[f].topic, source);
      assert f < |r.fields| ==> (Gone(r1, source, |r.topics|, 0, f) <==> TopicOfSource(r, r.fields[f].topic, source));
      assert ResolveKey(r, k) == Some(f) <==> NamesKey(r, k, f);
    }
  }

  /** Distinct labels and names make distinct keys. */
  lemma KeysAreDistinct(r: Registry, f: nat, g: nat)
    requires Positioned(r) && RemovedTogether(r) && Labelled(r) && TopicsIndexed(r) && FieldsIndexed(r)
    requires LiveField(r, f) && LiveField(r, g) && KeyOf(r, f) == KeyOf(r, g)
    ensures f == g
  {
    var t, u := r.fields[f].topic, r.fields[g].topic;
    var s := r.topics[t].source;
    assert s == r.topics[u].source;
    assert NamesTopic(r, (s, r.topics[t].name), t) && NamesTopic(r, (s, r.topics[t].name), u);
    assert r.topicByName[(s, r.topics[t].name)] == t && r.topicByName[(s, r.topics[t].name)] == u;
    assert NamesField(r, (t, r.fields[f].name), f) && NamesField(r, (t, r.fields[f].name), g);
    assert r.fieldByName[(t, r.fields[f].name)] == f && r.fieldByName[(t, r.fields[f].name)] == g;
  }

  lemma {:induction false} LiveKeysAreExact(r: Registry, n: nat)
    requires Positioned(r) && RemovedTogether(r) && Labelled(r) && TopicsIndexed(r) && FieldsIndexed(r)
    requires n <= |r.fields|
    ensures forall k: FieldKey, f: nat :: Maps(LiveKeys(r, n), k, f) <==> f < n && NamesKey(r, k, f)
  {
    if n > 0 {
      LiveKeysAreExact(r, n - 1);
      LastLiveKey(r, n);
      forall k: FieldKey, f: nat
        ensures Maps(LiveKeys(r, n), k, f) <==> f < n && NamesKey(r, k, f)
      {
        if f < n - 1 && NamesKey(r, k, f) && NamesKey(r, k, n - 1) {
          KeysAreDistinct(r, f, n - 1);
        }
        assert Maps(LiveKeys(r, n - 1), k, f) <==> f < n - 1 && NamesKey(r, k, f);
      }
    }
  }

  predicate Maps(m: map<FieldKey, nat>, k: FieldKey, f: nat) {
    k in m && m[k] == f
  }

  lemma LastLiveKey(r: Registry, n: nat)
    requires Positioned(r) && RemovedTogether(r) && 0 < n <= |r.fields|
    ensures KeyOf(r, n - 1).Some?
    ensures LiveKeys(r, n)
         == if LiveField(r, n - 1) then LiveKeys(r, n - 1)[KeyOf(r, n - 1).value := n - 1] else LiveKeys(r, n - 1)
  {
    var e := r.fields[n - 1];
    var t := r.topics[e.topic];
    assert e.id == n - 1 && t.id == e.topic && r.sources[t.source].id == t.source;
  }

  lemma RelabelKeepsValid(r: Registry, source: nat, preferred: string)
    requires Valid(r)
    ensures Valid(Relabel(r, source, preferred).1)
  {
    if LiveSource(r, source) {
      var freed := r.(labels := r.labels - {r.sources[source].sourceLabel});
      var (text, r1) := UniqueLabel(freed, preferred);
      var r2 := r1.(sources := r1.sources[source := r1.sources[source].(sourceLabel := text)]);
      assert forall k, t: nat :: NamesTopic(r, k, t) <==> NamesTopic(r2, k, t);
      assert forall k, f: nat :: NamesField(r, k, f) <==> NamesField(r2, k, f);
      RelabelledLabels(r, source, text, r2);
      LiveKeysAreExact(r2, |r2.fields|);
      var r3 := Relabel(r, source, preferred).1;
      assert forall k, t: nat :: NamesTopic(r2, k, t) <==> NamesTopic(r3, k, t);
      assert forall k, f: nat :: NamesField(r2, k, f) <==> NamesField(r3, k, f);
      forall k: FieldKey, f: nat
        ensures ResolveKey(r3, k) == Some(f) <==> NamesKey(r3, k, f)
      {
        assert NamesKey(r2, k, f) <==> NamesKey(r3, k, f);
        assert Maps(LiveKeys(r2, |r2.fields|), k, f) <==> f < |r2.fields| && NamesKey(r2, k, f);
      }
    }
  }

  lemma RelabelledLabels(r: Registry, source: nat, text: string, r2: Registry)
    requires Valid(r) && LiveSource(r, source)
    requires text !in r.labels - {r.sources[source].sourceLabel}
    requires r2.sources == r.sources[source := r.sources[source].(sourceLabel := text)]
    requires r2.labels == r.labels - {r.sources[source].sourceLabel} + {text}
    ensures Labelled(r2)
  {
    forall x
      ensures x in r2.labels <==>
                exists i :: 0 <= i < |r2.sources| && !r2.sources[i].removed && r2.sources[i].sourceLabel == x
    {
      if x == text {
        assert r2.sources[source].sourceLabel == x;
      } else if x in r2.labels {
        var i :| 0 <= i < |r.sources| && !r.sources[i].removed && r.sources[i].sourceLabel == x;
        assert r2.sources[i].sourceLabel == x;
      }
    }
  }

  // ----- Runs -----

  datatype Op =
    | OpAddSource(name: string) | OpAddTopic(source: nat, name: string) | OpAddField(topic: nat, name: string)
    | OpRemove(source: nat) | OpRelabel(source: nat, name: string) | OpOffset(source: nat, offset: int)

  function Applied(r: Registry, op: Op): Registry {
    match op
    case OpAddSource(name) => AddSource(r, name).1
    case OpAddTopic(source, name) => AddTopic(r, source, name).1
    case OpAddField(topic, name) => AddField(r, topic, name).1
    case OpRemove(source) => RemoveSource(r, source)
    case OpRelabel(source, name) => Relabel(r, source, name).1
    case OpOffset(source, offset) => SetOffset(r, source, offset).1
  }

  function AllApplied(r: Registry, ops: seq<Op>): Registry {
    if ops == [] then r else Applied(AllApplied(r, ops[..|ops| - 1]), ops[|ops| - 1])
  }

  lemma AppliedIsValid(r: Registry, op: Op)
    requires Valid(r)
    ensures Valid(Applied(r, op))
  {
    match op
    case OpAddSource(name) => AddSourceKeepsValid(r, name);
    case OpAddTopic(source, name) => AddTopicKeepsValid(r, source, name);
    case OpAddField(topic, name) => AddFieldKeepsValid(r, topic, name);
    case OpRemove(source) => RemoveSourceKeepsValid(r, source);
    case OpRelabel(source, name) => RelabelKeepsValid(r, source, name);
    case OpOffset(source, offset) => SetOffsetKeepsValid(r, source, offset);
  }

  /** What a later registry must still say: ids keep their meaning, and what is
      removed stays removed. */
  ghost predicate Remembers(r: Registry, later: Registry) {
    && |r.sources| <= |later.sources| && |r.topics| <= |later.topics| && |r.fields| <= |later.fields|
    && (forall i :: 0 <= i < |r.sources| ==> (r.sources[i].removed ==> later.sources[i].removed))
    && (forall i :: 0 <= i < |r.topics| ==>
         && later.topics[i].source == r.topics[i].source && later.topics[i].name == r.topics[i].name
         && (r.topics[i].removed ==> later.topics[i].removed))
    && (forall i :: 0 <= i < |r.fields| ==>
         && later.fields[i].topic == r.fields[i].topic && later.fields[i].name == r.fields[i].name
         && (r.fields[i].removed ==> later.fields[i].removed))
  }

  lemma AppliedRemembers(r: Registry, op: Op)
    requires Valid(r)
    ensures Remembers(r, Applied(r, op))
  {
    match op
    case OpRemove(source) =>
      if LiveSource(r, source) {
        RemovedEntries(r, source);
      }
    case _ =>
  }

  /** In every reachable registry keys resolve to exactly the live fields that
      have them. */
  lemma {:induction false} ReachableIsValid(ops: seq<Op>)
    ensures Valid(AllApplied(EMPTY, ops))
  {
    if ops == [] {
      EmptyIsValid();
    } else {
      ReachableIsValid(ops[..|ops| - 1]);
      AppliedIsValid(AllApplied(EMPTY, ops[..|ops| - 1]), ops[|ops| - 1]);
    }
  }

  lemma RemembersOnward(a: Registry, b: Registry, c: Registry)
    requires Remembers(a, b) && Remembers(b, c)
    ensures Remembers(a, c)
  {
  }

  /** Whatever happens later, ids mean what they meant. */
  lemma {:induction false} ReachableRemembers(ops: seq<Op>, k: nat)
    requires k <= |ops|
    ensures Remembers(AllApplied(EMPTY, ops[..k]), AllApplied(EMPTY, ops))
  {
    if k == |ops| {
      assert ops[..k] == ops;
    } else {
      var n := |ops| - 1;
      ReachableRemembers(ops[..n], k);
      assert ops[..n][..k] == ops[..k];
      ReachableIsValid(ops[..n]);
      AppliedRemembers(AllApplied(EMPTY, ops[..n]), ops[n]);
      RemembersOnward(AllApplied(EMPTY, ops[..k]), AllApplied(EMPTY, ops[..n]), AllApplied(EMPTY, ops));
    }
  }

  /** A source that is removed and added again under its name has its old label
      back when nothing else has taken it, and a new id. */
  lemma LabelComesBack(r: Registry, source: nat)
    requires Valid(r) && LiveSource(r, source) && r.sources[source].sourceLabel != ""
    ensures var text := r.sources[source].sourceLabel;
            var (id, r2) := AddSource(RemoveSource(r, source), text);
            id == |r.sources| && r2.sources[id].sourceLabel == text && r2.sources[source].removed
  {
    RemovedEntries(r, source);
  }
}
