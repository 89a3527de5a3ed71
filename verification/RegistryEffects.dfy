/** What the operations of the registry do: the labels that are chosen, the
    entries that are made and changed, and what stays as it was. */
module RegistryEffects {
  import opened Prelude
  import opened Storage
  import opened Identity
  import Names

  // ----- Labels -----

  /** The number from which suffixes for a base are tried. */
  function TriedUpTo(r: Registry, base: string): nat {
    if base in r.baseCounts then r.baseCounts[base] else 1
  }

  /** The label for a preferred name: the name itself, or `source` for an empty
      one, if no live source has it; else the first of `name#n` that is free,
      counting on from where the last search for that name ended. */
  ghost predicate IsLabelFor(r: Registry, preferred: string, x: string) {
    var base := if preferred == "" then "source" else preferred;
    if base !in r.labels then x == base
    else
      exists n: nat ::
        && n > TriedUpTo(r, base) && x == base + "#" + Names.DigitsOf(n) && x !in r.labels
        && forall m: nat :: TriedUpTo(r, base) < m < n ==> base + "#" + Names.DigitsOf(m) in r.labels
  }

  lemma {:induction false} FirstFreeNumber(labels: set<string>, base: string, count: nat, m: nat)
    requires count < m < FreeNumber(labels, base, count)
    ensures Numbered(base, m) in labels
    decreases labels
  {
    var candidate := Numbered(base, count + 1);
    if m > count + 1 {
      FirstFreeNumber(labels - {candidate}, base, count + 1, m);
    }
  }

  lemma LabelChosen(r: Registry, preferred: string)
    ensures IsLabelFor(r, preferred, UniqueLabel(r, preferred).0)
    ensures var (x, r2) := UniqueLabel(r, preferred);
            && (forall b :: b in r.baseCounts ==> b in r2.baseCounts && r2.baseCounts[b] >= r.baseCounts[b])
            && (x != preferred && x != "source" ==>
                  var base := if preferred == "" then "source" else preferred;
                  base in r2.baseCounts && x == base + "#" + Names.DigitsOf(r2.baseCounts[base]))
            && r2 == r.(labels := r.labels + {x}, baseCounts := r2.baseCounts)
  {
    var base := BaseOf(preferred);
    if base in r.labels {
      var n := FreeNumber(r.labels, base, TriedUpTo(r, base));
      forall m: nat | TriedUpTo(r, base) < m < n
        ensures base + "#" + Names.DigitsOf(m) in r.labels
      {
        FirstFreeNumber(r.labels, base, TriedUpTo(r, base), m);
      }
    }
  }

  // ----- Sources -----

  lemma AddSourceTakesEffect(r: Registry, preferred: string)
    ensures var (id, r2) := AddSource(r, preferred);
            && id == |r.sources| && |r2.sources| == id + 1 && r2.sources[..id] == r.sources
            && r2.topics == r.topics && r2.fields == r.fields
            && var added := r2.sources[id];
               && added.id == id && added.offsetUs == 0 && !added.removed
               && IsLabelFor(r, preferred, added.sourceLabel) && r2.labels == r.labels + {added.sourceLabel}
  {
    LabelChosen(r, preferred);
  }

  lemma SetOffsetTakesEffect(r: Registry, source: nat, offset: int)
    requires Valid(r)
    ensures var (was, r2) := SetOffset(r, source, offset);
            if source < |r.sources| then
              && was == Some(r.sources[source].offsetUs)
              && r2 == r.(sources := r2.sources) && |r2.sources| == |r.sources|
              && r2.sources[source] == r.sources[source].(offsetUs := offset)
              && forall other :: 0 <= other < |r.sources| && other != source ==> r2.sources[other] == r.sources[other]
            else was == None && r2 == r
  {
  }

  /** Relabelling gives the source a label as a new one with that name would get,
      its own old label counting as free; a source that keeps its name keeps its
      label. No other entry changes. */
  lemma RelabelTakesEffect(r: Registry, source: nat, preferred: string)
    requires Valid(r)
    ensures var (text, r2) := Relabel(r, source, preferred);
            if source < |r.sources| && !r.sources[source].removed then
              var was := r.sources[source].sourceLabel;
              && text.Some? && |r2.sources| == |r.sources|
              && r2.sources[source] == r.sources[source].(sourceLabel := text.value)
              && IsLabelFor(r.(labels := r.labels - {was}), preferred, text.value)
              && (preferred == was && was != "" ==> text.value == was)
              && (forall other :: 0 <= other < |r.sources| && other != source ==> r2.sources[other] == r.sources[other])
              && r2.topics == r.topics && r2.fields == r.fields
            else text == None && r2 == r
  {
    if source < |r.sources| && !r.sources[source].removed {
      LabelChosen(r.(labels := r.labels - {r.sources[source].sourceLabel}), preferred);
    }
  }

  /** Removing marks the source, its topics and their fields, and nothing else. */
  lemma RemoveTakesEffect(r: Registry, source: nat)
    requires Valid(r)
    ensures var r2 := RemoveSource(r, source);
            if source < |r.sources| && !r.sources[source].removed then
              && |r2.sources| == |r.sources| && |r2.topics| == |r.topics| && |r2.fields| == |r.fields|
              && (forall s :: 0 <= s < |r.sources| ==>
                    r2.sources[s] == r.sources[s].(removed := r.sources[s].removed || s == source))
              && (forall t :: 0 <= t < |r.topics| ==>
                    r2.topics[t] == r.topics[t].(removed := r.topics[t].removed || r.topics[t].source == source))
              && (forall f :: 0 <= f < |r.fields| ==>
                    r2.fields[f] ==
                    r.fields[f].(removed := r.fields[f].removed || r.topics[r.fields[f].topic].source == source))
            else r2 == r
  {
    if source < |r.sources| && !r.sources[source].removed {
      RemovedEntries(r, source);
    }
  }

  // ----- Topics and fields -----

  /** Under a live source a topic of that name is found, or made if there is none
      that is live; under another there is none. */
  lemma AddTopicTakesEffect(r: Registry, source: nat, name: string)
    requires Valid(r)
    ensures var (id, r2) := AddTopic(r, source, name);
            if source >= |r.sources| || r.sources[source].removed then id == None && r2 == r
            else
              && id.Some? && id.value < |r2.topics|
              && r2.topics[id.value] == TopicEntry(id.value, source, name, false)
              && r2.sources == r.sources && r2.fields == r.fields
              && if exists t :: 0 <= t < |r.topics| && r.topics[t] == TopicEntry(t, source, name, false) then r2 == r
                 else id.value == |r.topics| && r2.topics == r.topics + [r2.topics[id.value]]
  {
    hide Labelled, FieldsIndexed, KeysIndexed;
    if source < |r.sources| && !r.sources[source].removed {
      if (source, name) in r.topicByName {
        assert NamesTopic(r, (source, name), r.topicByName[(source, name)]);
      }
      forall t: nat | t < |r.topics| && r.topics[t] == TopicEntry(t, source, name, false)
        ensures (source, name) in r.topicByName
      {
        assert NamesTopic(r, (source, name), t);
      }
    }
  }

  lemma AddFieldTakesEffect(r: Registry, topic: nat, name: string)
    requires Valid(r)
    ensures var (id, r2) := AddField(r, topic, name);
            if topic >= |r.topics| || r.topics[topic].removed then id == None && r2 == r
            else
              && id.Some? && id.value < |r2.fields|
              && r2.fields[id.value] == FieldEntry(id.value, topic, name, false)
              && r2.sources == r.sources && r2.topics == r.topics
              && if exists f :: 0 <= f < |r.fields| && r.fields[f] == FieldEntry(f, topic, name, false) then r2 == r
                 else id.value == |r.fields| && r2.fields == r.fields + [r2.fields[id.value]]
  {
    hide Labelled, TopicsIndexed, KeysIndexed;
    if topic < |r.topics| && !r.topics[topic].removed {
      if (topic, name) in r.fieldByName {
        assert NamesField(r, (topic, name), r.fieldByName[(topic, name)]);
      }
      forall f: nat | f < |r.fields| && r.fields[f] == FieldEntry(f, topic, name, false)
        ensures (topic, name) in r.fieldByName
      {
        assert NamesField(r, (topic, name), f);
      }
    }
  }
}
