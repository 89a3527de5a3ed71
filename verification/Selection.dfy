/** Which data a selector or a field id leads to. */
module Selection {
  import opened Prelude
  import opened GraphModel
  import opened Storage
  import opened Evaluator
  import Names
  import Tr = Trace

  // ----- Fields by id -----

  /** The entries of a field, its topic and its source stand at their ids, and
      its column is the first of that name in the topic's store. */
  predicate Stands(s: Snapshot, field: nat, topic: nat, source: nat, column: nat) {
    && field < |s.fields| && s.fields[field].id == field && s.fields[field].topic == topic
    && topic < |s.topics| && s.topics[topic].entry.id == topic && s.topics[topic].entry.source == source
    && source < |s.sources| && s.sources[source].entry.id == source
    && s.topics[topic].store.Some?
    && var columns := s.topics[topic].store.value.schema.fields;
       && column < |columns| && columns[column].name == s.fields[field].name
       && forall k :: 0 <= k < column ==> columns[k].name != s.fields[field].name
  }

  lemma {:induction false} FirstNamed(fields: seq<FieldSchema>, name: string)
    ensures forall k :: 0 <= k < FieldIndex(fields, name) ==> fields[k].name != name
  {
    if fields != [] && fields[0].name != name {
      FirstNamed(fields[1..], name);
      forall k | 0 <= k < FieldIndex(fields, name)
        ensures fields[k].name != name
      {
        assert k > 0 ==> fields[k] == fields[1..][k - 1];
      }
    }
  }

  /** A field has a view exactly if its entries stand, and the view is of that
      column, with the offset of that source. */
  lemma ViewMeans(s: Snapshot, field: nat)
    ensures ViewOf(s, field).Some? <==>
              exists topic: nat, source: nat, column: nat :: Stands(s, field, topic, source, column)
    ensures forall topic: nat, source: nat, column: nat :: Stands(s, field, topic, source, column) ==>
              ViewOf(s, field) ==
              Some(View(topic, s.topics[topic].store.value, column, s.sources[source].entry.offsetUs))
  {
    hide FieldIndex;
    forall topic: nat, source: nat, column: nat | Stands(s, field, topic, source, column)
      ensures ViewOf(s, field) ==
              Some(View(topic, s.topics[topic].store.value, column, s.sources[source].entry.offsetUs))
    {
      FirstNamed(s.topics[topic].store.value.schema.fields, s.fields[field].name);
    }
    if ViewOf(s, field).Some? {
      var topic := s.fields[field].topic;
      var v := ViewOf(s, field).value;
      FirstNamed(s.topics[topic].store.value.schema.fields, s.fields[field].name);
      assert Stands(s, field, topic, s.topics[topic].entry.source, v.column);
    }
  }

  /** A trace is drawn of such a field, if neither it nor its topic is removed,
      with the column's multiplier. */
  lemma TraceMeans(s: Snapshot, field: nat)
    ensures Tr.ResolveTrace(s, field).Some? <==>
              exists topic: nat, source: nat, column: nat ::
                && Stands(s, field, topic, source, column)
                && !s.fields[field].removed && !s.topics[topic].entry.removed
    ensures forall topic: nat, source: nat, column: nat ::
              Stands(s, field, topic, source, column) && !s.fields[field].removed && !s.topics[topic].entry.removed ==>
                var store := s.topics[topic].store.value;
                Tr.ResolveTrace(s, field) ==
                Some(Tr.TraceSource(store, column, s.sources[source].entry.offsetUs,
                                    store.schema.fields[column].multiplier))
  {
    hide FieldIndex;
    forall topic: nat, source: nat, column: nat |
        Stands(s, field, topic, source, column) && !s.fields[field].removed && !s.topics[topic].entry.removed
      ensures var store := s.topics[topic].store.value;
              Tr.ResolveTrace(s, field) ==
              Some(Tr.TraceSource(store, column, s.sources[source].entry.offsetUs,
                                  store.schema.fields[column].multiplier))
    {
      FirstNamed(s.topics[topic].store.value.schema.fields, s.fields[field].name);
    }
    if Tr.ResolveTrace(s, field).Some? {
      var topic := s.fields[field].topic;
      var v := Tr.ResolveTrace(s, field).value;
      FirstNamed(s.topics[topic].store.value.schema.fields, s.fields[field].name);
      assert Stands(s, field, topic, s.topics[topic].entry.source, v.column);
    }
  }

  // ----- Selectors -----

  /** Topic `t` of source `i`, in the order of the snapshot, is one that the
      selector may mean: neither is removed, the topic has data, and names fit,
      the topic's as a whole or as a base with an instance number. */
  predicate MayMean(snap: Snapshot, s: FieldSelector, i: nat, t: nat) {
    && i < |snap.sources| && !snap.sources[i].entry.removed
    && (s.source == None || s.source == Some(snap.sources[i].entry.sourceLabel))
    && t < |snap.sources[i].topics|
    && var topic := snap.sources[i].topics[t];
       && topic < |snap.topics| && snap.topics[topic].entry.id == topic
       && !snap.topics[topic].entry.removed && snap.topics[topic].store.Some?
       && var name := snap.topics[topic].entry.name;
          (name == s.topic && s.instance == None) || Names.ParseInstance(name) == (s.topic, s.instance)
  }

  /** One topic only may be meant. */
  ghost predicate Means(snap: Snapshot, s: FieldSelector, i: nat, t: nat) {
    && MayMean(snap, s, i, t)
    && forall j: nat, u: nat :: MayMean(snap, s, j, u) ==> j == i && u == t
  }

  /** The places in the first `n` topics of source `i` that may be meant. */
  function TopicPlaces(snap: Snapshot, i: nat, n: nat, s: FieldSelector): seq<(nat, nat)> {
    if n == 0 then []
    else TopicPlaces(snap, i, n - 1, s) + (if MayMean(snap, s, i, n - 1) then [(i, n - 1)] else [])
  }

  function Places(snap: Snapshot, n: nat, s: FieldSelector): seq<(nat, nat)>
    requires n <= |snap.sources|
  {
    if n == 0 then []
    else Places(snap, n - 1, s) + TopicPlaces(snap, n - 1, |snap.sources[n - 1].topics|, s)
  }

  /** Each place is listed once. */
  ghost predicate ListsOnce(places: seq<(nat, nat)>) {
    forall j, k :: 0 <= j < k < |places| ==> places[j] != places[k]
  }

  lemma {:induction false} TopicPlacesListed(snap: Snapshot, i: nat, n: nat, s: FieldSelector)
    ensures var p := TopicPlaces(snap, i, n, s);
            ListsOnce(p) && forall x :: x in p <==> x.0 == i && x.1 < n && MayMean(snap, s, i, x.1)
  {
    hide MayMean;
    if n > 0 {
      TopicPlacesListed(snap, i, n - 1, s);
    }
  }

  lemma {:induction false} PlacesListed(snap: Snapshot, n: nat, s: FieldSelector)
    requires n <= |snap.sources|
    ensures var p := Places(snap, n, s); ListsOnce(p) && forall x :: x in p <==> x.0 < n && MayMean(snap, s, x.0, x.1)
  {
    hide TopicPlaces;
    if n > 0 {
      var m := |snap.sources[n - 1].topics|;
      PlacesListed(snap, n - 1, s);
      TopicPlacesListed(snap, n - 1, m, s);
      forall x
        ensures x in Places(snap, n, s) <==> x.0 < n && MayMean(snap, s, x.0, x.1)
      {
        assert x.0 == n - 1 && MayMean(snap, s, x.0, x.1) ==> x.1 < m;
      }
      var before, own := Places(snap, n - 1, s), TopicPlaces(snap, n - 1, m, s);
      assert forall x :: x in before ==> x !in own;
    }
  }

  /** The candidates are the ids at those places. */
  ghost predicate IdsAt(snap: Snapshot, places: seq<(nat, nat)>, r: seq<(nat, nat)>) {
    && |r| == |places|
    && forall k :: 0 <= k < |places| ==>
         var (i, t) := places[k];
         && i < |snap.sources| && t < |snap.sources[i].topics|
         && r[k] == (snap.sources[i].entry.id, snap.sources[i].topics[t])
  }

  lemma {:induction false} TopicsAt(snap: Snapshot, i: nat, n: nat, s: FieldSelector)
    requires i < |snap.sources| && n <= |snap.sources[i].topics|
    ensures IdsAt(snap, TopicPlaces(snap, i, n, s),
                  TopicCandidates(snap, snap.sources[i], snap.sources[i].topics[..n], s))
  {
    var topics := snap.sources[i].topics;
    if n > 0 {
      TopicsAt(snap, i, n - 1, s);
      assert topics[..n][..n - 1] == topics[..n - 1];
      assert IsCandidate(snap, snap.sources[i], topics[n - 1], s) <==> MayMean(snap, s, i, n - 1);
    }
  }

  lemma {:induction false} CandidatesAt(snap: Snapshot, n: nat, s: FieldSelector)
    requires n <= |snap.sources|
    ensures IdsAt(snap, Places(snap, n, s), Candidates(snap, snap.sources[..n], s))
  {
    hide TopicPlaces, TopicCandidates;
    if n > 0 {
      var topics := snap.sources[n - 1].topics;
      CandidatesAt(snap, n - 1, s);
      assert snap.sources[..n][..n - 1] == snap.sources[..n - 1];
      TopicsAt(snap, n - 1, |topics|, s);
      assert topics[..|topics|] == topics;
    }
  }

  /** There is one candidate exactly if one topic may be meant, and then it is
      that one. */
  lemma OneCandidate(snap: Snapshot, s: FieldSelector)
    ensures |Candidates(snap, snap.sources, s)| == 1 <==> exists i: nat, t: nat :: Means(snap, s, i, t)
    ensures forall i: nat, t: nat :: Means(snap, s, i, t) ==>
              Candidates(snap, snap.sources, s) == [(snap.sources[i].entry.id, snap.sources[i].topics[t])]
  {
    hide MayMean, Candidates, Places;
    var n := |snap.sources|;
    var places := Places(snap, n, s);
    assert snap.sources[..n] == snap.sources;
    CandidatesAt(snap, n, s);
    PlacesListed(snap, n, s);
    assert |places| > 1 ==> places[0] != places[1];
    forall i: nat, t: nat | Means(snap, s, i, t)
      ensures places == [(i, t)]
    {
      PlaceInSources(snap, s, i, t);
      assert (i, t) in places;
      assert forall k :: 0 <= k < |places| ==> places[k] == (i, t) by {
        assert forall k :: 0 <= k < |places| ==> places[k] in places;
      }
    }
    if |places| == 1 {
      var (i, t) := places[0];
      assert places[0] in places;
      forall j: nat, u: nat | MayMean(snap, s, j, u)
        ensures j == i && u == t
      {
        PlaceInSources(snap, s, j, u);
        assert (j, u) in places;
      }
      assert Means(snap, s, i, t);
    }
  }

  lemma PlaceInSources(snap: Snapshot, s: FieldSelector, i: nat, t: nat)
    requires MayMean(snap, s, i, t)
    ensures i < |snap.sources| && t < |snap.sources[i].topics|
  {
  }

  /** Entry `f` is the first live field of that name in the topic. */
  predicate IsField(snap: Snapshot, topic: nat, name: string, f: nat) {
    && f < |snap.fields| && !snap.fields[f].removed && snap.fields[f].topic == topic && snap.fields[f].name == name
    && forall k :: 0 <= k < f ==> snap.fields[k].removed || snap.fields[k].topic != topic || snap.fields[k].name != name
  }

  /** Column `c` is the first of that name. */
  predicate IsColumn(columns: seq<FieldSchema>, name: string, c: nat) {
    c < |columns| && columns[c].name == name && forall k :: 0 <= k < c ==> columns[k].name != name
  }

  lemma {:induction false} FieldFound(fields: seq<FieldEntry>, topic: nat, name: string)
    ensures forall k :: 0 <= k < FieldNamed(fields, topic, name) ==>
              fields[k].removed || fields[k].topic != topic || fields[k].name != name
  {
    if fields != [] {
      FieldFound(fields[1..], topic, name);
      forall k | 0 <= k < FieldNamed(fields, topic, name)
        ensures fields[k].removed || fields[k].topic != topic || fields[k].name != name
      {
        assert k > 0 ==> fields[k] == fields[1..][k - 1];
      }
    }
  }

  /** Field `f` and column `c` of the topic at that place are what a selector
      resolves to. */
  ghost predicate Selects(snap: Snapshot, s: FieldSelector, i: nat, t: nat, f: nat, c: nat) {
    && Means(snap, s, i, t)
    && var topic := snap.sources[i].topics[t];
       IsField(snap, topic, s.field, f) && IsColumn(snap.topics[topic].store.value.schema.fields, s.field, c)
  }

  /** A selector resolves exactly if it may mean one topic only and that topic has
      the field; a selector that may mean two resolves to none of them. */
  lemma ResolvesExactly(snap: Snapshot, s: FieldSelector)
    ensures Resolve(snap, s).Some? <==> exists i: nat, t: nat, f: nat, c: nat :: Selects(snap, s, i, t, f, c)
    ensures forall i: nat, t: nat, f: nat, c: nat :: Selects(snap, s, i, t, f, c) ==>
              var topic := snap.sources[i].topics[t];
              var column := snap.topics[topic].store.value.schema.fields[c];
              Resolve(snap, s) == Some(Resolved(snap.sources[i].entry.id, topic, snap.fields[f].id,
                                                column.units, column.multiplier, column.isString))
  {
    hide Candidates, FieldIndex, FieldNamed;
    OneCandidate(snap, s);
    forall i: nat, t: nat, f: nat, c: nat | Selects(snap, s, i, t, f, c)
      ensures var topic := snap.sources[i].topics[t];
              var column := snap.topics[topic].store.value.schema.fields[c];
              Resolve(snap, s) == Some(Resolved(snap.sources[i].entry.id, topic, snap.fields[f].id,
                                                column.units, column.multiplier, column.isString))
    {
      SelectedResolves(snap, s, i, t, f, c);
    }
    if Resolve(snap, s).Some? {
      var i: nat, t: nat :| Means(snap, s, i, t);
      ResolvedIsSelected(snap, s, i, t);
    }
  }

  lemma SelectedResolves(snap: Snapshot, s: FieldSelector, i: nat, t: nat, f: nat, c: nat)
    requires Selects(snap, s, i, t, f, c)
    ensures var topic := snap.sources[i].topics[t];
            var column := snap.topics[topic].store.value.schema.fields[c];
            Resolve(snap, s) == Some(Resolved(snap.sources[i].entry.id, topic, snap.fields[f].id,
                                              column.units, column.multiplier, column.isString))
  {
    hide Candidates;
    OneCandidate(snap, s);
    var topic := snap.sources[i].topics[t];
    FieldFound(snap.fields, topic, s.field);
    FirstNamed(snap.topics[topic].store.value.schema.fields, s.field);
  }

  lemma ResolvedIsSelected(snap: Snapshot, s: FieldSelector, i: nat, t: nat)
    requires Means(snap, s, i, t) && Resolve(snap, s).Some?
    ensures exists f: nat, c: nat :: Selects(snap, s, i, t, f, c)
  {
    hide Candidates;
    OneCandidate(snap, s);
    var topic := snap.sources[i].topics[t];
    FieldFound(snap.fields, topic, s.field);
    var columns := snap.topics[topic].store.value.schema.fields;
    FirstNamed(columns, s.field);
    assert Selects(snap, s, i, t, FieldNamed(snap.fields, topic, s.field), FieldIndex(columns, s.field));
  }
}
