/** What readers of published snapshots may rely on, in every run of the writer:
    traces grow, counts are right and fields are found at their ids. */
module Publications {
  import opened Storage
  import opened Store
  import opened Identity
  import opened Snapshots
  import opened Ingest
  import opened IngestProofs
  import opened IngestSafety
  import opened IngestHistory
  import IngestRows
  import Runs = IngestRuns
  import Tr = Trace
  import Mgr = CacheManager
  import Eval = Evaluator
  import CacheAgreement
  import Timelines
  import TimelineReports

  // ----- Every publication -----

  function SealStages(st: Ingestor, seals: seq<(nat, nat)>): (stages: seq<Ingestor>)
    ensures |stages| == |seals|
  {
    seq(|seals|, k requires 0 <= k < |seals| => SealAll(st, seals[..k + 1]))
  }

  /** The writer's states while a message is processed, one for each snapshot
      that is published on the way, and the last one. */
  function Stages(st: Ingestor, msg: Msg, order: Order): (stages: seq<Ingestor>)
    ensures stages != [] && stages[|stages| - 1] == Processed(st, msg, order)
  {
    var early :=
      match msg
      case Barrier(seals) => SealStages(st, seals)
      case Close(source, topics, _) => SealStages(st, Topics(source, topics))
      case Drop(source, topics) => SealStages(st, Topics(source, topics))
      case Age(seals) => SealStages(st, seals)
      case Data(batch) => DataStages(st, batch, order)
      case _ => [];
    early + [Processed(st, msg, order)]
  }

  /** A batch may seal what is buffered before it, and then itself. */
  function DataStages(st: Ingestor, b: Batch, order: Order): seq<Ingestor> {
    if b.t == [] || b.source !in st.sources then []
    else
      var (topic, st1) := EnsureTopic(st, b.source, b.schema);
      if topic.None? || PieceOf(b, order).t == [] then []
      else [Cleared(Sorting(st1, b, topic.value), b.source, topic.value, PieceOf(b, order))]
  }

  function Sorting(st: Ingestor, b: Batch, topic: nat): Ingestor {
    if SortedTimes(b.t) then st else st.(diags := st.diags + [Unsorted(topic)])
  }

  /** All states of a run, from the start on. */
  function States(msgs: seq<Msg>, order: Order): (states: seq<Ingestor>)
    ensures states != [] && states[0] == INITIAL && states[|states| - 1] == AllProcessed(msgs, order)
  {
    if msgs == [] then [INITIAL]
    else
      var before := msgs[..|msgs| - 1];
      States(before, order) + Stages(AllProcessed(before, order), msgs[|msgs| - 1], order)
  }

  /** Every snapshot that is current at some time in a run, in order. */
  function Published(msgs: seq<Msg>, order: Order): (history: seq<Snapshot>)
    ensures |history| == |States(msgs, order)|
  {
    var states := States(msgs, order);
    seq(|states|, i requires 0 <= i < |states| => states[i].current)
  }

  /** From one state to the next at most one snapshot is published. */
  ghost predicate StepsOn(a: Ingestor, b: Ingestor) {
    Good(b) && Follows(a, b) && a.current.epoch <= b.current.epoch <= a.current.epoch + 1
  }

  ghost predicate Chain(states: seq<Ingestor>) {
    forall i :: 0 < i < |states| ==> StepsOn(states[i - 1], states[i])
  }

  lemma ChainGrows(states: seq<Ingestor>, more: seq<Ingestor>)
    requires states != [] && Chain(states) && Chain([states[|states| - 1]] + more)
    ensures Chain(states + more)
  {
    hide StepsOn;
    var n, all, tail := |states|, states + more, [states[|states| - 1]] + more;
    forall i | 0 < i < |all|
      ensures StepsOn(all[i - 1], all[i])
    {
      if i >= n {
        assert tail[i - n] == all[i - 1] && tail[i - n + 1] == all[i];
      }
    }
  }

  lemma SealStep(st: Ingestor, source: nat, topic: nat)
    requires Good(st) && Reflects(st)
    ensures StepsOn(st, SealTopic(st, source, topic))
  {
    hide GoodTopic, Linked, Recorded, Reflects, Later, SealTopic;
    SealIsGood(st, source, topic);
    SealFollows(st, source, topic);
  }

  lemma {:induction false} SealStagesChain(st: Ingestor, seals: seq<(nat, nat)>)
    requires Good(st) && Reflects(st)
    ensures Chain([st] + SealStages(st, seals))
  {
    hide Good, Reflects, Later, SealTopic;
    if seals == [] {
      assert [st] + SealStages(st, seals) == [st];
    } else {
      var n := |seals| - 1;
      SealStagesChain(st, seals[..n]);
      var before := [st] + SealStages(st, seals[..n]);
      forall k | 0 <= k < n
        ensures SealStages(st, seals[..n])[k] == SealStages(st, seals)[k]
      {
        assert seals[..n][..k + 1] == seals[..k + 1];
      }
      assert seals[..n + 1] == seals;
      assert SealStages(st, seals) == SealStages(st, seals[..n]) + [SealAll(st, seals)];
      assert before[n] == SealAll(st, seals[..n]) by {
        if n > 0 {
          assert seals[..n][..n] == seals[..n];
        } else {
          assert seals[..0] == [];
        }
      }
      SealAllIsGood(st, seals[..n]);
      SealAllFollows(st, seals[..n]);
      SealStep(SealAll(st, seals[..n]), seals[n].0, seals[n].1);
      assert [before[n]] + [SealAll(st, seals)] == [before[n], SealAll(st, seals)];
      ChainGrows(before, [SealAll(st, seals)]);
      assert before + [SealAll(st, seals)] == [st] + SealStages(st, seals);
    }
  }

  /** The last of the sealing stages. */
  lemma LastSealed(st: Ingestor, seals: seq<(nat, nat)>)
    ensures var states := [st] + SealStages(st, seals); states[|states| - 1] == SealAll(st, seals)
  {
    assert seals[..|seals|] == seals;
  }

  /** One publication, or none, after the seals. */
  lemma SealedThen(st: Ingestor, seals: seq<(nat, nat)>, last: Ingestor)
    requires Good(st) && Reflects(st) && StepsOn(SealAll(st, seals), last)
    ensures Chain([st] + (SealStages(st, seals) + [last]))
  {
    hide Good, Reflects, StepsOn;
    SealStagesChain(st, seals);
    LastSealed(st, seals);
    var states := [st] + SealStages(st, seals);
    assert [states[|states| - 1]] + [last] == [SealAll(st, seals), last];
    ChainGrows(states, [last]);
    assert states + [last] == [st] + (SealStages(st, seals) + [last]);
  }

  lemma PublishStep(st: Ingestor)
    requires Good(st) && Reflects(st)
    ensures StepsOn(st, Publish(st)) && StepsOn(st, st)
  {
    hide GoodTopic, Linked, Recorded, Reflects;
    PublishStaysGood(st);
    GoodParts(st);
    Untouched(st, st);
    PublishFollows(st, st);
  }

  lemma DropStep(st: Ingestor, source: nat, topics: seq<nat>)
    requires Good(st) && Reflects(st)
    ensures StepsOn(SealAll(st, Topics(source, topics)), Remove(st, source, topics))
  {
    hide GoodTopic, Linked, Recorded, Reflects, Later, Valid, SealAll, Without;
    SealAllIsGood(st, Topics(source, topics));
    SealAllFollows(st, Topics(source, topics));
    var st1 := SealAll(st, Topics(source, topics));
    PublishStep(st1);
    if LiveSource(st1.registry, source) {
      WithoutIsLater(st1, source);
      WithoutIsGood(st1, source);
      PublishFollows(st1, Without(st1, source));
      PublishStaysGood(Without(st1, source));
      SameEpoch(st1, source);
    }
  }

  lemma SameEpoch(st: Ingestor, source: nat)
    ensures Without(st, source).current == st.current
  {
  }

  /** The state when a batch's topic is found, just before its piece is taken in. */
  lemma BatchReady(st: Ingestor, b: Batch, order: Order) returns (topic: nat, st2: Ingestor)
    requires Good(st) && Sorts(order) && Reflects(st) && b.t != [] && b.source in st.sources && Runs.Fitting(st, b)
    ensures PieceOf(b, order).t != []
    ensures Runs.Ready(st2, b.source, topic, b.schema, PieceOf(b, order))
    ensures Follows(st, st2) && st2.current == st.current
    ensures DataStages(st, b, order) == [Cleared(st2, b.source, topic, PieceOf(b, order))]
    ensures AcceptBatch(st, b, order) == Accept(st2, b.source, topic, b.schema, PieceOf(b, order))
  {
    hide GoodTopic, Linked, Recorded, Accept, EnsureTopic, PieceOf, Sorts, IngestRows.GoodPiece, Reflects, Later;
    Runs.EnsuredTopic(st, b);
    EnsuringFollows(st, b);
    var (id, st1) := EnsureTopic(st, b.source, b.schema);
    topic, st2 := id.value, Sorting(st1, b, id.value);
    IngestRows.PieceOfBatch(b, order);
    Runs.Noted(st1, Unsorted(topic));
    Untouched(st1, st2);
    FollowsOn(st, st1, st2);
    Runs.PieceNotEmpty(PieceOf(b, order), |b.schema.fields|);
  }

  /** Sealing what is in the way, then taking the piece in. */
  lemma AcceptSteps(st: Ingestor, source: nat, topic: nat, schema: TopicSchema, piece: Piece)
    requires Runs.Ready(st, source, topic, schema, piece) && Reflects(st) && piece.t != []
    ensures StepsOn(st, Cleared(st, source, topic, piece))
    ensures StepsOn(Cleared(st, source, topic, piece), Accept(st, source, topic, schema, piece))
  {
    hide GoodTopic, Linked, Recorded, SealTopic, Timed, Buffered, IngestRows.GoodPiece, Reflects, Later, Runs.Follows;
    Untouched(st, st);
    SealStep(st, source, topic);
    SealIsGood(st, source, topic);
    var st1 := Runs.ClearedFirst(st, source, topic, piece);
    Runs.ClearedCommutes(st, source, topic, piece);
    Runs.ClearedFollows(st, source, topic, schema, piece);
    var st2 := Runs.TakenIn(st1, source, topic, schema, piece);
    TakingFollows(st1, source, topic, schema, piece);
    Runs.TakenIsGood(st1, source, topic, schema, piece);
    Runs.UntouchedByTaking(st1, source, topic, schema, piece);
    Untouched(st2, st2);
    SealStep(st2, source, topic);
    FollowsOn(st1, st2, SealIfFull(st2, source, topic));
  }

  lemma DataChain(st: Ingestor, b: Batch, order: Order)
    requires Good(st) && Sorts(order) && Reflects(st) && (b.source in st.sources ==> Runs.Fitting(st, b))
    ensures Chain([st] + (DataStages(st, b, order) + [AcceptBatch(st, b, order)]))
  {
    hide Good, Sorts, Runs.Fitting, Reflects, Later, Accept, EnsureTopic, Cleared, PieceOf;
    if b.t == [] || b.source !in st.sources {
      Runs.BatchIsGood(st, b, order);
      BatchFollows(st, b, order);
    } else {
      var topic, st2 := BatchReady(st, b, order);
      var piece := PieceOf(b, order);
      AcceptSteps(st2, b.source, topic, b.schema, piece);
      var mid, last := Cleared(st2, b.source, topic, piece), AcceptBatch(st, b, order);
      FollowsOn(st, st2, mid);
      var states := [st] + (DataStages(st, b, order) + [last]);
      assert states == [st, mid, last];
    }
  }

  lemma OneChain(st: Ingestor, last: Ingestor)
    requires StepsOn(st, last)
    ensures Chain([st] + ([] + [last]))
  {
    hide StepsOn;
    assert [st] + ([] + [last]) == [st, last];
  }

  lemma OffsetsStep(st: Ingestor, msg: Msg, order: Order)
    requires Good(st) && Sorts(order) && Fed(st, msg) && Reflects(st)
    requires msg.Open? || msg.Offset? || msg.Offsets? || msg.Name?
    ensures StepsOn(st, Processed(st, msg, order))
  {
    hide Good, Sorts, Reflects, Later, Fed, AddSource, SetOffset, OffsetsSet, Relabel, OffsetsValid, AnyChange;
    ProcessedIsGood(st, msg, order);
    ProcessedFollows(st, msg, order);
  }

  lemma StagesChain(st: Ingestor, msg: Msg, order: Order)
    requires Good(st) && Sorts(order) && Fed(st, msg) && Reflects(st)
    ensures Chain([st] + Stages(st, msg, order))
  {
    hide Good, Sorts, Reflects, Later, Runs.Fitting, SealAll, AcceptBatch, DataStages, SealStages, StepsOn, Chain;
    hide Publish;
    hide OpenSource, SetOne, SetMany, Rename, Remove;
    match msg
    case Barrier(seals) =>
      SealedStep(st, seals);
      SealedThen(st, seals, Publish(SealAll(st, seals)));
    case Open(_, _) =>
      OffsetsStep(st, msg, order);
      OneChain(st, Processed(st, msg, order));
    case Data(batch) => DataChain(st, batch, order);
    case Close(source, topics, hasMeta) =>
      SealedStep(st, Topics(source, topics));
      SealedThen(st, Topics(source, topics), Processed(st, msg, order));
    case Offset(_, _) =>
      OffsetsStep(st, msg, order);
      OneChain(st, Processed(st, msg, order));
    case Offsets(_) =>
      OffsetsStep(st, msg, order);
      OneChain(st, Processed(st, msg, order));
    case Drop(source, topics) =>
      DropStep(st, source, topics);
      SealedThen(st, Topics(source, topics), Processed(st, msg, order));
    case Name(_, _) =>
      OffsetsStep(st, msg, order);
      OneChain(st, Processed(st, msg, order));
    case Age(seals) =>
      SealedStep(st, seals);
      SealedThen(st, seals, SealAll(st, seals));
  }

  lemma SealedStep(st: Ingestor, seals: seq<(nat, nat)>)
    requires Good(st) && Reflects(st)
    ensures StepsOn(SealAll(st, seals), Publish(SealAll(st, seals))) && StepsOn(SealAll(st, seals), SealAll(st, seals))
  {
    hide Good, Reflects, Later, SealAll, StepsOn, Publish;
    SealAllIsGood(st, seals);
    SealAllFollows(st, seals);
    PublishStep(SealAll(st, seals));
  }

  /** In every run each state follows from the one before, by one publication or
      none: no snapshot is left out. */
  lemma {:induction false} StatesChain(msgs: seq<Msg>, order: Order)
    requires Sorts(order) && WellFed(msgs, order)
    ensures Chain(States(msgs, order))
  {
    hide Good, Sorts, Processed, Fed, Reflects, StepsOn, Chain;
    if msgs == [] {
      OneState();
    } else {
      var before := msgs[..|msgs| - 1];
      StatesChain(before, order);
      RunReflects(before, order);
      StagesChain(AllProcessed(before, order), msgs[|msgs| - 1], order);
      ChainGrows(States(before, order), Stages(AllProcessed(before, order), msgs[|msgs| - 1], order));
    }
  }

  lemma OneState()
    ensures Chain([INITIAL])
  {
  }

  lemma {:induction false} LaterInChain(states: seq<Ingestor>, i: nat, j: nat)
    requires Chain(states) && i <= j < |states| && Good(states[0]) && Reflects(states[0])
    ensures Good(states[i]) && Reflects(states[i]) && Good(states[j]) && Reflects(states[j])
    ensures Later(states[i], states[j])
    decreases j
  {
    hide Good, Reflects, Later;
    if i < j {
      LaterInChain(states, i, j - 1);
      assert StepsOn(states[j - 1], states[j]);
      LaterStill(states[i], states[j - 1], states[j]);
    } else {
      if i > 0 {
        LaterInChain(states, i - 1, i - 1);
        assert StepsOn(states[i - 1], states[i]);
      }
      Untouched(states[i], states[i]);
    }
  }

  // ----- Growing traces -----

  lemma {:induction false} RowsOfMore(a: seq<Chunk>, b: seq<Chunk>, column: nat)
    requires a <= b
    ensures Tr.RowsOf(a, column) <= Tr.RowsOf(b, column)
  {
    if |a| < |b| {
      RowsOfMore(a, b[..|b| - 1], column);
    } else {
      assert a == b;
    }
  }

  lemma {:induction false} CountOfRows(chunks: seq<Chunk>)
    ensures |Tr.RowsOf(chunks, 0)| == RowCount(chunks)
  {
    if chunks != [] {
      CountOfRows(chunks[..|chunks| - 1]);
    }
  }

  /** Where a field's trace comes from, in the writer's own state. */
  lemma TraceOfState(st: Ingestor, f: nat)
    requires Reflects(st) && Linked(st) && Tr.ResolveTrace(st.current, f).Some?
    ensures var r := Tr.ResolveTrace(st.current, f).value;
            && f < |st.registry.fields|
            && var e := st.registry.fields[f];
            && e.topic in st.stores && e.topic < |st.registry.topics| && r.store == st.stores[e.topic]
            && r.column == FieldIndex(r.store.schema.fields, e.name) < |r.store.schema.fields|
            && r.multiplier == r.store.schema.fields[r.column].multiplier
  {
    hide Valid, LiveTopic, LiveSource, NamesTopic, FitsTopic;
    assert EntriesOf(st.current)[st.current.fields[f].topic] == st.current.topics[st.current.fields[f].topic].entry;
  }

  lemma TracesGrow(a: Ingestor, b: Ingestor)
    requires Reflects(a) && Reflects(b) && Linked(a) && Linked(b) && Later(a, b)
    ensures Mgr.Grew(a.current, b.current)
  {
    hide Linked, Reflects, Tr.ResolveTrace;
    forall f: nat | Tr.ResolveTrace(a.current, f).Some? && Tr.ResolveTrace(b.current, f).Some?
      ensures var r, q := Tr.ResolveTrace(a.current, f).value, Tr.ResolveTrace(b.current, f).value;
              Tr.RowsOf(r.store.chunks, r.column) <= Tr.RowsOf(q.store.chunks, q.column) && r.multiplier == q.multiplier
    {
      TraceOfState(a, f);
      TraceOfState(b, f);
      var r, q := Tr.ResolveTrace(a.current, f).value, Tr.ResolveTrace(b.current, f).value;
      RowsOfMore(r.store.chunks, q.store.chunks, r.column);
    }
  }

  lemma TracesAreCounted(st: Ingestor)
    requires Reflects(st) && Good(st)
    ensures Mgr.Counted(st.current)
  {
    hide Linked, Recorded, Reflects, Tr.ResolveTrace;
    forall f: nat | Tr.ResolveTrace(st.current, f).Some?
      ensures Tr.RowsExact(Tr.ResolveTrace(st.current, f).value.store)
    {
      TraceOfState(st, f);
      var store := Tr.ResolveTrace(st.current, f).value.store;
      assert GoodTopic(TopicViewOf(st, st.registry.fields[f].topic));
      CountOfRows(store.chunks);
    }
  }

  /** In every run of the writer the published snapshots grow from one another,
      as the trace caches need. */
  lemma PublishedIsLineage(msgs: seq<Msg>, order: Order)
    requires Sorts(order) && WellFed(msgs, order)
    ensures Mgr.Lineage(Published(msgs, order))
    ensures var history := Published(msgs, order);
            && history[|history| - 1] == AllProcessed(msgs, order).current
            && forall i :: 0 < i < |history| ==> history[i - 1].epoch <= history[i].epoch <= history[i - 1].epoch + 1
  {
    hide Sorts, WellFed, AllProcessed, GoodTopic, Linked, Recorded, Reflects, Later, Mgr.Counted, Mgr.Grew, States;
    var states, history := States(msgs, order), Published(msgs, order);
    StatesChain(msgs, order);
    InitialIsGood();
    InitialReflects();
    forall i, j | 0 <= i <= j < |history|
      ensures Mgr.Counted(history[i]) && Mgr.Grew(history[i], history[j])
    {
      LaterInChain(states, i, j);
      TracesAreCounted(states[i]);
      TracesGrow(states[i], states[j]);
    }
    forall i | 0 < i < |history|
      ensures history[i - 1].epoch <= history[i].epoch <= history[i - 1].epoch + 1
    {
      assert StepsOn(states[i - 1], states[i]);
    }
  }

  /** So over any run of the writer and any run of the manager beside it, right
      after an epoch each finished cache is the one a new build would make. */
  lemma TracesAreCoherent(msgs: seq<Msg>, order: Order, steps: seq<Mgr.Step>, next: nat)
    requires Sorts(order) && WellFed(msgs, order)
    requires Mgr.Ran(Published(msgs, order), steps).1 <= next < |Published(msgs, order)|
    ensures var history := Published(msgs, order);
            var m := Mgr.Ran(history, steps + [Mgr.Epoch(next)]).0;
            forall f :: f in m.caches && m.caches[f].Ready? && Tr.ResolveTrace(history[next], f).Some? ==>
              Mgr.Current(m.caches[f].cache, history[next], f)
  {
    hide Sorts, WellFed, Published, Mgr.Lineage, Mgr.Coherent, Mgr.Current, Mgr.Stepped;
    var history, all := Published(msgs, order), steps + [Mgr.Epoch(next)];
    PublishedIsLineage(msgs, order);
    assert all[..|all| - 1] == steps;
    Mgr.RunIsCoherent(history, all);
  }

  // ----- Fields at their ids -----

  lemma PublishedIsDense(msgs: seq<Msg>, order: Order, i: nat)
    requires Sorts(order) && WellFed(msgs, order) && i < |Published(msgs, order)|
    ensures Timelines.DenseFields(Published(msgs, order)[i])
  {
    hide Sorts, WellFed, AllProcessed, States, GoodTopic, Recorded, Chain;
    StatesChain(msgs, order);
    InitialIsGood();
    InitialReflects();
    LaterInChain(States(msgs, order), i, i);
    ReflectsDense(States(msgs, order)[i]);
  }

  lemma ReflectsDense(st: Ingestor)
    requires Reflects(st) && Linked(st)
    ensures Timelines.DenseFields(st.current)
  {
    hide Labelled, FieldsIndexed, KeysIndexed, TopicsIndexed;
  }

  /** A report on any published snapshot has one sequence of times for each
      timeline exactly when the scripts keep their outputs apart. */
  lemma PublishedReportIsSound(msgs: seq<Msg>, order: Order, r: CacheAgreement.Request)
    requires Sorts(order) && WellFed(msgs, order) && r.env.snapshot in Published(msgs, order)
    ensures TimelineReports.SoundReport(Eval.Evaluate(r.env, r.graph, r.targets, r.cancelAfter, map[]).0)
            <==> TimelineReports.KeepsApart(r, |CacheAgreement.Visits(r)|)
  {
    hide WellFed, Published;
    var i: nat :| i < |Published(msgs, order)| && Published(msgs, order)[i] == r.env.snapshot;
    PublishedIsDense(msgs, order, i);
    TimelineReports.ReportIsSound(r);
  }
}
