/** The manager of trace caches: builds in flight, appends as epochs pass, and
    eviction of what was least recently used. */
module CacheManager {
  import opened Prelude
  import opened Storage
  import opened Trace

  /** A finished trace cache. The pyramid follows from its points. */
  datatype Cache = Cache(points: Points, originUs: int, offsetUs: int, builtRows: nat, lastUsed: nat)

  datatype Slot = Building | Ready(cache: Cache)

  /** A build that runs on a thread of its own. */
  datatype Build = Build(field: nat, snapshot: Snapshot, originUs: int, frame: nat)

  datatype Manager =
    Manager(caches: map<nat, Slot>, pinned: set<nat>, frame: nat, originUs: int, inFlight: seq<Build>)

  const INITIAL: Manager := Manager(map[], {}, 0, 0, [])

  // ----- Building and appending -----

  function Built(b: Build): Option<Cache> {
    var r := ResolveTrace(b.snapshot, b.field);
    if r.None? then None
    else
      var rows := RowsOf(r.value.store.chunks, r.value.column);
      Some(Cache(Traced(rows, Transform(r.value.offsetUs, b.originUs, r.value.multiplier)),
                 b.originUs, r.value.offsetUs, r.value.store.rows, b.frame))
  }

  function Beyond(rows: seq<Row>, n: nat): seq<Row> {
    if n <= |rows| then rows[n..] else []
  }

  function Appended(c: Cache, s: Snapshot, field: nat): Cache {
    var r := ResolveTrace(s, field);
    if r.None? || r.value.store.rows <= c.builtRows then c
    else
      var rows := Beyond(RowsOf(r.value.store.chunks, r.value.column), c.builtRows);
      c.(points := WithRows(c.points, rows, Transform(r.value.offsetUs, c.originUs, r.value.multiplier)),
         builtRows := r.value.store.rows)
  }

  predicate OffsetChanged(c: Cache, s: Snapshot, field: nat) {
    ResolveTrace(s, field).Some? && ResolveTrace(s, field).value.offsetUs != c.offsetUs
  }

  predicate FieldLive(s: Snapshot, field: nat) {
    FieldOf(s, field).Some? && !FieldOf(s, field).value.removed
  }

  // ----- Steps -----

  function Requested(m: Manager, field: nat, s: Snapshot): Manager {
    var m1 := m.(pinned := m.pinned + {field});
    if field in m.caches then m1
    else m1.(caches := m.caches[field := Building], inFlight := m.inFlight + [Build(field, s, m.originUs, m.frame)])
  }

  function OriginSet(m: Manager, originUs: int): Manager {
    if originUs == m.originUs then m else m.(originUs := originUs, caches := map[])
  }

  /** The `k`-th build in flight arrives. */
  function Arrived(m: Manager, k: nat): Manager
    requires k < |m.inFlight|
  {
    var b := m.inFlight[k];
    var rest := m.inFlight[..k] + m.inFlight[k + 1..];
    match Built(b)
    case Some(c) => m.(caches := m.caches[b.field := Ready(c)], inFlight := rest)
    case None => m.(caches := m.caches - {b.field}, inFlight := rest)
  }

  predicate Stays(slot: Slot, s: Snapshot, field: nat) {
    FieldLive(s, field) && (slot.Ready? ==> !OffsetChanged(slot.cache, s, field))
  }

  function UpdatedSlot(slot: Slot, s: Snapshot, field: nat): Slot {
    match slot
    case Building => Building
    case Ready(c) => Ready(Appended(c, s, field))
  }

  function EpochSeen(m: Manager, s: Snapshot): Manager {
    m.(caches := map f | f in m.caches && Stays(m.caches[f], s, f) :: UpdatedSlot(m.caches[f], s, f),
       pinned := set f | f in m.pinned && FieldLive(s, f))
  }

  function Touched(m: Manager, field: nat): Manager {
    if field in m.caches && m.caches[field].Ready?
    then m.(caches := m.caches[field := Ready(m.caches[field].cache.(lastUsed := m.frame))])
    else m
  }

  // ----- Coherence -----

  /** Nothing but rows was added from `a` to `b`, and offsets may have changed. */
  ghost predicate Grew(a: Snapshot, b: Snapshot) {
    forall f: nat :: ResolveTrace(a, f).Some? && ResolveTrace(b, f).Some? ==>
      && RowsOf(ResolveTrace(a, f).value.store.chunks, ResolveTrace(a, f).value.column)
         <= RowsOf(ResolveTrace(b, f).value.store.chunks, ResolveTrace(b, f).value.column)
      && ResolveTrace(a, f).value.multiplier == ResolveTrace(b, f).value.multiplier
  }

  ghost predicate Counted(s: Snapshot) {
    forall f: nat :: ResolveTrace(s, f).Some? ==> RowsExact(ResolveTrace(s, f).value.store)
  }

  /** The snapshots of a session, each grown from the ones before. */
  ghost predicate Lineage(history: seq<Snapshot>) {
    && (forall i :: 0 <= i < |history| ==> Counted(history[i]))
    && (forall i, j :: 0 <= i <= j < |history| ==> Grew(history[i], history[j]))
  }

  /** The same but for when it was last used. */
  predicate SamePicture(c: Cache, d: Option<Cache>) {
    d.Some? && c.(lastUsed := 0) == d.value.(lastUsed := 0)
  }

  /** The cache is what a build at `s` with the same origin gives. */
  ghost predicate Current(c: Cache, s: Snapshot, field: nat) {
    SamePicture(c, Built(Build(field, s, c.originUs, 0)))
  }

  ghost predicate Dates(history: seq<Snapshot>, now: nat, c: Cache, field: nat) {
    exists i :: 0 <= i <= now < |history| && Current(c, history[i], field)
  }

  /** Every cache, and every build in flight, is from the past. */
  ghost predicate Coherent(m: Manager, history: seq<Snapshot>, now: nat) {
    && Lineage(history) && now < |history|
    && (forall f :: f in m.caches && m.caches[f].Ready? ==> Dates(history, now, m.caches[f].cache, f))
    && (forall k :: 0 <= k < |m.inFlight| ==> m.inFlight[k].snapshot in history[..now + 1])
  }

  lemma SameRowsLength(s: Snapshot, field: nat)
    requires Counted(s) && ResolveTrace(s, field).Some?
    ensures var r := ResolveTrace(s, field).value; r.store.rows == |RowsOf(r.store.chunks, r.column)|
  {
    var r := ResolveTrace(s, field).value;
    SameLength(r.store.chunks, 0, r.column);
  }

  /** Appending makes an older cache that of a new build, unless the offset has
      changed. */
  lemma AppendCatchesUp(c: Cache, a: Snapshot, b: Snapshot, field: nat)
    requires Counted(a) && Counted(b) && Grew(a, b) && Current(c, a, field)
    requires ResolveTrace(b, field).Some? && !OffsetChanged(c, b, field)
    ensures Current(Appended(c, b, field), b, field)
  {
    var r, q := ResolveTrace(a, field).value, ResolveTrace(b, field).value;
    SameRowsLength(a, field);
    SameRowsLength(b, field);
    TracedOn(RowsOf(r.store.chunks, r.column), RowsOf(q.store.chunks, q.column),
             Transform(q.offsetUs, c.originUs, q.multiplier));
  }

  lemma TracedOn(rows: seq<Row>, all: seq<Row>, tr: Transform)
    requires rows <= all
    ensures WithRows(Traced(rows, tr), Beyond(all, |rows|), tr) == Traced(all, tr)
    ensures |all| <= |rows| ==> all == rows
  {
    assert all == rows + all[|rows|..];
    WithMoreRows(Points([], None), rows, all[|rows|..], tr);
  }

  lemma SlotCatchesUp(history: seq<Snapshot>, now: nat, next: nat, c: Cache, field: nat)
    requires Lineage(history) && now <= next < |history| && Dates(history, now, c, field)
    requires !OffsetChanged(c, history[next], field)
    ensures ResolveTrace(history[next], field).Some? ==>
              Current(Appended(c, history[next], field), history[next], field)
    ensures Dates(history, next, Appended(c, history[next], field), field)
  {
    var i :| 0 <= i <= now && Current(c, history[i], field);
    if ResolveTrace(history[next], field).Some? {
      AppendCatchesUp(c, history[i], history[next], field);
    }
  }

  /** After an epoch every finished cache is the one a new build would make. */
  lemma EpochIsCoherent(m: Manager, history: seq<Snapshot>, now: nat, next: nat)
    requires Coherent(m, history, now) && now <= next < |history|
    ensures Coherent(EpochSeen(m, history[next]), history, next)
    ensures forall f :: f in EpochSeen(m, history[next]).caches && EpochSeen(m, history[next]).caches[f].Ready?
                        && ResolveTrace(history[next], f).Some? ==>
              Current(EpochSeen(m, history[next]).caches[f].cache, history[next], f)
  {
    var m2 := EpochSeen(m, history[next]);
    forall f | f in m2.caches && m2.caches[f].Ready?
      ensures Dates(history, next, m2.caches[f].cache, f)
      ensures ResolveTrace(history[next], f).Some? ==> Current(m2.caches[f].cache, history[next], f)
    {
      SlotCatchesUp(history, now, next, m.caches[f].cache, f);
    }
    forall k | 0 <= k < |m.inFlight|
      ensures m.inFlight[k].snapshot in history[..next + 1]
    {
      InPast(history, now, next, m.inFlight[k].snapshot);
    }
  }

  lemma InPast(history: seq<Snapshot>, now: nat, next: nat, s: Snapshot)
    requires now <= next < |history| && s in history[..now + 1]
    ensures s in history[..next + 1]
  {
    var i :| 0 <= i <= now && history[..now + 1][i] == s;
    assert history[..next + 1][i] == s;
  }

  lemma ArrivalIsCoherent(m: Manager, history: seq<Snapshot>, now: nat, k: nat)
    requires Coherent(m, history, now) && k < |m.inFlight|
    ensures Coherent(Arrived(m, k), history, now)
  {
    var b := m.inFlight[k];
    var i :| 0 <= i <= now && history[..now + 1][i] == b.snapshot;
    if Built(b).Some? {
      assert Current(Built(b).value, history[i], b.field);
      assert Dates(history, now, Built(b).value, b.field);
    }
  }

  // ----- Runs -----

  datatype Step =
    | Request(field: nat)
    | Unpin(field: nat)
    | Frame(frame: nat)
    | SetOrigin(originUs: int)
    | Arrival(k: nat)
    | Epoch(next: nat)
    | Get(field: nat)
    | Evict(field: nat)

  /** A step while snapshot `now` is the current one. Eviction of one slot is a
      step of its own. */
  function Stepped(m: Manager, history: seq<Snapshot>, now: nat, step: Step): Manager
    requires now < |history|
  {
    match step
    case Request(f) => Requested(m, f, history[now])
    case Unpin(f) => m.(pinned := m.pinned - {f})
    case Frame(n) => m.(frame := n)
    case SetOrigin(o) => OriginSet(m, o)
    case Arrival(k) => if k < |m.inFlight| then Arrived(m, k) else m
    case Epoch(next) => if now <= next < |history| then EpochSeen(m, history[next]) else m
    case Get(f) => Touched(m, f)
    case Evict(f) => m.(caches := m.caches - {f})
  }

  function NowAfter(history: seq<Snapshot>, now: nat, step: Step): nat {
    if step.Epoch? && now <= step.next < |history| then step.next else now
  }

  lemma StepIsCoherent(m: Manager, history: seq<Snapshot>, now: nat, step: Step)
    requires Coherent(m, history, now)
    ensures Coherent(Stepped(m, history, now, step), history, NowAfter(history, now, step))
  {
    match step
    case Request(f) =>
      assert history[..now + 1][now] == history[now];
    case Arrival(k) =>
      if k < |m.inFlight| {
        ArrivalIsCoherent(m, history, now, k);
      }
    case Epoch(next) =>
      if now <= next < |history| {
        EpochIsCoherent(m, history, now, next);
      }
    case Get(f) =>
      if f in m.caches && m.caches[f].Ready? {
        TouchIsCoherent(m, history, now, f);
      }
    case _ =>
  }

  lemma TouchIsCoherent(m: Manager, history: seq<Snapshot>, now: nat, f: nat)
    requires Coherent(m, history, now) && f in m.caches && m.caches[f].Ready?
    ensures Coherent(Touched(m, f), history, now)
  {
    var c := m.caches[f].cache;
    var i :| 0 <= i <= now && Current(c, history[i], f);
    assert Current(c.(lastUsed := m.frame), history[i], f);
  }

  function Ran(history: seq<Snapshot>, steps: seq<Step>): (Manager, nat)
    requires history != []
    ensures Ran(history, steps).1 < |history|
  {
    if steps == [] then (INITIAL, 0)
    else
      var n := |steps| - 1;
      var (m, now) := Ran(history, steps[..n]);
      (Stepped(m, history, now, steps[n]), NowAfter(history, now, steps[n]))
  }

  /** In every run, right after an epoch each finished cache equals a new build
      at its own origin. */
  lemma {:induction false} RunIsCoherent(history: seq<Snapshot>, steps: seq<Step>)
    requires history != [] && Lineage(history)
    ensures Coherent(Ran(history, steps).0, history, Ran(history, steps).1)
    ensures steps != [] && steps[|steps| - 1].Epoch?
            && Ran(history, steps[..|steps| - 1]).1 <= steps[|steps| - 1].next < |history| ==>
              var (m, now) := Ran(history, steps);
              forall f :: f in m.caches && m.caches[f].Ready? && ResolveTrace(history[now], f).Some? ==>
                Current(m.caches[f].cache, history[now], f)
  {
    if steps != [] {
      var n := |steps| - 1;
      RunIsCoherent(history, steps[..n]);
      var (m, now) := Ran(history, steps[..n]);
      StepIsCoherent(m, history, now, steps[n]);
      if steps[n].Epoch? && now <= steps[n].next < |history| {
        EpochIsCoherent(m, history, now, steps[n].next);
      }
    }
  }

  // ----- Origins -----

  /** Every finished cache, and what is in flight, has the manager's origin. */
  ghost predicate OriginsAgree(m: Manager) {
    && (forall f :: f in m.caches && m.caches[f].Ready? ==> m.caches[f].cache.originUs == m.originUs)
    && (forall k :: 0 <= k < |m.inFlight| ==> m.inFlight[k].originUs == m.originUs)
  }

  /** The step changes the origin while a build is in flight. */
  predicate ChangesInFlight(m: Manager, step: Step) {
    step.SetOrigin? && step.originUs != m.originUs && m.inFlight != []
  }

  /** Origins stay in agreement exactly when the step does not change the
      origin while a build is in flight. */
  lemma OriginsStay(m: Manager, history: seq<Snapshot>, now: nat, step: Step)
    requires now < |history| && OriginsAgree(m)
    ensures OriginsAgree(Stepped(m, history, now, step)) <==> !ChangesInFlight(m, step)
  {
    if ChangesInFlight(m, step) {
      assert m.inFlight[0].originUs != step.originUs;
    }
  }

  /** Origins agree after the first `k` steps. */
  ghost predicate AgreeAfter(history: seq<Snapshot>, steps: seq<Step>, k: nat)
    requires history != [] && k <= |steps|
  {
    OriginsAgree(Ran(history, steps[..k]).0)
  }

  predicate QuietAt(history: seq<Snapshot>, steps: seq<Step>, k: nat)
    requires history != [] && k < |steps|
  {
    !ChangesInFlight(Ran(history, steps[..k]).0, steps[k])
  }

  lemma StepAgrees(history: seq<Snapshot>, steps: seq<Step>, k: nat)
    requires history != [] && k < |steps| && AgreeAfter(history, steps, k)
    ensures AgreeAfter(history, steps, k + 1) <==> QuietAt(history, steps, k)
  {
    hide OriginsAgree, ChangesInFlight, Stepped;
    assert steps[..k + 1][..k] == steps[..k];
    var (m, now) := Ran(history, steps[..k]);
    OriginsStay(m, history, now, steps[k]);
  }

  /** Origins agree all through the first `n` steps of a run exactly when the
      origin never changes while a build is in flight. */
  lemma {:induction false} OriginsStayInRun(history: seq<Snapshot>, steps: seq<Step>, n: nat)
    requires history != [] && n <= |steps|
    ensures (forall k :: 0 <= k <= n ==> AgreeAfter(history, steps, k))
            <==> (forall k :: 0 <= k < n ==> QuietAt(history, steps, k))
  {
    hide AgreeAfter, QuietAt;
    if n == 0 {
      InitialOrigins(history, steps);
    } else {
      OriginsStayInRun(history, steps, n - 1);
      if AgreeAfter(history, steps, n - 1) {
        StepAgrees(history, steps, n - 1);
      }
    }
  }

  lemma InitialOrigins(history: seq<Snapshot>, steps: seq<Step>)
    requires history != []
    ensures AgreeAfter(history, steps, 0)
  {
    assert steps[..0] == [];
  }

  /** A build in flight across a change of origin leaves a cache of the old
      origin, which the manager takes for a current one. */
  lemma StaleOrigin(m: Manager, originUs: int, k: nat)
    requires k < |m.inFlight| && m.inFlight[k].originUs != originUs && m.originUs != originUs
    requires Built(m.inFlight[k]).Some?
    ensures var m2 := Arrived(OriginSet(m, originUs), k);
            var f := m.inFlight[k].field;
            f in m2.caches && m2.caches[f].Ready? && m2.caches[f].cache.originUs != m2.originUs
  {
  }
}
