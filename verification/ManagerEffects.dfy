/** What every step of the cache manager does to its slots, pins and builds, and
    what a finished cache shows. */
module ManagerEffects {
  import opened Prelude
  import opened Storage
  import opened Trace
  import opened CacheManager

  // ----- What a cache shows -----

  /** The cache is the trace of the field at `s`: of all rows of its column, with
      the offset of its source. */
  ghost predicate ShowsTrace(c: Cache, s: Snapshot, field: nat) {
    ResolveTrace(s, field).Some? &&
    var r := ResolveTrace(s, field).value;
    var rows := RowsOf(r.store.chunks, r.column);
    && c.points == Traced(rows, Transform(r.offsetUs, c.originUs, r.multiplier))
    && c.builtRows == |rows| && c.offsetUs == r.offsetUs
  }

  lemma CurrentShows(c: Cache, s: Snapshot, field: nat)
    requires Counted(s)
    ensures Current(c, s, field) <==> ShowsTrace(c, s, field)
  {
    if ResolveTrace(s, field).Some? {
      SameRowsLength(s, field);
    }
  }

  /** In every run, right after an epoch each finished cache of a field that can
      be traced shows that trace at the current snapshot, all rows of it. */
  lemma RunShows(history: seq<Snapshot>, steps: seq<Step>, field: nat)
    requires history != [] && Lineage(history) && steps != [] && steps[|steps| - 1].Epoch?
    requires Ran(history, steps[..|steps| - 1]).1 <= steps[|steps| - 1].next < |history|
    requires var m := Ran(history, steps).0; field in m.caches && m.caches[field].Ready?
    requires ResolveTrace(history[Ran(history, steps).1], field).Some?
    ensures ShowsTrace(Ran(history, steps).0.caches[field].cache, history[steps[|steps| - 1].next], field)
  {
    RunIsCoherent(history, steps);
    var (m, now) := Ran(history, steps);
    assert now == steps[|steps| - 1].next;
    CurrentShows(m.caches[field].cache, history[now], field);
  }

  // ----- The steps -----

  /** But for one slot the managers have the same. */
  ghost predicate OtherSlotsStay(m: Manager, m2: Manager, field: nat) {
    forall f :: f != field ==> (f in m2.caches <==> f in m.caches) && (f in m.caches ==> m2.caches[f] == m.caches[f])
  }

  ghost predicate OnlySlots(m: Manager, m2: Manager) {
    m2.pinned == m.pinned && m2.frame == m.frame && m2.originUs == m.originUs && m2.inFlight == m.inFlight
  }

  /** A request pins the field, and starts a build at the current snapshot and with
      the current origin exactly when there is no slot. */
  lemma RequestStarts(m: Manager, history: seq<Snapshot>, now: nat, field: nat)
    requires now < |history|
    ensures var m2 := Stepped(m, history, now, Request(field));
            && (forall f :: f in m2.pinned <==> f in m.pinned || f == field)
            && m2.frame == m.frame && m2.originUs == m.originUs && OtherSlotsStay(m, m2, field)
            && field in m2.caches
            && (field in m.caches ==> m2.caches[field] == m.caches[field] && m2.inFlight == m.inFlight)
            && (field !in m.caches ==>
                 && m2.caches[field].Building? && |m2.inFlight| == |m.inFlight| + 1
                 && m2.inFlight[..|m.inFlight|] == m.inFlight
                 && m2.inFlight[|m.inFlight|] == Build(field, history[now], m.originUs, m.frame))
  {
  }

  /** A build that arrives is no longer in flight. It fills the slot with the trace
      at the snapshot it started from, or clears it when there is none. */
  lemma ArrivalTakesEffect(m: Manager, history: seq<Snapshot>, now: nat, k: nat)
    requires now < |history| && k < |m.inFlight| && Counted(m.inFlight[k].snapshot)
    ensures var m2 := Stepped(m, history, now, Arrival(k));
            var b := m.inFlight[k];
            && m2.inFlight == m.inFlight[..k] + m.inFlight[k + 1..]
            && m2.pinned == m.pinned && m2.frame == m.frame && m2.originUs == m.originUs
            && OtherSlotsStay(m, m2, b.field)
            && (b.field in m2.caches <==> ResolveTrace(b.snapshot, b.field).Some?)
            && (b.field in m2.caches ==>
                 && m2.caches[b.field].Ready?
                 && m2.caches[b.field].cache.originUs == b.originUs
                 && m2.caches[b.field].cache.lastUsed == b.frame
                 && ShowsTrace(m2.caches[b.field].cache, b.snapshot, b.field))
  {
    var b := m.inFlight[k];
    if ResolveTrace(b.snapshot, b.field).Some? {
      SameRowsLength(b.snapshot, b.field);
    }
  }

  /** The field is in the snapshot and not removed. */
  predicate IsLive(s: Snapshot, field: nat) {
    field < |s.fields| && s.fields[field].id == field && !s.fields[field].removed
  }

  /** An epoch keeps the slots of live fields, except finished caches whose field
      is traced with another offset now; pins of live fields; and all else. */
  lemma EpochTakesEffect(m: Manager, history: seq<Snapshot>, now: nat, next: nat)
    requires now <= next < |history|
    ensures var m2, s := Stepped(m, history, now, Epoch(next)), history[next];
            && (forall f :: f in m2.pinned <==> f in m.pinned && IsLive(s, f))
            && m2.frame == m.frame && m2.originUs == m.originUs && m2.inFlight == m.inFlight
            && (forall f :: f in m2.caches <==>
                  && f in m.caches && IsLive(s, f)
                  && (m.caches[f].Ready? && ResolveTrace(s, f).Some? ==>
                       ResolveTrace(s, f).value.offsetUs == m.caches[f].cache.offsetUs))
            && (forall f :: f in m2.caches ==> SlotAfter(m.caches[f], m2.caches[f], s, f))
  {
    hide RowsOf, WithRows;
    forall f | f in EpochSeen(m, history[next]).caches
      ensures SlotAfter(m.caches[f], EpochSeen(m, history[next]).caches[f], history[next], f)
    {
    }
  }

  /** Builds stay under way; a finished cache keeps its origin, offset and last
      use, and all of it if there are no more rows. */
  ghost predicate SlotAfter(a: Slot, b: Slot, s: Snapshot, f: nat) {
    match a
    case Building => b.Building?
    case Ready(c) =>
      && b.Ready? && b.cache.originUs == c.originUs && b.cache.offsetUs == c.offsetUs && b.cache.lastUsed == c.lastUsed
      && (ResolveTrace(s, f).None? || ResolveTrace(s, f).value.store.rows <= c.builtRows ==> b == a)
  }

  /** Another origin clears all slots; the same one does nothing. */
  lemma OriginTakesEffect(m: Manager, history: seq<Snapshot>, now: nat, originUs: int)
    requires now < |history|
    ensures var m2 := Stepped(m, history, now, SetOrigin(originUs));
            && m2.originUs == originUs && m2.pinned == m.pinned && m2.frame == m.frame && m2.inFlight == m.inFlight
            && (originUs == m.originUs ==> m2.caches == m.caches)
            && (originUs != m.originUs ==> forall f :: f !in m2.caches)
  {
  }

  /** Looking at a finished cache sets its last use to the frame. */
  lemma GetTakesEffect(m: Manager, history: seq<Snapshot>, now: nat, field: nat)
    requires now < |history|
    ensures var m2 := Stepped(m, history, now, Get(field));
            && OnlySlots(m, m2) && OtherSlotsStay(m, m2, field) && (field in m2.caches <==> field in m.caches)
            && (field in m.caches && m.caches[field].Building? ==> m2.caches[field] == m.caches[field])
            && (field in m.caches && m.caches[field].Ready? ==>
                 var a, b := m.caches[field].cache, m2.caches[field].cache;
                 && b.lastUsed == m.frame && b.points == a.points && b.originUs == a.originUs
                 && b.offsetUs == a.offsetUs && b.builtRows == a.builtRows)
  {
  }

  lemma DropsTakeEffect(m: Manager, history: seq<Snapshot>, now: nat, field: nat, frame: nat)
    requires now < |history|
    ensures var m2 := Stepped(m, history, now, Evict(field));
            OnlySlots(m, m2) && OtherSlotsStay(m, m2, field) && field !in m2.caches
    ensures var m2 := Stepped(m, history, now, Unpin(field));
            && m2.caches == m.caches && m2.inFlight == m.inFlight && m2.frame == m.frame && m2.originUs == m.originUs
            && forall f :: f in m2.pinned <==> f in m.pinned && f != field
    ensures Stepped(m, history, now, Frame(frame)) == Manager(m.caches, m.pinned, frame, m.originUs, m.inFlight)
  {
  }

  // ----- No slot waits for nothing -----

  /** For every slot under way a build of its field is in flight. */
  ghost predicate UnderWay(m: Manager) {
    forall f :: f in m.caches && m.caches[f].Building? ==> InFlight(m.inFlight, f)
  }

  ghost predicate InFlight(builds: seq<Build>, field: nat) {
    exists k :: 0 <= k < |builds| && builds[k].field == field
  }

  lemma StillInFlight(builds: seq<Build>, k: nat, field: nat)
    requires k < |builds| && InFlight(builds, field) && builds[k].field != field
    ensures InFlight(builds[..k] + builds[k + 1..], field)
  {
    var j :| 0 <= j < |builds| && builds[j].field == field;
    assert (builds[..k] + builds[k + 1..])[if j < k then j else j - 1] == builds[j];
  }

  lemma OneMoreInFlight(builds: seq<Build>, b: Build)
    ensures InFlight(builds + [b], b.field)
    ensures forall f :: InFlight(builds, f) ==> InFlight(builds + [b], f)
  {
    assert (builds + [b])[|builds|] == b;
    assert forall j :: 0 <= j < |builds| ==> (builds + [b])[j] == builds[j];
  }

  lemma StepUnderWay(m: Manager, history: seq<Snapshot>, now: nat, step: Step)
    requires now < |history| && UnderWay(m)
    ensures UnderWay(Stepped(m, history, now, step))
  {
    hide InFlight, Built, Stays, Appended;
    match step
    case Request(f) => OneMoreInFlight(m.inFlight, Build(f, history[now], m.originUs, m.frame));
    case Arrival(k) =>
      if k < |m.inFlight| {
        var m2 := Arrived(m, k);
        forall f | f in m2.caches && m2.caches[f].Building?
          ensures InFlight(m2.inFlight, f)
        {
          StillInFlight(m.inFlight, k, f);
        }
      }
    case _ =>
  }

  /** In every run each slot under way has its build in flight, so once all builds
      have arrived every slot is finished. */
  lemma {:induction false} RunUnderWay(history: seq<Snapshot>, steps: seq<Step>)
    requires history != []
    ensures UnderWay(Ran(history, steps).0)
    ensures Ran(history, steps).0.inFlight == [] ==>
              forall f :: f in Ran(history, steps).0.caches ==> Ran(history, steps).0.caches[f].Ready?
  {
    if steps != [] {
      hide Stepped;
      var n := |steps| - 1;
      RunUnderWay(history, steps[..n]);
      var (m, now) := Ran(history, steps[..n]);
      StepUnderWay(m, history, now, steps[n]);
    }
  }
}
