/** The cache manager as an object, and what eviction may drop. */
module ManagerObject {
  import opened Prelude
  import opened Storage
  import CM = CacheManager

  // ----- Sizes -----

  type SizeOf = CM.Cache -> nat

  function SlotBytes(slot: CM.Slot, size: SizeOf): nat {
    if slot.Ready? then size(slot.cache) else 0
  }

  /** Bytes of all finished caches. */
  ghost function TotalBytes(caches: map<nat, CM.Slot>, size: SizeOf): nat
    decreases |caches|
  {
    if caches == map[] then 0
    else
      var f :| f in caches;
      SlotBytes(caches[f], size) + TotalBytes(caches - {f}, size)
  }

  /** The sum does not depend on the order. */
  lemma {:induction false} TotalWithout(caches: map<nat, CM.Slot>, size: SizeOf, g: nat)
    requires g in caches
    ensures TotalBytes(caches, size) == SlotBytes(caches[g], size) + TotalBytes(caches - {g}, size)
    decreases |caches|
  {
    var f :| f in caches && TotalBytes(caches, size) == SlotBytes(caches[f], size) + TotalBytes(caches - {f}, size);
    if f != g {
      TotalWithout(caches - {f}, size, g);
      TotalWithout(caches - {g}, size, f);
      assert caches - {f} - {g} == caches - {g} - {f};
    }
  }

  // ----- Eviction -----

  /** A finished cache that nothing pins. */
  predicate Evictable(caches: map<nat, CM.Slot>, pinned: set<nat>, f: nat) {
    f in caches && caches[f].Ready? && f !in pinned
  }

  /** What eviction may leave of `before`: all but some evictable caches, each
      dropped one used no later than any evictable one that is kept. */
  ghost predicate Evicted(before: map<nat, CM.Slot>, pinned: set<nat>, after: map<nat, CM.Slot>) {
    && (forall f :: f in after ==> f in before && after[f] == before[f])
    && (forall f :: f in before && f !in after ==> Evictable(before, pinned, f))
    && (forall f, g :: f in before && f !in after && Evictable(after, pinned, g) ==>
         before[f].cache.lastUsed <= after[g].cache.lastUsed)
  }

  lemma EvictedOneMore(before: map<nat, CM.Slot>, pinned: set<nat>, after: map<nat, CM.Slot>, victim: nat)
    requires Evicted(before, pinned, after) && Evictable(after, pinned, victim)
    requires forall g :: Evictable(after, pinned, g) ==> after[victim].cache.lastUsed <= after[g].cache.lastUsed
    ensures Evicted(before, pinned, after - {victim})
  {
    assert before[victim] == after[victim];
  }

  // ----- The object -----

  class CacheManager {
    var caches: map<nat, CM.Slot>
    var pinned: set<nat>
    const budget: nat
    var frame: nat
    var originUs: int
    var inFlight: seq<CM.Build>
    const size: SizeOf

    constructor (budget: nat, size: SizeOf)
      ensures Value() == CM.INITIAL && this.budget == budget && this.size == size
    {
      this.budget, this.size := budget, size;
      caches, pinned, frame, originUs, inFlight := map[], {}, 0, 0, [];
    }

    function Value(): CM.Manager
      reads this
    {
      CM.Manager(caches, pinned, frame, originUs, inFlight)
    }

    method SetOrigin(origin: int)
      modifies this
      ensures Value() == CM.OriginSet(old(Value()), origin)
    {
      if origin != originUs {
        originUs := origin;
        caches := map[];
      }
    }

    method Request(field: nat, s: Snapshot)
      modifies this
      ensures Value() == CM.Requested(old(Value()), field, s)
    {
      pinned := pinned + {field};
      if field in caches {
        return;
      }
      caches := caches[field := CM.Building];
      inFlight := inFlight + [CM.Build(field, s, originUs, frame)];
    }

    /** Takes in the build that arrives next; says if it found nothing. */
    method TakeBuild(k: nat) returns (empty: bool)
      requires k < |inFlight|
      modifies this
      ensures Value() == CM.Arrived(old(Value()), k) && empty == CM.Built(old(inFlight[k])).None?
    {
      var b := inFlight[k];
      inFlight := inFlight[..k] + inFlight[k + 1..];
      var cache := CM.Built(b);
      if cache.Some? {
        caches := caches[b.field := CM.Ready(cache.value)];
      } else {
        caches := caches - {b.field};
      }
      empty := cache.None?;
    }

    /** Drops caches with another offset, appends to the others, and then drops
        what concerns removed fields. */
    method OnEpoch(s: Snapshot)
      modifies this
      ensures Value() == CM.EpochSeen(old(Value()), s)
    {
      ghost var before := caches;
      DropShifted(s);
      AppendAll(s);
      var gone := set f | f in caches && !CM.FieldLive(s, f);
      caches := caches - gone;
      pinned := set f | f in pinned && CM.FieldLive(s, f);
      assert caches == CM.EpochSeen(old(Value()), s).caches;
    }

    method DropShifted(s: Snapshot)
      modifies this`caches
      ensures caches == map f | f in old(caches) && KeepsOffset(old(caches)[f], s, f) :: old(caches)[f]
    {
      var rest := caches.Keys;
      ghost var start := caches;
      while rest != {}
        invariant rest <= start.Keys
        invariant forall f :: f in caches <==> f in start && (f in rest || KeepsOffset(start[f], s, f))
        invariant forall f :: f in caches ==> caches[f] == start[f]
        decreases |rest|
      {
        var f :| f in rest;
        rest := rest - {f};
        if !KeepsOffset(caches[f], s, f) {
          caches := caches - {f};
        }
      }
    }

    method AppendAll(s: Snapshot)
      modifies this`caches
      ensures caches == map f | f in old(caches) :: CM.UpdatedSlot(old(caches)[f], s, f)
    {
      var rest := caches.Keys;
      ghost var start := caches;
      while rest != {}
        invariant rest <= start.Keys && caches.Keys == start.Keys
        invariant forall f :: f in start ==> caches[f] == if f in rest then start[f] else CM.UpdatedSlot(start[f], s, f)
        decreases |rest|
      {
        var f :| f in rest;
        rest := rest - {f};
        if caches[f].Ready? {
          caches := caches[f := CM.Ready(CM.Appended(caches[f].cache, s, f))];
        }
      }
    }

    method TotalCacheBytes() returns (total: nat)
      ensures total == TotalBytes(caches, size)
    {
      total := 0;
      var rest := caches;
      while rest != map[]
        invariant rest.Keys <= caches.Keys && forall f :: f in rest ==> rest[f] == caches[f]
        invariant total + TotalBytes(rest, size) == TotalBytes(caches, size)
        decreases |rest|
      {
        var f :| f in rest;
        TotalWithout(rest, size, f);
        total := total + SlotBytes(rest[f], size);
        rest := rest - {f};
      }
    }

    /** The evictable cache that was used least recently. */
    method Victim() returns (victim: Option<nat>)
      ensures victim.None? ==> forall f :: !Evictable(caches, pinned, f)
      ensures victim.Some? ==> Evictable(caches, pinned, victim.value)
                               && forall g :: Evictable(caches, pinned, g) ==>
                                    caches[victim.value].cache.lastUsed <= caches[g].cache.lastUsed
    {
      victim := None;
      var rest := caches.Keys;
      while rest != {}
        invariant rest <= caches.Keys
        invariant victim.Some? ==> Evictable(caches, pinned, victim.value)
        invariant forall g :: Evictable(caches, pinned, g) && g !in rest ==>
                    victim.Some? && caches[victim.value].cache.lastUsed <= caches[g].cache.lastUsed
        decreases |rest|
      {
        var f :| f in rest;
        rest := rest - {f};
        if Evictable(caches, pinned, f) {
          if victim.None? || caches[f].cache.lastUsed < caches[victim.value].cache.lastUsed {
            victim := Some(f);
          }
        }
      }
    }

    /** Drops least recently used caches until the rest fits the budget or none
        is left that may be dropped; pinned and unfinished ones always stay. */
    method EvictOverBudget()
      modifies this`caches
      ensures Evicted(old(caches), pinned, caches)
      ensures TotalBytes(caches, size) <= budget || forall f :: !Evictable(caches, pinned, f)
      ensures old(TotalBytes(caches, size)) <= budget ==> caches == old(caches)
    {
      ghost var start := caches;
      var total := TotalCacheBytes();
      while total > budget
        invariant Evicted(start, pinned, caches) && total == TotalBytes(caches, size)
        invariant caches != start ==> TotalBytes(start, size) > budget
        decreases |caches|
      {
        var victim := Victim();
        if victim.None? {
          break;
        }
        EvictedOneMore(start, pinned, caches, victim.value);
        caches := caches - {victim.value};
        total := TotalCacheBytes();
      }
    }
  }

  predicate KeepsOffset(slot: CM.Slot, s: Snapshot, field: nat) {
    slot.Ready? ==> !CM.OffsetChanged(slot.cache, s, field)
  }
}
