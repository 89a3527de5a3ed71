/** Bringing a signal's values onto another timeline. */
module Align {
  import opened Prelude
  import G = GraphModel

  type Mode = G.AlignMode

  predicate Sorted(t: seq<int>) {
    forall i, j :: 0 <= i < j < |t| ==> t[i] <= t[j]
  }

  /** Interpolated value `offset / span` of the way between two values. */
  type Mix = (Num, Num, int, int) -> Num

  // ----- The linear-scan reference -----

  /** The last sample at or before `x`. */
  function AtOrBefore(t: seq<int>, x: int): (r: Option<nat>)
    ensures r.Some? ==> r.value < |t| && t[r.value] <= x && forall i :: r.value < i < |t| ==> t[i] > x
    ensures r.None? ==> forall i :: 0 <= i < |t| ==> t[i] > x
  {
    if t == [] then None
    else if t[|t| - 1] <= x then Some(|t| - 1)
    else AtOrBefore(t[..|t| - 1], x)
  }

  /** The first sample after `x`. */
  function After(t: seq<int>, x: int): (r: Option<nat>)
    ensures r.Some? ==> r.value < |t| && t[r.value] > x && forall i :: 0 <= i < r.value ==> t[i] <= x
    ensures r.None? ==> forall i :: 0 <= i < |t| ==> t[i] <= x
  {
    if t == [] then None
    else
      var before := After(t[..|t| - 1], x);
      if before.Some? then before
      else if t[|t| - 1] > x then Some(|t| - 1)
      else None
  }

  /** The value at time `x`: the last of the samples at that very time if there
      are any, else by mode from the samples on either side. Of several samples
      at one time the last one counts. */
  function AlignedAt(t: seq<int>, v: seq<Num>, x: int, mode: Mode, mix: Mix): Num
    requires |t| == |v|
  {
    var lo, hi := AtOrBefore(t, x), After(t, x);
    if lo.Some? && t[lo.value] == x then v[lo.value]
    else
      var next := if hi.None? then None else AtOrBefore(t, t[hi.value]);
      match mode
      case Prev => if lo.Some? then v[lo.value] else Gap
      case Nearest =>
        if lo.None? && next.None? then Gap
        else if lo.None? then v[next.value]
        else if next.None? then v[lo.value]
        else if x - t[lo.value] <= t[next.value] - x then v[lo.value] else v[next.value]
      case Linear =>
        if lo.None? || next.None? then Gap
        else mix(v[lo.value], v[next.value], x - t[lo.value], t[next.value] - t[lo.value])
  }

  function Aligned(t: seq<int>, v: seq<Num>, base: seq<int>, mode: Mode, mix: Mix): (r: seq<Num>)
    requires |t| == |v|
    ensures |r| == |base|
  {
    seq(|base|, i requires 0 <= i < |base| => AlignedAt(t, v, base[i], mode, mix))
  }

  function Distance(a: int, b: int): nat {
    if a <= b then b - a else a - b
  }

  /** In nearest mode the value is that of a sample no other one is closer than. */
  lemma NearestIsClosest(t: seq<int>, v: seq<Num>, x: int, mix: Mix)
    requires |t| == |v| && t != [] && Sorted(t)
    ensures exists i :: 0 <= i < |t| && AlignedAt(t, v, x, G.Nearest, mix) == v[i]
                 && forall j :: 0 <= j < |t| ==> Distance(t[i], x) <= Distance(t[j], x)
  {
    var lo, hi := AtOrBefore(t, x), After(t, x);
    var next := if hi.None? then None else AtOrBefore(t, t[hi.value]);
    var i := if lo.Some? && (t[lo.value] == x || next.None? || x - t[lo.value] <= t[next.value] - x)
             then lo.value else next.value;
    assert AlignedAt(t, v, x, G.Nearest, mix) == v[i];
    forall j | 0 <= j < |t|
      ensures Distance(t[i], x) <= Distance(t[j], x)
    {
    }
  }

  // ----- The fast form: one sample for each time, and binary search -----

  predicate Increasing(t: seq<int>) {
    forall i, j :: 0 <= i < j < |t| ==> t[i] < t[j]
  }

  /** `times` and `values` are the samples of `t` and `v` with one left for each
      time, the last one, which comes from `last[k]`. */
  ghost predicate Deduplicates(t: seq<int>, v: seq<Num>, times: seq<int>, values: seq<Num>, last: seq<nat>)
    requires |t| == |v|
  {
    && |times| == |values| == |last|
    && Increasing(times)
    && (forall k :: 0 <= k < |last| ==> last[k] < |t| && t[last[k]] == times[k] && v[last[k]] == values[k])
    && (forall x :: x in t ==> x in times)
    && (forall j, k :: 0 <= j < |t| && 0 <= k < |last| && t[j] == times[k] ==> j <= last[k])
  }

  lemma OneMoreAtSameTime(t: seq<int>, v: seq<Num>, i: nat, times: seq<int>, values: seq<Num>, last: seq<nat>)
    requires |t| == |v| && i < |t| && Deduplicates(t[..i], v[..i], times, values, last)
    requires times != [] && times[|times| - 1] == t[i]
    ensures var n := |times| - 1; Deduplicates(t[..i + 1], v[..i + 1], times, values[n := v[i]], last[n := i])
  {
    var n := |times| - 1;
    assert forall x :: x in t[..i + 1] ==> x in t[..i] || x == t[i];
    var seen, last' := t[..i + 1], last[n := i];
    forall j, k | 0 <= j < |seen| && 0 <= k < |last'| && seen[j] == times[k]
      ensures j <= last'[k]
    {
      if j < i {
        assert t[..i][j] == times[k];
      }
    }
  }

  lemma OneMoreAtNewTime(t: seq<int>, v: seq<Num>, i: nat, times: seq<int>, values: seq<Num>, last: seq<nat>)
    requires |t| == |v| && Sorted(t) && i < |t| && Deduplicates(t[..i], v[..i], times, values, last)
    requires times == [] || times[|times| - 1] != t[i]
    ensures Deduplicates(t[..i + 1], v[..i + 1], times + [t[i]], values + [v[i]], last + [i])
  {
    var times', last' := times + [t[i]], last + [i];
    forall k | 0 <= k < |times|
      ensures times[k] < t[i]
    {
      assert t[..i][last[k]] == times[k] && t[last[k]] <= t[i];
      assert times[k] <= times[|times| - 1] && t[..i][last[|times| - 1]] == times[|times| - 1];
      assert t[last[|times| - 1]] <= t[i];
    }
    assert forall x :: x in t[..i + 1] ==> x in t[..i] || x == t[i];
    assert times'[|times|] == t[i] && forall x :: x in times ==> x in times';
    var seen := t[..i + 1];
    forall j, k | 0 <= j < |seen| && 0 <= k < |last'| && seen[j] == times'[k]
      ensures j <= last'[k]
    {
      if j < i && k < |last| {
        assert t[..i][j] == times[k];
      }
    }
  }

  /** Of each run of equal times the last sample. */
  function Deduplicated(t: seq<int>, v: seq<Num>): (r: (seq<int>, seq<Num>))
    requires |t| == |v|
    ensures |r.0| == |r.1|
  {
    if t == [] then ([], [])
    else
      var n := |t| - 1;
      var (times, values) := Deduplicated(t[..n], v[..n]);
      if times != [] && times[|times| - 1] == t[n] then (times, values[|values| - 1 := v[n]])
      else (times + [t[n]], values + [v[n]])
  }

  lemma {:induction false} OneLeftForEachTime(t: seq<int>, v: seq<Num>) returns (last: seq<nat>)
    requires |t| == |v| && Sorted(t)
    ensures Deduplicates(t, v, Deduplicated(t, v).0, Deduplicated(t, v).1, last)
  {
    last := [];
    if t != [] {
      var n := |t| - 1;
      last := OneLeftForEachTime(t[..n], v[..n]);
      var (times, values) := Deduplicated(t[..n], v[..n]);
      assert t[..n + 1] == t && v[..n + 1] == v;
      if times != [] && times[|times| - 1] == t[n] {
        OneMoreAtSameTime(t, v, n, times, values, last);
        last := last[|times| - 1 := n];
      } else {
        OneMoreAtNewTime(t, v, n, times, values, last);
        last := last + [n];
      }
    }
  }

  method Deduplicate(t: seq<int>, v: seq<Num>) returns (times: seq<int>, values: seq<Num>)
    requires |t| == |v|
    ensures (times, values) == Deduplicated(t, v)
  {
    times, values := [], [];
    for i := 0 to |t|
      invariant (times, values) == Deduplicated(t[..i], v[..i])
    {
      assert t[..i + 1][..i] == t[..i] && v[..i + 1][..i] == v[..i];
      if |times| > 0 && times[|times| - 1] == t[i] {
        values := values[|values| - 1 := v[i]];
      } else {
        times := times + [t[i]];
        values := values + [v[i]];
      }
    }
    assert t[..|t|] == t && v[..|t|] == v;
  }

  /** Where a binary search between `lo` and `hi` ends. */
  function Searched(times: seq<int>, x: int, lo: nat, hi: nat): (index: nat)
    requires lo <= hi <= |times|
    ensures lo <= index <= hi
    decreases hi - lo
  {
    if lo == hi then lo
    else
      var mid := lo + (hi - lo) / 2;
      if times[mid] < x then Searched(times, x, mid + 1, hi) else Searched(times, x, lo, mid)
  }

  /** On increasing times that is the number of times before `x`. */
  lemma {:induction false} SearchedSplits(times: seq<int>, x: int, lo: nat, hi: nat)
    requires Increasing(times) && lo <= hi <= |times|
    requires forall i :: 0 <= i < lo ==> times[i] < x
    requires forall i :: hi <= i < |times| ==> times[i] >= x
    ensures Splits(times, x, Searched(times, x, lo, hi))
    decreases hi - lo
  {
    if lo < hi {
      var mid := lo + (hi - lo) / 2;
      if times[mid] < x {
        SearchedSplits(times, x, mid + 1, hi);
      } else {
        SearchedSplits(times, x, lo, mid);
      }
    }
  }

  method Search(times: seq<int>, x: int) returns (index: nat)
    ensures index == Searched(times, x, 0, |times|)
  {
    var lo, hi := 0, |times|;
    while lo < hi
      invariant 0 <= lo <= hi <= |times| && Searched(times, x, lo, hi) == Searched(times, x, 0, |times|)
    {
      var mid := lo + (hi - lo) / 2;
      if times[mid] < x {
        lo := mid + 1;
      } else {
        hi := mid;
      }
    }
    index := lo;
  }

  ghost predicate Splits(times: seq<int>, x: int, index: nat) {
    && index <= |times|
    && (forall i :: 0 <= i < index ==> times[i] < x)
    && (forall i :: index <= i < |times| ==> times[i] >= x)
  }

  /** The last sample before the times from `k` on is `last[k - 1]`. */
  lemma LastBefore(t: seq<int>, v: seq<Num>, times: seq<int>, values: seq<Num>, last: seq<nat>, x: int, k: nat)
    requires |t| == |v| && Sorted(t) && Deduplicates(t, v, times, values, last)
    requires k <= |times| && (k > 0 ==> times[k - 1] <= x) && (k < |times| ==> times[k] > x)
    ensures AtOrBefore(t, x) == if k > 0 then Some(last[k - 1]) else None
  {
    var r := AtOrBefore(t, x);
    if k > 0 {
      assert t[last[k - 1]] == times[k - 1];
    }
    if r.Some? {
      assert t[r.value] in times;
      var m :| 0 <= m < |times| && times[m] == t[r.value];
      assert m < k && r.value <= last[m];
    }
  }

  lemma FirstAfter(t: seq<int>, v: seq<Num>, times: seq<int>, values: seq<Num>, last: seq<nat>, x: int, k: nat)
    requires |t| == |v| && Sorted(t) && Deduplicates(t, v, times, values, last)
    requires k <= |times| && (k > 0 ==> times[k - 1] <= x) && (k < |times| ==> times[k] > x)
    ensures var hi := After(t, x);
            if k < |times| then hi.Some? && t[hi.value] == times[k] else hi == None
  {
    var hi := After(t, x);
    if k < |times| {
      assert t[last[k]] == times[k];
    }
    if hi.Some? {
      assert t[hi.value] in times;
      var m :| 0 <= m < |times| && times[m] == t[hi.value];
      assert m >= k;
    }
  }

  /** The value found by binary search at `index`. */
  function Found(times: seq<int>, values: seq<Num>, x: int, index: nat, mode: Mode, mix: Mix): Num
    requires |times| == |values| && index <= |times|
  {
    if index < |times| && times[index] == x then values[index]
    else
      match mode
      case Prev => if index > 0 then values[index - 1] else Gap
      case Nearest =>
        if index == 0 && index == |times| then Gap
        else if index == 0 then values[index]
        else if index == |times| then values[index - 1]
        else if x - times[index - 1] <= times[index] - x then values[index - 1]
        else values[index]
      case Linear =>
        if index == 0 || index == |times| then Gap
        else mix(values[index - 1], values[index], x - times[index - 1], times[index] - times[index - 1])
  }

  lemma FoundIsAligned(t: seq<int>, v: seq<Num>, times: seq<int>, values: seq<Num>, last: seq<nat>,
                       x: int, index: nat, mode: Mode, mix: Mix)
    requires |t| == |v| && Sorted(t) && Deduplicates(t, v, times, values, last) && Splits(times, x, index)
    ensures Found(times, values, x, index, mode, mix) == AlignedAt(t, v, x, mode, mix)
  {
    if index < |times| {
      LastBefore(t, v, times, values, last, times[index], index + 1);
    }
    if index < |times| && times[index] == x {
    } else {
      LastBefore(t, v, times, values, last, x, index);
      FirstAfter(t, v, times, values, last, x, index);
    }
  }

  /** The values at the times of `base`, by deduplication and binary search. */
  function FastAligned(t: seq<int>, v: seq<Num>, base: seq<int>, mode: Mode, mix: Mix): (r: seq<Num>)
    requires |t| == |v|
    ensures |r| == |base|
  {
    var (times, values) := Deduplicated(t, v);
    seq(|base|, i requires 0 <= i < |base| =>
      Found(times, values, base[i], Searched(times, base[i], 0, |times|), mode, mix))
  }

  /** Of sorted samples that is the linear-scan answer. */
  lemma FastIsAligned(t: seq<int>, v: seq<Num>, base: seq<int>, mode: Mode, mix: Mix)
    requires |t| == |v| && Sorted(t)
    ensures FastAligned(t, v, base, mode, mix) == Aligned(t, v, base, mode, mix)
  {
    var (times, values) := Deduplicated(t, v);
    var last := OneLeftForEachTime(t, v);
    forall i | 0 <= i < |base|
      ensures Found(times, values, base[i], Searched(times, base[i], 0, |times|), mode, mix)
           == AlignedAt(t, v, base[i], mode, mix)
    {
      SearchedSplits(times, base[i], 0, |times|);
      FoundIsAligned(t, v, times, values, last, base[i], Searched(times, base[i], 0, |times|), mode, mix);
    }
  }

  /** Index `i` is the last one of its time. */
  predicate LastOfTime(t: seq<int>, i: nat) {
    i < |t| && (i + 1 == |t| || t[i + 1] != t[i])
  }

  lemma LastUpTo(t: seq<int>, x: int, i: nat)
    requires Sorted(t) && i < |t| && t[i] <= x && (i + 1 < |t| ==> t[i + 1] > x)
    ensures AtOrBefore(t, x) == Some(i)
  {
    var lo := AtOrBefore(t, x);
    assert lo.Some?;
  }

  lemma FirstPast(t: seq<int>, x: int, i: nat)
    requires Sorted(t) && i < |t| && t[i] > x && (i > 0 ==> t[i - 1] <= x)
    ensures After(t, x) == Some(i)
  {
    var hi := After(t, x);
    assert hi.Some?;
  }

  lemma AlignedOutside(t: seq<int>, v: seq<Num>, x: int, mode: Mode, mix: Mix)
    requires |t| == |v| && Sorted(t)
    ensures t == [] ==> AlignedAt(t, v, x, mode, mix) == Gap
    ensures forall j: nat :: j < |t| && LastOfTime(t, j) && t[j] == t[0] && x < t[0] ==>
              AlignedAt(t, v, x, mode, mix) == if mode.Nearest? then v[j] else Gap
  {
    if t != [] && x < t[0] {
      assert AtOrBefore(t, x) == None;
      FirstPast(t, x, 0);
      forall j: nat | LastOfTime(t, j) && t[j] == t[0]
        ensures AlignedAt(t, v, x, mode, mix) == if mode.Nearest? then v[j] else Gap
      {
        LastUpTo(t, t[0], j);
      }
    }
  }

  lemma AlignedFrom(t: seq<int>, v: seq<Num>, x: int, mode: Mode, mix: Mix, i: nat)
    requires |t| == |v| && Sorted(t) && LastOfTime(t, i)
    ensures t[i] == x ==> AlignedAt(t, v, x, mode, mix) == v[i]
    ensures i + 1 == |t| && t[i] < x ==> AlignedAt(t, v, x, mode, mix) == if mode.Linear? then Gap else v[i]
  {
    if t[i] == x || (i + 1 == |t| && t[i] < x) {
      LastUpTo(t, x, i);
      if i + 1 == |t| {
        assert After(t, x) == None;
      }
    }
  }

  lemma AlignedBetween(t: seq<int>, v: seq<Num>, x: int, mode: Mode, mix: Mix, i: nat, j: nat)
    requires |t| == |v| && Sorted(t) && LastOfTime(t, i) && LastOfTime(t, j)
    requires i < j && t[i + 1] == t[j] && t[i] < x < t[j]
    ensures AlignedAt(t, v, x, mode, mix) ==
            match mode
            case Prev => v[i]
            case Nearest => if x - t[i] <= t[j] - x then v[i] else v[j]
            case Linear => mix(v[i], v[j], x - t[i], t[j] - t[i])
  {
    LastUpTo(t, x, i);
    FirstPast(t, x, i + 1);
    LastUpTo(t, t[j], j);
  }

  /** What alignment gives at time `x`, sample by sample of a sorted input: the
      last sample of that very time; else in previous mode the one before it, in
      nearest mode the closer neighbour and the earlier one on a tie, in linear
      mode a mix of the two. Before the first and after the last sample linear
      mode gives a gap, and previous mode does before the first. */
  lemma AlignedMeans(t: seq<int>, v: seq<Num>, base: seq<int>, mode: Mode, mix: Mix, b: nat)
    requires |t| == |v| && Sorted(t) && b < |base|
    ensures var x, r := base[b], FastAligned(t, v, base, mode, mix)[b];
            && (t == [] ==> r == Gap)
            && (forall i: nat :: i < |t| && LastOfTime(t, i) && t[i] == x ==> r == v[i])
            && (forall i: nat :: i < |t| && LastOfTime(t, i) && i + 1 == |t| && t[i] < x ==>
                  r == if mode.Linear? then Gap else v[i])
            && (forall j: nat :: j < |t| && LastOfTime(t, j) && t[j] == t[0] && x < t[0] ==>
                  r == if mode.Nearest? then v[j] else Gap)
            && (forall i: nat, j: nat ::
                  i < j < |t| && LastOfTime(t, i) && LastOfTime(t, j) && t[i + 1] == t[j] && t[i] < x < t[j] ==>
                  r == match mode
                       case Prev => v[i]
                       case Nearest => if x - t[i] <= t[j] - x then v[i] else v[j]
                       case Linear => mix(v[i], v[j], x - t[i], t[j] - t[i]))
  {
    hide FastAligned, AlignedAt, LastOfTime;
    FastIsAligned(t, v, base, mode, mix);
    var x := base[b];
    assert FastAligned(t, v, base, mode, mix)[b] == AlignedAt(t, v, x, mode, mix);
    AlignedOutside(t, v, x, mode, mix);
    forall i: nat | i < |t| && LastOfTime(t, i)
      ensures t[i] == x ==> AlignedAt(t, v, x, mode, mix) == v[i]
      ensures i + 1 == |t| && t[i] < x ==> AlignedAt(t, v, x, mode, mix) == if mode.Linear? then Gap else v[i]
    {
      AlignedFrom(t, v, x, mode, mix, i);
    }
    forall i: nat, j: nat |
        i < j < |t| && LastOfTime(t, i) && LastOfTime(t, j) && t[i + 1] == t[j] && t[i] < x < t[j]
      ensures AlignedAt(t, v, x, mode, mix) ==
              match mode
              case Prev => v[i]
              case Nearest => if x - t[i] <= t[j] - x then v[i] else v[j]
              case Linear => mix(v[i], v[j], x - t[i], t[j] - t[i])
    {
      AlignedBetween(t, v, x, mode, mix, i, j);
    }
  }

  method AlignValues(t: seq<int>, v: seq<Num>, base: seq<int>, mode: Mode, mix: Mix) returns (r: seq<Num>)
    requires |t| == |v|
    ensures r == FastAligned(t, v, base, mode, mix)
    ensures Sorted(t) ==> r == Aligned(t, v, base, mode, mix)
  {
    var times, values := Deduplicate(t, v);
    r := [];
    for b := 0 to |base|
      invariant r == FastAligned(t, v, base[..b], mode, mix)
    {
      var index := Search(times, base[b]);
      r := r + [Found(times, values, base[b], index, mode, mix)];
    }
    assert base[..|base|] == base;
    assert Sorted(t) ==> r == Aligned(t, v, base, mode, mix) by {
      if Sorted(t) {
        FastIsAligned(t, v, base, mode, mix);
      }
    }
  }
}
