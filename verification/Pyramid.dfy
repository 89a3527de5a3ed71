/** The min/max pyramid over a sample buffer: 64 nodes or samples to a node. */
module Pyramid {
  import opened Prelude

  const BRANCH: nat := 64

  // ----- Extents -----

  datatype MinMax = MinMax(min: Num, max: Num)

  const EMPTY: MinMax := MinMax(Gap, Gap)

  function NanMin(a: Num, b: Num): Num {
    if a.Gap? then b else if b.Gap? then a else if a.r <= b.r then a else b
  }

  function NanMax(a: Num, b: Num): Num {
    if a.Gap? then b else if b.Gap? then a else if a.r >= b.r then a else b
  }

  function Merge(a: MinMax, b: MinMax): MinMax {
    MinMax(NanMin(a.min, b.min), NanMax(a.max, b.max))
  }

  function Observe(a: MinMax, y: Num): MinMax {
    if y.Gap? then a else MinMax(NanMin(a.min, y), NanMax(a.max, y))
  }

  function Reduce(nodes: seq<MinMax>): MinMax {
    if nodes == [] then EMPTY else Merge(Reduce(nodes[..|nodes| - 1]), nodes[|nodes| - 1])
  }

  /** The samples as nodes of their own. */
  function Leaves(samples: seq<Num>): (r: seq<MinMax>)
    ensures |r| == |samples|
  {
    seq(|samples|, i requires 0 <= i < |samples| => MinMax(samples[i], samples[i]))
  }

  /** Min/max of samples `lo` up to `hi`. */
  function Extent(samples: seq<Num>, lo: nat, hi: nat): MinMax
    requires lo <= hi <= |samples|
  {
    Reduce(Leaves(samples)[lo..hi])
  }

  /** The least and the greatest sample in a range, gaps ignored. */
  ghost predicate IsExtent(samples: seq<Num>, lo: nat, hi: nat, e: MinMax)
    requires lo <= hi <= |samples|
  {
    if forall i :: lo <= i < hi ==> samples[i].Gap? then e == EMPTY
    else
      && e.min.Val? && e.max.Val?
      && (exists i :: lo <= i < hi && samples[i] == e.min)
      && (exists i :: lo <= i < hi && samples[i] == e.max)
      && (forall i :: lo <= i < hi && samples[i].Val? ==> e.min.r <= samples[i].r <= e.max.r)
  }

  lemma {:induction false} ExtentIsExact(samples: seq<Num>, lo: nat, hi: nat)
    requires lo <= hi <= |samples|
    ensures IsExtent(samples, lo, hi, Extent(samples, lo, hi))
    decreases hi
  {
    if lo < hi {
      ExtentIsExact(samples, lo, hi - 1);
      ExtentStep(samples, lo, hi - 1);
    }
  }

  lemma ExtentStep(samples: seq<Num>, lo: nat, hi: nat)
    requires lo <= hi < |samples|
    ensures Extent(samples, lo, hi + 1) == Observe(Extent(samples, lo, hi), samples[hi])
  {
    var l := Leaves(samples);
    assert l[lo..hi + 1][..hi - lo] == l[lo..hi];
  }

  lemma {:induction false} ReduceConcat(a: seq<MinMax>, b: seq<MinMax>)
    ensures Reduce(a + b) == Merge(Reduce(a), Reduce(b))
  {
    if b == [] {
      assert a + b == a;
    } else {
      var n := |b| - 1;
      ReduceConcat(a, b[..n]);
      assert (a + b)[..|a + b| - 1] == a + b[..n];
      MergeAssociates(Reduce(a), Reduce(b[..n]), b[n]);
    }
  }

  lemma MergeAssociates(a: MinMax, b: MinMax, c: MinMax)
    ensures Merge(Merge(a, b), c) == Merge(a, Merge(b, c))
  {
  }

  lemma ExtentConcat(samples: seq<Num>, a: nat, b: nat, c: nat)
    requires a <= b <= c <= |samples|
    ensures Extent(samples, a, c) == Merge(Extent(samples, a, b), Extent(samples, b, c))
  {
    var l := Leaves(samples);
    assert l[a..c] == l[a..b] + l[b..c];
    ReduceConcat(l[a..b], l[b..c]);
  }

  // ----- The shape of a pyramid -----

  function Smaller(a: nat, b: nat): nat {
    if a < b then a else b
  }

  function BlockCount(n: nat): nat {
    (n + BRANCH - 1) / BRANCH
  }

  function Block(nodes: seq<MinMax>, k: nat): seq<MinMax>
    requires k * BRANCH <= |nodes|
  {
    nodes[k * BRANCH..Smaller(k * BRANCH + BRANCH, |nodes|)]
  }

  /** One node for every 64 of `nodes`, the last block possibly short. */
  function Parents(nodes: seq<MinMax>): (r: seq<MinMax>)
    ensures |r| == BlockCount(|nodes|)
  {
    seq(BlockCount(|nodes|), k requires 0 <= k < BlockCount(|nodes|) => Reduce(Block(nodes, k)))
  }

  /** What lies under level `l`. */
  function Under(levels: seq<seq<MinMax>>, samples: seq<Num>, l: nat): seq<MinMax>
    requires l <= |levels|
  {
    if l == 0 then Leaves(samples) else levels[l - 1]
  }

  ghost predicate Stacked(levels: seq<seq<MinMax>>, samples: seq<Num>, l: nat)
    requires l <= |levels|
  {
    l > 0 ==>
      && Stacked(levels, samples, l - 1)
      && levels[l - 1] == Parents(Under(levels, samples, l - 1))
      && (l > 1 ==> |levels[l - 2]| > 1)
  }

  /** The levels of the whole pyramid over `samples`. */
  ghost predicate IsPyramid(levels: seq<seq<MinMax>>, samples: seq<Num>) {
    if samples == [] then levels == []
    else levels != [] && Stacked(levels, samples, |levels|) && |levels[|levels| - 1]| == 1
  }

  lemma {:induction false} StackedBelow(levels: seq<seq<MinMax>>, samples: seq<Num>, j: nat, l: nat)
    requires j <= l <= |levels| && Stacked(levels, samples, l)
    ensures Stacked(levels, samples, j)
  {
    if j < l {
      StackedBelow(levels, samples, j, l - 1);
    }
  }

  lemma {:induction false} SameLevels(a: seq<seq<MinMax>>, b: seq<seq<MinMax>>, samples: seq<Num>, l: nat)
    requires l <= |a| && l <= |b| && Stacked(a, samples, l) && Stacked(b, samples, l)
    ensures a[..l] == b[..l]
  {
    hide Parents, Leaves;
    if l > 0 {
      SameLevels(a, b, samples, l - 1);
      if l > 1 {
        assert a[..l - 1][l - 2] == b[..l - 1][l - 2];
      }
      assert a[..l] == a[..l - 1] + [a[l - 1]] && b[..l] == b[..l - 1] + [b[l - 1]];
    }
  }

  /** Samples have one pyramid. */
  lemma OnePyramid(a: seq<seq<MinMax>>, b: seq<seq<MinMax>>, samples: seq<Num>)
    requires IsPyramid(a, samples) && IsPyramid(b, samples)
    ensures a == b
  {
    if samples != [] {
      if |a| <= |b| {
        NoTaller(a, b, samples);
      } else {
        NoTaller(b, a, samples);
      }
    }
  }

  lemma NoTaller(a: seq<seq<MinMax>>, b: seq<seq<MinMax>>, samples: seq<Num>)
    requires IsPyramid(a, samples) && IsPyramid(b, samples) && samples != [] && |a| <= |b|
    ensures a == b
  {
    StackedBelow(b, samples, |a|, |b|);
    SameLevels(a, b, samples, |a|);
    assert a == a[..|a|] && a[|a| - 1] == b[..|a|][|a| - 1];
    if |a| < |b| {
      StackedBelow(b, samples, |a| + 1, |b|);
    }
    assert b == b[..|b|];
  }

  // ----- What a node covers -----

  /** The first sample under node `i` of `Under(_, _, l)`. */
  function Start(i: nat, l: nat): nat
    decreases l
  {
    if l == 0 then i else Start(i * BRANCH, l - 1)
  }

  lemma {:induction false} StartGrows(i: nat, j: nat, l: nat)
    requires i < j
    ensures Start(i, l) < Start(j, l)
    decreases l
  {
    if l > 0 {
      StartGrows(i * BRANCH, j * BRANCH, l - 1);
    }
  }

  lemma {:induction false} LevelReachesEnd(levels: seq<seq<MinMax>>, samples: seq<Num>, l: nat, i: nat)
    requires l <= |levels| && Stacked(levels, samples, l) && i >= |Under(levels, samples, l)|
    ensures Start(i, l) >= |samples|
  {
    if l > 0 {
      LevelReachesEnd(levels, samples, l - 1, i * BRANCH);
    }
  }

  lemma {:induction false} NodeStart(levels: seq<seq<MinMax>>, samples: seq<Num>, l: nat, i: nat)
    requires l <= |levels| && Stacked(levels, samples, l) && i < |Under(levels, samples, l)|
    ensures Start(i, l) < |samples|
  {
    if l > 0 {
      NodeStart(levels, samples, l - 1, i * BRANCH);
    }
  }

  /** The end of the samples before node `i`. */
  function End(samples: seq<Num>, i: nat, l: nat): (e: nat)
    ensures e <= |samples|
  {
    Smaller(Start(i, l), |samples|)
  }

  lemma LeafCovers(samples: seq<Num>, i: nat)
    requires i < |samples|
    ensures Leaves(samples)[i] == Extent(samples, i, i + 1)
  {
    assert Leaves(samples)[i..i] == [];
    ExtentStep(samples, i, i);
  }

  lemma NodeSpan(levels: seq<seq<MinMax>>, samples: seq<Num>, l: nat, i: nat)
    requires l <= |levels| && Stacked(levels, samples, l) && i < |Under(levels, samples, l)|
    ensures Start(i, l) < End(samples, i + 1, l)
  {
    NodeStart(levels, samples, l, i);
    StartGrows(i, i + 1, l);
    hide Start, Stacked;
  }

  /** Every node is the extent of its samples. */
  lemma {:induction false} NodeCovers(levels: seq<seq<MinMax>>, samples: seq<Num>, l: nat, i: nat)
    requires l <= |levels| && Stacked(levels, samples, l) && i < |Under(levels, samples, l)|
    ensures Start(i, l) < End(samples, i + 1, l)
    ensures Under(levels, samples, l)[i] == Extent(samples, Start(i, l), End(samples, i + 1, l))
    decreases l, 0, 1
  {
    NodeSpan(levels, samples, l, i);
    if l == 0 {
      LeafCovers(samples, i);
    } else {
      hide Start, Stacked, Extent;
      ParentCovers(levels, samples, l, i);
    }
  }

  lemma {:induction false} ParentCovers(levels: seq<seq<MinMax>>, samples: seq<Num>, l: nat, i: nat)
    requires 0 < l <= |levels| && Stacked(levels, samples, l) && i < |levels[l - 1]|
    ensures Start(i, l) <= End(samples, i + 1, l)
    ensures levels[l - 1][i] == Extent(samples, Start(i, l), End(samples, i + 1, l))
    decreases l, 0, 0
  {
    assert Stacked(levels, samples, l - 1);
    assert Start(i, l) == Start(i * BRANCH, l - 1);
    hide Start, Stacked, Reduce, Extent;
    var m := |Under(levels, samples, l - 1)|;
    ParentIs(levels, samples, l, i);
    LevelReachesEnd(levels, samples, l - 1, m);
    BlockEnd(samples, m, i, l);
    SliceCovers(levels, samples, l - 1, i * BRANCH, Smaller(i * BRANCH + BRANCH, m));
  }

  lemma BlockEnd(samples: seq<Num>, m: nat, i: nat, l: nat)
    requires l > 0 && Start(m, l - 1) >= |samples|
    ensures End(samples, Smaller(i * BRANCH + BRANCH, m), l - 1) == End(samples, i + 1, l)
  {
    var next := i * BRANCH + BRANCH;
    assert Start(i + 1, l) == Start(next, l - 1);
    if m < next {
      StartGrows(m, next, l - 1);
    }
  }

  lemma ParentIs(levels: seq<seq<MinMax>>, samples: seq<Num>, l: nat, i: nat)
    requires 0 < l <= |levels| && Stacked(levels, samples, l) && i < |levels[l - 1]|
    ensures var below := Under(levels, samples, l - 1);
            i * BRANCH < |below|
            && levels[l - 1][i] == Reduce(below[i * BRANCH..Smaller(i * BRANCH + BRANCH, |below|)])
  {
  }

  lemma {:induction false} SliceCovers(levels: seq<seq<MinMax>>, samples: seq<Num>, l: nat, a: nat, b: nat)
    requires l <= |levels| && Stacked(levels, samples, l) && a < b <= |Under(levels, samples, l)|
    ensures Start(a, l) <= End(samples, b, l)
    ensures Reduce(Under(levels, samples, l)[a..b]) == Extent(samples, Start(a, l), End(samples, b, l))
    decreases l, 1, b
  {
    hide Stacked, Start, Reduce, Leaves;
    var nodes := Under(levels, samples, l);
    NodeCovers(levels, samples, l, b - 1);
    LastNode(nodes, a, b);
    if a < b - 1 {
      SliceCovers(levels, samples, l, a, b - 1);
      ExtentConcat(samples, Start(a, l), Start(b - 1, l), End(samples, b, l));
    }
  }

  lemma LastNode(nodes: seq<MinMax>, a: nat, b: nat)
    requires a < b <= |nodes|
    ensures Reduce(nodes[a..b]) == if a == b - 1 then nodes[a] else Merge(Reduce(nodes[a..b - 1]), nodes[b - 1])
  {
    assert nodes[a..b][..b - 1 - a] == nodes[a..b - 1];
    assert nodes[a..a] == [];
  }
}
