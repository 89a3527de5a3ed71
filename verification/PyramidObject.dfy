/** The pyramid as an object: built, extended in place and queried. */
module PyramidObject {
  import opened Prelude
  import opened Pyramid

  // ----- Strided samples -----

  function SampleCount(length: nat, stride: nat, offset: nat): nat
    requires stride > 0
  {
    if length <= offset then 0 else (length - offset + stride - 1) / stride
  }

  lemma SampleInside(length: nat, stride: nat, offset: nat, i: nat)
    requires stride > 0 && i < SampleCount(length, stride, offset)
    ensures stride * i + offset < length
  {
    var k := length - offset + stride - 1;
    assert i + 1 <= k / stride;
    assert (i + 1) * stride <= k by {
      assert (k / stride) * stride <= k;
      Larger(i + 1, k / stride, stride);
    }
    assert (i + 1) * stride == stride * i + stride;
  }

  lemma Larger(a: nat, b: nat, c: nat)
    requires a <= b
    ensures a * c <= b * c
  {
  }

  function SampleAt(data: seq<Num>, stride: nat, offset: nat, i: nat): Num
    requires stride > 0 && i < SampleCount(|data|, stride, offset)
  {
    SampleInside(|data|, stride, offset, i);
    data[stride * i + offset]
  }

  function Samples(data: seq<Num>, stride: nat, offset: nat): (r: seq<Num>)
    requires stride > 0
    ensures |r| == SampleCount(|data|, stride, offset)
  {
    var n := SampleCount(|data|, stride, offset);
    seq(n, i requires 0 <= i < n => SampleAt(data, stride, offset, i))
  }

  lemma MoreSamples(length: nat, longer: nat, stride: nat, offset: nat)
    requires stride > 0 && length <= longer
    ensures SampleCount(length, stride, offset) <= SampleCount(longer, stride, offset)
  {
    if length > offset {
      Quotients(length - offset + stride - 1, longer - offset + stride - 1, stride);
    }
  }

  /** Appending data appends samples. */
  lemma SamplesGrow(data: seq<Num>, more: seq<Num>, stride: nat, offset: nat)
    requires stride > 0
    ensures Samples(data, stride, offset) <= Samples(data + more, stride, offset)
  {
    MoreSamples(|data|, |data + more|, stride, offset);
    forall i: nat | i < SampleCount(|data|, stride, offset)
      ensures SampleAt(data, stride, offset, i) == SampleAt(data + more, stride, offset, i)
    {
      SampleInside(|data|, stride, offset, i);
    }
  }

  // ----- One level -----

  /** The parents of full blocks that did not change are the old ones. */
  lemma ParentsOfGrown(before: seq<MinMax>, after: seq<MinMax>, same: nat)
    requires same <= |before| && same <= |after| && before[..same] == after[..same]
    ensures var p := same / BRANCH;
            && p <= |Parents(before)|
            && Parents(after) == Parents(before)[..p] + Parents(after[p * BRANCH..])
  {
    var p := same / BRANCH;
    var rest := after[p * BRANCH..];
    assert |Parents(after)| == p + |Parents(rest)|;
    forall k | 0 <= k < |Parents(after)|
      ensures Parents(after)[k] == (Parents(before)[..p] + Parents(rest))[k]
    {
      if k < p {
        var lo := k * BRANCH;
        assert before[..same][lo..lo + BRANCH] == before[lo..lo + BRANCH];
        assert after[..same][lo..lo + BRANCH] == after[lo..lo + BRANCH];
      } else {
        assert Block(rest, k - p) == Block(after, k);
      }
    }
  }

  lemma AllParents(nodes: seq<MinMax>)
    ensures nodes[0..] == nodes
  {
  }

  method PushParents(parent: seq<MinMax>, children: seq<MinMax>) returns (r: seq<MinMax>)
    ensures r == parent + Parents(children)
  {
    r := parent;
    for k := 0 to BlockCount(|children|)
      invariant r == parent + Parents(children)[..k]
    {
      r := r + [Reduce(Block(children, k))];
      assert Parents(children)[..k + 1] == Parents(children)[..k] + [Parents(children)[k]];
    }
    assert Parents(children)[..|Parents(children)|] == Parents(children);
  }

  // ----- The object -----

  lemma FewerParents(a: nat, b: nat)
    requires a <= b
    ensures BlockCount(a) <= BlockCount(b)
    ensures a > 0 ==> BlockCount(a) > 0
    ensures a > 1 ==> BlockCount(a) < a
    ensures a <= 1 ==> BlockCount(a) == a
  {
  }

  lemma {:induction false} StackedIs(levels: seq<seq<MinMax>>, other: seq<seq<MinMax>>, samples: seq<Num>, l: nat)
    requires l <= |levels| && l <= |other| && Stacked(levels, samples, l) && levels[..l] == other[..l]
    ensures Stacked(other, samples, l)
  {
    hide Parents, Leaves;
    if l > 0 {
      assert levels[..l - 1] == levels[..l][..l - 1] == other[..l][..l - 1] == other[..l - 1];
      assert levels[..l][l - 1] == other[..l][l - 1];
      if l > 1 {
        assert levels[..l][l - 2] == other[..l][l - 2];
      }
      StackedIs(levels, other, samples, l - 1);
    }
  }

  class MinMaxPyramid {
    var levels: seq<seq<MinMax>>
    var n: nat
    const stride: nat
    const offset: nat

    constructor (stride: nat, offset: nat)
      ensures this.stride == (if stride > 1 then stride else 1) && this.offset == offset
      ensures Covers([])
    {
      this.stride := if stride > 1 then stride else 1;
      this.offset := offset;
      levels, n := [], 0;
    }

    /** This is the pyramid of the samples in `data`. */
    ghost predicate Covers(data: seq<Num>)
      reads this
    {
      && stride > 0
      && n == SampleCount(|data|, stride, offset)
      && IsPyramid(levels, Samples(data, stride, offset))
    }

    /** Min/max of samples `lo` up to `hi`, by a scan. */
    method Scan(data: seq<Num>, lo: nat, hi: nat) returns (e: MinMax)
      requires stride > 0 && lo <= hi <= SampleCount(|data|, stride, offset)
      ensures e == Extent(Samples(data, stride, offset), lo, hi)
    {
      e := EMPTY;
      ghost var samples := Samples(data, stride, offset);
      assert Leaves(samples)[lo..lo] == [];
      for i := lo to hi
        invariant e == Extent(samples, lo, i)
      {
        ExtentStep(samples, lo, i);
        e := Observe(e, SampleAt(data, stride, offset, i));
      }
    }

    /** The nodes over blocks `from` up to the last one. */
    method ScanBlocks(data: seq<Num>, from: nat, base: seq<MinMax>) returns (r: seq<MinMax>)
      requires stride > 0
      requires var leaves := Leaves(Samples(data, stride, offset));
               from <= BlockCount(|leaves|) && base == Parents(leaves)[..from]
      ensures r == Parents(Leaves(Samples(data, stride, offset)))
    {
      ghost var samples := Samples(data, stride, offset);
      ghost var all := Parents(Leaves(samples));
      var count := SampleCount(|data|, stride, offset);
      r := base;
      for k := from to BlockCount(count)
        invariant r == all[..k]
      {
        var e := Scan(data, k * BRANCH, Smaller(k * BRANCH + BRANCH, count));
        assert e == all[k];
        r := r + [e];
      }
      assert all[..|all|] == all;
    }

    method Rebuild(data: seq<Num>)
      requires stride > 0
      modifies this`levels, this`n
      ensures Covers(data)
    {
      hide Leaves, Parents;
      n := SampleCount(|data|, stride, offset);
      levels := [];
      ghost var samples := Samples(data, stride, offset);
      if n == 0 {
        return;
      }
      var l0 := ScanBlocks(data, 0, []);
      FewerParents(n, n);
      levels := [l0];
      while |levels[|levels| - 1]| > 1
        invariant levels != [] && Stacked(levels, samples, |levels|) && |levels[|levels| - 1]| > 0
        invariant n == SampleCount(|data|, stride, offset)
        decreases |levels[|levels| - 1]|
      {
        var top := levels[|levels| - 1];
        var next := PushParents([], top);
        FewerParents(|top|, |top|);
        StackedIs(levels, levels + [next], samples, |levels|);
        levels := levels + [next];
      }
    }

    /** Level `lvl` on top of a level whose first `same` nodes did not change. */
    method ExtendLevel(lvl: nat, same: nat, ghost before: seq<seq<MinMax>>, ghost samples: seq<Num>)
      requires 0 < lvl < |levels| && Stacked(levels, samples, lvl)
      requires |levels[lvl - 1]| > 1
      requires same <= |levels[lvl - 1]|
      requires if lvl < |before|
               then before[lvl] == levels[lvl] == Parents(before[lvl - 1]) && same <= |before[lvl - 1]|
                    && levels[lvl - 1][..same] == before[lvl - 1][..same]
               else levels[lvl] == [] && same < BRANCH
      modifies this`levels
      ensures levels == old(levels)[lvl := Parents(old(levels)[lvl - 1])]
      ensures same / BRANCH <= |levels[lvl]|
      ensures lvl < |before| ==> same / BRANCH <= |before[lvl]|
                                 && levels[lvl][..same / BRANCH] == before[lvl][..same / BRANCH]
    {
      var child := levels[lvl - 1];
      var from := same / BRANCH;
      if lvl < |before| {
        ParentsOfGrown(before[lvl - 1], child, same);
      } else {
        AllParents(child);
      }
      var parent := levels[lvl][..from];
      parent := PushParents(parent, child[from * BRANCH..]);
      assert parent == Parents(child);
      levels := levels[lvl := parent];
    }

    /** What the upward pass keeps: the levels below `lvl` are done, those from
        it on are as before, and so are the first `same` nodes just below it. */
    ghost predicate Extending(before: seq<seq<MinMax>>, samples: seq<Num>, lvl: nat, same: nat)
      reads this`levels
    {
      && 0 < lvl <= |levels| && Stacked(levels, samples, lvl) && |levels[lvl - 1]| > 0
      && |levels| == (if lvl < |before| then |before| else lvl)
      && (forall j :: lvl <= j < |before| ==> levels[j] == before[j])
      && same <= |levels[lvl - 1]|
      && if lvl <= |before|
         then same <= |before[lvl - 1]| <= |levels[lvl - 1]| && levels[lvl - 1][..same] == before[lvl - 1][..same]
         else same == 0
    }

    /** The same as building anew over the longer data. */
    method Extend(data: seq<Num>, ghost before: seq<Num>)
      requires Covers(before) && before <= data
      modifies this`levels, this`n
      ensures Covers(data)
    {
      if levels == [] {
        Rebuild(data);
        return;
      }
      ghost var was, samples := Samples(before, stride, offset), Samples(data, stride, offset);
      assert data == before + data[|before|..];
      SamplesGrow(before, data[|before|..], stride, offset);
      var newN := SampleCount(|data|, stride, offset);
      if newN <= n {
        assert was == samples;
        return;
      }
      ghost var old0 := levels;
      var from := n / BRANCH;
      BottomLevel(old0, was, samples);
      var l0 := ScanBlocks(data, from, levels[0][..from]);
      levels := levels[0 := l0];
      n := newN;
      OnlyTopIsSmall(old0, was, |old0|);
      var same: nat, lvl: nat := from, 1;
      while lvl < |levels| || |levels[lvl - 1]| > 1
        invariant n == |samples| && Extending(old0, samples, lvl, same)
        decreases if lvl < |old0| then |old0| - lvl else 0, |levels[lvl - 1]|
      {
        same := Climb(lvl, same, old0, samples);
        lvl := lvl + 1;
      }
    }

    /** Does one level of the upward pass, a new one if there is none. */
    method Climb(lvl: nat, same: nat, ghost before: seq<seq<MinMax>>, ghost samples: seq<Num>) returns (same': nat)
      requires Tall(before) && Extending(before, samples, lvl, same)
      requires lvl < |levels| || |levels[lvl - 1]| > 1
      modifies this`levels
      ensures Extending(before, samples, lvl + 1, same')
      ensures lvl >= |before| ==> |levels[lvl]| < old(|levels[lvl - 1]|)
    {
      hide Parents, Leaves;
      if lvl == |levels| {
        StackedIs(levels, levels + [[]], samples, lvl);
        levels := levels + [[]];
      }
      ghost var prior := levels;
      ExtendLevel(lvl, same, before, samples);
      FewerParents(|prior[lvl - 1]|, |prior[lvl - 1]|);
      if lvl < |before| {
        FewerParents(|before[lvl - 1]|, |prior[lvl - 1]|);
      }
      assert prior[..lvl] == levels[..lvl];
      StackedIs(prior, levels, samples, lvl);
      same' := same / BRANCH;
    }

    /** Exactly the extent of the samples, never outside a level. */
    method Query(data: seq<Num>, a: nat, b: nat) returns (e: MinMax)
      requires Covers(data)
      ensures e == ExtentWithin(Samples(data, stride, offset), a, b)
    {
      ghost var samples := Samples(data, stride, offset);
      var first, last := Smaller(a, n), Smaller(b, n);
      if first >= last {
        return EMPTY;
      }
      e := EMPTY;
      var i := first;
      assert Leaves(samples)[first..first] == [];
      while i < last
        invariant first <= i <= last && e == Extent(samples, first, i)
      {
        if i % BRANCH == 0 && i + BRANCH <= last {
          var node, span := LargestNode(data, i, last);
          ExtentConcat(samples, first, i, i + span);
          e := Merge(e, node);
          i := i + span;
        } else {
          ExtentStep(samples, first, i);
          e := Observe(e, SampleAt(data, stride, offset, i));
          i := i + 1;
        }
      }
    }

    /** Climbs to the largest node that starts at `i` and ends by `last`. */
    method LargestNode(data: seq<Num>, i: nat, last: nat) returns (node: MinMax, span: nat)
      requires Covers(data) && i % BRANCH == 0 && i + BRANCH <= last <= n
      ensures span > 0 && i + span <= last
      ensures node == Extent(Samples(data, stride, offset), i, i + span)
    {
      ghost var samples := Samples(data, stride, offset);
      var level := 0;
      span := BRANCH;
      FullBlock(levels, samples, i);
      Begins(i, 0, BRANCH);
      while level + 1 < |levels|
        invariant level < |levels| && span == Width(level + 1) && i + span <= last
        invariant i / span < |levels[level]|
        invariant Start(i / span, level + 1) == i && Start(i / span + 1, level + 1) == i + span
      {
        var bigger := span * BRANCH;
        if i % bigger == 0 && i + bigger <= last && i / bigger < |levels[level + 1]| {
          level, span := level + 1, bigger;
          Begins(i, level, span);
        } else {
          break;
        }
      }
      node := levels[level][i / span];
      NodeAt(levels, samples, level, i / span, i, span);
    }

    /** Extents of `columns` equal index ranges. */
    method Columns(data: seq<Num>, a: nat, b: nat, columns: nat) returns (r: seq<MinMax>)
      requires Covers(data)
      ensures |r| == if b <= a then 0 else columns
      ensures forall c :: 0 <= c < |r| ==>
                IsExtentWithin(Samples(data, stride, offset), a + (b - a) * c / columns,
                               a + (b - a) * (c + 1) / columns, r[c])
      ensures forall c :: 0 <= c < |r| ==>
                r[c] == ExtentWithin(Samples(data, stride, offset), ColumnStart(a, b, c, columns),
                  ColumnStart(a, b, c + 1, columns))
    {
      r := [];
      if b <= a {
        return;
      }
      for c := 0 to columns
        invariant |r| == c
        invariant forall k :: 0 <= k < c ==>
                    r[k] == ExtentWithin(Samples(data, stride, offset), ColumnStart(a, b, k, columns),
                      ColumnStart(a, b, k + 1, columns))
      {
        var e := Query(data, ColumnStart(a, b, c, columns), ColumnStart(a, b, c + 1, columns));
        r := r + [e];
      }
      forall c | 0 <= c < columns
        ensures IsExtentWithin(Samples(data, stride, offset), a + (b - a) * c / columns,
                               a + (b - a) * (c + 1) / columns, r[c])
      {
        ColumnIsExtent(Samples(data, stride, offset), a, b, c, columns);
      }
    }
  }

  /** The extent of the samples in a range that may reach past the end. */
  function ExtentWithin(samples: seq<Num>, a: nat, b: nat): MinMax {
    var lo, hi := Smaller(a, |samples|), Smaller(b, |samples|);
    if lo < hi then Extent(samples, lo, hi) else EMPTY
  }

  /** The extent of those of the samples from `a` up to `b` that there are. */
  ghost predicate IsExtentWithin(samples: seq<Num>, a: int, b: int, e: MinMax) {
    if forall i :: 0 <= i < |samples| && a <= i < b ==> samples[i].Gap? then e == EMPTY
    else
      && e.min.Val? && e.max.Val?
      && (exists i :: 0 <= i < |samples| && a <= i < b && samples[i] == e.min)
      && (exists i :: 0 <= i < |samples| && a <= i < b && samples[i] == e.max)
      && (forall i :: 0 <= i < |samples| && a <= i < b && samples[i].Val? ==> e.min.r <= samples[i].r <= e.max.r)
  }

  lemma WithinIsExtent(samples: seq<Num>, a: nat, b: nat)
    ensures IsExtentWithin(samples, a, b, ExtentWithin(samples, a, b))
  {
    var lo, hi := Smaller(a, |samples|), Smaller(b, |samples|);
    if lo < hi {
      ExtentIsExact(samples, lo, hi);
    }
  }

  lemma ColumnIsExtent(samples: seq<Num>, a: nat, b: nat, c: nat, columns: nat)
    requires a <= b && c < columns
    ensures IsExtentWithin(samples, a + (b - a) * c / columns, a + (b - a) * (c + 1) / columns,
                           ExtentWithin(samples, ColumnStart(a, b, c, columns), ColumnStart(a, b, c + 1, columns)))
  {
    WithinIsExtent(samples, ColumnStart(a, b, c, columns), ColumnStart(a, b, c + 1, columns));
    hide IsExtentWithin, ExtentWithin;
  }

  function Width(l: nat): (w: nat)
    ensures w > 0
  {
    if l == 0 then 1 else Width(l - 1) * BRANCH
  }

  lemma {:induction false} StartIs(i: nat, l: nat)
    ensures Start(i, l) == i * Width(l)
    decreases l
  {
    if l > 0 {
      StartIs(i * BRANCH, l - 1);
      var w := Width(l - 1);
      assert (i * BRANCH) * w == i * (w * BRANCH) by {
        assert i * (w * BRANCH) == (i * w) * BRANCH;
      }
    }
  }

  /** The node at `i / span` begins at `i`, and the next one after `span`. */
  lemma Begins(i: nat, level: nat, span: nat)
    requires span == Width(level + 1) && i % span == 0
    ensures Start(i / span, level + 1) == i && Start(i / span + 1, level + 1) == i + span
  {
    var k := i / span;
    Exact(i, span);
    OneMore(k, span);
    StartIs(k, level + 1);
    StartIs(k + 1, level + 1);
  }

  lemma NodeAt(levels: seq<seq<MinMax>>, samples: seq<Num>, level: nat, k: nat, i: nat, span: nat)
    requires IsPyramid(levels, samples) && level < |levels| && k < |levels[level]|
    requires Start(k, level + 1) == i && Start(k + 1, level + 1) == i + span && i + span <= |samples|
    ensures levels[level][k] == Extent(samples, i, i + span)
  {
    StackedBelow(levels, samples, level + 1, |levels|);
    NodeCovers(levels, samples, level + 1, k);
  }

  lemma FullBlock(levels: seq<seq<MinMax>>, samples: seq<Num>, i: nat)
    requires IsPyramid(levels, samples) && i + BRANCH <= |samples|
    ensures levels != [] && i / BRANCH < |levels[0]|
  {
    StackedBelow(levels, samples, 1, |levels|);
  }

  lemma Exact(i: nat, span: nat)
    requires span > 0 && i % span == 0
    ensures (i / span) * span == i
  {
  }

  lemma OneMore(k: nat, span: nat)
    ensures (k + 1) * span == k * span + span
  {
  }

  /** The first sample of column `c`. */
  function ColumnStart(a: nat, b: nat, c: nat, columns: nat): nat
    requires a <= b && columns > 0
  {
    a + Share(b - a, c, columns)
  }

  function Share(length: nat, c: nat, columns: nat): nat
    requires columns > 0
  {
    length * c / columns
  }

  lemma ShareGrows(length: nat, c: nat, columns: nat)
    requires columns > 0
    ensures Share(length, c, columns) <= Share(length, c + 1, columns)
  {
    var x, y := length * c, length * (c + 1);
    assert y == x + length;
    Quotients(x, y, columns);
  }

  lemma Quotients(x: nat, y: nat, d: nat)
    requires d > 0 && x <= y
    ensures x / d <= y / d
  {
    assert (x / d) * d <= x && y < (y / d) * d + d;
    OneMore(y / d, d);
    Cancel(x / d, y / d + 1, d);
  }

  lemma Cancel(a: nat, b: nat, d: nat)
    requires d > 0 && a * d < b * d
    ensures a < b
  {
    if b <= a {
      Larger(b, a, d);
    }
  }

  lemma WholeShare(length: nat, columns: nat)
    requires columns > 0
    ensures Share(length, 0, columns) == 0 && Share(length, columns, columns) == length
  {
    assert length * 0 == 0;
    assert length * columns == columns * length;
    Divided(length, columns);
  }

  lemma Divided(q: nat, d: nat)
    requires d > 0
    ensures (d * q) / d == q
  {
    var x := d * q;
    assert x == (x / d) * d + x % d && x == q * d;
    OneMore(q, d);
    OneMore(x / d, d);
    Cancel(x / d, q + 1, d);
    Cancel(q, x / d + 1, d);
  }

  /** The first `c` columns together. */
  function MergedColumns(samples: seq<Num>, a: nat, b: nat, c: nat, columns: nat): MinMax
    requires a <= b && columns > 0
  {
    if c == 0 then EMPTY
    else Merge(MergedColumns(samples, a, b, c - 1, columns),
               ExtentWithin(samples, ColumnStart(a, b, c - 1, columns), ColumnStart(a, b, c, columns)))
  }

  lemma {:induction false} ColumnsAddUp(samples: seq<Num>, a: nat, b: nat, c: nat, columns: nat)
    requires a <= b && columns > 0
    ensures MergedColumns(samples, a, b, c, columns) == ExtentWithin(samples, a, ColumnStart(a, b, c, columns))
  {
    if c == 0 {
      WholeShare(b - a, columns);
    } else {
      ColumnsAddUp(samples, a, b, c - 1, columns);
      ShareGrows(b - a, c - 1, columns);
      WithinConcat(samples, a, ColumnStart(a, b, c - 1, columns), ColumnStart(a, b, c, columns));
    }
  }

  lemma WithinConcat(samples: seq<Num>, a: nat, b: nat, c: nat)
    requires a <= b <= c
    ensures ExtentWithin(samples, a, c) == Merge(ExtentWithin(samples, a, b), ExtentWithin(samples, b, c))
  {
    var x, y, z := Smaller(a, |samples|), Smaller(b, |samples|), Smaller(c, |samples|);
    ExtentConcat(samples, x, y, z);
    assert Leaves(samples)[x..x] == [] && Leaves(samples)[y..y] == [];
  }

  /** The columns split the range: together they are its extent. */
  lemma ColumnsCoverRange(samples: seq<Num>, a: nat, b: nat, columns: nat)
    requires a <= b && columns > 0
    ensures MergedColumns(samples, a, b, columns, columns) == ExtentWithin(samples, a, b)
  {
    ColumnsAddUp(samples, a, b, columns, columns);
    WholeShare(b - a, columns);
  }

  /** Only the top level may have a single node. */
  ghost predicate Tall(levels: seq<seq<MinMax>>) {
    && (forall j :: 0 <= j < |levels| - 1 ==> |levels[j]| > 1)
    && (forall j :: 0 <= j < |levels| - 1 ==> levels[j + 1] == Parents(levels[j]))
    && (levels != [] ==> |levels[|levels| - 1]| == 1)
  }

  lemma BottomLevel(levels: seq<seq<MinMax>>, was: seq<Num>, samples: seq<Num>)
    requires IsPyramid(levels, was) && levels != [] && was <= samples
    ensures var from := |was| / BRANCH;
            && from <= |levels[0]| <= BlockCount(|samples|)
            && levels[0][..from] == Parents(Leaves(samples))[..from]
  {
    StackedBelow(levels, was, 1, |levels|);
    assert Leaves(was)[..|was|] == Leaves(samples)[..|was|];
    ParentsOfGrown(Leaves(was), Leaves(samples), |was|);
    FewerParents(|was|, |samples|);
  }

  /** All levels but the top have more than one node, each over the one below. */
  lemma {:induction false} OnlyTopIsSmall(levels: seq<seq<MinMax>>, samples: seq<Num>, l: nat)
    requires l <= |levels| && Stacked(levels, samples, l)
    ensures forall j :: 0 <= j < l - 1 ==> |levels[j]| > 1
    ensures forall j :: 0 <= j < l - 1 ==> levels[j + 1] == Parents(levels[j])
  {
    if l > 0 {
      OnlyTopIsSmall(levels, samples, l - 1);
    }
  }
}
