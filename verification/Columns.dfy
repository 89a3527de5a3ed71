/** Decimation: the least and greatest value of every pixel column. */
module Columns {
  import opened Prelude
  import opened Pyramid
  import opened Trace
  import opened TraceSearch

  // ----- Columns of pixels -----

  function Truncated(r: real): int {
    if r >= 0.0 then r.Floor else -((-r).Floor)
  }

  /** How many columns `x` lies right of `x0`, as a fraction. */
  function Offset(x: real, x0: real, x1: real, width: nat): real
    requires x0 < x1
  {
    ((x - x0) / (x1 - x0)) * (width as real)
  }

  function ColumnOf(x: real, x0: real, x1: real, width: nat): (c: nat)
    requires x0 < x1 && width > 0
    ensures c < width
  {
    var c := Truncated(Offset(x, x0, x1, width));
    if c < 0 then 0 else if c < width then c else width - 1
  }

  lemma QuotientGrows(a: real, b: real, d: real)
    requires a <= b && d > 0.0
    ensures a / d <= b / d
  {
  }

  lemma ProductGrows(a: real, b: real, w: real)
    requires a <= b && w >= 0.0
    ensures a * w <= b * w
  {
  }

  lemma ColumnsGrow(x: real, y: real, x0: real, x1: real, width: nat)
    requires x <= y && x0 < x1 && width > 0
    ensures ColumnOf(x, x0, x1, width) <= ColumnOf(y, x0, x1, width)
  {
    QuotientGrows(x - x0, y - x0, x1 - x0);
    ProductGrows((x - x0) / (x1 - x0), (y - x0) / (x1 - x0), width as real);
    TruncatedGrows(Offset(x, x0, x1, width), Offset(y, x0, x1, width));
  }

  lemma TruncatedGrows(a: real, b: real)
    requires a <= b
    ensures Truncated(a) <= Truncated(b)
  {
  }

  /** Clamping to the view does not move a point to another column. */
  lemma ClampedColumn(x: real, x0: real, x1: real, width: nat)
    requires x0 < x1 && width > 0
    ensures x < x0 ==> ColumnOf(x, x0, x1, width) == ColumnOf(x0, x0, x1, width)
    ensures x > x1 ==> ColumnOf(x, x0, x1, width) == ColumnOf(x1, x0, x1, width)
  {
    assert Offset(x0, x0, x1, width) == 0.0;
    assert Offset(x1, x0, x1, width) == width as real by {
      assert (x1 - x0) / (x1 - x0) == 1.0;
    }
    if x < x0 {
      ColumnsGrow(x, x0, x0, x1, width);
    } else if x > x1 {
      ColumnsGrow(x1, x, x0, x1, width);
    }
  }

  /** Where column `c` begins. */
  function Edge(x0: real, x1: real, width: nat, c: real): real
    requires width > 0
  {
    x0 + (x1 - x0) / (width as real) * c
  }

  lemma ProductsCompare(a: real, b: real, d: real)
    requires d > 0.0
    ensures a <= b <==> a * d <= b * d
  {
    if a <= b {
      ProductGrows(a, b, d);
    } else {
      assert (a - b) * d > 0.0;
    }
  }

  lemma EdgeByOffset(x: real, x0: real, x1: real, width: nat, c: real)
    requires x0 < x1 && width > 0
    ensures Edge(x0, x1, width, c) <= x <==> c <= Offset(x, x0, x1, width)
  {
    var w, span := width as real, x1 - x0;
    var u, q := span / w, (x - x0) / span;
    assert u > 0.0 && w * u == span && q * span == x - x0;
    ProductsCompare(c, q * w, u);
    assert (q * w) * u == q * (w * u);
    assert u * c == c * u;
  }

  /** The columns are half-open slices of equal width, the first and the last one
      taking in what lies outside. */
  lemma ColumnIsInterval(x: real, x0: real, x1: real, width: nat, c: nat)
    requires x0 < x1 && c < width
    ensures ColumnOf(x, x0, x1, width) == c <==>
            && (c == 0 || Edge(x0, x1, width, c as real) <= x)
            && (c == width - 1 || x < Edge(x0, x1, width, c as real + 1.0))
  {
    EdgeByOffset(x, x0, x1, width, c as real);
    EdgeByOffset(x, x0, x1, width, c as real + 1.0);
    ColumnByOffset(Offset(x, x0, x1, width), c, width);
    hide Edge, Offset, Truncated;
  }

  lemma ColumnByOffset(o: real, c: nat, width: nat)
    requires c < width
    ensures var k := Truncated(o);
            (if k < 0 then 0 else if k < width then k else width - 1) == c <==>
              (c == 0 || c as real <= o) && (c == width - 1 || o < c as real + 1.0)
  {
  }

  // ----- What the columns of a trace must show -----

  /** The view onto a trace, and the column that a time falls into. */
  datatype View = View(x0: real, x1: real, width: nat, col: real -> nat)

  /** All that is needed of the columns, however they are rounded: they do not
      decrease, and times outside the view fall into the columns of its ends. */
  ghost predicate ValidView(v: View) {
    && v.x0 < v.x1 && v.width > 0
    && (forall x :: v.col(x) < v.width)
    && (forall x, y :: x <= y ==> v.col(x) <= v.col(y))
    && (forall x :: x < v.x0 ==> v.col(x) == v.col(v.x0))
    && (forall x :: x > v.x1 ==> v.col(x) == v.col(v.x1))
  }

  function ViewOf(x0: real, x1: real, width: nat): View
    requires x0 < x1 && width > 0
  {
    View(x0, x1, width, (x: real) => ColumnOf(x, x0, x1, width))
  }

  lemma ViewIsValid(x0: real, x1: real, width: nat)
    requires x0 < x1 && width > 0
    ensures ValidView(ViewOf(x0, x1, width))
  {
    var v := ViewOf(x0, x1, width);
    forall x, y | x <= y
      ensures v.col(x) <= v.col(y)
    {
      ColumnsGrow(x, y, x0, x1, width);
    }
    forall x
      ensures x < v.x0 ==> v.col(x) == v.col(v.x0)
      ensures x > v.x1 ==> v.col(x) == v.col(v.x1)
    {
      ClampedColumn(x, x0, x1, width);
    }
  }

  function Column(xy: seq<Num>, v: View, i: nat): nat
    requires Interleaved(xy) && i < Count(xy)
  {
    v.col(XAt(xy, i))
  }

  /** Spans of the columns, both ends `Gap` for an empty one. */
  datatype Spans = Spans(mins: seq<Num>, maxs: seq<Num>)

  ghost predicate Sized(s: Spans, width: nat) {
    |s.mins| == |s.maxs| == width && forall c :: 0 <= c < width ==> (s.mins[c].Val? <==> s.maxs[c].Val?)
  }

  ghost predicate Ordered(s: Spans, width: nat) {
    Sized(s, width) && forall c :: 0 <= c < width && s.mins[c].Val? ==> s.mins[c].r <= s.maxs[c].r
  }

  ghost predicate Shows(s: Spans, c: nat, y: real)
    requires c < |s.mins| && c < |s.maxs|
  {
    s.mins[c].Val? && s.maxs[c].Val? && s.mins[c].r <= y <= s.maxs[c].r
  }

  /** Sample `i` is not hidden. */
  ghost predicate Shown(xy: seq<Num>, v: View, s: Spans, i: nat)
    requires Interleaved(xy) && ValidView(v) && Sized(s, v.width) && i < Count(xy)
  {
    YAt(xy, i).Val? ==> Shows(s, Column(xy, v, i), YAt(xy, i).r)
  }

  /** The value comes from a sample at most `slack` columns away. */
  ghost predicate Sampled(xy: seq<Num>, v: View, c: nat, y: Num, slack: nat)
    requires Interleaved(xy) && ValidView(v)
  {
    y.Val? ==>
      exists i ::
        0 <= i < Count(xy) && YAt(xy, i) == y && c <= Column(xy, v, i) + slack && Column(xy, v, i) <= c + slack
  }

  ghost predicate NoneInvented(xy: seq<Num>, v: View, s: Spans, slack: nat)
    requires Interleaved(xy) && ValidView(v) && Sized(s, v.width)
  {
    forall c :: 0 <= c < v.width ==> Sampled(xy, v, c, s.mins[c], slack) && Sampled(xy, v, c, s.maxs[c], slack)
  }

  /** Every bound of a column is the value of one of the samples from `a` up to
      `b` that fall into this very column. */
  ghost predicate OwnSamples(xy: seq<Num>, v: View, s: Spans, a: nat, b: nat)
    requires Interleaved(xy) && ValidView(v) && Sized(s, v.width) && b <= Count(xy)
  {
    forall c :: 0 <= c < v.width ==> FromOwn(xy, v, c, s.mins[c], a, b) && FromOwn(xy, v, c, s.maxs[c], a, b)
  }

  ghost predicate FromOwn(xy: seq<Num>, v: View, c: nat, y: Num, a: nat, b: nat)
    requires Interleaved(xy) && ValidView(v) && b <= Count(xy)
  {
    y.Val? ==> exists i :: a <= i < b && YAt(xy, i) == y && Column(xy, v, i) == c
  }

  /** Each column is the extent of its own samples from `a` up to `b`: its
      bounds are among them, and none lies outside. */
  ghost predicate ExactColumns(xy: seq<Num>, v: View, s: Spans, a: nat, b: nat)
    requires Interleaved(xy) && ValidView(v) && Sized(s, v.width) && b <= Count(xy)
  {
    OwnSamples(xy, v, s, a, b) && forall i :: a <= i < b ==> Shown(xy, v, s, i)
  }

  ghost predicate Empty(s: Spans) {
    (forall c :: 0 <= c < |s.mins| ==> s.mins[c].Gap?) && forall c :: 0 <= c < |s.maxs| ==> s.maxs[c].Gap?
  }

  ghost predicate Wider(s: Spans, t: Spans) {
    && |s.mins| == |s.maxs| == |t.mins| == |t.maxs|
    && forall c, y :: 0 <= c < |s.mins| && Shows(s, c, y) ==> Shows(t, c, y)
  }

  lemma StaysShown(xy: seq<Num>, v: View, s: Spans, t: Spans, i: nat)
    requires Interleaved(xy) && ValidView(v) && Sized(s, v.width) && Sized(t, v.width) && i < Count(xy)
    requires Wider(s, t) && Shown(xy, v, s, i)
    ensures Shown(xy, v, t, i)
  {
  }

  lemma StayShown(xy: seq<Num>, v: View, s: Spans, t: Spans, a: nat, b: nat)
    requires Interleaved(xy) && ValidView(v) && Sized(s, v.width) && Sized(t, v.width) && b <= Count(xy)
    requires Wider(s, t) && forall i :: a <= i < b ==> Shown(xy, v, s, i)
    ensures forall i :: a <= i < b ==> Shown(xy, v, t, i)
  {
    forall i | a <= i < b
      ensures Shown(xy, v, t, i)
    {
      StaysShown(xy, v, s, t, i);
    }
  }

  lemma OneMoreSample(xy: seq<Num>, v: View, s: Spans, t: Spans, a: nat, i: nat)
    requires Interleaved(xy) && ValidView(v) && Sized(s, v.width) && Sized(t, v.width) && a <= i < Count(xy)
    requires OwnSamples(xy, v, s, a, i)
    requires forall c :: 0 <= c < v.width ==>
               var own := YAt(xy, i).Val? && c == Column(xy, v, i);
               && t.mins[c] in {s.mins[c], if own then YAt(xy, i) else s.mins[c]}
               && t.maxs[c] in {s.maxs[c], if own then YAt(xy, i) else s.maxs[c]}
    ensures OwnSamples(xy, v, t, a, i + 1)
  {
    forall c | 0 <= c < v.width
      ensures FromOwn(xy, v, c, t.mins[c], a, i + 1) && FromOwn(xy, v, c, t.maxs[c], a, i + 1)
    {
      assert FromOwn(xy, v, c, s.mins[c], a, i) && FromOwn(xy, v, c, s.maxs[c], a, i);
    }
  }

  // ----- Filling the columns -----

  /** Columns in the making. */
  class Canvas {
    const mins: array<Num>
    const maxs: array<Num>

    constructor (width: nat)
      ensures fresh(mins) && fresh(maxs) && mins != maxs
      ensures Valid(width) && forall c :: 0 <= c < width ==> mins[c] == Gap && maxs[c] == Gap
    {
      mins := new Num[width](_ => Gap);
      maxs := new Num[width](_ => Gap);
    }

    ghost function Now(): Spans
      reads mins, maxs
    {
      Spans(mins[..], maxs[..])
    }

    ghost predicate Valid(width: nat)
      reads mins, maxs
    {
      mins != maxs && mins.Length == maxs.Length == width && Ordered(Now(), width)
    }

    /** Widens a column to take in the values from `lo` to `hi`. */
    method Widen(col: nat, lo: Num, hi: Num, ghost width: nat)
      requires Valid(width) && col < width && lo.Val? && hi.Val? && lo.r <= hi.r
      modifies mins, maxs
      ensures Valid(width) && Wider(old(Now()), Now())
      ensures Shows(Now(), col, lo.r) && Shows(Now(), col, hi.r)
      ensures forall c :: 0 <= c < width ==>
                && Now().mins[c] in {old(Now()).mins[c], if c == col then lo else old(Now()).mins[c]}
                && Now().maxs[c] in {old(Now()).maxs[c], if c == col then hi else old(Now()).maxs[c]}
    {
      if mins[col].Gap? || lo.r < mins[col].r {
        mins[col] := lo;
      }
      if maxs[col].Gap? || hi.r > maxs[col].r {
        maxs[col] := hi;
      }
    }

    /** Takes in sample `i`. */
    method TakeSample(t: TraceCache, v: View, i: nat, ghost a: nat, ghost slack: nat)
      requires Interleaved(t.xy) && ValidView(v) && Valid(v.width) && a <= i < Count(t.xy)
      requires NoneInvented(t.xy, v, Now(), slack)
      modifies mins, maxs
      ensures Valid(v.width) && Wider(old(Now()), Now()) && NoneInvented(t.xy, v, Now(), slack)
      ensures Shown(t.xy, v, Now(), i)
      ensures OwnSamples(t.xy, v, old(Now()), a, i) ==> OwnSamples(t.xy, v, Now(), a, i + 1)
    {
      ghost var before := Now();
      var y := YAt(t.xy, i);
      if y.Val? {
        var c := Column(t.xy, v, i);
        Widen(c, y, y, v.width);
        assert Sampled(t.xy, v, c, y, slack);
      }
      if OwnSamples(t.xy, v, before, a, i) {
        OneMoreSample(t.xy, v, before, Now(), a, i);
      }
    }

    /** Takes in the samples from `a` up to `b` one by one. */
    method Sweep(t: TraceCache, v: View, a: nat, b: nat, ghost slack: nat)
      requires Interleaved(t.xy) && ValidView(v) && Valid(v.width) && b <= Count(t.xy)
      requires NoneInvented(t.xy, v, Now(), slack)
      modifies mins, maxs
      ensures Valid(v.width) && Wider(old(Now()), Now()) && NoneInvented(t.xy, v, Now(), slack)
      ensures forall i :: a <= i < b ==> Shown(t.xy, v, Now(), i)
      ensures Empty(old(Now())) ==> ExactColumns(t.xy, v, Now(), a, b)
    {
      var i := a;
      while i < b
        invariant a <= i && (i <= b || i == a)
        invariant Valid(v.width) && Wider(old(Now()), Now()) && NoneInvented(t.xy, v, Now(), slack)
        invariant forall k :: a <= k < i && k < b ==> Shown(t.xy, v, Now(), k)
        invariant Empty(old(Now())) ==> OwnSamples(t.xy, v, Now(), a, Smaller(i, b))
      {
        ghost var before := Now();
        TakeSample(t, v, i, a, slack);
        StayShown(t.xy, v, before, Now(), a, i);
        i := i + 1;
      }
    }

    /** Takes in one node of the lowest level, sample by sample if it reaches
        over more than two columns. */
    method TakeNode(t: TraceCache, v: View, a: nat, b: nat, k: nat)
      requires Drawable(t) && SortedX(t.xy) && ValidView(v) && Valid(v.width)
      requires InView(t.xy, v.x0, v.x1, a, b) && k * BRANCH < Count(t.xy)
      requires NoneInvented(t.xy, v, Now(), 1)
      modifies mins, maxs
      ensures Valid(v.width) && Wider(old(Now()), Now()) && NoneInvented(t.xy, v, Now(), 1)
      ensures forall i :: a <= i < b && k * BRANCH <= i < k * BRANCH + BRANCH ==> Shown(t.xy, v, Now(), i)
    {
      hide NoneInvented, OwnSamples;
      ghost var ys := Ys(t.xy);
      YsAreSamples(t.xy);
      L0Node(t.pyramid.levels, ys, k);
      var node := t.pyramid.levels[0][k];
      if !HasValue(node) {
        return;
      }
      var first := k * BRANCH;
      var last := Smaller(first + BRANCH, Count(t.xy)) - 1;
      var left, right := XAt(t.xy, first), XAt(t.xy, last);
      if right < v.x0 || left > v.x1 {
        return;
      }
      var cl := v.col(if left > v.x0 then left else v.x0);
      var cr := v.col(if right < v.x1 then right else v.x1);
      if cr > cl + 1 {
        Sweep(t, v, if first > a then first else a, if last + 1 < b then last + 1 else b, 1);
        return;
      }
      ColumnsOfNode(t.xy, v, first, last, cl, cr);
      SpreadNode(t.xy, v, first, last, node, cl, cr);
    }

    method SpreadNode(ghost xy: seq<Num>, v: View, ghost first: nat, ghost last: nat, node: MinMax, cl: nat, cr: nat)
      requires Interleaved(xy) && ValidView(v) && Valid(v.width) && NoneInvented(xy, v, Now(), 1)
      requires first <= last < Count(xy) && IsExtent(Ys(xy), first, last + 1, node) && HasValue(node)
      requires cl <= cr <= cl + 1 && cr < v.width
      requires forall i :: first <= i <= last ==> cl <= Column(xy, v, i) <= cr
      modifies mins, maxs
      ensures Valid(v.width) && Wider(old(Now()), Now()) && NoneInvented(xy, v, Now(), 1)
      ensures forall i :: first <= i <= last ==> Shown(xy, v, Now(), i)
    {
      NodeIsSampled(xy, v, first, last, node, cl, cr);
      Spread(xy, v, node, cl, cr);
      NodeShows(xy, v, Now(), first, last, node, cl, cr);
    }

    /** Widens the columns from `cl` to `cr` by a node. */
    method Spread(ghost xy: seq<Num>, v: View, node: MinMax, cl: nat, cr: nat)
      requires Interleaved(xy) && ValidView(v) && Valid(v.width) && NoneInvented(xy, v, Now(), 1)
      requires cl <= cr < v.width && node.min.Val? && node.max.Val? && node.min.r <= node.max.r
      requires forall c: nat :: cl <= c <= cr ==> Sampled(xy, v, c, node.min, 1) && Sampled(xy, v, c, node.max, 1)
      modifies mins, maxs
      ensures Valid(v.width) && Wider(old(Now()), Now()) && NoneInvented(xy, v, Now(), 1)
      ensures forall c: nat :: cl <= c <= cr ==> Shows(Now(), c, node.min.r) && Shows(Now(), c, node.max.r)
    {
      for col := cl to cr + 1
        invariant Valid(v.width) && Wider(old(Now()), Now()) && NoneInvented(xy, v, Now(), 1)
        invariant forall c: nat :: cl <= c < col ==> Shows(Now(), c, node.min.r) && Shows(Now(), c, node.max.r)
      {
        Widen(col, node.min, node.max, v.width);
      }
    }

    /** Takes in the nodes that overlap the samples from `a` up to `b`. */
    method TakeNodes(t: TraceCache, v: View, a: nat, b: nat)
      requires Drawable(t) && SortedX(t.xy) && ValidView(v) && Valid(v.width)
      requires InView(t.xy, v.x0, v.x1, a, b) && NoneInvented(t.xy, v, Now(), 1)
      modifies mins, maxs
      ensures Valid(v.width) && NoneInvented(t.xy, v, Now(), 1)
      ensures forall i :: a <= i < b ==> Shown(t.xy, v, Now(), i)
    {
      if a == b {
        return;
      }
      var k: nat := a / BRANCH;
      while k <= (b - 1) / BRANCH
        invariant Valid(v.width) && NoneInvented(t.xy, v, Now(), 1)
        invariant forall i :: a <= i < b && i < k * BRANCH ==> Shown(t.xy, v, Now(), i)
      {
        ghost var before := Now();
        TakeNode(t, v, a, b, k);
        forall i | a <= i < b && i < k * BRANCH
          ensures Shown(t.xy, v, Now(), i)
        {
          StaysShown(t.xy, v, before, Now(), i);
        }
        k := k + 1;
      }
    }

    /** Interpolates the empty columns of runs no longer than `maxRun`. */
    method BridgeEmpty(width: nat, maxRun: nat)
      requires Valid(width)
      modifies mins, maxs
      ensures mins.Length == maxs.Length == width && Now() == Bridged(old(Now()), maxRun)
    {
      ghost var s := Now();
      var left: Option<nat> := None;
      var right: nat := 0;
      while right < width
        invariant mins.Length == maxs.Length == width == |s.mins|
        invariant right <= width && Halfway(s, Now(), left, right, maxRun)
      {
        if mins[right].Val? && maxs[right].Val? {
          CloseRun(s, left, right, maxRun);
          left := Some(right);
        }
        right := right + 1;
      }
      RunOpen(s, left, maxRun);
      assert mins[..] == Bridged(s, maxRun).mins && maxs[..] == Bridged(s, maxRun).maxs;
    }

    /** Fills the run between two columns with values if it is short enough. */
    method CloseRun(ghost s: Spans, left: Option<nat>, right: nat, maxRun: nat)
      requires mins != maxs && mins.Length == maxs.Length == |s.mins| && right < |s.mins|
      requires Halfway(s, Now(), left, right, maxRun) && s.mins[right].Val?
      modifies mins, maxs
      ensures Halfway(s, Now(), Some(right), right + 1, maxRun)
    {
      RunEnds(s, left, right, maxRun);
      assert mins[right] == Now().mins[right] && maxs[right] == Now().maxs[right];
      if left.Some? && right > left.value + 1 && right - left.value - 1 <= maxRun {
        BridgedValue(s, left.value, maxRun);
        assert mins[left.value] == Now().mins[left.value] && maxs[left.value] == Now().maxs[left.value];
        FillRun(s, left.value, right, maxRun);
      }
    }

    method FillRun(ghost s: Spans, left: nat, right: nat, ghost maxRun: nat)
      requires mins != maxs && mins.Length == maxs.Length == |s.mins| == |s.maxs| && left < right < |s.mins|
      requires Sized(s, |s.mins|) && s.mins[left].Val? && s.mins[right].Val? && right - left - 1 <= maxRun
      requires forall c :: left < c < right ==> s.mins[c].Gap?
      requires forall c :: left < c < right ==>
                 LastValued(s.mins, c) == Some(left) && FirstValued(s.mins, c) == Some(right)
      requires mins[left] == s.mins[left] && maxs[left] == s.maxs[left]
      requires mins[right] == s.mins[right] && maxs[right] == s.maxs[right]
      modifies mins, maxs
      ensures forall c :: left < c < right ==> (mins[c], maxs[c]) == BridgedAt(s, c, maxRun)
      ensures forall c :: 0 <= c <= left || right <= c < mins.Length ==>
                mins[c] == old(mins[c]) && maxs[c] == old(maxs[c])
    {
      for c := left + 1 to right
        invariant forall k :: left < k < c ==> (mins[k], maxs[k]) == BridgedAt(s, k, maxRun)
        invariant forall k :: 0 <= k <= left || c <= k < mins.Length ==>
                    mins[k] == old(mins[k]) && maxs[k] == old(maxs[k])
      {
        var t := (c - left) as real / (right - left) as real;
        var lo := Lerp(mins[left].r, mins[right].r, t);
        var hi := Lerp(maxs[left].r, maxs[right].r, t);
        mins[c] := Val(if lo <= hi then lo else hi);
        maxs[c] := Val(if lo >= hi then lo else hi);
      }
    }

    /** Interpolates short runs, then stretches columns to meet the next one. */
    method Bridge(width: nat, maxRun: nat)
      requires Valid(width)
      modifies mins, maxs
      ensures mins.Length == maxs.Length == width && Now() == Stretched(Bridged(old(Now()), maxRun))
    {
      BridgeEmpty(width, maxRun);
      StretchAll();
    }

    method StretchAll()
      requires mins != maxs && mins.Length == maxs.Length
      modifies mins, maxs
      ensures Now() == Stretched(old(Now()))
    {
      ghost var s := Now();
      var c: nat := 0;
      while c + 1 < mins.Length
        invariant c < mins.Length || c == 0
        invariant forall k :: 0 <= k < c ==> (mins[k], maxs[k]) == StretchedAt(s, k)
        invariant forall k :: c <= k < mins.Length ==> mins[k] == s.mins[k] && maxs[k] == s.maxs[k]
      {
        if mins[c].Val? && mins[c + 1].Val? && maxs[c].Val? && maxs[c + 1].Val? {
          if maxs[c].r < mins[c + 1].r {
            maxs[c] := mins[c + 1];
          } else if maxs[c + 1].r < mins[c].r {
            mins[c] := maxs[c + 1];
          }
        }
        c := c + 1;
      }
      assert mins[..] == Stretched(s).mins && maxs[..] == Stretched(s).maxs;
    }
  }

  // ----- Nodes and columns -----

  /** The columns of the samples of a node lie between those of its ends. */
  lemma ColumnsOfNode(xy: seq<Num>, v: View, first: nat, last: nat, cl: nat, cr: nat)
    requires Interleaved(xy) && SortedX(xy) && ValidView(v) && first <= last < Count(xy)
    requires var left, right := XAt(xy, first), XAt(xy, last);
             && right >= v.x0 && left <= v.x1
             && cl == v.col(if left > v.x0 then left else v.x0)
             && cr == v.col(if right < v.x1 then right else v.x1)
    ensures cl <= cr
    ensures forall i :: first <= i <= last ==> cl <= Column(xy, v, i) <= cr
  {
    assert cl == v.col(XAt(xy, first)) && cr == v.col(XAt(xy, last));
    assert forall i :: first <= i <= last ==> XAt(xy, first) <= XAt(xy, i) <= XAt(xy, last);
  }

  lemma NodeIsSampled(xy: seq<Num>, v: View, first: nat, last: nat, node: MinMax, cl: nat, cr: nat)
    requires Interleaved(xy) && ValidView(v) && first <= last < Count(xy)
    requires IsExtent(Ys(xy), first, last + 1, node) && HasValue(node) && cl <= cr <= cl + 1
    requires forall i :: first <= i <= last ==> cl <= Column(xy, v, i) <= cr
    ensures node.min.Val? && node.max.Val? && node.min.r <= node.max.r
    ensures forall c: nat :: cl <= c <= cr ==> Sampled(xy, v, c, node.min, 1) && Sampled(xy, v, c, node.max, 1)
  {
  }

  lemma NodeShows(xy: seq<Num>, v: View, s: Spans, first: nat, last: nat, node: MinMax, cl: nat, cr: nat)
    requires Interleaved(xy) && ValidView(v) && Sized(s, v.width) && first <= last < Count(xy) && cl <= cr < v.width
    requires IsExtent(Ys(xy), first, last + 1, node) && HasValue(node)
    requires forall i :: first <= i <= last ==> cl <= Column(xy, v, i) <= cr
    requires node.min.Val? && node.max.Val?
    requires forall c: nat :: cl <= c <= cr ==> Shows(s, c, node.min.r) && Shows(s, c, node.max.r)
    ensures forall i :: first <= i <= last ==> Shown(xy, v, s, i)
  {
    forall i | first <= i <= last
      ensures Shown(xy, v, s, i)
    {
      if YAt(xy, i).Val? {
        var c := Column(xy, v, i);
        assert Ys(xy)[i] == YAt(xy, i);
        assert Shows(s, c, node.min.r) && Shows(s, c, node.max.r);
      }
    }
  }

  // ----- Bridging -----

  function Lerp(a: real, b: real, t: real): real {
    a * (1.0 - t) + b * t
  }

  /** Column `c` once short runs of empty columns are interpolated between the
      nearest columns with values. */
  function BridgedAt(s: Spans, c: nat, maxRun: nat): (Num, Num)
    requires |s.mins| == |s.maxs| && c < |s.mins|
  {
    var l, r := LastValued(s.mins, c), FirstValued(s.mins, c);
    if s.mins[c].Val? || l.None? || r.None? || r.value - l.value - 1 > maxRun then (s.mins[c], s.maxs[c])
    else if s.maxs[l.value].Gap? || s.maxs[r.value].Gap? then (s.mins[c], s.maxs[c])
    else
      var t := (c - l.value) as real / (r.value - l.value) as real;
      var lo := Lerp(s.mins[l.value].r, s.mins[r.value].r, t);
      var hi := Lerp(s.maxs[l.value].r, s.maxs[r.value].r, t);
      (Val(if lo <= hi then lo else hi), Val(if lo >= hi then lo else hi))
  }

  function Bridged(s: Spans, maxRun: nat): (r: Spans)
    requires |s.mins| == |s.maxs|
    ensures |r.mins| == |r.maxs| == |s.mins|
  {
    Spans(seq(|s.mins|, c requires 0 <= c < |s.mins| => BridgedAt(s, c, maxRun).0),
          seq(|s.mins|, c requires 0 <= c < |s.mins| => BridgedAt(s, c, maxRun).1))
  }

  function StretchedAt(s: Spans, c: nat): (Num, Num)
    requires |s.mins| == |s.maxs| && c < |s.mins|
  {
    if c + 1 == |s.mins| || s.mins[c].Gap? || s.mins[c + 1].Gap? || s.maxs[c].Gap? || s.maxs[c + 1].Gap?
    then (s.mins[c], s.maxs[c])
    else if s.maxs[c].r < s.mins[c + 1].r then (s.mins[c], s.mins[c + 1])
    else if s.maxs[c + 1].r < s.mins[c].r then (s.maxs[c + 1], s.maxs[c])
    else (s.mins[c], s.maxs[c])
  }

  function Stretched(s: Spans): (r: Spans)
    requires |s.mins| == |s.maxs|
    ensures |r.mins| == |r.maxs| == |s.mins|
  {
    Spans(seq(|s.mins|, c requires 0 <= c < |s.mins| => StretchedAt(s, c).0),
          seq(|s.mins|, c requires 0 <= c < |s.mins| => StretchedAt(s, c).1))
  }

  /** The columns up to the last one with a value, `left`, are bridged. */
  ghost predicate Halfway(s: Spans, now: Spans, left: Option<nat>, right: nat, maxRun: nat) {
    var done := if left.Some? then left.value + 1 else 0;
    && |now.mins| == |now.maxs| == |s.mins| == |s.maxs| && done <= right <= |s.mins|
    && Sized(s, |s.mins|)
    && (left.Some? ==> s.mins[left.value].Val?)
    && (forall k :: done <= k < right ==> s.mins[k].Gap?)
    && (forall k :: 0 <= k < done ==> (now.mins[k], now.maxs[k]) == BridgedAt(s, k, maxRun))
    && (forall k :: done <= k < |s.mins| ==> (now.mins[k], now.maxs[k]) == (s.mins[k], s.maxs[k]))
  }

  /** The nearest columns with values around those between `left` and `right`. */
  lemma RunEnds(s: Spans, left: Option<nat>, right: nat, maxRun: nat)
    requires Sized(s, |s.mins|) && right < |s.mins| && s.mins[right].Val?
    requires left.Some? ==> left.value < right && s.mins[left.value].Val?
    requires forall k :: (if left.Some? then left.value + 1 else 0) <= k < right ==> s.mins[k].Gap?
    ensures forall c :: (if left.Some? then left.value + 1 else 0) <= c < right ==>
              LastValued(s.mins, c) == left && FirstValued(s.mins, c) == Some(right)
    ensures BridgedAt(s, right, maxRun) == (s.mins[right], s.maxs[right])
  {
    forall c | (if left.Some? then left.value + 1 else 0) <= c < right
      ensures LastValued(s.mins, c) == left && FirstValued(s.mins, c) == Some(right)
    {
      OneLast(s.mins, c, left);
      OneFirst(s.mins, c, Some(right));
    }
  }

  lemma BridgedValue(s: Spans, c: nat, maxRun: nat)
    requires |s.mins| == |s.maxs| && c < |s.mins| && s.mins[c].Val?
    ensures BridgedAt(s, c, maxRun) == (s.mins[c], s.maxs[c])
  {
  }

  lemma RunOpen(s: Spans, left: Option<nat>, maxRun: nat)
    requires Sized(s, |s.mins|) && (left.Some? ==> left.value < |s.mins|)
    requires forall k :: (if left.Some? then left.value + 1 else 0) <= k < |s.mins| ==> s.mins[k].Gap?
    ensures forall c :: (if left.Some? then left.value + 1 else 0) <= c < |s.mins| ==>
              BridgedAt(s, c, maxRun) == (s.mins[c], s.maxs[c])
  {
    forall c | (if left.Some? then left.value + 1 else 0) <= c < |s.mins|
      ensures FirstValued(s.mins, c) == None
    {
      OneFirst(s.mins, c, None);
    }
  }

  /** Columns are filled exactly when they lie in a run of at most `maxRun`
      empty columns between two with values. */
  lemma FilledExactly(s: Spans, c: nat, maxRun: nat)
    requires Sized(s, |s.mins|) && c < |s.mins|
    ensures BridgedAt(s, c, maxRun).0.Val? <==> BridgedAt(s, c, maxRun).1.Val?
    ensures BridgedAt(s, c, maxRun).0.Val? <==>
              || s.mins[c].Val?
              || exists l: nat, r: nat :: l < c < r < |s.mins| && s.mins[l].Val? && s.mins[r].Val?
                   && r - l - 1 <= maxRun
  {
    var l, r := LastValued(s.mins, c), FirstValued(s.mins, c);
    if s.mins[c].Gap? && BridgedAt(s, c, maxRun).0.Val? {
      assert l.value < c < r.value && r.value - l.value - 1 <= maxRun;
    }
  }

  lemma LerpBetween(a: real, b: real, t: real)
    requires 0.0 <= t <= 1.0
    ensures (if a <= b then a else b) <= Lerp(a, b, t) <= (if a <= b then b else a)
  {
    assert Lerp(a, b, t) == a + (b - a) * t;
    if a <= b {
      ProductGrows(0.0, t, b - a);
      ProductGrows(t, 1.0, b - a);
    } else {
      ProductGrows(0.0, t, a - b);
      ProductGrows(t, 1.0, a - b);
      assert (b - a) * t == -((a - b) * t);
    }
  }

  /** The value at `c` lies on the line from `a` at `l` to `b` at `r`. */
  ghost predicate OnLine(y: real, a: real, b: real, l: nat, r: nat, c: nat) {
    l < c < r && y * (r - l) as real == a * (r - c) as real + b * (c - l) as real
  }

  lemma LerpOnLine(a: real, b: real, l: nat, r: nat, c: nat)
    requires l < c < r
    ensures OnLine(Lerp(a, b, (c - l) as real / (r - l) as real), a, b, l, r, c)
  {
    var n := (r - l) as real;
    var t := (c - l) as real / n;
    assert t * n == (c - l) as real;
    assert (1.0 - t) * n == (r - c) as real;
    assert (a * (1.0 - t)) * n == a * ((1.0 - t) * n) && (b * t) * n == b * (t * n);
  }

  lemma LerpKeepsOrder(a: real, b: real, c: real, d: real, t: real)
    requires a <= c && b <= d && 0.0 <= t <= 1.0
    ensures Lerp(a, b, t) <= Lerp(c, d, t)
  {
    NonNegative(c - a, 1.0 - t);
    NonNegative(d - b, t);
    assert Lerp(c, d, t) - Lerp(a, b, t) == (c - a) * (1.0 - t) + (d - b) * t;
  }

  lemma NonNegative(a: real, b: real)
    requires a >= 0.0 && b >= 0.0
    ensures a * b >= 0.0
  {
  }

  /** A column that was empty is filled on the lines between the columns on
      either side of its run, and so within their values. */
  lemma FilledWithin(s: Spans, c: nat, maxRun: nat)
    requires Ordered(s, |s.mins|) && c < |s.mins| && s.mins[c].Gap? && BridgedAt(s, c, maxRun).0.Val?
    ensures LastValued(s.mins, c).Some? && FirstValued(s.mins, c).Some?
    ensures var l, r := LastValued(s.mins, c).value, FirstValued(s.mins, c).value;
            var (lo, hi) := BridgedAt(s, c, maxRun);
            && hi.Val? && lo.r <= hi.r
            && (s.mins[l].r <= lo.r || s.mins[r].r <= lo.r)
            && (hi.r <= s.maxs[l].r || hi.r <= s.maxs[r].r)
            && OnLine(lo.r, s.mins[l].r, s.mins[r].r, l, r, c)
            && OnLine(hi.r, s.maxs[l].r, s.maxs[r].r, l, r, c)
  {
    var l, r := LastValued(s.mins, c).value, FirstValued(s.mins, c).value;
    var t := (c - l) as real / (r - l) as real;
    QuotientGrows((c - l) as real, (r - l) as real, (r - l) as real);
    assert 0.0 <= t <= 1.0;
    LerpBetween(s.mins[l].r, s.mins[r].r, t);
    LerpBetween(s.maxs[l].r, s.maxs[r].r, t);
    LerpOnLine(s.mins[l].r, s.mins[r].r, l, r, c);
    LerpOnLine(s.maxs[l].r, s.maxs[r].r, l, r, c);
    LerpKeepsOrder(s.mins[l].r, s.mins[r].r, s.maxs[l].r, s.maxs[r].r, t);
  }

  /** Column `c` reaches out to the next one just so far that they touch. */
  ghost predicate MeetsNext(b: Spans, r: Spans, c: nat)
    requires |b.mins| == |b.maxs| == |r.mins| == |r.maxs| && c < |b.mins|
  {
    if c + 1 < |b.mins| && b.mins[c].Val? && b.maxs[c].Val? && b.mins[c + 1].Val? && b.maxs[c + 1].Val? then
      && r.mins[c] == Val(Lesser(b.mins[c].r, b.maxs[c + 1].r))
      && r.maxs[c] == Val(Greater(b.maxs[c].r, b.mins[c + 1].r))
    else r.mins[c] == b.mins[c] && r.maxs[c] == b.maxs[c]
  }

  function Lesser(a: real, b: real): real {
    if a <= b then a else b
  }

  function Greater(a: real, b: real): real {
    if a >= b then a else b
  }

  /** Bridging only widens columns, and no more than needed for neighbours with
      values to touch. */
  lemma BridgingTouches(s: Spans, maxRun: nat)
    requires Ordered(s, |s.mins|)
    ensures var r := Stretched(Bridged(s, maxRun));
            && Ordered(r, |s.mins|) && Wider(s, r)
            && (forall c :: 0 <= c < |s.mins| ==> (r.mins[c].Val? <==> Bridged(s, maxRun).mins[c].Val?))
            && (forall c :: 0 <= c < |s.mins| - 1 && r.mins[c].Val? && r.mins[c + 1].Val? ==>
                 r.mins[c].r <= r.maxs[c + 1].r && r.mins[c + 1].r <= r.maxs[c].r)
            && (forall c :: 0 <= c < |s.mins| ==> MeetsNext(Bridged(s, maxRun), r, c))
  {
    var b := Bridged(s, maxRun);
    forall c | 0 <= c < |s.mins|
      ensures b.mins[c].Val? <==> b.maxs[c].Val?
      ensures b.mins[c].Val? ==> b.mins[c].r <= b.maxs[c].r
      ensures s.mins[c].Val? ==> (b.mins[c], b.maxs[c]) == (s.mins[c], s.maxs[c])
    {
      FilledExactly(s, c, maxRun);
      if s.mins[c].Gap? && b.mins[c].Val? {
        FilledWithin(s, c, maxRun);
      }
    }
    StretchingTouches(b);
  }

  lemma StretchingTouches(b: Spans)
    requires Ordered(b, |b.mins|)
    ensures var r := Stretched(b);
            && Ordered(r, |b.mins|) && Wider(b, r)
            && (forall c :: 0 <= c < |b.mins| ==> (r.mins[c].Val? <==> b.mins[c].Val?))
            && (forall c :: 0 <= c < |b.mins| - 1 && r.mins[c].Val? && r.mins[c + 1].Val? ==>
                 r.mins[c].r <= r.maxs[c + 1].r && r.mins[c + 1].r <= r.maxs[c].r)
            && (forall c :: 0 <= c < |b.mins| ==> MeetsNext(b, r, c))
  {
    var r := Stretched(b);
    forall c | 0 <= c < |b.mins|
      ensures MeetsNext(b, r, c)
    {
      assert (r.mins[c], r.maxs[c]) == StretchedAt(b, c);
    }
    MeetingTouches(b, r);
  }

  lemma MeetingTouches(b: Spans, r: Spans)
    requires Ordered(b, |b.mins|) && |b.mins| == |b.maxs| == |r.mins| == |r.maxs|
    requires forall c :: 0 <= c < |b.mins| ==> MeetsNext(b, r, c)
    ensures Ordered(r, |b.mins|) && Wider(b, r)
    ensures forall c :: 0 <= c < |b.mins| ==> (r.mins[c].Val? <==> b.mins[c].Val?)
    ensures forall c :: 0 <= c < |b.mins| - 1 && r.mins[c].Val? && r.mins[c + 1].Val? ==>
              r.mins[c].r <= r.maxs[c + 1].r && r.mins[c + 1].r <= r.maxs[c].r
  {
    forall c | 0 <= c < |b.mins|
      ensures r.mins[c].Val? <==> b.mins[c].Val?
      ensures r.maxs[c].Val? <==> b.maxs[c].Val?
      ensures b.mins[c].Val? ==> r.mins[c].r <= b.mins[c].r <= b.maxs[c].r <= r.maxs[c].r
    {
      assert MeetsNext(b, r, c);
    }
    forall c | 0 <= c < |b.mins| - 1 && r.mins[c].Val? && r.mins[c + 1].Val?
      ensures r.mins[c].r <= r.maxs[c + 1].r && r.mins[c + 1].r <= r.maxs[c].r
    {
      assert MeetsNext(b, r, c) && MeetsNext(b, r, c + 1);
    }
  }

  // ----- The whole -----

  /** What the columns of a view must be, `raw` being those before bridging. */
  ghost predicate RightColumns(xy: seq<Num>, v: View, raw: Spans, maxRun: nat, out: Spans)
    requires Interleaved(xy)
  {
    && ValidView(v) && Ordered(raw, v.width) && Ordered(out, v.width)
    && out == Stretched(Bridged(raw, maxRun))
    && NoneInvented(xy, v, raw, 1)
    && (forall i :: 0 <= i < Count(xy) && v.x0 <= XAt(xy, i) <= v.x1 ==> Shown(xy, v, out, i))
  }

  lemma BridgedIsRight(xy: seq<Num>, v: View, raw: Spans, maxRun: nat, a: nat, b: nat)
    requires Interleaved(xy) && ValidView(v) && Ordered(raw, v.width) && NoneInvented(xy, v, raw, 1)
    requires InView(xy, v.x0, v.x1, a, b) && forall i :: a <= i < b ==> Shown(xy, v, raw, i)
    ensures RightColumns(xy, v, raw, maxRun, Stretched(Bridged(raw, maxRun)))
  {
    BridgingTouches(raw, maxRun);
    var out := Stretched(Bridged(raw, maxRun));
    forall i | 0 <= i < Count(xy) && v.x0 <= XAt(xy, i) <= v.x1
      ensures Shown(xy, v, out, i)
    {
      assert a <= i < b;
      StaysShown(xy, v, raw, out, i);
    }
  }

  /** The columns of a view: every sample in view with a value lies within the
      span of its own column. Where samples are taken one by one, each column is
      before bridging the extent of its own samples. */
  method MinmaxColumns(t: TraceCache, v: View, maxRun: nat)
    returns (out: seq<Num>, ghost raw: Spans, ghost spans: Spans, ghost seen: (nat, nat))
    requires Drawable(t) && SortedX(t.xy)
    requires v.width > 0 && v.x0 < v.x1 ==> ValidView(v)
    ensures v.width == 0 || v.x1 <= v.x0 ==> out == []
    ensures v.width > 0 && v.x0 < v.x1 ==>
              && RightColumns(t.xy, v, raw, maxRun, spans)
              && InView(t.xy, v.x0, v.x1, seen.0, seen.1)
              && (seen.1 - seen.0 < v.width * 64 ==> ExactColumns(t.xy, v, raw, seen.0, seen.1))
              && |out| == 3 * v.width
              && forall c :: 0 <= c < v.width ==>
                   && out[3 * c] == Val(Edge(v.x0, v.x1, v.width, c as real + 0.5))
                   && out[3 * c + 1] == spans.mins[c] && out[3 * c + 2] == spans.maxs[c]
  {
    hide OwnSamples, Bridged, Stretched;
    out, raw, spans, seen := [], Spans([], []), Spans([], []), (0, 0);
    if v.width == 0 || v.x1 <= v.x0 {
      return;
    }
    var a, b := IndexRange(t, v.x0, v.x1);
    seen := (a, b);
    var canvas := new Canvas(v.width);
    if b - a >= v.width * BRANCH {
      canvas.TakeNodes(t, v, a, b);
    } else {
      canvas.Sweep(t, v, a, b, 1);
    }
    raw := canvas.Now();
    canvas.Bridge(v.width, maxRun);
    BridgedIsRight(t.xy, v, raw, maxRun, a, b);
    spans := canvas.Now();
    out := Triples(canvas.mins, canvas.maxs, v);
  }

  /** Centre, least and greatest value of every column. */
  method Triples(mins: array<Num>, maxs: array<Num>, v: View) returns (out: seq<Num>)
    requires mins.Length == maxs.Length == v.width && v.width > 0
    ensures |out| == 3 * v.width
    ensures forall c :: 0 <= c < v.width ==>
              && out[3 * c] == Val(Edge(v.x0, v.x1, v.width, c as real + 0.5))
              && out[3 * c + 1] == mins[c] && out[3 * c + 2] == maxs[c]
  {
    out := [];
    var span := (v.x1 - v.x0) / (v.width as real);
    for c := 0 to v.width
      invariant |out| == 3 * c
      invariant forall k :: 0 <= k < c ==>
                  && out[3 * k] == Val(Edge(v.x0, v.x1, v.width, k as real + 0.5))
                  && out[3 * k + 1] == mins[k] && out[3 * k + 2] == maxs[k]
    {
      out := out + [Val(v.x0 + span * (c as real + 0.5)), mins[c], maxs[c]];
    }
  }
}
