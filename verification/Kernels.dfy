/** What the arithmetic nodes compute, sample by sample. */
module Kernels {
  import opened Prelude
  import opened GraphModel
  import opened Storage
  import opened Evaluator
  import Al = Align

  // ----- One sample -----

  /** Sample `i` of the input at a port; a number is the same at every sample. */
  function SampleAt(inputs: seq<Value>, port: nat, i: nat): Num {
    if port >= |inputs| then Gap
    else
      match inputs[port]
      case ScalarValue(s) => s
      case SignalValue(s) => if i < |s.v| then s.v[i] else Gap
  }

  predicate IsBinary(k: NodeKind) {
    k.Add? || k.Subtract? || k.Multiply? || k.Divide?
  }

  /** The second input fits the first: a number where one is allowed, or a
      signal with the same times and as many values. */
  predicate SecondFits(k: NodeKind, a: Signal, inputs: seq<Value>) {
    |inputs| > 1
    && match inputs[1]
       case ScalarValue(_) => k.Multiply? || k.Divide?
       case SignalValue(b) =>
         k.Align? || ((a.timeline == b.timeline || a.t == b.t) && |a.t| == |b.t| && |a.v| == |b.v|)
  }

  /** The limits that a filter uses are numbers, and in order. */
  predicate LimitsFit(f: FilterSpec) {
    && f.threshold.Val?
    && (f.filter.Between? || f.filter.OutsideRange? ==> f.upper.Val? && f.threshold.r <= f.upper.r)
  }

  /** Which inputs a kernel takes, and what it refuses the others with. */
  lemma KernelAccepts(k: NodeKind, inputs: seq<Value>, arith: Arithmetic)
    ensures EvaluateKernel(k, inputs, arith).Ok? <==>
              && |inputs| > 0 && inputs[0].SignalValue?
              && (IsBinary(k) || k.Align? ==> SecondFits(k, inputs[0].signal, inputs))
              && (k.Filter? ==> LimitsFit(k.spec))
              && (IsBinary(k) || k.Align? || k.ScaleOffset? || k.Convert? || k.Filter?)
    ensures EvaluateKernel(k, inputs, arith).Err? ==>
              EvaluateKernel(k, inputs, arith).error ==
              if k.Filter? && !LimitsFit(k.spec) then BadFilter
              else if IsBinary(k) && |inputs| > 1 && inputs[0].SignalValue? && inputs[1].SignalValue? then
                var a, b := inputs[0].signal, inputs[1].signal;
                if a.timeline != b.timeline && a.t != b.t then TimelineMismatch else DifferentLengths
              else NumericInputRequired
  {
  }

  /** Every kernel but alignment keeps the times of its first input and
      computes each sample from those of its inputs. */
  lemma KernelIsPointwise(k: NodeKind, inputs: seq<Value>, arith: Arithmetic, i: nat)
    requires EvaluateKernel(k, inputs, arith).Ok? && !k.Align? && i < |inputs[0].signal.v|
    ensures var out := EvaluateKernel(k, inputs, arith).value.0;
            && out.SignalValue? && |out.signal.v| == |inputs[0].signal.v|
            && out.signal.t == inputs[0].signal.t && out.signal.timeline == inputs[0].signal.timeline
            && var x, y, r := SampleAt(inputs, 0, i), SampleAt(inputs, 1, i), out.signal.v[i];
               && (k.Add? ==> r == arith.add(x, y)) && (k.Subtract? ==> r == arith.subtract(x, y))
               && (k.Multiply? ==> r == arith.multiply(x, y)) && (k.Divide? ==> r == arith.divide(x, y))
               && (k.ScaleOffset? ==> r == arith.scale(x, k.multiplier, k.offset))
               && (k.Convert? ==> r == arith.convert(k.conversion, x))
               && (k.Filter? ==> r == x || r == Gap)
  {
    KernelAccepts(k, inputs, arith);
  }

  /** Which samples a filter keeps: by where they lie, below the lower limit, at
      it or above. All others become gaps. */
  lemma FilterKeeps(f: FilterSpec, inputs: seq<Value>, arith: Arithmetic, i: nat)
    requires EvaluateKernel(Filter(f), inputs, arith).Ok? && i < |inputs[0].signal.v|
    ensures f.threshold.Val?
    ensures var x, out := inputs[0].signal.v[i], EvaluateKernel(Filter(f), inputs, arith).value.0;
            && out.SignalValue? && i < |out.signal.v|
            && var kept := out.signal.v[i].Val?;
               && (kept ==> out.signal.v[i] == x)
               && (x.Val? && x.r < f.threshold.r ==>
                     (kept <==> f.filter.NotEqual? || f.filter.LessThan? || f.filter.OutsideRange?))
               && (x.Val? && x.r == f.threshold.r ==>
                     (kept <==>
                        || f.filter.Equal? || f.filter.Between?
                        || (f.inclusive && (f.filter.LessThan? || f.filter.GreaterThan?))))
               && (x.Val? && x.r > f.threshold.r ==>
                     (kept <==>
                        || f.filter.NotEqual? || f.filter.GreaterThan?
                        || (f.filter.Between? && f.upper.Val? && x.r <= f.upper.r)
                        || (f.filter.OutsideRange? && f.upper.Val? && x.r > f.upper.r)))
  {
    KernelAccepts(Filter(f), inputs, arith);
  }

  /** Units: kept by a sum of equal units, by scaling and by filters, taken from
      the signal that is aligned or multiplied by a number, given by a conversion
      and otherwise dropped. Only a sum of different units is reported. */
  lemma KernelUnits(k: NodeKind, inputs: seq<Value>, arith: Arithmetic)
    requires EvaluateKernel(k, inputs, arith).Ok?
    ensures var (out, issues), a := EvaluateKernel(k, inputs, arith).value, inputs[0].signal.units;
            && out.SignalValue?
            && (k.Add? || k.Subtract? ==>
                  var b := inputs[1].signal.units;
                  && (out.signal.units == if a == b then a else None)
                  && (issues == if a.Some? && b.Some? && a != b then [UnitsDiffer] else []))
            && (!k.Add? && !k.Subtract? ==> issues == [])
            && (k.Multiply? || k.Divide? ==> out.signal.units == if inputs[1].ScalarValue? then a else None)
            && (k.ScaleOffset? || k.Filter? || k.Align? ==> out.signal.units == a)
            && (k.Convert? ==>
                  out.signal.units == Some(match k.conversion
                                           case RadToDeg => "deg"
                                           case Heading0To360 => "deg"
                                           case HeadingPm180 => "deg"
                                           case DegToRad => "rad"
                                           case MsToKmh => "km/h"
                                           case KmhToMs => "m/s"
                                           case MToFt => "ft"
                                           case FtToM => "m"))
  {
    KernelAccepts(k, inputs, arith);
  }

  /** Alignment keeps the times of its second input, at each of which it gives
      what a linear scan of the first input gives. */
  lemma AlignmentIsPointwise(inputs: seq<Value>, mode: AlignMode, arith: Arithmetic, i: nat)
    requires EvaluateKernel(NodeKind.Align(mode), inputs, arith).Ok? && i < |inputs[1].signal.t|
    requires |inputs[0].signal.t| == |inputs[0].signal.v| && SortedTimes(inputs[0].signal.t)
    ensures var out, a, b := EvaluateKernel(NodeKind.Align(mode), inputs, arith).value.0, inputs[0].signal,
              inputs[1].signal;
            && out.SignalValue? && out.signal.t == b.t && out.signal.timeline == b.timeline && |out.signal.v| == |b.t|
            && out.signal.v[i] == Al.AlignedAt(a.t, a.v, b.t[i], mode, arith.mix)
  {
    var a := inputs[0].signal;
    assert a.t[..|a.t|] == a.t && a.v[..|a.v|] == a.v;
    Al.FastIsAligned(a.t, a.v, inputs[1].signal.t, mode, arith.mix);
  }

  // ----- Filters -----

  /** Filters that ask for the opposite of each other. */
  predicate Opposite(f: FilterSpec, g: FilterSpec) {
    && g.threshold == f.threshold && g.upper == f.upper
    && match f.filter
       case Equal => g.filter.NotEqual?
       case LessThan => g.filter.GreaterThan? && g.inclusive == !f.inclusive
       case Between => g.filter.OutsideRange?
       case _ => false
  }

  /** Opposite filters split the samples between them: every sample with a value
      is kept by one and becomes a gap in the other. */
  lemma FiltersSplit(f: FilterSpec, g: FilterSpec, inputs: seq<Value>, arith: Arithmetic, i: nat)
    requires EvaluateKernel(Filter(f), inputs, arith).Ok? && EvaluateKernel(Filter(g), inputs, arith).Ok?
    requires Opposite(f, g) && i < |inputs[0].signal.v| && inputs[0].signal.v[i].Val?
    ensures var a, b := EvaluateKernel(Filter(f), inputs, arith).value.0.signal,
              EvaluateKernel(Filter(g), inputs, arith).value.0.signal;
            i < |a.v| && i < |b.v| && (a.v[i].Val? <==> b.v[i].Gap?)
  {
    FilterKeeps(f, inputs, arith, i);
    FilterKeeps(g, inputs, arith, i);
    KernelAccepts(Filter(f), inputs, arith);
    KernelAccepts(Filter(g), inputs, arith);
  }
}
