/** The data reduction inside `drawLatencyChart` of main.js: systematic
    stride sampling down to roughly a thousand points, and the minimum and
    maximum of the sampled points that scale the vertical axis. */
module JsRender {
  import opened Wrappers
  import opened Order

  /** Roughly how many points the chart plots. */
  const TargetPoints: nat := 1000

  /** `Math.max(1, Math.floor(n / 1000))`. */
  function Stride(n: nat): (step: nat)
    ensures step >= 1
    ensures n >= TargetPoints ==> step * TargetPoints <= n < (step + 1) * TargetPoints
    ensures n < 2 * TargetPoints ==> step == 1
  {
    Max(1, n / TargetPoints)
  }

  /** `r` is the systematic sample of `s` with stride `step`: the elements at
      indices 0, step, 2*step, ... in order, and no index past the end. */
  ghost predicate StrideSample(s: seq<real>, step: nat, r: seq<real>) {
    && (|s| == 0 ==> |r| == 0)
    && (|s| > 0 ==> (|r| - 1) * step < |s| <= |r| * step)
    && forall k :: 0 <= k < |r| ==> k * step < |s| && r[k] == s[k * step]
  }

  /** `for (let i = 0; i < latArr.length; i += step) sampled.push(latArr[i])`. */
  method Downsample(latencies: seq<real>) returns (sampled: seq<real>)
    ensures StrideSample(latencies, Stride(|latencies|), sampled)
    ensures |latencies| > 0 ==> |sampled| > 0
  {
    var step := Stride(|latencies|);
    sampled := [];
    var i := 0;
    while i < |latencies|
      invariant i == |sampled| * step
      invariant |sampled| > 0 ==> (|sampled| - 1) * step < |latencies|
      invariant forall k :: 0 <= k < |sampled| ==> k * step < |latencies| && sampled[k] == latencies[k * step]
    {
      assert (|sampled| + 1) * step == i + step;
      sampled := sampled + [latencies[i]];
      i := i + step;
    }
  }

  /** The points of the chart and the bounds of its vertical axis. */
  datatype Plot = Plot(points: seq<real>, min: real, max: real)

  /** The reduction `drawLatencyChart` performs before drawing: nothing for an
      empty series, otherwise the sampled points with their own minimum and
      maximum (`Math.min(...sampled)`, `Math.max(...sampled)`). */
  method ChartData(latencies: seq<real>) returns (plot: Option<Plot>)
    ensures plot.None? <==> |latencies| == 0
    ensures plot.Some? ==> StrideSample(latencies, Stride(|latencies|), plot.value.points)
    ensures plot.Some? ==> plot.value.min in plot.value.points && plot.value.max in plot.value.points
    ensures plot.Some? ==> forall k :: 0 <= k < |plot.value.points| ==>
      plot.value.min <= plot.value.points[k] <= plot.value.max
  {
    if |latencies| == 0 {
      return None;
    }
    var sampled := Downsample(latencies);
    plot := Some(Plot(sampled, MinOf(sampled), MaxOf(sampled)));
  }

  /** `(max - min || 1)`: the vertical span, one when all points are equal. */
  function AxisSpan(min: real, max: real): (d: real)
    requires min <= max
    ensures d > 0.0
    ensures min < max ==> d == max - min
  {
    if max - min == 0.0 then 1.0 else max - min
  }

  /** `(v - min) / (max - min || 1)`: the height fraction of a point. */
  function Height(v: real, min: real, max: real): (h: real)
    requires min <= v <= max
    ensures 0.0 <= h <= 1.0
  {
    (v - min) / AxisSpan(min, max)
  }

  /** A series of ten thousand samples is drawn with stride 10 as exactly a
      thousand points. */
  lemma TenThousandSamples(s: seq<real>, r: seq<real>)
    requires |s| == 10000
    requires StrideSample(s, Stride(|s|), r)
    ensures Stride(|s|) == 10 && |r| == 1000
  {
  }

  /** A series shorter than 2000 samples is drawn in full,
      unchanged and in order. */
  lemma ShortSeriesUnchanged(s: seq<real>, r: seq<real>)
    requires |s| < 2 * TargetPoints
    requires StrideSample(s, Stride(|s|), r)
    ensures r == s
  {
    assert |r| == |s|;
    forall k | 0 <= k < |r|
      ensures r[k] == s[k]
    {
      assert k * 1 == k;
    }
  }

  /** However long the series, the chart never receives 2000 points or more. */
  lemma ChartPointsBound(s: seq<real>, r: seq<real>)
    requires StrideSample(s, Stride(|s|), r)
    ensures |r| < 2 * TargetPoints
  {
  }
}
