/** How the two backends of the page relate: the C metrics agree with the
    in-page reducer on the mean and on both shared percentiles, but report
    the sample count where the page reports samples per second; and the two
    generators round the per-tick load differently. */
module Backends {
  import opened Wrappers
  import opened Order
  import JsGenerator
  import JsMetrics
  import Simulator

  /** On the same non-empty series the C reducer stores the page's mean,
      median and 95th percentile, and in its fourth slot the page's count. */
  lemma MetricsAgree(data: seq<real>, durationField: Option<real>)
    requires |data| > 0
    ensures var c := Simulator.CMetricsValues(data);
      var j := JsMetrics.ComputeMetrics(data, durationField).value;
      && c[0] == j.avg && c[1] == j.p50 && c[2] == j.p95
      && c[3] == j.count as real
  {
    assert Simulator.QsortCmpd(data) == SortAsc(data);
  }

  /** A quotient `t = n / d` multiplied back by `d` is `n`, and it equals
      `n` itself only when `n` is zero or `d` is one. */
  lemma QuotientScaledBack(t: real, n: real, d: real)
    requires d != 0.0 && t == n / d
    ensures t * d == n
    ensures n > 0.0 ==> (n == t <==> d == 1.0)
  {
    assert t * d == n;
    if n == t && n > 0.0 {
      assert n * (d - 1.0) == 0.0;
    }
  }

  /** The C slot named throughput holds the count, which is the page's
      throughput `m.throughput` multiplied by the effective duration (so
      the page's figure is the C figure divided by that duration); the
      two agree exactly when that duration is one second. */
  lemma ThroughputIsCount(data: seq<real>, durationField: Option<real>, m: JsMetrics.Metrics)
    requires JsMetrics.ComputeMetrics(data, durationField) == Some(m)
    ensures m.throughput == Simulator.CMetricsValues(data)[3] / JsMetrics.EffectiveDuration(durationField)
    ensures Simulator.CMetricsValues(data)[3] == m.throughput <==> JsMetrics.EffectiveDuration(durationField) == 1.0
  {
    var n := |data| as real;
    var d := JsMetrics.EffectiveDuration(durationField);
    var c := Simulator.CMetricsValues(data)[3];
    assert m.throughput == n / d;
    assert c == n;
    QuotientScaledBack(m.throughput, n, d);
  }

  /** For a non-negative load both roundings agree. */
  lemma RoundingAgreesOnNonNegative(x: real)
    requires x >= 0.0
    ensures Simulator.CRound(x) == JsGenerator.JsRound(x)
  {
  }

  /** On a negative half they differ: `Math.round(-2.5)` is -2, C `round(-2.5)` is -3. */
  lemma RoundingDiffersOnNegativeHalf()
    ensures JsGenerator.JsRound(-2.5) == -2
    ensures Simulator.CRound(-2.5) == -3
  {
  }

  /** From a load of one half upwards both generators emit the same number
      of samples per tick; below it, negative loads included, the page emits
      none and C emits one. */
  lemma PerTickCounts(p: JsGenerator.LoadParams)
    ensures p.clients * p.rps >= 0.5 ==>
      Simulator.CPerSecond(p.clients * p.rps) == JsGenerator.PerSecond(p)
    ensures p.clients * p.rps < 0.5 ==>
      JsGenerator.PerSecond(p) == 0 && Simulator.CPerSecond(p.clients * p.rps) == 1
  {
    var load := p.clients * p.rps;
    if load >= 0.0 {
      RoundingAgreesOnNonNegative(load);
    }
    if load < 0.5 {
      assert JsGenerator.JsRound(load) < 1;
      assert Simulator.CRound(load) < 1;
    }
  }

  /** The page defaults (1 client at 0.1 requests per second for 5 seconds)
      give an empty series in the page but five samples in C. */
  lemma DefaultsDiffer()
    ensures JsGenerator.SeriesLength(JsGenerator.LoadParams(1.0, 0.1, 5.0, 50.0, 10.0, 0.0)) == 0
    ensures Min(Max(0, 5) * Simulator.CPerSecond((1 as real) * 0.1), 1000) == 5
  {
  }
}
