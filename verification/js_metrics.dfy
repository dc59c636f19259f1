/** The reference metrics reducer `computeMetrics` of main.js: a sorted
    private copy, the mean, four nearest-rank percentiles and the throughput
    over the duration field of the page. */
module JsMetrics {
  import opened Wrappers
  import opened Order

  /** The record `computeMetrics` returns. */
  datatype Metrics = Metrics(
    count: nat,
    avg: real,
    p50: real,
    p90: real,
    p95: real,
    p99: real,
    throughput: real)

  /** `Number(durationEl.value) || 1`: a non-numeric field (`None`, which
      `Number` turns into NaN) and a zero both become 1. */
  function EffectiveDuration(field: Option<real>): (d: real)
    ensures d != 0.0
    ensures field.Some? && field.value != 0.0 ==> d == field.value
    ensures field.None? || field.value == 0.0 ==> d == 1.0
  {
    if field.Some? && field.value != 0.0 then field.value else 1.0
  }

  /** `computeMetrics(latArr)`: `null` for an empty series, otherwise the
      record computed from a sorted copy; the input is a value and is never
      changed. */
  function ComputeMetrics(latencies: seq<real>, durationField: Option<real>): (m: Option<Metrics>)
    ensures m.None? <==> |latencies| == 0
    ensures m.Some? ==> m.value.count == |latencies|
    ensures m.Some? ==> m.value.avg == Sum(latencies) / |latencies| as real
    ensures m.Some? ==> m.value.throughput == |latencies| as real / EffectiveDuration(durationField)
    ensures m.Some? ==>
      MinOf(latencies) <= m.value.p50 <= m.value.p90 <= m.value.p95 <= m.value.p99 <= MaxOf(latencies)
    ensures m.Some? ==>
      m.value.p50 in latencies && m.value.p90 in latencies &&
      m.value.p95 in latencies && m.value.p99 in latencies
  {
    if |latencies| == 0 then None
    else
      var arr := SortAsc(latencies);
      var sum := Sum(arr);
      var n := |arr| as real;
      var avg := sum / n;
      SumPermutation(arr, latencies);
      PercentileMonotone(arr, 0.5, 0.9);
      PercentileMonotone(arr, 0.9, 0.95);
      PercentileMonotone(arr, 0.95, 0.99);
      SortedEnds(latencies);
      assert arr[0] <= Percentile(arr, 0.5) && Percentile(arr, 0.99) <= arr[|arr| - 1];
      assert forall q :: 0.0 <= q <= 1.0 ==> Percentile(arr, q) in multiset(latencies);
      var throughput := n / EffectiveDuration(durationField);
      Some(Metrics(|arr|, avg,
                   Percentile(arr, 0.5), Percentile(arr, 0.9),
                   Percentile(arr, 0.95), Percentile(arr, 0.99),
                   throughput))
  }

  /** Each reported percentile is the order statistic of rank
      `floor((count-1)*q)` of the input series. */
  lemma PercentilesAreOrderStatistics(latencies: seq<real>, durationField: Option<real>)
    requires |latencies| > 0
    ensures var m := ComputeMetrics(latencies, durationField).value;
      && CountBelow(latencies, m.p50) <= PercentileIndex(|latencies|, 0.5) < CountAtMost(latencies, m.p50)
      && CountBelow(latencies, m.p90) <= PercentileIndex(|latencies|, 0.9) < CountAtMost(latencies, m.p90)
      && CountBelow(latencies, m.p95) <= PercentileIndex(|latencies|, 0.95) < CountAtMost(latencies, m.p95)
      && CountBelow(latencies, m.p99) <= PercentileIndex(|latencies|, 0.99) < CountAtMost(latencies, m.p99)
  {
    PercentileIsOrderStatistic(latencies, 0.5);
    PercentileIsOrderStatistic(latencies, 0.9);
    PercentileIsOrderStatistic(latencies, 0.95);
    PercentileIsOrderStatistic(latencies, 0.99);
  }

  lemma FiveSampleSum(s: seq<real>)
    requires |s| == 5 && s[0] == 10.0 && s[1] == 20.0 && s[2] == 30.0 && s[3] == 40.0 && s[4] == 50.0
    ensures Sum(s) == 150.0
  {
    assert Sum(s[..1]) == 10.0 by { assert s[..1][..0] == []; assert s[..1][0] == 10.0; }
    assert Sum(s[..2]) == 30.0 by { assert s[..2][..1] == s[..1]; }
    assert Sum(s[..3]) == 60.0 by { assert s[..3][..2] == s[..2]; }
    assert Sum(s[..4]) == 100.0 by { assert s[..4][..3] == s[..3]; }
  }

  lemma FiveSampleSorted(s: seq<real>)
    requires |s| == 5 && s[0] == 10.0 && s[1] == 20.0 && s[2] == 30.0 && s[3] == 40.0 && s[4] == 50.0
    ensures SortAsc(s) == s
  {
    assert Sorted(s);
    SortAscOfSorted(s);
  }

  lemma FiveSampleRanks()
    ensures PercentileIndex(5, 0.5) == 2 && PercentileIndex(5, 0.9) == 3
    ensures PercentileIndex(5, 0.95) == 3 && PercentileIndex(5, 0.99) == 3
  {
  }

  /** The worked example of five evenly spaced latencies: ranks 2, 3, 3, 3. */
  lemma FiveSampleExample(s: seq<real>)
    requires |s| == 5 && s[0] == 10.0 && s[1] == 20.0 && s[2] == 30.0 && s[3] == 40.0 && s[4] == 50.0
    ensures ComputeMetrics(s, Some(5.0)) == Some(Metrics(5, 30.0, 30.0, 40.0, 40.0, 40.0, 1.0))
  {
    FiveSampleSum(s);
    FiveSampleSorted(s);
    FiveSampleRanks();
    ThroughputOverFiveSeconds(s);
    var m := ComputeMetrics(s, Some(5.0)).value;
    assert m.avg == 30.0 by {
      assert |s| as real == 5.0;
      assert Sum(s) / 5.0 == 30.0;
    }
    assert m.p50 == 30.0 && m.p90 == 40.0 && m.p95 == 40.0 && m.p99 == 40.0;
  }

  /** Over five seconds the throughput is a fifth of the count: a hundred
      samples give twenty per second. */
  lemma ThroughputOverFiveSeconds(latencies: seq<real>)
    requires |latencies| > 0
    ensures ComputeMetrics(latencies, Some(5.0)).value.throughput * 5.0 == |latencies| as real
    ensures |latencies| == 100 ==> ComputeMetrics(latencies, Some(5.0)).value.throughput == 20.0
  {
  }

  /** A duration field that is zero or not a number divides by one: the
      throughput equals the count. */
  lemma ThroughputWithoutDuration(latencies: seq<real>, durationField: Option<real>)
    requires |latencies| > 0
    requires durationField.None? || durationField.value == 0.0
    ensures ComputeMetrics(latencies, durationField).value.throughput == |latencies| as real
  {
  }
}
