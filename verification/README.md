# Latency stress-test simulator: a Dafny model

The page simulates a load test. It generates a series of request latencies, then reduces
the series to summary metrics. It draws a downsampled chart of the series and can export
it as CSV. There are two backends:

- an in-page generator and reducer (main.js);
- a native one in C compiled to WebAssembly (simulator.c), plus a C++ anomaly filter
  (analayzer.cpp).

This project models the computational core of both backends and proves its properties:

| module | models |
|---|---|
| `Order` | the ordering and summation shared by both reducers: ascending sort, left-to-right sum, nearest-rank percentile index `floor((n-1)*q)`, minimum and maximum, rank counts |
| `JsGenerator` | `jsRunSimulation`, with `Math.random` replaced by an injected stream of draws |
| `JsMetrics` | `computeMetrics` |
| `JsRender` | the data reduction in `drawLatencyChart`: stride downsampling, and the minimum and maximum that scale the axis |
| `JsExport` | the text built by `exportCSV`, together with a line splitter used to state what a reader of the file sees |
| `Simulator` | the C generator and reducer: `rand01`, `init_seed`, `normal01`, `cmpd`/`qsort`, `run_simulation` and `compute_metrics_from_buffer` |
| `Analyzer` | `detect_anomalies` |
| `Backends` | lemmas relating the two backends |

Modelling choices:

- Doubles are modelled as mathematical reals.
- `unsigned long long` is an integer in `[0, 2^64)`, with wrap-around written out.
- A C pointer is an `Option` of the cells it points to, with `None` standing for the null
  pointer. A C function that writes through a pointer returns the new contents of those
  cells, so that "nothing else changes" can be stated.
- Randomness and the clock are parameters:
  - the page's `Math.random` is a stream `rng: nat -> real`, whose draw `k` is `rng(k)`;
  - `time(NULL)` is an integer `clock`;
  - the Box–Muller formula `sqrt(-2 log u) * cos(2 pi v)` of `normal01` is a function
    parameter `boxMuller`. The uniform draws feeding it are modelled exactly.

Where the description of the program and the code differ, the model follows the code. The
page's generator is described as producing positive latencies, but `if (l < 0) l = 1` lets
an exact 0 through. `JsGenerator.ZeroLatencyPassesClamp` exhibits such a sample, and
`JsGenerator.ClampJs` states the real guarantee, `>= 0`.

## Model

| member | source | states |
|---|---|---|
| `JsGenerator.TotalExpected` | main.js:61 | The buffer capacity is `max(1, floor(clients*rps*duration))`: never below one, never more than one above the load product, and equal to its floor whenever that floor is at least one. |
| `JsGenerator.ZeroBuffer` | main.js:62 | `new Float64Array(n)` has `n` cells, all zero. |
| `JsGenerator.TickCount` | main.js:66 | The number of outer iterations is zero for a non-positive duration, otherwise the least natural number not below it. |
| `JsGenerator.TickTest` | main.js:66 | The test `t < duration` holds exactly for `t` below the tick count. |
| `JsGenerator.JsRound` | main.js:67 | `Math.round` gives the nearest integer, with halves going up. |
| `JsGenerator.Jittered` | main.js:70 | With a draw in [0,1) and a non-negative jitter, the value lies in `[base-jitter, base+jitter]`, strictly below the top when the jitter is positive. |
| `JsGenerator.SpikeTerm` | main.js:72 | With a draw in [0,1) and a non-negative jitter, a spike adds between `2*jitter` and `12*jitter`, strictly below the top when the jitter is positive. |
| `JsGenerator.ClampJs` | main.js:74 | Only negative values are replaced (by 1), so every sample is `>= 0`, and non-negative values pass unchanged. |
| `JsGenerator.JsSample` | main.js:68-75 | One sample is non-negative and consumes two or three draws of the stream. |
| `JsGenerator.JsSampleCases` | main.js:70-74 | The spike is taken exactly when the second draw is below `spikeChance/100`, and exactly then a third draw is consumed. Without a spike the sample is the clamped jitter. With one (draws in [0,1), `jitter >= 0`, `base + jitter >= 0`) it lies in `[base+jitter, base+13*jitter]`. |
| `JsGenerator.Emit` | main.js:66-76 | The reference series: `n` samples, all non-negative, using between `2n` and `3n` draws. |
| `JsGenerator.EmitTick` | main.js:68-76 | One tick writes `min(perSecond, room left)` further samples of the reference series and keeps the draw cursor in step. |
| `JsGenerator.RunTicks` | main.js:66-78 | The tick loop fills exactly `min(ticks*max(0,perSecond), capacity)` cells with the reference series. |
| `JsGenerator.JsRunSimulation` | main.js:59-79 | The result has length `min(ticks*perSecond, totalExpected)`, never more than the buffer. It is the reference series, and every sample is `>= 0`. |
| `JsGenerator.IntegerDurationLength` | main.js:66-68 | For a whole number of seconds `d`, the length is `min(d*perSecond, totalExpected)`. |
| `JsGenerator.DefaultsYieldEmptySeries` | main.js:142-147 | The page defaults (1 client, 0.1 requests per second, 5 s) allocate one cell but emit nothing. |
| `JsGenerator.NoSpikeSamples` | main.js:70-74 | Without spikes, sample `k` is the clamped jitter of draw `2k`, and `n` samples use exactly `2n` draws. |
| `JsGenerator.NoSpikeRange` | main.js:70-74 | Without spikes, and with `0 < jitter <= base`, every sample lies in `[base-jitter, base+jitter)`. |
| `JsGenerator.ZeroLatencyPassesClamp` | main.js:73-74 | Base 10, jitter 10 and a zero draw emit the latency 0, so "positive" does not hold. |
| `Order.SortAsc` | main.js:83 | The sorted copy is ascending, a permutation of the input, and of the same length. |
| `Order.SortedUnique` | main.js:83 | Two ascending permutations of the same data are equal, so any correct sort gives this copy. |
| `Order.SumPermutation` | main.js:84-85 | The sum, and therefore the mean taken over the sorted copy, equals that of the input. |
| `Order.PercentileIndex` | main.js:87 | `floor((n-1)*q)` is a valid index in `[0, n-1]` for `q` in [0,1]. |
| `Order.PercentileIndexMonotone` | main.js:86-88 | A larger fraction never selects an earlier rank. |
| `Order.PercentileMonotone` | main.js:90-93 | Over sorted data, percentiles are ordered like their fractions. |
| `Order.CountPermutation` | main.js:83 | Rank counts (elements below, or at most, a value) do not depend on order. |
| `Order.SortedRank` | main.js:87-88 | The element at position `i` of sorted data is its `i`-th order statistic. |
| `Order.PercentileIsOrderStatistic` | main.js:86-89 | The percentile read from the sorted copy is the order statistic of rank `floor((n-1)*q)` of the input. |
| `Order.MinOf` | main.js:108 | `Math.min` of a non-empty series is one of its elements and bounds all of them from below. |
| `Order.MaxOf` | main.js:107 | `Math.max` of a non-empty series is one of its elements and bounds all of them from above. |
| `Order.SortedEnds` | main.js:83 | The first and last elements of the sorted copy are the input's minimum and maximum. |
| `Order.SumPrefix` | simulator.c:79-80 | The accumulation loop yields the left-to-right sum of the first `count` samples. |
| `JsMetrics.EffectiveDuration` | main.js:94 | A zero or non-numeric duration field becomes 1, and any other value is kept, so the divisor is never 0. |
| `JsMetrics.ComputeMetrics` | main.js:81-96 | `null` exactly for an empty series. Otherwise: `count` is the length, `avg = sum/count`, `throughput = count/duration`, `min <= p50 <= p90 <= p95 <= p99 <= max`, and every percentile is an input element. |
| `JsMetrics.PercentilesAreOrderStatistics` | main.js:86-93 | p50, p90, p95 and p99 are the order statistics of ranks `floor((n-1)*q)`. |
| `JsMetrics.FiveSampleExample` | main.js:81-96 | For [10,20,30,40,50] over 5 s: avg 30, p50 30, p90/p95/p99 40, throughput 1. |
| `JsMetrics.ThroughputOverFiveSeconds` | main.js:94 | Over five seconds the throughput is a fifth of the count (100 samples give 20). |
| `JsMetrics.ThroughputWithoutDuration` | main.js:94 | A zero or missing duration makes the throughput equal the count. |
| `JsRender.Stride` | main.js:103 | The stride is at least 1, equals `floor(n/1000)` from 1000 samples on, and is 1 below 2000. |
| `JsRender.Downsample` | main.js:104-105 | The sampled points are exactly the elements at indices `0, step, 2*step, ...` in order, with none past the end, and there is at least one for a non-empty series. |
| `JsRender.ChartData` | main.js:102-108 | Nothing is drawn for an empty series. Otherwise the points are the stride sample, and min/max are points that bound all the points. |
| `JsRender.AxisSpan` | main.js:115 | The vertical span `max - min`, or 1 when they are equal, is positive. |
| `JsRender.Height` | main.js:115 | The height fraction of every sampled point lies in [0,1]. |
| `JsRender.TenThousandSamples` | main.js:103-105 | 10000 samples are drawn with stride 10 as exactly 1000 points. |
| `JsRender.ShortSeriesUnchanged` | main.js:103-105 | A series shorter than 2000 samples is drawn in full and in order. |
| `JsRender.ChartPointsBound` | main.js:103-105 | The chart never receives 2000 points or more. |
| `JsExport.NatToDecimal` | main.js:130 | The index column is a non-empty string of decimal digits without leading zeros. |
| `JsExport.DecimalRoundTrip` | main.js:130 | Reading the index column back gives the number written. |
| `JsExport.BuildCsv` | main.js:129-130 | The loop builds the header followed by the rows of all samples in order. |
| `JsExport.ExportCsv` | main.js:128-130 | There is no file for an empty series, and otherwise the header plus the rows. |
| `JsExport.RowLinesAt` | main.js:130 | Row `k` holds the 1-based index `k+1`, a comma and the formatted sample `k`. |
| `JsExport.CsvLines` | main.js:129-130 | Split into lines, the file is the header line `index,latency_ms` followed by one row line per sample. |
| `JsExport.CsvLayout` | main.js:129-130 | The file has `count + 1` lines: the header, then line `k+1` as `k+1,fmt(sample k)`. |
| `JsExport.TwoSampleFile` | main.js:129-130 | [1.5, 2.25] gives `index,latency_ms\n1,1.500000\n2,2.250000\n`. |
| `Simulator.Rand01` | simulator.c:15-19 | The value lies in [0,1) and is a whole multiple of 2^-32, and the state advances one generator step. |
| `Simulator.LcgStreamDraws` | simulator.c:15-31 | Every value `rand01` returns from a state on lies in [0,1), the range of `Math.random`. A C sample reads its draws from this stream: the normal arguments are draws 0 and 1, and the spike test is draw 2. |
| `Simulator.InitSeed` | simulator.c:21-24 | The seed is never zero, and unless the clock reads 0xdeadbeef it is the clock XOR 0xdeadbeef. |
| `Simulator.FallbackSeedExactly` | simulator.c:21-24 | The seed is 123456789 exactly when the clock reads 0xdeadbeef or `123456789 ^ 0xdeadbeef`. |
| `Simulator.XorInvolutive` | simulator.c:22 | XOR with the mask undoes itself, so distinct clock words give distinct mixed values before the zero fallback. The fallback itself makes two clock words share a seed (`Simulator.FallbackSeedExactly`). |
| `Simulator.NormalDraws` | simulator.c:26-29 | `u` is the first draw raised to at least 1e-12 (below 1), `v` the second draw, and two steps are consumed. |
| `Simulator.Normal01` | simulator.c:26-31 | The normal value is the Box–Muller formula applied to `u` in `[1e-12,1)` and `v` in `[0,1)`, and two steps are consumed. |
| `Simulator.Cmpd` | simulator.c:33-39 | The comparator returns -1, 0 or 1, negative exactly when `a < b`, positive exactly when `a > b`, zero exactly on equality. |
| `Simulator.QsortCmpd` | simulator.c:93 | The sorted copy is a permutation of the data that `cmpd` never ranks out of order. |
| `Simulator.QsortCmpdUnique` | simulator.c:93 | Any arrangement that `cmpd` accepts is the ascending sort, so the C and page sorts coincide. |
| `Simulator.CRound` | simulator.c:55 | C `round` gives the nearest integer, with halves rounded away from zero. |
| `Simulator.CRoundSymmetric` | simulator.c:55 | `round(-x) == -round(x)`. |
| `Simulator.CPerSecond` | simulator.c:55-56 | At least one sample per tick: the rounded load, or 1 when that rounds below 1. |
| `Simulator.ClampC` | simulator.c:65 | Every sample is at least 1.0, and values at or above 1.0 pass unchanged. |
| `Simulator.CSample` | simulator.c:59-65 | A sample is `>= 1.0` and consumes three generator steps, or five when it spikes. |
| `Simulator.CSampleCases` | simulator.c:63-64 | A spike (third draw below 0.05) consumes five steps and adds at least 30. Otherwise three steps are consumed and the sample is the clamped normal value `50 + 7.5*z`. |
| `Simulator.CEmit` | simulator.c:58-68 | The reference series of the C sampler: `n` samples, all `>= 1.0`. |
| `Simulator.CWriteNext` | simulator.c:67 | `out_buf[idx++] = val` extends the reference prefix by one and leaves the later cells alone. |
| `Simulator.CEmitTick` | simulator.c:58-68 | One tick writes `min(perSecond, max_samples - idx)` further reference samples and leaves the cells after them alone. |
| `Simulator.CRunTicks` | simulator.c:54-69 | The tick loop writes exactly `min(max(0,duration)*perSecond, max_samples)` reference samples and leaves the rest of the buffer alone. |
| `Simulator.RunSimulation` | simulator.c:48-72 | Invalid arguments (null buffer, `max_samples <= 0`, null count) write nothing. Otherwise `written == min(max(0,duration)*max(1,round(clients*rps)), max_samples)`, the first `written` cells are the reference series from `init_seed`, all `>= 1.0`, and the buffer tail is untouched. |
| `Simulator.CMetricsValues` | simulator.c:92-102 | The stored values are the mean, and median <= 95th percentile (both input elements between min and max), and the count. |
| `Simulator.CPercentilesAreOrderStatistics` | simulator.c:95-96 | The stored median and 95th percentile are the order statistics of ranks `floor((count-1)*0.5)` and `floor((count-1)*0.95)`. |
| `Simulator.MedianAndTail` | simulator.c:95-96 | Over the qsorted copy, median <= 95th percentile, and both are input elements within its range. |
| `Simulator.StoreFour` | simulator.c:99-102 | The four stores replace the first four output cells and nothing else. |
| `Simulator.ComputeMetricsFromBuffer` | simulator.c:76-105 | Invalid arguments leave the output untouched. On success it stores `[avg, p50, p95, count]`; on allocation failure `[avg, 0, 0, 0]`. Cells from index 4 on are never touched. |
| `Analyzer.MatchesSound` | analayzer.cpp:13-17 | Every listed index is in range and names a sample strictly above the threshold. |
| `Analyzer.MatchesIncreasing` | analayzer.cpp:13-17 | Listed indices are strictly increasing. |
| `Analyzer.MatchesComplete` | analayzer.cpp:13-17 | Every index whose sample is above the threshold is listed. |
| `Analyzer.MatchesPrefix` | analayzer.cpp:13 | Scanning further only appends to the list of matches. |
| `Analyzer.Append` | analayzer.cpp:15 | `out_indices[written++] = i` extends the written prefix by `i` and leaves later cells alone. |
| `Analyzer.Scan` | analayzer.cpp:12-17 | The loop stops at the end or when full, having written exactly the matches below where it stopped. |
| `Analyzer.DetectAnomalies` | analayzer.cpp:6-19 | Invalid arguments return 0 and write nothing. Otherwise it returns `min(max_out, #matches)`, the output holds exactly the first that-many matches of `buf[i] > (sum/count)*multiplier`, and the cells after them are untouched. |
| `Analyzer.ReportedIndices` | analayzer.cpp:6-19 | The count read back is `<= max_out` and `<= count`. The indices are strictly increasing, in `[0,count)`, and above the threshold; when the output is not full, no match is missing. |
| `Analyzer.SingleSpikeFlagged` | analayzer.cpp:8-17 | [1,1,1,1,16] with multiplier 2 has threshold 8 and flags only index 4. |
| `Backends.MetricsAgree` | simulator.c:99-102 | On the same series the C mean, median and 95th percentile equal the page's, and the fourth slot is the count. |
| `Backends.ThroughputIsCount` | simulator.c:97 | The C "throughput" is the count: the page's throughput is the C figure divided by the duration, and the two agree exactly for a one-second duration. |
| `Backends.RoundingAgreesOnNonNegative` | simulator.c:55 | For non-negative loads C `round` and `Math.round` agree. |
| `Backends.RoundingDiffersOnNegativeHalf` | simulator.c:55 | `round(-2.5)` is -3 in C and -2 in the page. |
| `Backends.PerTickCounts` | simulator.c:55-56 | From a load of 0.5 up, both generators emit the same count per tick. Below it, negative loads included, the page emits none and C emits one. |
| `Backends.DefaultsDiffer` | main.js:142-150 | With the page defaults the page emits no sample, while C (capacity 1000) emits five. |

## Left out

- The DOM, the canvas drawing calls, and the metric rendering (`renderMetrics`) are not modelled. The chart model stops at the sampled points, their bounds and the height fraction. It does not model the x coordinate `i / (sampled.length - 1)`, which is 0/0 for a single point.
- `JsGenerator.JsRunSimulation`: the model always returns a series. `new Float64Array(totalExpected)` (main.js:62) throws a RangeError when the capacity exceeds the engine's typed-array or memory limit; for example, 1000 clients at 1000 requests per second for 10000 s ask for 1e10 doubles. The limit depends on the engine, so this error path is not modelled.
- Loading the WebAssembly module and marshalling through `_malloc`/`HEAPF64` are not modelled. One consequence is visible only there: the metrics record built on the native path has no `p99`, while the page path has one.
- The Blob download in `exportCSV` and the `window.__stresstest_last` global are not modelled; they are I/O.
- Floating-point rounding is not modelled. All doubles are reals, so results that IEEE arithmetic would round (sums, means, `clients*rps`) are exact here, and NaN and infinities do not exist. This covers `Number(...)` yielding NaN (modelled as `None` in the duration field) and `cmpd` on NaN.
- `toFixed(6)` is the formatter parameter `fmt`. The CSV lemmas only assume that it writes no line break.
- `Math.random`, `time(NULL)` and the Box–Muller formula are parameters, because they are randomness, the clock and transcendental floating point.
- `Simulator.RunSimulation`: the generator state `seed_val` left behind after a run is not returned. Every run reseeds from the clock, so no later result depends on it.
- `Simulator.RunSimulation`: the `(int)` cast of `round(clients*rps)` is undefined in C when the value does not fit in an `int`. The model uses the exact integer.
- `Simulator.RunSimulation`: `perSecond` is computed once instead of on every tick. Its inputs never change inside the loop, so the value is the same each time.
- The C generator ignores the page's base latency, jitter and spike chance and uses its own constants (50, 15, 0.05). The model does the same.
- A null `latArr` in `computeMetrics`, `drawLatencyChart` and `exportCSV` is not modelled: a series is a value here, so the null case coincides with the empty series.
- `JsMetrics.ComputeMetrics`: the page sorts with the comparator `(a,b)=>a-b`. The model uses the ascending sort, which is the unique result on reals (`Order.SortedUnique`).
