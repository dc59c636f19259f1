/** The C backend of simulator.c: a 64-bit linear congruential generator
    seeded from the clock, the normally distributed latency sampler built on
    it, `run_simulation` writing into a caller-owned buffer, and
    `compute_metrics_from_buffer` writing four metrics into a caller-owned
    array. A C pointer is an `Option` of the cells it points to (`None` is
    the null pointer); a function that writes through a pointer returns the
    new contents of those cells. */
module Simulator {
  import opened Wrappers
  import opened Order
  import JsGenerator

  /** 2^64: `unsigned long long` arithmetic wraps modulo this. */
  const Modulus: int := 0x1_0000_0000_0000_0000

  /** A value of `unsigned long long`. */
  type Word = w: int | 0 <= w < Modulus

  /** Multiplier of the generator (Knuth's MMIX constant). */
  const Multiplier: int := 6364136223846793005

  /** Mixed into the clock by `init_seed`. */
  const ClockMask: bv64 := 0xdeadbeef

  /** The seed `init_seed` uses when the mixed clock is zero. */
  const FallbackSeed: Word := 123456789

  /** One step of the generator: `seed * 6364136223846793005 + 1`, wrapped to 64 bits. */
  function Step(seed: Word): Word {
    (seed * Multiplier + 1) % Modulus
  }

  /** The generator state after `k` steps. */
  function Advance(seed: Word, k: nat): Word {
    if k == 0 then seed else Step(Advance(seed, k - 1))
  }

  /** A generated value with the generator state after it. */
  datatype Rand = Rand(value: real, seed: Word)

  /** `rand01`: step the state, then read its bits 12 to 43 (`(x >> 12) &
      0xFFFFFFFF`) as a fraction of 2^32. */
  function Rand01(seed: Word): (r: Rand)
    ensures r.seed == Advance(seed, 1)
    ensures 0.0 <= r.value < 1.0
    ensures (r.value * 4294967296.0).Floor as real == r.value * 4294967296.0
  {
    var next := Step(seed);
    var bits := (next / 4096) % 4294967296;
    Rand(bits as real / 4294967296.0, next)
  }

  /** The values `rand01` returns from a given state on: draw `k` is read
      from the state after `k + 1` steps. */
  function LcgStream(seed: Word): nat -> real {
    (k: nat) => Rand01(Advance(seed, k)).value
  }

  /** Every value the generator returns lies in [0, 1), the range of
      `Math.random`; and a C sample starting at `seed` reads its draws from
      this stream: the normal arguments are draws 0 and 1, and the spike
      test is draw 2. */
  lemma LcgStreamDraws(seed: Word)
    ensures JsGenerator.ValidSource(LcgStream(seed))
    ensures NormalDraws(seed).v == LcgStream(seed)(1)
    ensures LcgStream(seed)(0) >= MinUniform ==> NormalDraws(seed).u == LcgStream(seed)(0)
    ensures Spikes(seed) <==> LcgStream(seed)(2) < CSpikeChance
  {
    forall k: nat
      ensures 0.0 <= LcgStream(seed)(k) < 1.0
    {
      var r := Rand01(Advance(seed, k));
      assert LcgStream(seed)(k) == r.value;
    }
  }

  /** `(unsigned long long)time(NULL)`: the clock reading reduced modulo 2^64. */
  function ClockWord(clock: int): Word {
    clock % Modulus
  }

  /** 2^k. */
  function Pow2(k: nat): (p: nat)
    ensures p >= 1
  {
    if k == 0 then 1 else 2 * Pow2(k - 1)
  }

  lemma {:induction false} Pow2Add(a: nat, b: nat)
    ensures Pow2(a + b) == Pow2(a) * Pow2(b)
  {
    if a > 0 {
      Pow2Add(a - 1, b);
      assert Pow2(a + b) == 2 * Pow2(a - 1 + b);
    }
  }

  lemma Pow2Of64()
    ensures Pow2(64) == Modulus
  {
    assert Pow2(8) == 0x100;
    Pow2Add(8, 8);
    Pow2Add(16, 16);
    Pow2Add(32, 32);
  }

  /** Bitwise exclusive or of two naturals, lowest bit first. */
  function Xor(a: nat, b: nat): nat
    decreases a + b
  {
    if a == 0 && b == 0 then 0
    else 2 * Xor(a / 2, b / 2) + (if a % 2 == b % 2 then 0 else 1)
  }

  /** Exclusive or of two `k`-bit values is a `k`-bit value. */
  lemma {:induction false} XorBound(a: nat, b: nat, k: nat)
    requires a < Pow2(k) && b < Pow2(k)
    ensures Xor(a, b) < Pow2(k)
    decreases k
  {
    if k > 0 && !(a == 0 && b == 0) {
      XorBound(a / 2, b / 2, k - 1);
    }
  }

  /** Exclusive or with `b` undoes itself. */
  lemma {:induction false} XorInvolutive(a: nat, b: nat)
    ensures Xor(Xor(a, b), b) == a
    decreases a + b
  {
    if !(a == 0 && b == 0) {
      var x := Xor(a, b);
      XorInvolutive(a / 2, b / 2);
      assert x / 2 == Xor(a / 2, b / 2) && x % 2 == (if a % 2 == b % 2 then 0 else 1);
    }
  }

  /** Exclusive or with zero is the identity. */
  lemma {:induction false} XorZero(b: nat)
    ensures Xor(0, b) == b
  {
    if b > 0 {
      XorZero(b / 2);
    }
  }

  /** `a ^ b == c` holds exactly when `a == c ^ b`. */
  lemma XorSolve(a: nat, b: nat, c: nat)
    ensures Xor(a, b) == c <==> a == Xor(c, b)
  {
    XorInvolutive(a, b);
    XorInvolutive(c, b);
  }

  /** `x ^ 0xdeadbeef` on an unsigned 64-bit value. */
  function MixClock(w: Word): Word {
    Pow2Of64();
    XorBound(w, 0xdeadbeef, 64);
    Xor(w, 0xdeadbeef)
  }

  /** `init_seed`: the clock mixed with 0xdeadbeef, or 123456789 if that is
      zero; the generator never starts from the zero state. */
  function InitSeed(clock: int): (seed: Word)
    ensures seed != 0
    ensures ClockWord(clock) != 0xdeadbeef ==> seed == Xor(ClockWord(clock), 0xdeadbeef)
  {
    var mixed := MixClock(ClockWord(clock));
    XorSolve(ClockWord(clock), 0xdeadbeef, 0);
    XorZero(0xdeadbeef);
    if mixed == 0 then FallbackSeed else mixed
  }

  /** The fallback seed is used exactly when the clock reads 0xdeadbeef
      (mixing to zero), or `123456789 ^ 0xdeadbeef` (0xd9f673fa, mixing to
      the fallback itself). */
  lemma FallbackSeedExactly(clock: int)
    ensures InitSeed(clock) == FallbackSeed <==>
      (ClockWord(clock) == 0xdeadbeef || ClockWord(clock) == Xor(FallbackSeed, 0xdeadbeef))
  {
    var w := ClockWord(clock);
    XorSolve(w, 0xdeadbeef, 0);
    XorSolve(w, 0xdeadbeef, FallbackSeed);
    XorZero(0xdeadbeef);
  }

  /** Lower bound `normal01` puts on its first uniform draw (`1e-12`). */
  const MinUniform: real := 0.000000000001

  /** The two uniform arguments `normal01` hands to the Box-Muller formula. */
  datatype NormalArgs = NormalArgs(u: real, v: real, seed: Word)

  /** The draws of `normal01`: `u` raised to at least 1e-12 (so that the
      logarithm is finite), `v` as drawn; two steps of the generator. */
  function NormalDraws(seed: Word): (a: NormalArgs)
    ensures MinUniform <= a.u < 1.0 && 0.0 <= a.v < 1.0
    ensures Rand01(seed).value >= MinUniform ==> a.u == Rand01(seed).value
    ensures Rand01(seed).value < MinUniform ==> a.u == MinUniform
    ensures a.v == Rand01(Advance(seed, 1)).value
    ensures a.seed == Advance(seed, 2)
  {
    var first := Rand01(seed);
    var second := Rand01(first.seed);
    var u := if first.value < MinUniform then MinUniform else first.value;
    NormalArgs(u, second.value, second.seed)
  }

  /** `normal01`: `boxMuller(u, v)` stands for `sqrt(-2 log u) * cos(2 pi v)`. */
  function Normal01(seed: Word, boxMuller: (real, real) -> real): (r: Rand)
    ensures r.seed == Advance(seed, 2)
    ensures exists u, v :: MinUniform <= u < 1.0 && 0.0 <= v < 1.0 && r.value == boxMuller(u, v)
  {
    var a := NormalDraws(seed);
    Rand(boxMuller(a.u, a.v), a.seed)
  }

  /** Composing runs of the generator adds their lengths. */
  lemma {:induction false} AdvanceAdd(seed: Word, a: nat, b: nat)
    ensures Advance(Advance(seed, a), b) == Advance(seed, a + b)
  {
    if b > 0 {
      AdvanceAdd(seed, a, b - 1);
    }
  }

  /** `cmpd`, the three-way comparison handed to `qsort`. */
  function Cmpd(a: real, b: real): (r: int)
    ensures -1 <= r <= 1
    ensures r < 0 <==> a < b
    ensures r > 0 <==> a > b
    ensures r == 0 <==> a == b
  {
    if a < b then -1 else if a > b then 1 else 0
  }

  /** `qsort(copy, count, sizeof(double), cmpd)`: a rearrangement of the copy
      in which `cmpd` never ranks an earlier element after a later one. Such
      an arrangement is unique, so it is the ascending sort. */
  function QsortCmpd(s: seq<real>): (r: seq<real>)
    ensures multiset(r) == multiset(s)
    ensures forall i, j :: 0 <= i < j < |r| ==> Cmpd(r[i], r[j]) <= 0
  {
    SortAsc(s)
  }

  /** Any arrangement that `cmpd` accepts is the ascending sort of the input. */
  lemma QsortCmpdUnique(s: seq<real>, r: seq<real>)
    requires multiset(r) == multiset(s)
    requires forall i, j :: 0 <= i < j < |r| ==> Cmpd(r[i], r[j]) <= 0
    ensures r == QsortCmpd(s) == SortAsc(s)
  {
    assert Sorted(r) by {
      forall i, j | 0 <= i <= j < |r|
        ensures r[i] <= r[j]
      {
        if i < j {
          assert Cmpd(r[i], r[j]) <= 0;
        }
      }
    }
    SortedUnique(r, SortAsc(s));
  }

  /** C `round`: the nearest integer, halves rounded away from zero. */
  function CRound(x: real): (r: int)
    ensures x >= 0.0 ==> r as real - 0.5 <= x < r as real + 0.5
    ensures x <= 0.0 ==> r as real - 0.5 < x <= r as real + 0.5
  {
    if x >= 0.0 then (x + 0.5).Floor else -((0.5 - x).Floor)
  }

  /** C rounding is symmetric about zero. */
  lemma CRoundSymmetric(x: real)
    ensures CRound(-x) == -CRound(x)
  {
  }

  /** `perSecond = (int)round(clients * rps)`, raised to at least one:
      the C backend always emits at least one sample per tick. */
  function CPerSecond(load: real): (n: int)
    ensures n >= 1
    ensures load >= 0.5 ==> n as real - 0.5 <= load < n as real + 0.5
    ensures load < 0.5 ==> n == 1
  {
    Max(1, CRound(load))
  }

  /** The constants the C sampler uses in place of the page's parameters. */
  const CBase: real := 50.0
  const CJitter: real := 15.0
  const CSpikeChance: real := 0.05

  /** `if (val < 1.0) val = 1.0`. */
  function ClampC(v: real): (r: real)
    ensures r >= 1.0
    ensures v >= 1.0 ==> r == v
    ensures v < 1.0 ==> r == 1.0
  {
    if v < 1.0 then 1.0 else v
  }

  /** `fabs`. */
  function Abs(x: real): (r: real)
    ensures r >= 0.0 && (r == x || r == -x)
  {
    if x < 0.0 then -x else x
  }

  /** The sample before the spike and the clamp: `base + normal01() * (jitter / 2)`. */
  function Unspiked(seed: Word, boxMuller: (real, real) -> real): real {
    CBase + Normal01(seed, boxMuller).value * (CJitter / 2.0)
  }

  /** Whether the sample starting at `seed` spikes: the third draw is below 0.05. */
  predicate Spikes(seed: Word) {
    Rand01(Advance(seed, 2)).value < CSpikeChance
  }

  /** One iteration of the inner loop of `run_simulation`: a normal sample
      around 50 with deviation 7.5, with probability 0.05 a spike of
      `|normal01()| * 120 + 30`, and a floor of 1. */
  function CSample(seed: Word, boxMuller: (real, real) -> real): (r: Rand)
    ensures r.value >= 1.0
    ensures r.seed == Advance(seed, 3) || r.seed == Advance(seed, 5)
  {
    var n := Normal01(seed, boxMuller);
    var v := CBase + n.value * (CJitter / 2.0);
    var test := Rand01(n.seed);
    AdvanceAdd(seed, 2, 1);
    if test.value < CSpikeChance then
      var spike := Normal01(test.seed, boxMuller);
      AdvanceAdd(seed, 3, 2);
      Rand(ClampC(v + Abs(spike.value) * CJitter * 8.0 + CJitter * 2.0), spike.seed)
    else
      Rand(ClampC(v), test.seed)
  }

  /** A spike consumes five steps of the generator and adds at least 30 to
      the sample; otherwise three steps are consumed and the sample is the
      clamped normal value. */
  lemma CSampleCases(seed: Word, boxMuller: (real, real) -> real)
    ensures Spikes(seed) ==> CSample(seed, boxMuller).seed == Advance(seed, 5)
    ensures Spikes(seed) ==> CSample(seed, boxMuller).value >= Unspiked(seed, boxMuller) + 30.0
    ensures !Spikes(seed) ==> CSample(seed, boxMuller).seed == Advance(seed, 3)
    ensures !Spikes(seed) ==> CSample(seed, boxMuller).value == ClampC(Unspiked(seed, boxMuller))
  {
    AdvanceAdd(seed, 2, 1);
    AdvanceAdd(seed, 3, 2);
  }

  /** The first `n` samples `run_simulation` writes from generator state
      `seed`, in order, and the state after them. */
  function CEmit(seed: Word, n: nat, boxMuller: (real, real) -> real): (r: (seq<real>, Word))
    ensures |r.0| == n
    ensures forall k :: 0 <= k < n ==> r.0[k] >= 1.0
  {
    if n == 0 then ([], seed)
    else
      var prev := CEmit(seed, n - 1, boxMuller);
      var d := CSample(prev.1, boxMuller);
      (prev.0 + [d.value], d.seed)
  }

  /** Writing the next sample into the buffer extends the emitted prefix by one. */
  lemma CEmitStep(seed: Word, boxMuller: (real, real) -> real, buffer: seq<real>, idx: nat)
    requires idx < |buffer|
    requires buffer[..idx] == CEmit(seed, idx, boxMuller).0
    ensures buffer[idx := CSample(CEmit(seed, idx, boxMuller).1, boxMuller).value][..idx + 1]
         == CEmit(seed, idx + 1, boxMuller).0
  {
    var d := CSample(CEmit(seed, idx, boxMuller).1, boxMuller);
    assert buffer[idx := d.value][..idx + 1] == buffer[..idx] + [d.value];
  }

  /** `out_buf[idx++] = val`: one sample written at the end of the emitted prefix. */
  method CWriteNext(buffer: seq<real>, idx: nat, state: Word, ghost start: Word,
                    boxMuller: (real, real) -> real)
    returns (buffer': seq<real>, state': Word)
    requires idx < |buffer|
    requires buffer[..idx] == CEmit(start, idx, boxMuller).0
    requires state == CEmit(start, idx, boxMuller).1
    ensures |buffer'| == |buffer|
    ensures buffer'[..idx + 1] == CEmit(start, idx + 1, boxMuller).0
    ensures state' == CEmit(start, idx + 1, boxMuller).1
    ensures buffer'[idx + 1..] == buffer[idx + 1..]
  {
    var d := CSample(state, boxMuller);
    CEmitStep(start, boxMuller, buffer, idx);
    buffer' := buffer[idx := d.value];
    state' := d.seed;
  }

  /** The inner loop of `run_simulation`: up to `perSecond` samples, stopping
      once `max_samples` cells are filled; cells from the new end on are untouched. */
  method CEmitTick(perSecond: int, maxSamples: int, buffer: seq<real>, idx: nat,
                   state: Word, ghost start: Word, boxMuller: (real, real) -> real)
    returns (buffer': seq<real>, idx': nat, state': Word)
    requires idx <= maxSamples <= |buffer|
    requires buffer[..idx] == CEmit(start, idx, boxMuller).0
    requires state == CEmit(start, idx, boxMuller).1
    ensures idx' == Min(idx + Max(0, perSecond), maxSamples)
    ensures |buffer'| == |buffer|
    ensures buffer'[..idx'] == CEmit(start, idx', boxMuller).0
    ensures state' == CEmit(start, idx', boxMuller).1
    ensures buffer'[idx'..] == buffer[idx'..]
  {
    buffer', idx', state' := buffer, idx, state;
    var i := 0;
    while i < perSecond && idx' < maxSamples
      invariant 0 <= i <= Max(0, perSecond)
      invariant idx' == Min(idx + i, maxSamples)
      invariant |buffer'| == |buffer|
      invariant buffer'[..idx'] == CEmit(start, idx', boxMuller).0
      invariant state' == CEmit(start, idx', boxMuller).1
      invariant buffer'[idx'..] == buffer[idx'..]
    {
      buffer', state' := CWriteNext(buffer', idx', state', start, boxMuller);
      i, idx' := i + 1, idx' + 1;
    }
  }

  /** A product grows with its left factor. */
  lemma MulMonotone(a: int, b: int, c: int)
    requires a <= b && c >= 0
    ensures a * c <= b * c
  {
    assert b * c - a * c == (b - a) * c;
  }

  /** The tick loop of `run_simulation`: `for (t = 0; t < duration && idx < max_samples; ++t)`. */
  method CRunTicks(perSecond: int, duration: int, buffer: seq<real>, maxSamples: int,
                   seed: Word, boxMuller: (real, real) -> real)
    returns (buffer': seq<real>, written: nat)
    requires perSecond >= 1
    requires 0 < maxSamples <= |buffer|
    ensures written == Min(Max(0, duration) * perSecond, maxSamples)
    ensures |buffer'| == |buffer|
    ensures buffer'[..written] == CEmit(seed, written, boxMuller).0
    ensures forall k :: written <= k < |buffer| ==> buffer'[k] == buffer[k]
  {
    buffer' := buffer;
    var idx: nat := 0;
    var state := seed;
    var t := 0;
    ghost var planned := 0;
    while t < duration && idx < maxSamples
      invariant 0 <= t <= Max(0, duration)
      invariant planned == t * perSecond
      invariant idx == Min(planned, maxSamples)
      invariant |buffer'| == |buffer|
      invariant buffer'[..idx] == CEmit(seed, idx, boxMuller).0
      invariant state == CEmit(seed, idx, boxMuller).1
      invariant forall k :: idx <= k < |buffer| ==> buffer'[k] == buffer[k]
      decreases duration - t
    {
      buffer', idx, state := CEmitTick(perSecond, maxSamples, buffer', idx, state, seed, boxMuller);
      assert (t + 1) * perSecond == planned + perSecond;
      planned := planned + perSecond;
      t := t + 1;
    }
    MulMonotone(t, Max(0, duration), perSecond);
    written := idx;
  }

  /** `run_simulation`'s argument check: a buffer, a positive capacity and a count pointer. */
  predicate RunArgsValid(outBuf: Option<seq<real>>, maxSamples: int, outWritten: Option<int>) {
    outBuf.Some? && maxSamples > 0 && outWritten.Some?
  }

  /** `run_simulation(clients, rps, duration, out_buf, max_samples,
      out_written)`. `outBuf` and `outWritten` are the cells behind the two
      pointers and the method returns their new contents; `clock` is the
      reading of `time(NULL)` and `boxMuller` the floating-point formula of
      `normal01`. */
  method RunSimulation(clients: int, rps: real, duration: int,
                       outBuf: Option<seq<real>>, maxSamples: int, outWritten: Option<int>,
                       clock: int, boxMuller: (real, real) -> real)
    returns (outBuf': Option<seq<real>>, outWritten': Option<int>)
    requires outBuf.Some? ==> maxSamples <= |outBuf.value|
    ensures !RunArgsValid(outBuf, maxSamples, outWritten) ==>
      outBuf' == outBuf && outWritten' == outWritten
    ensures RunArgsValid(outBuf, maxSamples, outWritten) ==>
      && outBuf'.Some? && outWritten'.Some?
      && |outBuf'.value| == |outBuf.value|
      && outWritten'.value == Min(Max(0, duration) * CPerSecond(clients as real * rps), maxSamples)
    ensures RunArgsValid(outBuf, maxSamples, outWritten) ==>
      var n := outWritten'.value;
      && 0 <= n <= maxSamples
      && outBuf'.value[..n] == CEmit(InitSeed(clock), n, boxMuller).0
      && outBuf'.value[n..] == outBuf.value[n..]
      && forall k :: 0 <= k < n ==> outBuf'.value[k] >= 1.0
  {
    if !RunArgsValid(outBuf, maxSamples, outWritten) {
      return outBuf, outWritten;
    }
    var seed := InitSeed(clock);
    var load := clients as real * rps;
    var perSecond := CPerSecond(load);
    var buffer, written := CRunTicks(perSecond, duration, outBuf.value, maxSamples, seed, boxMuller);
    assert buffer[written..] == outBuf.value[written..];
    outBuf', outWritten' := Some(buffer), Some(written);
  }

  /** The four values `compute_metrics_from_buffer` stores on success:
      mean, median, 95th percentile (both nearest-rank over the qsorted copy)
      and the count itself as the throughput. */
  function CMetricsValues(data: seq<real>): (m: seq<real>)
    requires |data| > 0
    ensures |m| == 4
    ensures m[0] == Sum(data) / |data| as real
    ensures m[1] in data && m[2] in data
    ensures MinOf(data) <= m[1] <= m[2] <= MaxOf(data)
    ensures m[3] == |data| as real
  {
    var sorted := QsortCmpd(data);
    MedianAndTail(data);
    var n := |data| as real;
    var avg := Sum(data) / n;
    [avg, Percentile(sorted, 0.5), Percentile(sorted, 0.95), n]
  }

  /** Over the sorted copy, the median and the 95th percentile are elements
      of the input, ordered and within its range. */
  lemma MedianAndTail(data: seq<real>)
    requires |data| > 0
    ensures var r := QsortCmpd(data);
      && Percentile(r, 0.5) in data && Percentile(r, 0.95) in data
      && MinOf(data) <= Percentile(r, 0.5) <= Percentile(r, 0.95) <= MaxOf(data)
  {
    var r := QsortCmpd(data);
    assert r == SortAsc(data);
    PercentileMonotone(r, 0.5, 0.95);
    SortedEnds(data);
    assert Percentile(r, 0.5) in multiset(data);
    assert Percentile(r, 0.95) in multiset(data);
  }

  /** The stored median and 95th percentile are the order statistics of
      ranks `floor((count-1)*0.5)` and `floor((count-1)*0.95)` of the input. */
  lemma CPercentilesAreOrderStatistics(data: seq<real>)
    requires |data| > 0
    ensures var m := CMetricsValues(data);
      && CountBelow(data, m[1]) <= PercentileIndex(|data|, 0.5) < CountAtMost(data, m[1])
      && CountBelow(data, m[2]) <= PercentileIndex(|data|, 0.95) < CountAtMost(data, m[2])
  {
    assert QsortCmpd(data) == SortAsc(data);
    PercentileIsOrderStatistic(data, 0.5);
    PercentileIsOrderStatistic(data, 0.95);
  }

  /** `compute_metrics_from_buffer`'s argument check. */
  predicate MetricsArgsValid(buf: Option<seq<real>>, count: int, outMetrics: Option<seq<real>>) {
    buf.Some? && count > 0 && outMetrics.Some?
  }

  /** `out_metrics[0..3] = ...`: the first four cells replaced, the rest kept. */
  method StoreFour(out: seq<real>, values: seq<real>) returns (out': seq<real>)
    requires |out| >= 4 && |values| == 4
    ensures |out'| == |out|
    ensures out'[..4] == values
    ensures out'[4..] == out[4..]
  {
    out' := out[0 := values[0]][1 := values[1]][2 := values[2]][3 := values[3]];
    assert out'[..4] == values;
  }

  /** `compute_metrics_from_buffer(buf, count, out_metrics)`. `buf` and
      `outMetrics` are the cells behind the two pointers and the method
      returns the new contents of the output cells; `allocFails` says
      whether `malloc` of the copy returns null, in which case the mean is
      stored and the other three slots are zeroed. */
  method ComputeMetricsFromBuffer(buf: Option<seq<real>>, count: int,
                                  outMetrics: Option<seq<real>>, allocFails: bool)
    returns (outMetrics': Option<seq<real>>)
    requires buf.Some? ==> count <= |buf.value|
    requires outMetrics.Some? ==> |outMetrics.value| >= 4
    ensures !MetricsArgsValid(buf, count, outMetrics) ==> outMetrics' == outMetrics
    ensures MetricsArgsValid(buf, count, outMetrics) ==>
      && outMetrics'.Some?
      && |outMetrics'.value| == |outMetrics.value|
      && outMetrics'.value[4..] == outMetrics.value[4..]
    ensures MetricsArgsValid(buf, count, outMetrics) && !allocFails ==>
      outMetrics'.value[..4] == CMetricsValues(buf.value[..count])
    ensures MetricsArgsValid(buf, count, outMetrics) && allocFails ==>
      outMetrics'.value[..4] == [CMetricsValues(buf.value[..count])[0], 0.0, 0.0, 0.0]
  {
    if !MetricsArgsValid(buf, count, outMetrics) {
      return outMetrics;
    }
    var data := buf.value[..count];
    var sum := SumPrefix(buf.value, count);
    var avg := sum / count as real;
    assert avg == CMetricsValues(data)[0];
    var values;
    if allocFails {
      values := [avg, 0.0, 0.0, 0.0];
    } else {
      var copy := data;
      var sorted := QsortCmpd(copy);
      var p50 := sorted[PercentileIndex(count, 0.5)];
      var p95 := sorted[PercentileIndex(count, 0.95)];
      values := [avg, p50, p95, count as real];
      assert values == CMetricsValues(data);
    }
    var out := StoreFour(outMetrics.value, values);
    outMetrics' := Some(out);
  }
}
