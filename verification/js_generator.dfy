/** The reference (in-page) sample generator `jsRunSimulation` of main.js.
    `Math.random` is replaced by an injected stream `rng`: draw number `k` is
    `rng(k)`, and a cursor records how many draws have been consumed. */
module JsGenerator {
  import opened Order

  /** The six load parameters after the page has coerced them to numbers. */
  datatype LoadParams = LoadParams(
    clients: real,
    rps: real,
    duration: real,
    baseLatency: real,
    jitter: real,
    spikeChance: real)

  /** A source of draws in [0, 1), the range of `Math.random()`. */
  ghost predicate ValidSource(rng: nat -> real) {
    forall k: nat :: 0.0 <= rng(k) < 1.0
  }

  /** `Math.round`: the nearest integer, halves rounded towards +infinity. */
  function JsRound(x: real): (r: int)
    ensures r as real - 0.5 <= x < r as real + 0.5
  {
    (x + 0.5).Floor
  }

  /** Number of iterations of `for (let t = 0; t < duration; t++)`: the
      least natural number not below `duration`. */
  function TickCount(duration: real): (n: nat)
    ensures duration <= 0.0 ==> n == 0
    ensures duration > 0.0 ==> (n - 1) as real < duration <= n as real
  {
    if duration <= 0.0 then 0 else -((-duration).Floor)
  }

  /** The loop test `t < duration` holds exactly for the first `TickCount(duration)` ticks. */
  lemma TickTest(t: nat, duration: real)
    ensures (t as real) < duration <==> t < TickCount(duration)
  {
    var n := TickCount(duration);
    if (t as real) < duration {
      assert (t as real) < n as real;
    } else if duration > 0.0 {
      assert (n - 1) as real < t as real;
    }
  }

  /** `totalExpected`, the capacity of the latency buffer. */
  function TotalExpected(p: LoadParams): (n: int)
    ensures n >= 1
    ensures p.clients * p.rps * p.duration < (n + 1) as real
    ensures n == 1 || n as real <= p.clients * p.rps * p.duration
  {
    Max(1, (p.clients * p.rps * p.duration).Floor)
  }

  /** Samples emitted per tick; a negative `Math.round` result runs the inner loop zero times. */
  function PerSecond(p: LoadParams): nat {
    Max(0, JsRound(p.clients * p.rps))
  }

  /** The number of samples the generator emits. */
  function SeriesLength(p: LoadParams): int {
    Min(TickCount(p.duration) * PerSecond(p), TotalExpected(p))
  }

  /** A draw in [0, 1) scales a non-negative amount to no more than itself. */
  lemma ScaleByDraw(u: real, j: real)
    requires 0.0 <= u < 1.0 && j >= 0.0
    ensures 0.0 <= u * j <= j
    ensures j > 0.0 ==> u * j < j
  {
    assert j - u * j == (1.0 - u) * j;
  }

  /** `base + (u*2 - 1) * jitter`: uniform symmetric jitter around the base. */
  function Jittered(base: real, jitter: real, u: real): (l: real)
    ensures 0.0 <= u < 1.0 && jitter >= 0.0 ==> base - jitter <= l <= base + jitter
    ensures 0.0 <= u < 1.0 && jitter > 0.0 ==> l < base + jitter
  {
    if 0.0 <= u < 1.0 && jitter >= 0.0 then ScaleByDraw(u, jitter); base + (u * 2.0 - 1.0) * jitter
    else base + (u * 2.0 - 1.0) * jitter
  }

  /** `u * jitter * 10 + jitter * 2`: the tail-latency spike. */
  function SpikeTerm(u: real, jitter: real): (s: real)
    ensures 0.0 <= u < 1.0 && jitter >= 0.0 ==> 2.0 * jitter <= s <= 12.0 * jitter
    ensures 0.0 <= u < 1.0 && jitter > 0.0 ==> s < 12.0 * jitter
  {
    if 0.0 <= u < 1.0 && jitter >= 0.0 then ScaleByDraw(u, jitter); u * jitter * 10.0 + jitter * 2.0
    else u * jitter * 10.0 + jitter * 2.0
  }

  /** `if (l < 0) l = 1`: only strictly negative values are replaced. */
  function ClampJs(l: real): (v: real)
    ensures v >= 0.0
    ensures l >= 0.0 ==> v == l
    ensures l < 0.0 ==> v == 1.0
  {
    if l < 0.0 then 1.0 else l
  }

  /** One generated value and the cursor after the draws it consumed. */
  datatype Draw = Draw(value: real, next: nat)

  /** One iteration of the inner loop, reading draws from position `pos`:
      the jitter draw, the spike test draw and, on a spike, the spike draw. */
  function JsSample(p: LoadParams, rng: nat -> real, pos: nat): (d: Draw)
    ensures d.value >= 0.0
    ensures pos + 2 <= d.next <= pos + 3
  {
    var l := Jittered(p.baseLatency, p.jitter, rng(pos));
    if rng(pos + 1) < p.spikeChance / 100.0 then
      Draw(ClampJs(l + SpikeTerm(rng(pos + 2), p.jitter)), pos + 3)
    else
      Draw(ClampJs(l), pos + 2)
  }

  /** The spike is taken exactly when the second draw is below
      `spikeChance / 100`, and only then is a third draw consumed. Without a
      spike the sample is the clamped jitter; with one, for draws in [0, 1),
      a non-negative jitter and `base + jitter >= 0`, the sample lies in
      `[base + jitter, base + 13 * jitter]`. */
  lemma JsSampleCases(p: LoadParams, rng: nat -> real, pos: nat)
    ensures rng(pos + 1) < p.spikeChance / 100.0 <==> JsSample(p, rng, pos).next == pos + 3
    ensures rng(pos + 1) >= p.spikeChance / 100.0 ==>
      JsSample(p, rng, pos).value == ClampJs(Jittered(p.baseLatency, p.jitter, rng(pos)))
    ensures rng(pos + 1) < p.spikeChance / 100.0 &&
            0.0 <= rng(pos) < 1.0 && 0.0 <= rng(pos + 2) < 1.0 &&
            p.jitter >= 0.0 && p.baseLatency + p.jitter >= 0.0 ==>
      p.baseLatency + p.jitter <= JsSample(p, rng, pos).value <= p.baseLatency + 13.0 * p.jitter
  {
  }

  /** The first `n` samples the generator emits, in order, and the cursor after them. */
  function Emit(p: LoadParams, rng: nat -> real, n: nat): (r: (seq<real>, nat))
    ensures |r.0| == n
    ensures 2 * n <= r.1 <= 3 * n
    ensures forall k :: 0 <= k < n ==> r.0[k] >= 0.0
  {
    if n == 0 then ([], 0)
    else
      var prev := Emit(p, rng, n - 1);
      var d := JsSample(p, rng, prev.1);
      (prev.0 + [d.value], d.next)
  }

  /** `new Float64Array(n)`: `n` cells, all zero. */
  function ZeroBuffer(n: nat): (z: seq<real>)
    ensures |z| == n
    ensures forall k :: 0 <= k < n ==> z[k] == 0.0
  {
    if n == 0 then [] else ZeroBuffer(n - 1) + [0.0]
  }

  /** Writing the next sample into the buffer extends the emitted prefix by one. */
  lemma EmitStep(p: LoadParams, rng: nat -> real, buffer: seq<real>, idx: nat)
    requires idx < |buffer|
    requires buffer[..idx] == Emit(p, rng, idx).0
    ensures buffer[idx := JsSample(p, rng, Emit(p, rng, idx).1).value][..idx + 1]
         == Emit(p, rng, idx + 1).0
  {
    var d := JsSample(p, rng, Emit(p, rng, idx).1);
    assert buffer[idx := d.value][..idx + 1] == buffer[..idx] + [d.value];
  }

  /** One tick of `jsRunSimulation`: the inner loop emits up to `perSecond`
      samples into the buffer, stopping early when the buffer is full. */
  method EmitTick(p: LoadParams, rng: nat -> real, perSecond: int,
                  buffer: seq<real>, idx: nat, cursor: nat)
    returns (buffer': seq<real>, idx': nat, cursor': nat)
    requires idx <= |buffer|
    requires buffer[..idx] == Emit(p, rng, idx).0
    requires cursor == Emit(p, rng, idx).1
    ensures idx' == Min(idx + Max(0, perSecond), |buffer|)
    ensures |buffer'| == |buffer|
    ensures buffer'[..idx'] == Emit(p, rng, idx').0
    ensures cursor' == Emit(p, rng, idx').1
  {
    buffer', idx', cursor' := buffer, idx, cursor;
    var i := 0;
    while i < perSecond && idx' < |buffer|
      invariant 0 <= i <= Max(0, perSecond)
      invariant idx' == Min(idx + i, |buffer|)
      invariant |buffer'| == |buffer|
      invariant buffer'[..idx'] == Emit(p, rng, idx').0
      invariant cursor' == Emit(p, rng, idx').1
    {
      var d := JsSample(p, rng, cursor');
      EmitStep(p, rng, buffer', idx');
      buffer' := buffer'[idx' := d.value];
      cursor' := d.next;
      i, idx' := i + 1, idx' + 1;
    }
  }

  /** The tick loop of `jsRunSimulation`, given the per-tick count and the
      buffer capacity (`Math.round(clients * rps)` is recomputed every tick in
      main.js, always to the same value). */
  method RunTicks(p: LoadParams, rng: nat -> real, perSecond: int, totalExpected: nat)
    returns (latencies: seq<real>)
    ensures |latencies| == Min(TickCount(p.duration) * Max(0, perSecond), totalExpected)
    ensures latencies == Emit(p, rng, |latencies|).0
  {
    var buffer := ZeroBuffer(totalExpected);
    var idx: nat := 0;
    var cursor: nat := 0;
    var t := 0;
    ghost var ticks := TickCount(p.duration);
    ghost var ps := Max(0, perSecond);
    ghost var planned := 0;
    while (t as real) < p.duration
      invariant 0 <= t <= ticks
      invariant planned == t * ps
      invariant idx == Min(planned, totalExpected)
      invariant |buffer| == totalExpected
      invariant buffer[..idx] == Emit(p, rng, idx).0
      invariant cursor == Emit(p, rng, idx).1
      decreases ticks - t
    {
      TickTest(t, p.duration);
      buffer, idx, cursor := EmitTick(p, rng, perSecond, buffer, idx, cursor);
      assert (t + 1) * ps == planned + ps;
      planned := planned + ps;
      t := t + 1;
    }
    TickTest(t, p.duration);
    latencies := buffer[..idx];
  }

  /** `jsRunSimulation`: `duration` ticks of `round(clients*rps)` samples each,
      stopping once the buffer of `totalExpected` cells is full. */
  method JsRunSimulation(p: LoadParams, rng: nat -> real) returns (latencies: seq<real>)
    ensures |latencies| == SeriesLength(p)
    ensures |latencies| <= TotalExpected(p)
    ensures latencies == Emit(p, rng, |latencies|).0
    ensures forall k :: 0 <= k < |latencies| ==> latencies[k] >= 0.0
  {
    var totalExpected := TotalExpected(p);
    var perSecond := JsRound(p.clients * p.rps);
    latencies := RunTicks(p, rng, perSecond, totalExpected);
    assert PerSecond(p) == Max(0, perSecond);
  }

  /** For a whole number of seconds `d`, the series holds exactly
      `min(d * perSecond, totalExpected)` samples. */
  lemma IntegerDurationLength(p: LoadParams, d: nat)
    requires p.duration == d as real
    ensures SeriesLength(p) == Min(d * PerSecond(p), TotalExpected(p))
  {
  }

  /** The page defaults (1 client, 0.1 requests per second, 5 seconds) round
      to zero samples per tick: the series is empty although the buffer has
      one cell. */
  lemma DefaultsYieldEmptySeries()
    ensures TotalExpected(LoadParams(1.0, 0.1, 5.0, 50.0, 10.0, 0.0)) == 1
    ensures SeriesLength(LoadParams(1.0, 0.1, 5.0, 50.0, 10.0, 0.0)) == 0
  {
  }

  /** Without spikes each sample consumes exactly two draws, and sample `k`
      is the clamped jitter around the base taken from draw `2k`. */
  lemma {:induction false} NoSpikeSamples(p: LoadParams, rng: nat -> real, n: nat)
    requires ValidSource(rng)
    requires p.spikeChance <= 0.0
    ensures Emit(p, rng, n).1 == 2 * n
    ensures forall k :: 0 <= k < n ==>
      Emit(p, rng, n).0[k] == ClampJs(Jittered(p.baseLatency, p.jitter, rng(2 * k)))
  {
    if n > 0 {
      NoSpikeSamples(p, rng, n - 1);
      assert rng(2 * (n - 1) + 1) >= 0.0;
    }
  }

  /** Without spikes, and with a base at least as large as the jitter, every
      sample lies in `[base - jitter, base + jitter)`. */
  lemma NoSpikeRange(p: LoadParams, rng: nat -> real, n: nat)
    requires ValidSource(rng)
    requires p.spikeChance <= 0.0
    requires 0.0 < p.jitter <= p.baseLatency
    ensures forall k :: 0 <= k < n ==>
      p.baseLatency - p.jitter <= Emit(p, rng, n).0[k] < p.baseLatency + p.jitter
  {
    NoSpikeSamples(p, rng, n);
    forall k | 0 <= k < n
      ensures p.baseLatency - p.jitter <= Emit(p, rng, n).0[k] < p.baseLatency + p.jitter
    {
      assert 0.0 <= rng(2 * k) < 1.0;
    }
  }

  /** The clamp admits an exact zero: base 10, jitter 10 and a first draw of
      0 emit the latency 0, so samples are non-negative but not always positive. */
  lemma ZeroLatencyPassesClamp()
    ensures SeriesLength(LoadParams(1.0, 1.0, 1.0, 10.0, 10.0, 0.0)) == 1
    ensures Emit(LoadParams(1.0, 1.0, 1.0, 10.0, 10.0, 0.0), _ => 0.0, 1).0 == [0.0]
  {
  }
}
