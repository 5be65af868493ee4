/** Link metrics, their composite cost, and the moving averages that smooth them. */
module Metrics {

  const EMA_ALPHA: real := 0.2

  datatype LinkMetrics = LinkMetrics(
    latencyMs: real,
    bandwidthKbps: real,
    lossRate: real,
    relayCost: real)
  {
    function Cost(): (r: real) {
      var bwMbps := if bandwidthKbps / 1000.0 < 0.1 then 0.1 else bandwidthKbps / 1000.0;
      latencyMs * (1.0 + lossRate) / bwMbps + relayCost
    }

    /** What every metrics value measured by an honest peer satisfies. */
    predicate Sound() {
      latencyMs > 0.0 && 0.0 <= lossRate <= 1.0 && relayCost >= 0.0
    }
  }

  const DEFAULT_METRICS := LinkMetrics(10.0, 10000.0, 0.0, 0.0)

  datatype Sample = Latency(ms: real) | Bandwidth(kbps: real) | Loss(rate: real)

  function Clamp(x: real): (r: real) {
    if x < 0.0 then 0.0 else if x > 1.0 then 1.0 else x
  }

  function Distance(x: real, y: real): (d: real) {
    if x < y then y - x else x - y
  }

  /** A loss sample enters as the loss rate nearest to it; a rate enters unchanged. */
  lemma ClampIsNearest(x: real, y: real)
    requires 0.0 <= y <= 1.0
    ensures 0.0 <= Clamp(x) <= 1.0 && Distance(x, Clamp(x)) <= Distance(x, y)
    ensures Distance(x, y) == Distance(x, Clamp(x)) ==> y == Clamp(x)
  {
  }

  function Smooth(ema: real, measurement: real): (r: real) {
    EMA_ALPHA * measurement + (1.0 - EMA_ALPHA) * ema
  }

  /** One measurement folded into the tracked metrics. */
  function Measure(m: LinkMetrics, s: Sample): (r: LinkMetrics) {
    match s
    case Latency(x) => m.(latencyMs := Smooth(m.latencyMs, x))
    case Bandwidth(x) => m.(bandwidthKbps := Smooth(m.bandwidthKbps, x))
    case Loss(x) => m.(lossRate := Smooth(m.lossRate, Clamp(x)))
  }

  function MeasureAll(m: LinkMetrics, ss: seq<Sample>): (r: LinkMetrics)
    decreases |ss|
  {
    if ss == [] then m else MeasureAll(Measure(m, ss[0]), ss[1..])
  }

  lemma {:induction false} MeasureAllAppend(m: LinkMetrics, ss: seq<Sample>, s: Sample)
    ensures MeasureAll(m, ss + [s]) == Measure(MeasureAll(m, ss), s)
    decreases |ss|
  {
    if ss == [] {
      assert ([] + [s])[1..] == [];
    } else {
      MeasureAllAppend(Measure(m, ss[0]), ss[1..], s);
      assert (ss + [s])[1..] == ss[1..] + [s];
    }
  }

  /** A tracker of one link, updated in place by each measurement. */
  class LinkMetricTracker {
    var latencyEma: real
    var bandwidthEma: real
    var lossRateEma: real
    var relayCost: real

    constructor (initial: LinkMetrics)
      ensures Metrics() == initial
      ensures latencyEma == initial.latencyMs && bandwidthEma == initial.bandwidthKbps
      ensures lossRateEma == initial.lossRate && relayCost == initial.relayCost
    {
      latencyEma, bandwidthEma := initial.latencyMs, initial.bandwidthKbps;
      lossRateEma, relayCost := initial.lossRate, initial.relayCost;
    }

    function Metrics(): (r: LinkMetrics)
      reads this
    {
      LinkMetrics(latencyEma, bandwidthEma, lossRateEma, relayCost)
    }

    method RecordLatency(measurement: real)
      modifies this
      ensures Metrics() == Measure(old(Metrics()), Latency(measurement))
      ensures latencyEma == 0.2 * measurement + 0.8 * old(latencyEma)
      ensures bandwidthEma == old(bandwidthEma) && lossRateEma == old(lossRateEma) && relayCost == old(relayCost)
    {
      latencyEma := EMA_ALPHA * measurement + (1.0 - EMA_ALPHA) * latencyEma;
    }

    method RecordBandwidth(measurement: real)
      modifies this
      ensures Metrics() == Measure(old(Metrics()), Bandwidth(measurement))
      ensures bandwidthEma == 0.2 * measurement + 0.8 * old(bandwidthEma)
      ensures latencyEma == old(latencyEma) && lossRateEma == old(lossRateEma) && relayCost == old(relayCost)
    {
      bandwidthEma := EMA_ALPHA * measurement + (1.0 - EMA_ALPHA) * bandwidthEma;
    }

    method RecordLossRate(measurement: real)
      modifies this
      ensures Metrics() == Measure(old(Metrics()), Loss(measurement))
      ensures lossRateEma == 0.2 * Clamp(measurement) + 0.8 * old(lossRateEma)
      ensures latencyEma == old(latencyEma) && bandwidthEma == old(bandwidthEma) && relayCost == old(relayCost)
    {
      var clamped := Clamp(measurement);
      lossRateEma := EMA_ALPHA * clamped + (1.0 - EMA_ALPHA) * lossRateEma;
    }

    method SetRelayCost(cost: real)
      modifies this
      ensures Metrics() == old(Metrics()).(relayCost := cost)
      ensures Metrics().Cost() - old(Metrics()).Cost() == cost - old(relayCost)
    {
      relayCost := cost;
    }
  }

  // ----- Costs stay positive over every run of measurements

  /** The link cost is positive whatever the bandwidth, because the divisor is at least 0.1. */
  lemma SoundCostIsPositive(m: LinkMetrics)
    requires m.Sound()
    ensures m.Cost() > 0.0
  {
    var bw := if m.bandwidthKbps / 1000.0 < 0.1 then 0.1 else m.bandwidthKbps / 1000.0;
    var load := m.latencyMs * (1.0 + m.lossRate);
    assert load > 0.0;
    QuotientPositive(load, bw);
  }

  lemma QuotientPositive(a: real, b: real)
    requires a > 0.0 && b > 0.0
    ensures a / b > 0.0
  {
    assert a == (a / b) * b;
  }

  /** Cost times bandwidth is load, with bandwidth counted as at least 100 Kbps. */
  lemma CostTimesBandwidth(m: LinkMetrics)
    ensures (m.Cost() - m.relayCost) * (if m.bandwidthKbps < 100.0 then 100.0 else m.bandwidthKbps)
         == 1000.0 * (m.latencyMs * (1.0 + m.lossRate))
  {
    var bw := if m.bandwidthKbps / 1000.0 < 0.1 then 0.1 else m.bandwidthKbps / 1000.0;
    var load := m.latencyMs * (1.0 + m.lossRate);
    assert m.Cost() - m.relayCost == load / bw;
    assert (load / bw) * bw == load;
    assert 1000.0 * bw == if m.bandwidthKbps < 100.0 then 100.0 else m.bandwidthKbps;
    assert (load / bw) * (1000.0 * bw) == 1000.0 * ((load / bw) * bw);
  }

  /** Lower cost means better: a link no worse in every metric costs no more. */
  lemma BetterLinkCostsNoMore(a: LinkMetrics, b: LinkMetrics)
    requires a.Sound() && b.Sound()
    requires a.latencyMs <= b.latencyMs && a.lossRate <= b.lossRate && a.relayCost <= b.relayCost
    requires a.bandwidthKbps >= b.bandwidthKbps
    ensures a.Cost() <= b.Cost()
  {
    var bwA := if a.bandwidthKbps / 1000.0 < 0.1 then 0.1 else a.bandwidthKbps / 1000.0;
    var bwB := if b.bandwidthKbps / 1000.0 < 0.1 then 0.1 else b.bandwidthKbps / 1000.0;
    var loadA, loadB := a.latencyMs * (1.0 + a.lossRate), b.latencyMs * (1.0 + b.lossRate);
    assert loadA / bwA <= loadB / bwB by {
      ProductMonotone(a.latencyMs, b.latencyMs, 1.0 + a.lossRate, 1.0 + b.lossRate);
      QuotientMonotone(loadA, loadB, bwA, bwB);
    }
    assert a.Cost() == loadA / bwA + a.relayCost && b.Cost() == loadB / bwB + b.relayCost;
  }

  lemma ProductMonotone(a: real, b: real, x: real, y: real)
    requires 0.0 <= a <= b && 0.0 <= x <= y
    ensures 0.0 <= a * x <= b * y
  {
    assert a * x >= 0.0 && (b - a) * x >= 0.0 && b * (y - x) >= 0.0;
    assert b * y - a * x == (b - a) * x + b * (y - x);
  }

  lemma QuotientMonotone(a: real, b: real, x: real, y: real)
    requires 0.0 <= a <= b && 0.0 < y <= x
    ensures a / x <= b / y
  {
    var p, q := a / x, b / y;
    assert p * x == a && q * y == b;
    assert p >= 0.0;
    assert p * (x - y) >= 0.0;
    assert (q - p) * y >= 0.0;
  }

  /** A latency sample is a round-trip time, so it is never negative; the others are arbitrary. */
  predicate PlausibleSample(s: Sample) {
    s.Latency? ==> s.ms >= 0.0
  }

  lemma MeasureKeepsSound(m: LinkMetrics, s: Sample)
    requires m.Sound() && PlausibleSample(s)
    ensures Measure(m, s).Sound()
  {
  }

  lemma {:induction false} EveryRunKeepsCostPositive(m: LinkMetrics, ss: seq<Sample>)
    requires m.Sound() && forall s | s in ss :: PlausibleSample(s)
    ensures MeasureAll(m, ss).Sound() && MeasureAll(m, ss).Cost() > 0.0
    decreases |ss|
  {
    if ss == [] {
      SoundCostIsPositive(m);
    } else {
      MeasureKeepsSound(m, ss[0]);
      EveryRunKeepsCostPositive(Measure(m, ss[0]), ss[1..]);
    }
  }

  // ----- The moving average over a whole run of samples

  /** The moving average of `xs` starting from `v`. */
  function Ema(v: real, xs: seq<real>): (r: real)
    decreases |xs|
  {
    if xs == [] then v else Ema(Smooth(v, xs[0]), xs[1..])
  }

  function LatencySamples(ss: seq<Sample>): (r: seq<real>) {
    if ss == [] then []
    else (if ss[0].Latency? then [ss[0].ms] else []) + LatencySamples(ss[1..])
  }

  function BandwidthSamples(ss: seq<Sample>): (r: seq<real>) {
    if ss == [] then []
    else (if ss[0].Bandwidth? then [ss[0].kbps] else []) + BandwidthSamples(ss[1..])
  }

  function LossSamples(ss: seq<Sample>): (r: seq<real>) {
    if ss == [] then []
    else (if ss[0].Loss? then [Clamp(ss[0].rate)] else []) + LossSamples(ss[1..])
  }

  /** Interleaved measurements never mix: each metric is the average of its own samples. */
  lemma {:induction false} MetricsAreIndependentAverages(m: LinkMetrics, ss: seq<Sample>)
    ensures MeasureAll(m, ss) ==
            LinkMetrics(Ema(m.latencyMs, LatencySamples(ss)),
                        Ema(m.bandwidthKbps, BandwidthSamples(ss)),
                        Ema(m.lossRate, LossSamples(ss)),
                        m.relayCost)
    decreases |ss|
  {
    if ss != [] {
      MetricsAreIndependentAverages(Measure(m, ss[0]), ss[1..]);
      assert forall xs: seq<real> {:trigger [] + xs} :: [] + xs == xs;
      match ss[0]
      case Latency(x) => EmaCons(m.latencyMs, x, LatencySamples(ss[1..]));
      case Bandwidth(x) => EmaCons(m.bandwidthKbps, x, BandwidthSamples(ss[1..]));
      case Loss(x) => EmaCons(m.lossRate, Clamp(x), LossSamples(ss[1..]));
    }
  }

  lemma EmaCons(v: real, x: real, xs: seq<real>)
    ensures Ema(v, [x] + xs) == Ema(Smooth(v, x), xs)
  {
    assert ([x] + xs)[1..] == xs;
  }

  /** 0.8 to the n */
  function Decay(n: nat): (r: real) {
    if n == 0 then 1.0 else 0.8 * Decay(n - 1)
  }

  /** Every sample weighted by its age. */
  function GeometricSum(xs: seq<real>): (r: real) {
    if xs == [] then 0.0
    else 0.2 * Decay(|xs| - 1) * xs[0] + GeometricSum(xs[1..])
  }

  lemma {:induction false} EmaClosedForm(v: real, xs: seq<real>)
    ensures Ema(v, xs) == Decay(|xs|) * v + GeometricSum(xs)
    decreases |xs|
  {
    if xs != [] {
      var d := Decay(|xs| - 1);
      EmaClosedForm(Smooth(v, xs[0]), xs[1..]);
      assert d * (0.2 * xs[0] + 0.8 * v) == 0.2 * d * xs[0] + 0.8 * d * v;
    }
  }

  /** The average never leaves the interval spanned by its start and its samples. */
  lemma {:induction false} EmaStaysInHull(v: real, xs: seq<real>, lo: real, hi: real)
    requires lo <= v <= hi && forall x | x in xs :: lo <= x <= hi
    ensures lo <= Ema(v, xs) <= hi
    decreases |xs|
  {
    if xs != [] {
      assert xs[0] in xs && forall x | x in xs[1..] :: x in xs;
      EmaStaysInHull(Smooth(v, xs[0]), xs[1..], lo, hi);
    }
  }

  /** Two averages fed the same samples draw together by exactly 0.8 per sample. */
  lemma EmaForgetsItsStart(v: real, v': real, xs: seq<real>)
    ensures Ema(v, xs) - Ema(v', xs) == Decay(|xs|) * (v - v')
  {
    EmaClosedForm(v, xs);
    EmaClosedForm(v', xs);
    assert Decay(|xs|) * v - Decay(|xs|) * v' == Decay(|xs|) * (v - v');
  }

  /** Under constant input the error shrinks by exactly 0.8 per sample. */
  lemma {:induction false} EmaConvergesToConstantInput(v: real, c: real, xs: seq<real>)
    requires forall x | x in xs :: x == c
    ensures Ema(v, xs) - c == Decay(|xs|) * (v - c)
  {
    EmaStaysInHull(c, xs, c, c);
    EmaForgetsItsStart(v, c, xs);
  }
}
