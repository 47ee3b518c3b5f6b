/** The composite score of a submission, over the reals. */
module Scoring {

  datatype Metrics = Metrics(p50: int, p90: int, p99: int, tps: real, correctness: real)

  /** A `bot.metrics` event, as far as scoring and listing use it. */
  datatype Event = Event(
    submission: string, team: string, m: Metrics, ordersSent: int, rejects: int, durationMs: int, at: string)

  /** The platform ceilings; the ingester refuses a latency ceiling that is not positive. */
  datatype Ceilings = Ceilings(latency: real, tps: real)

  function Clamp(x: real): (r: real)
    ensures 0.0 <= r <= 1.0
    ensures 0.0 <= x <= 1.0 ==> r == x
  {
    if x < 0.0 then 0.0 else if x > 1.0 then 1.0 else x
  }

  function Weighted(m: Metrics): real {
    m.p50 as real * 0.2 + m.p90 as real * 0.3 + m.p99 as real * 0.5
  }

  /** The throughput ceiling is not checked: zero over zero is no number, anything else
      over a zero ceiling is infinite and is clamped. */
  predicate Scorable(c: Ceilings, m: Metrics) { c.latency > 0.0 && (c.tps != 0.0 || m.tps != 0.0) }

  function Throughput(tps: real, ceiling: real): (r: real)
    requires ceiling != 0.0 || tps != 0.0
    ensures 0.0 <= r <= 1.0
  {
    if ceiling != 0.0 then Clamp(tps / ceiling) else if tps > 0.0 then 1.0 else 0.0
  }

  function ComputeScore(c: Ceilings, m: Metrics): real
    requires Scorable(c, m)
  {
    Clamp(1.0 - Weighted(m) / c.latency) * 0.35 + Throughput(m.tps, c.tps) * 0.35 + Clamp(m.correctness) * 0.30
  }

  /** At least as good on every metric. */
  predicate AtLeastAsGood(a: Metrics, b: Metrics) {
    a.p50 <= b.p50 && a.p90 <= b.p90 && a.p99 <= b.p99 && a.tps >= b.tps && a.correctness >= b.correctness
  }

  lemma DivideMonotone(x: real, y: real, d: real)
    requires x <= y && d > 0.0
    ensures x / d <= y / d
  {
  }

  lemma ScoreInUnit(c: Ceilings, m: Metrics)
    requires Scorable(c, m)
    ensures 0.0 <= ComputeScore(c, m) <= 1.0
  {
  }

  /** The score never rises with a latency percentile and never falls with throughput or
      correctness, even when several metrics move together. */
  lemma ScoreMonotone(c: Ceilings, a: Metrics, b: Metrics)
    requires Scorable(c, a) && Scorable(c, b) && c.tps >= 0.0 && AtLeastAsGood(a, b)
    ensures ComputeScore(c, a) >= ComputeScore(c, b)
  {
    assert Weighted(a) <= Weighted(b);
    DivideMonotone(Weighted(a), Weighted(b), c.latency);
    if c.tps > 0.0 {
      DivideMonotone(b.tps, a.tps, c.tps);
    }
    hide Weighted;
    assert Clamp(1.0 - Weighted(a) / c.latency) >= Clamp(1.0 - Weighted(b) / c.latency);
    assert Throughput(a.tps, c.tps) >= Throughput(b.tps, c.tps);
    assert Clamp(a.correctness) >= Clamp(b.correctness);
  }

  /** Under a negative ceiling less throughput can score more. */
  lemma NegativeCeiling(c: Ceilings)
    requires c.latency > 0.0 && c.tps < 0.0
    ensures var a, b := Metrics(0, 0, 0, 0.0, 0.0), Metrics(0, 0, 0, c.tps, 0.0);
            AtLeastAsGood(a, b) && ComputeScore(c, a) < ComputeScore(c, b)
  {
    assert 0.0 / c.tps == 0.0 && c.tps / c.tps == 1.0;
  }

  /** Monotone on all metrics exactly when the unchecked throughput ceiling is not negative. */
  lemma MonotoneExactly(c: Ceilings)
    requires c.latency > 0.0
    ensures (forall a, b :: Scorable(c, a) && Scorable(c, b) && AtLeastAsGood(a, b) ==>
               ComputeScore(c, a) >= ComputeScore(c, b))
        <==> c.tps >= 0.0
  {
    hide ComputeScore, Throughput;
    if c.tps >= 0.0 {
      forall a, b | Scorable(c, a) && Scorable(c, b) && AtLeastAsGood(a, b)
        ensures ComputeScore(c, a) >= ComputeScore(c, b)
      {
        ScoreMonotone(c, a, b);
      }
    } else {
      NegativeCeiling(c);
    }
  }

  /** The throughput share is full: the ceiling is reached on its own side of zero. */
  predicate FullThroughput(tps: real, ceiling: real) {
    if ceiling > 0.0 then tps >= ceiling else if ceiling < 0.0 then tps <= ceiling else tps > 0.0
  }

  lemma ThroughputFull(tps: real, ceiling: real)
    requires ceiling != 0.0 || tps != 0.0
    ensures Throughput(tps, ceiling) == 1.0 <==> FullThroughput(tps, ceiling)
  {
    if ceiling > 0.0 {
      AtLeastOne(tps, ceiling);
    } else if ceiling < 0.0 {
      AtLeastOne(-tps, -ceiling);
      assert tps / ceiling == -tps / -ceiling;
    }
  }

  lemma AtLeastOne(x: real, d: real)
    requires d > 0.0
    ensures x / d >= 1.0 <==> x >= d
  {
    assert d / d == 1.0 && x / d * d == x;
    if x >= d {
      DivideMonotone(d, x, d);
    } else {
      DivideMonotone(x, d, d);
    }
  }

  /** The best score is reached exactly by no weighted latency to speak of, the full
      throughput and full correctness, whatever the ceilings. */
  lemma PerfectScore(c: Ceilings, m: Metrics)
    requires Scorable(c, m)
    ensures ComputeScore(c, m) == 1.0 <==>
            && 0.2 * m.p50 as real + 0.3 * m.p90 as real + 0.5 * m.p99 as real <= 0.0
            && FullThroughput(m.tps, c.tps) && m.correctness >= 1.0
  {
    assert Weighted(m) == 0.2 * m.p50 as real + 0.3 * m.p90 as real + 0.5 * m.p99 as real;
    hide Weighted, Throughput, FullThroughput;
    ThroughputFull(m.tps, c.tps);
    LatencyFull(Weighted(m), c.latency);
  }

  lemma LatencyFull(x: real, d: real)
    requires d > 0.0
    ensures Clamp(1.0 - x / d) == 1.0 <==> x <= 0.0
  {
  }

  lemma LatencyShare(x: real, d: real)
    requires 0.0 <= x <= d && d > 0.0
    ensures Clamp(1.0 - x / d) * d == d - x
  {
    assert x / d * d == x && d / d == 1.0;
    DivideMonotone(0.0, x, d);
    DivideMonotone(x, d, d);
  }

  /** Between the ends the score is linear in the weighted latency, 0.2 of p50, 0.3 of p90
      and 0.5 of p99: the whole latency ceiling is worth 0.35. */
  lemma LinearInLatency(c: Ceilings, a: Metrics, b: Metrics)
    requires Scorable(c, a) && Scorable(c, b) && a.tps == b.tps && a.correctness == b.correctness
    requires 0.0 <= 0.2 * a.p50 as real + 0.3 * a.p90 as real + 0.5 * a.p99 as real <= c.latency
    requires 0.0 <= 0.2 * b.p50 as real + 0.3 * b.p90 as real + 0.5 * b.p99 as real <= c.latency
    ensures (ComputeScore(c, a) - ComputeScore(c, b)) * c.latency
         == 0.35 * (0.2 * (b.p50 - a.p50) as real + 0.3 * (b.p90 - a.p90) as real + 0.5 * (b.p99 - a.p99) as real)
  {
    hide Clamp, Throughput, ComputeScore;
    LatencyShare(Weighted(a), c.latency);
    LatencyShare(Weighted(b), c.latency);
    LatencyGap(c, a, b);
    Scaled(Clamp(1.0 - Weighted(a) / c.latency), Clamp(1.0 - Weighted(b) / c.latency), c.latency);
  }

  lemma LatencyGap(c: Ceilings, a: Metrics, b: Metrics)
    requires Scorable(c, a) && Scorable(c, b) && a.tps == b.tps && a.correctness == b.correctness
    ensures ComputeScore(c, a) - ComputeScore(c, b)
         == (Clamp(1.0 - Weighted(a) / c.latency) - Clamp(1.0 - Weighted(b) / c.latency)) * 0.35
  {
    hide Clamp, Throughput, Weighted;
  }

  lemma Scaled(x: real, y: real, d: real)
    ensures (x - y) * 0.35 * d == 0.35 * (x * d - y * d)
  {
  }

  /** It is linear in throughput up to the ceiling, worth 0.35, and in correctness, worth 0.30. */
  lemma LinearInRates(c: Ceilings, a: Metrics, b: Metrics)
    requires Scorable(c, a) && Scorable(c, b) && c.tps > 0.0
    requires a.p50 == b.p50 && a.p90 == b.p90 && a.p99 == b.p99
    requires 0.0 <= a.tps <= c.tps && 0.0 <= b.tps <= c.tps
    requires 0.0 <= a.correctness <= 1.0 && 0.0 <= b.correctness <= 1.0
    ensures ComputeScore(c, a) - ComputeScore(c, b)
         == 0.35 * (a.tps / c.tps - b.tps / c.tps) + 0.30 * (a.correctness - b.correctness)
  {
    hide Weighted;
    SameLatency(a, b);
    ShareInUnit(a.tps, c.tps);
    ShareInUnit(b.tps, c.tps);
  }

  lemma SameLatency(a: Metrics, b: Metrics)
    requires a.p50 == b.p50 && a.p90 == b.p90 && a.p99 == b.p99
    ensures Weighted(a) == Weighted(b)
  {
  }

  lemma ShareInUnit(x: real, d: real)
    requires 0.0 <= x <= d && d > 0.0
    ensures 0.0 <= x / d <= 1.0
  {
    DivideMonotone(0.0, x, d);
    DivideMonotone(x, d, d);
    assert d / d == 1.0;
  }

  /** At half the latency ceiling, with nothing else to show, the score is half of 0.35; with
      no latency it is 0.35, and at the ceiling or beyond it is 0. */
  lemma LatencyAlone(c: Ceilings, m: Metrics, p: int)
    requires Scorable(c, m) && Throughput(m.tps, c.tps) == 0.0 && m.correctness <= 0.0
    requires m.p50 == m.p90 == m.p99 == p
    ensures 2.0 * p as real == c.latency ==> ComputeScore(c, m) == 0.175
    ensures p <= 0 ==> ComputeScore(c, m) == 0.35
    ensures p as real >= c.latency ==> ComputeScore(c, m) == 0.0
  {
    assert Weighted(m) == p as real;
    hide Weighted, Throughput;
    LatencyFull(p as real, c.latency);
    var x, d := p as real, c.latency;
    if 2.0 * x == d {
      LatencyShare(x, d);
      assert x / d == 0.5;
    } else if x >= d {
      DivideMonotone(d, x, d);
      assert d / d == 1.0;
    }
  }
}
