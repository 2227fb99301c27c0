/**
 The bursty pacer's rate integral: how many events should have been sent after `t` seconds
 when every cycle starts with a burst at `peak` times the target rate and the rest of the
 cycle runs slower to make up for it. Rates and times are reals.
 */
module Bursty {

  import opened RealFacts

  /** The configured target rate, cycle length, burst length and peak multiplier, after defaulting. */
  datatype Pacer = Pacer(tps: real, every: real, duration: real, multiplier: real)

  predicate Configured(p: Pacer) {
    p.every > 0.0 && p.duration > 0.0 && p.multiplier > 0.0
  }

  function Peak(p: Pacer): real {
    p.tps * p.multiplier
  }

  /** What the off-peak rate must be for a cycle's mean to be the target; negative when the burst alone overshoots. */
  function Balance(p: Pacer): real
    requires p.duration < p.every
  {
    (p.tps * p.every - Peak(p) * p.duration) / (p.every - p.duration)
  }

  function OffPeak(p: Pacer): real
    requires p.duration < p.every
  {
    if Balance(p) < 0.0 then 0.0 else Balance(p)
  }

  /** Events sent `r` seconds into a cycle. */
  function InCycle(peak: real, off: real, duration: real, r: real): real {
    if r <= duration then peak * r else peak * duration + off * (r - duration)
  }

  /** Events sent after `n` whole cycles and `r` seconds. */
  function CountAt(peak: real, off: real, duration: real, every: real, n: real, r: real): real {
    n * (peak * duration + off * (every - duration)) + InCycle(peak, off, duration, r)
  }

  function Cycles(every: real, t: real): int
    requires every > 0.0
  {
    (t / every).Floor
  }

  /** How far into its cycle `t` lies. */
  function Rest(every: real, t: real): real
    requires every > 0.0
  {
    t - Cycles(every, t) as real * every
  }

  function Count(p: Pacer, t: real): real
    requires Configured(p)
  {
    if p.tps <= 0.0 then 0.0
    else if p.duration >= p.every then p.tps * p.multiplier * t
    else CountAt(Peak(p), OffPeak(p), p.duration, p.every, Cycles(p.every, t) as real, Rest(p.every, t))
  }

  /** What a steady pacer at the target rate would have sent. */
  function Steady(p: Pacer, t: real): real {
    p.tps * t
  }

  /** What one burst sends beyond the target rate. */
  function Surplus(p: Pacer): real {
    (p.multiplier - 1.0) * p.tps * p.duration
  }

  // ----- Products of reals -----

  lemma {:induction false} Quotient(a: real, b: real)
    requires b > 0.0
    ensures a / b * b == a
    ensures a / b < 0.0 <==> a < 0.0
  {
  }

  lemma {:induction false} QuotientTimes(a: real, b: real, q: real)
    requires b > 0.0 && q == a / b
    ensures q * b == a && (a >= 0.0 ==> q >= 0.0)
  {
    Quotient(a, b);
  }

  // ----- Where t lies in its cycle -----

  lemma {:induction false} Between(q: real, n: real, every: real, t: real, r: real)
    requires every > 0.0 && q * every == t && t == n * every + r
    ensures n <= q < n + 1.0 <==> 0.0 <= r < every
  {
    var d := q - n;
    Distribute(every, q, n);
    assert r == d * every;
    if d < 0.0 {
      ScaleLt(d, 0.0, every);
    } else {
      ScaleLe(0.0, d, every);
      if d < 1.0 {
        ScaleLt(d, 1.0, every);
        assert 0.0 <= r < every;
      } else {
        ScaleLe(1.0, d, every);
      }
    }
  }

  lemma {:induction false} Floors(q: real)
    ensures q.Floor as real <= q < q.Floor as real + 1.0
    ensures q >= 0.0 ==> q.Floor >= 0
  {
  }

  lemma {:induction false} FloorUnique(q: real, n: int)
    requires n as real <= q < n as real + 1.0
    ensures q.Floor == n
  {
  }

  lemma {:induction false} Position(every: real, t: real)
    requires every > 0.0 && t >= 0.0
    ensures Cycles(every, t) >= 0 && 0.0 <= Rest(every, t) < every
  {
    var q := t / every;
    Floors(q);
    QuotientTimes(t, every, q);
    Between(q, q.Floor as real, every, t, Rest(every, t));
  }

  lemma {:induction false} PositionUnique(every: real, t: real, n: int, r: real)
    requires every > 0.0 && t == n as real * every + r && 0.0 <= r < every
    ensures Cycles(every, t) == n && Rest(every, t) == r
  {
    var q := t / every;
    Quotient(t, every);
    QuotientTimes(t, every, q);
    Between(q, n as real, every, t, r);
    FloorUnique(q, n);
  }

  // ----- The rates -----

  lemma {:induction false} Rates(p: Pacer)
    requires Configured(p) && p.tps > 0.0 && p.duration < p.every
    ensures Peak(p) > 0.0 && OffPeak(p) >= 0.0
    ensures OffPeak(p) > Balance(p) <==> p.multiplier * p.duration > p.every
    ensures Peak(p) * p.duration + Balance(p) * (p.every - p.duration) == p.tps * p.every
  {
    Quotient(p.tps * p.every - Peak(p) * p.duration, p.every - p.duration);
    Overshoot(p.tps, p.multiplier * p.duration, p.every);
    Associate(p.tps, p.multiplier, p.duration);
  }

  lemma {:induction false} Overshoot(tps: real, a: real, every: real)
    requires tps > 0.0
    ensures tps * every - tps * a < 0.0 <==> a > every
  {
    Distribute(tps, every, a);
    if a > every {
      assert tps * (a - every) > 0.0;
      Distribute(tps, a, every);
    } else {
      ScaleLe(a, every, tps);
    }
  }

  // ----- The count never goes back -----

  lemma {:induction false} InCycleGrows(peak: real, off: real, duration: real, r: real, s: real)
    requires peak >= 0.0 && off >= 0.0 && duration >= 0.0 && r <= s
    ensures InCycle(peak, off, duration, r) <= InCycle(peak, off, duration, s)
  {
    if s <= duration {
      ScaleLe(r, s, peak);
    } else if r <= duration {
      ScaleLe(r, duration, peak);
      ScaleLe(0.0, s - duration, off);
    } else {
      ScaleLe(r - duration, s - duration, off);
    }
  }

  /** Whole cycles of `total` events each, then `part` of one. */
  lemma {:induction false} CyclesGrow(n: real, m: real, total: real, part: real)
    requires n + 1.0 <= m && 0.0 <= total && part <= total
    ensures n * total + part <= m * total
  {
    ScaleLe(n + 1.0, m, total);
    Distribute(total, n, 1.0);
  }

  lemma {:induction false} QuotientOrder(q: real, w: real, every: real, t: real, u: real)
    requires every > 0.0 && q * every == t && w * every == u && t <= u
    ensures q <= w
  {
    if q > w {
      ScaleLt(w, q, every);
      assert false;
    }
  }

  lemma {:induction false} FloorOrder(q: real, w: real)
    requires q <= w
    ensures q.Floor <= w.Floor
  {
  }

  lemma {:induction false} CycleOrder(every: real, t: real, u: real)
    requires every > 0.0 && 0.0 <= t <= u
    ensures Cycles(every, t) <= Cycles(every, u)
  {
    var q, w := t / every, u / every;
    QuotientTimes(t, every, q);
    QuotientTimes(u, every, w);
    QuotientOrder(q, w, every, t, u);
    FloorOrder(q, w);
  }

  lemma {:induction false} CountAtGrows(peak: real, off: real, duration: real, every: real, n: real, r: real, m: real, s: real)
    requires peak >= 0.0 && off >= 0.0 && 0.0 < duration < every
    requires 0.0 <= r < every && 0.0 <= s < every
    requires (n == m && r <= s) || n + 1.0 <= m
    ensures CountAt(peak, off, duration, every, n, r) <= CountAt(peak, off, duration, every, m, s)
  {
    if n == m {
      InCycleGrows(peak, off, duration, r, s);
    } else {
      var total := InCycle(peak, off, duration, every);
      InCycleGrows(peak, off, duration, r, every);
      InCycleGrows(peak, off, duration, 0.0, r);
      InCycleGrows(peak, off, duration, 0.0, s);
      CyclesGrow(n, m, total, InCycle(peak, off, duration, r));
    }
  }

  lemma {:induction false} PositionGrows(every: real, t: real, u: real)
    requires every > 0.0 && 0.0 <= t <= u
    ensures var n, m := Cycles(every, t) as real, Cycles(every, u) as real;
            (n == m && Rest(every, t) <= Rest(every, u)) || n + 1.0 <= m
  {
    CycleOrder(every, t, u);
  }

  /** Later never means fewer, whatever the configuration. */
  lemma {:induction false} CountNeverFalls(p: Pacer, t: real, u: real)
    requires Configured(p) && 0.0 <= t <= u
    ensures Count(p, t) <= Count(p, u)
  {
    if p.tps > 0.0 {
      if p.duration >= p.every {
        SteadyGrows(p.tps, p.multiplier, t, u);
      } else {
        Rates(p);
        Position(p.every, t);
        Position(p.every, u);
        PositionGrows(p.every, t, u);
        CountAtGrows(Peak(p), OffPeak(p), p.duration, p.every, Cycles(p.every, t) as real, Rest(p.every, t),
                     Cycles(p.every, u) as real, Rest(p.every, u));
      }
    }
  }

  lemma {:induction false} SteadyGrows(tps: real, m: real, t: real, u: real)
    requires tps > 0.0 && m > 0.0 && t <= u
    ensures tps * m * t <= tps * m * u
  {
    ScaleLt(0.0, tps, m);
    ScaleLe(t, u, tps * m);
  }

  // ----- The mean -----

  /** What one whole cycle sends. */
  function CycleTotal(p: Pacer): real
    requires p.duration < p.every
  {
    Peak(p) * p.duration + OffPeak(p) * (p.every - p.duration)
  }

  lemma {:induction false} CycleTotalIff(p: Pacer)
    requires Configured(p) && p.tps > 0.0 && p.duration < p.every
    ensures CycleTotal(p) >= p.tps * p.every
    ensures CycleTotal(p) == p.tps * p.every <==> p.multiplier * p.duration <= p.every
  {
    Rates(p);
    Excess(p.every - p.duration, Peak(p) * p.duration, OffPeak(p), Balance(p), p.tps * p.every);
  }

  lemma {:induction false} Excess(rest: real, burst: real, off: real, balance: real, target: real)
    requires rest > 0.0 && off >= balance && burst + balance * rest == target
    ensures burst + off * rest >= target
    ensures burst + off * rest == target <==> off == balance
  {
    ScaleLe(balance, off, rest);
    if off > balance {
      ScaleLt(balance, off, rest);
    }
  }

  lemma {:induction false} WholeCycles(p: Pacer, k: nat, t: real, count: real, total: real)
    requires Configured(p) && p.tps > 0.0 && p.duration < p.every && t == k as real * p.every
    requires count == Count(p, t) && total == CycleTotal(p)
    ensures count == k as real * total
  {
    PositionUnique(p.every, t, k, 0.0);
  }

  lemma {:induction false} CancelFactor(k: real, a: real, b: real)
    requires k > 0.0 && a >= b
    ensures k * a >= k * b && (k * a == k * b <==> a == b)
  {
    ScaleLe(b, a, k);
    if a > b {
      ScaleLt(b, a, k);
    }
  }

  lemma {:induction false} MeanScalars(k: real, every: real, tps: real, total: real, t: real, count: real, steady: real)
    requires k > 0.0 && count == k * total && t == k * every && steady == tps * t && total >= tps * every
    ensures count >= steady && (count == steady <==> total == tps * every)
  {
    CancelFactor(k, total, tps * every);
    SteadyParts(tps, k, every, 0.0);
  }

  /** A count of `k` cycles of `total` each, beside a steady count over the same time. */
  ghost predicate MeanParts(k: real, every: real, tps: real, total: real, burst: real, t: real, count: real, steady: real) {
    && k > 0.0 && count == k * total && t == k * every && steady == tps * t
    && total >= tps * every && (total == tps * every <==> burst <= every)
  }

  lemma {:induction false} MeanScalarsIff(k: real, every: real, tps: real, total: real, burst: real, t: real, count: real, steady: real)
    requires MeanParts(k, every, tps, total, burst, t, count, steady)
    ensures count >= steady && (count == steady <==> burst <= every)
  {
    MeanScalars(k, every, tps, total, t, count, steady);
  }

  lemma {:induction false} CycleTotalIs(p: Pacer) returns (total: real, burst: real)
    requires Configured(p) && p.tps > 0.0 && p.duration < p.every
    ensures total == CycleTotal(p) && burst == p.multiplier * p.duration
    ensures total >= p.tps * p.every && (total == p.tps * p.every <==> burst <= p.every)
  {
    total, burst := CycleTotal(p), p.multiplier * p.duration;
    CycleTotalIff(p);
  }

  lemma {:induction false} CountParts(p: Pacer, k: nat, t: real, count: real, steady: real) returns (total: real, burst: real)
    requires Configured(p) && p.tps > 0.0 && p.duration < p.every && k > 0 && t == k as real * p.every
    requires count == Count(p, t) && steady == Steady(p, t)
    ensures burst == p.multiplier * p.duration
    ensures MeanParts(k as real, p.every, p.tps, total, burst, t, count, steady)
  {
    total, burst := CycleTotalIs(p);
    WholeCycles(p, k, t, count, total);
  }

  lemma {:induction false} Mean(p: Pacer, k: nat, t: real, count: real, steady: real) returns (burst: real)
    requires Configured(p) && p.tps > 0.0 && p.duration < p.every && k > 0 && t == k as real * p.every
    requires count == Count(p, t) && steady == Steady(p, t)
    ensures burst == p.multiplier * p.duration
    ensures count >= steady && (count == steady <==> burst <= p.every)
  {
    var total;
    total, burst := CountParts(p, k, t, count, steady);
    MeanScalarsIff(k as real, p.every, p.tps, total, burst, t, count, steady);
  }

  /**
   What the configuration must satisfy for the mean to be the target rate: a burst shorter than
   its cycle must not overshoot the cycle; a burst that never ends must be at the target rate.
   With no rate at all nothing is ever sent.
   */
  predicate KeepsMean(p: Pacer) {
    if p.tps <= 0.0 then p.tps == 0.0
    else if p.duration < p.every then p.multiplier * p.duration <= p.every
    else p.multiplier == 1.0
  }

  lemma {:induction false} MeanOfBursts(p: Pacer, k: nat, t: real)
    requires Configured(p) && p.tps > 0.0 && p.duration < p.every && k > 0 && t == k as real * p.every
    ensures Count(p, t) >= Steady(p, t)
    ensures Count(p, t) == Steady(p, t) <==> p.multiplier * p.duration <= p.every
  {
    var count, steady := Count(p, t), Steady(p, t);
    var _ := Mean(p, k, t, count, steady);
  }

  lemma {:induction false} SteadyMultiple(tps: real, m: real, t: real)
    requires tps > 0.0 && t > 0.0
    ensures tps * m * t == tps * t <==> m == 1.0
  {
    var rate := tps * t;
    ScaleLt(0.0, t, tps);
    assert tps * m * t == m * rate;
    if m < 1.0 {
      ScaleLt(m, 1.0, rate);
    } else if m > 1.0 {
      ScaleLt(1.0, m, rate);
    }
    assert 1.0 * rate == rate;
  }

  lemma {:induction false} EndlessBurst(p: Pacer, t: real)
    requires Configured(p) && p.tps > 0.0 && p.duration >= p.every && t > 0.0
    ensures Count(p, t) == p.tps * p.multiplier * t && (Count(p, t) == Steady(p, t) <==> p.multiplier == 1.0)
  {
    SteadyMultiple(p.tps, p.multiplier, t);
  }

  lemma {:induction false} NothingSent(tps: real, t: real)
    requires tps <= 0.0 && t > 0.0
    ensures 0.0 == tps * t <==> tps == 0.0
  {
    if tps < 0.0 {
      ScaleLt(tps, 0.0, t);
    }
  }

  /** For every configuration, the count after whole cycles is the target rate times the time exactly when KeepsMean holds. */
  lemma {:induction false} MeanExactIff(p: Pacer, k: nat, t: real)
    requires Configured(p) && k > 0 && t == k as real * p.every
    ensures Count(p, t) == Steady(p, t) <==> KeepsMean(p)
  {
    ScaleLt(0.0, k as real, p.every);
    if p.tps <= 0.0 {
      NothingSent(p.tps, t);
    } else if p.duration < p.every {
      MeanOfBursts(p, k, t);
    } else {
      EndlessBurst(p, t);
    }
  }

  // ----- The shape of a cycle -----

  lemma {:induction false} OffPeakRate(p: Pacer) returns (off: real)
    requires Configured(p) && p.tps > 0.0 && p.duration < p.every
    ensures off == OffPeak(p) >= 0.0
    ensures p.multiplier * p.duration <= p.every ==> p.tps * p.multiplier * p.duration + off * (p.every - p.duration) == p.tps * p.every
    ensures p.multiplier * p.duration > p.every ==> off == 0.0
  {
    off := OffPeak(p);
    Rates(p);
  }

  lemma {:induction false} WithinCycle(p: Pacer, k: nat, start: real, r: real, off: real)
    requires Configured(p) && p.tps > 0.0 && p.duration < p.every && 0.0 <= r < p.every
    requires start == k as real * p.every && off == OffPeak(p)
    ensures Count(p, start + r) == Count(p, start) + InCycle(p.tps * p.multiplier, off, p.duration, r)
  {
    PositionUnique(p.every, start + r, k, r);
    PositionUnique(p.every, start, k, 0.0);
  }

  /** After any number of whole cycles comes a burst at the given multiple of the target rate. */
  lemma {:induction false} BurstRate(p: Pacer, k: nat, start: real, r: real)
    requires Configured(p) && p.tps > 0.0 && 0.0 <= r <= p.duration < p.every && start == k as real * p.every
    ensures Count(p, start + r) == Count(p, start) + p.tps * p.multiplier * r
  {
    WithinCycle(p, k, start, r, OffPeak(p));
  }

  /** Then comes one steady slower rate: the one that brings the cycle back to the target, or none at all when the burst alone exceeds the cycle's share. */
  lemma {:induction false} RestRate(p: Pacer, k: nat, start: real, r: real) returns (off: real)
    requires Configured(p) && p.tps > 0.0 && p.duration <= r < p.every && start == k as real * p.every
    ensures Count(p, start + r) == Count(p, start + p.duration) + off * (r - p.duration)
    ensures p.multiplier * p.duration <= p.every ==> p.tps * p.multiplier * p.duration + off * (p.every - p.duration) == p.tps * p.every
    ensures p.multiplier * p.duration > p.every ==> off == 0.0
  {
    off := OffPeakRate(p);
    AfterBurst(p, k, start, r, off);
  }

  lemma {:induction false} InCycleRest(peak: real, off: real, duration: real, r: real)
    requires r >= duration
    ensures InCycle(peak, off, duration, r) == InCycle(peak, off, duration, duration) + off * (r - duration)
  {
    if r == duration {
      assert off * 0.0 == 0.0;
    }
  }

  lemma {:induction false} AfterBurst(p: Pacer, k: nat, start: real, r: real, off: real)
    requires Configured(p) && p.tps > 0.0 && p.duration <= r < p.every && start == k as real * p.every && off == OffPeak(p)
    ensures Count(p, start + r) == Count(p, start + p.duration) + off * (r - p.duration)
  {
    var burst := CountInto(p, k, start, p.duration, off);
    var part := CountInto(p, k, start, r, off);
    InCycleRest(p.tps * p.multiplier, off, p.duration, r);
  }

  lemma {:induction false} CountInto(p: Pacer, k: nat, start: real, r: real, off: real) returns (part: real)
    requires Configured(p) && p.tps > 0.0 && 0.0 <= r < p.every && p.duration < p.every && start == k as real * p.every && off == OffPeak(p)
    ensures part == InCycle(p.tps * p.multiplier, off, p.duration, r) && Count(p, start + r) == Count(p, start) + part
  {
    part := InCycle(p.tps * p.multiplier, off, p.duration, r);
    WithinCycle(p, k, start, r, off);
  }

  // ----- The deviation from a steady rate -----

  /** Ahead of the steady rate by `r` seconds of the surplus rate during the burst, then less and less until the cycle ends. */
  lemma {:induction false} AheadInCycle(tps: real, m: real, off: real, duration: real, every: real, r: real)
    requires tps > 0.0 && m >= 1.0 && 0.0 < duration < every && 0.0 <= r < every
    requires tps * m * duration + off * (every - duration) == tps * every
    ensures 0.0 <= InCycle(tps * m, off, duration, r) - tps * r <= (m - 1.0) * tps * duration
  {
    var surplus := (m - 1.0) * tps;
    assert surplus >= 0.0;
    assert tps * m == tps + surplus;
    Distribute(duration, tps, surplus);
    if r <= duration {
      Distribute(r, tps, surplus);
      ScaleLe(0.0, r, surplus);
      ScaleLe(r, duration, surplus);
    } else {
      var lag := tps - off;
      Distribute(every - duration, tps, off);
      Distribute(tps, every, duration);
      assert lag * (every - duration) == surplus * duration;
      ScaleLe(0.0, duration, surplus);
      NonNegativeFactor(lag, every - duration);
      ScaleLe(0.0, every - r, lag);
      ScaleLe(every - r, every - duration, lag);
      CatchUp(tps, off, duration, every, r);
    }
  }

  lemma {:induction false} CatchUp(tps: real, off: real, duration: real, every: real, r: real)
    ensures tps * every - off * (every - duration) + off * (r - duration) - tps * r == (tps - off) * (every - r)
  {
    Distribute(every - r, tps, off);
    Distribute(tps, every, r);
    Distribute(off, every, duration);
    Distribute(off, r, duration);
    Distribute(off, every, r);
  }

  /** `n` cycles and `r` seconds of an unclamped pacer, beside a steady one. */
  ghost predicate AheadParts(tps: real, m: real, off: real, duration: real, every: real, n: real, r: real,
                             t: real, count: real, steady: real, surplus: real) {
    && tps > 0.0 && m >= 1.0 && 0.0 < duration < every && 0.0 <= r < every && t == n * every + r
    && tps * m * duration + off * (every - duration) == tps * every
    && count == CountAt(tps * m, off, duration, every, n, r)
    && steady == tps * t && surplus == (m - 1.0) * tps * duration
  }

  lemma {:induction false} AheadAt(tps: real, m: real, off: real, duration: real, every: real, n: real, r: real,
                                   t: real, count: real, steady: real, surplus: real)
    requires AheadParts(tps, m, off, duration, every, n, r, t, count, steady, surplus)
    ensures 0.0 <= count - steady <= surplus
  {
    AheadInCycle(tps, m, off, duration, every, r);
    SteadyParts(tps, n, every, r);
  }

  lemma {:induction false} SteadyParts(tps: real, n: real, every: real, r: real)
    ensures tps * (n * every + r) == n * (tps * every) + tps * r
  {
    Distribute(tps, n * every, r);
  }

  lemma {:induction false} Unclamped(p: Pacer) returns (off: real)
    requires Configured(p) && p.tps > 0.0 && p.multiplier * p.duration <= p.every && p.duration < p.every
    ensures off == OffPeak(p) && p.tps * p.multiplier * p.duration + off * (p.every - p.duration) == p.tps * p.every
  {
    off := OffPeak(p);
    CycleTotalIff(p);
  }

  lemma {:induction false} Place(every: real, t: real) returns (n: real, r: real)
    requires every > 0.0 && t >= 0.0
    ensures n == Cycles(every, t) as real && r == Rest(every, t) && t == n * every + r && 0.0 <= r < every
  {
    Position(every, t);
    n, r := Cycles(every, t) as real, Rest(every, t);
  }

  lemma {:induction false} CountIs(p: Pacer, t: real, count: real) returns (off: real, n: real, r: real)
    requires Configured(p) && p.tps > 0.0 && p.duration < p.every && t >= 0.0 && count == Count(p, t)
    ensures off == OffPeak(p) && t == n * p.every + r && 0.0 <= r < p.every
    ensures count == CountAt(p.tps * p.multiplier, off, p.duration, p.every, n, r)
  {
    n, r := Place(p.every, t);
    off := OffPeak(p);
  }

  lemma {:induction false} Parts(p: Pacer, t: real, count: real, steady: real, surplus: real) returns (off: real, n: real, r: real)
    requires Configured(p) && p.tps > 0.0 && p.multiplier >= 1.0 && p.multiplier * p.duration <= p.every
    requires p.duration < p.every && t >= 0.0
    requires count == Count(p, t) && steady == Steady(p, t) && surplus == Surplus(p)
    ensures AheadParts(p.tps, p.multiplier, off, p.duration, p.every, n, r, t, count, steady, surplus)
  {
    off, n, r := CountIs(p, t, count);
    var _ := Unclamped(p);
  }

  lemma {:induction false} Ahead(p: Pacer, t: real, count: real, steady: real, surplus: real)
    requires Configured(p) && p.tps > 0.0 && p.multiplier >= 1.0 && p.multiplier * p.duration <= p.every
    requires p.duration < p.every && t >= 0.0
    requires count == Count(p, t) && steady == Steady(p, t) && surplus == Surplus(p)
    ensures 0.0 <= count - steady <= surplus
  {
    var off, n, r := Parts(p, t, count, steady, surplus);
    AheadAt(p.tps, p.multiplier, off, p.duration, p.every, n, r, t, count, steady, surplus);
  }

  /** The pacer is never behind a steady rate and never further ahead than one burst's surplus, however long it runs. */
  lemma {:induction false} AheadByAtMostOneBurst(p: Pacer, t: real)
    requires Configured(p) && p.tps > 0.0 && p.multiplier >= 1.0 && p.multiplier * p.duration <= p.every
    requires p.duration < p.every && t >= 0.0
    ensures 0.0 <= Count(p, t) - Steady(p, t) <= Surplus(p)
  {
    Ahead(p, t, Count(p, t), Steady(p, t), Surplus(p));
  }

  /** So the ideal time of the k-th event never drifts: it is at most (multiplier - 1) bursts before k / tps, and never after. */
  lemma {:induction false} TicksNeverDrift(p: Pacer, t: real, k: nat)
    requires Configured(p) && p.tps > 0.0 && p.multiplier >= 1.0 && p.multiplier * p.duration <= p.every
    requires p.duration < p.every && t >= 0.0 && Count(p, t) == k as real
    ensures k as real / p.tps - (p.multiplier - 1.0) * p.duration <= t <= k as real / p.tps
  {
    AheadByAtMostOneBurst(p, t);
    Quotient(k as real, p.tps);
    var q := k as real / p.tps;
    Distribute(p.tps, q, t);
    NonNegativeFactor(q - t, p.tps);
    var slack := (p.multiplier - 1.0) * p.duration;
    assert (p.multiplier - 1.0) * p.tps * p.duration == slack * p.tps;
    Distribute(p.tps, slack, q - t);
    NonNegativeFactor(slack - (q - t), p.tps);
  }
}
