/**
 The hysteresis throttle on top of the rolling window: engage at once when the windowed
 error rate reaches the threshold, release only after a quiet stretch of RecoverDelay.
 A run is the sequence of recorded outcomes, with a positive non-decreasing clock.
 */
module Backpressure {
  import opened RealFacts
  import opened RollingWindow

  datatype Config = Config(threshold: real, window: int, slow: real, recoverDelay: int, minSamples: int) {
    predicate Normal() {
      threshold > 0.0 && window > 0 && 0.0 < slow < 1.0 && recoverDelay > 0 && minSamples > 0
    }
  }

  function Defaults(c: Config): (d: Config)
    ensures d.Normal() && (c.Normal() ==> d == c)
  {
    Config(if c.threshold <= 0.0 then 0.05 else c.threshold,
           if c.window <= 0 then 30 * SECOND else c.window,
           if c.slow <= 0.0 || c.slow >= 1.0 then 0.5 else c.slow,
           if c.recoverDelay <= 0 then 30 * SECOND else c.recoverDelay,
           if c.minSamples <= 0 then 20 else c.minSamples)
  }

  datatype Throttle = Throttle(multiplier: real, active: bool, belowSince: int, ring: seq<Bucket>)

  datatype Verdict = TooFew | Over | Below

  function Judge(c: Config, succ: nat, fail: nat): Verdict
    requires c.Normal()
  {
    if succ + fail < c.minSamples then TooFew
    else if fail as real / (succ + fail) as real >= c.threshold then Over
    else Below
  }

  function Init(c: Config): Throttle
    requires c.Normal()
  {
    Throttle(1.0, false, 0, Cleared(BucketCount(c.window)))
  }

  function Step(c: Config, t: Throttle, e: Outcome): (r: Throttle)
    requires c.Normal() && |t.ring| > 0
    ensures |r.ring| == |t.ring|
  {
    var t := t.(ring := Touch(t.ring, e.at, e.ok));
    var th := Threshold(c.window, e.at);
    match Judge(c, Tally(t.ring, th, true), Tally(t.ring, th, false))
    case TooFew => t
    case Over => if t.active then t.(belowSince := 0) else t.(belowSince := 0, active := true, multiplier := c.slow)
    case Below =>
      var since := if t.belowSince == 0 then e.at else t.belowSince;
      if t.active && since > 0 && e.at - since >= c.recoverDelay
      then t.(belowSince := since, active := false, multiplier := 1.0)
      else t.(belowSince := since)
  }

  function After(c: Config, h: seq<Outcome>): (t: Throttle)
    requires c.Normal()
    ensures |t.ring| == BucketCount(c.window)
  {
    if h == [] then Init(c) else Step(c, After(c, h[..|h| - 1]), h[|h| - 1])
  }

  // ----- Runs, judged by the whole history -----

  ghost predicate Run(h: seq<Outcome>) {
    Ordered(h) && forall e :: e in h ==> e.at > 0
  }

  /** How record k looks when counting its window over the full history. */
  function VerdictAt(c: Config, h: seq<Outcome>, k: nat): Verdict
    requires c.Normal() && k < |h|
  {
    var seen := h[..k + 1];
    Judge(c, Count(seen, InWindow(c.window, h[k].at, true)), Count(seen, InWindow(c.window, h[k].at, false)))
  }

  /** Record m was below the threshold, and nothing from m on has been at or over it. */
  ghost predicate CalmFrom(c: Config, h: seq<Outcome>, m: nat)
    requires c.Normal()
  {
    m < |h| && VerdictAt(c, h, m) == Below && forall k :: m <= k < |h| ==> VerdictAt(c, h, k) != Over
  }

  lemma {:induction false} RingHoldsHistory(c: Config, h: seq<Outcome>)
    requires c.Normal()
    ensures After(c, h).ring == Replay(BucketCount(c.window), h)
  {
    if h != [] {
      RingHoldsHistory(c, h[..|h| - 1]);
    }
  }

  /** What the controller reads off the ring at a record is what the whole history says. */
  lemma {:induction false} JudgedByHistory(c: Config, h: seq<Outcome>)
    requires c.Normal() && ExactWindow(c.window) && Run(h) && h != []
    ensures var e := h[|h| - 1];
            var ring := Touch(After(c, h[..|h| - 1]).ring, e.at, e.ok);
            var th := Threshold(c.window, e.at);
            Judge(c, Tally(ring, th, true), Tally(ring, th, false)) == VerdictAt(c, h, |h| - 1)
  {
    var e := h[|h| - 1];
    RingHoldsHistory(c, h[..|h| - 1]);
    SpanFits(c.window, e.at);
    TallyExact(c.window, h, e.at);
    assert h[..|h|] == h;
  }

  lemma {:induction false} VerdictOfPrefix(c: Config, h: seq<Outcome>, k: nat)
    requires c.Normal() && k < |h| - 1
    ensures VerdictAt(c, h[..|h| - 1], k) == VerdictAt(c, h, k)
  {
    assert h[..|h| - 1][..k + 1] == h[..k + 1];
  }

  /** belowSince is the time of the earliest record the current calm goes back to, or 0. */
  ghost predicate Remembers(c: Config, h: seq<Outcome>, since: int)
    requires c.Normal()
  {
    && (forall m: nat :: CalmFrom(c, h, m) ==> 0 < since <= h[m].at)
    && (since != 0 ==> exists m: nat :: CalmFrom(c, h, m) && h[m].at == since)
  }

  lemma {:induction false} CalmExtends(c: Config, h: seq<Outcome>, m: nat)
    requires c.Normal() && h != [] && m < |h| - 1
    ensures CalmFrom(c, h, m) <==> CalmFrom(c, h[..|h| - 1], m) && VerdictAt(c, h, |h| - 1) != Over
  {
    var pre := h[..|h| - 1];
    forall k | 0 <= k < |h| - 1 ensures VerdictAt(c, pre, k) == VerdictAt(c, h, k) {
      VerdictOfPrefix(c, h, k);
    }
    if CalmFrom(c, h, m) {
      forall k | m <= k < |pre| ensures VerdictAt(c, pre, k) != Over {
        assert VerdictAt(c, h, k) != Over;
      }
    }
    if CalmFrom(c, pre, m) && VerdictAt(c, h, |h| - 1) != Over {
      forall k | m <= k < |h| ensures VerdictAt(c, h, k) != Over {
        if k < |pre| {
          assert VerdictAt(c, pre, k) != Over;
        }
      }
    }
  }

  lemma {:induction false} RemembersCalm(c: Config, h: seq<Outcome>)
    requires c.Normal() && ExactWindow(c.window) && Run(h)
    ensures Remembers(c, h, After(c, h).belowSince)
  {
    if h != [] {
      var k := |h| - 1;
      var pre := h[..k];
      RemembersCalm(c, pre);
      JudgedByHistory(c, h);
      var was, since := After(c, pre).belowSince, After(c, h).belowSince;
      assert h[k] in h;
      forall m: nat | m < k ensures CalmFrom(c, h, m) <==> CalmFrom(c, pre, m) && VerdictAt(c, h, k) != Over {
        CalmExtends(c, h, m);
      }
      forall m: nat | CalmFrom(c, h, m) ensures 0 < since <= h[m].at {
        if m < k {
          assert CalmFrom(c, pre, m) && pre[m] == h[m];
        } else if was != 0 {
          var w: nat :| CalmFrom(c, pre, w) && pre[w].at == was;
          assert pre[w] == h[w] && h[w] in h;
        }
      }
      if since != 0 {
        if was == 0 {
          assert CalmFrom(c, h, k);
        } else {
          var w: nat :| CalmFrom(c, pre, w) && pre[w].at == was;
          assert CalmFrom(c, h, w) && h[w].at == since;
        }
      }
    }
  }

  // ----- Theorems -----

  /** The multiplier is SlowMultiplier exactly while active, and 1.0 otherwise. */
  lemma {:induction false} MultiplierFollowsActive(c: Config, h: seq<Outcome>)
    requires c.Normal()
    ensures After(c, h).multiplier == if After(c, h).active then c.slow else 1.0
    ensures After(c, h).active <==> After(c, h).multiplier == c.slow
  {
    if h != [] {
      MultiplierFollowsActive(c, h[..|h| - 1]);
    }
  }

  /** The outcomes of one kind in the window of record k, out of the whole history up to it. */
  function Recent(c: Config, h: seq<Outcome>, k: nat, good: bool): nat
    requires c.Normal() && k < |h|
  {
    Count(h[..k + 1], InWindow(c.window, h[k].at, good))
  }

  /** Whether record k comes with enough samples, and with the threshold's share of failures. */
  predicate OverAt(c: Config, h: seq<Outcome>, k: nat)
    requires c.Normal() && k < |h|
  {
    var good, bad := Recent(c, h, k, true), Recent(c, h, k, false);
    good + bad >= c.minSamples && bad as real >= c.threshold * (good + bad) as real
  }

  predicate BelowAt(c: Config, h: seq<Outcome>, k: nat)
    requires c.Normal() && k < |h|
  {
    var good, bad := Recent(c, h, k, true), Recent(c, h, k, false);
    good + bad >= c.minSamples && (bad as real) < c.threshold * (good + bad) as real
  }

  /** The verdict in counts. */
  lemma {:induction false} VerdictMeans(c: Config, h: seq<Outcome>, k: nat)
    requires c.Normal() && k < |h|
    ensures VerdictAt(c, h, k) == Over <==> OverAt(c, h, k)
    ensures VerdictAt(c, h, k) == Below <==> BelowAt(c, h, k)
  {
    var good, bad := Recent(c, h, k, true), Recent(c, h, k, false);
    if good + bad >= c.minSamples {
      QuotientAtLeast(bad as real, (good + bad) as real, c.threshold);
    }
  }

  /** Record m was below the threshold, with enough samples, and no record from m on has been at or over it. */
  ghost predicate Calm(c: Config, h: seq<Outcome>, m: nat)
    requires c.Normal()
  {
    m < |h| && BelowAt(c, h, m) && forall k :: m <= k < |h| ==> !OverAt(c, h, k)
  }

  lemma {:induction false} CalmMeans(c: Config, h: seq<Outcome>, m: nat)
    requires c.Normal()
    ensures CalmFrom(c, h, m) <==> Calm(c, h, m)
  {
    forall k | 0 <= k < |h|
      ensures (VerdictAt(c, h, k) == Over <==> OverAt(c, h, k)) && (VerdictAt(c, h, k) == Below <==> BelowAt(c, h, k))
    {
      VerdictMeans(c, h, k);
    }
  }

  /** Engaged by, and only by, a record at or over the threshold. */
  lemma {:induction false} EngagesExactlyWhen(c: Config, h: seq<Outcome>)
    requires c.Normal() && ExactWindow(c.window) && Run(h) && h != [] && !After(c, h[..|h| - 1]).active
    ensures After(c, h).active <==> OverAt(c, h, |h| - 1)
  {
    JudgedByHistory(c, h);
    VerdictMeans(c, h, |h| - 1);
  }

  /** Released exactly at a below-threshold record that ends a calm of at least RecoverDelay. */
  lemma {:induction false} ReleasesExactlyWhen(c: Config, h: seq<Outcome>)
    requires c.Normal() && ExactWindow(c.window) && Run(h) && h != [] && After(c, h[..|h| - 1]).active
    ensures !After(c, h).active <==>
            && BelowAt(c, h, |h| - 1)
            && exists m: nat :: Calm(c, h, m) && h[|h| - 1].at - h[m].at >= c.recoverDelay
  {
    ReleasedOnVerdicts(c, h);
    VerdictMeans(c, h, |h| - 1);
    forall m: nat
      ensures CalmFrom(c, h, m) <==> Calm(c, h, m)
    {
      CalmMeans(c, h, m);
    }
  }

  lemma {:induction false} ReleasedOnVerdicts(c: Config, h: seq<Outcome>)
    requires c.Normal() && ExactWindow(c.window) && Run(h) && h != [] && After(c, h[..|h| - 1]).active
    ensures !After(c, h).active <==>
            && VerdictAt(c, h, |h| - 1) == Below
            && exists m: nat :: CalmFrom(c, h, m) && h[|h| - 1].at - h[m].at >= c.recoverDelay
  {
    JudgedByHistory(c, h);
    RemembersCalm(c, h);
    if VerdictAt(c, h, |h| - 1) == Below {
      assert CalmFrom(c, h, |h| - 1);
      var since := After(c, h).belowSince;
      var w: nat :| CalmFrom(c, h, w) && h[w].at == since;
      assert !After(c, h).active <==> h[|h| - 1].at - h[w].at >= c.recoverDelay;
    }
  }

  // ----- The imperative controller -----

  class BackpressureController {
    const cfg: Config
    const ring: Ring
    var multiplier: real
    var active: bool
    var belowSince: int

    ghost predicate Valid()
      reads this, ring
    {
      cfg.Normal() && ring.Valid() && ring.window == cfg.window
    }

    ghost function View(): Throttle
      reads this, ring, ring.buckets
    {
      Throttle(multiplier, active, belowSince, ring.View())
    }

    constructor (c: Config)
      ensures Valid() && cfg == Defaults(c) && View() == Init(cfg)
      ensures fresh(ring) && fresh(ring.buckets)
    {
      cfg := Defaults(c);
      ring := new Ring(Defaults(c).window);
      multiplier := 1.0;
      active := false;
      belowSince := 0;
    }

    method Record(now: nat, ok: bool)
      requires Valid()
      modifies this, ring.buckets
      ensures Valid() && View() == Step(cfg, old(View()), Outcome(now, ok))
    {
      ring.TouchBucket(now, ok);
      var succ, fail := ring.TallyWindow(now);
      var total := succ + fail;
      if total < cfg.minSamples {
        return;
      }
      var rate := fail as real / total as real;
      if rate >= cfg.threshold {
        belowSince := 0;
        if !active {
          active := true;
          multiplier := cfg.slow;
        }
        return;
      }
      if belowSince == 0 {
        belowSince := now;
      }
      if active {
        var first := belowSince;
        if first > 0 && now - first >= cfg.recoverDelay {
          active := false;
          multiplier := 1.0;
        }
      }
    }
  }
}
