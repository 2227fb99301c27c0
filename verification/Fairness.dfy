/**
 The tenant fairness gate: per-tenant counters with integer half-life decay and a soft
 share cap. A run is any sequence of Allow calls by a fixed list of n distinct tenants.
 */
module Fairness {

  import opened RealFacts

  const SECOND: int := 1_000_000_000
  const MIN_TOTAL: nat := 32

  datatype Config = Config(window: int, minShare: real) {
    predicate Normal() {
      window > 0 && 0.0 < minShare <= 1.0
    }
  }

  function Defaults(c: Config): (d: Config)
    ensures d.Normal() && (c.Normal() ==> d == c)
  {
    Config(if c.window <= 0 then 60 * SECOND else c.window,
           if c.minShare <= 0.0 then 0.5 else if c.minShare > 1.0 then 1.0 else c.minShare)
  }

  datatype Gate = Gate(total: nat, counts: map<string, nat>, windowStart: int)

  datatype Call = Call(tenant: string, now: int)

  function Get(counts: map<string, nat>, t: string): nat {
    if t in counts then counts[t] else 0
  }

  function Cap(c: Config, n: int): (cap: real)
    requires c.Normal() && n > 0
    ensures cap > 0.0
  {
    1.0 / n as real * (1.0 / c.minShare) * 2.0
  }

  function Halved(counts: map<string, nat>): map<string, nat> {
    map k | k in counts && counts[k] / 2 != 0 :: counts[k] / 2
  }

  function Rolled(c: Config, g: Gate, now: int): Gate {
    if now - g.windowStart < c.window then g else Gate(g.total / 2, Halved(g.counts), now)
  }

  /** The gate, already rolled, turns the tenant away. */
  predicate OverShare(c: Config, g: Gate, n: int, tenant: string)
    requires c.Normal() && n > 0
  {
    g.total >= MIN_TOTAL && Get(g.counts, tenant) as real / g.total as real > Cap(c, n)
  }

  predicate Allows(c: Config, g: Gate, n: int, call: Call)
    requires c.Normal()
  {
    n <= 1 || !OverShare(c, Rolled(c, g, call.now), n, call.tenant)
  }

  function Step(c: Config, g: Gate, n: int, call: Call): Gate
    requires c.Normal()
  {
    if n <= 1 then g
    else
      var g := Rolled(c, g, call.now);
      if OverShare(c, g, n, call.tenant) then g
      else g.(total := g.total + 1, counts := g.counts[call.tenant := Get(g.counts, call.tenant) + 1])
  }

  function After(c: Config, n: int, start: int, calls: seq<Call>): Gate
    requires c.Normal()
  {
    if calls == [] then Gate(0, map[], start)
    else Step(c, After(c, n, start, calls[..|calls| - 1]), n, calls[|calls| - 1])
  }

  function Seen(calls: seq<Call>): set<string> {
    set x | x in calls :: x.tenant
  }

  // ----- Sums and counts over the fixed tenant list -----

  ghost predicate Distinct(ts: seq<string>) {
    forall i, j :: 0 <= i < j < |ts| ==> ts[i] != ts[j]
  }

  function Sum(ts: seq<string>, counts: map<string, nat>): nat {
    if ts == [] then 0 else Get(counts, ts[0]) + Sum(ts[1..], counts)
  }

  function CountIn(ts: seq<string>, s: set<string>): nat {
    if ts == [] then 0 else (if ts[0] in s then 1 else 0) + CountIn(ts[1..], s)
  }

  lemma {:induction false} CountInSame(ts: seq<string>, s: set<string>, s': set<string>)
    requires forall t :: t in ts ==> (t in s <==> t in s')
    ensures CountIn(ts, s) == CountIn(ts, s')
  {
    if ts != [] {
      CountInSame(ts[1..], s, s');
    }
  }

  lemma {:induction false} CountInIsSize(ts: seq<string>, s: set<string>)
    requires Distinct(ts) && forall t :: t in s ==> t in ts
    ensures CountIn(ts, s) == |s|
  {
    if ts == [] {
      assert s == {};
    } else {
      var s' := s - {ts[0]};
      CountInSame(ts[1..], s, s');
      CountInIsSize(ts[1..], s');
    }
  }

  lemma {:induction false} SumUnchanged(ts: seq<string>, a: map<string, nat>, b: map<string, nat>)
    requires forall t :: t in ts ==> Get(a, t) == Get(b, t)
    ensures Sum(ts, a) == Sum(ts, b)
  {
    if ts != [] {
      SumUnchanged(ts[1..], a, b);
    }
  }

  lemma {:induction false} SumBumped(ts: seq<string>, counts: map<string, nat>, t: string)
    requires Distinct(ts) && t in ts
    ensures Sum(ts, counts[t := Get(counts, t) + 1]) == Sum(ts, counts) + 1
  {
    var more := counts[t := Get(counts, t) + 1];
    if ts[0] == t {
      SumUnchanged(ts[1..], counts, more);
    } else {
      SumBumped(ts[1..], counts, t);
    }
  }

  lemma {:induction false} TermBelowSum(ts: seq<string>, counts: map<string, nat>, t: string)
    requires t in ts
    ensures Get(counts, t) <= Sum(ts, counts)
  {
    if ts[0] != t {
      TermBelowSum(ts[1..], counts, t);
    }
  }

  /** Halving loses at most one half per tenant that has a counter. */
  lemma {:induction false} SumHalved(ts: seq<string>, counts: map<string, nat>, seen: set<string>)
    requires counts.Keys <= seen
    ensures 2 * Sum(ts, Halved(counts)) <= Sum(ts, counts) <= 2 * Sum(ts, Halved(counts)) + CountIn(ts, seen)
  {
    if ts != [] {
      SumHalved(ts[1..], counts, seen);
      assert Get(Halved(counts), ts[0]) == Get(counts, ts[0]) / 2;
    }
  }

  // ----- What every run keeps -----

  ghost predicate Accounted(ts: seq<string>, g: Gate, seen: set<string>) {
    && g.counts.Keys <= seen
    && Sum(ts, g.counts) <= g.total <= Sum(ts, g.counts) + CountIn(ts, seen)
  }

  /** At most 32, or at most one more than 2 / k of the total. */
  predicate UnderCap(k: real, count: nat, total: nat) {
    count <= 32 || count as real * k <= 2.0 * total as real + k
  }

  ghost predicate Capped(k: real, g: Gate) {
    forall t :: t in g.counts ==> UnderCap(k, g.counts[t], g.total)
  }

  /** The share test, cleared of its division. */
  lemma {:induction false} ShareAboveIff(count: real, total: real, cap: real)
    requires total > 0.0
    ensures count / total > cap <==> count > cap * total
  {
    var share := count / total;
    assert share * total == count;
    if share > cap {
      ScaleLt(cap, share, total);
    } else {
      ScaleLe(share, cap, total);
    }
  }

  lemma {:induction false} RollKeepsAccount(c: Config, ts: seq<string>, g: Gate, seen: set<string>, now: int)
    requires Accounted(ts, g, seen)
    ensures Accounted(ts, Rolled(c, g, now), seen)
  {
    SumHalved(ts, g.counts, seen);
  }

  /** Halving one counter and the total, when the halved counter fits in the halved total. */
  lemma {:induction false} HalfUnderCap(k: real, count: nat, total: nat)
    requires k > 0.0 && UnderCap(k, count, total) && count / 2 <= total / 2
    ensures UnderCap(k, count / 2, total / 2)
  {
    if count / 2 > 32 {
      assert 2 * (count / 2) <= count && total <= 2 * (total / 2) + 1;
      HalfInReals(k, count as real, total as real, (count / 2) as real, (total / 2) as real);
    }
  }

  lemma {:induction false} HalfInReals(k: real, count: real, total: real, h: real, w: real)
    requires k > 0.0 && count * k <= 2.0 * total + k && h <= w && w >= 0.0
    requires 2.0 * h <= count && total <= 2.0 * w + 1.0
    ensures h * k <= 2.0 * w + k
  {
    if k >= 2.0 {
      var p := h * k;
      ScaleLe(h + h, count, k);
      Distribute(k, h, h);
      assert p + p <= count * k;
    } else {
      SmallFactor(k, h, w);
    }
  }

  lemma {:induction false} SmallFactor(k: real, h: real, w: real)
    requires 0.0 < k <= 2.0 && h <= w && w >= 0.0
    ensures h * k <= 2.0 * w
  {
    ScaleLe(h, w, k);
    ScaleLe(k, 2.0, w);
  }

  lemma {:induction false} RollKeepsCap(c: Config, ts: seq<string>, k: real, g: Gate, seen: set<string>, now: int)
    requires k > 0.0 && Accounted(ts, g, seen) && Capped(k, g)
    requires forall t :: t in g.counts ==> t in ts
    ensures Capped(k, Rolled(c, g, now))
  {
    RollKeepsAccount(c, ts, g, seen, now);
    var r := Rolled(c, g, now);
    if now - g.windowStart >= c.window {
      forall t | t in r.counts ensures UnderCap(k, r.counts[t], r.total) {
        TermBelowSum(ts, r.counts, t);
        HalfUnderCap(k, g.counts[t], g.total);
      }
    }
  }

  lemma {:induction false} GrownUnderCap(k: real, count: nat, total: nat)
    requires UnderCap(k, count, total)
    ensures UnderCap(k, count, total + 1)
  {
  }

  lemma {:induction false} AdmittedUnderCap(k: real, count: nat, total: nat)
    requires k > 0.0 && count <= total && (total < 32 || count as real * k <= 2.0 * total as real)
    ensures UnderCap(k, count + 1, total + 1)
  {
    if total >= 32 {
      Distribute(k, count as real, 1.0);
    }
  }

  /** The tenant may still send. */
  predicate Light(k: real, g: Gate, tenant: string) {
    g.total < 32 || Get(g.counts, tenant) as real * k <= 2.0 * g.total as real
  }

  lemma {:induction false} AdmitKeepsCap(k: real, g: Gate, tenant: string)
    requires k > 0.0 && Capped(k, g) && Get(g.counts, tenant) <= g.total
    requires Light(k, g, tenant)
    ensures Capped(k, g.(total := g.total + 1, counts := g.counts[tenant := Get(g.counts, tenant) + 1]))
  {
    AdmittedUnderCap(k, Get(g.counts, tenant), g.total);
    forall t | t in g.counts ensures UnderCap(k, g.counts[t], g.total + 1) {
      GrownUnderCap(k, g.counts[t], g.total);
    }
  }

  /**
   Over every run: the counters sum to the total up to one unit per tenant seen, and no
   counter exceeds both 32 and one more than (1/n) * (1/MinShare) * 2 of the total, across
   admissions and halvings alike.
   */
  lemma {:induction false} RunKeepsAccountAndCap(c: Config, ts: seq<string>, start: int, calls: seq<Call>, k: real)
    requires c.Normal() && |ts| > 1 && Distinct(ts) && forall x :: x in calls ==> x.tenant in ts
    requires k == |ts| as real * c.minShare
    ensures var g := After(c, |ts|, start, calls);
            && Accounted(ts, g, Seen(calls))
            && forall t :: t in g.counts ==> UnderCap(k, g.counts[t], g.total)
  {
    if calls == [] {
      SumEmpty(ts);
    } else {
      var pre, call := calls[..|calls| - 1], calls[|calls| - 1];
      assert calls == pre + [call];
      RunKeepsAccountAndCap(c, ts, start, pre, k);
      var g0 := After(c, |ts|, start, pre);
      forall t | t in g0.counts ensures t in ts {
        var x :| x in pre && x.tenant == t;
        assert x in calls;
      }
      assert call in calls;
      StepKeepsAccount(c, ts, g0, Seen(pre), call);
      StepKeepsCap(c, ts, g0, Seen(pre), call, k);
      assert Seen(calls) == Seen(pre) + {call.tenant};
    }
  }

  lemma {:induction false} StepKeepsAccount(c: Config, ts: seq<string>, g0: Gate, seen: set<string>, call: Call)
    requires c.Normal() && |ts| > 1 && Distinct(ts) && call.tenant in ts && Accounted(ts, g0, seen)
    ensures Accounted(ts, Step(c, g0, |ts|, call), seen + {call.tenant})
  {
    var g := Rolled(c, g0, call.now);
    RollKeepsAccount(c, ts, g0, seen, call.now);
    CountInGrows(ts, seen, seen + {call.tenant});
    SumBumped(ts, g.counts, call.tenant);
  }

  lemma {:induction false} StepKeepsCap(c: Config, ts: seq<string>, g0: Gate, seen: set<string>, call: Call, k: real)
    requires c.Normal() && |ts| > 1 && call.tenant in ts && k == |ts| as real * c.minShare
    requires Accounted(ts, g0, seen) && Capped(k, g0) && forall t :: t in g0.counts ==> t in ts
    ensures Capped(k, Step(c, g0, |ts|, call))
  {
    var g := Rolled(c, g0, call.now);
    PositiveShare(c, |ts|);
    RollKeepsAccount(c, ts, g0, seen, call.now);
    RollKeepsCap(c, ts, k, g0, seen, call.now);
    TermBelowSum(ts, g.counts, call.tenant);
    if Allows(c, g0, |ts|, call) {
      AllowedIsLight(c, g0, |ts|, call, k);
      AdmitKeepsCap(k, g, call.tenant);
    }
  }

  lemma {:induction false} AllowedIsLight(c: Config, g: Gate, n: nat, call: Call, k: real)
    requires c.Normal() && n > 1 && Allows(c, g, n, call) && k == n as real * c.minShare
    ensures Light(k, Rolled(c, g, call.now), call.tenant)
  {
    DeferredExactlyWhen(c, g, n, call);
  }

  lemma {:induction false} PositiveShare(c: Config, n: nat)
    requires c.Normal() && n > 0
    ensures n as real * c.minShare > 0.0
  {
    ScaleLt(0.0, n as real, c.minShare);
  }

  lemma {:induction false} SumEmpty(ts: seq<string>)
    ensures Sum(ts, map[]) == 0
  {
    if ts != [] {
      SumEmpty(ts[1..]);
    }
  }

  lemma {:induction false} CountInGrows(ts: seq<string>, s: set<string>, s': set<string>)
    requires s <= s'
    ensures CountIn(ts, s) <= CountIn(ts, s')
  {
    if ts != [] {
      CountInGrows(ts[1..], s, s');
    }
  }

  /** The cap, cleared of its divisions. */
  lemma {:induction false} CapIs(c: Config, n: nat) returns (cap: real)
    requires c.Normal() && n > 0
    ensures cap == Cap(c, n) && cap * (n as real * c.minShare) == 2.0 && n as real * c.minShare > 0.0
    ensures cap * n as real >= 2.0
  {
    cap := Cap(c, n);
    CapProduct(n as real, c.minShare, 1.0 / n as real, 1.0 / c.minShare);
    AtLeastTwo(cap, n as real, c.minShare);
  }

  lemma {:induction false} CapProduct(n: real, m: real, u: real, v: real)
    requires n > 0.0 && m > 0.0 && u * n == 1.0 && v * m == 1.0
    ensures u * v * 2.0 * (n * m) == 2.0 && n * m > 0.0
  {
    assert (u * n) * (v * m) == u * v * (n * m);
    ScaleLt(0.0, n, m);
  }

  lemma {:induction false} AtLeastTwo(cap: real, n: real, m: real)
    requires cap > 0.0 && n > 0.0 && 0.0 < m <= 1.0 && cap * (n * m) == 2.0
    ensures cap * n >= 2.0
  {
    Associate(cap, n, m);
    ScaleLt(0.0, cap, n);
    ScaleLe(m, 1.0, cap * n);
  }

  lemma {:induction false} OverCapIff(cap: real, k: real, count: real, total: real)
    requires k > 0.0 && cap * k == 2.0
    ensures count > cap * total <==> count * k > 2.0 * total
  {
    SameOrder(count, cap * total, k);
    Associate(total, cap, k);
  }

  // ----- What one call does, in plain numbers -----

  /** A tenant is turned away exactly when, after the roll, at least 32 events are counted and its share exceeds (1/n) * (1/MinShare) * 2; never when there is one tenant. */
  lemma {:induction false} DeferredExactlyWhen(c: Config, g: Gate, n: int, call: Call)
    requires c.Normal()
    ensures var r := Rolled(c, g, call.now);
            !Allows(c, g, n, call)
            <==> n > 1 && r.total >= 32 && Get(r.counts, call.tenant) as real * (n as real * c.minShare) > 2.0 * r.total as real
  {
    var r := Rolled(c, g, call.now);
    if n > 1 && r.total >= 32 {
      var cap := CapIs(c, n);
      ShareAboveIff(Get(r.counts, call.tenant) as real, r.total as real, cap);
      OverCapIff(cap, n as real * c.minShare, Get(r.counts, call.tenant) as real, r.total as real);
    }
  }

  /** Once the window is over every counter and the total are halved, empty counters are dropped and a new window starts; before that nothing changes. */
  lemma {:induction false} RolledMeans(c: Config, g: Gate, now: int)
    ensures var r := Rolled(c, g, now);
            && (now - g.windowStart < c.window ==> r == g)
            && (now - g.windowStart >= c.window ==>
                  && r.windowStart == now && r.total == g.total / 2
                  && (forall t :: Get(r.counts, t) == Get(g.counts, t) / 2)
                  && (forall t :: t in r.counts ==> r.counts[t] > 0))
  {
  }

  /** One more call of a run: with one tenant nothing is counted; a deferred call only rolls the gate, an admitted one also counts once for its tenant and once in the total. */
  lemma {:induction false} CallMeans(c: Config, n: int, start: int, calls: seq<Call>, call: Call)
    requires c.Normal()
    ensures var g, g' := After(c, n, start, calls), After(c, n, start, calls + [call]);
            var r := Rolled(c, g, call.now);
            && (n <= 1 ==> g' == g)
            && (n > 1 ==> g'.windowStart == r.windowStart)
            && (n > 1 && !Allows(c, g, n, call) ==> g' == r)
            && (n > 1 && Allows(c, g, n, call) ==>
                  && g'.total == r.total + 1 && Get(g'.counts, call.tenant) == Get(r.counts, call.tenant) + 1
                  && forall t :: t != call.tenant ==> Get(g'.counts, t) == Get(r.counts, t))
  {
    assert (calls + [call])[..|calls|] == calls;
  }

  /** The account of RunKeepsAccountAndCap alone. */
  lemma {:induction false} TotalWithinSeen(c: Config, ts: seq<string>, start: int, calls: seq<Call>)
    requires c.Normal() && |ts| > 1 && Distinct(ts) && forall x :: x in calls ==> x.tenant in ts
    ensures var g := After(c, |ts|, start, calls);
            Sum(ts, g.counts) <= g.total <= Sum(ts, g.counts) + |Seen(calls)|
  {
    RunKeepsAccountAndCap(c, ts, start, calls, |ts| as real * c.minShare);
    CountInIsSize(ts, Seen(calls));
  }

  // ----- How many can be turned away -----

  function Deferred(c: Config, g: Gate, ts: seq<string>, now: int): set<string>
    requires c.Normal()
  {
    set t | t in ts && !Allows(c, g, |ts|, Call(t, now))
  }

  function Times(k: nat, limit: real): real {
    if k == 0 then 0.0 else Times(k - 1, limit) + limit
  }

  lemma {:induction false} TimesIsProduct(k: nat, limit: real)
    ensures Times(k, limit) == k as real * limit
  {
    if k > 0 {
      TimesIsProduct(k - 1, limit);
      Distribute(limit, (k - 1) as real, 1.0);
    }
  }

  /** Each deferred tenant holds more than the limit out of the sum. */
  lemma {:induction false} DeferredWeigh(ts: seq<string>, counts: map<string, nat>, d: set<string>, limit: real)
    requires limit > 0.0 && forall t :: t in ts && t in d ==> Get(counts, t) as real > limit
    ensures Times(CountIn(ts, d), limit) <= Sum(ts, counts) as real
    ensures CountIn(ts, d) > 0 ==> Times(CountIn(ts, d), limit) < Sum(ts, counts) as real
  {
    if ts != [] {
      DeferredWeigh(ts[1..], counts, d, limit);
      assert Sum(ts, counts) as real == Get(counts, ts[0]) as real + Sum(ts[1..], counts) as real;
    }
  }

  /** k tenants over the limit cap * total, weighing less than the total altogether, are fewer than half of n. */
  lemma {:induction false} FewOverCap(cap: real, n: nat, k: nat, kr: real, total: real, limit: real)
    requires cap > 0.0 && n > 0 && total > 0.0 && cap * n as real >= 2.0
    requires kr == k as real && limit == cap * total && kr * limit < total
    ensures 2 * k < n
  {
    if 2 * k >= n {
      assert kr + kr == (k + k) as real >= n as real;
      ScaleLe(n as real, kr + kr, cap);
      HalvesToOne(cap, kr);
      ScaleLe(1.0, kr * cap, total);
      Associate(kr, cap, total);
    }
  }

  lemma {:induction false} HalvesToOne(cap: real, k: real)
    requires cap * (k + k) >= 2.0
    ensures k * cap >= 1.0
  {
  }

  /** In every reachable state, at any time, strictly fewer than half of the tenants would be turned away. */
  lemma {:induction false} FewerThanHalfDeferred(c: Config, ts: seq<string>, start: int, calls: seq<Call>, now: int)
    requires c.Normal() && |ts| > 1 && Distinct(ts) && forall x :: x in calls ==> x.tenant in ts
    ensures 2 * |Deferred(c, After(c, |ts|, start, calls), ts, now)| < |ts|
  {
    var g0 := After(c, |ts|, start, calls);
    RunKeepsAccountAndCap(c, ts, start, calls, |ts| as real * c.minShare);
    FewDeferredFrom(c, ts, g0, Seen(calls), now);
  }

  lemma {:induction false} FewDeferredFrom(c: Config, ts: seq<string>, g0: Gate, seen: set<string>, now: int)
    requires c.Normal() && |ts| > 1 && Distinct(ts) && Accounted(ts, g0, seen)
    ensures 2 * |Deferred(c, g0, ts, now)| < |ts|
  {
    var d := Deferred(c, g0, ts, now);
    RollKeepsAccount(c, ts, g0, seen, now);
    CountInIsSize(ts, d);
    FewCounted(c, ts, g0, Rolled(c, g0, now), seen, now);
  }

  lemma {:induction false} FewCounted(c: Config, ts: seq<string>, g0: Gate, g: Gate, seen: set<string>, now: int)
    requires c.Normal() && |ts| > 1 && g == Rolled(c, g0, now) && Accounted(ts, g, seen)
    ensures 2 * CountIn(ts, Deferred(c, g0, ts, now)) < |ts|
  {
    var cap := CapIs(c, |ts|);
    FewDeferred(c, ts, g0, g, now, cap);
  }

  lemma {:induction false} FewDeferred(c: Config, ts: seq<string>, g0: Gate, g: Gate, now: int, cap: real)
    requires c.Normal() && |ts| > 1 && g == Rolled(c, g0, now) && cap == Cap(c, |ts|) && cap * |ts| as real >= 2.0
    requires Sum(ts, g.counts) <= g.total
    ensures 2 * CountIn(ts, Deferred(c, g0, ts, now)) < |ts|
  {
    var d := Deferred(c, g0, ts, now);
    if g.total < MIN_TOTAL {
      assert d == {};
      CountInNone(ts);
    } else {
      forall t | t in ts && t in d ensures Get(g.counts, t) as real > cap * g.total as real {
        ShareAboveIff(Get(g.counts, t) as real, g.total as real, cap);
      }
      FewWeigh(ts, g, d, cap);
    }
  }

  /** `k` tenants together above `k` limits, yet within the total. */
  ghost predicate Overweight(cap: real, n: nat, k: nat, total: real, limit: real) {
    && cap > 0.0 && n > 0 && total > 0.0 && cap * n as real >= 2.0
    && limit == cap * total && (k > 0 ==> k as real * limit < total)
  }

  lemma {:induction false} OverweightFew(cap: real, n: nat, k: nat, total: real, limit: real)
    requires Overweight(cap, n, k, total, limit)
    ensures 2 * k < n
  {
    if k > 0 {
      FewOverCap(cap, n, k, k as real, total, limit);
    }
  }

  lemma {:induction false} LimitPositive(cap: real, total: real) returns (limit: real)
    requires cap > 0.0 && total > 0.0
    ensures limit == cap * total && limit > 0.0
  {
    limit := cap * total;
    ScaleLt(0.0, cap, total);
  }

  lemma {:induction false} FewWeigh(ts: seq<string>, g: Gate, d: set<string>, cap: real)
    requires g.total > 0 && cap > 0.0 && |ts| > 0 && cap * |ts| as real >= 2.0 && Sum(ts, g.counts) <= g.total
    requires forall t :: t in ts && t in d ==> Get(g.counts, t) as real > cap * g.total as real
    ensures 2 * CountIn(ts, d) < |ts|
  {
    var k, total := CountIn(ts, d), g.total as real;
    var limit := LimitPositive(cap, total);
    DeferredWeigh(ts, g.counts, d, limit);
    TimesIsProduct(k, limit);
    assert Overweight(cap, |ts|, k, total, limit);
    OverweightFew(cap, |ts|, k, total, limit);
  }

  lemma {:induction false} CountInNone(ts: seq<string>)
    ensures CountIn(ts, {}) == 0
  {
    if ts != [] {
      CountInNone(ts[1..]);
    }
  }

  // ----- The imperative gate and the filter that drives it -----

  /** The count's share of the total exceeds (1/n) * (1/MinShare) * 2. */
  predicate Exceeds(c: Config, n: int, count: int, total: int) {
    count as real * (n as real * c.minShare) > 2.0 * total as real
  }

  class FairnessGate {
    const cfg: Config
    var totalEvents: nat
    var tenantCounts: map<string, nat>
    var windowStart: int

    ghost function View(): Gate
      reads this
    {
      Gate(totalEvents, tenantCounts, windowStart)
    }

    constructor (c: Config, now: int)
      ensures cfg == Defaults(c) && View() == Gate(0, map[], now)
    {
      cfg := Defaults(c);
      totalEvents := 0;
      tenantCounts := map[];
      windowStart := now;
    }

    method MaybeRollWindow(now: int)
      modifies this
      ensures View() == Rolled(cfg, old(View()), now)
    {
      if now - windowStart < cfg.window {
        return;
      }
      ghost var was := tenantCounts;
      var keys := tenantCounts.Keys;
      while keys != {}
        invariant keys <= was.Keys && tenantCounts.Keys <= was.Keys
        invariant forall k :: k in keys ==> k in tenantCounts && tenantCounts[k] == was[k]
        invariant forall k :: k in was && k !in keys ==> (k in tenantCounts <==> was[k] / 2 != 0)
        invariant forall k :: k in tenantCounts && k !in keys ==> tenantCounts[k] == was[k] / 2
        invariant totalEvents == old(totalEvents) && windowStart == old(windowStart)
      {
        var k :| k in keys;
        keys := keys - {k};
        var half := tenantCounts[k] / 2;
        if half == 0 {
          tenantCounts := tenantCounts - {k};
          continue;
        }
        tenantCounts := tenantCounts[k := half];
      }
      assert tenantCounts == Halved(was);
      totalEvents := totalEvents / 2;
      windowStart := now;
    }

    method Allow(tenant: string, totalTenants: int, now: int) returns (ok: bool)
      requires cfg.Normal()
      modifies this
      ensures View() == Step(cfg, old(View()), totalTenants, Call(tenant, now))
      ensures ok == Allows(cfg, old(View()), totalTenants, Call(tenant, now))
      ensures !ok ==> totalTenants > 1 && totalEvents >= 32 && Exceeds(cfg, totalTenants, Get(tenantCounts, tenant), totalEvents)
      ensures ok && totalTenants > 1 ==>
                var count := Get(tenantCounts, tenant) - 1;
                count >= 0 && (totalEvents - 1 < 32 || !Exceeds(cfg, totalTenants, count, totalEvents - 1))
    {
      DeferredExactlyWhen(cfg, View(), totalTenants, Call(tenant, now));
      if totalTenants <= 1 {
        return true;
      }
      MaybeRollWindow(now);
      var count := Get(tenantCounts, tenant);
      if totalEvents < MIN_TOTAL {
        tenantCounts := tenantCounts[tenant := count + 1];
        totalEvents := totalEvents + 1;
        return true;
      }
      var uniformShare := 1.0 / totalTenants as real;
      var currentShare := count as real / totalEvents as real;
      var cap := uniformShare * (1.0 / cfg.minShare) * 2.0;
      if currentShare > cap {
        return false;
      }
      tenantCounts := tenantCounts[tenant := count + 1];
      totalEvents := totalEvents + 1;
      return true;
    }

    /** The filter loop: every event goes to exactly one side, in order, as the gate's own run decides. */
    method Filter(input: seq<Call>, totalTenants: int, ghost start: int) returns (out: seq<Call>, deferred: seq<Call>)
      requires cfg.Normal() && View() == After(cfg, totalTenants, start, [])
      modifies this
      ensures View() == After(cfg, totalTenants, start, input)
      ensures out == Side(cfg, totalTenants, start, input, true)
      ensures deferred == Side(cfg, totalTenants, start, input, false)
    {
      out, deferred := [], [];
      for i := 0 to |input|
        invariant View() == After(cfg, totalTenants, start, input[..i])
        invariant out == Side(cfg, totalTenants, start, input[..i], true)
        invariant deferred == Side(cfg, totalTenants, start, input[..i], false)
      {
        var e := input[i];
        SideGrows(cfg, totalTenants, start, input, i, true);
        SideGrows(cfg, totalTenants, start, input, i, false);
        var ok := Allow(e.tenant, totalTenants, e.now);
        if !ok {
          deferred := deferred + [e];
          continue;
        }
        out := out + [e];
      }
      assert input[..|input|] == input;
    }
  }

  /** The calls, in order, to which the gate, after all the calls before, answers `ok`. */
  function Side(c: Config, n: int, start: int, input: seq<Call>, ok: bool): seq<Call>
    requires c.Normal()
  {
    if input == [] then []
    else
      var front, e := input[..|input| - 1], input[|input| - 1];
      Side(c, n, start, front, ok) + if Allows(c, After(c, n, start, front), n, e) == ok then [e] else []
  }

  lemma {:induction false} SideGrows(c: Config, n: int, start: int, input: seq<Call>, i: nat, ok: bool)
    requires c.Normal() && i < |input|
    ensures var g, e := After(c, n, start, input[..i]), input[i];
            && After(c, n, start, input[..i + 1]) == Step(c, g, n, e)
            && Side(c, n, start, input[..i + 1], ok)
               == if Allows(c, g, n, e) == ok then Side(c, n, start, input[..i], ok) + [e] else Side(c, n, start, input[..i], ok)
  {
    assert input[..i + 1][..i] == input[..i];
    assert Side(c, n, start, input[..i], ok) + [] == Side(c, n, start, input[..i], ok);
  }

  /** Every event is on one side, as often as it came in. */
  lemma {:induction false} SidesShareInput(c: Config, n: int, start: int, input: seq<Call>)
    requires c.Normal()
    ensures multiset(Side(c, n, start, input, true)) + multiset(Side(c, n, start, input, false)) == multiset(input)
  {
    if input != [] {
      SidesShareInput(c, n, start, input[..|input| - 1]);
      assert input == input[..|input| - 1] + [input[|input| - 1]];
    }
  }
}
