/**
 Weighted assignment of tenants to providers: both lists are sorted, then a single pass
 moves a provider index past every cumulative weight the tenant's share has reached.
 Weights are reals.
 */
module Providers {
  import opened StringOrder
  import opened RealFacts

  type Mix = map<string, real>

  predicate NonNegative(mix: Mix) {
    forall p :: p in mix ==> mix[p] >= 0.0
  }

  /** cumWeight: the running sum of the first n providers' weights. */
  function Cum(providers: seq<string>, mix: Mix, n: nat): real
    requires n <= |providers| && forall p :: p in providers ==> p in mix
  {
    if n == 0 then 0.0 else Cum(providers, mix, n - 1) + mix[providers[n - 1]]
  }

  /** `share < cum`: with a zero total the quotient is positive infinity, negative infinity or not a number. */
  predicate Before(share: real, weight: real, total: real) {
    if total == 0.0 then weight > 0.0 else share < weight / total
  }

  lemma {:induction false} CumGrows(providers: seq<string>, mix: Mix, m: nat, n: nat)
    requires m <= n <= |providers| && NonNegative(mix) && forall p :: p in providers ==> p in mix
    ensures 0.0 <= Cum(providers, mix, m) <= Cum(providers, mix, n)
    decreases n
  {
    if m < n {
      CumGrows(providers, mix, m, n - 1);
    } else if m > 0 {
      CumGrows(providers, mix, m - 1, m - 1);
    }
  }

  // ----- Where the runs begin -----

  function Ceil(x: real): int {
    -(-x).Floor
  }

  /** The exact, fractional number of tenants that weight w out of total is worth. */
  function Portion(n: real, w: real, total: real): real
    requires total > 0.0
  {
    n * w / total
  }

  /** Index of the first of n tenants whose share i/n has reached weight w out of total. */
  function CutAt(n: nat, w: real, total: real): int
    requires total > 0.0
  {
    Ceil(Portion(n as real, w, total))
  }

  /** Where the run of provider k begins: the cut at the cumulative weight before it. */
  function Cut(n: nat, providers: seq<string>, mix: Mix, k: nat): int
    requires k <= |providers| && (forall p :: p in providers ==> p in mix) && Cum(providers, mix, |providers|) > 0.0
  {
    CutAt(n, Cum(providers, mix, k), Cum(providers, mix, |providers|))
  }

  /** Moving the tenant count across: i/n < w/total exactly when i < n*w/total. */
  lemma {:induction false} ShareBelowIff(i: real, n: real, w: real, total: real)
    requires n > 0.0 && total > 0.0
    ensures i / n < w / total <==> i < Portion(n, w, total)
  {
    var a, b := i / n, w / total;
    assert a * n == i && b * total == w;
    QuotientIs(n * w, total, b * n) by {
      assert (b * n) * total == n * (b * total);
    }
    assert Portion(n, w, total) == b * n;
    if a < b {
      ScaleLt(a, b, n);
    } else {
      ScaleLe(b, a, n);
    }
  }

  lemma {:induction false} BelowCeil(i: int, x: real)
    ensures i as real < x <==> i < Ceil(x)
  {
  }

  lemma {:induction false} BeforeCutAt(i: nat, n: nat, w: real, total: real)
    requires n > 0 && total > 0.0
    ensures Before(i as real / n as real, w, total) <==> i < CutAt(n, w, total)
  {
    ShareBelowIff(i as real, n as real, w, total);
    BelowCeil(i, Portion(n as real, w, total));
  }

  /** Tenant i's share is below the first k providers' cumulative share exactly when i is before their cut. */
  lemma {:induction false} BeforeCut(i: nat, n: nat, providers: seq<string>, mix: Mix, k: nat)
    requires n > 0 && k <= |providers| && (forall p :: p in providers ==> p in mix) && Cum(providers, mix, |providers|) > 0.0
    ensures Before(i as real / n as real, Cum(providers, mix, k), Cum(providers, mix, |providers|)) <==> i < Cut(n, providers, mix, k)
  {
    BeforeCutAt(i, n, Cum(providers, mix, k), Cum(providers, mix, |providers|));
  }

  lemma {:induction false} PortionEnds(n: real, total: real)
    requires total > 0.0
    ensures Portion(n, 0.0, total) == 0.0 && Portion(n, total, total) == n
  {
    QuotientIs(n * 0.0, total, 0.0);
    QuotientIs(n * total, total, n);
  }

  lemma {:induction false} CutAtEnds(n: nat, total: real)
    requires total > 0.0
    ensures CutAt(n, 0.0, total) == 0 && CutAt(n, total, total) == n
  {
    PortionEnds(n as real, total);
  }

  lemma {:induction false} CutEnds(n: nat, providers: seq<string>, mix: Mix)
    requires (forall p :: p in providers ==> p in mix) && Cum(providers, mix, |providers|) > 0.0
    ensures Cut(n, providers, mix, 0) == 0 && Cut(n, providers, mix, |providers|) == n
  {
    CutAtEnds(n, Cum(providers, mix, |providers|));
  }

  lemma {:induction false} PortionGrows(n: real, v: real, w: real, total: real)
    requires n >= 0.0 && v <= w && total > 0.0
    ensures Portion(n, v, total) <= Portion(n, w, total)
  {
    ScaleLe(v, w, n);
    QuotientGrows(n * v, n * w, total);
  }

  lemma {:induction false} CeilGrows(x: real, y: real)
    requires x <= y
    ensures Ceil(x) <= Ceil(y)
  {
  }

  lemma {:induction false} CutAtGrows(n: nat, v: real, w: real, total: real)
    requires v <= w && total > 0.0
    ensures CutAt(n, v, total) <= CutAt(n, w, total)
  {
    PortionGrows(n as real, v, w, total);
    CeilGrows(Portion(n as real, v, total), Portion(n as real, w, total));
  }

  lemma {:induction false} CutGrows(n: nat, providers: seq<string>, mix: Mix, j: nat, k: nat)
    requires j <= k <= |providers| && (forall p :: p in providers ==> p in mix) && Cum(providers, mix, |providers|) > 0.0
    requires NonNegative(mix)
    ensures Cut(n, providers, mix, j) <= Cut(n, providers, mix, k)
  {
    CumGrows(providers, mix, j, k);
    CutAtGrows(n, Cum(providers, mix, j), Cum(providers, mix, k), Cum(providers, mix, |providers|));
  }

  lemma {:induction false} CeilWithinOne(lo: real, hi: real)
    ensures hi - lo - 1.0 < (Ceil(hi) - Ceil(lo)) as real < hi - lo + 1.0
  {
    var a, b := Ceil(lo), Ceil(hi);
    assert a as real - 1.0 < lo <= a as real && b as real - 1.0 < hi <= b as real;
    assert (b - a) as real == b as real - a as real;
  }

  lemma {:induction false} PortionAdds(n: real, v: real, w: real, total: real)
    requires total > 0.0
    ensures Portion(n, v + w, total) == Portion(n, v, total) + Portion(n, w, total)
  {
    var lo, exact := n * v / total, n * w / total;
    QuotientIs(n * (v + w), total, lo + exact) by {
      assert lo * total == n * v && exact * total == n * w;
      assert (lo + exact) * total == lo * total + exact * total;
      assert n * (v + w) == n * v + n * w;
    }
  }

  lemma {:induction false} CutAtWithinOne(n: nat, v: real, w: real, total: real)
    requires total > 0.0
    ensures var exact := Portion(n as real, w, total);
            exact - 1.0 < (CutAt(n, v + w, total) - CutAt(n, v, total)) as real < exact + 1.0
  {
    PortionAdds(n as real, v, w, total);
    CeilWithinOne(Portion(n as real, v, total), Portion(n as real, v + w, total));
  }

  /** A provider's run differs from its exact share n*w/W by less than one tenant; weight zero means no tenant. */
  lemma {:induction false} RunWithinOne(n: nat, providers: seq<string>, mix: Mix, k: nat)
    requires k < |providers| && (forall p :: p in providers ==> p in mix) && Cum(providers, mix, |providers|) > 0.0
    ensures var size := Cut(n, providers, mix, k + 1) - Cut(n, providers, mix, k);
            var exact := Portion(n as real, mix[providers[k]], Cum(providers, mix, |providers|));
            exact - 1.0 < size as real < exact + 1.0 && (mix[providers[k]] == 0.0 ==> size == 0)
  {
    CutAtWithinOne(n, Cum(providers, mix, k), mix[providers[k]], Cum(providers, mix, |providers|));
    if mix[providers[k]] == 0.0 {
      assert Cum(providers, mix, k + 1) == Cum(providers, mix, k);
    }
  }

  // ----- The assignment -----

  ghost predicate Priced(providers: seq<string>, mix: Mix) {
    forall p :: p in providers ==> p in mix
  }

  /** The inner loop stops at provider k for the i-th of n tenants: k is the last one, or the share is below its cumulative share. */
  predicate Stops(i: nat, n: nat, providers: seq<string>, mix: Mix, k: nat)
    requires n > 0 && k < |providers| && forall p :: p in providers ==> p in mix
  {
    k == |providers| - 1 || Before(i as real / n as real, Cum(providers, mix, k + 1), Cum(providers, mix, |providers|))
  }

  /** k is the first provider from `start` on at which the loop stops. */
  ghost predicate FirstStop(i: nat, n: nat, providers: seq<string>, mix: Mix, start: nat, k: nat) {
    && n > 0 && Priced(providers, mix) && start <= k < |providers| && Stops(i, n, providers, mix, k)
    && forall m :: start <= m < k ==> !Stops(i, n, providers, mix, m)
  }

  function Previous(idx: seq<nat>, i: nat): nat
    requires i <= |idx|
  {
    if i == 0 then 0 else idx[i - 1]
  }

  /** The provider indices the pass goes through: each tenant starts where the one before stopped. */
  ghost predicate Walk(idx: seq<nat>, n: nat, providers: seq<string>, mix: Mix) {
    forall i: nat :: i < |idx| ==> WalkStep(idx, n, providers, mix, i)
  }

  ghost predicate WalkStep(idx: seq<nat>, n: nat, providers: seq<string>, mix: Mix, i: nat) {
    i < |idx| && FirstStop(i, n, providers, mix, Previous(idx, i), idx[i])
  }

  /** Nothing equal comes after position i. */
  ghost predicate LastOf(ts: seq<string>, i: nat) {
    i < |ts| && forall j :: i < j < |ts| ==> ts[j] != ts[i]
  }

  /** Exactly the listed tenants are mapped, each by its last occurrence. */
  ghost predicate LastWins(out: map<string, string>, ts: seq<string>, providers: seq<string>, idx: seq<nat>) {
    && |idx| == |ts|
    && (forall t :: t in out <==> t in ts)
    && forall i: nat :: LastOf(ts, i) ==> idx[i] < |providers| && out[ts[i]] == providers[idx[i]]
  }

  /** What the pass over sorted tenants yields, whatever the weights and however often a tenant occurs. */
  ghost predicate IsPass(out: map<string, string>, ts: seq<string>, providers: seq<string>, mix: Mix) {
    exists idx :: Walk(idx, |ts|, providers, mix) && LastWins(out, ts, providers, idx)
  }

  lemma {:induction false} LastOccurrence(ts: seq<string>, t: string) returns (i: nat)
    requires t in ts
    ensures LastOf(ts, i) && ts[i] == t
  {
    var n := |ts| - 1;
    if ts[n] == t {
      i := n;
    } else {
      assert ts == ts[..n] + [ts[n]];
      i := LastOccurrence(ts[..n], t);
      assert forall j :: i < j < n ==> ts[j] == ts[..n][j];
    }
  }

  lemma {:induction false} FirstStopUnique(i: nat, n: nat, providers: seq<string>, mix: Mix, start: nat, j: nat, k: nat)
    requires FirstStop(i, n, providers, mix, start, j) && FirstStop(i, n, providers, mix, start, k)
    ensures j == k
  {
  }

  lemma {:induction false} WalkedAt(idx: seq<nat>, n: nat, providers: seq<string>, mix: Mix, i: nat) returns (start: nat, k: nat)
    requires Walk(idx, n, providers, mix) && i < |idx|
    ensures start == Previous(idx, i) && k == idx[i] && FirstStop(i, n, providers, mix, start, k)
  {
    assert WalkStep(idx, n, providers, mix, i);
    start, k := Previous(idx, i), idx[i];
  }

  lemma {:induction false} WalkUnique(a: seq<nat>, b: seq<nat>, n: nat, providers: seq<string>, mix: Mix, i: nat)
    requires Walk(a, n, providers, mix) && Walk(b, n, providers, mix) && i < |a| && i < |b|
    ensures a[i] == b[i]
  {
    if i > 0 {
      WalkUnique(a, b, n, providers, mix, i - 1);
    }
    var start, j := WalkedAt(a, n, providers, mix, i);
    var start', k := WalkedAt(b, n, providers, mix, i);
    FirstStopUnique(i, n, providers, mix, start, j, k);
  }

  /** The two sorted lists determine the assignment. */
  lemma {:induction false} AssignmentUnique(a: map<string, string>, b: map<string, string>, ts: seq<string>, providers: seq<string>, mix: Mix)
    requires IsPass(a, ts, providers, mix) && IsPass(b, ts, providers, mix)
    ensures a == b
  {
    var x :| Walk(x, |ts|, providers, mix) && LastWins(a, ts, providers, x);
    var y :| Walk(y, |ts|, providers, mix) && LastWins(b, ts, providers, y);
    forall t | t in a
      ensures a[t] == b[t]
    {
      var i := LastOccurrence(ts, t);
      WalkUnique(x, y, |ts|, providers, mix, i);
    }
  }

  /** The order in which tenants and providers are given does not matter, whatever the weights. */
  lemma {:induction false} OrderIrrelevant(a: map<string, string>, b: map<string, string>, mix: Mix,
                                           ta: seq<string>, tb: seq<string>, pa: seq<string>, pb: seq<string>)
    requires Sorted(ta) && Sorted(tb) && Sorted(pa) && Sorted(pb)
    requires multiset(ta) == multiset(tb) && multiset(pa) == multiset(pb)
    requires IsPass(a, ta, pa, mix) && IsPass(b, tb, pb, mix)
    ensures a == b
  {
    SortedUnique(ta, tb);
    SortedUnique(pa, pb);
    AssignmentUnique(a, b, ta, pa, mix);
  }

  // ----- Non-negative weights: contiguous runs -----

  /** Non-negative weights with something to share out. */
  ghost predicate Weighted(providers: seq<string>, mix: Mix) {
    providers != [] && Priced(providers, mix) && NonNegative(mix) && Cum(providers, mix, |providers|) > 0.0
  }

  /** Tenant i falls into the run of provider k. */
  ghost predicate InRun(i: int, n: nat, providers: seq<string>, mix: Mix, k: nat)
    requires Weighted(providers, mix) && k < |providers|
  {
    Cut(n, providers, mix, k) <= i < Cut(n, providers, mix, k + 1)
  }

  lemma {:induction false} StopIsRun(i: nat, n: nat, providers: seq<string>, mix: Mix, start: nat, k: nat)
    requires Weighted(providers, mix) && i < n && FirstStop(i, n, providers, mix, start, k)
    requires Cut(n, providers, mix, start) <= i
    ensures InRun(i, n, providers, mix, k)
  {
    CutEnds(n, providers, mix);
    BeforeCut(i, n, providers, mix, k + 1);
    if k > start {
      assert !Stops(i, n, providers, mix, k - 1);
      BeforeCut(i, n, providers, mix, k);
    }
  }

  lemma {:induction false} WalkRuns(idx: seq<nat>, n: nat, providers: seq<string>, mix: Mix, i: nat)
    requires Weighted(providers, mix) && Walk(idx, n, providers, mix) && i < |idx| <= n
    ensures idx[i] < |providers| && InRun(i, n, providers, mix, idx[i])
  {
    var start, k := WalkedAt(idx, n, providers, mix, i);
    if i == 0 {
      CutEnds(n, providers, mix);
    } else {
      WalkRuns(idx, n, providers, mix, i - 1);
      RunEndsLater(i - 1, n, providers, mix, start);
    }
    StopIsRun(i, n, providers, mix, start, k);
  }

  lemma {:induction false} RunEndsLater(i: int, n: nat, providers: seq<string>, mix: Mix, k: nat)
    requires Weighted(providers, mix) && k < |providers| && InRun(i, n, providers, mix, k)
    ensures Cut(n, providers, mix, k) <= i + 1
  {
  }

  /** Runs do not overlap: only one provider's run holds tenant i. */
  lemma {:induction false} OneRunHolds(i: int, n: nat, providers: seq<string>, mix: Mix, j: nat, k: nat)
    requires Weighted(providers, mix) && j < |providers| && k < |providers|
    requires InRun(i, n, providers, mix, j) && InRun(i, n, providers, mix, k)
    ensures j == k
  {
    if k < j {
      CutGrows(n, providers, mix, k + 1, j);
    } else if k > j {
      CutGrows(n, providers, mix, j + 1, k);
    }
  }

  /** With distinct tenants, tenant i is mapped to provider k exactly when it lies in k's contiguous run of the sorted list. */
  lemma {:induction false} MappedIffInRun(out: map<string, string>, ts: seq<string>, providers: seq<string>, mix: Mix, i: nat, k: nat)
    requires Weighted(providers, mix) && Distinct(providers) && Distinct(ts) && IsPass(out, ts, providers, mix)
    requires i < |ts| && k < |providers|
    ensures ts[i] in out && (out[ts[i]] == providers[k] <==> InRun(i, |ts|, providers, mix, k))
  {
    var idx :| Walk(idx, |ts|, providers, mix) && LastWins(out, ts, providers, idx);
    WalkRuns(idx, |ts|, providers, mix, i);
    assert LastOf(ts, i);
    if InRun(i, |ts|, providers, mix, k) {
      OneRunHolds(i, |ts|, providers, mix, idx[i], k);
    }
  }

  /** The tenants mapped to a provider. */
  function MappedTo(out: map<string, string>, p: string): set<string> {
    set t | t in out && out[t] == p
  }

  lemma {:induction false} DistinctSize(ts: seq<string>)
    requires Distinct(ts)
    ensures |set t | t in ts| == |ts|
  {
    if ts != [] {
      var front, last := ts[..|ts| - 1], ts[|ts| - 1];
      DistinctSize(front);
      assert ts == front + [last];
      assert (set t | t in ts) == (set t | t in front) + {last};
    }
  }

  lemma {:induction false} RunInRange(n: nat, providers: seq<string>, mix: Mix, k: nat) returns (lo: nat, hi: nat)
    requires Weighted(providers, mix) && k < |providers|
    ensures lo == Cut(n, providers, mix, k) && hi == Cut(n, providers, mix, k + 1) && lo <= hi <= n
  {
    CutEnds(n, providers, mix);
    CutGrows(n, providers, mix, 0, k);
    CutGrows(n, providers, mix, k, k + 1);
    CutGrows(n, providers, mix, k + 1, |providers|);
    lo, hi := Cut(n, providers, mix, k), Cut(n, providers, mix, k + 1);
  }

  /** Provider p is mapped to exactly the tenants at positions lo..hi. */
  ghost predicate MapsSlice(out: map<string, string>, ts: seq<string>, p: string, lo: nat, hi: nat) {
    && (forall t :: t in out <==> t in ts)
    && forall i :: 0 <= i < |ts| ==> ts[i] in out && (out[ts[i]] == p <==> lo <= i < hi)
  }

  lemma {:induction false} MapsRun(out: map<string, string>, ts: seq<string>, providers: seq<string>, mix: Mix, k: nat, lo: nat, hi: nat)
    requires Weighted(providers, mix) && Distinct(providers) && Distinct(ts) && IsPass(out, ts, providers, mix) && k < |providers|
    requires lo == Cut(|ts|, providers, mix, k) && hi == Cut(|ts|, providers, mix, k + 1)
    ensures MapsSlice(out, ts, providers[k], lo, hi)
  {
    forall i | 0 <= i < |ts|
      ensures ts[i] in out && (out[ts[i]] == providers[k] <==> lo <= i < hi)
    {
      MappedIffInRun(out, ts, providers, mix, i, k);
    }
  }

  lemma {:induction false} SliceSize(out: map<string, string>, ts: seq<string>, p: string, lo: nat, hi: nat)
    requires MapsSlice(out, ts, p, lo, hi) && lo <= hi <= |ts| && Distinct(ts)
    ensures |MappedTo(out, p)| == hi - lo
  {
    forall t | t in MappedTo(out, p)
      ensures t in ts[lo..hi]
    {
      var i := LastOccurrence(ts, t);
      assert ts[lo..hi][i - lo] == t;
    }
    forall t | t in ts[lo..hi]
      ensures t in MappedTo(out, p)
    {
      var j :| 0 <= j < |ts[lo..hi]| && ts[lo..hi][j] == t;
      assert ts[lo + j] == t;
    }
    assert MappedTo(out, p) == set t | t in ts[lo..hi];
    DistinctSize(ts[lo..hi]);
  }

  /** The number of tenants mapped to a provider differs from its exact share N*w/W by less than one; weight zero means nobody. */
  lemma {:induction false} CountWithinOne(out: map<string, string>, ts: seq<string>, providers: seq<string>, mix: Mix, k: nat)
    requires Weighted(providers, mix) && Distinct(providers) && Distinct(ts) && IsPass(out, ts, providers, mix) && k < |providers|
    ensures var size := |MappedTo(out, providers[k])|;
            var exact := Portion(|ts| as real, mix[providers[k]], Cum(providers, mix, |providers|));
            exact - 1.0 < size as real < exact + 1.0 && (mix[providers[k]] == 0.0 ==> size == 0)
  {
    var lo, hi := RunInRange(|ts|, providers, mix, k);
    MapsRun(out, ts, providers, mix, k, lo, hi);
    SliceSize(out, ts, providers[k], lo, hi);
    RunWithinOne(|ts|, providers, mix, k);
  }

  /** With all weights zero the last provider in order gets everyone. */
  lemma {:induction false} ZeroWeights(out: map<string, string>, ts: seq<string>, providers: seq<string>, mix: Mix, t: string)
    requires providers != [] && Priced(providers, mix) && NonNegative(mix) && Cum(providers, mix, |providers|) == 0.0
    requires IsPass(out, ts, providers, mix) && t in out
    ensures out[t] == providers[|providers| - 1]
  {
    var idx :| Walk(idx, |ts|, providers, mix) && LastWins(out, ts, providers, idx);
    var i := LastOccurrence(ts, t);
    var start, k := WalkedAt(idx, |ts|, providers, mix, i);
    CumGrows(providers, mix, k + 1, |providers|);
  }

  lemma {:induction false} BagDistinct(s: seq<string>, r: seq<string>)
    requires Distinct(s) && multiset(s) == multiset(r)
    ensures Distinct(r) && forall x :: x in s <==> x in r
  {
    forall x ensures x in s <==> x in r {
      assert x in s <==> x in multiset(s);
      assert x in r <==> x in multiset(r);
    }
    forall i, j | 0 <= i < j < |r| ensures r[i] != r[j] {
      DistinctOnce(s, r[i]);
      if r[i] == r[j] {
        TwiceInBag(r, i, j);
      }
    }
  }

  lemma {:induction false} TwiceInBag(r: seq<string>, i: nat, j: nat)
    requires i < j < |r| && r[i] == r[j]
    ensures multiset(r)[r[i]] >= 2
  {
    assert r == r[..i] + [r[i]] + r[i + 1..j] + [r[j]] + r[j + 1..];
  }

  lemma {:induction false} DistinctOnce(s: seq<string>, x: string)
    requires Distinct(s)
    ensures multiset(s)[x] <= 1
  {
    if s != [] {
      var pre, last := s[..|s| - 1], s[|s| - 1];
      assert s == pre + [last];
      DistinctOnce(pre, x);
    }
  }

  /** mix's keys, in whatever order the map yields them. */
  method Keys(mix: Mix) returns (keys: seq<string>)
    ensures Distinct(keys) && forall p :: p in keys <==> p in mix
  {
    keys := [];
    var left := mix.Keys;
    while left != {}
      invariant Distinct(keys) && left <= mix.Keys && forall p :: p in keys <==> p in mix && p !in left
    {
      var p :| p in left;
      left := left - {p};
      keys := keys + [p];
    }
  }

  method CumWeight(providers: seq<string>, mix: Mix, n: nat) returns (sum: real)
    requires n <= |providers| && forall p :: p in providers ==> p in mix
    ensures sum == Cum(providers, mix, n)
  {
    sum := 0.0;
    for i := 0 to n
      invariant sum == Cum(providers, mix, i)
    {
      sum := sum + mix[providers[i]];
    }
  }

  /** uniqueTenants: the distinct ids, sorted. */
  method UniqueTenants(ids: seq<string>) returns (out: seq<string>)
    ensures Sorted(out) && Distinct(out) && forall x :: x in out <==> x in ids
  {
    var seen: set<string> := {};
    out := [];
    for i := 0 to |ids|
      invariant Distinct(out) && (forall x :: x in seen <==> x in out) && (forall x :: x in out <==> x in ids[..i])
    {
      assert ids[..i + 1] == ids[..i] + [ids[i]];
      if ids[i] in seen {
        continue;
      }
      seen := seen + {ids[i]};
      out := out + [ids[i]];
    }
    assert ids[..|ids|] == ids;
    var sorted := SortedCopy(out);
    BagDistinct(out, sorted);
    out := sorted;
  }

  /** The inner loop for tenant i: skip every provider whose cumulative share tenant i has reached. */
  method Advance(i: nat, n: nat, providers: seq<string>, mix: Mix, totalW: real, start: nat) returns (provIdx: nat)
    requires i < n && start < |providers| && Priced(providers, mix) && totalW == Cum(providers, mix, |providers|)
    ensures FirstStop(i, n, providers, mix, start, provIdx)
  {
    var share := i as real / n as real;
    provIdx := start;
    while provIdx < |providers| - 1
      invariant start <= provIdx < |providers|
      invariant forall m :: start <= m < provIdx ==> !Stops(i, n, providers, mix, m)
    {
      var cum := CumWeight(providers, mix, provIdx + 1);
      if Before(share, cum, totalW) {
        return;
      }
      provIdx := provIdx + 1;
    }
  }

  lemma {:induction false} WalkNext(idx: seq<nat>, n: nat, providers: seq<string>, mix: Mix, start: nat, k: nat)
    requires Walk(idx, n, providers, mix) && start == Previous(idx, |idx|) && FirstStop(|idx|, n, providers, mix, start, k)
    ensures Walk(idx + [k], n, providers, mix)
  {
    var more := idx + [k];
    forall i: nat | i < |more|
      ensures WalkStep(more, n, providers, mix, i)
    {
      if i < |idx| {
        var s, j := WalkedAt(idx, n, providers, mix, i);
        assert Previous(more, i) == s && more[i] == j;
      } else {
        assert Previous(more, i) == start && more[i] == k;
      }
    }
  }

  lemma {:induction false} LastWinsNext(out: map<string, string>, ts: seq<string>, i: nat, providers: seq<string>, idx: seq<nat>, k: nat)
    requires i < |ts| && k < |providers| && LastWins(out, ts[..i], providers, idx)
    ensures LastWins(out[ts[i] := providers[k]], ts[..i + 1], providers, idx + [k])
  {
    var was, now, r := ts[..i], ts[..i + 1], out[ts[i] := providers[k]];
    assert now == was + [ts[i]];
    forall j: nat | LastOf(now, j)
      ensures (idx + [k])[j] < |providers| && r[now[j]] == providers[(idx + [k])[j]]
    {
      if j < i {
        assert now[i] != now[j];
        assert LastOf(was, j);
      }
    }
  }

  /** The first i tenants have been passed, through the providers idx, and the index stands where the last one stopped. */
  ghost predicate Passed(out: map<string, string>, ts: seq<string>, providers: seq<string>, mix: Mix, idx: seq<nat>, i: nat, provIdx: nat) {
    && i <= |ts| && |idx| == i && provIdx < |providers| && provIdx == Previous(idx, i)
    && Walk(idx, |ts|, providers, mix) && LastWins(out, ts[..i], providers, idx)
  }

  lemma {:induction false} PassNext(out: map<string, string>, ts: seq<string>, providers: seq<string>, mix: Mix, idx: seq<nat>, i: nat, start: nat, k: nat)
    requires Passed(out, ts, providers, mix, idx, i, start) && i < |ts| && FirstStop(i, |ts|, providers, mix, start, k)
    ensures Passed(out[ts[i] := providers[k]], ts, providers, mix, idx + [k], i + 1, k)
  {
    WalkNext(idx, |ts|, providers, mix, start, k);
    LastWinsNext(out, ts, i, providers, idx, k);
  }

  lemma {:induction false} PassEnds(out: map<string, string>, ts: seq<string>, providers: seq<string>, mix: Mix, idx: seq<nat>, provIdx: nat)
    requires Passed(out, ts, providers, mix, idx, |ts|, provIdx)
    ensures IsPass(out, ts, providers, mix)
  {
    assert ts[..|ts|] == ts;
  }

  /** The single pass over the sorted tenants. */
  method Pass(ts: seq<string>, providers: seq<string>, mix: Mix, totalW: real) returns (out: map<string, string>)
    requires |providers| > 0 && Priced(providers, mix) && totalW == Cum(providers, mix, |providers|)
    ensures IsPass(out, ts, providers, mix)
  {
    var provIdx := 0;
    ghost var idx: seq<nat> := [];
    out := map[];
    for i := 0 to |ts|
      invariant Passed(out, ts, providers, mix, idx, i, provIdx)
    {
      var k := Advance(i, |ts|, providers, mix, totalW, provIdx);
      PassNext(out, ts, providers, mix, idx, i, provIdx, k);
      out := out[ts[i] := providers[k]];
      provIdx, idx := k, idx + [k];
    }
    PassEnds(out, ts, providers, mix, idx, provIdx);
  }

  /**
   For any tenants and weights: the sorted tenants are passed once over the sorted providers.
   What that means for non-negative weights is CountWithinOne, MappedIffInRun and ZeroWeights.
   */
  method AssignProviders(tenants: seq<string>, mix: Mix)
    returns (out: map<string, string>, sortedTenants: seq<string>, providers: seq<string>)
    ensures Sorted(sortedTenants) && multiset(sortedTenants) == multiset(tenants)
    ensures Sorted(providers) && Distinct(providers) && forall p :: p in providers <==> p in mix
    ensures tenants == [] || mix == map[] ==> out == map[]
    ensures tenants != [] && mix != map[] ==> IsPass(out, sortedTenants, providers, mix)
  {
    sortedTenants := SortedCopy(tenants);
    var keys := Keys(mix);
    providers := SortedCopy(keys);
    BagDistinct(keys, providers);
    out := map[];
    assert |sortedTenants| == |multiset(sortedTenants)| == |tenants|;
    if |tenants| == 0 || |mix| == 0 {
      return;
    }
    var some :| some in mix;
    assert some in providers;
    var totalW := CumWeight(providers, mix, |providers|);
    out := Pass(sortedTenants, providers, mix, totalW);
  }
}
