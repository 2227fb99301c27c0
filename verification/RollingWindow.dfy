/**
 The one-bucket-per-second ring shared by the circuit breaker and the backpressure
 controller, and its agreement with the full history of recorded outcomes.

 Time is a nanosecond count. The ring forgets: a bucket is overwritten when its second
 comes round again. The theorem says when nothing that matters is ever forgotten.
 */
module RollingWindow {

  const SECOND: int := 1_000_000_000

  datatype Bucket = Bucket(tsec: int, succ: nat, fail: nat)

  datatype Outcome = Outcome(at: nat, ok: bool)

  const EMPTY := Bucket(-1, 0, 0)

  function Sec(t: int): int {
    t / SECOND
  }

  function BucketCount(window: int): (n: nat)
    requires window > 0
    ensures n >= 1
  {
    if window / SECOND < 1 then 1 else window / SECOND
  }

  function Cleared(n: nat): seq<Bucket> {
    seq(n, i => EMPTY)
  }

  function Touch(ring: seq<Bucket>, now: nat, ok: bool): seq<Bucket>
    requires |ring| > 0
  {
    var i := Sec(now) % |ring|;
    var b := if ring[i].tsec != Sec(now) then Bucket(Sec(now), 0, 0) else ring[i];
    ring[i := if ok then b.(succ := b.succ + 1) else b.(fail := b.fail + 1)]
  }

  function Threshold(window: int, now: int): int {
    Sec(now - window)
  }

  function Share(b: Bucket, threshold: int, ok: bool): nat {
    if b.tsec < 0 || b.tsec <= threshold then 0 else if ok then b.succ else b.fail
  }

  /** What the accumulating loop of tally adds up. */
  function Tally(ring: seq<Bucket>, threshold: int, ok: bool): nat {
    if ring == [] then 0
    else Tally(ring[..|ring| - 1], threshold, ok) + Share(ring[|ring| - 1], threshold, ok)
  }

  /** The ring after recording a whole history. */
  function Replay(n: nat, h: seq<Outcome>): (ring: seq<Bucket>)
    requires n > 0
    ensures |ring| == n
  {
    if h == [] then Cleared(n)
    else Touch(Replay(n, h[..|h| - 1]), h[|h| - 1].at, h[|h| - 1].ok)
  }

  // ----- The independent definition: counting in the whole history -----

  function Count(h: seq<Outcome>, p: Outcome -> bool): nat {
    if h == [] then 0
    else Count(h[..|h| - 1], p) + if p(h[|h| - 1]) then 1 else 0
  }

  /** An outcome of one kind whose second lies in (now - window, now]. */
  predicate Windowed(window: int, now: int, ok: bool, e: Outcome) {
    e.ok == ok && Threshold(window, now) < Sec(e.at) <= Sec(now)
  }

  function InWindow(window: int, now: int, ok: bool): Outcome -> bool {
    (e: Outcome) => Windowed(window, now, ok, e)
  }

  /** In plain nanoseconds: which outcomes lie in the window; for a window of k seconds, those of the last k seconds begun. */
  lemma {:induction false} InWindowMeans(window: int, now: int, ok: bool, e: Outcome, k: int)
    ensures InWindow(window, now, ok)(e) <==>
              e.ok == ok && (now - window) / 1_000_000_000 < e.at / 1_000_000_000 <= now / 1_000_000_000
    ensures window == k * 1_000_000_000 ==>
              (InWindow(window, now, ok)(e) <==> e.ok == ok && 0 <= now / 1_000_000_000 - e.at / 1_000_000_000 < k)
  {
  }

  function AtSecond(tsec: int, ok: bool): Outcome -> bool {
    (e: Outcome) => e.ok == ok && Sec(e.at) == tsec
  }

  ghost predicate Ordered(h: seq<Outcome>) {
    forall i, j :: 0 <= i <= j < |h| ==> h[i].at <= h[j].at
  }

  ghost predicate NotAfter(h: seq<Outcome>, now: int) {
    forall e :: e in h ==> e.at <= now
  }

  ghost predicate TallyCorrect(window: int, h: seq<Outcome>, now: nat)
    requires window > 0
  {
    forall ok :: Tally(Replay(BucketCount(window), h), Threshold(window, now), ok)
                 == Count(h, InWindow(window, now, ok))
  }

  // ----- Ring invariant -----

  /** Bucket i is empty, or holds the latest second of its residue class with exact counts. */
  ghost predicate Describes(b: Bucket, i: nat, n: nat, h: seq<Outcome>)
    requires n > 0
  {
    if b.tsec < 0 then
      b == EMPTY && forall e :: e in h ==> Sec(e.at) % n != i
    else
      && b.tsec % n == i
      && b.succ == Count(h, AtSecond(b.tsec, true))
      && b.fail == Count(h, AtSecond(b.tsec, false))
      && (exists e :: e in h && Sec(e.at) == b.tsec)
      && forall e :: e in h && Sec(e.at) % n == i ==> Sec(e.at) <= b.tsec
  }

  ghost predicate Faithful(ring: seq<Bucket>, h: seq<Outcome>)
    requires |ring| > 0
  {
    forall i :: 0 <= i < |ring| ==> Describes(ring[i], i, |ring|, h)
  }

  lemma {:induction false} CountAgrees(h: seq<Outcome>, p: Outcome -> bool, q: Outcome -> bool)
    requires forall e :: e in h ==> p(e) == q(e)
    ensures Count(h, p) == Count(h, q)
  {
    if h != [] {
      CountAgrees(h[..|h| - 1], p, q);
    }
  }

  lemma {:induction false} CountNone(h: seq<Outcome>, p: Outcome -> bool)
    requires forall e :: e in h ==> !p(e)
    ensures Count(h, p) == 0
  {
    if h != [] {
      CountNone(h[..|h| - 1], p);
    }
  }

  lemma {:induction false} CountSplits(h: seq<Outcome>, p: Outcome -> bool, q: Outcome -> bool, r: Outcome -> bool)
    requires forall e :: e in h ==> (p(e) <==> q(e) || r(e)) && !(q(e) && r(e))
    ensures Count(h, p) == Count(h, q) + Count(h, r)
  {
    if h != [] {
      CountSplits(h[..|h| - 1], p, q, r);
    }
  }

  lemma {:induction false} SecMonotone(a: int, b: int)
    requires a <= b
    ensures Sec(a) <= Sec(b)
  {
  }

  lemma {:induction false} MultipleAtLeast(n: int, q: int)
    requires n > 0 && q >= 1
    ensures n * q >= n
  {
  }

  lemma {:induction false} SameResidue(a: int, b: int, n: nat)
    requires n > 0 && a <= b < a + n && a % n == b % n
    ensures a == b
  {
    var q := b / n - a / n;
    assert b - a == n * q by {
      assert b == n * (b / n) + b % n && a == n * (a / n) + a % n;
    }
    if q >= 1 {
      MultipleAtLeast(n, q);
    } else if q <= -1 {
      MultipleAtLeast(n, -q);
    }
  }

  /** Touching keeps every other bucket's description: the new entry is not in its class. */
  lemma {:induction false} DescribesOther(b: Bucket, i: nat, n: nat, h: seq<Outcome>, e: Outcome)
    requires n > 0 && Describes(b, i, n, h) && Sec(e.at) % n != i
    ensures Describes(b, i, n, h + [e])
  {
  }

  lemma {:induction false} DescribesTouched(b: Bucket, i: nat, n: nat, h: seq<Outcome>, e: Outcome)
    requires n > 0 && Describes(b, i, n, h) && Sec(e.at) % n == i && NotAfter(h, e.at)
    ensures var c := if b.tsec != Sec(e.at) then Bucket(Sec(e.at), 0, 0) else b;
            Describes(if e.ok then c.(succ := c.succ + 1) else c.(fail := c.fail + 1), i, n, h + [e])
  {
    var g := h + [e];
    var t := Sec(e.at);
    assert g[..|g| - 1] == h && e in g;
    forall x | x in h ensures Sec(x.at) <= t { SecMonotone(x.at, e.at); }
    if b.tsec != t {
      if b.tsec >= 0 {
        var w :| w in h && Sec(w.at) == b.tsec;
        assert b.tsec <= t;
      }
      assert forall x :: x in h && Sec(x.at) % n == i ==> Sec(x.at) < t;
      CountNone(h, AtSecond(t, true));
      CountNone(h, AtSecond(t, false));
    }
    assert Count(g, AtSecond(t, true)) == Count(h, AtSecond(t, true)) + if e.ok then 1 else 0;
    assert Count(g, AtSecond(t, false)) == Count(h, AtSecond(t, false)) + if e.ok then 0 else 1;
  }

  lemma {:induction false} OrderedLast(h: seq<Outcome>, e: Outcome)
    requires Ordered(h + [e])
    ensures NotAfter(h, e.at)
  {
    var g := h + [e];
    forall x | x in h
      ensures x.at <= e.at
    {
      var i :| 0 <= i < |h| && h[i] == x;
      assert g[i] == x && g[|h|] == e;
    }
  }

  lemma {:induction false} TouchDescribes(ring: seq<Bucket>, h0: seq<Outcome>, e: Outcome, i: nat)
    requires i < |ring| && Describes(ring[i], i, |ring|, h0) && NotAfter(h0, e.at)
    ensures Describes(Touch(ring, e.at, e.ok)[i], i, |ring|, h0 + [e])
  {
    if i == Sec(e.at) % |ring| {
      DescribesTouched(ring[i], i, |ring|, h0, e);
    } else {
      DescribesOther(ring[i], i, |ring|, h0, e);
    }
  }

  lemma {:induction false} TouchFaithful(ring: seq<Bucket>, h0: seq<Outcome>, e: Outcome)
    requires |ring| > 0 && Faithful(ring, h0) && NotAfter(h0, e.at)
    ensures Faithful(Touch(ring, e.at, e.ok), h0 + [e])
  {
    forall i | 0 <= i < |ring|
      ensures Describes(Touch(ring, e.at, e.ok)[i], i, |ring|, h0 + [e])
    {
      TouchDescribes(ring, h0, e, i);
    }
  }

  lemma {:induction false} ReplayFaithful(n: nat, h: seq<Outcome>)
    requires n > 0 && Ordered(h)
    ensures Faithful(Replay(n, h), h)
  {
    if h != [] {
      var h0, e := h[..|h| - 1], h[|h| - 1];
      ReplayFaithful(n, h0);
      assert h == h0 + [e];
      OrderedLast(h0, e);
      TouchFaithful(Replay(n, h0), h0, e);
    }
  }

  // ----- Exactness -----

  function InClasses(window: int, now: int, ok: bool, n: nat, k: nat): Outcome -> bool
    requires n > 0
  {
    (e: Outcome) => Windowed(window, now, ok, e) && Sec(e.at) % n < k
  }

  function InClass(window: int, now: int, ok: bool, n: nat, i: nat): Outcome -> bool
    requires n > 0
  {
    (e: Outcome) => Windowed(window, now, ok, e) && Sec(e.at) % n == i
  }

  lemma {:induction false} StaleShare(b: Bucket, i: nat, n: nat, h: seq<Outcome>, window: int, now: int, ok: bool)
    requires n > 0 && Describes(b, i, n, h)
    requires b.tsec < 0 || b.tsec <= Threshold(window, now)
    ensures Count(h, InClass(window, now, ok, n, i)) == 0
  {
    var p := InClass(window, now, ok, n, i);
    forall e | e in h ensures !p(e) {
      assert Sec(e.at) % n != i || Sec(e.at) <= Threshold(window, now);
    }
    CountNone(h, p);
  }

  lemma {:induction false} LiveShare(b: Bucket, i: nat, n: nat, h: seq<Outcome>, window: int, now: int, ok: bool)
    requires n > 0 && Describes(b, i, n, h) && NotAfter(h, now)
    requires Sec(now) - Threshold(window, now) <= n
    requires b.tsec >= 0 && b.tsec > Threshold(window, now)
    ensures Count(h, InClass(window, now, ok, n, i)) == Count(h, AtSecond(b.tsec, ok))
  {
    var p, q := InClass(window, now, ok, n, i), AtSecond(b.tsec, ok);
    var w :| w in h && Sec(w.at) == b.tsec;
    SecMonotone(w.at, now);
    forall e | e in h ensures p(e) == q(e) {
      SecMonotone(e.at, now);
      if p(e) {
        SameResidue(Sec(e.at), b.tsec, n);
      }
    }
    CountAgrees(h, p, q);
  }

  /** One bucket's share is the windowed count of its whole residue class. */
  lemma {:induction false} ShareExact(b: Bucket, i: nat, n: nat, h: seq<Outcome>, window: int, now: int, ok: bool)
    requires n > 0 && Describes(b, i, n, h) && NotAfter(h, now)
    requires Sec(now) - Threshold(window, now) <= n
    ensures Share(b, Threshold(window, now), ok) == Count(h, InClass(window, now, ok, n, i))
  {
    if b.tsec < 0 || b.tsec <= Threshold(window, now) {
      StaleShare(b, i, n, h, window, now, ok);
    } else {
      LiveShare(b, i, n, h, window, now, ok);
    }
  }

  lemma {:induction false} TallyPrefixExact(ring: seq<Bucket>, k: nat, h: seq<Outcome>, window: int, now: int, ok: bool)
    requires |ring| > 0 && k <= |ring| && window > 0 && Faithful(ring, h) && NotAfter(h, now)
    requires Sec(now) - Threshold(window, now) <= |ring|
    ensures Tally(ring[..k], Threshold(window, now), ok) == Count(h, InClasses(window, now, ok, |ring|, k))
  {
    var n := |ring|;
    if k == 0 {
      CountNone(h, InClasses(window, now, ok, n, 0));
    } else {
      TallyPrefixExact(ring, k - 1, h, window, now, ok);
      assert ring[..k][..k - 1] == ring[..k - 1];
      ShareExact(ring[k - 1], k - 1, n, h, window, now, ok);
      CountSplits(h, InClasses(window, now, ok, n, k), InClasses(window, now, ok, n, k - 1),
                  InClass(window, now, ok, n, k - 1));
    }
  }

  /** The tally is the exact windowed count whenever the window spans at most one turn of the ring. */
  lemma {:induction false} TallyExact(window: int, h: seq<Outcome>, now: nat)
    requires window > 0 && Ordered(h) && NotAfter(h, now)
    requires Sec(now) - Threshold(window, now) <= BucketCount(window)
    ensures TallyCorrect(window, h, now)
  {
    var n := BucketCount(window);
    var ring := Replay(n, h);
    ReplayFaithful(n, h);
    forall ok ensures Tally(ring, Threshold(window, now), ok) == Count(h, InWindow(window, now, ok)) {
      TallyPrefixExact(ring, n, h, window, now, ok);
      assert ring[..n] == ring;
      CountAgrees(h, InClasses(window, now, ok, n, n), InWindow(window, now, ok));
    }
  }

  predicate ExactWindow(window: int) {
    window < SECOND || window % SECOND == 0
  }

  lemma {:induction false} SpanFits(window: int, now: nat)
    requires window > 0 && ExactWindow(window)
    ensures Sec(now) - Threshold(window, now) <= BucketCount(window)
  {
    if window % SECOND == 0 {
      assert now == SECOND * (now / SECOND) + now % SECOND;
      var k := window / SECOND;
      assert now - window == SECOND * (now / SECOND - k) + now % SECOND;
      assert Threshold(window, now) == Sec(now) - k;
    }
  }

  /**
   The ring agrees with the full history at every moment of every ordered run exactly when
   the window is shorter than a second or a whole number of seconds.
   */
  lemma {:induction false} WindowExactIff(window: int)
    requires window > 0
    ensures (forall h: seq<Outcome>, now: nat :: Ordered(h) && NotAfter(h, now) ==> TallyCorrect(window, h, now))
            <==> ExactWindow(window)
  {
    if ExactWindow(window) {
      forall h: seq<Outcome>, now: nat | Ordered(h) && NotAfter(h, now) ensures TallyCorrect(window, h, now) {
        SpanFits(window, now);
        TallyExact(window, h, now);
      }
    } else {
      var h, now := FractionalWindowLoses(window);
    }
  }

  /** A fractional window of at least a second: the second record overwrites the first, which still counts. */
  lemma {:induction false} FractionalWindowLoses(window: int) returns (h: seq<Outcome>, now: nat)
    requires window > 0 && !ExactWindow(window)
    ensures Ordered(h) && NotAfter(h, now) && !TallyCorrect(window, h, now)
  {
    var k := window / SECOND;
    now := k * SECOND;
    var a, b := Outcome(0, true), Outcome(now, true);
    h := [a, b];
    var th := Threshold(window, now);
    assert th == -1;
    assert h[..1] == [a] && [a][..0] == [];
    assert Count([], InWindow(window, now, true)) == 0;
    assert Count([a], InWindow(window, now, true)) == 1;
    assert Count(h, InWindow(window, now, true)) == 2;
    assert BucketCount(window) == k && k % k == 0 && Sec(now) == k;
    var r0 := Cleared(k);
    var r1 := Touch(r0, 0, true);
    assert Replay(k, []) == r0 && Replay(k, [a]) == r1;
    assert r1 == r0[0 := Bucket(0, 1, 0)];
    assert Replay(k, h) == Touch(r1, now, true) == r0[0 := Bucket(k, 1, 0)];
    TallySingle(Replay(k, h), th);
    assert Tally(Replay(k, h), th, true) == 1;
  }

  lemma {:induction false} TallySingle(ring: seq<Bucket>, th: int)
    requires |ring| > 0 && forall i :: 1 <= i < |ring| ==> ring[i] == EMPTY
    ensures Tally(ring, th, true) == Share(ring[0], th, true)
  {
    if |ring| > 1 {
      TallySingle(ring[..|ring| - 1], th);
    } else {
      assert Tally(ring[..0], th, true) == 0;
    }
  }

  // ----- The imperative ring -----

  class Ring {
    const buckets: array<Bucket>
    const window: int

    ghost predicate Valid()
      reads this
    {
      window > 0 && buckets.Length == BucketCount(window)
    }

    ghost function View(): seq<Bucket>
      reads this, buckets
    {
      buckets[..]
    }

    constructor (window: int)
      requires window > 0
      ensures Valid() && this.window == window && fresh(buckets)
      ensures View() == Cleared(BucketCount(window))
    {
      this.window := window;
      buckets := new Bucket[BucketCount(window)](i => EMPTY);
    }

    method Clear()
      requires Valid()
      modifies buckets
      ensures View() == Cleared(BucketCount(window))
    {
      for i := 0 to buckets.Length
        invariant forall j :: 0 <= j < i ==> buckets[j] == EMPTY
      {
        buckets[i] := EMPTY;
      }
    }

    method TouchBucket(now: nat, ok: bool)
      requires Valid()
      modifies buckets
      ensures View() == Touch(old(View()), now, ok)
    {
      var tsec := Sec(now);
      var idx := tsec % buckets.Length;
      if buckets[idx].tsec != tsec {
        buckets[idx] := Bucket(tsec, 0, 0);
      }
      if ok {
        buckets[idx] := buckets[idx].(succ := buckets[idx].succ + 1);
      } else {
        buckets[idx] := buckets[idx].(fail := buckets[idx].fail + 1);
      }
    }

    method TallyWindow(now: nat) returns (succ: nat, fail: nat)
      requires Valid()
      ensures succ == Tally(View(), Threshold(window, now), true)
      ensures fail == Tally(View(), Threshold(window, now), false)
    {
      var threshold := Threshold(window, now);
      succ, fail := 0, 0;
      for i := 0 to buckets.Length
        invariant succ == Tally(buckets[..i], threshold, true)
        invariant fail == Tally(buckets[..i], threshold, false)
      {
        var b := buckets[i];
        assert buckets[..i + 1][..i] == buckets[..i];
        if b.tsec < 0 || b.tsec <= threshold {
          continue;
        }
        succ := succ + b.succ;
        fail := fail + b.fail;
      }
      assert buckets[..buckets.Length] == buckets[..];
    }
  }
}
