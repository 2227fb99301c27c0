/**
 The three-state circuit breaker on top of the rolling window. Each call is one atomic
 step; a run is any sequence of calls with a non-decreasing clock.
 */
module CircuitBreaker {
  import opened RealFacts
  import opened RollingWindow

  datatype State = Closed | HalfOpen | Open

  datatype Config = Config(threshold: real, minSamples: int, window: int, openDuration: int, probes: int) {
    predicate Normal() {
      threshold > 0.0 && minSamples > 0 && window > 0 && openDuration > 0 && probes > 0
    }
  }

  function Defaults(c: Config): (d: Config)
    ensures d.Normal() && (c.Normal() ==> d == c)
  {
    Config(if c.threshold <= 0.0 then 0.5 else c.threshold,
           if c.minSamples <= 0 then 20 else c.minSamples,
           if c.window <= 0 then 60 * SECOND else c.window,
           if c.openDuration <= 0 then 30 * SECOND else c.openDuration,
           if c.probes <= 0 then 5 else c.probes)
  }

  datatype Breaker = Breaker(state: State, openedAt: int, halfSuccess: int, ring: seq<Bucket>)

  datatype Call = Allow(now: nat) | Record(now: nat, ok: bool) | ForceOpen(now: nat)

  function Init(c: Config): Breaker
    requires c.Normal()
  {
    Breaker(Closed, 0, 0, Cleared(BucketCount(c.window)))
  }

  predicate Admits(c: Config, b: Breaker, now: nat) {
    b.state != Open || now - b.openedAt >= c.openDuration
  }

  predicate Tripped(c: Config, succ: nat, fail: nat)
    requires c.Normal()
  {
    succ + fail >= c.minSamples && fail as real / (succ + fail) as real >= c.threshold
  }

  function AllowStep(c: Config, b: Breaker, now: nat): Breaker {
    if b.state == Open && Admits(c, b, now) then b.(state := HalfOpen, halfSuccess := 0) else b
  }

  function RecordStep(c: Config, b: Breaker, now: nat, ok: bool): Breaker
    requires c.Normal() && |b.ring| > 0
  {
    var b := b.(ring := Touch(b.ring, now, ok));
    var th := Threshold(c.window, now);
    match b.state
    case HalfOpen =>
      if !ok then b.(openedAt := now, state := Open)
      else if b.halfSuccess + 1 >= c.probes then
        b.(halfSuccess := b.halfSuccess + 1, state := Closed, ring := Cleared(|b.ring|))
      else b.(halfSuccess := b.halfSuccess + 1)
    case Open => b
    case Closed =>
      if Tripped(c, Tally(b.ring, th, true), Tally(b.ring, th, false)) then b.(openedAt := now, state := Open) else b
  }

  function Step(c: Config, b: Breaker, call: Call): (r: Breaker)
    requires c.Normal() && |b.ring| > 0
    ensures |r.ring| == |b.ring|
  {
    match call
    case Allow(now) => AllowStep(c, b, now)
    case Record(now, ok) => RecordStep(c, b, now, ok)
    case ForceOpen(now) => b.(openedAt := now, state := Open)
  }

  function After(c: Config, calls: seq<Call>): (b: Breaker)
    requires c.Normal()
    ensures |b.ring| == BucketCount(c.window)
  {
    if calls == [] then Init(c) else Step(c, After(c, calls[..|calls| - 1]), calls[|calls| - 1])
  }

  ghost predicate InOrder(calls: seq<Call>) {
    forall i, j :: 0 <= i <= j < |calls| ==> calls[i].now <= calls[j].now
  }

  // ----- Runs, observed from outside -----

  /** State before the k-th call. */
  function StateAt(c: Config, calls: seq<Call>, k: nat): State
    requires c.Normal() && k <= |calls|
  {
    After(c, calls[..k]).state
  }

  /** The k-th call opens the breaker, or opens it again. */
  predicate Opens(c: Config, calls: seq<Call>, k: nat)
    requires c.Normal() && k < |calls|
  {
    StateAt(c, calls, k + 1) == Open && (calls[k].ForceOpen? || StateAt(c, calls, k) != Open)
  }

  predicate EntersHalfOpen(c: Config, calls: seq<Call>, k: nat)
    requires c.Normal() && k < |calls|
  {
    StateAt(c, calls, k) != HalfOpen && StateAt(c, calls, k + 1) == HalfOpen
  }

  /** The outcomes recorded since the breaker last became Closed. */
  function SinceClosed(c: Config, calls: seq<Call>): seq<Outcome>
    requires c.Normal()
  {
    if calls == [] then []
    else
      var k := |calls| - 1;
      if StateAt(c, calls, k) != Closed && StateAt(c, calls, k + 1) == Closed then []
      else SinceClosed(c, calls[..k]) + OutcomeOf(calls[k])
  }

  function OutcomeOf(call: Call): seq<Outcome> {
    match call
    case Record(now, ok) => [Outcome(now, ok)]
    case _ => []
  }

  function Records(calls: seq<Call>): nat {
    if calls == [] then 0 else Records(calls[..|calls| - 1]) + if calls[|calls| - 1].Record? then 1 else 0
  }

  lemma {:induction false} Unfold(c: Config, calls: seq<Call>, k: nat)
    requires c.Normal() && k < |calls|
    ensures After(c, calls[..k + 1]) == Step(c, After(c, calls[..k]), calls[k])
  {
    assert calls[..k + 1][..k] == calls[..k];
  }

  // ----- Tripping -----

  lemma {:induction false} RingHoldsSinceClosed(c: Config, calls: seq<Call>)
    requires c.Normal()
    ensures After(c, calls).ring == Replay(BucketCount(c.window), SinceClosed(c, calls))
  {
    if calls != [] {
      var k := |calls| - 1;
      RingHoldsSinceClosed(c, calls[..k]);
      assert calls[..k + 1] == calls;
      RingStep(c, After(c, calls[..k]), calls[k], SinceClosed(c, calls[..k]));
    }
  }

  lemma {:induction false} RingStep(c: Config, b: Breaker, call: Call, h: seq<Outcome>)
    requires c.Normal() && b.ring == Replay(BucketCount(c.window), h) && |b.ring| > 0
    ensures var r := Step(c, b, call);
            r.ring == Replay(BucketCount(c.window), if b.state != Closed && r.state == Closed then [] else h + OutcomeOf(call))
  {
    if call.Record? {
      var e := Outcome(call.now, call.ok);
      assert (h + [e])[..|h|] == h;
    } else {
      assert h + [] == h;
    }
  }

  lemma {:induction false} OrderedSnoc(h: seq<Outcome>, call: Call)
    requires Ordered(h) && NotAfter(h, call.now)
    ensures Ordered(h + OutcomeOf(call)) && NotAfter(h + OutcomeOf(call), call.now)
  {
    forall i | 0 <= i < |h|
      ensures h[i].at <= call.now
    {
      assert h[i] in h;
    }
  }

  lemma {:induction false} SinceClosedOrdered(c: Config, calls: seq<Call>)
    requires c.Normal() && InOrder(calls)
    ensures Ordered(SinceClosed(c, calls))
    ensures calls != [] ==> NotAfter(SinceClosed(c, calls), calls[|calls| - 1].now)
    ensures calls == [] ==> SinceClosed(c, calls) == []
  {
    if calls != [] {
      var k := |calls| - 1;
      var h := SinceClosed(c, calls[..k]);
      SinceClosedOrdered(c, calls[..k]);
      if k > 0 {
        assert calls[..k][k - 1].now <= calls[k].now;
      }
      assert NotAfter(h, calls[k].now);
      OrderedSnoc(h, calls[k]);
    }
  }

  /** The outcomes of one kind within the window, out of those since the breaker last became Closed and one more. */
  function Recent(c: Config, calls: seq<Call>, now: nat, ok: bool, good: bool): nat
    requires c.Normal()
  {
    Count(SinceClosed(c, calls) + [Outcome(now, ok)], InWindow(c.window, now, good))
  }

  /**
   A closed breaker opens on a Record exactly when the outcomes since it last became Closed,
   counted over the whole history within the window, number at least MinSamples, and the
   failures among them reach the threshold's share; otherwise it stays closed.
   */
  lemma {:induction false} TripsExactlyWhen(c: Config, calls: seq<Call>, now: nat, ok: bool, good: nat, bad: nat)
    requires c.Normal() && ExactWindow(c.window) && After(c, calls).state == Closed
    requires InOrder(calls + [Record(now, ok)])
    requires good == Recent(c, calls, now, ok, true) && bad == Recent(c, calls, now, ok, false)
    ensures After(c, calls + [Record(now, ok)]).state
            == if good + bad >= c.minSamples && bad as real >= c.threshold * (good + bad) as real then Open else Closed
  {
    RingHoldsSinceClosed(c, calls);
    HistoryInOrder(c, calls, Record(now, ok));
    OneMore(c, calls, Record(now, ok));
    ClosedRecord(c, After(c, calls), now, ok, SinceClosed(c, calls), good, bad);
  }

  lemma {:induction false} TrippedInCounts(c: Config, good: nat, bad: nat)
    requires c.Normal()
    ensures Tripped(c, good, bad) <==> good + bad >= c.minSamples && bad as real >= c.threshold * (good + bad) as real
  {
    if good + bad >= c.minSamples {
      QuotientAtLeast(bad as real, (good + bad) as real, c.threshold);
    }
  }

  lemma {:induction false} HistoryInOrder(c: Config, calls: seq<Call>, next: Call)
    requires c.Normal() && InOrder(calls + [next])
    ensures Ordered(SinceClosed(c, calls)) && NotAfter(SinceClosed(c, calls), next.now)
  {
    var all := calls + [next];
    forall i, j | 0 <= i <= j < |calls| ensures calls[i].now <= calls[j].now {
      assert all[i] == calls[i] && all[j] == calls[j];
    }
    SinceClosedOrdered(c, calls);
    if calls != [] {
      assert all[|calls| - 1].now <= all[|calls|].now;
    }
  }

  /** A closed breaker whose ring holds the history h0 judges the history with the new outcome. */
  lemma {:induction false} ClosedRecord(c: Config, b: Breaker, now: nat, ok: bool, h0: seq<Outcome>, good: nat, bad: nat)
    requires c.Normal() && ExactWindow(c.window) && b.state == Closed && |b.ring| > 0
    requires b.ring == Replay(BucketCount(c.window), h0) && Ordered(h0) && NotAfter(h0, now)
    requires good == Count(h0 + [Outcome(now, ok)], InWindow(c.window, now, true))
    requires bad == Count(h0 + [Outcome(now, ok)], InWindow(c.window, now, false))
    ensures Step(c, b, Record(now, ok)).state
            == if good + bad >= c.minSamples && bad as real >= c.threshold * (good + bad) as real then Open else Closed
  {
    var h := h0 + [Outcome(now, ok)];
    assert h[..|h0|] == h0;
    SpanFits(c.window, now);
    TallyExact(c.window, h, now);
    TrippedInCounts(c, good, bad);
  }

  // ----- Staying open -----

  lemma {:induction false} NotOpenNorEarly(c: Config, calls: seq<Call>, i: nat, k: nat)
    requires c.Normal() && InOrder(calls) && i < k <= |calls| && Opens(c, calls, i)
    ensures var b := After(c, calls[..k]);
            (b.state == Open && b.openedAt >= calls[i].now) || calls[k - 1].now - calls[i].now >= c.openDuration
  {
    Unfold(c, calls, k - 1);
    assert calls[i].now <= calls[k - 1].now;
    if k > i + 1 {
      NotOpenNorEarly(c, calls, i, k - 1);
      assert calls[k - 2].now <= calls[k - 1].now;
    }
  }

  /** After any opening, nothing at all is admitted for OpenDuration. */
  lemma {:induction false} OpenHoldsOff(c: Config, calls: seq<Call>, i: nat, j: nat)
    requires c.Normal() && InOrder(calls) && i < j < |calls| && Opens(c, calls, i)
    requires Admits(c, After(c, calls[..j]), calls[j].now)
    ensures calls[j].now - calls[i].now >= c.openDuration
  {
    NotOpenNorEarly(c, calls, i, j);
    assert calls[j - 1].now <= calls[j].now;
  }

  /** Conversely the wait is measured from the latest opening and no longer. */
  lemma {:induction false} OpenedAtLatest(c: Config, calls: seq<Call>) returns (i: nat)
    requires c.Normal() && After(c, calls).state == Open
    ensures i < |calls| && Opens(c, calls, i) && forall k :: i < k < |calls| ==> !Opens(c, calls, k)
    ensures After(c, calls).openedAt == calls[i].now
    ensures forall now: nat :: Admits(c, After(c, calls), now) <==> now - calls[i].now >= c.openDuration
  {
    var k := |calls| - 1;
    assert calls[..k + 1] == calls;
    if Opens(c, calls, k) {
      i := k;
    } else {
      i := OpenedAtLatest(c, calls[..k]);
      forall m | i <= m < k ensures Opens(c, calls, m) == Opens(c, calls[..k], m) {
        assert calls[..k][..m] == calls[..m] && calls[..k][..m + 1] == calls[..m + 1];
      }
    }
  }

  // ----- Closing -----

  /** Calls lo..hi hold no failure and no forced opening. */
  ghost predicate Clean(calls: seq<Call>, lo: nat, hi: nat)
    requires hi <= |calls|
  {
    forall k :: lo <= k < hi ==> !calls[k].ForceOpen? && (calls[k].Record? ==> calls[k].ok)
  }

  lemma {:induction false} RecordsSnoc(calls: seq<Call>, x: Call)
    ensures Records(calls + [x]) == Records(calls) + if x.Record? then 1 else 0
  {
  }

  lemma {:induction false} HalfOpenStep(c: Config, b: Breaker, call: Call)
    requires c.Normal() && |b.ring| > 0
    ensures var r := Step(c, b, call);
            && (r.state == HalfOpen && b.state != HalfOpen ==> r.halfSuccess == 0 < c.probes)
            && (r.state == HalfOpen && b.state == HalfOpen ==>
                  !call.ForceOpen? && (call.Record? ==> call.ok)
                  && r.halfSuccess == b.halfSuccess + (if call.Record? then 1 else 0)
                  && (b.halfSuccess < c.probes ==> r.halfSuccess < c.probes))
  {
  }

  /** While half-open, everything recorded since entry was a success, and all of it was counted. */
  lemma {:induction false} HalfOpenEntry(c: Config, calls: seq<Call>) returns (i: nat)
    requires c.Normal() && After(c, calls).state == HalfOpen
    ensures i < |calls| && EntersHalfOpen(c, calls, i) && Clean(calls, i + 1, |calls|)
    ensures Records(calls[i + 1..]) == After(c, calls).halfSuccess < c.probes
  {
    var k := |calls| - 1;
    var pre := calls[..k];
    assert calls[..k + 1] == calls;
    HalfOpenStep(c, After(c, pre), calls[k]);
    if After(c, pre).state != HalfOpen {
      i := k;
      assert calls[i + 1..] == [];
    } else {
      i := HalfOpenEntry(c, pre);
      SameEntry(c, calls, k, i);
      OneMoreCall(calls, k, i + 1);
    }
  }

  lemma {:induction false} OneMoreCall(calls: seq<Call>, k: nat, lo: nat)
    requires k == |calls| - 1 && lo <= k
    ensures Records(calls[lo..]) == Records(calls[..k][lo..]) + if calls[k].Record? then 1 else 0
    ensures Clean(calls, lo, |calls|) == (Clean(calls[..k], lo, k) && Clean(calls, k, |calls|))
  {
    var pre := calls[..k];
    assert calls[lo..] == pre[lo..] + [calls[k]];
    RecordsSnoc(pre[lo..], calls[k]);
    forall m | lo <= m < k ensures calls[m] == pre[m] {}
  }

  lemma {:induction false} SameEntry(c: Config, calls: seq<Call>, k: nat, i: nat)
    requires c.Normal() && i < k <= |calls|
    ensures EntersHalfOpen(c, calls[..k], i) == EntersHalfOpen(c, calls, i)
  {
    assert calls[..k][..i] == calls[..i] && calls[..k][..i + 1] == calls[..i + 1];
  }

  /** The breaker closes only after exactly HalfOpenProbes successes and no failure since it went half-open. */
  lemma {:induction false} ClosesOnlyAfterProbes(c: Config, calls: seq<Call>, j: nat) returns (i: nat)
    requires c.Normal() && j < |calls|
    requires StateAt(c, calls, j) != Closed && StateAt(c, calls, j + 1) == Closed
    ensures i < j && EntersHalfOpen(c, calls, i)
    ensures Clean(calls, i + 1, j + 1) && Records(calls[i + 1..j + 1]) == c.probes
  {
    Unfold(c, calls, j);
    ClosingStep(c, After(c, calls[..j]), calls[j]);
    i := HalfOpenEntry(c, calls[..j]);
    SameEntry(c, calls, j, i);
    SpanExtends(calls, j, i + 1);
  }

  lemma {:induction false} ClosingStep(c: Config, b: Breaker, call: Call)
    requires c.Normal() && |b.ring| > 0 && b.state != Closed && Step(c, b, call).state == Closed
    ensures b.state == HalfOpen && call.Record? && call.ok && b.halfSuccess + 1 >= c.probes
  {
  }

  lemma {:induction false} SpanExtends(calls: seq<Call>, j: nat, lo: nat)
    requires lo <= j < |calls|
    ensures Records(calls[lo..j + 1]) == Records(calls[..j][lo..]) + if calls[j].Record? then 1 else 0
    ensures Clean(calls, lo, j + 1) == (Clean(calls[..j], lo, j) && Clean(calls, j, j + 1))
  {
    var pre := calls[..j];
    assert calls[lo..j + 1] == pre[lo..] + [calls[j]];
    RecordsSnoc(pre[lo..], calls[j]);
    forall m | lo <= m < j ensures calls[m] == pre[m] {}
  }

  lemma {:induction false} OneMore(c: Config, calls: seq<Call>, call: Call)
    requires c.Normal()
    ensures After(c, calls + [call]) == Step(c, After(c, calls), call)
  {
    assert (calls + [call])[..|calls|] == calls;
  }

  /** A half-open breaker reopens on a failure, closes on the success that completes the probes since it went half-open, and waits on any other. */
  lemma {:induction false} HalfOpenRecord(c: Config, calls: seq<Call>, now: nat, ok: bool) returns (i: nat)
    requires c.Normal() && After(c, calls).state == HalfOpen
    ensures i < |calls| && EntersHalfOpen(c, calls, i) && Clean(calls, i + 1, |calls|)
    ensures var r := After(c, calls + [Record(now, ok)]);
            && r.state == (if !ok then Open else if Records(calls[i + 1..]) + 1 >= c.probes then Closed else HalfOpen)
            && (!ok ==> r.openedAt == now)
  {
    i := HalfOpenEntry(c, calls);
    OneMore(c, calls, Record(now, ok));
  }

  /** What does not depend on outcomes: an open breaker ignores records, a forced opening opens it, and asking moves it only from Open, to HalfOpen, once the wait is over. */
  lemma {:induction false} OtherMoves(c: Config, calls: seq<Call>, now: nat, ok: bool)
    requires c.Normal()
    ensures After(c, calls).state == Open ==>
              After(c, calls + [Record(now, ok)]).state == Open && After(c, calls + [Record(now, ok)]).openedAt == After(c, calls).openedAt
    ensures After(c, calls + [ForceOpen(now)]).state == Open && After(c, calls + [ForceOpen(now)]).openedAt == now
    ensures After(c, calls + [Allow(now)]).state
            == if After(c, calls).state == Open && now - After(c, calls).openedAt >= c.openDuration then HalfOpen else After(c, calls).state
    ensures Admits(c, After(c, calls), now) <==> After(c, calls).state != Open || now - After(c, calls).openedAt >= c.openDuration
  {
    OneMore(c, calls, Record(now, ok));
    OneMore(c, calls, ForceOpen(now));
    OneMore(c, calls, Allow(now));
  }

  // ----- The imperative breaker -----

  /** Enough outcomes, and enough of them failures. */
  ghost predicate Enough(c: Config, good: nat, bad: nat) {
    good + bad >= c.minSamples && bad as real >= c.threshold * (good + bad) as real
  }

  /** r is what a record makes of b: in counts of the ring while closed, of successes while half-open, and nothing while open. */
  ghost predicate Decided(c: Config, b: Breaker, r: Breaker, now: nat, ok: bool) {
    match b.state
    case Closed =>
      if Enough(c, Tally(r.ring, Threshold(c.window, now), true), Tally(r.ring, Threshold(c.window, now), false))
      then r.state == Open && r.openedAt == now
      else r.state == Closed
    case HalfOpen =>
      if !ok then r.state == Open && r.openedAt == now
      else r.halfSuccess == b.halfSuccess + 1 && r.state == if r.halfSuccess >= c.probes then Closed else HalfOpen
    case Open => r.state == Open && r.openedAt == b.openedAt
  }

  lemma {:induction false} RecordDecides(c: Config, b: Breaker, now: nat, ok: bool)
    requires c.Normal() && |b.ring| > 0
    ensures Decided(c, b, RecordStep(c, b, now, ok), now, ok)
  {
    var ring := Touch(b.ring, now, ok);
    EnoughTrips(c, Tally(ring, Threshold(c.window, now), true), Tally(ring, Threshold(c.window, now), false));
  }

  lemma {:induction false} EnoughTrips(c: Config, good: nat, bad: nat)
    requires c.Normal()
    ensures Tripped(c, good, bad) <==> Enough(c, good, bad)
  {
    TrippedInCounts(c, good, bad);
  }

  class CircuitBreaker {
    const cfg: Config
    const ring: Ring
    var state: State
    var openedAt: int
    var halfSuccess: int

    ghost predicate Valid()
      reads this, ring
    {
      cfg.Normal() && ring.Valid() && ring.window == cfg.window
    }

    ghost function View(): Breaker
      reads this, ring, ring.buckets
    {
      Breaker(state, openedAt, halfSuccess, ring.View())
    }

    constructor (c: Config)
      ensures Valid() && cfg == Defaults(c) && View() == Init(cfg)
      ensures fresh(ring) && fresh(ring.buckets)
    {
      cfg := Defaults(c);
      ring := new Ring(Defaults(c).window);
      state := Closed;
      openedAt := 0;
      halfSuccess := 0;
    }

    method AllowCall(now: nat) returns (admitted: bool)
      requires Valid()
      modifies this
      ensures Valid() && View() == AllowStep(cfg, old(View()), now)
      ensures admitted == Admits(cfg, old(View()), now)
    {
      match state {
        case Closed => return true;
        case HalfOpen => return true;
        case Open =>
          if now - openedAt >= cfg.openDuration {
            state := HalfOpen;
            halfSuccess := 0;
            return state == HalfOpen;
          }
          return false;
      }
    }

    method RecordCall(now: nat, ok: bool)
      requires Valid()
      modifies this, ring.buckets
      ensures Valid() && View() == RecordStep(cfg, old(View()), now, ok)
      ensures Decided(cfg, old(View()), View(), now, ok)
    {
      RecordDecides(cfg, View(), now, ok);
      ring.TouchBucket(now, ok);
      var succ, fail := ring.TallyWindow(now);
      if state == HalfOpen {
        if ok {
          halfSuccess := halfSuccess + 1;
          if halfSuccess >= cfg.probes {
            state := Closed;
            ring.Clear();
          }
        } else {
          openedAt := now;
          state := Open;
        }
        return;
      }
      if state != Closed {
        return;
      }
      var total := succ + fail;
      if total < cfg.minSamples {
        return;
      }
      var rate := fail as real / total as real;
      if rate >= cfg.threshold {
        openedAt := now;
        state := Open;
      }
    }

    method ForceOpenCall(now: nat)
      requires Valid()
      modifies this
      ensures Valid() && View() == Step(cfg, old(View()), ForceOpen(now))
    {
      openedAt := now;
      state := Open;
    }
  }
}
