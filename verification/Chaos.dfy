/**
 The chaos scheduler: faults fired when the run clock reaches their mark, recovered once
 their duration is over, and all recovered by Close. A run is any sequence of Start, Tick
 and Close calls with Start at most once; the clock need not be monotone. Which injections
 and recoveries fail is decided afresh at every call.
 */
module Chaos {

  datatype Option<+T> = None | Some(value: T)

  datatype Event = Event(at: int, duration: int, kind: string, notes: string)

  datatype Row = Row(kind: string, startedAt: int, recoveredAt: Option<int>, duration: int,
                     injectFailed: bool, recoveryFailed: bool, notes: string)

  /** `active` stands for a non-nil Recovery. */
  datatype Entry = Entry(startedAt: int, deadline: int, active: bool, rolledOut: bool) {
    predicate Waiting() {
      !active && !rolledOut
    }
  }

  datatype Config = Config(events: seq<Event>, jitter: int)

  /** Every Inject and every Recovery call made so far. */
  datatype Fire = Fire(idx: nat, time: int, ok: bool)
  datatype Recovery = Recovery(idx: nat, time: int, failed: bool, byClose: bool)

  datatype State = State(start: Option<int>, pending: seq<Entry>, rows: seq<Row>, closed: bool,
                         fires: seq<Fire>, recoveries: seq<Recovery>)

  datatype Action =
    | Start(time: int)
    | Tick(now: int, injectFails: set<nat>, recoverFails: set<nat>)
    | Close(now: int, recoverFails: set<nat>)

  const INIT := State(None, [], [], false, [], [])

  ghost predicate Sorted(events: seq<Event>) {
    forall i, j :: 0 <= i <= j < |events| ==> events[i].at <= events[j].at
  }

  // ----- Construction: target gate and sort -----

  predicate TargetAllowed(name: string, allowed: set<string>) {
    name != "" && name in if allowed == {} then {"perf-aws", "perf-staging"} else allowed
  }

  function InsertByAt(events: seq<Event>, e: Event): seq<Event> {
    if events == [] then [e]
    else if e.at < events[0].at then [e] + events
    else [events[0]] + InsertByAt(events[1..], e)
  }

  lemma {:induction false} HeadBag(events: seq<Event>)
    requires events != []
    ensures multiset(events) == multiset(events[1..]) + multiset{events[0]}
  {
    assert events == [events[0]] + events[1..];
  }

  lemma {:induction false} ConsSorted(e: Event, rest: seq<Event>)
    requires Sorted(rest) && forall x :: x in rest ==> e.at <= x.at
    ensures Sorted([e] + rest) && multiset([e] + rest) == multiset(rest) + multiset{e}
  {
  }

  lemma {:induction false} StillLeast(head: Event, rest: seq<Event>, e: Event, r: seq<Event>)
    requires multiset(r) == multiset(rest) + multiset{e} && head.at <= e.at && forall x :: x in rest ==> head.at <= x.at
    ensures forall x :: x in r ==> head.at <= x.at
  {
    forall x | x in r
      ensures head.at <= x.at
    {
      assert x in multiset(r);
      assert x == e || x in rest;
    }
  }

  lemma {:induction false} InsertSorts(events: seq<Event>, e: Event)
    requires Sorted(events)
    ensures Sorted(InsertByAt(events, e)) && multiset(InsertByAt(events, e)) == multiset(events) + multiset{e}
  {
    if events != [] {
      var head, rest := events[0], events[1..];
      HeadBag(events);
      if e.at < head.at {
        ConsSorted(e, events);
      } else {
        InsertSorts(rest, e);
        var r := InsertByAt(rest, e);
        StillLeast(head, rest, e, r);
        ConsSorted(head, r);
      }
    }
  }

  /** One order by At; how ties fall is not promised, and the theorems below hold for every sorted list. */
  function SortByAt(events: seq<Event>): seq<Event> {
    if events == [] then [] else InsertByAt(SortByAt(events[1..]), events[0])
  }

  lemma {:induction false} SortByAtSorts(events: seq<Event>)
    ensures Sorted(SortByAt(events)) && multiset(SortByAt(events)) == multiset(events)
  {
    if events != [] {
      SortByAtSorts(events[1..]);
      InsertSorts(SortByAt(events[1..]), events[0]);
      HeadBag(events);
    }
  }

  function NewScheduler(target: string, allowed: set<string>, events: seq<Event>, jitter: int): (r: Option<Config>)
    ensures r.Some? <==> target != "" && (target in allowed || (allowed == {} && (target == "perf-aws" || target == "perf-staging")))
    ensures r.Some? ==> Sorted(r.value.events) && multiset(r.value.events) == multiset(events)
    ensures r.Some? ==> r.value.jitter > 0 && (jitter > 0 ==> r.value.jitter == jitter) && (jitter <= 0 ==> r.value.jitter == 500_000_000)
  {
    SortByAtSorts(events);
    if TargetAllowed(target, allowed) then
      Some(Config(SortByAt(events), if jitter <= 0 then 500_000_000 else jitter))
    else None
  }

  // ----- Steps -----

  /** The most recent unrecovered row of this type and start time, or -1. */
  function LastMatch(rows: seq<Row>, kind: string, startedAt: int): (k: int)
    ensures -1 <= k < |rows|
  {
    if rows == [] then -1
    else
      var r := rows[|rows| - 1];
      if r.kind == kind && r.recoveredAt.None? && r.startedAt == startedAt then |rows| - 1
      else LastMatch(rows[..|rows| - 1], kind, startedAt)
  }

  function RecoverStep(c: Config, s: State, i: nat, now: int, failed: bool, byClose: bool): (r: State)
    requires i < |s.pending| == |c.events|
    ensures |r.pending| == |s.pending|
  {
    var p := s.pending[i];
    if !p.active then s
    else
      var k := LastMatch(s.rows, c.events[i].kind, p.startedAt);
      s.(rows := if k >= 0 then s.rows[k := s.rows[k].(recoveredAt := Some(now), recoveryFailed := s.rows[k].recoveryFailed || failed)] else s.rows,
         pending := s.pending[i := p.(active := false, rolledOut := true)],
         recoveries := s.recoveries + [Recovery(i, now, failed, byClose)])
  }

  function FireStep(c: Config, s: State, i: nat, now: int, injectFailed: bool, recoverFailed: bool): (r: State)
    requires i < |s.pending| == |c.events|
    ensures |r.pending| == |s.pending|
  {
    var e := c.events[i];
    var s1 := s.(rows := s.rows + [Row(e.kind, now, None, e.duration, injectFailed, false, e.notes)],
                 fires := s.fires + [Fire(i, now, !injectFailed)]);
    if injectFailed then s1.(pending := s.pending[i := s.pending[i].(rolledOut := true)])
    else
      var s2 := s1.(pending := s.pending[i := Entry(now, now + e.duration, true, false)]);
      if e.duration <= 0 then RecoverStep(c, s2, i, now, recoverFailed, false) else s2
  }

  predicate Due(c: Config, s: State, i: nat, now: int)
    requires i < |c.events| && s.start.Some?
  {
    now - s.start.value + c.jitter >= c.events[i].at
  }

  /** One turn of the firing loop. */
  function FireOne(c: Config, s: State, i: nat, a: Action): (r: State)
    requires i < |s.pending| == |c.events| && s.start.Some? && a.Tick?
    ensures |r.pending| == |s.pending| && r.start == s.start && r.closed == s.closed
  {
    if s.pending[i].Waiting() && Due(c, s, i, a.now) then FireStep(c, s, i, a.now, i in a.injectFails, i in a.recoverFails) else s
  }

  function FirePass(c: Config, s: State, k: nat, a: Action): (r: State)
    requires k <= |s.pending| == |c.events| && s.start.Some? && a.Tick?
    ensures |r.pending| == |s.pending| && r.start == s.start && r.closed == s.closed
  {
    if k == 0 then s
    else FireOne(c, FirePass(c, s, k - 1, a), k - 1, a)
  }

  predicate RecoversNow(s: State, i: nat, now: int, closing: bool)
    requires i < |s.pending|
  {
    s.pending[i].active && !s.pending[i].rolledOut && (closing || now >= s.pending[i].deadline)
  }

  /** One turn of the recovery loop. */
  function RecoverOne(c: Config, s: State, i: nat, now: int, failed: bool, closing: bool): (r: State)
    requires i < |s.pending| == |c.events|
    ensures |r.pending| == |s.pending| && r.start == s.start && r.closed == s.closed && r.fires == s.fires && |r.rows| == |s.rows|
  {
    if RecoversNow(s, i, now, closing) then RecoverStep(c, s, i, now, failed, closing) else s
  }

  function RecoverPass(c: Config, s: State, k: nat, now: int, fails: set<nat>, closing: bool): (r: State)
    requires k <= |s.pending| == |c.events|
    ensures |r.pending| == |s.pending| && r.start == s.start && r.closed == s.closed && r.fires == s.fires && |r.rows| == |s.rows|
  {
    if k == 0 then s
    else RecoverOne(c, RecoverPass(c, s, k - 1, now, fails, closing), k - 1, now, k - 1 in fails, closing)
  }

  function Step(c: Config, s: State, a: Action): (r: State)
    requires s.start.Some? ==> |s.pending| == |c.events|
    requires s.start.None? ==> s.pending == []
    ensures r.start.Some? ==> |r.pending| == |c.events|
    ensures r.start.None? ==> r.pending == []
  {
    match a
    case Start(time) => s.(start := Some(time), pending := seq(|c.events|, i => Entry(0, 0, false, false)))
    case Tick(now, _, recoverFails) =>
      if s.closed || s.start.None? then s
      else RecoverPass(c, FirePass(c, s, |c.events|, a), |c.events|, now, recoverFails, false)
    case Close(now, recoverFails) =>
      if s.closed then s
      else if s.start.None? then s.(closed := true)
      else RecoverPass(c, s.(closed := true), |c.events|, now, recoverFails, true)
  }

  function After(c: Config, run: seq<Action>): (s: State)
    ensures s.start.Some? ==> |s.pending| == |c.events|
    ensures s.start.None? ==> s.pending == []
  {
    if run == [] then INIT else Step(c, After(c, run[..|run| - 1]), run[|run| - 1])
  }

  ghost predicate StartsOnce(run: seq<Action>) {
    forall i, j :: 0 <= i < j < |run| ==> !(run[i].Start? && run[j].Start?)
  }

  // ----- Invariant: the k-th fire is event k, and its row is row k -----

  predicate Recovered(s: State, i: nat) {
    exists r :: r in s.recoveries && r.idx == i
  }

  ghost predicate FireOk(c: Config, s: State, k: nat)
    requires k < |s.fires| && k < |s.rows| && k < |s.pending| == |c.events| && s.start.Some?
  {
    var f, e, p, row := s.fires[k], c.events[k], s.pending[k], s.rows[k];
    && f.idx == k
    && f.time - s.start.value >= e.at - c.jitter
    && row.kind == e.kind && row.startedAt == f.time && row.duration == e.duration && row.notes == e.notes
    && row.injectFailed == !f.ok
    && p.active == (f.ok && !Recovered(s, k)) && p.rolledOut == !p.active
    && (p.active ==> p.startedAt == f.time && p.deadline == f.time + e.duration)
  }

  ghost predicate RecoveryOk(c: Config, s: State, r: nat)
    requires r < |s.recoveries| && |s.fires| <= |c.events|
  {
    var v := s.recoveries[r];
    && v.idx < |s.fires| && s.fires[v.idx].ok
    && (v.byClose || v.time >= s.fires[v.idx].time + c.events[v.idx].duration)
    && (v.byClose ==> s.closed)
    && forall q :: 0 <= q < |s.recoveries| && s.recoveries[q].idx == v.idx ==> q == r
  }

  ghost predicate Good(c: Config, s: State) {
    && |s.fires| == |s.rows| <= |c.events|
    && (s.start.None? ==> s.fires == [] && s.pending == [] && s.recoveries == [])
    && (s.start.Some? ==>
          && |s.pending| == |c.events|
          && (forall k :: 0 <= k < |s.fires| ==> FireOk(c, s, k))
          && (forall k :: |s.fires| <= k < |s.pending| ==> s.pending[k].Waiting()))
    && (forall r :: 0 <= r < |s.recoveries| ==> RecoveryOk(c, s, r))
  }

  lemma {:induction false} RecoverStepGood(c: Config, s: State, i: nat, now: int, failed: bool, byClose: bool)
    requires Good(c, s) && s.start.Some? && i < |s.fires| && s.pending[i].active
    requires if byClose then s.closed else now >= s.pending[i].deadline
    ensures Good(c, RecoverStep(c, s, i, now, failed, byClose))
    ensures forall k :: 0 <= k < |s.pending| && k != i ==> RecoverStep(c, s, i, now, failed, byClose).pending[k] == s.pending[k]
  {
    var r := RecoverStep(c, s, i, now, failed, byClose);
    assert FireOk(c, s, i);
    var n := |s.recoveries|;
    assert r.recoveries[n].idx == i && r.recoveries[n] in r.recoveries;
    forall k | 0 <= k < |s.fires| ensures FireOk(c, r, k) {
      assert FireOk(c, s, k);
      if k != i {
        assert Recovered(r, k) == Recovered(s, k) by {
          if Recovered(s, k) {
            var v :| v in s.recoveries && v.idx == k;
            assert v in r.recoveries;
          }
        }
      }
    }
    forall q | 0 <= q < |r.recoveries| ensures RecoveryOk(c, r, q) {
      forall j | 0 <= j < n ensures r.recoveries[j] == s.recoveries[j] && s.recoveries[j].idx != i {
        assert s.recoveries[j] in s.recoveries;
      }
      if q < n {
        assert RecoveryOk(c, s, q);
      }
    }
  }

  /** s right after the Inject call for event i, before any immediate recovery. */
  ghost predicate JustFired(c: Config, s: State, i: nat, now: int, s1: State)
    requires i < |s.pending| && i < |c.events|
  {
    var e := c.events[i];
    exists failed ::
      s1 == s.(rows := s.rows + [Row(e.kind, now, None, e.duration, failed, false, e.notes)],
               fires := s.fires + [Fire(i, now, !failed)],
               pending := if failed then s.pending[i := s.pending[i].(rolledOut := true)]
                          else s.pending[i := Entry(now, now + e.duration, true, false)])
  }

  lemma {:induction false} NotFiredNotRecovered(c: Config, s: State, i: nat)
    requires Good(c, s) && i >= |s.fires|
    ensures !Recovered(s, i)
  {
    forall v | v in s.recoveries ensures v.idx != i {
      var q :| 0 <= q < |s.recoveries| && s.recoveries[q] == v;
      assert RecoveryOk(c, s, q);
    }
  }

  lemma {:induction false} FiredStaysGood(c: Config, s: State, i: nat, now: int, s1: State)
    requires Good(c, s) && s.start.Some? && i == |s.fires| < |c.events| && Due(c, s, i, now) && JustFired(c, s, i, now, s1)
    ensures Good(c, s1)
  {
    NotFiredNotRecovered(c, s, i);
    forall k | 0 <= k < |s1.fires| ensures FireOk(c, s1, k) {
      assert Recovered(s1, k) == Recovered(s, k);
      if k < i {
        assert FireOk(c, s, k);
      }
    }
    forall q | 0 <= q < |s1.recoveries| ensures RecoveryOk(c, s1, q) {
      assert RecoveryOk(c, s, q);
    }
  }

  lemma {:induction false} FireStepGood(c: Config, s: State, i: nat, now: int, injectFailed: bool, recoverFailed: bool)
    requires Good(c, s) && s.start.Some? && i == |s.fires| < |c.events| && Due(c, s, i, now)
    ensures var r := FireStep(c, s, i, now, injectFailed, recoverFailed);
            Good(c, r) && |r.fires| == i + 1 && s.fires <= r.fires
  {
    var e := c.events[i];
    var s1 := s.(rows := s.rows + [Row(e.kind, now, None, e.duration, injectFailed, false, e.notes)],
                 fires := s.fires + [Fire(i, now, !injectFailed)],
                 pending := if injectFailed then s.pending[i := s.pending[i].(rolledOut := true)]
                            else s.pending[i := Entry(now, now + e.duration, true, false)]);
    FiredStaysGood(c, s, i, now, s1);
    if !injectFailed && e.duration <= 0 {
      RecoverStepGood(c, s1, i, now, recoverFailed, false);
    }
  }

  /** After looking at the first k events, the fired ones are a prefix and every due one among them has fired. */
  lemma {:induction false} FirePassGood(c: Config, s: State, k: nat, a: Action)
    requires Sorted(c.events) && Good(c, s) && s.start.Some? && a.Tick? && k <= |c.events|
    ensures var r := FirePass(c, s, k, a);
            && Good(c, r) && |s.fires| <= |r.fires|
            && (|r.fires| == (if k < |s.fires| then |s.fires| else k)
                || (|r.fires| < k && !Due(c, s, |r.fires|, a.now)))
    ensures Good(c, FirePass(c, s, k, a)) && s.fires <= FirePass(c, s, k, a).fires
  {
    if k > 0 {
      FirePassGood(c, s, k - 1, a);
      var p := FirePass(c, s, k - 1, a);
      assert k - 1 < |p.fires| ==> FireOk(c, p, k - 1);
      if p.pending[k - 1].Waiting() && Due(c, p, k - 1, a.now) {
        FireStepGood(c, p, k - 1, a.now, k - 1 in a.injectFails, k - 1 in a.recoverFails);
      } else if k - 1 >= |p.fires| {
        assert p.pending[k - 1].Waiting();
      }
    }
  }

  lemma {:induction false} RecoverOneGood(c: Config, s: State, i: nat, now: int, failed: bool, closing: bool)
    requires Good(c, s) && s.start.Some? && i < |c.events| && (closing ==> s.closed)
    ensures var r := RecoverOne(c, s, i, now, failed, closing);
            && Good(c, r)
            && (forall k :: 0 <= k < |r.pending| && k != i ==> r.pending[k] == s.pending[k])
            && (r.pending[i].active ==> !closing && now < r.pending[i].deadline)
  {
    if i < |s.fires| {
      assert FireOk(c, s, i);
    }
    if RecoversNow(s, i, now, closing) {
      RecoverStepGood(c, s, i, now, failed, closing);
    }
  }

  lemma {:induction false} RecoverPassGood(c: Config, s: State, k: nat, now: int, fails: set<nat>, closing: bool)
    requires Good(c, s) && s.start.Some? && k <= |c.events| && (closing ==> s.closed)
    ensures var r := RecoverPass(c, s, k, now, fails, closing);
            && Good(c, r)
            && (forall i :: k <= i < |r.pending| ==> r.pending[i] == s.pending[i])
            && (forall i :: 0 <= i < k ==> r.pending[i].active ==> !closing && now < r.pending[i].deadline)
  {
    if k > 0 {
      RecoverPassGood(c, s, k - 1, now, fails, closing);
      RecoverOneGood(c, RecoverPass(c, s, k - 1, now, fails, closing), k - 1, now, k - 1 in fails, closing);
    }
  }

  lemma {:induction false} StepGood(c: Config, s: State, a: Action)
    requires Sorted(c.events) && Good(c, s) && (a.Start? ==> s.start.None?)
    ensures Good(c, Step(c, s, a)) && s.fires <= Step(c, s, a).fires
  {
    match a {
      case Start(_) =>
      case Tick(now, _, recoverFails) =>
        if !s.closed && s.start.Some? {
          FirePassGood(c, s, |c.events|, a);
          RecoverPassGood(c, FirePass(c, s, |c.events|, a), |c.events|, now, recoverFails, false);
        }
      case Close(now, recoverFails) =>
        if !s.closed {
          var s1 := s.(closed := true);
          assert Good(c, s1) by {
            ClosedStaysGood(c, s);
          }
          if s.start.Some? {
            RecoverPassGood(c, s1, |c.events|, now, recoverFails, true);
          }
        }
    }
  }

  lemma {:induction false} ClosedStaysGood(c: Config, s: State)
    requires Good(c, s)
    ensures Good(c, s.(closed := true))
  {
    var s1 := s.(closed := true);
    forall q | 0 <= q < |s1.recoveries| ensures RecoveryOk(c, s1, q) {
      assert RecoveryOk(c, s, q);
    }
    if s.start.Some? {
      forall k | 0 <= k < |s1.fires| ensures FireOk(c, s1, k) {
        assert FireOk(c, s, k);
        assert Recovered(s1, k) == Recovered(s, k);
      }
    }
  }

  lemma {:induction false} RunGood(c: Config, run: seq<Action>)
    requires Sorted(c.events) && StartsOnce(run)
    ensures Good(c, After(c, run))
    ensures After(c, run).start.Some? ==> exists i :: 0 <= i < |run| && run[i].Start?
  {
    if run != [] {
      var pre, a := run[..|run| - 1], run[|run| - 1];
      RunGood(c, pre);
      if After(c, pre).start.Some? {
        var i :| 0 <= i < |pre| && pre[i].Start?;
        assert run[i].Start?;
      }
      if a.Start? {
        assert run[|run| - 1].Start?;
      }
      StepGood(c, After(c, pre), a);
    }
  }

  // ----- Theorems over whole runs -----

  /**
   Each event is injected at most once, in order, never earlier than At - JitterTolerance:
   the calls to Inject are exactly events 0, 1, 2, ... of the sorted list.
   */
  lemma {:induction false} FiresAreAPrefix(c: Config, run: seq<Action>, k: nat)
    requires Sorted(c.events) && StartsOnce(run) && k < |After(c, run).fires|
    ensures var s := After(c, run);
            && |s.fires| == |s.rows| <= |c.events| && s.start.Some?
            && s.fires[k].idx == k && s.fires[k].time >= s.start.value + c.events[k].at - c.jitter
  {
    RunGood(c, run);
    assert FireOk(c, After(c, run), k);
  }

  /** A live Tick leaves nothing due behind: every event whose time has come within the tolerance has fired, and every fault whose duration is over has been recovered. */
  lemma {:induction false} TickLeavesNothingDue(c: Config, run: seq<Action>, a: Action)
    requires Sorted(c.events) && StartsOnce(run + [a]) && a.Tick?
    requires After(c, run).start.Some? && !After(c, run).closed
    ensures var s := After(c, run + [a]);
            && s.start == After(c, run).start && |s.fires| <= |c.events|
            && (forall i :: 0 <= i < |c.events| && a.now - s.start.value >= c.events[i].at - c.jitter ==> i < |s.fires|)
            && (forall k :: 0 <= k < |s.fires| && s.fires[k].ok && a.now >= s.fires[k].time + c.events[k].duration ==> Recovered(s, k))
  {
    assert (run + [a])[..|run|] == run;
    StartsOncePrefix(run + [a], |run|);
    RunGood(c, run);
    var s := After(c, run);
    FirePassGood(c, s, |c.events|, a);
    RecoverPassGood(c, FirePass(c, s, |c.events|, a), |c.events|, a.now, a.recoverFails, false);
    var r := After(c, run + [a]);
    LaterNotDue(c, s, r, a.now);
    forall k | 0 <= k < |r.fires| && r.fires[k].ok && a.now >= r.fires[k].time + c.events[k].duration
      ensures Recovered(r, k)
    {
      assert FireOk(c, r, k);
    }
  }

  lemma {:induction false} LaterNotDue(c: Config, s: State, r: State, now: int)
    requires Sorted(c.events) && s.start.Some? && r.start == s.start && |r.fires| <= |c.events|
    requires |r.fires| < |c.events| ==> !Due(c, s, |r.fires|, now)
    ensures forall i :: 0 <= i < |c.events| && now - r.start.value >= c.events[i].at - c.jitter ==> i < |r.fires|
  {
    forall i | |r.fires| <= i < |c.events|
      ensures now - r.start.value < c.events[i].at - c.jitter
    {
      assert c.events[|r.fires|].at <= c.events[i].at;
    }
  }

  /** What r has and s had not was injected, or recovered, now, with the given failures. */
  ghost predicate Adds(s: State, r: State, now: int, injectFails: set<nat>, recoverFails: set<nat>, closing: bool) {
    && s.fires <= r.fires && s.recoveries <= r.recoveries
    && (forall j :: |s.fires| <= j < |r.fires| ==> r.fires[j].time == now && r.fires[j].ok == (r.fires[j].idx !in injectFails))
    && forall j :: |s.recoveries| <= j < |r.recoveries| ==>
         var v := r.recoveries[j]; v.time == now && v.failed == (v.idx in recoverFails) && v.byClose == closing
  }

  lemma {:induction false} FireOneAdds(c: Config, s: State, p: State, i: nat, a: Action)
    requires i < |p.pending| == |c.events| && p.start.Some? && a.Tick?
    requires Adds(s, p, a.now, a.injectFails, a.recoverFails, false)
    ensures Adds(s, FireOne(c, p, i, a), a.now, a.injectFails, a.recoverFails, false)
  {
    var r := FireOne(c, p, i, a);
    assert r.fires == p.fires || r.fires == p.fires + [Fire(i, a.now, i !in a.injectFails)];
    assert r.recoveries == p.recoveries || r.recoveries == p.recoveries + [Recovery(i, a.now, i in a.recoverFails, false)];
  }

  lemma {:induction false} FirePassAdds(c: Config, s: State, k: nat, a: Action)
    requires k <= |s.pending| == |c.events| && s.start.Some? && a.Tick?
    ensures Adds(s, FirePass(c, s, k, a), a.now, a.injectFails, a.recoverFails, false)
  {
    if k > 0 {
      FirePassAdds(c, s, k - 1, a);
      FireOneAdds(c, s, FirePass(c, s, k - 1, a), k - 1, a);
    }
  }

  lemma {:induction false} RecoverPassAdds(c: Config, s: State, p: State, k: nat, now: int, injectFails: set<nat>, fails: set<nat>, closing: bool)
    requires k <= |p.pending| == |c.events| && Adds(s, p, now, injectFails, fails, closing)
    ensures Adds(s, RecoverPass(c, p, k, now, fails, closing), now, injectFails, fails, closing)
  {
    if k > 0 {
      RecoverPassAdds(c, s, p, k - 1, now, injectFails, fails, closing);
    }
  }

  /**
   One step: Start sets the start time, Close closes, and injections and recoveries are made
   only by a Tick of a started, open run, or recoveries by its Close, at the time of the call
   and with the results that the faults gave; what was done before stays.
   */
  lemma {:induction false} StepAdds(c: Config, run: seq<Action>, a: Action)
    ensures var s, r := After(c, run), After(c, run + [a]);
            && r.start == (if a.Start? then Some(a.time) else s.start) && r.closed == (s.closed || a.Close?)
            && (a.Start? || s.closed || s.start.None? ==> r.fires == s.fires && r.recoveries == s.recoveries)
            && (a.Tick? ==> Adds(s, r, a.now, a.injectFails, a.recoverFails, false))
            && (a.Close? ==> Adds(s, r, a.now, {}, a.recoverFails, true) && r.fires == s.fires)
  {
    assert (run + [a])[..|run|] == run;
    var s := After(c, run);
    if !s.closed && s.start.Some? {
      match a {
        case Start(_) =>
        case Tick(now, injectFails, fails) =>
          FirePassAdds(c, s, |c.events|, a);
          RecoverPassAdds(c, s, FirePass(c, s, |c.events|, a), |c.events|, now, injectFails, fails, false);
        case Close(now, fails) =>
          RecoverPassAdds(c, s, s.(closed := true), |c.events|, now, {}, fails, true);
      }
    }
  }

  /** Row k tells what was injected, when, for how long, and whether the injection failed. */
  lemma {:induction false} RowsRecordFires(c: Config, run: seq<Action>, k: nat)
    requires Sorted(c.events) && StartsOnce(run) && k < |After(c, run).fires|
    ensures var s := After(c, run);
            && |s.rows| == |s.fires| <= |c.events|
            && var row := s.rows[k];
               && row.kind == c.events[k].kind && row.duration == c.events[k].duration && row.notes == c.events[k].notes
               && row.startedAt == s.fires[k].time && row.injectFailed == !s.fires[k].ok
  {
    RunGood(c, run);
    assert FireOk(c, After(c, run), k);
  }

  /** Each successful injection is recovered at most once, only after its duration unless Close cut it short. */
  lemma {:induction false} RecoveredAtMostOnce(c: Config, run: seq<Action>, p: nat, q: nat)
    requires Sorted(c.events) && StartsOnce(run)
    requires p < |After(c, run).recoveries| && q < |After(c, run).recoveries|
    ensures var s := After(c, run);
            && (s.recoveries[p].idx == s.recoveries[q].idx ==> p == q)
            && s.recoveries[p].idx < |s.fires| <= |c.events| && s.fires[s.recoveries[p].idx].ok
            && (s.recoveries[p].byClose || s.recoveries[p].time >= s.fires[s.recoveries[p].idx].time + c.events[s.recoveries[p].idx].duration)
  {
    RunGood(c, run);
    assert RecoveryOk(c, After(c, run), p);
  }

  /** Nothing happens after Close: no injection and no second recovery. */
  lemma {:induction false} ClosedIsFinal(c: Config, run: seq<Action>, more: seq<Action>)
    requires StartsOnce(run + more) && After(c, run).closed
    ensures var s, r := After(c, run), After(c, run + more);
            r.closed && r.fires == s.fires && r.recoveries == s.recoveries && r.rows == s.rows
    decreases |more|
  {
    if more == [] {
      assert run + more == run;
    } else {
      var pre, all := more[..|more| - 1], run + more;
      assert all[..|all| - 1] == run + pre;
      StartsOncePrefix(all, |all| - 1);
      ClosedIsFinal(c, run, pre);
      ClosedStep(c, After(c, run + pre), all[|all| - 1]);
    }
  }

  lemma {:induction false} StartsOncePrefix(all: seq<Action>, n: nat)
    requires StartsOnce(all) && n <= |all|
    ensures StartsOnce(all[..n])
  {
    forall i, j | 0 <= i < j < n
      ensures !(all[..n][i].Start? && all[..n][j].Start?)
    {
      assert all[..n][i] == all[i] && all[..n][j] == all[j];
    }
  }

  lemma {:induction false} ClosedStep(c: Config, s: State, a: Action)
    requires s.closed && (s.start.Some? ==> |s.pending| == |c.events|) && (s.start.None? ==> s.pending == [])
    ensures var r := Step(c, s, a); r.closed && r.fires == s.fires && r.recoveries == s.recoveries && r.rows == s.rows
  {
  }

  /** Once closed, every successful injection has been recovered: nothing outlives the run. */
  lemma {:induction false} CloseRecoversAll(c: Config, run: seq<Action>, k: nat)
    requires Sorted(c.events) && StartsOnce(run) && After(c, run).closed
    requires k < |After(c, run).fires| && After(c, run).fires[k].ok
    ensures Recovered(After(c, run), k)
  {
    var pre, a := run[..|run| - 1], run[|run| - 1];
    assert StartsOnce(pre);
    var s := After(c, pre);
    RunGood(c, pre);
    RunGood(c, run);
    if s.closed {
      ClosedStepKeeps(c, s, a);
      CloseRecoversAll(c, pre, k);
      var v :| v in s.recoveries && v.idx == k;
      assert v in After(c, run).recoveries;
    } else {
      ClosedStaysGood(c, s);
      if s.start.Some? {
        RecoverPassGood(c, s.(closed := true), |c.events|, a.now, a.recoverFails, true);
        assert FireOk(c, After(c, run), k);
      }
    }
  }

  lemma {:induction false} ClosedStepKeeps(c: Config, s: State, a: Action)
    requires s.closed && (s.start.Some? ==> |s.pending| == |c.events|) && (s.start.None? ==> s.pending == [])
    ensures Step(c, s, a).fires == s.fires && Step(c, s, a).recoveries == s.recoveries && Step(c, s, a).closed
  {
  }

  // ----- Rows -----

  /** No two faults of one type fired at the same instant. */
  ghost predicate DistinctFires(c: Config, fires: seq<Fire>) {
    |fires| <= |c.events| &&
    forall i, j :: 0 <= i < j < |fires| && c.events[i].kind == c.events[j].kind ==> fires[i].time != fires[j].time
  }

  lemma {:induction false} LastMatchFinds(rows: seq<Row>, i: nat)
    requires i < |rows| && rows[i].recoveredAt.None?
    ensures var k := LastMatch(rows, rows[i].kind, rows[i].startedAt);
            && i <= k < |rows| && rows[k].kind == rows[i].kind && rows[k].startedAt == rows[i].startedAt && rows[k].recoveredAt.None?
            && forall j :: k < j < |rows| ==> !(rows[j].kind == rows[i].kind && rows[j].startedAt == rows[i].startedAt && rows[j].recoveredAt.None?)
  {
    var n := |rows| - 1;
    if LastMatch(rows, rows[i].kind, rows[i].startedAt) != n {
      assert i < n;
      LastMatchFinds(rows[..n], i);
    }
  }

  /** No later row of the same type and start time is still open. */
  ghost predicate LatestOpen(rows: seq<Row>, i: nat)
    requires i < |rows|
  {
    forall j :: i < j < |rows| ==> !(rows[j].kind == rows[i].kind && rows[j].startedAt == rows[i].startedAt && rows[j].recoveredAt.None?)
  }

  /** The search for a row to patch ends at an open row exactly when it is the latest such. */
  lemma {:induction false} SearchFindsOwnIff(rows: seq<Row>, i: nat)
    requires i < |rows| && rows[i].recoveredAt.None?
    ensures LastMatch(rows, rows[i].kind, rows[i].startedAt) == i <==> LatestOpen(rows, i)
    ensures i <= LastMatch(rows, rows[i].kind, rows[i].startedAt) < |rows|
  {
    LastMatchFinds(rows, i);
  }

  /** Row k shows a recovery exactly when event k was recovered, with that recovery's time and result. */
  ghost predicate RowsTell(s: State) {
    && (forall r :: r in s.recoveries ==> r.idx < |s.rows| && s.rows[r.idx].recoveredAt == Some(r.time) && s.rows[r.idx].recoveryFailed == r.failed)
    && (forall k :: 0 <= k < |s.rows| && !Recovered(s, k) ==> s.rows[k].recoveredAt.None? && !s.rows[k].recoveryFailed)
  }

  /** What is about to be recovered: an active entry, whose own row is still open. */
  lemma {:induction false} OwnRowOpen(c: Config, s: State, i: nat)
    requires Good(c, s) && RowsTell(s) && s.start.Some? && i < |s.fires| && s.pending[i].active
    ensures i < |s.rows| && i < |c.events| == |s.pending| && !Recovered(s, i) && s.rows[i].recoveredAt.None? && !s.rows[i].recoveryFailed
    ensures s.rows[i].kind == c.events[i].kind && s.rows[i].startedAt == s.pending[i].startedAt
  {
    assert FireOk(c, s, i);
  }

  lemma {:induction false} RecoverStepTells(c: Config, s: State, i: nat, now: int, failed: bool, byClose: bool)
    requires Good(c, s) && RowsTell(s) && s.start.Some? && i < |s.fires| && s.pending[i].active && i < |s.rows| && LatestOpen(s.rows, i)
    ensures RowsTell(RecoverStep(c, s, i, now, failed, byClose))
  {
    var r := RecoverStep(c, s, i, now, failed, byClose);
    OwnRowOpen(c, s, i);
    SearchFindsOwnIff(s.rows, i);
    assert r.recoveries[|s.recoveries|] in r.recoveries;
    forall k | 0 <= k < |r.rows| && !Recovered(r, k) ensures r.rows[k].recoveredAt.None? && !r.rows[k].recoveryFailed {
      assert !Recovered(s, k) by {
        assert forall v :: v in s.recoveries ==> v in r.recoveries;
      }
    }
    forall v | v in r.recoveries
      ensures v.idx < |r.rows| && r.rows[v.idx].recoveredAt == Some(v.time) && r.rows[v.idx].recoveryFailed == v.failed
    {
      if v in s.recoveries {
        assert v.idx != i;
      }
    }
  }

  /** From a truthful state, a recovery keeps every row truthful if and only if no later row of its type and start time is still open. */
  lemma {:induction false} PatchesOwnRowIff(c: Config, s: State, i: nat, now: int, failed: bool, byClose: bool)
    requires Good(c, s) && RowsTell(s) && s.start.Some? && i < |s.fires| && s.pending[i].active
    ensures i < |s.rows|
    ensures RowsTell(RecoverStep(c, s, i, now, failed, byClose)) <==> LatestOpen(s.rows, i)
  {
    OwnRowOpen(c, s, i);
    SearchFindsOwnIff(s.rows, i);
    if LatestOpen(s.rows, i) {
      RecoverStepTells(c, s, i, now, failed, byClose);
    } else {
      var r := RecoverStep(c, s, i, now, failed, byClose);
      assert r.recoveries[|s.recoveries|] in r.recoveries;
      assert r.rows[i].recoveredAt.None?;
    }
  }

  /** Rows of faults fired at distinct times never match one another. */
  lemma {:induction false} DistinctAreLatest(c: Config, s: State, i: nat)
    requires Good(c, s) && s.start.Some? && DistinctFires(c, s.fires) && i < |s.fires| && i < |s.rows|
    ensures LatestOpen(s.rows, i)
  {
    forall j | 0 <= j < |s.rows|
      ensures s.rows[j].kind == c.events[j].kind && s.rows[j].startedAt == s.fires[j].time
    {
      assert FireOk(c, s, j);
    }
  }

  lemma {:induction false} RecoverOneTells(c: Config, s: State, i: nat, now: int, failed: bool, closing: bool)
    requires Good(c, s) && s.start.Some? && i < |c.events| && (closing ==> s.closed) && RowsTell(s) && DistinctFires(c, s.fires)
    ensures i < |s.pending| && RowsTell(RecoverOne(c, s, i, now, failed, closing))
  {
    if RecoversNow(s, i, now, closing) {
      OwnRowOpen(c, s, i);
      DistinctAreLatest(c, s, i);
      RecoverStepTells(c, s, i, now, failed, closing);
    }
  }

  lemma {:induction false} RecoverPassTells(c: Config, s: State, k: nat, now: int, fails: set<nat>, closing: bool)
    requires Good(c, s) && s.start.Some? && k <= |c.events| && (closing ==> s.closed) && RowsTell(s) && DistinctFires(c, s.fires)
    ensures RowsTell(RecoverPass(c, s, k, now, fails, closing))
  {
    if k > 0 {
      RecoverPassTells(c, s, k - 1, now, fails, closing);
      RecoverPassGood(c, s, k - 1, now, fails, closing);
      RecoverOneTells(c, RecoverPass(c, s, k - 1, now, fails, closing), k - 1, now, k - 1 in fails, closing);
    }
  }

  lemma {:induction false} NewRowTells(s: State, s1: State)
    requires RowsTell(s) && s1.recoveries == s.recoveries && |s1.rows| == |s.rows| + 1 && s1.rows[..|s.rows|] == s.rows
    requires s1.rows[|s.rows|].recoveredAt.None? && !s1.rows[|s.rows|].recoveryFailed
    ensures RowsTell(s1)
  {
    forall k | 0 <= k < |s.rows|
      ensures s1.rows[k] == s.rows[k] && Recovered(s1, k) == Recovered(s, k)
    {
    }
  }

  lemma {:induction false} FireStepTells(c: Config, s: State, i: nat, now: int, injectFailed: bool, recoverFailed: bool)
    requires Good(c, s) && RowsTell(s) && s.start.Some? && i == |s.fires| < |c.events| && Due(c, s, i, now)
    requires DistinctFires(c, FireStep(c, s, i, now, injectFailed, recoverFailed).fires)
    ensures RowsTell(FireStep(c, s, i, now, injectFailed, recoverFailed))
  {
    var e := c.events[i];
    FireStepGood(c, s, i, now, injectFailed, recoverFailed);
    var s1 := s.(rows := s.rows + [Row(e.kind, now, None, e.duration, injectFailed, false, e.notes)],
                 fires := s.fires + [Fire(i, now, !injectFailed)],
                 pending := if injectFailed then s.pending[i := s.pending[i].(rolledOut := true)]
                            else s.pending[i := Entry(now, now + e.duration, true, false)]);
    NewRowTells(s, s1);
    if !injectFailed && e.duration <= 0 {
      FiredStaysGood(c, s, i, now, s1);
      assert LatestOpen(s1.rows, i);
      RecoverStepTells(c, s1, i, now, recoverFailed, false);
    }
  }

  lemma {:induction false} FewerDistinct(c: Config, fires: seq<Fire>, more: seq<Fire>)
    requires DistinctFires(c, more) && |fires| <= |more| && forall j :: 0 <= j < |fires| ==> fires[j] == more[j]
    ensures DistinctFires(c, fires)
  {
  }

  lemma {:induction false} WaitingUnfired(c: Config, s: State, i: nat)
    requires Good(c, s) && s.start.Some? && i < |c.events| && i < |s.pending| && s.pending[i].Waiting()
    ensures |s.fires| <= i
  {
    assert i < |s.fires| ==> FireOk(c, s, i);
  }

  /** An entry the pass fires is the next one in the list. */
  lemma {:induction false} FireNextIs(c: Config, s: State, p: State, k: nat, a: Action)
    requires Sorted(c.events) && Good(c, s) && s.start.Some? && a.Tick? && 0 < k <= |c.events|
    requires p == FirePass(c, s, k - 1, a)
    requires k - 1 < |p.pending| && p.pending[k - 1].Waiting() && Due(c, p, k - 1, a.now)
    ensures |p.fires| == k - 1 && Good(c, p) && p.start.Some? && p.fires <= FirePass(c, s, k, a).fires
  {
    FirePassGood(c, s, k - 1, a);
    WaitingUnfired(c, p, k - 1);
  }

  lemma {:induction false} FireOneTells(c: Config, s: State, i: nat, a: Action)
    requires Good(c, s) && RowsTell(s) && s.start.Some? && a.Tick? && i < |c.events| && i < |s.pending|
    requires s.pending[i].Waiting() && Due(c, s, i, a.now) ==> i == |s.fires|
    requires DistinctFires(c, FireOne(c, s, i, a).fires)
    ensures RowsTell(FireOne(c, s, i, a))
  {
    if s.pending[i].Waiting() && Due(c, s, i, a.now) {
      FireStepTells(c, s, i, a.now, i in a.injectFails, i in a.recoverFails);
    }
  }

  lemma {:induction false} FirePassBefore(c: Config, s: State, k: nat, a: Action)
    requires Sorted(c.events) && Good(c, s) && s.start.Some? && a.Tick? && 0 < k <= |c.events|
    requires DistinctFires(c, FirePass(c, s, k, a).fires)
    ensures var p := FirePass(c, s, k - 1, a);
            Good(c, p) && DistinctFires(c, p.fires) && (p.pending[k - 1].Waiting() && Due(c, p, k - 1, a.now) ==> k - 1 == |p.fires|)
  {
    var p := FirePass(c, s, k - 1, a);
    FirePassGood(c, s, k - 1, a);
    if p.pending[k - 1].Waiting() && Due(c, p, k - 1, a.now) {
      FireNextIs(c, s, p, k, a);
      FewerDistinct(c, p.fires, FirePass(c, s, k, a).fires);
    }
  }

  lemma {:induction false} FirePassTells(c: Config, s: State, k: nat, a: Action)
    requires Sorted(c.events) && Good(c, s) && s.start.Some? && a.Tick? && k <= |c.events| && RowsTell(s)
    requires DistinctFires(c, FirePass(c, s, k, a).fires)
    ensures RowsTell(FirePass(c, s, k, a))
  {
    if k > 0 {
      FirePassBefore(c, s, k, a);
      FirePassTells(c, s, k - 1, a);
      FireOneTells(c, FirePass(c, s, k - 1, a), k - 1, a);
    }
  }

  /** Over every run in which same-type faults fire at distinct times, the timeline rows tell the truth. */
  lemma {:induction false} TimelineTells(c: Config, run: seq<Action>)
    requires Sorted(c.events) && StartsOnce(run) && DistinctFires(c, After(c, run).fires)
    ensures RowsTell(After(c, run))
  {
    if run != [] {
      var pre, a := run[..|run| - 1], run[|run| - 1];
      var s := After(c, pre);
      assert StartsOnce(pre);
      RunGood(c, pre);
      RunGood(c, run);
      if a.Start? {
        assert run[|run| - 1].Start?;
      }
      StepGood(c, s, a);
      forall j | 0 <= j < |s.fires| ensures s.fires[j] == After(c, run).fires[j] {}
      TimelineTells(c, pre);
      match a {
        case Start(_) =>
        case Tick(now, _, recoverFails) =>
          if !s.closed && s.start.Some? {
            var p := FirePass(c, s, |c.events|, a);
            FirePassGood(c, s, |c.events|, a);
            FirePassTells(c, s, |c.events|, a);
            RecoverPassTells(c, p, |c.events|, now, recoverFails, false);
          }
        case Close(now, recoverFails) =>
          if !s.closed {
            ClosedStaysGood(c, s);
            assert RowsTell(s.(closed := true)) by {
              forall k | 0 <= k < |s.rows| ensures Recovered(s.(closed := true), k) == Recovered(s, k) {}
            }
            if s.start.Some? {
              RecoverPassTells(c, s.(closed := true), |c.events|, now, recoverFails, true);
            }
          }
      }
    }
  }

  const SHORT := Event(0, 1, "kafka_kill", "")
  const LONG := Event(0, 5, "kafka_kill", "")

  function TwoFaults(): Config {
    Config([SHORT, LONG], 1)
  }

  /** Both faults fired at time 0. */
  function BothFired(): State {
    var row := Row("kafka_kill", 0, None, 1, false, false, "");
    State(Some(0), [Entry(0, 1, true, false), Entry(0, 5, true, false)], [row, row.(duration := 5)], false,
          [Fire(0, 0, true), Fire(1, 0, true)], [])
  }

  lemma {:induction false} FirstTickFiresBoth()
    ensures After(TwoFaults(), [Start(0), Tick(0, {}, {})]) == BothFired()
  {
    var c := TwoFaults();
    var a0, a1 := Start(0), Tick(0, {}, {});
    assert [a0, a1][..1] == [a0] && [a0][..0] == [];
    var idle := Entry(0, 0, false, false);
    assert After(c, []) == INIT;
    var s1 := After(c, [a0]);
    assert s1 == Step(c, INIT, a0) && s1.pending == [idle, idle];
    assert s1 == State(Some(0), [idle, idle], [], false, [], []);
    var row := Row("kafka_kill", 0, None, 1, false, false, "");
    assert FirePass(c, s1, 0, a1) == s1;
    var f1 := FirePass(c, s1, 1, a1);
    assert f1 == FireStep(c, s1, 0, 0, false, false);
    assert f1 == State(Some(0), [Entry(0, 1, true, false), idle], [row], false, [Fire(0, 0, true)], []);
    var s2 := BothFired();
    assert FirePass(c, s1, 2, a1) == FireStep(c, f1, 1, 0, false, false) == s2;
    assert RecoverPass(c, s2, 1, 0, {}, false) == s2 by {
      assert RecoverPass(c, s2, 0, 0, {}, false) == s2;
    }
    assert RecoverPass(c, s2, 2, 0, {}, false) == s2;
  }

  lemma {:induction false} SecondTickRecoversShort()
    ensures var r := Step(TwoFaults(), BothFired(), Tick(1, {}, {}));
            && r.rows == [BothFired().rows[0], BothFired().rows[1].(recoveredAt := Some(1))]
            && r.recoveries == [Recovery(0, 1, false, false)]
  {
    var c, s2, a2 := TwoFaults(), BothFired(), Tick(1, {}, {});
    assert FirePass(c, s2, 1, a2) == s2 by {
      assert FirePass(c, s2, 0, a2) == s2;
    }
    assert FirePass(c, s2, 2, a2) == s2;
    assert LastMatch(s2.rows, "kafka_kill", 0) == 1;
    assert RecoverPass(c, s2, 0, 1, {}, false) == s2;
    var r1 := RecoverPass(c, s2, 1, 1, {}, false);
    assert r1 == RecoverStep(c, s2, 0, 1, false, false);
    assert RecoverPass(c, s2, 2, 1, {}, false) == r1;
  }

  /**
   Without that condition it fails: two faults of one type fired in the same tick. The
   shorter one is recovered first, but its recovery is written on the other one's row.
   */
  lemma {:induction false} SameTickTimelineLies() returns (c: Config, run: seq<Action>)
    ensures Sorted(c.events) && StartsOnce(run) && !RowsTell(After(c, run))
    ensures var s := After(c, run); |s.rows| == 2 && Recovered(s, 0) && s.rows[0].recoveredAt.None? && s.rows[1].recoveredAt.Some?
  {
    c := TwoFaults();
    var a0, a1, a2 := Start(0), Tick(0, {}, {}), Tick(1, {}, {});
    run := [a0, a1, a2];
    assert run[..2] == [a0, a1];
    FirstTickFiresBoth();
    SecondTickRecoversShort();
    var s3 := After(c, run);
    assert s3 == Step(c, BothFired(), a2);
    assert s3.recoveries[0] in s3.recoveries;
  }

  // ----- The imperative scheduler -----

  class Scheduler {
    const cfg: Config
    var startedAt: Option<int>
    var pending: seq<Entry>
    var outcomes: seq<Row>
    var closed: bool
    ghost var fires: seq<Fire>
    ghost var recoveries: seq<Recovery>

    ghost function View(): State
      reads this
    {
      State(startedAt, pending, outcomes, closed, fires, recoveries)
    }

    ghost predicate Valid()
      reads this
    {
      (startedAt.Some? ==> |pending| == |cfg.events|) && (startedAt.None? ==> pending == [])
    }

    constructor (c: Config)
      ensures cfg == c && View() == INIT && Valid()
    {
      cfg := c;
      startedAt, pending, outcomes, closed := None, [], [], false;
      fires, recoveries := [], [];
    }

    method StartRun(time: int)
      requires Valid()
      modifies this
      ensures Valid() && View() == Step(cfg, old(View()), Start(time))
    {
      startedAt := Some(time);
      pending := [];
      for i := 0 to |cfg.events|
        invariant pending == seq(i, j => Entry(0, 0, false, false))
        invariant View() == old(View()).(start := Some(time), pending := pending)
      {
        pending := pending + [Entry(0, 0, false, false)];
      }
    }

    method RecoverEntry(i: nat, now: int, failed: bool, ghost byClose: bool)
      requires i < |pending| == |cfg.events|
      modifies this
      ensures View() == RecoverStep(cfg, old(View()), i, now, failed, byClose)
    {
      var p := pending[i];
      if !p.active {
        return;
      }
      var k := |outcomes| - 1;
      assert outcomes[..k + 1] == outcomes;
      while k >= 0 && !(outcomes[k].kind == cfg.events[i].kind && outcomes[k].recoveredAt.None? && outcomes[k].startedAt == p.startedAt)
        invariant -1 <= k < |outcomes|
        invariant LastMatch(outcomes, cfg.events[i].kind, p.startedAt) == LastMatch(outcomes[..k + 1], cfg.events[i].kind, p.startedAt)
      {
        assert outcomes[..k + 1][..k] == outcomes[..k];
        k := k - 1;
      }
      if k >= 0 {
        outcomes := outcomes[k := outcomes[k].(recoveredAt := Some(now))];
        if failed {
          outcomes := outcomes[k := outcomes[k].(recoveryFailed := true)];
        }
      }
      pending := pending[i := p.(active := false, rolledOut := true)];
      recoveries := recoveries + [Recovery(i, now, failed, byClose)];
    }

    method FireEntry(i: nat, now: int, injectFailed: bool, recoverFailed: bool)
      requires i < |pending| == |cfg.events|
      modifies this
      ensures View() == FireStep(cfg, old(View()), i, now, injectFailed, recoverFailed)
    {
      var e := cfg.events[i];
      fires := fires + [Fire(i, now, !injectFailed)];
      if injectFailed {
        outcomes := outcomes + [Row(e.kind, now, None, e.duration, true, false, e.notes)];
        pending := pending[i := pending[i].(rolledOut := true)];
        return;
      }
      pending := pending[i := Entry(now, now + e.duration, true, false)];
      outcomes := outcomes + [Row(e.kind, now, None, e.duration, false, false, e.notes)];
      if e.duration <= 0 {
        RecoverEntry(i, now, recoverFailed, false);
      }
    }

    method TickAt(now: int, injectFails: set<nat>, recoverFails: set<nat>)
      requires Valid()
      modifies this
      ensures Valid() && View() == Step(cfg, old(View()), Tick(now, injectFails, recoverFails))
    {
      if closed || startedAt.None? {
        return;
      }
      ghost var a := Tick(now, injectFails, recoverFails);
      var runOffset := now - startedAt.value;
      var n := |cfg.events|;
      for i := 0 to n
        invariant View() == FirePass(cfg, old(View()), i, a)
      {
        if pending[i].rolledOut || pending[i].active {
          continue;
        }
        if runOffset + cfg.jitter < cfg.events[i].at {
          continue;
        }
        FireEntry(i, now, i in injectFails, i in recoverFails);
      }
      ghost var mid := View();
      for i := 0 to n
        invariant View() == RecoverPass(cfg, mid, i, now, recoverFails, false)
      {
        if !pending[i].active || pending[i].rolledOut {
          continue;
        }
        if now >= pending[i].deadline {
          RecoverEntry(i, now, i in recoverFails, false);
        }
      }
    }

    method CloseAt(now: int, recoverFails: set<nat>)
      requires Valid()
      modifies this
      ensures Valid() && View() == Step(cfg, old(View()), Close(now, recoverFails))
    {
      if closed {
        return;
      }
      closed := true;
      if startedAt.None? {
        return;
      }
      ghost var mid := View();
      for i := 0 to |pending|
        invariant View() == RecoverPass(cfg, mid, i, now, recoverFails, true)
      {
        if !pending[i].active || pending[i].rolledOut {
          continue;
        }
        RecoverEntry(i, now, i in recoverFails, true);
      }
    }
  }
}
