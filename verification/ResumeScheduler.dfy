/**
 Deferred resumes: one timer slot per subscription, a wait counter, and a Cancel that stops
 what it can and waits for the rest. Expiry of a timer and the end of its callback are
 separate steps, so every race between Stop and the callback is a run of this machine.
 */
module ResumeScheduler {

  datatype Phase = Armed | Running | Finished | Stopped

  datatype Timer = Timer(sub: string, phase: Phase)

  /** Every timer ever created, the timer map, and the wait counter. */
  datatype State = State(timers: seq<Timer>, slot: map<string, nat>, wg: int)

  datatype Action = Schedule(sub: string) | Expire(id: nat) | Finish(id: nat) | CancelSweep

  const INIT := State([], map[], 0)

  function Active(timers: seq<Timer>): nat {
    if timers == [] then 0
    else Active(timers[..|timers| - 1]) + if timers[|timers| - 1].phase in {Armed, Running} then 1 else 0
  }

  function With(s: State, id: nat, p: Phase): seq<Timer>
    requires id < |s.timers|
  {
    s.timers[id := s.timers[id].(phase := p)]
  }

  predicate IsArmed(s: State, id: nat) {
    id < |s.timers| && s.timers[id].phase == Armed
  }

  /** timer.Stop and, when it wins, wg.Done. */
  function StopStep(s: State, id: nat): State {
    if IsArmed(s, id) then s.(timers := With(s, id, Stopped), wg := s.wg - 1) else s
  }

  function ScheduleStep(s: State, sub: string): State {
    var s := if sub in s.slot then StopStep(s, s.slot[sub]) else s;
    State(s.timers + [Timer(sub, Armed)], s.slot[sub := |s.timers|], s.wg + 1)
  }

  predicate InSlot(s: State, id: nat)
    requires id < |s.timers|
  {
    s.timers[id].sub in s.slot && s.slot[s.timers[id].sub] == id
  }

  /** All slots emptied; every armed timer found in one is stopped and discounted. */
  function SweepStep(s: State): State {
    var swept := seq(|s.timers|, i requires 0 <= i < |s.timers| =>
      if IsArmed(s, i) && InSlot(s, i) then s.timers[i].(phase := Stopped) else s.timers[i]);
    State(swept, map[], s.wg - (Active(s.timers) - Active(swept)))
  }

  function Step(s: State, a: Action): State {
    match a
    case Schedule(sub) => ScheduleStep(s, sub)
    case Expire(id) => if IsArmed(s, id) then s.(timers := With(s, id, Running)) else s
    case Finish(id) =>
      if id < |s.timers| && s.timers[id].phase == Running then s.(timers := With(s, id, Finished), wg := s.wg - 1) else s
    case CancelSweep => SweepStep(s)
  }

  function After(run: seq<Action>): State {
    if run == [] then INIT else Step(After(run[..|run| - 1]), run[|run| - 1])
  }

  // ----- Invariant -----

  ghost predicate Good(s: State) {
    && s.wg == Active(s.timers)
    && (forall sub :: sub in s.slot ==> s.slot[sub] < |s.timers| && s.timers[s.slot[sub]].sub == sub)
    && (forall id :: 0 <= id < |s.timers| && s.timers[id].phase == Armed ==> InSlot(s, id))
  }

  lemma {:induction false} ActiveUpdate(timers: seq<Timer>, id: nat, t: Timer)
    requires id < |timers|
    ensures Active(timers[id := t]) == Active(timers)
              - (if timers[id].phase in {Armed, Running} then 1 else 0) + (if t.phase in {Armed, Running} then 1 else 0)
  {
    var n := |timers| - 1;
    if id == n {
      assert timers[id := t][..n] == timers[..n];
    } else {
      assert timers[id := t][..n] == timers[..n][id := t];
      ActiveUpdate(timers[..n], id, t);
    }
  }

  lemma {:induction false} StopKeeps(s: State, id: nat)
    requires Good(s)
    ensures Good(StopStep(s, id)) && !IsArmed(StopStep(s, id), id)
  {
    if IsArmed(s, id) {
      ActiveUpdate(s.timers, id, s.timers[id].(phase := Stopped));
    }
  }

  /** A fresh armed timer in a slot whose earlier timer is no longer armed. */
  lemma {:induction false} ArmKeeps(p: State, sub: string)
    requires Good(p) && (sub in p.slot ==> !IsArmed(p, p.slot[sub]))
    ensures Good(State(p.timers + [Timer(sub, Armed)], p.slot[sub := |p.timers|], p.wg + 1))
  {
  }

  lemma {:induction false} ScheduleKeeps(s: State, sub: string)
    requires Good(s)
    ensures Good(ScheduleStep(s, sub))
  {
    if sub in s.slot {
      StopKeeps(s, s.slot[sub]);
      ArmKeeps(StopStep(s, s.slot[sub]), sub);
    } else {
      ArmKeeps(s, sub);
    }
  }

  lemma {:induction false} PhaseKeeps(s: State, id: nat, p: Phase, wg: int)
    requires Good(s) && id < |s.timers| && p != Armed
    requires wg == s.wg - (if s.timers[id].phase in {Armed, Running} then 1 else 0) + (if p == Running then 1 else 0)
    ensures Good(s.(timers := With(s, id, p), wg := wg))
  {
    ActiveUpdate(s.timers, id, s.timers[id].(phase := p));
  }

  lemma {:induction false} StepKeeps(s: State, a: Action)
    requires Good(s)
    ensures Good(Step(s, a))
  {
    match a {
      case Schedule(sub) => ScheduleKeeps(s, sub);
      case Expire(id) =>
        if IsArmed(s, id) {
          PhaseKeeps(s, id, Running, s.wg);
        }
      case Finish(id) =>
        if id < |s.timers| && s.timers[id].phase == Running {
          PhaseKeeps(s, id, Finished, s.wg - 1);
        }
      case CancelSweep =>
    }
  }

  lemma {:induction false} RunGood(run: seq<Action>)
    ensures Good(After(run))
  {
    if run != [] {
      RunGood(run[..|run| - 1]);
      StepKeeps(After(run[..|run| - 1]), run[|run| - 1]);
    }
  }

  lemma {:induction false} AfterMore(run: seq<Action>, more: seq<Action>)
    requires more != []
    ensures After(run + more) == Step(After(run + more[..|more| - 1]), more[|more| - 1])
  {
    var all := run + more;
    assert all[..|all| - 1] == run + more[..|more| - 1] && all[|all| - 1] == more[|more| - 1];
  }

  // ----- Theorems over whole runs -----

  /** The wait counter is exactly the armed plus the running callbacks, so it is never negative. */
  lemma {:induction false} WaitCounterExact(run: seq<Action>)
    ensures After(run).wg == Active(After(run).timers) >= 0
  {
    RunGood(run);
  }

  /** A subscription has at most one armed timer, the one in its slot. */
  lemma {:induction false} OneArmedEach(run: seq<Action>, i: nat, j: nat)
    requires IsArmed(After(run), i) && IsArmed(After(run), j) && After(run).timers[i].sub == After(run).timers[j].sub
    ensures i == j
  {
    RunGood(run);
    assert InSlot(After(run), i) && InSlot(After(run), j);
  }

  lemma {:induction false} OneMore(run: seq<Action>, a: Action)
    ensures After(run + [a]) == Step(After(run), a)
  {
    assert (run + [a])[..|run|] == run;
  }

  /** A Schedule adds one armed timer, in its subscription's slot, and stops the subscription's earlier timer if that was still armed; no other timer moves. */
  lemma {:induction false} ScheduleMeans(run: seq<Action>, sub: string)
    ensures var s, r := After(run), After(run + [Schedule(sub)]);
            && |r.timers| == |s.timers| + 1 && r.timers[|s.timers|] == Timer(sub, Armed) && r.slot == s.slot[sub := |s.timers|]
            && forall i :: 0 <= i < |s.timers| ==>
                 r.timers[i] == if s.timers[i] == Timer(sub, Armed) then Timer(sub, Stopped) else s.timers[i]
  {
    OneMore(run, Schedule(sub));
    RunGood(run);
    var s := After(run);
    forall i | 0 <= i < |s.timers| && s.timers[i] == Timer(sub, Armed)
      ensures sub in s.slot && s.slot[sub] == i
    {
      assert InSlot(s, i);
    }
  }

  /** An armed timer that expires starts its callback, a running callback ends, each discounted once, and the slots and the other timers stay. */
  lemma {:induction false} CallbackMoves(run: seq<Action>, id: nat)
    requires id < |After(run).timers|
    ensures var s := After(run);
            var t := s.timers[id];
            && After(run + [Expire(id)])
               == (if t.phase == Armed then s.(timers := s.timers[id := Timer(t.sub, Running)]) else s)
            && After(run + [Finish(id)])
               == (if t.phase == Running then s.(timers := s.timers[id := Timer(t.sub, Finished)], wg := s.wg - 1) else s)
  {
    OneMore(run, Expire(id));
    OneMore(run, Finish(id));
  }

  /** The sweep stops a timer exactly if it is armed, and empties the slots. */
  lemma {:induction false} SweepMeans(run: seq<Action>, id: nat)
    requires id < |After(run).timers|
    ensures var s, r := After(run), After(run + [CancelSweep]);
            && r.slot == map[] && |r.timers| == |s.timers|
            && r.timers[id] == if s.timers[id].phase == Armed then Timer(s.timers[id].sub, Stopped) else s.timers[id]
  {
    OneMore(run, CancelSweep);
    RunGood(run);
    SweptAt(After(run), id);
  }

  lemma {:induction false} SweptAt(s: State, id: nat)
    requires Good(s) && id < |s.timers|
    ensures var r := Step(s, CancelSweep);
            && r.slot == map[] && |r.timers| == |s.timers|
            && r.timers[id] == if s.timers[id].phase == Armed then Timer(s.timers[id].sub, Stopped) else s.timers[id]
  {
    assert IsArmed(s, id) ==> InSlot(s, id);
  }

  predicate Leads(p: Phase, q: Phase) {
    p == q || p == Armed || (p == Running && q == Finished)
  }

  lemma {:induction false} StepLeads(s: State, a: Action, id: nat)
    requires id < |s.timers|
    ensures id < |Step(s, a).timers| && Leads(s.timers[id].phase, Step(s, a).timers[id].phase)
  {
  }

  /** Each scheduled callback starts once and ends, or is stopped before it starts; nothing is ever undone. */
  lemma {:induction false} RunsOnceOrStopped(run: seq<Action>, more: seq<Action>, id: nat)
    requires id < |After(run).timers|
    ensures id < |After(run + more).timers| && Leads(After(run).timers[id].phase, After(run + more).timers[id].phase)
    decreases |more|
  {
    if more == [] {
      assert run + more == run;
    } else {
      var pre := more[..|more| - 1];
      RunsOnceOrStopped(run, pre, id);
      StepLeads(After(run + pre), more[|more| - 1], id);
      AfterMore(run, more);
    }
  }

  ghost predicate NoSchedule(acts: seq<Action>) {
    forall i :: 0 <= i < |acts| ==> !acts[i].Schedule?
  }

  /** The run up to where Cancel's wait is: the sweep, and whatever else has happened since. */
  function Cancelled(run: seq<Action>, since: seq<Action>): seq<Action> {
    run + [CancelSweep] + since
  }

  lemma {:induction false} StaysUnarmed(s: State, a: Action, id: nat)
    requires !a.Schedule? && !IsArmed(s, id)
    ensures !IsArmed(Step(s, a), id)
  {
  }

  lemma {:induction false} SweptUnarmed(run: seq<Action>, since: seq<Action>, id: nat)
    requires NoSchedule(since)
    ensures !IsArmed(After(Cancelled(run, since)), id)
    decreases |since|
  {
    var base := run + [CancelSweep];
    if since == [] {
      assert base[..|base| - 1] == run && Cancelled(run, since) == base;
      RunGood(run);
      assert IsArmed(After(run), id) ==> InSlot(After(run), id);
    } else {
      var pre := since[..|since| - 1];
      SweptUnarmed(run, pre, id);
      AfterMore(base, since);
      StaysUnarmed(After(base + pre), since[|since| - 1], id);
    }
  }

  function RunningOnly(timers: seq<Timer>): nat {
    if timers == [] then 0 else RunningOnly(timers[..|timers| - 1]) + if timers[|timers| - 1].phase == Running then 1 else 0
  }

  lemma {:induction false} NoneArmed(timers: seq<Timer>)
    requires forall i :: 0 <= i < |timers| ==> timers[i].phase != Armed
    ensures Active(timers) == RunningOnly(timers)
  {
    if timers != [] {
      NoneArmed(timers[..|timers| - 1]);
    }
  }

  /** After the sweep, as long as nothing is scheduled, Cancel waits for exactly the callbacks that are running. */
  lemma {:induction false} CancelWaitsForRunning(run: seq<Action>, since: seq<Action>)
    requires NoSchedule(since)
    ensures var s := After(Cancelled(run, since));
            s.wg == RunningOnly(s.timers) && forall i :: 0 <= i < |s.timers| ==> s.timers[i].phase != Armed
  {
    var s := After(Cancelled(run, since));
    RunGood(Cancelled(run, since));
    forall i | 0 <= i < |s.timers|
      ensures s.timers[i].phase != Armed
    {
      SweptUnarmed(run, since, i);
    }
    NoneArmed(s.timers);
  }

  lemma {:induction false} NoneActive(timers: seq<Timer>, id: nat)
    requires Active(timers) == 0 && id < |timers|
    ensures timers[id].phase in {Finished, Stopped}
  {
    if id < |timers| - 1 {
      NoneActive(timers[..|timers| - 1], id);
    }
    var p := timers[id].phase;
    assert p.Armed? || p.Running? || p.Finished? || p.Stopped?;
  }

  lemma {:induction false} DoneStays(base: seq<Action>, more: seq<Action>, id: nat)
    requires id < |After(base).timers| && After(base).timers[id].phase in {Finished, Stopped}
    ensures id < |After(base + more).timers| && After(base + more).timers[id] == After(base).timers[id]
    decreases |more|
  {
    if more == [] {
      assert base + more == base;
    } else {
      var pre := more[..|more| - 1];
      DoneStays(base, pre, id);
      AfterMore(base, more);
      StepKeepsDone(After(base + pre), more[|more| - 1], id);
    }
  }

  lemma {:induction false} StepKeepsDone(s: State, a: Action, id: nat)
    requires id < |s.timers| && s.timers[id].phase in {Finished, Stopped}
    ensures id < |Step(s, a).timers| && Step(s, a).timers[id] == s.timers[id]
  {
  }

  /**
   Once Cancel has returned (its wait has seen zero), every callback scheduled by then has
   finished or was stopped, and stays so whatever happens next, later Schedules included.
   */
  lemma {:induction false} CancelDrains(run: seq<Action>, since: seq<Action>, more: seq<Action>, id: nat)
    requires After(Cancelled(run, since)).wg == 0 && id < |After(Cancelled(run, since)).timers|
    ensures After(Cancelled(run, since)).timers[id].phase in {Finished, Stopped}
    ensures id < |After(Cancelled(run, since) + more).timers|
    ensures After(Cancelled(run, since) + more).timers[id] == After(Cancelled(run, since)).timers[id]
  {
    RunGood(Cancelled(run, since));
    NoneActive(After(Cancelled(run, since)).timers, id);
    DoneStays(Cancelled(run, since), more, id);
  }

  lemma {:induction false} AllDone(timers: seq<Timer>)
    requires forall i :: 0 <= i < |timers| ==> timers[i].phase in {Finished, Stopped}
    ensures Active(timers) == 0
  {
    if timers != [] {
      AllDone(timers[..|timers| - 1]);
    }
  }

  lemma {:induction false} QuietStep(s: State, a: Action)
    requires Active(s.timers) == 0
    ensures Active(Step(s, a).timers) == 0 <==> !a.Schedule?
  {
    forall i | 0 <= i < |s.timers|
      ensures s.timers[i].phase in {Finished, Stopped}
    {
      NoneActive(s.timers, i);
    }
    if !a.Schedule? {
      assert |Step(s, a).timers| == |s.timers|;
      forall i | 0 <= i < |s.timers|
        ensures Step(s, a).timers[i] == s.timers[i]
      {
        StepKeepsDone(s, a, i);
      }
      AllDone(Step(s, a).timers);
    } else {
      var timers := Step(s, a).timers;
      assert timers[|timers| - 1].phase == Armed;
    }
  }

  /** No callback is armed or running after `base`, at any point of `more`. */
  ghost predicate Quiet(base: seq<Action>, more: seq<Action>)
    decreases |more|
  {
    Active(After(base + more).timers) == 0 && (more == [] || Quiet(base, more[..|more| - 1]))
  }

  lemma {:induction false} NoScheduleSnoc(more: seq<Action>)
    requires more != []
    ensures NoSchedule(more) <==> NoSchedule(more[..|more| - 1]) && !more[|more| - 1].Schedule?
  {
  }

  /** From a state with nothing armed or running, it stays that way exactly as long as nothing is scheduled. */
  lemma {:induction false} QuietIff(base: seq<Action>, more: seq<Action>)
    requires Active(After(base).timers) == 0
    ensures Quiet(base, more) <==> NoSchedule(more)
    decreases |more|
  {
    if more == [] {
      assert base + more == base;
    } else {
      var pre, a := more[..|more| - 1], more[|more| - 1];
      QuietIff(base, pre);
      NoScheduleSnoc(more);
      if Quiet(base, pre) {
        QuietStep(After(base + pre), a);
        AfterMore(base, more);
      }
    }
  }

  /** After Cancel has returned, no callback is ever armed or running again if and only if nothing is scheduled any more. */
  lemma {:induction false} QuietAfterCancelIff(run: seq<Action>, since: seq<Action>, more: seq<Action>)
    requires After(Cancelled(run, since)).wg == 0
    ensures Quiet(Cancelled(run, since), more) <==> NoSchedule(more)
  {
    RunGood(Cancelled(run, since));
    QuietIff(Cancelled(run, since), more);
  }

  /** A run in which Cancel has returned, and a Schedule after it leaves a timer armed. */
  lemma {:induction false} LateScheduleSurvives()
    ensures After(Cancelled([Schedule("s")], [])).wg == 0
    ensures IsArmed(After(Cancelled([Schedule("s")], []) + [Schedule("s")]), 1)
  {
    var first, base := [Schedule("s")], Cancelled([Schedule("s")], []);
    assert first[..0] == [] && base[..1] == first && base == [Schedule("s"), CancelSweep];
    assert After(first) == State([Timer("s", Armed)], map["s" := 0], 1);
    CancelWaitsForRunning(first, []);
    var s := After(base);
    assert s.timers == [Timer("s", Stopped)];
    assert RunningOnly(s.timers) == 0 by {
      assert s.timers[..0] == [];
    }
    var all := base + [Schedule("s")];
    assert all[..|all| - 1] == base;
  }

  // ----- The imperative scheduler -----

  class Scheduler {
    var timers: seq<Timer>
    var timer: map<string, nat>
    var wg: int

    ghost function View(): State
      reads this
    {
      State(timers, timer, wg)
    }

    constructor ()
      ensures View() == INIT
    {
      timers, timer, wg := [], map[], 0;
    }

    method StopTimer(id: nat) returns (stopped: bool)
      modifies this`timers
      ensures stopped == IsArmed(old(View()), id)
      ensures timers == if stopped then With(old(View()), id, Stopped) else old(timers)
    {
      if id < |timers| && timers[id].phase == Armed {
        timers := timers[id := timers[id].(phase := Stopped)];
        return true;
      }
      return false;
    }

    method ScheduleResume(sub: string)
      modifies this
      ensures View() == Step(old(View()), Schedule(sub))
    {
      if sub in timer {
        var stopped := StopTimer(timer[sub]);
        if stopped {
          wg := wg - 1;
        }
      }
      wg := wg + 1;
      timer := timer[sub := |timers|];
      timers := timers + [Timer(sub, Armed)];
    }

    /** Stop what can be stopped in one slot and empty it. */
    method ClearSlot(sub: string)
      requires sub in timer
      modifies this
      ensures View() == Cleared(old(View()), sub)
    {
      var stopped := StopTimer(timer[sub]);
      if stopped {
        wg := wg - 1;
      }
      timer := timer - {sub};
    }

    /** The locked sweep of Cancel. */
    method CancelAll()
      requires Good(View())
      modifies this
      ensures View() == Step(old(View()), CancelSweep)
    {
      ghost var was := View();
      while timer.Keys != {}
        invariant Swept(was, View())
        decreases |timer.Keys|
      {
        var sub :| sub in timer.Keys;
        ClearedSweeps(was, View(), sub);
        ClearSlot(sub);
      }
      SweptAll(was, View());
    }
  }

  function Cleared(s: State, sub: string): State
    requires sub in s.slot
  {
    var p := StopStep(s, s.slot[sub]);
    p.(slot := p.slot - {sub})
  }

  /** Part of a sweep of `was`: the slots left are as they were, and the timers of the slots cleared are stopped. */
  ghost predicate Swept(was: State, now: State) {
    && now.slot.Keys <= was.slot.Keys && |now.timers| == |was.timers|
    && (forall x :: x in now.slot ==> now.slot[x] == was.slot[x])
    && now.wg - Active(now.timers) == was.wg - Active(was.timers)
    && forall i :: 0 <= i < |now.timers| ==> now.timers[i] == SweptTimer(was, now, i)
  }

  function SweptTimer(was: State, now: State, i: nat): Timer
    requires i < |was.timers|
  {
    if IsArmed(was, i) && InSlot(was, i) && was.timers[i].sub !in now.slot then was.timers[i].(phase := Stopped) else was.timers[i]
  }

  lemma {:induction false} ClearedSweeps(was: State, now: State, sub: string)
    requires Good(was) && Swept(was, now) && sub in now.slot
    ensures Swept(was, Cleared(now, sub))
  {
    var id := now.slot[sub];
    var r := Cleared(now, sub);
    assert was.timers[id].sub == sub;
    if IsArmed(now, id) {
      ActiveUpdate(now.timers, id, now.timers[id].(phase := Stopped));
    }
    forall i | 0 <= i < |r.timers|
      ensures r.timers[i] == SweptTimer(was, r, i)
    {
      assert now.timers[i] == SweptTimer(was, now, i);
    }
  }

  lemma {:induction false} SweptAll(was: State, now: State)
    requires Swept(was, now) && now.slot.Keys == {}
    ensures now == SweepStep(was)
  {
    var swept := SweepStep(was).timers;
    forall i | 0 <= i < |swept|
      ensures now.timers[i] == swept[i]
    {
      assert now.timers[i] == SweptTimer(was, now, i);
    }
    assert now.timers == swept;
    assert now.slot == map[];
  }
}
