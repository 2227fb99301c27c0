/**
 The lifecycle agent: subscription state machine, eligibility picker, dunning walker and
 deferred resumes. Each pick-and-fire is one step and each resume callback is another; a
 run is any sequence of such steps with arbitrary platform replies.
 */
module Lifecycle {

  datatype Option<+T> = None | Some(value: T)

  datatype SubState = Created | Trialing | Active | PastDue | Paused | ExpiringSoon | Expired | Cancelled | Suspended

  datatype Kind =
    | Upgrade | Downgrade | Pause | Resume | TrialConversion | TrialCancel
    | Migrate | RetryPayment | DunningStep | DunningEscalate

  // ----- The state machine -----

  predicate IsTerminal(s: SubState) {
    s == Cancelled || s == Expired
  }

  predicate CanFireFrom(kind: Kind, from: SubState) {
    !IsTerminal(from) &&
    match kind
    case Upgrade => from in {Active, Trialing, PastDue, ExpiringSoon}
    case Downgrade => from in {Active, Trialing, PastDue, ExpiringSoon}
    case Pause => from in {Active, Trialing}
    case Resume => from == Paused
    case TrialConversion => from == Trialing
    case TrialCancel => from == Trialing
    case Migrate => from in {Active, Trialing, Paused, ExpiringSoon, PastDue}
    case RetryPayment => from in {PastDue, Suspended}
    case DunningStep => from in {PastDue, Suspended}
    case DunningEscalate => from in {PastDue, Suspended}
  }

  /** None: depends on context. */
  function ExpectedPostState(kind: Kind, prior: SubState): Option<SubState> {
    match kind
    case Upgrade => Some(prior)
    case Downgrade => Some(prior)
    case Pause => Some(Paused)
    case Resume => Some(Active)
    case TrialConversion => Some(Active)
    case TrialCancel => Some(Cancelled)
    case Migrate => Some(prior)
    case RetryPayment => Some(Active)
    case DunningStep => None
    case DunningEscalate => Some(Suspended)
  }

  function LegalNextStates(from: SubState): seq<SubState> {
    match from
    case Created => [Trialing, Active, Cancelled]
    case Trialing => [Active, Cancelled, Paused]
    case Active => [PastDue, Paused, ExpiringSoon, Expired, Cancelled, Suspended]
    case PastDue => [Active, Suspended, Cancelled, Expired]
    case Paused => [Active, Cancelled, Expired]
    case ExpiringSoon => [Active, Expired, Cancelled]
    case Suspended => [Active, Cancelled, Expired]
    case Expired => []
    case Cancelled => []
  }

  predicate IsLegalTransition(from: SubState, to: SubState) {
    from == to || (!IsTerminal(from) && to in LegalNextStates(from))
  }

  /** The same table read by state: what may be attempted on a subscription in this state. */
  function Attemptable(from: SubState): set<Kind> {
    match from
    case Created => {}
    case Trialing => {Upgrade, Downgrade, Pause, TrialConversion, TrialCancel, Migrate}
    case Active => {Upgrade, Downgrade, Pause, Migrate}
    case PastDue => {Upgrade, Downgrade, Migrate, RetryPayment, DunningStep, DunningEscalate}
    case Paused => {Resume, Migrate}
    case ExpiringSoon => {Upgrade, Downgrade, Migrate}
    case Suspended => {RetryPayment, DunningStep, DunningEscalate}
    case Expired => {}
    case Cancelled => {}
  }

  /** The other states that a state may be entered from. */
  function Sources(to: SubState): set<SubState> {
    match to
    case Created => {}
    case Trialing => {Created}
    case Active => {Created, Trialing, PastDue, Paused, ExpiringSoon, Suspended}
    case PastDue => {Active}
    case Paused => {Trialing, Active}
    case ExpiringSoon => {Active}
    case Expired => {Active, PastDue, Paused, ExpiringSoon, Suspended}
    case Cancelled => {Created, Trialing, Active, PastDue, Paused, ExpiringSoon, Suspended}
    case Suspended => {Active, PastDue}
  }

  /** Both tables, read the other way round: by the state a transition is fired from, and by the state it leads to. */
  lemma {:induction false} TablesTransposed(kind: Kind, from: SubState, to: SubState)
    ensures CanFireFrom(kind, from) <==> kind in Attemptable(from)
    ensures IsLegalTransition(from, to) <==> from == to || from in Sources(to)
  {
    ListedIff(from, to);
  }

  lemma {:induction false} ListedIff(from: SubState, to: SubState)
    ensures to in LegalNextStates(from) <==> from in Sources(to)
  {
    var next := LegalNextStates(from);
    assert to in next <==> exists i :: 0 <= i < |next| && next[i] == to;
    if from in Sources(to) {
      assert |next| > 0 && (next[0] == to || next[1] == to || next[2] == to || next[3] == to || next[4] == to || next[5] == to);
    }
  }

  /** The three tables agree: whatever may be attempted is expected to land somewhere the platform allows. */
  lemma {:induction false} ExpectedPostIsLegal(kind: Kind, from: SubState)
    requires CanFireFrom(kind, from)
    ensures ExpectedPostState(kind, from).Some? ==> IsLegalTransition(from, ExpectedPostState(kind, from).value)
    ensures ExpectedPostState(kind, from).None? <==> kind == DunningStep
  {
    match from {
      case Trialing => assert LegalNextStates(from)[0] == Active && LegalNextStates(from)[1] == Cancelled && LegalNextStates(from)[2] == Paused;
      case Active => assert LegalNextStates(from)[1] == Paused;
      case PastDue => assert LegalNextStates(from)[0] == Active && LegalNextStates(from)[1] == Suspended;
      case Paused => assert LegalNextStates(from)[0] == Active;
      case Suspended => assert LegalNextStates(from)[0] == Active;
      case _ =>
    }
  }

  // ----- The agent's steps -----

  datatype DunningOutcome = Retried | Escalated | EscalationNotLogged

  datatype Attempt = Attempt(sub: string, number: nat, outcome: DunningOutcome)

  /** `held` is the picker's suspended set, `armed` the subscriptions with a resume timer; `attempts` logs every dunning step. */
  datatype State = State(live: map<string, SubState>, held: set<string>, armed: set<string>,
                         count: map<string, nat>, attempts: seq<Attempt>)

  /** What came of a platform call: nothing applied, applied with an optional reported status, or the transition log refused a row. */
  datatype Reply = NoEffect | Done(status: Option<SubState>) | LogFailed

  datatype Action =
    | Fire(kind: Kind, sub: string, reply: Reply)
    | ResumeDue(sub: string, reply: Reply)
    | CancelResumes

  predicate Eligible(s: State, kind: Kind, sub: string) {
    sub !in s.held && sub in s.live && CanFireFrom(kind, s.live[sub])
  }

  function Get(count: map<string, nat>, sub: string): nat {
    if sub in count then count[sub] else 0
  }

  function Reported(s: State, sub: string, reply: Reply): State {
    if reply.Done? && reply.status.Some? then s.(live := s.live[sub := reply.status.value]) else s
  }

  function DunningAttempt(maxRetries: nat, s: State, sub: string, reply: Reply): State {
    var current := Get(s.count, sub) + 1;
    var s := s.(count := s.count[sub := current]);
    if current <= maxRetries then
      Reported(s.(attempts := s.attempts + [Attempt(sub, current, Retried)]), sub, reply)
    else if reply.LogFailed? then
      s.(attempts := s.attempts + [Attempt(sub, current, EscalationNotLogged)])
    else
      s.(attempts := s.attempts + [Attempt(sub, current, Escalated)], live := s.live[sub := Suspended], held := s.held + {sub})
  }

  function FireStep(maxRetries: nat, s: State, kind: Kind, sub: string, reply: Reply): State {
    match kind
    case Upgrade => Reported(s, sub, reply)
    case Downgrade => Reported(s, sub, reply)
    case Pause => if reply.Done? then s.(live := s.live[sub := Paused], held := s.held + {sub}, armed := s.armed + {sub}) else s
    case TrialConversion => if reply.Done? then s.(live := s.live[sub := Active]) else s
    case TrialCancel => if reply.Done? then s.(live := s.live[sub := Cancelled], held := s.held + {sub}) else s
    case RetryPayment => DunningAttempt(maxRetries, s, sub, reply)
    case _ => s
  }

  function ResumeStep(s: State, sub: string, reply: Reply): State {
    var s := s.(armed := s.armed - {sub});
    match reply
    case LogFailed => s
    case NoEffect => s.(held := s.held - {sub})
    case Done(_) => s.(live := s.live[sub := Active], held := s.held - {sub})
  }

  function Step(maxRetries: nat, s: State, a: Action): State {
    match a
    case Fire(kind, sub, reply) => if Eligible(s, kind, sub) then FireStep(maxRetries, s, kind, sub, reply) else s
    case ResumeDue(sub, reply) => if sub in s.armed then ResumeStep(s, sub, reply) else s
    case CancelResumes => s.(armed := {})
  }

  /** NewPicker: subscriptions already terminal in the manifest are left out. */
  function Start(manifest: map<string, SubState>): State {
    State(map x | x in manifest && !IsTerminal(manifest[x]) :: manifest[x], {}, {}, map[], [])
  }

  function After(maxRetries: nat, manifest: map<string, SubState>, run: seq<Action>): State {
    if run == [] then Start(manifest)
    else Step(maxRetries, After(maxRetries, manifest, run[..|run| - 1]), run[|run| - 1])
  }

  // ----- What one more step does to a run -----

  lemma {:induction false} OneMore(maxRetries: nat, manifest: map<string, SubState>, run: seq<Action>, a: Action)
    ensures After(maxRetries, manifest, run + [a]) == Step(maxRetries, After(maxRetries, manifest, run), a)
  {
    assert (run + [a])[..|run|] == run;
  }

  /** A subscription may be picked when it is not held out, its state is known, and that state admits the transition. */
  lemma {:induction false} EligibleMeans(s: State, kind: Kind, sub: string)
    ensures Eligible(s, kind, sub) <==> sub !in s.held && sub in s.live && kind in Attemptable(s.live[sub])
  {
  }

  /** Only the subscription's own entry and hold may differ: it has the state, and it is held out if it was or now is to be. */
  ghost predicate Becomes(s: State, r: State, sub: string, state: SubState, hold: bool) {
    && r.live == s.live[sub := state] && r.held == (if hold then s.held + {sub} else s.held)
    && r.count == s.count && r.attempts == s.attempts
  }

  /** What a transition other than a retry leaves: a pause that took effect holds the subscription, PAUSED, with its resume armed; trials end as ACTIVE or, for good, CANCELLED; plan changes only adopt a reported status; without effect nothing changes. */
  lemma {:induction false} FireMeans(maxRetries: nat, manifest: map<string, SubState>, run: seq<Action>, kind: Kind, sub: string, reply: Reply)
    requires kind != RetryPayment
    ensures var s, r := After(maxRetries, manifest, run), After(maxRetries, manifest, run + [Fire(kind, sub, reply)]);
            && (!Eligible(s, kind, sub) || !reply.Done? ==> r == s)
            && (Eligible(s, kind, sub) && reply.Done? ==>
                  && (kind == Pause ==> Becomes(s, r, sub, Paused, true))
                  && (kind == TrialConversion ==> Becomes(s, r, sub, Active, false))
                  && (kind == TrialCancel ==> Becomes(s, r, sub, Cancelled, true))
                  && (kind in {Upgrade, Downgrade} ==> Becomes(s, r, sub, if reply.status.Some? then reply.status.value else s.live[sub], false))
                  && (kind in {Migrate, Resume, DunningStep, DunningEscalate} ==> r == s)
                  && r.armed == if kind == Pause then s.armed + {sub} else s.armed)
  {
    OneMore(maxRetries, manifest, run, Fire(kind, sub, reply));
  }

  /** What a retry leaves: one more attempt, numbered; up to MaxRetries it adopts a reported status, past them it suspends and holds the subscription unless the log refused the row. */
  lemma {:induction false} RetryMeans(maxRetries: nat, manifest: map<string, SubState>, run: seq<Action>, sub: string, reply: Reply)
    requires Eligible(After(maxRetries, manifest, run), RetryPayment, sub)
    ensures var s, r := After(maxRetries, manifest, run), After(maxRetries, manifest, run + [Fire(RetryPayment, sub, reply)]);
            var n := (if sub in s.count then s.count[sub] else 0) + 1;
            && r.count == s.count[sub := n] && r.armed == s.armed
            && (n <= maxRetries ==>
                  && r.attempts == s.attempts + [Attempt(sub, n, Retried)] && r.held == s.held
                  && r.live == if reply.Done? && reply.status.Some? then s.live[sub := reply.status.value] else s.live)
            && (n > maxRetries && reply.LogFailed? ==>
                  r.attempts == s.attempts + [Attempt(sub, n, EscalationNotLogged)] && r.held == s.held && r.live == s.live)
            && (n > maxRetries && !reply.LogFailed? ==>
                  r.attempts == s.attempts + [Attempt(sub, n, Escalated)] && r.held == s.held + {sub} && r.live == s.live[sub := Suspended])
  {
    OneMore(maxRetries, manifest, run, Fire(RetryPayment, sub, reply));
  }

  /** An armed resume that comes due is spent. It releases the subscription unless its log row failed, and makes it ACTIVE when the platform did resume it; one that is not armed, and cancelling, move no subscription. */
  lemma {:induction false} ResumeMeans(maxRetries: nat, manifest: map<string, SubState>, run: seq<Action>, sub: string, reply: Reply)
    ensures var s, r := After(maxRetries, manifest, run), After(maxRetries, manifest, run + [ResumeDue(sub, reply)]);
            && r.armed == s.armed - {sub} && r.count == s.count && r.attempts == s.attempts
            && (sub !in s.armed || reply.LogFailed? ==> r.live == s.live && r.held == s.held)
            && (sub in s.armed && !reply.LogFailed? ==>
                  sub !in r.held && r.held == s.held - {sub}
                  && if reply.Done? then r.live == s.live[sub := Active] else r.live == s.live)
    ensures After(maxRetries, manifest, run + [CancelResumes]) == After(maxRetries, manifest, run).(armed := {})
  {
    OneMore(maxRetries, manifest, run, ResumeDue(sub, reply));
    OneMore(maxRetries, manifest, run, CancelResumes);
  }

  // ----- Armed resumes -----

  ghost predicate ArmedParked(s: State) {
    forall x :: x in s.armed ==> x in s.held && x in s.live && s.live[x] == Paused
  }

  lemma {:induction false} FireKeepsArmed(maxRetries: nat, s: State, kind: Kind, sub: string, reply: Reply)
    requires ArmedParked(s) && Eligible(s, kind, sub)
    ensures ArmedParked(FireStep(maxRetries, s, kind, sub, reply))
  {
    assert sub !in s.armed;
  }

  lemma {:induction false} ResumeKeepsArmed(s: State, sub: string, reply: Reply)
    requires ArmedParked(s)
    ensures ArmedParked(ResumeStep(s, sub, reply))
  {
  }

  /** In every reachable state an armed resume means the subscription is held out of the picker and PAUSED. */
  lemma {:induction false} ArmedIsHeldAndPaused(maxRetries: nat, manifest: map<string, SubState>, run: seq<Action>)
    ensures ArmedParked(After(maxRetries, manifest, run))
  {
    if run != [] {
      var s := After(maxRetries, manifest, run[..|run| - 1]);
      ArmedIsHeldAndPaused(maxRetries, manifest, run[..|run| - 1]);
      match run[|run| - 1] {
        case Fire(kind, sub, reply) =>
          if Eligible(s, kind, sub) {
            FireKeepsArmed(maxRetries, s, kind, sub, reply);
          }
        case ResumeDue(sub, reply) => ResumeKeepsArmed(s, sub, reply);
        case CancelResumes =>
      }
    }
  }

  /** Every change the agent makes on its own account, not on a reported status, is a legal transition. */
  lemma {:induction false} OwnMovesAreLegal(maxRetries: nat, manifest: map<string, SubState>, run: seq<Action>, a: Action, sub: string)
    requires !a.CancelResumes? && !(a.reply.Done? && a.reply.status.Some?)
    requires sub in After(maxRetries, manifest, run).live
    ensures var s := After(maxRetries, manifest, run);
            var r := Step(maxRetries, s, a);
            sub in r.live && IsLegalTransition(s.live[sub], r.live[sub])
  {
    var s := After(maxRetries, manifest, run);
    ArmedIsHeldAndPaused(maxRetries, manifest, run);
    if a.Fire? && Eligible(s, a.kind, a.sub) {
      var kind := if a.kind == RetryPayment then DunningEscalate else a.kind;
      ExpectedPostIsLegal(kind, s.live[a.sub]);
    } else if a.ResumeDue? && a.sub in s.armed {
      ExpectedPostIsLegal(Resume, s.live[a.sub]);
    }
  }

  /** What takes effect without a reported status lands where the table expects: a pause, the end of a trial, an escalation, a resume. */
  lemma {:induction false} LandsAsExpected(maxRetries: nat, manifest: map<string, SubState>, run: seq<Action>, kind: Kind, sub: string)
    requires Eligible(After(maxRetries, manifest, run), kind, sub)
    requires kind == RetryPayment ==> Get(After(maxRetries, manifest, run).count, sub) >= maxRetries
    ensures var s := After(maxRetries, manifest, run);
            var r := After(maxRetries, manifest, run + [Fire(kind, sub, Done(None))]);
            var expected := ExpectedPostState(if kind == RetryPayment then DunningEscalate else kind, s.live[sub]);
            sub in r.live && (kind !in {Resume, DunningStep, DunningEscalate} ==> expected == Some(r.live[sub]))
  {
    OneMore(maxRetries, manifest, run, Fire(kind, sub, Done(None)));
  }

  // ----- Terminal subscriptions -----

  lemma {:induction false} TerminalStep(maxRetries: nat, s: State, a: Action, sub: string)
    requires ArmedParked(s) && sub in s.live && IsTerminal(s.live[sub])
    ensures sub in Step(maxRetries, s, a).live && Step(maxRetries, s, a).live[sub] == s.live[sub]
  {
  }

  /** Once CANCELLED or EXPIRED, a subscription keeps that state and is never eligible again, whatever follows. */
  lemma {:induction false} TerminalNeverPicked(maxRetries: nat, manifest: map<string, SubState>, run: seq<Action>, more: seq<Action>, sub: string)
    requires sub in After(maxRetries, manifest, run).live && IsTerminal(After(maxRetries, manifest, run).live[sub])
    ensures var s, r := After(maxRetries, manifest, run), After(maxRetries, manifest, run + more);
            sub in r.live && r.live[sub] == s.live[sub] && forall kind :: !Eligible(r, kind, sub)
    decreases |more|
  {
    if more == [] {
      assert run + more == run;
    } else {
      var pre, all := more[..|more| - 1], run + more;
      assert all[..|all| - 1] == run + pre && all[|all| - 1] == more[|more| - 1];
      TerminalNeverPicked(maxRetries, manifest, run, pre, sub);
      ArmedIsHeldAndPaused(maxRetries, manifest, run + pre);
      TerminalStep(maxRetries, After(maxRetries, manifest, run + pre), more[|more| - 1], sub);
    }
  }

  // ----- Dunning -----

  function Numbers(attempts: seq<Attempt>, sub: string): seq<nat> {
    if attempts == [] then []
    else Numbers(attempts[..|attempts| - 1], sub)
         + if attempts[|attempts| - 1].sub == sub then [attempts[|attempts| - 1].number] else []
  }

  lemma {:induction false} NumbersSnoc(attempts: seq<Attempt>, x: Attempt, sub: string)
    ensures Numbers(attempts + [x], sub) == Numbers(attempts, sub) + if x.sub == sub then [x.number] else []
  {
    assert (attempts + [x])[..|attempts|] == attempts;
  }

  /** A step logs at most one attempt, numbered one past the counter. */
  lemma {:induction false} StepAttempts(maxRetries: nat, s: State, a: Action)
    ensures var r := Step(maxRetries, s, a);
            || (r.attempts == s.attempts && r.count == s.count)
            || (a.Fire? && a.kind == RetryPayment && Eligible(s, RetryPayment, a.sub)
                && r.count == s.count[a.sub := Get(s.count, a.sub) + 1]
                && |r.attempts| == |s.attempts| + 1 && r.attempts[..|s.attempts|] == s.attempts
                && var x := r.attempts[|s.attempts|];
                   && x.sub == a.sub && x.number == Get(s.count, a.sub) + 1
                   && (x.outcome == Retried <==> x.number <= maxRetries)
                   && (x.outcome == Escalated ==> a.sub in r.held && r.live == s.live[a.sub := Suspended] && r.armed == s.armed))
  {
  }

  /** 1, 2, ..., n. */
  function UpTo(n: nat): seq<nat> {
    seq(n, i => i + 1)
  }

  lemma {:induction false} GapFreeSnoc(attempts: seq<Attempt>, x: Attempt, sub: string, n: nat)
    requires Numbers(attempts, sub) == UpTo(n) && (x.sub == sub ==> x.number == n + 1)
    ensures Numbers(attempts + [x], sub) == UpTo(if x.sub == sub then n + 1 else n)
  {
    NumbersSnoc(attempts, x, sub);
    UpToNext(n);
  }

  lemma {:induction false} UpToNext(n: nat)
    ensures UpTo(n + 1) == UpTo(n) + [n + 1] && UpTo(n) + [] == UpTo(n)
  {
  }

  lemma {:induction false} StepNumbers(maxRetries: nat, s: State, a: Action, sub: string)
    requires Numbers(s.attempts, sub) == UpTo(Get(s.count, sub))
    ensures var r := Step(maxRetries, s, a); Numbers(r.attempts, sub) == UpTo(Get(r.count, sub))
  {
    var r := Step(maxRetries, s, a);
    StepAttempts(maxRetries, s, a);
    if r.attempts != s.attempts {
      var x := r.attempts[|s.attempts|];
      assert r.attempts == s.attempts + [x];
      GapFreeSnoc(s.attempts, x, sub, Get(s.count, sub));
    }
  }

  /** A subscription's dunning attempts are numbered 1, 2, 3, ... without gaps. */
  lemma {:induction false} AttemptsNumberedWithoutGaps(maxRetries: nat, manifest: map<string, SubState>, run: seq<Action>, sub: string)
    ensures var s := After(maxRetries, manifest, run);
            Numbers(s.attempts, sub) == UpTo(Get(s.count, sub))
  {
    if run != [] {
      var pre := run[..|run| - 1];
      AttemptsNumberedWithoutGaps(maxRetries, manifest, pre, sub);
      StepNumbers(maxRetries, After(maxRetries, manifest, pre), run[|run| - 1], sub);
    }
  }

  /** Attempt p escalated: its subscription is parked for good and it was the last attempt. */
  ghost predicate Parked(s: State, p: nat)
    requires p < |s.attempts|
  {
    var sub := s.attempts[p].sub;
    && sub in s.held && sub in s.live && s.live[sub] == Suspended && sub !in s.armed
    && forall q :: p < q < |s.attempts| ==> s.attempts[q].sub != sub
  }

  ghost predicate DunningOk(maxRetries: nat, s: State) {
    && ArmedParked(s)
    && (forall p :: 0 <= p < |s.attempts| ==> (s.attempts[p].outcome == Retried <==> s.attempts[p].number <= maxRetries))
    && (forall p :: 0 <= p < |s.attempts| && s.attempts[p].outcome == Escalated ==> Parked(s, p))
  }

  lemma {:induction false} StepKeepsParked(maxRetries: nat, s: State, a: Action, p: nat)
    requires ArmedParked(s) && p < |s.attempts| && Parked(s, p)
    ensures var r := Step(maxRetries, s, a);
            p < |r.attempts| && r.attempts[p] == s.attempts[p] && Parked(r, p)
  {
    StepAttempts(maxRetries, s, a);
    var r := Step(maxRetries, s, a);
    assert forall q :: 0 <= q < |s.attempts| ==> r.attempts[q] == s.attempts[q] by {
      if r.attempts != s.attempts {
        assert r.attempts[..|s.attempts|] == s.attempts;
      }
    }
  }

  lemma {:induction false} RunDunningOk(maxRetries: nat, manifest: map<string, SubState>, run: seq<Action>)
    ensures DunningOk(maxRetries, After(maxRetries, manifest, run))
  {
    ArmedIsHeldAndPaused(maxRetries, manifest, run);
    if run != [] {
      var pre, a := run[..|run| - 1], run[|run| - 1];
      RunDunningOk(maxRetries, manifest, pre);
      var s, r := After(maxRetries, manifest, pre), After(maxRetries, manifest, run);
      StepAttempts(maxRetries, s, a);
      forall p | 0 <= p < |s.attempts| ensures r.attempts[p] == s.attempts[p] {
        if r.attempts != s.attempts {
          assert r.attempts[..|s.attempts|] == s.attempts;
        }
      }
      forall p | 0 <= p < |r.attempts| && r.attempts[p].outcome == Escalated ensures Parked(r, p) {
        if p < |s.attempts| {
          StepKeepsParked(maxRetries, s, a, p);
        }
      }
    }
  }

  lemma {:induction false} AttemptsOnlyGrow(maxRetries: nat, manifest: map<string, SubState>, run: seq<Action>, more: seq<Action>)
    ensures After(maxRetries, manifest, run).attempts <= After(maxRetries, manifest, run + more).attempts
    decreases |more|
  {
    if more == [] {
      assert run + more == run;
    } else {
      var pre, all := more[..|more| - 1], run + more;
      assert all[..|all| - 1] == run + pre;
      AttemptsOnlyGrow(maxRetries, manifest, run, pre);
      StepAttempts(maxRetries, After(maxRetries, manifest, run + pre), all[|all| - 1]);
    }
  }

  /** Once its escalation is logged, whatever follows, a subscription is SUSPENDED, has no armed resume, and is never picked for any kind. */
  lemma {:induction false} EscalatedNeverPicked(maxRetries: nat, manifest: map<string, SubState>, run: seq<Action>, more: seq<Action>, p: nat, kind: Kind)
    requires p < |After(maxRetries, manifest, run).attempts| && After(maxRetries, manifest, run).attempts[p].outcome == Escalated
    ensures var r := After(maxRetries, manifest, run + more);
            var sub := After(maxRetries, manifest, run).attempts[p].sub;
            !Eligible(r, kind, sub) && sub !in r.armed && sub in r.live && r.live[sub] == Suspended
  {
    AttemptsOnlyGrow(maxRetries, manifest, run, more);
    RunDunningOk(maxRetries, manifest, run + more);
    assert Parked(After(maxRetries, manifest, run + more), p);
  }

  /**
   At most one escalation per subscription, and it is the subscription's last attempt. It
   comes after MaxRetries; any earlier attempt past MaxRetries was one whose log row failed.
   */
  lemma {:induction false} EscalatesAtMostOnce(maxRetries: nat, manifest: map<string, SubState>, run: seq<Action>, p: nat, q: nat)
    requires p < |After(maxRetries, manifest, run).attempts| && After(maxRetries, manifest, run).attempts[p].outcome == Escalated
    requires q < |After(maxRetries, manifest, run).attempts| && q != p
    requires After(maxRetries, manifest, run).attempts[q].sub == After(maxRetries, manifest, run).attempts[p].sub
    ensures var attempts := After(maxRetries, manifest, run).attempts;
            && q < p && attempts[p].number > maxRetries
            && (attempts[q].outcome == Retried <==> attempts[q].number <= maxRetries)
            && (attempts[q].outcome != Retried ==> attempts[q].outcome == EscalationNotLogged)
  {
    RunDunningOk(maxRetries, manifest, run);
    var s := After(maxRetries, manifest, run);
    assert Parked(s, p);
    assert s.attempts[q].outcome == Escalated ==> Parked(s, q);
  }

  /** Unless a log row failed, the escalation is attempt MaxRetries + 1. */
  lemma {:induction false} EscalatesRightAfterRetries(maxRetries: nat, manifest: map<string, SubState>, run: seq<Action>, p: nat)
    requires p < |After(maxRetries, manifest, run).attempts| && After(maxRetries, manifest, run).attempts[p].outcome == Escalated
    ensures var attempts := After(maxRetries, manifest, run).attempts;
            attempts[p].number == maxRetries + 1 <==>
            forall q :: 0 <= q < |attempts| && attempts[q].sub == attempts[p].sub ==> attempts[q].outcome != EscalationNotLogged
  {
    RunDunningOk(maxRetries, manifest, run);
    var attempts := After(maxRetries, manifest, run).attempts;
    var sub, n := attempts[p].sub, attempts[p].number;
    AttemptsNumberedWithoutGaps(maxRetries, manifest, run, sub);
    assert Parked(After(maxRetries, manifest, run), p);
    NumberAt(attempts, sub, p);
    if n == maxRetries + 1 {
      forall q | 0 <= q < |attempts| && attempts[q].sub == sub ensures attempts[q].outcome != EscalationNotLogged {
        NumbersIncrease(attempts, sub, p, q, Get(After(maxRetries, manifest, run).count, sub));
      }
    } else {
      var q := FindNumber(attempts, sub, n - 2);
    }
  }

  /** Position of an attempt among its subscription's attempts. */
  function Rank(attempts: seq<Attempt>, sub: string, p: nat): nat
    requires p <= |attempts|
  {
    |Numbers(attempts[..p], sub)|
  }

  lemma {:induction false} NumberAt(attempts: seq<Attempt>, sub: string, p: nat)
    requires p < |attempts| && attempts[p].sub == sub
    ensures Rank(attempts, sub, p) < |Numbers(attempts, sub)|
    ensures Numbers(attempts, sub)[Rank(attempts, sub, p)] == attempts[p].number
  {
    var last := |attempts| - 1;
    if p == last {
    } else {
      NumberAt(attempts[..last], sub, p);
      assert attempts[..last][..p] == attempts[..p];
    }
  }

  lemma {:induction false} RankGrows(attempts: seq<Attempt>, sub: string, p: nat, q: nat)
    requires p <= q <= |attempts|
    ensures Rank(attempts, sub, p) <= Rank(attempts, sub, q)
    ensures p < q && attempts[p].sub == sub ==> Rank(attempts, sub, p) < Rank(attempts, sub, q)
    decreases q - p
  {
    if p < q {
      assert attempts[..q][..q - 1] == attempts[..q - 1];
      RankGrows(attempts, sub, p, q - 1);
    }
  }

  lemma {:induction false} NumbersIncrease(attempts: seq<Attempt>, sub: string, p: nat, q: nat, n: nat)
    requires p < |attempts| && q < |attempts| && attempts[p].sub == sub == attempts[q].sub
    requires Numbers(attempts, sub) == UpTo(n)
    ensures q < p ==> attempts[q].number < attempts[p].number
  {
    NumberAt(attempts, sub, p);
    NumberAt(attempts, sub, q);
    if q < p {
      RankGrows(attempts, sub, q, p);
    }
  }

  /** Every number in the list belongs to some attempt. */
  lemma {:induction false} FindNumber(attempts: seq<Attempt>, sub: string, k: nat) returns (q: nat)
    requires k < |Numbers(attempts, sub)|
    ensures q < |attempts| && attempts[q].sub == sub && attempts[q].number == Numbers(attempts, sub)[k]
  {
    var last := |attempts| - 1;
    if k < |Numbers(attempts[..last], sub)| {
      q := FindNumber(attempts[..last], sub, k);
    } else {
      q := last;
    }
  }

  // ----- The imperative agent -----

  function Candidates(subjects: seq<string>, s: State, kind: Kind): seq<string> {
    if subjects == [] then []
    else Candidates(subjects[..|subjects| - 1], s, kind)
         + if Eligible(s, kind, subjects[|subjects| - 1]) then [subjects[|subjects| - 1]] else []
  }

  lemma {:induction false} CandidatesAreEligible(subjects: seq<string>, s: State, kind: Kind)
    ensures forall x :: x in Candidates(subjects, s, kind) <==> x in subjects && Eligible(s, kind, x)
  {
    if subjects != [] {
      var pre, last := subjects[..|subjects| - 1], subjects[|subjects| - 1];
      CandidatesAreEligible(pre, s, kind);
      assert subjects == pre + [last];
    }
  }

  class Agent {
    const subjects: seq<string>
    const maxRetries: nat
    var liveStates: map<string, SubState>
    var suspended: set<string>
    var armed: set<string>
    var count: map<string, nat>
    ghost var attempts: seq<Attempt>

    ghost function View(): State
      reads this
    {
      State(liveStates, suspended, armed, count, attempts)
    }

    constructor (subjects: seq<string>, manifest: map<string, SubState>, maxRetries: int)
      ensures this.subjects == subjects && View() == Start(manifest)
      ensures this.maxRetries == if maxRetries <= 0 then 3 else maxRetries
    {
      this.subjects := subjects;
      this.maxRetries := if maxRetries <= 0 then 3 else maxRetries;
      liveStates := map x | x in manifest && !IsTerminal(manifest[x]) :: manifest[x];
      suspended, armed, count, attempts := {}, {}, map[], [];
    }

    /** `roll` stands for the seeded random draw. */
    method PickFor(kind: Kind, roll: nat) returns (pick: Option<string>)
      ensures pick.None? <==> forall x :: x in subjects ==> !Eligible(View(), kind, x)
      ensures pick.Some? ==> pick.value in subjects && Eligible(View(), kind, pick.value)
      ensures var cs := Candidates(subjects, View(), kind);
              pick == if |cs| == 0 then None else Some(cs[roll % |cs|])
    {
      var candidates: seq<string> := [];
      for i := 0 to |subjects|
        invariant candidates == Candidates(subjects[..i], View(), kind)
      {
        assert subjects[..i + 1][..i] == subjects[..i];
        var x := subjects[i];
        if x in suspended {
          continue;
        }
        if x in liveStates && CanFireFrom(kind, liveStates[x]) {
          candidates := candidates + [x];
        }
      }
      assert subjects[..|subjects|] == subjects;
      CandidatesAreEligible(subjects, View(), kind);
      if |candidates| == 0 {
        return None;
      }
      assert candidates[roll % |candidates|] in candidates;
      return Some(candidates[roll % |candidates|]);
    }

    method SetLiveState(sub: string, state: SubState)
      modifies this
      ensures View() == old(View()).(live := old(liveStates)[sub := state])
    {
      liveStates := liveStates[sub := state];
    }

    method FirePlanChange(kind: Kind, sub: string, reply: Reply)
      requires kind in {Upgrade, Downgrade, Migrate} && Eligible(View(), kind, sub)
      modifies this
      ensures View() == Step(maxRetries, old(View()), Fire(kind, sub, reply))
    {
      if kind != Migrate && reply.Done? && reply.status.Some? {
        SetLiveState(sub, reply.status.value);
      }
    }

    method FireTrial(kind: Kind, sub: string, reply: Reply)
      requires kind in {TrialConversion, TrialCancel} && Eligible(View(), kind, sub)
      modifies this
      ensures View() == Step(maxRetries, old(View()), Fire(kind, sub, reply))
    {
      if reply.Done? {
        if kind == TrialConversion {
          SetLiveState(sub, Active);
        } else {
          SetLiveState(sub, Cancelled);
          suspended := suspended + {sub};
        }
      }
    }

    method FirePauseAndScheduleResume(sub: string, reply: Reply)
      requires Eligible(View(), Pause, sub)
      modifies this
      ensures View() == Step(maxRetries, old(View()), Fire(Pause, sub, reply))
    {
      if !reply.Done? {
        return;
      }
      SetLiveState(sub, Paused);
      suspended := suspended + {sub};
      armed := armed + {sub};
    }

    method FireResume(sub: string, reply: Reply)
      requires sub in armed
      modifies this
      ensures View() == Step(maxRetries, old(View()), ResumeDue(sub, reply))
    {
      armed := armed - {sub};
      match reply {
        case LogFailed =>
          return;
        case NoEffect =>
          suspended := suspended - {sub};
        case Done(_) =>
          SetLiveState(sub, Active);
          suspended := suspended - {sub};
      }
    }

    method DunningWalkerStep(sub: string, reply: Reply)
      requires Eligible(View(), RetryPayment, sub)
      modifies this
      ensures View() == Step(maxRetries, old(View()), Fire(RetryPayment, sub, reply))
    {
      count := count[sub := Get(count, sub) + 1];
      var current := count[sub];
      if current <= maxRetries {
        attempts := attempts + [Attempt(sub, current, Retried)];
        if reply.Done? && reply.status.Some? {
          SetLiveState(sub, reply.status.value);
        }
        return;
      }
      if reply.LogFailed? {
        attempts := attempts + [Attempt(sub, current, EscalationNotLogged)];
        return;
      }
      attempts := attempts + [Attempt(sub, current, Escalated)];
      SetLiveState(sub, Suspended);
      suspended := suspended + {sub};
    }
  }
}
