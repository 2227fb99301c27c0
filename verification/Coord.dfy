/**
 The control plane of a multi-machine run: one coordinator dispatches tenant chunks to
 worker processes, polls them, and records what it hears. A step is one critical section
 on either side or one message; a request or a reply may be lost or late, processes may
 also take assignments from other coordinators, and steps interleave freely.
 */
module Coord {

  datatype Option<+T> = None | Some(value: T)

  /** Unset and Dropped exist only in the coordinator's records. */
  datatype State = Unset | Idle | Ramp | Running | Done | Aborted | Failed | Dropped

  predicate Terminal(s: State) {
    s == Done || s == Aborted || s == Failed || s == Dropped
  }

  // ----- A worker process -----

  /** One run loop: the run it serves and the tenants it drives. */
  datatype Loop = Loop(run: string, tenants: seq<string>, state: State)

  /** Every loop the process ever started, oldest first; the handler's current run is the last one, or none. */
  datatype Process = Process(loops: seq<Loop>, hasCurrent: bool)

  predicate Active(l: Loop) {
    !Terminal(l.state)
  }

  /** The manifest's tenants whose ids are listed, in manifest order. */
  function Filter(manifest: seq<string>, keep: seq<string>): seq<string> {
    if manifest == [] then []
    else
      var t := manifest[|manifest| - 1];
      Filter(manifest[..|manifest| - 1], keep) + if t in keep then [t] else []
  }

  lemma {:induction false} FilterIsIntersection(manifest: seq<string>, keep: seq<string>, t: string)
    ensures t in Filter(manifest, keep) <==> t in manifest && t in keep
  {
    if manifest != [] {
      FilterIsIntersection(manifest[..|manifest| - 1], keep, t);
      assert manifest == manifest[..|manifest| - 1] + [manifest[|manifest| - 1]];
    }
  }

  /** The filter keeps occurrences and order: it is settled by what it does to single tenants and to concatenation. */
  lemma {:induction false} FilterConcat(m: seq<string>, n: seq<string>, keep: seq<string>, t: string)
    ensures Filter(m + n, keep) == Filter(m, keep) + Filter(n, keep)
    ensures Filter([t], keep) == if t in keep then [t] else []
  {
    assert [t][..0] == [];
    if n == [] {
      assert m + n == m;
    } else {
      assert (m + n)[..|m + n| - 1] == m + n[..|n| - 1];
      FilterConcat(m, n[..|n| - 1], keep, t);
    }
  }

  /** What an assignment asks for, and how its validation and the runner's construction turn out. */
  datatype Order = Order(run: string, chunk: seq<string>, manifest: seq<string>, valid: bool, runnerOk: bool)

  predicate Busy(p: Process) {
    p.hasCurrent && p.loops != [] && Active(p.loops[|p.loops| - 1])
  }

  predicate Accepts(p: Process, o: Order) {
    !Busy(p) && o.valid && Filter(o.manifest, o.chunk) != [] && o.runnerOk
  }

  /** An assignment arrives. A failed runner construction forgets the current run. */
  function Accept(p: Process, o: Order): Process {
    if Busy(p) || !o.valid || Filter(o.manifest, o.chunk) == [] then p
    else if !o.runnerOk then p.(hasCurrent := false)
    else Process(p.loops + [Loop(o.run, Filter(o.manifest, o.chunk), Ramp)], true)
  }

  /** The run loop's goroutine starts. */
  function Begin(p: Process, k: nat): Process {
    if k < |p.loops| && p.loops[k].state == Ramp then p.(loops := p.loops[k := p.loops[k].(state := Running)]) else p
  }

  /** The engine returns: cleanly, cancelled, or with an error. */
  function End(p: Process, k: nat, outcome: State): Process {
    if k < |p.loops| && p.loops[k].state == Running && outcome in {Done, Aborted, Failed}
    then p.(loops := p.loops[k := p.loops[k].(state := outcome)]) else p
  }

  /** A heartbeat names the run it speaks for; the coordinator never compares the name. */
  datatype Heartbeat = Heartbeat(run: string, state: State)

  /** What a heartbeat request is answered with. */
  function Answer(p: Process): Heartbeat {
    if p.hasCurrent && p.loops != [] then
      var l := p.loops[|p.loops| - 1];
      Heartbeat(l.run, l.state)
    else Heartbeat("", Idle)
  }

  // ----- The coordinator's record of one worker -----

  datatype Record = Record(state: State, lastHeartbeat: Option<int>)

  function Acknowledged(now: int): Record {
    Record(Running, Some(now))
  }

  function Heard(reply: State, now: int): Record {
    Record(reply, Some(now))
  }

  function Missed(r: Record, now: int, timeout: int): Record {
    if r.lastHeartbeat.Some? && now - r.lastHeartbeat.value > timeout then r.(state := Dropped) else r
  }

  // ----- The whole system -----

  /** An answer, and which of the process's loops it speaks for (of no account when idle). */
  datatype Reported = Reported(hb: Heartbeat, loop: nat)

  /** A heartbeat in flight: asked, or answered and on its way back. */
  datatype Poll = NoPoll | Asked | Answered(answer: Reported)

  /** `heard`, the last answer that arrived, is bookkeeping: the coordinator keeps only its state. */
  datatype Worker = Worker(record: Record, poll: Poll, accepted: bool, heard: Option<Reported>)

  /** Worker i lives at process `addr[i]` and is sent `chunks[i]`; two workers may share a process. */
  datatype Config = Config(run: string, addr: seq<nat>, chunks: seq<seq<string>>, manifest: seq<string>, processes: nat, timeout: int)

  ghost predicate ValidConfig(c: Config) {
    |c.chunks| == |c.addr| && forall i :: 0 <= i < |c.addr| ==> c.addr[i] < c.processes
  }

  /** The chunks divide the ids by hash. */
  ghost predicate Divides(chunks: seq<seq<string>>, ids: seq<string>, hash: string -> nat) {
    forall i, t :: 0 <= i < |chunks| ==> (t in chunks[i] <==> t in ids && hash(t) % |chunks| == i)
  }

  datatype Sys = Sys(procs: seq<Process>, workers: seq<Worker>, polling: bool)

  datatype Action =
    | Deliver(worker: nat, valid: bool, runnerOk: bool)
    | Foreign(process: nat, order: Order)
    | LoopBegins(process: nat, loop: nat)
    | LoopEnds(process: nat, loop: nat, outcome: State)
    | Ack(worker: nat, now: int)
    | StartPolling
    | Ask(worker: nat)
    | Reply(worker: nat)
    | Hear(worker: nat, now: int)
    | Miss(worker: nat, now: int)

  ghost predicate Fits(c: Config, s: Sys) {
    ValidConfig(c) && |s.procs| == c.processes && |s.workers| == |c.addr|
  }

  function Init(c: Config): Sys {
    Sys(seq(c.processes, i => Process([], false)),
        seq(|c.addr|, i => Worker(Record(Unset, None), NoPoll, false, None)), false)
  }

  function Speaks(p: Process): Reported {
    Reported(Answer(p), if |p.loops| > 0 then |p.loops| - 1 else 0)
  }

  function OwnOrder(c: Config, a: Action): Order
    requires a.Deliver? && a.worker < |c.chunks|
  {
    Order(c.run, c.chunks[a.worker], c.manifest, a.valid, a.runnerOk)
  }

  function StepProcs(c: Config, s: Sys, a: Action): (procs: seq<Process>)
    requires Fits(c, s)
    ensures |procs| == |s.procs|
  {
    match a
    case Deliver(i, _, _) =>
      if i < |s.workers| then s.procs[c.addr[i] := Accept(s.procs[c.addr[i]], OwnOrder(c, a))] else s.procs
    case Foreign(p, o) =>
      if p < |s.procs| && o.run != c.run then s.procs[p := Accept(s.procs[p], o)] else s.procs
    case LoopBegins(p, k) => if p < |s.procs| then s.procs[p := Begin(s.procs[p], k)] else s.procs
    case LoopEnds(p, k, out) => if p < |s.procs| then s.procs[p := End(s.procs[p], k, out)] else s.procs
    case _ => s.procs
  }

  /** Worker i's record after the step; only its own messages touch it. */
  function StepWorker(c: Config, s: Sys, a: Action, i: nat): Worker
    requires Fits(c, s) && i < |s.workers|
  {
    var w := s.workers[i];
    match a
    case Deliver(j, _, _) =>
      if j == i && Accepts(s.procs[c.addr[i]], OwnOrder(c, a)) then w.(accepted := true) else w
    case Ack(j, now) =>
      if j == i && w.accepted && !s.polling then w.(record := Acknowledged(now)) else w
    case Ask(j) =>
      if j == i && s.polling && w.poll.NoPoll? && !Terminal(w.record.state) then w.(poll := Asked) else w
    case Reply(j) =>
      if j == i && w.poll.Asked? then w.(poll := Answered(Speaks(s.procs[c.addr[i]]))) else w
    case Hear(j, now) =>
      if j == i && w.poll.Answered? then
        w.(poll := NoPoll, record := Heard(w.poll.answer.hb.state, now), heard := Some(w.poll.answer))
      else w
    case Miss(j, now) =>
      if j == i && !w.poll.NoPoll? then w.(poll := NoPoll, record := Missed(w.record, now, c.timeout)) else w
    case _ => w
  }

  function Step(c: Config, s: Sys, a: Action): (r: Sys)
    requires Fits(c, s)
    ensures Fits(c, r)
  {
    Sys(StepProcs(c, s, a),
        seq(|s.workers|, i requires 0 <= i < |s.workers| => StepWorker(c, s, a, i)),
        s.polling || a.StartPolling?)
  }

  function After(c: Config, acts: seq<Action>): (r: Sys)
    requires ValidConfig(c)
    ensures Fits(c, r)
  {
    if acts == [] then Init(c) else Step(c, After(c, acts[..|acts| - 1]), acts[|acts| - 1])
  }

  // ----- Processes: loops are started one at a time and finish for good -----

  ghost predicate Orderly(p: Process) {
    && (p.hasCurrent ==> p.loops != [])
    && (forall k :: 0 <= k < |p.loops| ==> p.loops[k].state in {Ramp, Running, Done, Aborted, Failed})
    && (forall k :: 0 <= k < |p.loops| && Active(p.loops[k]) ==> k == |p.loops| - 1 && p.hasCurrent)
  }

  /** p' continues p: loops keep their place, their run, their tenants, and a terminal state. */
  ghost predicate Continues(p: Process, q: Process) {
    && |p.loops| <= |q.loops|
    && forall k :: 0 <= k < |p.loops| ==>
         && q.loops[k].run == p.loops[k].run && q.loops[k].tenants == p.loops[k].tenants
         && (Terminal(p.loops[k].state) ==> q.loops[k].state == p.loops[k].state)
  }

  lemma {:induction false} AcceptKeeps(p: Process, o: Order)
    requires Orderly(p)
    ensures Orderly(Accept(p, o)) && Continues(p, Accept(p, o))
  {
  }

  lemma {:induction false} BeginKeeps(p: Process, k: nat)
    requires Orderly(p)
    ensures Orderly(Begin(p, k)) && Continues(p, Begin(p, k))
  {
  }

  lemma {:induction false} EndKeeps(p: Process, k: nat, outcome: State)
    requires Orderly(p)
    ensures Orderly(End(p, k, outcome)) && Continues(p, End(p, k, outcome))
  {
  }

  ghost predicate AllOrderly(s: Sys) {
    forall p :: 0 <= p < |s.procs| ==> Orderly(s.procs[p])
  }

  lemma {:induction false} StepOrderly(c: Config, s: Sys, a: Action)
    requires Fits(c, s) && AllOrderly(s)
    ensures AllOrderly(Step(c, s, a))
    ensures forall p :: 0 <= p < |s.procs| ==> Continues(s.procs[p], Step(c, s, a).procs[p])
  {
    forall p | 0 <= p < |s.procs|
      ensures Orderly(StepProcs(c, s, a)[p]) && Continues(s.procs[p], StepProcs(c, s, a)[p])
    {
      match a {
        case Deliver(i, _, _) => if i < |s.workers| { AcceptKeeps(s.procs[p], OwnOrder(c, a)); }
        case Foreign(_, o) => AcceptKeeps(s.procs[p], o);
        case LoopBegins(_, k) => BeginKeeps(s.procs[p], k);
        case LoopEnds(_, k, out) => EndKeeps(s.procs[p], k, out);
        case _ =>
      }
    }
  }

  lemma {:induction false} AlwaysOrderly(c: Config, acts: seq<Action>)
    requires ValidConfig(c)
    ensures AllOrderly(After(c, acts))
  {
    if acts != [] {
      AlwaysOrderly(c, acts[..|acts| - 1]);
      StepOrderly(c, After(c, acts[..|acts| - 1]), acts[|acts| - 1]);
    }
  }

  // ----- What this run's loops drive -----

  ghost predicate SentTo(c: Config, i: nat, p: nat, l: Loop) {
    i < |c.addr| && i < |c.chunks| && c.addr[i] == p && l.tenants == Filter(c.manifest, c.chunks[i])
  }

  /** A loop of this run drives what some worker at its address was assigned. */
  ghost predicate Assigned(c: Config, p: nat, l: Loop) {
    l.run == c.run ==> l.tenants != [] && exists i :: SentTo(c, i, p, l)
  }

  ghost predicate AllAssigned(c: Config, s: Sys) {
    forall p, k :: 0 <= p < |s.procs| && 0 <= k < |s.procs[p].loops| ==> Assigned(c, p, s.procs[p].loops[k])
  }

  lemma {:induction false} StepAssigned(c: Config, s: Sys, a: Action)
    requires Fits(c, s) && AllAssigned(c, s)
    ensures AllAssigned(c, Step(c, s, a))
  {
    var q := StepProcs(c, s, a);
    forall p, k | 0 <= p < |q| && 0 <= k < |q[p].loops|
      ensures Assigned(c, p, q[p].loops[k])
    {
      if k < |s.procs[p].loops| {
        assert Assigned(c, p, s.procs[p].loops[k]);
        assert q[p].loops[k].run == s.procs[p].loops[k].run && q[p].loops[k].tenants == s.procs[p].loops[k].tenants;
        assert forall i: nat :: SentTo(c, i, p, s.procs[p].loops[k]) ==> SentTo(c, i, p, q[p].loops[k]);
      } else if a.Deliver? {
        assert SentTo(c, a.worker, p, q[p].loops[k]);
      }
    }
  }

  lemma {:induction false} AlwaysAssigned(c: Config, acts: seq<Action>)
    requires ValidConfig(c)
    ensures AllAssigned(c, After(c, acts))
  {
    if acts != [] {
      AlwaysAssigned(c, acts[..|acts| - 1]);
      StepAssigned(c, After(c, acts[..|acts| - 1]), acts[|acts| - 1]);
    }
  }

  /** No process ever runs two loops at once, of any run: an active loop is the process's latest. */
  lemma {:induction false} OneActiveLoop(c: Config, acts: seq<Action>, p: nat, j: nat, k: nat)
    requires ValidConfig(c) && p < c.processes
    requires var loops := After(c, acts).procs[p].loops;
             && j < |loops| && k < |loops|
             && loops[j].state in {Ramp, Running} && loops[k].state in {Ramp, Running}
    ensures j == k == |After(c, acts).procs[p].loops| - 1
  {
    AlwaysOrderly(c, acts);
  }

  /**
   Two different active loops of this run, wherever they are, never drive the same tenant,
   and each drives only tenants that were dispatched and are in the manifest.
   */
  lemma {:induction false} DrivenDisjoint(c: Config, ids: seq<string>, hash: string -> nat, acts: seq<Action>,
                                          p: nat, j: nat, q: nat, k: nat, t: string)
    requires ValidConfig(c) && Divides(c.chunks, ids, hash) && p < c.processes && q < c.processes
    requires var s := After(c, acts);
             j < |s.procs[p].loops| && k < |s.procs[q].loops|
             && Active(s.procs[p].loops[j]) && Active(s.procs[q].loops[k])
             && s.procs[p].loops[j].run == c.run == s.procs[q].loops[k].run
    requires t in After(c, acts).procs[p].loops[j].tenants
    ensures t in ids && t in c.manifest
    ensures t in After(c, acts).procs[q].loops[k].tenants ==> p == q && j == k
  {
    var s := After(c, acts);
    AlwaysAssigned(c, acts);
    AlwaysOrderly(c, acts);
    var l, m := s.procs[p].loops[j], s.procs[q].loops[k];
    assert Assigned(c, p, l) && Assigned(c, q, m);
    var i := InChunk(c, p, l, t);
    assert hash(t) % |c.chunks| == i;
    if t in m.tenants {
      var i' := InChunk(c, q, m, t);
      assert hash(t) % |c.chunks| == i';
    }
  }

  lemma {:induction false} InChunk(c: Config, p: nat, l: Loop, t: string) returns (i: nat)
    requires ValidConfig(c) && l.run == c.run && Assigned(c, p, l) && t in l.tenants
    ensures i < |c.chunks| && c.addr[i] == p && t in c.chunks[i] && t in c.manifest
  {
    i :| SentTo(c, i, p, l);
    FilterIsIntersection(c.manifest, c.chunks[i], t);
  }

  // ----- What the coordinator's records say -----

  /** The loop the answer speaks for is of the run it names and ended in the state it reports. */
  ghost predicate EndedAs(p: Process, x: Reported) {
    x.loop < |p.loops| && p.loops[x.loop].run == x.hb.run && p.loops[x.loop].state == x.hb.state
  }

  ghost predicate RecordOk(c: Config, s: Sys, i: nat)
    requires Fits(c, s) && i < |s.workers|
  {
    var w, p := s.workers[i], s.procs[c.addr[i]];
    && (Terminal(w.record.state) ==> w.poll.NoPoll?)
    && (!s.polling ==> w.poll.NoPoll? && !Terminal(w.record.state))
    && (Terminal(w.record.state) && w.record.state != Dropped ==>
          w.heard.Some? && w.heard.value.hb.state == w.record.state && EndedAs(p, w.heard.value))
    && (w.poll.Answered? && Terminal(w.poll.answer.hb.state) ==>
          w.poll.answer.hb.state != Dropped && EndedAs(p, w.poll.answer))
  }

  lemma {:induction false} EndedStays(p: Process, q: Process, x: Reported)
    requires Continues(p, q) && Terminal(x.hb.state) && EndedAs(p, x)
    ensures EndedAs(q, x)
  {
  }

  lemma {:induction false} AnswerEnded(p: Process)
    requires Orderly(p)
    ensures Answer(p).state != Dropped && (Terminal(Answer(p).state) ==> EndedAs(p, Speaks(p)))
  {
  }

  lemma {:induction false} StepRecordOk(c: Config, s: Sys, a: Action, i: nat)
    requires Fits(c, s) && AllOrderly(s) && i < |s.workers| && RecordOk(c, s, i)
    ensures RecordOk(c, Step(c, s, a), i)
    ensures Terminal(s.workers[i].record.state) ==>
              Step(c, s, a).workers[i].record == s.workers[i].record && Step(c, s, a).workers[i].heard == s.workers[i].heard
  {
    var r := Step(c, s, a);
    var p, q := s.procs[c.addr[i]], r.procs[c.addr[i]];
    StepOrderly(c, s, a);
    assert Continues(p, q);
    var w := s.workers[i];
    if Terminal(w.record.state) && w.record.state != Dropped {
      EndedStays(p, q, w.heard.value);
    }
    if w.poll.Answered? && Terminal(w.poll.answer.hb.state) {
      EndedStays(p, q, w.poll.answer);
    }
    AnswerEnded(p);
    if Terminal(Answer(p).state) {
      EndedStays(p, q, Speaks(p));
    }
  }

  lemma {:induction false} RecordAlwaysOk(c: Config, acts: seq<Action>, i: nat)
    requires ValidConfig(c) && i < |c.addr|
    ensures RecordOk(c, After(c, acts), i)
  {
    if acts != [] {
      RecordAlwaysOk(c, acts[..|acts| - 1], i);
      AlwaysOrderly(c, acts[..|acts| - 1]);
      StepRecordOk(c, After(c, acts[..|acts| - 1]), acts[|acts| - 1], i);
    }
  }

  // ----- What one more step does to a run -----

  lemma {:induction false} OneMore(c: Config, acts: seq<Action>, a: Action)
    requires ValidConfig(c)
    ensures After(c, acts + [a]) == Step(c, After(c, acts), a)
  {
    assert (acts + [a])[..|acts|] == acts;
  }

  /** No run loop of the process is about to start or running. */
  predicate AtRest(p: Process) {
    forall k :: 0 <= k < |p.loops| ==> p.loops[k].state != Ramp && p.loops[k].state != Running
  }

  /**
   What an order does to the process it reaches. A run loop starts exactly when the process is at
   rest, the order is valid, some of its tenants are in the manifest and the runner can be built;
   a runner that cannot be built leaves the process without a current run; every other order
   changes nothing.
   */
  ghost predicate Taken(p: Process, q: Process, run: string, tenants: seq<string>, valid: bool, runnerOk: bool) {
    if !AtRest(p) || !valid || tenants == [] then q == p
    else if runnerOk then q == Process(p.loops + [Loop(run, tenants, Ramp)], true)
    else q == Process(p.loops, false)
  }

  lemma {:induction false} AcceptTakes(p: Process, o: Order)
    requires Orderly(p)
    ensures Taken(p, Accept(p, o), o.run, Filter(o.manifest, o.chunk), o.valid, o.runnerOk)
    ensures Accepts(p, o) <==> |Accept(p, o).loops| > |p.loops|
  {
  }

  /** A delivered assignment reaches its own process only, and the worker counts as having accepted when a loop has started. */
  lemma {:induction false} DeliverMeans(c: Config, acts: seq<Action>, i: nat, valid: bool, runnerOk: bool)
    requires ValidConfig(c) && i < |c.addr|
    ensures var s, r, p := After(c, acts), After(c, acts + [Deliver(i, valid, runnerOk)]), c.addr[i];
            && Taken(s.procs[p], r.procs[p], c.run, Filter(c.manifest, c.chunks[i]), valid, runnerOk)
            && (forall q :: 0 <= q < c.processes && q != p ==> r.procs[q] == s.procs[q])
            && r.workers[i] == s.workers[i].(accepted := s.workers[i].accepted || |r.procs[p].loops| > |s.procs[p].loops|)
  {
    var a := Deliver(i, valid, runnerOk);
    OneMore(c, acts, a);
    AlwaysOrderly(c, acts);
    AcceptTakes(After(c, acts).procs[c.addr[i]], OwnOrder(c, a));
  }

  /** Another coordinator's order likewise, and no record of this one changes. */
  lemma {:induction false} ForeignMeans(c: Config, acts: seq<Action>, p: nat, o: Order)
    requires ValidConfig(c) && p < c.processes && o.run != c.run
    ensures var s, r := After(c, acts), After(c, acts + [Foreign(p, o)]);
            && Taken(s.procs[p], r.procs[p], o.run, Filter(o.manifest, o.chunk), o.valid, o.runnerOk)
            && (forall q :: 0 <= q < c.processes && q != p ==> r.procs[q] == s.procs[q])
            && r.workers == s.workers
  {
    OneMore(c, acts, Foreign(p, o));
    AlwaysOrderly(c, acts);
    AcceptTakes(After(c, acts).procs[p], o);
  }

  lemma {:induction false} OnlyGoodOrdersGrow(p: Process, o: Order)
    ensures |Accept(p, o).loops| != |p.loops| ==> o.valid && o.runnerOk
  {
  }

  lemma {:induction false} OnlyOrdersGrow(c: Config, s: Sys, a: Action, p: nat)
    requires Fits(c, s) && p < |s.procs| && |StepProcs(c, s, a)[p].loops| != |s.procs[p].loops|
    ensures || (a.Deliver? && a.worker < |c.addr| && c.addr[a.worker] == p && a.valid && a.runnerOk)
            || (a.Foreign? && a.process == p && a.order.valid && a.order.runnerOk)
  {
    match a {
      case Deliver(i, _, _) => if i < |s.workers| { OnlyGoodOrdersGrow(s.procs[p], OwnOrder(c, a)); }
      case Foreign(_, o) => OnlyGoodOrdersGrow(s.procs[p], o);
      case _ =>
    }
  }

  /** A step that adds a run loop anywhere is the arrival of a valid order whose runner could be built. */
  lemma {:induction false} LoopsComeFromGoodOrders(c: Config, acts: seq<Action>, a: Action, p: nat)
    requires ValidConfig(c) && p < c.processes
    requires |After(c, acts + [a]).procs[p].loops| != |After(c, acts).procs[p].loops|
    ensures || (a.Deliver? && a.worker < |c.addr| && c.addr[a.worker] == p && a.valid && a.runnerOk)
            || (a.Foreign? && a.process == p && a.order.valid && a.order.runnerOk)
  {
    OneMore(c, acts, a);
    OnlyOrdersGrow(c, After(c, acts), a, p);
  }

  /** The k-th action is an assignment to worker i that was valid, found a tenant and a runner, and came to a process at rest. */
  ghost predicate GoodDelivery(c: Config, acts: seq<Action>, i: nat, k: nat)
    requires ValidConfig(c) && i < |c.addr| && k < |acts|
  {
    && acts[k].Deliver? && acts[k].worker == i && acts[k].valid && acts[k].runnerOk
    && Filter(c.manifest, c.chunks[i]) != [] && AtRest(After(c, acts[..k]).procs[c.addr[i]])
  }

  /** A worker counts as having accepted if and only if such an assignment reached it. */
  lemma {:induction false} AcceptedIff(c: Config, acts: seq<Action>, i: nat)
    requires ValidConfig(c) && i < |c.addr|
    ensures After(c, acts).workers[i].accepted <==> exists k :: 0 <= k < |acts| && GoodDelivery(c, acts, i, k)
  {
    if acts != [] {
      var n := |acts| - 1;
      var pre := acts[..n];
      AcceptedIff(c, pre, i);
      AcceptedStep(c, pre, acts[n], i);
      assert pre + [acts[n]] == acts;
      forall k | 0 <= k < n ensures GoodDelivery(c, pre, i, k) <==> GoodDelivery(c, acts, i, k) {
        assert pre[..k] == acts[..k];
      }
      assert After(c, acts).workers[i].accepted <==> After(c, pre).workers[i].accepted || GoodDelivery(c, acts, i, n);
    }
  }

  lemma {:induction false} AcceptedStep(c: Config, acts: seq<Action>, a: Action, i: nat)
    requires ValidConfig(c) && i < |c.addr|
    ensures After(c, acts + [a]).workers[i].accepted
            <==> After(c, acts).workers[i].accepted || GoodDelivery(c, acts + [a], i, |acts|)
  {
    OneMore(c, acts, a);
    assert (acts + [a])[..|acts|] == acts;
    if a.Deliver? && a.worker == i {
      DeliverMeans(c, acts, i, a.valid, a.runnerOk);
    }
  }

  /** Loop k of the process has the given state instead. */
  function WithState(p: Process, k: nat, st: State): Process
    requires k < |p.loops|
  {
    p.(loops := p.loops[k := p.loops[k].(state := st)])
  }

  /** A loop that is ready starts to run, a running one ends in the given way, and no other loop moves. */
  lemma {:induction false} LoopMoves(c: Config, acts: seq<Action>, p: nat, k: nat, outcome: State)
    requires ValidConfig(c) && p < c.processes && k < |After(c, acts).procs[p].loops| && outcome in {Done, Aborted, Failed}
    ensures var s := After(c, acts).procs;
            var b, e := After(c, acts + [LoopBegins(p, k)]).procs, After(c, acts + [LoopEnds(p, k, outcome)]).procs;
            && b[p] == (if s[p].loops[k].state == Ramp then WithState(s[p], k, Running) else s[p])
            && e[p] == (if s[p].loops[k].state == Running then WithState(s[p], k, outcome) else s[p])
            && (forall q :: 0 <= q < c.processes && q != p ==> b[q] == s[q] == e[q])
  {
    OneMore(c, acts, LoopBegins(p, k));
    OneMore(c, acts, LoopEnds(p, k, outcome));
  }

  lemma {:induction false} MessagesLeaveLoops(c: Config, acts: seq<Action>, a: Action)
    requires ValidConfig(c) && !(a.Deliver? || a.Foreign? || a.LoopBegins? || a.LoopEnds?)
    ensures After(c, acts + [a]).procs == After(c, acts).procs
    ensures After(c, acts + [a]).polling == (After(c, acts).polling || a == StartPolling)
  {
    OneMore(c, acts, a);
  }

  /** The coordinator marks an accepted worker running before it polls; it asks whom it does not know to have ended, one request at a time. */
  lemma {:induction false} AckAndAsk(c: Config, acts: seq<Action>, i: nat, now: int)
    requires ValidConfig(c) && i < |c.addr|
    ensures var s := After(c, acts);
            var w := s.workers[i];
            && After(c, acts + [Ack(i, now)]).workers[i]
               == (if w.accepted && !s.polling then w.(record := Record(Running, Some(now))) else w)
            && After(c, acts + [Ask(i)]).workers[i]
               == (if s.polling && w.poll == NoPoll && w.record.state !in {Done, Aborted, Failed, Dropped} then w.(poll := Asked) else w)
  {
    OneMore(c, acts, Ack(i, now));
    OneMore(c, acts, Ask(i));
  }

  /** A process answers for its latest loop, or says that it is idle. */
  lemma {:induction false} ReplyMeans(c: Config, acts: seq<Action>, i: nat)
    requires ValidConfig(c) && i < |c.addr| && After(c, acts).workers[i].poll == Asked
    ensures var p, w := After(c, acts).procs[c.addr[i]], After(c, acts + [Reply(i)]).workers[i];
            && w.poll.Answered?
            && (!p.hasCurrent ==> w.poll.answer.hb == Heartbeat("", Idle))
            && (p.hasCurrent ==> p.loops != [] && var k := |p.loops| - 1;
                                 w.poll.answer == Reported(Heartbeat(p.loops[k].run, p.loops[k].state), k))
  {
    OneMore(c, acts, Reply(i));
    AlwaysOrderly(c, acts);
  }

  /** The record becomes what the answer says, at the time it arrives; a failed poll changes it only by dropping a worker silent for too long. */
  lemma {:induction false} HearAndMiss(c: Config, acts: seq<Action>, i: nat, now: int)
    requires ValidConfig(c) && i < |c.addr|
    ensures var w := After(c, acts).workers[i];
            var h, m := After(c, acts + [Hear(i, now)]).workers[i], After(c, acts + [Miss(i, now)]).workers[i];
            && (!w.poll.Answered? ==> h == w)
            && (w.poll.Answered? ==> h == w.(poll := NoPoll, record := Record(w.poll.answer.hb.state, Some(now)), heard := Some(w.poll.answer)))
            && (w.poll == NoPoll ==> m == w)
            && (w.poll != NoPoll ==>
                  m.poll == NoPoll && m.record.lastHeartbeat == w.record.lastHeartbeat
                  && m.record.state == match w.record.lastHeartbeat
                                       case Some(last) => if now - last > c.timeout then Dropped else w.record.state
                                       case None => w.record.state)
  {
    OneMore(c, acts, Hear(i, now));
    OneMore(c, acts, Miss(i, now));
  }

  /** Once a worker's recorded state is terminal, nothing that happens later changes its record. */
  lemma {:induction false} TerminalRecordsStay(c: Config, acts: seq<Action>, more: seq<Action>, i: nat)
    requires ValidConfig(c) && i < |c.addr| && Terminal(After(c, acts).workers[i].record.state)
    ensures After(c, acts + more).workers[i].record == After(c, acts).workers[i].record
  {
    if more == [] {
      assert acts + more == acts;
    } else {
      var n := |more| - 1;
      TerminalRecordsStay(c, acts, more[..n], i);
      assert (acts + more)[..|acts + more| - 1] == acts + more[..n];
      assert (acts + more)[|acts + more| - 1] == more[n];
      RecordAlwaysOk(c, acts + more[..n], i);
      AlwaysOrderly(c, acts + more[..n]);
      StepRecordOk(c, After(c, acts + more[..n]), more[n], i);
    }
  }

  /** Worker i is on record as done, aborted or failed. */
  predicate RecordedEnding(s: Sys, i: nat)
    requires i < |s.workers|
  {
    Terminal(s.workers[i].record.state) && s.workers[i].record.state != Dropped
  }

  /** The coordinator never makes up an ending: the loop that the last answer spoke for ended so, at that worker's address. */
  lemma {:induction false} RecordedEndingHappened(c: Config, acts: seq<Action>, i: nat)
    requires ValidConfig(c) && i < |c.addr| && RecordedEnding(After(c, acts), i)
    ensures var s := After(c, acts);
            var w := s.workers[i];
            w.heard.Some? && w.heard.value.hb.state == w.record.state && EndedAs(s.procs[c.addr[i]], w.heard.value)
  {
    RecordAlwaysOk(c, acts, i);
  }

  // ----- Whose ending it was -----

  /** The recorded ending is that of a loop which drove an assignment of this run. */
  ghost predicate EndingIsOurs(c: Config, s: Sys, i: nat)
    requires Fits(c, s) && i < |s.workers|
  {
    var p, h := c.addr[i], s.workers[i].heard;
    h.Some? && h.value.loop < |s.procs[p].loops| &&
    var l := s.procs[p].loops[h.value.loop];
    l.run == c.run && l.state == s.workers[i].record.state && exists j :: SentTo(c, j, p, l)
  }

  predicate HeardOurs(c: Config, s: Sys, i: nat)
    requires i < |s.workers|
  {
    s.workers[i].heard.Some? && s.workers[i].heard.value.hb.run == c.run
  }

  /** A recorded ending is one of this run's loops if and only if the heartbeat that reported it carried this run's id. */
  lemma {:induction false} EndingIsOursIff(c: Config, acts: seq<Action>, i: nat)
    requires ValidConfig(c) && i < |c.addr| && RecordedEnding(After(c, acts), i)
    ensures EndingIsOurs(c, After(c, acts), i) <==> HeardOurs(c, After(c, acts), i)
  {
    var s := After(c, acts);
    RecordedEndingHappened(c, acts, i);
    AlwaysAssigned(c, acts);
    var p := c.addr[i];
    assert Assigned(c, p, s.procs[p].loops[s.workers[i].heard.value.loop]);
  }

  /** With the first step's loop on worker i's process, six more steps put its ending on worker i's record. */
  function Finishing(c: Config, i: nat, first: Action): seq<Action>
    requires i < |c.addr|
  {
    [first, LoopBegins(c.addr[i], 0), LoopEnds(c.addr[i], 0, Done), StartPolling, Ask(i), Reply(i), Hear(i, 0)]
  }

  lemma {:induction false} FinishingTo(c: Config, i: nat, first: Action, k: nat)
    requires ValidConfig(c) && i < |c.addr| && 0 < k <= 7
    ensures var acts := Finishing(c, i, first);
            After(c, acts[..k]) == Step(c, After(c, acts[..k - 1]), acts[k - 1])
  {
    var acts := Finishing(c, i, first);
    assert acts[..k][..k - 1] == acts[..k - 1];
  }

  lemma {:induction false} LoopFinishes(c: Config, i: nat, first: Action, l: Loop)
    requires ValidConfig(c) && i < |c.addr| && l.state == Ramp
    requires var s := Step(c, Init(c), first);
             !s.polling && s.procs[c.addr[i]] == Process([l], true)
             && s.workers[i].poll.NoPoll? && !Terminal(s.workers[i].record.state)
    ensures var s := After(c, Finishing(c, i, first)[..4]);
            s.polling && s.procs[c.addr[i]] == Process([l.(state := Done)], true)
            && s.workers[i].poll.NoPoll? && !Terminal(s.workers[i].record.state)
  {
    var acts := Finishing(c, i, first);
    assert acts[..0] == [];
    FinishingTo(c, i, first, 1);
    FinishingTo(c, i, first, 2);
    FinishingTo(c, i, first, 3);
    FinishingTo(c, i, first, 4);
  }

  lemma {:induction false} FinishingIsHeard(c: Config, i: nat, first: Action, l: Loop)
    requires ValidConfig(c) && i < |c.addr| && l.state == Ramp
    requires var s := Step(c, Init(c), first);
             !s.polling && s.procs[c.addr[i]] == Process([l], true)
             && s.workers[i].poll.NoPoll? && !Terminal(s.workers[i].record.state)
    ensures var s := After(c, Finishing(c, i, first));
            && s.procs[c.addr[i]] == Process([l.(state := Done)], true)
            && s.workers[i].record.state == Done && s.workers[i].heard == Some(Reported(Heartbeat(l.run, Done), 0))
  {
    var acts := Finishing(c, i, first);
    LoopFinishes(c, i, first, l);
    FinishingTo(c, i, first, 5);
    FinishingTo(c, i, first, 6);
    FinishingTo(c, i, first, 7);
    assert acts[..7] == acts;
  }

  /**
   Another coordinator's run that ends on a worker's process is recorded as the worker's own
   ending: here every worker is done, none was dropped, and no loop of this run was ever started.
   */
  lemma {:induction false} ForeignEndingCounts() returns (c: Config, acts: seq<Action>)
    ensures ValidConfig(c) && |c.addr| == 1 == c.processes && Filter(c.manifest, c.chunks[0]) != []
    ensures var s := After(c, acts);
            AllTerminal(s) && s.workers[0].record.state == Done
            && forall k :: 0 <= k < |s.procs[0].loops| ==> s.procs[0].loops[k].run != c.run
  {
    c := Config("ours", [0], [["t"]], ["t"], 1, 30);
    var theirs := Order("theirs", ["t"], ["t"], true, true);
    assert Filter(["t"], ["t"]) == ["t"] by {
      assert ["t"][..0] == [];
      assert Filter([], ["t"]) == [];
    }
    var first := Foreign(0, theirs);
    acts := Finishing(c, 0, first);
    FinishingIsHeard(c, 0, first, Loop("theirs", ["t"], Ramp));
  }

  // ----- What "all terminal" means for the tenants -----

  predicate AllTerminal(s: Sys) {
    forall i :: 0 <= i < |s.workers| ==> Terminal(s.workers[i].record.state)
  }

  /** The tenants worker i is to drive. */
  function Share(c: Config, i: nat): seq<string>
    requires i < |c.chunks|
  {
    Filter(c.manifest, c.chunks[i])
  }

  /** A loop of this run drove worker i's tenants at its address, and ended. */
  ghost predicate Driven(c: Config, s: Sys, i: nat)
    requires Fits(c, s) && i < |c.addr|
  {
    exists k :: 0 <= k < |s.procs[c.addr[i]].loops| && Drove(c, s.procs[c.addr[i]].loops[k], i)
  }

  ghost predicate Drove(c: Config, l: Loop, i: nat)
    requires i < |c.chunks|
  {
    l.run == c.run && l.tenants == Share(c, i) && Terminal(l.state)
  }

  /** No other worker with something else to do shares worker i's process. */
  ghost predicate SoleAtAddress(c: Config, i: nat)
    requires ValidConfig(c) && i < |c.addr|
  {
    forall j :: 0 <= j < |c.addr| && c.addr[j] == c.addr[i] && Share(c, j) != [] ==> Share(c, j) == Share(c, i)
  }

  lemma {:induction false} ShareDriven(c: Config, acts: seq<Action>, i: nat)
    requires ValidConfig(c) && i < |c.addr| && SoleAtAddress(c, i)
    requires RecordedEnding(After(c, acts), i) && HeardOurs(c, After(c, acts), i)
    ensures Driven(c, After(c, acts), i)
  {
    var s, p := After(c, acts), c.addr[i];
    RecordedEndingHappened(c, acts, i);
    AlwaysAssigned(c, acts);
    var k := s.workers[i].heard.value.loop;
    var l := s.procs[p].loops[k];
    assert Assigned(c, p, l);
    var j: nat :| SentTo(c, j, p, l);
    assert Share(c, j) != [] && c.addr[j] == c.addr[i];
    assert Drove(c, l, i);
  }

  /** A worker that shares its process with one given other tenants: the other's loop ends, and both are recorded as done. */
  lemma {:induction false} SharedAddressMisses(c: Config, i: nat, j: nat) returns (acts: seq<Action>)
    requires ValidConfig(c) && i < |c.addr| && j < |c.addr| && c.addr[i] == c.addr[j]
    requires Share(c, j) != [] && Share(c, j) != Share(c, i)
    ensures var s := After(c, acts); RecordedEnding(s, i) && HeardOurs(c, s, i) && !Driven(c, s, i)
  {
    var first := Deliver(j, true, true);
    var l := Loop(c.run, Share(c, j), Ramp);
    acts := Finishing(c, i, first);
    FirstDelivery(c, i, j);
    FinishingIsHeard(c, i, first, l);
  }

  lemma {:induction false} FirstDelivery(c: Config, i: nat, j: nat)
    requires ValidConfig(c) && i < |c.addr| && j < |c.addr| && c.addr[i] == c.addr[j] && Share(c, j) != []
    ensures var s := Step(c, Init(c), Deliver(j, true, true));
            !s.polling && s.procs[c.addr[i]] == Process([Loop(c.run, Share(c, j), Ramp)], true)
            && s.workers[i].poll.NoPoll? && s.workers[i].record.state == Unset
  {
  }

  /** If an ending is on record for worker i under this run's id, its tenants were driven. */
  ghost predicate TruthfulRun(c: Config, acts: seq<Action>, i: nat)
    requires ValidConfig(c) && i < |c.addr|
  {
    var s := After(c, acts);
    RecordedEnding(s, i) && HeardOurs(c, s, i) ==> Driven(c, s, i)
  }

  ghost predicate AlwaysTruthful(c: Config, i: nat)
    requires ValidConfig(c) && i < |c.addr|
  {
    forall acts :: TruthfulRun(c, acts, i)
  }

  /**
   Exactly when the records can be trusted about worker i's tenants, over every run: when no
   worker with other tenants to drive shares its process.
   */
  lemma {:induction false} ShareDrivenIff(c: Config, i: nat)
    requires ValidConfig(c) && i < |c.addr|
    ensures SoleAtAddress(c, i) <==> AlwaysTruthful(c, i)
  {
    if SoleAtAddress(c, i) {
      forall acts
        ensures TruthfulRun(c, acts, i)
      {
        if RecordedEnding(After(c, acts), i) && HeardOurs(c, After(c, acts), i) {
          ShareDriven(c, acts, i);
        }
      }
    } else {
      var j :| 0 <= j < |c.addr| && c.addr[j] == c.addr[i] && Share(c, j) != [] && Share(c, j) != Share(c, i);
      var acts := SharedAddressMisses(c, i, j);
      assert !TruthfulRun(c, acts, i);
    }
  }

  /**
   When the last poll finds every worker terminal and none dropped, each ending was reported
   under this run's id, and workers with tenants to drive have processes of their own, then
   every dispatched tenant in the manifest was driven by a loop of this run that ended.
   */
  lemma {:induction false} AllTerminalMeansDriven(c: Config, ids: seq<string>, hash: string -> nat, acts: seq<Action>, t: string)
    returns (p: nat, k: nat)
    requires ValidConfig(c) && |c.chunks| > 0 && Divides(c.chunks, ids, hash)
    requires AllTerminal(After(c, acts))
    requires forall i :: 0 <= i < |c.addr| ==> After(c, acts).workers[i].record.state != Dropped && HeardOurs(c, After(c, acts), i)
    requires forall i :: 0 <= i < |c.addr| && Share(c, i) != [] ==> SoleAtAddress(c, i)
    requires t in ids && t in c.manifest
    ensures p < c.processes && k < |After(c, acts).procs[p].loops|
    ensures var l := After(c, acts).procs[p].loops[k];
            l.run == c.run && t in l.tenants && Terminal(l.state)
  {
    var s, i := After(c, acts), hash(t) % |c.chunks|;
    FilterIsIntersection(c.manifest, c.chunks[i], t);
    assert t in Share(c, i);
    ShareDriven(c, acts, i);
    p := c.addr[i];
    k :| 0 <= k < |s.procs[p].loops| && Drove(c, s.procs[p].loops[k], i);
  }

  // ----- Dropping a worker -----

  /** The time at which this step brings worker i's coordinator good news: an accepted assignment or an answered heartbeat. */
  function Contact(c: Config, s: Sys, a: Action, i: nat): Option<int>
    requires Fits(c, s) && i < |s.workers|
  {
    match a
    case Ack(j, now) => if j == i && s.workers[i].accepted && !s.polling then Some(now) else None
    case Hear(j, now) => if j == i && s.workers[i].poll.Answered? then Some(now) else None
    case _ => None
  }

  /** The latest good contact in the history. */
  function LastContact(c: Config, acts: seq<Action>, i: nat): Option<int>
    requires ValidConfig(c) && i < |c.addr|
  {
    if acts == [] then None
    else
      var before := acts[..|acts| - 1];
      var now := Contact(c, After(c, before), acts[|acts| - 1], i);
      if now.Some? then now else LastContact(c, before, i)
  }

  lemma {:induction false} LastHeartbeatIsLastContact(c: Config, acts: seq<Action>, i: nat)
    requires ValidConfig(c) && i < |c.addr|
    ensures After(c, acts).workers[i].record.lastHeartbeat == LastContact(c, acts, i)
  {
    if acts != [] {
      LastHeartbeatIsLastContact(c, acts[..|acts| - 1], i);
    }
  }

  /** The k-th action is a failed poll of worker i more than the timeout after the last good contact. */
  ghost predicate Silent(c: Config, acts: seq<Action>, i: nat, k: nat)
    requires ValidConfig(c) && i < |c.addr| && k < |acts|
  {
    && acts[k].Miss? && acts[k].worker == i
    && !After(c, acts[..k]).workers[i].poll.NoPoll?
    && LastContact(c, acts[..k], i).Some?
    && acts[k].now - LastContact(c, acts[..k], i).value > c.timeout
  }

  /** One step drops a worker exactly when a failed poll finds too long a silence. */
  lemma {:induction false} StepDrops(c: Config, s: Sys, a: Action, i: nat)
    requires Fits(c, s) && i < |s.workers| && RecordOk(c, s, i)
    ensures var w := s.workers[i];
            Step(c, s, a).workers[i].record.state == Dropped <==>
              w.record.state == Dropped
              || (a.Miss? && a.worker == i && !w.poll.NoPoll?
                  && w.record.lastHeartbeat.Some? && a.now - w.record.lastHeartbeat.value > c.timeout)
  {
  }

  lemma {:induction false} SilentEarlier(c: Config, acts: seq<Action>, i: nat, k: nat)
    requires ValidConfig(c) && i < |c.addr| && k < |acts| - 1
    ensures Silent(c, acts[..|acts| - 1], i, k) == Silent(c, acts, i, k)
  {
    var before := acts[..|acts| - 1];
    assert before[..k] == acts[..k] && before[k] == acts[k];
  }

  ghost predicate EverSilent(c: Config, acts: seq<Action>, i: nat)
    requires ValidConfig(c) && i < |c.addr|
  {
    exists k :: 0 <= k < |acts| && Silent(c, acts, i, k)
  }

  lemma {:induction false} EverSilentNext(c: Config, acts: seq<Action>, i: nat)
    requires ValidConfig(c) && i < |c.addr| && acts != []
    ensures EverSilent(c, acts, i) <==> EverSilent(c, acts[..|acts| - 1], i) || Silent(c, acts, i, |acts| - 1)
  {
    var before := acts[..|acts| - 1];
    forall k | 0 <= k < |before|
      ensures Silent(c, before, i, k) == Silent(c, acts, i, k)
    {
      SilentEarlier(c, acts, i, k);
    }
    if EverSilent(c, before, i) {
      var k :| 0 <= k < |before| && Silent(c, before, i, k);
      assert Silent(c, acts, i, k);
    }
    if EverSilent(c, acts, i) {
      var k :| 0 <= k < |acts| && Silent(c, acts, i, k);
      assert k < |before| ==> Silent(c, before, i, k);
    }
  }

  lemma {:induction false} DropsWhenSilent(c: Config, acts: seq<Action>, i: nat)
    requires ValidConfig(c) && i < |c.addr| && acts != []
    ensures After(c, acts).workers[i].record.state == Dropped <==>
            After(c, acts[..|acts| - 1]).workers[i].record.state == Dropped || Silent(c, acts, i, |acts| - 1)
  {
    var before := acts[..|acts| - 1];
    RecordAlwaysOk(c, before, i);
    StepDrops(c, After(c, before), acts[|acts| - 1], i);
    LastHeartbeatIsLastContact(c, before, i);
  }

  /** A worker is on record as dropped if and only if some poll failed after too long a silence. */
  lemma {:induction false} DroppedExactlyAfterSilence(c: Config, acts: seq<Action>, i: nat)
    requires ValidConfig(c) && i < |c.addr|
    ensures After(c, acts).workers[i].record.state == Dropped <==> exists k :: 0 <= k < |acts| && Silent(c, acts, i, k)
  {
    if acts != [] {
      DroppedExactlyAfterSilence(c, acts[..|acts| - 1], i);
      EverSilentNext(c, acts, i);
      DropsWhenSilent(c, acts, i);
    }
  }
}
