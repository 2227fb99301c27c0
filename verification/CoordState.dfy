/**
 The objects behind the control plane's steps: the tenant partition the coordinator sends
 out, the handler that a worker process runs, and the coordinator's table of workers. Each
 method is one critical section and changes its object exactly as the matching step of the
 protocol does.
 */
module CoordState {

  import StringOrder
  import opened Coord

  datatype Result<+T> = Ok(value: T) | Error(message: string)

  // ----- Partitioning -----

  /** Chunk k holds every occurrence of the ids whose hash is k modulo n, and nothing else. */
  ghost predicate HashSplit(chunks: seq<seq<string>>, ids: seq<string>, n: nat, hash: string -> nat)
    requires n > 0
  {
    |chunks| == n
    && forall k, t :: 0 <= k < n ==> multiset(chunks[k])[t] == if hash(t) % n == k then multiset(ids)[t] else 0
  }

  /** Sorted chunks that divide the ids by hash; a chunk may be empty. */
  method PartitionTenants(ids: seq<string>, n: int, hash: string -> nat) returns (r: Result<seq<seq<string>>>)
    ensures r.Ok? <==> n > 0 && ids != []
    ensures r.Ok? ==> HashSplit(r.value, ids, n, hash) && Divides(r.value, ids, hash)
    ensures r.Ok? ==> forall k :: 0 <= k < n ==> StringOrder.Sorted(r.value[k])
  {
    if n <= 0 {
      return Error("partition: n must be > 0");
    }
    if |ids| == 0 {
      return Error("partition: tenant list is empty");
    }
    var chunks := HashChunks(ids, n, hash);
    for i := 0 to n
      invariant HashSplit(chunks, ids, n, hash)
      invariant forall k :: 0 <= k < i ==> StringOrder.Sorted(chunks[k])
    {
      var sorted := StringOrder.SortedCopy(chunks[i]);
      chunks := chunks[i := sorted];
    }
    SplitDivides(chunks, ids, n, hash);
    return Ok(chunks);
  }

  /** The first loop: every id is appended to its chunk. */
  method HashChunks(ids: seq<string>, n: nat, hash: string -> nat) returns (chunks: seq<seq<string>>)
    requires n > 0
    ensures HashSplit(chunks, ids, n, hash)
  {
    chunks := seq(n, i => []);
    for i := 0 to |ids|
      invariant HashSplit(chunks, ids[..i], n, hash)
    {
      var id := ids[i];
      var k := hash(id) % n;
      assert ids[..i + 1] == ids[..i] + [id];
      chunks := chunks[k := chunks[k] + [id]];
    }
    assert ids[..|ids|] == ids;
  }

  lemma {:induction false} SplitDivides(chunks: seq<seq<string>>, ids: seq<string>, n: nat, hash: string -> nat)
    requires n > 0 && HashSplit(chunks, ids, n, hash)
    ensures Divides(chunks, ids, hash)
  {
  }

  // ----- A worker process's handler -----

  /** How the engine's Run call returned. */
  datatype RunOutcome = Clean | Canceled | Broke

  class RunState {
    const runID: string
    const tenants: seq<string>
    var state: State

    constructor (runID: string, tenants: seq<string>)
      ensures this.runID == runID && this.tenants == tenants && state == Ramp
    {
      this.runID := runID;
      this.tenants := tenants;
      state := Ramp;
    }
  }

  method FilterManifest(manifest: seq<string>, keepIDs: seq<string>) returns (sub: seq<string>)
    ensures sub == Filter(manifest, keepIDs)
  {
    var keep: set<string> := {};
    for i := 0 to |keepIDs|
      invariant keep == set t | t in keepIDs[..i]
    {
      keep := keep + {keepIDs[i]};
    }
    assert keepIDs[..|keepIDs|] == keepIDs;
    sub := [];
    for i := 0 to |manifest|
      invariant sub == Filter(manifest[..i], keepIDs)
    {
      assert manifest[..i + 1][..i] == manifest[..i];
      if manifest[i] in keep {
        sub := sub + [manifest[i]];
      }
    }
    assert manifest[..|manifest|] == manifest;
  }

  /** One handler per process. `started` remembers every run the process ever took on. */
  class WorkerHandler {
    var current: RunState?
    ghost var started: seq<RunState>

    ghost predicate Valid()
      reads this
    {
      && (forall i, j :: 0 <= i < j < |started| ==> started[i] != started[j])
      && (current != null ==> started != [] && current == started[|started| - 1])
    }

    ghost function View(): Process
      reads this, started
    {
      Process(seq(|started|, i requires 0 <= i < |started| reads this, started =>
                    Loop(started[i].runID, started[i].tenants, started[i].state)), current != null)
    }

    constructor ()
      ensures Valid() && View() == Process([], false)
    {
      current := null;
      started := [];
    }

    method Accept(o: Order) returns (accepted: bool)
      requires Valid()
      modifies this
      ensures Valid() && View() == Coord.Accept(old(View()), o)
      ensures accepted == Accepts(old(View()), o)
      ensures accepted ==> o.valid && o.runnerOk && View().loops == old(View().loops) + [Loop(o.run, Filter(o.manifest, o.chunk), Ramp)]
      ensures !accepted ==> View().loops == old(View().loops)
      ensures !o.valid ==> View() == old(View())
    {
      ghost var before := View();
      if current != null {
        assert current == started[|started| - 1];
        if !Terminal(current.state) {
          assert Busy(before);
          return false;
        }
        assert before.loops[|started| - 1].state == current.state;
      }
      assert !Busy(before);
      if !o.valid {
        return false;
      }
      var sub := FilterManifest(o.manifest, o.chunk);
      if |sub| == 0 {
        return false;
      }
      var rs := new RunState(o.run, sub);
      current := rs;
      if !o.runnerOk {
        current := null;
        assert View().loops == before.loops;
        return false;
      }
      started := started + [rs];
      assert View().loops == before.loops + [Loop(o.run, sub, Ramp)];
      return true;
    }

    /** The run loop's first act. */
    method LoopBegins(rs: RunState, ghost k: nat)
      requires Valid() && k < |started| && started[k] == rs && rs.state == Ramp
      modifies rs
      ensures Valid() && View() == Begin(old(View()), k) && rs.state == Running
    {
      ghost var before := View();
      rs.state := Running;
      assert View().loops == before.loops[k := before.loops[k].(state := Running)];
    }

    /** The run loop's end: aborted if the engine was cancelled, failed on any other error. */
    method LoopEnds(rs: RunState, ghost k: nat, outcome: RunOutcome)
      requires Valid() && k < |started| && started[k] == rs && rs.state == Running
      modifies rs
      ensures Valid()
      ensures View() == End(old(View()), k, match outcome case Clean => Done case Canceled => Aborted case Broke => Failed)
      ensures rs.state == match outcome case Clean => Done case Canceled => Aborted case Broke => Failed
    {
      ghost var before := View();
      if outcome == Broke {
        rs.state := Failed;
      } else if outcome == Canceled {
        rs.state := Aborted;
      } else {
        rs.state := Done;
      }
      assert View().loops == before.loops[k := before.loops[k].(state := rs.state)];
    }

    method Heartbeat() returns (hb: Coord.Heartbeat)
      requires Valid()
      ensures hb == Answer(View())
      ensures current == null ==> hb == Coord.Heartbeat("", Idle)
      ensures current != null ==> hb.run == current.runID && hb.state == current.state
    {
      if current == null {
        return Coord.Heartbeat("", Idle);
      }
      return Coord.Heartbeat(current.runID, current.state);
    }
  }

  // ----- The coordinator's table -----

  class WorkerState {
    var state: State
    var lastHeartbeat: Option<int>
    var dropoutLogged: bool

    constructor ()
      ensures state == Unset && lastHeartbeat == None && !dropoutLogged
    {
      state := Unset;
      lastHeartbeat := None;
      dropoutLogged := false;
    }
  }

  class Coordinator {
    /** Seconds without good news after which a failed poll drops a worker. */
    const timeout: int
    var workers: seq<WorkerState>

    ghost predicate Valid()
      reads this, workers
    {
      && (forall i, j :: 0 <= i < j < |workers| ==> workers[i] != workers[j])
      && (forall i :: 0 <= i < |workers| && workers[i].dropoutLogged ==> workers[i].state == Dropped)
    }

    ghost function Records(): seq<Record>
      reads this, workers
    {
      seq(|workers|, i requires 0 <= i < |workers| reads this, workers => Record(workers[i].state, workers[i].lastHeartbeat))
    }

    constructor (n: nat, timeout: int)
      ensures Valid() && Records() == seq(n, i => Record(Unset, None))
      ensures this.timeout == if timeout <= 0 then 30 else timeout
    {
      this.timeout := if timeout <= 0 then 30 else timeout;
      workers := [];
      new;
      for i := 0 to n
        invariant |workers| == i && Valid() && fresh(workers)
        invariant forall k :: 0 <= k < i ==> workers[k].state == Unset && workers[k].lastHeartbeat == None
      {
        var w := new WorkerState();
        workers := workers + [w];
      }
    }

    /** Dispatch's bookkeeping for one accepted assignment; dispatching is over before polling starts. */
    method RecordAcceptance(i: nat, now: int)
      requires Valid() && i < |workers| && !Terminal(workers[i].state)
      modifies workers[i]
      ensures Valid() && Records() == old(Records())[i := Record(Running, Some(now))]
    {
      ghost var before := Records();
      workers[i].state := Running;
      workers[i].lastHeartbeat := Some(now);
      assert Records() == before[i := Acknowledged(now)];
    }

    /** A heartbeat came back, or failed: only a failure can drop a worker, and the drop is logged once. */
    method FinishHeartbeat(i: nat, reply: Option<Coord.Heartbeat>, now: int) returns (logged: bool)
      requires Valid() && i < |workers| && !Terminal(workers[i].state)
      modifies workers[i]
      ensures Valid() && workers == old(workers)
      ensures Records() == old(Records())[i := match reply
                                               case Some(hb) => Heard(hb.state, now)
                                               case None => Missed(old(Records())[i], now, timeout)]
      ensures logged == (Records()[i].state == Dropped && reply.None?)
    {
      ghost var before := Records();
      var w := workers[i];
      logged := false;
      match reply {
        case None =>
          if w.lastHeartbeat.Some? && now - w.lastHeartbeat.value > timeout {
            if !w.dropoutLogged {
              logged := true;
              w.dropoutLogged := true;
            }
            w.state := Dropped;
          }
          assert Records() == before[i := Missed(before[i], now, timeout)];
        case Some(hb) =>
          w.lastHeartbeat := Some(now);
          w.state := hb.state;
          assert Records() == before[i := Heard(hb.state, now)];
      }
    }

    /**
     One worker's part of a poll round, given how the request would end: a worker on record as
     terminal is not asked and nothing changes; any other is asked once, and its record becomes
     what the answer or the silence makes of it.
     */
    method HeartbeatOne(i: nat, reply: Option<Coord.Heartbeat>, now: int) returns (asked: bool, logged: bool)
      requires Valid() && i < |workers|
      modifies workers[i]
      ensures Valid() && workers == old(workers)
      ensures Terminal(old(Records())[i].state) ==> !asked && !logged && Records() == old(Records())
      ensures !Terminal(old(Records())[i].state) ==> asked && forall k :: 0 <= k < |workers| && k != i ==> Records()[k] == old(Records())[k]
      ensures asked && reply.Some? ==> Records()[i] == Record(reply.value.state, Some(now)) && !logged
      ensures asked && reply.None? ==>
                var was := old(Records())[i];
                && Records()[i].lastHeartbeat == was.lastHeartbeat
                && logged == (was.lastHeartbeat.Some? && now - was.lastHeartbeat.value > timeout)
                && Records()[i].state == if logged then Dropped else was.state
    {
      if Terminal(workers[i].state) {
        return false, false;
      }
      asked := true;
      logged := FinishHeartbeat(i, reply, now);
    }

    method AllWorkersTerminal() returns (all: bool)
      requires Valid()
      ensures all <==> forall i :: 0 <= i < |workers| ==> Records()[i].state in {Done, Aborted, Failed, Dropped}
    {
      for i := 0 to |workers|
        invariant forall k :: 0 <= k < i ==> Terminal(Records()[k].state)
      {
        if !Terminal(workers[i].state) {
          assert !Terminal(Records()[i].state);
          return false;
        }
      }
      return true;
    }
  }
}
