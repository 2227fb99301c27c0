/**
 The REST batch driver: per-tenant buffers handed off to exactly one of the filling
 caller, the timer callback or Close, and the delivery of one result per waiting event.

 Every critical section is one atomic step; a run is any sequence of steps. A buffer
 pointer is an index into `bufs`, so a timer callback holding a stale pointer is a
 Timer step with an old index. An item's one-slot channel is `slots[id]`, which records
 everything ever sent on it. Whoever takes a buffer sends it on its own, with its own
 response and its own place in the delivery loop, so two takers of one buffer would send it
 twice. The last three fields of the state are bookkeeping the program does not have: who
 took each buffer, each tenant's hand-offs in order, and which buffer and position an item
 went to.
 */
module RestBatch {

  const MAX_SIZE: nat := 1000
  const EXCERPT_MAX: nat := 2048

  datatype Option<+T> = None | Some(value: T)

  datatype Event = Event(tenant: string, negative: bool, rawBody: bool, payload: int)

  datatype Result = Result(event: Event, status: int, transportErr: string, excerpt: string)

  datatype BatchError = BatchError(index: int, message: string)

  /** How one POST ended; parsed is the error list when the body could be read. */
  datatype Response =
    | NotSent(err: string)
    | Reply(status: int, body: string, parsed: Option<seq<BatchError>>)

  /** Where Submit sends an event: alone through the direct driver, refused, or queued (and perhaps this caller must send). */
  datatype Route = Alone | Refused | Queued(mine: Option<nat>)

  datatype Taker = Caller(item: nat) | TimerCallback | Closer

  /** One taker's send: what its POST came back with, and how many results it has delivered. */
  datatype Sender = Sender(taker: Taker, response: Option<Response>, delivered: nat)

  datatype Buf = Buf(tenant: string, items: seq<nat>)

  datatype State = State(
    events: seq<Event>, bufs: seq<Buf>, pending: map<string, nat>, closed: bool, slots: seq<seq<Result>>,
    takers: seq<seq<Sender>>, taken: map<string, seq<nat>>, place: seq<(nat, nat)>)

  datatype Action =
    | Submit(e: Event)
    | Timer(tenant: string, buf: nat)
    | Close
    | Respond(buf: nat, sender: nat, response: Response)
    | Deliver(buf: nat, sender: nat)

  const INIT := State([], [], map[], false, [], [], map[], [])

  /** Size handling of the constructor. */
  function ConfiguredSize(size: int): (r: Option<nat>)
    ensures r.Some? <==> size <= MAX_SIZE
    ensures r.Some? ==> 1 <= r.value <= MAX_SIZE && (size > 0 ==> r.value == size) && (size <= 0 ==> r.value == 100)
  {
    if size <= 0 then Some(100) else if size > MAX_SIZE then None else Some(size)
  }

  // ----- One item's outcome -----

  function Excerpt(b: string): string {
    if |b| > EXCERPT_MAX then b[..EXCERPT_MAX] + "…" else b
  }

  function LastMessage(errors: seq<BatchError>, i: int): Option<string> {
    if errors == [] then None
    else if errors[|errors| - 1].index == i then Some(errors[|errors| - 1].message)
    else LastMessage(errors[..|errors| - 1], i)
  }

  function Outcome(e: Event, i: nat, r: Response): Result {
    match r
    case NotSent(err) => Result(e, 0, err, "")
    case Reply(status, body, parsed) =>
      if status < 200 || status >= 300 then Result(e, status, "", Excerpt(body))
      else
        var message := if parsed.Some? then LastMessage(parsed.value, i) else None;
        if message.Some? then Result(e, 422, "", Excerpt("batch error: " + message.value))
        else Result(e, status, "", "")
  }

  /** The k-th entry is the last one for the index. */
  ghost predicate LastFor(errors: seq<BatchError>, i: int, k: nat) {
    k < |errors| && errors[k].index == i && forall m :: k < m < |errors| ==> errors[m].index != i
  }

  lemma {:induction false} LastMessageFound(errors: seq<BatchError>, i: int)
    ensures LastMessage(errors, i).Some? <==> exists be :: be in errors && be.index == i
  {
    if errors != [] {
      var pre, last := errors[..|errors| - 1], errors[|errors| - 1];
      LastMessageFound(pre, i);
      assert forall be :: be in errors <==> be in pre || be == last;
    }
  }

  /** The message for an index is that of the last entry for it. */
  lemma {:induction false} LastMessageIsLast(errors: seq<BatchError>, i: int, k: nat)
    requires LastFor(errors, i, k)
    ensures LastMessage(errors, i) == Some(errors[k].message)
  {
    if k < |errors| - 1 {
      LastMessageIsLast(errors[..|errors| - 1], i, k);
    }
  }

  /** At most 2048 characters of a text are shown; a longer one is cut there and marked. */
  ghost predicate Shows(excerpt: string, text: string) {
    if |text| <= 2048 then excerpt == text else excerpt == text[..2048] + "…"
  }

  /** The response is a parsed 2xx reply that lists index i as failed. */
  ghost predicate ListsFailed(r: Response, i: int) {
    r.Reply? && 200 <= r.status < 300 && r.parsed.Some? && exists be :: be in r.parsed.value && be.index == i
  }

  /**
   The result carries the item's own event, and status 422 replaces the reply's own status
   exactly when the reply is a parsed 2xx that lists the item's own index as failed; a batch
   that was not sent gives status 0 and the error.
   */
  lemma {:induction false} OutcomeStatus(e: Event, i: nat, r: Response)
    ensures Outcome(e, i, r).event == e
    ensures r.Reply? ==> Outcome(e, i, r).status == if ListsFailed(r, i) then 422 else r.status
    ensures r.NotSent? ==> Outcome(e, i, r) == Result(e, 0, r.err, "")
    ensures r.Reply? ==> Outcome(e, i, r).transportErr == ""
    ensures r.Reply? && 200 <= r.status < 300 ==> (Outcome(e, i, r).excerpt == "" <==> !ListsFailed(r, i))
  {
    if r.Reply? && r.parsed.Some? {
      LastMessageFound(r.parsed.value, i);
    }
  }

  /** What the result quotes: the body of a reply outside 2xx, or the last message listed for the item's own index. */
  lemma {:induction false} OutcomeExcerpt(e: Event, i: nat, r: Response, k: nat)
    requires r.Reply?
    ensures !(200 <= r.status < 300) ==> Shows(Outcome(e, i, r).excerpt, r.body)
    ensures 200 <= r.status < 300 && r.parsed.Some? && LastFor(r.parsed.value, i, k) ==>
              Shows(Outcome(e, i, r).excerpt, "batch error: " + r.parsed.value[k].message)
  {
    if r.parsed.Some? && LastFor(r.parsed.value, i, k) {
      LastMessageIsLast(r.parsed.value, i, k);
    }
  }

  // ----- Steps -----

  function LogOf(taken: map<string, seq<nat>>, t: string): seq<nat> {
    if t in taken then taken[t] else []
  }

  /** A tenant's handed-off buffers, in hand-off order. */
  function Taken(s: State, t: string): seq<nat> {
    LogOf(s.taken, t)
  }

  predicate Batched(e: Event) {
    !e.negative && !e.rawBody
  }

  predicate PendingInRange(s: State) {
    |s.takers| == |s.bufs| && forall t :: t in s.pending ==> s.pending[t] < |s.bufs|
  }

  predicate IsPending(s: State, b: nat)
    requires b < |s.bufs|
  {
    s.bufs[b].tenant in s.pending && s.pending[s.bufs[b].tenant] == b
  }

  /** The buffer that an accepted event goes to: its tenant's pending one, or a new one. */
  function Target(s: State, t: string): nat {
    if t in s.pending then s.pending[t] else |s.bufs|
  }

  function Pushed(s: State, t: string, id: nat): (bufs: seq<Buf>)
    requires PendingInRange(s)
    ensures Target(s, t) < |bufs| && bufs[Target(s, t)].items != []
  {
    if t in s.pending then
      var b := s.pending[t];
      s.bufs[b := s.bufs[b].(items := s.bufs[b].items + [id])]
    else s.bufs + [Buf(t, [id])]
  }

  /** The caller who fills the buffer takes it; everyone else leaves it pending. */
  function SubmitStep(size: nat, s: State, e: Event): State
    requires PendingInRange(s)
  {
    if !Batched(e) || s.closed then s
    else
      var t, id, b := e.tenant, |s.events|, Target(s, e.tenant);
      var bufs := Pushed(s, t, id);
      var full := |bufs[b].items| >= size;
      var takers := if t in s.pending then s.takers else s.takers + [[]];
      State(s.events + [e],
            bufs,
            if full then s.pending - {t} else s.pending[t := b],
            s.closed,
            s.slots + [[]],
            if full then takers[b := takers[b] + [Sender(Caller(id), None, 0)]] else takers,
            if full then s.taken[t := Taken(s, t) + [b]] else s.taken,
            s.place + [(b, |bufs[b].items| - 1)])
  }

  /** No-op unless the pending buffer is still the one the timer was armed for. */
  function TimerStep(s: State, t: string, b: nat): State {
    if t in s.pending && s.pending[t] == b && b < |s.takers| then
      s.(pending := s.pending - {t},
         takers := s.takers[b := s.takers[b] + [Sender(TimerCallback, None, 0)]],
         taken := s.taken[t := Taken(s, t) + [b]])
    else s
  }

  function CloseStep(s: State): State
    requires PendingInRange(s)
  {
    s.(closed := true,
       pending := map[],
       takers := seq(|s.bufs|, b requires 0 <= b < |s.bufs| =>
         if IsPending(s, b) then s.takers[b] + [Sender(Closer, None, 0)] else s.takers[b]),
       taken := s.taken + map t | t in s.pending :: Taken(s, t) + [s.pending[t]])
  }

  predicate IsSender(s: State, b: nat, j: nat) {
    b < |s.bufs| == |s.takers| && j < |s.takers[b]|
  }

  /** Each taker posts once: sending is the one thing it was started for. */
  predicate CanRespond(s: State, b: nat, j: nat) {
    IsSender(s, b, j) && s.takers[b][j].response.None?
  }

  predicate CanDeliver(s: State, b: nat, j: nat) {
    && IsSender(s, b, j) && s.takers[b][j].response.Some? && s.takers[b][j].delivered < |s.bufs[b].items|
    && s.bufs[b].items[s.takers[b][j].delivered] < |s.events|
    && |s.slots| == |s.events|
  }

  function WithSender(s: State, b: nat, j: nat, x: Sender): seq<seq<Sender>>
    requires IsSender(s, b, j)
  {
    s.takers[b := s.takers[b][j := x]]
  }

  function RespondStep(s: State, b: nat, j: nat, r: Response): State {
    if CanRespond(s, b, j) then s.(takers := WithSender(s, b, j, s.takers[b][j].(response := Some(r)))) else s
  }

  /** One taker's next result, onto the channel of the item it has reached. */
  function DeliverStep(s: State, b: nat, j: nat): State {
    if CanDeliver(s, b, j) then
      var x := s.takers[b][j];
      var id := s.bufs[b].items[x.delivered];
      s.(takers := WithSender(s, b, j, x.(delivered := x.delivered + 1)),
         slots := s.slots[id := s.slots[id] + [Outcome(s.events[id], x.delivered, x.response.value)]])
    else s
  }

  function Step(size: nat, s: State, a: Action): (r: State)
    requires PendingInRange(s)
    ensures PendingInRange(r)
  {
    match a
    case Submit(e) => SubmitStep(size, s, e)
    case Timer(t, b) => TimerStep(s, t, b)
    case Close => CloseStep(s)
    case Respond(b, j, r) => RespondStep(s, b, j, r)
    case Deliver(b, j) => DeliverStep(s, b, j)
  }

  function After(size: nat, run: seq<Action>): (s: State)
    ensures PendingInRange(s)
  {
    if run == [] then INIT else Step(size, After(size, run[..|run| - 1]), run[|run| - 1])
  }

  // ----- What every reachable state satisfies -----

  /** A buffer is owned by the pending map or by exactly one taker, never both. */
  ghost predicate Owned(size: nat, s: State) {
    && |s.slots| == |s.events| == |s.place| && PendingInRange(s)
    && (forall t :: t in s.pending ==> s.bufs[s.pending[t]].tenant == t && s.takers[s.pending[t]] == [])
    && (forall b :: 0 <= b < |s.bufs| ==> BufOk(size, s, b))
    && (s.closed ==> s.pending == map[])
  }

  ghost predicate BufOk(size: nat, s: State, b: nat)
    requires b < |s.bufs| == |s.takers|
  {
    ItemsOk(size, s.events, s.bufs[b]) && TakersOk(size, s, b)
  }

  ghost predicate ItemsOk(size: nat, events: seq<Event>, buf: Buf) {
    && 1 <= |buf.items| <= size
    && forall k :: 0 <= k < |buf.items| ==>
         buf.items[k] < |events| && events[buf.items[k]].tenant == buf.tenant && Batched(events[buf.items[k]])
  }

  ghost predicate TakersOk(size: nat, s: State, b: nat)
    requires b < |s.bufs| == |s.takers|
  {
    && |s.takers[b]| <= 1
    && (s.takers[b] == [] ==> IsPending(s, b) && |s.bufs[b].items| < size)
    && forall j :: 0 <= j < |s.takers[b]| ==> ProgressOk(s.takers[b][j], |s.bufs[b].items|)
  }

  predicate ProgressOk(x: Sender, n: nat) {
    (x.response.None? ==> x.delivered == 0) && x.delivered <= n
  }

  /** Items and places correspond one to one, and a slot holds its result exactly once delivered. */
  ghost predicate Placed(s: State) {
    && |s.slots| == |s.events| == |s.place| && |s.takers| == |s.bufs|
    && ItemsPlaced(s)
    && (forall id :: 0 <= id < |s.place| ==> SlotOk(s, id))
  }

  /** What the takers of a buffer have put on the channel of its k-th item, one after another. */
  function Sent(e: Event, k: nat, takers: seq<Sender>): seq<Result> {
    if takers == [] then []
    else
      var x := takers[|takers| - 1];
      Sent(e, k, takers[..|takers| - 1]) + if k < x.delivered && x.response.Some? then [Outcome(e, k, x.response.value)] else []
  }

  ghost predicate SlotOk(s: State, id: nat)
    requires id < |s.place| == |s.slots| == |s.events| && |s.takers| == |s.bufs|
  {
    var (b, k) := s.place[id];
    && b < |s.bufs| && k < |s.bufs[b].items| && s.bufs[b].items[k] == id
    && s.slots[id] == Sent(s.events[id], k, s.takers[b])
  }

  lemma {:induction false} OtherBufOk(size: nat, s: State, r: State, b: nat)
    requires b < |s.bufs| == |s.takers| && |r.bufs| == |r.takers| >= |s.bufs| && BufOk(size, s, b)
    requires r.bufs[b] == s.bufs[b] && r.takers[b] == s.takers[b]
    requires |s.events| <= |r.events| && r.events[..|s.events|] == s.events
    requires IsPending(s, b) ==> IsPending(r, b)
    ensures BufOk(size, r, b)
  {
    forall k | 0 <= k < |s.bufs[b].items|
      ensures r.events[s.bufs[b].items[k]] == s.events[s.bufs[b].items[k]]
    {
    }
  }

  lemma {:induction false} TargetOk(size: nat, s: State, e: Event)
    requires size > 0 && Owned(size, s) && Batched(e) && !s.closed
    ensures var r, b := SubmitStep(size, s, e), Target(s, e.tenant); b < |r.bufs| == |r.takers| && BufOk(size, r, b)
  {
    var r, b := SubmitStep(size, s, e), Target(s, e.tenant);
    if e.tenant in s.pending {
      assert BufOk(size, s, b);
    }
    assert ItemsOk(size, r.events, r.bufs[b]);
  }

  lemma {:induction false} SubmitKeepsOwned(size: nat, s: State, e: Event)
    requires size > 0 && Owned(size, s)
    ensures Owned(size, SubmitStep(size, s, e))
  {
    if Batched(e) && !s.closed {
      var r, t := SubmitStep(size, s, e), Target(s, e.tenant);
      TargetOk(size, s, e);
      forall b | 0 <= b < |r.bufs| && b != t
        ensures BufOk(size, r, b)
      {
        assert BufOk(size, s, b);
        OtherBufOk(size, s, r, b);
      }
    }
  }

  lemma {:induction false} HandOffKeepsOwned(size: nat, s: State, a: Action)
    requires size > 0 && Owned(size, s) && (a.Timer? || a.Close?)
    ensures Owned(size, Step(size, s, a))
  {
    var r := Step(size, s, a);
    forall b | 0 <= b < |r.bufs| ensures BufOk(size, r, b) {
      assert BufOk(size, s, b);
    }
  }

  lemma {:induction false} SendKeepsOwned(size: nat, s: State, a: Action)
    requires size > 0 && Owned(size, s) && (a.Respond? || a.Deliver?)
    ensures Owned(size, Step(size, s, a))
  {
    var r := Step(size, s, a);
    forall b | 0 <= b < |r.bufs| ensures BufOk(size, r, b) {
      assert BufOk(size, s, b);
    }
  }

  /** Every item's place is its buffer and position. */
  ghost predicate ItemsPlaced(s: State) {
    forall b, k :: 0 <= b < |s.bufs| && 0 <= k < |s.bufs[b].items| ==>
      s.bufs[b].items[k] < |s.place| && s.place[s.bufs[b].items[k]] == (b, k)
  }

  lemma {:induction false} SubmitPlacesItem(size: nat, s: State, e: Event)
    requires size > 0 && Owned(size, s) && Batched(e) && !s.closed
    ensures var r, t, id := SubmitStep(size, s, e), Target(s, e.tenant), |s.events|;
            && t < |r.bufs| == |r.takers| && |s.bufs| <= |r.bufs|
            && r.bufs[t].items == Waiting(s, e.tenant) + [id] && r.place == s.place + [(t, |Waiting(s, e.tenant)|)]
            && r.events == s.events + [e] && r.slots == s.slots + [[]]
            && (t == |s.bufs| || (t < |s.bufs| && s.bufs[t].items == Waiting(s, e.tenant) && s.takers[t] == []))
            && (forall b :: 0 <= b < |r.bufs| && b != t ==> b < |s.bufs| && r.bufs[b] == s.bufs[b] && r.takers[b] == s.takers[b])
            && (r.takers[t] == [] || r.takers[t] == [Sender(Caller(id), None, 0)])
  {
  }

  lemma {:induction false} SubmitKeepsItemsPlaced(size: nat, s: State, e: Event)
    requires size > 0 && Owned(size, s) && ItemsPlaced(s) && Batched(e) && !s.closed
    ensures ItemsPlaced(SubmitStep(size, s, e))
  {
    var r, t := SubmitStep(size, s, e), Target(s, e.tenant);
    SubmitPlacesItem(size, s, e);
    forall b, k | 0 <= b < |r.bufs| && 0 <= k < |r.bufs[b].items|
      ensures r.bufs[b].items[k] < |r.place| && r.place[r.bufs[b].items[k]] == (b, k)
    {
      if b < |s.bufs| && k < |s.bufs[b].items| {
        assert s.place[s.bufs[b].items[k]] == (b, k);
      }
    }
  }

  lemma {:induction false} SubmitKeepsSlot(size: nat, s: State, e: Event, id: nat)
    requires size > 0 && Owned(size, s) && Placed(s) && Batched(e) && !s.closed && id <= |s.place|
    ensures var r := SubmitStep(size, s, e); id < |r.place| == |r.slots| == |r.events| && |r.takers| == |r.bufs| && SlotOk(r, id)
  {
    var r := SubmitStep(size, s, e);
    SubmitPlacesItem(size, s, e);
    if id < |s.place| {
      assert SlotOk(s, id) && r.place[id] == s.place[id];
      var (b, k) := s.place[id];
      assert r.bufs[b].items[k] == s.bufs[b].items[k];
      SentNothing(s.events[id], k, [], Sender(Caller(|s.events|), None, 0));
    } else {
      SentNothing(e, r.place[id].1, [], Sender(Caller(|s.events|), None, 0));
    }
  }

  lemma {:induction false} SubmitKeepsPlaced(size: nat, s: State, e: Event)
    requires size > 0 && Owned(size, s) && Placed(s)
    ensures Placed(SubmitStep(size, s, e))
  {
    if Batched(e) && !s.closed {
      SubmitKeepsItemsPlaced(size, s, e);
      SubmitPlacesItem(size, s, e);
      forall id | 0 <= id <= |s.place|
        ensures SlotOk(SubmitStep(size, s, e), id)
      {
        SubmitKeepsSlot(size, s, e, id);
      }
    }
  }

  lemma {:induction false} SentNothing(e: Event, k: nat, takers: seq<Sender>, x: Sender)
    requires x.response.None?
    ensures Sent(e, k, takers + [x]) == Sent(e, k, takers)
  {
    assert (takers + [x])[..|takers|] == takers;
  }

  lemma {:induction false} SentByOne(e: Event, k: nat, x: Sender)
    ensures Sent(e, k, [x]) == if k < x.delivered && x.response.Some? then [Outcome(e, k, x.response.value)] else []
  {
    assert [x][..0] == [];
  }

  lemma {:induction false} HandOffKeepsPlaced(size: nat, s: State, a: Action)
    requires size > 0 && Owned(size, s) && Placed(s) && (a.Timer? || a.Close?)
    ensures Placed(Step(size, s, a))
  {
    var r := Step(size, s, a);
    forall id | 0 <= id < |r.place|
      ensures SlotOk(r, id)
    {
      assert SlotOk(s, id);
      var (b, k) := s.place[id];
      if r.takers[b] != s.takers[b] {
        var x := r.takers[b][|s.takers[b]|];
        assert r.takers[b] == s.takers[b] + [x];
        SentNothing(s.events[id], k, s.takers[b], x);
      }
    }
  }

  lemma {:induction false} RespondKeepsPlaced(size: nat, s: State, b: nat, j: nat, resp: Response)
    requires size > 0 && Owned(size, s) && Placed(s)
    ensures Placed(RespondStep(s, b, j, resp))
  {
    var r := RespondStep(s, b, j, resp);
    if CanRespond(s, b, j) {
      forall id | 0 <= id < |r.place|
        ensures SlotOk(r, id)
      {
        assert SlotOk(s, id);
        var (c, k) := s.place[id];
        if c == b {
          OneSender(size, s, b, j);
          SentByOne(s.events[id], k, s.takers[b][0]);
          SentByOne(s.events[id], k, r.takers[b][0]);
        }
      }
    }
  }

  /** Ownership leaves a buffer with at most one sender, so any sender is the only one. */
  lemma {:induction false} OneSender(size: nat, s: State, b: nat, j: nat)
    requires Owned(size, s) && IsSender(s, b, j)
    ensures j == 0 && s.takers[b] == [s.takers[b][0]] && ProgressOk(s.takers[b][0], |s.bufs[b].items|)
  {
    assert BufOk(size, s, b);
  }

  /** The item whose turn it is gets its result; no other channel changes. */
  lemma {:induction false} DeliverTurn(s: State, b: nat, id: nat)
    requires Placed(s) && CanDeliver(s, b, 0) && |s.takers[b]| == 1 && id < |s.place|
    ensures var r, x := DeliverStep(s, b, 0), s.takers[b][0];
            && |r.slots| == |s.slots| && r.takers == s.takers[b := [x.(delivered := x.delivered + 1)]]
            && r.slots[id] == s.slots[id] + if s.place[id] == (b, x.delivered)
                                            then [Outcome(s.events[id], x.delivered, x.response.value)] else []
  {
    var x := s.takers[b][0];
    var done := s.bufs[b].items[x.delivered];
    assert s.place[done] == (b, x.delivered) && SlotOk(s, id);
    assert s.takers[b][0 := x.(delivered := x.delivered + 1)] == [x.(delivered := x.delivered + 1)];
    assert s.slots[id] + [] == s.slots[id];
  }

  lemma {:induction false} DeliverSlot(s: State, b: nat, id: nat)
    requires Placed(s) && CanDeliver(s, b, 0) && |s.takers[b]| == 1 && id < |s.place|
    ensures |s.place| == |s.events| && SlotOk(DeliverStep(s, b, 0), id)
  {
    var x := s.takers[b][0];
    DeliverTurn(s, b, id);
    assert SlotOk(s, id);
    var (c, k) := s.place[id];
    if c == b {
      assert s.takers[b] == [x];
      SentByOne(s.events[id], k, x);
      SentByOne(s.events[id], k, x.(delivered := x.delivered + 1));
    }
  }

  lemma {:induction false} DeliverKeepsPlaced(size: nat, s: State, b: nat, j: nat)
    requires size > 0 && Owned(size, s) && Placed(s)
    ensures Placed(DeliverStep(s, b, j))
  {
    if CanDeliver(s, b, j) {
      OneSender(size, s, b, j);
      forall id | 0 <= id < |s.place|
        ensures SlotOk(DeliverStep(s, b, 0), id)
      {
        DeliverSlot(s, b, id);
      }
    }
  }

  /** Two senders of one buffer would put two results on a channel: only ownership rules that out. */
  lemma {:induction false} SecondSenderRepeats(s: State, b: nat, i: nat, j: nat)
    requires i != j && CanDeliver(s, b, i) && CanDeliver(s, b, j) && s.takers[b][i].delivered == s.takers[b][j].delivered
    ensures var id := s.bufs[b].items[s.takers[b][i].delivered];
            |DeliverStep(DeliverStep(s, b, i), b, j).slots[id]| == |s.slots[id]| + 2
  {
  }

  lemma {:induction false} RunSafe(size: nat, run: seq<Action>)
    requires size > 0
    ensures Owned(size, After(size, run)) && Placed(After(size, run))
  {
    if run != [] {
      var pre, a := run[..|run| - 1], run[|run| - 1];
      RunSafe(size, pre);
      var s := After(size, pre);
      match a {
        case Submit(e) => SubmitKeepsOwned(size, s, e); SubmitKeepsPlaced(size, s, e);
        case Timer(_, _) => HandOffKeepsOwned(size, s, a); HandOffKeepsPlaced(size, s, a);
        case Close => HandOffKeepsOwned(size, s, a); HandOffKeepsPlaced(size, s, a);
        case Respond(b, j, r) => SendKeepsOwned(size, s, a); RespondKeepsPlaced(size, s, b, j, r);
        case Deliver(b, j) => SendKeepsOwned(size, s, a); DeliverKeepsPlaced(size, s, b, j);
      }
    }
  }

  // ----- No event lost, duplicated or reordered -----

  function IdsOf(events: seq<Event>, t: string): seq<nat> {
    if events == [] then []
    else IdsOf(events[..|events| - 1], t) + if events[|events| - 1].tenant == t then [|events| - 1] else []
  }

  predicate InRange(bs: seq<nat>, n: nat) {
    forall i :: 0 <= i < |bs| ==> bs[i] < n
  }

  /** The batches in bs, concatenated. */
  function Concat(bufs: seq<Buf>, bs: seq<nat>): seq<nat>
    requires InRange(bs, |bufs|)
  {
    if bs == [] then [] else Concat(bufs, bs[..|bs| - 1]) + bufs[bs[|bs| - 1]].items
  }

  function Waiting(s: State, t: string): seq<nat>
    requires PendingInRange(s)
  {
    if t in s.pending then s.bufs[s.pending[t]].items else []
  }

  /** The hand-off log of a tenant lists handed-off buffers of that tenant, each once. */
  ghost predicate LogOk(s: State, t: string)
    requires PendingInRange(s)
  {
    var log := Taken(s, t);
    && InRange(log, |s.bufs|)
    && (forall i :: 0 <= i < |log| ==> s.bufs[log[i]].tenant == t && s.takers[log[i]] != [])
    && (forall i, j :: 0 <= i < j < |log| ==> log[i] != log[j])
  }

  ghost predicate Accounted(s: State, t: string)
    requires PendingInRange(s)
  {
    LogOk(s, t) && IdsOf(s.events, t) == Concat(s.bufs, Taken(s, t)) + Waiting(s, t)
  }

  lemma {:induction false} ConcatSame(bufs: seq<Buf>, bufs': seq<Buf>, bs: seq<nat>)
    requires InRange(bs, |bufs|) && InRange(bs, |bufs'|)
    requires forall i :: 0 <= i < |bs| ==> bufs[bs[i]].items == bufs'[bs[i]].items
    ensures Concat(bufs, bs) == Concat(bufs', bs)
  {
    if bs != [] {
      ConcatSame(bufs, bufs', bs[..|bs| - 1]);
    }
  }

  lemma {:induction false} ConcatSnoc(bufs: seq<Buf>, bs: seq<nat>, b: nat)
    requires b < |bufs| && InRange(bs, |bufs|)
    ensures InRange(bs + [b], |bufs|) && Concat(bufs, bs + [b]) == Concat(bufs, bs) + bufs[b].items
  {
    assert (bs + [b])[..|bs|] == bs;
  }

  /** A step that touches neither the tenant's handed-off batches nor its pending buffer. */
  lemma {:induction false} AccountFramed(s: State, r: State, t: string)
    requires PendingInRange(s) && PendingInRange(r) && Accounted(s, t) && |s.bufs| <= |r.bufs|
    requires IdsOf(r.events, t) == IdsOf(s.events, t) && Taken(r, t) == Taken(s, t) && Waiting(r, t) == Waiting(s, t)
    requires forall b :: 0 <= b < |s.bufs| && s.bufs[b].tenant == t ==> r.bufs[b] == s.bufs[b]
    requires forall b :: 0 <= b < |s.bufs| && s.bufs[b].tenant == t && s.takers[b] != [] ==> r.takers[b] != []
    ensures Accounted(r, t)
  {
    ConcatSame(s.bufs, r.bufs, Taken(s, t));
  }

  lemma {:induction false} NoNewId(events: seq<Event>, e: Event, t: string)
    requires e.tenant != t
    ensures IdsOf(events + [e], t) == IdsOf(events, t)
  {
    assert (events + [e])[..|events|] == events;
  }

  /** Another tenant's submission leaves this one's log, pending buffer and batches alone. */
  lemma {:induction false} SubmitLeaves(size: nat, s: State, e: Event, t: string)
    requires size > 0 && Owned(size, s) && Batched(e) && !s.closed && e.tenant != t
    ensures var r := SubmitStep(size, s, e);
            && |s.bufs| <= |r.bufs| && IdsOf(r.events, t) == IdsOf(s.events, t)
            && Taken(r, t) == Taken(s, t) && Waiting(r, t) == Waiting(s, t)
  {
    NoNewId(s.events, e, t);
    SubmitPlacesItem(size, s, e);
    assert t in s.pending ==> s.pending[t] != Target(s, e.tenant);
  }

  lemma {:induction false} SubmitLeavesBatches(size: nat, s: State, e: Event, t: string, b: nat)
    requires size > 0 && Owned(size, s) && Batched(e) && !s.closed && e.tenant != t && b < |s.bufs| && s.bufs[b].tenant == t
    ensures var r := SubmitStep(size, s, e);
            b < |r.bufs| == |r.takers| && r.bufs[b] == s.bufs[b] && r.takers[b] == s.takers[b]
  {
    SubmitPlacesItem(size, s, e);
  }

  lemma {:induction false} SubmitKeepsOtherAccount(size: nat, s: State, e: Event, t: string)
    requires size > 0 && Owned(size, s) && Accounted(s, t) && Batched(e) && !s.closed && e.tenant != t
    ensures Accounted(SubmitStep(size, s, e), t)
  {
    var r := Step(size, s, Submit(e));
    SubmitLeaves(size, s, e, t);
    forall b | 0 <= b < |s.bufs| && s.bufs[b].tenant == t
      ensures b < |r.bufs| == |r.takers| && r.bufs[b] == s.bufs[b] && r.takers[b] == s.takers[b]
    {
      SubmitLeavesBatches(size, s, e, t, b);
    }
    AccountFramed(s, r, t);
  }

  /** Appending an event to the tenant's pending (or a new) buffer b leaves the batches handed off before it alone. */
  lemma {:induction false} AppendKeepsLog(s: State, r: State, t: string, b: nat)
    requires PendingInRange(s) && Accounted(s, t)
    requires |r.events| == |s.events| + 1 && r.events[..|s.events|] == s.events && r.events[|s.events|].tenant == t
    requires |s.bufs| <= |r.bufs|
    requires b < |s.bufs| ==> s.takers[b] == []
    requires forall c :: 0 <= c < |s.bufs| && c != b ==> r.bufs[c] == s.bufs[c]
    ensures var log := Taken(s, t);
            InRange(log, |r.bufs|) && IdsOf(r.events, t) == Concat(r.bufs, log) + (Waiting(s, t) + [|s.events|])
  {
    var log := Taken(s, t);
    forall i | 0 <= i < |log|
      ensures log[i] != b && r.bufs[log[i]] == s.bufs[log[i]]
    {
    }
    ConcatSame(s.bufs, r.bufs, log);
    assert IdsOf(r.events, t) == IdsOf(s.events, t) + [|s.events|];
  }

  /** The buffer is not full yet. */
  lemma {:induction false} AppendWaits(s: State, r: State, t: string, b: nat)
    requires PendingInRange(s) && PendingInRange(r) && LogOk(s, t)
    requires b < |r.bufs| && r.bufs[b].items == Waiting(s, t) + [|s.events|] && |s.bufs| <= |r.bufs|
    requires b < |s.bufs| ==> s.takers[b] == []
    requires forall c :: 0 <= c < |s.bufs| && c != b ==> r.bufs[c] == s.bufs[c] && r.takers[c] == s.takers[c]
    requires t in r.pending && r.pending[t] == b && Taken(r, t) == Taken(s, t)
    requires InRange(Taken(s, t), |r.bufs|) && IdsOf(r.events, t) == Concat(r.bufs, Taken(s, t)) + (Waiting(s, t) + [|s.events|])
    ensures Accounted(r, t)
  {
  }

  /** The buffer is full, and taken at once. */
  lemma {:induction false} AppendTakes(s: State, r: State, t: string, b: nat)
    requires PendingInRange(s) && PendingInRange(r) && LogOk(s, t)
    requires b < |r.bufs| && r.bufs[b].tenant == t && r.bufs[b].items == Waiting(s, t) + [|s.events|] && |s.bufs| <= |r.bufs|
    requires b < |s.bufs| ==> s.takers[b] == []
    requires forall c :: 0 <= c < |s.bufs| && c != b ==> r.bufs[c] == s.bufs[c] && r.takers[c] == s.takers[c]
    requires r.takers[b] != [] && t !in r.pending && Taken(r, t) == Taken(s, t) + [b]
    requires InRange(Taken(s, t), |r.bufs|) && IdsOf(r.events, t) == Concat(r.bufs, Taken(s, t)) + (Waiting(s, t) + [|s.events|])
    ensures Accounted(r, t)
  {
    AppendLog(s, r, t, b);
    ConcatSnoc(r.bufs, Taken(s, t), b);
    NothingWaits(Concat(r.bufs, Taken(r, t)));
  }

  lemma {:induction false} AppendLog(s: State, r: State, t: string, b: nat)
    requires PendingInRange(s) && PendingInRange(r) && LogOk(s, t)
    requires b < |r.bufs| && r.bufs[b].tenant == t && r.takers[b] != [] && |s.bufs| <= |r.bufs|
    requires b < |s.bufs| ==> s.takers[b] == []
    requires forall c :: 0 <= c < |s.bufs| && c != b ==> r.bufs[c] == s.bufs[c] && r.takers[c] == s.takers[c]
    requires Taken(r, t) == Taken(s, t) + [b]
    ensures LogOk(r, t)
  {
    var log := Taken(s, t);
    forall i | 0 <= i < |log|
      ensures log[i] != b
    {
    }
  }

  lemma {:induction false} SubmitKeepsOwnAccount(size: nat, s: State, e: Event)
    requires size > 0 && Owned(size, s) && Accounted(s, e.tenant) && Batched(e) && !s.closed
    ensures Accounted(SubmitStep(size, s, e), e.tenant)
  {
    var t, r := e.tenant, SubmitStep(size, s, e);
    var b := if t in s.pending then s.pending[t] else |s.bufs|;
    AppendKeepsLog(s, r, t, b);
    if |r.bufs[b].items| >= size {
      AppendTakes(s, r, t, b);
    } else {
      AppendWaits(s, r, t, b);
    }
  }

  /** Handing the tenant's pending buffer to a taker moves it from the end of the account to the end of the log. */
  lemma {:induction false} HandOffMoves(s: State, r: State, t: string, b: nat)
    requires PendingInRange(s) && PendingInRange(r) && Accounted(s, t)
    requires r.bufs == s.bufs && r.events == s.events && t in s.pending && s.pending[t] == b && t !in r.pending
    requires s.bufs[b].tenant == t && s.takers[b] == [] && r.takers[b] != []
    requires forall c :: 0 <= c < |s.takers| && s.takers[c] != [] ==> r.takers[c] != []
    requires Taken(r, t) == Taken(s, t) + [b]
    ensures Accounted(r, t)
  {
    HandOffLog(s, r, t, b);
    ConcatSnoc(s.bufs, Taken(s, t), b);
    NothingWaits(Concat(r.bufs, Taken(r, t)));
  }

  lemma {:induction false} NothingWaits(ids: seq<nat>)
    ensures ids + [] == ids
  {
  }

  lemma {:induction false} HandOffLog(s: State, r: State, t: string, b: nat)
    requires PendingInRange(s) && PendingInRange(r) && LogOk(s, t)
    requires r.bufs == s.bufs && b < |s.bufs|
    requires s.bufs[b].tenant == t && s.takers[b] == [] && r.takers[b] != []
    requires forall c :: 0 <= c < |s.takers| && s.takers[c] != [] ==> r.takers[c] != []
    requires Taken(r, t) == Taken(s, t) + [b]
    ensures LogOk(r, t)
  {
    var log := Taken(s, t);
    forall i | 0 <= i < |log|
      ensures log[i] != b
    {
    }
  }

  lemma {:induction false} HandOffLogs(size: nat, s: State, a: Action, t: string)
    requires size > 0 && Owned(size, s) && (a.Timer? || a.Close?)
    ensures var r := Step(size, s, a);
            && r.bufs == s.bufs && r.events == s.events
            && (forall b :: 0 <= b < |s.bufs| && s.takers[b] != [] ==> r.takers[b] != [])
            && if t in s.pending && t !in r.pending
               then Taken(r, t) == Taken(s, t) + [s.pending[t]] && r.takers[s.pending[t]] != []
               else Taken(r, t) == Taken(s, t) && (t in r.pending <==> t in s.pending) && (t in s.pending ==> r.pending[t] == s.pending[t])
  {
    if t in s.pending {
      assert IsPending(s, s.pending[t]);
    }
  }

  lemma {:induction false} HandOffKeepsAccount(size: nat, s: State, a: Action, t: string)
    requires size > 0 && Owned(size, s) && Accounted(s, t) && (a.Timer? || a.Close?)
    ensures Accounted(Step(size, s, a), t)
  {
    var r := Step(size, s, a);
    HandOffLogs(size, s, a, t);
    if t in s.pending && t !in r.pending {
      HandOffMoves(s, r, t, s.pending[t]);
    } else {
      AccountFramed(s, r, t);
    }
  }

  lemma {:induction false} SendLeavesBatches(size: nat, s: State, a: Action)
    requires PendingInRange(s) && (a.Respond? || a.Deliver?)
    ensures var r := Step(size, s, a);
            && r.bufs == s.bufs && r.events == s.events && r.pending == s.pending && r.taken == s.taken
            && forall b :: 0 <= b < |s.bufs| ==> |r.takers[b]| == |s.takers[b]|
  {
  }

  lemma {:induction false} SendKeepsAccount(size: nat, s: State, a: Action, t: string)
    requires size > 0 && PendingInRange(s) && Accounted(s, t) && (a.Respond? || a.Deliver?)
    ensures Accounted(Step(size, s, a), t)
  {
    var r := Step(size, s, a);
    SendLeavesBatches(size, s, a);
    forall b | 0 <= b < |s.bufs| && s.takers[b] != []
      ensures r.takers[b] != []
    {
      assert |r.takers[b]| == |s.takers[b]|;
    }
    AccountFramed(s, r, t);
  }

  /** In every run, a tenant's accepted events in order are its handed-off batches followed by its pending buffer. */
  lemma {:induction false} NothingLostOrReordered(size: nat, run: seq<Action>, t: string)
    requires size > 0
    ensures Accounted(After(size, run), t)
  {
    if run != [] {
      var pre, a := run[..|run| - 1], run[|run| - 1];
      var s := After(size, pre);
      RunSafe(size, pre);
      NothingLostOrReordered(size, pre, t);
      match a {
        case Submit(e) =>
          if Batched(e) && !s.closed {
            if e.tenant == t { SubmitKeepsOwnAccount(size, s, e); } else { SubmitKeepsOtherAccount(size, s, e, t); }
          }
        case Timer(_, _) => HandOffKeepsAccount(size, s, a, t);
        case Close => HandOffKeepsAccount(size, s, a, t);
        case Respond(_, _, _) => SendKeepsAccount(size, s, a, t);
        case Deliver(_, _) => SendKeepsAccount(size, s, a, t);
      }
    }
  }

  // ----- Theorems over whole runs -----

  /** Every handed-off batch: non-empty, at most Size, one tenant, no negative-path event, exactly one sender. */
  lemma {:induction false} BatchShape(size: nat, run: seq<Action>, t: string, i: nat)
    requires size > 0 && i < |Taken(After(size, run), t)|
    ensures var s := After(size, run);
            var b := Taken(s, t)[i];
            && b < |s.bufs| && 1 <= |s.bufs[b].items| <= size && |s.takers[b]| == 1
            && forall k :: 0 <= k < |s.bufs[b].items| ==>
                 && s.bufs[b].items[k] < |s.events|
                 && var e := s.events[s.bufs[b].items[k]]; e.tenant == t && !e.negative && !e.rawBody
  {
    RunSafe(size, run);
    NothingLostOrReordered(size, run, t);
    TakenShape(size, After(size, run), t, i);
  }

  lemma {:induction false} TakenShape(size: nat, s: State, t: string, i: nat)
    requires Owned(size, s) && LogOk(s, t) && i < |Taken(s, t)|
    ensures var b := Taken(s, t)[i];
            && b < |s.bufs| && 1 <= |s.bufs[b].items| <= size && |s.takers[b]| == 1
            && forall k :: 0 <= k < |s.bufs[b].items| ==>
                 && s.bufs[b].items[k] < |s.events|
                 && var e := s.events[s.bufs[b].items[k]]; e.tenant == t && !e.negative && !e.rawBody
  {
    assert BufOk(size, s, Taken(s, t)[i]);
  }

  /** The same takers, whatever their progress. */
  ghost predicate SameTakers(xs: seq<Sender>, ys: seq<Sender>) {
    |xs| == |ys| && forall j :: 0 <= j < |xs| ==> xs[j].taker == ys[j].taker
  }

  lemma {:induction false} StepFreezes(size: nat, s: State, a: Action, b: nat)
    requires size > 0 && Owned(size, s) && b < |s.bufs| && s.takers[b] != []
    ensures var r := Step(size, s, a); b < |r.bufs| && r.bufs[b] == s.bufs[b] && SameTakers(s.takers[b], r.takers[b])
  {
  }

  lemma {:induction false} AfterMore(size: nat, run: seq<Action>, more: seq<Action>)
    requires size > 0 && more != []
    ensures After(size, run + more) == Step(size, After(size, run + more[..|more| - 1]), more[|more| - 1])
  {
    var all := run + more;
    assert all[..|all| - 1] == run + more[..|more| - 1] && all[|all| - 1] == more[|more| - 1];
  }

  /** A buffer, once handed off, keeps its items and its one taker for ever. */
  lemma {:induction false} HandedOffIsFrozen(size: nat, run: seq<Action>, more: seq<Action>, b: nat)
    requires size > 0 && b < |After(size, run).bufs| && After(size, run).takers[b] != []
    ensures var s, r := After(size, run), After(size, run + more);
            b < |r.bufs| && r.bufs[b] == s.bufs[b] && SameTakers(s.takers[b], r.takers[b])
    decreases |more|
  {
    if more == [] {
      assert run + more == run;
    } else {
      var pre := more[..|more| - 1];
      HandedOffIsFrozen(size, run, pre, b);
      RunSafe(size, run + pre);
      StepFreezes(size, After(size, run + pre), more[|more| - 1], b);
      AfterMore(size, run, more);
    }
  }

  /** Whoever is about to deliver finds the channel empty, so its one slot never blocks a sender. */
  lemma {:induction false} SlotFreeAtDelivery(size: nat, run: seq<Action>, b: nat, j: nat)
    requires size > 0 && CanDeliver(After(size, run), b, j)
    ensures var s := After(size, run); s.slots[s.bufs[b].items[s.takers[b][j].delivered]] == []
  {
    RunSafe(size, run);
    var s := After(size, run);
    OneSender(size, s, b, j);
    var id := s.bufs[b].items[s.takers[b][0].delivered];
    assert s.place[id] == (b, s.takers[b][0].delivered) && SlotOk(s, id);
    SentByOne(s.events[id], s.place[id].1, s.takers[b][0]);
  }

  /**
   At most one result per accepted event, always its own; exactly one, decided by its own
   index in its batch, once a taker of its batch has finished.
   */
  lemma {:induction false} OneResultEach(size: nat, run: seq<Action>, id: nat)
    requires size > 0 && id < |After(size, run).events|
    ensures var s := After(size, run);
            && |s.slots| == |s.events| == |s.place| && |s.slots[id]| <= 1
            && (s.slots[id] != [] ==> s.slots[id][0].event == s.events[id])
            && var (b, k) := s.place[id];
               && b < |s.bufs| && k < |s.bufs[b].items| && s.bufs[b].items[k] == id
               && forall j :: 0 <= j < |s.takers[b]| && s.takers[b][j].response.Some? && s.takers[b][j].delivered == |s.bufs[b].items|
                    ==> s.slots[id] == [Outcome(s.events[id], k, s.takers[b][j].response.value)]
  {
    RunSafe(size, run);
    var s := After(size, run);
    assert SlotOk(s, id);
    var (b, k) := s.place[id];
    if s.takers[b] != [] {
      OneSender(size, s, b, 0);
      SentByOne(s.events[id], k, s.takers[b][0]);
      if s.slots[id] != [] {
        OutcomeStatus(s.events[id], k, s.takers[b][0].response.value);
      }
    }
  }

  /** After Close every accepted event sits in a batch that has been handed to a sender. */
  lemma {:induction false} CloseStrandsNothing(size: nat, run: seq<Action>, id: nat)
    requires size > 0 && After(size, run).closed && id < |After(size, run).events|
    ensures var s := After(size, run);
            id < |s.place| && s.place[id].0 < |s.bufs| && |s.takers[s.place[id].0]| == 1
  {
    RunSafe(size, run);
    var s := After(size, run);
    assert SlotOk(s, id);
    assert BufOk(size, s, s.place[id].0);
  }

  // ----- What one more step does to a run -----

  lemma {:induction false} OneMore(size: nat, run: seq<Action>, a: Action)
    requires size > 0
    ensures After(size, run + [a]) == Step(size, After(size, run), a)
  {
    assert (run + [a])[..|run|] == run;
  }

  /** All but buffer b and the tenant's pending entry are as before. */
  ghost predicate OnlyTakes(s: State, r: State, t: string, b: nat)
    requires b < |s.takers|
  {
    && r.events == s.events && r.bufs == s.bufs && r.slots == s.slots && r.closed == s.closed
    && |r.takers| == |s.takers| && r.pending == s.pending - {t}
    && forall c :: 0 <= c < |s.takers| && c != b ==> r.takers[c] == s.takers[c]
  }

  /** After its timer a buffer has its one sender and waits no longer. A timer whose buffer is still pending becomes that sender, and a stale one changes nothing. */
  lemma {:induction false} TimerHandsOff(size: nat, run: seq<Action>, t: string, b: nat)
    requires size > 0
    ensures var s, r := After(size, run), After(size, run + [Timer(t, b)]);
            && (b < |s.bufs| && s.bufs[b].tenant == t ==> |r.takers[b]| == 1 && (t in r.pending ==> r.pending[t] != b))
            && (t in s.pending && s.pending[t] == b ==>
                  r.takers[b] == [Sender(TimerCallback, None, 0)] && OnlyTakes(s, r, t, b))
            && (!(t in s.pending && s.pending[t] == b) ==> r == s)
  {
    OneMore(size, run, Timer(t, b));
    RunSafe(size, run);
    var s := After(size, run);
    if b < |s.bufs| {
      assert BufOk(size, s, b);
    }
  }

  /** The accepted event number id is the last item of its tenant's buffer b, behind those that waited. */
  ghost predicate Queues(s: State, r: State, e: Event, b: nat)
    requires PendingInRange(s) && PendingInRange(r)
  {
    && r.events == s.events + [e] && r.slots == s.slots + [[]] && r.closed == s.closed
    && b < |r.bufs| && r.bufs[b] == Buf(e.tenant, Waiting(s, e.tenant) + [|s.events|])
    && forall c :: 0 <= c < |s.bufs| && c != b ==> c < |r.bufs| && r.bufs[c] == s.bufs[c] && r.takers[c] == s.takers[c]
  }

  /**
   A Submit is accepted unless the event goes alone or the driver is closed, and then joins its
   tenant's waiting items; the caller that brings them to Size takes them all, and before that
   they wait. Otherwise nothing changes.
   */
  lemma {:induction false} SubmitWaitsOrSends(size: nat, run: seq<Action>, e: Event) returns (b: nat)
    requires size > 0
    ensures var s, r := After(size, run), After(size, run + [Submit(e)]);
            && (e.negative || e.rawBody || s.closed ==> r == s)
            && (!e.negative && !e.rawBody && !s.closed ==>
                  && Queues(s, r, e, b)
                  && if |Waiting(s, e.tenant)| + 1 >= size
                     then r.takers[b] == [Sender(Caller(|s.events|), None, 0)] && r.pending == s.pending - {e.tenant}
                     else r.takers[b] == [] && r.pending == s.pending[e.tenant := b])
  {
    OneMore(size, run, Submit(e));
    RunSafe(size, run);
    var s := After(size, run);
    b := Target(s, e.tenant);
    if Batched(e) && !s.closed {
      SubmitPlacesItem(size, s, e);
    }
  }

  /** Close leaves no buffer pending: it becomes the sender of every one that was, and nothing is accepted any more. */
  lemma {:induction false} CloseTakesAll(size: nat, run: seq<Action>)
    requires size > 0
    ensures var s, r := After(size, run), After(size, run + [Close]);
            && r.closed && r.pending == map[] && r.events == s.events && r.bufs == s.bufs && r.slots == s.slots
            && (forall b :: 0 <= b < |s.bufs| ==> r.takers[b] == if s.takers[b] == [] then [Sender(Closer, None, 0)] else s.takers[b])
  {
    OneMore(size, run, Close);
    RunSafe(size, run);
    var s := After(size, run);
    forall b | 0 <= b < |s.bufs|
      ensures CloseStep(s).takers[b] == if s.takers[b] == [] then [Sender(Closer, None, 0)] else s.takers[b]
    {
      assert BufOk(size, s, b);
      assert IsPending(s, b) <==> s.takers[b] == [];
    }
  }

  lemma {:induction false} MayDeliver(size: nat, s: State, b: nat, j: nat)
    requires Owned(size, s) && IsSender(s, b, j) && s.takers[b][j].response.Some? && s.takers[b][j].delivered < |s.bufs[b].items|
    ensures CanDeliver(s, b, j)
  {
    assert BufOk(size, s, b);
  }

  /** A sender keeps the first response it gets. */
  lemma {:induction false} RespondMeans(size: nat, run: seq<Action>, b: nat, resp: Response)
    requires size > 0 && b < |After(size, run).bufs| && After(size, run).takers[b] != []
    ensures var s, x := After(size, run), After(size, run).takers[b][0];
            && After(size, run + [Respond(b, 0, resp)]).takers[b] == [if x.response.None? then x.(response := Some(resp)) else x]
            && After(size, run + [Respond(b, 0, resp)]).slots == s.slots
  {
    OneMore(size, run, Respond(b, 0, resp));
    RunSafe(size, run);
    OneSender(size, After(size, run), b, 0);
  }

  /** Once it has a response, a sender's next delivery puts the next item's outcome on that item's empty channel. */
  lemma {:induction false} DeliveryMeans(size: nat, run: seq<Action>, b: nat)
    requires size > 0 && b < |After(size, run).bufs| && After(size, run).takers[b] != []
    requires var s := After(size, run); s.takers[b][0].response.Some? && s.takers[b][0].delivered < |s.bufs[b].items|
    ensures var s, r := After(size, run), After(size, run + [Deliver(b, 0)]);
            var x := s.takers[b][0];
            var id := s.bufs[b].items[x.delivered];
            && id < |s.events| == |s.slots| && r.takers[b] == [x.(delivered := x.delivered + 1)]
            && s.slots[id] == [] && r.slots == s.slots[id := [Outcome(s.events[id], x.delivered, x.response.value)]]
  {
    OneMore(size, run, Deliver(b, 0));
    RunSafe(size, run);
    OneSender(size, After(size, run), b, 0);
    MayDeliver(size, After(size, run), b, 0);
    SlotFreeAtDelivery(size, run, b, 0);
    DeliversOne(After(size, run), b);
  }

  lemma {:induction false} DeliversOne(s: State, b: nat)
    requires CanDeliver(s, b, 0) && |s.takers[b]| == 1 && s.slots[s.bufs[b].items[s.takers[b][0].delivered]] == []
    ensures var r, x := DeliverStep(s, b, 0), s.takers[b][0];
            var id := s.bufs[b].items[x.delivered];
            && b < |r.takers| && r.takers[b] == [x.(delivered := x.delivered + 1)]
            && r.slots == s.slots[id := [Outcome(s.events[id], x.delivered, x.response.value)]]
  {
    var x := s.takers[b][0];
    var result := Outcome(s.events[s.bufs[b].items[x.delivered]], x.delivered, x.response.value);
    assert [] + [result] == [result];
  }

  // ----- The imperative driver -----

  function DeliverMany(s: State, b: nat, j: nat, n: nat): State {
    if n == 0 then s else DeliverStep(DeliverMany(s, b, j, n - 1), b, j)
  }

  /** A batch that has its response is ready to be delivered from the first item on. */
  lemma {:induction false} RespondSafe(size: nat, s: State, b: nat, j: nat, r: Response)
    requires size > 0 && Owned(size, s) && Placed(s) && CanRespond(s, b, j)
    ensures var start := RespondStep(s, b, j, r);
            Owned(size, start) && Placed(start) && IsSender(start, b, j) && start.takers[b][j] == Sender(s.takers[b][j].taker, Some(r), 0)
  {
    SendKeepsOwned(size, s, Respond(b, j, r));
    RespondKeepsPlaced(size, s, b, j, r);
    OneSender(size, s, b, j);
  }

  lemma {:induction false} DeliverSafe(size: nat, s: State, b: nat, j: nat)
    requires size > 0 && Owned(size, s) && Placed(s) && CanDeliver(s, b, j)
    ensures var r := DeliverStep(s, b, j);
            && Owned(size, r) && Placed(r) && r.bufs == s.bufs && r.events == s.events && IsSender(r, b, j)
            && r.takers[b][j] == s.takers[b][j].(delivered := s.takers[b][j].delivered + 1)
  {
    SendKeepsOwned(size, s, Deliver(b, j));
    DeliverKeepsPlaced(size, s, b, j);
  }

  lemma {:induction false} DeliverManySafe(size: nat, s: State, b: nat, j: nat, n: nat)
    requires size > 0 && Owned(size, s) && Placed(s) && IsSender(s, b, j) && s.takers[b][j].response.Some?
    requires s.takers[b][j].delivered == 0 && n <= |s.bufs[b].items|
    ensures var r := DeliverMany(s, b, j, n);
            && Owned(size, r) && Placed(r) && r.bufs == s.bufs && r.events == s.events && IsSender(r, b, j)
            && r.takers[b][j] == s.takers[b][j].(delivered := n)
            && (n < |s.bufs[b].items| ==> CanDeliver(r, b, j))
  {
    if n > 0 {
      DeliverManySafe(size, s, b, j, n - 1);
      DeliverSafe(size, DeliverMany(s, b, j, n - 1), b, j);
    }
    if n < |s.bufs[b].items| {
      MayDeliver(size, DeliverMany(s, b, j, n), b, j);
    }
  }

  /** Every item of the batch has its one result. */
  ghost predicate Delivered(s: State, b: nat, r: Response)
    requires b < |s.bufs|
  {
    |s.slots| == |s.events|
    && forall k :: 0 <= k < |s.bufs[b].items| ==>
         var id := s.bufs[b].items[k]; id < |s.events| && s.slots[id] == [Outcome(s.events[id], k, r)]
  }

  lemma {:induction false} AllDelivered(size: nat, s: State, b: nat, j: nat)
    requires Owned(size, s) && Placed(s) && IsSender(s, b, j)
    requires s.takers[b][j].response.Some? && s.takers[b][j].delivered == |s.bufs[b].items|
    ensures Delivered(s, b, s.takers[b][j].response.value)
  {
    OneSender(size, s, b, j);
    forall k | 0 <= k < |s.bufs[b].items|
      ensures s.bufs[b].items[k] < |s.events|
      ensures s.slots[s.bufs[b].items[k]] == [Outcome(s.events[s.bufs[b].items[k]], k, s.takers[b][0].response.value)]
    {
      var id := s.bufs[b].items[k];
      assert s.place[id] == (b, k) && SlotOk(s, id);
      SentByOne(s.events[id], k, s.takers[b][0]);
    }
  }

  class RESTBatch {
    const size: nat
    var events: seq<Event>
    var bufs: seq<Buf>
    var pending: map<string, nat>
    var closed: bool
    var slots: seq<seq<Result>>
    ghost var takers: seq<seq<Sender>>
    ghost var taken: map<string, seq<nat>>
    ghost var place: seq<(nat, nat)>

    ghost function View(): State
      reads this
    {
      State(events, bufs, pending, closed, slots, takers, taken, place)
    }

    constructor (size: nat)
      requires size > 0
      ensures this.size == size && View() == INIT && Owned(size, View()) && Placed(View())
    {
      this.size := size;
      events, bufs, pending, closed, slots := [], [], map[], false, [];
      takers, taken, place := [], map[], [];
    }

    /** Add the item to its tenant's buffer, opening one if none is pending. */
    method Push(t: string, id: nat) returns (b: nat, n: nat)
      requires PendingInRange(View())
      modifies this`bufs, this`pending
      ensures b == Target(old(View()), t) < |bufs| && n == |bufs[b].items|
      ensures pending == old(pending)[t := b]
      ensures bufs == Pushed(old(View()), t, id)
    {
      if t in pending {
        b := pending[t];
        bufs := bufs[b := bufs[b].(items := bufs[b].items + [id])];
      } else {
        b := |bufs|;
        bufs := bufs + [Buf(t, [id])];
        pending := pending[t := b];
      }
      n := |bufs[b].items|;
    }

    /** Queue the item into its tenant's buffer and detach the buffer when it is full. */
    method Append(e: Event) returns (b: nat, full: bool)
      requires PendingInRange(View()) && Batched(e) && !closed
      modifies this
      ensures View() == SubmitStep(size, old(View()), e)
      ensures b < |bufs| && full == (|bufs[b].items| >= size)
      ensures if full then e.tenant !in pending else e.tenant in pending && pending[e.tenant] == b
      ensures full ==> |takers[b]| > 0 && takers[b][|takers[b]| - 1] == Sender(Caller(|old(events)|), None, 0)
    {
      ghost var now := SubmitStep(size, View(), e);
      var n;
      b, n := Push(e.tenant, |events|);
      events, slots := events + [e], slots + [[]];
      full := n >= size;
      if full {
        pending := pending - {e.tenant};
      }
      takers, taken, place := now.takers, now.taken, now.place;
      assert pending == now.pending;
    }

    /** The locked part of Submit; Queued(Some(b)) tells this caller to send batch b. */
    method SubmitSection(e: Event) returns (route: Route)
      requires size > 0 && Owned(size, View())
      modifies this
      ensures View() == SubmitStep(size, old(View()), e) && Owned(size, View())
      ensures route.Alone? <==> e.negative || e.rawBody
      ensures route.Refused? <==> !e.negative && !e.rawBody && old(closed)
      ensures if route.Queued? then events == old(events) + [e] else View() == old(View())
      ensures route.Queued? ==> (route.mine.Some? <==> e.tenant !in pending)
      ensures route.Queued? && route.mine.Some? ==>
                route.mine.value < |bufs| && takers[route.mine.value] == [Sender(Caller(|old(events)|), None, 0)]
    {
      SubmitKeepsOwned(size, View(), e);
      if e.negative || e.rawBody {
        return Alone;
      }
      if closed {
        return Refused;
      }
      var b, full := Append(e);
      assert BufOk(size, View(), b);
      return Queued(if full then Some(b) else None);
    }

    /** The locked part of the timer callback. */
    method FlushSection(tenant: string, buf: nat) returns (mine: bool)
      requires size > 0 && Owned(size, View())
      modifies this
      ensures View() == TimerStep(old(View()), tenant, buf) && Owned(size, View())
      ensures mine == (tenant in old(pending) && old(pending)[tenant] == buf)
      ensures mine ==> pending == old(pending) - {tenant} && buf < |takers| && takers[buf] == [Sender(TimerCallback, None, 0)]
      ensures !mine ==> View() == old(View())
    {
      ghost var now := TimerStep(View(), tenant, buf);
      HandOffKeepsOwned(size, View(), Timer(tenant, buf));
      assert buf < |bufs| ==> BufOk(size, View(), buf);
      if tenant !in pending || pending[tenant] != buf {
        return false;
      }
      pending := pending - {tenant};
      takers, taken := now.takers, now.taken;
      return true;
    }

    /** The locked part of Close: the whole pending map changes hands. */
    method CloseSection() returns (mine: map<string, nat>)
      requires size > 0 && Owned(size, View())
      modifies this
      ensures View() == CloseStep(old(View())) && Owned(size, View())
      ensures mine == old(pending) && closed && pending == map[]
      ensures forall t :: t in mine ==> mine[t] < |takers| && takers[mine[t]] == [Sender(Closer, None, 0)]
    {
      ghost var now := CloseStep(View());
      HandOffKeepsOwned(size, View(), Close);
      closed := true;
      mine := pending;
      pending := map[];
      takers, taken := now.takers, now.taken;
    }

    /** One turn of the delivery loop: the next item's result goes onto its own channel. */
    method DeliverOne(b: nat, i: nat, r: Response, failed: map<int, string>, ghost j: nat)
      requires CanDeliver(View(), b, j) && takers[b][j].response == Some(r) && takers[b][j].delivered == i
      requires r.Reply? && r.parsed.Some? ==>
                 forall k :: LastMessage(r.parsed.value, k) == if k in failed then Some(failed[k]) else None
      requires !(r.Reply? && r.parsed.Some?) ==> failed == map[]
      modifies this`slots, this`takers
      ensures View() == DeliverStep(old(View()), b, j)
    {
      ghost var now := DeliverStep(View(), b, j);
      var id := bufs[b].items[i];
      var result := ResultFor(events[id], i, r, failed);
      slots := slots[id := slots[id] + [result]];
      takers := now.takers;
    }

    /** The delivery loop. */
    method DeliverAll(b: nat, r: Response, failed: map<int, string>, ghost j: nat)
      requires size > 0 && Owned(size, View()) && Placed(View())
      requires IsSender(View(), b, j) && takers[b][j].response == Some(r) && takers[b][j].delivered == 0
      requires r.Reply? && r.parsed.Some? ==>
                 forall k :: LastMessage(r.parsed.value, k) == if k in failed then Some(failed[k]) else None
      requires !(r.Reply? && r.parsed.Some?) ==> failed == map[]
      modifies this`slots, this`takers
      ensures View() == DeliverMany(old(View()), b, j, |bufs[b].items|)
    {
      ghost var start := View();
      for i := 0 to |bufs[b].items|
        invariant View() == DeliverMany(start, b, j, i)
      {
        DeliverManySafe(size, start, b, j, i);
        DeliverOne(b, i, r, failed, j);
      }
    }

    /** send, run by the j-th taker of batch b: one response, then one result to every waiting item in order. */
    method Send(b: nat, r: Response, ghost j: nat)
      requires size > 0 && Owned(size, View()) && Placed(View()) && CanRespond(View(), b, j)
      modifies this`slots, this`takers
      ensures Owned(size, View()) && Placed(View())
      ensures View() == DeliverMany(RespondStep(old(View()), b, j, r), b, j, |bufs[b].items|)
      ensures IsSender(View(), b, j) && takers[b][j] == Sender(old(takers)[b][j].taker, Some(r), |bufs[b].items|)
      ensures bufs == old(bufs) && events == old(events) && Delivered(View(), b, r)
    {
      ghost var start := RespondStep(View(), b, j, r);
      RespondSafe(size, View(), b, j, r);
      var failed: map<int, string> := map[];
      if r.Reply? && r.parsed.Some? {
        failed := CollectFailed(r.parsed.value);
      }
      takers := start.takers;
      DeliverManySafe(size, start, b, j, |bufs[b].items|);
      DeliverAll(b, r, failed, j);
      AllDelivered(size, View(), b, j);
    }
  }

  method ResultFor(e: Event, i: nat, r: Response, failed: map<int, string>) returns (result: Result)
    requires r.Reply? && r.parsed.Some? ==>
               forall k :: LastMessage(r.parsed.value, k) == if k in failed then Some(failed[k]) else None
    requires !(r.Reply? && r.parsed.Some?) ==> failed == map[]
    ensures result == Outcome(e, i, r)
  {
    match r {
      case NotSent(err) =>
        return Result(e, 0, err, "");
      case Reply(status, body, parsed) =>
        if status < 200 || status >= 300 {
          return Result(e, status, "", Excerpt(body));
        }
        result := Result(e, status, "", "");
        if i in failed {
          result := result.(status := 422, excerpt := Excerpt("batch error: " + failed[i]));
        }
    }
  }

  /** The index-to-message map of send: a later entry for the same index wins. */
  method CollectFailed(errors: seq<BatchError>) returns (failed: map<int, string>)
    ensures forall i :: LastMessage(errors, i) == if i in failed then Some(failed[i]) else None
  {
    failed := map[];
    for k := 0 to |errors|
      invariant forall i :: LastMessage(errors[..k], i) == if i in failed then Some(failed[i]) else None
    {
      assert errors[..k + 1][..k] == errors[..k];
      failed := failed[errors[k].index := errors[k].message];
    }
    assert errors[..|errors|] == errors;
  }
}
