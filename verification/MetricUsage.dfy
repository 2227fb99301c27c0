/**
 Per-metric usage of accepted events: recording, and merging what separate partitions
 recorded. Merging is a commutative monoid, so however a stream of events is split and in
 whatever order the parts are merged, the result is what one store would have recorded.
 Quantities are reals; a nil map and an empty one are not told apart.
 */
module MetricUsage {

  import opened MapMerge

  datatype StatusUsage = StatusUsage(events: nat, quantity: real)

  datatype Usage = Usage(events: nat, quantity: real, maxQuantity: real, byStatus: map<string, StatusUsage>)

  datatype Event = Event(tenant: string, metric: string, quantity: real, status: string)

  const NoRow := StatusUsage(0, 0.0)
  const Zero := Usage(0, 0.0, 0.0, map[])
  const NoMetrics: map<string, Usage> := map[]

  function Larger(a: real, b: real): real {
    if b > a then b else a
  }

  function Row(rows: map<string, StatusUsage>, status: string): StatusUsage {
    Get(rows, status, NoRow)
  }

  function PlusRow(a: StatusUsage, b: StatusUsage): StatusUsage {
    StatusUsage(a.events + b.events, a.quantity + b.quantity)
  }

  /** One accepted event. */
  function Add(u: Usage, quantity: real, status: string): Usage {
    Usage(u.events + 1, u.quantity + quantity, Larger(u.maxQuantity, quantity),
          u.byStatus[status := PlusRow(Row(u.byStatus, status), StatusUsage(1, quantity))])
  }

  function MergeRows(a: map<string, StatusUsage>, b: map<string, StatusUsage>): map<string, StatusUsage> {
    MergeMaps(PlusRow, NoRow, a, b)
  }

  /** Another partition's usage of the same metric. */
  function Merge(u: Usage, o: Usage): Usage {
    Usage(u.events + o.events, u.quantity + o.quantity, Larger(u.maxQuantity, o.maxQuantity), MergeRows(u.byStatus, o.byStatus))
  }

  // ----- Merging one metric is a commutative monoid -----

  predicate AnyRow(r: StatusUsage) {
    true
  }

  predicate Sound(u: Usage) {
    u.maxQuantity >= 0.0
  }

  lemma {:induction false} RowsAreMonoid()
    ensures IsMonoid(PlusRow, NoRow, AnyRow)
  {
  }

  lemma {:induction false} MergeCommutesOne(u: Usage, o: Usage)
    ensures Merge(u, o) == Merge(o, u)
  {
  }

  lemma {:induction false} MergeAssociatesOne(u: Usage, o: Usage, w: Usage)
    ensures Merge(Merge(u, o), w) == Merge(u, Merge(o, w))
  {
    RowsAreMonoid();
    MergeAssociates(PlusRow, NoRow, AnyRow, u.byStatus, o.byStatus, w.byStatus);
  }

  lemma {:induction false} MergeZero(u: Usage)
    requires Sound(u)
    ensures Merge(u, Zero) == u
  {
  }

  /** Usages of one metric merge in any order and grouping to the same result. */
  lemma {:induction false} UsagesAreMonoid()
    ensures IsMonoid(Merge, Zero, Sound)
  {
    forall u, o
      ensures Commutes(Merge, Sound, u, o)
    {
      MergeCommutesOne(u, o);
    }
    forall u
      ensures Neutral(Merge, Zero, Sound, u)
    {
      if Sound(u) {
        MergeZero(u);
      }
    }
    forall u, o, w
      ensures Associates(Merge, Sound, u, o, w)
    {
      MergeAssociatesOne(u, o, w);
    }
  }

  /** Recording an event is merging a usage of that one event. */
  lemma {:induction false} AddIsMerge(u: Usage, quantity: real, status: string)
    requires Sound(u)
    ensures Add(u, quantity, status) == Merge(u, Add(Zero, quantity, status))
  {
  }

  // ----- Stores -----

  type Store = map<string, map<string, Usage>>

  function Metrics(s: Store, tenant: string): map<string, Usage> {
    Get(s, tenant, NoMetrics)
  }

  function At(m: map<string, Usage>, metric: string): Usage {
    Get(m, metric, Zero)
  }

  predicate Attributed(e: Event) {
    e.tenant != "" && e.metric != ""
  }

  function RecordMetric(m: map<string, Usage>, e: Event): map<string, Usage> {
    m[e.metric := Add(At(m, e.metric), e.quantity, e.status)]
  }

  /** An event without a tenant or a metric name is ignored. */
  function Record(s: Store, e: Event): Store {
    if !Attributed(e) then s else s[e.tenant := RecordMetric(Metrics(s, e.tenant), e)]
  }

  function MergeMetrics(a: map<string, Usage>, b: map<string, Usage>): map<string, Usage> {
    MergeMaps(Merge, Zero, a, b)
  }

  function MergeStores(a: Store, b: Store): Store {
    MergeMaps(MergeMetrics, NoMetrics, a, b)
  }

  ghost predicate SoundMetrics(m: map<string, Usage>) {
    AllOk(Sound, m)
  }

  ghost predicate SoundStore(s: Store) {
    AllOk(SoundMetrics, s)
  }

  lemma {:induction false} MetricsAreMonoid()
    ensures IsMonoid(MergeMetrics, NoMetrics, SoundMetrics)
  {
    UsagesAreMonoid();
    forall a, b
      ensures Commutes(MergeMetrics, SoundMetrics, a, b)
    {
      if SoundMetrics(a) && SoundMetrics(b) {
        MergeOk(Merge, Zero, Sound, a, b);
        MergeCommutes(Merge, Zero, Sound, a, b);
      }
    }
    forall a
      ensures Neutral(MergeMetrics, NoMetrics, SoundMetrics, a)
    {
      if SoundMetrics(a) {
        MergeEmpty(Merge, Zero, Sound, a);
      }
    }
    forall a, b, c
      ensures Associates(MergeMetrics, SoundMetrics, a, b, c)
    {
      if SoundMetrics(a) && SoundMetrics(b) && SoundMetrics(c) {
        MergeAssociates(Merge, Zero, Sound, a, b, c);
      }
    }
  }

  lemma {:induction false} MergeStoresCommutes(a: Store, b: Store)
    requires SoundStore(a) && SoundStore(b)
    ensures MergeStores(a, b) == MergeStores(b, a)
  {
    MetricsAreMonoid();
    MergeCommutes(MergeMetrics, NoMetrics, SoundMetrics, a, b);
  }

  lemma {:induction false} MergeStoresAssociates(a: Store, b: Store, c: Store)
    requires SoundStore(a) && SoundStore(b) && SoundStore(c)
    ensures MergeStores(MergeStores(a, b), c) == MergeStores(a, MergeStores(b, c))
  {
    MetricsAreMonoid();
    MergeAssociates(MergeMetrics, NoMetrics, SoundMetrics, a, b, c);
  }

  lemma {:induction false} MergeStoresEmpty(a: Store)
    requires SoundStore(a)
    ensures MergeStores(a, map[]) == a && MergeStores(map[], a) == a
  {
    MetricsAreMonoid();
    MergeEmpty(MergeMetrics, NoMetrics, SoundMetrics, a);
  }

  lemma {:induction false} MergedSound(a: Store, b: Store)
    requires SoundStore(a) && SoundStore(b)
    ensures SoundStore(MergeStores(a, b))
  {
  }

  // ----- Recording a stream -----

  function Recorded(events: seq<Event>): Store {
    if events == [] then map[] else Record(Recorded(events[..|events| - 1]), events[|events| - 1])
  }

  /** Folding the snapshots of the parts, in the order given, into an empty result. */
  function MergeAll(parts: seq<seq<Event>>): Store {
    if parts == [] then map[] else MergeStores(MergeAll(parts[..|parts| - 1]), Recorded(parts[|parts| - 1]))
  }

  lemma {:induction false} RecordedSound(events: seq<Event>)
    ensures SoundStore(Recorded(events))
  {
    if events != [] {
      RecordedSound(events[..|events| - 1]);
      RecordSound(Recorded(events[..|events| - 1]), events[|events| - 1]);
    }
  }

  lemma {:induction false} RecordSound(s: Store, e: Event)
    requires SoundStore(s)
    ensures SoundStore(Record(s, e))
  {
  }

  lemma {:induction false} RecordMetrics(m: map<string, Usage>, e: Event)
    requires SoundMetrics(m)
    ensures RecordMetric(m, e) == MergeMetrics(m, RecordMetric(NoMetrics, e))
  {
    var one := RecordMetric(NoMetrics, e);
    var left, right := RecordMetric(m, e), MergeMetrics(m, one);
    UsagesAreMonoid();
    assert Sound(At(m, e.metric));
    AddIsMerge(At(m, e.metric), e.quantity, e.status);
    forall k
      ensures k in left <==> k in right
      ensures At(left, k) == At(right, k)
    {
      MergeAt(Merge, Zero, Sound, m, one, k);
    }
    assert left.Keys == right.Keys;
    SameMap(left, right, Zero);
  }

  /** Recording one event is merging the store of that one event. */
  lemma {:induction false} RecordIsMerge(s: Store, e: Event)
    requires SoundStore(s)
    ensures Record(s, e) == MergeStores(s, Record(map[], e)) && SoundStore(Record(map[], e))
  {
    RecordSound(map[], e);
    if Attributed(e) {
      var one := Record(map[], e);
      var left, right := Record(s, e), MergeStores(s, one);
      MetricsAreMonoid();
      assert SoundMetrics(Metrics(s, e.tenant));
      RecordMetrics(Metrics(s, e.tenant), e);
      forall t
        ensures t in left <==> t in right
        ensures Metrics(left, t) == Metrics(right, t)
      {
        MergeAt(MergeMetrics, NoMetrics, SoundMetrics, s, one, t);
      }
      assert left.Keys == right.Keys;
      SameMap(left, right, NoMetrics);
    } else {
      MergeStoresEmpty(s);
    }
  }

  /** Two halves of a stream recorded apart and merged are the whole stream recorded. */
  lemma {:induction false} SplitMerges(a: seq<Event>, b: seq<Event>)
    ensures MergeStores(Recorded(a), Recorded(b)) == Recorded(a + b)
  {
    RecordedSound(a);
    if b == [] {
      assert a + b == a;
      MergeStoresEmpty(Recorded(a));
    } else {
      var front, e := b[..|b| - 1], b[|b| - 1];
      SplitMerges(a, front);
      RecordedSound(front);
      RecordedSound(a + front);
      RecordIsMerge(Recorded(front), e);
      RecordIsMerge(Recorded(a + front), e);
      MergeStoresAssociates(Recorded(a), Recorded(front), Record(map[], e));
      assert (a + b)[..|a + b| - 1] == a + front;
    }
  }

  lemma {:induction false} MoveToEnd(a: seq<Event>, e: Event, b: seq<Event>)
    ensures Recorded(a + [e] + b) == Recorded(a + b + [e])
  {
    RecordedSound(a);
    RecordedSound(b);
    RecordedSound([e]);
    SplitMerges(a, [e]);
    SplitMerges(a + [e], b);
    SplitMerges(a, b);
    SplitMerges(a + b, [e]);
    MergeStoresAssociates(Recorded(a), Recorded([e]), Recorded(b));
    MergeStoresCommutes(Recorded([e]), Recorded(b));
    MergeStoresAssociates(Recorded(a), Recorded(b), Recorded([e]));
  }

  lemma {:induction false} WithoutOne(x: seq<Event>, y: seq<Event>, e: Event, all: multiset<Event>)
    requires multiset(x) + multiset{e} == all == multiset(y) + multiset{e}
    ensures multiset(x) == multiset(y)
  {
    forall f
      ensures multiset(x)[f] == multiset(y)[f]
    {
      assert (multiset(x) + multiset{e})[f] == (multiset(y) + multiset{e})[f];
    }
  }

  /** What is recorded depends on which events arrived, not on their order. */
  lemma {:induction false} OrderIrrelevant(a: seq<Event>, b: seq<Event>)
    requires multiset(a) == multiset(b)
    ensures Recorded(a) == Recorded(b)
  {
    if a == [] {
      assert |b| == |multiset(b)|;
    } else {
      var front, e := a[..|a| - 1], a[|a| - 1];
      assert a == front + [e];
      assert e in multiset(b);
      var j :| 0 <= j < |b| && b[j] == e;
      var head, tail := b[..j], b[j + 1..];
      assert b == head + [e] + tail;
      WithoutOne(front, head + tail, e, multiset(b));
      OrderIrrelevant(front, head + tail);
      MoveToEnd(head, e, tail);
      assert (head + tail + [e])[..|head + tail + [e]| - 1] == head + tail;
    }
  }

  function Flat(parts: seq<seq<Event>>): seq<Event> {
    if parts == [] then [] else Flat(parts[..|parts| - 1]) + parts[|parts| - 1]
  }

  lemma {:induction false} MergeAllIsFlat(parts: seq<seq<Event>>)
    ensures MergeAll(parts) == Recorded(Flat(parts))
  {
    if parts != [] {
      MergeAllIsFlat(parts[..|parts| - 1]);
      SplitMerges(Flat(parts[..|parts| - 1]), parts[|parts| - 1]);
    }
  }

  /**
   However a stream is dealt out to partitions, in whatever order each records its share and
   the shares are merged, the merged usage is that of one store recording the whole stream.
   */
  lemma {:induction false} AnySplitAnyOrder(parts: seq<seq<Event>>, stream: seq<Event>)
    requires multiset(Flat(parts)) == multiset(stream)
    ensures MergeAll(parts) == Recorded(stream)
  {
    MergeAllIsFlat(parts);
    OrderIrrelevant(Flat(parts), stream);
  }

  // ----- What a recorded usage means -----

  /** The events of one tenant's metric, in order. */
  function Of(events: seq<Event>, tenant: string, metric: string): seq<Event> {
    if events == [] then []
    else
      var e := events[|events| - 1];
      Of(events[..|events| - 1], tenant, metric) + if e.tenant == tenant && e.metric == metric then [e] else []
  }

  function Quantity(events: seq<Event>): real {
    if events == [] then 0.0 else Quantity(events[..|events| - 1]) + events[|events| - 1].quantity
  }

  ghost predicate IsMax(events: seq<Event>, max: real) {
    && (forall i :: 0 <= i < |events| ==> events[i].quantity <= max)
    && max >= 0.0
    && (max == 0.0 || exists i :: 0 <= i < |events| && events[i].quantity == max)
  }

  ghost predicate Tells(u: Usage, events: seq<Event>) {
    u.events == |events| && u.quantity == Quantity(events) && IsMax(events, u.maxQuantity)
  }

  lemma {:induction false} AddTells(u: Usage, events: seq<Event>, e: Event)
    requires Tells(u, events)
    ensures Tells(Add(u, e.quantity, e.status), events + [e])
  {
  }

  /** A metric has an entry exactly when an event was attributed to it, and the entry counts, sums and maximises those events. */
  lemma {:induction false} RecordedTells(events: seq<Event>, tenant: string, metric: string)
    requires tenant != "" && metric != ""
    ensures metric in Metrics(Recorded(events), tenant) <==> Of(events, tenant, metric) != []
    ensures Tells(At(Metrics(Recorded(events), tenant), metric), Of(events, tenant, metric))
  {
    if events != [] {
      var front, e := events[..|events| - 1], events[|events| - 1];
      RecordedTells(front, tenant, metric);
      if e.tenant == tenant && e.metric == metric {
        AddTells(At(Metrics(Recorded(front), tenant), metric), Of(front, tenant, metric), e);
      } else {
        assert Of(events, tenant, metric) == Of(front, tenant, metric);
      }
    }
  }

  function WithStatus(events: seq<Event>, status: string): seq<Event> {
    if events == [] then []
    else
      var e := events[|events| - 1];
      WithStatus(events[..|events| - 1], status) + if e.status == status then [e] else []
  }

  /** The status's row counts and sums its events, and is there exactly when there are any. */
  ghost predicate RowTells(u: Usage, events: seq<Event>, status: string) {
    var some := WithStatus(events, status);
    (status in u.byStatus <==> some != []) && Row(u.byStatus, status) == StatusUsage(|some|, Quantity(some))
  }

  lemma {:induction false} AddRowTells(u: Usage, events: seq<Event>, e: Event, status: string)
    requires RowTells(u, events, status)
    ensures RowTells(Add(u, e.quantity, e.status), events + [e], status)
  {
    var some := WithStatus(events, status);
    assert (events + [e])[..|events|] == events;
    if e.status == status {
      assert WithStatus(events + [e], status) == some + [e];
      assert (some + [e])[..|some|] == some;
    } else {
      assert WithStatus(events + [e], status) == some;
    }
  }

  /** A metric's row for a status counts and sums exactly the events attributed to the metric with that status. */
  lemma {:induction false} StatusTells(events: seq<Event>, tenant: string, metric: string, status: string)
    requires tenant != "" && metric != ""
    ensures RowTells(At(Metrics(Recorded(events), tenant), metric), Of(events, tenant, metric), status)
  {
    if events != [] {
      var front, e := events[..|events| - 1], events[|events| - 1];
      StatusTells(front, tenant, metric, status);
      if e.tenant == tenant && e.metric == metric {
        AddRowTells(At(Metrics(Recorded(front), tenant), metric), Of(front, tenant, metric), e, status);
      } else {
        assert Of(events, tenant, metric) == Of(front, tenant, metric);
      }
    }
  }

  /** Nothing is recorded under an empty tenant or metric name. */
  lemma {:induction false} NamelessIgnored(events: seq<Event>, tenant: string)
    ensures "" !in Recorded(events) && "" !in Metrics(Recorded(events), tenant)
  {
    if events != [] {
      NamelessIgnored(events[..|events| - 1], tenant);
    }
  }

  // ----- The status rows add up -----

  ghost function RowSum(rows: map<string, StatusUsage>): StatusUsage {
    if rows == map[] then StatusUsage(0, 0.0)
    else
      var k :| k in rows;
      PlusRow(rows[k], RowSum(rows - {k}))
  }

  lemma {:induction false} Swap(a: StatusUsage, b: StatusUsage, c: StatusUsage)
    ensures PlusRow(a, PlusRow(b, c)) == PlusRow(b, PlusRow(a, c))
  {
  }

  lemma {:induction false} RowSumAny(rows: map<string, StatusUsage>, k: string)
    requires k in rows
    ensures RowSum(rows) == PlusRow(rows[k], RowSum(rows - {k}))
    decreases |rows|
  {
    var j :| j in rows && RowSum(rows) == PlusRow(rows[j], RowSum(rows - {j}));
    if j != k {
      RowSumAny(rows - {j}, k);
      RowSumAny(rows - {k}, j);
      assert rows - {j} - {k} == rows - {k} - {j};
      Swap(rows[j], rows[k], RowSum(rows - {j} - {k}));
    }
  }

  ghost predicate SumsTo(rows: map<string, StatusUsage>, sum: StatusUsage) {
    RowSum(rows) == sum
  }

  ghost predicate RowsAddUp(u: Usage) {
    SumsTo(u.byStatus, StatusUsage(u.events, u.quantity))
  }

  lemma {:induction false} RowGrows(rows: map<string, StatusUsage>, status: string, more: StatusUsage, sum: StatusUsage)
    requires SumsTo(rows, sum)
    ensures SumsTo(rows[status := PlusRow(Row(rows, status), more)], PlusRow(sum, more))
  {
    var new_ := rows[status := PlusRow(Row(rows, status), more)];
    RowSumAny(new_, status);
    if status in rows {
      RowSumAny(rows, status);
      assert new_ - {status} == rows - {status};
    } else {
      assert new_ - {status} == rows;
    }
  }

  lemma {:induction false} AddKeepsRows(u: Usage, quantity: real, status: string)
    requires RowsAddUp(u)
    ensures RowsAddUp(Add(u, quantity, status))
  {
    RowGrows(u.byStatus, status, StatusUsage(1, quantity), StatusUsage(u.events, u.quantity));
  }

  lemma {:induction false} Regroup(a: StatusUsage, b: StatusUsage, c: StatusUsage)
    ensures PlusRow(PlusRow(a, b), c) == PlusRow(a, PlusRow(c, b))
  {
  }

  /** Row by row, `rows` merges `a` and `b`. */
  ghost predicate MergedRows(a: map<string, StatusUsage>, b: map<string, StatusUsage>, rows: map<string, StatusUsage>) {
    rows.Keys == a.Keys + b.Keys && forall k :: k in rows ==> rows[k] == PlusRow(Row(a, k), Row(b, k))
  }

  lemma {:induction false} MergeRowsMerges(a: map<string, StatusUsage>, b: map<string, StatusUsage>)
    ensures MergedRows(a, b, MergeRows(a, b))
  {
  }

  /** Merging all of b but row k, and then row k. */
  lemma {:induction false} MergeOneRow(a: map<string, StatusUsage>, b: map<string, StatusUsage>, k: string, rows: map<string, StatusUsage>)
    returns (part: map<string, StatusUsage>)
    requires k in b && MergedRows(a, b, rows)
    ensures MergedRows(a, b - {k}, part) && rows == part[k := PlusRow(Row(part, k), b[k])]
  {
    part := if k in a then rows[k := a[k]] else rows - {k};
  }

  lemma {:induction false} MergeNoRows(a: map<string, StatusUsage>, rows: map<string, StatusUsage>)
    requires MergedRows(a, map[], rows)
    ensures rows == a
  {
  }

  lemma {:induction false} Without(rows: map<string, StatusUsage>, k: string, sum: StatusUsage) returns (rest: StatusUsage)
    requires k in rows && SumsTo(rows, sum)
    ensures SumsTo(rows - {k}, rest) && sum == PlusRow(rows[k], rest)
  {
    RowSumAny(rows, k);
    rest := RowSum(rows - {k});
  }

  /** Merging two usages' rows gives rows that sum to the two sums together. */
  lemma {:induction false} MergeSums(a: map<string, StatusUsage>, b: map<string, StatusUsage>, rows: map<string, StatusUsage>,
                                     x: StatusUsage, y: StatusUsage)
    requires MergedRows(a, b, rows) && SumsTo(a, x) && SumsTo(b, y)
    ensures SumsTo(rows, PlusRow(x, y))
    decreases |b|
  {
    if b == map[] {
      MergeNoRows(a, rows);
    } else {
      var k :| k in b;
      var part := MergeOneRow(a, b, k, rows);
      var rest := Without(b, k, y);
      MergeSums(a, b - {k}, part, x, rest);
      RowGrows(part, k, b[k], PlusRow(x, rest));
      Regroup(x, rest, b[k]);
    }
  }

  /** So in any merged result, split as one likes, each metric's status rows sum to its events and quantity. */
  lemma {:induction false} StatusRowsSum(parts: seq<seq<Event>>, tenant: string, metric: string)
    requires metric in Metrics(MergeAll(parts), tenant)
    ensures RowsAddUp(Metrics(MergeAll(parts), tenant)[metric])
  {
    MergeAllIsFlat(parts);
    RecordedRows(Flat(parts), tenant, metric);
  }

  lemma {:induction false} RecordedRows(events: seq<Event>, tenant: string, metric: string)
    ensures RowsAddUp(At(Metrics(Recorded(events), tenant), metric))
  {
    if events != [] {
      var front, e := events[..|events| - 1], events[|events| - 1];
      RecordedRows(front, tenant, metric);
      if Attributed(e) && e.tenant == tenant && e.metric == metric {
        AddKeepsRows(At(Metrics(Recorded(front), tenant), metric), e.quantity, e.status);
      }
    }
  }
}
