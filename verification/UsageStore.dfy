/**
 The usage store as the objects that hold it: usages with their own mutable status maps,
 updated in place by recording and merging. Objects carry, for the proofs only, the one
 place they belong to; a snapshot or a merge that shared a map with its source would have to
 put it in two places. The two levels of tenant and metric maps are one map by key.
 */
module UsageStore {

  import opened MapMerge
  import opened MetricUsage

  datatype Key = Key(tenant: string, metric: string)

  /** A status map. */
  class StatusMap {
    ghost const owner: UsageCell
    var rows: map<string, StatusUsage>

    constructor (ghost owner: UsageCell)
      ensures this.owner == owner && rows == map[]
    {
      this.owner := owner;
      rows := map[];
    }
  }

  class UsageCell {
    ghost const key: Key
    var events: nat
    var quantity: real
    var maxQuantity: real
    var byStatus: StatusMap?

    ghost predicate Valid()
      reads this
    {
      byStatus != null ==> byStatus.owner == this
    }

    ghost function Rows(): map<string, StatusUsage>
      reads this, byStatus
    {
      if byStatus == null then map[] else byStatus.rows
    }

    ghost function View(): Usage
      reads this, byStatus
    {
      Usage(events, quantity, maxQuantity, Rows())
    }

    constructor (ghost key: Key)
      ensures Valid() && this.key == key && View() == Zero && byStatus == null
    {
      this.key := key;
      events, quantity, maxQuantity, byStatus := 0, 0.0, 0.0, null;
    }

    method Add(q: real, status: string)
      requires Valid()
      modifies this, byStatus
      ensures Valid() && View() == MetricUsage.Add(old(View()), q, status)
      ensures byStatus != null && (byStatus == old(byStatus) || fresh(byStatus))
    {
      events := events + 1;
      quantity := quantity + q;
      if q > maxQuantity {
        maxQuantity := q;
      }
      if byStatus == null {
        byStatus := new StatusMap(this);
      }
      var row := if status in byStatus.rows then byStatus.rows[status] else StatusUsage(0, 0.0);
      byStatus.rows := byStatus.rows[status := StatusUsage(row.events + 1, row.quantity + q)];
    }

    /** Fold another usage in; its status map is read, never kept. */
    method MergeFrom(o: UsageCell)
      requires Valid() && o.Valid() && o != this
      modifies this, byStatus
      ensures Valid() && View() == Merge(old(View()), o.View())
      ensures byStatus == old(byStatus) || fresh(byStatus)
    {
      MergeStatus(o);
      events := events + o.events;
      quantity := quantity + o.quantity;
      if o.maxQuantity > maxQuantity {
        maxQuantity := o.maxQuantity;
      }
    }

    method MergeStatus(o: UsageCell)
      requires Valid() && o.Valid() && o != this
      modifies this`byStatus, byStatus
      ensures Valid() && Rows() == MergeRows(old(Rows()), o.Rows())
      ensures byStatus == old(byStatus) || fresh(byStatus)
    {
      if o.byStatus == null || |o.byStatus.rows| == 0 {
        assert o.Rows() == map[];
        MergeRowsMerges(Rows(), map[]);
        MergeNoRows(Rows(), MergeRows(Rows(), map[]));
        return;
      }
      if byStatus == null {
        byStatus := new StatusMap(this);
      }
      MergeRowsInto(byStatus, o.byStatus);
    }
  }

  method MergeRowsInto(dst: StatusMap, src: StatusMap)
    requires dst != src
    modifies dst
    ensures dst.rows == MergeRows(old(dst.rows), src.rows)
  {
    ghost var mine := dst.rows;
    var todo := src.rows.Keys;
    while todo != {}
      invariant todo <= src.rows.Keys && src.rows == old(src.rows)
      invariant dst.rows.Keys == mine.Keys + (src.rows.Keys - todo)
      invariant forall k :: k in dst.rows ==> dst.rows[k] == PartRow(mine, src.rows, todo, k)
    {
      var k :| k in todo;
      var cur := if k in dst.rows then dst.rows[k] else StatusUsage(0, 0.0);
      var row := src.rows[k];
      dst.rows := dst.rows[k := StatusUsage(cur.events + row.events, cur.quantity + row.quantity)];
      todo := todo - {k};
    }
    PartRowsDone(mine, src.rows, dst.rows);
  }

  /** Row k after merging every source row but those still to do. */
  function PartRow(mine: map<string, StatusUsage>, theirs: map<string, StatusUsage>, todo: set<string>, k: string): StatusUsage {
    if k in theirs && k !in todo then PlusRow(Row(mine, k), theirs[k]) else Row(mine, k)
  }

  lemma {:induction false} PartRowsDone(mine: map<string, StatusUsage>, theirs: map<string, StatusUsage>, rows: map<string, StatusUsage>)
    requires rows.Keys == mine.Keys + theirs.Keys
    requires forall k :: k in rows ==> rows[k] == PartRow(mine, theirs, {}, k)
    ensures rows == MergeRows(mine, theirs)
  {
  }

  /** The store: one usage object per tenant and metric, each with its own status map. `owned` lists all of them. */
  class MetricUsageStore {
    var cells: map<Key, UsageCell>
    ghost var owned: set<object>
    ghost var contents: Store

    constructor ()
      ensures Valid() && contents == map[] && cells == map[] && owned == {}
    {
      cells, owned, contents := map[], {}, map[];
    }

    ghost predicate Owns()
      reads this`cells, this`owned, owned
    {
      && this !in owned
      && forall k :: k in cells ==> cells[k] in owned && OwnCell(cells[k], k)
    }

    ghost predicate OwnCell(cell: UsageCell, k: Key)
      reads this`owned, cell
    {
      cell.key == k && cell.Valid() && (cell.byStatus != null ==> cell.byStatus in owned)
    }

    /** What the cells hold, by key. */
    ghost function Held(): map<Key, Usage>
      requires Owns()
      reads this`cells, this`owned, owned
    {
      map k | k in cells :: cells[k].View()
    }

    ghost predicate Valid()
      reads this, owned
    {
      Owns() && SoundStore(contents) && Flattens(Held(), contents)
    }

    /** The key's usage object, created empty if there is none. */
    method Find(k: Key) returns (cell: UsageCell)
      requires Owns()
      modifies this`cells, this`owned
      ensures Owns() && k in cells && cells[k] == cell
      ensures Held() == old(Held())[k := Get(old(Held()), k, Zero)]
      ensures old(owned) <= owned && fresh(owned - old(owned))
    {
      if k in cells {
        cell := cells[k];
        Unchanged(Held(), k);
        return;
      }
      cell := Open(k);
    }

    /** A new, empty usage object under a key that has none. */
    method Open(k: Key) returns (cell: UsageCell)
      requires Owns() && k !in cells
      modifies this`cells, this`owned
      ensures Owns() && k in cells && cells[k] == cell && Held() == old(Held())[k := Zero]
      ensures old(owned) <= owned && fresh(owned - old(owned))
    {
      ghost var before := Held();
      ghost var was := cells;
      cell := new UsageCell(k);
      cells, owned := cells[k := cell], owned + {cell};
      assert forall j :: j in was ==> cells[j] == was[j];
      HeldIs(k, before, Zero);
    }

    lemma {:induction false} OthersApart(k: Key)
      requires Owns() && k in cells
      ensures forall j :: j in cells && j != k ==> cells[j] != cells[k]
      ensures forall j :: j in cells && j != k && cells[j].byStatus != null ==> cells[j].byStatus != cells[k].byStatus
    {
    }

    lemma {:induction false} HeldIs(k: Key, before: map<Key, Usage>, now: Usage)
      requires Owns() && cells.Keys == before.Keys + {k} && cells[k].View() == now
      requires forall j :: j in cells && j != k ==> cells[j].View() == before[j]
      ensures Held() == before[k := now]
    {
    }

    method AddAt(k: Key, q: real, status: string)
      requires Owns() && k in cells
      modifies this`owned, cells[k], cells[k].byStatus
      ensures Owns() && old(owned) <= owned && fresh(owned - old(owned))
      ensures Held() == old(Held())[k := Add(old(Held())[k], q, status)]
    {
      ghost var before := Held();
      OthersApart(k);
      cells[k].Add(q, status);
      owned := owned + {cells[k].byStatus};
      HeldIs(k, before, Add(before[k], q, status));
    }

    method MergeAt(k: Key, o: UsageCell)
      requires Owns() && k in cells && o.Valid() && o !in owned && o.byStatus !in owned
      modifies this`owned, cells[k], cells[k].byStatus
      ensures Owns() && old(owned) <= owned && fresh(owned - old(owned))
      ensures Held() == old(Held())[k := Merge(old(Held())[k], old(o.View()))]
    {
      ghost var before := Held();
      ghost var theirs := o.View();
      OthersApart(k);
      cells[k].MergeFrom(o);
      if cells[k].byStatus != null {
        owned := owned + {cells[k].byStatus};
      }
      HeldIs(k, before, Merge(before[k], theirs));
    }

    /** Record one event under a key; every other key keeps what it held. */
    method AddTo(k: Key, q: real, status: string)
      requires Owns()
      modifies this`cells, this`owned, owned
      ensures Owns() && Held() == old(Held())[k := Add(Get(old(Held()), k, Zero), q, status)]
      ensures fresh(owned - old(owned))
    {
      ghost var before := Held();
      var cell := Find(k);
      AddAt(k, q, status);
      Overwrite(before, k, Get(before, k, Zero), Add(Get(before, k, Zero), q, status));
    }

    method Record(e: Event)
      requires Valid()
      modifies this, owned
      ensures Valid() && contents == MetricUsage.Record(old(contents), e)
      ensures fresh(owned - old(owned))
    {
      if e.tenant == "" || e.metric == "" {
        return;
      }
      RecordFlattens(Held(), contents, e);
      AddTo(Key(e.tenant, e.metric), e.quantity, e.status);
      contents := MetricUsage.Record(contents, e);
    }

    /** Merge one of another store's usages. */
    method MergeNext(k: Key, o: UsageCell, ghost theirs: Usage)
      requires Owns() && o.Valid() && o !in owned && o.byStatus !in owned && o.View() == theirs
      modifies this`cells, this`owned, owned
      ensures Owns() && Held() == old(Held())[k := Merge(Get(old(Held()), k, Zero), theirs)]
      ensures fresh(owned - old(owned))
    {
      ghost var before := Held();
      var cell := Find(k);
      MergeAt(k, o);
      Overwrite(before, k, Get(before, k, Zero), Merge(Get(before, k, Zero), theirs));
    }

    /** Merge every usage of another store, which is elsewhere and so stays as it was. */
    method MergeCells(src: MetricUsageStore)
      requires Owns() && src.Owns() && src != this
      requires owned !! src.owned && src !in owned && this !in src.owned
      modifies this`cells, this`owned, owned
      ensures Owns() && PartMerged(old(Held()), old(src.Held()), {}, Held())
      ensures fresh(owned - old(owned)) && unchanged(src, src.owned)
    {
      ghost var mine := Held();
      ghost var theirs := src.Held();
      var todo := src.cells.Keys;
      while todo != {}
        invariant todo <= src.cells.Keys && unchanged(src, src.owned)
        invariant Owns() && fresh(owned - old(owned))
        invariant PartMerged(mine, theirs, todo, Held())
      {
        var k :| k in todo;
        MergeOneMore(mine, theirs, todo, Held(), k);
        MergeNext(k, src.cells[k], theirs[k]);
        todo := todo - {k};
      }
    }

    /** Merge another store into this one. The source keeps all it had, and nothing of it becomes part of this store. */
    method MergeFrom(src: MetricUsageStore)
      requires Valid() && src.Valid() && src != this
      requires owned !! src.owned && src !in owned && this !in src.owned
      modifies this, owned
      ensures Valid() && contents == MergeStores(old(contents), old(src.contents))
      ensures fresh(owned - old(owned)) && owned !! src.owned
      ensures unchanged(src, src.owned)
    {
      ghost var mine := Held();
      ghost var theirs := src.Held();
      MergeCells(src);
      MergeFlattens(mine, contents, theirs, src.contents, Held());
      contents := MergeStores(contents, src.contents);
    }

    /** A deep copy: the same usage, in objects and status maps of its own. */
    method Snapshot() returns (copy: MetricUsageStore)
      requires Valid()
      ensures copy.Valid() && copy.contents == contents
      ensures fresh(copy) && fresh(copy.owned)
    {
      copy := new MetricUsageStore();
      MergeStoresEmpty(contents);
      copy.MergeFrom(this);
    }
  }

  // ----- Stores by key -----

  lemma {:induction false} Unchanged(m: map<Key, Usage>, k: Key)
    requires k in m
    ensures m == m[k := Get(m, k, Zero)]
  {
  }

  lemma {:induction false} Overwrite(m: map<Key, Usage>, k: Key, first: Usage, second: Usage)
    ensures m[k := first][k := second] == m[k := second]
  {
  }

  function Entry(s: Store, k: Key): Usage {
    At(Metrics(s, k.tenant), k.metric)
  }

  predicate Has(s: Store, k: Key) {
    k.metric in Metrics(s, k.tenant)
  }

  /** `held` is the store `s`, keyed by tenant and metric together. */
  ghost predicate Flattens(held: map<Key, Usage>, s: Store) {
    forall k :: (k in held <==> Has(s, k)) && Get(held, k, Zero) == Entry(s, k)
  }

  lemma {:induction false} RecordFlattens(held: map<Key, Usage>, s: Store, e: Event)
    requires Flattens(held, s) && SoundStore(s) && Attributed(e)
    ensures var k := Key(e.tenant, e.metric);
            Flattens(held[k := Add(Get(held, k, Zero), e.quantity, e.status)], MetricUsage.Record(s, e))
    ensures SoundStore(MetricUsage.Record(s, e))
  {
    RecordSound(s, e);
    RecordEntries(s, e, MetricUsage.Record(s, e));
  }

  lemma {:induction false} RecordEntries(s: Store, e: Event, r: Store)
    requires Attributed(e) && r == MetricUsage.Record(s, e)
    ensures forall k :: Has(r, k) <==> Has(s, k) || k == Key(e.tenant, e.metric)
    ensures forall k :: Entry(r, k) == if k == Key(e.tenant, e.metric) then Add(Entry(s, k), e.quantity, e.status) else Entry(s, k)
  {
  }

  /** `now` is `mine` with every entry of `theirs` merged in but those still to do. */
  ghost predicate PartMerged(mine: map<Key, Usage>, theirs: map<Key, Usage>, todo: set<Key>, now: map<Key, Usage>) {
    && now.Keys == mine.Keys + (theirs.Keys - todo)
    && forall k :: k in now ==> now[k] == if k in theirs && k !in todo then Merge(Get(mine, k, Zero), theirs[k]) else Get(mine, k, Zero)
  }

  lemma {:induction false} MergeOneMore(mine: map<Key, Usage>, theirs: map<Key, Usage>, todo: set<Key>, now: map<Key, Usage>, k: Key)
    requires PartMerged(mine, theirs, todo, now) && todo <= theirs.Keys && k in todo
    ensures PartMerged(mine, theirs, todo - {k}, now[k := Merge(Get(now, k, Zero), theirs[k])])
  {
  }

  lemma {:induction false} MergedEntry(s: Store, t: Store, r: Store, k: Key)
    requires r == MergeStores(s, t)
    ensures Has(r, k) <==> Has(s, k) || Has(t, k)
    ensures Entry(r, k) == if Has(t, k) then Merge(Entry(s, k), Entry(t, k)) else Entry(s, k)
  {
  }

  lemma {:induction false} MergeFlattens(mine: map<Key, Usage>, s: Store, theirs: map<Key, Usage>, t: Store, now: map<Key, Usage>)
    requires Flattens(mine, s) && Flattens(theirs, t) && SoundStore(s) && SoundStore(t)
    requires PartMerged(mine, theirs, {}, now)
    ensures Flattens(now, MergeStores(s, t)) && SoundStore(MergeStores(s, t))
  {
    var r := MergeStores(s, t);
    MergedSound(s, t);
    forall k
      ensures (k in now <==> Has(r, k)) && Get(now, k, Zero) == Entry(r, k)
    {
      MergedEntry(s, t, r, k);
    }
  }
}
