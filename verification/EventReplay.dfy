/**
 Rebuilding event-owned projections from retained history: paged, committed row by row,
 and resumable after a failure at any commit.
 */
module EventReplay {
  import opened Orderings
  import opened Domain
  import opened Selections

  type Table = map<WorldKey, string>

  datatype Entry = Entry(key: WorldKey, payload: string)

  /** What a deletion names; the store refuses kinds it does not know. */
  datatype Kind = Device | ResourceSite | LocationEvent | IncomingObject | Trade | Unsupported(name: string)

  /** An item of one kind; reconciliation work is queued under the same name. */
  datatype Item = Item(kind: Kind, key: WorldKey)

  datatype Deletion = Deletion(item: Item, evidence: string)

  datatype Work = Work(item: Item, payload: string)

  datatype Batch = Batch(
    devices: seq<Entry>, replicants: seq<Entry>, locations: seq<Entry>, stars: seq<Entry>,
    resourceSites: seq<Entry>, locationEvents: seq<Entry>, incomingObjects: seq<Entry>,
    messages: seq<Entry>, blueprints: seq<Entry>, trades: seq<Entry>, simulations: seq<Entry>,
    deletions: seq<Deletion>, reconciliation: seq<Work>)

  const EMPTY := Batch([], [], [], [], [], [], [], [], [], [], [], [], [])

  /** Projections that observations and forward-only events own. */
  datatype Foreign = Foreign(
    devices: Table, replicants: Table, locations: Table, stars: Table,
    messages: Table, blueprints: Table, trades: Table, simulations: Table)

  /** Projections that events own, with the marks deletions leave. */
  datatype Owned = Owned(
    resourceSites: Table, locationEvents: Table, incomingObjects: Table,
    tombstones: map<Item, string>, reconciliation: map<Item, string>)

  datatype Tables = Tables(foreign: Foreign, owned: Owned)

  // ----- one batch -----------------------------------------------------------------

  function Upsert(table: Table, entries: seq<Entry>): Table {
    if entries == [] then table
    else Upsert(table, entries[..|entries| - 1])[entries[|entries| - 1].key := entries[|entries| - 1].payload]
  }

  function Queue(queue: map<Item, string>, work: seq<Work>): map<Item, string> {
    if work == [] then queue
    else Queue(queue, work[..|work| - 1])[work[|work| - 1].item := work[|work| - 1].payload]
  }

  predicate IsOwnedKind(kind: Kind) {
    kind.ResourceSite? || kind.LocationEvent? || kind.IncomingObject?
  }

  /** The row goes, a tombstone stays, queued work for the item is dropped. */
  function Delete(t: Tables, d: Deletion): Option<Tables> {
    var key := d.item.key;
    var o := t.owned.(tombstones := t.owned.tombstones[d.item := d.evidence],
                      reconciliation := t.owned.reconciliation - {d.item});
    match d.item.kind
    case Device => Some(Tables(t.foreign.(devices := t.foreign.devices - {key}), o))
    case ResourceSite => Some(Tables(t.foreign, o.(resourceSites := o.resourceSites - {key})))
    case LocationEvent => Some(Tables(t.foreign, o.(locationEvents := o.locationEvents - {key})))
    case IncomingObject => Some(Tables(t.foreign, o.(incomingObjects := o.incomingObjects - {key})))
    case Trade => Some(Tables(t.foreign.(trades := t.foreign.trades - {key}), o))
    case Unsupported(_) => None
  }

  function DeleteAll(t: Tables, ds: seq<Deletion>): Option<Tables> {
    if ds == [] then Some(t)
    else match DeleteAll(t, ds[..|ds| - 1])
         case None => None
         case Some(t') => Delete(t', ds[|ds| - 1])
  }

  /** Upserts kind by kind, then deletions, then reconciliation work. */
  function Persist(t: Tables, b: Batch): Option<Tables> {
    var f := Foreign(Upsert(t.foreign.devices, b.devices), Upsert(t.foreign.replicants, b.replicants),
                     Upsert(t.foreign.locations, b.locations), Upsert(t.foreign.stars, b.stars),
                     Upsert(t.foreign.messages, b.messages), Upsert(t.foreign.blueprints, b.blueprints),
                     Upsert(t.foreign.trades, b.trades), Upsert(t.foreign.simulations, b.simulations));
    var o := t.owned.(resourceSites := Upsert(t.owned.resourceSites, b.resourceSites),
                      locationEvents := Upsert(t.owned.locationEvents, b.locationEvents),
                      incomingObjects := Upsert(t.owned.incomingObjects, b.incomingObjects));
    match DeleteAll(Tables(f, o), b.deletions)
    case None => None
    case Some(t') =>
      Some(Tables(t'.foreign, t'.owned.(reconciliation := Queue(t'.owned.reconciliation, b.reconciliation))))
  }

  function RetainOwned(ds: seq<Deletion>): (r: seq<Deletion>)
    ensures forall i :: 0 <= i < |r| ==> IsOwnedKind(r[i].item.kind)
  {
    if ds == [] then []
    else RetainOwned(ds[..|ds| - 1]) + if IsOwnedKind(ds[|ds| - 1].item.kind) then [ds[|ds| - 1]] else []
  }

  /** What a replay keeps of a reducer's batch. */
  function OwnedBatch(b: Batch): Batch {
    b.(devices := [], replicants := [], locations := [], stars := [], messages := [], blueprints := [],
       trades := [], simulations := [], reconciliation := [], deletions := RetainOwned(b.deletions))
  }

  // ----- what a batch does, written out --------------------------------------------

  /** The last of the entries for a key. */
  ghost predicate LastFor(entries: seq<Entry>, key: WorldKey, i: nat) {
    i < |entries| && entries[i].key == key && forall j :: i < j < |entries| ==> entries[j].key != key
  }

  ghost predicate Mentions(entries: seq<Entry>, key: WorldKey) {
    exists i :: 0 <= i < |entries| && entries[i].key == key
  }

  /** A mentioned key holds its last payload; every other key stays as it was. */
  lemma {:induction false} UpsertWritten(table: Table, entries: seq<Entry>, key: WorldKey, i: nat)
    ensures LastFor(entries, key, i) ==>
              key in Upsert(table, entries) && Upsert(table, entries)[key] == entries[i].payload
    ensures !Mentions(entries, key) ==>
              (key in Upsert(table, entries) <==> key in table)
              && (key in table ==> Upsert(table, entries)[key] == table[key])
  {
    if entries != [] {
      var rest, last := entries[..|entries| - 1], entries[|entries| - 1];
      UpsertWritten(table, rest, key, i);
      if last.key != key {
        assert Mentions(rest, key) ==> Mentions(entries, key) by {
          if j :| 0 <= j < |rest| && rest[j].key == key { assert entries[j].key == key; }
        }
        assert LastFor(entries, key, i) ==> LastFor(rest, key, i);
      } else {
        assert Mentions(entries, key) && (LastFor(entries, key, i) ==> i == |entries| - 1);
      }
    }
  }

  /** The last work for an item. */
  ghost predicate LastWork(work: seq<Work>, item: Item, i: nat) {
    i < |work| && work[i].item == item && forall j :: i < j < |work| ==> work[j].item != item
  }

  lemma {:induction false} QueueWritten(queue: map<Item, string>, work: seq<Work>, item: Item, i: nat)
    ensures LastWork(work, item, i) ==> item in Queue(queue, work) && Queue(queue, work)[item] == work[i].payload
    ensures (forall j :: 0 <= j < |work| ==> work[j].item != item) ==>
              (item in Queue(queue, work) <==> item in queue)
              && (item in queue ==> Queue(queue, work)[item] == queue[item])
  {
    if work != [] {
      var rest, last := work[..|work| - 1], work[|work| - 1];
      QueueWritten(queue, rest, item, i);
      if last.item != item {
        assert LastWork(work, item, i) ==> LastWork(rest, item, i);
        assert forall j :: 0 <= j < |rest| ==> rest[j] == work[j];
      } else {
        assert work[|work| - 1].item == item && (LastWork(work, item, i) ==> i == |work| - 1);
      }
    }
  }

  /** The table of a kind. */
  ghost function TableOf(t: Tables, kind: Kind): Table {
    match kind
    case Device => t.foreign.devices
    case ResourceSite => t.owned.resourceSites
    case LocationEvent => t.owned.locationEvents
    case IncomingObject => t.owned.incomingObjects
    case Trade => t.foreign.trades
    case Unsupported(_) => map[]
  }

  ghost predicate Deletes(ds: seq<Deletion>, item: Item) { exists i :: 0 <= i < |ds| && ds[i].item == item }

  ghost predicate LastDeletion(ds: seq<Deletion>, item: Item, i: nat) {
    i < |ds| && ds[i].item == item && forall j :: i < j < |ds| ==> ds[j].item != item
  }

  /** The evidence of the last deletion of an item. */
  ghost function Evidence(ds: seq<Deletion>, item: Item): Option<string> {
    if ds == [] then None
    else if ds[|ds| - 1].item == item then Some(ds[|ds| - 1].evidence)
    else Evidence(ds[..|ds| - 1], item)
  }

  lemma {:induction false} EvidenceWritten(ds: seq<Deletion>, item: Item, i: nat)
    ensures Evidence(ds, item).Some? <==> Deletes(ds, item)
    ensures LastDeletion(ds, item, i) ==> Evidence(ds, item) == Some(ds[i].evidence)
  {
    if ds != [] {
      var rest, last := ds[..|ds| - 1], ds[|ds| - 1];
      EvidenceWritten(rest, item, i);
      if last.item == item {
        assert Deletes(ds, item) && (LastDeletion(ds, item, i) ==> i == |ds| - 1);
      } else {
        assert Deletes(rest, item) ==> Deletes(ds, item) by {
          if j :| 0 <= j < |rest| && rest[j].item == item { assert ds[j].item == item; }
        }
        assert LastDeletion(ds, item, i) ==> LastDeletion(rest, item, i);
      }
    }
  }

  /** A deleted row is gone and leaves its evidence but no queued work; another row stays as it was. */
  ghost predicate DeletedIs(t: Tables, t': Tables, evidence: Option<string>, item: Item) {
    if evidence.Some? then
      && item.key !in TableOf(t', item.kind) && item !in t'.owned.reconciliation
      && item in t'.owned.tombstones && t'.owned.tombstones[item] == evidence.value
    else
      && SameAt(TableOf(t, item.kind), TableOf(t', item.kind), item.key)
      && SameAt(t.owned.reconciliation, t'.owned.reconciliation, item)
      && SameAt(t.owned.tombstones, t'.owned.tombstones, item)
  }

  ghost predicate SameAt<K(!new), V(!new)>(a: map<K, V>, b: map<K, V>, k: K) {
    (k in a <==> k in b) && (k in a ==> a[k] == b[k])
  }

  lemma DeleteOne(t: Tables, d: Deletion, item: Item)
    requires !d.item.kind.Unsupported?
    ensures Delete(t, d).Some?
    ensures DeletedIs(t, Delete(t, d).value, if d.item == item then Some(d.evidence) else None, item)
  {
  }

  lemma {:induction false} DeletionsSucceed(t: Tables, ds: seq<Deletion>)
    ensures DeleteAll(t, ds).Some? <==> forall i :: 0 <= i < |ds| ==> !ds[i].item.kind.Unsupported?
  {
    if ds != [] {
      DeletionsSucceed(t, ds[..|ds| - 1]);
    }
  }

  /** Each deletion does what it says, and the last one of an item decides. */
  lemma {:induction false} DeletionsWritten(t: Tables, ds: seq<Deletion>, item: Item)
    requires DeleteAll(t, ds).Some?
    ensures DeletedIs(t, DeleteAll(t, ds).value, Evidence(ds, item), item)
  {
    if ds != [] {
      DeletionsWritten(t, ds[..|ds| - 1], item);
      DeleteOne(DeleteAll(t, ds[..|ds| - 1]).value, ds[|ds| - 1], item);
    }
  }

  /** Of the foreign tables only those of devices and trades may differ. */
  ghost predicate Spares(f: Foreign, g: Foreign) { g == f.(devices := g.devices, trades := g.trades) }

  lemma DeleteSpares(t: Tables, d: Deletion)
    requires Delete(t, d).Some?
    ensures Spares(t.foreign, Delete(t, d).value.foreign)
  {
  }

  /** Deletions touch no table but those of the kinds they may name. */
  lemma {:induction false} DeletionsSpare(t: Tables, ds: seq<Deletion>)
    requires DeleteAll(t, ds).Some?
    ensures Spares(t.foreign, DeleteAll(t, ds).value.foreign)
  {
    if ds != [] {
      DeletionsSpare(t, ds[..|ds| - 1]);
      DeleteSpares(DeleteAll(t, ds[..|ds| - 1]).value, ds[|ds| - 1]);
    }
  }

  /** The tables with every entry of a batch stored, before its deletions. */
  ghost predicate Stores(t: Tables, b: Batch, m: Tables) {
    var f, g := t.foreign, m.foreign;
    && g.devices == Upsert(f.devices, b.devices) && g.replicants == Upsert(f.replicants, b.replicants)
    && g.locations == Upsert(f.locations, b.locations) && g.stars == Upsert(f.stars, b.stars)
    && g.messages == Upsert(f.messages, b.messages) && g.blueprints == Upsert(f.blueprints, b.blueprints)
    && g.trades == Upsert(f.trades, b.trades) && g.simulations == Upsert(f.simulations, b.simulations)
    && m.owned.resourceSites == Upsert(t.owned.resourceSites, b.resourceSites)
    && m.owned.locationEvents == Upsert(t.owned.locationEvents, b.locationEvents)
    && m.owned.incomingObjects == Upsert(t.owned.incomingObjects, b.incomingObjects)
    && m.owned.tombstones == t.owned.tombstones && m.owned.reconciliation == t.owned.reconciliation
  }

  /**
   A whole batch: it is stored exactly when it deletes no unsupported kind; then its entries
   are stored, what it deletes is gone, and its work is queued last.
   */
  lemma PersistWritten(t: Tables, b: Batch, item: Item) returns (m: Tables)
    ensures Persist(t, b).Some? <==> forall i :: 0 <= i < |b.deletions| ==> !b.deletions[i].item.kind.Unsupported?
    ensures Stores(t, b, m)
    ensures Persist(t, b).Some? ==>
              var t' := Persist(t, b).value;
              && Spares(m.foreign, t'.foreign)
              && (exists q :: t'.owned.reconciliation == Queue(q, b.reconciliation)
                              && DeletedIs(m, Tables(t'.foreign, t'.owned.(reconciliation := q)),
                                           Evidence(b.deletions, item), item))
  {
    var f := Foreign(Upsert(t.foreign.devices, b.devices), Upsert(t.foreign.replicants, b.replicants),
                     Upsert(t.foreign.locations, b.locations), Upsert(t.foreign.stars, b.stars),
                     Upsert(t.foreign.messages, b.messages), Upsert(t.foreign.blueprints, b.blueprints),
                     Upsert(t.foreign.trades, b.trades), Upsert(t.foreign.simulations, b.simulations));
    m := Tables(f, t.owned.(resourceSites := Upsert(t.owned.resourceSites, b.resourceSites),
                            locationEvents := Upsert(t.owned.locationEvents, b.locationEvents),
                            incomingObjects := Upsert(t.owned.incomingObjects, b.incomingObjects)));
    DeletionsSucceed(m, b.deletions);
    if DeleteAll(m, b.deletions).Some? {
      DeletionsSpare(m, b.deletions);
      DeletionsWritten(m, b.deletions, item);
      var gone, t' := DeleteAll(m, b.deletions).value, Persist(t, b).value;
      assert Tables(t'.foreign, t'.owned.(reconciliation := gone.owned.reconciliation)) == gone;
    }
  }

  ghost function KeepOwned(d: Deletion): Option<Deletion> {
    if d.item.kind.ResourceSite? || d.item.kind.LocationEvent? || d.item.kind.IncomingObject? then Some(d) else None
  }

  /** Every deletion of a resource site, location event or incoming object is kept, in order, and no other. */
  lemma {:induction false} RetainWritten(ds: seq<Deletion>) returns (at: seq<nat>)
    ensures Picks(ds, KeepOwned, RetainOwned(ds), at)
  {
    if ds == [] {
      at := [];
    } else {
      var rest, last := ds[..|ds| - 1], ds[|ds| - 1];
      var before := RetainWritten(rest);
      at := PicksNext(rest, KeepOwned, RetainOwned(rest), before, last);
      assert rest + [last] == ds;
    }
  }

  /** The tables of the batch's owned kinds. */
  ghost function EntriesOf(b: Batch, kind: Kind): seq<Entry> {
    match kind
    case ResourceSite => b.resourceSites
    case LocationEvent => b.locationEvents
    case IncomingObject => b.incomingObjects
    case _ => []
  }

  /**
   What replaying a batch does to one owned item: a deletion in the batch removes it, however
   often it is also written; otherwise its last entry is stored; otherwise it stays.
   */
  lemma OwnedBatchWritten(t: Tables, b: Batch, item: Item, i: nat)
    requires KeepOwned(Deletion(item, "")).Some?
    ensures Persist(t, OwnedBatch(b)).Some?
    ensures var a, t' := TableOf(t, item.kind), Persist(t, OwnedBatch(b)).value;
            if Deletes(b.deletions, item) then item.key !in TableOf(t', item.kind) && item in t'.owned.tombstones
            else
              && (!Mentions(EntriesOf(b, item.kind), item.key) ==> SameAt(a, TableOf(t', item.kind), item.key))
              && (LastFor(EntriesOf(b, item.kind), item.key, i) ==>
                    && item.key in TableOf(t', item.kind)
                    && TableOf(t', item.kind)[item.key] == EntriesOf(b, item.kind)[i].payload)
              && SameAt(t.owned.tombstones, t'.owned.tombstones, item)
              && SameAt(t.owned.reconciliation, t'.owned.reconciliation, item)
  {
    OwnedBatchStaysInside(t, b);
    var o := t.owned.(resourceSites := Upsert(t.owned.resourceSites, b.resourceSites),
                      locationEvents := Upsert(t.owned.locationEvents, b.locationEvents),
                      incomingObjects := Upsert(t.owned.incomingObjects, b.incomingObjects));
    var m := Tables(t.foreign, o);
    UpsertWritten(TableOf(t, item.kind), EntriesOf(b, item.kind), item.key, i);
    OwnedDeletions(m, RetainOwned(b.deletions));
    DeletionsWritten(m, RetainOwned(b.deletions), item);
    EvidenceWritten(RetainOwned(b.deletions), item, 0);
    SameDeletions(b.deletions, item);
    assert Persist(t, OwnedBatch(b)).value.owned.(reconciliation := map[])
        == DeleteAll(m, RetainOwned(b.deletions)).value.owned.(reconciliation := map[]);
  }

  lemma SameDeletions(ds: seq<Deletion>, item: Item)
    requires KeepOwned(Deletion(item, "")).Some?
    ensures Deletes(RetainOwned(ds), item) <==> Deletes(ds, item)
  {
    var at := RetainWritten(ds);
    var kept := RetainOwned(ds);
    if i :| 0 <= i < |ds| && ds[i].item == item {
      PicksMembers(ds, KeepOwned, kept, at, ds[i]);
      assert KeepOwned(ds[i]) == Some(ds[i]);
      var j :| 0 <= j < |kept| && kept[j] == ds[i];
      assert kept[j].item == item;
    }
    if j :| 0 <= j < |kept| && kept[j].item == item {
      assert ComesFrom(ds, KeepOwned, kept, at, j);
      assert ds[at[j]].item == item;
    }
  }

  lemma {:induction false} OwnedDeletions(t: Tables, ds: seq<Deletion>)
    requires forall i :: 0 <= i < |ds| ==> IsOwnedKind(ds[i].item.kind)
    ensures DeleteAll(t, ds).Some? && DeleteAll(t, ds).value.foreign == t.foreign
  {
    if ds != [] {
      OwnedDeletions(t, ds[..|ds| - 1]);
    }
  }

  /** An owned batch always persists and leaves every foreign projection as it was. */
  lemma OwnedBatchStaysInside(t: Tables, b: Batch)
    ensures Persist(t, OwnedBatch(b)).Some? && Persist(t, OwnedBatch(b)).value.foreign == t.foreign
  {
    var o := t.owned.(resourceSites := Upsert(t.owned.resourceSites, b.resourceSites),
                      locationEvents := Upsert(t.owned.locationEvents, b.locationEvents),
                      incomingObjects := Upsert(t.owned.incomingObjects, b.incomingObjects));
    OwnedDeletions(Tables(t.foreign, o), RetainOwned(b.deletions));
  }

  lemma EmptyBatchChangesNothing(t: Tables)
    ensures Persist(t, EMPTY) == Some(t)
  {
  }

  // ----- history and the fold the replay computes ----------------------------------

  datatype ReplayKind = Rebuild | Reconcile | ForwardOnly | NotApplicable

  /** A history row, with the replay kind its event name is registered under, if any. */
  datatype Row = Row(rowid: int, treatment: Option<ReplayKind>, payload: string, applied: bool)

  type Reducer = (Tables, Row) -> Option<Batch>

  /** One row: skipped unless it rebuilds; a reducer error ends the replay. */
  function ReplayRow(reduce: Reducer, t: Tables, row: Row): Option<Tables> {
    if row.treatment != Some(Rebuild) then Some(t)
    else match reduce(t, row)
         case None => None
         case Some(batch) => Persist(t, OwnedBatch(batch))
  }

  /** The first `n` rows in order. */
  function ReplayTo(reduce: Reducer, t: Tables, rows: seq<Row>, n: nat): Option<Tables>
    requires n <= |rows|
  {
    if n == 0 then Some(t)
    else match ReplayTo(reduce, t, rows, n - 1)
         case None => None
         case Some(t') => ReplayRow(reduce, t', rows[n - 1])
  }

  function ReplayAll(reduce: Reducer, t: Tables, rows: seq<Row>): Option<Tables> {
    ReplayTo(reduce, t, rows, |rows|)
  }

  /** A reducer error ends every longer replay too. */
  lemma {:induction false} NoneStays(reduce: Reducer, t: Tables, rows: seq<Row>, n: nat, m: nat)
    requires n <= m <= |rows| && ReplayTo(reduce, t, rows, n).None?
    ensures ReplayTo(reduce, t, rows, m).None?
  {
    if n < m {
      NoneStays(reduce, t, rows, n, m - 1);
    }
  }

  lemma {:induction false} ReplayStaysInside(reduce: Reducer, t: Tables, rows: seq<Row>, n: nat)
    requires n <= |rows|
    ensures ReplayTo(reduce, t, rows, n).Some? ==> ReplayTo(reduce, t, rows, n).value.foreign == t.foreign
  {
    if n > 0 {
      ReplayStaysInside(reduce, t, rows, n - 1);
      var before := ReplayTo(reduce, t, rows, n - 1);
      if before.Some? && reduce(before.value, rows[n - 1]).Some? {
        OwnedBatchStaysInside(before.value, reduce(before.value, rows[n - 1]).value);
      }
    }
  }

  /** The visible rows up to the high-water mark. */
  function Visible(rows: seq<Row>, high: int): seq<Row> {
    if rows == [] then []
    else
      var last := rows[|rows| - 1];
      Visible(rows[..|rows| - 1], high) + if last.applied && last.rowid <= high then [last] else []
  }

  ghost predicate Ascending(rows: seq<Row>) {
    && (forall i :: 0 <= i < |rows| ==> 0 < rows[i].rowid)
    && forall i, j :: 0 <= i < j < |rows| ==> rows[i].rowid < rows[j].rowid
  }

  /** Exactly the applied rows up to the mark. */
  lemma {:induction false} VisibleMembers(rows: seq<Row>, high: int)
    ensures forall r :: r in Visible(rows, high) <==> r in rows && r.applied && r.rowid <= high
  {
    if rows != [] {
      VisibleMembers(rows[..|rows| - 1], high);
      assert rows == rows[..|rows| - 1] + [rows[|rows| - 1]];
    }
  }

  lemma MembersBelow(rest: seq<Row>, high: int, last: Row)
    requires Ascending(rest + [last])
    ensures forall i :: 0 <= i < |Visible(rest, high)| ==> Visible(rest, high)[i].rowid < last.rowid
  {
    VisibleMembers(rest, high);
    var v := Visible(rest, high);
    forall i | 0 <= i < |v| ensures v[i].rowid < last.rowid {
      assert v[i] in rest;
      var k :| 0 <= k < |rest| && rest[k] == v[i];
      assert (rest + [last])[k] == v[i] && (rest + [last])[|rest|] == last;
    }
  }

  lemma {:induction false} VisibleAscending(rows: seq<Row>, high: int)
    requires Ascending(rows)
    ensures Ascending(Visible(rows, high))
  {
    if rows != [] {
      var rest, last := rows[..|rows| - 1], rows[|rows| - 1];
      assert rest + [last] == rows;
      VisibleAscending(rest, high);
      MembersBelow(rest, high, last);
    }
  }

  /** How many rows of an ascending sequence lie at or below `rowid`. */
  function Count(rows: seq<Row>, rowid: int): (n: nat)
    ensures n <= |rows|
  {
    CountFirst(rows, rowid, |rows|)
  }

  function CountFirst(rows: seq<Row>, rowid: int, n: nat): (k: nat)
    requires n <= |rows|
    ensures k <= n
  {
    if n == 0 then 0 else if rows[n - 1].rowid <= rowid then n else CountFirst(rows, rowid, n - 1)
  }

  lemma {:induction false} CountFirstSplits(rows: seq<Row>, rowid: int, n: nat)
    requires Ascending(rows) && n <= |rows|
    ensures forall i :: 0 <= i < n ==> (rows[i].rowid <= rowid <==> i < CountFirst(rows, rowid, n))
  {
    if n > 0 && rows[n - 1].rowid > rowid {
      CountFirstSplits(rows, rowid, n - 1);
    }
  }

  lemma CountSplits(rows: seq<Row>, rowid: int)
    requires Ascending(rows)
    ensures forall i :: 0 <= i < |rows| ==> (rows[i].rowid <= rowid <==> i < Count(rows, rowid))
  {
    CountFirstSplits(rows, rowid, |rows|);
  }

  lemma CountAt(rows: seq<Row>, k: nat)
    requires Ascending(rows) && k < |rows|
    ensures Count(rows, rows[k].rowid) == k + 1
  {
    CountSplits(rows, rows[k].rowid);
    assert k + 1 < |rows| ==> rows[k].rowid < rows[k + 1].rowid;
  }

  lemma CountZero(rows: seq<Row>)
    requires Ascending(rows)
    ensures Count(rows, 0) == 0
  {
    CountSplits(rows, 0);
    assert rows != [] ==> 0 < rows[0].rowid;
  }

  /** The first `n` of the visible rows, replayed from `base`, give `t`. */
  ghost predicate At(reduce: Reducer, base: Tables, v: seq<Row>, n: nat, t: Tables) {
    n <= |v| && ReplayTo(reduce, base, v, n) == Some(t)
  }

  lemma AtNext(reduce: Reducer, base: Tables, v: seq<Row>, n: nat, t: Tables, t': Tables)
    requires At(reduce, base, v, n, t) && n < |v| && ReplayRow(reduce, t, v[n]) == Some(t')
    ensures At(reduce, base, v, n + 1, t')
  {
  }

  lemma AtStart(reduce: Reducer, base: Tables, v: seq<Row>)
    ensures At(reduce, base, v, 0, base)
  {
  }

  // ----- the store and the replay loop ---------------------------------------------

  /** Progress of the projection: version, last finished row, high-water row, completion. */
  datatype Meta = Meta(version: int, last: int, high: int, complete: bool)

  ghost predicate Reached(reduce: Reducer, base: Tables, rows: seq<Row>, m: Meta, t: Tables) {
    var v := Visible(rows, m.high);
    0 <= m.last && At(reduce, base, v, Count(v, m.last), t)
  }

  /** Folding up to a row is what the progress record of that row says. */
  lemma ReachedRow(reduce: Reducer, base: Tables, rows: seq<Row>, m: Meta, n: nat, t: Tables)
    requires Ascending(rows)
    requires var v := Visible(rows, m.high); n < |v| && At(reduce, base, v, n + 1, t) && m.last == v[n].rowid
    ensures Reached(reduce, base, rows, m, t)
  {
    VisibleAscending(rows, m.high);
    CountAt(Visible(rows, m.high), n);
  }

  /** No visible row lies beyond the high-water mark. */
  ghost predicate Covers(rows: seq<Row>, high: int) {
    forall i :: 0 <= i < |rows| && rows[i].applied ==> rows[i].rowid <= high
  }

  /** `page` is what stands in `v` from position `k` on. */
  ghost predicate PageOf(v: seq<Row>, k: nat, page: seq<Row>) {
    k + |page| <= |v| && forall i :: 0 <= i < |page| ==> page[i] == v[k + i]
  }

  /** A page read after `start` lies past it and ascends. */
  lemma PageAscends(rows: seq<Row>, high: int, start: int, page: seq<Row>)
    requires Ascending(rows)
    requires var v := Visible(rows, high); PageOf(v, Count(v, start), page)
    ensures forall i :: 0 <= i < |page| ==> start < page[i].rowid
    ensures forall i :: 0 < i < |page| ==> page[i - 1].rowid < page[i].rowid
    ensures var v := Visible(rows, high); page != [] ==> Count(v, page[|page| - 1].rowid) == Count(v, start) + |page|
  {
    var v := Visible(rows, high);
    VisibleAscending(rows, high);
    CountSplits(v, start);
    if page != [] { CountAt(v, Count(v, start) + |page| - 1); }
  }

  class ProjectionStore {
    const rows: seq<Row>
    var tables: Tables
    var meta: Option<Meta>
    /** Which of the store's replay transactions fail, by number, and how many were tried. */
    const fails: nat -> bool
    var writes: nat
    /** The tables when the replay of the current version began. */
    ghost var base: Tables

    constructor (rows: seq<Row>, tables: Tables, meta: Option<Meta>, fails: nat -> bool)
      requires Ascending(rows) && (meta.Some? ==> meta.value.complete)
      ensures this.rows == rows && this.tables == tables && this.meta == meta && this.fails == fails && writes == 0
    {
      this.rows, this.tables, this.meta, this.base := rows, tables, meta, tables;
      this.fails, writes := fails, 0;
    }

    /** One of the transactions from number `a` up to `b` failed. */
    ghost predicate Faulted(a: nat, b: nat) { exists i :: a <= i < b && fails(i) }

    /** A stored, unfinished replay has folded exactly the visible rows up to its last row. */
    ghost predicate Resumable(reduce: Reducer)
      reads this
    {
      Ascending(rows) && (meta.Some? && !meta.value.complete ==> Reached(reduce, base, rows, meta.value, tables))
    }

    method HighWater() returns (high: int)
      requires Ascending(rows)
      ensures Covers(rows, high)
      ensures high >= 0 && (high == 0 || exists i :: 0 <= i < |rows| && rows[i].applied && rows[i].rowid == high)
    {
      high := 0;
      var i := 0;
      while i < |rows|
        invariant 0 <= i <= |rows|
        invariant high >= 0 && (i > 0 ==> high <= rows[i - 1].rowid)
        invariant high == 0 || exists k :: 0 <= k < i && rows[k].applied && rows[k].rowid == high
        invariant forall k :: 0 <= k < i && rows[k].applied ==> rows[k].rowid <= high
      {
        if rows[i].applied {
          high := rows[i].rowid;
        }
        i := i + 1;
      }
    }

    /** A stored replay of this version is resumed; otherwise a new one starts at row zero. */
    method Prepare(reduce: Reducer, version: int) returns (r: Meta)
      requires Resumable(reduce)
      modifies this
      ensures Resumable(reduce) && tables == old(tables) && meta == Some(r) && r.version == version
      ensures old(meta.Some? && meta.value.version == version) ==> meta == old(meta) && base == old(base)
      ensures writes == old(writes)
      ensures old(!(meta.Some? && meta.value.version == version)) ==>
                base == tables && r.last == 0 && !r.complete && Covers(rows, r.high)
    {
      var high := HighWater();
      if meta.Some? && meta.value.version == version {
        return meta.value;
      }
      r := Meta(version, 0, high, false);
      meta, base := Some(r), tables;
      VisibleAscending(rows, high);
      CountZero(Visible(rows, high));
      AtStart(reduce, base, Visible(rows, high));
    }

    /** The next page of visible rows after `after`. */
    method ReadPage(after: int, high: int, limit: nat) returns (page: seq<Row>)
      requires Ascending(rows) && limit > 0
      ensures var v := Visible(rows, high); var k := Count(v, after);
              PageOf(v, k, page) && |page| <= limit && (|page| < limit ==> k + |page| == |v|)
    {
      var v := Visible(rows, high);
      var k := Count(v, after);
      page := v[k..if k + limit <= |v| then k + limit else |v|];
    }

    /** One transaction: batch and progress together, or nothing. */
    method ApplyReplay(version: int, last: int, high: int, batch: Batch) returns (ok: bool)
      requires meta.Some? && meta.value.version == version
      modifies this`tables, this`meta, this`writes
      ensures ok <==> Persist(old(tables), batch).Some? && !fails(old(writes))
      ensures ok ==> Persist(old(tables), batch) == Some(tables) && meta == Some(Meta(version, last, high, false))
      ensures !ok ==> tables == old(tables) && meta == old(meta)
      ensures writes == old(writes) + 1
    {
      var next := Persist(tables, batch);
      writes := writes + 1;
      if next.None? || fails(writes - 1) {
        return false;
      }
      tables, meta := next.value, Some(Meta(version, last, high, false));
      ok := true;
    }

    method Complete(version: int, high: int) returns (ok: bool)
      requires meta.Some? && meta.value.version == version
      modifies this`meta, this`writes
      ensures ok <==> !fails(old(writes))
      ensures meta == if ok then Some(Meta(version, high, high, true)) else old(meta)
      ensures writes == old(writes) + 1
    {
      writes := writes + 1;
      if fails(writes - 1) {
        return false;
      }
      meta := Some(Meta(version, high, high, true));
      ok := true;
    }

    /** One row of a page: committed when it rebuilds, passed over otherwise. */
    method ReplayOne(reduce: Reducer, version: int, high: int, last: int, row: Row, ghost n: nat)
      returns (ok: bool, last': int)
      requires Resumable(reduce) && meta == Some(Meta(version, last, high, false))
      requires var v := Visible(rows, high); n < |v| && v[n] == row && At(reduce, base, v, n, tables)
      requires last < row.rowid
      modifies this`tables, this`meta, this`writes
      ensures Resumable(reduce) && meta == Some(Meta(version, last', high, false))
      ensures last <= last' <= row.rowid && writes >= old(writes)
      ensures ok ==> At(reduce, base, Visible(rows, high), n + 1, tables)
      ensures !ok ==> Faulted(old(writes), writes) || ReplayAll(reduce, base, Visible(rows, high)).None?
    {
      ghost var before, v := tables, Visible(rows, high);
      last' := last;
      if row.treatment != Some(Rebuild) {
        AtNext(reduce, base, v, n, before, before);
        return true, last;
      }
      var reduced := reduce(tables, row);
      if reduced.None? {
        NoneStays(reduce, base, v, n + 1, |v|);
        return false, last;
      }
      OwnedBatchStaysInside(tables, reduced.value);
      ok := ApplyReplay(version, row.rowid, high, OwnedBatch(reduced.value));
      if ok {
        assert ReplayRow(reduce, before, row) == Some(tables);
        AtNext(reduce, base, v, n, before, tables);
        ReachedRow(reduce, base, rows, meta.value, n, tables);
        last' := row.rowid;
      }
    }

    /** The rows of a page in order, up to the first failure. */
    method ReplayRows(reduce: Reducer, version: int, high: int, start: int, page: seq<Row>)
      returns (ok: bool, last: int)
      requires Resumable(reduce) && meta == Some(Meta(version, start, high, false)) && page != []
      requires var v := Visible(rows, high); PageOf(v, Count(v, start), page)
      modifies this`tables, this`meta, this`writes
      ensures Resumable(reduce)
      ensures meta == Some(Meta(version, last, high, false))
      ensures ok ==> var v := Visible(rows, high); At(reduce, base, v, Count(v, start) + |page|, tables)
      ensures ok ==> last <= page[|page| - 1].rowid
      ensures writes >= old(writes)
      ensures !ok ==> Faulted(old(writes), writes) || ReplayAll(reduce, base, Visible(rows, high)).None?
    {
      ghost var v := Visible(rows, high);
      ghost var k := Count(v, start);
      PageAscends(rows, high, start, page);
      ok, last := true, start;
      for i := 0 to |page|
        invariant ok && Resumable(reduce) && meta == Some(Meta(version, last, high, false))
        invariant At(reduce, base, v, k + i, tables)
        invariant writes >= old(writes)
        invariant if i == 0 then last == start else last <= page[i - 1].rowid
      {
        ok, last := ReplayOne(reduce, version, high, last, page[i], k + i);
        if !ok {
          return;
        }
      }
    }

    /**
     Works through one page.  Rows that rebuild commit one by one; a page that ends in
     other rows commits its last row with an empty batch.
     */
    method ReplayPage(reduce: Reducer, version: int, high: int, start: int, page: seq<Row>)
      returns (ok: bool, last: int)
      requires Resumable(reduce) && meta == Some(Meta(version, start, high, false)) && page != []
      requires var v := Visible(rows, high); PageOf(v, Count(v, start), page)
      modifies this`tables, this`meta, this`writes
      ensures Resumable(reduce)
      ensures meta == Some(Meta(version, last, high, false))
      ensures ok ==> var v := Visible(rows, high); Count(v, last) == Count(v, start) + |page|
      ensures writes >= old(writes)
      ensures !ok ==> Faulted(old(writes), writes) || ReplayAll(reduce, base, Visible(rows, high)).None?
    {
      PageAscends(rows, high, start, page);
      ok, last := ReplayRows(reduce, version, high, start, page);
      if !ok {
        return;
      }
      var pageLast := page[|page| - 1].rowid;
      if pageLast > last {
        EmptyBatchChangesNothing(tables);
        ok := ApplyReplay(version, pageLast, high, EMPTY);
        if ok {
          ReachedRow(reduce, base, rows, meta.value, Count(Visible(rows, high), start) + |page| - 1, tables);
          last := pageLast;
        }
      }
    }

    /**
     The replay.  When it succeeds, the tables are the fold of the rebuilding reducers over
     every visible row up to the high-water mark, from the tables at its first start; when
     it fails, it can be called again.  It never changes a foreign projection.
     */
    method Replay(reduce: Reducer, version: int, pageSize: nat) returns (ok: bool)
      requires Resumable(reduce) && pageSize > 0
      modifies this
      ensures Resumable(reduce) && tables.foreign == old(tables.foreign)
      ensures meta.Some? && meta.value.version == version
      ensures base == if old(meta.Some? && meta.value.version == version) then old(base) else old(tables)
      ensures ok ==> meta.value.complete
      ensures old(meta.Some? && meta.value.version == version && meta.value.complete) ==> ok && tables == old(tables)
      ensures ok && !old(meta.Some? && meta.value.version == version && meta.value.complete) ==>
                ReplayAll(reduce, base, Visible(rows, meta.value.high)) == Some(tables)
      ensures old(meta.Some? && meta.value.version == version) ==> meta.value.high == old(meta.value.high)
      ensures !old(meta.Some? && meta.value.version == version) ==> Covers(rows, meta.value.high)
      ensures writes >= old(writes) && (!ok ==> !meta.value.complete)
      ensures !ok ==> Faulted(old(writes), writes) || ReplayAll(reduce, base, Visible(rows, meta.value.high)).None?
    {
      var replay := Prepare(reduce, version);
      if replay.complete {
        return true;
      }
      FoldStaysInside(reduce);
      var last, high := replay.last, replay.high;
      ghost var v := Visible(rows, high);
      while true
        modifies this`tables, this`meta, this`writes
        invariant Resumable(reduce) && meta == Some(Meta(version, last, high, false)) && writes >= old(writes)
        decreases |v| - Count(v, last)
      {
        var page := ReadPage(last, high, pageSize);
        if page == [] {
          break;
        }
        ok, last := ReplayPage(reduce, version, high, last, page);
        if !ok {
          FoldStaysInside(reduce);
          return;
        }
      }
      FoldStaysInside(reduce);
      ok := Complete(version, high);
    }

    lemma FoldStaysInside(reduce: Reducer)
      requires Resumable(reduce) && meta.Some? && !meta.value.complete
      ensures tables.foreign == base.foreign
    {
      var v := Visible(rows, meta.value.high);
      ReplayStaysInside(reduce, base, v, Count(v, meta.value.last));
    }
  }

  /**
   Client starts until one succeeds, at most `attempts` of them, each with a page size of
   its own.  However often a start fails, at whichever commit, the result is the one fold
   from the tables before the first start.
   */
  method ReplayUntilDone(store: ProjectionStore, reduce: Reducer, version: int, pageSizes: seq<nat>)
    returns (ok: bool, ghost folded: seq<Row>)
    requires store.Resumable(reduce) && forall i :: 0 <= i < |pageSizes| ==> pageSizes[i] > 0
    requires store.meta.Some? ==> store.meta.value.version != version
    modifies store
    ensures store.tables.foreign == old(store.tables.foreign)
    ensures Ascending(folded) && forall r :: r in folded <==> r in store.rows && r.applied
    ensures ok ==> store.meta.Some? && store.meta.value.complete && store.meta.value.version == version
    ensures ok ==> ReplayAll(reduce, old(store.tables), folded) == Some(store.tables)
    ensures !ok && pageSizes != [] ==>
              store.Faulted(old(store.writes), store.writes) || ReplayAll(reduce, old(store.tables), folded).None?
  {
    ok := false;
    folded := AppliedRows(store.rows);
    for i := 0 to |pageSizes|
      invariant !ok && store.Resumable(reduce) && store.tables.foreign == old(store.tables.foreign)
      invariant store.writes >= old(store.writes)
      invariant i == 0 ==> store.tables == old(store.tables) && store.meta == old(store.meta)
      invariant i > 0 ==> store.meta.Some? && store.meta.value.version == version && !store.meta.value.complete
      invariant i > 0 ==> store.base == old(store.tables) && Covers(store.rows, store.meta.value.high)
      invariant i > 0 ==>
                  store.Faulted(old(store.writes), store.writes) || ReplayAll(reduce, old(store.tables), folded).None?
    {
      ok := store.Replay(reduce, version, pageSizes[i]);
      CoveringMarksAgree(store.rows, store.meta.value.high, LastRow(store.rows));
      if ok {
        return;
      }
    }
  }

  ghost function LastRow(rows: seq<Row>): int { if rows == [] then 0 else rows[|rows| - 1].rowid }

  /** The applied rows, in row order. */
  lemma AppliedRows(rows: seq<Row>) returns (folded: seq<Row>)
    requires Ascending(rows)
    ensures folded == Visible(rows, LastRow(rows)) && Covers(rows, LastRow(rows))
    ensures Ascending(folded) && forall r :: r in folded <==> r in rows && r.applied
  {
    folded := Visible(rows, LastRow(rows));
    VisibleAscending(rows, LastRow(rows));
    VisibleMembers(rows, LastRow(rows));
    forall r | r in rows ensures r.rowid <= LastRow(rows) {
      var i :| 0 <= i < |rows| && rows[i] == r;
    }
  }

  /** Any two marks that cover the applied rows show the same ones. */
  lemma {:induction false} CoveringMarksAgree(rows: seq<Row>, a: int, b: int)
    requires Covers(rows, a) && Covers(rows, b)
    ensures Visible(rows, a) == Visible(rows, b)
  {
    if rows != [] {
      var rest := rows[..|rows| - 1];
      assert forall i :: 0 <= i < |rest| ==> rest[i] == rows[i];
      CoveringMarksAgree(rest, a, b);
    }
  }
}
