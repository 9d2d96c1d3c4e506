/** Caches of subscribed tables, kept by key and indexed by row, and the event feeds drawn from them. */
module RowCaches {
  import opened Model
  import opened Permutations
  import opened Store

  type RowId = nat

  /** A change as the server reports it; `cells` is `None` when they do not parse. */
  datatype RawChange<V> = RawUpsert(row: RowId, cells: Option<V>) | RawDelete(row: RowId)

  datatype TableEvent<V> =
    | ColumnNames
    | QueryFinished
    | ServerError
    | RowSeen(row: RowId, cells: Option<V>)
    | RowChanged(raw: RawChange<V>)

  datatype StreamItem<V> = Next(event: TableEvent<V>) | StreamError | StreamEnd

  /** A change to the table. */
  datatype Change<V> = Upsert(row: RowId, value: V) | Delete(row: RowId)

  function Parsed<V>(raw: RawChange<V>): Option<Change<V>> {
    match raw
    case RawUpsert(row, cells) => if cells.Some? then Some(Upsert(row, cells.value)) else None
    case RawDelete(row) => Some(Delete(row))
  }

  /** The change an event reports; rows of the initial query count as inserts. */
  function Reported<V>(event: TableEvent<V>): Option<RawChange<V>> {
    match event
    case RowSeen(row, cells) => Some(RawUpsert(row, cells))
    case RowChanged(raw) => Some(raw)
    case _ => None
  }

  /** The item ends its subscription: a broken stream, a server error or cells that do not parse. */
  predicate Fatal<V>(item: StreamItem<V>) {
    match item
    case Next(event) => event.ServerError? || (Reported(event).Some? && Parsed(Reported(event).value).None?)
    case _ => true
  }

  /** The change, if any, that an item brings to its table. */
  function ChangeOf<V>(item: StreamItem<V>): seq<Change<V>> {
    if Fatal(item) || Reported(item.event).None? then [] else [Parsed(Reported(item.event).value).value]
  }

  // ---------------------------------------------------------------------------
  // Table and cache
  // ---------------------------------------------------------------------------

  function TableAfter<V>(table: map<RowId, V>, change: Change<V>): map<RowId, V> {
    match change
    case Upsert(row, value) => table[row := value]
    case Delete(row) => table - {row}
  }

  datatype Cache<K, V> = Cache(records: map<K, V>, rowIndex: map<RowId, K>)

  function CacheAfter<K, V>(key: V -> K, c: Cache<K, V>, change: Change<V>): Cache<K, V> {
    match change
    case Upsert(row, value) => Cache(c.records[key(value) := value], c.rowIndex[row := key(value)])
    case Delete(row) =>
      if row in c.rowIndex then Cache(c.records - {c.rowIndex[row]}, c.rowIndex - {row}) else c
  }

  ghost predicate DistinctKeys<K, V>(key: V -> K, table: map<RowId, V>) {
    forall r, s :: r in table && s in table && r != s ==> key(table[r]) != key(table[s])
  }

  /** The cache holds exactly the live rows, each under its own key. */
  ghost predicate Represents<K, V>(key: V -> K, c: Cache<K, V>, table: map<RowId, V>) {
    && DistinctKeys(key, table)
    && c.rowIndex.Keys == table.Keys
    && (forall r :: r in table ==>
         c.rowIndex[r] == key(table[r]) && key(table[r]) in c.records && c.records[key(table[r])] == table[r])
    && (forall k :: k in c.records ==> exists r :: r in table && key(table[r]) == k)
  }

  /** No other row has the new key, and a row that was there keeps its key. */
  ghost predicate Orderly<K, V>(key: V -> K, table: map<RowId, V>, change: Change<V>) {
    change.Upsert? ==>
      && (forall r :: r in table && r != change.row ==> key(table[r]) != key(change.value))
      && (change.row in table ==> key(table[change.row]) == key(change.value))
  }

  /** A cache in step with its table stays in step exactly when the change is orderly. */
  lemma ChangeKeepsStep<K, V>(key: V -> K, c: Cache<K, V>, table: map<RowId, V>, change: Change<V>)
    requires Represents(key, c, table)
    ensures Represents(key, CacheAfter(key, c, change), TableAfter(table, change)) <==> Orderly(key, table, change)
  {
    match change
    case Upsert(row, value) =>
      if Orderly(key, table, change) {
        UpsertKeepsStep(key, c, table, row, value);
      } else {
        DisorderlyUpsert(key, c, table, row, value);
      }
    case Delete(row) => DeleteKeepsStep(key, c, table, row);
  }

  lemma UpsertKeepsStep<K, V>(key: V -> K, c: Cache<K, V>, table: map<RowId, V>, row: RowId, v: V)
    requires Represents(key, c, table) && Orderly(key, table, Upsert(row, v))
    ensures Represents(key, CacheAfter(key, c, Upsert(row, v)), table[row := v])
  {
    var d, after := CacheAfter(key, c, Upsert(row, v)), table[row := v];
    forall k | k in d.records ensures exists r :: r in after && key(after[r]) == k {
      if k == key(v) {
        assert key(after[row]) == k;
      } else {
        var r :| r in table && key(table[r]) == k;
        assert r in after && key(after[r]) == k;
      }
    }
  }

  lemma DisorderlyUpsert<K, V>(key: V -> K, c: Cache<K, V>, table: map<RowId, V>, row: RowId, v: V)
    requires Represents(key, c, table) && !Orderly(key, table, Upsert(row, v))
    ensures !Represents(key, CacheAfter(key, c, Upsert(row, v)), table[row := v])
  {
    var d, after := CacheAfter(key, c, Upsert(row, v)), table[row := v];
    if r :| r in table && r != row && key(table[r]) == key(v) {
      assert key(after[r]) == key(after[row]);
    } else {
      var k := key(table[row]);
      assert k in d.records && k != key(v);
    }
  }

  lemma DeleteKeepsStep<K, V>(key: V -> K, c: Cache<K, V>, table: map<RowId, V>, row: RowId)
    requires Represents(key, c, table)
    ensures Represents(key, CacheAfter(key, c, Delete(row)), table - {row})
  {
    var d, after := CacheAfter(key, c, Delete(row)), table - {row};
    forall k | k in d.records ensures exists r :: r in after && key(after[r]) == k {
      var r :| r in table && key(table[r]) == k;
      assert r in after && key(after[r]) == k;
    }
  }

  /** A row that changes its key leaves its old record behind for good. */
  lemma RekeyedRowLeaves<K, V>(key: V -> K, c: Cache<K, V>, table: map<RowId, V>, row: RowId, v: V)
    requires Represents(key, c, table) && row in table && key(table[row]) != key(v)
    ensures key(table[row]) in CacheAfter(key, CacheAfter(key, c, Upsert(row, v)), Delete(row)).records
  {
  }

  // ---------------------------------------------------------------------------
  // Runs of changes
  // ---------------------------------------------------------------------------

  function TableRun<V>(table: map<RowId, V>, changes: seq<Change<V>>): map<RowId, V> {
    if changes == [] then table else TableAfter(TableRun(table, changes[..|changes| - 1]), changes[|changes| - 1])
  }

  function CacheRun<K, V>(key: V -> K, cache: Cache<K, V>, changes: seq<Change<V>>): Cache<K, V> {
    if changes == [] then cache
    else CacheAfter(key, CacheRun(key, cache, changes[..|changes| - 1]), changes[|changes| - 1])
  }

  /** Every change is orderly for the table as it is by then. */
  ghost predicate AllOrderly<K, V>(key: V -> K, table: map<RowId, V>, changes: seq<Change<V>>) {
    changes == [] ||
    (AllOrderly(key, table, changes[..|changes| - 1]) &&
     Orderly(key, TableRun(table, changes[..|changes| - 1]), changes[|changes| - 1]))
  }

  ghost predicate InStep<K, V>(key: V -> K, cache: Cache<K, V>, table: map<RowId, V>, changes: seq<Change<V>>, n: nat)
    requires n <= |changes|
  {
    Represents(key, CacheRun(key, cache, changes[..n]), TableRun(table, changes[..n]))
  }

  /** Over any run of changes the cache is in step all the time exactly when every change is orderly. */
  lemma {:induction false} InStepThroughout<K, V>(
    key: V -> K, cache: Cache<K, V>, table: map<RowId, V>, changes: seq<Change<V>>)
    requires Represents(key, cache, table)
    ensures (forall n: nat :: n <= |changes| ==> InStep(key, cache, table, changes, n)) <==>
      AllOrderly(key, table, changes)
  {
    hide Represents, Orderly, CacheAfter, TableAfter;
    if changes != [] {
      var last := |changes| - 1;
      InStepThroughout(key, cache, table, changes[..last]);
      assert changes[..|changes|] == changes;
      forall n: nat | n <= last
        ensures InStep(key, cache, table, changes, n) <==> InStep(key, cache, table, changes[..last], n)
      {
        assert changes[..last][..n] == changes[..n];
      }
      if AllOrderly(key, table, changes[..last]) {
        assert InStep(key, cache, table, changes[..last], last);
        assert InStep(key, cache, table, changes, last);
        ChangeKeepsStep(key, CacheRun(key, cache, changes[..last]), TableRun(table, changes[..last]), changes[last]);
        assert InStep(key, cache, table, changes, |changes|) <==> AllOrderly(key, table, changes);
      }
    } else {
      assert forall n: nat :: n <= 0 ==> changes[..n] == [];
    }
  }

  /** A cache, the live rows of its table, and whether every change so far was orderly. */
  datatype Snapshot<K, V> = Snapshot(cache: Cache<K, V>, table: map<RowId, V>, orderly: bool)

  ghost function Stepped<K, V>(key: V -> K, s: Snapshot<K, V>, changes: seq<Change<V>>): Snapshot<K, V> {
    Snapshot(CacheRun(key, s.cache, changes), TableRun(s.table, changes),
      s.orderly && AllOrderly(key, s.table, changes))
  }

  lemma SteppedOnce<K, V>(key: V -> K, s: Snapshot<K, V>, change: Change<V>)
    ensures Stepped(key, s, [change]) ==
      Snapshot(CacheAfter(key, s.cache, change), TableAfter(s.table, change),
        s.orderly && Orderly(key, s.table, change))
  {
    var one := [change];
    assert one[..|one| - 1] == [];
    assert TableRun(s.table, []) == s.table && CacheRun(key, s.cache, []) == s.cache && AllOrderly(key, s.table, []);
    assert TableRun(s.table, one) == TableAfter(s.table, change);
    assert CacheRun(key, s.cache, one) == CacheAfter(key, s.cache, change);
    assert AllOrderly(key, s.table, one) <==> Orderly(key, s.table, change);
  }

  lemma {:induction false} SteppedTwice<K, V>(key: V -> K, s: Snapshot<K, V>, a: seq<Change<V>>, b: seq<Change<V>>)
    ensures Stepped(key, Stepped(key, s, a), b) == Stepped(key, s, a + b)
  {
    if b == [] {
      assert a + b == a;
    } else {
      var n := |b| - 1;
      SteppedTwice(key, s, a, b[..n]);
      assert (a + b)[..|a + b| - 1] == a + b[..n];
    }
  }

  // ---------------------------------------------------------------------------
  // The cache as an object
  // ---------------------------------------------------------------------------

  class RowCache<K(==), V(==)> {
    const key: V -> K
    var records: map<K, V>
    var rowIndex: map<RowId, K>
    ghost var table: map<RowId, V>
    ghost var orderly: bool

    ghost function Value(): Snapshot<K, V>
      reads this
    {
      Snapshot(Cache(records, rowIndex), table, orderly)
    }

    ghost predicate Valid()
      reads this
    {
      KeyedBy(key, records) && (orderly ==> Represents(key, Cache(records, rowIndex), table))
    }

    constructor (key: V -> K)
      ensures Valid() && this.key == key && Value() == Snapshot(Cache(map[], map[]), map[], true)
    {
      this.key := key;
      records, rowIndex, table, orderly := map[], map[], map[], true;
    }

    /** Applies a change; cells that do not parse change nothing. */
    method ApplyChange(raw: RawChange<V>) returns (ok: bool)
      requires Valid()
      modifies this
      ensures Valid() && ok == Parsed(raw).Some?
      ensures Value() == Stepped(key, old(Value()), if ok then [Parsed(raw).value] else [])
    {
      if Parsed(raw).None? {
        return false;
      }
      ghost var change := Parsed(raw).value;
      SteppedOnce(key, Value(), change);
      if orderly { ChangeKeepsStep(key, Cache(records, rowIndex), table, change); }
      orderly := orderly && Orderly(key, table, change);
      table := TableAfter(table, change);
      match raw {
        case RawUpsert(row, cells) =>
          var record := cells.value;
          rowIndex := rowIndex[row := key(record)];
          records := records[key(record) := record];
        case RawDelete(row) =>
          if row in rowIndex {
            var k := rowIndex[row];
            rowIndex := rowIndex - {row};
            records := records - {k};
          }
      }
      return true;
    }

    /** `Some(true)` if data may have changed, `None` if the subscription is over. */
    method HandleStreamEvent(item: StreamItem<V>) returns (r: Option<bool>)
      requires Valid()
      modifies this
      ensures Valid() && Value() == Stepped(key, old(Value()), ChangeOf(item))
      ensures r == if Fatal(item) then None else Some(ChangeOf(item) != [])
    {
      match item {
        case Next(event) =>
          match event {
            case ColumnNames => r := Some(false);
            case QueryFinished => r := Some(false);
            case ServerError => r := None;
            case RowSeen(row, cells) =>
              var ok := ApplyChange(RawUpsert(row, cells));
              r := if ok then Some(true) else None;
            case RowChanged(raw) =>
              var ok := ApplyChange(raw);
              r := if ok then Some(true) else None;
          }
        case StreamError => r := None;
        case StreamEnd => r := None;
      }
    }
  }

  /** A cache in step holds exactly the live rows. */
  lemma OrderlyRecords<K, V>(key: V -> K, c: Cache<K, V>, table: map<RowId, V>)
    requires Represents(key, c, table)
    ensures c.records.Values == table.Values
  {
    forall v ensures v in c.records.Values <==> v in table.Values {
      if v in c.records.Values {
        var k :| k in c.records && c.records[k] == v;
        var r :| r in table && key(table[r]) == k;
        assert table[r] == v;
      }
      if v in table.Values {
        var r :| r in table && table[r] == v;
        assert c.records[key(table[r])] == v;
      }
    }
  }

  // ---------------------------------------------------------------------------
  // Machine events
  // ---------------------------------------------------------------------------

  type MachineCache = Cache<MachineId, MachineRecord>

  function MachineKey(m: MachineRecord): MachineId { m.id }

  /** What a subscriber that follows the events knows. */
  function Replay(known: map<MachineId, MachineRecord>, events: seq<MachineEvent>): map<MachineId, MachineRecord> {
    if events == [] then known else Told(Replay(known, events[..|events| - 1]), events[|events| - 1])
  }

  function Told(known: map<MachineId, MachineRecord>, event: MachineEvent): map<MachineId, MachineRecord> {
    match event
    case Added(m) => known[m.id := m]
    case Updated(m) => known[m.id := m]
    case RemovedMachine(m) => known - {m.id}
  }

  /** The event a change gives rise to: Added only for machines not known, Removed only for known ones. */
  function EventOf(c: MachineCache, change: Change<MachineRecord>): seq<MachineEvent> {
    match change
    case Upsert(_, m) => [if m.id in c.records then Updated(m) else Added(m)]
    case Delete(row) =>
      if row in c.rowIndex && c.rowIndex[row] in c.records then [RemovedMachine(c.records[c.rowIndex[row]])] else []
  }

  function EventsOf(c: MachineCache, changes: seq<Change<MachineRecord>>): seq<MachineEvent> {
    if changes == [] then []
    else
      var before := changes[..|changes| - 1];
      EventsOf(c, before) + EventOf(CacheRun(MachineKey, c, before), changes[|changes| - 1])
  }

  /** Replaying the events of any changes over what was known rebuilds the map, orderly or not. */
  lemma {:induction false} ReplayRebuilds(c: MachineCache, changes: seq<Change<MachineRecord>>)
    requires KeyedBy(MachineKey, c.records)
    ensures KeyedBy(MachineKey, CacheRun(MachineKey, c, changes).records)
    ensures Replay(c.records, EventsOf(c, changes)) == CacheRun(MachineKey, c, changes).records
  {
    hide CacheAfter, EventOf, Told;
    if changes != [] {
      var n := |changes| - 1;
      ReplayRebuilds(c, changes[..n]);
      var before := CacheRun(MachineKey, c, changes[..n]);
      var events, event := EventsOf(c, changes[..n]), EventOf(before, changes[n]);
      EventRebuilds(before, changes[n]);
      if event == [] {
        assert events + event == events;
      } else {
        assert (events + event)[..|events|] == events;
      }
    }
  }

  /** One change is told by its one event, or changes nothing. */
  lemma EventRebuilds(c: MachineCache, change: Change<MachineRecord>)
    requires KeyedBy(MachineKey, c.records)
    ensures KeyedBy(MachineKey, CacheAfter(MachineKey, c, change).records) && |EventOf(c, change)| <= 1
    ensures EventOf(c, change) == [] ==> CacheAfter(MachineKey, c, change).records == c.records
    ensures EventOf(c, change) != [] ==>
      CacheAfter(MachineKey, c, change).records == Told(c.records, EventOf(c, change)[0])
  {
  }

  /** What one item makes the feed say; `None` when it ends. */
  method IntoMachineEvent(cache: RowCache<MachineId, MachineRecord>, event: TableEvent<MachineRecord>)
    returns (r: Option<seq<MachineEvent>>)
    requires cache.Valid() && cache.key == MachineKey
    modifies cache
    ensures cache.Valid() && cache.Value() == Stepped(MachineKey, old(cache.Value()), ChangeOf(Next(event)))
    ensures r == if Fatal(Next(event)) then None else Some(EventsOf(old(cache.Value()).cache, ChangeOf(Next(event))))
  {
    ghost var before := cache.Value();
    if !Fatal(Next(event)) && ChangeOf(Next(event)) != [] { EventsOfOne(before.cache, ChangeOf(Next(event))[0]); }
    match event {
      case ColumnNames => r := Some([]);
      case QueryFinished => r := Some([]);
      case ServerError => r := None;
      case RowSeen(row, cells) => r := UpsertEvent(cache, row, cells);
      case RowChanged(RawUpsert(row, cells)) => r := UpsertEvent(cache, row, cells);
      case RowChanged(RawDelete(row)) =>
        var known, index := cache.records, cache.rowIndex;
        var ok := cache.ApplyChange(RawDelete(row));
        r := Some(if row in index && index[row] in known then [RemovedMachine(known[index[row]])] else []);
    }
  }

  lemma EventsOfOne(c: MachineCache, change: Change<MachineRecord>)
    ensures EventsOf(c, [change]) == EventOf(c, change)
  {
    assert [change][..0] == [];
  }

  /** Updated for a known machine, Added for a new one. */
  method UpsertEvent(cache: RowCache<MachineId, MachineRecord>, row: RowId, cells: Option<MachineRecord>)
    returns (r: Option<seq<MachineEvent>>)
    requires cache.Valid() && cache.key == MachineKey
    modifies cache
    ensures cache.Valid()
    ensures cells.None? ==> r.None? && cache.Value() == Stepped(MachineKey, old(cache.Value()), [])
    ensures cells.Some? ==> cache.Value() == Stepped(MachineKey, old(cache.Value()), [Upsert(row, cells.value)])
    ensures cells.Some? ==>
      r == Some([if cells.value.id in old(cache.records) then Updated(cells.value) else Added(cells.value)])
  {
    var isUpdate := cells.Some? && cells.value.id in cache.records;
    var ok := cache.ApplyChange(RawUpsert(row, cells));
    r := if !ok then None else Some([if isUpdate then Updated(cells.value) else Added(cells.value)]);
  }

  /**
   * The subscription, up to the first item that ends it: the cache is that of the changes consumed,
   * the events are theirs, and a subscriber that replays them over what it knew knows what the
   * subscription knows.
   */
  method MachineFeed(cache: RowCache<MachineId, MachineRecord>, items: seq<StreamItem<MachineRecord>>)
    returns (emitted: seq<MachineEvent>, consumed: nat)
    requires cache.Valid() && cache.key == MachineKey
    modifies cache
    ensures cache.Valid() && consumed <= |items|
    ensures forall i :: 0 <= i < consumed ==> !Fatal(items[i])
    ensures consumed < |items| ==> Fatal(items[consumed])
    ensures cache.Value() == Stepped(MachineKey, old(cache.Value()), Flat(ChangeOf, items[..consumed]))
    ensures emitted == EventsOf(old(cache.Value()).cache, Flat(ChangeOf, items[..consumed]))
    ensures Replay(old(cache.records), emitted) == cache.records
  {
    hide Stepped, EventsOf, Replay, Flat;
    ghost var first := cache.Value();
    emitted, consumed := [], 0;
    NothingFed(first, items);
    while consumed < |items|
      invariant cache.Valid() && consumed <= |items|
      invariant forall i :: 0 <= i < consumed ==> !Fatal(items[i])
      invariant cache.Value() == Stepped(MachineKey, first, Flat(ChangeOf, items[..consumed]))
      invariant emitted == EventsOf(first.cache, Flat(ChangeOf, items[..consumed]))
    {
      if !items[consumed].Next? {
        break;
      }
      ghost var before := cache.Value();
      var r := IntoMachineEvent(cache, items[consumed].event);
      OneMoreFed(first, before, items, consumed);
      if r.None? {
        UnfedByFatal(before, items[consumed]);
        break;
      }
      emitted := emitted + r.value;
      consumed := consumed + 1;
    }
    FeedReplays(first, Flat(ChangeOf, items[..consumed]), cache.Value());
  }

  lemma NothingFed(first: Snapshot<MachineId, MachineRecord>, items: seq<StreamItem<MachineRecord>>)
    ensures Flat(ChangeOf, items[..0]) == [] && first == Stepped(MachineKey, first, [])
    ensures EventsOf(first.cache, []) == []
  {
  }

  lemma UnfedByFatal(s: Snapshot<MachineId, MachineRecord>, item: StreamItem<MachineRecord>)
    requires Fatal(item)
    ensures Stepped(MachineKey, s, ChangeOf(item)) == s
  {
  }

  lemma OneMoreFed(
    first: Snapshot<MachineId, MachineRecord>, before: Snapshot<MachineId, MachineRecord>,
    items: seq<StreamItem<MachineRecord>>, n: nat)
    requires n < |items| && before == Stepped(MachineKey, first, Flat(ChangeOf, items[..n]))
    ensures
      var changes := Flat(ChangeOf, items[..n + 1]);
      && Stepped(MachineKey, before, ChangeOf(items[n])) == Stepped(MachineKey, first, changes)
      && EventsOf(first.cache, Flat(ChangeOf, items[..n])) + EventsOf(before.cache, ChangeOf(items[n])) ==
         EventsOf(first.cache, changes)
  {
    var changes, more := Flat(ChangeOf, items[..n]), ChangeOf(items[n]);
    FlatNext(ChangeOf, items, n);
    SteppedTwice(MachineKey, first, changes, more);
    if more == [] {
      assert changes + more == changes;
    } else {
      EventsOfOne(before.cache, more[0]);
      assert more == [more[0]] && (changes + more)[..|changes|] == changes;
    }
  }

  lemma FeedReplays(
    first: Snapshot<MachineId, MachineRecord>, changes: seq<Change<MachineRecord>>,
    last: Snapshot<MachineId, MachineRecord>)
    requires KeyedBy(MachineKey, first.cache.records) && last == Stepped(MachineKey, first, changes)
    ensures Replay(first.cache.records, EventsOf(first.cache, changes)) == last.cache.records
  {
    ReplayRebuilds(first.cache, changes);
  }

  // ---------------------------------------------------------------------------
  // The routing feed
  // ---------------------------------------------------------------------------

  datatype FeedEvent =
    | RevisionItem(revision: StreamItem<RevisionRecord>)
    | ReleaseItem(release: StreamItem<ReleaseRecord>)
    | InstanceItem(instance: StreamItem<InstanceStatus>)
    | TimerFires(accepted: bool)
    | ReceiverClosed

  function RevisionChange(event: FeedEvent): seq<Change<RevisionRecord>> {
    if event.RevisionItem? then ChangeOf(event.revision) else []
  }

  function ReleaseChange(event: FeedEvent): seq<Change<ReleaseRecord>> {
    if event.ReleaseItem? then ChangeOf(event.release) else []
  }

  function InstanceChange(event: FeedEvent): seq<Change<InstanceStatus>> {
    if event.InstanceItem? then ChangeOf(event.instance) else []
  }

  /** The event brings a change to one of the tables. */
  predicate Carries(event: FeedEvent) {
    RevisionChange(event) != [] || ReleaseChange(event) != [] || InstanceChange(event) != []
  }

  /** The event ends the feed. */
  predicate Ends(event: FeedEvent, dirty: bool) {
    match event
    case RevisionItem(item) => Fatal(item)
    case ReleaseItem(item) => Fatal(item)
    case InstanceItem(item) => Fatal(item)
    case TimerFires(accepted) => dirty && !accepted
    case ReceiverClosed => true
  }

  /** Whether something is unsent after the first `n` events. */
  predicate DirtyAfter(dirty: bool, events: seq<FeedEvent>, n: nat)
    requires n <= |events|
  {
    if n == 0 then dirty
    else if events[n - 1].TimerFires? then false
    else DirtyAfter(dirty, events, n - 1) || Carries(events[n - 1])
  }

  class RoutingFeed {
    const revisions: RowCache<RevisionKey, RevisionRecord>
    const releases: RowCache<ReleaseKey, ReleaseRecord>
    const instances: RowCache<InstanceId, InstanceStatus>
    var dirty: bool
    /** What the receiver has been given, the initial state first. */
    var sent: seq<RoutingState>

    ghost function View(): StoreView
      reads this, revisions, releases, instances
    {
      StoreView(revisions.records, releases.records, instances.records)
    }

    ghost predicate Caches()
      reads this, revisions, releases, instances
    {
      && revisions.Valid() && releases.Valid() && instances.Valid()
      && revisions.key == RevisionKeyOf && releases.key == ReleaseKeyOf && instances.key == InstanceKeyOf
    }

    /** Unless marked dirty, the state last sent is the current one. */
    ghost predicate Valid()
      reads this, revisions, releases, instances
    {
      Caches() && sent != [] && (dirty || ListsView(sent[|sent| - 1], View()))
    }

    constructor (
      revisions: RowCache<RevisionKey, RevisionRecord>, releases: RowCache<ReleaseKey, ReleaseRecord>,
      instances: RowCache<InstanceId, InstanceStatus>)
      requires revisions.Valid() && releases.Valid() && instances.Valid()
      requires revisions.key == RevisionKeyOf && releases.key == ReleaseKeyOf && instances.key == InstanceKeyOf
      ensures Valid() && !dirty
      ensures this.revisions == revisions && this.releases == releases && this.instances == instances
    {
      this.revisions, this.releases, this.instances := revisions, releases, instances;
      dirty, sent := false, [];
      new;
      var state := ToRoutingState();
      sent := [state];
    }

    method ToRoutingState() returns (state: RoutingState)
      requires Caches()
      ensures ListsView(state, View())
    {
      var rs := Enumerate(RevisionKeyOf, revisions.records);
      var ls := Enumerate(ReleaseKeyOf, releases.records);
      var is_ := Enumerate(InstanceKeyOf, instances.records);
      state := RoutingState(rs, ls, is_);
    }

    /** Sends the current state if something is unsent; `false` if the receiver is gone. */
    method Flush(accepted: bool) returns (ok: bool)
      requires Valid()
      modifies this
      ensures ok == !(old(dirty) && !accepted) && !dirty && (ok ==> Valid())
      ensures old(sent) <= sent
      ensures ok ==> |sent| == |old(sent)| + if old(dirty) then 1 else 0
      ensures !ok ==> sent == old(sent)
    {
      ok := true;
      if dirty {
        dirty := false;
        if !accepted {
          return false;
        }
        var state := ToRoutingState();
        sent := sent + [state];
      }
    }

    /** One turn of the loop; `more` is false when the feed ends. */
    method Turn(event: FeedEvent) returns (more: bool)
      requires Valid()
      modifies this, revisions, releases, instances
      ensures Caches() && (more ==> Valid()) && more == !Ends(event, old(dirty))
      ensures revisions.Value() == Stepped(RevisionKeyOf, old(revisions.Value()), RevisionChange(event))
      ensures releases.Value() == Stepped(ReleaseKeyOf, old(releases.Value()), ReleaseChange(event))
      ensures instances.Value() == Stepped(InstanceKeyOf, old(instances.Value()), InstanceChange(event))
      ensures more ==> dirty == if event.TimerFires? then false else old(dirty) || Carries(event)
      ensures old(sent) <= sent && |sent| == |old(sent)| + if more && event.TimerFires? && old(dirty) then 1 else 0
    {
      hide Stepped, Represents, KeyedBy, ListsView, Fatal, ChangeOf;
      NothingStepped(revisions.Value(), releases.Value(), instances.Value());
      var changed: Option<bool>;
      match event {
        case RevisionItem(item) => changed := revisions.HandleStreamEvent(item);
        case ReleaseItem(item) => changed := releases.HandleStreamEvent(item);
        case InstanceItem(item) => changed := instances.HandleStreamEvent(item);
        case TimerFires(accepted) =>
          var ok := Flush(accepted);
          if !ok {
            return false;
          }
          changed := Some(false);
        case ReceiverClosed => return false;
      }
      if changed == Some(true) {
        dirty := true;
      }
      return changed.Some?;
    }
  }

  lemma NothingStepped(
    revisions: Snapshot<RevisionKey, RevisionRecord>, releases: Snapshot<ReleaseKey, ReleaseRecord>,
    instances: Snapshot<InstanceId, InstanceStatus>)
    ensures Stepped(RevisionKeyOf, revisions, []) == revisions
    ensures Stepped(ReleaseKeyOf, releases, []) == releases
    ensures Stepped(InstanceKeyOf, instances, []) == instances
  {
  }

  /** `l` names exactly the live rows. */
  ghost predicate ListsRows<V>(l: seq<V>, table: map<RowId, V>) {
    (forall v :: v in l ==> v in table.Values) && (forall v :: v in table.Values ==> v in l)
  }

  /** A feed that is not dirty has sent exactly the live rows of the three tables, if all changes were orderly. */
  lemma CleanFeedIsCurrent(feed: RoutingFeed)
    requires feed.Valid() && !feed.dirty
    ensures
      var last := feed.sent[|feed.sent| - 1];
      && (feed.revisions.orderly ==> ListsRows(last.revisions, feed.revisions.table))
      && (feed.releases.orderly ==> ListsRows(last.releases, feed.releases.table))
      && (feed.instances.orderly ==> ListsRows(last.instances, feed.instances.table))
  {
    hide Represents, ListsRows, Lists;
    var last := feed.sent[|feed.sent| - 1];
    if feed.revisions.orderly {
      RowsListed(RevisionKeyOf, last.revisions, feed.revisions.Value().cache, feed.revisions.table);
    }
    if feed.releases.orderly {
      RowsListed(ReleaseKeyOf, last.releases, feed.releases.Value().cache, feed.releases.table);
    }
    if feed.instances.orderly {
      RowsListed(InstanceKeyOf, last.instances, feed.instances.Value().cache, feed.instances.table);
    }
  }

  lemma RowsListed<K, V>(key: V -> K, l: seq<V>, c: Cache<K, V>, table: map<RowId, V>)
    requires Lists(key, l, c.records) && Represents(key, c, table)
    ensures ListsRows(l, table)
  {
    OrderlyRecords(key, c, table);
    assert forall v :: v in c.records.Values ==> v in l;
  }

  /**
   * Any run of the feed, up to the first event that ends it: the tables are those of the changes
   * consumed, and unless something is unsent the state last sent lists exactly the rows of each
   * table whose changes were all orderly.
   */
  method RunFeed(feed: RoutingFeed, events: seq<FeedEvent>) returns (consumed: nat)
    requires feed.Valid()
    modifies feed, feed.revisions, feed.releases, feed.instances
    ensures feed.Caches() && consumed <= |events| && (consumed == |events| ==> feed.Valid())
    ensures forall i :: 0 <= i < consumed ==> !Ends(events[i], DirtyAfter(old(feed.dirty), events, i))
    ensures consumed < |events| ==> Ends(events[consumed], DirtyAfter(old(feed.dirty), events, consumed))
    ensures consumed == |events| ==> feed.dirty == DirtyAfter(old(feed.dirty), events, consumed)
    ensures feed.revisions.Value() ==
      Stepped(RevisionKeyOf, old(feed.revisions.Value()), Flat(RevisionChange, events[..consumed]))
    ensures feed.releases.Value() ==
      Stepped(ReleaseKeyOf, old(feed.releases.Value()), Flat(ReleaseChange, events[..consumed]))
    ensures feed.instances.Value() ==
      Stepped(InstanceKeyOf, old(feed.instances.Value()), Flat(InstanceChange, events[..consumed]))
    ensures consumed == |events| && !DirtyAfter(old(feed.dirty), events, consumed) ==> SentRows(
      feed.sent, old(feed.revisions.Value()), old(feed.releases.Value()), old(feed.instances.Value()), events)
  {
    hide Stepped, Flat, Ends, Carries, SentRows, ListsView, Represents;
    consumed := 0;
    ghost var rs, ls, is_ := feed.revisions.Value(), feed.releases.Value(), feed.instances.Value();
    NothingStepped(rs, ls, is_);
    NoEvents(events);
    while consumed < |events|
      invariant consumed <= |events| && feed.Valid()
      invariant forall i :: 0 <= i < consumed ==> !Ends(events[i], DirtyAfter(old(feed.dirty), events, i))
      invariant feed.dirty == DirtyAfter(old(feed.dirty), events, consumed)
      invariant feed.revisions.Value() == Stepped(RevisionKeyOf, rs, Flat(RevisionChange, events[..consumed]))
      invariant feed.releases.Value() == Stepped(ReleaseKeyOf, ls, Flat(ReleaseChange, events[..consumed]))
      invariant feed.instances.Value() == Stepped(InstanceKeyOf, is_, Flat(InstanceChange, events[..consumed]))
    {
      ghost var r, l, i := feed.revisions.Value(), feed.releases.Value(), feed.instances.Value();
      var more := feed.Turn(events[consumed]);
      if !more {
        EndChangesNothing(events[consumed], DirtyAfter(old(feed.dirty), events, consumed));
        NothingStepped(r, l, i);
        return;
      }
      OneMoreEvent(RevisionKeyOf, RevisionChange, rs, events, consumed);
      OneMoreEvent(ReleaseKeyOf, ReleaseChange, ls, events, consumed);
      OneMoreEvent(InstanceKeyOf, InstanceChange, is_, events, consumed);
      consumed := consumed + 1;
    }
    assert events[..|events|] == events;
    if !feed.dirty {
      CleanFeedIsCurrent(feed);
      RowsSent(feed.sent, rs, ls, is_, events);
    }
  }

  /** The last state sent lists the rows that the events lead to, table by table, where they are orderly. */
  ghost predicate SentRows(
    sent: seq<RoutingState>, revisions: Snapshot<RevisionKey, RevisionRecord>,
    releases: Snapshot<ReleaseKey, ReleaseRecord>,
    instances: Snapshot<InstanceId, InstanceStatus>, events: seq<FeedEvent>)
  {
    sent != [] &&
    var last := sent[|sent| - 1];
    && SentTable(RevisionKeyOf, last.revisions, revisions, Flat(RevisionChange, events))
    && SentTable(ReleaseKeyOf, last.releases, releases, Flat(ReleaseChange, events))
    && SentTable(InstanceKeyOf, last.instances, instances, Flat(InstanceChange, events))
  }

  ghost predicate SentTable<K, V>(key: V -> K, l: seq<V>, s: Snapshot<K, V>, changes: seq<Change<V>>) {
    s.orderly && AllOrderly(key, s.table, changes) ==> ListsRows(l, TableRun(s.table, changes))
  }

  lemma RowsSent(
    sent: seq<RoutingState>, revisions: Snapshot<RevisionKey, RevisionRecord>,
    releases: Snapshot<ReleaseKey, ReleaseRecord>,
    instances: Snapshot<InstanceId, InstanceStatus>, events: seq<FeedEvent>)
    requires sent != []
    requires
      var s, last := Stepped(RevisionKeyOf, revisions, Flat(RevisionChange, events)), sent[|sent| - 1];
      s.orderly ==> ListsRows(last.revisions, s.table)
    requires
      var s, last := Stepped(ReleaseKeyOf, releases, Flat(ReleaseChange, events)), sent[|sent| - 1];
      s.orderly ==> ListsRows(last.releases, s.table)
    requires
      var s, last := Stepped(InstanceKeyOf, instances, Flat(InstanceChange, events)), sent[|sent| - 1];
      s.orderly ==> ListsRows(last.instances, s.table)
    ensures SentRows(sent, revisions, releases, instances, events)
  {
    hide ListsRows;
  }

  lemma NoEvents(events: seq<FeedEvent>)
    ensures Flat(RevisionChange, events[..0]) == [] && Flat(ReleaseChange, events[..0]) == []
    ensures Flat(InstanceChange, events[..0]) == []
  {
  }

  lemma EndChangesNothing(event: FeedEvent, dirty: bool)
    requires Ends(event, dirty)
    ensures RevisionChange(event) == [] && ReleaseChange(event) == [] && InstanceChange(event) == []
  {
  }

  lemma OneMoreEvent<K, V>(
    key: V -> K, change: FeedEvent -> seq<Change<V>>, first: Snapshot<K, V>, events: seq<FeedEvent>, n: nat)
    requires n < |events|
    ensures Stepped(key, Stepped(key, first, Flat(change, events[..n])), change(events[n])) ==
      Stepped(key, first, Flat(change, events[..n + 1]))
  {
    FlatNext(change, events, n);
    SteppedTwice(key, first, Flat(change, events[..n]), change(events[n]));
  }

  // ---------------------------------------------------------------------------
  // What items and events mean
  // ---------------------------------------------------------------------------

  /** Which items bring a change, and which end a subscription. */
  lemma ItemExact<V>(item: StreamItem<V>, row: RowId, value: V)
    ensures ChangeOf(item) == [Upsert(row, value)] <==>
      item == Next(RowSeen(row, Some(value))) || item == Next(RowChanged(RawUpsert(row, Some(value))))
    ensures ChangeOf(item) == [Delete(row)] <==> item == Next(RowChanged(RawDelete(row)))
    ensures ChangeOf(item) == [] <==>
      Fatal(item) || item == Next(ColumnNames) || item == Next(QueryFinished)
    ensures Fatal(item) <==> match item
      case StreamError => true
      case StreamEnd => true
      case Next(ServerError) => true
      case Next(RowSeen(_, cells)) => cells == None
      case Next(RowChanged(RawUpsert(_, cells))) => cells == None
      case _ => false
  {
  }

  /** A machine is announced as added exactly when it was not known, and as removed only with the record it had. */
  lemma EventExact(c: MachineCache, change: Change<MachineRecord>, m: MachineRecord)
    ensures EventOf(c, change) == [Added(m)] <==> change.Upsert? && change.value == m && m.id !in c.records
    ensures EventOf(c, change) == [Updated(m)] <==> change.Upsert? && change.value == m && m.id in c.records
    ensures EventOf(c, change) == [RemovedMachine(m)] <==>
      change.Delete? && change.row in c.rowIndex && c.rowIndex[change.row] in c.records &&
      c.records[c.rowIndex[change.row]] == m
  {
  }

  /** A feed ends with a subscription, with its receiver, or when an unsent state finds no receiver. */
  lemma FeedEndsExact(event: FeedEvent, dirty: bool)
    ensures Ends(event, dirty) <==>
      || (event.RevisionItem? && Fatal(event.revision)) || (event.ReleaseItem? && Fatal(event.release))
      || (event.InstanceItem? && Fatal(event.instance))
      || event == ReceiverClosed || (dirty && event == TimerFires(false))
  {
  }
}
