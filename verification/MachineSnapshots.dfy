/** The byte format of state machine snapshots, and what restoring one gives back. */
module MachineSnapshots {
  import opened Common
  import opened Codec
  import opened Fields
  import opened Orders
  import opened StoreTypes
  import opened Stores
  import opened Tasks
  import opened TaskRuns
  import opened Machines
  import Business = StoreCommands

  const SNAPSHOT_VERSION: nat := 2
  const LEGACY_VERSION: nat := 1
  const MAX_RECORDS: nat := 4096
  const MAX_STORES: nat := 4096
  const MAX_TASKS: nat := 4096
  const MAX_ID: nat := 4 * 1024
  const MAX_PAYLOAD: nat := 4 * 1024 * 1024

  // ---------------------------------------------------------------- records

  /** `ValidateSnapshotRecord`. */
  predicate GoodRecord(r: StateRecord, lastIndex: LogIndex, lastTerm: Term) {
    && r.targetId != [] && r.generation != 0 && r.lastCommandId != []
    && r.updateIndex != 0 && r.updateTerm != 0 && r.updateIndex <= lastIndex && r.updateTerm <= lastTerm
    && |r.targetId| <= MAX_ID && |r.lastCommandId| <= MAX_ID && |r.payload| <= MAX_PAYLOAD
  }

  const RECORD_HEAD := [Num(4), Num(4), Num(4), Num(8), Num(8), Num(8)]

  function RecordHead(r: StateRecord): seq<Value> {
    [N(|r.targetId|), N(|r.payload|), N(|r.lastCommandId|), N(r.generation), N(r.updateIndex), N(r.updateTerm)]
  }

  function RecordShapes(target: nat, payload: nat, command: nat): seq<Shape> {
    [Raw(target, MAX_ID), Raw(payload, MAX_PAYLOAD), Raw(command, MAX_ID)]
  }

  function RecordData(r: StateRecord): seq<Value> {
    [D(r.targetId), D(r.payload), D(r.lastCommandId)]
  }

  /** The ranges of the source's integer fields. */
  predicate RecordInRange(r: StateRecord) {
    r.generation < U64_LIMIT && r.updateIndex < U64_LIMIT && r.updateTerm < U64_LIMIT
  }

  lemma RecordMatches(r: StateRecord, lastIndex: LogIndex, lastTerm: Term)
    requires GoodRecord(r, lastIndex, lastTerm) && RecordInRange(r)
    ensures AllMatch(RECORD_HEAD, RecordHead(r))
    ensures AllMatch(RecordShapes(|r.targetId|, |r.payload|, |r.lastCommandId|), RecordData(r))
  {
    Pow256Values();
  }

  ghost function RecordBytes(r: StateRecord, lastIndex: LogIndex, lastTerm: Term): Bytes
    requires GoodRecord(r, lastIndex, lastTerm) && RecordInRange(r)
  {
    RecordMatches(r, lastIndex, lastTerm);
    PutAll(RECORD_HEAD, RecordHead(r))
    + PutAll(RecordShapes(|r.targetId|, |r.payload|, |r.lastCommandId|), RecordData(r))
  }

  ghost predicate GoodRecords(list: seq<StateRecord>, lastIndex: LogIndex, lastTerm: Term) {
    forall r :: r in list ==> GoodRecord(r, lastIndex, lastTerm)
  }

  ghost predicate RecordsInRange(list: seq<StateRecord>) {
    forall r :: r in list ==> RecordInRange(r)
  }

  ghost function RecordsBytes(list: seq<StateRecord>, lastIndex: LogIndex, lastTerm: Term): Bytes
    requires GoodRecords(list, lastIndex, lastTerm) && RecordsInRange(list)
  {
    if list == [] then [] else
      RecordBytes(list[0], lastIndex, lastTerm) + RecordsBytes(list[1..], lastIndex, lastTerm)
  }

  ghost function TakeRecord(b: Bytes): Option<(StateRecord, Bytes)> {
    var head := TakeAll(RECORD_HEAD, b);
    if head.None? then None else
    PutTakeAll(RECORD_HEAD, b);
    var h := head.value.0;
    HeadTyped(h);
    var shapes := RecordShapes(h[0].n, h[1].n, h[2].n);
    var data := TakeAll(shapes, head.value.1);
    if data.None? then None else
    PutTakeAll(shapes, head.value.1);
    var d := data.value.0;
    DataTyped(h[0].n, h[1].n, h[2].n, d);
    Some((StateRecord(d[0].bytes, d[1].bytes, h[3].n, d[2].bytes, h[4].n, h[5].n), data.value.1))
  }

  lemma HeadTyped(h: seq<Value>)
    requires AllMatch(RECORD_HEAD, h)
    ensures |h| == 6 && h[0].N? && h[1].N? && h[2].N? && h[3].N? && h[4].N? && h[5].N?
  {
    assert forall k :: 0 <= k < 6 ==> Matches(RECORD_HEAD[k], h[k]);
  }

  lemma DataTyped(target: nat, payload: nat, command: nat, d: seq<Value>)
    requires AllMatch(RecordShapes(target, payload, command), d)
    ensures |d| == 3 && d[0].D? && d[1].D? && d[2].D?
  {
    assert forall k :: 0 <= k < 3 ==> Matches(RecordShapes(target, payload, command)[k], d[k]);
  }

  lemma TakeRecordBytes(r: StateRecord, lastIndex: LogIndex, lastTerm: Term, rest: Bytes)
    requires GoodRecord(r, lastIndex, lastTerm) && RecordInRange(r)
    ensures TakeRecord(RecordBytes(r, lastIndex, lastTerm) + rest) == Some((r, rest))
  {
    hide TakeAll, PutAll, AllMatch, GoodRecord;
    RecordMatches(r, lastIndex, lastTerm);
    var shapes := RecordShapes(|r.targetId|, |r.payload|, |r.lastCommandId|);
    var tail := PutAll(shapes, RecordData(r)) + rest;
    assert RecordBytes(r, lastIndex, lastTerm) + rest == PutAll(RECORD_HEAD, RecordHead(r)) + tail;
    TakePutAll(RECORD_HEAD, RecordHead(r), tail);
    TakePutAll(shapes, RecordData(r), rest);
  }

  /** The record loop of `RestoreSnapshot`: each record must be good and its target new. */
  ghost function TakeRecords(count: nat, b: Bytes, done: map<Bytes, StateRecord>, lastIndex: LogIndex, lastTerm: Term)
    : Option<(map<Bytes, StateRecord>, Bytes)>
    decreases count
  {
    if count == 0 then Some((done, b)) else
    var first := TakeRecord(b);
    if first.None? then None else
    var (r, rest) := first.value;
    if !GoodRecord(r, lastIndex, lastTerm) || r.targetId in done then None
    else TakeRecords(count - 1, rest, done[r.targetId := r], lastIndex, lastTerm)
  }

  ghost function Filed(done: map<Bytes, StateRecord>, list: seq<StateRecord>): map<Bytes, StateRecord>
    decreases |list|
  {
    if list == [] then done else Filed(done[list[0].targetId := list[0]], list[1..])
  }

  ghost predicate DistinctTargets(list: seq<StateRecord>) {
    forall i, j :: 0 <= i < j < |list| ==> list[i].targetId != list[j].targetId
  }

  lemma {:induction false} TakeRecordsBytes(list: seq<StateRecord>, done: map<Bytes, StateRecord>, lastIndex: LogIndex,
                                            lastTerm: Term, rest: Bytes)
    requires GoodRecords(list, lastIndex, lastTerm) && RecordsInRange(list) && DistinctTargets(list)
    requires forall r :: r in list ==> r.targetId !in done
    ensures TakeRecords(|list|, RecordsBytes(list, lastIndex, lastTerm) + rest, done, lastIndex, lastTerm)
            == Some((Filed(done, list), rest))
    decreases |list|
  {
    hide GoodRecord, RecordInRange, RecordBytes, TakeRecord;
    if list == [] {
      assert RecordsBytes(list, lastIndex, lastTerm) + rest == rest;
    } else {
      var first, others := list[0], list[1..];
      assert list == [first] + others;
      var tail := RecordsBytes(others, lastIndex, lastTerm) + rest;
      assert RecordsBytes(list, lastIndex, lastTerm) + rest == RecordBytes(first, lastIndex, lastTerm) + tail;
      TakeRecordBytes(first, lastIndex, lastTerm, tail);
      TakeRecordsBytes(others, done[first.targetId := first], lastIndex, lastTerm, rest);
    }
  }

  lemma {:induction false} FiledFacts(done: map<Bytes, StateRecord>, list: seq<StateRecord>)
    requires DistinctTargets(list)
    ensures var after := Filed(done, list);
            && after.Keys == done.Keys + (set r | r in list :: r.targetId)
            && (forall r :: r in list ==> after[r.targetId] == r)
            && (forall id :: id in done && (forall r :: r in list ==> r.targetId != id) ==> after[id] == done[id])
    decreases |list|
  {
    if list != [] {
      assert list == [list[0]] + list[1..];
      FiledFacts(done[list[0].targetId := list[0]], list[1..]);
    }
  }

  /** The records in the order of their target ids: how the ordered map is iterated. */
  ghost function Listed(m: Machine): (list: seq<StateRecord>)
    ensures |list| == |m.records|
  {
    BytesOrder(m.records.Keys);
    Named(m.records, Ordered(BytesLess, m.records.Keys))
  }

  ghost function Named(records: map<Bytes, StateRecord>, ids: seq<Bytes>): (list: seq<StateRecord>)
    requires forall id :: id in ids ==> id in records
    ensures |list| == |ids| && forall k :: 0 <= k < |ids| ==> list[k] == records[ids[k]]
  {
    if ids == [] then [] else [records[ids[0]]] + Named(records, ids[1..])
  }

  lemma ListedFacts(m: Machine)
    requires forall id :: id in m.records ==> m.records[id].targetId == id
    ensures DistinctTargets(Listed(m))
    ensures forall r: StateRecord :: r in Listed(m) <==> r.targetId in m.records && m.records[r.targetId] == r
  {
    hide BytesLess, Ordered, TotalOn;
    BytesOrder(m.records.Keys);
    var ids := Ordered(BytesLess, m.records.Keys);
    OrderedApart(m.records.Keys);
    NamedFacts(m.records, ids);
  }

  lemma OrderedApart(keys: set<Bytes>)
    requires TotalOn(BytesLess, keys)
    ensures var ids := Ordered(BytesLess, keys); forall i, j :: 0 <= i < j < |ids| ==> ids[i] != ids[j]
  {
    hide BytesLess, Ordered;
    var ids := Ordered(BytesLess, keys);
    forall i, j | 0 <= i < j < |ids| ensures ids[i] != ids[j]
    {
      assert ids[i] in ids;
      assert BytesLess(ids[i], ids[j]);
    }
  }

  lemma NamedFacts(records: map<Bytes, StateRecord>, ids: seq<Bytes>)
    requires forall id :: id in records ==> records[id].targetId == id
    requires forall id :: id in ids <==> id in records
    requires forall i, j :: 0 <= i < j < |ids| ==> ids[i] != ids[j]
    ensures DistinctTargets(Named(records, ids))
    ensures forall r: StateRecord :: r in Named(records, ids) <==> r.targetId in records && records[r.targetId] == r
  {
    var list := Named(records, ids);
    forall i | 0 <= i < |list| ensures list[i].targetId == ids[i] && ids[i] in records
    {
      assert ids[i] in ids;
    }
    forall r: StateRecord | r.targetId in records && records[r.targetId] == r ensures r in list
    {
      assert r.targetId in ids;
      var k :| 0 <= k < |ids| && ids[k] == r.targetId;
      assert list[k] == r;
    }
  }

  lemma FiledListed(m: Machine)
    requires forall id :: id in m.records ==> m.records[id].targetId == id
    ensures Filed(map[], Listed(m)) == m.records
  {
    hide Filed, Listed, DistinctTargets;
    ListedFacts(m);
    FiledFacts(map[], Listed(m));
    var after := Filed(map[], Listed(m));
    forall id | id in m.records ensures id in after && after[id] == m.records[id]
    {
      assert m.records[id] in Listed(m);
    }
  }

  // ---------------------------------------------------------------- creating a snapshot

  const HEADER := [Num(1), Num(4), Num(8), Num(8)]

  function HeaderValues(m: Machine): seq<Value> {
    [N(SNAPSHOT_VERSION), N(|m.records|), N(m.lastIndex), N(m.lastTerm)]
  }

  function StoreRows(list: seq<StoreInfo>): (rows: seq<seq<Value>>)
    ensures |rows| == |list| && forall k :: 0 <= k < |list| ==> rows[k] == Business.StoreValues(list[k])
  {
    if list == [] then [] else [Business.StoreValues(list[0])] + StoreRows(list[1..])
  }

  lemma StoreRowsMatch(list: seq<StoreInfo>)
    requires forall s :: s in list ==> Business.StoreFits(s)
    ensures forall r :: r in StoreRows(list) ==> AllMatch(Business.STORE_SHAPES, r)
  {
    hide AllMatch, Business.StoreFits;
    forall i | 0 <= i < |list| ensures AllMatch(Business.STORE_SHAPES, StoreRows(list)[i])
    {
      Business.StoreMatches(list[i]);
    }
  }

  /** The ranges of the source's integer fields. */
  ghost predicate InRange(m: Machine) {
    && NumbersInRange(m)
    && (forall id :: id in m.stores.stores ==> Business.StoreFits(m.stores.stores[id]))
    && (forall id :: id in m.tasks.tasks ==> m.tasks.tasks[id].owner < U64_LIMIT)
  }

  /** The ranges of the numbers in the header and in the records. */
  ghost predicate NumbersInRange(m: Machine) {
    && |m.records| < U32_LIMIT && m.lastIndex < U64_LIMIT && m.lastTerm < U64_LIMIT
    && RecordsInRange(Listed(m))
  }

  /** What `CreateSnapshot` checks while it writes. */
  ghost predicate Writable(m: Machine)
    requires m.tasks.Keyed()
  {
    && GoodRecords(Listed(m), m.lastIndex, m.lastTerm)
    && ListsFit(m.stores.Export(), m.tasks.Export())
  }

  ghost function SnapshotBytes(m: Machine): Bytes
    requires m.tasks.Keyed() && NumbersInRange(m) && Writable(m)
  {
    HeaderMatches(m);
    PutAll(HEADER, HeaderValues(m))
    + (RecordsBytes(Listed(m), m.lastIndex, m.lastTerm) + ListsBytes(m.stores.Export(), m.tasks.Export()))
  }

  lemma ExportedStoresFit(m: Machine)
    requires InRange(m)
    ensures forall s :: s in m.stores.Export() ==> Business.StoreFits(s)
    ensures |m.stores.Export()| == |m.stores.stores|
  {
    hide Business.StoreFits;
    var ids := IdSets.Listing(m.stores.stores.Keys);
    forall k | 0 <= k < |ids| ensures Business.StoreFits(m.stores.Export()[k])
    {
      assert ids[k] in ids;
      QuietFits(m.stores.stores[ids[k]]);
    }
  }

  lemma QuietFits(s: StoreInfo)
    requires Business.StoreFits(s)
    ensures Business.StoreFits(s.(heartbeat := 0))
  {
  }

  lemma ExportedTasksFit(m: Machine)
    requires Sound(m) && InRange(m)
    ensures forall t :: t in m.tasks.Export() ==> Business.TaskFits(t)
    ensures |m.tasks.Export()| == |m.tasks.tasks|
  {
    ExportLists(m.tasks);
    hide TaskTable.Export, Registry.Consistent;
    forall t | t in m.tasks.Export() ensures Business.TaskFits(t)
    {
      assert t in m.tasks.Records();
      LifecycleFits(t);
    }
    RecordsCount(m.tasks);
    ListCount(m.tasks);
  }

  lemma LifecycleFits(t: TaskRecord)
    requires InLifecycle(t) && t.owner < U64_LIMIT
    ensures Business.TaskFits(t)
  {
  }

  lemma ListCount(t: TaskTable)
    requires t.Keyed()
    ensures |t.Export()| == |t.Records()|
  {
    FifoOrder(t);
  }

  lemma RecordsCount(t: TaskTable)
    requires t.Keyed()
    ensures |t.Records()| == |t.tasks|
  {
    CountByKey(t.tasks, t.tasks.Keys);
    assert t.Records() == RecordsOf(t.tasks, t.tasks.Keys);
  }

  ghost function RecordsOf(tasks: map<TaskId, TaskRecord>, ids: set<TaskId>): set<TaskRecord>
    requires ids <= tasks.Keys
  {
    set id | id in ids :: tasks[id]
  }

  lemma {:induction false} CountByKey(tasks: map<TaskId, TaskRecord>, ids: set<TaskId>)
    requires ids <= tasks.Keys && forall id :: id in tasks ==> tasks[id].taskId == id
    ensures |RecordsOf(tasks, ids)| == |ids|
    decreases |ids|
  {
    if ids != {} {
      var id :| id in ids;
      CountByKey(tasks, ids - {id});
      assert RecordsOf(tasks, ids) == RecordsOf(tasks, ids - {id}) + {tasks[id]};
    }
  }

  lemma SoundKeyed(m: Machine)
    requires Sound(m)
    ensures m.tasks.Keyed() && m.stores.Consistent() && Orderly(m.tasks)
  {
  }

  lemma HeaderMatches(m: Machine)
    requires NumbersInRange(m)
    ensures AllMatch(HEADER, HeaderValues(m))
  {
    hide Listed, RecordsInRange, Pow256;
    Pow256Values();
  }

  lemma CountMatches(n: nat)
    requires n < U32_LIMIT
    ensures AllMatch([Num(4)], [N(n)])
  {
    Pow256Values();
  }

  /** `CreateSnapshot`. */
  ghost function Create(m: Machine, index: LogIndex, term: Term): Result<Bytes>
    requires m.tasks.Keyed() && NumbersInRange(m)
  {
    if index != m.lastIndex || term != m.lastTerm then Failure(Busy)
    else if !GoodRecords(Listed(m), m.lastIndex, m.lastTerm) then Failure(Corruption)
    else if |m.stores.Export()| > MAX_STORES || |m.tasks.Export()| > MAX_TASKS then Failure(Busy)
    else if !ListsFit(m.stores.Export(), m.tasks.Export()) then Failure(Corruption)
    else Success(SnapshotBytes(m))
  }

  /** A reachable machine's snapshot is refused only for its records or for the number of stores or tasks. */
  lemma CreatedIff(m: Machine)
    requires Sound(m) && InRange(m)
    ensures m.tasks.Keyed()
    ensures Create(m, m.lastIndex, m.lastTerm).Success? <==>
              && GoodRecords(Listed(m), m.lastIndex, m.lastTerm)
              && |m.stores.stores| <= MAX_STORES && |m.tasks.tasks| <= MAX_TASKS
  {
    hide Registry.Export, TaskTable.Export, Registry.Consistent, Business.TaskFits, Business.StoreFits, GoodRecords,
         RecordsInRange, Listed;
    SoundKeyed(m);
    hide Orderly;
    ExportedStoresFit(m);
    ExportedTasksFit(m);
    ExportedQuiet(m.stores);
  }

  // ---------------------------------------------------------------- restoring a snapshot

  ghost function TakeCounted(ss: seq<Shape>, max: nat, b: Bytes): Option<(seq<seq<Value>>, Bytes)> {
    var count := TakeAll([Num(4)], b);
    if count.None? then None else
    PutTakeAll([Num(4)], b);
    CountTyped(count.value.0);
    var n := count.value.0[0].n;
    if n > max then None else TakeMany(ss, n, count.value.1)
  }

  lemma CountTyped(vs: seq<Value>)
    requires AllMatch([Num(4)], vs)
    ensures |vs| == 1 && vs[0].N?
  {
    assert Matches([Num(4)][0], vs[0]);
  }

  ghost function StoresFrom(rows: seq<seq<Value>>): (list: seq<StoreInfo>)
    requires forall r :: r in rows ==> AllMatch(Business.STORE_SHAPES, r)
    ensures |list| == |rows|
  {
    if rows == [] then [] else
      assert rows[0] in rows;
      Business.StoreTyped(rows[0]);
      [Business.StoreFrom(rows[0])] + StoresFrom(rows[1..])
  }

  /** Stores and tasks, which the first format version did not have. */
  ghost function TakeBusiness(version: nat, b: Bytes): Option<(seq<StoreInfo>, seq<TaskRecord>, Bytes)> {
    if version == LEGACY_VERSION then Some(([], [], b)) else
    var stores := TakeCounted(Business.STORE_SHAPES, MAX_STORES, b);
    if stores.None? then None else
    CountedTyped(Business.STORE_SHAPES, MAX_STORES, b);
    var tasks := TakeCounted(Business.TASK_SHAPES, MAX_TASKS, stores.value.1);
    if tasks.None? then None else
    CountedTyped(Business.TASK_SHAPES, MAX_TASKS, stores.value.1);
    Some((StoresFrom(stores.value.0), Business.TasksFrom(tasks.value.0), tasks.value.1))
  }

  lemma CountedTyped(ss: seq<Shape>, max: nat, b: Bytes)
    requires TakeCounted(ss, max, b).Some?
    ensures forall r :: r in TakeCounted(ss, max, b).value.0 ==> AllMatch(ss, r)
  {
    hide TakeAll, AllMatch, TakeMany;
    var (vs, rest) := TakeAll([Num(4)], b).value;
    PutTakeAll([Num(4)], b);
    CountTyped(vs);
    PutTakeMany(ss, vs[0].n, rest);
  }

  lemma HeaderTyped(h: seq<Value>)
    requires AllMatch(HEADER, h)
    ensures |h| == 4 && h[0].N? && h[1].N? && h[2].N? && h[3].N?
  {
    assert forall k :: 0 <= k < 4 ==> Matches(HEADER[k], h[k]);
  }

  /** `RestoreSnapshot`. */
  ghost function Restore(b: Bytes): Result<Machine> {
    var header := TakeAll(HEADER, b);
    if header.None? then Failure(Corruption) else
    PutTakeAll(HEADER, b);
    var h := header.value.0;
    HeaderTyped(h);
    var (version, count, index, term) := (h[0].n, h[1].n, h[2].n, h[3].n);
    if version != SNAPSHOT_VERSION && version != LEGACY_VERSION then Failure(Corruption)
    else if count > MAX_RECORDS || (index == 0) != (term == 0) then Failure(Corruption)
    else RestoreBody(version, count, index, term, header.value.1)
  }

  /** What follows the header. */
  ghost function RestoreBody(version: nat, count: nat, index: LogIndex, term: Term, b: Bytes): Result<Machine> {
    var records := TakeRecords(count, b, map[], index, term);
    if records.None? then Failure(Corruption) else
    var business := TakeBusiness(version, records.value.1);
    if business.None? || business.value.2 != [] then Failure(Corruption)
    else Assembled(records.value.0, index, term, business.value.0, business.value.1)
  }

  /** The machine of the decoded parts; the registry and the task table have the last word. */
  ghost function Assembled(records: map<Bytes, StateRecord>, index: LogIndex, term: Term, storeList: seq<StoreInfo>,
                           taskList: seq<TaskRecord>): Result<Machine> {
    var stores := Stores.Restore(storeList);
    if stores.Failure? then Failure(stores.error) else
    var tasks := Tasks.Restore(taskList);
    if tasks.Failure? then Failure(tasks.error)
    else Success(Machine(records, index, term, stores.value, tasks.value))
  }

  // ---------------------------------------------------------------- what is written is read back

  lemma TakeCountedRows(ss: seq<Shape>, max: nat, rows: seq<seq<Value>>, rest: Bytes)
    requires |rows| <= max < U32_LIMIT && forall r :: r in rows ==> AllMatch(ss, r)
    requires AllMatch([Num(4)], [N(|rows|)])
    ensures TakeCounted(ss, max, PutAll([Num(4)], [N(|rows|)]) + (PutMany(ss, rows) + rest)) == Some((rows, rest))
  {
    hide TakeAll, PutAll, AllMatch, TakeMany, PutMany;
    TakePutAll([Num(4)], [N(|rows|)], PutMany(ss, rows) + rest);
    TakePutMany(ss, rows, rest);
  }

  lemma {:induction false} StoresBack(list: seq<StoreInfo>)
    requires forall s :: s in list ==> Business.StoreFits(s) && s.heartbeat == 0
    ensures forall r :: r in StoreRows(list) ==> AllMatch(Business.STORE_SHAPES, r)
    ensures StoresFrom(StoreRows(list)) == list
  {
    StoreRowsMatch(list);
    hide AllMatch, Business.StoreFits;
    if list != [] {
      assert list == [list[0]] + list[1..];
      assert StoreRows(list)[1..] == StoreRows(list[1..]);
      StoresBack(list[1..]);
    }
  }

  lemma ExportedQuiet(r: Registry)
    ensures forall s :: s in r.Export() ==> s.heartbeat == 0
  {
  }

  ghost predicate ListsFit(stores: seq<StoreInfo>, tasks: seq<TaskRecord>) {
    && |stores| <= MAX_STORES && |tasks| <= MAX_TASKS
    && (forall s :: s in stores ==> Business.StoreFits(s) && s.heartbeat == 0)
    && (forall t :: t in tasks ==> Business.TaskFits(t))
  }

  lemma ListsMatch(stores: seq<StoreInfo>, tasks: seq<TaskRecord>)
    requires ListsFit(stores, tasks)
    ensures AllMatch([Num(4)], [N(|stores|)]) && AllMatch([Num(4)], [N(|tasks|)])
    ensures forall r :: r in StoreRows(stores) ==> AllMatch(Business.STORE_SHAPES, r)
    ensures forall r :: r in Business.TaskRows(tasks) ==> AllMatch(Business.TASK_SHAPES, r)
  {
    hide Business.TaskFits, Business.StoreFits, AllMatch;
    CountMatches(|stores|);
    CountMatches(|tasks|);
    StoreRowsMatch(stores);
    Business.RowsMatch(tasks);
  }

  ghost function ListsBytes(stores: seq<StoreInfo>, tasks: seq<TaskRecord>): Bytes
    requires ListsFit(stores, tasks)
  {
    ListsMatch(stores, tasks);
    PutAll([Num(4)], [N(|stores|)]) + (PutMany(Business.STORE_SHAPES, StoreRows(stores))
    + (PutAll([Num(4)], [N(|tasks|)]) + PutMany(Business.TASK_SHAPES, Business.TaskRows(tasks))))
  }

  lemma TakeListsBytes(stores: seq<StoreInfo>, tasks: seq<TaskRecord>)
    requires ListsFit(stores, tasks)
    ensures TakeBusiness(SNAPSHOT_VERSION, ListsBytes(stores, tasks)) == Some((stores, tasks, []))
  {
    hide TakeAll, PutAll, AllMatch, TakeMany, PutMany, Business.TaskFits, Business.StoreFits, TakeCounted;
    ListsMatch(stores, tasks);
    StoresBack(stores);
    Business.TasksBack(tasks);
    var storeRows, taskRows := StoreRows(stores), Business.TaskRows(tasks);
    var tail := PutAll([Num(4)], [N(|taskRows|)]) + PutMany(Business.TASK_SHAPES, taskRows);
    TakeCountedRows(Business.STORE_SHAPES, MAX_STORES, storeRows, tail);
    TakeCountedRows(Business.TASK_SHAPES, MAX_TASKS, taskRows, []);
    assert PutMany(Business.TASK_SHAPES, taskRows) + [] == PutMany(Business.TASK_SHAPES, taskRows);
  }

  /**
   Restoring a snapshot gives back the machine without its heartbeats, or, when there are more records
   than the reader accepts, reports corruption: the writer does not check their number.
   */
  lemma RestoreCreated(m: Machine)
    requires Sound(m) && NumbersInRange(m) && m.tasks.Keyed() && Create(m, m.lastIndex, m.lastTerm).Success?
    ensures Restore(Create(m, m.lastIndex, m.lastTerm).value)
            == if |m.records| <= MAX_RECORDS then Success(Forget(m)) else Failure(Corruption)
  {
    hide Sound, PutAll, AllMatch, Restore, RestoreBody, ListsBytes, RecordsBytes, Listed, Registry.Export,
         TaskTable.Export, GoodRecords, RecordsInRange, ListsFit;
    HeaderMatches(m);
    RestoreHeader(m, RecordsBytes(Listed(m), m.lastIndex, m.lastTerm)
                     + ListsBytes(m.stores.Export(), m.tasks.Export()));
    RestoreRecords(m);
  }

  lemma RestoreHeader(m: Machine, body: Bytes)
    requires AllMatch(HEADER, HeaderValues(m)) && Sound(m)
    ensures Restore(PutAll(HEADER, HeaderValues(m)) + body)
            == if |m.records| > MAX_RECORDS then Failure(Corruption)
               else RestoreBody(SNAPSHOT_VERSION, |m.records|, m.lastIndex, m.lastTerm, body)
  {
    hide TakeAll, PutAll, AllMatch, RestoreBody, Registry.Consistent, Orderly;
    TakePutAll(HEADER, HeaderValues(m), body);
  }

  lemma RecordsTaken(m: Machine, rest: Bytes)
    requires Sound(m) && GoodRecords(Listed(m), m.lastIndex, m.lastTerm) && RecordsInRange(Listed(m))
    ensures TakeRecords(|m.records|, RecordsBytes(Listed(m), m.lastIndex, m.lastTerm) + rest, map[], m.lastIndex, m.lastTerm)
            == Some((m.records, rest))
  {
    hide RecordsBytes, TakeRecords, Listed, GoodRecords, RecordsInRange, Filed, Registry.Consistent, Orderly;
    ListedFacts(m);
    FiledListed(m);
    TakeRecordsBytes(Listed(m), map[], m.lastIndex, m.lastTerm, rest);
  }

  lemma RestoreRecords(m: Machine)
    requires Sound(m) && GoodRecords(Listed(m), m.lastIndex, m.lastTerm) && RecordsInRange(Listed(m))
    requires m.tasks.Keyed() && ListsFit(m.stores.Export(), m.tasks.Export())
    ensures RestoreBody(SNAPSHOT_VERSION, |m.records|, m.lastIndex, m.lastTerm,
                        RecordsBytes(Listed(m), m.lastIndex, m.lastTerm)
                        + ListsBytes(m.stores.Export(), m.tasks.Export()))
            == Success(Forget(m))
  {
    hide Sound, RecordsBytes, ListsBytes, TakeRecords, TakeBusiness, Listed, GoodRecords,
         Stores.Restore, Tasks.Restore, Registry.Export, TaskTable.Export, Registry.Forget, ListsFit, TaskTable.Keyed;
    SoundKeyed(m);
    hide Orderly, Registry.Consistent;
    RecordsTaken(m, ListsBytes(m.stores.Export(), m.tasks.Export()));
    TakeListsBytes(m.stores.Export(), m.tasks.Export());
    Stores.RestoreExport(m.stores);
    TaskRuns.RestoreExport(m.tasks);
  }

  /** A snapshot that was written can be restored exactly when the machine has at most 4096 records. */
  lemma RestorableIff(m: Machine)
    requires Sound(m) && NumbersInRange(m) && m.tasks.Keyed() && Create(m, m.lastIndex, m.lastTerm).Success?
    ensures Restore(Create(m, m.lastIndex, m.lastTerm).value).Success? <==> |m.records| <= MAX_RECORDS
  {
    hide Create, Restore, NumbersInRange, Sound;
    RestoreCreated(m);
  }
}
