/**
 What can be restored from a persistent form that need not be an export of this machine: which lists of stores
 and tasks are accepted, what any snapshot that is accepted holds, and the snapshots of the first format version.
 */
module Restorations {
  import opened Common
  import opened Codec
  import opened Fields
  import opened StoreTypes
  import opened Stores
  import opened Tasks
  import opened TaskRuns
  import opened Machines
  import opened MachineSnapshots
  import Business = StoreCommands

  // ---------------------------------------------------------------- stores

  /** Well-formed stores, no two of the same id or address, none of them known already. */
  ghost predicate Registrable(r: Registry, list: seq<StoreInfo>) {
    && (forall i :: 0 <= i < |list| ==>
          ValidStore(list[i]) && list[i].id !in r.stores && !AddressTaken(r, list[i].address))
    && (forall i, j :: 0 <= i < j < |list| ==> list[i].id != list[j].id && list[i].address != list[j].address)
  }

  ghost function StoreIds(list: seq<StoreInfo>): set<StoreId> {
    set s | s in list :: s.id
  }

  /** The registry holds what it held and the listed stores, none of them with a heartbeat. */
  ghost predicate HoldsStores(before: Registry, list: seq<StoreInfo>, after: Registry) {
    && after.stores.Keys == before.stores.Keys + StoreIds(list)
    && (forall id :: id in before.stores && id !in StoreIds(list) ==> after.stores[id] == before.stores[id])
    && forall s :: s in list ==> s.id in after.stores && after.stores[s.id] == s.(heartbeat := 0)
  }

  lemma RestoreOneIff(r: Registry, s: StoreInfo)
    requires r.Consistent()
    ensures var (status, next) := Stores.RestoreOne(r, s);
            && (status == Ok <==> ValidStore(s) && s.id !in r.stores && !AddressTaken(r, s.address))
            && (status == Ok ==> next.stores == r.stores[s.id := s.(heartbeat := 0)] && next.Consistent())
  {
    KeyIffTaken(r, s.address);
    RestoreOneConsistent(r, s);
    hide AddressKey, AddressTaken, ValidAddress, Registry.Consistent;
  }

  lemma RegistrableStep(r: Registry, next: Registry, list: seq<StoreInfo>)
    requires list != [] && list[0].id !in r.stores && next.stores == r.stores[list[0].id := list[0].(heartbeat := 0)]
    requires ValidStore(list[0]) && !AddressTaken(r, list[0].address)
    ensures Registrable(r, list) <==> Registrable(next, list[1..])
  {
    hide ValidStore;
    var rest := list[1..];
    if Registrable(next, rest) {
      forall i, j | 0 <= i < j < |list| ensures list[i].id != list[j].id && list[i].address != list[j].address
      {
        assert list[j] == rest[j - 1];
        if i > 0 {
          assert list[i] == rest[i - 1];
        } else {
          assert next.stores[list[0].id].address == list[0].address;
        }
      }
      forall i | 0 <= i < |list|
        ensures ValidStore(list[i]) && list[i].id !in r.stores && !AddressTaken(r, list[i].address)
      {
        if i > 0 {
          assert list[i] == rest[i - 1];
          StillTaken(r, next, list[i].address);
        }
      }
    }
    if Registrable(r, list) {
      forall i | 0 <= i < |rest|
        ensures ValidStore(rest[i]) && rest[i].id !in next.stores && !AddressTaken(next, rest[i].address)
      {
        assert rest[i] == list[i + 1];
      }
    }
  }

  lemma StillTaken(r: Registry, next: Registry, a: StoreAddress)
    requires forall id :: id in r.stores ==> id in next.stores && next.stores[id].address == r.stores[id].address
    ensures AddressTaken(r, a) ==> AddressTaken(next, a)
  {
  }

  lemma HoldsStep(r: Registry, next: Registry, list: seq<StoreInfo>, after: Registry)
    requires list != [] && next.stores == r.stores[list[0].id := list[0].(heartbeat := 0)]
    requires HoldsStores(next, list[1..], after) && list[0].id !in StoreIds(list[1..])
    ensures HoldsStores(r, list, after)
  {
    assert list == [list[0]] + list[1..];
    assert StoreIds(list) == {list[0].id} + StoreIds(list[1..]);
  }

  lemma FirstIsApart(r: Registry, list: seq<StoreInfo>)
    requires Registrable(r, list) && list != []
    ensures list[0].id !in StoreIds(list[1..])
  {
  }

  lemma {:induction false} RestoreStoresFrom(r: Registry, list: seq<StoreInfo>)
    requires r.Consistent()
    ensures Stores.RestoreFrom(r, list).Success? <==> Registrable(r, list)
    ensures Stores.RestoreFrom(r, list).Success? ==>
              var after := Stores.RestoreFrom(r, list).value; after.Consistent() && HoldsStores(r, list, after)
    decreases |list|
  {
    hide Registry.Consistent, Stores.RestoreOne, ValidStore, AddressTaken, HoldsStores;
    if list == [] {
      NothingHeld(r);
    } else {
      var next := Stores.RestoreOne(r, list[0]).1;
      RestoreOneIff(r, list[0]);
      if Stores.RestoreOne(r, list[0]).0 == Ok {
        RestoreStoresFrom(next, list[1..]);
        RegistrableStep(r, next, list);
        if Registrable(r, list) {
          FirstIsApart(r, list);
          hide Registrable;
          HoldsStep(r, next, list, Stores.RestoreFrom(next, list[1..]).value);
        }
      }
    }
  }

  lemma NothingHeld(r: Registry)
    ensures HoldsStores(r, [], r)
  {
    assert StoreIds([]) == {};
  }

  /** A list of stores is restored if and only if each is well-formed and no two share an id or an address. */
  lemma StoresRestoredIff(list: seq<StoreInfo>)
    ensures Stores.Restore(list).Success? <==>
              && (forall i :: 0 <= i < |list| ==> ValidStore(list[i]))
              && (forall i, j :: 0 <= i < j < |list| ==> list[i].id != list[j].id && list[i].address != list[j].address)
    ensures Stores.Restore(list).Success? ==>
              var after := Stores.Restore(list).value; after.Consistent() && HoldsStores(NO_STORES, list, after)
  {
    hide HoldsStores, ValidStore;
    RestoreStoresFrom(NO_STORES, list);
  }

  // ---------------------------------------------------------------- tasks

  /** Valid records with sequences below the last one, no two of the same id, none of them known already. */
  ghost predicate Listable(t: TaskTable, records: seq<TaskRecord>) {
    && (forall i :: 0 <= i < |records| ==>
          ValidRecord(records[i]) && records[i].sequence != LAST && records[i].taskId !in t.tasks)
    && (forall i, j :: 0 <= i < j < |records| ==> records[i].taskId != records[j].taskId)
  }

  lemma {:induction false} RestoreTasksFrom(t: TaskTable, records: seq<TaskRecord>)
    requires t.nextSequence <= LAST && forall i :: 0 <= i < |records| ==> records[i].sequence <= LAST
    ensures Tasks.RestoreFrom(t, records).Success? <==> Listable(t, records)
    decreases |records|
  {
    hide ValidRecord;
    if records != [] {
      var (status, next) := Tasks.RestoreOne(t, records[0]);
      var rest := records[1..];
      if status == Ok {
        RestoreTasksFrom(next, rest);
        ListableStep(t, next, records);
      }
    }
  }

  lemma ListableStep(t: TaskTable, next: TaskTable, records: seq<TaskRecord>)
    requires records != [] && ValidRecord(records[0]) && records[0].sequence != LAST && records[0].taskId !in t.tasks
    requires next.tasks == t.tasks[records[0].taskId := records[0]]
    ensures Listable(t, records) <==> Listable(next, records[1..])
  {
    hide ValidRecord;
    var rest := records[1..];
    if Listable(next, rest) {
      forall i, j | 0 <= i < j < |records| ensures records[i].taskId != records[j].taskId
      {
        assert records[j] == rest[j - 1];
        if i > 0 {
          assert records[i] == rest[i - 1];
        }
      }
      forall i | 0 <= i < |records|
        ensures ValidRecord(records[i]) && records[i].sequence != LAST && records[i].taskId !in t.tasks
      {
        if i > 0 {
          assert records[i] == rest[i - 1];
        }
      }
    }
  }

  /** A list of tasks is restored if and only if each is valid, none has the last sequence and no two share an id. */
  lemma TasksRestoredIff(records: seq<TaskRecord>)
    requires forall i :: 0 <= i < |records| ==> records[i].sequence <= LAST
    ensures Tasks.Restore(records).Success? <==>
              && (forall i :: 0 <= i < |records| ==> ValidRecord(records[i]) && records[i].sequence != LAST)
              && DistinctIds(records)
    ensures Tasks.Restore(records).Success? ==>
              var after := Tasks.Restore(records).value;
              && after.Keyed() && after.Records() == (set r | r in records)
              && forall id :: id in after.tasks ==>
                   ValidRecord(after.tasks[id]) && after.tasks[id].sequence < after.nextSequence
  {
    hide ValidRecord, Tasks.RestoreFrom;
    RestoreTasksFrom(NO_TASKS, records);
    if Tasks.Restore(records).Success? {
      forall r | r in records ensures ValidRecord(r) && r.sequence < LAST && r.taskId !in NO_TASKS.tasks {}
      RestoreAccumulates(NO_TASKS, records);
      NextAfterFacts(1, records);
      StoredFacts(map[], records);
      FiledTable(records, NextAfter(1, records));
    }
  }

  lemma FiledTable(records: seq<TaskRecord>, next: nat)
    requires DistinctIds(records) && forall r :: r in records ==> r.sequence < next && ValidRecord(r)
    ensures var t := TaskTable(TaskTable.Stored(map[], records), next);
            && t.Keyed() && t.Records() == (set r | r in records)
            && forall id :: id in t.tasks ==> ValidRecord(t.tasks[id]) && t.tasks[id].sequence < t.nextSequence
  {
    StoredFacts(map[], records);
    hide ValidRecord, TaskTable.Stored, DistinctIds;
    var t := TaskTable(TaskTable.Stored(map[], records), next);
    forall id | id in t.tasks ensures t.tasks[id] in records && t.tasks[id].taskId == id
    {
      var r :| r in records && r.taskId == id;
    }
    forall r | r in records ensures r in t.Records()
    {
      assert t.tasks[r.taskId] == r;
    }
  }

  // ---------------------------------------------------------------- machine snapshots

  /** Good records, each under its own target. */
  ghost predicate RecordsHold(records: map<Bytes, StateRecord>, lastIndex: LogIndex, lastTerm: Term) {
    forall id :: id in records ==> records[id].targetId == id && GoodRecord(records[id], lastIndex, lastTerm)
  }

  lemma {:induction false} TakenRecordsHold(count: nat, b: Bytes, done: map<Bytes, StateRecord>, lastIndex: LogIndex,
                                            lastTerm: Term)
    requires RecordsHold(done, lastIndex, lastTerm)
    ensures var taken := TakeRecords(count, b, done, lastIndex, lastTerm);
            taken.Some? ==>
              RecordsHold(taken.value.0, lastIndex, lastTerm) && |taken.value.0| == |done| + count
    decreases count
  {
    hide GoodRecord, TakeRecord;
    if count > 0 {
      var first := TakeRecord(b);
      if first.Some? {
        var (r, rest) := first.value;
        if GoodRecord(r, lastIndex, lastTerm) && r.targetId !in done {
          TakenRecordsHold(count - 1, rest, done[r.targetId := r], lastIndex, lastTerm);
        }
      }
    }
  }

  /**
   Whatever bytes a snapshot consists of, what is restored from it is a consistent machine: good records, at
   most 4096, not newer than the last applied entry, an exact registry and a table of valid tasks.
   */
  lemma RestoredHolds(b: Bytes)
    requires MachineSnapshots.Restore(b).Success?
    ensures var m := MachineSnapshots.Restore(b).value;
            && RecordsHold(m.records, m.lastIndex, m.lastTerm) && |m.records| <= MAX_RECORDS
            && (m.lastIndex == 0 <==> m.lastTerm == 0)
            && m.stores.Consistent()
            && m.tasks.Keyed() && forall id :: id in m.tasks.tasks ==> ValidRecord(m.tasks.tasks[id])
  {
    hide TakeAll, TakeRecords, TakeBusiness, RecordsHold, Registry.Consistent, ValidRecord, Stores.Restore, Tasks.Restore;
    var header := TakeAll(HEADER, b);
    PutTakeAll(HEADER, b);
    var h := header.value.0;
    HeaderTyped(h);
    assert RecordsHold(map[], h[2].n, h[3].n) by { NoRecordsHold(h[2].n, h[3].n); }
    TakenRecordsHold(h[1].n, header.value.1, map[], h[2].n, h[3].n);
    var records := TakeRecords(h[1].n, header.value.1, map[], h[2].n, h[3].n);
    var business := TakeBusiness(h[0].n, records.value.1);
    StoresRestoredIff(business.value.0);
    TakenTasksInRange(h[0].n, records.value.1);
    TasksRestoredIff(business.value.1);
  }

  lemma NoRecordsHold(lastIndex: LogIndex, lastTerm: Term)
    ensures RecordsHold(map[], lastIndex, lastTerm)
  {
  }

  lemma TaskInRange(row: seq<Value>)
    requires AllMatch(Business.TASK_SHAPES, row)
    ensures Business.TasksFrom([row]) == [Business.TasksFrom([row])[0]]
    ensures Business.TasksFrom([row])[0].sequence <= LAST
  {
    Business.TaskTyped(row);
    Pow256Values();
    assert forall k :: 0 <= k < 8 ==> Matches(Business.TASK_SHAPES[k], row[k]);
  }

  lemma {:induction false} TasksInRange(rows: seq<seq<Value>>)
    requires forall r :: r in rows ==> AllMatch(Business.TASK_SHAPES, r)
    ensures forall i :: 0 <= i < |Business.TasksFrom(rows)| ==> Business.TasksFrom(rows)[i].sequence <= LAST
  {
    hide AllMatch;
    if rows != [] {
      assert rows[0] in rows;
      TaskInRange(rows[0]);
      TasksInRange(rows[1..]);
    }
  }

  lemma TakenTasksInRange(version: nat, b: Bytes)
    requires TakeBusiness(version, b).Some?
    ensures var list := TakeBusiness(version, b).value.1; forall i :: 0 <= i < |list| ==> list[i].sequence <= LAST
  {
    hide TakeCounted, AllMatch, StoresFrom, Business.TasksFrom;
    if version != LEGACY_VERSION {
      var stores := TakeCounted(Business.STORE_SHAPES, MAX_STORES, b);
      CountedTyped(Business.STORE_SHAPES, MAX_STORES, b);
      var tasks := TakeCounted(Business.TASK_SHAPES, MAX_TASKS, stores.value.1);
      CountedTyped(Business.TASK_SHAPES, MAX_TASKS, stores.value.1);
      TasksInRange(tasks.value.0);
    }
  }

  /** A snapshot of the first format version: records only. */
  ghost function LegacyBytes(m: Machine): Bytes
    requires NumbersInRange(m) && GoodRecords(Listed(m), m.lastIndex, m.lastTerm)
  {
    LegacyHeaderMatches(m);
    PutAll(HEADER, LegacyHeader(m)) + RecordsBytes(Listed(m), m.lastIndex, m.lastTerm)
  }

  function LegacyHeader(m: Machine): seq<Value> {
    [N(LEGACY_VERSION), N(|m.records|), N(m.lastIndex), N(m.lastTerm)]
  }

  lemma LegacyHeaderMatches(m: Machine)
    requires NumbersInRange(m)
    ensures AllMatch(HEADER, LegacyHeader(m))
  {
    Pow256Values();
  }

  /** It still restores, to the machine without any stores and tasks. */
  lemma LegacyRestores(m: Machine)
    requires Sound(m) && NumbersInRange(m) && |m.records| <= MAX_RECORDS
    requires GoodRecords(Listed(m), m.lastIndex, m.lastTerm)
    ensures MachineSnapshots.Restore(LegacyBytes(m))
            == Success(Machine(m.records, m.lastIndex, m.lastTerm, NO_STORES, NO_TASKS))
  {
    hide TakeAll, PutAll, AllMatch, TakeRecords, RecordsBytes, Listed, GoodRecords, RecordsInRange;
    LegacyHeaderMatches(m);
    TakePutAll(HEADER, LegacyHeader(m), RecordsBytes(Listed(m), m.lastIndex, m.lastTerm));
    RecordsTaken(m, []);
    assert RecordsBytes(Listed(m), m.lastIndex, m.lastTerm) + [] == RecordsBytes(Listed(m), m.lastIndex, m.lastTerm);
    assert Stores.Restore([]) == Success(NO_STORES) && Tasks.Restore([]) == Success(NO_TASKS);
  }
}
