/** The replicated state machine object. */
module StateMachines {
  import opened Common
  import opened Fields
  import opened Orders
  import opened StoreTypes
  import opened Stores
  import opened Tasks
  import opened Machines
  import opened MachineSnapshots
  import opened StoreRegistries
  import opened TaskManagers
  import Commands = MetadataCommands
  import Business = StoreCommands

  /** The keys of an ordered map of byte strings, in the order it is iterated. */
  method AscendingTargets(keys: set<Bytes>) returns (ids: seq<Bytes>)
    ensures TotalOn(BytesLess, keys) && ids == Ordered(BytesLess, keys)
  {
    hide BytesLess, TotalOn;
    BytesOrder(keys);
    ids := [];
    var todo := keys;
    while todo != {}
      invariant todo <= keys
      invariant Orders.Distinct(ids) && forall id :: id in ids <==> id in keys - todo
      decreases |todo|
    {
      var id :| id in todo;
      assert id !in ids;
      ids := ids + [id];
      todo := todo - {id};
    }
    SortByIsOrdered(BytesLess, keys, ids);
    ids := SortBy(BytesLess, ids);
  }

  // ---------------------------------------------------------------- writing lists

  lemma {:induction false} RecordsBytesSnoc(list: seq<StateRecord>, r: StateRecord, lastIndex: LogIndex, lastTerm: Term)
    requires GoodRecords(list, lastIndex, lastTerm) && RecordsInRange(list)
    requires GoodRecord(r, lastIndex, lastTerm) && RecordInRange(r)
    ensures GoodRecords(list + [r], lastIndex, lastTerm) && RecordsInRange(list + [r])
    ensures RecordsBytes(list + [r], lastIndex, lastTerm)
            == RecordsBytes(list, lastIndex, lastTerm) + RecordBytes(r, lastIndex, lastTerm)
    decreases |list|
  {
    hide GoodRecord, RecordInRange, RecordBytes;
    if list == [] {
      assert list + [r] == [r];
    } else {
      assert (list + [r])[1..] == list[1..] + [r];
      RecordsBytesSnoc(list[1..], r, lastIndex, lastTerm);
    }
  }

  method AppendRecord(data: Bytes, r: StateRecord, lastIndex: LogIndex, lastTerm: Term) returns (out: Bytes)
    requires GoodRecord(r, lastIndex, lastTerm) && RecordInRange(r)
    ensures out == data + RecordBytes(r, lastIndex, lastTerm)
  {
    hide PutAll, AllMatch, GoodRecord;
    RecordMatches(r, lastIndex, lastTerm);
    out := AppendFields(data, RECORD_HEAD, RecordHead(r));
    out := AppendFields(out, RecordShapes(|r.targetId|, |r.payload|, |r.lastCommandId|), RecordData(r));
  }

  /** The record loop of `CreateSnapshot`. */
  method AppendRecords(data: Bytes, list: seq<StateRecord>, lastIndex: LogIndex, lastTerm: Term)
    returns (ok: bool, out: Bytes)
    requires RecordsInRange(list)
    ensures ok <==> GoodRecords(list, lastIndex, lastTerm)
    ensures ok ==> out == data + RecordsBytes(list, lastIndex, lastTerm)
  {
    hide GoodRecord, RecordInRange, RecordBytes;
    out := data;
    for i := 0 to |list|
      invariant GoodRecords(list[..i], lastIndex, lastTerm) && RecordsInRange(list[..i])
      invariant out == data + RecordsBytes(list[..i], lastIndex, lastTerm)
    {
      assert list[..i + 1] == list[..i] + [list[i]];
      assert list[i] in list;
      if !GoodRecord(list[i], lastIndex, lastTerm) {
        return false, out;
      }
      RecordsBytesSnoc(list[..i], list[i], lastIndex, lastTerm);
      out := AppendRecord(out, list[i], lastIndex, lastTerm);
    }
    assert list[..|list|] == list;
    ok := true;
  }

  /** The store loop of `CreateSnapshot`: stops at the first host that is too long. */
  method AppendStores(data: Bytes, list: seq<StoreInfo>) returns (ok: bool, out: Bytes)
    ensures ok <==> forall s :: s in list ==> Business.StoreFits(s)
    ensures ok ==> (forall r :: r in StoreRows(list) ==> AllMatch(Business.STORE_SHAPES, r))
                   && out == data + PutMany(Business.STORE_SHAPES, StoreRows(list))
  {
    hide AllMatch, PutAll, Business.StoreFits, Business.StoreValues;
    out := data;
    for i := 0 to |list|
      invariant forall s :: s in list[..i] ==> Business.StoreFits(s)
      invariant forall r :: r in StoreRows(list[..i]) ==> AllMatch(Business.STORE_SHAPES, r)
      invariant out == data + PutMany(Business.STORE_SHAPES, StoreRows(list[..i]))
    {
      assert list[..i + 1] == list[..i] + [list[i]];
      if !Business.StoreFits(list[i]) {
        assert list[i] in list;
        return false, out;
      }
      Business.StoreMatches(list[i]);
      assert StoreRows(list[..i + 1]) == StoreRows(list[..i]) + [Business.StoreValues(list[i])];
      Business.PutManySnoc(Business.STORE_SHAPES, StoreRows(list[..i]), Business.StoreValues(list[i]));
      out := AppendFields(out, Business.STORE_SHAPES, Business.StoreValues(list[i]));
    }
    assert list[..|list|] == list;
    ok := true;
  }

  /** Both counted lists at the end of a snapshot. */
  method AppendLists(data: Bytes, stores: seq<StoreInfo>, tasks: seq<TaskRecord>) returns (ok: bool, out: Bytes)
    requires |stores| <= MAX_STORES && |tasks| <= MAX_TASKS
    requires forall s :: s in stores ==> s.heartbeat == 0
    ensures ok <==> ListsFit(stores, tasks)
    ensures ok ==> out == data + ListsBytes(stores, tasks)
  {
    hide AllMatch, PutAll, PutMany, Business.StoreFits, Business.TaskFits;
    CountMatches(|stores|);
    CountMatches(|tasks|);
    out := AppendFields(data, [Num(4)], [N(|stores|)]);
    ok, out := AppendStores(out, stores);
    if !ok {
      return;
    }
    out := AppendFields(out, [Num(4)], [N(|tasks|)]);
    ok, out := Business.AppendTasks(out, tasks);
    if ok {
      ListsMatch(stores, tasks);
      Regroup(data, PutAll([Num(4)], [N(|stores|)]), PutMany(Business.STORE_SHAPES, StoreRows(stores)),
              PutAll([Num(4)], [N(|tasks|)]), PutMany(Business.TASK_SHAPES, Business.TaskRows(tasks)));
    }
  }

  lemma Regroup(a: Bytes, b: Bytes, c: Bytes, d: Bytes, e: Bytes)
    ensures a + b + c + d + e == a + (b + (c + (d + e)))
  {
  }

  // ---------------------------------------------------------------- reading lists

  method ReadRecord(decoder: Decoder) returns (r: Option<StateRecord>)
    requires decoder.Valid()
    modifies decoder
    ensures decoder.Valid()
    ensures var spec := TakeRecord(old(decoder.Rest()));
            if spec.None? then r.None? else r == Some(spec.value.0) && decoder.Rest() == spec.value.1
  {
    hide TakeAll, AllMatch, PutAll;
    ghost var b := decoder.Rest();
    var head := decoder.ReadFields(RECORD_HEAD);
    if head.None? {
      return None;
    }
    PutTakeAll(RECORD_HEAD, b);
    var h := head.value;
    HeadTyped(h);
    var shapes := RecordShapes(h[0].n, h[1].n, h[2].n);
    ghost var after := decoder.Rest();
    var data := decoder.ReadFields(shapes);
    if data.None? {
      return None;
    }
    PutTakeAll(shapes, after);
    var d := data.value;
    DataTyped(h[0].n, h[1].n, h[2].n, d);
    r := Some(StateRecord(d[0].bytes, d[1].bytes, h[3].n, d[2].bytes, h[4].n, h[5].n));
  }

  /** The record loop of `RestoreSnapshot`. */
  method ReadRecords(decoder: Decoder, count: nat, lastIndex: LogIndex, lastTerm: Term)
    returns (records: Option<map<Bytes, StateRecord>>)
    requires decoder.Valid()
    modifies decoder
    ensures decoder.Valid()
    ensures var spec := TakeRecords(count, old(decoder.Rest()), map[], lastIndex, lastTerm);
            if spec.None? then records.None? else records == Some(spec.value.0) && decoder.Rest() == spec.value.1
  {
    hide TakeRecord, GoodRecord;
    var restored: map<Bytes, StateRecord> := map[];
    ghost var all := TakeRecords(count, decoder.Rest(), restored, lastIndex, lastTerm);
    for i := 0 to count
      invariant decoder.Valid()
      invariant all == TakeRecords(count - i, decoder.Rest(), restored, lastIndex, lastTerm)
    {
      var r := ReadRecord(decoder);
      if r.None? {
        return None;
      }
      if !GoodRecord(r.value, lastIndex, lastTerm) || r.value.targetId in restored {
        return None;
      }
      restored := restored[r.value.targetId := r.value];
    }
    records := Some(restored);
  }

  /** The outcome once the remaining rows are read as well. */
  ghost function RowsResumed(rows: seq<seq<Value>>, ss: seq<Shape>, left: nat, rest: Bytes): Option<(seq<seq<Value>>, Bytes)> {
    var others := TakeMany(ss, left, rest);
    if others.None? then None else Some((rows + others.value.0, others.value.1))
  }

  lemma RowStep(rows: seq<seq<Value>>, ss: seq<Shape>, left: nat, rest: Bytes)
    requires left > 0 && TakeAll(ss, rest).Some?
    ensures var (row, after) := TakeAll(ss, rest).value;
            RowsResumed(rows, ss, left, rest) == RowsResumed(rows + [row], ss, left - 1, after)
  {
    hide TakeAll;
    var (row, after) := TakeAll(ss, rest).value;
    var others := TakeMany(ss, left - 1, after);
    if others.Some? {
      assert rows + ([row] + others.value.0) == rows + [row] + others.value.0;
    }
  }

  /** A count and that many rows, at most `max`. */
  method ReadCounted(decoder: Decoder, ss: seq<Shape>, max: nat) returns (rows: Option<seq<seq<Value>>>)
    requires decoder.Valid()
    modifies decoder
    ensures decoder.Valid()
    ensures var spec := TakeCounted(ss, max, old(decoder.Rest()));
            if spec.None? then rows.None? else rows == Some(spec.value.0) && decoder.Rest() == spec.value.1
  {
    hide TakeAll, AllMatch, PutAll;
    ghost var b := decoder.Rest();
    var count := decoder.ReadFields([Num(4)]);
    if count.None? {
      return None;
    }
    PutTakeAll([Num(4)], b);
    CountTyped(count.value);
    var n := count.value[0].n;
    if n > max {
      return None;
    }
    var read: seq<seq<Value>> := [];
    ghost var all := TakeMany(ss, n, decoder.Rest());
    assert all.Some? ==> [] + all.value.0 == all.value.0;
    for i := 0 to n
      invariant decoder.Valid()
      invariant all == RowsResumed(read, ss, n - i, decoder.Rest())
    {
      ghost var rest := decoder.Rest();
      var row := decoder.ReadFields(ss);
      if row.None? {
        return None;
      }
      RowStep(read, ss, n - i, rest);
      read := read + [row.value];
    }
    assert read + [] == read;
    rows := Some(read);
  }

  method ToStores(rows: seq<seq<Value>>) returns (list: seq<StoreInfo>)
    requires forall r :: r in rows ==> AllMatch(Business.STORE_SHAPES, r)
    ensures list == StoresFrom(rows)
  {
    hide AllMatch, Business.StoreFrom;
    list := [];
    for i := 0 to |rows|
      invariant list + StoresFrom(rows[i..]) == StoresFrom(rows)
    {
      assert rows[i] in rows;
      assert rows[i..][1..] == rows[i + 1..];
      Business.StoreTyped(rows[i]);
      ghost var others := StoresFrom(rows[i + 1..]);
      assert list + ([Business.StoreFrom(rows[i])] + others) == list + [Business.StoreFrom(rows[i])] + others;
      list := list + [Business.StoreFrom(rows[i])];
    }
  }

  method ToTasks(rows: seq<seq<Value>>) returns (list: seq<TaskRecord>)
    requires forall r :: r in rows ==> AllMatch(Business.TASK_SHAPES, r)
    ensures list == Business.TasksFrom(rows)
  {
    hide AllMatch, Business.TaskFrom;
    list := [];
    for i := 0 to |rows|
      invariant list + Business.TasksFrom(rows[i..]) == Business.TasksFrom(rows)
    {
      assert rows[i] in rows;
      assert rows[i..][1..] == rows[i + 1..];
      Business.TaskTyped(rows[i]);
      ghost var others := Business.TasksFrom(rows[i + 1..]);
      assert list + ([Business.TaskFrom(rows[i])] + others) == list + [Business.TaskFrom(rows[i])] + others;
      list := list + [Business.TaskFrom(rows[i])];
    }
  }

  method ReadBusiness(decoder: Decoder, version: nat) returns (lists: Option<(seq<StoreInfo>, seq<TaskRecord>)>)
    requires decoder.Valid()
    modifies decoder
    ensures decoder.Valid()
    ensures var spec := TakeBusiness(version, old(decoder.Rest()));
            if spec.None? then lists.None?
            else lists == Some((spec.value.0, spec.value.1)) && decoder.Rest() == spec.value.2
  {
    hide TakeCounted;
    if version == LEGACY_VERSION {
      return Some(([], []));
    }
    ghost var b := decoder.Rest();
    var storeRows := ReadCounted(decoder, Business.STORE_SHAPES, MAX_STORES);
    if storeRows.None? {
      return None;
    }
    CountedTyped(Business.STORE_SHAPES, MAX_STORES, b);
    ghost var after := decoder.Rest();
    var taskRows := ReadCounted(decoder, Business.TASK_SHAPES, MAX_TASKS);
    if taskRows.None? {
      return None;
    }
    CountedTyped(Business.TASK_SHAPES, MAX_TASKS, after);
    var stores := ToStores(storeRows.value);
    var tasks := ToTasks(taskRows.value);
    lists := Some((stores, tasks));
  }

  /** Decodes a snapshot without touching any state. */
  method ReadSnapshot(payload: Bytes)
    returns (parts: Option<(map<Bytes, StateRecord>, LogIndex, Term, seq<StoreInfo>, seq<TaskRecord>)>)
    ensures MachineSnapshots.Restore(payload)
            == if parts.None? then Failure(Corruption)
               else Assembled(parts.value.0, parts.value.1, parts.value.2, parts.value.3, parts.value.4)
  {
    hide TakeAll, AllMatch, PutAll, TakeRecords, TakeBusiness, Assembled;
    var decoder := new Decoder(payload);
    var header := decoder.ReadFields(HEADER);
    if header.None? {
      return None;
    }
    PutTakeAll(HEADER, payload);
    var h := header.value;
    HeaderTyped(h);
    if h[0].n != SNAPSHOT_VERSION && h[0].n != LEGACY_VERSION {
      return None;
    }
    if h[1].n > MAX_RECORDS || (h[2].n == 0) != (h[3].n == 0) {
      return None;
    }
    var restored := ReadRecords(decoder, h[1].n, h[2].n, h[3].n);
    if restored.None? {
      return None;
    }
    var lists := ReadBusiness(decoder, h[0].n);
    if lists.None? {
      return None;
    }
    var left := decoder.Remaining();
    if left != 0 {
      return None;
    }
    parts := Some((restored.value, h[2].n, h[3].n, lists.value.0, lists.value.1));
  }

  // ---------------------------------------------------------------- the object

  class MetadataStateMachine {
    var records: map<Bytes, StateRecord>
    var lastAppliedIndex: LogIndex
    var lastAppliedTerm: Term
    const stores: StoreRegistry
    const tasks: TaskManager

    ghost function State(): Machine
      reads this, stores, tasks
    {
      Machine(records, lastAppliedIndex, lastAppliedTerm, stores.State(), tasks.State())
    }

    ghost predicate Valid()
      reads this, stores, tasks
    {
      stores.Valid() && tasks.Valid()
    }

    constructor ()
      ensures Valid() && State() == NEW_MACHINE
      ensures fresh(stores) && fresh(tasks)
    {
      records := map[];
      lastAppliedIndex := 0;
      lastAppliedTerm := 0;
      stores := new StoreRegistry();
      tasks := new TaskManager();
    }

    /** The switch over the kinds of store commands. */
    method PerformCommand(c: Business.StoreCommand) returns (status: Status, result: Business.StoreResult)
      requires Valid()
      modifies stores, tasks
      ensures Valid()
      ensures Outcome(status, stores.State(), tasks.State(), result)
              == Perform(old(stores.State()), old(tasks.State()), c)
    {
      hide Registry.Register, Registry.Update, Registry.Remove, TaskTable.Create, TaskTable.Poll, TaskTable.Complete,
           Registry.Consistent, Repeats;
      if c.kind == Business.REGISTER_STORE {
        var s;
        status, s := stores.RegisterStore(c.store);
        result := WithStore(s);
      } else if c.kind == Business.UPDATE_STORE_STATE {
        var s;
        status, s := stores.UpdateStore(c.update);
        result := WithStore(s);
      } else if c.kind == Business.REMOVE_STORE {
        var found := stores.GetStore(c.storeId);
        if found.Failure? {
          return found.error, WithStore(None);
        }
        if c.update.expected.Some? && found.value.generation != c.update.expected.value {
          return Busy, WithStore(None);
        }
        status := stores.RemoveStore(c.storeId);
        result := WithStore(Some(found.value));
      } else if c.kind == Business.CREATE_TASK {
        var t;
        status, t := tasks.CreateTask(c.create);
        result := WithTask(t, false);
      } else if c.kind == Business.POLL_TASKS {
        var taken;
        status, taken := tasks.AssignNextWaitingTasks(c.storeId, c.maxTasks);
        result := Business.StoreResult(NO_STORE, taken, false);
      } else {
        status, result := ReportResult(c.report);
      }
    }

    method ReportResult(report: TaskReport) returns (status: Status, result: Business.StoreResult)
      requires tasks.Valid()
      modifies tasks
      ensures tasks.Valid()
      ensures var (expected, after, t) := old(tasks.State()).Complete(report);
              && status == expected && tasks.State() == after
              && result == WithTask(t, Repeats(old(tasks.State()), report.taskId, t))
    {
      hide TaskTable.Complete;
      ghost var table := tasks.State();
      var known, before := tasks.GetTask(report.taskId);
      var after;
      status, after := tasks.CompleteTask(report);
      var duplicate := known == Ok && after.Some? && before.value.state == after.value.state
                       && before.value.result == after.value.result && before.value.generation == after.value.generation;
      result := WithTask(after, duplicate);
    }

    method ApplyStoreCommand(c: Commands.MetadataCommand, index: LogIndex, term: Term) returns (status: Status)
      requires Valid()
      modifies `records, stores, tasks
      ensures Valid()
      ensures (status, State()) == ApplyStore(old(State()), c, index, term)
    {
      hide Perform, Business.Decode, Business.EncodeResult, Registry.Consistent, TaskTable.Keyed;
      var command := Business.DecodeStoreBusinessCommand(c.payload);
      if command.Failure? {
        return command.error;
      }
      var result;
      status, result := PerformCommand(command.value);
      if status != Ok {
        return;
      }
      var payload := Business.EncodeStoreBusinessResult(result);
      if payload.Failure? {
        return payload.error;
      }
      var generation := if c.targetId in records then records[c.targetId].generation + 1 else 1;
      records := records[c.targetId := StateRecord(c.targetId, payload.value, generation, c.commandId, index, term)];
      status := Ok;
    }

    method ApplyOpaqueCommand(c: Commands.MetadataCommand, index: LogIndex, term: Term) returns (status: Status)
      modifies `records
      ensures (status, State()) == ApplyOpaque(old(State()), c, index, term)
    {
      var known := c.targetId in records;
      if c.expected.Some? {
        if !known {
          return NotFound;
        }
        if records[c.targetId].generation != c.expected.value {
          return Busy;
        }
      }
      var generation := if known then records[c.targetId].generation + 1 else 1;
      records := records[c.targetId := StateRecord(c.targetId, c.payload, generation, c.commandId, index, term)];
      status := Ok;
    }

    method Apply(index: LogIndex, term: Term, payload: Bytes) returns (status: Status)
      requires Valid()
      modifies this, stores, tasks
      ensures Valid()
      ensures (status, State()) == Machines.Apply(old(State()), index, term, payload)
    {
      hide ApplyStore, ApplyOpaque, Commands.Decode, Registry.Consistent, TaskTable.Keyed;
      if index == 0 || term == 0 {
        return InvalidArgument;
      }
      var c := Commands.DecodeMetadataCommand(payload);
      if c.Failure? {
        return c.error;
      }
      if index != lastAppliedIndex + 1 {
        return Busy;
      }
      if c.value.kind == Commands.STORE_OPERATION {
        status := ApplyStoreCommand(c.value, index, term);
      } else {
        status := ApplyOpaqueCommand(c.value, index, term);
      }
      if status != Ok {
        return;
      }
      lastAppliedIndex := index;
      lastAppliedTerm := term;
    }

    method UpdateStoreHeartbeat(id: StoreId, ms: int) returns (status: Status)
      requires Valid()
      modifies stores
      ensures Valid() && State() == Heartbeat(old(State()), id, ms)
      ensures status == old(stores.State()).Heartbeat(id, ms).0
    {
      hide Registry.Heartbeat, Registry.Consistent;
      status := stores.UpdateHeartbeat(id, ms);
    }

    method CreateSnapshot(index: LogIndex, term: Term) returns (payload: Result<Bytes>)
      requires Valid() && NumbersInRange(State())
      ensures payload == Create(State(), index, term)
    {
      hide PutAll, AllMatch, ListsFit, GoodRecords, RecordsInRange, Registry.Consistent, TaskTable.Export, Registry.Export,
           RecordsBytes, ListsBytes;
      var storeList := stores.ExportPersistent();
      var taskList := tasks.ExportPersistent();
      if index != lastAppliedIndex || term != lastAppliedTerm {
        return Failure(Busy);
      }
      HeaderMatches(State());
      var encoded := AppendFields([], HEADER, [N(SNAPSHOT_VERSION), N(|records|), N(lastAppliedIndex), N(lastAppliedTerm)]);
      var list := ListRecords();
      var ok;
      ok, encoded := AppendRecords(encoded, list, lastAppliedIndex, lastAppliedTerm);
      if !ok {
        return Failure(Corruption);
      }
      if |storeList| > MAX_STORES || |taskList| > MAX_TASKS {
        return Failure(Busy);
      }
      ExportedQuiet(stores.State());
      ok, encoded := AppendLists(encoded, storeList, taskList);
      if !ok {
        return Failure(Corruption);
      }
      Joined(PutAll(HEADER, HeaderValues(State())), RecordsBytes(list, lastAppliedIndex, lastAppliedTerm),
             ListsBytes(storeList, taskList));
      payload := Success(encoded);
    }

    method ListRecords() returns (list: seq<StateRecord>)
      ensures list == Listed(State())
    {
      hide BytesLess;
      var ids := AscendingTargets(records.Keys);
      list := [];
      for i := 0 to |ids|
        invariant |list| == i && forall k :: 0 <= k < i ==> ids[k] in records && list[k] == records[ids[k]]
      {
        assert ids[i] in ids;
        list := list + [records[ids[i]]];
      }
      assert list == Named(records, ids);
    }

    method RestoreSnapshot(payload: Bytes) returns (status: Status)
      requires Valid()
      modifies this, stores, tasks
      ensures Valid()
      ensures var spec := MachineSnapshots.Restore(payload);
              if spec.Success? then status == Ok && State() == spec.value
              else status == spec.error && State() == old(State())
    {
      hide MachineSnapshots.Restore, Stores.Restore, Tasks.Restore, Registry.Consistent, TaskTable.Keyed;
      var parts := ReadSnapshot(payload);
      if parts.None? {
        return Corruption;
      }
      var (restored, index, term, storeList, taskList) := parts.value;
      status := InstallLists(storeList, taskList);
      if status != Ok {
        return;
      }
      records := restored;
      lastAppliedIndex := index;
      lastAppliedTerm := term;
    }

    /** Rebuilds both parts on the side first, so that a failure changes neither. */
    method InstallLists(storeList: seq<StoreInfo>, taskList: seq<TaskRecord>) returns (status: Status)
      requires Valid()
      modifies stores, tasks
      ensures Valid()
      ensures var s, t := Stores.Restore(storeList), Tasks.Restore(taskList);
              if s.Failure? then status == s.error != Ok && State() == old(State())
              else if t.Failure? then status == t.error != Ok && State() == old(State())
              else status == Ok && stores.State() == s.value && tasks.State() == t.value
                   && records == old(records) && lastAppliedIndex == old(lastAppliedIndex)
                   && lastAppliedTerm == old(lastAppliedTerm)
    {
      hide Stores.Restore, Tasks.Restore, Registry.Consistent, TaskTable.Keyed;
      RestoreErrors(storeList, taskList);
      var validationRegistry := new StoreRegistry();
      status := validationRegistry.RestorePersistent(storeList);
      if status != Ok {
        return;
      }
      var validationTasks := new TaskManager();
      status := validationTasks.RestorePersistent(taskList);
      if status != Ok {
        return;
      }
      status := stores.RestorePersistent(storeList);
      status := tasks.RestorePersistent(taskList);
    }
  }

  lemma Joined(a: Bytes, b: Bytes, c: Bytes)
    ensures [] + a + b + c == a + (b + c)
  {
  }

  lemma {:induction false} StoreErrors(r: Registry, list: seq<StoreInfo>)
    ensures Stores.RestoreFrom(r, list).Failure? ==> Stores.RestoreFrom(r, list).error != Ok
    decreases |list|
  {
    hide ValidStore, AddressKey;
    if list != [] {
      StoreErrors(Stores.RestoreOne(r, list[0]).1, list[1..]);
    }
  }

  lemma {:induction false} TaskErrors(t: TaskTable, list: seq<TaskRecord>)
    ensures Tasks.RestoreFrom(t, list).Failure? ==> Tasks.RestoreFrom(t, list).error != Ok
    decreases |list|
  {
    hide ValidRecord;
    if list != [] {
      TaskErrors(Tasks.RestoreOne(t, list[0]).1, list[1..]);
    }
  }

  lemma RestoreErrors(stores: seq<StoreInfo>, tasks: seq<TaskRecord>)
    ensures Stores.Restore(stores).Failure? ==> Stores.Restore(stores).error != Ok
    ensures Tasks.Restore(tasks).Failure? ==> Tasks.Restore(tasks).error != Ok
  {
    StoreErrors(NO_STORES, stores);
    TaskErrors(NO_TASKS, tasks);
  }
}
