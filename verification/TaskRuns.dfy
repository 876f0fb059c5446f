/** Runs of the task table from empty, and the round trip through its persistent view. */
module TaskRuns {
  import opened Common
  import opened StoreTypes
  import opened Orders
  import opened Tasks

  // ---------------------------------------------------------------- restoring an export

  /** The next sequence once the records are taken in. */
  function NextAfter(next: nat, records: seq<TaskRecord>): nat
    decreases |records|
  {
    if records == [] then next else NextAfter(Max(next, records[0].sequence + 1), records[1..])
  }

  lemma {:induction false} RestoreAccumulates(t: TaskTable, records: seq<TaskRecord>)
    requires DistinctIds(records)
    requires forall r :: r in records ==> ValidRecord(r) && r.sequence < LAST && r.taskId !in t.tasks
    ensures RestoreFrom(t, records)
            == Success(TaskTable(TaskTable.Stored(t.tasks, records), NextAfter(t.nextSequence, records)))
    decreases |records|
  {
    hide ValidRecord;
    if records != [] {
      assert records == [records[0]] + records[1..];
      RestoreAccumulates(RestoreOne(t, records[0]).1, records[1..]);
    }
  }

  lemma {:induction false} NextAfterFacts(next: nat, records: seq<TaskRecord>)
    ensures NextAfter(next, records) >= next
    ensures forall r :: r in records ==> r.sequence < NextAfter(next, records)
    ensures NextAfter(next, records) == next || exists r :: r in records && NextAfter(next, records) == r.sequence + 1
    decreases |records|
  {
    if records != [] {
      assert records == [records[0]] + records[1..];
      NextAfterFacts(Max(next, records[0].sequence + 1), records[1..]);
    }
  }

  lemma ListedNext(t: TaskTable, records: seq<TaskRecord>)
    requires Orderly(t) && forall r :: r in records <==> r in t.Records()
    ensures NextAfter(1, records) == t.nextSequence
  {
    hide InLifecycle;
    NextAfterFacts(1, records);
    if t.nextSequence > 1 {
      var id :| id in t.tasks && t.tasks[id].sequence == t.nextSequence - 1;
      assert t.tasks[id] in records;
    }
    forall r | r in records ensures r.sequence < t.nextSequence
    {
      assert r in t.Records();
    }
  }

  lemma ListedStored(t: TaskTable, records: seq<TaskRecord>)
    requires t.Keyed() && DistinctIds(records) && forall r :: r in records <==> r in t.Records()
    ensures TaskTable.Stored(map[], records) == t.tasks
  {
    StoredFacts(map[], records);
    var after := TaskTable.Stored(map[], records);
    forall id | id in t.tasks ensures id in after && after[id] == t.tasks[id]
    {
      assert t.tasks[id] in records;
    }
  }

  lemma ExportLists(t: TaskTable)
    requires t.Keyed()
    ensures DistinctIds(t.Export()) && forall r :: r in t.Export() <==> r in t.Records()
  {
    FifoOrder(t);
    var list := t.Export();
    hide FifoLess, TotalOn;
    forall i, j | 0 <= i < j < |list| ensures list[i].taskId != list[j].taskId
    {
      assert list[i] in list && list[j] in list;
      Apart(t, list, i, j);
    }
  }

  lemma Apart(t: TaskTable, list: seq<TaskRecord>, i: nat, j: nat)
    requires TotalOn(FifoLess, t.Records()) && Sorted(FifoLess, list) && i < j < |list|
    requires forall r :: r in list <==> r in t.Records()
    ensures list[i] != list[j]
  {
    hide FifoLess;
    assert list[i] in t.Records();
    assert FifoLess(list[i], list[j]);
  }

  /** Any listing of the records of an orderly table restores exactly that table. */
  lemma RestoreListing(t: TaskTable, records: seq<TaskRecord>)
    requires Orderly(t) && DistinctIds(records) && forall r :: r in records <==> r in t.Records()
    ensures Restore(records) == Success(t)
  {
    hide ValidRecord;
    forall r | r in records ensures ValidRecord(r) && r.sequence < LAST
    {
      assert r in t.Records();
      assert InLifecycle(r);
    }
    RestoreAccumulates(NO_TASKS, records);
    ListedStored(t, records);
    ListedNext(t, records);
  }

  /** Restoring an export gives back the identical table. */
  lemma RestoreExport(t: TaskTable)
    requires Orderly(t)
    ensures Restore(t.Export()) == Success(t)
  {
    ExportLists(t);
    hide Orderly;
    OrderlyKeyed(t);
    RestoreListing(t, t.Export());
  }

  lemma OrderlyKeyed(t: TaskTable)
    requires Orderly(t)
    ensures t.Keyed()
  {
  }

  // ---------------------------------------------------------------- runs

  datatype Call =
    | CallCreate(request: TaskRequest)
    | CallAssign(id: TaskId, store: StoreId, expected: Option<nat>)
    | CallPoll(store: StoreId, limit: nat)
    | CallComplete(report: TaskReport)
    /** The table is exported and restored, as by a restart from a snapshot. */
    | CallReload

  ghost function After(t: TaskTable, call: Call): TaskTable
    requires t.Keyed()
  {
    match call
    case CallCreate(request) => t.Create(request).1
    case CallAssign(id, store, expected) => t.Assign(id, store, expected).1
    case CallPoll(store, limit) => t.Poll(store, limit).1
    case CallComplete(report) => t.Complete(report).1
    case CallReload =>
      var restored := Restore(t.Export());
      if restored.Success? then restored.value else t
  }

  lemma CallFacts(t: TaskTable, call: Call)
    requires Orderly(t)
    ensures Orderly(After(t, call)) && TableContinues(t, After(t, call))
  {
    hide Orderly, TableContinues, TaskTable.Create, TaskTable.Assign, TaskTable.Poll, TaskTable.Complete, Restore;
    OrderlyKeyed(t);
    match call
    case CallCreate(request) => CreateFacts(t, request);
    case CallAssign(id, store, expected) => AssignFacts(t, id, store, expected);
    case CallPoll(store, limit) => PollFacts(t, store, limit);
    case CallComplete(report) => CompleteFacts(t, report);
    case CallReload =>
      RestoreExport(t);
      SelfContinues(t);
  }

  ghost function Run(t: TaskTable, calls: seq<Call>): TaskTable
    requires Orderly(t)
    decreases |calls|
  {
    if calls == [] then t else
      CallFacts(t, calls[0]);
      Run(After(t, calls[0]), calls[1..])
  }

  lemma ContinuesTransitive(a: TaskTable, b: TaskTable, c: TaskTable)
    requires TableContinues(a, b) && TableContinues(b, c)
    ensures TableContinues(a, c)
  {
    forall id | id in a.tasks ensures id in c.tasks && TaskContinues(a.tasks[id], c.tasks[id])
    {
      assert TaskContinues(a.tasks[id], b.tasks[id]) && TaskContinues(b.tasks[id], c.tasks[id]);
    }
  }

  /**
   Over every run: a task once assigned keeps its store for ever, a finished task never changes, and the
   generation tells exactly whether a task waits, runs or is finished.
   */
  lemma {:induction false} RunOrderly(t: TaskTable, calls: seq<Call>)
    requires Orderly(t)
    ensures Orderly(Run(t, calls)) && TableContinues(t, Run(t, calls))
    decreases |calls|
  {
    hide Orderly, TableContinues, After;
    if calls == [] {
      SelfContinues(t);
    } else {
      OrderlyKeyed(t);
      CallFacts(t, calls[0]);
      RunOrderly(After(t, calls[0]), calls[1..]);
      ContinuesTransitive(t, After(t, calls[0]), Run(After(t, calls[0]), calls[1..]));
    }
  }

  lemma EmptyOrderly()
    ensures Orderly(NO_TASKS)
  {
  }

  /** The stores a run hands each task to, poll results and direct assignments alike. */
  ghost function HandedOut(t: TaskTable, call: Call): set<(TaskId, StoreId)>
    requires t.Keyed()
  {
    match call
    case CallPoll(store, limit) => set r | r in t.Poll(store, limit).2 :: (r.taskId, store)
    case CallAssign(id, store, expected) => if t.Assign(id, store, expected).0 == Ok then {(id, store)} else {}
    case _ => {}
  }

  lemma HandedOutOwned(t: TaskTable, call: Call, handed: (TaskId, StoreId))
    requires Orderly(t) && handed in HandedOut(t, call)
    ensures handed.0 in After(t, call).tasks && After(t, call).tasks[handed.0].owner == handed.1 != 0
  {
    match call
    case CallPoll(store, limit) =>
      if store != 0 && limit > 0 {
        PollTakes(t, store, limit);
      }
      hide Orderly, TaskTable.Poll, LeavesOnlyLater;
    case CallAssign(id, store, expected) =>
      hide ValidTaskId, InLifecycle;
    case _ =>
  }

  /** Everything a run hands out. */
  ghost function AllHandedOut(t: TaskTable, calls: seq<Call>): set<(TaskId, StoreId)>
    requires Orderly(t)
    decreases |calls|
  {
    if calls == [] then {} else
      CallFacts(t, calls[0]);
      OrderlyKeyed(t);
      HandedOut(t, calls[0]) + AllHandedOut(After(t, calls[0]), calls[1..])
  }

  lemma {:induction false} HandedOutStay(t: TaskTable, calls: seq<Call>, handed: (TaskId, StoreId))
    requires Orderly(t) && handed in AllHandedOut(t, calls)
    ensures handed.0 in Run(t, calls).tasks && Run(t, calls).tasks[handed.0].owner == handed.1
    decreases |calls|
  {
    hide Orderly, After, HandedOut;
    CallFacts(t, calls[0]);
    OrderlyKeyed(t);
    var next := After(t, calls[0]);
    if handed in HandedOut(t, calls[0]) {
      HandedOutOwned(t, calls[0], handed);
      RunOrderly(next, calls[1..]);
    } else {
      HandedOutStay(next, calls[1..], handed);
    }
  }

  /** No run ever hands one task to two stores. */
  lemma OneStorePerTask(calls: seq<Call>, task: TaskId, first: StoreId, second: StoreId)
    requires (task, first) in AllHandedOut(NO_TASKS, calls) && (task, second) in AllHandedOut(NO_TASKS, calls)
    ensures first == second
  {
    hide AllHandedOut;
    EmptyOrderly();
    HandedOutStay(NO_TASKS, calls, (task, first));
    HandedOutStay(NO_TASKS, calls, (task, second));
  }
}
