/** The task manager object: an ordered map of records and the next sequence number. */
module TaskManagers {
  import opened Common
  import opened StoreTypes
  import opened Orders
  import opened Tasks

  /** Collects the records of a table, or only the waiting ones, and sorts them. */
  method SortedRecords(t: TaskTable, waitingOnly: bool) returns (list: seq<TaskRecord>)
    requires t.Keyed()
    ensures waitingOnly ==> TotalOn(FifoLess, t.WaitingRecords()) && list == Ordered(FifoLess, t.WaitingRecords())
    ensures !waitingOnly ==> TotalOn(FifoLess, t.Records()) && list == Ordered(FifoLess, t.Records())
  {
    hide FifoLess, TotalOn;
    FifoOrder(t);
    list := [];
    var todo := t.tasks.Keys;
    while todo != {}
      invariant todo <= t.tasks.Keys
      invariant Distinct(list)
      invariant forall r :: r in list <==> r in Picked(t, t.tasks.Keys - todo, waitingOnly)
      decreases |todo|
    {
      var id :| id in todo;
      var r := t.tasks[id];
      assert t.tasks.Keys - (todo - {id}) == t.tasks.Keys - todo + {id};
      assert r !in list;
      if !waitingOnly || r.state == WAITING {
        list := list + [r];
      }
      todo := todo - {id};
    }
    assert t.tasks.Keys - {} == t.tasks.Keys;
    if waitingOnly {
      SortByIsOrdered(FifoLess, t.WaitingRecords(), list);
    } else {
      SortByIsOrdered(FifoLess, t.Records(), list);
    }
    list := SortBy(FifoLess, list);
  }

  ghost function Picked(t: TaskTable, ids: set<TaskId>, waitingOnly: bool): set<TaskRecord>
    requires ids <= t.tasks.Keys
  {
    set id | id in ids && (!waitingOnly || t.tasks[id].state == WAITING) :: t.tasks[id]
  }

  lemma NoneTaken(store: StoreId)
    ensures TaskTable.TakenAll([], store) == []
  {
  }

  /** Copies the picked records as running ones; nothing if a generation cannot advance. */
  method TakeEach(picked: seq<TaskRecord>, store: StoreId) returns (taken: Option<seq<TaskRecord>>)
    ensures taken == if exists r :: r in picked && r.generation == LAST then None
                     else Some(TaskTable.TakenAll(picked, store))
  {
    hide TaskTable.TakenAll;
    var result: seq<TaskRecord> := [];
    NoneTaken(store);
    for i := 0 to |picked|
      invariant result == TaskTable.TakenAll(picked[..i], store)
      invariant forall k :: 0 <= k < i ==> picked[k].generation != LAST
    {
      if picked[i].generation == LAST {
        assert picked[i] in picked;
        return None;
      }
      assert picked[..i + 1] == picked[..i] + [picked[i]];
      TakenAllSnoc(picked[..i], picked[i], store);
      result := result + [picked[i].(state := RUNNING, owner := store, generation := picked[i].generation + 1)];
    }
    assert picked[..|picked|] == picked;
    taken := Some(result);
  }

  /** Writes the records back, one after the other. */
  method StoreEach(tasks: map<TaskId, TaskRecord>, taken: seq<TaskRecord>) returns (after: map<TaskId, TaskRecord>)
    ensures after == TaskTable.Stored(tasks, taken)
  {
    after := tasks;
    assert taken[0..] == taken;
    for i := 0 to |taken|
      invariant TaskTable.Stored(after, taken[i..]) == TaskTable.Stored(tasks, taken)
    {
      assert taken[i..][1..] == taken[i + 1..];
      after := after[taken[i].taskId := taken[i]];
    }
  }

  class TaskManager {
    var tasks: map<TaskId, TaskRecord>
    var nextSequence: nat

    ghost function State(): TaskTable
      reads this
    {
      TaskTable(tasks, nextSequence)
    }

    ghost predicate Valid()
      reads this
    {
      State().Keyed()
    }

    constructor ()
      ensures Valid() && State() == NO_TASKS
    {
      tasks := map[];
      nextSequence := 1;
    }

    method CreateTask(request: TaskRequest) returns (status: Status, created: Option<TaskRecord>)
      requires Valid()
      modifies this
      ensures Valid() && (status, State(), created) == old(State()).Create(request)
    {
      if !ValidTaskId(request.taskId) || !ValidKind(request.kind) {
        return InvalidArgument, None;
      }
      if |request.target| > MAX_TASK_PAYLOAD_BYTES {
        return InvalidArgument, None;
      }
      if request.taskId in tasks {
        var existing := tasks[request.taskId];
        if existing.kind != request.kind || existing.target != request.target {
          return Busy, None;
        }
        return Ok, Some(existing);
      }
      if nextSequence == LAST {
        return Busy, None;
      }
      var t := TaskRecord(request.taskId, request.kind, WAITING, request.target, 0, [], 1, nextSequence);
      nextSequence := nextSequence + 1;
      tasks := tasks[t.taskId := t];
      return Ok, Some(t);
    }

    method GetTask(id: TaskId) returns (status: Status, task: Option<TaskRecord>)
      ensures !ValidTaskId(id) ==> status == InvalidArgument && task.None?
      ensures ValidTaskId(id) && id !in tasks ==> status == NotFound && task.None?
      ensures ValidTaskId(id) && id in tasks ==> status == Ok && task == Some(tasks[id])
    {
      if !ValidTaskId(id) {
        return InvalidArgument, None;
      }
      if id !in tasks {
        return NotFound, None;
      }
      return Ok, Some(tasks[id]);
    }

    method AssignTask(id: TaskId, store: StoreId, expected: Option<nat>) returns (status: Status, updated: Option<TaskRecord>)
      requires Valid()
      modifies `tasks
      ensures Valid() && (status, State(), updated) == old(State()).Assign(id, store, expected)
    {
      if !ValidTaskId(id) || store == 0 {
        return InvalidArgument, None;
      }
      if id !in tasks {
        return NotFound, None;
      }
      var candidate := tasks[id];
      if expected.Some? && expected.value != candidate.generation {
        return Busy, None;
      }
      if candidate.state == RUNNING && candidate.owner == store {
        return Ok, Some(candidate);
      }
      if candidate.state != WAITING || candidate.generation == LAST {
        return Busy, None;
      }
      candidate := candidate.(state := RUNNING, owner := store, generation := candidate.generation + 1);
      tasks := tasks[id := candidate];
      return Ok, Some(candidate);
    }

    method AssignNextWaitingTasks(store: StoreId, maxTasks: nat) returns (status: Status, taken: seq<TaskRecord>)
      requires Valid()
      modifies `tasks
      ensures Valid() && (status, State(), taken) == old(State()).Poll(store, maxTasks)
    {
      if store == 0 || maxTasks == 0 {
        return InvalidArgument, [];
      }
      hide FifoLess, TotalOn, TaskTable.Stored;
      ghost var before := State();
      var waiting := SortedRecords(TaskTable(tasks, nextSequence), true);
      var picked := waiting[..if |waiting| < maxTasks then |waiting| else maxTasks];
      assert picked == before.Next(maxTasks);
      NextFacts(before, maxTasks);
      hide TaskTable.Next;
      var result := TakeEach(picked, store);
      if result.None? {
        return Busy, [];
      }
      StoredTakes(before, picked, store);
      tasks := StoreEach(tasks, result.value);
      StoredKeyed(before, TaskTable(tasks, nextSequence), result.value, store);
      return Ok, result.value;
    }

    method CompleteTask(report: TaskReport) returns (status: Status, updated: Option<TaskRecord>)
      requires Valid()
      modifies `tasks
      ensures Valid() && (status, State(), updated) == old(State()).Complete(report)
    {
      if report.storeId == 0 || !ValidTaskId(report.taskId) {
        return InvalidArgument, None;
      }
      if !Terminal(report.finalState) || |report.result| > MAX_TASK_PAYLOAD_BYTES {
        return InvalidArgument, None;
      }
      if report.taskId !in tasks {
        return NotFound, None;
      }
      var candidate := tasks[report.taskId];
      if report.expected.Some? && report.expected.value != candidate.generation {
        return Busy, None;
      }
      if Terminal(candidate.state) {
        if candidate.owner == report.storeId && candidate.state == report.finalState
           && candidate.result == report.result {
          return Ok, Some(candidate);
        }
        return Busy, None;
      }
      if candidate.state != RUNNING || candidate.owner != report.storeId {
        return Busy, None;
      }
      if candidate.generation == LAST {
        return Busy, None;
      }
      candidate := candidate.(state := report.finalState, result := report.result, generation := candidate.generation + 1);
      tasks := tasks[report.taskId := candidate];
      return Ok, Some(candidate);
    }

    method ExportPersistent() returns (list: seq<TaskRecord>)
      requires Valid()
      ensures list == State().Export()
    {
      list := SortedRecords(TaskTable(tasks, nextSequence), false);
    }

    method RestorePersistent(records: seq<TaskRecord>) returns (status: Status)
      modifies this
      ensures var spec := Restore(records);
              if spec.Success? then status == Ok && State() == spec.value && Valid()
              else status == spec.error && State() == old(State())
    {
      hide ValidRecord;
      var candidate := NO_TASKS;
      assert records[0..] == records;
      for i := 0 to |records|
        invariant RestoreFrom(candidate, records[i..]) == Restore(records)
        invariant candidate.Keyed()
      {
        var r := records[i];
        assert records[i..][1..] == records[i + 1..];
        if !ValidRecord(r) {
          return InvalidArgument;
        }
        if r.taskId in candidate.tasks {
          return Busy;
        }
        var next := candidate.nextSequence;
        if r.sequence >= next {
          if r.sequence == LAST {
            return Busy;
          }
          next := r.sequence + 1;
        }
        candidate := TaskTable(candidate.tasks[r.taskId := r], next);
      }
      tasks := candidate.tasks;
      nextSequence := candidate.nextSequence;
      status := Ok;
    }
  }

  lemma {:induction false} TakenAllSnoc(picked: seq<TaskRecord>, r: TaskRecord, store: StoreId)
    ensures TaskTable.TakenAll(picked + [r], store)
            == TaskTable.TakenAll(picked, store)
               + [r.(state := RUNNING, owner := store, generation := r.generation + 1)]
  {
  }

  lemma StoredKeyed(before: TaskTable, after: TaskTable, taken: seq<TaskRecord>, store: StoreId)
    requires before.Keyed() && Took(before, after, taken, store)
    ensures after.Keyed()
  {
  }
}
