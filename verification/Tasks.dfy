/**
 The task table as a value: creation, assignment, completion, and the listing in first-in-first-out order.
 What no operation undoes is stated for single operations and for runs from the empty table.
 */
module Tasks {
  import opened Common
  import opened StoreTypes
  import opened Orders

  /** `LessByFifo`. */
  predicate FifoLess(a: TaskRecord, b: TaskRecord) {
    if a.sequence != b.sequence then a.sequence < b.sequence else BytesLess(a.taskId, b.taskId)
  }

  const LAST: nat := U64_LIMIT - 1

  predicate ValidTaskId(id: TaskId) {
    0 < |id| <= MAX_TASK_ID_BYTES
  }

  predicate ValidKind(kind: Byte) {
    TASK_CREATE <= kind <= TASK_CUSTOM
  }

  /** `ValidateTaskRecord`. */
  predicate ValidRecord(t: TaskRecord) {
    && ValidTaskId(t.taskId) && ValidKind(t.kind) && t.state <= FAILED
    && |t.target| <= MAX_TASK_PAYLOAD_BYTES && |t.result| <= MAX_TASK_PAYLOAD_BYTES
    && t.generation != 0 && t.sequence != 0
    && (t.state == WAITING ==> t.owner == 0)
    && (t.state == RUNNING ==> t.owner != 0 && t.result == [])
    && (Terminal(t.state) ==> t.owner != 0)
  }

  datatype TaskTable = TaskTable(tasks: map<TaskId, TaskRecord>, nextSequence: nat) {
    /** Every record is stored under its own id. */
    ghost predicate Keyed() {
      forall id :: id in tasks ==> tasks[id].taskId == id
    }

    ghost function Records(): set<TaskRecord> {
      set id | id in tasks :: tasks[id]
    }

    ghost function WaitingRecords(): set<TaskRecord> {
      set id | id in tasks && tasks[id].state == WAITING :: tasks[id]
    }

    // -------------------------------------------------------------- operations

    function Create(request: TaskRequest): (Status, TaskTable, Option<TaskRecord>) {
      if !ValidTaskId(request.taskId) || !ValidKind(request.kind) || |request.target| > MAX_TASK_PAYLOAD_BYTES
      then (InvalidArgument, this, None)
      else if request.taskId in tasks then
        var existing := tasks[request.taskId];
        if existing.kind != request.kind || existing.target != request.target then (Busy, this, None)
        else (Ok, this, Some(existing))
      else if nextSequence == LAST then (Busy, this, None)
      else
        var t := TaskRecord(request.taskId, request.kind, WAITING, request.target, 0, [], 1, nextSequence);
        (Ok, TaskTable(tasks[request.taskId := t], nextSequence + 1), Some(t))
    }

    function Taken(t: TaskRecord, store: StoreId): TaskRecord {
      t.(state := RUNNING, owner := store, generation := t.generation + 1)
    }

    function Assign(id: TaskId, store: StoreId, expected: Option<nat>): (Status, TaskTable, Option<TaskRecord>) {
      if !ValidTaskId(id) || store == 0 then (InvalidArgument, this, None)
      else if id !in tasks then (NotFound, this, None)
      else
        var t := tasks[id];
        if expected.Some? && expected.value != t.generation then (Busy, this, None)
        else if t.state == RUNNING && t.owner == store then (Ok, this, Some(t))
        else if t.state != WAITING || t.generation == LAST then (Busy, this, None)
        else (Ok, this.(tasks := tasks[id := Taken(t, store)]), Some(Taken(t, store)))
    }

    /** The waiting tasks a poll takes: the first ones in FIFO order, as many as the limit allows. */
    ghost function Next(limit: nat): seq<TaskRecord>
      requires Keyed()
    {
      FifoOrder(this);
      var waiting := Ordered(FifoLess, WaitingRecords());
      waiting[..Min(|waiting|, limit)]
    }

    ghost function Poll(store: StoreId, limit: nat): (Status, TaskTable, seq<TaskRecord>)
      requires Keyed()
    {
      if store == 0 || limit == 0 then (InvalidArgument, this, [])
      else if exists t :: t in Next(limit) && t.generation == LAST then (Busy, this, [])
      else
        var taken := TakenAll(Next(limit), store);
        (Ok, this.(tasks := Stored(tasks, taken)), taken)
    }

    static function TakenAll(picked: seq<TaskRecord>, store: StoreId): (taken: seq<TaskRecord>)
      ensures |taken| == |picked|
      ensures forall k :: 0 <= k < |picked| ==>
                taken[k] == picked[k].(state := RUNNING, owner := store, generation := picked[k].generation + 1)
    {
      if picked == [] then []
      else [picked[0].(state := RUNNING, owner := store, generation := picked[0].generation + 1)]
           + TakenAll(picked[1..], store)
    }

    static function Stored(tasks: map<TaskId, TaskRecord>, taken: seq<TaskRecord>): map<TaskId, TaskRecord>
      decreases |taken|
    {
      if taken == [] then tasks else Stored(tasks[taken[0].taskId := taken[0]], taken[1..])
    }

    function Complete(report: TaskReport): (Status, TaskTable, Option<TaskRecord>) {
      if report.storeId == 0 || !ValidTaskId(report.taskId) || !Terminal(report.finalState)
         || |report.result| > MAX_TASK_PAYLOAD_BYTES
      then (InvalidArgument, this, None)
      else if report.taskId !in tasks then (NotFound, this, None)
      else
        var t := tasks[report.taskId];
        if report.expected.Some? && report.expected.value != t.generation then (Busy, this, None)
        else if Terminal(t.state) then
          if t.owner == report.storeId && t.state == report.finalState && t.result == report.result
          then (Ok, this, Some(t)) else (Busy, this, None)
        else if t.state != RUNNING || t.owner != report.storeId || t.generation == LAST then (Busy, this, None)
        else
          var done := t.(state := report.finalState, result := report.result, generation := t.generation + 1);
          (Ok, this.(tasks := tasks[report.taskId := done]), Some(done))
    }

    ghost function Export(): seq<TaskRecord>
      requires Keyed()
    {
      FifoOrder(this);
      Ordered(FifoLess, Records())
    }
  }

  const NO_TASKS := TaskTable(map[], 1)

  /** Records of a table are totally ordered, because their ids differ. */
  lemma FifoOrder(t: TaskTable)
    requires t.Keyed()
    ensures TotalOn(FifoLess, t.Records()) && TotalOn(FifoLess, t.WaitingRecords())
  {
    hide BytesLess;
    BytesOrder(t.tasks.Keys);
    forall x: TaskRecord | x in t.Records() ensures !FifoLess(x, x) {}
    forall x: TaskRecord, y: TaskRecord | x in t.Records() && y in t.Records() && x != y
      ensures FifoLess(x, y) || FifoLess(y, x) {}
    forall x: TaskRecord, y: TaskRecord, z: TaskRecord
      | x in t.Records() && y in t.Records() && z in t.Records() && FifoLess(x, y) && FifoLess(y, z)
      ensures FifoLess(x, z) {}
    assert t.WaitingRecords() <= t.Records();
  }

  // ---------------------------------------------------------------- restoring

  /** One turn of the restore loop. */
  function RestoreOne(t: TaskTable, record: TaskRecord): (Status, TaskTable) {
    if !ValidRecord(record) then (InvalidArgument, t)
    else if record.taskId in t.tasks then (Busy, t)
    else if record.sequence >= t.nextSequence && record.sequence == LAST then (Busy, t)
    else (Ok, TaskTable(t.tasks[record.taskId := record],
                        if record.sequence >= t.nextSequence then record.sequence + 1 else t.nextSequence))
  }

  /** `RestorePersistent`, continued from a table that is already rebuilt in part. */
  function RestoreFrom(t: TaskTable, records: seq<TaskRecord>): Result<TaskTable>
    decreases |records|
  {
    if records == [] then Success(t) else
    var (status, next) := RestoreOne(t, records[0]);
    if status != Ok then Failure(status) else RestoreFrom(next, records[1..])
  }

  function Restore(records: seq<TaskRecord>): Result<TaskTable> {
    RestoreFrom(NO_TASKS, records)
  }

  // ---------------------------------------------------------------- the lifecycle

  /** Generation 1, 2 and 3 stand for waiting, running and finished. */
  predicate InLifecycle(t: TaskRecord) {
    && ValidRecord(t) && t.sequence < LAST
    && (t.state == WAITING <==> t.generation == 1)
    && (t.state == RUNNING <==> t.generation == 2)
    && (Terminal(t.state) <==> t.generation == 3)
    && (t.state == WAITING ==> t.result == [])
  }

  /** What holds over every run from the empty table. */
  ghost predicate Orderly(t: TaskTable) {
    && t.Keyed()
    && (forall id :: id in t.tasks ==> InLifecycle(t.tasks[id]) && t.tasks[id].sequence < t.nextSequence)
    && (forall a, b :: a in t.tasks && b in t.tasks && a != b ==> t.tasks[a].sequence != t.tasks[b].sequence)
    && 1 <= t.nextSequence <= LAST
    && (t.nextSequence > 1 ==> exists id :: id in t.tasks && t.tasks[id].sequence == t.nextSequence - 1)
  }

  /** What never changes about a task once it exists. */
  ghost predicate TaskContinues(before: TaskRecord, after: TaskRecord) {
    && after.taskId == before.taskId && after.kind == before.kind && after.target == before.target
    && after.sequence == before.sequence
    && before.generation <= after.generation
    && (before.owner != 0 ==> after.owner == before.owner)
    && (Terminal(before.state) ==> after == before)
    && (after.generation == before.generation ==> after == before)
  }

  ghost predicate TableContinues(before: TaskTable, after: TaskTable) {
    && before.nextSequence <= after.nextSequence
    && forall id :: id in before.tasks ==> id in after.tasks && TaskContinues(before.tasks[id], after.tasks[id])
  }

  lemma UpdateOne(t: TaskTable, id: TaskId, record: TaskRecord)
    requires Orderly(t) && id in t.tasks
    requires record.taskId == id && InLifecycle(record) && record.sequence == t.tasks[id].sequence
    ensures Orderly(t.(tasks := t.tasks[id := record]))
  {
    var after := t.(tasks := t.tasks[id := record]);
    if t.nextSequence > 1 {
      var last :| last in t.tasks && t.tasks[last].sequence == t.nextSequence - 1;
      assert last in after.tasks && after.tasks[last].sequence == t.nextSequence - 1;
    }
  }

  lemma UpdateContinues(t: TaskTable, id: TaskId, record: TaskRecord)
    requires id in t.tasks && TaskContinues(t.tasks[id], record)
    ensures TableContinues(t, t.(tasks := t.tasks[id := record]))
  {
  }

  lemma CreateFacts(t: TaskTable, request: TaskRequest)
    requires Orderly(t)
    ensures Orderly(t.Create(request).1) && TableContinues(t, t.Create(request).1)
    ensures t.Create(request).0 != Ok ==> t.Create(request).1 == t
  {
    hide ValidTaskId, ValidKind;
    var (status, after, created) := t.Create(request);
    if after != t {
      assert request.taskId in after.tasks && after.tasks[request.taskId].sequence == after.nextSequence - 1;
      FreshInLifecycle(request, t.nextSequence);
    }
  }

  lemma FreshInLifecycle(request: TaskRequest, sequence: nat)
    requires ValidTaskId(request.taskId) && ValidKind(request.kind) && |request.target| <= MAX_TASK_PAYLOAD_BYTES
    requires 1 <= sequence < LAST
    ensures InLifecycle(TaskRecord(request.taskId, request.kind, WAITING, request.target, 0, [], 1, sequence))
  {
  }

  lemma AssignFacts(t: TaskTable, id: TaskId, store: StoreId, expected: Option<nat>)
    requires Orderly(t)
    ensures Orderly(t.Assign(id, store, expected).1) && TableContinues(t, t.Assign(id, store, expected).1)
    ensures t.Assign(id, store, expected).0 != Ok ==> t.Assign(id, store, expected).1 == t
  {
    hide ValidTaskId, ValidKind;
    var after := t.Assign(id, store, expected).1;
    if after != t {
      UpdateOne(t, id, t.Taken(t.tasks[id], store));
      UpdateContinues(t, id, t.Taken(t.tasks[id], store));
    }
  }

  lemma CompleteFacts(t: TaskTable, report: TaskReport)
    requires Orderly(t)
    ensures Orderly(t.Complete(report).1) && TableContinues(t, t.Complete(report).1)
    ensures t.Complete(report).0 != Ok ==> t.Complete(report).1 == t
  {
    hide ValidTaskId, ValidKind;
    var after := t.Complete(report).1;
    if after != t {
      UpdateOne(t, report.taskId, after.tasks[report.taskId]);
      UpdateContinues(t, report.taskId, after.tasks[report.taskId]);
    }
  }

  // ---------------------------------------------------------------- what each operation does

  predicate WellFormedRequest(request: TaskRequest) {
    && 0 < |request.taskId| <= MAX_TASK_ID_BYTES && TASK_CREATE <= request.kind <= TASK_CUSTOM
    && |request.target| <= MAX_TASK_PAYLOAD_BYTES
  }

  /**
   A task is created if and only if the request is well-formed and the id is new, with a sequence left for it,
   or belongs to the same task already; a new task waits, without owner or result, last in line.
   */
  lemma CreateOutcome(t: TaskTable, request: TaskRequest)
    requires Orderly(t)
    ensures var (status, after, given) := t.Create(request);
            && (status == Ok <==>
                  && WellFormedRequest(request)
                  && (request.taskId !in t.tasks ==> t.nextSequence < LAST)
                  && (request.taskId in t.tasks ==>
                        t.tasks[request.taskId].kind == request.kind && t.tasks[request.taskId].target == request.target))
            && (status == Ok ==> request.taskId in after.tasks && given == Some(after.tasks[request.taskId]))
            && after == (if status == Ok && request.taskId !in t.tasks
               then TaskTable(t.tasks[request.taskId := TaskRecord(request.taskId, request.kind, WAITING, request.target,
                                                                   0, [], 1, t.nextSequence)],
                              t.nextSequence + 1)
               else t)
            && (status == InvalidArgument <==> !WellFormedRequest(request)) && status in {Ok, InvalidArgument, Busy}
  {
    hide InLifecycle;
  }

  /** A task is handed to a store if and only if it waits, or that store runs it already. */
  lemma AssignOutcome(t: TaskTable, id: TaskId, store: StoreId, expected: Option<nat>)
    requires Orderly(t)
    ensures var (status, after, given) := t.Assign(id, store, expected);
            && (status == Ok <==>
                  && store != 0 && id in t.tasks
                  && (expected.Some? ==> expected.value == t.tasks[id].generation)
                  && (t.tasks[id].state == WAITING || (t.tasks[id].state == RUNNING && t.tasks[id].owner == store)))
            && (status == Ok ==>
                  && after == t.(tasks := t.tasks[id := t.tasks[id].(state := RUNNING, owner := store, generation := 2)])
                  && given == Some(after.tasks[id]))
            && (status != Ok ==> after == t)
            && (status == NotFound ==> id !in t.tasks) && (status == Busy ==> id in t.tasks && store != 0)
            && status in {Ok, InvalidArgument, NotFound, Busy}
  {
    if id in t.tasks {
      assert InLifecycle(t.tasks[id]);
    }
  }

  /**
   A result is taken if and only if it is well-formed and the reporting store runs the task, or repeats what it
   reported; the task is then finished with that state and result, and nothing else about it changes.
   */
  lemma CompleteOutcome(t: TaskTable, report: TaskReport)
    requires Orderly(t)
    ensures var (status, after, given) := t.Complete(report);
            var id := report.taskId;
            && (status == Ok <==>
                  && report.storeId != 0 && id in t.tasks && t.tasks[id].owner == report.storeId
                  && Terminal(report.finalState) && |report.result| <= MAX_TASK_PAYLOAD_BYTES
                  && (report.expected.Some? ==> report.expected.value == t.tasks[id].generation)
                  && (Terminal(t.tasks[id].state) ==>
                        t.tasks[id].state == report.finalState && t.tasks[id].result == report.result))
            && (status == Ok ==>
                  && after == t.(tasks := t.tasks[id := t.tasks[id].(state := report.finalState, result := report.result,
                                                                    generation := 3)])
                  && given == Some(after.tasks[id]))
            && (status != Ok ==> after == t)
            && (status == InvalidArgument <==>
                  report.storeId == 0 || !ValidTaskId(id) || !Terminal(report.finalState)
                  || |report.result| > MAX_TASK_PAYLOAD_BYTES)
            && (status == NotFound ==> id !in t.tasks) && (status == Busy ==> id in t.tasks)
            && status in {Ok, InvalidArgument, NotFound, Busy}
  {
    if report.taskId in t.tasks {
      assert InLifecycle(t.tasks[report.taskId]);
    }
  }

  /**
   From a table with room for it, a new task is created, runs on the store it is assigned to and ends with what
   that store reports; the report may be repeated, and any other is refused.
   */
  lemma TaskIsCarriedOut(t: TaskTable, request: TaskRequest, store: StoreId, report: TaskReport, other: TaskReport)
    requires Orderly(t) && WellFormedRequest(request) && request.taskId !in t.tasks && t.nextSequence < LAST
    requires store != 0 && report.storeId == store && report.taskId == request.taskId && report.expected.None?
    requires Terminal(report.finalState) && |report.result| <= MAX_TASK_PAYLOAD_BYTES
    requires other.taskId == request.taskId
    requires other.storeId != store || other.finalState != report.finalState || other.result != report.result
    ensures var created := t.Create(request).1;
            var running := created.Assign(request.taskId, store, None).1;
            var (status, done, given) := running.Complete(report);
            && status == Ok
            && given == Some(TaskRecord(request.taskId, request.kind, report.finalState, request.target, store,
                                        report.result, 3, t.nextSequence))
            && done == TaskTable(t.tasks[request.taskId := given.value], t.nextSequence + 1)
            && done.Complete(report) == (Ok, done, given)
            && done.Complete(other).0 != Ok && done.Complete(other).1 == done
  {
    hide Orderly, WellFormedRequest, TaskTable.Create, TaskTable.Assign, TaskTable.Complete, TableContinues;
    var created := t.Create(request).1;
    CreateFacts(t, request);
    CreateOutcome(t, request);
    var running := created.Assign(request.taskId, store, None).1;
    AssignFacts(created, request.taskId, store, None);
    AssignOutcome(created, request.taskId, store, None);
    var done := running.Complete(report).1;
    CompleteFacts(running, report);
    CompleteOutcome(running, report);
    var final := TaskRecord(request.taskId, request.kind, report.finalState, request.target, store, report.result, 3,
                            t.nextSequence);
    assert created.nextSequence == t.nextSequence + 1;
    assert running.tasks[request.taskId].state == RUNNING && running.tasks[request.taskId].owner == store;
    assert running.Complete(report).0 == Ok;
    assert done.tasks[request.taskId] == final;
    assert done.tasks == t.tasks[request.taskId := final];
    assert done.tasks[request.taskId := final] == done.tasks;
    CompleteOutcome(done, report);
    CompleteOutcome(done, other);
  }

  // ---------------------------------------------------------------- polls

  ghost predicate DistinctIds(records: seq<TaskRecord>) {
    forall i, j :: 0 <= i < j < |records| ==> records[i].taskId != records[j].taskId
  }

  lemma {:induction false} StoredFacts(tasks: map<TaskId, TaskRecord>, taken: seq<TaskRecord>)
    requires DistinctIds(taken)
    ensures var after := TaskTable.Stored(tasks, taken);
            && after.Keys == tasks.Keys + (set r | r in taken :: r.taskId)
            && (forall r :: r in taken ==> after[r.taskId] == r)
            && (forall id :: id in tasks && (forall r :: r in taken ==> r.taskId != id) ==> after[id] == tasks[id])
    decreases |taken|
  {
    if taken != [] {
      assert taken == [taken[0]] + taken[1..];
      StoredFacts(tasks[taken[0].taskId := taken[0]], taken[1..]);
    }
  }

  /** What a poll takes: the lowest waiting tasks, in order, and no more than the limit. */
  lemma NextFacts(t: TaskTable, limit: nat)
    requires t.Keyed()
    ensures var picked := t.Next(limit);
            && DistinctIds(picked) && Sorted(FifoLess, picked)
            && |picked| == Min(|t.WaitingRecords()|, limit)
            && (forall r :: r in picked ==> r.taskId in t.tasks && t.tasks[r.taskId] == r && r.state == WAITING)
            && (forall r, w :: r in picked && w in t.WaitingRecords() && w !in picked ==> FifoLess(r, w))
  {
    hide FifoLess, TotalOn;
    FifoOrder(t);
    var waiting := Ordered(FifoLess, t.WaitingRecords());
    var picked := t.Next(limit);
    hide Ordered, TaskTable.Next;
    forall r | r in picked ensures r in t.WaitingRecords()
    {
      assert r in waiting;
    }
    PickedDistinct(t, waiting, |picked|);
    hide DistinctIds;
    forall r, w | r in picked && w in t.WaitingRecords() && w !in picked ensures FifoLess(r, w)
    {
      assert w in waiting;
      LaterThanPicked(waiting, |picked|, r, w);
    }
  }

  lemma PickedDistinct(t: TaskTable, waiting: seq<TaskRecord>, count: nat)
    requires t.Keyed() && TotalOn(FifoLess, t.WaitingRecords()) && Sorted(FifoLess, waiting) && count <= |waiting|
    requires forall r :: r in waiting <==> r in t.WaitingRecords()
    ensures DistinctIds(waiting[..count])
  {
    hide FifoLess, TotalOn, Sorted;
    forall i, j | 0 <= i < j < count ensures waiting[i].taskId != waiting[j].taskId
    {
      assert waiting[i] in waiting && waiting[j] in waiting;
      DifferentPlaces(t, waiting, i, j);
    }
  }

  lemma LaterThanPicked(waiting: seq<TaskRecord>, count: nat, r: TaskRecord, w: TaskRecord)
    requires Sorted(FifoLess, waiting) && count <= |waiting| && r in waiting[..count] && w in waiting
    requires w !in waiting[..count]
    ensures FifoLess(r, w)
  {
    hide FifoLess;
    var i :| 0 <= i < count && waiting[i] == r;
    var j :| 0 <= j < |waiting| && waiting[j] == w;
  }

  lemma DifferentPlaces(t: TaskTable, waiting: seq<TaskRecord>, i: nat, j: nat)
    requires TotalOn(FifoLess, t.WaitingRecords()) && Sorted(FifoLess, waiting) && i < j < |waiting|
    requires forall r :: r in waiting <==> r in t.WaitingRecords()
    ensures waiting[i] != waiting[j]
  {
    hide FifoLess;
    assert waiting[i] in t.WaitingRecords();
    assert FifoLess(waiting[i], waiting[j]);
  }

  /** The poll changed exactly the tasks it returned, from waiting to running for the store. */
  ghost predicate Took(t: TaskTable, after: TaskTable, taken: seq<TaskRecord>, store: StoreId) {
    && after.tasks.Keys == t.tasks.Keys && after.nextSequence == t.nextSequence
    && (forall r :: r in taken ==>
          && r.taskId in t.tasks && t.tasks[r.taskId].state == WAITING
          && r == t.tasks[r.taskId].(state := RUNNING, owner := store, generation := t.tasks[r.taskId].generation + 1)
          && after.tasks[r.taskId] == r)
    && (forall id :: id in t.tasks && after.tasks[id] != t.tasks[id] ==>
          after.tasks[id] in taken && after.tasks[id].taskId == id)
  }

  ghost predicate AscendingSequences(records: seq<TaskRecord>) {
    forall i, j :: 0 <= i < j < |records| ==> records[i].sequence < records[j].sequence
  }

  /** Whatever is still waiting after a poll came later than everything the poll took. */
  ghost predicate LeavesOnlyLater(t: TaskTable, after: TaskTable, taken: seq<TaskRecord>)
    requires after.tasks.Keys == t.tasks.Keys
  {
    forall r, id ::
      (r in taken && id in t.tasks && t.tasks[id].state == WAITING && after.tasks[id] == t.tasks[id])
      ==> r.sequence < t.tasks[id].sequence
  }

  lemma PollSucceeds(t: TaskTable, store: StoreId, limit: nat)
    requires Orderly(t) && store != 0 && limit > 0
    ensures var taken := TaskTable.TakenAll(t.Next(limit), store);
            t.Poll(store, limit) == (Ok, t.(tasks := TaskTable.Stored(t.tasks, taken)), taken)
  {
    NextFacts(t, limit);
    hide FifoLess, Sorted, TaskTable.Next, ValidRecord;
    forall r | r in t.Next(limit) ensures r.generation == 1
    {
      assert InLifecycle(t.tasks[r.taskId]);
    }
  }

  lemma StoredTakes(t: TaskTable, picked: seq<TaskRecord>, store: StoreId)
    requires t.Keyed() && DistinctIds(picked)
    requires forall r :: r in picked ==> r.taskId in t.tasks && t.tasks[r.taskId] == r && r.state == WAITING
    ensures var taken := TaskTable.TakenAll(picked, store);
            Took(t, t.(tasks := TaskTable.Stored(t.tasks, taken)), taken, store)
  {
    var taken := TaskTable.TakenAll(picked, store);
    TakenIds(picked, store);
    TakenFacts(t, picked, store);
    hide TaskTable.Stored, DistinctIds, TaskTable.TakenAll;
    StoredKeys(t.tasks, taken);
    forall id | id in t.tasks && TaskTable.Stored(t.tasks, taken)[id] != t.tasks[id]
      ensures TaskTable.Stored(t.tasks, taken)[id] in taken && TaskTable.Stored(t.tasks, taken)[id].taskId == id
    {
      ChangedIsTaken(t.tasks, taken, id);
    }
  }

  lemma StoredKeys(tasks: map<TaskId, TaskRecord>, taken: seq<TaskRecord>)
    requires DistinctIds(taken) && forall r :: r in taken ==> r.taskId in tasks
    ensures TaskTable.Stored(tasks, taken).Keys == tasks.Keys
    ensures forall r :: r in taken ==> TaskTable.Stored(tasks, taken)[r.taskId] == r
  {
    StoredFacts(tasks, taken);
    hide TaskTable.Stored, DistinctIds;
    assert (set r | r in taken :: r.taskId) <= tasks.Keys;
  }

  lemma ChangedIsTaken(tasks: map<TaskId, TaskRecord>, taken: seq<TaskRecord>, id: TaskId)
    requires DistinctIds(taken) && id in tasks && id in TaskTable.Stored(tasks, taken)
    requires TaskTable.Stored(tasks, taken)[id] != tasks[id]
    ensures TaskTable.Stored(tasks, taken)[id] in taken && TaskTable.Stored(tasks, taken)[id].taskId == id
  {
    StoredFacts(tasks, taken);
    hide TaskTable.Stored, DistinctIds;
  }

  lemma StoredLeavesLater(t: TaskTable, limit: nat, store: StoreId)
    requires Orderly(t)
    requires var taken := TaskTable.TakenAll(t.Next(limit), store);
             Took(t, t.(tasks := TaskTable.Stored(t.tasks, taken)), taken, store)
    ensures var taken := TaskTable.TakenAll(t.Next(limit), store);
            LeavesOnlyLater(t, t.(tasks := TaskTable.Stored(t.tasks, taken)), taken)
  {
    NextFacts(t, limit);
    var picked := t.Next(limit);
    var taken := TaskTable.TakenAll(picked, store);
    var after := t.(tasks := TaskTable.Stored(t.tasks, taken));
    hide TaskTable.Next, InLifecycle, FifoLess, Sorted, TaskTable.Stored;
    forall r, id | r in taken && id in t.tasks && t.tasks[id].state == WAITING && after.tasks[id] == t.tasks[id]
      ensures r.sequence < t.tasks[id].sequence
    {
      PickedAreChanged(t, after, picked, store, id);
      LeftLater(t, picked, store, r, id);
    }
  }

  lemma PickedAreChanged(t: TaskTable, after: TaskTable, picked: seq<TaskRecord>, store: StoreId, id: TaskId)
    requires t.Keyed() && Took(t, after, TaskTable.TakenAll(picked, store), store)
    requires id in t.tasks && after.tasks[id] == t.tasks[id]
    ensures t.tasks[id] !in picked
  {
    var taken := TaskTable.TakenAll(picked, store);
    forall k | 0 <= k < |picked| ensures picked[k] != t.tasks[id]
    {
      assert taken[k] in taken;
    }
  }

  /** A poll runs exactly the tasks it returns: the lowest-sequence waiting ones, each once. */
  lemma PollTakes(t: TaskTable, store: StoreId, limit: nat)
    requires Orderly(t) && store != 0 && limit > 0
    ensures var (status, after, taken) := t.Poll(store, limit);
            && status == Ok
            && |taken| == Min(|t.WaitingRecords()|, limit)
            && AscendingSequences(taken)
            && Took(t, after, taken, store)
            && LeavesOnlyLater(t, after, taken)
  {
    NextFacts(t, limit);
    PickedSequences(t, t.Next(limit));
    PollSucceeds(t, store, limit);
    hide Orderly, TaskTable.Next, TaskTable.Poll, TaskTable.Stored, Took, LeavesOnlyLater, FifoLess;
    StoredTakes(t, t.Next(limit), store);
    StoredLeavesLater(t, limit, store);
  }

  lemma PickedSequences(t: TaskTable, picked: seq<TaskRecord>)
    requires Orderly(t) && Sorted(FifoLess, picked) && DistinctIds(picked)
    requires forall r :: r in picked ==> r.taskId in t.tasks && t.tasks[r.taskId] == r
    ensures forall i, j :: 0 <= i < j < |picked| ==> picked[i].sequence < picked[j].sequence
  {
    hide InLifecycle;
    forall i, j | 0 <= i < j < |picked| ensures picked[i].sequence < picked[j].sequence
    {
      assert picked[i] in picked && picked[j] in picked;
      assert FifoLess(picked[i], picked[j]);
    }
  }

  lemma TakenIds(picked: seq<TaskRecord>, store: StoreId)
    requires DistinctIds(picked)
    ensures DistinctIds(TaskTable.TakenAll(picked, store))
  {
  }

  lemma TakenFacts(t: TaskTable, picked: seq<TaskRecord>, store: StoreId)
    requires t.Keyed()
    requires forall r :: r in picked ==> r.taskId in t.tasks && t.tasks[r.taskId] == r && r.state == WAITING
    ensures var taken := TaskTable.TakenAll(picked, store);
            forall r :: r in taken ==>
              && r.taskId in t.tasks && t.tasks[r.taskId] in picked && t.tasks[r.taskId].state == WAITING
              && r == t.Taken(t.tasks[r.taskId], store)
  {
    var taken := TaskTable.TakenAll(picked, store);
    forall r | r in taken
      ensures r.taskId in t.tasks && t.tasks[r.taskId] in picked && t.tasks[r.taskId].state == WAITING
              && r == t.Taken(t.tasks[r.taskId], store)
    {
      var k :| 0 <= k < |taken| && taken[k] == r;
      assert picked[k] in picked;
    }
  }

  lemma LeftLater(t: TaskTable, picked: seq<TaskRecord>, store: StoreId, r: TaskRecord, id: TaskId)
    requires Orderly(t) && r in TaskTable.TakenAll(picked, store) && id in t.tasks && t.tasks[id].state == WAITING
    requires forall p :: p in picked ==> p.taskId in t.tasks && t.tasks[p.taskId] == p && p.state == WAITING
    requires forall p, w :: p in picked && w in t.WaitingRecords() && w !in picked ==> FifoLess(p, w)
    requires t.tasks[id] !in picked
    ensures r.sequence < t.tasks[id].sequence
  {
    hide InLifecycle;
    TakenFacts(t, picked, store);
    assert t.tasks[id] in t.WaitingRecords();
    assert FifoLess(t.tasks[r.taskId], t.tasks[id]);
  }

  lemma TookKeeps(t: TaskTable, after: TaskTable, taken: seq<TaskRecord>, store: StoreId, id: TaskId)
    requires t.Keyed() && Took(t, after, taken, store) && store != 0 && id in t.tasks && InLifecycle(t.tasks[id])
    ensures after.tasks[id].taskId == id && InLifecycle(after.tasks[id])
    ensures after.tasks[id].sequence == t.tasks[id].sequence
    ensures TaskContinues(t.tasks[id], after.tasks[id])
  {
  }

  lemma TookFrame(t: TaskTable, after: TaskTable, taken: seq<TaskRecord>, store: StoreId)
    requires Took(t, after, taken, store)
    ensures after.tasks.Keys == t.tasks.Keys && after.nextSequence == t.nextSequence
  {
  }

  /** Records that stay in their lifecycle under their ids and sequences leave an orderly table. */
  lemma UpdateAll(t: TaskTable, after: TaskTable)
    requires Orderly(t) && after.tasks.Keys == t.tasks.Keys && after.nextSequence == t.nextSequence
    requires forall id :: id in t.tasks ==>
               && after.tasks[id].taskId == id && InLifecycle(after.tasks[id])
               && after.tasks[id].sequence == t.tasks[id].sequence
    ensures Orderly(after)
  {
    hide InLifecycle;
    if t.nextSequence > 1 {
      var last :| last in t.tasks && t.tasks[last].sequence == t.nextSequence - 1;
      assert last in after.tasks;
    }
  }

  lemma OrderlyRecord(t: TaskTable, id: TaskId)
    requires Orderly(t) && id in t.tasks
    ensures InLifecycle(t.tasks[id]) && t.Keyed()
  {
  }

  lemma PollFacts(t: TaskTable, store: StoreId, limit: nat)
    requires Orderly(t)
    ensures Orderly(t.Poll(store, limit).1) && TableContinues(t, t.Poll(store, limit).1)
    ensures t.Poll(store, limit).0 != Ok ==> t.Poll(store, limit).1 == t
  {
    assert t.Keyed();
    hide Orderly, InLifecycle, TaskContinues, TableContinues, TaskTable.Keyed, TaskTable.Next, TaskTable.Stored,
         LeavesOnlyLater, Took;
    if store != 0 && limit > 0 {
      PollTakes(t, store, limit);
      hide TaskTable.Poll;
      var (status, after, taken) := t.Poll(store, limit);
      TookFrame(t, after, taken, store);
      forall id | id in t.tasks
        ensures TaskContinues(t.tasks[id], after.tasks[id]) && after.tasks[id].taskId == id
                && InLifecycle(after.tasks[id]) && after.tasks[id].sequence == t.tasks[id].sequence
      {
        OrderlyRecord(t, id);
        TookKeeps(t, after, taken, store, id);
      }
      UpdateAll(t, after);
      AllContinue(t, after);
    } else {
      SelfContinues(t);
    }
  }

  lemma AllContinue(t: TaskTable, after: TaskTable)
    requires after.tasks.Keys == t.tasks.Keys && after.nextSequence == t.nextSequence
    requires forall id :: id in t.tasks ==> TaskContinues(t.tasks[id], after.tasks[id])
    ensures TableContinues(t, after)
  {
    hide TaskContinues;
  }

  lemma SelfContinues(t: TaskTable)
    ensures TableContinues(t, t)
  {
  }
}
