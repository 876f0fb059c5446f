/**
 Runs that end with a poll of too many tasks, or of tasks that are too large together: what the limits of
 the store results and of the snapshots come to.
 */
module OversizedPolls {
  import opened Common
  import opened Fields
  import opened StoreTypes
  import opened Stores
  import opened Tasks
  import opened Machines
  import opened MachineSnapshots
  import opened Replays
  import opened SnapshotRefusals
  import Commands = MetadataCommands
  import Business = StoreCommands

  const NO_UPDATE := StoreUpdate(0, None, None, None, None)
  const NO_CREATE := TaskRequest([], TASK_CREATE, [])
  const NO_REPORT := TaskReport(0, [], WAITING, [], None)

  function Creation(k: nat, target: Bytes): Business.StoreCommand {
    Business.StoreCommand(Business.CREATE_TASK, NO_STORE, NO_UPDATE, TaskRequest(Name(k), TASK_CREATE, target),
                          NO_REPORT, 0, 0)
  }

  function PollFor(limit: nat): Business.StoreCommand {
    Business.StoreCommand(Business.POLL_TASKS, NO_STORE, NO_UPDATE, NO_CREATE, NO_REPORT, 1, limit)
  }

  // ---------------------------------------------------------------- sizes

  /** Numbers of up to eight bytes and, but for one field, byte strings of up to four. */
  ghost predicate SmallBut(ss: seq<Shape>, vs: seq<Value>, j: int) {
    && AllMatch(ss, vs)
    && (forall i :: 0 <= i < |ss| ==> ss[i].Num? ==> ss[i].width <= 8)
    && (forall i :: 0 <= i < |vs| && i != j && vs[i].D? ==> |vs[i].bytes| <= 4)
  }

  lemma {:induction false} PutAtMost(ss: seq<Shape>, vs: seq<Value>, j: int)
    requires SmallBut(ss, vs, j)
    ensures |PutAll(ss, vs)| <= 8 * |ss| + if 0 <= j < |vs| && vs[j].D? then |vs[j].bytes| else 0
    decreases |ss|
  {
    if ss != [] {
      assert Matches(ss[0], vs[0]);
      PutAtMost(ss[1..], vs[1..], j - 1);
    }
  }

  lemma {:induction false} PutAtLeast(ss: seq<Shape>, vs: seq<Value>, j: nat)
    requires AllMatch(ss, vs) && j < |vs| && vs[j].D?
    ensures |PutAll(ss, vs)| >= |vs[j].bytes|
    decreases |ss|
  {
    assert Matches(ss[0], vs[0]);
    if j > 0 {
      PutAtLeast(ss[1..], vs[1..], j - 1);
    }
  }

  // ---------------------------------------------------------------- commands on their way into the log

  /** The metadata command around a store command; all of them write the same record. */
  ghost function Wrapped(c: Business.StoreCommand): Commands.MetadataCommand
    requires Business.InRange(c) && Business.Encode(c).Success?
  {
    Commands.MetadataCommand(Commands.STORE_OPERATION, [1], [1], None, Business.Encode(c).value)
  }

  /** The command fits into a metadata command, and nothing of it is lost. */
  ghost predicate Carried(c: Business.StoreCommand) {
    && Business.InRange(c) && Business.Encode(c).Success? && Commands.Valid(Wrapped(c))
    && Business.Decode(Business.Encode(c).value) == Success(c)
  }

  lemma CommandCarried(c: Business.StoreCommand)
    requires Business.InRange(c) && Business.Valid(c) && Business.Fits(c)
    requires c.store == NO_STORE && c.update == NO_UPDATE && c.report == NO_REPORT
    requires |c.create.taskId| <= 4 && |c.create.target| <= Commands.MAX_PAYLOAD_BYTES - 192
    ensures Carried(c)
  {
    Business.RoundTripIff(c);
    Business.CommandMatches(c);
    var vs := Business.CommandValues(c);
    FieldsAreSmall(c);
    PutAtMost(Business.COMMAND_SHAPES, vs, 18);
    hide PutAll, Business.Decode, Business.Fits, Business.Valid, Business.InRange, AllMatch;
    assert vs[18] == Business.CreateValues(c.create)[2];
    assert 0 < |PutAll(Business.COMMAND_SHAPES, vs)| by { NotEmpty(c); }
  }

  lemma NotEmpty(c: Business.StoreCommand)
    requires AllMatch(Business.COMMAND_SHAPES, Business.CommandValues(c))
    ensures |PutAll(Business.COMMAND_SHAPES, Business.CommandValues(c))| > 0
  {
  }

  lemma FieldsAreSmall(c: Business.StoreCommand)
    requires Business.Fits(c) && c.store == NO_STORE && c.update == NO_UPDATE && c.report == NO_REPORT
    requires |c.create.taskId| <= 4
    ensures |Business.CommandValues(c)| == 24
    ensures SmallBut(Business.COMMAND_SHAPES, Business.CommandValues(c), 18)
  {
    Business.CommandMatches(c);
    hide AllMatch;
  }

  ghost function BytesOf(c: Business.StoreCommand): Bytes
    requires Carried(c)
  {
    Commands.CommandBytes(Wrapped(c))
  }

  ghost function Bringing(index: LogIndex, c: Business.StoreCommand): Event
    requires Carried(c)
  {
    ApplyEntry(index, 1, BytesOf(c))
  }

  /** Applying such an entry is performing its command and recording the result. */
  lemma BringingApplies(m: Machine, c: Business.StoreCommand)
    requires Carried(c) && m.tasks.Keyed()
    ensures var (status, after) := ApplyStore(m, Wrapped(c), m.lastIndex + 1, 1);
            Apply(m, m.lastIndex + 1, 1, BytesOf(c))
            == (status, if status == Ok then after.(lastIndex := m.lastIndex + 1, lastTerm := 1) else after)
  {
    hide Commands.CommandBytes, Commands.Decode, ApplyStore, Business.Encode, Business.Decode;
    Commands.RoundTrip(Wrapped(c));
  }

  // ---------------------------------------------------------------- tasks that wait

  ghost predicate TargetFits(target: Bytes) {
    |target| <= Commands.MAX_PAYLOAD_BYTES - 192
  }

  lemma CreationCarried(k: nat, target: Bytes)
    requires TargetFits(target)
    ensures Carried(Creation(k, target))
  {
    hide Carried, Name;
    CommandCarried(Creation(k, target));
  }

  lemma PollCarried(limit: nat)
    requires 0 < limit < U32_LIMIT
    ensures Carried(PollFor(limit))
  {
    hide Carried;
    CommandCarried(PollFor(limit));
  }

  /** The entries that create `n` tasks with the same target. */
  ghost function Creations(n: nat, target: Bytes): (events: seq<Event>)
    requires TargetFits(target)
    ensures |events| == n
    ensures forall i :: 0 <= i < n ==> events[i].ApplyEntry? && events[i].index == i + 1 && events[i].term == 1
  {
    if n == 0 then [] else
      CreationCarried(n, target);
      Creations(n - 1, target) + [Bringing(n, Creation(n, target))]
  }

  ghost predicate WaitsWith(t: TaskRecord, target: Bytes) {
    t.state == WAITING && t.target == target && t.owner == 0
  }

  ghost predicate TableHolds(t: TaskTable, n: nat, target: Bytes) {
    && t.nextSequence == n + 1 && |t.tasks| == n
    && (forall id :: id in t.tasks ==> WaitsWith(t.tasks[id], target) && exists k :: 1 <= k <= n && id == Name(k))
  }

  ghost predicate HoldsTasks(m: Machine, n: nat, target: Bytes) {
    m.lastIndex == n && m.stores == NO_STORES && m.records.Keys <= {[1]} && TableHolds(m.tasks, n, target)
  }

  lemma TableGains(t: TaskTable, n: nat, target: Bytes)
    requires TargetFits(target) && 0 < n < U32_LIMIT && TableHolds(t, n - 1, target)
    ensures t.Create(Creation(n, target).create).0 == Ok
    ensures TableHolds(t.Create(Creation(n, target).create).1, n, target)
  {
    hide Name;
    if Name(n) in t.tasks {
      var k :| 1 <= k <= n - 1 && Name(n) == Name(k);
      NamesDiffer(n, k);
    }
    var after := t.Create(Creation(n, target).create).1;
    assert after.tasks.Keys == t.tasks.Keys + {Name(n)};
  }

  lemma TableIsRanged(t: TaskTable, n: nat, target: Bytes)
    requires TableHolds(t, n, target)
    ensures TasksRanged(t)
  {
  }

  lemma CreationPerforms(stores: Registry, t: TaskTable, n: nat, target: Bytes)
    requires Orderly(t) && t.Keyed() && TargetFits(target) && 0 < n < U32_LIMIT && TableHolds(t, n - 1, target)
    ensures var o := Perform(stores, t, Creation(n, target));
            && o.status == Ok && o.stores == stores && TableHolds(o.tasks, n, target)
            && Business.EncodeResult(o.result).Success?
  {
    hide Business.EncodeResult, Orderly, TableHolds, TaskTable.Create, TasksRanged, TaskTable.Keyed, Name;
    TableIsRanged(t, n - 1, target);
    TableGains(t, n, target);
    CreateEncodes(t, Creation(n, target).create);
  }

  /** What recording the result of a carried command comes to. */
  lemma StoreApplies(m: Machine, c: Business.StoreCommand, index: LogIndex)
    requires Carried(c) && m.tasks.Keyed()
    ensures var o, (status, after) := Perform(m.stores, m.tasks, c), ApplyStore(m, Wrapped(c), index, 1);
            && after.stores == o.stores && after.tasks == o.tasks && after.records.Keys <= m.records.Keys + {[1]}
            && (status == Ok <==> o.status == Ok && Business.EncodeResult(o.result).Success?)
            && (status == Ok ==> [1] in after.records
                                 && after.records[[1]].payload == Business.EncodeResult(o.result).value)
  {
    hide Perform, Business.Decode, Business.EncodeResult, Business.Encode, Business.InRange, Commands.Valid;
    if Business.EncodeResult(Perform(m.stores, m.tasks, c).result).Failure? {
      EncodeError(Perform(m.stores, m.tasks, c).result);
    }
  }

  lemma CreationApplies(m: Machine, n: nat, target: Bytes)
    requires Sound(m) && TargetFits(target) && 0 < n < U32_LIMIT && HoldsTasks(m, n - 1, target)
    ensures Carried(Creation(n, target)) && m.tasks.Keyed()
    ensures HoldsTasks(Apply(m, n, 1, BytesOf(Creation(n, target))).1, n, target)
  {
    hide BytesOf, Apply, ApplyStore, Carried, Perform, Business.EncodeResult, Registry.Consistent, Orderly, TableHolds,
         Creation, TaskTable.Keyed, Sound, Wrapped;
    SoundKeyed(m);
    CreationCarried(n, target);
    BringingApplies(m, Creation(n, target));
    StoreApplies(m, Creation(n, target), n);
    CreationPerforms(m.stores, m.tasks, n, target);
  }

  lemma {:induction false} CreationsReach(n: nat, target: Bytes)
    requires n < U32_LIMIT && TargetFits(target)
    ensures HoldsTasks(Reached(Creations(n, target)), n, target)
  {
    hide HoldsTasks, Apply, BytesOf, Carried, Sound;
    if n == 0 {
      NoTasksYet(target);
    } else {
      CreationsReach(n - 1, target);
      CreationApplies(Reached(Creations(n - 1, target)), n, target);
      ReachedNext(Creations(n - 1, target), Bringing(n, Creation(n, target)));
    }
  }

  lemma NoTasksYet(target: Bytes)
    ensures HoldsTasks(Reached([]), 0, target)
  {
    NewMachineSound();
  }

  lemma AllWait(m: Machine, n: nat, target: Bytes)
    requires HoldsTasks(m, n, target) && m.tasks.Keyed()
    ensures |m.tasks.WaitingRecords()| == n
  {
    hide Name;
    RecordsCount(m.tasks);
    assert m.tasks.WaitingRecords() == m.tasks.Records();
  }

  // ---------------------------------------------------------------- too many tasks

  /** The next entry fails and has taken the waiting tasks all the same. */
  ghost predicate FailsButTakes(events: seq<Event>, payload: Bytes) {
    var m := Reached(events);
    var (status, after) := Apply(m, m.lastIndex + 1, 1, payload);
    InputsInRange(events) && status != Ok && after.tasks != m.tasks && after.lastIndex == m.lastIndex
  }

  lemma PollOverflows(stores: Registry, t: TaskTable, n: nat)
    requires Orderly(t) && t.Keyed() && TasksRanged(t) && |t.WaitingRecords()| == n > Business.MAX_ITEMS
    ensures var o := Perform(stores, t, PollFor(n));
            o.status == Ok && o.tasks != t && Business.EncodeResult(o.result).Failure?
  {
    hide Perform, Business.EncodeResult, Orderly, TaskTable.Keyed, TasksRanged, TaskTable.WaitingRecords;
    PollSettles(stores, t, PollFor(n));
  }

  lemma ManyWait(m: Machine, n: nat)
    requires Sound(m) && HoldsTasks(m, n, [])
    ensures m.tasks.Keyed() && Orderly(m.tasks) && TasksRanged(m.tasks)
    ensures |m.tasks.WaitingRecords()| == n == m.lastIndex
  {
    hide TableHolds;
    SoundKeyed(m);
    AllWait(m, n, []);
    TableIsRanged(m.tasks, n, []);
  }

  lemma PollFails(m: Machine, n: nat)
    requires Sound(m) && HoldsTasks(m, n, []) && Business.MAX_ITEMS < n < U32_LIMIT
    ensures Carried(PollFor(n)) && m.tasks.Keyed()
    ensures var (status, after) := Apply(m, n + 1, 1, BytesOf(PollFor(n)));
            status != Ok && after.tasks != m.tasks
  {
    hide BytesOf, Apply, ApplyStore, Carried, Perform, Business.EncodeResult, Registry.Consistent, Orderly,
         TableHolds, TaskTable.Keyed, TasksRanged, TaskTable.WaitingRecords, PollFor, Sound, HoldsTasks, Wrapped;
    ManyWait(m, n);
    PollCarried(n);
    BringingApplies(m, PollFor(n));
    StoreApplies(m, PollFor(n), n + 1);
    PollOverflows(m.stores, m.tasks, n);
  }

  /** 4097 tasks are created and polled for at once: the entry fails, and the tasks are assigned. */
  lemma TooManyTasksAreTaken()
    ensures exists events, payload :: FailsButTakes(events, payload)
  {
    hide Reached, Creations, Apply, BytesOf, Carried;
    var n := Business.MAX_ITEMS + 1;
    CreationsReach(n, []);
    var m := Reached(Creations(n, []));
    PollFails(m, n);
    FailedKeepsProgress(m, n + 1, 1, BytesOf(PollFor(n)));
    CreationsInRange(n, []);
    assert FailsButTakes(Creations(n, []), BytesOf(PollFor(n)));
  }

  lemma CreationsInRange(n: nat, target: Bytes)
    requires n < U32_LIMIT && TargetFits(target)
    ensures InputsInRange(Creations(n, target))
  {
  }

  // ---------------------------------------------------------------- tasks that are large together

  lemma RowAtLeast(t: TaskRecord)
    requires AllMatch(Business.TASK_SHAPES, Business.TaskValues(t))
    ensures |PutAll(Business.TASK_SHAPES, Business.TaskValues(t))| >= |t.target|
  {
    hide PutAll, AllMatch;
    PutAtLeast(Business.TASK_SHAPES, Business.TaskValues(t), 6);
  }

  lemma ResultAtLeast(r: Business.StoreResult)
    requires Business.EncodeResult(r).Success? && |r.tasks| == 2
    ensures |Business.EncodeResult(r).value| >= |r.tasks[0].target| + |r.tasks[1].target|
  {
    var rows := Business.TaskRows(r.tasks);
    Business.HeadMatches(r);
    Business.RowsMatch(r.tasks);
    assert rows[0] in rows && rows[1] in rows;
    hide PutAll, AllMatch, Business.TaskValues, Business.TaskFits;
    RowAtLeast(r.tasks[0]);
    RowAtLeast(r.tasks[1]);
    assert rows[1..][0] == rows[1];
    assert PutMany(Business.TASK_SHAPES, rows[1..])
        == PutAll(Business.TASK_SHAPES, rows[1]) + PutMany(Business.TASK_SHAPES, rows[1..][1..]);
  }

  /** A poll of the two tasks takes both, with their targets. */
  lemma PairTaken(t: TaskTable, target: Bytes)
    requires Orderly(t) && t.Keyed() && TableHolds(t, 2, target) && |t.WaitingRecords()| == 2
    ensures var (status, after, taken) := t.Poll(1, 2);
            && status == Ok && |after.tasks| == 2
            && |taken| == 2 && taken[0].target == target && taken[1].target == target
  {
    PollTakes(t, 1, 2);
    hide Orderly, TaskTable.Poll, LeavesOnlyLater, AscendingSequences, TaskTable.Keyed, Name;
    var (_, after, taken) := t.Poll(1, 2);
    assert taken[0] in taken && taken[1] in taken;
    assert |after.tasks.Keys| == |t.tasks.Keys|;
  }

  lemma PairPerforms(stores: Registry, t: TaskTable, target: Bytes)
    requires Orderly(t) && t.Keyed() && TableHolds(t, 2, target) && |t.WaitingRecords()| == 2
    ensures var o := Perform(stores, t, PollFor(2));
            && o.status == Ok && o.stores == stores && |o.tasks.tasks| == 2
            && Business.EncodeResult(o.result).Success?
            && |Business.EncodeResult(o.result).value| >= |target| + |target|
  {
    hide Business.EncodeResult, Orderly, TaskTable.Poll, TasksRanged, TaskTable.Keyed, TableHolds,
         TaskTable.WaitingRecords;
    TableIsRanged(t, 2, target);
    PairTaken(t, target);
    PollEncodesIff(t, 1, 2);
    ResultAtLeast(Business.StoreResult(NO_STORE, t.Poll(1, 2).2, false));
  }

  lemma PairOverflows(m: Machine, target: Bytes)
    requires Sound(m) && HoldsTasks(m, 2, target) && |target| + |target| > MAX_PAYLOAD
    ensures Carried(PollFor(2)) && m.tasks.Keyed()
    ensures var (status, after) := Apply(m, 3, 1, BytesOf(PollFor(2)));
            && status == Ok && !PayloadsFit(after)
            && after.stores == NO_STORES && |after.tasks.tasks| == 2 && |after.records| <= 1
  {
    SoundKeyed(m);
    PollCarried(2);
    AllWait(m, 2, target);
    hide BytesOf, Apply, ApplyStore, Carried, Perform, Business.EncodeResult, Registry.Consistent, Orderly,
         TableHolds, TaskTable.Keyed, TaskTable.WaitingRecords;
    BringingApplies(m, PollFor(2));
    StoreApplies(m, PollFor(2), 3);
    PairPerforms(m.stores, m.tasks, target);
    OneRecord(ApplyStore(m, Wrapped(PollFor(2)), 3, 1).1.records);
  }

  lemma OneRecord(records: map<Bytes, StateRecord>)
    requires records.Keys <= {[1]}
    ensures |records| <= 1
  {
    assert records.Keys == {} || records.Keys == {[1]};
    assert |records| == |records.Keys|;
  }

  /** A machine of two tasks, no store and one record that cannot be written to a snapshot. */
  ghost predicate UnwritablePair(events: seq<Event>) {
    && InputsInRange(events) && TermsRise(0, events) && |Reached(events).records| <= 1
    && Reached(events).stores == NO_STORES && |Reached(events).tasks.tasks| == 2
    && SnapshotAfter(events).Failure?
  }

  lemma LargeTargetsBlock(target: Bytes)
    requires TargetFits(target) && |target| + |target| > MAX_PAYLOAD
    ensures exists events :: UnwritablePair(events)
  {
    hide Reached, Creations, Apply, BytesOf, Carried, PayloadsFit, Create, NumbersInRange, Sound;
    CreationsReach(2, target);
    var m := Reached(Creations(2, target));
    PairOverflows(m, target);
    var e := Bringing(3, PollFor(2));
    var events := Creations(2, target) + [e];
    ReachedNext(Creations(2, target), e);
    CreationsInRange(2, target);
    OneTermRises(0, events);
    SnapshotRefusedIff(events);
    assert UnwritablePair(events);
  }

  /** Two tasks with targets of 3 MiB are polled for at once: from then on no snapshot can be written. */
  lemma LargeResultBlocksSnapshots()
    ensures exists events :: UnwritablePair(events)
  {
    var target: Bytes := seq(3 * 1024 * 1024, _ => 0);
    LargeTargetsBlock(target);
  }
}
