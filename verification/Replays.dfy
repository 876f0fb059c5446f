/** Replaying the log: a snapshot and the entries after it give what the whole log gives. */
module Replays {
  import opened Common
  import opened StoreTypes
  import opened Stores
  import opened Tasks
  import opened Machines
  import opened MachineSnapshots
  import Commands = MetadataCommands
  import Business = StoreCommands

  datatype Event =
    | ApplyEntry(index: LogIndex, term: Term, payload: Bytes)
    | Beat(store: StoreId, ms: int)

  ghost function After(m: Machine, e: Event): Machine
    requires Sound(m)
  {
    match e
    case ApplyEntry(index, term, payload) => SoundKeyed(m); Apply(m, index, term, payload).1
    case Beat(store, ms) => Heartbeat(m, store, ms)
  }

  lemma AfterSound(m: Machine, e: Event)
    requires Sound(m)
    ensures Sound(After(m, e))
  {
    hide Sound, Apply, Heartbeat;
    SoundKeyed(m);
    match e
    case ApplyEntry(index, term, payload) => ApplySound(m, index, term, payload);
    case Beat(store, ms) => HeartbeatSound(m, store, ms);
  }

  ghost function Replay(m: Machine, events: seq<Event>): (after: Machine)
    requires Sound(m)
    ensures Sound(after)
    decreases |events|
  {
    if events == [] then m else
      AfterSound(m, events[0]);
      Replay(After(m, events[0]), events[1..])
  }

  /** The statuses the applied entries got. */
  ghost function Statuses(m: Machine, events: seq<Event>): seq<Status>
    requires Sound(m)
    decreases |events|
  {
    if events == [] then [] else
      AfterSound(m, events[0]);
      SoundKeyed(m);
      (match events[0]
       case ApplyEntry(index, term, payload) => [Apply(m, index, term, payload).0]
       case Beat(_, _) => [])
      + Statuses(After(m, events[0]), events[1..])
  }

  /** The entries without the heartbeats between them. */
  function Entries(events: seq<Event>): seq<Event> {
    if events == [] then []
    else if events[0].Beat? then Entries(events[1..])
    else [events[0]] + Entries(events[1..])
  }

  // ---------------------------------------------------------------- heartbeats are invisible

  lemma BeatForgotten(m: Machine, store: StoreId, ms: int)
    requires Sound(m)
    ensures Forget(Heartbeat(m, store, ms)) == Forget(m)
  {
    hide Registry.Consistent, Orderly, Registry.Heartbeat, Registry.Forget;
    HeartbeatFacts(m.stores, store, ms);
  }

  lemma SameEntrySameEffect(a: Machine, b: Machine, index: LogIndex, term: Term, payload: Bytes)
    requires Sound(a) && Sound(b) && Forget(a) == Forget(b)
    ensures a.tasks.Keyed() && b.tasks.Keyed()
    ensures Apply(a, index, term, payload).0 == Apply(b, index, term, payload).0
    ensures Forget(Apply(a, index, term, payload).1) == Forget(Apply(b, index, term, payload).1)
  {
    SoundKeyed(a);
    SoundKeyed(b);
    hide Sound, Apply;
    ApplyForgets(a, index, term, payload);
    ApplyForgets(b, index, term, payload);
  }

  /**
   Machines that differ in heartbeats only, given the same entries with heartbeats interleaved anywhere,
   return the same statuses and still differ in heartbeats only.
   */
  lemma {:induction false} SameEntriesSameOutcome(a: Machine, b: Machine, es: seq<Event>, fs: seq<Event>)
    requires Sound(a) && Sound(b) && Forget(a) == Forget(b) && Entries(es) == Entries(fs)
    ensures Statuses(a, es) == Statuses(b, fs)
    ensures Forget(Replay(a, es)) == Forget(Replay(b, fs))
    decreases |es| + |fs|
  {
    hide Sound, Apply, Heartbeat, Forget;
    SoundKeyed(a);
    SoundKeyed(b);
    if es != [] && es[0].Beat? {
      AfterSound(a, es[0]);
      BeatForgotten(a, es[0].store, es[0].ms);
      SameEntriesSameOutcome(After(a, es[0]), b, es[1..], fs);
    } else if fs != [] && fs[0].Beat? {
      AfterSound(b, fs[0]);
      BeatForgotten(b, fs[0].store, fs[0].ms);
      SameEntriesSameOutcome(a, After(b, fs[0]), es, fs[1..]);
    } else if es != [] {
      var e := es[0];
      assert Entries(es)[0] == e && Entries(fs)[0] == fs[0] == e;
      assert Entries(es)[1..] == Entries(es[1..]) && Entries(fs)[1..] == Entries(fs[1..]);
      AfterSound(a, e);
      AfterSound(b, e);
      SameEntrySameEffect(a, b, e.index, e.term, e.payload);
      SameEntriesSameOutcome(After(a, e), After(b, e), es[1..], fs[1..]);
    }
  }

  lemma {:induction false} ReplayConcat(m: Machine, es: seq<Event>, fs: seq<Event>)
    requires Sound(m)
    ensures Replay(m, es + fs) == Replay(Replay(m, es), fs)
    ensures Statuses(m, es + fs) == Statuses(m, es) + Statuses(Replay(m, es), fs)
    decreases |es|
  {
    hide Sound, After, Apply;
    if es == [] {
      assert es + fs == fs;
    } else {
      assert (es + fs)[1..] == es[1..] + fs;
      AfterSound(m, es[0]);
      ReplayConcat(After(m, es[0]), es[1..], fs);
    }
  }

  // ---------------------------------------------------------------- ranges over a run

  ghost predicate EventInRange(e: Event) {
    e.ApplyEntry? ==> e.index < U64_LIMIT && e.term < U64_LIMIT
  }

  ghost predicate RegistryRanged(r: Registry) {
    forall id :: id in r.stores ==> Business.StoreFits(r.stores[id])
  }

  ghost predicate TasksRanged(t: TaskTable) {
    forall id :: id in t.tasks ==> t.tasks[id].owner < U64_LIMIT
  }

  /** A record's generation never exceeds the number of entries applied. */
  ghost predicate RecordRanged(r: StateRecord, lastIndex: LogIndex) {
    r.generation <= lastIndex && r.updateIndex <= lastIndex && r.updateTerm < U64_LIMIT
  }

  ghost predicate Ranged(m: Machine) {
    && m.lastIndex < U64_LIMIT && m.lastTerm < U64_LIMIT
    && (forall id :: id in m.records ==> RecordRanged(m.records[id], m.lastIndex))
    && RegistryRanged(m.stores) && TasksRanged(m.tasks)
  }

  lemma RegisterRanged(r: Registry, store: StoreInfo)
    requires RegistryRanged(r) && Business.StoreFits(store)
    ensures RegistryRanged(r.Register(store).1)
  {
    hide AddressKey;
  }

  lemma UpdateRanged(r: Registry, u: StoreUpdate)
    requires RegistryRanged(r) && Business.UpdateFits(u)
    ensures RegistryRanged(r.Update(u).1)
  {
    hide AddressKey, ValidAddress;
  }

  lemma RemoveRanged(r: Registry, id: StoreId)
    requires RegistryRanged(r)
    ensures RegistryRanged(r.Remove(id).1)
  {
    hide AddressKey, Business.StoreFits;
  }

  lemma PollRanged(t: TaskTable, store: StoreId, limit: nat)
    requires Orderly(t) && TasksRanged(t) && store < U64_LIMIT
    ensures TasksRanged(t.Poll(store, limit).1)
  {
    if store != 0 && limit > 0 {
      PollTakes(t, store, limit);
      var (_, after, taken) := t.Poll(store, limit);
      hide TaskTable.Poll, Orderly, LeavesOnlyLater;
    }
  }

  lemma CreateRanged(t: TaskTable, request: TaskRequest)
    requires TasksRanged(t)
    ensures TasksRanged(t.Create(request).1)
  {
  }

  lemma CompleteRanged(t: TaskTable, report: TaskReport)
    requires TasksRanged(t)
    ensures TasksRanged(t.Complete(report).1)
  {
  }

  lemma PerformRanged(stores: Registry, tasks: TaskTable, c: Business.StoreCommand)
    requires Orderly(tasks) && RegistryRanged(stores) && TasksRanged(tasks)
    requires Business.StoreFits(c.store) && Business.UpdateFits(c.update) && c.storeId < U64_LIMIT
    ensures var o := Perform(stores, tasks, c); RegistryRanged(o.stores) && TasksRanged(o.tasks)
  {
    hide RegistryRanged, TasksRanged, Orderly, Registry.Register, Registry.Update, Registry.Remove, TaskTable.Create,
         TaskTable.Poll, TaskTable.Complete, Repeats, Business.StoreFits, Business.UpdateFits, Registry.Get,
         TaskTable.Keyed, WithStore, WithTask;
    RegisterRanged(stores, c.store);
    UpdateRanged(stores, c.update);
    RemoveRanged(stores, c.storeId);
    OrderlyIsKeyed(tasks);
    CreateRanged(tasks, c.create);
    PollRanged(tasks, c.storeId, c.maxTasks);
    CompleteRanged(tasks, c.report);
  }

  lemma BusinessRanged(m: Machine, payload: Bytes)
    requires Orderly(m.tasks) && RegistryRanged(m.stores) && TasksRanged(m.tasks)
    ensures var c := Business.Decode(payload);
            c.Success? ==>
              var o := Perform(m.stores, m.tasks, c.value); RegistryRanged(o.stores) && TasksRanged(o.tasks)
  {
    hide RegistryRanged, TasksRanged, Orderly, Perform, Business.Decode;
    OrderlyIsKeyed(m.tasks);
    if Business.Decode(payload).Success? {
      Business.DecodedInRange(payload);
      PerformRanged(m.stores, m.tasks, Business.Decode(payload).value);
    }
  }

  lemma OrderlyIsKeyed(t: TaskTable)
    requires Orderly(t)
    ensures t.Keyed()
  {
  }

  lemma ApplyRanged(m: Machine, index: LogIndex, term: Term, payload: Bytes)
    requires Sound(m) && Ranged(m) && index < U64_LIMIT && term < U64_LIMIT
    ensures m.tasks.Keyed() && Ranged(Apply(m, index, term, payload).1)
  {
    hide RegistryRanged, TasksRanged, Orderly, Perform, Business.Decode, Business.EncodeResult, Commands.Decode,
         Registry.Consistent, TaskTable.Keyed;
    SoundKeyed(m);
    var c := Commands.Decode(payload);
    if c.Success? {
      BusinessRanged(m, c.value.payload);
    }
  }

  lemma BeatRanged(m: Machine, store: StoreId, ms: int)
    requires Ranged(m)
    ensures Ranged(Heartbeat(m, store, ms))
  {
  }

  lemma {:induction false} ReplayRanged(m: Machine, events: seq<Event>)
    requires Sound(m) && Ranged(m) && forall i :: 0 <= i < |events| ==> EventInRange(events[i])
    ensures Ranged(Replay(m, events))
    decreases |events|
  {
    hide Sound, Ranged, Apply, Heartbeat;
    if events != [] {
      assert EventInRange(events[0]);
      AfterSound(m, events[0]);
      SoundKeyed(m);
      match events[0] {
        case ApplyEntry(index, term, payload) => ApplyRanged(m, index, term, payload);
        case Beat(store, ms) => BeatRanged(m, store, ms);
      }
      ReplayRanged(After(m, events[0]), events[1..]);
    }
  }

  lemma RangedInRange(m: Machine)
    requires Sound(m) && Ranged(m) && |m.records| < U32_LIMIT
    ensures InRange(m)
  {
    hide Registry.Consistent, Orderly, Listed, Business.StoreFits;
    ListedFacts(m);
    forall r | r in Listed(m) ensures RecordInRange(r)
    {
      assert RecordRanged(m.records[r.targetId], m.lastIndex);
    }
  }

  lemma NewMachineRanged()
    ensures Ranged(NEW_MACHINE)
  {
  }

  // ---------------------------------------------------------------- the theorem

  /** The machine after a run from empty, given that it has few enough records to count in 32 bits. */
  lemma ReachedInRange(events: seq<Event>)
    requires InputsInRange(events) && |Reached(events).records| < U32_LIMIT
    ensures InRange(Reached(events))
  {
    hide Sound, Ranged, InRange, Replay, EventInRange;
    NewMachineRanged();
    NewMachineSound();
    ReplayRanged(NEW_MACHINE, events);
    RangedInRange(Replay(NEW_MACHINE, events));
  }

  ghost predicate InputsInRange(events: seq<Event>) {
    forall i :: 0 <= i < |events| ==> EventInRange(events[i])
  }

  /** The machine after a run from empty. */
  ghost function Reached(events: seq<Event>): (m: Machine)
    ensures Sound(m) && m.tasks.Keyed()
  {
    NewMachineSound();
    var m := Replay(NEW_MACHINE, events);
    SoundKeyed(m);
    m
  }

  /** The snapshot written after a run, with the progress it reached. */
  ghost function SnapshotAfter(events: seq<Event>): Result<Bytes>
    requires InputsInRange(events) && |Reached(events).records| < U32_LIMIT
  {
    ReachedInRange(events);
    Create(Reached(events), Reached(events).lastIndex, Reached(events).lastTerm)
  }

  /**
   For every log prefix after which a snapshot is written, and every suffix: restoring the snapshot in a
   new machine and applying the suffix returns the same statuses and reaches the same machine as applying
   the whole log, wherever heartbeats fall and whatever they are.
   */
  lemma SnapshotAndSuffix(prefix: seq<Event>, suffix: seq<Event>, replayed: seq<Event>)
    requires InputsInRange(prefix) && |Reached(prefix).records| <= MAX_RECORDS
    requires SnapshotAfter(prefix).Success? && Entries(suffix) == Entries(replayed)
    ensures var restored := MachineSnapshots.Restore(SnapshotAfter(prefix).value);
            && restored.Success? && Sound(restored.value)
            && Statuses(Reached(prefix), suffix) == Statuses(restored.value, replayed)
            && Forget(Reached(prefix + suffix)) == Forget(Replay(restored.value, replayed))
  {
    ReachedInRange(prefix);
    hide Sound, Create, MachineSnapshots.Restore, Replay, Statuses, Forget, NumbersInRange;
    var m := Reached(prefix);
    RestoreCreated(m);
    ForgetSound(m);
    ForgetTwice(m);
    NewMachineSound();
    ReplayConcat(NEW_MACHINE, prefix, suffix);
    SameEntriesSameOutcome(m, Forget(m), suffix, replayed);
  }

  lemma ForgetSound(m: Machine)
    requires Sound(m)
    ensures Sound(Forget(m))
  {
    hide AddressKey, Orderly;
  }

  lemma ForgetTwice(m: Machine)
    ensures Forget(Forget(m)) == Forget(m)
  {
  }

  // ---------------------------------------------------------------- failures that change the state

  lemma StoreResultEncodes(s: Option<StoreInfo>)
    requires s.Some? ==> Business.StoreFits(s.value)
    ensures Business.EncodeResult(WithStore(s)).Success?
  {
  }

  lemma TaskResultEncodes(t: Option<TaskRecord>, duplicate: bool)
    requires t.Some? ==> Business.TaskFits(t.value)
    ensures Business.EncodeResult(WithTask(t, duplicate)).Success?
  {
  }

  lemma TasksEncode(tasks: seq<TaskRecord>)
    requires forall t :: t in tasks ==> Business.TaskFits(t)
    ensures Business.EncodeResult(Business.StoreResult(NO_STORE, tasks, false)).Success? <==> |tasks| <= Business.MAX_ITEMS
  {
    hide Business.TaskFits;
  }

  lemma TableFits(t: TaskTable, id: TaskId)
    requires Orderly(t) && TasksRanged(t) && id in t.tasks
    ensures Business.TaskFits(t.tasks[id])
  {
    LifecycleFits(t.tasks[id]);
  }

  /** A poll's result can be encoded exactly when it lists at most 4096 tasks. */
  lemma PollEncodesIff(t: TaskTable, store: StoreId, limit: nat)
    requires Orderly(t) && TasksRanged(t) && 0 < store < U64_LIMIT && limit > 0
    ensures var (status, after, taken) := t.Poll(store, limit);
            && status == Ok
            && (Business.EncodeResult(Business.StoreResult(NO_STORE, taken, false)).Success?
                <==> Min(|t.WaitingRecords()|, limit) <= Business.MAX_ITEMS)
            && (taken != [] ==> after != t)
  {
    hide Business.EncodeResult, Business.TaskFits, LeavesOnlyLater;
    PollTakes(t, store, limit);
    PollFacts(t, store, limit);
    PollRanged(t, store, limit);
    var (status, after, taken) := t.Poll(store, limit);
    hide TaskTable.Poll;
    forall r | r in taken ensures Business.TaskFits(r)
    {
      TableFits(after, r.taskId);
    }
    hide Orderly;
    TasksEncode(taken);
    if taken != [] {
      assert taken[0] in taken;
    }
  }

  lemma CreateEncodes(t: TaskTable, request: TaskRequest)
    requires Orderly(t) && TasksRanged(t) && t.Create(request).0 == Ok
    ensures Business.EncodeResult(WithTask(t.Create(request).2, false)).Success?
  {
    CreateFacts(t, request);
    CreateRanged(t, request);
    hide Business.EncodeResult, Business.TaskFits, Orderly;
    var (_, after, made) := t.Create(request);
    TableFits(after, request.taskId);
    TaskResultEncodes(made, false);
  }

  lemma CompleteEncodes(t: TaskTable, report: TaskReport, duplicate: bool)
    requires Orderly(t) && TasksRanged(t) && t.Complete(report).0 == Ok
    ensures Business.EncodeResult(WithTask(t.Complete(report).2, duplicate)).Success?
  {
    CompleteFacts(t, report);
    CompleteRanged(t, report);
    hide Business.EncodeResult, Business.TaskFits, Orderly;
    var (_, after, done) := t.Complete(report);
    TableFits(after, report.taskId);
    TaskResultEncodes(done, duplicate);
  }

  lemma RegistryEncodes(r: Registry, c: Business.StoreCommand)
    requires RegistryRanged(r) && Business.StoreFits(c.store) && Business.UpdateFits(c.update)
    ensures r.Register(c.store).0 == Ok ==> Business.EncodeResult(WithStore(r.Register(c.store).2)).Success?
    ensures r.Update(c.update).0 == Ok ==> Business.EncodeResult(WithStore(r.Update(c.update).2)).Success?
    ensures r.Get(c.storeId).Success? ==> Business.EncodeResult(WithStore(Some(r.Get(c.storeId).value))).Success?
  {
    RegisterRanged(r, c.store);
    UpdateRanged(r, c.update);
    hide Business.EncodeResult, AddressKey, ValidAddress, Business.StoreFits;
    if r.Register(c.store).0 == Ok {
      StoreResultEncodes(r.Register(c.store).2);
    }
    if r.Update(c.update).0 == Ok {
      StoreResultEncodes(r.Update(c.update).2);
    }
    if r.Get(c.storeId).Success? {
      StoreResultEncodes(Some(r.Get(c.storeId).value));
    }
  }

  ghost predicate TooManyFor(tasks: TaskTable, c: Business.StoreCommand) {
    c.kind == Business.POLL_TASKS && Min(|tasks.WaitingRecords()|, c.maxTasks) > Business.MAX_ITEMS
  }

  /** What a store command comes to: no change, a change that is recorded, or the poll of too many tasks. */
  ghost predicate Settles(stores: Registry, tasks: TaskTable, c: Business.StoreCommand)
    requires tasks.Keyed()
  {
    var o := Perform(stores, tasks, c);
    && (o.status != Ok ==> o.stores == stores && o.tasks == tasks)
    && (o.status == Ok ==> (Business.EncodeResult(o.result).Failure? <==> TooManyFor(tasks, c)))
    && (TooManyFor(tasks, c) ==> o.status == Ok && o.tasks != tasks)
  }

  lemma PollSettles(stores: Registry, tasks: TaskTable, c: Business.StoreCommand)
    requires Orderly(tasks) && TasksRanged(tasks) && c.kind == Business.POLL_TASKS
    requires 0 < c.storeId < U64_LIMIT && c.maxTasks > 0
    ensures tasks.Keyed() && Settles(stores, tasks, c)
  {
    OrderlyIsKeyed(tasks);
    PollFacts(tasks, c.storeId, c.maxTasks);
    PollEncodesIff(tasks, c.storeId, c.maxTasks);
    PollSize(tasks, c.storeId, c.maxTasks);
    hide Business.EncodeResult, Orderly, TaskTable.Poll, TableContinues;
  }

  lemma CreateSettles(stores: Registry, tasks: TaskTable, c: Business.StoreCommand)
    requires Orderly(tasks) && TasksRanged(tasks) && c.kind == Business.CREATE_TASK
    ensures tasks.Keyed() && Settles(stores, tasks, c)
  {
    hide Business.EncodeResult, Orderly, TaskTable.Create, TableContinues, TasksRanged;
    OrderlyIsKeyed(tasks);
    hide TaskTable.Keyed;
    CreateFacts(tasks, c.create);
    if tasks.Create(c.create).0 == Ok {
      CreateEncodes(tasks, c.create);
    }
  }

  lemma ReportSettles(stores: Registry, tasks: TaskTable, c: Business.StoreCommand)
    requires Orderly(tasks) && TasksRanged(tasks) && c.kind == Business.REPORT_TASK_RESULT
    ensures tasks.Keyed() && Settles(stores, tasks, c)
  {
    hide Business.EncodeResult, Orderly, TaskTable.Complete, Repeats, TableContinues, TasksRanged;
    OrderlyIsKeyed(tasks);
    hide TaskTable.Keyed;
    CompleteFacts(tasks, c.report);
    if tasks.Complete(c.report).0 == Ok {
      CompleteEncodes(tasks, c.report, Repeats(tasks, c.report.taskId, tasks.Complete(c.report).2));
    }
  }

  lemma RegistryRefuses(r: Registry, c: Business.StoreCommand)
    ensures r.Register(c.store).0 != Ok ==> r.Register(c.store).1 == r
    ensures r.Update(c.update).0 != Ok ==> r.Update(c.update).1 == r
    ensures r.Remove(c.storeId).0 != Ok ==> r.Remove(c.storeId).1 == r
  {
    hide AddressKey, ValidStore;
  }

  lemma RegistryCommandSettles(stores: Registry, tasks: TaskTable, c: Business.StoreCommand)
    requires tasks.Keyed() && RegistryRanged(stores) && Business.StoreFits(c.store) && Business.UpdateFits(c.update)
    requires c.kind == Business.REGISTER_STORE || c.kind == Business.UPDATE_STORE_STATE || c.kind == Business.REMOVE_STORE
    ensures Settles(stores, tasks, c)
  {
    RegistryEncodes(stores, c);
    RegistryRefuses(stores, c);
    hide Business.EncodeResult, Registry.Register, Registry.Update, Registry.Remove, Business.StoreFits,
         Business.UpdateFits, RegistryRanged, Registry.Get, TaskTable.Keyed;
  }

  lemma PerformSettles(m: Machine, c: Business.StoreCommand)
    requires Sound(m) && RegistryRanged(m.stores) && TasksRanged(m.tasks) && Business.Valid(c)
    requires Business.StoreFits(c.store) && Business.UpdateFits(c.update) && c.storeId < U64_LIMIT
    ensures m.tasks.Keyed() && Settles(m.stores, m.tasks, c)
  {
    SoundKeyed(m);
    hide Sound, Settles, Orderly, RegistryRanged, TasksRanged, Business.StoreFits, Business.UpdateFits;
    if c.kind == Business.POLL_TASKS {
      PollSettles(m.stores, m.tasks, c);
    } else if c.kind == Business.CREATE_TASK {
      CreateSettles(m.stores, m.tasks, c);
    } else if c.kind == Business.REPORT_TASK_RESULT {
      ReportSettles(m.stores, m.tasks, c);
    } else {
      RegistryCommandSettles(m.stores, m.tasks, c);
    }
  }

  lemma PollSize(t: TaskTable, store: StoreId, limit: nat)
    requires Orderly(t) && store != 0 && limit > 0
    ensures |t.Poll(store, limit).2| == Min(|t.WaitingRecords()|, limit)
  {
    PollTakes(t, store, limit);
  }

  /** A poll that would take more tasks than its result can list. */
  ghost predicate TooMany(m: Machine, payload: Bytes) {
    var c := Commands.Decode(payload);
    && c.Success? && c.value.kind == Commands.STORE_OPERATION
    && var b := Business.Decode(c.value.payload); b.Success? && TooManyFor(m.tasks, b.value)
  }

  /** An entry that fails leaves the machine as it was, unless it is a poll of too many tasks. */
  lemma FailedApplyChangesIff(m: Machine, index: LogIndex, term: Term, payload: Bytes)
    requires Sound(m) && Ranged(m)
    ensures m.tasks.Keyed()
    ensures Apply(m, index, term, payload).0 != Ok ==>
              (Apply(m, index, term, payload).1 != m
               <==> index == m.lastIndex + 1 && term != 0 && TooMany(m, payload))
  {
    SoundKeyed(m);
    hide Sound, Perform, Business.EncodeResult, Business.Decode, Commands.Decode, RegistryRanged, TasksRanged,
         RecordRanged;
    var c := Commands.Decode(payload);
    if c.Success? && c.value.kind == Commands.STORE_OPERATION {
      var b := Business.Decode(c.value.payload);
      if b.Success? {
        Business.DecodedInRange(c.value.payload);
        DecodedIsValid(c.value.payload);
        PerformSettles(m, b.value);
      }
    }
  }

  lemma DecodedIsValid(payload: Bytes)
    requires Business.Decode(payload).Success?
    ensures Business.Valid(Business.Decode(payload).value)
  {
  }

  // ---------------------------------------------------------------- a rejected entry blocks the rest

  lemma FailedKeepsProgress(m: Machine, index: LogIndex, term: Term, payload: Bytes)
    requires m.tasks.Keyed() && Apply(m, index, term, payload).0 != Ok
    ensures Apply(m, index, term, payload).1.lastIndex == m.lastIndex
  {
    hide Perform, Business.Decode, Business.EncodeResult, Commands.Decode;
  }

  lemma GapFails(m: Machine, index: LogIndex, term: Term, payload: Bytes)
    requires m.tasks.Keyed() && index > m.lastIndex + 1
    ensures Apply(m, index, term, payload).0 != Ok && Apply(m, index, term, payload).1 == m
  {
    hide Commands.Decode;
    var c := Commands.Decode(payload);
    if c.Failure? {
      DecodeError(payload);
    }
  }

  lemma DecodeError(payload: Bytes)
    requires Commands.Decode(payload).Failure?
    ensures Commands.Decode(payload).error != Ok
  {
    hide Commands.GoodHeader, Commands.Valid;
  }

  ghost predicate Beyond(events: seq<Event>, index: LogIndex) {
    forall i :: 0 <= i < |events| ==> events[i].Beat? || events[i].index > index
  }

  lemma {:induction false} LaterEntriesFail(m: Machine, events: seq<Event>)
    requires Sound(m) && Beyond(events, m.lastIndex + 1)
    ensures forall s :: s in Statuses(m, events) ==> s != Ok
    ensures Forget(Replay(m, events)) == Forget(m)
    decreases |events|
  {
    hide Sound, Apply, Heartbeat, Forget;
    if events != [] {
      AfterSound(m, events[0]);
      SoundKeyed(m);
      match events[0] {
        case ApplyEntry(index, term, payload) => GapFails(m, index, term, payload);
        case Beat(store, ms) => BeatForgotten(m, store, ms); BeatKeepsProgress(m, store, ms);
      }
      LaterEntriesFail(After(m, events[0]), events[1..]);
    }
  }

  lemma BeatKeepsProgress(m: Machine, store: StoreId, ms: int)
    ensures Heartbeat(m, store, ms).lastIndex == m.lastIndex
  {
  }

  /**
   An entry that fails does not move the progress, so from then on every later entry of the log fails and
   changes nothing, heartbeats aside.
   */
  lemma RejectedEntryBlocks(m: Machine, term: Term, payload: Bytes, later: seq<Event>)
    requires Sound(m) && m.tasks.Keyed() && Beyond(later, m.lastIndex + 1)
    requires Apply(m, m.lastIndex + 1, term, payload).0 != Ok
    ensures var after := After(m, ApplyEntry(m.lastIndex + 1, term, payload));
            && Sound(after)
            && (forall s :: s in Statuses(after, later) ==> s != Ok)
            && Forget(Replay(after, later)) == Forget(after)
  {
    hide Sound, Apply, Forget;
    AfterSound(m, ApplyEntry(m.lastIndex + 1, term, payload));
    FailedKeepsProgress(m, m.lastIndex + 1, term, payload);
    LaterEntriesFail(After(m, ApplyEntry(m.lastIndex + 1, term, payload)), later);
  }
}
