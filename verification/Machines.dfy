/**
 The replicated state machine as a value: what applying one log entry does. A failed command leaves the
 progress where it was; a poll whose result is too large to encode has still assigned its tasks.
 */
module Machines {
  import opened Common
  import opened StoreTypes
  import opened Stores
  import opened Tasks
  import Commands = MetadataCommands
  import Business = StoreCommands

  datatype StateRecord = StateRecord(
    targetId: Bytes,
    payload: Bytes,
    generation: nat,
    lastCommandId: Bytes,
    updateIndex: LogIndex,
    updateTerm: Term
  )

  datatype Machine = Machine(
    records: map<Bytes, StateRecord>,
    lastIndex: LogIndex,
    lastTerm: Term,
    stores: Registry,
    tasks: TaskTable
  )

  const NEW_MACHINE := Machine(map[], 0, 0, NO_STORES, NO_TASKS)

  /** What holds of every machine reached from a new one. */
  ghost predicate Sound(m: Machine) {
    && m.stores.Consistent() && Orderly(m.tasks)
    && (forall id :: id in m.records ==> m.records[id].targetId == id)
    && (m.lastIndex == 0 <==> m.lastTerm == 0)
  }

  // ---------------------------------------------------------------- store commands

  datatype Outcome = Outcome(status: Status, stores: Registry, tasks: TaskTable, result: Business.StoreResult)

  function WithStore(s: Option<StoreInfo>): Business.StoreResult {
    Business.StoreResult(if s.Some? then s.value else NO_STORE, [], false)
  }

  function WithTask(t: Option<TaskRecord>, duplicate: bool): Business.StoreResult {
    Business.StoreResult(NO_STORE, if t.Some? then [t.value] else [], duplicate)
  }

  /** The result repeats what the task already was. */
  function Repeats(tasks: TaskTable, id: TaskId, after: Option<TaskRecord>): bool {
    && after.Some? && ValidTaskId(id) && id in tasks.tasks
    && tasks.tasks[id].state == after.value.state && tasks.tasks[id].result == after.value.result
    && tasks.tasks[id].generation == after.value.generation
  }

  /** The switch of `ApplyStoreCommand`. */
  ghost function Perform(stores: Registry, tasks: TaskTable, c: Business.StoreCommand): Outcome
    requires tasks.Keyed()
  {
    if c.kind == Business.REGISTER_STORE then
      var (status, after, s) := stores.Register(c.store);
      Outcome(status, after, tasks, WithStore(s))
    else if c.kind == Business.UPDATE_STORE_STATE then
      var (status, after, s) := stores.Update(c.update);
      Outcome(status, after, tasks, WithStore(s))
    else if c.kind == Business.REMOVE_STORE then
      var found := stores.Get(c.storeId);
      if found.Failure? then Outcome(found.error, stores, tasks, WithStore(None))
      else if c.update.expected.Some? && c.update.expected.value != found.value.generation
      then Outcome(Busy, stores, tasks, WithStore(None))
      else
        var (status, after) := stores.Remove(c.storeId);
        Outcome(status, after, tasks, WithStore(Some(found.value)))
    else if c.kind == Business.CREATE_TASK then
      var (status, after, t) := tasks.Create(c.create);
      Outcome(status, stores, after, WithTask(t, false))
    else if c.kind == Business.POLL_TASKS then
      var (status, after, taken) := tasks.Poll(c.storeId, c.maxTasks);
      Outcome(status, stores, after, Business.StoreResult(NO_STORE, taken, false))
    else
      var (status, after, t) := tasks.Complete(c.report);
      Outcome(status, stores, after, WithTask(t, Repeats(tasks, c.report.taskId, t)))
  }

  /** The record of a target after a command that set its payload. */
  function Recorded(m: Machine, c: Commands.MetadataCommand, payload: Bytes, index: LogIndex, term: Term): StateRecord {
    StateRecord(c.targetId, payload,
                if c.targetId in m.records then m.records[c.targetId].generation + 1 else 1,
                c.commandId, index, term)
  }

  ghost function ApplyStore(m: Machine, c: Commands.MetadataCommand, index: LogIndex, term: Term): (Status, Machine)
    requires m.tasks.Keyed()
  {
    var command := Business.Decode(c.payload);
    if command.Failure? then (command.error, m) else
    var o := Perform(m.stores, m.tasks, command.value);
    var after := m.(stores := o.stores, tasks := o.tasks);
    if o.status != Ok then (o.status, after) else
    var payload := Business.EncodeResult(o.result);
    if payload.Failure? then (payload.error, after)
    else (Ok, after.(records := m.records[c.targetId := Recorded(m, c, payload.value, index, term)]))
  }

  function ApplyOpaque(m: Machine, c: Commands.MetadataCommand, index: LogIndex, term: Term): (Status, Machine) {
    if c.expected.Some? && c.targetId !in m.records then (NotFound, m)
    else if c.expected.Some? && c.expected.value != m.records[c.targetId].generation then (Busy, m)
    else (Ok, m.(records := m.records[c.targetId := Recorded(m, c, c.payload, index, term)]))
  }

  ghost function Apply(m: Machine, index: LogIndex, term: Term, payload: Bytes): (Status, Machine)
    requires m.tasks.Keyed()
  {
    if index == 0 || term == 0 then (InvalidArgument, m) else
    var c := Commands.Decode(payload);
    if c.Failure? then (c.error, m)
    else if index != m.lastIndex + 1 then (Busy, m)
    else
      var (status, after) := if c.value.kind == Commands.STORE_OPERATION
                             then ApplyStore(m, c.value, index, term) else ApplyOpaque(m, c.value, index, term);
      (status, if status == Ok then after.(lastIndex := index, lastTerm := term) else after)
  }

  /** `UpdateStoreHeartbeat`, the one change that does not come through the log. */
  function Heartbeat(m: Machine, id: StoreId, ms: int): Machine {
    m.(stores := m.stores.Heartbeat(id, ms).1)
  }

  // ---------------------------------------------------------------- soundness

  lemma PerformSound(stores: Registry, tasks: TaskTable, c: Business.StoreCommand)
    requires stores.Consistent() && Orderly(tasks)
    ensures var o := Perform(stores, tasks, c); o.stores.Consistent() && Orderly(o.tasks)
  {
    hide Registry.Consistent, Orderly, Registry.Register, Registry.Update, Registry.Remove, TaskTable.Create,
         TaskTable.Poll, TaskTable.Complete, TableContinues, Repeats;
    RegisterFacts(stores, c.store);
    UpdateFacts(stores, c.update);
    RemoveFacts(stores, c.storeId);
    CreateFacts(tasks, c.create);
    PollFacts(tasks, c.storeId, c.maxTasks);
    CompleteFacts(tasks, c.report);
  }

  lemma ApplySound(m: Machine, index: LogIndex, term: Term, payload: Bytes)
    requires Sound(m)
    ensures Sound(Apply(m, index, term, payload).1)
  {
    hide Registry.Consistent, Orderly, Perform, Business.Decode, Business.EncodeResult, Commands.Decode;
    var c := Commands.Decode(payload);
    if c.Success? {
      var command := Business.Decode(c.value.payload);
      if command.Success? {
        PerformSound(m.stores, m.tasks, command.value);
      }
    }
  }

  lemma HeartbeatSound(m: Machine, id: StoreId, ms: int)
    requires Sound(m)
    ensures Sound(Heartbeat(m, id, ms))
  {
    hide Registry.Consistent, Orderly, Registry.Heartbeat;
    HeartbeatFacts(m.stores, id, ms);
  }

  lemma NewMachineSound()
    ensures Sound(NEW_MACHINE)
  {
  }

  // ---------------------------------------------------------------- heartbeats do not matter

  /** The machine as if no heartbeat had ever arrived. */
  ghost function Forget(m: Machine): Machine {
    m.(stores := m.stores.Forget())
  }

  function Quiet(s: Option<StoreInfo>): Option<StoreInfo> {
    if s.Some? then Some(s.value.(heartbeat := 0)) else None
  }

  lemma RegisterForgets(r: Registry, store: StoreInfo)
    requires store.heartbeat == 0
    ensures r.Forget().Register(store).0 == r.Register(store).0
    ensures r.Forget().Register(store).1 == r.Register(store).1.Forget()
    ensures r.Forget().Register(store).2 == r.Register(store).2
  {
    hide AddressKey;
  }

  lemma UpdateForgets(r: Registry, u: StoreUpdate)
    ensures r.Forget().Update(u).0 == r.Update(u).0
    ensures r.Forget().Update(u).1 == r.Update(u).1.Forget()
    ensures r.Forget().Update(u).2 == Quiet(r.Update(u).2)
  {
    hide ValidAddress;
  }

  lemma RemoveForgets(r: Registry, id: StoreId)
    ensures r.Forget().Remove(id).0 == r.Remove(id).0
    ensures r.Forget().Remove(id).1 == r.Remove(id).1.Forget()
  {
    hide AddressKey;
  }

  /** Results that differ in a heartbeat only. */
  ghost predicate SameResult(a: Business.StoreResult, b: Business.StoreResult) {
    a == b.(store := b.store.(heartbeat := 0))
  }

  lemma PerformForgets(stores: Registry, tasks: TaskTable, c: Business.StoreCommand)
    requires tasks.Keyed() && c.store.heartbeat == 0
    ensures var o, p := Perform(stores, tasks, c), Perform(stores.Forget(), tasks, c);
            && p.status == o.status && p.stores == o.stores.Forget() && p.tasks == o.tasks
            && (o.status == Ok ==> SameResult(p.result, o.result))
  {
    hide Registry.Register, Registry.Update, Registry.Remove, TaskTable.Create,
         TaskTable.Poll, TaskTable.Complete, Repeats;
    RegisterForgets(stores, c.store);
    UpdateForgets(stores, c.update);
    RemoveForgets(stores, c.storeId);
    RegisteredQuiet(stores, c.store);
  }

  lemma RegisteredQuiet(r: Registry, store: StoreInfo)
    requires store.heartbeat == 0
    ensures Quiet(r.Register(store).2) == r.Register(store).2
  {
    hide AddressKey;
  }

  lemma DecodedQuiet(payload: Bytes)
    ensures var c := Business.Decode(payload); c.Success? ==> c.value.store.heartbeat == 0
  {
    hide Business.Valid;
  }

  lemma EncodeIgnoresHeartbeat(a: Business.StoreResult, b: Business.StoreResult)
    requires SameResult(a, b)
    ensures Business.EncodeResult(a) == Business.EncodeResult(b)
  {
    hide Business.TaskFits;
    assert Business.ResultValues(a) == Business.ResultValues(b);
  }

  lemma ApplyStoreForgets(m: Machine, c: Commands.MetadataCommand, index: LogIndex, term: Term)
    requires m.tasks.Keyed()
    ensures ApplyStore(Forget(m), c, index, term).0 == ApplyStore(m, c, index, term).0
    ensures ApplyStore(Forget(m), c, index, term).1 == Forget(ApplyStore(m, c, index, term).1)
  {
    hide Perform, Business.Decode, Business.EncodeResult, Registry.Forget;
    var command := Business.Decode(c.payload);
    if command.Success? {
      DecodedQuiet(c.payload);
      PerformForgets(m.stores, m.tasks, command.value);
      var o, p := Perform(m.stores, m.tasks, command.value), Perform(m.stores.Forget(), m.tasks, command.value);
      if o.status == Ok {
        EncodeIgnoresHeartbeat(p.result, o.result);
      }
    }
  }

  /** Applying an entry does the same with and without heartbeats. */
  lemma ApplyForgets(m: Machine, index: LogIndex, term: Term, payload: Bytes)
    requires m.tasks.Keyed()
    ensures Apply(Forget(m), index, term, payload).0 == Apply(m, index, term, payload).0
    ensures Apply(Forget(m), index, term, payload).1 == Forget(Apply(m, index, term, payload).1)
  {
    hide ApplyStore, Commands.Decode, Registry.Forget;
    var c := Commands.Decode(payload);
    if c.Success? {
      ApplyStoreForgets(m, c.value, index, term);
    }
  }
}
