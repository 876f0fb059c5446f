/**
 What applying one entry leaves, field by field: the record of the target, and for a store command the stores,
 the tasks and the result that can be read back from the record.
 */
module AppliedCommands {
  import opened Common
  import opened StoreTypes
  import opened Stores
  import opened Tasks
  import opened Machines
  import opened MachineSnapshots
  import opened Replays
  import Commands = MetadataCommands
  import Business = StoreCommands

  /** A valid command as the entry that follows the last applied one. */
  ghost predicate Next(m: Machine, c: Commands.MetadataCommand, index: LogIndex, term: Term) {
    Sound(m) && Commands.Valid(c) && Commands.InRange(c) && index == m.lastIndex + 1 && term > 0
  }

  /** Applying the bytes of the command. */
  ghost function Applied(m: Machine, c: Commands.MetadataCommand, index: LogIndex, term: Term): (Status, Machine)
    requires Next(m, c, index, term)
  {
    SoundKeyed(m);
    Apply(m, index, term, Commands.Encode(c).value)
  }

  /** The generation the target's record gets: one more than before, 1 when it is new. */
  ghost function NextGeneration(m: Machine, target: Bytes): nat {
    if target in m.records then m.records[target].generation + 1 else 1
  }

  /** Exactly the record of the target is replaced, and the entry is the last applied one. */
  ghost predicate Records(m: Machine, c: Commands.MetadataCommand, payload: Bytes, index: LogIndex, term: Term,
                          after: Machine)
  {
    && after.records == m.records[c.targetId := StateRecord(c.targetId, payload, NextGeneration(m, c.targetId), c.commandId,
                                                            index, term)]
    && after.lastIndex == index && after.lastTerm == term
  }

  // ---------------------------------------------------------------- which entries are looked at

  /** An entry whose command can be read is refused as long as it does not follow the last applied one. */
  lemma OnlyTheNextEntry(m: Machine, c: Commands.MetadataCommand, index: LogIndex, term: Term)
    requires Sound(m) && Commands.Valid(c) && Commands.InRange(c)
    ensures m.tasks.Keyed() && Commands.Encode(c).Success?
    ensures var (status, after) := Apply(m, index, term, Commands.Encode(c).value);
            && (index == 0 || term == 0 ==> status == InvalidArgument && after == m)
            && (index != 0 && term != 0 && index != m.lastIndex + 1 ==> status == Busy && after == m)
  {
    SoundKeyed(m);
    Commands.RoundTrip(c);
    hide Sound, Commands.Valid, Commands.Encode, Commands.Decode, ApplyStore, ApplyOpaque;
  }

  // ---------------------------------------------------------------- opaque commands

  /**
   An opaque command is refused exactly when it expects a generation the target does not have; otherwise the
   target's record holds what the command brought, one generation on, and nothing else changes.
   */
  lemma OpaqueOutcome(m: Machine, c: Commands.MetadataCommand, index: LogIndex, term: Term)
    requires Next(m, c, index, term) && c.kind == Commands.OPAQUE_OPERATION
    ensures var (status, after) := Applied(m, c, index, term);
            var known := c.targetId in m.records;
            && (status == NotFound <==> c.expected.Some? && !known)
            && (status == Busy <==> c.expected.Some? && known && c.expected.value != m.records[c.targetId].generation)
            && (status == Ok || status == NotFound || status == Busy)
            && (status == Ok ==>
                  Records(m, c, c.payload, index, term, after) && after.stores == m.stores && after.tasks == m.tasks)
            && (status != Ok ==> after == m)
  {
    AppliedByKind(m, c, index, term);
    RecordedIs(m, c, c.payload, index, term);
    hide Sound, Commands.Valid, Commands.InRange, ApplyStore, Applied, Recorded, NextGeneration;
  }

  /** What was written is there, and a second write is taken when it expects the generation of the first. */
  lemma WriteThenWrite(m: Machine, c: Commands.MetadataCommand, d: Commands.MetadataCommand, index: LogIndex, term: Term)
    requires Next(m, c, index, term) && c.kind == Commands.OPAQUE_OPERATION && c.expected.None?
    requires Commands.Valid(d) && Commands.InRange(d) && d.kind == Commands.OPAQUE_OPERATION && d.targetId == c.targetId
    ensures var (first, middle) := Applied(m, c, index, term);
            && first == Ok && c.targetId in middle.records && middle.records[c.targetId].payload == c.payload
            && Next(middle, d, index + 1, term)
            && var (second, last) := Applied(middle, d, index + 1, term);
               && (second == Ok <==> d.expected.None? || d.expected.value == NextGeneration(m, c.targetId))
               && c.targetId in last.records
               && last.records[c.targetId].payload == if second == Ok then d.payload else c.payload
  {
    hide Sound, Commands.Valid, Commands.Encode, Applied;
    var middle := Applied(m, c, index, term).1;
    AppliedSound(m, c, index, term);
    OpaqueOutcome(m, c, index, term);
    OpaqueOutcome(middle, d, index + 1, term);
  }

  lemma AppliedSound(m: Machine, c: Commands.MetadataCommand, index: LogIndex, term: Term)
    requires Next(m, c, index, term)
    ensures Sound(Applied(m, c, index, term).1)
  {
    SoundKeyed(m);
    hide Sound, Commands.Valid, Commands.Encode, Apply;
    ApplySound(m, index, term, Commands.Encode(c).value);
  }

  // ---------------------------------------------------------------- store commands

  /** A store command that can be read from the entry's payload. */
  ghost predicate NextStore(m: Machine, c: Commands.MetadataCommand, b: Business.StoreCommand, index: LogIndex, term: Term) {
    && Next(m, c, index, term) && Ranged(m) && c.kind == Commands.STORE_OPERATION
    && Business.Decode(c.payload) == Success(b)
  }

  /** The removal names a registered store and the generation it has. */
  ghost predicate MayRemove(r: Registry, b: Business.StoreCommand) {
    b.storeId in r.stores && (b.update.expected.Some? ==> b.update.expected.value == r.stores[b.storeId].generation)
  }

  /** The task had its result before the report came. */
  ghost predicate HadResult(t: TaskTable, id: TaskId) {
    id in t.tasks && Terminal(t.tasks[id].state)
  }

  /** The operation of the command's kind succeeds. */
  ghost predicate Succeeds(m: Machine, b: Business.StoreCommand)
    requires m.tasks.Keyed()
  {
    if b.kind == Business.REGISTER_STORE then m.stores.Register(b.store).0 == Ok
    else if b.kind == Business.UPDATE_STORE_STATE then m.stores.Update(b.update).0 == Ok
    else if b.kind == Business.REMOVE_STORE then MayRemove(m.stores, b)
    else if b.kind == Business.CREATE_TASK then m.tasks.Create(b.create).0 == Ok
    else if b.kind == Business.POLL_TASKS then m.tasks.Poll(b.storeId, b.maxTasks).0 == Ok
    else m.tasks.Complete(b.report).0 == Ok
  }

  /** The command was carried out, by the operation of its kind and no other, and this is its result. */
  ghost predicate CarriedOut(m: Machine, b: Business.StoreCommand, after: Machine, result: Business.StoreResult)
    requires m.tasks.Keyed()
  {
    if b.kind == Business.REGISTER_STORE then
      && m.stores.Register(b.store) == (Ok, after.stores, Some(result.store)) && after.tasks == m.tasks
      && result.tasks == [] && !result.duplicate
    else if b.kind == Business.UPDATE_STORE_STATE then
      && m.stores.Update(b.update) == (Ok, after.stores, Some(result.store)) && after.tasks == m.tasks
      && result.tasks == [] && !result.duplicate
    else if b.kind == Business.REMOVE_STORE then
      && MayRemove(m.stores, b) && m.stores.Remove(b.storeId) == (Ok, after.stores) && after.tasks == m.tasks
      && result == Business.StoreResult(m.stores.stores[b.storeId], [], false)
    else if b.kind == Business.CREATE_TASK then
      && |result.tasks| == 1 && m.tasks.Create(b.create) == (Ok, after.tasks, Some(result.tasks[0]))
      && after.stores == m.stores && result.store == NO_STORE && !result.duplicate
    else if b.kind == Business.POLL_TASKS then
      && m.tasks.Poll(b.storeId, b.maxTasks) == (Ok, after.tasks, result.tasks)
      && after.stores == m.stores && result.store == NO_STORE && !result.duplicate
    else
      && |result.tasks| == 1 && m.tasks.Complete(b.report) == (Ok, after.tasks, Some(result.tasks[0]))
      && after.stores == m.stores && result.store == NO_STORE && (result.duplicate <==> HadResult(m.tasks, b.report.taskId))
  }

  lemma RegistryCarriesOut(m: Machine, b: Business.StoreCommand)
    requires m.tasks.Keyed()
    requires b.kind == Business.REGISTER_STORE || b.kind == Business.UPDATE_STORE_STATE
             || (b.kind == Business.REMOVE_STORE && b.storeId != 0)
    ensures var o := Perform(m.stores, m.tasks, b);
            && (o.status == Ok <==> Succeeds(m, b))
            && (o.status == Ok ==> CarriedOut(m, b, m.(stores := o.stores, tasks := o.tasks), o.result))
  {
    hide Registry.Register, Registry.Update, TaskTable.Create, TaskTable.Poll, TaskTable.Complete, Repeats, HadResult;
    SomethingGiven(m, b);
  }

  lemma TasksCarryOut(m: Machine, b: Business.StoreCommand)
    requires m.tasks.Keyed() && Orderly(m.tasks)
    requires b.kind == Business.CREATE_TASK || b.kind == Business.POLL_TASKS || b.kind == Business.REPORT_TASK_RESULT
    ensures var o := Perform(m.stores, m.tasks, b);
            && (o.status == Ok <==> Succeeds(m, b))
            && (o.status == Ok ==> CarriedOut(m, b, m.(stores := o.stores, tasks := o.tasks), o.result))
  {
    hide Orderly, TaskTable.Create, TaskTable.Poll, TaskTable.Complete, Repeats, HadResult;
    SomethingGiven(m, b);
    if m.tasks.Complete(b.report).0 == Ok {
      RepeatsIffHadResult(m.tasks, b.report);
    }
  }

  lemma PerformCarriesOut(m: Machine, b: Business.StoreCommand)
    requires Sound(m) && Business.Valid(b)
    ensures m.tasks.Keyed()
    ensures var o := Perform(m.stores, m.tasks, b);
            && (o.status == Ok <==> Succeeds(m, b))
            && (o.status == Ok ==> CarriedOut(m, b, m.(stores := o.stores, tasks := o.tasks), o.result))
  {
    SoundKeyed(m);
    TasksOrderly(m);
    hide Sound, Orderly, TaskTable.Keyed, Perform, CarriedOut, Succeeds;
    if b.kind == Business.CREATE_TASK || b.kind == Business.POLL_TASKS || b.kind == Business.REPORT_TASK_RESULT {
      TasksCarryOut(m, b);
    } else {
      RegistryCarriesOut(m, b);
    }
  }

  lemma TasksOrderly(m: Machine)
    requires Sound(m)
    ensures Orderly(m.tasks)
  {
  }

  /** Operations that succeed give back what they made. */
  lemma SomethingGiven(m: Machine, b: Business.StoreCommand)
    ensures m.stores.Register(b.store).0 == Ok ==> m.stores.Register(b.store).2.Some?
    ensures m.stores.Update(b.update).0 == Ok ==> m.stores.Update(b.update).2.Some?
    ensures m.tasks.Create(b.create).0 == Ok ==> m.tasks.Create(b.create).2.Some?
    ensures m.tasks.Complete(b.report).0 == Ok ==> m.tasks.Complete(b.report).2.Some?
  {
    hide AddressKey, ValidStore, ValidTaskId;
  }

  lemma RepeatsIffHadResult(t: TaskTable, report: TaskReport)
    requires Orderly(t) && t.Complete(report).0 == Ok
    ensures Repeats(t, report.taskId, t.Complete(report).2) <==> HadResult(t, report.taskId)
  {
    CompleteOutcome(t, report);
    OrderlyRecord(t, report.taskId);
    hide Orderly, TaskTable.Complete;
  }

  /**
   A store command succeeds if and only if the operation of its kind does and its result is no poll of more
   than 4096 tasks; the target's record then holds the result, which can be read back without a heartbeat.
   */
  lemma StoreCommandOutcome(m: Machine, c: Commands.MetadataCommand, b: Business.StoreCommand, index: LogIndex, term: Term)
    returns (result: Business.StoreResult)
    requires NextStore(m, c, b, index, term)
    ensures m.tasks.Keyed()
    ensures var (status, after) := Applied(m, c, index, term);
            && (status == Ok <==> Succeeds(m, b) && !TooManyFor(m.tasks, b))
            && (status == Ok ==>
                  && CarriedOut(m, b, after, result)
                  && c.targetId in after.records
                  && Records(m, c, after.records[c.targetId].payload, index, term, after)
                  && Business.DecodeResult(after.records[c.targetId].payload)
                     == Success(result.(store := result.store.(heartbeat := 0))))
            && (status != Ok && !TooManyFor(m.tasks, b) ==> after == m)
  {
    SoundKeyed(m);
    AppliedStoreIs(m, c, b, index, term);
    hide Sound, Ranged, RegistryRanged, TasksRanged, Commands.Valid, Commands.Encode, Business.Valid, Business.StoreFits,
         Business.UpdateFits, Business.Decode, Business.DecodeResult, CarriedOut, Succeeds, Perform, TooManyFor, Applied;
    DecodedIsValid(c.payload);
    Business.DecodedInRange(c.payload);
    RangedParts(m);
    PerformSettles(m, b);
    PerformCarriesOut(m, b);
    var o := Perform(m.stores, m.tasks, b);
    result := o.result;
    if o.status == Ok && Business.EncodeResult(result).Success? {
      Business.ResultRoundTrip(result);
      CarriedOutAside(m, b, m.(stores := o.stores, tasks := o.tasks), Applied(m, c, index, term).1, result);
    }
    hide Business.EncodeResult;
  }

  lemma AppliedStoreIs(m: Machine, c: Commands.MetadataCommand, b: Business.StoreCommand, index: LogIndex, term: Term)
    requires NextStore(m, c, b, index, term)
    ensures m.tasks.Keyed()
    ensures var (status, after) := Applied(m, c, index, term);
            var o := Perform(m.stores, m.tasks, b);
            var payload := Business.EncodeResult(o.result);
            if o.status != Ok then status == o.status && after == m.(stores := o.stores, tasks := o.tasks)
            else if payload.Failure? then status == payload.error != Ok && after == m.(stores := o.stores, tasks := o.tasks)
            else && status == Ok && after.stores == o.stores && after.tasks == o.tasks
                 && Records(m, c, payload.value, index, term, after)
  {
    SoundKeyed(m);
    AppliedByKind(m, c, index, term);
    hide Sound, Ranged, TaskTable.Keyed, Perform, Commands.Valid, Commands.InRange, Business.Decode, Business.ResultFits,
         Business.ResultBytes, Applied, Recorded, NextGeneration;
    var payload := Business.EncodeResult(Perform(m.stores, m.tasks, b).result);
    if payload.Success? {
      RecordedIs(m, c, payload.value, index, term);
    }
    hide Business.EncodeResult;
  }

  lemma RecordedIs(m: Machine, c: Commands.MetadataCommand, payload: Bytes, index: LogIndex, term: Term)
    ensures Recorded(m, c, payload, index, term)
            == StateRecord(c.targetId, payload, NextGeneration(m, c.targetId), c.commandId, index, term)
  {
  }

  /** The entry's bytes are read as the command, and the last applied entry moves on when it succeeds. */
  lemma AppliedByKind(m: Machine, c: Commands.MetadataCommand, index: LogIndex, term: Term)
    requires Next(m, c, index, term)
    ensures m.tasks.Keyed()
    ensures var (status, after) := if c.kind == Commands.STORE_OPERATION then ApplyStore(m, c, index, term)
                                   else ApplyOpaque(m, c, index, term);
            Applied(m, c, index, term)
            == (status, if status == Ok then after.(lastIndex := index, lastTerm := term) else after)
  {
    SoundKeyed(m);
    Commands.RoundTrip(c);
    hide Sound, TaskTable.Keyed, Commands.Valid, Commands.Encode, Commands.Decode, ApplyStore, ApplyOpaque;
  }

  lemma RangedParts(m: Machine)
    requires Ranged(m)
    ensures RegistryRanged(m.stores) && TasksRanged(m.tasks)
  {
  }

  lemma CarriedOutAside(m: Machine, b: Business.StoreCommand, part: Machine, after: Machine, result: Business.StoreResult)
    requires m.tasks.Keyed() && CarriedOut(m, b, part, result) && after.stores == part.stores && after.tasks == part.tasks
    ensures CarriedOut(m, b, after, result)
  {
  }
}
