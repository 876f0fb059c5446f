/**
 When a machine that grew from empty cannot be written to a snapshot, or not be read back, and runs that
 get there.
 */
module SnapshotRefusals {
  import opened Common
  import opened Codec
  import opened StoreTypes
  import opened Stores
  import opened Tasks
  import opened Machines
  import opened MachineSnapshots
  import opened Replays
  import Commands = MetadataCommands
  import Business = StoreCommands

  // ---------------------------------------------------------------- records of a reached machine

  /** A good record, but for the length of its payload. */
  ghost predicate GoodButForSize(r: StateRecord, lastIndex: LogIndex, lastTerm: Term) {
    && 0 < |r.targetId| <= MAX_ID && 0 < |r.lastCommandId| <= MAX_ID && r.generation != 0
    && 0 < r.updateIndex <= lastIndex && 0 < r.updateTerm <= lastTerm
  }

  ghost predicate RecordsFiled(m: Machine) {
    forall id :: id in m.records ==> GoodButForSize(m.records[id], m.lastIndex, m.lastTerm)
  }

  /** The terms of the entries, from a term on, never decrease. */
  ghost predicate TermsRise(last: Term, events: seq<Event>)
    decreases |events|
  {
    events == [] ||
    (if events[0].Beat? then TermsRise(last, events[1..])
     else last <= events[0].term && TermsRise(events[0].term, events[1..]))
  }

  lemma ApplyFiles(m: Machine, index: LogIndex, term: Term, payload: Bytes)
    requires Sound(m) && RecordsFiled(m) && m.lastTerm <= term
    ensures m.tasks.Keyed()
    ensures RecordsFiled(Apply(m, index, term, payload).1) && Apply(m, index, term, payload).1.lastTerm <= term
  {
    SoundKeyed(m);
    hide Sound, Commands.Decode, ApplyStore, ApplyOpaque, RecordsFiled, TaskTable.Keyed;
    if Commands.Decode(payload).Success? {
      Commands.DecodedShape(payload);
      StoreFiles(m, Commands.Decode(payload).value, index, term);
      OpaqueFiles(m, Commands.Decode(payload).value, index, term);
    }
  }

  /** The records are good again once the progress has moved to the entry. */
  lemma StoreFiles(m: Machine, c: Commands.MetadataCommand, index: LogIndex, term: Term)
    requires m.tasks.Keyed() && RecordsFiled(m) && m.lastTerm <= term && Commands.Valid(c)
    ensures var (status, after) := ApplyStore(m, c, index, term);
            if status == Ok
            then index > m.lastIndex && term > 0 ==> RecordsFiled(after.(lastIndex := index, lastTerm := term))
            else RecordsFiled(after) && after.lastTerm == m.lastTerm
  {
    hide Perform, Business.Decode, Business.EncodeResult, TaskTable.Keyed;
    var command := Business.Decode(c.payload);
    if command.Success? && Business.EncodeResult(Perform(m.stores, m.tasks, command.value).result).Failure? {
      EncodeError(Perform(m.stores, m.tasks, command.value).result);
    }
    if command.Failure? {
      BusinessError(c.payload);
    }
  }

  lemma EncodeError(r: Business.StoreResult)
    requires Business.EncodeResult(r).Failure?
    ensures Business.EncodeResult(r).error != Ok
  {
    hide Business.ResultFits;
  }

  lemma BusinessError(payload: Bytes)
    requires Business.Decode(payload).Failure?
    ensures Business.Decode(payload).error != Ok
  {
    hide Business.Valid;
  }

  lemma OpaqueFiles(m: Machine, c: Commands.MetadataCommand, index: LogIndex, term: Term)
    requires RecordsFiled(m) && m.lastTerm <= term && Commands.Valid(c)
    ensures var (status, after) := ApplyOpaque(m, c, index, term);
            if status == Ok
            then index > m.lastIndex && term > 0 ==> RecordsFiled(after.(lastIndex := index, lastTerm := term))
            else after == m
  {
  }

  lemma {:induction false} ReplayFiles(m: Machine, last: Term, events: seq<Event>)
    requires Sound(m) && RecordsFiled(m) && m.lastTerm <= last && TermsRise(last, events)
    ensures RecordsFiled(Replay(m, events))
    decreases |events|
  {
    hide Sound, Apply, RecordsFiled, Heartbeat;
    if events != [] {
      AfterSound(m, events[0]);
      SoundKeyed(m);
      match events[0] {
        case ApplyEntry(index, term, payload) =>
          ApplyFiles(m, index, term, payload);
          ReplayFiles(After(m, events[0]), term, events[1..]);
        case Beat(store, ms) =>
          BeatFiles(m, store, ms);
          ReplayFiles(After(m, events[0]), last, events[1..]);
      }
    }
  }

  lemma BeatFiles(m: Machine, store: StoreId, ms: int)
    requires RecordsFiled(m)
    ensures RecordsFiled(Heartbeat(m, store, ms)) && Heartbeat(m, store, ms).lastTerm == m.lastTerm
  {
  }

  ghost predicate PayloadsFit(m: Machine) {
    forall id :: id in m.records ==> |m.records[id].payload| <= MAX_PAYLOAD
  }

  lemma FiledAreGoodIff(m: Machine)
    requires Sound(m) && RecordsFiled(m)
    ensures GoodRecords(Listed(m), m.lastIndex, m.lastTerm) <==> PayloadsFit(m)
  {
    hide Registry.Consistent, Orderly, Listed;
    ListedFacts(m);
    if GoodRecords(Listed(m), m.lastIndex, m.lastTerm) {
      forall id | id in m.records ensures |m.records[id].payload| <= MAX_PAYLOAD
      {
        assert m.records[id] in Listed(m);
      }
    }
  }

  /**
   After a run whose terms never decrease the snapshot is refused if and only if a record's payload is
   larger than 4 MiB or there are more than 4096 stores or tasks.
   */
  lemma SnapshotRefusedIff(events: seq<Event>)
    requires InputsInRange(events) && TermsRise(0, events) && |Reached(events).records| < U32_LIMIT
    ensures SnapshotAfter(events).Failure? <==>
              var m := Reached(events);
              !PayloadsFit(m) || |m.stores.stores| > MAX_STORES || |m.tasks.tasks| > MAX_TASKS
  {
    hide Sound, Replay, Create, RecordsFiled, GoodRecords, Listed, NumbersInRange, InputsInRange;
    ReachedInRange(events);
    NewMachineSound();
    NothingFiled();
    ReplayFiles(NEW_MACHINE, 0, events);
    FiledAreGoodIff(Reached(events));
    CreatedIff(Reached(events));
  }

  lemma NothingFiled()
    ensures RecordsFiled(NEW_MACHINE)
  {
  }

  /** Only the result of a store command can be that large. */
  lemma OnlyResultsOverflow(m: Machine, index: LogIndex, term: Term, payload: Bytes)
    requires m.tasks.Keyed() && PayloadsFit(m) && !PayloadsFit(Apply(m, index, term, payload).1)
    ensures Commands.Decode(payload).Success? && Commands.Decode(payload).value.kind == Commands.STORE_OPERATION
  {
    hide Perform, Business.Decode, Business.EncodeResult, Commands.Decode;
    if Commands.Decode(payload).Success? {
      Commands.DecodedShape(payload);
    }
  }

  // ---------------------------------------------------------------- runs of commands

  /** Different numbers have different names. */
  function Name(k: nat): (id: Bytes)
    ensures |id| == 4
  {
    PutBE(k, 4)
  }

  lemma NamesDiffer(j: nat, k: nat)
    requires j < U32_LIMIT && k < U32_LIMIT && j != k
    ensures Name(j) != Name(k)
  {
    Pow256Values();
    GetPutBE(j, 4);
    GetPutBE(k, 4);
  }

  function Opaque(k: nat): Commands.MetadataCommand {
    Commands.MetadataCommand(Commands.OPAQUE_OPERATION, [1], Name(k), None, [])
  }

  /** The entry that carries a command in term 1. */
  ghost function Carrying(index: LogIndex, c: Commands.MetadataCommand): Event
    requires Commands.Valid(c) && Commands.InRange(c)
  {
    ApplyEntry(index, 1, Commands.CommandBytes(c))
  }

  /** Each of the entries writes to a target of its own. */
  ghost function Opaques(n: nat): (events: seq<Event>)
    ensures |events| == n
    ensures forall i :: 0 <= i < n ==> events[i].ApplyEntry? && events[i].index == i + 1 && events[i].term == 1
  {
    if n == 0 then [] else Opaques(n - 1) + [Carrying(n, Opaque(n))]
  }

  lemma {:induction false} OneTermRises(last: Term, events: seq<Event>)
    requires last <= 1 && forall i :: 0 <= i < |events| ==> events[i].ApplyEntry? && events[i].term == 1
    ensures TermsRise(last, events)
    decreases |events|
  {
    if events != [] {
      OneTermRises(1, events[1..]);
    }
  }

  /** The run with one more event. */
  lemma ReachedNext(events: seq<Event>, e: Event)
    ensures Reached(events + [e]) == After(Reached(events), e)
  {
    hide Sound, Apply, Heartbeat;
    NewMachineSound();
    ReplayConcat(NEW_MACHINE, events, [e]);
    AfterSound(Reached(events), e);
    assert [e][1..] == [];
  }

  ghost predicate HoldsOpaques(m: Machine, n: nat) {
    && m.lastIndex == n && m.stores == NO_STORES && m.tasks == NO_TASKS && |m.records| == n
    && (forall id :: id in m.records ==> m.records[id].payload == [] && exists k :: 1 <= k <= n && id == Name(k))
  }

  lemma OpaqueApplies(m: Machine, n: nat)
    requires 0 < n < U32_LIMIT && HoldsOpaques(m, n - 1)
    ensures m.tasks.Keyed() && HoldsOpaques(Apply(m, n, 1, Commands.CommandBytes(Opaque(n))).1, n)
  {
    hide Commands.CommandBytes, Commands.Decode, Name;
    Commands.RoundTrip(Opaque(n));
    if Name(n) in m.records {
      var k :| 1 <= k <= n - 1 && Name(n) == Name(k);
      NamesDiffer(n, k);
    }
    var after := Apply(m, n, 1, Commands.CommandBytes(Opaque(n))).1;
    assert after.records.Keys == m.records.Keys + {Name(n)};
  }

  lemma {:induction false} OpaquesReach(n: nat)
    requires n < U32_LIMIT
    ensures HoldsOpaques(Reached(Opaques(n)), n)
  {
    hide HoldsOpaques, Apply, Commands.CommandBytes;
    if n == 0 {
      NothingHeld();
    } else {
      OpaquesReach(n - 1);
      ReachedNext(Opaques(n - 1), Carrying(n, Opaque(n)));
      OpaqueApplies(Reached(Opaques(n - 1)), n);
    }
  }

  lemma NothingHeld()
    ensures HoldsOpaques(Reached([]), 0)
  {
    NewMachineSound();
  }

  /** 4097 commands with a target each: the snapshot is written and cannot be read back. */
  lemma TooManyRecordsAreWritten()
    ensures exists events :: InputsInRange(events) && |Reached(events).records| == MAX_RECORDS + 1
                             && SnapshotAfter(events).Success?
                             && MachineSnapshots.Restore(SnapshotAfter(events).value) == Failure(Corruption)
  {
    hide Reached, Opaques, Create, MachineSnapshots.Restore, Sound, PayloadsFit, NumbersInRange;
    var events := Opaques(MAX_RECORDS + 1);
    OpaquesReach(MAX_RECORDS + 1);
    assert HoldsOpaques(Reached(events), MAX_RECORDS + 1);
    OpaquesInRange(MAX_RECORDS + 1);
    OneTermRises(0, events);
    SmallPayloads(Reached(events), MAX_RECORDS + 1);
    SnapshotRefusedIff(events);
    ReachedInRange(events);
    RestoreCreated(Reached(events));
  }

  lemma OpaquesInRange(n: nat)
    requires n < U32_LIMIT
    ensures InputsInRange(Opaques(n))
  {
  }

  lemma SmallPayloads(m: Machine, n: nat)
    requires HoldsOpaques(m, n)
    ensures PayloadsFit(m)
  {
  }
}
