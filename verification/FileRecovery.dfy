/** The durable storage refines the memory storage, through crashes and torn log tails. */
module FileRecovery {
  import opened Common
  import opened Codec
  import opened RaftTypes
  import opened StorageModel
  import opened Records
  import opened FileStorageModel
  import Snapshots = SnapshotCodec

  // ---------------------------------------------------------------- what can be stored

  /** The ranges of the source's integer fields, and the payload limit of the log. */
  predicate EntryFits(e: LogEntry) {
    e.index < U64_LIMIT && e.term < U64_LIMIT && |e.payload| + 4 <= MAX_PAYLOAD_LENGTH
  }

  ghost predicate EntriesFit(entries: seq<LogEntry>) {
    forall k :: 0 <= k < |entries| ==> EntryFits(entries[k])
  }

  predicate HardFits(h: HardState) {
    h.currentTerm < U64_LIMIT && h.votedFor < U64_LIMIT && h.commitIndex < U64_LIMIT && h.configurationId < U64_LIMIT
  }

  ghost predicate SnapshotFits(s: Snapshot) {
    && Snapshots.InRange(s) && Snapshots.Encode(s).Success? && Snapshots.MembersFit(s)
    && s.membership.nextVoters == [] && s.membership.nextLearners == []
  }

  ghost predicate Storable(s: Store) {
    HardFits(s.hard) && EntriesFit(s.entries) && (s.snapshot.Some? ==> SnapshotFits(s.snapshot.value))
  }

  /** Operations within the limits, whose snapshot has a stable membership. */
  ghost predicate OpFits(op: Op) {
    match op
    case SaveHardState(h) => HardFits(h)
    case AppendEntries(batch) => EntriesFit(batch)
    case TruncateSuffix(_) => true
    case SaveSnapshot(s) =>
      && Snapshots.InRange(s) && Snapshots.MembersFit(s)
      && |s.payload| <= Snapshots.MAX_SNAPSHOT_PAYLOAD
      && Snapshots.GoodMembers(s.membership.voters) && Snapshots.GoodMembers(s.membership.learners)
      && s.membership.nextVoters == [] && s.membership.nextLearners == []
  }

  // ---------------------------------------------------------------- what the files represent

  ghost predicate HardFileHolds(b: Bytes, h: HardState) {
    b == HardFile(h) || (b == [] && h == NO_HARD_STATE)
  }

  ghost predicate SnapshotFileHolds(file: Option<Bytes>, s: Option<Snapshot>) {
    if s.None? then file.None? else file == Some(Snapshots.SnapshotBytes(s.value))
  }

  /** Entries a crash may leave in the log file although the snapshot covers them. */
  ghost predicate Covered(hidden: seq<LogEntry>, boundary: LogIndex) {
    && |hidden| <= boundary && EntriesFit(hidden)
    && Contiguous(hidden, boundary + 1 - |hidden|)
  }

  ghost predicate LogFileHolds(b: Bytes, s: Store) {
    exists hidden :: Covered(hidden, s.SnapshotIndex()) && b == LogFile(hidden + s.entries)
  }

  ghost predicate Represents(d: Disk, s: Store) {
    && HardFileHolds(d.hardFile, s.hard)
    && SnapshotFileHolds(d.snapshotFile, s.snapshot)
    && LogFileHolds(d.logFile, s)
  }

  // ---------------------------------------------------------------- loading what was written

  lemma HardFileLoads(b: Bytes, h: HardState)
    requires HardFits(h) && HardFileHolds(b, h)
    ensures DecodeHard(b) == Success(h)
  {
    if b != [] {
      hide PutLE, GetLE, RecordsBytes, DecodeRecords;
      Pow256Values();
      var p := HardPayload(h);
      assert p[0..8] == PutLE(h.votedFor, 8) && p[8..16] == PutLE(h.commitIndex, 8) && p[16..24] == PutLE(h.configurationId, 8);
      GetPutLE(h.votedFor, 8);
      GetPutLE(h.commitIndex, 8);
      GetPutLE(h.configurationId, 8);
      DecodeRecordsBytes([HardRecord(h)], false);
    }
  }

  lemma EntryRecordLoads(e: LogEntry)
    requires EntryFits(e) && e.index > 0 && e.term > 0
    ensures Fits(EntryRecord(e)) && DecodeEntry(EntryRecord(e)) == Success(e)
  {
    hide PutLE, GetLE;
    Pow256Values();
    var p := PutLE(KindCode(e.kind), 4) + e.payload;
    assert p[0..4] == PutLE(KindCode(e.kind), 4) && p[4..] == e.payload;
    GetPutLE(KindCode(e.kind), 4);
  }

  lemma EntryRecordsFit(entries: seq<LogEntry>, index: LogIndex)
    requires EntriesFit(entries) && Contiguous(entries, index) && index > 0
    ensures AllFit(EntryRecords(entries))
  {
    hide Fits, EntryRecord, EntryFits, DecodeEntry;
    forall k | 0 <= k < |entries| ensures Fits(EntryRecords(entries)[k])
    {
      EntryRecordLoads(entries[k]);
    }
  }

  lemma FirstEntry(entries: seq<LogEntry>, next: LogIndex)
    requires EntriesFit(entries) && Contiguous(entries, next) && entries != []
    ensures entries[0].index == next && entries[0].term > 0 && EntryFits(entries[0])
    ensures EntriesFit(entries[1..]) && Contiguous(entries[1..], next + 1)
  {
    hide EntryFits;
  }

  lemma {:induction false} CollectEntries(entries: seq<LogEntry>, boundary: LogIndex, next: LogIndex)
    requires EntriesFit(entries) && Contiguous(entries, next) && next > boundary
    ensures Collect(EntryRecords(entries), boundary, next) == Success(entries)
  {
    hide EntryRecord, DecodeEntry, EntryFits, EntriesFit, Contiguous;
    if entries != [] {
      FirstEntry(entries, next);
      EntryRecordLoads(entries[0]);
      assert EntryRecords(entries)[1..] == EntryRecords(entries[1..]);
      CollectEntries(entries[1..], boundary, next + 1);
      assert entries == [entries[0]] + entries[1..];
    }
  }

  /** Covered entries are skipped. */
  lemma {:induction false} CollectSkips(hidden: seq<LogEntry>, entries: seq<LogEntry>, boundary: LogIndex)
    requires |hidden| <= boundary && EntriesFit(hidden) && EntriesFit(entries)
    requires forall k :: 0 <= k < |hidden| ==> 0 < hidden[k].index <= boundary && hidden[k].term > 0
    ensures Collect(EntryRecords(hidden + entries), boundary, boundary + 1)
            == Collect(EntryRecords(entries), boundary, boundary + 1)
  {
    hide EntryRecord, DecodeEntry, EntryFits;
    if hidden == [] {
      assert hidden + entries == entries;
    } else {
      EntryRecordLoads(hidden[0]);
      assert (hidden + entries)[1..] == hidden[1..] + entries;
      assert EntryRecords(hidden + entries)[1..] == EntryRecords(hidden[1..] + entries);
      CollectSkips(hidden[1..], entries, boundary);
    }
  }

  lemma ContiguousJoin(hidden: seq<LogEntry>, entries: seq<LogEntry>, boundary: LogIndex)
    requires Covered(hidden, boundary) && EntriesFit(entries) && Contiguous(entries, boundary + 1)
    ensures EntriesFit(hidden + entries) && Contiguous(hidden + entries, boundary + 1 - |hidden|)
    ensures forall k :: 0 <= k < |hidden| ==> 0 < hidden[k].index <= boundary && hidden[k].term > 0
  {
  }

  /** A log file cut after `k` bytes gives the entries of its whole records that the snapshot leaves open. */
  lemma TornLogLoads(hidden: seq<LogEntry>, entries: seq<LogEntry>, boundary: LogIndex, k: nat)
    requires Covered(hidden, boundary) && EntriesFit(entries) && Contiguous(entries, boundary + 1)
    requires k <= |LogFile(hidden + entries)|
    ensures var n := WholeRecords(EntryRecords(hidden + entries), k);
            var kept := if n <= |hidden| then [] else entries[..n - |hidden|];
            && n <= |hidden| + |entries|
            && DecodeLog(LogFile(hidden + entries)[..k], boundary)
               == Success((kept, k != |LogFile((hidden + entries)[..n])|))
  {
    hide RecordsBytes, DecodeRecords, WholeRecords, Collect, EntryFits;
    var all := hidden + entries;
    ContiguousJoin(hidden, entries, boundary);
    EntryRecordsFit(all, boundary + 1 - |hidden|);
    DecodePrefix(EntryRecords(all), k);
    var n := WholeRecords(EntryRecords(all), k);
    assert EntryRecords(all)[..n] == EntryRecords(all[..n]);
    if n <= |hidden| {
      assert all[..n] == hidden[..n] + [];
      CollectSkips(hidden[..n], [], boundary);
      CollectEntries([], boundary, boundary + 1);
    } else {
      var kept := entries[..n - |hidden|];
      assert all[..n] == hidden + kept;
      CollectSkips(hidden, kept, boundary);
      CollectEntries(kept, boundary, boundary + 1);
    }
  }

  lemma {:induction false} AllWhole(rs: seq<Record>)
    ensures WholeRecords(rs, |RecordsBytes(rs)|) == |rs|
  {
    hide RecordBytes;
    if rs != [] {
      AllWhole(rs[1..]);
    }
  }

  lemma LogLoads(hidden: seq<LogEntry>, entries: seq<LogEntry>, boundary: LogIndex)
    requires Covered(hidden, boundary) && EntriesFit(entries) && Contiguous(entries, boundary + 1)
    ensures DecodeLog(LogFile(hidden + entries), boundary) == Success((entries, false))
  {
    hide RecordsBytes, DecodeLog, WholeRecords, EntryFits, Contiguous;
    var all := hidden + entries;
    TornLogLoads(hidden, entries, boundary, |LogFile(all)|);
    AllWhole(EntryRecords(all));
    assert LogFile(all)[..|LogFile(all)|] == LogFile(all);
    assert all[..|all|] == all;
    assert entries[..|entries|] == entries;
  }

  lemma SnapshotFileLoads(file: Option<Bytes>, s: Option<Snapshot>)
    requires SnapshotFileHolds(file, s) && (s.Some? ==> SnapshotFits(s.value))
    ensures DecodeSnapshot(file) == Success(s)
  {
    hide Snapshots.Decode, Snapshots.SnapshotBytes, Snapshots.InRange;
    if s.Some? {
      Snapshots.RoundTripIff(s.value);
    }
  }

  /** Loading, once the three files are decoded. */
  lemma LoadDecoded(d: Disk, s: Store, torn: bool)
    requires DecodeSnapshot(d.snapshotFile) == Success(s.snapshot) && DecodeHard(d.hardFile) == Success(s.hard)
    requires DecodeLog(d.logFile, s.SnapshotIndex()) == Success((s.entries, torn))
    requires s.SnapshotIndex() <= s.hard.commitIndex
    ensures Load(d) == (if s.hard.commitIndex <= s.LastLogIndex() then Success(s) else Failure(Corruption),
                        if torn then d.(logFile := LogFile(s.entries)) else d)
  {
    hide DecodeHard, DecodeSnapshot, DecodeLog, LogFile;
  }

  /** Loading, or opening again, gives back exactly the store the files represent and changes nothing. */
  lemma LoadRepresented(d: Disk, s: Store)
    requires s.Valid() && Storable(s) && Represents(d, s)
    ensures Load(d) == (Success(s), d)
  {
    var hidden :| Covered(hidden, s.SnapshotIndex()) && d.logFile == LogFile(hidden + s.entries);
    hide DecodeHard, DecodeSnapshot, DecodeLog, LogFile, HardFileHolds, SnapshotFileHolds, LogFileHolds, EntriesFit,
         Covered, Contiguous, HardFits, SnapshotFits, Load;
    HardFileLoads(d.hardFile, s.hard);
    SnapshotFileLoads(d.snapshotFile, s.snapshot);
    LogLoads(hidden, s.entries, s.SnapshotIndex());
    LoadDecoded(d, s, false);
  }

  // ---------------------------------------------------------------- operations

  lemma SnapshotOpFits(s: Snapshot)
    requires OpFits(SaveSnapshot(s)) && s.index > 0 && s.term > 0
    ensures SnapshotFits(s) && Snapshots.Encode(s) == Success(Snapshots.SnapshotBytes(s))
  {
    hide Snapshots.SnapshotBytes, Snapshots.InRange;
  }

  lemma NotOversized(batch: seq<LogEntry>)
    requires EntriesFit(batch)
    ensures !Oversized(batch)
  {
  }

  /** Within the limits the file storage returns the memory storage's status and reaches its state. */
  lemma SameAsMemory(s: Store, op: Op)
    requires s.Valid() && OpFits(op)
    ensures FileStep(s, op).0 == s.Step(op).0 && FileStep(s, op).1 == s.Step(op).1
  {
    StepValid(s, op);
    hide Store.Valid, LogFile, HardFile, Snapshots.SnapshotBytes, Snapshots.InRange, Store.GoodBatch, Store.Repeats,
         Store.Extended, Oversized, EntriesFit;
    match op
    case AppendEntries(batch) => NotOversized(batch);
    case SaveSnapshot(snapshot) =>
      SnapshotStepFacts(s, snapshot);
      if s.Step(op).0 == Ok {
        SnapshotOpFits(snapshot);
      }
    case _ =>
  }

  /** Outside the limits it refuses, and that is the only difference in status. */
  lemma RefusesMoreIff(s: Store, op: Op)
    requires s.Valid()
    ensures FileStep(s, op).0 != s.Step(op).0 <==> s.Step(op).0 == Ok && ExceedsLimits(op)
  {
    hide LogFile, HardFile, Snapshots.SnapshotBytes, Store.GoodBatch, Store.Repeats, Store.Extended;
    match op
    case AppendEntries(batch) => AppendStepFacts(s, batch);
    case SaveSnapshot(snapshot) => SnapshotStepFacts(s, snapshot);
    case _ =>
  }

  lemma StepStorable(s: Store, op: Op)
    requires s.Valid() && Storable(s) && OpFits(op)
    ensures Storable(s.Step(op).1)
  {
    hide EntryFits, Snapshots.SnapshotBytes, Snapshots.InRange, Contiguous;
    match op
    case SaveHardState(_) =>
    case AppendEntries(batch) => AppendStorable(s, batch);
    case TruncateSuffix(index) => LastOfContiguous(s);
    case SaveSnapshot(snapshot) =>
      SnapshotStepFacts(s, snapshot);
      if s.Step(op).0 == Ok {
        SnapshotOpFits(snapshot);
      }
  }

  lemma AppendStorable(s: Store, batch: seq<LogEntry>)
    requires s.Valid() && Storable(s) && EntriesFit(batch)
    ensures Storable(s.Step(AppendEntries(batch)).1)
  {
    AppendStepFacts(s, batch);
    hide EntryFits, SnapshotFits, Contiguous, Store.Valid, Store.Step, Store.Repeats, Store.GoodBatch;
    if s.Step(AppendEntries(batch)).0 == Ok && batch != [] {
      ExtendedFits(s, batch);
    }
  }

  lemma ExtendedFits(s: Store, batch: seq<LogEntry>)
    requires s.Valid() && EntriesFit(s.entries) && EntriesFit(batch) && batch != [] && s.GoodBatch(batch)
    ensures EntriesFit(s.Extended(batch))
  {
    hide EntryFits;
  }

  // ---------------------------------------------------------------- crashes

  lemma NothingCovered(boundary: LogIndex)
    ensures Covered([], boundary)
  {
  }

  /** A log file written for the store itself holds its entries. */
  lemma OwnLogFileHolds(s: Store)
    ensures LogFileHolds(LogFile(s.entries), s)
  {
    NothingCovered(s.SnapshotIndex());
    assert [] + s.entries == s.entries;
  }

  lemma CoversMore(hidden: seq<LogEntry>, entries: seq<LogEntry>, boundary: LogIndex, n: nat)
    requires Covered(hidden, boundary) && EntriesFit(entries) && Contiguous(entries, boundary + 1) && n <= |entries|
    ensures Covered(hidden + entries[..n], boundary + n)
    ensures (hidden + entries[..n]) + entries[n..] == hidden + entries
  {
    hide EntryFits;
  }

  /** A newer snapshot covers more of the same log file. */
  lemma OldLogFileHolds(b: Bytes, s: Store, snapshot: Snapshot)
    requires s.Valid() && Storable(s) && LogFileHolds(b, s) && s.Step(SaveSnapshot(snapshot)).0 == Ok
    ensures LogFileHolds(b, s.Step(SaveSnapshot(snapshot)).1)
  {
    hide Store.Step, LogFile, Covered, Contiguous, EntriesFit, SnapshotFits, HardFits, Store.LastLogIndex;
    var hidden :| Covered(hidden, s.SnapshotIndex()) && b == LogFile(hidden + s.entries);
    SnapshotStepFacts(s, snapshot);
    var n := snapshot.index - s.SnapshotIndex();
    CoversMore(hidden, s.entries, s.SnapshotIndex(), n);
    assert Covered(hidden + s.entries[..n], snapshot.index);
  }

  /** The disk after the first `k` replacements of an operation. */
  ghost function Crashed(d: Disk, s: Store, op: Op, k: nat): Disk
    requires s.Valid() && k <= |FileStep(s, op).2|
  {
    WrittenAll(d, FileStep(s, op).2[..k])
  }

  /** What the crashed disk represents: the old store before the first replacement, the new one after it. */
  ghost function Survivor(s: Store, op: Op, k: nat): Store
    requires s.Valid()
  {
    if k == 0 && FileStep(s, op).2 != [] then s else s.Step(op).1
  }

  lemma NoWritesNoChange(s: Store, op: Op)
    requires s.Valid() && OpFits(op)
    ensures FileStep(s, op).2 == [] ==> s.Step(op).1 == s
  {
    SameAsMemory(s, op);
    StepValid(s, op);
    hide Store.Valid, LogFile, HardFile, Snapshots.SnapshotBytes, Snapshots.InRange, Store.GoodBatch, Store.Repeats,
         Store.Extended, Oversized, EntriesFit;
  }

  lemma SnapshotWrites(s: Store, snapshot: Snapshot)
    requires s.Valid() && s.Step(SaveSnapshot(snapshot)).0 == Ok && OpFits(SaveSnapshot(snapshot))
    ensures FileStep(s, SaveSnapshot(snapshot)).2
            == [ReplaceSnapshot(Snapshots.SnapshotBytes(snapshot)),
                ReplaceLog(LogFile(s.Step(SaveSnapshot(snapshot)).1.entries))]
  {
    SnapshotStepFacts(s, snapshot);
    SnapshotOpFits(snapshot);
    hide Store.Step, LogFile, Snapshots.SnapshotBytes, Snapshots.Encode, OpFits, Store.Valid;
  }

  lemma SnapshotCrashRepresents(d: Disk, s: Store, snapshot: Snapshot, k: nat)
    requires s.Valid() && Storable(s) && Represents(d, s) && OpFits(SaveSnapshot(snapshot))
    requires s.Step(SaveSnapshot(snapshot)).0 == Ok && 1 <= k <= 2
    ensures |FileStep(s, SaveSnapshot(snapshot)).2| == 2
    ensures Represents(Crashed(d, s, SaveSnapshot(snapshot), k), s.Step(SaveSnapshot(snapshot)).1)
  {
    hide Store.Step, FileStep, Represents, LogFileHolds, LogFile, Snapshots.SnapshotBytes, HardFileHolds, Storable,
         OpFits, Store.Valid, Written;
    SnapshotWrites(s, snapshot);
    var ws := FileStep(s, SaveSnapshot(snapshot)).2;
    OneWrite(d, ws[0]);
    TwoWrites(d, ws[0], ws[1]);
    assert ws[..1] == [ws[0]] && ws[..2] == [ws[0], ws[1]];
    SnapshotReplacedRepresents(d, s, snapshot);
  }

  /** With the new snapshot on disk, the old log file does as well as the new one. */
  lemma SnapshotReplacedRepresents(d: Disk, s: Store, snapshot: Snapshot)
    requires s.Valid() && Storable(s) && Represents(d, s) && s.Step(SaveSnapshot(snapshot)).0 == Ok
    ensures var after := s.Step(SaveSnapshot(snapshot)).1;
            var halfway := Written(d, ReplaceSnapshot(Snapshots.SnapshotBytes(snapshot)));
            && Represents(halfway, after)
            && Represents(Written(halfway, ReplaceLog(LogFile(after.entries))), after)
  {
    hide Store.Step, LogFileHolds, LogFile, Snapshots.SnapshotBytes, HardFileHolds, Storable, Store.Valid;
    SnapshotStepFacts(s, snapshot);
    OldLogFileHolds(d.logFile, s, snapshot);
    OwnLogFileHolds(s.Step(SaveSnapshot(snapshot)).1);
  }

  lemma LogWrites(s: Store, op: Op)
    requires s.Valid() && OpFits(op) && (op.AppendEntries? || op.TruncateSuffix?) && FileStep(s, op).2 != []
    ensures FileStep(s, op).2 == [ReplaceLog(LogFile(s.Step(op).1.entries))]
    ensures s.Step(op).1 == s.(entries := s.Step(op).1.entries)
  {
    SameAsMemory(s, op);
    hide LogFile, OpFits, Store.GoodBatch, Store.Repeats, Store.Extended, Oversized, Store.Valid;
  }

  lemma LogCrashRepresents(d: Disk, s: Store, op: Op)
    requires s.Valid() && Represents(d, s) && OpFits(op) && (op.AppendEntries? || op.TruncateSuffix?)
    requires FileStep(s, op).2 != []
    ensures |FileStep(s, op).2| == 1 && Represents(Crashed(d, s, op, 1), s.Step(op).1)
  {
    LogWrites(s, op);
    hide LogFileHolds, LogFile, HardFileHolds, OpFits, SnapshotFileHolds, Store.Valid, Store.Step, FileStep;
    var after := s.Step(op).1;
    OwnLogFileHolds(after);
    var w := ReplaceLog(LogFile(after.entries));
    OneWrite(d, w);
    assert [w][..1] == [w];
  }

  lemma HardCrashRepresents(d: Disk, s: Store, h: HardState)
    requires s.Valid() && Represents(d, s) && s.Step(SaveHardState(h)).0 == Ok
    ensures |FileStep(s, SaveHardState(h)).2| == 1
    ensures Represents(Crashed(d, s, SaveHardState(h), 1), s.Step(SaveHardState(h)).1)
  {
    hide LogFile, HardFile, SnapshotFileHolds, Store.Valid, Covered;
    var w := ReplaceHard(HardFile(h));
    assert FileStep(s, SaveHardState(h)).2 == [w];
    OneWrite(d, w);
    assert [w][..1] == [w];
    var hidden :| Covered(hidden, s.SnapshotIndex()) && d.logFile == LogFile(hidden + s.entries);
    assert s.Step(SaveHardState(h)).1 == s.(hard := h);
  }

  /** A crash after any number of the replacements leaves a disk that represents the survivor. */
  lemma CrashRepresents(d: Disk, s: Store, op: Op, k: nat)
    requires s.Valid() && Storable(s) && Represents(d, s) && OpFits(op) && k <= |FileStep(s, op).2|
    ensures Represents(Crashed(d, s, op, k), Survivor(s, op, k))
  {
    hide Store.Step, Represents, OpFits, Store.Valid, Storable, FileStep;
    NoWritesNoChange(s, op);
    if k == 0 {
      assert FileStep(s, op).2[..0] == [];
    } else {
      WritesMeanOk(s, op);
      match op
      case SaveHardState(h) => HardCrashRepresents(d, s, h);
      case AppendEntries(_) => LogCrashRepresents(d, s, op);
      case TruncateSuffix(_) => LogCrashRepresents(d, s, op);
      case SaveSnapshot(snapshot) => SnapshotCrashRepresents(d, s, snapshot, k);
    }
  }

  lemma WritesMeanOk(s: Store, op: Op)
    requires s.Valid() && OpFits(op) && FileStep(s, op).2 != []
    ensures s.Step(op).0 == Ok
    ensures op.SaveSnapshot? ==> |FileStep(s, op).2| == 2
    ensures !op.SaveSnapshot? ==> |FileStep(s, op).2| == 1
  {
    hide Store.Valid, LogFile, HardFile, Store.Step, Oversized, Snapshots.Encode;
  }

  // ---------------------------------------------------------------- runs

  /** An operation that finishes, or one cut off by a crash after which the storage is opened again. */
  datatype Event = Perform(op: Op) | CrashDuring(op: Op, replaced: nat)

  datatype Files = Files(store: Store, disk: Disk)

  ghost predicate Sound(f: Files) {
    f.store.Valid() && Storable(f.store) && Represents(f.disk, f.store)
  }

  ghost function Happens(f: Files, e: Event): Files
    requires f.store.Valid()
  {
    match e
    case Perform(op) => Files(FileStep(f.store, op).1, WrittenAll(f.disk, FileStep(f.store, op).2))
    case CrashDuring(op, k) =>
      var d := Crashed(f.disk, f.store, op, Min(k, |FileStep(f.store, op).2|));
      var (loaded, repaired) := Load(d);
      if loaded.Failure? then Files(EMPTY_STORE, repaired) else Files(loaded.value, repaired)
  }

  /** The same on the memory storage: a crash takes effect from the first replacement on. */
  ghost function Expected(s: Store, e: Event): Store
    requires s.Valid()
  {
    match e
    case Perform(op) => s.Step(op).1
    case CrashDuring(op, k) => Survivor(s, op, k)
  }

  lemma HappensSoundly(f: Files, e: Event)
    requires Sound(f) && OpFits(e.op)
    ensures Happens(f, e).store == Expected(f.store, e) && Sound(Happens(f, e))
    ensures e.Perform? ==> FileStep(f.store, e.op).0 == f.store.Step(e.op).0
  {
    hide FileStep, Store.Step, Store.Valid, Storable, Represents, Load, WrittenAll, OpFits, Survivor, Crashed;
    SameAsMemory(f.store, e.op);
    match e
    case Perform(op) => PerformSoundly(f, op);
    case CrashDuring(op, k) => CrashSoundly(f, op, k);
  }

  lemma SurvivorSound(s: Store, op: Op, k: nat)
    requires s.Valid() && Storable(s) && OpFits(op)
    ensures Survivor(s, op, k).Valid() && Storable(Survivor(s, op, k))
  {
    hide FileStep, Store.Step, Store.Valid, Storable, OpFits;
    StepValid(s, op);
    StepStorable(s, op);
  }

  lemma PerformSoundly(f: Files, op: Op)
    requires f.store.Valid() && Storable(f.store) && Represents(f.disk, f.store) && OpFits(op)
    ensures f.store.Step(op).1.Valid() && Storable(f.store.Step(op).1)
    ensures FileStep(f.store, op).1 == f.store.Step(op).1
    ensures Represents(WrittenAll(f.disk, FileStep(f.store, op).2), f.store.Step(op).1)
  {
    hide FileStep, Store.Step, Store.Valid, Storable, Represents, WrittenAll, OpFits;
    var all := FileStep(f.store, op).2;
    SameAsMemory(f.store, op);
    StepValid(f.store, op);
    StepStorable(f.store, op);
    CrashRepresents(f.disk, f.store, op, |all|);
    assert all[..|all|] == all;
  }

  lemma CrashSoundly(f: Files, op: Op, k: nat)
    requires f.store.Valid() && Storable(f.store) && Represents(f.disk, f.store) && OpFits(op)
    ensures var n := Min(k, |FileStep(f.store, op).2|);
            var left := Survivor(f.store, op, k);
            && left.Valid() && Storable(left)
            && Load(Crashed(f.disk, f.store, op, n)) == (Success(left), Crashed(f.disk, f.store, op, n))
            && Represents(Crashed(f.disk, f.store, op, n), left)
  {
    var n := Min(k, |FileStep(f.store, op).2|);
    assert Survivor(f.store, op, n) == Survivor(f.store, op, k);
    hide FileStep, Store.Step, Store.Valid, Storable, Represents, OpFits, Load, WrittenAll, Survivor, Crashed;
    SurvivorSound(f.store, op, n);
    CrashRepresents(f.disk, f.store, op, n);
    LoadRepresented(Crashed(f.disk, f.store, op, n), Survivor(f.store, op, n));
  }

  ghost function Run(f: Files, events: seq<Event>): Files
    requires Sound(f) && forall i :: 0 <= i < |events| ==> OpFits(events[i].op)
    decreases |events|
  {
    if events == [] then f else
      HappensSoundly(f, events[0]);
      Run(Happens(f, events[0]), events[1..])
  }

  ghost function Reference(s: Store, events: seq<Event>): (after: Store)
    requires s.Valid()
    ensures after.Valid()
    decreases |events|
  {
    if events == [] then s else
      StepValid(s, events[0].op);
      Reference(Expected(s, events[0]), events[1..])
  }

  /** The statuses the completed operations of a run return; a crash returns none. */
  ghost function Statuses(f: Files, events: seq<Event>): seq<Status>
    requires Sound(f) && forall i :: 0 <= i < |events| ==> OpFits(events[i].op)
    decreases |events|
  {
    if events == [] then [] else
      HappensSoundly(f, events[0]);
      (if events[0].Perform? then [FileStep(f.store, events[0].op).0] else [])
      + Statuses(Happens(f, events[0]), events[1..])
  }

  /** The statuses the memory storage returns for the same operations. */
  ghost function ReferenceStatuses(s: Store, events: seq<Event>): seq<Status>
    requires s.Valid()
    decreases |events|
  {
    if events == [] then [] else
      StepValid(s, events[0].op);
      (if events[0].Perform? then [s.Step(events[0].op).0] else [])
      + ReferenceStatuses(Expected(s, events[0]), events[1..])
  }

  /**
   Over every sequence of operations within the limits, cut by crashes at any replacement, the durable
   storage returns what the memory storage returns and holds what it holds, and loading its files gives
   exactly that back.
   */
  lemma {:induction false} RunRefinesMemory(f: Files, events: seq<Event>)
    requires Sound(f) && forall i :: 0 <= i < |events| ==> OpFits(events[i].op)
    ensures var after := Run(f, events);
            && after.store == Reference(f.store, events)
            && Load(after.disk) == (Success(after.store), after.disk)
    ensures Statuses(f, events) == ReferenceStatuses(f.store, events)
    decreases |events|
  {
    hide Happens, Expected, Load, OpFits, Store.Valid, Storable, Represents, FileStep, Store.Step;
    if events == [] {
      LoadRepresented(f.disk, f.store);
    } else {
      HappensSoundly(f, events[0]);
      SameAsMemory(f.store, events[0].op);
      RunRefinesMemory(Happens(f, events[0]), events[1..]);
    }
  }

  lemma NewStorageSound()
    ensures Sound(Files(EMPTY_STORE, NEW_DISK))
  {
    OwnLogFileHolds(EMPTY_STORE);
    assert LogFile([]) == [];
  }

  // ---------------------------------------------------------------- torn log tails

  /** The store a torn log leaves: the entries whose records are whole. */
  ghost function TornStore(s: Store, hidden: seq<LogEntry>, k: nat): Store {
    var n := WholeRecords(EntryRecords(hidden + s.entries), k);
    s.(entries := if n <= |hidden| || n > |hidden| + |s.entries| then [] else s.entries[..n - |hidden|])
  }

  /**
   A log file cut anywhere loads as exactly its whole records, or as corrupt if and only if a committed
   entry is gone; the tail is cut off on disk, and loading again gives the same result.
   */
  lemma TornLogRecovers(d: Disk, s: Store, hidden: seq<LogEntry>, k: nat)
    requires s.Valid() && Storable(s) && Represents(d, s)
    requires Covered(hidden, s.SnapshotIndex()) && d.logFile == LogFile(hidden + s.entries) && k <= |d.logFile|
    ensures var kept := TornStore(s, hidden, k);
            var (result, repaired) := Load(d.(logFile := d.logFile[..k]));
            && result == (if s.hard.commitIndex <= s.SnapshotIndex() + |kept.entries| then Success(kept)
                          else Failure(Corruption))
            && Load(repaired) == (result, repaired)
            && kept.entries <= s.entries
  {
    var kept := TornStore(s, hidden, k);
    var boundary := s.SnapshotIndex();
    hide DecodeHard, DecodeSnapshot, DecodeLog, LogFile, HardFileHolds, SnapshotFileHolds, LogFileHolds, Covered,
         Contiguous, WholeRecords, Load, HardFits, EntriesFit, SnapshotFits;
    TornLogLoads(hidden, s.entries, boundary, k);
    HardFileLoads(d.hardFile, s.hard);
    SnapshotFileLoads(d.snapshotFile, s.snapshot);
    var torn := DecodeLog(d.logFile[..k], boundary).value.1;
    hide TornStore;
    KeptFacts(s, hidden, k);
    LoadDecoded(d.(logFile := d.logFile[..k]), kept, torn);
    if torn {
      NothingCovered(boundary);
      LogLoads([], kept.entries, boundary);
      assert [] + kept.entries == kept.entries;
      LoadDecoded(d.(logFile := LogFile(kept.entries)), kept, false);
    }
  }

  lemma KeptFacts(s: Store, hidden: seq<LogEntry>, k: nat)
    requires s.Valid() && Storable(s)
    ensures var kept := TornStore(s, hidden, k);
            && kept.entries <= s.entries && EntriesFit(kept.entries) && Contiguous(kept.entries, s.SnapshotIndex() + 1)
            && kept.LastLogIndex() == s.SnapshotIndex() + |kept.entries|
            && kept.hard == s.hard && kept.snapshot == s.snapshot
  {
    hide WholeRecords, EntryFits, SnapshotFits;
  }

  // ---------------------------------------------------------------- snapshots that do not survive

  /**
   A snapshot the storage accepts is given back after reopening if and only if its member lists are short
   enough for the decoder and it has no target sets.
   */
  lemma SnapshotReloadsIff(d: Disk, s: Store, snapshot: Snapshot)
    requires s.Valid() && Storable(s) && Represents(d, s) && Snapshots.InRange(snapshot)
    requires FileStep(s, SaveSnapshot(snapshot)).0 == Ok
    ensures var (_, after, writes) := FileStep(s, SaveSnapshot(snapshot));
            Load(WrittenAll(d, writes)).0 == Success(after)
            <==> Snapshots.MembersFit(snapshot)
                 && snapshot.membership.nextVoters == [] && snapshot.membership.nextLearners == []
  {
    SnapshotReplaced(d, s, snapshot);
    SnapshotStepFacts(s, snapshot);
    AfterFits(s, snapshot);
    Snapshots.RoundTripIff(snapshot);
    hide DecodeHard, DecodeLog, LogFile, Covered, Contiguous, Store.Step, FileStep, Load, EntriesFit,
         Snapshots.Encode, Snapshots.Decode, Snapshots.MembersFit, Snapshots.InRange, HardFileHolds, HardFits;
    var (_, after, writes) := FileStep(s, SaveSnapshot(snapshot));
    var e := WrittenAll(d, writes);
    HardFileLoads(d.hardFile, s.hard);
    NothingCovered(snapshot.index);
    LogLoads([], after.entries, snapshot.index);
    assert [] + after.entries == after.entries;
    LastOfContiguous(after);
    SnapshotAloneDecides(e, after, Snapshots.Decode(Snapshots.Encode(snapshot).value));
  }

  lemma SnapshotAloneDecides(d: Disk, s: Store, decoded: Result<Snapshot>)
    requires d.snapshotFile.Some? && Snapshots.Decode(d.snapshotFile.value) == decoded
    requires DecodeHard(d.hardFile) == Success(s.hard)
    requires DecodeLog(d.logFile, s.SnapshotIndex()) == Success((s.entries, false))
    requires s.snapshot.Some? && s.SnapshotIndex() <= s.hard.commitIndex <= s.LastLogIndex()
    ensures Load(d).0 == Success(s) <==> decoded == Success(s.snapshot.value)
  {
    hide DecodeHard, DecodeLog, LogFile, Snapshots.Decode;
  }

  lemma SnapshotReplaced(d: Disk, s: Store, snapshot: Snapshot)
    requires s.Valid() && FileStep(s, SaveSnapshot(snapshot)).0 == Ok
    ensures var (_, after, writes) := FileStep(s, SaveSnapshot(snapshot));
            && s.Step(SaveSnapshot(snapshot)).0 == Ok && after == s.Step(SaveSnapshot(snapshot)).1
            && Snapshots.Encode(snapshot).Success?
            && WrittenAll(d, writes)
               == Disk(d.hardFile, LogFile(after.entries), Some(Snapshots.Encode(snapshot).value))
  {
    hide Store.Step, LogFile, Snapshots.Encode, Store.Valid, FileStep, WrittenAll;
    SnapshotFileStep(s, snapshot);
    EncodeError(snapshot);
    var after := FileStep(s, SaveSnapshot(snapshot)).1;
    TwoWrites(d, ReplaceSnapshot(Snapshots.Encode(snapshot).value), ReplaceLog(LogFile(after.entries)));
  }

  lemma AfterFits(s: Store, snapshot: Snapshot)
    requires s.Valid() && Storable(s) && s.Step(SaveSnapshot(snapshot)).0 == Ok
    ensures var after := s.Step(SaveSnapshot(snapshot)).1;
            EntriesFit(after.entries) && Contiguous(after.entries, snapshot.index + 1)
  {
    SnapshotStepFacts(s, snapshot);
    hide Store.Step, SnapshotFits, HardFits, EntryFits;
  }
}
