/** The storage that keeps its state in three files, each replaced as a whole. */
module FileStorages {
  import opened Common
  import opened Codec
  import opened RaftTypes
  import opened StorageModel
  import opened StorageChecks
  import opened Records
  import opened FileStorageModel
  import Snapshots = SnapshotCodec

  const PAYLOAD_LIMIT: nat := MAX_PAYLOAD_LENGTH - 4

  // ---------------------------------------------------------------- file contents

  lemma LogFileSnoc(entries: seq<LogEntry>, e: LogEntry)
    ensures LogFile(entries + [e]) == LogFile(entries) + RecordBytes(EntryRecord(e))
  {
    hide RecordBytes, EntryRecord;
    assert EntryRecords(entries + [e]) == EntryRecords(entries) + [EntryRecord(e)];
    RecordsBytesConcat(EntryRecords(entries), [EntryRecord(e)]);
    assert RecordsBytes([EntryRecord(e)]) == RecordBytes(EntryRecord(e)) + [];
  }

  method EncodeLogFile(entries: seq<LogEntry>) returns (data: Bytes)
    ensures data == LogFile(entries)
  {
    hide RecordBytes, LogFile, EntryRecord;
    data := [];
    assert LogFile([]) == [] by { EmptyLogFile(); }
    for i := 0 to |entries|
      invariant data == LogFile(entries[..i])
    {
      assert entries[..i + 1] == entries[..i] + [entries[i]];
      LogFileSnoc(entries[..i], entries[i]);
      data := AppendRecord(data, EntryRecord(entries[i]));
    }
    assert entries[..|entries|] == entries;
  }

  lemma EmptyLogFile()
    ensures LogFile([]) == []
  {
  }

  method EncodeHardStateFile(h: HardState) returns (data: Bytes)
    ensures data == HardFile(h)
  {
    hide RecordBytes, PutLE;
    var payload := AppendLE([], h.votedFor, 8);
    payload := AppendLE(payload, h.commitIndex, 8);
    payload := AppendLE(payload, h.configurationId, 8);
    assert payload == HardPayload(h);
    data := AppendRecord([], Record(HARD_STATE_RECORD, h.commitIndex, h.currentTerm, payload));
    assert RecordsBytes([HardRecord(h)]) == RecordBytes(HardRecord(h)) + [];
  }

  method DecodeHardStateFile(b: Bytes) returns (h: Result<HardState>)
    ensures h == DecodeHard(b)
  {
    hide DecodeRecords, GetLE;
    if b == [] {
      return Success(NO_HARD_STATE);
    }
    var records, torn := DecodeAll(b, false);
    if records.Failure? {
      return Failure(records.error);
    }
    if |records.value| != 1 || records.value[0].kind != HARD_STATE_RECORD {
      return Failure(Corruption);
    }
    var r := records.value[0];
    if |r.payload| != 24 {
      return Failure(Corruption);
    }
    var voted, commit, id, at;
    assert r.payload[0..] == r.payload;
    voted, at := ReadLE(r.payload, 0, 8);
    commit, at := ReadLE(r.payload, at, 8);
    id, at := ReadLE(r.payload, at, 8);
    assert r.payload[8..][..8] == r.payload[8..16] && r.payload[16..][..8] == r.payload[16..24];
    if r.index != commit.value {
      return Failure(Corruption);
    }
    h := Success(HardState(r.term, voted.value, commit.value, id.value));
  }

  /** The outcome once the remaining records are collected as well. */
  ghost function Resumed(entries: seq<LogEntry>, rs: seq<Record>, boundary: LogIndex): Result<seq<LogEntry>> {
    var others := Collect(rs, boundary, boundary + 1 + |entries|);
    if others.Failure? then others else Success(entries + others.value)
  }

  lemma ResumeKept(entries: seq<LogEntry>, rs: seq<Record>, boundary: LogIndex, e: LogEntry)
    requires rs != [] && DecodeEntry(rs[0]) == Success(e) && e.index == boundary + 1 + |entries|
    ensures Resumed(entries, rs, boundary) == Resumed(entries + [e], rs[1..], boundary)
  {
    hide DecodeEntry;
    var others := Collect(rs[1..], boundary, boundary + 1 + |entries + [e]|);
    if others.Success? {
      assert entries + ([e] + others.value) == entries + [e] + others.value;
    }
  }

  method DecodeLogEntry(r: Record) returns (e: Result<LogEntry>)
    ensures e == DecodeEntry(r)
  {
    hide GetLE;
    if r.kind != LOG_ENTRY_RECORD || r.index == 0 || r.term == 0 {
      return Failure(Corruption);
    }
    if |r.payload| < 4 {
      return Failure(Corruption);
    }
    assert r.payload[0..] == r.payload;
    var code, at := ReadLE(r.payload, 0, 4);
    assert r.payload[0..4] == r.payload[..4];
    if code.value > 2 {
      return Failure(Corruption);
    }
    e := Success(LogEntry(r.index, r.term, KindOf(code.value), r.payload[at..]));
  }

  method CollectEntries(rs: seq<Record>, boundary: LogIndex) returns (entries: Result<seq<LogEntry>>)
    ensures entries == Collect(rs, boundary, boundary + 1)
  {
    hide DecodeEntry;
    var kept: seq<LogEntry> := [];
    ghost var all := Collect(rs, boundary, boundary + 1);
    assert rs[0..] == rs;
    assert all.Success? ==> [] + all.value == all.value;
    for i := 0 to |rs|
      invariant all == Resumed(kept, rs[i..], boundary)
      invariant Contiguous(kept, boundary + 1)
    {
      assert rs[i..][1..] == rs[i + 1..];
      var e := DecodeLogEntry(rs[i]);
      if e.Failure? {
        return Failure(e.error);
      }
      if e.value.index > boundary {
        if kept != [] && e.value.index != kept[|kept| - 1].index + 1 {
          return Failure(Corruption);
        }
        if kept == [] && e.value.index != boundary + 1 {
          return Failure(Corruption);
        }
        ResumeKept(kept, rs[i..], boundary, e.value);
        DecodedTerm(rs[i]);
        kept := kept + [e.value];
      }
    }
    assert kept + [] == kept;
    entries := Success(kept);
  }

  lemma DecodedTerm(r: Record)
    ensures var e := DecodeEntry(r); e.Success? ==> e.value.index > 0 && e.value.term > 0
  {
  }

  // ---------------------------------------------------------------- whatever loads is valid

  lemma {:induction false} CollectedContiguous(rs: seq<Record>, boundary: LogIndex, next: LogIndex)
    ensures var entries := Collect(rs, boundary, next); entries.Success? ==> Contiguous(entries.value, next)
  {
    hide DecodeEntry;
    if rs != [] {
      DecodedTerm(rs[0]);
      CollectedContiguous(rs[1..], boundary, next);
      CollectedContiguous(rs[1..], boundary, next + 1);
    }
  }

  lemma DecodedSnapshotPositive(file: Option<Bytes>)
    ensures var s := DecodeSnapshot(file);
            s.Success? && s.value.Some? ==> s.value.value.index > 0 && s.value.value.term > 0
  {
    hide Snapshots.TakeBody, GetLE;
  }

  /** Whatever bytes are on disk: what loads without an error is a valid store. */
  lemma LoadedIsValid(d: Disk)
    ensures Load(d).0.Success? ==> Load(d).0.value.Valid()
  {
    DecodedSnapshotPositive(d.snapshotFile);
    var s := DecodeSnapshot(d.snapshotFile);
    hide DecodeSnapshot, DecodeHard, Collect, DecodeRecords, LogFile;
    if s.Success? {
      var boundary := if s.value.Some? then s.value.value.index else 0;
      var records := DecodeRecords(d.logFile, true);
      if records.Success? {
        CollectedContiguous(records.value.0, boundary, boundary + 1);
      }
    }
  }

  // ---------------------------------------------------------------- the storage object

  class FileRaftStorage {
    var open: bool
    var hard: HardState
    var entries: seq<LogEntry>
    var snapshot: Option<Snapshot>
    /** The contents of the three files. */
    var disk: Disk

    ghost function State(): Store
      reads this
    {
      Store(hard, entries, snapshot)
    }

    ghost predicate Valid()
      reads this
    {
      open ==> State().Valid()
    }

    constructor (files: Disk)
      ensures Valid() && !open && disk == files
    {
      open := false;
      hard := NO_HARD_STATE;
      entries := [];
      snapshot := None;
      disk := files;
    }

    /** The rename over the target takes effect as one step. */
    method AtomicReplace(w: Write)
      modifies `disk
      ensures disk == Written(old(disk), w)
    {
      disk := match w
        case ReplaceHard(b) => disk.(hardFile := b)
        case ReplaceLog(b) => disk.(logFile := b)
        case ReplaceSnapshot(b) => disk.(snapshotFile := Some(b));
    }

    method LoadFromDisk() returns (result: Result<Store>)
      modifies `disk
      ensures (result, disk) == FileStorageModel.Load(old(disk))
    {
      hide DecodeHard, DecodeRecords, Collect, LogFile, Snapshots.Decode;
      var loaded: Option<Snapshot> := None;
      if disk.snapshotFile.Some? {
        var s := Snapshots.DecodeSnapshotData(disk.snapshotFile.value);
        if s.Failure? {
          return Failure(s.error);
        }
        loaded := Some(s.value);
      }
      var h := DecodeHardStateFile(disk.hardFile);
      if h.Failure? {
        return Failure(h.error);
      }
      var boundary: LogIndex := if loaded.Some? then loaded.value.index else 0;
      var records, torn := DecodeAll(disk.logFile, true);
      if records.Failure? {
        return Failure(records.error);
      }
      var log := CollectEntries(records.value, boundary);
      if log.Failure? {
        return Failure(log.error);
      }
      if torn {
        var data := EncodeLogFile(log.value);
        AtomicReplace(ReplaceLog(data));
      }
      var store := Store(h.value, log.value, loaded);
      if h.value.commitIndex > store.LastLogIndex() {
        return Failure(Corruption);
      }
      if loaded.Some? && h.value.commitIndex < loaded.value.index {
        return Failure(Corruption);
      }
      result := Success(store);
    }

    method Open() returns (status: Status)
      modifies this
      ensures Valid()
      ensures var (result, after) := FileStorageModel.Load(old(disk));
              && disk == after && open == result.Success?
              && status == (if result.Success? then Ok else result.error)
              && (result.Success? ==> State() == result.value)
              && (result.Failure? ==> State() == old(State()))
    {
      hide FileStorageModel.Load, Store.Valid;
      LoadedIsValid(disk);
      var result := LoadFromDisk();
      if result.Failure? {
        open := false;
        return result.error;
      }
      hard := result.value.hard;
      entries := result.value.entries;
      snapshot := result.value.snapshot;
      open := true;
      status := Ok;
    }

    method Load() returns (status: Status, result: Option<Store>)
      modifies `disk
      ensures if !open then status == InvalidArgument && result.None? && disk == old(disk)
              else var (loaded, after) := FileStorageModel.Load(old(disk));
                   && disk == after
                   && (loaded.Success? ==> status == Ok && result == Some(loaded.value))
                   && (loaded.Failure? ==> status == loaded.error && result.None?)
    {
      hide FileStorageModel.Load;
      if !open {
        return InvalidArgument, None;
      }
      var loaded := LoadFromDisk();
      if loaded.Failure? {
        return loaded.error, None;
      }
      return Ok, Some(loaded.value);
    }

    /** What a mutator does when the storage is open, and that it does nothing otherwise. */
    twostate predicate Performed(op: Op, status: Status)
      requires old(Valid())
      reads this
    {
      && open == old(open)
      && if !open then status == InvalidArgument && State() == old(State()) && disk == old(disk)
         else var (expected, after, writes) := FileStep(old(State()), op);
              status == expected && State() == after && disk == WrittenAll(old(disk), writes)
    }

    method SaveHardState(h: HardState) returns (status: Status)
      requires Valid()
      modifies `hard, `disk
      ensures Valid() && Performed(StorageModel.SaveHardState(h), status)
    {
      if !open {
        return InvalidArgument;
      }
      if h.currentTerm < hard.currentTerm || h.commitIndex < hard.commitIndex {
        return InvalidArgument;
      }
      if h.commitIndex > Store(hard, entries, snapshot).LastLogIndex() {
        return InvalidArgument;
      }
      hide HardFile;
      var data := EncodeHardStateFile(h);
      OneWrite(disk, ReplaceHard(data));
      AtomicReplace(ReplaceHard(data));
      hard := h;
      status := Ok;
    }

    method AppendEntries(batch: seq<LogEntry>) returns (status: Status)
      requires Valid()
      modifies `entries, `disk
      ensures Valid() && Performed(StorageModel.AppendEntries(batch), status)
    {
      if !open {
        return InvalidArgument;
      }
      hide Store.Step, Store.Valid, LogFile, FileStep, WrittenAll;
      var s := Store(hard, entries, snapshot);
      var grown;
      status, grown := PlanBatch(s, batch);
      if status == Ok && grown != entries {
        var data := EncodeLogFile(grown);
        OneWrite(disk, ReplaceLog(data));
        AtomicReplace(ReplaceLog(data));
        entries := grown;
      } else {
        NoWrites(disk);
      }
    }

    method TruncateSuffix(index: LogIndex) returns (status: Status)
      requires Valid()
      modifies `entries, `disk
      ensures Valid() && Performed(StorageModel.TruncateSuffix(index), status)
    {
      if !open {
        return InvalidArgument;
      }
      hide Store.Step, Store.Valid, LogFile, FileStep, WrittenAll;
      var s := Store(hard, entries, snapshot);
      var kept;
      status, kept := PlanTruncation(s, index);
      if status == Ok && kept != entries {
        var data := EncodeLogFile(kept);
        OneWrite(disk, ReplaceLog(data));
        AtomicReplace(ReplaceLog(data));
        entries := kept;
      } else {
        NoWrites(disk);
      }
    }

    method SaveSnapshot(s: Snapshot) returns (status: Status)
      requires Valid()
      modifies `entries, `snapshot, `disk
      ensures Valid() && Performed(StorageModel.SaveSnapshot(s), status)
    {
      if !open {
        return InvalidArgument;
      }
      hide Store.Step, Store.Valid, LogFile, Snapshots.Encode, FileStep;
      var before := Store(hard, entries, snapshot);
      StepValid(before, StorageModel.SaveSnapshot(s));
      var bytes, kept;
      status, bytes, kept := PlanSnapshot(before, s);
      if status != Ok {
        return;
      }
      var data := EncodeLogFile(kept);
      TwoWrites(disk, ReplaceSnapshot(bytes), ReplaceLog(data));
      AtomicReplace(ReplaceSnapshot(bytes));
      AtomicReplace(ReplaceLog(data));
      snapshot := Some(s);
      entries := kept;
    }
  }

  lemma NoWrites(d: Disk)
    ensures WrittenAll(d, []) == d
  {
  }

  /** The log after an accepted batch; the file is only replaced when it grew. */
  method PlanBatch(s: Store, batch: seq<LogEntry>) returns (status: Status, grown: seq<LogEntry>)
    requires s.Valid()
    ensures FileStep(s, AppendEntries(batch))
            == (status, s.(entries := grown), if grown == s.entries then [] else [ReplaceLog(LogFile(grown))])
    ensures s.(entries := grown).Valid()
  {
    hide Store.Step, Store.Valid, LogFile, Within, Oversized;
    AppendStepFacts(s, batch);
    WithinLimit(batch);
    status, grown := PlanAppend(s, batch, Some(PAYLOAD_LIMIT));
  }

  /** The entries a truncation keeps; the file is only replaced when some are dropped. */
  method PlanTruncation(s: Store, index: LogIndex) returns (status: Status, kept: seq<LogEntry>)
    requires s.Valid()
    ensures FileStep(s, TruncateSuffix(index))
            == (status, s.(entries := kept), if kept == s.entries then [] else [ReplaceLog(LogFile(kept))])
    ensures s.(entries := kept).Valid()
  {
    hide LogFile, Store.Valid, Contiguous, Store.Step, FileStep;
    LastOfContiguous(s);
    TruncateStepValid(s, index);
    ContiguousEntries(s);
    TruncationStep(s, index);
    kept := s.entries;
    if index <= s.hard.commitIndex {
      return InvalidArgument, kept;
    }
    if index > s.LastLogIndex() + 1 {
      return InvalidArgument, kept;
    }
    if index > s.LastLogIndex() {
      return Ok, kept;
    }
    CommittedPastSnapshot(s);
    kept := EntriesBefore(s.entries, index, s.SnapshotIndex());
    status := Ok;
  }

  /** What a truncation comes to, with its replacement. */
  lemma TruncationStep(s: Store, index: LogIndex)
    requires s.Valid()
    ensures s.SnapshotIndex() <= s.hard.commitIndex && s.LastLogIndex() == s.SnapshotIndex() + |s.entries|
    ensures FileStep(s, TruncateSuffix(index))
            == if index <= s.hard.commitIndex || index > s.LastLogIndex() + 1 then (InvalidArgument, s, [])
               else if index == s.LastLogIndex() + 1 then (Ok, s, [])
               else
                 var kept := s.entries[..index - s.SnapshotIndex() - 1];
                 (Ok, s.(entries := kept), if kept == s.entries then [] else [ReplaceLog(LogFile(kept))])
    ensures s.Step(TruncateSuffix(index)).0 == Ok && index <= s.LastLogIndex() ==>
              s.Step(TruncateSuffix(index)).1 == s.(entries := s.entries[..index - s.SnapshotIndex() - 1])
    ensures s.Step(TruncateSuffix(index)).0 == Ok <==> s.hard.commitIndex < index <= s.LastLogIndex() + 1
  {
    LastOfContiguous(s);
    CommittedPastSnapshot(s);
    hide LogFile, Store.Valid, Contiguous;
    assert s.entries[..|s.entries|] == s.entries;
  }

  lemma CommittedPastSnapshot(s: Store)
    requires s.Valid()
    ensures s.SnapshotIndex() <= s.hard.commitIndex
  {
  }

  /** Validation, encoding and the entries to keep, before anything is replaced. */
  method PlanSnapshot(s: Store, snapshot: Snapshot) returns (status: Status, bytes: Bytes, kept: seq<LogEntry>)
    requires s.Valid()
    ensures FileStep(s, SaveSnapshot(snapshot))
            == if status != Ok then (status, s, [])
               else (Ok, Store(s.hard, kept, Some(snapshot)), [ReplaceSnapshot(bytes), ReplaceLog(LogFile(kept))])
    ensures status == Ok ==> s.Step(SaveSnapshot(snapshot)).1 == Store(s.hard, kept, Some(snapshot))
  {
    hide Store.Step, Store.Valid, LogFile, Snapshots.Encode, FileStep;
    SnapshotStepFacts(s, snapshot);
    SnapshotFileStep(s, snapshot);
    EncodeError(snapshot);
    bytes, kept := [], [];
    status := ValidateSnapshot(s, snapshot);
    if status != Ok {
      return;
    }
    var encoded := Snapshots.EncodeSnapshotData(snapshot);
    if encoded.Failure? {
      return encoded.error, [], [];
    }
    ContiguousEntries(s);
    bytes := encoded.value;
    kept := EntriesAfter(s.entries, snapshot.index, s.SnapshotIndex());
  }

  lemma WithinLimit(batch: seq<LogEntry>)
    ensures Within(batch, Some(PAYLOAD_LIMIT)) <==> !Oversized(batch)
  {
  }

  lemma ContiguousEntries(s: Store)
    requires s.Valid()
    ensures Contiguous(s.entries, s.SnapshotIndex() + 1)
  {
  }
}
