/**
 The three files of the durable storage. An operation plans a list of atomic file replacements; a crash
 keeps a prefix of the list. Loading rebuilds the store from whatever is on disk.
 */
module FileStorageModel {
  import opened Common
  import opened Codec
  import opened RaftTypes
  import opened StorageModel
  import opened Records
  import Snapshots = SnapshotCodec

  // ---------------------------------------------------------------- file contents

  function HardPayload(h: HardState): Bytes {
    PutLE(h.votedFor, 8) + (PutLE(h.commitIndex, 8) + PutLE(h.configurationId, 8))
  }

  function HardRecord(h: HardState): Record {
    Record(HARD_STATE_RECORD, h.commitIndex, h.currentTerm, HardPayload(h))
  }

  function HardFile(h: HardState): Bytes {
    RecordsBytes([HardRecord(h)])
  }

  function KindCode(kind: EntryKind): nat {
    match kind
    case NoOp => 0
    case Command => 1
    case MembershipChange => 2
  }

  function KindOf(code: nat): EntryKind
    requires code <= 2
  {
    if code == 0 then NoOp else if code == 1 then Command else MembershipChange
  }

  function EntryRecord(e: LogEntry): Record {
    Record(LOG_ENTRY_RECORD, e.index, e.term, PutLE(KindCode(e.kind), 4) + e.payload)
  }

  function EntryRecords(entries: seq<LogEntry>): (rs: seq<Record>)
    ensures |rs| == |entries|
    ensures forall k :: 0 <= k < |entries| ==> rs[k] == EntryRecord(entries[k])
  {
    if entries == [] then [] else [EntryRecord(entries[0])] + EntryRecords(entries[1..])
  }

  function LogFile(entries: seq<LogEntry>): Bytes {
    RecordsBytes(EntryRecords(entries))
  }

  datatype Disk = Disk(hardFile: Bytes, logFile: Bytes, snapshotFile: Option<Bytes>)

  /** What `Open` finds in a new directory after creating the two files. */
  const NEW_DISK := Disk([], [], None)

  // ---------------------------------------------------------------- loading

  /** An absent or empty file is the initial hard state. */
  function DecodeHard(b: Bytes): Result<HardState> {
    if b == [] then Success(NO_HARD_STATE) else
    var records := DecodeRecords(b, false);
    if records.Failure? then Failure(records.error)
    else if |records.value.0| != 1 || records.value.0[0].kind != HARD_STATE_RECORD then Failure(Corruption)
    else
      var r := records.value.0[0];
      if |r.payload| != 24 then Failure(Corruption)
      else
        var h := HardState(r.term, Field(r.payload, 0, 8), Field(r.payload, 8, 8), Field(r.payload, 16, 8));
        if r.index != h.commitIndex then Failure(Corruption) else Success(h)
  }

  function DecodeEntry(r: Record): Result<LogEntry> {
    if r.kind != LOG_ENTRY_RECORD || r.index == 0 || r.term == 0 || |r.payload| < 4 then Failure(Corruption)
    else if Field(r.payload, 0, 4) > 2 then Failure(Corruption)
    else Success(LogEntry(r.index, r.term, KindOf(Field(r.payload, 0, 4)), r.payload[4..]))
  }

  /** Skips entries the snapshot covers; the others must follow one another from `next` on. */
  function Collect(rs: seq<Record>, boundary: LogIndex, next: LogIndex): Result<seq<LogEntry>> {
    if rs == [] then Success([]) else
    var e := DecodeEntry(rs[0]);
    if e.Failure? then Failure(e.error)
    else if e.value.index <= boundary then Collect(rs[1..], boundary, next)
    else if e.value.index != next then Failure(Corruption)
    else
      var others := Collect(rs[1..], boundary, next + 1);
      if others.Failure? then others else Success([e.value] + others.value)
  }

  function DecodeLog(b: Bytes, boundary: LogIndex): Result<(seq<LogEntry>, bool)> {
    var records := DecodeRecords(b, true);
    if records.Failure? then Failure(records.error) else
    var entries := Collect(records.value.0, boundary, boundary + 1);
    if entries.Failure? then Failure(entries.error) else Success((entries.value, records.value.1))
  }

  function DecodeSnapshot(file: Option<Bytes>): Result<Option<Snapshot>> {
    if file.None? then Success(None) else
    var s := Snapshots.Decode(file.value);
    if s.Failure? then Failure(s.error) else Success(Some(s.value))
  }

  /** `LoadFromDisk`; an incomplete log tail is cut off on disk before the commit index is checked. */
  function Load(d: Disk): (Result<Store>, Disk) {
    var snapshot := DecodeSnapshot(d.snapshotFile);
    if snapshot.Failure? then (Failure(snapshot.error), d) else
    var hard := DecodeHard(d.hardFile);
    if hard.Failure? then (Failure(hard.error), d) else
    var boundary := if snapshot.value.Some? then snapshot.value.value.index else 0;
    var log := DecodeLog(d.logFile, boundary);
    if log.Failure? then (Failure(log.error), d) else
    var (entries, torn) := log.value;
    var s := Store(hard.value, entries, snapshot.value);
    var repaired := if torn then d.(logFile := LogFile(entries)) else d;
    if s.hard.commitIndex > s.LastLogIndex() || s.hard.commitIndex < boundary then (Failure(Corruption), repaired)
    else (Success(s), repaired)
  }

  // ---------------------------------------------------------------- writing

  datatype Write = ReplaceHard(bytes: Bytes) | ReplaceLog(bytes: Bytes) | ReplaceSnapshot(bytes: Bytes)

  function Written(d: Disk, w: Write): Disk {
    match w
    case ReplaceHard(b) => d.(hardFile := b)
    case ReplaceLog(b) => d.(logFile := b)
    case ReplaceSnapshot(b) => d.(snapshotFile := Some(b))
  }

  function WrittenAll(d: Disk, ws: seq<Write>): Disk
    decreases |ws|
  {
    if ws == [] then d else WrittenAll(Written(d, ws[0]), ws[1..])
  }

  lemma OneWrite(d: Disk, w: Write)
    ensures WrittenAll(d, [w]) == Written(d, w)
  {
  }

  lemma TwoWrites(d: Disk, v: Write, w: Write)
    ensures WrittenAll(d, [v, w]) == Written(Written(d, v), w)
  {
    assert [v, w][1..] == [w];
    OneWrite(Written(d, v), w);
  }

  ghost predicate Oversized(batch: seq<LogEntry>) {
    exists k :: 0 <= k < |batch| && |batch[k].payload| + 4 > MAX_PAYLOAD_LENGTH
  }

  /** The operations the file formats refuse although the memory storage takes them. */
  ghost predicate ExceedsLimits(op: Op) {
    match op
    case AppendEntries(batch) => Oversized(batch)
    case SaveSnapshot(s) =>
      || |s.payload| > Snapshots.MAX_SNAPSHOT_PAYLOAD
      || !Snapshots.GoodMembers(s.membership.voters) || !Snapshots.GoodMembers(s.membership.learners)
    case _ => false
  }

  /** The status, the new store and the file replacements of an operation, in order. */
  ghost function FileStep(s: Store, op: Op): (Status, Store, seq<Write>)
    requires s.Valid()
  {
    if op.AppendEntries? && op.batch != [] && Oversized(op.batch) then (InvalidArgument, s, []) else
    var (status, after) := s.Step(op);
    if status != Ok then (status, s, [])
    else match op
      case SaveHardState(h) => (Ok, after, [ReplaceHard(HardFile(h))])
      case AppendEntries(_) => (Ok, after, if after.entries == s.entries then [] else [ReplaceLog(LogFile(after.entries))])
      case TruncateSuffix(_) => (Ok, after, if after.entries == s.entries then [] else [ReplaceLog(LogFile(after.entries))])
      case SaveSnapshot(snapshot) =>
        var bytes := Snapshots.Encode(snapshot);
        if bytes.Failure? then (bytes.error, s, [])
        else (Ok, after, [ReplaceSnapshot(bytes.value), ReplaceLog(LogFile(after.entries))])
  }

  lemma EncodeError(snapshot: Snapshot)
    ensures var bytes := Snapshots.Encode(snapshot); bytes.Failure? ==> bytes.error == InvalidArgument
  {
    hide Snapshots.SnapshotBytes;
  }

  lemma SnapshotFileStep(s: Store, snapshot: Snapshot)
    requires s.Valid()
    ensures var (status, after) := s.Step(SaveSnapshot(snapshot));
            var bytes := Snapshots.Encode(snapshot);
            FileStep(s, SaveSnapshot(snapshot))
            == if status != Ok then (status, s, [])
               else if bytes.Failure? then (bytes.error, s, [])
               else (Ok, after, [ReplaceSnapshot(bytes.value), ReplaceLog(LogFile(after.entries))])
  {
    hide Store.Step, Store.Valid, LogFile, Snapshots.Encode;
  }
}
