/** The loops both storages run before they change anything. */
module StorageChecks {
  import opened Common
  import opened RaftTypes
  import opened StorageModel

  /** `ValidateEntryBatch`; payloads longer than `limit` are refused. */
  method ValidateEntryBatch(s: Store, batch: seq<LogEntry>, limit: Option<nat>) returns (status: Status)
    requires s.Valid()
    ensures status == if batch == [] || (s.GoodBatch(batch) && Within(batch, limit)) then Ok else InvalidArgument
  {
    if batch == [] {
      return Ok;
    }
    for i := 0 to |batch|
      invariant Contiguous(batch[..i], batch[0].index)
      invariant Within(batch[..i], limit)
      invariant i > 0 ==> batch[0].index > s.SnapshotIndex()
    {
      assert batch[..i + 1] == batch[..i] + [batch[i]];
      if batch[i].index <= s.SnapshotIndex() || batch[i].term == 0 {
        BadEntry(s, batch, i);
        return InvalidArgument;
      }
      if limit.Some? && |batch[i].payload| > limit.value {
        return InvalidArgument;
      }
      if i > 0 && batch[i].index != batch[i - 1].index + 1 {
        return InvalidArgument;
      }
    }
    assert batch[..|batch|] == batch;
    return if batch[0].index > s.LastLogIndex() + 1 then InvalidArgument else Ok;
  }

  ghost predicate Within(batch: seq<LogEntry>, limit: Option<nat>) {
    limit.Some? ==> forall k :: 0 <= k < |batch| ==> |batch[k].payload| <= limit.value
  }

  lemma BadEntry(s: Store, batch: seq<LogEntry>, i: nat)
    requires i < |batch| && (batch[i].index <= s.SnapshotIndex() || batch[i].term == 0)
    ensures !s.GoodBatch(batch)
  {
  }

  /** Compares the overlap with the log; the position of the first entry the log does not reach. */
  method FirstNewEntry(s: Store, batch: seq<LogEntry>) returns (status: Status, start: nat)
    requires s.Valid() && batch != [] && s.GoodBatch(batch)
    ensures status == if s.Repeats(batch) then Ok else InvalidArgument
    ensures status == Ok ==> start <= |batch| && s.Extended(batch) == s.entries + batch[start..]
  {
    LastOfContiguous(s);
    start := 0;
    hide Store.Valid;
    while start < |batch| && batch[start].index <= s.LastLogIndex()
      invariant start <= |batch|
      invariant start > 0 ==> batch[start - 1].index <= s.LastLogIndex()
      invariant forall k :: 0 <= k < start ==> s.SnapshotIndex() < batch[k].index <= s.LastLogIndex() && s.At(batch[k].index) == batch[k]
    {
      if !s.HasEntry(batch[start].index) || s.At(batch[start].index) != batch[start] {
        return InvalidArgument, start;
      }
      start := start + 1;
    }
    status := Ok;
    assert start < |batch| ==> batch[start].index == batch[0].index + start;
  }

  /** The log after accepting a batch of entries; unchanged when the batch is refused. */
  method PlanAppend(s: Store, batch: seq<LogEntry>, limit: Option<nat>) returns (status: Status, grown: seq<LogEntry>)
    requires s.Valid()
    ensures if batch != [] && !Within(batch, limit) then status == InvalidArgument && grown == s.entries
            else (status, s.(entries := grown)) == s.Step(AppendEntries(batch))
  {
    hide Store.Valid, Store.GoodBatch, Store.Repeats, Store.Extended, Store.Step, Within;
    AppendStepFacts(s, batch);
    grown := s.entries;
    status := ValidateEntryBatch(s, batch, limit);
    if status != Ok || batch == [] {
      return;
    }
    var start: nat;
    status, start := FirstNewEntry(s, batch);
    if status == Ok {
      grown := s.entries + batch[start..];
    }
  }

  method EntriesAfter(entries: seq<LogEntry>, index: LogIndex, ghost boundary: LogIndex) returns (kept: seq<LogEntry>)
    requires Contiguous(entries, boundary + 1) && boundary <= index <= boundary + |entries|
    ensures kept == entries[index - boundary..]
  {
    kept := [];
    for i := 0 to |entries|
      invariant kept == if i + boundary <= index then [] else entries[index - boundary..i]
    {
      if entries[i].index > index {
        kept := kept + [entries[i]];
      }
    }
  }

  method EntriesBefore(entries: seq<LogEntry>, index: LogIndex, ghost boundary: LogIndex) returns (kept: seq<LogEntry>)
    requires Contiguous(entries, boundary + 1) && boundary < index <= boundary + |entries| + 1
    ensures kept == entries[..index - boundary - 1]
  {
    kept := [];
    for i := 0 to |entries|
      invariant kept == entries[..Min(i, index - boundary - 1)]
    {
      if entries[i].index < index {
        kept := kept + [entries[i]];
      }
    }
  }

  /** `GetTerm` against the snapshot that is to be saved. */
  method ValidateSnapshot(s: Store, snapshot: Snapshot) returns (status: Status)
    requires s.Valid()
    ensures status == s.Step(SaveSnapshot(snapshot)).0
  {
    LastOfContiguous(s);
    if snapshot.index == 0 || snapshot.term == 0 {
      return InvalidArgument;
    }
    if snapshot.index < s.SnapshotIndex() || snapshot.index > s.hard.commitIndex {
      return InvalidArgument;
    }
    var stored := s.TermOf(snapshot.index);
    if stored.Failure? {
      return stored.error;
    }
    return if stored.value != snapshot.term then InvalidArgument else Ok;
  }
}
