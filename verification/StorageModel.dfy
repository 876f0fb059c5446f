/** What a Raft storage keeps, and the effect of each operation: the specification of both storages. */
module StorageModel {
  import opened Common
  import opened RaftTypes

  datatype Snapshot = Snapshot(index: LogIndex, term: Term, membership: Membership, payload: Bytes)

  const NO_HARD_STATE := HardState(0, 0, 0, 0)

  datatype Op =
    | SaveHardState(hard: HardState)
    | AppendEntries(batch: seq<LogEntry>)
    | TruncateSuffix(index: LogIndex)
    | SaveSnapshot(snapshot: Snapshot)

  /** Entries from `index` on, one index after the other, of positive terms. */
  ghost predicate Contiguous(entries: seq<LogEntry>, index: LogIndex) {
    forall k :: 0 <= k < |entries| ==> entries[k].index == index + k && entries[k].term > 0
  }

  datatype Store = Store(hard: HardState, entries: seq<LogEntry>, snapshot: Option<Snapshot>) {
    function SnapshotIndex(): LogIndex {
      if snapshot.Some? then snapshot.value.index else 0
    }

    function LastLogIndex(): LogIndex {
      if entries == [] then SnapshotIndex() else entries[|entries| - 1].index
    }

    ghost predicate Valid() {
      && Contiguous(entries, SnapshotIndex() + 1)
      && SnapshotIndex() <= hard.commitIndex <= LastLogIndex()
      && (snapshot.Some? ==> snapshot.value.index > 0 && snapshot.value.term > 0)
    }

    predicate HasEntry(index: LogIndex) {
      entries != [] && SnapshotIndex() + 1 <= index <= LastLogIndex()
    }

    /** The entry with this index; the storage holds entries from the snapshot boundary on. */
    function At(index: LogIndex): LogEntry
      requires SnapshotIndex() < index <= SnapshotIndex() + |entries|
    {
      entries[index - SnapshotIndex() - 1]
    }

    /** `GetTerm`. */
    function TermOf(index: LogIndex): Result<Term>
      requires entries != [] ==> LastLogIndex() <= SnapshotIndex() + |entries|
    {
      if index == 0 then Success(0)
      else if snapshot.Some? && index == SnapshotIndex() then Success(snapshot.value.term)
      else if !HasEntry(index) then Failure(NotFound)
      else Success(At(index).term)
    }

    // -------------------------------------------------------------- operations

    /** `ValidateEntryBatch`, of a batch that is not empty. */
    ghost predicate GoodBatch(batch: seq<LogEntry>)
      requires batch != []
    {
      SnapshotIndex() < batch[0].index <= LastLogIndex() + 1 && Contiguous(batch, batch[0].index)
    }

    /** Every entry of the batch the log already reaches is the entry of the log. */
    ghost predicate Repeats(batch: seq<LogEntry>)
      requires Valid()
    {
      forall k :: 0 <= k < |batch| && SnapshotIndex() < batch[k].index <= LastLogIndex() ==> At(batch[k].index) == batch[k]
    }

    /** The log after accepting a batch: what was there up to its start, then the longer of the two tails. */
    ghost function Extended(batch: seq<LogEntry>): seq<LogEntry>
      requires Valid() && batch != [] && GoodBatch(batch)
    {
      var held := LastLogIndex() + 1 - batch[0].index;
      if held >= |batch| then entries else entries + batch[held..]
    }

    ghost function Step(op: Op): (Status, Store)
      requires Valid()
    {
      match op
      case SaveHardState(h) =>
        if h.currentTerm < hard.currentTerm || h.commitIndex < hard.commitIndex || h.commitIndex > LastLogIndex()
        then (InvalidArgument, this) else (Ok, this.(hard := h))
      case AppendEntries(batch) =>
        if batch == [] then (Ok, this)
        else if !GoodBatch(batch) || !Repeats(batch) then (InvalidArgument, this)
        else (Ok, this.(entries := Extended(batch)))
      case TruncateSuffix(index) =>
        if index <= hard.commitIndex || index > LastLogIndex() + 1 then (InvalidArgument, this)
        else (Ok, this.(entries := entries[..index - SnapshotIndex() - 1]))
      case SaveSnapshot(s) =>
        if s.index == 0 || s.term == 0 || s.index < SnapshotIndex() || s.index > hard.commitIndex
        then (InvalidArgument, this)
        else if TermOf(s.index).Failure? then (TermOf(s.index).error, this)
        else if TermOf(s.index).value != s.term then (InvalidArgument, this)
        else (Ok, this.(snapshot := Some(s), entries := entries[s.index - SnapshotIndex()..]))
    }
  }

  const EMPTY_STORE := Store(NO_HARD_STATE, [], None)

  // ---------------------------------------------------------------- every operation keeps the store valid

  lemma LastOfContiguous(s: Store)
    requires s.Valid()
    ensures s.LastLogIndex() == s.SnapshotIndex() + |s.entries|
  {
  }

  lemma BatchEntry(s: Store, batch: seq<LogEntry>, k: nat)
    requires s.Valid() && batch != [] && s.GoodBatch(batch) && s.Repeats(batch) && k < |batch|
    ensures var at := batch[k].index - s.SnapshotIndex() - 1;
            0 <= at < |s.Extended(batch)| && s.Extended(batch)[at] == batch[k]
  {
    LastOfContiguous(s);
    assert batch[k].index == batch[0].index + k;
    hide Store.Valid, Contiguous;
    if batch[k].index <= s.LastLogIndex() {
      assert s.At(batch[k].index) == batch[k];
    } else {
      var held := s.LastLogIndex() + 1 - batch[0].index;
      assert batch[held..][k - held] == batch[k];
    }
  }

  lemma ExtendedContiguous(s: Store, batch: seq<LogEntry>)
    requires s.Valid() && batch != [] && s.GoodBatch(batch)
    ensures Contiguous(s.Extended(batch), s.SnapshotIndex() + 1)
    ensures s.entries <= s.Extended(batch)
  {
    LastOfContiguous(s);
  }

  /** An accepted batch is in the log afterwards, every entry at its index, and nothing else changed. */
  lemma ExtendedFacts(s: Store, batch: seq<LogEntry>)
    requires s.Valid() && batch != [] && s.GoodBatch(batch) && s.Repeats(batch)
    ensures var longer := s.Extended(batch);
            && Contiguous(longer, s.SnapshotIndex() + 1)
            && s.entries <= longer
            && |longer| == Max(|s.entries|, batch[|batch| - 1].index - s.SnapshotIndex())
            && (forall k :: 0 <= k < |batch| ==>
                  var at := batch[k].index - s.SnapshotIndex() - 1; 0 <= at < |longer| && longer[at] == batch[k])
  {
    ExtendedContiguous(s, batch);
    LastOfContiguous(s);
    forall k | 0 <= k < |batch|
      ensures var at := batch[k].index - s.SnapshotIndex() - 1;
              0 <= at < |s.Extended(batch)| && s.Extended(batch)[at] == batch[k]
    {
      BatchEntry(s, batch, k);
    }
    assert batch[|batch| - 1].index == batch[0].index + |batch| - 1;
    hide Store.Valid, Contiguous, Store.Repeats;
  }

  lemma DropKeepsContiguous(entries: seq<LogEntry>, index: LogIndex, n: nat)
    requires Contiguous(entries, index) && n <= |entries|
    ensures Contiguous(entries[n..], index + n)
  {
  }

  /** What an accepted snapshot leaves: the entries after it. */
  ghost function Dropped(s: Store, snapshot: Snapshot): Store
    requires s.SnapshotIndex() <= snapshot.index <= s.SnapshotIndex() + |s.entries|
  {
    Store(s.hard, s.entries[snapshot.index - s.SnapshotIndex()..], Some(snapshot))
  }

  lemma SnapshotStepResult(s: Store, snapshot: Snapshot)
    requires s.Valid() && s.Step(SaveSnapshot(snapshot)).0 == Ok
    ensures 0 < snapshot.index && 0 < snapshot.term
    ensures s.SnapshotIndex() <= snapshot.index <= s.hard.commitIndex
    ensures snapshot.index <= s.SnapshotIndex() + |s.entries|
    ensures s.Step(SaveSnapshot(snapshot)).1 == Dropped(s, snapshot)
  {
    LastOfContiguous(s);
    hide Contiguous;
  }

  lemma DroppedValid(s: Store, snapshot: Snapshot)
    requires s.Valid() && 0 < snapshot.index && 0 < snapshot.term
    requires s.SnapshotIndex() <= snapshot.index <= s.hard.commitIndex
    requires snapshot.index <= s.SnapshotIndex() + |s.entries|
    ensures Dropped(s, snapshot).Valid()
  {
    DropKeepsContiguous(s.entries, s.SnapshotIndex() + 1, snapshot.index - s.SnapshotIndex());
    LastOfContiguous(s);
    LastOfDropped(s, snapshot);
    hide Contiguous, Store.LastLogIndex;
  }

  lemma SnapshotStepValid(s: Store, snapshot: Snapshot)
    requires s.Valid()
    ensures s.Step(SaveSnapshot(snapshot)).1.Valid()
    ensures s.Step(SaveSnapshot(snapshot)).0 != Ok ==> s.Step(SaveSnapshot(snapshot)).1 == s
  {
    if s.Step(SaveSnapshot(snapshot)).0 == Ok {
      hide Store.Step, Store.Valid;
      SnapshotStepResult(s, snapshot);
      DroppedValid(s, snapshot);
    } else {
      hide Store.Valid, Contiguous;
    }
  }

  lemma LastOfDropped(s: Store, snapshot: Snapshot)
    requires s.Valid() && s.SnapshotIndex() <= snapshot.index <= s.SnapshotIndex() + |s.entries|
    ensures Dropped(s, snapshot).LastLogIndex() == s.SnapshotIndex() + |s.entries|
  {
  }

  lemma TruncateStepValid(s: Store, index: LogIndex)
    requires s.Valid()
    ensures s.Step(TruncateSuffix(index)).1.Valid()
  {
    LastOfContiguous(s);
  }

  lemma AppendStepValid(s: Store, batch: seq<LogEntry>)
    requires s.Valid()
    ensures s.Step(AppendEntries(batch)).1.Valid()
  {
    hide Store.Valid, Store.Extended, Contiguous, Store.GoodBatch, Store.Repeats;
    if batch != [] && s.GoodBatch(batch) && s.Repeats(batch) {
      ExtendedContiguous(s, batch);
      StillValid(s, s.Extended(batch));
    }
  }

  lemma StillValid(s: Store, longer: seq<LogEntry>)
    requires s.Valid() && s.entries <= longer && Contiguous(longer, s.SnapshotIndex() + 1)
    ensures s.(entries := longer).Valid()
  {
  }

  lemma StepValid(s: Store, op: Op)
    requires s.Valid()
    ensures s.Step(op).1.Valid()
    ensures s.Step(op).0 != Ok ==> s.Step(op).1 == s
  {
    match op
    case SaveHardState(_) =>
    case AppendEntries(batch) => AppendStepValid(s, batch);
    case TruncateSuffix(index) => TruncateStepValid(s, index);
    case SaveSnapshot(snapshot) => SnapshotStepValid(s, snapshot);
  }

  lemma SnapshotStepFacts(s: Store, snapshot: Snapshot)
    requires s.Valid()
    ensures var (status, after) := s.Step(SaveSnapshot(snapshot));
            && after.Valid()
            && (status != Ok ==> after == s)
            && (status == Ok ==>
                  && 0 < snapshot.index && s.SnapshotIndex() <= snapshot.index <= s.hard.commitIndex
                  && snapshot.index <= s.SnapshotIndex() + |s.entries|
                  && snapshot.term > 0
                  && after == Store(s.hard, s.entries[snapshot.index - s.SnapshotIndex()..], Some(snapshot)))
  {
    hide Store.Step, Store.Valid;
    SnapshotStepValid(s, snapshot);
    if s.Step(SaveSnapshot(snapshot)).0 == Ok {
      SnapshotStepResult(s, snapshot);
    }
  }

  lemma AppendStepFacts(s: Store, batch: seq<LogEntry>)
    requires s.Valid()
    ensures var (status, after) := s.Step(AppendEntries(batch));
            && after.Valid()
            && (status != Ok || batch == [] ==> after == s)
            && (status == Ok <==> batch == [] || (s.GoodBatch(batch) && s.Repeats(batch)))
            && (status == Ok && batch != [] ==> after == s.(entries := s.Extended(batch)))
            && (status != Ok ==> status == InvalidArgument)
  {
    AppendStepValid(s, batch);
    hide Store.Valid, Store.GoodBatch, Store.Repeats, Store.Extended;
  }

  /** An entry at or below the commit index is never rewritten, and only a snapshot hides it. */
  ghost predicate Keeps(s: Store, after: Store, index: LogIndex)
    requires s.Valid() && after.Valid() && s.SnapshotIndex() < index <= s.hard.commitIndex
  {
    && s.hard.commitIndex <= after.hard.commitIndex
    && s.SnapshotIndex() <= after.SnapshotIndex()
    && index <= s.SnapshotIndex() + |s.entries|
    && (after.SnapshotIndex() < index ==>
          index <= after.SnapshotIndex() + |after.entries| && after.At(index) == s.At(index))
    && (after.SnapshotIndex() == index ==> after.TermOf(index) == Success(s.At(index).term))
  }

  lemma PrefixKeeps(s: Store, after: Store, index: LogIndex)
    requires s.Valid() && after.Valid() && s.SnapshotIndex() < index <= s.hard.commitIndex
    requires after.hard.commitIndex >= s.hard.commitIndex && after.snapshot == s.snapshot
    requires s.entries <= after.entries || after.entries <= s.entries
    ensures Keeps(s, after, index)
  {
    LastOfContiguous(s);
    LastOfContiguous(after);
  }

  lemma SnapshotKeeps(s: Store, snapshot: Snapshot, index: LogIndex)
    requires s.Valid() && s.Step(SaveSnapshot(snapshot)).1.Valid() && s.SnapshotIndex() < index <= s.hard.commitIndex
    ensures Keeps(s, s.Step(SaveSnapshot(snapshot)).1, index)
  {
    hide Store.Step, Store.Valid, Keeps;
    SnapshotStepFacts(s, snapshot);
    if s.Step(SaveSnapshot(snapshot)).0 == Ok {
      DroppedKeeps(s, snapshot, index);
    } else {
      PrefixKeeps(s, s, index);
    }
  }

  lemma DroppedKeeps(s: Store, snapshot: Snapshot, index: LogIndex)
    requires s.Valid() && s.SnapshotIndex() <= snapshot.index <= s.SnapshotIndex() + |s.entries|
    requires Dropped(s, snapshot).Valid() && s.SnapshotIndex() < index <= s.hard.commitIndex
    requires s.Step(SaveSnapshot(snapshot)).0 == Ok
    ensures Keeps(s, Dropped(s, snapshot), index)
  {
    LastOfContiguous(s);
    hide Contiguous;
  }

  lemma StepKeepsCommitted(s: Store, op: Op, index: LogIndex)
    requires s.Valid() && s.Step(op).1.Valid() && s.SnapshotIndex() < index <= s.hard.commitIndex
    ensures Keeps(s, s.Step(op).1, index)
  {
    hide Store.Valid, Contiguous, Keeps;
    match op
    case SaveHardState(_) => PrefixKeeps(s, s.Step(op).1, index);
    case AppendEntries(batch) =>
      if batch != [] && s.GoodBatch(batch) && s.Repeats(batch) {
        ExtendedContiguous(s, batch);
      }
      hide Store.GoodBatch, Store.Repeats, Store.Extended;
      PrefixKeeps(s, s.Step(op).1, index);
    case TruncateSuffix(at) =>
      LastOfContiguous(s);
      PrefixKeeps(s, s.Step(op).1, index);
    case SaveSnapshot(snapshot) => SnapshotKeeps(s, snapshot, index);
  }
}
