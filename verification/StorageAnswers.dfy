/**
 Which operations a storage accepts and what it then holds, stated on its entries; that the durable storage
 gives exactly that back when it is opened again; and that it takes whatever a running node has to save.
 */
module StorageAnswers {
  import opened Common
  import opened RaftTypes
  import opened StorageModel
  import opened FileStorageModel
  import opened FileRecovery
  import NodeModel
  import NodeRuns

  /** The index of the last entry, or of the snapshot when there is none after it. */
  ghost function LastIndex(s: Store): LogIndex {
    (if s.snapshot.Some? then s.snapshot.value.index else 0) + |s.entries|
  }

  /** A hard state is saved if and only if term and commit index do not fall and the log reaches the commit index. */
  lemma HardStateSavedIff(s: Store, h: HardState)
    requires s.Valid()
    ensures var (status, after) := s.Step(SaveHardState(h));
            && (status == Ok <==> && h.currentTerm >= s.hard.currentTerm && h.commitIndex >= s.hard.commitIndex
                                  && h.commitIndex <= LastIndex(s))
            && after == (if status == Ok then Store(h, s.entries, s.snapshot) else s)
            && (status != Ok ==> status == InvalidArgument)
  {
    LastOfContiguous(s);
    hide Contiguous;
  }

  /** The entry at an index of the log. */
  ghost function EntryAt(s: Store, index: LogIndex): LogEntry
    requires LastIndex(s) - |s.entries| < index <= LastIndex(s)
  {
    s.entries[index - (LastIndex(s) - |s.entries|) - 1]
  }

  /** Consecutive entries of positive terms that start in the log or right after it, where they repeat it. */
  ghost predicate Continues(s: Store, batch: seq<LogEntry>)
    requires batch != []
  {
    && LastIndex(s) - |s.entries| < batch[0].index <= LastIndex(s) + 1
    && (forall k :: 0 <= k < |batch| ==> batch[k].index == batch[0].index + k && batch[k].term > 0)
    && (forall k :: 0 <= k < |batch| && LastIndex(s) - |s.entries| < batch[k].index <= LastIndex(s) ==>
          EntryAt(s, batch[k].index) == batch[k])
  }

  /** A batch is taken if and only if it continues the log; the log then has all of it and nothing else new. */
  lemma BatchSavedIff(s: Store, batch: seq<LogEntry>)
    requires s.Valid()
    ensures var (status, after) := s.Step(AppendEntries(batch));
            && (status == Ok <==> batch == [] || Continues(s, batch))
            && after == s.(entries := after.entries)
            && (status == Ok && batch != [] ==>
                  && s.entries <= after.entries
                  && LastIndex(after) == Max(LastIndex(s), batch[|batch| - 1].index)
                  && forall k :: 0 <= k < |batch| ==>
                       LastIndex(after) - |after.entries| < batch[k].index <= LastIndex(after)
                       && EntryAt(after, batch[k].index) == batch[k])
            && (status != Ok || batch == [] ==> after == s)
            && (status != Ok ==> status == InvalidArgument)
  {
    AppendStepFacts(s, batch);
    hide Store.Step, Store.Valid, Contiguous, Store.GoodBatch, Store.Repeats, Store.Extended, Continues, EntryAt, LastIndex;
    if batch != [] {
      ContinuesIff(s, batch);
      if Continues(s, batch) {
        ExtendedHolds(s, batch);
      }
    }
  }

  lemma ExtendedHolds(s: Store, batch: seq<LogEntry>)
    requires s.Valid() && batch != [] && s.GoodBatch(batch) && s.Repeats(batch)
    ensures var after := s.(entries := s.Extended(batch));
            && s.entries <= after.entries
            && LastIndex(after) == Max(LastIndex(s), batch[|batch| - 1].index)
            && forall k :: 0 <= k < |batch| ==>
                 LastIndex(after) - |after.entries| < batch[k].index <= LastIndex(after)
                 && EntryAt(after, batch[k].index) == batch[k]
  {
    ExtendedEnd(s, batch);
    hide Store.Valid, Contiguous, Store.GoodBatch, Store.Repeats, Store.Extended, EntryAt, LastIndex;
    var after := s.(entries := s.Extended(batch));
    forall k | 0 <= k < |batch|
      ensures LastIndex(after) - |after.entries| < batch[k].index <= LastIndex(after)
              && EntryAt(after, batch[k].index) == batch[k]
    {
      ExtendedEntry(s, batch, k);
    }
  }

  lemma ExtendedEnd(s: Store, batch: seq<LogEntry>)
    requires s.Valid() && batch != [] && s.GoodBatch(batch) && s.Repeats(batch)
    ensures s.entries <= s.Extended(batch)
    ensures LastIndex(s.(entries := s.Extended(batch))) == Max(LastIndex(s), batch[|batch| - 1].index)
  {
    ExtendedFacts(s, batch);
    hide Store.Valid, Contiguous, Store.GoodBatch, Store.Repeats, Store.Extended;
  }

  lemma ExtendedEntry(s: Store, batch: seq<LogEntry>, k: nat)
    requires s.Valid() && batch != [] && s.GoodBatch(batch) && s.Repeats(batch) && k < |batch|
    ensures var after := s.(entries := s.Extended(batch));
            LastIndex(after) - |after.entries| < batch[k].index <= LastIndex(after)
            && EntryAt(after, batch[k].index) == batch[k]
  {
    hide Store.Valid, Contiguous, Store.GoodBatch, Store.Repeats, Store.Extended, Store.SnapshotIndex, Store.LastLogIndex,
         EntryAt, LastIndex;
    BatchEntry(s, batch, k);
    PlaceOfEntry(s, s.Extended(batch), batch[k].index);
  }

  lemma PlaceOfEntry(s: Store, longer: seq<LogEntry>, index: LogIndex)
    requires 0 <= index - s.SnapshotIndex() - 1 < |longer|
    ensures var after := s.(entries := longer);
            LastIndex(after) - |after.entries| < index <= LastIndex(after)
            && EntryAt(after, index) == longer[index - s.SnapshotIndex() - 1]
  {
  }

  lemma ContinuesIff(s: Store, batch: seq<LogEntry>)
    requires s.Valid() && batch != []
    ensures Continues(s, batch) <==> s.GoodBatch(batch) && s.Repeats(batch)
  {
    LastOfContiguous(s);
  }

  /** A suffix is cut if and only if it starts above the commit index and no later than right after the log. */
  lemma SuffixCutIff(s: Store, index: LogIndex)
    requires s.Valid()
    ensures var (status, after) := s.Step(TruncateSuffix(index));
            && (status == Ok <==> s.hard.commitIndex < index <= LastIndex(s) + 1)
            && after == s.(entries := after.entries)
            && (status == Ok ==> after.entries <= s.entries && LastIndex(after) == index - 1)
            && (status != Ok ==> after == s && status == InvalidArgument)
  {
    LastOfContiguous(s);
    hide Contiguous;
  }

  /** The term the storage remembers for an index it has compacted up to, or still holds. */
  ghost predicate HasTerm(s: Store, index: LogIndex, term: Term) {
    if s.snapshot.Some? && index == s.snapshot.value.index then term == s.snapshot.value.term
    else LastIndex(s) - |s.entries| < index <= LastIndex(s) && EntryAt(s, index).term == term
  }

  /**
   A snapshot is taken if and only if it ends at a committed entry, of the right term, not before the last
   one; the storage then holds it and exactly the entries after it.
   */
  lemma SnapshotSavedIff(s: Store, snapshot: Snapshot)
    requires s.Valid()
    ensures var (status, after) := s.Step(SaveSnapshot(snapshot));
            && (status == Ok <==> && 0 < snapshot.index <= s.hard.commitIndex && snapshot.index >= LastIndex(s) - |s.entries|
                                  && snapshot.term > 0 && HasTerm(s, snapshot.index, snapshot.term))
            && (status != Ok ==> after == s)
            && (status == Ok ==>
                  && after.hard == s.hard && after.snapshot == Some(snapshot) && LastIndex(after) == LastIndex(s)
                  && forall i :: snapshot.index < i <= LastIndex(s) ==> EntryAt(after, i) == EntryAt(s, i))
  {
    SnapshotTakenIff(s, snapshot);
    SnapshotStepFacts(s, snapshot);
    hide Store.Step, Store.Valid, HasTerm;
  }

  lemma SnapshotTakenIff(s: Store, snapshot: Snapshot)
    requires s.Valid()
    ensures s.Step(SaveSnapshot(snapshot)).0 == Ok
            <==> && 0 < snapshot.index <= s.hard.commitIndex && snapshot.index >= LastIndex(s) - |s.entries|
                 && snapshot.term > 0 && HasTerm(s, snapshot.index, snapshot.term)
  {
    LastOfContiguous(s);
    hide Contiguous;
  }

  // ---------------------------------------------------------------- after reopening

  /**
   An operation the durable storage accepts survives: closing it and loading its files gives the store that
   the operation left, and a refused one leaves what was there.
   */
  lemma OperationReloads(f: Files, op: Op)
    requires Sound(f) && OpFits(op)
    ensures var (status, after, writes) := FileStep(f.store, op);
            && status == f.store.Step(op).0
            && Load(WrittenAll(f.disk, writes)).0 == Success(after)
            && after == f.store.Step(op).1
  {
    hide FileStep, Load, Represents, Storable, Store.Valid, Store.Step, OpFits, WrittenAll;
    SameAsMemory(f.store, op);
    PerformSoundly(f, op);
    LoadRepresented(WrittenAll(f.disk, FileStep(f.store, op).2), f.store.Step(op).1);
  }

  /** In particular a saved vote, term or commit index is there again, with the log and the snapshot as before. */
  lemma HardStateReloads(f: Files, h: HardState)
    requires Sound(f) && HardFits(h)
    ensures var (status, _, writes) := FileStep(f.store, SaveHardState(h));
            var accepted := && h.currentTerm >= f.store.hard.currentTerm && h.commitIndex >= f.store.hard.commitIndex
                            && h.commitIndex <= LastIndex(f.store);
            && (status == Ok <==> accepted)
            && Load(WrittenAll(f.disk, writes)).0
               == Success(if accepted then Store(h, f.store.entries, f.store.snapshot) else f.store)
  {
    hide FileStep, Load, Represents, Storable, Store.Valid, Store.Step, WrittenAll;
    HardStateSavedIff(f.store, h);
    OperationReloads(f, SaveHardState(h));
  }

  // ---------------------------------------------------------------- what a node has to save

  /**
   A storage that holds a node's hard state accepts whatever hard state the node has after any further run of
   calls, a new vote in an old term included, as soon as the log it stores reaches the commit index.
   */
  lemma NodeStateIsAccepted(s: Store, n: NodeModel.Node, calls: seq<NodeRuns.Call>)
    requires s.Valid() && n.Valid() && s.hard == n.hard
    requires NodeRuns.Run(n, calls).log.commitIndex <= LastIndex(s)
    ensures s.Step(SaveHardState(NodeRuns.Run(n, calls).hard))
            == (Ok, Store(NodeRuns.Run(n, calls).hard, s.entries, s.snapshot))
  {
    hide Store.Valid, Store.Step, NodeRuns.Run;
    NodeRuns.RunContinues(n, calls);
    HardStateSavedIff(s, NodeRuns.Run(n, calls).hard);
  }
}
