/** The storage that keeps everything in memory. */
module MemoryStorages {
  import opened Common
  import opened RaftTypes
  import opened StorageModel
  import opened StorageChecks

  class MemoryRaftStorage {
    var open: bool
    var hard: HardState
    var entries: seq<LogEntry>
    var snapshot: Option<Snapshot>

    ghost function State(): Store
      reads this
    {
      Store(hard, entries, snapshot)
    }

    ghost predicate Valid()
      reads this
    {
      State().Valid()
    }

    constructor ()
      ensures Valid() && !open && State() == EMPTY_STORE
    {
      open := false;
      hard := NO_HARD_STATE;
      entries := [];
      snapshot := None;
    }

    method Open() returns (status: Status)
      modifies `open
      ensures status == Ok && open
    {
      open := true;
      status := Ok;
    }

    method Load() returns (status: Status, result: Store, empty: bool)
      ensures status == if open then Ok else InvalidArgument
      ensures open ==> result == State() && (empty <==> State() == EMPTY_STORE)
    {
      result := Store(hard, entries, snapshot);
      if !open {
        return InvalidArgument, result, true;
      }
      status := Ok;
      empty := entries == [] && snapshot.None? && hard.currentTerm == 0 && hard.votedFor == 0
               && hard.commitIndex == 0 && hard.configurationId == 0;
    }

    method SaveHardState(h: HardState) returns (status: Status)
      requires Valid()
      modifies `hard
      ensures Valid()
      ensures if old(open) then (status, State()) == old(State()).Step(StorageModel.SaveHardState(h))
              else status == InvalidArgument && State() == old(State())
    {
      if !open {
        return InvalidArgument;
      }
      if h.currentTerm < hard.currentTerm || h.commitIndex < hard.commitIndex {
        return InvalidArgument;
      }
      if h.commitIndex > Store(hard, entries, snapshot).LastLogIndex() {
        return InvalidArgument;
      }
      hard := h;
      status := Ok;
    }

    method AppendEntries(batch: seq<LogEntry>) returns (status: Status)
      requires Valid()
      modifies `entries
      ensures Valid()
      ensures if old(open) then (status, State()) == old(State()).Step(StorageModel.AppendEntries(batch))
              else status == InvalidArgument && State() == old(State())
    {
      if !open {
        return InvalidArgument;
      }
      hide Store.Step, Store.Valid;
      var s := Store(hard, entries, snapshot);
      AppendStepFacts(s, batch);
      status, entries := PlanAppend(s, batch, None);
    }

    method TruncateSuffix(index: LogIndex) returns (status: Status)
      requires Valid()
      modifies `entries
      ensures Valid()
      ensures if old(open) then (status, State()) == old(State()).Step(StorageModel.TruncateSuffix(index))
              else status == InvalidArgument && State() == old(State())
    {
      if !open {
        return InvalidArgument;
      }
      var s := Store(hard, entries, snapshot);
      LastOfContiguous(s);
      TruncateStepValid(s, index);
      assert entries[..|entries|] == entries;
      if index <= s.SnapshotIndex() || index <= hard.commitIndex {
        return InvalidArgument;
      }
      if index > s.LastLogIndex() + 1 {
        return InvalidArgument;
      }
      if index <= s.LastLogIndex() {
        entries := entries[..index - s.SnapshotIndex() - 1];
      }
      status := Ok;
    }

    method SaveSnapshot(s: Snapshot) returns (status: Status)
      requires Valid()
      modifies `entries, `snapshot
      ensures Valid()
      ensures if old(open) then (status, State()) == old(State()).Step(StorageModel.SaveSnapshot(s))
              else status == InvalidArgument && State() == old(State())
    {
      if !open {
        return InvalidArgument;
      }
      hide Store.Step;
      var before := Store(hard, entries, snapshot);
      SnapshotStepFacts(before, s);
      status := ValidateSnapshot(before, s);
      if status != Ok {
        return;
      }
      var kept := EntriesAfter(entries, s.index, before.SnapshotIndex());
      snapshot := Some(s);
      entries := kept;
    }
  }
}
