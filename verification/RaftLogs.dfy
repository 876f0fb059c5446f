/** The log of one node: the compacted vector of entries and its five boundary indexes. */
module RaftLogs {
  import opened Common
  import opened RaftTypes
  import opened LogModel

  class RaftLog {
    var entries: seq<LogEntry>
    var snapshotIndex: LogIndex
    var snapshotTerm: Term
    var stableIndex: LogIndex
    var commitIndex: LogIndex
    var appliedIndex: LogIndex

    /** Every entry ever appended and not truncated, compacted ones included. */
    ghost var full: seq<LogEntry>

    ghost predicate Valid()
      reads this
    {
      && State().Valid()
      && entries == full[snapshotIndex..]
      && snapshotTerm == TermAt(full, snapshotIndex)
    }

    ghost function State(): LogState
      reads this
    {
      LogState(full, snapshotIndex, stableIndex, commitIndex, appliedIndex)
    }

    constructor ()
      ensures Valid() && State() == EMPTY_LOG
    {
      entries, snapshotIndex, snapshotTerm, stableIndex, commitIndex, appliedIndex := [], 0, 0, 0, 0, 0;
      full := [];
    }

    function LastIndex(): (index: LogIndex)
      requires Valid()
      reads this
      ensures index == State().LastIndex()
    {
      if entries == [] then snapshotIndex else entries[|entries| - 1].index
    }

    function FirstIndex(): LogIndex
      reads this
    {
      snapshotIndex + 1
    }

    method ValidateEntries(batch: seq<LogEntry>, expectedStart: LogIndex) returns (status: Status)
      requires Valid()
      ensures status == if State().GoodBatch(batch, expectedStart) then Ok else InvalidArgument
    {
      if batch == [] {
        return Ok;
      }
      if batch[0].index != expectedStart {
        return InvalidArgument;
      }
      for i := 0 to |batch|
        invariant State().GoodBatch(batch[..i], expectedStart)
      {
        if batch[i].index != expectedStart + i || batch[i].index <= snapshotIndex || batch[i].term == 0 {
          return InvalidArgument;
        }
      }
      assert batch[..|batch|] == batch;
      return Ok;
    }

    /** Every internal-error branch of the source is a status this method can never return. */
    method ValidateInvariants() returns (status: Status)
      requires Valid()
      ensures status == Ok
    {
      if appliedIndex > commitIndex || commitIndex > LastIndex() || stableIndex > LastIndex() {
        return InternalError;
      }
      if snapshotIndex > LastIndex() || commitIndex < snapshotIndex {
        return InternalError;
      }
      if appliedIndex < snapshotIndex || stableIndex < snapshotIndex {
        return InternalError;
      }
      var expected := snapshotIndex + 1;
      for i := 0 to |entries|
        invariant expected == snapshotIndex + 1 + i
      {
        assert entries[i] == full[snapshotIndex + i];
        if entries[i].index != expected || entries[i].term == 0 {
          return InternalError;
        }
        expected := expected + 1;
      }
      return Ok;
    }

    method Append(batch: seq<LogEntry>) returns (status: Status)
      requires Valid()
      modifies this
      ensures Valid() && (status, State()) == old(State()).Append(batch)
    {
      if batch == [] {
        return Ok;
      }
      status := ValidateEntries(batch, LastIndex() + 1);
      if status != Ok {
        return;
      }
      entries := entries + batch;
      full := full + batch;
      status := ValidateInvariants();
    }

    method GetEntry(index: LogIndex) returns (entry: Result<LogEntry>)
      requires Valid()
      ensures entry == if snapshotIndex < index <= |full| then Success(full[index - 1]) else Failure(NotFound)
    {
      if index <= snapshotIndex || index > LastIndex() {
        return Failure(NotFound);
      }
      entry := Success(entries[index - snapshotIndex - 1]);
    }

    method GetTerm(index: LogIndex) returns (term: Result<Term>)
      requires Valid()
      ensures term == if State().Answers(index) then Success(TermAt(full, index)) else Failure(NotFound)
    {
      if index == 0 {
        return Success(0);
      }
      if index == snapshotIndex {
        return Success(snapshotTerm);
      }
      if index < snapshotIndex || index > LastIndex() {
        return Failure(NotFound);
      }
      term := Success(entries[index - snapshotIndex - 1].term);
    }

    /** The half-open range `[begin, end)`. */
    method GetEntries(begin: LogIndex, end: LogIndex) returns (range: Result<seq<LogEntry>>)
      requires Valid()
      ensures range ==
              if begin > end then Failure(InvalidArgument)
              else if begin <= snapshotIndex || end > |full| + 1 then Failure(NotFound)
              else Success(full[begin - 1..end - 1])
    {
      if begin > end {
        return Failure(InvalidArgument);
      }
      if begin <= snapshotIndex || end > LastIndex() + 1 {
        return Failure(NotFound);
      }
      range := Success(entries[begin - snapshotIndex - 1..end - snapshotIndex - 1]);
      assert range.value == full[begin - 1..end - 1];
    }

    method Matches(index: LogIndex, term: Term) returns (matches: bool)
      requires Valid()
      ensures matches == State().Matches(index, term)
    {
      var local := GetTerm(index);
      return local.Success? && local.value == term;
    }

    method FindConflict(incoming: seq<LogEntry>) returns (conflict: Result<Conflict>)
      requires Valid()
      ensures conflict == LogModel.FindConflict(State(), incoming)
    {
      if incoming == [] {
        return Success(NoConflict);
      }
      var status := ValidateEntries(incoming, incoming[0].index);
      if status != Ok {
        return Failure(status);
      }
      ghost var s := State();
      for k := 0 to |incoming|
        invariant forall j :: 0 <= j < k ==> Holds(s, incoming[j])
      {
        HeldPrefixIs(s, incoming, k);
        if incoming[k].index > LastIndex() {
          return Success(AppendAt(incoming[k].index));
        }
        var localTerm := GetTerm(incoming[k].index);
        if localTerm != Success(incoming[k].term) {
          return Success(ConflictAt(incoming[k].index));
        }
      }
      HeldPrefixIs(s, incoming, |incoming|);
      return Success(NoConflict);
    }

    method TruncateSuffix(index: LogIndex) returns (status: Status)
      requires Valid()
      modifies this
      ensures Valid() && (status, State()) == old(State()).TruncateSuffix(index)
    {
      if index <= snapshotIndex || index <= commitIndex || index > LastIndex() + 1 {
        return InvalidArgument;
      }
      if index == LastIndex() + 1 {
        return Ok;
      }
      entries := entries[..index - snapshotIndex - 1];
      full := full[..index - 1];
      stableIndex := Min(stableIndex, if entries == [] then snapshotIndex else entries[|entries| - 1].index);
      status := ValidateInvariants();
    }

    method AdvanceStableTo(index: LogIndex) returns (status: Status)
      requires Valid()
      modifies this
      ensures Valid() && (status, State()) == old(State()).AdvanceStableTo(index)
    {
      if index < stableIndex || index > LastIndex() {
        return InvalidArgument;
      }
      stableIndex := index;
      status := ValidateInvariants();
    }

    method AdvanceCommitTo(index: LogIndex) returns (status: Status)
      requires Valid()
      modifies this
      ensures Valid() && (status, State()) == old(State()).AdvanceCommitTo(index)
    {
      if index < commitIndex || index > LastIndex() {
        return InvalidArgument;
      }
      commitIndex := index;
      status := ValidateInvariants();
    }

    method AdvanceAppliedTo(index: LogIndex) returns (status: Status)
      requires Valid()
      modifies this
      ensures Valid() && (status, State()) == old(State()).AdvanceAppliedTo(index)
    {
      if index < appliedIndex || index > commitIndex {
        return InvalidArgument;
      }
      appliedIndex := index;
      status := ValidateInvariants();
    }

    /** Drops the entries up to `index`; `full` keeps them. */
    method UpdateSnapshotBoundary(index: LogIndex, term: Term) returns (status: Status)
      requires Valid()
      modifies this
      ensures Valid() && full == old(full)
      ensures (status, State()) == old(State()).UpdateSnapshotBoundary(index, term)
    {
      if index < snapshotIndex || index > appliedIndex || index > LastIndex() {
        return InvalidArgument;
      }
      if index > 0 && term == 0 {
        return InvalidArgument;
      }
      if index == snapshotIndex {
        return if term != snapshotTerm then InvalidArgument else Ok;
      }
      var existing := GetTerm(index);
      if existing != Success(term) {
        return InvalidArgument;
      }
      assert entries[index - snapshotIndex..] == full[index..];
      entries := entries[index - snapshotIndex..];
      snapshotIndex := index;
      snapshotTerm := term;
      stableIndex := Max(stableIndex, snapshotIndex);
      commitIndex := Max(commitIndex, snapshotIndex);
      appliedIndex := Max(appliedIndex, snapshotIndex);
      status := ValidateInvariants();
    }
  }

  /** `HeldPrefix` is the only such position. */
  lemma {:induction false} HeldPrefixIs(s: LogState, incoming: seq<LogEntry>, k: nat)
    requires k <= |incoming|
    requires forall j :: 0 <= j < k ==> Holds(s, incoming[j])
    ensures k == |incoming| || !Holds(s, incoming[k]) ==> HeldPrefix(s, incoming) == k
  {
    var p := HeldPrefix(s, incoming);
    assert p < |incoming| ==> !Holds(s, incoming[p]);
    assert k < p ==> Holds(s, incoming[k]);
  }
}
