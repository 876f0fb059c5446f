/**
 The replicated log as a value. `full` is the log as if nothing had ever been compacted: the entry
 with index `i` is `full[i - 1]`. The class `RaftLog` only keeps the part after `snapshotIndex`.
 */
module LogModel {
  import opened Common
  import opened RaftTypes

  ghost predicate WellNumbered(full: seq<LogEntry>) {
    forall i :: 0 <= i < |full| ==> full[i].index == i + 1 && full[i].term > 0
  }

  function TermAt(full: seq<LogEntry>, index: LogIndex): Term
    requires index <= |full|
  {
    if index == 0 then 0 else full[index - 1].term
  }

  datatype LogState = LogState(
    full: seq<LogEntry>,
    snapshotIndex: LogIndex,
    stableIndex: LogIndex,
    commitIndex: LogIndex,
    appliedIndex: LogIndex
  ) {
    ghost predicate Valid() {
      && WellNumbered(full)
      && snapshotIndex <= appliedIndex <= commitIndex <= |full|
      && snapshotIndex <= stableIndex <= |full|
    }

    function LastIndex(): LogIndex {
      |full|
    }

    /** The committed part of the log, compacted entries included. */
    function Committed(): seq<LogEntry>
      requires commitIndex <= |full|
    {
      full[..commitIndex]
    }

    /** `GetTerm` answers at index 0, at the snapshot boundary and at every entry it still holds. */
    predicate Answers(index: LogIndex) {
      index == 0 || snapshotIndex <= index <= |full|
    }

    predicate Matches(index: LogIndex, term: Term) {
      Answers(index) && TermAt(full, index) == term
    }

    /** `ValidateEntries`: contiguous from `start`, past the snapshot boundary, positive terms. */
    predicate GoodBatch(batch: seq<LogEntry>, start: LogIndex) {
      forall k :: 0 <= k < |batch| ==>
        batch[k].index == start + k && batch[k].index > snapshotIndex && batch[k].term > 0
    }

    function Append(batch: seq<LogEntry>): (Status, LogState) {
      if batch == [] then (Ok, this)
      else if !GoodBatch(batch, LastIndex() + 1) then (InvalidArgument, this)
      else (Ok, this.(full := full + batch))
    }

    function TruncateSuffix(index: LogIndex): (Status, LogState) {
      if index <= snapshotIndex || index <= commitIndex || index > LastIndex() + 1
      then (InvalidArgument, this)
      else if index == LastIndex() + 1 then (Ok, this)
      else (Ok, this.(full := full[..index - 1], stableIndex := Min(stableIndex, index - 1)))
    }

    function AdvanceStableTo(index: LogIndex): (Status, LogState) {
      if index < stableIndex || index > LastIndex() then (InvalidArgument, this)
      else (Ok, this.(stableIndex := index))
    }

    function AdvanceCommitTo(index: LogIndex): (Status, LogState) {
      if index < commitIndex || index > LastIndex() then (InvalidArgument, this)
      else (Ok, this.(commitIndex := index))
    }

    function AdvanceAppliedTo(index: LogIndex): (Status, LogState) {
      if index < appliedIndex || index > commitIndex then (InvalidArgument, this)
      else (Ok, this.(appliedIndex := index))
    }

    function UpdateSnapshotBoundary(index: LogIndex, term: Term): (Status, LogState)
    {
      if index < snapshotIndex || index > appliedIndex || index > LastIndex()
      then (InvalidArgument, this)
      else if index > 0 && term == 0 then (InvalidArgument, this)
      else if TermAt(full, index) != term then (InvalidArgument, this)
      else (Ok, this.(snapshotIndex := index, stableIndex := Max(stableIndex, index)))
    }
  }

  const EMPTY_LOG := LogState([], 0, 0, 0, 0)

  datatype Conflict = NoConflict | ConflictAt(index: LogIndex) | AppendAt(index: LogIndex)

  /** The log holds an entry with this index and this term. */
  predicate Holds(s: LogState, e: LogEntry) {
    1 <= e.index <= |s.full| && s.full[e.index - 1].term == e.term
  }

  /** How many leading entries of the batch the log already holds. */
  function HeldPrefix(s: LogState, incoming: seq<LogEntry>): (k: nat)
    ensures k <= |incoming|
    ensures forall j :: 0 <= j < k ==> Holds(s, incoming[j])
    ensures k < |incoming| ==> !Holds(s, incoming[k])
  {
    if incoming == [] || !Holds(s, incoming[0]) then 0
    else 1 + HeldPrefix(s, incoming[1..])
  }

  /** `FindConflict`. */
  function FindConflict(s: LogState, incoming: seq<LogEntry>): Result<Conflict> {
    if incoming == [] then Success(NoConflict)
    else if !s.GoodBatch(incoming, incoming[0].index) then Failure(InvalidArgument)
    else
      var k := HeldPrefix(s, incoming);
      if k == |incoming| then Success(NoConflict)
      else if incoming[k].index > s.LastIndex() then Success(AppendAt(incoming[k].index))
      else Success(ConflictAt(incoming[k].index))
  }

  /** The truncate-then-append step of `HandleAppendEntries`. */
  function Merge(s: LogState, incoming: seq<LogEntry>): (Status, LogState) {
    match FindConflict(s, incoming)
    case Failure(error) => (error, s)
    case Success(NoConflict) => (Ok, s)
    case Success(AppendAt(index)) =>
      s.Append(incoming[HeldPrefix(s, incoming)..])
    case Success(ConflictAt(index)) =>
      var (status, cut) := s.TruncateSuffix(index);
      if status != Ok then (status, cut)
      else cut.Append(incoming[HeldPrefix(s, incoming)..])
  }
}
