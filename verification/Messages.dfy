/** Messages between nodes, and the outbox that holds them until their persistence is confirmed. */
module Messages {
  import opened Common
  import opened RaftTypes

  datatype RejectReason = NoReason | StaleTerm | LogOutdated | AlreadyVoted | LearnerCannotVote

  datatype VoteRequest = VoteRequest(term: Term, candidateId: NodeId, lastLogIndex: LogIndex, lastLogTerm: Term)

  datatype VoteResponse = VoteResponse(term: Term, granted: bool, reason: RejectReason)

  datatype AppendRequest = AppendRequest(
    term: Term,
    leaderId: NodeId,
    prevLogIndex: LogIndex,
    prevLogTerm: Term,
    entries: seq<LogEntry>,
    leaderCommit: LogIndex
  )

  datatype AppendResponse = AppendResponse(
    term: Term,
    success: bool,
    matchIndex: LogIndex,
    conflictIndex: LogIndex,
    conflictTerm: Term
  )

  datatype SnapshotRequest = SnapshotRequest(
    term: Term,
    leaderId: NodeId,
    lastIncludedIndex: LogIndex,
    lastIncludedTerm: Term,
    membership: Membership
  )

  datatype SnapshotResponse = SnapshotResponse(term: Term, success: bool, lastIncludedIndex: LogIndex)

  datatype Body =
    | VoteReply(voteReply: VoteResponse)
    | AppendOrder(appendOrder: AppendRequest)
    | AppendReply(appendReply: AppendResponse)
    | SnapshotOrder(snapshotOrder: SnapshotRequest)

  datatype Message = Message(source: NodeId, target: NodeId, body: Body)

  /** Same message type and same target: a newly staged message replaces the older one. */
  predicate Supersedes(newer: Message, older: Message) {
    && newer.target == older.target
    && (newer.body.VoteReply? <==> older.body.VoteReply?)
    && (newer.body.AppendOrder? <==> older.body.AppendOrder?)
    && (newer.body.AppendReply? <==> older.body.AppendReply?)
  }

  /** A message that waits for a hard state, for log entries up to an index (0: none), or for both. */
  datatype Pending = Pending(message: Message, needsHardState: bool, stableIndex: LogIndex) {
    predicate Ready(hardStateDirty: bool, stable: LogIndex) {
      (needsHardState ==> !hardStateDirty) && (stableIndex == 0 || stableIndex <= stable)
    }
  }

  function DropMessages(queue: seq<Message>, newer: Message): seq<Message> {
    if queue == [] then []
    else if Supersedes(newer, queue[0]) then DropMessages(queue[1..], newer)
    else [queue[0]] + DropMessages(queue[1..], newer)
  }

  function DropPending(queue: seq<Pending>, newer: Message): seq<Pending> {
    if queue == [] then []
    else if Supersedes(newer, queue[0].message) then DropPending(queue[1..], newer)
    else [queue[0]] + DropPending(queue[1..], newer)
  }

  function Released(queue: seq<Pending>, hardStateDirty: bool, stable: LogIndex): seq<Message> {
    if queue == [] then []
    else if queue[0].Ready(hardStateDirty, stable)
    then [queue[0].message] + Released(queue[1..], hardStateDirty, stable)
    else Released(queue[1..], hardStateDirty, stable)
  }

  function Blocked(queue: seq<Pending>, hardStateDirty: bool, stable: LogIndex): seq<Pending> {
    if queue == [] then []
    else if queue[0].Ready(hardStateDirty, stable) then Blocked(queue[1..], hardStateDirty, stable)
    else [queue[0]] + Blocked(queue[1..], hardStateDirty, stable)
  }

  datatype Outbox = Outbox(immediate: seq<Message>, pending: seq<Pending>) {
    /** `StageMessage`. */
    function Stage(message: Message, needsHardState: bool, stableIndex: LogIndex, stable: LogIndex): Outbox {
      var kept := Outbox(DropMessages(immediate, message), DropPending(pending, message));
      if needsHardState || stableIndex > stable
      then kept.(pending := kept.pending +
                            [Pending(message, needsHardState, if stableIndex > stable then stableIndex else 0)])
      else kept.(immediate := kept.immediate + [message])
    }

    /** `ReclassifyBlockedMessages`. */
    function Reclassify(hardStateDirty: bool, stable: LogIndex): Outbox {
      Outbox(immediate + Released(pending, hardStateDirty, stable), Blocked(pending, hardStateDirty, stable))
    }
  }

  const EMPTY_OUTBOX := Outbox([], [])
}
