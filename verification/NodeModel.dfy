/**
 One Raft node as a value: the state of `RaftCore` and the effect of each of its public calls. A call
 that fails may still have changed the node, exactly where the source returns after an assignment.
 */
module NodeModel {
  import opened Common
  import opened RaftTypes
  import opened IdSets
  import opened LogModel
  import opened Messages
  import opened MembershipRules
  import opened ActiveMembers
  import Codec = MembershipCodec

  datatype PeerProgress = PeerProgress(isLearner: bool, isActive: bool, matchIndex: LogIndex, nextIndex: LogIndex)

  datatype VoteAction = NoVoteAction | RecordedGrant | RecordedRejection | VoteStepDown

  datatype AppendAction = NoAppendAction | Accepted | Rejected | AppendStepDown

  datatype Options = Options(
    id: NodeId,
    role: Role,
    electionTimeout: nat,
    hard: HardState,
    voters: seq<NodeId>,
    learners: seq<NodeId>,
    membership: Option<Membership>
  )

  datatype Confirmation = Confirmation(
    status: Status,
    hardStatePersisted: bool,
    stableIndex: LogIndex,
    maxStableIndex: LogIndex
  )

  datatype Node = Node(
    id: NodeId,
    role: Role,
    leaderId: NodeId,
    logicalTicks: nat,
    electionElapsed: nat,
    electionTimeout: nat,
    hard: HardState,
    log: LogState,
    voters: seq<NodeId>,
    learners: seq<NodeId>,
    membership: Membership,
    progress: map<NodeId, PeerProgress>,
    persisted: HardState,
    outbox: Outbox
  ) {
    ghost predicate Valid() {
      && id != 0
      && log.Valid()
      && hard.commitIndex == log.commitIndex
      && Distinct(voters)
      && (membership == NO_MEMBERSHIP || Settled(membership))
      && (membership != NO_MEMBERSHIP ==> SetOf(voters) == ActiveVoters(membership))
    }

    function Term(): Term {
      hard.currentTerm
    }

    // -------------------------------------------------------------- terms and roles

    /** `UpdateCurrentTerm`. */
    function WithTerm(term: Term): Node {
      if term > Term() then this.(hard := hard.(currentTerm := term, votedFor := 0)) else this
    }

    /** `BecomeFollowerForRemote`; the term must not move backward. */
    function FollowRemote(term: Term, leader: NodeId): (Status, Node) {
      if term < Term() then (InvalidArgument, this) else
      var n := WithTerm(term);
      (Ok, n.(role := if role == Learner then Learner else Follower, leaderId := leader, electionElapsed := 0))
    }

    function BecomeFollower(term: Term, leader: NodeId): (Status, Node) {
      if term < Term() || role == Learner then (InvalidArgument, this) else FollowRemote(term, leader)
    }

    function StartElection(): (Status, Node) {
      if role == Leader || role == Learner then (InvalidArgument, this)
      else (Ok, this.(hard := hard.(currentTerm := hard.currentTerm + 1, votedFor := id),
                      role := Candidate, leaderId := 0, electionElapsed := 0))
    }

    /** The flag tells whether the tick started an election. */
    function Tick(): (Status, Node, bool) {
      var ticked := this.(logicalTicks := logicalTicks + 1);
      if role == Leader || role == Learner then (Ok, ticked, false) else
      var waited := ticked.(electionElapsed := electionElapsed + 1);
      if waited.electionElapsed < electionTimeout then (Ok, waited, false) else
      var (status, n) := waited.StartElection();
      (status, n, status == Ok)
    }

    function UpdateElectionTimeout(ticks: nat): (Status, Node) {
      if ticks == 0 then (InvalidArgument, this) else (Ok, this.(electionTimeout := ticks))
    }

    ghost function BecomeLeader(): (Status, Node) {
      if role != Candidate then (InvalidArgument, this)
      else (Ok, this.(role := Leader, leaderId := id, electionElapsed := 0).ResetProgress())
    }

    // -------------------------------------------------------------- peer progress

    function FreshProgress(peer: NodeId, learner: bool): PeerProgress {
      PeerProgress(learner, peer == id, if peer == id then log.LastIndex() else 0, log.LastIndex() + 1)
    }

    function InitialProgress(peer: NodeId): PeerProgress {
      FreshProgress(peer, peer !in voters)
    }

    ghost function ResetProgress(): Node {
      this.(progress := map peer | peer in Peers() :: InitialProgress(peer)).SyncLocal()
    }

    /** Keeps known peers, adds missing ones, drops the rest; flags follow the two id vectors. */
    ghost function Retargeted(): Node {
      if progress == map[] then ResetProgress()
      else this.(progress := map peer | peer in Peers() :: Kept(peer)).SyncLocal()
    }

    ghost function Peers(): set<NodeId> {
      SetOf(voters) + SetOf(learners)
    }

    function Kept(peer: NodeId): PeerProgress {
      if peer in progress then progress[peer].(isLearner := peer in learners)
      else if peer in voters then FreshProgress(peer, peer in learners)
      else PeerProgress(true, false, 0, log.LastIndex() + 1)
    }

    /** `SyncLocalPeerProgress`. */
    function SyncLocal(): Node {
      if id !in progress then this
      else this.(progress := progress[id := PeerProgress(progress[id].isLearner, true,
                                                         log.LastIndex(), log.LastIndex() + 1)])
    }

    // -------------------------------------------------------------- outbox

    function Dirty(): bool {
      hard != persisted
    }

    function Stage(target: NodeId, body: Body, requireHardState: bool, stableIndex: LogIndex): Node {
      this.(outbox := outbox.Stage(Message(id, target, body), requireHardState && Dirty(), stableIndex,
                                   log.stableIndex))
    }

    function ConfirmPersistence(c: Confirmation): (Status, Node) {
      if c.status != Ok then (c.status, this)
      else if c.stableIndex < log.stableIndex || c.stableIndex > log.LastIndex() then (InvalidArgument, this)
      else if c.maxStableIndex != 0 && c.stableIndex > c.maxStableIndex then (InvalidArgument, this)
      else
        var n := this.(persisted := if c.hardStatePersisted then hard else persisted,
                       log := log.(stableIndex := c.stableIndex));
        (Ok, n.(outbox := n.outbox.Reclassify(n.Dirty(), c.stableIndex)))
    }

    function ConfirmApplied(index: LogIndex): (Status, Node) {
      if index == 0 || index != log.appliedIndex + 1 || index > log.commitIndex then (InvalidArgument, this)
      else (Ok, this.(log := log.(appliedIndex := index)))
    }

    // -------------------------------------------------------------- elections

    /** `IsCandidateLogUpToDate`. */
    function UpToDate(lastIndex: LogIndex, lastTerm: Term): bool {
      var localTerm := TermAt(log.full, log.LastIndex());
      if lastTerm != localTerm then lastTerm > localTerm else lastIndex >= log.LastIndex()
    }

    function HandleRequestVote(request: VoteRequest): (Status, Node, Option<VoteResponse>) {
      if request.candidateId == 0 then (InvalidArgument, this, None)
      else if role == Learner then RefuseVote(request, LearnerCannotVote, hard)
      else if request.term < Term() then RefuseVote(request, StaleTerm, hard)
      else
        var n := if request.term > Term() then FollowRemote(request.term, 0).1 else this;
        if !UpToDate(request.lastLogIndex, request.lastLogTerm) then n.RefuseVote(request, LogOutdated, hard)
        else if n.hard.votedFor != 0 && n.hard.votedFor != request.candidateId
        then n.RefuseVote(request, AlreadyVoted, hard)
        else
          var voted := n.(hard := n.hard.(votedFor := request.candidateId), electionElapsed := 0);
          var response := VoteResponse(voted.Term(), true, NoReason);
          (Ok, voted.Stage(request.candidateId, VoteReply(response), voted.hard != hard, 0), Some(response))
    }

    function RefuseVote(request: VoteRequest, reason: RejectReason, before: HardState)
      : (Status, Node, Option<VoteResponse>)
    {
      var response := VoteResponse(Term(), false, reason);
      (Ok, Stage(request.candidateId, VoteReply(response), hard != before, 0), Some(response))
    }

    function HandleVoteResponse(source: NodeId, response: VoteResponse): (Status, Node, VoteAction) {
      if source == 0 || response.granted != (response.reason == NoReason) then (InvalidArgument, this, NoVoteAction)
      else if response.term < Term() then (Ok, this, NoVoteAction)
      else if response.term > Term() then (Ok, FollowRemote(response.term, 0).1, VoteStepDown)
      else if role != Candidate then (Ok, this, NoVoteAction)
      else (Ok, this, if response.granted then RecordedGrant else RecordedRejection)
    }

    // -------------------------------------------------------------- replication, leader side

    function BuildHeartbeat(): Result<AppendRequest> {
      if role != Leader then Failure(InvalidArgument)
      else Success(AppendRequest(Term(), id, log.LastIndex(), TermAt(log.full, log.LastIndex()), [], log.commitIndex))
    }

    function BuildAppendEntries(target: NodeId): (Status, Node, Option<AppendRequest>) {
      if role != Leader || target == id then (InvalidArgument, this, None)
      else if target !in progress then (NotFound, this, None)
      else
        var next := progress[target].nextIndex;
        if next <= log.snapshotIndex then (RetryLater, this, None)
        else if next > log.LastIndex() + 1 then (NotFound, this, None)
        else
          var request := AppendRequest(Term(), id, next - 1, TermAt(log.full, next - 1), log.full[next - 1..],
                                       log.commitIndex);
          (Ok, Stage(target, AppendOrder(request), true, if next <= log.LastIndex() then log.LastIndex() else 0),
           Some(request))
    }

    ghost function BuildInstallSnapshot(target: NodeId): (Status, Node, Option<SnapshotRequest>)
      requires log.Valid()
    {
      if role != Leader || target == id then (InvalidArgument, this, None)
      else if log.snapshotIndex == 0 then (NotFound, this, None)
      else if target !in progress then (NotFound, this, None)
      else if progress[target].nextIndex > log.snapshotIndex then (InvalidArgument, this, None)
      else
        var request := SnapshotRequest(Term(), id, log.snapshotIndex, TermAt(log.full, log.snapshotIndex), membership);
        (Ok, Stage(target, SnapshotOrder(request), true, 0), Some(request))
    }

    // -------------------------------------------------------------- replication, follower side

    ghost function HandleAppendEntries(request: AppendRequest): (Status, Node, Option<AppendResponse>)
      requires log.Valid()
    {
      if request.leaderId == 0 || (request.prevLogIndex > 0 && request.prevLogTerm == 0)
      then (InvalidArgument, this, None)
      else if request.term < Term() then Answer(request, AppendResponse(Term(), false, 0, 0, 0), hard, 0)
      else
        var n := WithTerm(request.term);
        if role == Leader && request.leaderId != id
        then n.Answer(request, AppendResponse(Term(), false, 0, 0, 0), hard, 0)
        else
          var f := n.(role := if role == Candidate then Follower else role, leaderId := request.leaderId,
                      electionElapsed := 0);
          if !log.Matches(request.prevLogIndex, request.prevLogTerm)
          then f.Answer(request, f.Mismatch(request.prevLogIndex), hard, 0)
          else f.Accept(request, hard)
    }

    function Answer(request: AppendRequest, response: AppendResponse, before: HardState, stableIndex: LogIndex)
      : (Status, Node, Option<AppendResponse>)
    {
      (Ok, Stage(request.leaderId, AppendReply(response), hard != before, stableIndex), Some(response))
    }

    /** The hint sent back when the log does not match at `prev`. */
    ghost function Mismatch(prev: LogIndex): AppendResponse
      requires log.Valid()
    {
      if prev > log.LastIndex() then AppendResponse(Term(), false, 0, log.LastIndex() + 1, 0)
      else if !log.Answers(prev)
      then AppendResponse(Term(), false, 0, log.snapshotIndex + 1, TermAt(log.full, log.snapshotIndex))
      else
        var term := TermAt(log.full, prev);
        AppendResponse(Term(), false, 0, FirstIndexOfTerm(term, prev), term)
    }

    /** `FindFirstIndexOfTerm`: walks down from the hint while the term stays the same. */
    ghost function FirstIndexOfTerm(term: Term, hint: LogIndex): LogIndex
      requires log.Valid()
    {
      if hint == log.snapshotIndex && term == TermAt(log.full, log.snapshotIndex) then hint
      else RunStart(term, hint)
    }

    function RunStart(term: Term, index: LogIndex): LogIndex {
      if index <= log.snapshotIndex || index > log.LastIndex() || TermAt(log.full, index) != term then index + 1
      else RunStart(term, index - 1)
    }

    ghost function Accept(request: AppendRequest, before: HardState): (Status, Node, Option<AppendResponse>)
      requires log.Valid()
    {
      var (status, merged) := Merge(log, request.entries);
      if status != Ok then (status, this.(log := merged), None)
      else
        var target := Min(request.leaderCommit, merged.LastIndex());
        var n := this.(log := merged).Commit(Max(target, log.commitIndex)).SyncLocal();
        n.Answer(request, AppendResponse(Term(), true, merged.LastIndex(), 0, 0), before,
                 if merged.LastIndex() > log.LastIndex() then merged.LastIndex() else 0)
    }

    /** Moves the commit index of the log, and of the hard state when it changes. */
    function Commit(index: LogIndex): Node {
      if index == log.commitIndex then this
      else this.(log := log.(commitIndex := index), hard := hard.(commitIndex := index))
    }

    // -------------------------------------------------------------- the commit rule

    /** How many of the nodes have matched the log up to an index. */
    function Matching(ids: seq<NodeId>, index: LogIndex): nat {
      if ids == [] then 0
      else (if ids[0] in progress && progress[ids[0]].matchIndex >= index then 1 else 0) + Matching(ids[1..], index)
    }

    function Quorum(ids: seq<NodeId>, index: LogIndex): bool {
      Matching(ids, index) >= |ids| / 2 + 1
    }

    ghost predicate Supported(index: LogIndex) {
      if membership.inTransition
      then Quorum(Listing(Ids(membership.voters)), index) && Quorum(Listing(Ids(membership.nextVoters)), index)
      else Quorum(voters, index)
    }

    /** The descending search of `TryAdvanceCommitIndex`. */
    ghost function SearchCommit(index: LogIndex): Result<LogIndex>
      requires index <= log.LastIndex()
    {
      if index <= log.commitIndex then Success(log.commitIndex)
      else if TermAt(log.full, index) != Term() then SearchCommit(index - 1)
      else if !membership.inTransition && exists v :: v in voters && v !in progress then Failure(NotFound)
      else if Supported(index) then Success(index)
      else SearchCommit(index - 1)
    }

    ghost function TryAdvanceCommit(): (Status, Node) {
      match SearchCommit(log.LastIndex())
      case Failure(error) => (error, this)
      case Success(index) => (Ok, Commit(index))
    }

    // -------------------------------------------------------------- replication, responses

    ghost function HandleAppendResponse(source: NodeId, response: AppendResponse): (Status, Node, AppendAction) {
      if source == 0 || (source !in voters && source !in learners)
         || (response.success && response.matchIndex == 0 && log.LastIndex() != 0)
         || (!response.success && response.term == Term() && response.conflictIndex == 0)
      then (InvalidArgument, this, NoAppendAction)
      else if response.term < Term() then (Ok, this, NoAppendAction)
      else if response.term > Term() then
        (Ok, if role == Learner then WithTerm(response.term) else FollowRemote(response.term, 0).1, AppendStepDown)
      else if role != Leader then (Ok, this, NoAppendAction)
      else if source !in progress then (NotFound, this, NoAppendAction)
      else
        var p := progress[source].(isActive := true);
        if response.success then
          if response.matchIndex > log.LastIndex()
          then (InvalidArgument, this.(progress := progress[source := p]), NoAppendAction)
          else
            var matched := Max(p.matchIndex, response.matchIndex);
            var advanced := p.(matchIndex := matched, nextIndex := Max(p.nextIndex, matched + 1));
            var (status, n) := this.(progress := progress[source := advanced]).TryAdvanceCommit();
            (status, n, if status == Ok then Accepted else NoAppendAction)
        else
          var lowered := p.(nextIndex := Min(p.nextIndex, BackOff(response.conflictIndex, response.conflictTerm)));
          (Ok, this.(progress := progress[source := lowered]), Rejected)
    }

    /** Where a rejection tells the leader to probe next. */
    function BackOff(conflictIndex: LogIndex, conflictTerm: Term): LogIndex {
      var local := if conflictTerm == 0 then 0 else LastIndexOfTerm(conflictTerm, log.LastIndex());
      ClampNext(if local != 0 then local + 1 else conflictIndex)
    }

    /** `FindLastIndexOfTerm`: walks down until the term is found or terms get smaller. */
    function LastIndexOfTerm(term: Term, index: LogIndex): LogIndex {
      if index <= log.snapshotIndex || index > log.LastIndex() || TermAt(log.full, index) < term
      then if log.snapshotIndex <= log.LastIndex() && term == TermAt(log.full, log.snapshotIndex)
           then log.snapshotIndex else 0
      else if TermAt(log.full, index) == term then index
      else LastIndexOfTerm(term, index - 1)
    }

    function ClampNext(index: LogIndex): LogIndex {
      Min(Max(index, if log.snapshotIndex > 0 then log.snapshotIndex else 1), log.LastIndex() + 1)
    }

    function HandleSnapshotResponse(source: NodeId, response: SnapshotResponse): (Status, Node) {
      if source == 0 then (InvalidArgument, this)
      else if response.term < Term() then (Ok, this)
      else if response.term > Term() then FollowRemote(response.term, 0)
      else if role != Leader then (Ok, this)
      else if !response.success || response.lastIncludedIndex > log.snapshotIndex then (InvalidArgument, this)
      else if source !in progress then (NotFound, this)
      else
        var p := progress[source];
        var matched := Max(p.matchIndex, response.lastIncludedIndex);
        (Ok, this.(progress := progress[source := p.(isActive := true, matchIndex := matched,
                                                     nextIndex := Max(p.nextIndex, matched + 1))]))
    }

    // -------------------------------------------------------------- proposals

    /** Appends one entry of the leader's term and tries to commit it at once. */
    ghost function AppendOwn(kind: EntryKind, payload: Bytes): (Status, Node) {
      var entry := LogEntry(log.LastIndex() + 1, Term(), kind, payload);
      var (status, grown) := log.Append([entry]);
      if status != Ok then (status, this) else
      var n := this.(log := grown,
                     progress := if id in progress
                       then progress[id := progress[id].(matchIndex := entry.index, nextIndex := entry.index + 1)]
                       else progress);
      n.TryAdvanceCommit()
    }

    ghost function Propose(payload: Bytes): (Status, Node) {
      if role != Leader then (InvalidArgument, this) else AppendOwn(Command, payload)
    }

    /** `HasPendingMembershipChange`: an unapplied membership entry that the log still holds. */
    ghost predicate PendingChange() {
      exists k :: log.appliedIndex <= k < |log.full| && log.full[k].kind == MembershipChange
    }

    function ActiveCount(ids: seq<NodeId>): nat {
      if ids == [] then 0
      else (if ids[0] == id || (ids[0] in progress && progress[ids[0]].isActive) then 1 else 0) + ActiveCount(ids[1..])
    }

    /** Why the leader cannot promote a learner yet; Ok when it can. */
    function LearnerReadiness(learner: NodeId): Status {
      if learner !in progress then NotFound
      else if !progress[learner].isLearner then InvalidArgument
      else if progress[learner].nextIndex <= log.snapshotIndex || !progress[learner].isActive
              || progress[learner].matchIndex < log.commitIndex then Busy
      else Ok
    }

    /** Why a membership proposal is turned down before its entry is built; Ok when it is not. */
    ghost function Refusal(change: Change): Status {
      if role != Leader || change == PromoteLearner(0) || change == RemoveMember(0) then InvalidArgument
      else if change == Finalize && !membership.inTransition then InvalidArgument
      else if PendingChange() then Busy
      else if (change.PromoteLearner? || change.RemoveMember?) && ActiveCount(voters) < |voters| / 2 + 1 then Busy
      else if change.PromoteLearner? then LearnerReadiness(change.learnerId)
      else Ok
    }

    /** `AddLearner`, `PromoteLearner`, `RemoveMember` and `FinalizeMembershipChange`. */
    ghost function ProposeChange(change: Change): (Status, Node) {
      if Refusal(change) != Ok then (Refusal(change), this) else
      var entry := Build(membership, change);
      if entry.Failure? then (entry.error, this) else
      var payload := Codec.Encode(entry.value);
      if payload.Failure? then (payload.error, this) else AppendOwn(MembershipChange, payload.value)
    }

    // -------------------------------------------------------------- membership and compaction

    ghost function ApplyMembershipEntry(entry: LogEntry): (Status, Node) {
      if entry.kind != MembershipChange then (InvalidArgument, this) else
      var decoded := Codec.Decode(entry.payload);
      if decoded.Failure? then (decoded.error, this) else
      var applied := ApplyEntry(membership, decoded.value);
      if applied.Failure? then (applied.error, this) else
      var m := applied.value;
      var n := this.(membership := m, voters := Listing(ActiveVoters(m)), learners := Listing(AppliedLearners(m)),
                     hard := hard.(configurationId := m.configurationId));
      var synced := n.(progress := map peer | peer in n.Peers() :: n.Kept(peer)).SyncLocal();
      (Ok, if id in synced.voters && id !in synced.learners then synced else synced.Demoted())
    }

    /** A node that no longer votes becomes a learner and forgets its vote. */
    function Demoted(): Node {
      this.(role := Learner, leaderId := 0, hard := hard.(votedFor := 0), electionElapsed := 0)
    }

    ghost function UpdateSnapshotBoundary(index: LogIndex, term: Term, view: Membership): (Status, Node)
    {
      var (status, compacted) := log.UpdateSnapshotBoundary(index, term);
      if status != Ok then (status, this) else
      var n := this.(log := compacted);
      if view.configurationId != 0 && !ValidMembership(view) then (InvalidArgument, n) else
      var m := if view.configurationId != 0 then
                 var s := Sorted(view);
                 n.(membership := s, voters := Listing(ActiveVoters(s)), learners := Listing(TransitionLearners(s)),
                    hard := hard.(configurationId := s.configurationId))
               else n;
      var r := m.Retargeted();
      (Ok, if id in r.voters || id in r.learners then r else r.Demoted())
    }
  }

  // ---------------------------------------------------------------- initialisation

  /** `ValidateOptions`. */
  ghost predicate ValidOptions(o: Options) {
    && o.id != 0 && o.electionTimeout > 0 && o.voters != []
    && 0 !in o.voters + o.learners && Distinct(o.voters + o.learners)
    && o.id in o.voters + o.learners
    && (o.role == Learner <==> o.id in o.learners)
    && (o.role == Learner ==> o.hard.votedFor != o.id)
    && (o.membership.Some? ==>
          var m := o.membership.value;
          ValidMembership(m) && SetOf(o.voters) == Ids(m.voters) && SetOf(o.learners) == Ids(m.learners))
  }

  /** The node before its progress table is filled. */
  ghost function InitialBase(o: Options): Node {
    var bare := Node(o.id, o.role, if o.role == Leader then o.id else 0, 0, 0, o.electionTimeout,
                     o.hard.(commitIndex := 0), EMPTY_LOG, o.voters, o.learners, NO_MEMBERSHIP, map[],
                     o.hard, EMPTY_OUTBOX);
    var n := if o.membership.None? then bare else
               var m := Sorted(o.membership.value);
               bare.(membership := m, voters := Listing(ActiveVoters(m)), learners := Listing(TransitionLearners(m)),
                     hard := bare.hard.(configurationId := m.configurationId));
    n.(persisted := n.hard)
  }

  /** The state after a successful `Initialize`. */
  ghost function InitialNode(o: Options): Node {
    InitialBase(o).ResetProgress()
  }
}
