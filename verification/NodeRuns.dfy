/** What every call keeps on one node, and what holds over every run of calls after initialisation. */
module NodeRuns {
  import opened Common
  import opened RaftTypes
  import opened IdSets
  import opened LogModel
  import opened Messages
  import opened MembershipRules
  import opened ActiveMembers
  import opened NodeModel

  /** Every call that can change a node, with arbitrary arguments. */
  datatype Call =
    | CallTick
    | CallUpdateTimeout(ticks: nat)
    | CallBecomeFollower(term: Term, leader: NodeId)
    | CallStartElection
    | CallBecomeLeader
    | CallRequestVote(vote: VoteRequest)
    | CallVoteResponse(source: NodeId, voteReply: VoteResponse)
    | CallBuildAppend(target: NodeId)
    | CallAppendEntries(append: AppendRequest)
    | CallAppendResponse(source: NodeId, appendReply: AppendResponse)
    | CallBuildSnapshot(target: NodeId)
    | CallSnapshotResponse(source: NodeId, snapshotReply: SnapshotResponse)
    | CallPropose(payload: Bytes)
    | CallProposeChange(change: Change)
    | CallApplyMembership(entry: LogEntry)
    | CallConfirmApplied(index: LogIndex)
    | CallConfirmPersistence(confirmation: Confirmation)
    | CallUpdateSnapshot(index: LogIndex, term: Term, view: Membership)

  ghost function After(n: Node, call: Call): Node
    requires n.Valid()
  {
    match call
    case CallTick => n.Tick().1
    case CallUpdateTimeout(ticks) => n.UpdateElectionTimeout(ticks).1
    case CallBecomeFollower(term, leader) => n.BecomeFollower(term, leader).1
    case CallStartElection => n.StartElection().1
    case CallBecomeLeader => n.BecomeLeader().1
    case CallRequestVote(request) => n.HandleRequestVote(request).1
    case CallVoteResponse(source, response) => n.HandleVoteResponse(source, response).1
    case CallBuildAppend(target) => n.BuildAppendEntries(target).1
    case CallAppendEntries(request) => n.HandleAppendEntries(request).1
    case CallAppendResponse(source, response) => n.HandleAppendResponse(source, response).1
    case CallBuildSnapshot(target) => n.BuildInstallSnapshot(target).1
    case CallSnapshotResponse(source, response) => n.HandleSnapshotResponse(source, response).1
    case CallPropose(payload) => n.Propose(payload).1
    case CallProposeChange(change) => n.ProposeChange(change).1
    case CallApplyMembership(entry) => n.ApplyMembershipEntry(entry).1
    case CallConfirmApplied(index) => n.ConfirmApplied(index).1
    case CallConfirmPersistence(confirmation) => n.ConfirmPersistence(confirmation).1
    case CallUpdateSnapshot(index, term, view) => n.UpdateSnapshotBoundary(index, term, view).1
  }

  /** The vote a call casts, if any: a granted request, or the self-vote of an election. */
  ghost function VoteCast(n: Node, call: Call): Option<(Term, NodeId)>
    requires n.Valid()
  {
    match call
    case CallRequestVote(request) =>
      var (_, after, response) := n.HandleRequestVote(request);
      if response.Some? && response.value.granted then Some((after.Term(), request.candidateId)) else None
    case CallStartElection =>
      if n.StartElection().0 == Ok then Some((n.Term() + 1, n.id)) else None
    case CallTick =>
      if n.Tick().2 then Some((n.Term() + 1, n.id)) else None
    case _ => None
  }

  // ---------------------------------------------------------------- one call

  /** What no call undoes. */
  ghost predicate Continues(before: Node, after: Node)
    requires before.Valid()
  {
    && after.Valid()
    && after.id == before.id
    && after.Term() >= before.Term()
    && after.log.commitIndex >= before.log.commitIndex
    && before.log.Committed() <= after.log.Committed()
    && after.log.snapshotIndex >= before.log.snapshotIndex
    && (before.role == Learner ==> after.role == Learner)
  }

  lemma AppendKeepsPrefix(s: LogState, batch: seq<LogEntry>, n: nat)
    requires s.Valid() && n <= |s.full|
    ensures var (status, grown) := s.Append(batch);
            && grown.Valid() && grown == s.(full := grown.full)
            && n <= |grown.full| && grown.full[..n] == s.full[..n]
            && (status != Ok ==> grown == s)
  {
    assert (s.full + batch)[..n] == s.full[..n];
  }

  lemma CutKeepsPrefix(s: LogState, index: LogIndex)
    requires s.Valid()
    ensures var (status, cut) := s.TruncateSuffix(index);
            && cut.Valid() && cut == s.(full := cut.full, stableIndex := cut.stableIndex)
            && cut.full[..s.commitIndex] == s.full[..s.commitIndex]
            && (status != Ok ==> cut == s)
            && (status == Ok ==> |cut.full| == index - 1)
  {
  }

  lemma MergeFacts(s: LogState, incoming: seq<LogEntry>)
    requires s.Valid()
    ensures var (status, merged) := Merge(s, incoming);
            && merged.Valid()
            && merged.commitIndex == s.commitIndex && merged.snapshotIndex == s.snapshotIndex
            && merged.appliedIndex == s.appliedIndex
            && s.Committed() <= merged.Committed()
            && (status != Ok ==> merged == s)
  {
    hide WellNumbered;
    if incoming != [] && s.GoodBatch(incoming, incoming[0].index) {
      var k := HeldPrefix(s, incoming);
      if k < |incoming| {
        var index := incoming[k].index;
        var (status, cut) := s.TruncateSuffix(index);
        CutKeepsPrefix(s, index);
        assert index <= s.LastIndex() && status == Ok ==> cut.GoodBatch(incoming[k..], cut.LastIndex() + 1);
        hide LogState.TruncateSuffix, LogState.Append, HeldPrefix;
        AppendKeepsPrefix(s, incoming[k..], s.commitIndex);
        AppendKeepsPrefix(cut, incoming[k..], s.commitIndex);
        AppendSucceeds(cut, incoming[k..]);
      }
    }
  }

  lemma AppendSucceeds(s: LogState, batch: seq<LogEntry>)
    ensures s.GoodBatch(batch, s.LastIndex() + 1) ==> s.Append(batch).0 == Ok
  {
  }

  // ---------------------------------------------------------------- the ways an append can end

  /** The node once it has accepted the sender as the leader of the request's term. */
  ghost function Heard(n: Node, request: AppendRequest): Node {
    n.WithTerm(request.term).(role := if n.role == Candidate then Follower else n.role,
                              leaderId := request.leaderId, electionElapsed := 0)
  }

  /** Outbox aside: nothing happened, a leader took the term, the sender was heard, or its entries accepted. */
  ghost predicate AppendOutcome(n: Node, request: AppendRequest, after: Node)
    requires n.log.Valid()
  {
    || after == n.(outbox := after.outbox)
    || (&& n.role == Leader && request.leaderId != n.id && request.term >= n.Term()
        && after == n.WithTerm(request.term).(outbox := after.outbox))
    || (&& request.term >= n.Term() && (n.role == Leader ==> request.leaderId == n.id)
        && (|| after == Heard(n, request).(outbox := after.outbox)
            || (n.log.Matches(request.prevLogIndex, request.prevLogTerm)
                && after == Heard(n, request).Accept(request, n.hard).1)))
  }

  lemma AppendCases(n: Node, request: AppendRequest)
    requires n.log.Valid()
    ensures AppendOutcome(n, request, n.HandleAppendEntries(request).1)
  {
    hide WellNumbered, Node.Accept, Node.Mismatch, Outbox.Stage;
  }

  /** What accepting the entries changes. */
  lemma AcceptFacts(n: Node, request: AppendRequest, before: HardState)
    requires n.log.Valid() && n.hard.commitIndex == n.log.commitIndex
    ensures var after := n.Accept(request, before).1;
            var (status, merged) := Merge(n.log, request.entries);
            && merged.commitIndex == n.log.commitIndex
            && after.log.Valid()
            && (status != Ok ==> after == n)
            && (status == Ok ==>
                  var c := Max(n.log.commitIndex, Min(request.leaderCommit, |merged.full|));
                  after == n.(log := merged.(commitIndex := c), hard := n.hard.(commitIndex := c),
                              progress := after.progress, outbox := after.outbox))
  {
    MergeFacts(n.log, request.entries);
    hide WellNumbered, Merge, Outbox.Stage;
  }

  lemma {:induction false} SearchCommitRange(n: Node, index: LogIndex)
    requires n.Valid() && index <= n.log.LastIndex()
    ensures var r := n.SearchCommit(index);
            r.Success? ==> n.log.commitIndex <= r.value <= Max(index, n.log.commitIndex)
    decreases index
  {
    if index > n.log.commitIndex {
      SearchCommitRange(n, index - 1);
    }
  }

  lemma TryAdvanceContinues(n: Node)
    requires n.Valid()
    ensures Continues(n, n.TryAdvanceCommit().1)
  {
    SearchCommitRange(n, n.log.LastIndex());
  }

  lemma AcceptContinues(n: Node, request: AppendRequest, before: HardState)
    requires n.Valid()
    ensures Continues(n, n.Accept(request, before).1)
  {
    hide Settled, ActiveVoters, Distinct, SetOf, WellNumbered, Merge, Node.Accept;
    AcceptFacts(n, request, before);
    MergeFacts(n.log, request.entries);
  }

  lemma AppendEntriesContinues(n: Node, request: AppendRequest)
    requires n.Valid()
    ensures Continues(n, n.HandleAppendEntries(request).1)
  {
    hide Settled, ActiveVoters, Distinct, SetOf, WellNumbered, Node.Accept, Node.HandleAppendEntries;
    AppendCases(n, request);
    AcceptContinues(Heard(n, request), request, n.hard);
  }

  lemma AppendResponseContinues(n: Node, source: NodeId, response: AppendResponse)
    requires n.Valid()
    ensures Continues(n, n.HandleAppendResponse(source, response).1)
  {
    if source in n.progress {
      var p := n.progress[source].(isActive := true);
      var matched := Max(p.matchIndex, response.matchIndex);
      var advanced := p.(matchIndex := matched, nextIndex := Max(p.nextIndex, matched + 1));
      TryAdvanceContinues(n.(progress := n.progress[source := advanced]));
    }
  }

  /** The leader with one more entry, before it looks for something to commit. */
  ghost function WithEntry(n: Node, entry: LogEntry): Node {
    n.(log := n.log.(full := n.log.full + [entry]),
       progress := if n.id in n.progress
         then n.progress[n.id := n.progress[n.id].(matchIndex := entry.index, nextIndex := entry.index + 1)]
         else n.progress)
  }

  lemma WithEntryContinues(n: Node, entry: LogEntry)
    requires n.Valid() && entry.index == n.log.LastIndex() + 1 && entry.term > 0
    ensures Continues(n, WithEntry(n, entry))
  {
    hide Settled, ActiveVoters, Distinct, SetOf;
    assert (n.log.full + [entry])[..n.log.commitIndex] == n.log.full[..n.log.commitIndex];
  }

  lemma AppendOwnOutcome(n: Node, kind: EntryKind, payload: Bytes)
    requires n.Valid()
    ensures var entry := LogEntry(n.log.LastIndex() + 1, n.Term(), kind, payload);
            n.AppendOwn(kind, payload)
            == if n.Term() == 0 then (InvalidArgument, n) else WithEntry(n, entry).TryAdvanceCommit()
  {
    hide Settled, ActiveVoters, Distinct, SetOf, WellNumbered, Node.TryAdvanceCommit;
    var batch := [LogEntry(n.log.LastIndex() + 1, n.Term(), kind, payload)];
    assert batch[0].term == n.Term();
    assert n.log.GoodBatch(batch, n.log.LastIndex() + 1) <==> n.Term() > 0;
  }

  lemma AppendOwnContinues(n: Node, kind: EntryKind, payload: Bytes)
    requires n.Valid()
    ensures Continues(n, n.AppendOwn(kind, payload).1)
  {
    hide Node.Valid, Continues, Node.AppendOwn, Node.TryAdvanceCommit, WithEntry;
    AppendOwnOutcome(n, kind, payload);
    if n.Term() == 0 {
      StaysContinues(n);
    } else {
      var m := WithEntry(n, LogEntry(n.log.LastIndex() + 1, n.Term(), kind, payload));
      WithEntryContinues(n, LogEntry(n.log.LastIndex() + 1, n.Term(), kind, payload));
      ContinuesValid(n, m);
      TryAdvanceContinues(m);
      ContinuesTransitive(n, m, m.TryAdvanceCommit().1);
    }
  }

  lemma StaysContinues(n: Node)
    requires n.Valid()
    ensures Continues(n, n)
  {
    hide Settled, ActiveVoters, Distinct, SetOf, WellNumbered;
  }

  lemma ContinuesValid(before: Node, after: Node)
    requires before.Valid() && Continues(before, after)
    ensures after.Valid()
  {
  }

  lemma ApplyEntryFacts(m: Membership, entry: Membership)
    requires m == NO_MEMBERSHIP || Settled(m)
    ensures var r := ApplyEntry(m, entry); r.Success? ==> Settled(r.value)
  {
    if ValidMembership(entry) {
      SortedFacts(entry);
    }
  }

  lemma ApplyMembershipContinues(n: Node, entry: LogEntry)
    requires n.Valid()
    ensures Continues(n, n.ApplyMembershipEntry(entry).1)
  {
    hide Settled, ActiveVoters, AppliedLearners, Listing, Distinct, SetOf, ApplyEntry, Codec.Decode, WellNumbered;
    var decoded := Codec.Decode(entry.payload);
    if decoded.Success? {
      ApplyEntryFacts(n.membership, decoded.value);
      var applied := ApplyEntry(n.membership, decoded.value);
      if applied.Success? {
        ListingFacts(ActiveVoters(applied.value));
      }
    }
  }

  /** What retargeting the progress table leaves alone. */
  lemma RetargetedFacts(n: Node)
    ensures n.Retargeted() == n.(progress := n.Retargeted().progress)
  {
  }

  lemma SnapshotContinues(n: Node, index: LogIndex, term: Term, view: Membership)
    requires n.Valid()
    ensures Continues(n, n.UpdateSnapshotBoundary(index, term, view).1)
  {
    hide ActiveVoters, TransitionLearners, Listing, Distinct, SetOf, WellNumbered, ValidMembership, SortMembers,
         Node.Retargeted;
    if view.configurationId != 0 && ValidMembership(view) {
      SortedFacts(view);
      ListingFacts(ActiveVoters(Sorted(view)));
    }
    var compacted := n.(log := n.log.UpdateSnapshotBoundary(index, term).1);
    RetargetedFacts(compacted);
    var s := Sorted(view);
    RetargetedFacts(compacted.(membership := s, voters := Listing(ActiveVoters(s)),
                               learners := Listing(TransitionLearners(s)),
                               hard := compacted.hard.(configurationId := s.configurationId)));
  }

  lemma RoleCallContinues(n: Node, call: Call)
    requires n.Valid()
    requires call.CallTick? || call.CallUpdateTimeout? || call.CallBecomeFollower? || call.CallStartElection?
             || call.CallBecomeLeader?
    ensures Continues(n, After(n, call))
  {
    hide Settled, ActiveVoters, Distinct, SetOf, WellNumbered;
  }

  lemma VoteCallContinues(n: Node, call: Call)
    requires n.Valid() && (call.CallRequestVote? || call.CallVoteResponse?)
    ensures Continues(n, After(n, call))
  {
    hide Settled, ActiveVoters, Distinct, SetOf, WellNumbered, Outbox.Stage;
  }

  lemma SendCallContinues(n: Node, call: Call)
    requires n.Valid() && (call.CallBuildAppend? || call.CallBuildSnapshot? || call.CallSnapshotResponse?)
    ensures Continues(n, After(n, call))
  {
    hide Settled, ActiveVoters, Distinct, SetOf, WellNumbered, Outbox.Stage;
  }

  lemma ConfirmContinues(n: Node, call: Call)
    requires n.Valid() && (call.CallConfirmApplied? || call.CallConfirmPersistence?)
    ensures Continues(n, After(n, call))
  {
    hide Settled, ActiveVoters, Distinct, SetOf, WellNumbered, Outbox.Reclassify;
  }

  lemma ProposalContinues(n: Node, call: Call)
    requires n.Valid() && (call.CallPropose? || call.CallProposeChange?)
    ensures Continues(n, After(n, call))
  {
    hide Settled, ActiveVoters, Distinct, SetOf, WellNumbered, Build, Codec.Encode, Node.AppendOwn;
    match call
    case CallPropose(payload) => AppendOwnContinues(n, Command, payload);
    case CallProposeChange(change) =>
      var entry := Build(n.membership, change);
      if entry.Success? {
        var payload := Codec.Encode(entry.value);
        if payload.Success? {
          AppendOwnContinues(n, MembershipChange, payload.value);
        }
      }
  }

  lemma CallContinues(n: Node, call: Call)
    requires n.Valid()
    ensures Continues(n, After(n, call))
  {
    hide Continues, Node.HandleAppendEntries, Node.HandleAppendResponse, Node.ApplyMembershipEntry,
         Node.UpdateSnapshotBoundary;
    match call
    case CallTick | CallUpdateTimeout(_) | CallBecomeFollower(_, _) | CallStartElection | CallBecomeLeader =>
      RoleCallContinues(n, call);
    case CallRequestVote(_) | CallVoteResponse(_, _) => VoteCallContinues(n, call);
    case CallBuildAppend(_) | CallBuildSnapshot(_) | CallSnapshotResponse(_, _) => SendCallContinues(n, call);
    case CallAppendEntries(request) => AppendEntriesContinues(n, request);
    case CallAppendResponse(source, response) => AppendResponseContinues(n, source, response);
    case CallPropose(payload) => ProposalContinues(n, call);
    case CallProposeChange(change) => ProposalContinues(n, call);
    case CallApplyMembership(entry) => ApplyMembershipContinues(n, entry);
    case CallConfirmApplied(_) | CallConfirmPersistence(_) => ConfirmContinues(n, call);
    case CallUpdateSnapshot(index, term, view) => SnapshotContinues(n, index, term, view);
  }

  lemma CallKeepsValid(n: Node, call: Call)
    requires n.Valid()
    ensures After(n, call).Valid() && After(n, call).id == n.id
  {
    hide After, Node.Valid;
    CallContinues(n, call);
  }

  // ---------------------------------------------------------------- votes

  /** How one call may change the node's right to vote. */
  ghost predicate VotesFairly(before: Node, after: Node, vote: Option<(Term, NodeId)>) {
    match vote
    case Some((term, candidate)) =>
      && before.role != Learner && candidate != 0
      && after.Term() == term && after.hard.votedFor == candidate
      && (term == before.Term() ==> before.hard.votedFor == 0 || before.hard.votedFor == candidate)
    case None =>
      || after.role == Learner
      || after.Term() > before.Term()
      || (after.Term() == before.Term() && after.hard.votedFor == before.hard.votedFor)
  }

  lemma CallVotesFairly(n: Node, call: Call)
    requires n.Valid()
    ensures VotesFairly(n, After(n, call), VoteCast(n, call))
  {
    hide Node.Valid, VotesFairly, Node.HandleRequestVote, Node.HandleVoteResponse, Node.HandleAppendEntries,
         Node.HandleAppendResponse, Node.ApplyMembershipEntry, Node.UpdateSnapshotBoundary;
    match call
    case CallAppendEntries(request) => AppendEntriesKeepsVote(n, request);
    case CallAppendResponse(source, response) => AppendResponseKeepsVote(n, source, response);
    case CallApplyMembership(entry) => ApplyMembershipKeepsVote(n, entry);
    case CallUpdateSnapshot(index, term, view) => SnapshotKeepsVote(n, index, term, view);
    case CallPropose(_) | CallProposeChange(_) => ProposalKeepsVote(n, call);
    case CallRequestVote(_) | CallVoteResponse(_, _) => VoteCallIsFair(n, call);
    case CallTick | CallUpdateTimeout(_) | CallBecomeFollower(_, _) | CallStartElection | CallBecomeLeader =>
      RoleCallIsFair(n, call);
    case _ => SendCallKeepsVote(n, call);
  }

  lemma ProposalKeepsVote(n: Node, call: Call)
    requires n.Valid() && (call.CallPropose? || call.CallProposeChange?)
    ensures VotesFairly(n, After(n, call), None)
  {
    hide Settled, ActiveVoters, Distinct, SetOf, WellNumbered, Build, Codec.Encode, Node.SearchCommit, LogState.Append,
         Node.PendingChange, Node.ActiveCount;
  }

  lemma VoteCallIsFair(n: Node, call: Call)
    requires n.Valid() && (call.CallRequestVote? || call.CallVoteResponse?)
    ensures VotesFairly(n, After(n, call), VoteCast(n, call))
  {
    hide Settled, ActiveVoters, Distinct, SetOf, WellNumbered, Outbox.Stage, Node.UpToDate;
  }

  lemma RoleCallIsFair(n: Node, call: Call)
    requires n.Valid()
    requires call.CallTick? || call.CallUpdateTimeout? || call.CallBecomeFollower? || call.CallStartElection?
             || call.CallBecomeLeader?
    ensures VotesFairly(n, After(n, call), VoteCast(n, call))
  {
    hide Settled, ActiveVoters, Distinct, SetOf, WellNumbered;
  }

  lemma SendCallKeepsVote(n: Node, call: Call)
    requires n.Valid()
    requires call.CallBuildAppend? || call.CallBuildSnapshot? || call.CallSnapshotResponse? || call.CallConfirmApplied?
             || call.CallConfirmPersistence?
    ensures VotesFairly(n, After(n, call), None)
  {
    hide Settled, ActiveVoters, Distinct, SetOf, WellNumbered, Outbox.Stage, Outbox.Reclassify;
  }

  lemma AppendEntriesKeepsVote(n: Node, request: AppendRequest)
    requires n.Valid()
    ensures VotesFairly(n, n.HandleAppendEntries(request).1, None)
  {
    hide Settled, ActiveVoters, Distinct, SetOf, WellNumbered, Merge, Node.Accept, Node.HandleAppendEntries;
    AppendCases(n, request);
    AcceptFacts(Heard(n, request), request, n.hard);
  }

  lemma AppendResponseKeepsVote(n: Node, source: NodeId, response: AppendResponse)
    requires n.Valid()
    ensures VotesFairly(n, n.HandleAppendResponse(source, response).1, None)
  {
    hide Settled, ActiveVoters, Distinct, SetOf, WellNumbered, Node.SearchCommit, Node.BackOff;
  }

  lemma ApplyMembershipKeepsVote(n: Node, entry: LogEntry)
    requires n.Valid()
    ensures VotesFairly(n, n.ApplyMembershipEntry(entry).1, None)
  {
    hide Settled, ActiveVoters, AppliedLearners, Listing, Distinct, SetOf, WellNumbered, ApplyEntry, Codec.Decode;
  }

  lemma SnapshotKeepsVote(n: Node, index: LogIndex, term: Term, view: Membership)
    requires n.Valid()
    ensures VotesFairly(n, n.UpdateSnapshotBoundary(index, term, view).1, None)
  {
    hide Settled, ActiveVoters, TransitionLearners, Listing, Distinct, SetOf, WellNumbered, ValidMembership, SortMembers;
  }

  // ---------------------------------------------------------------- runs

  ghost function Run(n: Node, calls: seq<Call>): Node
    requires n.Valid()
    decreases |calls|
  {
    if calls == [] then n else
      CallContinues(n, calls[0]);
      Run(After(n, calls[0]), calls[1..])
  }

  ghost function Votes(n: Node, calls: seq<Call>): seq<(Term, NodeId)>
    requires n.Valid()
    decreases |calls|
  {
    if calls == [] then [] else
      CallContinues(n, calls[0]);
      var vote := VoteCast(n, calls[0]);
      (if vote.Some? then [vote.value] else []) + Votes(After(n, calls[0]), calls[1..])
  }

  lemma ContinuesTransitive(a: Node, b: Node, c: Node)
    requires a.Valid() && Continues(a, b) && Continues(b, c)
    ensures Continues(a, c)
  {
    hide Settled, ActiveVoters, Distinct, SetOf, WellNumbered;
  }

  /**
   Over any run of calls the committed log, compacted part included, only grows; the term never
   decreases; the stored commit index is the log's; and a learner stays a learner.
   */
  lemma {:induction false} RunContinues(n: Node, calls: seq<Call>)
    requires n.Valid()
    ensures Continues(n, Run(n, calls))
    ensures Run(n, calls).hard.commitIndex == Run(n, calls).log.commitIndex
    decreases |calls|
  {
    hide Settled, ActiveVoters, Distinct, SetOf, WellNumbered, After;
    if calls != [] {
      var next := After(n, calls[0]);
      CallContinues(n, calls[0]);
      RunContinues(next, calls[1..]);
      ContinuesTransitive(n, next, Run(next, calls[1..]));
    }
  }

  /** The votes so far: at most one candidate per term, and the node still remembers the latest. */
  ghost predicate RemembersVotes(n: Node, votes: seq<(Term, NodeId)>) {
    && (forall v :: v in votes ==> v.0 <= n.Term())
    && (forall v :: v in votes && v.0 == n.Term() && n.role != Learner ==> n.hard.votedFor == v.1 && v.1 != 0)
    && OneCandidatePerTerm(votes)
  }

  ghost predicate OneCandidatePerTerm(votes: seq<(Term, NodeId)>) {
    forall v, w :: v in votes && w in votes && v.0 == w.0 ==> v.1 == w.1
  }

  lemma RemembersNext(n: Node, call: Call, votes: seq<(Term, NodeId)>)
    requires n.Valid() && RemembersVotes(n, votes)
    ensures var vote := VoteCast(n, call);
            RemembersVotes(After(n, call), votes + if vote.Some? then [vote.value] else [])
  {
    hide Settled, ActiveVoters, Distinct, SetOf, WellNumbered, After, VoteCast;
    CallContinues(n, call);
    CallVotesFairly(n, call);
  }

  lemma {:induction false} RunRemembersVotes(n: Node, calls: seq<Call>, votes: seq<(Term, NodeId)>)
    requires n.Valid() && RemembersVotes(n, votes)
    ensures RemembersVotes(Run(n, calls), votes + Votes(n, calls))
    decreases |calls|
  {
    hide Settled, ActiveVoters, Distinct, SetOf, WellNumbered, After, VoteCast, RemembersVotes;
    if calls == [] {
      assert votes + [] == votes;
    } else {
      var next := After(n, calls[0]);
      var vote := VoteCast(n, calls[0]);
      var cast := if vote.Some? then [vote.value] else [];
      CallContinues(n, calls[0]);
      RemembersNext(n, calls[0], votes);
      RunRemembersVotes(next, calls[1..], votes + cast);
      assert votes + cast + Votes(next, calls[1..]) == votes + (cast + Votes(next, calls[1..]));
    }
  }

  /** The vote a node was initialised with, if any. */
  ghost function InitialVotes(n: Node): seq<(Term, NodeId)> {
    if n.hard.votedFor != 0 then [(n.Term(), n.hard.votedFor)] else []
  }

  /** In every run each term has at most one candidate the node ever votes for, self-votes included. */
  lemma OneVotePerTerm(n: Node, calls: seq<Call>)
    requires n.Valid()
    ensures OneCandidatePerTerm(InitialVotes(n) + Votes(n, calls))
  {
    hide Settled, ActiveVoters, Distinct, SetOf, WellNumbered, After, VoteCast;
    RunRemembersVotes(n, calls, InitialVotes(n));
  }

  lemma InitialNodeValid(o: Options)
    requires ValidOptions(o)
    ensures InitialNode(o).Valid()
  {
    hide ActiveVoters, TransitionLearners, Listing;
    assert o.voters == (o.voters + o.learners)[..|o.voters|];
    if o.membership.Some? {
      SortedFacts(o.membership.value);
      ListingFacts(ActiveVoters(Sorted(o.membership.value)));
    }
  }
}
