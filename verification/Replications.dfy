/**
 How a leader brings a follower up to date: what a success response does to the leader's record of the
 peer, what it then sends, and that repeating the exchange ends with the leader's log at the follower and
 the leader knowing it.
 */
module Replications {
  import opened Common
  import opened RaftTypes
  import opened IdSets
  import opened LogModel
  import opened Messages
  import opened MembershipRules
  import opened ActiveMembers
  import opened NodeModel
  import opened NodeRuns
  import opened CommitRule
  import opened Deliveries
  import opened Backtracking
  import Elections
  import Codec = MembershipCodec

  // ---------------------------------------------------------------- a success response

  /** The response is for this leader, in its term, from a member. */
  ghost predicate FromMember(l: Node, peer: NodeId, term: Term) {
    && l.role == Leader && term == l.hard.currentTerm && peer != 0
    && (peer in l.voters || peer in l.learners)
  }

  /** The record of a peer that has confirmed the log up to an index. */
  ghost predicate Confirmed(before: PeerProgress, after: PeerProgress, index: LogIndex) {
    && after.isActive && after.isLearner == before.isLearner
    && after.matchIndex == (if index > before.matchIndex then index else before.matchIndex)
    && after.nextIndex == (if after.matchIndex >= before.nextIndex then after.matchIndex + 1 else before.nextIndex)
  }

  lemma TryAdvanceKeeps(n: Node)
    ensures var after := n.TryAdvanceCommit().1;
            after == n.(log := n.log.(commitIndex := after.log.commitIndex),
                        hard := n.hard.(commitIndex := after.hard.commitIndex))
  {
    hide Node.SearchCommit;
  }

  /**
   A success from a tracked member is taken if and only if it reports no more than the leader has, and
   something if the leader has anything; then exactly the record of that peer changes, to the larger match
   index and a next index above it, and the commit index is looked for again.
   */
  lemma SuccessOutcome(l: Node, peer: NodeId, response: AppendResponse)
    requires l.Valid() && FromMember(l, peer, response.term) && peer in l.progress && response.success
    ensures var (status, after, action) := l.HandleAppendResponse(peer, response);
            var taken := response.matchIndex <= |l.log.full| && (response.matchIndex > 0 || l.log.full == []);
            && (taken ==>
                  && after.progress.Keys == l.progress.Keys
                  && Confirmed(l.progress[peer], after.progress[peer], response.matchIndex)
                  && (forall p :: p in l.progress && p != peer ==> after.progress[p] == l.progress[p])
                  && after == l.(progress := after.progress, log := l.log.(commitIndex := after.log.commitIndex),
                                 hard := l.hard.(commitIndex := after.log.commitIndex))
                  && (status == Ok <==> action == Accepted))
            && (taken && !SomeVoterUntracked(l) ==>
                  && action == Accepted
                  && (|| after.log.commitIndex == l.log.commitIndex
                      || Committable(l.(progress := after.progress), after.log.commitIndex))
                  && forall i :: after.log.commitIndex < i ==> !Committable(l.(progress := after.progress), i))
            && (!taken ==>
                  && status == InvalidArgument && action == NoAppendAction
                  && after == l.(progress := after.progress)
                  && forall p :: p in l.progress ==>
                       && p in after.progress
                       && after.progress[p] == l.progress[p].(isActive := after.progress[p].isActive))
  {
    hide Settled, ActiveVoters, Distinct, SetOf, WellNumbered, Node.SearchCommit, Committable, SomeVoterUntracked;
    var p := l.progress[peer].(isActive := true);
    var matched := Max(p.matchIndex, response.matchIndex);
    var told := l.(progress := l.progress[peer := p.(matchIndex := matched, nextIndex := Max(p.nextIndex, matched + 1))]);
    SameVotersTracked(l, told);
    CommitFailsIff(told);
    if !SomeVoterUntracked(told) {
      LeaderCommitRule(told);
    }
  }

  /** A rejection that names a conflict only lowers the next index of that peer, as far as it tells the leader to. */
  lemma RejectionOutcome(l: Node, peer: NodeId, response: AppendResponse)
    requires FromMember(l, peer, response.term) && peer in l.progress && !response.success && response.conflictIndex > 0
    ensures var (status, after, action) := l.HandleAppendResponse(peer, response);
            && status == Ok && action == NodeModel.Rejected
            && after == l.(progress := after.progress) && after.progress.Keys == l.progress.Keys
            && (forall p :: p in l.progress && p != peer ==> after.progress[p] == l.progress[p])
            && after.progress[peer] == l.progress[peer].(isActive := true, nextIndex :=
                 Min(l.progress[peer].nextIndex, l.BackOff(response.conflictIndex, response.conflictTerm)))
  {
    hide Node.BackOff;
  }

  /** Any other response: malformed or from a stranger, from an older term, or the end of the role. */
  lemma OtherResponseOutcome(l: Node, peer: NodeId, response: AppendResponse)
    requires l.Valid()
    ensures var (status, after, action) := l.HandleAppendResponse(peer, response);
            var known := peer != 0 && (peer in l.voters || peer in l.learners);
            && (!known ==> status == InvalidArgument && after == l)
            && (action == AppendStepDown <==> known && response.term > l.hard.currentTerm
                                              && (response.success && response.matchIndex == 0 ==> l.log.full == []))
            && (action == AppendStepDown ==>
                  && status == Ok && after.hard == l.hard.(currentTerm := response.term, votedFor := 0)
                  && after.role == (if l.role == Learner then Learner else Follower)
                  && (l.role != Learner ==> after.leaderId == 0 && after.electionElapsed == 0)
                  && after == l.(hard := after.hard, role := after.role, leaderId := after.leaderId,
                                 electionElapsed := after.electionElapsed))
            && (response.term < l.hard.currentTerm ==> after == l && action == NoAppendAction)
            && (response.term == l.hard.currentTerm && l.role != Leader ==> after == l && action == NoAppendAction)
  {
    hide Settled, ActiveVoters, Distinct, SetOf, WellNumbered, Node.TryAdvanceCommit, Node.BackOff;
  }

  /** A heartbeat names the leader's last entry and carries none. */
  lemma HeartbeatBuiltIff(l: Node)
    requires l.Valid()
    ensures l.BuildHeartbeat().Success? <==> l.role == Leader
    ensures l.role == Leader ==> CarriesRest(l, |l.log.full| + 1, l.BuildHeartbeat().value)
  {
    hide Settled, ActiveVoters, Distinct, SetOf, WellNumbered;
  }

  /** A snapshot the peer has installed counts like a confirmed log, unless the leader has no such snapshot. */
  lemma SnapshotResponseOutcome(l: Node, peer: NodeId, response: SnapshotResponse)
    requires l.role == Leader && response.term == l.hard.currentTerm && peer != 0
    ensures var (status, after) := l.HandleSnapshotResponse(peer, response);
            && (status == Ok <==> && response.success && response.lastIncludedIndex <= l.log.snapshotIndex
                                  && peer in l.progress)
            && (status == Ok ==>
                  && after == l.(progress := after.progress) && after.progress.Keys == l.progress.Keys
                  && Confirmed(l.progress[peer], after.progress[peer], response.lastIncludedIndex)
                  && forall p :: p in l.progress && p != peer ==> after.progress[p] == l.progress[p])
            && (status != Ok ==> after == l)
            && (status == NotFound <==> && response.success && response.lastIncludedIndex <= l.log.snapshotIndex
                                        && peer !in l.progress)
            && status in {Ok, InvalidArgument, NotFound}
  {
  }

  // ---------------------------------------------------------------- what the leader sends

  /** The request carries everything the peer does not have yet, and what it needs to check it. */
  ghost predicate CarriesRest(l: Node, next: LogIndex, request: AppendRequest)
    requires 1 <= next <= |l.log.full| + 1
  {
    && request.term == l.hard.currentTerm && request.leaderId == l.id && request.leaderCommit == l.log.commitIndex
    && request.prevLogIndex == next - 1
    && request.prevLogTerm == (if next == 1 then 0 else l.log.full[next - 2].term)
    && next - 1 + |request.entries| == |l.log.full|
    && forall k :: 0 <= k < |request.entries| ==> request.entries[k] == l.log.full[next - 1 + k]
  }

  /** A leader can send a peer its log if and only if it still has everything from the peer's next index on. */
  lemma AppendBuiltIff(l: Node, peer: NodeId)
    requires l.Valid()
    ensures var (status, after, request) := l.BuildAppendEntries(peer);
            && (status == Ok <==> && l.role == Leader && peer != l.id && peer in l.progress
                                  && l.log.snapshotIndex < l.progress[peer].nextIndex <= |l.log.full| + 1)
            && (status == Ok <==> request.Some?)
            && (status == InvalidArgument <==> l.role != Leader || peer == l.id)
            && (status == RetryLater <==> && l.role == Leader && peer != l.id && peer in l.progress
                                          && l.progress[peer].nextIndex <= l.log.snapshotIndex)
            && status in {Ok, InvalidArgument, NotFound, RetryLater}
            && (status == Ok ==> CarriesRest(l, l.progress[peer].nextIndex, request.value)
                                 && Message(l.id, peer, AppendOrder(request.value)) in Elections.Waiting(after.outbox))
            && after == l.(outbox := after.outbox)
  {
    hide Settled, ActiveVoters, Distinct, SetOf, WellNumbered;
  }

  /** A leader can send a peer its snapshot if and only if the peer's next index is in it. */
  lemma SnapshotBuiltIff(l: Node, peer: NodeId)
    requires l.Valid()
    ensures var (status, after, request) := l.BuildInstallSnapshot(peer);
            && (status == Ok <==> && l.role == Leader && peer != l.id && peer in l.progress
                                  && 0 < l.log.snapshotIndex && l.progress[peer].nextIndex <= l.log.snapshotIndex)
            && (status == Ok <==> request.Some?)
            && (status == NotFound <==> && l.role == Leader && peer != l.id
                                        && (l.log.snapshotIndex == 0 || peer !in l.progress))
            && status in {Ok, InvalidArgument, NotFound}
            && (status == Ok ==>
                  && request.value == SnapshotRequest(l.hard.currentTerm, l.id, l.log.snapshotIndex,
                                                      l.log.full[l.log.snapshotIndex - 1].term, l.membership)
                  && Message(l.id, peer, SnapshotOrder(request.value)) in Elections.Waiting(after.outbox))
            && after == l.(outbox := after.outbox)
  {
    hide Settled, ActiveVoters, Distinct, SetOf, WellNumbered;
  }

  /**
   What a leader sends next after a success starts past what was reported; once the whole log was reported it
   carries nothing.
   */
  lemma RequestAfterSuccess(l: Node, peer: NodeId, response: AppendResponse)
    requires l.Valid() && InRange(l) && FromMember(l, peer, response.term) && peer in l.progress && peer != l.id
    requires response.success && response.matchIndex <= |l.log.full| && (response.matchIndex > 0 || l.log.full == [])
    ensures var request := l.HandleAppendResponse(peer, response).1.BuildAppendEntries(peer).2;
            && (request.Some? ==> request.value.prevLogIndex >= response.matchIndex)
            && (response.matchIndex == |l.log.full| ==> request.Some? && request.value.entries == [])
  {
    hide Node.Valid, Node.HandleAppendResponse, Node.BuildAppendEntries, SomeVoterUntracked, Committable;
    SuccessOutcome(l, peer, response);
    ResponseStays(l, peer, response);
    AppendBuiltIff(l.HandleAppendResponse(peer, response).1, peer);
  }

  lemma ResponseStays(l: Node, peer: NodeId, response: AppendResponse)
    requires l.Valid()
    ensures l.HandleAppendResponse(peer, response).1.Valid() && l.log.snapshotIndex <= |l.log.full|
  {
    CallKeepsValid(l, CallAppendResponse(peer, response));
  }

  // ---------------------------------------------------------------- every peer can be served

  /** A leader's record of its peers stays within its log. */
  ghost predicate InRange(n: Node) {
    n.role == Leader ==>
      forall p :: p in n.progress ==>
        n.progress[p].matchIndex <= |n.log.full| && 1 <= n.progress[p].nextIndex <= |n.log.full| + 1
  }

  /** Of the two requests a leader may send to a tracked peer, exactly one can be built. */
  lemma PeerCanBeServed(l: Node, peer: NodeId)
    requires l.Valid() && InRange(l) && l.role == Leader && peer in l.progress && peer != l.id
    ensures l.BuildAppendEntries(peer).0 == Ok <==> l.BuildInstallSnapshot(peer).0 != Ok
  {
    hide Node.Valid, Node.BuildAppendEntries, Node.BuildInstallSnapshot;
    AppendBuiltIff(l, peer);
    SnapshotBuiltIff(l, peer);
  }

  /** The node is not told to append by a request that names itself as the leader while it leads. */
  ghost predicate NotItsOwn(n: Node, call: Call) {
    call.CallAppendEntries? && n.role == Leader ==> call.append.leaderId != n.id
  }

  lemma ResponseKeepsRange(n: Node, source: NodeId, response: AppendResponse)
    requires n.Valid() && InRange(n)
    ensures InRange(n.HandleAppendResponse(source, response).1)
  {
    hide Settled, ActiveVoters, Distinct, SetOf, WellNumbered, Node.TryAdvanceCommit, Node.LastIndexOfTerm;
    if source in n.progress {
      var p := n.progress[source].(isActive := true);
      var matched := Max(p.matchIndex, response.matchIndex);
      var told := p.(matchIndex := matched, nextIndex := Max(p.nextIndex, matched + 1));
      TryAdvanceKeeps(n.(progress := n.progress[source := told]));
    }
  }

  lemma ProposalKeepsRange(n: Node, kind: EntryKind, payload: Bytes)
    requires n.Valid() && InRange(n)
    ensures InRange(n.AppendOwn(kind, payload).1)
  {
    hide Settled, ActiveVoters, Distinct, SetOf, WellNumbered, Node.TryAdvanceCommit, Node.AppendOwn;
    AppendOwnOutcome(n, kind, payload);
    if n.Term() > 0 {
      TryAdvanceKeeps(WithEntry(n, LogEntry(n.log.LastIndex() + 1, n.Term(), kind, payload)));
    }
  }

  lemma ChangeKeepsRange(n: Node, change: Change)
    requires n.Valid() && InRange(n)
    ensures InRange(n.ProposeChange(change).1)
  {
    hide Node.Valid, InRange, Node.AppendOwn, Node.Refusal, Build, Codec.Encode;
    var entry := Build(n.membership, change);
    if entry.Success? && Codec.Encode(entry.value).Success? {
      ProposalKeepsRange(n, MembershipChange, Codec.Encode(entry.value).value);
    }
  }

  lemma MembershipKeepsRange(n: Node, entry: LogEntry)
    requires n.Valid() && InRange(n)
    ensures InRange(n.ApplyMembershipEntry(entry).1)
  {
    hide Settled, ActiveVoters, AppliedLearners, Listing, Distinct, SetOf, WellNumbered, ApplyEntry, Codec.Decode;
  }

  lemma RetargetedInRange(n: Node)
    requires InRange(n)
    ensures InRange(n.Retargeted())
  {
    hide SetOf;
  }

  lemma SnapshotKeepsRange(n: Node, index: LogIndex, term: Term, view: Membership)
    requires n.Valid() && InRange(n)
    ensures InRange(n.UpdateSnapshotBoundary(index, term, view).1)
  {
    hide Settled, ActiveVoters, TransitionLearners, Listing, Distinct, SetOf, WellNumbered, ValidMembership, SortMembers,
         Node.Retargeted;
    var compacted := n.(log := n.log.UpdateSnapshotBoundary(index, term).1);
    var s := Sorted(view);
    var moved := compacted.(membership := s, voters := Listing(ActiveVoters(s)), learners := Listing(TransitionLearners(s)),
                            hard := n.hard.(configurationId := s.configurationId));
    RetargetedInRange(compacted);
    RetargetedInRange(moved);
  }

  lemma RoleCallKeepsRange(n: Node, call: Call)
    requires n.Valid() && InRange(n)
    requires call.CallTick? || call.CallUpdateTimeout? || call.CallBecomeFollower? || call.CallStartElection?
             || call.CallBecomeLeader?
    ensures InRange(After(n, call))
  {
    hide Settled, ActiveVoters, Distinct, SetOf, WellNumbered;
  }

  lemma VoteCallKeepsRange(n: Node, request: VoteRequest)
    requires n.Valid() && InRange(n)
    ensures InRange(n.HandleRequestVote(request).1)
  {
    hide Settled, ActiveVoters, Distinct, SetOf, WellNumbered, Outbox.Stage, Node.UpToDate;
  }

  lemma VoteResponseKeepsRange(n: Node, source: NodeId, response: VoteResponse)
    requires n.Valid() && InRange(n)
    ensures InRange(n.HandleVoteResponse(source, response).1)
  {
    hide Settled, ActiveVoters, Distinct, SetOf, WellNumbered;
  }

  lemma SendCallKeepsRange(n: Node, call: Call)
    requires n.Valid() && InRange(n)
    requires call.CallBuildAppend? || call.CallBuildSnapshot? || call.CallSnapshotResponse?
    ensures InRange(After(n, call))
  {
    hide Settled, ActiveVoters, Distinct, SetOf, WellNumbered, Outbox.Stage;
  }

  lemma ConfirmKeepsRange(n: Node, call: Call)
    requires n.Valid() && InRange(n) && (call.CallConfirmApplied? || call.CallConfirmPersistence?)
    ensures InRange(After(n, call))
  {
    hide Settled, ActiveVoters, Distinct, SetOf, WellNumbered, Outbox.Reclassify;
  }

  lemma CallKeepsRange(n: Node, call: Call)
    requires n.Valid() && InRange(n) && NotItsOwn(n, call)
    ensures InRange(After(n, call))
  {
    hide Node.Valid, Node.HandleAppendEntries, Node.HandleAppendResponse, Node.ProposeChange, Node.AppendOwn,
         Node.ApplyMembershipEntry, Node.UpdateSnapshotBoundary;
    match call
    case CallAppendEntries(request) => AppendKeepsRange(n, request);
    case CallAppendResponse(source, response) => ResponseKeepsRange(n, source, response);
    case CallPropose(payload) => ProposalKeepsRange(n, Command, payload);
    case CallProposeChange(change) => ChangeKeepsRange(n, change);
    case CallApplyMembership(entry) => MembershipKeepsRange(n, entry);
    case CallUpdateSnapshot(index, term, view) => SnapshotKeepsRange(n, index, term, view);
    case CallRequestVote(request) => VoteCallKeepsRange(n, request);
    case CallVoteResponse(source, response) => VoteResponseKeepsRange(n, source, response);
    case CallBuildAppend(_) | CallBuildSnapshot(_) | CallSnapshotResponse(_, _) => SendCallKeepsRange(n, call);
    case CallConfirmApplied(_) | CallConfirmPersistence(_) => ConfirmKeepsRange(n, call);
    case CallTick | CallUpdateTimeout(_) | CallBecomeFollower(_, _) | CallStartElection | CallBecomeLeader =>
      RoleCallKeepsRange(n, call);
  }

  lemma AppendKeepsRange(n: Node, request: AppendRequest)
    requires n.Valid() && InRange(n) && (n.role == Leader ==> request.leaderId != n.id)
    ensures InRange(n.HandleAppendEntries(request).1)
  {
    hide Settled, ActiveVoters, Distinct, SetOf, WellNumbered, Node.HandleAppendEntries, Node.Accept, Merge;
    AppendCases(n, request);
    AcceptFacts(Heard(n, request), request, n.hard);
  }

  /** No call of the run is an append that names the leading node itself as its leader. */
  ghost predicate NeverItsOwn(n: Node, calls: seq<Call>)
    requires n.Valid()
    decreases |calls|
  {
    calls == [] || (NotItsOwn(n, calls[0])
                    && (CallKeepsValid(n, calls[0]); NeverItsOwn(After(n, calls[0]), calls[1..])))
  }

  /** Over every run from initialisation a leader's records stay within its log: no peer is ever out of reach. */
  lemma {:induction false} RunKeepsRange(n: Node, calls: seq<Call>)
    requires n.Valid() && InRange(n) && NeverItsOwn(n, calls)
    ensures Run(n, calls).Valid() && InRange(Run(n, calls))
    decreases |calls|
  {
    hide Node.Valid, InRange, After, NotItsOwn;
    if calls != [] {
      CallKeepsValid(n, calls[0]);
      CallKeepsRange(n, calls[0]);
      RunKeepsRange(After(n, calls[0]), calls[1..]);
    }
  }

  lemma InitialInRange(o: Options)
    ensures InRange(InitialNode(o))
  {
    hide ActiveVoters, TransitionLearners, Listing, SortMembers;
  }
}
