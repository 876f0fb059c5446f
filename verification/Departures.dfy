/**
 Where the core departs from textbook Raft: for each rule the code does not keep in general, the exact
 condition under which it does, and a run that shows what happens otherwise.
 */
module Departures {
  import opened Common
  import opened RaftTypes
  import opened IdSets
  import opened LogModel
  import opened Messages
  import opened MembershipRules
  import opened ActiveMembers
  import opened NodeModel
  import opened NodeRuns
  import opened NodeFrames
  import opened Lineages
  import opened AppendReports
  import Clusters
  import LogMatching
  import ElectionSafety
  import MembershipCodec

  ghost predicate WellFormedAppend(request: AppendRequest) {
    request.leaderId != 0 && (request.prevLogIndex > 0 ==> request.prevLogTerm > 0)
  }

  // ---------------------------------------------------------------- stepping down

  /** An append of a newer term makes every node but a leader stop leading; a leader only takes the term. */
  lemma StepsDownUnlessLeader(n: Node, request: AppendRequest)
    requires n.Valid() && WellFormedAppend(request) && request.term > n.Term()
    ensures var after := n.HandleAppendEntries(request).1;
            && after.Term() == request.term
            && (after.role == Follower || after.role == Learner <==> n.role != Leader)
  {
    hide Settled, ActiveVoters, Distinct, SetOf, WellNumbered, Merge, Node.Mismatch, Outbox.Stage;
  }

  /** A heartbeat of a newer leader leaves two leaders in one term. */
  lemma TwoLeadersShareATerm(older: Node, newer: Node)
    requires older.Valid() && newer.Valid() && older.role == Leader && newer.role == Leader
    requires older.Term() < newer.Term() && older.id != newer.id
    ensures newer.BuildHeartbeat().Success?
    ensures var after := older.HandleAppendEntries(newer.BuildHeartbeat().value).1;
            after.role == Leader && newer.role == Leader && after.Term() == newer.Term() && after.id != newer.id
  {
    hide Settled, ActiveVoters, Distinct, SetOf, Node.Mismatch, Outbox.Stage, Node.Accept;
  }

  // ---------------------------------------------------------------- the reported match index

  /** What a leader with this log sends after `prev`. */
  ghost predicate SentFrom(origin: seq<LogEntry>, request: AppendRequest) {
    && request.prevLogIndex <= |origin|
    && request.prevLogTerm == TermAt(origin, request.prevLogIndex)
    && request.entries == origin[request.prevLogIndex..]
  }

  ghost predicate Accepts(n: Node, request: AppendRequest)
    requires n.Valid()
  {
    var response := n.HandleAppendEntries(request).2;
    response.Some? && response.value.success
  }

  /** The prefix a success response reports is a prefix of the sender's log as well. */
  ghost predicate ReportIsShared(n: Node, request: AppendRequest, origin: seq<LogEntry>)
    requires n.Valid() && Accepts(n, request)
  {
    var (_, after, response) := n.HandleAppendEntries(request);
    var reported := response.value.matchIndex;
    reported <= |origin| && reported <= |after.log.full| && after.log.full[..reported] == origin[..reported]
  }

  /**
   A success response reports the follower's last index. For logs of one lineage the reported prefix is
   the sender's if and only if the follower did not already hold the sender's whole log and more.
   */
  lemma ReportIsSharedIff(n: Node, request: AppendRequest, lineage: Lineage, origin: seq<LogEntry>)
    requires n.Valid() && Follows(lineage, n.log.full) && Follows(lineage, origin) && WellNumbered(origin)
    requires SentFrom(origin, request) && Accepts(n, request)
    ensures ReportIsShared(n, request, origin) <==> !(origin < n.log.full)
    ensures origin <= n.HandleAppendEntries(request).1.log.full
  {
    hide Settled, ActiveVoters, Distinct, SetOf, WellNumbered, Node.HandleAppendEntries, Merge, Follows;
    SuccessReports(n, request);
    MergeFollows(lineage, n.log, origin, request.prevLogIndex);
    var after := n.HandleAppendEntries(request).1;
    if origin < n.log.full {
      LongerLogStays(n.log, origin, request.prevLogIndex);
    }
    assert after.log.full[..|after.log.full|] == after.log.full;
    assert origin[..|origin|] == origin;
  }

  lemma SenderFollows(c: Clusters.Cluster, p: Clusters.Packet)
    requires Sound(c.lineage) && p.AppendPacket? && LogMatching.FromLeader(c.lineage, p)
    ensures Follows(c.lineage, p.sender.full) && WellNumbered(p.sender.full)
    ensures SentFrom(p.sender.full, p.order)
  {
    hide Follows, TermsUpTo;
    PrefixFollows(c.lineage, p.sender.full, c.lineage[p.order.term]);
  }

  lemma DeliveredReportIsSharedIff(c: Clusters.Cluster, x: NodeId, p: Clusters.Packet)
    requires x in c.nodes && c.nodes[x].Valid() && p in c.net && p.AppendPacket? && Accepts(c.nodes[x], p.order)
    requires LogMatching.LogInv(c)
    ensures ReportIsShared(c.nodes[x], p.order, p.sender.full) <==> !(p.sender.full < c.nodes[x].log.full)
  {
    hide Node.Valid, Follows, ElectionSafety.ElectionInv, WellNumbered, Sound, Accepts, ReportIsShared, SentFrom,
         LogMatching.LineagesElected, LogMatching.LeadersHoldLineage, TermsUpTo, LogMatching.FromLeader;
    SenderFollows(c, p);
    ReportIsSharedIff(c.nodes[x], p.order, c.lineage, p.sender.full);
  }

  /** The same for every append that any node receives in any run of a cluster. */
  lemma ReachableReportIsSharedIff(states: seq<Clusters.Cluster>, steps: seq<Clusters.Step>, s: nat, x: NodeId,
                                   p: Clusters.Packet)
    requires s < |states| && x in states[s].nodes && states[s].nodes[x].Valid()
    requires p in states[s].net && p.AppendPacket? && Accepts(states[s].nodes[x], p.order)
    requires Clusters.Execution(states, steps)
    ensures ReportIsShared(states[s].nodes[x], p.order, p.sender.full)
            <==> !(p.sender.full < states[s].nodes[x].log.full)
  {
    hide Node.Valid, Accepts, ReportIsShared, Clusters.Execution, LogMatching.LogInv;
    LogMatching.ExecutionKeepsLogInv(states, steps, s);
    DeliveredReportIsSharedIff(states[s], x, p);
  }

  /** What a follower that did not already hold the sender's whole log and more answers is a true report. */
  lemma SharedReportsAreTrue(n: Node, p: Clusters.Packet, q: Clusters.Packet, lineage: Lineage)
    requires n.Valid() && p.AppendPacket? && Accepts(n, p.order)
    requires q in Clusters.Sent(n, CallAppendEntries(p.order))
    requires Follows(lineage, n.log.full) && Follows(lineage, p.sender.full) && WellNumbered(p.sender.full)
    requires SentFrom(p.sender.full, p.order) && !(p.sender.full < n.log.full)
    ensures q.ReplyPacket? && AppendReports.Truthful(q)
  {
    hide Settled, ActiveVoters, Distinct, SetOf, WellNumbered, Node.HandleAppendEntries, Merge, Follows;
    SuccessReports(n, p.order);
    MergeFollows(lineage, n.log, p.sender.full, p.order.prevLogIndex);
  }

  // A leader of term 2 in a cluster of three, and a follower with an uncommitted second entry of term 1.

  ghost function Entry(index: LogIndex, term: Term, payload: Bytes): LogEntry {
    LogEntry(index, term, Command, payload)
  }

  ghost function SampleNode(id: NodeId, role: Role, vote: NodeId, log: seq<LogEntry>, stable: LogIndex): Node {
    Node(id, role, 1, 0, 0, 1, HardState(2, vote, 0, 0), LogState(log, 0, stable, 0, 0), [1, 2, 3], [],
         NO_MEMBERSHIP,
         map[1 := PeerProgress(false, true, |log|, |log| + 1), 2 := PeerProgress(false, true, 0, 2),
             3 := PeerProgress(false, false, 0, 2)],
         HardState(2, vote, 0, 0), EMPTY_OUTBOX)
  }

  lemma SampleValid(id: NodeId, role: Role, vote: NodeId, log: seq<LogEntry>, stable: LogIndex)
    requires id != 0 && WellNumbered(log) && stable <= |log|
    ensures SampleNode(id, role, vote, log, stable).Valid()
  {
  }

  /** The response to a heartbeat reports the stale tail as matched. */
  lemma StaleTailIsReported(first: LogEntry, stale: LogEntry)
    requires first == Entry(1, 1, []) && stale == Entry(2, 1, [])
    ensures var leader, follower := SampleNode(1, Leader, 1, [first], 0), SampleNode(2, Follower, 3, [first, stale], 0);
            && leader.Valid() && follower.Valid() && leader.BuildHeartbeat().Success?
            && follower.HandleAppendEntries(leader.BuildHeartbeat().value).2
               == Some(AppendResponse(2, true, 2, 0, 0))
  {
    hide Outbox.Stage;
    SampleValid(1, Leader, 1, [first], 0);
    SampleValid(2, Follower, 3, [first, stale], 0);
  }

  // ---------------------------------------------------------------- votes durable before sent

  /** The term and the vote of a candidate are on disk. */
  ghost predicate VoteDurable(n: Node, term: Term, candidate: NodeId) {
    n.persisted.currentTerm == term && n.persisted.votedFor == candidate
  }

  /**
   A grant may be sent before the vote is durable if and only if the request repeats one of the node's
   own term that was granted before, and that vote is still not durable.
   */
  lemma GrantOvertakesIff(n: Node, request: VoteRequest)
    requires n.Valid() && n.HandleRequestVote(request).2.Some? && n.HandleRequestVote(request).2.value.granted
    ensures var (_, after, response) := n.HandleRequestVote(request);
            var reply := Message(n.id, request.candidateId, VoteReply(response.value));
            reply in after.outbox.immediate && !VoteDurable(after, after.Term(), request.candidateId)
            <==> request.term == n.Term() && n.hard.votedFor == request.candidateId
                 && !VoteDurable(n, n.Term(), request.candidateId)
  {
    hide Settled, ActiveVoters, Distinct, SetOf, WellNumbered, DropMessages, DropPending;
    var (_, after, response) := n.HandleRequestVote(request);
    var reply := Message(n.id, request.candidateId, VoteReply(response.value));
    assert after.outbox.immediate == DropMessages(n.outbox.immediate, reply)
           || after.outbox.immediate == DropMessages(n.outbox.immediate, reply) + [reply];
    NotAmongKept(n.outbox.immediate, reply);
  }

  /** The hard state once the request is granted. */
  ghost function Voted(n: Node, request: VoteRequest): HardState {
    n.hard.(currentTerm := request.term, votedFor := request.candidateId)
  }

  /**
   A grant is held back until the hard state is durable if and only if the request is of a newer term or
   the vote was still free, and the hard state it leaves is not on disk already.
   */
  lemma GrantWaitsIff(n: Node, request: VoteRequest)
    requires n.Valid() && n.HandleRequestVote(request).2.Some? && n.HandleRequestVote(request).2.value.granted
    ensures var (_, after, response) := n.HandleRequestVote(request);
            var reply := Message(n.id, request.candidateId, VoteReply(response.value));
            && after.hard == Voted(n, request)
            && (Pending(reply, true, 0) in after.outbox.pending
                <==> Voted(n, request) != n.hard && Voted(n, request) != n.persisted)
            && (reply in after.outbox.immediate <==> Pending(reply, true, 0) !in after.outbox.pending)
  {
    hide Settled, ActiveVoters, Distinct, SetOf, WellNumbered, DropMessages, DropPending;
    var (_, after, response) := n.HandleRequestVote(request);
    var reply := Message(n.id, request.candidateId, VoteReply(response.value));
    assert after.outbox.immediate == DropMessages(n.outbox.immediate, reply)
           || after.outbox.immediate == DropMessages(n.outbox.immediate, reply) + [reply];
    NotAmongKept(n.outbox.immediate, reply);
    NotAmongPending(n.outbox.pending, reply, 0);
  }

  lemma {:induction false} NotAmongPending(queue: seq<Pending>, newer: Message, index: LogIndex)
    ensures Pending(newer, true, index) !in DropPending(queue, newer)
  {
    if queue != [] {
      NotAmongPending(queue[1..], newer, index);
    }
  }

  lemma {:induction false} NotAmongKept(queue: seq<Message>, newer: Message)
    ensures newer !in DropMessages(queue, newer)
  {
    if queue != [] {
      NotAmongKept(queue[1..], newer);
    }
  }

  /** A node with an empty log, in term 0, that has not voted. */
  ghost function FreshVoter(): Node {
    SampleNode(2, Follower, 0, [], 0).(hard := HardState(0, 0, 0, 0), persisted := HardState(0, 0, 0, 0))
  }

  /** The same request twice: the first grant waits for the vote, the second is sent without it. */
  lemma RepeatedGrantOvertakes()
    ensures var request := VoteRequest(1, 1, 0, 0);
            var grant := Message(2, 1, VoteReply(VoteResponse(1, true, NoReason)));
            var first := FreshVoter().HandleRequestVote(request).1;
            var second := first.HandleRequestVote(request).1;
            && FreshVoter().Valid()
            && first.outbox.immediate == [] && first.outbox.pending == [Pending(grant, true, 0)]
            && second.outbox.immediate == [grant] && second.outbox.pending == []
            && second.hard == HardState(1, 1, 0, 0) && second.persisted == HardState(0, 0, 0, 0)
  {
    var request := VoteRequest(1, 1, 0, 0);
    var grant := Message(2, 1, VoteReply(VoteResponse(1, true, NoReason)));
    var first := FreshVoter().HandleRequestVote(request).1;
    assert first.outbox == Outbox([], [Pending(grant, true, 0)]);
    var waiting := [Pending(grant, true, 0)];
    assert waiting[1..] == [];
    assert DropPending(waiting, grant) == [];
  }

  // ---------------------------------------------------------------- entries durable before acknowledged

  /** The hard state that accepting the request leaves, in terms of the node and the request. */
  ghost function HardAfter(n: Node, request: AppendRequest): HardState {
    var commit := Max(n.log.commitIndex, Min(request.leaderCommit, |Merge(n.log, request.entries).1.full|));
    if request.term > n.Term() then HardState(request.term, 0, commit, n.hard.configurationId)
    else n.hard.(commitIndex := commit)
  }

  lemma AcceptStages(n: Node, request: AppendRequest, before: HardState)
    requires n.log.Valid() && n.hard.commitIndex == n.log.commitIndex && Merge(n.log, request.entries).0 == Ok
    ensures var (_, after, response) := n.Accept(request, before);
            var merged := Merge(n.log, request.entries).1;
            && response.Some?
            && after.log.stableIndex == merged.stableIndex
            && after.hard.commitIndex == Max(n.log.commitIndex, Min(request.leaderCommit, |merged.full|))
            && after.hard == n.hard.(commitIndex := after.hard.commitIndex)
            && after.outbox == n.outbox.Stage(
                 Message(n.id, request.leaderId, AppendReply(response.value)),
                 after.hard != before && after.hard != n.persisted,
                 if |merged.full| > |n.log.full| then |merged.full| else 0, merged.stableIndex)
  {
    MergeFacts(n.log, request.entries);
    hide WellNumbered, Merge, Outbox.Stage;
  }

  lemma StagedAtOnceIff(o: Outbox, message: Message, needs: bool, index: LogIndex, stable: LogIndex)
    ensures message in o.Stage(message, needs, index, stable).immediate <==> !needs && index <= stable
  {
    NotAmongKept(o.immediate, message);
  }

  /**
   An acceptance may be sent before the entries it reports are durable if and only if the merged log is
   not durable although it is no longer than before, and the hard state need not be waited for: it is
   unchanged, or on disk.
   */
  lemma AcceptanceOvertakesIff(n: Node, request: AppendRequest)
    requires n.Valid() && Accepts(n, request)
    ensures var (_, after, response) := n.HandleAppendEntries(request);
            var reply := Message(n.id, request.leaderId, AppendReply(response.value));
            var merged := Merge(n.log, request.entries).1;
            reply in after.outbox.immediate && after.log.stableIndex < response.value.matchIndex
            <==> merged.stableIndex < |merged.full| <= |n.log.full|
                 && (HardAfter(n, request) == n.hard || HardAfter(n, request) == n.persisted)
  {
    hide Settled, ActiveVoters, Distinct, SetOf, WellNumbered, Node.Mismatch, Node.Accept, Outbox.Stage, Merge;
    SuccessReports(n, request);
    AcceptStages(Heard(n, request), request, n.hard);
    var (_, after, response) := n.HandleAppendEntries(request);
    var merged := Merge(n.log, request.entries).1;
    StagedAtOnceIff(n.outbox, Message(n.id, request.leaderId, AppendReply(response.value)),
                    after.hard != n.hard && after.hard != n.persisted,
                    if |merged.full| > |n.log.full| then |merged.full| else 0, merged.stableIndex);
  }

  /** An entry overwritten in place is acknowledged at once, although only the old one was durable. */
  lemma OverwriteOvertakes(first: LogEntry, stale: LogEntry, own: LogEntry)
    requires first == Entry(1, 1, []) && stale == Entry(2, 1, []) && own == Entry(2, 2, [])
    ensures var n := SampleNode(2, Follower, 3, [first, stale], 2);
            var request := AppendRequest(2, 1, 1, 1, [own], 0);
            var (_, after, response) := n.HandleAppendEntries(request);
            && n.Valid()
            && response == Some(AppendResponse(2, true, 2, 0, 0))
            && after.log.full == [first, own] && after.log.stableIndex == 1
            && after.outbox == Outbox([Message(2, 1, AppendReply(response.value))], [])
  {
    var log := LogState([first, stale], 0, 2, 0, 0);
    SampleValid(2, Follower, 3, [first, stale], 2);
    assert HeldPrefix(log, [own]) == 0;
    assert [first, stale][..1] == [first] && [own][0..] == [own] && [first] + [own] == [first, own];
    assert Merge(log, [own]) == (Ok, LogState([first, own], 0, 1, 0, 0));
    hide Merge;
  }

  // ---------------------------------------------------------------- acknowledgements that wait too long

  /** The call overwrites an entry at or below the index. */
  ghost predicate Overwrites(n: Node, call: Call, index: LogIndex)
    requires n.Valid()
  {
    && call.CallAppendEntries? && Accepts(n, call.append)
    && var k := HeldPrefix(n.log, call.append.entries);
       k < |call.append.entries| && call.append.entries[k].index <= index
  }

  lemma MergeKeepsIff(s: LogState, incoming: seq<LogEntry>, index: LogIndex)
    requires s.Valid() && index <= |s.full| && Merge(s, incoming).0 == Ok
    ensures var k := HeldPrefix(s, incoming);
            s.full[..index] <= Merge(s, incoming).1.full
            <==> !(k < |incoming| && incoming[k].index <= index)
  {
    hide Merge, HeldPrefix, WellNumbered;
    if incoming == [] {
      MergeNothing(s);
    } else {
      var k := HeldPrefix(s, incoming);
      MergeOutcome(s, incoming);
      if k < |incoming| {
        Numbered(s, incoming, k);
        var at, merged := incoming[0].index - 1 + k, Merge(s, incoming).1.full;
        assert merged == s.full[..at] + incoming[k..];
        if at < index {
          assert s.full[..index][at] == s.full[at] && merged[at] == incoming[k];
        }
      }
    }
  }

  lemma Numbered(s: LogState, incoming: seq<LogEntry>, k: nat)
    requires incoming != [] && k < |incoming| && Merge(s, incoming).0 == Ok
    ensures incoming[k].index == incoming[0].index + k
  {
    assert s.GoodBatch(incoming, incoming[0].index);
  }

  lemma UnacceptedKeepsLog(n: Node, request: AppendRequest)
    requires n.Valid() && !Accepts(n, request)
    ensures n.HandleAppendEntries(request).1.log == n.log
  {
    hide Settled, ActiveVoters, Distinct, SetOf, WellNumbered, Node.Mismatch, Merge, Outbox.Stage;
    MergeFacts(n.log, request.entries);
  }

  lemma OtherCallsKeepLog(n: Node, call: Call)
    requires n.Valid() && !call.CallAppendEntries?
    ensures n.log.full <= After(n, call).log.full
  {
    hide Settled, ActiveVoters, Distinct, SetOf, WellNumbered, RoleFrame, SameElectorate, After;
    if call.CallPropose? || call.CallProposeChange? {
      ProposalFrame(n, call);
    } else if call.CallAppendResponse? {
      AppendResponseFrame(n, call);
    } else if call.CallApplyMembership? || call.CallUpdateSnapshot? {
      MembershipKeepsLog(n, call);
    } else if call.CallRequestVote? || call.CallVoteResponse? {
      VoteCallFrame(n, call);
    } else if call.CallTick? || call.CallUpdateTimeout? || call.CallBecomeFollower? || call.CallStartElection?
              || call.CallBecomeLeader? {
      RoleCallFrame(n, call);
    } else {
      SendCallFrame(n, call);
    }
  }

  lemma MembershipKeepsLog(n: Node, call: Call)
    requires n.Valid() && (call.CallApplyMembership? || call.CallUpdateSnapshot?)
    ensures After(n, call).log.full == n.log.full
  {
    hide Settled, ActiveVoters, AppliedLearners, TransitionLearners, Listing, Distinct, SetOf, WellNumbered,
         ValidMembership, SortMembers, ApplyEntry, MembershipCodec.Decode;
  }

  /** A call keeps what an acknowledgement up to an index reported if and only if it overwrites none of it. */
  lemma KeepsReportedIff(n: Node, call: Call, index: LogIndex)
    requires n.Valid() && index <= |n.log.full|
    ensures n.log.full[..index] <= After(n, call).log.full <==> !Overwrites(n, call, index)
  {
    hide Settled, ActiveVoters, Distinct, SetOf, WellNumbered, Merge, HeldPrefix, Node.HandleAppendEntries;
    if !call.CallAppendEntries? {
      hide After;
      OtherCallsKeepLog(n, call);
    } else if Accepts(n, call.append) {
      SuccessReports(n, call.append);
      MergeKeepsIff(n.log, call.append.entries, index);
    } else {
      UnacceptedKeepsLog(n, call.append);
    }
  }

  ghost predicate OverwritesNone(n: Node, calls: seq<Call>, index: LogIndex)
    requires n.Valid()
    decreases |calls|
  {
    calls == [] ||
      (&& !Overwrites(n, calls[0], index)
       && (CallContinues(n, calls[0]); OverwritesNone(After(n, calls[0]), calls[1..], index)))
  }

  /** So an acknowledgement stays right as long as no call overwrites what it reports. */
  lemma {:induction false} RunKeepsReported(n: Node, calls: seq<Call>, index: LogIndex)
    requires n.Valid() && index <= |n.log.full| && OverwritesNone(n, calls, index)
    ensures n.log.full[..index] <= Run(n, calls).log.full
    decreases |calls|
  {
    hide After, Overwrites, Node.Valid;
    if calls != [] {
      CallContinues(n, calls[0]);
      KeepsReportedIff(n, calls[0], index);
      RunKeepsReported(After(n, calls[0]), calls[1..], index);
      assert After(n, calls[0]).log.full[..index] == n.log.full[..index];
    }
  }

  // A follower of leader 1 in term 2 accepts an entry, whose acknowledgement waits for the disk; leader 3
  // of term 3 replaces the entry; then the disk catches up.

  const WAITING_REPLY := Pending(Message(2, 1, AppendReply(AppendResponse(2, true, 2, 0, 0))), false, 2)

  const LATER_REPLY := Pending(Message(2, 3, AppendReply(AppendResponse(3, true, 2, 0, 0))), true, 0)

  ghost function Waiting(first: LogEntry): Node {
    SampleNode(2, Follower, 1, [first], 1)
  }

  lemma AcknowledgementWaits(first: LogEntry, own: LogEntry)
    requires first == Entry(1, 1, []) && own == Entry(2, 2, [])
    ensures var n := Waiting(first);
            var after := n.HandleAppendEntries(AppendRequest(2, 1, 1, 1, [own], 0)).1;
            && n.Valid() && after.id == 2 && after.role == Follower
            && after.hard == n.hard && after.persisted == n.persisted
            && after.log == LogState([first, own], 0, 1, 0, 0)
            && after.outbox == Outbox([], [WAITING_REPLY])
  {
    var log := LogState([first], 0, 1, 0, 0);
    assert HeldPrefix(log, [own]) == 0;
    assert [own][0..] == [own] && [first] + [own] == [first, own];
    assert Merge(log, [own]) == (Ok, LogState([first, own], 0, 1, 0, 0));
    hide Merge;
  }

  lemma EntryIsReplaced(n: Node, first: LogEntry, own: LogEntry, other: LogEntry)
    requires n.log == LogState([first, own], 0, 1, 0, 0) && n.id == 2 && n.role == Follower && n.Term() == 2
    requires n.hard.commitIndex == 0 && n.hard == n.persisted
    requires first == Entry(1, 1, []) && own == Entry(2, 2, []) && other == Entry(2, 3, [])
    requires n.outbox == Outbox([], [WAITING_REPLY])
    ensures n.log.Valid()
    ensures var after := n.HandleAppendEntries(AppendRequest(3, 3, 1, 1, [other], 0)).1;
            && after.log == LogState([first, other], 0, 1, 0, 0)
            && after.outbox == Outbox([], [WAITING_REPLY, LATER_REPLY])
  {
    assert HeldPrefix(n.log, [other]) == 0;
    assert [first, own][..1] == [first] && [other][0..] == [other] && [first] + [other] == [first, other];
    assert Merge(n.log, [other]) == (Ok, LogState([first, other], 0, 1, 0, 0));
    hide Merge;
    assert n.outbox.pending[1..] == [] && !Supersedes(LATER_REPLY.message, WAITING_REPLY.message);
    assert DropPending(n.outbox.pending, LATER_REPLY.message) == [WAITING_REPLY];
    assert [WAITING_REPLY] + [LATER_REPLY] == [WAITING_REPLY, LATER_REPLY];
  }

  /** The waiting acknowledgement is released although its entry is gone. */
  lemma OutdatedAcknowledgementIsReleased(first: LogEntry, own: LogEntry, other: LogEntry)
    requires first == Entry(1, 1, []) && own == Entry(2, 2, []) && other == Entry(2, 3, [])
    ensures var n := Waiting(first);
            var calls := [CallAppendEntries(AppendRequest(2, 1, 1, 1, [own], 0)),
                          CallAppendEntries(AppendRequest(3, 3, 1, 1, [other], 0)),
                          CallConfirmPersistence(Confirmation(Ok, true, 2, 2))];
            && n.Valid()
            && Run(n, calls).log.full == [first, other]
            && WAITING_REPLY.message in Run(n, calls).outbox.immediate
  {
    var n := Waiting(first);
    var second, third := CallAppendEntries(AppendRequest(3, 3, 1, 1, [other], 0)),
                         CallConfirmPersistence(Confirmation(Ok, true, 2, 2));
    var start := CallAppendEntries(AppendRequest(2, 1, 1, 1, [own], 0));
    AcknowledgementWaits(first, own);
    var a := After(n, start);
    CallContinues(n, start);
    EntryIsReplaced(a, first, own, other);
    var b := After(a, second);
    CallContinues(a, second);
    ConfirmationReleases(b, third);
    CallContinues(b, third);
    RunThree(n, start, second, third);
  }

  lemma ConfirmationReleases(n: Node, call: Call)
    requires call == CallConfirmPersistence(Confirmation(Ok, true, 2, 2)) && n.Valid()
    requires |n.log.full| == 2 && n.log.stableIndex == 1
    requires n.outbox == Outbox([], [WAITING_REPLY, LATER_REPLY])
    ensures WAITING_REPLY.message in After(n, call).outbox.immediate
    ensures After(n, call).log.full == n.log.full
  {
  }

  lemma RunThree(n: Node, a: Call, b: Call, c: Call)
    requires n.Valid() && After(n, a).Valid() && After(After(n, a), b).Valid()
    ensures Run(n, [a, b, c]) == After(After(After(n, a), b), c)
  {
    hide After, Node.Valid;
    assert [a, b, c][1..] == [b, c] && [b, c][1..] == [c] && [c][1..] == [];
    var third := After(After(n, a), b);
    CallContinues(third, c);
    assert Run(third, [c]) == Run(After(third, c), []);
    assert Run(After(n, a), [b, c]) == Run(third, [c]);
  }
}
