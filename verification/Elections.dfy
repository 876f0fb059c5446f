/**
 When a node starts an election and when it grants its vote, stated on the entries of its log. Among any
 nodes there is one that all of them vote for in a term none of them has reached.
 */
module Elections {
  import opened Common
  import opened RaftTypes
  import opened IdSets
  import opened LogModel
  import opened Messages
  import opened MembershipRules
  import opened ActiveMembers
  import opened NodeModel

  // ---------------------------------------------------------------- granting a vote

  /** The log with the last term `term` and the last index `index` is not behind the other one. */
  ghost predicate NotBehind(term: Term, index: LogIndex, log: seq<LogEntry>) {
    if log == [] then true
    else term > log[|log| - 1].term || (term == log[|log| - 1].term && index >= |log|)
  }

  /** The node has not voted in the term of the request, or has voted for this candidate. */
  ghost predicate VoteIsFree(n: Node, request: VoteRequest) {
    request.term > n.hard.currentTerm || n.hard.votedFor == 0 || n.hard.votedFor == request.candidateId
  }

  /**
   A vote is granted if and only if the candidate is named, the node votes, the term is not old, the
   candidate's log is not behind the node's own and the vote of that term is free.
   */
  lemma VoteGrantedIff(n: Node, request: VoteRequest)
    requires n.Valid()
    ensures var (status, _, response) := n.HandleRequestVote(request);
            && (response.Some? && response.value.granted
                <==> && request.candidateId != 0 && n.role != Learner && request.term >= n.hard.currentTerm
                     && NotBehind(request.lastLogTerm, request.lastLogIndex, n.log.full) && VoteIsFree(n, request))
            && (status == Ok <==> request.candidateId != 0) && (status == Ok <==> response.Some?)
  {
    hide Settled, ActiveVoters, Distinct, SetOf, Outbox.Stage;
  }

  /** The first of the four obstacles is the reason that is given. */
  lemma RefusalNamesObstacle(n: Node, request: VoteRequest)
    requires n.Valid() && request.candidateId != 0
    ensures var response := n.HandleRequestVote(request).2.value;
            response.reason == if n.role == Learner then LearnerCannotVote
                               else if request.term < n.hard.currentTerm then StaleTerm
                               else if !NotBehind(request.lastLogTerm, request.lastLogIndex, n.log.full) then LogOutdated
                               else if !VoteIsFree(n, request) then AlreadyVoted
                               else NoReason
  {
    hide Settled, ActiveVoters, Distinct, SetOf, Outbox.Stage;
  }

  /** What a request leaves: a newer term is always taken, and only a granted vote is recorded. */
  lemma VoteLeaves(n: Node, request: VoteRequest)
    requires n.Valid() && request.candidateId != 0
    ensures var (_, after, response) := n.HandleRequestVote(request);
            var newer := n.role != Learner && request.term > n.hard.currentTerm;
            var granted := response.value.granted;
            && after.hard == n.hard.(currentTerm := if newer then request.term else n.hard.currentTerm,
                                     votedFor := if granted then request.candidateId
                                                 else if newer then 0 else n.hard.votedFor)
            && after.role == (if newer then Follower else n.role)
            && after.leaderId == (if newer then 0 else n.leaderId)
            && after.electionElapsed == (if newer || granted then 0 else n.electionElapsed)
            && after == n.(hard := after.hard, role := after.role, leaderId := after.leaderId,
                           electionElapsed := after.electionElapsed, outbox := after.outbox)
            && response.value.term == after.hard.currentTerm
            && Message(n.id, request.candidateId, VoteReply(response.value)) in Waiting(after.outbox)
  {
    hide Settled, ActiveVoters, Distinct, SetOf, WellNumbered, Node.UpToDate, DropMessages, DropPending;
  }

  /** The messages of an outbox, whether or not they may be sent yet. */
  ghost function Waiting(o: Outbox): set<Message> {
    (set m | m in o.immediate) + (set p | p in o.pending :: p.message)
  }

  // ---------------------------------------------------------------- an election that succeeds

  /** The first log is not behind the second. */
  ghost predicate LeadsLog(a: seq<LogEntry>, b: seq<LogEntry>) {
    NotBehind(if a == [] then 0 else a[|a| - 1].term, |a|, b)
  }

  lemma LeadsTotal(a: seq<LogEntry>, b: seq<LogEntry>)
    requires WellNumbered(a) && WellNumbered(b)
    ensures LeadsLog(a, b) || LeadsLog(b, a)
  {
  }

  lemma LeadsTransitive(a: seq<LogEntry>, b: seq<LogEntry>, c: seq<LogEntry>)
    requires WellNumbered(a) && WellNumbered(b) && WellNumbered(c) && LeadsLog(a, b) && LeadsLog(b, c)
    ensures LeadsLog(a, c)
  {
  }

  /** Some log of a finite collection is behind none of them. */
  lemma {:induction false} SomeLogLeads(logs: map<NodeId, seq<LogEntry>>) returns (best: NodeId)
    requires logs.Keys != {} && forall id :: id in logs ==> WellNumbered(logs[id])
    ensures best in logs && forall id :: id in logs ==> LeadsLog(logs[best], logs[id])
    decreases |logs|
  {
    hide LeadsLog, WellNumbered;
    best :| best in logs.Keys;
    var others := logs - {best};
    LeadsTotal(logs[best], logs[best]);
    assert forall id :: id in logs ==> id == best || id in others.Keys;
    if others.Keys != {} {
      assert |others| < |logs| by { assert others.Keys == logs.Keys - {best}; }
      var rival := SomeLogLeads(others);
      LeadsTotal(logs[best], logs[rival]);
      if LeadsLog(logs[best], logs[rival]) {
        forall id | id in logs && id != best ensures LeadsLog(logs[best], logs[id])
        {
          assert LeadsLog(others[rival], others[id]);
          LeadsTransitive(logs[best], logs[rival], logs[id]);
        }
      } else {
        forall id | id in logs && id != best ensures LeadsLog(logs[rival], logs[id])
        {
          assert LeadsLog(others[rival], others[id]);
        }
        best := rival;
      }
    }
  }

  /** The request a candidate sends. */
  ghost function Ballot(candidate: Node): VoteRequest {
    VoteRequest(candidate.Term(), candidate.id, |candidate.log.full|,
                if candidate.log.full == [] then 0 else candidate.log.full[|candidate.log.full| - 1].term)
  }

  /** The candidate asks, the other node grants, and the candidate records the grant. */
  ghost predicate Wins(candidate: Node, voter: Node)
    requires candidate.Valid() && voter.Valid()
  {
    var response := voter.HandleRequestVote(Ballot(candidate)).2;
    && response == Some(VoteResponse(candidate.Term(), true, NoReason))
    && candidate.HandleVoteResponse(voter.id, response.value) == (Ok, candidate, RecordedGrant)
  }

  lemma BallotWins(candidate: Node, voter: Node)
    requires candidate.Valid() && voter.Valid() && candidate.role == Candidate && voter.role != Learner
    requires voter.Term() < candidate.Term() && LeadsLog(candidate.log.full, voter.log.full)
    ensures Wins(candidate, voter)
  {
    hide Node.Valid, Node.HandleRequestVote;
    CandidateNamed(candidate, voter);
    VoteGrantedIff(voter, Ballot(candidate));
    RefusalNamesObstacle(voter, Ballot(candidate));
    VoteLeaves(voter, Ballot(candidate));
  }

  lemma CandidateNamed(candidate: Node, voter: Node)
    requires candidate.Valid() && voter.Valid()
    ensures candidate.id != 0 && voter.id != 0
  {
  }

  /**
   Among any voting nodes one has a log that is behind none: when it stands, in a term none of the others
   has reached, it wins the vote of every one of them and becomes leader.
   */
  lemma SomeNodeCanLead(nodes: map<NodeId, Node>) returns (best: NodeId)
    requires nodes.Keys != {}
    requires forall id :: id in nodes ==> nodes[id].Valid() && nodes[id].role != Learner
    ensures best in nodes
    ensures forall c: Node :: c.Valid() && c.role == Candidate && c.log.full == nodes[best].log.full ==>
              && c.BecomeLeader().0 == Ok && c.BecomeLeader().1.role == Leader
              && forall id :: id in nodes && nodes[id].Term() < c.Term() ==> Wins(c, nodes[id])
  {
    hide Node.Valid, LeadsLog, Wins, WellNumbered;
    var logs := map id | id in nodes :: nodes[id].log.full;
    forall id | id in nodes ensures WellNumbered(nodes[id].log.full)
    {
      LogIsNumbered(nodes[id]);
    }
    best := SomeLogLeads(logs);
    forall c: Node | c.Valid() && c.role == Candidate && c.log.full == nodes[best].log.full
      ensures c.BecomeLeader().0 == Ok && c.BecomeLeader().1.role == Leader
      ensures forall id :: id in nodes && nodes[id].Term() < c.Term() ==> Wins(c, nodes[id])
    {
      forall id | id in nodes && nodes[id].Term() < c.Term() ensures Wins(c, nodes[id])
      {
        assert LeadsLog(logs[best], logs[id]);
        BallotWins(c, nodes[id]);
      }
      LeaderFacts(c);
    }
  }

  lemma LogIsNumbered(n: Node)
    requires n.Valid()
    ensures WellNumbered(n.log.full)
  {
  }

  // ---------------------------------------------------------------- standing for election

  /** A number of ticks, one after the other; the flag tells whether one of them started an election. */
  ghost function Ticks(n: Node, count: nat): (Node, bool) {
    if count == 0 then (n, false) else
    var (before, started) := Ticks(n, count - 1);
    var (_, after, starts) := before.Tick();
    (after, started || starts)
  }

  /**
   A follower or candidate waits until the timeout is reached and stands at exactly that tick: in the next
   term, with its own vote, knowing no leader.
   */
  lemma {:induction false} ElectionAtTimeout(n: Node, count: nat)
    requires n.role == Follower || n.role == Candidate
    requires n.electionElapsed < n.electionTimeout && count <= n.electionTimeout - n.electionElapsed
    ensures var (after, started) := Ticks(n, count);
            && (started <==> count == n.electionTimeout - n.electionElapsed)
            && after == if started
               then n.(role := Candidate, leaderId := 0, electionElapsed := 0, logicalTicks := n.logicalTicks + count,
                       hard := n.hard.(currentTerm := n.hard.currentTerm + 1, votedFor := n.id))
               else n.(electionElapsed := n.electionElapsed + count, logicalTicks := n.logicalTicks + count)
    decreases count
  {
    if count > 0 {
      ElectionAtTimeout(n, count - 1);
    }
  }

  /** Leaders and learners never stand; they only count the ticks. */
  lemma {:induction false} NoElectionOtherwise(n: Node, count: nat)
    requires n.role == Leader || n.role == Learner
    ensures Ticks(n, count) == (n.(logicalTicks := n.logicalTicks + count), false)
    decreases count
  {
    if count > 0 {
      NoElectionOtherwise(n, count - 1);
    }
  }

  /** A candidate that becomes leader knows nothing of its peers but where to start. */
  lemma LeaderFacts(n: Node)
    requires n.role == Candidate
    ensures var (status, after) := n.BecomeLeader();
            && status == Ok && after.role == Leader && after.leaderId == n.id && after.electionElapsed == 0
            && after == n.(role := Leader, leaderId := n.id, electionElapsed := 0, progress := after.progress)
            && (forall p :: p in after.progress <==> p in n.voters || p in n.learners)
            && forall p :: p in after.progress ==>
                 && after.progress[p].nextIndex == |n.log.full| + 1
                 && after.progress[p].matchIndex == (if p == n.id then |n.log.full| else 0)
                 && after.progress[p].isActive == (p == n.id)
                 && after.progress[p].isLearner == (p !in n.voters)
  {
  }

  /** A node follows another in a term that is not older unless it is a learner; it forgets its vote in a newer one. */
  lemma FollowOutcome(n: Node, term: Term, leader: NodeId)
    ensures var (status, after) := n.BecomeFollower(term, leader);
            && (status == Ok <==> term >= n.hard.currentTerm && n.role != Learner)
            && after == if status != Ok then n
               else n.(role := Follower, leaderId := leader, electionElapsed := 0,
                       hard := n.hard.(currentTerm := term,
                                       votedFor := if term > n.hard.currentTerm then 0 else n.hard.votedFor))
  {
  }

  /** What a vote response does: only a candidate of its term records it, and a newer term ends any role. */
  lemma VoteResponseOutcome(n: Node, source: NodeId, response: VoteResponse)
    requires source != 0 && (response.granted <==> response.reason == NoReason)
    ensures var (status, after, action) := n.HandleVoteResponse(source, response);
            && status == Ok
            && (action == RecordedGrant
                <==> response.granted && n.role == Candidate && response.term == n.hard.currentTerm)
            && (action == RecordedRejection
                <==> !response.granted && n.role == Candidate && response.term == n.hard.currentTerm)
            && (action == VoteStepDown <==> response.term > n.hard.currentTerm)
            && after == if response.term <= n.hard.currentTerm then n
               else n.(hard := n.hard.(currentTerm := response.term, votedFor := 0), leaderId := 0, electionElapsed := 0,
                       role := if n.role == Learner then Learner else Follower)
  {
  }
}
