/** What a call may change about a node's role, its electorate and its log, while membership is fixed. */
module NodeFrames {
  import opened Common
  import opened RaftTypes
  import opened IdSets
  import opened LogModel
  import opened Messages
  import opened MembershipRules
  import opened NodeModel
  import opened NodeRuns

  /** A voter or learner of a stable membership. */
  ghost predicate InForce(n: Node) {
    !n.membership.inTransition && (n.id in n.voters || n.id in n.learners)
  }

  /**
   Calls of a cluster whose membership does not change. A leader is stepped down before an append of a
   higher term, or one that names the leader itself, reaches it.
   */
  ghost predicate Ordinary(n: Node, call: Call) {
    match call
    case CallApplyMembership(_) => false
    case CallUpdateSnapshot(_, _, view) => view.configurationId == 0
    case CallAppendEntries(request) => n.role == Leader ==> request.term <= n.Term() && request.leaderId != n.id
    case _ => true
  }

  ghost predicate SameElectorate(before: Node, after: Node) {
    after.voters == before.voters && after.learners == before.learners && after.membership == before.membership
  }

  /** Roles are only gained through an election, and the election is visible as a self-vote. */
  ghost predicate RoleFrame(n: Node, call: Call, after: Node)
    requires n.Valid()
  {
    && (after.role == Candidate ==>
          || (n.role == Candidate && after.Term() == n.Term())
          || (after.Term() == n.Term() + 1 && VoteCast(n, call) == Some((after.Term(), n.id))))
    && (after.role == Leader ==> after.Term() == n.Term() && (n.role == Leader || (call.CallBecomeLeader? && n.role == Candidate)))
    && (call.CallBecomeLeader? && n.role == Candidate ==> after.role == Leader)
    && (call.CallBecomeLeader? && n.role != Candidate ==> after == n)
  }

  /** Outside of append delivery the log only ever gains one entry of the leader's own term. */
  ghost predicate LogFrame(n: Node, call: Call, after: Node) {
    call.CallAppendEntries? ||
    after.log.full == n.log.full ||
    (&& (call.CallPropose? || call.CallProposeChange?)
     && n.role == Leader && after.role == Leader && after.Term() == n.Term()
     && |after.log.full| == |n.log.full| + 1
     && after.log.full[..|n.log.full|] == n.log.full
     && after.log.full[|n.log.full|].term == n.Term())
  }

  lemma AppendOwnFrame(n: Node, kind: EntryKind, payload: Bytes)
    requires n.Valid()
    ensures var after := n.AppendOwn(kind, payload).1;
            && SameElectorate(n, after)
            && after.role == n.role && after.Term() == n.Term() && after.hard.votedFor == n.hard.votedFor
            && (after.log.full == n.log.full
                || (&& |after.log.full| == |n.log.full| + 1
                    && after.log.full[..|n.log.full|] == n.log.full
                    && after.log.full[|n.log.full|].term == n.Term()))
  {
    hide Settled, ActiveMembers.ActiveVoters, Distinct, SetOf, WellNumbered, Node.SearchCommit;
  }

  lemma ProposalFrame(n: Node, call: Call)
    requires n.Valid() && (call.CallPropose? || call.CallProposeChange?)
    ensures var after := After(n, call);
            SameElectorate(n, after) && RoleFrame(n, call, after) && LogFrame(n, call, after)
  {
    hide Settled, ActiveMembers.ActiveVoters, Distinct, SetOf, WellNumbered, Build, Codec.Encode, Node.AppendOwn,
         Node.PendingChange, Node.ActiveCount;
    match call
    case CallPropose(payload) => AppendOwnFrame(n, Command, payload);
    case CallProposeChange(change) =>
      var entry := Build(n.membership, change);
      if entry.Success? {
        var payload := Codec.Encode(entry.value);
        if payload.Success? {
          AppendOwnFrame(n, MembershipChange, payload.value);
        }
      }
  }

  lemma AppendEntriesFrame(n: Node, call: Call)
    requires n.Valid() && call.CallAppendEntries? && Ordinary(n, call)
    ensures var after := After(n, call);
            SameElectorate(n, after) && RoleFrame(n, call, after) && LogFrame(n, call, after)
  {
    hide Settled, ActiveMembers.ActiveVoters, Distinct, SetOf, WellNumbered, Merge, Node.Accept,
         Node.HandleAppendEntries;
    AppendCases(n, call.append);
    AcceptFacts(Heard(n, call.append), call.append, n.hard);
  }

  lemma AppendResponseFrame(n: Node, call: Call)
    requires n.Valid() && call.CallAppendResponse?
    ensures var after := After(n, call);
            SameElectorate(n, after) && RoleFrame(n, call, after) && LogFrame(n, call, after)
  {
    hide Settled, ActiveMembers.ActiveVoters, Distinct, SetOf, WellNumbered, Node.SearchCommit, Node.BackOff;
  }

  lemma SnapshotFrame(n: Node, call: Call)
    requires n.Valid() && InForce(n) && call.CallUpdateSnapshot? && Ordinary(n, call)
    ensures var after := After(n, call);
            SameElectorate(n, after) && RoleFrame(n, call, after) && LogFrame(n, call, after)
  {
    hide Settled, ActiveMembers.ActiveVoters, Distinct, SetOf, WellNumbered, ValidMembership;
  }

  lemma RoleCallFrame(n: Node, call: Call)
    requires n.Valid()
    requires call.CallTick? || call.CallUpdateTimeout? || call.CallBecomeFollower? || call.CallStartElection?
             || call.CallBecomeLeader?
    ensures var after := After(n, call);
            SameElectorate(n, after) && RoleFrame(n, call, after) && LogFrame(n, call, after)
  {
    hide Settled, ActiveMembers.ActiveVoters, Distinct, SetOf, WellNumbered;
  }

  lemma VoteCallFrame(n: Node, call: Call)
    requires n.Valid() && (call.CallRequestVote? || call.CallVoteResponse?)
    ensures var after := After(n, call);
            SameElectorate(n, after) && RoleFrame(n, call, after) && LogFrame(n, call, after)
  {
    hide Settled, ActiveMembers.ActiveVoters, Distinct, SetOf, WellNumbered, Outbox.Stage;
  }

  lemma SendCallFrame(n: Node, call: Call)
    requires n.Valid()
    requires call.CallBuildAppend? || call.CallBuildSnapshot? || call.CallSnapshotResponse? || call.CallConfirmApplied?
             || call.CallConfirmPersistence?
    ensures var after := After(n, call);
            SameElectorate(n, after) && RoleFrame(n, call, after) && LogFrame(n, call, after)
  {
    hide Settled, ActiveMembers.ActiveVoters, Distinct, SetOf, WellNumbered, Outbox.Stage, Outbox.Reclassify;
  }

  lemma CallFrame(n: Node, call: Call)
    requires n.Valid() && InForce(n) && Ordinary(n, call)
    ensures var after := After(n, call);
            && SameElectorate(n, after) && InForce(after)
            && RoleFrame(n, call, after) && LogFrame(n, call, after)
  {
    hide SameElectorate, RoleFrame, LogFrame, After;
    if call.CallPropose? || call.CallProposeChange? {
      ProposalFrame(n, call);
    } else if call.CallAppendEntries? {
      AppendEntriesFrame(n, call);
    } else if call.CallAppendResponse? {
      AppendResponseFrame(n, call);
    } else if call.CallUpdateSnapshot? {
      SnapshotFrame(n, call);
    } else if call.CallRequestVote? || call.CallVoteResponse? {
      VoteCallFrame(n, call);
    } else if call.CallTick? || call.CallUpdateTimeout? || call.CallBecomeFollower? || call.CallStartElection?
              || call.CallBecomeLeader? {
      RoleCallFrame(n, call);
    } else {
      SendCallFrame(n, call);
    }
    KeepsInForce(n, call);
  }

  lemma KeepsInForce(n: Node, call: Call)
    requires n.Valid() && InForce(n)
    requires SameElectorate(n, After(n, call))
    ensures InForce(After(n, call))
  {
    hide After;
    CallContinues(n, call);
  }
}
