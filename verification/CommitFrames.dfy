/** What a leader counts, and when its commit index moves, while membership is fixed. */
module CommitFrames {
  import opened Common
  import opened RaftTypes
  import opened IdSets
  import opened LogModel
  import opened Messages
  import opened MembershipRules
  import opened MembershipRuns
  import opened ActiveMembers
  import opened NodeModel
  import opened NodeRuns
  import opened NodeFrames
  import opened CommitRule

  /**
   Where the match index of a peer comes from: it counts for nothing above the commit index, is the
   leader's own last index, was there before, or was just reported.
   */
  ghost predicate Counted(n: Node, call: Call, after: Node) {
    after.role == Leader ==>
      forall q :: q in after.progress ==>
        var m := after.progress[q].matchIndex;
        || m <= n.log.commitIndex
        || (q == n.id && m <= |after.log.full|)
        || (n.role == Leader && q in n.progress && m <= n.progress[q].matchIndex)
        || (&& n.role == Leader && call.CallAppendResponse? && call.source == q
            && call.appendReply.success && call.appendReply.term == n.Term()
            && m <= call.appendReply.matchIndex && m <= |n.log.full|)
  }

  /** The entry at the commit index is of the node's term and a majority counts as holding it. */
  ghost predicate CommitCounted(after: Node) {
    var c := after.log.commitIndex;
    && c <= |after.log.full| && TermAt(after.log.full, c) == after.Term()
    && Majority(Supporters(after, c), SetOf(after.voters))
  }

  /** Outside of append delivery only a leader commits, and only what it counted. */
  ghost predicate CommitsCounted(n: Node, call: Call, after: Node) {
    after.log.commitIndex > n.log.commitIndex ==>
      || call.CallAppendEntries?
      || (n.role == Leader && after.role == Leader && after.Term() == n.Term() && CommitCounted(after))
  }

  // ---------------------------------------------------------------- the search

  lemma {:induction false} SearchFindsCounted(n: Node, index: LogIndex)
    requires n.Valid() && index <= n.log.LastIndex()
    ensures var r := n.SearchCommit(index);
            r.Success? ==> r.value == n.log.commitIndex || Committable(n, r.value)
    decreases index
  {
    hide Settled, WellNumbered, SetOf, Node.Supported, Decides, Majority, Supporters, Distinct;
    if index > n.log.commitIndex {
      if TermAt(n.log.full, index) == n.Term() {
        SupportedMeans(n, index);
      }
      SearchFindsCounted(n, index - 1);
    }
  }

  lemma AdvanceCounts(n: Node)
    requires n.Valid() && !n.membership.inTransition
    ensures var (status, after) := n.TryAdvanceCommit();
            && after == n.(log := n.log.(commitIndex := after.log.commitIndex), hard := after.hard)
            && after.Term() == n.Term()
            && (after.log.commitIndex != n.log.commitIndex ==> CommitCounted(after))
  {
    hide Settled, WellNumbered, SetOf, Majority, Distinct, ActiveVoters, Node.SearchCommit;
    SearchFindsCounted(n, n.log.LastIndex());
    var after := n.TryAdvanceCommit().1;
    assert Supporters(after, after.log.commitIndex) == Supporters(n, after.log.commitIndex);
  }

  // ---------------------------------------------------------------- call by call

  lemma AppendOwnCounts(n: Node, kind: EntryKind, payload: Bytes)
    requires n.Valid() && n.role == Leader && !n.membership.inTransition
    ensures var after := n.AppendOwn(kind, payload).1;
            && (forall q :: q in after.progress ==>
                  var m := after.progress[q].matchIndex;
                  (q == n.id && m <= |after.log.full|) || (q in n.progress && m <= n.progress[q].matchIndex))
            && after.role == n.role && after.Term() == n.Term()
            && (after.log.commitIndex != n.log.commitIndex ==> CommitCounted(after))
  {
    hide Settled, ActiveVoters, Distinct, SetOf, Node.TryAdvanceCommit, CommitCounted;
    var entry := LogEntry(n.log.LastIndex() + 1, n.Term(), kind, payload);
    var (status, grown) := n.log.Append([entry]);
    if status == Ok {
      assert grown.full[..n.log.commitIndex] == n.log.full[..n.log.commitIndex];
      var m := n.(log := grown,
                  progress := if n.id in n.progress
                    then n.progress[n.id := n.progress[n.id].(matchIndex := entry.index, nextIndex := entry.index + 1)]
                    else n.progress);
      assert m.Valid();
      AdvanceCounts(m);
    }
  }

  lemma ProposalCounts(n: Node, call: Call)
    requires n.Valid() && InForce(n) && (call.CallPropose? || call.CallProposeChange?)
    ensures Counted(n, call, After(n, call)) && CommitsCounted(n, call, After(n, call))
  {
    hide Settled, ActiveVoters, Distinct, SetOf, WellNumbered, Build, Codec.Encode, Node.AppendOwn,
         Node.PendingChange, Node.ActiveCount, CommitCounted;
    match call
    case CallPropose(payload) =>
      if n.role == Leader {
        AppendOwnCounts(n, Command, payload);
      }
    case CallProposeChange(change) =>
      var entry := Build(n.membership, change);
      if entry.Success? && n.role == Leader {
        var payload := Codec.Encode(entry.value);
        if payload.Success? {
          AppendOwnCounts(n, MembershipChange, payload.value);
        }
      }
  }

  lemma AppendEntriesCounts(n: Node, call: Call)
    requires n.Valid() && call.CallAppendEntries? && Ordinary(n, call)
    ensures Counted(n, call, After(n, call))
  {
    hide Settled, ActiveVoters, Distinct, SetOf, WellNumbered, Merge, Node.Accept, Node.HandleAppendEntries;
    AppendCases(n, call.append);
    AcceptFacts(Heard(n, call.append), call.append, n.hard);
  }

  lemma AppendResponseCounts(n: Node, call: Call)
    requires n.Valid() && InForce(n) && call.CallAppendResponse?
    ensures Counted(n, call, After(n, call)) && CommitsCounted(n, call, After(n, call))
  {
    hide Settled, ActiveVoters, Distinct, SetOf, WellNumbered, Node.TryAdvanceCommit, Node.BackOff, CommitCounted;
    var q, reply := call.source, call.appendReply;
    if q in n.progress {
      var p := n.progress[q].(isActive := true);
      var matched := Max(p.matchIndex, reply.matchIndex);
      var m := n.(progress := n.progress[q := p.(matchIndex := matched, nextIndex := Max(p.nextIndex, matched + 1))]);
      AdvanceCounts(m);
    }
  }

  lemma SnapshotCounts(n: Node, call: Call)
    requires n.Valid() && call.CallUpdateSnapshot? && Ordinary(n, call)
    ensures Counted(n, call, After(n, call)) && CommitsCounted(n, call, After(n, call))
  {
    hide Settled, ActiveVoters, Distinct, SetOf, WellNumbered, ValidMembership, CommitCounted;
  }

  lemma RoleCallCounts(n: Node, call: Call)
    requires n.Valid()
    requires call.CallTick? || call.CallUpdateTimeout? || call.CallBecomeFollower? || call.CallStartElection?
             || call.CallBecomeLeader?
    ensures Counted(n, call, After(n, call)) && CommitsCounted(n, call, After(n, call))
  {
    hide Settled, ActiveVoters, Distinct, SetOf, WellNumbered;
  }

  lemma VoteCallCounts(n: Node, call: Call)
    requires n.Valid() && (call.CallRequestVote? || call.CallVoteResponse?)
    ensures Counted(n, call, After(n, call)) && CommitsCounted(n, call, After(n, call))
  {
    hide Settled, ActiveVoters, Distinct, SetOf, WellNumbered, Outbox.Stage, CommitCounted;
  }

  lemma SendCallCounts(n: Node, call: Call)
    requires n.Valid()
    requires call.CallBuildAppend? || call.CallBuildSnapshot? || call.CallSnapshotResponse? || call.CallConfirmApplied?
             || call.CallConfirmPersistence?
    ensures Counted(n, call, After(n, call)) && CommitsCounted(n, call, After(n, call))
  {
    hide Settled, ActiveVoters, Distinct, SetOf, WellNumbered, Outbox.Stage, Outbox.Reclassify, CommitCounted;
  }

  lemma CallCounts(n: Node, call: Call)
    requires n.Valid() && InForce(n) && Ordinary(n, call)
    ensures Counted(n, call, After(n, call)) && CommitsCounted(n, call, After(n, call))
  {
    hide Counted, CommitCounted, After;
    if call.CallPropose? || call.CallProposeChange? {
      ProposalCounts(n, call);
    } else if call.CallAppendEntries? {
      AppendEntriesCounts(n, call);
    } else if call.CallAppendResponse? {
      AppendResponseCounts(n, call);
    } else if call.CallUpdateSnapshot? {
      SnapshotCounts(n, call);
    } else if call.CallRequestVote? || call.CallVoteResponse? {
      VoteCallCounts(n, call);
    } else if call.CallTick? || call.CallUpdateTimeout? || call.CallBecomeFollower? || call.CallStartElection?
              || call.CallBecomeLeader? {
      RoleCallCounts(n, call);
    } else {
      SendCallCounts(n, call);
    }
  }

  // ---------------------------------------------------------------- candidates

  /** While a node stays a candidate its log stays as it is. */
  lemma CandidateKeepsLog(n: Node, call: Call)
    requires n.Valid() && InForce(n) && Ordinary(n, call)
    requires n.role == Candidate && After(n, call).role == Candidate
    ensures After(n, call).log.full == n.log.full
  {
    hide After, RoleFrame, SameElectorate;
    CallFrame(n, call);
    if call.CallAppendEntries? {
      CandidateStopsOnAppend(n, call);
    }
  }

  lemma CandidateStopsOnAppend(n: Node, call: Call)
    requires n.Valid() && n.role == Candidate && call.CallAppendEntries? && After(n, call).role == Candidate
    ensures After(n, call).log == n.log
  {
    hide Settled, ActiveVoters, Distinct, SetOf, WellNumbered, Merge, Node.Accept, Node.HandleAppendEntries;
    AppendCases(n, call.append);
    AcceptFacts(Heard(n, call.append), call.append, n.hard);
  }
}
