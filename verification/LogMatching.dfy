/** Log matching over every run of a cluster, and agreement of newly committed entries with the sender. */
module LogMatching {
  import opened Common
  import opened RaftTypes
  import opened IdSets
  import opened LogModel
  import opened Messages
  import opened MembershipRules
  import opened NodeModel
  import opened NodeRuns
  import opened NodeFrames
  import opened Lineages
  import opened Clusters
  import opened ElectionSafety

  ghost predicate LineagesElected(c: Cluster) {
    && (forall t :: t in c.lineage ==> exists x :: (t, x) in c.elected)
    && (forall e :: e in c.elected ==> e.0 in c.lineage)
  }

  ghost predicate LeadersHoldLineage(c: Cluster) {
    forall x :: x in c.nodes && c.nodes[x].role == Leader ==>
      c.nodes[x].Term() in c.lineage && c.nodes[x].log.full == c.lineage[c.nodes[x].Term()]
  }

  ghost predicate LogsFollow(c: Cluster) {
    forall x :: x in c.nodes ==>
      Follows(c.lineage, c.nodes[x].log.full) && TermsUpTo(c.nodes[x].log.full, c.nodes[x].Term())
  }

  /** A request as its leader built it: everything after `prev`, out of a log on the lineage of its term. */
  ghost predicate FromLeader(lineage: Lineage, p: Packet)
    requires p.AppendPacket?
  {
    && p.order.term in lineage && p.sender.full <= lineage[p.order.term]
    && p.sender.Valid()
    && p.order.prevLogIndex <= p.sender.LastIndex()
    && p.order.prevLogTerm == TermAt(p.sender.full, p.order.prevLogIndex)
    && p.order.entries == p.sender.full[p.order.prevLogIndex..]
    && p.order.leaderCommit == p.sender.commitIndex
  }

  ghost predicate PacketsFollow(c: Cluster) {
    forall p :: p in c.net && p.AppendPacket? ==> FromLeader(c.lineage, p)
  }

  ghost predicate LogInv(c: Cluster) {
    && ElectionInv(c)
    && Sound(c.lineage)
    && LineagesElected(c) && LeadersHoldLineage(c) && LogsFollow(c) && PacketsFollow(c)
  }

  // ---------------------------------------------------------------- the effect of one append

  lemma LeaderIgnoresAppend(n: Node, call: Call)
    requires n.Valid() && n.role == Leader && call.CallAppendEntries? && Ordinary(n, call)
    ensures After(n, call).log == n.log
  {
    hide Merge, Outbox.Stage, Settled, WellNumbered, ActiveMembers.ActiveVoters;
  }

  /** Either the log keeps its entries and its commit index, or the merge was made and committed from. */
  ghost predicate AppendEffect(n: Node, request: AppendRequest, after: Node) {
    var (status, merged) := Merge(n.log, request.entries);
    || (after.log.full == n.log.full && after.log.commitIndex == n.log.commitIndex)
    || (&& n.log.Matches(request.prevLogIndex, request.prevLogTerm)
        && status == Ok
        && n.Term() <= request.term <= after.Term()
        && after.log.full == merged.full
        && after.log.commitIndex == Max(n.log.commitIndex, Min(request.leaderCommit, |merged.full|)))
  }

  lemma AppendHasEffect(n: Node, request: AppendRequest)
    requires n.Valid()
    ensures AppendEffect(n, request, n.HandleAppendEntries(request).1)
  {
    hide Settled, WellNumbered, ActiveMembers.ActiveVoters, Merge, Distinct, SetOf, Node.Accept,
         Node.HandleAppendEntries;
    AppendCases(n, request);
    AcceptFacts(Heard(n, request), request, n.hard);
  }

  // ---------------------------------------------------------------- lineages grow

  /** The log of a leader after a call: unchanged, or one entry of its own term longer. */
  ghost predicate OwnGrowth(n: Node, after: Node) {
    after.log.full == n.log.full ||
    (&& |after.log.full| == |n.log.full| + 1
     && after.log.full[..|n.log.full|] == n.log.full
     && after.log.full[|n.log.full|].term == n.Term())
  }

  lemma OwnGrowthOf(c: Cluster, x: NodeId, call: Call)
    requires Inhabited(c) && Enabled(c, Invoke(x, call))
    requires !call.CallAppendEntries? || c.nodes[x].role == Leader
    ensures OwnGrowth(c.nodes[x], After(c.nodes[x], call))
  {
    hide After, InForce, RoleFrame, Ordinary, Node.Valid, SetOf, Continues;
    ResidentStays(c, x, call);
    assert Resident(c, x);
    if call.CallAppendEntries? {
      LeaderIgnoresAppend(c.nodes[x], call);
    }
  }

  /** A candidate that becomes leader opens a new lineage. */
  lemma NewLeaderNewTerm(c: Cluster, x: NodeId, call: Call)
    requires LogInv(c) && Enabled(c, Invoke(x, call))
    requires call.CallBecomeLeader? && c.nodes[x].role == Candidate
    ensures c.nodes[x].Term() !in c.lineage
  {
    hide After, Ordinary, Resident, VotesRemembered, GrantsAreVotes, TalliesAreVotes, CandidatesVoted,
         ElectedByMajority, LeadersElected, Sound, LeadersHoldLineage, LogsFollow, PacketsFollow;
    var t := c.nodes[x].Term();
    ElectionInvNext(c, Invoke(x, call));
    var d := Next(c, Invoke(x, call));
    if t in c.lineage {
      var y :| (t, y) in c.elected;
      assert (t, x) in d.elected && (t, y) in d.elected;
      OneLeaderPerTerm(d, t, x, y);
    }
  }

  lemma LineageExtends(c: Cluster, step: Step)
    requires LogInv(c) && Enabled(c, step)
    ensures Extends(Next(c, step).lineage, c.lineage)
  {
    hide After, Ordinary, VotesRemembered, GrantsAreVotes, TalliesAreVotes, CandidatesVoted, ElectedByMajority,
         ElectedStay, LeadersElected, Sound, LogsFollow, PacketsFollow, Sent, Recorded, VoteCast, InForce, LogFrame,
         Continues, LineagesElected, Node.Valid;
    if step.Invoke? {
      var n, after := c.nodes[step.node], After(c.nodes[step.node], step.call);
      ResidentStays(c, step.node, step.call);
      if after.role == Leader {
        if n.role == Leader {
          OwnGrowthOf(c, step.node, step.call);
        } else {
          NewLeaderNewTerm(c, step.node, step.call);
        }
      }
    }
  }

  // ---------------------------------------------------------------- one step keeps the invariant

  lemma GrowthFollows(older: Lineage, newer: Lineage, n: Node, after: Node)
    requires Follows(older, n.log.full) && Extends(newer, older) && OwnGrowth(n, after)
    requires after.log.full != n.log.full ==> n.Term() in newer && newer[n.Term()] == after.log.full
    ensures Follows(newer, after.log.full)
  {
    FollowsExtended(older, newer, n.log.full);
    var grown, size := after.log.full, |n.log.full|;
    forall i | 0 <= i < |grown|
      ensures grown[i].term in newer && i < |newer[grown[i].term]| && grown[..i + 1] == newer[grown[i].term][..i + 1]
    {
      if i < size {
        assert grown[i] == grown[..size][i] == n.log.full[i];
        assert grown[..i + 1] == grown[..size][..i + 1];
      }
    }
  }

  lemma GrowthTerms(n: Node, after: Node)
    requires TermsUpTo(n.log.full, n.Term()) && OwnGrowth(n, after) && n.Term() <= after.Term()
    ensures TermsUpTo(after.log.full, after.Term())
  {
    var size := |n.log.full|;
    forall i | 0 <= i < |after.log.full| ensures after.log.full[i].term <= after.Term()
    {
      if i < size {
        assert after.log.full[i] == after.log.full[..size][i] == n.log.full[i];
      }
    }
  }

  lemma DeliveryFollows(c: Cluster, x: NodeId, call: Call, p: Packet)
    requires LogInv(c) && x in c.nodes && call.CallAppendEntries?
    requires p in c.net && p.AppendPacket? && p.order == call.append
    ensures var after := After(c.nodes[x], call);
            Follows(c.lineage, after.log.full) && TermsUpTo(after.log.full, after.Term())
  {
    hide Follows, Merge, VotesRemembered, GrantsAreVotes, TalliesAreVotes, CandidatesVoted, ElectedByMajority,
         ElectedStay, LeadersElected, LineagesElected, LeadersHoldLineage, Node.HandleAppendEntries, Settled,
         ActiveMembers.ActiveVoters, SetOf, Distinct;
    var n, order := c.nodes[x], p.order;
    assert Resident(c, x);
    AppendHasEffect(n, order);
    CallContinues(n, call);
    var after := After(n, call);
    assert FromLeader(c.lineage, p);
    if after.log.full != n.log.full {
      var line := c.lineage[order.term];
      PrefixFollows(c.lineage, p.sender.full, line);
      MergeFollows(c.lineage, n.log, p.sender.full, order.prevLogIndex);
      forall i | 0 <= i < |p.sender.full| ensures p.sender.full[i].term <= order.term
      {
        assert p.sender.full[i] == line[i];
      }
    }
  }

  lemma KeepsLogsFollow(c: Cluster, step: Step)
    requires LogInv(c) && Enabled(c, step)
    ensures LogsFollow(Next(c, step))
  {
    hide After, Ordinary, VotesRemembered, GrantsAreVotes, TalliesAreVotes, CandidatesVoted, ElectedByMajority,
         ElectedStay, LeadersElected, Sound, Sent, Recorded, VoteCast, LogFrame, Follows, FromLeader,
         LineagesElected, Node.Valid, TermsUpTo, Extends, OwnGrowth, InForce;
    LineageExtends(c, step);
    var d := Next(c, step);
    forall x | x in d.nodes
      ensures Follows(d.lineage, d.nodes[x].log.full) && TermsUpTo(d.nodes[x].log.full, d.nodes[x].Term())
    {
      if step.Invoke? && step.node == x {
        InvokedFollows(c, x, step.call);
      } else {
        FollowsExtended(c.lineage, d.lineage, c.nodes[x].log.full);
      }
    }
  }

  lemma InvokedFollows(c: Cluster, x: NodeId, call: Call)
    requires LogInv(c) && Enabled(c, Invoke(x, call))
    ensures var d := Next(c, Invoke(x, call));
            Follows(d.lineage, d.nodes[x].log.full) && TermsUpTo(d.nodes[x].log.full, d.nodes[x].Term())
  {
    hide After, Ordinary, VotesRemembered, GrantsAreVotes, TalliesAreVotes, CandidatesVoted, ElectedByMajority,
         ElectedStay, LeadersElected, Sound, Sent, Recorded, VoteCast, Follows, FromLeader,
         LineagesElected, LeadersHoldLineage, TermsUpTo, Extends, OwnGrowth, InForce, PacketsFollow;
    var d := Next(c, Invoke(x, call));
    var n, after := c.nodes[x], After(c.nodes[x], call);
    LineageExtends(c, Invoke(x, call));
    ResidentStays(c, x, call);
    if call.CallAppendEntries? && n.role != Leader {
      var p :| p in c.net && p.AppendPacket? && p.target == x && p.order == call.append;
      DeliveryFollows(c, x, call, p);
      FollowsExtended(c.lineage, d.lineage, after.log.full);
    } else {
      OwnGrowthOf(c, x, call);
      GrowthTerms(n, after);
      assert after.log.full != n.log.full ==> n.role == Leader && after.role == Leader by {
        if call.CallAppendEntries? {
          LeaderIgnoresAppend(n, call);
        }
      }
      GrowthFollows(c.lineage, d.lineage, n, after);
    }
  }

  lemma KeepsSound(c: Cluster, step: Step)
    requires LogInv(c) && Enabled(c, step)
    ensures Sound(Next(c, step).lineage)
  {
    hide After, Ordinary, VotesRemembered, GrantsAreVotes, TalliesAreVotes, CandidatesVoted, ElectedByMajority,
         ElectedStay, LeadersElected, Sent, Recorded, VoteCast, Follows, FromLeader, LogFrame,
         LineagesElected, LeadersHoldLineage, TermsUpTo, Extends, InForce, PacketsFollow, WellNumbered, RoleFrame;
    LineageExtends(c, step);
    KeepsLogsFollow(c, step);
    var d := Next(c, step);
    if step.Invoke? {
      ResidentStays(c, step.node, step.call);
    }
    forall t | t in d.lineage
      ensures WellNumbered(d.lineage[t]) && Follows(d.lineage, d.lineage[t]) && TermsUpTo(d.lineage[t], t)
    {
      if t in c.lineage && d.lineage[t] == c.lineage[t] {
        FollowsExtended(c.lineage, d.lineage, c.lineage[t]);
      } else {
        assert d.lineage[t] == d.nodes[step.node].log.full;
      }
    }
  }

  /** A node that leads after a call was elected, before or by this call; whoever is elected leads. */
  lemma LeaderIsElected(c: Cluster, x: NodeId, call: Call)
    requires LogInv(c) && Enabled(c, Invoke(x, call))
    ensures x in c.nodes && c.nodes[x].Valid()
    ensures var n, after := c.nodes[x], After(c.nodes[x], call);
            && (after.role == Leader ==>
                  (after.Term(), x) in c.elected
                  || (call.CallBecomeLeader? && n.role == Candidate && after.Term() == n.Term()))
            && (call.CallBecomeLeader? && n.role == Candidate ==> after.role == Leader && after.Term() == n.Term())
  {
    hide After, Ordinary, VotesRemembered, GrantsAreVotes, TalliesAreVotes, CandidatesVoted, ElectedByMajority,
         ElectedStay, VoteCast, Sound, LogsFollow, PacketsFollow, LineagesElected, LeadersHoldLineage, Node.Valid,
         InForce, Continues, LogFrame, SetOf;
    assert Resident(c, x);
    ResidentStays(c, x, call);
  }

  lemma KeepsLineagesElected(c: Cluster, step: Step)
    requires LogInv(c) && Enabled(c, step)
    ensures LineagesElected(Next(c, step))
  {
    hide After, Ordinary, VotesRemembered, GrantsAreVotes, TalliesAreVotes, CandidatesVoted, ElectedByMajority,
         ElectedStay, LeadersElected, Sent, Recorded, VoteCast, Sound, LogsFollow, PacketsFollow, LeadersHoldLineage,
         Resident, Enabled;
    var d := Next(c, step);
    if step.Invoke? {
      LeaderIsElected(c, step.node, step.call);
    }
    forall t | t in d.lineage ensures exists x :: (t, x) in d.elected
    {
      if t in c.lineage {
        var x :| (t, x) in c.elected;
        assert (t, x) in d.elected;
      } else {
        assert (t, step.node) in d.elected;
      }
    }
  }

  lemma KeepsLeadersHold(c: Cluster, step: Step)
    requires LogInv(c) && Enabled(c, step)
    ensures LeadersHoldLineage(Next(c, step))
  {
    hide After, Ordinary, VotesRemembered, GrantsAreVotes, TalliesAreVotes, CandidatesVoted, ElectedByMajority,
         ElectedStay, Sent, Recorded, VoteCast, Sound, LogsFollow, PacketsFollow, LineagesElected, Resident;
    var d := Next(c, step);
    ElectionInvNext(c, step);
    forall x | x in d.nodes && d.nodes[x].role == Leader
      ensures d.nodes[x].Term() in d.lineage && d.nodes[x].log.full == d.lineage[d.nodes[x].Term()]
    {
      if d.lineage != c.lineage && x != step.node && d.nodes[x].Term() == d.nodes[step.node].Term() {
        OneLeaderPerTerm(d, d.nodes[x].Term(), x, step.node);
      }
    }
  }

  lemma BuiltFromLeader(n: Node, target: NodeId, lineage: Lineage)
    requires n.Valid() && n.BuildAppendEntries(target).2.Some?
    requires n.role == Leader ==> n.Term() in lineage && n.log.full == lineage[n.Term()]
    ensures FromLeader(lineage, AppendPacket(n.id, target, n.BuildAppendEntries(target).2.value, n.log))
  {
    hide Outbox.Stage, Settled, ActiveMembers.ActiveVoters, SetOf, Distinct;
  }

  lemma HeartbeatFromLeader(n: Node, target: NodeId, lineage: Lineage)
    requires n.Valid() && n.BuildHeartbeat().Success?
    requires n.role == Leader ==> n.Term() in lineage && n.log.full == lineage[n.Term()]
    ensures FromLeader(lineage, AppendPacket(n.id, target, n.BuildHeartbeat().value, n.log))
  {
    hide Settled, ActiveMembers.ActiveVoters, SetOf, Distinct;
  }

  lemma FromLeaderExtended(older: Lineage, newer: Lineage, p: Packet)
    requires p.AppendPacket? && FromLeader(older, p) && Extends(newer, older)
    ensures FromLeader(newer, p)
  {
  }

  lemma SentFromLeader(c: Cluster, x: NodeId, call: Call, p: Packet)
    requires Inhabited(c) && LeadersHoldLineage(c) && x in c.nodes
    requires p in Sent(c.nodes[x], call) && p.AppendPacket?
    ensures FromLeader(c.lineage, p)
  {
    hide FromLeader, Node.BuildAppendEntries, Node.Valid, InForce, Node.HandleRequestVote;
    assert Resident(c, x);
    BuiltFromLeader(c.nodes[x], call.target, c.lineage);
  }

  lemma KeepsPacketsFollow(c: Cluster, step: Step)
    requires LogInv(c) && Enabled(c, step)
    ensures PacketsFollow(Next(c, step))
  {
    hide After, Ordinary, VotesRemembered, GrantsAreVotes, TalliesAreVotes, CandidatesVoted, ElectedByMajority,
         ElectedStay, Sent, Recorded, VoteCast, FromLeader, LogFrame, Sound, LogsFollow, Node.Valid,
         LeadersElected, LineagesElected, Extends, InForce, Node.BuildHeartbeat;
    LineageExtends(c, step);
    var d := Next(c, step);
    forall p | p in d.net && p.AppendPacket? ensures FromLeader(d.lineage, p)
    {
      if p !in c.net {
        match step
        case Heartbeat(leader, follower) =>
          assert Resident(c, leader);
          HeartbeatFromLeader(c.nodes[leader], follower, c.lineage);
        case Invoke(x, call) =>
          SentFromLeader(c, x, call, p);
      }
      FromLeaderExtended(c.lineage, d.lineage, p);
    }
  }

  lemma LogInvNext(c: Cluster, step: Step)
    requires LogInv(c) && Enabled(c, step)
    ensures LogInv(Next(c, step))
  {
    hide Enabled, Next, ElectionInv, Sound, LineagesElected, LeadersHoldLineage, LogsFollow, PacketsFollow;
    ElectionInvNext(c, step);
    KeepsSound(c, step);
    KeepsLeadersHold(c, step);
    KeepsLineagesElected(c, step);
    KeepsLogsFollow(c, step);
    KeepsPacketsFollow(c, step);
  }

  lemma LogInvInitially(c: Cluster)
    requires Initial(c)
    ensures LogInv(c)
  {
    hide ElectionInv, Inhabited, ValidOptions, InitialNode, InitialVotes;
    ElectionInvInitially(c);
    forall x | x in c.nodes ensures c.nodes[x].log == EMPTY_LOG
    {
      var o :| ValidOptions(o) && c.nodes[x] == InitialNode(o);
      InitialLogEmpty(o);
    }
  }

  lemma InitialLogEmpty(o: Options)
    ensures InitialNode(o).log == EMPTY_LOG
  {
  }

  lemma {:induction false} ExecutionKeepsLogInv(states: seq<Cluster>, steps: seq<Step>, i: nat)
    requires Execution(states, steps) && i < |states|
    ensures LogInv(states[i])
    decreases i
  {
    hide LogInv, Initial, Inhabited, Enabled, Next;
    if i == 0 {
      LogInvInitially(states[0]);
    } else {
      ExecutionKeepsLogInv(states, steps, i - 1);
      assert states[i] == Next(states[i - 1], steps[i - 1]);
      LogInvNext(states[i - 1], steps[i - 1]);
    }
  }

  // ---------------------------------------------------------------- the theorems

  /**
   Log matching: in every reachable state, two logs that hold an entry of the same index and term are
   identical up to it, compacted entries included.
   */
  lemma LogsMatch(states: seq<Cluster>, steps: seq<Step>, s: nat, x: NodeId, y: NodeId, i: nat)
    requires Execution(states, steps) && s < |states| && x in states[s].nodes && y in states[s].nodes
    requires var a, b := states[s].nodes[x].log.full, states[s].nodes[y].log.full;
             i < |a| && i < |b| && a[i].term == b[i].term
    ensures states[s].nodes[x].log.full[..i + 1] == states[s].nodes[y].log.full[..i + 1]
  {
    hide Execution, ElectionInv, Follows, Sound, LineagesElected, LeadersHoldLineage, PacketsFollow;
    ExecutionKeepsLogInv(states, steps, s);
    SameTermSamePrefix(states[s].lineage, states[s].nodes[x].log.full, states[s].nodes[y].log.full, i, i);
  }

  /** Two entries of one term, even at different indexes, put the logs on one line; terms never decrease. */
  lemma LogsShareLines(states: seq<Cluster>, steps: seq<Step>, s: nat, x: NodeId, y: NodeId, i: nat, j: nat)
    requires Execution(states, steps) && s < |states| && x in states[s].nodes && y in states[s].nodes
    requires i <= j
    requires j < |states[s].nodes[y].log.full|
    ensures states[s].nodes[y].log.full[i].term <= states[s].nodes[y].log.full[j].term
    ensures var a, b := states[s].nodes[x].log.full, states[s].nodes[y].log.full;
            i < |a| && a[i].term == b[j].term ==> a[..i + 1] == b[..i + 1]
  {
    hide Execution, ElectionInv, Follows, Sound, LineagesElected, LeadersHoldLineage, PacketsFollow;
    ExecutionKeepsLogInv(states, steps, s);
    var a, b := states[s].nodes[x].log.full, states[s].nodes[y].log.full;
    TermsNeverDecrease(states[s].lineage, b, i, j);
    if i < |a| && a[i].term == b[j].term {
      SameTermSamePrefix(states[s].lineage, a, b, i, j);
    }
  }

  lemma DeliveryCommits(c: Cluster, x: NodeId, p: Packet)
    requires LogInv(c) && x in c.nodes && p in c.net && p.AppendPacket?
    requires After(c.nodes[x], CallAppendEntries(p.order)).log.commitIndex > c.nodes[x].log.commitIndex
    ensures var after := After(c.nodes[x], CallAppendEntries(p.order));
            p.sender.Valid() && after.log.Valid() && after.log.Committed() == p.sender.Committed()
  {
    hide Follows, Merge, VotesRemembered, GrantsAreVotes, TalliesAreVotes, CandidatesVoted, ElectedByMajority,
         ElectedStay, LeadersElected, LineagesElected, LeadersHoldLineage, Node.HandleAppendEntries, Settled,
         ActiveMembers.ActiveVoters, SetOf, Distinct, WellNumbered, InForce;
    var n := c.nodes[x];
    assert Resident(c, x);
    AppendHasEffect(n, p.order);
    CallContinues(n, CallAppendEntries(p.order));
    assert FromLeader(c.lineage, p);
    PrefixFollows(c.lineage, p.sender.full, c.lineage[p.order.term]);
    MergeFollows(c.lineage, n.log, p.sender.full, p.order.prevLogIndex);
    var after := After(n, CallAppendEntries(p.order));
    assert p.sender.full[..p.sender.commitIndex] == after.log.full[..p.sender.commitIndex];
  }

  /** The commit index and the committed log of a node after a delivery agree with the sender's. */
  ghost predicate CommitAgreement(c: Cluster, d: Cluster, p: Packet)
    requires p.AppendPacket?
  {
    && p.order.leaderCommit <= p.order.prevLogIndex + |p.order.entries|
    && p.target in c.nodes && p.target in d.nodes
    && (d.nodes[p.target].log.commitIndex > c.nodes[p.target].log.commitIndex ==>
          && p.sender.Valid() && d.nodes[p.target].log.Valid()
          && d.nodes[p.target].log.Committed() == p.sender.Committed())
  }

  lemma DeliveryAgrees(c: Cluster, p: Packet)
    requires LogInv(c) && p in c.net && p.AppendPacket?
    requires Enabled(c, Invoke(p.target, CallAppendEntries(p.order)))
    ensures CommitAgreement(c, Next(c, Invoke(p.target, CallAppendEntries(p.order))), p)
  {
    hide VotesRemembered, GrantsAreVotes, TalliesAreVotes, CandidatesVoted, ElectedByMajority,
         ElectedStay, LeadersElected, Sound, LineagesElected, LeadersHoldLineage, Resident, VoteCast, Recorded, Sent, Ordinary, After,
         LogsFollow, WellNumbered;
    assert FromLeader(c.lineage, p);
    var d := Next(c, Invoke(p.target, CallAppendEntries(p.order)));
    if d.nodes[p.target].log.commitIndex > c.nodes[p.target].log.commitIndex {
      DeliveryCommits(c, p.target, p);
    }
  }

  /**
   Whatever a follower newly commits on an append is exactly what the sending leader had committed when
   it built the request, even when the follower keeps a longer tail.
   */
  lemma CommitsAgreeWithSender(states: seq<Cluster>, steps: seq<Step>, s: nat, p: Packet)
    requires Execution(states, steps) && s < |steps|
    requires p.AppendPacket? && p in states[s].net && steps[s] == Invoke(p.target, CallAppendEntries(p.order))
    ensures CommitAgreement(states[s], states[s + 1], p)
  {
    hide LogInv, Initial, Inhabited, Next, Enabled, CommitAgreement;
    ExecutionKeepsLogInv(states, steps, s);
    assert states[s + 1] == Next(states[s], steps[s]);
    DeliveryAgrees(states[s], p);
  }
}
