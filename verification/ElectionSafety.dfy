/** At most one node ever becomes leader in a term. */
module ElectionSafety {
  import opened Common
  import opened RaftTypes
  import opened IdSets
  import opened Messages
  import opened MembershipRuns
  import opened NodeModel
  import opened NodeRuns
  import opened NodeFrames
  import opened Clusters

  /** The nodes that voted for `x` in term `t`. */
  ghost function VotersFor(c: Cluster, t: Term, x: NodeId): set<NodeId> {
    set v | v in c.votes && (t, x) in c.votes[v]
  }

  ghost predicate VotesRemembered(c: Cluster)
    requires Inhabited(c)
  {
    forall x :: x in c.nodes ==> RemembersVotes(c.nodes[x], c.votes[x])
  }

  ghost predicate GrantsAreVotes(c: Cluster) {
    forall p :: p in c.net && p.VotePacket? && p.reply.granted ==>
      p.source in c.votes && (p.reply.term, p.target) in c.votes[p.source]
  }

  ghost predicate TalliesAreVotes(c: Cluster) {
    forall k, s :: k in c.tally && s in c.tally[k] ==> s in c.votes && (k.1, k.0) in c.votes[s]
  }

  ghost predicate CandidatesVoted(c: Cluster)
    requires Inhabited(c)
  {
    forall x :: x in c.nodes && c.nodes[x].role == Candidate ==> (c.nodes[x].Term(), x) in c.votes[x]
  }

  ghost predicate ElectedByMajority(c: Cluster) {
    forall e :: e in c.elected ==> Majority(VotersFor(c, e.0, e.1), c.electorate)
  }

  /** An elected node stays at or above its term, and is not a candidate of that term again. */
  ghost predicate ElectedStay(c: Cluster) {
    forall e :: e in c.elected ==>
      && e.1 in c.nodes && e.0 <= c.nodes[e.1].Term()
      && (e.0 == c.nodes[e.1].Term() ==> c.nodes[e.1].role != Candidate)
  }

  ghost predicate LeadersElected(c: Cluster) {
    forall x :: x in c.nodes && c.nodes[x].role == Leader ==> (c.nodes[x].Term(), x) in c.elected
  }

  ghost predicate ElectionInv(c: Cluster) {
    && Inhabited(c)
    && VotesRemembered(c) && GrantsAreVotes(c) && TalliesAreVotes(c) && CandidatesVoted(c)
    && ElectedByMajority(c) && ElectedStay(c) && LeadersElected(c)
  }

  // ---------------------------------------------------------------- one step keeps the invariant

  ghost predicate VotesGrow(c: Cluster, d: Cluster) {
    forall x :: x in c.votes ==> x in d.votes && c.votes[x] <= d.votes[x]
  }

  lemma StillVoted(c: Cluster, d: Cluster, x: NodeId, vote: (Term, NodeId))
    requires VotesGrow(c, d) && x in c.votes && vote in c.votes[x]
    ensures x in d.votes && vote in d.votes[x]
  {
    var k :| 0 <= k < |c.votes[x]| && c.votes[x][k] == vote;
    assert d.votes[x][k] == vote;
  }

  lemma VotesGrowNext(c: Cluster, step: Step)
    requires Inhabited(c) && Enabled(c, step)
    ensures VotesGrow(c, Next(c, step))
  {
    hide After, Resident, Enabled, Sent, Recorded, VoteCast;
  }

  lemma KeepsVotesRemembered(c: Cluster, step: Step)
    requires ElectionInv(c) && Enabled(c, step)
    ensures Inhabited(Next(c, step)) && VotesRemembered(Next(c, step))
  {
    hide After, Ordinary, Sent, Recorded, VoteCast, RemembersVotes, InForce, Node.Valid;
    InhabitedNext(c, step);
    if step.Invoke? {
      var n := c.nodes[step.node];
      assert Resident(c, step.node);
      RemembersNext(n, step.call, c.votes[step.node]);
    }
  }

  /** A granted reply is sent only together with the vote it reports. */
  lemma GrantIsVote(n: Node, call: Call, p: Packet)
    requires n.Valid() && p in Sent(n, call) && p.VotePacket? && p.reply.granted
    ensures p.source == n.id && VoteCast(n, call) == Some((p.reply.term, p.target))
  {
    hide Node.Valid, Node.UpToDate, Outbox.Stage;
  }

  lemma KeepsGrantsAreVotes(c: Cluster, step: Step)
    requires ElectionInv(c) && Enabled(c, step)
    ensures GrantsAreVotes(Next(c, step))
  {
    hide After, Ordinary, Sent, Recorded, VoteCast, InForce, Node.Valid, VotesGrow, VotesRemembered, TalliesAreVotes;
    VotesGrowNext(c, step);
    var d := Next(c, step);
    forall p | p in d.net && p.VotePacket? && p.reply.granted
      ensures p.source in d.votes && (p.reply.term, p.target) in d.votes[p.source]
    {
      if p in c.net {
        StillVoted(c, d, p.source, (p.reply.term, p.target));
      } else {
        var n := c.nodes[step.node];
        assert Resident(c, step.node);
        GrantIsVote(n, step.call, p);
      }
    }
  }

  lemma RecordedIsGranted(n: Node, call: Call, s: NodeId)
    requires s in Recorded(n, call)
    ensures call.CallVoteResponse? && call.source == s && call.voteReply.granted && call.voteReply.term == n.Term()
    ensures n.role == Candidate
  {
  }

  /** A grant is recorded only from a granted reply in the network, hence from a vote. */
  lemma RecordedIsVote(c: Cluster, x: NodeId, call: Call, s: NodeId)
    requires GrantsAreVotes(c) && Enabled(c, Invoke(x, call)) && s in Recorded(c.nodes[x], call)
    ensures s in c.votes && (c.nodes[x].Term(), x) in c.votes[s]
  {
    hide Ordinary, Recorded;
    RecordedIsGranted(c.nodes[x], call, s);
    assert VotePacket(call.source, x, call.voteReply) in c.net;
  }

  lemma KeepsTalliesAreVotes(c: Cluster, step: Step)
    requires ElectionInv(c) && Enabled(c, step)
    ensures TalliesAreVotes(Next(c, step))
  {
    hide After, Ordinary, Sent, Recorded, VoteCast, VotesGrow, VotesRemembered, Enabled, Resident, GrantsAreVotes,
         CandidatesVoted, ElectedByMajority, ElectedStay, LeadersElected;
    VotesGrowNext(c, step);
    var d := Next(c, step);
    forall k, s | k in d.tally && s in d.tally[k] ensures s in d.votes && (k.1, k.0) in d.votes[s]
    {
      if k !in c.tally || s !in c.tally[k] {
        RecordedIsVote(c, step.node, step.call, s);
      }
      StillVoted(c, d, s, (k.1, k.0));
    }
  }

  lemma KeepsCandidatesVoted(c: Cluster, step: Step)
    requires ElectionInv(c) && Enabled(c, step)
    ensures Inhabited(Next(c, step)) && CandidatesVoted(Next(c, step))
  {
    hide After, Ordinary, Sent, Recorded, VoteCast, InForce, Node.Valid, VotesGrow, VotesRemembered, Continues,
         LogFrame, TalliesAreVotes, GrantsAreVotes;
    InhabitedNext(c, step);
    VotesGrowNext(c, step);
    var d := Next(c, step);
    if step.Invoke? {
      ResidentStays(c, step.node, step.call);
    }
    forall x | x in d.nodes && d.nodes[x].role == Candidate ensures (d.nodes[x].Term(), x) in d.votes[x]
    {
      assert Resident(c, x);
      if c.nodes[x].role == Candidate && c.nodes[x].Term() == d.nodes[x].Term() {
        StillVoted(c, d, x, (c.nodes[x].Term(), x));
      }
    }
  }

  lemma VotersGrow(c: Cluster, d: Cluster, t: Term, x: NodeId)
    requires VotesGrow(c, d)
    ensures VotersFor(c, t, x) <= VotersFor(d, t, x)
  {
    forall v | v in VotersFor(c, t, x) ensures v in VotersFor(d, t, x)
    {
      StillVoted(c, d, v, (t, x));
    }
  }

  lemma MajorityGrows(a: set<NodeId>, b: set<NodeId>, voters: set<NodeId>)
    requires a <= b && Majority(a, voters)
    ensures Majority(b, voters)
  {
    SubsetSize(a * voters, b * voters);
  }

  lemma KeepsElectedByMajority(c: Cluster, step: Step)
    requires ElectionInv(c) && Enabled(c, step)
    ensures ElectedByMajority(Next(c, step))
  {
    hide After, Ordinary, Sent, Recorded, VoteCast, InForce, Node.Valid, VotesGrow, VotesRemembered, GrantsAreVotes,
         Majority;
    VotesGrowNext(c, step);
    var d := Next(c, step);
    forall e | e in d.elected ensures Majority(VotersFor(d, e.0, e.1), d.electorate)
    {
      VotersGrow(c, d, e.0, e.1);
      if e in c.elected {
        MajorityGrows(VotersFor(c, e.0, e.1), VotersFor(d, e.0, e.1), c.electorate);
      } else {
        BackersVoted(c, step.node);
        MajorityGrows(Backers(c, step.node), VotersFor(d, e.0, e.1), c.electorate);
      }
    }
  }

  /** Everyone counted for a candidate did vote for it. */
  lemma BackersVoted(c: Cluster, x: NodeId)
    requires Inhabited(c) && TalliesAreVotes(c) && CandidatesVoted(c)
    requires x in c.nodes && c.nodes[x].role == Candidate
    ensures Backers(c, x) <= VotersFor(c, c.nodes[x].Term(), x)
  {
    hide Resident;
  }

  lemma KeepsElected(c: Cluster, step: Step)
    requires ElectionInv(c) && Enabled(c, step)
    ensures ElectedStay(Next(c, step)) && LeadersElected(Next(c, step))
  {
    hide After, Ordinary, Sent, Recorded, VoteCast, InForce, Node.Valid, VotesRemembered, GrantsAreVotes,
         TalliesAreVotes, CandidatesVoted, ElectedByMajority, LogFrame;
    if step.Invoke? {
      ResidentStays(c, step.node, step.call);
    }
  }

  lemma ElectionInvNext(c: Cluster, step: Step)
    requires ElectionInv(c) && Enabled(c, step)
    ensures ElectionInv(Next(c, step))
  {
    hide After, Ordinary, Resident, VotesRemembered, GrantsAreVotes, TalliesAreVotes, CandidatesVoted,
         ElectedByMajority, ElectedStay, LeadersElected, Enabled, Next;
    KeepsVotesRemembered(c, step);
    KeepsGrantsAreVotes(c, step);
    KeepsTalliesAreVotes(c, step);
    KeepsCandidatesVoted(c, step);
    KeepsElectedByMajority(c, step);
    KeepsElected(c, step);
  }

  lemma InitialRemembers(n: Node)
    ensures RemembersVotes(n, InitialVotes(n))
  {
  }

  lemma ElectionInvInitially(c: Cluster)
    requires Initial(c)
    ensures ElectionInv(c)
  {
    hide InitialNode, ValidOptions, Resident, RemembersVotes, InitialVotes;
    forall x | x in c.nodes ensures RemembersVotes(c.nodes[x], c.votes[x])
    {
      InitialRemembers(c.nodes[x]);
    }
  }

  lemma {:induction false} RunKeepsElectionInv(states: seq<Cluster>, steps: seq<Step>, i: nat)
    requires Execution(states, steps) && i < |states|
    ensures ElectionInv(states[i])
    decreases i
  {
    hide ElectionInv, Initial, Inhabited, Enabled, Next;
    if i == 0 {
      ElectionInvInitially(states[0]);
    } else {
      RunKeepsElectionInv(states, steps, i - 1);
      assert states[i] == Next(states[i - 1], steps[i - 1]);
      ElectionInvNext(states[i - 1], steps[i - 1]);
    }
  }

  /** Two leaders of one term are one node. */
  lemma OneLeaderPerTerm(c: Cluster, t: Term, x: NodeId, y: NodeId)
    requires ElectionInv(c) && (t, x) in c.elected && (t, y) in c.elected
    ensures x == y
  {
    hide Majority, Resident, GrantsAreVotes, TalliesAreVotes, CandidatesVoted;
    MajoritiesMeet(c.electorate, VotersFor(c, t, x), VotersFor(c, t, y));
    var v :| v in VotersFor(c, t, x) * VotersFor(c, t, y);
    assert RemembersVotes(c.nodes[v], c.votes[v]);
  }

  /** Election safety over a whole run: one node at most ever executes `BecomeLeader` in a term. */
  lemma AtMostOneLeaderPerTerm(states: seq<Cluster>, steps: seq<Step>, t: Term, x: NodeId, y: NodeId)
    requires Execution(states, steps)
    requires (t, x) in states[|steps|].elected && (t, y) in states[|steps|].elected
    ensures x == y
  {
    RunKeepsElectionInv(states, steps, |steps|);
    OneLeaderPerTerm(states[|steps|], t, x, y);
  }
}
