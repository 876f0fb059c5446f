/**
 Leader completeness and state-machine safety. They hold of every run in which the vote requests carry
 the candidate's last entry and a leader handles only true reports.
 */
module CommitSafety {
  import opened Common
  import opened RaftTypes
  import opened IdSets
  import opened LogModel
  import opened Messages
  import opened MembershipRules
  import opened MembershipRuns
  import opened ActiveMembers
  import opened NodeModel
  import opened NodeRuns
  import opened NodeFrames
  import opened Lineages
  import opened Clusters
  import opened ElectionSafety
  import opened LogMatching
  import opened CommitRule
  import opened CommitFrames
  import opened AppendReports

  // ---------------------------------------------------------------- the runs in question

  /** The candidate could send this request: it carries the candidate's term and last entry. */
  ghost predicate Campaigned(n: Node, request: VoteRequest) {
    && n.role == Candidate && n.Term() == request.term
    && request.lastLogIndex == n.log.LastIndex()
    && request.lastLogTerm == TermAt(n.log.full, n.log.LastIndex())
  }

  ghost predicate CampaignedBy(states: seq<Cluster>, k: nat, request: VoteRequest) {
    exists h :: 0 <= h <= k && h < |states| && request.candidateId in states[h].nodes
                && Campaigned(states[h].nodes[request.candidateId], request)
  }

  /** Every vote request that is handled was sent by its candidate, then or earlier. */
  ghost predicate RequestsSent(states: seq<Cluster>, steps: seq<Step>) {
    forall k :: 0 <= k < |steps| && steps[k].Invoke? && steps[k].call.CallRequestVote? ==>
      CampaignedBy(states, k, steps[k].call.vote)
  }

  /** A success response of the leader's own term was a true report. */
  ghost predicate HandlesTruth(c: Cluster, step: Step) {
    step.Invoke? && step.node in c.nodes && c.nodes[step.node].role == Leader
    && step.call.CallAppendResponse? && step.call.appendReply.success
    && step.call.appendReply.term == c.nodes[step.node].Term() ==>
      exists p :: p in c.net && Brings(p, step.call.source, step.node, step.call.appendReply) && Truthful(p)
  }

  ghost predicate ReportsTrue(states: seq<Cluster>, steps: seq<Step>)
    requires |states| == |steps| + 1
  {
    forall k :: 0 <= k < |steps| ==> HandlesTruth(states[k], steps[k])
  }

  ghost predicate Honest(states: seq<Cluster>, steps: seq<Step>) {
    Execution(states, steps) && RequestsSent(states, steps)
  }

  /** The lines as far as they got in the whole run. */
  ghost function Lines(states: seq<Cluster>): Lineage
    requires states != []
  {
    states[|states| - 1].lineage
  }

  // ---------------------------------------------------------------- what time does not change

  lemma StepAt(states: seq<Cluster>, steps: seq<Step>, i: nat)
    requires Execution(states, steps) && i < |steps|
    ensures LogInv(states[i]) && Inhabited(states[i]) && Enabled(states[i], steps[i])
    ensures states[i + 1] == Next(states[i], steps[i])
  {
    hide LogInv, Initial, Inhabited, Enabled, Next;
    ExecutionKeepsLogInv(states, steps, i);
  }

  lemma StepForward(c: Cluster, step: Step, v: NodeId)
    requires LogInv(c) && Inhabited(c) && Enabled(c, step) && v in c.nodes
    ensures var d := Next(c, step);
            && v in d.nodes && d.electorate == c.electorate
            && Extends(d.lineage, c.lineage)
            && c.nodes[v].log.Valid() && d.nodes[v].log.Valid()
            && c.nodes[v].Term() <= d.nodes[v].Term()
            && c.nodes[v].log.Committed() <= d.nodes[v].log.Committed()
            && (step != Invoke(v, if step.Invoke? then step.call else CallTick) ==> d.nodes[v] == c.nodes[v])
  {
    hide LogInv, After, InForce, RoleFrame, LogFrame, Ordinary, Sent, Recorded, VoteCast, Extends, SetOf, Node.Valid;
    LineageExtends(c, step);
    assert Resident(c, v);
    ValidLog(c.nodes[v]);
    if step.Invoke? && step.node == v {
      ResidentStays(c, v, step.call);
      ValidLog(After(c.nodes[v], step.call));
    }
  }

  lemma ValidLog(n: Node)
    requires n.Valid()
    ensures n.log.Valid()
  {
  }

  lemma {:induction false} Forward(states: seq<Cluster>, steps: seq<Step>, a: nat, b: nat, v: NodeId)
    requires Execution(states, steps) && a <= b < |states| && v in states[a].nodes
    ensures v in states[b].nodes && states[b].electorate == states[a].electorate
    ensures Extends(states[b].lineage, states[a].lineage)
    ensures states[a].nodes[v].log.Valid() && states[b].nodes[v].log.Valid()
    ensures states[a].nodes[v].Term() <= states[b].nodes[v].Term()
    ensures states[a].nodes[v].log.Committed() <= states[b].nodes[v].log.Committed()
    decreases b
  {
    hide Execution, LogInv, Inhabited, Enabled, Next, LogState.Valid, LogState.Committed;
    if a == b {
      ExecutionKeepsLogInv(states, steps, a);
      ResidentLog(states[a], v);
    } else {
      Forward(states, steps, a, b - 1, v);
      ExecutionLengths(states, steps);
      StepAt(states, steps, b - 1);
      StepForward(states[b - 1], steps[b - 1], v);
    }
  }

  lemma ResidentValid(c: Cluster, v: NodeId)
    requires Inhabited(c) && v in c.nodes
    ensures c.nodes[v].Valid() && c.nodes[v].id == v && InForce(c.nodes[v]) && SetOf(c.nodes[v].voters) == c.electorate
  {
    assert Resident(c, v);
  }

  lemma ResidentLog(c: Cluster, v: NodeId)
    requires LogInv(c) && v in c.nodes
    ensures c.nodes[v].log.Valid()
  {
    assert Resident(c, v);
  }

  lemma ExecutionLengths(states: seq<Cluster>, steps: seq<Step>)
    requires Execution(states, steps)
    ensures |states| == |steps| + 1
  {
  }

  // ---------------------------------------------------------------- entries a majority acknowledged

  /** The node holds this prefix while it is in this term. */
  ghost predicate HeldIn(c: Cluster, v: NodeId, t: Term, prefix: seq<LogEntry>) {
    v in c.nodes && c.nodes[v].Term() == t && prefix <= c.nodes[v].log.full
  }

  ghost predicate HeldBy(states: seq<Cluster>, end: nat, v: NodeId, t: Term, prefix: seq<LogEntry>) {
    exists a :: 0 <= a < end && a < |states| && HeldIn(states[a], v, t, prefix)
  }

  /** A prefix of a leader's log that ends with an entry of its own term. */
  ghost predicate OwnPrefix(line: Lineage, t: Term, prefix: seq<LogEntry>) {
    && t in line && prefix != [] && prefix <= line[t] && prefix[|prefix| - 1].term == t
  }

  /** A majority acknowledged the prefix. */
  ghost predicate Acknowledged(states: seq<Cluster>, quorum: set<NodeId>, t: Term, prefix: seq<LogEntry>)
    requires states != []
  {
    Majority(quorum, states[0].electorate) && forall v :: v in quorum ==> HeldBy(states, |states|, v, t, prefix)
  }

  /** Such a prefix that each member of a majority held, at some time, in the leader's term. */
  ghost predicate Chosen(states: seq<Cluster>, t: Term, prefix: seq<LogEntry>)
    requires states != []
  {
    && OwnPrefix(Lines(states), t, prefix)
    && exists quorum :: Acknowledged(states, quorum, t, prefix)
  }

  // ---------------------------------------------------------------- holding on to a prefix

  /** Accepting from a leader whose log extends the prefix, or is a part of it, keeps the prefix. */
  lemma DeliveryKeeps(c: Cluster, x: NodeId, p: Packet, prefix: seq<LogEntry>, line: seq<LogEntry>)
    requires LogInv(c) && x in c.nodes && p in c.net && p.AppendPacket?
    requires prefix <= c.nodes[x].log.full
    requires c.nodes[x].Term() <= p.order.term <= After(c.nodes[x], CallAppendEntries(p.order)).Term() ==>
               p.sender.full <= line && prefix <= line
    ensures prefix <= After(c.nodes[x], CallAppendEntries(p.order)).log.full
  {
    hide Follows, Merge, ElectionInv, LineagesElected, LeadersHoldLineage, Node.HandleAppendEntries, WellNumbered,
         InForce;
    InhabitedIn(c);
    var n := c.nodes[x];
    assert Resident(c, x);
    ValidLog(n);
    hide Node.Valid, Resident;
    AppendHasEffect(n, p.order);
    var after := After(n, CallAppendEntries(p.order));
    if after.log.full != n.log.full {
      assert FromLeader(c.lineage, p);
      PrefixFollows(c.lineage, p.sender.full, c.lineage[p.order.term]);
      MergeFollows(c.lineage, n.log, p.sender.full, p.order.prevLogIndex);
      if p.sender.full < prefix {
        LongerLogStays(n.log, p.sender.full, p.order.prevLogIndex);
      }
    }
  }

  lemma OwnGrowthKeeps(n: Node, after: Node, prefix: seq<LogEntry>)
    requires OwnGrowth(n, after) && prefix <= n.log.full
    ensures prefix <= after.log.full
  {
  }

  /** One step of a node that holds the prefix, when every leader it can hear of has the prefix. */
  lemma StepRetains(c: Cluster, step: Step, d: Cluster, v: NodeId, prefix: seq<LogEntry>, t: Term, bound: Term,
                    line: Lineage)
    requires LogInv(c) && Inhabited(c) && Enabled(c, step) && d == Next(c, step)
    requires v in c.nodes && v in d.nodes && prefix <= c.nodes[v].log.full && t <= c.nodes[v].Term()
    requires d.nodes[v].Term() <= bound && Extends(line, c.lineage)
    requires forall w :: t <= w <= bound && w in c.lineage && w in line ==> prefix <= line[w]
    ensures prefix <= d.nodes[v].log.full
  {
    hide LogInv, After, InForce, RoleFrame, LogFrame, Ordinary, Sent, Recorded, VoteCast, SetOf, Node.Valid,
         OwnGrowth, Resident;
    if step.Invoke? && step.node == v {
      var call := step.call;
      if call.CallAppendEntries? && c.nodes[v].role != Leader {
        var p :| p in c.net && p.AppendPacket? && p.target == v && p.order == call.append;
        SenderOnLine(c, p);
        DeliveryKeeps(c, v, p, prefix, if p.order.term in line then line[p.order.term] else []);
      } else {
        OwnGrowthOf(c, v, call);
        ResidentValid(c, v);
        OwnGrowthKeeps(c.nodes[v], After(c.nodes[v], call), prefix);
      }
    }
  }

  lemma SenderOnLine(c: Cluster, p: Packet)
    requires LogInv(c) && p in c.net && p.AppendPacket?
    ensures p.order.term in c.lineage && p.sender.full <= c.lineage[p.order.term]
  {
    hide ElectionInv, Sound, LineagesElected, LeadersHoldLineage, LogsFollow;
    assert FromLeader(c.lineage, p);
  }

  /** A node that held the prefix in term `t` holds it as long as every leader up to its term does. */
  lemma {:induction false} Retains(states: seq<Cluster>, steps: seq<Step>, v: NodeId, t: Term, prefix: seq<LogEntry>,
                                   a: nat, b: nat, bound: Term)
    requires Execution(states, steps) && a <= b < |states| && HeldIn(states[a], v, t, prefix)
    requires v in states[b].nodes && states[b].nodes[v].Term() <= bound
    requires forall w :: t <= w <= bound && w in states[b].lineage && w in Lines(states) ==> prefix <= Lines(states)[w]
    ensures prefix <= states[b].nodes[v].log.full
    decreases b
  {
    hide Execution, LogInv, Inhabited, Enabled, Next, LogState.Valid, LogState.Committed, Extends;
    if a < b {
      ExecutionLengths(states, steps);
      Forward(states, steps, a, b - 1, v);
      StepAt(states, steps, b - 1);
      StepForward(states[b - 1], steps[b - 1], v);
      Forward(states, steps, b - 1, |states| - 1, v);
      assert Extends(states[b].lineage, states[b - 1].lineage);
      LinesStay(states[b].lineage, states[b - 1].lineage);
      LinesStay(Lines(states), states[b - 1].lineage);
      Retains(states, steps, v, t, prefix, a, b - 1, bound);
      StepRetains(states[b - 1], steps[b - 1], states[b], v, prefix, t, bound, Lines(states));
    }
  }

  lemma LinesStay(newer: Lineage, older: Lineage)
    requires Extends(newer, older)
    ensures forall w :: w in older ==> w in newer && older[w] <= newer[w]
  {
  }

  // ---------------------------------------------------------------- where votes and leaders come from

  /** The step in which a vote was cast, unless the node started with it. */
  ghost predicate CastAt(states: seq<Cluster>, steps: seq<Step>, k: nat, v: NodeId, vote: (Term, NodeId)) {
    && k < |steps| && k < |states| && v in states[k].nodes && states[k].nodes[v].Valid()
    && steps[k].Invoke? && steps[k].node == v && VoteCast(states[k].nodes[v], steps[k].call) == Some(vote)
  }

  lemma {:induction false} VoteOrigin(states: seq<Cluster>, steps: seq<Step>, j: nat, v: NodeId, vote: (Term, NodeId))
    requires Execution(states, steps) && j < |states|
    requires v in states[j].votes && vote in states[j].votes[v]
    ensures v in states[0].nodes
    ensures states[0].nodes[v].Term() == vote.0 || exists k :: 0 <= k < j && CastAt(states, steps, k, v, vote)
    decreases j
  {
    hide Execution, LogInv, Enabled, After, VoteCast, Sent, Recorded, Node.Valid, Resident;
    if j == 0 {
      InitialVote(states[0], v, vote) by { ExecutionStarts(states, steps); }
    } else {
      ExecutionLengths(states, steps);
      StepAt(states, steps, j - 1);
      var c, step := states[j - 1], steps[j - 1];
      KeysStay(c, step);
      if vote in c.votes[v] {
        VoteOrigin(states, steps, j - 1, v, vote);
      } else {
        ResidentValid(c, v);
        Forward(states, steps, 0, j - 1, v) by { StartedWith(states, steps, j - 1, v); }
        StartedWith(states, steps, j - 1, v);
        assert CastAt(states, steps, j - 1, v, vote);
      }
    }
  }

  lemma KeysStay(c: Cluster, step: Step)
    requires Inhabited(c) && Enabled(c, step)
    ensures Next(c, step).nodes.Keys == c.nodes.Keys == c.votes.Keys == Next(c, step).votes.Keys
  {
    hide After, Ordinary, Sent, Recorded, VoteCast, Resident;
  }

  lemma ExecutionStarts(states: seq<Cluster>, steps: seq<Step>)
    requires Execution(states, steps)
    ensures Initial(states[0]) && Inhabited(states[0]) && states[0].lineage == map[] && states[0].net == {}
  {
  }

  lemma {:induction false} StartedWith(states: seq<Cluster>, steps: seq<Step>, j: nat, v: NodeId)
    requires Execution(states, steps) && j < |states| && v in states[j].nodes
    ensures v in states[0].nodes
    decreases j
  {
    hide Execution, LogInv, Enabled, After, VoteCast, Sent, Recorded, Inhabited;
    if j > 0 {
      ExecutionLengths(states, steps);
      StepAt(states, steps, j - 1);
      KeysStay(states[j - 1], steps[j - 1]);
      StartedWith(states, steps, j - 1, v);
    }
  }

  lemma InitialVote(c: Cluster, v: NodeId, vote: (Term, NodeId))
    requires Initial(c) && v in c.votes && vote in c.votes[v]
    ensures v in c.nodes && c.nodes[v].Term() == vote.0
  {
    hide InitialNode, ValidOptions, Resident;
  }

  /** The step in which the leader of a term was elected. */
  ghost predicate ElectedAt(states: seq<Cluster>, steps: seq<Step>, j: nat, u: Term) {
    && j < |steps| && j < |states| && steps[j].Invoke? && steps[j].node in states[j].nodes
    && u !in states[j].lineage
    && states[j].nodes[steps[j].node].role == Candidate && states[j].nodes[steps[j].node].Term() == u
    && Majority(VotersFor(states[j], u, steps[j].node), states[j].electorate)
    && u in Lines(states) && states[j].nodes[steps[j].node].log.full <= Lines(states)[u]
  }

  lemma ElectionStep(c: Cluster, step: Step, u: Term)
    requires LogInv(c) && Inhabited(c) && Enabled(c, step) && u !in c.lineage && u in Next(c, step).lineage
    ensures step.Invoke? && step.node in c.nodes
    ensures c.nodes[step.node].role == Candidate && c.nodes[step.node].Term() == u
    ensures Majority(VotersFor(c, u, step.node), c.electorate)
    ensures Next(c, step).lineage[u] == c.nodes[step.node].log.full
  {
    hide After, InForce, Ordinary, Sent, Recorded, VoteCast, SetOf, Node.Valid, Majority, Resident, Sound, LogsFollow,
         PacketsFollow, VotesRemembered, GrantsAreVotes, ElectedByMajority, ElectedStay, LeadersElected, Continues;
    var n, call := c.nodes[step.node], step.call;
    ResidentValid(c, step.node);
    ResidentStays(c, step.node, call);
    BackersVoted(c, step.node);
    MajorityGrows(Backers(c, step.node), VotersFor(c, u, step.node), c.electorate);
  }

  lemma {:induction false} FindElection(states: seq<Cluster>, steps: seq<Step>, s: nat, u: Term)
    requires Execution(states, steps) && s < |states| && u in states[s].lineage
    ensures exists j :: 0 <= j < s && ElectedAt(states, steps, j, u)
    decreases s
  {
    hide Execution, LogInv, Initial, Inhabited, Enabled, Next, Majority;
    if s == 0 {
      ExecutionStarts(states, steps);
    } else {
      ExecutionLengths(states, steps);
      StepAt(states, steps, s - 1);
      if u in states[s - 1].lineage {
        FindElection(states, steps, s - 1, u);
      } else {
        ElectionStep(states[s - 1], steps[s - 1], u);
        var x := steps[s - 1].node;
        StepForward(states[s - 1], steps[s - 1], x);
        Forward(states, steps, s, |states| - 1, x);
        assert ElectedAt(states, steps, s - 1, u);
      }
    }
  }

  /** A candidate's log is the same whenever it is a candidate of one term. */
  lemma {:induction false} CandidateLogFixed(states: seq<Cluster>, steps: seq<Step>, x: NodeId, h: nat, j: nat)
    requires Execution(states, steps) && h <= j < |states| && x in states[h].nodes && x in states[j].nodes
    requires states[j].nodes[x].role == Candidate && states[h].nodes[x].Term() == states[j].nodes[x].Term()
    requires states[h].nodes[x].role == Candidate
    ensures states[h].nodes[x].log.full == states[j].nodes[x].log.full
    decreases j
  {
    hide Execution, LogInv, Inhabited, Enabled, Next, LogState.Valid, LogState.Committed, Extends;
    if h < j {
      ExecutionLengths(states, steps);
      Forward(states, steps, h, j - 1, x);
      StepAt(states, steps, j - 1);
      StepForward(states[j - 1], steps[j - 1], x);
      CandidateStep(states[j - 1], steps[j - 1], x);
      CandidateLogFixed(states, steps, x, h, j - 1);
    }
  }

  lemma CandidateStep(c: Cluster, step: Step, x: NodeId)
    requires LogInv(c) && Inhabited(c) && Enabled(c, step) && x in c.nodes && x in Next(c, step).nodes
    requires Next(c, step).nodes[x].role == Candidate && Next(c, step).nodes[x].Term() == c.nodes[x].Term()
    ensures c.nodes[x].role == Candidate && Next(c, step).nodes[x].log.full == c.nodes[x].log.full
  {
    hide LogInv, After, Ordinary, InForce, Sent, Recorded, VoteCast, SetOf, Node.Valid, Resident, Continues, LogFrame;
    if step.Invoke? && step.node == x {
      ResidentValid(c, x);
      ResidentStays(c, x, step.call);
      CandidateKeepsLog(c.nodes[x], step.call);
    }
  }

  // ---------------------------------------------------------------- leader completeness

  /** What a voter compares: last terms, then last indexes. */
  ghost predicate Newer(candidate: seq<LogEntry>, voter: seq<LogEntry>) {
    var last, local := TermAt(candidate, |candidate|), TermAt(voter, |voter|);
    if last != local then last > local else |candidate| >= |voter|
  }

  /** A log that ends with an entry of a later leader, whose line has the prefix, has the prefix. */
  lemma LaterLineHolds(line: Lineage, t: Term, prefix: seq<LogEntry>, candidate: seq<LogEntry>)
    requires Sound(line) && OwnPrefix(line, t, prefix) && Follows(line, candidate) && candidate != []
    requires candidate[|candidate| - 1].term > t && prefix <= line[candidate[|candidate| - 1].term]
    ensures prefix <= candidate
  {
    var i := |candidate| - 1;
    var last := candidate[i].term;
    assert candidate == candidate[..i + 1] == line[last][..i + 1];
    assert TermsUpTo(line[t], t);
    assert forall k :: 0 <= k < |prefix| ==> prefix[k] == line[t][k] && prefix[k].term <= t;
  }

  /** The last term of a log that holds the prefix is at least the prefix's. */
  lemma LastTermAtLeast(line: Lineage, t: Term, prefix: seq<LogEntry>, voter: seq<LogEntry>)
    requires Sound(line) && OwnPrefix(line, t, prefix) && Follows(line, voter) && prefix <= voter
    ensures 0 < t <= TermAt(voter, |voter|)
  {
    hide Follows;
    assert prefix[|prefix| - 1] == voter[|prefix| - 1] == line[t][|prefix| - 1];
    assert WellNumbered(line[t]);
    TermsNeverDecrease(line, voter, |prefix| - 1, |voter| - 1);
  }

  /** Whoever looks up to date to a voter that holds an acknowledged prefix holds it too. */
  lemma UpToDateHolds(line: Lineage, t: Term, prefix: seq<LogEntry>, voter: seq<LogEntry>, candidate: seq<LogEntry>)
    requires Sound(line) && OwnPrefix(line, t, prefix)
    requires Follows(line, voter) && Follows(line, candidate) && prefix <= voter
    requires Newer(candidate, voter)
    requires forall w :: t < w <= TermAt(candidate, |candidate|) && w in line ==> prefix <= line[w]
    ensures prefix <= candidate
  {
    LastTermAtLeast(line, t, prefix, voter);
    var last, local := TermAt(candidate, |candidate|), TermAt(voter, |voter|);
    assert candidate[|candidate| - 1].term in line;
    hide Follows, Sound, OwnPrefix;
    if last == local {
      SameTermSamePrefix(line, voter, candidate, |voter| - 1, |candidate| - 1);
      assert voter == voter[..|voter| - 1 + 1];
    } else {
      LaterLineHolds(line, t, prefix, candidate);
    }
  }

  /** What the run's lines say about a log of one of its states. */
  lemma LogOnLines(states: seq<Cluster>, steps: seq<Step>, s: nat, x: NodeId)
    requires Execution(states, steps) && s < |states| && x in states[s].nodes
    ensures Sound(Lines(states)) && Follows(Lines(states), states[s].nodes[x].log.full)
    ensures TermsUpTo(states[s].nodes[x].log.full, states[s].nodes[x].Term())
    ensures states[s].nodes[x].log.full != [] ==>
              var last := states[s].nodes[x].log.full[|states[s].nodes[x].log.full| - 1].term;
              last in states[s].lineage && last <= states[s].nodes[x].Term()
  {
    hide Execution, ElectionInv, LineagesElected, LeadersHoldLineage, PacketsFollow, Sound, Extends;
    ExecutionKeepsLogInv(states, steps, s);
    ExecutionKeepsLogInv(states, steps, |states| - 1);
    Forward(states, steps, s, |states| - 1, x);
    FollowsExtended(states[s].lineage, Lines(states), states[s].nodes[x].log.full);
  }

  lemma GrantMeans(n: Node, call: Call, u: Term, x: NodeId)
    requires n.Valid() && VoteCast(n, call) == Some((u, x))
    ensures After(n, call).Term() == u
    ensures if call.CallRequestVote?
      then call.vote.candidateId == x && call.vote.term == u
           && n.UpToDate(call.vote.lastLogIndex, call.vote.lastLogTerm)
      else x == n.id && After(n, call).role == Candidate && After(n, call).log == n.log
  {
    hide Outbox.Stage, WellNumbered, Settled, ActiveVoters, SetOf, Distinct;
  }

  /** A candidate whose voter holds an acknowledged prefix holds it as well. */
  lemma CandidateHolds(states: seq<Cluster>, steps: seq<Step>, h: nat, k: nat, x: NodeId, v: NodeId, u: Term, t: Term,
                       prefix: seq<LogEntry>)
    requires Execution(states, steps) && h < |states| && k < |states| && x in states[h].nodes && v in states[k].nodes
    requires OwnPrefix(Lines(states), t, prefix) && prefix <= states[k].nodes[v].log.full
    requires states[h].nodes[x].Term() == u && u !in states[h].lineage
    requires var c := states[h].nodes[x].log; states[k].nodes[v].UpToDate(c.LastIndex(), TermAt(c.full, c.LastIndex()))
    requires forall w :: t < w < u && w in Lines(states) ==> prefix <= Lines(states)[w]
    ensures prefix <= states[h].nodes[x].log.full
  {
    hide Execution, Sound, Follows;
    LogOnLines(states, steps, h, x);
    LogOnLines(states, steps, k, v);
    UpToDateHolds(Lines(states), t, prefix, states[k].nodes[v].log.full, states[h].nodes[x].log.full);
  }

  /** The step at which `v` voted for the candidate elected at `j`: the candidate holds what `v` held. */
  lemma VoterCarries(states: seq<Cluster>, steps: seq<Step>, k: nat, j: nat, v: NodeId, u: Term, t: Term,
                     prefix: seq<LogEntry>)
    requires Honest(states, steps) && ElectedAt(states, steps, j, u) && k < j
    requires CastAt(states, steps, k, v, (u, steps[j].node))
    requires OwnPrefix(Lines(states), t, prefix) && prefix <= states[k].nodes[v].log.full
    requires forall w :: t < w < u && w in Lines(states) ==> prefix <= Lines(states)[w]
    ensures prefix <= Lines(states)[u]
  {
    hide Execution, After, VoteCast, Majority, OwnPrefix, LogInv, Inhabited, Enabled, Node.Valid, Extends,
         LogState.Valid, LogState.Committed, Node.UpToDate;
    var x, call := steps[j].node, steps[k].call;
    ExecutionLengths(states, steps);
    GrantMeans(states[k].nodes[v], call, u, x);
    if call.CallRequestVote? {
      assert CampaignedBy(states, k, call.vote);
      var h :| 0 <= h <= k && x in states[h].nodes && Campaigned(states[h].nodes[x], call.vote);
      Forward(states, steps, h, j, x);
      CandidateLogFixed(states, steps, x, h, j);
      LinesStay(states[j].lineage, states[h].lineage);
      CandidateHolds(states, steps, h, k, x, v, u, t, prefix);
    } else {
      StepAt(states, steps, k);
      SelfVote(states[k], steps[k], u);
      CandidateLogFixed(states, steps, x, k + 1, j);
    }
  }

  lemma SelfVote(c: Cluster, step: Step, u: Term)
    requires Inhabited(c) && Enabled(c, step) && step.Invoke? && step.node in c.nodes
    requires c.nodes[step.node].Valid() && !step.call.CallRequestVote?
    requires VoteCast(c.nodes[step.node], step.call).Some? && VoteCast(c.nodes[step.node], step.call).value.0 == u
    ensures var d := Next(c, step);
            && step.node in d.nodes && VoteCast(c.nodes[step.node], step.call).value.1 == step.node
            && d.nodes[step.node].role == Candidate && d.nodes[step.node].Term() == u
            && d.nodes[step.node].log.full == c.nodes[step.node].log.full
  {
    hide After, VoteCast, Ordinary, Sent, Recorded, Node.Valid;
    ResidentValid(c, step.node);
    GrantMeans(c.nodes[step.node], step.call, u, VoteCast(c.nodes[step.node], step.call).value.1);
  }

  /** The elected leader of a later term holds what one of its voters acknowledged. */
  lemma SharedVoterCarries(states: seq<Cluster>, steps: seq<Step>, j: nat, v: NodeId, u: Term, t: Term,
                           prefix: seq<LogEntry>)
    requires Honest(states, steps) && ElectedAt(states, steps, j, u) && t < u
    requires OwnPrefix(Lines(states), t, prefix) && HeldBy(states, |states|, v, t, prefix)
    requires v in VotersFor(states[j], u, steps[j].node)
    requires forall w :: t < w < u && w in Lines(states) ==> prefix <= Lines(states)[w]
    ensures prefix <= Lines(states)[u]
  {
    hide Execution, After, VoteCast, Majority, LogInv, Inhabited, Enabled, Node.Valid, Extends,
         LogState.Valid, LogState.Committed, Node.UpToDate, RequestsSent;
    var a :| 0 <= a < |states| && HeldIn(states[a], v, t, prefix);
    VoteOrigin(states, steps, j, v, (u, steps[j].node));
    Forward(states, steps, 0, a, v);
    var k :| 0 <= k < j && CastAt(states, steps, k, v, (u, steps[j].node));
    ExecutionLengths(states, steps);
    VoteMovesTerm(states, steps, k, v, u);
    if k < a {
      Forward(states, steps, k + 1, a, v);
    }
    Forward(states, steps, k, j, v);
    LinesStay(states[j].lineage, states[k].lineage);
    Retains(states, steps, v, t, prefix, a, k, u);
    VoterCarries(states, steps, k, j, v, u, t, prefix);
  }

  lemma VoteMovesTerm(states: seq<Cluster>, steps: seq<Step>, k: nat, v: NodeId, u: Term)
    requires Execution(states, steps) && k + 1 < |states| && exists x :: CastAt(states, steps, k, v, (u, x))
    ensures v in states[k + 1].nodes && states[k + 1].nodes[v].Term() == u && states[k].nodes[v].Term() <= u
  {
    hide Execution, After, VoteCast, LogInv, Inhabited, Enabled, Node.Valid, Ordinary, Sent, Recorded, Extends,
         LogState.Valid, LogState.Committed;
    var x :| CastAt(states, steps, k, v, (u, x));
    ExecutionLengths(states, steps);
    StepAt(states, steps, k);
    StepForward(states[k], steps[k], v);
    GrantMeans(states[k].nodes[v], steps[k].call, u, x);
  }

  /** If the leaders between hold it, so does the next. */
  lemma NextLeaderHolds(states: seq<Cluster>, steps: seq<Step>, t: Term, prefix: seq<LogEntry>, u: Term)
    requires Honest(states, steps) && Chosen(states, t, prefix) && t < u && u in Lines(states)
    requires forall w :: t < w < u && w in Lines(states) ==> prefix <= Lines(states)[w]
    ensures prefix <= Lines(states)[u]
  {
    hide Execution, RequestsSent, Majority, OwnPrefix, LogInv;
    ExecutionLengths(states, steps);
    FindElection(states, steps, |states| - 1, u);
    var j :| 0 <= j < |states| - 1 && ElectedAt(states, steps, j, u);
    var x := steps[j].node;
    var quorum :| Acknowledged(states, quorum, t, prefix);
    StartedWith(states, steps, j, x);
    Forward(states, steps, 0, j, x);
    MajoritiesMeet(states[0].electorate, quorum, VotersFor(states[j], u, x));
    var voter :| voter in quorum * VotersFor(states[j], u, x);
    SharedVoterCarries(states, steps, j, voter, u, t, prefix);
  }

  /** Every leader of a later term holds what a majority acknowledged. */
  lemma {:induction false} LeadersHoldChosen(states: seq<Cluster>, steps: seq<Step>, t: Term, prefix: seq<LogEntry>,
                                             u: Term)
    requires Honest(states, steps) && Chosen(states, t, prefix) && t < u && u in Lines(states)
    ensures prefix <= Lines(states)[u]
    decreases u
  {
    hide Execution, RequestsSent, Chosen;
    ExecutionLengths(states, steps);
    forall w | t < w < u && w in Lines(states) ensures prefix <= Lines(states)[w]
    {
      LeadersHoldChosen(states, steps, t, prefix, w);
    }
    NextLeaderHolds(states, steps, t, prefix, u);
  }

  // ---------------------------------------------------------------- what a leader counts

  /** Success responses report what their source held in their term. */
  lemma {:induction false} ReplyWasHeld(states: seq<Cluster>, steps: seq<Step>, i: nat, p: Packet)
    requires Execution(states, steps) && i < |states| && p in states[i].net && p.ReplyPacket? && p.answer.success
    ensures p.answer.matchIndex == |p.held| && HeldBy(states, i + 1, p.source, p.answer.term, p.held)
    decreases i
  {
    hide Execution, LogInv, Inhabited, Enabled, Next, HeldIn;
    if i == 0 {
      ExecutionStarts(states, steps);
    } else {
      ExecutionLengths(states, steps);
      StepAt(states, steps, i - 1);
      if p in states[i - 1].net {
        ReplyWasHeld(states, steps, i - 1, p);
      } else {
        NewReplyIsHeld(states[i - 1], steps[i - 1], p);
      }
    }
  }

  lemma NewReplyIsHeld(c: Cluster, step: Step, p: Packet)
    requires Inhabited(c) && Enabled(c, step) && p in Next(c, step).net && p !in c.net
    requires p.ReplyPacket? && p.answer.success
    ensures p.answer.matchIndex == |p.held| && HeldIn(Next(c, step), p.source, p.answer.term, p.held)
  {
    hide Ordinary, Recorded, VoteCast, Node.Valid, InForce, Resident, Node.HandleAppendEntries,
         Node.HandleRequestVote, Node.BuildAppendEntries;
    ResidentValid(c, step.node);
    ReplyIsSentOnDelivery(c.nodes[step.node], step.call, p);
    SuccessReports(c.nodes[step.node], step.call.append);
  }

  /** What a leader knows of a peer above its commit index the peer held in the leader's term. */
  ghost predicate KnowsTruth(states: seq<Cluster>, i: nat, n: Node) {
    n.role == Leader ==>
      forall q :: q in n.progress ==>
        var m := n.progress[q].matchIndex;
        m <= n.log.commitIndex || (m <= |n.log.full| && HeldBy(states, i + 1, q, n.Term(), n.log.full[..m]))
  }

  lemma HeldShorter(states: seq<Cluster>, end: nat, later: nat, v: NodeId, t: Term, prefix: seq<LogEntry>,
                    shorter: seq<LogEntry>)
    requires HeldBy(states, end, v, t, prefix) && end <= later && shorter <= prefix
    ensures HeldBy(states, later, v, t, shorter)
  {
    var a :| 0 <= a < end && a < |states| && HeldIn(states[a], v, t, prefix);
    assert HeldIn(states[a], v, t, shorter);
  }

  /** A leader that handles a true report of its own term learns what the peer held of the leader's log. */
  lemma ReportedWasHeld(states: seq<Cluster>, steps: seq<Step>, i: nat, m: LogIndex)
    requires Execution(states, steps) && i < |steps| && i < |states| && HandlesTruth(states[i], steps[i])
    requires steps[i].Invoke? && steps[i].node in states[i].nodes && steps[i].call.CallAppendResponse?
    requires var n, reply := states[i].nodes[steps[i].node], steps[i].call.appendReply;
             n.role == Leader && reply.success && reply.term == n.Term() && m <= reply.matchIndex && m <= |n.log.full|
    ensures var n := states[i].nodes[steps[i].node];
            HeldBy(states, i + 1, steps[i].call.source, n.Term(), n.log.full[..m])
  {
    hide Execution, ElectionInv, Sound, LineagesElected, LogsFollow, PacketsFollow, ReplySound, OrderSound, HeldBy,
         Truthful;
    var c, x, source, reply := states[i], steps[i].node, steps[i].call.source, steps[i].call.appendReply;
    var p :| p in c.net && Brings(p, source, x, reply) && Truthful(p);
    ExecutionKeepsReportInv(states, steps, i);
    TruthfulMeans(c.lineage, p);
    SuccessTerm(c.lineage, p);
    ReplyWasHeld(states, steps, i, p);
    var n := c.nodes[x];
    assert p.held <= n.log.full;
    HeldShorter(states, i + 1, i + 1, source, n.Term(), p.held, n.log.full[..m]);
  }

  lemma SuccessTerm(line: Lineage, p: Packet)
    requires p.ReplyPacket? && ReplySound(line, p) && p.answer.success
    ensures p.answer.term == p.order.term
  {
  }

  /** What a step counts for a peer, the peer held. */
  lemma CountedWasHeld(states: seq<Cluster>, steps: seq<Step>, i: nat, q: NodeId)
    requires Execution(states, steps) && i < |steps| && i + 1 < |states| && HandlesTruth(states[i], steps[i])
    requires steps[i].Invoke? && steps[i].node in states[i].nodes && steps[i].node in states[i + 1].nodes
    requires KnowsTruth(states, i, states[i].nodes[steps[i].node])
    requires states[i + 1].nodes[steps[i].node].role == Leader && q in states[i + 1].nodes[steps[i].node].progress
    ensures var n, after := states[i].nodes[steps[i].node], states[i + 1].nodes[steps[i].node];
            var m := after.progress[q].matchIndex;
            m <= n.log.commitIndex
            || (m <= |after.log.full| && HeldBy(states, i + 2, q, after.Term(), after.log.full[..m]))
  {
    hide Execution, LogInv, Enabled, After, Ordinary, Sent, Recorded, VoteCast, HeldBy, Node.Valid,
         InForce, LogFrame, Continues, CommitCounted, Extends, HandlesTruth, Resident, OwnGrowth;
    var c, d, x, call := states[i], states[i + 1], steps[i].node, steps[i].call;
    StepAt(states, steps, i);
    ResidentValid(c, x);
    ResidentStays(c, x, call);
    OrdinaryOf(c, x, call);
    CallCounts(c.nodes[x], call);
    var n, after := c.nodes[x], d.nodes[x];
    var m := after.progress[q].matchIndex;
    if m > n.log.commitIndex {
      if q == x && m <= |after.log.full| {
        HeldNow(states, i + 1, x, m);
      } else {
        GrowsOnLine(c, x, call);
        assert n.role == Leader;
        if q in n.progress && m <= n.progress[q].matchIndex {
          HeldShorter(states, i + 1, i + 2, q, n.Term(), n.log.full[..n.progress[q].matchIndex], after.log.full[..m]);
        } else {
          ReportedWasHeld(states, steps, i, m);
          HeldShorter(states, i + 1, i + 2, q, n.Term(), n.log.full[..m], after.log.full[..m]);
        }
      }
    }
  }

  lemma HeldNow(states: seq<Cluster>, i: nat, x: NodeId, m: LogIndex)
    requires i < |states| && x in states[i].nodes && m <= |states[i].nodes[x].log.full|
    ensures HeldBy(states, i + 1, x, states[i].nodes[x].Term(), states[i].nodes[x].log.full[..m])
  {
    assert HeldIn(states[i], x, states[i].nodes[x].Term(), states[i].nodes[x].log.full[..m]);
  }

  lemma OrdinaryOf(c: Cluster, x: NodeId, call: Call)
    requires Enabled(c, Invoke(x, call))
    ensures Ordinary(c.nodes[x], call)
  {
  }

  lemma GrowsOnLine(c: Cluster, x: NodeId, call: Call)
    requires LogInv(c) && Inhabited(c) && Enabled(c, Invoke(x, call)) && c.nodes[x].role == Leader
    requires c.nodes[x].Valid()
    ensures c.nodes[x].log.full <= After(c.nodes[x], call).log.full
  {
    hide LogInv, After, Ordinary, Node.Valid;
    OwnGrowthOf(c, x, call);
    OwnGrowthKeeps(c.nodes[x], After(c.nodes[x], call), c.nodes[x].log.full);
  }

  lemma HeldByLater(states: seq<Cluster>, i: nat, j: nat, n: Node)
    requires KnowsTruth(states, i, n) && i <= j
    ensures KnowsTruth(states, j, n)
  {
    hide HeldBy;
    if n.role == Leader {
      forall q | q in n.progress
        ensures var m := n.progress[q].matchIndex;
                m <= n.log.commitIndex || (m <= |n.log.full| && HeldBy(states, j + 1, q, n.Term(), n.log.full[..m]))
      {
        var m := n.progress[q].matchIndex;
        if m > n.log.commitIndex {
          HeldShorter(states, i + 1, j + 1, q, n.Term(), n.log.full[..m], n.log.full[..m]);
        }
      }
    }
  }

  /** Whatever a leader knows is true, in every state of the run. */
  lemma {:induction false} LeadersKnowTruth(states: seq<Cluster>, steps: seq<Step>, i: nat, x: NodeId)
    requires Execution(states, steps) && ReportsTrue(states, steps)
    requires i < |states| && x in states[i].nodes
    ensures KnowsTruth(states, i, states[i].nodes[x])
    decreases i
  {
    hide Execution, LogInv, Inhabited, Enabled, Next, KnowsTruth, HandlesTruth, Initial;
    if i == 0 {
      ExecutionStarts(states, steps);
      NoneLeads(states, x);
    } else {
      ExecutionLengths(states, steps);
      StepAt(states, steps, i - 1);
      KeysStay(states[i - 1], steps[i - 1]);
      LeadersKnowTruth(states, steps, i - 1, x);
      if steps[i - 1].Invoke? && steps[i - 1].node == x {
        StepKnowsTruth(states, steps, i - 1);
      } else {
        StepForward(states[i - 1], steps[i - 1], x);
        HeldByLater(states, i - 1, i, states[i].nodes[x]);
      }
    }
  }

  lemma NoneLeads(states: seq<Cluster>, x: NodeId)
    requires states != [] && Initial(states[0]) && x in states[0].nodes
    ensures KnowsTruth(states, 0, states[0].nodes[x])
  {
    hide InitialNode, ValidOptions, Resident, HeldBy;
  }

  lemma StepKnowsTruth(states: seq<Cluster>, steps: seq<Step>, i: nat)
    requires Execution(states, steps) && i < |steps| && i + 1 < |states| && HandlesTruth(states[i], steps[i])
    requires steps[i].Invoke? && steps[i].node in states[i].nodes && steps[i].node in states[i + 1].nodes
    requires KnowsTruth(states, i, states[i].nodes[steps[i].node])
    ensures KnowsTruth(states, i + 1, states[i + 1].nodes[steps[i].node])
  {
    hide Execution, LogInv, Inhabited, Enabled, Next, HandlesTruth, HeldBy;
    var x := steps[i].node;
    StepAt(states, steps, i);
    StepForward(states[i], steps[i], x);
    CommitGrows(states[i].nodes[x].log, states[i + 1].nodes[x].log);
    var after := states[i + 1].nodes[x];
    if after.role == Leader {
      forall q | q in after.progress
        ensures var m := after.progress[q].matchIndex;
                m <= after.log.commitIndex
                || (m <= |after.log.full| && HeldBy(states, i + 2, q, after.Term(), after.log.full[..m]))
      {
        assert KnowsTruth(states, i, states[i].nodes[x]);
        CountedWasHeld(states, steps, i, q);
      }
    }
  }

  lemma CommitGrows(before: LogState, after: LogState)
    requires before.Valid() && after.Valid() && before.Committed() <= after.Committed()
    ensures before.commitIndex <= after.commitIndex
  {
  }

  /**
   What a peer reports to the leader of its term is the leader's own log if and only if the report is
   true; a leader that has gone on to other entries since cannot tell.
   */
  lemma LeaderMayTrustIff(states: seq<Cluster>, steps: seq<Step>, s: nat, x: NodeId, p: Packet)
    requires Execution(states, steps) && s < |states| && x in states[s].nodes && p in states[s].net
    requires p.ReplyPacket? && p.answer.success
    requires states[s].nodes[x].role == Leader && states[s].nodes[x].Term() == p.order.term
    ensures p.held <= states[s].nodes[x].log.full <==> Truthful(p)
  {
    hide Execution, ElectionInv, Sound, LineagesElected, LogsFollow, PacketsFollow;
    ReportIsTrueIff(states, steps, s, p);
    ExecutionKeepsLogInv(states, steps, s);
  }

  // ---------------------------------------------------------------- what is committed was acknowledged

  /** The committed log is part of a prefix that a majority acknowledged. */
  ghost predicate Covered(states: seq<Cluster>, log: LogState)
    requires states != []
  {
    && log.commitIndex <= |log.full|
    && (log.commitIndex == 0 ||
        exists t, prefix :: Chosen(states, t, prefix) && log.full[..log.commitIndex] <= prefix)
  }

  /** What a leader newly commits a majority held in its term. */
  lemma LeaderCommitsChosen(states: seq<Cluster>, steps: seq<Step>, i: nat)
    requires Execution(states, steps) && ReportsTrue(states, steps) && i < |steps| && i + 1 < |states|
    requires steps[i].Invoke? && !steps[i].call.CallAppendEntries?
    requires steps[i].node in states[i].nodes && steps[i].node in states[i + 1].nodes
    requires states[i + 1].nodes[steps[i].node].log.commitIndex > states[i].nodes[steps[i].node].log.commitIndex
    ensures var n, after := states[i].nodes[steps[i].node], states[i + 1].nodes[steps[i].node];
            && n.role == Leader && after.role == Leader && after.Term() == n.Term()
            && after.log.commitIndex <= |after.log.full|
            && Chosen(states, after.Term(), after.log.full[..after.log.commitIndex])
  {
    hide Execution, LogInv, Enabled, After, Ordinary, Sent, Recorded, VoteCast, HeldBy, Node.Valid, InForce,
         LogFrame, RoleFrame, Continues, CommitCounted, Counted, Extends, HandlesTruth, Resident, Majority, SetOf,
         KnowsTruth, OwnPrefix;
    var c, d, x, call := states[i], states[i + 1], steps[i].node, steps[i].call;
    StepAt(states, steps, i);
    ResidentValid(c, x);
    ResidentStays(c, x, call);
    OrdinaryOf(c, x, call);
    CallCounts(c.nodes[x], call);
    LeadersKnowTruth(states, steps, i, x);
    StepForward(c, steps[i], x);
    var n, after := c.nodes[x], d.nodes[x];
    assert after.log.commitIndex <= |after.log.full|;
    var prefix := after.log.full[..after.log.commitIndex];
    forall q | q in Supporters(after, after.log.commitIndex) ensures HeldBy(states, |states|, q, after.Term(), prefix)
    {
      CountedWasHeld(states, steps, i, q);
      HeldShorter(states, i + 2, |states|, q, after.Term(), after.log.full[..after.progress[q].matchIndex], prefix);
    }
    StartedWith(states, steps, i, x);
    Forward(states, steps, 0, i, x);
    assert Acknowledged(states, Supporters(after, after.log.commitIndex), after.Term(), prefix) by {
      CountedMajority(after, c.electorate);
    }
    LeaderOnLine(states, steps, i + 1, x);
    CountedIsOwn(states, after);
  }

  lemma CountedMajority(after: Node, electorate: set<NodeId>)
    requires CommitCounted(after) && SetOf(after.voters) == electorate
    ensures Majority(Supporters(after, after.log.commitIndex), electorate)
  {
  }

  lemma CountedIsOwn(states: seq<Cluster>, after: Node)
    requires states != [] && CommitCounted(after) && after.log.commitIndex > 0
    requires after.Term() in Lines(states) && after.log.full <= Lines(states)[after.Term()]
    ensures OwnPrefix(Lines(states), after.Term(), after.log.full[..after.log.commitIndex])
  {
  }

  lemma LeaderOnLine(states: seq<Cluster>, steps: seq<Step>, s: nat, x: NodeId)
    requires Execution(states, steps) && s < |states| && x in states[s].nodes && states[s].nodes[x].role == Leader
    ensures states[s].nodes[x].Term() in Lines(states)
    ensures states[s].nodes[x].log.full <= Lines(states)[states[s].nodes[x].Term()]
  {
    hide Execution, ElectionInv, LineagesElected, LogsFollow, PacketsFollow, Sound;
    ExecutionKeepsLogInv(states, steps, s);
    Forward(states, steps, s, |states| - 1, x);
  }

  lemma SameCommitCovered(states: seq<Cluster>, a: LogState, b: LogState)
    requires states != [] && a.Valid() && b.Valid() && Covered(states, a) && a.Committed() == b.Committed()
    ensures Covered(states, b)
  {
    hide Chosen, WellNumbered;
    if b.commitIndex > 0 {
      var t, prefix :| Chosen(states, t, prefix) && a.full[..a.commitIndex] <= prefix;
    }
  }

  ghost predicate AllCovered(states: seq<Cluster>, c: Cluster)
    requires states != []
  {
    && (forall x :: x in c.nodes ==> Covered(states, c.nodes[x].log))
    && (forall p :: p in c.net && p.AppendPacket? ==> Covered(states, p.sender))
  }

  lemma NewOrderSender(c: Cluster, step: Step, p: Packet)
    requires Inhabited(c) && Enabled(c, step) && p in Next(c, step).net && p !in c.net && p.AppendPacket?
    ensures p.source in c.nodes && p.sender == c.nodes[p.source].log
  {
    hide After, Ordinary, Recorded, VoteCast, Node.Valid, InForce, Node.HandleAppendEntries, Node.HandleRequestVote,
         Outbox.Stage, WellNumbered;
    if step.Invoke? {
      ResidentValid(c, step.node);
    }
  }

  /** A node commits what it counted, or what the sender of an append had committed. */
  lemma StepCovers(states: seq<Cluster>, steps: seq<Step>, i: nat, x: NodeId)
    requires Execution(states, steps) && ReportsTrue(states, steps) && i < |steps| && i + 1 < |states|
    requires AllCovered(states, states[i]) && x in states[i].nodes && x in states[i + 1].nodes
    ensures Covered(states, states[i + 1].nodes[x].log)
  {
    hide Execution, LogInv, After, Ordinary, Sent, Recorded, VoteCast, Resident, ReportsTrue, LogState.Valid,
         LogState.Committed, Chosen, Extends;
    var c, d, step := states[i], states[i + 1], steps[i];
    StepAt(states, steps, i);
    StepForward(c, step, x);
    CommitGrows(c.nodes[x].log, d.nodes[x].log);
    if d.nodes[x].log.commitIndex == c.nodes[x].log.commitIndex {
      UnmovedCommit(c.nodes[x].log, d.nodes[x].log);
      SameCommitCovered(states, c.nodes[x].log, d.nodes[x].log);
    } else if step.call.CallAppendEntries? {
      var p :| p in c.net && p.AppendPacket? && p.target == x && p.order == step.call.append;
      ResidentValid(c, x);
      DeliveryCommits(c, x, p);
      SameCommitCovered(states, p.sender, d.nodes[x].log);
    } else {
      LeaderCommitsChosen(states, steps, i);
      var log := d.nodes[x].log;
      assert Chosen(states, d.nodes[x].Term(), log.full[..log.commitIndex]);
    }
  }

  lemma UnmovedCommit(a: LogState, b: LogState)
    requires a.Valid() && b.Valid() && a.Committed() <= b.Committed() && a.commitIndex == b.commitIndex
    ensures a.Committed() == b.Committed()
  {
  }

  lemma {:induction false} RunCovers(states: seq<Cluster>, steps: seq<Step>, i: nat)
    requires Execution(states, steps) && ReportsTrue(states, steps) && i < |states|
    ensures AllCovered(states, states[i])
    decreases i
  {
    hide Execution, LogInv, Inhabited, Enabled, Next, ReportsTrue, Covered, Initial;
    if i == 0 {
      ExecutionStarts(states, steps);
      forall x | x in states[0].nodes ensures Covered(states, states[0].nodes[x].log)
      {
        StartsUncommitted(states, x);
      }
    } else {
      ExecutionLengths(states, steps);
      RunCovers(states, steps, i - 1);
      StepAt(states, steps, i - 1);
      KeysStay(states[i - 1], steps[i - 1]);
      forall x | x in states[i].nodes ensures Covered(states, states[i].nodes[x].log)
      {
        StepCovers(states, steps, i - 1, x);
      }
      forall p | p in states[i].net && p.AppendPacket? ensures Covered(states, p.sender)
      {
        if p !in states[i - 1].net {
          NewOrderSender(states[i - 1], steps[i - 1], p);
        }
      }
    }
  }

  lemma StartsUncommitted(states: seq<Cluster>, x: NodeId)
    requires states != [] && Initial(states[0]) && x in states[0].nodes
    ensures Covered(states, states[0].nodes[x].log)
  {
    hide InitialNode, ValidOptions, Resident;
    var o :| ValidOptions(o) && states[0].nodes[x] == InitialNode(o);
    InitialLogEmpty(o);
  }

  // ---------------------------------------------------------------- the theorems

  /** An execution up to one of its states is an execution. */
  lemma Cut(states: seq<Cluster>, steps: seq<Step>, s: nat)
    requires Honest(states, steps) && ReportsTrue(states, steps) && s < |states|
    ensures Honest(states[..s + 1], steps[..s]) && ReportsTrue(states[..s + 1], steps[..s])
  {
    hide Initial, Inhabited, Enabled, Next, HandlesTruth, Campaigned;
    forall k | 0 <= k < s && steps[k].Invoke? && steps[k].call.CallRequestVote?
      ensures CampaignedBy(states[..s + 1], k, steps[k].call.vote)
    {
      assert CampaignedBy(states, k, steps[k].call.vote);
    }
    assert forall k :: 0 <= k < s ==> steps[..s][k] == steps[k] && states[..s + 1][k + 1] == states[k + 1];
  }

  /** The members of the quorum hold the log up to the commit index of `log`. */
  ghost predicate Hold(c: Cluster, quorum: set<NodeId>, log: LogState) {
    log.commitIndex <= |log.full| &&
    forall v :: v in quorum ==> v in c.nodes && log.full[..log.commitIndex] <= c.nodes[v].log.full
  }

  lemma FinalCommitHeld(states: seq<Cluster>, steps: seq<Step>, x: NodeId)
    requires Honest(states, steps) && ReportsTrue(states, steps)
    requires x in states[|states| - 1].nodes && states[|states| - 1].nodes[x].log.commitIndex > 0
    ensures exists quorum :: Majority(quorum, states[0].electorate)
                             && Hold(states[|states| - 1], quorum, states[|states| - 1].nodes[x].log)
  {
    hide Execution, RequestsSent, ReportsTrue, Majority, OwnPrefix, LogInv;
    ExecutionLengths(states, steps);
    var last := |states| - 1;
    RunCovers(states, steps, last);
    var log := states[last].nodes[x].log;
    assert Covered(states, log);
    var t, prefix :| Chosen(states, t, prefix) && log.full[..log.commitIndex] <= prefix;
    var quorum :| Acknowledged(states, quorum, t, prefix);
    forall v | v in quorum
      ensures v in states[last].nodes && log.full[..log.commitIndex] <= states[last].nodes[v].log.full
    {
      ChosenIsKept(states, steps, t, prefix, v);
    }
    assert Hold(states[last], quorum, log);
  }

  /** Who acknowledged a prefix that a majority acknowledged never loses it. */
  lemma ChosenIsKept(states: seq<Cluster>, steps: seq<Step>, t: Term, prefix: seq<LogEntry>, v: NodeId)
    requires Honest(states, steps) && Chosen(states, t, prefix) && HeldBy(states, |states|, v, t, prefix)
    ensures v in states[|states| - 1].nodes && prefix <= states[|states| - 1].nodes[v].log.full
  {
    hide Execution, RequestsSent, OwnPrefix, Acknowledged;
    var last := |states| - 1;
    var a :| 0 <= a < |states| && HeldIn(states[a], v, t, prefix);
    Forward(states, steps, a, last, v);
    var bound := states[last].nodes[v].Term();
    forall w | t <= w <= bound && w in Lines(states) ensures prefix <= Lines(states)[w]
    {
      if w == t {
        assert OwnPrefix(Lines(states), t, prefix);
        OwnOnLine(Lines(states), t, prefix);
      } else {
        LeadersHoldChosen(states, steps, t, prefix, w);
      }
    }
    Retains(states, steps, v, t, prefix, a, last, bound);
  }

  lemma OwnOnLine(line: Lineage, t: Term, prefix: seq<LogEntry>)
    requires OwnPrefix(line, t, prefix)
    ensures prefix <= line[t]
  {
  }

  /**
   In every state of a run, whatever any node has committed is in the logs of a majority of the
   electorate, there and then.
   */
  lemma CommittedIsHeld(states: seq<Cluster>, steps: seq<Step>, s: nat, x: NodeId)
    requires Honest(states, steps) && ReportsTrue(states, steps)
    requires s < |states| && x in states[s].nodes && states[s].nodes[x].log.commitIndex > 0
    ensures exists quorum :: Majority(quorum, states[s].electorate) && Hold(states[s], quorum, states[s].nodes[x].log)
  {
    hide Execution, RequestsSent, ReportsTrue, Majority, Hold;
    ExecutionLengths(states, steps);
    Cut(states, steps, s);
    assert states[..s + 1][s] == states[s] && states[..s + 1][0] == states[0];
    FinalCommitHeld(states[..s + 1], steps[..s], x);
    SameElectorate(states, steps, s, x);
  }

  lemma SameElectorate(states: seq<Cluster>, steps: seq<Step>, s: nat, x: NodeId)
    requires Execution(states, steps) && s < |states| && x in states[s].nodes
    ensures states[s].electorate == states[0].electorate
  {
    hide Execution;
    StartedWith(states, steps, s, x);
    Forward(states, steps, 0, s, x);
  }

  /** Two committed logs, of any nodes at any times of a run: one is a prefix of the other. */
  lemma CommitsAgree(states: seq<Cluster>, steps: seq<Step>, s: nat, r: nat, x: NodeId, y: NodeId)
    requires Honest(states, steps) && ReportsTrue(states, steps)
    requires s <= r < |states| && x in states[s].nodes && y in states[r].nodes
    ensures states[s].nodes[x].log.Valid() && states[r].nodes[y].log.Valid()
    ensures var a, b := states[s].nodes[x].log.Committed(), states[r].nodes[y].log.Committed();
            a <= b || b <= a
  {
    hide Execution, RequestsSent, ReportsTrue, Majority;
    Forward(states, steps, s, r, x);
    Forward(states, steps, r, r, y);
    var p, q := states[r].nodes[x].log, states[r].nodes[y].log;
    if p.commitIndex > 0 && q.commitIndex > 0 {
      CommittedIsHeld(states, steps, r, x);
      CommittedIsHeld(states, steps, r, y);
      var m :| Majority(m, states[r].electorate) && Hold(states[r], m, p);
      var n :| Majority(n, states[r].electorate) && Hold(states[r], n, q);
      MajoritiesMeet(states[r].electorate, m, n);
      var v :| v in m * n;
      assert p.Committed() <= states[r].nodes[v].log.full && q.Committed() <= states[r].nodes[v].log.full;
    }
  }

  lemma {:induction false} OwnForward(states: seq<Cluster>, steps: seq<Step>, a: nat, b: nat, t: Term, from: LogIndex)
    requires Execution(states, steps) && a <= b < |states| && OwnFrom(states[a].lineage, t, from)
    ensures OwnFrom(states[b].lineage, t, from)
    decreases b
  {
    hide Execution, LogInv, Inhabited, Enabled, Next, OwnFrom, OwnExtends;
    if a < b {
      ExecutionLengths(states, steps);
      OwnForward(states, steps, a, b - 1, t, from);
      StepAt(states, steps, b - 1);
      LineageOwnExtends(states[b - 1], steps[b - 1]);
      OwnFromExtended(states[b - 1].lineage, states[b].lineage, t, from);
    }
  }

  /** What the line of a leader has of earlier terms the leader has had from the start. */
  lemma LeaderHasEarlier(states: seq<Cluster>, steps: seq<Step>, r: nat, y: NodeId, t: Term, prefix: seq<LogEntry>)
    requires Execution(states, steps) && r < |states| && y in states[r].nodes && states[r].nodes[y].role == Leader
    requires OwnPrefix(Lines(states), t, prefix) && t < states[r].nodes[y].Term()
    requires states[r].nodes[y].Term() in Lines(states) && prefix <= Lines(states)[states[r].nodes[y].Term()]
    ensures prefix <= states[r].nodes[y].log.full
  {
    hide Execution, ElectionInv, LineagesElected, LogsFollow, PacketsFollow, Follows;
    var n := states[r].nodes[y];
    ExecutionKeepsLogInv(states, steps, r);
    ExecutionKeepsLogInv(states, steps, |states| - 1);
    LeaderOnLine(states, steps, r, y);
    OwnForward(states, steps, r, |states| - 1, n.Term(), |n.log.full|);
    var line := Lines(states)[n.Term()];
    assert TermsUpTo(Lines(states)[t], t);
    assert forall k :: 0 <= k < |prefix| ==> prefix[k] == Lines(states)[t][k] && prefix[k] == line[k];
  }

  lemma ChosenIsOwn(states: seq<Cluster>, t: Term, prefix: seq<LogEntry>)
    requires states != [] && Chosen(states, t, prefix)
    ensures OwnPrefix(Lines(states), t, prefix)
  {
  }

  /** What a leader commits is in the log of every leader of a later term, whenever that one leads. */
  lemma LeaderCompleteness(states: seq<Cluster>, steps: seq<Step>, i: nat, r: nat, y: NodeId)
    requires Honest(states, steps) && ReportsTrue(states, steps)
    requires i < |steps| && steps[i].Invoke? && !steps[i].call.CallAppendEntries?
    requires steps[i].node in states[i].nodes && steps[i].node in states[i + 1].nodes
    requires states[i + 1].nodes[steps[i].node].log.commitIndex > states[i].nodes[steps[i].node].log.commitIndex
    requires r < |states| && y in states[r].nodes && states[r].nodes[y].role == Leader
    requires states[r].nodes[y].Term() > states[i].nodes[steps[i].node].Term()
    ensures states[i + 1].nodes[steps[i].node].log.Valid()
    ensures states[i + 1].nodes[steps[i].node].log.Committed() <= states[r].nodes[y].log.full
  {
    hide Execution, RequestsSent, ReportsTrue, Chosen, LogInv, OwnPrefix;
    ExecutionLengths(states, steps);
    LeaderCommitsChosen(states, steps, i);
    Forward(states, steps, i + 1, i + 1, steps[i].node);
    var after := states[i + 1].nodes[steps[i].node];
    var prefix := after.log.Committed();
    var u := states[r].nodes[y].Term();
    LeaderOnLine(states, steps, r, y);
    LeadersHoldChosen(states, steps, after.Term(), prefix, u);
    assert OwnPrefix(Lines(states), after.Term(), prefix) by { ChosenIsOwn(states, after.Term(), prefix); }
    LeaderHasEarlier(states, steps, r, y, after.Term(), prefix);
  }
}