/**
 What success responses report. A follower reports its whole last index, so the report is true, in the
 sense that the reported log is the leader's, only under a condition the follower could check.
 */
module AppendReports {
  import opened Common
  import opened RaftTypes
  import opened LogModel
  import opened Messages
  import opened NodeModel
  import opened NodeRuns
  import opened NodeFrames
  import opened Lineages
  import opened Clusters
  import opened LogMatching
  import ActiveMembers
  import IdSets
  import MembershipRules
  import ElectionSafety

  // ---------------------------------------------------------------- one response

  lemma AcceptReports(n: Node, request: AppendRequest, before: HardState)
    requires n.log.Valid()
    ensures var (status, after, response) := n.Accept(request, before);
            && after.Term() == n.Term()
            && (response.Some? ==>
                  Merge(n.log, request.entries).0 == Ok
                  && response.value == AppendResponse(n.Term(), true, |after.log.full|, 0, 0)
                  && after.log.full == Merge(n.log, request.entries).1.full)
  {
    hide WellNumbered, Merge, Outbox.Stage;
    MergeFacts(n.log, request.entries);
  }

  lemma RejectionIsNoSuccess(n: Node, prev: LogIndex)
    requires n.log.Valid()
    ensures !n.Mismatch(prev).success
  {
    hide WellNumbered, Node.RunStart;
  }

  /** A success response reports the last index of the merged log in the request's term. */
  lemma SuccessReports(n: Node, request: AppendRequest)
    requires n.Valid()
    ensures var (status, after, response) := n.HandleAppendEntries(request);
            response.Some? && response.value.success ==>
              && n.log.Matches(request.prevLogIndex, request.prevLogTerm)
              && Merge(n.log, request.entries).0 == Ok
              && response.value.matchIndex == |after.log.full|
              && response.value.term == request.term == after.Term()
              && after.log.full == Merge(n.log, request.entries).1.full
  {
    hide MembershipRules.Settled, ActiveMembers.ActiveVoters, IdSets.Distinct, IdSets.SetOf, WellNumbered,
         Node.Mismatch, Node.Accept, Outbox.Stage, Merge;
    var f := Heard(n, request);
    AcceptReports(f, request, n.hard);
    RejectionIsNoSuccess(f, request.prevLogIndex);
  }

  /** A log that extends the sender's is left as it is. */
  lemma LongerLogStays(s: LogState, origin: seq<LogEntry>, prev: LogIndex)
    requires s.Valid() && origin <= s.full && prev <= |origin| && Merge(s, origin[prev..]).0 == Ok
    ensures Merge(s, origin[prev..]).1.full == s.full
  {
    var incoming := origin[prev..];
    if incoming == [] {
      MergeNothing(s);
    } else {
      forall j | 0 <= j < |incoming| ensures Holds(s, incoming[j])
      {
        assert incoming[j] == s.full[prev + j];
      }
      hide Merge;
      MergeOutcome(s, incoming);
    }
  }

  // ---------------------------------------------------------------- true reports

  /** The last index the request accounts for. */
  ghost function Reach(order: AppendRequest): LogIndex {
    order.prevLogIndex + |order.entries|
  }

  /** The follower's log ends where the request ends, or else with an entry of the request's term. */
  ghost predicate Truthful(p: Packet)
    requires p.ReplyPacket?
  {
    |p.held| <= Reach(p.order) || p.held[|p.held| - 1].term == p.order.term
  }

  /** From an index on, the log of a term's leader consists of entries of that term. */
  ghost predicate OwnFrom(lineage: Lineage, t: Term, from: LogIndex) {
    && t in lineage && from <= |lineage[t]|
    && forall i :: from <= i < |lineage[t]| ==> lineage[t][i].term == t
  }

  ghost predicate ReplySound(lineage: Lineage, p: Packet)
    requires p.ReplyPacket?
  {
    p.answer.success ==>
      && p.answer.term == p.order.term
      && p.answer.matchIndex == |p.held|
      && Follows(lineage, p.held)
      && OwnFrom(lineage, p.order.term, Reach(p.order))
      && lineage[p.order.term][..Reach(p.order)] <= p.held
  }

  ghost predicate OrderSound(lineage: Lineage, p: Packet)
    requires p.AppendPacket?
  {
    OwnFrom(lineage, p.order.term, |p.sender.full|)
  }

  ghost predicate ReportInv(c: Cluster) {
    && LogInv(c)
    && (forall p :: p in c.net && p.AppendPacket? ==> OrderSound(c.lineage, p))
    && (forall p :: p in c.net && p.ReplyPacket? ==> ReplySound(c.lineage, p))
  }

  // ---------------------------------------------------------------- one step keeps the invariant

  /** Every lineage is as it was, is new, or gained entries of its own term. */
  ghost predicate OwnExtends(newer: Lineage, older: Lineage) {
    && Extends(newer, older)
    && forall t :: t in older ==> forall i :: |older[t]| <= i < |newer[t]| ==> newer[t][i].term == t
  }

  lemma LineageOwnExtends(c: Cluster, step: Step)
    requires LogInv(c) && Enabled(c, step)
    ensures OwnExtends(Next(c, step).lineage, c.lineage)
  {
    hide After, Ordinary, ElectionSafety.ElectionInv, Sound, LogsFollow, PacketsFollow, Sent, Recorded, VoteCast,
         InForce, LogFrame, Continues, LineagesElected, Node.Valid, Extends;
    LineageExtends(c, step);
    if step.Invoke? {
      InhabitedIn(c);
      var n, after := c.nodes[step.node], After(c.nodes[step.node], step.call);
      ResidentStays(c, step.node, step.call);
      if after.role == Leader {
        if n.role == Leader {
          OwnGrowthOf(c, step.node, step.call);
        } else {
          NewLeaderNewTerm(c, step.node, step.call);
        }
      }
    }
  }

  lemma InhabitedIn(c: Cluster)
    requires LogInv(c)
    ensures Inhabited(c)
  {
  }

  lemma OwnFromExtended(older: Lineage, newer: Lineage, t: Term, from: LogIndex)
    requires OwnFrom(older, t, from) && OwnExtends(newer, older)
    ensures OwnFrom(newer, t, from) && older[t][..from] == newer[t][..from]
  {
    forall i | from <= i < |newer[t]| ensures newer[t][i].term == t
    {
      if i < |older[t]| {
        assert newer[t][i] == older[t][i];
      }
    }
  }

  lemma ReplySoundExtended(older: Lineage, newer: Lineage, p: Packet)
    requires p.ReplyPacket? && ReplySound(older, p) && OwnExtends(newer, older)
    ensures ReplySound(newer, p)
  {
    hide Follows, OwnFrom;
    if p.answer.success {
      OwnFromExtended(older, newer, p.order.term, Reach(p.order));
      FollowsExtended(older, newer, p.held);
    }
  }

  lemma SentReplySound(c: Cluster, x: NodeId, p: Packet)
    requires ReportInv(c) && x in c.nodes && c.nodes[x].Valid() && p in c.net && p.AppendPacket?
    ensures forall q :: q in Sent(c.nodes[x], CallAppendEntries(p.order)) ==> q.ReplyPacket? && ReplySound(c.lineage, q)
  {
    hide Node.Valid, Node.HandleAppendEntries, Follows, OwnFrom, Merge, ElectionSafety.ElectionInv, LineagesElected,
         LeadersHoldLineage;
    var n := c.nodes[x];
    assert FromLeader(c.lineage, p);
    assert OrderSound(c.lineage, p);
    SuccessReports(n, p.order);
    assert n.log.Valid() by { LogOf(n); }
    var (_, after, response) := n.HandleAppendEntries(p.order);
    if response.Some? && response.value.success {
      PrefixFollows(c.lineage, p.sender.full, c.lineage[p.order.term]);
      MergeFollows(c.lineage, n.log, p.sender.full, p.order.prevLogIndex);
      assert c.lineage[p.order.term][..Reach(p.order)] == p.sender.full;
    }
  }

  lemma LogOf(n: Node)
    requires n.Valid()
    ensures n.log.Valid()
  {
  }

  /** A leader sends its own log, which is then the whole lineage of its term. */
  lemma SentOrderSound(c: Cluster, step: Step, p: Packet)
    requires LogInv(c) && Enabled(c, step)
    requires p.AppendPacket? && p in Next(c, step).net && p !in c.net
    ensures OrderSound(c.lineage, p)
  {
    hide After, Ordinary, Sound, LogsFollow, PacketsFollow, Recorded, VoteCast, LineagesElected, Node.Valid,
         Node.HandleAppendEntries, Node.HandleRequestVote, InForce, Outbox.Stage, FromLeader,
         ElectionSafety.VotesRemembered, ElectionSafety.GrantsAreVotes, ElectionSafety.TalliesAreVotes,
         ElectionSafety.CandidatesVoted, ElectionSafety.ElectedByMajority, ElectionSafety.ElectedStay,
         ElectionSafety.LeadersElected;
  }

  lemma ReportInvNext(c: Cluster, step: Step)
    requires ReportInv(c) && Enabled(c, step)
    ensures ReportInv(Next(c, step))
  {
    hide LogInv, After, Ordinary, ReplySound, OwnFrom, OwnExtends, Sent, Recorded, VoteCast, Resident;
    InhabitedIn(c);
    LogInvNext(c, step);
    LineageOwnExtends(c, step);
    var d := Next(c, step);
    forall p | p in d.net && p.AppendPacket? ensures OrderSound(d.lineage, p)
    {
      if p !in c.net {
        SentOrderSound(c, step, p);
      }
      OwnFromExtended(c.lineage, d.lineage, p.order.term, |p.sender.full|);
    }
    forall p | p in d.net && p.ReplyPacket? ensures ReplySound(d.lineage, p)
    {
      if p !in c.net {
        NewReplySound(c, step, p);
      }
      ReplySoundExtended(c.lineage, d.lineage, p);
    }
  }

  lemma ReplyIsSentOnDelivery(n: Node, call: Call, p: Packet)
    requires n.Valid() && p in Sent(n, call) && p.ReplyPacket?
    ensures call.CallAppendEntries?
  {
    hide Node.Valid;
  }

  lemma NewReplySound(c: Cluster, step: Step, p: Packet)
    requires ReportInv(c) && Enabled(c, step) && p.ReplyPacket? && p in Next(c, step).net && p !in c.net
    ensures ReplySound(c.lineage, p)
  {
    hide LogInv, After, Ordinary, ReplySound, OrderSound, Sent, Recorded, VoteCast, Node.Valid, InForce;
    InhabitedIn(c);
    assert Resident(c, step.node);
    ReplyIsSentOnDelivery(c.nodes[step.node], step.call, p);
    var q :| q in c.net && q.AppendPacket? && q.target == step.node && q.order == step.call.append;
    SentReplySound(c, step.node, q);
  }

  lemma {:induction false} ExecutionKeepsReportInv(states: seq<Cluster>, steps: seq<Step>, i: nat)
    requires Execution(states, steps) && i < |states|
    ensures ReportInv(states[i])
    decreases i
  {
    hide LogInv, Initial, Inhabited, Enabled, Next;
    if i == 0 {
      LogInvInitially(states[0]);
      assert states[0].net == {} by { NoTraffic(states[0]); }
    } else {
      ExecutionKeepsReportInv(states, steps, i - 1);
      assert states[i] == Next(states[i - 1], steps[i - 1]);
      ReportInvNext(states[i - 1], steps[i - 1]);
    }
  }

  lemma NoTraffic(c: Cluster)
    requires Initial(c)
    ensures c.net == {}
  {
  }

  // ---------------------------------------------------------------- the exact condition

  lemma TruthfulMeans(lineage: Lineage, p: Packet)
    requires p.ReplyPacket? && p.answer.success && ReplySound(lineage, p)
    ensures p.order.term in lineage
    ensures Truthful(p) <==> p.held <= lineage[p.order.term]
  {
    var line, reach := lineage[p.order.term], Reach(p.order);
    if |p.held| > reach {
      var last := p.held[|p.held| - 1];
      if last.term == p.order.term {
        assert p.held == p.held[..|p.held| - 1 + 1];
      }
      if p.held <= line {
        assert last == line[|p.held| - 1];
      }
    } else {
      assert p.held == line[..reach];
    }
  }

  /**
   In every reachable state, the log behind a success response is the log of the leader of its term, as
   far as it reaches, if and only if the follower's log ended where the request did or with an entry of
   the request's term. Otherwise it never will be.
   */
  lemma ReportIsTrueIff(states: seq<Cluster>, steps: seq<Step>, s: nat, p: Packet)
    requires Execution(states, steps) && s < |states|
    requires p in states[s].net && p.ReplyPacket? && p.answer.success
    ensures p.answer.matchIndex == |p.held| && p.order.term in states[s].lineage
    ensures Truthful(p) <==> p.held <= states[s].lineage[p.order.term]
  {
    hide Execution, LogInv;
    ExecutionKeepsReportInv(states, steps, s);
    TruthfulMeans(states[s].lineage, p);
  }
}
