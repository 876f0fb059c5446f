/**
 A cluster of nodes with a fixed electorate. A step makes one call on one node; messages stay in the
 network for ever, so they may be delivered late, repeatedly, in any order, or never. The environment
 counts recorded grants and makes a candidate leader only on a majority.
 */
module Clusters {
  import opened Common
  import opened RaftTypes
  import opened IdSets
  import opened LogModel
  import opened Messages
  import opened MembershipRuns
  import opened NodeModel
  import opened NodeRuns
  import opened NodeFrames
  import opened Lineages

  datatype Packet =
    | VotePacket(source: NodeId, target: NodeId, reply: VoteResponse)
    /** `sender` is the log of the leader when it built the request. */
    | AppendPacket(source: NodeId, target: NodeId, order: AppendRequest, sender: LogState)
    /** The answer to `order`; `held` is the log of the follower when it had answered. */
    | ReplyPacket(source: NodeId, target: NodeId, answer: AppendResponse, order: AppendRequest, held: seq<LogEntry>)

  datatype Cluster = Cluster(
    electorate: set<NodeId>,
    nodes: map<NodeId, Node>,
    net: set<Packet>,
    /** The sources of the grants recorded for a candidate in a term. */
    tally: map<(NodeId, Term), set<NodeId>>,
    /** Every vote each node ever cast. */
    votes: map<NodeId, seq<(Term, NodeId)>>,
    /** Every execution of `BecomeLeader`: the term and the node. */
    elected: set<(Term, NodeId)>,
    /** The log of the leader of each term, as far as it got. */
    lineage: Lineage
  )

  datatype Step =
    | Invoke(node: NodeId, call: Call)
    | Heartbeat(leader: NodeId, follower: NodeId)

  // ---------------------------------------------------------------- steps

  ghost function Backers(c: Cluster, x: NodeId): set<NodeId>
    requires x in c.nodes
  {
    {x} + if (x, c.nodes[x].Term()) in c.tally then c.tally[(x, c.nodes[x].Term())] else {}
  }

  /** Responses and appends come from the network; everything else may be called with any argument. */
  ghost predicate Enabled(c: Cluster, step: Step) {
    match step
    case Heartbeat(leader, follower) => leader in c.nodes && follower != leader
    case Invoke(x, call) =>
      && x in c.nodes && Ordinary(c.nodes[x], call)
      && match call
         case CallBecomeLeader => Majority(Backers(c, x), c.electorate)
         case CallVoteResponse(source, reply) => VotePacket(source, x, reply) in c.net
         case CallAppendEntries(order) => exists p :: p in c.net && p.AppendPacket? && p.target == x && p.order == order
         case CallAppendResponse(source, reply) => exists p :: p in c.net && Brings(p, source, x, reply)
         case _ => true
  }

  /** The packet brings this response from `source` to `target`. */
  ghost predicate Brings(p: Packet, source: NodeId, target: NodeId, reply: AppendResponse) {
    p.ReplyPacket? && p.source == source && p.target == target && p.answer == reply
  }

  /** The packets a call sends. */
  ghost function Sent(n: Node, call: Call): set<Packet>
    requires n.Valid()
  {
    match call
    case CallRequestVote(request) =>
      var reply := n.HandleRequestVote(request).2;
      if reply.Some? then {VotePacket(n.id, request.candidateId, reply.value)} else {}
    case CallBuildAppend(target) =>
      var order := n.BuildAppendEntries(target).2;
      if order.Some? then {AppendPacket(n.id, target, order.value, n.log)} else {}
    case CallAppendEntries(order) =>
      var (_, after, reply) := n.HandleAppendEntries(order);
      if reply.Some? then {ReplyPacket(n.id, order.leaderId, reply.value, order, after.log.full)} else {}
    case _ => {}
  }

  /** The grant a call records, if any: the candidate's term and the voter. */
  ghost function Recorded(n: Node, call: Call): set<NodeId> {
    match call
    case CallVoteResponse(source, reply) =>
      if n.HandleVoteResponse(source, reply).2 == RecordedGrant then {source} else {}
    case _ => {}
  }

  ghost function Next(c: Cluster, step: Step): Cluster
    requires Inhabited(c)
    requires Enabled(c, step)
  {
    match step
    case Heartbeat(leader, follower) =>
      var n := c.nodes[leader];
      var order := n.BuildHeartbeat();
      if order.Failure? then c else c.(net := c.net + {AppendPacket(leader, follower, order.value, n.log)})
    case Invoke(x, call) =>
      var n := c.nodes[x];
      var after := After(n, call);
      var vote := VoteCast(n, call);
      c.(nodes := c.nodes[x := after],
         net := c.net + Sent(n, call),
         tally := c.tally[(x, n.Term()) := Granted(c, x) + Recorded(n, call)],
         votes := c.votes[x := c.votes[x] + if vote.Some? then [vote.value] else []],
         elected := c.elected + if call.CallBecomeLeader? && n.role == Candidate then {(n.Term(), x)} else {},
         lineage := if after.role == Leader then c.lineage[after.Term() := after.log.full] else c.lineage)
  }

  ghost function Granted(c: Cluster, x: NodeId): set<NodeId>
    requires x in c.nodes
  {
    if (x, c.nodes[x].Term()) in c.tally then c.tally[(x, c.nodes[x].Term())] else {}
  }

  /** Every id maps to a valid node of that id, which votes in the electorate. */
  ghost predicate Inhabited(c: Cluster) {
    && c.votes.Keys == c.nodes.Keys
    && forall x :: x in c.nodes ==> Resident(c, x)
  }

  ghost predicate Resident(c: Cluster, x: NodeId)
    requires x in c.nodes
  {
    var n := c.nodes[x];
    n.Valid() && n.id == x && InForce(n) && SetOf(n.voters) == c.electorate
  }

  /** Nodes as `Initialize` leaves them, none of them a leader or a candidate; no traffic yet. */
  ghost predicate Initial(c: Cluster) {
    && Inhabited(c)
    && c.net == {} && c.tally == map[] && c.elected == {} && c.lineage == map[]
    && forall x :: x in c.nodes ==>
         && (exists o :: ValidOptions(o) && c.nodes[x] == InitialNode(o))
         && (c.nodes[x].role == Follower || c.nodes[x].role == Learner)
         && c.votes[x] == InitialVotes(c.nodes[x])
  }

  ghost predicate Execution(states: seq<Cluster>, steps: seq<Step>) {
    && |states| == |steps| + 1
    && Initial(states[0])
    && forall i :: 0 <= i < |steps| ==>
         Inhabited(states[i]) && Enabled(states[i], steps[i]) && states[i + 1] == Next(states[i], steps[i])
  }

  // ---------------------------------------------------------------- what one node contributes

  lemma ResidentStays(c: Cluster, x: NodeId, call: Call)
    requires Inhabited(c) && Enabled(c, Invoke(x, call))
    ensures var after := After(c.nodes[x], call);
            && after.Valid() && after.id == x && InForce(after) && SetOf(after.voters) == c.electorate
            && Continues(c.nodes[x], after) && RoleFrame(c.nodes[x], call, after)
            && LogFrame(c.nodes[x], call, after)
  {
    hide After, InForce, RoleFrame, LogFrame, Node.Valid, SetOf;
    assert Resident(c, x);
    assert Ordinary(c.nodes[x], call);
    CallFrame(c.nodes[x], call);
    CallContinues(c.nodes[x], call);
  }

  lemma InhabitedNext(c: Cluster, step: Step)
    requires Inhabited(c) && Enabled(c, step)
    ensures Inhabited(Next(c, step))
  {
    hide After, InForce, RoleFrame, LogFrame, Node.Valid, SetOf, Sent, Recorded, VoteCast;
    if step.Invoke? {
      ResidentStays(c, step.node, step.call);
      var d := Next(c, step);
      forall x | x in d.nodes ensures Resident(d, x)
      {
        assert x != step.node ==> Resident(c, x);
      }
    }
  }
}
