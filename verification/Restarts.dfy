/**
 Runs in which nodes crash and come back with the hard state they had last confirmed as durable. There is
 still at most one leader for each term, provided that no vote is counted before it is durable.
 */
module Restarts {
  import opened Common
  import opened RaftTypes
  import opened IdSets
  import opened LogModel
  import opened Messages
  import opened MembershipRules
  import opened MembershipRuns
  import opened ActiveMembers
  import opened NodeModel
  import opened NodeRuns
  import opened NodeFrames
  import opened Clusters

  /** A step of the cluster, or a restart with whatever log the storage gives back. */
  datatype Event = Does(step: Step) | Restart(node: NodeId, log: LogState)

  /** The node once it is initialised again: its hard state is the one last confirmed as durable. */
  ghost function Restarted(n: Node, log: LogState): Node {
    var hard := n.persisted.(commitIndex := log.commitIndex);
    n.(role := if n.role == Learner then Learner else Follower, leaderId := 0, logicalTicks := 0,
       electionElapsed := 0, hard := hard, persisted := hard, log := log, outbox := EMPTY_OUTBOX).ResetProgress()
  }

  /** For a node without a membership and an empty log that is what `Initialize` makes of the hard state. */
  lemma RestartIsInitialize(n: Node)
    requires n.membership == NO_MEMBERSHIP
    ensures Restarted(n, EMPTY_LOG)
            == InitialNode(Options(n.id, if n.role == Learner then Learner else Follower, n.electionTimeout,
                                   n.persisted, n.voters, n.learners, None))
  {
  }

  ghost predicate Possible(c: Cluster, e: Event) {
    match e
    case Does(step) => Enabled(c, step)
    case Restart(x, log) => x in c.nodes && log.Valid()
  }

  ghost function Following(c: Cluster, e: Event): Cluster
    requires Inhabited(c) && Possible(c, e)
  {
    match e
    case Does(step) => Next(c, step)
    case Restart(x, log) => c.(nodes := c.nodes[x := Restarted(c.nodes[x], log)])
  }

  lemma RestartedStays(n: Node, log: LogState)
    requires n.Valid() && InForce(n) && log.Valid()
    ensures Restarted(n, log).Valid() && InForce(Restarted(n, log))
    ensures Restarted(n, log).id == n.id && Restarted(n, log).voters == n.voters
  {
    hide Settled, ActiveVoters, Distinct, SetOf, WellNumbered;
  }

  lemma InhabitedFollowing(c: Cluster, e: Event)
    requires Inhabited(c) && Possible(c, e)
    ensures Inhabited(Following(c, e)) && Following(c, e).nodes.Keys == c.nodes.Keys
    ensures Following(c, e).electorate == c.electorate
  {
    hide After, InForce, Node.Valid, SetOf, Sent, Recorded, VoteCast, Ordinary, Restarted, LogState.Valid;
    match e
    case Does(step) => InhabitedNext(c, step);
    case Restart(x, log) =>
      assert Resident(c, x);
      RestartedStays(c.nodes[x], log);
      forall y | y in Following(c, e).nodes ensures Resident(Following(c, e), y)
      {
        assert y != x ==> Resident(c, y);
      }
  }

  /** A run with restarts. */
  ghost predicate Life(states: seq<Cluster>, events: seq<Event>) {
    && |states| == |events| + 1
    && Initial(states[0])
    && forall i :: 0 <= i < |events| ==>
         Inhabited(states[i]) && Possible(states[i], events[i]) && states[i + 1] == Following(states[i], events[i])
  }

  // ---------------------------------------------------------------- votes that outlive a restart

  /** A later hard state: of a newer term, or of the same term with a vote that was free or is kept. */
  ghost predicate Firmer(older: HardState, newer: HardState) {
    || newer.currentTerm > older.currentTerm
    || (newer.currentTerm == older.currentTerm && (older.votedFor == 0 || newer.votedFor == older.votedFor))
  }

  /** What a call makes of the hard state, in memory and on disk. */
  ghost predicate HardFrame(n: Node, after: Node) {
    && Firmer(n.hard, after.hard)
    && (after.persisted == n.persisted || after.persisted == after.hard)
  }

  lemma ProposalFirm(n: Node, call: Call)
    requires n.Valid() && (call.CallPropose? || call.CallProposeChange?)
    ensures HardFrame(n, After(n, call))
  {
    hide Settled, ActiveVoters, Distinct, SetOf, WellNumbered, Build, Codec.Encode, Node.PendingChange,
         Node.ActiveCount, Node.SearchCommit, LogState.Append;
  }

  lemma AppendEntriesFirm(n: Node, call: Call)
    requires n.Valid() && call.CallAppendEntries?
    ensures HardFrame(n, After(n, call))
  {
    hide Settled, ActiveVoters, Distinct, SetOf, WellNumbered, Merge, Node.Accept, Node.HandleAppendEntries;
    AppendCases(n, call.append);
    AcceptFacts(Heard(n, call.append), call.append, n.hard);
  }

  lemma AppendResponseFirm(n: Node, call: Call)
    requires n.Valid() && call.CallAppendResponse?
    ensures HardFrame(n, After(n, call))
  {
    hide Settled, ActiveVoters, Distinct, SetOf, WellNumbered, Node.SearchCommit, Node.BackOff;
  }

  lemma SnapshotFirm(n: Node, call: Call)
    requires n.Valid() && InForce(n) && call.CallUpdateSnapshot? && Ordinary(n, call)
    ensures HardFrame(n, After(n, call))
  {
    hide Settled, ActiveVoters, Distinct, SetOf, WellNumbered, ValidMembership, Node.ResetProgress;
    var compacted := n.(log := n.log.UpdateSnapshotBoundary(call.index, call.term).1);
    ResetKeepsHard(compacted);
  }

  ghost predicate ResetKeeps(n: Node) {
    var r := n.ResetProgress();
    r.hard == n.hard && r.persisted == n.persisted && r.id == n.id && r.voters == n.voters && r.learners == n.learners
  }

  lemma ResetKeepsHard(n: Node)
    ensures ResetKeeps(n)
  {
  }

  lemma RoleCallFirm(n: Node, call: Call)
    requires n.Valid()
    requires call.CallTick? || call.CallUpdateTimeout? || call.CallBecomeFollower? || call.CallStartElection?
             || call.CallBecomeLeader?
    ensures HardFrame(n, After(n, call))
  {
    hide Settled, ActiveVoters, Distinct, SetOf, WellNumbered;
  }

  lemma VoteCallFirm(n: Node, call: Call)
    requires n.Valid() && (call.CallRequestVote? || call.CallVoteResponse?)
    ensures HardFrame(n, After(n, call))
  {
    hide Settled, ActiveVoters, Distinct, SetOf, WellNumbered, Outbox.Stage, Node.UpToDate;
  }

  lemma SendCallFirm(n: Node, call: Call)
    requires n.Valid()
    requires call.CallBuildAppend? || call.CallBuildSnapshot? || call.CallSnapshotResponse? || call.CallConfirmApplied?
             || call.CallConfirmPersistence?
    ensures HardFrame(n, After(n, call))
  {
    hide Settled, ActiveVoters, Distinct, SetOf, WellNumbered, Outbox.Stage, Outbox.Reclassify;
  }

  lemma CallFirm(n: Node, call: Call)
    requires n.Valid() && InForce(n) && Ordinary(n, call)
    ensures HardFrame(n, After(n, call))
  {
    hide HardFrame, After;
    if call.CallPropose? || call.CallProposeChange? {
      ProposalFirm(n, call);
    } else if call.CallAppendEntries? {
      AppendEntriesFirm(n, call);
    } else if call.CallAppendResponse? {
      AppendResponseFirm(n, call);
    } else if call.CallUpdateSnapshot? {
      SnapshotFirm(n, call);
    } else if call.CallRequestVote? || call.CallVoteResponse? {
      VoteCallFirm(n, call);
    } else if call.CallTick? || call.CallUpdateTimeout? || call.CallBecomeFollower? || call.CallStartElection?
              || call.CallBecomeLeader? {
      RoleCallFirm(n, call);
    } else {
      SendCallFirm(n, call);
    }
  }

  // ---------------------------------------------------------------- what is on disk over time

  /** The hard state in memory is at or past the one on disk. */
  ghost predicate Ahead(n: Node) {
    Firmer(n.persisted, n.hard)
  }

  lemma EventFirm(c: Cluster, e: Event, v: NodeId)
    requires Inhabited(c) && Possible(c, e) && v in c.nodes && Ahead(c.nodes[v])
    ensures v in Following(c, e).nodes && Ahead(Following(c, e).nodes[v])
    ensures Firmer(c.nodes[v].persisted, Following(c, e).nodes[v].persisted)
  {
    hide After, Ordinary, InForce, Node.Valid, SetOf, Sent, Recorded, VoteCast, LogState.Valid, Restarted;
    assert Resident(c, v);
    match e
    case Does(step) =>
      if step.Invoke? && step.node == v {
        assert Ordinary(c.nodes[v], step.call);
        CallFirm(c.nodes[v], step.call);
      }
    case Restart(x, log) =>
      if x == v {
        RestartedHard(c.nodes[v], log);
      }
  }

  lemma RestartedHard(n: Node, log: LogState)
    ensures Restarted(n, log).hard == Restarted(n, log).persisted == n.persisted.(commitIndex := log.commitIndex)
  {
    ResetKeepsHard(n);
  }

  lemma EventAt(states: seq<Cluster>, events: seq<Event>, i: nat)
    requires Life(states, events) && i < |events|
    ensures Inhabited(states[i]) && Possible(states[i], events[i]) && states[i + 1] == Following(states[i], events[i])
  {
    hide Initial, Inhabited, Possible, Following;
  }

  lemma LifeStarts(states: seq<Cluster>, events: seq<Event>)
    requires Life(states, events)
    ensures |states| == |events| + 1 && Initial(states[0])
    ensures states[0].tally == map[] && states[0].elected == {}
  {
    hide Inhabited, Possible, Following;
  }

  lemma InitiallyAhead(c: Cluster, v: NodeId)
    requires Initial(c) && v in c.nodes
    ensures Ahead(c.nodes[v])
  {
    hide InitialNode, ValidOptions, Resident, InitialVotes;
    var o :| ValidOptions(o) && c.nodes[v] == InitialNode(o);
    InitialAhead(o);
  }

  lemma InitialAhead(o: Options)
    ensures Ahead(InitialNode(o))
  {
    hide Listing, ActiveVoters, TransitionLearners, SortMembers;
  }

  lemma {:induction false} AlwaysAhead(states: seq<Cluster>, events: seq<Event>, i: nat, v: NodeId)
    requires Life(states, events) && i < |states| && v in states[i].nodes
    ensures Ahead(states[i].nodes[v])
    decreases i
  {
    hide Life, Initial, Inhabited, Possible, Following, Ahead, Firmer;
    LifeStarts(states, events);
    if i == 0 {
      InitiallyAhead(states[0], v);
    } else {
      EventAt(states, events, i - 1);
      InhabitedFollowing(states[i - 1], events[i - 1]);
      AlwaysAhead(states, events, i - 1, v);
      EventFirm(states[i - 1], events[i - 1], v);
    }
  }

  lemma FirmerTransitive(a: HardState, b: HardState, c: HardState)
    requires Firmer(a, b) && Firmer(b, c)
    ensures Firmer(a, c)
  {
  }

  /** What is on disk only ever gets firmer, restarts included. */
  lemma {:induction false} DiskFirmer(states: seq<Cluster>, events: seq<Event>, a: nat, b: nat, v: NodeId)
    requires Life(states, events) && a <= b < |states| && v in states[a].nodes
    ensures v in states[b].nodes && Firmer(states[a].nodes[v].persisted, states[b].nodes[v].persisted)
    decreases b
  {
    hide Life, Initial, Inhabited, Possible, Following, Ahead;
    if a < b {
      LifeStarts(states, events);
      DiskFirmer(states, events, a, b - 1, v);
      AlwaysAhead(states, events, b - 1, v);
      EventAt(states, events, b - 1);
      EventFirm(states[b - 1], events[b - 1], v);
      FirmerTransitive(states[a].nodes[v].persisted, states[b - 1].nodes[v].persisted, states[b].nodes[v].persisted);
    }
  }

  // ---------------------------------------------------------------- at most one leader

  /** The vote is, or has been, on the voter's disk. */
  ghost predicate Saved(states: seq<Cluster>, k: nat, v: NodeId, t: Term, candidate: NodeId) {
    exists h :: 0 <= h <= k && h < |states| && HasOnDisk(states[h], v, t, candidate)
  }

  ghost predicate HasOnDisk(c: Cluster, v: NodeId, t: Term, candidate: NodeId) {
    v in c.nodes && c.nodes[v].persisted.currentTerm == t && c.nodes[v].persisted.votedFor == candidate
  }

  /** No vote counts before it is durable: neither a grant that is recorded, nor the candidate's own. */
  ghost predicate CountsOnlySaved(states: seq<Cluster>, k: nat, e: Event)
    requires k < |states|
  {
    e.Does? && e.step.Invoke? && e.step.node in states[k].nodes ==>
      var x, call := e.step.node, e.step.call;
      var n := states[k].nodes[x];
      && (forall v :: v in Recorded(n, call) ==> Saved(states, k, v, n.Term(), x))
      && (call.CallBecomeLeader? && n.role == Candidate ==> Saved(states, k, x, n.Term(), x))
  }

  ghost predicate VotesSaved(states: seq<Cluster>, events: seq<Event>)
    requires |states| == |events| + 1
  {
    forall k :: 0 <= k < |events| ==> CountsOnlySaved(states, k, events[k])
  }

  lemma SavedLater(states: seq<Cluster>, j: nat, k: nat, v: NodeId, t: Term, candidate: NodeId)
    requires Saved(states, j, v, t, candidate) && j <= k
    ensures Saved(states, k, v, t, candidate)
  {
    var h :| 0 <= h <= j && h < |states| && HasOnDisk(states[h], v, t, candidate);
  }

  /** A disk never holds votes for two candidates of one term, not even at different times. */
  lemma OneSavedVote(states: seq<Cluster>, events: seq<Event>, k: nat, v: NodeId, t: Term, x: NodeId, y: NodeId)
    requires Life(states, events) && x != 0 && y != 0
    requires Saved(states, k, v, t, x) && Saved(states, k, v, t, y)
    ensures x == y
  {
    hide Life;
    var a :| 0 <= a <= k && a < |states| && HasOnDisk(states[a], v, t, x);
    var b :| 0 <= b <= k && b < |states| && HasOnDisk(states[b], v, t, y);
    if a <= b {
      DiskFirmer(states, events, a, b, v);
    } else {
      DiskFirmer(states, events, b, a, v);
    }
  }

  lemma TallyFollows(c: Cluster, e: Event, key: (NodeId, Term), v: NodeId)
    requires Inhabited(c) && Possible(c, e)
    requires key in Following(c, e).tally && v in Following(c, e).tally[key]
    ensures (key in c.tally && v in c.tally[key])
         || (&& e.Does? && e.step.Invoke? && e.step.node in c.nodes && v in Recorded(c.nodes[e.step.node], e.step.call)
             && key == (e.step.node, c.nodes[e.step.node].Term()))
  {
    hide After, Ordinary, Resident, Sent, Recorded, VoteCast, LogState.Valid, Restarted;
  }

  /** Every grant in a tally is of a vote that was saved. */
  lemma {:induction false} TalliesSaved(states: seq<Cluster>, events: seq<Event>, i: nat, key: (NodeId, Term), v: NodeId)
    requires Life(states, events) && VotesSaved(states, events) && i < |states|
    requires key in states[i].tally && v in states[i].tally[key]
    ensures Saved(states, i, v, key.1, key.0)
    decreases i
  {
    hide Life, Inhabited, Possible, Following, Saved, Recorded;
    LifeStarts(states, events);
    if i > 0 {
      EventAt(states, events, i - 1);
      TallyFollows(states[i - 1], events[i - 1], key, v);
      if key in states[i - 1].tally && v in states[i - 1].tally[key] {
        TalliesSaved(states, events, i - 1, key, v);
      } else {
        assert CountsOnlySaved(states, i - 1, events[i - 1]);
      }
      SavedLater(states, i - 1, i, v, key.1, key.0);
    }
  }

  /** The votes with which a node was elected: a majority, all of them saved. */
  ghost predicate ElectedBy(states: seq<Cluster>, quorum: set<NodeId>, t: Term, x: NodeId)
    requires states != []
  {
    && x != 0 && Majority(quorum, states[0].electorate)
    && forall v :: v in quorum ==> Saved(states, |states|, v, t, x)
  }

  lemma {:induction false} SameVoters(states: seq<Cluster>, events: seq<Event>, i: nat)
    requires Life(states, events) && i < |states|
    ensures states[i].electorate == states[0].electorate
    decreases i
  {
    hide Life, Inhabited, Possible, Following;
    if i > 0 {
      LifeStarts(states, events);
      SameVoters(states, events, i - 1);
      EventAt(states, events, i - 1);
      InhabitedFollowing(states[i - 1], events[i - 1]);
    }
  }

  lemma ElectedFollows(c: Cluster, e: Event, t: Term, x: NodeId)
    requires Inhabited(c) && Possible(c, e) && (t, x) in Following(c, e).elected && (t, x) !in c.elected
    ensures e == Does(Invoke(x, CallBecomeLeader)) && x in c.nodes && x != 0
    ensures c.nodes[x].role == Candidate && c.nodes[x].Term() == t && Majority(Backers(c, x), c.electorate)
  {
    hide After, Ordinary, InForce, Sent, Recorded, VoteCast, LogState.Valid, Restarted, Majority, SetOf;
    assert Resident(c, e.step.node);
  }

  lemma ElectionCounted(states: seq<Cluster>, events: seq<Event>, i: nat, x: NodeId)
    requires Life(states, events) && VotesSaved(states, events) && i < |events| && i < |states|
    requires events[i] == Does(Invoke(x, CallBecomeLeader)) && x in states[i].nodes && x != 0
    requires states[i].nodes[x].role == Candidate && Majority(Backers(states[i], x), states[i].electorate)
    ensures ElectedBy(states, Backers(states[i], x), states[i].nodes[x].Term(), x)
  {
    hide Life, Majority, Recorded;
    SameVoters(states, events, i);
    var t := states[i].nodes[x].Term();
    assert CountsOnlySaved(states, i, events[i]);
    hide Saved;
    forall v | v in Backers(states[i], x) ensures Saved(states, |states|, v, t, x)
    {
      if v != x {
        TalliesSaved(states, events, i, (x, t), v);
      }
      SavedLater(states, i, |states|, v, t, x);
    }
  }

  lemma {:induction false} FindElection(states: seq<Cluster>, events: seq<Event>, i: nat, t: Term, x: NodeId)
    requires Life(states, events) && VotesSaved(states, events) && i < |states| && (t, x) in states[i].elected
    ensures exists quorum :: ElectedBy(states, quorum, t, x)
    decreases i
  {
    hide Life, VotesSaved, Inhabited, Possible, Following, ElectedBy, Majority;
    LifeStarts(states, events);
    if i == 0 {
    } else if (t, x) in states[i - 1].elected {
      FindElection(states, events, i - 1, t, x);
    } else {
      EventAt(states, events, i - 1);
      ElectedFollows(states[i - 1], events[i - 1], t, x);
      ElectionCounted(states, events, i - 1, x);
    }
  }

  /**
   In every run with restarts in which no vote counts before it is durable, at most one node ever
   executes `BecomeLeader` in a term.
   */
  lemma AtMostOneLeaderPerTerm(states: seq<Cluster>, events: seq<Event>, t: Term, x: NodeId, y: NodeId)
    requires Life(states, events) && VotesSaved(states, events)
    requires (t, x) in states[|events|].elected && (t, y) in states[|events|].elected
    ensures x == y
  {
    hide Life, VotesSaved, Majority, Saved;
    LifeStarts(states, events);
    FindElection(states, events, |events|, t, x);
    FindElection(states, events, |events|, t, y);
    var a :| ElectedBy(states, a, t, x);
    var b :| ElectedBy(states, b, t, y);
    MajoritiesMeet(states[0].electorate, a, b);
    var v :| v in a * b;
    OneSavedVote(states, events, |states|, v, t, x, y);
  }
}
