/**
 A run with one restart that has two leaders in one term: a grant that was sent before its vote was
 durable is counted, and the voter, which has forgotten it, votes again.
 */
module RestartConflicts {
  import opened Common
  import opened RaftTypes
  import opened LogModel
  import opened Messages
  import opened MembershipRules
  import opened ActiveMembers
  import opened NodeModel
  import opened NodeRuns
  import opened Clusters
  import opened Restarts
  import Samples = CommitConflicts

  // ---------------------------------------------------------------- runs, event by event

  datatype Tale = Tale(states: seq<Cluster>, events: seq<Event>)

  ghost function Last(s: Tale): Cluster
    requires s.states != []
  {
    s.states[|s.states| - 1]
  }

  /** The voter's outbox had released the grant, then or earlier. */
  ghost predicate WasReleased(states: seq<Cluster>, k: nat, m: Message) {
    exists h :: 0 <= h <= k && h < |states| && m.source in states[h].nodes
                && m in states[h].nodes[m.source].outbox.immediate
  }

  ghost predicate ReleasedGrant(states: seq<Cluster>, k: nat, e: Event) {
    e.Does? && e.step.Invoke? && e.step.call.CallVoteResponse? && e.step.call.voteReply.granted ==>
      WasReleased(states, k, Message(e.step.call.source, e.step.node, VoteReply(e.step.call.voteReply)))
  }

  /** Every grant that is delivered had been released. */
  ghost predicate GrantsReleased(states: seq<Cluster>, events: seq<Event>) {
    forall k :: 0 <= k < |events| ==> ReleasedGrant(states, k, events[k])
  }

  ghost predicate Told(s: Tale) {
    && s.states != [] && Life(s.states, s.events) && GrantsReleased(s.states, s.events)
    && Last(s).nodes.Keys == {1, 2, 3} && Last(s).electorate == {1, 2, 3} && Inhabited(Last(s))
  }

  ghost function Then(s: Tale, e: Event): Tale
    requires s.states != [] && Inhabited(Last(s)) && Possible(Last(s), e)
  {
    Tale(s.states + [Following(Last(s), e)], s.events + [e])
  }

  lemma TellNext(s: Tale, e: Event)
    requires Told(s) && Possible(Last(s), e) && ReleasedGrant(s.states, |s.events|, e)
    ensures Told(Then(s, e)) && Last(Then(s, e)) == Following(Last(s), e)
  {
    hide Initial, Inhabited, Possible, Following, WasReleased;
    var d := Then(s, e);
    InhabitedFollowing(Last(s), e);
    forall k | 0 <= k < |d.events| ensures ReleasedGrant(d.states, k, d.events[k])
    {
      if k < |s.events| {
        assert ReleasedGrant(s.states, k, s.events[k]);
        StillReleased(s, d, k, d.events[k]);
      } else {
        StillReleased(s, d, k, e);
      }
    }
  }

  lemma StillReleased(s: Tale, d: Tale, k: nat, e: Event)
    requires s.states <= d.states && ReleasedGrant(s.states, k, e)
    ensures ReleasedGrant(d.states, k, e)
  {
    if e.Does? && e.step.Invoke? && e.step.call.CallVoteResponse? && e.step.call.voteReply.granted {
      var m := Message(e.step.call.source, e.step.node, VoteReply(e.step.call.voteReply));
      var h :| 0 <= h <= k && h < |s.states| && m.source in s.states[h].nodes
               && m in s.states[h].nodes[m.source].outbox.immediate;
      assert d.states[h] == s.states[h];
    }
  }

  // ---------------------------------------------------------------- what each call does to a node

  /** A node with an empty log: its role, its hard state, and the hard state on its disk. */
  ghost predicate Stands(n: Node, role: Role, term: Term, vote: NodeId, diskTerm: Term, diskVote: NodeId) {
    && Samples.Looks(n, role, term, []) && n.log == EMPTY_LOG
    && n.hard == HardState(term, vote, 0, 0) && n.persisted == HardState(diskTerm, diskVote, 0, 0)
  }

  function Grant(voter: NodeId, candidate: NodeId): Message {
    Message(voter, candidate, VoteReply(VoteResponse(1, true, NoReason)))
  }

  lemma Starts(n: Node)
    requires Stands(n, Follower, 0, 0, 0, 0)
    ensures Stands(After(n, CallStartElection), Candidate, 1, n.id, 0, 0) && After(n, CallStartElection).id == n.id
  {
    hide Settled, WellNumbered, ActiveVoters;
  }

  const SAVED := CallConfirmPersistence(Confirmation(Ok, true, 0, 0))

  lemma Saves(n: Node, role: Role, term: Term, vote: NodeId, diskTerm: Term, diskVote: NodeId)
    requires Stands(n, role, term, vote, diskTerm, diskVote)
    ensures Stands(After(n, SAVED), role, term, vote, term, vote) && After(n, SAVED).id == n.id
    ensures After(n, SAVED).outbox == n.outbox.Reclassify(false, 0)
  {
    hide Settled, WellNumbered, ActiveVoters, Outbox.Reclassify;
  }

  lemma ReleasesWaiting(m: Message)
    ensures Outbox([], [Pending(m, true, 0)]).Reclassify(false, 0) == Outbox([m], [])
  {
    var waiting := [Pending(m, true, 0)];
    assert waiting[1..] == [] && waiting[0].Ready(false, 0);
    assert Released(waiting, false, 0) == [m] && Blocked(waiting, false, 0) == [];
  }

  ghost function Plea(candidate: NodeId): VoteRequest {
    VoteRequest(1, candidate, 0, 0)
  }

  /** The first grant waits for its vote. */
  lemma GrantsOnce(n: Node, candidate: NodeId)
    requires Stands(n, Follower, 0, 0, 0, 0) && n.outbox == EMPTY_OUTBOX && candidate != 0
    ensures n.HandleRequestVote(Plea(candidate)).2 == Some(VoteResponse(1, true, NoReason))
    ensures var after := After(n, CallRequestVote(Plea(candidate)));
            && Stands(after, Follower, 1, candidate, 0, 0) && after.id == n.id
            && after.outbox == Outbox([], [Pending(Grant(n.id, candidate), true, 0)])
  {
    hide Settled, WellNumbered, ActiveVoters;
  }

  /** The second is released although the vote is still not on disk. */
  lemma GrantsAgain(n: Node, candidate: NodeId)
    requires Stands(n, Follower, 1, candidate, 0, 0) && candidate != 0
    requires n.outbox == Outbox([], [Pending(Grant(n.id, candidate), true, 0)])
    ensures n.HandleRequestVote(Plea(candidate)).2 == Some(VoteResponse(1, true, NoReason))
    ensures var after := After(n, CallRequestVote(Plea(candidate)));
            && Stands(after, Follower, 1, candidate, 0, 0) && after.id == n.id
            && after.outbox == Outbox([Grant(n.id, candidate)], [])
  {
    hide Settled, WellNumbered, ActiveVoters;
    assert n.outbox.pending[1..] == [];
    assert DropPending(n.outbox.pending, Grant(n.id, candidate)) == [];
  }

  lemma Forgets(n: Node, role: Role, term: Term, vote: NodeId)
    requires Stands(n, role, term, vote, 0, 0) && role != Learner
    ensures Stands(Restarted(n, EMPTY_LOG), Follower, 0, 0, 0, 0) && Restarted(n, EMPTY_LOG).id == n.id
    ensures Restarted(n, EMPTY_LOG).outbox == EMPTY_OUTBOX
  {
    hide Settled, ActiveVoters;
  }

  lemma TakesOffice(n: Node)
    requires Stands(n, Candidate, 1, n.id, 1, n.id) && n.id in {1, 2, 3}
    ensures Stands(After(n, CallBecomeLeader), Leader, 1, n.id, 1, n.id) && After(n, CallBecomeLeader).id == n.id
  {
    hide Settled, ActiveVoters;
  }

  // ---------------------------------------------------------------- the calls in a run

  lemma Plays(s: Tale, x: NodeId, call: Call) returns (d: Tale)
    requires Told(s) && x in {1, 2, 3} && Enabled(Last(s), Invoke(x, call))
    requires ReleasedGrant(s.states, |s.events|, Does(Invoke(x, call)))
    ensures Told(d) && Last(s).nodes[x].Valid() && Last(s).nodes[x].id == x
    ensures Last(d).nodes == Last(s).nodes[x := After(Last(s).nodes[x], call)]
    ensures Last(d).net == Last(s).net + Sent(Last(s).nodes[x], call)
    ensures Last(d).tally == Last(s).tally[(x, Last(s).nodes[x].Term()) :=
              Granted(Last(s), x) + Recorded(Last(s).nodes[x], call)]
    ensures Last(d).elected == Last(s).elected
              + if call.CallBecomeLeader? && Last(s).nodes[x].role == Candidate
                then {(Last(s).nodes[x].Term(), x)} else {}
  {
    hide Life, GrantsReleased, Enabled, Inhabited, After, Sent, Recorded, VoteCast, Node.Valid, ReleasedGrant;
    Here(Last(s), x);
    TellNext(s, Does(Invoke(x, call)));
    d := Then(s, Does(Invoke(x, call)));
  }

  /** Elections, vote requests and confirmations may be played at any time. */
  lemma PlaysFreely(s: Tale, x: NodeId, call: Call) returns (d: Tale)
    requires Told(s) && x in {1, 2, 3}
    requires call.CallStartElection? || call.CallRequestVote? || call.CallConfirmPersistence?
    ensures s.states != [] && d.states != []
    ensures Told(d) && x in Last(s).nodes && Last(s).nodes[x].Valid() && Last(s).nodes[x].id == x
    ensures Last(d).nodes == Last(s).nodes[x := After(Last(s).nodes[x], call)]
    ensures Last(d).net == Last(s).net + Sent(Last(s).nodes[x], call)
    ensures Last(d).elected == Last(s).elected
  {
    hide Life, GrantsReleased, Inhabited, After, Sent, Recorded, VoteCast, Node.Valid;
    d := Plays(s, x, call);
  }

  lemma SendsGrant(n: Node, x: NodeId)
    requires n.Valid() && n.HandleRequestVote(Plea(x)).2 == Some(VoteResponse(1, true, NoReason))
    ensures VotePacket(n.id, x, VoteResponse(1, true, NoReason)) in Sent(n, CallRequestVote(Plea(x)))
  {
    hide Node.HandleRequestVote;
  }

  lemma Here(c: Cluster, x: NodeId)
    requires Inhabited(c) && x in c.nodes
    ensures c.nodes[x].Valid() && c.nodes[x].id == x
  {
    assert Resident(c, x);
  }

  lemma Falls(s: Tale, x: NodeId) returns (d: Tale)
    requires Told(s) && x in {1, 2, 3}
    ensures Told(d)
    ensures Last(d) == Last(s).(nodes := Last(s).nodes[x := Restarted(Last(s).nodes[x], EMPTY_LOG)])
  {
    hide Life, GrantsReleased, Inhabited, Restarted, ReleasedGrant;
    assert ReleasedGrant(s.states, |s.events|, Restart(x, EMPTY_LOG)) by { RestartReleases(s, x); }
    TellNext(s, Restart(x, EMPTY_LOG));
    d := Then(s, Restart(x, EMPTY_LOG));
  }

  lemma RestartReleases(s: Tale, x: NodeId)
    ensures ReleasedGrant(s.states, |s.events|, Restart(x, EMPTY_LOG))
  {
  }

  /** A candidate campaigns and has its own vote on disk. */
  lemma CampaignsSafely(s: Tale, x: NodeId) returns (d: Tale)
    requires Told(s) && x in {1, 2, 3} && Stands(Last(s).nodes[x], Follower, 0, 0, 0, 0)
    ensures Told(d) && Stands(Last(d).nodes[x], Candidate, 1, x, 1, x)
    ensures forall y :: y in {1, 2, 3} && y != x ==> Last(d).nodes[y] == Last(s).nodes[y]
    ensures Last(s).net <= Last(d).net && Last(d).elected == Last(s).elected
  {
    hide Told, After, Stands, Sent, Node.Valid, Inhabited, Outbox.Reclassify;
    TaleFacts(s);
    Here(Last(s), x);
    Starts(Last(s).nodes[x]);
    var s1 := PlaysFreely(s, x, CallStartElection);
    Saves(Last(s1).nodes[x], Candidate, 1, x, 0, 0);
    d := PlaysFreely(s1, x, SAVED);
  }

  lemma TaleFacts(s: Tale)
    requires Told(s)
    ensures s.states != [] && Last(s).nodes.Keys == {1, 2, 3} && Inhabited(Last(s)) && Last(s).electorate == {1, 2, 3}
    ensures |s.states| == |s.events| + 1
  {
  }

  lemma MayHear(c: Cluster, x: NodeId, v: NodeId, reply: VoteResponse)
    requires x in c.nodes && VotePacket(v, x, reply) in c.net
    ensures Enabled(c, Invoke(x, CallVoteResponse(v, reply)))
  {
  }

  /** A candidate hears a released grant. */
  lemma Counts(s: Tale, x: NodeId, v: NodeId) returns (d: Tale)
    requires Told(s) && x in {1, 2, 3} && v in {1, 2, 3} && x != v && Stands(Last(s).nodes[x], Candidate, 1, x, 1, x)
    requires VotePacket(v, x, VoteResponse(1, true, NoReason)) in Last(s).net
    requires Grant(v, x) in Last(s).nodes[v].outbox.immediate
    ensures Told(d) && Last(d).nodes == Last(s).nodes && Last(s).net <= Last(d).net
    ensures v in Backers(Last(d), x) && Last(d).elected == Last(s).elected
  {
    hide Told, After, Stands, Node.Valid, Recorded, Sent, Enabled, Inhabited;
    TaleFacts(s);
    Here(Last(s), x);
    StandsAs(Last(s).nodes[x], Candidate, 1, x, 1, x);
    var reply := VoteResponse(1, true, NoReason);
    Samples.Records(Last(s).nodes[x], v, reply);
    MayHear(Last(s), x, v, reply);
    assert WasReleased(s.states, |s.events|, Grant(v, x)) by { assert s.states[|s.events|] == Last(s); }
    d := Plays(s, x, CallVoteResponse(v, reply));
    TaleFacts(d);
    assert Last(d).nodes == Last(s).nodes;
  }

  lemma MayLead(c: Cluster, x: NodeId, v: NodeId)
    requires x in c.nodes && c.electorate == {1, 2, 3} && x in {1, 2, 3} && v in {1, 2, 3} && x != v
    requires v in Backers(c, x)
    ensures Enabled(c, Invoke(x, CallBecomeLeader))
  {
    Samples.TwoBack(Backers(c, x), x, v);
  }

  /** With a grant and its own vote it takes office. */
  lemma Wins(s: Tale, x: NodeId, v: NodeId) returns (d: Tale)
    requires Told(s) && x in {1, 2, 3} && v in {1, 2, 3} && x != v && Stands(Last(s).nodes[x], Candidate, 1, x, 1, x)
    requires VotePacket(v, x, VoteResponse(1, true, NoReason)) in Last(s).net
    requires Grant(v, x) in Last(s).nodes[v].outbox.immediate
    ensures Told(d) && Stands(Last(d).nodes[x], Leader, 1, x, 1, x)
    ensures forall y :: y in {1, 2, 3} && y != x ==> Last(d).nodes[y] == Last(s).nodes[y]
    ensures Last(s).net <= Last(d).net && Last(d).elected == Last(s).elected + {(1, x)}
  {
    hide Told, After, Stands, Node.Valid, Recorded, Sent, Enabled, Inhabited, Backers;
    TaleFacts(s);
    var s1 := Counts(s, x, v);
    TaleFacts(s1);
    Here(Last(s1), x);
    StandsAs(Last(s1).nodes[x], Candidate, 1, x, 1, x);
    MayLead(Last(s1), x, v);
    TakesOffice(Last(s1).nodes[x]);
    d := Plays(s1, x, CallBecomeLeader);
    TaleFacts(d);
  }

  lemma StandsAs(n: Node, role: Role, term: Term, vote: NodeId, diskTerm: Term, diskVote: NodeId)
    requires Stands(n, role, term, vote, diskTerm, diskVote)
    ensures n.Valid() && n.role == role && n.Term() == term && n.persisted == HardState(diskTerm, diskVote, 0, 0)
  {
  }

  /** The voter hears a request for the first time. */
  lemma Hears(s: Tale, v: NodeId, x: NodeId) returns (d: Tale)
    requires Told(s) && v in {1, 2, 3} && x in {1, 2, 3}
    requires Stands(Last(s).nodes[v], Follower, 0, 0, 0, 0) && Last(s).nodes[v].outbox == EMPTY_OUTBOX
    ensures Told(d) && Stands(Last(d).nodes[v], Follower, 1, x, 0, 0)
    ensures Last(d).nodes[v].outbox == Outbox([], [Pending(Grant(v, x), true, 0)])
    ensures forall y :: y in {1, 2, 3} && y != v ==> Last(d).nodes[y] == Last(s).nodes[y]
    ensures VotePacket(v, x, VoteResponse(1, true, NoReason)) in Last(d).net && Last(d).elected == Last(s).elected
  {
    hide Told, After, Stands, Node.Valid, Node.HandleRequestVote, Sent, Inhabited;
    TaleFacts(s);
    Here(Last(s), v);
    GrantsOnce(Last(s).nodes[v], x);
    SendsGrant(Last(s).nodes[v], x);
    d := PlaysFreely(s, v, CallRequestVote(Plea(x)));
  }

  lemma HearsAgain(s: Tale, v: NodeId, x: NodeId) returns (d: Tale)
    requires Told(s) && v in {1, 2, 3} && x in {1, 2, 3} && Stands(Last(s).nodes[v], Follower, 1, x, 0, 0)
    requires Last(s).nodes[v].outbox == Outbox([], [Pending(Grant(v, x), true, 0)])
    ensures Told(d) && Stands(Last(d).nodes[v], Follower, 1, x, 0, 0)
    ensures Grant(v, x) in Last(d).nodes[v].outbox.immediate
    ensures forall y :: y in {1, 2, 3} && y != v ==> Last(d).nodes[y] == Last(s).nodes[y]
    ensures Last(s).net <= Last(d).net && Last(d).elected == Last(s).elected
  {
    hide Told, After, Stands, Node.Valid, Node.HandleRequestVote, Sent, Inhabited;
    TaleFacts(s);
    Here(Last(s), v);
    GrantsAgain(Last(s).nodes[v], x);
    d := PlaysFreely(s, v, CallRequestVote(Plea(x)));
  }

  // ---------------------------------------------------------------- the story

  lemma Begins() returns (d: Tale)
    ensures Told(d) && Last(d).elected == {}
    ensures forall x :: x in {1, 2, 3} ==>
              Stands(Last(d).nodes[x], Follower, 0, 0, 0, 0) && Last(d).nodes[x].outbox == EMPTY_OUTBOX
  {
    hide Initial, Inhabited, InitialNode, Stands;
    d := Tale([Samples.Opening()], []);
    Samples.OpeningIsInitial();
    Samples.InitialInhabited(Samples.Opening());
    forall x | x in {1, 2, 3}
      ensures Stands(Last(d).nodes[x], Follower, 0, 0, 0, 0) && Last(d).nodes[x].outbox == EMPTY_OUTBOX
    {
      BeginnerStands(x);
    }
  }

  lemma BeginnerStands(x: NodeId)
    requires x in {1, 2, 3}
    ensures Stands(InitialNode(Samples.Beginner(x)), Follower, 0, 0, 0, 0)
    ensures InitialNode(Samples.Beginner(x)).outbox == EMPTY_OUTBOX
  {
    Samples.BeginnerLooks(x);
    hide Settled, ActiveVoters;
  }

  /** Node 1 campaigns; node 3 hears its request twice and releases a grant that is not on its disk. */
  lemma EarlyGrant() returns (d: Tale)
    ensures Told(d) && Last(d).elected == {} && Stands(Last(d).nodes[1], Candidate, 1, 1, 1, 1)
    ensures Stands(Last(d).nodes[2], Follower, 0, 0, 0, 0) && Stands(Last(d).nodes[3], Follower, 1, 1, 0, 0)
    ensures VotePacket(3, 1, VoteResponse(1, true, NoReason)) in Last(d).net
    ensures Grant(3, 1) in Last(d).nodes[3].outbox.immediate
  {
    hide Told, Stands, Inhabited;
    var s0 := Begins();
    TaleFacts(s0);
    var s1 := CampaignsSafely(s0, 1);
    TaleFacts(s1);
    var s2 := Hears(s1, 3, 1);
    TaleFacts(s2);
    d := HearsAgain(s2, 3, 1);
    TaleFacts(d);
  }

  /** Node 1 is elected with that grant, and node 3 restarts. */
  lemma FirstElection() returns (d: Tale)
    ensures Told(d) && Last(d).elected == {(1, 1)} && Stands(Last(d).nodes[1], Leader, 1, 1, 1, 1)
    ensures Stands(Last(d).nodes[2], Follower, 0, 0, 0, 0)
    ensures Stands(Last(d).nodes[3], Follower, 0, 0, 0, 0) && Last(d).nodes[3].outbox == EMPTY_OUTBOX
  {
    hide Told, Stands, Restarted, Inhabited;
    var s3 := EarlyGrant();
    TaleFacts(s3);
    var s4 := Wins(s3, 1, 3);
    TaleFacts(s4);
    Forgets(Last(s4).nodes[3], Follower, 1, 1);
    d := Falls(s4, 3);
    TaleFacts(d);
  }

  /** Node 2 is elected in the same term with the second vote of node 3, which is saved before it is sent. */
  lemma SecondElection() returns (d: Tale)
    ensures Told(d) && Last(d).elected == {(1, 1), (1, 2)}
    ensures Stands(Last(d).nodes[1], Leader, 1, 1, 1, 1) && Stands(Last(d).nodes[2], Leader, 1, 2, 1, 2)
    ensures Stands(Last(d).nodes[3], Follower, 1, 2, 1, 2)
  {
    hide Told, Stands, After, Inhabited, Sent, Outbox.Reclassify, Node.Valid;
    var s5 := FirstElection();
    TaleFacts(s5);
    var s6 := CampaignsSafely(s5, 2);
    TaleFacts(s6);
    var s7 := Hears(s6, 3, 2);
    TaleFacts(s7);
    Saves(Last(s7).nodes[3], Follower, 1, 2, 0, 0);
    ReleasesWaiting(Grant(3, 2));
    var s8 := PlaysFreely(s7, 3, SAVED);
    TaleFacts(s8);
    d := Wins(s8, 2, 3);
    TaleFacts(d);
  }

  /** Two leaders of term 1, each with its own vote on disk; the disk of node 3 has its vote for node 2. */
  ghost predicate EndsWithTwoLeaders(c: Cluster) {
    && c.nodes.Keys == c.electorate == {1, 2, 3} && c.elected == {(1, 1), (1, 2)}
    && c.nodes[1].role == Leader && c.nodes[1].Term() == 1 && c.nodes[2].role == Leader && c.nodes[2].Term() == 1
    && c.nodes[1].persisted == HardState(1, 1, 0, 0)
    && c.nodes[2].persisted == c.nodes[3].persisted == HardState(1, 2, 0, 0)
  }

  /**
   A run with restarts, in which every delivered grant had been released by its voter's outbox, ends with
   two leaders in one term. By `Restarts.AtMostOneLeaderPerTerm` some vote counted before it was durable.
   */
  lemma TwoLeadersAfterRestart()
    ensures exists states, events ::
              && Life(states, events) && GrantsReleased(states, events)
              && EndsWithTwoLeaders(states[|events|]) && !VotesSaved(states, events)
  {
    hide Life, GrantsReleased, Stands, VotesSaved, Inhabited;
    var d := SecondElection();
    TaleFacts(d);
    StandsAs(Last(d).nodes[1], Leader, 1, 1, 1, 1);
    StandsAs(Last(d).nodes[2], Leader, 1, 2, 1, 2);
    StandsAs(Last(d).nodes[3], Follower, 1, 2, 1, 2);
    assert EndsWithTwoLeaders(d.states[|d.events|]);
    if VotesSaved(d.states, d.events) {
      AtMostOneLeaderPerTerm(d.states, d.events, 1, 1, 2);
      assert false;
    }
  }
}
