/**
 A run of three nodes in which a report of a stale tail makes two nodes commit different entries at one
 index: what `CommitSafety` excludes, and does not hold of the code without its condition on reports.
 */
module CommitConflicts {
  import opened Common
  import opened RaftTypes
  import opened IdSets
  import opened LogModel
  import opened Messages
  import opened MembershipRules
  import opened MembershipRuns
  import opened ActiveMembers
  import opened NodeModel
  import opened NodeRuns
  import opened NodeFrames
  import opened CommitRule
  import opened CommitFrames
  import opened Clusters
  import opened CommitSafety

  const TRIO: seq<NodeId> := [1, 2, 3]

  // ---------------------------------------------------------------- runs, step by step

  datatype Story = Story(states: seq<Cluster>, steps: seq<Step>)

  ghost function Last(s: Story): Cluster
    requires s.states != []
  {
    s.states[|s.states| - 1]
  }

  /** An honest run of the three nodes so far. */
  ghost predicate Told(s: Story) {
    && s.states != [] && Honest(s.states, s.steps)
    && Last(s).nodes.Keys == {1, 2, 3} && Last(s).electorate == {1, 2, 3}
    && Inhabited(Last(s))
  }

  /** The run with one more step. */
  ghost function Then(s: Story, step: Step): Story
    requires s.states != [] && Inhabited(Last(s)) && Enabled(Last(s), step)
  {
    Story(s.states + [Next(Last(s), step)], s.steps + [step])
  }

  lemma TellNext(s: Story, step: Step)
    requires Told(s) && Enabled(Last(s), step)
    requires step.Invoke? && step.call.CallRequestVote? ==>
               var request := step.call.vote;
               request.candidateId in Last(s).nodes && Campaigned(Last(s).nodes[request.candidateId], request)
    ensures Told(Then(s, step)) && Last(Then(s, step)) == Next(Last(s), step)
  {
    hide Initial, Inhabited, Enabled, Next, Campaigned;
    var d := Then(s, step);
    InhabitedNext(Last(s), step);
    KeysStay(Last(s), step);
    SameVoters(Last(s), step);
    forall k | 0 <= k < |d.steps| && d.steps[k].Invoke? && d.steps[k].call.CallRequestVote?
      ensures CampaignedBy(d.states, k, d.steps[k].call.vote)
    {
      if k < |s.steps| {
        assert CampaignedBy(s.states, k, s.steps[k].call.vote);
        var h :| 0 <= h <= k && h < |s.states| && s.steps[k].call.vote.candidateId in s.states[h].nodes
                 && Campaigned(s.states[h].nodes[s.steps[k].call.vote.candidateId], s.steps[k].call.vote);
        assert d.states[h] == s.states[h];
      } else {
        assert d.states[k] == Last(s);
      }
    }
  }

  lemma SameVoters(c: Cluster, step: Step)
    requires Inhabited(c) && Enabled(c, step)
    ensures Next(c, step).electorate == c.electorate
  {
  }

  // ---------------------------------------------------------------- what each call does to a node

  /** The part of a node's state that the story is about. */
  ghost predicate Looks(n: Node, role: Role, term: Term, log: seq<LogEntry>) {
    && n.Valid() && n.role == role && n.Term() == term && n.log.full == log && n.log.snapshotIndex == 0
    && n.voters == TRIO && n.learners == [] && n.membership == NO_MEMBERSHIP
  }

  /** A leader that counts nothing for the others yet, and where it will probe one of them. */
  ghost predicate FreshLeader(n: Node, term: Term, log: seq<LogEntry>, peer: NodeId, next: LogIndex) {
    && Looks(n, Leader, term, log) && n.log.commitIndex == 0
    && n.progress.Keys == {1, 2, 3} && n.id in {1, 2, 3}
    && n.progress[n.id].matchIndex == |log|
    && (forall q :: q in n.progress && q != n.id ==> n.progress[q].matchIndex == 0)
    && peer in {1, 2, 3} && peer != n.id && n.progress[peer].nextIndex == next
  }

  lemma Campaigns(n: Node, term: Term, log: seq<LogEntry>)
    requires Looks(n, Follower, term, log)
    ensures Looks(After(n, CallStartElection), Candidate, term + 1, log)
    ensures After(n, CallStartElection).log == n.log && After(n, CallStartElection).id == n.id
  {
    hide Settled, WellNumbered, ActiveVoters;
  }

  lemma Grants(n: Node, term: Term, log: seq<LogEntry>, request: VoteRequest)
    requires Looks(n, Follower, term, log) && request.term > term && request.candidateId != 0
    requires n.UpToDate(request.lastLogIndex, request.lastLogTerm)
    ensures Looks(After(n, CallRequestVote(request)), Follower, request.term, log)
    ensures After(n, CallRequestVote(request)).log == n.log && After(n, CallRequestVote(request)).id == n.id
    ensures n.HandleRequestVote(request).2 == Some(VoteResponse(request.term, true, NoReason))
  {
    hide Settled, WellNumbered, ActiveVoters, Outbox.Stage, Node.UpToDate;
    SameView(n, request);
  }

  lemma SameView(n: Node, request: VoteRequest)
    requires n.UpToDate(request.lastLogIndex, request.lastLogTerm) && request.term > n.Term()
    ensures n.FollowRemote(request.term, 0).1.UpToDate(request.lastLogIndex, request.lastLogTerm)
  {
  }

  lemma Records(n: Node, source: NodeId, response: VoteResponse)
    requires n.Valid() && n.role == Candidate && source != 0 && response == VoteResponse(n.Term(), true, NoReason)
    ensures After(n, CallVoteResponse(source, response)) == n
    ensures Recorded(n, CallVoteResponse(source, response)) == {source}
  {
  }

  /** The progress table of a node that takes office. */
  lemma TableOnOffice(n: Node, peer: NodeId)
    requires n.voters == TRIO && n.learners == [] && n.id in {1, 2, 3} && peer in {1, 2, 3} && peer != n.id
    ensures var r := n.ResetProgress();
            && r == n.(progress := r.progress) && r.progress.Keys == {1, 2, 3}
            && r.progress[n.id].matchIndex == |n.log.full|
            && (forall q :: q in r.progress && q != n.id ==> r.progress[q].matchIndex == 0)
            && r.progress[peer].nextIndex == |n.log.full| + 1
  {
    assert n.Peers() == {1, 2, 3};
  }

  lemma Leads(n: Node, term: Term, log: seq<LogEntry>, peer: NodeId)
    requires Looks(n, Candidate, term, log) && n.log.commitIndex == 0 && n.id in {1, 2, 3}
    requires peer in {1, 2, 3} && peer != n.id
    ensures FreshLeader(After(n, CallBecomeLeader), term, log, peer, |log| + 1)
    ensures After(n, CallBecomeLeader).log == n.log && After(n, CallBecomeLeader).id == n.id
  {
    hide Node.Valid, Node.ResetProgress;
    CallKeepsValid(n, CallBecomeLeader);
    TableOnOffice(n.(role := Leader, leaderId := n.id, electionElapsed := 0), peer);
  }

  /** A majority of the three has at least two members. */
  lemma OneIsNoMajority(n: Node, index: LogIndex)
    requires n.progress.Keys == {1, 2, 3} && n.id in {1, 2, 3} && index > 0
    requires forall q :: q in n.progress && q != n.id ==> n.progress[q].matchIndex == 0
    ensures !Majority(Supporters(n, index), SetOf(TRIO))
  {
    var backing := Supporters(n, index) * SetOf(TRIO);
    assert SetOf(TRIO) == {1, 2, 3};
    assert backing <= {n.id};
    SubsetSize(backing, {n.id});
  }

  lemma Proposes(n: Node, term: Term, log: seq<LogEntry>, peer: NodeId, next: LogIndex)
    requires FreshLeader(n, term, log, peer, next) && term > 0
    ensures var after := After(n, CallPropose([]));
            FreshLeader(after, term, log + [LogEntry(|log| + 1, term, Command, [])], peer, next) && after.id == n.id
  {
    hide Node.Valid, Node.SearchCommit, Node.AppendOwn, Supporters, Majority, SetOf, Continues;
    var entry := LogEntry(n.log.LastIndex() + 1, n.Term(), Command, []);
    var m := WithEntry(n, entry);
    CallKeepsValid(n, CallPropose([]));
    AppendOwnOutcome(n, Command, []);
    WithEntryContinues(n, entry);
    ContinuesValid(n, m);
    NothingToCommit(m);
  }

  /** A leader that counts nothing for the others commits nothing. */
  lemma NothingToCommit(m: Node)
    requires m.Valid() && m.voters == TRIO && m.membership == NO_MEMBERSHIP && m.log.commitIndex == 0
    requires m.progress.Keys == {1, 2, 3} && m.id in {1, 2, 3}
    requires forall q :: q in m.progress && q != m.id ==> m.progress[q].matchIndex == 0
    ensures m.TryAdvanceCommit() == (Ok, m)
  {
    hide Node.Valid, Node.SearchCommit, Supporters, Majority, SetOf, Decides;
    SearchFindsCounted(m, m.log.LastIndex());
    SearchEnds(m);
    var r := m.SearchCommit(m.log.LastIndex());
    if r.value > 0 {
      OneIsNoMajority(m, r.value);
    }
  }

  /** With every voter tracked the search for a commit index succeeds. */
  lemma SearchEnds(n: Node)
    requires n.Valid() && n.voters == TRIO && n.progress.Keys == {1, 2, 3}
    ensures n.SearchCommit(n.log.LastIndex()).Success?
  {
    hide Settled, ActiveVoters, WellNumbered, Node.SearchCommit, Supporters, Majority;
    assert !SomeVoterUntracked(n);
    SearchFindsGreatest(n, n.log.LastIndex());
  }

  lemma StepsDown(n: Node, term: Term, log: seq<LogEntry>, newer: Term, leader: NodeId)
    requires Looks(n, Leader, term, log) && newer > term
    ensures Looks(After(n, CallBecomeFollower(newer, leader)), Follower, newer, log)
    ensures After(n, CallBecomeFollower(newer, leader)).log == n.log
    ensures After(n, CallBecomeFollower(newer, leader)).id == n.id
  {
    hide Settled, WellNumbered, ActiveVoters;
  }

  /** A heartbeat of a leader with an empty log is answered with the whole last index. */
  lemma AnswersHeartbeat(n: Node, term: Term, log: seq<LogEntry>, leader: NodeId)
    requires Looks(n, Follower, term, log) && n.log.commitIndex == 0 && leader != 0
    ensures var order := AppendRequest(term, leader, 0, 0, [], 0);
            && n.HandleAppendEntries(order).2 == Some(AppendResponse(term, true, |log|, 0, 0))
            && Looks(After(n, CallAppendEntries(order)), Follower, term, log)
            && After(n, CallAppendEntries(order)).log == n.log && After(n, CallAppendEntries(order)).id == n.id
  {
    hide Settled, WellNumbered, ActiveVoters, Outbox.Stage;
  }

  /** A leader that hears of one peer with its whole log, which ends with its own entry, commits it all. */
  lemma CommitsOnReport(n: Node, term: Term, log: seq<LogEntry>, q: NodeId)
    requires Looks(n, Leader, term, log) && n.log.commitIndex < |log| && log[|log| - 1].term == term
    requires n.progress.Keys == {1, 2, 3} && n.id in {1, 2, 3} && n.progress[n.id].matchIndex == |log|
    requires q in {1, 2, 3} && q != n.id
    ensures var after := After(n, CallAppendResponse(q, AppendResponse(term, true, |log|, 0, 0)));
            Looks(after, Leader, term, log) && after.log.commitIndex == |log| && after.id == n.id
  {
    hide Settled, WellNumbered, ActiveVoters, Node.TryAdvanceCommit, Distinct, SetOf;
    CallKeepsValid(n, CallAppendResponse(q, AppendResponse(term, true, |log|, 0, 0)));
    var p := n.progress[q].(isActive := true);
    var matched := Max(p.matchIndex, |log|);
    var m := n.(progress := n.progress[q := p.(matchIndex := matched, nextIndex := Max(p.nextIndex, matched + 1))]);
    CommitsAll(m, q);
  }

  /** The whole log is committed when one of the others counts as holding it. */
  lemma CommitsAll(m: Node, q: NodeId)
    requires m.Valid() && m.voters == TRIO && m.membership == NO_MEMBERSHIP && m.log.commitIndex < |m.log.full|
    requires TermAt(m.log.full, |m.log.full|) == m.Term()
    requires m.progress.Keys == {1, 2, 3} && m.id in {1, 2, 3} && q in {1, 2, 3} && q != m.id
    requires m.progress[m.id].matchIndex >= |m.log.full| && m.progress[q].matchIndex >= |m.log.full|
    ensures m.TryAdvanceCommit() == (Ok, m.Commit(|m.log.full|))
  {
    hide Settled, WellNumbered, ActiveVoters, Node.TryAdvanceCommit, Supporters, Majority, Distinct, SetOf, Decides;
    TwoAreMajority(m, |m.log.full|, q);
    LeaderCommitRule(m);
    assert Committable(m, |m.log.full|);
  }

  lemma TwoAreMajority(n: Node, index: LogIndex, q: NodeId)
    requires n.progress.Keys == {1, 2, 3} && n.id in {1, 2, 3} && q in {1, 2, 3} && q != n.id
    requires n.progress[n.id].matchIndex >= index && n.progress[q].matchIndex >= index
    ensures Majority(Supporters(n, index), SetOf(TRIO))
  {
    var backing := Supporters(n, index) * SetOf(TRIO);
    assert SetOf(TRIO) == {1, 2, 3};
    assert {n.id, q} <= backing;
    SubsetSize({n.id, q}, backing);
  }

  /** The request a leader builds for the peer. */
  ghost function Built(n: Node, term: Term, log: seq<LogEntry>, next: LogIndex): AppendRequest
    requires 1 <= next <= |log| + 1
  {
    AppendRequest(term, n.id, next - 1, TermAt(log, next - 1), log[next - 1..], 0)
  }

  lemma Builds(n: Node, term: Term, log: seq<LogEntry>, peer: NodeId, next: LogIndex)
    requires FreshLeader(n, term, log, peer, next) && 1 <= next <= |log| + 1
    ensures var after := After(n, CallBuildAppend(peer));
            && n.BuildAppendEntries(peer).2 == Some(Built(n, term, log, next))
            && FreshLeader(after, term, log, peer, next) && after.id == n.id
  {
    hide Settled, WellNumbered, ActiveVoters, Outbox.Stage;
  }

  /** A follower with an empty log turns down what does not start at the beginning. */
  lemma TurnsDown(n: Node, term: Term, order: AppendRequest)
    requires Looks(n, Follower, term, []) && order.term == term && order.leaderId != 0
    requires order.prevLogIndex > 0 && order.prevLogTerm > 0
    ensures n.HandleAppendEntries(order).2 == Some(AppendResponse(term, false, 0, 1, 0))
    ensures Looks(After(n, CallAppendEntries(order)), Follower, term, [])
    ensures After(n, CallAppendEntries(order)).log == n.log && After(n, CallAppendEntries(order)).id == n.id
  {
    hide Settled, ActiveVoters, Outbox.Stage, Merge;
  }

  lemma BacksOff(n: Node, term: Term, log: seq<LogEntry>, peer: NodeId, next: LogIndex)
    requires FreshLeader(n, term, log, peer, next) && next >= 1
    ensures var after := After(n, CallAppendResponse(peer, AppendResponse(term, false, 0, 1, 0)));
            FreshLeader(after, term, log, peer, 1) && after.id == n.id
  {
    hide Settled, WellNumbered, ActiveVoters;
  }

  /** A follower with an empty log takes over a log from its beginning. */
  lemma TakesOver(n: Node, term: Term, leader: NodeId, log: seq<LogEntry>)
    requires Looks(n, Follower, term, []) && n.log.commitIndex == 0 && leader != 0 && WellNumbered(log) && log != []
    ensures var order := AppendRequest(term, leader, 0, 0, log, 0);
            && n.HandleAppendEntries(order).2 == Some(AppendResponse(term, true, |log|, 0, 0))
            && Looks(After(n, CallAppendEntries(order)), Follower, term, log)
            && After(n, CallAppendEntries(order)).log.commitIndex == 0 && After(n, CallAppendEntries(order)).id == n.id
  {
    hide Settled, ActiveVoters, Outbox.Stage;
    assert HeldPrefix(n.log, log) == 0;
    assert log[0..] == log;
    assert n.log.GoodBatch(log, 1);
    assert Merge(n.log, log) == (Ok, n.log.(full := [] + log));
    assert [] + log == log;
    hide Merge, WellNumbered;
    CallContinues(n, CallAppendEntries(AppendRequest(term, leader, 0, 0, log, 0)));
  }

  // ---------------------------------------------------------------- the calls in a run

  /** One call of node `x`, which any honest run may make next. */
  lemma Plays(s: Story, x: NodeId, call: Call) returns (d: Story)
    requires Told(s) && x in {1, 2, 3} && Enabled(Last(s), Invoke(x, call))
    requires call.CallRequestVote? ==>
               call.vote.candidateId in Last(s).nodes && Campaigned(Last(s).nodes[call.vote.candidateId], call.vote)
    ensures Told(d) && Last(s).nodes[x].Valid()
    ensures Last(d).nodes == Last(s).nodes[x := After(Last(s).nodes[x], call)]
    ensures Last(d).net == Last(s).net + Sent(Last(s).nodes[x], call)
    ensures Last(d).tally == Last(s).tally[(x, Last(s).nodes[x].Term()) :=
              Granted(Last(s), x) + Recorded(Last(s).nodes[x], call)]
  {
    hide Honest, Enabled, Inhabited, After, Sent, Recorded, VoteCast, Campaigned, Node.Valid;
    ResidentValid(Last(s), x);
    TellNext(s, Invoke(x, call));
    d := Then(s, Invoke(x, call));
  }

  /** The leader's heartbeat enters the network. */
  lemma Beats(s: Story, x: NodeId, follower: NodeId) returns (d: Story)
    requires Told(s) && x in {1, 2, 3} && follower != x && Last(s).nodes[x].BuildHeartbeat().Success?
    ensures Told(d) && Last(d).nodes == Last(s).nodes
    ensures Last(d).net == Last(s).net
              + {AppendPacket(x, follower, Last(s).nodes[x].BuildHeartbeat().value, Last(s).nodes[x].log)}
  {
    hide Honest, Inhabited, Node.BuildHeartbeat;
    TellNext(s, Heartbeat(x, follower));
    d := Then(s, Heartbeat(x, follower));
  }

  /** Nothing but the given nodes changed, and no packet was lost. */
  ghost predicate Follows(s: Story, d: Story, changed: set<NodeId>)
    requires Told(s) && Told(d)
  {
    && (forall y :: y in {1, 2, 3} && y !in changed ==> Last(d).nodes[y] == Last(s).nodes[y])
    && (forall y :: y in changed && y in {1, 2, 3} ==> Last(d).nodes[y].id == Last(s).nodes[y].id)
    && Last(s).net <= Last(d).net
  }

  ghost predicate Named(s: Story)
    requires Told(s)
  {
    forall y :: y in {1, 2, 3} ==> Last(s).nodes[y].id == y
  }

  lemma NamesAreKept(s: Story)
    requires Told(s)
    ensures Named(s)
  {
    assert forall y :: y in {1, 2, 3} ==> Resident(Last(s), y);
  }

  lemma RunForLeader(s: Story, x: NodeId, t: Term, log: seq<LogEntry>) returns (d: Story)
    requires Told(s) && x in {1, 2, 3} && Looks(Last(s).nodes[x], Follower, t, log)
    ensures Told(d) && Follows(s, d, {x}) && Looks(Last(d).nodes[x], Candidate, t + 1, log)
    ensures Last(d).nodes[x].log == Last(s).nodes[x].log
  {
    hide Honest, Inhabited, After, Looks;
    Campaigns(Last(s).nodes[x], t, log);
    d := Plays(s, x, CallStartElection);
  }

  /** What the candidate asks for. */
  ghost function Plea(n: Node): VoteRequest {
    VoteRequest(n.Term(), n.id, |n.log.full|, TermAt(n.log.full, |n.log.full|))
  }

  lemma AskForVote(s: Story, x: NodeId, v: NodeId, t: Term, log: seq<LogEntry>, held: seq<LogEntry>, past: Term)
    returns (d: Story)
    requires Told(s) && x in {1, 2, 3} && v in {1, 2, 3} && x != v
    requires Looks(Last(s).nodes[x], Candidate, t, log) && Looks(Last(s).nodes[v], Follower, past, held) && past < t
    requires Last(s).nodes[v].UpToDate(|log|, TermAt(log, |log|))
    ensures Told(d) && Follows(s, d, {v}) && Looks(Last(d).nodes[v], Follower, t, held)
    ensures Last(d).nodes[v].log == Last(s).nodes[v].log
    ensures VotePacket(v, x, VoteResponse(t, true, NoReason)) in Last(d).net
  {
    hide Honest, Inhabited, After, Node.Valid, Node.UpToDate, Node.HandleRequestVote;
    NamesAreKept(s);
    var plea := Plea(Last(s).nodes[x]);
    Grants(Last(s).nodes[v], past, held, plea);
    d := Plays(s, v, CallRequestVote(plea));
  }

  lemma CountVote(s: Story, x: NodeId, v: NodeId, t: Term, log: seq<LogEntry>) returns (d: Story)
    requires Told(s) && x in {1, 2, 3} && v in {1, 2, 3} && Looks(Last(s).nodes[x], Candidate, t, log)
    requires VotePacket(v, x, VoteResponse(t, true, NoReason)) in Last(s).net
    ensures Told(d) && Last(d).nodes == Last(s).nodes && Last(s).net <= Last(d).net
    ensures v in Backers(Last(d), x)
  {
    hide Honest, Inhabited, After, Node.Valid, Recorded;
    Records(Last(s).nodes[x], v, VoteResponse(t, true, NoReason));
    d := Plays(s, x, CallVoteResponse(v, VoteResponse(t, true, NoReason)));
    assert Last(d).nodes == Last(s).nodes;
  }

  lemma TwoBack(backers: set<NodeId>, x: NodeId, v: NodeId)
    requires x in backers && v in backers && x != v && x in {1, 2, 3} && v in {1, 2, 3}
    ensures Majority(backers, {1, 2, 3})
  {
    SubsetSize({x, v}, backers * {1, 2, 3});
  }

  lemma TakeOffice(s: Story, x: NodeId, v: NodeId, t: Term, log: seq<LogEntry>, peer: NodeId) returns (d: Story)
    requires Told(s) && x in {1, 2, 3} && v in {1, 2, 3} && x != v && Looks(Last(s).nodes[x], Candidate, t, log)
    requires v in Backers(Last(s), x) && Last(s).nodes[x].log.commitIndex == 0
    requires peer in {1, 2, 3} && peer != x
    ensures Told(d) && Follows(s, d, {x}) && FreshLeader(Last(d).nodes[x], t, log, peer, |log| + 1)
  {
    hide Honest, Inhabited, After, Looks, FreshLeader, Majority, Node.Valid, InForce;
    NamesAreKept(s);
    Leads(Last(s).nodes[x], t, log, peer);
    TwoBack(Backers(Last(s), x), x, v);
    d := Plays(s, x, CallBecomeLeader);
  }

  /** `x` is elected with the vote of `v`. */
  lemma Elects(s: Story, x: NodeId, v: NodeId, t: Term, log: seq<LogEntry>, past: Term, held: seq<LogEntry>,
               peer: NodeId) returns (d: Story)
    requires Told(s) && x in {1, 2, 3} && v in {1, 2, 3} && x != v && peer in {1, 2, 3} && peer != x
    requires Looks(Last(s).nodes[x], Follower, t, log) && Looks(Last(s).nodes[v], Follower, past, held) && past <= t
    requires Last(s).nodes[x].log.commitIndex == 0
    requires Last(s).nodes[v].UpToDate(|log|, TermAt(log, |log|))
    ensures Told(d) && Follows(s, d, {x, v})
    ensures FreshLeader(Last(d).nodes[x], t + 1, log, peer, |log| + 1)
    ensures Looks(Last(d).nodes[v], Follower, t + 1, held) && Last(d).nodes[v].log == Last(s).nodes[v].log
  {
    hide Told, Looks, FreshLeader, Node.UpToDate, Backers, Inhabited, Honest;
    assert s.states != [] by { WasTold(s); }
    var s1 := RunForLeader(s, x, t, log);
    var s2 := AskForVote(s1, x, v, t + 1, log, held, past);
    var s3 := CountVote(s2, x, v, t + 1, log);
    d := TakeOffice(s3, x, v, t + 1, log, peer);
  }

  lemma WasTold(s: Story)
    requires Told(s)
    ensures s.states != [] && Last(s).nodes.Keys == {1, 2, 3}
  {
  }

  lemma AddsEntry(s: Story, x: NodeId, t: Term, log: seq<LogEntry>, peer: NodeId, next: LogIndex) returns (d: Story)
    requires Told(s) && x in {1, 2, 3} && FreshLeader(Last(s).nodes[x], t, log, peer, next) && t > 0
    ensures Told(d) && Follows(s, d, {x})
    ensures FreshLeader(Last(d).nodes[x], t, log + [LogEntry(|log| + 1, t, Command, [])], peer, next)
  {
    hide Honest, Inhabited, After, Looks, FreshLeader;
    Proposes(Last(s).nodes[x], t, log, peer, next);
    d := Plays(s, x, CallPropose([]));
  }

  lemma GivesWay(s: Story, x: NodeId, t: Term, log: seq<LogEntry>, newer: Term, leader: NodeId) returns (d: Story)
    requires Told(s) && x in {1, 2, 3} && Looks(Last(s).nodes[x], Leader, t, log) && newer > t
    ensures Told(d) && Follows(s, d, {x}) && Looks(Last(d).nodes[x], Follower, newer, log)
    ensures Last(d).nodes[x].log == Last(s).nodes[x].log
  {
    hide Honest, Inhabited, After, Looks;
    StepsDown(Last(s).nodes[x], t, log, newer, leader);
    d := Plays(s, x, CallBecomeFollower(newer, leader));
  }

  lemma SendsHeartbeat(s: Story, x: NodeId, follower: NodeId, t: Term, peer: NodeId, next: LogIndex) returns (d: Story)
    requires Told(s) && x in {1, 2, 3} && FreshLeader(Last(s).nodes[x], t, [], peer, next) && follower != x
    ensures Told(d) && Last(d).nodes == Last(s).nodes && Last(s).net <= Last(d).net
    ensures AppendPacket(x, follower, AppendRequest(t, x, 0, 0, [], 0), Last(s).nodes[x].log) in Last(d).net
  {
    hide Honest, Inhabited, Settled, ActiveVoters;
    NamesAreKept(s);
    d := Beats(s, x, follower);
  }

  /** A follower handles a request from the network; its answer enters the network. */
  lemma Delivers(s: Story, p: Packet) returns (d: Story)
    requires Told(s) && p in Last(s).net && p.AppendPacket? && p.target in {1, 2, 3}
    requires Last(s).nodes[p.target].role == Follower
    ensures Told(d) && Last(s).nodes[p.target].Valid()
    ensures Last(d).nodes == Last(s).nodes[p.target := After(Last(s).nodes[p.target], CallAppendEntries(p.order))]
    ensures Last(s).net <= Last(d).net
    ensures var reply := Last(s).nodes[p.target].HandleAppendEntries(p.order).2;
            reply.Some? ==>
              ReplyPacket(p.target, p.order.leaderId, reply.value, p.order, Last(d).nodes[p.target].log.full)
              in Last(d).net
  {
    hide Honest, Inhabited, Node.Valid, Node.HandleAppendEntries;
    NamesAreKept(s);
    d := Plays(s, p.target, CallAppendEntries(p.order));
  }

  /** A node handles an answer from the network. */
  lemma Hears(s: Story, p: Packet) returns (d: Story)
    requires Told(s) && p in Last(s).net && p.ReplyPacket? && p.target in {1, 2, 3}
    ensures Told(d) && Last(s).net <= Last(d).net
    ensures Last(d).nodes
            == Last(s).nodes[p.target := After(Last(s).nodes[p.target], CallAppendResponse(p.source, p.answer))]
  {
    hide Honest, Inhabited, Node.Valid, After;
    assert Brings(p, p.source, p.target, p.answer);
    d := Plays(s, p.target, CallAppendResponse(p.source, p.answer));
  }

  lemma SendsLog(s: Story, x: NodeId, t: Term, log: seq<LogEntry>, peer: NodeId, next: LogIndex) returns (d: Story)
    requires Told(s) && x in {1, 2, 3} && FreshLeader(Last(s).nodes[x], t, log, peer, next) && 1 <= next <= |log| + 1
    ensures Told(d) && Follows(s, d, {x}) && FreshLeader(Last(d).nodes[x], t, log, peer, next)
    ensures AppendPacket(x, peer, Built(Last(s).nodes[x], t, log, next), Last(s).nodes[x].log) in Last(d).net
  {
    hide Honest, Inhabited, After, Looks, FreshLeader, Node.BuildAppendEntries, Built;
    NamesAreKept(s);
    Builds(Last(s).nodes[x], t, log, peer, next);
    d := Plays(s, x, CallBuildAppend(peer));
  }

  // ---------------------------------------------------------------- the story

  ghost function Beginner(id: NodeId): Options {
    Options(id, Follower, 1, HardState(0, 0, 0, 0), TRIO, [], None)
  }

  lemma BeginnerLooks(id: NodeId)
    requires id in {1, 2, 3}
    ensures ValidOptions(Beginner(id)) && InitialNode(Beginner(id)).id == id
    ensures Looks(InitialNode(Beginner(id)), Follower, 0, []) && InitialNode(Beginner(id)).log.commitIndex == 0
    ensures InForce(InitialNode(Beginner(id))) && SetOf(InitialNode(Beginner(id)).voters) == {1, 2, 3}
    ensures InitialVotes(InitialNode(Beginner(id))) == []
  {
    hide Settled, ActiveVoters;
    assert TRIO[0] == 1 && TRIO[1] == 2 && TRIO[2] == 3;
    assert TRIO + [] == TRIO;
  }

  ghost function Opening(): Cluster {
    Cluster({1, 2, 3}, map id | id in {1, 2, 3} :: InitialNode(Beginner(id)), {}, map[],
            map[1 := [], 2 := [], 3 := []], {}, map[])
  }

  lemma OpeningResident(id: NodeId)
    requires id in {1, 2, 3}
    ensures Resident(Opening(), id) && Opening().nodes[id] == InitialNode(Beginner(id))
    ensures Opening().votes[id] == InitialVotes(Opening().nodes[id])
  {
    hide InitialNode, ValidOptions, InForce, SetOf, Node.Valid, InitialVotes;
    BeginnerLooks(id);
    LooksValid(InitialNode(Beginner(id)), Follower, 0, []);
  }

  lemma OpeningIsInitial()
    ensures Initial(Opening())
  {
    hide InitialNode, ValidOptions, Looks, Resident, InitialVotes;
    var c := Opening();
    forall id | id in c.nodes
      ensures Resident(c, id) && c.nodes[id] == InitialNode(Beginner(id)) && ValidOptions(Beginner(id))
              && c.nodes[id].role == Follower && c.votes[id] == InitialVotes(c.nodes[id])
    {
      OpeningResident(id);
      BeginnerLooks(id);
      LooksValid(c.nodes[id], Follower, 0, []);
    }
  }

  lemma Begins()
    ensures Told(Story([Opening()], []))
    ensures forall id :: id in {1, 2, 3} ==>
              Looks(Opening().nodes[id], Follower, 0, []) && Opening().nodes[id].log.commitIndex == 0
  {
    hide InitialNode, ValidOptions, Looks, Initial, Inhabited, InForce;
    OpeningIsInitial();
    assert Inhabited(Opening()) by { InitialInhabited(Opening()); }
    forall id | id in {1, 2, 3}
      ensures Looks(Opening().nodes[id], Follower, 0, []) && Opening().nodes[id].log.commitIndex == 0
    {
      BeginnerLooks(id);
    }
  }

  lemma InitialInhabited(c: Cluster)
    requires Initial(c)
    ensures Inhabited(c)
  {
  }

  lemma LooksValid(n: Node, role: Role, term: Term, log: seq<LogEntry>)
    requires Looks(n, role, term, log)
    ensures n.Valid() && n.role == role
  {
  }

  const STALE: LogEntry := LogEntry(1, 1, Command, [])
  const OTHER: LogEntry := LogEntry(1, 2, Command, [])
  const LATER: LogEntry := LogEntry(2, 3, Command, [])

  /** Node 2 is elected in term 1 with the vote of node 1, and keeps an entry to itself. */
  lemma Prologue() returns (d: Story)
    ensures Told(d) && FreshLeader(Last(d).nodes[2], 1, [STALE], 3, 1)
    ensures Looks(Last(d).nodes[1], Follower, 1, []) && Last(d).nodes[1].log.commitIndex == 0
    ensures Looks(Last(d).nodes[3], Follower, 0, []) && Last(d).nodes[3].log.commitIndex == 0
  {
    hide Told, Looks, FreshLeader, Opening;
    Begins();
    var s0 := Story([Opening()], []);
    WasTold(s0);
    UpToDateEmpty(Last(s0).nodes[1], 0, []);
    var s1 := Elects(s0, 2, 1, 0, [], 0, [], 3);
    d := AddsEntry(s1, 2, 1, [], 3, 1);
    assert [] + [LogEntry(1, 1, Command, [])] == [STALE];
  }

  /** Node 1 is elected in term 2 with the vote of node 3; node 2 steps down, and a heartbeat is on its way. */
  lemma ActOne() returns (d: Story)
    ensures Told(d) && FreshLeader(Last(d).nodes[1], 2, [], 2, 1)
    ensures Looks(Last(d).nodes[2], Follower, 2, [STALE]) && Last(d).nodes[2].log.commitIndex == 0
    ensures Looks(Last(d).nodes[3], Follower, 2, []) && Last(d).nodes[3].log.commitIndex == 0
    ensures exists sender :: AppendPacket(1, 2, AppendRequest(2, 1, 0, 0, [], 0), sender) in Last(d).net
  {
    hide Told, Looks, FreshLeader, Opening;
    var s2 := Prologue();
    WasTold(s2);
    UpToDateEmpty(Last(s2).nodes[3], 0, []);
    var s3 := Elects(s2, 1, 3, 1, [], 0, [], 2);
    WasTold(s3);
    FreshLooks(Last(s3).nodes[2], 1, [STALE], 3, 1);
    var s4 := GivesWay(s3, 2, 1, [STALE], 2, 1);
    d := SendsHeartbeat(s4, 1, 2, 2, 2, 1);
  }

  lemma FreshLooks(n: Node, term: Term, log: seq<LogEntry>, peer: NodeId, next: LogIndex)
    requires FreshLeader(n, term, log, peer, next)
    ensures Looks(n, Leader, term, log) && n.log.commitIndex == 0
  {
  }

  lemma UpToDateEmpty(n: Node, term: Term, log: seq<LogEntry>)
    requires Looks(n, Follower, term, [])
    ensures n.UpToDate(|log|, TermAt(log, |log|))
  {
  }

  /** Node 2 answers the heartbeat with its last index, its stale entry included. */
  lemma StaleReport() returns (d: Story)
    ensures Told(d) && FreshLeader(Last(d).nodes[1], 2, [], 2, 1)
    ensures Looks(Last(d).nodes[2], Follower, 2, [STALE]) && Last(d).nodes[2].log.commitIndex == 0
    ensures Looks(Last(d).nodes[3], Follower, 2, []) && Last(d).nodes[3].log.commitIndex == 0
    ensures exists order, held :: ReplyPacket(2, 1, AppendResponse(2, true, 1, 0, 0), order, held) in Last(d).net
  {
    hide Told, Looks, FreshLeader, After, Node.HandleAppendEntries;
    var s5 := ActOne();
    WasTold(s5);
    var order := AppendRequest(2, 1, 0, 0, [], 0);
    var sender :| AppendPacket(1, 2, order, sender) in Last(s5).net;
    AnswersHeartbeat(Last(s5).nodes[2], 2, [STALE], 1);
    LooksValid(Last(s5).nodes[2], Follower, 2, [STALE]);
    d := Delivers(s5, AppendPacket(1, 2, order, sender));
    WasTold(d);
  }

  /** Node 1 has meanwhile added another entry, and commits it on that report. */
  lemma ActTwo() returns (d: Story)
    ensures Told(d) && Looks(Last(d).nodes[1], Leader, 2, [OTHER]) && Last(d).nodes[1].log.commitIndex == 1
    ensures Looks(Last(d).nodes[2], Follower, 2, [STALE]) && Last(d).nodes[2].log.commitIndex == 0
    ensures Looks(Last(d).nodes[3], Follower, 2, []) && Last(d).nodes[3].log.commitIndex == 0
  {
    hide Told, Looks, FreshLeader, After;
    var s6 := StaleReport();
    WasTold(s6);
    var order, held :| ReplyPacket(2, 1, AppendResponse(2, true, 1, 0, 0), order, held) in Last(s6).net;
    var s7 := AddsEntry(s6, 1, 2, [], 2, 1);
    WasTold(s7);
    assert [] + [LogEntry(1, 2, Command, [])] == [OTHER];
    LeaderLooks(Last(s7).nodes[1], 2, [OTHER], 2, 1);
    NameFacts(s7);
    CommitsOnReport(Last(s7).nodes[1], 2, [OTHER], 2);
    d := Hears(s7, ReplyPacket(2, 1, AppendResponse(2, true, 1, 0, 0), order, held));
  }

  /** An honest run in which a leader has committed an entry that neither other node of the three holds. */
  lemma CommittedWithoutQuorum()
    ensures exists states, steps :: Honest(states, steps) && EndsAlone(states)
  {
    hide Told, Looks, Honest, EndsAlone;
    var d := ActTwo();
    Alone(d);
  }

  lemma Alone(d: Story)
    requires Told(d)
    requires Looks(Last(d).nodes[1], Leader, 2, [OTHER]) && Last(d).nodes[1].log.commitIndex == 1
    requires Looks(Last(d).nodes[2], Follower, 2, [STALE]) && Looks(Last(d).nodes[3], Follower, 2, [])
    ensures Honest(d.states, d.steps) && EndsAlone(d.states)
  {
    hide Honest, Inhabited, Node.Valid;
  }

  ghost predicate EndsAlone(states: seq<Cluster>) {
    && states != []
    && var c := states[|states| - 1];
    && c.nodes.Keys == c.electorate == {1, 2, 3}
    && c.nodes[1].role == Leader && c.nodes[1].log.commitIndex == 1 && c.nodes[1].log.full == [OTHER]
    && c.nodes[2].log.full == [STALE] && c.nodes[3].log.full == []
  }

  /** Node 2 is elected in term 3 with its stale entry, and adds one of its own. */
  lemma ActThree() returns (d: Story)
    ensures Told(d) && Looks(Last(d).nodes[1], Leader, 2, [OTHER]) && Last(d).nodes[1].log.commitIndex == 1
    ensures FreshLeader(Last(d).nodes[2], 3, [STALE, LATER], 3, 2)
    ensures Looks(Last(d).nodes[3], Follower, 3, []) && Last(d).nodes[3].log.commitIndex == 0
  {
    hide Told, Looks, FreshLeader;
    var s8 := ActTwo();
    WasTold(s8);
    UpToDateEmpty(Last(s8).nodes[3], 2, [STALE]);
    var s9 := Elects(s8, 2, 3, 2, [STALE], 2, [], 3);
    d := AddsEntry(s9, 2, 3, [STALE], 3, 2);
    assert [STALE] + [LogEntry(2, 3, Command, [])] == [STALE, LATER];
  }

  /** Node 3 turns down the first request of node 2 and takes over its log with the second. */
  lemma ActFour() returns (d: Story)
    ensures Told(d) && Looks(Last(d).nodes[1], Leader, 2, [OTHER]) && Last(d).nodes[1].log.commitIndex == 1
    ensures FreshLeader(Last(d).nodes[2], 3, [STALE, LATER], 3, 1)
    ensures exists order, held :: ReplyPacket(3, 2, AppendResponse(3, true, 2, 0, 0), order, held) in Last(d).net
  {
    hide Told, Looks, FreshLeader, After, Node.HandleAppendEntries, Node.HandleAppendResponse;
    var s10 := ActThree();
    var log := [STALE, LATER];
    WasTold(s10);
    var first := Built(Last(s10).nodes[2], 3, log, 2);
    var s11 := SendsLog(s10, 2, 3, log, 3, 2);
    WasTold(s11);
    TurnsDown(Last(s11).nodes[3], 3, first) by { NameFacts(s10); }
    LooksValid(Last(s11).nodes[3], Follower, 3, []);
    var p := AppendPacket(2, 3, first, Last(s10).nodes[2].log);
    var s12 := Delivers(s11, p);
    WasTold(s12);
    NameFacts(s10);
    BacksOff(Last(s12).nodes[2], 3, log, 3, 2);
    var held := Last(s12).nodes[3].log.full;
    var s13 := Hears(s12, ReplyPacket(3, 2, AppendResponse(3, false, 0, 1, 0), first, held));
    d := ActFourEnds(s13, log);
  }

  lemma ActFourEnds(s13: Story, log: seq<LogEntry>) returns (d: Story)
    requires Told(s13) && log == [STALE, LATER] && FreshLeader(Last(s13).nodes[2], 3, log, 3, 1)
    requires Looks(Last(s13).nodes[3], Follower, 3, []) && Last(s13).nodes[3].log.commitIndex == 0
    ensures Told(d) && Last(d).nodes[1] == Last(s13).nodes[1] && FreshLeader(Last(d).nodes[2], 3, log, 3, 1)
    ensures exists order, held :: ReplyPacket(3, 2, AppendResponse(3, true, 2, 0, 0), order, held) in Last(d).net
  {
    hide Told, Looks, FreshLeader, After, Node.HandleAppendEntries, Node.HandleAppendResponse;
    WasTold(s13);
    NameFacts(s13);
    var second := Built(Last(s13).nodes[2], 3, log, 1);
    assert log[0..] == log;
    var s14 := SendsLog(s13, 2, 3, log, 3, 1);
    WasTold(s14);
    TakesOver(Last(s14).nodes[3], 3, 2, log);
    LooksValid(Last(s14).nodes[3], Follower, 3, []);
    d := Delivers(s14, AppendPacket(2, 3, second, Last(s13).nodes[2].log));
    WasTold(d);
  }

  lemma NameFacts(s: Story)
    requires Told(s)
    ensures Last(s).nodes[1].id == 1 && Last(s).nodes[2].id == 2 && Last(s).nodes[3].id == 3
  {
    hide Honest;
    NamesAreKept(s);
  }

  /**
   An honest run that ends with two nodes having committed different entries at index 1. By
   `CommitSafety.CommitsAgree` it has an untrue report.
   */
  lemma CommitsCanConflict()
    ensures exists states, steps :: Honest(states, steps) && EndsInConflict(states) && !ReportsTrue(states, steps)
  {
    hide Told, Looks, FreshLeader, After, Node.HandleAppendResponse;
    var s15 := ActFour();
    WasTold(s15);
    NameFacts(s15);
    var order, held :| ReplyPacket(3, 2, AppendResponse(3, true, 2, 0, 0), order, held) in Last(s15).net;
    LeaderLooks(Last(s15).nodes[2], 3, [STALE, LATER], 3, 1);
    CommitsOnReport(Last(s15).nodes[2], 3, [STALE, LATER], 3);
    var d := Hears(s15, ReplyPacket(3, 2, AppendResponse(3, true, 2, 0, 0), order, held));
    Conflicting(d);
  }

  ghost predicate EndsInConflict(states: seq<Cluster>) {
    && states != []
    && var c := states[|states| - 1];
    && 1 in c.nodes && 2 in c.nodes
    && c.nodes[1].log.commitIndex == 1 && c.nodes[1].log.full == [OTHER]
    && c.nodes[2].log.commitIndex == 2 && c.nodes[2].log.full == [STALE, LATER]
  }

  lemma LeaderLooks(n: Node, term: Term, log: seq<LogEntry>, peer: NodeId, next: LogIndex)
    requires FreshLeader(n, term, log, peer, next)
    ensures Looks(n, Leader, term, log) && n.log.commitIndex == 0 && n.progress.Keys == {1, 2, 3}
    ensures n.id in {1, 2, 3} && n.progress[n.id].matchIndex == |log|
  {
  }

  lemma Conflicting(d: Story)
    requires Told(d)
    requires Looks(Last(d).nodes[1], Leader, 2, [OTHER]) && Last(d).nodes[1].log.commitIndex == 1
    requires Looks(Last(d).nodes[2], Leader, 3, [STALE, LATER]) && Last(d).nodes[2].log.commitIndex == 2
    ensures Honest(d.states, d.steps) && EndsInConflict(d.states) && !ReportsTrue(d.states, d.steps)
  {
    hide Execution, RequestsSent, ReportsTrue;
    var a, b := Last(d).nodes[1].log, Last(d).nodes[2].log;
    assert a.full == [OTHER] && b.full == [STALE, LATER] && Last(d).nodes.Keys == {1, 2, 3};
    hide Looks, Inhabited;
    ExecutionLengths(d.states, d.steps);
    if ReportsTrue(d.states, d.steps) {
      CommitsAgree(d.states, d.steps, |d.states| - 1, |d.states| - 1, 1, 2);
      Incomparable(a, b);
      assert false;
    }
  }

  lemma Incomparable(a: LogState, b: LogState)
    requires a.full == [OTHER] && a.commitIndex == 1 && b.full == [STALE, LATER] && b.commitIndex == 2
    ensures !(a.Committed() <= b.Committed()) && !(b.Committed() <= a.Committed())
  {
    assert a.Committed()[0] == OTHER && b.Committed()[0] == STALE;
  }
}
