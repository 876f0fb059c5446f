/** The node object. Every public method does to the fields what the node value's function says. */
module RaftCores {
  import opened Common
  import opened RaftTypes
  import opened IdSets
  import opened LogModel
  import opened RaftLogs
  import opened Messages
  import opened MembershipRules
  import opened ActiveMembers
  import Codec = MembershipCodec
  import opened NodeModel
  import opened NodeRuns
  import opened Elections

  lemma VoteStaysValid(n: Node, request: VoteRequest)
    requires n.Valid()
    ensures n.HandleRequestVote(request).1.Valid()
  {
    hide Node.Valid, Node.HandleRequestVote;
    CallContinues(n, CallRequestVote(request));
  }

  lemma AppendStaysValid(n: Node, request: AppendRequest)
    requires n.Valid()
    ensures n.log.Valid() && n.HandleAppendEntries(request).1.Valid()
  {
    hide Node.HandleAppendEntries, Settled, ActiveVoters, Distinct, SetOf, WellNumbered;
    AppendEntriesContinues(n, request);
  }

  lemma ResponseStaysValid(n: Node, source: NodeId, response: AppendResponse)
    requires n.Valid()
    ensures n.HandleAppendResponse(source, response).1.Valid()
    ensures n.membership.inTransition ==> ValidMembership(n.membership)
  {
    hide Node.HandleAppendResponse, ActiveVoters, Distinct, SetOf, WellNumbered;
    AppendResponseContinues(n, source, response);
  }

  class RaftCore {
    const id: NodeId
    const log: RaftLog
    var role: Role
    var leaderId: NodeId
    var logicalTicks: nat
    var electionElapsed: nat
    var electionTimeout: nat
    var hard: HardState
    var voters: seq<NodeId>
    var learners: seq<NodeId>
    var membership: Membership
    var progress: map<NodeId, PeerProgress>
    var persisted: HardState
    var immediate: seq<Message>
    var pending: seq<Pending>

    ghost function State(): Node
      reads this, log
    {
      Node(id, role, leaderId, logicalTicks, electionElapsed, electionTimeout, hard, log.State(), voters, learners,
           membership, progress, persisted, Outbox(immediate, pending))
    }

    ghost predicate Valid()
      reads this, log
    {
      log.Valid() && State().Valid()
    }

    // -------------------------------------------------------------- initialisation

    /** The insert-and-check loops over the voter and learner vectors. */
    static method AllValidAndDistinct(ids: seq<NodeId>) returns (ok: bool)
      ensures ok <==> 0 !in ids && Distinct(ids)
    {
      var seen := {};
      for i := 0 to |ids|
        invariant seen == SetOf(ids[..i])
        invariant 0 !in ids[..i] && Distinct(ids[..i])
      {
        assert ids[..i + 1] == ids[..i] + [ids[i]];
        if ids[i] == 0 || ids[i] in seen {
          return false;
        }
        seen := seen + {ids[i]};
      }
      assert ids[..|ids|] == ids;
      return true;
    }

    /** The membership given at start must be valid and list exactly the given ids. */
    static method AgreesWith(m: Membership, voterIds: seq<NodeId>, learnerIds: seq<NodeId>) returns (ok: bool)
      requires Distinct(voterIds) && Distinct(learnerIds)
      ensures ok <==> ValidMembership(m) && SetOf(voterIds) == Ids(m.voters) && SetOf(learnerIds) == Ids(m.learners)
    {
      var status := ValidateMembership(m);
      if status != Ok {
        return false;
      }
      var v := MemberIds(m.voters);
      var l := MemberIds(m.learners);
      hide Listing, SortIds, Distinct, SetOf, Ids;
      SameIdsIff(voterIds, v, Ids(m.voters));
      SameIdsIff(learnerIds, l, Ids(m.learners));
      return SortIds(voterIds) == v && SortIds(learnerIds) == l;
    }

    static method ValidateOptions(o: Options) returns (status: Status)
      ensures status == if ValidOptions(o) then Ok else InvalidArgument
    {
      hide ValidMembership, SetOf, Ids;
      if o.id == 0 || o.electionTimeout == 0 || o.voters == [] {
        return InvalidArgument;
      }
      var all := o.voters + o.learners;
      var ok := AllValidAndDistinct(all);
      if !ok || o.id !in all || (o.id in o.learners) != (o.role == Learner) {
        return InvalidArgument;
      }
      if o.role == Learner && o.hard.votedFor == o.id {
        return InvalidArgument;
      }
      if o.membership.Some? {
        assert o.voters == all[..|o.voters|] && o.learners == all[|o.voters|..];
        ok := AgreesWith(o.membership.value, o.voters, o.learners);
        if !ok {
          return InvalidArgument;
        }
      }
      return Ok;
    }

    constructor Initialize(o: Options)
      requires ValidOptions(o)
      ensures Valid() && fresh(log)
      ensures State() == InitialNode(o)
    {
      hide Settled, ActiveVoters, TransitionLearners, Listing, Distinct, SetOf, WellNumbered, ValidMembership,
           SortMembers, Node.ResetProgress;
      id := o.id;
      log := new RaftLog();
      role := o.role;
      leaderId := if o.role == Leader then o.id else 0;
      logicalTicks, electionElapsed, electionTimeout := 0, 0, o.electionTimeout;
      hard := o.hard.(commitIndex := 0);
      persisted := o.hard.(commitIndex := 0);
      voters, learners := o.voters, o.learners;
      membership := NO_MEMBERSHIP;
      progress := map[];
      immediate, pending := [], [];
      new;
      InitialNodeValid(o);
      if o.membership.Some? {
        AdoptMembership(o.membership.value);
      }
      persisted := hard;
      ResetPeerProgress();
    }

    /** A view becomes the membership; the id vectors and the stored configuration id follow it. */
    method AdoptMembership(view: Membership)
      requires ValidMembership(view)
      modifies this`membership, this`voters, this`learners, this`hard
      ensures State() == old(State()).(membership := Sorted(view), voters := Listing(ActiveVoters(Sorted(view))),
                                       learners := Listing(TransitionLearners(Sorted(view))),
                                       hard := old(hard).(configurationId := view.configurationId))
    {
      hide ActiveVoters, TransitionLearners, Listing, ValidMembership, SortMembers;
      SortedFacts(view);
      var m := Sorted(view);
      voters := TransitionVoterIds(m);
      learners := TransitionLearnerIds(m);
      membership := m;
      hard := hard.(configurationId := m.configurationId);
    }

    // -------------------------------------------------------------- ticks and roles

    method Tick() returns (status: Status, started: bool)
      requires Valid()
      modifies this
      ensures Valid()
      ensures (status, State(), started) == old(State()).Tick()
    {
      hide Settled, ActiveVoters, Distinct, SetOf, WellNumbered;
      started := false;
      logicalTicks := logicalTicks + 1;
      if role == Leader || role == Learner {
        return Ok, false;
      }
      electionElapsed := electionElapsed + 1;
      if electionElapsed < electionTimeout {
        return Ok, false;
      }
      status := StartElection();
      started := status == Ok;
    }

    method UpdateElectionTimeout(ticks: nat) returns (status: Status)
      requires Valid()
      modifies this
      ensures Valid()
      ensures (status, State()) == old(State()).UpdateElectionTimeout(ticks)
    {
      hide Settled, ActiveVoters, Distinct, SetOf, WellNumbered;
      if ticks == 0 {
        return InvalidArgument;
      }
      electionTimeout := ticks;
      return Ok;
    }

    method UpdateCurrentTerm(term: Term) returns (status: Status)
      modifies this`hard
      ensures status == if term < old(hard.currentTerm) then InvalidArgument else Ok
      ensures State() == old(State()).WithTerm(term)
    {
      if term < hard.currentTerm {
        return InvalidArgument;
      }
      if term > hard.currentTerm {
        hard := hard.(currentTerm := term, votedFor := 0);
      }
      return Ok;
    }

    method BecomeFollowerForRemote(term: Term, leader: NodeId) returns (status: Status)
      modifies this`hard, this`role, this`leaderId, this`electionElapsed
      ensures (status, State()) == old(State()).FollowRemote(term, leader)
    {
      status := UpdateCurrentTerm(term);
      if status != Ok {
        return;
      }
      if role != Learner {
        role := Follower;
      }
      leaderId := leader;
      electionElapsed := 0;
    }

    method BecomeFollower(term: Term, leader: NodeId) returns (status: Status)
      requires Valid()
      modifies this
      ensures Valid()
      ensures (status, State()) == old(State()).BecomeFollower(term, leader)
    {
      hide Settled, ActiveVoters, Distinct, SetOf, WellNumbered;
      if term < hard.currentTerm || role == Learner {
        return InvalidArgument;
      }
      status := BecomeFollowerForRemote(term, leader);
    }

    method StartElection() returns (status: Status)
      requires Valid()
      modifies this
      ensures Valid()
      ensures (status, State()) == old(State()).StartElection()
    {
      hide Settled, ActiveVoters, Distinct, SetOf, WellNumbered;
      if role == Leader || role == Learner {
        return InvalidArgument;
      }
      hard := hard.(currentTerm := hard.currentTerm + 1, votedFor := id);
      role := Candidate;
      leaderId := 0;
      electionElapsed := 0;
      return Ok;
    }

    method BecomeLeader() returns (status: Status)
      requires Valid()
      modifies this
      ensures Valid()
      ensures (status, State()) == old(State()).BecomeLeader()
    {
      hide Settled, ActiveVoters, Distinct, WellNumbered;
      if role != Candidate {
        return InvalidArgument;
      }
      role := Leader;
      leaderId := id;
      electionElapsed := 0;
      ResetPeerProgress();
      return Ok;
    }

    // -------------------------------------------------------------- peer progress

    method ResetPeerProgress()
      requires log.Valid()
      modifies this`progress
      ensures State() == old(State()).ResetProgress()
    {
      ghost var before := State();
      var last := log.LastIndex();
      var table: map<NodeId, PeerProgress> := map[];
      for i := 0 to |voters|
        invariant forall p :: p in table <==> p in voters[..i]
        invariant forall p :: p in table ==> table[p] == before.InitialProgress(p)
      {
        table := table[voters[i] := PeerProgress(false, voters[i] == id, if voters[i] == id then last else 0, last + 1)];
        assert voters[..i + 1] == voters[..i] + [voters[i]];
      }
      assert voters[..|voters|] == voters;
      for i := 0 to |learners|
        invariant forall p :: p in table <==> p in voters || p in learners[..i]
        invariant forall p :: p in table ==> table[p] == before.InitialProgress(p)
      {
        if learners[i] !in table {
          table := table[learners[i] :=
              PeerProgress(true, learners[i] == id, if learners[i] == id then last else 0, last + 1)];
        }
        assert learners[..i + 1] == learners[..i] + [learners[i]];
      }
      assert learners[..|learners|] == learners;
      assert table == map peer | peer in before.Peers() :: before.InitialProgress(peer);
      progress := table;
      SyncLocalPeerProgress();
    }

    method SyncLocalPeerProgress()
      requires log.Valid()
      modifies this`progress
      ensures State() == old(State()).SyncLocal()
    {
      if id in progress {
        progress := progress[id := progress[id].(isActive := true, matchIndex := log.LastIndex(),
                                                 nextIndex := log.LastIndex() + 1)];
      }
    }

    /** The voters after the first loop: known ones keep their progress, new ones start afresh. */
    ghost static function VoterKept(n: Node, p: NodeId): PeerProgress
    {
      if p in n.progress then n.progress[p].(isLearner := false) else n.FreshProgress(p, false)
    }

    static method TrackVoters(ghost n: Node, self: NodeId, last: LogIndex, progress: map<NodeId, PeerProgress>,
                              voters: seq<NodeId>) returns (candidate: map<NodeId, PeerProgress>)
      requires progress == n.progress && self == n.id && last == n.log.LastIndex()
      ensures forall p :: p in candidate <==> p in progress || p in voters
      ensures forall p :: p in candidate ==>
                candidate[p] == if p in voters then VoterKept(n, p) else progress[p]
    {
      candidate := progress;
      for i := 0 to |voters|
        invariant forall p :: p in candidate <==> p in progress || p in voters[..i]
        invariant forall p :: p in candidate ==>
                    candidate[p] == if p in voters[..i] then VoterKept(n, p) else progress[p]
      {
        var p := voters[i];
        assert voters[..i + 1] == voters[..i] + [p];
        candidate := candidate[p := if p in candidate then candidate[p].(isLearner := false)
                                    else PeerProgress(false, p == self, if p == self then last else 0, last + 1)];
      }
      assert voters[..|voters|] == voters;
    }

    static method TrackLearners(ghost n: Node, last: LogIndex, progress: map<NodeId, PeerProgress>,
                                learners: seq<NodeId>) returns (candidate: map<NodeId, PeerProgress>)
      requires last == n.log.LastIndex() && learners == n.learners
      requires forall p :: p in progress <==> p in n.progress || p in n.voters
      requires forall p :: p in progress ==>
                 progress[p] == if p in n.voters then VoterKept(n, p) else n.progress[p]
      ensures forall p :: p in candidate <==> p in progress || p in learners
      ensures forall p :: p in candidate && p in n.voters + n.learners ==> candidate[p] == n.Kept(p)
    {
      candidate := progress;
      for i := 0 to |learners|
        invariant forall p :: p in candidate <==> p in progress || p in learners[..i]
        invariant forall p :: p in candidate ==>
                    candidate[p] == if p in learners[..i] then n.Kept(p) else progress[p]
      {
        var p := learners[i];
        assert learners[..i + 1] == learners[..i] + [p];
        candidate := candidate[p := if p in candidate then candidate[p].(isLearner := true)
                                    else PeerProgress(true, false, 0, last + 1)];
      }
      assert learners[..|learners|] == learners;
    }

    /** The loops that keep, add and erase peers; `voters` and `learners` are already the new vectors. */
    method RetargetPeerProgress()
      requires log.Valid()
      modifies this`progress
      ensures State() == old(State()).(progress := map p | p in old(State()).Peers() :: old(State()).Kept(p))
    {
      ghost var before := State();
      var last := log.LastIndex();
      var candidate := TrackVoters(before, id, last, progress, voters);
      candidate := TrackLearners(before, last, candidate, learners);
      hide Node.Kept;
      progress := map p | p in candidate && (p in voters || p in learners) :: candidate[p];
      assert progress == map p | p in before.Peers() :: before.Kept(p);
    }

    method UpdatePeerProgressForMembership()
      requires log.Valid()
      modifies this`progress
      ensures State() == old(State()).Retargeted()
    {
      if progress == map[] {
        ResetPeerProgress();
      } else {
        RetargetPeerProgress();
        SyncLocalPeerProgress();
      }
    }

    // -------------------------------------------------------------- outbox

    method StageMessage(target: NodeId, body: Body, requireHardState: bool, stableIndex: LogIndex)
      modifies this`immediate, this`pending
      ensures State() == old(State()).Stage(target, body, requireHardState, stableIndex)
    {
      var message := Message(id, target, body);
      var hasLog := stableIndex > log.stableIndex;
      var hasHardState := requireHardState && hard != persisted;
      immediate := DropMessages(immediate, message);
      pending := DropPending(pending, message);
      if hasHardState || hasLog {
        pending := pending + [Pending(message, hasHardState, if hasLog then stableIndex else 0)];
      } else {
        immediate := immediate + [message];
      }
    }

    /** The loop over the blocked messages: those that may go now, and those that stay. */
    static method SplitBlocked(queue: seq<Pending>, dirty: bool, stable: LogIndex)
      returns (ready: seq<Message>, remaining: seq<Pending>)
      ensures ready == Released(queue, dirty, stable) && remaining == Blocked(queue, dirty, stable)
    {
      hide Pending.Ready;
      ready, remaining := [], [];
      assert queue[0..] == queue;
      for i := 0 to |queue|
        invariant ready + Released(queue[i..], dirty, stable) == Released(queue, dirty, stable)
        invariant remaining + Blocked(queue[i..], dirty, stable) == Blocked(queue, dirty, stable)
      {
        assert queue[i..][1..] == queue[i + 1..];
        var isReady := queue[i].Ready(dirty, stable);
        if isReady {
          Joined(ready, queue[i].message, Released(queue[i + 1..], dirty, stable));
          ready := ready + [queue[i].message];
        } else {
          Joined(remaining, queue[i], Blocked(queue[i + 1..], dirty, stable));
          remaining := remaining + [queue[i]];
        }
      }
    }

    static lemma Joined<T>(a: seq<T>, x: T, b: seq<T>)
      ensures a + ([x] + b) == a + [x] + b
    {
    }

    method ReclassifyBlockedMessages()
      modifies this`immediate, this`pending
      ensures State() == old(State()).(outbox := old(State()).outbox.Reclassify(hard != persisted, log.stableIndex))
    {
      var ready, remaining := SplitBlocked(pending, hard != persisted, log.stableIndex);
      immediate, pending := immediate + ready, remaining;
    }

    method ConfirmPersistence(c: Confirmation) returns (status: Status)
      requires Valid()
      modifies this, log
      ensures Valid()
      ensures (status, State()) == old(State()).ConfirmPersistence(c)
    {
      hide Settled, ActiveVoters, Distinct, SetOf, WellNumbered, Outbox.Reclassify;
      if c.status != Ok {
        return c.status;
      }
      if c.stableIndex < log.stableIndex || c.stableIndex > log.LastIndex() {
        return InvalidArgument;
      }
      if c.maxStableIndex != 0 && c.stableIndex > c.maxStableIndex {
        return InvalidArgument;
      }
      if c.hardStatePersisted {
        persisted := hard;
      }
      if c.stableIndex > log.stableIndex {
        status := log.AdvanceStableTo(c.stableIndex);
        if status != Ok {
          return;
        }
      }
      ReclassifyBlockedMessages();
      return Ok;
    }

    method ConfirmApplied(index: LogIndex) returns (status: Status)
      requires Valid()
      modifies this, log
      ensures Valid()
      ensures (status, State()) == old(State()).ConfirmApplied(index)
    {
      hide Settled, ActiveVoters, Distinct, SetOf, WellNumbered;
      if index == 0 || index != log.appliedIndex + 1 || index > log.commitIndex {
        return InvalidArgument;
      }
      status := log.AdvanceAppliedTo(index);
    }

    // -------------------------------------------------------------- elections

    method IsCandidateLogUpToDate(lastIndex: LogIndex, lastTerm: Term) returns (upToDate: bool)
      requires log.Valid()
      ensures upToDate == State().UpToDate(lastIndex, lastTerm)
      ensures upToDate <==> NotBehind(lastTerm, lastIndex, State().log.full)
    {
      var localTerm := log.GetTerm(log.LastIndex());
      if lastTerm != localTerm.value {
        return lastTerm > localTerm.value;
      }
      return lastIndex >= log.LastIndex();
    }

    method HandleRequestVote(request: VoteRequest) returns (status: Status, response: Option<VoteResponse>)
      requires Valid()
      modifies this
      ensures Valid()
      ensures (status, State(), response) == old(State()).HandleRequestVote(request)
    {
      hide Node.Valid, Outbox.Stage;
      VoteStaysValid(State(), request);
      if request.candidateId == 0 {
        return InvalidArgument, None;
      }
      var before := hard;
      var reason := NoReason;
      if role == Learner {
        reason := LearnerCannotVote;
      } else if request.term < hard.currentTerm {
        reason := StaleTerm;
      } else {
        if request.term > hard.currentTerm {
          status := BecomeFollowerForRemote(request.term, 0);
        }
        var upToDate := IsCandidateLogUpToDate(request.lastLogIndex, request.lastLogTerm);
        if !upToDate {
          reason := LogOutdated;
        } else if hard.votedFor != 0 && hard.votedFor != request.candidateId {
          reason := AlreadyVoted;
        } else {
          hard := hard.(votedFor := request.candidateId);
          electionElapsed := 0;
        }
      }
      var reply := VoteResponse(hard.currentTerm, reason == NoReason, reason);
      StageMessage(request.candidateId, VoteReply(reply), hard != before, 0);
      return Ok, Some(reply);
    }

    method HandleVoteResponse(source: NodeId, response: VoteResponse) returns (status: Status, action: VoteAction)
      requires Valid()
      modifies this
      ensures Valid()
      ensures (status, State(), action) == old(State()).HandleVoteResponse(source, response)
    {
      hide Settled, ActiveVoters, Distinct, SetOf, WellNumbered;
      if source == 0 || response.granted != (response.reason == NoReason) {
        return InvalidArgument, NoVoteAction;
      }
      if response.term < hard.currentTerm {
        return Ok, NoVoteAction;
      }
      if response.term > hard.currentTerm {
        status := BecomeFollowerForRemote(response.term, 0);
        return Ok, VoteStepDown;
      }
      if role != Candidate {
        return Ok, NoVoteAction;
      }
      return Ok, if response.granted then RecordedGrant else RecordedRejection;
    }

    // -------------------------------------------------------------- replication, leader side

    method BuildHeartbeat() returns (request: Result<AppendRequest>)
      requires Valid()
      ensures request == State().BuildHeartbeat()
    {
      if role != Leader {
        return Failure(InvalidArgument);
      }
      var prevTerm := log.GetTerm(log.LastIndex());
      return Success(AppendRequest(hard.currentTerm, id, log.LastIndex(), prevTerm.value, [], log.commitIndex));
    }

    method BuildAppendEntries(target: NodeId) returns (status: Status, request: Option<AppendRequest>)
      requires Valid()
      modifies this
      ensures Valid()
      ensures (status, State(), request) == old(State()).BuildAppendEntries(target)
    {
      hide Settled, ActiveVoters, Distinct, SetOf, WellNumbered, Outbox.Stage;
      if role != Leader || target == id {
        return InvalidArgument, None;
      }
      if target !in progress {
        return NotFound, None;
      }
      var next := progress[target].nextIndex;
      if next <= log.snapshotIndex {
        return RetryLater, None;
      }
      var prevTerm := log.GetTerm(next - 1);
      if prevTerm.Failure? {
        return prevTerm.error, None;
      }
      var order := AppendRequest(hard.currentTerm, id, next - 1, prevTerm.value, [], log.commitIndex);
      if next <= log.LastIndex() {
        var entries := log.GetEntries(next, log.LastIndex() + 1);
        order := order.(entries := entries.value);
      }
      StageMessage(target, AppendOrder(order), true, if next <= log.LastIndex() then log.LastIndex() else 0);
      assert order.entries == log.full[next - 1..];
      return Ok, Some(order);
    }

    method BuildInstallSnapshot(target: NodeId) returns (status: Status, request: Option<SnapshotRequest>)
      requires Valid()
      modifies this
      ensures Valid()
      ensures (status, State(), request) == old(State()).BuildInstallSnapshot(target)
    {
      hide Settled, ActiveVoters, Distinct, SetOf, WellNumbered, Outbox.Stage;
      if role != Leader || target == id {
        return InvalidArgument, None;
      }
      if log.snapshotIndex == 0 || target !in progress {
        return NotFound, None;
      }
      if progress[target].nextIndex > log.snapshotIndex {
        return InvalidArgument, None;
      }
      var order := SnapshotRequest(hard.currentTerm, id, log.snapshotIndex, log.snapshotTerm, membership);
      StageMessage(target, SnapshotOrder(order), true, 0);
      return Ok, Some(order);
    }

    // -------------------------------------------------------------- replication, follower side

    method FindFirstIndexOfTerm(term: Term, hint: LogIndex) returns (first: LogIndex)
      requires log.Valid()
      ensures first == State().FirstIndexOfTerm(term, hint)
    {
      if hint == log.snapshotIndex && term == log.snapshotTerm {
        return hint;
      }
      var index: LogIndex := hint;
      while index > log.snapshotIndex
        invariant State().RunStart(term, hint) == State().RunStart(term, index)
      {
        var current := log.GetTerm(index);
        if current != Success(term) {
          break;
        }
        index := index - 1;
      }
      return index + 1;
    }

    method HandleAppendEntries(request: AppendRequest) returns (status: Status, response: Option<AppendResponse>)
      requires Valid()
      modifies this, log
      ensures Valid()
      ensures (status, State(), response) == old(State()).HandleAppendEntries(request)
    {
      hide Node.Valid, WellNumbered, Outbox.Stage, Node.Accept, Node.Mismatch;
      AppendStaysValid(State(), request);
      if request.leaderId == 0 || (request.prevLogIndex > 0 && request.prevLogTerm == 0) {
        return InvalidArgument, None;
      }
      var before := hard;
      var reply := AppendResponse(hard.currentTerm, false, 0, 0, 0);
      if request.term < hard.currentTerm {
        StageMessage(request.leaderId, AppendReply(reply), false, 0);
        return Ok, Some(reply);
      }
      status := UpdateCurrentTerm(request.term);
      if role == Candidate {
        role := Follower;
      } else if role == Leader && request.leaderId != id {
        StageMessage(request.leaderId, AppendReply(reply), hard != before, 0);
        return Ok, Some(reply);
      }
      status, response := HearLeader(request, before);
    }

    /** The rest of `HandleAppendEntries`, once the sender is accepted as the leader of the term. */
    method HearLeader(request: AppendRequest, before: HardState) returns (status: Status, response: Option<AppendResponse>)
      requires log.Valid()
      modifies this, log
      ensures log.Valid()
      ensures var f := old(State()).(leaderId := request.leaderId, electionElapsed := 0);
              (status, State(), response)
              == if !f.log.Matches(request.prevLogIndex, request.prevLogTerm)
                 then f.Answer(request, f.Mismatch(request.prevLogIndex), before, 0)
                 else f.Accept(request, before)
    {
      hide WellNumbered, Outbox.Stage, Node.Accept, Node.Mismatch;
      leaderId := request.leaderId;
      electionElapsed := 0;
      var matches := log.Matches(request.prevLogIndex, request.prevLogTerm);
      if !matches {
        var reply := DescribeMismatch(request.prevLogIndex);
        StageMessage(request.leaderId, AppendReply(reply), hard != before, 0);
        return Ok, Some(reply);
      }
      status, response := AcceptEntries(request, before);
    }

    method DescribeMismatch(prev: LogIndex) returns (reply: AppendResponse)
      requires log.Valid()
      ensures reply == State().Mismatch(prev)
    {
      reply := AppendResponse(hard.currentTerm, false, 0, Min(prev, log.LastIndex() + 1), 0);
      if prev > log.LastIndex() {
        return reply.(conflictIndex := log.LastIndex() + 1);
      }
      var term := log.GetTerm(prev);
      if term.Failure? {
        return reply.(conflictIndex := log.FirstIndex(), conflictTerm := log.snapshotTerm);
      }
      var first := FindFirstIndexOfTerm(term.value, prev);
      return reply.(conflictIndex := first, conflictTerm := term.value);
    }

    method AcceptEntries(request: AppendRequest, before: HardState)
      returns (status: Status, response: Option<AppendResponse>)
      requires log.Valid()
      modifies this`hard, this`progress, this`immediate, this`pending, log
      ensures log.Valid()
      ensures (status, State(), response) == old(State()).Accept(request, before)
    {
      hide WellNumbered, Outbox.Stage;
      var lastBefore := log.LastIndex();
      status := MergeEntries(request.entries);
      if status != Ok {
        return status, None;
      }
      var target := Min(request.leaderCommit, log.LastIndex());
      if target > log.commitIndex {
        status := log.AdvanceCommitTo(target);
        hard := hard.(commitIndex := log.commitIndex);
      }
      SyncLocalPeerProgress();
      var reply := AppendResponse(hard.currentTerm, true, log.LastIndex(), 0, 0);
      StageMessage(request.leaderId, AppendReply(reply), hard != before,
                   if log.LastIndex() > lastBefore then log.LastIndex() else 0);
      return Ok, Some(reply);
    }

    method MergeEntries(entries: seq<LogEntry>) returns (status: Status)
      requires log.Valid()
      modifies log
      ensures log.Valid()
      ensures (status, log.State()) == Merge(old(log.State()), entries)
      ensures log.commitIndex == old(log.commitIndex) && log.stableIndex <= old(log.stableIndex)
    {
      if entries == [] {
        return Ok;
      }
      var conflict := log.FindConflict(entries);
      if conflict.Failure? {
        return conflict.error;
      }
      if conflict.value.ConflictAt? {
        status := log.TruncateSuffix(conflict.value.index);
        if status != Ok {
          return;
        }
      }
      if conflict.value == NoConflict {
        return Ok;
      }
      assert conflict.value.index - entries[0].index == HeldPrefix(old(log.State()), entries);
      status := log.Append(entries[conflict.value.index - entries[0].index..]);
    }

    // -------------------------------------------------------------- the commit rule

    method CountMatching(ids: seq<NodeId>, index: LogIndex) returns (count: nat)
      ensures count == State().Matching(ids, index)
    {
      count := 0;
      assert ids[0..] == ids;
      for i := 0 to |ids|
        invariant count + State().Matching(ids[i..], index) == State().Matching(ids, index)
      {
        assert ids[i..][0] == ids[i] && ids[i..][1..] == ids[i + 1..];
        if ids[i] in progress && progress[ids[i]].matchIndex >= index {
          count := count + 1;
        }
      }
    }

    method HasJointQuorumAt(index: LogIndex) returns (quorum: bool)
      requires ValidMembership(membership)
      ensures quorum == (State().Quorum(Listing(Ids(membership.voters)), index)
                         && State().Quorum(Listing(Ids(membership.nextVoters)), index))
    {
      hide ValidMembership, Listing, Ids;
      var oldVoters := MembershipVoters(membership, false);
      var newVoters := MembershipVoters(membership, true);
      var oldCount := CountMatching(oldVoters, index);
      var newCount := CountMatching(newVoters, index);
      return oldCount >= |oldVoters| / 2 + 1 && newCount >= |newVoters| / 2 + 1;
    }

    static method MembershipVoters(m: Membership, next: bool) returns (ids: seq<NodeId>)
      requires ValidMembership(m)
      ensures ids == Listing(Ids(if next then m.nextVoters else m.voters))
    {
      ids := MemberIds(if next then m.nextVoters else m.voters);
    }

    /** Simple majority of the voters; a voter without a progress entry is an error. */
    method HasVoterQuorumAt(index: LogIndex) returns (quorum: Result<bool>)
      ensures quorum == if exists v :: v in voters && v !in progress then Failure(NotFound)
                        else Success(State().Quorum(voters, index))
    {
      var matches := 0;
      assert voters[0..] == voters;
      for i := 0 to |voters|
        invariant forall v :: v in voters[..i] ==> v in progress
        invariant matches + State().Matching(voters[i..], index) == State().Matching(voters, index)
      {
        assert voters[i..][0] == voters[i] && voters[i..][1..] == voters[i + 1..];
        assert voters[..i + 1] == voters[..i] + [voters[i]];
        if voters[i] !in progress {
          return Failure(NotFound);
        }
        if progress[voters[i]].matchIndex >= index {
          matches := matches + 1;
        }
      }
      assert voters[..|voters|] == voters;
      return Success(matches >= |voters| / 2 + 1);
    }

    method TryAdvanceCommitIndex() returns (status: Status)
      requires log.Valid() && (membership.inTransition ==> ValidMembership(membership))
      modifies this`hard, log
      ensures log.Valid()
      ensures (status, State()) == old(State()).TryAdvanceCommit()
    {
      hide ValidMembership, WellNumbered, Listing, Ids, Node.Quorum;
      var candidate: LogIndex := log.LastIndex();
      ghost var before := State();
      while candidate > log.commitIndex
        invariant log.Valid() && State() == before && candidate <= log.LastIndex()
        invariant before.SearchCommit(log.LastIndex()) == before.SearchCommit(candidate)
      {
        var term := log.GetTerm(candidate);
        if term != Success(hard.currentTerm) {
          candidate := candidate - 1;
          continue;
        }
        var supported: bool;
        if membership.inTransition {
          supported := HasJointQuorumAt(candidate);
        } else {
          var quorum := HasVoterQuorumAt(candidate);
          if quorum.Failure? {
            return quorum.error;
          }
          supported := quorum.value;
        }
        if !supported {
          candidate := candidate - 1;
          continue;
        }
        status := log.AdvanceCommitTo(candidate);
        hard := hard.(commitIndex := log.commitIndex);
        return Ok;
      }
      return Ok;
    }

    // -------------------------------------------------------------- responses

    method FindLastIndexOfTerm(term: Term) returns (last: LogIndex)
      requires log.Valid()
      ensures last == State().LastIndexOfTerm(term, log.State().LastIndex())
    {
      var index: LogIndex := log.LastIndex();
      while index > log.snapshotIndex
        invariant log.snapshotIndex <= index <= log.LastIndex()
        invariant State().LastIndexOfTerm(term, log.State().LastIndex()) == State().LastIndexOfTerm(term, index)
      {
        var current := log.GetTerm(index);
        if current == Success(term) {
          return index;
        }
        if current.value < term {
          break;
        }
        index := index - 1;
      }
      return if term == log.snapshotTerm then log.snapshotIndex else 0;
    }

    method ClampPeerNextIndex(index: LogIndex) returns (clamped: LogIndex)
      requires log.Valid()
      ensures clamped == State().ClampNext(index)
    {
      var minimum := if log.snapshotIndex > 0 then log.snapshotIndex else log.FirstIndex();
      var maximum := log.LastIndex() + 1;
      return if index < minimum then minimum else if index > maximum then maximum else index;
    }

    method HandleAppendResponse(source: NodeId, response: AppendResponse) returns (status: Status, action: AppendAction)
      requires Valid()
      modifies this, log
      ensures Valid()
      ensures (status, State(), action) == old(State()).HandleAppendResponse(source, response)
    {
      hide Node.Valid, WellNumbered, Node.TryAdvanceCommit, Node.LastIndexOfTerm;
      ResponseStaysValid(State(), source, response);
      if source == 0 || (source !in voters && source !in learners) {
        return InvalidArgument, NoAppendAction;
      }
      if response.success && response.matchIndex == 0 && log.LastIndex() != 0 {
        return InvalidArgument, NoAppendAction;
      }
      if !response.success && response.term == hard.currentTerm && response.conflictIndex == 0 {
        return InvalidArgument, NoAppendAction;
      }
      if response.term < hard.currentTerm {
        return Ok, NoAppendAction;
      }
      if response.term > hard.currentTerm {
        if role == Learner {
          status := UpdateCurrentTerm(response.term);
        } else {
          status := BecomeFollowerForRemote(response.term, 0);
        }
        return Ok, AppendStepDown;
      }
      if role != Leader {
        return Ok, NoAppendAction;
      }
      if source !in progress {
        return NotFound, NoAppendAction;
      }
      var p := progress[source].(isActive := true);
      if response.success {
        if response.matchIndex > log.LastIndex() {
          progress := progress[source := p];
          return InvalidArgument, NoAppendAction;
        }
        if response.matchIndex > p.matchIndex {
          p := p.(matchIndex := response.matchIndex);
        }
        p := p.(nextIndex := Max(p.nextIndex, p.matchIndex + 1));
        progress := progress[source := p];
        status := TryAdvanceCommitIndex();
        return status, if status == Ok then Accepted else NoAppendAction;
      }
      var next := response.conflictIndex;
      if response.conflictTerm != 0 {
        var local := FindLastIndexOfTerm(response.conflictTerm);
        if local != 0 {
          next := local + 1;
        }
      }
      next := ClampPeerNextIndex(next);
      progress := progress[source := p.(nextIndex := Min(p.nextIndex, next))];
      return Ok, Rejected;
    }

    /** A joint membership in force is a valid one. */
    lemma NeededForCommit()
      requires membership == NO_MEMBERSHIP || Settled(membership)
      ensures membership.inTransition ==> ValidMembership(membership)
    {
    }

    method HandleSnapshotResponse(source: NodeId, response: SnapshotResponse) returns (status: Status)
      requires Valid()
      modifies this
      ensures Valid()
      ensures (status, State()) == old(State()).HandleSnapshotResponse(source, response)
    {
      hide Settled, ActiveVoters, Distinct, SetOf, WellNumbered;
      if source == 0 {
        return InvalidArgument;
      }
      if response.term < hard.currentTerm {
        return Ok;
      }
      if response.term > hard.currentTerm {
        status := BecomeFollowerForRemote(response.term, 0);
        return;
      }
      if role != Leader {
        return Ok;
      }
      if !response.success || response.lastIncludedIndex > log.snapshotIndex {
        return InvalidArgument;
      }
      if source !in progress {
        return NotFound;
      }
      var p := progress[source].(isActive := true);
      if response.lastIncludedIndex > p.matchIndex {
        p := p.(matchIndex := response.lastIncludedIndex);
      }
      progress := progress[source := p.(nextIndex := Max(p.nextIndex, p.matchIndex + 1))];
      return Ok;
    }

    // -------------------------------------------------------------- proposals

    method AppendOwn(kind: EntryKind, payload: Bytes) returns (status: Status)
      requires Valid()
      modifies this, log
      ensures Valid()
      ensures (status, State()) == old(State()).AppendOwn(kind, payload)
    {
      hide Settled, ActiveVoters, Distinct, SetOf, WellNumbered, Node.SearchCommit;
      AppendOwnContinues(State(), kind, payload);
      var entry := LogEntry(log.LastIndex() + 1, hard.currentTerm, kind, payload);
      status := log.Append([entry]);
      if status != Ok {
        return;
      }
      if id in progress {
        progress := progress[id := progress[id].(matchIndex := entry.index, nextIndex := entry.index + 1)];
      }
      NeededForCommit();
      status := TryAdvanceCommitIndex();
    }

    method Propose(payload: Bytes) returns (status: Status)
      requires Valid()
      modifies this, log
      ensures Valid()
      ensures (status, State()) == old(State()).Propose(payload)
    {
      hide Settled, ActiveVoters, Distinct, SetOf, WellNumbered, Node.AppendOwn;
      if role != Leader {
        return InvalidArgument;
      }
      status := AppendOwn(Command, payload);
    }

    method HasPendingMembershipChange() returns (waiting: bool)
      requires Valid()
      ensures waiting <==> State().PendingChange()
    {
      hide Settled, ActiveVoters, Distinct, SetOf;
      for index := log.appliedIndex + 1 to log.LastIndex() + 1
        invariant forall k :: log.appliedIndex <= k < index - 1 ==> log.full[k].kind != MembershipChange
      {
        var entry := log.GetEntry(index);
        if entry.Success? && entry.value.kind == MembershipChange {
          assert log.full[index - 1].kind == MembershipChange;
          return true;
        }
      }
      return false;
    }

    method HasCommittedVoterQuorum() returns (quorum: bool)
      ensures quorum <==> State().ActiveCount(voters) >= |voters| / 2 + 1
    {
      var active := 0;
      assert voters[0..] == voters;
      for i := 0 to |voters|
        invariant active + State().ActiveCount(voters[i..]) == State().ActiveCount(voters)
      {
        assert voters[i..][0] == voters[i] && voters[i..][1..] == voters[i + 1..];
        if voters[i] == id || (voters[i] in progress && progress[voters[i]].isActive) {
          active := active + 1;
        }
      }
      return active >= |voters| / 2 + 1;
    }

    /** The status the four membership proposals give before they look at the membership itself. */
    method CheckProposal(change: Change) returns (status: Status)
      requires Valid()
      ensures status == State().Refusal(change)
    {
      hide Settled, ActiveVoters, Distinct, SetOf, WellNumbered, Node.PendingChange, Node.ActiveCount;
      if role != Leader || change == PromoteLearner(0) || change == RemoveMember(0) {
        return InvalidArgument;
      }
      if change == Finalize && !membership.inTransition {
        return InvalidArgument;
      }
      var waiting := HasPendingMembershipChange();
      if waiting {
        return Busy;
      }
      if change.PromoteLearner? || change.RemoveMember? {
        var quorum := HasCommittedVoterQuorum();
        if !quorum {
          return Busy;
        }
      }
      if change.PromoteLearner? {
        if change.learnerId !in progress {
          return NotFound;
        }
        var p := progress[change.learnerId];
        if !p.isLearner {
          return InvalidArgument;
        }
        if p.nextIndex <= log.snapshotIndex || !p.isActive || p.matchIndex < log.commitIndex {
          return Busy;
        }
      }
      return Ok;
    }

    method ProposeChange(change: Change) returns (status: Status)
      requires Valid()
      modifies this, log
      ensures Valid()
      ensures (status, State()) == old(State()).ProposeChange(change)
    {
      hide Settled, ActiveVoters, Distinct, SetOf, WellNumbered, Node.Refusal, Node.AppendOwn, Build, Codec.Encode;
      status := CheckProposal(change);
      if status != Ok {
        return;
      }
      var entry := BuildEntry(membership, change);
      if entry.Failure? {
        return entry.error;
      }
      var payload := Codec.EncodeEntry(entry.value);
      if payload.Failure? {
        return payload.error;
      }
      status := AppendOwn(MembershipChange, payload.value);
    }

    // -------------------------------------------------------------- membership and compaction

    /** Decodes the entry and applies it to a copy of the membership. */
    static method NextMembership(current: Membership, entry: LogEntry) returns (next: Result<Membership>)
      requires entry.kind == MembershipChange && (current == NO_MEMBERSHIP || Settled(current))
      ensures var decoded := Codec.Decode(entry.payload);
              next == if decoded.Failure? then decoded else ApplyEntry(current, decoded.value)
      ensures next.Success? ==> ValidMembership(next.value)
    {
      hide Settled, ValidMembership, ApplyEntry, Codec.Decode;
      var decoded := Codec.DecodeEntry(entry.payload);
      if decoded.Failure? {
        return decoded;
      }
      var candidate := new MembershipState();
      candidate.view := current;
      var status := candidate.ApplyCommitted(decoded.value);
      if status != Ok {
        return Failure(status);
      }
      AppliedIsValid(current, decoded.value);
      next := Success(candidate.view);
    }

    method ApplyMembershipEntry(entry: LogEntry) returns (status: Status)
      requires Valid()
      modifies this
      ensures Valid()
      ensures (status, State()) == old(State()).ApplyMembershipEntry(entry)
    {
      hide Settled, ActiveVoters, AppliedLearners, Distinct, SetOf, WellNumbered, Listing, ValidMembership, ApplyEntry,
           Codec.Decode;
      ApplyMembershipContinues(State(), entry);
      if entry.kind != MembershipChange {
        return InvalidArgument;
      }
      var next := NextMembership(membership, entry);
      if next.Failure? {
        return next.error;
      }
      AdoptApplied(next.value);
      RetargetPeerProgress();
      SyncLocalPeerProgress();
      if id !in voters || id in learners {
        Demote();
      }
      return Ok;
    }

    /** An applied membership comes into force, with the id vectors derived inline. */
    method AdoptApplied(m: Membership)
      requires ValidMembership(m)
      modifies this`membership, this`voters, this`learners, this`hard
      ensures State() == old(State()).(membership := m, voters := Listing(ActiveVoters(m)),
                                       learners := Listing(AppliedLearners(m)),
                                       hard := old(hard).(configurationId := m.configurationId))
    {
      hide Listing, ActiveVoters, AppliedLearners, ValidMembership;
      membership := m;
      voters, learners := AppliedIds(m);
      hard := hard.(configurationId := m.configurationId);
    }

    method Demote()
      modifies this`role, this`leaderId, this`hard, this`electionElapsed
      ensures State() == old(State()).Demoted()
    {
      role := Learner;
      leaderId := 0;
      hard := hard.(votedFor := 0);
      electionElapsed := 0;
    }

    method UpdateSnapshotBoundary(index: LogIndex, term: Term, view: Membership) returns (status: Status)
      requires Valid()
      modifies this, log
      ensures Valid()
      ensures (status, State()) == old(State()).UpdateSnapshotBoundary(index, term, view)
    {
      hide Settled, ActiveVoters, TransitionLearners, Distinct, SetOf, WellNumbered, Listing, ValidMembership,
           SortMembers, Node.Retargeted;
      SnapshotContinues(State(), index, term, view);
      status := log.UpdateSnapshotBoundary(index, term);
      if status != Ok {
        return;
      }
      if view.configurationId != 0 {
        status := ValidateMembership(view);
        if status != Ok {
          return;
        }
        AdoptMembership(view);
      }
      UpdatePeerProgressForMembership();
      if id !in voters && id !in learners {
        Demote();
      }
      return Ok;
    }
  }

  lemma AppliedIsValid(m: Membership, entry: Membership)
    requires m == NO_MEMBERSHIP || Settled(m)
    requires ApplyEntry(m, entry).Success?
    ensures ValidMembership(ApplyEntry(m, entry).value)
  {
    ApplyEntryFacts(m, entry);
  }

  /** Sorting two vectors of distinct ids and comparing them compares the sets. */
  lemma SameIdsIff(ids: seq<NodeId>, listed: seq<NodeId>, s: set<NodeId>)
    requires Distinct(ids) && listed == Listing(s)
    ensures SortIds(ids) == listed <==> SetOf(ids) == s
  {
    SortIdsIsListing(ids, SetOf(ids));
    hide Listing, SortIds, Distinct;
    ListingFacts(s);
    ListingFacts(SetOf(ids));
  }
}
