/**
 What a membership change does, stated on sets of node ids: the configuration a builder drafts, the entry a
 leader proposes for it, and what applying it or installing a snapshot leaves of a node that it drops.
 */
module Reconfigurations {
  import opened Common
  import opened RaftTypes
  import opened IdSets
  import opened LogModel
  import opened MembershipRules
  import opened MembershipRuns
  import opened ActiveMembers
  import opened NodeModel
  import opened NodeRuns
  import opened CommitRule
  import Codec = MembershipCodec
  import Messages

  // ---------------------------------------------------------------- nodes in force

  /** The node votes: in the configuration, or in the one it is changing to. */
  ghost predicate VotesIn(m: Membership, id: NodeId) {
    id in Ids(m.voters) || (m.inTransition && id in Ids(m.nextVoters))
  }

  /** The node follows without voting: now, or from the change on. */
  ghost predicate LearnsIn(m: Membership, id: NodeId) {
    || (id in Ids(m.learners) && !(m.inTransition && id in Ids(m.nextVoters)))
    || (m.inTransition && id in Ids(m.nextLearners))
  }

  /** A node that is dropped: a learner without leader, vote and election timer. */
  ghost predicate SteppedDown(after: Node) {
    after.role == Learner && after.leaderId == 0 && after.hard.votedFor == 0 && after.electionElapsed == 0
  }

  ghost predicate SameStanding(n: Node, after: Node) {
    && after.role == n.role && after.leaderId == n.leaderId && after.hard.votedFor == n.hard.votedFor
    && after.electionElapsed == n.electionElapsed
  }

  /** Membership, standing and progress aside, nothing changes. */
  ghost predicate OnlyMembershipChanges(n: Node, after: Node) {
    after == n.(role := after.role, leaderId := after.leaderId, electionElapsed := after.electionElapsed,
                hard := n.hard.(votedFor := after.hard.votedFor, configurationId := after.hard.configurationId),
                voters := after.voters, learners := after.learners, membership := after.membership,
                progress := after.progress)
  }

  // ---------------------------------------------------------------- applying an entry

  lemma ApplyEntryIff(m: Membership, d: Membership)
    requires (m == NO_MEMBERSHIP || Settled(m)) && Settled(d)
    ensures ApplyEntry(m, d) == if m == NO_MEMBERSHIP || d.configurationId > m.configurationId || d == m
                                then Success(d) else Failure(InvalidArgument)
  {
    hide ValidMembership, SortMembers;
  }

  /** An entry can be applied if and only if it decodes to a newer configuration, or to the one in force. */
  lemma EntryAppliesIff(n: Node, entry: LogEntry)
    requires n.Valid()
    ensures n.ApplyMembershipEntry(entry).0 == Ok
            <==> && entry.kind == MembershipChange && Codec.Decode(entry.payload).Success?
                 && var d := Codec.Decode(entry.payload).value;
                    n.membership == NO_MEMBERSHIP || d.configurationId > n.membership.configurationId || d == n.membership
    ensures n.ApplyMembershipEntry(entry).0 != Ok ==> n.ApplyMembershipEntry(entry).1 == n
    ensures n.ApplyMembershipEntry(entry).0 == Corruption
            <==> entry.kind == MembershipChange && Codec.Decode(entry.payload).Failure?
    ensures n.ApplyMembershipEntry(entry).0 in {Ok, Corruption, InvalidArgument}
  {
    hide Settled, ActiveVoters, AppliedLearners, Listing, Distinct, SetOf, WellNumbered, ApplyEntry, Codec.Decode;
    var decoded := Codec.Decode(entry.payload);
    UndecodedIsCorrupt(entry.payload);
    if decoded.Success? {
      Codec.DecodedIsSettled(entry.payload);
      ApplyEntryIff(n.membership, decoded.value);
    }
  }

  /**
   After it, the node votes and learns with exactly the nodes of the decoded configuration, and steps down,
   whatever it was, exactly when it is no voter of it.
   */
  lemma AppliedEntryLeaves(n: Node, entry: LogEntry)
    requires n.Valid() && n.ApplyMembershipEntry(entry).0 == Ok
    ensures Codec.Decode(entry.payload).Success?
    ensures var after, d := n.ApplyMembershipEntry(entry).1, Codec.Decode(entry.payload).value;
            && after.membership == d && after.hard.configurationId == d.configurationId
            && (forall id :: id in after.voters <==> VotesIn(d, id))
            && (forall id :: id in after.learners <==> LearnsIn(d, id) && !VotesIn(d, id))
            && (VotesIn(d, n.id) ==> SameStanding(n, after))
            && (!VotesIn(d, n.id) ==> SteppedDown(after))
            && OnlyMembershipChanges(n, after)
  {
    hide Settled, Listing, Distinct, SetOf, WellNumbered, ApplyEntry, Codec.Decode, ValidMembership, Ids, Node.SyncLocal;
    UndecodedIsCorrupt(entry.payload);
    var d := Codec.Decode(entry.payload).value;
    Codec.DecodedIsSettled(entry.payload);
    ApplyEntryIff(n.membership, d);
    SettledIsValid(d);
    DerivationsAgreeIff(d);
    ListingFacts(ActiveVoters(d));
    ListingFacts(AppliedLearners(d));
    LearnersInForce(d);
    SyncLocalFrame(n.(membership := d, voters := Listing(ActiveVoters(d)), learners := Listing(AppliedLearners(d)),
                      hard := n.hard.(configurationId := d.configurationId)));
  }

  lemma UndecodedIsCorrupt(payload: Bytes)
    ensures Codec.Decode(payload).Failure? ==> Codec.Decode(payload).error == Corruption
  {
  }

  lemma SettledIsValid(m: Membership)
    requires Settled(m)
    ensures ValidMembership(m)
  {
  }

  lemma LearnersInForce(m: Membership)
    requires ValidMembership(m)
    ensures forall id :: id in AppliedLearners(m) <==> LearnsIn(m, id) && !VotesIn(m, id)
    ensures forall id :: id in TransitionLearners(m) <==> LearnsIn(m, id)
    ensures forall id :: id in ActiveVoters(m) <==> VotesIn(m, id)
  {
    hide Ids;
    assert Ids(m.voters) !! Ids(m.learners);
  }

  lemma SyncLocalFrame(n: Node)
    ensures forall progress :: n.(progress := progress).SyncLocal()
                               == n.(progress := n.(progress := progress).SyncLocal().progress)
  {
  }

  /** Peers that stay keep what is known of them, new ones start at the end of the log, and the node knows itself. */
  ghost predicate ProgressCarried(n: Node, after: Node) {
    forall p :: p in after.progress ==>
      var q := after.progress[p];
      if p == n.id then q.isActive && q.matchIndex == |after.log.full| && q.nextIndex == |after.log.full| + 1
      else if p in n.progress
      then && q.isActive == n.progress[p].isActive && q.matchIndex == n.progress[p].matchIndex
           && q.nextIndex == n.progress[p].nextIndex
      else !q.isActive && q.matchIndex == 0 && q.nextIndex == |after.log.full| + 1
  }

  lemma KeptCarried(n: Node, m: Node)
    requires m.id == n.id && m.progress == n.progress
    ensures ProgressCarried(n, m.(progress := map peer | peer in m.Peers() :: m.Kept(peer)).SyncLocal())
  {
    hide SetOf;
  }

  lemma AppliedEntryCarriesProgress(n: Node, entry: LogEntry)
    requires n.Valid() && n.ApplyMembershipEntry(entry).0 == Ok
    ensures ProgressCarried(n, n.ApplyMembershipEntry(entry).1)
  {
    hide Settled, Listing, Distinct, SetOf, WellNumbered, ApplyEntry, Codec.Decode, ValidMembership, ActiveVoters,
         AppliedLearners, ProgressCarried, Node.Kept, Node.SyncLocal;
    UndecodedIsCorrupt(entry.payload);
    var d := Codec.Decode(entry.payload).value;
    Codec.DecodedIsSettled(entry.payload);
    ApplyEntryIff(n.membership, d);
    var m := n.(membership := d, voters := Listing(ActiveVoters(d)), learners := Listing(AppliedLearners(d)),
                hard := n.hard.(configurationId := d.configurationId));
    KeptCarried(n, m);
    DemotedCarries(n, m.(progress := map peer | peer in m.Peers() :: m.Kept(peer)).SyncLocal());
  }

  lemma DemotedCarries(n: Node, m: Node)
    requires ProgressCarried(n, m)
    ensures ProgressCarried(n, m.Demoted())
  {
  }

  // ---------------------------------------------------------------- installing a boundary

  /** The boundary is applied, not behind the old one, and has the term of its entry. */
  ghost predicate GoodBoundary(s: LogState, index: LogIndex, term: Term) {
    && s.snapshotIndex <= index <= s.appliedIndex && index <= |s.full|
    && (if index == 0 then term == 0 else term > 0 && s.full[index - 1].term == term)
  }

  /** Compaction is accepted if and only if the boundary is good and the membership, if there is one, is valid. */
  lemma BoundaryAcceptedIff(n: Node, index: LogIndex, term: Term, view: Membership)
    requires n.Valid()
    ensures var (status, after) := n.UpdateSnapshotBoundary(index, term, view);
            && (status == Ok
                <==> GoodBoundary(n.log, index, term) && (view.configurationId != 0 ==> ValidMembership(view)))
            && (status != Ok && !GoodBoundary(n.log, index, term) ==> after == n)
            && (GoodBoundary(n.log, index, term) ==>
                  after.log == n.log.(snapshotIndex := index, stableIndex := Max(n.log.stableIndex, index)))
            && (status != Ok ==> after == n.(log := after.log))
  {
    hide Settled, ActiveVoters, TransitionLearners, Listing, Distinct, SetOf, WellNumbered, ValidMembership, SortMembers,
         Node.Retargeted;
    BoundaryFacts(n.log, index, term);
    var compacted := n.(log := n.log.UpdateSnapshotBoundary(index, term).1);
    RetargetedFacts(compacted);
    var s := Sorted(view);
    RetargetedFacts(compacted.(membership := s, voters := Listing(ActiveVoters(s)),
                               learners := Listing(TransitionLearners(s)),
                               hard := n.hard.(configurationId := s.configurationId)));
  }

  lemma BoundaryFacts(s: LogState, index: LogIndex, term: Term)
    requires s.Valid()
    ensures s.UpdateSnapshotBoundary(index, term)
            == if GoodBoundary(s, index, term)
               then (Ok, s.(snapshotIndex := index, stableIndex := Max(s.stableIndex, index)))
               else (InvalidArgument, s)
  {
  }

  /** A node that tracks peers carries their progress over; one that tracks none starts afresh. */
  lemma BoundaryCarriesProgress(n: Node, index: LogIndex, term: Term, view: Membership)
    requires n.Valid() && n.UpdateSnapshotBoundary(index, term, view).0 == Ok && n.progress != map[]
    ensures ProgressCarried(n, n.UpdateSnapshotBoundary(index, term, view).1)
  {
    hide Settled, ActiveVoters, TransitionLearners, Listing, Distinct, SetOf, WellNumbered, ValidMembership, SortMembers,
         Node.Kept, Node.SyncLocal, ProgressCarried, Node.Peers;
    var compacted := n.(log := n.log.UpdateSnapshotBoundary(index, term).1);
    var s := Sorted(view);
    var m := if view.configurationId != 0
      then compacted.(membership := s, voters := Listing(ActiveVoters(s)), learners := Listing(TransitionLearners(s)),
                      hard := n.hard.(configurationId := s.configurationId))
      else compacted;
    KeptCarried(n, m);
    DemotedCarries(n, m.Retargeted());
  }

  /**
   With a membership in the snapshot the node takes its voters and learners, and steps down exactly when it is
   neither; without one it keeps its own and steps down exactly when it is in neither of them. Unlike after an
   applied entry, a node that is listed as a learner keeps its role.
   */
  lemma BoundaryLeaves(n: Node, index: LogIndex, term: Term, view: Membership)
    requires n.Valid() && n.UpdateSnapshotBoundary(index, term, view).0 == Ok
    ensures var after := n.UpdateSnapshotBoundary(index, term, view).1;
            var listed := if view.configurationId != 0 then VotesIn(view, n.id) || LearnsIn(view, n.id)
                          else n.id in n.voters || n.id in n.learners;
            && (if view.configurationId != 0
                then && after.membership == Sorted(view) && after.hard.configurationId == view.configurationId
                     && (forall id :: id in after.voters <==> VotesIn(view, id))
                     && (forall id :: id in after.learners <==> LearnsIn(view, id))
                else && after.membership == n.membership && after.hard.configurationId == n.hard.configurationId
                     && after.voters == n.voters && after.learners == n.learners)
            && (listed ==> SameStanding(n, after))
            && (!listed ==> SteppedDown(after))
            && OnlyMembershipChanges(n.(log := after.log), after)
  {
    hide Settled, ActiveVoters, TransitionLearners, Listing, Distinct, SetOf, WellNumbered, ValidMembership, SortMembers,
         Node.Retargeted, Ids, LogState.UpdateSnapshotBoundary, VotesIn, LearnsIn;
    BoundaryAcceptedIff(n, index, term, view);
    var compacted := n.(log := n.log.UpdateSnapshotBoundary(index, term).1);
    RetargetedFacts(compacted);
    if view.configurationId != 0 {
      var s := Sorted(view);
      SortedInForce(view);
      ListingFacts(ActiveVoters(s));
      ListingFacts(TransitionLearners(s));
      RetargetedFacts(compacted.(membership := s, voters := Listing(ActiveVoters(s)),
                                 learners := Listing(TransitionLearners(s)),
                                 hard := n.hard.(configurationId := s.configurationId)));
    }
  }

  lemma SortedInForce(m: Membership)
    requires ValidMembership(m)
    ensures forall id :: id in ActiveVoters(Sorted(m)) <==> VotesIn(m, id)
    ensures forall id :: id in TransitionLearners(Sorted(m)) <==> LearnsIn(m, id)
  {
    SortedFacts(m);
    LearnersInForce(Sorted(m));
    hide ValidMembership, SortMembers, Ids;
  }

  // ---------------------------------------------------------------- drafting a change

  ghost predicate AddressInUse(m: Membership, address: NodeAddress) {
    exists x: Member :: (x in m.voters || x in m.learners) && x.address == address
  }

  /** What a change asks of the configuration it starts from. */
  ghost predicate Possible(m: Membership, change: Change) {
    match change
    case AddLearner(learner) =>
      && !m.inTransition && GoodMember(learner) && !AddressInUse(m, learner.address)
      && learner.id !in Ids(m.voters) && learner.id !in Ids(m.learners)
    case PromoteLearner(id) => !m.inTransition && id in Ids(m.learners)
    case RemoveMember(id) =>
      !m.inTransition && (id in Ids(m.learners) || (id in Ids(m.voters) && exists x :: x in m.voters && x.id != id))
    case Finalize => m.inTransition
  }

  /** The members of a list, whatever their order. */
  ghost predicate Lists(members: seq<Member>, wanted: set<Member>) {
    forall x :: x in members <==> x in wanted
  }

  ghost function With(members: seq<Member>, id: NodeId): set<Member> {
    set x | x in members && x.id == id
  }

  ghost function Without(members: seq<Member>, id: NodeId): set<Member> {
    set x | x in members && x.id != id
  }

  ghost function Members(members: seq<Member>): set<Member> {
    set x | x in members
  }

  /** The configuration a change leads to. */
  ghost predicate LeadsTo(m: Membership, change: Change, next: Membership) {
    match change
    case AddLearner(learner) =>
      !next.inTransition && Lists(next.voters, Members(m.voters)) && Lists(next.learners, Members(m.learners) + {learner})
    case PromoteLearner(id) =>
      && next.inTransition && Lists(next.voters, Members(m.voters)) && Lists(next.learners, Members(m.learners))
      && Lists(next.nextVoters, Members(m.voters) + With(m.learners, id))
      && Lists(next.nextLearners, Without(m.learners, id))
    case RemoveMember(id) =>
      && Lists(next.voters, Members(m.voters))
      && if id in Ids(m.voters)
         then next.inTransition && Lists(next.learners, Members(m.learners))
              && Lists(next.nextVoters, Without(m.voters, id)) && Lists(next.nextLearners, Members(m.learners))
         else !next.inTransition && Lists(next.learners, Without(m.learners, id))
    case Finalize =>
      !next.inTransition && Lists(next.voters, Members(m.nextVoters)) && Lists(next.learners, Members(m.nextLearners))
  }

  lemma AddressInUseIff(m: Membership, address: NodeAddress)
    ensures AddressInUse(m, address) <==> UsesAddress(m.voters, address) || UsesAddress(m.learners, address)
  {
    if AddressInUse(m, address) {
      var x: Member :| (x in m.voters || x in m.learners) && x.address == address;
      if x in m.voters {
        var k :| 0 <= k < |m.voters| && m.voters[k] == x;
      } else {
        var k :| 0 <= k < |m.learners| && m.learners[k] == x;
      }
    }
  }

  lemma OtherVoterIff(m: Membership, id: NodeId)
    requires ValidMembership(m) && id in Ids(m.voters)
    ensures |m.voters| > 1 <==> exists x :: x in m.voters && x.id != id
  {
    if |m.voters| > 1 {
      assert m.voters[0].id != m.voters[1].id;
      assert m.voters[0] in m.voters && m.voters[1] in m.voters;
    }
  }

  lemma MemberIsGood(members: seq<Member>, id: NodeId)
    requires GoodMembers(members) && id in Ids(members)
    ensures id != 0
  {
  }

  /** The checks of the four builders, on sets of ids: nothing else turns a change down. */
  lemma ChangePossibleIff(m: Membership, change: Change)
    requires Settled(m)
    ensures Changed(m, change).Success? <==> Possible(m, change)
  {
    hide SortMembers, GoodMembers, ApplyEntry, Build;
    ChangeNeverRefusedLater(m, change);
    match change
    case AddLearner(learner) =>
      AddressInUseIff(m, learner.address);
      HasIdIffInIds(m.voters, learner.id);
      HasIdIffInIds(m.learners, learner.id);
    case PromoteLearner(id) =>
      HasIdIffInIds(m.voters, id);
      HasIdIffInIds(m.learners, id);
      if id in Ids(m.learners) {
        MemberIsGood(m.learners, id);
      }
    case RemoveMember(id) =>
      HasIdIffInIds(m.voters, id);
      HasIdIffInIds(m.learners, id);
      if id in Ids(m.learners) {
        MemberIsGood(m.learners, id);
      }
      if id in Ids(m.voters) {
        MemberIsGood(m.voters, id);
        OtherVoterIff(m, id);
      }
    case Finalize =>
  }

  lemma PromotionLeadsTo(m: Membership, id: NodeId)
    requires ValidMembership(m) && Draft(m, PromoteLearner(id)).Success?
    ensures LeadsTo(m, PromoteLearner(id), Draft(m, PromoteLearner(id)).value)
  {
    ListsDistinct(m);
    hide GoodMembers, DistinctIds, Erase, ValidMembership, HasId;
    EraseFacts(m.learners, id);
    OnlyOneWith(m.learners, Find(m.learners, id).value);
  }

  lemma RemovalLeadsTo(m: Membership, id: NodeId)
    requires ValidMembership(m) && Draft(m, RemoveMember(id)).Success?
    ensures LeadsTo(m, RemoveMember(id), Draft(m, RemoveMember(id)).value)
  {
    ListsDistinct(m);
    hide GoodMembers, DistinctIds, Erase, ValidMembership, HasId;
    HasIdIffInIds(m.voters, id);
    EraseFacts(m.voters, id);
    EraseFacts(m.learners, id);
  }

  lemma DraftLeadsTo(m: Membership, change: Change)
    requires ValidMembership(m) && Draft(m, change).Success?
    ensures LeadsTo(m, change, Draft(m, change).value)
  {
    match change
    case PromoteLearner(id) => PromotionLeadsTo(m, id);
    case RemoveMember(id) => RemovalLeadsTo(m, id);
    case AddLearner(_) | Finalize => hide GoodMembers, ValidMembership, HasId;
  }

  lemma SortedLeadsTo(m: Membership, change: Change, c: Membership)
    requires LeadsTo(m, change, c)
    ensures LeadsTo(m, change, Sorted(c))
  {
    hide SortMembers, Members, With, Without, Ids;
    SortMembersFacts(c.voters);
    SortMembersFacts(c.learners);
  }

  /** What the drafted configuration consists of; building and applying it only sorts. */
  lemma ChangeLeadsTo(m: Membership, change: Change)
    requires Settled(m) && Changed(m, change).Success?
    ensures LeadsTo(m, change, Changed(m, change).value)
  {
    hide LeadsTo, ValidMembership, Draft, Sorted;
    ChangedIsSorted(m, change);
    SettledIsValid(m);
    DraftLeadsTo(m, change);
    SortedLeadsTo(m, change, Draft(m, change).value);
  }

  lemma ListsDistinct(m: Membership)
    requires ValidMembership(m)
    ensures DistinctIds(m.voters) && DistinctIds(m.learners)
  {
  }

  lemma ChangedIsSorted(m: Membership, change: Change)
    requires Settled(m) && Changed(m, change).Success?
    ensures Draft(m, change).Success? && Changed(m, change).value == Sorted(Draft(m, change).value)
  {
    ChangeFacts(m, change);
  }

  lemma OnlyOneWith(members: seq<Member>, x: Member)
    requires DistinctIds(members) && x in members
    ensures With(members, x.id) == {x}
  {
  }

  // ---------------------------------------------------------------- proposals

  /** The leader with one more entry of its own term at the end of its log. */
  ghost predicate Appended(n: Node, kind: EntryKind, payload: Bytes, after: Node) {
    && after.log.full == n.log.full + [LogEntry(|n.log.full| + 1, n.hard.currentTerm, kind, payload)]
    && after.progress.Keys == n.progress.Keys
    && (n.id in n.progress ==>
          after.progress[n.id] == n.progress[n.id].(matchIndex := |n.log.full| + 1, nextIndex := |n.log.full| + 2))
    && (forall p :: p in n.progress && p != n.id ==> after.progress[p] == n.progress[p])
    && after == n.(log := n.log.(full := after.log.full, commitIndex := after.log.commitIndex),
                   hard := n.hard.(commitIndex := after.log.commitIndex), progress := after.progress)
    && (after.log.commitIndex == n.log.commitIndex
        || Committable(after.(log := after.log.(commitIndex := n.log.commitIndex)), after.log.commitIndex))
    && forall i :: after.log.commitIndex < i ==>
         !Committable(after.(log := after.log.(commitIndex := n.log.commitIndex)), i)
  }

  lemma AppendOwnAppends(n: Node, kind: EntryKind, payload: Bytes)
    requires n.Valid() && n.AppendOwn(kind, payload).0 == Ok
    ensures Appended(n, kind, payload, n.AppendOwn(kind, payload).1)
  {
    hide Node.Valid, SomeVoterUntracked, Node.TryAdvanceCommit, Node.AppendOwn, Continues, Decides, Majority;
    AppendOwnFailsIff(n, kind, payload);
    AppendOwnOutcome(n, kind, payload);
    var entry := OwnEntry(n, kind, payload);
    var m := WithEntry(n, entry);
    WithEntryContinues(n, entry);
    ContinuesValid(n, m);
    SameVotersTracked(n, m);
    LeaderCommitRule(m);
    SameCommittable(m, m.TryAdvanceCommit().1);
    CommitStored(n);
  }

  lemma CommitStored(n: Node)
    requires n.Valid()
    ensures n.hard.commitIndex == n.log.commitIndex
  {
  }

  lemma SameCommittable(m: Node, after: Node)
    requires after == m.(log := m.log.(commitIndex := after.log.commitIndex),
                         hard := m.hard.(commitIndex := after.hard.commitIndex))
    ensures forall i :: Committable(after.(log := after.log.(commitIndex := m.log.commitIndex)), i) <==> Committable(m, i)
  {
    hide Decides, Majority;
    var back := after.(log := after.log.(commitIndex := m.log.commitIndex));
    forall i ensures Supporters(back, i) == Supporters(m, i) {}
  }

  /** A command is taken if and only if the node leads in a term and tracks its voters; it is then the last entry. */
  lemma ProposalOutcome(n: Node, payload: Bytes)
    requires n.Valid()
    ensures var (status, after) := n.Propose(payload);
            && (status == Ok <==> n.role == Leader && n.hard.currentTerm > 0 && !SomeVoterUntracked(n))
            && (status == Ok ==> Appended(n, Command, payload, after))
  {
    hide Node.Valid, SomeVoterUntracked, Appended, Node.AppendOwn;
    AppendOwnFailsIff(n, Command, payload);
    if n.AppendOwn(Command, payload).0 == Ok {
      AppendOwnAppends(n, Command, payload);
    }
  }

  /** The node itself, or a peer it has heard from. */
  ghost predicate Active(n: Node, id: NodeId) {
    id == n.id || (id in n.progress && n.progress[id].isActive)
  }

  ghost function ActiveAmong(n: Node, ids: seq<NodeId>): set<NodeId> {
    set v | v in ids && Active(n, v)
  }

  lemma ActiveOfCons(n: Node, first: NodeId, rest: seq<NodeId>)
    ensures ActiveAmong(n, [first] + rest) == ActiveAmong(n, rest) + if Active(n, first) then {first} else {}
  {
    hide Active;
    assert forall v :: v in [first] + rest <==> v == first || v in rest;
  }

  lemma {:induction false} ActiveCounts(n: Node, ids: seq<NodeId>)
    requires IdSets.Distinct(ids)
    ensures n.ActiveCount(ids) == |ActiveAmong(n, ids)|
  {
    if ids == [] {
      assert ActiveAmong(n, ids) == {};
    } else {
      var first, rest := ids[0], ids[1..];
      assert ids == [first] + rest;
      assert first !in ActiveAmong(n, rest);
      hide ActiveAmong, IdSets.Distinct;
      DistinctRest(ids);
      ActiveCounts(n, rest);
      ActiveOfCons(n, first, rest);
    }
  }

  lemma DistinctRest(ids: seq<NodeId>)
    requires IdSets.Distinct(ids) && ids != []
    ensures IdSets.Distinct(ids[1..])
  {
  }

  ghost predicate HasActiveMajority(n: Node) {
    |ActiveAmong(n, n.voters)| >= |n.voters| / 2 + 1
  }

  /** The learner follows actively, without a snapshot, and has everything that is committed. */
  ghost predicate LearnerReady(n: Node, id: NodeId) {
    && id in n.progress && n.progress[id].isLearner && n.progress[id].isActive
    && n.progress[id].nextIndex > n.log.snapshotIndex && n.progress[id].matchIndex >= n.log.commitIndex
  }

  /** No membership change waits to be applied. */
  ghost predicate NothingPending(n: Node) {
    forall k :: n.log.appliedIndex <= k < |n.log.full| ==> n.log.full[k].kind != MembershipChange
  }

  /** What the leader asks of itself and its peers before it drafts a change. */
  ghost predicate MayPropose(n: Node, change: Change) {
    && n.role == Leader && NothingPending(n)
    && match change
       case AddLearner(_) => true
       case PromoteLearner(id) => id != 0 && HasActiveMajority(n) && LearnerReady(n, id)
       case RemoveMember(id) => id != 0 && HasActiveMajority(n)
       case Finalize => n.membership.inTransition
  }

  lemma MayProposeIff(n: Node, change: Change)
    requires n.Valid()
    ensures n.Refusal(change) == Ok <==> MayPropose(n, change)
    ensures n.Refusal(change) == InvalidArgument
            <==> || n.role != Leader || change == PromoteLearner(0) || change == RemoveMember(0)
                 || (change == Finalize && !n.membership.inTransition)
                 || (&& change.PromoteLearner? && NothingPending(n) && HasActiveMajority(n)
                     && change.learnerId in n.progress && !n.progress[change.learnerId].isLearner)
    ensures n.Refusal(change) == NotFound
            <==> && n.role == Leader && change.PromoteLearner? && change.learnerId != 0 && NothingPending(n)
                 && HasActiveMajority(n) && change.learnerId !in n.progress
    ensures n.Refusal(change) in {Ok, InvalidArgument, NotFound, Busy}
  {
    ActiveCounts(n, n.voters);
    hide Node.Valid, Node.ActiveCount, ActiveAmong;
  }

  /** A membership the leader could propose for the change, and that can be written down. */
  ghost predicate Proposable(n: Node, change: Change) {
    && n.membership != NO_MEMBERSHIP && Possible(n.membership, change)
    && Changed(n.membership, change).Success? && Codec.SizesFit(Changed(n.membership, change).value)
  }

  lemma ProposedPayloadIff(n: Node, change: Change)
    requires n.Valid()
    ensures ProposedPayload(n, change).Success? <==> MayPropose(n, change) && Proposable(n, change)
    ensures ProposedPayload(n, change).Success? && Codec.InRange(Changed(n.membership, change).value) ==>
              Codec.Decode(ProposedPayload(n, change).value) == Changed(n.membership, change)
    ensures ProposedPayload(n, change).Failure? ==> ProposedPayload(n, change).error != Ok
  {
    MembershipSettled(n);
    MayProposeIff(n, change);
    hide Node.Valid, Node.Refusal, MayPropose, Settled, Possible, Build, Codec.Decode, Codec.EntryBytes, Sorted,
         ValidMembership, Codec.SizesFit, Codec.InRange;
    if n.membership == NO_MEMBERSHIP {
      NothingFromNothing(change);
    } else {
      ChangePossibleIff(n.membership, change);
      BuildIsChanged(n.membership, change);
      if Changed(n.membership, change).Success? {
        var c := Changed(n.membership, change).value;
        ChangeFacts(n.membership, change);
        SettledIsSorted(c);
        if Codec.InRange(c) && Codec.SizesFit(c) {
          Codec.RoundTrip(c);
        }
      }
    }
  }

  lemma MembershipSettled(n: Node)
    requires n.Valid()
    ensures n.membership == NO_MEMBERSHIP || Settled(n.membership)
  {
  }

  lemma SettledIsSorted(m: Membership)
    requires Settled(m)
    ensures ValidMembership(m) && Sorted(m) == m
  {
  }

  lemma NothingFromNothing(change: Change)
    ensures Build(NO_MEMBERSHIP, change) == Failure(InvalidArgument)
  {
  }

  lemma BuildIsChanged(m: Membership, change: Change)
    requires Settled(m)
    ensures Changed(m, change).Success? ==> Build(m, change) == Changed(m, change)
    ensures Changed(m, change).Failure? ==> Build(m, change).Failure? && Build(m, change).error != Ok
  {
    if Changed(m, change).Success? {
      ChangeFacts(m, change);
    } else {
      ChangeNeverRefusedLater(m, change);
    }
  }

  /**
   A membership change is taken if and only if the leader may propose it, the configuration allows it and it
   can be written down; the last entry of the log then carries the configuration the change leads to.
   */
  lemma ChangeOutcome(n: Node, change: Change)
    requires n.Valid()
    ensures var (status, after) := n.ProposeChange(change);
            var payload := ProposedPayload(n, change);
            && (status == Ok <==> && MayPropose(n, change) && Proposable(n, change)
                                  && n.hard.currentTerm > 0 && !SomeVoterUntracked(n))
            && (status == Ok ==> payload.Success? && Appended(n, MembershipChange, payload.value, after))
            && (status == Ok && Codec.InRange(Changed(n.membership, change).value) ==>
                  Codec.Decode(payload.value) == Changed(n.membership, change))
  {
    hide Node.Valid, SomeVoterUntracked, Appended, Node.AppendOwn, Node.Refusal, MayPropose, Proposable, Build, Codec.Encode,
         Codec.Decode, Codec.InRange, Changed;
    ProposedPayloadIff(n, change);
    var payload := ProposedPayload(n, change);
    if payload.Success? {
      AppendOwnFailsIff(n, MembershipChange, payload.value);
      if n.AppendOwn(MembershipChange, payload.value).0 == Ok {
        AppendOwnAppends(n, MembershipChange, payload.value);
      }
    }
  }

  // ---------------------------------------------------------------- removing the leader

  /** The entry carries the configuration. */
  ghost predicate Carries(entry: LogEntry, m: Membership) {
    entry.kind == MembershipChange && Codec.Decode(entry.payload) == Success(m)
  }

  /**
   A leader that is removed leads through the joint configuration, whose old half it still votes in, and
   steps down as soon as the finalising entry is applied; any other voter that is removed leaves it leading.
   */
  lemma RemovedLeaderStepsDown(n: Node, removed: NodeId, first: LogEntry, second: LogEntry)
    requires n.Valid() && n.role == Leader && Settled(n.membership) && VotesIn(n.membership, n.id)
    requires removed in Ids(n.membership.voters) && Changed(n.membership, RemoveMember(removed)).Success?
    requires Carries(first, Changed(n.membership, RemoveMember(removed)).value)
    requires var joint := Changed(n.membership, RemoveMember(removed)).value;
             Changed(joint, Finalize).Success? && Carries(second, Changed(joint, Finalize).value)
    ensures var (status, during) := n.ApplyMembershipEntry(first);
            && status == Ok && during.role == Leader && during.hard.votedFor == n.hard.votedFor
            && during.Valid()
            && var (outcome, after) := during.ApplyMembershipEntry(second);
               outcome == Ok && if removed == n.id then SteppedDown(after) else after.role == Leader
  {
    hide Node.Valid, Node.ApplyMembershipEntry, Codec.Decode, Settled, Changed, SteppedDown;
    var m := n.membership;
    var joint := Changed(m, RemoveMember(removed)).value;
    var last := Changed(joint, Finalize).value;
    MemberConfiguration(m);
    ChangeFacts(m, RemoveMember(removed));
    ChangeLeadsTo(m, RemoveMember(removed));
    ChangeFacts(joint, Finalize);
    ChangeLeadsTo(joint, Finalize);
    RemovalVotes(m, removed, joint, last, n.id);
    EntryAppliesIff(n, first);
    AppliedEntryLeaves(n, first);
    CallKeepsValid(n, CallApplyMembership(first));
    var during := n.ApplyMembershipEntry(first).1;
    EntryAppliesIff(during, second);
    AppliedEntryLeaves(during, second);
  }

  lemma MemberConfiguration(m: Membership)
    requires Settled(m)
    ensures m.configurationId != 0 && m != NO_MEMBERSHIP
  {
  }

  /** Who votes while and after a voter is removed. */
  lemma RemovalVotes(m: Membership, removed: NodeId, joint: Membership, last: Membership, id: NodeId)
    requires removed in Ids(m.voters) && !m.inTransition && VotesIn(m, id)
    requires LeadsTo(m, RemoveMember(removed), joint) && LeadsTo(joint, Finalize, last)
    ensures VotesIn(joint, id)
    ensures VotesIn(last, id) <==> id != removed
  {
    var x :| x in m.voters && x.id == id;
    assert x in joint.voters;
    if id != removed {
      assert x in joint.nextVoters;
      assert x in last.voters;
    }
  }

  // ---------------------------------------------------------------- initialisation

  /** The ids a node starts with: those of its membership, or those of its options when it has none. */
  ghost predicate StartsWith(o: Options, n: Node) {
    if o.membership.Some?
    then && n.membership == Sorted(o.membership.value)
         && (forall id :: id in n.voters <==> VotesIn(o.membership.value, id))
         && (forall id :: id in n.learners <==> LearnsIn(o.membership.value, id))
    else n.membership == NO_MEMBERSHIP && n.voters == o.voters && n.learners == o.learners
  }

  /**
   A node starts with an empty log and nothing committed, keeps its term and vote, takes the configuration of
   its membership, has nothing to save or send, and knows of its peers only where to start.
   */
  lemma InitialNodeOutcome(o: Options)
    requires ValidOptions(o)
    ensures var n := InitialNode(o);
            && n == Node(o.id, o.role, if o.role == Leader then o.id else 0, 0, 0, o.electionTimeout, n.hard, EMPTY_LOG,
                         n.voters, n.learners, n.membership, n.progress, n.hard, Messages.EMPTY_OUTBOX)
            && n.hard == HardState(o.hard.currentTerm, o.hard.votedFor, 0,
                                   if o.membership.Some? then o.membership.value.configurationId
                                   else o.hard.configurationId)
            && StartsWith(o, n)
            && (forall p :: p in n.progress <==> p in n.voters || p in n.learners)
            && forall p :: p in n.progress ==>
                 n.progress[p] == PeerProgress(n.progress[p].isLearner, p == n.id, 0, 1)
  {
    hide ValidOptions, ActiveVoters, TransitionLearners, Listing, SortMembers, Node.ResetProgress, StartsWith, InitialBase;
    InitialBaseIs(o);
    ResetFacts(InitialBase(o));
    SameStart(o, InitialBase(o), InitialNode(o));
  }

  lemma SameStart(o: Options, n: Node, m: Node)
    requires StartsWith(o, n) && m.membership == n.membership && m.voters == n.voters && m.learners == n.learners
    ensures StartsWith(o, m)
  {
  }

  lemma ResetFacts(n: Node)
    requires n.log == EMPTY_LOG
    ensures var after := n.ResetProgress();
            && after == n.(progress := after.progress)
            && (forall p :: p in after.progress <==> p in n.voters || p in n.learners)
            && forall p :: p in after.progress ==>
                 after.progress[p] == PeerProgress(after.progress[p].isLearner, p == n.id, 0, 1)
  {
  }

  lemma InitialBaseIs(o: Options)
    requires ValidOptions(o)
    ensures var n := InitialBase(o);
            && n == Node(o.id, o.role, if o.role == Leader then o.id else 0, 0, 0, o.electionTimeout, n.hard, EMPTY_LOG,
                         n.voters, n.learners, n.membership, n.progress, n.hard, Messages.EMPTY_OUTBOX)
            && n.hard == HardState(o.hard.currentTerm, o.hard.votedFor, 0,
                                   if o.membership.Some? then o.membership.value.configurationId
                                   else o.hard.configurationId)
            && StartsWith(o, n)
  {
    hide ActiveVoters, TransitionLearners, Listing, SortMembers, ValidMembership, VotesIn, LearnsIn, Ids, Distinct, SetOf;
    if o.membership.Some? {
      ListedInForce(o.membership.value);
    }
  }

  lemma ListedInForce(m: Membership)
    requires ValidMembership(m)
    ensures forall id :: id in Listing(ActiveVoters(Sorted(m))) <==> VotesIn(m, id)
    ensures forall id :: id in Listing(TransitionLearners(Sorted(m))) <==> LearnsIn(m, id)
  {
    SortedInForce(m);
    ListingFacts(ActiveVoters(Sorted(m)));
    ListingFacts(TransitionLearners(Sorted(m)));
    hide ActiveVoters, TransitionLearners, ValidMembership, VotesIn, LearnsIn, Sorted;
  }
}
