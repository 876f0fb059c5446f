/**
 The peer progress table against the two id vectors: over every run a node tracks exactly its active
 voters and learners, flags them correctly, and never counts a node as both.
 */
module NodeMembers {
  import opened Common
  import opened RaftTypes
  import opened IdSets
  import opened LogModel
  import opened Messages
  import opened MembershipRules
  import opened ActiveMembers
  import opened NodeModel
  import opened NodeRuns

  ghost predicate Tracks(n: Node) {
    && SetOf(n.voters) !! SetOf(n.learners)
    && n.progress.Keys == n.Peers()
    && forall p :: p in n.progress ==> (n.progress[p].isLearner <==> p in n.learners)
  }

  /** A snapshot's membership is the only one that does not go through the change builders. */
  ghost predicate ApartView(call: Call) {
    call.CallUpdateSnapshot? && call.view.configurationId != 0 ==> TargetsApart(call.view)
  }

  /** Nothing about the peers changes, beyond progress of the peers already tracked. */
  ghost predicate SamePeers(n: Node, after: Node) {
    && after.voters == n.voters && after.learners == n.learners
    && after.progress.Keys == n.progress.Keys
    && forall p :: p in n.progress ==> after.progress[p].isLearner == n.progress[p].isLearner
  }

  lemma SamePeersTracks(n: Node, after: Node)
    requires Tracks(n) && SamePeers(n, after)
    ensures Tracks(after)
  {
  }

  lemma ResetTracks(n: Node)
    requires SetOf(n.voters) !! SetOf(n.learners)
    ensures Tracks(n.ResetProgress())
  {
    assert forall p :: p in n.voters <==> p in SetOf(n.voters);
    assert forall p :: p in n.learners <==> p in SetOf(n.learners);
  }

  lemma KeptTracks(n: Node)
    requires SetOf(n.voters) !! SetOf(n.learners)
    ensures Tracks(n.(progress := map peer | peer in n.Peers() :: n.Kept(peer)).SyncLocal())
  {
    assert forall p :: p in n.voters <==> p in SetOf(n.voters);
    assert forall p :: p in n.learners <==> p in SetOf(n.learners);
  }

  lemma RetargetedTracksIff(n: Node)
    ensures Tracks(n.Retargeted()) <==> SetOf(n.voters) !! SetOf(n.learners)
  {
    hide Tracks, SetOf;
    assert n.Retargeted().voters == n.voters && n.Retargeted().learners == n.learners;
    if SetOf(n.voters) !! SetOf(n.learners) {
      ResetTracks(n);
      KeptTracks(n);
    } else {
      TracksApart(n.Retargeted());
    }
  }

  lemma TracksApart(n: Node)
    ensures Tracks(n) ==> SetOf(n.voters) !! SetOf(n.learners)
  {
  }

  lemma BecomeLeaderTracks(n: Node)
    requires Tracks(n)
    ensures Tracks(n.BecomeLeader().1)
  {
    hide Tracks, SetOf;
    TracksApart(n);
    if n.role == Candidate {
      ResetTracks(n.(role := Leader, leaderId := n.id, electionElapsed := 0));
    }
  }

  lemma AppendOwnKeepsPeers(n: Node, kind: EntryKind, payload: Bytes)
    ensures SamePeers(n, n.AppendOwn(kind, payload).1)
  {
    hide Node.SearchCommit;
  }

  lemma ProposalKeepsPeers(n: Node, call: Call)
    requires n.Valid() && (call.CallPropose? || call.CallProposeChange?)
    ensures SamePeers(n, After(n, call))
  {
    hide Settled, ActiveVoters, Distinct, SetOf, WellNumbered, Build, Codec.Encode, Node.AppendOwn, SamePeers,
         Node.PendingChange, Node.ActiveCount;
    assert SamePeers(n, n) by { SamePeersSelf(n); }
    match call
    case CallPropose(payload) => AppendOwnKeepsPeers(n, Command, payload);
    case CallProposeChange(change) =>
      var entry := Build(n.membership, change);
      if entry.Success? {
        var payload := Codec.Encode(entry.value);
        if payload.Success? {
          AppendOwnKeepsPeers(n, MembershipChange, payload.value);
        }
      }
  }

  lemma SamePeersSelf(n: Node)
    ensures SamePeers(n, n)
  {
  }

  lemma AcceptKeepsPeers(n: Node, request: AppendRequest, before: HardState)
    requires n.log.Valid()
    ensures SamePeers(n, n.Accept(request, before).1)
  {
    hide SetOf, WellNumbered, Merge, Outbox.Stage;
  }

  lemma AppendEntriesKeepsPeers(n: Node, request: AppendRequest)
    requires n.Valid()
    ensures SamePeers(n, n.HandleAppendEntries(request).1)
  {
    hide Settled, ActiveVoters, Distinct, SetOf, WellNumbered, Node.Accept, Node.HandleAppendEntries;
    AppendCases(n, request);
    AcceptKeepsPeers(Heard(n, request), request, n.hard);
  }

  lemma AppendResponseKeepsPeers(n: Node, source: NodeId, response: AppendResponse)
    requires n.Valid()
    ensures SamePeers(n, n.HandleAppendResponse(source, response).1)
  {
    hide Settled, ActiveVoters, Distinct, SetOf, WellNumbered, Node.SearchCommit, Node.BackOff;
  }

  lemma RoleCallKeepsPeers(n: Node, call: Call)
    requires n.Valid()
    requires call.CallTick? || call.CallUpdateTimeout? || call.CallBecomeFollower? || call.CallStartElection?
    ensures SamePeers(n, After(n, call))
  {
    hide Settled, ActiveVoters, Distinct, SetOf, WellNumbered;
  }

  lemma VoteCallKeepsPeers(n: Node, call: Call)
    requires n.Valid() && (call.CallRequestVote? || call.CallVoteResponse?)
    ensures SamePeers(n, After(n, call))
  {
    hide Settled, ActiveVoters, Distinct, SetOf, WellNumbered, Outbox.Stage;
  }

  lemma SendCallKeepsPeers(n: Node, call: Call)
    requires n.Valid()
    requires call.CallBuildAppend? || call.CallBuildSnapshot? || call.CallSnapshotResponse? || call.CallConfirmApplied?
             || call.CallConfirmPersistence?
    ensures SamePeers(n, After(n, call))
  {
    hide Settled, ActiveVoters, Distinct, SetOf, WellNumbered, Outbox.Stage, Outbox.Reclassify;
  }

  lemma AppliedEntryValid(m: Membership, entry: Membership)
    requires m == NO_MEMBERSHIP || Settled(m)
    ensures var r := ApplyEntry(m, entry); r.Success? ==> ValidMembership(r.value)
  {
    ApplyEntryFacts(m, entry);
  }

  /** Applying a committed membership entry, whatever it carries, leaves an exact progress table. */
  lemma ApplyMembershipTracks(n: Node, entry: LogEntry)
    requires n.Valid() && Tracks(n)
    ensures Tracks(n.ApplyMembershipEntry(entry).1)
  {
    hide Settled, ActiveVoters, AppliedLearners, Listing, Distinct, SetOf, WellNumbered, ApplyEntry, Codec.Decode,
         Tracks, ValidMembership, TransitionLearners, TargetsApart, Node.Peers, Node.SyncLocal, Node.Kept;
    var decoded := Codec.Decode(entry.payload);
    if decoded.Success? {
      var applied := ApplyEntry(n.membership, decoded.value);
      AppliedEntryValid(n.membership, decoded.value);
      if applied.Success? && entry.kind == MembershipChange {
        var m := applied.value;
        DerivationsAgreeIff(m);
        ListingFacts(ActiveVoters(m));
        ListingFacts(AppliedLearners(m));
        var next := n.(membership := m, voters := Listing(ActiveVoters(m)), learners := Listing(AppliedLearners(m)),
                       hard := n.hard.(configurationId := m.configurationId));
        KeptTracks(next);
        DemotedTracks(next.(progress := map peer | peer in next.Peers() :: next.Kept(peer)).SyncLocal());
      }
    }
  }

  lemma DemotedTracks(n: Node)
    ensures Tracks(n.Demoted()) == Tracks(n)
  {
  }

  /** After a snapshot with a membership the table is exact if and only if its target sets are apart. */
  lemma SnapshotTracksIff(n: Node, index: LogIndex, term: Term, view: Membership)
    requires n.Valid() && view.configurationId != 0
    requires n.UpdateSnapshotBoundary(index, term, view).0 == Ok
    ensures Tracks(n.UpdateSnapshotBoundary(index, term, view).1) <==> TargetsApart(view)
  {
    hide Settled, ActiveVoters, AppliedLearners, TransitionLearners, Listing, Distinct, SetOf, WellNumbered, Tracks,
         ValidMembership, SortMembers, TargetsApart, Node.Retargeted;
    SortedFacts(view);
    var s := Sorted(view);
    SortedTargets(view);
    DerivationsAgreeIff(s);
    ListingFacts(ActiveVoters(s));
    ListingFacts(TransitionLearners(s));
    var m := n.(log := n.log.UpdateSnapshotBoundary(index, term).1, membership := s, voters := Listing(ActiveVoters(s)),
                learners := Listing(TransitionLearners(s)), hard := n.hard.(configurationId := s.configurationId));
    RetargetedTracksIff(m);
    DemotedTracks(m.Retargeted());
  }

  lemma SortedTargets(m: Membership)
    requires ValidMembership(m)
    ensures TargetsApart(Sorted(m)) <==> TargetsApart(m)
  {
    SortedFacts(m);
    hide ValidMembership, SortMembers;
  }

  lemma SnapshotTracks(n: Node, index: LogIndex, term: Term, view: Membership)
    requires n.Valid() && Tracks(n) && (view.configurationId != 0 ==> TargetsApart(view))
    ensures Tracks(n.UpdateSnapshotBoundary(index, term, view).1)
  {
    hide Settled, ActiveVoters, TransitionLearners, Listing, Distinct, SetOf, WellNumbered,
         ValidMembership, SortMembers, TargetsApart, Node.Retargeted, Tracks;
    var compacted := n.(log := n.log.UpdateSnapshotBoundary(index, term).1);
    LogAloneTracks(n, compacted);
    if n.UpdateSnapshotBoundary(index, term, view).0 == Ok {
      if view.configurationId != 0 {
        SnapshotTracksIff(n, index, term, view);
      } else {
        TracksApart(n);
        RetargetedTracksIff(compacted);
        DemotedTracks(compacted.Retargeted());
      }
    }
  }

  lemma LogAloneTracks(n: Node, after: Node)
    requires Tracks(n) && after == n.(log := after.log)
    ensures Tracks(after)
  {
  }

  lemma CallTracks(n: Node, call: Call)
    requires n.Valid() && Tracks(n) && ApartView(call)
    ensures Tracks(After(n, call))
  {
    hide Tracks, SamePeers, Node.Valid, Node.HandleAppendEntries, Node.HandleAppendResponse,
         Node.ApplyMembershipEntry, Node.UpdateSnapshotBoundary, Node.BecomeLeader, TargetsApart;
    match call
    case CallApplyMembership(entry) => ApplyMembershipTracks(n, entry);
    case CallUpdateSnapshot(index, term, view) => SnapshotTracks(n, index, term, view);
    case CallBecomeLeader => BecomeLeaderTracks(n);
    case CallPropose(_) | CallProposeChange(_) =>
      ProposalKeepsPeers(n, call);
      SamePeersTracks(n, After(n, call));
    case CallAppendEntries(request) =>
      AppendEntriesKeepsPeers(n, request);
      SamePeersTracks(n, After(n, call));
    case CallAppendResponse(source, response) =>
      AppendResponseKeepsPeers(n, source, response);
      SamePeersTracks(n, After(n, call));
    case CallBuildAppend(_) | CallBuildSnapshot(_) | CallSnapshotResponse(_, _) | CallConfirmApplied(_)
       | CallConfirmPersistence(_) =>
      SendCallKeepsPeers(n, call);
      SamePeersTracks(n, After(n, call));
    case CallRequestVote(_) | CallVoteResponse(_, _) =>
      VoteCallKeepsPeers(n, call);
      SamePeersTracks(n, After(n, call));
    case _ =>
      RoleCallKeepsPeers(n, call);
      SamePeersTracks(n, After(n, call));
  }

  /** Over every run whose snapshots keep their target sets apart, the progress table stays exact. */
  lemma {:induction false} RunTracks(n: Node, calls: seq<Call>)
    requires n.Valid() && Tracks(n)
    requires forall i :: 0 <= i < |calls| ==> ApartView(calls[i])
    ensures Tracks(Run(n, calls))
    decreases |calls|
  {
    hide Tracks, Node.Valid, After, ApartView, Continues;
    if calls != [] {
      CallContinues(n, calls[0]);
      ContinuesValid(n, After(n, calls[0]));
      CallTracks(n, calls[0]);
      RunTracks(After(n, calls[0]), calls[1..]);
    }
  }

  lemma ContinuesValid(n: Node, after: Node)
    requires n.Valid() && Continues(n, after)
    ensures after.Valid()
  {
  }

  /** A node starts with an exact table if and only if its initial membership keeps its targets apart. */
  lemma InitialTracksIff(o: Options)
    requires ValidOptions(o)
    ensures Tracks(InitialNode(o)) <==> (o.membership.Some? ==> TargetsApart(o.membership.value))
  {
    hide ActiveVoters, AppliedLearners, TransitionLearners, Listing, Tracks, TargetsApart, ValidMembership, SortMembers,
         Node.ResetProgress, SetOf;
    if o.membership.Some? {
      var m := Sorted(o.membership.value);
      SortedFacts(o.membership.value);
      SortedTargets(o.membership.value);
      DerivationsAgreeIff(m);
      ListingFacts(ActiveVoters(m));
      ListingFacts(TransitionLearners(m));
      var n := InitialBase(o);
      ResetTracksIff(n);
    } else {
      OptionsApart(o);
      ResetTracksIff(InitialBase(o));
    }
  }

  lemma OptionsApart(o: Options)
    requires Distinct(o.voters + o.learners)
    ensures SetOf(o.voters) !! SetOf(o.learners)
  {
    forall i, j | 0 <= i < |o.voters| && 0 <= j < |o.learners| ensures o.voters[i] != o.learners[j]
    {
      assert (o.voters + o.learners)[i] != (o.voters + o.learners)[|o.voters| + j];
    }
  }

  lemma ResetTracksIff(n: Node)
    ensures Tracks(n.ResetProgress()) <==> SetOf(n.voters) !! SetOf(n.learners)
  {
    hide Tracks, SetOf;
    assert n.ResetProgress().voters == n.voters && n.ResetProgress().learners == n.learners;
    if SetOf(n.voters) !! SetOf(n.learners) {
      ResetTracks(n);
    } else {
      TracksApart(n.ResetProgress());
    }
  }
}
