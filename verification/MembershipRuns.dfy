/** Chains of membership changes: each proposed from the current membership, committed and applied. */
module MembershipRuns {
  import opened Common
  import opened RaftTypes
  import opened IdSets
  import opened MembershipRules
  import opened ActiveMembers

  ghost function Changed(m: Membership, change: Change): Result<Membership> {
    var entry := Build(m, change);
    if entry.Failure? then entry else ApplyEntry(m, entry.value)
  }

  ghost predicate Chain(states: seq<Membership>, changes: seq<Change>) {
    && |states| == |changes| + 1
    && forall i :: 0 <= i < |changes| ==> Changed(states[i], changes[i]) == Success(states[i + 1])
  }

  ghost predicate Majority(quorum: set<NodeId>, voters: set<NodeId>) {
    |quorum * voters| >= |voters| / 2 + 1
  }

  /** The nodes that can decide under a membership: a majority, or both majorities when joint. */
  ghost predicate Decides(m: Membership, quorum: set<NodeId>) {
    Majority(quorum, Ids(m.voters)) && (m.inTransition ==> Majority(quorum, Ids(m.nextVoters)))
  }

  lemma MajoritiesMeet(voters: set<NodeId>, a: set<NodeId>, b: set<NodeId>)
    requires Majority(a, voters) && Majority(b, voters)
    ensures a * b != {}
  {
    MajoritiesIntersect(voters, a * voters, b * voters);
    assert (a * voters) * (b * voters) <= a * b;
  }

  lemma AppendedDistinct(members: seq<Member>, m: Member)
    requires DistinctIds(members) && m.id !in Ids(members)
    ensures DistinctIds(members + [m]) && Ids(members + [m]) == Ids(members) + {m.id}
  {
    forall k | 0 <= k < |members| ensures members[k].id != m.id
    {
      assert members[k] in members;
    }
    assert m in members + [m];
  }

  lemma HasIdIffInIds(members: seq<Member>, id: NodeId)
    ensures HasId(members, id) <==> id in Ids(members)
  {
    if id in Ids(members) {
      var m :| m in members && m.id == id;
      var k :| 0 <= k < |members| && members[k] == m;
    }
  }

  /** Normalising a candidate never fails: a change is refused only by the builder's own checks. */
  lemma DraftIsValid(m: Membership, change: Change)
    requires Settled(m) && Draft(m, change).Success?
    ensures ValidMembership(Draft(m, change).value)
    ensures TargetsApart(Draft(m, change).value)
  {
    var c := Draft(m, change).value;
    match change
    case AddLearner(learner) =>
      HasIdIffInIds(m.voters, learner.id);
      HasIdIffInIds(m.learners, learner.id);
      AppendedDistinct(m.learners, learner);
    case PromoteLearner(id) =>
      var learner := Find(m.learners, id).value;
      HasIdIffInIds(m.voters, id);
      AppendedDistinct(m.voters, learner);
      EraseFacts(m.learners, id);
    case RemoveMember(id) =>
      HasIdIffInIds(m.voters, id);
      if HasId(m.voters, id) {
        EraseFacts(m.voters, id);
        var other := if m.voters[0].id == id then m.voters[1] else m.voters[0];
        assert other in m.voters && other in c.nextVoters;
      } else {
        EraseFacts(m.learners, id);
      }
    case Finalize =>
  }

  lemma ChangeFacts(m: Membership, change: Change)
    requires Settled(m) && Changed(m, change).Success?
    ensures Changed(m, change) == Build(m, change)
    ensures var next := Changed(m, change).value;
            && Settled(next)
            && TargetsApart(next)
            && next.configurationId == m.configurationId + 1
            && (m.inTransition ==>
                  change == Finalize && Ids(next.voters) == Ids(m.nextVoters) && !next.inTransition)
            && (!m.inTransition ==> Ids(next.voters) == Ids(m.voters))
  {
    DraftIsValid(m, change);
    var c := Draft(m, change).value;
    SortedFacts(c);
    assert Build(m, change) == Success(Sorted(c));
  }

  lemma ChangeNeverRefusedLater(m: Membership, change: Change)
    requires Settled(m)
    ensures Changed(m, change).Success? <==> Draft(m, change).Success?
  {
    if Draft(m, change).Success? {
      DraftIsValid(m, change);
      SortedFacts(Draft(m, change).value);
    }
  }

  /** Any deciding quorum of one configuration meets any deciding quorum of the next. */
  lemma QuorumsMeetAcrossChange(m: Membership, change: Change, before: set<NodeId>, after: set<NodeId>)
    requires Settled(m) && Changed(m, change).Success?
    requires Decides(m, before) && Decides(Changed(m, change).value, after)
    ensures before * after != {}
  {
    ChangeFacts(m, change);
    MajoritiesMeet(if m.inTransition then Ids(m.nextVoters) else Ids(m.voters), before, after);
  }

  /** Every state of a chain is valid, ids rise by one, and a joint state is only left by finalize. */
  lemma {:induction false} ChainFacts(states: seq<Membership>, changes: seq<Change>, i: nat)
    requires Chain(states, changes) && Settled(states[0]) && i < |states|
    ensures Settled(states[i]) && states[i].voters != []
    ensures states[i].configurationId == states[0].configurationId + i
    ensures i < |changes| && states[i].inTransition ==>
              changes[i] == Finalize && Ids(states[i + 1].voters) == Ids(states[i].nextVoters)
    ensures TargetsApart(states[0]) ==> TargetsApart(states[i])
    decreases i
  {
    if i > 0 {
      ChainFacts(states, changes, i - 1);
      ChangeFacts(states[i - 1], changes[i - 1]);
    }
    if i < |changes| {
      assert Changed(states[i], changes[i]) == Success(states[i + 1]);
      ChangeFacts(states[i], changes[i]);
    }
  }

  lemma ChainQuorumsMeet(states: seq<Membership>, changes: seq<Change>)
    requires Chain(states, changes) && Settled(states[0])
    ensures forall i, before, after ::
              0 <= i < |changes| && Decides(states[i], before) && Decides(states[i + 1], after)
              ==> before * after != {}
  {
    forall i, before, after
      | 0 <= i < |changes| && Decides(states[i], before) && Decides(states[i + 1], after)
      ensures before * after != {}
    {
      ChainFacts(states, changes, i);
      QuorumsMeetAcrossChange(states[i], changes[i], before, after);
    }
  }

  /** Along a chain both derivations of the active learners give the same vector. */
  lemma ChainDerivationsAgree(states: seq<Membership>, changes: seq<Change>, i: nat)
    requires Chain(states, changes) && Settled(states[0]) && TargetsApart(states[0]) && i < |states|
    ensures AppliedLearners(states[i]) == TransitionLearners(states[i])
    ensures AppliedLearners(states[i]) !! ActiveVoters(states[i])
  {
    ChainFacts(states, changes, i);
    DerivationsAgreeIff(states[i]);
  }
}
