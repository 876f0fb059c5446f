/**
 The voter and learner ids that count while a membership is in force. The source derives them twice:
 inline when a committed entry is applied, and by `TransitionVoterIds`/`TransitionLearnerIds` after a
 snapshot. The two agree exactly when no target learner is still a voter.
 */
module ActiveMembers {
  import opened Common
  import opened RaftTypes
  import opened IdSets
  import opened MembershipRules

  ghost function ActiveVoters(m: Membership): set<NodeId> {
    Ids(m.voters) + if m.inTransition then Ids(m.nextVoters) else {}
  }

  /** The learners computed inline by `ApplyCommittedMembershipEntry`. */
  ghost function AppliedLearners(m: Membership): set<NodeId> {
    if m.inTransition
    then Ids(m.learners) - Ids(m.nextVoters) + (Ids(m.nextLearners) - ActiveVoters(m))
    else Ids(m.learners)
  }

  /** The learners computed by `TransitionLearnerIds`. */
  ghost function TransitionLearners(m: Membership): set<NodeId> {
    if m.inTransition
    then Ids(m.learners) - Ids(m.nextVoters) + Ids(m.nextLearners)
    else Ids(m.learners)
  }

  /** No node is to become a learner while it still votes in the old configuration. */
  ghost predicate TargetsApart(m: Membership) {
    m.inTransition ==> Ids(m.nextLearners) !! Ids(m.voters)
  }

  lemma DerivationsAgreeIff(m: Membership)
    requires ValidMembership(m)
    ensures AppliedLearners(m) == TransitionLearners(m) <==> TargetsApart(m)
    ensures TransitionLearners(m) !! ActiveVoters(m) <==> TargetsApart(m)
    ensures AppliedLearners(m) !! ActiveVoters(m)
  {
    if !TargetsApart(m) {
      var id :| id in Ids(m.nextLearners) && id in Ids(m.voters);
      assert id in TransitionLearners(m) && id !in AppliedLearners(m);
    }
  }

  /** A valid membership that demotes voter 2 to learner: node 2 is both voter and learner. */
  lemma DerivationsCanDisagree()
    ensures var one, two := Member(1, NodeAddress([1], 1)), Member(2, NodeAddress([2], 1));
            var m := Membership(1, [one, two], [], true, [one], [two]);
            && ValidMembership(m)
            && 2 in TransitionLearners(m) && 2 !in AppliedLearners(m) && 2 in ActiveVoters(m)
  {
    var one, two := Member(1, NodeAddress([1], 1)), Member(2, NodeAddress([2], 1));
    var m := Membership(1, [one, two], [], true, [one], [two]);
    assert one in m.voters && two in m.voters && two in m.nextLearners && one in m.nextVoters;
    assert Ids(m.voters) == {1, 2} && Ids(m.nextVoters) == {1} && Ids(m.nextLearners) == {2};
  }

  // ---------------------------------------------------------------- the vectors of ids

  method MemberIds(members: seq<Member>) returns (ids: seq<NodeId>)
    requires DistinctIds(members)
    ensures ids == Listing(Ids(members))
    ensures Distinct(ids) && forall x :: x in ids <==> x in Ids(members)
  {
    ids := [];
    for i := 0 to |members|
      invariant |ids| == i && forall k :: 0 <= k < i ==> ids[k] == members[k].id
    {
      ids := ids + [members[i].id];
    }
    forall x ensures x in ids <==> x in Ids(members)
    {
      if x in ids {
        var k :| 0 <= k < |ids| && ids[k] == x;
        assert members[k] in members;
      }
      if x in Ids(members) {
        var m :| m in members && m.id == x;
        var k :| 0 <= k < |members| && members[k] == m;
        assert ids[k] == x;
      }
    }
    SortIdsIsListing(ids, Ids(members));
    ids := SortIds(ids);
  }

  /** Pushes back, in order, every id of `extra` that neither `ids` nor `barred` contains. */
  method PushMissing(ids: seq<NodeId>, extra: seq<NodeId>, barred: seq<NodeId>) returns (out: seq<NodeId>)
    requires Distinct(ids)
    ensures Distinct(out)
    ensures forall x :: x in out <==> x in ids || (x in extra && x !in barred)
  {
    out := ids;
    for i := 0 to |extra|
      invariant Distinct(out)
      invariant forall x :: x in out <==> x in ids || (x in extra[..i] && x !in barred)
    {
      assert extra[..i + 1] == extra[..i] + [extra[i]];
      if extra[i] !in out && extra[i] !in barred {
        out := out + [extra[i]];
      }
    }
    assert extra[..|extra|] == extra;
  }

  /** Erases every id of `gone`. */
  method EraseAll(ids: seq<NodeId>, gone: seq<NodeId>) returns (out: seq<NodeId>)
    requires Distinct(ids)
    ensures Distinct(out)
    ensures forall x :: x in out <==> x in ids && x !in gone
  {
    out := [];
    for i := 0 to |ids|
      invariant Distinct(out)
      invariant forall x :: x in out <==> x in ids[..i] && x !in gone
    {
      assert ids[..i + 1] == ids[..i] + [ids[i]];
      if ids[i] !in gone {
        out := out + [ids[i]];
      }
    }
    assert ids[..|ids|] == ids;
  }

  method TransitionVoterIds(m: Membership) returns (voters: seq<NodeId>)
    requires ValidMembership(m)
    ensures voters == Listing(ActiveVoters(m))
  {
    voters := MemberIds(m.voters);
    if !m.inTransition {
      assert Ids(m.voters) == ActiveVoters(m);
      return;
    }
    var next := MemberIds(m.nextVoters);
    voters := PushMissing(voters, next, []);
    SortIdsIsListing(voters, ActiveVoters(m));
    voters := SortIds(voters);
  }

  method TransitionLearnerIds(m: Membership) returns (learners: seq<NodeId>)
    requires ValidMembership(m)
    ensures learners == Listing(TransitionLearners(m))
  {
    learners := MemberIds(m.learners);
    if !m.inTransition {
      return;
    }
    var nextVoters := MemberIds(m.nextVoters);
    learners := EraseAll(learners, nextVoters);
    var nextLearners := MemberIds(m.nextLearners);
    learners := PushMissing(learners, nextLearners, []);
    SortIdsIsListing(learners, TransitionLearners(m));
    learners := SortIds(learners);
  }

  /** The inline derivation of `ApplyCommittedMembershipEntry`. */
  method AppliedIds(m: Membership) returns (voters: seq<NodeId>, learners: seq<NodeId>)
    requires ValidMembership(m)
    ensures voters == Listing(ActiveVoters(m)) && learners == Listing(AppliedLearners(m))
  {
    hide Listing, SortIds;
    voters := MemberIds(m.voters);
    learners := MemberIds(m.learners);
    if !m.inTransition {
      StableIds(m);
      return;
    }
    hide ValidMembership, Ids;
    var nextVoters := MemberIds(m.nextVoters);
    voters := PushMissing(voters, nextVoters, []);
    learners := EraseAll(learners, nextVoters);
    var nextLearners := MemberIds(m.nextLearners);
    learners := PushMissing(learners, nextLearners, voters);
    assert forall x :: x in voters <==> x in ActiveVoters(m);
    assert forall x :: x in learners <==> x in AppliedLearners(m);
    SortIdsIsListing(voters, ActiveVoters(m));
    SortIdsIsListing(learners, AppliedLearners(m));
    voters := SortIds(voters);
    learners := SortIds(learners);
  }

  lemma StableIds(m: Membership)
    requires !m.inTransition
    ensures ActiveVoters(m) == Ids(m.voters) && AppliedLearners(m) == Ids(m.learners)
    ensures TransitionLearners(m) == Ids(m.learners)
  {
  }
}
