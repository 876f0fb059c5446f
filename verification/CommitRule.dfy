/** The leader's commit rule, stated on sets of nodes instead of the counting loops. */
module CommitRule {
  import opened Common
  import opened RaftTypes
  import opened IdSets
  import opened LogModel
  import opened MembershipRules
  import opened MembershipRuns
  import opened NodeModel
  import opened NodeRuns
  import ActiveMembers
  import MembershipCodec

  /** The nodes known to hold the log up to an index. */
  ghost function Supporters(n: Node, index: LogIndex): set<NodeId> {
    set p | p in n.progress && n.progress[p].matchIndex >= index
  }

  /** An uncommitted entry of the current term that a deciding quorum holds. */
  ghost predicate Committable(n: Node, index: LogIndex) {
    && n.log.commitIndex < index <= n.log.LastIndex()
    && TermAt(n.log.full, index) == n.Term()
    && if n.membership.inTransition then Decides(n.membership, Supporters(n, index))
       else Majority(Supporters(n, index), SetOf(n.voters))
  }

  ghost predicate SomeVoterUntracked(n: Node) {
    !n.membership.inTransition && exists v :: v in n.voters && v !in n.progress
  }

  lemma CountOneMore(s: set<NodeId>, x: NodeId, rest: set<NodeId>)
    requires x !in rest
    ensures |s * ({x} + rest)| == |s * rest| + if x in s then 1 else 0
    ensures |{x} + rest| == 1 + |rest|
  {
    assert s * ({x} + rest) == if x in s then {x} + s * rest else s * rest;
  }

  lemma SetOfCons(ids: seq<NodeId>)
    requires Distinct(ids) && ids != []
    ensures Distinct(ids[1..]) && ids[0] !in SetOf(ids[1..])
    ensures SetOf(ids) == {ids[0]} + SetOf(ids[1..])
  {
    assert ids == [ids[0]] + ids[1..];
  }

  lemma {:induction false} MatchingCounts(n: Node, ids: seq<NodeId>, index: LogIndex)
    requires Distinct(ids)
    ensures n.Matching(ids, index) == |Supporters(n, index) * SetOf(ids)|
    ensures |SetOf(ids)| == |ids|
  {
    var s := Supporters(n, index);
    if ids == [] {
      assert SetOf(ids) == {};
      assert s * {} == {};
    } else {
      var first, rest := ids[0], ids[1..];
      assert first in s <==> first in n.progress && n.progress[first].matchIndex >= index;
      hide SetOf, Distinct, Supporters;
      SetOfCons(ids);
      CountOneMore(s, first, SetOf(rest));
      MatchingCounts(n, rest, index);
    }
  }

  lemma SupportedMeans(n: Node, index: LogIndex)
    requires n.Valid() && n.log.commitIndex < index <= n.log.LastIndex() && TermAt(n.log.full, index) == n.Term()
    ensures n.Supported(index) <==> Committable(n, index)
  {
    hide Settled, ActiveMembers.ActiveVoters, WellNumbered, Listing, Node.Matching, Supporters;
    if n.membership.inTransition {
      ListingFacts(Ids(n.membership.voters));
      ListingFacts(Ids(n.membership.nextVoters));
      MatchingCounts(n, Listing(Ids(n.membership.voters)), index);
      MatchingCounts(n, Listing(Ids(n.membership.nextVoters)), index);
    } else {
      MatchingCounts(n, n.voters, index);
    }
  }

  lemma {:induction false} SearchFindsGreatest(n: Node, index: LogIndex)
    requires n.Valid() && index <= n.log.LastIndex() && !SomeVoterUntracked(n)
    ensures var r := n.SearchCommit(index);
            && r.Success?
            && (r.value == n.log.commitIndex || Committable(n, r.value))
            && forall i :: r.value < i <= index ==> !Committable(n, i)
    decreases index
  {
    hide Settled, WellNumbered, SetOf, Node.Supported, Decides, Majority, Supporters, Distinct;
    if index > n.log.commitIndex {
      if TermAt(n.log.full, index) == n.Term() {
        SupportedMeans(n, index);
      }
      SearchFindsGreatest(n, index - 1);
    }
  }

  /**
   With every voter tracked, the commit index moves to the greatest committable index, or stays where
   it is when there is none; nothing else changes.
   */
  lemma LeaderCommitRule(n: Node)
    requires n.Valid() && !SomeVoterUntracked(n)
    ensures var (status, after) := n.TryAdvanceCommit();
            var c := after.log.commitIndex;
            && status == Ok
            && after == n.(log := n.log.(commitIndex := c), hard := n.hard.(commitIndex := c))
            && (c == n.log.commitIndex || Committable(n, c))
            && forall i :: c < i ==> !Committable(n, i)
  {
    hide Settled, WellNumbered, SetOf, Node.Supported, Decides, Majority, Supporters, Distinct;
    SearchFindsGreatest(n, n.log.LastIndex());
  }

  lemma {:induction false} SearchFailsIff(n: Node, index: LogIndex)
    requires n.Valid() && index <= n.log.LastIndex()
    ensures n.SearchCommit(index).Failure? <==>
              SomeVoterUntracked(n)
              && exists i :: n.log.commitIndex < i <= index && TermAt(n.log.full, i) == n.Term()
    decreases index
  {
    hide Settled, WellNumbered, SetOf, Node.Supported, Distinct;
    if !SomeVoterUntracked(n) {
      SearchFindsGreatest(n, index);
    } else if index > n.log.commitIndex {
      SearchFailsIff(n, index - 1);
    }
  }

  /** The call fails exactly when a voter is untracked and an uncommitted entry has the current term. */
  lemma CommitFailsIff(n: Node)
    requires n.Valid()
    ensures n.TryAdvanceCommit().0 != Ok <==>
              SomeVoterUntracked(n)
              && exists i :: n.log.commitIndex < i <= n.log.LastIndex() && TermAt(n.log.full, i) == n.Term()
  {
    SearchFailsIff(n, n.log.LastIndex());
    if n.SearchCommit(n.log.LastIndex()).Failure? {
      FailureIsNotFound(n, n.log.LastIndex());
    }
  }

  lemma {:induction false} FailureIsNotFound(n: Node, index: LogIndex)
    requires index <= n.log.LastIndex() && n.SearchCommit(index).Failure?
    ensures n.SearchCommit(index).error == NotFound
    decreases index
  {
    if index > n.log.commitIndex && n.SearchCommit(index - 1).Failure? {
      FailureIsNotFound(n, index - 1);
    }
  }

  // ---------------------------------------------------------------- proposals that fail after appending

  /** The entry a leader would append next. */
  ghost function OwnEntry(n: Node, kind: EntryKind, payload: Bytes): LogEntry {
    LogEntry(n.log.LastIndex() + 1, n.Term(), kind, payload)
  }

  /**
   An append of the leader's own entry fails if and only if it is in term 0, and has then changed
   nothing, or a voter is untracked, and then the entry stays in the log uncommitted.
   */
  lemma AppendOwnFailsIff(n: Node, kind: EntryKind, payload: Bytes)
    requires n.Valid()
    ensures var (status, after) := n.AppendOwn(kind, payload);
            && (status != Ok <==> n.Term() == 0 || SomeVoterUntracked(n))
            && (status != Ok ==> after == if n.Term() == 0 then n else WithEntry(n, OwnEntry(n, kind, payload)))
  {
    hide Node.Valid, SomeVoterUntracked, Node.SearchCommit, Node.AppendOwn, Continues;
    AppendOwnOutcome(n, kind, payload);
    if n.Term() > 0 {
      var m := WithEntry(n, OwnEntry(n, kind, payload));
      WithEntryContinues(n, OwnEntry(n, kind, payload));
      ContinuesValid(n, m);
      CommitFailsIff(m);
      SameVotersTracked(n, m);
      assert m.log.commitIndex < m.log.LastIndex() by { CommitWithin(n); }
      assert TermAt(m.log.full, m.log.LastIndex()) == m.Term();
    }
  }

  lemma CommitWithin(n: Node)
    requires n.Valid()
    ensures n.log.commitIndex <= n.log.LastIndex()
  {
  }

  lemma SameVotersTracked(n: Node, m: Node)
    requires m.voters == n.voters && m.membership == n.membership && m.progress.Keys == n.progress.Keys
    ensures SomeVoterUntracked(m) <==> SomeVoterUntracked(n)
  {
  }

  /** A proposal that fails has changed the node if and only if it got as far as appending and a voter is
   untracked: then its entry stays in the log. */
  lemma FailedProposalAppendsIff(n: Node, payload: Bytes)
    requires n.Valid()
    ensures var (status, after) := n.Propose(payload);
            && (status != Ok && after != n <==> n.role == Leader && n.Term() > 0 && SomeVoterUntracked(n))
            && (status != Ok && after != n ==> after == WithEntry(n, OwnEntry(n, Command, payload)))
  {
    hide Settled, WellNumbered, SetOf, Distinct, ActiveMembers.ActiveVoters, SomeVoterUntracked, Node.AppendOwn;
    AppendOwnFailsIff(n, Command, payload);
    assert |WithEntry(n, OwnEntry(n, Command, payload)).log.full| == |n.log.full| + 1;
  }

  /** The bytes a membership proposal appends, when it gets that far. */
  ghost function ProposedPayload(n: Node, change: Change): Result<Bytes> {
    if n.Refusal(change) != Ok then Failure(n.Refusal(change)) else
    var entry := Build(n.membership, change);
    if entry.Failure? then Failure(entry.error) else MembershipCodec.Encode(entry.value)
  }

  lemma FailedChangeAppendsIff(n: Node, change: Change)
    requires n.Valid()
    ensures var (status, after) := n.ProposeChange(change);
            var payload := ProposedPayload(n, change);
            && (status != Ok && after != n <==> payload.Success? && n.Term() > 0 && SomeVoterUntracked(n))
            && (status != Ok && after != n ==> after == WithEntry(n, OwnEntry(n, MembershipChange, payload.value)))
  {
    hide Settled, WellNumbered, SetOf, Distinct, ActiveMembers.ActiveVoters, SomeVoterUntracked, Node.AppendOwn,
         Node.Refusal, Build, MembershipCodec.Encode;
    var payload := ProposedPayload(n, change);
    if payload.Success? {
      AppendOwnFailsIff(n, MembershipChange, payload.value);
      assert |WithEntry(n, OwnEntry(n, MembershipChange, payload.value)).log.full| == |n.log.full| + 1;
    }
  }
}
