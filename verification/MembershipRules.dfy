/** Joint-consensus membership: validation, the four change builders and committed application. */
module MembershipRules {
  import opened Common
  import opened RaftTypes

  // ---------------------------------------------------------------- ordering

  predicate MemberLess(a: Member, b: Member) {
    if a.id != b.id then a.id < b.id
    else if a.address.host != b.address.host then BytesLess(a.address.host, b.address.host)
    else a.address.port < b.address.port
  }

  function InsertMember(sorted: seq<Member>, m: Member): seq<Member> {
    if sorted == [] || MemberLess(m, sorted[0]) then [m] + sorted
    else [sorted[0]] + InsertMember(sorted[1..], m)
  }

  /** `std::sort` with `MemberLess`. */
  function SortMembers(members: seq<Member>): seq<Member> {
    if members == [] then []
    else InsertMember(SortMembers(members[1..]), members[0])
  }

  ghost predicate IdsNonDecreasing(members: seq<Member>) {
    forall i, j :: 0 <= i < j < |members| ==> members[i].id <= members[j].id
  }

  ghost function Ids(members: seq<Member>): set<NodeId> {
    set m | m in members :: m.id
  }

  ghost predicate DistinctIds(members: seq<Member>) {
    forall i, j :: 0 <= i < j < |members| ==> members[i].id != members[j].id
  }

  lemma {:induction false} InsertMemberPermutes(sorted: seq<Member>, m: Member)
    ensures multiset(InsertMember(sorted, m)) == multiset(sorted) + multiset{m}
  {
    hide MemberLess;
    if sorted != [] && !MemberLess(m, sorted[0]) {
      InsertMemberPermutes(sorted[1..], m);
      assert sorted == [sorted[0]] + sorted[1..];
    }
  }

  lemma {:induction false} InsertMemberElements(sorted: seq<Member>, m: Member)
    ensures forall x :: x in InsertMember(sorted, m) <==> x == m || x in sorted
  {
    hide MemberLess;
    if sorted != [] && !MemberLess(m, sorted[0]) {
      InsertMemberElements(sorted[1..], m);
      assert sorted == [sorted[0]] + sorted[1..];
    }
  }

  lemma {:induction false} InsertMemberOrders(sorted: seq<Member>, m: Member)
    requires IdsNonDecreasing(sorted)
    ensures IdsNonDecreasing(InsertMember(sorted, m))
  {
    if sorted != [] && !MemberLess(m, sorted[0]) {
      assert sorted[0].id <= m.id;
      hide MemberLess;
      var tail := InsertMember(sorted[1..], m);
      InsertMemberOrders(sorted[1..], m);
      InsertMemberElements(sorted[1..], m);
      forall j | 0 <= j < |tail| ensures sorted[0].id <= tail[j].id
      {
        assert tail[j] in tail;
      }
    }
  }

  lemma {:induction false} SortMembersPermutes(members: seq<Member>)
    ensures multiset(SortMembers(members)) == multiset(members)
    ensures IdsNonDecreasing(SortMembers(members))
  {
    if members != [] {
      hide InsertMember;
      SortMembersPermutes(members[1..]);
      InsertMemberPermutes(SortMembers(members[1..]), members[0]);
      InsertMemberOrders(SortMembers(members[1..]), members[0]);
      assert members == [members[0]] + members[1..];
    }
  }

  lemma SameElements(a: seq<Member>, b: seq<Member>)
    requires multiset(a) == multiset(b)
    ensures |a| == |b|
    ensures forall m :: m in a <==> m in b
    ensures Ids(a) == Ids(b)
  {
    assert |multiset(a)| == |a| && |multiset(b)| == |b|;
    forall m ensures m in a <==> m in b
    {
      assert m in a <==> m in multiset(a);
      assert m in b <==> m in multiset(b);
    }
  }

  lemma SortMembersFacts(members: seq<Member>)
    ensures IdsNonDecreasing(SortMembers(members))
    ensures |SortMembers(members)| == |members|
    ensures forall m :: m in SortMembers(members) <==> m in members
    ensures Ids(SortMembers(members)) == Ids(members)
  {
    SortMembersPermutes(members);
    SameElements(SortMembers(members), members);
  }

  lemma {:induction false} SortKeepsAscending(members: seq<Member>)
    requires IdsNonDecreasing(members) && DistinctIds(members)
    ensures SortMembers(members) == members
  {
    if members != [] {
      SortKeepsAscending(members[1..]);
      assert members == [members[0]] + members[1..];
    }
  }

  lemma IdsOfCons(first: Member, rest: seq<Member>)
    ensures Ids([first] + rest) == {first.id} + Ids(rest)
  {
    assert forall m :: m in [first] + rest <==> m == first || m in rest;
  }

  lemma DistinctOfCons(first: Member, rest: seq<Member>)
    ensures DistinctIds([first] + rest) <==> DistinctIds(rest) && first.id !in Ids(rest)
  {
    var all := [first] + rest;
    if DistinctIds(all) {
      forall i, j | 0 <= i < j < |rest| ensures rest[i].id != rest[j].id
      {
        assert all[i + 1].id != all[j + 1].id;
      }
      forall k | 0 <= k < |rest| ensures rest[k].id != first.id
      {
        assert all[0].id != all[k + 1].id;
      }
    }
  }

  lemma {:induction false} DistinctIffCardinality(members: seq<Member>)
    ensures |Ids(members)| <= |members|
    ensures DistinctIds(members) <==> |Ids(members)| == |members|
  {
    if members == [] {
      assert Ids(members) == {};
    } else {
      hide Ids, DistinctIds;
      var first, rest := members[0], members[1..];
      assert members == [first] + rest;
      DistinctIffCardinality(rest);
      IdsOfCons(first, rest);
      DistinctOfCons(first, rest);
      if first.id in Ids(rest) {
        assert {first.id} + Ids(rest) == Ids(rest);
      }
    }
  }

  lemma SortKeepsDistinct(members: seq<Member>)
    ensures DistinctIds(SortMembers(members)) <==> DistinctIds(members)
  {
    SortMembersFacts(members);
    DistinctIffCardinality(members);
    DistinctIffCardinality(SortMembers(members));
  }

  // ---------------------------------------------------------------- validation

  predicate GoodMember(m: Member) {
    m.id != 0 && m.address.host != [] && m.address.port != 0
  }

  ghost predicate GoodMembers(members: seq<Member>) {
    (forall m :: m in members ==> GoodMember(m)) && DistinctIds(members)
  }

  /** What a membership has to satisfy to be accepted, independent of any sorting. */
  ghost predicate ValidMembership(m: Membership) {
    && m.configurationId != 0
    && m.voters != []
    && GoodMembers(m.voters) && GoodMembers(m.learners)
    && GoodMembers(m.nextVoters) && GoodMembers(m.nextLearners)
    && Ids(m.voters) !! Ids(m.learners)
    && (!m.inTransition ==> m.nextVoters == [] && m.nextLearners == [])
    && (m.inTransition ==> m.nextVoters != [] && Ids(m.nextVoters) !! Ids(m.nextLearners))
  }

  /** Sort, then compare neighbours. */
  method ValidateMembers(members: seq<Member>) returns (status: Status)
    ensures status == if GoodMembers(members) then Ok else InvalidArgument
  {
    var normalized := SortMembers(members);
    SortMembersFacts(members);
    SortKeepsDistinct(members);
    for i := 0 to |normalized|
      invariant forall k :: 0 <= k < i ==> GoodMember(normalized[k])
      invariant forall j, k :: 0 <= j < k < i ==> normalized[j].id != normalized[k].id
    {
      assert normalized[i] in members;
      if normalized[i].id == 0 {
        return InvalidArgument;
      }
      if i > 0 && normalized[i - 1].id == normalized[i].id {
        return InvalidArgument;
      }
      if normalized[i].address.host == [] || normalized[i].address.port == 0 {
        return InvalidArgument;
      }
    }
    assert forall m :: m in members ==> m in normalized;
    return Ok;
  }

  /** The two-pointer scan over two sorted vectors. */
  method ShareAnId(a: seq<Member>, b: seq<Member>) returns (shared: bool)
    requires IdsNonDecreasing(a) && IdsNonDecreasing(b)
    ensures shared <==> !(Ids(a) !! Ids(b))
  {
    var i, j := 0, 0;
    while i < |a| && j < |b|
      invariant 0 <= i <= |a| && 0 <= j <= |b|
      invariant forall x, y :: 0 <= x < |a| && 0 <= y < |b| && (x < i || y < j) ==> a[x].id != b[y].id
      decreases |a| - i + |b| - j
    {
      if a[i].id == b[j].id {
        assert a[i].id in Ids(a) && b[j].id in Ids(b);
        return true;
      }
      if a[i].id < b[j].id {
        i := i + 1;
      } else {
        j := j + 1;
      }
    }
    return false;
  }

  method ValidateMembership(m: Membership) returns (status: Status)
    ensures status == if ValidMembership(m) then Ok else InvalidArgument
  {
    if m.configurationId == 0 || m.voters == [] {
      return InvalidArgument;
    }
    status := ValidateMembers(m.voters);
    if status != Ok { return; }
    status := ValidateMembers(m.learners);
    if status != Ok { return; }
    status := ValidateMembers(m.nextVoters);
    if status != Ok { return; }
    status := ValidateMembers(m.nextLearners);
    if status != Ok { return; }
    SortMembersFacts(m.voters);
    SortMembersFacts(m.learners);
    var shared := ShareAnId(SortMembers(m.voters), SortMembers(m.learners));
    if shared {
      return InvalidArgument;
    }
    if !m.inTransition {
      return if m.nextVoters != [] || m.nextLearners != [] then InvalidArgument else Ok;
    }
    if m.nextVoters == [] {
      return InvalidArgument;
    }
    SortMembersFacts(m.nextVoters);
    SortMembersFacts(m.nextLearners);
    shared := ShareAnId(SortMembers(m.nextVoters), SortMembers(m.nextLearners));
    return if shared then InvalidArgument else Ok;
  }

  // ---------------------------------------------------------------- normal form

  /** Voters and learners are sorted; the target sets keep their order. */
  function Sorted(m: Membership): Membership {
    m.(voters := SortMembers(m.voters), learners := SortMembers(m.learners))
  }

  /** `NormalizeView`, `NormalizeLogEntry` and `FromView`. */
  ghost function Normalize(m: Membership): Result<Membership> {
    if ValidMembership(m) then Success(Sorted(m)) else Failure(InvalidArgument)
  }

  lemma SortedFacts(m: Membership)
    requires ValidMembership(m)
    ensures ValidMembership(Sorted(m))
    ensures Sorted(Sorted(m)) == Sorted(m)
    ensures Ids(Sorted(m).voters) == Ids(m.voters) && Ids(Sorted(m).learners) == Ids(m.learners)
  {
    SortMembersFacts(m.voters);
    SortMembersFacts(m.learners);
    SortKeepsDistinct(m.voters);
    SortKeepsDistinct(m.learners);
    SortKeepsAscending(SortMembers(m.voters));
    SortKeepsAscending(SortMembers(m.learners));
  }

  /** A membership a `MembershipState` can hold. */
  ghost predicate Settled(m: Membership) {
    ValidMembership(m) && Sorted(m) == m
  }

  // ---------------------------------------------------------------- membership changes

  predicate HasId(members: seq<Member>, id: NodeId) {
    exists k :: 0 <= k < |members| && members[k].id == id
  }

  predicate IsVoter(m: Membership, id: NodeId) {
    HasId(m.voters, id) || (m.inTransition && HasId(m.nextVoters, id))
  }

  predicate IsLearner(m: Membership, id: NodeId) {
    HasId(m.learners, id) && (!m.inTransition || !HasId(m.nextVoters, id))
  }

  /** `find_if` on the node id. */
  function Find(members: seq<Member>, id: NodeId): (found: Option<Member>)
    ensures found.Some? <==> HasId(members, id)
    ensures found.Some? ==> found.value in members && found.value.id == id
  {
    if members == [] then None
    else if members[0].id == id then Some(members[0])
    else Find(members[1..], id)
  }

  /** Erases the first member with the id. */
  function Erase(members: seq<Member>, id: NodeId): seq<Member> {
    if members == [] then []
    else if members[0].id == id then members[1..]
    else [members[0]] + Erase(members[1..], id)
  }

  lemma {:induction false} EraseFacts(members: seq<Member>, id: NodeId)
    requires DistinctIds(members)
    ensures DistinctIds(Erase(members, id))
    ensures forall m :: m in Erase(members, id) <==> m in members && m.id != id
    ensures Ids(Erase(members, id)) == Ids(members) - {id}
  {
    if members != [] {
      assert members == [members[0]] + members[1..];
      assert forall m :: m in members[1..] ==> m.id != members[0].id;
      EraseFacts(members[1..], id);
    }
  }

  datatype Change =
    | AddLearner(learner: Member)
    | PromoteLearner(learnerId: NodeId)
    | RemoveMember(memberId: NodeId)
    | Finalize

  /** The entry a change drafts, before it is normalised. */
  function Draft(m: Membership, change: Change): Result<Membership> {
    if m == NO_MEMBERSHIP then Failure(InvalidArgument)
    else match change
    case AddLearner(learner) =>
      if m.inTransition then Failure(Busy)
      else if !GoodMember(learner) || IsVoter(m, learner.id) || IsLearner(m, learner.id)
              || UsesAddress(m.voters, learner.address) || UsesAddress(m.learners, learner.address)
      then Failure(InvalidArgument)
      else Success(Membership(m.configurationId + 1, m.voters, m.learners + [learner], false, [], []))
    case PromoteLearner(id) =>
      if m.inTransition then Failure(Busy)
      else if id == 0 || IsVoter(m, id) then Failure(InvalidArgument)
      else
        var learner := Find(m.learners, id);
        if learner.None? then Failure(InvalidArgument)
        else Success(Membership(m.configurationId + 1, m.voters, m.learners, true,
                                m.voters + [learner.value], Erase(m.learners, id)))
    case RemoveMember(id) =>
      if m.inTransition then Failure(Busy)
      else if id == 0 then Failure(InvalidArgument)
      else if HasId(m.voters, id) then
        if |m.voters| == 1 then Failure(InvalidArgument)
        else Success(Membership(m.configurationId + 1, m.voters, m.learners, true,
                                Erase(m.voters, id), m.learners))
      else if !HasId(m.learners, id) then Failure(InvalidArgument)
      else Success(Membership(m.configurationId + 1, m.voters, Erase(m.learners, id), false, [], []))
    case Finalize =>
      if !m.inTransition then Failure(InvalidArgument)
      else Success(Membership(m.configurationId + 1, m.nextVoters, m.nextLearners, false, [], []))
  }

  predicate UsesAddress(members: seq<Member>, address: NodeAddress) {
    exists k :: 0 <= k < |members| && members[k].address == address
  }

  /** The four `Build...LogEntry` functions. */
  ghost function Build(m: Membership, change: Change): Result<Membership> {
    var candidate := Draft(m, change);
    if candidate.Failure? then candidate else Normalize(candidate.value)
  }

  method BuildEntry(m: Membership, change: Change) returns (entry: Result<Membership>)
    ensures entry == Build(m, change)
  {
    entry := Draft(m, change);
    if entry.Success? {
      var status := ValidateMembership(entry.value);
      entry := if status == Ok then Success(Sorted(entry.value)) else Failure(status);
    }
  }

  /** `MembershipState::ApplyCommitted`. */
  ghost function ApplyEntry(m: Membership, entry: Membership): Result<Membership> {
    var normalized := Normalize(entry);
    if normalized.Failure? then normalized
    else if m == NO_MEMBERSHIP then normalized
    else if entry.configurationId < m.configurationId then Failure(InvalidArgument)
    else if entry.configurationId == m.configurationId then
      if Normalize(m) == normalized then Success(m) else Failure(InvalidArgument)
    else normalized
  }

  // ---------------------------------------------------------------- the membership state object

  class MembershipState {
    var view: Membership

    constructor ()
      ensures view == NO_MEMBERSHIP
    {
      view := NO_MEMBERSHIP;
    }

    method FromView(candidate: Membership) returns (status: Status)
      modifies this
      ensures status == if Normalize(candidate).Success? then Ok else InvalidArgument
      ensures view == if status == Ok then Normalize(candidate).value else old(view)
    {
      status := ValidateMembership(candidate);
      if status == Ok {
        view := Sorted(candidate);
      }
    }

    method ApplyCommitted(entry: Membership) returns (status: Status)
      modifies this
      ensures var r := ApplyEntry(old(view), entry);
              if r.Success? then status == Ok && view == r.value
              else status == r.error == InvalidArgument && view == old(view)
    {
      status := ValidateMembership(entry);
      if status != Ok {
        return;
      }
      var incoming := Sorted(entry);
      if view == NO_MEMBERSHIP {
        SortedFacts(entry);
        status := FromView(incoming);
        return;
      }
      if incoming.configurationId < view.configurationId {
        return InvalidArgument;
      }
      if incoming.configurationId == view.configurationId {
        status := ValidateMembership(view);
        if status != Ok {
          return;
        }
        return if Sorted(view) != incoming then InvalidArgument else Ok;
      }
      SortedFacts(entry);
      status := FromView(incoming);
    }
  }
}
