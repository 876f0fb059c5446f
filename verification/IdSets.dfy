/** Ascending id vectors and the finite sets they list. */
module IdSets {
  import opened Common

  ghost predicate Ascending(ids: seq<NodeId>) {
    forall i, j :: 0 <= i < j < |ids| ==> ids[i] < ids[j]
  }

  ghost predicate Distinct(ids: seq<NodeId>) {
    forall i, j :: 0 <= i < j < |ids| ==> ids[i] != ids[j]
  }

  ghost function SetOf(ids: seq<NodeId>): set<NodeId> {
    set id | id in ids
  }

  lemma {:induction false} FindLeast(s: set<NodeId>) returns (least: NodeId)
    requires s != {}
    ensures least in s && forall id :: id in s ==> least <= id
  {
    least :| least in s;
    if s != {least} {
      var other := FindLeast(s - {least});
      forall id | id in s ensures Min(least, other) <= id
      {
        assert id == least || id in s - {least};
      }
      least := Min(least, other);
    }
  }

  lemma LeastExists(s: set<NodeId>)
    requires s != {}
    ensures exists least :: least in s && forall id :: id in s ==> least <= id
  {
    var least := FindLeast(s);
  }

  lemma ListingStep(s: set<NodeId>, least: NodeId, others: seq<NodeId>)
    requires least in s && (forall id :: id in s ==> least <= id)
    requires Ascending(others) && |others| == |s - {least}|
    requires forall id :: id in others <==> id in s - {least}
    ensures Ascending([least] + others) && |[least] + others| == |s|
    ensures forall id :: id in [least] + others <==> id in s
  {
    forall k | 0 <= k < |others| ensures least < others[k]
    {
      assert others[k] in others;
    }
  }

  /** The members of a set in ascending order: what collecting ids and sorting them yields. */
  ghost function Listing(s: set<NodeId>): (ids: seq<NodeId>)
    ensures Ascending(ids)
    ensures forall id :: id in ids <==> id in s
    ensures |ids| == |s|
  {
    if s == {} then [] else
      LeastExists(s);
      var least :| least in s && forall id :: id in s ==> least <= id;
      var others := Listing(s - {least});
      ListingStep(s, least, others);
      [least] + others
  }

  lemma ListingFacts(s: set<NodeId>)
    ensures SetOf(Listing(s)) == s
    ensures Distinct(Listing(s))
  {
    assert forall id :: id in SetOf(Listing(s)) <==> id in s;
  }

  lemma {:induction false} AscendingUnique(a: seq<NodeId>, b: seq<NodeId>)
    requires Ascending(a) && Ascending(b)
    requires forall id :: id in a <==> id in b
    ensures a == b
  {
    assert a != [] ==> a[0] in b;
    assert b != [] ==> b[0] in a;
    if a != [] {
      assert a[0] == b[0];
      forall id ensures id in a[1..] <==> id in b[1..]
      {
        assert id in a[1..] ==> id in a && id != a[0];
        assert id in b[1..] ==> id in b && id != b[0];
      }
      AscendingUnique(a[1..], b[1..]);
    }
  }

  function InsertId(sorted: seq<NodeId>, id: NodeId): seq<NodeId> {
    if sorted == [] || id < sorted[0] then [id] + sorted
    else [sorted[0]] + InsertId(sorted[1..], id)
  }

  /** `std::sort` on node ids. */
  function SortIds(ids: seq<NodeId>): seq<NodeId> {
    if ids == [] then [] else InsertId(SortIds(ids[1..]), ids[0])
  }

  lemma {:induction false} InsertIdFacts(sorted: seq<NodeId>, id: NodeId)
    requires Ascending(sorted) && id !in sorted
    ensures Ascending(InsertId(sorted, id))
    ensures forall x :: x in InsertId(sorted, id) <==> x == id || x in sorted
  {
    if sorted == [] || id < sorted[0] {
    } else {
      assert sorted == [sorted[0]] + sorted[1..];
      InsertIdFacts(sorted[1..], id);
      var tail := InsertId(sorted[1..], id);
      forall j | 0 <= j < |tail| ensures sorted[0] < tail[j]
      {
        assert tail[j] in tail;
      }
    }
  }

  lemma {:induction false} SortIdsFacts(ids: seq<NodeId>)
    requires Distinct(ids)
    ensures Ascending(SortIds(ids))
    ensures forall x :: x in SortIds(ids) <==> x in ids
  {
    if ids != [] {
      assert ids == [ids[0]] + ids[1..];
      assert ids[0] !in ids[1..];
      SortIdsFacts(ids[1..]);
      InsertIdFacts(SortIds(ids[1..]), ids[0]);
    }
  }

  lemma SortIdsIsListing(ids: seq<NodeId>, s: set<NodeId>)
    requires Distinct(ids)
    requires forall x :: x in ids <==> x in s
    ensures SortIds(ids) == Listing(s)
  {
    SortIdsFacts(ids);
    AscendingUnique(SortIds(ids), Listing(s));
  }

  /** Two majorities of one set have a member in common. */
  lemma MajoritiesIntersect(all: set<NodeId>, a: set<NodeId>, b: set<NodeId>)
    requires a <= all && b <= all
    requires |a| >= |all| / 2 + 1 && |b| >= |all| / 2 + 1
    ensures a * b != {}
  {
    SubsetSize(a + b, all);
    assert |a + b| + |a * b| == |a| + |b|;
  }

  lemma {:induction false} SubsetSize(a: set<NodeId>, b: set<NodeId>)
    requires a <= b
    ensures |a| <= |b|
  {
    if a != {} {
      var x :| x in a;
      SubsetSize(a - {x}, b - {x});
    }
  }
}
