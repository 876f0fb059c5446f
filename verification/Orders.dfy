/** Finite sets listed in ascending order: what iterating an ordered map, or sorting a vector, yields. */
module Orders {
  import opened Common

  ghost predicate TotalOn<T(!new)>(less: (T, T) -> bool, s: set<T>) {
    && (forall x :: x in s ==> !less(x, x))
    && (forall x, y :: x in s && y in s && x != y ==> less(x, y) || less(y, x))
    && (forall x, y, z :: x in s && y in s && z in s && less(x, y) && less(y, z) ==> less(x, z))
  }

  ghost predicate Sorted<T(!new)>(less: (T, T) -> bool, list: seq<T>) {
    forall i, j :: 0 <= i < j < |list| ==> less(list[i], list[j])
  }

  lemma {:induction false} LeastOf<T(!new)>(less: (T, T) -> bool, s: set<T>) returns (least: T)
    requires TotalOn(less, s) && s != {}
    ensures least in s && forall x :: x in s && x != least ==> less(least, x)
  {
    least :| least in s;
    if s != {least} {
      var other := LeastOf(less, s - {least});
      if less(other, least) {
        least := other;
      } else {
        forall x | x in s && x != least ensures less(least, x)
        {
          assert x == other || less(other, x);
        }
      }
    }
  }

  lemma LeastExists<T(!new)>(less: (T, T) -> bool, s: set<T>)
    requires TotalOn(less, s) && s != {}
    ensures exists least :: least in s && forall x :: x in s && x != least ==> less(least, x)
  {
    var least := LeastOf(less, s);
  }

  ghost function Ordered<T(!new)>(less: (T, T) -> bool, s: set<T>): (list: seq<T>)
    requires TotalOn(less, s)
    ensures Sorted(less, list) && |list| == |s|
    ensures forall x :: x in list <==> x in s
    decreases |s|
  {
    if s == {} then [] else
      LeastExists(less, s);
      var least :| least in s && forall x :: x in s && x != least ==> less(least, x);
      var rest := Ordered(less, s - {least});
      assert forall j :: 0 <= j < |rest| ==> rest[j] in rest;
      [least] + rest
  }

  lemma {:induction false} SortedUnique<T(!new)>(less: (T, T) -> bool, s: set<T>, a: seq<T>, b: seq<T>)
    requires TotalOn(less, s) && Sorted(less, a) && Sorted(less, b)
    requires forall x :: x in a <==> x in s
    requires forall x :: x in b <==> x in s
    ensures a == b
    decreases |a|
  {
    assert a != [] ==> a[0] in b;
    assert b != [] ==> b[0] in a;
    if a != [] {
      var i :| 0 <= i < |a| && a[i] == b[0];
      var j :| 0 <= j < |b| && b[j] == a[0];
      assert a[0] == b[0];
      var rest := s - {a[0]};
      forall x ensures x in a[1..] <==> x in rest
      {
        assert x in a[1..] ==> less(a[0], x);
      }
      forall x ensures x in b[1..] <==> x in rest
      {
        assert x in b[1..] ==> less(b[0], x);
      }
      SortedUnique(less, rest, a[1..], b[1..]);
    }
  }

  // ---------------------------------------------------------------- std::sort

  function Insert<T>(less: (T, T) -> bool, sorted: seq<T>, x: T): seq<T> {
    if sorted == [] || less(x, sorted[0]) then [x] + sorted else [sorted[0]] + Insert(less, sorted[1..], x)
  }

  function SortBy<T>(less: (T, T) -> bool, list: seq<T>): seq<T> {
    if list == [] then [] else Insert(less, SortBy(less, list[1..]), list[0])
  }

  lemma {:induction false} InsertFacts<T(!new)>(less: (T, T) -> bool, s: set<T>, sorted: seq<T>, x: T)
    requires TotalOn(less, s) && Sorted(less, sorted) && x in s && x !in sorted
    requires forall y :: y in sorted ==> y in s
    ensures Sorted(less, Insert(less, sorted, x))
    ensures forall y :: y in Insert(less, sorted, x) <==> y == x || y in sorted
    decreases |sorted|
  {
    if sorted == [] {
    } else if less(x, sorted[0]) {
      forall j | 0 <= j < |sorted| ensures less(x, sorted[j])
      {
        assert j > 0 ==> less(sorted[0], sorted[j]);
        assert sorted[j] in s && sorted[0] in s;
      }
    } else {
      assert sorted == [sorted[0]] + sorted[1..];
      InsertFacts(less, s, sorted[1..], x);
      var tail := Insert(less, sorted[1..], x);
      forall j | 0 <= j < |tail| ensures less(sorted[0], tail[j])
      {
        assert tail[j] in tail;
        assert tail[j] == x || tail[j] in sorted[1..];
      }
    }
  }

  ghost predicate Distinct<T(!new)>(list: seq<T>) {
    forall i, j :: 0 <= i < j < |list| ==> list[i] != list[j]
  }

  lemma {:induction false} SortByFacts<T(!new)>(less: (T, T) -> bool, s: set<T>, list: seq<T>)
    requires TotalOn(less, s) && Distinct(list)
    requires forall y :: y in list ==> y in s
    ensures Sorted(less, SortBy(less, list))
    ensures forall y :: y in SortBy(less, list) <==> y in list
    decreases |list|
  {
    if list != [] {
      assert list == [list[0]] + list[1..];
      assert list[0] !in list[1..];
      SortByFacts(less, s, list[1..]);
      InsertFacts(less, s, SortBy(less, list[1..]), list[0]);
    }
  }

  lemma SortByIsOrdered<T(!new)>(less: (T, T) -> bool, s: set<T>, list: seq<T>)
    requires TotalOn(less, s) && Distinct(list)
    requires forall y :: y in list <==> y in s
    ensures SortBy(less, list) == Ordered(less, s)
  {
    SortByFacts(less, s, list);
    SortedUnique(less, s, SortBy(less, list), Ordered(less, s));
  }

  // ---------------------------------------------------------------- byte strings

  lemma BytesOrder(s: set<Bytes>)
    ensures TotalOn(BytesLess, s)
  {
    forall x: Bytes | x in s ensures !BytesLess(x, x)
    {
      BytesLessIrreflexive(x);
    }
    forall x: Bytes, y: Bytes | x in s && y in s && x != y ensures BytesLess(x, y) || BytesLess(y, x)
    {
      BytesLessTotal(x, y);
    }
    forall x: Bytes, y: Bytes, z: Bytes | x in s && y in s && z in s && BytesLess(x, y) && BytesLess(y, z)
      ensures BytesLess(x, z)
    {
      BytesLessTransitive(x, y, z);
    }
  }
}
