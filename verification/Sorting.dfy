/** A stable sort: what Python's `sorted` computes. */
module Sorting {

  /** Puts `x` behind the last element that may stand before it. */
  function Insert<T>(s: seq<T>, x: T, le: (T, T) -> bool): seq<T> {
    if s == [] || le(s[|s| - 1], x) then s + [x]
    else Insert(s[..|s| - 1], x, le) + [s[|s| - 1]]
  }

  function StableSort<T>(s: seq<T>, le: (T, T) -> bool): seq<T> {
    if s == [] then [] else Insert(StableSort(s[..|s| - 1], le), s[|s| - 1], le)
  }

  ghost predicate TotalPreorder<T(!new)>(le: (T, T) -> bool) {
    && (forall x, y :: le(x, y) || le(y, x))
    && (forall x, y, z :: le(x, y) && le(y, z) ==> le(x, z))
  }

  predicate Ordered<T>(s: seq<T>, before: (T, T) -> bool) {
    forall i, j :: 0 <= i < j < |s| ==> before(s[i], s[j])
  }

  /** By `le`, and by `lt` among the equal. */
  function Lexicographic<T>(le: (T, T) -> bool, lt: (T, T) -> bool): (T, T) -> bool {
    (x, y) => !le(y, x) || (le(x, y) && lt(x, y))
  }

  lemma {:induction false} InsertMembers<T(!new)>(s: seq<T>, x: T, le: (T, T) -> bool)
    ensures multiset(Insert(s, x, le)) == multiset(s) + multiset{x}
    ensures forall y :: y in Insert(s, x, le) <==> y in s || y == x
  {
    if s != [] && !le(s[|s| - 1], x) {
      var front, last := s[..|s| - 1], s[|s| - 1];
      assert s == front + [last];
      InsertMembers(front, x, le);
    }
  }

  lemma {:induction false} InsertOrders<T(!new)>(s: seq<T>, x: T, le: (T, T) -> bool, lt: (T, T) -> bool)
    requires TotalPreorder(le) && Ordered(s, Lexicographic(le, lt))
    requires forall y :: y in s ==> lt(y, x)
    ensures Ordered(Insert(s, x, le), Lexicographic(le, lt))
  {
    if s != [] && !le(s[|s| - 1], x) {
      var front, last := s[..|s| - 1], s[|s| - 1];
      InsertOrders(front, x, le, lt);
      InsertMembers(front, x, le);
      forall y | y in Insert(front, x, le)
        ensures Lexicographic(le, lt)(y, last)
      {
        if y in front {
          var i :| 0 <= i < |front| && front[i] == y;
          assert Lexicographic(le, lt)(s[i], s[|s| - 1]);
        }
      }
    }
  }

  /** Sorting a list ordered by `lt` orders it by `le`, and by `lt` among the equal. */
  lemma {:induction false} SortIsStable<T(!new)>(s: seq<T>, le: (T, T) -> bool, lt: (T, T) -> bool)
    requires TotalPreorder(le) && Ordered(s, lt)
    ensures multiset(StableSort(s, le)) == multiset(s)
    ensures Ordered(StableSort(s, le), Lexicographic(le, lt))
  {
    if s != [] {
      var front, last := s[..|s| - 1], s[|s| - 1];
      assert s == front + [last];
      SortIsStable(front, le, lt);
      forall y | y in StableSort(front, le)
        ensures lt(y, last)
      {
        assert y in multiset(front);
      }
      InsertMembers(StableSort(front, le), last, le);
      InsertOrders(StableSort(front, le), last, le, lt);
    }
  }
}
