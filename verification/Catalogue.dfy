/** Rows ordered by a number they carry, and by id among equal numbers. */
module Ordering {
  import opened Options
  import opened Totals

  /** `group` is the category of a product; categories themselves are one group. */
  datatype Item = Item(group: int, order: int, active: bool)

  type Table = map<int, Item>

  predicate Before(t: Table, x: int, y: int)
    requires x in t && y in t
  {
    t[x].order < t[y].order || (t[x].order == t[y].order && x < y)
  }

  function Members(t: Table, g: int): set<int> {
    set x | x in t && t[x].group == g
  }

  lemma SomeMember(s: set<int>)
    requires s != {}
    ensures exists x :: x in s
  {
    var x := Pick(s);
  }

  ghost function Least(t: Table, ids: set<int>): (x: int)
    requires ids != {} && ids <= t.Keys
    ensures x in ids && forall y :: y in ids && y != x ==> Before(t, x, y)
    decreases |ids|
  {
    SomeMember(ids);
    var y :| y in ids;
    if ids == {y} then y
    else
      var m := Least(t, ids - {y});
      assert forall z :: z in ids && z != y ==> z in ids - {y};
      if Before(t, y, m) then y else m
  }

  /** Strictly ordered, hence without repetition. */
  ghost predicate InOrder(t: Table, s: seq<int>) {
    && (forall i :: 0 <= i < |s| ==> s[i] in t)
    && (forall i, j :: 0 <= i < j < |s| ==> Before(t, s[i], s[j]))
  }

  ghost function Sorted(t: Table, ids: set<int>): (s: seq<int>)
    requires ids <= t.Keys
    ensures InOrder(t, s) && (forall x :: x in s <==> x in ids)
    decreases |ids|
  {
    if ids == {} then []
    else
      var x := Least(t, ids);
      var rest := Sorted(t, ids - {x});
      assert forall i :: 0 <= i < |rest| ==> rest[i] in rest;
      [x] + rest
  }

  /** The rows of a group as they are shown. */
  ghost function Listing(t: Table, g: int): seq<int> {
    Sorted(t, Members(t, g))
  }

  /** There is only one way to list a set in order. */
  lemma {:induction false} OrderIsUnique(t: Table, s: seq<int>, r: seq<int>)
    requires InOrder(t, s) && InOrder(t, r) && (forall x :: x in s <==> x in r)
    ensures s == r
    decreases |s|
  {
    if s != [] {
      var x := s[0];
      assert x in s;
    }
    if r != [] {
      var x := r[0];
      assert x in r;
    }
    if s != [] && r != [] {
      FirstIsLeast(t, s, r);
      FirstIsLeast(t, r, s);
      forall x
        ensures x in s[1..] <==> x in r[1..]
      {
        RestOf(t, s, x);
        RestOf(t, r, x);
      }
      OrderIsUnique(t, s[1..], r[1..]);
      assert s == [s[0]] + s[1..] && r == [r[0]] + r[1..];
    }
  }

  lemma FirstIsLeast(t: Table, s: seq<int>, r: seq<int>)
    requires InOrder(t, s) && InOrder(t, r) && s != [] && r != [] && (forall x :: x in s <==> x in r)
    ensures !Before(t, r[0], s[0])
  {
    assert r[0] in r;
    var i :| 0 <= i < |s| && s[i] == r[0];
    assert i > 0 ==> Before(t, s[0], s[i]);
  }

  lemma RestOf(t: Table, s: seq<int>, x: int)
    requires InOrder(t, s) && s != []
    ensures x in s[1..] <==> x in s && x != s[0]
  {
    if x in s[1..] {
      var i :| 0 <= i < |s| - 1 && s[1..][i] == x;
      assert Before(t, s[0], s[i + 1]);
    }
  }

  /** Anything in order with the right members is the listing. */
  lemma IsListing(t: Table, g: int, s: seq<int>)
    requires InOrder(t, s) && (forall x :: x in s <==> x in Members(t, g))
    ensures s == Listing(t, g)
  {
    OrderIsUnique(t, s, Listing(t, g));
  }

  // ----- what the services do to such a table -----

  /** One more than the greatest order of the group, or zero for an empty group. */
  ghost function NextOrder(t: Table, g: int): (n: int)
    ensures forall x :: x in Members(t, g) ==> t[x].order < n
    ensures if Members(t, g) == {} then n == 0 else exists x :: x in Members(t, g) && t[x].order == n - 1
  {
    var l := Listing(t, g);
    if l == [] then (assert forall x :: x in Members(t, g) <==> x in l; 0)
    else
      var last := l[|l| - 1];
      assert last in l && last in Members(t, g);
      assert forall x :: x in l ==> x == last || Before(t, x, last);
      t[last].order + 1
  }

  ghost function Create(t: Table, id: int, g: int): Table
    requires id !in t
  {
    t[id := Item(g, NextOrder(t, g), true)]
  }

  /** The rows of the same group before, or after, the given one. */
  function Beyond(t: Table, id: int, up: bool): set<int>
    requires id in t
  {
    set x | x in t && t[x].group == t[id].group && (if up then Before(t, x, id) else Before(t, id, x))
  }

  /** The closest row in the direction of the move. */
  ghost function Neighbour(t: Table, id: int, up: bool): (n: Option<int>)
    requires id in t
    ensures n == None <==> Beyond(t, id, up) == {}
    ensures n.Some? ==> n.value in Beyond(t, id, up)
                        && forall x :: x in Beyond(t, id, up) && x != n.value ==>
                             if up then Before(t, x, n.value) else Before(t, n.value, x)
  {
    var s := Sorted(t, Beyond(t, id, up));
    if s == [] then (assert forall x :: x in Beyond(t, id, up) <==> x in s; None)
    else
      var n := if up then s[|s| - 1] else s[0];
      assert n in s;
      assert forall x :: x in s && x != n ==> if up then Before(t, x, n) else Before(t, n, x);
      Some(n)
  }

  function SwapOrders(t: Table, x: int, y: int): Table
    requires x in t && y in t
  {
    t[x := t[x].(order := t[y].order)][y := t[y].(order := t[x].order)]
  }

  ghost function Move(t: Table, id: int, up: bool): Table
    requires id in t
  {
    var n := Neighbour(t, id, up);
    if n == None then t else SwapOrders(t, id, n.value)
  }

  function Delete(t: Table, id: int): Table {
    t - {id}
  }

  // ----- what the shown list becomes -----

  /** No two rows of a group carry the same number. */
  ghost predicate Distinct(t: Table) {
    forall x, y :: x in t && y in t && x != y && t[x].group == t[y].group ==> t[x].order != t[y].order
  }

  /** The list with `id` swapped with the one before, or after, it. */
  function Shifted(s: seq<int>, id: int, up: bool): seq<int> {
    if s == [] then []
    else if |s| == 1 then s
    else if (if up then s[1] == id else s[0] == id) then [s[1], s[0]] + s[2..]
    else [s[0]] + Shifted(s[1..], id, up)
  }

  function Without(s: seq<int>, id: int): seq<int> {
    if s == [] then []
    else if s[0] == id then Without(s[1..], id)
    else [s[0]] + Without(s[1..], id)
  }

  lemma CreateAppends(t: Table, id: int, g: int)
    requires id !in t
    ensures forall h :: Listing(Create(t, id, g), h) == if h == g then Listing(t, g) + [id] else Listing(t, h)
    ensures Distinct(t) ==> Distinct(Create(t, id, g))
  {
    hide NextOrder, Listing, Sorted;
    forall h
      ensures Listing(Create(t, id, g), h) == if h == g then Listing(t, g) + [id] else Listing(t, h)
    {
      AppendedInGroup(t, id, g, NextOrder(t, g), h);
    }
  }

  lemma AppendedInGroup(t: Table, id: int, g: int, n: int, h: int)
    requires id !in t && forall x :: x in Members(t, g) ==> t[x].order < n
    ensures Listing(t[id := Item(g, n, true)], h) == if h == g then Listing(t, g) + [id] else Listing(t, h)
  {
    hide Sorted;
    var t' := t[id := Item(g, n, true)];
    var l := Listing(t, h);
    assert forall i :: 0 <= i < |l| ==> l[i] in l;
    IsListing(t', h, if h == g then l + [id] else l);
  }

  lemma {:induction false} WithoutMembers(t: Table, s: seq<int>, id: int)
    requires InOrder(t, s)
    ensures InOrder(t, Without(s, id))
    ensures forall x :: x in Without(s, id) <==> x in s && x != id
    decreases |s|
  {
    if s != [] {
      WithoutMembers(t, s[1..], id);
      var rest := Without(s[1..], id);
      assert s == [s[0]] + s[1..];
      forall i | 0 <= i < |rest|
        ensures Before(t, s[0], rest[i])
      {
        assert rest[i] in rest;
        var j :| 0 <= j < |s| - 1 && s[1..][j] == rest[i];
        assert Before(t, s[0], s[j + 1]);
      }
    }
  }

  lemma DeleteRemoves(t: Table, id: int)
    ensures forall h :: Listing(Delete(t, id), h) == Without(Listing(t, h), id)
    ensures Distinct(t) ==> Distinct(Delete(t, id))
  {
    var t' := Delete(t, id);
    forall h
      ensures Listing(t', h) == Without(Listing(t, h), id)
    {
      WithoutMembers(t, Listing(t, h), id);
      var l := Without(Listing(t, h), id);
      assert forall i :: 0 <= i < |l| ==> l[i] in l;
      IsListing(t', h, l);
    }
  }

  // ----- moves -----

  /** Where a row of the group stands in the list. */
  lemma Position(t: Table, id: int) returns (i: nat)
    requires id in t
    ensures i < |Listing(t, t[id].group)| && Listing(t, t[id].group)[i] == id
  {
    var l := Listing(t, t[id].group);
    assert id in Members(t, t[id].group);
    assert id in l;
    i :| 0 <= i < |l| && l[i] == id;
  }

  /** The row a move swaps with is the one next to it in the list; at the end of the list there is none. */
  lemma NeighbourIsAdjacent(t: Table, id: int, up: bool, i: nat)
    requires id in t
    requires i < |Listing(t, t[id].group)| && Listing(t, t[id].group)[i] == id
    ensures var l := Listing(t, t[id].group);
            Neighbour(t, id, up) == if up then (if i == 0 then None else Some(l[i - 1]))
                                    else if i == |l| - 1 then None else Some(l[i + 1])
  {
    hide Listing, Sorted, Neighbour;
    var l := Listing(t, t[id].group);
    ListingFacts(t, t[id].group);
    forall x | x in Beyond(t, id, up)
      ensures exists j :: 0 <= j < |l| && l[j] == x && (if up then j < i else i < j)
    {
      assert x in l;
      var j :| 0 <= j < |l| && l[j] == x;
      assert j < i ==> Before(t, l[j], l[i]);
      assert i < j ==> Before(t, l[i], l[j]);
    }
    if up && i > 0 {
      assert Before(t, l[i - 1], l[i]);
      assert l[i - 1] in Beyond(t, id, up);
    } else if !up && i < |l| - 1 {
      assert Before(t, l[i], l[i + 1]);
      assert l[i + 1] in Beyond(t, id, up);
    }
  }

  lemma ListingFacts(t: Table, g: int)
    ensures InOrder(t, Listing(t, g))
    ensures forall x :: x in Listing(t, g) <==> x in Members(t, g)
    ensures forall i | 0 <= i < |Listing(t, g)| :: Listing(t, g)[i] in t && t[Listing(t, g)[i]].group == g
  {
    var l := Listing(t, g);
    forall i | 0 <= i < |l|
      ensures l[i] in t && t[l[i]].group == g
    {
      var x := l[i];
      assert x in l;
    }
  }

  function Swapped(s: seq<int>, j: nat): seq<int>
    requires j + 1 < |s|
  {
    s[j := s[j + 1]][j + 1 := s[j]]
  }

  /** Two rows of a group, `a` listed before `b`, whose swapped numbers put each where the other was: the numbers
      differ, and the ids of the rows that share one of them do not get in between. */
  predicate Apart(t: Table, a: int, b: int)
    requires a in t && b in t
  {
    && t[a].order != t[b].order
    && (forall x :: x in t && t[x].group == t[a].group && x != a && x != b ==>
          (t[x].order == t[a].order ==> x < b) && (t[x].order == t[b].order ==> a < x))
  }

  lemma DistinctIsApart(t: Table, a: int, b: int)
    requires Distinct(t) && a in t && b in t && a != b && t[a].group == t[b].group
    ensures Apart(t, a, b)
  {
  }

  /** Swapping the numbers of two adjacent rows swaps them in the list exactly when they are apart. */
  lemma SwapOrdersSwaps(t: Table, g: int, j: nat)
    requires j + 1 < |Listing(t, g)|
    ensures var l := Listing(t, g);
            && l[j] in t && l[j + 1] in t
            && (Listing(SwapOrders(t, l[j], l[j + 1]), g) == Swapped(l, j) <==> Apart(t, l[j], l[j + 1]))
  {
    hide Listing, Sorted;
    var l := Listing(t, g);
    ListingFacts(t, g);
    assert Before(t, l[j], l[j + 1]);
    var t' := SwapOrders(t, l[j], l[j + 1]);
    if Apart(t, l[j], l[j + 1]) {
      ApartSwaps(t, l, j);
      SwappedMembers(l, j);
      IsListing(t', g, Swapped(l, j));
    } else {
      ListingFacts(t', g);
      if Listing(t', g) == Swapped(l, j) {
        SwapsApart(t, g, l, j);
      }
    }
  }

  lemma ApartSwaps(t: Table, l: seq<int>, j: nat)
    requires j + 1 < |l| && InOrder(t, l) && Apart(t, l[j], l[j + 1])
    requires forall i :: 0 <= i < |l| ==> t[l[i]].group == t[l[j]].group
    ensures InOrder(SwapOrders(t, l[j], l[j + 1]), Swapped(l, j))
  {
    var t', r := SwapOrders(t, l[j], l[j + 1]), Swapped(l, j);
    OnlyAt(t, l, j);
    OnlyAt(t, l, j + 1);
    assert Before(t, l[j], l[j + 1]);
    forall a, b | 0 <= a < b < |r|
      ensures Before(t', r[a], r[b])
    {
      assert Before(t, l[a], l[b]);
      if b == j { assert Before(t, l[a], l[j + 1]); }
      if a == j + 1 { assert Before(t, l[j], l[b]); }
    }
  }

  lemma SwapsApart(t: Table, g: int, l: seq<int>, j: nat)
    requires j + 1 < |l| && InOrder(t, l)
    requires forall x :: x in l <==> x in Members(t, g)
    requires InOrder(SwapOrders(t, l[j], l[j + 1]), Swapped(l, j))
    ensures Apart(t, l[j], l[j + 1])
  {
    var t', r, p, q := SwapOrders(t, l[j], l[j + 1]), Swapped(l, j), l[j], l[j + 1];
    assert Before(t, p, q) && Before(t', r[j], r[j + 1]);
    assert p in l;
    forall x | x in t && t[x].group == t[p].group && x != p && x != q
      ensures (t[x].order == t[p].order ==> x < q) && (t[x].order == t[q].order ==> p < x)
    {
      assert x in l;
      var k :| 0 <= k < |l| && l[k] == x;
      assert r[k] == x;
      if k < j {
        assert Before(t, l[k], l[j]) && Before(t', r[k], r[j]);
      } else {
        assert Before(t, l[j + 1], l[k]) && Before(t', r[j + 1], r[k]);
      }
    }
  }

  /** Swapping numbers in one group leaves the lists of the others. */
  lemma OtherListsStay(t: Table, x: int, y: int, h: int)
    requires x in t && y in t && t[x].group != h && t[y].group != h
    ensures Listing(SwapOrders(t, x, y), h) == Listing(t, h)
  {
    hide Listing, Sorted;
    var t', r := SwapOrders(t, x, y), Listing(t, h);
    ListingFacts(t, h);
    forall a, b | 0 <= a < b < |r|
      ensures Before(t', r[a], r[b])
    {
      assert Before(t, r[a], r[b]);
    }
    IsListing(t', h, r);
  }

  lemma SwappedMembers(s: seq<int>, j: nat)
    requires j + 1 < |s|
    ensures forall x :: x in Swapped(s, j) <==> x in s
  {
    var r := Swapped(s, j);
    assert forall i :: 0 <= i < |s| ==> s[i] == r[if i == j then j + 1 else if i == j + 1 then j else i];
    assert r[j] == s[j + 1] && r[j + 1] == s[j];
  }

  /** `Shifted` by position. */
  lemma {:induction false} ShiftedAt(s: seq<int>, id: int, up: bool, i: nat)
    requires i < |s| && s[i] == id && (forall j :: 0 <= j < |s| && j != i ==> s[j] != id)
    ensures Shifted(s, id, up) == if up && 0 < i then Swapped(s, i - 1)
                                  else if !up && i + 1 < |s| then Swapped(s, i) else s
    decreases |s|
  {
    if |s| > 1 && !(if up then s[1] == id else s[0] == id) {
      if i > 0 {
        ShiftedAt(s[1..], id, up, i - 1);
      } else {
        ShiftedAbsent(s[1..], id, up);
      }
    }
  }

  lemma {:induction false} ShiftedAbsent(s: seq<int>, id: int, up: bool)
    requires id !in s
    ensures Shifted(s, id, up) == s
    decreases |s|
  {
    if |s| > 1 {
      ShiftedAbsent(s[1..], id, up);
    }
  }

  /** Rows in order do not repeat. */
  lemma OnlyAt(t: Table, s: seq<int>, i: nat)
    requires InOrder(t, s) && i < |s|
    ensures forall j :: 0 <= j < |s| && j != i ==> s[j] != s[i]
  {
    forall j | 0 <= j < |s| && j != i
      ensures s[j] != s[i]
    {
      assert Before(t, s[if i < j then i else j], s[if i < j then j else i]);
    }
  }

  /** There is no neighbour, or it and the row are apart. */
  ghost predicate MovesCleanly(t: Table, id: int, up: bool)
    requires id in t
  {
    var n := Neighbour(t, id, up);
    n.Some? ==> n.value in t && if up then Apart(t, n.value, id) else Apart(t, id, n.value)
  }

  /** On any table, equal numbers or not: a move swaps the row with its neighbour in the list, does nothing at the
      end of it and leaves the other lists, exactly when there is no neighbour or the two rows are apart. */
  lemma MoveSwapsExactly(t: Table, id: int, up: bool)
    requires id in t
    ensures (forall h :: Listing(Move(t, id, up), h) == Shifted(Listing(t, h), id, up)) <==> MovesCleanly(t, id, up)
  {
    hide Listing, Sorted, Neighbour, Apart;
    var g := t[id].group;
    var l := Listing(t, g);
    var i := Position(t, id);
    NeighbourIsAdjacent(t, id, up, i);
    ListingFacts(t, g);
    OnlyAt(t, l, i);
    ShiftedAt(l, id, up, i);
    var t' := Move(t, id, up);
    if up && i > 0 {
      SwapOrdersSwaps(t, g, i - 1);
      SwapCommutes(t, l[i - 1], id);
    } else if !up && i < |l| - 1 {
      SwapOrdersSwaps(t, g, i);
    }
    assert Listing(t', g) == Shifted(l, id, up) <==> MovesCleanly(t, id, up);
    forall h | h != g
      ensures Listing(t', h) == Shifted(Listing(t, h), id, up)
    {
      ListingFacts(t, h);
      ShiftedAbsent(Listing(t, h), id, up);
      var n := Neighbour(t, id, up);
      if n.Some? { OtherListsStay(t, id, n.value, h); }
    }
  }

  /** With distinct numbers every move is clean, and the numbers stay distinct. */
  lemma MoveSwapsAdjacent(t: Table, id: int, up: bool)
    requires id in t && Distinct(t)
    ensures MovesCleanly(t, id, up)
    ensures Distinct(Move(t, id, up)) && Move(t, id, up).Keys == t.Keys
    ensures forall h :: Listing(Move(t, id, up), h) == Shifted(Listing(t, h), id, up)
  {
    hide Listing, Sorted, Neighbour, Apart, Shifted;
    var n := Neighbour(t, id, up);
    NeighbourIsOther(t, id, up);
    if n.Some? {
      DistinctIsApart(t, n.value, id);
      DistinctIsApart(t, id, n.value);
    }
    MoveSwapsExactly(t, id, up);
  }

  lemma SwapCommutes(t: Table, x: int, y: int)
    requires x in t && y in t && x != y
    ensures SwapOrders(t, x, y) == SwapOrders(t, y, x)
    ensures SwapOrders(SwapOrders(t, x, y), x, y) == t
  {
  }

  /** Away from the end of the list, a clean move is undone by the opposite move: the very same table results. */
  lemma MoveBack(t: Table, id: int, up: bool)
    requires id in t && Neighbour(t, id, up).Some? && MovesCleanly(t, id, up)
    ensures id in Move(t, id, up) && Move(Move(t, id, up), id, !up) == t
  {
    hide Listing, Sorted, Neighbour, MovesCleanly, Shifted;
    var g := t[id].group;
    var l := Listing(t, g);
    var i := Position(t, id);
    NeighbourIsAdjacent(t, id, up, i);
    ListingFacts(t, g);
    OnlyAt(t, l, i);
    ShiftedAt(l, id, up, i);
    MoveSwapsExactly(t, id, up);
    var n := Neighbour(t, id, up).value;
    var t' := Move(t, id, up);
    assert t' == SwapOrders(t, id, n) && t'[id].group == g;
    assert Listing(t', g) == Shifted(l, id, up);
    NeighbourIsAdjacent(t', id, !up, if up then i - 1 else i + 1);
    SwapCommutes(t, id, n);
    SwapCommutes(t', id, n);
  }

  /** Rows 5 and 7 carry the same number, row 3 the next. */
  const TIED := map[5 := Item(0, 0, true), 7 := Item(0, 0, true), 3 := Item(0, 1, true)]

  /** Two ways in which a move among equal numbers is not the adjacent swap: row 7 does not move at all, and row 3
      jumps two places. */
  lemma TiedMovesAreNotSwaps()
    ensures Listing(TIED, 0) == [5, 7, 3]
    ensures Listing(Move(TIED, 7, true), 0) == [5, 7, 3] && Shifted([5, 7, 3], 7, true) == [7, 5, 3]
    ensures Listing(Move(TIED, 3, true), 0) == [3, 5, 7] && Shifted([5, 7, 3], 3, true) == [5, 3, 7]
  {
    hide Listing, Sorted, Neighbour;
    IsListing(TIED, 0, [5, 7, 3]);
    NeighbourIsAdjacent(TIED, 7, true, 1);
    NeighbourIsAdjacent(TIED, 3, true, 2);
    assert Move(TIED, 7, true) == TIED;
    IsListing(Move(TIED, 3, true), 0, [3, 5, 7]);
    ShiftedAt([5, 7, 3], 7, true, 1);
    ShiftedAt([5, 7, 3], 3, true, 2);
  }

  lemma NeighbourIsOther(t: Table, id: int, up: bool)
    requires id in t
    ensures var n := Neighbour(t, id, up);
            n.Some? ==> n.value in t && n.value != id && t[n.value].group == t[id].group
  {
    hide Sorted;
    var n := Neighbour(t, id, up);
    if n.Some? {
      assert n.value in Beyond(t, id, up);
    }
  }
}
