/** The category and product services, working on the tables of one database session. */
module CatalogueServices {
  import opened Options
  import opened Totals
  import opened Ordering
  import opened Catalogues

  /** The given rows by number and id: what an ordered query returns. */
  method SelectOrdered(t: Table, ids: set<int>) returns (s: seq<int>)
    requires ids <= t.Keys
    ensures s == Sorted(t, ids)
  {
    hide Least, Sorted, Before, InOrder;
    s := [];
    var todo := ids;
    while todo != {}
      invariant todo <= ids && Sorted(t, ids) == s + Sorted(t, todo)
      decreases |todo|
    {
      SortedStep(t, todo);
      var x := SelectFirst(t, todo);
      ghost var rest := Sorted(t, todo - {x});
      assert s + ([x] + rest) == (s + [x]) + rest;
      s, todo := s + [x], todo - {x};
    }
    SortedStep(t, {});
    assert s + [] == s;
  }

  lemma SortedStep(t: Table, ids: set<int>)
    requires ids <= t.Keys
    ensures ids == {} ==> Sorted(t, ids) == []
    ensures ids != {} ==> Sorted(t, ids) == [Least(t, ids)] + Sorted(t, ids - {Least(t, ids)})
  {
    hide Least;
  }

  method SelectFirst(t: Table, ids: set<int>) returns (x: int)
    requires ids != {} && ids <= t.Keys
    ensures x == Least(t, ids)
  {
    hide Least;
    ghost var some := Pick(ids);
    x :| x in ids;
    var todo := ids - {x};
    while todo != {}
      invariant todo <= ids && x in ids && x !in todo
      invariant forall y :: y in ids && y !in todo && y != x ==> Before(t, x, y)
      decreases |todo|
    {
      ghost var next := Pick(todo);
      var y :| y in todo;
      if Before(t, y, x) {
        x := y;
      }
      todo := todo - {y};
    }
  }

  /** The greatest number of the group, minus one when there is none, plus one. */
  method NextSortOrder(t: Table, g: int) returns (n: int)
    ensures n == NextOrder(t, g)
  {
    hide NextOrder, Members;
    var ids := Members(t, g);
    MembersKnown(t, g);
    var max: Option<int> := None;
    var todo := ids;
    while todo != {}
      invariant todo <= ids
      invariant max == None ==> todo == ids
      invariant max.Some? ==> exists x :: x in ids && t[x].order == max.value
      invariant forall x :: x in ids && x !in todo ==> max.Some? && t[x].order <= max.value
      decreases |todo|
    {
      ghost var next := Pick(todo);
      var x :| x in todo;
      if max == None || max.value < t[x].order {
        max := Some(t[x].order);
      }
      todo := todo - {x};
    }
    n := (if max == None then -1 else max.value) + 1;
    NextIsUnique(t, g, max);
  }

  lemma MembersKnown(t: Table, g: int)
    ensures forall x :: x in Members(t, g) ==> x in t
  {
  }

  lemma NextIsUnique(t: Table, g: int, max: Option<int>)
    requires max == None ==> Members(t, g) == {}
    requires max.Some? ==> exists x :: x in Members(t, g) && t[x].order == max.value
    requires forall x :: x in Members(t, g) ==> max.Some? && t[x].order <= max.value
    ensures NextOrder(t, g) == (if max == None then -1 else max.value) + 1
  {
    hide NextOrder, Members;
    MembersKnown(t, g);
    var n := NextOrder(t, g);
    if max.Some? {
      var x :| x in Members(t, g) && t[x].order == max.value;
      var y :| y in Members(t, g) && t[y].order == n - 1;
    }
  }

  class Session {
    var categories: Table
    var products: Table
    var ordered: set<int>

    ghost function View(): Catalogue
      reads this
    {
      Catalogue(categories, products, ordered)
    }

    constructor ()
      ensures View() == EMPTY_CATALOGUE && Ok(View())
    {
      categories, products, ordered := map[], map[], {};
      new;
      StartingCataloguesOk();
    }
  }

  class CategoryService {
    const session: Session

    constructor (session: Session)
      ensures this.session == session
    {
      this.session := session;
    }

    method ListAll() returns (rows: seq<int>)
      ensures rows == Listing(session.categories, SHELF)
    {
      rows := SelectOrdered(session.categories, Members(session.categories, SHELF));
    }

    method Create(id: int, columns: int) returns (error: Option<CatalogueError>)
      requires id !in session.categories
      modifies session
      ensures error == Refusal(old(session.View()), CreateCategory(id, columns))
      ensures session.View() == Apply(old(session.View()), CreateCategory(id, columns))
    {
      hide NextOrder;
      if columns != 1 && columns != 2 { return Some(InvalidColumns); }
      var order := NextSortOrder(session.categories, SHELF);
      session.categories := session.categories[id := Item(SHELF, order, true)];
      return None;
    }

    method Move(id: int, up: bool) returns (error: Option<CatalogueError>)
      modifies session
      ensures old(Ok(session.View())) ==> Ok(session.View())
      ensures error == Refusal(old(session.View()), MoveCategory(id, up))
      ensures session.View() == Apply(old(session.View()), MoveCategory(id, up))
    {
      hide Sorted, Distinct;
      if Ok(session.View()) { CategoryEditRefines(session.View(), MoveCategory(id, up)); }
      if id !in session.categories { return Some(NotFound); }
      var rows := SelectOrdered(session.categories, Beyond(session.categories, id, up));
      if rows == [] { return None; }
      var neighbour := if up then rows[|rows| - 1] else rows[0];
      assert neighbour in rows;
      var mine, theirs := session.categories[id].order, session.categories[neighbour].order;
      session.categories := session.categories[id := session.categories[id].(order := theirs)];
      session.categories := session.categories[neighbour := session.categories[neighbour].(order := mine)];
      return None;
    }

    method Delete(id: int) returns (error: Option<CatalogueError>)
      modifies session
      ensures error == Refusal(old(session.View()), DeleteCategory(id))
      ensures session.View() == Apply(old(session.View()), DeleteCategory(id))
    {
      if id !in session.categories { return Some(NotFound); }
      if Members(session.products, id) != {} { return Some(InUse); }
      session.categories := session.categories - {id};
      return None;
    }
  }

  class ProductService {
    const session: Session

    constructor (session: Session)
      ensures this.session == session
    {
      this.session := session;
    }

    /** The active products of a category in the order of the list. */
    method ListByCategory(g: int) returns (rows: seq<int>)
      ensures InOrder(session.products, rows)
      ensures forall x :: x in rows <==> x in Listing(session.products, g) && session.products[x].active
    {
      hide Sorted;
      var ids := set x | x in Members(session.products, g) && session.products[x].active;
      rows := SelectOrdered(session.products, ids);
      assert forall x :: x in Listing(session.products, g) <==> x in Members(session.products, g);
    }

    /** `create_fixed` and `create_variable` place the new product alike. */
    method Create(id: int, g: int, columns: int) returns (error: Option<CatalogueError>)
      requires id !in session.products
      modifies session
      ensures error == Refusal(old(session.View()), CreateProduct(id, g, columns))
      ensures session.View() == Apply(old(session.View()), CreateProduct(id, g, columns))
    {
      hide NextOrder;
      if columns != 1 && columns != 2 { return Some(InvalidColumns); }
      var order := NextSortOrder(session.products, g);
      if g !in session.categories { return Some(NotFound); }
      session.products := session.products[id := Item(g, order, true)];
      return None;
    }

    method Move(id: int, up: bool) returns (error: Option<CatalogueError>)
      modifies session
      ensures old(Ok(session.View())) ==> Ok(session.View())
      ensures error == Refusal(old(session.View()), MoveProduct(id, up))
      ensures session.View() == Apply(old(session.View()), MoveProduct(id, up))
    {
      hide Sorted, Distinct;
      if Ok(session.View()) { ProductEditRefines(session.View(), MoveProduct(id, up)); }
      if id !in session.products { return Some(NotFound); }
      var rows := SelectOrdered(session.products, Beyond(session.products, id, up));
      if rows == [] { return None; }
      var neighbour := if up then rows[|rows| - 1] else rows[0];
      assert neighbour in rows;
      var mine, theirs := session.products[id].order, session.products[neighbour].order;
      session.products := session.products[id := session.products[id].(order := theirs)];
      session.products := session.products[neighbour := session.products[neighbour].(order := mine)];
      return None;
    }

    method Delete(id: int) returns (error: Option<CatalogueError>)
      modifies session
      ensures error == Refusal(old(session.View()), DeleteProduct(id))
      ensures session.View() == Apply(old(session.View()), DeleteProduct(id))
    {
      if id !in session.products { return Some(NotFound); }
      if id in session.ordered { return Some(InUse); }
      session.products := session.products - {id};
      return None;
    }
  }
}
