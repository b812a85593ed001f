/** The catalogue of categories and products, and the ordered lists it stands for. */
module Catalogues {
  import opened Options
  import opened Ordering

  /** `ordered` are the products some order refers to. */
  datatype Catalogue = Catalogue(categories: Table, products: Table, ordered: set<int>)

  /** All categories form one list. */
  const SHELF := 0

  const EMPTY_CATALOGUE := Catalogue(map[], map[], {})

  /** One category with two products, as written into a new database. */
  const SEEDED := Catalogue(map[1 := Item(SHELF, 1, true)], map[1 := Item(1, 1, true), 2 := Item(1, 2, true)], {})

  datatype Edit =
    | CreateCategory(category: int, columns: int)
    | MoveCategory(category: int, up: bool)
    | ToggleCategory(category: int)
    | DeleteCategory(category: int)
    | CreateProduct(product: int, category: int, columns: int)
    | MoveProduct(product: int, up: bool)
    | ToggleProduct(product: int)
    | DeleteProduct(product: int)
    | OrderProduct(product: int)

  datatype CatalogueError = NotFound | InUse | InvalidColumns | DuplicateId

  function Toggle(t: Table, id: int): Table
    requires id in t
  {
    t[id := t[id].(active := !t[id].active)]
  }

  /** Why an edit is refused. */
  function Refusal(c: Catalogue, e: Edit): Option<CatalogueError> {
    match e
    case CreateCategory(id, columns) =>
      if columns != 1 && columns != 2 then Some(InvalidColumns)
      else if id in c.categories then Some(DuplicateId)
      else None
    case MoveCategory(id, _) => if id !in c.categories then Some(NotFound) else None
    case ToggleCategory(id) => if id !in c.categories then Some(NotFound) else None
    case DeleteCategory(id) =>
      if id !in c.categories then Some(NotFound)
      else if Members(c.products, id) != {} then Some(InUse)
      else None
    case CreateProduct(id, category, columns) =>
      if columns != 1 && columns != 2 then Some(InvalidColumns)
      else if id in c.products then Some(DuplicateId)
      else if category !in c.categories then Some(NotFound)
      else None
    case MoveProduct(id, _) => if id !in c.products then Some(NotFound) else None
    case ToggleProduct(id) => if id !in c.products then Some(NotFound) else None
    case DeleteProduct(id) =>
      if id !in c.products then Some(NotFound)
      else if id in c.ordered then Some(InUse)
      else None
    case OrderProduct(id) => if id !in c.products then Some(NotFound) else None
  }

  ghost function Apply(c: Catalogue, e: Edit): Catalogue {
    if Refusal(c, e).Some? then c
    else
      match e
      case CreateCategory(id, _) => c.(categories := Create(c.categories, id, SHELF))
      case MoveCategory(id, up) => c.(categories := Move(c.categories, id, up))
      case ToggleCategory(id) => c.(categories := Toggle(c.categories, id))
      case DeleteCategory(id) => c.(categories := Delete(c.categories, id))
      case CreateProduct(id, category, _) => c.(products := Create(c.products, id, category))
      case MoveProduct(id, up) => c.(products := Move(c.products, id, up))
      case ToggleProduct(id) => c.(products := Toggle(c.products, id))
      case DeleteProduct(id) => c.(products := Delete(c.products, id))
      case OrderProduct(id) => c.(ordered := c.ordered + {id})
  }

  ghost function Run(c: Catalogue, es: seq<Edit>): Catalogue
    decreases |es|
  {
    if es == [] then c else Run(Apply(c, es[0]), es[1..])
  }

  /** What every run of edits keeps: no two rows of a list carry the same number, products belong to existing
      categories, and ordered products exist. */
  ghost predicate Ok(c: Catalogue) {
    && Distinct(c.categories) && Distinct(c.products)
    && (forall g :: g in c.categories ==> c.categories[g].group == SHELF)
    && (forall p :: p in c.products ==> c.products[p].group in c.categories)
    && c.ordered <= c.products.Keys
  }

  // ----- the ordered lists -----

  datatype Lists = Lists(categories: seq<int>, products: map<int, seq<int>>, ordered: set<int>)

  ghost function View(c: Catalogue): Lists {
    Lists(Listing(c.categories, SHELF), map g | g in c.categories :: Listing(c.products, g), c.ordered)
  }

  predicate Known(v: Lists, p: int) {
    exists g :: g in v.products && p in v.products[g]
  }

  /** The same edits on plain lists: append, remove, swap with the neighbour. */
  function ApplyLists(v: Lists, e: Edit): Lists {
    match e
    case CreateCategory(id, columns) =>
      if (columns != 1 && columns != 2) || id in v.categories then v
      else v.(categories := v.categories + [id], products := v.products[id := []])
    case MoveCategory(id, up) => v.(categories := Shifted(v.categories, id, up))
    case ToggleCategory(_) => v
    case DeleteCategory(id) =>
      if id !in v.products || v.products[id] != [] then v
      else v.(categories := Without(v.categories, id), products := v.products - {id})
    case CreateProduct(id, g, columns) =>
      if (columns != 1 && columns != 2) || Known(v, id) || g !in v.products then v
      else v.(products := v.products[g := v.products[g] + [id]])
    case MoveProduct(id, up) => v.(products := map g | g in v.products :: Shifted(v.products[g], id, up))
    case ToggleProduct(_) => v
    case DeleteProduct(id) =>
      if id in v.ordered then v else v.(products := map g | g in v.products :: Without(v.products[g], id))
    case OrderProduct(id) => if Known(v, id) then v.(ordered := v.ordered + {id}) else v
  }

  function RunLists(v: Lists, es: seq<Edit>): Lists
    decreases |es|
  {
    if es == [] then v else RunLists(ApplyLists(v, es[0]), es[1..])
  }

  // ----- the catalogue refines the lists -----

  lemma KnownProducts(c: Catalogue, p: int)
    requires Ok(c)
    ensures Known(View(c), p) <==> p in c.products
    ensures forall g :: p in Listing(c.products, g) ==> p in c.products && c.products[p].group == g
    ensures p in Listing(c.categories, SHELF) <==> p in c.categories
  {
    hide Sorted;
    if p in c.products {
      var g := c.products[p].group;
      assert p in Members(c.products, g);
      assert p in View(c).products[g];
    }
    assert p in Listing(c.categories, SHELF) <==> p in Members(c.categories, SHELF);
    forall g
      ensures p in Listing(c.products, g) ==> p in c.products && c.products[p].group == g
    {
      assert p in Listing(c.products, g) ==> p in Members(c.products, g);
    }
  }

  lemma ToggleKeepsLists(t: Table, id: int)
    requires id in t
    ensures forall h :: Listing(Toggle(t, id), h) == Listing(t, h)
    ensures Distinct(t) ==> Distinct(Toggle(t, id))
  {
    hide Sorted, Listing;
    forall h
      ensures Listing(Toggle(t, id), h) == Listing(t, h)
    {
      ListingFacts(t, h);
      IsListing(Toggle(t, id), h, Listing(t, h));
    }
  }

  lemma EmptyListing(t: Table, g: int)
    ensures Listing(t, g) == [] <==> Members(t, g) == {}
  {
    hide Sorted;
    var l := Listing(t, g);
    if l != [] {
      var x := l[0];
      assert x in l;
    }
  }

  lemma CategoryEditRefines(c: Catalogue, e: Edit)
    requires e.CreateCategory? || e.MoveCategory? || e.ToggleCategory? || e.DeleteCategory?
    requires Ok(c)
    ensures Ok(Apply(c, e)) && View(Apply(c, e)) == ApplyLists(View(c), e)
  {
    hide Listing, Sorted, Distinct, Neighbour, NextOrder, Shifted, Without, Known, Beyond;
    var t, id := c.categories, e.category;
    KnownProducts(c, id);
    match e {
      case CreateCategory(_, _) =>
        if id !in t {
          CreateAppends(t, id, SHELF);
          forall p
            ensures p !in Members(c.products, id)
          {
          }
          EmptyListing(c.products, id);
        }
      case MoveCategory(_, up) =>
        if id in t {
          MoveSwapsAdjacent(t, id, up);
          MoveFrame(t, id, up);
        } else {
          ShiftedAbsent(Listing(t, SHELF), id, up);
        }
      case ToggleCategory(_) =>
        if id in t {
          ToggleKeepsLists(t, id);
        }
      case DeleteCategory(_) =>
        DeleteRemoves(t, id);
        EmptyListing(c.products, id);
        assert forall p :: p in c.products && c.products[p].group == id ==> p in Members(c.products, id);
    }
  }

  /** A move changes no key and no group. */
  lemma MoveFrame(t: Table, id: int, up: bool)
    requires id in t
    ensures Move(t, id, up).Keys == t.Keys
    ensures forall x :: x in t ==> Move(t, id, up)[x].group == t[x].group
  {
    hide Neighbour;
    NeighbourIsOther(t, id, up);
  }

  lemma NewProductRefines(c: Catalogue, e: Edit)
    requires e.CreateProduct? || e.OrderProduct?
    requires Ok(c)
    ensures Ok(Apply(c, e)) && View(Apply(c, e)) == ApplyLists(View(c), e)
  {
    hide Listing, Sorted, Distinct, NextOrder, Known;
    KnownProducts(c, e.product);
    if e.CreateProduct? && e.product !in c.products {
      CreateAppends(c.products, e.product, e.category);
    }
  }

  lemma ProductEditRefines(c: Catalogue, e: Edit)
    requires e.MoveProduct? || e.ToggleProduct? || e.DeleteProduct?
    requires Ok(c)
    ensures Ok(Apply(c, e)) && View(Apply(c, e)) == ApplyLists(View(c), e)
  {
    hide Listing, Sorted, Distinct, Move, Shifted, Without, Known, Beyond;
    var t, id := c.products, e.product;
    KnownProducts(c, id);
    match e {
      case MoveProduct(_, up) =>
        if id in t {
          MoveSwapsAdjacent(t, id, up);
          MoveFrame(t, id, up);
        } else {
          forall g | g in c.categories {
            ShiftedAbsent(Listing(t, g), id, up);
          }
        }
      case ToggleProduct(_) =>
        if id in t {
          ToggleKeepsLists(t, id);
        }
      case DeleteProduct(_) =>
        DeleteRemoves(t, id);
        if id !in t {
          assert Delete(t, id) == t;
        }
    }
  }

  /** Over any run of edits the catalogue shows exactly the lists that appending, removing and swapping
      neighbours produce, and its numbers stay distinct. */
  lemma {:induction false} CatalogueRefinesLists(c: Catalogue, es: seq<Edit>)
    requires Ok(c)
    ensures Ok(Run(c, es)) && View(Run(c, es)) == RunLists(View(c), es)
    decreases |es|
  {
    hide Ok, View, Apply, ApplyLists;
    if es != [] {
      if es[0].CreateProduct? || es[0].OrderProduct? {
        NewProductRefines(c, es[0]);
      } else if es[0].MoveProduct? || es[0].ToggleProduct? || es[0].DeleteProduct? {
        ProductEditRefines(c, es[0]);
      } else {
        CategoryEditRefines(c, es[0]);
      }
      CatalogueRefinesLists(Apply(c, es[0]), es[1..]);
    }
  }

  lemma StartingCataloguesOk()
    ensures Ok(EMPTY_CATALOGUE) && Ok(SEEDED)
  {
  }

  /** From an empty or a newly seeded database, in every reachable catalogue a move away from the end of its
      list is undone by the opposite move. */
  lemma MovesUndoInAnyRun(c: Catalogue, es: seq<Edit>, id: int, up: bool)
    requires c == EMPTY_CATALOGUE || c == SEEDED
    ensures var now := Run(c, es);
            && (id in now.products && Neighbour(now.products, id, up).Some? ==>
                  Run(now, [MoveProduct(id, up), MoveProduct(id, !up)]) == now)
            && (id in now.categories && Neighbour(now.categories, id, up).Some? ==>
                  Run(now, [MoveCategory(id, up), MoveCategory(id, !up)]) == now)
  {
    hide Neighbour, Ok, Apply, Run;
    StartingCataloguesOk();
    CatalogueRefinesLists(c, es);
    var now := Run(c, es);
    if id in now.products && Neighbour(now.products, id, up).Some? {
      ProductMoveUndone(now, id, up);
    }
    if id in now.categories && Neighbour(now.categories, id, up).Some? {
      CategoryMoveUndone(now, id, up);
    }
  }

  lemma ProductMoveUndone(c: Catalogue, id: int, up: bool)
    requires id in c.products && Neighbour(c.products, id, up).Some? && Ok(c)
    ensures Run(c, [MoveProduct(id, up), MoveProduct(id, !up)]) == c
  {
    hide Neighbour, Distinct, Move, MovesCleanly, Listing, Shifted, Run;
    MoveSwapsAdjacent(c.products, id, up);
    MoveBack(c.products, id, up);
    TwoEdits(c, MoveProduct(id, up), MoveProduct(id, !up));
  }

  lemma CategoryMoveUndone(c: Catalogue, id: int, up: bool)
    requires id in c.categories && Neighbour(c.categories, id, up).Some? && Ok(c)
    ensures Run(c, [MoveCategory(id, up), MoveCategory(id, !up)]) == c
  {
    hide Neighbour, Distinct, Move, MovesCleanly, Listing, Shifted, Run;
    MoveSwapsAdjacent(c.categories, id, up);
    MoveBack(c.categories, id, up);
    TwoEdits(c, MoveCategory(id, up), MoveCategory(id, !up));
  }

  lemma TwoEdits(c: Catalogue, e: Edit, f: Edit)
    ensures Run(c, [e, f]) == Apply(Apply(c, e), f)
  {
    hide Apply;
    assert [e, f][1..] == [f] && [f][1..] == [];
    assert Run(Apply(c, e), [f]) == Run(Apply(Apply(c, e), f), []);
  }
}
