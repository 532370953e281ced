/** The product and adjustment endpoints, as they run against the tables. */
module ProductRequests {
  import opened Wrappers
  import opened Inventory
  import opened Products
  import opened Database

  // ---- Adding ---------------------------------------------------------------

  lemma {:induction false} OpeningsPrefix(ids: seq<VariantId>, data: seq<VariantData>, n: nat)
    requires n <= |ids| == |data|
    ensures |Openings(ids, data, n)| <= |Openings(ids, data, |ids|)|
    ensures Openings(ids, data, n) == Openings(ids, data, |ids|)[..|Openings(ids, data, n)|]
    decreases |ids| - n
  {
    if n < |ids| {
      OpeningsPrefix(ids, data, n + 1);
    }
  }

  /** The rows of the new variants. */
  method AddRows(db: Tables, p: ProductId, ids: seq<VariantId>, data: seq<VariantData>)
    requires |ids| == |data|
    modifies db`variants
    ensures db.variants == old(db.variants) + NewRows(p, ids, data, |ids|)
  {
    var i := 0;
    while i < |ids|
      invariant 0 <= i <= |ids|
      invariant db.variants == old(db.variants) + NewRows(p, ids, data, i)
    {
      var d := data[i];
      db.variants := db.variants[ids[i] := Variant(p, 0, 0, d.threshold, d.price, d.active)];
      i := i + 1;
    }
  }

  /** The loop that moves the opening balances. */
  method MoveOpenings(db: Tables, ids: seq<VariantId>, data: seq<VariantData>) returns (error: Option<Error>)
    requires |ids| == |data| && Linked(db.State())
    modifies db
    ensures db.Ended(MoveAll(old(db.State()), Openings(ids, data, |ids|), OPENING_BALANCE, REFUSE), error)
  {
    ghost var s, moved := db.State(), Openings(ids, data, |ids|);
    ghost var done: nat := 0;
    var i := 0;
    while i < |ids|
      invariant 0 <= i <= |ids| && done == |Openings(ids, data, i)| <= |moved|
      invariant MoveFirst(s, moved, done, OPENING_BALANCE, REFUSE) == Done(db.State())
    {
      OpeningsPrefix(ids, data, i + 1);
      if data[i].stock != 0 {
        assert Openings(ids, data, i + 1)[done] == moved[done];
        error := db.MoveLine(Line(ids[i], data[i].stock, 0), OPENING_BALANCE, REFUSE, s, moved, done);
        if error.Some? {
          return;
        }
        done := done + 1;
      }
      i := i + 1;
    }
    error := None;
  }

  lemma AddedLinked(s: Shop, p: ProductId, x: Product, ids: seq<VariantId>, data: seq<VariantData>)
    requires |ids| == |data| && Linked(s)
    ensures Linked(Added(s, p, x, NewRows(p, ids, data, |ids|)))
  {
    NewRowsAre(p, ids, data, |ids|);
  }

  method OpenVariants(db: Tables, p: ProductId, x: Product, ids: seq<VariantId>, data: seq<VariantData>)
    returns (error: Option<Error>)
    requires |ids| == |data| && Linked(db.State())
    modifies db
    ensures db.Ended(Open(old(db.State()), p, x, ids, data), error)
  {
    ghost var s := db.State();
    db.products := db.products[p := x];
    AddRows(db, p, ids, data);
    assert db.State() == Added(s, p, x, NewRows(p, ids, data, |ids|));
    AddedLinked(s, p, x, ids, data);
    ghost var t := db.State();
    error := MoveOpenings(db, ids, data);
    if error.None? {
      MoveAllAdvances(t, Openings(ids, data, |ids|), OPENING_BALANCE, REFUSE);
      assert p in db.products;
      db.SyncProductTotals(p);
    }
  }

  method CreateProduct(db: Tables, p: ProductId, ids: seq<VariantId>, price: int, stock: int, threshold: int,
                       variants: seq<VariantData>, unique: bool) returns (error: Option<Error>)
    requires Linked(db.State()) && |ids| == |Requested(price, stock, threshold, variants)|
    modifies db
    ensures db.Answers(Create(old(db.State()), p, ids, price, threshold, Requested(price, stock, threshold, variants),
                              unique),
                       old(db.State()), error)
  {
    if !unique {
      return Some(CONFLICT);
    }
    var saved := db.State();
    var data := if variants == [] then [VariantData(price, stock, threshold, true)] else variants;
    if AnyNegative(data) {
      return Some(NEGATIVE_PRICE);
    }
    error := OpenVariants(db, p, Product(true, 0, 0, threshold, price), ids, data);
    if error.Some? {
      db.Rollback(saved);
    }
  }

  method CreateProductVariant(db: Tables, p: ProductId, v: VariantId, d: VariantData, unique: bool)
    returns (error: Option<Error>)
    requires Linked(db.State())
    modifies db
    ensures db.Answers(CreateVariant(old(db.State()), p, v, d, unique), old(db.State()), error)
  {
    if p !in db.products {
      return Some(NOT_FOUND);
    }
    var rows := map w <- db.variants | db.variants[w].product == p :: db.variants[w];
    assert rows == Of(db.variants, p);
    if |rows| >= MAX_VARIANTS {
      return Some(BAD_REQUEST);
    }
    if !unique {
      return Some(CONFLICT);
    }
    if d.price < 0 {
      return Some(NEGATIVE_PRICE);
    }
    var saved := db.State();
    error := OpenVariants(db, p, db.products[p], [v], [d]);
    if error.Some? {
      db.Rollback(saved);
    }
  }

  // ---- Editing and adjusting ------------------------------------------------

  method UpdateProductVariant(db: Tables, p: ProductId, v: VariantId, price: Option<int>, threshold: Option<int>,
                              active: Option<bool>, unique: bool) returns (error: Option<Error>)
    modifies db
    ensures db.Answers(UpdateVariant(old(db.State()), p, v, price, threshold, active, unique), old(db.State()), error)
  {
    if p !in db.products || v !in db.variants || db.variants[v].product != p {
      return Some(NOT_FOUND);
    }
    if !unique {
      return Some(CONFLICT);
    }
    if price.Some? && price.value < 0 {
      return Some(NEGATIVE_PRICE);
    }
    var x := db.variants[v];
    if price.Some? {
      x := x.(price := price.value);
    }
    if threshold.Some? {
      x := x.(threshold := threshold.value);
    }
    if active.Some? {
      x := x.(active := active.value);
    }
    db.variants := db.variants[v := x];
    db.SyncProductTotals(p);
    return None;
  }

  /** The product's variant, if it has just one. */
  method OnlyVariant(db: Tables, p: ProductId) returns (only: Option<VariantId>)
    ensures only == OnlyOf(db.variants, p)
  {
    var ids := set w <- db.variants | db.variants[w].product == p;
    assert ids == Of(db.variants, p).Keys;
    if ids == {} {
      return None;
    }
    var v :| v in ids;
    if ids == {v} {
      assert v in Of(db.variants, p).Keys;
      return Some(v);
    }
    return None;
  }

  method AdjustProductStock(db: Tables, p: ProductId, variant: Option<VariantId>, delta: int)
    returns (error: Option<Error>)
    requires Linked(db.State())
    modifies db
    ensures db.Answers(Adjust(old(db.State()), p, variant, delta), old(db.State()), error)
  {
    if p !in db.products {
      return Some(NOT_FOUND);
    }
    var v: VariantId;
    if variant.None? {
      var only := OnlyVariant(db, p);
      if only.None? {
        return Some(BAD_REQUEST);
      }
      v := only.value;
    } else {
      v := variant.value;
      if v !in db.variants || db.variants[v].product != p {
        return Some(NOT_FOUND);
      }
    }
    error := db.MoveStock(v, delta, 0, MANUAL_ADJUSTMENT);
  }

  /** The stock part of `update_product`. */
  method RestockProduct(db: Tables, p: ProductId, stock: Option<int>) returns (error: Option<Error>)
    requires p in db.products && Linked(db.State())
    modifies db
    ensures db.Ended(Restock(old(db.State()), p, stock), error)
  {
    if stock.None? || stock.value == db.products[p].stock {
      return None;
    }
    var only := OnlyVariant(db, p);
    if only.None? {
      return Some(BAD_REQUEST);
    }
    error := db.MoveStock(only.value, stock.value - db.variants[only.value].stock, 0, MANUAL_ADJUSTMENT);
  }

  /** Whether several variants keep their own price and threshold. */
  method KeepsTheirs(db: Tables, p: ProductId, price: Option<int>, threshold: Option<int>) returns (ok: bool)
    requires p in db.products
    ensures ok <==> !(|Of(db.variants, p)| > 1
                      && ((price.Some? && price.value != db.products[p].price)
                          || (threshold.Some? && threshold.value != db.products[p].threshold)))
  {
    var rows := map w <- db.variants | db.variants[w].product == p :: db.variants[w];
    assert rows == Of(db.variants, p);
    if |rows| > 1 {
      if price.Some? && price.value != db.products[p].price {
        return false;
      }
      if threshold.Some? && threshold.value != db.products[p].threshold {
        return false;
      }
    }
    return true;
  }

  /** The rest of `update_product`. */
  method ReviseProduct(db: Tables, p: ProductId, price: Option<int>, threshold: Option<int>, active: Option<bool>)
    returns (error: Option<Error>)
    requires p in db.products
    modifies db
    ensures db.Ended(Revise(old(db.State()), p, price, threshold, active), error)
  {
    var ok := KeepsTheirs(db, p, price, threshold);
    if !ok {
      return Some(BAD_REQUEST);
    }
    var x := db.products[p];
    var only := OnlyVariant(db, p);
    if only.Some? {
      if price.Some? && price.value < 0 {
        return Some(NEGATIVE_PRICE);
      }
      db.variants := db.variants[only.value := Revised(db.variants[only.value], price, threshold, None)];
    }
    db.products := db.products[p := RevisedProduct(x, price, threshold, active)];
    db.SyncProductTotals(p);
    return None;
  }

  method EditProduct(db: Tables, p: ProductId, stock: Option<int>, price: Option<int>, threshold: Option<int>,
                     active: Option<bool>) returns (error: Option<Error>)
    requires Linked(db.State())
    modifies db
    ensures db.Answers(UpdateProduct(old(db.State()), p, stock, price, threshold, active), old(db.State()), error)
  {
    if p !in db.products {
      return Some(NOT_FOUND);
    }
    var saved := db.State();
    error := RestockProduct(db, p, stock);
    if error.None? {
      error := ReviseProduct(db, p, price, threshold, active);
    }
    if error.Some? {
      db.Rollback(saved);
    }
  }

  // ---- Removing -------------------------------------------------------------

  /** Whether the database would refuse, on account of a foreign key. */
  method IsReferenced(db: Tables, gone: set<VariantId>) returns (yes: bool)
    ensures yes == Referenced(db.State(), gone)
  {
    var ordered := exists id <- db.orders :: exists item <- db.orders[id].items :: item.variant in gone;
    var bought := exists id <- db.purchases :: exists line <- db.purchases[id].lines :: line.variant in gone;
    var returned := exists id <- db.salesReturns :: exists line <- db.salesReturns[id].lines :: line.variant in gone;
    return ordered || bought || returned;
  }

  /** Removes variants and blanks the ledger's links to them. */
  method Remove(db: Tables, gone: set<VariantId>)
    modifies db
    ensures db.State() == Without(old(db.State()), gone)
  {
    db.variants := db.variants - gone;
    var rest, i := [], 0;
    while i < |db.ledger|
      invariant 0 <= i <= |db.ledger|
      invariant rest == Forgotten(db.ledger, gone)[..i]
      invariant db.State() == old(db.State()).(variants := old(db.variants) - gone)
    {
      var m := db.ledger[i];
      if m.variant.Some? && m.variant.value in gone {
        m := m.(variant := None);
      }
      rest := rest + [m];
      i := i + 1;
    }
    assert rest == Forgotten(db.ledger, gone);
    db.ledger := rest;
  }

  method DeleteProductVariant(db: Tables, p: ProductId, v: VariantId) returns (error: Option<Error>)
    modifies db
    ensures db.Answers(DeleteVariant(old(db.State()), p, v), old(db.State()), error)
  {
    if p !in db.products || v !in db.variants || db.variants[v].product != p {
      return Some(NOT_FOUND);
    }
    var rows := map w <- db.variants | db.variants[w].product == p :: db.variants[w];
    assert rows == Of(db.variants, p);
    if |rows| <= 1 {
      return Some(CONFLICT);
    }
    if db.variants[v].stock != 0 || db.variants[v].reserved != 0 {
      return Some(CONFLICT);
    }
    var referenced := IsReferenced(db, {v});
    if referenced {
      return Some(CONFLICT);
    }
    Remove(db, {v});
    db.SyncProductTotals(p);
    return None;
  }

  method RemoveProduct(db: Tables, p: ProductId) returns (error: Option<Error>)
    modifies db
    ensures db.Answers(DeleteProduct(old(db.State()), p), old(db.State()), error)
  {
    if p !in db.products {
      return Some(NOT_FOUND);
    }
    var gone := set w <- db.variants | db.variants[w].product == p;
    assert gone == Of(db.variants, p).Keys;
    var referenced := IsReferenced(db, gone);
    if referenced {
      return Some(CONFLICT);
    }
    Remove(db, gone);
    db.products := db.products - {p};
    return None;
  }
}
