/** The tables as the services write them: one object whose fields the methods
    reassign, each method tied to the function that says what it does. */
module Database {
  import opened Wrappers
  import opened Lifecycle
  import opened Listings
  import opened Sums
  import opened Inventory
  import opened Orders

  lemma ColumnsTake(rows: map<VariantId, Variant>, v: VariantId)
    requires v in rows
    ensures Sum(StockColumn(rows)) == (if rows[v].active then rows[v].stock else 0) + Sum(StockColumn(rows - {v}))
    ensures Sum(ThresholdColumn(rows))
         == (if rows[v].active then rows[v].threshold else 0) + Sum(ThresholdColumn(rows - {v}))
    ensures Sum(ReservedColumn(rows)) == rows[v].reserved + Sum(ReservedColumn(rows - {v}))
  {
    SumPick(StockColumn(rows), v);
    SumPick(ReservedColumn(rows), v);
    SumPick(ThresholdColumn(rows), v);
    assert StockColumn(rows) - {v} == StockColumn(rows - {v});
    assert ReservedColumn(rows) - {v} == ReservedColumn(rows - {v});
    assert ThresholdColumn(rows) - {v} == ThresholdColumn(rows - {v});
  }

  class Tables {
    var variants: map<VariantId, Variant>
    var products: map<ProductId, Product>
    var orders: map<OrderId, Order>
    var ledger: seq<Movement>
    var purchases: map<PurchaseId, Purchase>
    var salesReturns: map<ReturnId, Return>

    function State(): Shop
      reads this
    {
      Shop(variants, products, orders, ledger, purchases, salesReturns)
    }

    constructor ()
      ensures State() == EMPTY
    {
      variants, products, orders := map[], map[], map[];
      ledger, purchases, salesReturns := [], map[], map[];
    }

    /** A transaction that raised leaves nothing behind. */
    method Rollback(saved: Shop)
      modifies this
      ensures State() == saved
    {
      variants, products, orders := saved.variants, saved.products, saved.orders;
      ledger, purchases, salesReturns := saved.ledger, saved.purchases, saved.salesReturns;
    }

    // ---- Product totals -----------------------------------------------------

    /** The lowest price among the active variants, or among all of them. */
    method LowestPrice(rows: map<VariantId, Variant>) returns (price: int)
      requires rows != map[]
      ensures price == Price(rows)
    {
      var priced := Priced(rows);
      assert IsPrice(rows, Price(rows));
      var first :| first in priced;
      price := rows[first].price;
      var rest := priced;
      while rest != {}
        invariant rest <= priced
        invariant exists v <- priced :: rows[v].price == price
        invariant forall v <- priced :: v in rest || price <= rows[v].price
        decreases rest
      {
        var v :| v in rest;
        if rows[v].price < price {
          price := rows[v].price;
        }
        rest := rest - {v};
      }
      assert IsPrice(rows, price) && IsPrice(rows, Price(rows));
    }

    method AddUp(rows: map<VariantId, Variant>) returns (stock: int, reserved: int, threshold: int)
      ensures stock == Sum(StockColumn(rows)) && reserved == Sum(ReservedColumn(rows))
              && threshold == Sum(ThresholdColumn(rows))
    {
      stock, reserved, threshold := 0, 0, 0;
      var left := rows;
      while left != map[]
        invariant stock + Sum(StockColumn(left)) == Sum(StockColumn(rows))
        invariant reserved + Sum(ReservedColumn(left)) == Sum(ReservedColumn(rows))
        invariant threshold + Sum(ThresholdColumn(left)) == Sum(ThresholdColumn(rows))
        decreases |left|
      {
        var v :| v in left.Keys;
        ColumnsTake(left, v);
        if left[v].active {
          stock := stock + left[v].stock;
          threshold := threshold + left[v].threshold;
        }
        reserved := reserved + left[v].reserved;
        left := left - {v};
      }
    }

    /** `sync_product_totals` */
    method SyncProductTotals(p: ProductId)
      requires p in products
      modifies this`products
      ensures products == Synced(old(products), variants, p)
    {
      var rows := map v <- variants | variants[v].product == p :: variants[v];
      assert rows == Of(variants, p);
      var stock, reserved, threshold := AddUp(rows);
      var price := products[p].price;
      if rows != map[] {
        price := LowestPrice(rows);
      }
      products := products[p := products[p].(stock := stock, reserved := reserved, threshold := threshold,
                                             price := price)];
    }

    // ---- Moving stock -------------------------------------------------------

    ghost predicate Answers(out: Outcome, before: Shop, error: Option<Error>)
      reads this
    {
      if out.Done? then error.None? && State() == out.shop else error == Some(out.error) && State() == before
    }

    /** `move_stock` */
    method MoveStock(v: VariantId, available: int, reserved: int, kind: Kind) returns (error: Option<Error>)
      requires v in variants && variants[v].product in products
      modifies this
      ensures Answers(Move(old(State()), Line(v, available, reserved), kind), old(State()), error)
    {
      var x := variants[v];
      var newAvailable := x.stock + available;
      var newReserved := x.reserved + reserved;
      if newAvailable < 0 {
        return Some(INSUFFICIENT);
      }
      if newReserved < 0 {
        return Some(INCONSISTENT);
      }
      variants := variants[v := x.(stock := newAvailable, reserved := newReserved)];
      SyncProductTotals(x.product);
      ledger := ledger + [Movement(Some(v), kind, available, newAvailable, newReserved)];
      return None;
    }

    /** Whether a helper did what it should; one that raises leaves the mess to
        the caller's rollback. */
    ghost predicate Ended(out: Outcome, error: Option<Error>)
      reads this
    {
      if out.Done? then error.None? && State() == out.shop else error == Some(out.error)
    }

    /** One line of a loop over an order, a delivery or a return, `i` lines
        having been moved. */
    method MoveLine(line: Line, kind: Kind, missing: Missing, ghost s: Shop, ghost lines: seq<Line>, ghost i: nat)
      returns (error: Option<Error>)
      requires i < |lines| && line == lines[i] && Linked(s)
      requires MoveFirst(s, lines, i, kind, missing) == Done(State())
      modifies this
      ensures error.None? ==> MoveFirst(s, lines, i + 1, kind, missing) == Done(State())
      ensures error.Some? ==> MoveAll(s, lines, kind, missing) == Refused(error.value)
    {
      MoveLinks(s, lines, i, kind, missing, line.variant);
      if line.variant in variants {
        error := MoveStock(line.variant, line.available, line.reserved, kind);
      } else if missing == SKIP {
        error := None;
      } else {
        error := Some(MISSING_VARIANT);
      }
      if error.Some? {
        MoveFirstStops(s, lines, i + 1, kind, missing);
      }
    }

    /** `release_order_stock` */
    method ReleaseOrderStock(id: OrderId, kind: Kind) returns (released: int, error: Option<Error>)
      requires id in orders && Linked(State())
      modifies this
      ensures Ended(Release(old(State()), id, kind), error)
      ensures error.None? ==> released == Units(old(orders)[id].items, |old(orders)[id].items|, old(variants).Keys)
    {
      released := 0;
      var o := orders[id];
      var known := variants.Keys;
      var reserved := if o.status in RESERVING then MINUS else ZERO;
      ghost var s, lines := State(), ReleaseLines(o);
      var i := 0;
      while i < |o.items|
        invariant 0 <= i <= |o.items|
        invariant MoveFirst(s, lines, i, kind, SKIP) == Done(State())
        invariant released == Units(o.items, i, known)
      {
        error := MoveLine(LineOf(o.items[i], PLUS, reserved), kind, SKIP, s, lines, i);
        if error.Some? {
          return;
        }
        if o.items[i].variant in known {
          released := released + o.items[i].quantity;
        }
        i := i + 1;
      }
      MoveLinks(s, lines, i, kind, SKIP, 0);
      orders := orders[id := o.(deadline := None)];
      error := None;
    }

    /** The query for expired reservations, in an order of the database's
        choosing. */
    method SelectExpired(now: int) returns (ids: seq<OrderId>)
      ensures Enumerates(ids, ExpiredAt(orders, now))
    {
      ids := [];
      var rest := set id <- orders | Expired(orders[id], now);
      while rest != {}
        invariant forall id :: id in ids || id in rest <==> id in orders && Expired(orders[id], now)
        invariant forall id <- ids :: id !in rest
        invariant forall i, j | 0 <= i < j < |ids| :: ids[i] != ids[j]
        decreases rest
      {
        var id :| id in rest;
        rest := rest - {id};
        ids := ids + [id];
      }
    }

    /** One turn of the loop of `release_expired_reservations`. */
    method ExpireOrder(id: OrderId) returns (units: int, error: Option<Error>)
      requires id in orders && Linked(State())
      modifies this
      ensures Ended(ExpireOne(old(State()), id), error)
      ensures error.None? ==> units == UnitsOf(old(State()), id)
    {
      ghost var s := State();
      units, error := ReleaseOrderStock(id, RESERVATION_EXPIRED);
      if error.Some? {
        return;
      }
      orders := orders[id := orders[id].(status := CANCELLED)];
      assert orders == s.orders[id := s.orders[id].(status := CANCELLED, deadline := None)];
    }

    /** The first `i` orders have been released, with so many units. */
    ghost predicate Progress(s: Shop, ids: seq<OrderId>, i: nat, released: int)
      reads this
    {
      i <= |ids| && ExpireFirst(s, ids, i) == Done(State()) && released == UnitsFirst(s, ids, i)
    }

    /** One order of the loop below. */
    method ReleaseNext(ids: seq<OrderId>, i: nat, released: int, ghost s: Shop)
      returns (total: int, error: Option<Error>)
      requires i < |ids| && Linked(s) && Existing(s, ids) && Progress(s, ids, i, released)
      modifies this
      ensures error.None? ==> Progress(s, ids, i + 1, total)
      ensures error.Some? ==> ExpireAll(s, ids) == Refused(error.value)
    {
      ExpireNext(s, ids, i);
      var units;
      units, error := ExpireOrder(ids[i]);
      total := released + units;
      if error.Some? {
        ExpireStops(s, ids, i + 1);
      }
    }

    /** The loop of `release_expired_reservations`. */
    method ReleaseEach(ids: seq<OrderId>, ghost s: Shop) returns (released: int, error: Option<Error>)
      requires s == State() && Linked(s) && Existing(s, ids)
      modifies this
      ensures error.None? ==> Progress(s, ids, |ids|, released)
      ensures error.Some? ==> ExpireAll(s, ids) == Refused(error.value)
    {
      released := 0;
      var i := 0;
      while i < |ids|
        invariant 0 <= i <= |ids| && Progress(s, ids, i, released)
      {
        released, error := ReleaseNext(ids, i, released, s);
        if error.Some? {
          return;
        }
        i := i + 1;
      }
      error := None;
    }

    /** `release_expired_reservations` */
    method ReleaseExpiredReservations(now: int)
      returns (count: nat, released: int, error: Option<Error>, ghost ids: seq<OrderId>)
      requires Linked(State())
      modifies this
      ensures Enumerates(ids, ExpiredAt(old(orders), now))
      ensures Ended(ExpireAll(old(State()), ids), error)
      ensures error.None? ==> count == |ids| && released == UnitsFirst(old(State()), ids, |ids|)
    {
      var expired := SelectExpired(now);
      ids, count := expired, |expired|;
      released, error := ReleaseEach(expired, State());
    }

    /** The loop of `_deduct_order` and of `_change_reserved_stock`. */
    method MoveItems(items: seq<Item>, a: Sign, r: Sign, kind: Kind, missing: Missing) returns (error: Option<Error>)
      requires Linked(State())
      modifies this
      ensures Ended(MoveAll(old(State()), Lines(items, a, r), kind, missing), error)
    {
      ghost var s, lines := State(), Lines(items, a, r);
      var i := 0;
      while i < |items|
        invariant 0 <= i <= |items|
        invariant MoveFirst(s, lines, i, kind, missing) == Done(State())
      {
        error := MoveLine(LineOf(items[i], a, r), kind, missing, s, lines, i);
        if error.Some? {
          return;
        }
        i := i + 1;
      }
      error := None;
    }
  }

  ghost predicate Linked(s: Shop)
  {
    forall v <- s.variants :: s.variants[v].product in s.products
  }

  lemma MoveLinks(s: Shop, lines: seq<Line>, n: nat, kind: Kind, missing: Missing, v: VariantId)
    requires n <= |lines| && MoveFirst(s, lines, n, kind, missing).Done? && Linked(s)
    ensures var t := MoveFirst(s, lines, n, kind, missing).shop;
            && t.orders == s.orders && t.purchases == s.purchases && t.salesReturns == s.salesReturns
            && t.variants.Keys == s.variants.Keys
            && (v in t.variants ==> t.variants[v].product in t.products)
  {
    MoveFirstAdvances(s, lines, n, kind, missing);
    if v in s.variants {
      assert MoveFirst(s, lines, n, kind, missing).shop.variants[v] == Shifted(s.variants[v], lines, n, v);
    }
  }

  ghost predicate Existing(s: Shop, ids: seq<OrderId>)
  {
    forall id <- ids :: id in s.orders
  }

  lemma ExpireNext(s: Shop, ids: seq<OrderId>, n: nat)
    requires n < |ids| && ExpireFirst(s, ids, n).Done? && Linked(s) && Existing(s, ids)
    ensures var t := ExpireFirst(s, ids, n).shop;
            && Linked(t) && ids[n] in t.orders && ExpireFirst(s, ids, n + 1) == ExpireOne(t, ids[n])
            && UnitsOf(t, ids[n]) == UnitsOf(s, ids[n])
  {
    ExpireLinks(s, ids, n);
    assert ids[n] in ids;
  }

  lemma {:induction false} ExpireLinks(s: Shop, ids: seq<OrderId>, n: nat)
    requires n <= |ids| && ExpireFirst(s, ids, n).Done? && Linked(s) && Existing(s, ids)
    ensures var t := ExpireFirst(s, ids, n).shop;
            && Linked(t) && t.orders.Keys == s.orders.Keys && t.variants.Keys == s.variants.Keys
            && forall id <- s.orders :: t.orders[id].items == s.orders[id].items
  {
    if n != 0 {
      ExpireLinks(s, ids, n - 1);
      var t := ExpireFirst(s, ids, n - 1).shop;
      assert ids[n - 1] in ids;
      MoveAllLinks(t, ReleaseLines(t.orders[ids[n - 1]]), RESERVATION_EXPIRED, SKIP);
    }
  }

  lemma MoveAllLinks(s: Shop, lines: seq<Line>, kind: Kind, missing: Missing)
    requires MoveAll(s, lines, kind, missing).Done? && Linked(s)
    ensures var t := MoveAll(s, lines, kind, missing).shop;
            && Linked(t) && t.orders == s.orders && t.purchases == s.purchases && t.salesReturns == s.salesReturns
            && t.variants.Keys == s.variants.Keys
  {
    MoveLinks(s, lines, |lines|, kind, missing, 0);
    forall v | v in s.variants
      ensures var t := MoveAll(s, lines, kind, missing).shop; t.variants[v].product in t.products
    {
      MoveLinks(s, lines, |lines|, kind, missing, v);
    }
  }

  lemma {:induction false} ExpireStops(s: Shop, ids: seq<OrderId>, n: nat)
    requires n <= |ids| && ExpireFirst(s, ids, n).Refused?
    ensures ExpireAll(s, ids) == ExpireFirst(s, ids, n)
    decreases |ids| - n
  {
    if n < |ids| {
      ExpireStops(s, ids, n + 1);
    }
  }
}
