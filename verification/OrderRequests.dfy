/** The order endpoints, as they run against the tables. */
module OrderRequests {
  import opened Wrappers
  import opened Lifecycle
  import opened Listings
  import opened Inventory
  import opened Orders
  import opened Database

  /** The six-way branch of `update_order`. */
  method MoveForStatus(db: Tables, id: OrderId, new': Status) returns (error: Option<Error>)
    requires id in db.orders && Linked(db.State())
    modifies db
    ensures db.Ended(StatusMoves(old(db.State()), id, new'), error)
  {
    var o := db.orders[id];
    error := None;
    if new' == CANCELLED {
      var released;
      released, error := db.ReleaseOrderStock(id, ORDER_CANCELLED);
    } else if o.status == CANCELLED {
      if new' in RESERVING {
        error := db.MoveItems(o.items, MINUS, PLUS, RESERVATION_REOPENED, REFUSE);
      } else {
        error := db.MoveItems(o.items, MINUS, ZERO, ORDER_REOPENED, REFUSE);
      }
    } else if o.status in RESERVING && new' in FULFILLED {
      error := db.MoveItems(o.items, ZERO, MINUS, RESERVATION_FULFILLED, SKIP);
    } else if o.status in FULFILLED && new' in RESERVING {
      error := db.MoveItems(o.items, ZERO, PLUS, RESERVATION_RESTORED, SKIP);
    }
  }

  lemma StatusMovesOrder(s: Shop, id: OrderId, new': Status, o': Order)
    requires id in s.orders && StatusMoves(s, id, new').Done?
    ensures var t := StatusMoves(s, id, new').shop;
            id in t.orders && t.orders[id := o'] == s.orders[id := o'] && t.orders[id].items == s.orders[id].items
            && t.orders[id].total == s.orders[id].total && t.orders[id].unpaid == s.orders[id].unpaid
  {
    var o := s.orders[id];
    if new' == CANCELLED {
      MoveAllAdvances(s, ReleaseLines(o), ORDER_CANCELLED, SKIP);
    } else if o.status == CANCELLED {
      if new' in RESERVING {
        MoveAllAdvances(s, Lines(o.items, MINUS, PLUS), RESERVATION_REOPENED, REFUSE);
      } else {
        MoveAllAdvances(s, Lines(o.items, MINUS, ZERO), ORDER_REOPENED, REFUSE);
      }
    } else if o.status in RESERVING && new' in FULFILLED {
      MoveAllAdvances(s, Lines(o.items, ZERO, MINUS), RESERVATION_FULFILLED, SKIP);
    } else if o.status in FULFILLED && new' in RESERVING {
      MoveAllAdvances(s, Lines(o.items, ZERO, PLUS), RESERVATION_RESTORED, SKIP);
    }
  }

  method UpdateOrder(db: Tables, id: OrderId, status: Option<Status>, now: int) returns (error: Option<Error>)
    requires Linked(db.State())
    modifies db
    ensures db.Answers(Update(old(db.State()), id, status, now), old(db.State()), error)
  {
    if id !in db.orders {
      return Some(NOT_FOUND);
    }
    if status.None? || status.value == db.orders[id].status {
      return None;
    }
    var saved := db.State();
    error := MoveForStatus(db, id, status.value);
    if error.Some? {
      db.Rollback(saved);
      return;
    }
    StatusMovesOrder(saved, id, status.value, Changed(saved.orders[id], status.value, now));
    var deadline := if status.value == PENDING then Some(now + RESERVATION_LIFETIME) else None;
    db.orders := db.orders[id := db.orders[id].(status := status.value, deadline := deadline)];
  }

  method DeleteOrder(db: Tables, id: OrderId) returns (error: Option<Error>)
    requires Linked(db.State())
    modifies db
    ensures db.Answers(Delete(old(db.State()), id), old(db.State()), error)
  {
    if id !in db.orders {
      return Some(NOT_FOUND);
    }
    var saved := db.State();
    error := None;
    if db.orders[id].status != CANCELLED {
      var released;
      released, error := db.ReleaseOrderStock(id, ORDER_DELETED);
      if error.Some? {
        db.Rollback(saved);
        return;
      }
    }
    if exists r <- saved.salesReturns :: saved.salesReturns[r].order == id {
      db.Rollback(saved);
      return Some(CONFLICT);
    }
    db.orders := db.orders - {id};
    assert saved.orders[id := saved.orders[id].(deadline := None)] - {id} == saved.orders - {id};
  }

  method ReleaseExpired(db: Tables, now: int)
    returns (count: nat, released: int, error: Option<Error>, ghost ids: seq<OrderId>)
    requires Linked(db.State())
    modifies db
    ensures Enumerates(ids, ExpiredAt(old(db.orders), now))
    ensures db.Answers(ExpireAll(old(db.State()), ids), old(db.State()), error)
    ensures error.None? ==> count == |ids| && released == UnitsFirst(old(db.State()), ids, |ids|)
  {
    var saved := db.State();
    count, released, error, ids := db.ReleaseExpiredReservations(now);
    if error.Some? {
      db.Rollback(saved);
    }
  }

  // ---- Placing an order -----------------------------------------------------

  /** The variant a requested line means. */
  method ResolveRequest(db: Tables, r: Request) returns (choice: Choice)
    ensures choice == Resolve(db.State(), r)
  {
    if r.product !in db.products {
      return Rejected(NOT_FOUND);
    }
    if !db.products[r.product].active {
      return Rejected(BAD_REQUEST);
    }
    if r.variant.None? {
      var active := set v <- db.variants | db.variants[v].product == r.product && db.variants[v].active;
      assert active == ActiveOf(db.variants, r.product);
      if active == {} {
        return Rejected(BAD_REQUEST);
      }
      var v :| v in active;
      if active == {v} {
        return Chosen(v);
      }
      return Rejected(BAD_REQUEST);
    }
    var v := r.variant.value;
    if v !in db.variants || db.variants[v].product != r.product {
      return Rejected(NOT_FOUND);
    }
    if !db.variants[v].active {
      return Rejected(BAD_REQUEST);
    }
    return Chosen(v);
  }

  lemma {:induction false} MergeStops(s: Shop, requests: seq<Request>, n: nat)
    requires n <= |requests| && MergeFirst(s, requests, n).Failed?
    ensures MergeAll(s, requests) == MergeFirst(s, requests, n)
    decreases |requests| - n
  {
    if n < |requests| {
      MergeStops(s, requests, n + 1);
    }
  }

  /** The loop that validates the requested lines and adds up quantities. */
  method MergeRequests(db: Tables, requests: seq<Request>) returns (m: Merge)
    ensures m == MergeAll(db.State(), requests)
  {
    var quantities: map<VariantId, int> := map[];
    var i := 0;
    while i < |requests|
      invariant 0 <= i <= |requests|
      invariant MergeFirst(db.State(), requests, i) == Merged(quantities)
    {
      var choice := ResolveRequest(db, requests[i]);
      if choice.Rejected? {
        MergeStops(db.State(), requests, i + 1);
        return Failed(choice.error);
      }
      var v := choice.variant;
      quantities := quantities[v := (if v in quantities then quantities[v] else 0) + requests[i].quantity];
      i := i + 1;
    }
    return Merged(quantities);
  }

  method PickLeast(keys: set<VariantId>) returns (least: VariantId)
    requires keys != {}
    ensures least == Least(keys)
  {
    least :| least in keys;
    var rest := keys;
    while rest != {}
      invariant rest <= keys && least in keys
      invariant forall k <- keys :: k in rest || least <= k
      decreases rest
    {
      var k: VariantId :| k in rest;
      if k < least {
        least := k;
      }
      rest := rest - {k};
    }
    assert IsLeast(Least(keys), keys);
  }

  method SortIds(keys: set<VariantId>) returns (ids: seq<VariantId>)
    ensures ids == Sorted(keys)
  {
    ids := [];
    var rest := keys;
    while rest != {}
      invariant ids + Sorted(rest) == Sorted(keys)
      decreases rest
    {
      var least := PickLeast(rest);
      assert ids + ([least] + Sorted(rest - {least})) == (ids + [least]) + Sorted(rest - {least});
      ids := ids + [least];
      rest := rest - {least};
    }
  }

  /** One variant of the loop below. */
  method ReserveItem(db: Tables, v: VariantId, quantity: int, ghost s: Shop, ghost basket: seq<Item>, ghost i: nat)
    returns (item: Item, error: Option<Error>)
    requires i < |basket| && v in s.variants && basket[i] == Item(v, quantity, s.variants[v].price) && Linked(s)
    requires MoveFirst(s, Lines(basket, MINUS, PLUS), i, RESERVATION_CREATED, REFUSE) == Done(db.State())
    modifies db
    ensures item == basket[i]
    ensures error.None? ==>
              MoveFirst(s, Lines(basket, MINUS, PLUS), i + 1, RESERVATION_CREATED, REFUSE) == Done(db.State())
    ensures error.Some? ==> MoveAll(s, Lines(basket, MINUS, PLUS), RESERVATION_CREATED, REFUSE) == Refused(error.value)
  {
    PriceStands(s, Lines(basket, MINUS, PLUS), i, RESERVATION_CREATED, REFUSE, v);
    item := Item(v, quantity, db.variants[v].price);
    error := db.MoveLine(Line(v, -quantity, quantity), RESERVATION_CREATED, REFUSE, s, Lines(basket, MINUS, PLUS), i);
  }

  /** The loop that reserves the goods, prices the items and totals them. */
  method ReserveItems(db: Tables, quantities: map<VariantId, int>, ids: seq<VariantId>, ghost basket: seq<Item>)
    returns (items: seq<Item>, total: int, error: Option<Error>)
    requires Linked(db.State()) && forall v <- ids :: v in quantities && v in db.variants
    requires basket == Basket(db.State(), quantities, ids)
    modifies db
    ensures db.Ended(MoveAll(old(db.State()), Lines(basket, MINUS, PLUS), RESERVATION_CREATED, REFUSE), error)
    ensures error.None? ==> items == basket && total == Charge(basket)
  {
    ghost var s := db.State();
    items, total := [], 0;
    var i := 0;
    while i < |ids|
      invariant 0 <= i <= |ids|
      invariant MoveFirst(s, Lines(basket, MINUS, PLUS), i, RESERVATION_CREATED, REFUSE) == Done(db.State())
      invariant items == basket[..i] && total == ChargeTo(basket, i)
    {
      var item;
      item, error := ReserveItem(db, ids[i], quantities[ids[i]], s, basket, i);
      if error.Some? {
        return;
      }
      assert basket[..i + 1] == basket[..i] + [item];
      items := items + [item];
      total := total + item.unitPrice * item.quantity;
      i := i + 1;
    }
    assert basket[..i] == basket;
    error := None;
  }

  lemma PriceStands(s: Shop, lines: seq<Line>, n: nat, kind: Kind, missing: Missing, v: VariantId)
    requires n <= |lines| && MoveFirst(s, lines, n, kind, missing).Done? && v in s.variants
    ensures var t := MoveFirst(s, lines, n, kind, missing).shop;
            v in t.variants && t.variants[v].price == s.variants[v].price
  {
    MoveFirstAdvances(s, lines, n, kind, missing);
    assert MoveFirst(s, lines, n, kind, missing).shop.variants[v] == Shifted(s.variants[v], lines, n, v);
  }

  /** `create_order` once expired reservations are gone. */
  method PlaceOrder(db: Tables, id: OrderId, requests: seq<Request>, customerOk: bool, conversationOk: bool, now: int)
    returns (error: Option<Error>)
    requires Linked(db.State())
    modifies db
    ensures db.Ended(PlaceIn(old(db.State()), id, requests, customerOk, conversationOk, now), error)
  {
    if requests == [] {
      return Some(BAD_REQUEST);
    }
    var i := 0;
    while i < |requests|
      invariant 0 <= i <= |requests|
      invariant forall k | 0 <= k < i :: 0 < requests[k].quantity
    {
      if requests[i].quantity <= 0 {
        return Some(BAD_REQUEST);
      }
      i := i + 1;
    }
    if !customerOk || !conversationOk {
      return Some(NOT_FOUND);
    }
    var merge := MergeRequests(db, requests);
    if merge.Failed? {
      return Some(merge.error);
    }
    error := FillOrder(db, id, merge.quantities, now);
  }

  method FillOrder(db: Tables, id: OrderId, quantities: map<VariantId, int>, now: int) returns (error: Option<Error>)
    requires Linked(db.State()) && quantities.Keys <= db.variants.Keys
    modifies db
    ensures var s := old(db.State());
            var items := BasketOf(s, quantities);
            db.Ended(SetOrder(MoveAll(s, Lines(items, MINUS, PLUS), RESERVATION_CREATED, REFUSE), id,
                              NewOrder(items, now)), error)
  {
    var ids := SortIds(quantities.Keys);
    SortedIs(quantities.Keys);
    var items, total;
    items, total, error := ReserveItems(db, quantities, ids, BasketOf(db.State(), quantities));
    if error.None? {
      db.orders := db.orders[id := Order(PENDING, items, Some(now + RESERVATION_LIFETIME), true, total)];
    }
  }

  method CreateOrder(db: Tables, id: OrderId, requests: seq<Request>, customerOk: bool, conversationOk: bool, now: int)
    returns (error: Option<Error>, ghost expired: seq<OrderId>)
    requires id !in db.orders && Linked(db.State())
    modifies db
    ensures Enumerates(expired, ExpiredAt(old(db.orders), now))
    ensures db.Answers(Place(old(db.State()), id, requests, customerOk, conversationOk, expired, now), old(db.State()),
                       error)
  {
    var saved := db.State();
    var count, released;
    count, released, error, expired := db.ReleaseExpiredReservations(now);
    if error.None? {
      ExpireLinks(saved, expired, |expired|);
      error := PlaceOrder(db, id, requests, customerOk, conversationOk, now);
    }
    if error.Some? {
      db.Rollback(saved);
    }
  }

}
