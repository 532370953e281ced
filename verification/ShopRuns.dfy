/** Every request a shop can receive, in any order: what holds after any run of
    them, and what none of them can run into. */
module ShopRuns {
  import opened Wrappers
  import opened Lifecycle
  import opened Listings
  import opened Sums
  import opened Inventory
  import opened Invariants
  import opened Orders
  import opened Products
  import opened Operations

  /** `expired` is the order in which the database lists expired reservations,
      and `SetPayment` whatever payment does to an order's row. */
  datatype Event =
    | CreateOrder(order: OrderId, lines: seq<Request>, customerOk: bool, conversationOk: bool, expired: seq<OrderId>)
    | UpdateOrder(order: OrderId, status: Option<Status>)
    | DeleteOrder(order: OrderId)
    | ReleaseExpired(expired: seq<OrderId>)
    | SetPayment(order: OrderId, unpaid: bool, deadline: Option<int>)
    | CreateProduct(product: ProductId, ids: seq<VariantId>, price: int, stock: int, threshold: int,
                    data: seq<VariantData>, unique: bool)
    | CreateProductVariant(product: ProductId, variant: VariantId, row: VariantData, unique: bool)
    | UpdateProductVariant(product: ProductId, variant: VariantId, newPrice: Option<int>, newThreshold: Option<int>,
                           active: Option<bool>, unique: bool)
    | DeleteProductVariant(product: ProductId, variant: VariantId)
    | EditProduct(product: ProductId, newStock: Option<int>, newPrice: Option<int>, newThreshold: Option<int>,
                  active: Option<bool>)
    | RemoveProduct(product: ProductId)
    | AdjustStock(product: ProductId, which: Option<VariantId>, delta: int)
    | CreatePurchase(purchase: PurchaseId, supplierOk: bool, wanted: seq<PurchaseRequest>)
    | ChangePurchase(purchase: PurchaseId, purchaseStatus: Option<PurchaseStatus>)
    | TakeDelivery(purchase: PurchaseId, deliveries: seq<Delivery>)
    | CreateReturn(salesReturn: ReturnId, order: OrderId, refund: int, returned: seq<ReturnRequest>)
    | TakeReturn(salesReturn: ReturnId)
    | RefundReturn(salesReturn: ReturnId)

  type Timed = (Event, int)

  /** What the request's schema, a fresh key or the database guarantees. */
  ghost predicate Admissible(s: Shop, e: Timed)
  {
    match e.0
    case CreateOrder(id, _, _, _, expired) => id !in s.orders && Enumerates(expired, ExpiredAt(s.orders, e.1))
    case ReleaseExpired(expired) => Enumerates(expired, ExpiredAt(s.orders, e.1))
    case SetPayment(id, _, _) => id in s.orders
    case CreateProduct(p, ids, price, stock, threshold, data, _) =>
      && p !in s.products && FreshIds(s, ids) && |ids| == |Requested(price, stock, threshold, data)|
      && forall d <- Requested(price, stock, threshold, data) :: 0 <= d.stock
    case CreateProductVariant(_, v, row, _) => v !in s.variants && 0 <= row.stock
    case CreatePurchase(id, _, wanted) => id !in s.purchases && wanted != [] && forall r <- wanted :: 0 < r.ordered
    case TakeDelivery(_, deliveries) => deliveries != [] && forall d <- deliveries :: 0 < d.quantity
    case CreateReturn(id, _, refund, returned) =>
      id !in s.salesReturns && 0 <= refund && forall r <- returned :: 0 < r.quantity && 0 <= r.restock
    case _ => true
  }

  ghost function Response(s: Shop, e: Timed): Outcome
    requires Admissible(s, e)
  {
    match e.0
    case CreateOrder(id, lines, customerOk, conversationOk, expired) =>
      Place(s, id, lines, customerOk, conversationOk, expired, e.1)
    case UpdateOrder(id, status) => Update(s, id, status, e.1)
    case DeleteOrder(id) => Delete(s, id)
    case ReleaseExpired(expired) => ExpireAll(s, expired)
    case SetPayment(id, unpaid, deadline) =>
      Done(s.(orders := s.orders[id := s.orders[id].(unpaid := unpaid, deadline := deadline)]))
    case CreateProduct(p, ids, price, stock, threshold, data, unique) =>
      Create(s, p, ids, price, threshold, Requested(price, stock, threshold, data), unique)
    case CreateProductVariant(p, v, row, unique) => CreateVariant(s, p, v, row, unique)
    case UpdateProductVariant(p, v, price, threshold, active, unique) =>
      UpdateVariant(s, p, v, price, threshold, active, unique)
    case DeleteProductVariant(p, v) => DeleteVariant(s, p, v)
    case EditProduct(p, stock, price, threshold, active) => UpdateProduct(s, p, stock, price, threshold, active)
    case RemoveProduct(p) => DeleteProduct(s, p)
    case AdjustStock(p, which, delta) => Adjust(s, p, which, delta)
    case CreatePurchase(id, supplierOk, wanted) => Buy(s, id, supplierOk, wanted)
    case ChangePurchase(id, status) => UpdatePurchase(s, id, status)
    case TakeDelivery(id, deliveries) => ReceivePurchase(s, id, deliveries)
    case CreateReturn(id, order, refund, returned) => OpenReturn(s, id, order, refund, returned)
    case TakeReturn(id) => ReceiveReturn(s, id)
    case RefundReturn(id) => Refund(s, id)
  }

  /** A refused request changes nothing. */
  ghost function After(s: Shop, e: Timed): Shop
    requires Admissible(s, e)
  {
    if Response(s, e).Done? then Response(s, e).shop else s
  }

  ghost predicate Legal(s: Shop, run: seq<Timed>)
    decreases |run|
  {
    run == [] || (Admissible(s, run[0]) && Legal(After(s, run[0]), run[1..]))
  }

  ghost function End(s: Shop, run: seq<Timed>): Shop
    requires Legal(s, run)
    decreases |run|
  {
    if run == [] then s else End(After(s, run[0]), run[1..])
  }

  // ---- Soundness of every run -----------------------------------------------

  lemma PlaceSound(s: Shop, id: OrderId, lines: seq<Request>, customerOk: bool, conversationOk: bool,
                   expired: seq<OrderId>, now: int)
    requires Sound(s) && id !in s.orders && Enumerates(expired, ExpiredAt(s.orders, now))
    ensures var out := Place(s, id, lines, customerOk, conversationOk, expired, now);
            && (out.Done? ==> Sound(out.shop))
            && (out.Refused? ==> out.error in {BAD_REQUEST, NOT_FOUND, INSUFFICIENT})
  {
    ExpireAllSound(s, expired);
    PlacedSound(ExpireAll(s, expired).shop, id, lines, customerOk, conversationOk, now);
  }

  lemma UpdateSound(s: Shop, id: OrderId, status: Option<Status>, now: int)
    requires Sound(s)
    ensures var out := Update(s, id, status, now);
            && (out.Done? ==> Sound(out.shop))
            && (out.Refused? ==> out.error in {NOT_FOUND, INSUFFICIENT})
  {
    if id in s.orders && status.Some? && status.value != s.orders[id].status {
      if s.orders[id].status == CANCELLED {
        ReopenSound(s, id, status.value, now);
      } else {
        ChangeSound(s, id, status.value, now);
      }
    }
  }

  lemma SetPaymentSound(s: Shop, id: OrderId, unpaid: bool, deadline: Option<int>)
    requires Sound(s) && id in s.orders
    ensures Sound(s.(orders := s.orders[id := s.orders[id].(unpaid := unpaid, deadline := deadline)]))
  {
    NoMoveSound(s, id, Some(s.orders[id].(unpaid := unpaid, deadline := deadline)));
  }

  lemma CreateProductSound(s: Shop, p: ProductId, ids: seq<VariantId>, price: int, stock: int, threshold: int,
                           data: seq<VariantData>, unique: bool)
    requires Sound(s) && FreshIds(s, ids) && |ids| == |Requested(price, stock, threshold, data)|
    requires forall d <- Requested(price, stock, threshold, data) :: 0 <= d.stock
    ensures var out := Create(s, p, ids, price, threshold, Requested(price, stock, threshold, data), unique);
            && (out.Done? <==> unique && !AnyNegative(Requested(price, stock, threshold, data)))
            && (out.Done? ==> Sound(out.shop)) && (out.Refused? ==> out.error in {CONFLICT, NEGATIVE_PRICE})
  {
    if unique && !AnyNegative(Requested(price, stock, threshold, data)) {
      assert Requested(price, stock, threshold, data) != [];
      OpenSound(s, p, Product(true, 0, 0, threshold, price), ids, Requested(price, stock, threshold, data));
    }
  }

  lemma CreateVariantSound(s: Shop, p: ProductId, v: VariantId, row: VariantData, unique: bool)
    requires Sound(s) && v !in s.variants && 0 <= row.stock
    ensures var out := CreateVariant(s, p, v, row, unique);
            && (out.Done? ==> Sound(out.shop))
            && (out.Refused? ==> out.error in {NOT_FOUND, BAD_REQUEST, CONFLICT, NEGATIVE_PRICE})
  {
    if p in s.products && |Of(s.variants, p)| < MAX_VARIANTS && unique && 0 <= row.price {
      OpenSound(s, p, s.products[p], [v], [row]);
    }
  }

  lemma MoveFreeSafe(s: Shop, line: Line, kind: Kind)
    requires Sound(s) && line.variant in s.variants && line.reserved == 0
    ensures Move(s, line, kind).Refused? ==> Move(s, line, kind).error == INSUFFICIENT
  {
    BooksNonNegative(s.variants, s.ledger);
  }

  lemma RestockSafe(s: Shop, p: ProductId, stock: Option<int>)
    requires Sound(s) && p in s.products && Restock(s, p, stock).Refused?
    ensures Restock(s, p, stock).error in {INSUFFICIENT, BAD_REQUEST}
  {
    if OnlyOf(s.variants, p).Some? {
      var v := OnlyOf(s.variants, p).value;
      MoveFreeSafe(s, Line(v, stock.value - s.variants[v].stock, 0), MANUAL_ADJUSTMENT);
    }
  }

  lemma AdjustSafe(s: Shop, p: ProductId, which: Option<VariantId>, delta: int)
    requires Sound(s) && Adjust(s, p, which, delta).Refused?
    ensures Adjust(s, p, which, delta).error in {NOT_FOUND, BAD_REQUEST, INSUFFICIENT}
  {
    if p in s.products {
      if which.Some? && which.value in Of(s.variants, p) {
        MoveFreeSafe(s, Line(which.value, delta, 0), MANUAL_ADJUSTMENT);
      } else if which.None? && OnlyOf(s.variants, p).Some? {
        MoveFreeSafe(s, Line(OnlyOf(s.variants, p).value, delta, 0), MANUAL_ADJUSTMENT);
      }
    }
  }

  /** A delivery is turned away only for exceeding what was ordered. */
  lemma {:induction false} DeliverySafe(s: Shop, lines: seq<PurchaseLine>, deliveries: seq<Delivery>, n: nat)
    requires NonNegative(s.variants) && LinesKnown(lines, s.variants.Keys) && OnOrder(deliveries, lines)
             && n <= |deliveries|
    requires forall d <- deliveries :: 0 < d.quantity
    ensures var r := ReceiveFirst(s, lines, deliveries, n);
            && (r.Turned? ==> r.error == BAD_REQUEST)
            && (r.Took? ==> NonNegative(r.shop.variants) && r.shop.variants.Keys == s.variants.Keys
                            && LinesKnown(r.lines, s.variants.Keys))
  {
    if n != 0 {
      DeliverySafe(s, lines, deliveries, n - 1);
      var before := ReceiveFirst(s, lines, deliveries, n - 1);
      var d := deliveries[n - 1];
      assert d in deliveries;
      if before.Took? {
        assert before.lines[d.item] in before.lines;
      }
    }
  }

  lemma TakeDeliverySafe(s: Shop, id: PurchaseId, deliveries: seq<Delivery>)
    requires Sound(s) && forall d <- deliveries :: 0 < d.quantity
    requires ReceivePurchase(s, id, deliveries).Refused?
    ensures ReceivePurchase(s, id, deliveries).error in {NOT_FOUND, CONFLICT, BAD_REQUEST}
  {
    if id in s.purchases && OnOrder(deliveries, s.purchases[id].lines) {
      BooksNonNegative(s.variants, s.ledger);
      assert LinesKnown(s.purchases[id].lines, s.variants.Keys);
      DeliverySafe(s, s.purchases[id].lines, deliveries, |deliveries|);
    }
  }

  /** No request can find a reservation inconsistent, or a variant missing under
      an order, a purchase or a return. */
  ghost predicate Safe(out: Outcome)
  {
    out.Refused? ==> out.error != INCONSISTENT && out.error != MISSING_VARIANT
  }

  lemma OrderStep(s: Shop, e: Timed)
    requires Sound(s) && Admissible(s, e)
    requires e.0.CreateOrder? || e.0.UpdateOrder? || e.0.DeleteOrder? || e.0.ReleaseExpired? || e.0.SetPayment?
    ensures Sound(After(s, e)) && Safe(Response(s, e))
  {
    match e.0
    case CreateOrder(id, lines, customerOk, conversationOk, expired) =>
      PlaceSound(s, id, lines, customerOk, conversationOk, expired, e.1);
    case UpdateOrder(id, status) => UpdateSound(s, id, status, e.1);
    case DeleteOrder(id) => DeleteSound(s, id);
    case ReleaseExpired(expired) =>
      ExpireAllSound(s, expired);
    case SetPayment(id, unpaid, deadline) => SetPaymentSound(s, id, unpaid, deadline);
  }

  lemma ProductStep(s: Shop, e: Timed)
    requires Sound(s) && Admissible(s, e)
    requires e.0.CreateProduct? || e.0.CreateProductVariant? || e.0.UpdateProductVariant? || e.0.DeleteProductVariant?
          || e.0.RemoveProduct?
    ensures Sound(After(s, e)) && Safe(Response(s, e))
  {
    match e.0
    case CreateProduct(p, ids, price, stock, threshold, data, unique) =>
      CreateProductSound(s, p, ids, price, stock, threshold, data, unique);
    case CreateProductVariant(p, v, row, unique) => CreateVariantSound(s, p, v, row, unique);
    case UpdateProductVariant(p, v, price, threshold, active, unique) =>
      if Response(s, e).Done? {
        UpdateVariantSound(s, p, v, price, threshold, active, unique);
      }
    case DeleteProductVariant(p, v) =>
      if Response(s, e).Done? {
        DeleteVariantSound(s, p, v);
      }
    case RemoveProduct(p) =>
      if Response(s, e).Done? {
        DeleteProductSound(s, p);
      }
  }

  lemma StockStep(s: Shop, e: Timed)
    requires Sound(s) && Admissible(s, e) && (e.0.EditProduct? || e.0.AdjustStock?)
    ensures Sound(After(s, e)) && Safe(Response(s, e))
  {
    match e.0
    case EditProduct(p, stock, price, threshold, active) =>
      if Response(s, e).Done? {
        UpdateProductSound(s, p, stock, price, threshold, active);
      } else if p in s.products && Restock(s, p, stock).Refused? {
        RestockSafe(s, p, stock);
      }
    case AdjustStock(p, which, delta) =>
      if Response(s, e).Done? {
        AdjustSound(s, p, which, delta);
      } else {
        AdjustSafe(s, p, which, delta);
      }
  }

  lemma OperationStep(s: Shop, e: Timed)
    requires Sound(s) && Admissible(s, e)
    requires e.0.CreatePurchase? || e.0.ChangePurchase? || e.0.TakeDelivery? || e.0.CreateReturn? || e.0.TakeReturn?
             || e.0.RefundReturn?
    ensures Sound(After(s, e)) && Safe(Response(s, e))
  {
    if Response(s, e).Done? {
      match e.0
      case CreatePurchase(id, supplierOk, wanted) => BuySound(s, id, supplierOk, wanted);
      case ChangePurchase(id, status) => UpdatePurchaseSound(s, id, status);
      case TakeDelivery(id, deliveries) => ReceivePurchaseSound(s, id, deliveries);
      case CreateReturn(id, order, refund, returned) => OpenReturnSound(s, id, order, refund, returned);
      case TakeReturn(id) => ReceiveReturnSound(s, id);
      case RefundReturn(id) => RefundSound(s, id);
    } else if e.0.TakeDelivery? {
      TakeDeliverySafe(s, e.0.purchase, e.0.deliveries);
    } else if e.0.TakeReturn? && e.0.salesReturn in s.salesReturns && !s.salesReturns[e.0.salesReturn].received {
      ReceiveReturnSucceeds(s, e.0.salesReturn);
    }
  }

  /** One request keeps the shop sound, and is never refused for an inconsistent
      reservation or a missing variant. */
  lemma StepSound(s: Shop, e: Timed)
    requires Sound(s) && Admissible(s, e)
    ensures Sound(After(s, e)) && Safe(Response(s, e))
  {
    if e.0.CreateOrder? || e.0.UpdateOrder? || e.0.DeleteOrder? || e.0.ReleaseExpired? || e.0.SetPayment? {
      OrderStep(s, e);
    } else if e.0.EditProduct? || e.0.AdjustStock? {
      StockStep(s, e);
    } else if e.0.CreatePurchase? || e.0.ChangePurchase? || e.0.TakeDelivery? || e.0.CreateReturn? || e.0.TakeReturn?
              || e.0.RefundReturn? {
      OperationStep(s, e);
    } else {
      ProductStep(s, e);
    }
  }

  /** Every request of a run is answered safely. */
  ghost predicate AllSafe(s: Shop, run: seq<Timed>)
    requires Legal(s, run)
    decreases |run|
  {
    run == [] || (Safe(Response(s, run[0])) && AllSafe(After(s, run[0]), run[1..]))
  }

  /** So it is over every run. */
  lemma {:induction false} RunsSound(s: Shop, run: seq<Timed>)
    requires Sound(s) && Legal(s, run)
    ensures Sound(End(s, run)) && AllSafe(s, run)
    decreases |run|
  {
    if run != [] {
      StepSound(s, run[0]);
      RunsSound(After(s, run[0]), run[1..]);
    }
  }

  // ---- What every run keeps, in the shop's own terms ------------------------

  /** After any run, what a variant has reserved is what the pending, confirmed
      and processing orders hold of it, and its stock plus what every order not
      cancelled holds is what was opened, adjusted, delivered and returned. */
  lemma StockAddsUp(run: seq<Timed>, v: VariantId)
    requires Legal(EMPTY, run) && v in End(EMPTY, run).variants
    ensures var s := End(EMPTY, run);
            && s.variants[v].reserved == Held(s.orders, v, RESERVING)
            && s.variants[v].stock + Held(s.orders, v, HOLDING) == Flow(s.ledger, v, SUPPLY)
            && 0 <= s.variants[v].stock && 0 <= s.variants[v].reserved
  {
    RunsSound(EMPTY, run);
    var s := End(EMPTY, run);
    assert Balanced(s.variants, s.orders, s.ledger, v);
    BooksNonNegative(s.variants, s.ledger);
  }

  const ALL: set<Kind> := {
    OPENING_BALANCE, MANUAL_ADJUSTMENT, PURCHASE_RECEIVED, RETURN_RECEIVED, RESERVATION_CREATED, RESERVATION_EXPIRED,
    RESERVATION_FULFILLED, RESERVATION_RESTORED, RESERVATION_REOPENED, ORDER_REOPENED, ORDER_CANCELLED, ORDER_DELETED}

  lemma {:induction false} FoldIs(ledger: seq<Movement>, n: nat, v: VariantId)
    requires n <= |ledger|
    requires forall i | 0 <= i < |RowsTo(ledger, n, v)| :: Follows(RowsTo(ledger, n, v), i)
    ensures BalanceAt(RowsTo(ledger, n, v), |RowsTo(ledger, n, v)|) == FlowTo(ledger, n, v, ALL)
  {
    if n != 0 {
      var rows, before := RowsTo(ledger, n, v), RowsTo(ledger, n - 1, v);
      forall i | 0 <= i < |before|
        ensures Follows(before, i)
      {
        assert Follows(rows, i);
      }
      FoldIs(ledger, n - 1, v);
      if ledger[n - 1].variant == Some(v) {
        assert Follows(rows, |before|);
      }
    }
  }

  /** After any run, the ledger's entries for a variant, taken in order, give
      every balance they show, end in the variant's own, and add up to its
      stock. */
  lemma LedgerReplays(run: seq<Timed>, v: VariantId)
    requires Legal(EMPTY, run) && v in End(EMPTY, run).variants
    ensures var s := End(EMPTY, run);
            Replays(Rows(s.ledger, v), s.variants[v]) && s.variants[v].stock == Flow(s.ledger, v, ALL)
  {
    RunsSound(EMPTY, run);
    var s := End(EMPTY, run);
    assert Replays(Rows(s.ledger, v), s.variants[v]);
    FoldIs(s.ledger, |s.ledger|, v);
  }

  /** After any run, a product shows the stock and thresholds of its active
      variants, the reserve of all of them, the lowest price among the active
      ones or else among all, and it has at least one. */
  lemma TotalsAgree(run: seq<Timed>, p: ProductId)
    requires Legal(EMPTY, run) && p in End(EMPTY, run).products
    ensures var s := End(EMPTY, run);
            var x, rows := s.products[p], Of(s.variants, p);
            && rows != map[]
            && x.stock == Sum(StockColumn(rows)) && x.threshold == Sum(ThresholdColumn(rows))
            && x.reserved == Sum(ReservedColumn(rows)) && IsPrice(rows, x.price)
  {
    RunsSound(EMPTY, run);
    var s := End(EMPTY, run);
    assert HasVariant(s.variants, p);
    var v :| v in s.variants && s.variants[v].product == p;
    assert v in Of(s.variants, p);
    assert s.products[p] == Totals(s.products[p], Of(s.variants, p));
  }

  lemma RefundsNonNegative(all: map<ReturnId, Return>, orders: map<OrderId, Order>, id: OrderId)
    requires ReturnsOk(all, orders)
    ensures 0 <= Refunds(all, id)
  {
    var column := RefundColumn(all, id);
    forall r | r in column
      ensures 0 <= column[r]
    {
      assert ReturnOk(all[r], orders);
    }
    SumAtLeast(column);
  }

  lemma RestockedWithin(all: map<ReturnId, Return>, orders: map<OrderId, Order>)
    requires ReturnsOk(all, orders)
    ensures forall r <- all :: forall line <- all[r].lines :: 0 <= line.restock <= line.quantity
  {
    forall r | r in all
      ensures forall line <- all[r].lines :: 0 <= line.restock <= line.quantity
    {
      assert ReturnOk(all[r], orders);
    }
  }

  /** After any run, no order line has more returned than was sold, nothing is
      restocked that was not returned, an order's total is what its items cost,
      and the refunds on it do not exceed that. */
  lemma ReturnsStayWithin(run: seq<Timed>, id: OrderId)
    requires Legal(EMPTY, run) && id in End(EMPTY, run).orders
    ensures var s := End(EMPTY, run);
            var o := s.orders[id];
            && (forall item | 0 <= item < |o.items| :: Returned(s.salesReturns, id, item) <= o.items[item].quantity)
            && 0 <= Refunds(s.salesReturns, id) <= o.total == Charge(o.items)
            && forall r <- s.salesReturns :: forall line <- s.salesReturns[r].lines ::
               0 <= line.restock <= line.quantity
  {
    RunsSound(EMPTY, run);
    var s := End(EMPTY, run);
    assert WithinOrder(s.salesReturns, s.orders, id) && OrderOk(s.orders[id]);
    RefundsNonNegative(s.salesReturns, s.orders, id);
    RestockedWithin(s.salesReturns, s.orders);
  }

  /** After any run, the goods the ledger shows as delivered are the quantities
      the purchases received, and those it shows as returned the quantities the
      received returns put back. */
  lemma DeliveriesAddUp(run: seq<Timed>, v: VariantId)
    requires Legal(EMPTY, run) && v in End(EMPTY, run).variants
    ensures var s := End(EMPTY, run);
            && Flow(s.ledger, v, {PURCHASE_RECEIVED}) == Bought(s.purchases, v)
            && Flow(s.ledger, v, {RETURN_RECEIVED}) == Restocked(s.salesReturns, v)
  {
    RunsSound(EMPTY, run);
    var s := End(EMPTY, run);
    assert Supplied(s.ledger, s.purchases, s.salesReturns, v);
  }

  /** After any run, a purchase has received no more of any line than was
      ordered; it is `received` exactly when all of it came, and an `ordered` one
      has received nothing. */
  lemma PurchasesInOrder(run: seq<Timed>, id: PurchaseId)
    requires Legal(EMPTY, run) && id in End(EMPTY, run).purchases
    ensures var p := End(EMPTY, run).purchases[id];
            && (forall line <- p.lines :: 0 <= line.received <= line.ordered)
            && (p.status == RECEIVED <==> forall line <- p.lines :: line.received == line.ordered)
            && (p.status == ORDERED ==> forall line <- p.lines :: line.received == 0)
            && (p.status == PARTIALLY_RECEIVED ==>
                  (exists line <- p.lines :: 0 < line.received)
                    && exists line <- p.lines :: line.received < line.ordered)
  {
    RunsSound(EMPTY, run);
    assert PurchaseOk(End(EMPTY, run).purchases[id]);
  }

  // ---- Undoing a change of status -------------------------------------------

  /** The shelves of two states differ only in what orders have taken. */
  ghost predicate Reshelved(s: Shop, t: Shop)
  {
    && t.variants.Keys == s.variants.Keys && t.products.Keys == s.products.Keys
    && (forall p <- s.products :: t.products[p].active == s.products[p].active)
    && (forall v <- s.variants ::
          t.variants[v] == s.variants[v].(stock := t.variants[v].stock, reserved := t.variants[v].reserved))
    && (forall v <- s.variants :: Flow(t.ledger, v, SUPPLY) == Flow(s.ledger, v, SUPPLY))
  }

  lemma MoveReshelves(s: Shop, lines: seq<Line>, kind: Kind, missing: Missing)
    requires kind !in SUPPLY && MoveAll(s, lines, kind, missing).Done?
    ensures Reshelved(s, MoveAll(s, lines, kind, missing).shop)
  {
    MoveAllAdvances(s, lines, kind, missing);
    forall v | v in s.variants
      ensures Flow(MoveAll(s, lines, kind, missing).shop.ledger, v, SUPPLY) == Flow(s.ledger, v, SUPPLY)
    {
      MoveAllFlows(s, lines, kind, missing, v, SUPPLY);
    }
  }

  lemma StatusReshelves(s: Shop, id: OrderId, status: Status)
    requires id in s.orders && StatusMoves(s, id, status).Done?
    ensures Reshelved(s, StatusMoves(s, id, status).shop)
  {
    var o := s.orders[id];
    if status == CANCELLED {
      MoveReshelves(s, ReleaseLines(o), ORDER_CANCELLED, SKIP);
    } else if o.status == CANCELLED {
      if status in RESERVING {
        MoveReshelves(s, Lines(o.items, MINUS, PLUS), RESERVATION_REOPENED, REFUSE);
      } else {
        MoveReshelves(s, Lines(o.items, MINUS, ZERO), ORDER_REOPENED, REFUSE);
      }
    } else if o.status in RESERVING && status in FULFILLED {
      MoveReshelves(s, Lines(o.items, ZERO, MINUS), RESERVATION_FULFILLED, SKIP);
    } else if o.status in FULFILLED && status in RESERVING {
      MoveReshelves(s, Lines(o.items, ZERO, PLUS), RESERVATION_RESTORED, SKIP);
    }
  }

  /** What `Update` does when the status is new and the request succeeds. */
  lemma Updated(s: Shop, id: OrderId, status: Status, now: int)
    requires Sound(s) && id in s.orders && status != s.orders[id].status && Update(s, id, Some(status), now).Done?
    ensures var t := Update(s, id, Some(status), now).shop;
            Sound(t) && Reshelved(s, t) && t.orders == s.orders[id := Changed(s.orders[id], status, now)]
  {
    StatusReshelves(s, id, status);
    if s.orders[id].status == CANCELLED {
      ReopenSound(s, id, status, now);
    } else {
      ChangeSound(s, id, status, now);
    }
  }

  /** The order's holdings alone decide the shelves. */
  lemma SameShelves(s: Shop, t: Shop)
    requires Sound(s) && Sound(t) && Reshelved(s, t)
    requires forall v <- s.variants :: Held(t.orders, v, RESERVING) == Held(s.orders, v, RESERVING)
    requires forall v <- s.variants :: Held(t.orders, v, HOLDING) == Held(s.orders, v, HOLDING)
    ensures t.variants == s.variants && t.products == s.products
  {
    forall v | v in s.variants
      ensures t.variants[v] == s.variants[v]
    {
      assert Balanced(s.variants, s.orders, s.ledger, v) && Balanced(t.variants, t.orders, t.ledger, v);
    }
    assert t.variants == s.variants;
    SameProducts(s, t);
  }

  lemma SameProducts(s: Shop, t: Shop)
    requires Stocked(s.variants, s.products) && Cached(s.variants, s.products) && Cached(t.variants, t.products)
    requires t.variants == s.variants && t.products.Keys == s.products.Keys
    requires forall p <- s.products :: t.products[p].active == s.products[p].active
    ensures t.products == s.products
  {
    forall p | p in s.products
      ensures t.products[p] == s.products[p]
    {
      assert HasVariant(s.variants, p);
      var v :| v in s.variants && s.variants[v].product == p;
      assert v in Of(s.variants, p);
      assert s.products[p] == Totals(s.products[p], Of(s.variants, p));
      assert t.products[p] == Totals(t.products[p], Of(t.variants, p));
    }
  }

  lemma SameShareSameHeld(orders: map<OrderId, Order>, id: OrderId, o: Order, v: VariantId, statuses: set<Status>)
    requires id in orders && o.items == orders[id].items && o.status == orders[id].status
    ensures Held(orders[id := o], v, statuses) == Held(orders, v, statuses)
  {
    HeldWith(orders, id, Some(o), v, statuses);
  }

  /** After a cancellation the shelf has what reopening would take. */
  lemma CanReopen(s: Shop, t: Shop, id: OrderId)
    requires Sound(s) && Sound(t) && Reshelved(s, t) && id in s.orders && s.orders[id].status != CANCELLED
    requires exists o :: t.orders == s.orders[id := o] && o.status == CANCELLED && o.items == s.orders[id].items
    ensures Enough(t, s.orders[id].items)
  {
    var o :| t.orders == s.orders[id := o] && o.status == CANCELLED && o.items == s.orders[id].items;
    BooksNonNegative(s.variants, s.ledger);
    forall v | v in t.variants
      ensures Quantity(s.orders[id].items, v) <= t.variants[v].stock
    {
      assert Balanced(s.variants, s.orders, s.ledger, v) && Balanced(t.variants, t.orders, t.ledger, v);
      HeldWith(s.orders, id, Some(o), v, HOLDING);
    }
  }

  /** If only an order's deadline differs, the shelves do not. */
  lemma OnlyDeadline(s: Shop, u: Shop, id: OrderId, o: Order)
    requires Sound(s) && Sound(u) && Reshelved(s, u) && id in s.orders && u.orders == s.orders[id := o]
    requires o.items == s.orders[id].items && o.status == s.orders[id].status
    ensures u.variants == s.variants && u.products == s.products
  {
    forall v | v in s.variants
      ensures Held(u.orders, v, RESERVING) == Held(s.orders, v, RESERVING)
              && Held(u.orders, v, HOLDING) == Held(s.orders, v, HOLDING)
    {
      SameShareSameHeld(s.orders, id, o, v, RESERVING);
      SameShareSameHeld(s.orders, id, o, v, HOLDING);
    }
    SameShelves(s, u);
  }

  /** Any change of status that goes through can be undone, and undoing it puts
      every variant and every product back exactly as they were. */
  lemma ThereAndBack(s: Shop, id: OrderId, status: Status, now: int, later: int)
    requires Sound(s) && id in s.orders && status != s.orders[id].status && Update(s, id, Some(status), now).Done?
    ensures var t := Update(s, id, Some(status), now).shop;
            var back := Update(t, id, Some(s.orders[id].status), later);
            && back.Done? && back.shop.variants == s.variants && back.shop.products == s.products
            && back.shop.orders[id].status == s.orders[id].status && back.shop.orders[id].items == s.orders[id].items
  {
    var o := s.orders[id];
    var t := Update(s, id, Some(status), now).shop;
    Updated(s, id, status, now);
    if status == CANCELLED {
      CanReopen(s, t, id);
      ReopenSound(t, id, o.status, later);
    } else {
      ChangeSound(t, id, o.status, later);
    }
    var u := Update(t, id, Some(o.status), later).shop;
    Updated(t, id, o.status, later);
    var o' := Changed(Changed(o, status, now), o.status, later);
    assert u.orders == s.orders[id := o'];
    OnlyDeadline(s, u, id, o');
  }

}
