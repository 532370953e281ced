/** What holds in every state of the shop, and the lemmas that carry it over the
    two ways stock moves: between the shelf and an order, and in or out of the
    shop. */
module Invariants {
  import opened Wrappers
  import opened Lifecycle
  import opened Sums
  import opened Inventory

  // ---- Sums over orders, purchases and returns ------------------------------

  ghost function Share(o: Order, v: VariantId, statuses: set<Status>): int {
    if o.status in statuses then Quantity(o.items, v) else 0
  }

  ghost function HeldColumn(orders: map<OrderId, Order>, v: VariantId, statuses: set<Status>): map<nat, int> {
    map id <- orders :: Share(orders[id], v, statuses)
  }

  /** What the orders in some statuses hold of a variant. */
  ghost function Held(orders: map<OrderId, Order>, v: VariantId, statuses: set<Status>): int {
    Sum(HeldColumn(orders, v, statuses))
  }

  /** The order table with one row written, or deleted for None. */
  ghost function WithOrder(orders: map<OrderId, Order>, id: OrderId, o: Option<Order>): map<OrderId, Order> {
    if o.Some? then orders[id := o.value] else orders - {id}
  }

  ghost function Found(orders: map<OrderId, Order>, id: OrderId): Option<Order> {
    if id in orders then Some(orders[id]) else None
  }

  ghost function ShareOf(o: Option<Order>, v: VariantId, statuses: set<Status>): int {
    if o.Some? then Share(o.value, v, statuses) else 0
  }

  lemma HeldWith(orders: map<OrderId, Order>, id: OrderId, o: Option<Order>, v: VariantId, statuses: set<Status>)
    ensures Held(WithOrder(orders, id, o), v, statuses)
         == Held(orders, v, statuses) - ShareOf(Found(orders, id), v, statuses) + ShareOf(o, v, statuses)
  {
    var column := HeldColumn(orders, v, statuses);
    if o.Some? {
      assert HeldColumn(orders[id := o.value], v, statuses) == column[id := Share(o.value, v, statuses)];
      SumPut(column, id, Share(o.value, v, statuses));
    } else {
      assert HeldColumn(orders - {id}, v, statuses) == column - {id};
      if id in orders {
        SumPick(column, id);
      } else {
        assert column - {id} == column;
      }
    }
  }

  lemma HeldAtLeast(orders: map<OrderId, Order>, id: OrderId, v: VariantId, statuses: set<Status>)
    requires id in orders && OrdersOk(orders)
    ensures 0 <= Share(orders[id], v, statuses) <= Held(orders, v, statuses)
  {
    var column := HeldColumn(orders, v, statuses);
    forall k | k in column
      ensures 0 <= column[k]
    {
      assert OrderOk(orders[k]);
      QuantityNonNegative(orders[k].items, |orders[k].items|, v);
    }
    SumAtLeast(column);
    assert column[id] == Share(orders[id], v, statuses);
  }

  ghost function LinesReceivedTo(lines: seq<PurchaseLine>, n: nat, v: VariantId): int
    requires n <= |lines|
  {
    if n == 0 then 0
    else LinesReceivedTo(lines, n - 1, v) + if lines[n - 1].variant == v then lines[n - 1].received else 0
  }

  ghost function LinesReceived(lines: seq<PurchaseLine>, v: VariantId): int {
    LinesReceivedTo(lines, |lines|, v)
  }

  ghost function BoughtColumn(purchases: map<PurchaseId, Purchase>, v: VariantId): map<nat, int> {
    map id <- purchases :: LinesReceived(purchases[id].lines, v)
  }

  /** What purchase orders have brought in of a variant. */
  ghost function Bought(purchases: map<PurchaseId, Purchase>, v: VariantId): int {
    Sum(BoughtColumn(purchases, v))
  }

  lemma BoughtPut(purchases: map<PurchaseId, Purchase>, id: PurchaseId, p: Purchase, v: VariantId)
    ensures Bought(purchases[id := p], v)
         == Bought(purchases, v) - (if id in purchases then LinesReceived(purchases[id].lines, v) else 0)
            + LinesReceived(p.lines, v)
  {
    var column, x := BoughtColumn(purchases, v), LinesReceived(p.lines, v);
    assert BoughtColumn(purchases[id := p], v) == column[id := x];
    SumPut(column, id, x);
  }

  ghost function LinesRestockedTo(lines: seq<ReturnLine>, n: nat, v: VariantId): int
    requires n <= |lines|
  {
    if n == 0 then 0
    else LinesRestockedTo(lines, n - 1, v) + if lines[n - 1].variant == v then lines[n - 1].restock else 0
  }

  ghost function LinesRestocked(lines: seq<ReturnLine>, v: VariantId): int {
    LinesRestockedTo(lines, |lines|, v)
  }

  ghost function ReturnRestocked(r: Return, v: VariantId): int {
    if r.received then LinesRestocked(r.lines, v) else 0
  }

  ghost function RestockedColumn(all: map<ReturnId, Return>, v: VariantId): map<nat, int> {
    map id <- all :: ReturnRestocked(all[id], v)
  }

  /** What received returns have put back on the shelf. */
  ghost function Restocked(all: map<ReturnId, Return>, v: VariantId): int {
    Sum(RestockedColumn(all, v))
  }

  lemma RestockedPut(all: map<ReturnId, Return>, id: ReturnId, r: Return, v: VariantId)
    ensures Restocked(all[id := r], v)
         == Restocked(all, v) - (if id in all then ReturnRestocked(all[id], v) else 0) + ReturnRestocked(r, v)
  {
    var column, x := RestockedColumn(all, v), ReturnRestocked(r, v);
    assert RestockedColumn(all[id := r], v) == column[id := x];
    SumPut(column, id, x);
  }

  ghost function LinesReturnedTo(lines: seq<ReturnLine>, n: nat, item: nat): int
    requires n <= |lines|
  {
    if n == 0 then 0
    else LinesReturnedTo(lines, n - 1, item) + if lines[n - 1].item == item then lines[n - 1].quantity else 0
  }

  ghost function LinesReturned(lines: seq<ReturnLine>, item: nat): int {
    LinesReturnedTo(lines, |lines|, item)
  }

  ghost function ReturnedBy(r: Return, order: OrderId, item: nat): int {
    if r.order == order then LinesReturned(r.lines, item) else 0
  }

  ghost function ReturnedColumn(all: map<ReturnId, Return>, order: OrderId, item: nat): map<nat, int> {
    map id <- all :: ReturnedBy(all[id], order, item)
  }

  /** How much of an order's line has been returned. */
  ghost function Returned(all: map<ReturnId, Return>, order: OrderId, item: nat): int {
    Sum(ReturnedColumn(all, order, item))
  }

  lemma ReturnedPut(all: map<ReturnId, Return>, id: ReturnId, r: Return, order: OrderId, item: nat)
    ensures Returned(all[id := r], order, item)
         == Returned(all, order, item) - (if id in all then ReturnedBy(all[id], order, item) else 0)
            + ReturnedBy(r, order, item)
  {
    var column, x := ReturnedColumn(all, order, item), ReturnedBy(r, order, item);
    assert ReturnedColumn(all[id := r], order, item) == column[id := x];
    SumPut(column, id, x);
  }

  ghost function RefundBy(r: Return, order: OrderId): int {
    if r.order == order && r.refunded then r.refund else 0
  }

  ghost function RefundColumn(all: map<ReturnId, Return>, order: OrderId): map<nat, int> {
    map id <- all :: RefundBy(all[id], order)
  }

  /** What has been refunded on an order. */
  ghost function Refunds(all: map<ReturnId, Return>, order: OrderId): int {
    Sum(RefundColumn(all, order))
  }

  lemma RefundsPut(all: map<ReturnId, Return>, id: ReturnId, r: Return, order: OrderId)
    ensures Refunds(all[id := r], order)
         == Refunds(all, order) - (if id in all then RefundBy(all[id], order) else 0) + RefundBy(r, order)
  {
    var column, x := RefundColumn(all, order), RefundBy(r, order);
    assert RefundColumn(all[id := r], order) == column[id := x];
    SumPut(column, id, x);
  }

  // ---- The invariant --------------------------------------------------------

  /** An order costs what its items cost, none of them less than nothing. */
  ghost predicate OrderOk(o: Order)
  {
    (forall item <- o.items :: 0 < item.quantity && 0 <= item.unitPrice) && o.total == Charge(o.items)
  }

  lemma TotalNonNegative(o: Order)
    requires OrderOk(o)
    ensures 0 <= o.total
  {
    ChargeNonNegative(o.items, |o.items|);
  }

  ghost predicate OrdersOk(orders: map<OrderId, Order>)
  {
    forall id <- orders {:trigger OrderOk(orders[id])} :: OrderOk(orders[id])
  }

  ghost predicate AllReceived(p: Purchase)
  {
    forall line <- p.lines :: line.received == line.ordered
  }

  ghost predicate NoneReceived(p: Purchase)
  {
    forall line <- p.lines :: line.received == 0
  }

  /** A purchase never receives more than was ordered, is `received` exactly when
      everything came, and until something came is a draft, ordered or
      cancelled. */
  ghost predicate PurchaseOk(p: Purchase)
  {
    && p.lines != []
    && (forall line <- p.lines :: 0 <= line.received <= line.ordered && 0 < line.ordered)
    && (p.status == RECEIVED <==> AllReceived(p))
    && (p.status in {DRAFT, ORDERED, PURCHASE_CANCELLED} <==> NoneReceived(p))
  }

  ghost predicate PurchasesOk(purchases: map<PurchaseId, Purchase>)
  {
    forall id <- purchases {:trigger PurchaseOk(purchases[id])} :: PurchaseOk(purchases[id])
  }

  ghost predicate ReturnLineOk(line: ReturnLine, items: seq<Item>)
  {
    && line.item < |items| && line.variant == items[line.item].variant
    && 0 < line.quantity && 0 <= line.restock <= line.quantity
  }

  ghost predicate ReturnOk(r: Return, orders: map<OrderId, Order>)
  {
    && r.order in orders
    && (forall line <- r.lines :: ReturnLineOk(line, orders[r.order].items))
    && 0 <= r.refund
    && r.status == if r.refunded then REFUNDED else if r.received then RETURNED else REQUESTED
  }

  /** No more is returned than was sold, and no more is refunded than was
      charged. */
  ghost predicate WithinOrder(all: map<ReturnId, Return>, orders: map<OrderId, Order>, id: OrderId)
    requires id in orders
  {
    && (forall item | 0 <= item < |orders[id].items| :: Returned(all, id, item) <= orders[id].items[item].quantity)
    && Refunds(all, id) <= orders[id].total
  }

  ghost predicate ReturnsOk(all: map<ReturnId, Return>, orders: map<OrderId, Order>)
  {
    && (forall id <- all {:trigger ReturnOk(all[id], orders)} :: ReturnOk(all[id], orders))
    && (forall id <- orders {:trigger WithinOrder(all, orders, id)} :: WithinOrder(all, orders, id))
  }

  ghost predicate HasVariant(variants: map<VariantId, Variant>, p: ProductId)
  {
    exists v <- variants :: variants[v].product == p
  }

  /** Every variant has its product and no negative price, and every product
      keeps at least one. */
  ghost predicate Stocked(variants: map<VariantId, Variant>, products: map<ProductId, Product>)
  {
    && (forall v <- variants :: variants[v].product in products && 0 <= variants[v].price)
    && (forall p <- products {:trigger HasVariant(variants, p)} :: HasVariant(variants, p))
  }

  ghost predicate ItemsKnown(items: seq<Item>, known: set<VariantId>)
  {
    forall item <- items :: item.variant in known
  }

  ghost predicate OrdersKnown(orders: map<OrderId, Order>, known: set<VariantId>)
  {
    forall id <- orders {:trigger ItemsKnown(orders[id].items, known)} :: ItemsKnown(orders[id].items, known)
  }

  ghost predicate LinesKnown(lines: seq<PurchaseLine>, known: set<VariantId>)
  {
    forall line <- lines :: line.variant in known
  }

  ghost predicate PurchasesKnown(purchases: map<PurchaseId, Purchase>, known: set<VariantId>)
  {
    forall id <- purchases {:trigger LinesKnown(purchases[id].lines, known)} :: LinesKnown(purchases[id].lines, known)
  }

  /** What is reserved is what open orders hold, and what is on the shelf plus
      what orders hold is what was brought in. */
  ghost predicate Balanced(variants: map<VariantId, Variant>, orders: map<OrderId, Order>, ledger: seq<Movement>,
                           v: VariantId)
    requires v in variants
  {
    && variants[v].reserved == Held(orders, v, RESERVING)
    && variants[v].stock + Held(orders, v, HOLDING) == Flow(ledger, v, SUPPLY)
  }

  /** The ledger's deliveries are what purchases received and returns put back. */
  ghost predicate Supplied(ledger: seq<Movement>, purchases: map<PurchaseId, Purchase>, all: map<ReturnId, Return>,
                           v: VariantId)
  {
    && Flow(ledger, v, {PURCHASE_RECEIVED}) == Bought(purchases, v)
    && Flow(ledger, v, {RETURN_RECEIVED}) == Restocked(all, v)
  }

  /** Stock, reserve and ledger agree for every variant. */
  ghost predicate AllBalanced(s: Shop)
  {
    && (forall v <- s.variants {:trigger Balanced(s.variants, s.orders, s.ledger, v)} ::
          Balanced(s.variants, s.orders, s.ledger, v))
    && (forall v <- s.variants {:trigger Supplied(s.ledger, s.purchases, s.salesReturns, v)} ::
          Supplied(s.ledger, s.purchases, s.salesReturns, v))
  }

  /** Everything but the caches. */
  ghost predicate Core(s: Shop)
  {
    && Stocked(s.variants, s.products)
    && OrdersKnown(s.orders, s.variants.Keys)
    && PurchasesKnown(s.purchases, s.variants.Keys)
    && Books(s.variants, s.ledger)
    && AllBalanced(s)
    && OrdersOk(s.orders)
    && PurchasesOk(s.purchases)
    && ReturnsOk(s.salesReturns, s.orders)
  }

  ghost predicate Sound(s: Shop)
  {
    Core(s) && Cached(s.variants, s.products)
  }

  // ---- Between the shelf and an order ---------------------------------------

  /** Lines that move exactly what an order holds after a step and did not hold
      before. */
  ghost predicate MovesOrder(lines: seq<Line>, before: Option<Order>, after: Option<Order>, v: VariantId)
  {
    && Available(lines, v) == ShareOf(before, v, HOLDING) - ShareOf(after, v, HOLDING)
    && Reserving(lines, v) == ShareOf(after, v, RESERVING) - ShareOf(before, v, RESERVING)
  }

  lemma OrderBalanced(s: Shop, lines: seq<Line>, kind: Kind, t: Shop, id: OrderId, after: Option<Order>, v: VariantId)
    requires v in s.variants && Balanced(s.variants, s.orders, s.ledger, v)
    requires Advances(s, lines, t) && Flows(s.ledger, t.ledger, Available(lines, v), kind, v, SUPPLY) && kind !in SUPPLY
    requires MovesOrder(lines, Found(s.orders, id), after, v)
    ensures Balanced(t.variants, WithOrder(s.orders, id, after), t.ledger, v)
  {
    HeldWith(s.orders, id, after, v, RESERVING);
    HeldWith(s.orders, id, after, v, HOLDING);
  }

  /** An order keeps its lines and its total for as long as it lives. */
  ghost predicate SameSale(orders: map<OrderId, Order>, id: OrderId, after: Option<Order>)
  {
    && (id in orders && after.Some? ==> after.value.items == orders[id].items && after.value.total == orders[id].total)
  }

  lemma {:induction false} OrderReturnsOk(all: map<ReturnId, Return>, orders: map<OrderId, Order>, id: OrderId,
                                          after: Option<Order>)
    requires ReturnsOk(all, orders) && SameSale(orders, id, after)
    requires after.Some? ==> OrderOk(after.value)
    requires after.None? || id !in orders ==> forall r <- all :: all[r].order != id
    ensures ReturnsOk(all, WithOrder(orders, id, after))
  {
    var orders' := WithOrder(orders, id, after);
    forall r | r in all
      ensures ReturnOk(all[r], orders')
    {
      assert ReturnOk(all[r], orders);
    }
    forall k | k in orders'
      ensures WithinOrder(all, orders', k)
    {
      if k in orders {
        assert WithinOrder(all, orders, k);
      } else {
        forall item | 0 <= item < |orders'[k].items|
          ensures Returned(all, k, item) <= orders'[k].items[item].quantity
        {
          SumZero(ReturnedColumn(all, k, item));
          assert orders'[k].items[item] in orders'[k].items;
        }
        SumZero(RefundColumn(all, k));
        TotalNonNegative(orders'[k]);
      }
    }
  }

  lemma OrderMovedAt(s: Shop, lines: seq<Line>, kind: Kind, missing: Missing, id: OrderId, after: Option<Order>,
                     v: VariantId)
    requires MoveAll(s, lines, kind, missing).Done? && kind !in SUPPLY && v in s.variants
    requires Balanced(s.variants, s.orders, s.ledger, v) && Supplied(s.ledger, s.purchases, s.salesReturns, v)
    requires MovesOrder(lines, Found(s.orders, id), after, v)
    ensures var t := MoveAll(s, lines, kind, missing).shop;
            && v in t.variants
            && Balanced(t.variants, WithOrder(s.orders, id, after), t.ledger, v)
            && Supplied(t.ledger, s.purchases, s.salesReturns, v)
  {
    MoveAllAdvances(s, lines, kind, missing);
    MoveAllFlows(s, lines, kind, missing, v, SUPPLY);
    MoveAllFlows(s, lines, kind, missing, v, {PURCHASE_RECEIVED});
    MoveAllFlows(s, lines, kind, missing, v, {RETURN_RECEIVED});
    OrderBalanced(s, lines, kind, MoveAll(s, lines, kind, missing).shop, id, after, v);
  }

  lemma StillStocked(s: Shop, lines: seq<Line>, t: Shop)
    requires Stocked(s.variants, s.products) && Advances(s, lines, t)
    ensures Stocked(t.variants, t.products)
  {
    forall p | p in t.products
      ensures HasVariant(t.variants, p)
    {
      assert HasVariant(s.variants, p);
      var v :| v in s.variants && s.variants[v].product == p;
      assert t.variants[v] == Shifted(s.variants[v], lines, |lines|, v);
    }
    forall v | v in t.variants
      ensures t.variants[v].product in t.products && 0 <= t.variants[v].price
    {
      assert t.variants[v] == Shifted(s.variants[v], lines, |lines|, v);
    }
  }

  /** Any step that moves an order's lines to match its new status, creates it
      or deletes it keeps the shop sound. */
  lemma OrderMoved(s: Shop, lines: seq<Line>, kind: Kind, missing: Missing, id: OrderId, after: Option<Order>)
    requires Sound(s) && MoveAll(s, lines, kind, missing).Done? && kind !in SUPPLY
    requires forall line <- lines :: ReservedMoves(kind, line.available, line.reserved)
    requires forall v <- s.variants :: MovesOrder(lines, Found(s.orders, id), after, v)
    requires SameSale(s.orders, id, after)
    requires after.Some? ==> OrderOk(after.value) && ItemsKnown(after.value.items, s.variants.Keys)
    requires after.None? || id !in s.orders ==> forall r <- s.salesReturns :: s.salesReturns[r].order != id
    ensures Sound(MoveAll(s, lines, kind, missing).shop.(orders := WithOrder(s.orders, id, after)))
  {
    var t := MoveAll(s, lines, kind, missing).shop;
    var orders := WithOrder(s.orders, id, after);
    MoveAllAdvances(s, lines, kind, missing);
    MoveAllBooks(s, lines, kind, missing);
    MoveAllCached(s, lines, kind, missing);
    StillStocked(s, lines, t);
    OrderReturnsOk(s.salesReturns, s.orders, id, after);
    assert OrdersKnown(orders, t.variants.Keys);
    assert OrdersOk(orders);
    OrderBalances(s, lines, kind, missing, id, after);
  }

  lemma OrderBalances(s: Shop, lines: seq<Line>, kind: Kind, missing: Missing, id: OrderId, after: Option<Order>)
    requires AllBalanced(s) && MoveAll(s, lines, kind, missing).Done? && kind !in SUPPLY
    requires forall v <- s.variants :: MovesOrder(lines, Found(s.orders, id), after, v)
    ensures AllBalanced(MoveAll(s, lines, kind, missing).shop.(orders := WithOrder(s.orders, id, after)))
  {
    MoveAllAdvances(s, lines, kind, missing);
    var t := MoveAll(s, lines, kind, missing).shop.(orders := WithOrder(s.orders, id, after));
    forall v | v in t.variants
      ensures Balanced(t.variants, t.orders, t.ledger, v) && Supplied(t.ledger, t.purchases, t.salesReturns, v)
    {
      OrderMovedAt(s, lines, kind, missing, id, after, v);
    }
  }

  // ---- In or out of the shop ------------------------------------------------

  lemma SupplyMovedAt(s: Shop, lines: seq<Line>, kind: Kind, missing: Missing,
                      purchases: map<PurchaseId, Purchase>, all: map<ReturnId, Return>, v: VariantId)
    requires MoveAll(s, lines, kind, missing).Done? && kind in SUPPLY && v in s.variants
    requires Balanced(s.variants, s.orders, s.ledger, v) && Supplied(s.ledger, s.purchases, s.salesReturns, v)
    requires forall line <- lines :: line.reserved == 0
    requires Bought(purchases, v)
          == Bought(s.purchases, v) + if kind == PURCHASE_RECEIVED then Available(lines, v) else 0
    requires Restocked(all, v)
          == Restocked(s.salesReturns, v) + if kind == RETURN_RECEIVED then Available(lines, v) else 0
    ensures var t := MoveAll(s, lines, kind, missing).shop;
            && v in t.variants
            && Balanced(t.variants, s.orders, t.ledger, v)
            && Supplied(t.ledger, purchases, all, v)
  {
    MoveAllAdvances(s, lines, kind, missing);
    MoveAllFlows(s, lines, kind, missing, v, SUPPLY);
    MoveAllFlows(s, lines, kind, missing, v, {PURCHASE_RECEIVED});
    MoveAllFlows(s, lines, kind, missing, v, {RETURN_RECEIVED});
    OneWaySums(lines, 0, |lines|, v);
  }

  lemma SupplyBalances(s: Shop, lines: seq<Line>, kind: Kind, missing: Missing,
                       purchases: map<PurchaseId, Purchase>, all: map<ReturnId, Return>)
    requires AllBalanced(s) && MoveAll(s, lines, kind, missing).Done? && kind in SUPPLY
    requires forall line <- lines :: line.reserved == 0
    requires forall v <- s.variants ::
               Bought(purchases, v)
               == Bought(s.purchases, v) + if kind == PURCHASE_RECEIVED then Available(lines, v) else 0
    requires forall v <- s.variants ::
               Restocked(all, v)
               == Restocked(s.salesReturns, v) + if kind == RETURN_RECEIVED then Available(lines, v) else 0
    ensures AllBalanced(MoveAll(s, lines, kind, missing).shop.(purchases := purchases, salesReturns := all))
  {
    MoveAllAdvances(s, lines, kind, missing);
    var t := MoveAll(s, lines, kind, missing).shop.(purchases := purchases, salesReturns := all);
    forall v | v in t.variants
      ensures Balanced(t.variants, t.orders, t.ledger, v) && Supplied(t.ledger, t.purchases, t.salesReturns, v)
    {
      SupplyMovedAt(s, lines, kind, missing, purchases, all, v);
    }
  }

  /** Any step that moves lines of a supply kind, and records what it delivered
      with the purchase or the return it belongs to, keeps the shop sound. */
  lemma SupplyCore(s: Shop, lines: seq<Line>, kind: Kind, missing: Missing,
                   purchases: map<PurchaseId, Purchase>, all: map<ReturnId, Return>)
    requires Core(s) && MoveAll(s, lines, kind, missing).Done? && kind in SUPPLY
    requires forall line <- lines :: line.reserved == 0
    requires PurchasesOk(purchases) && ReturnsOk(all, s.orders) && PurchasesKnown(purchases, s.variants.Keys)
    requires forall v <- s.variants ::
               Bought(purchases, v)
               == Bought(s.purchases, v) + if kind == PURCHASE_RECEIVED then Available(lines, v) else 0
    requires forall v <- s.variants ::
               Restocked(all, v)
               == Restocked(s.salesReturns, v) + if kind == RETURN_RECEIVED then Available(lines, v) else 0
    ensures Core(MoveAll(s, lines, kind, missing).shop.(purchases := purchases, salesReturns := all))
  {
    var t := MoveAll(s, lines, kind, missing).shop;
    MoveAllAdvances(s, lines, kind, missing);
    forall line | line in lines
      ensures ReservedMoves(kind, line.available, line.reserved)
    {
    }
    MoveAllBooks(s, lines, kind, missing);
    StillStocked(s, lines, t);
    SupplyBalances(s, lines, kind, missing, purchases, all);
  }

  lemma SupplyMoved(s: Shop, lines: seq<Line>, kind: Kind, missing: Missing,
                    purchases: map<PurchaseId, Purchase>, all: map<ReturnId, Return>)
    requires Sound(s) && MoveAll(s, lines, kind, missing).Done? && kind in SUPPLY
    requires forall line <- lines :: line.reserved == 0
    requires PurchasesOk(purchases) && ReturnsOk(all, s.orders) && PurchasesKnown(purchases, s.variants.Keys)
    requires forall v <- s.variants ::
               Bought(purchases, v)
               == Bought(s.purchases, v) + if kind == PURCHASE_RECEIVED then Available(lines, v) else 0
    requires forall v <- s.variants ::
               Restocked(all, v)
               == Restocked(s.salesReturns, v) + if kind == RETURN_RECEIVED then Available(lines, v) else 0
    ensures Sound(MoveAll(s, lines, kind, missing).shop.(purchases := purchases, salesReturns := all))
  {
    SupplyCore(s, lines, kind, missing, purchases, all);
    MoveAllCached(s, lines, kind, missing);
  }

  /** An opening balance or an adjustment belongs to no record. */
  lemma FreelyMoved(s: Shop, lines: seq<Line>, kind: Kind, missing: Missing)
    requires Core(s) && MoveAll(s, lines, kind, missing).Done? && kind in {OPENING_BALANCE, MANUAL_ADJUSTMENT}
    requires forall line <- lines :: line.reserved == 0
    ensures Core(MoveAll(s, lines, kind, missing).shop)
  {
    SupplyCore(s, lines, kind, missing, s.purchases, s.salesReturns);
    MoveAllAdvances(s, lines, kind, missing);
  }
}
