/** Placing an order, changing its status, deleting it, and letting abandoned
    reservations expire: what each request does to the shop, and what no request
    can break. */
module Orders {
  import opened Wrappers
  import opened Lifecycle
  import opened Listings
  import opened Sums
  import opened Inventory
  import opened Invariants

  // ---- Releasing ------------------------------------------------------------

  ghost function ReleaseLines(o: Order): seq<Line> {
    Lines(o.items, PLUS, if o.status in RESERVING then MINUS else ZERO)
  }

  /** `release_order_stock`: the order's lines go back to the shelf. */
  ghost function Release(s: Shop, id: OrderId, kind: Kind): Outcome
    requires id in s.orders
  {
    var o := s.orders[id];
    var moved := MoveAll(s, ReleaseLines(o), kind, SKIP);
    if moved.Refused? then moved
    else Done(moved.shop.(orders := s.orders[id := o.(deadline := None)]))
  }

  /** What a release counts. */
  function Units(items: seq<Item>, n: nat, known: set<VariantId>): int
    requires n <= |items|
  {
    if n == 0 then 0
    else Units(items, n - 1, known) + if items[n - 1].variant in known then items[n - 1].quantity else 0
  }

  function UnitsOf(s: Shop, id: OrderId): int {
    if id in s.orders then Units(s.orders[id].items, |s.orders[id].items|, s.variants.Keys) else 0
  }

  /** What releasing the first `n` orders counts. */
  function UnitsFirst(s: Shop, ids: seq<OrderId>, n: nat): int
    requires n <= |ids|
  {
    if n == 0 then 0 else UnitsFirst(s, ids, n - 1) + UnitsOf(s, ids[n - 1])
  }

  ghost function SetOrder(out: Outcome, id: OrderId, o: Order): Outcome {
    if out.Refused? then out else Done(out.shop.(orders := out.shop.orders[id := o]))
  }

  predicate Expired(o: Order, now: int) {
    o.status == PENDING && o.unpaid && o.deadline.Some? && o.deadline.value <= now
  }

  /** The reservations to release. */
  ghost function ExpiredAt(orders: map<OrderId, Order>, now: int): set<OrderId> {
    set id <- orders | Expired(orders[id], now)
  }

  function ExpiredIn(o: Order, expired: bool): Order {
    if expired then o.(status := CANCELLED, deadline := None) else o
  }

  ghost function ExpireOne(s: Shop, id: OrderId): Outcome
    requires id in s.orders
  {
    SetOrder(Release(s, id, RESERVATION_EXPIRED), id, s.orders[id].(status := CANCELLED, deadline := None))
  }

  ghost function ExpireFirst(s: Shop, ids: seq<OrderId>, n: nat): Outcome
    requires n <= |ids|
  {
    if n == 0 then Done(s)
    else
      var before := ExpireFirst(s, ids, n - 1);
      if before.Refused? then before
      else if ids[n - 1] in before.shop.orders then ExpireOne(before.shop, ids[n - 1])
      else Refused(NOT_FOUND)
  }

  /** `release_expired_reservations` */
  ghost function ExpireAll(s: Shop, ids: seq<OrderId>): Outcome {
    ExpireFirst(s, ids, |ids|)
  }

  // ---- Placing --------------------------------------------------------------

  datatype Request = Request(product: ProductId, variant: Option<VariantId>, quantity: int)

  datatype Choice = Chosen(variant: VariantId) | Rejected(error: Error)

  ghost function ActiveOf(variants: map<VariantId, Variant>, p: ProductId): set<VariantId> {
    set v <- variants | variants[v].product == p && variants[v].active
  }

  /** The variant a requested line means. */
  ghost function Resolve(s: Shop, r: Request): Choice {
    if r.product !in s.products then Rejected(NOT_FOUND)
    else if !s.products[r.product].active then Rejected(BAD_REQUEST)
    else if r.variant.None? then
      if v :| ActiveOf(s.variants, r.product) == {v} then Chosen(v) else Rejected(BAD_REQUEST)
    else
      var v := r.variant.value;
      if v !in s.variants || s.variants[v].product != r.product then Rejected(NOT_FOUND)
      else if !s.variants[v].active then Rejected(BAD_REQUEST)
      else Chosen(v)
  }

  datatype Merge = Merged(quantities: map<VariantId, int>) | Failed(error: Error)

  function Plus(quantities: map<VariantId, int>, v: VariantId, n: int): map<VariantId, int> {
    quantities[v := (if v in quantities then quantities[v] else 0) + n]
  }

  ghost function MergeFirst(s: Shop, requests: seq<Request>, n: nat): (m: Merge)
    requires n <= |requests|
    ensures m.Merged? ==> m.quantities.Keys <= s.variants.Keys
  {
    if n == 0 then Merged(map[])
    else
      var before := MergeFirst(s, requests, n - 1);
      if before.Failed? then before
      else match Resolve(s, requests[n - 1])
           case Rejected(e) => Failed(e)
           case Chosen(v) => Merged(Plus(before.quantities, v, requests[n - 1].quantity))
  }

  /** Lines for the same variant become one. */
  ghost function MergeAll(s: Shop, requests: seq<Request>): (m: Merge)
    ensures m.Merged? ==> m.quantities.Keys <= s.variants.Keys
  {
    MergeFirst(s, requests, |requests|)
  }

  ghost function AskedTo(s: Shop, requests: seq<Request>, n: nat, v: VariantId): int
    requires n <= |requests|
  {
    if n == 0 then 0
    else
      AskedTo(s, requests, n - 1, v) + if Resolve(s, requests[n - 1]) == Chosen(v) then requests[n - 1].quantity else 0
  }

  /** What was asked of one variant in all. */
  ghost function Asked(s: Shop, requests: seq<Request>, v: VariantId): int {
    AskedTo(s, requests, |requests|, v)
  }

  lemma {:induction false} MergedIsAsked(s: Shop, requests: seq<Request>, n: nat, v: VariantId)
    requires n <= |requests| && MergeFirst(s, requests, n).Merged?
    ensures var q := MergeFirst(s, requests, n).quantities; AskedTo(s, requests, n, v) == if v in q then q[v] else 0
    ensures (forall r <- requests :: 0 < r.quantity) ==>
              forall w <- MergeFirst(s, requests, n).quantities :: 0 < MergeFirst(s, requests, n).quantities[w]
  {
    if n != 0 {
      MergedIsAsked(s, requests, n - 1, v);
      assert requests[n - 1] in requests;
    }
  }

  ghost predicate IsLeast(least: nat, keys: set<nat>)
  {
    least in keys && forall k <- keys :: least <= k
  }

  lemma {:induction false} LeastExists(keys: set<nat>)
    requires keys != {}
    ensures exists least :: IsLeast(least, keys)
    decreases |keys|
  {
    var k :| k in keys;
    if keys == {k} {
      assert IsLeast(k, keys);
    } else {
      LeastExists(keys - {k});
      var other :| IsLeast(other, keys - {k});
      assert forall j <- keys :: j == k || j in keys - {k};
      assert IsLeast(if k < other then k else other, keys);
    }
  }

  ghost function Least(keys: set<nat>): (least: nat)
    requires keys != {}
    ensures IsLeast(least, keys)
  {
    LeastExists(keys);
    var least :| IsLeast(least, keys);
    least
  }

  ghost function Sorted(keys: set<nat>): seq<nat> {
    if keys == {} then [] else [Least(keys)] + Sorted(keys - {Least(keys)})
  }

  lemma {:induction false} SortedIs(keys: set<nat>)
    ensures forall k :: k in Sorted(keys) <==> k in keys
    ensures forall i, j | 0 <= i < j < |Sorted(keys)| :: Sorted(keys)[i] < Sorted(keys)[j]
    decreases keys
  {
    if keys != {} {
      var least := Least(keys);
      var rest := Sorted(keys - {least});
      SortedIs(keys - {least});
      forall j | 0 <= j < |rest|
        ensures least < rest[j]
      {
        assert rest[j] in keys - {least};
      }
    }
  }

  function ItemFor(s: Shop, quantities: map<VariantId, int>, v: VariantId): Item
    requires v in quantities && v in s.variants
  {
    Item(v, quantities[v], s.variants[v].price)
  }

  /** One item for each of the variants named, at today's price. */
  function Basket(s: Shop, quantities: map<VariantId, int>, ids: seq<VariantId>): (items: seq<Item>)
    requires forall v <- ids :: v in quantities && v in s.variants
    ensures |items| == |ids| && forall i | 0 <= i < |ids| :: items[i] == ItemFor(s, quantities, ids[i])
  {
    seq(|ids|, i requires 0 <= i < |ids| => ItemFor(s, quantities, ids[i]))
  }

  lemma {:induction false} BasketQuantity(s: Shop, quantities: map<VariantId, int>, ids: seq<VariantId>, n: nat,
                                          v: VariantId)
    requires n <= |ids| && forall w <- ids :: w in quantities && w in s.variants
    requires forall i, j | 0 <= i < j < |ids| :: ids[i] != ids[j]
    ensures QuantityTo(Basket(s, quantities, ids), n, v) == if v in ids[..n] then quantities[v] else 0
  {
    if n != 0 {
      BasketQuantity(s, quantities, ids, n - 1, v);
      assert ids[..n] == ids[..n - 1] + [ids[n - 1]];
    }
  }

  function NewOrder(items: seq<Item>, now: int): Order {
    Order(PENDING, items, Some(now + RESERVATION_LIFETIME), true, Charge(items))
  }

  ghost function BasketOf(s: Shop, quantities: map<VariantId, int>): seq<Item>
    requires quantities.Keys <= s.variants.Keys
  {
    SortedIs(quantities.Keys);
    Basket(s, quantities, Sorted(quantities.Keys))
  }

  /** `create_order` once expired reservations are gone. */
  ghost function PlaceIn(s: Shop, id: OrderId, requests: seq<Request>, customerOk: bool, conversationOk: bool,
                         now: int): Outcome
  {
    if requests == [] || exists r <- requests :: r.quantity <= 0 then Refused(BAD_REQUEST)
    else if !customerOk || !conversationOk then Refused(NOT_FOUND)
    else match MergeAll(s, requests)
         case Failed(e) => Refused(e)
         case Merged(quantities) =>
           var items := BasketOf(s, quantities);
           SetOrder(MoveAll(s, Lines(items, MINUS, PLUS), RESERVATION_CREATED, REFUSE), id, NewOrder(items, now))
  }

  ghost function Place(s: Shop, id: OrderId, requests: seq<Request>, customerOk: bool, conversationOk: bool,
                       expired: seq<OrderId>, now: int): Outcome
  {
    var freed := ExpireAll(s, expired);
    if freed.Refused? then freed else PlaceIn(freed.shop, id, requests, customerOk, conversationOk, now)
  }

  // ---- Changing and deleting ------------------------------------------------

  function Changed(o: Order, status: Status, now: int): Order {
    o.(status := status, deadline := if status == PENDING then Some(now + RESERVATION_LIFETIME) else None)
  }

  /** What a new status does to the stock. */
  ghost function StatusMoves(s: Shop, id: OrderId, new': Status): Outcome
    requires id in s.orders
  {
    var o := s.orders[id];
    if new' == CANCELLED then Release(s, id, ORDER_CANCELLED)
    else if o.status == CANCELLED then
      if new' in RESERVING then MoveAll(s, Lines(o.items, MINUS, PLUS), RESERVATION_REOPENED, REFUSE)
      else MoveAll(s, Lines(o.items, MINUS, ZERO), ORDER_REOPENED, REFUSE)
    else if o.status in RESERVING && new' in FULFILLED then
      MoveAll(s, Lines(o.items, ZERO, MINUS), RESERVATION_FULFILLED, SKIP)
    else if o.status in FULFILLED && new' in RESERVING then
      MoveAll(s, Lines(o.items, ZERO, PLUS), RESERVATION_RESTORED, SKIP)
    else Done(s)
  }

  /** `update_order`, for a status given or absent. */
  ghost function Update(s: Shop, id: OrderId, status: Option<Status>, now: int): Outcome
  {
    if id !in s.orders then Refused(NOT_FOUND)
    else if status.None? || status.value == s.orders[id].status then Done(s)
    else SetOrder(StatusMoves(s, id, status.value), id, Changed(s.orders[id], status.value, now))
  }

  ghost predicate HasReturn(s: Shop, id: OrderId)
  {
    exists r <- s.salesReturns :: s.salesReturns[r].order == id
  }

  /** `delete_order`; the database refuses to delete under a return. */
  ghost function Delete(s: Shop, id: OrderId): Outcome
  {
    if id !in s.orders then Refused(NOT_FOUND)
    else
      var released := if s.orders[id].status == CANCELLED then Done(s) else Release(s, id, ORDER_DELETED);
      if released.Refused? then released
      else if HasReturn(s, id) then Refused(CONFLICT)
      else Done(released.shop.(orders := s.orders - {id}))
  }

  // ---- What cannot fail, and when the rest does -----------------------------

  lemma LinesPresent(s: Shop, items: seq<Item>, a: Sign, r: Sign)
    requires ItemsKnown(items, s.variants.Keys)
    ensures Present(s, Lines(items, a, r))
  {
    forall line | line in Lines(items, a, r)
      ensures line.variant in s.variants
    {
      var i :| 0 <= i < |items| && Lines(items, a, r)[i] == line;
      assert items[i] in items;
    }
  }

  ghost predicate Enough(s: Shop, items: seq<Item>)
  {
    forall v <- s.variants :: Quantity(items, v) <= s.variants[v].stock
  }

  /** An order's lines move unless they take more from the shelf than it has. */
  lemma LinesVerdict(s: Shop, items: seq<Item>, a: Sign, r: Sign, kind: Kind, missing: Missing)
    requires NonNegative(s.variants) && ItemsKnown(items, s.variants.Keys)
    requires forall item <- items :: 0 < item.quantity
    requires r == MINUS ==> forall v <- s.variants :: Quantity(items, v) <= s.variants[v].reserved
    ensures MoveAll(s, Lines(items, a, r), kind, missing).Done? <==> (a == MINUS ==> Enough(s, items))
    ensures MoveAll(s, Lines(items, a, r), kind, missing).Refused? ==>
              MoveAll(s, Lines(items, a, r), kind, missing).error == INSUFFICIENT
  {
    var lines := Lines(items, a, r);
    LinesPresent(s, items, a, r);
    forall v | v in s.variants
      ensures 0 <= s.variants[v].reserved + Reserving(lines, v)
      ensures 0 <= s.variants[v].stock + Available(lines, v)
              <==> (a == MINUS ==> Quantity(items, v) <= s.variants[v].stock)
    {
      LinesQuantity(items, a, r, v);
      QuantityNonNegative(items, |items|, v);
    }
    MoveAllVerdict(s, lines, kind, missing);
  }

  /** What an open order holds is no more than what is reserved. */
  lemma ReserveCovers(s: Shop, id: OrderId)
    requires Sound(s) && id in s.orders && s.orders[id].status in RESERVING
    ensures forall v <- s.variants :: Quantity(s.orders[id].items, v) <= s.variants[v].reserved
  {
    forall v | v in s.variants
      ensures Quantity(s.orders[id].items, v) <= s.variants[v].reserved
    {
      HeldAtLeast(s.orders, id, v, RESERVING);
      assert Balanced(s.variants, s.orders, s.ledger, v);
    }
  }

  /** For an order's own lines. */
  lemma OrderVerdict(s: Shop, id: OrderId, a: Sign, r: Sign, kind: Kind, missing: Missing)
    requires Sound(s) && id in s.orders && (r == MINUS ==> s.orders[id].status in RESERVING)
    ensures MoveAll(s, Lines(s.orders[id].items, a, r), kind, missing).Done?
            <==> (a == MINUS ==> Enough(s, s.orders[id].items))
    ensures MoveAll(s, Lines(s.orders[id].items, a, r), kind, missing).Refused? ==>
              MoveAll(s, Lines(s.orders[id].items, a, r), kind, missing).error == INSUFFICIENT
  {
    BooksNonNegative(s.variants, s.ledger);
    assert OrderOk(s.orders[id]);
    if r == MINUS {
      ReserveCovers(s, id);
    }
    LinesVerdict(s, s.orders[id].items, a, r, kind, missing);
  }

  /** The signs that carry an order from one status to another, None being no
      order at all. */
  predicate SignsMatch(a: Sign, r: Sign, before: Option<Status>, after: Option<Status>)
  {
    var held, holds := before.Some? && before.value != CANCELLED, after.Some? && after.value != CANCELLED;
    var reserved, reserves := before.Some? && before.value in RESERVING, after.Some? && after.value in RESERVING;
    && a == (if held == holds then ZERO else if held then PLUS else MINUS)
    && r == (if reserved == reserves then ZERO else if reserved then MINUS else PLUS)
  }

  ghost function StatusOf(o: Option<Order>): Option<Status> {
    if o.Some? then Some(o.value.status) else None
  }

  lemma SignsMove(items: seq<Item>, a: Sign, r: Sign, before: Option<Order>, after: Option<Order>, v: VariantId)
    requires SignsMatch(a, r, StatusOf(before), StatusOf(after))
    requires (before.Some? ==> before.value.items == items) && (after.Some? ==> after.value.items == items)
    ensures MovesOrder(Lines(items, a, r), before, after, v)
  {
    LinesQuantity(items, a, r, v);
  }

  /** Moving an order's lines by the matching signs keeps the shop sound. */
  lemma StatusMoved(s: Shop, id: OrderId, items: seq<Item>, a: Sign, r: Sign, kind: Kind, missing: Missing,
                    after: Option<Order>)
    requires Sound(s) && MoveAll(s, Lines(items, a, r), kind, missing).Done? && kind !in SUPPLY
    requires SignsMatch(a, r, StatusOf(Found(s.orders, id)), StatusOf(after))
    requires (id in s.orders ==> s.orders[id].items == items) && (after.Some? ==> after.value.items == items)
    requires SameSale(s.orders, id, after)
    requires ItemsKnown(items, s.variants.Keys) && forall item <- items :: 0 < item.quantity
    requires after.Some? ==> OrderOk(after.value)
    requires forall n | 0 < n :: ReservedMoves(kind, Signed(a, n), Signed(r, n))
    requires after.None? || id !in s.orders ==> !HasReturn(s, id)
    ensures Sound(MoveAll(s, Lines(items, a, r), kind, missing).shop.(orders := WithOrder(s.orders, id, after)))
  {
    var lines := Lines(items, a, r);
    forall v | v in s.variants
      ensures MovesOrder(lines, Found(s.orders, id), after, v)
    {
      SignsMove(items, a, r, Found(s.orders, id), after, v);
    }
    forall line | line in lines
      ensures ReservedMoves(kind, line.available, line.reserved)
    {
      var i :| 0 <= i < |lines| && lines[i] == line;
      assert items[i] in items && 0 < items[i].quantity;
      assert ReservedMoves(kind, Signed(a, items[i].quantity), Signed(r, items[i].quantity));
    }
    OrderMoved(s, lines, kind, missing, id, after);
  }

  // ---- Soundness of each request --------------------------------------------

  /** Moving an order's lines by the matching signs and then writing the order. */
  lemma SetSound(s: Shop, id: OrderId, items: seq<Item>, a: Sign, r: Sign, kind: Kind, missing: Missing, o: Order)
    requires Sound(s) && MoveAll(s, Lines(items, a, r), kind, missing).Done? && kind !in SUPPLY
    requires SignsMatch(a, r, StatusOf(Found(s.orders, id)), Some(o.status))
    requires (id in s.orders ==> s.orders[id].items == items && s.orders[id].total == o.total) && o.items == items
    requires ItemsKnown(items, s.variants.Keys) && OrderOk(o)
    requires forall n | 0 < n :: ReservedMoves(kind, Signed(a, n), Signed(r, n))
    requires id !in s.orders ==> !HasReturn(s, id)
    ensures var out := SetOrder(MoveAll(s, Lines(items, a, r), kind, missing), id, o);
            Sound(out.shop) && out.shop.orders == s.orders[id := o]
  {
    StatusMoved(s, id, items, a, r, kind, missing, Some(o));
    MoveAllAdvances(s, Lines(items, a, r), kind, missing);
  }

  lemma OrderKnown(s: Shop, id: OrderId)
    requires Sound(s) && id in s.orders
    ensures ItemsKnown(s.orders[id].items, s.variants.Keys) && OrderOk(s.orders[id])
  {
    assert OrderOk(s.orders[id]);
  }

  lemma ReleaseIs(s: Shop, id: OrderId, kind: Kind, o: Order)
    requires id in s.orders
    ensures SetOrder(Release(s, id, kind), id, o) == SetOrder(MoveAll(s, ReleaseLines(s.orders[id]), kind, SKIP), id, o)
  {
    if MoveAll(s, ReleaseLines(s.orders[id]), kind, SKIP).Done? {
      MoveAllAdvances(s, ReleaseLines(s.orders[id]), kind, SKIP);
      assert s.orders[id := s.orders[id].(deadline := None)][id := o] == s.orders[id := o];
    }
  }

  /** Cancelling always succeeds and keeps the shop sound. */
  lemma CancelSound(s: Shop, id: OrderId, kind: Kind, o: Order)
    requires Sound(s) && id in s.orders && s.orders[id].status != CANCELLED
    requires o.status == CANCELLED && o.items == s.orders[id].items && o.total == s.orders[id].total
    requires kind == ORDER_CANCELLED || (kind == RESERVATION_EXPIRED && s.orders[id].status in RESERVING)
    ensures SetOrder(Release(s, id, kind), id, o).Done?
    ensures Sound(SetOrder(Release(s, id, kind), id, o).shop)
    ensures SetOrder(Release(s, id, kind), id, o).shop.orders == s.orders[id := o]
  {
    var r := if s.orders[id].status in RESERVING then MINUS else ZERO;
    OrderKnown(s, id);
    OrderVerdict(s, id, PLUS, r, kind, SKIP);
    SetSound(s, id, s.orders[id].items, PLUS, r, kind, SKIP, o);
    ReleaseIs(s, id, kind, o);
  }

  ghost predicate PendingApart(s: Shop, ids: seq<OrderId>)
  {
    && (forall id <- ids :: id in s.orders && s.orders[id].status == PENDING)
    && (forall i, j | 0 <= i < j < |ids| :: ids[i] != ids[j])
  }

  /** The first `n` are cancelled, and no other order is touched. */
  ghost predicate ExpiredFirst(s: Shop, ids: seq<OrderId>, n: nat, t: Shop)
    requires n <= |ids|
  {
    && t.orders.Keys == s.orders.Keys
    && forall id <- s.orders :: t.orders[id] == ExpiredIn(s.orders[id], Among(ids, n, id))
  }

  lemma ExpireOneSound(s: Shop, ids: seq<OrderId>, n: nat, t: Shop)
    requires 0 < n <= |ids| && PendingApart(s, ids) && Sound(t) && ExpiredFirst(s, ids, n - 1, t)
    ensures ExpireOne(t, ids[n - 1]).Done? && Sound(ExpireOne(t, ids[n - 1]).shop)
    ensures ExpiredFirst(s, ids, n, ExpireOne(t, ids[n - 1]).shop)
  {
    var last := ids[n - 1];
    assert last in ids;
    AmongIs(ids, n - 1, last);
    assert t.orders[last] == s.orders[last];
    CancelSound(t, last, RESERVATION_EXPIRED, t.orders[last].(status := CANCELLED, deadline := None));
  }

  lemma {:induction false} ExpireFirstSound(s: Shop, ids: seq<OrderId>, n: nat)
    requires n <= |ids| && Sound(s) && PendingApart(s, ids)
    ensures ExpireFirst(s, ids, n).Done? && Sound(ExpireFirst(s, ids, n).shop)
    ensures ExpiredFirst(s, ids, n, ExpireFirst(s, ids, n).shop)
  {
    if n != 0 {
      ExpireFirstSound(s, ids, n - 1);
      assert ids[n - 1] in ids;
      ExpireOneSound(s, ids, n, ExpireFirst(s, ids, n - 1).shop);
    }
  }

  /** So does letting reservations expire, and it cancels those and no other. */
  lemma ExpireAllSound(s: Shop, ids: seq<OrderId>)
    requires Sound(s) && PendingApart(s, ids)
    ensures ExpireAll(s, ids).Done? && Sound(ExpireAll(s, ids).shop)
    ensures ExpireAll(s, ids).shop.orders.Keys == s.orders.Keys
    ensures forall id <- s.orders :: ExpireAll(s, ids).shop.orders[id] == ExpiredIn(s.orders[id], id in ids)
  {
    ExpireFirstSound(s, ids, |ids|);
    forall id | id in s.orders
      ensures Among(ids, |ids|, id) <==> id in ids
    {
      AmongIs(ids, |ids|, id);
    }
  }

  lemma BasketSound(s: Shop, id: OrderId, items: seq<Item>, now: int)
    requires Sound(s) && id !in s.orders
    requires ItemsKnown(items, s.variants.Keys) && OrderOk(NewOrder(items, now))
    ensures var out := SetOrder(MoveAll(s, Lines(items, MINUS, PLUS), RESERVATION_CREATED, REFUSE), id,
                                NewOrder(items, now));
            && (out.Done? ==> Sound(out.shop) && out.shop.orders == s.orders[id := NewOrder(items, now)])
            && (out.Done? <==> Enough(s, items))
            && (out.Refused? ==> out.error == INSUFFICIENT)
  {
    BooksNonNegative(s.variants, s.ledger);
    LinesVerdict(s, items, MINUS, PLUS, RESERVATION_CREATED, REFUSE);
    if Enough(s, items) {
      NoReturnWithoutOrder(s, id);
      SetSound(s, id, items, MINUS, PLUS, RESERVATION_CREATED, REFUSE, NewOrder(items, now));
    }
  }

  lemma BasketOk(s: Shop, requests: seq<Request>, now: int)
    requires Stocked(s.variants, s.products)
    requires MergeAll(s, requests).Merged? && forall r <- requests :: 0 < r.quantity
    ensures var items := BasketOf(s, MergeAll(s, requests).quantities);
            ItemsKnown(items, s.variants.Keys) && OrderOk(NewOrder(items, now))
  {
    MergedIsAsked(s, requests, |requests|, 0);
    var quantities := MergeAll(s, requests).quantities;
    var ids := Sorted(quantities.Keys);
    SortedIs(quantities.Keys);
    forall item | item in BasketOf(s, quantities)
      ensures item.variant in s.variants && 0 < item.quantity && 0 <= item.unitPrice
    {
      var i :| 0 <= i < |ids| && BasketOf(s, quantities)[i] == item;
      assert ids[i] in quantities.Keys;
    }
  }

  lemma {:induction false} MergeRefusals(s: Shop, requests: seq<Request>, n: nat)
    requires n <= |requests| && MergeFirst(s, requests, n).Failed?
    ensures MergeFirst(s, requests, n).error in {NOT_FOUND, BAD_REQUEST}
  {
    if n != 0 && MergeFirst(s, requests, n - 1).Failed? {
      MergeRefusals(s, requests, n - 1);
    }
  }

  lemma NoReturnWithoutOrder(s: Shop, id: OrderId)
    requires Sound(s) && id !in s.orders
    ensures !HasReturn(s, id)
  {
    forall r | r in s.salesReturns
      ensures s.salesReturns[r].order != id
    {
      assert ReturnOk(s.salesReturns[r], s.orders);
    }
  }

  /** What the requested lines come to, once they are known to be well formed. */
  lemma MergedSound(s: Shop, id: OrderId, requests: seq<Request>, now: int)
    requires Sound(s) && id !in s.orders && MergeAll(s, requests).Merged? && forall r <- requests :: 0 < r.quantity
    ensures var items := BasketOf(s, MergeAll(s, requests).quantities);
            var out := SetOrder(MoveAll(s, Lines(items, MINUS, PLUS), RESERVATION_CREATED, REFUSE), id,
                                NewOrder(items, now));
            && (out.Done? ==> Sound(out.shop))
            && (out.Done? <==> forall v <- s.variants :: Asked(s, requests, v) <= s.variants[v].stock)
            && (out.Refused? ==> out.error == INSUFFICIENT)
  {
    var items := BasketOf(s, MergeAll(s, requests).quantities);
    BasketOk(s, requests, now);
    BasketSound(s, id, items, now);
    forall v | v in s.variants
      ensures Quantity(items, v) == Asked(s, requests, v)
    {
      BasketIsAsked(s, requests, v);
    }
  }

  ghost predicate WellFormed(requests: seq<Request>)
  {
    requests != [] && forall r <- requests :: 0 < r.quantity
  }

  ghost predicate CanFill(s: Shop, requests: seq<Request>)
  {
    MergeAll(s, requests).Merged? && forall v <- s.variants :: Asked(s, requests, v) <= s.variants[v].stock
  }

  /** `create_order` on a shop without expired reservations: it keeps the shop
      sound, and a well-formed order is refused for stock exactly when some
      variant is asked for more than it has. */
  lemma PlacedSound(s: Shop, id: OrderId, requests: seq<Request>, customerOk: bool, conversationOk: bool, now: int)
    requires Sound(s) && id !in s.orders
    ensures var out := PlaceIn(s, id, requests, customerOk, conversationOk, now);
            && (out.Done? ==> Sound(out.shop))
            && (out.Done? <==> WellFormed(requests) && customerOk && conversationOk && CanFill(s, requests))
            && (out.Refused? ==> out.error in {BAD_REQUEST, NOT_FOUND, INSUFFICIENT})
  {
    if WellFormed(requests) && customerOk && conversationOk {
      if MergeAll(s, requests).Merged? {
        MergedSound(s, id, requests, now);
      } else {
        MergeRefusals(s, requests, |requests|);
      }
    }
  }

  /** An order holds of each variant exactly what was asked for in all. */
  lemma BasketIsAsked(s: Shop, requests: seq<Request>, v: VariantId)
    requires MergeAll(s, requests).Merged?
    ensures Quantity(BasketOf(s, MergeAll(s, requests).quantities), v) == Asked(s, requests, v)
  {
    var quantities := MergeAll(s, requests).quantities;
    MergedIsAsked(s, requests, |requests|, v);
    var ids := Sorted(quantities.Keys);
    SortedIs(quantities.Keys);
    BasketQuantity(s, quantities, ids, |ids|, v);
    assert ids[..|ids|] == ids;
  }

  lemma ReopenMoved(s: Shop, id: OrderId, r: Sign, kind: Kind, o: Order)
    requires Sound(s) && id in s.orders && s.orders[id].status == CANCELLED && o.status != CANCELLED
    requires o.items == s.orders[id].items && o.total == s.orders[id].total
    requires (r == PLUS && kind == RESERVATION_REOPENED && o.status in RESERVING)
          || (r == ZERO && kind == ORDER_REOPENED && o.status !in RESERVING)
    ensures var out := SetOrder(MoveAll(s, Lines(o.items, MINUS, r), kind, REFUSE), id, o);
            && (out.Done? <==> Enough(s, o.items))
            && (out.Refused? ==> out.error == INSUFFICIENT)
            && (out.Done? ==> Sound(out.shop) && out.shop.orders == s.orders[id := o])
  {
    OrderKnown(s, id);
    OrderVerdict(s, id, MINUS, r, kind, REFUSE);
    if Enough(s, o.items) {
      SetSound(s, id, o.items, MINUS, r, kind, REFUSE, o);
    }
  }

  /** A cancelled order reopens exactly when the shelf has its goods. */
  lemma ReopenSound(s: Shop, id: OrderId, status: Status, now: int)
    requires Sound(s) && id in s.orders && s.orders[id].status == CANCELLED && status != CANCELLED
    ensures var out := Update(s, id, Some(status), now);
            && (out.Done? <==> Enough(s, s.orders[id].items))
            && (out.Refused? ==> out.error == INSUFFICIENT)
            && (out.Done? ==> Sound(out.shop) && out.shop.orders == s.orders[id := Changed(s.orders[id], status, now)])
  {
    var reserve := status in RESERVING;
    ReopenMoved(s, id, if reserve then PLUS else ZERO, if reserve then RESERVATION_REOPENED else ORDER_REOPENED,
                Changed(s.orders[id], status, now));
  }

  lemma MoveOverSound(s: Shop, id: OrderId, r: Sign, kind: Kind, o: Order)
    requires Sound(s) && id in s.orders && o.items == s.orders[id].items && o.total == s.orders[id].total
    requires (r == MINUS && kind == RESERVATION_FULFILLED && s.orders[id].status in RESERVING && o.status in FULFILLED)
          || (r == PLUS && kind == RESERVATION_RESTORED && s.orders[id].status in FULFILLED && o.status in RESERVING)
    ensures var out := SetOrder(MoveAll(s, Lines(o.items, ZERO, r), kind, SKIP), id, o);
            out.Done? && Sound(out.shop) && out.shop.orders == s.orders[id := o]
  {
    OrderKnown(s, id);
    OrderVerdict(s, id, ZERO, r, kind, SKIP);
    SetSound(s, id, o.items, ZERO, r, kind, SKIP, o);
  }

  /** Every other change of status goes through, whatever the stock. */
  lemma ChangeSound(s: Shop, id: OrderId, status: Status, now: int)
    requires Sound(s) && id in s.orders && s.orders[id].status != CANCELLED && status != s.orders[id].status
    ensures var out := Update(s, id, Some(status), now);
            out.Done? && Sound(out.shop) && out.shop.orders == s.orders[id := Changed(s.orders[id], status, now)]
  {
    var o := s.orders[id];
    var o' := Changed(o, status, now);
    if status == CANCELLED {
      CancelSound(s, id, ORDER_CANCELLED, o');
    } else if o.status in RESERVING && status in FULFILLED {
      MoveOverSound(s, id, MINUS, RESERVATION_FULFILLED, o');
    } else if o.status in FULFILLED && status in RESERVING {
      MoveOverSound(s, id, PLUS, RESERVATION_RESTORED, o');
    } else {
      NoMoveSound(s, id, Some(o'));
    }
  }

  lemma NoMove(before: Option<Order>, after: Option<Order>, v: VariantId)
    requires SignsMatch(ZERO, ZERO, StatusOf(before), StatusOf(after))
    requires before.Some? && after.Some? ==> before.value.items == after.value.items
    ensures MovesOrder([], before, after, v)
  {
  }

  /** A change of an order that moves no stock. */
  lemma NoMoveSound(s: Shop, id: OrderId, after: Option<Order>)
    requires Sound(s) && id in s.orders && SameSale(s.orders, id, after)
    requires SignsMatch(ZERO, ZERO, Some(s.orders[id].status), StatusOf(after))
    requires after.None? ==> !HasReturn(s, id)
    ensures Sound(s.(orders := WithOrder(s.orders, id, after)))
  {
    OrderKnown(s, id);
    forall v | v in s.variants
      ensures MovesOrder([], Found(s.orders, id), after, v)
    {
      NoMove(Found(s.orders, id), after, v);
    }
    assert MoveAll(s, [], ORDER_CANCELLED, SKIP) == Done(s);
    OrderMoved(s, [], ORDER_CANCELLED, SKIP, id, after);
  }

  /** Deleting an order succeeds unless a return refers to it. */
  lemma DeleteSound(s: Shop, id: OrderId)
    requires Sound(s)
    ensures Delete(s, id).Done? ==> Sound(Delete(s, id).shop)
    ensures Delete(s, id) == Refused(NOT_FOUND) || Delete(s, id) == Refused(CONFLICT) || Delete(s, id).Done?
    ensures Delete(s, id).Done? <==> id in s.orders && !HasReturn(s, id)
  {
    if id in s.orders {
      var o := s.orders[id];
      OrderKnown(s, id);
      if o.status != CANCELLED {
        OrderVerdict(s, id, PLUS, if o.status in RESERVING then MINUS else ZERO, ORDER_DELETED, SKIP);
        if !HasReturn(s, id) {
          DeleteMoved(s, id);
        }
      } else if !HasReturn(s, id) {
        NoMoveSound(s, id, None);
      }
    }
  }

  lemma DeleteMoved(s: Shop, id: OrderId)
    requires Sound(s) && id in s.orders && s.orders[id].status != CANCELLED && !HasReturn(s, id)
    requires Release(s, id, ORDER_DELETED).Done?
    ensures Sound(Release(s, id, ORDER_DELETED).shop.(orders := s.orders - {id}))
  {
    var o := s.orders[id];
    OrderKnown(s, id);
    StatusMoved(s, id, o.items, PLUS, if o.status in RESERVING then MINUS else ZERO, ORDER_DELETED, SKIP, None);
  }
}
