/** What each purchase and return request leaves behind, and why it is refused. */
module OperationEffects {
  import opened Wrappers
  import opened Lifecycle
  import opened Inventory
  import opened Invariants
  import opened Operations

  // ---- Purchase orders ------------------------------------------------------

  /** One purchase is written, and nothing else. */
  ghost predicate OnlyPurchase(s: Shop, t: Shop, id: PurchaseId)
  {
    && t.variants == s.variants && t.products == s.products && t.orders == s.orders && t.ledger == s.ledger
    && t.salesReturns == s.salesReturns && PurchasesBut(s, t, id)
  }

  ghost predicate PurchasesBut(s: Shop, t: Shop, id: PurchaseId)
  {
    && t.purchases.Keys == s.purchases.Keys + {id}
    && forall k <- s.purchases :: k != id ==> t.purchases[k] == s.purchases[k]
  }

  /** A purchase starts as a draft of its lines, each for another variant there
      is, with nothing received. */
  lemma BuyIs(s: Shop, id: PurchaseId, supplierOk: bool, requests: seq<PurchaseRequest>)
    ensures var out := Buy(s, id, supplierOk, requests);
            if !supplierOk then out == Refused(NOT_FOUND)
            else if exists i, j :: 0 <= i < j < |requests| && requests[i].variant == requests[j].variant
            then out == Refused(BAD_REQUEST)
            else if exists r <- requests :: r.variant !in s.variants then out == Refused(NOT_FOUND)
            else
              && out.Done? && OnlyPurchase(s, out.shop, id)
              && out.shop.purchases[id].status == DRAFT && |out.shop.purchases[id].lines| == |requests|
              && forall i | 0 <= i < |requests| ::
                   out.shop.purchases[id].lines[i] == PurchaseLine(requests[i].variant, requests[i].ordered, 0)
  {
  }

  /** A draft can be ordered, and a draft or an order cancelled. */
  lemma UpdatePurchaseIs(s: Shop, id: PurchaseId, status: Option<PurchaseStatus>)
    ensures var out := UpdatePurchase(s, id, status);
            if id !in s.purchases then out == Refused(NOT_FOUND)
            else if status.None? then out == Done(s)
            else if (s.purchases[id].status, status.value)
                    !in {(DRAFT, ORDERED), (DRAFT, PURCHASE_CANCELLED), (ORDERED, PURCHASE_CANCELLED)}
            then out == Refused(CONFLICT)
            else out.Done? && OnlyPurchase(s, out.shop, id)
                 && out.shop.purchases[id] == Purchase(status.value, s.purchases[id].lines)
  {
  }

  /** What the first `n` deliveries bring of one line. */
  ghost function DeliveredTo(deliveries: seq<Delivery>, n: nat, item: nat): int
    requires n <= |deliveries|
  {
    if n == 0 then 0
    else DeliveredTo(deliveries, n - 1, item) + if deliveries[n - 1].item == item then deliveries[n - 1].quantity else 0
  }

  lemma {:induction false} DeliveredGrows(deliveries: seq<Delivery>, n: nat, m: nat, item: nat)
    requires n <= m <= |deliveries| && forall d <- deliveries :: 0 < d.quantity
    ensures DeliveredTo(deliveries, n, item) <= DeliveredTo(deliveries, m, item)
    decreases m
  {
    if n < m {
      DeliveredGrows(deliveries, n, m - 1, item);
      assert deliveries[m - 1] in deliveries;
    }
  }

  /** No line receives more than was ordered. */
  ghost predicate Fits(lines: seq<PurchaseLine>, deliveries: seq<Delivery>, n: nat)
    requires n <= |deliveries|
  {
    forall i | 0 <= i < |lines| :: lines[i].received + DeliveredTo(deliveries, n, i) <= lines[i].ordered
  }

  /** Every line has received what came for it. */
  ghost predicate ToppedTo(lines: seq<PurchaseLine>, deliveries: seq<Delivery>, n: nat, lines': seq<PurchaseLine>)
    requires n <= |deliveries|
  {
    && |lines'| == |lines|
    && forall i | 0 <= i < |lines| ::
         lines'[i] == PurchaseLine(lines[i].variant, lines[i].ordered,
                                   lines[i].received + DeliveredTo(deliveries, n, i))
  }

  lemma FitsMore(lines: seq<PurchaseLine>, deliveries: seq<Delivery>, n: nat)
    requires 0 < n <= |deliveries| && forall d <- deliveries :: 0 < d.quantity
    requires deliveries[n - 1].item < |lines|
    ensures var i := deliveries[n - 1].item;
            Fits(lines, deliveries, n)
            <==> Fits(lines, deliveries, n - 1)
                 && lines[i].received + DeliveredTo(deliveries, n, i) <= lines[i].ordered
  {
    assert deliveries[n - 1] in deliveries;
    forall i | 0 <= i < |lines|
      ensures DeliveredTo(deliveries, n, i)
           == DeliveredTo(deliveries, n - 1, i) + if deliveries[n - 1].item == i then deliveries[n - 1].quantity else 0
    {
    }
  }

  lemma OneReceived(s: Shop, lines: seq<PurchaseLine>, d: Delivery)
    requires NonNegative(s.variants) && d.item < |lines| && lines[d.item].variant in s.variants && 0 < d.quantity
    ensures var r := Receive(s, lines, d);
            if lines[d.item].received + d.quantity > lines[d.item].ordered then r == Turned(BAD_REQUEST)
            else r.Took? && NonNegative(r.shop.variants) && r.shop.variants.Keys == s.variants.Keys
                 && r.lines == Topped(lines, d)
  {
  }

  /** The deliveries are taken exactly when they fit. */
  lemma {:induction false} ReceivedTo(s: Shop, lines: seq<PurchaseLine>, deliveries: seq<Delivery>, n: nat)
    requires n <= |deliveries| && OnOrder(deliveries, lines) && NonNegative(s.variants)
    requires LinesKnown(lines, s.variants.Keys) && (forall d <- deliveries :: 0 < d.quantity)
    requires forall i | 0 <= i < |lines| :: lines[i].received <= lines[i].ordered
    ensures var r := ReceiveFirst(s, lines, deliveries, n);
            if Fits(lines, deliveries, n)
            then r.Took? && ToppedTo(lines, deliveries, n, r.lines) && NonNegative(r.shop.variants)
                 && r.shop.variants.Keys == s.variants.Keys
            else r == Turned(BAD_REQUEST)
  {
    if n != 0 {
      ReceivedTo(s, lines, deliveries, n - 1);
      var d := deliveries[n - 1];
      assert d in deliveries && lines[d.item] in lines;
      FitsMore(lines, deliveries, n);
      if Fits(lines, deliveries, n - 1) {
        var r := ReceiveFirst(s, lines, deliveries, n - 1);
        OneReceived(r.shop, r.lines, d);
      }
    }
  }

  /** What the first `n` deliveries bring of a variant. */
  ghost function BroughtTo(lines: seq<PurchaseLine>, deliveries: seq<Delivery>, n: nat, v: VariantId): int
    requires n <= |deliveries| && OnOrder(deliveries, lines)
  {
    if n == 0 then 0
    else
      assert deliveries[n - 1] in deliveries;
      BroughtTo(lines, deliveries, n - 1, v)
      + if lines[deliveries[n - 1].item].variant == v then deliveries[n - 1].quantity else 0
  }

  lemma {:induction false} BroughtIs(lines: seq<PurchaseLine>, deliveries: seq<Delivery>, n: nat, v: VariantId)
    requires n <= |deliveries| && OnOrder(deliveries, lines)
    ensures AvailableTo(DeliveryLines(lines, deliveries), n, v) == BroughtTo(lines, deliveries, n, v)
    ensures ReservingTo(DeliveryLines(lines, deliveries), n, v) == 0
  {
    if n != 0 {
      BroughtIs(lines, deliveries, n - 1, v);
      assert DeliveryLines(lines, deliveries)[n - 1] == DeliveryLine(lines, deliveries[n - 1]);
    }
  }

  /** Every delivered quantity is on the shelf, and has its entry. */
  ghost predicate Delivered(s: Shop, t: Shop, lines: seq<PurchaseLine>, deliveries: seq<Delivery>)
    requires OnOrder(deliveries, lines)
  {
    && t.variants.Keys == s.variants.Keys
    && (forall v <- s.variants ::
          t.variants[v]
          == s.variants[v].(stock := s.variants[v].stock + BroughtTo(lines, deliveries, |deliveries|, v)))
    && DeliveriesEntered(s, t, lines, deliveries)
    && t.orders == s.orders && t.salesReturns == s.salesReturns && t.products.Keys == s.products.Keys
    && forall p <- s.products :: t.products[p].active == s.products[p].active
  }

  lemma DeliveriesPresent(s: Shop, lines: seq<PurchaseLine>, deliveries: seq<Delivery>)
    requires OnOrder(deliveries, lines) && LinesKnown(lines, s.variants.Keys)
    ensures Present(s, DeliveryLines(lines, deliveries))
  {
    var moved := DeliveryLines(lines, deliveries);
    forall line | line in moved
      ensures line.variant in s.variants
    {
      var i :| 0 <= i < |moved| && moved[i] == line;
      assert deliveries[i] in deliveries && lines[deliveries[i].item] in lines;
    }
  }

  /** One entry for each delivery, after those there were. */
  ghost predicate DeliveriesEntered(s: Shop, t: Shop, lines: seq<PurchaseLine>, deliveries: seq<Delivery>)
    requires OnOrder(deliveries, lines)
  {
    && |t.ledger| == |s.ledger| + |deliveries| && t.ledger[..|s.ledger|] == s.ledger
    && (forall i | 0 <= i < |deliveries| ::
          && deliveries[i] in deliveries
          && var m := t.ledger[|s.ledger| + i];
             && m.variant == Some(lines[deliveries[i].item].variant) && m.kind == PURCHASE_RECEIVED
             && m.delta == deliveries[i].quantity)
  }

  lemma DeliveriesEnteredIs(s: Shop, t: Shop, lines: seq<PurchaseLine>, deliveries: seq<Delivery>)
    requires OnOrder(deliveries, lines) && Present(s, DeliveryLines(lines, deliveries))
    requires var moved := DeliveryLines(lines, deliveries); EnteredTo(s, moved, |moved|, PURCHASE_RECEIVED, t.ledger)
    ensures DeliveriesEntered(s, t, lines, deliveries)
  {
    var moved := DeliveryLines(lines, deliveries);
    forall i | 0 <= i < |deliveries|
      ensures deliveries[i] in deliveries
      ensures var m := t.ledger[|s.ledger| + i];
              && m.variant == Some(lines[deliveries[i].item].variant) && m.kind == PURCHASE_RECEIVED
              && m.delta == deliveries[i].quantity
    {
      assert moved[i] == DeliveryLine(lines, deliveries[i]);
      assert t.ledger[|s.ledger| + i] == EntryAt(s, moved, i, PURCHASE_RECEIVED);
    }
  }

  lemma DeliveredIs(s: Shop, lines: seq<PurchaseLine>, deliveries: seq<Delivery>)
    requires OnOrder(deliveries, lines) && LinesKnown(lines, s.variants.Keys)
    requires MoveAll(s, DeliveryLines(lines, deliveries), PURCHASE_RECEIVED, REFUSE).Done?
    ensures Delivered(s, MoveAll(s, DeliveryLines(lines, deliveries), PURCHASE_RECEIVED, REFUSE).shop, lines,
                      deliveries)
  {
    var moved := DeliveryLines(lines, deliveries);
    var t := MoveAll(s, moved, PURCHASE_RECEIVED, REFUSE).shop;
    DeliveriesPresent(s, lines, deliveries);
    MoveAllAdvances(s, moved, PURCHASE_RECEIVED, REFUSE);
    MoveFirstEnters(s, moved, |moved|, PURCHASE_RECEIVED, REFUSE);
    DeliveriesEnteredIs(s, t, lines, deliveries);
    forall v | v in s.variants
      ensures t.variants[v]
           == s.variants[v].(stock := s.variants[v].stock + BroughtTo(lines, deliveries, |deliveries|, v))
    {
      BroughtIs(lines, deliveries, |deliveries|, v);
      assert t.variants[v] == Shifted(s.variants[v], moved, |moved|, v);
    }
  }

  /** A delivery of positive quantities is taken when the purchase is on order,
      names each of its lines at most once and brings no more than was ordered;
      the purchase is `received` once everything has come. */
  lemma ReceivePurchaseIs(s: Shop, id: PurchaseId, deliveries: seq<Delivery>)
    requires Sound(s) && forall d <- deliveries :: 0 < d.quantity
    ensures var out := ReceivePurchase(s, id, deliveries);
            if id !in s.purchases then out == Refused(NOT_FOUND)
            else if s.purchases[id].status !in {ORDERED, PARTIALLY_RECEIVED} then out == Refused(CONFLICT)
            else if exists i, j :: 0 <= i < j < |deliveries| && deliveries[i].item == deliveries[j].item
            then out == Refused(BAD_REQUEST)
            else if exists d <- deliveries :: d.item >= |s.purchases[id].lines| then out == Refused(NOT_FOUND)
            else if !Fits(s.purchases[id].lines, deliveries, |deliveries|) then out == Refused(BAD_REQUEST)
            else out.Done? && ReceivedFrom(s, out.shop, id, deliveries)
  {
    if id in s.purchases && OnOrder(deliveries, s.purchases[id].lines) {
      var lines := s.purchases[id].lines;
      assert PurchaseOk(s.purchases[id]) && LinesKnown(lines, s.variants.Keys);
      BooksNonNegative(s.variants, s.ledger);
      LinesWithin(s.purchases[id]);
      ReceivedTo(s, lines, deliveries, |deliveries|);
      if ReceivePurchase(s, id, deliveries).Done? {
        ReceivedFromIs(s, id, deliveries);
      }
    }
  }

  lemma LinesWithin(p: Purchase)
    requires PurchaseOk(p)
    ensures forall i | 0 <= i < |p.lines| :: p.lines[i].received <= p.lines[i].ordered
  {
    forall i | 0 <= i < |p.lines|
      ensures p.lines[i].received <= p.lines[i].ordered
    {
      assert p.lines[i] in p.lines;
    }
  }

  ghost predicate ReceivedFrom(s: Shop, t: Shop, id: PurchaseId, deliveries: seq<Delivery>)
    requires id in s.purchases && OnOrder(deliveries, s.purchases[id].lines)
  {
    var lines := s.purchases[id].lines;
    && PurchasesBut(s, t, id) && ToppedTo(lines, deliveries, |deliveries|, t.purchases[id].lines)
    && (t.purchases[id].status
        == if forall line <- t.purchases[id].lines :: line.received == line.ordered then RECEIVED
           else PARTIALLY_RECEIVED)
    && Delivered(s, t, lines, deliveries)
  }

  lemma ReceivedFromIs(s: Shop, id: PurchaseId, deliveries: seq<Delivery>)
    requires id in s.purchases && OnOrder(deliveries, s.purchases[id].lines) && NonNegative(s.variants)
    requires LinesKnown(s.purchases[id].lines, s.variants.Keys) && (forall d <- deliveries :: 0 < d.quantity)
    requires forall i | 0 <= i < |s.purchases[id].lines| ::
               s.purchases[id].lines[i].received <= s.purchases[id].lines[i].ordered
    requires ReceivePurchase(s, id, deliveries).Done?
    ensures ReceivedFrom(s, ReceivePurchase(s, id, deliveries).shop, id, deliveries)
  {
    var lines := s.purchases[id].lines;
    ReceivedTo(s, lines, deliveries, |deliveries|);
    ReceiveFirstIs(s, lines, deliveries, |deliveries|);
    DeliveredIs(s, lines, deliveries);
    var u := MoveAll(s, DeliveryLines(lines, deliveries), PURCHASE_RECEIVED, REFUSE).shop;
    DeliveredToo(s, u, ReceivePurchase(s, id, deliveries).shop.purchases, lines, deliveries);
  }

  lemma DeliveredToo(s: Shop, u: Shop, purchases: map<PurchaseId, Purchase>, lines: seq<PurchaseLine>,
                     deliveries: seq<Delivery>)
    requires OnOrder(deliveries, lines) && Delivered(s, u, lines, deliveries)
    ensures Delivered(s, u.(purchases := purchases), lines, deliveries)
  {
    var t := u.(purchases := purchases);
    assert t.variants == u.variants && t.ledger == u.ledger && t.products == u.products;
  }

  // ---- Returns --------------------------------------------------------------

  ghost predicate ReturnsBut(s: Shop, t: Shop, id: ReturnId)
  {
    && t.salesReturns.Keys == s.salesReturns.Keys + {id}
    && forall k <- s.salesReturns :: k != id ==> t.salesReturns[k] == s.salesReturns[k]
  }

  /** One return is written, and nothing else. */
  ghost predicate OnlyReturn(s: Shop, t: Shop, id: ReturnId)
  {
    && t.variants == s.variants && t.products == s.products && t.orders == s.orders && t.ledger == s.ledger
    && t.purchases == s.purchases && ReturnsBut(s, t, id)
  }

  /** A return is opened on a shipped or delivered order, for each of its lines at
      most once, no more than is still out and no more restocked than comes
      back. */
  lemma OpenReturnIs(s: Shop, id: ReturnId, order: OrderId, refund: int, requests: seq<ReturnRequest>)
    ensures var out := OpenReturn(s, id, order, refund, requests);
            if order !in s.orders then out == Refused(NOT_FOUND)
            else if s.orders[order].status !in {SHIPPED, DELIVERED} then out == Refused(CONFLICT)
            else if exists i, j :: 0 <= i < j < |requests| && requests[i].item == requests[j].item
            then out == Refused(BAD_REQUEST)
            else if exists r <- requests :: r.item >= |s.orders[order].items| then out == Refused(NOT_FOUND)
            else if exists r <- requests ::
                      r.restock > r.quantity
                      || Returned(s.salesReturns, order, r.item) + r.quantity > s.orders[order].items[r.item].quantity
            then out == Refused(BAD_REQUEST)
            else out.Done? && OnlyReturn(s, out.shop, id)
                 && ReturnOf(out.shop.salesReturns[id], order, s.orders[order].items, refund, requests)
  {
  }

  /** A return as it was asked for, with nothing received or refunded yet. */
  ghost predicate ReturnOf(r: Return, order: OrderId, items: seq<Item>, refund: int, requests: seq<ReturnRequest>)
    requires forall q <- requests :: q.item < |items|
  {
    && r.order == order && r.refund == refund && !r.received && !r.refunded && r.status == REQUESTED
    && |r.lines| == |requests|
    && forall i | 0 <= i < |requests| ::
         && requests[i] in requests
         && r.lines[i] == ReturnLine(requests[i].item, items[requests[i].item].variant, requests[i].quantity,
                                     requests[i].restock)
  }

  /** A refund is recorded once, when there is one and it stays within what the
      order cost. */
  lemma RefundIs(s: Shop, id: ReturnId)
    ensures var out := Refund(s, id);
            if id !in s.salesReturns then out == Refused(NOT_FOUND)
            else
              var r := s.salesReturns[id];
              if r.refunded then out == Refused(CONFLICT)
              else if r.refund <= 0 then out == Refused(BAD_REQUEST)
              else if r.order !in s.orders then out == Refused(NOT_FOUND)
              else if Refunds(s.salesReturns, r.order) + r.refund > s.orders[r.order].total
              then out == Refused(BAD_REQUEST)
              else out.Done? && OnlyReturn(s, out.shop, id)
                   && out.shop.salesReturns[id] == Return(r.order, r.lines, r.refund, r.received, true, REFUNDED)
  {
  }

  /** How many lines put something back. */
  function Restocking(lines: seq<ReturnLine>, n: nat): nat
    requires n <= |lines|
  {
    if n == 0 then 0 else Restocking(lines, n - 1) + if lines[n - 1].restock != 0 then 1 else 0
  }

  ghost predicate RestocksOne(m: Movement, lines: seq<ReturnLine>)
  {
    && m.kind == RETURN_RECEIVED
    && exists line <- lines :: m.variant == Some(line.variant) && m.delta == line.restock != 0
  }

  /** What a return restocks is on the shelf, and has its entries. */
  ghost predicate Taken(s: Shop, t: Shop, lines: seq<ReturnLine>)
  {
    && t.variants.Keys == s.variants.Keys
    && (forall v <- s.variants ::
          t.variants[v] == s.variants[v].(stock := s.variants[v].stock + LinesRestocked(lines, v)))
    && |t.ledger| == |s.ledger| + Restocking(lines, |lines|) && t.ledger[..|s.ledger|] == s.ledger
    && (forall i | |s.ledger| <= i < |t.ledger| :: RestocksOne(t.ledger[i], lines))
    && t.orders == s.orders && t.purchases == s.purchases && t.products.Keys == s.products.Keys
    && forall p <- s.products :: t.products[p].active == s.products[p].active
  }

  lemma {:induction false} RestockingLines(lines: seq<ReturnLine>, n: nat)
    requires n <= |lines|
    ensures |RestockLines(lines, n)| == Restocking(lines, n)
    ensures forall moved <- RestockLines(lines, n) ::
              exists line <- lines :: moved == Line(line.variant, line.restock, 0) && line.restock != 0
  {
    if n != 0 {
      RestockingLines(lines, n - 1);
      assert lines[n - 1] in lines;
    }
  }

  lemma {:induction false} NoneReserved(lines: seq<Line>, n: nat, v: VariantId)
    requires n <= |lines| && forall line <- lines :: line.reserved == 0
    ensures ReservingTo(lines, n, v) == 0
  {
    if n != 0 {
      NoneReserved(lines, n - 1, v);
      assert lines[n - 1] in lines;
    }
  }

  lemma {:induction false} TakenIs(s: Shop, lines: seq<ReturnLine>, moved: seq<Line>, t: Shop)
    requires moved == RestockLines(lines, |lines|) && Present(s, moved)
    requires MoveAll(s, moved, RETURN_RECEIVED, REFUSE) == Done(t)
    ensures Taken(s, t, lines)
  {
    MoveAllAdvances(s, moved, RETURN_RECEIVED, REFUSE);
    MoveFirstEnters(s, moved, |moved|, RETURN_RECEIVED, REFUSE);
    RestockingLines(lines, |lines|);
    forall i | |s.ledger| <= i < |t.ledger|
      ensures RestocksOne(t.ledger[i], lines)
    {
      var k := i - |s.ledger|;
      assert t.ledger[|s.ledger| + k] == EntryAt(s, moved, k, RETURN_RECEIVED);
      assert moved[k] in moved;
    }
    forall v | v in s.variants
      ensures t.variants[v] == s.variants[v].(stock := s.variants[v].stock + LinesRestocked(lines, v))
    {
      RestockLinesAre(lines, |lines|, v);
      NoneReserved(moved, |moved|, v);
      assert t.variants[v] == Shifted(s.variants[v], moved, |moved|, v);
    }
  }

  /** A return is received once: what it restocks goes on the shelf. */
  lemma ReceiveReturnIs(s: Shop, id: ReturnId)
    requires Sound(s)
    ensures var out := ReceiveReturn(s, id);
            if id !in s.salesReturns then out == Refused(NOT_FOUND)
            else if s.salesReturns[id].received then out == Refused(CONFLICT)
            else
              var r := s.salesReturns[id];
              && out.Done? && ReturnsBut(s, out.shop, id) && Taken(s, out.shop, r.lines)
              && out.shop.salesReturns[id]
                 == Return(r.order, r.lines, r.refund, true, r.refunded, if r.refunded then REFUNDED else RETURNED)
  {
    if id in s.salesReturns && !s.salesReturns[id].received {
      ReceiveReturnSucceeds(s, id);
      var r := s.salesReturns[id];
      assert ReturnOk(r, s.orders);
      RestockLinesKnown(s, r, |r.lines|);
      TakenRowIs(s, id);
    }
  }

  lemma TakenRowIs(s: Shop, id: ReturnId)
    requires id in s.salesReturns && Present(s, RestockLines(s.salesReturns[id].lines, |s.salesReturns[id].lines|))
    requires ReceiveReturn(s, id).Done?
    ensures Taken(s, ReceiveReturn(s, id).shop, s.salesReturns[id].lines)
  {
    var moved := RestockLines(s.salesReturns[id].lines, |s.salesReturns[id].lines|);
    var u, t := MoveAll(s, moved, RETURN_RECEIVED, REFUSE).shop, ReceiveReturn(s, id).shop;
    TakenIs(s, s.salesReturns[id].lines, moved, u);
    assert t.variants == u.variants && t.ledger == u.ledger && t.products == u.products;
  }
}
