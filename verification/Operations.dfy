/** Purchase orders and customer returns: goods coming in from a supplier, and
    goods and money going back. */
module Operations {
  import opened Wrappers
  import opened Sums
  import opened Inventory
  import opened Invariants

  // ---- Purchase orders ------------------------------------------------------

  datatype PurchaseRequest = PurchaseRequest(variant: VariantId, ordered: int)

  function Draft(requests: seq<PurchaseRequest>): Purchase {
    Purchase(DRAFT, seq(|requests|, i requires 0 <= i < |requests| =>
                          PurchaseLine(requests[i].variant, requests[i].ordered, 0)))
  }

  ghost predicate Distinct(requests: seq<PurchaseRequest>)
  {
    forall i, j | 0 <= i < j < |requests| :: requests[i].variant != requests[j].variant
  }

  ghost predicate AllFound(s: Shop, requests: seq<PurchaseRequest>)
  {
    forall r <- requests :: r.variant in s.variants
  }

  /** `create_purchase_order` */
  ghost function Buy(s: Shop, id: PurchaseId, supplierOk: bool, requests: seq<PurchaseRequest>): Outcome {
    if !supplierOk then Refused(NOT_FOUND)
    else if !Distinct(requests) then Refused(BAD_REQUEST)
    else if !AllFound(s, requests) then Refused(NOT_FOUND)
    else Done(s.(purchases := s.purchases[id := Draft(requests)]))
  }

  predicate MayBecome(was: PurchaseStatus, new': PurchaseStatus) {
    || (was == DRAFT && new' in {ORDERED, PURCHASE_CANCELLED})
    || (was == ORDERED && new' == PURCHASE_CANCELLED)
  }

  /** `update_purchase_order` */
  ghost function UpdatePurchase(s: Shop, id: PurchaseId, status: Option<PurchaseStatus>): Outcome {
    if id !in s.purchases then Refused(NOT_FOUND)
    else if status.None? then Done(s)
    else if !MayBecome(s.purchases[id].status, status.value) then Refused(CONFLICT)
    else Done(s.(purchases := s.purchases[id := s.purchases[id].(status := status.value)]))
  }

  /** `item` is the position of a line on the purchase order. */
  datatype Delivery = Delivery(item: nat, quantity: int)

  ghost predicate OnceEach(deliveries: seq<Delivery>)
  {
    forall i, j | 0 <= i < j < |deliveries| :: deliveries[i].item != deliveries[j].item
  }

  ghost predicate OnOrder(deliveries: seq<Delivery>, lines: seq<PurchaseLine>)
  {
    forall d <- deliveries :: d.item < |lines|
  }

  datatype Receipt = Took(shop: Shop, lines: seq<PurchaseLine>) | Turned(error: Error)

  function Topped(lines: seq<PurchaseLine>, d: Delivery): seq<PurchaseLine>
    requires d.item < |lines|
  {
    lines[d.item := lines[d.item].(received := lines[d.item].received + d.quantity)]
  }

  /** One delivered line. */
  ghost function Receive(s: Shop, lines: seq<PurchaseLine>, d: Delivery): Receipt
    requires d.item < |lines|
  {
    var line := lines[d.item];
    if line.received + d.quantity > line.ordered then Turned(BAD_REQUEST)
    else if line.variant !in s.variants then Turned(MISSING_VARIANT)
    else match Move(s, Line(line.variant, d.quantity, 0), PURCHASE_RECEIVED)
         case Refused(e) => Turned(e)
         case Done(t) => Took(t, Topped(lines, d))
  }

  ghost function ReceiveFirst(s: Shop, lines: seq<PurchaseLine>, deliveries: seq<Delivery>, n: nat): (r: Receipt)
    requires n <= |deliveries| && OnOrder(deliveries, lines)
    ensures r.Took? ==> |r.lines| == |lines|
  {
    if n == 0 then Took(s, lines)
    else
      var before := ReceiveFirst(s, lines, deliveries, n - 1);
      if before.Turned? then before
      else
        assert deliveries[n - 1] in deliveries;
        Receive(before.shop, before.lines, deliveries[n - 1])
  }

  ghost function AfterReceipt(p: Purchase, lines: seq<PurchaseLine>): Purchase {
    p.(lines := lines, status := if AllReceived(p.(lines := lines)) then RECEIVED else PARTIALLY_RECEIVED)
  }

  /** `receive_purchase` */
  ghost function ReceivePurchase(s: Shop, id: PurchaseId, deliveries: seq<Delivery>): Outcome {
    if id !in s.purchases then Refused(NOT_FOUND)
    else
      var p := s.purchases[id];
      if p.status !in {ORDERED, PARTIALLY_RECEIVED} then Refused(CONFLICT)
      else if !OnceEach(deliveries) then Refused(BAD_REQUEST)
      else if !OnOrder(deliveries, p.lines) then Refused(NOT_FOUND)
      else match ReceiveFirst(s, p.lines, deliveries, |deliveries|)
           case Turned(e) => Refused(e)
           case Took(t, lines) => Done(t.(purchases := s.purchases[id := AfterReceipt(p, lines)]))
  }

  // ---- Returns --------------------------------------------------------------

  datatype ReturnRequest = ReturnRequest(item: nat, quantity: int, restock: int)

  ghost predicate ReturnedOnce(requests: seq<ReturnRequest>)
  {
    forall i, j | 0 <= i < j < |requests| :: requests[i].item != requests[j].item
  }

  ghost predicate OnSale(requests: seq<ReturnRequest>, items: seq<Item>)
  {
    forall r <- requests :: r.item < |items|
  }

  /** Nothing more is restocked than returned, nor returned than sold. */
  ghost predicate Allowed(s: Shop, order: OrderId, r: ReturnRequest)
    requires order in s.orders && r.item < |s.orders[order].items|
  {
    && r.restock <= r.quantity
    && Returned(s.salesReturns, order, r.item) + r.quantity <= s.orders[order].items[r.item].quantity
  }

  ghost predicate AllAllowed(s: Shop, order: OrderId, requests: seq<ReturnRequest>)
    requires order in s.orders && OnSale(requests, s.orders[order].items)
  {
    forall r <- requests :: Allowed(s, order, r)
  }

  function ReturnLineFor(items: seq<Item>, r: ReturnRequest): ReturnLine
    requires r.item < |items|
  {
    ReturnLine(r.item, items[r.item].variant, r.quantity, r.restock)
  }

  function ReturnLines(items: seq<Item>, requests: seq<ReturnRequest>): (lines: seq<ReturnLine>)
    requires forall r <- requests :: r.item < |items|
    ensures |lines| == |requests| && forall i | 0 <= i < |requests| :: lines[i] == ReturnLineFor(items, requests[i])
  {
    seq(|requests|, i requires 0 <= i < |requests| => ReturnLineFor(items, requests[i]))
  }

  ghost function NewReturn(s: Shop, order: OrderId, refund: int, requests: seq<ReturnRequest>): Return
    requires order in s.orders && OnSale(requests, s.orders[order].items)
  {
    Return(order, ReturnLines(s.orders[order].items, requests), refund, false, false, REQUESTED)
  }

  /** `create_return` */
  ghost function OpenReturn(s: Shop, id: ReturnId, order: OrderId, refund: int, requests: seq<ReturnRequest>): Outcome {
    if order !in s.orders then Refused(NOT_FOUND)
    else if s.orders[order].status !in FULFILLED then Refused(CONFLICT)
    else if !ReturnedOnce(requests) then Refused(BAD_REQUEST)
    else if !OnSale(requests, s.orders[order].items) then Refused(NOT_FOUND)
    else if !AllAllowed(s, order, requests) then Refused(BAD_REQUEST)
    else Done(s.(salesReturns := s.salesReturns[id := NewReturn(s, order, refund, requests)]))
  }

  /** The lines with something to restock. */
  ghost function RestockLines(lines: seq<ReturnLine>, n: nat): seq<Line>
    requires n <= |lines|
  {
    if n == 0 then []
    else if lines[n - 1].restock == 0 then RestockLines(lines, n - 1)
    else RestockLines(lines, n - 1) + [Line(lines[n - 1].variant, lines[n - 1].restock, 0)]
  }

  /** `receive_return` */
  ghost function ReceiveReturn(s: Shop, id: ReturnId): Outcome {
    if id !in s.salesReturns then Refused(NOT_FOUND)
    else
      var r := s.salesReturns[id];
      if r.received then Refused(CONFLICT)
      else match MoveAll(s, RestockLines(r.lines, |r.lines|), RETURN_RECEIVED, REFUSE)
           case Refused(e) => Refused(e)
           case Done(t) =>
             var status := if r.refunded then REFUNDED else RETURNED;
             Done(t.(salesReturns := s.salesReturns[id := r.(received := true, status := status)]))
  }

  /** `refund_return` */
  ghost function Refund(s: Shop, id: ReturnId): Outcome {
    if id !in s.salesReturns then Refused(NOT_FOUND)
    else
      var r := s.salesReturns[id];
      if r.refunded then Refused(CONFLICT)
      else if r.refund <= 0 then Refused(BAD_REQUEST)
      else if r.order !in s.orders then Refused(NOT_FOUND)
      else if Refunds(s.salesReturns, r.order) + r.refund > s.orders[r.order].total then Refused(BAD_REQUEST)
      else Done(s.(salesReturns := s.salesReturns[id := r.(refunded := true, status := REFUNDED)]))
  }

  // ---- Soundness ------------------------------------------------------------

  /** A change of the records alone. */
  lemma RecordsSound(s: Shop, purchases: map<PurchaseId, Purchase>, all: map<ReturnId, Return>)
    requires Sound(s)
    requires PurchasesOk(purchases) && ReturnsOk(all, s.orders) && PurchasesKnown(purchases, s.variants.Keys)
    requires forall v <- s.variants :: Bought(purchases, v) == Bought(s.purchases, v)
    requires forall v <- s.variants :: Restocked(all, v) == Restocked(s.salesReturns, v)
    ensures Sound(s.(purchases := purchases, salesReturns := all))
  {
    SupplyMoved(s, [], MANUAL_ADJUSTMENT, SKIP, purchases, all);
  }

  ghost function ReceivedOn(purchases: map<PurchaseId, Purchase>, id: PurchaseId, v: VariantId): int {
    if id in purchases then LinesReceived(purchases[id].lines, v) else 0
  }

  lemma PurchaseTables(s: Shop, id: PurchaseId, p: Purchase)
    requires PurchasesOk(s.purchases) && PurchasesKnown(s.purchases, s.variants.Keys)
    requires PurchaseOk(p) && LinesKnown(p.lines, s.variants.Keys)
    ensures PurchasesOk(s.purchases[id := p]) && PurchasesKnown(s.purchases[id := p], s.variants.Keys)
  {
  }

  /** A purchase written without receiving anything. */
  lemma PurchaseWritten(s: Shop, id: PurchaseId, p: Purchase)
    requires Sound(s) && PurchaseOk(p) && LinesKnown(p.lines, s.variants.Keys)
    requires forall v <- s.variants :: LinesReceived(p.lines, v) == ReceivedOn(s.purchases, id, v)
    ensures Sound(s.(purchases := s.purchases[id := p]))
  {
    PurchaseTables(s, id, p);
    forall v | v in s.variants
      ensures Bought(s.purchases[id := p], v) == Bought(s.purchases, v)
    {
      BoughtPut(s.purchases, id, p, v);
    }
    RecordsSound(s, s.purchases[id := p], s.salesReturns);
    assert s.(purchases := s.purchases[id := p], salesReturns := s.salesReturns)
           == s.(purchases := s.purchases[id := p]);
  }

  lemma {:induction false} NothingReceived(lines: seq<PurchaseLine>, n: nat, v: VariantId)
    requires n <= |lines| && forall line <- lines :: line.received == 0
    ensures LinesReceivedTo(lines, n, v) == 0
  {
    if n != 0 {
      NothingReceived(lines, n - 1, v);
      assert lines[n - 1] in lines;
    }
  }

  lemma DraftOk(requests: seq<PurchaseRequest>, known: set<VariantId>)
    requires requests != [] && (forall r <- requests :: 0 < r.ordered) && forall r <- requests :: r.variant in known
    ensures PurchaseOk(Draft(requests)) && LinesKnown(Draft(requests).lines, known)
    ensures forall line <- Draft(requests).lines :: line.received == 0
  {
    var p := Draft(requests);
    forall line | line in p.lines
      ensures line.received == 0 && 0 < line.ordered && line.variant in known
    {
      var i :| 0 <= i < |p.lines| && p.lines[i] == line;
      assert requests[i] in requests;
    }
    assert p.lines[0] in p.lines;
  }

  lemma BuySound(s: Shop, id: PurchaseId, supplierOk: bool, requests: seq<PurchaseRequest>)
    requires Sound(s) && id !in s.purchases
    requires requests != [] && forall r <- requests :: 0 < r.ordered
    requires Buy(s, id, supplierOk, requests).Done?
    ensures Sound(Buy(s, id, supplierOk, requests).shop)
  {
    var p := Draft(requests);
    DraftOk(requests, s.variants.Keys);
    forall v | v in s.variants
      ensures LinesReceived(p.lines, v) == ReceivedOn(s.purchases, id, v)
    {
      NothingReceived(p.lines, |p.lines|, v);
    }
    PurchaseWritten(s, id, p);
  }

  lemma UpdatePurchaseSound(s: Shop, id: PurchaseId, status: Option<PurchaseStatus>)
    requires Sound(s) && UpdatePurchase(s, id, status).Done?
    ensures Sound(UpdatePurchase(s, id, status).shop)
  {
    if status.Some? {
      var p := s.purchases[id];
      assert PurchaseOk(p) && LinesKnown(p.lines, s.variants.Keys);
      PurchaseWritten(s, id, p.(status := status.value));
    }
  }

  // ---- Receiving a purchase -------------------------------------------------

  function DeliveryLine(lines: seq<PurchaseLine>, d: Delivery): Line
    requires d.item < |lines|
  {
    Line(lines[d.item].variant, d.quantity, 0)
  }

  function DeliveryLines(lines: seq<PurchaseLine>, deliveries: seq<Delivery>): (moved: seq<Line>)
    requires forall d <- deliveries :: d.item < |lines|
    ensures |moved| == |deliveries| && forall i | 0 <= i < |moved| :: moved[i] == DeliveryLine(lines, deliveries[i])
  {
    seq(|deliveries|, i requires 0 <= i < |deliveries| => DeliveryLine(lines, deliveries[i]))
  }

  /** The same lines, further received. */
  ghost predicate Grown(lines: seq<PurchaseLine>, lines': seq<PurchaseLine>)
  {
    && |lines'| == |lines|
    && forall i | 0 <= i < |lines| ::
         && lines'[i].variant == lines[i].variant && lines'[i].ordered == lines[i].ordered
         && lines[i].received <= lines'[i].received <= lines[i].ordered
  }

  /** Receiving moves the delivered lines, and no line past what was ordered. */
  lemma {:induction false} ReceiveFirstIs(s: Shop, lines: seq<PurchaseLine>, deliveries: seq<Delivery>, n: nat)
    requires n <= |deliveries| && OnOrder(deliveries, lines)
    requires ReceiveFirst(s, lines, deliveries, n).Took?
    requires forall d <- deliveries :: 0 < d.quantity
    requires forall i | 0 <= i < |lines| :: lines[i].received <= lines[i].ordered
    ensures var r := ReceiveFirst(s, lines, deliveries, n);
            && MoveFirst(s, DeliveryLines(lines, deliveries), n, PURCHASE_RECEIVED, REFUSE) == Done(r.shop)
            && Grown(lines, r.lines)
            && (n != 0 ==> exists i :: 0 <= i < |lines| && lines[i].received < r.lines[i].received)
  {
    if n != 0 {
      ReceiveFirstIs(s, lines, deliveries, n - 1);
      var d := deliveries[n - 1];
      assert d in deliveries;
      var before := ReceiveFirst(s, lines, deliveries, n - 1);
      assert before.lines[d.item].variant == lines[d.item].variant;
      var after := ReceiveFirst(s, lines, deliveries, n).lines;
      assert lines[d.item].received < after[d.item].received;
    }
  }

  lemma {:induction false} OneLineMore(lines: seq<PurchaseLine>, d: Delivery, n: nat, v: VariantId)
    requires d.item < |lines| && n <= |lines|
    ensures LinesReceivedTo(Topped(lines, d), n, v)
         == LinesReceivedTo(lines, n, v) + if d.item < n && lines[d.item].variant == v then d.quantity else 0
  {
    if n != 0 {
      OneLineMore(lines, d, n - 1, v);
    }
  }

  /** And what the lines have received grows by what was moved. */
  lemma {:induction false} ReceiveFirstCounts(s: Shop, lines: seq<PurchaseLine>, deliveries: seq<Delivery>, n: nat,
                                              v: VariantId)
    requires n <= |deliveries| && OnOrder(deliveries, lines)
    requires ReceiveFirst(s, lines, deliveries, n).Took?
    requires forall k | 0 <= k < n :: forall i | 0 <= i < |lines| ::
               ReceiveFirst(s, lines, deliveries, k).Took? ==>
                 ReceiveFirst(s, lines, deliveries, k).lines[i].variant == lines[i].variant
    ensures LinesReceived(ReceiveFirst(s, lines, deliveries, n).lines, v)
         == LinesReceived(lines, v) + AvailableTo(DeliveryLines(lines, deliveries), n, v)
  {
    if n != 0 {
      ReceiveFirstCounts(s, lines, deliveries, n - 1, v);
      var before := ReceiveFirst(s, lines, deliveries, n - 1).lines;
      OneLineMore(before, deliveries[n - 1], |before|, v);
    }
  }

  lemma DeliveryCounts(s: Shop, p: Purchase, deliveries: seq<Delivery>, v: VariantId)
    requires PurchaseOk(p) && OnOrder(deliveries, p.lines) && forall d <- deliveries :: 0 < d.quantity
    requires ReceiveFirst(s, p.lines, deliveries, |deliveries|).Took?
    ensures LinesReceived(ReceiveFirst(s, p.lines, deliveries, |deliveries|).lines, v)
         == LinesReceived(p.lines, v) + Available(DeliveryLines(p.lines, deliveries), v)
  {
    forall k | 0 <= k < |deliveries| && ReceiveFirst(s, p.lines, deliveries, k).Took?
      ensures Grown(p.lines, ReceiveFirst(s, p.lines, deliveries, k).lines)
    {
      ReceiveFirstIs(s, p.lines, deliveries, k);
    }
    ReceiveFirstCounts(s, p.lines, deliveries, |deliveries|, v);
  }

  /** A delivery that was taken: the lines moved are its own, and the purchase is
      still in order. */
  lemma DeliveryTaken(s: Shop, p: Purchase, deliveries: seq<Delivery>, known: set<VariantId>)
    requires PurchaseOk(p) && LinesKnown(p.lines, known) && OnOrder(deliveries, p.lines)
    requires deliveries != [] && forall d <- deliveries :: 0 < d.quantity
    requires ReceiveFirst(s, p.lines, deliveries, |deliveries|).Took?
    ensures var r := ReceiveFirst(s, p.lines, deliveries, |deliveries|);
            && MoveAll(s, DeliveryLines(p.lines, deliveries), PURCHASE_RECEIVED, REFUSE) == Done(r.shop)
            && PurchaseOk(AfterReceipt(p, r.lines)) && LinesKnown(r.lines, known)
  {
    ReceiveFirstIs(s, p.lines, deliveries, |deliveries|);
  }

  lemma ReceivePurchaseSound(s: Shop, id: PurchaseId, deliveries: seq<Delivery>)
    requires Sound(s) && deliveries != [] && forall d <- deliveries :: 0 < d.quantity
    requires ReceivePurchase(s, id, deliveries).Done?
    ensures Sound(ReceivePurchase(s, id, deliveries).shop)
  {
    var p := s.purchases[id];
    assert PurchaseOk(p) && LinesKnown(p.lines, s.variants.Keys);
    DeliveryTaken(s, p, deliveries, s.variants.Keys);
    var r := ReceiveFirst(s, p.lines, deliveries, |deliveries|);
    var lines := DeliveryLines(p.lines, deliveries);
    forall v | v in s.variants
      ensures LinesReceived(r.lines, v) == LinesReceived(p.lines, v) + Available(lines, v)
    {
      DeliveryCounts(s, p, deliveries, v);
    }
    DeliveryMoved(s, id, AfterReceipt(p, r.lines), lines);
  }

  lemma DeliveryMoved(s: Shop, id: PurchaseId, p: Purchase, lines: seq<Line>)
    requires Sound(s) && id in s.purchases && PurchaseOk(p) && LinesKnown(p.lines, s.variants.Keys)
    requires MoveAll(s, lines, PURCHASE_RECEIVED, REFUSE).Done? && forall i | 0 <= i < |lines| :: lines[i].reserved == 0
    requires forall v <- s.variants ::
               LinesReceived(p.lines, v) == LinesReceived(s.purchases[id].lines, v) + Available(lines, v)
    ensures Sound(MoveAll(s, lines, PURCHASE_RECEIVED, REFUSE).shop.(purchases := s.purchases[id := p]))
  {
    MoveAllAdvances(s, lines, PURCHASE_RECEIVED, REFUSE);
    PurchaseTables(s, id, p);
    forall v | v in s.variants
      ensures Bought(s.purchases[id := p], v) == Bought(s.purchases, v) + Available(lines, v)
    {
      BoughtPut(s.purchases, id, p, v);
    }
    SupplyMoved(s, lines, PURCHASE_RECEIVED, REFUSE, s.purchases[id := p], s.salesReturns);
    var t := MoveAll(s, lines, PURCHASE_RECEIVED, REFUSE).shop;
    assert t.(purchases := s.purchases[id := p], salesReturns := s.salesReturns)
           == t.(purchases := s.purchases[id := p]);
  }

  // ---- Soundness of returns -------------------------------------------------

  ghost function RestockedOn(all: map<ReturnId, Return>, id: ReturnId, v: VariantId): int {
    if id in all then ReturnRestocked(all[id], v) else 0
  }

  /** A return written without restocking anything. */
  lemma ReturnWritten(s: Shop, id: ReturnId, r: Return)
    requires Sound(s) && ReturnsOk(s.salesReturns[id := r], s.orders)
    requires forall v <- s.variants :: ReturnRestocked(r, v) == RestockedOn(s.salesReturns, id, v)
    ensures Sound(s.(salesReturns := s.salesReturns[id := r]))
  {
    forall v | v in s.variants
      ensures Restocked(s.salesReturns[id := r], v) == Restocked(s.salesReturns, v)
    {
      RestockedPut(s.salesReturns, id, r, v);
    }
    RecordsSound(s, s.purchases, s.salesReturns[id := r]);
    assert s.(purchases := s.purchases, salesReturns := s.salesReturns[id := r])
           == s.(salesReturns := s.salesReturns[id := r]);
  }

  lemma {:induction false} ReturnedLines(items: seq<Item>, requests: seq<ReturnRequest>, n: nat, item: nat)
    requires n <= |requests| && OnSale(requests, items) && ReturnedOnce(requests)
    ensures (forall i | 0 <= i < n :: requests[i].item != item) ==>
            LinesReturnedTo(ReturnLines(items, requests), n, item) == 0
    ensures forall i | 0 <= i < n :: requests[i].item == item ==>
              LinesReturnedTo(ReturnLines(items, requests), n, item) == requests[i].quantity
  {
    if n != 0 {
      ReturnedLines(items, requests, n - 1, item);
    }
  }

  /** What a new return takes from one line of the order stays within it. */
  lemma StaysWithin(s: Shop, order: OrderId, requests: seq<ReturnRequest>, item: nat)
    requires order in s.orders && OnSale(requests, s.orders[order].items) && ReturnedOnce(requests)
    requires AllAllowed(s, order, requests) && item < |s.orders[order].items|
    requires Returned(s.salesReturns, order, item) <= s.orders[order].items[item].quantity
    ensures Returned(s.salesReturns, order, item) + LinesReturned(ReturnLines(s.orders[order].items, requests), item)
         <= s.orders[order].items[item].quantity
  {
    ReturnedLines(s.orders[order].items, requests, |requests|, item);
    if i :| 0 <= i < |requests| && requests[i].item == item {
      assert requests[i] in requests;
      assert Allowed(s, order, requests[i]);
    }
  }

  lemma NewReturnOk(s: Shop, order: OrderId, refund: int, requests: seq<ReturnRequest>)
    requires order in s.orders && OnSale(requests, s.orders[order].items) && AllAllowed(s, order, requests)
    requires 0 <= refund && forall r <- requests :: 0 < r.quantity && 0 <= r.restock
    ensures ReturnOk(NewReturn(s, order, refund, requests), s.orders)
  {
    var r := NewReturn(s, order, refund, requests);
    forall line | line in r.lines
      ensures ReturnLineOk(line, s.orders[order].items)
    {
      var i :| 0 <= i < |r.lines| && r.lines[i] == line;
      assert requests[i] in requests;
      assert Allowed(s, order, requests[i]);
    }
  }

  lemma OpenReturnWithin(s: Shop, id: ReturnId, order: OrderId, refund: int, requests: seq<ReturnRequest>, k: OrderId)
    requires ReturnsOk(s.salesReturns, s.orders) && id !in s.salesReturns && k in s.orders
    requires order in s.orders && OnSale(requests, s.orders[order].items) && ReturnedOnce(requests)
    requires AllAllowed(s, order, requests)
    ensures WithinOrder(s.salesReturns[id := NewReturn(s, order, refund, requests)], s.orders, k)
  {
    var r := NewReturn(s, order, refund, requests);
    var all := s.salesReturns[id := r];
    assert WithinOrder(s.salesReturns, s.orders, k);
    forall item | 0 <= item < |s.orders[k].items|
      ensures Returned(all, k, item) <= s.orders[k].items[item].quantity
    {
      ReturnedPut(s.salesReturns, id, r, k, item);
      if k == order {
        StaysWithin(s, order, requests, item);
      }
    }
    RefundsPut(s.salesReturns, id, r, k);
  }

  lemma OpenReturnTables(s: Shop, id: ReturnId, order: OrderId, refund: int, requests: seq<ReturnRequest>)
    requires ReturnsOk(s.salesReturns, s.orders) && id !in s.salesReturns
    requires 0 <= refund && forall r <- requests :: 0 < r.quantity && 0 <= r.restock
    requires order in s.orders && OnSale(requests, s.orders[order].items) && ReturnedOnce(requests)
    requires AllAllowed(s, order, requests)
    ensures ReturnsOk(s.salesReturns[id := NewReturn(s, order, refund, requests)], s.orders)
  {
    NewReturnOk(s, order, refund, requests);
    forall k | k in s.orders
      ensures WithinOrder(s.salesReturns[id := NewReturn(s, order, refund, requests)], s.orders, k)
    {
      OpenReturnWithin(s, id, order, refund, requests, k);
    }
  }

  lemma OpenReturnSound(s: Shop, id: ReturnId, order: OrderId, refund: int, requests: seq<ReturnRequest>)
    requires Sound(s) && id !in s.salesReturns
    requires 0 <= refund && forall r <- requests :: 0 < r.quantity && 0 <= r.restock
    requires OpenReturn(s, id, order, refund, requests).Done?
    ensures Sound(OpenReturn(s, id, order, refund, requests).shop)
  {
    OpenReturnTables(s, id, order, refund, requests);
    ReturnWritten(s, id, NewReturn(s, order, refund, requests));
  }

  /** Changing a return without its lines leaves what was returned. */
  lemma SameLines(all: map<ReturnId, Return>, orders: map<OrderId, Order>, id: ReturnId, r: Return, k: OrderId)
    requires id in all && k in orders && WithinOrder(all, orders, k)
    requires r.order == all[id].order && r.lines == all[id].lines
    ensures forall item | 0 <= item < |orders[k].items| ::
            Returned(all[id := r], k, item) <= orders[k].items[item].quantity
  {
    forall item | 0 <= item < |orders[k].items|
      ensures Returned(all[id := r], k, item) <= orders[k].items[item].quantity
    {
      ReturnedPut(all, id, r, k, item);
    }
  }

  /** A change of a return that leaves its lines, its order and its refund. */
  lemma SameLinesTables(all: map<ReturnId, Return>, orders: map<OrderId, Order>, id: ReturnId, r: Return)
    requires ReturnsOk(all, orders) && id in all && ReturnOk(r, orders)
    requires r.order == all[id].order && r.lines == all[id].lines
    requires r.refunded == all[id].refunded && r.refund == all[id].refund
    ensures ReturnsOk(all[id := r], orders)
  {
    forall k | k in orders
      ensures WithinOrder(all[id := r], orders, k)
    {
      SameLines(all, orders, id, r, k);
      RefundsPut(all, id, r, k);
    }
  }

  /** A refund that stays within the order's total. */
  lemma RefundTables(all: map<ReturnId, Return>, orders: map<OrderId, Order>, id: ReturnId, r: Return)
    requires ReturnsOk(all, orders) && id in all && ReturnOk(r, orders) && !all[id].refunded
    requires r.order == all[id].order && r.lines == all[id].lines && r.refunded
    requires Refunds(all, r.order) + r.refund <= orders[r.order].total
    ensures ReturnsOk(all[id := r], orders)
  {
    forall k | k in orders
      ensures WithinOrder(all[id := r], orders, k)
    {
      SameLines(all, orders, id, r, k);
      RefundsPut(all, id, r, k);
    }
  }

  lemma RefundSound(s: Shop, id: ReturnId)
    requires Sound(s) && Refund(s, id).Done?
    ensures Sound(Refund(s, id).shop)
  {
    var r := s.salesReturns[id].(refunded := true, status := REFUNDED);
    assert ReturnOk(s.salesReturns[id], s.orders);
    RefundTables(s.salesReturns, s.orders, id, r);
    ReturnWritten(s, id, r);
  }

  lemma {:induction false} RestockLinesAre(lines: seq<ReturnLine>, n: nat, v: VariantId)
    requires n <= |lines|
    ensures Available(RestockLines(lines, n), v) == LinesRestockedTo(lines, n, v)
    ensures forall line <- RestockLines(lines, n) :: line.reserved == 0
  {
    if n != 0 {
      RestockLinesAre(lines, n - 1, v);
      if lines[n - 1].restock != 0 {
        AvailableAppend(RestockLines(lines, n - 1), Line(lines[n - 1].variant, lines[n - 1].restock, 0), v);
      }
    }
  }

  lemma {:induction false} AvailablePrefix(lines: seq<Line>, line: Line, n: nat, v: VariantId)
    requires n <= |lines|
    ensures AvailableTo(lines + [line], n, v) == AvailableTo(lines, n, v)
  {
    if n != 0 {
      AvailablePrefix(lines, line, n - 1, v);
    }
  }

  lemma AvailableAppend(lines: seq<Line>, line: Line, v: VariantId)
    ensures Available(lines + [line], v) == Available(lines, v) + if line.variant == v then line.available else 0
  {
    AvailablePrefix(lines, line, |lines|, v);
  }

  lemma RestockMoved(s: Shop, id: ReturnId, r: Return, lines: seq<Line>)
    requires Sound(s) && id in s.salesReturns && ReturnsOk(s.salesReturns[id := r], s.orders)
    requires MoveAll(s, lines, RETURN_RECEIVED, REFUSE).Done? && forall line <- lines :: line.reserved == 0
    requires forall v <- s.variants :: ReturnRestocked(r, v) == RestockedOn(s.salesReturns, id, v) + Available(lines, v)
    ensures Sound(MoveAll(s, lines, RETURN_RECEIVED, REFUSE).shop.(salesReturns := s.salesReturns[id := r]))
  {
    MoveAllAdvances(s, lines, RETURN_RECEIVED, REFUSE);
    forall v | v in s.variants
      ensures Restocked(s.salesReturns[id := r], v) == Restocked(s.salesReturns, v) + Available(lines, v)
    {
      RestockedPut(s.salesReturns, id, r, v);
    }
    SupplyMoved(s, lines, RETURN_RECEIVED, REFUSE, s.purchases, s.salesReturns[id := r]);
    var t := MoveAll(s, lines, RETURN_RECEIVED, REFUSE).shop;
    assert t.(purchases := s.purchases, salesReturns := s.salesReturns[id := r])
           == t.(salesReturns := s.salesReturns[id := r]);
  }

  lemma ReceiveReturnSound(s: Shop, id: ReturnId)
    requires Sound(s) && ReceiveReturn(s, id).Done?
    ensures Sound(ReceiveReturn(s, id).shop)
  {
    var was := s.salesReturns[id];
    var r := was.(received := true, status := if was.refunded then REFUNDED else RETURNED);
    var lines := RestockLines(was.lines, |was.lines|);
    assert ReturnOk(was, s.orders);
    SameLinesTables(s.salesReturns, s.orders, id, r);
    RestockLinesAre(was.lines, |was.lines|, 0);
    forall v | v in s.variants
      ensures ReturnRestocked(r, v) == RestockedOn(s.salesReturns, id, v) + Available(lines, v)
    {
      RestockLinesAre(was.lines, |was.lines|, v);
    }
    RestockMoved(s, id, r, lines);
  }

  /** Receiving a return always succeeds, once. */
  lemma ReceiveReturnSucceeds(s: Shop, id: ReturnId)
    requires Sound(s) && id in s.salesReturns && !s.salesReturns[id].received
    ensures ReceiveReturn(s, id).Done?
  {
    var r := s.salesReturns[id];
    assert ReturnOk(r, s.orders);
    BooksNonNegative(s.variants, s.ledger);
    RestockLinesKnown(s, r, |r.lines|);
    var lines := RestockLines(r.lines, |r.lines|);
    forall v | v in s.variants
      ensures 0 <= Available(lines, v) && 0 <= Reserving(lines, v)
    {
      OneWaySums(lines, 0, |lines|, v);
    }
    MoveAllVerdict(s, lines, RETURN_RECEIVED, REFUSE);
  }

  lemma {:induction false} RestockLinesKnown(s: Shop, r: Return, n: nat)
    requires n <= |r.lines| && OrdersKnown(s.orders, s.variants.Keys) && ReturnOk(r, s.orders)
    ensures Present(s, RestockLines(r.lines, n)) && Adds(RestockLines(r.lines, n)) && Reserves(RestockLines(r.lines, n))
  {
    if n != 0 {
      RestockLinesKnown(s, r, n - 1);
      assert r.lines[n - 1] in r.lines;
      assert ReturnLineOk(r.lines[n - 1], s.orders[r.order].items);
      assert s.orders[r.order].items[r.lines[n - 1].item] in s.orders[r.order].items;
      assert ItemsKnown(s.orders[r.order].items, s.variants.Keys);
    }
  }
}
