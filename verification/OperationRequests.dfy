/** The purchasing and returns endpoints, as they run against the tables. */
module OperationRequests {
  import opened Lifecycle
  import opened Wrappers
  import opened Sums
  import opened Inventory
  import opened Invariants
  import opened Operations
  import opened Database

  // ---- Purchase orders ------------------------------------------------------

  method CreatePurchaseOrder(db: Tables, id: PurchaseId, supplierOk: bool, requests: seq<PurchaseRequest>)
    returns (error: Option<Error>)
    modifies db
    ensures db.Answers(Buy(old(db.State()), id, supplierOk, requests), old(db.State()), error)
  {
    if !supplierOk {
      return Some(NOT_FOUND);
    }
    var seen: set<VariantId>, i := {}, 0;
    while i < |requests|
      invariant 0 <= i <= |requests|
      invariant forall k | 0 <= k < i :: requests[k].variant in seen
      invariant forall v <- seen :: exists k :: 0 <= k < i && requests[k].variant == v
      invariant forall j, k | 0 <= j < k < i :: requests[j].variant != requests[k].variant
    {
      if requests[i].variant in seen {
        return Some(BAD_REQUEST);
      }
      seen := seen + {requests[i].variant};
      i := i + 1;
    }
    if exists r <- requests :: r.variant !in db.variants {
      return Some(NOT_FOUND);
    }
    var lines := [];
    i := 0;
    while i < |requests|
      invariant 0 <= i <= |requests|
      invariant lines == Draft(requests).lines[..i]
    {
      lines := lines + [PurchaseLine(requests[i].variant, requests[i].ordered, 0)];
      i := i + 1;
    }
    assert lines == Draft(requests).lines;
    db.purchases := db.purchases[id := Purchase(DRAFT, lines)];
    return None;
  }

  method UpdatePurchaseOrder(db: Tables, id: PurchaseId, status: Option<PurchaseStatus>) returns (error: Option<Error>)
    modifies db
    ensures db.Answers(UpdatePurchase(old(db.State()), id, status), old(db.State()), error)
  {
    if id !in db.purchases {
      return Some(NOT_FOUND);
    }
    var p := db.purchases[id];
    if status.Some? {
      var allowed := (p.status == DRAFT && (status.value == ORDERED || status.value == PURCHASE_CANCELLED))
                  || (p.status == ORDERED && status.value == PURCHASE_CANCELLED);
      if !allowed {
        return Some(CONFLICT);
      }
      db.purchases := db.purchases[id := p.(status := status.value)];
    }
    return None;
  }

  lemma {:induction false} ReceiveStops(s: Shop, lines: seq<PurchaseLine>, deliveries: seq<Delivery>, n: nat)
    requires n <= |deliveries| && OnOrder(deliveries, lines)
    requires ReceiveFirst(s, lines, deliveries, n).Turned?
    ensures ReceiveFirst(s, lines, deliveries, |deliveries|) == ReceiveFirst(s, lines, deliveries, n)
    decreases |deliveries| - n
  {
    if n < |deliveries| {
      ReceiveStops(s, lines, deliveries, n + 1);
    }
  }

  lemma {:induction false} ReceiveLinks(s: Shop, lines: seq<PurchaseLine>, deliveries: seq<Delivery>, n: nat)
    requires n <= |deliveries| && OnOrder(deliveries, lines) && Linked(s)
    requires ReceiveFirst(s, lines, deliveries, n).Took?
    ensures var t := ReceiveFirst(s, lines, deliveries, n).shop; Linked(t) && t.purchases == s.purchases
  {
    if n != 0 {
      ReceiveLinks(s, lines, deliveries, n - 1);
      var before := ReceiveFirst(s, lines, deliveries, n - 1);
      assert deliveries[n - 1] in deliveries;
    }
  }

  /** One delivered line of the loop below, `i` having been taken. */
  method ReceiveLine(db: Tables, lines: seq<PurchaseLine>, d: Delivery,
                     ghost s: Shop, ghost ordered: seq<PurchaseLine>, ghost deliveries: seq<Delivery>, ghost i: nat)
    returns (lines': seq<PurchaseLine>, error: Option<Error>)
    requires Linked(s) && i < |deliveries| && d == deliveries[i] && OnOrder(deliveries, ordered)
    requires ReceiveFirst(s, ordered, deliveries, i) == Took(db.State(), lines)
    modifies db
    ensures error.None? ==> ReceiveFirst(s, ordered, deliveries, i + 1) == Took(db.State(), lines')
    ensures error.Some? ==> ReceiveFirst(s, ordered, deliveries, |deliveries|) == Turned(error.value)
  {
    ReceiveLinks(s, ordered, deliveries, i);
    assert d in deliveries;
    if ReceiveFirst(s, ordered, deliveries, i + 1).Turned? {
      ReceiveStops(s, ordered, deliveries, i + 1);
    }
    var line := lines[d.item];
    if line.received + d.quantity > line.ordered {
      return lines, Some(BAD_REQUEST);
    }
    if line.variant !in db.variants {
      return lines, Some(MISSING_VARIANT);
    }
    error := db.MoveStock(line.variant, d.quantity, 0, PURCHASE_RECEIVED);
    lines' := lines[d.item := line.(received := line.received + d.quantity)];
  }

  /** The loop of `receive_purchase`. */
  method ReceiveLines(db: Tables, lines: seq<PurchaseLine>, deliveries: seq<Delivery>)
    returns (received: seq<PurchaseLine>, error: Option<Error>)
    requires Linked(db.State()) && OnOrder(deliveries, lines)
    modifies db
    ensures var r := ReceiveFirst(old(db.State()), lines, deliveries, |deliveries|);
            if r.Took? then error.None? && db.State() == r.shop && received == r.lines else error == Some(r.error)
  {
    ghost var s := db.State();
    received, error := lines, None;
    var i := 0;
    while i < |deliveries|
      invariant 0 <= i <= |deliveries|
      invariant ReceiveFirst(s, lines, deliveries, i) == Took(db.State(), received)
      invariant error.None?
    {
      received, error := ReceiveLine(db, received, deliveries[i], s, lines, deliveries, i);
      if error.Some? {
        return;
      }
      i := i + 1;
    }
  }

  method ReceivePurchaseOrder(db: Tables, id: PurchaseId, deliveries: seq<Delivery>) returns (error: Option<Error>)
    requires Linked(db.State())
    modifies db
    ensures db.Answers(ReceivePurchase(old(db.State()), id, deliveries), old(db.State()), error)
  {
    if id !in db.purchases {
      return Some(NOT_FOUND);
    }
    var p := db.purchases[id];
    if p.status != ORDERED && p.status != PARTIALLY_RECEIVED {
      return Some(CONFLICT);
    }
    if exists i, j | 0 <= i < j < |deliveries| :: deliveries[i].item == deliveries[j].item {
      return Some(BAD_REQUEST);
    }
    if exists d <- deliveries :: d.item >= |p.lines| {
      return Some(NOT_FOUND);
    }
    var saved := db.State();
    var lines;
    lines, error := ReceiveLines(db, p.lines, deliveries);
    if error.Some? {
      db.Rollback(saved);
      return;
    }
    ReceiveLinks(saved, p.lines, deliveries, |deliveries|);
    var complete := forall line <- lines :: line.received == line.ordered;
    db.purchases := db.purchases[id := p.(lines := lines, status := if complete then RECEIVED else PARTIALLY_RECEIVED)];
  }

  // ---- Returns --------------------------------------------------------------

  lemma ReturnedTake(all: map<ReturnId, Return>, id: ReturnId, order: OrderId, item: nat)
    requires id in all
    ensures Returned(all, order, item) == ReturnedBy(all[id], order, item) + Returned(all - {id}, order, item)
  {
    SumPick(ReturnedColumn(all, order, item), id);
    assert ReturnedColumn(all, order, item) - {id} == ReturnedColumn(all - {id}, order, item);
  }

  /** How much of an order's line earlier returns have taken. */
  method CountReturned(all: map<ReturnId, Return>, order: OrderId, item: nat) returns (already: int)
    ensures already == Returned(all, order, item)
  {
    already := 0;
    var left := all;
    while left != map[]
      invariant already + Returned(left, order, item) == Returned(all, order, item)
      decreases |left|
    {
      var id :| id in left.Keys;
      ReturnedTake(left, id, order, item);
      if left[id].order == order {
        var lines, i, n := left[id].lines, 0, 0;
        while i < |lines|
          invariant 0 <= i <= |lines| && n == LinesReturnedTo(lines, i, item)
        {
          if lines[i].item == item {
            n := n + lines[i].quantity;
          }
          i := i + 1;
        }
        already := already + n;
      }
      left := left - {id};
    }
  }

  lemma RefundsTake(all: map<ReturnId, Return>, id: ReturnId, order: OrderId)
    requires id in all
    ensures Refunds(all, order) == RefundBy(all[id], order) + Refunds(all - {id}, order)
  {
    SumPick(RefundColumn(all, order), id);
    assert RefundColumn(all, order) - {id} == RefundColumn(all - {id}, order);
  }

  /** What has been refunded on an order. */
  method SumRefunds(all: map<ReturnId, Return>, order: OrderId) returns (refunded: int)
    ensures refunded == Refunds(all, order)
  {
    refunded := 0;
    var left := all;
    while left != map[]
      invariant refunded + Refunds(left, order) == Refunds(all, order)
      decreases |left|
    {
      var id :| id in left.Keys;
      RefundsTake(left, id, order);
      if left[id].order == order && left[id].refunded {
        refunded := refunded + left[id].refund;
      }
      left := left - {id};
    }
  }

  method CheckReturn(db: Tables, order: OrderId, r: ReturnRequest) returns (ok: bool)
    requires order in db.orders && r.item < |db.orders[order].items|
    ensures ok == Allowed(db.State(), order, r)
  {
    if r.restock > r.quantity {
      return false;
    }
    var already := CountReturned(db.salesReturns, order, r.item);
    return already + r.quantity <= db.orders[order].items[r.item].quantity;
  }

  /** The loop of `create_return`. */
  method CollectReturn(db: Tables, order: OrderId, requests: seq<ReturnRequest>)
    returns (lines: seq<ReturnLine>, ok: bool)
    requires order in db.orders && OnSale(requests, db.orders[order].items)
    ensures ok == AllAllowed(db.State(), order, requests)
    ensures ok ==> lines == ReturnLines(db.orders[order].items, requests)
  {
    var items := db.orders[order].items;
    lines := [];
    var i := 0;
    while i < |requests|
      invariant 0 <= i <= |requests|
      invariant lines == ReturnLines(items, requests)[..i]
      invariant forall k | 0 <= k < i :: Allowed(db.State(), order, requests[k])
    {
      ok := CheckReturn(db, order, requests[i]);
      assert requests[i] in requests;
      if !ok {
        return;
      }
      lines := lines + [ReturnLine(requests[i].item, items[requests[i].item].variant, requests[i].quantity,
                                   requests[i].restock)];
      i := i + 1;
    }
    ok := true;
  }

  method CreateReturn(db: Tables, id: ReturnId, order: OrderId, refund: int, requests: seq<ReturnRequest>)
    returns (error: Option<Error>)
    modifies db
    ensures db.Answers(OpenReturn(old(db.State()), id, order, refund, requests), old(db.State()), error)
  {
    if order !in db.orders {
      return Some(NOT_FOUND);
    }
    var o := db.orders[order];
    if o.status != SHIPPED && o.status != DELIVERED {
      return Some(CONFLICT);
    }
    if exists i, j | 0 <= i < j < |requests| :: requests[i].item == requests[j].item {
      return Some(BAD_REQUEST);
    }
    if exists r <- requests :: r.item >= |o.items| {
      return Some(NOT_FOUND);
    }
    var lines, ok := CollectReturn(db, order, requests);
    if !ok {
      return Some(BAD_REQUEST);
    }
    db.salesReturns := db.salesReturns[id := Return(order, lines, refund, false, false, REQUESTED)];
    return None;
  }

  lemma {:induction false} RestockPrefix(lines: seq<ReturnLine>, n: nat)
    requires n <= |lines|
    ensures |RestockLines(lines, n)| <= |RestockLines(lines, |lines|)|
    ensures RestockLines(lines, n) == RestockLines(lines, |lines|)[..|RestockLines(lines, n)|]
    decreases |lines| - n
  {
    if n < |lines| {
      RestockPrefix(lines, n + 1);
    }
  }

  /** The loop of `receive_return`, which passes over lines with nothing to
      restock. */
  method RestockEach(db: Tables, lines: seq<ReturnLine>) returns (error: Option<Error>)
    requires Linked(db.State())
    modifies db
    ensures db.Ended(MoveAll(old(db.State()), RestockLines(lines, |lines|), RETURN_RECEIVED, REFUSE), error)
  {
    ghost var s, moved := db.State(), RestockLines(lines, |lines|);
    ghost var done: nat := 0;
    var i := 0;
    while i < |lines|
      invariant 0 <= i <= |lines| && done == |RestockLines(lines, i)| <= |moved|
      invariant MoveFirst(s, moved, done, RETURN_RECEIVED, REFUSE) == Done(db.State())
    {
      RestockPrefix(lines, i + 1);
      if lines[i].restock != 0 {
        assert RestockLines(lines, i + 1)[done] == moved[done];
        error := db.MoveLine(Line(lines[i].variant, lines[i].restock, 0), RETURN_RECEIVED, REFUSE, s, moved, done);
        if error.Some? {
          return;
        }
        done := done + 1;
      }
      i := i + 1;
    }
    error := None;
  }

  method ReceiveSalesReturn(db: Tables, id: ReturnId) returns (error: Option<Error>)
    requires Linked(db.State())
    modifies db
    ensures db.Answers(ReceiveReturn(old(db.State()), id), old(db.State()), error)
  {
    if id !in db.salesReturns {
      return Some(NOT_FOUND);
    }
    var r := db.salesReturns[id];
    if r.received {
      return Some(CONFLICT);
    }
    var saved := db.State();
    error := RestockEach(db, r.lines);
    if error.Some? {
      db.Rollback(saved);
      return;
    }
    MoveAllLinks(saved, RestockLines(r.lines, |r.lines|), RETURN_RECEIVED, REFUSE);
    db.salesReturns := db.salesReturns[id := r.(received := true, status := if r.refunded then REFUNDED else RETURNED)];
  }

  method RefundSalesReturn(db: Tables, id: ReturnId) returns (error: Option<Error>)
    modifies db
    ensures db.Answers(Refund(old(db.State()), id), old(db.State()), error)
  {
    if id !in db.salesReturns {
      return Some(NOT_FOUND);
    }
    var r := db.salesReturns[id];
    if r.refunded {
      return Some(CONFLICT);
    }
    if r.refund <= 0 {
      return Some(BAD_REQUEST);
    }
    if r.order !in db.orders {
      return Some(NOT_FOUND);
    }
    var refunded := SumRefunds(db.salesReturns, r.order);
    if refunded + r.refund > db.orders[r.order].total {
      return Some(BAD_REQUEST);
    }
    db.salesReturns := db.salesReturns[id := r.(refunded := true, status := REFUNDED)];
    return None;
  }
}
