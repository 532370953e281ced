/** What each order request leaves behind, row by row: the order as it is stored,
    the shelf and the reserve of every variant, and the entries of the ledger. */
module OrderEffects {
  import opened Lifecycle
  import opened Listings
  import opened Sums
  import opened Wrappers

  import opened Inventory
  import opened Invariants
  import opened Orders

  // ---- What a requested line means ------------------------------------------

  /** The line asks for this variant: it names it, or names none and it is the
      product's only active one; both are on sale. */
  ghost predicate Means(s: Shop, r: Request, v: VariantId)
  {
    && r.product in s.products && s.products[r.product].active
    && v in s.variants && s.variants[v].product == r.product && s.variants[v].active
    && (r.variant == Some(v) || (r.variant == None && OnlyActive(s, r.product, v)))
  }

  /** A line is taken for a variant exactly when it means it, and otherwise is
      not found, when its product or the variant it names is not there, or bad. */
  lemma ResolveIs(s: Shop, r: Request)
    ensures forall v :: Resolve(s, r) == Chosen(v) <==> Means(s, r, v)
    ensures Resolve(s, r) == Rejected(NOT_FOUND) <==>
              || r.product !in s.products
              || (s.products[r.product].active && r.variant.Some?
                  && (r.variant.value !in s.variants || s.variants[r.variant.value].product != r.product))
    ensures Resolve(s, r).Rejected? ==> Resolve(s, r).error in {NOT_FOUND, BAD_REQUEST}
  {
    if r.product in s.products && r.variant == None {
      forall v: VariantId
        ensures ActiveOf(s.variants, r.product) == {v} <==> OnlyActive(s, r.product, v)
      {
        OnlyActiveIs(s, r.product, v);
      }
    }
  }

  ghost predicate OnlyActive(s: Shop, p: ProductId, v: VariantId)
  {
    && v in s.variants && s.variants[v].product == p && s.variants[v].active
    && forall w <- s.variants :: s.variants[w].product == p && s.variants[w].active ==> w == v
  }

  lemma OnlyActiveIs(s: Shop, p: ProductId, v: VariantId)
    ensures ActiveOf(s.variants, p) == {v} <==> OnlyActive(s, p, v)
  {
    var active := ActiveOf(s.variants, p);
    assert v in active <==> v in s.variants && s.variants[v].product == p && s.variants[v].active;
    if OnlyActive(s, p, v) {
      assert active == {v};
    } else if active == {v} {
      forall w | w in s.variants && s.variants[w].product == p && s.variants[w].active
        ensures w == v
      {
        assert w in active;
      }
    }
  }

  ghost function MeantTo(s: Shop, requests: seq<Request>, n: nat, v: VariantId): int
    requires n <= |requests|
  {
    if n == 0 then 0
    else MeantTo(s, requests, n - 1, v) + if Means(s, requests[n - 1], v) then requests[n - 1].quantity else 0
  }

  /** What all lines together ask of one variant. */
  ghost function Meant(s: Shop, requests: seq<Request>, v: VariantId): int {
    MeantTo(s, requests, |requests|, v)
  }

  lemma {:induction false} MeantIsAsked(s: Shop, requests: seq<Request>, n: nat, v: VariantId)
    requires n <= |requests|
    ensures MeantTo(s, requests, n, v) == AskedTo(s, requests, n, v)
  {
    if n != 0 {
      MeantIsAsked(s, requests, n - 1, v);
      ResolveIs(s, requests[n - 1]);
    }
  }

  ghost predicate MeansSome(s: Shop, r: Request)
  {
    exists v :: Means(s, r, v)
  }

  ghost predicate Meaningful(s: Shop, requests: seq<Request>, n: nat)
    requires n <= |requests|
  {
    forall i | 0 <= i < n :: MeansSome(s, requests[i])
  }

  ghost predicate MeantAmong(s: Shop, requests: seq<Request>, n: nat, v: VariantId)
    requires n <= |requests|
  {
    exists i :: 0 <= i < n && Means(s, requests[i], v)
  }

  lemma MeaningfulNext(s: Shop, requests: seq<Request>, n: nat)
    requires 0 < n <= |requests|
    ensures Meaningful(s, requests, n)
            <==> Meaningful(s, requests, n - 1) && MeansSome(s, requests[n - 1])
    ensures forall v :: MeantAmong(s, requests, n, v)
                        <==> MeantAmong(s, requests, n - 1, v) || Means(s, requests[n - 1], v)
  {
  }

  /** The lines merge exactly when each means a variant, into those variants. */
  lemma {:induction false} MergedIs(s: Shop, requests: seq<Request>, n: nat)
    requires n <= |requests|
    ensures MergeFirst(s, requests, n).Merged? <==> Meaningful(s, requests, n)
    ensures MergeFirst(s, requests, n).Merged? ==>
              forall v :: v in MergeFirst(s, requests, n).quantities <==> MeantAmong(s, requests, n, v)
  {
    if n != 0 {
      MergedIs(s, requests, n - 1);
      MeaningfulNext(s, requests, n);
      ResolveIs(s, requests[n - 1]);
      var choice := Resolve(s, requests[n - 1]);
      if choice.Chosen? {
        assert Means(s, requests[n - 1], choice.variant);
      }
    }
  }

  // ---- What an order costs --------------------------------------------------

  /** The cost of the first `n` variants, one row for every variant of the shop. */
  ghost function CostColumn(s: Shop, quantities: map<VariantId, int>, ids: seq<VariantId>, n: nat): map<nat, int>
    requires n <= |ids| && forall v <- ids :: v in quantities
  {
    map v <- s.variants :: if v in ids[..n] then quantities[v] * s.variants[v].price else 0
  }

  lemma ChargeNext(s: Shop, quantities: map<VariantId, int>, ids: seq<VariantId>, n: nat)
    requires 0 < n <= |ids| && forall v <- ids :: v in quantities && v in s.variants
    ensures var items := Basket(s, quantities, ids);
            ChargeTo(items, n) == ChargeTo(items, n - 1) + quantities[ids[n - 1]] * s.variants[ids[n - 1]].price
  {
    var items := Basket(s, quantities, ids);
    assert items[n - 1] == ItemFor(s, quantities, ids[n - 1]);
  }

  lemma {:induction false} BasketCost(s: Shop, quantities: map<VariantId, int>, ids: seq<VariantId>, n: nat)
    requires n <= |ids| && forall v <- ids :: v in quantities && v in s.variants
    requires forall i, j | 0 <= i < j < |ids| :: ids[i] != ids[j]
    ensures ChargeTo(Basket(s, quantities, ids), n) == Sum(CostColumn(s, quantities, ids, n))
  {
    if n == 0 {
      SumZero(CostColumn(s, quantities, ids, 0));
    } else {
      BasketCost(s, quantities, ids, n - 1);
      ChargeNext(s, quantities, ids, n);
      CostNext(s, quantities, ids, n);
    }
  }

  lemma CostNext(s: Shop, quantities: map<VariantId, int>, ids: seq<VariantId>, n: nat)
    requires 0 < n <= |ids| && forall v <- ids :: v in quantities && v in s.variants
    requires forall i, j | 0 <= i < j < |ids| :: ids[i] != ids[j]
    ensures Sum(CostColumn(s, quantities, ids, n))
         == Sum(CostColumn(s, quantities, ids, n - 1)) + quantities[ids[n - 1]] * s.variants[ids[n - 1]].price
  {
    var before, v := CostColumn(s, quantities, ids, n - 1), ids[n - 1];
    assert v in ids && v !in ids[..n - 1];
    assert ids[..n] == ids[..n - 1] + [v];
    assert CostColumn(s, quantities, ids, n) == before[v := quantities[v] * s.variants[v].price];
    SumPut(before, v, quantities[v] * s.variants[v].price);
  }

  // ---- Moving an order's lines ----------------------------------------------

  /** One ledger entry of the kind for each item, after the entries there were. */
  ghost predicate Posted(s: Shop, t: Shop, items: seq<Item>, kind: Kind, a: Sign)
  {
    && |t.ledger| == |s.ledger| + |items| && t.ledger[..|s.ledger|] == s.ledger
    && forall i | 0 <= i < |items| ::
         var m := t.ledger[|s.ledger| + i];
         m.variant == Some(items[i].variant) && m.kind == kind && m.delta == Signed(a, items[i].quantity)
  }

  /** Shelf and reserve of every variant move by what the items hold of it, and
      nothing else of it changes. */
  ghost predicate Shifts(s: Shop, t: Shop, items: seq<Item>, a: Sign, r: Sign)
  {
    && t.variants.Keys == s.variants.Keys
    && forall v <- s.variants ::
         t.variants[v] == s.variants[v].(stock := s.variants[v].stock + Signed(a, Quantity(items, v)),
                                         reserved := s.variants[v].reserved + Signed(r, Quantity(items, v)))
  }

  lemma LinesShift(s: Shop, items: seq<Item>, a: Sign, r: Sign, kind: Kind, missing: Missing)
    requires MoveAll(s, Lines(items, a, r), kind, missing).Done? && ItemsKnown(items, s.variants.Keys)
    ensures var t := MoveAll(s, Lines(items, a, r), kind, missing).shop;
            Shifts(s, t, items, a, r) && Posted(s, t, items, kind, a) && RecordsKept(s, t) && t.orders == s.orders
  {
    var lines := Lines(items, a, r);
    LinesPresent(s, items, a, r);
    MoveAllAdvances(s, lines, kind, missing);
    MoveFirstEnters(s, lines, |lines|, kind, missing);
    var t := MoveAll(s, lines, kind, missing).shop;
    forall v | v in s.variants
      ensures t.variants[v] == s.variants[v].(stock := s.variants[v].stock + Signed(a, Quantity(items, v)),
                                              reserved := s.variants[v].reserved + Signed(r, Quantity(items, v)))
    {
      LinesQuantity(items, a, r, v);
    }
    LinesPosted(s, items, a, r, kind, t);
  }

  lemma LinesPosted(s: Shop, items: seq<Item>, a: Sign, r: Sign, kind: Kind, t: Shop)
    requires var lines := Lines(items, a, r); Present(s, lines) && EnteredTo(s, lines, |lines|, kind, t.ledger)
    ensures Posted(s, t, items, kind, a)
  {
    var lines := Lines(items, a, r);
    forall i | 0 <= i < |items|
      ensures var m := t.ledger[|s.ledger| + i];
              m.variant == Some(items[i].variant) && m.kind == kind && m.delta == Signed(a, items[i].quantity)
    {
      assert lines[i] == LineOf(items[i], a, r);
      assert t.ledger[|s.ledger| + i] == EntryAt(s, lines, i, kind);
    }
  }

  // ---- Placing --------------------------------------------------------------

  /** The order that the lines ask for: pending and unpaid, held for a day; one
      item for each variant meant, in ascending order, for all that is meant of
      it at its price; at the sum of quantities times prices. */
  ghost predicate AsksFor(s: Shop, requests: seq<Request>, o: Order, now: int)
  {
    && o.status == PENDING && o.unpaid && o.deadline == Some(now + 86_400_000_000)
    && (forall i, j | 0 <= i < j < |o.items| :: o.items[i].variant < o.items[j].variant)
    && (forall v :: (exists item <- o.items :: item.variant == v) <==> MeantAmong(s, requests, |requests|, v))
    && (forall item <- o.items ::
          && item.variant in s.variants && item.quantity == Meant(s, requests, item.variant)
          && item.unitPrice == s.variants[item.variant].price)
    && o.total == Sum(map v <- s.variants :: Meant(s, requests, v) * s.variants[v].price)
  }

  /** The lines can be taken: there are some, each for a positive quantity of a
      variant it means, and no variant is asked for more than is on the shelf. */
  ghost predicate CanTake(s: Shop, requests: seq<Request>)
  {
    && requests != [] && (forall r <- requests :: 0 < r.quantity)
    && Meaningful(s, requests, |requests|)
    && forall v <- s.variants :: Meant(s, requests, v) <= s.variants[v].stock
  }

  lemma AskedIsMeant(s: Shop, requests: seq<Request>)
    ensures forall v :: Asked(s, requests, v) == Meant(s, requests, v)
  {
    forall v
      ensures Asked(s, requests, v) == Meant(s, requests, v)
    {
      MeantIsAsked(s, requests, |requests|, v);
    }
  }

  lemma BasketItems(s: Shop, requests: seq<Request>)
    requires MergeAll(s, requests).Merged?
    ensures var items := BasketOf(s, MergeAll(s, requests).quantities);
            && (forall i, j | 0 <= i < j < |items| :: items[i].variant < items[j].variant)
            && (forall v :: (exists item <- items :: item.variant == v) <==> MeantAmong(s, requests, |requests|, v))
            && (forall item <- items ::
                  && item.variant in s.variants && item.quantity == Meant(s, requests, item.variant)
                  && item.unitPrice == s.variants[item.variant].price)
  {
    var quantities := MergeAll(s, requests).quantities;
    var items, ids := BasketOf(s, quantities), Sorted(quantities.Keys);
    SortedIs(quantities.Keys);
    MergedIs(s, requests, |requests|);
    AskedIsMeant(s, requests);
    forall i | 0 <= i < |items|
      ensures items[i].variant in s.variants && items[i].quantity == Meant(s, requests, items[i].variant)
      ensures items[i].variant == ids[i] && items[i].unitPrice == s.variants[ids[i]].price
    {
      assert ids[i] in quantities.Keys;
      MergedIsAsked(s, requests, |requests|, ids[i]);
    }
    forall v
      ensures (exists item <- items :: item.variant == v) <==> v in quantities
    {
      if v in quantities {
        assert v in ids;
        var i :| 0 <= i < |ids| && ids[i] == v;
        assert items[i] in items;
      }
    }
  }

  lemma BasketTotal(s: Shop, requests: seq<Request>)
    requires MergeAll(s, requests).Merged?
    ensures Charge(BasketOf(s, MergeAll(s, requests).quantities))
         == Sum(map v <- s.variants :: Meant(s, requests, v) * s.variants[v].price)
  {
    var quantities := MergeAll(s, requests).quantities;
    var ids := Sorted(quantities.Keys);
    SortedIs(quantities.Keys);
    AskedIsMeant(s, requests);
    BasketCost(s, quantities, ids, |ids|);
    assert ids[..|ids|] == ids;
    forall v | v in s.variants
      ensures (if v in ids then quantities[v] * s.variants[v].price else 0)
           == Meant(s, requests, v) * s.variants[v].price
    {
      MergedIsAsked(s, requests, |requests|, v);
      assert v in ids <==> v in quantities.Keys;
    }
    assert CostColumn(s, quantities, ids, |ids|) == map v <- s.variants :: Meant(s, requests, v) * s.variants[v].price;
  }

  /** The order is there, the lines' goods have left the shelf and are reserved,
      one entry for each item says so, and nothing else is touched. */
  ghost predicate PlacedFrom(s: Shop, t: Shop, id: OrderId, requests: seq<Request>, now: int)
  {
    && t.orders.Keys == s.orders.Keys + {id} && (forall k <- s.orders :: k != id ==> t.orders[k] == s.orders[k])
    && AsksFor(s, requests, t.orders[id], now)
    && t.variants.Keys == s.variants.Keys
    && (forall v <- s.variants ::
          t.variants[v] == s.variants[v].(stock := s.variants[v].stock - Meant(s, requests, v),
                                          reserved := s.variants[v].reserved + Meant(s, requests, v)))
    && Posted(s, t, t.orders[id].items, RESERVATION_CREATED, MINUS)
    && RecordsKept(s, t)
  }

  /** The line's product, or the variant it names, is not there. */
  ghost predicate NotThere(s: Shop, r: Request)
  {
    || r.product !in s.products
    || (s.products[r.product].active && r.variant.Some?
        && (r.variant.value !in s.variants || s.variants[r.variant.value].product != r.product))
  }

  /** The first line that means nothing decides why an order is refused. */
  lemma {:induction false} FailedIs(s: Shop, requests: seq<Request>, n: nat)
    requires n <= |requests| && MergeFirst(s, requests, n).Failed?
    ensures exists i :: 0 <= i < n && Meaningful(s, requests, i) && !MeansSome(s, requests[i])
                        && MergeFirst(s, requests, n).error
                           == if NotThere(s, requests[i]) then NOT_FOUND else BAD_REQUEST
  {
    if MergeFirst(s, requests, n - 1).Failed? {
      FailedIs(s, requests, n - 1);
    } else {
      MergedIs(s, requests, n - 1);
      MergedIs(s, requests, n);
      MeaningfulNext(s, requests, n);
      ResolveIs(s, requests[n - 1]);
      assert Meaningful(s, requests, n - 1) && !MeansSome(s, requests[n - 1]);
    }
  }

  lemma TakenIs(s: Shop, t: Shop, items: seq<Item>, requests: seq<Request>)
    requires Shifts(s, t, items, MINUS, PLUS)
    requires forall v <- s.variants :: Quantity(items, v) == Meant(s, requests, v)
    ensures forall v <- s.variants ::
              t.variants[v] == s.variants[v].(stock := s.variants[v].stock - Meant(s, requests, v),
                                              reserved := s.variants[v].reserved + Meant(s, requests, v))
  {
  }

  lemma NewOrderIs(s: Shop, requests: seq<Request>, now: int)
    requires MergeAll(s, requests).Merged?
    ensures AsksFor(s, requests, NewOrder(BasketOf(s, MergeAll(s, requests).quantities), now), now)
  {
    BasketItems(s, requests);
    BasketTotal(s, requests);
  }

  lemma PlacedInIs(s: Shop, id: OrderId, requests: seq<Request>, now: int)
    requires id !in s.orders && PlaceIn(s, id, requests, true, true, now).Done?
    ensures PlacedFrom(s, PlaceIn(s, id, requests, true, true, now).shop, id, requests, now)
  {
    var items := BasketOf(s, MergeAll(s, requests).quantities);
    NewOrderIs(s, requests, now);
    LinesShift(s, items, MINUS, PLUS, RESERVATION_CREATED, REFUSE);
    var moved := MoveAll(s, Lines(items, MINUS, PLUS), RESERVATION_CREATED, REFUSE).shop;
    forall v | v in s.variants
      ensures Quantity(items, v) == Meant(s, requests, v)
    {
      BasketIsAsked(s, requests, v);
      MeantIsAsked(s, requests, |requests|, v);
    }
    TakenIs(s, moved, items, requests);
  }

  /** Once expired reservations are released, an order is placed exactly when its
      customer and conversation are there and its lines can be taken, and then it
      is the order they ask for. */
  lemma PlaceIs(s: Shop, id: OrderId, requests: seq<Request>, customerOk: bool, conversationOk: bool,
                expired: seq<OrderId>, now: int)
    requires Sound(s) && id !in s.orders && Enumerates(expired, ExpiredAt(s.orders, now))
    ensures ExpireAll(s, expired).Done?
    ensures var u, out := ExpireAll(s, expired).shop,
                          Place(s, id, requests, customerOk, conversationOk, expired, now);
            && (out.Done? <==> customerOk && conversationOk && CanTake(u, requests))
            && (out.Done? ==> PlacedFrom(u, out.shop, id, requests, now) && Sound(out.shop))
  {
    ExpireAllSound(s, expired);
    var u := ExpireAll(s, expired).shop;
    PlacedSound(u, id, requests, customerOk, conversationOk, now);
    MergedIs(u, requests, |requests|);
    AskedIsMeant(u, requests);
    if Place(s, id, requests, customerOk, conversationOk, expired, now).Done? {
      PlacedInIs(u, id, requests, now);
    }
  }

  /** Why it is refused: for no lines or a quantity that is not positive, for a
      customer or conversation that is not there, for the first line that means
      nothing, and only then for stock. */
  lemma PlaceRefusals(s: Shop, id: OrderId, requests: seq<Request>, customerOk: bool, conversationOk: bool,
                      expired: seq<OrderId>, now: int)
    requires Sound(s) && id !in s.orders && Enumerates(expired, ExpiredAt(s.orders, now))
    ensures ExpireAll(s, expired).Done?
    ensures var u, out := ExpireAll(s, expired).shop,
                          Place(s, id, requests, customerOk, conversationOk, expired, now);
            var wellFormed := requests != [] && forall r <- requests :: 0 < r.quantity;
            && (!wellFormed ==> out == Refused(BAD_REQUEST))
            && (wellFormed && !(customerOk && conversationOk) ==> out == Refused(NOT_FOUND))
            && (wellFormed && customerOk && conversationOk && !Meaningful(u, requests, |requests|) ==>
                  exists i :: 0 <= i < |requests| && Meaningful(u, requests, i) && !MeansSome(u, requests[i])
                              && out == Refused(if NotThere(u, requests[i]) then NOT_FOUND else BAD_REQUEST))
            && (out == Refused(INSUFFICIENT)
                <==> wellFormed && customerOk && conversationOk && Meaningful(u, requests, |requests|)
                     && exists v <- u.variants :: Meant(u, requests, v) > u.variants[v].stock)
  {
    ExpireAllSound(s, expired);
    var u := ExpireAll(s, expired).shop;
    PlacedSound(u, id, requests, customerOk, conversationOk, now);
    MergedIs(u, requests, |requests|);
    AskedIsMeant(u, requests);
    if MergeAll(u, requests).Failed? {
      FailedIs(u, requests, |requests|);
    } else if WellFormed(requests) {
      MergedSound(u, id, requests, now);
    }
  }

  // ---- Letting reservations expire ------------------------------------------

  /** What the first `n` orders hold of a variant. */
  ghost function FreedTo(s: Shop, ids: seq<OrderId>, n: nat, v: VariantId): int
    requires n <= |ids| && forall id <- ids :: id in s.orders
  {
    if n == 0 then 0
    else
      assert ids[n - 1] in ids;
      FreedTo(s, ids, n - 1, v) + Quantity(s.orders[ids[n - 1]].items, v)
  }

  /** What orders held has gone back from the reserve to the shelf, and the
      ledger says so. */
  ghost predicate FreedFirst(s: Shop, ids: seq<OrderId>, n: nat, t: Shop)
    requires n <= |ids| && forall id <- ids :: id in s.orders
  {
    && t.variants.Keys == s.variants.Keys
    && (forall v <- s.variants ::
          t.variants[v] == s.variants[v].(stock := s.variants[v].stock + FreedTo(s, ids, n, v),
                                          reserved := s.variants[v].reserved - FreedTo(s, ids, n, v)))
    && |s.ledger| <= |t.ledger| && t.ledger[..|s.ledger|] == s.ledger
    && (forall i | |s.ledger| <= i < |t.ledger| :: t.ledger[i].kind == RESERVATION_EXPIRED)
    && RecordsKept(s, t)
  }

  lemma OneFreed(s: Shop, id: OrderId)
    requires id in s.orders && s.orders[id].status == PENDING && ItemsKnown(s.orders[id].items, s.variants.Keys)
    requires ExpireOne(s, id).Done?
    ensures var t := ExpireOne(s, id).shop;
            && Shifts(s, t, s.orders[id].items, PLUS, MINUS)
            && Posted(s, t, s.orders[id].items, RESERVATION_EXPIRED, PLUS) && RecordsKept(s, t)
  {
    LinesShift(s, s.orders[id].items, PLUS, MINUS, RESERVATION_EXPIRED, SKIP);
  }

  lemma FreedMore(s: Shop, ids: seq<OrderId>, n: nat, t: Shop, u: Shop)
    requires 0 < n <= |ids| && (forall id <- ids :: id in s.orders) && FreedFirst(s, ids, n - 1, t)
    requires ids[n - 1] in s.orders && var items := s.orders[ids[n - 1]].items;
             Shifts(t, u, items, PLUS, MINUS) && Posted(t, u, items, RESERVATION_EXPIRED, PLUS) && RecordsKept(t, u)
    ensures FreedFirst(s, ids, n, u)
  {
    assert u.ledger[..|s.ledger|] == t.ledger[..|s.ledger|];
    forall i | |s.ledger| <= i < |u.ledger|
      ensures u.ledger[i].kind == RESERVATION_EXPIRED
    {
      if i < |t.ledger| {
        assert u.ledger[i] == u.ledger[..|t.ledger|][i];
      } else {
        var k := i - |t.ledger|;
        assert u.ledger[|t.ledger| + k].variant == Some(s.orders[ids[n - 1]].items[k].variant);
      }
    }
  }

  lemma {:induction false} ExpireFirstIs(s: Shop, ids: seq<OrderId>, n: nat)
    requires n <= |ids| && Sound(s) && PendingApart(s, ids)
    ensures ExpireFirst(s, ids, n).Done? && FreedFirst(s, ids, n, ExpireFirst(s, ids, n).shop)
  {
    ExpireFirstSound(s, ids, n);
    if n != 0 {
      ExpireFirstIs(s, ids, n - 1);
      ExpireFirstSound(s, ids, n - 1);
      var t, id := ExpireFirst(s, ids, n - 1).shop, ids[n - 1];
      assert id in ids;
      AmongIs(ids, n - 1, id);
      assert t.orders[id] == s.orders[id];
      OrderKnown(t, id);
      OneFreed(t, id);
      FreedMore(s, ids, n, t, ExpireFirst(s, ids, n).shop);
    }
  }

  /** Exactly the pending, unpaid orders past their deadline are cancelled, what
      they held goes back from the reserve to the shelf, and nothing else is
      touched. */
  lemma ExpireIs(s: Shop, ids: seq<OrderId>, now: int)
    requires Sound(s) && Enumerates(ids, ExpiredAt(s.orders, now))
    ensures ExpireAll(s, ids).Done? && Sound(ExpireAll(s, ids).shop)
    ensures var t := ExpireAll(s, ids).shop;
            && t.orders.Keys == s.orders.Keys
            && (forall id <- s.orders ::
                  var o := s.orders[id];
                  t.orders[id] == if o.status == PENDING && o.unpaid && o.deadline.Some? && o.deadline.value <= now
                                  then o.(status := CANCELLED, deadline := None) else o)
            && FreedFirst(s, ids, |ids|, t)
  {
    ExpireAllSound(s, ids);
    ExpireFirstIs(s, ids, |ids|);
  }

  /** One row for every variant: what the first `n` items come to of it. */
  ghost function QuantityColumn(items: seq<Item>, n: nat, known: set<VariantId>): map<nat, int>
    requires n <= |items|
  {
    map v <- known :: QuantityTo(items, n, v)
  }

  /** The units a release counts are all that the items come to. */
  lemma {:induction false} UnitsIs(items: seq<Item>, n: nat, known: set<VariantId>)
    requires n <= |items| && ItemsKnown(items, known)
    ensures Units(items, n, known) == Sum(QuantityColumn(items, n, known))
  {
    if n == 0 {
      SumZero(QuantityColumn(items, 0, known));
    } else {
      UnitsIs(items, n - 1, known);
      var before, last := QuantityColumn(items, n - 1, known), items[n - 1];
      assert last in items;
      assert QuantityColumn(items, n, known) == before[last.variant := before[last.variant] + last.quantity];
      SumPut(before, last.variant, before[last.variant] + last.quantity);
    }
  }

  // ---- Changing and deleting ------------------------------------------------

  /** What of a quantity an order in this status, if there is one, has taken from
      the shelf. */
  function TakenOff(status: Option<Status>, quantity: int): int {
    if status.Some? && status.value != CANCELLED then quantity else 0
  }

  /** And what of it is reserved. */
  function SetAside(status: Option<Status>, quantity: int): int {
    if status in {Some(PENDING), Some(CONFIRMED), Some(PROCESSING)} then quantity else 0
  }

  /** Each variant's stock and reserve follow what an order has of it. */
  ghost predicate Follow(s: Shop, t: Shop, items: seq<Item>, was: Option<Status>, now: Option<Status>)
  {
    && t.variants.Keys == s.variants.Keys
    && forall v <- s.variants ::
         var q := Quantity(items, v);
         t.variants[v] == s.variants[v].(
                            stock := s.variants[v].stock + TakenOff(was, q) - TakenOff(now, q),
                            reserved := s.variants[v].reserved - SetAside(was, q) + SetAside(now, q))
  }

  /** One entry of the kind for each item, or none at all. */
  ghost predicate Entered(s: Shop, t: Shop, items: seq<Item>, kind: Option<Kind>, was: Option<Status>,
                          now: Option<Status>)
  {
    && |t.ledger| == |s.ledger| + (if kind.Some? then |items| else 0) && t.ledger[..|s.ledger|] == s.ledger
    && (kind.Some? ==>
          forall i | 0 <= i < |items| ::
            var m := t.ledger[|s.ledger| + i];
            && m.variant == Some(items[i].variant) && m.kind == kind.value
            && m.delta == TakenOff(was, items[i].quantity) - TakenOff(now, items[i].quantity))
  }

  /** The kind of the entries that a change of status makes. */
  function KindOf(was: Status, now: Status): Option<Kind> {
    match (was, now)
    case (_, CANCELLED) => Some(ORDER_CANCELLED)
    case (CANCELLED, _) => Some(if now in {SHIPPED, DELIVERED} then ORDER_REOPENED else RESERVATION_REOPENED)
    case (_, _) =>
      if (was in {SHIPPED, DELIVERED}) == (now in {SHIPPED, DELIVERED}) then None
      else Some(if now in {SHIPPED, DELIVERED} then RESERVATION_FULFILLED else RESERVATION_RESTORED)
  }

  lemma ShiftsFollow(s: Shop, t: Shop, items: seq<Item>, a: Sign, r: Sign, was: Option<Status>, now: Option<Status>)
    requires Shifts(s, t, items, a, r) && SignsMatch(a, r, was, now)
    ensures Follow(s, t, items, was, now)
  {
    forall n: int
      ensures Signed(a, n) == TakenOff(was, n) - TakenOff(now, n) && Signed(r, n) == SetAside(now, n) - SetAside(was, n)
    {
    }
  }

  lemma PostedEntered(s: Shop, t: Shop, items: seq<Item>, a: Sign, r: Sign, kind: Kind, was: Option<Status>,
                      now: Option<Status>)
    requires Posted(s, t, items, kind, a) && SignsMatch(a, r, was, now)
    ensures Entered(s, t, items, Some(kind), was, now)
  {
  }

  /** What has become of an order's goods, and how the ledger has it. */
  ghost predicate Accounted(s: Shop, t: Shop, items: seq<Item>, kind: Option<Kind>, was: Option<Status>,
                            now: Option<Status>)
  {
    Follow(s, t, items, was, now) && Entered(s, t, items, kind, was, now) && RecordsKept(s, t)
  }

  lemma LinesAccounted(s: Shop, items: seq<Item>, a: Sign, r: Sign, kind: Kind, missing: Missing, was: Option<Status>,
                       now: Option<Status>)
    requires MoveAll(s, Lines(items, a, r), kind, missing).Done? && ItemsKnown(items, s.variants.Keys)
    requires SignsMatch(a, r, was, now)
    ensures var t := MoveAll(s, Lines(items, a, r), kind, missing).shop;
            Accounted(s, t, items, Some(kind), was, now) && t.orders == s.orders
  {
    var t := MoveAll(s, Lines(items, a, r), kind, missing).shop;
    LinesShift(s, items, a, r, kind, missing);
    ShiftsFollow(s, t, items, a, r, was, now);
    PostedEntered(s, t, items, a, r, kind, was, now);
  }

  lemma AccountedToo(s: Shop, u: Shop, orders: map<OrderId, Order>, items: seq<Item>, kind: Option<Kind>,
                     was: Option<Status>, now: Option<Status>)
    requires Accounted(s, u, items, kind, was, now)
    ensures Accounted(s, u.(orders := orders), items, kind, was, now)
  {
    var t := u.(orders := orders);
    assert t.variants == u.variants && t.products == u.products && t.ledger == u.ledger;
    assert RecordsKept(s, t);
  }

  /** A change of status that enters something moves the order's lines. */
  lemma StatusMovesLines(s: Shop, id: OrderId, status: Status) returns (a: Sign, r: Sign, missing: Missing)
    requires id in s.orders && KindOf(s.orders[id].status, status).Some? && status != s.orders[id].status
    requires StatusMoves(s, id, status).Done?
    ensures SignsMatch(a, r, Some(s.orders[id].status), Some(status))
    ensures var o, t := s.orders[id], StatusMoves(s, id, status).shop;
            var moved := MoveAll(s, Lines(o.items, a, r), KindOf(o.status, status).value, missing);
            moved.Done? && t == moved.shop.(orders := t.orders)
            && (t.orders == moved.shop.orders || t.orders == s.orders[id := o.(deadline := None)])
  {
    var o := s.orders[id];
    a := if status == CANCELLED then PLUS else if o.status == CANCELLED then MINUS else ZERO;
    r := if (o.status in RESERVING) == (status in RESERVING) then ZERO
         else if status in RESERVING then PLUS else MINUS;
    missing := if a == MINUS then REFUSE else SKIP;
  }

  ghost predicate OthersKept(s: Shop, t: Shop, id: OrderId)
  {
    t.orders.Keys == s.orders.Keys && forall k <- s.orders :: k != id ==> t.orders[k] == s.orders[k]
  }

  lemma StatusMovesNothing(s: Shop, id: OrderId, status: Status)
    requires id in s.orders && KindOf(s.orders[id].status, status).None? && status != s.orders[id].status
    ensures StatusMoves(s, id, status) == Done(s)
    ensures forall n :: TakenOff(Some(s.orders[id].status), n) == TakenOff(Some(status), n)
                        && SetAside(Some(s.orders[id].status), n) == SetAside(Some(status), n)
  {
  }

  lemma StatusMovesIs(s: Shop, id: OrderId, status: Status)
    requires id in s.orders && ItemsKnown(s.orders[id].items, s.variants.Keys)
    requires status != s.orders[id].status && StatusMoves(s, id, status).Done?
    ensures var o, t := s.orders[id], StatusMoves(s, id, status).shop;
            && Accounted(s, t, o.items, KindOf(o.status, status), Some(o.status), Some(status))
            && OthersKept(s, t, id)
  {
    var o, t := s.orders[id], StatusMoves(s, id, status).shop;
    var kind := KindOf(o.status, status);
    if kind.Some? {
      var a, r, missing := StatusMovesLines(s, id, status);
      var moved := MoveAll(s, Lines(o.items, a, r), kind.value, missing).shop;
      LinesAccounted(s, o.items, a, r, kind.value, missing, Some(o.status), Some(status));
      AccountedToo(s, moved, t.orders, o.items, kind, Some(o.status), Some(status));
      assert t == moved.(orders := t.orders);
    } else {
      StatusMovesNothing(s, id, status);
    }
  }

  /** The order has its new status, a pending one a day to go and every other no
      deadline, and the goods have followed it. */
  ghost predicate UpdatedTo(s: Shop, t: Shop, id: OrderId, status: Status, now: int)
    requires id in s.orders
  {
    var o := s.orders[id];
    && OthersKept(s, t, id)
    && t.orders[id] == Order(status, o.items, if status == PENDING then Some(now + 86_400_000_000) else None,
                             o.unpaid, o.total)
    && Accounted(s, t, o.items, KindOf(o.status, status), Some(o.status), Some(status))
  }

  lemma UpdatedIs(s: Shop, id: OrderId, status: Status, now: int)
    requires id in s.orders && ItemsKnown(s.orders[id].items, s.variants.Keys)
    requires status != s.orders[id].status && Update(s, id, Some(status), now).Done?
    ensures UpdatedTo(s, Update(s, id, Some(status), now).shop, id, status, now)
  {
    var o, u, t := s.orders[id], StatusMoves(s, id, status).shop, Update(s, id, Some(status), now).shop;
    assert t == u.(orders := u.orders[id := Changed(o, status, now)]);
    StatusMovesIs(s, id, status);
    AccountedToo(s, u, t.orders, o.items, KindOf(o.status, status), Some(o.status), Some(status));
  }

  /** An order changes its status unless it is reopened and the shelf has not
      enough; without a new status nothing happens. */
  lemma UpdateIs(s: Shop, id: OrderId, status: Option<Status>, now: int)
    requires Sound(s)
    ensures var out := Update(s, id, status, now);
            && (id !in s.orders ==> out == Refused(NOT_FOUND))
            && (id in s.orders && status in {None, Some(s.orders[id].status)} ==> out == Done(s))
            && (id in s.orders && status !in {None, Some(s.orders[id].status)} ==>
                  if s.orders[id].status == CANCELLED
                     && exists v <- s.variants :: s.variants[v].stock < Quantity(s.orders[id].items, v)
                  then out == Refused(INSUFFICIENT)
                  else out.Done? && UpdatedTo(s, out.shop, id, status.value, now) && Sound(out.shop))
  {
    if id in s.orders && status.Some? && status.value != s.orders[id].status {
      OrderKnown(s, id);
      if s.orders[id].status == CANCELLED {
        ReopenSound(s, id, status.value, now);
      } else {
        ChangeSound(s, id, status.value, now);
      }
      if Update(s, id, status, now).Done? {
        UpdatedIs(s, id, status.value, now);
      }
    }
  }

  /** The order is gone, and what it had of any variant is back. */
  ghost predicate DeletedFrom(s: Shop, t: Shop, id: OrderId)
    requires id in s.orders
  {
    var o := s.orders[id];
    && t.orders == s.orders - {id}
    && Accounted(s, t, o.items, if o.status == CANCELLED then None else Some(ORDER_DELETED), Some(o.status), None)
  }

  lemma DeletedIs(s: Shop, id: OrderId)
    requires id in s.orders && ItemsKnown(s.orders[id].items, s.variants.Keys) && Delete(s, id).Done?
    ensures DeletedFrom(s, Delete(s, id).shop, id)
  {
    var o, t := s.orders[id], Delete(s, id).shop;
    if o.status != CANCELLED {
      var r := if o.status in RESERVING then MINUS else ZERO;
      var moved := MoveAll(s, Lines(o.items, PLUS, r), ORDER_DELETED, SKIP).shop;
      LinesAccounted(s, o.items, PLUS, r, ORDER_DELETED, SKIP, Some(o.status), None);
      AccountedToo(s, moved, t.orders, o.items, Some(ORDER_DELETED), Some(o.status), None);
    }
  }

  /** An order without returns can be deleted. */
  lemma DeleteIs(s: Shop, id: OrderId)
    requires Sound(s)
    ensures var out := Delete(s, id);
            if id !in s.orders then out == Refused(NOT_FOUND)
            else if exists r <- s.salesReturns :: s.salesReturns[r].order == id then out == Refused(CONFLICT)
            else out.Done? && DeletedFrom(s, out.shop, id) && Sound(out.shop)
  {
    DeleteSound(s, id);
    if id in s.orders {
      OrderKnown(s, id);
      if Delete(s, id).Done? {
        DeletedIs(s, id);
      } else {
        ReleaseGoes(s, id, ORDER_DELETED);
      }
    }
  }

  lemma ReleaseGoes(s: Shop, id: OrderId, kind: Kind)
    requires Sound(s) && id in s.orders
    ensures Release(s, id, kind).Done?
  {
    OrderVerdict(s, id, PLUS, if s.orders[id].status in RESERVING then MINUS else ZERO, kind, SKIP);
  }
}
