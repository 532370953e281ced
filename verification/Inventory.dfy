/** The shop's stock: variants, the totals cached on products, the orders that
    hold stock, and the ledger of movements. All stock changes go through
    `Move`, and an order or a delivery is a list of lines moved together. */
module Inventory {
  import opened Lifecycle
  import opened Sums
  import opened Wrappers

  type ProductId = nat
  type VariantId = nat
  type OrderId = nat
  type PurchaseId = nat
  type ReturnId = nat

  /** Money is in hundredths. */
  datatype Variant = Variant(product: ProductId, stock: int, reserved: int, threshold: int, price: int, active: bool)

  /** `stock`, `reserved`, `threshold` and `price` are caches over the variants. */
  datatype Product = Product(active: bool, stock: int, reserved: int, threshold: int, price: int)

  const RESERVING: set<Status> := {PENDING, CONFIRMED, PROCESSING}
  const FULFILLED: set<Status> := {SHIPPED, DELIVERED}
  const HOLDING: set<Status> := {PENDING, CONFIRMED, PROCESSING, SHIPPED, DELIVERED}

  datatype Item = Item(variant: VariantId, quantity: int, unitPrice: int)
  datatype Order = Order(status: Status, items: seq<Item>, deadline: Option<int>, unpaid: bool, total: int)

  datatype Kind =
    | OPENING_BALANCE | MANUAL_ADJUSTMENT | PURCHASE_RECEIVED | RETURN_RECEIVED
    | RESERVATION_CREATED | RESERVATION_EXPIRED | RESERVATION_FULFILLED | RESERVATION_RESTORED
    | RESERVATION_REOPENED | ORDER_REOPENED | ORDER_CANCELLED | ORDER_DELETED

  /** The kinds that bring goods in or write them off; the rest only move goods
      between the shelf and an order. */
  const SUPPLY: set<Kind> := {OPENING_BALANCE, MANUAL_ADJUSTMENT, PURCHASE_RECEIVED, RETURN_RECEIVED}

  /** A ledger entry outlives its variant: deleting the variant blanks the link. */
  datatype Movement = Movement(variant: Option<VariantId>, kind: Kind, delta: int, balanceAfter: int,
                               reservedAfter: int)

  datatype PurchaseStatus = DRAFT | ORDERED | PARTIALLY_RECEIVED | RECEIVED | PURCHASE_CANCELLED
  datatype PurchaseLine = PurchaseLine(variant: VariantId, ordered: int, received: int)
  datatype Purchase = Purchase(status: PurchaseStatus, lines: seq<PurchaseLine>)

  datatype ReturnStatus = REQUESTED | RETURNED | REFUNDED

  /** `item` is the position of the returned line on its order. */
  datatype ReturnLine = ReturnLine(item: nat, variant: VariantId, quantity: int, restock: int)
  datatype Return = Return(order: OrderId, lines: seq<ReturnLine>, refund: int,
                           received: bool, refunded: bool, status: ReturnStatus)

  datatype Shop = Shop(
    variants: map<VariantId, Variant>, products: map<ProductId, Product>, orders: map<OrderId, Order>,
    ledger: seq<Movement>, purchases: map<PurchaseId, Purchase>, salesReturns: map<ReturnId, Return>)

  const EMPTY := Shop(map[], map[], map[], [], map[], map[])

  /** Why a request was refused; a refused request changes nothing. */
  datatype Error =
    | NOT_FOUND | BAD_REQUEST | CONFLICT | MISSING_VARIANT | INSUFFICIENT | INCONSISTENT
    | NEGATIVE_PRICE    // the database's check on a variant's price

  datatype Outcome = Done(shop: Shop) | Refused(error: Error)

  // ---- Product totals -------------------------------------------------------

  ghost function Of(variants: map<VariantId, Variant>, p: ProductId): map<VariantId, Variant> {
    map v <- variants | variants[v].product == p :: variants[v]
  }

  ghost function StockColumn(rows: map<VariantId, Variant>): map<nat, int> {
    map v <- rows :: if rows[v].active then rows[v].stock else 0
  }

  ghost function ThresholdColumn(rows: map<VariantId, Variant>): map<nat, int> {
    map v <- rows :: if rows[v].active then rows[v].threshold else 0
  }

  ghost function ReservedColumn(rows: map<VariantId, Variant>): map<nat, int> {
    map v <- rows :: rows[v].reserved
  }

  /** The active variants, or all of them if none is active. */
  function Priced(rows: map<VariantId, Variant>): set<VariantId> {
    var active := set v <- rows | rows[v].active;
    if active != {} then active else rows.Keys
  }

  ghost predicate IsPrice(rows: map<VariantId, Variant>, price: int)
  {
    (exists v <- Priced(rows) :: rows[v].price == price) && (forall v <- Priced(rows) :: price <= rows[v].price)
  }

  lemma {:induction false} PriceExists(rows: map<VariantId, Variant>, some: set<VariantId>)
    requires some != {} && some <= rows.Keys
    ensures exists v <- some :: forall w <- some :: rows[v].price <= rows[w].price
    decreases some
  {
    var v :| v in some;
    if some != {v} {
      PriceExists(rows, some - {v});
      var u :| u in some - {v} && forall w <- some - {v} :: rows[u].price <= rows[w].price;
      if rows[v].price <= rows[u].price {
        assert forall w <- some :: rows[v].price <= rows[w].price;
      } else {
        assert forall w <- some :: rows[u].price <= rows[w].price;
      }
    }
  }

  ghost function Price(rows: map<VariantId, Variant>): (price: int)
    requires rows != map[]
    ensures IsPrice(rows, price)
  {
    assert Priced(rows) != {} by {
      var w :| w in rows;
      assert w in rows.Keys;
    }
    PriceExists(rows, Priced(rows));
    var v :| v in Priced(rows) && forall w <- Priced(rows) :: rows[v].price <= rows[w].price;
    rows[v].price
  }

  /** A product with its caches computed from its variants. */
  ghost function Totals(x: Product, rows: map<VariantId, Variant>): Product {
    x.(stock := Sum(StockColumn(rows)), reserved := Sum(ReservedColumn(rows)), threshold := Sum(ThresholdColumn(rows)),
       price := if rows == map[] then x.price else Price(rows))
  }

  ghost function Synced(products: map<ProductId, Product>, variants: map<VariantId, Variant>, p: ProductId):
    map<ProductId, Product>
  {
    if p in products then products[p := Totals(products[p], Of(variants, p))] else products
  }

  /** Every product shows its variants' totals. */
  ghost predicate Cached(variants: map<VariantId, Variant>, products: map<ProductId, Product>)
  {
    forall p <- products {:trigger Totals(products[p], Of(variants, p))} ::
      products[p] == Totals(products[p], Of(variants, p))
  }

  /** Every product but one. */
  ghost predicate CachedBut(variants: map<VariantId, Variant>, products: map<ProductId, Product>, p: ProductId)
  {
    forall q <- products {:trigger Totals(products[q], Of(variants, q))} ::
      q != p ==> products[q] == Totals(products[q], Of(variants, q))
  }

  /** After a change confined to one product's variants, syncing that product
      is enough. */
  lemma SyncCaches(variants: map<VariantId, Variant>, variants': map<VariantId, Variant>,
                   products: map<ProductId, Product>, p: ProductId)
    requires CachedBut(variants, products, p)
    requires forall q <- products :: q != p ==> Of(variants', q) == Of(variants, q)
    ensures Cached(variants', Synced(products, variants', p))
  {
    forall q | q in products
      ensures Synced(products, variants', p)[q] == Totals(Synced(products, variants', p)[q], Of(variants', q))
    {
      if q != p {
        assert products[q] == Totals(products[q], Of(variants, q));
      }
    }
  }

  lemma OfOthers(variants: map<VariantId, Variant>, v: VariantId, x: Variant, q: ProductId)
    requires q != x.product && (v in variants ==> variants[v].product != q)
    ensures Of(variants[v := x], q) == Of(variants, q)
  {
  }

  // ---- The ledger -----------------------------------------------------------

  /** The entries of one variant among the first `n`, oldest first. */
  ghost function RowsTo(ledger: seq<Movement>, n: nat, v: VariantId): seq<Movement>
    requires n <= |ledger|
  {
    if n == 0 then []
    else
      var before := RowsTo(ledger, n - 1, v);
      if ledger[n - 1].variant == Some(v) then before + [ledger[n - 1]] else before
  }

  ghost function Rows(ledger: seq<Movement>, v: VariantId): seq<Movement> {
    RowsTo(ledger, |ledger|, v)
  }

  /** What an entry adds to the flow of some kinds for a variant. */
  ghost function Delta(m: Movement, v: VariantId, kinds: set<Kind>): int {
    if m.variant == Some(v) && m.kind in kinds then m.delta else 0
  }

  ghost function FlowTo(ledger: seq<Movement>, n: nat, v: VariantId, kinds: set<Kind>): int
    requires n <= |ledger|
  {
    if n == 0 then 0 else FlowTo(ledger, n - 1, v, kinds) + Delta(ledger[n - 1], v, kinds)
  }

  /** What the entries of some kinds add up to for one variant. */
  ghost function Flow(ledger: seq<Movement>, v: VariantId, kinds: set<Kind>): int {
    FlowTo(ledger, |ledger|, v, kinds)
  }

  /** The change of the reserved balance that a kind of entry allows. */
  ghost predicate ReservedMoves(kind: Kind, delta: int, reserved: int)
  {
    match kind
    case OPENING_BALANCE => reserved == 0
    case MANUAL_ADJUSTMENT => reserved == 0
    case PURCHASE_RECEIVED => reserved == 0
    case RETURN_RECEIVED => reserved == 0
    case RESERVATION_CREATED => reserved == -delta
    case RESERVATION_EXPIRED => reserved == -delta
    case RESERVATION_REOPENED => reserved == -delta
    case ORDER_REOPENED => reserved == 0
    case RESERVATION_FULFILLED => delta == 0 && reserved <= 0
    case RESERVATION_RESTORED => delta == 0 && 0 <= reserved
    case ORDER_CANCELLED => reserved == 0 || reserved == -delta
    case ORDER_DELETED => reserved == 0 || reserved == -delta
  }

  /** The balances an entry starts from: those its predecessor left. */
  ghost function BalanceAt(rows: seq<Movement>, i: nat): int
    requires i <= |rows|
  {
    if i == 0 then 0 else rows[i - 1].balanceAfter
  }

  ghost function ReservedAt(rows: seq<Movement>, i: nat): int
    requires i <= |rows|
  {
    if i == 0 then 0 else rows[i - 1].reservedAfter
  }

  ghost predicate Follows(rows: seq<Movement>, i: nat)
    requires i < |rows|
  {
    && rows[i].balanceAfter == BalanceAt(rows, i) + rows[i].delta
    && 0 <= rows[i].balanceAfter && 0 <= rows[i].reservedAfter
    && ReservedMoves(rows[i].kind, rows[i].delta, rows[i].reservedAfter - ReservedAt(rows, i))
  }

  /** Folding the entries in order gives every balance they show and ends in the
      variant's own. */
  ghost predicate Replays(rows: seq<Movement>, x: Variant)
  {
    (forall i | 0 <= i < |rows| :: Follows(rows, i)) && BalanceAt(rows, |rows|) == x.stock
      && ReservedAt(rows, |rows|) == x.reserved
  }

  ghost predicate Books(variants: map<VariantId, Variant>, ledger: seq<Movement>)
  {
    && (forall v <- variants {:trigger Replays(Rows(ledger, v), variants[v])} :: Replays(Rows(ledger, v), variants[v]))
    && (forall m <- ledger :: m.variant.Some? ==> m.variant.value in variants)
  }

  lemma {:induction false} RowsPrefix(ledger: seq<Movement>, m: Movement, n: nat, v: VariantId)
    requires n <= |ledger|
    ensures RowsTo(ledger + [m], n, v) == RowsTo(ledger, n, v)
  {
    if n != 0 {
      RowsPrefix(ledger, m, n - 1, v);
    }
  }

  lemma RowsAppend(ledger: seq<Movement>, m: Movement, v: VariantId)
    ensures Rows(ledger + [m], v) == if m.variant == Some(v) then Rows(ledger, v) + [m] else Rows(ledger, v)
  {
    RowsPrefix(ledger, m, |ledger|, v);
  }

  lemma {:induction false} FlowPrefix(ledger: seq<Movement>, m: Movement, n: nat, v: VariantId, kinds: set<Kind>)
    requires n <= |ledger|
    ensures FlowTo(ledger + [m], n, v, kinds) == FlowTo(ledger, n, v, kinds)
  {
    if n != 0 {
      FlowPrefix(ledger, m, n - 1, v, kinds);
    }
  }

  lemma FlowAppend(ledger: seq<Movement>, m: Movement, v: VariantId, kinds: set<Kind>)
    ensures Flow(ledger + [m], v, kinds) == Flow(ledger, v, kinds) + Delta(m, v, kinds)
  {
    FlowPrefix(ledger, m, |ledger|, v, kinds);
  }

  lemma ReplaysAppend(rows: seq<Movement>, x: Variant, m: Movement, x': Variant)
    requires Replays(rows, x)
    requires m.balanceAfter == x.stock + m.delta == x'.stock && m.reservedAfter == x'.reserved
    requires 0 <= x'.stock && 0 <= x'.reserved && ReservedMoves(m.kind, m.delta, x'.reserved - x.reserved)
    ensures Replays(rows + [m], x')
  {
    var all := rows + [m];
    forall i | 0 <= i < |all|
      ensures Follows(all, i)
    {
      if i < |rows| {
        assert Follows(rows, i);
      }
    }
  }

  // ---- Moving stock ---------------------------------------------------------

  datatype Line = Line(variant: VariantId, available: int, reserved: int)

  ghost function Move(s: Shop, line: Line, kind: Kind): Outcome
    requires line.variant in s.variants
  {
    var x := s.variants[line.variant];
    if x.stock + line.available < 0 then Refused(INSUFFICIENT)
    else if x.reserved + line.reserved < 0 then Refused(INCONSISTENT)
    else
      var x' := x.(stock := x.stock + line.available, reserved := x.reserved + line.reserved);
      var variants := s.variants[line.variant := x'];
      Done(s.(variants := variants, products := Synced(s.products, variants, x.product),
              ledger := s.ledger + [Movement(Some(line.variant), kind, line.available, x'.stock, x'.reserved)]))
  }

  /** What to do about a line whose variant is gone. */
  datatype Missing = SKIP | REFUSE

  /** One more of the lines. */
  ghost function MoveNext(before: Outcome, line: Line, kind: Kind, missing: Missing): Outcome {
    if before.Refused? then before
    else if line.variant in before.shop.variants then Move(before.shop, line, kind)
    else if missing.SKIP? then before
    else Refused(MISSING_VARIANT)
  }

  /** As far as a loop over the lines has come. */
  ghost function MoveFirst(s: Shop, lines: seq<Line>, n: nat, kind: Kind, missing: Missing): Outcome
    requires n <= |lines|
  {
    if n == 0 then Done(s) else MoveNext(MoveFirst(s, lines, n - 1, kind, missing), lines[n - 1], kind, missing)
  }

  ghost function MoveAll(s: Shop, lines: seq<Line>, kind: Kind, missing: Missing): Outcome {
    MoveFirst(s, lines, |lines|, kind, missing)
  }

  /** A refused line refuses them all. */
  lemma {:induction false} MoveFirstStops(s: Shop, lines: seq<Line>, n: nat, kind: Kind, missing: Missing)
    requires n <= |lines| && MoveFirst(s, lines, n, kind, missing).Refused?
    ensures MoveAll(s, lines, kind, missing) == MoveFirst(s, lines, n, kind, missing)
    decreases |lines| - n
  {
    if n < |lines| {
      MoveFirstStops(s, lines, n + 1, kind, missing);
    }
  }

  /** What the first `n` lines add to one variant. */
  ghost function AvailableTo(lines: seq<Line>, n: nat, v: VariantId): int
    requires n <= |lines|
  {
    if n == 0 then 0
    else AvailableTo(lines, n - 1, v) + if lines[n - 1].variant == v then lines[n - 1].available else 0
  }

  ghost function ReservingTo(lines: seq<Line>, n: nat, v: VariantId): int
    requires n <= |lines|
  {
    if n == 0 then 0
    else ReservingTo(lines, n - 1, v) + if lines[n - 1].variant == v then lines[n - 1].reserved else 0
  }

  ghost function Available(lines: seq<Line>, v: VariantId): int {
    AvailableTo(lines, |lines|, v)
  }

  ghost function Reserving(lines: seq<Line>, v: VariantId): int {
    ReservingTo(lines, |lines|, v)
  }

  ghost function Shifted(x: Variant, lines: seq<Line>, n: nat, v: VariantId): Variant
    requires n <= |lines|
  {
    x.(stock := x.stock + AvailableTo(lines, n, v), reserved := x.reserved + ReservingTo(lines, n, v))
  }

  /** Purchases, returns and the list of products are as they were. */
  ghost predicate RecordsKept(s: Shop, t: Shop)
  {
    && t.purchases == s.purchases && t.salesReturns == s.salesReturns && t.products.Keys == s.products.Keys
    && forall p <- s.products :: t.products[p].active == s.products[p].active
  }

  /** What moving the first `n` lines changes, and all it changes but the
      ledger. */
  ghost predicate AdvancesTo(s: Shop, lines: seq<Line>, n: nat, t: Shop)
    requires n <= |lines|
  {
    && t.orders == s.orders && t.purchases == s.purchases && t.salesReturns == s.salesReturns
    && t.variants.Keys == s.variants.Keys && t.products.Keys == s.products.Keys
    && (forall p <- s.products :: t.products[p].active == s.products[p].active)
    && (forall v <- s.variants :: t.variants[v] == Shifted(s.variants[v], lines, n, v))
  }

  ghost predicate Advances(s: Shop, lines: seq<Line>, t: Shop)
  {
    AdvancesTo(s, lines, |lines|, t)
  }

  lemma MoveShifts(t: Shop, line: Line, kind: Kind, v: VariantId)
    requires line.variant in t.variants && v in t.variants && Move(t, line, kind).Done?
    ensures var u := Move(t, line, kind).shop;
            && v in u.variants
            && u.variants[v] == if v == line.variant
                                then t.variants[v].(stock := t.variants[v].stock + line.available,
                                                    reserved := t.variants[v].reserved + line.reserved)
                                else t.variants[v]
  {
  }

  lemma AdvancesMore(s: Shop, lines: seq<Line>, n: nat, t: Shop, kind: Kind)
    requires 0 < n <= |lines| && AdvancesTo(s, lines, n - 1, t)
    requires lines[n - 1].variant in t.variants && Move(t, lines[n - 1], kind).Done?
    ensures AdvancesTo(s, lines, n, Move(t, lines[n - 1], kind).shop)
  {
    var u := Move(t, lines[n - 1], kind).shop;
    forall v | v in s.variants
      ensures u.variants[v] == Shifted(s.variants[v], lines, n, v)
    {
      assert t.variants[v] == Shifted(s.variants[v], lines, n - 1, v);
      MoveShifts(t, lines[n - 1], kind, v);
    }
  }

  lemma AdvancesSkip(s: Shop, lines: seq<Line>, n: nat, t: Shop)
    requires 0 < n <= |lines| && AdvancesTo(s, lines, n - 1, t) && lines[n - 1].variant !in t.variants
    ensures AdvancesTo(s, lines, n, t)
  {
    forall v | v in s.variants
      ensures t.variants[v] == Shifted(s.variants[v], lines, n, v)
    {
      assert t.variants[v] == Shifted(s.variants[v], lines, n - 1, v);
    }
  }

  lemma AdvancesNext(s: Shop, lines: seq<Line>, n: nat, before: Outcome, kind: Kind, missing: Missing)
    requires 0 < n <= |lines| && before.Done? && AdvancesTo(s, lines, n - 1, before.shop)
    requires MoveNext(before, lines[n - 1], kind, missing).Done?
    ensures AdvancesTo(s, lines, n, MoveNext(before, lines[n - 1], kind, missing).shop)
  {
    if lines[n - 1].variant in before.shop.variants {
      AdvancesMore(s, lines, n, before.shop, kind);
    } else {
      AdvancesSkip(s, lines, n, before.shop);
    }
  }

  lemma {:induction false} MoveFirstAdvances(s: Shop, lines: seq<Line>, n: nat, kind: Kind, missing: Missing)
    requires n <= |lines| && MoveFirst(s, lines, n, kind, missing).Done?
    ensures AdvancesTo(s, lines, n, MoveFirst(s, lines, n, kind, missing).shop)
  {
    if n != 0 {
      MoveFirstAdvances(s, lines, n - 1, kind, missing);
      AdvancesNext(s, lines, n, MoveFirst(s, lines, n - 1, kind, missing), kind, missing);
    }
  }

  lemma MoveAllAdvances(s: Shop, lines: seq<Line>, kind: Kind, missing: Missing)
    requires MoveAll(s, lines, kind, missing).Done?
    ensures Advances(s, lines, MoveAll(s, lines, kind, missing).shop)
  {
    MoveFirstAdvances(s, lines, |lines|, kind, missing);
  }

  /** What moving lines adds to the ledger's flows. */
  ghost predicate Flows(ledger: seq<Movement>, ledger': seq<Movement>, added: int, kind: Kind, v: VariantId,
                        kinds: set<Kind>)
  {
    Flow(ledger', v, kinds) == Flow(ledger, v, kinds) + if kind in kinds then added else 0
  }

  lemma MoveFlows(s: Shop, line: Line, kind: Kind, v: VariantId, kinds: set<Kind>)
    requires line.variant in s.variants && Move(s, line, kind).Done?
    ensures Flows(s.ledger, Move(s, line, kind).shop.ledger,
                  if line.variant == v then line.available else 0, kind, v, kinds)
  {
    var t := Move(s, line, kind).shop;
    FlowAppend(s.ledger, t.ledger[|s.ledger|], v, kinds);
  }

  lemma {:induction false} MoveFirstFlows(s: Shop, lines: seq<Line>, n: nat, kind: Kind, missing: Missing,
                                          v: VariantId, kinds: set<Kind>)
    requires n <= |lines| && MoveFirst(s, lines, n, kind, missing).Done? && v in s.variants
    ensures Flows(s.ledger, MoveFirst(s, lines, n, kind, missing).shop.ledger, AvailableTo(lines, n, v), kind, v, kinds)
  {
    if n != 0 {
      MoveFirstFlows(s, lines, n - 1, kind, missing, v, kinds);
      MoveFirstAdvances(s, lines, n - 1, kind, missing);
      var t := MoveFirst(s, lines, n - 1, kind, missing).shop;
      if lines[n - 1].variant in t.variants {
        MoveFlows(t, lines[n - 1], kind, v, kinds);
      }
    }
  }

  lemma MoveAllFlows(s: Shop, lines: seq<Line>, kind: Kind, missing: Missing, v: VariantId, kinds: set<Kind>)
    requires MoveAll(s, lines, kind, missing).Done? && v in s.variants
    ensures Flows(s.ledger, MoveAll(s, lines, kind, missing).shop.ledger, Available(lines, v), kind, v, kinds)
  {
    MoveFirstFlows(s, lines, |lines|, kind, missing, v, kinds);
  }

  /** The first `n` lines are entered one after the other, each with the balances
      it leaves. */
  ghost predicate EnteredTo(s: Shop, lines: seq<Line>, n: nat, kind: Kind, ledger: seq<Movement>)
    requires n <= |lines| && Present(s, lines)
  {
    && |ledger| == |s.ledger| + n && ledger[..|s.ledger|] == s.ledger
    && forall i | 0 <= i < n :: ledger[|s.ledger| + i] == EntryAt(s, lines, i, kind)
  }

  ghost function EntryAt(s: Shop, lines: seq<Line>, i: nat, kind: Kind): Movement
    requires i < |lines| && Present(s, lines)
  {
    var v := lines[i].variant;
    assert lines[i] in lines;
    Movement(Some(v), kind, lines[i].available, s.variants[v].stock + AvailableTo(lines, i + 1, v),
             s.variants[v].reserved + ReservingTo(lines, i + 1, v))
  }

  lemma {:induction false} MoveFirstEnters(s: Shop, lines: seq<Line>, n: nat, kind: Kind, missing: Missing)
    requires n <= |lines| && Present(s, lines) && MoveFirst(s, lines, n, kind, missing).Done?
    ensures EnteredTo(s, lines, n, kind, MoveFirst(s, lines, n, kind, missing).shop.ledger)
  {
    if n != 0 {
      MoveFirstEnters(s, lines, n - 1, kind, missing);
      MoveFirstAdvances(s, lines, n - 1, kind, missing);
      var t := MoveFirst(s, lines, n - 1, kind, missing).shop;
      var v := lines[n - 1].variant;
      assert lines[n - 1] in lines;
      assert t.variants[v] == Shifted(s.variants[v], lines, n - 1, v);
      EnteredMore(s, lines, n, kind, t);
    }
  }

  lemma EnteredMore(s: Shop, lines: seq<Line>, n: nat, kind: Kind, t: Shop)
    requires 0 < n <= |lines| && Present(s, lines) && EnteredTo(s, lines, n - 1, kind, t.ledger)
    requires lines[n - 1].variant in t.variants && lines[n - 1].variant in s.variants
    requires t.variants[lines[n - 1].variant]
          == Shifted(s.variants[lines[n - 1].variant], lines, n - 1, lines[n - 1].variant)
    requires Move(t, lines[n - 1], kind).Done?
    ensures EnteredTo(s, lines, n, kind, Move(t, lines[n - 1], kind).shop.ledger)
  {
    var u := Move(t, lines[n - 1], kind).shop;
    assert u.ledger[..|s.ledger|] == t.ledger[..|s.ledger|];
    forall i | 0 <= i < n
      ensures u.ledger[|s.ledger| + i] == EntryAt(s, lines, i, kind)
    {
      if i < n - 1 {
        assert u.ledger[|s.ledger| + i] == t.ledger[|s.ledger| + i];
      }
    }
  }

  lemma MoveBooks(s: Shop, line: Line, kind: Kind)
    requires line.variant in s.variants && Move(s, line, kind).Done?
    requires Books(s.variants, s.ledger) && ReservedMoves(kind, line.available, line.reserved)
    ensures var t := Move(s, line, kind).shop; Books(t.variants, t.ledger)
  {
    var t := Move(s, line, kind).shop;
    var m := t.ledger[|s.ledger|];
    assert t.ledger == s.ledger + [m];
    forall v | v in t.variants
      ensures Replays(Rows(t.ledger, v), t.variants[v])
    {
      RowsAppend(s.ledger, m, v);
      assert Replays(Rows(s.ledger, v), s.variants[v]);
      if v == line.variant {
        ReplaysAppend(Rows(s.ledger, v), s.variants[v], m, t.variants[v]);
      }
    }
  }

  lemma MoveCached(s: Shop, line: Line, kind: Kind)
    requires line.variant in s.variants && Move(s, line, kind).Done?
    requires Cached(s.variants, s.products)
    ensures var t := Move(s, line, kind).shop; Cached(t.variants, t.products)
  {
    var t := Move(s, line, kind).shop;
    var x := t.variants[line.variant];
    forall q | q in s.products && q != x.product
      ensures Of(t.variants, q) == Of(s.variants, q)
    {
      OfOthers(s.variants, line.variant, x, q);
    }
    SyncCaches(s.variants, t.variants, s.products, x.product);
  }

  /** Books survive any list of lines of a kind. */
  lemma {:induction false} MoveFirstBooks(s: Shop, lines: seq<Line>, n: nat, kind: Kind, missing: Missing)
    requires n <= |lines| && MoveFirst(s, lines, n, kind, missing).Done? && Books(s.variants, s.ledger)
    requires forall line <- lines :: ReservedMoves(kind, line.available, line.reserved)
    ensures var t := MoveFirst(s, lines, n, kind, missing).shop; Books(t.variants, t.ledger)
  {
    if n != 0 {
      MoveFirstBooks(s, lines, n - 1, kind, missing);
      var t := MoveFirst(s, lines, n - 1, kind, missing).shop;
      if lines[n - 1].variant in t.variants {
        MoveBooks(t, lines[n - 1], kind);
      }
    }
  }

  lemma MoveAllBooks(s: Shop, lines: seq<Line>, kind: Kind, missing: Missing)
    requires MoveAll(s, lines, kind, missing).Done? && Books(s.variants, s.ledger)
    requires forall line <- lines :: ReservedMoves(kind, line.available, line.reserved)
    ensures var t := MoveAll(s, lines, kind, missing).shop; Books(t.variants, t.ledger)
  {
    MoveFirstBooks(s, lines, |lines|, kind, missing);
  }

  /** So do the caches. */
  lemma {:induction false} MoveFirstCached(s: Shop, lines: seq<Line>, n: nat, kind: Kind, missing: Missing)
    requires n <= |lines| && MoveFirst(s, lines, n, kind, missing).Done? && Cached(s.variants, s.products)
    ensures var t := MoveFirst(s, lines, n, kind, missing).shop; Cached(t.variants, t.products)
  {
    if n != 0 {
      MoveFirstCached(s, lines, n - 1, kind, missing);
      var t := MoveFirst(s, lines, n - 1, kind, missing).shop;
      if lines[n - 1].variant in t.variants {
        MoveCached(t, lines[n - 1], kind);
      }
    }
  }

  lemma MoveAllCached(s: Shop, lines: seq<Line>, kind: Kind, missing: Missing)
    requires MoveAll(s, lines, kind, missing).Done? && Cached(s.variants, s.products)
    ensures var t := MoveAll(s, lines, kind, missing).shop; Cached(t.variants, t.products)
  {
    MoveFirstCached(s, lines, |lines|, kind, missing);
  }

  // ---- When lines can be moved ----------------------------------------------

  ghost predicate Present(s: Shop, lines: seq<Line>)
  {
    forall line <- lines :: line.variant in s.variants
  }

  ghost predicate Adds(lines: seq<Line>)
  {
    forall line <- lines :: 0 <= line.available
  }

  ghost predicate Takes(lines: seq<Line>)
  {
    forall line <- lines :: line.available <= 0
  }

  ghost predicate Reserves(lines: seq<Line>)
  {
    forall line <- lines :: 0 <= line.reserved
  }

  ghost predicate Frees(lines: seq<Line>)
  {
    forall line <- lines :: line.reserved <= 0
  }

  /** All lines push each balance the same way. */
  ghost predicate OneWay(lines: seq<Line>)
  {
    (Adds(lines) || Takes(lines)) && (Reserves(lines) || Frees(lines))
  }

  /** So what they add up to only grows one way. */
  lemma {:induction false} OneWaySums(lines: seq<Line>, n: nat, m: nat, v: VariantId)
    requires n <= m <= |lines|
    ensures Adds(lines) ==> AvailableTo(lines, n, v) <= AvailableTo(lines, m, v)
    ensures Takes(lines) ==> AvailableTo(lines, m, v) <= AvailableTo(lines, n, v)
    ensures Reserves(lines) ==> ReservingTo(lines, n, v) <= ReservingTo(lines, m, v)
    ensures Frees(lines) ==> ReservingTo(lines, m, v) <= ReservingTo(lines, n, v)
    decreases m
  {
    if n < m {
      OneWaySums(lines, n, m - 1, v);
      assert lines[m - 1] in lines;
    }
  }

  ghost predicate NonNegative(variants: map<VariantId, Variant>)
  {
    forall v <- variants :: 0 <= variants[v].stock && 0 <= variants[v].reserved
  }

  lemma BooksNonNegative(variants: map<VariantId, Variant>, ledger: seq<Movement>)
    requires Books(variants, ledger)
    ensures NonNegative(variants)
  {
    forall v | v in variants
      ensures 0 <= variants[v].stock && 0 <= variants[v].reserved
    {
      var rows := Rows(ledger, v);
      assert Replays(rows, variants[v]);
      if rows != [] {
        assert Follows(rows, |rows| - 1);
      }
    }
  }

  /** No reserved balance would end below zero. */
  ghost predicate ReservesSuffice(s: Shop, lines: seq<Line>)
  {
    forall v <- s.variants :: 0 <= s.variants[v].reserved + Reserving(lines, v)
  }

  ghost predicate StockSuffices(s: Shop, lines: seq<Line>)
  {
    forall v <- s.variants :: 0 <= s.variants[v].stock + Available(lines, v)
  }

  /** Neither balance runs out on the way if it does not at the end. */
  lemma NoDip(s: Shop, lines: seq<Line>, n: nat, v: VariantId)
    requires n <= |lines| && OneWay(lines) && v in s.variants && 0 <= s.variants[v].stock && 0 <= s.variants[v].reserved
    ensures 0 <= s.variants[v].stock + Available(lines, v) ==> 0 <= s.variants[v].stock + AvailableTo(lines, n, v)
    ensures 0 <= s.variants[v].reserved + Reserving(lines, v) ==> 0 <= s.variants[v].reserved + ReservingTo(lines, n, v)
  {
    OneWaySums(lines, n, |lines|, v);
    OneWaySums(lines, 0, n, v);
  }

  lemma {:induction false} MoveFirstDone(s: Shop, lines: seq<Line>, n: nat, kind: Kind, missing: Missing)
    requires n <= |lines|
    requires NonNegative(s.variants) && Present(s, lines) && OneWay(lines) && ReservesSuffice(s, lines)
    ensures StockSuffices(s, lines) ==> MoveFirst(s, lines, n, kind, missing).Done?
    ensures MoveFirst(s, lines, n, kind, missing).Refused? ==>
            MoveFirst(s, lines, n, kind, missing).error == INSUFFICIENT
  {
    if n != 0 {
      MoveFirstDone(s, lines, n - 1, kind, missing);
      if MoveFirst(s, lines, n - 1, kind, missing).Done? {
        MoveFirstAdvances(s, lines, n - 1, kind, missing);
        assert lines[n - 1] in lines;
        var v := lines[n - 1].variant;
        NoDip(s, lines, n, v);
        assert MoveFirst(s, lines, n - 1, kind, missing).shop.variants[v] == Shifted(s.variants[v], lines, n - 1, v);
      }
    }
  }

  /** No move leaves a balance below zero. */
  lemma {:induction false} MoveFirstNonNegative(s: Shop, lines: seq<Line>, n: nat, kind: Kind, missing: Missing)
    requires n <= |lines| && NonNegative(s.variants) && MoveFirst(s, lines, n, kind, missing).Done?
    ensures NonNegative(MoveFirst(s, lines, n, kind, missing).shop.variants)
  {
    if n != 0 {
      MoveFirstNonNegative(s, lines, n - 1, kind, missing);
    }
  }

  /** Lines that push one way, and do not overdraw the reserve, are moved
      exactly when the shelf has enough for all of them together. */
  lemma MoveAllVerdict(s: Shop, lines: seq<Line>, kind: Kind, missing: Missing)
    requires NonNegative(s.variants) && Present(s, lines) && OneWay(lines) && ReservesSuffice(s, lines)
    ensures MoveAll(s, lines, kind, missing).Done? <==> StockSuffices(s, lines)
    ensures MoveAll(s, lines, kind, missing).Refused? ==> MoveAll(s, lines, kind, missing).error == INSUFFICIENT
  {
    MoveFirstDone(s, lines, |lines|, kind, missing);
    if MoveAll(s, lines, kind, missing).Done? {
      MoveAllAdvances(s, lines, kind, missing);
      MoveFirstNonNegative(s, lines, |lines|, kind, missing);
      forall v | v in s.variants
        ensures 0 <= s.variants[v].stock + Available(lines, v)
      {
        assert MoveAll(s, lines, kind, missing).shop.variants[v] == Shifted(s.variants[v], lines, |lines|, v);
      }
    }
  }

  // ---- Order lines ----------------------------------------------------------

  datatype Sign = PLUS | ZERO | MINUS

  function Signed(sign: Sign, n: int): int {
    match sign
    case PLUS => n
    case ZERO => 0
    case MINUS => -n
  }

  function LineOf(item: Item, available: Sign, reserved: Sign): Line {
    Line(item.variant, Signed(available, item.quantity), Signed(reserved, item.quantity))
  }

  function Lines(items: seq<Item>, available: Sign, reserved: Sign): (lines: seq<Line>)
    ensures |lines| == |items|
    ensures forall i | 0 <= i < |items| :: lines[i] == LineOf(items[i], available, reserved)
  {
    seq(|items|, i requires 0 <= i < |items| => LineOf(items[i], available, reserved))
  }

  ghost function QuantityTo(items: seq<Item>, n: nat, v: VariantId): int
    requires n <= |items|
  {
    if n == 0 then 0 else QuantityTo(items, n - 1, v) + if items[n - 1].variant == v then items[n - 1].quantity else 0
  }

  /** How much of a variant the items come to. */
  ghost function Quantity(items: seq<Item>, v: VariantId): int {
    QuantityTo(items, |items|, v)
  }

  lemma {:induction false} LinesQuantityTo(items: seq<Item>, n: nat, a: Sign, r: Sign, v: VariantId)
    requires n <= |items|
    ensures AvailableTo(Lines(items, a, r), n, v) == Signed(a, QuantityTo(items, n, v))
    ensures ReservingTo(Lines(items, a, r), n, v) == Signed(r, QuantityTo(items, n, v))
  {
    if n != 0 {
      LinesQuantityTo(items, n - 1, a, r, v);
    }
  }

  lemma LinesQuantity(items: seq<Item>, a: Sign, r: Sign, v: VariantId)
    ensures Available(Lines(items, a, r), v) == Signed(a, Quantity(items, v))
    ensures Reserving(Lines(items, a, r), v) == Signed(r, Quantity(items, v))
  {
    LinesQuantityTo(items, |items|, a, r, v);
  }

  lemma {:induction false} QuantityNonNegative(items: seq<Item>, n: nat, v: VariantId)
    requires n <= |items| && forall item <- items :: 0 <= item.quantity
    ensures 0 <= QuantityTo(items, n, v)
  {
    if n != 0 {
      QuantityNonNegative(items, n - 1, v);
      assert items[n - 1] in items;
    }
  }

  // ---- What items cost ------------------------------------------------------

  function ChargeTo(items: seq<Item>, n: nat): int
    requires n <= |items|
  {
    if n == 0 then 0 else ChargeTo(items, n - 1) + items[n - 1].unitPrice * items[n - 1].quantity
  }

  function Charge(items: seq<Item>): int {
    ChargeTo(items, |items|)
  }

  lemma {:induction false} ChargeNonNegative(items: seq<Item>, n: nat)
    requires n <= |items| && forall item <- items :: 0 <= item.quantity && 0 <= item.unitPrice
    ensures 0 <= ChargeTo(items, n)
  {
    if n != 0 {
      ChargeNonNegative(items, n - 1);
      assert items[n - 1] in items;
      assert 0 <= items[n - 1].unitPrice * items[n - 1].quantity;
    }
  }
}
