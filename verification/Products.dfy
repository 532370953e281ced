/** Adding, editing, adjusting and removing products and their variants. */
module Products {
  import opened Wrappers
  import opened Lifecycle
  import opened Sums
  import opened Inventory
  import opened Invariants

  const MAX_VARIANTS := 100

  // ---- Adding ---------------------------------------------------------------

  datatype VariantData = VariantData(price: int, stock: int, threshold: int, active: bool)

  function NewVariant(p: ProductId, d: VariantData): Variant {
    Variant(p, 0, 0, d.threshold, d.price, d.active)
  }

  /** New rows, one for each of `ids`, empty until their opening balance. */
  function NewRows(p: ProductId, ids: seq<VariantId>, data: seq<VariantData>, n: nat): map<VariantId, Variant>
    requires n <= |ids| == |data|
  {
    if n == 0 then map[] else NewRows(p, ids, data, n - 1)[ids[n - 1] := NewVariant(p, data[n - 1])]
  }

  /** The opening balances that are not zero. */
  function Openings(ids: seq<VariantId>, data: seq<VariantData>, n: nat): seq<Line>
    requires n <= |ids| == |data|
  {
    if n == 0 then []
    else if data[n - 1].stock == 0 then Openings(ids, data, n - 1)
    else Openings(ids, data, n - 1) + [Line(ids[n - 1], data[n - 1].stock, 0)]
  }

  /** The tables with a product row written and variants added to it. */
  ghost function Added(s: Shop, p: ProductId, x: Product, rows: map<VariantId, Variant>): Shop {
    s.(variants := s.variants + rows, products := s.products[p := x])
  }

  ghost function Sync(out: Outcome, p: ProductId): Outcome {
    if out.Refused? then out else Done(out.shop.(products := Synced(out.shop.products, out.shop.variants, p)))
  }

  ghost function Open(s: Shop, p: ProductId, x: Product, ids: seq<VariantId>, data: seq<VariantData>): Outcome
    requires |ids| == |data|
  {
    Sync(MoveAll(Added(s, p, x, NewRows(p, ids, data, |ids|)), Openings(ids, data, |ids|), OPENING_BALANCE, REFUSE), p)
  }

  /** Without variants of its own, a product gets one from its own columns. */
  function Requested(price: int, stock: int, threshold: int, variants: seq<VariantData>): seq<VariantData> {
    if variants == [] then [VariantData(price, stock, threshold, true)] else variants
  }

  predicate AnyNegative(data: seq<VariantData>) {
    exists d <- data :: d.price < 0
  }

  /** `create_product`; `unique` is whether the options, SKUs and barcodes are. */
  ghost function Create(s: Shop, p: ProductId, ids: seq<VariantId>, price: int, threshold: int,
                        data: seq<VariantData>, unique: bool): Outcome
    requires |ids| == |data|
  {
    if !unique then Refused(CONFLICT)
    else if AnyNegative(data) then Refused(NEGATIVE_PRICE)
    else Open(s, p, Product(true, 0, 0, threshold, price), ids, data)
  }

  /** `create_product_variant` */
  ghost function CreateVariant(s: Shop, p: ProductId, v: VariantId, d: VariantData, unique: bool): Outcome {
    if p !in s.products then Refused(NOT_FOUND)
    else if |Of(s.variants, p)| >= MAX_VARIANTS then Refused(BAD_REQUEST)
    else if !unique then Refused(CONFLICT)
    else if d.price < 0 then Refused(NEGATIVE_PRICE)
    else Open(s, p, s.products[p], [v], [d])
  }

  // ---- Editing and adjusting ------------------------------------------------

  function Or<T>(given: Option<T>, was: T): T {
    if given.Some? then given.value else was
  }

  predicate Negative(price: Option<int>) {
    price.Some? && price.value < 0
  }

  function Revised(x: Variant, price: Option<int>, threshold: Option<int>, active: Option<bool>): Variant {
    x.(price := Or(price, x.price), threshold := Or(threshold, x.threshold), active := Or(active, x.active))
  }

  /** `update_product_variant` */
  ghost function UpdateVariant(s: Shop, p: ProductId, v: VariantId, price: Option<int>, threshold: Option<int>,
                               active: Option<bool>, unique: bool): Outcome
  {
    if p !in s.products || v !in s.variants || s.variants[v].product != p then Refused(NOT_FOUND)
    else if !unique then Refused(CONFLICT)
    else if Negative(price) then Refused(NEGATIVE_PRICE)
    else
      Sync(Done(s.(variants := s.variants[v := Revised(s.variants[v], price, threshold, active)])), p)
  }

  /** A product's variant, if it has just one. */
  ghost function OnlyOf(variants: map<VariantId, Variant>, p: ProductId): (only: Option<VariantId>)
    ensures only.Some? ==>
              Of(variants, p).Keys == {only.value} && only.value in variants && variants[only.value].product == p
    ensures only.None? ==> forall v :: Of(variants, p).Keys != {v}
  {
    if v :| Of(variants, p).Keys == {v} then
      assert v in Of(variants, p);
      Some(v)
    else None
  }

  /** `adjust_product_stock` */
  ghost function Adjust(s: Shop, p: ProductId, variant: Option<VariantId>, delta: int): Outcome
  {
    if p !in s.products then Refused(NOT_FOUND)
    else if variant.None? then
      match OnlyOf(s.variants, p)
      case None => Refused(BAD_REQUEST)
      case Some(v) => Move(s, Line(v, delta, 0), MANUAL_ADJUSTMENT)
    else if variant.value !in Of(s.variants, p) then Refused(NOT_FOUND)
    else Move(s, Line(variant.value, delta, 0), MANUAL_ADJUSTMENT)
  }

  /** The stock part of `update_product`. */
  ghost function Restock(s: Shop, p: ProductId, stock: Option<int>): Outcome
    requires p in s.products
  {
    if stock.None? || stock.value == s.products[p].stock then Done(s)
    else match OnlyOf(s.variants, p)
         case None => Refused(BAD_REQUEST)
         case Some(v) => Move(s, Line(v, stock.value - s.variants[v].stock, 0), MANUAL_ADJUSTMENT)
  }

  ghost function RevisedRows(s: Shop, p: ProductId, price: Option<int>, threshold: Option<int>):
    map<VariantId, Variant>
  {
    match OnlyOf(s.variants, p)
    case None => s.variants
    case Some(v) => s.variants[v := Revised(s.variants[v], price, threshold, None)]
  }

  function RevisedProduct(x: Product, price: Option<int>, threshold: Option<int>, active: Option<bool>): Product {
    x.(active := Or(active, x.active), price := Or(price, x.price), threshold := Or(threshold, x.threshold))
  }

  /** The rest of it: an only variant takes the product's price and threshold,
      and several must keep theirs. */
  ghost function Revise(s: Shop, p: ProductId, price: Option<int>, threshold: Option<int>,
                        active: Option<bool>): Outcome
    requires p in s.products
  {
    var x := s.products[p];
    var several := |Of(s.variants, p)| > 1;
    if several && price.Some? && price.value != x.price then Refused(BAD_REQUEST)
    else if several && threshold.Some? && threshold.value != x.threshold then Refused(BAD_REQUEST)
    else if OnlyOf(s.variants, p).Some? && Negative(price) then Refused(NEGATIVE_PRICE)
    else
      Sync(Done(s.(variants := RevisedRows(s, p, price, threshold),
                   products := s.products[p := RevisedProduct(x, price, threshold, active)])), p)
  }

  /** `update_product` */
  ghost function UpdateProduct(s: Shop, p: ProductId, stock: Option<int>, price: Option<int>, threshold: Option<int>,
                               active: Option<bool>): Outcome
  {
    if p !in s.products then Refused(NOT_FOUND)
    else
      var restocked := Restock(s, p, stock);
      if restocked.Refused? || p !in restocked.shop.products then restocked
      else Revise(restocked.shop, p, price, threshold, active)
  }

  // ---- Removing -------------------------------------------------------------

  /** The database refuses to delete a variant that an order, a purchase or a
      return refers to. */
  ghost predicate Referenced(s: Shop, gone: set<VariantId>)
  {
    || (exists id <- s.orders :: exists item <- s.orders[id].items :: item.variant in gone)
    || (exists id <- s.purchases :: exists line <- s.purchases[id].lines :: line.variant in gone)
    || (exists id <- s.salesReturns :: exists line <- s.salesReturns[id].lines :: line.variant in gone)
  }

  function Blanked(m: Movement, gone: set<VariantId>): Movement {
    if m.variant.Some? && m.variant.value in gone then m.(variant := None) else m
  }

  /** The ledger once the links to deleted variants are blanked. */
  function Forgotten(ledger: seq<Movement>, gone: set<VariantId>): (rest: seq<Movement>)
    ensures |rest| == |ledger| && forall i | 0 <= i < |ledger| :: rest[i] == Blanked(ledger[i], gone)
  {
    seq(|ledger|, i requires 0 <= i < |ledger| => Blanked(ledger[i], gone))
  }

  ghost function Without(s: Shop, gone: set<VariantId>): Shop {
    s.(variants := s.variants - gone, ledger := Forgotten(s.ledger, gone))
  }

  /** `delete_product_variant` */
  ghost function DeleteVariant(s: Shop, p: ProductId, v: VariantId): Outcome
  {
    if p !in s.products || v !in s.variants || s.variants[v].product != p then Refused(NOT_FOUND)
    else if |Of(s.variants, p)| <= 1 then Refused(CONFLICT)
    else if s.variants[v].stock != 0 || s.variants[v].reserved != 0 then Refused(CONFLICT)
    else if Referenced(s, {v}) then Refused(CONFLICT)
    else Sync(Done(Without(s, {v})), p)
  }

  /** `delete_product` */
  ghost function DeleteProduct(s: Shop, p: ProductId): Outcome
  {
    if p !in s.products then Refused(NOT_FOUND)
    else if Referenced(s, Of(s.variants, p).Keys) then Refused(CONFLICT)
    else Done(Without(s, Of(s.variants, p).Keys).(products := s.products - {p}))
  }

  // ---- Soundness of edits ---------------------------------------------------

  /** Edits that leave stock, reserve and product of every variant alone, touch
      one product and set no negative price. */
  ghost predicate Edits(variants: map<VariantId, Variant>, variants': map<VariantId, Variant>, p: ProductId)
  {
    && variants'.Keys == variants.Keys
    && forall v <- variants ::
         && variants'[v].product == variants[v].product
         && variants'[v].stock == variants[v].stock && variants'[v].reserved == variants[v].reserved
         && (variants[v].product != p ==> variants'[v] == variants[v])
         && (0 <= variants[v].price ==> 0 <= variants'[v].price)
  }

  lemma EditCore(s: Shop, p: ProductId, variants': map<VariantId, Variant>, products': map<ProductId, Product>)
    requires Core(s) && Edits(s.variants, variants', p) && products'.Keys == s.products.Keys
    ensures Core(s.(variants := variants', products := products'))
  {
    forall v | v in variants'
      ensures Replays(Rows(s.ledger, v), variants'[v])
    {
      assert Replays(Rows(s.ledger, v), s.variants[v]);
    }
    forall q | q in products'
      ensures HasVariant(variants', q)
    {
      assert HasVariant(s.variants, q);
      var v :| v in s.variants && s.variants[v].product == q;
      assert v in variants';
    }
    forall v | v in variants'
      ensures Balanced(variants', s.orders, s.ledger, v) && Supplied(s.ledger, s.purchases, s.salesReturns, v)
    {
      assert Balanced(s.variants, s.orders, s.ledger, v) && Supplied(s.ledger, s.purchases, s.salesReturns, v);
    }
  }

  lemma EditCached(s: Shop, p: ProductId, variants': map<VariantId, Variant>, x: Product)
    requires Cached(s.variants, s.products) && p in s.products && Edits(s.variants, variants', p)
    ensures Cached(variants', Synced(s.products[p := x], variants', p))
  {
    forall q | q in s.products && q != p
      ensures Of(variants', q) == Of(s.variants, q)
    {
    }
    SyncCaches(s.variants, variants', s.products[p := x], p);
  }

  lemma EditSound(s: Shop, p: ProductId, variants': map<VariantId, Variant>, x: Product)
    requires Sound(s) && p in s.products && Edits(s.variants, variants', p)
    ensures Sound(s.(variants := variants', products := Synced(s.products[p := x], variants', p)))
  {
    EditCore(s, p, variants', Synced(s.products[p := x], variants', p));
    EditCached(s, p, variants', x);
  }

  lemma UpdateVariantSound(s: Shop, p: ProductId, v: VariantId, price: Option<int>, threshold: Option<int>,
                           active: Option<bool>, unique: bool)
    requires Sound(s) && UpdateVariant(s, p, v, price, threshold, active, unique).Done?
    ensures Sound(UpdateVariant(s, p, v, price, threshold, active, unique).shop)
  {
    EditSound(s, p, s.variants[v := Revised(s.variants[v], price, threshold, active)], s.products[p]);
    assert s.products[p := s.products[p]] == s.products;
  }

  lemma OneLine(s: Shop, line: Line, kind: Kind)
    requires line.variant in s.variants
    ensures MoveAll(s, [line], kind, REFUSE) == Move(s, line, kind)
  {
    assert MoveFirst(s, [line], 0, kind, REFUSE) == Done(s);
  }

  lemma AdjustmentSound(s: Shop, line: Line)
    requires Sound(s) && line.variant in s.variants && line.reserved == 0
    requires Move(s, line, MANUAL_ADJUSTMENT).Done?
    ensures Sound(Move(s, line, MANUAL_ADJUSTMENT).shop)
    ensures Move(s, line, MANUAL_ADJUSTMENT).shop.products.Keys == s.products.Keys
  {
    OneLine(s, line, MANUAL_ADJUSTMENT);
    FreelyMoved(s, [line], MANUAL_ADJUSTMENT, REFUSE);
    MoveCached(s, line, MANUAL_ADJUSTMENT);
  }

  lemma AdjustSound(s: Shop, p: ProductId, variant: Option<VariantId>, delta: int)
    requires Sound(s) && Adjust(s, p, variant, delta).Done?
    ensures Sound(Adjust(s, p, variant, delta).shop)
  {
    AdjustmentSound(s, Line(if variant.Some? then variant.value else OnlyOf(s.variants, p).value, delta, 0));
  }

  lemma RestockIs(s: Shop, p: ProductId, stock: Option<int>) returns (line: Line)
    requires p in s.products && stock.Some? && stock.value != s.products[p].stock && Restock(s, p, stock).Done?
    ensures line.variant in s.variants && line.reserved == 0
    ensures Restock(s, p, stock) == Move(s, line, MANUAL_ADJUSTMENT)
  {
    var v := OnlyOf(s.variants, p).value;
    line := Line(v, stock.value - s.variants[v].stock, 0);
  }

  lemma RestockSound(s: Shop, p: ProductId, stock: Option<int>)
    requires Sound(s) && p in s.products && Restock(s, p, stock).Done?
    ensures Sound(Restock(s, p, stock).shop) && p in Restock(s, p, stock).shop.products
  {
    if stock.Some? && stock.value != s.products[p].stock {
      var line := RestockIs(s, p, stock);
      AdjustmentSound(s, line);
    }
  }

  lemma ReviseSound(s: Shop, p: ProductId, price: Option<int>, threshold: Option<int>, active: Option<bool>)
    requires Sound(s) && p in s.products && Revise(s, p, price, threshold, active).Done?
    ensures Sound(Revise(s, p, price, threshold, active).shop)
  {
    EditSound(s, p, RevisedRows(s, p, price, threshold), RevisedProduct(s.products[p], price, threshold, active));
  }

  lemma UpdateProductSound(s: Shop, p: ProductId, stock: Option<int>, price: Option<int>, threshold: Option<int>,
                           active: Option<bool>)
    requires Sound(s) && UpdateProduct(s, p, stock, price, threshold, active).Done?
    ensures Sound(UpdateProduct(s, p, stock, price, threshold, active).shop)
  {
    RestockSound(s, p, stock);
    ReviseSound(Restock(s, p, stock).shop, p, price, threshold, active);
  }

  // ---- Soundness of additions -----------------------------------------------

  lemma {:induction false} NeverMoved(ledger: seq<Movement>, n: nat, v: VariantId, kinds: set<Kind>)
    requires n <= |ledger| && forall m <- ledger :: m.variant != Some(v)
    ensures RowsTo(ledger, n, v) == [] && FlowTo(ledger, n, v, kinds) == 0
  {
    if n != 0 {
      NeverMoved(ledger, n - 1, v, kinds);
      assert ledger[n - 1] in ledger;
    }
  }

  lemma {:induction false} NeverOrdered(items: seq<Item>, n: nat, v: VariantId, known: set<VariantId>)
    requires n <= |items| && ItemsKnown(items, known) && v !in known
    ensures QuantityTo(items, n, v) == 0
  {
    if n != 0 {
      NeverOrdered(items, n - 1, v, known);
      assert items[n - 1] in items;
    }
  }

  lemma NeverHeld(orders: map<OrderId, Order>, v: VariantId, known: set<VariantId>, statuses: set<Status>)
    requires OrdersKnown(orders, known) && v !in known
    ensures Held(orders, v, statuses) == 0
  {
    var column := HeldColumn(orders, v, statuses);
    forall id | id in column
      ensures column[id] == 0
    {
      assert ItemsKnown(orders[id].items, known);
      NeverOrdered(orders[id].items, |orders[id].items|, v, known);
    }
    SumZero(column);
  }

  lemma {:induction false} NeverListed(lines: seq<PurchaseLine>, n: nat, v: VariantId, known: set<VariantId>)
    requires n <= |lines| && LinesKnown(lines, known) && v !in known
    ensures LinesReceivedTo(lines, n, v) == 0
  {
    if n != 0 {
      NeverListed(lines, n - 1, v, known);
      assert lines[n - 1] in lines;
    }
  }

  lemma NeverBought(purchases: map<PurchaseId, Purchase>, v: VariantId, known: set<VariantId>)
    requires PurchasesKnown(purchases, known) && v !in known
    ensures Bought(purchases, v) == 0
  {
    var column := BoughtColumn(purchases, v);
    forall id | id in column
      ensures column[id] == 0
    {
      assert LinesKnown(purchases[id].lines, known);
      NeverListed(purchases[id].lines, |purchases[id].lines|, v, known);
    }
    SumZero(column);
  }

  lemma {:induction false} NeverReturned(r: Return, orders: map<OrderId, Order>, n: nat, v: VariantId,
                                         known: set<VariantId>)
    requires n <= |r.lines| && ReturnOk(r, orders) && OrdersKnown(orders, known) && v !in known
    ensures LinesRestockedTo(r.lines, n, v) == 0
  {
    if n != 0 {
      NeverReturned(r, orders, n - 1, v, known);
      assert r.lines[n - 1] in r.lines;
      assert ReturnLineOk(r.lines[n - 1], orders[r.order].items);
      assert ItemsKnown(orders[r.order].items, known);
      assert orders[r.order].items[r.lines[n - 1].item] in orders[r.order].items;
    }
  }

  lemma NeverRestocked(all: map<ReturnId, Return>, orders: map<OrderId, Order>, v: VariantId, known: set<VariantId>)
    requires ReturnsOk(all, orders) && OrdersKnown(orders, known) && v !in known
    ensures Restocked(all, v) == 0
  {
    var column := RestockedColumn(all, v);
    forall id | id in column
      ensures column[id] == 0
    {
      assert ReturnOk(all[id], orders);
      NeverReturned(all[id], orders, |all[id].lines|, v, known);
    }
    SumZero(column);
  }

  /** A variant nobody knows yet has empty books. */
  lemma Fresh(s: Shop, v: VariantId, x: Variant)
    requires Core(s) && v !in s.variants && x.stock == 0 && x.reserved == 0
    ensures Replays(Rows(s.ledger, v), x)
    ensures x.reserved == Held(s.orders, v, RESERVING)
            && x.stock + Held(s.orders, v, HOLDING) == Flow(s.ledger, v, SUPPLY)
    ensures Supplied(s.ledger, s.purchases, s.salesReturns, v)
  {
    NeverMoved(s.ledger, |s.ledger|, v, SUPPLY);
    NeverMoved(s.ledger, |s.ledger|, v, {PURCHASE_RECEIVED});
    NeverMoved(s.ledger, |s.ledger|, v, {RETURN_RECEIVED});
    NeverHeld(s.orders, v, s.variants.Keys, RESERVING);
    NeverHeld(s.orders, v, s.variants.Keys, HOLDING);
    NeverBought(s.purchases, v, s.variants.Keys);
    NeverRestocked(s.salesReturns, s.orders, v, s.variants.Keys);
  }

  ghost predicate EmptyRows(rows: map<VariantId, Variant>, p: ProductId)
  {
    forall v <- rows :: rows[v].product == p && rows[v].stock == 0 && rows[v].reserved == 0
  }

  ghost predicate FairPrices(rows: map<VariantId, Variant>)
  {
    forall v <- rows :: 0 <= rows[v].price
  }

  lemma AddedStocked(s: Shop, p: ProductId, x: Product, rows: map<VariantId, Variant>)
    requires Stocked(s.variants, s.products) && s.variants.Keys !! rows.Keys && EmptyRows(rows, p)
    requires FairPrices(rows) && (p in s.products || rows != map[])
    ensures Stocked(Added(s, p, x, rows).variants, Added(s, p, x, rows).products)
  {
    var t := Added(s, p, x, rows);
    forall q | q in t.products
      ensures HasVariant(t.variants, q)
    {
      if q in s.products {
        assert HasVariant(s.variants, q);
        var v :| v in s.variants && s.variants[v].product == q;
        assert t.variants[v] == s.variants[v];
      } else {
        var v :| v in rows;
        assert t.variants[v] == rows[v];
      }
    }
  }

  lemma KnownGrows(orders: map<OrderId, Order>, purchases: map<PurchaseId, Purchase>, known: set<VariantId>,
                   more: set<VariantId>)
    requires OrdersKnown(orders, known) && PurchasesKnown(purchases, known) && known <= more
    ensures OrdersKnown(orders, more) && PurchasesKnown(purchases, more)
  {
    forall id | id in orders
      ensures ItemsKnown(orders[id].items, more)
    {
      assert ItemsKnown(orders[id].items, known);
    }
    forall id | id in purchases
      ensures LinesKnown(purchases[id].lines, more)
    {
      assert LinesKnown(purchases[id].lines, known);
    }
  }

  lemma AddedCore(s: Shop, p: ProductId, x: Product, rows: map<VariantId, Variant>)
    requires Core(s) && s.variants.Keys !! rows.Keys && EmptyRows(rows, p) && FairPrices(rows)
    requires p in s.products || rows != map[]
    ensures Core(Added(s, p, x, rows))
  {
    var t := Added(s, p, x, rows);
    AddedStocked(s, p, x, rows);
    KnownGrows(s.orders, s.purchases, s.variants.Keys, t.variants.Keys);
    forall v | v in t.variants
      ensures Replays(Rows(t.ledger, v), t.variants[v])
      ensures Balanced(t.variants, t.orders, t.ledger, v) && Supplied(t.ledger, t.purchases, t.salesReturns, v)
    {
      if v in s.variants {
        assert t.variants[v] == s.variants[v];
        assert Replays(Rows(s.ledger, v), s.variants[v]);
        assert Balanced(s.variants, s.orders, s.ledger, v) && Supplied(s.ledger, s.purchases, s.salesReturns, v);
      } else {
        Fresh(s, v, t.variants[v]);
      }
    }
  }

  lemma {:induction false} NewRowsAre(p: ProductId, ids: seq<VariantId>, data: seq<VariantData>, n: nat)
    requires n <= |ids| == |data|
    ensures forall v :: v in NewRows(p, ids, data, n) <==> v in ids[..n]
    ensures EmptyRows(NewRows(p, ids, data, n), p)
    ensures !AnyNegative(data) ==> FairPrices(NewRows(p, ids, data, n))
  {
    if n != 0 {
      NewRowsAre(p, ids, data, n - 1);
      assert data[n - 1] in data;
      assert ids[..n] == ids[..n - 1] + [ids[n - 1]];
    }
  }

  ghost predicate MovesOnly(lines: seq<Line>, variants: map<VariantId, Variant>, p: ProductId)
  {
    forall line <- lines :: line.variant in variants && variants[line.variant].product == p
  }

  lemma {:induction false} OpeningsAre(p: ProductId, ids: seq<VariantId>, data: seq<VariantData>, n: nat)
    requires n <= |ids| == |data| && forall d <- data :: 0 <= d.stock
    ensures forall line <- Openings(ids, data, n) :: line.variant in ids && 0 <= line.available && line.reserved == 0
  {
    if n != 0 {
      OpeningsAre(p, ids, data, n - 1);
      assert ids[n - 1] in ids && data[n - 1] in data;
    }
  }

  lemma MoveCachedBut(s: Shop, line: Line, kind: Kind, p: ProductId)
    requires line.variant in s.variants && s.variants[line.variant].product == p && Move(s, line, kind).Done?
    requires CachedBut(s.variants, s.products, p)
    ensures var t := Move(s, line, kind).shop; CachedBut(t.variants, t.products, p)
  {
    var t := Move(s, line, kind).shop;
    forall q | q in t.products && q != p
      ensures t.products[q] == Totals(t.products[q], Of(t.variants, q))
    {
      OfOthers(s.variants, line.variant, t.variants[line.variant], q);
      assert s.products[q] == Totals(s.products[q], Of(s.variants, q));
    }
  }

  lemma {:induction false} MoveFirstCachedBut(s: Shop, lines: seq<Line>, n: nat, kind: Kind, missing: Missing,
                                              p: ProductId)
    requires n <= |lines| && MoveFirst(s, lines, n, kind, missing).Done? && MovesOnly(lines, s.variants, p)
    requires CachedBut(s.variants, s.products, p)
    ensures var t := MoveFirst(s, lines, n, kind, missing).shop; CachedBut(t.variants, t.products, p)
  {
    if n != 0 {
      MoveFirstCachedBut(s, lines, n - 1, kind, missing, p);
      MoveFirstAdvances(s, lines, n - 1, kind, missing);
      var t := MoveFirst(s, lines, n - 1, kind, missing).shop;
      var line := lines[n - 1];
      assert line in lines;
      assert t.variants[line.variant] == Shifted(s.variants[line.variant], lines, n - 1, line.variant);
      MoveCachedBut(t, line, kind, p);
    }
  }

  lemma AddedCachedBut(s: Shop, p: ProductId, x: Product, rows: map<VariantId, Variant>)
    requires Cached(s.variants, s.products) && s.variants.Keys !! rows.Keys && EmptyRows(rows, p)
    ensures CachedBut(Added(s, p, x, rows).variants, Added(s, p, x, rows).products, p)
  {
    var t := Added(s, p, x, rows);
    forall q | q in t.products && q != p
      ensures t.products[q] == Totals(t.products[q], Of(t.variants, q))
    {
      assert Of(t.variants, q) == Of(s.variants, q);
      assert s.products[q] == Totals(s.products[q], Of(s.variants, q));
    }
  }

  ghost predicate FreshIds(s: Shop, ids: seq<VariantId>)
  {
    (forall v <- ids :: v !in s.variants) && (forall i, j | 0 <= i < j < |ids| :: ids[i] != ids[j])
  }

  /** The product with its new rows is ready for its opening balances. */
  lemma AddedReady(s: Shop, p: ProductId, x: Product, ids: seq<VariantId>, data: seq<VariantData>)
    requires Sound(s) && |ids| == |data| && ids != [] && FreshIds(s, ids) && !AnyNegative(data)
    ensures var t := Added(s, p, x, NewRows(p, ids, data, |ids|));
            && Core(t) && CachedBut(t.variants, t.products, p)
            && forall v <- ids :: v in t.variants && t.variants[v].product == p
  {
    var rows := NewRows(p, ids, data, |ids|);
    NewRowsAre(p, ids, data, |ids|);
    assert ids[..|ids|] == ids && ids[0] in ids;
    AddedCore(s, p, x, rows);
    AddedCachedBut(s, p, x, rows);
  }

  lemma OpenedSound(t: Shop, p: ProductId, lines: seq<Line>)
    requires Core(t) && CachedBut(t.variants, t.products, p) && p in t.products
    requires MovesOnly(lines, t.variants, p) && forall line <- lines :: 0 <= line.available && line.reserved == 0
    ensures var out := Sync(MoveAll(t, lines, OPENING_BALANCE, REFUSE), p); out.Done? && Sound(out.shop)
  {
    BooksNonNegative(t.variants, t.ledger);
    OpeningsGoThrough(t, lines);
    FreelyMoved(t, lines, OPENING_BALANCE, REFUSE);
    MoveFirstCachedBut(t, lines, |lines|, OPENING_BALANCE, REFUSE, p);
    MoveAllAdvances(t, lines, OPENING_BALANCE, REFUSE);
  }

  /** Opening balances always go through, and the product's totals end right. */
  lemma OpenSound(s: Shop, p: ProductId, x: Product, ids: seq<VariantId>, data: seq<VariantData>)
    requires Sound(s) && |ids| == |data| && ids != [] && FreshIds(s, ids)
    requires !AnyNegative(data) && forall d <- data :: 0 <= d.stock
    ensures Open(s, p, x, ids, data).Done? && Sound(Open(s, p, x, ids, data).shop)
  {
    AddedReady(s, p, x, ids, data);
    OpeningsAre(p, ids, data, |ids|);
    OpenedSound(Added(s, p, x, NewRows(p, ids, data, |ids|)), p, Openings(ids, data, |ids|));
  }

  lemma OpeningsGoThrough(t: Shop, lines: seq<Line>)
    requires NonNegative(t.variants) && Present(t, lines)
    requires forall line <- lines :: 0 <= line.available && line.reserved == 0
    ensures MoveAll(t, lines, OPENING_BALANCE, REFUSE).Done?
  {
    forall v | v in t.variants
      ensures 0 <= Available(lines, v) && 0 <= Reserving(lines, v)
    {
      OneWaySums(lines, 0, |lines|, v);
    }
    MoveAllVerdict(t, lines, OPENING_BALANCE, REFUSE);
  }

  // ---- Soundness of removals ------------------------------------------------

  lemma {:induction false} ForgottenRows(ledger: seq<Movement>, gone: set<VariantId>, n: nat, v: VariantId)
    requires n <= |ledger| && v !in gone
    ensures RowsTo(Forgotten(ledger, gone), n, v) == RowsTo(ledger, n, v)
  {
    if n != 0 {
      ForgottenRows(ledger, gone, n - 1, v);
    }
  }

  lemma {:induction false} ForgottenFlow(ledger: seq<Movement>, gone: set<VariantId>, n: nat, v: VariantId,
                                         kinds: set<Kind>)
    requires n <= |ledger| && v !in gone
    ensures FlowTo(Forgotten(ledger, gone), n, v, kinds) == FlowTo(ledger, n, v, kinds)
  {
    if n != 0 {
      ForgottenFlow(ledger, gone, n - 1, v, kinds);
    }
  }

  lemma ForgottenAt(s: Shop, gone: set<VariantId>, v: VariantId)
    requires v in s.variants && v !in gone
    requires Replays(Rows(s.ledger, v), s.variants[v])
    requires Balanced(s.variants, s.orders, s.ledger, v) && Supplied(s.ledger, s.purchases, s.salesReturns, v)
    ensures var t := Without(s, gone);
            && Replays(Rows(t.ledger, v), t.variants[v])
            && Balanced(t.variants, t.orders, t.ledger, v) && Supplied(t.ledger, t.purchases, t.salesReturns, v)
  {
    ForgottenRows(s.ledger, gone, |s.ledger|, v);
    ForgottenFlow(s.ledger, gone, |s.ledger|, v, SUPPLY);
    ForgottenFlow(s.ledger, gone, |s.ledger|, v, {PURCHASE_RECEIVED});
    ForgottenFlow(s.ledger, gone, |s.ledger|, v, {RETURN_RECEIVED});
  }

  lemma KnownShrinks(s: Shop, gone: set<VariantId>)
    requires OrdersKnown(s.orders, s.variants.Keys) && PurchasesKnown(s.purchases, s.variants.Keys)
             && !Referenced(s, gone)
    ensures OrdersKnown(s.orders, s.variants.Keys - gone) && PurchasesKnown(s.purchases, s.variants.Keys - gone)
  {
    forall id | id in s.orders
      ensures ItemsKnown(s.orders[id].items, s.variants.Keys - gone)
    {
      assert ItemsKnown(s.orders[id].items, s.variants.Keys);
    }
    forall id | id in s.purchases
      ensures LinesKnown(s.purchases[id].lines, s.variants.Keys - gone)
    {
      assert LinesKnown(s.purchases[id].lines, s.variants.Keys);
    }
  }

  lemma WithoutCore(s: Shop, gone: set<VariantId>, products: map<ProductId, Product>)
    requires Core(s) && !Referenced(s, gone) && Stocked(s.variants - gone, products)
    ensures Core(Without(s, gone).(products := products))
  {
    var t := Without(s, gone);
    KnownShrinks(s, gone);
    assert t.variants.Keys == s.variants.Keys - gone;
    forall v | v in t.variants
      ensures Replays(Rows(t.ledger, v), t.variants[v])
      ensures Balanced(t.variants, t.orders, t.ledger, v) && Supplied(t.ledger, t.purchases, t.salesReturns, v)
    {
      assert Replays(Rows(s.ledger, v), s.variants[v]);
      assert Balanced(s.variants, s.orders, s.ledger, v) && Supplied(s.ledger, s.purchases, s.salesReturns, v);
      ForgottenAt(s, gone, v);
    }
  }

  lemma DeleteVariantSound(s: Shop, p: ProductId, v: VariantId)
    requires Sound(s) && DeleteVariant(s, p, v).Done?
    ensures Sound(DeleteVariant(s, p, v).shop)
  {
    var t := Without(s, {v});
    OtherRemains(s, p, v);
    forall q | q in s.products
      ensures HasVariant(t.variants, q)
    {
      assert HasVariant(s.variants, q);
      if q != p {
        var w :| w in s.variants && s.variants[w].product == q;
        assert w in t.variants;
      }
    }
    WithoutCore(s, {v}, s.products);
    assert t.(products := s.products) == t;
    DropCachedBut(s, {v}, p);
  }

  lemma OtherRemains(s: Shop, p: ProductId, v: VariantId)
    requires v in s.variants && s.variants[v].product == p && |Of(s.variants, p)| > 1
    ensures HasVariant(s.variants - {v}, p)
  {
    var others := Of(s.variants, p).Keys - {v};
    assert |others| >= |Of(s.variants, p).Keys| - 1;
    var w :| w in others;
    assert w in s.variants - {v};
  }

  lemma DropCachedBut(s: Shop, gone: set<VariantId>, p: ProductId)
    requires Cached(s.variants, s.products)
    requires forall v <- gone :: v in s.variants ==> s.variants[v].product == p
    ensures CachedBut(s.variants - gone, s.products, p)
  {
    forall q | q in s.products && q != p
      ensures s.products[q] == Totals(s.products[q], Of(s.variants - gone, q))
    {
      assert Of(s.variants - gone, q) == Of(s.variants, q);
      assert s.products[q] == Totals(s.products[q], Of(s.variants, q));
    }
  }

  lemma DeleteProductSound(s: Shop, p: ProductId)
    requires Sound(s) && DeleteProduct(s, p).Done?
    ensures Sound(DeleteProduct(s, p).shop)
  {
    var gone := Of(s.variants, p).Keys;
    forall q | q in s.products - {p}
      ensures HasVariant(s.variants - gone, q)
    {
      assert HasVariant(s.variants, q);
      var w :| w in s.variants && s.variants[w].product == q;
      assert w in s.variants - gone;
    }
    WithoutCore(s, gone, s.products - {p});
    DropCachedBut(s, gone, p);
    var products := s.products - {p};
    forall q | q in products
      ensures products[q] == Totals(products[q], Of(s.variants - gone, q))
    {
      assert s.products[q] == Totals(s.products[q], Of(s.variants - gone, q));
    }
  }
}
