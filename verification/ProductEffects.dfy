/** What each product request leaves behind: the rows of the variants, the
    product's own, and the entries of the ledger. */
module ProductEffects {
  import opened Wrappers
  import opened Lifecycle

  import opened Inventory
  import opened Invariants
  import opened Products

  // ---- Adjusting ------------------------------------------------------------

  /** The variant that is named, or the product's only one when none is. */
  ghost predicate Picks(s: Shop, p: ProductId, given: Option<VariantId>, v: VariantId)
  {
    && v in s.variants && s.variants[v].product == p
    && (given == Some(v) || (given == None && forall w <- s.variants :: s.variants[w].product == p ==> w == v))
  }

  lemma OnlyIs(s: Shop, p: ProductId, v: VariantId)
    ensures OnlyOf(s.variants, p) == Some(v) <==> Picks(s, p, None, v)
  {
    var rows := Of(s.variants, p);
    assert v in rows <==> v in s.variants && s.variants[v].product == p;
    if Picks(s, p, None, v) {
      assert rows.Keys == {v};
    } else if OnlyOf(s.variants, p) == Some(v) {
      forall w | w in s.variants && s.variants[w].product == p
        ensures w == v
      {
        assert w in rows.Keys;
      }
    }
  }

  lemma PickedIs(s: Shop, p: ProductId)
    ensures OnlyOf(s.variants, p).None? <==> forall v :: !Picks(s, p, None, v)
    ensures forall v: VariantId :: OnlyOf(s.variants, p) == Some(v) <==> Picks(s, p, None, v)
  {
    forall v: VariantId
      ensures OnlyOf(s.variants, p) == Some(v) <==> Picks(s, p, None, v)
    {
      OnlyIs(s, p, v);
    }
    if OnlyOf(s.variants, p).Some? {
      assert Picks(s, p, None, OnlyOf(s.variants, p).value);
    }
  }

  /** The variant's stock has changed by so much, one entry says so, and nothing
      else is touched. */
  ghost predicate Counted(s: Shop, t: Shop, v: VariantId, delta: int)
    requires v in s.variants
  {
    var x := s.variants[v];
    && t.variants == s.variants[v := x.(stock := x.stock + delta)]
    && t.ledger == s.ledger + [Movement(Some(v), MANUAL_ADJUSTMENT, delta, x.stock + delta, x.reserved)]
    && t.orders == s.orders && RecordsKept(s, t)
  }

  lemma CountedIs(s: Shop, v: VariantId, delta: int)
    requires NonNegative(s.variants) && v in s.variants
    ensures var out := Move(s, Line(v, delta, 0), MANUAL_ADJUSTMENT);
            if s.variants[v].stock + delta < 0 then out == Refused(INSUFFICIENT)
            else out.Done? && Counted(s, out.shop, v, delta)
  {
  }

  /** An adjustment adds what it says to the variant it names, or to the only
      one, unless that leaves less than nothing. */
  lemma AdjustIs(s: Shop, p: ProductId, given: Option<VariantId>, delta: int)
    requires NonNegative(s.variants)
    ensures var out := Adjust(s, p, given, delta);
            && (out == Refused(NOT_FOUND)
                <==> p !in s.products || (given.Some? && !Picks(s, p, given, given.value)))
            && (out == Refused(BAD_REQUEST)
                <==> p in s.products && given == None && forall v :: !Picks(s, p, None, v))
            && (p in s.products ==>
                  forall v | Picks(s, p, given, v) ::
                    if s.variants[v].stock + delta < 0 then out == Refused(INSUFFICIENT)
                    else out.Done? && Counted(s, out.shop, v, delta))
  {
    PickedIs(s, p);
    if p in s.products {
      if v :| Picks(s, p, given, v) {
        CountedIs(s, v, delta);
        assert given.Some? ==> v in Of(s.variants, p);
      }
    }
  }

  // ---- Editing --------------------------------------------------------------

  /** An edited variant has what it is given and keeps the rest. */
  lemma UpdateVariantIs(s: Shop, p: ProductId, v: VariantId, price: Option<int>, threshold: Option<int>,
                        active: Option<bool>, unique: bool)
    ensures var out := UpdateVariant(s, p, v, price, threshold, active, unique);
            if p !in s.products || v !in s.variants || s.variants[v].product != p then out == Refused(NOT_FOUND)
            else if !unique then out == Refused(CONFLICT)
            else if price.Some? && price.value < 0 then out == Refused(NEGATIVE_PRICE)
            else
              var x := s.variants[v];
              && out.Done? && RecordsKept(s, out.shop)
              && out.shop.orders == s.orders && out.shop.ledger == s.ledger
              && out.shop.variants == s.variants[v := Variant(p, x.stock, x.reserved,
                                                              if threshold.Some? then threshold.value else x.threshold,
                                                              if price.Some? then price.value else x.price,
                                                              if active.Some? then active.value else x.active)]
  {
  }

  lemma SeveralIs(s: Shop, p: ProductId)
    requires HasVariant(s.variants, p)
    ensures |Of(s.variants, p)| > 1 <==> forall v :: !Picks(s, p, None, v)
  {
    var keys := Of(s.variants, p).Keys;
    assert |keys| == |Of(s.variants, p)|;
    var some :| some in s.variants && s.variants[some].product == p;
    assert some in keys;
    if Picks(s, p, None, some) {
      OnlyIs(s, p, some);
      assert keys == {some};
    } else {
      var w :| w in s.variants && s.variants[w].product == p && w != some;
      assert {some, w} <= keys;
      SubsetSize({some, w}, keys);
      assert forall v :: v in keys ==> !Picks(s, p, None, v);
    }
  }

  lemma SubsetSize(some: set<nat>, all: set<nat>)
    requires some <= all
    ensures |some| <= |all|
  {
    assert all == some + (all - some);
  }

  function OrKept(given: Option<int>, was: int): int {
    if given.Some? then given.value else was
  }

  /** The product's new stock differs from the one it shows. */
  predicate Recounts(x: Product, stock: Option<int>) {
    stock.Some? && stock.value != x.stock
  }

  /** Whether its new price or threshold differs. */
  predicate Reprices(x: Product, price: Option<int>, threshold: Option<int>) {
    (price.Some? && price.value != x.price) || (threshold.Some? && threshold.value != x.threshold)
  }

  /** The product's only variant has taken its stock, price and threshold. */
  ghost predicate OnlyEdited(s: Shop, t: Shop, p: ProductId, v: VariantId, stock: Option<int>, price: Option<int>,
                             threshold: Option<int>)
    requires v in s.variants && p in s.products
  {
    var x := s.variants[v];
    var stock' := if Recounts(s.products[p], stock) then stock.value else x.stock;
    && t.variants == s.variants[v := x.(stock := stock', price := OrKept(price, x.price),
                                        threshold := OrKept(threshold, x.threshold))]
    && t.ledger == s.ledger + if Recounts(s.products[p], stock)
                              then [Movement(Some(v), MANUAL_ADJUSTMENT, stock' - x.stock, stock', x.reserved)] else []
  }

  /** Only this product is touched, and it is on sale if the edit says so. */
  ghost predicate ProductEdited(s: Shop, t: Shop, p: ProductId, active: Option<bool>)
    requires p in s.products
  {
    && t.orders == s.orders && t.purchases == s.purchases && t.salesReturns == s.salesReturns
    && t.products.Keys == s.products.Keys && (forall q <- s.products :: q != p ==> t.products[q] == s.products[q])
    && t.products[p].active == if active.Some? then active.value else s.products[p].active
  }

  lemma RestockedIs(s: Shop, p: ProductId, v: VariantId, stock: Option<int>)
    requires NonNegative(s.variants) && p in s.products && Picks(s, p, None, v)
    ensures var out := Restock(s, p, stock);
            if Recounts(s.products[p], stock)
            then if stock.value < 0 then out == Refused(INSUFFICIENT)
                 else out.Done? && Counted(s, out.shop, v, stock.value - s.variants[v].stock)
                      && forall q <- s.products :: q != p ==> out.shop.products[q] == s.products[q]
            else out == Done(s)
  {
    OnlyIs(s, p, v);
    if Recounts(s.products[p], stock) {
      CountedIs(s, v, stock.value - s.variants[v].stock);
    }
  }

  lemma RevisedIs(s: Shop, p: ProductId, v: VariantId, price: Option<int>, threshold: Option<int>,
                  active: Option<bool>)
    requires p in s.products && Picks(s, p, None, v)
    ensures var out, x := Revise(s, p, price, threshold, active), s.variants[v];
            if price.Some? && price.value < 0 then out == Refused(NEGATIVE_PRICE)
            else out.Done? && ProductEdited(s, out.shop, p, active) && out.shop.ledger == s.ledger
                 && out.shop.variants == s.variants[v := x.(price := OrKept(price, x.price),
                                                            threshold := OrKept(threshold, x.threshold))]
  {
    OnlyIs(s, p, v);
    SeveralIs(s, p);
  }

  lemma StillPicked(s: Shop, t: Shop, p: ProductId, v: VariantId, delta: int)
    requires Picks(s, p, None, v) && Counted(s, t, v, delta)
    ensures Picks(t, p, None, v)
  {
  }

  /** First the count, then the rest. */
  lemma CountedThenEdited(s: Shop, t: Shop, u: Shop, p: ProductId, v: VariantId, stock: Option<int>,
                          price: Option<int>, threshold: Option<int>, active: Option<bool>)
    requires p in s.products && v in s.variants && Recounts(s.products[p], stock)
    requires Counted(s, t, v, stock.value - s.variants[v].stock)
    requires forall q <- s.products :: q != p ==> t.products[q] == s.products[q]
    requires p in t.products && v in t.variants && ProductEdited(t, u, p, active) && u.ledger == t.ledger
    requires var x := t.variants[v];
             u.variants == t.variants[v := x.(price := OrKept(price, x.price),
                                              threshold := OrKept(threshold, x.threshold))]
    ensures ProductEdited(s, u, p, active) && OnlyEdited(s, u, p, v, stock, price, threshold)
  {
  }

  lemma UpdateSteps(s: Shop, p: ProductId, stock: Option<int>, price: Option<int>, threshold: Option<int>,
                    active: Option<bool>)
    requires p in s.products && (Restock(s, p, stock).Done? ==> p in Restock(s, p, stock).shop.products)
    ensures UpdateProduct(s, p, stock, price, threshold, active)
         == if Restock(s, p, stock).Refused? then Restock(s, p, stock)
            else Revise(Restock(s, p, stock).shop, p, price, threshold, active)
  {
  }

  /** An only variant takes what the product is given, and the product's stock
      when it differs from the one it shows. */
  ghost predicate OnlyAnswer(s: Shop, p: ProductId, v: VariantId, stock: Option<int>, price: Option<int>,
                             threshold: Option<int>, active: Option<bool>, out: Outcome)
    requires p in s.products && v in s.variants
  {
    if Recounts(s.products[p], stock) && stock.value < 0 then out == Refused(INSUFFICIENT)
    else if price.Some? && price.value < 0 then out == Refused(NEGATIVE_PRICE)
    else
      out.Done? && ProductEdited(s, out.shop, p, active) && OnlyEdited(s, out.shop, p, v, stock, price, threshold)
  }

  lemma RecountedIs(s: Shop, t: Shop, p: ProductId, v: VariantId, stock: Option<int>, price: Option<int>,
                    threshold: Option<int>, active: Option<bool>)
    requires p in s.products && v in s.variants && Recounts(s.products[p], stock) && 0 <= stock.value
    requires Counted(s, t, v, stock.value - s.variants[v].stock) && Picks(t, p, None, v)
    requires p in t.products && forall q <- s.products :: q != p ==> t.products[q] == s.products[q]
    ensures OnlyAnswer(s, p, v, stock, price, threshold, active, Revise(t, p, price, threshold, active))
  {
    RevisedIs(t, p, v, price, threshold, active);
    var out := Revise(t, p, price, threshold, active);
    if out.Done? {
      CountedThenEdited(s, t, out.shop, p, v, stock, price, threshold, active);
    }
  }

  lemma NotRecountedIs(s: Shop, p: ProductId, v: VariantId, stock: Option<int>, price: Option<int>,
                       threshold: Option<int>, active: Option<bool>)
    requires p in s.products && Picks(s, p, None, v) && !Recounts(s.products[p], stock)
    ensures OnlyAnswer(s, p, v, stock, price, threshold, active, Revise(s, p, price, threshold, active))
  {
    RevisedIs(s, p, v, price, threshold, active);
  }

  lemma OnlyOverdrawn(s: Shop, p: ProductId, v: VariantId, stock: Option<int>, price: Option<int>,
                      threshold: Option<int>, active: Option<bool>)
    requires NonNegative(s.variants) && p in s.products && Picks(s, p, None, v)
    requires Recounts(s.products[p], stock) && stock.value < 0
    ensures UpdateProduct(s, p, stock, price, threshold, active) == Refused(INSUFFICIENT)
  {
    RestockedIs(s, p, v, stock);
  }

  lemma OnlyRecounted(s: Shop, p: ProductId, v: VariantId, stock: Option<int>, price: Option<int>,
                      threshold: Option<int>, active: Option<bool>) returns (t: Shop)
    requires NonNegative(s.variants) && p in s.products && Picks(s, p, None, v)
    requires Recounts(s.products[p], stock) && 0 <= stock.value
    ensures Restock(s, p, stock) == Done(t) && p in t.products
    ensures OnlyAnswer(s, p, v, stock, price, threshold, active, Revise(t, p, price, threshold, active))
  {
    RestockedIs(s, p, v, stock);
    t := Restock(s, p, stock).shop;
    StillPicked(s, t, p, v, stock.value - s.variants[v].stock);
    RecountedIs(s, t, p, v, stock, price, threshold, active);
  }

  lemma OnlyEditedIs(s: Shop, p: ProductId, v: VariantId, stock: Option<int>, price: Option<int>,
                     threshold: Option<int>, active: Option<bool>)
    requires NonNegative(s.variants) && p in s.products && Picks(s, p, None, v)
    ensures OnlyAnswer(s, p, v, stock, price, threshold, active, UpdateProduct(s, p, stock, price, threshold, active))
  {
    if !Recounts(s.products[p], stock) {
      UpdateSteps(s, p, stock, price, threshold, active);
      NotRecountedIs(s, p, v, stock, price, threshold, active);
    } else if stock.value < 0 {
      OnlyOverdrawn(s, p, v, stock, price, threshold, active);
    } else {
      var t := OnlyRecounted(s, p, v, stock, price, threshold, active);
      UpdateSteps(s, p, stock, price, threshold, active);
    }
  }

  lemma SeveralRevisedIs(s: Shop, p: ProductId, price: Option<int>, threshold: Option<int>, active: Option<bool>)
    requires p in s.products && HasVariant(s.variants, p) && forall v :: !Picks(s, p, None, v)
    ensures var out := Revise(s, p, price, threshold, active);
            if Reprices(s.products[p], price, threshold) then out == Refused(BAD_REQUEST)
            else out.Done? && ProductEdited(s, out.shop, p, active)
                 && out.shop.variants == s.variants && out.shop.ledger == s.ledger
  {
    PickedIs(s, p);
    SeveralIs(s, p);
    assert RevisedRows(s, p, price, threshold) == s.variants;
  }

  /** With several variants, only what does not differ from what the product
      shows is taken, and no variant changes. */
  ghost predicate SeveralAnswer(s: Shop, p: ProductId, stock: Option<int>, price: Option<int>, threshold: Option<int>,
                                active: Option<bool>, out: Outcome)
    requires p in s.products
  {
    if Recounts(s.products[p], stock) || Reprices(s.products[p], price, threshold) then out == Refused(BAD_REQUEST)
    else
      && out.Done? && ProductEdited(s, out.shop, p, active)
      && out.shop.variants == s.variants && out.shop.ledger == s.ledger
  }

  /** An edit of a product with one variant, and of one with several. */
  lemma UpdateProductIs(s: Shop, p: ProductId, stock: Option<int>, price: Option<int>, threshold: Option<int>,
                        active: Option<bool>)
    requires NonNegative(s.variants) && (p in s.products ==> HasVariant(s.variants, p))
    ensures var out := UpdateProduct(s, p, stock, price, threshold, active);
            && (p !in s.products ==> out == Refused(NOT_FOUND))
            && (p in s.products ==>
                  && (forall v | Picks(s, p, None, v) :: OnlyAnswer(s, p, v, stock, price, threshold, active, out))
                  && ((forall v :: !Picks(s, p, None, v)) ==>
                        SeveralAnswer(s, p, stock, price, threshold, active, out)))
  {
    if p in s.products {
      PickedIs(s, p);
      if v :| Picks(s, p, None, v) {
        OnlyEditedIs(s, p, v, stock, price, threshold, active);
      } else {
        SeveralRevisedIs(s, p, price, threshold, active);
        UpdateSteps(s, p, stock, price, threshold, active);
      }
    }
  }

  // ---- Removing -------------------------------------------------------------

  /** Some order, purchase or return names the variant. */
  ghost predicate Named(s: Shop, v: VariantId)
  {
    || (exists id <- s.orders :: exists item <- s.orders[id].items :: item.variant == v)
    || (exists id <- s.purchases :: exists line <- s.purchases[id].lines :: line.variant == v)
    || (exists id <- s.salesReturns :: exists line <- s.salesReturns[id].lines :: line.variant == v)
  }

  /** The ledger is as it was, but for the links to the variants that are gone. */
  ghost predicate Unlinked(s: Shop, t: Shop)
  {
    && |t.ledger| == |s.ledger|
    && forall i | 0 <= i < |s.ledger| ::
         t.ledger[i] == if s.ledger[i].variant.Some? && s.ledger[i].variant.value in s.variants.Keys - t.variants.Keys
                        then s.ledger[i].(variant := None) else s.ledger[i]
  }

  /** A variant goes when it is empty, not its product's last, and nothing names
      it. */
  lemma DeleteVariantIs(s: Shop, p: ProductId, v: VariantId)
    ensures var out := DeleteVariant(s, p, v);
            if p !in s.products || v !in s.variants || s.variants[v].product != p then out == Refused(NOT_FOUND)
            else if Picks(s, p, None, v) || s.variants[v].stock != 0 || s.variants[v].reserved != 0 || Named(s, v)
            then out == Refused(CONFLICT)
            else out.Done? && out.shop.variants == s.variants - {v} && Unlinked(s, out.shop)
                 && out.shop.orders == s.orders && RecordsKept(s, out.shop)
  {
    if p in s.products && v in s.variants && s.variants[v].product == p {
      assert HasVariant(s.variants, p);
      SeveralIs(s, p);
      assert Named(s, v) <==> Referenced(s, {v});
      if w :| Picks(s, p, None, w) {
        assert w == v;
      }
    }
  }

  /** A product goes with its variants when nothing names any of them. */
  lemma DeleteProductIs(s: Shop, p: ProductId)
    ensures var out := DeleteProduct(s, p);
            if p !in s.products then out == Refused(NOT_FOUND)
            else if exists v <- s.variants :: s.variants[v].product == p && Named(s, v) then out == Refused(CONFLICT)
            else && out.Done? && out.shop.products == s.products - {p}
                 && out.shop.variants == (map v <- s.variants | s.variants[v].product != p :: s.variants[v])
                 && Unlinked(s, out.shop) && out.shop.orders == s.orders
                 && out.shop.purchases == s.purchases && out.shop.salesReturns == s.salesReturns
  {
    var gone := Of(s.variants, p).Keys;
    forall v: VariantId
      ensures v in gone <==> v in s.variants && s.variants[v].product == p
    {
    }
    assert Referenced(s, gone) <==> exists v <- s.variants :: s.variants[v].product == p && Named(s, v);
    assert s.variants.Keys - (s.variants - gone).Keys == gone;
  }

  // ---- Adding ---------------------------------------------------------------

  /** How many of the new variants come with stock. */
  function WithStock(data: seq<VariantData>, n: nat): nat
    requires n <= |data|
  {
    if n == 0 then 0 else WithStock(data, n - 1) + if data[n - 1].stock != 0 then 1 else 0
  }

  /** A new row for each, with its stock on the shelf and an opening entry when
      there is any; nothing else is touched but the product. */
  ghost predicate AddedTo(s: Shop, t: Shop, p: ProductId, ids: seq<VariantId>, data: seq<VariantData>)
    requires |ids| == |data|
  {
    && Shelved(s, t, p, ids, data)
    && Opened(s, t, ids, data)
    && t.orders == s.orders && t.purchases == s.purchases && t.salesReturns == s.salesReturns
    && t.products.Keys == s.products.Keys + {p}
    && (forall q <- s.products :: q != p ==> t.products[q].active == s.products[q].active)
  }

  ghost predicate Shelved(s: Shop, t: Shop, p: ProductId, ids: seq<VariantId>, data: seq<VariantData>)
    requires |ids| == |data|
  {
    && (forall v :: v in t.variants <==> v in s.variants || v in ids)
    && (forall v <- s.variants :: t.variants[v] == s.variants[v])
    && (forall i | 0 <= i < |ids| ::
          t.variants[ids[i]] == Variant(p, data[i].stock, 0, data[i].threshold, data[i].price, data[i].active))
  }

  ghost predicate Opened(s: Shop, t: Shop, ids: seq<VariantId>, data: seq<VariantData>)
    requires |ids| == |data|
  {
    && |t.ledger| == |s.ledger| + WithStock(data, |data|) && t.ledger[..|s.ledger|] == s.ledger
    && forall i | |s.ledger| <= i < |t.ledger| :: OpensOne(t.ledger[i], ids, data)
  }

  ghost predicate OpensOne(m: Movement, ids: seq<VariantId>, data: seq<VariantData>)
    requires |ids| == |data|
  {
    && m.kind == OPENING_BALANCE
    && exists k :: 0 <= k < |ids| && m.variant == Some(ids[k]) && m.delta == data[k].stock != 0
  }

  lemma {:induction false} NewRowIs(p: ProductId, ids: seq<VariantId>, data: seq<VariantData>, n: nat)
    requires n <= |ids| == |data| && forall i, j | 0 <= i < j < |ids| :: ids[i] != ids[j]
    ensures forall i | 0 <= i < n ::
              ids[i] in NewRows(p, ids, data, n) && NewRows(p, ids, data, n)[ids[i]] == NewVariant(p, data[i])
    ensures forall v :: v in NewRows(p, ids, data, n) <==> v in ids[..n]
  {
    if n != 0 {
      NewRowIs(p, ids, data, n - 1);
      assert ids[..n] == ids[..n - 1] + [ids[n - 1]];
    }
  }

  /** Each opening line is one variant's stock, and each stock has its line. */
  lemma {:induction false} OpeningLines(ids: seq<VariantId>, data: seq<VariantData>, n: nat)
    requires n <= |ids| == |data|
    ensures |Openings(ids, data, n)| == WithStock(data, n)
    ensures forall line <- Openings(ids, data, n) ::
              exists k :: 0 <= k < n && line == Line(ids[k], data[k].stock, 0) && data[k].stock != 0
  {
    if n != 0 {
      OpeningLines(ids, data, n - 1);
      forall line | line in Openings(ids, data, n)
        ensures exists k :: 0 <= k < n && line == Line(ids[k], data[k].stock, 0) && data[k].stock != 0
      {
        if line !in Openings(ids, data, n - 1) {
          assert line == Line(ids[n - 1], data[n - 1].stock, 0);
        }
      }
    }
  }

  lemma {:induction false} SumsPrefix(lines: seq<Line>, line: Line, n: nat, v: VariantId)
    requires n <= |lines|
    ensures AvailableTo(lines + [line], n, v) == AvailableTo(lines, n, v)
    ensures ReservingTo(lines + [line], n, v) == ReservingTo(lines, n, v)
  {
    if n != 0 {
      SumsPrefix(lines, line, n - 1, v);
    }
  }

  lemma {:induction false} OpeningSums(ids: seq<VariantId>, data: seq<VariantData>, n: nat, v: VariantId)
    requires n <= |ids| == |data| && forall i, j | 0 <= i < j < |ids| :: ids[i] != ids[j]
    ensures Reserving(Openings(ids, data, n), v) == 0
    ensures v !in ids[..n] ==> Available(Openings(ids, data, n), v) == 0
    ensures forall i | 0 <= i < n :: ids[i] == v ==> Available(Openings(ids, data, n), v) == data[i].stock
  {
    if n != 0 {
      OpeningSums(ids, data, n - 1, v);
      assert ids[..n] == ids[..n - 1] + [ids[n - 1]];
      if data[n - 1].stock != 0 {
        var before := Openings(ids, data, n - 1);
        SumsPrefix(before, Line(ids[n - 1], data[n - 1].stock, 0), |before|, v);
      }
    }
  }

  lemma EntryOpens(ids: seq<VariantId>, data: seq<VariantData>, a: Shop, lines: seq<Line>, k: nat)
    requires |ids| == |data| && lines == Openings(ids, data, |ids|) && k < |lines| && Present(a, lines)
    ensures OpensOne(EntryAt(a, lines, k, OPENING_BALANCE), ids, data)
  {
    OpeningLines(ids, data, |ids|);
    assert lines[k] in lines;
    var j :| 0 <= j < |ids| && lines[k] == Line(ids[j], data[j].stock, 0) && data[j].stock != 0;
    assert EntryAt(a, lines, k, OPENING_BALANCE).variant == Some(ids[j]);
  }

  lemma OpeningsPresent(ids: seq<VariantId>, data: seq<VariantData>, a: Shop)
    requires |ids| == |data| && forall v <- ids :: v in a.variants
    ensures Present(a, Openings(ids, data, |ids|)) && |Openings(ids, data, |ids|)| == WithStock(data, |data|)
  {
    OpeningLines(ids, data, |ids|);
  }

  lemma EnteredOpens(s: Shop, ids: seq<VariantId>, data: seq<VariantData>, a: Shop, lines: seq<Line>, t: Shop)
    requires |ids| == |data| && lines == Openings(ids, data, |ids|) && |lines| == WithStock(data, |data|)
    requires Present(a, lines) && a.ledger == s.ledger && EnteredTo(a, lines, |lines|, OPENING_BALANCE, t.ledger)
    ensures Opened(s, t, ids, data)
  {
    forall i | |s.ledger| <= i < |t.ledger|
      ensures OpensOne(t.ledger[i], ids, data)
    {
      var k := i - |s.ledger|;
      EntryOpens(ids, data, a, lines, k);
      assert t.ledger[|a.ledger| + k] == EntryAt(a, lines, k, OPENING_BALANCE);
    }
  }

  lemma OpenedEntries(s: Shop, ids: seq<VariantId>, data: seq<VariantData>, a: Shop, lines: seq<Line>, t: Shop)
    requires |ids| == |data| && a.ledger == s.ledger && forall v <- ids :: v in a.variants
    requires lines == Openings(ids, data, |ids|) && MoveAll(a, lines, OPENING_BALANCE, REFUSE) == Done(t)
    ensures Opened(s, t, ids, data)
  {
    OpeningsPresent(ids, data, a);
    MoveFirstEnters(a, lines, |lines|, OPENING_BALANCE, REFUSE);
    EnteredOpens(s, ids, data, a, lines, t);
  }

  lemma OpenedRows(p: ProductId, ids: seq<VariantId>, data: seq<VariantData>, a: Shop, v: VariantId)
    requires |ids| == |data| && (forall i, j | 0 <= i < j < |ids| :: ids[i] != ids[j]) && v in a.variants
    requires forall i | 0 <= i < |ids| :: ids[i] == v ==> a.variants[v] == NewVariant(p, data[i])
    requires MoveAll(a, Openings(ids, data, |ids|), OPENING_BALANCE, REFUSE).Done?
    ensures var t := MoveAll(a, Openings(ids, data, |ids|), OPENING_BALANCE, REFUSE).shop;
            && v in t.variants && (v !in ids ==> t.variants[v] == a.variants[v])
            && forall i | 0 <= i < |ids| :: ids[i] == v ==>
                 t.variants[v] == Variant(p, data[i].stock, 0, data[i].threshold, data[i].price, data[i].active)
  {
    var lines := Openings(ids, data, |ids|);
    MoveAllAdvances(a, lines, OPENING_BALANCE, REFUSE);
    var t := MoveAll(a, lines, OPENING_BALANCE, REFUSE).shop;
    assert t.variants[v] == Shifted(a.variants[v], lines, |lines|, v);
    OpeningSums(ids, data, |ids|, v);
    assert ids[..|ids|] == ids;
  }

  /** The new rows are there, empty. */
  ghost predicate Laid(s: Shop, a: Shop, p: ProductId, ids: seq<VariantId>, data: seq<VariantData>)
    requires |ids| == |data|
  {
    && (forall v :: v in a.variants <==> v in s.variants || v in ids)
    && (forall v <- s.variants :: a.variants[v] == s.variants[v])
    && (forall i | 0 <= i < |ids| :: a.variants[ids[i]] == NewVariant(p, data[i]))
  }

  lemma AddedLaid(s: Shop, p: ProductId, x: Product, ids: seq<VariantId>, data: seq<VariantData>)
    requires |ids| == |data| && FreshIds(s, ids)
    ensures Laid(s, Added(s, p, x, NewRows(p, ids, data, |ids|)), p, ids, data)
  {
    NewRowIs(p, ids, data, |ids|);
    assert ids[..|ids|] == ids;
    forall i | 0 <= i < |ids|
      ensures ids[i] in ids
    {
    }
  }

  lemma OpenedShelves(s: Shop, a: Shop, p: ProductId, ids: seq<VariantId>, data: seq<VariantData>)
    requires |ids| == |data| && FreshIds(s, ids) && Laid(s, a, p, ids, data)
    requires MoveAll(a, Openings(ids, data, |ids|), OPENING_BALANCE, REFUSE).Done?
    ensures Shelved(s, MoveAll(a, Openings(ids, data, |ids|), OPENING_BALANCE, REFUSE).shop, p, ids, data)
  {
    var lines := Openings(ids, data, |ids|);
    var t := MoveAll(a, lines, OPENING_BALANCE, REFUSE).shop;
    MoveAllAdvances(a, lines, OPENING_BALANCE, REFUSE);
    forall v | v in s.variants
      ensures t.variants[v] == s.variants[v]
    {
      OpenedRows(p, ids, data, a, v);
    }
    forall i | 0 <= i < |ids|
      ensures t.variants[ids[i]] == Variant(p, data[i].stock, 0, data[i].threshold, data[i].price, data[i].active)
    {
      assert ids[i] in ids;
      OpenedRows(p, ids, data, a, ids[i]);
    }
  }

  lemma SyncedToo(s: Shop, a: Shop, u: Shop, p: ProductId, x: Product, ids: seq<VariantId>, data: seq<VariantData>)
    requires |ids| == |data| && Shelved(s, u, p, ids, data) && Opened(s, u, ids, data)
    requires a == Added(s, p, x, NewRows(p, ids, data, |ids|)) && RecordsKept(a, u) && u.orders == a.orders
    ensures var t := u.(products := Synced(u.products, u.variants, p));
            AddedTo(s, t, p, ids, data) && t.products[p].active == x.active
  {
    var t := u.(products := Synced(u.products, u.variants, p));
    assert t.variants == u.variants && t.ledger == u.ledger;
  }

  lemma OpenIs(s: Shop, p: ProductId, x: Product, ids: seq<VariantId>, data: seq<VariantData>)
    requires |ids| == |data| && FreshIds(s, ids) && Open(s, p, x, ids, data).Done?
    ensures AddedTo(s, Open(s, p, x, ids, data).shop, p, ids, data)
    ensures Open(s, p, x, ids, data).shop.products[p].active == x.active
  {
    var a, lines := Added(s, p, x, NewRows(p, ids, data, |ids|)), Openings(ids, data, |ids|);
    var u := MoveAll(a, lines, OPENING_BALANCE, REFUSE).shop;
    AddedLaid(s, p, x, ids, data);
    OpenedEntries(s, ids, data, a, lines, u);
    OpenedShelves(s, a, p, ids, data);
    MoveAllAdvances(a, lines, OPENING_BALANCE, REFUSE);
    SyncedToo(s, a, u, p, x, ids, data);
  }

  lemma OpenedIs(s: Shop, p: ProductId, x: Product, ids: seq<VariantId>, data: seq<VariantData>)
    requires Sound(s) && |ids| == |data| && ids != [] && FreshIds(s, ids)
    requires !AnyNegative(data) && forall d <- data :: 0 <= d.stock
    ensures var out := Open(s, p, x, ids, data);
            && out.Done? && AddedTo(s, out.shop, p, ids, data)
            && out.shop.products[p].active == x.active
  {
    OpenSound(s, p, x, ids, data);
    OpenIs(s, p, x, ids, data);
  }

  /** A new product is on sale with its variants, or with one of its own when it
      comes without any. */
  lemma CreateIs(s: Shop, p: ProductId, ids: seq<VariantId>, price: int, stock: int, threshold: int,
                 data: seq<VariantData>, unique: bool)
    requires Sound(s) && FreshIds(s, ids)
    requires |ids| == if data == [] then 1 else |data|
    requires 0 <= stock && forall d <- data :: 0 <= d.stock
    ensures var rows := if data == [] then [VariantData(price, stock, threshold, true)] else data;
            var out := Create(s, p, ids, price, threshold, Requested(price, stock, threshold, data), unique);
            if !unique then out == Refused(CONFLICT)
            else if exists d <- rows :: d.price < 0 then out == Refused(NEGATIVE_PRICE)
            else out.Done? && AddedTo(s, out.shop, p, ids, rows) && out.shop.products[p].active
  {
    var rows := Requested(price, stock, threshold, data);
    if unique && !AnyNegative(rows) {
      OpenedIs(s, p, Product(true, 0, 0, threshold, price), ids, rows);
    }
  }

  lemma RowsOf(s: Shop, p: ProductId)
    ensures |Of(s.variants, p)| == |set w <- s.variants | s.variants[w].product == p|
  {
    var rows := Of(s.variants, p);
    assert rows.Keys == set w <- s.variants | s.variants[w].product == p;
    assert |rows| == |rows.Keys|;
  }

  lemma CreateVariantOpens(s: Shop, p: ProductId, v: VariantId, d: VariantData)
    requires p in s.products && |Of(s.variants, p)| < MAX_VARIANTS && 0 <= d.price
    ensures CreateVariant(s, p, v, d, true) == Open(s, p, s.products[p], [v], [d])
  {
  }

  /** A product takes one more variant until it has a hundred. */
  lemma CreateVariantIs(s: Shop, p: ProductId, v: VariantId, d: VariantData, unique: bool)
    requires Sound(s) && v !in s.variants && 0 <= d.stock
    ensures var out := CreateVariant(s, p, v, d, unique);
            if p !in s.products then out == Refused(NOT_FOUND)
            else if |set w <- s.variants | s.variants[w].product == p| >= 100 then out == Refused(BAD_REQUEST)
            else if !unique then out == Refused(CONFLICT)
            else if d.price < 0 then out == Refused(NEGATIVE_PRICE)
            else out.Done? && AddedTo(s, out.shop, p, [v], [d])
                 && out.shop.products[p].active == s.products[p].active
  {
    RowsOf(s, p);
    if p in s.products && |Of(s.variants, p)| < 100 && unique && 0 <= d.price {
      CreateVariantOpens(s, p, v, d);
      OpenedIs(s, p, s.products[p], [v], [d]);
    }
  }
}
