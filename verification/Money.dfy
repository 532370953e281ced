/** The two currencies a shop prices in. Amounts are integers in hundredths (of
    a dollar, of a riel), as the NUMERIC(12, 2) columns hold them, and the rate
    is an integer in hundredths of a riel to the dollar. */
module Currency {

  datatype Currency = USD | KHR

  /** quantize(..., ROUND_HALF_UP) of n / d: the nearest integer, ties away from
      zero. */
  function DivHalfUp(n: int, d: int): (q: int)
    requires 0 < d
    ensures 0 <= n ==> (2 * q - 1) * d <= 2 * n < (2 * q + 1) * d
    ensures n <= 0 ==> (2 * q - 1) * d < 2 * n <= (2 * q + 1) * d
  {
    if n >= 0 then (2 * n + d) / (2 * d) else -((-2 * n + d) / (2 * d))
  }

  /** Conversion at the shop's rate: riel to the whole riel, dollars to the cent. */
  function Convert(amount: int, from: Currency, to: Currency, rate: int): int
    requires 0 < rate
  {
    match (from, to)
    case (USD, KHR) => 100 * DivHalfUp(amount * rate, 10000)
    case (KHR, USD) => DivHalfUp(100 * amount, rate)
    case _ => amount
  }

  function Other(currency: Currency): Currency {
    if currency == USD then KHR else USD
  }

  /** The rates the settings screen accepts. */
  ghost predicate ShopRate(rate: int)
  {
    100000 < rate < 2000000
  }

  /** Converting keeps an amount in its own currency, takes dollars to the riel
      nearest to them at the rate, and riel to the nearest cent; halves go up. */
  lemma ConvertIs(amount: nat, rate: int)
    requires 0 < rate
    ensures Convert(amount, USD, USD, rate) == amount == Convert(amount, KHR, KHR, rate)
    ensures exists n :: Convert(amount, USD, KHR, rate) == 100 * n
                        && 2 * n * 10000 - 10000 <= 2 * (amount * rate) < 2 * n * 10000 + 10000
    ensures var cents := Convert(amount, KHR, USD, rate);
            2 * cents * rate - rate <= 200 * amount < 2 * cents * rate + rate
  {
    MulMonotone(0, rate, amount);
    var n, cents := DivHalfUp(amount * rate, 10000), DivHalfUp(100 * amount, rate);
    assert Convert(amount, USD, KHR, rate) == 100 * n
           && 2 * n * 10000 - 10000 <= 2 * (amount * rate) < 2 * n * 10000 + 10000;
    assert (2 * cents - 1) * rate == 2 * cents * rate - rate && (2 * cents + 1) * rate == 2 * cents * rate + rate;
  }

  lemma NearestIsUnique(n: int, d: int, q: int)
    requires 0 < d && (2 * q - 1) * d < 2 * n < (2 * q + 1) * d
    ensures DivHalfUp(n, d) == q
  {
    var p := DivHalfUp(n, d);
    if p < q {
      MulMonotone(2 * p + 1, 2 * q - 1, d);
    } else if p > q {
      MulMonotone(2 * q + 1, 2 * p - 1, d);
    }
  }

  lemma MulMonotone(a: int, b: int, d: int)
    requires a <= b && 0 <= d
    ensures a * d <= b * d
  {
    assert 0 <= (b - a) * d;
  }

  /** A dollar price quoted in riel and read back is the same price, to the
      cent, at every rate above 100 riel to the dollar. */
  lemma DollarRoundTrip(cents: int, rate: int)
    requires 10000 < rate
    ensures Convert(Convert(cents, USD, KHR, rate), KHR, USD, rate) == cents
  {
    var riel := DivHalfUp(cents * rate, 10000);
    assert (2 * cents - 1) * rate == 2 * (cents * rate) - rate;
    assert (2 * cents + 1) * rate == 2 * (cents * rate) + rate;
    NearestIsUnique(100 * (100 * riel), rate, cents);
  }

  /** A riel price quoted in dollars and read back is off by at most half a cent
      in riel plus half a riel. */
  lemma RielRoundTrip(amount: int, rate: int)
    requires 0 < rate
    ensures var back := Convert(Convert(amount, KHR, USD, rate), USD, KHR, rate);
            200 * (back - amount) <= rate + 10000 && 200 * (amount - back) <= rate + 10000
  {
    var cents := DivHalfUp(100 * amount, rate);
    var riel := DivHalfUp(cents * rate, 10000);
    assert (2 * cents - 1) * rate == 2 * (cents * rate) - rate;
    assert (2 * cents + 1) * rate == 2 * (cents * rate) + rate;
  }
}

/** Reading a payment receipt against an order. */
module Receipts {
  import opened Currency
  import opened Wrappers

  datatype OcrStatus = READ | NOT_RECEIPT | FAILED

  datatype Attachment = Attachment(
    id: nat, seller: nat, createdAt: int,
    status: Option<OcrStatus>, amount: Option<int>, currency: Option<Currency>,
    reference: string)          // "" for none

  datatype Order = Order(seller: nat, total: int, currency: Currency)

  datatype Verdict =
    | MATCH | AMOUNT_MISMATCH | CURRENCY_DIFFERS | DUPLICATE | NOT_A_RECEIPT | UNREADABLE

  /** An earlier receipt of the same seller carrying the same reference. */
  ghost predicate IsDuplicate(table: set<Attachment>, a: Attachment, seller: nat)
  {
    && a.reference != ""
    && exists e <- table :: e.seller == seller && e.id != a.id && e.reference == a.reference
                            && e.createdAt <= a.createdAt
  }

  function Abs(n: int): nat {
    if n < 0 then -n else n
  }

  /** |converted - total| / total <= 0.03, for a total that is not zero. The
      program divides by the signed total; a negative one makes the quotient
      negative and so within any tolerance. */
  predicate WithinTolerance(converted: int, total: int)
  {
    total != 0 && (total < 0 || 100 * Abs(converted - total) <= 3 * total)
  }

  /** `assess`; None for a receipt not read yet. `rate` is None when the order's
      seller has none. */
  ghost function Assess(table: set<Attachment>, a: Attachment, order: Order, rate: Option<int>): Option<Verdict>
    requires rate.Some? ==> 0 < rate.value
  {
    match a.status
    case None => None
    case Some(FAILED) => Some(UNREADABLE)
    case Some(NOT_RECEIPT) => Some(NOT_A_RECEIPT)
    case Some(READ) =>
      if IsDuplicate(table, a, order.seller) then Some(DUPLICATE)
      else if a.amount.None? then Some(UNREADABLE)
      else if a.currency.Some? && a.currency.value != order.currency then
        if rate.None? then Some(CURRENCY_DIFFERS)
        else if WithinTolerance(Convert(a.amount.value, a.currency.value, order.currency, rate.value), order.total)
        then Some(MATCH) else Some(AMOUNT_MISMATCH)
      else if a.amount.value == order.total then Some(MATCH)
      else Some(AMOUNT_MISMATCH)
  }

  /** A receipt whose reading can be judged: read, with an amount, and not a
      copy of an earlier one. */
  ghost predicate Judgeable(table: set<Attachment>, a: Attachment, order: Order)
  {
    a.status == Some(READ) && a.amount.Some? && !IsDuplicate(table, a, order.seller)
  }

  /** Quote and pay: paying exactly what was quoted in the other currency is a
      match, for every positive dollar order, and for every riel order of at
      least a sixth of the rate and 16 2/3 riel. */
  lemma QuotedPaymentMatches(table: set<Attachment>, a: Attachment, order: Order, rate: int)
    requires ShopRate(rate) && 0 < order.total
    requires Judgeable(table, a, order)
    requires a.currency == Some(Other(order.currency))
    requires a.amount == Some(Convert(order.total, order.currency, Other(order.currency), rate))
    requires order.currency == KHR ==> rate + 10000 <= 6 * order.total
    ensures Assess(table, a, order, Some(rate)) == Some(MATCH)
  {
    if order.currency == USD {
      DollarRoundTrip(order.total, rate);
    } else {
      RielRoundTrip(order.total, rate);
    }
  }

  /** Least and greatest cent amounts within three per cent of a total. */
  function LeastCents(total: int): int {
    -(-(97 * total) / 100)
  }

  function MostCents(total: int): int {
    103 * total / 100
  }

  lemma CentsWithin(cents: int, amount: int, rate: int, least: int, most: int)
    requires 2 * cents * rate - rate <= amount < 2 * cents * rate + rate && 0 < rate
    ensures least <= cents <= most <==> (2 * least - 1) * rate <= amount < (2 * most + 1) * rate
  {
    assert (2 * cents - 1) * rate == 2 * cents * rate - rate && (2 * cents + 1) * rate == 2 * cents * rate + rate;
    if cents < least {
      MulMonotone(2 * cents + 1, 2 * least - 1, rate);
    } else {
      MulMonotone(2 * least - 1, 2 * cents - 1, rate);
    }
    if cents <= most {
      MulMonotone(2 * cents + 1, 2 * most + 1, rate);
    } else {
      MulMonotone(2 * most + 1, 2 * cents - 1, rate);
    }
  }

  lemma RielWithin(riel: int, rate: int, least: int, most: int)
    requires 0 < rate && 0 < least
    ensures least <= Convert(riel, KHR, USD, rate) <= most
       <==> (2 * least - 1) * rate <= 200 * riel < (2 * most + 1) * rate
  {
    var cents := Convert(riel, KHR, USD, rate);
    if 0 <= riel {
      ConvertIs(riel, rate);
      CentsWithin(cents, 200 * riel, rate, least, most);
    } else {
      NoCents(riel, rate);
      MulMonotone(1, 2 * least - 1, rate);
    }
  }

  lemma NoCents(riel: int, rate: int)
    requires 0 < rate && riel < 0
    ensures Convert(riel, KHR, USD, rate) <= 0
  {
    var cents := DivHalfUp(100 * riel, rate);
    if 0 < cents {
      MulMonotone(1, 2 * cents - 1, rate);
    }
  }

  /** Exactly which riel payments match a dollar order: one interval, its ends
      half a cent outside the tolerance. */
  lemma RielWindow(table: set<Attachment>, a: Attachment, order: Order, rate: int)
    requires 0 < rate && order.currency == USD && 0 < order.total
    requires Judgeable(table, a, order) && a.currency == Some(KHR)
    ensures Assess(table, a, order, Some(rate)) == Some(MATCH)
       <==> (2 * LeastCents(order.total) - 1) * rate <= 200 * a.amount.value < (2 * MostCents(order.total) + 1) * rate
  {
    var riel, least, most := a.amount.value, LeastCents(order.total), MostCents(order.total);
    var cents := Convert(riel, KHR, USD, rate);
    assert WithinTolerance(cents, order.total) <==> least <= cents <= most;
    RielWithin(riel, rate, least, most);
  }

  /** Least and greatest whole riel within three per cent of a riel total. */
  function LeastRiel(total: int): int {
    -(-(97 * total) / 10000)
  }

  function MostRiel(total: int): int {
    103 * total / 10000
  }

  /** Exactly which dollar payments match a riel order: one interval, its ends
      half a riel outside the tolerance. */
  lemma DollarWindow(table: set<Attachment>, a: Attachment, order: Order, rate: int)
    requires 0 < rate && order.currency == KHR && 0 < order.total
    requires Judgeable(table, a, order) && a.currency == Some(USD)
    ensures Assess(table, a, order, Some(rate)) == Some(MATCH)
       <==> var least, most := LeastRiel(order.total), MostRiel(order.total);
            (2 * least - 1) * 10000 <= 2 * (a.amount.value * rate) < (2 * most + 1) * 10000
  {
    var riel, least, most := DivHalfUp(a.amount.value * rate, 10000), LeastRiel(order.total), MostRiel(order.total);
    assert WithinTolerance(100 * riel, order.total) <==> least <= riel <= most;
  }

  /** The receipt is in the other currency. */
  ghost predicate Foreign(a: Attachment, order: Order)
  {
    if order.currency == KHR then a.currency == Some(USD) else a.currency == Some(KHR)
  }

  /** The payment buys the order: to the hundredth in the order's currency, and
      in the other one inside the interval that rounds into three per cent. A
      negative total is bought by anything, a zero one by nothing foreign. */
  ghost predicate Buys(a: Attachment, order: Order, rate: Option<int>)
    requires a.amount.Some?
  {
    if !Foreign(a, order) then a.amount.value == order.total
    else
      && rate.Some? && order.total != 0
      && (order.total < 0
          || if order.currency == USD
             then (2 * LeastCents(order.total) - 1) * rate.value <= 200 * a.amount.value
                  < (2 * MostCents(order.total) + 1) * rate.value
             else (2 * LeastRiel(order.total) - 1) * 10000 <= 2 * (a.amount.value * rate.value)
                  < (2 * MostRiel(order.total) + 1) * 10000)
  }

  /** An earlier receipt of the order's shop has the same reference. */
  ghost predicate Copied(table: set<Attachment>, a: Attachment, order: Order)
  {
    exists e <- table ::
      && e.seller == order.seller && e.id != a.id && e.createdAt <= a.createdAt
      && e.reference == a.reference && a.reference != ""
  }

  /** When each verdict is given, over every receipt and every order. */
  lemma VerdictIs(table: set<Attachment>, a: Attachment, order: Order, rate: Option<int>)
    requires rate.Some? ==> 0 < rate.value
    ensures var verdict := Assess(table, a, order, rate);
            var first := a.status == Some(READ) && !Copied(table, a, order);
            && (verdict == None <==> a.status == None)
            && (verdict == Some(NOT_A_RECEIPT) <==> a.status == Some(NOT_RECEIPT))
            && (verdict == Some(DUPLICATE) <==> a.status == Some(READ) && Copied(table, a, order))
            && (verdict == Some(UNREADABLE) <==> a.status == Some(FAILED) || (first && a.amount == None))
            && (verdict == Some(CURRENCY_DIFFERS) <==> first && a.amount.Some? && Foreign(a, order) && rate == None)
            && (verdict == Some(MATCH) <==> first && a.amount.Some? && Buys(a, order, rate))
            && (verdict == Some(AMOUNT_MISMATCH) <==>
                  first && a.amount.Some? && !Buys(a, order, rate) && !(Foreign(a, order) && rate == None))
  {
    assert IsDuplicate(table, a, order.seller) <==> Copied(table, a, order);
    if Judgeable(table, a, order) && Foreign(a, order) && rate.Some? && 0 < order.total {
      if order.currency == USD {
        RielWindow(table, a, order, rate.value);
      } else {
        DollarWindow(table, a, order, rate.value);
      }
    }
  }

  /** The ends of those intervals: the least and the greatest amounts, in cents
      and in whole riel, that three per cent of the total reaches. */
  lemma EndsAre(total: int, n: int)
    ensures LeastCents(total) <= n <==> 97 * total <= 100 * n
    ensures n <= MostCents(total) <==> 100 * n <= 103 * total
    ensures LeastRiel(total) <= n <==> 97 * total <= 100 * (100 * n)
    ensures n <= MostRiel(total) <==> 100 * (100 * n) <= 103 * total
  {
  }

  /** Just below the bound of `QuotedPaymentMatches` the quote can miss: at 4,100
      an order of 676.50 riel is quoted at 17 cents, which is 697 riel. */
  lemma SmallQuoteMisses(table: set<Attachment>, a: Attachment, order: Order)
    requires order.currency == KHR && order.total == 67650
    requires Judgeable(table, a, order) && a.currency == Some(USD) && a.amount == Some(Convert(67650, KHR, USD, 410000))
    ensures a.amount == Some(17) && Assess(table, a, order, Some(410000)) == Some(AMOUNT_MISMATCH)
  {
    assert Convert(67650, KHR, USD, 410000) == 17 && Convert(17, USD, KHR, 410000) == 69700;
  }

  /** At the default rate of 4,100, whole riel paid at any bank rate from 4,000
      to 4,150, rounded either way, match every order of at least a dollar. */
  lemma BankRatesMatch(table: set<Attachment>, a: Attachment, order: Order, bankRate: int, riel: int)
    requires order.currency == USD && 100 <= order.total
    requires 400000 <= bankRate <= 415000
    requires order.total * bankRate - 10000 < 10000 * riel < order.total * bankRate + 10000
    requires Judgeable(table, a, order) && a.currency == Some(KHR) && a.amount == Some(100 * riel)
    ensures Assess(table, a, order, Some(410000)) == Some(MATCH)
  {
    MulMonotone(400000, bankRate, order.total);
    MulMonotone(bankRate, 415000, order.total);
    var cents := Convert(100 * riel, KHR, USD, 410000);
    assert 0 <= 100 * riel;
    assert 100 * Abs(cents - order.total) <= 3 * order.total;
  }

  /** Of two receipts of one seller with one reference, at most one can match
      any order of that seller. */
  lemma OneReceiptPerReference(table: set<Attachment>, a: Attachment, b: Attachment, order: Order, order': Order,
                               rate: Option<int>)
    requires a in table && b in table && a.id != b.id
    requires a.seller == b.seller == order.seller == order'.seller
    requires a.reference == b.reference != ""
    requires rate.Some? ==> 0 < rate.value
    ensures !(Assess(table, a, order, rate) == Some(MATCH) && Assess(table, b, order', rate) == Some(MATCH))
  {
    assert IsDuplicate(table, a, order.seller) || IsDuplicate(table, b, order.seller);
  }

  /** The first receipt stays clean when a copy turns up later. */
  lemma LaterCopiesChangeNothing(table: set<Attachment>, later: set<Attachment>, a: Attachment, order: Order,
                                 rate: Option<int>)
    requires rate.Some? ==> 0 < rate.value
    requires forall e <- later :: a.createdAt < e.createdAt
    ensures Assess(table + later, a, order, rate) == Assess(table, a, order, rate)
  {
    if IsDuplicate(table, a, order.seller) {
      var e :| e in table && e.seller == order.seller && e.id != a.id && e.reference == a.reference
               && e.createdAt <= a.createdAt;
      assert e in table + later;
    }
  }
}
