/** How an order comes to be paid: by card, by a receipt the seller confirms, or
    by a dynamic KHQR that is watched until it is paid or expires. */
module Payments {
  import opened Currency
  import opened Lifecycle
  import opened Wrappers

  type OrderId = nat
  type ReceiptId = nat

  /** An issued KHQR, named by its MD5; the payload carries its issue time, so
      codes are fresh and the digest is taken to be injective. */
  type Code = nat
  type JobId = nat

  /** Clock ticks of a microsecond. */
  const EXPIRE := 3_600_000_000
  const POLL := 20_000_000

  /** The time that `n` polling intervals take. */
  function Intervals(n: int): int {
    n * 20_000_000
  }

  datatype Payment = UNPAID | PAYMENT_PENDING | PAID
  datatype Method = STRIPE | QR | KHQR
  datatype KhqrStatus = ISSUED | KHQR_PAID | EXPIRED | MISMATCH

  /** The columns of an order that payment reads or writes. */
  datatype Order = Order(
    status: Status, deadline: Option<int>, total: real, currency: Currency,
    payment: Payment, how: Option<Method>, receipt: Option<ReceiptId>,
    paidAt: Option<int>, paidAmount: Option<real>, paidCurrency: Option<Currency>,
    khqr: Option<KhqrStatus>, code: Option<Code>, expiresAt: Option<int>, checkedAt: Option<int>)

  /** What Bakong answered. */
  datatype Check = FOUND(amount: Option<real>, currency: Option<Currency>) | NOT_FOUND | UNAVAILABLE

  datatype Reading = Reading(amount: Option<real>, currency: Option<Currency>)

  // ---- One order ------------------------------------------------------------

  function NewOrder(total: real, currency: Currency, now: int): Order {
    Order(PENDING, Some(now + RESERVATION_LIFETIME), total, currency,
          UNPAID, None, None, None, None, None, None, None, None, None)
  }

  /** Round half to even, the default of Decimal.quantize. */
  function HalfEven(x: real): int {
    var n := x.Floor;
    var part := x - n as real;
    if part < 0.5 || (part == 0.5 && n % 2 == 0) then n else n + 1
  }

  /** An amount in quanta of its currency: cents, or whole riel. */
  function Quanta(amount: real, currency: Currency): int {
    HalfEven(if currency == KHR then amount else amount * 100.0)
  }

  predicate Matches(o: Order, amount: Option<real>, currency: Option<Currency>) {
    && currency == Some(o.currency) && amount.Some?
    && Quanta(amount.value, o.currency) == Quanta(o.total, o.currency)
  }

  function Paid(o: Order, how: Method, receipt: Option<ReceiptId>, amount: real, currency: Currency, now: int): Order {
    o.(payment := PAID, how := Some(how), receipt := receipt,
       paidAt := Some(now), paidAmount := Some(amount), paidCurrency := Some(currency))
  }

  /** The status part of `update_order`. */
  function WithStatus(o: Order, status: Status, now: int): Order {
    if status == o.status then o
    else o.(status := status, deadline := if status == PENDING then Some(now + RESERVATION_LIFETIME) else None)
  }

  predicate Expirable(o: Order, now: int) {
    o.status == PENDING && o.payment == UNPAID && o.deadline.Some? && o.deadline.value <= now
  }

  function Expired(o: Order): Order {
    o.(status := CANCELLED, deadline := None)
  }

  predicate CanCheckout(o: Order) {
    o.payment != PAID && o.status != CANCELLED && 0.0 < o.total
  }

  function CheckedOut(o: Order, now: int): Order {
    o.(payment := if o.payment == UNPAID then PAYMENT_PENDING else o.payment,
       deadline := if o.status == PENDING then Some(now + RESERVATION_LIFETIME) else o.deadline)
  }

  /** The webhook's transition. */
  function StripePaid(o: Order, now: int): Order {
    if o.payment == PAID then o
    else Paid(o, STRIPE, o.receipt, o.total, o.currency, now).(deadline := None)
  }

  predicate CanConfirm(o: Order) {
    o.status != CANCELLED && o.payment != PAID
  }

  function Confirmed(o: Order, receipt: ReceiptId, reading: Reading, now: int): Order {
    if reading.amount.Some?
    then Paid(o, QR, Some(receipt), reading.amount.value,
              if reading.currency.Some? then reading.currency.value else o.currency, now)
    else Paid(o, QR, Some(receipt), o.total, o.currency, now)
  }

  /** Whether the order holds a code a customer can still pay. */
  predicate Current(o: Order, now: int) {
    o.khqr == Some(ISSUED) && o.code.Some? && o.expiresAt.Some? && o.expiresAt.value > now
  }

  predicate CanIssue(o: Order) {
    o.payment != PAID && o.status != CANCELLED
  }

  function WithCode(o: Order, code: Code, now: int): Order {
    o.(code := Some(code), expiresAt := Some(now + EXPIRE), khqr := Some(ISSUED), checkedAt := None)
  }

  /** `apply`: what Bakong's answer does to the order. */
  function Applied(o: Order, r: Check, now: int): Order {
    var seen := o.(checkedAt := Some(now));
    if !r.FOUND? then seen
    else if !Matches(o, r.amount, r.currency) then seen.(khqr := Some(MISMATCH))
    else if o.payment == PAID then seen.(khqr := Some(KHQR_PAID))
    else Paid(seen, KHQR, o.receipt, r.amount.value, r.currency.value, now).(khqr := Some(KHQR_PAID), deadline := None)
  }

  /** Superseded, settled or abandoned: nothing to watch. */
  predicate Idle(o: Order, code: Code) {
    o.code != Some(code) || o.khqr != Some(ISSUED) || o.payment == PAID
  }

  // ---- The order row --------------------------------------------------------

  class OrderRow {
    var status: Status
    var deadline: Option<int>
    const total: real
    const currency: Currency
    var payment: Payment
    var how: Option<Method>
    var receipt: Option<ReceiptId>
    var paidAt: Option<int>
    var paidAmount: Option<real>
    var paidCurrency: Option<Currency>
    var khqr: Option<KhqrStatus>
    var code: Option<Code>
    var expiresAt: Option<int>
    var checkedAt: Option<int>

    function Row(): Order
      reads this
    {
      Order(status, deadline, total, currency, payment, how, receipt, paidAt, paidAmount, paidCurrency,
            khqr, code, expiresAt, checkedAt)
    }

    constructor (total: real, currency: Currency, now: int)
      ensures Row() == NewOrder(total, currency, now)
    {
      this.total, this.currency := total, currency;
      status, deadline, payment := PENDING, Some(now + RESERVATION_LIFETIME), UNPAID;
      how, receipt, paidAt, paidAmount, paidCurrency := None, None, None, None, None;
      khqr, code, expiresAt, checkedAt := None, None, None, None;
    }

    method ReceiveStripeEvent(now: int)
      modifies this
      ensures Row() == StripePaid(old(Row()), now)
    {
      if payment != PAID {
        payment := PAID;
        how := Some(STRIPE);
        paidAt := Some(now);
        paidAmount := Some(total);
        paidCurrency := Some(currency);
        deadline := None;
      }
    }

    /** `used` says whether the receipt is attached to another order. */
    method ConfirmReceipt(attachment: ReceiptId, reading: Reading, used: bool, now: int) returns (ok: bool)
      modifies this
      ensures ok <==> old(status) != CANCELLED
                      && (if old(payment) == PAID then old(receipt) == Some(attachment) else !used)
      ensures Row() == if ok && old(payment) != PAID
                       then Confirmed(old(Row()), attachment, reading, now) else old(Row())
    {
      if status == CANCELLED {
        return false;
      }
      if payment == PAID {
        return receipt == Some(attachment);
      }
      if used {
        return false;
      }
      payment := PAID;
      how := Some(QR);
      receipt := Some(attachment);
      paidAt := Some(now);
      if reading.amount.Some? {
        paidAmount := reading.amount;
        paidCurrency := if reading.currency.Some? then reading.currency else Some(currency);
      } else {
        paidAmount := Some(total);
        paidCurrency := Some(currency);
      }
      return true;
    }

    /** Gives the order a payable code, the current one or `fresh`; the caller
        queues a check exactly when a fresh one was given. */
    method Issue(enabled: bool, buildable: bool, fresh': Code, now: int) returns (ok: bool, queued: bool)
      modifies this
      ensures ok <==> enabled && CanIssue(old(Row())) && (Current(old(Row()), now) || buildable)
      ensures queued <==> ok && !Current(old(Row()), now)
      ensures Row() == if queued then WithCode(old(Row()), fresh', now) else old(Row())
    {
      if !enabled || payment == PAID || status == CANCELLED {
        return false, false;
      }
      if khqr == Some(ISSUED) && code.Some? && expiresAt.Some? && expiresAt.value > now {
        return true, false;
      }
      if !buildable {
        return false, false;
      }
      code := Some(fresh');
      expiresAt := Some(now + EXPIRE);
      khqr := Some(ISSUED);
      checkedAt := None;
      return true, true;
    }

    method Apply(r: Check, now: int) returns (paid: bool)
      modifies this
      ensures Row() == Applied(old(Row()), r, now)
      ensures paid <==> r.FOUND? && Matches(old(Row()), r.amount, r.currency)
    {
      checkedAt := Some(now);
      if !r.FOUND? {
        return false;
      }
      if !Matches(Row(), r.amount, r.currency) {
        khqr := Some(MISMATCH);
        return false;
      }
      khqr := Some(KHQR_PAID);
      if payment == PAID {
        return true;
      }
      payment := PAID;
      how := Some(KHQR);
      paidAt := Some(now);
      paidAmount := r.amount;
      paidCurrency := r.currency;
      deadline := None;
      return true;
    }
  }

  // ---- All orders and their checks ------------------------------------------

  datatype Job = Job(order: OrderId, code: Code, runAfter: int)

  /** `issuedAt` and `polls` remember, for every code, when it was issued and how
      often the watch has asked about it; `erased` are the receipts deleted with
      their conversations. */
  datatype World = World(
    orders: map<OrderId, Order>, jobs: map<JobId, Job>,
    issuedAt: map<Code, int>, polls: map<Code, nat>, erased: set<ReceiptId>, nextJob: JobId, now: int)

  const EMPTY := World(map[], map[], map[], map[], {}, 0, 0)

  /** `Drop` is a check that never happens: no token, an exception, or a worker
      that died; a `RunCheck` that is not `finished` commits and then leaves its
      job behind to be run again. `Erase` deletes a receipt with the customer's
      conversation, which blanks the link of the order it paid. */
  datatype Event =
    | Create(id: OrderId, total: real, currency: Currency)
    | Delete(id: OrderId)
    | SetStatus(id: OrderId, status: Status)
    | Expire(id: OrderId)
    | Checkout(id: OrderId)
    | Stripe(id: OrderId)
    | Confirm(id: OrderId, receipt: ReceiptId, reading: Reading)
    | Issue(id: OrderId, code: Code)
    | CheckNow(id: OrderId, result: Check)
    | RunCheck(job: JobId, result: Check, finished: bool)
    | Drop(job: JobId)
    | Erase(receipt: ReceiptId)

  type Timed = (Event, int)

  ghost predicate Enabled(s: World, e: Timed)
  {
    && s.now <= e.1
    && match e.0
       case Create(id, _, _) => id !in s.orders && forall j <- s.jobs :: s.jobs[j].order != id
       case RunCheck(job, _, _) => job in s.jobs && s.jobs[job].runAfter <= e.1
       case Drop(job) => job in s.jobs
       case Erase(_) => true
       case Expire(id) => id in s.orders && Expirable(s.orders[id], e.1)
       case Checkout(id) => id in s.orders && CanCheckout(s.orders[id])
       case Confirm(id, receipt, _) => id in s.orders && CanConfirm(s.orders[id]) && receipt !in s.erased
         && forall other <- s.orders :: other != id ==> s.orders[other].receipt != Some(receipt)
       case Issue(id, code) => id in s.orders && CanIssue(s.orders[id]) && code !in s.issuedAt
       case CheckNow(id, _) => id in s.orders && s.orders[id].code.Some?
       case Delete(id) => id in s.orders
       case SetStatus(id, _) => id in s.orders
       case Stripe(id) => id in s.orders
  }

  /** What a step does to the order it names. */
  function Acted(o: Order, e: Event, now: int): Order {
    match e
    case SetStatus(_, status) => WithStatus(o, status, now)
    case Expire(_) => Expired(o)
    case Checkout(_) => CheckedOut(o, now)
    case Stripe(_) => StripePaid(o, now)
    case Confirm(_, receipt, reading) => Confirmed(o, receipt, reading, now)
    case Issue(_, code) => if Current(o, now) then o else WithCode(o, code, now)
    case CheckNow(_, result) => Applied(o, result, now)
    case _ => o
  }

  /** What `run_check` does to the order it looks at. */
  function Looked(o: Order, code: Code, result: Check, now: int): Order {
    if Idle(o, code) then o
    else if o.expiresAt.Some? && o.expiresAt.value <= now then o.(khqr := Some(KhqrStatus.EXPIRED))
    else Applied(o, result, now)
  }

  /** Whether `run_check` asks Bakong. */
  predicate Asks(o: Order, code: Code, now: int) {
    !Idle(o, code) && !(o.expiresAt.Some? && o.expiresAt.value <= now)
  }

  /** ON DELETE SET NULL on the link to the receipt. */
  function Unlinked(o: Order, receipt: ReceiptId): Order {
    if o.receipt == Some(receipt) then o.(receipt := None) else o
  }

  ghost function Erased(s: World, receipt: ReceiptId): World {
    s.(orders := map id <- s.orders :: Unlinked(s.orders[id], receipt), erased := s.erased + {receipt})
  }

  ghost function Put(s: World, id: OrderId, o: Order): World {
    s.(orders := s.orders[id := o])
  }

  /** `_schedule` */
  ghost function Scheduled(s: World, id: OrderId, code: Code): World {
    s.(jobs := s.jobs[s.nextJob := Job(id, code, s.now + POLL)], nextJob := s.nextJob + 1)
  }

  ghost function Polls(s: World, code: Code): nat {
    if code in s.polls then s.polls[code] else 0
  }

  /** The order `id` replaced by `o` after one more look at its code. */
  ghost function Asked(s: World, id: OrderId, o: Order, code: Code): World {
    Put(s, id, o).(polls := s.polls[code := Polls(s, code) + 1])
  }

  /** `run_check`, with a token set and nothing going wrong. */
  ghost function Checked(s: World, job: Job, result: Check): World
  {
    if job.order !in s.orders then s
    else
      var o := s.orders[job.order];
      var o' := Looked(o, job.code, result, s.now);
      var t := Put(s, job.order, o');
      if !Asks(o, job.code, s.now) then t
      else
        var u := Asked(s, job.order, o', job.code);
        if o'.khqr == Some(ISSUED) then Scheduled(u, job.order, job.code) else u
  }

  ghost function Issued(s: World, id: OrderId, code: Code): World
    requires id in s.orders
  {
    if Current(s.orders[id], s.now) then s
    else Scheduled(Put(s, id, WithCode(s.orders[id], code, s.now)).(
                     issuedAt := s.issuedAt[code := s.now], polls := s.polls[code := 0]), id, code)
  }

  ghost function After(s: World, e: Timed): World
    requires Enabled(s, e)
  {
    var t := s.(now := e.1);
    match e.0
    case Create(id, total, currency) => Put(t, id, NewOrder(total, currency, e.1))
    case Delete(id) => t.(orders := s.orders - {id})
    case Issue(id, code) => Issued(t, id, code)
    case RunCheck(job, result, finished) =>
      Checked(if finished then t.(jobs := s.jobs - {job}) else t, s.jobs[job], result)
    case Drop(job) => t.(jobs := s.jobs - {job})
    case Erase(receipt) => Erased(t, receipt)
    case _ => Put(t, e.0.id, Acted(s.orders[e.0.id], e.0, e.1))
  }

  ghost predicate Legal(s: World, run: seq<Timed>)
    decreases run
  {
    run == [] || (Enabled(s, run[0]) && Legal(After(s, run[0]), run[1..]))
  }

  ghost function End(s: World, run: seq<Timed>): World
    requires Legal(s, run)
    decreases run
  {
    if run == [] then s else End(After(s, run[0]), run[1..])
  }

  // ---- What each event leaves -----------------------------------------------

  /** Check numbers are drawn in order. */
  ghost predicate Numbered(s: World)
  {
    forall j <- s.jobs :: j < s.nextJob
  }

  lemma {:induction false} RunsNumbered(s: World, run: seq<Timed>)
    requires Numbered(s) && Legal(s, run)
    ensures Numbered(End(s, run))
    decreases run
  {
    if run != [] {
      RunsNumbered(After(s, run[0]), run[1..]);
    }
  }

  /** One job more than before. */
  ghost predicate Queues(before: map<JobId, Job>, after: map<JobId, Job>, job: Job)
  {
    exists n: JobId :: n !in before && after == before[n := job]
  }

  ghost predicate OthersKept(s: World, t: World, id: OrderId)
  {
    && t.orders.Keys == s.orders.Keys && (forall k <- s.orders :: k != id ==> t.orders[k] == s.orders[k])
    && t.erased == s.erased && t.issuedAt == s.issuedAt
  }

  /** The nearest number of quanta, an even one of two equally near. */
  lemma QuantaIs(amount: real, currency: Currency)
    ensures var n, x := Quanta(amount, currency), if currency == Currency.KHR then amount else amount * 100.0;
            -0.5 <= x - n as real <= 0.5 && (x - n as real == 0.5 || x - n as real == -0.5 ==> n % 2 == 0)
  {
  }

  /** What the bank found is the order's own amount, in its own currency. */
  ghost predicate PaysExactly(o: Order, r: Check)
  {
    && r.FOUND? && r.amount.Some? && r.currency == Some(o.currency)
    && Quanta(r.amount.value, o.currency) == Quanta(o.total, o.currency)
  }

  /** The order still waits for this code to be paid. */
  ghost predicate Awaits(o: Order, code: Code)
  {
    o.code == Some(code) && o.khqr == Some(ISSUED) && o.payment != PAID
  }

  ghost predicate RunOut(o: Order, now: int)
  {
    o.expiresAt.Some? && o.expiresAt.value <= now
  }

  /** An order paid by what the bank found. */
  ghost function PaidByBank(o: Order, r: Check, now: int): Order
    requires r.FOUND?
  {
    o.(payment := PAID, how := Some(KHQR), khqr := Some(KHQR_PAID), paidAt := Some(now), paidAmount := r.amount,
       paidCurrency := r.currency, deadline := None, checkedAt := Some(now))
  }

  /** One look of the watch, on the order. Nothing is done for a code that is
      superseded or settled; a code that ran out is expired; an answer that finds
      no payment leaves the order as it was, but for the time of the look; the
      right payment pays the order and a wrong one only marks it. */
  lemma LookWrites(s: World, j: JobId, r: Check, finished: bool, now: int)
    requires Enabled(s, (RunCheck(j, r, finished), now))
    ensures var t := After(s, (RunCheck(j, r, finished), now));
            var id, code := s.jobs[j].order, s.jobs[j].code;
            && OthersKept(s, t, id)
            && (id in s.orders ==>
                  var o, o' := s.orders[id], t.orders[id];
                  if !Awaits(o, code) then o' == o
                  else if RunOut(o, now) then o' == o.(khqr := Some(KhqrStatus.EXPIRED))
                  else if !r.FOUND? then o' == o.(checkedAt := Some(now))
                  else if PaysExactly(o, r) then o' == PaidByBank(o, r, now)
                  else o' == o.(checkedAt := Some(now), khqr := Some(MISMATCH)))
  {
  }

  /** And on the queue: exactly one more look, in twenty seconds, if the code is
      still awaited, has not run out, and no payment was found; otherwise none. */
  lemma LookQueues(s: World, j: JobId, r: Check, finished: bool, now: int)
    requires Enabled(s, (RunCheck(j, r, finished), now)) && Numbered(s)
    ensures var t := After(s, (RunCheck(j, r, finished), now));
            var id, code := s.jobs[j].order, s.jobs[j].code;
            var rest := if finished then s.jobs - {j} else s.jobs;
            if id in s.orders && Awaits(s.orders[id], code) && !RunOut(s.orders[id], now) && !r.FOUND?
            then Queues(rest, t.jobs, Job(id, code, now + 20_000_000)) else t.jobs == rest
  {
    var id, code := s.jobs[j].order, s.jobs[j].code;
    var rest := if finished then s.jobs - {j} else s.jobs;
    if id in s.orders && Asks(s.orders[id], code, now) && !r.FOUND? {
      var t := After(s, (RunCheck(j, r, finished), now));
      assert s.nextJob !in rest && t.jobs == rest[s.nextJob := Job(id, code, now + 20_000_000)];
    }
  }

  /** A look the seller asks for, which queues nothing. */
  lemma CheckNowIs(s: World, id: OrderId, r: Check, now: int)
    requires Enabled(s, (CheckNow(id, r), now))
    ensures var t := After(s, (CheckNow(id, r), now));
            var o, o' := s.orders[id], t.orders[id];
            && OthersKept(s, t, id) && t.jobs == s.jobs
            && if !r.FOUND? then o' == o.(checkedAt := Some(now))
               else if !PaysExactly(o, r) then o' == o.(checkedAt := Some(now), khqr := Some(MISMATCH))
               else if o.payment == PAID then o' == o.(checkedAt := Some(now), khqr := Some(KHQR_PAID))
               else o' == PaidByBank(o, r, now)
  {
  }

  /** The card webhook pays an order that is not paid yet, in full, now; it no
      longer expires. */
  lemma StripeIs(s: World, id: OrderId, now: int)
    requires Enabled(s, (Stripe(id), now))
    ensures var t := After(s, (Stripe(id), now));
            var o, o' := s.orders[id], t.orders[id];
            && OthersKept(s, t, id) && t.jobs == s.jobs
            && if o.payment == PAID then o' == o
               else o' == o.(payment := PAID, how := Some(STRIPE), paidAt := Some(now), paidAmount := Some(o.total),
                             paidCurrency := Some(o.currency), deadline := None)
  {
  }

  /** A confirmed receipt pays the order with what was read off it, in the
      order's currency if none was read, or with the order's total if no amount
      was. */
  lemma ConfirmIs(s: World, id: OrderId, receipt: ReceiptId, reading: Reading, now: int)
    requires Enabled(s, (Confirm(id, receipt, reading), now))
    ensures var t := After(s, (Confirm(id, receipt, reading), now));
            var o := s.orders[id];
            var amount := if reading.amount.Some? then reading.amount.value else o.total;
            var currency := if reading.amount.Some? && reading.currency.Some? then reading.currency.value
                            else o.currency;
            && OthersKept(s, t, id) && t.jobs == s.jobs
            && o.status != CANCELLED && o.payment != PAID
            && t.orders[id] == o.(payment := PAID, how := Some(QR), receipt := Some(receipt), paidAt := Some(now),
                                  paidAmount := Some(amount), paidCurrency := Some(currency))
  {
  }

  /** A card page is opened for an order with something left to pay, marks the
      payment as under way, and holds a pending order's goods for another day. */
  lemma CheckoutIs(s: World, id: OrderId, now: int)
    requires Enabled(s, (Checkout(id), now))
    ensures var t := After(s, (Checkout(id), now));
            var o, o' := s.orders[id], t.orders[id];
            && OthersKept(s, t, id) && t.jobs == s.jobs
            && o.payment != PAID && o.status != CANCELLED && 0.0 < o.total
            && o'.payment == PAYMENT_PENDING
            && o'.deadline == (if o.status == PENDING then Some(now + 86_400_000_000) else o.deadline)
            && o' == o.(payment := o'.payment, deadline := o'.deadline)
  {
  }

  /** A code is given to an order that can be paid and has no payable one: good
      for an hour, and looked at first in twenty seconds. */
  lemma IssueIs(s: World, id: OrderId, code: Code, now: int)
    requires Enabled(s, (Issue(id, code), now)) && Numbered(s)
    ensures var t := After(s, (Issue(id, code), now));
            var o, o' := s.orders[id], t.orders[id];
            && t.orders.Keys == s.orders.Keys && (forall k <- s.orders :: k != id ==> t.orders[k] == s.orders[k])
            && o.payment != PAID && o.status != CANCELLED
            && if o.khqr == Some(ISSUED) && o.code.Some? && o.expiresAt.Some? && o.expiresAt.value > now
               then o' == o && t.jobs == s.jobs
               else o' == o.(khqr := Some(ISSUED), code := Some(code), expiresAt := Some(now + 3_600_000_000),
                             checkedAt := None)
                    && Queues(s.jobs, t.jobs, Job(id, code, now + 20_000_000))
  {
    var t := After(s, (Issue(id, code), now));
    if !Current(s.orders[id], now) {
      assert s.nextJob !in s.jobs && t.jobs == s.jobs[s.nextJob := Job(id, code, now + 20_000_000)];
    }
  }

  /** A new status gives a pending order a day and any other no deadline; the
      status it had already changes nothing; expiry cancels. */
  lemma StatusIs(s: World, e: Timed)
    requires Enabled(s, e) && (e.0.SetStatus? || e.0.Expire?)
    ensures var t := After(s, e);
            var o, o' := s.orders[e.0.id], t.orders[e.0.id];
            && OthersKept(s, t, e.0.id) && t.jobs == s.jobs
            && o' == o.(status := o'.status, deadline := o'.deadline)
            && o'.status == (if e.0.SetStatus? then e.0.status else CANCELLED)
            && (o'.status != o.status ==>
                  o'.deadline == if o'.status == PENDING then Some(e.1 + 86_400_000_000) else None)
            && (o'.status == o.status ==> o' == o)
            && (e.0.Expire? ==>
                  o.status == PENDING && o.payment == UNPAID && o.deadline.Some? && o.deadline.value <= e.1)
  {
  }

  /** An order starts pending and unpaid, its goods held for a day, with no code. */
  lemma CreateIs(s: World, id: OrderId, total: real, currency: Currency, now: int)
    requires Enabled(s, (Create(id, total, currency), now))
    ensures var t := After(s, (Create(id, total, currency), now));
            && id !in s.orders && t.jobs == s.jobs
            && t.orders
               == s.orders[id := Order(PENDING, Some(now + 86_400_000_000), total, currency, UNPAID, None, None, None,
                                       None, None, None, None, None, None)]
  {
  }

  // ---- Payment happens once -------------------------------------------------

  /** The payment columns are written together or not at all, a card or KHQR
      payment is for the order's total in the order's currency, and only a paid
      order names a receipt. */
  ghost predicate OrderOk(o: Order)
  {
    && (o.payment == PAID <==> o.how.Some?) && (o.payment == PAID <==> o.paidAt.Some?)
    && (o.payment == PAID <==> o.paidAmount.Some?) && (o.payment == PAID <==> o.paidCurrency.Some?)
    && (o.receipt.Some? ==> o.how == Some(QR))
    && (o.how == Some(STRIPE) ==> o.paidAmount == Some(o.total) && o.paidCurrency == Some(o.currency))
    && (o.how == Some(KHQR) ==> Matches(o, o.paidAmount, o.paidCurrency))
    && (o.khqr == Some(ISSUED) ==> o.code.Some? && o.expiresAt.Some?)
  }

  /** A receipt pays at most one order. */
  ghost predicate ReceiptsOk(s: World)
  {
    forall a <- s.orders, b <- s.orders :: a != b && s.orders[a].receipt.Some? ==>
      s.orders[a].receipt != s.orders[b].receipt
  }

  /** What was paid stays paid, in every column, and the price never moves; the
      link to the receipt can be lost, but not changed. */
  ghost predicate Settled(before: Order, after: Order)
  {
    && after.total == before.total && after.currency == before.currency
    && (before.payment == PAID ==>
          && after.payment == PAID && after.how == before.how
          && (after.receipt == before.receipt || after.receipt.None?)
          && after.paidAt == before.paidAt && after.paidAmount == before.paidAmount
          && after.paidCurrency == before.paidCurrency)
  }

  ghost predicate Sound(s: World)
  {
    (forall id <- s.orders {:trigger OrderOk(s.orders[id])} :: OrderOk(s.orders[id])) && ReceiptsOk(s)
  }

  /** `o'` is a lawful successor of `o`, with the same receipt, with `r` or with
      none. */
  ghost predicate Lawful(o: Order, o': Order, r: Option<ReceiptId>)
  {
    OrderOk(o') && Settled(o, o') && (o'.receipt == o.receipt || o'.receipt.None? || o'.receipt == r)
  }

  /** The receipt a step attaches, if it attaches one. */
  ghost function Attaches(e: Event, id: OrderId): Option<ReceiptId> {
    if e.Confirm? && e.id == id then Some(e.receipt) else None
  }

  lemma StatusLawful(o: Order, status: Status, now: int)
    requires OrderOk(o)
    ensures Lawful(o, WithStatus(o, status, now), None)
  {
  }

  lemma ExpiredLawful(o: Order)
    requires OrderOk(o)
    ensures Lawful(o, Expired(o), None)
  {
  }

  lemma CheckedOutLawful(o: Order, now: int)
    requires OrderOk(o) && CanCheckout(o)
    ensures Lawful(o, CheckedOut(o, now), None)
  {
  }

  lemma StripeLawful(o: Order, now: int)
    requires OrderOk(o)
    ensures Lawful(o, StripePaid(o, now), None)
  {
  }

  lemma ConfirmedLawful(o: Order, receipt: ReceiptId, reading: Reading, now: int)
    requires OrderOk(o) && CanConfirm(o)
    ensures Lawful(o, Confirmed(o, receipt, reading, now), Some(receipt))
  {
  }

  lemma CodeLawful(o: Order, code: Code, now: int)
    requires OrderOk(o)
    ensures Lawful(o, WithCode(o, code, now), None)
  {
  }

  lemma AppliedLawful(o: Order, r: Check, now: int)
    requires OrderOk(o)
    ensures Lawful(o, Applied(o, r, now), None)
  {
  }

  lemma UnlinkedLawful(o: Order, receipt: ReceiptId)
    requires OrderOk(o)
    ensures Lawful(o, Unlinked(o, receipt), None)
  {
  }

  lemma LookedLawful(o: Order, code: Code, result: Check, now: int)
    requires OrderOk(o)
    ensures Lawful(o, Looked(o, code, result, now), None)
  {
    AppliedLawful(o, result, now);
  }

  /** The steps that write the one order they name. */
  predicate Names(e: Event) {
    !e.Create? && !e.Delete? && !e.RunCheck? && !e.Drop? && !e.Erase?
  }

  lemma NamedOrder(s: World, e: Timed, id: OrderId)
    requires Enabled(s, e) && Names(e.0)
    ensures e.0.id in s.orders && After(s, e).orders.Keys == s.orders.Keys
    ensures id in s.orders ==>
              After(s, e).orders[id] == if e.0.id == id then Acted(s.orders[id], e.0, e.1) else s.orders[id]
  {
  }

  lemma CheckedOrder(s: World, job: Job, result: Check, id: OrderId)
    ensures Checked(s, job, result).orders.Keys == s.orders.Keys
    ensures id in s.orders ==> Checked(s, job, result).orders[id]
                               == if job.order == id
                                  then Looked(s.orders[id], job.code, result, s.now) else s.orders[id]
  {
  }

  /** A step leaves an order alone, acts on it, looks at it or blanks its
      receipt. */
  lemma OneOrder(s: World, e: Timed, id: OrderId)
    requires Enabled(s, e) && id in After(s, e).orders
    ensures id !in s.orders ==>
              e.0.Create? && e.0.id == id && After(s, e).orders[id] == NewOrder(e.0.total, e.0.currency, e.1)
    ensures id in s.orders ==>
              var o, o' := s.orders[id], After(s, e).orders[id];
              || o' == o
              || (Names(e.0) && e.0.id == id && o' == Acted(o, e.0, e.1))
              || (e.0.RunCheck? && o' == Looked(o, s.jobs[e.0.job].code, e.0.result, e.1))
              || (e.0.Erase? && o' == Unlinked(o, e.0.receipt))
  {
    if Names(e.0) {
      NamedOrder(s, e, id);
    } else if e.0.RunCheck? {
      var t := s.(now := e.1);
      CheckedOrder(if e.0.finished then t.(jobs := s.jobs - {e.0.job}) else t, s.jobs[e.0.job], e.0.result, id);
    }
  }

  lemma ActedLawful(s: World, e: Timed, o: Order)
    requires Enabled(s, e) && Names(e.0) && e.0.id in s.orders && s.orders[e.0.id] == o && OrderOk(o)
    ensures Lawful(o, Acted(o, e.0, e.1), Attaches(e.0, e.0.id))
  {
    match e.0
    case SetStatus(_, status) => StatusLawful(o, status, e.1);
    case Expire(_) => ExpiredLawful(o);
    case Checkout(_) => CheckedOutLawful(o, e.1);
    case Stripe(_) => StripeLawful(o, e.1);
    case Confirm(_, receipt, reading) => ConfirmedLawful(o, receipt, reading, e.1);
    case Issue(_, code) => CodeLawful(o, code, e.1);
    case CheckNow(_, result) => AppliedLawful(o, result, e.1);
    case _ =>
  }

  lemma OneOrderLawful(s: World, e: Timed, id: OrderId)
    requires Sound(s) && Enabled(s, e) && id in After(s, e).orders
    ensures id in s.orders ==> Lawful(s.orders[id], After(s, e).orders[id], Attaches(e.0, id))
    ensures id !in s.orders ==> OrderOk(After(s, e).orders[id]) && After(s, e).orders[id].receipt.None?
  {
    OneOrder(s, e, id);
    if id in s.orders {
      var o := s.orders[id];
      if e.0.RunCheck? {
        LookedLawful(o, s.jobs[e.0.job].code, e.0.result, e.1);
      } else if e.0.Erase? {
        UnlinkedLawful(o, e.0.receipt);
      } else if Names(e.0) && e.0.id == id {
        ActedLawful(s, e, o);
      }
    }
  }

  lemma StepSound(s: World, e: Timed)
    requires Sound(s) && Enabled(s, e)
    ensures Sound(After(s, e))
    ensures forall id <- s.orders :: id in After(s, e).orders ==> Settled(s.orders[id], After(s, e).orders[id])
  {
    var t := After(s, e);
    forall id | id in t.orders
      ensures OrderOk(t.orders[id])
      ensures id in s.orders ==> Settled(s.orders[id], t.orders[id])
    {
      OneOrderLawful(s, e, id);
    }
    forall a, b | a in t.orders && b in t.orders && a != b && t.orders[a].receipt.Some?
      ensures t.orders[a].receipt != t.orders[b].receipt
    {
      OneOrderLawful(s, e, a);
      OneOrderLawful(s, e, b);
    }
  }

  lemma {:induction false} RunsSound(s: World, run: seq<Timed>)
    requires Sound(s) && Legal(s, run)
    ensures Sound(End(s, run))
    decreases run
  {
    if run != [] {
      StepSound(s, run[0]);
      RunsSound(After(s, run[0]), run[1..]);
    }
  }

  lemma StillThere(s: World, e: Timed, id: OrderId)
    requires Enabled(s, e) && id in s.orders && e.0 != Delete(id)
    ensures id in After(s, e).orders
  {
    if Names(e.0) {
      NamedOrder(s, e, id);
    } else if e.0.RunCheck? {
      var t := s.(now := e.1);
      CheckedOrder(if e.0.finished then t.(jobs := s.jobs - {e.0.job}) else t, s.jobs[e.0.job], e.0.result, id);
    }
  }

  /** Only erasing the receipt blanks the link to it. */
  lemma LinkKept(s: World, e: Timed, id: OrderId)
    requires Sound(s) && Enabled(s, e) && id in s.orders && id in After(s, e).orders
    requires s.orders[id].payment == PAID && s.orders[id].receipt.Some?
    ensures var receipt := s.orders[id].receipt;
            After(s, e).orders[id].receipt == if e.0 == Erase(receipt.value) then None else receipt
  {
    OneOrder(s, e, id);
  }

  /** PAID is absorbing: through every run, an order that is paid and still
      there keeps its payment, its time, its amount, its currency and its
      method, and its receipt unless the receipt itself is erased. */
  lemma {:induction false} PaidOnce(s: World, run: seq<Timed>, id: OrderId)
    requires Sound(s) && Legal(s, run) && id in s.orders
    requires forall k :: 0 <= k < |run| ==> run[k].0 != Delete(id)
    ensures id in End(s, run).orders && Settled(s.orders[id], End(s, run).orders[id])
    ensures var receipt := s.orders[id].receipt;
            (s.orders[id].payment == PAID && receipt.Some?
             && forall k :: 0 <= k < |run| ==> run[k].0 != Erase(receipt.value))
            ==> End(s, run).orders[id].receipt == receipt
    decreases run
  {
    if run != [] {
      StepSound(s, run[0]);
      assert forall k :: 0 <= k < |run[1..]| ==> run[1..][k] == run[k + 1];
      StillThere(s, run[0], id);
      if s.orders[id].payment == PAID && s.orders[id].receipt.Some? {
        LinkKept(s, run[0], id);
      }
      PaidOnce(After(s, run[0]), run[1..], id);
    }
  }

  /** The receipt is gone, or its order still stands paid by it. */
  ghost predicate Used(s: World, id: OrderId, receipt: ReceiptId)
  {
    receipt in s.erased || (id in s.orders && s.orders[id].payment == PAID && s.orders[id].receipt == Some(receipt))
  }

  lemma StepKeepsUsed(s: World, e: Timed, id: OrderId, receipt: ReceiptId)
    requires Sound(s) && Enabled(s, e) && e.0 != Delete(id) && Used(s, id, receipt)
    ensures Used(After(s, e), id, receipt)
    ensures !(e.0.Confirm? && e.0.receipt == receipt)
  {
    if receipt !in s.erased {
      StepSound(s, e);
      StillThere(s, e, id);
      LinkKept(s, e, id);
    }
  }

  lemma {:induction false} NotConfirmedAgain(s: World, run: seq<Timed>, id: OrderId, receipt: ReceiptId)
    requires Sound(s) && Legal(s, run) && Used(s, id, receipt)
    requires forall k :: 0 <= k < |run| ==> run[k].0 != Delete(id)
    ensures forall k :: 0 <= k < |run| ==> !(run[k].0.Confirm? && run[k].0.receipt == receipt)
    decreases run
  {
    if run != [] {
      StepKeepsUsed(s, run[0], id, receipt);
      StepSound(s, run[0]);
      assert forall k :: 0 <= k < |run[1..]| ==> run[1..][k] == run[k + 1];
      NotConfirmedAgain(After(s, run[0]), run[1..], id, receipt);
      assert forall k :: 0 < k < |run| ==> run[k] == run[1..][k - 1];
    }
  }

  /** A receipt pays once: after it has been confirmed for an order it is never
      confirmed again, for that order or another, even when it is erased in
      between, as long as the order is not deleted. */
  lemma ReceiptPaysOnce(s: World, id: OrderId, receipt: ReceiptId, reading: Reading, now: int, run: seq<Timed>)
    requires Sound(s) && Enabled(s, (Confirm(id, receipt, reading), now))
    requires Legal(After(s, (Confirm(id, receipt, reading), now)), run)
    requires forall k :: 0 <= k < |run| ==> run[k].0 != Delete(id)
    ensures forall k :: 0 <= k < |run| ==> !(run[k].0.Confirm? && run[k].0.receipt == receipt)
  {
    StepSound(s, (Confirm(id, receipt, reading), now));
    NotConfirmedAgain(After(s, (Confirm(id, receipt, reading), now)), run, id, receipt);
  }

  /** In dollars and riel: what a card or a KHQR payment recorded differs from
      the order's total by no more than one quantum. */
  lemma PaidIsTheTotal(run: seq<Timed>, id: OrderId)
    requires Legal(EMPTY, run) && id in End(EMPTY, run).orders
    requires var how := End(EMPTY, run).orders[id].how; how == Some(STRIPE) || how == Some(KHQR)
    ensures var o := End(EMPTY, run).orders[id];
            && o.paidCurrency == Some(o.currency) && o.paidAmount.Some?
            && var off := o.paidAmount.value - o.total;
               if o.how == Some(STRIPE) then off == 0.0
               else if o.currency == Currency.KHR then -1.0 <= off <= 1.0
               else -0.01 <= off <= 0.01
  {
    RunsSound(EMPTY, run);
    assert OrderOk(End(EMPTY, run).orders[id]);
  }

  // ---- Reservation expiry and payments --------------------------------------

  /** No step makes an order unpaid again. */
  lemma NeverUnpaid(s: World, e: Timed, id: OrderId)
    requires Enabled(s, e) && id in s.orders && id in After(s, e).orders && s.orders[id].payment != UNPAID
    ensures After(s, e).orders[id].payment != UNPAID
  {
    OneOrder(s, e, id);
  }

  /** Once an order has an open card payment or a completed payment of any kind,
      no run expires it. */
  lemma {:induction false} ExpirySparesPayments(s: World, run: seq<Timed>, id: OrderId)
    requires Legal(s, run) && id in s.orders && s.orders[id].payment != UNPAID
    requires forall k :: 0 <= k < |run| ==> run[k].0 != Delete(id)
    ensures forall k :: 0 <= k < |run| ==> run[k].0 != Expire(id)
    decreases run
  {
    if run != [] {
      assert forall k :: 0 <= k < |run[1..]| ==> run[1..][k] == run[k + 1];
      StillThere(s, run[0], id);
      NeverUnpaid(s, run[0], id);
      ExpirySparesPayments(After(s, run[0]), run[1..], id);
      assert forall k :: 0 < k < |run| ==> run[k] == run[1..][k - 1];
    }
  }

  /** So opening a card payment page holds the reservation for good. */
  lemma CardPageHolds(s: World, id: OrderId, now: int, run: seq<Timed>)
    requires Enabled(s, (Checkout(id), now)) && Legal(After(s, (Checkout(id), now)), run)
    requires forall k :: 0 <= k < |run| ==> run[k].0 != Delete(id)
    ensures forall k :: 0 <= k < |run| ==> run[k].0 != Expire(id)
  {
    ExpirySparesPayments(After(s, (Checkout(id), now)), run, id);
  }

  /** The reservation can end while the code, good until `expiry`, is payable. */
  predicate Exposed(o: Order, expiry: int) {
    o.status == PENDING && o.payment == UNPAID && o.deadline.Some? && o.deadline.value < expiry
  }

  /** The run's event `k` expires the order, not deleted before, in time. */
  ghost predicate ExpiresBefore(s: World, run: seq<Timed>, k: nat, id: OrderId, expiry: int)
  {
    && Legal(s, run) && k < |run| && run[k].0 == Expire(id) && run[k].1 < expiry
    && forall j :: 0 <= j < k ==> run[j].0 != Delete(id)
  }

  ghost predicate CanExpireBefore(s: World, id: OrderId, expiry: int)
  {
    exists run, k :: ExpiresBefore(s, run, k, id, expiry)
  }

  /** Nothing exposes an order within a day of its code's expiry: whatever sets
      a deadline sets it a day ahead. */
  lemma StaysCovered(s: World, e: Timed, id: OrderId, expiry: int)
    requires Enabled(s, e) && id in s.orders && id in After(s, e).orders
    requires !Exposed(s.orders[id], expiry) && expiry <= s.now + RESERVATION_LIFETIME
    ensures !Exposed(After(s, e).orders[id], expiry)
  {
    OneOrder(s, e, id);
  }

  lemma {:induction false} CoveredRuns(s: World, run: seq<Timed>, id: OrderId, expiry: int, k: nat)
    requires Legal(s, run) && id in s.orders && k < |run|
    requires !Exposed(s.orders[id], expiry) && expiry <= s.now + RESERVATION_LIFETIME
    requires forall j :: 0 <= j < k ==> run[j].0 != Delete(id)
    ensures !(run[k].0 == Expire(id) && run[k].1 < expiry)
    decreases run
  {
    if k > 0 {
      StillThere(s, run[0], id);
      StaysCovered(s, run[0], id, expiry);
      assert run[1..][k - 1] == run[k] && forall j :: 0 <= j < k - 1 ==> run[1..][j] == run[j + 1];
      CoveredRuns(After(s, run[0]), run[1..], id, expiry, k - 1);
    }
  }

  /** Codes last no longer than an hour from now. */
  ghost predicate ShortLived(s: World)
  {
    forall id <- s.orders :: s.orders[id].expiresAt.Some? ==> s.orders[id].expiresAt.value <= s.now + EXPIRE
  }

  lemma StepShortLived(s: World, e: Timed)
    requires ShortLived(s) && Enabled(s, e)
    ensures ShortLived(After(s, e))
  {
    forall id | id in After(s, e).orders && After(s, e).orders[id].expiresAt.Some?
      ensures After(s, e).orders[id].expiresAt.value <= e.1 + EXPIRE
    {
      OneOrder(s, e, id);
    }
  }

  lemma {:induction false} RunsShortLived(s: World, run: seq<Timed>)
    requires ShortLived(s) && Legal(s, run)
    ensures ShortLived(End(s, run))
    decreases run
  {
    if run != [] {
      StepShortLived(s, run[0]);
      RunsShortLived(After(s, run[0]), run[1..]);
    }
  }

  lemma ExposedExpires(s: World, id: OrderId, expiry: int)
    requires id in s.orders && Exposed(s.orders[id], expiry) && s.now < expiry
    ensures CanExpireBefore(s, id, expiry)
  {
    var deadline := s.orders[id].deadline.value;
    var e: Timed := (Expire(id), if deadline < s.now then s.now else deadline);
    assert Enabled(s, e);
    assert [e][1..] == [] && Legal(After(s, e), []);
    assert ExpiresBefore(s, [e], 0, id, expiry);
  }

  /** A KHQR is not an open payment to expiry. In every reachable state, an order
      with a payable code can still be expired before the code is, in some
      continuation, exactly when it is pending and unpaid and its deadline comes
      before the code's expiry. */
  lemma CodeMayOutliveReservation(history: seq<Timed>, id: OrderId)
    requires Legal(EMPTY, history) && id in End(EMPTY, history).orders
    requires Current(End(EMPTY, history).orders[id], End(EMPTY, history).now)
    ensures var s := End(EMPTY, history);
            var expiry := s.orders[id].expiresAt.value;
            CanExpireBefore(s, id, expiry) <==> Exposed(s.orders[id], expiry)
  {
    var s := End(EMPTY, history);
    var expiry := s.orders[id].expiresAt.value;
    RunsShortLived(EMPTY, history);
    if Exposed(s.orders[id], expiry) {
      ExposedExpires(s, id, expiry);
    } else if CanExpireBefore(s, id, expiry) {
      var run, k :| ExpiresBefore(s, run, k, id, expiry);
      CoveredRuns(s, run, id, expiry, k);
    }
  }

  const PLACED: Timed := (Create(0, 1.0, USD), 0)
  const CODED: Timed := (Issue(0, 7), RESERVATION_LIFETIME - POLL)
  const EXPIRED: Timed := (Expire(0), RESERVATION_LIFETIME)
  const FOUND_PAID: Timed := (RunCheck(0, FOUND(Some(1.0), Some(USD)), true), RESERVATION_LIFETIME)

  lemma PlacedAndCoded() returns (s1: World, s2: World)
    ensures Enabled(EMPTY, PLACED) && After(EMPTY, PLACED) == s1
    ensures Enabled(s1, CODED) && After(s1, CODED) == s2
    ensures s2.now == RESERVATION_LIFETIME - POLL && s2.jobs == map[0 := Job(0, 7, RESERVATION_LIFETIME)]
    ensures s2.orders == map[0 := WithCode(NewOrder(1.0, USD, 0), 7, RESERVATION_LIFETIME - POLL)]
  {
    s1 := After(EMPTY, PLACED);
    s2 := After(s1, CODED);
  }

  lemma ExpiredAndPaid(s2: World) returns (s3: World, s4: World)
    requires s2.now == RESERVATION_LIFETIME - POLL && s2.jobs == map[0 := Job(0, 7, RESERVATION_LIFETIME)]
    requires s2.orders == map[0 := WithCode(NewOrder(1.0, USD, 0), 7, RESERVATION_LIFETIME - POLL)]
    ensures Enabled(s2, EXPIRED) && After(s2, EXPIRED) == s3
    ensures Enabled(s3, FOUND_PAID) && After(s3, FOUND_PAID) == s4
    ensures 0 in s4.orders && s4.orders[0].status == CANCELLED && s4.orders[0].payment == PAID
  {
    s3 := After(s2, EXPIRED);
    s4 := After(s3, FOUND_PAID);
  }

  /** And it happens: an order is cancelled by expiry and then marked paid. */
  lemma CancelledThenPaid()
    ensures exists run :: Legal(EMPTY, run) && 0 in End(EMPTY, run).orders
              && End(EMPTY, run).orders[0].status == CANCELLED && End(EMPTY, run).orders[0].payment == PAID
  {
    var s1, s2 := PlacedAndCoded();
    var s3, s4 := ExpiredAndPaid(s2);
    FourSteps(EMPTY, PLACED, CODED, EXPIRED, FOUND_PAID);
  }

  lemma FourSteps(s: World, e1: Timed, e2: Timed, e3: Timed, e4: Timed)
    requires Enabled(s, e1) && Enabled(After(s, e1), e2) && Enabled(After(After(s, e1), e2), e3)
    requires Enabled(After(After(After(s, e1), e2), e3), e4)
    ensures Legal(s, [e1, e2, e3, e4])
    ensures End(s, [e1, e2, e3, e4]) == After(After(After(After(s, e1), e2), e3), e4)
  {
    var s1 := After(s, e1);
    var s2 := After(s1, e2);
    var s3 := After(s2, e3);
    assert [e4][1..] == [] && [e3, e4][1..] == [e4] && [e2, e3, e4][1..] == [e3, e4]
           && [e1, e2, e3, e4][1..] == [e2, e3, e4];
    assert Legal(After(s3, e4), []) && End(After(s3, e4), []) == After(s3, e4);
    assert Legal(s3, [e4]) && End(s3, [e4]) == After(s3, e4);
    assert Legal(s2, [e3, e4]) && End(s2, [e3, e4]) == After(s3, e4);
    assert Legal(s1, [e2, e3, e4]) && End(s1, [e2, e3, e4]) == After(s3, e4);
  }

  // ---- The watch ------------------------------------------------------------

  /** The order's code can still be paid as far as the order knows. */
  ghost predicate Watched(o: Order)
  {
    o.khqr == Some(ISSUED) && o.payment != PAID
  }

  ghost predicate Watches(s: World, j: JobId, id: OrderId)
  {
    j in s.jobs && id in s.orders && s.jobs[j].order == id && s.orders[id].code == Some(s.jobs[j].code)
  }

  /** A check is for an issued code, and is due no earlier than one interval per
      look after the code was issued. */
  ghost predicate JobOk(s: World, j: JobId)
    requires j in s.jobs
  {
    var job := s.jobs[j];
    && j < s.nextJob
    && job.code in s.issuedAt
    && s.issuedAt[job.code] + Intervals(Polls(s, job.code) + 1) <= job.runAfter
  }

  ghost predicate CodeOk(s: World, id: OrderId)
    requires id in s.orders
  {
    var o := s.orders[id];
    && (o.code.Some? ==> o.code.value in s.issuedAt && o.expiresAt == Some(s.issuedAt[o.code.value] + EXPIRE))
    && (o.khqr.Some? <==> o.code.Some?)
  }

  ghost predicate Attended(s: World, id: OrderId)
    requires id in s.orders
  {
    Watched(s.orders[id]) ==> exists j <- s.jobs :: Watches(s, j, id)
  }

  ghost predicate JobsApart(s: World, i: JobId, j: JobId)
    requires i in s.jobs && j in s.jobs
  {
    i != j ==> s.jobs[i].code != s.jobs[j].code
  }

  ghost predicate OrdersApart(s: World, a: OrderId, b: OrderId)
    requires a in s.orders && b in s.orders
  {
    a != b && s.orders[a].code.Some? ==> s.orders[a].code != s.orders[b].code
  }

  ghost predicate RightOrder(s: World, j: JobId, id: OrderId)
    requires j in s.jobs && id in s.orders
  {
    s.orders[id].code == Some(s.jobs[j].code) ==> s.jobs[j].order == id
  }

  /** Distinct checks are for distinct codes, and distinct orders hold distinct
      codes. */
  ghost predicate Apart(s: World)
  {
    && (forall i <- s.jobs, j <- s.jobs {:trigger JobsApart(s, i, j)} :: JobsApart(s, i, j))
    && (forall a <- s.orders, b <- s.orders {:trigger OrdersApart(s, a, b)} :: OrdersApart(s, a, b))
    && (forall j <- s.jobs, id <- s.orders {:trigger RightOrder(s, j, id)} :: RightOrder(s, j, id))
  }

  ghost predicate Tidy(s: World)
  {
    && (forall j <- s.jobs {:trigger JobOk(s, j)} :: JobOk(s, j))
    && (forall id <- s.orders {:trigger CodeOk(s, id)} :: CodeOk(s, id))
    && Apart(s)
    && (forall c <- s.polls :: Intervals(s.polls[c]) < EXPIRE)
  }

  /** Tidy, and every watched order but `x` has its check. */
  ghost predicate WatchingBut(s: World, x: Option<OrderId>)
  {
    Tidy(s) && forall id <- s.orders {:trigger Attended(s, id)} :: x != Some(id) ==> Attended(s, id)
  }

  ghost predicate Watching(s: World)
  {
    WatchingBut(s, None)
  }

  /** A check that is still queued still attends its order. */
  lemma StillAttended(s: World, t: World, k: OrderId)
    requires k in s.orders && k in t.orders && Attended(s, k)
    requires t.orders[k].code == s.orders[k].code && (Watched(t.orders[k]) ==> Watched(s.orders[k]))
    requires forall j <- s.jobs :: Watches(s, j, k) ==> j in t.jobs && t.jobs[j] == s.jobs[j]
    ensures Attended(t, k)
  {
    if Watched(t.orders[k]) {
      var j :| j in s.jobs && Watches(s, j, k);
      assert Watches(t, j, k);
    }
  }

  /** Fewer checks, and orders with the code they had or none. */
  lemma FewerApart(s: World, t: World)
    requires Apart(s)
    requires forall j <- t.jobs :: j in s.jobs && t.jobs[j] == s.jobs[j]
    requires forall k <- t.orders :: t.orders[k].code.None? || (k in s.orders && t.orders[k].code == s.orders[k].code)
    ensures Apart(t)
  {
    forall i, j | i in t.jobs && j in t.jobs
      ensures JobsApart(t, i, j)
    {
      assert JobsApart(s, i, j);
    }
    forall a, b | a in t.orders && b in t.orders
      ensures OrdersApart(t, a, b)
    {
      assert a in s.orders && b in s.orders ==> OrdersApart(s, a, b);
    }
    forall j, k | j in t.jobs && k in t.orders
      ensures RightOrder(t, j, k)
    {
      assert k in s.orders ==> RightOrder(s, j, k);
    }
  }

  /** Replacing an order by one with the same code, that asks for no new check,
      or by one without a code. */
  lemma PutWatching(s: World, id: OrderId, o: Order, now: int)
    requires id in s.orders && WatchingBut(s, if Watched(o) then None else Some(id))
    requires o.code == s.orders[id].code && o.expiresAt == s.orders[id].expiresAt
    requires o.khqr.Some? <==> s.orders[id].khqr.Some?
    requires Watched(o) ==> Watched(s.orders[id])
    ensures Watching(Put(s.(now := now), id, o))
  {
    var t := Put(s.(now := now), id, o);
    FewerApart(s, t);
    forall k | k in t.orders
      ensures Attended(t, k) && CodeOk(t, k)
    {
      assert CodeOk(s, k);
      if Watched(t.orders[k]) {
        StillAttended(s, t, k);
      }
    }
    forall j | j in t.jobs
      ensures JobOk(t, j)
    {
      assert JobOk(s, j);
    }
  }

  lemma CreateWatching(s: World, id: OrderId, total: real, currency: Currency, now: int)
    requires Watching(s) && id !in s.orders
    ensures Watching(Put(s.(now := now), id, NewOrder(total, currency, now)))
  {
    var t := Put(s.(now := now), id, NewOrder(total, currency, now));
    FewerApart(s, t);
    forall k | k in t.orders
      ensures Attended(t, k) && CodeOk(t, k)
    {
      if k != id {
        assert CodeOk(s, k);
        StillAttended(s, t, k);
      }
    }
    forall j | j in t.jobs
      ensures JobOk(t, j)
    {
      assert JobOk(s, j);
    }
  }

  lemma DeleteWatching(s: World, id: OrderId, now: int)
    requires Watching(s)
    ensures Watching(s.(now := now, orders := s.orders - {id}))
  {
    var t := s.(now := now, orders := s.orders - {id});
    FewerApart(s, t);
    forall k | k in t.orders
      ensures Attended(t, k) && CodeOk(t, k)
    {
      assert CodeOk(s, k);
      StillAttended(s, t, k);
    }
    forall j | j in t.jobs
      ensures JobOk(t, j)
    {
      assert JobOk(s, j);
    }
  }

  lemma EraseWatching(s: World, receipt: ReceiptId, now: int)
    requires Watching(s)
    ensures Watching(Erased(s.(now := now), receipt))
  {
    var t := Erased(s.(now := now), receipt);
    FewerApart(s, t);
    forall k | k in t.orders
      ensures Attended(t, k) && CodeOk(t, k)
    {
      assert CodeOk(s, k);
      StillAttended(s, t, k);
    }
    forall j | j in t.jobs
      ensures JobOk(t, j)
    {
      assert JobOk(s, j);
    }
  }

  /** A job taken off the queue leaves at most its own order unattended, and
      that one only if the job is not idle. */
  lemma TakeWatching(s: World, j: JobId, now: int)
    requires Watching(s) && j in s.jobs
    ensures var t := s.(now := now, jobs := s.jobs - {j});
            var job := s.jobs[j];
            && WatchingBut(t, if job.order in s.orders && !Idle(s.orders[job.order], job.code)
                              then Some(job.order) else None)
            && forall i <- t.jobs :: t.jobs[i].code != job.code
  {
    var t := s.(now := now, jobs := s.jobs - {j});
    var job := s.jobs[j];
    FewerApart(s, t);
    forall k | k in t.orders
      ensures CodeOk(t, k)
      ensures (job.order in s.orders && !Idle(s.orders[job.order], job.code) && k == job.order) || Attended(t, k)
    {
      assert CodeOk(s, k) && Attended(s, k);
      if Watched(t.orders[k]) {
        var i :| i in s.jobs && Watches(s, i, k);
        if i != j {
          assert Watches(t, i, k);
        }
      }
    }
    forall i | i in t.jobs
      ensures JobOk(t, i) && t.jobs[i].code != job.code
    {
      assert JobOk(s, i) && JobsApart(s, i, j);
    }
  }

  lemma ScheduleApart(s: World, id: OrderId, code: Code)
    requires Apart(s) && id in s.orders && s.orders[id].code == Some(code) && s.nextJob !in s.jobs
    requires forall i <- s.jobs :: s.jobs[i].code != code
    ensures Apart(Scheduled(s, id, code))
  {
    var t := Scheduled(s, id, code);
    forall i, j | i in t.jobs && j in t.jobs
      ensures JobsApart(t, i, j)
    {
      if i != s.nextJob && j != s.nextJob {
        assert JobsApart(s, i, j);
      }
    }
    forall a, b | a in t.orders && b in t.orders
      ensures OrdersApart(t, a, b)
    {
      assert OrdersApart(s, a, b);
    }
    forall j, k | j in t.jobs && k in t.orders
      ensures RightOrder(t, j, k)
    {
      if j != s.nextJob {
        assert RightOrder(s, j, k);
      } else {
        assert OrdersApart(s, id, k);
      }
    }
  }

  lemma ScheduleJobOk(s: World, id: OrderId, code: Code, j: JobId)
    requires Tidy(s) && j in Scheduled(s, id, code).jobs
    requires code in s.issuedAt && s.issuedAt[code] + Intervals(Polls(s, code)) <= s.now
    ensures JobOk(Scheduled(s, id, code), j)
  {
    if j != s.nextJob {
      assert JobOk(s, j);
    }
  }

  lemma ScheduleAttended(s: World, id: OrderId, code: Code, k: OrderId)
    requires WatchingBut(s, Some(id)) && id in s.orders && s.orders[id].code == Some(code)
    requires k in s.orders && s.nextJob !in s.jobs
    ensures Attended(Scheduled(s, id, code), k)
  {
    if k == id {
      assert Watches(Scheduled(s, id, code), s.nextJob, id);
    } else {
      StillAttended(s, Scheduled(s, id, code), k);
    }
  }

  /** Scheduling a check for the one unattended order completes the watch. */
  lemma ScheduleWatching(s: World, id: OrderId, code: Code)
    requires WatchingBut(s, Some(id)) && id in s.orders && s.orders[id].code == Some(code)
    requires forall i <- s.jobs :: s.jobs[i].code != code
    requires code in s.issuedAt && s.issuedAt[code] + Intervals(Polls(s, code)) <= s.now
    ensures Watching(Scheduled(s, id, code))
  {
    var t := Scheduled(s, id, code);
    forall j | j in s.jobs
      ensures j != s.nextJob
    {
      assert JobOk(s, j);
    }
    ScheduleApart(s, id, code);
    forall k | k in t.orders
      ensures Attended(t, k) && CodeOk(t, k)
    {
      assert CodeOk(s, k);
      ScheduleAttended(s, id, code, k);
    }
    forall j | j in t.jobs
      ensures JobOk(t, j)
    {
      ScheduleJobOk(s, id, code, j);
    }
  }

  lemma AskJobOk(s: World, id: OrderId, o: Order, code: Code, j: JobId)
    requires j in s.jobs && JobOk(s, j) && s.jobs[j].code != code
    ensures JobOk(Asked(s, id, o, code), j)
  {
    assert Polls(Asked(s, id, o, code), s.jobs[j].code) == Polls(s, s.jobs[j].code);
  }

  lemma AskCodeOk(s: World, id: OrderId, o: Order, code: Code, k: OrderId)
    requires id in s.orders && k in s.orders && WatchingBut(s, Some(id))
    requires o.code == s.orders[id].code && o.expiresAt == s.orders[id].expiresAt
    requires o.khqr.Some? <==> s.orders[id].khqr.Some?
    ensures CodeOk(Asked(s, id, o, code), k)
    ensures k != id ==> Attended(Asked(s, id, o, code), k)
  {
    assert CodeOk(s, k);
    if k != id {
      StillAttended(s, Asked(s, id, o, code), k);
    }
  }

  lemma AskPolls(s: World, id: OrderId, o: Order, code: Code)
    requires forall c <- s.polls :: Intervals(s.polls[c]) < EXPIRE
    requires Intervals(Polls(s, code) + 1) < EXPIRE
    ensures var t := Asked(s, id, o, code);
            Polls(t, code) == Polls(s, code) + 1 && forall c <- t.polls :: Intervals(t.polls[c]) < EXPIRE
  {
  }

  /** One more look at the unattended order's code, which no job is for. */
  lemma AskWatching(s: World, id: OrderId, o: Order, code: Code)
    requires id in s.orders && WatchingBut(s, Some(id)) && s.orders[id].code == Some(code)
    requires o.code == s.orders[id].code && o.expiresAt == s.orders[id].expiresAt
    requires o.khqr.Some? <==> s.orders[id].khqr.Some?
    requires forall i <- s.jobs :: s.jobs[i].code != code
    requires Intervals(Polls(s, code) + 1) < EXPIRE
    ensures WatchingBut(Asked(s, id, o, code), Some(id))
  {
    var t := Asked(s, id, o, code);
    FewerApart(s, t);
    AskPolls(s, id, o, code);
    forall k | k in t.orders
      ensures CodeOk(t, k) && (k != id ==> Attended(t, k))
    {
      AskCodeOk(s, id, o, code, k);
    }
    forall j | j in t.jobs
      ensures JobOk(t, j)
    {
      AskJobOk(s, id, o, code, j);
    }
  }

  lemma CodeApart(s: World, id: OrderId, code: Code, t: World)
    requires Apart(s) && id in s.orders && t.jobs == s.jobs && t.orders.Keys == s.orders.Keys
    requires forall i <- s.jobs :: s.jobs[i].code != code
    requires forall k <- s.orders :: s.orders[k].code != Some(code)
    requires forall k <- s.orders :: t.orders[k].code == if k == id then Some(code) else s.orders[k].code
    ensures Apart(t)
  {
    forall i, j | i in t.jobs && j in t.jobs
      ensures JobsApart(t, i, j)
    {
      assert JobsApart(s, i, j);
    }
    forall a, b | a in t.orders && b in t.orders
      ensures OrdersApart(t, a, b)
    {
      assert OrdersApart(s, a, b);
    }
    forall j, k | j in t.jobs && k in t.orders
      ensures RightOrder(t, j, k)
    {
      assert RightOrder(s, j, k);
    }
  }

  /** A fresh code, before its first check is scheduled. */
  lemma CodeWatching(s: World, id: OrderId, code: Code)
    requires Watching(s) && id in s.orders && code !in s.issuedAt
    ensures var t := Put(s, id, WithCode(s.orders[id], code, s.now)).(
                       issuedAt := s.issuedAt[code := s.now], polls := s.polls[code := 0]);
            WatchingBut(t, Some(id)) && forall i <- t.jobs :: t.jobs[i].code != code
  {
    var t := Put(s, id, WithCode(s.orders[id], code, s.now)).(
                issuedAt := s.issuedAt[code := s.now], polls := s.polls[code := 0]);
    forall j | j in s.jobs
      ensures JobOk(t, j) && s.jobs[j].code != code
    {
      assert JobOk(s, j);
    }
    forall k | k in t.orders
      ensures CodeOk(t, k) && (k != id ==> Attended(t, k)) && s.orders[k].code != Some(code)
    {
      assert CodeOk(s, k);
      if k != id {
        StillAttended(s, t, k);
      }
    }
    CodeApart(s, id, code, t);
  }

  /** A check that asks Bakong, already off the queue. */
  lemma AskedWatching(s: World, id: OrderId, o: Order, code: Code)
    requires id in s.orders && WatchingBut(s, Some(id)) && s.orders[id].code == Some(code)
    requires o.code == s.orders[id].code && o.expiresAt == s.orders[id].expiresAt
    requires o.khqr.Some? <==> s.orders[id].khqr.Some?
    requires forall i <- s.jobs :: s.jobs[i].code != code
    requires s.orders[id].expiresAt.Some? ==> s.now < s.orders[id].expiresAt.value
    requires code in s.issuedAt && s.issuedAt[code] + Intervals(Polls(s, code) + 1) <= s.now
    ensures Watching(if o.khqr == Some(ISSUED) then Scheduled(Asked(s, id, o, code), id, code)
                     else Asked(s, id, o, code))
  {
    assert CodeOk(s, id);
    AskPolls(s, id, o, code);
    AskWatching(s, id, o, code);
    if o.khqr == Some(ISSUED) {
      ScheduleWatching(Asked(s, id, o, code), id, code);
    } else {
      assert Attended(Asked(s, id, o, code), id);
    }
  }

  lemma LookedKeepsCode(o: Order, code: Code, result: Check, now: int)
    requires o.khqr.Some? <==> o.code.Some?
    ensures var o' := Looked(o, code, result, now);
            && o'.code == o.code && o'.expiresAt == o.expiresAt && (o'.khqr.Some? <==> o.khqr.Some?)
            && (Watched(o') ==> Watched(o))
            && (!Asks(o, code, now) && Watched(o') ==> o' == o && Idle(o, code))
  {
  }

  /** A check that has nothing to ask, already off the queue. */
  lemma UnaskedWatching(s: World, job: Job, result: Check)
    requires job.order in s.orders
    requires WatchingBut(s, if Idle(s.orders[job.order], job.code) then None else Some(job.order))
    requires !Asks(s.orders[job.order], job.code, s.now)
    ensures Watching(Checked(s, job, result))
  {
    var o' := Looked(s.orders[job.order], job.code, result, s.now);
    assert CodeOk(s, job.order);
    LookedKeepsCode(s.orders[job.order], job.code, result, s.now);
    if Watched(o') {
      assert Attended(s, job.order);
    }
    PutWatching(s, job.order, o', s.now);
    assert Put(s.(now := s.now), job.order, o') == Checked(s, job, result);
  }

  lemma RunCheckWatching(s: World, j: JobId, result: Check, now: int)
    requires Watching(s) && j in s.jobs && s.jobs[j].runAfter <= now && s.now <= now
    ensures Watching(Checked(s.(now := now, jobs := s.jobs - {j}), s.jobs[j], result))
  {
    var job := s.jobs[j];
    var t := s.(now := now, jobs := s.jobs - {j});
    TakeWatching(s, j, now);
    if job.order in s.orders {
      var o := s.orders[job.order];
      assert JobOk(s, j) && CodeOk(s, job.order);
      LookedKeepsCode(o, job.code, result, now);
      if Asks(o, job.code, now) {
        AskedWatching(t, job.order, Looked(o, job.code, result, now), job.code);
      } else {
        UnaskedWatching(t, job, result);
      }
    }
  }

  /** Nothing was dropped and nothing left behind. */
  predicate Smooth(e: Event) {
    !e.Drop? && (e.RunCheck? ==> e.finished)
  }

  lemma StepKeepsWatching(s: World, e: Timed)
    requires Watching(s) && Enabled(s, e) && Smooth(e.0)
    ensures Watching(After(s, e))
  {
    match e.0
    case Create(id, total, currency) => CreateWatching(s, id, total, currency, e.1);
    case Delete(id) => DeleteWatching(s, id, e.1);
    case RunCheck(j, result, _) => RunCheckWatching(s, j, result, e.1);
    case Issue(id, code) =>
      PutWatching(s, id, s.orders[id], e.1);
      var t := s.(now := e.1);
      assert Put(t, id, s.orders[id]) == t;
      if !Current(s.orders[id], e.1) {
        CodeWatching(t, id, code);
        ScheduleWatching(Put(t, id, WithCode(s.orders[id], code, e.1)).(
                           issuedAt := s.issuedAt[code := e.1], polls := s.polls[code := 0]), id, code);
      }
    case Drop(_) =>
    case Erase(receipt) => EraseWatching(s, receipt, e.1);
    case _ =>
      assert CodeOk(s, e.0.id);
      PutWatching(s, e.0.id, Acted(s.orders[e.0.id], e.0, e.1), e.1);
  }

  lemma {:induction false} RunsKeepWatching(s: World, run: seq<Timed>)
    requires Watching(s) && Legal(s, run) && forall k :: 0 <= k < |run| ==> Smooth(run[k].0)
    ensures Watching(End(s, run))
    decreases run
  {
    if run != [] {
      StepKeepsWatching(s, run[0]);
      assert forall k :: 0 <= k < |run[1..]| ==> run[1..][k] == run[k + 1];
      RunsKeepWatching(After(s, run[0]), run[1..]);
    }
  }

  /** In every run in which no check is lost, a code is asked about fewer than
      EXPIRE / POLL times. */
  lemma PollsBounded(run: seq<Timed>, code: Code)
    requires Legal(EMPTY, run) && forall k :: 0 <= k < |run| ==> Smooth(run[k].0)
    ensures Polls(End(EMPTY, run), code) < EXPIRE / POLL
  {
    RunsKeepWatching(EMPTY, run);
  }

  /** And an order with an issued code that is not paid has exactly one check
      outstanding for that code. */
  lemma ExactlyOneCheck(run: seq<Timed>, id: OrderId)
    requires Legal(EMPTY, run) && forall k :: 0 <= k < |run| ==> Smooth(run[k].0)
    requires id in End(EMPTY, run).orders && Watched(End(EMPTY, run).orders[id])
    ensures var s := End(EMPTY, run);
            && s.orders[id].code.Some?
            && (exists j <- s.jobs :: s.jobs[j].order == id && Some(s.jobs[j].code) == s.orders[id].code)
            && (forall i <- s.jobs, j <- s.jobs ::
                  Some(s.jobs[i].code) == s.orders[id].code && Some(s.jobs[j].code) == s.orders[id].code ==> i == j)
  {
    RunsKeepWatching(EMPTY, run);
    var s := End(EMPTY, run);
    assert CodeOk(s, id) && Attended(s, id);
    var j :| j in s.jobs && Watches(s, j, id);
    forall i, k | i in s.jobs && k in s.jobs && Some(s.jobs[i].code) == s.orders[id].code == Some(s.jobs[k].code)
      ensures i == k
    {
      assert JobsApart(s, i, k);
    }
  }

  /** Nothing settles the order's code: no payment is found or confirmed, the
      order is not deleted, and the code does not run out. */
  ghost predicate Unsettled(s: World, e: Timed, id: OrderId, expiry: int)
    requires Enabled(s, e)
  {
    && e.1 < expiry && e.0 != Delete(id) && e.0 != Stripe(id)
    && (e.0.Confirm? ==> e.0.id != id)
    && (e.0.CheckNow? && e.0.id == id ==> !e.0.result.FOUND?)
    && (e.0.RunCheck? && s.jobs[e.0.job].order == id ==> !e.0.result.FOUND?)
  }

  ghost predicate AllUnsettled(s: World, run: seq<Timed>, id: OrderId, expiry: int)
    requires Legal(s, run)
    decreases run
  {
    run == [] || (Unsettled(s, run[0], id, expiry) && AllUnsettled(After(s, run[0]), run[1..], id, expiry))
  }

  lemma StepGoesOn(s: World, e: Timed, id: OrderId, expiry: int)
    requires Tidy(s) && Enabled(s, e) && id in s.orders && Unsettled(s, e, id, expiry)
    requires Watched(s.orders[id]) && s.orders[id].expiresAt == Some(expiry)
    ensures id in After(s, e).orders
    ensures var o, o' := s.orders[id], After(s, e).orders[id];
            Watched(o') && o'.code == o.code && o'.expiresAt == o.expiresAt
  {
    assert CodeOk(s, id);
    StillThere(s, e, id);
    OneOrder(s, e, id);
    if e.0.RunCheck? {
      assert JobOk(s, e.0.job) && RightOrder(s, e.0.job, id);
    }
  }

  /** The watch goes on: in every run in which no check is lost and nothing
      settles its code, the order is still waiting for the same code at the end,
      with exactly one check outstanding for it. */
  lemma {:induction false} WatchGoesOn(s: World, run: seq<Timed>, id: OrderId, expiry: int)
    requires Watching(s) && Legal(s, run) && (forall k :: 0 <= k < |run| ==> Smooth(run[k].0))
    requires id in s.orders && Watched(s.orders[id]) && s.orders[id].expiresAt == Some(expiry)
    requires AllUnsettled(s, run, id, expiry)
    ensures var t := End(s, run);
            && id in t.orders && Watched(t.orders[id]) && t.orders[id].code == s.orders[id].code
            && Attended(t, id) && Apart(t)
    decreases run
  {
    if run != [] {
      StepKeepsWatching(s, run[0]);
      StepGoesOn(s, run[0], id, expiry);
      assert forall k :: 0 <= k < |run[1..]| ==> run[1..][k] == run[k + 1];
      WatchGoesOn(After(s, run[0]), run[1..], id, expiry);
    }
  }

  /** Each look that is followed by another brings the next one at least an
      interval closer to the code's expiry, after which there is none. */
  lemma NextCheckIsCloser(s: World, j: JobId, result: Check, now: int)
    requires j in s.jobs && s.jobs[j].runAfter <= now
    ensures var job := s.jobs[j];
            var t := s.(now := now, jobs := s.jobs - {j});
            forall n <- Checked(t, job, result).jobs :: n == s.nextJob && n !in s.jobs ==>
              var next := Checked(t, job, result).jobs[n];
              && next.order == job.order && next.code == job.code && job.order in s.orders
              && var o := s.orders[job.order];
                 o.expiresAt.Some? ==>
                   && Checked(t, job, result).orders[job.order].expiresAt == o.expiresAt
                   && 0 < o.expiresAt.value - job.runAfter
                   && o.expiresAt.value - next.runAfter <= o.expiresAt.value - job.runAfter - POLL
  {
  }
}
