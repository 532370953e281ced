# Apsara's bookkeeping engine and its protocols, modelled and proved in Dafny

The project models the parts of the shop back end where a mistake costs money or
goods, and proves what they keep over every input and every run.

* **Stock, orders, purchases and returns** (`Sums`, `Inventory`, `Invariants`,
  `Orders`, `Products`, `Operations`, `OrderEffects`, `ProductEffects`,
  `OperationEffects`, `Database`, `OrderRequests`, `ProductRequests`,
  `OperationRequests`, `ShopRuns`). Each request is a function from one state of the
  tables to the next, or to a refusal that changes nothing; the three `Effects`
  modules say, row by row and without those functions, what it leaves behind.
  The class `Tables` holds the tables as fields; its methods, and the endpoints
  written against it, run the loops and are proved equal to those functions.
  `ShopRuns` lets requests arrive in any order and proves that reserve, stock,
  ledger, product totals, purchases and returns always agree.
* **The job queue** (`Queue`): claims, leases, retries, pruning, with workers that
  crash or outlive their lease.
* **Inbound messages** (`Inbound`): check, store under the unique index, charge,
  send, record, interleaved over any number of workers.
* **KHQR** (`Crc`, `CrcCheck`, `Khqr`): CRC-16/CCITT-FALSE, printing and parsing
  the tag-length-value text, building a merchant code (section 4.7 of EMVCo's "QR
  Code Specification for Payment Systems: Merchant-Presented Mode").
* **Payments** (`Payments`): three ways to be paid, and the check that reschedules
  itself until a code is paid or expires.
* **Money** (`Currency`, `Receipts`): conversion with half-up rounding and the
  receipt tolerance.
* **Smaller cores**: the sign-in throttle (`Throttle`), the event hub
  (`Realtime`), media storage and its migration (`Storage`), low-stock episodes
  (`Alerts`).
* **Shared** (`Wrappers`, `Listings`, `Powers`, `Lifecycle`): optional values, rows
  listed one by one, powers of two, and the life of an order.

`dafny verify dfyconfig.toml` checks everything.

## What the proofs found

* A KHQR does not hold an order's reservation: issuing one leaves the order unpaid
  and its deadline where it was. In every reachable state an order with a payable
  code can still be expired before the code is, in some continuation, exactly when
  it is pending and unpaid and its deadline comes before the code's expiry
  (`Payments.CodeMayOutliveReservation`); the payment then marks a cancelled order
  paid (`Payments.CancelledThenPaid`). A card payment page does hold it: no run
  after a checkout expires the order (`Payments.CardPageHolds`).
* SUCCEEDED and FAILED last exactly as long as no worker still holding the finished
  job reports a failure while attempts are left (`Queue.TerminalUntilRevived`,
  `Queue.StepRevives`), because the failure path writes the row without looking at
  its status. It happens to a worker that outlives its lease
  (`Queue.StaleFailureRevives`); in runs where none does, they are absorbing
  (`Queue.TerminalAbsorbing`).
* Claims are bounded by max(1, max_attempts) plus the lease releases
  (`Queue.RetryBound`). The bound without the 1 fails exactly for a job that is
  allowed no attempts, which is still attempted once (`Queue.NoAttemptsIsOne`).
* A stored message can be lost: it leaves no trace for the seller or the customer
  exactly when no step of the worker that stored it reached anyone
  (`Inbound.SilentRuns`), and it stays so for good exactly when that worker is gone
  (`Inbound.LostForGood`), since every later delivery is taken for handled. The
  worker may have died right after the commit (`Inbound.DiesSilently`), raised, or
  come to the end of the handler, which does it in exactly two ways
  (`Inbound.LeftSilent`).
* Quote and pay agree for riel orders from a sixth of the rate plus 16 2/3 riel
  upwards (`Receipts.QuotedPaymentMatches`); just below, at 676.50 riel, a quote
  misses (`Receipts.SmallQuoteMisses`). `Receipts.RielWindow` and
  `Receipts.DollarWindow` give the exact intervals that match.
* A code is polled strictly fewer times than its lifetime holds intervals
  (`Payments.PollsBounded`): 179 times at the default settings, not 180.

## Where the code and its words differ

* `app/api/v1/endpoints/webhooks.py:150` says the Stripe webhook is the only thing
  that may mark an order paid. Receipt confirmation and the KHQR check do too; the
  model has all three.
* `app/api/v1/endpoints/orders.py:609` speaks of not restocking twice. Deleting a
  shipped or delivered order puts its goods back on the shelf, which the model
  follows: conservation is of what the books say, not of what was shipped.

## Model

| member | source | states |
|---|---|---|
| ShopRuns.StockAddsUp | app/services/inventory.py:40-80 | After any run of requests, a variant's reserved stock is the sum of what pending, confirmed and processing orders hold of it; its stock plus what all orders not cancelled hold equals the opening, adjustment, delivery and return entries of the ledger; neither is negative |
| ShopRuns.LedgerReplays | app/models/inventory_movement.py:12-48 | After any run, folding a variant's ledger entries in order gives every balance and reserved balance they show, each by a change its kind allows, ends in the variant's own balances, and adds up to its stock |
| ShopRuns.TotalsAgree | app/services/variants.py:37-49 | After any run, a product's stock and threshold are the sums over active variants, its reserve the sum over all, its price the least among the active (else among all), and it has a variant |
| ShopRuns.ReturnsStayWithin | app/api/v1/endpoints/operations.py:203-213 | After any run, no order line has more returned than sold, no return restocks more than it returned, an order's total is the sum of its items' prices times quantities, and the refunds recorded on it never exceed that total |
| ShopRuns.DeliveriesAddUp | app/api/v1/endpoints/operations.py:153-164 | After any run, the ledger's purchase entries for a variant sum to what purchases received of it, and its return entries to what received returns put back |
| ShopRuns.PurchasesInOrder | app/api/v1/endpoints/operations.py:165-166 | After any run, a purchase line has received at most what was ordered, the status is `received` exactly when every line is complete, an `ordered` purchase has received nothing, and a partial one something but not all |
| ShopRuns.StepSound | app/services/inventory.py:50-54 | Every request keeps all of the above, and no request is ever refused because a reservation is inconsistent or a variant under an order, purchase or return is missing |
| ShopRuns.RunsSound | app/api/v1/endpoints/orders.py:145-616 | The same over every run from any sound state: it ends sound, and every request on the way was answered safely |
| ShopRuns.ThereAndBack | app/api/v1/endpoints/orders.py:318-347 | Any change of status that goes through can be undone at once, and undoing it restores every variant and every product cache exactly |
| ShopRuns.PlaceSound | app/api/v1/endpoints/orders.py:153-285 | Creating an order, expiry of abandoned reservations included, keeps the shop sound and fails only for a bad request, a missing row or insufficient stock |
| Orders.CancelSound | app/services/inventory.py:96-123 | Cancelling or expiring an order always succeeds and keeps the shop sound |
| Orders.ChangeSound | app/api/v1/endpoints/orders.py:318-347 | Every change of status of an order that is not cancelled succeeds, whatever the stock |
| Orders.ReopenSound | app/api/v1/endpoints/orders.py:77-104 | A cancelled order reopens if and only if the shelf has all of its lines together; otherwise the refusal is insufficient stock |
| Orders.PlacedSound | app/api/v1/endpoints/orders.py:214-281 | A well-formed order is taken if and only if its lines resolve and no variant is asked, over all lines, for more than it has |
| Orders.BasketIsAsked | app/api/v1/endpoints/orders.py:214-250 | The order holds of each variant exactly the sum of the requested lines that mean it |
| Orders.DeleteSound | app/api/v1/endpoints/orders.py:608-616 | Deleting succeeds if and only if the order exists and no return refers to it |
| Orders.ExpireAllSound | app/services/inventory.py:126-147 | Releasing expired reservations always succeeds, cancels exactly the listed orders and touches no other |
| Orders.LinesVerdict | app/services/inventory.py:96-123 | Moving an order's lines fails only when they take more from the shelf than it has, and then for insufficient stock |
| OrderEffects.PlaceIs | app/api/v1/endpoints/orders.py:145-285 | Once expired reservations are released, an order is placed if and only if its customer and conversation are there, it has lines, each for a positive quantity of a variant it means, and no variant is asked for more than its stock; then the orders are the old ones and the new one, which is pending and unpaid, held for a day, with one item for each variant meant, ascending, for the sum of the lines that mean it at its price, at the sum of those; stock falls and reserve rises by that for each variant, one entry for each item says so, and nothing else changes |
| OrderEffects.PlaceRefusals | app/api/v1/endpoints/orders.py:153-250 | Why an order is refused, in order: no lines or a quantity not positive, a customer or conversation not found, the first line that means no variant and whether that is because something is not found, and only then stock |
| OrderEffects.ResolveIs | app/api/v1/endpoints/orders.py:221-249 | Which variant a line means: the one it names, or the only active one of its product when it names none, if both are on sale |
| OrderEffects.ExpireIs | app/services/inventory.py:126-147 | Exactly the pending, unpaid orders past their deadline are cancelled; what they held goes from the reserve back to the shelf, in entries of that kind, and nothing else changes |
| OrderEffects.UnitsIs | app/services/inventory.py:103-121 | The units a release counts are the sum over all variants of what the items hold |
| OrderEffects.UpdateIs | app/api/v1/endpoints/orders.py:300-355 | A status change is refused only for reopening what the shelf does not have; otherwise the order has the new status, a day to go if it is pending and no deadline if not, everything else of it is kept, stock and reserve follow what the two statuses take and set aside, and the entries are of the kind the change calls for |
| OrderEffects.DeleteIs | app/api/v1/endpoints/orders.py:601-616 | A deleted order is gone, what it had taken and set aside of each variant is back, and every other order and record is as it was |
| Orders.StatusMoved | app/api/v1/endpoints/orders.py:318-341 | Moving an order's lines by the signs that carry it from its old status to its new one keeps reserve, stock, ledger and caches in agreement |
| Inventory.MoveAllVerdict | app/services/inventory.py:40-54 | Lines that push each balance one way are all moved if and only if the shelf has enough for their sum |
| Inventory.MoveAllAdvances | app/services/inventory.py:55-75 | Moving lines changes each variant by the sum of its lines and nothing else outside the ledger and the caches |
| Inventory.MoveAllFlows | app/services/inventory.py:60-75 | And adds exactly those sums to the ledger's flow of the kind |
| Inventory.MoveFirstEnters | app/services/inventory.py:60-75 | The ledger gains one entry for each line, in order, with its variant, kind and quantity and with the balances all the lines so far leave |
| Inventory.MoveBooks | app/services/inventory.py:60-75 | Appending a movement keeps every balance in the ledger a replay of the ones before it |
| Inventory.SyncCaches | app/services/variants.py:37-49 | After a change within one product, syncing that product restores every product's cached totals |
| Invariants.OrderMoved | app/api/v1/endpoints/orders.py:92-104 | Lines that move what an order holds after a step and did not before keep the whole shop sound |
| Invariants.SupplyMoved | app/api/v1/endpoints/operations.py:153-164 | Lines that bring goods in, recorded with their purchase or return, keep the whole shop sound |
| Invariants.TotalNonNegative | app/models/product_variant.py:15 | An order that costs what its items cost, at prices the database has checked, has no negative total |
| Sums.SumPut | app/services/variants.py:44-46 | A sum over rows changes, when one row is written, by that row alone |
| Database.Tables.MoveStock | app/services/inventory.py:25-80 | Either refuses and changes nothing, or sets both balances, resyncs the product and appends one ledger entry |
| Database.Tables.SyncProductTotals | app/services/variants.py:37-49 | Writes the four cached totals of one product |
| Database.Tables.LowestPrice | app/services/variants.py:47-49 | The least price among active variants, or among all if none is active |
| Database.Tables.AddUp | app/services/variants.py:43-46 | The three sums over a product's variants |
| Database.Tables.ReleaseOrderStock | app/services/inventory.py:96-123 | The loop over an order's items is the release function, and counts the units put back |
| Database.Tables.ReleaseExpiredReservations | app/services/inventory.py:126-147 | Releases exactly the pending, unpaid orders past their deadline, and counts the orders and the units |
| Database.Tables.MoveItems | app/api/v1/endpoints/orders.py:91-124 | The shared loop of reopening and of moving between reserved and fulfilled |
| OrderRequests.CreateOrder | app/api/v1/endpoints/orders.py:145-285 | The endpoint is the order-placing function, and a failure leaves every table as it was |
| OrderRequests.MergeRequests | app/api/v1/endpoints/orders.py:214-250 | The loop that validates lines and merges quantities per variant |
| OrderRequests.SortIds | app/api/v1/endpoints/orders.py:252 | Variants are taken in ascending order of their keys |
| OrderRequests.ReserveItems | app/api/v1/endpoints/orders.py:252-281 | The loop that reserves, prices and totals the items |
| OrderRequests.UpdateOrder | app/api/v1/endpoints/orders.py:300-355 | The endpoint is the status-change function, all or nothing |
| OrderRequests.MoveForStatus | app/api/v1/endpoints/orders.py:320-341 | The six-way branch on old and new status |
| OrderRequests.DeleteOrder | app/api/v1/endpoints/orders.py:601-616 | The endpoint is the delete function, all or nothing |
| OrderRequests.ReleaseExpired | app/api/v1/endpoints/inventory.py:91-97 | The endpoint releases the expired reservations and counts the orders and the units |
| Products.OpenSound | app/api/v1/endpoints/products.py:60-101 | Adding variants with opening balances and no negative price always goes through and ends with the right totals |
| Products.EditSound | app/api/v1/endpoints/products.py:226-235 | Editing price, threshold or activity keeps the shop sound once the product is resynced, as long as no price turns negative |
| Products.UpdateProductSound | app/api/v1/endpoints/products.py:418-474 | Editing a product, its stock and its only variant keeps the shop sound |
| Products.AdjustSound | app/api/v1/endpoints/inventory.py:41-87 | A manual adjustment keeps the shop sound |
| Products.DeleteVariantSound | app/api/v1/endpoints/products.py:244-272 | Deleting an empty, unreferenced variant keeps the shop sound and leaves the product another |
| Products.DeleteProductSound | app/api/v1/endpoints/products.py:478-498 | Deleting a product whose variants nothing refers to keeps the shop sound |
| Products.Fresh | app/api/v1/endpoints/products.py:181-186 | A new variant starts with empty books: no order, purchase, return or ledger entry names it |
| ProductEffects.CreateIs | app/api/v1/endpoints/products.py:51-107 | A new product is on sale with a row and, where there is stock, one opening entry for each variant it comes with, or for one of its own when it comes with none |
| ProductEffects.CreateVariantIs | app/api/v1/endpoints/products.py:158-207 | A product takes one more variant, with its stock and entry, until it has a hundred |
| ProductEffects.AdjustIs | app/api/v1/endpoints/inventory.py:41-87 | An adjustment adds its delta to the stock of the variant it names, or of the only one, with one entry for exactly that, and changes nothing else; it is refused when there is no such variant, no single one, or less than nothing would be left |
| ProductEffects.UpdateProductIs | app/api/v1/endpoints/products.py:418-474 | An edited product gives its only variant its price, threshold and, when it differs from what is shown, its stock, with one entry for the difference; with several variants it is refused if stock, price or threshold differ from what is shown, and otherwise no variant changes |
| ProductEffects.DeleteVariantIs | app/api/v1/endpoints/products.py:244-272 | A variant goes if and only if it is empty, not the last of its product and named by no order, purchase or return; the ledger keeps its entries without the link |
| ProductEffects.DeleteProductIs | app/api/v1/endpoints/products.py:478-498 | A product goes with exactly its variants if and only if no order, purchase or return names any of them |
| ProductRequests.CreateProduct | app/api/v1/endpoints/products.py:51-107 | The endpoint is the create function, all or nothing; a negative price is refused |
| ProductRequests.CreateProductVariant | app/api/v1/endpoints/products.py:158-207 | The endpoint is the create-variant function, all or nothing; a negative price is refused |
| ProductRequests.UpdateProductVariant | app/api/v1/endpoints/products.py:212-241 | The endpoint is the update-variant function; a negative price is refused |
| ProductRequests.DeleteProductVariant | app/api/v1/endpoints/products.py:244-272 | The endpoint is the delete-variant function |
| ProductRequests.EditProduct | app/api/v1/endpoints/products.py:418-474 | The endpoint is the update-product function, all or nothing; a negative price for the only variant is refused |
| ProductRequests.RemoveProduct | app/api/v1/endpoints/products.py:478-498 | The endpoint is the delete-product function |
| ProductRequests.AdjustProductStock | app/api/v1/endpoints/inventory.py:41-87 | The endpoint is the adjustment function |
| Operations.ReceivePurchaseSound | app/api/v1/endpoints/operations.py:140-169 | Taking a delivery keeps the shop sound and the purchase in order |
| Operations.ReceiveFirstIs | app/api/v1/endpoints/operations.py:153-164 | The receiving loop moves the delivered lines and takes no line past what was ordered |
| Operations.ReceiveFirstCounts | app/api/v1/endpoints/operations.py:153-164 | What the lines have received grows by what was moved |
| OperationEffects.ReceivePurchaseIs | app/api/v1/endpoints/operations.py:140-169 | A delivery is taken if and only if the purchase is on order, no line comes twice, every line exists and none exceeds what was ordered; then each line has received what came for it, the purchase is `received` once everything has, each variant has that much more stock, with one entry for each delivered line, and nothing else changes |
| Operations.UpdatePurchaseSound | app/api/v1/endpoints/operations.py:120-136 | The allowed status changes keep a purchase in order |
| Operations.BuySound | app/api/v1/endpoints/operations.py:86-116 | A new purchase order starts as a draft that has received nothing |
| Operations.OpenReturnSound | app/api/v1/endpoints/operations.py:189-214 | Opening a return keeps returned quantities within what was sold |
| Operations.ReceiveReturnSound | app/api/v1/endpoints/operations.py:218-237 | Receiving a return restocks what its lines say and keeps the shop sound |
| Operations.ReceiveReturnSucceeds | app/api/v1/endpoints/operations.py:218-237 | Receiving a return that was not received before never fails |
| OperationEffects.ReceiveReturnIs | app/api/v1/endpoints/operations.py:218-237 | A return is received once: each variant has as much more stock as its lines restock, one entry for each line that restocks something, and only the status and the mark of the return change |
| Operations.RefundSound | app/api/v1/endpoints/operations.py:241-254 | Recording a refund keeps refunds within the order's total |
| OperationRequests.CreatePurchaseOrder | app/api/v1/endpoints/operations.py:86-116 | The endpoint is the purchase-creating function |
| OperationRequests.UpdatePurchaseOrder | app/api/v1/endpoints/operations.py:120-136 | The endpoint is the purchase-status function |
| OperationRequests.ReceivePurchaseOrder | app/api/v1/endpoints/operations.py:140-169 | The endpoint is the receiving function, all or nothing |
| OperationRequests.CountReturned | app/api/v1/endpoints/operations.py:200-202 | The sum of earlier returned quantities of an order line |
| OperationRequests.CreateReturn | app/api/v1/endpoints/operations.py:189-214 | The endpoint is the return-opening function |
| OperationRequests.ReceiveSalesReturn | app/api/v1/endpoints/operations.py:218-237 | The endpoint is the return-receiving function, all or nothing |
| OperationRequests.SumRefunds | app/api/v1/endpoints/operations.py:249-250 | The sum of refunds already recorded on an order |
| OperationRequests.RefundSalesReturn | app/api/v1/endpoints/operations.py:241-254 | The endpoint is the refunding function |
| Queue.JobTable.Enqueue | app/services/queue.py:41-53 | Adds a pending row, due now or when asked |
| Queue.JobTable.Claim | app/services/queue.py:70-91 | Takes the eligible row first in order that is not locked, marks it running, counts the attempt and stamps the lock |
| Queue.ClaimIs | app/services/queue.py:70-91 | A claim locks and marks the row, counts one attempt, is held by the worker alone and touches no other row |
| Queue.JobTable.Finish | app/services/queue.py:94-109 | Writes success, failure, or a later retry, and always clears the lock |
| Queue.ReportIs | app/services/queue.py:94-109 | After a report the held row, if still there, is unlocked: succeeded exactly if the worker returned, failed exactly if there was no handler or it raised with attempts at or over the maximum, and otherwise pending again, due after the smaller of 5 * 2^attempts and 600 seconds |
| Queue.SucceededIffReturned | app/services/queue.py:94-137 | In every run from an empty table a row is succeeded if and only if the last report by a worker that held it is that it returned; a worker that raised never makes it so |
| Queue.JobTable.ReleaseStuck | app/services/queue.py:153-169 | Puts back exactly the running rows locked longer than the lease, and counts them |
| Queue.JobTable.PruneFinished | app/services/queue.py:172-187 | Deletes exactly the finished rows past retention, none if the retention is zero days or less, and counts them |
| Queue.RetryBound | app/services/queue.py:70-109 | In every run, workers that outlive their lease included: running exactly when locked, attempts equal claims, and claims at most the allowed attempts plus lease releases |
| Queue.NoAttemptsIsOne | app/services/queue.py:89-102 | Claims can exceed the allowed attempts plus the lease releases if and only if no attempts are allowed |
| Queue.RunsStayConsistent | app/services/queue.py:70-187 | The invariant behind it over every run |
| Queue.RetryWaits | app/services/queue.py:99-108 | No later claim of a job comes before the time a failure put it back to |
| Queue.FailedRunWaits | app/services/queue.py:99-108 | After a failed attempt no claim comes before finish time plus the backoff of its attempts |
| Queue.BackoffMonotone | app/services/queue.py:64-67 | The delay never shrinks with attempts |
| Queue.BackoffCeiling | app/services/queue.py:64-67 | And is constant at its ceiling exactly from attempt 7 |
| Queue.LeaseSafety | app/services/queue.py:70-169 | In every run where workers finish within the lease or never, no two live workers hold one job |
| Queue.TerminalAbsorbing | app/services/queue.py:94-109 | In those runs a succeeded or failed row never changes again except by pruning |
| Queue.StepRevives | app/services/queue.py:94-109 | One event brings a finished row back if and only if it is such a report |
| Queue.TerminalUntilRevived | app/services/queue.py:94-137 | In every run a finished row stays finished, or pruned, if and only if no worker that holds it reports a failure while attempts are left |
| Queue.StaleFailureRevives | app/services/queue.py:94-109 | And a run in which a worker past its lease puts a completed job back |
| Inbound.AtMostOnce | app/services/inbound.py:189-254 | In every interleaving of workers, deaths and redeliveries, a message is stored at most once, charged at most once and only if stored, offered a text reply at most once and only if charged, and an assistant row exists only for an accepted reply |
| Inbound.HandledCounts | app/services/inbound.py:189-366 | What is stored, alerted, charged, offered, accepted, recorded and sent for a message handled for the first time, each as a condition on the message and what happens to it |
| Inbound.HandledMarks | app/services/inbound.py:267-363 | How often a message is marked for the seller: for what cannot be heard or seen, what the assistant may not answer unless it is only a receipt, a photo that is not one, a reply that could not be given, and a reply that promised the seller and arrived at least in part |
| Inbound.HandledElsewhere | app/services/inbound.py:135-192 | Nothing changes for any other message, nor for one stored before or on a connection that is not active |
| Inbound.RunsKeepInv | app/services/inbound.py:135-150 | The protocol invariant: who stored a message alone may charge, send and record for it |
| Inbound.HandledIsARun | app/services/inbound.py:167-368 | An undisturbed call of the handler leaves the database as a run of the protocol's steps would |
| Inbound.HandledTwice | app/services/inbound.py:135-150 | A redelivery handled after the first changes nothing |
| Inbound.SilentRuns | app/services/inbound.py:244-366 | In any interleaving a message has no alert, mark, reply or picture if and only if no step of the worker that stored it reached anyone, however that worker stopped |
| Inbound.AbandonedForGood | app/services/inbound.py:189-192 | Once its worker is gone nothing touches a stored message again, however often it is delivered |
| Inbound.LostForGood | app/services/inbound.py:189-254 | A stored message stays without a trace through every continuation if and only if it has none now and its worker is gone |
| Inbound.DiesSilently | app/services/inbound.py:244-254 | A worker that dies right after the commit leaves a stored message lost |
| Inbound.CutShortIsARun | app/services/inbound.py:364-366 | A call cut short after any of its steps, by a death or a swallowed exception, is a run of the protocol too |
| Inbound.LeftSilent | app/services/inbound.py:267-311 | Exactly which messages a call that neither raises nor dies leaves with no alert, no mark and nothing sent |
| Inbound.Inbox.HandleInbound | app/services/inbound.py:167-368 | The handler's effect on every counter, by how the message ends |
| Inbound.Inbox.Triage | app/services/inbound.py:267-292 | Which messages are left to the seller and which are answered |
| Inbound.Inbox.Answer | app/services/inbound.py:296-363 | What is charged, sent, recorded and flagged when the assistant answers, the mark a reply asks for included |
| Inbound.Inbox.SendPhotos | app/services/inbound.py:330-339 | The loop over product photos counts those taken |
| Throttle.CeilingHolds | app/services/throttle.py:65-137 | In every run with monotone time, any window without a successful sign-in of an address holds at most the limit of its failures |
| Throttle.RefusedIsTooMany | app/services/throttle.py:65-137 | Over every run, sweeps included, the table refuses exactly whom the run itself refuses, so nobody is refused late or early: an address with as many failures as its limit inside the window and since its last sign-in, and a caller with as many as its own limit |
| Throttle.SweepsChangeNothing | app/services/throttle.py:119-137 | Pruning anywhere in a run changes no later answer |
| Throttle.Attempts.CountSince | app/services/throttle.py:65-71 | Counts the rows of an address or an IP in the window |
| Throttle.Attempts.TooManyAttempts | app/services/throttle.py:74-95 | Refuses exactly when either count has reached its limit |
| Throttle.Attempts.RecordFailure | app/services/throttle.py:98-108 | Adds one row, and sweeps if told to |
| Throttle.Attempts.ClearFailures | app/services/throttle.py:111-116 | Removes exactly the address's rows |
| Throttle.Attempts.Prune | app/services/throttle.py:119-137 | Keeps exactly the failures and the sign-ups inside their windows, and counts the rest |
| Throttle.Login | app/api/v1/endpoints/auth.py:112-150 | A sign-in succeeds exactly when allowed and correct, and updates the table accordingly |
| Realtime.NothingLost | app/services/realtime.py:155-172 | Every published event is seen by its stream in order or covered by a later resync |
| Realtime.WithoutResyncExact | app/services/realtime.py:155-172 | A stream that saw no resync saw exactly what was published |
| Realtime.SinceResyncExact | app/services/realtime.py:155-172 | Since its last resync a stream saw exactly the latest events, in order |
| Realtime.Stream.Deliver | app/services/realtime.py:155-172 | Appends, or empties a full queue and leaves one resync; never beyond the limit, never silently |
| Realtime.Hub.Subscribe | app/services/realtime.py:126-130 | Adds a fresh stream to one shop and no other |
| Realtime.Hub.Unsubscribe | app/services/realtime.py:132-137 | Removes that stream and drops a shop without streams |
| Realtime.Hub.Publish | app/services/realtime.py:139-144 | Schedules the event on every stream of the shop and on no other |
| Storage.SweepSafe | app/services/storage.py:124-143 | A sweep never removes an object a row refers to |
| Storage.MoveToBucketSafe | app/scripts/move_media.py:32-45 | Moving a row to the bucket keeps every row readable as before |
| Storage.MoveToDatabaseSafe | app/scripts/move_media.py:48-64 | Moving a row back does too, and leaves a tombstone |
| Storage.DeleteSafe | app/models/storage_tombstone.py:12-22 | Deleting a row tombstones its key, which no row then uses |
| Storage.Media.StoreNew | app/services/storage.py:95-102 | A new row reads back the bytes it was given; an upload the bucket refuses changes nothing |
| Storage.Media.ToBucket | app/scripts/move_media.py:32-45 | Terminates, changes no row's bytes, and leaves nothing in the database |
| Storage.Media.ToDatabase | app/scripts/move_media.py:48-64 | Terminates, changes no row's bytes, and leaves nothing in the bucket |
| Storage.Media.SweepTombstones | app/services/storage.py:124-143 | Of the first tombstones up to the limit, those locked by another sweep not counted, deletes every object the bucket does not refuse and its tombstone, and changes no row's bytes |
| Crc.Crc16 | app/services/khqr.py:55-63 | The two nested loops compute the checksum function |
| CrcCheck.CheckValue | tests/test_khqr.py:55 | The published check value: the digits 1 to 9 give 29B1 |
| Crc.BitStepInjective | app/services/khqr.py:61-62 | One turn of the inner loop is injective on registers |
| Crc.BurstDetected | app/services/khqr.py:55-63 | Texts of any length that differ within sixteen adjacent bits have different checksums |
| Crc.AdjacentBytesDetected | app/services/khqr.py:55-63 | So do texts that differ within one byte or two adjacent bytes |
| Crc.LastByteDetected | app/services/khqr.py:55-63 | Texts that differ only in their last byte have checksums that differ past the first digit |
| Crc.Hex4Injective | app/services/khqr.py:63 | The four hexadecimal digits determine the register |
| Khqr.Parse | app/services/khqr.py:128-135 | The loop computes the parsing function, errors included |
| Khqr.ParsePrinted | app/services/khqr.py:128-135 | Parsing the concatenation of printed fields gives them back, later tags over earlier |
| Khqr.OntoIsExact | app/services/khqr.py:128-135 | With distinct tags that is exactly the tag-to-value map |
| Khqr.AmountTextDenotes | app/services/khqr.py:66-70 | The printed amount denotes the amount rounded half up, to the cent or the riel |
| Khqr.BuildSucceedsWhen | app/services/khqr.py:80-121 | Building succeeds if and only if every field fits |
| Khqr.LatinNames | app/services/khqr.py:73-77 | Cleaning a name keeps its printable ASCII characters, as often as they occur, takes the spaces off both ends and then the first of them up to the limit; something is left if and only if the name holds a printable character other than the space |
| Khqr.BuildRoundTrip | app/services/khqr.py:80-121 | Parsing a built text gives back every top-level field, and field 63 is the checksum of everything before it |
| Khqr.TemplatesRoundTrip | app/services/khqr.py:99-118 | Parsing templates 29 or 30, 62 and 99 again gives back their subfields |
| Khqr.BuiltFields | app/services/khqr.py:80-121 | Reading a built code finds exactly its tags, no others: the fixed ones with their literals, 53 equal to 116 for KHR and 840 for USD, 30 if there is a merchant id and 29 if not, and 60 equal to Phnom Penh exactly when the city has nothing printable but spaces or is that name, otherwise the cleaned city |
| Khqr.TypoCaught | app/services/khqr.py:118-121 | A text with its own checksum in which one ASCII character, or any two adjacent ones, are changed no longer carries its own checksum: in the body, in the checksum, or one in each |
| Currency.NearestIsUnique | app/core/currency.py:21-31 | Rounding half up picks the one nearest integer when there is one |
| Currency.ConvertIs | app/core/currency.py:21-31 | Dollars become the nearest riel at the rate and riel the nearest cent, halves going up; an amount already in the currency stays |
| Currency.DollarRoundTrip | app/core/currency.py:21-31 | A cent amount quoted in riel and read back is the same amount |
| Currency.RielRoundTrip | app/core/currency.py:21-31 | A riel amount quoted in dollars and read back is off by at most half a cent in riel plus half a riel |
| Receipts.QuotedPaymentMatches | app/services/receipts.py:223-262 | Paying exactly the amount quoted in the other currency is a match |
| Receipts.VerdictIs | app/services/receipts.py:223-262 | When each verdict, and none, is given, each by an if-and-only-if over the fields: a match exactly if the receipt was read, has an amount, no earlier receipt of the shop has its reference, and it is either in the order's own currency, or in none, for exactly the total, or in the other one at a rate that is set and inside the tolerance |
| Receipts.EndsAre | app/services/receipts.py:244-260 | The ends of the intervals below are the least and the greatest amounts within three per cent of the total |
| Receipts.RielWindow | app/services/receipts.py:244-260 | Exactly which riel payments match a dollar order |
| Receipts.DollarWindow | app/services/receipts.py:244-260 | Exactly which dollar payments match a riel order |
| Receipts.SmallQuoteMisses | app/services/receipts.py:244-260 | Just below the bound a quoted riel order can miss |
| Receipts.BankRatesMatch | app/services/receipts.py:49-52 | At rate 4,100, whole riel at any bank rate from 4,000 to 4,150 match every order of at least a dollar |
| Receipts.OneReceiptPerReference | app/services/receipts.py:196-220 | Of two receipts of one shop with one reference at most one can match |
| Receipts.LaterCopiesChangeNothing | app/services/receipts.py:196-220 | A receipt's verdict does not change when a copy turns up later |
| Payments.OrderRow.ReceiveStripeEvent | app/api/v1/endpoints/webhooks.py:189-212 | The webhook's transition, once |
| Payments.OrderRow.ConfirmReceipt | app/api/v1/endpoints/orders.py:530-576 | When a receipt may be confirmed, and what it writes |
| Payments.OrderRow.Issue | app/services/khqr_orders.py:50-81 | When an order gets a code, and when a check is queued |
| Payments.OrderRow.Apply | app/services/khqr_orders.py:97-124 | What the bank's answer does to the order |
| Payments.LookWrites | app/services/khqr_orders.py:136-164 | One look at a code: nothing if it is no longer the current, issued, unpaid one, EXPIRED once its time is up, only the time of the look when no payment is found, paid now with the answered amount and currency when the right one is, MISMATCH when another is |
| Payments.LookQueues | app/services/khqr_orders.py:84-87 | And exactly one more look, for the same order and code in twenty seconds, when the code is still awaited and no payment was found; otherwise none |
| Payments.CheckNowIs | app/services/khqr_orders.py:127-133 | A look the seller asks for does the same to the order and queues nothing |
| Payments.QuantaIs | app/services/khqr_orders.py:90-94 | An amount is compared in the nearest number of cents or riel, an even one of two equally near |
| Payments.StripeIs | app/api/v1/endpoints/webhooks.py:189-212 | The card webhook pays an order that is not paid yet: the total in its currency, now, by card, with no deadline; a paid one stays as it is |
| Payments.ConfirmIs | app/api/v1/endpoints/orders.py:530-576 | A confirmed receipt pays the order, now, with the amount and currency that were read, or with the total when no amount was |
| Payments.IssueIs | app/services/khqr_orders.py:50-81 | A code is given to an order that can be paid and has no payable one, good for an hour and looked at first in twenty seconds |
| Payments.PaidOnce | app/services/khqr_orders.py:97-124 | Paid is absorbing in every run: payment, time, amount, currency and method never change again, and neither does the receipt unless it is itself erased |
| Payments.LinkKept | app/models/order.py:50-52 | Only erasing the receipt blanks a paid order's link to it |
| Payments.StepSound | app/api/v1/endpoints/orders.py:544-560 | Payment columns are written together, and a receipt pays at most one order |
| Payments.ReceiptPaysOnce | app/api/v1/endpoints/orders.py:544-568 | After a receipt has been confirmed for an order it is never confirmed again, for any order, even when erased in between, until that order is deleted |
| Payments.PaidIsTheTotal | app/services/khqr_orders.py:90-94 | A card or KHQR payment recorded is the order's total, to one quantum, in its currency |
| Payments.ExpirySparesPayments | app/services/inventory.py:128-142 | No run expires an order once it has an open card payment or a completed payment of any kind |
| Payments.CardPageHolds | app/api/v1/endpoints/orders.py:416-428 | After a card payment page is opened no run expires the order |
| Payments.CodeMayOutliveReservation | app/services/khqr_orders.py:68-81 | In every reachable state, an order with a payable code can be expired before the code is, in some continuation, if and only if it is pending and unpaid and its deadline comes before the code's expiry |
| Payments.CancelledThenPaid | app/services/khqr_orders.py:136-164 | And a run in which that order is then marked paid |
| Payments.StepKeepsWatching | app/services/khqr_orders.py:136-164 | Every step keeps one check outstanding for each order being watched |
| Payments.ExactlyOneCheck | app/services/khqr_orders.py:84-87 | In every run in which no check is lost, an issued, unpaid order has exactly one outstanding check for its current code |
| Payments.WatchGoesOn | app/services/khqr_orders.py:136-164 | In every run in which no check is lost and nothing settles its code, an order is still waiting for the same code at the end, with exactly one check outstanding |
| Payments.PollsBounded | app/services/khqr_orders.py:84-87 | And a code is polled fewer times than its lifetime holds intervals |
| Payments.NextCheckIsCloser | app/services/khqr_orders.py:136-164 | Each look that schedules another brings it at least one interval closer to the code's expiry |
| Alerts.EvaluateSettles | app/services/alerts.py:16-40 | One evaluation leaves an open alert exactly when the variant is low, queues a notification exactly when it opens one, and touches no other variant |
| Alerts.EvaluateIs | app/services/alerts.py:16-40 | What an evaluation writes: an open alert takes the stock, and the threshold while the variant is low, and closes when it is not; a variant newly low gets one alert and one notification |
| Alerts.ScanSettles | app/services/alerts.py:43-52 | After a scan every variant has an open alert exactly when it is low, and as many notifications were queued as variants newly low |
| Alerts.RunsStayValid | app/models/operations.py:12-17 | In every run a variant has at most one open alert, and every alert had exactly one notification |
| Alerts.AlertTable.EvaluateLowStock | app/services/alerts.py:16-40 | The method is the evaluation function |
| Alerts.AlertTable.ScanLowStock | app/services/alerts.py:43-52 | The loop is the scanning function, and its result counts the newly opened |

## Left out

Assumptions the proofs rest on:

* Each endpoint is one atomic transaction, and a request that raises leaves
  nothing behind. `create_checkout` and the Stripe webhook read the order without
  a lock (`app/api/v1/endpoints/orders.py:372-374`,
  `app/api/v1/endpoints/webhooks.py:185-189`), so for them this is an assumption.
* Keys are fresh where the program draws a UUID. A code's MD5 is taken to be
  injective, and codes fresh.
* Times are integers in microseconds. The two clock readings of a claim are one.
* An order's status in an update is absent or one of the six; an explicit null
  would be written with no stock move.
* Foreign keys hold where the endpoints start: the methods ask that every
  variant's product exists, which every sound state gives.
* One shop: tenancy filters and row locks do not appear, and nothing is claimed
  about deadlocks.
* Request schemas are trusted where they are checked before the endpoint runs:
  quantities in deliveries and returns are positive, opening stock and
  thresholds are not negative, purchases have at least one line.

Not modelled, or modelled in part:

- ShopRuns.StepSound: a missing variant is one error whatever its status code, and
  refusals carry no text; names, SKUs, options, barcodes, images, costs and the
  movement's links to orders, purchases and actors are left out, and uniqueness of
  options and SKUs is a parameter.
- Database.Tables.MoveStock: the low-stock evaluation it ends with is in `Alerts`.
- OrderRequests.UpdateOrder: customer notifications, addresses and notes.
- Alerts.RunsStayValid: between evaluations an alert may lag behind `is_active`
  and threshold changes of the product editor; delivery of the notification is
  left out.
- Queue.JobTable.Finish: on a row already pruned it does nothing; last_error and
  the wake-up of the drainer are left out, as are the `work` and `drain` loops.
- Inbound.AtMostOnce: is about message rows that are not deleted, and bounds text
  replies; it does not bound photos and payment codes.
- Inbound.Inbox.HandleInbound: what a download, the model or the platform does is
  a parameter; the class has the calls that neither raise nor die, and those cut
  short are runs of the protocol (`Inbound.CutShortIsARun`).
- Throttle.Login: normalising addresses, finding the caller's IP and the ceiling on
  sign-ups are left out.
- Khqr.Parse: the length field is two ASCII digits; Python's int also takes signs,
  blanks and other digits, and a negative length would not advance.
- Khqr.AmountTextDenotes: amounts are real numbers, so Decimal's 28 digits never
  run out; the same holds for the divisions of `Currency`.
- Crc.Crc16: the register is a list of sixteen bits, not an integer, and the text
  is already encoded as bytes.
- Receipts.OneReceiptPerReference: receipts created at the same instant are both
  copies of each other, as in the program; a negative order total is within any
  tolerance, as in the program.
- Storage.Media.StoreNew: is for rows just made, which is all the program stores;
  an upload that fails while a migration moves a row stops the migration.
- Realtime.Hub.Publish: the heartbeat, the listener thread and the text of events.
- Payments.ExactlyOneCheck: holds while a token is set and no check is dropped or
  left behind by a worker; the intervals are the defaults, an hour and twenty
  seconds.

Left out altogether, as adding only easy members or nothing provable: HTTP,
authentication, sessions, staff, catalogue ranking, prompts and model calls,
platform clients, e-mail, reports, templates, QR images, hashing and encryption,
galleries, payment-QR defaults, quotas and handoff rules.
