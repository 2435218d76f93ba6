# LeanStock stock core: a verified model

LeanStock keeps stock for many tenants in PostgreSQL. Adjustments, two-phase transfers, purchase-order receipts and
the dead-stock decay cycle all change the same `inventory_items` rows under row locks, append audit rows, and commit
or roll back as one transaction. The forecast then derives demand from those audit rows. Two smaller protocols run
beside it: stock reservations as Redis keys with a time to live, and e-mail jobs sent by Celery workers.

This project models that behaviour in Dafny 4.11 and proves what it keeps. `dafny verify dfyconfig.toml` checks it all.

## How the model is built

- `Ledger` holds the rows, the requests and the serial meaning of one call. A call is a sequence of stages: unlocked
  checks, the transfer or order row, the inventory row, the unique keys it inserts, its writes. `Decide` runs the stages
  one after the other; `Run` is a serial run.
- `LedgerService` is the same in the services' own form: a class with the tables as fields and a method per service
  function, in the services' order of checks and writes. Each method is proved to leave exactly the tables and the
  reply that the serial meaning gives. The decay cycle is two loops over rows in any order, proved against the
  declarative cycle and against a run of per-row steps (`DecayLoop`, `DecayCycle`).
- `Interleaving` cuts each call at its lock points. Any number of calls and decay cycles run at once, with
  read-committed row locks (`FOR UPDATE` waits and reads the committed row, `SKIP LOCKED` passes by, a duplicate unique
  key aborts the later insert), and any transaction may vanish at any point. Every interleaving is proved to be a serial
  run of the committed calls. The ledger's laws, idempotent creation, the decay rate limit and the forecast's window
  (`DemandClocks`) are stated for interleavings too; `Races` shows the two runs in which a reply differs.
- `Promises` says what every call does in terms of the tables alone, without the stages: when it commits, exactly which
  rows and audit rows it then leaves, and with which error it is refused otherwise. `Alone` shows that one transaction
  alone in the step-level system does the same.
- `LedgerInvariant`, `Conservation`, `Replay`, `Lifecycles` and `TenantProjection` prove the ledger's laws over whole
  runs; `Sums` has the sums over tables and logs they need.
- `DecayPrice` is the exact arithmetic of the decay step: prices in cents, the percentage a rational in (0, 100].
- `DemandLog` and `Forecast` read demand off the audit log and turn it into order quantities; `Paging` and
  `ProductPages` are the keyset pages that all list endpoints share.
- `Reservations` and `EmailDelivery` model the two smaller protocols twice each: a class with the services' own
  statements, and a step-level system with any number of callers or workers.

A row is named by its unique key: an inventory item by (variant, warehouse), a transfer by (tenant, request_id), an
order by (tenant, po_number). Key columns never change and rows are never deleted, so the key stands for the uuid.

## Where the code falls short of what one would expect

- Iterated decay does not always end at the floor. `ARCHITECTURE.md` gives the step as `max(price * multiplier, floor)`;
  with rounding to cents the price settles at max(floor, min(price, floor(50/d))) for d percent. Five cents at 10 percent
  stay five cents (`DecayPrice.StuckAboveTheFloor`); `DecayPrice.LimitIsFloorIff` says exactly when the limit is the floor.
- A decay step raises a price that is below the floor (`DecayCycle.DecayCanRaise` is a run in which it does), and a
  variant edit can leave rows outside the variant's band. `DecayPrice.DecayNeverRaisesIffAtFloor` and
  `DecayCycle.EditKeepsBandIff` are the exact conditions.
- `total_count` counts the rows after the cursor, not all matching rows: `Paging.TotalIsNotTheWhole` is a page of two
  rows that says one, and `Paging.TotalCountsTheRest` says what it counts and exactly when that is all of them.
- Reservations do not stay within stock, because stock debits do not consult them: `Reservations.DebitLeavesTooFew` is a
  run that ends with five units reserved and none on hand, and from every state one debited unit is enough
  (`Reservations.DebitCanBreakStock`). While nothing is debited, nor was since the lock's holder read the row, and no
  further lock expires, live reservations stay within stock if and only if each call that has lost its Redis lock is
  going to be refused (`Reservations.StaysWithinStockIff`).
- Under debits they stay within stock plus the units debited since the last grant read the row, as long as every call
  that is granted still holds its Redis lock then (`Reservations.ReservationsStayBounded`). The lock expires after ten
  seconds; `Reservations.ExpiredLockBreaksTheBound` is a run in which it does and 10 of 5 units get reserved. Once locks
  have been lost, this bound survives every continuation without further expiry if and only if each call that lost its
  lock is going to be refused (`Reservations.StaysBoundedIff`).
- With two tasks for one e-mail job, the provider can be called again after the job is sent and the job can go back to
  failed (`EmailDelivery.TwoTasksCanReopen`). As long as the API process reports no enqueue error for the job, both are
  impossible under exactly the same condition: no further call (`EmailDelivery.QuietAfterSentIff`), and no way back from
  sent (`EmailDelivery.StaysSentIff`), if and only if every task has not begun or is about to mark success. An enqueue
  error reopens a sent job: with such errors possible and no further dispatch, the provider is left alone if and only if
  no task has an attempt left (`EmailDelivery.QuietWithoutDispatchIff`). A single dispatched task never calls again after
  the job is sent, under any events (`EmailDelivery.OneTaskIsQuietUnderAnyError`).
- In a race the loser of a creation gets INSUFFICIENT_STOCK instead of the stored transfer when too few units are left,
  and the loser of a first insert on (variant, warehouse) gets an unhandled IntegrityError. The tables are those of a
  serial run all the same. A call that commits replies as it would alone (`Interleaving.CommittingReplyIsSerial`);
  `Races.ReplyDiffersIff` says exactly at which step and on which tables any other reply differs, and
  `Races.RacesHappen` gives a run for each.

## Model

| member | source | states |
|---|---|---|
| LedgerService.Database.AdjustInventory | app/services/inventory_service.py:111-195 | The adjustment, step by step on the tables, leaves exactly the tables and reply of the serial specification, every error path included. |
| LedgerService.Database.CreateTransfer | app/services/transfer_service.py:81-186 | Creation debits the source, stores the transfer, appends both audit rows in order, or returns the stored transfer or an error, as specified. |
| LedgerService.Database.ConfirmTransfer | app/services/transfer_service.py:229-334 | Confirmation credits the destination (inserting the row if missing), closes the transfer and logs a discrepancy for a short receipt. |
| LedgerService.Database.CancelTransfer | app/services/transfer_service.py:337-398 | Cancellation restores the source in full and closes the transfer. |
| LedgerService.Database.CreatePurchaseOrder | app/services/procurement_service.py:218-261 | A draft order under a fresh number, or not found, or a conflict. |
| LedgerService.Database.SubmitPurchaseOrder | app/services/procurement_service.py:309-351 | Draft to submitted, with supplier, warehouse and variant checked again. |
| LedgerService.Database.ConfirmPurchaseOrder | app/services/procurement_service.py:354-385 | Submitted to confirmed. |
| LedgerService.Database.ReceivePurchaseOrder | app/services/procurement_service.py:388-474 | Submitted or confirmed to received, with the stock credit and both audit rows. |
| LedgerService.Database.CancelPurchaseOrder | app/services/procurement_service.py:477-507 | Any order but a received one to cancelled. |
| LedgerService.Database.UpdateProductVariant | app/services/catalog_service.py:234-277 | Given, missing and null price fields; a floor above the selling price is refused. |
| LedgerService.Database.RunDecayCycle | app/services/decay_service.py:36-164 | Both loops in any row order: exactly the normal rows last sold more than the start age ago are marked and exactly the liquidating rows with a stamp at least an interval old are discounted, if in scope and held by nobody else; each with the audit row its acting user calls for, in the order the rows came; totals and per-tenant counters are the exact numbers of rows, and the tables are those of running the row steps one by one. |
| LedgerService.Database.MarkRows | app/services/decay_service.py:73-104 | The marking loop, proved against the rows, audit rows and counters it must leave. |
| LedgerService.Database.DiscountRows | app/services/decay_service.py:106-144 | The discounting loop, likewise. |
| Promises.AdjustmentPromise | app/services/inventory_service.py:111-182 | An adjustment commits if and only if the variant is the tenant's, the warehouse is open and the units left are not negative; then exactly one row changes, by exactly the delta, with one audit row. Every other reply is named. |
| Promises.CreationPromise | app/services/transfer_service.py:81-186 | A stored request is returned as it is; otherwise a creation commits if and only if warehouses and variant are there and the source row holds enough, and takes exactly the quantity from that row. |
| Promises.ConfirmationPromise | app/services/transfer_service.py:229-334 | A confirmation commits if and only if the tenant's transfer is in transit and at most its quantity is received; exactly the units received are credited, and a discrepancy row with both figures appears if and only if units are missing. |
| Promises.CancellationPromise | app/services/transfer_service.py:337-398 | A cancellation commits if and only if the tenant's transfer is in transit; the source row gets all units back. |
| Promises.OrderingPromise | app/services/procurement_service.py:218-261 | An order is stored as a draft if and only if its three parties are there and its number is new to the tenant. |
| Promises.SubmissionPromise | app/services/procurement_service.py:309-351 | A submission commits if and only if the order is a draft whose three parties are still there. |
| Promises.OrderConfirmationPromise | app/services/procurement_service.py:354-385 | A confirmation of an order commits if and only if the order is submitted. |
| Promises.OrderCancellationPromise | app/services/procurement_service.py:477-507 | A cancellation of an order commits if and only if the order is not received. |
| Promises.ReceiptPromise | app/services/procurement_service.py:388-474 | A receipt commits if and only if the order is submitted or confirmed, at most its quantity is received and its warehouse is open; exactly the units received are credited. |
| Promises.VariantEditPromise | app/services/catalog_service.py:234-277 | An edit goes through if and only if the tenant has the variant, no price is null and the floor is at most the selling price, equality included. |
| Promises.ActivityPromise | app/services/catalog_service.py:101-118 | Closing or opening a warehouse or supplier changes the tenant's own row and nothing else. |
| Promises.MarkPromise | app/services/decay_service.py:44-103 | A row is marked if and only if it is normal and was last sold more than the start age ago. |
| Promises.DiscountPromise | app/services/decay_service.py:45-142 | A row is discounted, against its variant's floor, if and only if it is liquidating and its stamp is at least an interval old. |
| Promises.AdjustmentCommitsIff | app/services/inventory_service.py:126-160 | When an adjustment commits, removals included. |
| Promises.TransferCallsCommitIff | app/services/transfer_service.py:237-256 | When confirmations and cancellations of transfers commit. |
| Promises.OrderCallsCommitIff | app/services/procurement_service.py:317-492 | When submissions, confirmations, receipts and cancellations of orders commit. |
| DecayLoop.LoopIsRun | app/services/decay_service.py:85-144 | A loop over locked rows leaves the tables that its row steps leave as calls of their own. |
| DecayLoop.CountsAreExact | app/services/decay_service.py:48-144 | Each tenant's counter is the number of its rows handled. |
| DecayLoop.AuditForMeaning | app/services/decay_service.py:58-142 | A handled row leaves one audit row in the name of its tenant's acting user, and none when there is no such user. |
| LedgerInvariant.NextKeepsInv | app/models/warehouse.py:33-37 | Every call keeps: item, variant and warehouse share a tenant; quantities are not negative; floor is at most selling price; statuses agree with their timestamps; a transfer's source row exists; PENDING never occurs. |
| LedgerInvariant.RunKeepsInv | app/services/transfer_service.py:42-78 | The same over every serial run. |
| LedgerInvariant.SerialCallsNeverCollide | app/models/warehouse.py:34 | A call run alone never hits uq_variant_warehouse and never misses a row it takes for granted; only a null price in a variant edit is left unhandled. |
| Conservation.UnitsAreConserved | app/services/transfer_service.py:132-141 | Per tenant and variant, on hand + in transit + reported shortfall grows by exactly adjustments and receipts, over every run. |
| Conservation.AuditBooksTheInflow | app/services/inventory_service.py:154-179 | The adjustment and receipt rows of the audit log add up to what came in. |
| Conservation.LedgerBalances | app/services/transfer_service.py:286-326 | From empty tables the two totals are equal, and no quantity is ever negative. |
| Conservation.StepConserves | app/services/procurement_service.py:440-468 | One call changes the balance by exactly its inflow. |
| Replay.RunReplays | app/services/inventory_service.py:145-179 | On every run each item's audit rows form a chain from 0, link to link, whose end is the stored quantity, whether or not decay steps leave rows. |
| Replay.ChainTelescopes | app/services/transfer_service.py:364-391 | From any point of the log on, an item's changes add up to the difference of its quantities. |
| Lifecycles.TransferIsCreditedOnce | app/services/transfer_service.py:239-326 | A transfer leaves transit at most once: credited 1..quantity when completed, all of it when cancelled, nothing before. |
| Lifecycles.ClosedTransferIsFinal | app/services/transfer_service.py:239-244 | A closed transfer never changes and is never credited again. |
| Lifecycles.InTransitCanAlwaysClose | app/services/transfer_service.py:346-367 | A transfer in transit can always be confirmed in full and always be cancelled. |
| Lifecycles.OrderIsCreditedOnce | app/services/procurement_service.py:398-444 | An order credits stock at most once, exactly when received, 1..quantity units, and it was submitted before. |
| Lifecycles.ClosedOrderIsFinal | app/services/procurement_service.py:485-492 | Received orders never change; cancelled ones stay as they are; neither is credited again. |
| Lifecycles.OneDebitPerRequest | app/models/transfer.py:22 | At most one committed creation per (tenant, request_id), of the stored quantity. |
| Lifecycles.CreateDebitsItsQuantity | app/services/transfer_service.py:132-141 | A committed creation is new, stores exactly the requested transfer, takes its quantity from the source row and from no other. |
| Lifecycles.RepeatReturnsStored | app/services/transfer_service.py:95-104 | After any run a repeat of a stored request returns the stored transfer, whatever its payload, and writes nothing; equal warehouses are refused first. |
| TenantProjection.OtherTenantsDoNotMatter | app/services/transfer_service.py:42-78 | Deleting all other tenants' calls and rows leaves a tenant's rows, audit rows and replies exactly as they were. |
| TenantProjection.OwnCallProjects | app/services/procurement_service.py:417-438 | A tenant's call does the same on its own part of the tables as on all of them. |
| TenantProjection.OtherCallIsInvisible | app/services/inventory_service.py:126-152 | A call of one tenant changes nothing of another's part. |
| Interleaving.InterleavingsAreSerial | app/services/transfer_service.py:120-182 | In every interleaving the tables and the audit log are those of the committed calls in commit order; aborted, crashed and losing transactions leave no trace. |
| Interleaving.CallCommitIsSerial | app/services/transfer_service.py:237-330 | At commit a call's buffered writes are what it would write if run alone then. |
| Interleaving.CycleCommitIsSerial | app/services/decay_service.py:80-145 | A decay cycle's buffered writes are those of its row steps run on the tables as they are at its commit. |
| Interleaving.OthersKeepTheirReads | app/services/inventory_service.py:125-183 | A commit changes nothing another transaction has read under a lock and relies on. |
| Interleaving.NoDeadlock | app/services/transfer_service.py:345-363 | No reachable state has a cycle of waiting transactions, and no waiting chain has more than four. |
| Interleaving.SomeoneCanMove | app/services/procurement_service.py:397-429 | Whenever transactions are in flight, one of them need not wait. |
| Interleaving.EveryoneCanFinish | app/services/transfer_service.py:237-330 | From every reachable state all transactions in flight can run to their ends. |
| Alone.CallAloneCommits | app/services/inventory_service.py:125-183 | A call that would commit serially commits with the same effect when its steps run without interruption. |
| Alone.CanTakeIff | app/services/decay_service.py:73-117 | A cycle can take an untouched row if and only if it is in scope, held by nobody else, and due in the current phase. |
| Interleaving.EndingReplyIsSerial | app/services/transfer_service.py:167-182 | A call that ends without writing replies as it would alone if and only if it does not lose a race; the two lost races are told by its step and the tables. |
| Interleaving.LostRaceReply | app/services/transfer_service.py:120-182 | What the loser of each race replies, and that alone it would have replied otherwise. |
| Interleaving.CommittingReplyIsSerial | app/services/transfer_service.py:132-186 | A call that commits writes and replies what it would alone at that moment. |
| Races.ReplyDiffersIff | app/services/inventory_service.py:125-183 | The same in every state reached from quiet tables. |
| Races.LateCreationIsRefused | app/services/transfer_service.py:95-182 | Two creations of one request with stock for one: the second is refused where alone it would get the stored transfer. |
| Races.LateInsertFails | app/services/inventory_service.py:125-183 | Two adjustments of a row that does not exist: the second fails on uq_variant_warehouse where alone it would commit. |
| Races.RacesHappen | app/models/warehouse.py:34 | Concrete tables and runs in which both races are lost. |
| Interleaving.EveryInterleavingKeepsTheLaws | app/services/procurement_service.py:396-472 | Conservation, replay and the row invariant hold of every interleaving. |
| Interleaving.OneDebitPerRequestInterleaved | app/services/transfer_service.py:95-182 | One debit per stored request even when several callers pass the unlocked check together. |
| DecayCycle.CycleIsPerItem | app/services/decay_service.py:73-128 | A cycle treats each row on its own; a row marked in it is not discounted in it. |
| DecayCycle.CycleMeaning | app/services/decay_service.py:44-128 | Whichever rows others hold, a cycle marks exactly the stale rows and discounts exactly the ripe ones, with the comparisons written out, and its counters count them. |
| DecayCycle.LiquidationNeedsAge | app/services/decay_service.py:73-88 | Whatever the call, a row turns liquidating only by a mark and only when last sold more than the start age before its stamp. |
| DecayCycle.ReachableIsOwned | app/services/decay_service.py:118-120 | On every reachable state each row's variant is its tenant's, which is what the decay cycle's precondition asks: the loop never skips a row for a missing variant. |
| DecayCycle.GlobalCycleIsTenantCycles | app/services/decay_service.py:43-57 | A global cycle equals one cycle per tenant at the same time, in any order and with repeats; its counters are the sums of theirs. |
| DecayCycle.SecondCycleDoesNothing | app/services/decay_service.py:73-144 | A second cycle at the same time changes nothing and counts (0, 0). |
| DecayCycle.DiscountsAreSpaced | app/services/decay_service.py:106-128 | Over all runs with any clocks a liquidating row stays liquidating, and n discounts take at least n intervals. |
| DecayCycle.OverlappingCyclesAreSpaced | app/services/decay_service.py:113-117 | The same for overlapping cycles in every interleaving: still liquidating, and n discounts take n intervals. |
| DecayCycle.PricesStayInBand | app/services/decay_service.py:118-127 | While variants are not edited every row keeps floor <= price <= selling price. |
| DecayCycle.EditKeepsBandIff | app/services/catalog_service.py:253-264 | An edit keeps that band exactly when the variant's rows are priced within the new one. |
| DecayCycle.EditCanBreakBand | app/services/catalog_service.py:253-264 | A concrete edit that leaves a row above its selling price. |
| DecayCycle.DecayCanRaise | app/services/decay_service.py:118-127 | A run from empty tables in which an edit raises the floor and the next discount takes a row from 500 cents to 600. |
| DecayPrice.RoundHalfUpIsNearest | app/services/decay_service.py:32 | ROUND_HALF_UP is the nearest integer, ties up, and the only one. |
| DecayPrice.StepIsNearestOrFloor | app/services/decay_service.py:26-33 | One step answers the discounted price rounded to the nearest cent where that is above the floor and the floor where it is not, and no other answer fits. |
| DecayPrice.FirstStepOfTheExample | app/schemas.py:148-149 | 4990.00 becomes 4491.00 at 10 percent, above a floor of 2990.00. |
| DecayPrice.DiscountedFacts | app/services/decay_service.py:31-32 | A rounded discount never raises a price and leaves it exactly when it is at most floor(50/d) cents. |
| DecayPrice.DecayMonotone | app/services/decay_service.py:26-33 | The step is monotone in the price. |
| DecayPrice.DecayNeverRaisesIffAtFloor | app/services/decay_service.py:26-33 | It does not raise a price exactly when the price is at or above the floor, and keeps every band above the floor. |
| DecayPrice.ClampEveryStepIsClampOnce | app/services/decay_service.py:33 | Clamping after every step equals clamping once at the end. |
| DecayPrice.DecaySettles | app/services/decay_service.py:26-33 | The iterated price settles at max(floor, min(price, floor(50/d))) within price - limit steps. |
| DecayPrice.LimitIsFloorIff | app/services/decay_service.py:26-33 | It settles at the floor exactly when the price starts there or rounding does not get stuck above it. |
| DecayPrice.StuckAboveTheFloor | app/services/decay_service.py:32 | Five cents at 10 percent with a floor of one cent never move. |
| DecayPrice.DecayGeometricBound | app/services/decay_service.py:31-33 | After n steps the price is at most max(floor, p(1 - d/100)^n + 50/d). |
| DecayPrice.DecayGeometricFloor | app/services/decay_service.py:31-33 | After n steps the price is at least p(1 - d/100)^n - 50/d. |
| DemandLog.WindowBalance | app/services/inventory_service.py:326-345 | With the item's own rows in time order, outgoing less incoming units in the window is what the item held when the window opened less what it holds now. |
| DemandLog.RunWindowBalance | app/services/inventory_service.py:326-345 | This holds on every run that leaves the item's rows in time order, whatever the order of other items' rows. |
| DemandClocks.InterleavedWindowBalance | app/services/inventory_service.py:125-179 | It holds in every interleaving, each call reading its clock under its row lock. |
| DemandClocks.InterleavingIsTimed | app/services/transfer_service.py:120-165 | In every interleaving each item's movements are in time order, and a call that holds a row lock is later than all of that row's. |
| DemandLog.WindowIsSuffix | app/services/inventory_service.py:326-337 | The cutoff then selects the end of the item's movements. |
| DemandLog.OutgoingMeaning | app/services/inventory_service.py:326-345 | Demand is the sum of the item's drops in rows that are the tenant's and not older than the cutoff. |
| Forecast.OutgoingByItem | app/services/inventory_service.py:340-345 | The accumulation loop gives each item on the page the sum of its drops over the fetched rows. |
| Forecast.ReadForecast | app/services/inventory_service.py:293-392 | A page holds the listed rows' suggestions derived from the whole log, however the audit query orders its rows: each with the stored figures, its demand, the nearest average, the least covering order and the right urgency, and none dropped but those `reorder_only` drops. |
| Forecast.JoinDropsNothing | app/services/inventory_service.py:310-320 | On reachable tables the variant join drops no row, so the count taken without it agrees. |
| Forecast.SelectedRowsMeaning | app/services/inventory_service.py:304-320 | Which rows a request selects: the tenant's, of the asked warehouse if any. |
| Forecast.SuggestionMeaning | app/services/inventory_service.py:346-383 | Every figure of a row: stored quantity and threshold, demand, nearest average, least covering order; reorder_now exactly at or below the threshold, watch exactly above it and short. |
| Forecast.SuggestionsMeaning | app/services/inventory_service.py:346-383 | A list has a row for an item exactly when `reorder_only` is off or the item is short, and every row is right. |
| Forecast.RecommendedIsLeast | app/services/inventory_service.py:349-358 | The recommended quantity is the least n with stock + n >= rounded average * lead time + threshold. |
| Forecast.RoundingCostsAtMostOne | app/services/inventory_service.py:349-358 | Rounding the average changes it by at most one for lead times up to 200 days; the router admits 120. |
| Forecast.RecommendedIsMonotone | app/services/inventory_service.py:352-358 | More demand, lead time or threshold, or less stock, never lowers it. |
| Forecast.OrderingSettles | app/services/inventory_service.py:355-358 | Each unit received lowers it by one down to 0. |
| Forecast.UrgencyMeaning | app/services/inventory_service.py:359-367 | Urgency is reorder_now exactly at or below the threshold, watch exactly above it and short of the lead time's demand, none otherwise; reorder_only keeps exactly the first two. |
| Forecast.ForecastPagesMakeTheWhole | app/services/inventory_service.py:304-386 | The pages of a walk, short or empty as they may be and each with a cutoff of its own, concatenate to the forecast of all rows when no audit row lies between the cutoffs. |
| Forecast.ReorderOnlyDropsTheRest | app/services/inventory_service.py:366-367 | reorder_only drops exactly the rows without urgency from any list. |
| Paging.PageMeaning | app/services/transfer_service.py:210-226 | What data, has_more, next_cursor and total_count of a page are. |
| Paging.WalkListsAll | app/services/transfer_service.py:198-226 | Following next_cursor ends and lists every matching row once in id order. |
| Paging.WalkIsShort | app/services/procurement_service.py:264-296 | It takes as few pages as the limit allows. |
| Paging.WalkIsCompleteIff | app/services/inventory_service.py:243-290 | The walk is complete exactly when the limit is positive or nothing matches. |
| Paging.TotalCountsTheRest | app/services/catalog_service.py:128-150 | total_count is the length of the rest of the walk, and that of the whole listing exactly when the cursor precedes every row. |
| Paging.TotalIsNotTheWhole | app/services/transfer_service.py:210-226 | A page of a two-row table whose total_count is one. |
| Paging.TrailNeverRepeats | app/services/transfer_service.py:198-226 | With rows changing between pages nothing is listed twice and ids rise. |
| Paging.TrailListsWhatWasThere | app/services/inventory_service.py:243-290 | Whatever is listed matched when its page was read. |
| Paging.TrailMissesNothing | app/services/inventory_service.py:243-290 | A row that matches throughout is listed once the walk ends. |
| Paging.StillTrailIsWalk | app/services/procurement_service.py:264-296 | On rows that stand still the two notions of a walk agree page by page. |
| ProductPages.Group | app/services/catalog_service.py:358-360 | The grouping loop gives each product its variants in SKU order. |
| ProductPages.VariantsOfMeaning | app/services/catalog_service.py:345-360 | Selecting for products keeps exactly their rows, as often as they come and in their order. |
| ProductPages.ListProducts | app/services/catalog_service.py:310-371 | Each product on the page comes with exactly its variants. |
| ProductPages.PagesShowEveryVariant | app/services/catalog_service.py:310-371 | The variants shown over all pages are, as a multiset, exactly those stored for the listed products. |
| Reservations.ReservationStore.ReservedQuantity | app/services/inventory_service.py:395-402 | The scan loop's total, never less than what is reserved. |
| Reservations.ScanNeverUndercounts | app/services/inventory_service.py:395-402 | The total is exact if and only if no live key is returned twice. |
| Reservations.ReservationStore.ReserveStock | app/services/inventory_service.py:421-456 | One call alone: grant or refuse as specified, and a grant keeps reserved units within stock. |
| Reservations.ReservationPromise | app/services/inventory_service.py:434-456 | A call is granted if and only if what it counts leaves enough; the reservation holds its units until its time to live has passed, and nothing else changes. |
| Reservations.ReservationsStayBounded | app/services/inventory_service.py:421-456 | When every granted call holds its lock then, live reservations never exceed stock plus the units debited since the last grant read the row, under any mix of calls, lock and key expiries, credits and debits. |
| Reservations.StaysBoundedIff | app/services/inventory_service.py:416-456 | If no further lock expires, every continuation stays bounded if and only if every call that has lost its lock is past its stock read and going to be refused. |
| Reservations.LostLockCanBreak | app/services/inventory_service.py:416-456 | Any other call that has lost its lock has a continuation that breaks the bound, without a debit and without a further expiry. |
| Reservations.StaysWithinStockIff | app/services/inventory_service.py:421-456 | While nothing is debited, nor was since the lock's holder read the row, and no further lock expires, live reservations stay within stock in every continuation if and only if every call that has lost its lock is going to be refused. |
| Reservations.DebitCanBreakStock | app/services/transfer_service.py:132-141 | From every state one debited unit can leave fewer units on hand than are reserved. |
| Reservations.DebitLeavesTooFew | app/services/transfer_service.py:132-141 | A run that ends with five units reserved and none on hand. |
| Reservations.UndisturbedCall | app/services/inventory_service.py:421-456 | The steps of one call run without interruption are the call alone. |
| Reservations.ExpiredLockBreaksTheBound | app/services/inventory_service.py:416-421 | A concrete run in which an expired lock lets 10 of 5 units be reserved. |
| EmailDelivery.EmailWorker.SendOnce | app/tasks/email_task.py:38-106 | One attempt: count, call, mark, with each way it can fail. |
| EmailDelivery.EmailWorker.Send | app/tasks/email_task.py:23-35 | The retry loop; at most four calls. |
| EmailDelivery.OneTaskAlone | app/tasks/email_task.py:29-35 | One task alone counts every call, never calls for a sent job, and ends as sent exactly when its last attempt did. |
| EmailDelivery.AttemptMeaning | app/tasks/email_task.py:61-104 | What one attempt leaves in the job row, field by field. |
| EmailDelivery.FailingTaskCallsFourTimes | app/tasks/email_task.py:23-35 | A task whose attempts all fail calls four times and gives up. |
| EmailDelivery.OneTaskDeliversOnce | app/tasks/email_task.py:66-104 | It delivers at most once unless a delivered attempt fails to mark its job. |
| EmailDelivery.DeliveryIsAccounted | app/tasks/email_task.py:41-104 | With any number of tasks and crashes: calls never exceed retry_count nor four per task, and a sent job had a successful call. |
| EmailDelivery.QuietAfterSentIff | app/tasks/email_task.py:49-104 | No continuation without an enqueue error calls the provider after a job is sent if and only if each task has not begun or is about to mark success. |
| EmailDelivery.StaysSentIff | app/tasks/email_task.py:66-104 | Without an enqueue error a sent job stays sent in every continuation if and only if each task has not begun or is about to mark success. |
| EmailDelivery.QuietWithoutDispatchIff | app/services/email_job_service.py:49-58 | With enqueue errors and no further dispatch, no continuation calls the provider if and only if no task has an attempt left. |
| EmailDelivery.OneTaskIsQuietUnderAnyError | app/tasks/email_task.py:49-64 | With one dispatched task nothing is called after the job is sent, under any events, enqueue errors included. |
| EmailDelivery.OneTaskIsQuietAfterSent | app/tasks/email_task.py:49-64 | With one task and no enqueue error the job also stays sent, whatever is dispatched later. |
| EmailDelivery.TwoTasksCanReopen | app/tasks/email_task.py:73-90 | A run from a freshly queued job: two tasks are dispatched, one marks it sent, the other calls again and leaves it failed. |
| EmailDelivery.AttemptIsSteps | app/tasks/email_task.py:38-106 | The steps of one attempt run without interruption are the attempt alone. |

## Left out

- Catalogue creation: variants, warehouses and suppliers exist from the start of a run; edits and deactivations are calls.
- Catalogue edits during interleaved runs: the activity checks are unlocked reads, so `Interleaving` keeps the catalogue fixed.
- Settings: one set of decay settings for a whole run.
- Uuids: a fresh uuid is taken to be fresh; the id column of the inventory table is a parameter of the forecast.
- last_sold_at: no service writes it; a `Sold` call stands for whatever does.
- Locks beyond rows and unique keys: foreign-key share locks, index waits and the planner's lock order are not modelled.
- Decay row selection: each phase takes rows one by one with SKIP LOCKED instead of from one SELECT snapshot.
- The acting user of decay audit rows is a parameter (the code takes the first active user the query returns).
- E-mails queued after a commit (low stock, transfers, orders, decay): they follow the transaction and change no stock row.
- Fields that no decision reads: notes, SKUs, barcodes, cost prices, names, note texts and most error messages.
- Integer columns are unbounded and Decimal quotients exact; the 28-digit context and 32-bit columns are not modelled.
- Redis: SCAN's guarantee (every key present throughout is returned) is assumed; the lock's 10-second timeout is an event, not a clock.
- Providers and Celery: a provider call returns or raises; a lost broker answer is an event; retry delays are not timed.
- Filters of the list endpoints other than the forecast's: a listing starts from the set of ids that pass them.
- list_audit_logs: it orders by time but compares ids, so the cursor walk says nothing about it.
- _discount_pct and row serialisation, RBAC, tokens, password and session handling, routers, migrations, frontend: easy or unrelated members.
- Clocks: a call has one clock reading for all its rows; the row's created_at of a new transfer is really read a moment before the row lock, and a decay row's a moment after the cycle's `now`.
