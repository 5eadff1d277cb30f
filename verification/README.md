# Inventory ledger, valuation and the journals that must agree with it

A Dafny model of the stock and accounting core of a multi-tenant ERP, with proofs about it. One movement
changes several linked stores at once: location, lot and bin balances, FIFO cost layers, a moving average,
a movement ledger and an issue-cost trail. The general ledger posts the same values a second time. The
project proves what stays true across all of those over every run, and, where the code does not keep a
promise, exactly when it does.

`dafny verify dfyconfig.toml` checks everything.

## How it is laid out

Each component has a layer of specification functions over plain values, lemmas about those functions, and,
where the code updates rows in place, a class whose methods are proved to compute those functions.

| files | what they model |
|---|---|
| `Rounding`, `Records`, `Tables`, `Queues`, `Ordering`, `Numerals` | decimal rounding, the rows, balance tables keyed by identity, queues written out unit by unit, stable sorting, ids as text |
| `Fifo`, `Ledger`, `Holds`, `Runs` | layer relief, one movement as a transition, reservations as transitions, runs of operations |
| `Movements` | one movement told from the tables before and after it: when it is accepted, what it comes in or goes out at, the row, layer and trail it adds |
| `AverageCosting`, `StandardCosting`, `FifoCosting`, `LotTrail`, `FifoStrict`, `Serials`, `Reservations` | theorems over runs |
| `Plans`, `Locking`, `Deadlocks`, `DeadlockCondition` | concurrent transactions: what a movement works out before its commit, any interleaving of them, what waiting for each other leads to, and which transactions can come to it |
| `Stockroom`, `Fefo`, `SerialLookup` | the services as they run, loop by loop |
| `Journals`, `Posters`, `EntryAccounts`, `LandedCosts`, `GeneralLedger` | journal entries, what each poster builds, what that comes to on each account counted from the document's lines, clearing landed cost, the posters as they run |
| `Invoices`, `StockAndBooks`, `InvoiceRows`, `Cancellation`, `ControlAccount`, `SharedReferences`, `InvoiceDesk` | invoices moving stock and books together |
| `CycleCount`, `CatchUpRun`, `CycleCountRuns` | the cycle-count catch-up, as it runs, and among everything else that happens to stock and ledger |
| `OrderChains`, `LineBackfill`, `BackfillRun` | the purchase-order line identity backfill |
| `Statements` | the customer statement |

## Conventions

- **Numbers.** Quantities are integers counting 1/100, unit costs count 1/10000, so a product of the two
  counts 1/1000000 and ledger values count cents. Journal amounts are exact while an entry is built (1/100000000,
  which holds a quantity times a price times two percentages' worth of decimals) and cents once stored. Inputs are assumed to fit the precision of their columns
  (core/models.py:1146-1150, 1256-1259), so Python's 28-digit context never rounds on its own.
- **Rounding.** `RoundHalfUp` sends ties away from zero in both signs, as `ROUND_HALF_UP` does; `Cents` is the
  same rounding by a divisor of one cent. Where the database rounds a journal line to its column, the theorems hold for half-to-even and half-up storage alike.
- **Transactions.** A movement is all-or-nothing. `@transaction.atomic` sits on `_guard_serial_movement`
  (core/services/inventory.py:95), not on `apply_movement` (line 136), and the strict-mode refusals at lines
  189-195 and 206-211 come after `bal.save()` at line 176; that a refusal leaves no trace is the caller's
  transaction at work, and the class methods undo what they had written exactly there.
- **The supplier invoice is not gated.** `@_posting` sits on `supplier_invoice_match_errors`
  (core/services/gl.py:211), not on `post_supplier_invoice` (line 230). Its balance is therefore proved, not
  assumed from a run-time check.
- **Scope.** One tenant. A product's cost method, serial tracking and standard cost, and the tenant's
  strict-mode flag, are fixed over a run. Receipt times are inputs, in any order; the layer table is kept in
  (received_at, id) order, the order every query asks for.
- **Induction.** Every lemma switches automatic induction off, so each proof is the one written.

## Where code and documentation part

Each of these has a lemma at a concrete input and the condition under which the promise does hold.

- A serial is documented as one physical unit, with on-hand 0 or 1. The guard looks at one location only, so
  one serial can be received at two (`SameSerialAtTwoLocations`); a receipt leaves one unit company-wide
  exactly when no other location held it (`OneUnitCompanyWideIff`).
- The moving average leaves the range of its inputs when it absorbs a receipt over negative stock: one
  received at 10.00, ten issued and ten received at 5.00 leave it at -40.00 (`ShortfallDrivesAverageNegative`);
  when it stays between is `NewAverageBetweenIff`.
- Expiring stale reservations releases every active row of a ref that has one stale row
  (`FreshRowExpiresWithItsRef`); fresh rows are spared exactly when no ref mixes ages
  (`ExpireSparesFreshRowsIff`).
- Strict mode does not keep FIFO issues within their layers when issues that name a lot and issues that name
  none are mixed (`MixedIssuesFallShort`). A run never falls short exactly when each issue it accepts is
  covered by the tables as it finds them (`NeverShortIff`); issues that name no lot always are
  (`StrictUntaggedIsCovered`), and so are all issues when every movement names a lot.
- `_post_invoice_cogs` is documented as idempotent. Its guard is the COGS entry, and goods that cost nothing
  post none, so called twice it relieves stock twice (`ZeroCostCogsRelievesTwice`, `SecondCogsIsNoopIff`).
  Through `post_customer_invoice`, its only caller, re-issuing never double-counts
  (`ReissueNeverDoubleCounts`).
- The product lock is documented as making concurrent movements serialise. It is held to the end of the caller's
  transaction, so two invoices whose lines meet two products in opposite orders can wait for each other for ever
  (`TwoInvoicesDeadlock`; `CrossedOrdersDeadlock` wherever two orders cross). Which transactions can deadlock from
  which tables is told exactly by `DeadlockIff`; those that meet their products in one common order never do
  (`NoDeadlockInCommonOrder`), nor do those whose first movements are all of one product
  (`OneFirstProductNoDeadlock`).
- Invoices move stock and the control account together only while goods do not cost less than nothing. A product
  whose average has gone negative raises stock when it is sold, and its COGS, not being positive, is not posted
  (`NegativeCostsPart`). What is missing is exactly what was sold unbooked (`ControlAccountExactWithoutFifo`), and
  nothing is while each shipment's cost is not negative (`SoldAtCostIsBooked`).
- A COGS entry is found by its reference alone, and sales orders (core/views.py:3797) and synced channel orders
  (core/services/sync_shopify.py:78) post theirs under the same kind. An invoice numbered like one of them, and a
  number may be typed freely (core/forms.py:705), ships nothing when it is issued and undoes the order's entry when
  it is cancelled (`SharedReferenceParts`). Issuing and cancelling a new invoice leaves Inventory where it was exactly
  when no entry of any value stood under its number (`IssueThenCancelIff`), and while invoice numbers are no other
  sale's references the control account follows stock (`ControlAccountFollowsStock`).
- GRNI is documented as cleared by billing. Each bill debits the whole received value: two bills for the
  halves of a receipt over-clear it by its value (`TwoBillsOverClearGrni`), and it nets to zero only when
  exactly one invoice bills the receipt (`GrniSettledIff`).
- Clearing of landed cost is documented as never exceeding what was accrued. It does when landed cost is
  reduced after a bill cleared it (`ReducedChargeOverClears`); exactly when is `LandedOverClearedIff`.
- A goods receipt with a negative landed value does not balance (`NegativeLandedCostUnbalances`); it balances
  exactly when the negative amounts it leaves out cancel (`InventoryReceiptBalancesIff`).
- The catch-up takes a cycle count without an entry for one that never posted, but a count whose variances come to
  nothing posts none either (core/services/gl.py:690-692). When one of those variances is in no lot, ledger and
  stock agree before the catch-up and not after it (`CancellingCountParts`); by how much a catch-up moves them
  apart, count by count, is `CatchUpMovesGap`. An entry posted only after the catch-up comes on top of it
  (`LatePostingAddsUp`, `CorrectedForGoodIff`); the view posts it with the movements
  (core/views.py:4374-4405).
- The chain walk is documented as finding the original order. It stops on any `supersedes` map, but two orders
  that supersede each other are each their own root (`CycleSplitsItsOrders`); when an amendment keeps the root
  is `AmendmentKeepsRootIff`.

## Model

| member | source | states |
|---|---|---|
| Rounding.RoundsToNearest | core/services/inventory.py:237-238 | The quantised value is the nearest integer, and a tie goes away from zero. |
| Rounding.NearestIsUnique | core/services/inventory.py:237-238 | Those bounds leave one candidate, so they fix the rounding. |
| Rounding.CentsAreRoundedHalfUp | core/services/inventory.py:250-268 | Rounding a value to cents is that rounding by a divisor of one cent. |
| Rounding.RoundStaysBetween | core/services/inventory.py:237-238 | Rounding a quotient never leaves an interval with integer end points. |
| Rounding.RoundIsOdd | core/services/inventory.py:250-268 | Rounding is symmetric in sign, so an issue and its return round alike. |
| Fifo.InsertKeepsOrder | core/services/inventory.py:242-248 | A new layer takes its place in (received_at, id) order and no layer is lost or altered. |
| Fifo.RelievePopsFromFront | core/services/inventory.py:49-70 | The layer walk takes exactly the front units of the queue of matching units, leaves exactly the rest, and reports as uncovered only what the queue lacks. |
| Fifo.RelieveCostsThePoppedUnits | core/services/inventory.py:49-70 | The cost returned is that of popping units one at a time, each unit past the end at the fallback cost. |
| Fifo.RelieveDrainsInOrder | core/services/inventory.py:57-65 | When a layer is touched, every earlier matching layer is empty. |
| Fifo.RelieveTouchesOnlyScope | core/services/inventory.py:52-63 | Only qty_remaining of matching layers changes, only downwards, never below zero; other locations and lots are untouched. |
| Fifo.RelieveSplitsQuantity | core/services/inventory.py:49-70 | Takes plus shortfall are the quantity asked for, and the shortfall is what the matching layers lack. |
| Fifo.RelieveConserves | core/services/inventory.py:57-65 | Any wider scope loses exactly the quantity and the cost taken. |
| Fifo.RelieveSparesOthers | core/services/inventory.py:52-56 | A disjoint location or lot loses neither quantity nor value. |
| Stockroom.Service.ConsumeFifoLayers | core/services/inventory.py:38-70 | The in-place loop leaves the relieved layers, returns the takes in order and their cost, which is the cost of popping unit by unit. |
| Stockroom.Service.GuardSerialMovement | core/services/inventory.py:95-133 | While serials are exclusive, the guard lets a movement of a tracked product through exactly when it names a serial and booking it leaves every serial exclusive; other products always pass. |
| Stockroom.Service.MoveBalances | core/services/inventory.py:160-213 | Location, lot and bin balances move by the quantity, or none of them does and the first refusal is reported. |
| Stockroom.Service.ValueMovement | core/services/inventory.py:215-268 | Unit cost, value, new average, new layers and takes for each cost method and direction, as the `Movements` rows pin them. |
| Stockroom.Service.RecordIssueCosts | core/services/inventory.py:289-298 | One trail row per take, in order, each rounded to cents. |
| Stockroom.Service.ApplyMovement | core/services/inventory.py:136-299 | The whole movement: every store moves as the transition says and the new ledger row is returned, or nothing changes and the problem is; what the transition is, the `Movements` rows tell from the tables alone. |
| Movements.AcceptedIff | core/services/inventory.py:150-211 | A movement is accepted exactly when its product exists, its serial, where tracked, allows it, and, in strict mode alone, location, lot and bin hold what it takes; a tenant not in strict mode is never refused for short stock. |
| Movements.RefusedFor | core/services/inventory.py:154-211 | The problem reported is the first that applies: product, serial, location, lot, bin. |
| Movements.ReceiptComesInAt | core/services/inventory.py:230-250 | A FIFO or AVERAGE receipt adds one ledger row at the cost it states, else at the average as it stood, valued at quantity times that to the nearest cent; a FIFO product gains exactly one layer, of that quantity, cost, place, tag, time and reference; the average becomes the weighted mean only where a cost was stated and stock ends above zero. |
| Movements.StandardReceiptComesInAt | core/services/inventory.py:221-229 | A STANDARD receipt comes in at the standard whatever it states, and the average shows it. |
| Movements.IssueGoesOutAt | core/services/inventory.py:251-268 | An AVERAGE issue goes out at the average, a STANDARD one at the standard or, where that is zero, the average; layers and average stay. |
| Movements.FifoIssueGoesOutAt | core/services/inventory.py:257-265 | A FIFO issue takes the front units of its lot's layers, or naming no lot of the location's, those lacking at the average; its value is what they cost to the nearest cent and its unit cost their mean. |
| Movements.FifoIssueTrail | core/services/inventory.py:289-298 | Its trail rows name those units in order and what was short at the average, each row worth its quantity times its cost to the nearest cent. |
| Stockroom.Service.ReserveStock | core/services/inventory.py:302-339 | The reservation transition, which `ReserveHolds` tells for every tenant and quantity, the refusal of more than is available to promise included. |
| Stockroom.Service.Unhold | core/services/inventory.py:341-357 | The held quantity is given back on each balance row that exists. |
| Stockroom.Service.ReleaseReservations | core/services/inventory.py:360-369 | The loop computes the release transition. |
| Stockroom.Service.ConsumeReservations | core/services/inventory.py:372-413 | The loop computes the consumption transition over the rows selected at the start and returns its total. |
| Stockroom.Service.ExpireStaleReservations | core/services/inventory.py:416-432 | The loop computes the expiry transition and returns the number of rows released. |
| Tables.PostChangesOneKey | core/services/inventory.py:160-198 | Posting to a balance changes that key alone, creating its row at zero if it was missing. |
| Tables.PostChangesSum | core/services/inventory.py:14-16 | An on-hand total changes by the quantity posted when the key is counted in it, and otherwise not at all. |
| Runs.OnlyMovementsMoveStock | core/services/inventory.py:302-432 | Reservation operations and refused movements leave stock, layers, averages, ledger and trail alone; an accepted movement books its own costing. |
| Runs.LedgerAlwaysAgrees | core/services/inventory.py:156-213 | In every reachable state each company-wide, location, tagged-lot and bin balance is the sum of its ledger movements. |
| Runs.StrictModeNeverNegative | core/services/inventory.py:167-172 | In strict mode no location, lot or bin balance that starts non-negative ever goes negative. |
| Runs.HoldsAlwaysAgree | core/services/inventory.py:302-432 | Over any run of reserve, release, consume, expire and move, reserved on each balance and lot is the sum of its active reservations, all positive. |
| Runs.StrictRefusesExactly | core/services/inventory.py:165-211 | From a non-negative state strict mode refuses a movement exactly when booking it would leave a location, lot or bin balance negative. |
| Reservations.StrictHoldsAreAvailable | core/services/inventory.py:311-323 | In strict mode a hold is granted exactly when it is available to promise, after which no more is held than is on hand. |
| Reservations.ReserveHolds | core/services/inventory.py:302-339 | For every tenant a positive quantity is held exactly when strict mode is off or it is within on hand less reserved; then reserved rises by it at that place, and at its lot where tagged, nowhere else, the ref holds that much more, and one active row is added; no other quantity changes anything. |
| Holds.ReserveKeepsAgreement | core/services/inventory.py:322-339 | Reserving keeps balances and reservations in agreement. |
| Holds.ReleaseFromRows | core/services/inventory.py:360-369 | Releasing a ref changes the status of exactly its active rows, keeps agreement and every ref's total. |
| Holds.ConsumeFromKeepsAgreement | core/services/inventory.py:391-412 | Consuming keeps agreement and conserves every total through the split of a row. |
| Holds.ConsumeFromPopsFront | core/services/inventory.py:387-412 | Consumption pops units off the front of the ref's queue of held units, in row order. |
| Reservations.ConsumeTakesOldestFirst | core/services/inventory.py:372-413 | The total returned is the smaller of the quantity and the ref's active total, taken oldest first, with nothing lost in splits. |
| Reservations.ConsumeMarksConsumed | core/services/inventory.py:391-412 | What is consumed of a ref is marked consumed, to the quantity returned, a split row keeping the rest active; nothing is released and no other ref's row changes. |
| Reservations.UnholdGivesBack | core/services/inventory.py:341-357 | Giving back lowers reserved on the place's and the lot's row, where they exist, and makes none. |
| Reservations.ReleaseMarksTheRef | core/services/inventory.py:360-369 | Releasing a ref frees exactly that ref's active rows and nothing else. |
| Reservations.ExpireReleasesWholeRefs | core/services/inventory.py:416-432 | Expiry releases every active row of each ref that has a stale one and nothing else, and counts them. |
| Reservations.ExpireSparesFreshRowsIff | core/services/inventory.py:416-432 | Fresh rows survive expiry exactly when no ref holds both a stale and a fresh active row. |
| Reservations.FreshRowExpiresWithItsRef | core/services/inventory.py:421-431 | A concrete ref whose fresh row is released along with its stale one. |
| Serials.SerialsStayExclusive | core/services/inventory.py:95-133 | In every reachable state, whatever the strict-mode flag, a tracked serial's stock at a location and each of its rows lie between zero and one unit. |
| Serials.GuardRefusesExactly | core/services/inventory.py:108-133 | The guard lets a movement of a tracked product through exactly when it names a serial and leaves every serial exclusive. |
| Serials.SerialIsThereOrNot | core/services/inventory.py:100-102 | With whole-unit movements that stock is exactly 0 or 1. |
| Serials.OneUnitCompanyWideIff | core/services/inventory.py:113-122 | An accepted whole-unit receipt leaves one unit company-wide exactly when no other location held the serial. |
| Serials.SameSerialAtTwoLocations | core/services/inventory.py:116-122 | Two accepted receipts of one serial at two locations. |
| AverageCosting.AverageTracksLedger | core/services/inventory.py:215-268 | From any state, over any run, ledger value less stock at average changes by exactly what receipts into negative stock failed to bring in, within half a cent per movement and half an average step per unit in stock after a costed receipt. |
| AverageCosting.LedgerValueIsStockAtAverage | core/services/inventory.py:230-268 | When every costed receipt leaves stock above zero the ledger value is stock times average, within that rounding. |
| AverageCosting.AverageStaysInRange | core/services/inventory.py:156-158 | With stock never negative and receipts costed, the average lies between the least and greatest receipt cost so far, rounding included. |
| AverageCosting.StrictRunsAreCovered | core/services/inventory.py:167-172 | In strict mode costed receipts alone give that premise. |
| AverageCosting.NewAverageBetweenIff | core/services/inventory.py:234-239 | A receipt leaves the average between the old one and its cost exactly when prior stock is not negative or the revalued shortfall rounds away. |
| AverageCosting.ShortfallDrivesAverageNegative | core/services/inventory.py:237-238 | A run that receives one at 10.00, issues ten and receives ten at 5.00 ends with an average of -40.00. |
| StandardCosting.StandardTracksLedger | core/services/inventory.py:221-256 | Over any run of a STANDARD product the ledger value is stock at standard cost within half a cent per movement, whatever prices receipts quote, and the average shown is the standard once anything was received. |
| FifoCosting.LayersEqualStockPlusShortfall | core/services/inventory.py:52-70 | In every reachable state the layers left at a location hold its stock plus all shortfall ever recorded; ids are unique, the queue is in order and no layer is negative. |
| FifoCosting.LedgerValueIsLayerWorth | core/services/inventory.py:240-265 | In every reachable state the ledger value at a location is the worth of its layers less the shortfall cost, within half a cent per movement. |
| FifoCosting.IssueTrailMatchesValue | core/services/inventory.py:257-298 | The rows of one issue total its value within half a cent per row and half a cent for the movement. |
| FifoCosting.TrailAlwaysAccounts | core/services/inventory.py:289-298 | In every reachable state what left each layer is what the trail says was issued from it. |
| FifoStrict.ShortfallOfIssue | core/services/inventory.py:66-69 | An issue falls short by exactly what the layers it may draw on lack. |
| FifoStrict.UntaggedIssuesNeverFallShort | core/services/inventory.py:52-70 | In strict mode with untagged issues nothing ever falls short and the layers hold what is on hand. |
| FifoStrict.LotLayersEqualLotStockPlusShortfall | core/services/inventory.py:55-70 | With all movements tagged each lot's layers hold its stock plus its shortfall, strict or not. |
| LotTrail.LotLayersAreTraced | core/services/inventory.py:52-70 | In every reachable state, however tagged and untagged movements mix, each lot's layers hold its stock plus its shortfall less what issues naming no lot drew from them, as the trail tells. |
| LotTrail.ShortfallFromTrail | core/services/inventory.py:66-69 | In such a state an issue falls short by what it takes beyond that, or naming no lot, beyond the location's stock and shortfall. |
| LotTrail.StrictShortfallWithinDraws | core/services/inventory.py:178-198 | In strict mode a lot's shortfall never exceeds what issues naming no lot drew from its layers. |
| LotTrail.NeverShortIff | core/services/inventory.py:49-70 | A run records no shortfall exactly when every issue it accepted was covered: by its lot's stock less what was drawn from its layers, or naming no lot, by the location's stock. |
| FifoStrict.TaggedIssuesNeverFallShort | core/services/inventory.py:178-198 | In strict mode with all movements tagged nothing falls short and each lot's layers hold what the lot has on hand. |
| FifoStrict.MixedIssuesFallShort | core/services/inventory.py:52-56 | A strict-mode run, every movement of it accepted, after which an accepted issue of a lot's stock on hand finds no layer. |
| Plans.CurrentPlanCommitsToTheMovement | core/services/inventory.py:136-299 | A plan made on a product's current rows, merged into the tables at commit, is the movement itself, layers and issue-cost trail included. |
| Plans.OtherProductLeavesRows | core/services/inventory.py:146-213 | A movement of one product changes nothing that a movement of another reads. |
| Plans.SameMovementKeepsSame | core/services/inventory.py:136-299 | Tables alike in a movement's product, layers up to their ids, accept it alike and stay alike, whatever else differs between them. |
| Locking.AnyScheduleIsSerial | core/services/gl.py:138-154 | Transactions of any number of movements, each locking the products it meets one by one and holding them to its end: at every point of any interleaving the committed tables are those of running the transactions that are done one by one, in the order they finished, each once and each whole or, when a movement is refused, not at all. |
| Locking.FinishedRunsAreSerial | core/services/gl.py:138-154 | When all are done, the result is running each transaction exactly once in the order they finished. |
| Deadlocks.StuckIff | core/services/inventory.py:146-150 | No transaction can take a step exactly when each one not done waits for a product that another one not done holds. |
| Deadlocks.StuckMeansRing | core/services/inventory.py:146-150 | When that happens before all are done, some of them wait for each other in a ring. |
| Deadlocks.RingNeverMoves | core/services/inventory.py:146-150 | Transactions that wait for each other in a ring never move again, whatever the others do. |
| Deadlocks.NoDeadlockInCommonOrder | core/services/gl.py:138-154 | When all transactions meet their products in one common order, some transaction can move until all are done, and every interleaving can be played on to that end. |
| DeadlockCondition.DeadlockIff | core/services/gl.py:138-154 | Some interleaving of given transactions deadlocks, all of them or some, exactly when these can be found for the tables they start from: transactions to run first, one by one, not all of them; and on the tables they leave, an accepted beginning of each of the others, no two of a common product, after which each wants a product that another of them has moved. |
| DeadlockCondition.CrossedOrdersDeadlock | core/services/gl.py:138-154 | Two transactions, whatever others there are, that after accepted beginnings of no common product each want a product of the other's beginning have an interleaving after which neither ever moves again. |
| DeadlockCondition.OneFirstProductNoDeadlock | core/services/gl.py:138-154 | Transactions whose first movements are all of one product never deadlock, whatever order the rest is in. |
| DeadlockCondition.TwoInvoicesDeadlock | core/services/gl.py:138-154 | Two invoices with the same two lines in opposite orders have an interleaving in which neither ever ships its second line. |
| DeadlockCondition.ShipIsATransaction | core/services/gl.py:138-154 | Shipping an invoice is the transaction of its product lines' movements, refusals included. |
| Locking.UnlockedAverageIsLost | core/services/inventory.py:146-149 | Two receipts taken through the model's plan and commit steps on reads made before either wrote: the first one's effect on the average is lost, which a fresh read keeps. |
| Fefo.SelectFefoLots | core/services/inventory.py:73-92 | For every date the picks take from lots expiring by then as much as quantity and stock allow; overall the quantity or all there is, undated lots last, never more than a lot holds. |
| Fefo.PicksAreOptimal | core/services/inventory.py:86-91 | Greedy picking in expiry order is optimal at every cutoff at once. |
| Fefo.FefoPicksPromise | core/services/inventory.py:83-92 | The same promise stated from the lot table itself, order and filter included. |
| Fefo.PickInOrder | core/services/inventory.py:86-92 | The loop computes the greedy picks. |
| SerialLookup.AvailableSerials | core/services/inventory.py:476-559 | The listings are the rows to show, in order, each with the cost and source the one-serial lookups give. |
| SerialLookup.ShownIsFirstOfAvailable | core/services/inventory.py:492-512 | The rows shown are available rows that match, search included, in SKU and serial order, and none left out by the limit comes before one of them. |
| SerialLookup.LimitedAreFirst | core/services/inventory.py:510-512 | They are as many as there are or the limit allows, a limit of zero being none. |
| SerialLookup.PricePage | core/services/inventory.py:524-558 | The same for any page of rows with serials: one pass over the layers prices each as the simple lookup would. |
| SerialLookup.BuildIndexes | core/services/inventory.py:533-542 | The pass leaves, for every key, the value and quantity remaining and the first layer of the serial. |
| SerialLookup.BatchAgreesWithSimple | core/services/inventory.py:450-473 | The batched unit cost of a row equals the unit cost looked up alone for that exact key. |
| SerialLookup.FetchKeepsPageLayers | core/services/inventory.py:524-532 | Restricting the query to the page's products, locations and serials loses no layer of a row on it. |
| SerialLookup.SourceIsEarliest | core/services/inventory.py:534-536 | The source is the earliest layer of that serial at that location, if there is one. |
| SerialLookup.PageIsTheAvailableRows | core/services/inventory.py:492-507 | The page holds exactly the rows with unreserved stock, a serial, a sellable location and the filters met. |
| Journals.RoundHalfEven | core/models.py:2292-2298 | Nearest cent, ties to even: one of the two ways a database stores an amount. |
| Journals.HalfAwayIsRoundedHalfUp | core/services/inventory.py:237-238 | The other way, half away from zero, is the rounding of the inventory services. |
| Journals.StoringMovesBalance | core/models.py:2292-2298 | Storing an entry in cents moves its balance by at most half a cent a line. |
| Journals.StoredImbalance | core/models.py:2292-2298 | An exactly balanced entry of n lines is out by at most n / 2 cents once stored. |
| Journals.ReversalUndoes | core/services/gl.py:186-188 | Swapping debit and credit undoes an entry account by account. |
| Posters.CustomerInvoiceBalances | core/services/gl.py:86-96 | The invoice's lines, discounts and tax included, balance exactly; stored, they are out by at most a cent. |
| EntryAccounts.LineNetIs | core/models.py:1848-1858 | A line's net is quantity times price less that percentage of it to the nearest cent, ties to the even one: one value, that product without a discount, and never above it for a non-negative percentage. |
| EntryAccounts.CustomerInvoicePosts | core/services/gl.py:86-96 | The entry debits Receivable with the nets and taxes of the lines, credits Sales with the nets and VAT Output with each net at its rate, and touches no other account; stored, each is within half a cent. |
| EntryAccounts.IssuedInvoicePosts | core/services/gl.py:66-96 | That is the entry an issued invoice has under its number and on its date, every line counted. |
| Posters.SupplierInvoiceBalances | core/services/gl.py:245-314 | The ungated entry balances exactly whatever was received and landed; stored, it is out by at most two cents. |
| EntryAccounts.SupplierInvoicePosts | core/services/gl.py:245-314 | The entry credits Payable with the lines, their taxes and the landed cost cleared, and debits VAT Input with the taxes, GRNI with the value received, PriceVariance with billed less received and Accruals with the landed cost; no other account. |
| Posters.InventoryReceiptBalancesIff | core/services/gl.py:404-428 | The entry balances exactly when the negative amounts it leaves out cancel, in particular when none is negative. |
| EntryAccounts.InventoryReceiptPosts | core/services/gl.py:404-428 | Inventory is debited with its value, GRNI credited with the goods, Accruals with the landed cost, each where positive, and PriceVariance takes goods and landed less inventory, on either side. |
| Posters.NegativeLandedCostUnbalances | core/services/gl.py:416-428 | A receipt with a landed credit whose entry does not balance. |
| Posters.GroupingConserves | core/services/gl.py:500-505 | Grouping by account loses nothing, overall or account by account. |
| Posters.CreditNoteBalances | core/services/gl.py:500-518 | A sales or purchase credit note balances exactly through its grouping. |
| EntryAccounts.CreditNotePosts | core/services/gl.py:500-518 | Each line goes to its own account, else to Sales or Inventory, a sales credit debiting and a purchase credit crediting it; tax and total go to VAT Output and Receivable, or VAT Input and Payable, on the side that reverses the document credited. |
| Posters.TrialBalanceHolds | core/services/gl.py:10-38 | Over any run of postings total debits equal total credits, within two cents per ungated supplier invoice. |
| Posters.SupplierInvoiceGrni | core/services/gl.py:294-301 | A supplier invoice debits GRNI with the full received value, or its subtotal when no receipt is linked. |
| Posters.GrniSettledIff | core/services/gl.py:294-301 | Over the invoices billed against one receipt GRNI is left at the received value times one less their number: settled exactly by one invoice, or when nothing of value was received. |
| Posters.TwoBillsOverClearGrni | core/services/gl.py:294-301 | Two bills for the halves of one receipt leave GRNI over-cleared by its value. |
| LandedCosts.ClearedIsHighWater | core/services/gl.py:252-270 | Over any interleaving of landed-cost changes, up or down, and postings, what is cleared is the greatest landed cost a bill was posted at. |
| LandedCosts.LandedOverClearedIff | core/services/gl.py:252-270 | The accrual is over-cleared exactly when it is negative or a bill was posted while it stood above what it is now. |
| LandedCosts.LandedNeverOverCleared | core/services/gl.py:252-270 | While landed cost is only added to, no more is cleared than accrued, and each posting clears all of it. |
| LandedCosts.ReducedChargeOverClears | core/services/gl.py:255-264 | A charge reduced after a bill cleared it: more is cleared than accrued. |
| LandedCosts.AccrualLeft | core/services/gl.py:252-311 | In the ledger, over the stored entries of a receipt and of the bills posted along any such run, Accruals are left at the greatest landed cost a bill was posted at less what the receipt's entry credited. |
| GeneralLedger.MatchErrors | core/services/gl.py:211-227 | One error per limit a linked line exceeds, and none exactly when no line over-bills. |
| GeneralLedger.Books.Post | core/services/gl.py:22-38 | An entry is kept only if its reference is free and it balances; otherwise the ledger is as before, and all entries stay balanced. |
| GeneralLedger.Books.PostCogs | core/services/gl.py:776-798 | Once per reference: the value moves from Inventory to COGS and no other account, an existing entry is returned, nothing is posted for nothing. |
| GeneralLedger.Books.PostInventoryReceipt | core/services/gl.py:393-429 | The receipt's entry is stored, or refused when unbalanced, or skipped when there is nothing to capitalise. |
| GeneralLedger.Books.PostSupplierInvoice | core/services/gl.py:230-329 | A posted bill's entry is returned, an over-billed one refused, otherwise the entry, which `SupplierInvoicePosts` tells account by account, is stored ungated and is within two cents of balance. |
| GeneralLedger.Books.PostCreditNote | core/services/gl.py:470-531 | The loop that groups by account builds the note's entry, kept only if it balances as stored; a posted note's entry is returned. |
| GeneralLedger.Books.ReversePayment | core/services/gl.py:754-773 | The reversal undoes the payment's entry on every account, or nothing is posted. |
| StockAndBooks.ShipTotalsItsSales | core/services/gl.py:137-155 | The COGS total is the negated value of the SALE rows the shipment added, and no other invoice's rows change. |
| StockAndBooks.ShipMovesBalances | core/services/gl.py:137-155 | Every balance moves by exactly the shipment's SALE movements. |
| InvoiceRows.ShipsFrom | core/services/gl.py:122-130 | An invoice ships from its own location, else the first warehouse, else the first location there is. |
| InvoiceRows.ShipSellsLines | core/services/gl.py:139-155 | A shipment adds one sale per product line, in line order, of its product, lot and base quantity under the invoice's number, and nothing else. |
| InvoiceRows.IssueSellsLines | core/services/gl.py:118-155 | So does issuing a new invoice that has a product line, somewhere to ship from and no COGS entry; any other leaves stock alone. |
| InvoiceRows.IssueAcceptedIff | core/services/gl.py:66-107 | A new invoice is accepted exactly when its stored entry balances and, if it ships, its shipment is accepted. |
| InvoiceRows.CogsOfSold | core/services/gl.py:157-160 | When what was sold cost anything, one entry under the invoice's number and date moves that from Inventory to COGS; otherwise none is posted. |
| StockAndBooks.ShipCostsNotNegative | core/services/gl.py:155-157 | With no negative quantity or cost on file the COGS total is not negative. |
| StockAndBooks.IssueMovesLedgerWithStock | core/services/gl.py:110-160 | GL Inventory and the SALE values change alike exactly when the goods' cost is not negative, hence always with non-negative quantities and costs. |
| StockAndBooks.SecondCogsIsNoopIff | core/services/gl.py:132-134 | A second call changes nothing exactly when there is nothing to relieve or a COGS entry exists, which a first call leaves exactly when its goods cost something. |
| StockAndBooks.ZeroCostCogsRelievesTwice | core/services/gl.py:132-157 | Goods that have cost nothing, their COGS posted twice in a row: each call relieves the stock. |
| StockAndBooks.ReissueNeverDoubleCounts | core/services/gl.py:66-105 | Once an invoice is issued, issuing that number again changes nothing or is refused, whatever its status and lines. |
| InvoiceDesk.Desk.ShipLines | core/services/gl.py:137-155 | The loop over the lines, moving stock in place, computes the shipment and its COGS. |
| InvoiceDesk.Desk.PostInvoiceCogs | core/services/gl.py:110-160 | The run over stock and ledger computes the COGS transition, skips and guard included. |
| InvoiceDesk.Desk.IssueInvoice | core/services/gl.py:66-107 | Receivable, stock and COGS are posted together or nothing is: the entries of `IssuedInvoicePosts` and `CogsOfSold`, the sales of `IssueSellsLines`. |
| InvoiceDesk.Desk.RestoreSales | core/services/gl.py:196-208 | The loop brings back each sale at the cost and to the place it left. |
| InvoiceDesk.Desk.CancelInvoice | core/services/gl.py:162-208 | Reversal and restock are made together or nothing is. |
| Cancellation.CostsAlwaysMatch | core/services/inventory.py:250-268 | In every reachable state a ledger row's value is its quantity times its unit cost, exactly for AVERAGE and, at the standard, for STANDARD, and within half a cent and half a cost step per unit for FIFO. |
| Cancellation.ReturnRestoresValue | core/services/gl.py:199-208 | Returning a sale restores its value, whatever moved since: exactly for AVERAGE and STANDARD, within qty x 0.00005 + 0.01 for FIFO. |
| Cancellation.ReachableReturnsRestoreValue | core/services/gl.py:199-208 | So it is for every row that ever took stock out, in every reachable state, standards set or not. |
| Cancellation.CancelRestoresStock | core/services/gl.py:190-208 | Every company, location and lot balance gets back exactly what the sales took. |
| InvoiceRows.RestoreReturnsSales | core/services/gl.py:196-208 | Restoring adds one return per sale, in order, of its quantity to the place and lot it left, at its unit cost unless the product is kept at standard. |
| InvoiceRows.CancelPosts | core/services/gl.py:175-188 | Cancelling posts at most one entry, on the day of cancelling, which nets on every account the opposite of the COGS entry. |
| Cancellation.CancelRestoresValue | core/services/gl.py:199-208 | Sales of non-negative quantities whose values match their costs come back at their value, within the FIFO slack. |
| Cancellation.CancelReversesBooks | core/services/gl.py:175-188 | The COGS entry is undone account by account, the first time and never again. |
| Cancellation.CancelTwiceIsCancelOnce | core/services/gl.py:163-195 | A second cancellation changes nothing. |
| ControlAccount.ControlAccountFollowsStock | core/services/gl.py:110-208 | Over any run of invoices issued and cancelled, stock operations and any other postings, other channels' COGS and the cancellation's own journal included, at whatever costs: COGS postings of the invoices to Inventory with what was sold unbooked equal the value of the invoices' movements, within the slack of cancelled FIFO sales, as long as no other COGS posting takes an invoice's number. |
| ControlAccount.ControlAccountExactWithoutFifo | core/services/gl.py:110-208 | Without FIFO products that holds to the cent: the control account and stock agree exactly when nothing was sold unbooked. |
| ControlAccount.SoldAtCostIsBooked | core/services/gl.py:155-158 | Nothing is ever sold unbooked while no invoice ships goods that cost less than nothing. |
| ControlAccount.NegativeCostsPart | core/services/gl.py:155-158 | A run that ends with goods at a negative average going out on an invoice: stock gains 40.00, the COGS journals post nothing. |
| SharedReferences.IssueThenCancelIff | core/services/gl.py:132-188 | A new invoice issued and cancelled leaves Inventory where it was exactly when no COGS entry of any value stood under its number; where one did, stock never moves and that entry is undone. |
| SharedReferences.SharedReferenceParts | core/services/gl.py:132-188 | A run in which an order posts its COGS of 50.00 as 1001, and an invoice 1001 is issued and cancelled: Inventory gains 50.00 and stock stays as it was. |
| CycleCount.FindDriftIsTheDrift | core/services/inventory_corrections.py:62-112 | The report has a row for exactly the uncorrected lot-tagged counts out by more than the tolerance on either side. |
| CycleCount.ExpectedIsLotCost | core/services/inventory_corrections.py:38-55 | A lot-tagged count is expected at its quantity times the lot's remaining worth over its remaining quantity, to the nearest 1/10000 and then the nearest cent, while layers of exactly its place and tag hold stock, else at the product's average or, where that is zero, its standard; the source says which. |
| CycleCount.ReportedAtLotCost | core/services/inventory_corrections.py:83-106 | Each reported row carries that value and that source, its variance from the count's own value, and the impact on a ledger that has or has not the count's entry. |
| CycleCount.DriftInOrder | core/services/inventory_corrections.py:75-77 | The report goes by when movements were made and then by id. |
| CycleCount.DriftAfterIsTheBlocked | core/services/inventory_corrections.py:115-194 | After the corrections, looking again finds exactly the blocked rows. |
| CycleCount.ApplyingAgainChangesNothing | core/services/inventory_corrections.py:78-80 | A second application corrects nothing and changes nothing. |
| CycleCount.CorrectedMovementsReachExpected | core/services/inventory_corrections.py:83-91 | Each corrected movement ends at its expected value in the subledger and in GL Inventory alike. |
| CycleCount.CorrectedToLotCost | core/services/inventory_corrections.py:83-91 | So that is where each corrected movement ends, in the subledger and in GL Inventory alike. |
| CycleCount.CorrectionPosts | core/services/inventory_corrections.py:131-184 | One correction posts at most a value-only movement of the variance and an entry of the impact between Inventory and Inventory Adjustment, on the original's day or, where that is closed, on the posting date, and one audit row. |
| CycleCount.CorrectionsMoveNoQuantity | core/services/inventory_corrections.py:150-160 | No balance's ledger sum changes, and layers and costs are untouched. |
| CycleCount.RevalLinesPost | core/services/inventory_corrections.py:170-176 | The catch-up entry balances and moves Inventory by the impact, whichever its sign. |
| CycleCountRuns.BooksStayConsistent | core/services/inventory_corrections.py:115-194 | Books no catch-up was run on stay consistent over any run of catch-ups, movements, postings and changes of layers and costs, so at any point of it a catch-up brings what it corrects to its expected value. |
| CycleCountRuns.CorrectedForGoodIff | core/services/inventory_corrections.py:78-91 | What was corrected stays at its expected value in the subledger whatever happens later, and in the ledger exactly when the count does not post its own entry only afterwards, or posts it for nothing. |
| CycleCountRuns.LatePostingAddsUp | core/services/inventory_corrections.py:85-89 | A count that posts its entry only after the catch-up: the ledger holds both. |
| CycleCountRuns.CatchUpMovesGap | core/services/inventory_corrections.py:85-89 | Count by count, a catch-up moves ledger and stock alike when the count has posted its entry; otherwise it moves the ledger by the original value of all it corrects besides. |
| CycleCountRuns.CancellingCountParts | core/services/gl.py:690-692 | A count whose variances come to nothing, one of them in no lot: ledger and stock agree before the catch-up and are 5.00 apart after it. |
| CatchUpRun.CatchUp.Find | core/services/inventory_corrections.py:72-112 | The scan computes the drift report, whose values `ReportedAtLotCost` tells from the layers. |
| CatchUpRun.CatchUp.PostCorrection | core/services/inventory_corrections.py:131-184 | One correction posts its movement, journal and audit row, on the original date or, when that is closed, the posting date. |
| CatchUpRun.CatchUp.ApplyCorrections | core/services/inventory_corrections.py:115-194 | The loop corrects or blocks each reported row, and what is still reported afterwards is what was blocked; where corrected movements end is `CorrectedToLotCost`. |
| OrderChains.FindChainRoot | core/migrations/0079_po_line_stable_identity.py:24-34 | The walk ends on any map, cycles and dangling links included, at the chain root. |
| OrderChains.ChainRootIsTheOriginal | core/migrations/0079_po_line_stable_identity.py:24-34 | On a chain that ends, the root is the order that supersedes nothing. |
| OrderChains.AmendmentKeepsRootIff | core/migrations/0079_po_line_stable_identity.py:28-34 | An amendment has the root of what it supersedes exactly when it is not on a cycle with another order. |
| OrderChains.CycleIsItsOwnRoot | core/migrations/0079_po_line_stable_identity.py:28-34 | An order on a cycle is its own root. |
| OrderChains.CycleSplitsItsOrders | core/migrations/0079_po_line_stable_identity.py:28-34 | Two orders that supersede each other, each its own root. |
| LineBackfill.StableIdsAreLogicalLines | core/migrations/0079_po_line_stable_identity.py:36-61 | Two lines share a stable id exactly when they share chain root and product, and then received quantities are equal. |
| LineBackfill.RootsHaveDepthOne | core/migrations/0079_po_line_stable_identity.py:40-45 | What a line points to points nowhere, and is another line. |
| LineBackfill.RootIsEarliest | core/migrations/0079_po_line_stable_identity.py:41-42 | The root is the earliest version, by version and then id. |
| LineBackfill.RootsTotalPostedReceipts | core/migrations/0079_po_line_stable_identity.py:52-61 | The root lines' received quantities total what posted receipts received. |
| LineBackfill.BackfillTwiceIsOnce | core/migrations/0079_po_line_stable_identity.py:9-61 | Running the backfill again changes nothing, whatever it started from. |
| BackfillRun.Migration.GroupLines | core/migrations/0079_po_line_stable_identity.py:36-39 | Each group holds, in table order, exactly the lines of one chain root and product. |
| BackfillRun.Migration.LinkGroup | core/migrations/0079_po_line_stable_identity.py:41-45 | Every line of a group but the first is pointed at the first, and no other line changes. |
| BackfillRun.Migration.LinkLines | core/migrations/0079_po_line_stable_identity.py:40-45 | Group by group, in any order, every version ends pointing at the earliest. |
| BackfillRun.Migration.StampReceiptLines | core/migrations/0079_po_line_stable_identity.py:47-50 | Each receipt line takes the stable id of its order line. |
| BackfillRun.Migration.PostedTotals | core/migrations/0079_po_line_stable_identity.py:52-57 | The totals are the posted quantities received per stable id. |
| BackfillRun.Migration.RebuildReceived | core/migrations/0079_po_line_stable_identity.py:58-61 | Each line's received quantity is its stable id's total. |
| BackfillRun.Migration.BackfillStableIdentity | core/migrations/0079_po_line_stable_identity.py:9-61 | The passes together compute the backfill the lemmas are about. |
| Statements.CustomerStatement | core/services/statements.py:10-46 | The statement opens with what was owed before its first day and closes with what is owed after its last. |
| Statements.StatementIsWhatIsOwed | core/services/statements.py:30-46 | Opening and closing counted straight from the documents; closing is opening plus debits less credits. |
| Statements.OwedFromDocuments | core/services/statements.py:13-30 | What is owed before a date is what issued invoices total, less posted receipts, plus posted refunds, less posted sales credits, dated before it. |
| Statements.PaymentItemsAre | core/services/statements.py:18-23 | Receipts credit and refunds debit their amount under their own reference or one made from their id, and every posted payment of the direction is there. |
| Statements.LedgerIsInOrder | core/services/statements.py:28 | The items go by date and, on a date, by the name of their type, none lost. |
| Statements.RowsAreTheWindow | core/services/statements.py:33-36 | The rows are exactly the items in the window, in order. |
| Statements.StatementsCompose | core/services/statements.py:28-46 | The statement for [a, c] is that for [a, b] followed by that for [b + 1, c], balances included, the second opening where the first closes. |
| Statements.RunBalance | core/services/statements.py:31-36 | The running fold computes the rows and the closing balance. |
| Statements.CollectItems | core/services/statements.py:13-26 | Exactly the issued invoices, posted receipts and refunds and posted sales credit notes are collected, in that order, a payment without a reference under one made from its id. |

## Left out

- Views, forms, templates, permissions, the ORM and the database: tables are sequences of rows and maps, a row lock is a lock held to commit.
- Other tenants, users, notes, memos, sites and audit columns.
- `to_base_qty` is not part of this model: an invoice line carries its base quantity, of any sign. `record_bill_prices` is dropped.
- The posters for payments, expenses, stock adjustments, transfers and stock takes: two-sided entries through the same gate.
- Status columns of invoices, purchase orders and credit notes after posting, and the settlement of an invoice by a credit note. Whether a document was posted before is a parameter.
- Account look-up by code, which fails when a chart of accounts lacks one; accounts are named by their role.
- Amounts beyond the columns' digits, and the overflow a database would report.
- `Locking.AnyScheduleIsSerial`: starts from any table of layers with distinct ids in queue order, as every reachable state has, and a new layer gets its id when its transaction commits. The reservation services' row locks are not interleaved, nor is a database's choice of a transaction to abort when it finds a deadlock.
- `SerialLookup.AvailableSerials`: how text is searched and ordered is the database's collation, so a search is any predicate on serials and the SKU and serial order any ranking of rows.
- `Cancellation.CancelRestoresValue`: a sale of a negative quantity is a receipt, and returning it is an issue valued by whatever the layers and the average are by then, so no value is promised for it; its quantities are (`CancelRestoresStock`).
- `ControlAccount.ControlAccountFollowsStock`: invoices are numbered and carry non-negative quantities, their numbers are no other sale's COGS reference (what happens otherwise is `SharedReferences.IssueThenCancelIff`), and only invoices make movements that refer to invoices.
- `OTHER` stands for every reference type the code never compares by name.
- `reserved <= on_hand` is not claimed: a plain issue does not look at what is reserved.
- `Stockroom.Service.ConsumeFifoLayers`: layers already empty are skipped inside the loop where the query filters them out before it.
- `CycleCount.CorrectedMovementsReachExpected`: expected values are read from the layers and costs as they stand, which corrections do not change; a corrected movement keeps the value expected then, whatever later receipts and issues make of those costs (`CycleCountRuns.CorrectedForGoodIff`).
- `current_on_hand`, `bin_balances` and `default_period`: plain queries.
