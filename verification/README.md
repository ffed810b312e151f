# The store's ledger, dispatch and reports, verified

A Dafny 4.11 model of the backend of a cash-on-delivery grocery store, with proofs of what its
transactions, state machines and reports promise. `dafny verify dfyconfig.toml` checks everything.

Money is whole paise, time is microseconds, a calendar day is a day number at the fixed offset
+5:30. A refused request is a `Failure` that leaves the state as it was.

How the modules build on each other:

- **Orders, Ledger** give one order row and the committed products and orders, and say what each
  transaction does when it runs alone (`Ledger.Perform`). Stock is conserved and order records are
  only added to, on every serial run.
- **Interleaving, Serialisability, Progress, Idempotency, Answers, Locks** run any number of the same
  transactions step by step: locks one row at a time in order, rows read when locked, a wait on the unique
  idempotency key, private writes, commit or rollback, under a clock that advances between steps.
  Every schedule ends in the tables that the committed jobs make one at a time in commit order; no
  schedule deadlocks; retries place one order; and what calls report is true: a refusal is one the job
  alone would have met, and a call with nobody in its way succeeds. Everything proved of serial runs
  follows.
- **OrderModels, Requests** are the imperative forms: an order instance whose columns are assigned in
  place and saved by column list, and a store whose methods are whole requests. Each method's
  contract equates its new state with the specification's.
- **Dispatch, Feed, HandOuts** are the rule for who may take an order: the ranking, the pull feed, the
  decline, the stalled list, and several orders becoming Ready at once.
- **JobEffects, ShopEffects** write out what each transaction and each request changes, what it leaves
  alone, and exactly when it is refused, in the rows' own columns.
- **Shops, ShopRuns, HandBacks** put orders, products, staff and declines into one state machine of atomic
  requests, show that every run of it is a ledger run, and bound the hand-back loop.
- **Decimals, Pricing, Discounts, Baskets, Checkouts, Bills** are money: rounding, the bill, the 28-digit
  division behind the discount badge, merging and reading a basket, and quote against order.
- **Sums, Reports, ReportEntries, TillRuns** are the money reports; **Categories**, **Admins**, **Sessions**
  and **Dedupe** are self-contained cores of atomic requests; **CategoryRaces**, **AdminRaces** and
  **StaleSaves** take the first three apart into the reads and writes the code does without a lock.

Where the code and its own words differ, the model follows the code:

- `eligible_riders` relies on its row locks to keep simultaneous Ready orders apart
  (api/dispatch.py:98-102), but reads who is carrying before it takes them. Reading first hands one
  rider two bags exactly when two of the orders would go to the same rider
  (`HandOuts.ReadThenLockIsSafeIff`, `HandOuts.ReadThenLockIsNot`); locking first would be enough
  (`HandOuts.LockThenReadIsSafe`).
- The decline view says what a rider can decline is exactly what the rider can see
  (api/views/orders.py:555-558). A rider mid-delivery sees nothing and can still decline;
  `Feed.DeclinableIsVisibleIff` has the exact condition, `Feed.CarrierDeclinesUnseen` an instance.
- The account PUT says its row lock stops two demotions that each see the other Admin
  (api/views/admins.py:99-101). It locks the edited row only, and the command locks nothing;
  `AdminRaces.EveryScheduleAdministrableIff` has the exact condition for any number of requests in
  flight, `AdminRaces.LastTwoCanDemoteEachOther` and `AdminRaces.LastTwoCanDeactivateEachOther`
  instances.
- The category walk is there so that A under B and B under A cannot make a loop
  (api/serializers.py:507-508). The save that follows it takes no lock: requests one at a time keep the
  tree a forest (`Categories.TreeStaysAcyclic`), and `CategoryRaces.EveryScheduleForestIff` says exactly
  when requests at once do.
- A sign-out is said to retire every token the account holds (api/views/auth.py:11-19). It does, for
  that account; a rider's or Admin's sign-in name can pass to another account, which counts its
  generations from zero again (`Sessions.RevivableIff`, `Sessions.ReusedNumberRevivesToken`). And a
  staff edit saves the whole row as it read it, so one that straddles a sign-out undoes it
  (`StaleSaves.TokenRevivesIff`).
- The item cap's message speaks of different items (api/serializers.py:869-872); the cap counts the raw
  lines, duplicates included.
- A repeated status request is a no-op except on a failed delivery, whose reason it replaces
  (`Orders.RepeatChangesNothingIff`).
- The migration promises to suffix the later holders of a name. The first holder of a name can be
  renamed too (`Dedupe.FirstHolderCanBeRenamed`; `Dedupe.FirstHoldersKeepNamesIff` says over which
  names), and names that end in white space can still collide (`Dedupe.TidyIsExact`).

## Model

| member | source | states |
|---|---|---|
| Decimals.MoneyWithinHalfPaisa | api/pricing.py:29-39 | `money()` is within half a paisa of its argument, takes an exact half away from zero, and mirrors at zero |
| Decimals.MoneyMonotone | api/pricing.py:29-39 | `money()` never reorders two decimals, whatever their scales |
| Decimals.MoneyOfPaise | api/pricing.py:25-39 | an amount in whole paise is left alone, so rounding twice is rounding once |
| Pricing.ResolvedTierIsSold | api/pricing.py:58-107 | whatever tier is asked for, the one on sale is charged and promised, with the configured fee and minutes |
| Pricing.BillAddsUp | api/pricing.py:135-165 | every bill's total is items plus delivery plus handling, nothing is negative, and an empty basket costs nothing |
| Pricing.AddingGoods | api/pricing.py:135-165 | adding goods changes the total by exactly the goods less any delivery fee they save |
| Pricing.LargerBasketCheaperIff | api/pricing.py:149-165 | a larger basket is cheaper exactly when it crosses the free-delivery threshold by less than the fee |
| Pricing.ShortfallBuysFreeDelivery | api/pricing.py:168-179 | the shortfall is zero exactly at or above the threshold, and topping up by it buys goods plus handling with free delivery |
| Pricing.ShortfallIsLeast | api/pricing.py:168-179 | no smaller top-up earns free delivery |
| Discounts.PercentIsExactFloor | api/models.py:466-474 | for every price and MRP a ten-digit money column holds, the 28-digit division yields the exact floor of the saving as a percentage |
| Discounts.BadgeNeverOverstates | api/models.py:461-483 | percent times MRP is at most a hundred times the saving, and one percent more would exceed it |
| Discounts.DiscountMeaning | api/models.py:461-483 | percent and saving are shown exactly when the MRP is set and above the price, as the exact floor and the exact difference, and are zero otherwise |
| Baskets.ValidateItems | api/serializers.py:869-888 | a list passes exactly when its size, fields and per-product totals are in bounds, and becomes one line per product asking for the same units |
| Baskets.ReadBasket | api/checkout.py:105-175 | the loop over the sorted ids computes the specified lines and shortages, in order, at the resolved tier |
| Baskets.LinesAreSuppliable | api/checkout.py:130-169 | every line is an active catalogue row with enough stock, in ascending id order |
| Baskets.LinesAndShortagesPartition | api/checkout.py:130-169 | supplied ids and unavailable ids partition the request |
| Checkouts.RequestedIsExactIff | api/checkout.py:116-118 | the quantity dictionary holds the true requested totals exactly when no product is repeated |
| Checkouts.SoldUnitsAreTheRequest | api/checkout.py:360-379 | an order built from a merged list holds, product by product, the raw list's total quantity |
| Checkouts.ChargedForExactlyTheRequest | api/checkout.py:92-102 | line totals sum to the items total, which is the raw request at catalogue prices, and the grand total adds the two fees |
| Checkouts.QuoteIsTheBill | api/serializers.py:1343-1361 | an open, in-range checkout is accepted exactly when its quote lists nothing unavailable and the minimum met, and bills the quoted numbers |
| Bills.QuoteFromRequest | api/serializers.py:1343-1361 | from the raw list: fees, total, shortfall and minimum are those of what the shelf can supply, and exactly the rest is reported unavailable |
| Bills.DraftFromRequest | api/checkout.py:267-320 | from the raw list: exactly when a checkout is accepted, and which refusal it gets otherwise |
| Bills.OrderIsBilled | api/pricing.py:146-165 | from the raw list: no delivery fee at or above the free-delivery line and the configured one below it, the handling fee, their sum, and each line its price times its quantity |
| Bills.LackingMeaning | api/checkout.py:130-167 | a product is reported short exactly when it is unknown, withdrawn or short of stock, with what is left of it |
| Orders.EditKeepsRow | api/models.py:791-875 | every status change, claim, hand-over and automatic assignment keeps the rider, stamp and cash invariants and rewrites no record |
| Orders.AssignedKeepsRow | api/views/orders.py:209-242 | a manager's hand-over walks the order to Ready through the state machine and ends Dispatched with the named rider |
| Orders.CancelKeepsRow | api/checkout.py:404-418 | cancelling keeps the row sound, and turns goods that were out into goods that are back |
| Orders.RestockKeepsRow | api/checkout.py:480-492 | restocking a failed order keeps the row sound and marks its goods back once |
| Orders.StatusAcceptedIff | api/views/orders.py:283-358 | a status request is accepted exactly when the actor may ask for the target, the order is theirs, the move is legal, a failure has its reason, and a stated amount fits the total |
| Orders.DeliveryIsRecorded | api/models.py:835-854 | the first delivery stamps delivery and payment, records the stated or full amount and the collecting rider, and moves nothing else |
| Orders.StatusMoveRecords | api/views/orders.py:309-374 | the row after any accepted change of status, column by column: first stamps, the reason as sent, the rider released to the pool, everything else as before |
| Orders.CancelRecords | api/checkout.py:404-418 | a cancellation is accepted exactly while the goods are in the store, and writes status, moment and reason |
| Orders.RestockRecords | api/checkout.py:480-492 | a restock is accepted exactly once on a failed order, and writes its moment |
| Orders.HandOverRecords | api/views/orders.py:209-242 | automatic assignment, claim and hand-over: exactly when each is accepted, and the row each writes |
| Orders.HandOverSucceedsIff | api/views/orders.py:209-242 | a claim succeeds exactly on a Ready order and a manager's hand-over exactly on a live one, and neither rewrites a first stamp |
| Orders.RepeatChangesNothingIff | api/views/orders.py:301-374 | a repeated status request leaves the row as it was, unless it replaces the reason of a failed delivery |
| Orders.StampsAreFirstEntries | api/models.py:812-854 | after any history of accepted moves each stamp is the first moment its status was entered, and payment is stamped with the delivery |
| Ledger.PerformKeepsTables | api/checkout.py:255-495 | every transaction keeps stock non-negative, rows sound, keys unique and items listed, and rewrites no order's record |
| Ledger.SupplyConserved | api/checkout.py:360-495 | shelf plus units on order changes, per product, by exactly the transaction's catalogue edit |
| Ledger.PlacedOrderRecords | api/checkout.py:325-375 | a placed order carries its key, position, moment, tier promise and catalogue prices, and no other order changes |
| Ledger.SaleMovesStockOnly | api/checkout.py:377-379 | each product loses exactly the units its order lists, and no other column |
| Ledger.PutBackReturnsUnits | api/checkout.py:445-459 | each product regains exactly the units the items list, and no row appears or goes |
| Ledger.PatchMeaning | api/views/products.py:172-202 | a PATCH writes what was sent and nothing else, and is accepted exactly when the row it leaves is valid |
| JobEffects.CancelEffect | api/checkout.py:392-426 | the cancelling transaction, refusals included, in the rows' own columns: one order, and each product its units back |
| JobEffects.RestockEffect | api/checkout.py:462-495 | the restocking transaction, refusals included, in the rows' own columns |
| JobEffects.PatchEffect | api/views/products.py:167-202 | the product PATCH, refusals included, in the row's own columns |
| JobEffects.CatalogueEffect | api/views/products.py:234-257 | creation and deletion of a product, refusals included |
| JobEffects.PlaceEffect | api/checkout.py:255-389 | the placing transaction from the raw list: which refusal, or one order billed as asked and exactly the requested units off the shelf |
| Ledger.RunConserves | api/checkout.py:255-495 | on every serial run the supply of each product is its opening supply plus the net catalogue edits, and stock stays non-negative |
| Ledger.RunKeepsClock | api/models.py:808-854 | on every run under a clock that does not go back, created, packed, dispatched and ended lie in order |
| Ledger.GoodsReturnAtMostOnce | api/checkout.py:462-492 | over any mix of cancelling and restocking an order's goods are put back at most once, exactly once if it ends returned |
| Serialisability.CommitIsAtomic | api/checkout.py:120-125 | what a prepared transaction computed on the rows it read and locked is what its job does to the tables as committed by then |
| Serialisability.ScheduleKeepsOk | api/checkout.py:255-495 | lock order, valid reads, private decisions and truthful reports hold after any schedule of any number of calls |
| Serialisability.EveryScheduleIsSerial | api/checkout.py:255-495 | every interleaving commits the tables that its committed jobs make one at a time in commit order |
| Serialisability.EveryScheduleConserves | api/checkout.py:255-495 | after every schedule no stock is negative, supply is opening supply plus committed PATCH edits, stamps are in order, and goods came back at most once |
| Locks.ReadyCallsAreApart | api/checkout.py:17-30 | after any schedule a call about to commit holds its order, its products on file, its riders and its key, and no other call about to commit needs any of them |
| Answers.RefusalAtStep | api/checkout.py:255-320 | a call's step that ends in a refusal gives the one its job alone meets on the tables committed at that moment |
| Answers.RefusalsAreHonest | api/checkout.py:404-413 | after any schedule, whoever was refused met at one of their own steps committed tables on which the job alone is refused in the same way |
| Answers.RollbacksAreForced | api/checkout.py:255-265 | no call rolls back by itself |
| Locks.RollbackLeavesNothing | api/checkout.py:255-265 | a call can be rolled back at any point up to its commit, and then leaves no row, no lock and no log entry |
| Answers.LogIsWhatCommitted | api/checkout.py:377-389 | for every kind of job, as many logged commits as calls that report one |
| Answers.AloneCommits | api/checkout.py:392-426 | a call alone whose job succeeds on the opening tables ends committed, with the tables its job makes of them |
| Answers.AloneCanFinish | api/checkout.py:392-426 | and it can always be run to that end |
| Progress.SomeoneCanStep | api/checkout.py:120-125 | following holders of wanted rows upwards reaches a call that can step |
| Progress.RunsToCompletion | api/checkout.py:404-459 | from every reachable state the unfinished calls can be run to their ends |
| Progress.NoScheduleDeadlocks | api/checkout.py:120-125 | after any schedule, while a call is unfinished some call can step, and all can finish |
| Idempotency.OnePlacementPerKey | api/models.py:632 | a serial run places one order per key at most, and none under a key in use |
| Idempotency.OneCall | api/checkout.py:226-252 | every call with a key created the one order that carries it, was handed that order, or placed nothing |
| Idempotency.RetriesPlaceOneOrder | api/checkout.py:185-252 | after any schedule a key's order is unique, its stock moved once, and exactly one call reports creating it if it is new |
| Idempotency.LoserFindsWinner | api/checkout.py:239-252 | the re-read after a unique violation always finds the winner's order |
| Idempotency.SequentialRetryIsReplayed | api/checkout.py:226-235 | a retry that begins with its key on file is answered with that order at its first step, whatever has become of shop and shelf |
| OrderModels.OrderModel.constructor | api/models.py:496-553 | an instance is read from its row column by column |
| OrderModels.OrderModel.Stamp | api/models.py:812-854 | the stamp of the entered status is written once, the first delivery freezes outcome and payment, and exactly the touched columns are named |
| OrderModels.OrderModel.AdvanceStatus | api/models.py:791-875 | in place it does what the transition table says, refuses the rest unchanged, and the column list it returns covers every change |
| OrderModels.OrderModel.Freeze | api/models.py:830-854 | the first delivery freezes the outcome and records the payment in full |
| OrderModels.DisjointSavesCommute | api/models.py:791-799 | two saves that name different columns do not overwrite each other, in either order |
| OrderModels.OrderModel.Settle | api/views/orders.py:341-358 | the collector is the rider, a stated amount replaces the total and may not exceed it |
| OrderModels.OrderModel.SetStatus | api/views/orders.py:309-374 | the status request's checks and column list give exactly the specified row |
| OrderModels.OrderModel.Conclude | api/views/orders.py:322-372 | a failure needs a reason, only a delivery just made is settled, and a return to the pool releases the rider |
| OrderModels.OrderModel.Accept | api/views/orders.py:450-471 | a claim dispatches a Ready order to the claimant unless another rider has it, saving every change |
| OrderModels.OrderModel.Assign | api/views/orders.py:214-242 | the hand-over's intermediate save and last column list together write the specified row |
| OrderModels.OrderModel.Cancel | api/checkout.py:404-418 | cancelling saves the status, its stamp and the reason, and nothing else |
| OrderModels.OrderModel.MarkRestocked | api/checkout.py:491-492 | the restock stamp is the one column written |
| OrderModels.OrderModel.HandTo | api/dispatch.py:179-185 | automatic assignment writes the status, its stamp, the rider and the offered distance |
| Requests.Store.ReturnStock | api/checkout.py:429-459 | item by item on the rows read together, every unit goes back to its product |
| Requests.Store.Draft | api/checkout.py:267-320 | the gates run in order: closed, out of area, empty, unavailable, below minimum |
| Requests.Store.PlaceInTransaction | api/checkout.py:255-389 | one transaction inserts the order and sells its lines, or refuses and changes nothing |
| Requests.Store.WriteOrder | api/checkout.py:325-379 | the order is inserted and the stock sold together |
| Requests.Store.Sell | api/checkout.py:377-379 | the decrement loop takes each line's units from its locked row |
| Requests.Store.PlaceOrder | api/checkout.py:185-252 | a used key is answered with its order; otherwise the order is created and reported so |
| Requests.Store.CancelInTransaction | api/checkout.py:392-426 | the row is cancelled and its goods returned together |
| Requests.Store.CancelOrder | api/checkout.py:392-426 | the request does what the state machine says and keeps the shop sound |
| Requests.Store.RestockInTransaction | api/checkout.py:462-495 | the goods are returned and the row stamped together |
| Requests.Store.RestockOrder | api/views/orders.py:480-501 | the request does what the state machine says and keeps the shop sound |
| Requests.Store.PatchProduct | api/views/products.py:167-202 | only the columns sent are written to the locked row, after validation |
| Requests.Store.DeleteProduct | api/views/products.py:234-257 | a product no order lists is removed, any other refused |
| Requests.Store.EligibleRiders | api/dispatch.py:84-119 | the loop over the shift yields the ranking of everyone free who has not declined |
| Requests.Store.AutoAssign | api/dispatch.py:156-185 | the order goes to the first of the ranking, or nothing changes |
| Requests.Store.MoveOrder | api/views/orders.py:301-401 | the status change is saved, and a rider's hand-back recorded as a decline |
| Requests.Store.MoveAndDispatch | api/views/orders.py:301-402 | the move, and dispatch at once when the order is Ready |
| Requests.Store.PatchStatus | api/views/orders.py:278-410 | the whole request, cancellation and dispatch included, does what the state machine says |
| Requests.Store.AcceptOrder | api/views/orders.py:430-477 | the claim does what the state machine says |
| Requests.Store.AssignOrder | api/views/orders.py:197-261 | the hand-over does what the state machine says |
| Requests.Store.RejectOrder | api/views/orders.py:508-588 | the decline's checks run in order, and an accepted one adds one record |
| Dispatch.Rank | api/dispatch.py:122-153 | the loop and sort give the specified ranking; without a position every candidate is kept |
| Dispatch.RankMeaning | api/dispatch.py:122-153 | the ranking is exactly the candidates in radius, nearest rounded distance first, lowest id among equals |
| Dispatch.ReachableMeaning | api/dispatch.py:63-81 | reachable riders are those on shift, in radius, who have not declined |
| Dispatch.EligibleIsReachableNotCarrying | api/dispatch.py:84-119 | eligible riders are the reachable ones who carry nothing |
| Dispatch.NobodyPickedIff | api/dispatch.py:171-179 | nobody is picked exactly when every rider who could reach the order is carrying |
| Dispatch.PickIsFirst | api/dispatch.py:181-185 | the pick is on shift, in radius, undeclined and free, and nobody eligible ranks before it |
| Dispatch.CanReachMeaning | api/dispatch.py:63-81 | who can take an order, in the roster's own columns |
| Dispatch.PickByRoundedDistance | api/dispatch.py:140-153 | the pick's rounded distance is recorded, and is least, lowest id first; without a position, the lowest id at no distance |
| Dispatch.PickIsNearest | api/dispatch.py:150-153 | the pick's true distance exceeds that of any eligible rider by at most 0.01 km |
| Feed.Incoming | api/views/delivery.py:205-259 | the loop and sort give the specified feed, and nothing for a rider off shift or carrying |
| Feed.FeedMeaning | api/views/delivery.py:216-259 | the feed lists exactly what the rider may take, nearest first, unknown distances last, newest first among equals |
| Feed.FeedAgreesWithDispatch | api/views/delivery.py:216-259 | an order is in an active rider's feed exactly when it is Ready, unclaimed and dispatch counts the rider as eligible |
| Feed.DeclinableMeaning | api/views/orders.py:538-583 | a decline writes a record exactly for a Ready order within the rider's reach that is not already theirs |
| Feed.FeedCanBeDeclined | api/views/orders.py:529-588 | everything in the feed can be declined, once; it leaves that feed and no other; a second tap changes nothing |
| Feed.DeclinableIsVisibleIff | api/views/orders.py:555-567 | what can be declined is what is shown, exactly unless the rider is carrying with a Ready order in reach |
| Feed.CarrierDeclinesUnseen | api/views/orders.py:555-567 | a rider carrying one bag can decline a second Ready order that is not in their feed |
| Feed.StalledMeaning | api/models.py:757-778 | a Ready order is stalled exactly when now is past created plus promised minutes, or no rider can reach it |
| Feed.StalledIsExactlyHidden | api/views/orders.py:161-190 | within its promised minutes a Ready order is stalled exactly when no rider's feed would ever show it; past them it is stalled regardless |
| HandOuts.LockThenReadIsSafe | api/dispatch.py:98-119 | with riders locked before the carrying read, no schedule of hand-outs gives anyone a second bag |
| HandOuts.ReadThenLockIsSafeIff | api/dispatch.py:98-119 | for any number of hand-outs in the source's order of steps, every schedule leaves one bag each if and only if no two different orders would, each alone on the opening table, go to the same rider |
| HandOuts.ReadThenLockIsNot | api/dispatch.py:104-119 | the smallest instance: two positionless orders and one free rider, who is handed both bags |
| HandOuts.HandOutWrites | api/dispatch.py:171-185 | each hand-out writes what automatic assignment writes, and no other row |
| Shops.StepIsJob | api/views/orders.py:278-410 | every request leaves products and orders alone or commits exactly one ledger job |
| ShopEffects.PlaceOrderEffect | api/checkout.py:185-252 | a key on file changes nothing; otherwise the shop is what the transaction makes of it |
| ShopEffects.TransactionEffect | api/views/orders.py:494-501 | cancel, restock and catalogue requests are their transaction and nothing else |
| ShopEffects.StatusEffect | api/views/orders.py:278-410 | which refusal a status request gets; otherwise the row moves, a rider's hand-back is a decline, and dispatch runs exactly when the order is Ready |
| ShopEffects.HandOverEffect | api/views/orders.py:197-261 | claim and hand-over, refusals included: one row, and nothing else |
| ShopEffects.RejectEffect | api/views/orders.py:529-588 | a decline, refusals included: one record, and nothing else |
| ShopEffects.StaffEffect | api/views/users.py:123-153 | the staff requests, refusals included: what each writes in the roster |
| ShopEffects.LegalMoves | api/models.py:545-553 | the transition table, move by move |
| ShopRuns.StepKeepsShop | api/views/users.py:123-153 | every request keeps rows, ids, declines and riders on file sound; a rider with history is never removed |
| ShopRuns.ShopRunIsLedgerRun | api/views/orders.py:278-410 | every run of requests is a serial run of the jobs it committed |
| ShopRuns.ShopRunConserves | api/checkout.py:255-495 | on every run of requests supply is conserved, records are only added to, and goods come back at most once |
| ShopRuns.ShopRunKeepsLifecycle | api/models.py:545-559 | on every run Ready has no rider, Dispatched has one, stamps are in order, and cash is recorded exactly on delivery, within the total |
| ShopRuns.ShopRunWritesOnce | api/models.py:812-854 | on every run no stamp, payment or collector is rewritten, and an ended order stays as it ended |
| ShopRuns.AutoAssignOutcome | api/dispatch.py:156-185 | as one step it assigns nobody exactly when off, not unassigned Ready, or everyone in reach carries; else to a free rider in reach at the distance shown |
| ShopRuns.HandBackBars | api/views/orders.py:363-401 | a hand-back is by the rider who carried the order, puts a decline on record, and leaves nobody named unless dispatch picks again |
| ShopRuns.NeverPickedAgain | api/dispatch.py:211-221 | after a decline or a hand-back no run ends in automatic assignment giving that rider the order |
| ShopRuns.DeclinedIsNeverPicked | api/dispatch.py:107-118 | a rider with a decline on record for an order is not given it by automatic assignment, after any run |
| ShopRuns.RoundsDieOut | api/views/orders.py:363-402 | no rider goes through two auto-assign and hand-back rounds of one order, and rounds number at most the riders not barred at the start |
| HandBacks.PickedIsTheRider | api/views/orders.py:363-402 | after a granted request for Ready the order's rider is whom automatic assignment picked; no other request picks anybody |
| HandBacks.HandedBackIff | api/views/orders.py:363-370 | a rider hands an order back by asking for Ready while carrying it, and in no other way |
| HandBacks.StintIff | api/dispatch.py:211-221 | the rider counted as carrying an order by automatic assignment is the one some call handed it to, its row unchanged since |
| HandBacks.RoundsAreHandBacks | api/dispatch.py:211-221 | a round is a hand-back by the rider so counted; each is counted and nothing else is |
| Reports.SpanIsLocalDays | api/paging.py:77-89 | a moment is in the half-open range exactly when its local date is in the window |
| Reports.ReadWindow | api/views/analytics.py:59-74 | the window is ordered, has at most 367 days, defaults to thirty, swaps reversed ends and keeps the latest part |
| Reports.AdjacentWindows | api/views/analytics.py:77-89 | windows that meet at midnight share no order and together list those of the whole |
| Reports.AdjacentWindowsAddUp | api/views/analytics.py:339-358 | sums over adjacent windows add up, booked and collected |
| Reports.Summary | api/views/analytics.py:111-163 | the comparison window is as long and ends the day before, and the two revenues add up to that of both windows |
| Reports.RevenueSeries | api/views/analytics.py:174-201 | one row per consecutive day, each that day's own headline, adding up to the summary's revenue and count |
| Reports.RowsAddUp | api/views/analytics.py:386-410 | the rows of a grouped cash query, in any order, add up to its totals in every column |
| Reports.CashReportConserves | api/views/analytics.py:378-438 | rider rows with the unattributed one, and day rows, each account for the window's totals |
| Reports.ShortfallIsHonest | api/views/analytics.py:383-395 | a row's shortfall is never negative, and zero exactly when none of its orders is short |
| Reports.CollectedAreDeliveries | api/views/analytics.py:339-358 | the collected orders are exactly the deliveries of the window |
| ReportEntries.LocalMidnight | api/paging.py:77-89 | a local day runs from 18:30 UTC to 18:30 UTC |
| ReportEntries.OneOrderReport | api/views/analytics.py:386-415 | a report on one order: its total expected, its amount collected, and their difference short |
| ReportEntries.CashEntry | api/views/analytics.py:339-395 | one more order adds exactly its figures if it was delivered in the window, and nothing otherwise |
| ReportEntries.BookedEntry | api/views/analytics.py:77-89 | one more order adds exactly its total and one to the count if placed in the window and neither cancelled nor failed, and nothing otherwise |
| ReportEntries.EmptyBook | api/views/analytics.py:120-123 | no orders, no revenue and no cash |
| ReportEntries.RiderRowLists | api/views/analytics.py:399-403 | a rider's row lists exactly the orders whose money that rider took |
| TillRuns.ClosedWindowStays | api/views/analytics.py:339-358 | no later run of requests changes what the cash report says of a window that has ended |
| Categories.Validate | api/serializers.py:501-518 | the upward walk ends on any table, and accepts exactly when the category's new chain upwards ends |
| Categories.ReparentKeepsForestIff | api/serializers.py:501-518 | in a forest, the walk's condition holds exactly when the re-parented tree is a forest |
| Categories.ForestIsAcyclic | api/models.py:311-318 | a forest is the same as a table in which no category is its own ancestor |
| Categories.CategoryTable.CreateCategory | api/serializers.py:477-484 | refused exactly for a parent that is not on file; otherwise the one new row stands under it, and a forest stays one |
| Categories.CategoryTable.UpdateCategory | api/views/categories.py:96-101 | in a forest, an existing parent is refused exactly when the result would not be a forest; no other row moves |
| Categories.CategoryTable.DeleteCategory | api/views/categories.py:128-135 | the row is gone, its children are roots, every other row is unchanged, and a forest stays one |
| Categories.ChangeKeepsForest | api/views/categories.py:96-135 | create, update and delete each keep the tree a forest |
| Categories.TreeStaysAcyclic | api/models.py:309-318 | no run of category requests puts a loop in the tree |
| CategoryRaces.EveryScheduleForestIff | api/views/categories.py:96-101 | for any number of re-parentings whose walks read before they save, every schedule leaves a forest if and only if every order of saves that the walks could have let through does |
| CategoryRaces.AcceptedMovesIff | api/serializers.py:501-518 | for moves of different categories that are each fine on the opening table, every schedule leaves a forest if and only if every selection of them, made at once, does |
| CategoryRaces.TwoRootsCanLoop | api/serializers.py:507-517 | any two roots moved under each other at once can end in a loop |
| CategoryRaces.RefusedMoveCanSlipIn | api/serializers.py:507-517 | moves that are safe under every schedule stop being so beside one that the opening table refuses |
| Admins.Console.PutAccount | api/views/admins.py:97-134 | an active Admin is always left and emails stay unique; nobody re-roles or locks out themselves; another row is refused exactly for a taken email or when the edit would leave no active Admin, else it alone is as asked, email included |
| Admins.Console.DeleteAccount | api/views/admins.py:158-178 | nobody deactivates themselves; another row is refused exactly when that would leave no active Admin, else it alone is inactive and keeps its role |
| Admins.Console.SeedAdmin | api/management/commands/seed_admin.py:54-102 | a new email is created given a password; an existing account is refused exactly when the change would leave no active Admin |
| Admins.AnswerWrites | api/views/admins.py:130-134 | an accepted request for an existing account writes that row as asked and no other |
| Admins.CreateMeaning | api/serializers.py:1392-1439 | an account is created exactly under an unused email, and as asked |
| Admins.RefusedIffLast | api/views/admins.py:121-128 | in a table with an active Admin, a request on somebody else's row is refused if and only if it asks for a taken email or granting it would leave no active Admin |
| Admins.AlwaysAdministrable | api/views/admins.py:52-56 | once there is an active Admin there is one after every run of both writers, by any callers |
| Admins.EmailsStayUnique | api/serializers.py:1392-1399 | on every run of both writers each email is one account's |
| Admins.LastAdminNeedsStaleCaller | api/views/admins.py:114-128 | while the caller is an active Admin the last-Admin refusal never fires |
| Admins.StaleCallerIsStopped | api/views/admins.py:121-128 | a caller demoted after authenticating is stopped by it |
| AdminRaces.EveryScheduleAdministrableIff | api/views/admins.py:99-178 | for any number of requests on different rows in flight, every schedule leaves an active Admin if and only if an opening one is the target of no removal the opening table lets through |
| AdminRaces.LastTwoCanDemoteEachOther | api/views/admins.py:99-128 | the last two active Admins, in any table, can demote each other at once, though one after the other the second is refused |
| AdminRaces.LastTwoCanDeactivateEachOther | api/views/admins.py:158-178 | the last two active Admins, in any table, can deactivate each other |
| Sessions.ChainIsBounded | api/views/auth.py:122-153 | however often a session is renewed its start does not move, and no token is good past start, limit and one lifetime |
| Sessions.SignInStartsSession | api/security.py:95-132 | a sign-in's token starts a session now, is good at once, and meets the ceiling |
| Sessions.SignInIffProved | api/views/auth.py:168-193 | a token is handed out exactly when the subject may sign in and the credential was proved, and is that account's |
| Sessions.TokenLife | api/security.py:122-132 | a token is good for exactly one lifetime, to the second |
| Sessions.OldTokensRead | api/security.py:173-181 | a token without the session and version claims began when issued and is of generation zero |
| Sessions.RefreshIsRenewal | api/views/auth.py:122-153 | the refresh hands out exactly the links of the renewal chain |
| Sessions.RowRequestsWrite | api/views/users.py:82-153 | resets, edits, additions and removals of accounts: exactly when each is accepted and what it writes |
| Sessions.Directory.TokenResponse | api/security.py:122-132 | the token is put on record, accepted at once as the row it was issued for, keeps the session start it was given, and ends within one lifetime |
| Sessions.Directory.SignOut | api/views/auth.py:233-238 | the caller's version moves on and nothing else; the token used is accepted by nobody, and nothing issued to the account as that account |
| Sessions.Directory.Refresh | api/views/auth.py:210-215 | exactly a current caller within the session limit gets a token, accepted as the same account, with the same start and under its ceiling |
| Sessions.Directory.ChangePassword | api/views/auth.py:527-553 | exactly a customer who proved the old password gets a token, accepted at once; nothing issued before is accepted as them, and no other row moves |
| Sessions.VersionsOnlyGrow | api/views/admins.py:141-149 | on every run an account's version only grows, no token is ahead of it, tokens without a version counting as zero, and sign-in names stay unique |
| Sessions.WhatRetires | api/views/users.py:108-115 | sign-out, password change and staff credential reset retire tokens; a failed change and a refresh do not |
| Sessions.RetiredForGood | api/authentication.py:82-85 | after a retirement no earlier token is ever accepted as that account again |
| Sessions.PasswordChangeKeepsThisDevice | api/views/auth.py:543-553 | the token handed back is accepted at once on the same account, the one used is not |
| Sessions.RetiredStaysDead | api/authentication.py:65-85 | a retired token whose subject nobody else goes by is accepted by nobody, as long as no request gives that subject to another account of its kind |
| Sessions.CustomersStayRetired | api/views/auth.py:499-507 | a customer's retired token is accepted by nobody ever again, unconditionally |
| Sessions.TakeOverWorks | api/views/users.py:146-153 | if the holder leaves or takes another name, its subject passes to a new account, and that account's credential is reset n times, the new account stands at generation n |
| Sessions.RevivableIff | api/authentication.py:65-85 | some requests make a current retired token acceptable again if and only if it is not a customer's |
| Sessions.ReusedNumberRevivesToken | api/models.py:179-182 | a number removed and added again starts at version zero, which an old token can match |
| StaleSaves.VersionReturnsIff | api/serializers.py:576-582 | over any mixture of whole-row edits and version bumps, a version the row had left comes back if and only if some edit read the row before a bump and saved it after |
| StaleSaves.TokenRevivesIff | api/views/users.py:90-115 | a token of the account is accepted, refused and accepted again if and only if some edit straddles a bump in that way |
| Dedupe.LeastFree | api/migrations/0003_quick_commerce.py:67-69 | the suffix search ends at the least free suffix |
| Dedupe.Deduplicate | api/migrations/0003_quick_commerce.py:60-72 | both loops end and give the specified names |
| Dedupe.RowsAreKept | api/migrations/0003_quick_commerce.py:62-72 | every row is kept in order with its own name in front of any suffix |
| Dedupe.CaseAndSpaceDoNotCount | api/migrations/0003_quick_commerce.py:63 | names that differ in ASCII case are one name, and white space around a name is not part of it |
| Dedupe.TidyNamesComeOutDistinct | api/migrations/0003_quick_commerce.py:61-72 | names that are not empty and do not end in white space come out distinct however cased |
| Dedupe.FirstHoldersKeepNamesIff | api/migrations/0003_quick_commerce.py:62-72 | over a stock of names every first holder keeps its name in every list, if and only if no name's key is another's with a suffix from 2 up |
| Dedupe.KeepsItsNameIfFree | api/migrations/0003_quick_commerce.py:63-66 | any row keeps its name exactly when its key was not taken by then |
| Dedupe.FirstHolderCanBeRenamed | api/migrations/0003_quick_commerce.py:62-72 | the first holder of a name is renamed when an earlier row was given it |
| Dedupe.UntidyNamesCollide | api/migrations/0003_quick_commerce.py:63-71 | any empty name, or name ending in white space, can leave two rows alike |
| Dedupe.TidyIsExact | api/migrations/0003_quick_commerce.py:63-71 | adding a name to tidy ones is safe exactly when it is tidy |

## Left out

- HTTP, serialization, permissions, throttling, logging, audit rows, push notifications and uploads: no effect on the state proved about.
- Whether the shop is open and whether a stated position lies beyond the delivery radius: verdicts handed to checkout.
- `haversine_km` and float rounding: any non-negative distance, and any monotone rounding within 0.005 km.
- Stripping of white space from the idempotency key and from reasons: taken as already done.
- Foreign-key locks and isolation beyond reading the committed row when it is locked.
- Product creation and deletion in the interleaved model: they are atomic requests of the serial and shop models only, because deletion checks order items without locking the product.
- The choice `auto_assign` makes, in the serialisability claim: the interleaved model takes the rider picked as part of the job; choosing is atomic in the shop model and interleaved in HandOuts.
- A limit of one bag per rider over whole runs: claims and managers' hand-overs do not check it, so it is not an invariant.
- Every retry of a checkout returning the order: a concurrent retry can be refused for stock or opening hours instead.
- Customer contact details, notes, names, images, and the live position an ended order deletes.
- AdminRaces.EveryScheduleAdministrableIff: takes the emails asked for by edits in flight to be free and different, because two edits after one email end in a database refusal instead.
- Category creation and deletion among re-parentings in flight: the racing model has a fixed set of categories.
- Other columns of a staff row that a stale save writes back: the racing model follows the version alone.
- Two requests at once on the same account row: they wait for each other's lock, or are the command, which is atomic here on any one row.
- Staff and availability requests as imperative code: they are in the shop's state machine only.
- Averages, on-time and cancellation rates, top products, category shares and inventory health: easy once the windows are right.
- The order of rider rows in the cash report: its conservation holds for any listing.
- Signatures, password hashing, PINs and one-time codes: a token is a claim record that only the server can have issued.
- Requests.Store.DeleteProduct: does not model the uploaded picture that is removed with the row.
- Dedupe.Deduplicate: models ASCII case and white space only, because Unicode case folding is library behaviour.
- Discounts.PercentIsExactFloor: models the context's rounding of results whose dropped digits lie right of the point, which is every result a money column leads to.
- The reverse migrations, seed data, settings checks, promos, suggestions, opening hours and device registration.
